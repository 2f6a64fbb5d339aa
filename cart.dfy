// The cart ledger shared by both variants of the shop: lines keyed by product
// code, the item count and money total shown to the customer, and the pure
// effect of adding a product, changing a line's quantity and removing a line.
module Cart {
  import opened Js

  /** What a menu, tier or promotion button hands to `addToCart`. Prices are
      whole céntimos. */
  datatype Item = Item(code: string, name: string, price: int)

  /** A cart line: the item's fields plus a quantity. */
  datatype Line = Line(code: string, name: string, price: int, qty: int)

  /** The line `{ ...item, qty: 1 }` pushed for a product not yet in the cart. */
  function NewLine(item: Item): Line
  {
    Line(item.code, item.name, item.price, 1)
  }

  /** The badge count, `cart.reduce((s, i) => s + i.qty, 0)`: a left fold. */
  function Count(lines: seq<Line>): (r: int)
    ensures (forall k :: 0 <= k < |lines| ==> lines[k].qty >= 0) ==> r >= 0
  {
    if lines == [] then 0 else Count(lines[..|lines| - 1]) + lines[|lines| - 1].qty
  }

  /** What one line adds to the total: `i.price * i.qty`. */
  function Amount(line: Line): (r: int)
    ensures line.price >= 0 && line.qty >= 0 ==> r >= 0
  {
    line.price * line.qty
  }

  /** The cart total, `cart.reduce((s, i) => s + i.price * i.qty, 0)`. */
  function Total(lines: seq<Line>): (r: int)
    ensures (forall k :: 0 <= k < |lines| ==> lines[k].price >= 0 && lines[k].qty >= 0) ==> r >= 0
  {
    if lines == [] then 0 else Total(lines[..|lines| - 1]) + Amount(lines[|lines| - 1])
  }

  predicate HasCode(lines: seq<Line>, code: string)
  {
    exists k :: 0 <= k < |lines| && lines[k].code == code
  }

  /** What every cart the shop builds satisfies: each line holds at least
      one unit, and no two lines share a code. */
  predicate WellFormed(lines: seq<Line>)
  {
    && (forall k :: 0 <= k < |lines| ==> lines[k].qty >= 1)
    && (forall j, k :: 0 <= j < k < |lines| ==> lines[j].code != lines[k].code)
  }

  function CodeOf(line: Line): string
  {
    line.code
  }

  /** `cart.find(i => i.code === code)`, as the position of the line found. */
  function IndexOfCode(lines: seq<Line>, code: string): (r: Option<nat>)
    ensures r.Some? ==> r.value < |lines| && lines[r.value].code == code
    ensures r.Some? ==> forall j :: 0 <= j < r.value ==> lines[j].code != code
    ensures r.None? <==> !HasCode(lines, code)
  {
    Find(lines, CodeOf, code)
  }

  /** The cart after `addToCart(item)`: the line with the item's code gains a
      unit, or a new one-unit line is pushed at the end. */
  function AddLine(lines: seq<Line>, item: Item): (r: seq<Line>)
    ensures HasCode(r, item.code)
    ensures |r| == if HasCode(lines, item.code) then |lines| else |lines| + 1
  {
    match IndexOfCode(lines, item.code)
    case Some(i) =>
      var r := lines[i := lines[i].(qty := lines[i].qty + 1)];
      assert r[i].code == item.code;
      r
    case None =>
      var r := lines + [NewLine(item)];
      assert r[|lines|].code == item.code;
      r
  }

  /** The cart after `updateItemQty(index, delta)`: an index with no line
      changes nothing; otherwise the line's quantity moves by `delta`, and the
      line is spliced out when that leaves it at zero or below. */
  function ChangeQty(lines: seq<Line>, index: int, delta: int): (r: seq<Line>)
    ensures |r| <= |lines|
    ensures forall k :: 0 <= k < |r| ==> HasCode(lines, r[k].code)
  {
    if 0 <= index < |lines| then
      var q := lines[index].qty + delta;
      if q <= 0 then SpliceOne(lines, index) else lines[index := lines[index].(qty := q)]
    else lines
  }

  /** `n` clicks on the same product's button. */
  function AddTimes(lines: seq<Line>, item: Item, n: nat): seq<Line>
  {
    if n == 0 then lines else AddLine(AddTimes(lines, item, n - 1), item)
  }

  // ---- The count and the total ----

  /** Both sums split over a concatenation. */
  lemma {:induction false} SumsAppend(a: seq<Line>, b: seq<Line>)
    ensures Count(a + b) == Count(a) + Count(b)
    ensures Total(a + b) == Total(a) + Total(b)
  {
    if b == [] {
      assert a + b == a;
    } else {
      var b' := b[..|b| - 1];
      assert (a + b)[..|a + b| - 1] == a + b';
      SumsAppend(a, b');
    }
  }

  /** Replacing one line moves each sum by that line's difference. */
  lemma {:induction false} SumsUpdate(lines: seq<Line>, i: nat, x: Line)
    requires i < |lines|
    ensures Count(lines[i := x]) == Count(lines) - lines[i].qty + x.qty
    ensures Total(lines[i := x]) == Total(lines) - Amount(lines[i]) + Amount(x)
  {
    assert lines == lines[..i] + [lines[i]] + lines[i + 1..];
    assert lines[i := x] == lines[..i] + [x] + lines[i + 1..];
    SumsAppend(lines[..i] + [lines[i]], lines[i + 1..]);
    SumsAppend(lines[..i], [lines[i]]);
    SumsAppend(lines[..i] + [x], lines[i + 1..]);
    SumsAppend(lines[..i], [x]);
    assert [lines[i]][..0] == [];
    assert [x][..0] == [];
  }

  /** Splicing out the line at `k` takes its units and its amount off the sums. */
  lemma {:induction false} SumsSplice(lines: seq<Line>, k: nat)
    requires k < |lines|
    ensures Count(SpliceOne(lines, k)) == Count(lines) - lines[k].qty
    ensures Total(SpliceOne(lines, k)) == Total(lines) - Amount(lines[k])
  {
    assert SpliceOne(lines, k) == lines[..k] + lines[k + 1..];
    SumsRemove(lines, k);
  }

  lemma {:induction false} SumsRemove(lines: seq<Line>, k: nat)
    requires k < |lines|
    ensures Count(lines[..k] + lines[k + 1..]) == Count(lines) - lines[k].qty
    ensures Total(lines[..k] + lines[k + 1..]) == Total(lines) - Amount(lines[k])
  {
    var pre, x, post := lines[..k], lines[k], lines[k + 1..];
    assert lines == pre + ([x] + post);
    SumsAppend(pre, post);
    SumsAppend(pre, [x] + post);
    SumsAppend([x], post);
    SumsSingle(x);
  }

  lemma {:induction false} SumsSingle(x: Line)
    ensures Count([x]) == x.qty && Total([x]) == Amount(x)
  {
    assert [x][..0] == [];
  }

  /** In a well-formed cart the badge shows at least one unit per line. */
  lemma {:induction false} CountAtLeastLines(lines: seq<Line>)
    requires WellFormed(lines)
    ensures Count(lines) >= |lines|
  {
    if lines != [] {
      var init := lines[..|lines| - 1];
      assert WellFormed(init);
      CountAtLeastLines(init);
    }
  }

  // ---- addToCart ----

  /** Adding a product: with a line of that code already present, only that
      line changes, by one unit; otherwise the one-unit line is appended.
      Either way the cart stays well formed. */
  lemma {:induction false} AddLineEffect(lines: seq<Line>, item: Item)
    requires WellFormed(lines)
    ensures WellFormed(AddLine(lines, item))
    ensures HasCode(lines, item.code) ==>
      && |AddLine(lines, item)| == |lines|
      && forall k :: 0 <= k < |lines| ==>
           AddLine(lines, item)[k] ==
             if lines[k].code == item.code then lines[k].(qty := lines[k].qty + 1) else lines[k]
    ensures !HasCode(lines, item.code) ==>
      AddLine(lines, item) == lines + [Line(item.code, item.name, item.price, 1)]
  {
  }

  /** Every add puts one unit on the badge; the total rises by the price of
      the line that absorbed it, which is the price stored when the line was
      created, not the price carried by the later click. */
  lemma {:induction false} AddLineSums(lines: seq<Line>, item: Item)
    ensures Count(AddLine(lines, item)) == Count(lines) + 1
    ensures Total(AddLine(lines, item)) ==
      Total(lines) + match IndexOfCode(lines, item.code)
                     case Some(i) => lines[i].price
                     case None => item.price
  {
    match IndexOfCode(lines, item.code)
    case Some(i) =>
      var bumped := lines[i].(qty := lines[i].qty + 1);
      assert AddLine(lines, item) == lines[i := bumped];
      SumsUpdate(lines, i, bumped);
      AmountShift(lines[i], 1);
    case None =>
      assert AddLine(lines, item) == lines + [NewLine(item)];
      SumsAppend(lines, [NewLine(item)]);
      assert [NewLine(item)][..0] == [];
  }

  /** `n` adds of a product not yet in the cart leave one line for it, with
      `qty = n`, behind the lines that were there. */
  lemma {:induction false} AddTimesNew(lines: seq<Line>, item: Item, n: nat)
    requires WellFormed(lines) && !HasCode(lines, item.code) && n >= 1
    ensures AddTimes(lines, item, n) == lines + [Line(item.code, item.name, item.price, n)]
  {
    if n > 1 {
      AddTimesNew(lines, item, n - 1);
      var before := lines + [Line(item.code, item.name, item.price, n - 1)];
      assert before[|lines|].code == item.code;
      assert IndexOfCode(before, item.code) == Some(|lines|);
    }
  }

  /** Adding the same product `n` times to an empty cart gives one line with
      `qty = n`, a badge of `n` and a total of `n * price`. */
  lemma {:induction false} AddTimesFromEmpty(item: Item, n: nat)
    requires n >= 1
    ensures AddTimes([], item, n) == [Line(item.code, item.name, item.price, n)]
    ensures Count(AddTimes([], item, n)) == n
    ensures Total(AddTimes([], item, n)) == n * item.price
  {
    AddTimesNew([], item, n);
    var one := [Line(item.code, item.name, item.price, n)];
    assert one[..0] == [];
  }

  // ---- updateItemQty ----

  /** Changing a quantity keeps the cart well formed: every remaining line
      still holds at least one unit and codes stay unique. */
  lemma {:induction false} ChangeQtyKeepsWellFormed(lines: seq<Line>, index: int, delta: int)
    requires WellFormed(lines)
    ensures WellFormed(ChangeQty(lines, index, delta))
  {
    if 0 <= index < |lines| && lines[index].qty + delta <= 0 {
      SpliceKeepsWellFormed(lines, index);
    }
  }

  /** An index with no line changes nothing; otherwise the line is removed
      exactly when its new quantity is at most zero, and keeps everything but
      its quantity when it stays. The other lines keep their values and their
      order. */
  lemma {:induction false} ChangeQtyEffect(lines: seq<Line>, index: int, delta: int)
    ensures !(0 <= index < |lines|) ==> ChangeQty(lines, index, delta) == lines
    ensures 0 <= index < |lines| ==>
      var q := lines[index].qty + delta;
      var r := ChangeQty(lines, index, delta);
      && (|r| == |lines| - 1 <==> q <= 0)
      && (q > 0 ==> |r| == |lines| && r[index] == lines[index].(qty := q))
      && (q > 0 ==> forall j :: 0 <= j < |lines| && j != index ==> r[j] == lines[j])
      && (q <= 0 ==> r == lines[..index] + lines[index + 1..])
  {
  }

  /** Changing a quantity moves the badge count and the total by the units
      and the amount that changed. */
  lemma {:induction false} ChangeQtySums(lines: seq<Line>, index: int, delta: int)
    requires 0 <= index < |lines|
    ensures var q := lines[index].qty + delta;
      var r := ChangeQty(lines, index, delta);
      && Count(r) == Count(lines) + (if q <= 0 then -lines[index].qty else delta)
      && Total(r) == Total(lines) +
           (if q <= 0 then -Amount(lines[index]) else lines[index].price * delta)
  {
    var q := lines[index].qty + delta;
    if q <= 0 {
      SumsSplice(lines, index);
    } else {
      var x := lines[index].(qty := q);
      assert ChangeQty(lines, index, delta) == lines[index := x];
      SumsUpdate(lines, index, x);
      AmountShift(lines[index], delta);
    }
  }

  lemma AmountShift(x: Line, delta: int)
    ensures Amount(x.(qty := x.qty + delta)) == Amount(x) + x.price * delta
  {
    assert x.price * (x.qty + delta) == x.price * x.qty + x.price * delta;
  }

  /** The minus button on a one-unit line removes that product from the cart. */
  lemma {:induction false} DecrementLastUnit(lines: seq<Line>, index: nat)
    requires WellFormed(lines) && index < |lines| && lines[index].qty == 1
    ensures |ChangeQty(lines, index, -1)| == |lines| - 1
    ensures !HasCode(ChangeQty(lines, index, -1), lines[index].code)
  {
    var r := ChangeQty(lines, index, -1);
    SpliceOneAt(lines, index);
    forall k | 0 <= k < |r| ensures r[k].code != lines[index].code {
      if k < index {
        assert r[k] == lines[k];
      } else {
        assert r[k] == lines[k + 1];
      }
    }
  }

  // ---- removeItem ----

  lemma {:induction false} RemoveKeepsWellFormed(lines: seq<Line>, k: nat)
    requires WellFormed(lines) && k < |lines|
    ensures WellFormed(lines[..k] + lines[k + 1..])
  {
    var r := lines[..k] + lines[k + 1..];
    assert forall j :: 0 <= j < |r| ==> r[j] == lines[if j < k then j else j + 1];
  }

  /** A splice, at any index, keeps the cart well formed. */
  lemma {:induction false} SpliceKeepsWellFormed(lines: seq<Line>, index: int)
    requires WellFormed(lines)
    ensures WellFormed(SpliceOne(lines, index))
  {
    var k := SpliceStart(|lines|, index);
    if k < |lines| {
      RemoveKeepsWellFormed(lines, k);
    }
  }

  /** Removing the line at an index inside the cart takes off exactly its
      units and its amount, and nothing else of the cart is lost. */
  lemma {:induction false} RemoveLineEffect(lines: seq<Line>, index: nat)
    requires index < |lines|
    ensures Count(SpliceOne(lines, index)) == Count(lines) - lines[index].qty
    ensures Total(SpliceOne(lines, index)) == Total(lines) - Amount(lines[index])
    ensures multiset(SpliceOne(lines, index)) + multiset{lines[index]} == multiset(lines)
  {
    SumsSplice(lines, index);
    SpliceOneAt(lines, index);
  }
}
