// The order lifecycle of app.js. Checkout files a kitchen ticket (comanda)
// and prints a receipt, but records no sale; a sale enters the cash register
// only when the comanda is marked ready, copied from the comanda's frozen
// items, total and customer.
module Shop {
  import opened Js
  import opened Cart
  import opened Orders
  import opened Catalog

  /** A comanda line, `{ name, qty, price }`, copied from a cart line. */
  datatype TicketItem = TicketItem(name: string, qty: int, price: int)

  datatype Comanda = Comanda(id: string, txId: string, items: seq<TicketItem>, total: int,
                             status: Status, time: string, customer: Customer)

  /** A sale in the cash register, `{ id, items, total, date, customer }`. */
  datatype Transaction = Transaction(id: string, items: seq<TicketItem>, total: int,
                                     date: string, customer: Customer)

  /** The value of the comandas tab's status select: 'all' or one status. */
  datatype StatusFilter = All | Only(status: Status)

  function TicketOf(line: Line): TicketItem
  {
    TicketItem(line.name, line.qty, line.price)
  }

  /** `cart.map(i => ({ name: i.name, qty: i.qty, price: i.price }))`: the
      comanda's lines copy the cart's lines one for one, in cart order. */
  function Snapshot(lines: seq<Line>): (items: seq<TicketItem>)
    ensures |items| == |lines|
    ensures forall k :: 0 <= k < |lines| ==> items[k] == TicketOf(lines[k])
  {
    if lines == [] then [] else Snapshot(lines[..|lines| - 1]) + [TicketOf(lines[|lines| - 1])]
  }

  /** The sum of `price * qty` over a comanda's lines. */
  function ItemsTotal(items: seq<TicketItem>): int
  {
    if items == [] then 0
    else ItemsTotal(items[..|items| - 1]) + items[|items| - 1].price * items[|items| - 1].qty
  }

  /** The comanda's stored total agrees with its own lines: the snapshot of
      the cart sums to the cart's total. */
  lemma {:induction false} SnapshotTotal(lines: seq<Line>)
    ensures ItemsTotal(Snapshot(lines)) == Total(lines)
  {
    if lines != [] {
      var init := lines[..|lines| - 1];
      assert Snapshot(lines)[..|lines| - 1] == Snapshot(init);
      SnapshotTotal(init);
    }
  }

  // ---- Finding a comanda and changing its status ----

  function ComandaId(c: Comanda): string
  {
    c.id
  }

  /** `comandas.find(x => x.id === id)`, as the position of the first match. */
  function IndexOfId(cs: seq<Comanda>, id: string): Option<nat>
  {
    Find(cs, ComandaId, id)
  }

  /** `c => c.status = st`. */
  function StatusTo(st: Status): Comanda -> Comanda
  {
    (c: Comanda) => c.(status := st)
  }

  /** `c.status = st` on the comanda found by id; an unknown id changes
      nothing. No check of the current status is made. */
  function SetStatus(cs: seq<Comanda>, id: string, st: Status): (r: seq<Comanda>)
    ensures |r| == |cs|
    ensures IndexOfId(cs, id).Some? ==> r[IndexOfId(cs, id).value].status == st
  {
    UpdateFoundEffect(cs, ComandaId, id, StatusTo(st));
    UpdateFound(cs, ComandaId, id, StatusTo(st))
  }

  /** Setting a status gives the status to the first comanda with that id and
      touches nothing else: no other comanda changes, that comanda keeps every
      other field, and the list keeps its length and order; an unknown id
      leaves the list as it is. */
  lemma SetStatusEffect(cs: seq<Comanda>, id: string, st: Status)
    ensures IndexOfId(cs, id).Some? ==>
      SetStatus(cs, id, st)[IndexOfId(cs, id).value] == cs[IndexOfId(cs, id).value].(status := st)
    ensures forall j :: 0 <= j < |cs| && SetStatus(cs, id, st)[j] != cs[j] ==> IndexOfId(cs, id) == Some(j)
    ensures forall j :: 0 <= j < |cs| ==> SetStatus(cs, id, st)[j].(status := cs[j].status) == cs[j]
    ensures IndexOfId(cs, id).None? ==> SetStatus(cs, id, st) == cs
    ensures IndexOfId(SetStatus(cs, id, st), id) == IndexOfId(cs, id)
  {
    UpdateFoundEffect(cs, ComandaId, id, StatusTo(st));
  }

  /** The last status set wins, whatever the status was: a second
      `markReady` leaves the comanda as the first did, and `cancelOrder`
      after `markReady` turns a ready comanda into a canceled one. */
  lemma SetStatusLastWins(cs: seq<Comanda>, id: string, s1: Status, s2: Status)
    ensures SetStatus(SetStatus(cs, id, s1), id, s2) == SetStatus(cs, id, s2)
  {
    SetStatusEffect(cs, id, s1);
  }

  /** Canceling a comanda that is already ready succeeds. */
  lemma CancelOverridesReady(cs: seq<Comanda>, id: string, k: nat)
    requires IndexOfId(cs, id) == Some(k)
    ensures SetStatus(SetStatus(cs, id, Listo), id, Cancelado)[k].status == Cancelado
  {
    SetStatusLastWins(cs, id, Listo, Cancelado);
  }

  /** The comandas tab offers the mark-ready and cancel buttons only on a
      pending comanda; the handlers themselves check nothing. */
  predicate OffersActions(c: Comanda)
  {
    c.status == Pendiente
  }

  /** Through the buttons, each comanda is acted on at most once: marking it
      ready or canceling it withdraws both buttons. */
  lemma ActionWithdrawsButtons(cs: seq<Comanda>, id: string, st: Status)
    requires st != Pendiente
    ensures IndexOfId(cs, id).Some? ==> !OffersActions(SetStatus(cs, id, st)[IndexOfId(cs, id).value])
  {
    SetStatusEffect(cs, id, st);
  }

  // ---- markReady: the sale ----

  /** The sale `markReady` puts at the front of the cash register: none for
      an unknown id, otherwise one copied from the comanda found, under a
      newly minted id. */
  function ReadySale(cs: seq<Comanda>, id: string, txStamp: string, date: string): (r: seq<Transaction>)
    ensures |r| == (if IndexOfId(cs, id).Some? then 1 else 0)
    ensures r != [] ==>
      var c := cs[IndexOfId(cs, id).value];
      && r[0].items == c.items && r[0].total == c.total && r[0].customer == c.customer
      && r[0].id == TxPrefix + txStamp
  {
    match IndexOfId(cs, id)
    case Some(k) => [Transaction(TxPrefix + txStamp, cs[k].items, cs[k].total, date, cs[k].customer)]
    case None => []
  }

  /** A comanda already marked ready yields a sale again when marked ready a
      second time: the same items, total and customer are recorded twice. */
  lemma RepeatReadyRecordsAgain(cs: seq<Comanda>, id: string, txStamp: string, date: string)
    ensures ReadySale(SetStatus(cs, id, Listo), id, txStamp, date) == ReadySale(cs, id, txStamp, date)
  {
    SetStatusEffect(cs, id, Listo);
  }

  /** The sale recorded for a comanda reports the money of that comanda's
      own lines when the comanda does. */
  lemma ReadySaleTotal(cs: seq<Comanda>, id: string, txStamp: string, date: string)
    requires forall k :: 0 <= k < |cs| ==> cs[k].total == ItemsTotal(cs[k].items)
    ensures forall t :: t in ReadySale(cs, id, txStamp, date) ==> t.total == ItemsTotal(t.items)
  {
  }

  // ---- The comandas tab's status filter ----

  /** `comandas.filter(c => c.status === st)`. */
  function WithStatus(cs: seq<Comanda>, st: Status): (r: seq<Comanda>)
    ensures forall c :: c in r <==> c in cs && c.status == st
    ensures |r| <= |cs|
  {
    if cs == [] then []
    else (if cs[0].status == st then [cs[0]] else []) + WithStatus(cs[1..], st)
  }

  /** The list the comandas tab shows for a filter value. */
  function Filtered(cs: seq<Comanda>, f: StatusFilter): (r: seq<Comanda>)
    ensures f.All? ==> r == cs
    ensures forall c :: c in r <==> c in cs && (f.All? || c.status == f.status)
  {
    match f
    case All => cs
    case Only(st) => WithStatus(cs, st)
  }

  /** The filter works piecewise, so the comandas shown keep the order they
      were filed in. */
  lemma {:induction false} WithStatusConcat(a: seq<Comanda>, b: seq<Comanda>, st: Status)
    ensures WithStatus(a + b, st) == WithStatus(a, st) + WithStatus(b, st)
  {
    if a != [] {
      assert (a + b)[1..] == a[1..] + b;
      WithStatusConcat(a[1..], b, st);
    } else {
      assert a + b == b;
    }
  }

  /** Every comanda shows under exactly one of the three status views. */
  lemma {:induction false} StatusViewsPartition(cs: seq<Comanda>)
    ensures |WithStatus(cs, Pendiente)| + |WithStatus(cs, Listo)| + |WithStatus(cs, Cancelado)| == |cs|
  {
    if cs != [] {
      StatusViewsPartition(cs[1..]);
    }
  }

  // ---- The session ----

  /** The app's global `state`: catalog lists, cart, cash register and
      comanda queue, plus the index of the product being edited. */
  class Session {
    var menu: seq<Product>
    var cart: seq<Line>
    var transactions: seq<Transaction>
    var comandas: seq<Comanda>
    var promotions: seq<Promotion>
    var editingProductIndex: Option<int>

    /** The cart is well formed, and every comanda and every sale carries a
        total equal to the sum over its own lines. */
    ghost predicate Valid()
      reads this
    {
      && WellFormed(cart)
      && (forall k :: 0 <= k < |comandas| ==> comandas[k].total == ItemsTotal(comandas[k].items))
      && (forall k :: 0 <= k < |transactions| ==> transactions[k].total == ItemsTotal(transactions[k].items))
    }

    /** The state after the catalog and the promotions have been loaded. */
    constructor (menu: seq<Product>, promotions: seq<Promotion>)
      ensures Valid()
      ensures this.menu == menu && this.promotions == promotions
      ensures cart == [] && transactions == [] && comandas == [] && editingProductIndex == None
    {
      this.menu := menu;
      this.promotions := promotions;
      cart, transactions, comandas := [], [], [];
      editingProductIndex := None;
    }

    /** `addToCart(item)`. */
    method AddToCart(item: Item)
      requires Valid()
      modifies this`cart
      ensures Valid()
      ensures cart == AddLine(old(cart), item)
    {
      var found := IndexOfCode(cart, item.code);
      if found.Some? {
        var i := found.value;
        cart := cart[i := cart[i].(qty := cart[i].qty + 1)];
      } else {
        cart := cart + [NewLine(item)];
      }
      AddLineEffect(old(cart), item);
    }

    /** The loop of `renderCartModal` that sums the lines; an empty cart shows
        no total. */
    method CartTotalShown() returns (shown: Option<int>)
      ensures shown == if cart == [] then None else Some(Total(cart))
    {
      if |cart| == 0 {
        return None;
      }
      var total := 0;
      var i := 0;
      while i < |cart|
        invariant 0 <= i <= |cart|
        invariant total == Total(cart[..i])
      {
        total := total + cart[i].price * cart[i].qty;
        assert cart[..i + 1][..i] == cart[..i];
        i := i + 1;
      }
      assert cart[..i] == cart;
      shown := Some(total);
    }

    /** `updateItemQty(index, delta)`. */
    method UpdateItemQty(index: int, delta: int)
      requires Valid()
      modifies this`cart
      ensures Valid()
      ensures cart == ChangeQty(old(cart), index, delta)
    {
      if !(0 <= index < |cart|) {
        return;
      }
      ChangeQtyKeepsWellFormed(cart, index, delta);
      var q := cart[index].qty + delta;
      if q <= 0 {
        SpliceOneOverwritten(cart, index, cart[index].(qty := q));
      }
      cart := cart[index := cart[index].(qty := q)];
      if q <= 0 {
        cart := SpliceOne(cart, index);
      }
    }

    /** `removeItem(index)`, with the answer to its confirmation prompt. */
    method RemoveItem(index: int, confirmed: bool)
      requires Valid()
      modifies this`cart
      ensures Valid()
      ensures cart == if confirmed then SpliceOne(old(cart), index) else old(cart)
    {
      if confirmed {
        SpliceKeepsWellFormed(cart, index);
        cart := SpliceOne(cart, index);
      }
    }

    /** `openCheckout()`: the checkout form opens only on a non-empty cart;
        no order state changes. */
    method OpenCheckout() returns (shows: bool)
      ensures shows <==> cart != []
    {
      shows := |cart| != 0;
    }

    /** `finalizeOrder(customer)`: files a pending comanda that snapshots the
        cart, prints a receipt for a sale that is not recorded, and empties the
        cart. The cart is not checked for emptiness here. */
    method FinalizeOrder(customer: Customer, txStamp: string, cmdStamp: string, now: string)
      returns (ticket: Receipt)
      requires Valid()
      modifies this`cart, this`comandas
      ensures Valid()
      ensures ticket == CheckoutReceipt(old(cart), txStamp, now, customer)
      ensures comandas == old(comandas) +
        [Comanda(CmdPrefix + cmdStamp, ticket.id, Snapshot(old(cart)), Total(old(cart)), Pendiente, now, customer)]
      ensures cart == []
    {
      var total := Total(cart);
      var txId := TxPrefix + txStamp;
      ticket := Receipt(txId, cart, total, now, customer);
      var comanda := Comanda(CmdPrefix + cmdStamp, txId, Snapshot(cart), total, Pendiente, now, customer);
      SnapshotTotal(cart);
      comandas := comandas + [comanda];
      cart := [];
    }

    /** `markReady(id)`: the comanda found becomes 'listo' and a sale copied
        from it goes to the front of the cash register. */
    method MarkReady(id: string, txStamp: string, now: string)
      requires Valid()
      modifies this`comandas, this`transactions
      ensures Valid()
      ensures comandas == SetStatus(old(comandas), id, Listo)
      ensures transactions == ReadySale(old(comandas), id, txStamp, now) + old(transactions)
    {
      ReadySaleTotal(comandas, id, txStamp, now);
      SetStatusEffect(comandas, id, Listo);
      var found := IndexOfId(comandas, id);
      if found.Some? {
        var k := found.value;
        var c := comandas[k];
        comandas := comandas[k := c.(status := Listo)];
        var tx := Transaction(TxPrefix + txStamp, c.items, c.total, now, c.customer);
        transactions := [tx] + transactions;
      }
    }

    /** `cancelOrder(id)`, with the answer to its confirmation prompt. The
        cash register is never touched. */
    method CancelOrder(id: string, confirmed: bool)
      requires Valid()
      modifies this`comandas
      ensures Valid()
      ensures comandas == if confirmed then SetStatus(old(comandas), id, Cancelado) else old(comandas)
    {
      if confirmed {
        SetStatusEffect(comandas, id, Cancelado);
        var found := IndexOfId(comandas, id);
        if found.Some? {
          var k := found.value;
          comandas := comandas[k := comandas[k].(status := Cancelado)];
        }
      }
    }

    /** `deletePromo(id)`, with the answer to its confirmation prompt. */
    method DeletePromo(id: string, confirmed: bool)
      modifies this`promotions
      ensures promotions == if confirmed then WithoutId(old(promotions), id) else old(promotions)
    {
      if confirmed {
        promotions := WithoutId(promotions, id);
      }
    }

    /** `deleteProduct(index)`, with the answer to its confirmation prompt.
        The edit index is left as it was. */
    method DeleteProduct(index: int, confirmed: bool)
      modifies this`menu
      ensures menu == if confirmed then SpliceOne(old(menu), index) else old(menu)
    {
      if confirmed {
        menu := SpliceOne(menu, index);
      }
    }

    /** `editProduct(index)`: the index is stored whatever it addresses, before
        the product's fields are read into the form, where an index that
        addresses no product makes the handler throw. */
    method EditProduct(index: int)
      modifies this`editingProductIndex
      ensures editingProductIndex == Some(index)
    {
      editingProductIndex := Some(index);
    }

    /** `cancelEdit()`. */
    method CancelEdit()
      modifies this`editingProductIndex
      ensures editingProductIndex == None
    {
      editingProductIndex := None;
    }

    /** Submitting the product form: replaces the product being edited, under
        its own code, and leaves edit mode, or appends a new product. When the
        edit index no longer addresses a product the handler throws before
        changing anything, and `saved` is false. */
    method SaveProduct(form: ProductForm, upload: Option<string>, stamp: string) returns (saved: bool)
      modifies this`menu, this`editingProductIndex
      ensures var r := Upsert(old(menu), old(editingProductIndex), form, upload, stamp);
        && saved == r.Some?
        && (saved ==> menu == r.value && editingProductIndex == None)
        && (!saved ==> menu == old(menu) && editingProductIndex == old(editingProductIndex))
    {
      match editingProductIndex {
        case Some(k) =>
          if !(0 <= k < |menu|) {
            return false;
          }
          var p := Product(menu[k].code, form.name, form.desc, form.price, ImgOr(upload, menu[k].img), form.tiers);
          menu := menu[k := p];
          editingProductIndex := None;
        case None =>
          var p := Product(ProductPrefix + stamp, form.name, form.desc, form.price, ImgOr(upload, DefaultImg), form.tiers);
          menu := menu + [p];
      }
      saved := true;
    }
  }

  /** Two units of a 12.50 product, then checkout: one pending comanda of
      25.00, an empty cart, and no sale yet. */
  method CheckoutScenario() returns (s: Session, id: string)
    ensures fresh(s) && s.Valid()
    ensures s.cart == [] && s.transactions == []
    ensures |s.comandas| == 1 && s.comandas[0].id == id
    ensures s.comandas[0].status == Pendiente && s.comandas[0].total == 2500
  {
    var bidon := Item("P1", "Bidón", 1250);
    AddTimesFromEmpty(bidon, 2);
    assert AddTimes([], bidon, 2) == AddLine(AddLine([], bidon), bidon);
    s := new Session([], []);
    s.AddToCart(bidon);
    s.AddToCart(bidon);
    assert s.cart == [Line("P1", "Bidón", 1250, 2)] && Total(s.cart) == 2500;
    var shown := s.CartTotalShown();
    assert shown == Some(2500);

    var luis := Customer("Luis", "987654321", "");
    var ticket := s.FinalizeOrder(luis, "000001", "000001", "t0");
    id := s.comandas[0].id;
  }

  /** One order from checkout to cash register: marking the comanda ready
      records one sale of 25.00; marking it ready a second time records a
      second sale, and canceling it afterwards turns it from ready into
      canceled while both sales stay. */
  method OrderLifecycle()
  {
    var s, id := CheckoutScenario();
    var filed := s.comandas;
    assert IndexOfId(filed, id) == Some(0);
    SetStatusEffect(filed, id, Listo);
    s.MarkReady(id, "000002", "t1");
    assert s.comandas[0] == filed[0].(status := Listo);
    assert |s.transactions| == 1 && s.transactions[0].total == 2500;

    var ready := s.comandas;
    assert IndexOfId(ready, id) == Some(0);
    s.MarkReady(id, "000003", "t2");
    assert |s.transactions| == 2;

    SetStatusEffect(s.comandas, id, Cancelado);
    s.CancelOrder(id, true);
    assert s.comandas[0].status == Cancelado && |s.transactions| == 2;
  }
}
