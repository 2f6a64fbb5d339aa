// The admin's in-memory catalog lists: deleting a promotion (a filter on its
// id), deleting a product (a splice at its list position) and saving the
// product form, which either replaces the product being edited or appends a
// new one.
module Catalog {
  import opened Js

  /** A bundled-quantity offer attached to a product (its `label` is the caption). */
  datatype Tier = Tier(id: string, caption: string, price: int, oldPrice: Option<int>)

  datatype Product = Product(code: string, name: string, desc: string, price: int, img: string, tiers: seq<Tier>)

  /** A promotion; only its id takes part in the operations modelled here. */
  datatype Promotion = Promotion(id: string, title: string, desc: string, price: int)

  /** The product form's fields, already read and parsed. */
  datatype ProductForm = ProductForm(name: string, desc: string, price: int, tiers: seq<Tier>)

  const DefaultImg: string := "assets/water_bottle_premium.png"
  const ProductPrefix: string := "P-"

  // ---- deletePromo ----

  /** `promotions.filter(p => p.id !== id)`. */
  function WithoutId(promos: seq<Promotion>, id: string): (r: seq<Promotion>)
    ensures forall p :: p in r ==> p in promos && p.id != id
    ensures forall p :: p in promos && p.id != id ==> p in r
    ensures |r| <= |promos|
  {
    if promos == [] then []
    else (if promos[0].id != id then [promos[0]] else []) + WithoutId(promos[1..], id)
  }

  /** The filter works piecewise, so the promotions kept stay in their order. */
  lemma {:induction false} WithoutIdConcat(a: seq<Promotion>, b: seq<Promotion>, id: string)
    ensures WithoutId(a + b, id) == WithoutId(a, id) + WithoutId(b, id)
  {
    if a != [] {
      assert (a + b)[1..] == a[1..] + b;
      WithoutIdConcat(a[1..], b, id);
    } else {
      assert a + b == b;
    }
  }

  /** A list with no promotion of that id is left as it is; so a second
      deletion of the same id changes nothing. */
  lemma {:induction false} WithoutIdAbsent(promos: seq<Promotion>, id: string)
    requires forall k :: 0 <= k < |promos| ==> promos[k].id != id
    ensures WithoutId(promos, id) == promos
  {
    if promos != [] {
      WithoutIdAbsent(promos[1..], id);
    }
  }

  lemma WithoutIdIdempotent(promos: seq<Promotion>, id: string)
    ensures WithoutId(WithoutId(promos, id), id) == WithoutId(promos, id)
  {
    var r := WithoutId(promos, id);
    forall k | 0 <= k < |r| ensures r[k].id != id {
      assert r[k] in r;
    }
    WithoutIdAbsent(r, id);
  }

  // ---- The product form ----

  /** `imgData || current`: a freshly uploaded picture wins; no upload, or an
      empty one, keeps the current picture. */
  function ImgOr(upload: Option<string>, current: string): (r: string)
    ensures upload.Some? && upload.value != "" ==> r == upload.value
    ensures r == current || (upload.Some? && r == upload.value)
    ensures r == "" ==> current == ""
  {
    match upload
    case Some(data) => if data != "" then data else current
    case None => current
  }

  /** The product carries the name, description, price and tiers entered
      in the form. */
  predicate Saved(p: Product, form: ProductForm)
  {
    p.name == form.name && p.desc == form.desc && p.price == form.price && p.tiers == form.tiers
  }

  /** The menu after submitting the product form. While a product is being
      edited, the entry at `editing` is replaced and keeps its code and, unless
      a picture is uploaded, its picture; otherwise a new product with code
      `'P-' + stamp` is appended. An edit index that no longer addresses a
      product makes the handler throw, which `None` stands for. */
  function Upsert(menu: seq<Product>, editing: Option<int>, form: ProductForm,
                  upload: Option<string>, stamp: string): (r: Option<seq<Product>>)
    ensures r.None? <==> editing.Some? && !(0 <= editing.value < |menu|)
    ensures r.Some? && editing.None? ==>
      && |r.value| == |menu| + 1 && r.value[..|menu|] == menu
      && r.value[|menu|].code == ProductPrefix + stamp
      && r.value[|menu|].img == ImgOr(upload, DefaultImg)
      && Saved(r.value[|menu|], form)
    ensures r.Some? && editing.Some? ==>
      && |r.value| == |menu|
      && r.value[editing.value].code == menu[editing.value].code
      && r.value[editing.value].img == ImgOr(upload, menu[editing.value].img)
      && Saved(r.value[editing.value], form)
      && forall j :: 0 <= j < |menu| && j != editing.value ==> r.value[j] == menu[j]
    ensures r.Some? ==> exists j :: 0 <= j < |r.value| && r.value[j].name == form.name
  {
    match editing
    case Some(k) =>
      if 0 <= k < |menu| then
        var p := Product(menu[k].code, form.name, form.desc, form.price, ImgOr(upload, menu[k].img), form.tiers);
        var m := menu[k := p];
        assert m[k].name == form.name;
        Some(m)
      else None
    case None =>
      var p := Product(ProductPrefix + stamp, form.name, form.desc, form.price, ImgOr(upload, DefaultImg), form.tiers);
      var m := menu + [p];
      assert m[|menu|].name == form.name;
      Some(m)
  }

  // ---- deleteProduct and the edit index ----

  /** The edit index after `menu.splice(index, 1)` if it followed the product
      being edited: it is cleared when that product is the one removed, moves
      down by one when a product before it is removed, and otherwise stays. */
  function DeleteTracked(menu: seq<Product>, editing: Option<int>, index: int): (r: (seq<Product>, Option<int>))
    ensures r.0 == SpliceOne(menu, index)
  {
    var k := SpliceStart(|menu|, index);
    var e :=
      if k >= |menu| then editing
      else match editing
        case None => None
        case Some(i) => if i == k then None else if i > k then Some(i - 1) else Some(i);
    (SpliceOne(menu, index), e)
  }

  /** With the edit index tracked, it keeps addressing the product being
      edited, and is cleared only when that very product was deleted. */
  lemma DeleteTrackedKeepsTarget(menu: seq<Product>, editing: int, index: int)
    requires 0 <= editing < |menu|
    ensures var (m, e) := DeleteTracked(menu, Some(editing), index);
      && (e.Some? ==> 0 <= e.value < |m| && m[e.value] == menu[editing])
      && (e.None? <==> SpliceStart(|menu|, index) == editing)
  {
    var k := SpliceStart(|menu|, index);
    var m := DeleteTracked(menu, Some(editing), index).0;
    if k < |menu| {
      SpliceOneAt(menu, k);
      assert m == SpliceOne(menu, k);
      if editing < k {
        assert m[editing] == menu[editing];
      } else if editing > k {
        assert m[editing - 1] == menu[editing];
      }
    } else {
      assert m == menu;
    }
  }

  /** As written, deleting a product leaves the edit index where it was. If
      the admin is editing the second of three products and deletes the
      first, saving the form then writes the edit over the third product,
      under the third product's code, and the product being edited is not
      changed. */
  lemma StaleEditOverwritesNeighbour(a: Product, b: Product, c: Product, form: ProductForm, stamp: string)
    requires form.name != b.name
    ensures var r := Upsert(SpliceOne([a, b, c], 0), Some(1), form, None, stamp);
      && r.Some? && |r.value| == 2
      && r.value[0] == b && r.value[0].name != form.name
      && r.value[1].code == c.code && r.value[1].name == form.name
  {
    assert SpliceOne([a, b, c], 0) == [b, c];
  }
}
