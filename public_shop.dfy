// The order lifecycle of public/app.js. Checkout records the sale at once, at
// the front of the cash register, and appends a comanda that lists only names
// and quantities; marking the comanda ready changes its status and nothing
// else. This variant has no cancel. Its cart handlers are the same code as
// app.js's and are modelled by the Cart module and Shop.Session.
module PublicShop {
  import opened Js
  import opened Cart
  import opened Orders
  import opened Catalog

  /** A comanda line of this variant, `{ name, qty }`: no price. */
  datatype OrderItem = OrderItem(name: string, qty: int)

  /** A comanda of this variant carries no total. */
  datatype Comanda = Comanda(id: string, txId: string, items: seq<OrderItem>,
                             status: Status, time: string, customer: Customer)

  /** `cart.map(i => ({ name: i.name, qty: i.qty }))`. */
  function OrderItems(lines: seq<Line>): (items: seq<OrderItem>)
    ensures |items| == |lines|
    ensures forall k :: 0 <= k < |lines| ==> items[k] == OrderItem(lines[k].name, lines[k].qty)
  {
    if lines == [] then [] else OrderItems(lines[..|lines| - 1]) + [OrderItem(lines[|lines| - 1].name, lines[|lines| - 1].qty)]
  }

  /** The units a comanda asks the kitchen for. */
  function Units(items: seq<OrderItem>): int
  {
    if items == [] then 0 else Units(items[..|items| - 1]) + items[|items| - 1].qty
  }

  /** The kitchen is asked for exactly the units the cart held. */
  lemma {:induction false} OrderItemsUnits(lines: seq<Line>)
    ensures Units(OrderItems(lines)) == Count(lines)
  {
    if lines != [] {
      var init := lines[..|lines| - 1];
      assert OrderItems(lines)[..|lines| - 1] == OrderItems(init);
      OrderItemsUnits(init);
    }
  }

  /** A comanda belongs to a sale: it names the sale's id and customer, lists
      the sale's lines by name and quantity, shares its date, and the sale's
      total is the sum over its lines. */
  predicate Matches(t: Receipt, c: Comanda)
  {
    && c.txId == t.id && c.customer == t.customer && c.time == t.date
    && c.items == OrderItems(t.items) && t.total == Total(t.items)
  }

  /** Sales are prepended and comandas appended, one of each per checkout, so
      the k-th comanda belongs to the k-th sale counted from the back. */
  predicate Linked(txs: seq<Receipt>, cs: seq<Comanda>)
  {
    && |txs| == |cs|
    && forall k :: 0 <= k < |cs| ==> Matches(txs[|cs| - 1 - k], cs[k])
  }

  /** A checkout keeps sales and comandas paired. */
  lemma LinkedCheckout(txs: seq<Receipt>, cs: seq<Comanda>, t: Receipt, c: Comanda)
    requires Linked(txs, cs) && Matches(t, c)
    ensures Linked([t] + txs, cs + [c])
  {
    var txs', cs' := [t] + txs, cs + [c];
    forall k | 0 <= k < |cs'|
      ensures Matches(txs'[|cs'| - 1 - k], cs'[k])
    {
      if k < |cs| {
        assert txs'[|cs'| - 1 - k] == txs[|cs| - 1 - k];
      }
    }
  }

  /** Every comanda on the kitchen's list has its sale in the cash register. */
  lemma LinkedHasSale(txs: seq<Receipt>, cs: seq<Comanda>, k: nat)
    requires Linked(txs, cs) && k < |cs|
    ensures exists j :: 0 <= j < |txs| && txs[j].id == cs[k].txId && txs[j].customer == cs[k].customer
  {
    assert Matches(txs[|cs| - 1 - k], cs[k]);
  }

  function ComandaId(c: Comanda): string
  {
    c.id
  }

  /** `comandas.find(x => x.id === id)`, as the position of the first match. */
  function IndexOfId(cs: seq<Comanda>, id: string): Option<nat>
  {
    Find(cs, ComandaId, id)
  }

  /** `c => c.status = 'listo'`. */
  function Ready(c: Comanda): Comanda
  {
    c.(status := Listo)
  }

  /** `c.status = 'listo'` on the comanda found by id. */
  function MarkedReady(cs: seq<Comanda>, id: string): (r: seq<Comanda>)
    ensures |r| == |cs|
    ensures IndexOfId(cs, id).Some? ==> r[IndexOfId(cs, id).value].status == Listo
  {
    UpdateFoundEffect(cs, ComandaId, id, Ready);
    UpdateFound(cs, ComandaId, id, Ready)
  }

  /** Marking ready makes the first comanda with that id 'listo' and touches
      nothing else: no other comanda changes, that comanda keeps every other
      field, an unknown id leaves the list as it is, and doing it twice is the
      same as doing it once. */
  lemma MarkedReadyEffect(cs: seq<Comanda>, id: string)
    ensures IndexOfId(cs, id).Some? ==>
      MarkedReady(cs, id)[IndexOfId(cs, id).value] == cs[IndexOfId(cs, id).value].(status := Listo)
    ensures forall j :: 0 <= j < |cs| && MarkedReady(cs, id)[j] != cs[j] ==> IndexOfId(cs, id) == Some(j)
    ensures forall j :: 0 <= j < |cs| ==> MarkedReady(cs, id)[j].(status := cs[j].status) == cs[j]
    ensures IndexOfId(cs, id).None? ==> MarkedReady(cs, id) == cs
    ensures MarkedReady(MarkedReady(cs, id), id) == MarkedReady(cs, id)
  {
    UpdateFoundEffect(cs, ComandaId, id, Ready);
    var r := MarkedReady(cs, id);
    UpdateFoundEffect(r, ComandaId, id, Ready);
    if IndexOfId(cs, id).Some? {
      var k := IndexOfId(cs, id).value;
      assert r[k] == Ready(r[k]);
      assert MarkedReady(r, id) == r[k := Ready(r[k])];
    }
  }

  /** Pairing looks past statuses, so marking ready keeps it. */
  lemma LinkedMarkedReady(txs: seq<Receipt>, cs: seq<Comanda>, id: string)
    requires Linked(txs, cs)
    ensures Linked(txs, MarkedReady(cs, id))
  {
    MarkedReadyEffect(cs, id);
  }

  /** The comandas tab offers the mark-ready button on every comanda that is
      not yet 'listo'. */
  predicate OffersReady(c: Comanda)
  {
    c.status != Listo
  }

  /** Marking a comanda ready withdraws its button, so through the tab each
      comanda is marked ready at most once. */
  lemma ReadyWithdrawsButton(cs: seq<Comanda>, id: string)
    ensures IndexOfId(cs, id).Some? ==> !OffersReady(MarkedReady(cs, id)[IndexOfId(cs, id).value])
  {
  }

  class Session {
    var menu: seq<Product>
    var cart: seq<Line>
    var transactions: seq<Receipt>
    var comandas: seq<Comanda>
    var promotions: seq<Promotion>

    /** The cart is well formed, no comanda is ever canceled, and sales and
        comandas are paired one to one. */
    ghost predicate Valid()
      reads this
    {
      && WellFormed(cart)
      && (forall k :: 0 <= k < |comandas| ==> comandas[k].status != Cancelado)
      && Linked(transactions, comandas)
    }

    constructor (menu: seq<Product>, promotions: seq<Promotion>)
      ensures Valid()
      ensures this.menu == menu && this.promotions == promotions
      ensures cart == [] && transactions == [] && comandas == []
    {
      this.menu := menu;
      this.promotions := promotions;
      cart, transactions, comandas := [], [], [];
    }

    /** `finalizeOrder(customer)`: the sale goes to the front of the cash
        register, a pending comanda listing the cart by name and quantity is
        appended, and the cart empties. The receipt shown is the sale. */
    method FinalizeOrder(customer: Customer, txStamp: string, cmdStamp: string, now: string)
      returns (ticket: Receipt)
      requires Valid()
      modifies this`cart, this`transactions, this`comandas
      ensures Valid()
      ensures ticket == CheckoutReceipt(old(cart), txStamp, now, customer)
      ensures transactions == [ticket] + old(transactions)
      ensures comandas == old(comandas) +
        [Comanda(CmdPrefix + cmdStamp, ticket.id, OrderItems(old(cart)), Pendiente, now, customer)]
      ensures cart == []
    {
      var total := Total(cart);
      var txId := TxPrefix + txStamp;
      ticket := Receipt(txId, cart, total, now, customer);
      var comanda := Comanda(CmdPrefix + cmdStamp, txId, OrderItems(cart), Pendiente, now, customer);
      LinkedCheckout(transactions, comandas, ticket, comanda);
      transactions := [ticket] + transactions;
      comandas := comandas + [comanda];
      cart := [];
    }

    /** `markReady(id)`: the status of the comanda found becomes 'listo'; the
        cash register is not touched. */
    method MarkReady(id: string)
      requires Valid()
      modifies this`comandas
      ensures Valid()
      ensures comandas == MarkedReady(old(comandas), id)
    {
      MarkedReadyEffect(comandas, id);
      LinkedMarkedReady(transactions, comandas, id);
      var found := IndexOfId(comandas, id);
      if found.Some? {
        var k := found.value;
        comandas := comandas[k := comandas[k].(status := Listo)];
      }
    }

    /** `deletePromo(id)`, with the answer to its confirmation prompt. */
    method DeletePromo(id: string, confirmed: bool)
      modifies this`promotions
      ensures promotions == if confirmed then WithoutId(old(promotions), id) else old(promotions)
    {
      if confirmed {
        promotions := WithoutId(promotions, id);
      }
    }

    /** `deleteProduct(index)`, with the answer to its confirmation prompt. */
    method DeleteProduct(index: int, confirmed: bool)
      modifies this`menu
      ensures menu == if confirmed then SpliceOne(old(menu), index) else old(menu)
    {
      if confirmed {
        menu := SpliceOne(menu, index);
      }
    }
  }

  /** Two checkouts: each records its sale at once, newest first, and the
      comandas are filed oldest first. */
  method CheckoutScenario() returns (s: Session, t1: Receipt, t2: Receipt)
    ensures fresh(s) && s.Valid()
    ensures s.transactions == [t2, t1] && t1.total == 2500 && t2.total == 800
    ensures |s.comandas| == 2 && s.comandas[0].items == [OrderItem("Bidón", 2)]
  {
    var luis := Customer("Luis", "987654321", "");
    var bidon, small := Line("P1", "Bidón", 1250, 2), Line("P2", "Bidón 8.5L", 800, 1);
    SumsSingle(bidon);
    SumsSingle(small);
    assert OrderItems([bidon]) == [OrderItem("Bidón", 2)];
    s := new Session([], []);
    s.cart := [bidon];
    t1 := s.FinalizeOrder(luis, "000001", "000001", "t0");
    s.cart := [small];
    t2 := s.FinalizeOrder(luis, "000002", "000002", "t1");
  }

  /** Marking a comanda ready records nothing more in the cash register. */
  method OrderLifecycle()
  {
    var s, t1, t2 := CheckoutScenario();
    var filed := s.comandas;
    var id := filed[0].id;
    assert IndexOfId(filed, id) == Some(0);
    MarkedReadyEffect(filed, id);
    s.MarkReady(id);
    assert s.comandas[0].status == Listo && s.transactions == [t2, t1];
  }
}
