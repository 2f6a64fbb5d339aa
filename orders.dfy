// What both variants of the shop record about a checkout: the customer, the
// status of a kitchen ticket (comanda), and the sale receipt printed at
// checkout.
module Orders {
  import opened Cart

  /** The checkout form's `{ name, phone, address }`. */
  datatype Customer = Customer(name: string, phone: string, address: string)

  /** A comanda's status: 'pendiente', 'listo' or 'cancelado'. */
  datatype Status = Pendiente | Listo | Cancelado

  /** Sale ids are `'TX-'` followed by the last six digits of the clock;
      comanda ids are `'CMD-'` followed by the same kind of suffix. */
  const TxPrefix: string := "TX-"
  const CmdPrefix: string := "CMD-"

  /** The transaction `finalizeOrder` builds from the cart and shows on the
      ticket: `{ id, items: [...cart], total, date, customer }`. */
  datatype Receipt = Receipt(id: string, items: seq<Line>, total: int, date: string, customer: Customer)

  /** The receipt of a checkout: the cart's lines in cart order, and the
      cart's total. */
  function CheckoutReceipt(cart: seq<Line>, txStamp: string, date: string, customer: Customer): (r: Receipt)
    ensures r.items == cart && r.total == Total(r.items)
    ensures TxPrefix <= r.id && r.customer == customer
  {
    Receipt(TxPrefix + txStamp, cart, Total(cart), date, customer)
  }
}
