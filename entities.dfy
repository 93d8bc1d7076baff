/**
 * The records of the order service: the composite Order that arrives on the
 * bus and is cached, its Delivery, Payment and Items, and the row form of an
 * order as the orders table stores it.
 *
 * In the tables, a delivery, payment or item row is identified by its
 * generated integer id, which the Store module uses as the map key; an order
 * row is identified by its caller-supplied order_uid.
 */
module Entities {

  /** date_created: a timestamp the model never inspects. */
  datatype Time = Time(text: string)

  datatype Delivery = Delivery(
    name: string,
    phone: string,
    zip: string,
    city: string,
    address: string,
    region: string,
    email: string)

  datatype Payment = Payment(
    transaction: string,
    requestId: string,
    currency: string,
    provider: string,
    amount: int,
    paymentDt: int,
    bank: string,
    deliveryCost: int,
    goodsTotal: int,
    customFee: int)

  datatype Item = Item(
    chrtId: int,
    trackNumber: string,
    price: int,
    rid: string,
    name: string,
    sale: int,
    size: string,
    totalPrice: int,
    nmId: int,
    brand: string,
    status: int)

  /** The composite order: one delivery, one payment and an ordered list of items. */
  datatype Order = Order(
    orderId: string,
    trackNumber: string,
    entry: string,
    delivery: Delivery,
    payment: Payment,
    items: seq<Item>,
    locale: string,
    internalSignature: string,
    customerId: string,
    deliveryService: string,
    shardkey: string,
    smId: int,
    dateCreated: Time,
    oofShard: string)

  /** The orders-table row: the nested records are replaced by the ids of their rows. */
  datatype OrderRow = OrderRow(
    orderId: string,
    trackNumber: string,
    entry: string,
    deliveryId: int,
    paymentId: int,
    itemsIds: seq<int>,
    locale: string,
    internalSignature: string,
    customerId: string,
    deliveryService: string,
    shardkey: string,
    smId: int,
    dateCreated: Time,
    oofShard: string)

  /** The zero value of Order, returned beside a lookup error. */
  const ZeroOrder := Order("", "", "", Delivery("", "", "", "", "", "", ""),
                           Payment("", "", "", "", 0, 0, "", 0, 0, 0), [],
                           "", "", "", "", "", 0, Time(""), "")

  /**
   * The `validate` tags of Delivery: every field is `required` (a string is
   * present when it is non-empty) and the email must also pass the
   * validator's email-syntax rule, which is given here as `isEmail`.
   */
  predicate DeliveryValid(d: Delivery, isEmail: string -> bool)
  {
    && d.name != ""
    && d.phone != ""
    && d.zip != ""
    && d.city != ""
    && d.address != ""
    && d.region != ""
    && d.email != ""
    && isEmail(d.email)
  }

  /** Payment carries no `validate` tags, so struct validation accepts every payment. */
  predicate PaymentValid(p: Payment)
  {
    true
  }

  /** Item carries no `validate` tags, so struct validation accepts every item. */
  predicate ItemValid(i: Item)
  {
    true
  }

  /** The order row and the composite order agree on every scalar field of the order. */
  predicate SameScalars(row: OrderRow, o: Order)
  {
    && row.orderId == o.orderId
    && row.trackNumber == o.trackNumber
    && row.entry == o.entry
    && row.locale == o.locale
    && row.internalSignature == o.internalSignature
    && row.customerId == o.customerId
    && row.deliveryService == o.deliveryService
    && row.shardkey == o.shardkey
    && row.smId == o.smId
    && row.dateCreated == o.dateCreated
    && row.oofShard == o.oofShard
  }

  /** Splits an order into its row form, given the ids generated for its parts. */
  function RowOf(o: Order, deliveryId: int, paymentId: int, itemsIds: seq<int>): (row: OrderRow)
    ensures SameScalars(row, o)
    ensures row.deliveryId == deliveryId && row.paymentId == paymentId && row.itemsIds == itemsIds
  {
    OrderRow(o.orderId, o.trackNumber, o.entry, deliveryId, paymentId, itemsIds,
             o.locale, o.internalSignature, o.customerId, o.deliveryService,
             o.shardkey, o.smId, o.dateCreated, o.oofShard)
  }

  /** Rebuilds the composite order from a row and the records its ids resolve to. */
  function Compose(row: OrderRow, d: Delivery, p: Payment, items: seq<Item>): (o: Order)
    ensures SameScalars(row, o)
    ensures o.delivery == d && o.payment == p && o.items == items
  {
    Order(row.orderId, row.trackNumber, row.entry, d, p, items,
          row.locale, row.internalSignature, row.customerId, row.deliveryService,
          row.shardkey, row.smId, row.dateCreated, row.oofShard)
  }

  /** Composing a row built from `o` with o's own delivery, payment and items gives back `o`. */
  lemma ComposeRowOf(o: Order, deliveryId: int, paymentId: int, itemsIds: seq<int>)
    ensures Compose(RowOf(o, deliveryId, paymentId, itemsIds), o.delivery, o.payment, o.items) == o
  {
  }
}
