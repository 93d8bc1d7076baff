/**
 * The bus consumer: the body of the subscription callback. A message is
 * decoded, validated in a fixed order (the order struct, its delivery, its
 * payment, each item), and only then handed once to the service's AddOrder.
 * The first failure drops the message; a failed write is only logged.
 *
 * JSON decoding, the struct tags of the composite order and the validator's
 * email rule are outside the model and are given as functions.
 */
module Nats {
  import opened Wrappers
  import opened Entities
  import opened Store
  import opened Repository
  import opened Service

  type Bytes = seq<bv8>

  /** The stage at which a message was dropped. */
  datatype Rejection = Undecodable | OrderInvalid | DeliveryInvalid | PaymentInvalid | ItemInvalid

  /** What became of one message. */
  datatype Handled = Dropped(why: Rejection) | PersistFailed(err: AddError) | Stored(orderId: string)

  /**
   * The validation gate: the decoded order when every check passes, else the
   * first check that failed.
   */
  function Gate(data: Bytes, decode: Bytes -> Option<Order>, orderTagsOk: Order -> bool,
                isEmail: string -> bool): (r: Result<Order, Rejection>)
    ensures r.Success? <==>
      decode(data).Some? && orderTagsOk(decode(data).value) &&
      DeliveryValid(decode(data).value.delivery, isEmail)
    ensures r.Success? ==> r.value == decode(data).value
    ensures decode(data).None? ==> r == Failure(Undecodable)
    ensures decode(data).Some? && !orderTagsOk(decode(data).value) ==> r == Failure(OrderInvalid)
    ensures (decode(data).Some? && orderTagsOk(decode(data).value) &&
             !DeliveryValid(decode(data).value.delivery, isEmail)) ==> r == Failure(DeliveryInvalid)
    ensures r != Failure(PaymentInvalid) && r != Failure(ItemInvalid)
  {
    match decode(data)
    case None => Failure(Undecodable)
    case Some(order) =>
      if !orderTagsOk(order) then Failure(OrderInvalid)
      else if !DeliveryValid(order.delivery, isEmail) then Failure(DeliveryInvalid)
      else if !PaymentValid(order.payment) then Failure(PaymentInvalid)
      else if !(forall k | 0 <= k < |order.items| :: ItemValid(order.items[k])) then Failure(ItemInvalid)
      else Success(order)
  }

  class Nats {
    const service: Service

    constructor (s: Service)
      ensures service == s
    {
      service := s;
    }

    /**
     * The subscription callback. A message the gate rejects changes nothing;
     * one it accepts is written by exactly one AddOrder call, whose error is
     * reported and not retried.
     */
    method OnMessage(data: Bytes, decode: Bytes -> Option<Order>, orderTagsOk: Order -> bool,
                     isEmail: string -> bool, a: Answers) returns (h: Handled)
      requires service.repository.Valid()
      modifies service.repository
      ensures service.repository.Valid()
      ensures Gate(data, decode, orderTagsOk, isEmail).Failure? ==>
        h == Dropped(Gate(data, decode, orderTagsOk, isEmail).error) &&
        service.repository.State() == old(service.repository.State()) &&
        service.repository.cache == old(service.repository.cache)
      ensures Gate(data, decode, orderTagsOk, isEmail).Success? ==>
        var o := Gate(data, decode, orderTagsOk, isEmail).value;
        && h == (if Outcome(o, a).None? then Stored(o.orderId) else PersistFailed(Outcome(o, a).value))
        && service.repository.State() ==
             (if h.Stored? then Decompose(old(service.repository.State()), o) else old(service.repository.State()))
        && service.repository.cache ==
             (if h.Stored? then old(service.repository.cache)[o.orderId := o] else old(service.repository.cache))
      ensures Coherent(old(service.repository.State()), old(service.repository.cache), TestOrder) ==>
        Coherent(service.repository.State(), service.repository.cache, TestOrder)
    {
      var verdict := Gate(data, decode, orderTagsOk, isEmail);
      if verdict.Failure? {
        return Dropped(verdict.error);
      }
      var order := verdict.value;
      var err := service.AddOrder(order, a);
      if err.Some? {
        return PersistFailed(err.value);
      }
      h := Stored(order.orderId);
    }
  }
}
