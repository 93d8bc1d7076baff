/**
 * The order repository: the four tables of the store, their id counters and
 * the in-process cache `Cash` (here `cache`), all updated in place.
 *
 * Each insert either allocates the next id of its table or fails, as the
 * `Answers` of the transaction say; a transaction either keeps all its
 * writes or, on any error, rolls the tables back to where they were.
 */
module Repository {
  import opened Wrappers
  import opened Entities
  import opened Store

  /** Why a repository read or the construction of a repository failed. */
  datatype RepoError = ConnectFailed | QueryFailed

  /** Which of GetOrders' queries the store rejects. */
  datatype ReadFaults = ReadFaults(joinQueryFails: bool, itemQueryFails: bool)

  /**
   * The queries of GetOrders2: the scan of the orders table, and for the row
   * of an order its delivery lookup, its payment lookup and the lookup of
   * its k-th item id. A query fails when the store rejects it or its row
   * cannot be scanned.
   */
  datatype Query = OrdersQuery | DeliveryQuery(orderId: string) | PaymentQuery(orderId: string)
                 | ItemQuery(orderId: string, index: nat)

  /** The uid of the order that NewRepository always puts in the cache. */
  const TestUid := "b563feb7b2b84b6test"

  /** The order NewRepository decodes from its built-in JSON text. */
  const TestOrder := Order(
    TestUid, "WBILMTESTTRACK", "WBIL",
    Delivery("Test Testov", "+9720000000", "2639809", "Kiryat Mozkin",
             "Ploshad Mira 15", "Kraiot", "test@gmail.com"),
    Payment(TestUid, "", "USD", "wbpay", 1817, 1637907727, "alpha", 1500, 317, 0),
    [Item(9934930, "WBILMTESTTRACK", 453, "ab4219087a764ae0btest", "Mascaras", 30,
          "0", 317, 2389212, "Vivienne Sabo", 202)],
    "en", "", "test", "meest", "9", 99, Time("2021-11-26T06:22:19Z"), "1")

  class Repository {
    var deliveries: map<int, Delivery>
    var payments: map<int, Payment>
    var items: map<int, Item>
    var orders: map<string, OrderRow>
    var nextDelivery: int
    var nextPayment: int
    var nextItem: int
    var cache: map<string, Order>

    /** The tables and counters, as a value. */
    function State(): Db
      reads this
    {
      Db(deliveries, payments, items, orders, nextDelivery, nextPayment, nextItem)
    }

    predicate Valid()
      reads this
    {
      Store.Valid(State())
    }

    /** A repository over the tables `db` with an empty cache. */
    constructor (db: Db)
      ensures State() == db && cache == map[]
    {
      deliveries, payments, items, orders := db.deliveries, db.payments, db.items, db.orders;
      nextDelivery, nextPayment, nextItem := db.nextDelivery, db.nextPayment, db.nextItem;
      cache := map[];
    }

    /**
     * Connects, reads every joined order with GetOrders, caches each of them
     * under its uid, and finally caches the built-in test order, which
     * replaces any stored order with the same uid.
     */
    static method NewRepository(db: Db, connectFails: bool, rf: ReadFaults)
      returns (r: Repository?, err: Option<RepoError>)
      requires Store.Valid(db)
      ensures r == null <==> err.Some?
      ensures err == (if connectFails then Some(ConnectFailed)
                      else if ReadsFail(db, rf) then Some(QueryFailed)
                      else None)
      ensures r != null ==> fresh(r) && r.Valid() && r.State() == db
      ensures r != null ==> r.cache.Keys == db.orders.Keys + {TestUid}
      ensures r != null ==> r.cache[TestUid] == TestOrder
      ensures r != null ==> forall uid | uid in db.orders && uid != TestUid ::
        r.cache[uid] == Joined(db, uid)
      ensures r != null ==> Coherent(r.State(), r.cache, TestOrder)
    {
      if connectFails {
        return null, Some(ConnectFailed);
      }
      r := new Repository(db);
      var res;
      ghost var keys;
      res, keys := r.GetOrders(rf);
      if res.Failure? {
        return null, Some(res.error);
      }
      var os := res.value;
      r.Warm(os);
      WarmedFromJoin(db, os, keys, TestOrder);
      var ord := TestOrder;
      r.cache := r.cache[ord.orderId := ord];
      WarmedCoherent(db, r.cache, TestOrder);
      err := None;
    }

    /** The warm-up loop: upserts every order of `os` into the cache, in order. */
    method Warm(os: seq<Order>)
      modifies this`cache
      ensures cache == Upserted(old(cache), os)
    {
      var i := 0;
      while i < |os|
        invariant 0 <= i <= |os|
        invariant cache == Upserted(old(cache), os[..i])
      {
        var order := os[i];
        assert os[..i + 1][..i] == os[..i];
        cache := cache[order.orderId := order];
        i := i + 1;
      }
      assert os[..i] == os;
    }

    /** Puts the tables back to `db` (the rollback of a transaction); the cache is left alone. */
    method Restore(db: Db)
      modifies this
      ensures State() == db && cache == old(cache)
    {
      deliveries, payments, items, orders := db.deliveries, db.payments, db.items, db.orders;
      nextDelivery, nextPayment, nextItem := db.nextDelivery, db.nextPayment, db.nextItem;
    }

    /**
     * Writes order `o` inside one transaction: a delivery row, a payment row,
     * one row per item in input order, and the order row carrying the
     * generated ids; then caches `o` if the store hands back o's uid. Any
     * error rolls the tables back; the cache is written only on success.
     */
    method AddOrder(o: Order, a: Answers) returns (err: Option<AddError>)
      requires Valid()
      modifies this
      ensures Valid()
      ensures err == Outcome(o, a)
      ensures State() == (if err.None? then Decompose(old(State()), o) else old(State()))
      ensures cache == (if err.None? then old(cache)[o.orderId := o] else old(cache))
      ensures err.None? ==> Recompose(State(), o.orderId) == Some(o)
      ensures Coherent(old(State()), old(cache), TestOrder) ==> Coherent(State(), cache, TestOrder)
    {
      var begin := State();
      ghost var cache0 := cache;
      err := Transact(o, a);
      if err.Some? {
        Restore(begin);
      } else {
        assert FirstFailure(Plan(|o.items|), a.fails).None?;
        DecomposeValid(begin, o);
        RoundTrip(begin, o);
        if Coherent(begin, cache0, TestOrder) {
          AddKeepsCoherent(begin, cache0, TestOrder, o);
        }
      }
    }

    /**
     * The body of AddOrder's transaction: sends the statements of
     * Plan(|o.items|) one by one and stops at the first that fails. The rows
     * of the statements before a failure stay in the tables until the caller
     * rolls back; the cache is only written after the last statement
     * succeeded and returned o's uid.
     */
    method Transact(o: Order, a: Answers) returns (err: Option<AddError>)
      modifies this
      ensures err == Outcome(o, a)
      ensures cache == if err.None? then old(cache)[o.orderId := o] else old(cache)
      ensures FirstFailure(Plan(|o.items|), a.fails).Some? ==>
        State() == Written(old(State()), o, FirstFailure(Plan(|o.items|), a.fails).value)
      ensures FirstFailure(Plan(|o.items|), a.fails).None? ==> State() == Decompose(old(State()), o)
      ensures err.Some? && err.value.StatementFailed? ==>
        1 <= |Attempted(o, a)| <= |o.items| + 3 && State() == Written(old(State()), o, |Attempted(o, a)| - 1)
    {
      ghost var db0 := State();
      AttemptedAtFailure(o, a);
      var failedAt, deliveryId, paymentId, itemsIds := InsertParts(o, a);
      if failedAt.Some? {
        OutcomeAtFailure(o, a, failedAt.value);
        return Some(StatementFailed(Plan(|o.items|)[failedAt.value]));
      }
      ghost var db1 := State();
      err := InsertOrderRow(o, deliveryId, paymentId, itemsIds, a);
      if a.fails(InsertOrder) {
        OutcomeAtFailure(o, a, |o.items| + 2);
        assert State() == db1;
      } else {
        OutcomeWithoutFailure(o, a);
        WrittenThenOrderRow(db0, o);
        assert State() == Decompose(db0, o);
      }
    }

    /**
     * The statements of AddOrder's transaction before the order row: the
     * delivery row, the payment row and the item rows, in that order. It stops
     * at the first statement that fails and gives its position in
     * Plan(|o.items|); the rows of the statements before it are in the tables.
     */
    method InsertParts(o: Order, a: Answers)
      returns (failedAt: Option<nat>, deliveryId: int, paymentId: int, itemsIds: seq<int>)
      modifies this`deliveries, this`nextDelivery, this`payments, this`nextPayment, this`items, this`nextItem
      ensures failedAt.Some? ==>
        && failedAt.value < |o.items| + 2
        && a.fails(Plan(|o.items|)[failedAt.value])
        && (forall j | 0 <= j < failedAt.value :: !a.fails(Plan(|o.items|)[j]))
        && State() == Written(old(State()), o, failedAt.value)
      ensures failedAt.Some? && failedAt.value >= 1 ==> deliveryId == old(nextDelivery)
      ensures failedAt.Some? && failedAt.value >= 2 ==>
        paymentId == old(nextPayment) && itemsIds == ItemIds(old(nextItem), failedAt.value - 2)
      ensures failedAt.None? ==>
        && (forall j | 0 <= j < |o.items| + 2 :: !a.fails(Plan(|o.items|)[j]))
        && deliveryId == old(nextDelivery) && paymentId == old(nextPayment)
        && itemsIds == ItemIds(old(nextItem), |o.items|)
        && State() == Written(old(State()), o, |o.items| + 2)
    {
      ghost var db0 := State();
      var head;
      head, deliveryId, paymentId := InsertHead(o, a);
      PlanAt(|o.items|, 0);
      PlanAt(|o.items|, 1);
      if head.Some? {
        return head, deliveryId, paymentId, [];
      }
      ghost var db2 := State();
      var failed, ids := InsertItems(o.items, a);
      ghost var k := if failed.Some? then failed.value else |o.items|;
      forall j | 2 <= j < k + 2
        ensures !a.fails(Plan(|o.items|)[j])
      {
        PlanAt(|o.items|, j);
      }
      assert o.items[..|o.items|] == o.items;
      WrittenItems(db0, o, k);
      assert State() == db2.(items := db0.items + ItemRows(db0.nextItem, o.items[..k]), nextItem := db0.nextItem + k);
      assert State() == Written(db0, o, k + 2);
      if failed.Some? {
        PlanAt(|o.items|, k + 2);
        return Some(failed.value + 2), deliveryId, paymentId, ids;
      }
      failedAt, itemsIds := None, ids;
    }

    /**
     * The first two statements of AddOrder's transaction: the delivery row,
     * then the payment row. It stops at the first that fails and gives its
     * position in the plan.
     */
    method InsertHead(o: Order, a: Answers) returns (failedAt: Option<nat>, deliveryId: int, paymentId: int)
      modifies this`deliveries, this`nextDelivery, this`payments, this`nextPayment
      ensures failedAt == if a.fails(InsertDelivery) then Some(0) else if a.fails(InsertPayment) then Some(1) else None
      ensures State() == Written(old(State()), o, if failedAt.Some? then failedAt.value else 2)
      ensures failedAt != Some(0) ==> deliveryId == old(nextDelivery)
      ensures failedAt.None? ==> paymentId == old(nextPayment)
    {
      var ok;
      ok, deliveryId := InsertDeliveryRow(o.delivery, a);
      if !ok {
        return Some(0), deliveryId, 0;
      }
      ok, paymentId := InsertPaymentRow(o.payment, a);
      if !ok {
        return Some(1), deliveryId, paymentId;
      }
      failedAt := None;
      assert o.items[..0] == [];
    }

    /** Inserts the delivery row under the next delivery id, unless the insert fails. */
    method InsertDeliveryRow(d: Delivery, a: Answers) returns (ok: bool, deliveryId: int)
      modifies this`deliveries, this`nextDelivery
      ensures ok == !a.fails(InsertDelivery)
      ensures ok ==> deliveryId == old(nextDelivery)
      ensures nextDelivery == if ok then old(nextDelivery) + 1 else old(nextDelivery)
      ensures deliveries == if ok then old(deliveries)[deliveryId := d] else old(deliveries)
    {
      if a.fails(InsertDelivery) {
        return false, 0;
      }
      deliveryId := nextDelivery;
      deliveries := deliveries[deliveryId := d];
      nextDelivery := nextDelivery + 1;
      ok := true;
    }

    /** Inserts the payment row under the next payment id, unless the insert fails. */
    method InsertPaymentRow(p: Payment, a: Answers) returns (ok: bool, paymentId: int)
      modifies this`payments, this`nextPayment
      ensures ok == !a.fails(InsertPayment)
      ensures ok ==> paymentId == old(nextPayment)
      ensures nextPayment == if ok then old(nextPayment) + 1 else old(nextPayment)
      ensures payments == if ok then old(payments)[paymentId := p] else old(payments)
    {
      if a.fails(InsertPayment) {
        return false, 0;
      }
      paymentId := nextPayment;
      payments := payments[paymentId := p];
      nextPayment := nextPayment + 1;
      ok := true;
    }

    /**
     * Inserts the order row carrying the generated ids and the order's scalar
     * fields, then caches `o` only if the uid the insert hands back is o's.
     */
    method InsertOrderRow(o: Order, deliveryId: int, paymentId: int, itemsIds: seq<int>, a: Answers)
      returns (err: Option<AddError>)
      modifies this`orders, this`cache
      ensures err == if a.fails(InsertOrder) then Some(StatementFailed(InsertOrder))
                     else if a.returnedUid != o.orderId then Some(UidMismatch(a.returnedUid))
                     else None
      ensures orders == if a.fails(InsertOrder) then old(orders)
                        else old(orders)[o.orderId := RowOf(o, deliveryId, paymentId, itemsIds)]
      ensures cache == if err.None? then old(cache)[o.orderId := o] else old(cache)
    {
      if a.fails(InsertOrder) {
        return Some(StatementFailed(InsertOrder));
      }
      orders := orders[o.orderId := RowOf(o, deliveryId, paymentId, itemsIds)];
      var orderId := a.returnedUid;
      if orderId == o.orderId {
        cache := cache[o.orderId := o];
        return None;
      }
      return Some(UidMismatch(orderId));
    }

    /**
     * The item loop of AddOrder's transaction: inserts the rows of `xs` in
     * order, collecting their generated ids, and stops at the first insert
     * that fails, reporting its position.
     */
    method InsertItems(xs: seq<Item>, a: Answers)
      returns (failed: Option<nat>, itemsIds: seq<int>)
      modifies this`items, this`nextItem
      ensures failed.None? ==> forall k | 0 <= k < |xs| :: !a.fails(InsertItem(k))
      ensures failed.None? ==> itemsIds == ItemIds(old(nextItem), |xs|)
      ensures failed.None? ==> items == old(items) + ItemRows(old(nextItem), xs)
      ensures failed.None? ==> nextItem == old(nextItem) + |xs|
      ensures failed.Some? ==> failed.value < |xs| && a.fails(InsertItem(failed.value))
      ensures failed.Some? ==> (forall k | 0 <= k < failed.value :: !a.fails(InsertItem(k)))
      ensures failed.Some? ==>
        && items == old(items) + ItemRows(old(nextItem), xs[..failed.value])
        && nextItem == old(nextItem) + failed.value
        && itemsIds == ItemIds(old(nextItem), failed.value)
    {
      ghost var items0, start := items, nextItem;
      itemsIds := [];
      var k := 0;
      while k < |xs|
        invariant 0 <= k <= |xs|
        invariant forall j | 0 <= j < k :: !a.fails(InsertItem(j))
        invariant itemsIds == ItemIds(start, k)
        invariant nextItem == start + k
        invariant items == items0 + ItemRows(start, xs[..k])
      {
        var item := xs[k];
        if a.fails(InsertItem(k)) {
          return Some(k), itemsIds;
        }
        var itemId := nextItem;
        ItemRowsSnoc(items0, start, xs, k);
        items := items[itemId := item];
        nextItem := nextItem + 1;
        ItemIdsSnoc(start, k);
        itemsIds := itemsIds + [itemId];
        k := k + 1;
      }
      assert xs[..k] == xs;
      failed := None;
    }

    /**
     * Looks up each id of `ids` in the items table in list order, collecting
     * the items; fails at the first id whose query fails or that has no row.
     * `uid` is the order whose list this is.
     */
    method LoadItems(uid: string, ids: seq<int>, fails: Query -> bool) returns (r: Option<seq<Item>>)
      ensures r == if ItemQueriesPass(uid, |ids|, fails) then LookupItems(items, ids) else None
    {
      var xs: seq<Item> := [];
      var k := 0;
      while k < |ids|
        invariant 0 <= k <= |ids|
        invariant ItemQueriesPass(uid, k, fails)
        invariant LookupItems(items, ids[..k]) == Some(xs)
      {
        var itemId := ids[k];
        assert ids[..k + 1][..k] == ids[..k];
        if fails(ItemQuery(uid, k)) {
          return None;
        }
        if itemId !in items {
          assert ids[..k + 1][k] == itemId;
          return None;
        }
        xs := xs + [items[itemId]];
        k := k + 1;
      }
      assert ids[..k] == ids;
      r := Some(xs);
    }

    /**
     * Reads every order row and recomposes it by looking up its delivery, its
     * payment and each of its item ids in list order; the first query that
     * fails or lookup that finds no row fails the read. `keys` gives, for each
     * order returned, the uid of the row it came from.
     */
    method GetOrders2(fails: Query -> bool) returns (r: Result<seq<Order>, RepoError>, ghost keys: seq<string>)
      ensures r.Success? <==> !fails(OrdersQuery) && forall uid | uid in orders :: RowReads(State(), fails, uid)
      ensures r.Failure? ==> r.error == QueryFailed
      ensures r.Success? ==> |keys| == |r.value| && (forall uid :: uid in keys <==> uid in orders)
      ensures r.Success? ==> forall i, j | 0 <= i < j < |keys| :: keys[i] != keys[j]
      ensures r.Success? ==> forall i | 0 <= i < |keys| :: Recompose(State(), keys[i]) == Some(r.value[i])
    {
      if fails(OrdersQuery) {
        return Failure(QueryFailed), [];
      }
      var remaining := orders.Keys;
      var os: seq<Order> := [];
      keys := [];
      while remaining != {}
        invariant remaining <= orders.Keys
        invariant |keys| == |os|
        invariant forall uid :: uid in keys <==> uid in orders && uid !in remaining
        invariant forall uid | uid in orders && uid !in remaining :: RowReads(State(), fails, uid)
        invariant forall i, j | 0 <= i < j < |keys| :: keys[i] != keys[j]
        invariant forall i | 0 <= i < |keys| :: Recompose(State(), keys[i]) == Some(os[i])
        decreases remaining
      {
        var uid :| uid in remaining;
        var order := orders[uid];
        if fails(DeliveryQuery(uid)) || order.deliveryId !in deliveries
           || fails(PaymentQuery(uid)) || order.paymentId !in payments {
          return Failure(QueryFailed), keys;
        }
        var d := deliveries[order.deliveryId];
        var p := payments[order.paymentId];
        var loaded := LoadItems(uid, order.itemsIds, fails);
        if loaded.None? {
          return Failure(QueryFailed), keys;
        }
        var ord := Compose(order, d, p, loaded.value);
        os := os + [ord];
        keys := keys + [uid];
        remaining := remaining - {uid};
      }
      r := Success(os);
    }

    /**
     * Reads the join of the orders, deliveries and payments tables. Each
     * joined row becomes an order without items: the per-order item query
     * that follows only appends to a copy, so it can fail the whole read but
     * never changes the orders returned. `keys` gives each order's row uid.
     */
    method GetOrders(rf: ReadFaults) returns (r: Result<seq<Order>, RepoError>, ghost keys: seq<string>)
      ensures r.Failure? <==> ReadsFail(State(), rf)
      ensures r.Failure? ==> r.error == QueryFailed
      ensures r.Success? ==> |keys| == |r.value| && (forall uid :: uid in keys <==> uid in JoinedUids(State()))
      ensures r.Success? ==> forall i, j | 0 <= i < j < |keys| :: keys[i] != keys[j]
      ensures r.Success? ==> forall i | 0 <= i < |keys| ::
        keys[i] in JoinedUids(State()) && r.value[i] == Joined(State(), keys[i])
      ensures orders == map[] && !rf.joinQueryFails ==> r == Success([])
    {
      if rf.joinQueryFails {
        return Failure(QueryFailed), [];
      }
      var remaining := orders.Keys;
      var os: seq<Order> := [];
      keys := [];
      while remaining != {}
        invariant remaining <= orders.Keys
        invariant |keys| == |os|
        invariant forall uid :: uid in keys <==> uid in JoinedUids(State()) && uid !in remaining
        invariant forall i, j | 0 <= i < j < |keys| :: keys[i] != keys[j]
        invariant forall i | 0 <= i < |keys| ::
          keys[i] in JoinedUids(State()) && os[i] == Joined(State(), keys[i])
        decreases remaining
      {
        var uid :| uid in remaining;
        var order := orders[uid];
        if order.deliveryId in deliveries && order.paymentId in payments {
          var ord := Compose(order, deliveries[order.deliveryId], payments[order.paymentId], []);
          os := os + [ord];
          keys := keys + [uid];
        }
        remaining := remaining - {uid};
      }
      var i := 0;
      while i < |os|
        invariant 0 <= i <= |os|
        invariant i > 0 ==> !rf.itemQueryFails
      {
        if rf.itemQueryFails {
          assert keys[0] in JoinedUids(State());
          return Failure(QueryFailed), keys;
        }
        i := i + 1;
      }
      if |os| == 0 {
        assert keys == [];
      } else {
        assert keys[0] in JoinedUids(State());
      }
      r := Success(os);
    }
  }

  /** None of the first `n` item queries of order `uid` fails. */
  predicate ItemQueriesPass(uid: string, n: nat, fails: Query -> bool)
  {
    forall k | 0 <= k < n :: !fails(ItemQuery(uid, k))
  }

  /**
   * GetOrders2 reads the row of `uid` in full: its delivery, payment and item
   * queries all go through, and every row they look for exists.
   */
  predicate RowReads(db: Db, fails: Query -> bool, uid: string)
    requires uid in db.orders
  {
    && !fails(DeliveryQuery(uid)) && !fails(PaymentQuery(uid))
    && ItemQueriesPass(uid, |db.orders[uid].itemsIds|, fails)
    && Recompose(db, uid).Some?
  }

  /** GetOrders fails when the join is rejected, or when an item query is rejected for some joined row. */
  predicate ReadsFail(db: Db, rf: ReadFaults)
  {
    rf.joinQueryFails || (rf.itemQueryFails && JoinedUids(db) != {})
  }

  /**
   * The warm-up loses the items of every stored order. Written to tables with
   * no rows, the test order reads back in full through the recomposition, but
   * the joined read that NewRepository caches gives it without its one item.
   */
  lemma WarmLosesItems(first: int)
    ensures TestUid in JoinedUids(Decompose(Empty(first), TestOrder))
    ensures Recompose(Decompose(Empty(first), TestOrder), TestUid) == Some(TestOrder)
    ensures Joined(Decompose(Empty(first), TestOrder), TestUid) != TestOrder
  {
    RoundTrip(Empty(first), TestOrder);
    DecomposeValid(Empty(first), TestOrder);
    JoinedDropsItems(Decompose(Empty(first), TestOrder), TestUid);
  }
}
