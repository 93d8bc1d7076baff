/**
 * The durable store as values: the four tables of the order service (the
 * deliveries, payments and items tables keyed by their generated ids, the
 * orders table keyed by order_uid), the id counters that generate those ids,
 * and the pure functions that say what writing an order into the tables and
 * reading it back out of them mean.
 */
module Store {
  import opened Wrappers
  import opened Entities

  datatype Db = Db(
    deliveries: map<int, Delivery>,
    payments: map<int, Payment>,
    items: map<int, Item>,
    orders: map<string, OrderRow>,
    nextDelivery: int,
    nextPayment: int,
    nextItem: int)

  /** The store with no rows whose counters start at `first`. */
  function Empty(first: int): (db: Db)
    ensures Valid(db) && db.orders == map[]
  {
    Db(map[], map[], map[], map[], first, first, first)
  }

  /** The order row stored under `uid` names the uid it is stored under and resolves to existing rows. */
  predicate Linked(db: Db, uid: string)
    requires uid in db.orders
  {
    var row := db.orders[uid];
    && row.orderId == uid
    && row.deliveryId in db.deliveries
    && row.paymentId in db.payments
    && forall k | 0 <= k < |row.itemsIds| :: row.itemsIds[k] in db.items
  }

  /**
   * The store's invariant: every generated id lies below its counter, so the
   * next id of each table is fresh, and every order row is linked.
   */
  predicate Valid(db: Db)
  {
    && (forall id | id in db.deliveries :: id < db.nextDelivery)
    && (forall id | id in db.payments :: id < db.nextPayment)
    && (forall id | id in db.items :: id < db.nextItem)
    && (forall uid | uid in db.orders :: Linked(db, uid))
  }

  // ---------------------------------------------------------------------
  // Writing an order
  // ---------------------------------------------------------------------

  /** The statements AddOrder sends to the store. */
  datatype Step = InsertDelivery | InsertPayment | InsertItem(index: nat) | InsertOrder

  /**
   * How the store answers one AddOrder transaction: which statements fail
   * (a failed query, a row error or a failed scan alike) and which order_uid
   * the order insert hands back through RETURNING.
   */
  datatype Answers = Answers(fails: Step -> bool, returnedUid: string)

  /** Why AddOrder failed. */
  datatype AddError = StatementFailed(step: Step) | UidMismatch(returned: string)

  /**
   * The statements of an order with `n` items, in the order AddOrder sends
   * them: the delivery, the payment, each item in input order, the order row.
   */
  function Plan(n: nat): (p: seq<Step>)
    ensures |p| == n + 3
    ensures p[0] == InsertDelivery && p[1] == InsertPayment && p[n + 2] == InsertOrder
    ensures p[2..n + 2] == ItemSteps(n)
  {
    [InsertDelivery, InsertPayment] + ItemSteps(n) + [InsertOrder]
  }

  /** The item inserts of an order with `n` items, in input order. */
  function ItemSteps(n: nat): (p: seq<Step>)
    ensures |p| == n && forall k | 0 <= k < n :: p[k] == InsertItem(k)
  {
    seq(n, (k: int) requires 0 <= k => InsertItem(k))
  }

  /** The j-th statement of the plan, by position. */
  lemma PlanAt(n: nat, j: nat)
    requires j < n + 3
    ensures Plan(n)[j] == if j == 0 then InsertDelivery else if j == 1 then InsertPayment
                          else if j < n + 2 then InsertItem(j - 2) else InsertOrder
  {
    if 2 <= j < n + 2 {
      assert Plan(n)[j] == Plan(n)[2..n + 2][j - 2];
    }
  }

  /** The position of the first statement of `p` that fails, if any. */
  function FirstFailure(p: seq<Step>, fails: Step -> bool): (r: Option<nat>)
    ensures r.None? <==> forall i | 0 <= i < |p| :: !fails(p[i])
    ensures r.Some? ==> r.value < |p| && fails(p[r.value])
    ensures r.Some? ==> forall i | 0 <= i < r.value :: !fails(p[i])
  {
    if p == [] then None
    else if fails(p[0]) then Some(0)
    else match FirstFailure(p[1..], fails)
      case None => None
      case Some(i) => assert p[1..][i] == p[i + 1]; Some(i + 1)
  }

  /** A failing statement preceded only by succeeding ones is the first failure. */
  lemma FirstFailureAt(p: seq<Step>, fails: Step -> bool, i: nat)
    requires i < |p| && fails(p[i])
    requires forall j | 0 <= j < i :: !fails(p[j])
    ensures FirstFailure(p, fails) == Some(i)
  {
  }

  /** The error AddOrder reports for order `o`, or None when it succeeds. */
  function Outcome(o: Order, a: Answers): (r: Option<AddError>)
  {
    var p := Plan(|o.items|);
    match FirstFailure(p, a.fails)
    case Some(i) => Some(StatementFailed(p[i]))
    case None => if a.returnedUid == o.orderId then None else Some(UidMismatch(a.returnedUid))
  }

  /** When the i-th statement is the first to fail, AddOrder reports it, and the statements it reaches are exactly the first i + 1. */
  lemma OutcomeAtFailure(o: Order, a: Answers, i: nat)
    requires i < |Plan(|o.items|)| && a.fails(Plan(|o.items|)[i])
    requires forall j | 0 <= j < i :: !a.fails(Plan(|o.items|)[j])
    ensures Outcome(o, a) == Some(StatementFailed(Plan(|o.items|)[i]))
    ensures Attempted(o, a) == Plan(|o.items|)[..i + 1]
    ensures FirstFailure(Plan(|o.items|), a.fails) == Some(i)
  {
    FirstFailureAt(Plan(|o.items|), a.fails, i);
  }

  /** When no statement fails, AddOrder reaches them all and succeeds iff the uid comes back. */
  lemma OutcomeWithoutFailure(o: Order, a: Answers)
    requires forall j | 0 <= j < |o.items| + 3 :: !a.fails(Plan(|o.items|)[j])
    ensures Outcome(o, a) == if a.returnedUid == o.orderId then None else Some(UidMismatch(a.returnedUid))
    ensures Attempted(o, a) == Plan(|o.items|)
    ensures FirstFailure(Plan(|o.items|), a.fails).None?
  {
  }

  /**
   * The statements AddOrder reaches before it stops: up to and including the
   * first failure, or all of them. Transact leaves the rows of all but a
   * failing last one in the tables.
   */
  function Attempted(o: Order, a: Answers): (reached: seq<Step>)
  {
    var p := Plan(|o.items|);
    match FirstFailure(p, a.fails)
    case Some(i) => p[..i + 1]
    case None => p
  }

  /** AddOrder reports a failed statement iff some statement fails, and that statement is the last it reaches. */
  lemma AttemptedAtFailure(o: Order, a: Answers)
    ensures (Outcome(o, a).Some? && Outcome(o, a).value.StatementFailed?) <==>
      FirstFailure(Plan(|o.items|), a.fails).Some?
    ensures FirstFailure(Plan(|o.items|), a.fails).Some? ==>
      |Attempted(o, a)| == FirstFailure(Plan(|o.items|), a.fails).value + 1
  {
  }

  /**
   * AddOrder succeeds exactly when no statement fails and the order insert
   * hands back the input uid; otherwise it stops at the first failing
   * statement, which it reports, and reaches no statement after it.
   */
  lemma OutcomeSpec(o: Order, a: Answers)
    ensures Outcome(o, a).None? <==>
      (forall s | s in Plan(|o.items|) :: !a.fails(s)) && a.returnedUid == o.orderId
    ensures Outcome(o, a).Some? && Outcome(o, a).value.StatementFailed? ==>
      Attempted(o, a) != [] && a.fails(Outcome(o, a).value.step) &&
      Attempted(o, a)[|Attempted(o, a)| - 1] == Outcome(o, a).value.step
    ensures Outcome(o, a).Some? && Outcome(o, a).value.UidMismatch? ==>
      Attempted(o, a) == Plan(|o.items|) && a.returnedUid != o.orderId
    ensures Attempted(o, a) <= Plan(|o.items|)
    ensures forall k | 0 <= k < |Attempted(o, a)| - 1 :: !a.fails(Attempted(o, a)[k])
  {
    var p := Plan(|o.items|);
    match FirstFailure(p, a.fails)
    case None =>
      assert Attempted(o, a) == p;
    case Some(i) =>
      assert Attempted(o, a) == p[..i + 1];
      assert p[i] in p;
  }

  /** The ids handed to `n` consecutive inserts starting at `start`. */
  function ItemIds(start: int, n: nat): (ids: seq<int>)
  {
    seq(n, (k: int) => start + k)
  }

  /** The item rows inserted for `xs` when the item counter stands at `start`. */
  function ItemRows(start: int, xs: seq<Item>): (m: map<int, Item>)
    ensures forall id :: id in m <==> start <= id < start + |xs|
    ensures forall id | id in m :: m[id] == xs[id - start]
  {
    if xs == [] then map[]
    else
      var init := xs[..|xs| - 1];
      ItemRows(start, init)[start + |xs| - 1 := xs[|xs| - 1]]
  }

  /** The item rows are keyed by exactly the ids handed out for them. */
  lemma ItemRowsKeys(start: int, xs: seq<Item>)
    ensures ItemRows(start, xs).Keys == set id | id in ItemIds(start, |xs|)
  {
    var ids := ItemIds(start, |xs|);
    forall id | id in ItemRows(start, xs)
      ensures id in ids
    {
      assert ids[id - start] == id;
    }
  }

  /** One more generated id extends the id list. */
  lemma ItemIdsSnoc(start: int, k: nat)
    ensures ItemIds(start, k) + [start + k] == ItemIds(start, k + 1)
  {
  }

  /** Inserting the next item row extends the item rows written. */
  lemma ItemRowsSnoc(items: map<int, Item>, start: int, xs: seq<Item>, k: nat)
    requires k < |xs|
    ensures (items + ItemRows(start, xs[..k]))[start + k := xs[k]] == items + ItemRows(start, xs[..k + 1])
  {
    assert xs[..k + 1][..k] == xs[..k];
  }

  /** The tables after AddOrder has written `o` in full. */
  function Decompose(db: Db, o: Order): (written: Db)
  {
    var deliveryId := db.nextDelivery;
    var paymentId := db.nextPayment;
    var start := db.nextItem;
    db.(deliveries := db.deliveries[deliveryId := o.delivery],
        payments := db.payments[paymentId := o.payment],
        items := db.items + ItemRows(start, o.items),
        orders := db.orders[o.orderId := RowOf(o, deliveryId, paymentId, ItemIds(start, |o.items|))],
        nextDelivery := deliveryId + 1,
        nextPayment := paymentId + 1,
        nextItem := start + |o.items|)
  }

  /**
   * The tables after the first `m` statements of the write of `o` have gone
   * through, the order row not yet written: the delivery row once m >= 1,
   * the payment row once m >= 2, and the rows of the first m - 2 items, each
   * under the next id of its table.
   */
  function Written(db: Db, o: Order, m: nat): (w: Db)
    requires m <= |o.items| + 2
    ensures w.orders == db.orders
  {
    var d := db.(deliveries := db.deliveries[db.nextDelivery := o.delivery], nextDelivery := db.nextDelivery + 1);
    var p := d.(payments := db.payments[db.nextPayment := o.payment], nextPayment := db.nextPayment + 1);
    if m == 0 then db
    else if m == 1 then d
    else p.(items := db.items + ItemRows(db.nextItem, o.items[..m - 2]), nextItem := db.nextItem + (m - 2))
  }

  /** Past the delivery and payment rows, each statement of the write adds the next item row. */
  lemma WrittenItems(db: Db, o: Order, k: nat)
    requires k <= |o.items|
    ensures Written(db, o, k + 2) ==
      Written(db, o, 2).(items := db.items + ItemRows(db.nextItem, o.items[..k]), nextItem := db.nextItem + k)
  {
    assert o.items[..0] == [];
  }

  /**
   * The full write of `o` is the delivery, payment and item rows followed
   * by the order row carrying their ids.
   */
  lemma WrittenThenOrderRow(db: Db, o: Order)
    ensures Decompose(db, o) ==
      Written(db, o, |o.items| + 2).(orders :=
        db.orders[o.orderId := RowOf(o, db.nextDelivery, db.nextPayment, ItemIds(db.nextItem, |o.items|))])
  {
    assert o.items[..|o.items|] == o.items;
  }

  /**
   * The row AddOrder writes for `o` references the freshly generated delivery
   * and payment ids and lists the generated item ids in input order: the k-th
   * id is the row of the k-th item.
   */
  lemma {:induction false} DecomposeRow(db: Db, o: Order)
    ensures var db' := Decompose(db, o);
      && o.orderId in db'.orders
      && var row := db'.orders[o.orderId];
      && SameScalars(row, o)
      && row.deliveryId == db.nextDelivery && db'.deliveries[row.deliveryId] == o.delivery
      && row.paymentId == db.nextPayment && db'.payments[row.paymentId] == o.payment
      && |row.itemsIds| == |o.items|
      && forall k | 0 <= k < |o.items| ::
           row.itemsIds[k] == db.nextItem + k && row.itemsIds[k] in db'.items &&
           db'.items[row.itemsIds[k]] == o.items[k]
  {
    var db' := Decompose(db, o);
    var row := db'.orders[o.orderId];
    forall k | 0 <= k < |o.items|
      ensures row.itemsIds[k] in db'.items && db'.items[row.itemsIds[k]] == o.items[k]
    {
      assert row.itemsIds[k] == db.nextItem + k;
      assert db.nextItem + k in ItemRows(db.nextItem, o.items);
    }
  }

  /**
   * On a valid store the write is fresh: it adds exactly one delivery row,
   * one payment row, one row per item and the order row, and every row that
   * was there before keeps its value.
   */
  lemma {:induction false} DecomposeAddsOnly(db: Db, o: Order)
    requires Valid(db)
    ensures var db' := Decompose(db, o);
      && db.nextDelivery !in db.deliveries
      && db'.deliveries.Keys == db.deliveries.Keys + {db.nextDelivery}
      && db.nextPayment !in db.payments
      && db'.payments.Keys == db.payments.Keys + {db.nextPayment}
      && (forall id | id in ItemIds(db.nextItem, |o.items|) :: id !in db.items)
      && db'.items.Keys == db.items.Keys + (set id | id in ItemIds(db.nextItem, |o.items|))
      && (forall id | id in db.deliveries :: db'.deliveries[id] == db.deliveries[id])
      && (forall id | id in db.payments :: db'.payments[id] == db.payments[id])
      && (forall id | id in db.items :: db'.items[id] == db.items[id])
      && db'.orders.Keys == db.orders.Keys + {o.orderId}
      && (forall uid | uid in db.orders && uid != o.orderId :: db'.orders[uid] == db.orders[uid])
  {
    ItemRowsKeys(db.nextItem, o.items);
  }

  /** AddOrder's write keeps the store valid. */
  lemma {:induction false} DecomposeValid(db: Db, o: Order)
    requires Valid(db)
    ensures Valid(Decompose(db, o))
  {
    var db' := Decompose(db, o);
    DecomposeRow(db, o);
    forall uid | uid in db'.orders
      ensures Linked(db', uid)
    {
      if uid != o.orderId {
        assert Linked(db, uid);
        var row := db.orders[uid];
        forall k | 0 <= k < |row.itemsIds|
          ensures row.itemsIds[k] in db'.items
        {
          assert row.itemsIds[k] in db.items;
        }
      }
    }
  }

  // ---------------------------------------------------------------------
  // Reading an order back by its id list
  // ---------------------------------------------------------------------

  /** Looks up each id of `ids` in list order; None as soon as one is missing. */
  function LookupItems(items: map<int, Item>, ids: seq<int>): (r: Option<seq<Item>>)
    ensures r.Some? <==> forall k | 0 <= k < |ids| :: ids[k] in items
    ensures r.Some? ==> |r.value| == |ids| && forall k | 0 <= k < |ids| :: r.value[k] == items[ids[k]]
  {
    if ids == [] then Some([])
    else match LookupItems(items, ids[..|ids| - 1])
      case None => None
      case Some(xs) =>
        if ids[|ids| - 1] in items then Some(xs + [items[ids[|ids| - 1]]]) else None
  }

  /** Rebuilds the composite order of a row from the tables, as GetOrders2 does. */
  function RecomposeRow(db: Db, row: OrderRow): (r: Option<Order>)
    ensures r.Some? <==>
      row.deliveryId in db.deliveries && row.paymentId in db.payments &&
      forall k | 0 <= k < |row.itemsIds| :: row.itemsIds[k] in db.items
    ensures r.Some? ==>
      && SameScalars(row, r.value)
      && r.value.delivery == db.deliveries[row.deliveryId]
      && r.value.payment == db.payments[row.paymentId]
      && |r.value.items| == |row.itemsIds|
      && forall k | 0 <= k < |row.itemsIds| :: r.value.items[k] == db.items[row.itemsIds[k]]
  {
    if row.deliveryId !in db.deliveries || row.paymentId !in db.payments then None
    else match LookupItems(db.items, row.itemsIds)
      case None => None
      case Some(xs) => Some(Compose(row, db.deliveries[row.deliveryId], db.payments[row.paymentId], xs))
  }

  /** The composite order stored under `uid`, if its row exists and resolves. */
  function Recompose(db: Db, uid: string): (r: Option<Order>)
  {
    if uid in db.orders then RecomposeRow(db, db.orders[uid]) else None
  }

  /** On a valid store every order row resolves, to an order carrying the uid it is stored under. */
  lemma ValidRecomposes(db: Db, uid: string)
    requires Valid(db) && uid in db.orders
    ensures Recompose(db, uid).Some? && Recompose(db, uid).value.orderId == uid
  {
    assert Linked(db, uid);
  }

  /**
   * The round trip: reading back the rows AddOrder wrote for `o` gives `o`
   * itself, with the same delivery, payment, scalar fields, and items in the
   * same order and number.
   */
  lemma {:induction false} RoundTrip(db: Db, o: Order)
    ensures Recompose(Decompose(db, o), o.orderId) == Some(o)
  {
    var db' := Decompose(db, o);
    DecomposeRow(db, o);
    var row := db'.orders[o.orderId];
    var r := RecomposeRow(db', row);
    assert r.value.items == o.items;
  }

  /**
   * On a valid store, AddOrder's write of `o` leaves every other stored
   * order reading back exactly as before.
   */
  lemma {:induction false} DecomposeKeepsOthers(db: Db, o: Order, uid: string)
    requires Valid(db) && uid in db.orders && uid != o.orderId
    ensures Recompose(Decompose(db, o), uid) == Recompose(db, uid)
  {
    assert Linked(db, uid);
    var db' := Decompose(db, o);
    var row := db.orders[uid];
    assert db'.orders[uid] == row;
    assert db'.deliveries[row.deliveryId] == db.deliveries[row.deliveryId];
    assert db'.payments[row.paymentId] == db.payments[row.paymentId];
    forall k | 0 <= k < |row.itemsIds|
      ensures row.itemsIds[k] in db'.items && db'.items[row.itemsIds[k]] == db.items[row.itemsIds[k]]
    {
      assert row.itemsIds[k] in db.items;
    }
    var r, r' := RecomposeRow(db, row), RecomposeRow(db', row);
    assert r'.value.items == r.value.items;
  }

  // ---------------------------------------------------------------------
  // The joined read that warms the cache
  // ---------------------------------------------------------------------

  /** The uids whose row joins with a delivery row and a payment row. */
  function JoinedUids(db: Db): (uids: set<string>)
  {
    set uid | uid in db.orders && db.orders[uid].deliveryId in db.deliveries
                               && db.orders[uid].paymentId in db.payments
  }

  /**
   * The order GetOrders yields for a joined row: scalar fields, delivery and
   * payment from the join, and no items.
   */
  function Joined(db: Db, uid: string): (o: Order)
    requires uid in JoinedUids(db)
  {
    var row := db.orders[uid];
    Compose(row, db.deliveries[row.deliveryId], db.payments[row.paymentId], [])
  }

  /** On a valid store every order row joins, and the joined order carries its uid. */
  lemma {:induction false} JoinedOnValid(db: Db)
    requires Valid(db)
    ensures JoinedUids(db) == db.orders.Keys
    ensures forall uid | uid in db.orders :: Joined(db, uid).orderId == uid
  {
    forall uid | uid in db.orders
      ensures uid in JoinedUids(db) && Joined(db, uid).orderId == uid
    {
      assert Linked(db, uid);
    }
  }

  /**
   * On a valid store the joined order is the recomposed order with its items
   * dropped: the two reads differ in the items alone.
   */
  lemma JoinedDropsItems(db: Db, uid: string)
    requires Valid(db) && uid in db.orders
    ensures uid in JoinedUids(db) && Recompose(db, uid).Some?
    ensures Joined(db, uid) == Recompose(db, uid).value.(items := [])
  {
    ValidRecomposes(db, uid);
  }

  // ---------------------------------------------------------------------
  // The cache as a value
  // ---------------------------------------------------------------------

  /** The uids of `os`. */
  function Uids(os: seq<Order>): (uids: set<string>)
  {
    set o | o in os :: o.orderId
  }

  /** The uids of a sequence are those of its prefix plus that of its last order. */
  lemma UidsSnoc(os: seq<Order>)
    requires os != []
    ensures Uids(os) == Uids(os[..|os| - 1]) + {os[|os| - 1].orderId}
  {
    assert forall o | o in os :: o in os[..|os| - 1] || o == os[|os| - 1];
  }

  /** The cache after upserting each order of `os` in turn, later entries winning. */
  function Upserted(cache: map<string, Order>, os: seq<Order>): (c: map<string, Order>)
    ensures c.Keys == cache.Keys + Uids(os)
  {
    if os == [] then cache
    else
      var last := os[|os| - 1];
      UidsSnoc(os);
      Upserted(cache, os[..|os| - 1])[last.orderId := last]
  }

  /** No two orders of `os` share a uid. */
  predicate DistinctUids(os: seq<Order>)
  {
    forall i, j | 0 <= i < j < |os| :: os[i].orderId != os[j].orderId
  }

  /**
   * Upserting orders with distinct uids leaves each of them cached under its
   * own uid and every other entry as it was.
   */
  lemma {:induction false} UpsertedDistinct(cache: map<string, Order>, os: seq<Order>)
    requires DistinctUids(os)
    ensures forall i | 0 <= i < |os| :: Upserted(cache, os)[os[i].orderId] == os[i]
    ensures forall uid | uid in cache && uid !in Uids(os) :: Upserted(cache, os)[uid] == cache[uid]
  {
    if os != [] {
      var init := os[..|os| - 1];
      var last := os[|os| - 1];
      assert DistinctUids(init);
      UpsertedDistinct(cache, init);
      UidsSnoc(os);
      var c := Upserted(cache, init);
      assert Upserted(cache, os) == c[last.orderId := last];
      forall i | 0 <= i < |os|
        ensures Upserted(cache, os)[os[i].orderId] == os[i]
      {
        if i < |init| {
          assert init[i] == os[i];
          assert c[init[i].orderId] == init[i];
        }
      }
      forall uid | uid in cache && uid !in Uids(os)
        ensures Upserted(cache, os)[uid] == cache[uid]
      {
        assert uid != last.orderId && uid !in Uids(init);
      }
    }
  }

  /**
   * Orders read from the join of a valid store, each row once, carry
   * distinct uids, and their uids are exactly the stored uids.
   */
  lemma {:induction false} JoinedReadUids(db: Db, os: seq<Order>, keys: seq<string>)
    requires Valid(db)
    requires |keys| == |os| && forall uid :: uid in keys <==> uid in JoinedUids(db)
    requires forall i, j | 0 <= i < j < |keys| :: keys[i] != keys[j]
    requires forall i | 0 <= i < |keys| :: keys[i] in JoinedUids(db) && os[i] == Joined(db, keys[i])
    ensures DistinctUids(os) && Uids(os) == db.orders.Keys
    ensures forall i | 0 <= i < |os| :: os[i].orderId == keys[i]
  {
    JoinedOnValid(db);
    forall uid | uid in db.orders
      ensures uid in Uids(os)
    {
      var i :| 0 <= i < |keys| && keys[i] == uid;
      assert os[i].orderId == uid;
    }
  }

  /**
   * Upserting, into an empty cache, the orders read from the join of a valid
   * store caches exactly the stored uids, each under its joined order.
   */
  lemma {:induction false} UpsertedJoin(db: Db, os: seq<Order>, keys: seq<string>)
    requires Valid(db)
    requires |keys| == |os| && forall uid :: uid in keys <==> uid in JoinedUids(db)
    requires forall i, j | 0 <= i < j < |keys| :: keys[i] != keys[j]
    requires forall i | 0 <= i < |keys| :: keys[i] in JoinedUids(db) && os[i] == Joined(db, keys[i])
    ensures Upserted(map[], os).Keys == db.orders.Keys
    ensures forall uid | uid in db.orders :: Upserted(map[], os)[uid] == Joined(db, uid)
  {
    JoinedReadUids(db, os, keys);
    UpsertedDistinct(map[], os);
    forall uid | uid in db.orders
      ensures Upserted(map[], os)[uid] == Joined(db, uid)
    {
      var i :| 0 <= i < |keys| && keys[i] == uid;
      assert os[i].orderId == uid;
    }
  }

  /**
   * Warm-up completeness: upserting, into an empty cache, the orders read
   * from the join of a valid store and then `test` caches every stored uid,
   * each under its joined order unless it is test's uid, and `test` under
   * its own uid; nothing else.
   */
  lemma {:induction false} WarmedFromJoin(db: Db, os: seq<Order>, keys: seq<string>, test: Order)
    requires Valid(db)
    requires |keys| == |os| && forall uid :: uid in keys <==> uid in JoinedUids(db)
    requires forall i, j | 0 <= i < j < |keys| :: keys[i] != keys[j]
    requires forall i | 0 <= i < |keys| :: keys[i] in JoinedUids(db) && os[i] == Joined(db, keys[i])
    ensures var c := Upserted(map[], os)[test.orderId := test];
      && c.Keys == db.orders.Keys + {test.orderId}
      && c[test.orderId] == test
      && forall uid | uid in db.orders && uid != test.orderId :: c[uid] == Joined(db, uid)
  {
    UpsertedJoin(db, os, keys);
    var u := Upserted(map[], os);
    assert u[test.orderId := test].Keys == u.Keys + {test.orderId};
  }

  // ---------------------------------------------------------------------
  // The cache against the store
  // ---------------------------------------------------------------------

  /**
   * The cache reflects the store: every stored uid is cached, and every
   * cached entry is either `test` under its own uid or the order stored
   * under that uid, in full or, as the warm-up read leaves it, without its
   * items.
   */
  predicate Coherent(db: Db, cache: map<string, Order>, test: Order)
  {
    && (forall uid | uid in db.orders :: uid in cache)
    && (forall uid | uid in cache ::
          || (uid == test.orderId && cache[uid] == test)
          || (Recompose(db, uid).Some? &&
              (cache[uid] == Recompose(db, uid).value || cache[uid] == Recompose(db, uid).value.(items := []))))
  }

  /** The cache the warm-up builds from a valid store is coherent with it. */
  lemma {:induction false} WarmedCoherent(db: Db, cache: map<string, Order>, test: Order)
    requires Valid(db)
    requires cache.Keys == db.orders.Keys + {test.orderId} && cache[test.orderId] == test
    requires forall uid | uid in db.orders && uid != test.orderId :: cache[uid] == Joined(db, uid)
    ensures Coherent(db, cache, test)
  {
    forall uid | uid in cache && uid != test.orderId
      ensures Recompose(db, uid).Some? && cache[uid] == Recompose(db, uid).value.(items := [])
    {
      JoinedDropsItems(db, uid);
    }
  }

  /** A successful AddOrder of `o` on a valid store keeps the cache coherent. */
  lemma {:induction false} AddKeepsCoherent(db: Db, cache: map<string, Order>, test: Order, o: Order)
    requires Valid(db) && Coherent(db, cache, test)
    ensures Coherent(Decompose(db, o), cache[o.orderId := o], test)
  {
    var db' := Decompose(db, o);
    var cache' := cache[o.orderId := o];
    forall uid | uid in cache'
      ensures || (uid == test.orderId && cache'[uid] == test)
              || (Recompose(db', uid).Some? &&
                  (cache'[uid] == Recompose(db', uid).value || cache'[uid] == Recompose(db', uid).value.(items := [])))
    {
      if uid == o.orderId {
        RoundTrip(db, o);
      } else if !(uid == test.orderId && cache[uid] == test) {
        DecomposeKeepsOthers(db, o, uid);
      }
    }
  }
}
