/**
 * The read and write facade over the repository: point reads are answered
 * from the cache alone, list reads go to the store, writes are the
 * repository's AddOrder.
 */
module Service {
  import opened Wrappers
  import opened Entities
  import opened Store
  import opened Repository

  /** Why a point read failed. */
  datatype ServiceError = NotFound(orderId: string)

  /** GetOrder's two results: an order and an error, one of them meaningful. */
  datatype Reply = Reply(order: Order, err: Option<ServiceError>)

  class Service {
    const repository: Repository

    constructor (r: Repository)
      ensures repository == r
    {
      repository := r;
    }

    /**
     * A cache lookup. It reads nothing of the repository but its cache, so it
     * never reaches the store and changes nothing.
     */
    function GetOrder(orderId: string): (r: Reply)
      reads repository`cache
      ensures r.err.None? <==> orderId in repository.cache
      ensures r.err.None? ==> r.order == repository.cache[orderId]
      ensures r.err.Some? ==> r.order == ZeroOrder && r.err.value == NotFound(orderId)
    {
      if orderId in repository.cache then Reply(repository.cache[orderId], None)
      else Reply(ZeroOrder, Some(NotFound(orderId)))
    }

    /**
     * Exactly the repository's AddOrder; once it succeeds, GetOrder answers
     * the order's uid with the order itself.
     */
    method AddOrder(o: Order, a: Answers) returns (err: Option<AddError>)
      requires repository.Valid()
      modifies repository
      ensures repository.Valid()
      ensures err == Outcome(o, a)
      ensures repository.State() ==
        (if err.None? then Decompose(old(repository.State()), o) else old(repository.State()))
      ensures repository.cache ==
        (if err.None? then old(repository.cache)[o.orderId := o] else old(repository.cache))
      ensures err.None? ==> GetOrder(o.orderId) == Reply(o, None)
      ensures Coherent(old(repository.State()), old(repository.cache), TestOrder) ==>
        Coherent(repository.State(), repository.cache, TestOrder)
    {
      err := repository.AddOrder(o, a);
    }

    /** Goes to the store through GetOrders; the cache plays no part. */
    method ListOfOrders(rf: ReadFaults) returns (r: Result<seq<Order>, RepoError>, ghost keys: seq<string>)
      ensures r.Failure? <==> ReadsFail(repository.State(), rf)
      ensures r.Failure? ==> r.error == QueryFailed
      ensures r.Success? ==> |keys| == |r.value|
      ensures r.Success? ==> forall uid :: uid in keys <==> uid in JoinedUids(repository.State())
      ensures r.Success? ==> forall i, j | 0 <= i < j < |keys| :: keys[i] != keys[j]
      ensures r.Success? ==> forall i | 0 <= i < |keys| ::
        keys[i] in JoinedUids(repository.State()) && r.value[i] == Joined(repository.State(), keys[i])
      ensures repository.orders == map[] && !rf.joinQueryFails ==> r == Success([])
    {
      r, keys := repository.GetOrders(rf);
    }
  }

  /**
   * Start-up on tables that hold no rows yet, as the migrations create them:
   * the repository comes up unless the join query is rejected, the built-in
   * test order is then found with its one item and its delivery address,
   * and any other uid is not found.
   */
  method StartOnEmptyTables(first: int, rf: ReadFaults, other: string)
    returns (err: Option<RepoError>, hit: Reply, miss: Reply)
    ensures err == if rf.joinQueryFails then Some(QueryFailed) else None
    ensures err.None? ==> hit == Reply(TestOrder, None)
    ensures err.None? ==>
      |hit.order.items| == 1 && hit.order.items[0].chrtId == 9934930 &&
      hit.order.delivery.email == "test@gmail.com"
    ensures err.None? && other != TestUid ==> miss == Reply(ZeroOrder, Some(NotFound(other)))
  {
    var repo;
    assert JoinedUids(Empty(first)) == {};
    repo, err := Repository.NewRepository(Empty(first), false, rf);
    if repo == null {
      return err, Reply(ZeroOrder, None), Reply(ZeroOrder, None);
    }
    var service := new Service(repo);
    hit := service.GetOrder(TestUid);
    miss := service.GetOrder(other);
  }
}
