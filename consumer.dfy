/** The asynchronous worker that moves a newly created order to PROCESSING. */
module Consumer {
  import opened Wrappers
  import opened OrderStatusCodec
  import opened Entities
  import opened History
  import opened Store

  const SystemActor: string := "System"
  const ProcessingNote: string := "Order is being processed"

  class OrderConsumer {
    const repo: OrderRepository
    const history: StatusHistory

    constructor (repo: OrderRepository, history: StatusHistory)
      ensures this.repo == repo && this.history == history
    {
      this.repo := repo;
      this.history := history;
    }

    /**
     * Handles one event. An unknown id, or an interruption during the
     * processing delay, changes nothing. Otherwise the order's status becomes
     * PROCESSING whatever it was, its notes and updatedAt are set, nothing
     * else about it changes, and one "System" history row is written.
     */
    method ConsumeOrder(orderId: int, now: Time, interrupted: bool)
      requires Consistent(repo, history)
      modifies repo, history
      ensures Consistent(repo, history)
      ensures orderId !in old(repo.orders) || interrupted ==> unchanged(repo, history)
      ensures orderId in old(repo.orders) && !interrupted ==>
        && repo.orders == old(repo.orders)[orderId := old(repo.orders[orderId]).(
             status := Processing, updatedAt := Some(now), notes := Some(ProcessingNote))]
        && repo.nextId == old(repo.nextId) && repo.nextProductId == old(repo.nextProductId)
        && history.rows == old(history.rows) +
             [StatusDetail(|old(history.rows)| + 1, orderId, Processing, Some(SystemActor), now, Some(ProcessingNote))]
    {
      if orderId in repo.orders && !interrupted {
        var order := repo.orders[orderId];
        order := order.(status := Processing);
        order := order.(updatedAt := Some(now));
        order := order.(notes := Some(ProcessingNote));
        repo.orders := repo.orders[orderId := order];
        history.SaveOrderStatusLogs(order, Processing, Some(SystemActor), Some(ProcessingNote), now);
        AuditedAfterAppend(old(repo.orders), old(history.rows), order, history.rows[|history.rows| - 1]);
      }
    }
  }
}
