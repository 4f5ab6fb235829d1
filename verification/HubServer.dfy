/** The hub's request handlers: one turn of a subscription stream, and a completion report.
    Each runs under the state lock, so one call is one step of HubProtocol. */
module HubServerModel {
  import opened Wrappers
  import opened Hub

  // What one turn of a stream does: end it, send an item, or wait to be woken.
  datatype Turn = Finished | Item(task: TaskNode) | Idle

  class HubServer {
    const dag: HubDag

    constructor (nodes: seq<TaskNode>)
      ensures fresh(dag) && dag.View() == Initial(nodes)
    {
      dag := new HubDag(nodes);
    }

    method SubscribeTurn(worker: string) returns (turn: Turn)
      modifies dag
      ensures turn == Finished <==> IsDone(old(dag.View()))
      ensures IsDone(old(dag.View())) ==> dag.View() == old(dag.View())
      ensures !IsDone(old(dag.View())) ==>
        DispatchSpec(old(dag.View()), worker, if turn.Item? then Some(turn.task) else None, dag.View())
    {
      var done := dag.IsDoneNow();
      if done {
        return Finished;
      }
      var r := dag.DispatchNext(worker);
      turn := if r.Some? then Item(r.value) else Idle;
    }

    method Complete(id: TaskId, success: bool, stderrTail: string) returns (newly: seq<TaskId>)
      modifies dag
      ensures success ==> CompleteSpec(old(dag.View()), id, newly, dag.View())
      ensures !success ==> FailSpec(old(dag.View()), id, stderrTail, newly, dag.View())
    {
      if success {
        newly := dag.MarkComplete(id);
      } else {
        newly := dag.MarkFailed(id, stderrTail);
      }
    }
  }
}
