/** The worker and the coordinator of src/wc_maps/live_map.py, which `MapRebuild` specifies. */
module LiveMapObject {
  import opened Common
  import opened MR = MapRebuild

  /** Each method that changes the fields is one section under the worker's lock. */
  class LatestRebuildWorker {
    var generation: nat
    var pending: Option<Request>
    var running: Option<Request>
    var result: Option<Finished>
    var stopping: bool

    ghost function Abstract(): Worker
      reads this
    {
      Worker(generation, pending, running, result, stopping)
    }

    constructor ()
      ensures Abstract() == Worker(0, None, None, None, false)
    {
      generation, pending, running, result, stopping := 0, None, None, None, false;
    }

    method SubmitGraph(graph: Graph) returns (token: nat)
      modifies this
      ensures Abstract() == MR.Submit(old(Abstract()), graph) && token == generation
    {
      generation := generation + 1;
      pending := Some(Request(generation, graph));
      return generation;
    }

    /** The thread wakes up. */
    method TakePending()
      modifies this
      ensures Abstract() == MR.Take(old(Abstract()))
    {
      if pending.Some? && !stopping && running.None? {
        running, pending := pending, None;
      }
    }

    /** The thread comes back from the rebuild. */
    method FinishRunning(stored: Result<Graph, string>, fault: Option<string>)
      modifies this
      ensures Abstract() == MR.Finish(old(Abstract()), stored, fault)
    {
      if running.Some? {
        var outcome := RebuildMessage(running.value.graph, stored, fault);
        if !stopping && (result.None? || result.value.outcome.Ok?) {
          result := Some(Finished(running.value.token, outcome));
        }
        running := None;
      }
    }

    /** Compare the message with the stored revision, field by field, and build its map. */
    method RebuildMessage(message: Graph, stored: Result<Graph, string>, fault: Option<string>)
      returns (outcome: Result<Graph, string>)
      ensures outcome == MR.Rebuild(message, stored, fault)
    {
      if stored.Err? {
        return stored;
      }
      var graph := stored.value;
      var fields := [("session_id", message.session.id == graph.session.id), ("graph_epoch", message.epoch == graph.epoch),
                     ("source_mode", message.session.mode == graph.session.mode),
                     ("revision", message.revision == graph.revision),
                     ("raw_index_complete", message.indexComplete == graph.indexComplete)];
      for i := 0 to |fields|
        invariant forall k :: 0 <= k < i ==> fields[k].1
      {
        if !fields[i].1 {
          assert MR.Disagreement(message, graph) == Some(fields[i].0) by {
            assert i == 0 || fields[0].1;
            assert i <= 1 || fields[1].1;
            assert i <= 2 || fields[2].1;
            assert i <= 3 || fields[3].1;
          }
          return Err("ROS GraphSnapshot " + fields[i].0 + " disagrees with immutable revision");
        }
      }
      assert fields[0].1 && fields[1].1 && fields[2].1 && fields[3].1 && fields[4].1;
      if fault.Some? {
        return Err(fault.value);
      }
      return stored;
    }

    method PollResult() returns (finished: Option<Finished>)
      modifies this
      ensures finished == old(result) && Abstract() == old(Abstract()).(result := None)
    {
      finished, result := result, None;
    }

    method CloseWorker()
      modifies this
      ensures Abstract() == MR.Close(old(Abstract()))
    {
      stopping, pending, result := true, None, None;
    }
  }

  class LiveMapNode {
    const session: Session
    const worker: LatestRebuildWorker
    var requested: Option<Graph>
    var completed: Option<Graph>
    var blockedReason: Option<string>
    ghost var submitted: seq<Graph>
    ghost var published: seq<Graph>

    ghost function Abstract(): State
      reads this, worker
    {
      State(session, worker.Abstract(), requested, completed, blockedReason, submitted, published)
    }

    constructor (session: Session)
      ensures Abstract() == MR.Start(session) && fresh(worker)
    {
      this.session := session;
      worker := new LatestRebuildWorker();
      requested, completed, blockedReason, submitted, published := None, None, None, [], [];
    }

    method FailNode(reason: string)
      modifies this
      ensures Abstract() == MR.Fail(old(Abstract()), reason)
    {
      if blockedReason.None? {
        blockedReason := Some(reason);
      }
    }

    /** A graph snapshot arrives. */
    method GraphArrived(message: Graph)
      modifies this, worker
      ensures Abstract() == MR.OnGraph(old(Abstract()), message)
    {
      hide MR.Submit, LatestRebuildWorker.Abstract;
      if blockedReason.Some? && blockedReason.value != "" {
        return;
      }
      if message.session != session {
        FailNode("GraphSnapshot session/source mode mismatch");
        return;
      }
      if requested.Some? {
        if message.epoch != requested.value.epoch {
          FailNode("graph epoch changed without an explicit new map session");
          return;
        }
        if message.revision <= requested.value.revision {
          if message.revision < requested.value.revision {
            FailNode("graph revision moved backwards");
          }
          return;
        }
      }
      if !message.indexComplete {
        FailNode("GraphSnapshot raw index is incomplete");
        return;
      }
      requested, submitted := Some(message), submitted + [message];
      var token := worker.SubmitGraph(message);
    }

    /** A timer tick; `fault` is what building or publishing the messages raises. */
    method TimerTick(fault: Option<string>)
      modifies this, worker
      ensures Abstract() == MR.OnTick(old(Abstract()), fault)
    {
      hide MR.Publish;
      var finished := worker.PollResult();
      if finished.None? || (blockedReason.Some? && blockedReason.value != "") {
        return;
      }
      match finished.value.outcome {
        case Err(text) => FailNode(if text != "" then text else "TypeError");
        case Ok(graph) => PublishFinished(graph, fault);
      }
    }

    method PublishFinished(graph: Graph, fault: Option<string>)
      modifies this
      ensures Abstract() == MR.Publish(old(Abstract()), graph, fault)
    {
      hide LatestRebuildWorker.Abstract;
      if graph.session != session || requested.None? || graph.epoch != requested.value.epoch || graph.revision > requested.value.revision {
        FailNode(UNREQUESTED);
        return;
      }
      if completed.None? || graph.revision > completed.value.revision {
        if fault.Some? {
          FailNode(fault.value);
          return;
        }
        completed, published := Some(graph), published + [graph];
      }
    }
  }
}
