/** The object of src/wc_fusion/graph_delivery.py whose calls `AckedDelivery` specifies. */
module GraphDeliveryObject {
  import opened Common
  import opened AD = AckedDelivery

  class GraphDelivery {
    const policy: Policy
    var graphEpoch: Option<string>
    var queue: seq<Pending>
    var lastEnqueued: int
    var lastAcked: int
    var acknowledged: nat
    var attempts: nat
    var retries: nat
    var failure: Option<string>
    ghost var submitted: seq<Observation>
    ghost var acked: seq<Observation>
    ghost var sent: seq<Sent>

    ghost function Abstract(): State
      reads this
    {
      State(graphEpoch, queue, lastEnqueued, lastAcked, acknowledged, attempts, retries, failure, submitted, acked, sent)
    }

    constructor (policy: Policy, graphEpoch: Option<string>)
      requires policy.Valid()
      ensures this.policy == policy && Abstract() == AD.Start(graphEpoch)
    {
      this.policy, this.graphEpoch := policy, graphEpoch;
      queue, lastEnqueued, lastAcked, acknowledged, attempts, retries, failure := [], 0, 0, 0, 0, 0, None;
      submitted, acked, sent := [], [], [];
    }

    method CheckCapacity() returns (error: Option<string>)
      modifies this`failure
      ensures Abstract() == AD.EnsureCapacity(policy, old(Abstract())) && error == failure
    {
      if failure.Some? {
        return failure;
      }
      if |queue| >= policy.capacity {
        failure := Some(QUEUE_FULL);
      }
      return failure;
    }

    method SubmitObservation(o: Observation) returns (error: Option<string>)
      modifies this
      ensures Abstract() == AD.Submit(policy, old(Abstract()), o) && error == failure
    {
      error := CheckCapacity();
      if error.Some? {
        return;
      }
      if o.id <= lastEnqueued || !WellFormed(o) {
        failure := Some(INVALID_OBSERVATION);
        return failure;
      }
      queue, lastEnqueued, submitted := queue + [Pending(o, None, None)], o.id, submitted + [o];
    }

    method NextPayload(now: int) returns (payload: Payload, error: Option<string>)
      modifies this
      ensures (Abstract(), payload) == AD.Send(policy, old(Abstract()), now) && error == failure
    {
      if failure.Some? {
        return NoPayload, failure;
      }
      if queue == [] {
        return NoPayload, None;
      }
      var item := queue[0];
      if item.first.Some? && now - item.first.value >= policy.timeoutNs {
        failure := Some("GRAPH_ACK_TIMEOUT");
        return NoPayload, failure;
      }
      if item.last.Some? && now - item.last.value < policy.retryNs {
        return NoPayload, None;
      }
      if item.first.None? {
        item := item.(first := Some(now));
      } else {
        retries := retries + 1;
      }
      item := item.(last := Some(now));
      sent := sent + [Sent(|acked|, item.first.value, now)];
      queue, attempts := [item] + queue[1..], attempts + 1;
      return Publish(item.observation.payload), None;
    }

    /** The nodes of the snapshot with this bundle id, in its order, and whether a later one exists. */
    static method Find(nodes: seq<GraphNode>, id: int) returns (matches: seq<GraphNode>, skipped: bool)
      ensures matches == AD.Matches(nodes, id) && skipped == AD.Skipped(nodes, id)
    {
      matches, skipped := [], false;
      for i := |nodes| downto 0
        invariant matches == AD.Matches(nodes[i..], id)
        invariant skipped == AD.Skipped(nodes[i..], id)
      {
        assert nodes[i..] == [nodes[i]] + nodes[i + 1..];
        if nodes[i].bundleId == id {
          matches := [nodes[i]] + matches;
        }
        skipped := skipped || nodes[i].bundleId > id;
      }
    }

    method AcknowledgeSnapshot(snapshot: Snapshot) returns (popped: bool, error: Option<string>)
      modifies this
      ensures Abstract() == AD.Acknowledge(policy, old(Abstract()), snapshot) && error == failure
      ensures popped == (|acked| > |old(acked)|)
    {
      hide AD.Matches, AD.Skipped, AD.Includes;
      if failure.Some? {
        return false, failure;
      }
      if snapshot.provenance != policy.provenance || !snapshot.indexComplete || snapshot.indexHash == "" || snapshot.graphEpoch == "" {
        failure := Some("GRAPH_ACK_PROVENANCE_MISMATCH");
        return false, failure;
      }
      if graphEpoch.None? {
        graphEpoch := Some(snapshot.graphEpoch);
      }
      if graphEpoch.value != snapshot.graphEpoch {
        failure := Some("GRAPH_ACK_EPOCH_CHANGED");
        return false, failure;
      }
      if queue == [] {
        return false, None;
      }
      var item := queue[0];
      var matches, skipped := Find(snapshot.nodes, item.observation.id);
      if matches == [] {
        if skipped {
          failure := Some("GRAPH_ACK_SKIPPED_PENDING_BUNDLE");
        }
        return false, failure;
      }
      if item.first.None? || !Includes(matches, item.observation) {
        failure := Some("GRAPH_ACK_OBSERVATION_MISMATCH");
        return false, failure;
      }
      queue, lastAcked, acknowledged, acked := queue[1..], item.observation.id, acknowledged + 1, acked + [item.observation];
      return true, None;
    }
  }
}
