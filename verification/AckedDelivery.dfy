/**
 One-at-a-time delivery of accepted observations to the graph (`GraphDelivery` in
 src/wc_fusion/graph_delivery.py): a bounded queue whose head alone is sent, resent after a
 pause, and dropped when a snapshot of the graph contains it.
 */
module AckedDelivery {
  import opened Common

  type Bytes = string

  datatype Observation = Observation(id: int, rawKeys: seq<string>, odomEpoch: string, payload: Bytes)

  /** A queued observation with its first and its latest send time. */
  datatype Pending = Pending(observation: Observation, first: Option<int>, last: Option<int>)

  datatype GraphNode = GraphNode(bundleId: int, nodeId: int, odomEpoch: string, rawKeys: seq<string>)

  /** Session, source mode, calibration and the two clock models. */
  datatype Provenance = Provenance(session: string, sourceMode: string, calibration: string, leftClock: string, rightClock: string)

  datatype Snapshot = Snapshot(
    provenance: Provenance, indexComplete: bool, indexHash: string, graphEpoch: string, nodes: seq<GraphNode>)

  datatype Policy = Policy(provenance: Provenance, capacity: nat, retryNs: int, timeoutNs: int) {
    predicate Valid() {
      1 <= capacity <= 8 && 0 < retryNs < timeoutNs
    }
  }

  /** One publication: of which submission, when that one was first sent, and when now. */
  datatype Sent = Sent(nth: nat, since: int, at: int)

  /** The object's fields, and three histories: submissions, acknowledgements and sends. */
  datatype State = State(
    graphEpoch: Option<string>, queue: seq<Pending>, lastEnqueued: int, lastAcked: int, acknowledged: nat,
    attempts: nat, retries: nat, failure: Option<string>,
    submitted: seq<Observation>, acked: seq<Observation>, sent: seq<Sent>)

  function Start(graphEpoch: Option<string>): State {
    State(graphEpoch, [], 0, 0, 0, 0, 0, None, [], [], [])
  }

  const QUEUE_FULL := "GRAPH_DELIVERY_QUEUE_FULL"
  const INVALID_OBSERVATION := "GRAPH_DELIVERY_INVALID_OBSERVATION"
  const MAX_PAYLOAD := 8 * 1024 * 1024

  function Fail(s: State, reason: string): State {
    s.(failure := Some(reason))
  }

  function EnsureCapacity(p: Policy, s: State): State {
    if s.failure.None? && |s.queue| >= p.capacity then Fail(s, QUEUE_FULL) else s
  }

  /** What a caller must supply besides a new id. */
  predicate WellFormed(o: Observation) {
    && |o.rawKeys| == 2 && o.rawKeys[0] != o.rawKeys[1] && o.rawKeys[0] != "" && o.rawKeys[1] != ""
    && o.odomEpoch != "" && 0 < |o.payload| <= MAX_PAYLOAD
  }

  function Submit(p: Policy, s: State, o: Observation): State {
    var s1 := EnsureCapacity(p, s);
    if s1.failure.Some? then s1
    else if o.id <= s.lastEnqueued || !WellFormed(o) then Fail(s, INVALID_OBSERVATION)
    else s.(queue := s.queue + [Pending(o, None, None)], lastEnqueued := o.id, submitted := s.submitted + [o])
  }

  function MarkSent(s: State, now: int): State
    requires s.queue != []
  {
    var head := s.queue[0];
    var sentHead := head.(first := if head.first.None? then Some(now) else head.first, last := Some(now));
    s.(queue := [sentHead] + s.queue[1..], attempts := s.attempts + 1,
       retries := if head.first.None? then s.retries else s.retries + 1,
       sent := s.sent + [Sent(|s.acked|, sentHead.first.value, now)])
  }

  datatype Payload = NoPayload | Publish(payload: Bytes)

  function Send(p: Policy, s: State, now: int): (State, Payload) {
    if s.failure.Some? || s.queue == [] then (s, NoPayload)
    else
      var head := s.queue[0];
      if head.first.Some? && now - head.first.value >= p.timeoutNs then (Fail(s, "GRAPH_ACK_TIMEOUT"), NoPayload)
      else if head.last.Some? && now - head.last.value < p.retryNs then (s, NoPayload)
      else
        (MarkSent(s, now), Publish(head.observation.payload))
  }

  function Matches(nodes: seq<GraphNode>, id: int): seq<GraphNode> {
    if nodes == [] then []
    else (if nodes[0].bundleId == id then [nodes[0]] else []) + Matches(nodes[1..], id)
  }

  predicate Skipped(nodes: seq<GraphNode>, id: int) {
    exists n :: n in nodes && n.bundleId > id
  }

  predicate Includes(matches: seq<GraphNode>, o: Observation) {
    && |matches| == 1 && matches[0].nodeId == o.id && matches[0].odomEpoch == o.odomEpoch
    && multiset(matches[0].rawKeys) == multiset(o.rawKeys)
  }

  predicate Trusted(p: Policy, snapshot: Snapshot) {
    snapshot.provenance == p.provenance && snapshot.indexComplete && snapshot.indexHash != "" && snapshot.graphEpoch != ""
  }

  function Pop(s: State): State
    requires s.queue != []
  {
    s.(queue := s.queue[1..], lastAcked := s.queue[0].observation.id, acknowledged := s.acknowledged + 1,
       acked := s.acked + [s.queue[0].observation])
  }

  function Acknowledge(p: Policy, s: State, snapshot: Snapshot): State {
    if s.failure.Some? then s
    else if !Trusted(p, snapshot) then Fail(s, "GRAPH_ACK_PROVENANCE_MISMATCH")
    else
      var s1 := s.(graphEpoch := if s.graphEpoch.None? then Some(snapshot.graphEpoch) else s.graphEpoch);
      if s1.graphEpoch != Some(snapshot.graphEpoch) then Fail(s1, "GRAPH_ACK_EPOCH_CHANGED")
      else if s.queue == [] then s1
      else
        var head := s.queue[0];
        var matches := Matches(snapshot.nodes, head.observation.id);
        if matches == [] then
          if Skipped(snapshot.nodes, head.observation.id) then Fail(s1, "GRAPH_ACK_SKIPPED_PENDING_BUNDLE") else s1
        else if head.first.None? || !Includes(matches, head.observation) then Fail(s1, "GRAPH_ACK_OBSERVATION_MISMATCH")
        else Pop(s1)
  }

  datatype Event =
    | Check
    | Submitted(observation: Observation)
    | Sending(now: int)
    | Snapshotted(snapshot: Snapshot)

  function Step(p: Policy, s: State, e: Event): State {
    match e
    case Check => EnsureCapacity(p, s)
    case Submitted(o) => Submit(p, s, o)
    case Sending(now) => Send(p, s, now).0
    case Snapshotted(snapshot) => Acknowledge(p, s, snapshot)
  }

  function Run(p: Policy, s: State, events: seq<Event>): State {
    if events == [] then s else Step(p, Run(p, s, events[..|events| - 1]), events[|events| - 1])
  }

  // ----- invariants -----

  ghost predicate Rising(submitted: seq<Observation>, lastEnqueued: int) {
    && (forall i, j :: 0 <= i < j < |submitted| ==> submitted[i].id < submitted[j].id)
    && (forall i :: 0 <= i < |submitted| ==> 0 < submitted[i].id <= lastEnqueued)
    && 0 <= lastEnqueued
  }

  /** The queue holds the submissions not yet acknowledged, and only its head can have been sent. */
  ghost predicate QueueOk(queue: seq<Pending>, submitted: seq<Observation>, n: nat) {
    && |submitted| == n + |queue|
    && (forall i :: 0 <= i < |queue| ==> queue[i].observation == submitted[n + i])
    && (forall i :: 0 < i < |queue| ==> queue[i].first.None?)
    && (forall i :: 0 <= i < |queue| ==> (queue[i].first.None? <==> queue[i].last.None?))
  }

  function HeadSent(queue: seq<Pending>): nat {
    if queue != [] && queue[0].first.Some? then 1 else 0
  }

  /** Number of sends that repeat the send just before them. */
  function Repeats(sent: seq<Sent>): nat {
    if |sent| < 2 then 0
    else Repeats(sent[..|sent| - 1]) + if sent[|sent| - 1].nth == sent[|sent| - 2].nth then 1 else 0
  }

  /** A send repeats the previous one after a retry pause and within the timeout of its first, or
      is the first of the next submission. */
  predicate Follows(p: Policy, a: Sent, b: Sent) {
    || (b.nth == a.nth && b.since == a.since && b.at - a.at >= p.retryNs && b.at - b.since < p.timeoutNs)
    || (b.nth == a.nth + 1 && b.since == b.at)
  }

  /** The sends go through the first `reached` submissions in order, leaving none out. */
  ghost predicate SendsOk(p: Policy, sent: seq<Sent>, reached: nat) {
    && (sent != [] ==> sent[0].nth == 0 && sent[0].since == sent[0].at && sent[|sent| - 1].nth == reached - 1)
    && (sent == [] ==> reached == 0)
    && forall i :: 0 < i < |sent| ==> Follows(p, sent[i - 1], sent[i])
  }

  predicate HeadKnown(head: Pending, sent: seq<Sent>, n: nat) {
    head.first.Some? && head.last.Some? ==> sent != [] && sent[|sent| - 1] == Sent(n, head.first.value, head.last.value)
  }

  ghost predicate CountsOk(s: State) {
    && s.acknowledged == |s.acked| && s.acked <= s.submitted
    && s.lastAcked == (if s.acked == [] then 0 else s.acked[|s.acked| - 1].id)
    && s.attempts == |s.sent| && s.retries == Repeats(s.sent)
    && s.attempts == s.retries + s.acknowledged + HeadSent(s.queue)
  }

  ghost predicate Invariant(p: Policy, s: State) {
    && Rising(s.submitted, s.lastEnqueued) && |s.acked| <= |s.submitted|
    && QueueOk(s.queue, s.submitted, |s.acked|) && |s.queue| <= p.capacity
    && SendsOk(p, s.sent, |s.acked| + HeadSent(s.queue)) && (s.queue != [] ==> HeadKnown(s.queue[0], s.sent, |s.acked|))
    && CountsOk(s)
  }

  lemma QueueAppends(queue: seq<Pending>, submitted: seq<Observation>, n: nat, o: Observation)
    requires QueueOk(queue, submitted, n)
    ensures QueueOk(queue + [Pending(o, None, None)], submitted + [o], n)
    ensures HeadSent(queue + [Pending(o, None, None)]) == HeadSent(queue)
  {
  }

  lemma RisingAppends(submitted: seq<Observation>, lastEnqueued: int, o: Observation)
    requires Rising(submitted, lastEnqueued) && lastEnqueued < o.id
    ensures Rising(submitted + [o], o.id)
  {
  }

  lemma SubmitKeeps(p: Policy, s: State, o: Observation)
    requires p.Valid() && Invariant(p, s)
    ensures Invariant(p, Submit(p, s, o))
  {
    hide Repeats, WellFormed, SendsOk, QueueOk, Rising, HeadSent;
    if Submit(p, s, o).queue != s.queue {
      QueueAppends(s.queue, s.submitted, |s.acked|, o);
      RisingAppends(s.submitted, s.lastEnqueued, o);
      NothingSent(s.queue, o);
    }
  }

  lemma NothingSent(queue: seq<Pending>, o: Observation)
    ensures queue == [] ==> (queue + [Pending(o, None, None)])[0] == Pending(o, None, None)
    ensures queue != [] ==> (queue + [Pending(o, None, None)])[0] == queue[0]
  {
  }

  /** A send extends the list of sends by one that follows. */
  lemma SendsGrow(p: Policy, sent: seq<Sent>, reached: nat, more: Sent)
    requires SendsOk(p, sent, reached)
    requires if sent == [] then more.nth == 0 && more.since == more.at else Follows(p, sent[|sent| - 1], more)
    ensures SendsOk(p, sent + [more], more.nth + 1)
    ensures Repeats(sent + [more]) == Repeats(sent) + if more.nth + 1 == reached then 1 else 0
  {
    var all := sent + [more];
    assert all[..|sent|] == sent;
    forall i | 0 < i < |all| ensures Follows(p, all[i - 1], all[i]) {
      if i < |sent| {
        assert Follows(p, sent[i - 1], sent[i]);
      }
    }
  }

  /** A send marks the head as sent now and appends itself to the list of sends. */
  lemma SendCases(p: Policy, s: State, now: int)
    requires QueueOk(s.queue, s.submitted, |s.acked|)
    ensures var s' := Send(p, s, now).0;
            || s' == s.(failure := s'.failure)
            || (s.queue != [] && Due(p, s.queue[0], now) && s' == MarkSent(s, now))
  {
  }

  predicate Due(p: Policy, head: Pending, now: int) {
    && (head.first.Some? <==> head.last.Some?)
    && (head.first.Some? ==> now - head.first.value < p.timeoutNs && now - head.last.value >= p.retryNs)
  }

  lemma MarkedQueue(queue: seq<Pending>, submitted: seq<Observation>, n: nat, now: int)
    requires QueueOk(queue, submitted, n) && queue != []
    ensures var head := queue[0].(first := if queue[0].first.None? then Some(now) else queue[0].first, last := Some(now));
            QueueOk([head] + queue[1..], submitted, n) && HeadSent([head] + queue[1..]) == 1
  {
  }

  /** The send now is the first one, or it follows the last one, which was of the same head. */
  lemma NextSend(p: Policy, s: State, now: int)
    requires Invariant(p, s) && s.queue != [] && Due(p, s.queue[0], now)
    ensures var head := s.queue[0];
            var more := Sent(|s.acked|, if head.first.None? then now else head.first.value, now);
            if s.sent == [] then more.nth == 0 && more.since == more.at else Follows(p, s.sent[|s.sent| - 1], more)
  {
    hide Repeats, Rising, CountsOk;
  }

  lemma MarkSentKeeps(p: Policy, s: State, now: int)
    requires Invariant(p, s) && s.queue != [] && Due(p, s.queue[0], now)
    ensures Invariant(p, MarkSent(s, now))
  {
    hide Repeats, SendsOk, Rising, Follows, QueueOk, Due;
    var head := s.queue[0];
    NextSend(p, s, now);
    SendsGrow(p, s.sent, |s.acked| + HeadSent(s.queue), Sent(|s.acked|, if head.first.None? then now else head.first.value, now));
    MarkedQueue(s.queue, s.submitted, |s.acked|, now);
  }

  lemma SendKeeps(p: Policy, s: State, now: int)
    requires p.Valid() && Invariant(p, s)
    ensures Invariant(p, Send(p, s, now).0)
  {
    SendCases(p, s, now);
    hide Send, MarkSent, Due, Rising, QueueOk, SendsOk, Repeats, HeadSent, HeadKnown;
    if Send(p, s, now).0 != s.(failure := Send(p, s, now).0.failure) {
      MarkSentKeeps(p, s, now);
    }
  }

  /** Taking the sent head off the queue: the next one has not been sent. */
  lemma PopKeeps(p: Policy, s: State)
    requires Invariant(p, s) && s.queue != [] && s.queue[0].first.Some?
    ensures Invariant(p, Pop(s))
  {
    hide Repeats, SendsOk, Rising;
    assert Pop(s).acked == s.submitted[..|s.acked| + 1];
    assert HeadSent(Pop(s).queue) == 0 && HeadSent(s.queue) == 1;
  }

  /** A snapshot pops the head or changes at most the epoch and the failure. */
  lemma AcknowledgeCases(p: Policy, s: State, snapshot: Snapshot)
    ensures var s' := Acknowledge(p, s, snapshot);
            || s' == s.(graphEpoch := s'.graphEpoch, failure := s'.failure)
            || (s.queue != [] && s.queue[0].first.Some? && s' == Pop(s.(graphEpoch := s'.graphEpoch)))
  {
    hide Includes, Matches, Skipped, Trusted;
  }

  lemma AcknowledgeKeeps(p: Policy, s: State, snapshot: Snapshot)
    requires p.Valid() && Invariant(p, s)
    ensures Invariant(p, Acknowledge(p, s, snapshot))
  {
    var s' := Acknowledge(p, s, snapshot);
    AcknowledgeCases(p, s, snapshot);
    hide Acknowledge, Pop, Rising, QueueOk, SendsOk, Repeats, HeadSent, HeadKnown;
    if s' != s.(graphEpoch := s'.graphEpoch, failure := s'.failure) {
      PopKeeps(p, s.(graphEpoch := s'.graphEpoch));
    }
  }

  lemma StepKeeps(p: Policy, s: State, e: Event)
    requires p.Valid() && Invariant(p, s)
    ensures Invariant(p, Step(p, s, e))
  {
    hide Submit, Send, Acknowledge, Rising, QueueOk, SendsOk, Repeats, HeadKnown;
    match e {
      case Check =>
      case Submitted(o) => SubmitKeeps(p, s, o);
      case Sending(now) => SendKeeps(p, s, now);
      case Snapshotted(snapshot) => AcknowledgeKeeps(p, s, snapshot);
    }
  }

  lemma {:induction false} AlwaysConsistent(p: Policy, graphEpoch: Option<string>, events: seq<Event>)
    requires p.Valid()
    ensures Invariant(p, Run(p, Start(graphEpoch), events))
  {
    if events != [] {
      AlwaysConsistent(p, graphEpoch, events[..|events| - 1]);
      StepKeeps(p, Run(p, Start(graphEpoch), events[..|events| - 1]), events[|events| - 1]);
      hide Step;
    }
  }

  // ----- what the pipeline relies on -----

  predicate WasSent(sent: seq<Sent>, k: int) {
    exists m :: 0 <= m < |sent| && sent[m].nth == k
  }

  /** Sends, seen from any two of them: order of the submissions, retry pause, timeout. */
  lemma {:induction false} SendsBetween(p: Policy, sent: seq<Sent>, reached: nat, i: nat, j: nat)
    requires p.Valid() && SendsOk(p, sent, reached) && i < j < |sent|
    ensures sent[i].nth <= sent[j].nth < reached
    ensures sent[i].nth == sent[j].nth ==>
              sent[i].since == sent[j].since <= sent[i].at && p.retryNs <= sent[j].at - sent[i].at < p.timeoutNs
    decreases j - i
  {
    assert Follows(p, sent[j - 1], sent[j]);
    SinceFirst(p, sent, reached, i);
    SendsBelow(p, sent, reached, j);
    if i < j - 1 {
      SendsBetween(p, sent, reached, i, j - 1);
    }
  }

  /** No submission up to the one of send `j` was left out. */
  lemma {:induction false} NoneSkipped(p: Policy, sent: seq<Sent>, reached: nat, j: nat, k: nat)
    requires SendsOk(p, sent, reached) && j < |sent| && k <= sent[j].nth
    ensures WasSent(sent, k)
  {
    if k == sent[j].nth {
      assert WasSent(sent, k);
    } else {
      assert j > 0 && Follows(p, sent[j - 1], sent[j]);
      NoneSkipped(p, sent, reached, j - 1, k);
    }
  }

  lemma {:induction false} SinceFirst(p: Policy, sent: seq<Sent>, reached: nat, i: nat)
    requires p.Valid() && SendsOk(p, sent, reached) && i < |sent|
    ensures sent[i].since <= sent[i].at
  {
    if i > 0 {
      assert Follows(p, sent[i - 1], sent[i]);
      SinceFirst(p, sent, reached, i - 1);
    }
  }

  lemma {:induction false} SendsBelow(p: Policy, sent: seq<Sent>, reached: nat, i: nat)
    requires SendsOk(p, sent, reached) && i < |sent|
    ensures sent[i].nth < reached
    decreases |sent| - i
  {
    if i + 1 < |sent| {
      SendsBelow(p, sent, reached, i + 1);
      assert Follows(p, sent[i], sent[i + 1]);
    }
  }

  /**
   In every run the acknowledged observations are the first ones submitted, ids increase, only
   they and the head were ever sent, each of them at least once, and the counters agree.
   */
  lemma DeliveryContract(p: Policy, graphEpoch: Option<string>, events: seq<Event>)
    requires p.Valid()
    ensures var s := Run(p, Start(graphEpoch), events);
            && s.acked <= s.submitted && |s.submitted| == |s.acked| + |s.queue| <= |s.acked| + p.capacity
            && (forall i, j :: 0 <= i < j < |s.submitted| ==> s.submitted[i].id < s.submitted[j].id)
            && (forall i :: 0 <= i < |s.sent| ==> s.sent[i].nth < |s.acked| + HeadSent(s.queue))
            && (forall k :: 0 <= k < |s.acked| ==> WasSent(s.sent, k))
            && s.acknowledged == |s.acked| && s.attempts - s.retries == s.acknowledged + HeadSent(s.queue)
  {
    AlwaysConsistent(p, graphEpoch, events);
    var s := Run(p, Start(graphEpoch), events);
    var reached := |s.acked| + HeadSent(s.queue);
    hide Run, Repeats, Follows, WasSent, SendsOk;
    forall i | 0 <= i < |s.sent| ensures s.sent[i].nth < reached {
      SendsBelow(p, s.sent, reached, i);
    }
    forall k | 0 <= k < |s.acked| ensures WasSent(s.sent, k) {
      LastSend(p, s.sent, reached);
      NoneSkipped(p, s.sent, reached, |s.sent| - 1, k);
    }
  }

  lemma LastSend(p: Policy, sent: seq<Sent>, reached: nat)
    requires SendsOk(p, sent, reached) && reached > 0
    ensures sent != [] && sent[|sent| - 1].nth == reached - 1
  {
  }

  /** A latched failure is final: no later call changes anything. */
  lemma {:induction false} FailureIsFinal(p: Policy, s: State, events: seq<Event>)
    requires s.failure.Some?
    ensures Run(p, s, events) == s
  {
    if events != [] {
      FailureIsFinal(p, s, events[..|events| - 1]);
    }
  }

  /** The graph's epoch is fixed once it is known. */
  lemma {:induction false} EpochIsFixed(p: Policy, s: State, events: seq<Event>)
    requires s.graphEpoch.Some?
    ensures Run(p, s, events).graphEpoch == s.graphEpoch
  {
    if events != [] {
      EpochIsFixed(p, s, events[..|events| - 1]);
      var before := Run(p, s, events[..|events| - 1]);
      match events[|events| - 1] {
        case Snapshotted(snapshot) => hide Includes, Matches, Skipped, Trusted;
        case _ =>
      }
    }
  }

  /** Whoever checks the capacity first and submits rising ids of well-formed observations never
      trips the submission guards. */
  lemma GuardedSubmitSucceeds(p: Policy, s: State, o: Observation)
    requires EnsureCapacity(p, s).failure.None? && WellFormed(o) && o.id > s.lastEnqueued
    ensures var s' := Submit(p, s, o); s'.failure.None? && s'.lastEnqueued == o.id && s'.submitted == s.submitted + [o]
  {
  }

  /** The snapshot holds one node for this observation, and that node is the observation. */
  ghost predicate Holds(nodes: seq<GraphNode>, o: Observation) {
    exists i :: 0 <= i < |nodes| && IsNodeOf(nodes[i], o) && forall j :: 0 <= j < |nodes| && j != i ==> nodes[j].bundleId != o.id
  }

  predicate IsNodeOf(n: GraphNode, o: Observation) {
    n.bundleId == o.id && n.nodeId == o.id && n.odomEpoch == o.odomEpoch && multiset(n.rawKeys) == multiset(o.rawKeys)
  }

  lemma {:induction false} MatchesMembers(nodes: seq<GraphNode>, id: int)
    ensures forall n :: n in Matches(nodes, id) ==> n in nodes && n.bundleId == id
    ensures Matches(nodes, id) == [] <==> forall j :: 0 <= j < |nodes| ==> nodes[j].bundleId != id
  {
    if nodes != [] {
      MatchesMembers(nodes[1..], id);
      assert forall j :: 0 < j < |nodes| ==> nodes[j] == nodes[1..][j - 1];
      assert nodes == [nodes[0]] + nodes[1..];
    }
  }

  lemma {:induction false} OneMatch(nodes: seq<GraphNode>, o: Observation)
    ensures Includes(Matches(nodes, o.id), o) <==> Holds(nodes, o)
  {
    if nodes != [] {
      var rest := nodes[1..];
      OneMatch(rest, o);
      MatchesMembers(rest, o.id);
      hide Matches, Includes;
      if nodes[0].bundleId == o.id {
        FirstMatch(nodes, o);
      } else {
        LaterMatch(nodes, o);
      }
    }
  }

  lemma FirstMatch(nodes: seq<GraphNode>, o: Observation)
    requires nodes != [] && nodes[0].bundleId == o.id
    ensures Includes(Matches(nodes, o.id), o) <==> Holds(nodes, o)
  {
    var rest := nodes[1..];
    MatchesMembers(rest, o.id);
    assert Matches(nodes, o.id) == [nodes[0]] + Matches(rest, o.id);
    hide Matches;
    assert forall j :: 0 < j < |nodes| ==> nodes[j] == rest[j - 1];
    if Matches(rest, o.id) == [] {
      assert [nodes[0]] + [] == [nodes[0]];
      assert forall j :: 0 < j < |nodes| ==> nodes[j].bundleId != o.id;
    } else {
      var k :| 0 <= k < |rest| && rest[k].bundleId == o.id;
      assert nodes[k + 1].bundleId == o.id && nodes[0].bundleId == o.id;
    }
  }

  lemma LaterMatch(nodes: seq<GraphNode>, o: Observation)
    requires nodes != [] && nodes[0].bundleId != o.id
    requires Includes(Matches(nodes[1..], o.id), o) <==> Holds(nodes[1..], o)
    ensures Includes(Matches(nodes, o.id), o) <==> Holds(nodes, o)
  {
    assert Matches(nodes, o.id) == [] + Matches(nodes[1..], o.id) == Matches(nodes[1..], o.id);
    hide Matches, Includes, Holds;
    if Holds(nodes[1..], o) {
      StillHolds(nodes, o);
    }
    if Holds(nodes, o) {
      NotFirst(nodes, o);
    }
  }

  lemma StillHolds(nodes: seq<GraphNode>, o: Observation)
    requires nodes != [] && nodes[0].bundleId != o.id && Holds(nodes[1..], o)
    ensures Holds(nodes, o)
  {
    hide IsNodeOf;
    var rest := nodes[1..];
    var i :| 0 <= i < |rest| && IsNodeOf(rest[i], o) && forall j :: 0 <= j < |rest| && j != i ==> rest[j].bundleId != o.id;
    assert nodes[i + 1] == rest[i];
    forall j | 0 <= j < |nodes| && j != i + 1 ensures nodes[j].bundleId != o.id {
      if j > 0 {
        assert nodes[j] == rest[j - 1];
      }
    }
  }

  lemma NotFirst(nodes: seq<GraphNode>, o: Observation)
    requires nodes != [] && nodes[0].bundleId != o.id && Holds(nodes, o)
    ensures Holds(nodes[1..], o)
  {
    var i :| 0 <= i < |nodes| && IsNodeOf(nodes[i], o) && forall j :: 0 <= j < |nodes| && j != i ==> nodes[j].bundleId != o.id;
    var rest := nodes[1..];
    assert rest[i - 1] == nodes[i];
    assert forall j :: 0 <= j < |rest| && j != i - 1 ==> rest[j] == nodes[j + 1];
  }

  /** The head leaves the queue exactly when it was sent and a trusted snapshot of the known epoch
      holds it, once and unchanged. */
  lemma AcknowledgesExactly(p: Policy, s: State, snapshot: Snapshot)
    ensures |Acknowledge(p, s, snapshot).acked| > |s.acked| <==>
              && s.failure.None? && Trusted(p, snapshot) && (s.graphEpoch.Some? ==> snapshot.graphEpoch == s.graphEpoch.value)
              && s.queue != [] && s.queue[0].first.Some? && Holds(snapshot.nodes, s.queue[0].observation)
  {
    hide Holds, Skipped, Trusted, Includes;
    if s.queue != [] {
      OneMatch(snapshot.nodes, s.queue[0].observation);
      NoMatch(snapshot.nodes, s.queue[0].observation);
      hide Matches;
    }
  }

  lemma NoMatch(nodes: seq<GraphNode>, o: Observation)
    ensures Matches(nodes, o.id) == [] ==> !Includes(Matches(nodes, o.id), o)
  {
  }

  // ----- the answers, told by the histories -----

  /** The oldest submission without an acknowledgement is the one sent last. */
  predicate Tried(s: State) {
    s.sent != [] && s.sent[|s.sent| - 1].nth == |s.acked|
  }

  /** Unacknowledged, and never sent or due again. */
  predicate SendDue(p: Policy, s: State, now: int) {
    && |s.acked| < |s.submitted|
    && (Tried(s) ==> var last := s.sent[|s.sent| - 1]; now - last.at >= p.retryNs && now - last.since < p.timeoutNs)
  }

  /** Unacknowledged for the whole timeout since it was first sent. */
  predicate SendLate(p: Policy, s: State, now: int) {
    |s.acked| < |s.submitted| && Tried(s) && now - s.sent[|s.sent| - 1].since >= p.timeoutNs
  }

  /** The head of the queue and the histories tell the same. */
  lemma HeadOfHistories(p: Policy, s: State)
    requires Invariant(p, s)
    ensures |s.queue| == |s.submitted| - |s.acked|
    ensures s.queue != [] ==>
              && s.queue[0].observation == s.submitted[|s.acked|]
              && (s.queue[0].first.Some? <==> s.queue[0].last.Some?) && (s.queue[0].first.Some? <==> Tried(s))
              && (Tried(s) ==> var last := s.sent[|s.sent| - 1];
                               s.queue[0].first == Some(last.since) && s.queue[0].last == Some(last.at))
  {
    hide Rising, Follows, Repeats, CountsOk;
  }

  /**
   A call for the next payload answers with the oldest unacknowledged submission exactly when that
   was never sent, or was last sent a retry pause ago and first sent within the timeout; it latches
   the timeout exactly when the first send is that long ago; otherwise it changes nothing.
   */
  lemma SendsExactly(p: Policy, s: State, now: int)
    requires p.Valid() && Invariant(p, s) && s.failure.None?
    ensures var r := Send(p, s, now);
            && (r.1.Publish? <==> SendDue(p, s, now))
            && (r.1.Publish? ==> r.1.payload == s.submitted[|s.acked|].payload
                                 && r.0.sent == s.sent + [Sent(|s.acked|, if Tried(s) then s.sent[|s.sent| - 1].since else now, now)]
                                 && r.0.failure.None?)
            && (r.0.failure == Some("GRAPH_ACK_TIMEOUT") <==> SendLate(p, s, now))
            && (!SendDue(p, s, now) && !SendLate(p, s, now) ==> r.0 == s)
            && r.0.submitted == s.submitted && r.0.acked == s.acked
  {
    HeadOfHistories(p, s);
    hide Invariant, Tried;
  }

  /** The same in every run. */
  lemma RunSendsExactly(p: Policy, graphEpoch: Option<string>, events: seq<Event>, now: int)
    requires p.Valid() && Run(p, Start(graphEpoch), events).failure.None?
    ensures var s := Run(p, Start(graphEpoch), events);
            var s' := Run(p, Start(graphEpoch), events + [Sending(now)]);
            && (|s'.sent| > |s.sent| <==> SendDue(p, s, now)) && (s'.failure.Some? <==> SendLate(p, s, now))
  {
    AlwaysConsistent(p, graphEpoch, events);
    var s := Run(p, Start(graphEpoch), events);
    assert (events + [Sending(now)])[..|events|] == events;
    assert Run(p, Start(graphEpoch), events + [Sending(now)]) == Step(p, s, Sending(now));
    hide Invariant, Run, Send, SendDue, SendLate;
    SendsExactly(p, s, now);
    SendsOrKeeps(p, s, now);
  }

  lemma SendsOrKeeps(p: Policy, s: State, now: int)
    requires s.failure.None?
    ensures var r := Send(p, s, now);
            && (r.1.NoPayload? ==> r.0.sent == s.sent)
            && (r.0.failure.Some? ==> r.0.failure == Some("GRAPH_ACK_TIMEOUT"))
  {
  }

  predicate LastIdOk(s: State) {
    s.lastEnqueued == if s.submitted == [] then 0 else s.submitted[|s.submitted| - 1].id
  }

  lemma LastIdStep(p: Policy, s: State, e: Event)
    requires LastIdOk(s)
    ensures LastIdOk(Step(p, s, e))
  {
    hide WellFormed, Matches, Skipped, Includes, Trusted;
  }

  lemma {:induction false} LastIdIsNewest(p: Policy, graphEpoch: Option<string>, events: seq<Event>)
    ensures LastIdOk(Run(p, Start(graphEpoch), events))
  {
    hide Step;
    if events != [] {
      LastIdIsNewest(p, graphEpoch, events[..|events| - 1]);
      LastIdStep(p, Run(p, Start(graphEpoch), events[..|events| - 1]), events[|events| - 1]);
    }
  }

  /** An observation the graph can take: two different raw keys, an epoch, a payload of allowed size. */
  predicate Deliverable(o: Observation) {
    && |o.rawKeys| == 2 && "" !in o.rawKeys && |set k | k in o.rawKeys| == 2
    && o.odomEpoch != "" && o.payload != "" && |o.payload| <= 8 * 1024 * 1024
  }

  lemma DeliverableIsWellFormed(o: Observation)
    ensures Deliverable(o) <==> WellFormed(o)
  {
    if |o.rawKeys| == 2 {
      assert o.rawKeys == [o.rawKeys[0], o.rawKeys[1]];
      assert (set k | k in o.rawKeys) == {o.rawKeys[0], o.rawKeys[1]};
    }
  }

  /** A submission is queued exactly when fewer than the capacity are unacknowledged, its id is newer
      than all before, and it is deliverable; any other latches. */
  lemma SubmitsExactly(p: Policy, graphEpoch: Option<string>, events: seq<Event>, o: Observation)
    requires p.Valid() && Run(p, Start(graphEpoch), events).failure.None?
    ensures var s := Run(p, Start(graphEpoch), events);
            var s' := Run(p, Start(graphEpoch), events + [Submitted(o)]);
            if |s.submitted| - |s.acked| < p.capacity && Deliverable(o) && o.id > 0
               && forall k :: 0 <= k < |s.submitted| ==> s.submitted[k].id < o.id
            then s'.submitted == s.submitted + [o] && s'.failure.None?
            else s'.submitted == s.submitted && s'.failure.Some?
  {
    AlwaysConsistent(p, graphEpoch, events);
    LastIdIsNewest(p, graphEpoch, events);
    DeliverableIsWellFormed(o);
    var s := Run(p, Start(graphEpoch), events);
    HeadOfHistories(p, s);
    assert (events + [Submitted(o)])[..|events|] == events;
    assert Run(p, Start(graphEpoch), events + [Submitted(o)]) == Step(p, s, Submitted(o));
    hide Run, WellFormed, Deliverable, QueueOk, SendsOk, HeadKnown, CountsOk;
  }

  /** Nothing in the snapshot is the observation, and something in it came later. */
  predicate Overtaken(nodes: seq<GraphNode>, o: Observation) {
    && (forall j :: 0 <= j < |nodes| ==> nodes[j].bundleId != o.id)
    && exists j :: 0 <= j < |nodes| && nodes[j].bundleId > o.id
  }

  /** A snapshot latches exactly when it is of other data, of another epoch, passes the oldest
      unacknowledged submission over, or holds that one unsent, twice or changed. */
  lemma SnapshotLatchesExactly(p: Policy, s: State, snapshot: Snapshot)
    requires s.failure.None?
    ensures Acknowledge(p, s, snapshot).failure.Some? <==>
              || snapshot.provenance != p.provenance || !snapshot.indexComplete || snapshot.indexHash == "" || snapshot.graphEpoch == ""
              || (s.graphEpoch.Some? && s.graphEpoch.value != snapshot.graphEpoch)
              || (s.queue != []
                  && var o := s.queue[0].observation;
                     || Overtaken(snapshot.nodes, o)
                     || ((exists j :: 0 <= j < |snapshot.nodes| && snapshot.nodes[j].bundleId == o.id)
                         && (s.queue[0].first.None? || !Holds(snapshot.nodes, o))))
  {
    hide Holds, Includes, Skipped;
    if s.queue != [] {
      var o := s.queue[0].observation;
      OneMatch(snapshot.nodes, o);
      MatchesMembers(snapshot.nodes, o.id);
      SkippedByIndex(snapshot.nodes, o.id);
      hide Matches;
    }
  }

  lemma SkippedByIndex(nodes: seq<GraphNode>, id: int)
    ensures Skipped(nodes, id) <==> exists j :: 0 <= j < |nodes| && nodes[j].bundleId > id
  {
  }
}
