/**
 What the callbacks of the mapping front end do, told from the histories: which results are accepted
 and handed to the graph, which bundles are archived and released, and what a tick sends
 (`FusionNode` in src/wc_fusion/ros_node.py).
 */
module FrontEndAnswers {
  import opened Common
  import opened FrontEnd
  import FES = FrontEndSafety
  import SF = SourceFusion
  import RA = RawArchive
  import TG = TrackingGate
  import AD = AckedDelivery

  // ----- accepted poses and the graph -----

  function Submitted(s: State): seq<AD.Observation> {
    if s.graph.Some? then s.graph.value.submitted else []
  }

  /** No pose is accepted and nothing is given to the graph. */
  ghost predicate Quiet(s: State, s': State) {
    && s'.gate.acceptances == s.gate.acceptances && Submitted(s') == Submitted(s)
    && (s'.graph.Some? <==> s.graph.Some?) && s.failures <= s'.failures
  }

  lemma QuietTrans(a: State, b: State, d: State)
    requires Quiet(a, b) && Quiet(b, d)
    ensures Quiet(a, d)
  {
  }

  lemma FailQuiet(s: State, reason: string)
    ensures Quiet(s, Fail(s, reason)) && Fail(s, reason).failures == s.failures + 1 && Fail(s, reason).graph == s.graph
  {
    hide SF.Latch;
  }

  lemma SendKeepsSubmitted(p: AD.Policy, g: AD.State, now: int)
    ensures AD.Send(p, g, now).0.submitted == g.submitted
  {
  }

  lemma DeliverQuiet(c: Config, s: State, now: int, sendFault: Option<string>)
    ensures Quiet(s, DeliverGraph(c, s, now, sendFault))
  {
    hide Fail, AD.Send;
    if c.graph.Some? && s.graph.Some? {
      SendKeepsSubmitted(c.graph.value, s.graph.value, now);
      var s1 := s.(graph := Some(AD.Send(c.graph.value, s.graph.value, now).0));
      forall reason ensures Quiet(s, Fail(s1, reason)) {
        FailQuiet(s1, reason);
      }
    }
  }

  /** The delivery of the graph's head neither fails nor is refused, so it ends without `fail()`. */
  lemma DeliverSafely(c: Config, s: State, now: int)
    requires c.graph.Some? && s.graph.Some? && c.Valid() && AD.Invariant(c.graph.value, s.graph.value)
    requires s.graph.value.failure.None? && !AD.SendLate(c.graph.value, s.graph.value, now)
    ensures var s' := DeliverGraph(c, s, now, None);
            s' == s.(graph := s'.graph) && s'.graph.Some? && s'.graph.value.failure.None?
  {
    hide AD.Send, AD.SendLate, AD.SendDue, AD.Invariant, Fail;
    AD.SendsExactly(c.graph.value, s.graph.value, now);
    AD.SendsOrKeeps(c.graph.value, s.graph.value, now);
  }

  lemma DeliverLeaves(c: Config, s: State, now: int, sendFault: Option<string>)
    requires s.graph.Some? && s.graph.value.failure.None?
    ensures var s' := DeliverGraph(c, s, now, sendFault);
            s'.failures == s.failures ==> s' == s.(graph := s'.graph) && s'.graph.Some? && s'.graph.value.failure.None?
  {
    hide AD.Send, SF.Latch, TG.Pause;
  }

  function ObservationOf(c: Config, r: Record, d: Delivery): AD.Observation {
    AD.Observation(r.bundle.id, d.rawKeys, c.odomEpoch, d.envelope)
  }

  /** The graph takes a deliverable observation of a newer bundle while it has room. */
  lemma GraphTakes(p: AD.Policy, g: AD.State, o: AD.Observation)
    requires p.Valid() && AD.Invariant(p, g) && g.failure.None? && |g.queue| < p.capacity && g.lastEnqueued < o.id
    ensures var g' := AD.Submit(p, g, o);
            && AD.Invariant(p, g')
            && if AD.Deliverable(o) then g'.failure.None? && g'.submitted == g.submitted + [o] && g'.acked == g.acked && g'.sent == g.sent
               else g'.failure.Some? && g'.submitted == g.submitted
  {
    AD.DeliverableIsWellFormed(o);
    AD.StepKeeps(p, g, AD.Submitted(o));
    hide AD.Invariant, AD.WellFormed, AD.Deliverable;
  }

  lemma LateIsOfTheOldest(p: AD.Policy, g: AD.State, g': AD.State, o: AD.Observation, now: int)
    requires AD.Invariant(p, g) && g'.submitted == g.submitted + [o] && g'.acked == g.acked && g'.sent == g.sent
    ensures AD.SendLate(p, g', now) <==> AD.SendLate(p, g, now)
  {
    AD.HeadOfHistories(p, g);
    if |g.acked| == |g.submitted| && g.sent != [] {
      LastSendIsAcked(p, g);
    }
  }

  /** With everything acknowledged the last send was of an acknowledged observation. */
  lemma LastSendIsAcked(p: AD.Policy, g: AD.State)
    requires AD.Invariant(p, g) && |g.acked| == |g.submitted| && g.sent != []
    ensures g.sent[|g.sent| - 1].nth < |g.acked|
  {
    AD.HeadOfHistories(p, g);
    assert AD.HeadSent(g.queue) == 0;
    AD.LastSend(p, g.sent, |g.acked|);
  }

  /** The graph owner's queue is configured, has not failed, and takes one more. */
  predicate GraphReady(c: Config, s: State) {
    c.graph.Some? ==> s.graph.Some? && s.graph.value.failure.None?
                      && |s.graph.value.submitted| - |s.graph.value.acked| < c.graph.value.capacity
  }

  /** `r` has left flight, and the graph, where there is one, was given its observation. */
  ghost predicate Landed(c: Config, s: State, r: Record, d: Delivery, s': State) {
    && s'.failures == s.failures && s'.byStamp == s.byStamp - {r.bundle.tRef}
    && (c.graph.Some? ==>
          s'.graph.Some? && s'.graph.value.failure.None? && Submitted(s') == Submitted(s) + [ObservationOf(c, r, d)])
  }

  /** Nothing on the way of an accepted pose to the graph raises. */
  ghost predicate NothingRaises(c: Config, s: State, r: Record, d: Delivery, now: int)
    requires c.graph.Some? ==> s.graph.Some?
  {
    && d.relayFault.None? && d.lateFault.None?
    && (c.graph.Some? ==> AD.Deliverable(ObservationOf(c, r, d)) && d.sendFault.None?
                          && !AD.SendLate(c.graph.value, s.graph.value, now))
  }

  /** Before the hand-over: the graph is ready for the bundle, newer than all it was given. */
  ghost predicate Ready(c: Config, s: State, r: Record) {
    && c.Valid() && (s.graph.Some? <==> c.graph.Some?)
    && (c.graph.Some? ==>
          && AD.Invariant(c.graph.value, s.graph.value) && s.graph.value.failure.None?
          && |s.graph.value.queue| < c.graph.value.capacity && s.graph.value.lastEnqueued < r.bundle.id)
  }

  ghost predicate HandedOver(c: Config, s: State, r: Record, now: int, d: Delivery, s': State)
    requires c.graph.Some? ==> s.graph.Some?
  {
    && s'.gate.acceptances == s.gate.acceptances && (s'.graph.Some? <==> s.graph.Some?) && s.failures <= s'.failures
    && (Submitted(s') == Submitted(s) || (c.graph.Some? && Submitted(s') == Submitted(s) + [ObservationOf(c, r, d)]))
    && (s'.failures == s.failures ==> Landed(c, s, r, d, s'))
    && (NothingRaises(c, s, r, d, now) ==> s'.failures == s.failures)
    && (c.graph.Some? && !AD.Deliverable(ObservationOf(c, r, d)) ==> s.failures < s'.failures)
  }

  lemma HandsOver(c: Config, s: State, r: Record, now: int, d: Delivery)
    requires Ready(c, s, r) && d.relayFault.None? && d.lateFault.None?
    ensures HandedOver(c, s, r, now, d, HandOver(c, s, r, now, d))
  {
    hide AD.Invariant, AD.Submit, AD.Deliverable, AD.SendLate, DeliverGraph, Fail;
    if c.graph.Some? {
      var o := ObservationOf(c, r, d);
      var g := AD.Submit(c.graph.value, s.graph.value, o);
      var s1 := s.(graph := Some(g));
      GraphTakes(c.graph.value, s.graph.value, o);
      if g.failure.Some? {
        FailQuiet(s1, g.failure.value);
      } else {
        LateIsOfTheOldest(c.graph.value, s.graph.value, g, o, now);
        DeliverQuiet(c, s1, now, d.sendFault);
        DeliverLeaves(c, s1, now, d.sendFault);
        if NothingRaises(c, s, r, d, now) {
          DeliverSafely(c, s1, now);
        }
      }
    }
  }

  /** When the gate accepts the result of the bundle in flight. */
  ghost predicate Acceptable(c: Config, s: State, r: Record, odom: Odom, info: Info, now: int) {
    && GraphReady(c, s) && FES.Tracked(c, s.gate.acceptances == [], odom, info)
    && s.gate.paused.None? && r.bundle.id in s.gate.pending
    && s.gate.pending[r.bundle.id].bundle.stamp == r.bundle.tRef
    && 0 <= now - s.gate.pending[r.bundle.id].received <= c.gate.timeoutNs
    && (s.gate.acceptances != [] ==>
          var last := s.gate.acceptances[|s.gate.acceptances| - 1];
          last.odomEpoch == c.odomEpoch && last.stamp < r.bundle.tRef && odom.motionOk)
  }

  /** One more pose counts as accepted: that of `r`, at its own stamp. */
  ghost predicate AcceptsOne(c: Config, s: State, r: Record, s': State) {
    && |s'.gate.acceptances| == |s.gate.acceptances| + 1 && s.gate.acceptances <= s'.gate.acceptances
    && var a := s'.gate.acceptances[|s.gate.acceptances|];
       a.id == r.bundle.id && a.stamp == r.bundle.tRef && a.odomEpoch == c.odomEpoch
  }

  /** What becomes of a complete result: accepted and handed over, or refused with a fault. */
  ghost predicate Answered(c: Config, s: State, r: Record, odom: Odom, info: Info, now: int, d: Delivery, s': State)
    requires c.graph.Some? ==> s.graph.Some?
  {
    if Acceptable(c, s, r, odom, info, now) then
      && AcceptsOne(c, s, r, s') && (s'.graph.Some? <==> s.graph.Some?) && s.failures <= s'.failures
      && (Submitted(s') == Submitted(s) || (c.graph.Some? && Submitted(s') == Submitted(s) + [ObservationOf(c, r, d)]))
      && (s'.failures == s.failures ==> Landed(c, s, r, d, s'))
      && (NothingRaises(c, s, r, d, now) ==> s'.failures == s.failures)
      && (d.relayFault.Some? || d.lateFault.Some? || (c.graph.Some? && !AD.Deliverable(ObservationOf(c, r, d))) ==>
            s.failures < s'.failures)
    else Quiet(s, s') && s'.failures == s.failures + 1
  }

  lemma ChecksGraph(c: Config, s: State)
    requires c.Valid() && (s.graph.Some? <==> c.graph.Some?)
    requires c.graph.Some? ==> AD.Invariant(c.graph.value, s.graph.value)
    ensures var s' := CheckGraph(c, s);
            if GraphReady(c, s) then s' == s && (c.graph.Some? ==> |s.graph.value.queue| < c.graph.value.capacity)
            else s'.graph.Some? && s'.graph.value.failure.Some? && s' == s.(graph := s'.graph)
                 && s'.graph.value.submitted == s.graph.value.submitted
  {
    if c.graph.Some? {
      AD.HeadOfHistories(c.graph.value, s.graph.value);
      hide AD.Invariant;
    }
  }

  lemma GateAnswers(c: Config, s: State, r: Record, odom: Odom, info: Info, now: int)
    requires TG.Invariant(c.gate, s.gate) && GraphReady(c, s)
    requires odom.frameOk && odom.poseOk && (info.correspondences > 0 ==> info.metricsOk)
    ensures var judged := TG.Assess(c.gate, s.gate, Judged(c, s, r, odom, info), now);
            if Acceptable(c, s, r, odom, info, now) then judged.1.None? && AcceptsOne(c, s, r, s.(gate := judged.0))
            else judged.1.Some? && judged.0.acceptances == s.gate.acceptances
  {
    TG.AcceptsExactly(c.gate, s.gate, Judged(c, s, r, odom, info), now);
    var judged := TG.Assess(c.gate, s.gate, Judged(c, s, r, odom, info), now);
    assert s.gate.accepted == |s.gate.acceptances|;
    hide TG.AssessFault, TG.AcceptancesOk;
  }

  lemma AcceptsOneMore(c: Config, s: State, r: Record, s1: State, s': State)
    requires AcceptsOne(c, s, r, s1) && s'.gate.acceptances == s1.gate.acceptances
    ensures AcceptsOne(c, s, r, s')
  {
  }

  /** The gate has no part in the hand-over. */
  lemma SameHandOver(c: Config, s: State, s2: State, r: Record, now: int, d: Delivery, s': State)
    requires s2 == s.(gate := s2.gate) && (c.graph.Some? ==> s.graph.Some?)
    ensures Landed(c, s2, r, d, s') <==> Landed(c, s, r, d, s')
    ensures NothingRaises(c, s2, r, d, now) <==> NothingRaises(c, s, r, d, now)
    ensures d.relayFault.Some? || d.lateFault.Some? ==> !NothingRaises(c, s, r, d, now)
  {
    hide AD.SendLate, AD.Deliverable;
  }

  lemma UnreadyIsRefused(c: Config, s: State, r: Record, odom: Odom, info: Info, now: int)
    ensures !GraphReady(c, s) ==> c.graph.Some? && !Acceptable(c, s, r, odom, info, now)
    ensures GraphReady(c, s) && c.graph.Some? ==> s.graph.Some? && s.graph.value.failure.None?
  {
  }

  lemma AssessesExactly(c: Config, s: State, r: Record, odom: Odom, info: Info, now: int, d: Delivery)
    requires c.Valid() && TG.Invariant(c.gate, s.gate) && (s.graph.Some? <==> c.graph.Some?)
    requires c.graph.Some? ==> AD.Invariant(c.graph.value, s.graph.value) && s.graph.value.lastEnqueued < r.bundle.id
    requires odom.frameOk && odom.poseOk && (info.correspondences > 0 ==> info.metricsOk)
    ensures Answered(c, s, r, odom, info, now, d, AssessResult(c, s, r, odom, info, now, d))
  {
    hide TG.Invariant, AD.Invariant, TG.Assess, AD.EnsureCapacity, HandOver, Fail, Acceptable, AcceptsOne, Landed,
         NothingRaises, Judged, CheckGraph, GraphReady;
    var s1 := CheckGraph(c, s);
    ChecksGraph(c, s);
    UnreadyIsRefused(c, s, r, odom, info, now);
    if GraphReady(c, s) {
      AssessesReady(c, s, r, odom, info, now, d);
    } else {
      FailQuiet(s1, s1.graph.value.failure.value);
    }
  }

  lemma AssessesReady(c: Config, s: State, r: Record, odom: Odom, info: Info, now: int, d: Delivery)
    requires TG.Invariant(c.gate, s.gate) && Ready(c, s, r) && CheckGraph(c, s) == s && GraphReady(c, s)
    requires odom.frameOk && odom.poseOk && (info.correspondences > 0 ==> info.metricsOk)
    ensures Answered(c, s, r, odom, info, now, d, AssessResult(c, s, r, odom, info, now, d))
  {
    hide TG.Invariant, AD.Invariant, TG.Assess, HandOver, Fail, Acceptable, AcceptsOne, Landed, NothingRaises, Judged,
         CheckGraph, GraphReady;
    GateAnswers(c, s, r, odom, info, now);
    var judged := TG.Assess(c.gate, s.gate, Judged(c, s, r, odom, info), now);
    var s2 := s.(gate := judged.0);
    forall reason ensures Quiet(s2, Fail(s2, reason)) && Fail(s2, reason).failures == s.failures + 1 {
      FailQuiet(s2, reason);
    }
    if judged.1.None? {
      var s' := AssessResult(c, s, r, odom, info, now, d);
      SameHandOver(c, s, s2, r, now, d, s');
      if d.relayFault.None? && d.lateFault.None? {
        HandsOver(c, s2, r, now, d);
      }
      AcceptsOneMore(c, s, r, s2, s');
    }
  }

  /**
   In every run, with both halves of its native result there, the bundle in flight is accepted exactly
   when the result is complete and tracked, in time and continues the accepted poses, and the graph
   has room. An accepted pose leaves flight and its observation is the graph's newest submission,
   unless `fail()` is called on the way, which needs a call that raises, an observation that is not
   deliverable, or a graph that did not acknowledge in time; everything else calls `fail()` once.
   */
  lemma CompletesExactly(c: Config, graphEpoch: Option<string>, disk: RA.Disk, events: seq<Event>, key: int, now: int, d: Delivery)
    requires c.Valid()
    ensures var s := Run(c, Start(c, graphEpoch, disk), events);
            && (s.graph.Some? <==> c.graph.Some?)
            && (key in s.odomCache && key in s.infoCache && key in s.byStamp ==>
                  Answered(c, s, s.byStamp[key], s.odomCache[key], s.infoCache[key], now, d, Complete(c, s, key, now, d)))
  {
    FES.AlwaysConsistent(c, graphEpoch, disk, events);
    var s := Run(c, Start(c, graphEpoch, disk), events);
    hide Run, Start, FES.Invariant;
    FES.GraphPresent(c, s);
    if key in s.odomCache && key in s.infoCache && key in s.byStamp {
      CompletesStep(c, s, key, now, d);
    }
  }

  lemma BeforeCompleting(c: Config, s: State, key: int)
    requires FES.Invariant(c, s) && (s.graph.Some? <==> c.graph.Some?) && key in s.byStamp
    ensures c.Valid() && TG.Invariant(c.gate, s.gate)
    ensures c.graph.Some? ==> AD.Invariant(c.graph.value, s.graph.value)
                              && s.graph.value.lastEnqueued < s.byStamp[key].bundle.id
  {
    hide TG.Invariant, AD.Invariant, RA.Invariant, FES.JobsOk, FES.PublishedOk, FES.Waiting, FES.FlyingOk, FES.GraphOk, Load;
    FES.InvariantGate(c, s);
    FES.OnlyOneFlying(c, s, key);
    FES.InvariantBase(c, s);
    if c.graph.Some? {
      FES.InvariantGraph(c, s);
    }
  }

  lemma UntrackedIsRefused(c: Config, s: State, r: Record, odom: Odom, info: Info, now: int)
    requires !odom.frameOk || !odom.poseOk || (info.correspondences > 0 && !info.metricsOk)
    ensures !Acceptable(c, s, r, odom, info, now)
  {
  }

  lemma CompletesStep(c: Config, s: State, key: int, now: int, d: Delivery)
    requires FES.Invariant(c, s) && (s.graph.Some? <==> c.graph.Some?)
    requires key in s.odomCache && key in s.infoCache && key in s.byStamp
    ensures Answered(c, s, s.byStamp[key], s.odomCache[key], s.infoCache[key], now, d, Complete(c, s, key, now, d))
  {
    hide FES.Invariant, TG.Invariant, AD.Invariant, AssessResult, Fail, FES.Tracked, Acceptable, AcceptsOne, Landed,
         NothingRaises;
    BeforeCompleting(c, s, key);
    var odom, info := s.odomCache[key], s.infoCache[key];
    var s1 := s.(odomCache := s.odomCache - {key}, infoCache := s.infoCache - {key});
    if odom.frameOk && odom.poseOk && (info.correspondences > 0 ==> info.metricsOk) {
      AssessesExactly(c, s1, s.byStamp[key], odom, info, now, d);
      AnsweredCarries(c, s1, s, s.byStamp[key], odom, info, now, d, Complete(c, s, key, now, d));
    } else {
      UntrackedIsRefused(c, s, s.byStamp[key], odom, info, now);
      FailQuiet(s1, "ODOM_FRAME_MISMATCH");
      FailQuiet(s1, "INVALID_ODOM_QUATERNION");
      FailQuiet(s1, "INVALID_NATIVE_ICP_DIAGNOSTICS");
    }
  }

  lemma AnsweredCarries(c: Config, s1: State, s: State, r: Record, odom: Odom, info: Info, now: int, d: Delivery, s': State)
    requires c.graph.Some? ==> s.graph.Some?
    requires s1 == s.(odomCache := s1.odomCache, infoCache := s1.infoCache) && Answered(c, s1, r, odom, info, now, d, s')
    ensures Answered(c, s, r, odom, info, now, d, s')
  {
    hide FES.Tracked, AD.SendLate, AD.Deliverable;
  }

  // ----- a stretch without a fault -----

  /** One step accepts nothing and gives nothing, or accepts one pose and gives the graph at most that. */
  ghost predicate StepGives(c: Config, s: State, s': State) {
    || Quiet(s, s')
    || exists r, d :: Gives(c, s, r, d, s')
  }

  ghost predicate Gives(c: Config, s: State, r: Record, d: Delivery, s': State) {
    && AcceptsOne(c, s, r, s') && (s'.graph.Some? <==> s.graph.Some?) && s.failures <= s'.failures
    && (Submitted(s') == Submitted(s) || Submitted(s') == Submitted(s) + [ObservationOf(c, r, d)])
    && (s'.failures == s.failures && c.graph.Some? ==> Submitted(s') == Submitted(s) + [ObservationOf(c, r, d)])
  }

  lemma CompleteGives(c: Config, s: State, key: int, now: int, d: Delivery)
    requires FES.Invariant(c, s)
    ensures StepGives(c, s, Complete(c, s, key, now, d))
  {
    hide FES.Invariant, Acceptable, AcceptsOne, NothingRaises, Submitted, Complete;
    FES.GraphPresent(c, s);
    if key in s.odomCache && key in s.infoCache && key in s.byStamp {
      CompletesStep(c, s, key, now, d);
      AnsweredGives(c, s, s.byStamp[key], s.odomCache[key], s.infoCache[key], now, d, Complete(c, s, key, now, d));
    } else {
      NothingToComplete(c, s, key, now, d);
    }
  }

  lemma NothingToComplete(c: Config, s: State, key: int, now: int, d: Delivery)
    requires key !in s.odomCache || key !in s.infoCache || key !in s.byStamp
    ensures Complete(c, s, key, now, d) == s
  {
  }

  lemma AnsweredGives(c: Config, s: State, r: Record, odom: Odom, info: Info, now: int, d: Delivery, s': State)
    requires c.graph.Some? ==> s.graph.Some?
    requires Answered(c, s, r, odom, info, now, d, s')
    ensures StepGives(c, s, s')
  {
    hide AcceptsOne, NothingRaises, Submitted;
    if Acceptable(c, s, r, odom, info, now) {
      assert Gives(c, s, r, d, s');
    }
  }

  lemma SourceQuiet(c: Config, s: State, m: SourceMsg, now: int)
    ensures Quiet(s, Source(c, s, m, now))
  {
    hide Fail, SF.Push, EntryFault, Observed, RA.DoSubmit;
    var seen := s.(watch := Observed(c, s.watch, m, now));
    var s1 := seen.(fusion := SF.Push(c.fusion, seen.fusion, m.frame, m.fuseFault, now).0);
    forall reason ensures Quiet(s, Fail(s, reason)) && Quiet(s, Fail(seen, reason)) && Quiet(s, Fail(s1, reason)) {
      FailQuiet(s, reason);
      FailQuiet(seen, reason);
      FailQuiet(s1, reason);
    }
  }

  lemma PollOneQuiet(s: State, r: RA.ArchiveResult)
    ensures Quiet(s, PollOne(s, r))
  {
    hide Fail;
    var s1 := s.(archivePending := s.archivePending - {r.key});
    if r.error.Some? {
      FailQuiet(s1, "RAW_ARCHIVE_FAILED:" + r.error.value);
    }
  }

  lemma {:induction false} PollQuiet(s: State, results: seq<RA.ArchiveResult>)
    ensures Quiet(s, PollAll(s, results))
  {
    hide PollOne;
    if results != [] {
      PollQuiet(s, results[..|results| - 1]);
      PollOneQuiet(PollAll(s, results[..|results| - 1]), results[|results| - 1]);
    }
  }

  lemma ReleaseQuiet(c: Config, s: State, now: int, outcome: Outcome)
    requires s.icpReady != []
    ensures Quiet(s, Release(c, s, now, outcome))
  {
    hide Fail, TG.SubmitFault;
    var r := s.icpReady[0];
    var taken := TG.Submit(c.gate, s.gate, GateBundle(r.bundle), now);
    var s1 := s.(icpReady := s.icpReady[1..], gate := taken.0);
    var s2 := s1.(byStamp := s1.byStamp[r.bundle.tRef := r]);
    var s3 := s2.(published := s2.published + [Publication(r, now, s2.mark)]);
    forall reason ensures Quiet(s, Fail(s1, reason)) && Quiet(s, Fail(s2, reason)) && Quiet(s, Fail(s3, reason)) {
      FailQuiet(s1, reason);
      FailQuiet(s2, reason);
      FailQuiet(s3, reason);
    }
  }

  lemma PublishQuiet(c: Config, s: State, now: int, outcome: Outcome)
    ensures Quiet(s, PublishArchived(c, s, now, outcome))
  {
    hide Fail, PollAll, Release, Aged;
    PollQuiet(s.(archive := RA.DoPoll(s.archive)), s.archive.results);
    var s1 := Collect(s);
    FailQuiet(s1, "RAW_ARCHIVE_AGE_EXCEEDED");
    if s1.icpReady != [] {
      ReleaseQuiet(c, s1, now, outcome);
    }
  }

  lemma FreshenQuiet(c: Config, s: State, now: int)
    ensures Quiet(s, Freshen(c, s, now))
  {
    hide Fail, SF.CheckFreshness, TG.Late;
    var s1 := s.(fusion := SF.CheckFreshness(c.fusion, s.fusion, now), gate := TG.Expire(c.gate, s.gate, now));
    forall reason ensures Quiet(s, Fail(s1, reason)) {
      FailQuiet(s1, reason);
    }
  }

  lemma WatchdogQuiet(c: Config, s: State, now: int, joinFault: Option<string>, outcome: Outcome, later: int, sendFault: Option<string>)
    ensures Quiet(s, Watchdog(c, s, now, joinFault, outcome, later, sendFault))
  {
    hide Fail, Freshen, PublishArchived, DeliverGraph, Quiet;
    var s1 := if !s.paused && s.fusion.latched.None? && joinFault.Some? then Fail(s, joinFault.value) else s;
    QuietSelf(s);
    if joinFault.Some? {
      FailQuiet(s, joinFault.value);
    }
    FreshenQuiet(c, s1, now);
    QuietSelf(s1);
    var s2 := if s1.paused then s1 else Freshen(c, s1, now);
    PublishQuiet(c, s2, now, outcome);
    DeliverQuiet(c, PublishArchived(c, s2, now, outcome), later, sendFault);
    QuietTrans(s, s1, s2);
    QuietTrans(s, s2, PublishArchived(c, s2, now, outcome));
    QuietTrans(s, PublishArchived(c, s2, now, outcome), Watchdog(c, s, now, joinFault, outcome, later, sendFault));
  }

  lemma QuietSelf(s: State)
    ensures Quiet(s, s)
  {
  }

  lemma AckQuiet(c: Config, s: State, snapshot: AD.Snapshot)
    ensures Quiet(s, GraphAck(c, s, snapshot))
  {
    hide Fail, AD.Matches, AD.Skipped, AD.Includes, AD.Trusted;
    if c.graph.Some? && s.graph.Some? {
      var s1 := s.(graph := Some(AD.Acknowledge(c.graph.value, s.graph.value, snapshot)));
      forall reason ensures Quiet(s, Fail(s1, reason)) {
        FailQuiet(s1, reason);
      }
    }
  }

  lemma ResumeQuiet(c: Config, s: State, q: Request, now: int)
    ensures Quiet(s, Resume(c, s, q, now)) && Resume(c, s, q, now).failures == s.failures
  {
    hide Granted, SourcesValidated;
  }

  lemma CachedGives(c: Config, s: State, s1: State, key: int, now: int, d: Delivery)
    requires FES.Invariant(c, s) && s1 == s.(odomCache := s1.odomCache, infoCache := s1.infoCache)
    ensures StepGives(c, s, Complete(c, s1, key, now, d))
  {
    hide FES.Invariant, Complete, StepGives;
    FES.CachesMove(c, s, s1);
    CompleteGives(c, s1, key, now, d);
    GivesCarries(c, s1, s, Complete(c, s1, key, now, d));
  }

  lemma EveryStepGives(c: Config, s: State, e: Event)
    requires FES.Invariant(c, s)
    ensures StepGives(c, s, Step(c, s, e))
  {
    hide FES.Invariant, Source, Complete, Watchdog, GraphAck, Resume, Fail, RA.DoWork, Gives;
    match e {
      case SourceFrame(m, now) => SourceQuiet(c, s, m, now);
      case OdomArrived(key, publisherFault, odom, now, d) =>
        if publisherFault.Some? {
          FailQuiet(s, publisherFault.value);
        }
        CachedGives(c, s, s.(odomCache := s.odomCache[key := odom]), key, now, d);
      case InfoArrived(key, info, now, d) => CachedGives(c, s, s.(infoCache := s.infoCache[key := info]), key, now, d);
      case Tick(now, joinFault, outcome, later, sendFault) => WatchdogQuiet(c, s, now, joinFault, outcome, later, sendFault);
      case Acked(snapshot) => AckQuiet(c, s, snapshot);
      case PauseCalled => FailQuiet(s.(paused := true), "EXPLICIT_PAUSE");
      case ResumeCalled(q, now) => ResumeQuiet(c, s, q, now);
      case OtherFault(reason) => FailQuiet(s, reason);
      case ArchiveWork(answer) =>
      case FileAppears(path, file) =>
      case Shutdown =>
    }
  }

  lemma GivesCarries(c: Config, s1: State, s: State, s': State)
    requires s1 == s.(odomCache := s1.odomCache, infoCache := s1.infoCache) && StepGives(c, s1, s')
    ensures StepGives(c, s, s')
  {
    if !Quiet(s1, s') {
      var r, d :| Gives(c, s1, r, d, s');
      assert Gives(c, s, r, d, s');
    }
  }

  /** The observations are those of the accepted poses, in order. */
  ghost predicate OfPoses(observations: seq<AD.Observation>, poses: seq<TG.Acceptance>) {
    && |observations| == |poses|
    && forall i :: 0 <= i < |poses| ==> observations[i].id == poses[i].id && observations[i].odomEpoch == poses[i].odomEpoch
  }

  /** Each observation is of one of the accepted poses. */
  ghost predicate AmongPoses(observations: seq<AD.Observation>, poses: seq<TG.Acceptance>) {
    forall o :: o in observations ==> WasAccepted(poses, o.id)
  }

  predicate WasAccepted(poses: seq<TG.Acceptance>, id: int) {
    exists j :: 0 <= j < |poses| && poses[j].id == id
  }

  /** What one stretch of a run adds: with no fault in it, exactly the accepted poses are submitted. */
  ghost predicate Delivers(c: Config, s: State, s': State) {
    && s.gate.acceptances <= s'.gate.acceptances && Submitted(s) <= Submitted(s') && s.failures <= s'.failures
    && var poses, observations := s'.gate.acceptances[|s.gate.acceptances|..], Submitted(s')[|Submitted(s)|..];
       AmongPoses(observations, poses) && (c.graph.Some? && s'.failures == s.failures ==> OfPoses(observations, poses))
  }

  lemma StillAccepted(poses: seq<TG.Acceptance>, pose: TG.Acceptance, id: int)
    requires WasAccepted(poses, id) || id == pose.id
    ensures WasAccepted(poses + [pose], id)
  {
    var all := poses + [pose];
    assert all[|poses|] == pose;
    if j :| 0 <= j < |poses| && poses[j].id == id {
      assert all[j].id == id;
    }
  }

  lemma PosesMore(observations: seq<AD.Observation>, poses: seq<TG.Acceptance>, o: AD.Observation, pose: TG.Acceptance)
    requires AmongPoses(observations, poses) && o.id == pose.id && o.odomEpoch == pose.odomEpoch
    ensures AmongPoses(observations, poses + [pose]) && AmongPoses(observations + [o], poses + [pose])
    ensures OfPoses(observations, poses) ==> OfPoses(observations + [o], poses + [pose])
  {
    forall id | WasAccepted(poses, id) || id == o.id ensures WasAccepted(poses + [pose], id) {
      StillAccepted(poses, pose, id);
    }
    hide WasAccepted;
  }

  lemma DeliversOne(c: Config, a: State, s: State, r: Record, d: Delivery, s': State)
    requires Delivers(c, a, s) && Gives(c, s, r, d, s')
    ensures Delivers(c, a, s')
  {
    hide Submitted, AmongPoses, OfPoses;
    var n, k := |a.gate.acceptances|, |Submitted(a)|;
    var pose, o := s'.gate.acceptances[|s.gate.acceptances|], ObservationOf(c, r, d);
    assert s'.gate.acceptances == s.gate.acceptances + [pose];
    PosesMore(Submitted(s)[k..], s.gate.acceptances[n..], o, pose);
    assert s'.gate.acceptances[n..] == s.gate.acceptances[n..] + [pose];
    assert (Submitted(s) + [o])[k..] == Submitted(s)[k..] + [o];
  }

  lemma DeliversMore(c: Config, a: State, s: State, s': State)
    requires Delivers(c, a, s) && StepGives(c, s, s')
    ensures Delivers(c, a, s')
  {
    hide Submitted, AmongPoses, OfPoses, Gives;
    if !Quiet(s, s') {
      var r, d :| Gives(c, s, r, d, s');
      DeliversOne(c, a, s, r, d, s');
    }
  }

  /**
   From any state of any run on, over any events: what the graph is given are accepted poses, and as
   long as no `fail()` is called it is given exactly the accepted poses, in the order of acceptance.
   */
  lemma {:induction false} AcceptedAreDelivered(c: Config, s: State, events: seq<Event>)
    requires FES.Invariant(c, s)
    ensures Delivers(c, s, Run(c, s, events)) && FES.Invariant(c, Run(c, s, events))
  {
    hide FES.Invariant, Step, Submitted, StepGives;
    if events == [] {
    } else {
      var before, e := Run(c, s, events[..|events| - 1]), events[|events| - 1];
      AcceptedAreDelivered(c, s, events[..|events| - 1]);
      FES.StepKeeps(c, before, e);
      EveryStepGives(c, before, e);
      DeliversMore(c, s, before, Run(c, s, events));
    }
  }

  /** A snapshot reaches the delivery: its head is acknowledged exactly when it was sent and the trusted
      snapshot of the known epoch holds it, and `fail()` is called exactly when the delivery latches. */
  lemma AcksExactly(c: Config, s: State, snapshot: AD.Snapshot)
    requires c.graph.Some? && s.graph.Some? && s.graph.value.failure.None?
    ensures var g, s' := s.graph.value, GraphAck(c, s, snapshot);
            && s'.graph.Some? && Submitted(s') == Submitted(s)
            && (|s'.graph.value.acked| > |g.acked| <==>
                  && AD.Trusted(c.graph.value, snapshot) && (g.graphEpoch.Some? ==> snapshot.graphEpoch == g.graphEpoch.value)
                  && g.queue != [] && g.queue[0].first.Some? && AD.Holds(snapshot.nodes, g.queue[0].observation))
            && s'.failures == s.failures + (if s'.graph.value.failure.Some? then 1 else 0)
  {
    hide Fail, AD.Matches, AD.Skipped, AD.Includes, AD.Trusted, AD.Holds;
    AD.AcknowledgesExactly(c.graph.value, s.graph.value, snapshot);
    var s1 := s.(graph := Some(AD.Acknowledge(c.graph.value, s.graph.value, snapshot)));
    forall reason ensures Fail(s1, reason).graph == s1.graph && Fail(s1, reason).failures == s.failures + 1 {
      FailQuiet(s1, reason);
    }
  }

  /** Half of a result: of no bundle in flight it is ignored; else it is kept until the other half is there. */
  lemma HalvesMeet(c: Config, s: State, key: int, odom: Odom, info: Info, now: int, d: Delivery)
    ensures key !in s.byStamp ==> Step(c, s, OdomArrived(key, None, odom, now, d)) == s && Step(c, s, InfoArrived(key, info, now, d)) == s
    ensures key in s.byStamp && key !in s.infoCache ==>
              Step(c, s, OdomArrived(key, None, odom, now, d)) == s.(odomCache := s.odomCache[key := odom])
    ensures key in s.byStamp && key !in s.odomCache ==>
              Step(c, s, InfoArrived(key, info, now, d)) == s.(infoCache := s.infoCache[key := info])
    ensures key in s.byStamp && key in s.infoCache ==>
              Step(c, s, OdomArrived(key, None, odom, now, d)) == Complete(c, s.(odomCache := s.odomCache[key := odom]), key, now, d)
    ensures key in s.byStamp && key in s.odomCache ==>
              Step(c, s, InfoArrived(key, info, now, d)) == Complete(c, s.(infoCache := s.infoCache[key := info]), key, now, d)
    ensures forall fault :: key in s.byStamp ==> Step(c, s, OdomArrived(key, Some(fault), odom, now, d)).failures == s.failures + 1
  {
    hide AssessResult, Fail;
    forall fault ensures Fail(s, fault).failures == s.failures + 1 {
      FailQuiet(s, fault);
    }
  }

  /** The node takes frames. */
  predicate Running(s: State) {
    !s.paused && s.fusion.latched.None?
  }

  /**
   A source message calls `fail()` exactly when its side or clock model is wrong, or the node runs and
   the message cannot be decoded, the fusion raises, or the bundle it completes is not taken.
   */
  lemma SourceFailsExactly(c: Config, s: State, m: SourceMsg, now: int)
    ensures var s', pushed := Source(c, s, m, now), SF.Push(c.fusion, s.fusion, m.frame, m.fuseFault, now);
            s'.failures > s.failures <==>
              || !m.sideOk || m.clockFault.Some?
              || (Running(s)
                  && (|| m.decodeFault.Some? || pushed.1.Raised?
                      || (pushed.1.Fused? && EntryFault(c, s.(fusion := pushed.0), pushed.1.bundle, m).Some?)))
  {
    hide Fail, SF.Push, Observed, RA.DoSubmit, EntryFault;
    var seen := s.(watch := Observed(c, s.watch, m, now));
    var s1 := seen.(fusion := SF.Push(c.fusion, s.fusion, m.frame, m.fuseFault, now).0);
    forall reason ensures Fail(s, reason).failures == Fail(seen, reason).failures == Fail(s1, reason).failures == s.failures + 1 {
      FailQuiet(s, reason);
      FailQuiet(seen, reason);
      FailQuiet(s1, reason);
    }
    if SF.Push(c.fusion, s.fusion, m.frame, m.fuseFault, now).1.Fused? {
      SameEntry(c, s1, s.(fusion := s1.fusion), SF.Push(c.fusion, s.fusion, m.frame, m.fuseFault, now).1.bundle, m);
    }
  }

  lemma SameEntry(c: Config, a: State, b: State, bundle: SF.Bundle, m: SourceMsg)
    requires a == b.(watch := a.watch)
    ensures EntryFault(c, a, bundle, m) == EntryFault(c, b, bundle, m)
  {
    hide RA.SubmitError, InRosRange;
  }
}
