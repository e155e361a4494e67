/**
 The one way past `fail()`: when a timer tick finds both deadlines missed at once, the fusion and
 the gate latch without `fail()`, and a bundle that was ready stays ready through a resume, exactly
 when another one was in flight and the ready ones were still in time.
 */
module FrontEndLatch {
  import opened Common
  import opened FrontEnd
  import SF = SourceFusion
  import RA = RawArchive
  import TG = TrackingGate
  import AD = AckedDelivery
  import FrontEndSafety

  /** Has the gate's deadline passed? */
  predicate GateOverdue(c: Config, s: State, now: int) {
    TG.Late(c.gate, s.gate, now) || (s.gate.lastResult.Some? && now - s.gate.lastResult.value > c.gate.timeoutNs)
  }

  /** Running, and both deadlines are missed at `now`. */
  predicate BothOverdue(c: Config, s: State, now: int) {
    !s.paused && s.fusion.latched.None? && s.gate.paused.None? && SF.Overdue(c.fusion, s.fusion, now).Some? && GateOverdue(c, s, now)
  }

  /** A tick calls `fail()` for its deadlines exactly when one of them is missed alone. */
  lemma FailsForOneDeadline(c: Config, s: State, now: int)
    requires !s.paused && s.fusion.latched.None? && s.gate.paused.None?
    ensures Freshen(c, s, now).failures > s.failures <==>
              (SF.Overdue(c.fusion, s.fusion, now).Some? <==> !GateOverdue(c, s, now))
    ensures BothOverdue(c, s, now) ==>
              var s' := Freshen(c, s, now);
              s'.fusion.latched.Some? && s'.gate.paused.Some?
              && s'.archivePending == s.archivePending && s'.icpReady == s.icpReady && s'.byStamp == s.byStamp
  {
    hide SF.Overdue, TG.Late, Fail;
    var s1 := s.(fusion := SF.CheckFreshness(c.fusion, s.fusion, now), gate := TG.Expire(c.gate, s.gate, now));
    forall reason ensures Fail(s1, reason).failures == s.failures + 1 {
      FailCounts(s1, reason);
    }
  }

  lemma FailCounts(s: State, reason: string)
    ensures Fail(s, reason).failures == s.failures + 1
  {
    hide SF.Latch, TG.Pause;
  }

  lemma LatchOnly(c: Config, s: State, now: int)
    requires BothOverdue(c, s, now)
    ensures var s' := Freshen(c, s, now);
            && s' == s.(fusion := s'.fusion, gate := s'.gate) && s'.gate.odomEpoch == s.gate.odomEpoch
            && s'.fusion.latched.Some? && s'.gate.paused.Some?
  {
    hide SF.Overdue, TG.Late;
  }

  // ----- which ticks leave a bundle ready -----

  /** The delivery at the end of the tick does not fail. */
  predicate SendsWell(c: Config, s: State, now: int, sendFault: Option<string>) {
    c.graph.None? || s.graph.None? || s.graph.value.failure.Some?
    || (var sending := AD.Send(c.graph.value, s.graph.value, now);
        sending.0.failure.None? && (sending.1.Publish? ==> sendFault.None?))
  }

  /** One is in flight, others are ready and in time, no archive job failed, the graph is served. */
  predicate LeavesReady(c: Config, s: State, now: int, later: int, sendFault: Option<string>) {
    && s.byStamp != map[] && s.icpReady != [] && !AnyAged(c, s.icpReady, now)
    && (forall r :: r in s.archive.results ==> r.error.None?)
    && SendsWell(c, s, later, sendFault)
  }

  /** What a closed node may become while it polls and publishes. */
  ghost predicate Dropped(s: State, s': State) {
    && (s'.fusion.latched.Some? || s'.archivePending == map[]) && s'.icpReady == []
    && s'.published == s.published && s'.fusion.bundleCounter == s.fusion.bundleCounter
  }

  ghost predicate OnlyPolled(s: State, s': State) {
    s' == s.(archive := s'.archive, archivePending := s'.archivePending)
  }

  lemma FailDrops(s: State, s': State, reason: string)
    requires s'.published == s.published && s'.fusion.bundleCounter == s.fusion.bundleCounter
    ensures Dropped(s, Fail(s', reason)) && Fail(s', reason).archivePending == map[]
  {
    hide TG.Pause;
  }

  lemma PollOneLatched(s: State, r: RA.ArchiveResult)
    requires s.fusion.latched.Some? || s.archivePending == map[]
    ensures var s' := PollOne(s, r);
            && s'.archive == s.archive
            && if r.error.Some? then Dropped(s, s')
               else OnlyPolled(s, s') && (s.archivePending == map[] ==> s'.archivePending == map[])
  {
    hide Fail;
    var taken := s.(archivePending := s.archivePending - {r.key});
    assert s.archivePending == map[] ==> taken.archivePending == map[];
    if r.error.Some? {
      FailDrops(s, taken, "RAW_ARCHIVE_FAILED:" + r.error.value);
      FailKeepsArchive(taken, "RAW_ARCHIVE_FAILED:" + r.error.value);
    }
  }

  lemma FailKeepsArchive(s: State, reason: string)
    ensures Fail(s, reason).archive == s.archive
  {
    hide SF.Latch, TG.Pause;
  }

  /** Polling while latched takes records off and adds none; an error drops everything. */
  lemma {:induction false} PollLatched(s: State, results: seq<RA.ArchiveResult>)
    requires s.fusion.latched.Some?
    ensures var s' := PollAll(s, results);
            && s'.archive == s.archive
            && if forall r :: r in results ==> r.error.None? then OnlyPolled(s, s') else Dropped(s, s')
  {
    hide PollOne;
    if results != [] {
      var init, last := results[..|results| - 1], results[|results| - 1];
      PollLatched(s, init);
      assert results == init + [last];
      PollOneLatched(PollAll(s, init), last);
    }
  }

  lemma CollectLatched(s: State)
    requires s.fusion.latched.Some?
    ensures if forall r :: r in s.archive.results ==> r.error.None? then OnlyPolled(s, Collect(s)) else Dropped(s, Collect(s))
    ensures Collect(s).archive.results == []
  {
    hide PollAll;
    PollLatched(s.(archive := RA.DoPoll(s.archive)), s.archive.results);
  }

  /** A latched node publishes nothing; unless one is in flight and the ready ones are in time,
      none stays ready. */
  lemma PublishLatched(c: Config, s: State, now: int, outcome: Outcome)
    requires s.fusion.latched.Some? && s.gate.paused.Some?
    ensures var s' := PublishArchived(c, s, now, outcome);
            if s.byStamp != map[] && s.icpReady != [] && !AnyAged(c, s.icpReady, now)
               && forall r :: r in s.archive.results ==> r.error.None?
            then OnlyPolled(s, s') && s'.archive.results == [] else Dropped(s, s')
  {
    hide Collect, Fail, AnyAged;
    CollectLatched(s);
    var s1 := Collect(s);
    if OnlyPolled(s, s1) {
      FailDrops(s, s1, "RAW_ARCHIVE_AGE_EXCEEDED");
      if s1.icpReady != [] {
        var r := s1.icpReady[0];
        assert TG.Submit(c.gate, s1.gate, GateBundle(r.bundle), now) == (s1.gate, Some("GATE_PAUSED:" + s1.gate.paused.value));
        FailDrops(s, s1.(icpReady := s1.icpReady[1..]), "GATE_PAUSED:" + s1.gate.paused.value);
      }
    } else {
      FailDrops(s, s1, "RAW_ARCHIVE_AGE_EXCEEDED");
      assert !AnyAged(c, [], now) by { NoneAged(c, now); }
    }
  }

  lemma NoneAged(c: Config, now: int)
    ensures !AnyAged(c, [], now)
  {
  }

  lemma Delivers(c: Config, s: State, now: int, sendFault: Option<string>)
    ensures var s' := DeliverGraph(c, s, now, sendFault);
            if SendsWell(c, s, now, sendFault) then s' == s.(graph := s'.graph)
            else s'.icpReady == [] && s'.archivePending == map[] && s'.published == s.published
                 && s'.fusion.bundleCounter == s.fusion.bundleCounter
  {
    hide Fail, AD.Send;
    if c.graph.Some? && s.graph.Some? {
      var s1 := s.(graph := Some(AD.Send(c.graph.value, s.graph.value, now).0));
      forall reason ensures Dropped(s, Fail(s1, reason)) && Fail(s1, reason).archivePending == map[] {
        FailDrops(s, s1, reason);
      }
      forall reason ensures Fail(s1, reason).icpReady == [] && Fail(s1, reason).archivePending == map[] {
        FailDrops(s, s1, reason);
      }
    }
  }

  lemma TickParts(c: Config, s: State, now: int, outcome: Outcome, later: int, sendFault: Option<string>)
    requires BothOverdue(c, s, now)
    ensures Step(c, s, Tick(now, None, outcome, later, sendFault)) ==
            DeliverGraph(c, PublishArchived(c, Freshen(c, s, now), now, outcome), later, sendFault)
  {
    hide Freshen, PublishArchived, DeliverGraph, SF.Overdue, GateOverdue;
  }

  /**
   A tick that misses both deadlines publishes nothing, and leaves a bundle ready exactly when one
   is in flight, others are ready and in time, and neither an archive error nor the delivery to the
   graph makes it call `fail()`.
   */
  lemma TickLeavesReady(c: Config, s: State, now: int, outcome: Outcome, later: int, sendFault: Option<string>)
    requires BothOverdue(c, s, now)
    ensures var s' := Step(c, s, Tick(now, None, outcome, later, sendFault));
            && s'.published == s.published && s'.fusion.bundleCounter == s.fusion.bundleCounter
            && (s'.icpReady != [] <==> LeavesReady(c, s, now, later, sendFault))
            && (s'.icpReady != [] ==> s'.icpReady == s.icpReady && s'.fusion.latched.Some? && s'.failures == s.failures)
            && (s'.icpReady == [] ==> s'.fusion.latched.Some? || s'.archivePending == map[])
  {
    TickParts(c, s, now, outcome, later, sendFault);
    LatchOnly(c, s, now);
    hide Step, Freshen, PublishArchived, DeliverGraph, AnyAged, BothOverdue, SendsWell;
    var latched := Freshen(c, s, now);
    PublishLatched(c, latched, now, outcome);
    var s1 := PublishArchived(c, latched, now, outcome);
    Delivers(c, s1, later, sendFault);
    if OnlyPolled(latched, s1) {
      SendsSame(c, s, s1, later, sendFault);
    }
  }

  lemma SendsSame(c: Config, s: State, s': State, now: int, sendFault: Option<string>)
    requires s'.graph == s.graph
    ensures SendsWell(c, s', now, sendFault) == SendsWell(c, s, now, sendFault)
  {
    hide AD.Send;
  }

  // ----- without one, nothing old is published any more -----

  /** Nothing up to bundle `mark` can be published any more. */
  ghost predicate Past(s: State, mark: nat) {
    && mark <= s.fusion.bundleCounter
    && (forall r :: r in s.icpReady ==> r.bundle.id > mark)
    && (s.fusion.latched.Some? || forall k :: k in s.archivePending ==> s.archivePending[k].bundle.id > mark)
  }

  /** What was published in between is of newer bundles. */
  ghost predicate NewerOnly(s: State, s': State, mark: nat) {
    s.published <= s'.published && forall i :: |s.published| <= i < |s'.published| ==> s'.published[i].record.bundle.id > mark
  }

  ghost predicate Onward(s: State, s': State, mark: nat) {
    Past(s', mark) && NewerOnly(s, s', mark)
  }

  lemma OnwardTrans(a: State, b: State, d: State, mark: nat)
    requires NewerOnly(a, b, mark) && Onward(b, d, mark)
    ensures Onward(a, d, mark)
  {
    assert forall i :: |a.published| <= i < |b.published| ==> d.published[i] == b.published[i];
  }

  lemma FailOnward(s: State, s': State, reason: string, mark: nat)
    requires NewerOnly(s, s', mark) && mark <= s'.fusion.bundleCounter
    ensures Onward(s, Fail(s', reason), mark)
  {
    hide TG.Pause;
  }

  lemma SameOnward(s: State, s': State, mark: nat)
    requires Past(s, mark) && s'.published == s.published && s.fusion.bundleCounter <= s'.fusion.bundleCounter
    requires forall r :: r in s'.icpReady ==> r in s.icpReady
    requires s'.archivePending == map[] || (s'.archivePending == s.archivePending && (s.fusion.latched.Some? ==> s'.fusion.latched.Some?))
    ensures Onward(s, s', mark)
  {
  }

  lemma UnchangedOnward(s: State, s': State, mark: nat)
    requires Past(s, mark)
    requires s'.published == s.published && s'.fusion == s.fusion && s'.icpReady == s.icpReady && s'.archivePending == s.archivePending
    ensures Onward(s, s', mark) && Past(s', mark) && NewerOnly(s, s', mark)
  {
  }

  lemma TakeFrameOnward(c: Config, s: State, m: SourceMsg, now: int, mark: nat)
    requires Past(s, mark)
    ensures Onward(s, TakeFrame(c, s, m, now), mark)
  {
    hide SF.Push, EntryFault, Fail, RA.DoSubmit, KeyOf, PathOf;
    FrontEndSafety.PushCounter(c.fusion, s.fusion, m.frame, m.fuseFault, now);
    var r := SF.Push(c.fusion, s.fusion, m.frame, m.fuseFault, now);
    var s1 := s.(fusion := r.0);
    forall reason ensures Onward(s, Fail(s, reason), mark) && Onward(s, Fail(s1, reason), mark) {
      FailOnward(s, s, reason, mark);
      FailOnward(s, s1, reason, mark);
    }
  }

  lemma SourceOnward(c: Config, s: State, m: SourceMsg, now: int, mark: nat)
    requires Past(s, mark)
    ensures Onward(s, Source(c, s, m, now), mark)
  {
    hide TakeFrame, Fail, Observed, Onward;
    forall reason ensures Onward(s, Fail(s, reason), mark) {
      FailOnward(s, s, reason, mark);
    }
    var seen := s.(watch := Observed(c, s.watch, m, now));
    assert Past(seen, mark);
    TakeFrameOnward(c, seen, m, now, mark);
    OnwardTrans(s, seen, TakeFrame(c, seen, m, now), mark);
  }

  lemma PollOneOnward(s: State, r: RA.ArchiveResult, mark: nat)
    requires Past(s, mark)
    ensures Onward(s, PollOne(s, r), mark)
  {
    hide Fail;
    if r.error.Some? {
      FailOnward(s, s.(archivePending := s.archivePending - {r.key}), "RAW_ARCHIVE_FAILED:" + r.error.value, mark);
    }
  }

  lemma {:induction false} PollOnward(s: State, results: seq<RA.ArchiveResult>, mark: nat)
    requires Past(s, mark)
    ensures Onward(s, PollAll(s, results), mark)
  {
    hide PollOne;
    if results != [] {
      var init, last := results[..|results| - 1], results[|results| - 1];
      PollOnward(s, init, mark);
      PollOneOnward(PollAll(s, init), last, mark);
      OnwardTrans(s, PollAll(s, init), PollAll(s, results), mark);
    }
  }

  lemma ReleaseOnward(c: Config, s: State, now: int, outcome: Outcome, mark: nat)
    requires Past(s, mark) && s.icpReady != []
    ensures Onward(s, Release(c, s, now, outcome), mark)
  {
    hide Fail, TG.Submit;
    var r := s.icpReady[0];
    assert r in s.icpReady && forall x :: x in s.icpReady[1..] ==> x in s.icpReady;
    var taken := TG.Submit(c.gate, s.gate, GateBundle(r.bundle), now);
    var s1 := s.(icpReady := s.icpReady[1..], gate := taken.0);
    var s2 := s1.(byStamp := s1.byStamp[r.bundle.tRef := r]);
    var s3 := s2.(published := s2.published + [Publication(r, now, s2.mark)]);
    forall reason ensures Onward(s, Fail(s1, reason), mark) && Onward(s, Fail(s2, reason), mark) && Onward(s, Fail(s3, reason), mark) {
      FailOnward(s, s1, reason, mark);
      FailOnward(s, s2, reason, mark);
      FailOnward(s, s3, reason, mark);
    }
  }

  lemma PublishOnward(c: Config, s: State, now: int, outcome: Outcome, mark: nat)
    requires Past(s, mark)
    ensures Onward(s, PublishArchived(c, s, now, outcome), mark)
  {
    hide Fail, Release, RA.DoPoll, PollAll;
    var polled := s.(archive := RA.DoPoll(s.archive));
    assert Past(polled, mark) && NewerOnly(s, polled, mark);
    PollOnward(polled, s.archive.results, mark);
    var s1 := Collect(s);
    OnwardTrans(s, polled, s1, mark);
    FailOnward(s, s1, "RAW_ARCHIVE_AGE_EXCEEDED", mark);
    if s1.icpReady != [] {
      ReleaseOnward(c, s1, now, outcome, mark);
      OnwardTrans(s, s1, Release(c, s1, now, outcome), mark);
    }
  }

  lemma DeliverOnward(c: Config, s: State, now: int, sendFault: Option<string>, mark: nat)
    requires Past(s, mark)
    ensures Onward(s, DeliverGraph(c, s, now, sendFault), mark)
  {
    hide Fail, AD.Send;
    if c.graph.Some? && s.graph.Some? {
      var s1 := s.(graph := Some(AD.Send(c.graph.value, s.graph.value, now).0));
      forall reason ensures Onward(s, Fail(s1, reason), mark) {
        FailOnward(s, s1, reason, mark);
      }
    }
  }

  lemma HandOverOnward(c: Config, s: State, r: Record, now: int, d: Delivery, mark: nat)
    requires Past(s, mark)
    ensures Onward(s, HandOver(c, s, r, now, d), mark)
  {
    hide Fail, AD.Submit, DeliverGraph;
    if c.graph.Some? && s.graph.Some? {
      var g := AD.Submit(c.graph.value, s.graph.value, AD.Observation(r.bundle.id, d.rawKeys, c.odomEpoch, d.envelope));
      var s1 := s.(graph := Some(g));
      if g.failure.Some? {
        FailOnward(s, s1, g.failure.value, mark);
      } else {
        DeliverOnward(c, s1, now, d.sendFault, mark);
      }
    }
  }

  lemma AssessOnward(c: Config, s: State, r: Record, odom: Odom, info: Info, now: int, d: Delivery, mark: nat)
    requires Past(s, mark)
    ensures Onward(s, AssessResult(c, s, r, odom, info, now, d), mark)
  {
    hide Fail, HandOver, TG.Assess, Judged, AD.EnsureCapacity;
    var s1 := CheckGraph(c, s);
    var s2 := s1.(gate := TG.Assess(c.gate, s1.gate, Judged(c, s1, r, odom, info), now).0);
    forall reason ensures Onward(s, Fail(s1, reason), mark) && Onward(s, Fail(s2, reason), mark) {
      FailOnward(s, s1, reason, mark);
      FailOnward(s, s2, reason, mark);
    }
    assert Past(s2, mark) && NewerOnly(s, s2, mark);
    HandOverOnward(c, s2, r, now, d, mark);
    OnwardTrans(s, s2, HandOver(c, s2, r, now, d), mark);
  }

  lemma CompleteOnward(c: Config, s: State, key: int, now: int, d: Delivery, mark: nat)
    requires Past(s, mark)
    ensures Onward(s, Complete(c, s, key, now, d), mark)
  {
    hide Fail, AssessResult, Onward, NewerOnly;
    UnchangedOnward(s, s, mark);
    if key in s.odomCache && key in s.infoCache && key in s.byStamp {
      var s1 := s.(odomCache := s.odomCache - {key}, infoCache := s.infoCache - {key});
      UnchangedOnward(s, s1, mark);
      forall reason ensures Onward(s, Fail(s1, reason), mark) {
        FailOnward(s, s1, reason, mark);
      }
      AssessOnward(c, s1, s.byStamp[key], s.odomCache[key], s.infoCache[key], now, d, mark);
      OnwardTrans(s, s1, AssessResult(c, s1, s.byStamp[key], s.odomCache[key], s.infoCache[key], now, d), mark);
    }
  }

  lemma FreshenOnward(c: Config, s: State, now: int, mark: nat)
    requires Past(s, mark)
    ensures Onward(s, Freshen(c, s, now), mark)
  {
    hide Fail, TG.Expire, SF.Overdue;
    var s1 := s.(fusion := SF.CheckFreshness(c.fusion, s.fusion, now), gate := TG.Expire(c.gate, s.gate, now));
    forall reason ensures Onward(s, Fail(s1, reason), mark) {
      FailOnward(s, s1, reason, mark);
    }
  }

  lemma WatchdogOnward(c: Config, s: State, e: Event, mark: nat)
    requires Past(s, mark) && e.Tick?
    ensures Onward(s, Watchdog(c, s, e.now, e.joinFault, e.outcome, e.later, e.sendFault), mark)
  {
    hide Fail, Freshen, PublishArchived, DeliverGraph;
    var s1 := if !s.paused && s.fusion.latched.None? && e.joinFault.Some? then Fail(s, e.joinFault.value) else s;
    if e.joinFault.Some? {
      FailOnward(s, s, e.joinFault.value, mark);
    }
    FreshenOnward(c, s1, e.now, mark);
    var s2 := if s1.paused then s1 else Freshen(c, s1, e.now);
    var s3 := PublishArchived(c, s2, e.now, e.outcome);
    PublishOnward(c, s2, e.now, e.outcome, mark);
    DeliverOnward(c, s3, e.later, e.sendFault, mark);
    hide Past;
    OnwardTrans(s, s1, s2, mark);
    OnwardTrans(s, s2, s3, mark);
    OnwardTrans(s, s3, DeliverGraph(c, s3, e.later, e.sendFault), mark);
  }

  lemma GraphAckOnward(c: Config, s: State, snapshot: AD.Snapshot, mark: nat)
    requires Past(s, mark)
    ensures Onward(s, GraphAck(c, s, snapshot), mark)
  {
    hide Fail, AD.Acknowledge;
    if c.graph.Some? && s.graph.Some? {
      var s1 := s.(graph := Some(AD.Acknowledge(c.graph.value, s.graph.value, snapshot)));
      forall reason ensures Onward(s, Fail(s1, reason), mark) {
        FailOnward(s, s1, reason, mark);
      }
    }
  }

  lemma ResumeOnward(c: Config, s: State, q: Request, now: int, mark: nat)
    requires Past(s, mark)
    ensures Onward(s, Resume(c, s, q, now), mark)
  {
    hide Admitted, TG.Resume;
    SameOnward(s, Resume(c, s, q, now), mark);
  }

  lemma StepOnward(c: Config, s: State, e: Event, mark: nat)
    requires Past(s, mark)
    ensures Onward(s, Step(c, s, e), mark)
  {
    hide Fail, Source, Complete, Watchdog, GraphAck, Resume, RA.DoWork, RA.Step, Onward;
    forall reason ensures Onward(s, Fail(s, reason), mark) {
      FailOnward(s, s, reason, mark);
    }
    match e {
      case SourceFrame(m, now) => SourceOnward(c, s, m, now, mark);
      case OdomArrived(key, publisherFault, odom, now, d) =>
        var s1 := s.(odomCache := s.odomCache[key := odom]);
        SameOnward(s, s1, mark);
        assert Past(s1, mark);
        CompleteOnward(c, s1, key, now, d, mark);
        OnwardTrans(s, s1, Complete(c, s1, key, now, d), mark);
        SameOnward(s, s, mark);
      case InfoArrived(key, info, now, d) =>
        var s1 := s.(infoCache := s.infoCache[key := info]);
        assert Past(s1, mark);
        CompleteOnward(c, s1, key, now, d, mark);
        OnwardTrans(s, s1, Complete(c, s1, key, now, d), mark);
        SameOnward(s, s, mark);
      case Tick(_, _, _, _, _) => WatchdogOnward(c, s, e, mark);
      case Acked(snapshot) => GraphAckOnward(c, s, snapshot, mark);
      case PauseCalled => FailOnward(s, s.(paused := true), "EXPLICIT_PAUSE", mark);
      case ResumeCalled(q, now) => ResumeOnward(c, s, q, now, mark);
      case OtherFault(reason) =>
      case _ => SameOnward(s, Step(c, s, e), mark);
    }
  }

  lemma {:induction false} RunOnward(c: Config, s: State, events: seq<Event>, mark: nat)
    requires Past(s, mark)
    ensures Onward(s, Run(c, s, events), mark)
  {
    hide Step;
    if events != [] {
      var before := Run(c, s, events[..|events| - 1]);
      RunOnward(c, s, events[..|events| - 1], mark);
      StepOnward(c, before, events[|events| - 1], mark);
      OnwardTrans(s, before, Run(c, s, events), mark);
    }
  }

  /** A latched node with nothing ready publishes nothing fused so far, whatever follows. */
  lemma NothingOldAfterLatch(c: Config, s: State, events: seq<Event>)
    requires s.icpReady == [] && (s.fusion.latched.Some? || s.archivePending == map[])
    ensures var end := Run(c, s, events);
            forall i :: |s.published| <= i < |end.published| ==> end.published[i].record.bundle.id > s.fusion.bundleCounter
  {
    RunOnward(c, s, events, s.fusion.bundleCounter);
  }

  /** So a tick that misses both deadlines and leaves none ready lets nothing old through. */
  lemma NothingOldAfterTick(c: Config, s: State, now: int, outcome: Outcome, later: int, sendFault: Option<string>,
                            events: seq<Event>)
    requires BothOverdue(c, s, now) && !LeavesReady(c, s, now, later, sendFault)
    ensures var end := Run(c, Step(c, s, Tick(now, None, outcome, later, sendFault)), events);
            forall i :: |s.published| <= i < |end.published| ==> end.published[i].record.bundle.id > s.fusion.bundleCounter
  {
    hide Step, Run, LeavesReady, BothOverdue;
    TickLeavesReady(c, s, now, outcome, later, sendFault);
    NothingOldAfterLatch(c, Step(c, s, Tick(now, None, outcome, later, sendFault)), events);
  }

  // ----- with one, a resume lets it through -----

  /** While the node is latched, frames are watched and change nothing else. */
  lemma {:induction false} OnlyWatched(c: Config, s: State, frames: seq<Event>)
    requires s.fusion.latched.Some?
    requires forall e :: e in frames ==> e.SourceFrame? && e.msg.sideOk && e.msg.clockFault.None?
    ensures Run(c, s, frames) == s.(watch := Run(c, s, frames).watch)
  {
    hide Observed, Fail;
    if frames != [] {
      var last := frames[|frames| - 1];
      assert last in frames;
      OnlyWatched(c, s, frames[..|frames| - 1]);
    }
  }

  lemma NothingPolled(s: State)
    requires s.archive.results == []
    ensures Collect(s) == s
  {
    assert s.archive.outstanding - {} == s.archive.outstanding && s.archive.paths - {} == s.archive.paths;
    assert (set r: RA.ArchiveResult | r in s.archive.results :: r.key) == {};
    assert (set r: RA.ArchiveResult | r in s.archive.results :: r.path) == {};
    assert RA.DoPoll(s.archive) == s.archive;
  }

  lemma ResumedState(c: Config, s: State, q: Request, now: int)
    requires Admitted(c, s, q, now)
    ensures var r := Step(c, s, ResumeCalled(q, now));
            && r.fusion.latched.None? && r.fusion.started.None? && r.gate.paused.None? && r.gate.pending == map[]
            && r.gate.lastResult.None? && r.byStamp == map[] && r.icpReady == s.icpReady && !r.paused
            && r.archive == s.archive && r.published == s.published && r.failures == s.failures && r.mark == s.mark
  {
    hide SourcesValidated, Granted;
  }

  lemma StaysOpen(c: Config, s: State, now: int)
    requires s.fusion.latched.None? && s.fusion.started.None? && s.gate.paused.None? && s.gate.pending == map[]
    requires s.gate.lastResult.None?
    ensures Freshen(c, s, now) == s
  {
  }

  lemma ReleasesHead(c: Config, s: State, now: int)
    requires Collect(s) == s && s.byStamp == map[] && s.icpReady != [] && !AnyAged(c, s.icpReady, now)
    requires s.gate.paused.None? && s.gate.pending == map[] && c.gate.maxPending > 0
    ensures PublishArchived(c, s, now, Sent).published == s.published + [Publication(s.icpReady[0], now, s.mark)]
  {
    hide AnyAged, Collect;
  }

  /** A tick in time after a resume: nothing latches, and the head goes to the matcher. */
  lemma NextTick(c: Config, s: State, now: int, later: int)
    requires s.fusion.latched.None? && s.fusion.started.None? && s.gate.paused.None? && s.gate.pending == map[]
    requires s.gate.lastResult.None? && s.byStamp == map[] && !s.paused && s.archive.results == []
    requires s.icpReady != [] && !AnyAged(c, s.icpReady, now) && c.gate.maxPending > 0
    ensures Step(c, s, Tick(now, None, Sent, later, None)).published == s.published + [Publication(s.icpReady[0], now, s.mark)]
  {
    hide Freshen, PublishArchived, AnyAged, DeliverGraph;
    StaysOpen(c, s, now);
    NothingPolled(s);
    ReleasesHead(c, s, now);
    Delivers(c, PublishArchived(c, s, now, Sent), later, None);
    hide AD.Send;
    DeliveryPublishesNothing(c, PublishArchived(c, s, now, Sent), later);
  }

  lemma DeliveryPublishesNothing(c: Config, s: State, now: int)
    ensures DeliverGraph(c, s, now, None).published == s.published
  {
    hide AD.Send;
  }

  /**
   From every such state: a tick that misses both deadlines and leaves the bundle ready, any frames
   watched while the node is latched, an admitted resume and a tick in time publish the bundle that
   was ready before, and `fail()` is never called until then.
   */
  lemma ReadyBundleOutlivesLatch(c: Config, s: State, now: int, sent: int, frames: seq<Event>, q: Request, at: int,
                                 next: int, later: int)
    requires BothOverdue(c, s, now) && LeavesReady(c, s, now, sent, None)
    requires forall e :: e in frames ==> e.SourceFrame? && e.msg.sideOk && e.msg.clockFault.None?
    requires Admitted(c, Run(c, Step(c, s, Tick(now, None, Sent, sent, None)), frames), q, at)
    requires !AnyAged(c, s.icpReady, next) && c.gate.maxPending > 0
    ensures var latched := Step(c, s, Tick(now, None, Sent, sent, None));
            var resumed := Step(c, Run(c, latched, frames), ResumeCalled(q, at));
            var end := Step(c, resumed, Tick(next, None, Sent, later, None));
            && latched.fusion.latched.Some? && latched.gate.paused.Some? && resumed.failures == s.failures
            && end.published == s.published + [Publication(s.icpReady[0], next, s.mark)]
  {
    hide Step, Run, LeavesReady, BothOverdue, AnyAged, Admitted;
    TickLeavesReady(c, s, now, Sent, sent, None);
    TickIsQuiet(c, s, now, sent);
    var latched := Step(c, s, Tick(now, None, Sent, sent, None));
    OnlyWatched(c, latched, frames);
    var seen := Run(c, latched, frames);
    ResumedState(c, seen, q, at);
    NextTick(c, Step(c, seen, ResumeCalled(q, at)), next, later);
  }

  /** After that tick there is nothing to poll. */
  lemma TickIsQuiet(c: Config, s: State, now: int, sent: int)
    requires BothOverdue(c, s, now) && LeavesReady(c, s, now, sent, None)
    ensures var latched := Step(c, s, Tick(now, None, Sent, sent, None));
            && latched.archive.results == [] && latched.mark == s.mark && latched.gate.paused.Some?
            && latched.watch == s.watch && latched.gate.odomEpoch == s.gate.odomEpoch
            && (s.graph.None? ==> latched.graph.None?)
  {
    TickParts(c, s, now, Sent, sent, None);
    LatchOnly(c, s, now);
    hide Step, Freshen, BothOverdue, AnyAged, PublishArchived, DeliverGraph, SendsWell;
    var latched := Freshen(c, s, now);
    PublishLatched(c, latched, now, Sent);
    SendsSame(c, s, PublishArchived(c, latched, now, Sent), sent, None);
    Delivers(c, PublishArchived(c, latched, now, Sent), sent, None);
  }

  // ----- an empty text -----

  /** Only a text closes: with one, fusion and gate are closed and nothing is held; with an empty
      one they are open afterwards, even if they had been closed. */
  lemma FailClosesByText(c: Config, s: State, reason: string)
    ensures var s' := Step(c, s, OtherFault(reason));
            && (s'.fusion.latched.Some? <==> reason != "") && (s'.gate.paused.Some? <==> reason != "")
            && FrontEndSafety.Held(s') == {}
  {
    FrontEndSafety.HeldAfterFail(s, reason);
  }
}
