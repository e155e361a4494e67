/**
 When no bundle can outlive a latch: with a result timeout of at least three age limits, clocks
 that do not run backwards, faults that have a text and resumes that find the node latched or
 nothing ready, a latched node never has a bundle ready.

 The argument: bundles enter at most an age limit apart, so behind one in flight a ready one in
 time bounds the time since the last result.
 */
module FrontEndTiming {
  import opened Common
  import opened Decimals
  import opened FrontEnd
  import opened FrontEndLatch
  import opened FrontEndSafety
  import FES = FrontEndSafety
  import SF = SourceFusion
  import RA = RawArchive
  import TG = TrackingGate
  import AD = AckedDelivery

  // ----- orderly runs -----

  predicate WithText(fault: Option<string>) {
    fault.None? || fault.value != ""
  }

  predicate DeliveryWorded(d: Delivery) {
    WithText(d.relayFault) && WithText(d.lateFault) && WithText(d.sendFault)
  }

  /** Every fault that the event may raise has a text. */
  predicate Worded(e: Event) {
    match e
    case SourceFrame(m, _) =>
      && WithText(m.clockFault) && WithText(m.decodeFault) && WithText(m.fuseFault) && WithText(m.wheelFault)
      && WithText(m.frame.identityFault) && WithText(m.frame.contentFault)
    case OdomArrived(_, publisherFault, _, _, d) => WithText(publisherFault) && DeliveryWorded(d)
    case InfoArrived(_, _, _, d) => DeliveryWorded(d)
    case Tick(_, joinFault, outcome, _, sendFault) =>
      WithText(joinFault) && (!outcome.Sent? ==> outcome.text != "") && WithText(sendFault)
    case OtherFault(reason) => reason != ""
    case _ => true
  }

  /** The clock readings of an event, first and last. */
  function Begins(e: Event, otherwise: int): int {
    match e
    case SourceFrame(_, now) => now
    case OdomArrived(_, _, _, now, _) => now
    case InfoArrived(_, _, now, _) => now
    case Tick(now, _, _, _, _) => now
    case ResumeCalled(_, now) => now
    case _ => otherwise
  }

  function Ends(e: Event, otherwise: int): int {
    if e.Tick? then e.later else Begins(e, otherwise)
  }

  function Clock(t: int, events: seq<Event>): int {
    if events == [] then t else Ends(events[|events| - 1], Clock(t, events[..|events| - 1]))
  }

  predicate Allowed(s: State, t: int, e: Event) {
    && Worded(e) && t <= Begins(e, t) <= Ends(e, t)
    && (e.ResumeCalled? ==> s.fusion.latched.Some? || s.icpReady == [])
  }

  predicate Orderly(c: Config, s: State, t: int, events: seq<Event>) {
    events == []
    || (var before := events[..|events| - 1];
        Orderly(c, s, t, before) && Allowed(Run(c, s, before), Clock(t, before), events[|events| - 1]))
  }

  // ----- the parts of the invariant -----

  predicate GraphText(graph: Option<AD.State>) {
    graph.Some? ==> WithText(graph.value.failure)
  }

  predicate Texts(s: State) {
    WithText(s.fusion.latched) && WithText(s.gate.paused) && GraphText(s.graph)
  }

  /** Closed, and nothing ready. */
  predicate Shut(s: State) {
    s.fusion.latched.Some? && s.gate.paused.Some? && Texts(s) && s.icpReady == []
  }

  predicate Open(s: State) {
    s.fusion.latched.None? && s.gate.paused.None? && !s.paused && GraphText(s.graph)
  }

  /** From job `b` on: entered by `t`, at most an age limit apart, the last when the last bundle was. */
  ghost predicate Paced(c: Config, jobs: seq<Record>, lastBundle: Option<int>, b: nat, t: int) {
    && b <= |jobs|
    && (forall i :: b <= i < |jobs| ==> jobs[i].submitted <= t)
    && (forall i :: b < i < |jobs| ==> jobs[i].submitted <= jobs[i - 1].submitted + c.fusion.maxAgeNs)
    && (b < |jobs| ==> lastBundle == Some(jobs[|jobs| - 1].submitted))
  }

  /** The jobs just before `n` are ready, and the one before those in flight. */
  ghost predicate Lined(jobs: seq<Record>, ready: seq<Record>, flying: map<int, Record>, b: nat, n: nat) {
    var m := n - |ready| - |flying|;
    && n <= |jobs| && 0 <= m && |flying| <= 1
    && (ready != [] || flying != map[] ==> b <= m)
    && ready == jobs[n - |ready|..n]
    && (forall k :: k in flying ==> n - |ready| > 0 && flying[k] == jobs[n - |ready| - 1])
  }

  /** Exactly the jobs from `b` and `n` on are pending. */
  ghost predicate Listed(pending: map<string, Record>, jobs: seq<Record>, b: nat, n: nat) {
    && (forall i :: b <= i < |jobs| && n <= i ==> KeyOf(jobs[i].bundle.id) in pending)
    && (forall k :: k in pending ==> b <= pending[k].nth)
  }

  /** The gate's times are not before those of the bundles they belong to; `m` jobs are answered. */
  ghost predicate Answered(gate: TG.State, flying: map<int, Record>, jobs: seq<Record>, b: nat, m: int) {
    && (forall id, k :: id in gate.pending && k in flying ==> flying[k].submitted <= gate.pending[id].received)
    && (gate.lastResult.Some? ==> b < m <= |jobs| && jobs[m - 1].submitted <= gate.lastResult.value)
  }

  ghost predicate Timely(c: Config, s: State, b: nat, t: int, n: nat) {
    && Paced(c, s.jobs, s.fusion.lastBundle, b, t)
    && Lined(s.jobs, s.icpReady, s.byStamp, b, n)
    && Listed(s.archivePending, s.jobs, b, n)
    && Answered(s.gate, s.byStamp, s.jobs, b, n - |s.icpReady| - |s.byStamp|)
  }

  /** Shut, or open and in time; `b` jobs were there at the last resume, `n` results are handled. */
  ghost predicate Kept(c: Config, s: State, b: nat, t: int, n: nat) {
    Shut(s) || (Open(s) && Timely(c, s, b, t, n))
  }

  // ----- the bound -----

  /** With one in flight and a ready one in time, no result is overdue. */
  lemma ReadyBoundsResult(c: Config, s: State, b: nat, t: int, n: nat, now: int)
    requires c.gate.timeoutNs >= 3 * c.fusion.maxAgeNs && Timely(c, s, b, t, n)
    requires s.byStamp != map[] && s.icpReady != [] && !AnyAged(c, s.icpReady, now)
    requires forall id :: id in s.gate.pending ==> exists k :: k in s.byStamp && s.byStamp[k].bundle.id == id
    ensures !GateOverdue(c, s, now)
  {
    var m := n - |s.icpReady| - |s.byStamp|;
    var k := FlyingOne(s.byStamp);
    var head, flying := s.icpReady[0], s.byStamp[k];
    assert head in s.icpReady && head == s.jobs[m + 1] && flying == s.jobs[m];
    assert now <= head.submitted + c.fusion.maxAgeNs;
    assert s.jobs[m + 1].submitted <= s.jobs[m].submitted + c.fusion.maxAgeNs;
    forall id | id in s.gate.pending ensures now - s.gate.pending[id].received <= c.gate.timeoutNs {
      assert flying.submitted <= s.gate.pending[id].received;
    }
    if s.gate.lastResult.Some? {
      assert s.jobs[m].submitted <= s.jobs[m - 1].submitted + c.fusion.maxAgeNs;
    }
  }

  lemma FlyingOne(flying: map<int, Record>) returns (k: int)
    requires flying != map[]
    ensures k in flying && |flying| >= 1
  {
    if forall x :: x !in flying {
      assert false;
    }
    k :| k in flying;
    assert |flying.Keys| == |flying| && k in flying.Keys;
  }

  // ----- fail and the graph -----

  lemma FailShuts(s: State, reason: string)
    requires reason != "" && GraphText(s.graph)
    ensures Shut(Fail(s, reason))
  {
  }

  lemma SendText(p: AD.Policy, g: AD.State, now: int)
    requires WithText(g.failure)
    ensures WithText(AD.Send(p, g, now).0.failure)
  {
  }

  lemma SubmitText(p: AD.Policy, g: AD.State, o: AD.Observation)
    requires WithText(g.failure)
    ensures WithText(AD.Submit(p, g, o).failure) && WithText(AD.EnsureCapacity(p, g).failure)
  {
    hide AD.WellFormed;
  }

  lemma AcknowledgeText(p: AD.Policy, g: AD.State, snapshot: AD.Snapshot)
    requires WithText(g.failure)
    ensures WithText(AD.Acknowledge(p, g, snapshot).failure)
  {
    hide AD.Matches, AD.Trusted, AD.Skipped, AD.Includes, AD.Pop;
    PopText(g);
  }

  lemma PopText(g: AD.State)
    ensures g.queue != [] ==> AD.Pop(g).failure == g.failure
    ensures g.queue != [] ==> forall e :: AD.Pop(g.(graphEpoch := e)).failure == g.failure
  {
  }

  /** The graph, the archive's inner state, the caches and the watch are outside the invariant. */
  lemma SameKept(c: Config, s: State, s': State, b: nat, t: int, n: nat)
    requires Kept(c, s, b, t, n) && GraphText(s'.graph)
    requires s'.fusion == s.fusion && s'.gate == s.gate && s'.paused == s.paused && s'.jobs == s.jobs
    requires s'.icpReady == s.icpReady && s'.byStamp == s.byStamp && s'.archivePending == s.archivePending
    ensures Kept(c, s', b, t, n)
  {
    hide Paced, Lined, Listed, Answered;
  }

  lemma KeptText(c: Config, s: State, b: nat, t: int, n: nat)
    requires Kept(c, s, b, t, n)
    ensures Texts(s)
  {
    hide Timely;
  }

  lemma KeptGraph(c: Config, s: State, b: nat, t: int, n: nat)
    requires Kept(c, s, b, t, n)
    ensures GraphText(s.graph)
  {
    hide Timely;
  }

  lemma DeliverKept(c: Config, s: State, b: nat, t: int, n: nat, now: int, sendFault: Option<string>)
    requires Kept(c, s, b, t, n) && WithText(sendFault)
    ensures Kept(c, DeliverGraph(c, s, now, sendFault), b, t, n)
  {
    hide Fail, AD.Send, Kept;
    KeptText(c, s, b, t, n);
    if c.graph.Some? && s.graph.Some? {
      SendText(c.graph.value, s.graph.value, now);
      var s1 := s.(graph := Some(AD.Send(c.graph.value, s.graph.value, now).0));
      SameKept(c, s, s1, b, t, n);
      forall reason | reason != "" ensures Kept(c, Fail(s1, reason), b, t, n) {
        FailKept(c, s1, reason, b, t, n);
      }
    }
  }

  lemma FailKept(c: Config, s: State, reason: string, b: nat, t: int, n: nat)
    requires reason != "" && GraphText(s.graph)
    ensures Kept(c, Fail(s, reason), b, t, n)
  {
    hide Fail, Timely;
    FailShuts(s, reason);
  }

  lemma GraphAckKept(c: Config, s: State, b: nat, t: int, n: nat, snapshot: AD.Snapshot)
    requires Kept(c, s, b, t, n)
    ensures Kept(c, GraphAck(c, s, snapshot), b, t, n)
  {
    hide Fail, AD.Acknowledge, Kept;
    KeptText(c, s, b, t, n);
    if c.graph.Some? && s.graph.Some? {
      AcknowledgeText(c.graph.value, s.graph.value, snapshot);
      var s1 := s.(graph := Some(AD.Acknowledge(c.graph.value, s.graph.value, snapshot)));
      SameKept(c, s, s1, b, t, n);
      forall reason | reason != "" ensures Kept(c, Fail(s1, reason), b, t, n) {
        FailKept(c, s1, reason, b, t, n);
      }
    }
  }

  lemma LaterKept(c: Config, s: State, b: nat, t: int, n: nat, t': int)
    requires Kept(c, s, b, t, n) && t <= t'
    ensures Kept(c, s, b, t', n)
  {
    hide Lined, Listed, Answered;
  }

  // ----- a source frame -----

  /** What a push of a running fusion does to its latch and to the time of its last bundle. */
  lemma PairTimes(p: SF.Policy, f: SF.State, fault: Option<string>, now: int)
    requires WithText(fault) && f.latched.None?
    ensures var r := SF.Pair(p, f, fault, now);
            && (r.1.Nothing? ==> r.0.latched.None? && r.0.lastBundle == f.lastBundle)
            && (r.1.Fused? ==> r.0.latched.None? && r.0.lastBundle == Some(now))
            && (r.1.Raised? ==> r.1.reason != "")
  {
    hide SF.FindPair;
  }

  lemma CheckTimes(p: SF.Policy, f: SF.State, m: SF.Frame, now: int)
    requires WithText(m.identityFault) && WithText(m.contentFault)
    ensures var r := SF.Check(p, f, m, now);
            r.s.latched == f.latched && r.s.lastBundle == f.lastBundle && WithText(r.fault)
  {
    hide SF.Remember, SF.Refused, SF.TimeJump;
    RememberTimes(p, SF.Adopt(f, m), m);
  }

  lemma RememberTimes(p: SF.Policy, f: SF.State, m: SF.Frame)
    ensures SF.Remember(p, f, m).latched == f.latched && SF.Remember(p, f, m).lastBundle == f.lastBundle
  {
    hide SF.Last, SF.ToSet;
  }

  lemma FreshnessTimes(p: SF.Policy, f: SF.State, now: int)
    requires f.latched.None? && f.started.Some?
    ensures var r := SF.CheckFreshness(p, f, now);
            && WithText(r.latched)
            && (r.latched.None? ==> r == f && (f.lastBundle.Some? ==> now - f.lastBundle.value <= p.maxAgeNs))
  {
  }

  lemma PushTimes(p: SF.Policy, f: SF.State, m: SF.Frame, fault: Option<string>, now: int)
    requires WithText(m.identityFault) && WithText(m.contentFault) && WithText(fault) && f.latched.None?
    ensures var r := SF.Push(p, f, m, fault, now);
            && (r.1.Nothing? ==> r.0.latched.None? && r.0.lastBundle == f.lastBundle)
            && (r.1.Fused? ==> r.0.latched.None? && r.0.lastBundle == Some(now)
                               && (f.lastBundle.Some? ==> now - f.lastBundle.value <= p.maxAgeNs))
            && (r.1.Raised? ==> r.1.reason != "")
  {
    CheckTimes(p, f, m, now);
    var checked := SF.Check(p, f, m, now);
    var f1 := SF.Arrive(checked.s, m, now);
    hide SF.Check, SF.CheckFreshness, SF.Pair, SF.Insert, SF.Bounded;
    if checked.fault.None? {
      FreshnessTimes(p, f1, now);
      if SF.CheckFreshness(p, f1, now).latched.None? {
        PairTimes(p, SF.Enqueue(p, f1, m), fault, now);
      }
    }
  }

  lemma PacedEnter(c: Config, jobs: seq<Record>, lastBundle: Option<int>, b: nat, t: int, r: Record, now: int)
    requires Paced(c, jobs, lastBundle, b, t) && t <= now && r.submitted == now
    requires lastBundle.Some? ==> now - lastBundle.value <= c.fusion.maxAgeNs
    ensures Paced(c, jobs + [r], Some(now), b, now)
  {
  }

  lemma LinedEnter(jobs: seq<Record>, ready: seq<Record>, flying: map<int, Record>, b: nat, n: nat, r: Record)
    requires Lined(jobs, ready, flying, b, n)
    ensures Lined(jobs + [r], ready, flying, b, n)
  {
    assert (jobs + [r])[n - |ready|..n] == jobs[n - |ready|..n];
  }

  lemma ListedEnter(pending: map<string, Record>, jobs: seq<Record>, b: nat, n: nat, r: Record)
    requires Listed(pending, jobs, b, n) && r.nth == |jobs| && b <= |jobs|
    ensures Listed(pending[KeyOf(r.bundle.id) := r], jobs + [r], b, n)
  {
    hide KeyOf;
  }

  lemma AnsweredEnter(gate: TG.State, flying: map<int, Record>, jobs: seq<Record>, b: nat, m: int, r: Record)
    requires Answered(gate, flying, jobs, b, m)
    ensures Answered(gate, flying, jobs + [r], b, m)
  {
  }

  /** Entered less than an age limit after the last bundle. */
  lemma EnterKept(c: Config, s: State, f: SF.State, b: nat, t: int, n: nat, r: Record, now: int)
    requires Open(s) && Timely(c, s, b, t, n) && t <= now && r.nth == |s.jobs| && r.submitted == now
    requires f.latched.None? && f.lastBundle == Some(now)
    requires s.fusion.lastBundle.Some? ==> now - s.fusion.lastBundle.value <= c.fusion.maxAgeNs
    ensures Kept(c, Enter(s.(fusion := f), r), b, now, n)
  {
    hide Paced, Lined, Listed, Answered, KeyOf, PathOf, RA.DoSubmit;
    PacedEnter(c, s.jobs, s.fusion.lastBundle, b, t, r, now);
    LinedEnter(s.jobs, s.icpReady, s.byStamp, b, n, r);
    assert b <= |s.jobs| by { PacedBound(c, s.jobs, s.fusion.lastBundle, b, t); }
    ListedEnter(s.archivePending, s.jobs, b, n, r);
    AnsweredEnter(s.gate, s.byStamp, s.jobs, b, n - |s.icpReady| - |s.byStamp|, r);
  }

  lemma PacedBound(c: Config, jobs: seq<Record>, lastBundle: Option<int>, b: nat, t: int)
    requires Paced(c, jobs, lastBundle, b, t)
    ensures b <= |jobs|
  {
  }

  lemma FusionKept(c: Config, s: State, f: SF.State, b: nat, t: int, n: nat)
    requires Open(s) && Timely(c, s, b, t, n) && f.latched.None? && f.lastBundle == s.fusion.lastBundle
    ensures Kept(c, s.(fusion := f), b, t, n)
  {
    hide Paced, Lined, Listed, Answered;
  }

  lemma EntryText(c: Config, s: State, bundle: SF.Bundle, m: SourceMsg)
    requires WithText(m.wheelFault)
    ensures WithText(EntryFault(c, s, bundle, m))
  {
    hide StampInUse, InRosRange, Load, KeyOf, PathOf;
  }

  lemma TakeFrameKept(c: Config, s: State, b: nat, t: int, n: nat, m: SourceMsg, now: int)
    requires Open(s) && Timely(c, s, b, t, n) && t <= now && Worded(SourceFrame(m, now))
    ensures Kept(c, TakeFrame(c, s, m, now), b, now, n)
  {
    PushTimes(c.fusion, s.fusion, m.frame, m.fuseFault, now);
    var r := SF.Push(c.fusion, s.fusion, m.frame, m.fuseFault, now);
    var s1 := s.(fusion := r.0);
    hide SF.Push, EntryFault, Fail, Enter, Timely, Kept;
    forall reason | reason != "" ensures Kept(c, Fail(s, reason), b, now, n) && Kept(c, Fail(s1, reason), b, now, n) {
      FailKept(c, s, reason, b, now, n);
      FailKept(c, s1, reason, b, now, n);
    }
    if r.1.Nothing? {
      FusionKept(c, s, r.0, b, t, n);
      LaterKept(c, s1, b, t, n, now);
    } else if r.1.Fused? {
      EntryText(c, s1, r.1.bundle, m);
      EnterKept(c, s, r.0, b, t, n, Record(r.1.bundle, m.payload, now, |s.jobs|), now);
    }
  }

  lemma SourceKept(c: Config, s: State, b: nat, t: int, n: nat, m: SourceMsg, now: int)
    requires Kept(c, s, b, t, n) && t <= now && Worded(SourceFrame(m, now))
    ensures Kept(c, Source(c, s, m, now), b, now, n)
  {
    KeptText(c, s, b, t, n);
    LaterKept(c, s, b, t, n, now);
    var seen := s.(watch := Observed(c, s.watch, m, now));
    hide TakeFrame, Fail, Observed, Paced, Lined, Listed, Answered, Worded;
    forall reason | reason != "" ensures Kept(c, Fail(s, reason), b, now, n) {
      FailKept(c, s, reason, b, now, n);
    }
    WordedSource(m, now);
    SameKept(c, s, seen, b, t, n);
    if Shut(s) {
      TakesNothing(c, seen, m, now);
      LaterKept(c, seen, b, t, n, now);
    } else {
      TakeFrameKept(c, seen, b, t, n, m, now);
    }
  }

  lemma TakesNothing(c: Config, s: State, m: SourceMsg, now: int)
    requires s.fusion.latched.Some?
    ensures TakeFrame(c, s, m, now) == s
  {
  }

  lemma WordedSource(m: SourceMsg, now: int)
    requires Worded(SourceFrame(m, now))
    ensures WithText(m.clockFault)
  {
  }

  // ----- results of the matcher -----

  lemma AssessTimes(p: TG.Policy, g: TG.State, r: TG.Assessment, now: int)
    ensures var judged := TG.Assess(p, g, r, now);
            && WithText(judged.1) && (g.paused.Some? ==> judged.1.Some?)
            && (judged.1.None? ==> judged.0.paused.None? && judged.0.lastResult == Some(now))
  {
  }

  lemma LinedLands(jobs: seq<Record>, ready: seq<Record>, flying: map<int, Record>, key: int, b: nat, n: nat)
    requires Lined(jobs, ready, flying, b, n) && key in flying
    ensures Lined(jobs, ready, flying - {key}, b, n) && flying - {key} == map[] && |flying| == 1
    ensures var m := n - |ready| - 1; 0 <= m < |jobs| && b <= m && flying[key] == jobs[m]
  {
    var k := FlyingOne(flying);
    OneKey(flying, key);
  }

  /** An accepted result: one more job is answered, at `now`. */
  lemma LandedKept(c: Config, s: State, key: int, gate: TG.State, b: nat, t: int, n: nat, now: int)
    requires Open(s) && Timely(c, s, b, t, n) && t <= now && key in s.byStamp
    requires gate.paused.None? && gate.lastResult == Some(now) && gate.pending == map[]
    ensures Kept(c, s.(gate := gate, byStamp := s.byStamp - {key}), b, now, n)
  {
    hide Listed, Lined;
    LinedLands(s.jobs, s.icpReady, s.byStamp, key, b, n);
    assert s.byStamp[key].submitted <= t;
    LaterKept(c, s, b, t, n, now);
  }

  lemma HandOverKept(c: Config, s: State, key: int, b: nat, t: int, n: nat, now: int, d: Delivery)
    requires Kept(c, s.(byStamp := s.byStamp - {key}), b, t, n) && DeliveryWorded(d)
    requires key in s.byStamp && s.byStamp[key].bundle.tRef == key && GraphText(s.graph)
    ensures Kept(c, HandOver(c, s, s.byStamp[key], now, d), b, t, n)
  {
    hide Fail, AD.Submit, DeliverGraph, Kept;
    if c.graph.Some? && s.graph.Some? {
      var r := s.byStamp[key];
      var o := AD.Observation(r.bundle.id, d.rawKeys, c.odomEpoch, d.envelope);
      SubmitText(c.graph.value, s.graph.value, o);
      var g := AD.Submit(c.graph.value, s.graph.value, o);
      var s1 := s.(graph := Some(g));
      if g.failure.Some? {
        FailKept(c, s1, g.failure.value, b, t, n);
      } else {
        DeliveryCommutes(c, s1, key, now, d.sendFault);
        var landed := s1.(byStamp := s1.byStamp - {key});
        SameKept(c, s.(byStamp := s.byStamp - {key}), landed, b, t, n);
        DeliverKept(c, landed, b, t, n, now, d.sendFault);
      }
    }
  }

  lemma CapacityKept(c: Config, s: State, b: nat, t: int, n: nat)
    requires Kept(c, s, b, t, n)
    ensures Kept(c, CheckGraph(c, s), b, t, n) && GraphText(CheckGraph(c, s).graph)
  {
    hide Kept, AD.EnsureCapacity;
    KeptText(c, s, b, t, n);
    if c.graph.Some? && s.graph.Some? {
      SubmitText(c.graph.value, s.graph.value, AD.Observation(0, [], "", ""));
      SameKept(c, s, CheckGraph(c, s), b, t, n);
    }
  }

  lemma AssessKept(c: Config, s: State, b: nat, t: int, n: nat, key: int, odom: Odom, info: Info, now: int, d: Delivery)
    requires Invariant(c, s) && Kept(c, s, b, t, n) && t <= now && DeliveryWorded(d) && key in s.byStamp
    ensures Kept(c, AssessResult(c, s, s.byStamp[key], odom, info, now, d), b, now, n)
  {
    hide Invariant, Kept, CheckGraph, TG.Assess, TG.Invariant, HandOver, Fail, Judged, Timely;
    var r, s1 := s.byStamp[key], CheckGraph(c, s);
    CheckGraphKeeps(c, s);
    CapacityKept(c, s, b, t, n);
    forall reason | reason != "" ensures Kept(c, Fail(s1, reason), b, now, n) {
      FailKept(c, s1, reason, b, now, n);
    }
    if !(s1.graph.Some? && s1.graph.value.failure.Some?) {
      OnlyOneFlying(c, s1, key);
      InvariantGate(c, s1);
      var assessment := Judged(c, s1, r, odom, info);
      assert assessment.id == r.bundle.id by { JudgedId(c, s1, r, odom, info); }
      AssessFacts(c.gate, s1.gate, assessment, now);
      AssessTimes(c.gate, s1.gate, assessment, now);
      var judged := TG.Assess(c.gate, s1.gate, assessment, now);
      var s2 := s1.(gate := judged.0);
      forall reason | reason != "" ensures Kept(c, Fail(s2, reason), b, now, n) {
        FailKept(c, s2, reason, b, now, n);
      }
      if judged.1.None? {
        OpenWhenNotPaused(c, s1, b, t, n);
        LandedKept(c, s1, key, judged.0, b, t, n, now);
        HandOverKept(c, s2, key, b, now, n, now, d);
      }
    }
  }

  lemma OpenWhenNotPaused(c: Config, s: State, b: nat, t: int, n: nat)
    requires Kept(c, s, b, t, n) && (s.gate.paused.None? || s.fusion.latched.None?)
    ensures Open(s) && Timely(c, s, b, t, n)
  {
  }

  lemma CompleteKept(c: Config, s: State, b: nat, t: int, n: nat, key: int, now: int, d: Delivery)
    requires Invariant(c, s) && Kept(c, s, b, t, n) && t <= now && DeliveryWorded(d)
    ensures Kept(c, Complete(c, s, key, now, d), b, now, n)
  {
    hide Invariant, Kept, AssessResult, Complete, Fail, GraphText, DeliveryWorded;
    KeptGraph(c, s, b, t, n);
    LaterKept(c, s, b, t, n, now);
    CompleteCases(c, s, key, now, d);
    if key in s.odomCache && key in s.infoCache && key in s.byStamp {
      var s1 := Taken(s, key);
      CachesMove(c, s, s1);
      SameKept(c, s, s1, b, t, n);
      AssessKept(c, s1, b, t, n, key, s.odomCache[key], s.infoCache[key], now, d);
      FailKept(c, s1, "ODOM_FRAME_MISMATCH", b, now, n);
      FailKept(c, s1, "INVALID_ODOM_QUATERNION", b, now, n);
      FailKept(c, s1, "INVALID_NATIVE_ICP_DIAGNOSTICS", b, now, n);
    }
  }

  /** Both halves of a result are off the caches. */
  function Taken(s: State, key: int): State {
    s.(odomCache := s.odomCache - {key}, infoCache := s.infoCache - {key})
  }

  lemma CompleteCases(c: Config, s: State, key: int, now: int, d: Delivery)
    ensures var s' := Complete(c, s, key, now, d);
            if key !in s.odomCache || key !in s.infoCache || key !in s.byStamp then s' == s
            else || s' == Fail(Taken(s, key), "ODOM_FRAME_MISMATCH")
                 || s' == Fail(Taken(s, key), "INVALID_ODOM_QUATERNION")
                 || s' == Fail(Taken(s, key), "INVALID_NATIVE_ICP_DIAGNOSTICS")
                 || s' == AssessResult(c, Taken(s, key), s.byStamp[key], s.odomCache[key], s.infoCache[key], now, d)
  {
    hide Fail, AssessResult;
  }

  // ----- polling -----

  lemma LinedDrops(jobs: seq<Record>, ready: seq<Record>, flying: map<int, Record>, b: nat, n: nat)
    requires Lined(jobs, ready, flying, b, n) && n < b && n < |jobs|
    ensures ready == [] && flying == map[] && Lined(jobs, ready, flying, b, n + 1)
  {
  }

  lemma LinedMoves(jobs: seq<Record>, ready: seq<Record>, flying: map<int, Record>, b: nat, n: nat)
    requires Lined(jobs, ready, flying, b, n) && b <= n < |jobs|
    ensures Lined(jobs, ready + [jobs[n]], flying, b, n + 1)
  {
    assert jobs[n - |ready|..n + 1] == jobs[n - |ready|..n] + [jobs[n]];
  }

  lemma ListedShrinks(pending: map<string, Record>, jobs: seq<Record>, submitted: seq<RA.Job>, counter: nat, b: nat, n: nat)
    requires Listed(pending, jobs, b, n) && JobsOk(jobs, submitted, counter) && n < |jobs|
    ensures Listed(pending - {KeyOf(jobs[n].bundle.id)}, jobs, b, n + 1)
    ensures b <= n ==> KeyOf(jobs[n].bundle.id) in pending
  {
    forall i | b <= i < |jobs| && n + 1 <= i ensures KeyOf(jobs[i].bundle.id) in pending - {KeyOf(jobs[n].bundle.id)} {
      DigitsDiffer(jobs[i].bundle.id, jobs[n].bundle.id);
    }
  }

  lemma NothingAnswered(gate: TG.State, flying: map<int, Record>, jobs: seq<Record>, b: nat, m: int)
    requires Answered(gate, flying, jobs, b, m) && m <= b && flying == map[]
    ensures gate.lastResult.None? && Answered(gate, flying, jobs, b, m + 1)
  {
  }

  /** One polled result of an open node: its record becomes ready, or it is of a forgotten job. */
  lemma PollOpen(c: Config, s: State, b: nat, t: int, n: nat)
    requires Partial(c, s, n) && FES.Before(s, n) && n < |s.archive.delivered| && s.archive.delivered[n].error.None?
    requires Open(s) && Timely(c, s, b, t, n)
    ensures Kept(c, PollOne(s, s.archive.delivered[n]), b, t, n + 1)
  {
    hide Partial, FES.Before, Base, JobsOk, Paced, Lined, Listed, Answered, KeyOf, PollOne;
    var r := s.archive.delivered[n];
    PartialBase(c, s, n);
    BaseJobs(c, s);
    DeliveredKey(c, s, n);
    PollDrops(c, s, n, r.key);
    PollOneOpen(s, r);
    ListedShrinks(s.archivePending, s.jobs, s.archive.submitted, s.fusion.bundleCounter, b, n);
    if r.key in s.archivePending {
      ListedNth(s.archivePending, s.jobs, b, n, r.key);
      MovedTimely(c, s, b, t, n, r.key);
    } else {
      DroppedTimely(c, s, b, t, n, r.key);
    }
  }

  lemma PollOneOpen(s: State, r: RA.ArchiveResult)
    requires Open(s) && r.error.None?
    ensures PollOne(s, r) == if r.key in s.archivePending then
                               s.(archivePending := s.archivePending - {r.key}, icpReady := s.icpReady + [s.archivePending[r.key]])
                             else s.(archivePending := s.archivePending - {r.key})
  {
  }

  lemma MovedTimely(c: Config, s: State, b: nat, t: int, n: nat, key: string)
    requires Open(s) && Timely(c, s, b, t, n) && b <= n < |s.jobs| && Listed(s.archivePending - {key}, s.jobs, b, n + 1)
    ensures Kept(c, s.(archivePending := s.archivePending - {key}, icpReady := s.icpReady + [s.jobs[n]]), b, t, n + 1)
  {
    hide Paced, Lined, Listed, Answered;
    LinedMoves(s.jobs, s.icpReady, s.byStamp, b, n);
    assert |s.icpReady + [s.jobs[n]]| == |s.icpReady| + 1;
  }

  lemma DroppedTimely(c: Config, s: State, b: nat, t: int, n: nat, key: string)
    requires Open(s) && Timely(c, s, b, t, n) && n < b && n < |s.jobs| && Listed(s.archivePending - {key}, s.jobs, b, n + 1)
    ensures Kept(c, s.(archivePending := s.archivePending - {key}), b, t, n + 1)
  {
    hide Paced, Lined, Listed, Answered;
    LinedDrops(s.jobs, s.icpReady, s.byStamp, b, n);
    NothingAnswered(s.gate, s.byStamp, s.jobs, b, n);
  }

  lemma ListedNth(pending: map<string, Record>, jobs: seq<Record>, b: nat, n: nat, key: string)
    requires Listed(pending, jobs, b, n) && key in pending
    ensures b <= pending[key].nth
  {
  }

  lemma PollOneKept(c: Config, s: State, b: nat, t: int, n: nat)
    requires Partial(c, s, n) && FES.Before(s, n) && n < |s.archive.delivered| && Kept(c, s, b, t, n)
    ensures Kept(c, PollOne(s, s.archive.delivered[n]), b, t, n + 1)
  {
    KeptText(c, s, b, t, n);
    var r := s.archive.delivered[n];
    hide Partial, FES.Before, Timely, Fail;
    if r.error.Some? {
      FailShuts(s.(archivePending := s.archivePending - {r.key}), "RAW_ARCHIVE_FAILED:" + r.error.value);
    } else if Open(s) {
      PollOpen(c, s, b, t, n);
    }
  }

  lemma {:induction false} PollAllKept(c: Config, s: State, b: nat, t: int, n: nat, results: seq<RA.ArchiveResult>)
    requires Partial(c, s, n) && FES.Before(s, n) && n + |results| <= |s.archive.delivered| && Kept(c, s, b, t, n)
    requires forall i :: 0 <= i < |results| ==> results[i] == s.archive.delivered[n + i]
    ensures Kept(c, PollAll(s, results), b, t, n + |results|)
  {
    hide Partial, FES.Before, PollOne, Kept;
    if results != [] {
      var init := results[..|results| - 1];
      PollAllKept(c, s, b, t, n, init);
      PollAllKeeps(c, s, n, init);
      PollOneKept(c, PollAll(s, init), b, t, n + |init|);
    }
  }

  lemma CollectKept(c: Config, s: State, b: nat, t: int)
    requires Invariant(c, s) && Kept(c, s, b, t, |s.archive.delivered|)
    ensures Kept(c, Collect(s), b, t, |Collect(s).archive.delivered|)
  {
    hide Invariant, Partial, FES.Before, PollAll, Kept, RA.DoPoll;
    PollStarts(c, s);
    BeforePolling(c, s);
    var polled := s.(archive := RA.DoPoll(s.archive));
    var n, results := |s.archive.delivered|, s.archive.results;
    BeforeSame(s, polled);
    PollDelivers(s.archive);
    KeptText(c, s, b, t, n);
    SameKept(c, s, polled, b, t, n);
    PollAllKept(c, polled, b, t, n, results);
    PollAllKeeps(c, polled, n, results);
  }

  lemma PollDelivers(a: RA.State)
    ensures var n := |a.delivered|;
            && |RA.DoPoll(a).delivered| == n + |a.results|
            && forall i :: 0 <= i < |a.results| ==> a.results[i] == RA.DoPoll(a).delivered[n + i]
  {
    hide RA.Settle;
  }

  // ----- publishing -----

  lemma LinedReleases(jobs: seq<Record>, ready: seq<Record>, b: nat, n: nat)
    requires Lined(jobs, ready, map[], b, n) && ready != []
    ensures Lined(jobs, ready[1..], map[ready[0].bundle.tRef := ready[0]], b, n)
  {
    assert jobs[n - |ready|..n][1..] == jobs[n - |ready| + 1..n];
    assert |map[ready[0].bundle.tRef := ready[0]]| == 1;
  }

  lemma AnsweredReleases(gate: TG.State, gate': TG.State, r: Record, jobs: seq<Record>, b: nat, m: int, now: int)
    requires Answered(gate, map[], jobs, b, m) && gate'.lastResult == gate.lastResult
    requires forall id :: id in gate'.pending ==> gate'.pending[id].received == now
    requires r.submitted <= now
    ensures Answered(gate', map[r.bundle.tRef := r], jobs, b, m)
  {
  }

  lemma SubmitTimes(p: TG.Policy, g: TG.State, bundle: TG.Bundle, now: int)
    ensures var taken := TG.Submit(p, g, bundle, now);
            && WithText(taken.1)
            && (taken.1.None? ==> taken.0.lastResult == g.lastResult && taken.0.paused == g.paused)
            && (taken.1.None? && g.pending == map[] ==>
                  forall id :: id in taken.0.pending ==> taken.0.pending[id].received == now)
  {
  }

  lemma ReleaseKept(c: Config, s: State, b: nat, t: int, n: nat, now: int, outcome: Outcome)
    requires Open(s) && Timely(c, s, b, t, n) && s.byStamp == map[] && s.gate.pending == map[]
    requires s.icpReady != [] && !AnyAged(c, s.icpReady, now) && (!outcome.Sent? ==> outcome.text != "")
    ensures Kept(c, Release(c, s, now, outcome), b, t, n)
  {
    hide TG.Submit, Fail, Paced, Lined, Listed, Answered, AnyAged;
    var r := s.icpReady[0];
    HeadInTime(c, s.icpReady, now);
    SubmitTimes(c.gate, s.gate, GateBundle(r.bundle), now);
    var taken := TG.Submit(c.gate, s.gate, GateBundle(r.bundle), now);
    var s1 := s.(icpReady := s.icpReady[1..], gate := taken.0);
    var s2 := s1.(byStamp := map[r.bundle.tRef := r]);
    assert s1.byStamp[r.bundle.tRef := r] == s2.byStamp;
    var s3 := s2.(published := s2.published + [Publication(r, now, s2.mark)]);
    forall reason | reason != "" ensures Kept(c, Fail(s1, reason), b, t, n) && Kept(c, Fail(s2, reason), b, t, n)
                                         && Kept(c, Fail(s3, reason), b, t, n) {
      FailKept(c, s1, reason, b, t, n);
      FailKept(c, s2, reason, b, t, n);
      FailKept(c, s3, reason, b, t, n);
    }
    if taken.1.None? {
      ReleasedTimely(c, s, taken.0, b, t, n, now);
      SameKept(c, s2, s3, b, t, n);
    }
  }

  lemma ReleasedTimely(c: Config, s: State, gate: TG.State, b: nat, t: int, n: nat, now: int)
    requires Open(s) && Timely(c, s, b, t, n) && s.byStamp == map[] && s.icpReady != []
    requires s.icpReady[0].submitted <= now && gate.lastResult == s.gate.lastResult && gate.paused == s.gate.paused
    requires forall id :: id in gate.pending ==> gate.pending[id].received == now
    ensures var r := s.icpReady[0];
            Kept(c, s.(icpReady := s.icpReady[1..], gate := gate, byStamp := map[r.bundle.tRef := r]), b, t, n)
  {
    hide Paced, Lined, Listed, Answered;
    var r := s.icpReady[0];
    LinedReleases(s.jobs, s.icpReady, b, n);
    AnsweredReleases(s.gate, gate, r, s.jobs, b, n - |s.icpReady|, now);
    assert |map[r.bundle.tRef := r]| == 1;
  }

  lemma HeadInTime(c: Config, ready: seq<Record>, now: int)
    requires ready != [] && !AnyAged(c, ready, now)
    ensures ready[0].submitted <= now
  {
    assert ready[0] in ready;
  }

  lemma PublishKept(c: Config, s: State, b: nat, t: int, now: int, outcome: Outcome)
    requires Invariant(c, s) && Kept(c, s, b, t, |s.archive.delivered|) && Open(s)
    requires !outcome.Sent? ==> outcome.text != ""
    ensures var s' := PublishArchived(c, s, now, outcome); Kept(c, s', b, t, |s'.archive.delivered|)
  {
    hide Invariant, Kept, Collect, Fail, Release, AnyAged, Timely;
    CollectKeeps(c, s);
    CollectKept(c, s, b, t);
    var s1 := Collect(s);
    var n := |s1.archive.delivered|;
    KeptText(c, s1, b, t, n);
    FailKept(c, s1, "RAW_ARCHIVE_AGE_EXCEEDED", b, t, n);
    FailKeepsArchive(s1, "RAW_ARCHIVE_AGE_EXCEEDED");
    if !AnyAged(c, s1.icpReady, now) && s1.byStamp == map[] && s1.icpReady != [] {
      GateTakesReleased(c, s1, s1.icpReady[0].bundle);
      NotShut(c, s1, b, t, n);
      ReleaseKept(c, s1, b, t, n, now, outcome);
      ReleaseKeepsArchive(c, s1, now, outcome);
    }
  }

  lemma NotShut(c: Config, s: State, b: nat, t: int, n: nat)
    requires Kept(c, s, b, t, n) && s.icpReady != []
    ensures Open(s) && Timely(c, s, b, t, n)
  {
  }

  lemma ReleaseKeepsArchive(c: Config, s: State, now: int, outcome: Outcome)
    requires s.icpReady != []
    ensures Release(c, s, now, outcome).archive == s.archive
  {
    hide SF.Latch, TG.Pause, TG.Submit;
  }

  // ----- a closed node -----

  predicate Closed(s: State) {
    s.fusion.latched.Some? && s.gate.paused.Some? && Texts(s)
  }

  lemma FailCloses(s: State, reason: string)
    requires reason != "" && GraphText(s.graph)
    ensures Closed(Fail(s, reason))
  {
  }

  lemma {:induction false} PollClosed(s: State, results: seq<RA.ArchiveResult>)
    requires Closed(s)
    ensures Closed(PollAll(s, results))
  {
    hide Fail;
    if results != [] {
      var before, last := PollAll(s, results[..|results| - 1]), results[|results| - 1];
      PollClosed(s, results[..|results| - 1]);
      if last.error.Some? {
        FailCloses(before.(archivePending := before.archivePending - {last.key}), "RAW_ARCHIVE_FAILED:" + last.error.value);
      }
    }
  }

  lemma PublishClosed(c: Config, s: State, now: int, outcome: Outcome)
    requires Closed(s)
    ensures Closed(PublishArchived(c, s, now, outcome))
  {
    hide Fail, PollAll, AnyAged;
    PollClosed(s.(archive := RA.DoPoll(s.archive)), s.archive.results);
    var s1 := Collect(s);
    FailCloses(s1, "RAW_ARCHIVE_AGE_EXCEEDED");
    if s1.icpReady != [] {
      var r := s1.icpReady[0];
      var taken := TG.Submit(c.gate, s1.gate, GateBundle(r.bundle), now);
      assert taken == (s1.gate, Some("GATE_PAUSED:" + s1.gate.paused.value));
      FailCloses(s1.(icpReady := s1.icpReady[1..], gate := taken.0), "GATE_PAUSED:" + s1.gate.paused.value);
    }
  }

  /** Unless one is in flight and a ready one in time, publishing leaves a closed node shut. */
  lemma PublishShuts(c: Config, s: State, now: int, outcome: Outcome)
    requires Closed(s) && (s.byStamp == map[] || s.icpReady == [] || AnyAged(c, s.icpReady, now))
    ensures Shut(PublishArchived(c, s, now, outcome))
  {
    hide PublishArchived, AnyAged;
    PublishClosed(c, s, now, outcome);
    PublishLatched(c, s, now, outcome);
  }

  // ----- the tick -----

  lemma ExpireText(p: TG.Policy, g: TG.State, now: int)
    ensures var g' := TG.Expire(p, g, now);
            && (WithText(g.paused) ==> WithText(g'.paused)) && (g.paused.Some? ==> g'.paused.Some?)
            && (g.paused.None? && g'.paused.None? ==> g' == g)
  {
    hide TG.Late;
  }

  lemma FreshText(p: SF.Policy, f: SF.State, now: int)
    ensures var f' := SF.CheckFreshness(p, f, now);
            && (WithText(f.latched) ==> WithText(f'.latched)) && (f.latched.Some? ==> f' == f)
            && (f'.latched.None? ==> f' == f)
  {
    hide SF.Overdue;
  }

  /** Freshening shuts the node, closes it for both deadlines, or changes nothing. */
  lemma FreshenCases(c: Config, s: State, now: int)
    requires Shut(s) || Open(s)
    ensures var s' := Freshen(c, s, now); Shut(s') || s' == s || (Open(s) && BothOverdue(c, s, now) && Closed(s'))
  {
    hide SF.CheckFreshness, TG.Expire, Fail, SF.Overdue, TG.Late;
    FreshText(c.fusion, s.fusion, now);
    ExpireText(c.gate, s.gate, now);
    var f, g := SF.CheckFreshness(c.fusion, s.fusion, now), TG.Expire(c.gate, s.gate, now);
    var s1 := s.(fusion := f, gate := g);
    forall reason | reason != "" ensures Shut(Fail(s1, reason)) {
      FailShuts(s1, reason);
    }
    if Open(s) && f.latched.Some? && g.paused.Some? {
      MissedBoth(c, s, now);
    }
  }

  lemma MissedBoth(c: Config, s: State, now: int)
    requires Open(s) && SF.CheckFreshness(c.fusion, s.fusion, now).latched.Some? && TG.Expire(c.gate, s.gate, now).paused.Some?
    ensures BothOverdue(c, s, now)
  {
    hide SF.Overdue, TG.Late;
  }

  /** The deadlines and the publishing of a tick. */
  lemma PublishTick(c: Config, s: State, b: nat, t: int, now: int, outcome: Outcome)
    requires c.gate.timeoutNs >= 3 * c.fusion.maxAgeNs
    requires Invariant(c, s) && Kept(c, s, b, t, |s.archive.delivered|) && (!outcome.Sent? ==> outcome.text != "")
    ensures var s2 := if s.paused then s else Freshen(c, s, now);
            var s' := PublishArchived(c, s2, now, outcome);
            Kept(c, s', b, t, |s'.archive.delivered|)
  {
    hide Invariant, PublishArchived, Timely, BothOverdue, AnyAged;
    FreshenCases(c, s, now);
    var s2 := if s.paused then s else Freshen(c, s, now);
    if Shut(s2) {
      PublishShuts(c, s2, now, outcome);
    } else if s2 == s {
      PublishKept(c, s, b, t, now, outcome);
    } else {
      LatchOnly(c, s, now);
      if s.byStamp != map[] && s.icpReady != [] && !AnyAged(c, s.icpReady, now) {
        GateIsFlying(c, s);
        ReadyBoundsResult(c, s, b, t, |s.archive.delivered|, now);
        assert false by { OverdueGate(c, s, now); }
      }
      PublishShuts(c, s2, now, outcome);
    }
  }

  lemma OverdueGate(c: Config, s: State, now: int)
    requires BothOverdue(c, s, now)
    ensures GateOverdue(c, s, now)
  {
  }

  lemma GateIsFlying(c: Config, s: State)
    requires Invariant(c, s)
    ensures forall id :: id in s.gate.pending ==> exists k :: k in s.byStamp && s.byStamp[k].bundle.id == id
  {
    hide Base, Waiting, GraphOk;
  }

  lemma TickKept(c: Config, s: State, b: nat, t: int, e: Event)
    requires c.gate.timeoutNs >= 3 * c.fusion.maxAgeNs && e.Tick? && Worded(e)
    requires Invariant(c, s) && Kept(c, s, b, t, |s.archive.delivered|)
    ensures var s' := Watchdog(c, s, e.now, e.joinFault, e.outcome, e.later, e.sendFault);
            Kept(c, s', b, t, |s'.archive.delivered|)
  {
    hide Invariant, Base, Kept, Freshen, PublishArchived, DeliverGraph, Fail;
    var s1 := if !s.paused && s.fusion.latched.None? && e.joinFault.Some? then Fail(s, e.joinFault.value) else s;
    KeptText(c, s, b, t, |s.archive.delivered|);
    InvariantBase(c, s);
    if e.joinFault.Some? {
      FailKeeps(c, s, e.joinFault.value);
      FailKept(c, s, e.joinFault.value, b, t, |s.archive.delivered|);
      FailKeepsArchive(s, e.joinFault.value);
    }
    PublishTick(c, s1, b, t, e.now, e.outcome);
    var s3 := PublishArchived(c, if s1.paused then s1 else Freshen(c, s1, e.now), e.now, e.outcome);
    DeliverKept(c, s3, b, t, |s3.archive.delivered|, e.later, e.sendFault);
    DeliverKeepsArchive(c, s3, e.later, e.sendFault);
  }

  lemma DeliverKeepsArchive(c: Config, s: State, now: int, sendFault: Option<string>)
    ensures DeliverGraph(c, s, now, sendFault).archive == s.archive
  {
    hide AD.Send, SF.Latch, TG.Pause;
  }

  // ----- runs -----

  lemma HandOverKeepsArchive(c: Config, s: State, r: Record, now: int, d: Delivery)
    ensures HandOver(c, s, r, now, d).archive == s.archive
  {
    hide AD.Submit, DeliverGraph, SF.Latch, TG.Pause;
    if c.graph.Some? && s.graph.Some? {
      var g := AD.Submit(c.graph.value, s.graph.value, AD.Observation(r.bundle.id, d.rawKeys, c.odomEpoch, d.envelope));
      DeliverKeepsArchive(c, s.(graph := Some(g)), now, d.sendFault);
    }
  }

  lemma CompleteKeepsArchive(c: Config, s: State, key: int, now: int, d: Delivery)
    ensures Complete(c, s, key, now, d).archive == s.archive
  {
    hide SF.Latch, TG.Pause, AssessResult;
    if key in s.odomCache && key in s.infoCache && key in s.byStamp {
      var s1 := s.(odomCache := s.odomCache - {key}, infoCache := s.infoCache - {key});
      AssessKeepsArchive(c, s1, s.byStamp[key], s.odomCache[key], s.infoCache[key], now, d);
    }
  }

  lemma AssessKeepsArchive(c: Config, s: State, r: Record, odom: Odom, info: Info, now: int, d: Delivery)
    ensures AssessResult(c, s, r, odom, info, now, d).archive == s.archive
  {
    hide SF.Latch, TG.Pause, TG.Assess, HandOver, Judged, AD.EnsureCapacity;
    var s1 := CheckGraph(c, s);
    var s2 := s1.(gate := TG.Assess(c.gate, s1.gate, Judged(c, s1, r, odom, info), now).0);
    HandOverKeepsArchive(c, s2, r, now, d);
  }

  lemma SourceKeepsDelivered(c: Config, s: State, m: SourceMsg, now: int)
    ensures Source(c, s, m, now).archive.delivered == s.archive.delivered
  {
    hide SF.Push, SF.Latch, TG.Pause, EntryFault, Observed, KeyOf, PathOf, RA.SubmitError;
  }

  /** After a resume the node is open and holds nothing. */
  lemma ResumeKept(c: Config, s: State, b: nat, t: int, n: nat, q: Request, now: int) returns (b': nat)
    requires Kept(c, s, b, t, n) && n <= |s.jobs| && (s.fusion.latched.Some? || s.icpReady == []) && t <= now
    ensures Kept(c, Resume(c, s, q, now), b', now, n)
  {
    hide Resume, Admitted, Timely;
    ResumedFields(c, s, q, now);
    LaterKept(c, s, b, t, n, now);
    if Admitted(c, s, q, now) {
      b' := |s.jobs|;
      NothingHeld(c, Resume(c, s, q, now), now, n);
    } else {
      b' := b;
    }
  }

  lemma ResumedFields(c: Config, s: State, q: Request, now: int)
    ensures var r := Resume(c, s, q, now);
            if !Admitted(c, s, q, now) then r == s
            else && r.fusion.latched.None? && r.gate.paused.None? && !r.paused && r.graph == s.graph
                 && r.gate.pending == map[] && r.gate.lastResult.None? && r.jobs == s.jobs
                 && r.icpReady == s.icpReady && r.byStamp == map[] && r.archivePending == map[]
  {
    hide SourcesValidated, Granted;
  }

  lemma NothingHeld(c: Config, s: State, t: int, n: nat)
    requires Open(s) && n <= |s.jobs| && s.gate.pending == map[] && s.gate.lastResult.None?
    requires s.icpReady == [] && s.byStamp == map[] && s.archivePending == map[]
    ensures Kept(c, s, |s.jobs|, t, n)
  {
    assert s.jobs[n..n] == [];
  }

  lemma DeliveredBound(c: Config, s: State)
    requires Invariant(c, s)
    ensures |s.archive.delivered| <= |s.jobs|
  {
    hide RA.Invariant, TG.Invariant, GraphOk, PublishedOk, Waiting, FlyingOk;
    Delivered(s.archive);
  }

  lemma StepKept(c: Config, s: State, b: nat, t: int, e: Event) returns (b': nat)
    requires c.gate.timeoutNs >= 3 * c.fusion.maxAgeNs
    requires Invariant(c, s) && Kept(c, s, b, t, |s.archive.delivered|) && Allowed(s, t, e)
    ensures var s' := Step(c, s, e); Kept(c, s', b', Ends(e, t), |s'.archive.delivered|)
  {
    hide Invariant, Kept, Source, Complete, Watchdog, GraphAck, Resume, Fail, RA.DoWork, Admitted;
    var n := |s.archive.delivered|;
    b' := b;
    KeptText(c, s, b, t, n);
    LaterKept(c, s, b, t, n, Ends(e, t));
    match e {
      case SourceFrame(m, now) =>
        SourceKept(c, s, b, t, n, m, now);
        SourceKeepsDelivered(c, s, m, now);
      case OdomArrived(key, publisherFault, odom, now, d) =>
        if key in s.byStamp && publisherFault.Some? {
          FailKept(c, s, publisherFault.value, b, now, n);
          FailKeepsArchive(s, publisherFault.value);
        }
        var s1 := s.(odomCache := s.odomCache[key := odom]);
        CachesMove(c, s, s1);
        SameKept(c, s, s1, b, t, n);
        CompleteKept(c, s1, b, t, n, key, now, d);
        CompleteKeepsArchive(c, s1, key, now, d);
      case InfoArrived(key, info, now, d) =>
        var s1 := s.(infoCache := s.infoCache[key := info]);
        CachesMove(c, s, s1);
        SameKept(c, s, s1, b, t, n);
        CompleteKept(c, s1, b, t, n, key, now, d);
        CompleteKeepsArchive(c, s1, key, now, d);
      case Tick(now, joinFault, outcome, later, sendFault) =>
        TickKept(c, s, b, t, e);
        LaterKept(c, Step(c, s, e), b, t, |Step(c, s, e).archive.delivered|, later);
      case Acked(snapshot) =>
        GraphAckKept(c, s, b, t, n, snapshot);
        GraphAckKeepsArchive(c, s, snapshot);
      case PauseCalled =>
        FailKept(c, s.(paused := true), "EXPLICIT_PAUSE", b, t, n);
        FailKeepsArchive(s.(paused := true), "EXPLICIT_PAUSE");
      case ResumeCalled(q, now) =>
        DeliveredBound(c, s);
        b' := ResumeKept(c, s, b, t, n, q, now);
        ResumeKeepsArchive(c, s, q, now);
      case OtherFault(reason) =>
        FailKept(c, s, reason, b, t, n);
        FailKeepsArchive(s, reason);
      case ArchiveWork(answer) => ArchiveKept(c, s, b, t, RA.Work(answer));
      case FileAppears(path, file) => ArchiveKept(c, s, b, t, RA.Appear(path, file));
      case Shutdown => ArchiveKept(c, s, b, t, RA.Close);
    }
  }

  lemma GraphAckKeepsArchive(c: Config, s: State, snapshot: AD.Snapshot)
    ensures GraphAck(c, s, snapshot).archive == s.archive
  {
    hide AD.Acknowledge, SF.Latch, TG.Pause;
  }

  lemma ResumeKeepsArchive(c: Config, s: State, q: Request, now: int)
    ensures Resume(c, s, q, now).archive == s.archive
  {
    hide Admitted, TG.Resume;
  }

  lemma ArchiveKept(c: Config, s: State, b: nat, t: int, e: RA.Event)
    requires Invariant(c, s) && Kept(c, s, b, t, |s.archive.delivered|) && (e.Work? || e.Appear? || e.Close?)
    ensures var s' := s.(archive := RA.Step(s.archive, e)); Kept(c, s', b, t, |s'.archive.delivered|)
  {
    KeptText(c, s, b, t, |s.archive.delivered|);
    SameKept(c, s, s.(archive := RA.Step(s.archive, e)), b, t, |s.archive.delivered|);
    InvariantBase(c, s);
    BaseArchive(c, s);
    hide Invariant, Kept, Base, RA.Step, RA.Invariant;
    ArchiveFacts(s.archive, e);
  }

  lemma BaseArchive(c: Config, s: State)
    requires Base(c, s)
    ensures RA.Invariant(s.archive)
  {
  }

  lemma {:induction false} RunKept(c: Config, graphEpoch: Option<string>, disk: RA.Disk, t: int, events: seq<Event>)
    returns (b: nat)
    requires c.Valid() && c.gate.timeoutNs >= 3 * c.fusion.maxAgeNs
    requires Orderly(c, Start(c, graphEpoch, disk), t, events)
    ensures var s := Run(c, Start(c, graphEpoch, disk), events); Kept(c, s, b, Clock(t, events), |s.archive.delivered|)
  {
    hide Invariant, Kept, Step, Allowed, Start;
    if events == [] {
      b := 0;
      StartsKept(c, graphEpoch, disk, t);
    } else {
      var init := events[..|events| - 1];
      var b0 := RunKept(c, graphEpoch, disk, t, init);
      AlwaysConsistent(c, graphEpoch, disk, init);
      b := StepKept(c, Run(c, Start(c, graphEpoch, disk), init), b0, Clock(t, init), events[|events| - 1]);
    }
  }

  lemma StartsKept(c: Config, graphEpoch: Option<string>, disk: RA.Disk, t: int)
    ensures Kept(c, Start(c, graphEpoch, disk), 0, t, 0) && Start(c, graphEpoch, disk).archive.delivered == []
  {
    hide Kept;
    NothingHeld(c, Start(c, graphEpoch, disk), t, 0);
  }

  /**
   In every orderly run under the bound, a latched node has nothing ready, and a running one with a
   bundle in flight and a ready one in time never finds its result overdue: the state that lets a
   bundle outlive a latch is not reachable.
   */
  lemma LatchedHoldsNothing(c: Config, graphEpoch: Option<string>, disk: RA.Disk, t: int, events: seq<Event>, now: int)
    requires c.Valid() && c.gate.timeoutNs >= 3 * c.fusion.maxAgeNs
    requires Orderly(c, Start(c, graphEpoch, disk), t, events)
    ensures var s := Run(c, Start(c, graphEpoch, disk), events);
            && (s.fusion.latched.Some? ==> s.icpReady == [])
            && !(BothOverdue(c, s, now) && s.byStamp != map[] && s.icpReady != [] && !AnyAged(c, s.icpReady, now))
  {
    var s := Run(c, Start(c, graphEpoch, disk), events);
    var b := RunKept(c, graphEpoch, disk, t, events);
    AlwaysConsistent(c, graphEpoch, disk, events);
    hide Run, Start, Invariant, Timely, AnyAged, Orderly, GateOverdue, SF.Overdue;
    GateIsFlying(c, s);
    if s.fusion.latched.None? && s.byStamp != map[] && s.icpReady != [] && !AnyAged(c, s.icpReady, now) {
      NotShut(c, s, b, Clock(t, events), |s.archive.delivered|);
      ReadyBoundsResult(c, s, b, Clock(t, events), |s.archive.delivered|, now);
    }
  }

  /** So there, once the node is latched in whatever way, nothing fused before is ever published. */
  lemma NothingOldOnceLatched(c: Config, graphEpoch: Option<string>, disk: RA.Disk, t: int, events: seq<Event>, more: seq<Event>)
    requires c.Valid() && c.gate.timeoutNs >= 3 * c.fusion.maxAgeNs
    requires Orderly(c, Start(c, graphEpoch, disk), t, events)
    requires Run(c, Start(c, graphEpoch, disk), events).fusion.latched.Some?
    ensures var s := Run(c, Start(c, graphEpoch, disk), events);
            var end := Run(c, s, more);
            forall i :: |s.published| <= i < |end.published| ==> end.published[i].record.bundle.id > s.fusion.bundleCounter
  {
    hide Run, Start, Orderly;
    LatchedHoldsNothing(c, graphEpoch, disk, t, events, t);
    NothingOldAfterLatch(c, Run(c, Start(c, graphEpoch, disk), events), more);
  }
}
