/**
 What the mapping front end does with the bundles it fuses: as long as nothing disturbs it, every
 bundle is archived, becomes ready and is published, one after the other in the order of fusion
 (`FusionNode` in src/wc_fusion/ros_node.py).
 */
module FrontEndFlow {
  import opened Common
  import opened Decimals
  import opened FrontEnd
  import FES = FrontEndSafety
  import FEA = FrontEndAnswers
  import SF = SourceFusion
  import RA = RawArchive
  import TG = TrackingGate
  import AD = AckedDelivery

  // ----- the line of bundles -----

  function Out(published: seq<Publication>): seq<Record> {
    if published == [] then [] else Out(published[..|published| - 1]) + [published[|published| - 1].record]
  }

  /** The bundles newer than the last `fail()`. */
  function Above(jobs: seq<Record>, mark: nat): seq<Record> {
    if jobs == [] then [] else (if jobs[0].bundle.id > mark then [jobs[0]] else []) + Above(jobs[1..], mark)
  }

  /** Published, ready, and with the archive: the jobs from number `n` on. */
  function LineAt(s: State, n: nat): seq<Record>
    requires n <= |s.jobs|
  {
    Out(s.published) + s.icpReady + Above(s.jobs[n..], s.mark)
  }

  /** Each of these jobs newer than the last `fail()` is waited for under its key. */
  ghost predicate AwaitedAt(s: State, n: nat) {
    forall i :: n <= i < |s.jobs| && s.jobs[i].bundle.id > s.mark ==>
      KeyOf(s.jobs[i].bundle.id) in s.archivePending && s.archivePending[KeyOf(s.jobs[i].bundle.id)] == s.jobs[i]
  }

  ghost predicate Awaited(s: State) {
    |s.archive.delivered| <= |s.jobs| && AwaitedAt(s, |s.archive.delivered|)
  }

  /** All bundles on their way since the last `fail()`, behind all that were published. */
  function Line(s: State): seq<Record>
    requires |s.archive.delivered| <= |s.jobs|
  {
    LineAt(s, |s.archive.delivered|)
  }

  predicate Running(s: State) {
    !s.paused && s.fusion.latched.None?
  }

  lemma {:induction false} AboveAppend(jobs: seq<Record>, mark: nat, r: Record)
    ensures Above(jobs + [r], mark) == Above(jobs, mark) + if r.bundle.id > mark then [r] else []
  {
    if jobs == [] {
      assert [r][1..] == [] && [] + [r] == [r];
    } else {
      AboveAppend(jobs[1..], mark, r);
      assert (jobs + [r])[0] == jobs[0] && (jobs + [r])[1..] == jobs[1..] + [r];
      var first: seq<Record> := if jobs[0].bundle.id > mark then [jobs[0]] else [];
      assert Above(jobs + [r], mark) == first + Above(jobs[1..] + [r], mark);
    }
  }

  lemma OutAppend(published: seq<Publication>, p: Publication)
    ensures Out(published + [p]) == Out(published) + [p.record]
  {
    assert (published + [p])[..|published|] == published;
  }

  // ----- polling -----

  lemma BeforePoll(c: Config, s: State, n: nat)
    requires FES.Partial(c, s, n) && n < |s.archive.delivered|
    ensures n < |s.jobs| && s.archive.delivered[n].key == KeyOf(s.jobs[n].bundle.id)
    ensures var key := KeyOf(s.jobs[n].bundle.id);
            key in s.archivePending ==> s.archivePending[key] == s.jobs[n] && s.jobs[n].bundle.id > s.mark
    ensures forall i :: n < i < |s.jobs| ==> s.jobs[n].bundle.id < s.jobs[i].bundle.id
  {
    hide FES.Base, FES.GraphOk, FES.FlyingOk, FES.PendingOk, FES.ReadyOk, FES.Fresh, KeyOf;
    FES.PartialBase(c, s, n);
    FES.DeliveredKey(c, s, n);
    FES.BaseJobs(c, s);
    FES.PendingShrinks(s.archivePending, s.jobs, s.archive.submitted, s.fusion.bundleCounter, n);
  }

  lemma LineMoves(out: seq<Record>, ready: seq<Record>, jobs: seq<Record>, n: nat, mark: nat)
    requires n < |jobs|
    ensures jobs[n].bundle.id > mark ==> out + (ready + [jobs[n]]) + Above(jobs[n + 1..], mark) == out + ready + Above(jobs[n..], mark)
    ensures jobs[n].bundle.id <= mark ==> Above(jobs[n + 1..], mark) == Above(jobs[n..], mark)
  {
    assert jobs[n..][1..] == jobs[n + 1..] && jobs[n..][0] == jobs[n];
  }

  lemma AwaitedNext(s: State, s': State, n: nat)
    requires AwaitedAt(s, n) && n < |s.jobs| && s'.jobs == s.jobs && s'.mark == s.mark
    requires s'.archivePending == s.archivePending - {KeyOf(s.jobs[n].bundle.id)}
    requires forall i :: n < i < |s.jobs| ==> s.jobs[n].bundle.id < s.jobs[i].bundle.id
    ensures AwaitedAt(s', n + 1)
  {
    hide KeyOf;
    forall i | n + 1 <= i < |s.jobs| && s.jobs[i].bundle.id > s.mark
      ensures KeyOf(s.jobs[i].bundle.id) in s'.archivePending && s'.archivePending[KeyOf(s.jobs[i].bundle.id)] == s.jobs[i]
    {
      KeysDiffer(s.jobs[i].bundle.id, s.jobs[n].bundle.id);
    }
  }

  lemma NoneAwaited(s: State, n: nat)
    requires AwaitedAt(s, n) && n < |s.jobs| && KeyOf(s.jobs[n].bundle.id) !in s.archivePending
    ensures s.jobs[n].bundle.id <= s.mark
  {
  }

  /** One polled success moves its bundle from the archive to the ready ones, in place. */
  lemma PollOneLine(c: Config, s: State, n: nat)
    requires FES.Partial(c, s, n) && n < |s.archive.delivered| && AwaitedAt(s, n) && Running(s)
    requires PollOne(s, s.archive.delivered[n]).failures == s.failures
    ensures n < |s.jobs|
    ensures var s' := PollOne(s, s.archive.delivered[n]);
            && AwaitedAt(s', n + 1) && LineAt(s', n + 1) == LineAt(s, n) && Running(s')
            && s'.jobs == s.jobs && s'.published == s.published && s'.fusion == s.fusion && s'.byStamp == s.byStamp
            && s'.mark == s.mark && s'.gate == s.gate && s'.graph == s.graph && s'.archive == s.archive
  {
    hide FES.Partial, Fail, KeyOf, AwaitedAt, Out, Above;
    BeforePoll(c, s, n);
    var r, job := s.archive.delivered[n], s.jobs[n];
    if r.error.Some? {
      FEA.FailQuiet(s.(archivePending := s.archivePending - {r.key}), "RAW_ARCHIVE_FAILED:" + r.error.value);
    }
    var s' := PollOne(s, r);
    LineMoves(Out(s.published), s.icpReady, s.jobs, n, s.mark);
    AwaitedNext(s, s', n);
    if r.key !in s.archivePending {
      NoneAwaited(s, n);
    }
  }

  lemma KeysDiffer(a: nat, b: nat)
    requires a != b
    ensures KeyOf(a) != KeyOf(b)
  {
    DigitsDiffer(a, b);
  }

  lemma PollLeavesOut(s: State, r: RA.ArchiveResult)
    ensures s.failures <= PollOne(s, r).failures
  {
    FEA.PollOneQuiet(s, r);
  }

  lemma {:induction false} PollAllLine(c: Config, s: State, n: nat, results: seq<RA.ArchiveResult>)
    requires FES.Partial(c, s, n) && FES.Before(s, n) && n + |results| <= |s.archive.delivered|
    requires forall i :: 0 <= i < |results| ==> results[i] == s.archive.delivered[n + i]
    requires n <= |s.jobs| && AwaitedAt(s, n) && Running(s) && PollAll(s, results).failures == s.failures
    ensures var s' := PollAll(s, results);
            && n + |results| <= |s'.jobs| && AwaitedAt(s', n + |results|) && LineAt(s', n + |results|) == LineAt(s, n) && Running(s')
            && s'.jobs == s.jobs && s'.published == s.published && s'.fusion == s.fusion && s'.byStamp == s.byStamp
            && s'.mark == s.mark && s'.gate == s.gate && s'.graph == s.graph && s'.archive == s.archive
            && FES.Partial(c, s', n + |results|) && FES.Before(s', n + |results|)
  {
    hide FES.Partial, FES.Before, PollOne, AwaitedAt, LineAt;
    if results != [] {
      var most, last := results[..|results| - 1], results[|results| - 1];
      var before := PollAll(s, most);
      FEA.PollQuiet(s, most);
      PollLeavesOut(before, last);
      PollAllLine(c, s, n, most);
      FES.PollOneKeeps(c, before, n + |most|);
      PollOneLine(c, before, n + |most|);
    }
  }

  lemma CollectLine(c: Config, s: State)
    requires FES.Invariant(c, s) && Awaited(s) && Running(s) && Collect(s).failures == s.failures
    ensures var s' := Collect(s);
            && Awaited(s') && Line(s') == Line(s) && Running(s')
            && s'.jobs == s.jobs && s'.published == s.published && s'.fusion == s.fusion && s'.byStamp == s.byStamp
            && s'.mark == s.mark && s'.gate == s.gate && s'.graph == s.graph && s'.archive == RA.DoPoll(s.archive)
            && FES.Invariant(c, s')
  {
    hide FES.Invariant, FES.Partial, FES.Before, PollAll, LineAt, AwaitedAt, RA.DoPoll;
    FES.PollDelivers(s.archive);
    FES.PollStarts(c, s);
    FES.BeforePolling(c, s);
    FES.CollectKeeps(c, s);
    var polled := s.(archive := RA.DoPoll(s.archive));
    FES.BeforeSame(s, polled);
    var n := |s.archive.delivered|;
    SameLine(s, polled, n);
    PollAllLine(c, polled, n, s.archive.results);
  }

  lemma SameLine(s: State, s': State, n: nat)
    requires n <= |s.jobs| && s'.jobs == s.jobs && s'.published == s.published && s'.icpReady == s.icpReady
    requires s'.mark == s.mark && s'.archivePending == s.archivePending
    ensures LineAt(s', n) == LineAt(s, n) && (AwaitedAt(s', n) <==> AwaitedAt(s, n))
  {
  }

  // ----- one undisturbed step -----

  /** One more bundle is fused and enters the line, or none; everything else keeps its place. */
  ghost predicate Flows(s: State, s': State) {
    && Awaited(s) && Awaited(s') && Running(s')
    && s.jobs <= s'.jobs && s.fusion.emitted <= s'.fusion.emitted && s.published <= s'.published
    && Line(s') == Line(s) + s'.jobs[|s.jobs|..]
    && |s'.jobs| - |s.jobs| == |s'.fusion.emitted| - |s.fusion.emitted|
    && forall i :: |s.jobs| <= i < |s'.jobs| ==> s'.jobs[i].bundle == s'.fusion.emitted[|s.fusion.emitted| + i - |s.jobs|]
  }

  /** What the line is made of, and what the fusion has emitted, stays. */
  ghost predicate SameFlow(s: State, s': State) {
    && s'.jobs == s.jobs && s'.published == s.published && s'.icpReady == s.icpReady && s'.mark == s.mark
    && s'.archivePending == s.archivePending && s'.archive.delivered == s.archive.delivered
    && s'.fusion.emitted == s.fusion.emitted && Running(s')
  }

  lemma SameFlows(s: State, s': State)
    requires Awaited(s) && SameFlow(s, s')
    ensures Flows(s, s')
  {
    SameLine(s, s', |s.archive.delivered|);
    assert s'.jobs[|s.jobs|..] == [];
  }

  /** The jobs are as many as the archive was given, and no more have been answered. */
  lemma JobsMatch(c: Config, s: State)
    requires FES.Invariant(c, s)
    ensures |s.archive.delivered| <= |s.jobs| == |s.archive.submitted|
    ensures s.mark <= s.fusion.bundleCounter
  {
    hide TG.Invariant, FES.PublishedOk, FES.GraphOk, FES.Waiting, FES.FlyingOk, RA.InOrder, RA.WorkerOk, RA.ResultsOk;
  }

  lemma EnterFlows(s: State, r: Record)
    requires Awaited(s) && Running(s) && r.bundle.id > s.mark && RA.SubmitError(s.archive, KeyOf(r.bundle.id), PathOf(r.bundle.id), r.payload).None?
    requires forall i :: 0 <= i < |s.jobs| ==> s.jobs[i].bundle.id != r.bundle.id
    ensures var s' := Enter(s, r); Awaited(s') && Line(s') == Line(s) + [r]
  {
    hide KeyOf, PathOf, RA.SubmitError, Above, Out;
    var s', n := Enter(s, r), |s.archive.delivered|;
    assert s'.jobs[n..] == s.jobs[n..] + [r];
    AboveAppend(s.jobs[n..], s.mark, r);
    forall i | n <= i < |s.jobs| ensures KeyOf(s.jobs[i].bundle.id) != KeyOf(r.bundle.id) {
      KeysDiffer(s.jobs[i].bundle.id, r.bundle.id);
    }
  }

  lemma PairEmits(p: SF.Policy, s: SF.State, fault: Option<string>, now: int)
    ensures var (s', reply) := SF.Pair(p, s, fault, now);
            if reply.Fused? then s'.emitted == s.emitted + [reply.bundle] else s'.emitted == s.emitted
    ensures SF.Pair(p, s, fault, now).1.Raised? || SF.Pair(p, s, fault, now).0.latched == s.latched
  {
    hide SF.FindPair;
  }

  /** A push hands out exactly the bundles it puts on record, and latches only when it raises. */
  lemma PushEmits(p: SF.Policy, s: SF.State, f: SF.Frame, fault: Option<string>, now: int)
    requires s.latched.None?
    ensures var (s', reply) := SF.Push(p, s, f, fault, now);
            && (if reply.Fused? then s'.emitted == s.emitted + [reply.bundle] else s'.emitted == s.emitted)
            && (!reply.Raised? ==> s'.latched.None?)
  {
    hide SF.Check, SF.CheckFreshness, SF.Pair, SF.Insert, SF.Bounded;
    SF.CheckKeepsQueues(p, s, f, now);
    var c := SF.Check(p, s, f, now);
    var s0 := SF.Arrive(c.s, f, now);
    FreshnessEmits(p, s0, now);
    PairEmits(p, SF.Enqueue(p, SF.CheckFreshness(p, s0, now), f), fault, now);
  }

  lemma FreshnessEmits(p: SF.Policy, s: SF.State, now: int)
    ensures SF.CheckFreshness(p, s, now).emitted == s.emitted
    ensures SF.CheckFreshness(p, s, now).latched.None? ==> SF.CheckFreshness(p, s, now) == s
  {
    hide SF.Overdue;
  }

  lemma ArchiveBundleFlows(c: Config, s: State, b: SF.Bundle, m: SourceMsg, now: int)
    requires Awaited(s) && Running(s) && s.mark < b.id && (forall i :: 0 <= i < |s.jobs| ==> s.jobs[i].bundle.id < b.id)
    requires ArchiveBundle(c, s, b, m, now).failures == s.failures
    ensures var s', r := ArchiveBundle(c, s, b, m, now), Record(b, m.payload, now, |s.jobs|);
            && Awaited(s') && Line(s') == Line(s) + [r] && s'.jobs == s.jobs + [r] && Running(s')
            && s'.published == s.published && s'.fusion == s.fusion
  {
    hide Fail, EntryFault, KeyOf, PathOf, RA.SubmitError, LineAt, AwaitedAt;
    var fault := EntryFault(c, s, b, m);
    if fault.Some? {
      FEA.FailQuiet(s, fault.value);
    } else {
      FES.EntryAllowed(c, s, b, m);
      EnterFlows(s, Record(b, m.payload, now, |s.jobs|));
    }
  }

  lemma TakeFrameFlows(c: Config, s: State, m: SourceMsg, now: int)
    requires FES.Invariant(c, s) && Awaited(s) && Running(s) && TakeFrame(c, s, m, now).failures == s.failures
    ensures Flows(s, TakeFrame(c, s, m, now))
  {
    hide FES.Invariant, SF.Push, Fail, ArchiveBundle, LineAt, AwaitedAt;
    var s' := TakeFrame(c, s, m, now);
    JobsMatch(c, s);
    FES.OlderJobs(c, s);
    PushEmits(c.fusion, s.fusion, m.frame, m.fuseFault, now);
    FES.PushCounter(c.fusion, s.fusion, m.frame, m.fuseFault, now);
    var pushed := SF.Push(c.fusion, s.fusion, m.frame, m.fuseFault, now);
    var s1 := s.(fusion := pushed.0);
    if m.decodeFault.Some? {
      FEA.FailQuiet(s, m.decodeFault.value);
    } else {
      SameLine(s, s1, |s.archive.delivered|);
      match pushed.1 {
        case Raised(reason) => FEA.FailQuiet(s1, reason);
        case Nothing => SameFlows(s, s1);
        case Fused(b) =>
          ArchiveBundleFlows(c, s1, b, m, now);
          assert s'.jobs[|s.jobs|..] == [Record(b, m.payload, now, |s.jobs|)];
      }
    }
  }

  lemma FlowsCarry(s: State, s1: State, s': State)
    requires Awaited(s) && SameFlow(s, s1) && Flows(s1, s')
    ensures Flows(s, s')
  {
    hide LineAt, AwaitedAt;
    SameLine(s, s1, |s.archive.delivered|);
  }

  lemma SourceFlows(c: Config, s: State, m: SourceMsg, now: int)
    requires FES.Invariant(c, s) && Awaited(s) && Running(s) && Source(c, s, m, now).failures == s.failures
    ensures Flows(s, Source(c, s, m, now))
  {
    hide FES.Invariant, TakeFrame, Fail, Observed, Flows, Awaited;
    FEA.FailQuiet(s, "SOURCE_SIDE_INVALID");
    if m.clockFault.Some? {
      FEA.FailQuiet(s, m.clockFault.value);
    }
    if m.sideOk && m.clockFault.None? {
      var seen := s.(watch := Observed(c, s.watch, m, now));
      FES.CachesMove(c, s, seen);
      SameFlows(s, seen);
      AwaitedCarries(s, seen);
      TakeFrameFlows(c, seen, m, now);
      FlowsCarry(s, seen, Source(c, s, m, now));
    }
  }

  lemma AwaitedCarries(s: State, s': State)
    requires Awaited(s) && SameFlow(s, s')
    ensures Awaited(s')
  {
    SameLine(s, s', |s.archive.delivered|);
  }

  // ----- results, ticks and the rest -----

  /** A `fail()` was called, or the line and the fusion are as they were. */
  ghost predicate FailsOrStays(s: State, s': State) {
    s.failures < s'.failures || (s'.failures == s.failures && (Running(s) ==> SameFlow(s, s')))
  }

  lemma FailFails(s: State, s1: State, reason: string)
    requires s1.failures == s.failures
    ensures FailsOrStays(s, Fail(s1, reason))
  {
    FEA.FailQuiet(s1, reason);
    hide Fail;
  }

  lemma DeliverStays(c: Config, s: State, now: int, sendFault: Option<string>)
    ensures FailsOrStays(s, DeliverGraph(c, s, now, sendFault))
  {
    hide Fail, AD.Send;
    if c.graph.Some? && s.graph.Some? {
      var s1 := s.(graph := Some(AD.Send(c.graph.value, s.graph.value, now).0));
      forall reason ensures FailsOrStays(s, Fail(s1, reason)) {
        FailFails(s, s1, reason);
      }
    }
  }

  lemma HandOverStays(c: Config, s: State, r: Record, now: int, d: Delivery)
    ensures FailsOrStays(s, HandOver(c, s, r, now, d))
  {
    hide Fail, AD.Submit, DeliverGraph;
    if c.graph.Some? && s.graph.Some? {
      var g := AD.Submit(c.graph.value, s.graph.value, AD.Observation(r.bundle.id, d.rawKeys, c.odomEpoch, d.envelope));
      var s1 := s.(graph := Some(g));
      if g.failure.Some? {
        FailFails(s, s1, g.failure.value);
      }
      DeliverStays(c, s1, now, d.sendFault);
    }
  }

  lemma AssessStays(c: Config, s: State, r: Record, odom: Odom, info: Info, now: int, d: Delivery)
    ensures FailsOrStays(s, AssessResult(c, s, r, odom, info, now, d))
  {
    hide Fail, HandOver, AD.EnsureCapacity, TG.Assess, Judged;
    var s1 := CheckGraph(c, s);
    var s2 := s1.(gate := TG.Assess(c.gate, s1.gate, Judged(c, s1, r, odom, info), now).0);
    forall reason ensures FailsOrStays(s, Fail(s1, reason)) && FailsOrStays(s, Fail(s2, reason)) {
      FailFails(s, s1, reason);
      FailFails(s, s2, reason);
    }
    HandOverStays(c, s2, r, now, d);
  }

  lemma CompleteStays(c: Config, s: State, key: int, now: int, d: Delivery)
    ensures FailsOrStays(s, Complete(c, s, key, now, d))
  {
    hide Fail, AssessResult;
    if key in s.odomCache && key in s.infoCache && key in s.byStamp {
      var s1 := s.(odomCache := s.odomCache - {key}, infoCache := s.infoCache - {key});
      forall reason ensures FailsOrStays(s, Fail(s1, reason)) {
        FailFails(s, s1, reason);
      }
      AssessStays(c, s1, s.byStamp[key], s.odomCache[key], s.infoCache[key], now, d);
    }
  }

  lemma AckStays(c: Config, s: State, snapshot: AD.Snapshot)
    ensures FailsOrStays(s, GraphAck(c, s, snapshot))
  {
    hide Fail, AD.Acknowledge;
    if c.graph.Some? && s.graph.Some? {
      var s1 := s.(graph := Some(AD.Acknowledge(c.graph.value, s.graph.value, snapshot)));
      forall reason ensures FailsOrStays(s, Fail(s1, reason)) {
        FailFails(s, s1, reason);
      }
    }
  }

  /** The oldest ready bundle, if it is released, is the next one published. */
  lemma ReleaseLine(c: Config, s: State, now: int, outcome: Outcome)
    requires Awaited(s) && Running(s) && s.icpReady != [] && Release(c, s, now, outcome).failures == s.failures
    ensures var s' := Release(c, s, now, outcome);
            && s'.published == s.published + [Publication(s.icpReady[0], now, s.mark)] && s'.icpReady == s.icpReady[1..]
            && s'.byStamp == s.byStamp[s.icpReady[0].bundle.tRef := s.icpReady[0]]
            && s'.fusion == s.fusion && s'.jobs == s.jobs && s'.archive == s.archive && s'.graph == s.graph
            && Running(s') && Awaited(s') && Line(s') == Line(s)
  {
    hide Fail, TG.Submit, Above, Out;
    var r := s.icpReady[0];
    var s1 := s.(icpReady := s.icpReady[1..], gate := TG.Submit(c.gate, s.gate, GateBundle(r.bundle), now).0);
    var s2 := s1.(byStamp := s1.byStamp[r.bundle.tRef := r]);
    var s3 := s2.(published := s2.published + [Publication(r, now, s2.mark)]);
    forall reason ensures Fail(s1, reason).failures > s.failures && Fail(s2, reason).failures > s.failures
                          && Fail(s3, reason).failures > s.failures
    {
      FEA.FailQuiet(s1, reason);
      FEA.FailQuiet(s2, reason);
      FEA.FailQuiet(s3, reason);
    }
    OutAppend(s.published, Publication(r, now, s.mark));
    assert s.icpReady == [r] + s.icpReady[1..];
  }

  /**
   What a tick without a fault does to a running node: the results are polled, and then, when none was
   in flight, the oldest ready bundle is published, if there is one; no ready one is too old.
   */
  ghost predicate Released(c: Config, s: State, s1: State, s': State, now: int) {
    && s1.archive == RA.DoPoll(s.archive) && s'.archive == s1.archive
    && (forall i :: 0 <= i < |s1.icpReady| ==> 0 <= now - s1.icpReady[i].submitted <= c.fusion.maxAgeNs)
    && if s.byStamp == map[] && s1.icpReady != [] then
         s'.published == s.published + [Publication(s1.icpReady[0], now, s.mark)] && s'.icpReady == s1.icpReady[1..]
         && s'.byStamp == map[s1.icpReady[0].bundle.tRef := s1.icpReady[0]]
       else s'.published == s.published && s'.icpReady == s1.icpReady && s'.byStamp == s.byStamp
  }

  lemma PublishFlows(c: Config, s: State, now: int, outcome: Outcome)
    requires FES.Invariant(c, s) && Awaited(s) && Running(s) && PublishArchived(c, s, now, outcome).failures == s.failures
    ensures var s' := PublishArchived(c, s, now, outcome);
            && Awaited(s') && Running(s') && Line(s') == Line(s) && s'.jobs == s.jobs && s'.fusion == s.fusion
            && s.published <= s'.published && s'.graph == s.graph && Released(c, s, Collect(s), s', now)
  {
    hide FES.Invariant, Collect, Fail, Release, Awaited, LineAt;
    FEA.PollQuiet(s.(archive := RA.DoPoll(s.archive)), s.archive.results);
    CollectQuiet(s);
    var s1 := Collect(s);
    FEA.FailQuiet(s1, "RAW_ARCHIVE_AGE_EXCEEDED");
    if s1.icpReady != [] {
      FEA.ReleaseQuiet(c, s1, now, outcome);
    }
    CollectLine(c, s);
    if AnyAged(c, s1.icpReady, now) {
    } else {
      NoneAged(c, s1.icpReady, now);
      if s1.byStamp == map[] && s1.icpReady != [] {
        ReleaseLine(c, s1, now, outcome);
        assert s1.byStamp[s1.icpReady[0].bundle.tRef := s1.icpReady[0]] == map[s1.icpReady[0].bundle.tRef := s1.icpReady[0]];
      }
    }
  }

  lemma CollectQuiet(s: State)
    ensures s.failures <= Collect(s).failures
  {
    FEA.PollQuiet(s.(archive := RA.DoPoll(s.archive)), s.archive.results);
    hide PollAll;
  }

  lemma NoneAged(c: Config, ready: seq<Record>, now: int)
    requires !AnyAged(c, ready, now)
    ensures forall i :: 0 <= i < |ready| ==> 0 <= now - ready[i].submitted <= c.fusion.maxAgeNs
  {
    forall i | 0 <= i < |ready| ensures 0 <= now - ready[i].submitted <= c.fusion.maxAgeNs {
      assert ready[i] in ready && !Aged(c, ready[i], now);
    }
  }

  /** The deadlines latch, or `fail()` is called, or they leave the fusion and the line alone. */
  lemma FreshenStays(c: Config, s: State, now: int)
    requires Running(s)
    ensures var s' := Freshen(c, s, now);
            s.failures < s'.failures
            || (s'.failures == s.failures && s' == s.(fusion := s'.fusion, gate := s'.gate)
                && (s'.fusion.latched.None? ==> s'.fusion == s.fusion && SameFlow(s, s')))
  {
    hide Fail, SF.CheckFreshness, TG.Expire;
    FreshnessEmits(c.fusion, s.fusion, now);
    var s1 := s.(fusion := SF.CheckFreshness(c.fusion, s.fusion, now), gate := TG.Expire(c.gate, s.gate, now));
    forall reason ensures Fail(s1, reason).failures > s.failures {
      FEA.FailQuiet(s1, reason);
    }
  }

  lemma LatchStays(c: Config, s: State, now: int, outcome: Outcome)
    requires s.fusion.latched.Some?
    ensures var s' := PublishArchived(c, s, now, outcome);
            s'.failures == s.failures ==> s'.fusion.latched.Some?
  {
    hide Fail, PollAll, Release;
    CollectQuiet(s);
    var s1 := Collect(s);
    CollectLatch(s, s.archive.results);
    FEA.FailQuiet(s1, "RAW_ARCHIVE_AGE_EXCEEDED");
    if s1.icpReady != [] {
      ReleaseLatch(c, s1, now, outcome);
    }
  }

  lemma ReleaseLatch(c: Config, s: State, now: int, outcome: Outcome)
    requires s.icpReady != []
    ensures var s' := Release(c, s, now, outcome);
            s.failures <= s'.failures && (s'.failures == s.failures ==> s'.fusion == s.fusion)
  {
    hide Fail, TG.Submit;
    var r := s.icpReady[0];
    var s1 := s.(icpReady := s.icpReady[1..], gate := TG.Submit(c.gate, s.gate, GateBundle(r.bundle), now).0);
    var s2 := s1.(byStamp := s1.byStamp[r.bundle.tRef := r]);
    var s3 := s2.(published := s2.published + [Publication(r, now, s2.mark)]);
    forall reason ensures Fail(s1, reason).failures > s.failures && Fail(s2, reason).failures > s.failures
                          && Fail(s3, reason).failures > s.failures
    {
      FEA.FailQuiet(s1, reason);
      FEA.FailQuiet(s2, reason);
      FEA.FailQuiet(s3, reason);
    }
  }

  lemma {:induction false} CollectLatch(s: State, results: seq<RA.ArchiveResult>)
    ensures var s' := PollAll(s.(archive := RA.DoPoll(s.archive)), results);
            s.failures <= s'.failures && (s'.failures == s.failures ==> s'.fusion == s.fusion)
  {
    hide Fail;
    if results != [] {
      CollectLatch(s, results[..|results| - 1]);
      var before, last := PollAll(s.(archive := RA.DoPoll(s.archive)), results[..|results| - 1]), results[|results| - 1];
      if last.error.Some? {
        FEA.FailQuiet(before.(archivePending := before.archivePending - {last.key}), "RAW_ARCHIVE_FAILED:" + last.error.value);
      }
    }
  }

  /** The archive's results are taken: the line is the same, with more of it ready. */
  ghost predicate Polled(s: State, s1: State)
    requires Awaited(s)
  {
    && s1.jobs == s.jobs && s1.published == s.published && s1.mark == s.mark && s1.archive == RA.DoPoll(s.archive)
    && Awaited(s1) && Line(s1) == Line(s)
  }

  /**
   A tick that calls no `fail()` and leaves the node running polls the archive and releases at most one
   bundle, exactly the oldest ready one when none is in flight; then the graph's head is sent exactly
   when it is due, and none is overdue.
   */
  ghost predicate Ticked(c: Config, s: State, s': State, now: int, later: int)
    requires Awaited(s)
  {
    && (exists s1 :: Released(c, s, s1, s', now) && Polled(s, s1))
    && (c.graph.Some? && s.graph.Some? && s'.graph.Some? && s.graph.value.failure.None? ==>
          !AD.SendLate(c.graph.value, s.graph.value, later)
          && (|s'.graph.value.sent| > |s.graph.value.sent| <==> AD.SendDue(c.graph.value, s.graph.value, later)))
  }

  lemma DeliverSends(c: Config, s: State, now: int, sendFault: Option<string>)
    requires c.Valid() && c.graph.Some? && s.graph.Some? && s.graph.value.failure.None?
    requires AD.Invariant(c.graph.value, s.graph.value)
    ensures var s' := DeliverGraph(c, s, now, sendFault);
            s'.failures == s.failures ==>
              s'.graph.Some? && !AD.SendLate(c.graph.value, s.graph.value, now)
              && (|s'.graph.value.sent| > |s.graph.value.sent| <==> AD.SendDue(c.graph.value, s.graph.value, now))
  {
    hide AD.Send, AD.SendLate, AD.SendDue, AD.Invariant, Fail;
    AD.SendsExactly(c.graph.value, s.graph.value, now);
    AD.SendsOrKeeps(c.graph.value, s.graph.value, now);
    var s1 := s.(graph := Some(AD.Send(c.graph.value, s.graph.value, now).0));
    forall reason ensures Fail(s1, reason).failures > s.failures {
      FEA.FailQuiet(s1, reason);
    }
  }

  lemma DeliverKeepsLine(c: Config, s: State, now: int, sendFault: Option<string>)
    ensures var s' := DeliverGraph(c, s, now, sendFault);
            s.failures <= s'.failures && (s'.failures == s.failures ==> s' == s.(graph := s'.graph))
  {
    hide Fail, AD.Send;
    if c.graph.Some? && s.graph.Some? {
      var s1 := s.(graph := Some(AD.Send(c.graph.value, s.graph.value, now).0));
      forall reason ensures Fail(s1, reason).failures > s.failures {
        FEA.FailQuiet(s1, reason);
      }
    }
  }

  /** Before the releases a tick changes nothing that matters to them. */
  lemma FirstHalf(c: Config, s: State, now: int, joinFault: Option<string>)
    requires FES.Invariant(c, s) && Awaited(s) && Running(s)
    ensures var s1 := if joinFault.Some? then Fail(s, joinFault.value) else s;
            var s2 := if s1.paused then s1 else Freshen(c, s1, now);
            s.failures <= s2.failures
            && (s2.failures == s.failures ==>
                  joinFault.None? && s2 == s.(fusion := s2.fusion, gate := s2.gate) && FES.Invariant(c, s2)
                  && (s2.fusion.latched.None? ==> s2.fusion == s.fusion && SameFlow(s, s2)))
  {
    hide FES.Invariant, Freshen, Fail, Awaited;
    if joinFault.Some? {
      FEA.FailQuiet(s, joinFault.value);
      FEA.FreshenQuiet(c, Fail(s, joinFault.value), now);
    } else {
      FreshenStays(c, s, now);
      FES.FreshenKeeps(c, s, now);
    }
  }

  lemma TickFlows(c: Config, s: State, now: int, joinFault: Option<string>, outcome: Outcome, later: int, sendFault: Option<string>)
    requires FES.Invariant(c, s) && Awaited(s) && Running(s)
    requires var s' := Watchdog(c, s, now, joinFault, outcome, later, sendFault);
             s'.failures == s.failures && s'.fusion.latched.None?
    ensures var s' := Watchdog(c, s, now, joinFault, outcome, later, sendFault);
            Flows(s, s') && Ticked(c, s, s', now, later)
  {
    hide FES.Invariant, Freshen, PublishArchived, DeliverGraph, Fail, Awaited, LineAt, Collect, Released, AD.SendLate, AD.SendDue;
    FirstHalf(c, s, now, joinFault);
    var s1 := if joinFault.Some? then Fail(s, joinFault.value) else s;
    var s2 := if s1.paused then s1 else Freshen(c, s1, now);
    var s3 := PublishArchived(c, s2, now, outcome);
    FEA.PublishQuiet(c, s2, now, outcome);
    DeliverKeepsLine(c, s3, later, sendFault);
    var s' := DeliverGraph(c, s3, later, sendFault);
    assert Watchdog(c, s, now, joinFault, outcome, later, sendFault) == s';
    if s2.fusion.latched.Some? {
      LatchStays(c, s2, now, outcome);
    } else {
      SecondHalf(c, s, s2, now, outcome, later, sendFault);
    }
  }

  lemma SecondHalf(c: Config, s: State, s2: State, now: int, outcome: Outcome, later: int, sendFault: Option<string>)
    requires FES.Invariant(c, s) && FES.Invariant(c, s2) && Awaited(s) && Running(s)
    requires s2 == s.(fusion := s.fusion, gate := s2.gate) && SameFlow(s, s2)
    requires PublishArchived(c, s2, now, outcome).failures == s.failures
    requires DeliverGraph(c, PublishArchived(c, s2, now, outcome), later, sendFault).failures == s.failures
    ensures var s' := DeliverGraph(c, PublishArchived(c, s2, now, outcome), later, sendFault);
            Flows(s, s') && Ticked(c, s, s', now, later)
  {
    hide FES.Invariant, PublishArchived, DeliverGraph, Fail, LineAt, AwaitedAt, Collect, AD.SendLate, AD.SendDue;
    SameLine(s, s2, |s.archive.delivered|);
    var s1 := Collect(s2);
    var s3 := PublishArchived(c, s2, now, outcome);
    PublishFlows(c, s2, now, outcome);
    CollectFailures(c, s2, now, outcome);
    CollectLine(c, s2);
    DeliverKeepsLine(c, s3, later, sendFault);
    var s' := DeliverGraph(c, s3, later, sendFault);
    SameLine(s3, s', |s3.archive.delivered|);
    assert s'.jobs[|s.jobs|..] == [];
    assert Released(c, s, s1, s', now) && Polled(s, s1);
    if c.graph.Some? && s.graph.Some? && s.graph.value.failure.None? {
      FES.InvariantGraph(c, s);
      ValidConfig(c, s);
      DeliverSends(c, s3, later, sendFault);
    }
  }

  lemma ValidConfig(c: Config, s: State)
    requires FES.Invariant(c, s)
    ensures c.Valid()
  {
    hide RA.Invariant, TG.Invariant, FES.JobsOk, FES.PublishedOk, FES.GraphOk, FES.Waiting, FES.FlyingOk, Load, Config.Valid;
  }

  lemma CollectFailures(c: Config, s: State, now: int, outcome: Outcome)
    requires PublishArchived(c, s, now, outcome).failures == s.failures
    ensures Collect(s).failures == s.failures
  {
    hide Fail, Release, Collect;
    CollectQuiet(s);
    var s1 := Collect(s);
    FEA.FailQuiet(s1, "RAW_ARCHIVE_AGE_EXCEEDED");
    if s1.icpReady != [] {
      ReleaseLatch(c, s1, now, outcome);
    }
  }

  // ----- undisturbed runs -----

  lemma OthersFlow(c: Config, s: State, e: Event)
    requires FES.Invariant(c, s) && Awaited(s) && Running(s)
    requires !e.SourceFrame? && !e.Tick? && !e.ResumeCalled? && Step(c, s, e).failures == s.failures
    ensures Flows(s, Step(c, s, e))
  {
    hide FES.Invariant, Complete, GraphAck, Fail, RA.DoWork, Awaited, Flows;
    var s' := Step(c, s, e);
    match e {
      case OdomArrived(key, publisherFault, odom, now, d) =>
        if publisherFault.Some? {
          FEA.FailQuiet(s, publisherFault.value);
        }
        CompleteStays(c, s.(odomCache := s.odomCache[key := odom]), key, now, d);
      case InfoArrived(key, info, now, d) => CompleteStays(c, s.(infoCache := s.infoCache[key := info]), key, now, d);
      case Acked(snapshot) => AckStays(c, s, snapshot);
      case PauseCalled => FEA.FailQuiet(s.(paused := true), "EXPLICIT_PAUSE");
      case OtherFault(reason) => FEA.FailQuiet(s, reason);
      case ArchiveWork(answer) => WorkKeepsDelivered(s.archive, answer);
      case FileAppears(path, file) =>
      case Shutdown =>
    }
    SameFlows(s, s');
  }

  lemma WorkKeepsDelivered(a: RA.State, answer: RA.Outcome)
    ensures RA.DoWork(a, answer).delivered == a.delivered
  {
    RA.WorkKeepsBooks(a, answer);
    hide RA.DoWork;
  }

  lemma StepFlows(c: Config, s: State, e: Event)
    requires FES.Invariant(c, s) && Awaited(s) && Running(s) && !e.ResumeCalled?
    requires Step(c, s, e).failures == s.failures && Step(c, s, e).fusion.latched.None?
    ensures Flows(s, Step(c, s, e))
  {
    hide FES.Invariant, Source, Watchdog, Awaited, Flows, Step, Ticked;
    match e {
      case SourceFrame(m, now) =>
        StepIs(c, s, e);
        SourceFlows(c, s, m, now);
      case Tick(now, joinFault, outcome, later, sendFault) =>
        StepIs(c, s, e);
        TickFlows(c, s, now, joinFault, outcome, later, sendFault);
      case _ => OthersFlow(c, s, e);
    }
  }

  lemma StepIs(c: Config, s: State, e: Event)
    ensures e.SourceFrame? ==> Step(c, s, e) == Source(c, s, e.msg, e.now)
    ensures e.Tick? ==> Step(c, s, e) == Watchdog(c, s, e.now, e.joinFault, e.outcome, e.later, e.sendFault)
  {
  }

  /** No resume, no `fail()`, and no deadline that latches the fusion by itself. */
  ghost predicate Undisturbed(c: Config, s: State, events: seq<Event>) {
    events == []
    || (Undisturbed(c, s, events[..|events| - 1]) && !events[|events| - 1].ResumeCalled?
        && Run(c, s, events).failures == s.failures && Run(c, s, events).fusion.latched.None?)
  }

  lemma FlowsTrans(a: State, s: State, s': State)
    requires Flows(a, s) && Flows(s, s')
    ensures Flows(a, s')
  {
    hide LineAt, AwaitedAt;
    var old_, more := s.jobs[|a.jobs|..], s'.jobs[|s.jobs|..];
    assert s'.jobs[|a.jobs|..] == old_ + more;
    assert Line(a) + (old_ + more) == Line(a) + old_ + more;
    forall i | |a.jobs| <= i < |s'.jobs|
      ensures s'.jobs[i].bundle == s'.fusion.emitted[|a.fusion.emitted| + i - |a.jobs|]
    {
      if i < |s.jobs| {
        assert s'.jobs[i] == s.jobs[i];
      }
    }
  }

  lemma FlowsSelf(s: State)
    requires Awaited(s) && Running(s)
    ensures Flows(s, s)
  {
    hide LineAt;
    assert s.jobs[|s.jobs|..] == [] && Line(s) + [] == Line(s);
  }

  /**
   From any running state whose bundles are awaited, over any undisturbed events: exactly the bundles
   fused meanwhile enter the line behind those in it, and nobody leaves it or overtakes.
   */
  lemma {:induction false} LineIsKept(c: Config, s: State, events: seq<Event>)
    requires FES.Invariant(c, s) && Awaited(s) && Running(s) && Undisturbed(c, s, events)
    ensures Flows(s, Run(c, s, events)) && FES.Invariant(c, Run(c, s, events))
  {
    hide FES.Invariant, Step, Awaited, Flows;
    if events == [] {
      FlowsSelf(s);
    } else {
      var before, e := Run(c, s, events[..|events| - 1]), events[|events| - 1];
      LineIsKept(c, s, events[..|events| - 1]);
      FES.StepKeeps(c, before, e);
      FlowsFacts(s, before);
      SameFailures(c, s, events[..|events| - 1]);
      StepFlows(c, before, e);
      FlowsTrans(s, before, Run(c, s, events));
    }
  }

  lemma FlowsFacts(s: State, s': State)
    requires Flows(s, s')
    ensures Awaited(s') && Running(s')
  {
  }

  lemma SameFailures(c: Config, s: State, events: seq<Event>)
    requires Undisturbed(c, s, events)
    ensures Run(c, s, events).failures == s.failures
  {
    hide Step;
  }

  /** What a fresh node, and any node just after a `fail()`, waits for. */
  lemma NothingAwaited(c: Config, s: State, reason: string)
    requires FES.Invariant(c, s)
    ensures Awaited(Fail(s, reason))
  {
    JobsMatch(c, s);
    FES.OlderJobs(c, s);
    hide FES.Invariant;
  }

  /**
   In every undisturbed run from the start the bundles published, ready and with the archive are, in
   this order, exactly the bundles fused.
   */
  lemma FusedArePublishedInOrder(c: Config, graphEpoch: Option<string>, disk: RA.Disk, events: seq<Event>)
    requires c.Valid() && Undisturbed(c, Start(c, graphEpoch, disk), events)
    ensures var s := Run(c, Start(c, graphEpoch, disk), events);
            && |s.archive.delivered| <= |s.jobs| == |s.fusion.emitted|
            && (forall i :: 0 <= i < |s.jobs| ==> s.jobs[i].bundle == s.fusion.emitted[i])
            && Line(s) == s.jobs
  {
    hide Run, Start, FES.Invariant, Awaited, LineAt, Undisturbed, Flows;
    var start := Start(c, graphEpoch, disk);
    FES.StartConsistent(c, graphEpoch, disk);
    StartLine(c, graphEpoch, disk);
    LineIsKept(c, start, events);
    JobsMatch(c, Run(c, start, events));
    FlowsFromNothing(start, Run(c, start, events));
  }

  lemma FlowsFromNothing(start: State, s: State)
    requires Flows(start, s) && Line(start) == [] && start.jobs == [] && start.fusion.emitted == []
    ensures |s.jobs| == |s.fusion.emitted| && Awaited(s) && Line(s) == s.jobs
    ensures forall i :: 0 <= i < |s.jobs| ==> s.jobs[i].bundle == s.fusion.emitted[i]
  {
    hide LineAt, AwaitedAt;
    assert s.jobs[0..] == s.jobs && [] + s.jobs == s.jobs;
  }

  lemma StartLine(c: Config, graphEpoch: Option<string>, disk: RA.Disk)
    ensures var s := Start(c, graphEpoch, disk);
            Awaited(s) && Running(s) && Line(s) == [] && s.jobs == [] && s.fusion.emitted == []
  {
  }

  // ----- when a fused bundle is taken -----

  /** No bundle on its way has this reference stamp, and there is room for one more. */
  ghost predicate RoomFor(c: Config, s: State, stamp: int) {
    && stamp !in s.byStamp && |s.archivePending| + |s.icpReady| + |s.byStamp| < c.fusion.maxQueue
    && (forall r :: r in s.icpReady ==> r.bundle.tRef != stamp)
    && (forall k :: k in s.archivePending ==> s.archivePending[k].bundle.tRef != stamp)
  }

  /** The archive is open, has not failed, has room, and knows neither name of the bundle. */
  ghost predicate ArchiveTakes(a: RA.State, id: nat, payload: string) {
    && payload != "" && !a.closing && a.failure.None? && |a.outstanding| < a.capacity
    && Digits(id) !in a.outstanding && (Digits(id) + ".json") !in a.paths
  }

  /**
   A fused bundle is submitted to the archive exactly when the wheel bridge did not refuse it, its
   stamp fits ROS time, no bundle on its way has the same stamp, and pipeline and archive have
   room; anything else calls `fail()`.
   */
  lemma EntersExactly(c: Config, s: State, b: SF.Bundle, m: SourceMsg, now: int)
    ensures var s' := ArchiveBundle(c, s, b, m, now);
            if m.wheelFault.None? && -0x8000_0000 * 1_000_000_000 <= b.tRef < 0x8000_0000 * 1_000_000_000
               && RoomFor(c, s, b.tRef) && ArchiveTakes(s.archive, b.id, m.payload)
            then s'.failures == s.failures && s'.jobs == s.jobs + [Record(b, m.payload, now, |s.jobs|)]
                 && s'.archive.waiting == s.archive.waiting + [RA.Job(Digits(b.id), Digits(b.id) + ".json", m.payload)]
            else s'.failures == s.failures + 1 && s'.jobs == s.jobs && s'.archive == s.archive
  {
    hide Digits, Fail;
    ValueOfDigits(b.id);
    var fault := EntryFault(c, s, b, m);
    if fault.Some? {
      FailKeepsJobs(s, fault.value);
    }
  }

  lemma FailKeepsJobs(s: State, reason: string)
    ensures var s' := Fail(s, reason);
            s'.failures == s.failures + 1 && s'.jobs == s.jobs && s'.archive == s.archive
  {
    hide SF.Latch, TG.Pause;
  }
}
