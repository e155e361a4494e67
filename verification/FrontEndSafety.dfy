/** What every run of the mapping front end keeps. */
module FrontEndSafety {
  import opened Common
  import opened Decimals
  import opened FrontEnd
  import SF = SourceFusion
  import RA = RawArchive
  import TG = TrackingGate
  import AD = AckedDelivery

  // ----- the parts of the invariant -----

  /** The archive's jobs are the records submitted, numbered, with rising bundle ids. */
  ghost predicate JobsOk(jobs: seq<Record>, submitted: seq<RA.Job>, counter: nat) {
    && |jobs| == |submitted|
    && (forall i :: 0 <= i < |jobs| ==> submitted[i] == JobOf(jobs[i]) && jobs[i].nth == i && jobs[i].bundle.id <= counter)
    && (forall i, j :: 0 <= i < j < |jobs| ==> jobs[i].bundle.id < jobs[j].bundle.id)
  }

  /** Its archive job has no polled result yet. */
  predicate Open(r: Record, jobs: seq<Record>, n: nat) {
    n <= r.nth < |jobs| && jobs[r.nth] == r
  }

  /** Its archive job was polled without error. */
  predicate Archived(r: Record, jobs: seq<Record>, delivered: seq<RA.ArchiveResult>) {
    r.nth < |delivered| && r.nth < |jobs| && jobs[r.nth] == r && delivered[r.nth].error.None?
  }

  ghost predicate PendingOk(pending: map<string, Record>, jobs: seq<Record>, n: nat) {
    forall k :: k in pending ==> Open(pending[k], jobs, n) && k == KeyOf(pending[k].bundle.id)
  }

  ghost predicate ReadyOk(ready: seq<Record>, jobs: seq<Record>, delivered: seq<RA.ArchiveResult>) {
    && (forall i :: 0 <= i < |ready| ==> Archived(ready[i], jobs, delivered))
    && (forall i, j :: 0 <= i < j < |ready| ==> ready[i].nth < ready[j].nth)
  }

  ghost predicate PublishedOk(published: seq<Publication>, jobs: seq<Record>, delivered: seq<RA.ArchiveResult>, maxAge: nat) {
    && (forall i :: 0 <= i < |published| ==>
          Archived(published[i].record, jobs, delivered) && published[i].mark < published[i].record.bundle.id
          && 0 <= published[i].at - published[i].record.submitted <= maxAge)
    && (forall i, j :: 0 <= i < j < |published| ==>
          published[i].record.nth < published[j].record.nth && published[i].mark <= published[j].mark)
  }

  /** Whatever waits was submitted after the last `fail()`. */
  ghost predicate AboveMark(pending: map<string, Record>, ready: seq<Record>, flying: map<int, Record>, mark: nat) {
    && (forall k :: k in pending ==> pending[k].bundle.id > mark)
    && (forall r :: r in ready ==> r.bundle.id > mark)
    && (forall k :: k in flying ==> flying[k].bundle.id > mark)
  }

  /** What is ready was archived after everything already published. */
  ghost predicate Fresh(published: seq<Publication>, ready: seq<Record>) {
    published != [] ==> forall r :: r in ready ==> published[|published| - 1].record.nth < r.nth
  }

  function NewestId(published: seq<Publication>): int {
    if published == [] then 0 else published[|published| - 1].record.bundle.id
  }

  /** At most the newest publication is in flight, and the gate waits for nothing else. */
  ghost predicate FlyingOk(flying: map<int, Record>, published: seq<Publication>, gate: map<nat, TG.Outstanding>) {
    && |flying| <= 1
    && (forall k :: k in flying ==> k == flying[k].bundle.tRef && published != [] && flying[k] == published[|published| - 1].record)
    && (forall id :: id in gate ==> exists k :: k in flying && flying[k].bundle.id == id)
  }

  /** The graph was given published ids only, and not yet the one in flight. */
  ghost predicate GraphOk(c: Config, graph: Option<AD.State>, newest: int, flying: map<int, Record>) {
    && (graph.Some? <==> c.graph.Some?)
    && (graph.Some? ==> AD.Invariant(c.graph.value, graph.value)
                        && (if flying == map[] then graph.value.lastEnqueued <= newest else graph.value.lastEnqueued < newest))
  }

  /** The part that survives `fail()`. */
  ghost predicate Base(c: Config, s: State) {
    && c.Valid() && RA.Invariant(s.archive) && TG.Invariant(c.gate, s.gate)
    && JobsOk(s.jobs, s.archive.submitted, s.fusion.bundleCounter)
    && PublishedOk(s.published, s.jobs, s.archive.delivered, c.fusion.maxAgeNs)
    && s.mark <= s.fusion.bundleCounter && (s.published != [] ==> s.published[|s.published| - 1].mark <= s.mark)
    && GraphOk(c, s.graph, NewestId(s.published), map[])
  }

  ghost predicate Waiting(s: State, n: nat) {
    && PendingOk(s.archivePending, s.jobs, n)
    && ReadyOk(s.icpReady, s.jobs, s.archive.delivered)
    && Fresh(s.published, s.icpReady)
    && AboveMark(s.archivePending, s.icpReady, s.byStamp, s.mark)
  }

  ghost predicate Invariant(c: Config, s: State) {
    && Base(c, s) && Waiting(s, |s.archive.delivered|)
    && FlyingOk(s.byStamp, s.published, s.gate.pending)
    && GraphOk(c, s.graph, NewestId(s.published), s.byStamp)
    && Load(s) <= c.fusion.maxQueue
  }

  // ----- fusion facts -----

  lemma CheckCounter(p: SF.Policy, s: SF.State, f: SF.Frame, now: int)
    ensures SF.Check(p, s, f, now).s.bundleCounter == s.bundleCounter
  {
    hide SF.Refused, SF.Last, SF.ToSet, SF.TimeJump;
  }

  lemma PairCounter(p: SF.Policy, s: SF.State, fault: Option<string>, now: int)
    ensures var r := SF.Pair(p, s, fault, now);
            if r.1.Fused? then r.0.bundleCounter == s.bundleCounter + 1 == r.1.bundle.id
            else r.0.bundleCounter == s.bundleCounter
  {
    hide SF.FindPair;
  }

  lemma FreshnessCounter(p: SF.Policy, s: SF.State, now: int)
    ensures SF.CheckFreshness(p, s, now).bundleCounter == s.bundleCounter
  {
    hide SF.Overdue;
  }

  /** Only a fused bundle uses up a bundle number. */
  lemma PushCounter(p: SF.Policy, s: SF.State, f: SF.Frame, fault: Option<string>, now: int)
    ensures var r := SF.Push(p, s, f, fault, now);
            if r.1.Fused? then r.0.bundleCounter == s.bundleCounter + 1 == r.1.bundle.id
            else r.0.bundleCounter == s.bundleCounter
  {
    hide SF.Check, SF.CheckFreshness, SF.Pair, SF.Insert, SF.Bounded;
    CheckCounter(p, s, f, now);
    var checked := SF.Arrive(SF.Check(p, s, f, now).s, f, now);
    FreshnessCounter(p, checked, now);
    PairCounter(p, SF.Enqueue(p, SF.CheckFreshness(p, checked, now), f), fault, now);
  }

  // ----- fail -----

  /** `fail()` may be called in the middle of any step: what survives is enough. */
  lemma FailKeeps(c: Config, s: State, reason: string)
    requires Base(c, s)
    ensures Invariant(c, Fail(s, reason))
  {
    hide RA.Invariant, JobsOk, PublishedOk, AD.Invariant;
    TG.StepKeeps(c.gate, s.gate, TG.Paused(reason));
    hide TG.Invariant;
  }

  // ----- a source frame -----

  /** A new bundle number leaves everything else as it was. */
  lemma FusionMoves(c: Config, s: State, f: SF.State)
    requires Invariant(c, s) && f.bundleCounter >= s.fusion.bundleCounter
    ensures Invariant(c, s.(fusion := f))
  {
    hide RA.Invariant, PublishedOk, GraphOk, TG.Invariant, PendingOk, ReadyOk, Fresh, AboveMark, FlyingOk;
  }

  lemma PendingGrows(pending: map<string, Record>, jobs: seq<Record>, n: nat, r: Record)
    requires PendingOk(pending, jobs, n) && r.nth == |jobs| >= n
    ensures PendingOk(pending[KeyOf(r.bundle.id) := r], jobs + [r], n)
  {
    hide KeyOf;
  }

  lemma JobsGrow(jobs: seq<Record>, submitted: seq<RA.Job>, counter: nat, r: Record)
    requires JobsOk(jobs, submitted, counter) && r.nth == |jobs|
    requires forall i :: 0 <= i < |jobs| ==> jobs[i].bundle.id < r.bundle.id
    requires r.bundle.id <= counter
    ensures JobsOk(jobs + [r], submitted + [JobOf(r)], counter)
  {
    hide KeyOf, PathOf;
  }

  lemma HistoryGrows(s: State, r: Record, maxAge: nat)
    requires ReadyOk(s.icpReady, s.jobs, s.archive.delivered)
    requires PublishedOk(s.published, s.jobs, s.archive.delivered, maxAge)
    ensures ReadyOk(s.icpReady, s.jobs + [r], s.archive.delivered)
    ensures PublishedOk(s.published, s.jobs + [r], s.archive.delivered, maxAge)
  {
  }

  lemma AboveGrows(pending: map<string, Record>, ready: seq<Record>, flying: map<int, Record>, mark: nat, k: string, r: Record)
    requires AboveMark(pending, ready, flying, mark) && r.bundle.id > mark
    ensures AboveMark(pending[k := r], ready, flying, mark)
  {
  }

  /** May this record enter the archive queue as the newest bundle? */
  ghost predicate Enterable(s: State, r: Record) {
    && r.nth == |s.jobs| && r.bundle.id == s.fusion.bundleCounter && s.mark < r.bundle.id
    && (forall i :: 0 <= i < |s.jobs| ==> s.jobs[i].bundle.id < r.bundle.id)
    && RA.SubmitError(s.archive, KeyOf(r.bundle.id), PathOf(r.bundle.id), r.payload).None?
  }

  lemma ArchiveEntered(a: RA.State, r: Record)
    requires RA.Invariant(a) && RA.SubmitError(a, KeyOf(r.bundle.id), PathOf(r.bundle.id), r.payload).None?
    ensures var a' := RA.DoSubmit(a, KeyOf(r.bundle.id), PathOf(r.bundle.id), r.payload);
            RA.Invariant(a') && a'.submitted == a.submitted + [JobOf(r)] && a'.delivered == a.delivered
  {
    RA.StepKeeps(a, RA.Submit(KeyOf(r.bundle.id), PathOf(r.bundle.id), r.payload));
    hide RA.Invariant, RA.SubmitError, KeyOf, PathOf;
  }

  lemma EnterBase(c: Config, s: State, r: Record)
    requires Base(c, s) && Enterable(s, r) && ReadyOk(s.icpReady, s.jobs, s.archive.delivered)
    ensures Base(c, Enter(s, r)) && ReadyOk(s.icpReady, s.jobs + [r], s.archive.delivered)
    ensures Enter(s, r).archive.delivered == s.archive.delivered && |s.archive.delivered| <= |s.jobs|
  {
    hide RA.Invariant, RA.SubmitError, RA.DoSubmit, TG.Invariant, GraphOk, JobsOk, PublishedOk, ReadyOk, KeyOf, PathOf, JobOf,
         Config.Valid;
    ArchiveEntered(s.archive, r);
    Delivered(s.archive);
    JobsLength(s.jobs, s.archive.submitted, s.fusion.bundleCounter);
    JobsGrow(s.jobs, s.archive.submitted, s.fusion.bundleCounter, r);
    HistoryGrows(s, r, c.fusion.maxAgeNs);
  }

  lemma JobsLength(jobs: seq<Record>, submitted: seq<RA.Job>, counter: nat)
    requires JobsOk(jobs, submitted, counter)
    ensures |jobs| == |submitted|
  {
  }

  /** An accepted archive job is a new record with the newest bundle number. */
  lemma EnterKeeps(c: Config, s: State, r: Record)
    requires Invariant(c, s) && Load(s) < c.fusion.maxQueue && Enterable(s, r)
    ensures Invariant(c, Enter(s, r))
  {
    hide JobsOk, PublishedOk, ReadyOk, PendingOk, AboveMark, Base, RA.DoSubmit, RA.SubmitError, GraphOk, Fresh, FlyingOk, KeyOf, PathOf;
    EnterBase(c, s, r);
    PendingGrows(s.archivePending, s.jobs, |s.archive.delivered|, r);
    AboveGrows(s.archivePending, s.icpReady, s.byStamp, s.mark, KeyOf(r.bundle.id), r);
    MapGrows(s.archivePending, KeyOf(r.bundle.id), r);
  }

  lemma Delivered(a: RA.State)
    requires RA.Invariant(a)
    ensures |a.delivered| <= |a.submitted|
  {
    hide RA.InOrder, RA.WorkerOk, RA.ResultsOk, RA.Lists;
  }

  lemma MapGrows<V>(m: map<string, V>, k: string, v: V)
    ensures |m[k := v]| <= |m| + 1
  {
    if k !in m {
      assert m[k := v].Keys == m.Keys + {k};
      assert |m[k := v]| == |m[k := v].Keys| && |m| == |m.Keys|;
    } else {
      assert m[k := v].Keys == m.Keys;
      assert |m[k := v]| == |m[k := v].Keys| && |m| == |m.Keys|;
    }
  }

  lemma EntryAllowed(c: Config, s: State, b: SF.Bundle, m: SourceMsg)
    requires EntryFault(c, s, b, m).None?
    ensures Load(s) < c.fusion.maxQueue && RA.SubmitError(s.archive, KeyOf(b.id), PathOf(b.id), m.payload).None?
  {
    hide StampInUse, InRosRange, Load, KeyOf, PathOf, RA.SubmitError;
  }

  lemma ArchiveBundleKeeps(c: Config, s: State, b: SF.Bundle, m: SourceMsg, now: int)
    requires Invariant(c, s) && b.id == s.fusion.bundleCounter && s.mark < b.id
    requires forall i :: 0 <= i < |s.jobs| ==> s.jobs[i].bundle.id < b.id
    ensures Invariant(c, ArchiveBundle(c, s, b, m, now))
  {
    hide Invariant, Fail, Enter, EntryFault, RA.SubmitError, KeyOf, PathOf, Load;
    var fault := EntryFault(c, s, b, m);
    if fault.Some? {
      InvariantBase(c, s);
      FailKeeps(c, s, fault.value);
    } else {
      EntryAllowed(c, s, b, m);
      EnterKeeps(c, s, Record(b, m.payload, now, |s.jobs|));
    }
  }

  lemma InvariantBase(c: Config, s: State)
    requires Invariant(c, s)
    ensures Base(c, s)
  {
  }

  lemma OlderJobs(c: Config, s: State)
    requires Invariant(c, s)
    ensures s.mark <= s.fusion.bundleCounter && forall i :: 0 <= i < |s.jobs| ==> s.jobs[i].bundle.id <= s.fusion.bundleCounter
  {
    hide RA.Invariant, PublishedOk, GraphOk, TG.Invariant, PendingOk, ReadyOk, Fresh, AboveMark, FlyingOk;
  }

  lemma TakeFrameKeeps(c: Config, s: State, m: SourceMsg, now: int)
    requires Invariant(c, s)
    ensures Invariant(c, TakeFrame(c, s, m, now))
  {
    var r := SF.Push(c.fusion, s.fusion, m.frame, m.fuseFault, now);
    PushCounter(c.fusion, s.fusion, m.frame, m.fuseFault, now);
    FusionMoves(c, s, r.0);
    OlderJobs(c, s);
    var s1 := s.(fusion := r.0);
    InvariantBase(c, s);
    InvariantBase(c, s1);
    hide Invariant, Base, SF.Push, Fail, ArchiveBundle;
    if m.decodeFault.Some? {
      FailKeeps(c, s, m.decodeFault.value);
    }
    match r.1 {
      case Raised(reason) => FailKeeps(c, s1, reason);
      case Nothing =>
      case Fused(b) => ArchiveBundleKeeps(c, s1, b, m, now);
    }
  }

  lemma SourceKeeps(c: Config, s: State, m: SourceMsg, now: int)
    requires Invariant(c, s)
    ensures Invariant(c, Source(c, s, m, now))
  {
    hide Invariant, Base, TakeFrame, Fail, Observed;
    InvariantBase(c, s);
    FailKeeps(c, s, "SOURCE_SIDE_INVALID");
    if m.clockFault.Some? {
      FailKeeps(c, s, m.clockFault.value);
    }
    var seen := s.(watch := Observed(c, s.watch, m, now));
    CachesMove(c, s, seen);
    TakeFrameKeeps(c, seen, m, now);
  }

  // ----- polling the archive -----

  /** The invariant while the polled results before number `n` have been handled. */
  ghost predicate Partial(c: Config, s: State, n: nat) {
    && Base(c, s) && n <= |s.archive.delivered| && Waiting(s, n)
    && FlyingOk(s.byStamp, s.published, s.gate.pending)
    && GraphOk(c, s.graph, NewestId(s.published), s.byStamp)
    && Load(s) <= c.fusion.maxQueue
  }

  lemma FailPartial(c: Config, s: State, reason: string, n: nat)
    requires Base(c, s) && n <= |s.archive.delivered|
    ensures Partial(c, Fail(s, reason), n)
  {
    FailKeeps(c, s, reason);
    hide Base, ReadyOk, Fresh, AboveMark, FlyingOk, GraphOk;
  }

  lemma DeliveredGrows(s: State, more: seq<RA.ArchiveResult>, maxAge: nat)
    requires ReadyOk(s.icpReady, s.jobs, s.archive.delivered)
    requires PublishedOk(s.published, s.jobs, s.archive.delivered, maxAge)
    ensures ReadyOk(s.icpReady, s.jobs, s.archive.delivered + more)
    ensures PublishedOk(s.published, s.jobs, s.archive.delivered + more, maxAge)
  {
  }

  lemma PollStarts(c: Config, s: State)
    requires Invariant(c, s)
    ensures Partial(c, s.(archive := RA.DoPoll(s.archive)), |s.archive.delivered|)
  {
    hide RA.Invariant, TG.Invariant, JobsOk, PublishedOk, ReadyOk, PendingOk, Fresh, AboveMark, FlyingOk, GraphOk;
    RA.StepKeeps(s.archive, RA.Poll);
    DeliveredGrows(s, s.archive.results, c.fusion.maxAgeNs);
  }

  /** A polled result carries the key of its job's bundle. */
  lemma DeliveredKey(c: Config, s: State, n: nat)
    requires Base(c, s) && n < |s.archive.delivered|
    ensures n < |s.jobs| && s.archive.delivered[n].key == KeyOf(s.jobs[n].bundle.id)
  {
    hide TG.Invariant, PublishedOk, GraphOk, KeyOf, PathOf, RA.BooksOk, RA.WorkerOk, RA.ResultsOk;
    Delivered(s.archive);
    assert RA.Done(s.archive)[n] == s.archive.delivered[n];
  }

  /** Once the result of job `n` is taken off, only later jobs are pending. */
  lemma PendingShrinks(pending: map<string, Record>, jobs: seq<Record>, submitted: seq<RA.Job>, counter: nat, n: nat)
    requires PendingOk(pending, jobs, n) && JobsOk(jobs, submitted, counter) && n < |jobs|
    ensures PendingOk(pending - {KeyOf(jobs[n].bundle.id)}, jobs, n + 1)
    ensures KeyOf(jobs[n].bundle.id) in pending ==> pending[KeyOf(jobs[n].bundle.id)] == jobs[n]
  {
    var key := KeyOf(jobs[n].bundle.id);
    if key in pending {
      DigitsDiffer(pending[key].bundle.id, jobs[n].bundle.id);
      var r := pending[key];
      assert jobs[r.nth].bundle.id == jobs[n].bundle.id;
    }
  }

  lemma ReadyGrows(ready: seq<Record>, jobs: seq<Record>, delivered: seq<RA.ArchiveResult>, r: Record)
    requires ReadyOk(ready, jobs, delivered) && Archived(r, jobs, delivered)
    requires forall x :: x in ready ==> x.nth < r.nth
    ensures ReadyOk(ready + [r], jobs, delivered)
  {
    assert forall i :: 0 <= i < |ready| ==> ready[i] in ready;
  }

  lemma AboveMoves(pending: map<string, Record>, ready: seq<Record>, flying: map<int, Record>, mark: nat, k: string)
    requires AboveMark(pending, ready, flying, mark)
    ensures AboveMark(pending - {k}, ready, flying, mark)
    ensures k in pending ==> AboveMark(pending - {k}, ready + [pending[k]], flying, mark)
  {
  }

  lemma MapShrinks<V>(m: map<string, V>, k: string)
    ensures |m - {k}| <= |m| && (k in m ==> |m - {k}| == |m| - 1)
  {
    assert (m - {k}).Keys == m.Keys - {k};
    assert |m - {k}| == |(m - {k}).Keys| && |m| == |m.Keys|;
  }

  /** Ready and published records all come from jobs before `n`. */
  ghost predicate Before(s: State, n: nat) {
    && (forall r :: r in s.icpReady ==> r.nth < n)
    && (s.published != [] ==> s.published[|s.published| - 1].record.nth < n)
  }

  /** The pending record of the polled result, if any, is dropped. */
  lemma PollDrops(c: Config, s: State, n: nat, key: string)
    requires Partial(c, s, n) && n < |s.archive.delivered| && Before(s, n) && key == s.archive.delivered[n].key
    ensures var s1 := s.(archivePending := s.archivePending - {key}); Partial(c, s1, n + 1) && Before(s1, n + 1)
    ensures key in s.archivePending ==> n < |s.jobs| && s.archivePending[key] == s.jobs[n]
  {
    hide Base, GraphOk, FlyingOk, JobsOk, PendingOk, ReadyOk, Fresh, AboveMark, KeyOf;
    DeliveredKey(c, s, n);
    BaseJobs(c, s);
    PendingShrinks(s.archivePending, s.jobs, s.archive.submitted, s.fusion.bundleCounter, n);
    AboveMoves(s.archivePending, s.icpReady, s.byStamp, s.mark, key);
    MapShrinks(s.archivePending, key);
    SameBase(c, s, s.(archivePending := s.archivePending - {key}));
  }

  /** The record of a polled success becomes the last ready one. */
  lemma PollMoves(c: Config, s: State, n: nat, key: string)
    requires Partial(c, s, n) && n < |s.archive.delivered| && Before(s, n) && key == s.archive.delivered[n].key
    requires key in s.archivePending && s.archive.delivered[n].error.None?
    ensures var s2 := s.(archivePending := s.archivePending - {key}, icpReady := s.icpReady + [s.archivePending[key]]);
            Partial(c, s2, n + 1) && Before(s2, n + 1)
  {
    hide Base, GraphOk, FlyingOk, JobsOk, PendingOk, ReadyOk, AboveMark, KeyOf;
    DeliveredKey(c, s, n);
    BaseJobs(c, s);
    PendingShrinks(s.archivePending, s.jobs, s.archive.submitted, s.fusion.bundleCounter, n);
    var r, s2 := s.jobs[n], s.(archivePending := s.archivePending - {key}, icpReady := s.icpReady + [s.archivePending[key]]);
    assert Archived(r, s.jobs, s.archive.delivered);
    ReadyGrows(s.icpReady, s.jobs, s.archive.delivered, r);
    AboveMoves(s.archivePending, s.icpReady, s.byStamp, s.mark, key);
    MapShrinks(s.archivePending, key);
    SameBase(c, s, s2);
  }

  lemma FailBefore(c: Config, s: State, reason: string, n: nat)
    requires Partial(c, s, n) && Before(s, n)
    ensures Partial(c, Fail(s, reason), n) && Before(Fail(s, reason), n) && Fail(s, reason).archive == s.archive
  {
    hide Partial, Base;
    PartialBase(c, s, n);
    assert n <= |s.archive.delivered| by { PartialBound(c, s, n); }
    FailPartial(c, s, reason, n);
  }

  lemma PartialBound(c: Config, s: State, n: nat)
    requires Partial(c, s, n)
    ensures n <= |s.archive.delivered|
  {
  }

  lemma PollOneKeeps(c: Config, s: State, n: nat)
    requires Partial(c, s, n) && n < |s.archive.delivered| && Before(s, n)
    ensures var s' := PollOne(s, s.archive.delivered[n]); Partial(c, s', n + 1) && Before(s', n + 1) && s'.archive == s.archive
  {
    hide Partial, Before, Fail;
    var result := s.archive.delivered[n];
    var s1 := s.(archivePending := s.archivePending - {result.key});
    PollDrops(c, s, n, result.key);
    if result.error.Some? {
      FailBefore(c, s1, "RAW_ARCHIVE_FAILED:" + result.error.value, n + 1);
    } else if result.key in s.archivePending {
      PollMoves(c, s, n, result.key);
    }
  }

  lemma PartialBase(c: Config, s: State, n: nat)
    requires Partial(c, s, n)
    ensures Base(c, s)
  {
  }

  /** All results polled, one after the other. */
  lemma {:induction false} PollAllKeeps(c: Config, s: State, n: nat, results: seq<RA.ArchiveResult>)
    requires Partial(c, s, n) && Before(s, n) && n + |results| <= |s.archive.delivered|
    requires forall i :: 0 <= i < |results| ==> results[i] == s.archive.delivered[n + i]
    ensures var s' := PollAll(s, results);
            Partial(c, s', n + |results|) && Before(s', n + |results|) && s'.archive == s.archive
  {
    hide Partial, Before, PollOne;
    if results != [] {
      PollAllKeeps(c, s, n, results[..|results| - 1]);
      PollOneKeeps(c, PollAll(s, results[..|results| - 1]), n + |results| - 1);
    }
  }

  lemma BeforePolling(c: Config, s: State)
    requires Invariant(c, s)
    ensures Before(s, |s.archive.delivered|)
  {
    hide RA.Invariant, TG.Invariant, JobsOk, GraphOk, FlyingOk, AboveMark, PendingOk;
    forall r | r in s.icpReady ensures r.nth < |s.archive.delivered| {
      var i :| 0 <= i < |s.icpReady| && s.icpReady[i] == r;
      assert Archived(s.icpReady[i], s.jobs, s.archive.delivered);
    }
  }

  lemma FromPartial(c: Config, s: State, n: nat)
    requires Partial(c, s, n) && n == |s.archive.delivered|
    ensures Invariant(c, s)
  {
    hide Base, Waiting, FlyingOk, GraphOk, Load;
  }

  lemma CollectKeeps(c: Config, s: State)
    requires Invariant(c, s)
    ensures Invariant(c, Collect(s))
  {
    hide Invariant, Partial, Before, PollAll, RA.DoPoll;
    PollStarts(c, s);
    BeforePolling(c, s);
    PollDelivers(s.archive);
    var polled := s.(archive := RA.DoPoll(s.archive));
    BeforeSame(s, polled);
    PollAllKeeps(c, polled, |s.archive.delivered|, s.archive.results);
    FromPartial(c, Collect(s), |s.archive.delivered| + |s.archive.results|);
  }

  lemma PollDelivers(a: RA.State)
    ensures RA.DoPoll(a).delivered == a.delivered + a.results
  {
  }

  lemma BeforeSame(s: State, s': State)
    requires Before(s, |s.archive.delivered|) && s'.icpReady == s.icpReady && s'.published == s.published
    ensures Before(s', |s.archive.delivered|)
  {
  }

  /** The base does not mention what waits. */
  lemma SameBase(c: Config, s: State, s': State)
    requires Base(c, s) && s'.fusion.bundleCounter == s.fusion.bundleCounter && s'.gate == s.gate && s'.graph == s.graph
    requires s'.archive == s.archive && s'.jobs == s.jobs && s'.published == s.published && s'.mark == s.mark
    ensures Base(c, s')
  {
  }

  lemma BaseJobs(c: Config, s: State)
    requires Base(c, s)
    ensures JobsOk(s.jobs, s.archive.submitted, s.fusion.bundleCounter)
    ensures forall i :: 0 <= i < |s.jobs| ==> s.jobs[i].nth == i
  {
  }

  // ----- publishing -----

  lemma PublishedGrows(published: seq<Publication>, jobs: seq<Record>, delivered: seq<RA.ArchiveResult>, maxAge: nat, p: Publication)
    requires PublishedOk(published, jobs, delivered, maxAge) && Archived(p.record, jobs, delivered)
    requires p.mark < p.record.bundle.id && 0 <= p.at - p.record.submitted <= maxAge
    requires published != [] ==>
               published[|published| - 1].record.nth < p.record.nth && published[|published| - 1].mark <= p.mark
    ensures PublishedOk(published + [p], jobs, delivered, maxAge)
  {
  }

  /** The next ready record has a newer bundle than everything published. */
  lemma NewestRises(published: seq<Publication>, jobs: seq<Record>, submitted: seq<RA.Job>, counter: nat,
                    delivered: seq<RA.ArchiveResult>, maxAge: nat, r: Record)
    requires PublishedOk(published, jobs, delivered, maxAge) && JobsOk(jobs, submitted, counter) && Archived(r, jobs, delivered)
    requires published != [] ==> published[|published| - 1].record.nth < r.nth
    requires r.bundle.id > 0
    ensures NewestId(published) < r.bundle.id
  {
    if published != [] {
      var last := published[|published| - 1].record;
      assert Archived(last, jobs, delivered);
      assert jobs[last.nth].bundle.id < jobs[r.nth].bundle.id;
    }
  }

  lemma ReadyHead(ready: seq<Record>, jobs: seq<Record>, delivered: seq<RA.ArchiveResult>)
    requires ReadyOk(ready, jobs, delivered) && ready != []
    ensures Archived(ready[0], jobs, delivered) && ReadyOk(ready[1..], jobs, delivered)
    ensures forall r :: r in ready[1..] ==> ready[0].nth < r.nth
  {
    forall i | 0 <= i < |ready| - 1 ensures Archived(ready[1..][i], jobs, delivered) {
      assert ready[1..][i] == ready[i + 1];
    }
    forall r | r in ready[1..] ensures ready[0].nth < r.nth {
      var i :| 0 <= i < |ready| - 1 && ready[1..][i] == r;
      assert r == ready[i + 1];
    }
  }

  /** The state just after the head of the ready queue was published. */
  function Publish(s: State, gate: TG.State, now: int): State
    requires s.icpReady != []
  {
    var r := s.icpReady[0];
    s.(icpReady := s.icpReady[1..], gate := gate, byStamp := s.byStamp[r.bundle.tRef := r],
       published := s.published + [Publication(r, now, s.mark)])
  }

  /** The next ready record: archived, newer than the mark and than everything published. */
  lemma NextIsNewer(c: Config, s: State)
    requires Base(c, s) && Waiting(s, |s.archive.delivered|) && s.icpReady != []
    ensures var r := s.icpReady[0];
            && Archived(r, s.jobs, s.archive.delivered) && r.bundle.id > s.mark && NewestId(s.published) < r.bundle.id
            && (s.published != [] ==> s.published[|s.published| - 1].record.nth < r.nth)
  {
    hide RA.Invariant, TG.Invariant, GraphOk, JobsOk, PublishedOk, ReadyOk, PendingOk, Archived, NewestId;
    var r := s.icpReady[0];
    assert r in s.icpReady;
    ReadyHead(s.icpReady, s.jobs, s.archive.delivered);
    NewestRises(s.published, s.jobs, s.archive.submitted, s.fusion.bundleCounter, s.archive.delivered, c.fusion.maxAgeNs, r);
  }

  lemma GraphLater(c: Config, graph: Option<AD.State>, newest: int, r: Record)
    requires GraphOk(c, graph, newest, map[]) && newest < r.bundle.id
    ensures GraphOk(c, graph, r.bundle.id, map[]) && GraphOk(c, graph, r.bundle.id, map[r.bundle.tRef := r])
  {
    hide AD.Invariant;
    assert r.bundle.tRef in map[r.bundle.tRef := r];
  }

  lemma PublishBase(c: Config, s: State, gate: TG.State, now: int)
    requires Base(c, s) && Waiting(s, |s.archive.delivered|) && s.icpReady != [] && !Aged(c, s.icpReady[0], now)
    requires TG.Invariant(c.gate, gate)
    ensures Base(c, Publish(s, gate, now))
    ensures GraphOk(c, s.graph, s.icpReady[0].bundle.id, map[s.icpReady[0].bundle.tRef := s.icpReady[0]])
  {
    hide RA.Invariant, TG.Invariant, GraphOk, JobsOk, PublishedOk, Waiting, Archived;
    NextIsNewer(c, s);
    var r := s.icpReady[0];
    PublishedGrows(s.published, s.jobs, s.archive.delivered, c.fusion.maxAgeNs, Publication(r, now, s.mark));
    GraphLater(c, s.graph, NewestId(s.published), r);
  }

  lemma PublishWaiting(s: State, gate: TG.State, now: int)
    requires Waiting(s, |s.archive.delivered|) && s.icpReady != [] && s.byStamp == map[]
    ensures Waiting(Publish(s, gate, now), |s.archive.delivered|)
  {
    hide ReadyOk, PendingOk, Archived;
    ReadyHead(s.icpReady, s.jobs, s.archive.delivered);
    assert s.icpReady[0] in s.icpReady;
  }

  lemma PublishFlying(r: Record, published: seq<Publication>, before: map<nat, TG.Outstanding>,
                      gate: map<nat, TG.Outstanding>, p: Publication)
    requires FlyingOk(map[], published, before) && gate.Keys <= before.Keys + {r.bundle.id} && p.record == r
    ensures FlyingOk(map[r.bundle.tRef := r], published + [p], gate)
  {
    var flying := map[r.bundle.tRef := r];
    assert r.bundle.tRef in flying && |flying| <= 1;
  }

  lemma PublishKeeps(c: Config, s: State, gate: TG.State, now: int)
    requires Invariant(c, s) && s.icpReady != [] && !Aged(c, s.icpReady[0], now) && s.byStamp == map[]
    requires TG.Invariant(c.gate, gate) && gate.pending.Keys <= s.gate.pending.Keys + {s.icpReady[0].bundle.id}
    ensures Invariant(c, Publish(s, gate, now))
  {
    hide Base, GraphOk, Waiting, Aged, TG.Invariant, FlyingOk;
    var r := s.icpReady[0];
    PublishBase(c, s, gate, now);
    PublishWaiting(s, gate, now);
    PublishFlying(r, s.published, s.gate.pending, gate.pending, Publication(r, now, s.mark));
    assert s.byStamp[r.bundle.tRef := r] == map[r.bundle.tRef := r];
  }

  lemma GateSubmits(c: Config, gate: TG.State, b: TG.Bundle, now: int)
    requires TG.Invariant(c.gate, gate)
    ensures var taken := TG.Submit(c.gate, gate, b, now);
            TG.Invariant(c.gate, taken.0) && taken.0.pending.Keys <= gate.pending.Keys + {b.id}
  {
    TG.StepKeeps(c.gate, gate, TG.Submitted(b, now));
    hide TG.Invariant, TG.SubmitFault;
  }

  /** The base allows any gate state that keeps the gate's invariant, and any waiting records. */
  lemma GateBase(c: Config, s: State, s': State)
    requires Base(c, s) && TG.Invariant(c.gate, s'.gate)
    requires s'.fusion.bundleCounter == s.fusion.bundleCounter && s'.graph == s.graph
    requires s'.archive == s.archive && s'.jobs == s.jobs && s'.published == s.published && s'.mark == s.mark
    ensures Base(c, s')
  {
  }

  lemma InvariantGate(c: Config, s: State)
    requires Invariant(c, s)
    ensures TG.Invariant(c.gate, s.gate)
  {
  }

  lemma ReleaseKeeps(c: Config, s: State, now: int, outcome: Outcome)
    requires Invariant(c, s) && s.icpReady != [] && !Aged(c, s.icpReady[0], now) && s.byStamp == map[]
    ensures Invariant(c, Release(c, s, now, outcome))
  {
    hide Invariant, Base, Aged, TG.Submit, TG.Invariant, Fail;
    var r := s.icpReady[0];
    var taken := TG.Submit(c.gate, s.gate, GateBundle(r.bundle), now);
    InvariantBase(c, s);
    InvariantGate(c, s);
    GateSubmits(c, s.gate, GateBundle(r.bundle), now);
    var s1 := s.(icpReady := s.icpReady[1..], gate := taken.0);
    var s2 := s1.(byStamp := s1.byStamp[r.bundle.tRef := r]);
    GateBase(c, s, s1);
    GateBase(c, s, s2);
    if taken.1.Some? {
      FailKeeps(c, s1, taken.1.value);
    } else if outcome.Unsent? {
      FailKeeps(c, s2, outcome.text);
    } else {
      PublishKeeps(c, s, taken.0, now);
      InvariantBase(c, Publish(s, taken.0, now));
      if outcome.SentThen? {
        FailKeeps(c, Publish(s, taken.0, now), outcome.text);
      }
    }
  }

  lemma PublishArchivedKeeps(c: Config, s: State, now: int, outcome: Outcome)
    requires Invariant(c, s)
    ensures Invariant(c, PublishArchived(c, s, now, outcome))
  {
    hide Invariant, Base, Collect, Fail, Release, Aged;
    CollectKeeps(c, s);
    var s1 := Collect(s);
    InvariantBase(c, s1);
    FailKeeps(c, s1, "RAW_ARCHIVE_AGE_EXCEEDED");
    if !AnyAged(c, s1.icpReady, now) && s1.byStamp == map[] && s1.icpReady != [] {
      assert s1.icpReady[0] in s1.icpReady;
      ReleaseKeeps(c, s1, now, outcome);
    }
  }

  // ----- results of the matcher -----

  /** Changes of the graph delivery that leave the last enqueued id alone. */
  lemma GraphMoves(c: Config, s: State, g: AD.State)
    requires Invariant(c, s) && c.graph.Some? && s.graph.Some?
    requires AD.Invariant(c.graph.value, g) && g.lastEnqueued == s.graph.value.lastEnqueued
    ensures Invariant(c, s.(graph := Some(g)))
  {
    hide RA.Invariant, TG.Invariant, AD.Invariant, JobsOk, PublishedOk, PendingOk, ReadyOk, Fresh, AboveMark, FlyingOk;
  }

  /** Changes of the gate that forget pending bundles at most. */
  lemma GateMoves(c: Config, s: State, g: TG.State)
    requires Invariant(c, s) && TG.Invariant(c.gate, g) && g.pending.Keys <= s.gate.pending.Keys
    ensures Invariant(c, s.(gate := g))
  {
    hide RA.Invariant, TG.Invariant, GraphOk, JobsOk, PublishedOk, PendingOk, ReadyOk, Fresh, AboveMark;
  }

  lemma InvariantGraph(c: Config, s: State)
    requires Invariant(c, s) && c.graph.Some?
    ensures s.graph.Some? && c.graph.value.Valid() && AD.Invariant(c.graph.value, s.graph.value)
  {
    hide RA.Invariant, TG.Invariant, AD.Invariant, JobsOk, PublishedOk, PendingOk, ReadyOk, Fresh, AboveMark, FlyingOk, Load;
  }

  lemma CheckGraphKeeps(c: Config, s: State)
    requires Invariant(c, s)
    ensures Invariant(c, CheckGraph(c, s)) && CheckGraph(c, s) == s.(graph := CheckGraph(c, s).graph)
  {
    hide Invariant, AD.Invariant;
    if c.graph.Some? && s.graph.Some? {
      InvariantGraph(c, s);
      AD.StepKeeps(c.graph.value, s.graph.value, AD.Check);
      GraphMoves(c, s, AD.EnsureCapacity(c.graph.value, s.graph.value));
    }
  }

  lemma SendFacts(p: AD.Policy, g: AD.State, now: int)
    requires p.Valid() && AD.Invariant(p, g)
    ensures AD.Invariant(p, AD.Send(p, g, now).0) && AD.Send(p, g, now).0.lastEnqueued == g.lastEnqueued
  {
    hide AD.Invariant;
    AD.StepKeeps(p, g, AD.Sending(now));
  }

  lemma DeliverGraphKeeps(c: Config, s: State, now: int, sendFault: Option<string>)
    requires Invariant(c, s)
    ensures Invariant(c, DeliverGraph(c, s, now, sendFault))
  {
    hide Invariant, Base, AD.Invariant, AD.Send, Fail;
    if c.graph.Some? && s.graph.Some? && s.graph.value.failure.None? {
      InvariantGraph(c, s);
      SendFacts(c.graph.value, s.graph.value, now);
      var sending := AD.Send(c.graph.value, s.graph.value, now);
      var s1 := s.(graph := Some(sending.0));
      GraphMoves(c, s, sending.0);
      InvariantBase(c, s1);
      if sending.0.failure.Some? {
        FailKeeps(c, s1, sending.0.failure.value);
      } else if sending.1.Publish? && sendFault.Some? {
        FailKeeps(c, s1, sendFault.value);
      }
    }
  }

  lemma GraphAckKeeps(c: Config, s: State, snapshot: AD.Snapshot)
    requires Invariant(c, s)
    ensures Invariant(c, GraphAck(c, s, snapshot))
  {
    hide Invariant, Base, AD.Invariant, AD.Acknowledge, Fail;
    if c.graph.Some? && s.graph.Some? && s.graph.value.failure.None? {
      InvariantGraph(c, s);
      var g := AD.Acknowledge(c.graph.value, s.graph.value, snapshot);
      AcknowledgeFacts(c.graph.value, s.graph.value, snapshot);
      GraphMoves(c, s, g);
      InvariantBase(c, s.(graph := Some(g)));
      if g.failure.Some? {
        FailKeeps(c, s.(graph := Some(g)), g.failure.value);
      }
    }
  }

  lemma AcknowledgeFacts(p: AD.Policy, g: AD.State, snapshot: AD.Snapshot)
    requires p.Valid() && AD.Invariant(p, g)
    ensures AD.Invariant(p, AD.Acknowledge(p, g, snapshot)) && AD.Acknowledge(p, g, snapshot).lastEnqueued == g.lastEnqueued
  {
    hide AD.Invariant;
    AD.StepKeeps(p, g, AD.Snapshotted(snapshot));
    AD.AcknowledgeCases(p, g, snapshot);
    hide AD.Acknowledge;
  }

  /** The only bundle in flight is the newest publication. */
  lemma OnlyOneFlying(c: Config, s: State, key: int)
    requires Invariant(c, s) && key in s.byStamp
    ensures s.byStamp == map[key := s.byStamp[key]] && s.byStamp[key].bundle.tRef == key
    ensures s.byStamp[key].bundle.id == NewestId(s.published)
    ensures s.gate.pending.Keys <= {s.byStamp[key].bundle.id}
    ensures c.graph.Some? && s.graph.Some? ==> s.graph.value.lastEnqueued < s.byStamp[key].bundle.id
  {
    hide RA.Invariant, TG.Invariant, AD.Invariant, JobsOk, PublishedOk, PendingOk, ReadyOk, Fresh, AboveMark;
    OneKey(s.byStamp, key);
  }

  lemma OneKey<V>(m: map<int, V>, key: int)
    requires key in m && |m| <= 1
    ensures m.Keys == {key} && m == map[key := m[key]] && m - {key} == map[]
  {
    assert |m.Keys| == |m|;
    assert |m.Keys - {key}| == 0;
  }

  /** With its result accepted, the bundle leaves flight and the graph may have been given it. */
  lemma Landed(c: Config, s: State, graph: Option<AD.State>)
    requires Invariant(c, s) && s.byStamp != map[] && s.gate.pending == map[]
    requires GraphOk(c, graph, NewestId(s.published), map[])
    ensures Invariant(c, s.(byStamp := map[], graph := graph))
  {
    hide RA.Invariant, TG.Invariant, GraphOk, JobsOk, PublishedOk, PendingOk, ReadyOk, Fresh;
    assert |s.byStamp| >= 0;
  }

  lemma SubmitFacts(p: AD.Policy, g: AD.State, o: AD.Observation)
    requires p.Valid() && AD.Invariant(p, g) && g.lastEnqueued < o.id
    ensures AD.Invariant(p, AD.Submit(p, g, o)) && AD.Submit(p, g, o).lastEnqueued <= o.id
  {
    hide AD.Invariant, AD.WellFormed;
    AD.StepKeeps(p, g, AD.Submitted(o));
  }

  lemma FailForgets(s: State, key: int, reason: string)
    ensures var failed := Fail(s, reason);
            failed.(byStamp := failed.byStamp - {key}) == Fail(s.(byStamp := s.byStamp - {key}), reason)
  {
    hide SF.Latch, TG.Pause;
    var none: map<int, Record> := map[];
    assert none - {key} == none;
  }

  /** Taking the landed bundle out of flight may be done before the delivery. */
  lemma DeliveryCommutes(c: Config, s: State, key: int, now: int, sendFault: Option<string>)
    ensures var sent := DeliverGraph(c, s, now, sendFault);
            sent.(byStamp := sent.byStamp - {key}) == DeliverGraph(c, s.(byStamp := s.byStamp - {key}), now, sendFault)
  {
    hide AD.Send, Fail;
    if c.graph.Some? && s.graph.Some? {
      var g := AD.Send(c.graph.value, s.graph.value, now).0;
      if g.failure.Some? {
        FailForgets(s.(graph := Some(g)), key, g.failure.value);
      } else if sendFault.Some? {
        FailForgets(s.(graph := Some(g)), key, sendFault.value);
      }
    }
  }

  lemma HandOverKeeps(c: Config, s: State, key: int, now: int, d: Delivery)
    requires Invariant(c, s) && key in s.byStamp && s.gate.pending == map[]
    ensures Invariant(c, HandOver(c, s, s.byStamp[key], now, d))
  {
    hide Invariant, Base, AD.Invariant, AD.Submit, Fail, DeliverGraph;
    OnlyOneFlying(c, s, key);
    OneKey(s.byStamp, key);
    GraphPresent(c, s);
    if c.graph.None? || s.graph.None? {
      Landed(c, s, s.graph);
    } else {
      var r := s.byStamp[key];
      var o := AD.Observation(r.bundle.id, d.rawKeys, c.odomEpoch, d.envelope);
      InvariantGraph(c, s);
      SubmitFacts(c.graph.value, s.graph.value, o);
      var g := AD.Submit(c.graph.value, s.graph.value, o);
      var landed := s.(byStamp := map[], graph := Some(g));
      Landed(c, s, Some(g));
      InvariantBase(c, landed);
      var s1 := s.(graph := Some(g));
      SameButFlying(c, landed, s1);
      if g.failure.Some? {
        FailKeeps(c, s1, g.failure.value);
      } else {
        DeliveryCommutes(c, s1, key, now, d.sendFault);
        assert s1.(byStamp := s1.byStamp - {key}) == landed;
        DeliverGraphKeeps(c, landed, now, d.sendFault);
      }
    }
  }

  lemma GraphPresent(c: Config, s: State)
    requires Invariant(c, s)
    ensures (s.graph.Some? <==> c.graph.Some?) && (s.graph.None? ==> GraphOk(c, s.graph, NewestId(s.published), map[]))
  {
    hide RA.Invariant, TG.Invariant, AD.Invariant, JobsOk, PublishedOk, PendingOk, ReadyOk, Fresh, AboveMark;
  }

  lemma SameButFlying(c: Config, s: State, s': State)
    requires Base(c, s) && s' == s.(byStamp := s'.byStamp)
    ensures Base(c, s')
  {
  }

  lemma AssessFacts(p: TG.Policy, g: TG.State, r: TG.Assessment, now: int)
    requires TG.Invariant(p, g)
    ensures var judged := TG.Assess(p, g, r, now);
            && TG.Invariant(p, judged.0) && judged.0.pending.Keys <= g.pending.Keys
            && (judged.1.None? && g.pending.Keys <= {r.id} ==> judged.0.pending == map[])
  {
    TG.StepKeeps(p, g, TG.Assessed(r, now));
    hide TG.Invariant, TG.AssessFault;
  }

  lemma AssessResultKeeps(c: Config, s: State, key: int, odom: Odom, info: Info, now: int, d: Delivery)
    requires Invariant(c, s) && key in s.byStamp
    ensures Invariant(c, AssessResult(c, s, s.byStamp[key], odom, info, now, d))
  {
    hide Invariant, Base, CheckGraph, TG.Assess, TG.Invariant, HandOver, Fail, Judged;
    var r, s1 := s.byStamp[key], CheckGraph(c, s);
    CheckGraphKeeps(c, s);
    InvariantBase(c, s1);
    if s1.graph.Some? && s1.graph.value.failure.Some? {
      FailKeeps(c, s1, s1.graph.value.failure.value);
    } else {
      OnlyOneFlying(c, s1, key);
      InvariantGate(c, s1);
      var assessment := Judged(c, s1, r, odom, info);
      assert assessment.id == r.bundle.id by { JudgedId(c, s1, r, odom, info); }
      AssessFacts(c.gate, s1.gate, assessment, now);
      var judged := TG.Assess(c.gate, s1.gate, assessment, now);
      var s2 := s1.(gate := judged.0);
      GateMoves(c, s1, judged.0);
      InvariantBase(c, s2);
      if judged.1.Some? {
        FailKeeps(c, s2, judged.1.value);
      } else if d.relayFault.Some? {
        FailKeeps(c, s2, d.relayFault.value);
      } else if d.lateFault.Some? {
        FailKeeps(c, s2, d.lateFault.value);
      } else {
        HandOverKeeps(c, s2, key, now, d);
      }
    }
  }

  lemma JudgedId(c: Config, s: State, r: Record, odom: Odom, info: Info)
    ensures Judged(c, s, r, odom, info).id == r.bundle.id
  {
  }

  /** Caches, the watch and the pause flag are outside the invariant. */
  lemma CachesMove(c: Config, s: State, s': State)
    requires Invariant(c, s) && s' == s.(odomCache := s'.odomCache, infoCache := s'.infoCache, watch := s'.watch, paused := s'.paused)
    ensures Invariant(c, s')
  {
    hide RA.Invariant, TG.Invariant, JobsOk, PublishedOk, GraphOk, PendingOk, ReadyOk, Fresh, AboveMark, FlyingOk, Config.Valid;
  }

  lemma CompleteKeeps(c: Config, s: State, key: int, now: int, d: Delivery)
    requires Invariant(c, s)
    ensures Invariant(c, Complete(c, s, key, now, d))
  {
    hide Invariant, Base, AssessResult, Fail;
    if key in s.odomCache && key in s.infoCache && key in s.byStamp {
      var s1 := s.(odomCache := s.odomCache - {key}, infoCache := s.infoCache - {key});
      CachesMove(c, s, s1);
      InvariantBase(c, s1);
      FailKeeps(c, s1, "ODOM_FRAME_MISMATCH");
      FailKeeps(c, s1, "INVALID_ODOM_QUATERNION");
      FailKeeps(c, s1, "INVALID_NATIVE_ICP_DIAGNOSTICS");
      AssessResultKeeps(c, s1, key, s.odomCache[key], s.infoCache[key], now, d);
    }
  }

  // ----- timer and services -----

  lemma FreshenKeeps(c: Config, s: State, now: int)
    requires Invariant(c, s)
    ensures Invariant(c, Freshen(c, s, now))
  {
    hide Invariant, Base, SF.CheckFreshness, TG.Expire, TG.Invariant, Fail;
    var f, g := SF.CheckFreshness(c.fusion, s.fusion, now), TG.Expire(c.gate, s.gate, now);
    FreshnessCounter(c.fusion, s.fusion, now);
    FusionMoves(c, s, f);
    InvariantGate(c, s);
    ExpireFacts(c.gate, s.gate, now);
    GateMoves(c, s.(fusion := f), g);
    var s1 := s.(fusion := f, gate := g);
    InvariantBase(c, s1);
    if f.latched.Some? && g.paused.None? {
      FailKeeps(c, s1, f.latched.value);
    } else if g.paused.Some? && f.latched.None? {
      FailKeeps(c, s1, g.paused.value);
    }
  }

  lemma ExpireFacts(p: TG.Policy, g: TG.State, now: int)
    requires TG.Invariant(p, g)
    ensures TG.Invariant(p, TG.Expire(p, g, now)) && TG.Expire(p, g, now).pending.Keys <= g.pending.Keys
  {
    TG.StepKeeps(p, g, TG.Ticked(now));
    hide TG.Invariant, TG.Late;
  }

  lemma WatchdogKeeps(c: Config, s: State, now: int, joinFault: Option<string>, outcome: Outcome, later: int, sendFault: Option<string>)
    requires Invariant(c, s)
    ensures Invariant(c, Watchdog(c, s, now, joinFault, outcome, later, sendFault))
  {
    hide Invariant, Base, Freshen, PublishArchived, DeliverGraph, Fail;
    InvariantBase(c, s);
    if joinFault.Some? {
      FailKeeps(c, s, joinFault.value);
    }
    var s1 := if !s.paused && s.fusion.latched.None? && joinFault.Some? then Fail(s, joinFault.value) else s;
    FreshenKeeps(c, s1, now);
    var s2 := if s1.paused then s1 else Freshen(c, s1, now);
    PublishArchivedKeeps(c, s2, now, outcome);
    DeliverGraphKeeps(c, PublishArchived(c, s2, now, outcome), later, sendFault);
  }

  lemma ResumeKeeps(c: Config, s: State, q: Request, now: int)
    requires Invariant(c, s)
    ensures Invariant(c, Resume(c, s, q, now))
  {
    hide Invariant, TG.Resume, TG.Invariant, Granted;
    if Admitted(c, s, q, now) {
      InvariantGate(c, s);
      ResumedGate(c, s.gate, Some(q.odomEpoch));
      Emptied(c, s, TG.Resume(s.gate, true, Some(q.odomEpoch)), SF.Resume(s.fusion, true));
    }
  }

  lemma ResumedGate(c: Config, g: TG.State, odomEpoch: Option<string>)
    requires TG.Invariant(c.gate, g) && TG.Resumable(g, true, odomEpoch)
    ensures TG.Invariant(c.gate, TG.Resume(g, true, odomEpoch)) && TG.Resume(g, true, odomEpoch).pending == map[]
  {
    TG.StepKeeps(c.gate, g, TG.Resumed(true, odomEpoch));
  }

  /** Forgetting what is archived or in flight keeps the invariant; ready records stay. */
  lemma Emptied(c: Config, s: State, g: TG.State, f: SF.State)
    requires Invariant(c, s) && TG.Invariant(c.gate, g) && g.pending == map[] && f.bundleCounter == s.fusion.bundleCounter
    ensures Invariant(c, s.(gate := g, fusion := f, byStamp := map[], archivePending := map[],
                            odomCache := map[], infoCache := map[], paused := false))
  {
    hide RA.Invariant, TG.Invariant, AD.Invariant, JobsOk, PublishedOk, ReadyOk, Fresh;
  }

  lemma ArchiveFacts(a: RA.State, e: RA.Event)
    requires RA.Invariant(a) && (e.Work? || e.Appear? || e.Close?)
    ensures RA.Invariant(RA.Step(a, e))
    ensures RA.Step(a, e).submitted == a.submitted && RA.Step(a, e).delivered == a.delivered
  {
    hide RA.Invariant, RA.DoWork;
    RA.StepKeeps(a, e);
    if e.Work? {
      RA.WorkKeepsBooks(a, e.outcome);
    }
  }

  lemma ArchiveMoves(c: Config, s: State, e: RA.Event)
    requires Invariant(c, s) && (e.Work? || e.Appear? || e.Close?)
    ensures Invariant(c, s.(archive := RA.Step(s.archive, e)))
  {
    hide TG.Invariant, GraphOk, JobsOk, PublishedOk, PendingOk, ReadyOk, Fresh, AboveMark, FlyingOk, RA.Invariant, RA.Step;
    ArchiveFacts(s.archive, e);
  }

  lemma StepKeeps(c: Config, s: State, e: Event)
    requires Invariant(c, s)
    ensures Invariant(c, Step(c, s, e))
  {
    hide Invariant, Base, Source, Complete, Watchdog, GraphAck, Resume, Fail, RA.DoWork;
    InvariantBase(c, s);
    match e {
      case SourceFrame(m, now) => SourceKeeps(c, s, m, now);
      case OdomArrived(key, publisherFault, odom, now, d) =>
        if publisherFault.Some? {
          FailKeeps(c, s, publisherFault.value);
        }
        CachesMove(c, s, s.(odomCache := s.odomCache[key := odom]));
        CompleteKeeps(c, s.(odomCache := s.odomCache[key := odom]), key, now, d);
      case InfoArrived(key, info, now, d) =>
        CachesMove(c, s, s.(infoCache := s.infoCache[key := info]));
        CompleteKeeps(c, s.(infoCache := s.infoCache[key := info]), key, now, d);
      case Tick(now, joinFault, outcome, later, sendFault) => WatchdogKeeps(c, s, now, joinFault, outcome, later, sendFault);
      case Acked(snapshot) => GraphAckKeeps(c, s, snapshot);
      case PauseCalled =>
        CachesMove(c, s, s.(paused := true));
        InvariantBase(c, s.(paused := true));
        FailKeeps(c, s.(paused := true), "EXPLICIT_PAUSE");
      case ResumeCalled(q, now) => ResumeKeeps(c, s, q, now);
      case OtherFault(reason) => FailKeeps(c, s, reason);
      case ArchiveWork(answer) => ArchiveMoves(c, s, RA.Work(answer));
      case FileAppears(path, file) => ArchiveMoves(c, s, RA.Appear(path, file));
      case Shutdown => ArchiveMoves(c, s, RA.Close);
    }
  }

  // ----- runs -----

  lemma {:induction false} AlwaysConsistent(c: Config, graphEpoch: Option<string>, disk: RA.Disk, events: seq<Event>)
    requires c.Valid()
    ensures Invariant(c, Run(c, Start(c, graphEpoch, disk), events))
  {
    if events == [] {
      StartConsistent(c, graphEpoch, disk);
    } else {
      AlwaysConsistent(c, graphEpoch, disk, events[..|events| - 1]);
      StepKeeps(c, Run(c, Start(c, graphEpoch, disk), events[..|events| - 1]), events[|events| - 1]);
      hide Step, Invariant;
    }
  }

  lemma StartConsistent(c: Config, graphEpoch: Option<string>, disk: RA.Disk)
    requires c.Valid()
    ensures Invariant(c, Start(c, graphEpoch, disk))
  {
    hide RA.Invariant, TG.Invariant, AD.Invariant;
    RA.AlwaysConsistent(c.fusion.maxQueue, disk, []);
    TG.AlwaysConsistent(c.gate, []);
    if c.graph.Some? {
      AD.AlwaysConsistent(c.graph.value, graphEpoch, []);
    }
  }

  /**
   In every run: whatever was published was archived durably first, once, within the age limit,
   in rising bundle order; at most one bundle is with the matcher; the bound covers the pipeline.
   */
  lemma PipelineContract(c: Config, graphEpoch: Option<string>, disk: RA.Disk, events: seq<Event>)
    requires c.Valid()
    ensures var s := Run(c, Start(c, graphEpoch, disk), events);
            && (forall i :: 0 <= i < |s.published| ==>
                  var p := s.published[i];
                  && s.archive.disk.Durable(PathOf(p.record.bundle.id), p.record.payload)
                  && 0 <= p.at - p.record.submitted <= c.fusion.maxAgeNs)
            && (forall i, j :: 0 <= i < j < |s.published| ==>
                  s.published[i].record.bundle.id < s.published[j].record.bundle.id)
            && |s.byStamp| <= 1 && Load(s) <= c.fusion.maxQueue
  {
    AlwaysConsistent(c, graphEpoch, disk, events);
    var s := Run(c, Start(c, graphEpoch, disk), events);
    hide Run, Start, Invariant;
    InvariantBase(c, s);
    InvariantBounds(c, s);
    forall i | 0 <= i < |s.published|
      ensures s.archive.disk.Durable(PathOf(s.published[i].record.bundle.id), s.published[i].record.payload)
              && 0 <= s.published[i].at - s.published[i].record.submitted <= c.fusion.maxAgeNs
    {
      PublishedIsDurable(c, s, i);
    }
    forall i, j | 0 <= i < j < |s.published| ensures s.published[i].record.bundle.id < s.published[j].record.bundle.id {
      PublishedRises(c, s, i, j);
    }
  }

  lemma InvariantBounds(c: Config, s: State)
    requires Invariant(c, s)
    ensures |s.byStamp| <= 1 && Load(s) <= c.fusion.maxQueue
  {
    hide Base, Waiting, GraphOk;
  }

  lemma PublishedIsDurable(c: Config, s: State, i: nat)
    requires Base(c, s) && i < |s.published|
    ensures s.archive.disk.Durable(PathOf(s.published[i].record.bundle.id), s.published[i].record.payload)
    ensures 0 <= s.published[i].at - s.published[i].record.submitted <= c.fusion.maxAgeNs
  {
    hide TG.Invariant, GraphOk, RA.InOrder, RA.BooksOk, RA.WorkerOk, KeyOf, PathOf, RA.Disk.Durable;
    var r := s.published[i].record;
    assert Archived(r, s.jobs, s.archive.delivered);
    assert RA.Done(s.archive)[r.nth] == s.archive.delivered[r.nth];
    assert s.archive.submitted[r.nth] == JobOf(r);
  }

  lemma PublishedRises(c: Config, s: State, i: nat, j: nat)
    requires Base(c, s) && i < j < |s.published|
    ensures s.published[i].record.bundle.id < s.published[j].record.bundle.id
  {
    hide RA.Invariant, TG.Invariant, GraphOk;
    var a, b := s.published[i].record, s.published[j].record;
    assert Archived(a, s.jobs, s.archive.delivered) && Archived(b, s.jobs, s.archive.delivered);
    assert s.jobs[a.nth].bundle.id < s.jobs[b.nth].bundle.id;
  }

  // ----- guards that never fire -----

  /** When a bundle is released the gate holds nothing: the duplicate and backlog guard is idle. */
  lemma GateTakesReleased(c: Config, s: State, b: SF.Bundle)
    requires Invariant(c, s) && s.byStamp == map[]
    ensures s.gate.pending == map[] && TG.SubmitFault(c.gate, s.gate, GateBundle(b)).None?
  {
    hide RA.Invariant, TG.Invariant, AD.Invariant, JobsOk, PublishedOk, Waiting;
  }

  /** An accepted bundle is newer than all the graph was given: with a well-formed envelope and a
      free slot the order guard of the delivery is idle. */
  lemma GraphTakesAccepted(c: Config, s: State, key: int, o: AD.Observation)
    requires Invariant(c, s) && key in s.byStamp && c.graph.Some? && s.graph.Some?
    requires AD.EnsureCapacity(c.graph.value, s.graph.value).failure.None? && AD.WellFormed(o) && o.id == s.byStamp[key].bundle.id
    ensures AD.Submit(c.graph.value, s.graph.value, o).failure.None?
  {
    hide Invariant, AD.WellFormed;
    OnlyOneFlying(c, s, key);
    AD.GuardedSubmitSucceeds(c.graph.value, s.graph.value, o);
  }

  /** A new bundle's key and path are on no book of the archive: its duplicate guard is idle. */
  lemma ArchiveNamesAreNew(c: Config, s: State, id: nat)
    requires Invariant(c, s) && id > s.fusion.bundleCounter
    ensures KeyOf(id) !in s.archive.outstanding && PathOf(id) !in s.archive.paths
  {
    hide TG.Invariant, GraphOk, PublishedOk, Waiting, FlyingOk, Load, RA.InOrder, RA.WorkerOk, RA.ResultsOk, RA.DistinctJobs;
    var open := s.archive.submitted[|s.archive.delivered|..];
    forall i | 0 <= i < |open| ensures open[i].key != KeyOf(id) && open[i].path != PathOf(id) {
      var r := s.jobs[|s.archive.delivered| + i];
      assert open[i] == JobOf(r);
      DigitsDiffer(r.bundle.id, id);
      SameStem(Digits(r.bundle.id), Digits(id), ".json");
    }
    NamesListed(open, KeyOf(id), PathOf(id));
  }

  lemma SameStem(a: string, b: string, suffix: string)
    ensures a + suffix == b + suffix ==> a == b
  {
    if a + suffix == b + suffix {
      assert |a| == |b|;
      assert a == (a + suffix)[..|a|] && b == (b + suffix)[..|b|];
    }
  }

  lemma {:induction false} NamesListed(open: seq<RA.Job>, key: string, path: string)
    requires forall i :: 0 <= i < |open| ==> open[i].key != key && open[i].path != path
    ensures key !in RA.KeysOf(open) && path !in RA.PathsOf(open)
  {
    if open != [] {
      NamesListed(open[1..], key, path);
    }
  }

  // ----- nothing submitted before a failure is published after it -----

  /** Everything archived, ready or in flight. */
  ghost function Records(pending: map<string, Record>, ready: seq<Record>, flying: map<int, Record>): set<Record> {
    (set k | k in pending :: pending[k]) + (set r | r in ready) + (set k | k in flying :: flying[k])
  }

  ghost function Held(s: State): set<Record> {
    Records(s.archivePending, s.icpReady, s.byStamp)
  }

  /** Nothing comes back: what `s'` holds was held or is of a newer bundle. */
  ghost predicate NothingReturns(s: State, s': State) {
    forall r :: r in Held(s') ==> r in Held(s) || r.bundle.id > s.fusion.bundleCounter
  }

  /** What `s'` may be when some steps lead from `s` to it. */
  ghost predicate Since(s: State, s': State) {
    && s.published <= s'.published && s.mark <= s'.mark && s.failures <= s'.failures
    && s.fusion.bundleCounter <= s'.fusion.bundleCounter && NothingReturns(s, s')
    && (forall i :: |s.published| <= i < |s'.published| ==> s.mark <= s'.published[i].mark)
    && (s.failures < s'.failures ==> s.fusion.bundleCounter <= s'.mark)
  }

  /** The same when no frame was fused on the way. */
  ghost predicate Later(s: State, s': State) {
    Since(s, s') && s'.fusion.bundleCounter == s.fusion.bundleCounter
  }

  lemma SinceTrans(a: State, b: State, d: State)
    requires Since(a, b) && Since(b, d)
    ensures Since(a, d)
  {
    assert forall i :: |a.published| <= i < |b.published| ==> d.published[i] == b.published[i];
  }

  lemma LaterTrans(a: State, b: State, d: State)
    requires Later(a, b) && Later(b, d)
    ensures Later(a, d)
  {
    hide Since;
    SinceTrans(a, b, d);
  }

  /** `fail()` moves the mark up to the newest bundle. */
  lemma FailLater(s: State, reason: string)
    requires s.mark <= s.fusion.bundleCounter
    ensures Later(s, Fail(s, reason)) && Fail(s, reason).mark == Fail(s, reason).fusion.bundleCounter
  {
    hide TG.Pause, Records;
    HeldAfterFail(s, reason);
  }

  /** The histories are as before, the bundle counter did not go back, nothing held comes back. */
  ghost predicate Still(s: State, s': State) {
    && s'.published == s.published && s'.mark == s.mark && s'.failures == s.failures
    && s.fusion.bundleCounter <= s'.fusion.bundleCounter && NothingReturns(s, s')
  }

  lemma HeldAfterFail(s: State, reason: string)
    ensures Held(Fail(s, reason)) == {}
  {
    hide SF.Latch, TG.Pause;
  }

  lemma HeldUnpended(s: State, key: string)
    ensures Held(s.(archivePending := s.archivePending - {key})) <= Held(s)
    ensures key in s.archivePending ==>
              Held(s.(archivePending := s.archivePending - {key}, icpReady := s.icpReady + [s.archivePending[key]])) <= Held(s)
  {
  }

  lemma HeldReleased(s: State, gate: TG.State, now: int)
    requires s.icpReady != []
    ensures Held(s.(icpReady := s.icpReady[1..], gate := gate)) <= Held(s)
    ensures Held(Publish(s, gate, now)) <= Held(s)
  {
    var r := s.icpReady[0];
    assert r in s.icpReady;
    assert forall x :: x in s.icpReady[1..] ==> x in s.icpReady;
  }

  lemma HeldLanded(s: State, key: int)
    ensures Held(s.(byStamp := s.byStamp - {key})) <= Held(s)
  {
  }

  lemma StillSince(s: State, s': State)
    requires Still(s, s')
    ensures Since(s, s')
  {
  }

  lemma StillLater(s: State, s': State)
    requires Still(s, s') && s'.fusion.bundleCounter == s.fusion.bundleCounter
    ensures Later(s, s')
  {
  }

  lemma StillFail(s: State, s': State, reason: string)
    requires Still(s, s') && s.mark <= s.fusion.bundleCounter
    ensures Since(s, Fail(s', reason)) && Fail(s', reason).mark <= Fail(s', reason).fusion.bundleCounter
    ensures s'.fusion.bundleCounter == s.fusion.bundleCounter ==> Later(s, Fail(s', reason))
  {
    hide TG.Pause, Records;
    HeldAfterFail(s', reason);
  }

  lemma HeldEntered(s: State, r: Record)
    ensures Held(Enter(s, r)) <= Held(s) + {r}
  {
    hide KeyOf, PathOf, RA.DoSubmit;
  }

  lemma TakeFrameSince(c: Config, s: State, m: SourceMsg, now: int)
    requires s.mark <= s.fusion.bundleCounter
    ensures Since(s, TakeFrame(c, s, m, now))
  {
    hide SF.Push, EntryFault, Since, Fail, RA.DoSubmit, KeyOf, PathOf, Records;
    var r := SF.Push(c.fusion, s.fusion, m.frame, m.fuseFault, now);
    PushCounter(c.fusion, s.fusion, m.frame, m.fuseFault, now);
    var s1 := s.(fusion := r.0);
    StillSince(s, s);
    StillSince(s, s1);
    forall reason ensures Since(s, Fail(s, reason)) && Since(s, Fail(s1, reason)) {
      StillFail(s, s, reason);
      StillFail(s, s1, reason);
    }
    if r.1.Fused? {
      HeldEntered(s1, Record(r.1.bundle, m.payload, now, |s.jobs|));
      StillSince(s, Enter(s1, Record(r.1.bundle, m.payload, now, |s.jobs|)));
    }
  }

  lemma SourceSince(c: Config, s: State, m: SourceMsg, now: int)
    requires s.mark <= s.fusion.bundleCounter
    ensures Since(s, Source(c, s, m, now))
  {
    hide TakeFrame, Since, Fail, Observed, Records;
    var seen := s.(watch := Observed(c, s.watch, m, now));
    StillSince(s, seen);
    forall reason ensures Since(s, Fail(s, reason)) {
      StillFail(s, s, reason);
    }
    TakeFrameSince(c, seen, m, now);
    SinceTrans(s, seen, TakeFrame(c, seen, m, now));
  }

  lemma {:induction false} PollLater(s: State, results: seq<RA.ArchiveResult>)
    requires s.mark <= s.fusion.bundleCounter
    ensures Later(s, PollAll(s, results)) && PollAll(s, results).mark <= PollAll(s, results).fusion.bundleCounter
  {
    if results == [] {
      StillLater(s, s);
    } else {
      var before := PollAll(s, results[..|results| - 1]);
      PollLater(s, results[..|results| - 1]);
      PollOneLater(before, results[|results| - 1]);
      LaterTrans(s, before, PollAll(s, results));
    }
  }

  lemma PollOneLater(s: State, r: RA.ArchiveResult)
    requires s.mark <= s.fusion.bundleCounter
    ensures Later(s, PollOne(s, r)) && PollOne(s, r).mark <= PollOne(s, r).fusion.bundleCounter
  {
    hide Fail, Later, Records;
    HeldUnpended(s, r.key);
    if r.error.Some? {
      StillFail(s, s.(archivePending := s.archivePending - {r.key}), "RAW_ARCHIVE_FAILED:" + r.error.value);
    } else {
      StillLater(s, PollOne(s, r));
    }
  }

  lemma PublishLater(c: Config, s: State, now: int, outcome: Outcome)
    requires s.mark <= s.fusion.bundleCounter
    ensures Later(s, PublishArchived(c, s, now, outcome))
  {
    hide Fail, Later, Release, RA.DoPoll, PollAll;
    var polled := s.(archive := RA.DoPoll(s.archive));
    StillLater(s, polled);
    PollLater(polled, s.archive.results);
    var s1 := Collect(s);
    LaterTrans(s, polled, s1);
    StillFail(s1, s1, "RAW_ARCHIVE_AGE_EXCEEDED");
    LaterTrans(s, s1, Fail(s1, "RAW_ARCHIVE_AGE_EXCEEDED"));
    if s1.icpReady != [] {
      ReleaseLater(c, s1, now, outcome);
      LaterTrans(s, s1, Release(c, s1, now, outcome));
    }
  }

  lemma ReleaseLater(c: Config, s: State, now: int, outcome: Outcome)
    requires s.mark <= s.fusion.bundleCounter && s.icpReady != []
    ensures Later(s, Release(c, s, now, outcome))
    ensures Release(c, s, now, outcome).mark <= Release(c, s, now, outcome).fusion.bundleCounter
  {
    hide Fail, TG.Submit;
    var r := s.icpReady[0];
    var taken := TG.Submit(c.gate, s.gate, GateBundle(r.bundle), now);
    var s1 := s.(icpReady := s.icpReady[1..], gate := taken.0);
    var s2 := s1.(byStamp := s1.byStamp[r.bundle.tRef := r]);
    HeldReleased(s, taken.0, now);
    assert Held(s2) == Held(Publish(s, taken.0, now));
    hide Records;
    if taken.1.Some? {
      StillFail(s, s1, taken.1.value);
    } else if outcome.Unsent? {
      StillFail(s, s2, outcome.text);
    } else {
      var s3 := Publish(s, taken.0, now);
      assert s3.published[|s.published|].mark == s.mark;
      assert Later(s, s3);
      if outcome.SentThen? {
        FailLater(s3, outcome.text);
        hide Later;
        LaterTrans(s, s3, Fail(s3, outcome.text));
      }
    }
  }

  lemma DeliverLater(c: Config, s: State, now: int, sendFault: Option<string>)
    requires s.mark <= s.fusion.bundleCounter
    ensures Later(s, DeliverGraph(c, s, now, sendFault))
  {
    hide Fail, Later, AD.Send;
    StillLater(s, s);
    if c.graph.Some? && s.graph.Some? {
      var s1 := s.(graph := Some(AD.Send(c.graph.value, s.graph.value, now).0));
      StillLater(s, s1);
      forall reason ensures Later(s, Fail(s1, reason)) {
        StillFail(s, s1, reason);
      }
    }
  }

  lemma HandOverLater(c: Config, s: State, r: Record, now: int, d: Delivery)
    requires s.mark <= s.fusion.bundleCounter
    ensures Later(s, HandOver(c, s, r, now, d))
  {
    hide Fail, Later, AD.Submit, DeliverGraph;
    HeldLanded(s, r.bundle.tRef);
    if c.graph.None? || s.graph.None? {
      StillLater(s, HandOver(c, s, r, now, d));
    } else {
      var g := AD.Submit(c.graph.value, s.graph.value, AD.Observation(r.bundle.id, d.rawKeys, c.odomEpoch, d.envelope));
      var s1 := s.(graph := Some(g));
      StillLater(s, s1);
      if g.failure.Some? {
        StillFail(s, s1, g.failure.value);
      } else {
        var s2 := DeliverGraph(c, s1, now, d.sendFault);
        DeliverLater(c, s1, now, d.sendFault);
        var s3 := s2.(byStamp := s2.byStamp - {r.bundle.tRef});
        HeldLanded(s2, r.bundle.tRef);
        StillLater(s2, s3);
        LaterTrans(s, s1, s2);
        LaterTrans(s, s2, s3);
      }
    }
  }

  lemma CompleteLater(c: Config, s: State, key: int, now: int, d: Delivery)
    requires s.mark <= s.fusion.bundleCounter
    ensures Later(s, Complete(c, s, key, now, d))
  {
    hide Fail, Later, AssessResult;
    StillLater(s, s);
    if key in s.odomCache && key in s.infoCache && key in s.byStamp {
      var s1 := s.(odomCache := s.odomCache - {key}, infoCache := s.infoCache - {key});
      forall reason ensures Later(s, Fail(s1, reason)) {
        StillFail(s, s1, reason);
      }
      StillLater(s, s1);
      var s2 := AssessResult(c, s1, s.byStamp[key], s.odomCache[key], s.infoCache[key], now, d);
      AssessLater(c, s1, s.byStamp[key], s.odomCache[key], s.infoCache[key], now, d);
      LaterTrans(s, s1, s2);
    }
  }

  lemma AssessLater(c: Config, s: State, r: Record, odom: Odom, info: Info, now: int, d: Delivery)
    requires s.mark <= s.fusion.bundleCounter
    ensures Later(s, AssessResult(c, s, r, odom, info, now, d))
  {
    hide Fail, Later, HandOver, TG.Assess, Judged, AD.EnsureCapacity;
    var s1 := CheckGraph(c, s);
    var s2 := s1.(gate := TG.Assess(c.gate, s1.gate, Judged(c, s1, r, odom, info), now).0);
    forall reason ensures Later(s, Fail(s1, reason)) && Later(s, Fail(s2, reason)) {
      StillFail(s, s1, reason);
      StillFail(s, s2, reason);
    }
    StillLater(s, s2);
    HandOverLater(c, s2, r, now, d);
    LaterTrans(s, s2, HandOver(c, s2, r, now, d));
  }

  lemma WatchdogLater(c: Config, s: State, now: int, joinFault: Option<string>, outcome: Outcome, later: int, sendFault: Option<string>)
    requires s.mark <= s.fusion.bundleCounter
    ensures Later(s, Watchdog(c, s, now, joinFault, outcome, later, sendFault))
  {
    hide Fail, Later, Freshen, PublishArchived, DeliverGraph;
    StillLater(s, s);
    if joinFault.Some? {
      StillFail(s, s, joinFault.value);
    }
    var s1 := if !s.paused && s.fusion.latched.None? && joinFault.Some? then Fail(s, joinFault.value) else s;
    FreshenLater(c, s1, now);
    StillLater(s1, s1);
    var s2 := if s1.paused then s1 else Freshen(c, s1, now);
    var s3 := PublishArchived(c, s2, now, outcome);
    PublishLater(c, s2, now, outcome);
    LaterTrans(s, s1, s2);
    LaterTrans(s, s2, s3);
    MarkBelow(c, s2, now, outcome);
    DeliverLater(c, s3, later, sendFault);
    LaterTrans(s, s3, DeliverGraph(c, s3, later, sendFault));
  }

  lemma MarkBelow(c: Config, s: State, now: int, outcome: Outcome)
    requires s.mark <= s.fusion.bundleCounter
    ensures PublishArchived(c, s, now, outcome).mark <= PublishArchived(c, s, now, outcome).fusion.bundleCounter
  {
    hide RA.DoPoll, PollAll, Release, Later;
    PollLater(s.(archive := RA.DoPoll(s.archive)), s.archive.results);
    var s1 := Collect(s);
    if s1.icpReady != [] {
      ReleaseLater(c, s1, now, outcome);
    }
  }

  lemma FreshenLater(c: Config, s: State, now: int)
    requires s.mark <= s.fusion.bundleCounter
    ensures Later(s, Freshen(c, s, now)) && Freshen(c, s, now).mark <= Freshen(c, s, now).fusion.bundleCounter
  {
    hide Fail, Later, SF.CheckFreshness, TG.Expire;
    FreshnessCounter(c.fusion, s.fusion, now);
    var f := SF.CheckFreshness(c.fusion, s.fusion, now);
    var s1 := s.(fusion := f, gate := TG.Expire(c.gate, s.gate, now));
    StillLater(s, s1);
    forall reason ensures Later(s, Fail(s1, reason)) && Fail(s1, reason).mark <= Fail(s1, reason).fusion.bundleCounter {
      StillFail(s, s1, reason);
    }
  }

  lemma GraphAckLater(c: Config, s: State, snapshot: AD.Snapshot)
    requires s.mark <= s.fusion.bundleCounter
    ensures Later(s, GraphAck(c, s, snapshot))
  {
    hide Fail, Later, AD.Acknowledge;
    StillLater(s, s);
    if c.graph.Some? && s.graph.Some? {
      var s1 := s.(graph := Some(AD.Acknowledge(c.graph.value, s.graph.value, snapshot)));
      StillLater(s, s1);
      forall reason ensures Later(s, Fail(s1, reason)) {
        StillFail(s, s1, reason);
      }
    }
  }

  lemma StepLater(c: Config, s: State, e: Event)
    requires s.mark <= s.fusion.bundleCounter
    ensures Since(s, Step(c, s, e)) && (!e.SourceFrame? ==> Later(s, Step(c, s, e)))
  {
    hide Fail, Since, Source, Complete, Watchdog, GraphAck, RA.DoWork, RA.Step, TG.Resume, Admitted;
    StillLater(s, s);
    match e {
      case SourceFrame(m, now) => SourceSince(c, s, m, now);
      case OdomArrived(key, publisherFault, odom, now, d) =>
        if publisherFault.Some? {
          StillFail(s, s, publisherFault.value);
        }
        var s1 := s.(odomCache := s.odomCache[key := odom]);
        StillLater(s, s1);
        CompleteLater(c, s1, key, now, d);
        LaterTrans(s, s1, Complete(c, s1, key, now, d));
      case InfoArrived(key, info, now, d) =>
        var s1 := s.(infoCache := s.infoCache[key := info]);
        StillLater(s, s1);
        CompleteLater(c, s1, key, now, d);
        LaterTrans(s, s1, Complete(c, s1, key, now, d));
      case Tick(now, joinFault, outcome, later, sendFault) => WatchdogLater(c, s, now, joinFault, outcome, later, sendFault);
      case Acked(snapshot) => GraphAckLater(c, s, snapshot);
      case PauseCalled => StillFail(s, s.(paused := true), "EXPLICIT_PAUSE");
      case OtherFault(reason) => StillFail(s, s, reason);
      case _ => StillLater(s, Step(c, s, e));
    }
  }

  lemma BaseMark(c: Config, s: State)
    requires Base(c, s)
    ensures s.mark <= s.fusion.bundleCounter
  {
  }

  lemma {:induction false} RunLater(c: Config, s: State, events: seq<Event>)
    requires Invariant(c, s)
    ensures Since(s, Run(c, s, events)) && Invariant(c, Run(c, s, events))
  {
    hide Invariant, Base, Since, Step;
    if events == [] {
      StillSince(s, s);
    } else {
      var before := Run(c, s, events[..|events| - 1]);
      RunLater(c, s, events[..|events| - 1]);
      StepKeeps(c, before, events[|events| - 1]);
      InvariantBase(c, before);
      BaseMark(c, before);
      StepLater(c, before, events[|events| - 1]);
      SinceTrans(s, before, Run(c, s, events));
    }
  }

  /**
   Once a step calls `fail()`, no bundle fused before that step is ever published after it,
   whatever follows, resumes included.
   */
  lemma NothingOldAfterFail(c: Config, graphEpoch: Option<string>, disk: RA.Disk, events: seq<Event>, e: Event, more: seq<Event>)
    requires c.Valid()
    ensures var before := Run(c, Start(c, graphEpoch, disk), events);
            var after := Step(c, before, e);
            var end := Run(c, after, more);
            before.failures < after.failures ==>
              forall i :: |after.published| <= i < |end.published| ==>
                end.published[i].record.bundle.id > before.fusion.bundleCounter
  {
    hide Invariant, Base, Step, Run, Start, Since;
    var before := Run(c, Start(c, graphEpoch, disk), events);
    var after := Step(c, before, e);
    var end := Run(c, after, more);
    AlwaysConsistent(c, graphEpoch, disk, events);
    InvariantBase(c, before);
    BaseMark(c, before);
    StepLater(c, before, e);
    StepKeeps(c, before, e);
    RunLater(c, after, more);
    InvariantBase(c, end);
    if before.failures < after.failures {
      NewOnly(c, before, after, end);
    }
  }

  lemma NewOnly(c: Config, before: State, after: State, end: State)
    requires Since(before, after) && Since(after, end) && Base(c, end) && before.failures < after.failures
    ensures forall i :: |after.published| <= i < |end.published| ==>
              end.published[i].record.bundle.id > before.fusion.bundleCounter
  {
    hide Base;
    forall i | |after.published| <= i < |end.published| ensures end.published[i].record.bundle.id > before.fusion.bundleCounter {
      PublishedMark(c, end, i);
    }
  }

  lemma PublishedMark(c: Config, s: State, i: nat)
    requires Base(c, s) && i < |s.published|
    ensures s.published[i].mark < s.published[i].record.bundle.id
  {
  }

  // ----- one bundle per stamp -----

  /** No two bundles on their way share a reference stamp, so a result joins at most one. */
  ghost predicate Apart(held: set<Record>) {
    forall a, b :: a in held && b in held && a.bundle.tRef == b.bundle.tRef ==> a == b
  }

  lemma HeldIsOld(c: Config, s: State)
    requires Invariant(c, s)
    ensures forall r :: r in Held(s) ==> r.bundle.id <= s.fusion.bundleCounter
  {
    hide RA.Invariant, TG.Invariant, GraphOk, PublishedOk, Fresh, AboveMark, KeyOf;
    forall r | r in Held(s) ensures r.bundle.id <= s.fusion.bundleCounter {
      if k :| k in s.archivePending && s.archivePending[k] == r {
        assert Open(r, s.jobs, |s.archive.delivered|);
      } else if r in s.icpReady {
        var i :| 0 <= i < |s.icpReady| && s.icpReady[i] == r;
        assert Archived(s.icpReady[i], s.jobs, s.archive.delivered);
      } else {
        var k :| k in s.byStamp && s.byStamp[k] == r;
        PublishedJob(c, s, |s.published| - 1);
      }
    }
  }

  lemma PublishedJob(c: Config, s: State, i: nat)
    requires Base(c, s) && i < |s.published|
    ensures s.published[i].record.bundle.id <= s.fusion.bundleCounter
  {
    hide RA.Invariant, TG.Invariant, GraphOk;
    assert Archived(s.published[i].record, s.jobs, s.archive.delivered);
  }

  lemma UnusedStamp(c: Config, s: State, stamp: int)
    requires !StampInUse(s, stamp) && forall k :: k in s.byStamp ==> s.byStamp[k].bundle.tRef == k
    ensures forall r :: r in Held(s) ==> r.bundle.tRef != stamp
  {
  }

  lemma FlyingStamps(c: Config, s: State)
    requires Invariant(c, s)
    ensures forall k :: k in s.byStamp ==> s.byStamp[k].bundle.tRef == k
  {
    hide Base, Waiting, GraphOk;
  }

  lemma EntryStamp(c: Config, s: State, b: SF.Bundle, m: SourceMsg)
    requires EntryFault(c, s, b, m).None?
    ensures !StampInUse(s, b.tRef)
  {
    hide StampInUse, InRosRange, Load, KeyOf, PathOf, RA.SubmitError;
  }

  /** A fused bundle enters only with a stamp of its own. */
  lemma TakeFrameApart(c: Config, s: State, m: SourceMsg, now: int)
    requires Invariant(c, s) && Apart(Held(s))
    ensures Apart(Held(TakeFrame(c, s, m, now)))
  {
    hide SF.Push, EntryFault, Records, Fail, Enter, StampInUse, Invariant;
    var r := SF.Push(c.fusion, s.fusion, m.frame, m.fuseFault, now);
    var s1 := s.(fusion := r.0);
    forall reason ensures Held(Fail(s, reason)) == {} && Held(Fail(s1, reason)) == {} {
      HeldAfterFail(s, reason);
      HeldAfterFail(s1, reason);
    }
    if r.1.Fused? && EntryFault(c, s1, r.1.bundle, m).None? {
      var record := Record(r.1.bundle, m.payload, now, |s.jobs|);
      EntryStamp(c, s1, r.1.bundle, m);
      FlyingStamps(c, s);
      UnusedStamp(c, s1, r.1.bundle.tRef);
      HeldEntered(s1, record);
      assert Held(s1) == Held(s);
    }
  }

  lemma SourceApart(c: Config, s: State, m: SourceMsg, now: int)
    requires Invariant(c, s) && Apart(Held(s))
    ensures Apart(Held(Source(c, s, m, now)))
  {
    hide TakeFrame, Records, Fail, Invariant, Observed;
    forall reason ensures Held(Fail(s, reason)) == {} {
      HeldAfterFail(s, reason);
    }
    var seen := s.(watch := Observed(c, s.watch, m, now));
    CachesMove(c, s, seen);
    assert Held(seen) == Held(s);
    TakeFrameApart(c, seen, m, now);
  }

  lemma StepApart(c: Config, s: State, e: Event)
    requires Invariant(c, s) && Apart(Held(s))
    ensures Apart(Held(Step(c, s, e)))
  {
    hide Invariant, Base, Records, Source, Step, Apart;
    if e.SourceFrame? {
      SourceApart(c, s, e.msg, e.now);
      StepIsSource(c, s, e);
    } else {
      InvariantBase(c, s);
      BaseMark(c, s);
      StepLater(c, s, e);
      StepKeeps(c, s, e);
      HeldIsOld(c, Step(c, s, e));
      FewerApart(s, Step(c, s, e));
    }
  }

  lemma StepIsSource(c: Config, s: State, e: Event)
    requires e.SourceFrame?
    ensures Step(c, s, e) == Source(c, s, e.msg, e.now)
  {
    hide Source;
  }

  lemma FewerApart(s: State, s': State)
    requires Later(s, s') && Apart(Held(s)) && forall r :: r in Held(s') ==> r.bundle.id <= s'.fusion.bundleCounter
    ensures Apart(Held(s'))
  {
    hide Records;
    assert Held(s') <= Held(s);
  }

  lemma {:induction false} StampsStayApart(c: Config, graphEpoch: Option<string>, disk: RA.Disk, events: seq<Event>)
    requires c.Valid()
    ensures Apart(Held(Run(c, Start(c, graphEpoch, disk), events)))
  {
    if events == [] {
      assert Held(Start(c, graphEpoch, disk)) == {};
    } else {
      hide Step, Invariant, Records, Apart, Start;
      StampsStayApart(c, graphEpoch, disk, events[..|events| - 1]);
      AlwaysConsistent(c, graphEpoch, disk, events[..|events| - 1]);
      StepApart(c, Run(c, Start(c, graphEpoch, disk), events[..|events| - 1]), events[|events| - 1]);
    }
  }

  // ----- only tracked results are accepted -----

  /** The verdict on a native result under which its pose may be accepted. */
  predicate Tracked(c: Config, first: bool, odom: Odom, info: Info) {
    && odom.frameOk && odom.poseOk && !info.lost
    && (info.correspondences > 0 ==> info.metricsOk)
    && (first || (info.correspondences >= c.minCorrespondences && (info.correspondences <= 0 || info.complexityOk)))
  }

  lemma FailAccepts(s: State, reason: string)
    ensures Fail(s, reason).gate.accepted == s.gate.accepted
  {
    hide SF.Latch;
  }

  lemma DeliverAccepts(c: Config, s: State, now: int, sendFault: Option<string>)
    ensures DeliverGraph(c, s, now, sendFault).gate.accepted == s.gate.accepted
  {
    hide Fail, AD.Send;
    if c.graph.Some? && s.graph.Some? {
      forall reason ensures Fail(s.(graph := Some(AD.Send(c.graph.value, s.graph.value, now).0)), reason).gate.accepted == s.gate.accepted {
        FailAccepts(s.(graph := Some(AD.Send(c.graph.value, s.graph.value, now).0)), reason);
      }
    }
  }

  lemma HandOverAccepts(c: Config, s: State, r: Record, now: int, d: Delivery)
    ensures HandOver(c, s, r, now, d).gate.accepted == s.gate.accepted
  {
    hide Fail, AD.Submit, DeliverGraph;
    if c.graph.Some? && s.graph.Some? {
      var g := AD.Submit(c.graph.value, s.graph.value, AD.Observation(r.bundle.id, d.rawKeys, c.odomEpoch, d.envelope));
      var s1 := s.(graph := Some(g));
      if g.failure.Some? {
        FailAccepts(s1, g.failure.value);
      }
      DeliverAccepts(c, s1, now, d.sendFault);
    }
  }

  /** A pose counts as accepted only for the bundle in flight, from a complete tracked result. */
  lemma AcceptanceIsJustified(c: Config, s: State, key: int, now: int, d: Delivery)
    ensures Complete(c, s, key, now, d).gate.accepted > s.gate.accepted ==>
              && key in s.odomCache && key in s.infoCache && key in s.byStamp
              && Tracked(c, s.gate.accepted == 0, s.odomCache[key], s.infoCache[key])
              && s.gate.paused.None? && s.byStamp[key].bundle.id in s.gate.pending
  {
    hide Fail, AssessResult;
    if key in s.odomCache && key in s.infoCache && key in s.byStamp {
      var s1 := s.(odomCache := s.odomCache - {key}, infoCache := s.infoCache - {key});
      FailAccepts(s1, "ODOM_FRAME_MISMATCH");
      FailAccepts(s1, "INVALID_ODOM_QUATERNION");
      FailAccepts(s1, "INVALID_NATIVE_ICP_DIAGNOSTICS");
      AssessAccepts(c, s1, s.byStamp[key], s.odomCache[key], s.infoCache[key], now, d);
    }
  }

  lemma AssessAccepts(c: Config, s: State, r: Record, odom: Odom, info: Info, now: int, d: Delivery)
    ensures AssessResult(c, s, r, odom, info, now, d).gate.accepted > s.gate.accepted ==>
              && Judged(c, s, r, odom, info).trackingValid
              && s.gate.paused.None? && r.bundle.id in s.gate.pending
  {
    hide Fail, HandOver, AD.EnsureCapacity;
    var s1 := CheckGraph(c, s);
    var judged := TG.Assess(c.gate, s1.gate, Judged(c, s1, r, odom, info), now);
    var s2 := s1.(gate := judged.0);
    forall reason ensures Fail(s1, reason).gate.accepted == s.gate.accepted && Fail(s2, reason).gate.accepted == judged.0.accepted {
      FailAccepts(s1, reason);
      FailAccepts(s2, reason);
    }
    HandOverAccepts(c, s2, r, now, d);
  }
}
