/**
 Complete runs through the state of `FrontEndLatch`, one for every node without graph delivery whose
 result timeout is below three age limits: three bundles are fused and archived, the first is
 accepted, the second stays in flight, the third is ready; then both deadlines pass, two more frames
 a side make the sources steady, and a resume is granted.
 */
module LatchedRun {
  import opened Common
  import opened Decimals
  import opened FrontEnd
  import FrontEndLatch
  import FrontEndSafety
  import FrontEndTiming
  import SF = SourceFusion
  import RA = RawArchive
  import TG = TrackingGate

  /** The timeout leaves room for a bundle to outlive a latch. */
  predicate Short(c: Config) {
    && c.Valid() && c.graph.None? && !c.wheel && c.fusion.maxQueue >= 2 && c.fusion.maxAgeNs >= 1
    && 0 <= c.gate.timeoutNs < 3 * c.fusion.maxAgeNs
  }

  // ----- the times -----

  /** When bundle `k` is fused: the third as late as a miss of the timeout finds it in time. */
  function At(c: Config, k: nat): int {
    var third := if c.gate.timeoutNs + 1 > c.fusion.maxAgeNs then c.gate.timeoutNs + 1 - c.fusion.maxAgeNs else 0;
    if k <= 1 then 0
    else if k == 2 then if third > c.fusion.maxAgeNs then third - c.fusion.maxAgeNs else 0
    else third
  }

  /** When its frames were taken: the last ones just before they are too old at the end. */
  function HostAt(c: Config, k: nat): int {
    SF.Min(At(c, k), c.gate.timeoutNs - c.fusion.maxAgeNs)
  }

  function End(c: Config): int {
    c.gate.timeoutNs + 1
  }

  lemma TimesFit(c: Config, k: nat)
    requires Short(c) && k < 3
    ensures 0 <= At(c, k) <= At(c, k + 1) <= c.gate.timeoutNs
    ensures 0 <= At(c, k + 1) - HostAt(c, k + 1) <= At(c, k + 1) - HostAt(c, k) <= c.fusion.maxAgeNs
    ensures At(c, k + 1) - At(c, k) <= c.fusion.maxAgeNs && At(c, 0) == At(c, 1) == 0
    ensures 0 < End(c) - At(c, 3) <= c.fusion.maxAgeNs < End(c) - HostAt(c, 3)
  {
  }

  function FrameOf(c: Config, side: Side, k: nat): SF.Frame {
    SF.Frame(side, "a", k, k, HostAt(c, k), None, None)
  }

  function Arrives(c: Config, side: Side, k: nat): Event {
    SourceFrame(SourceMsg(FrameOf(c, side, k), true, None, true, true, None, None, None, "x"), At(c, k))
  }

  function BundleOf(c: Config, k: nat): SF.Bundle {
    SF.Bundle(k, k, FrameOf(c, Left, k), FrameOf(c, Right, k))
  }

  function RecordOf(c: Config, k: nat, nth: nat): Record {
    Record(BundleOf(c, k), "x", At(c, k), nth)
  }

  // ----- fusion -----

  /** This stream was seen up to number `k`. */
  ghost predicate Known(f: SF.State, side: Side, k: nat) {
    var stream := SF.Stream(side, "a");
    && (forall key :: key in f.seen && key.stream == stream ==> key.sequence <= k)
    && (stream in f.stampHigh ==> f.stampHigh[stream].sequence <= k && f.stampHigh[stream].stamp <= k)
    && (stream in f.sequenceHigh ==> f.sequenceHigh[stream] <= k)
    && (side in f.epochs ==> f.epochs[side] == "a")
  }

  /** The last frames came from bundles `l` and `r`, and bundle `b` was the last one. */
  ghost predicate Clocks(c: Config, f: SF.State, l: nat, r: nat, b: nat) {
    && (Left in f.lastSeen <==> l > 0) && (Left in f.lastSeen ==> f.lastSeen[Left] == HostAt(c, l))
    && (Right in f.lastSeen <==> r > 0) && (Right in f.lastSeen ==> f.lastSeen[Right] == HostAt(c, r))
    && (f.started.Some? ==> f.started.value == 0) && (l > 0 ==> f.started.Some?)
    && (f.lastBundle.Some? <==> b > 0) && (f.lastBundle.Some? ==> f.lastBundle.value == At(c, b))
  }

  /** No deadline of the fusion is missed when bundle `k + 1` is due. */
  lemma InTime(c: Config, f: SF.State, l: nat, r: nat, b: nat, k: nat)
    requires Short(c) && k < 3 && Clocks(c, f, l, r, b) && f.latched.None?
    requires l == k + 1 && k <= r <= k + 1 && k <= b <= k + 1
    ensures SF.CheckFreshness(c.fusion, f, At(c, k + 1)) == f
  {
    TimesFit(c, k);
    hide At, HostAt;
  }

  lemma Checked(c: Config, f: SF.State, side: Side, k: nat)
    requires Short(c) && k < 3 && Known(f, side, k) && f.latched.None?
    ensures var fr := FrameOf(c, side, k + 1);
            SF.Check(c.fusion, f, fr, At(c, k + 1)) == SF.Checked(SF.Remember(c.fusion, SF.Adopt(f, fr), fr), None)
  {
    TimesFit(c, k);
    hide SF.Remember, At, HostAt;
  }

  /** The clocks with frame `k + 1` of this side. */
  ghost predicate ClocksAfter(c: Config, f: SF.State, side: Side, k: nat) {
    if side.Left? then Clocks(c, f, k + 1, k, k) else Clocks(c, f, k + 1, k + 1, k)
  }

  ghost predicate ClocksBefore(c: Config, f: SF.State, side: Side, k: nat) {
    if side.Left? then Clocks(c, f, k, k, k) else Clocks(c, f, k + 1, k, k)
  }

  lemma Remembered(c: Config, f: SF.State, side: Side, k: nat)
    requires Short(c) && k < 3 && Known(f, side, k) && ClocksBefore(c, f, side, k)
    ensures var fr := FrameOf(c, side, k + 1);
            var f' := SF.Arrive(SF.Remember(c.fusion, SF.Adopt(f, fr), fr), fr, At(c, k + 1));
            && Known(f', side, k + 1) && ClocksAfter(c, f', side, k)
            && f'.left == f.left && f'.right == f.right && f'.latched == f.latched && f'.bundleCounter == f.bundleCounter
            && f'.emitted == f.emitted
            && (forall other: Side, n :: other != side && Known(f, other, n) ==> Known(f', other, n))
  {
    TimesFit(c, k);
    assert k == 0 ==> At(c, k + 1) == 0;
    hide SF.Last, SF.ToSet, At, HostAt;
  }

  /** The frame waits alone, or pairs with the frame of the same number waiting on the other side. */
  lemma Pushed(c: Config, f: SF.State, side: Side, k: nat, waiting: seq<SF.Frame>)
    requires Short(c) && k < 3 && Known(f, side, k) && ClocksBefore(c, f, side, k) && f.latched.None? && f.bundleCounter == k
    requires if side.Left? then f.left == [] && f.right == [] && waiting == []
             else f.right == [] && f.left == waiting == [FrameOf(c, Left, k + 1)]
    ensures var r := SF.Push(c.fusion, f, FrameOf(c, side, k + 1), None, At(c, k + 1));
            && Known(r.0, side, k + 1) && r.0.latched.None?
            && (forall other: Side, n :: other != side && Known(f, other, n) ==> Known(r.0, other, n))
            && (if side.Left? then r.1 == SF.Nothing && r.0.left == [FrameOf(c, Left, k + 1)] && r.0.right == []
                                   && r.0.bundleCounter == k && Clocks(c, r.0, k + 1, k, k)
                else r.1 == SF.Fused(BundleOf(c, k + 1)) && r.0.left == [] && r.0.right == []
                     && r.0.bundleCounter == k + 1 && Clocks(c, r.0, k + 1, k + 1, k + 1))
  {
    hide SF.CheckFreshness, SF.Insert, SF.Bounded, SF.Remember, SF.Arrive, SF.Pair, SF.Enqueue, At, HostAt, Known, FrameOf, Clocks;
    var fr := FrameOf(c, side, k + 1);
    Checked(c, f, side, k);
    Remembered(c, f, side, k);
    var f1 := SF.Arrive(SF.Remember(c.fusion, SF.Adopt(f, fr), fr), fr, At(c, k + 1));
    InTime(c, f1, k + 1, if side.Left? then k else k + 1, k, k);
    hide SF.Check;
    assert SF.Push(c.fusion, f, fr, None, At(c, k + 1))
        == SF.Pair(c.fusion, SF.Enqueue(c.fusion, f1, fr), None, At(c, k + 1));
    Queued(c, f1, side, k);
    var r := SF.Pair(c.fusion, SF.Enqueue(c.fusion, f1, fr), None, At(c, k + 1));
    SameKnown(f1, r.0);
    ClocksPaired(c, f1, r.0, side, k);
  }

  lemma SameKnown(f: SF.State, f': SF.State)
    requires f'.seen == f.seen && f'.stampHigh == f.stampHigh && f'.sequenceHigh == f.sequenceHigh && f'.epochs == f.epochs
    ensures forall side: Side, n :: Known(f, side, n) ==> Known(f', side, n)
  {
  }

  lemma ClocksPaired(c: Config, f: SF.State, f': SF.State, side: Side, k: nat)
    requires ClocksAfter(c, f, side, k) && f'.lastSeen == f.lastSeen && f'.started == f.started
    requires f'.lastBundle == if side.Left? then f.lastBundle else Some(At(c, k + 1))
    ensures if side.Left? then Clocks(c, f', k + 1, k, k) else Clocks(c, f', k + 1, k + 1, k + 1)
  {
    hide At, HostAt;
  }

  /** The search with the frame in its queue. */
  lemma Queued(c: Config, f: SF.State, side: Side, k: nat)
    requires Short(c) && k < 3 && f.latched.None? && f.bundleCounter == k
    requires if side.Left? then f.left == [] && f.right == [] else f.right == [] && f.left == [FrameOf(c, Left, k + 1)]
    ensures var r := SF.Pair(c.fusion, SF.Enqueue(c.fusion, f, FrameOf(c, side, k + 1)), None, At(c, k + 1));
            && r.0 == f.(left := r.0.left, right := r.0.right, bundleCounter := r.0.bundleCounter, lastBundle := r.0.lastBundle, emitted := r.0.emitted)
            && r.0.lastBundle == (if side.Left? then f.lastBundle else Some(At(c, k + 1)))
            && (if side.Left? then r.1 == SF.Nothing && r.0.left == [FrameOf(c, Left, k + 1)] && r.0.right == [] && r.0.bundleCounter == k
                else r.1 == SF.Fused(BundleOf(c, k + 1)) && r.0.left == [] && r.0.right == [] && r.0.bundleCounter == k + 1)
  {
    TimesFit(c, k);
    var fr := FrameOf(c, side, k + 1);
    assert SF.Insert([], fr) == [fr] && SF.Bounded(c.fusion, [fr]) == [fr];
    hide SF.Insert, SF.Bounded, At, HostAt;
  }

  // ----- archive -----

  /** Nothing under way, and the files of later bundles do not exist. */
  ghost predicate Quiet(c: Config, a: RA.State, k: nat) {
    && a.worker.Idle? && a.temp.None? && a.waiting == [] && a.results == [] && a.outstanding == map[] && a.paths == {}
    && !a.closing && a.failure.None? && !a.stop && a.capacity == c.fusion.maxQueue
    && (forall j: nat :: j > k ==> PathOf(j) !in a.disk.files)
  }

  function Work(a: RA.State, outcomes: seq<RA.Outcome>): RA.State {
    if outcomes == [] then a else RA.DoWork(Work(a, outcomes[..|outcomes| - 1]), outcomes[|outcomes| - 1])
  }

  /** One job from the queue to its result: the disk answers well. */
  const GOOD: seq<RA.Outcome> :=
    [RA.Succeeds, RA.Succeeds, RA.Succeeds, RA.Succeeds, RA.Succeeds, RA.Succeeds, RA.Consumed, RA.Succeeds, RA.Succeeds]

  lemma WorkNine(a: RA.State)
    ensures Work(a, GOOD) ==
            RA.DoWork(RA.DoWork(RA.DoWork(RA.DoWork(RA.DoWork(RA.DoWork(RA.DoWork(RA.DoWork(RA.DoWork(a,
              RA.Succeeds), RA.Succeeds), RA.Succeeds), RA.Succeeds), RA.Succeeds), RA.Succeeds), RA.Consumed), RA.Succeeds),
              RA.Succeeds)
  {
    hide RA.DoWork;
    assert GOOD[..9] == GOOD && GOOD[..0] == [];
    WorkNext(a, 0);
    WorkNext(a, 1);
    WorkNext(a, 2);
    WorkNext(a, 3);
    WorkNext(a, 4);
    WorkNext(a, 5);
    WorkNext(a, 6);
    WorkNext(a, 7);
    WorkNext(a, 8);
  }

  lemma WorkNext(a: RA.State, n: nat)
    requires n < 9
    ensures Work(a, GOOD[..n + 1]) == RA.DoWork(Work(a, GOOD[..n]), GOOD[n])
  {
    assert GOOD[..n + 1][..n] == GOOD[..n];
  }

  lemma Archived(a: RA.State, job: RA.Job)
    requires a.worker.Idle? && a.waiting == [job] && !a.closing && a.failure.None? && !a.stop && job.path !in a.disk.files
    requires a.temp.None?
    ensures var a' := Work(a, GOOD);
            a' == a.(waiting := [], worker := RA.Idle, disk := a'.disk, results := a.results + [RA.ArchiveResult(job.key, job.path, None)])
            && a'.disk.files.Keys == a.disk.files.Keys + {job.path}
  {
    hide RA.Take, RA.Commit, RA.Finish, RA.Publish;
    WorkNine(a);
    Written(a, job);
    var a1 := RA.DoWork(a, RA.Succeeds);
    var a6 := RA.DoWork(RA.DoWork(RA.DoWork(RA.DoWork(RA.DoWork(a1, RA.Succeeds), RA.Succeeds), RA.Succeeds), RA.Succeeds), RA.Succeeds);
    Named(a6, job);
  }

  lemma Written(a: RA.State, job: RA.Job)
    requires a.worker.Idle? && a.waiting == [job] && !a.closing && a.failure.None? && !a.stop && a.temp.None?
    ensures var a1 := RA.DoWork(a, RA.Succeeds);
            var a6 := RA.DoWork(RA.DoWork(RA.DoWork(RA.DoWork(RA.DoWork(a1, RA.Succeeds), RA.Succeeds), RA.Succeeds), RA.Succeeds), RA.Succeeds);
            a6 == a.(waiting := [], worker := RA.Committing(job, RA.Linking), temp := Some(RA.File(job.payload, true)))
  {
    var a1 := RA.DoWork(a, RA.Succeeds);
    assert a1 == a.(waiting := [], worker := RA.Committing(job, RA.Opening));
    hide RA.Take, RA.Finish;
    var a3 := RA.DoWork(RA.DoWork(a1, RA.Succeeds), RA.Succeeds);
    assert a3 == a1.(worker := RA.Committing(job, RA.Writing), temp := Some(RA.File("", false)));
  }

  lemma Named(a: RA.State, job: RA.Job)
    requires a.worker == RA.Committing(job, RA.Linking) && a.temp == Some(RA.File(job.payload, true)) && job.path !in a.disk.files
    requires a.failure.None?
    ensures var a' := RA.DoWork(RA.DoWork(RA.DoWork(a, RA.Consumed), RA.Succeeds), RA.Succeeds);
            a' == a.(worker := RA.Idle, temp := None, disk := a'.disk, results := a.results + [RA.ArchiveResult(job.key, job.path, None)])
            && a'.disk.files.Keys == a.disk.files.Keys + {job.path}
  {
    hide RA.Take;
    var a7 := RA.DoWork(a, RA.Consumed);
    assert a7 == a.(worker := RA.Committing(job, RA.SyncingDirectory), temp := None,
                    disk := RA.Publish(a.disk, job.path, RA.File(job.payload, true)));
    var a8 := RA.DoWork(a7, RA.Succeeds);
    assert a8 == a7.(worker := RA.Finishing(job, None), disk := a8.disk) && a8.disk.files == a7.disk.files;
  }

  lemma SubmittedQuietly(c: Config, a: RA.State, k: nat)
    requires Short(c) && Quiet(c, a, k)
    ensures RA.SubmitError(a, KeyOf(k + 1), PathOf(k + 1), "x").None?
  {
    ValueOfDigits(k + 1);
  }

  lemma PathsDiffer(a: nat, b: nat)
    requires a != b
    ensures PathOf(a) != PathOf(b)
  {
    DigitsDiffer(a, b);
    FrontEndSafety.SameStem(Digits(a), Digits(b), ".json");
  }

  /** Submitting, archiving and polling one bundle brings the archive back to rest. */
  lemma RoundTrip(c: Config, a: RA.State, k: nat)
    requires Short(c) && Quiet(c, a, k)
    ensures var job := RA.Job(KeyOf(k + 1), PathOf(k + 1), "x");
            var done := Work(RA.DoSubmit(a, job.key, job.path, job.payload), GOOD);
            done.results == [RA.ArchiveResult(job.key, job.path, None)] && Quiet(c, RA.DoPoll(done), k + 1)
  {
    hide KeyOf, PathOf;
    var job := RA.Job(KeyOf(k + 1), PathOf(k + 1), "x");
    SubmittedQuietly(c, a, k);
    var queued := RA.DoSubmit(a, job.key, job.path, job.payload);
    assert queued.waiting == [job];
    Archived(queued, job);
    var done := Work(queued, GOOD);
    assert [] + [RA.ArchiveResult(job.key, job.path, None)] == [RA.ArchiveResult(job.key, job.path, None)];
    forall j: nat | j > k + 1 ensures PathOf(j) !in done.disk.files {
      PathsDiffer(j, k + 1);
    }
    SettledOne(queued, done, job);
  }

  lemma SettledOne(queued: RA.State, done: RA.State, job: RA.Job)
    requires queued.outstanding == map[job.key := job.path] && queued.paths == {job.path}
    requires done.outstanding == queued.outstanding && done.paths == queued.paths
    requires done.results == [RA.ArchiveResult(job.key, job.path, None)]
    ensures RA.DoPoll(done).outstanding == map[] && RA.DoPoll(done).paths == {}
  {
    var r := RA.ArchiveResult(job.key, job.path, None);
    assert done.results[0] == r;
    assert r in done.results;
    assert (set x | x in done.results :: x.key) == {job.key};
    assert (set x | x in done.results :: x.path) == {job.path};
  }

  // ----- the watch -----

  function Sightings(c: Config, k: nat): seq<Sighting> {
    seq(k, i requires 0 <= i < k => Sighting(At(c, i + 1), "a", i + 1, i + 1))
  }

  /** Frames 1 to `k` of the side were watched, all valid. */
  ghost predicate WatchedTo(c: Config, w: Watch, side: Side, k: nat) {
    Stable(w, side) == Sightings(c, k) && (k > 0 ==> side in w.last && w.last[side] == Seen(At(c, k), true))
  }

  lemma Watches(c: Config, w: Watch, side: Side, k: nat)
    requires Short(c) && WatchedTo(c, w, side, k) && k < 3
    ensures var w' := Observed(c, w, Arrives(c, side, k + 1).msg, At(c, k + 1));
            && WatchedTo(c, w', side, k + 1)
            && forall other: Side, n: nat :: other != side && WatchedTo(c, w, other, n) ==> WatchedTo(c, w', other, n)
  {
    TimesFit(c, k);
    hide At, HostAt;
    assert Sightings(c, k + 1) == Sightings(c, k) + [Sighting(At(c, k + 1), "a", k + 1, k + 1)];
  }

  // ----- the node -----

  /** Between bundles: `k` were fused; whatever is in flight or ready is older and in time. */
  ghost predicate Between(c: Config, s: State, k: nat) {
    && Known(s.fusion, Left, k) && Known(s.fusion, Right, k) && Clocks(c, s.fusion, k, k, k) && s.fusion.latched.None?
    && s.fusion.left == [] && s.fusion.right == [] && s.fusion.bundleCounter == k
    && Quiet(c, s.archive, k) && s.archivePending == map[] && !s.paused && s.graph.None? && s.gate.paused.None?
    && Load(s) < c.fusion.maxQueue && s.failures == 0
    && WatchedTo(c, s.watch, Left, k) && WatchedTo(c, s.watch, Right, k)
    && (forall stamp :: stamp in s.byStamp ==> stamp <= k) && (forall r :: r in s.icpReady ==> r.bundle.tRef <= k)
  }

  /** Both frames of bundle `k + 1`, its archiving, up to the next tick. */
  function Bundle(c: Config, k: nat): seq<Event> {
    [Arrives(c, Left, k + 1), Arrives(c, Right, k + 1)] + WorkEvents(GOOD)
  }

  ghost predicate FusedTo(c: Config, s: State, k: nat) {
    && Known(s.fusion, Left, k) && Known(s.fusion, Right, k) && Clocks(c, s.fusion, k, k, k) && s.fusion.latched.None?
    && s.fusion.left == [] && s.fusion.right == [] && s.fusion.bundleCounter == k
    && WatchedTo(c, s.watch, Left, k) && WatchedTo(c, s.watch, Right, k)
  }

  /** Where those events lead: the archive holds the result, everything else waits. */
  ghost predicate Archiving(c: Config, s: State, s': State, k: nat) {
    var r := RecordOf(c, k + 1, |s.jobs|);
    && FusedTo(c, s', k + 1)
    && s'.archive.results == [RA.ArchiveResult(KeyOf(k + 1), PathOf(k + 1), None)] && Quiet(c, RA.DoPoll(s'.archive), k + 1)
    && s' == s.(fusion := s'.fusion, archive := s'.archive, watch := s'.watch,
                archivePending := map[KeyOf(k + 1) := r], jobs := s.jobs + [r])
  }

  /** The two frames enter bundle `k + 1`. */
  lemma FramesEnter(c: Config, s: State, k: nat)
    requires Short(c) && Between(c, s, k) && k < 3
    ensures var s2 := Step(c, Step(c, s, Arrives(c, Left, k + 1)), Arrives(c, Right, k + 1));
            && FusedTo(c, s2, k + 1)
            && s2 == Enter(s.(fusion := s2.fusion, watch := s2.watch), RecordOf(c, k + 1, |s.jobs|))
  {
    hide SF.Push, Known, Clocks, Quiet, Fail, StampInUse, RA.SubmitError, RA.DoSubmit, KeyOf, PathOf, Observed, WatchedTo;
    hide At, HostAt, FrameOf;
    Pushed(c, s.fusion, Left, k, []);
    Watches(c, s.watch, Left, k);
    var f1 := SF.Push(c.fusion, s.fusion, FrameOf(c, Left, k + 1), None, At(c, k + 1)).0;
    var w1 := Observed(c, s.watch, Arrives(c, Left, k + 1).msg, At(c, k + 1));
    var s1 := Step(c, s, Arrives(c, Left, k + 1));
    assert s1 == s.(fusion := f1, watch := w1);
    Pushed(c, f1, Right, k, [FrameOf(c, Left, k + 1)]);
    Watches(c, w1, Right, k);
    var f2 := SF.Push(c.fusion, f1, FrameOf(c, Right, k + 1), None, At(c, k + 1)).0;
    var s2 := s.(fusion := f2, watch := Observed(c, w1, Arrives(c, Right, k + 1).msg, At(c, k + 1)));
    SubmittedQuietly(c, s.archive, k);
    NewStamp(s2, k);
    var m := Arrives(c, Right, k + 1).msg;
    assert EntryFault(c, s2, BundleOf(c, k + 1), m).None?;
  }

  lemma NewStamp(s: State, k: nat)
    requires s.archivePending == map[]
    requires (forall stamp :: stamp in s.byStamp ==> stamp <= k) && (forall r :: r in s.icpReady ==> r.bundle.tRef <= k)
    ensures !StampInUse(s, k + 1)
  {
  }

  lemma RunMore(c: Config, s: State, events: seq<Event>, e: Event)
    ensures Run(c, s, events + [e]) == Step(c, Run(c, s, events), e)
  {
    assert (events + [e])[..|events|] == events;
  }

  lemma {:induction false} RunThen(c: Config, s: State, a: seq<Event>, b: seq<Event>)
    ensures Run(c, s, a + b) == Run(c, Run(c, s, a), b)
  {
    hide Step;
    if b == [] {
      assert a + b == a;
    } else {
      RunThen(c, s, a, b[..|b| - 1]);
      assert (a + b)[..|a + b| - 1] == a + b[..|b| - 1];
    }
  }

  function WorkEvents(outcomes: seq<RA.Outcome>): seq<Event> {
    if outcomes == [] then [] else WorkEvents(outcomes[..|outcomes| - 1]) + [ArchiveWork(outcomes[|outcomes| - 1])]
  }

  lemma {:induction false} WorkRuns(c: Config, s: State, outcomes: seq<RA.Outcome>)
    ensures Run(c, s, WorkEvents(outcomes)) == s.(archive := Work(s.archive, outcomes))
  {
    hide RA.DoWork;
    if outcomes != [] {
      var init := outcomes[..|outcomes| - 1];
      WorkRuns(c, s, init);
      RunMore(c, s, WorkEvents(init), ArchiveWork(outcomes[|outcomes| - 1]));
    }
  }

  lemma BundleArchives(c: Config, s: State, k: nat)
    requires Short(c) && Between(c, s, k) && k < 3
    ensures Archiving(c, s, Run(c, s, Bundle(c, k)), k)
  {
    hide Step, FusedTo, Known, Clocks, Quiet, Work, WorkEvents, KeyOf, PathOf, WatchedTo, Arrives, RecordOf;
    var l, r := Arrives(c, Left, k + 1), Arrives(c, Right, k + 1);
    FramesEnter(c, s, k);
    RunMore(c, s, [], l);
    RunMore(c, s, [l], r);
    assert [] + [l] == [l] && [l] + [r] == [l, r];
    var s2 := Run(c, s, [l, r]);
    RunThen(c, s, [l, r], WorkEvents(GOOD));
    WorkRuns(c, s2, GOOD);
    RoundTrip(c, s.archive, k);
    RecordNames(c, k + 1, |s.jobs|);
    hide RA.DoSubmit, RA.DoPoll;
    SameFused(c, s2, Run(c, s, Bundle(c, k)), k + 1);
  }

  lemma RecordNames(c: Config, k: nat, nth: nat)
    ensures RecordOf(c, k, nth).bundle.id == k && RecordOf(c, k, nth).payload == "x"
  {
  }

  lemma SameFused(c: Config, s: State, s': State, k: nat)
    requires FusedTo(c, s, k) && s'.fusion == s.fusion && s'.watch == s.watch
    ensures FusedTo(c, s', k)
  {
    hide Known, Clocks, WatchedTo;
  }

  // ----- the three ticks -----

  function TickAt(c: Config, k: nat): Event {
    Tick(At(c, k), None, Sent, At(c, k), None)
  }

  /** A result can only have come at 0, and nothing is pending since before that. */
  ghost predicate GateAtRest(g: TG.State) {
    && g.paused.None? && (g.lastResult.Some? ==> g.lastResult.value == 0)
    && forall id :: id in g.pending ==> g.pending[id].received >= 0
  }

  /** No deadline is missed when a bundle was just fused. */
  lemma NoDeadline(c: Config, s: State, k: nat)
    requires Short(c) && k < 3 && Clocks(c, s.fusion, k + 1, k + 1, k + 1) && s.fusion.latched.None? && GateAtRest(s.gate)
    ensures Freshen(c, s, At(c, k + 1)) == s
  {
    InTime(c, s.fusion, k + 1, k + 1, k + 1, k);
    TimesFit(c, k);
    hide SF.CheckFreshness, At, HostAt;
  }

  /** The tick after the archiving makes the bundle ready, behind whatever is ready. */
  lemma Collected(c: Config, s: State, s': State, k: nat)
    requires Archiving(c, s, s', k) && !s'.paused
    ensures Collect(s') == s'.(archive := RA.DoPoll(s'.archive), archivePending := map[],
                               icpReady := s'.icpReady + [RecordOf(c, k + 1, |s.jobs|)])
  {
    hide Known, Clocks, Quiet, WatchedTo, RA.DoPoll, KeyOf, PathOf, RecordOf;
    var result := RA.ArchiveResult(KeyOf(k + 1), PathOf(k + 1), None);
    var polled := s'.(archive := RA.DoPoll(s'.archive));
    assert s'.archive.results[..0] == [] && s'.archive.results[0] == result;
    assert PollAll(polled, []) == polled;
    assert PollAll(polled, [result]) == PollOne(polled, result);
    assert s'.archivePending - {KeyOf(k + 1)} == map[];
  }

  /** A tick that has only to publish. */
  lemma TickPublishes(c: Config, s: State, k: nat)
    requires Short(c) && k < 3 && Clocks(c, s.fusion, k + 1, k + 1, k + 1) && s.fusion.latched.None? && GateAtRest(s.gate)
    requires s.graph.None?
    ensures Step(c, s, TickAt(c, k + 1)) == PublishArchived(c, s, At(c, k + 1), Sent)
  {
    hide Clocks, GateAtRest, PublishArchived, Freshen, At;
    NoDeadline(c, s, k);
  }

  lemma JustInTime(c: Config, k: nat, nth: nat)
    requires Short(c)
    ensures var r := RecordOf(c, k, nth); !AnyAged(c, [r], At(c, k)) && r.bundle.tRef == k && r.bundle.id == k
  {
    hide At;
  }

  /** With nothing in flight the tick releases the bundle. */
  lemma TickReleases(c: Config, s: State, s': State, k: nat)
    requires Short(c) && k < 3 && Archiving(c, s, s', k) && !s.paused && s.graph.None? && GateAtRest(s.gate)
    requires s.gate.pending == map[] && s.byStamp == map[] && s.icpReady == []
    ensures var r := RecordOf(c, k + 1, |s.jobs|);
            Step(c, s', TickAt(c, k + 1)) ==
              s'.(archive := RA.DoPoll(s'.archive), archivePending := map[], byStamp := map[k + 1 := r],
                  gate := s.gate.(pending := map[k + 1 := TG.Outstanding(GateBundle(r.bundle), At(c, k + 1))]),
                  published := s.published + [Publication(r, At(c, k + 1), s.mark)])
  {
    hide Known, Clocks, Quiet, WatchedTo, RA.DoPoll, KeyOf, PathOf, Collect, Fail, RecordOf, At, AnyAged;
    TickPublishes(c, s', k);
    Collected(c, s, s', k);
    var r := RecordOf(c, k + 1, |s.jobs|);
    JustInTime(c, k + 1, |s.jobs|);
    assert Collect(s').icpReady == [r];
    assert map[][k + 1 := r] == map[k + 1 := r];
  }

  /** With a bundle in flight the tick only makes it ready. */
  lemma TickMakesReady(c: Config, s: State, s': State, k: nat)
    requires Short(c) && k < 3 && Archiving(c, s, s', k) && !s.paused && s.graph.None? && GateAtRest(s.gate)
    requires s.byStamp != map[] && s.icpReady == []
    ensures Step(c, s', TickAt(c, k + 1)) ==
              s'.(archive := RA.DoPoll(s'.archive), archivePending := map[], icpReady := [RecordOf(c, k + 1, |s.jobs|)])
  {
    hide Known, Clocks, Quiet, WatchedTo, RA.DoPoll, KeyOf, PathOf, Collect, Fail, Release, RecordOf, At, AnyAged;
    TickPublishes(c, s', k);
    Collected(c, s, s', k);
    var r := RecordOf(c, k + 1, |s.jobs|);
    JustInTime(c, k + 1, |s.jobs|);
    assert Collect(s').icpReady == [r];
  }

  const DELIVERY := Delivery(["l", "r"], "x", None, None, None)

  function Result(k: nat): seq<Event> {
    [OdomArrived(k, None, Odom(true, true, true), 0, DELIVERY), InfoArrived(k, Info(false, 0, true, true), 0, DELIVERY)]
  }

  /** The first result initialises the map. */
  lemma ResultAccepted(c: Config, s: State, k: nat, r: Record)
    requires Short(c)
    requires s.graph.None? && s.byStamp == map[k := r] && r.bundle.tRef == k && r.bundle.id == k
    requires s.odomCache == map[] && s.infoCache == map[] && s.gate.accepted == 0 && s.gate.lastStamp.None? && s.gate.odomEpoch.None?
    requires s.gate.paused.None? && s.gate.pending == map[k := TG.Outstanding(GateBundle(r.bundle), 0)]
    ensures var s' := Step(c, Step(c, s, Result(k)[0]), Result(k)[1]);
            && s' == s.(byStamp := map[], gate := s'.gate)
            && s'.gate.pending == map[] && s'.gate.paused.None? && s'.gate.odomEpoch == Some(c.odomEpoch) && s'.gate.lastResult == Some(0)
  {
    hide Fail;
    var s1 := Step(c, s, Result(k)[0]);
    assert s1 == s.(odomCache := map[k := Odom(true, true, true)]);
    var s2 := s1.(infoCache := map[k := Info(false, 0, true, true)]);
    assert s1.infoCache[k := Info(false, 0, true, true)] == map[k := Info(false, 0, true, true)];
    assert Step(c, s1, Result(k)[1]) == Complete(c, s2, k, 0, DELIVERY);
    assert s2.odomCache - {k} == map[] && s2.infoCache - {k} == map[] && s2.byStamp - {k} == map[];
    assert s2.gate.pending - {k} == map[];
  }

  // ----- the run -----

  ghost predicate Accepted(c: Config, s: State) {
    && Between(c, s, 1) && |s.jobs| == 1 && s.byStamp == map[] && s.icpReady == [] && s.gate.pending == map[]
    && s.gate.odomEpoch == Some(c.odomEpoch) && s.gate.lastResult == Some(0) && s.mark == 0
  }

  ghost predicate InFlight(c: Config, s: State) {
    && s.byStamp == map[2 := RecordOf(c, 2, 1)]
    && s.gate.pending == map[2 := TG.Outstanding(GateBundle(BundleOf(c, 2)), At(c, 2))]
    && s.gate.odomEpoch == Some(c.odomEpoch) && s.gate.lastResult == Some(0) && s.gate.paused.None? && s.mark == 0
  }

  ghost predicate Released(c: Config, s: State) {
    Between(c, s, 2) && |s.jobs| == 2 && s.icpReady == [] && InFlight(c, s)
  }

  ghost predicate ReadyBehind(c: Config, s: State) {
    && InFlight(c, s) && s.icpReady == [RecordOf(c, 3, 2)] && s.archive.results == [] && !s.paused && s.graph.None?
    && s.failures == 0 && FusedTo(c, s, 3)
  }

  function Fresh(c: Config): State {
    Start(c, None, RA.Disk(map[], {}))
  }

  lemma FirstBundle(c: Config)
    requires Short(c)
    ensures var s := Fresh(c);
            Accepted(c, Step(c, Step(c, Step(c, Run(c, s, Bundle(c, 0)), TickAt(c, 1)), Result(1)[0]), Result(1)[1]))
  {
    hide Step, Known, Clocks, Quiet, WatchedTo, RA.DoPoll, KeyOf, PathOf, Bundle, Run, TickAt, Result, RecordOf, At;
    var s := Fresh(c);
    StartsBetween(c);
    BundleArchives(c, s, 0);
    var s1 := Run(c, s, Bundle(c, 0));
    TickReleases(c, s, s1, 0);
    JustInTime(c, 1, 0);
    TimesFit(c, 0);
    ResultAccepted(c, Step(c, s1, TickAt(c, 1)), 1, RecordOf(c, 1, 0));
  }

  lemma StartsBetween(c: Config)
    requires Short(c)
    ensures Between(c, Fresh(c), 0)
  {
    hide At, HostAt;
  }

  lemma SecondBundle(c: Config, s: State)
    requires Short(c) && Accepted(c, s)
    ensures Released(c, Step(c, Run(c, s, Bundle(c, 1)), TickAt(c, 2)))
  {
    hide Step, Known, Clocks, Quiet, WatchedTo, RA.DoPoll, KeyOf, PathOf, Bundle, Run, TickAt, At, HostAt, BundleOf;
    BundleArchives(c, s, 1);
    TickReleases(c, s, Run(c, s, Bundle(c, 1)), 1);
  }

  lemma ThirdBundle(c: Config, s: State)
    requires Short(c) && Released(c, s)
    ensures ReadyBehind(c, Step(c, Run(c, s, Bundle(c, 2)), TickAt(c, 3)))
  {
    hide Step, Known, Clocks, Quiet, WatchedTo, RA.DoPoll, KeyOf, PathOf, Bundle, Run, TickAt, RecordOf, BundleOf;
    BundleArchives(c, s, 2);
    var s1 := Run(c, s, Bundle(c, 2));
    assert 2 in s.byStamp;
    TimesFit(c, 1);
    hide At, HostAt;
    TickMakesReady(c, s, s1, 2);
    assert RA.DoPoll(s1.archive).results == [] by { Polled(s1.archive); }
    SameFused(c, s1, Step(c, s1, TickAt(c, 3)), 3);
  }

  lemma Polled(a: RA.State)
    ensures RA.DoPoll(a).results == []
  {
  }

  function Prelude(c: Config): seq<Event> {
    Bundle(c, 0) + [TickAt(c, 1)] + [Result(1)[0]] + [Result(1)[1]] + Bundle(c, 1) + [TickAt(c, 2)] + Bundle(c, 2) + [TickAt(c, 3)]
  }

  lemma PreludeRuns(c: Config)
    requires Short(c)
    ensures ReadyBehind(c, Run(c, Fresh(c), Prelude(c)))
  {
    hide Step, Run, Bundle, ReadyBehind, Accepted, Released, Fresh, TickAt, Short;
    var s := Fresh(c);
    var a := Bundle(c, 0) + [TickAt(c, 1)] + [Result(1)[0]] + [Result(1)[1]];
    RunMore(c, s, Bundle(c, 0), TickAt(c, 1));
    RunMore(c, s, Bundle(c, 0) + [TickAt(c, 1)], Result(1)[0]);
    RunMore(c, s, Bundle(c, 0) + [TickAt(c, 1)] + [Result(1)[0]], Result(1)[1]);
    FirstBundle(c);
    RunThen(c, s, a, Bundle(c, 1));
    RunMore(c, s, a + Bundle(c, 1), TickAt(c, 2));
    SecondBundle(c, Run(c, s, a));
    var b := a + Bundle(c, 1) + [TickAt(c, 2)];
    RunThen(c, s, b, Bundle(c, 2));
    RunMore(c, s, b + Bundle(c, 2), TickAt(c, 3));
    ThirdBundle(c, Run(c, s, b));
  }

  // ----- while the node is latched -----

  function LateFrame(c: Config, side: Side, k: nat): Event {
    SourceFrame(SourceMsg(SF.Frame(side, "a", k, k, End(c), None, None), true, None, true, true, None, None, None, "x"), End(c))
  }

  /** Two more frames a side, at the end. */
  function Frames(c: Config): seq<Event> {
    [LateFrame(c, Left, 4), LateFrame(c, Right, 4), LateFrame(c, Left, 5), LateFrame(c, Right, 5)]
  }

  function LateSightings(c: Config, n: nat): seq<Sighting> {
    seq(n, i => Sighting(End(c), "a", i + 4, i + 4))
  }

  /** After three frames in time and `n` late ones. */
  ghost predicate LateTo(c: Config, w: Watch, side: Side, n: nat) {
    && Stable(w, side) == Sightings(c, 3) + LateSightings(c, n)
    && (n > 0 ==> side in w.last && w.last[side] == Seen(End(c), true))
  }

  lemma LateWatches(c: Config, w: Watch, side: Side, n: nat)
    requires Short(c) && LateTo(c, w, side, n) && n < 2
    ensures var w' := Observed(c, w, LateFrame(c, side, n + 4).msg, End(c));
            && LateTo(c, w', side, n + 1)
            && forall other: Side, k: nat :: other != side && LateTo(c, w, other, k) ==> LateTo(c, w', other, k)
  {
    hide At, HostAt;
    assert LateSightings(c, n + 1) == LateSightings(c, n) + [Sighting(End(c), "a", n + 4, n + 4)];
    assert Sightings(c, 3) + LateSightings(c, n) + [Sighting(End(c), "a", n + 4, n + 4)]
        == Sightings(c, 3) + LateSightings(c, n + 1);
  }

  lemma LateSteady(c: Config, w: Watch, side: Side)
    requires Short(c) && LateTo(c, w, side, 2)
    ensures SteadySide(c, w, side, End(c))
  {
    TimesFit(c, 0);
    assert Stable(w, side)[0] == Sighting(At(c, 1), "a", 1, 1);
    hide At;
  }

  /** A latched node only watches a frame. */
  lemma LateStep(c: Config, s: State, side: Side, k: nat)
    requires s.fusion.latched.Some?
    ensures var e := LateFrame(c, side, k);
            Step(c, s, e) == s.(watch := Observed(c, s.watch, e.msg, End(c)))
  {
    hide Observed, Fail;
  }

  lemma LateFrameWatched(c: Config, s: State, side: Side, n: nat, other: Side, k: nat)
    requires Short(c) && s.fusion.latched.Some?
    requires LateTo(c, s.watch, side, n) && n < 2 && other != side && LateTo(c, s.watch, other, k)
    ensures var s' := Step(c, s, LateFrame(c, side, n + 4));
            s' == s.(watch := s'.watch) && LateTo(c, s'.watch, side, n + 1) && LateTo(c, s'.watch, other, k)
  {
    hide Step, Observed, LateTo, LateFrame;
    LateWatches(c, s.watch, side, n);
    LateStep(c, s, side, n + 4);
  }

  lemma RunFour(c: Config, s: State, e: seq<Event>)
    requires |e| == 4
    ensures Run(c, s, e) == Step(c, Step(c, Step(c, Step(c, s, e[0]), e[1]), e[2]), e[3])
  {
    hide Step;
    RunMore(c, s, [], e[0]);
    RunMore(c, s, [e[0]], e[1]);
    RunMore(c, s, [e[0], e[1]], e[2]);
    RunMore(c, s, [e[0], e[1], e[2]], e[3]);
    assert [] + [e[0]] == [e[0]] && [e[0]] + [e[1]] == [e[0], e[1]];
    assert [e[0], e[1]] + [e[2]] == [e[0], e[1], e[2]] && [e[0], e[1], e[2]] + [e[3]] == e;
  }

  lemma NoneLate(c: Config, w: Watch, side: Side)
    requires WatchedTo(c, w, side, 3)
    ensures LateTo(c, w, side, 0)
  {
    hide At;
    assert Sightings(c, 3) + LateSightings(c, 0) == Sightings(c, 3);
  }

  lemma FramesWatched(c: Config, s: State)
    requires Short(c) && s.fusion.latched.Some? && WatchedTo(c, s.watch, Left, 3) && WatchedTo(c, s.watch, Right, 3)
    ensures var s' := Run(c, s, Frames(c));
            s' == s.(watch := s'.watch) && LateTo(c, s'.watch, Left, 2) && LateTo(c, s'.watch, Right, 2)
  {
    hide Step, Run, LateTo, WatchedTo, LateFrame, Short;
    NoneLate(c, s.watch, Left);
    NoneLate(c, s.watch, Right);
    RunFour(c, s, Frames(c));
    LateFrameWatched(c, s, Left, 0, Right, 0);
    var s1 := Step(c, s, LateFrame(c, Left, 4));
    LateFrameWatched(c, s1, Right, 0, Left, 1);
    var s2 := Step(c, s1, LateFrame(c, Right, 4));
    LateFrameWatched(c, s2, Left, 1, Right, 1);
    var s3 := Step(c, s2, LateFrame(c, Left, 5));
    LateFrameWatched(c, s3, Right, 1, Left, 2);
  }

  function RequestOf(c: Config): Request {
    Request(true, true, true, true, c.odomEpoch)
  }

  lemma ResumeAdmitted(c: Config, s: State)
    requires Short(c) && LateTo(c, s.watch, Left, 2) && LateTo(c, s.watch, Right, 2)
    requires s.graph.None? && s.gate.odomEpoch == Some(c.odomEpoch)
    ensures Admitted(c, s, RequestOf(c), End(c))
  {
    LateSteady(c, s.watch, Left);
    LateSteady(c, s.watch, Right);
    hide SteadySide;
  }

  function LatchTick(c: Config): Event {
    Tick(End(c), None, Sent, End(c), None)
  }

  lemma MissesBoth(c: Config, s: State)
    requires Short(c) && ReadyBehind(c, s)
    ensures FrontEndLatch.BothOverdue(c, s, End(c)) && FrontEndLatch.LeavesReady(c, s, End(c), End(c), None)
    ensures !AnyAged(c, s.icpReady, End(c))
  {
    TimesFit(c, 2);
    hide WatchedTo, Known, At, HostAt;
    assert 2 in s.byStamp;
  }

  /**
   The run, for every such node: the second bundle is in flight and the third ready, one tick misses
   both deadlines, the sources go on, a resume is granted and the third bundle is published, and
   `fail()` was never called until then.
   */
  lemma LatchedBundleIsPublished(c: Config)
    requires Short(c)
    ensures var s := Run(c, Fresh(c), Prelude(c));
            var latched := Step(c, s, LatchTick(c));
            var resumed := Step(c, Run(c, latched, Frames(c)), ResumeCalled(RequestOf(c), End(c)));
            var end := Step(c, resumed, LatchTick(c));
            && latched.fusion.latched.Some? && latched.gate.paused.Some? && latched.icpReady != [] && resumed.failures == 0
            && end.published == s.published + [Publication(RecordOf(c, 3, 2), End(c), 0)]
  {
    hide Step, Run, Prelude, Fresh, Admitted, FrontEndLatch.BothOverdue, FrontEndLatch.LeavesReady, AnyAged, WatchedTo, LateTo;
    hide Known, Clocks, RecordOf, At, HostAt;
    PreludeRuns(c);
    var s := Run(c, Fresh(c), Prelude(c));
    MissesBoth(c, s);
    FrontEndLatch.TickLeavesReady(c, s, End(c), Sent, End(c), None);
    FrontEndLatch.TickIsQuiet(c, s, End(c), End(c));
    var latched := Step(c, s, LatchTick(c));
    FramesWatched(c, latched);
    ResumeAdmitted(c, Run(c, latched, Frames(c)));
    FramesOnlyWatch(c);
    FrontEndLatch.ReadyBundleOutlivesLatch(c, s, End(c), End(c), Frames(c), RequestOf(c), End(c), End(c), End(c));
  }

  lemma FramesOnlyWatch(c: Config)
    ensures forall e :: e in Frames(c) ==> e.SourceFrame? && e.msg.sideOk && e.msg.clockFault.None?
  {
  }

  // ----- the bound is exact -----

  /** Worded events at time `t`, or without a clock, and no resume. */
  ghost predicate AllAt(events: seq<Event>, t: int) {
    forall e :: e in events ==>
      FrontEndTiming.Worded(e) && !e.ResumeCalled? && FrontEndTiming.Begins(e, t) == FrontEndTiming.Ends(e, t) == t
  }

  lemma {:induction false} OrderlyThen(c: Config, s: State, a: seq<Event>, b: seq<Event>, t: int)
    requires FrontEndTiming.Orderly(c, s, 0, a) && FrontEndTiming.Clock(0, a) <= t && AllAt(b, t)
    ensures FrontEndTiming.Orderly(c, s, 0, a + b) && FrontEndTiming.Clock(0, a + b) <= t
  {
    hide Run, FrontEndTiming.Worded;
    if b == [] {
      assert a + b == a;
    } else {
      var init, e := b[..|b| - 1], b[|b| - 1];
      OrderlyThen(c, s, a, init, t);
      assert (a + b)[..|a + b| - 1] == a + init && e in b;
      ClockOf(e, FrontEndTiming.Clock(0, a + init), t);
    }
  }

  /** An event at `t` or without a clock begins no earlier than the clock before it. */
  lemma ClockOf(e: Event, before: int, t: int)
    requires before <= t && FrontEndTiming.Begins(e, t) == FrontEndTiming.Ends(e, t) == t
    ensures before <= FrontEndTiming.Begins(e, before) <= FrontEndTiming.Ends(e, before) <= t
  {
  }

  lemma {:induction false} WorkAt(outcomes: seq<RA.Outcome>, t: int)
    ensures AllAt(WorkEvents(outcomes), t)
  {
    if outcomes != [] {
      WorkAt(outcomes[..|outcomes| - 1], t);
    }
  }

  lemma BundleAt(c: Config, k: nat)
    ensures AllAt(Bundle(c, k), At(c, k + 1)) && AllAt([TickAt(c, k + 1)], At(c, k + 1))
    ensures k == 0 ==> AllAt([Result(1)[0]], At(c, k + 1)) && AllAt([Result(1)[1]], At(c, k + 1))
  {
    WorkAt(GOOD, At(c, k + 1));
    assert At(c, 1) == 0;
    hide WorkEvents, At, HostAt;
  }

  lemma PreludeOrderly(c: Config)
    requires Short(c)
    ensures FrontEndTiming.Orderly(c, Fresh(c), 0, Prelude(c) + [LatchTick(c)])
  {
    hide FrontEndTiming.Orderly, FrontEndTiming.Clock, AllAt, Bundle, TickAt, Fresh;
    var s := Fresh(c);
    BundleAt(c, 0);
    BundleAt(c, 1);
    BundleAt(c, 2);
    TimesFit(c, 0);
    TimesFit(c, 1);
    TimesFit(c, 2);
    hide At, HostAt;
    NothingYet(c, s);
    OrderlyThen(c, s, [], Bundle(c, 0), At(c, 1));
    assert [] + Bundle(c, 0) == Bundle(c, 0);
    var a := Bundle(c, 0);
    OrderlyThen(c, s, a, [TickAt(c, 1)], At(c, 1));
    a := a + [TickAt(c, 1)];
    OrderlyThen(c, s, a, [Result(1)[0]], At(c, 1));
    a := a + [Result(1)[0]];
    OrderlyThen(c, s, a, [Result(1)[1]], At(c, 1));
    a := a + [Result(1)[1]];
    OrderlyThen(c, s, a, Bundle(c, 1), At(c, 2));
    a := a + Bundle(c, 1);
    OrderlyThen(c, s, a, [TickAt(c, 2)], At(c, 2));
    a := a + [TickAt(c, 2)];
    OrderlyThen(c, s, a, Bundle(c, 2), At(c, 3));
    a := a + Bundle(c, 2);
    OrderlyThen(c, s, a, [TickAt(c, 3)], At(c, 3));
    LatchTickAt(c);
    OrderlyThen(c, s, Prelude(c), [LatchTick(c)], End(c));
  }

  lemma NothingYet(c: Config, s: State)
    ensures FrontEndTiming.Orderly(c, s, 0, []) && FrontEndTiming.Clock(0, []) == 0
  {
  }

  lemma LatchTickAt(c: Config)
    ensures AllAt([LatchTick(c)], End(c))
  {
  }

  /** In no orderly run is a bundle ready while the node is latched. */
  ghost predicate NoneOutlives(c: Config) {
    forall graphEpoch: Option<string>, disk: RA.Disk, t: int, events: seq<Event> ::
      FrontEndTiming.Orderly(c, Start(c, graphEpoch, disk), t, events) ==>
        var s := Run(c, Start(c, graphEpoch, disk), events);
        s.fusion.latched.Some? ==> s.icpReady == []
  }

  /** The bound on the timeout is exact. */
  lemma BoundIsExact(c: Config)
    requires c.Valid() && c.graph.None? && !c.wheel && c.fusion.maxQueue >= 2 && c.fusion.maxAgeNs >= 1 && c.gate.timeoutNs >= 0
    ensures NoneOutlives(c) <==> c.gate.timeoutNs >= 3 * c.fusion.maxAgeNs
  {
    hide Step, Run, FrontEndTiming.Orderly, Start, Prelude, Frames, LatchTick, RequestOf, RecordOf;
    if c.gate.timeoutNs >= 3 * c.fusion.maxAgeNs {
      forall graphEpoch: Option<string>, disk: RA.Disk, t: int, events: seq<Event>
        | FrontEndTiming.Orderly(c, Start(c, graphEpoch, disk), t, events)
        ensures var s := Run(c, Start(c, graphEpoch, disk), events); s.fusion.latched.Some? ==> s.icpReady == []
      {
        FrontEndTiming.LatchedHoldsNothing(c, graphEpoch, disk, t, events, t);
      }
    } else {
      PreludeOrderly(c);
      LatchedBundleIsPublished(c);
      RunMore(c, Fresh(c), Prelude(c), LatchTick(c));
      assert Fresh(c) == Start(c, None, RA.Disk(map[], {}));
    }
  }
}
