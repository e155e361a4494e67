/**
 The durable raw archive (`DurableArchive` and `_commit_bytes` in src/wc_fusion/archive.py): a
 caller and one worker thread over a shared queue, every atomic step of either side an event.

 The disk knows of each path its bytes, whether the file was synced, and whether its directory
 was synced after the file got its name.  What the operating system answers to the worker's
 calls is an input of the step.
 */
module RawArchive {
  import opened Common

  type Path = string
  type Key = string
  type Bytes = string

  datatype File = File(bytes: Bytes, synced: bool)

  datatype Disk = Disk(files: map<Path, File>, named: set<Path>) {
    /** The path holds these bytes and survives a crash. */
    predicate Durable(path: Path, bytes: Bytes) {
      path in files && files[path] == File(bytes, true) && path in named
    }
  }

  datatype Job = Job(key: Key, path: Path, payload: Bytes)

  datatype ArchiveResult = ArchiveResult(key: Key, path: Path, error: Option<string>)

  /** The worker between two atomic steps of one file transaction. */
  datatype Stage = Opening | Creating | Writing | SyncingFile | BeforeLink | Linking | Unlinking | SyncingDirectory

  datatype Worker =
    | Idle
    | Committing(job: Job, stage: Stage)
    | Finishing(job: Job, error: Option<string>)
    | Exited

  /** The answer to a system call; `Consumed` is the rename that uses the temporary name up, and
      `FailsAfter` an error raised although the effect took place. */
  datatype Outcome = Succeeds | Consumed | Fails | FailsAfter

  /** `temp` is the temporary file of the transaction, while it exists. */
  datatype State = State(
    capacity: nat, waiting: seq<Job>, results: seq<ArchiveResult>, outstanding: map<Key, Path>, paths: set<Path>,
    closing: bool, failure: Option<string>, stop: bool, worker: Worker, temp: Option<File>, disk: Disk,
    submitted: seq<Job>, delivered: seq<ArchiveResult>)

  function Start(capacity: nat, disk: Disk): State {
    State(capacity, [], [], map[], {}, false, None, false, Idle, None, disk, [], [])
  }

  datatype Event =
    | Submit(key: Key, path: Path, payload: Bytes)
    | Poll
    | Close
    | Work(outcome: Outcome)
    | Appear(path: Path, file: File)   // another program creates a file

  // ----- the caller's side -----

  function SubmitError(s: State, key: Key, path: Path, payload: Bytes): Option<string> {
    if key == "" then Some("ARCHIVE_KEY")
    else if payload == "" then Some("ARCHIVE_PAYLOAD")
    else if path == "" then Some("ARCHIVE_PATH")
    else if s.closing then Some("ARCHIVE_CLOSED")
    else if s.failure.Some? then Some("ARCHIVE_FAILED")
    else if key in s.outstanding || path in s.paths then Some("ARCHIVE_DUPLICATE")
    else if |s.outstanding| >= s.capacity then Some("ARCHIVE_QUEUE_FULL")
    else None
  }

  function DoSubmit(s: State, key: Key, path: Path, payload: Bytes): State {
    if SubmitError(s, key, path, payload).Some? then s
    else
      var job := Job(key, path, payload);
      s.(outstanding := s.outstanding[key := path], paths := s.paths + {path}, waiting := s.waiting + [job],
         submitted := s.submitted + [job])
  }

  /** Drop the polled keys and paths from the books. */
  function Settle(outstanding: map<Key, Path>, paths: set<Path>, results: seq<ArchiveResult>): (map<Key, Path>, set<Path>) {
    (outstanding - set r | r in results :: r.key, paths - set r | r in results :: r.path)
  }

  function DoPoll(s: State): State {
    var books := Settle(s.outstanding, s.paths, s.results);
    s.(outstanding := books.0, paths := books.1, results := [], delivered := s.delivered + s.results)
  }

  function DoClose(s: State): State {
    s.(closing := true, stop := true)
  }

  // ----- the worker's side -----

  const CANCELLED := "ARCHIVE_CANCELLED"
  const IO_ERROR := "OS_ERROR"

  function Take(s: State): State {
    if s.waiting == [] then if s.closing then s.(worker := Exited) else s
    else
      var job := s.waiting[0];
      var next := if s.failure.Some? then Finishing(job, Some("ARCHIVE_CANCELLED_AFTER_FAILURE"))
                  else if s.closing then Finishing(job, Some(CANCELLED))
                  else Committing(job, Opening);
      s.(waiting := s.waiting[1..], worker := next)
  }

  /** The final name is another name of the temporary file, as that file is now. */
  function Publish(disk: Disk, path: Path, file: File): Disk {
    disk.(files := disk.files[path := file])
  }

  /** The transaction raises; its temporary file is removed. */
  function Abort(s: State, job: Job, error: string): State {
    s.(worker := Finishing(job, Some(error)), temp := None)
  }

  /** Go on to `stage` with this temporary file unless the call failed. */
  function Advance(s: State, job: Job, outcome: Outcome, stage: Stage, temp: Option<File>): State {
    if outcome.Succeeds? || outcome.Consumed? then s.(worker := Committing(job, stage), temp := temp)
    else Abort(s, job, IO_ERROR)
  }

  function SyncedTemp(s: State): Option<File> {
    if s.temp.Some? then Some(s.temp.value.(synced := true)) else None
  }

  function Commit(s: State, job: Job, stage: Stage, outcome: Outcome): State {
    match stage
    case Opening =>
      if s.stop then Abort(s, job, CANCELLED) else Advance(s, job, outcome, Creating, None)
    case Creating =>
      if s.stop then Abort(s, job, CANCELLED) else Advance(s, job, outcome, Writing, Some(File("", false)))
    case Writing => Advance(s, job, outcome, SyncingFile, Some(File(job.payload, false)))
    case SyncingFile => Advance(s, job, outcome, BeforeLink, SyncedTemp(s))
    case BeforeLink =>
      if s.stop then Abort(s, job, CANCELLED) else s.(worker := Committing(job, Linking))
    case Linking =>
      // Linking names the temporary file or fails; it never replaces a file.
      if outcome.Fails? || s.temp.None? || job.path in s.disk.files then Abort(s, job, IO_ERROR)
      else
        var s1 := s.(disk := Publish(s.disk, job.path, s.temp.value));
        if outcome.Succeeds? then s1.(worker := Committing(job, Unlinking))
        else if outcome.Consumed? then s1.(worker := Committing(job, SyncingDirectory), temp := None)
        else Abort(s1, job, IO_ERROR)
    case Unlinking => Advance(s, job, outcome, SyncingDirectory, None)
    case SyncingDirectory =>
      if outcome.Succeeds? then
        s.(disk := s.disk.(named := s.disk.named + {job.path}), worker := Finishing(job, None))
      else Abort(s, job, IO_ERROR)
  }

  function Finish(s: State, job: Job, error: Option<string>): State {
    var latches := error.Some? && s.failure.None?;
    s.(failure := if latches then error else s.failure, stop := s.stop || latches,
       results := s.results + [ArchiveResult(job.key, job.path, error)], worker := Idle)
  }

  function DoWork(s: State, outcome: Outcome): State {
    match s.worker
    case Idle => Take(s)
    case Committing(job, stage) => Commit(s, job, stage, outcome)
    case Finishing(job, error) => Finish(s, job, error)
    case Exited => s
  }

  function Step(s: State, e: Event): State {
    match e
    case Submit(key, path, payload) => DoSubmit(s, key, path, payload)
    case Poll => DoPoll(s)
    case Close => DoClose(s)
    case Work(outcome) => DoWork(s, outcome)
    case Appear(path, file) =>
      if path in s.disk.files then s else s.(disk := s.disk.(files := s.disk.files[path := file]))
  }

  function Run(s: State, events: seq<Event>): State {
    if events == [] then s else Step(Run(s, events[..|events| - 1]), events[|events| - 1])
  }

  // ----- invariants of every interleaving -----

  /** All results so far, polled or not. */
  function Done(s: State): seq<ArchiveResult> {
    s.delivered + s.results
  }

  function Active(s: State): seq<Job> {
    match s.worker
    case Committing(job, _) => [job]
    case Finishing(job, _) => [job]
    case _ => []
  }

  ghost predicate Answers(done: seq<ArchiveResult>, jobs: seq<Job>) {
    |done| <= |jobs| && forall i :: 0 <= i < |done| ==> done[i].key == jobs[i].key && done[i].path == jobs[i].path
  }

  /** Every accepted job is in exactly one place, in submission order. */
  ghost predicate InOrder(s: State) {
    && |Done(s)| <= |s.submitted| && Answers(Done(s), s.submitted)
    && Active(s) + s.waiting == s.submitted[|Done(s)|..]
    && (s.worker.Exited? ==> s.closing && s.waiting == [])
  }

  function KeysOf(open: seq<Job>): set<Key> {
    if open == [] then {} else {open[0].key} + KeysOf(open[1..])
  }

  function PathsOf(open: seq<Job>): set<Path> {
    if open == [] then {} else {open[0].path} + PathsOf(open[1..])
  }

  ghost predicate DistinctJobs(open: seq<Job>) {
    open == [] || (open[0].key !in KeysOf(open[1..]) && open[0].path !in PathsOf(open[1..]) && DistinctJobs(open[1..]))
  }

  ghost predicate Lists(outstanding: map<Key, Path>, paths: set<Path>, open: seq<Job>) {
    outstanding.Keys == KeysOf(open) && paths == PathsOf(open) && DistinctJobs(open)
  }

  /** The books list exactly the jobs not yet polled; keys and paths among them are distinct. */
  ghost predicate BooksOk(s: State) {
    && |s.delivered| <= |s.submitted|
    && Lists(s.outstanding, s.paths, s.submitted[|s.delivered|..])
    && |s.outstanding| == |s.submitted| - |s.delivered| <= s.capacity
  }

  /** Successes come first; the first error latches; a success is on disk for good. */
  ghost predicate ResultsOk(done: seq<ArchiveResult>, jobs: seq<Job>, disk: Disk, failure: Option<string>) {
    && |done| <= |jobs|
    && (forall i, j :: 0 <= i < j < |done| && done[j].error.None? ==> done[i].error.None?)
    && (failure.None? <==> forall i :: 0 <= i < |done| ==> done[i].error.None?)
    && (forall i :: 0 <= i < |done| && done[i].error.None? ==> disk.Durable(jobs[i].path, jobs[i].payload))
  }

  /** What the worker holds at each point: before it is linked the temporary file is whole and
      synced, and from then on the destination is that very file. */
  ghost predicate WorkerOk(s: State) {
    match s.worker
    case Committing(job, stage) =>
      && s.failure.None?
      && (stage.Opening? || stage.Creating? ==> s.temp == None)
      && (stage.Writing? ==> s.temp == Some(File("", false)))
      && (stage.SyncingFile? ==> s.temp == Some(File(job.payload, false)))
      && (stage.BeforeLink? || stage.Linking? ==> s.temp == Some(File(job.payload, true)))
      && (stage.Unlinking? || stage.SyncingDirectory? ==> Written(s.disk, job))
      && (stage.SyncingDirectory? ==> s.temp == None)
    case Finishing(job, None) => s.disk.Durable(job.path, job.payload) && s.failure.None? && s.temp == None
    case _ => s.temp == None
  }

  ghost predicate Written(disk: Disk, job: Job) {
    job.path in disk.files && disk.files[job.path] == File(job.payload, true)
  }

  ghost predicate Invariant(s: State) {
    && InOrder(s) && BooksOk(s) && WorkerOk(s)
    && ResultsOk(Done(s), s.submitted, s.disk, s.failure)
    && (s.closing || s.failure.Some? ==> s.stop)
  }

  /** A step never changes or removes an existing file, nor forgets a durable name. */
  lemma FilesAreImmutable(s: State, e: Event)
    ensures forall path :: path in s.disk.files ==>
              path in Step(s, e).disk.files && Step(s, e).disk.files[path] == s.disk.files[path]
    ensures s.disk.named <= Step(s, e).disk.named
  {
    hide SubmitError;
    if e.Work? && s.worker.Committing? {
      CommitKeepsFiles(s, s.worker.job, s.worker.stage, e.outcome);
      hide Commit;
    }
  }

  lemma CommitKeepsFiles(s: State, job: Job, stage: Stage, outcome: Outcome)
    ensures var s' := Commit(s, job, stage, outcome);
            && (forall path :: path in s.disk.files ==> path in s'.disk.files && s'.disk.files[path] == s.disk.files[path])
            && s.disk.named <= s'.disk.named
  {
  }

  // ----- order -----

  lemma SuffixGrows(jobs: seq<Job>, n: nat, job: Job)
    requires n <= |jobs|
    ensures (jobs + [job])[n..] == jobs[n..] + [job]
  {
  }

  lemma SuffixHead(jobs: seq<Job>, n: nat, job: Job, rest: seq<Job>)
    requires n <= |jobs| && jobs[n..] == [job] + rest
    ensures n < |jobs| && jobs[n] == job && jobs[n + 1..] == rest
  {
    assert jobs[n..][0] == job && jobs[n..][1..] == rest;
  }

  lemma CommitIsLocal(s: State, job: Job, stage: Stage, outcome: Outcome)
    ensures var s' := Commit(s, job, stage, outcome);
            && s' == s.(worker := s'.worker, temp := s'.temp, disk := s'.disk)
            && ((s'.worker.Committing? && s'.worker.job == job) || (s'.worker.Finishing? && s'.worker.job == job))
  {
  }

  lemma SubmitKeepsOrder(s: State, key: Key, path: Path, payload: Bytes)
    requires InOrder(s)
    ensures InOrder(DoSubmit(s, key, path, payload))
  {
    var job := Job(key, path, payload);
    SuffixGrows(s.submitted, |Done(s)|, job);
    assert Active(s) + (s.waiting + [job]) == Active(s) + s.waiting + [job];
  }

  lemma TakeKeepsOrder(s: State)
    requires InOrder(s) && s.worker.Idle?
    ensures InOrder(Take(s))
  {
    assert Done(Take(s)) == Done(s);
    hide Answers;
    if s.waiting != [] {
      assert [] + s.waiting == [s.waiting[0]] + s.waiting[1..];
    }
  }

  lemma AnswersGrow(done: seq<ArchiveResult>, jobs: seq<Job>, r: ArchiveResult)
    requires Answers(done, jobs) && |done| < |jobs| && r.key == jobs[|done|].key && r.path == jobs[|done|].path
    ensures Answers(done + [r], jobs)
  {
  }

  lemma FinishAdds(s: State, job: Job, error: Option<string>)
    ensures var s' := Finish(s, job, error);
            && Done(s') == Done(s) + [ArchiveResult(job.key, job.path, error)]
            && s'.submitted == s.submitted && s'.waiting == s.waiting && s'.worker == Idle && s'.closing == s.closing
  {
    assert s.delivered + (s.results + [ArchiveResult(job.key, job.path, error)])
        == s.delivered + s.results + [ArchiveResult(job.key, job.path, error)];
  }

  lemma FinishKeepsOrder(s: State, job: Job, error: Option<string>)
    requires InOrder(s) && |Done(s)| <= |s.submitted| && s.worker == Finishing(job, error)
    ensures InOrder(Finish(s, job, error))
    ensures |Done(s)| < |s.submitted| && s.submitted[|Done(s)|] == job
    ensures Done(Finish(s, job, error)) == Done(s) + [ArchiveResult(job.key, job.path, error)]
  {
    hide Answers, Done, Finish;
    FinishAdds(s, job, error);
    SuffixHead(s.submitted, |Done(s)|, job, s.waiting);
    AnswersGrow(Done(s), s.submitted, ArchiveResult(job.key, job.path, error));
    assert [] + s.waiting == s.waiting;
  }

  lemma StepKeepsOrder(s: State, e: Event)
    requires InOrder(s)
    ensures InOrder(Step(s, e))
  {
    match e {
      case Submit(key, path, payload) => SubmitKeepsOrder(s, key, path, payload);
      case Poll => assert Done(Step(s, e)) == Done(s);
      case Work(outcome) =>
        match s.worker {
          case Idle => TakeKeepsOrder(s);
          case Committing(job, stage) =>
            CommitIsLocal(s, job, stage, outcome);
            hide Commit, Answers;
            assert Done(Step(s, e)) == Done(s);
          case Finishing(job, error) => FinishKeepsOrder(s, job, error);
          case Exited =>
        }
      case _ =>
    }
  }

  // ----- books -----

  lemma {:induction false} TailSets(open: seq<Job>, job: Job)
    ensures KeysOf(open + [job]) == KeysOf(open) + {job.key}
    ensures PathsOf(open + [job]) == PathsOf(open) + {job.path}
  {
    if open == [] {
      assert [] + [job] == [job];
    } else {
      TailSets(open[1..], job);
      assert (open + [job])[1..] == open[1..] + [job];
    }
  }

  lemma {:induction false} TailDistinct(open: seq<Job>, job: Job)
    requires DistinctJobs(open) && job.key !in KeysOf(open) && job.path !in PathsOf(open)
    ensures DistinctJobs(open + [job])
  {
    if open == [] {
      assert [] + [job] == [job];
    } else {
      TailDistinct(open[1..], job);
      TailSets(open[1..], job);
      assert (open + [job])[1..] == open[1..] + [job];
    }
  }

  lemma {:induction false} DistinctSize(open: seq<Job>)
    requires DistinctJobs(open)
    ensures |KeysOf(open)| == |open|
  {
    if open != [] {
      DistinctSize(open[1..]);
    }
  }

  function ResultKeys(results: seq<ArchiveResult>): set<Key> {
    set r | r in results :: r.key
  }

  function ResultPaths(results: seq<ArchiveResult>): set<Path> {
    set r | r in results :: r.path
  }

  lemma ResultHead(results: seq<ArchiveResult>)
    requires results != []
    ensures ResultKeys(results) == {results[0].key} + ResultKeys(results[1..])
    ensures ResultPaths(results) == {results[0].path} + ResultPaths(results[1..])
  {
    assert results == [results[0]] + results[1..];
  }

  /** Polled results name the first open jobs; the rest stays listed. */
  lemma {:induction false} SettledRest(results: seq<ArchiveResult>, open: seq<Job>)
    requires DistinctJobs(open) && Answers(results, open)
    ensures KeysOf(open) - ResultKeys(results) == KeysOf(open[|results|..])
    ensures PathsOf(open) - ResultPaths(results) == PathsOf(open[|results|..])
    ensures ResultKeys(results) <= KeysOf(open) && ResultPaths(results) <= PathsOf(open)
    ensures DistinctJobs(open[|results|..])
  {
    if results == [] {
      assert open[0..] == open;
    } else {
      ResultHead(results);
      SettledRest(results[1..], open[1..]);
      hide ResultKeys, ResultPaths;
      assert open[1..][|results| - 1..] == open[|results|..];
    }
  }

  /** Polled results answer the first open jobs. */
  lemma ResultsAnswerOpen(s: State)
    requires InOrder(s) && |s.delivered| <= |s.submitted|
    ensures var open := s.submitted[|s.delivered|..];
            |s.results| <= |open| && Answers(s.results, open) && s.submitted[|s.delivered + s.results|..] == open[|s.results|..]
  {
    hide Active;
    var open := s.submitted[|s.delivered|..];
    forall i | 0 <= i < |s.results| ensures s.results[i].key == open[i].key && s.results[i].path == open[i].path {
      assert Done(s)[|s.delivered| + i] == s.results[i];
    }
  }

  lemma ListedSize(outstanding: map<Key, Path>, paths: set<Path>, open: seq<Job>)
    requires Lists(outstanding, paths, open)
    ensures |outstanding| == |open|
  {
    DistinctSize(open);
    assert |outstanding.Keys| == |outstanding|;
  }

  lemma SettleBooks(s: State)
    requires InOrder(s) && BooksOk(s)
    ensures BooksOk(DoPoll(s))
  {
    var open, s' := s.submitted[|s.delivered|..], DoPoll(s);
    ResultsAnswerOpen(s);
    hide Answers, Active, InOrder, KeysOf, PathsOf, DistinctJobs;
    SettledRest(s.results, open);
    assert s'.outstanding.Keys == s.outstanding.Keys - ResultKeys(s.results);
    assert s'.paths == s.paths - ResultPaths(s.results);
    ListedSize(s'.outstanding, s'.paths, open[|s.results|..]);
  }

  lemma Admitted(s: State, key: Key, path: Path, payload: Bytes)
    requires SubmitError(s, key, path, payload).None?
    ensures key !in s.outstanding && path !in s.paths && |s.outstanding| < s.capacity && !s.closing && s.failure.None?
  {
  }

  lemma SubmitKeepsBooks(s: State, key: Key, path: Path, payload: Bytes)
    requires BooksOk(s)
    ensures BooksOk(DoSubmit(s, key, path, payload))
  {
    if SubmitError(s, key, path, payload).None? {
      var open, job := s.submitted[|s.delivered|..], Job(key, path, payload);
      SuffixGrows(s.submitted, |s.delivered|, job);
      Admitted(s, key, path, payload);
      hide KeysOf, PathsOf, DistinctJobs, SubmitError;
      TailSets(open, job);
      TailDistinct(open, job);
      ListedSize(s.outstanding[key := path], s.paths + {path}, open + [job]);
    }
  }

  lemma StepKeepsBooks(s: State, e: Event)
    requires InOrder(s) && BooksOk(s)
    ensures BooksOk(Step(s, e))
  {
    hide Lists, InOrder, DoPoll, DoSubmit, DoWork;
    match e {
      case Submit(key, path, payload) => SubmitKeepsBooks(s, key, path, payload);
      case Poll => SettleBooks(s);
      case Work(outcome) => WorkKeepsBooks(s, outcome);
      case _ =>
    }
  }

  lemma WorkKeepsBooks(s: State, outcome: Outcome)
    ensures var s' := DoWork(s, outcome);
            && s'.submitted == s.submitted && s'.delivered == s.delivered && s'.outstanding == s.outstanding
            && s'.paths == s.paths && s'.capacity == s.capacity && s'.closing == s.closing
  {
    if s.worker.Committing? {
      CommitIsLocal(s, s.worker.job, s.worker.stage, outcome);
      hide Commit;
    }
  }

  // ----- results -----

  lemma ResultsCarry(done: seq<ArchiveResult>, jobs: seq<Job>, jobs': seq<Job>, disk: Disk, disk': Disk, failure: Option<string>)
    requires ResultsOk(done, jobs, disk, failure)
    requires |jobs| <= |jobs'| && jobs'[..|jobs|] == jobs
    requires forall path :: path in disk.files ==> path in disk'.files && disk'.files[path] == disk.files[path]
    requires disk.named <= disk'.named
    ensures ResultsOk(done, jobs', disk', failure)
  {
    assert forall i :: 0 <= i < |done| ==> jobs'[i] == jobs[i];
  }

  lemma ResultsGrow(done: seq<ArchiveResult>, jobs: seq<Job>, disk: Disk, failure: Option<string>, r: ArchiveResult)
    requires ResultsOk(done, jobs, disk, failure) && |done| < |jobs|
    requires r.error.None? ==> failure.None? && disk.Durable(jobs[|done|].path, jobs[|done|].payload)
    ensures ResultsOk(done + [r], jobs, disk, if failure.None? then r.error else failure)
  {
    hide Disk.Durable;
    var all := done + [r];
    assert all[|done|] == r && forall i :: 0 <= i < |done| ==> all[i] == done[i];
  }

  lemma StepKeepsDone(s: State, e: Event)
    requires !(e.Work? && s.worker.Finishing?)
    ensures Done(Step(s, e)) == Done(s) && Step(s, e).failure == s.failure
    ensures |s.submitted| <= |Step(s, e).submitted| && Step(s, e).submitted[..|s.submitted|] == s.submitted
  {
    if e.Work? && s.worker.Committing? {
      CommitIsLocal(s, s.worker.job, s.worker.stage, e.outcome);
      hide Commit;
    }
    hide SubmitError;
  }

  lemma StepKeepsResults(s: State, e: Event)
    requires Invariant(s)
    ensures ResultsOk(Done(Step(s, e)), Step(s, e).submitted, Step(s, e).disk, Step(s, e).failure)
  {
    FilesAreImmutable(s, e);
    assert s.worker.Finishing? && s.worker.error.None? ==>
             s.failure.None? && s.disk.Durable(s.worker.job.path, s.worker.job.payload);
    hide ResultsOk, BooksOk, WorkerOk, Commit, SubmitError, Disk.Durable;
    if e.Work? && s.worker.Finishing? {
      FinishKeepsOrder(s, s.worker.job, s.worker.error);
      ResultsGrow(Done(s), s.submitted, s.disk, s.failure,
                  ArchiveResult(s.worker.job.key, s.worker.job.path, s.worker.error));
    } else {
      StepKeepsDone(s, e);
      ResultsCarry(Done(s), s.submitted, Step(s, e).submitted, s.disk, Step(s, e).disk, s.failure);
    }
  }

  lemma CommitKeepsWorker(s: State, job: Job, stage: Stage, outcome: Outcome)
    requires s.worker == Committing(job, stage) && WorkerOk(s)
    ensures WorkerOk(Commit(s, job, stage, outcome))
  {
  }

  lemma WorkerCarries(s: State, disk: Disk)
    requires WorkerOk(s) && s.disk.named <= disk.named
    requires forall path :: path in s.disk.files ==> path in disk.files && disk.files[path] == s.disk.files[path]
    ensures WorkerOk(s.(disk := disk))
  {
  }

  lemma StepKeepsWorker(s: State, e: Event)
    requires WorkerOk(s) && (s.closing || s.failure.Some? ==> s.stop)
    ensures WorkerOk(Step(s, e)) && (Step(s, e).closing || Step(s, e).failure.Some? ==> Step(s, e).stop)
  {
    match e {
      case Work(outcome) =>
        if s.worker.Committing? {
          CommitKeepsWorker(s, s.worker.job, s.worker.stage, outcome);
          CommitIsLocal(s, s.worker.job, s.worker.stage, outcome);
          hide Commit, WorkerOk;
        }
      case Appear(_, _) =>
        FilesAreImmutable(s, e);
        WorkerCarries(s, Step(s, e).disk);
        hide WorkerOk;
      case _ => hide SubmitError;
    }
  }

  lemma StepKeeps(s: State, e: Event)
    requires Invariant(s)
    ensures Invariant(Step(s, e))
  {
    hide Step, InOrder, BooksOk, WorkerOk, ResultsOk;
    StepKeepsOrder(s, e);
    StepKeepsBooks(s, e);
    StepKeepsResults(s, e);
    StepKeepsWorker(s, e);
  }

  lemma {:induction false} AlwaysConsistent(capacity: nat, disk: Disk, events: seq<Event>)
    ensures Invariant(Run(Start(capacity, disk), events))
  {
    if events != [] {
      var s := Run(Start(capacity, disk), events[..|events| - 1]);
      AlwaysConsistent(capacity, disk, events[..|events| - 1]);
      StepKeeps(s, events[|events| - 1]);
      hide Step, Invariant;
    }
  }

  // ----- what callers rely on -----

  /**
   In every interleaving: results answer the accepted jobs one to one in submission order, the
   successes are a prefix and durable, and the capacity covers waiting, active and unpolled jobs.
   */
  lemma ArchiveContract(capacity: nat, disk: Disk, events: seq<Event>)
    ensures var s := Run(Start(capacity, disk), events);
            && |s.submitted| == |Done(s)| + |Active(s)| + |s.waiting|
            && |s.outstanding| == |s.results| + |Active(s)| + |s.waiting| <= capacity
            && (forall i :: 0 <= i < |Done(s)| ==>
                  Done(s)[i].key == s.submitted[i].key && Done(s)[i].path == s.submitted[i].path)
            && (forall i :: 0 <= i < |Done(s)| && Done(s)[i].error.None? ==>
                  s.disk.Durable(s.submitted[i].path, s.submitted[i].payload)
                  && forall k :: 0 <= k < i ==> Done(s)[k].error.None?)
  {
    AlwaysConsistent(capacity, disk, events);
    CapacityFixed(capacity, disk, events);
    var s := Run(Start(capacity, disk), events);
    hide Run;
    assert |Active(s) + s.waiting| == |s.submitted[|Done(s)|..]|;
    assert |Done(s)| == |s.delivered| + |s.results|;
  }

  lemma {:induction false} CapacityFixed(capacity: nat, disk: Disk, events: seq<Event>)
    ensures Run(Start(capacity, disk), events).capacity == capacity
  {
    if events != [] {
      CapacityFixed(capacity, disk, events[..|events| - 1]);
      var s := Run(Start(capacity, disk), events[..|events| - 1]);
      if events[|events| - 1].Work? {
        WorkKeepsBooks(s, events[|events| - 1].outcome);
      }
      hide DoWork;
    }
  }

  /** A file that exists when a run goes on is never changed by it. */
  lemma {:induction false} NoFileEverChanges(s: State, events: seq<Event>, path: Path)
    requires path in s.disk.files
    ensures path in Run(s, events).disk.files && Run(s, events).disk.files[path] == s.disk.files[path]
  {
    if events != [] {
      NoFileEverChanges(s, events[..|events| - 1], path);
      FilesAreImmutable(Run(s, events[..|events| - 1]), events[|events| - 1]);
      hide Step;
    }
  }

  /** Upper bound on the worker's remaining steps. */
  function Remaining(s: State): nat {
    10 * |s.waiting| + match s.worker
                       case Idle => 1
                       case Committing(_, Opening) => 10
                       case Committing(_, Creating) => 9
                       case Committing(_, Writing) => 8
                       case Committing(_, SyncingFile) => 7
                       case Committing(_, BeforeLink) => 6
                       case Committing(_, Linking) => 5
                       case Committing(_, Unlinking) => 4
                       case Committing(_, SyncingDirectory) => 3
                       case Finishing(_, _) => 2
                       case Exited => 0
  }

  lemma WorkProgress(s: State, outcome: Outcome)
    requires s.closing && s.worker != Exited
    ensures Remaining(DoWork(s, outcome)) < Remaining(s) && DoWork(s, outcome).closing
  {
  }

  function WorkSteps(outcomes: seq<Outcome>): seq<Event> {
    seq(|outcomes|, i requires 0 <= i < |outcomes| => Work(outcomes[i]))
  }

  /** After close the worker exits within its remaining steps, whatever the disk answers. */
  lemma {:induction false} CloseDrains(s: State, outcomes: seq<Outcome>)
    requires s.closing && Remaining(s) <= |outcomes| && (s.worker.Exited? ==> s.waiting == [])
    ensures var s' := Run(s, WorkSteps(outcomes)); s'.worker == Exited && s'.waiting == []
  {
    ExitsOrDescends(s, outcomes);
  }

  lemma {:induction false} ExitsOrDescends(s: State, outcomes: seq<Outcome>)
    requires s.closing && (s.worker.Exited? ==> s.waiting == [])
    ensures var s' := Run(s, WorkSteps(outcomes));
            s'.closing && (s'.worker.Exited? ==> s'.waiting == []) && (s'.worker.Exited? || Remaining(s') + |outcomes| <= Remaining(s))
  {
    if outcomes != [] {
      var n := |outcomes| - 1;
      ExitsOrDescends(s, outcomes[..n]);
      assert WorkSteps(outcomes)[..n] == WorkSteps(outcomes[..n]);
      var before := Run(s, WorkSteps(outcomes[..n]));
      if before.worker != Exited {
        WorkProgress(before, outcomes[n]);
        ExitMeansEmpty(before, outcomes[n]);
      }
      hide DoWork, Remaining;
      assert DoWork(before, outcomes[n]) == before || before.worker != Exited by { ExitedStays(before, outcomes[n]); }
    }
  }

  lemma ExitMeansEmpty(s: State, outcome: Outcome)
    requires s.worker != Exited
    ensures DoWork(s, outcome).worker == Exited ==> DoWork(s, outcome).waiting == []
  {
    hide Commit;
    if s.worker.Committing? {
      CommitIsLocal(s, s.worker.job, s.worker.stage, outcome);
    }
  }

  lemma ExitedStays(s: State, outcome: Outcome)
    ensures s.worker == Exited ==> DoWork(s, outcome) == s
  {
  }

  /** Once the worker has exited, every accepted job has its result. */
  lemma EveryJobAnswered(capacity: nat, disk: Disk, events: seq<Event>)
    requires Run(Start(capacity, disk), events).worker.Exited?
    ensures var s := Run(Start(capacity, disk), events); |Done(s)| == |s.submitted|
  {
    AlwaysConsistent(capacity, disk, events);
    ArchiveContract(capacity, disk, events);
  }

  // ----- the answers, told by the histories -----

  ghost predicate Failed(done: seq<ArchiveResult>) {
    exists i :: 0 <= i < |done| && done[i].error.Some?
  }

  ghost predicate Closed(events: seq<Event>) {
    exists i :: 0 <= i < |events| && events[i].Close?
  }

  lemma ClosedMore(events: seq<Event>, e: Event)
    ensures Closed(events + [e]) <==> Closed(events) || e.Close?
  {
    var all := events + [e];
    assert all[|events|] == e && forall i :: 0 <= i < |events| ==> all[i] == events[i];
  }

  lemma StopsStep(s: State, e: Event)
    requires s.stop <==> s.closing || s.failure.Some?
    ensures var s' := Step(s, e);
            (s'.closing <==> s.closing || e.Close?) && (s'.stop <==> s'.closing || s'.failure.Some?)
  {
    hide SubmitError, Commit;
    if e.Work? && s.worker.Committing? {
      CommitIsLocal(s, s.worker.job, s.worker.stage, e.outcome);
      CommitKeepsStop(s, s.worker.job, s.worker.stage, e.outcome);
    }
  }

  /** Admission has ended exactly when close was called, and the worker is told to stop exactly then
      and after a first error. */
  lemma {:induction false} StopsExactly(capacity: nat, disk: Disk, events: seq<Event>)
    ensures var s := Run(Start(capacity, disk), events);
            (s.closing <==> Closed(events)) && (s.stop <==> s.closing || s.failure.Some?)
  {
    hide Step, Closed;
    if events != [] {
      var before, e := events[..|events| - 1], events[|events| - 1];
      StopsExactly(capacity, disk, before);
      assert events == before + [e];
      ClosedMore(before, e);
      StopsStep(Run(Start(capacity, disk), before), e);
    } else {
      NotClosed();
    }
  }

  lemma NotClosed()
    ensures !Closed([])
  {
  }

  lemma CommitKeepsStop(s: State, job: Job, stage: Stage, outcome: Outcome)
    ensures Commit(s, job, stage, outcome).stop == s.stop && Commit(s, job, stage, outcome).closing == s.closing
  {
  }

  /** The key and path are of no accepted job whose result has not been polled. */
  ghost predicate NotOpen(s: State, key: Key, path: Path) {
    forall i :: |s.delivered| <= i < |s.submitted| ==> s.submitted[i].key != key && s.submitted[i].path != path
  }

  lemma {:induction false} ListedExactly(open: seq<Job>, key: Key, path: Path)
    ensures key in KeysOf(open) <==> exists i :: 0 <= i < |open| && open[i].key == key
    ensures path in PathsOf(open) <==> exists i :: 0 <= i < |open| && open[i].path == path
  {
    if open != [] {
      ListedExactly(open[1..], key, path);
      assert forall i :: 0 < i < |open| ==> open[i] == open[1..][i - 1];
      assert forall i :: 0 <= i < |open[1..]| ==> open[1..][i] == open[i + 1];
    }
  }

  lemma OpenExactly(s: State, key: Key, path: Path)
    requires |s.delivered| <= |s.submitted| && Lists(s.outstanding, s.paths, s.submitted[|s.delivered|..])
    ensures NotOpen(s, key, path) <==> key !in s.outstanding && path !in s.paths
  {
    var open := s.submitted[|s.delivered|..];
    ListedExactly(open, key, path);
    hide KeysOf, PathsOf, DistinctJobs;
    assert forall i :: |s.delivered| <= i < |s.submitted| ==> s.submitted[i] == open[i - |s.delivered|];
    assert forall i :: 0 <= i < |open| ==> open[i] == s.submitted[i + |s.delivered|];
  }

  /**
   In every interleaving a job is accepted exactly when its texts are not empty, close was not called,
   no result has an error, its key and path are of no job still open, and fewer jobs than the
   capacity are open; it is then the last one in line. Otherwise nothing changes.
   */
  lemma AdmitsExactly(capacity: nat, disk: Disk, events: seq<Event>, key: Key, path: Path, payload: Bytes)
    ensures var s, s' := Run(Start(capacity, disk), events), Run(Start(capacity, disk), events + [Submit(key, path, payload)]);
            if key != "" && payload != "" && path != "" && !Closed(events) && !Failed(Done(s)) && NotOpen(s, key, path)
               && |s.submitted| - |s.delivered| < capacity
            then s'.submitted == s.submitted + [Job(key, path, payload)] && s'.waiting == s.waiting + [Job(key, path, payload)]
            else s' == s
  {
    hide Run, InOrder, WorkerOk, Closed, Lists, NotOpen;
    AlwaysConsistent(capacity, disk, events);
    StopsExactly(capacity, disk, events);
    CapacityFixed(capacity, disk, events);
    RunNext(Start(capacity, disk), events, Submit(key, path, payload));
    OpenExactly(Run(Start(capacity, disk), events), key, path);
  }

  lemma RunNext(s: State, events: seq<Event>, e: Event)
    ensures Run(s, events + [e]) == Step(Run(s, events), e)
  {
    assert (events + [e])[..|events|] == events;
  }

  predicate Checkpoint(stage: Stage) {
    stage.Opening? || stage.Creating? || stage.BeforeLink?
  }

  /** The call of this stage is answered well. */
  predicate Answered(stage: Stage, outcome: Outcome) {
    match stage
    case BeforeLink => true
    case SyncingDirectory => outcome == Succeeds
    case _ => outcome == Succeeds || outcome == Consumed
  }

  /** One step of a transaction fails exactly when the worker was told to stop at a checkpoint, the
      call is not answered well, or the destination exists when it is linked. */
  lemma CommitFailsExactly(s: State, job: Job, stage: Stage, outcome: Outcome)
    requires s.worker == Committing(job, stage) && WorkerOk(s)
    ensures var s' := Commit(s, job, stage, outcome);
            (s'.worker.Finishing? && s'.worker.error.Some?) <==>
              (s.stop && Checkpoint(stage)) || !Answered(stage, outcome) || (stage.Linking? && job.path in s.disk.files)
  {
  }

  /** The oldest job waits for a worker that may start it, and its path is free. */
  ghost predicate Startable(s: State) {
    s.worker.Idle? && s.waiting != [] && s.failure.None? && !s.closing && !s.stop && s.waiting[0].path !in s.disk.files
  }

  function Worked(s: State, n: nat): State {
    if n == 0 then s else DoWork(Worked(s, n - 1), Succeeds)
  }

  lemma SixSteps(s: State)
    requires Startable(s)
    ensures Worked(s, 6).worker == Committing(s.waiting[0], Linking) && !Worked(s, 6).stop
    ensures Worked(s, 6).temp == Some(File(s.waiting[0].payload, true)) && Worked(s, 6).disk == s.disk
    ensures Worked(s, 6).waiting == s.waiting[1..] && Done(Worked(s, 6)) == Done(s)
  {
    var job := s.waiting[0];
    assert Worked(s, 1) == s.(waiting := s.waiting[1..], worker := Committing(job, Opening));
    assert Worked(s, 3) == Worked(s, 1).(worker := Committing(job, Writing), temp := Some(File("", false)));
    assert Worked(s, 5) == Worked(s, 3).(worker := Committing(job, BeforeLink), temp := Some(File(job.payload, true)));
  }

  lemma FourSteps(s: State, job: Job)
    requires s.worker == Committing(job, Linking) && s.temp == Some(File(job.payload, true)) && job.path !in s.disk.files
    ensures var s7 := DoWork(s, Succeeds);
            var s8 := DoWork(s7, Succeeds);
            var s9 := DoWork(s8, Succeeds);
            s9 == s.(worker := Finishing(job, None), temp := None, disk := s9.disk) && s9.disk.Durable(job.path, job.payload)
  {
    hide Take, Finish;
    var s7 := DoWork(s, Succeeds);
    assert s7 == s.(disk := Publish(s.disk, job.path, File(job.payload, true)), worker := Committing(job, Unlinking));
    var s8 := DoWork(s7, Succeeds);
    assert s8 == s7.(worker := Committing(job, SyncingDirectory), temp := None);
  }

  lemma WorkedNext(s: State, n: nat)
    ensures Worked(s, n + 1) == DoWork(Worked(s, n), Succeeds)
  {
  }

  /** With every call answered well the oldest job ends on disk and with a result without error. */
  lemma JobSucceeds(s: State)
    requires Startable(s)
    ensures var s', job := Worked(s, 10), s.waiting[0];
            && Done(s') == Done(s) + [ArchiveResult(job.key, job.path, None)]
            && s'.disk.Durable(job.path, job.payload) && s'.waiting == s.waiting[1..] && s'.worker.Idle? && s'.temp == None
  {
    hide Worked, Commit, Take, Disk.Durable, Done;
    SixSteps(s);
    var job, s6 := s.waiting[0], Worked(s, 6);
    FourSteps(s6, job);
    WorkedNext(s, 6);
    WorkedNext(s, 7);
    WorkedNext(s, 8);
    WorkedNext(s, 9);
    SameDone(s6, Worked(s, 9));
    FinishAdds(Worked(s, 9), job, None);
  }

  lemma SameDone(s: State, s': State)
    requires s'.delivered == s.delivered && s'.results == s.results
    ensures Done(s') == Done(s)
  {
  }

  lemma {:induction false} WorkedIsRun(s: State, n: nat)
    ensures Worked(s, n) == Run(s, seq(n, _ => Work(Succeeds)))
  {
    hide DoWork;
    if n > 0 {
      WorkedIsRun(s, n - 1);
      assert seq(n, _ => Work(Succeeds))[..n - 1] == seq(n - 1, _ => Work(Succeeds));
    }
  }

  /** In every interleaving: when the worker is idle, nothing failed, close was not called, and the
      oldest waiting job's path is free, ten well answered steps archive it. */
  lemma OldestIsArchived(capacity: nat, disk: Disk, events: seq<Event>)
    requires var s := Run(Start(capacity, disk), events);
             s.worker.Idle? && s.waiting != [] && !Failed(Done(s)) && !Closed(events) && s.waiting[0].path !in s.disk.files
    ensures var s := Run(Start(capacity, disk), events);
            var s' := Run(s, seq(10, _ => Work(Succeeds)));
            && Done(s') == Done(s) + [ArchiveResult(s.waiting[0].key, s.waiting[0].path, None)]
            && s'.disk.Durable(s.waiting[0].path, s.waiting[0].payload) && s'.waiting == s.waiting[1..]
  {
    hide Run, InOrder, BooksOk, WorkerOk, Closed, Worked;
    AlwaysConsistent(capacity, disk, events);
    StopsExactly(capacity, disk, events);
    var s := Run(Start(capacity, disk), events);
    WorkedIsRun(s, 10);
    JobSucceeds(s);
  }

  /** A poll hands out every result there is and takes them off the books. */
  lemma PollsExactly(capacity: nat, disk: Disk, events: seq<Event>)
    ensures var s, s' := Run(Start(capacity, disk), events), Run(Start(capacity, disk), events + [Poll]);
            s'.delivered == Done(s) && s'.results == [] && |s'.outstanding| == |s.submitted| - |Done(s)|
            && s'.waiting == s.waiting && s'.worker == s.worker && s'.disk == s.disk
  {
    hide Run, InOrder, WorkerOk, ResultsOk, Lists, Settle;
    AlwaysConsistent(capacity, disk, events);
    RunNext(Start(capacity, disk), events, Poll);
    AlwaysConsistent(capacity, disk, events + [Poll]);
  }
}
