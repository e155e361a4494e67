/**
 The journalled rollback (`main` in scripts/restore_deployment.py) over an abstract file system:
 every write or rename is one atomic step, any of them may fail before or after it takes effect,
 and the run may stop or lose power for good between any two of them.

 A rename or a new file survives a power failure for certain only after its directory has been
 synced; until then it may be undone.  The ghost `trace` holds every state that a stop or a power
 failure can leave behind.
 */
module Rollback {
  import opened Common

  type Path = string

  /** File contents; a hash identifies them.  `Torn` is a file whose write was cut short. */
  datatype Bytes = Whole(token: string) | Torn

  /** A project file, the same name under the quarantine, or under the staging area. */
  datatype Place = Live(path: Path) | Retained(path: Path) | Ready(path: Path)

  datatype Status = Staging | Restoring | Restored | Interrupted

  datatype Error = ChangedSinceDeployment(path: Path) | CallFailed

  datatype Journal = Journal(status: Status, completed: seq<Path>, active: Option<Path>)

  /** What a stop or a power failure leaves: files and a journal. */
  datatype Disk = Disk(files: map<Place, Bytes>, journal: Option<Journal>)

  /** The reviewed deployment: its files in order, their contents, and the baseline of those
      that existed before. */
  datatype Plan = Plan(order: seq<Path>, deployed: map<Path, Bytes>, baseline: map<Path, Bytes>) {
    ghost predicate Valid() {
      && (forall i, j :: 0 <= i < j < |order| ==> order[i] != order[j])
      && deployed.Keys == (set p | p in order) && baseline.Keys <= deployed.Keys
    }
  }

  predicate Holds(files: map<Place, Bytes>, place: Place, bytes: Bytes) {
    place in files && files[place] == bytes
  }

  /** The deployed file is in place and nothing of it is retained yet. */
  predicate Untouched(plan: Plan, files: map<Place, Bytes>, p: Path)
    requires p in plan.deployed
  {
    Holds(files, Live(p), plan.deployed[p]) && Retained(p) !in files
  }

  /** Between the two renames: only the retained copy exists. */
  predicate Moved(plan: Plan, files: map<Place, Bytes>, p: Path)
    requires p in plan.deployed
  {
    Live(p) !in files && Holds(files, Retained(p), plan.deployed[p])
  }

  /** The deployed file is retained and the baseline, if there was one, is back. */
  predicate Undone(plan: Plan, files: map<Place, Bytes>, p: Path)
    requires p in plan.deployed
  {
    && Holds(files, Retained(p), plan.deployed[p])
    && if p in plan.baseline then Holds(files, Live(p), plan.baseline[p]) else Live(p) !in files
  }

  /** The baseline of a file that is not back yet is complete in the staging area. */
  predicate Staged(plan: Plan, files: map<Place, Bytes>, p: Path) {
    p in plan.baseline ==> Holds(files, Ready(p), plan.baseline[p])
  }

  /** File `i` while `k` files are done and file `k` may be in the middle of its moves. */
  predicate FileSafe(plan: Plan, files: map<Place, Bytes>, i: nat, k: nat, moving: bool, staged: bool)
    requires i < |plan.order| && plan.order[i] in plan.deployed
  {
    var p := plan.order[i];
    if i < k then Undone(plan, files, p)
    else
      || (Untouched(plan, files, p) && (staged ==> Staged(plan, files, p)))
      || (i == k && moving && (Undone(plan, files, p) || (Moved(plan, files, p) && Staged(plan, files, p))))
  }

  ghost predicate FilesSafe(plan: Plan, files: map<Place, Bytes>, k: nat, moving: bool, staged: bool)
    requires plan.Valid()
  {
    forall i: nat :: i < |plan.order| ==> FileSafe(plan, files, i, k, moving, staged)
  }

  /** The journal names a prefix of the order as completed and at most the next file as active,
      and the files are as it says; once it names a file, every baseline still due is staged. */
  ghost predicate Fits(plan: Plan, files: map<Place, Bytes>, j: Journal)
    requires plan.Valid()
  {
    var k := |j.completed|;
    && k <= |plan.order| && j.completed == plan.order[..k]
    && (j.active.Some? ==> k < |plan.order| && j.active.value == plan.order[k])
    && (j.status.Restored? ==> k == |plan.order|)
    && FilesSafe(plan, files, k, j.active.Some?, j.active.Some? || k > 0)
  }

  const BLANK := Journal(Staging, [], None)

  function Last(onDisk: Option<Journal>): Journal {
    if onDisk.Some? then onDisk.value else BLANK
  }

  /** The two states agree on every place whose path is not one of these. */
  ghost predicate Agree(a: map<Place, Bytes>, b: map<Place, Bytes>, except: set<Path>) {
    forall place: Place :: place.path !in except ==> (place in a <==> place in b) && (place in a ==> a[place] == b[place])
  }

  /** What every stop leaves: files that fit the journal on disk, and nothing else touched. */
  ghost predicate CrashSafe(plan: Plan, origin: map<Place, Bytes>, d: Disk)
    requires plan.Valid()
  {
    Fits(plan, d.files, Last(d.journal)) && Agree(origin, d.files, plan.deployed.Keys)
  }

  ghost predicate AllSafe(plan: Plan, origin: map<Place, Bytes>, trace: set<Disk>)
    requires plan.Valid()
  {
    forall d :: d in trace ==> CrashSafe(plan, origin, d)
  }

  /** Any of the files with any of the journals. */
  ghost function Survivors(files: set<map<Place, Bytes>>, journals: set<Option<Journal>>): set<Disk> {
    set f, j | f in files && j in journals :: Disk(f, j)
  }

  ghost predicate AllFit(plan: Plan, files: set<map<Place, Bytes>>, j: Journal)
    requires plan.Valid()
  {
    forall f :: f in files ==> Fits(plan, f, j)
  }

  /** Where the deployed version of a file is, told by the existence of one name alone. */
  function DeployedCopy(files: map<Place, Bytes>, p: Path): Place {
    if Retained(p) in files then Retained(p) else Live(p)
  }

  /** After a stop anywhere, no deployed file and (once a move may have begun) no baseline is
      lost, the deployed copies can be found, and a file the journal does not name is unchanged. */
  lemma NothingLost(plan: Plan, origin: map<Place, Bytes>, d: Disk, p: Path)
    requires plan.Valid() && CrashSafe(plan, origin, d) && p in plan.deployed
    ensures Holds(d.files, DeployedCopy(d.files, p), plan.deployed[p])
    ensures p in plan.baseline && (Last(d.journal).active.Some? || Last(d.journal).completed != []) ==>
              Holds(d.files, Ready(p), plan.baseline[p]) || Holds(d.files, Live(p), plan.baseline[p])
    ensures p in Last(d.journal).completed ==> Undone(plan, d.files, p)
    ensures p !in Last(d.journal).completed && Last(d.journal).active != Some(p) ==> Untouched(plan, d.files, p)
    ensures Last(d.journal).status.Restored? ==> Undone(plan, d.files, p)
  {
    var i :| 0 <= i < |plan.order| && plan.order[i] == p;
    var j := Last(d.journal);
    assert FileSafe(plan, d.files, i, |j.completed|, j.active.Some?, j.active.Some? || |j.completed| > 0);
    if i < |j.completed| {
      assert j.completed[i] == p;
    }
    if p in j.completed {
      var n :| 0 <= n < |j.completed| && j.completed[n] == p;
      assert plan.order[n] == p;
    }
  }

  // ----- how the steps change what the files say -----

  lemma Start(plan: Plan, files: map<Place, Bytes>)
    requires plan.Valid()
    requires forall p :: p in plan.order ==> Untouched(plan, files, p)
    ensures FilesSafe(plan, files, 0, false, false) && Fits(plan, files, BLANK)
  {
    assert plan.order[..0] == [];
  }

  /** Naming the next file as active asks less of the files. */
  lemma Activate(plan: Plan, files: map<Place, Bytes>, k: nat)
    requires plan.Valid() && k < |plan.order| && FilesSafe(plan, files, k, false, true)
    ensures FilesSafe(plan, files, k, true, true)
    ensures Untouched(plan, files, plan.order[k]) && Staged(plan, files, plan.order[k])
  {
    assert FileSafe(plan, files, k, k, false, true);
    forall i: nat | i < |plan.order| ensures FileSafe(plan, files, i, k, true, true) {
      assert FileSafe(plan, files, i, k, false, true);
    }
  }

  /** A journal that fits and names file `k` as active has completed exactly the files before. */
  lemma SamePlace(plan: Plan, j: Journal, k: nat)
    requires plan.Valid() && k < |plan.order| && j.active == Some(plan.order[k])
    requires |j.completed| < |plan.order| && j.active.value == plan.order[|j.completed|]
    ensures |j.completed| == k
  {
  }

  /** Only the active file's own places change, so every other file stays as safe as it was. */
  lemma MoveOne(plan: Plan, a: map<Place, Bytes>, b: map<Place, Bytes>, k: nat)
    requires plan.Valid() && k < |plan.order| && FilesSafe(plan, a, k, true, true)
    requires Agree(a, b, {plan.order[k]}) && FileSafe(plan, b, k, k, true, true)
    ensures FilesSafe(plan, b, k, true, true)
  {
    forall i: nat | i < |plan.order| ensures FileSafe(plan, b, i, k, true, true) {
      assert FileSafe(plan, a, i, k, true, true);
      if i != k {
        OtherFile(plan, a, b, plan.order[i], plan.order[k]);
      }
    }
  }

  lemma OtherFile(plan: Plan, a: map<Place, Bytes>, b: map<Place, Bytes>, p: Path, q: Path)
    requires p in plan.deployed && p != q && Agree(a, b, {q})
    ensures Undone(plan, a, p) <==> Undone(plan, b, p)
    ensures Untouched(plan, a, p) <==> Untouched(plan, b, p)
    ensures Staged(plan, a, p) <==> Staged(plan, b, p)
  {
    assert Live(p).path != q && Retained(p).path != q && Ready(p).path != q;
  }

  function Renamed(files: map<Place, Bytes>, src: Place, dst: Place): map<Place, Bytes>
    requires src in files
  {
    (files - {src})[dst := files[src]]
  }

  lemma RetainStep(plan: Plan, files: map<Place, Bytes>, k: nat)
    requires plan.Valid() && k < |plan.order|
    requires Untouched(plan, files, plan.order[k]) && Staged(plan, files, plan.order[k])
    ensures var p := plan.order[k]; var moved := Renamed(files, Live(p), Retained(p));
            Moved(plan, moved, p) && Staged(plan, moved, p) && FileSafe(plan, moved, k, k, true, true)
  {
  }

  lemma BaselineStep(plan: Plan, files: map<Place, Bytes>, k: nat)
    requires plan.Valid() && k < |plan.order| && plan.order[k] in plan.baseline
    requires Moved(plan, files, plan.order[k]) && Staged(plan, files, plan.order[k])
    ensures var p := plan.order[k]; var moved := Renamed(files, Ready(p), Live(p));
            Undone(plan, moved, p) && FileSafe(plan, moved, k, k, true, true)
  {
  }

  lemma PutBackStep(plan: Plan, files: map<Place, Bytes>, k: nat)
    requires plan.Valid() && k < |plan.order|
    requires Moved(plan, files, plan.order[k]) && Staged(plan, files, plan.order[k])
    ensures var p := plan.order[k]; FileSafe(plan, Renamed(files, Retained(p), Live(p)), k, k, true, true)
  {
  }

  lemma AllStaged(plan: Plan, files: map<Place, Bytes>)
    requires plan.Valid() && FilesSafe(plan, files, 0, false, false)
    requires forall n :: 0 <= n < |plan.order| ==> Staged(plan, files, plan.order[n])
    ensures FilesSafe(plan, files, 0, false, true)
  {
    forall i: nat | i < |plan.order| ensures FileSafe(plan, files, i, 0, false, true) {
      assert FileSafe(plan, files, i, 0, false, false);
    }
  }

  lemma StillCurrent(plan: Plan, files: map<Place, Bytes>)
    requires plan.Valid() && FilesSafe(plan, files, 0, false, true)
    ensures forall p :: p in plan.order ==> Holds(files, Live(p), plan.deployed[p])
  {
    forall p | p in plan.order ensures Holds(files, Live(p), plan.deployed[p]) {
      var i :| 0 <= i < |plan.order| && plan.order[i] == p;
      assert FileSafe(plan, files, i, 0, false, true);
    }
  }

  /** A file that is undone moves from active to completed. */
  lemma Complete(plan: Plan, files: map<Place, Bytes>, k: nat)
    requires plan.Valid() && k < |plan.order| && FilesSafe(plan, files, k, true, true)
    requires Undone(plan, files, plan.order[k])
    ensures FilesSafe(plan, files, k + 1, false, true)
    ensures plan.order[..k] + [plan.order[k]] == plan.order[..k + 1]
  {
    var next := k + 1;
    forall i: nat | i < |plan.order| ensures FileSafe(plan, files, i, next, false, true) {
      assert FileSafe(plan, files, i, k, true, true);
    }
  }

  /** Writing a baseline into the staging area leaves every deployed file as it was. */
  lemma StageOne(plan: Plan, a: map<Place, Bytes>, b: map<Place, Bytes>, p: Path)
    requires plan.Valid() && FilesSafe(plan, a, 0, false, false) && p in plan.deployed
    requires forall place :: place != Ready(p) ==> (place in a <==> place in b) && (place in a ==> a[place] == b[place])
    ensures FilesSafe(plan, b, 0, false, false) && Agree(a, b, plan.deployed.Keys) && Fits(plan, b, BLANK)
  {
    forall i: nat | i < |plan.order| ensures FileSafe(plan, b, i, 0, false, false) {
      assert FileSafe(plan, a, i, 0, false, false);
      assert Live(plan.order[i]) != Ready(p) && Retained(plan.order[i]) != Ready(p);
    }
    assert plan.order[..0] == [];
  }

  // ----- what may survive -----

  lemma MoreTrace(plan: Plan, origin: map<Place, Bytes>, trace: set<Disk>, more: set<Disk>)
    requires plan.Valid() && AllSafe(plan, origin, trace) && AllSafe(plan, origin, more)
    ensures AllSafe(plan, origin, trace + more)
  {
    hide CrashSafe;
  }

  /** A journal that fits all files that may survive may be put beside those that may survive. */
  lemma MoreJournals(plan: Plan, origin: map<Place, Bytes>, files: set<map<Place, Bytes>>, journals: set<Option<Journal>>,
                     j: Journal)
    requires plan.Valid() && journals != {} && AllSafe(plan, origin, Survivors(files, journals)) && AllFit(plan, files, j)
    ensures AllSafe(plan, origin, Survivors(files, journals + {Some(j)}))
  {
    hide Fits, Agree;
    var known :| known in journals;
    forall d | d in Survivors(files, journals + {Some(j)}) ensures CrashSafe(plan, origin, d) {
      assert Disk(d.files, known) in Survivors(files, journals);
    }
  }

  /** Files that fit every journal that may survive may be put beside those that may survive. */
  lemma MoreFiles(plan: Plan, origin: map<Place, Bytes>, files: set<map<Place, Bytes>>, journals: set<Option<Journal>>,
                  f: map<Place, Bytes>, touched: set<Path>)
    requires plan.Valid() && AllSafe(plan, origin, Survivors(files, journals))
    requires touched <= plan.deployed.Keys && exists g :: g in files && Agree(g, f, touched)
    requires forall j :: j in journals ==> Fits(plan, f, Last(j))
    ensures AllSafe(plan, origin, Survivors(files + {f}, journals))
  {
    hide Fits, Last;
    var g :| g in files && Agree(g, f, touched);
    forall d | d in Survivors(files + {f}, journals) ensures CrashSafe(plan, origin, d) {
      assert Disk(g, d.journal) in Survivors(files, journals);
      assert CrashSafe(plan, origin, Disk(g, d.journal));
      assert Agree(origin, f, plan.deployed.Keys);
    }
  }

  lemma FewerSurvive(plan: Plan, origin: map<Place, Bytes>, files: set<map<Place, Bytes>>, journals: set<Option<Journal>>,
                     fewer: set<map<Place, Bytes>>, least: set<Option<Journal>>)
    requires plan.Valid() && AllSafe(plan, origin, Survivors(files, journals)) && fewer <= files && least <= journals
    ensures AllSafe(plan, origin, Survivors(fewer, least)) && Survivors(fewer, least) <= Survivors(files, journals)
  {
    hide CrashSafe;
  }

  class Run {
    const plan: Plan
    const faults: nat -> Fault        // what the n-th system call does
    ghost const origin: map<Place, Bytes>
    var calls: nat
    var files: map<Place, Bytes>
    var onDisk: Option<Journal>
    var journal: Journal              // the dictionary in memory
    ghost var filesLeft: set<map<Place, Bytes>>      // what a power failure may leave of each
    ghost var journalsLeft: set<Option<Journal>>
    ghost var loose: Option<Place>    // the name that is not yet durable
    ghost var trace: set<Disk>

    ghost predicate Faultless() {
      forall n :: faults(n) == Fine
    }

    /** Nothing can be undone by a power failure. */
    ghost predicate Settled()
      reads this
    {
      filesLeft == {files} && journalsLeft == {onDisk}
    }

    /** Every state so far was safe, and all files that may survive fit the journal in memory. */
    ghost predicate Valid()
      reads this
    {
      && plan.Valid() && AllSafe(plan, origin, trace)
      && files in filesLeft && onDisk in journalsLeft
      && AllSafe(plan, origin, Survivors(filesLeft, journalsLeft))
      && (trace != {} ==> Survivors(filesLeft, journalsLeft) <= trace)
      && AllFit(plan, filesLeft, journal)
    }

    /** The quarantine directory is created by this run, so it starts empty. */
    constructor (plan: Plan, faults: nat -> Fault, files: map<Place, Bytes>)
      requires plan.Valid() && forall p :: Retained(p) !in files && Ready(p) !in files
      ensures this.plan == plan && this.faults == faults && this.files == files && origin == files
      ensures onDisk == None && journal == BLANK && Settled() && loose == None && trace == {}
    {
      this.plan, this.faults, this.files, origin := plan, faults, files, files;
      calls, onDisk, journal := 0, None, BLANK;
      filesLeft, journalsLeft, loose, trace := {files}, {None}, None, {};
    }

    /** Ask the system for the outcome of one call. */
    method Call() returns (fault: Fault)
      modifies this`calls
      ensures calls == old(calls) + 1 && fault == faults(calls)
    {
      calls := calls + 1;
      return faults(calls);
    }

    /** A call that can fail but changes nothing: creating a directory, reading a file. */
    method Attempt() returns (ok: bool)
      modifies this`calls
      ensures calls == old(calls) + 1 && ok == faults(calls).Fine?
    {
      var fault := Call();
      return fault.Fine?;
    }

    /** Atomic rename; it replaces whatever the destination held. */
    method Replace(src: Place, dst: Place) returns (ok: bool)
      requires src != dst && src in files
      modifies this`calls, this`files, this`filesLeft, this`loose, this`trace
      ensures (files == Renamed(old(files), src, dst) && filesLeft == old(filesLeft) + {files} && loose == Some(dst)
               && trace == old(trace) + Survivors(filesLeft, journalsLeft))
              || (!ok && files == old(files) && filesLeft == old(filesLeft) && loose == old(loose) && trace == old(trace))
      ensures calls == old(calls) + 1 && ok == faults(calls).Fine?
      ensures if faults(calls).Before? then files == old(files) else files == Renamed(old(files), src, dst)
    {
      var fault := Call();
      if fault.Before? {
        return false;
      }
      files := Renamed(files, src, dst);
      filesLeft, loose := filesLeft + {files}, Some(dst);
      trace := trace + Survivors(filesLeft, journalsLeft);
      return fault.Fine?;
    }

    /** Create a file, write it and sync it; a failure on the way leaves it torn. */
    method WriteNew(dst: Place, bytes: Bytes) returns (ok: bool)
      modifies this`calls, this`files, this`filesLeft, this`loose, this`trace
      ensures files == old(files) || files == old(files)[dst := Torn] || files == old(files)[dst := bytes]
      ensures ok ==> files == old(files)[dst := bytes] && loose == Some(dst)
      ensures old(filesLeft) <= filesLeft <= old(filesLeft) + {old(files)[dst := Torn], old(files)[dst := bytes]}
      ensures files == old(files) || files in filesLeft
      ensures (trace == old(trace) && filesLeft == old(filesLeft)) || trace == old(trace) + Survivors(filesLeft, journalsLeft)
      ensures Faultless() && dst !in old(files) ==> ok
    {
      var fault := Call();
      if fault.Before? || dst in files {
        return false;
      }
      ghost var was := files;
      files := files[dst := Torn];
      filesLeft, loose := filesLeft + {files}, Some(dst);
      trace := trace + Survivors(filesLeft, journalsLeft);
      if fault.After? {
        return false;
      }
      fault := Call();
      if fault.Before? {
        return false;
      }
      files := files[dst := bytes];
      assert files == was[dst := bytes];
      ghost var before := Survivors(filesLeft, journalsLeft);
      filesLeft := filesLeft + {files};
      assert before <= Survivors(filesLeft, journalsLeft);
      assert old(trace) + before + Survivors(filesLeft, journalsLeft) == old(trace) + Survivors(filesLeft, journalsLeft);
      trace := trace + Survivors(filesLeft, journalsLeft);
      return fault.Fine?;
    }

    /** Sync the directory of a name: if that name was not yet durable, now it is. */
    method Sync(place: Place) returns (ok: bool)
      requires Valid()
      modifies this`calls, this`filesLeft, this`loose
      ensures Valid() && filesLeft <= old(filesLeft)
      ensures ok && old(loose) == Some(place) ==> filesLeft == {files}
      ensures !ok || old(loose) != Some(place) ==> filesLeft == old(filesLeft) && loose == old(loose)
      ensures calls == old(calls) + 1 && ok == faults(calls).Fine?
    {
      hide AllFit, CrashSafe;
      var fault := Call();
      if fault.Fine? && loose == Some(place) {
        FewerSurvive(plan, origin, filesLeft, journalsLeft, {files}, journalsLeft);
        assert AllFit(plan, {files}, journal) by { FewerFit(plan, filesLeft, {files}, journal); }
        filesLeft, loose := {files}, None;
      }
      return fault.Fine?;
    }

    static lemma FewerFit(plan: Plan, files: set<map<Place, Bytes>>, fewer: set<map<Place, Bytes>>, j: Journal)
      requires plan.Valid() && AllFit(plan, files, j) && fewer <= files
      ensures AllFit(plan, fewer, j)
    {
    }

    /** Put the journal in memory in the place of the one on disk, and sync its directory. */
    method WriteJournal() returns (ok: bool)
      requires Valid()
      modifies this`calls, this`onDisk, this`journalsLeft, this`trace
      ensures Valid()
      ensures onDisk == Some(journal) || (onDisk == old(onDisk) && trace == old(trace) && !ok)
      ensures ok ==> onDisk == Some(journal) && journalsLeft == {onDisk} && trace != {}
      ensures onDisk == Some(journal) || faults(calls).Before?
      ensures Faultless() ==> ok
    {
      hide AllFit, CrashSafe, Fits;
      var fault := Call();
      if fault.Before? {
        return false;
      }
      MoreJournals(plan, origin, filesLeft, journalsLeft, journal);
      onDisk := Some(journal);
      journalsLeft := journalsLeft + {onDisk};
      MoreTrace(plan, origin, trace, Survivors(filesLeft, journalsLeft));
      trace := trace + Survivors(filesLeft, journalsLeft);
      assert Disk(files, onDisk) in Survivors(filesLeft, journalsLeft);
      if fault.After? {
        return false;
      }
      fault := Call();
      if fault.Fine? {
        FewerSurvive(plan, origin, filesLeft, journalsLeft, filesLeft, {onDisk});
        journalsLeft := {onDisk};
      }
      return fault.Fine?;
    }

    /** Is the file still what was deployed? */
    method VerifyCurrent(p: Path) returns (ok: bool)
      requires p in plan.deployed
      modifies this`calls
      ensures ok ==> Holds(files, Live(p), plan.deployed[p])
      ensures Faultless() ==> ok == Holds(files, Live(p), plan.deployed[p])
    {
      var readable := Attempt();
      return readable && Live(p) in files && files[Live(p)] == plan.deployed[p];
    }

    /** Check every file; nothing but the call counter moves. */
    method VerifyAll() returns (error: Option<Path>)
      requires plan.Valid()
      modifies this`calls
      ensures error == None ==> forall p :: p in plan.order ==> Holds(files, Live(p), plan.deployed[p])
      ensures error.Some? ==> error.value in plan.order
                              && (Faultless() ==> !Holds(files, Live(error.value), plan.deployed[error.value]))
    {
      for i := 0 to |plan.order|
        modifies this`calls
        invariant forall n :: 0 <= n < i ==> Holds(files, Live(plan.order[n]), plan.deployed[plan.order[n]])
      {
        var ok := VerifyCurrent(plan.order[i]);
        if !ok {
          return Some(plan.order[i]);
        }
      }
      return None;
    }

    /** What the journal says of file `k` while it is being moved, in memory and on disk. */
    ghost predicate Moving(k: nat)
      requires plan.Valid() && k < |plan.order|
      reads this
    {
      && journal.active == Some(plan.order[k]) && onDisk == Some(journal) && Settled()
      && FilesSafe(plan, files, k, true, true)
    }

    /** Rename one of the active file's places; with and without the rename the files are safe. */
    method Move(src: Place, dst: Place, ghost k: nat) returns (ok: bool)
      requires Valid() && k < |plan.order| && Moving(k) && trace != {}
      requires src != dst && src in files && src.path == plan.order[k] && dst.path == plan.order[k]
      requires FileSafe(plan, Renamed(files, src, dst), k, k, true, true)
      modifies this`calls, this`files, this`filesLeft, this`loose, this`trace
      ensures Valid() && FilesSafe(plan, files, k, true, true) && trace != {}
      ensures (files == Renamed(old(files), src, dst) && loose == Some(dst)) || (!ok && files == old(files) && Settled())
      ensures calls == old(calls) + 1 && ok == faults(calls).Fine?
      ensures if faults(calls).Before? then files == old(files) else files == Renamed(old(files), src, dst)
    {
      hide FileSafe, FilesSafe, AllSafe, Agree;
      ghost var was := files;
      assert Fits(plan, was, journal);
      SamePlace(plan, journal, k);
      ok := Replace(src, dst);
      if loose == Some(dst) && files == Renamed(was, src, dst) {
        RenameAgrees(was, src, dst);
        MoveOne(plan, was, files, k);
        MoreFiles(plan, origin, {was}, journalsLeft, files, {plan.order[k]});
        assert {was} + {files} == {was, files};
        MoreTrace(plan, origin, old(trace), Survivors(filesLeft, journalsLeft));
      }
    }

    static lemma RenameAgrees(files: map<Place, Bytes>, src: Place, dst: Place)
      requires src in files && src.path == dst.path
      ensures Agree(files, Renamed(files, src, dst), {dst.path})
    {
    }

    /** Verify, journal and retain the deployed version of file `k`. */
    method Retain(k: nat) returns (ok: bool)
      requires Valid() && Settled() && k < |plan.order| && FilesSafe(plan, files, k, false, true)
      requires journal == Journal(Restoring, plan.order[..k], None)
      modifies this
      ensures Valid()
      ensures ok ==> Moving(k) && Moved(plan, files, plan.order[k]) && Staged(plan, files, plan.order[k]) && trace != {}
      ensures ok ==> journal == Journal(Restoring, plan.order[..k], Some(plan.order[k]))
      ensures Faultless() ==> ok
    {
      hide FileSafe, FilesSafe, Agree, AllSafe, Survivors;
      var p := plan.order[k];
      Activate(plan, files, k);
      ok := VerifyCurrent(p);
      if !ok { return; }
      ok := Attempt();
      if !ok { return; }
      journal := journal.(active := Some(p));
      assert AllFit(plan, {files}, journal);
      ok := WriteJournal();
      if !ok { return; }
      RetainStep(plan, files, k);
      ok := Move(Live(p), Retained(p), k);
      if !ok { return; }
      ok := Sync(Live(p));
      if !ok { return; }
      ok := Sync(Retained(p));
    }

    /** Put the baseline of file `k` in place, or the deployed file back if that fails. */
    method PutBaseline(k: nat) returns (ok: bool)
      requires Valid() && k < |plan.order| && Moving(k) && plan.order[k] in plan.baseline && trace != {}
      requires Moved(plan, files, plan.order[k]) && Staged(plan, files, plan.order[k])
      modifies this`calls, this`files, this`filesLeft, this`loose, this`trace
      ensures Valid() && FilesSafe(plan, files, k, true, true)
      ensures ok ==> Undone(plan, files, plan.order[k]) && Settled()
      ensures ok <==> faults(old(calls) + 1).Fine? && faults(old(calls) + 2).Fine?
      ensures !faults(old(calls) + 1).Before? ==> Undone(plan, files, plan.order[k])
      ensures faults(old(calls) + 1).Before? && !faults(old(calls) + 2).Before? ==> Untouched(plan, files, plan.order[k])
    {
      hide FileSafe, FilesSafe, Agree, AllSafe, Fits, CrashSafe, Survivors;
      var p := plan.order[k];
      BaselineStep(plan, files, k);
      PutBackStep(plan, files, k);
      ok := Move(Ready(p), Live(p), k);
      if !ok {
        if Live(p) !in files {
          var back := Move(Retained(p), Live(p), k);
          if back {
            var synced := Sync(Live(p));
          }
        }
        return;
      }
      ok := Sync(Live(p));
    }

    /** One turn of the restoring loop. */
    method RestoreOne(k: nat) returns (ok: bool)
      requires Valid() && Settled() && k < |plan.order| && FilesSafe(plan, files, k, false, true)
      requires journal == Journal(Restoring, plan.order[..k], None)
      modifies this
      ensures Valid()
      ensures ok ==> Settled() && FilesSafe(plan, files, k + 1, false, true)
      ensures ok ==> journal == Journal(Restoring, plan.order[..k + 1], None) && onDisk == Some(journal)
      ensures Faultless() ==> ok
    {
      hide FileSafe, FilesSafe, Agree, AllSafe, Survivors;
      var p := plan.order[k];
      ok := Retain(k);
      if !ok { return; }
      if p in plan.baseline {
        ok := PutBaseline(k);
        if !ok { return; }
      }
      Complete(plan, files, k);
      journal := journal.(completed := journal.completed + [p], active := None);
      assert Fits(plan, files, journal);
      ok := WriteJournal();
    }

    /** Prepare every baseline before any deployed file moves. */
    method StageAll() returns (ok: bool)
      requires Valid() && Settled() && FilesSafe(plan, files, 0, false, false) && journal == BLANK && onDisk == Some(BLANK)
      requires trace != {} && forall p :: Ready(p) !in files
      modifies this`calls, this`files, this`filesLeft, this`loose, this`trace
      ensures Valid() && trace != {}
      ensures ok ==> Settled() && FilesSafe(plan, files, 0, false, true)
      ensures Faultless() ==> ok
    {
      hide FilesSafe, FileSafe, Fits, AllSafe, CrashSafe, Agree, Survivors, AllFit;
      for i := 0 to |plan.order|
        modifies this`calls, this`files, this`filesLeft, this`loose, this`trace
        invariant Valid() && Settled() && FilesSafe(plan, files, 0, false, false) && trace != {}
        invariant forall n :: 0 <= n < i ==> Staged(plan, files, plan.order[n])
        invariant forall n :: i <= n < |plan.order| ==> Ready(plan.order[n]) !in files
      {
        if plan.order[i] in plan.baseline {
          ok := StageNext(i);
          if !ok { return; }
        }
      }
      AllStaged(plan, files);
      return true;
    }

    /** Create the directory, write one baseline and sync its name. */
    method StageNext(i: nat) returns (ok: bool)
      requires Valid() && Settled() && FilesSafe(plan, files, 0, false, false) && journal == BLANK && onDisk == Some(BLANK)
      requires i < |plan.order| && plan.order[i] in plan.baseline && trace != {}
      modifies this`calls, this`files, this`filesLeft, this`loose, this`trace
      ensures Valid() && trace != {}
      ensures ok ==> Settled() && FilesSafe(plan, files, 0, false, false) && Staged(plan, files, plan.order[i])
      ensures forall place :: place != Ready(plan.order[i]) ==>
                (place in files <==> place in old(files)) && (place in files ==> files[place] == old(files[place]))
      ensures Faultless() && Ready(plan.order[i]) !in old(files) ==> ok
    {
      hide FilesSafe, FileSafe, Fits, AllSafe, CrashSafe, Agree, Survivors, AllFit, Staged, Plan.Valid;
      ok := Attempt();
      if !ok { return; }
      ok := StageFile(i);
      if !ok { return; }
      ok := Sync(Ready(plan.order[i]));
    }

    /** Write one baseline into the staging area. */
    method StageFile(i: nat) returns (ok: bool)
      requires Valid() && Settled() && FilesSafe(plan, files, 0, false, false) && journal == BLANK && onDisk == Some(BLANK)
      requires i < |plan.order| && plan.order[i] in plan.baseline && trace != {}
      modifies this`calls, this`files, this`filesLeft, this`loose, this`trace
      ensures Valid() && FilesSafe(plan, files, 0, false, false) && trace != {}
      ensures forall place :: place != Ready(plan.order[i]) ==>
                (place in files <==> place in old(files)) && (place in files ==> files[place] == old(files[place]))
      ensures ok ==> Staged(plan, files, plan.order[i]) && loose == Some(Ready(plan.order[i]))
      ensures Faultless() && Ready(plan.order[i]) !in old(files) ==> ok
    {
      hide FilesSafe, FileSafe, Fits, AllSafe, CrashSafe, Survivors, Agree, Plan.Valid;
      var p := plan.order[i];
      assert p in plan.deployed by { BaselineIsDeployed(plan, p); }
      ghost var was := files;
      ok := WriteNew(Ready(p), plan.baseline[p]);
      ghost var torn, whole := was[Ready(p) := Torn], was[Ready(p) := plan.baseline[p]];
      StageOne(plan, was, torn, p);
      StageOne(plan, was, whole, p);
      StageOne(plan, was, was, p);
      MoreFiles(plan, origin, {was}, {Some(BLANK)}, torn, plan.deployed.Keys);
      MoreFiles(plan, origin, {was} + {torn}, {Some(BLANK)}, whole, plan.deployed.Keys);
      FewerSurvive(plan, origin, {was} + {torn} + {whole}, {Some(BLANK)}, filesLeft, journalsLeft);
      MoreTrace(plan, origin, old(trace), Survivors(filesLeft, journalsLeft));
    }

    static lemma BaselineIsDeployed(plan: Plan, p: Path)
      requires plan.Valid() && p in plan.baseline
      ensures p in plan.deployed
    {
    }

    /**
     The applied rollback.  Whatever fails, wherever it stops and whenever the power goes, what is
     left is safe; an edit made since the deployment refuses before anything moves; without faults
     it succeeds, and nothing of it can be undone any more.
     */
    method Apply() returns (result: Result<(), Error>)
      requires plan.Valid() && files == origin && onDisk == None && journal == BLANK && Settled() && trace == {}
      requires forall p :: Retained(p) !in files && Ready(p) !in files
      modifies this
      ensures AllSafe(plan, origin, trace) && (trace != {} ==> Survivors(filesLeft, journalsLeft) <= trace)
      ensures files in filesLeft && onDisk in journalsLeft
      ensures result.Err? && result.error.ChangedSinceDeployment? ==> files == old(files) && onDisk == None && trace == {}
      ensures result.Ok? ==> onDisk.Some? && onDisk.value.status.Restored? && Settled() && trace != {}
      ensures result.Ok? ==> forall p :: p in plan.order ==> Undone(plan, files, p)
      ensures result.Err? && result.error.CallFailed? ==>
                journal.status.Interrupted? && (onDisk == Some(journal) || faults(calls).Before?)
      ensures Faultless() && (forall p :: p in plan.order ==> Holds(old(files), Live(p), plan.deployed[p])) ==> result.Ok?
    {
      var changed := VerifyAll();
      if changed.Some? {
        return Err(ChangedSinceDeployment(changed.value));
      }
      Start(plan, files);
      StartsSafe(plan, files);
      hide FilesSafe, FileSafe, AllSafe, Survivors, CrashSafe;
      var ok := WriteJournal();
      if ok {
        ok := StageAll();
      }
      if ok {
        ok := RestoreAll();
      }
      if !ok {
        InterruptedFits(plan, filesLeft, journal);
        journal := journal.(status := Interrupted);
        var written := WriteJournal();
        return Err(CallFailed);
      }
      return Ok(());
    }

    static lemma StartsSafe(plan: Plan, files: map<Place, Bytes>)
      requires plan.Valid() && Fits(plan, files, BLANK)
      ensures AllSafe(plan, files, Survivors({files}, {None}))
    {
      hide Fits;
    }

    static lemma InterruptedFits(plan: Plan, files: set<map<Place, Bytes>>, j: Journal)
      requires plan.Valid() && AllFit(plan, files, j)
      ensures AllFit(plan, files, j.(status := Interrupted))
    {
      hide FilesSafe;
      forall f | f in files ensures Fits(plan, f, j.(status := Interrupted)) {
        assert Fits(plan, f, j);
      }
    }

    /** Verify again, then restore the files in order and say so. */
    method RestoreAll() returns (ok: bool)
      requires Valid() && Settled() && FilesSafe(plan, files, 0, false, true) && journal == BLANK && onDisk == Some(BLANK)
      modifies this
      ensures Valid()
      ensures ok ==> onDisk.Some? && onDisk.value.status.Restored? && Settled() && trace != {}
      ensures ok ==> forall p :: p in plan.order ==> Undone(plan, files, p)
      ensures Faultless() ==> ok
    {
      hide FileSafe, FilesSafe, Agree, AllSafe, Survivors, Undone;
      assert plan.order[..0] == [];
      StillCurrent(plan, files);
      var changed := VerifyAll();
      if changed.Some? {
        return false;
      }
      journal := journal.(status := Restoring);
      for k := 0 to |plan.order|
        invariant Valid() && Settled() && FilesSafe(plan, files, k, false, true)
        invariant journal == Journal(Restoring, plan.order[..k], None)
      {
        ok := RestoreOne(k);
        if !ok { return; }
      }
      AllUndone(plan, files);
      journal := journal.(status := Restored);
      ok := WriteJournal();
    }

    static lemma AllUndone(plan: Plan, files: map<Place, Bytes>)
      requires plan.Valid() && FilesSafe(plan, files, |plan.order|, false, true)
      ensures forall p :: p in plan.order ==> Undone(plan, files, p)
    {
      forall p | p in plan.order ensures Undone(plan, files, p) {
        var i :| 0 <= i < |plan.order| && plan.order[i] == p;
        assert FileSafe(plan, files, i, |plan.order|, false, true);
      }
    }
  }
}
