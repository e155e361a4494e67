/**
 The bounded online pairing of two recorded source streams (`iter_paired_records` in
 src/wc_calibration/importers.py).

 Identifiers, streams and frame keys are opaque tokens.  `Step` says what one consumed frame
 does; `Iterator` is the generator with its fields; the theorems are about every run.
 */
module RecordPairing {
  import opened Common

  datatype Stream = Stream(epoch: string, clockModel: string, configHash: string)

  datatype Frame = Frame(
    side: Side, session: string, key: string, stream: Stream, commonTimeValid: bool, commonTime: int,
    hostReceive: int, sequence: int, sensor: string, convention: string)

  datatype Policy = Policy(maxPairNs: int, common: bool, maxQueue: int, maxFrames: int) {
    predicate Valid() {
      maxPairNs >= 0 && maxQueue >= 1 && maxFrames >= 1
    }

    function Stamp(f: Frame): int {
      if common then f.commonTime else f.hostReceive
    }

    /** The frame has a time in the selected basis. */
    predicate Usable(f: Frame) {
      common ==> f.commonTimeValid && f.stream.clockModel != ""
    }

    /** The sort key of a queue, lexicographic. */
    predicate NotAfter(f: Frame, g: Frame) {
      Stamp(f) < Stamp(g) || (Stamp(f) == Stamp(g) && f.sequence <= g.sequence)
    }

    predicate InWindow(l: Frame, r: Frame) {
      Abs(Stamp(l) - Stamp(r)) <= maxPairNs
    }
  }

  datatype PairingError = FrameBudget | SessionChanged | DuplicateKey | SameDevice | ConventionsDiffer

  datatype Pair = Pair(left: Frame, right: Frame)

  // ----- the two-pointer merge -----

  /** Pairs and leftovers of two queues; an error stops the merge with both heads in place. */
  datatype Merged = Merged(
    pairs: seq<Pair>, left: seq<Frame>, right: seq<Frame>, outside: nat, error: Option<PairingError>)

  function Conflict(l: Frame, r: Frame): Option<PairingError> {
    if l.sensor == r.sensor then Some(SameDevice)
    else if l.convention != r.convention then Some(ConventionsDiffer)
    else None
  }

  function Merge(p: Policy, left: seq<Frame>, right: seq<Frame>): (m: Merged)
    ensures m.error.None? ==> m.left == [] || m.right == []
    ensures |left| + |right| == |m.left| + |m.right| + 2 * |m.pairs| + m.outside
    decreases |left| + |right|
  {
    if left == [] || right == [] then Merged([], left, right, 0, None)
    else if !p.InWindow(left[0], right[0]) then
      var m := if p.Stamp(left[0]) < p.Stamp(right[0]) then Merge(p, left[1..], right)
               else Merge(p, left, right[1..]);
      m.(outside := m.outside + 1)
    else if Conflict(left[0], right[0]).Some? then
      Merged([], left, right, 0, Conflict(left[0], right[0]))
    else
      var m := Merge(p, left[1..], right[1..]);
      m.(pairs := [Pair(left[0], right[0])] + m.pairs)
  }

  // ----- one consumed frame -----

  datatype State = State(
    left: seq<Frame>, right: seq<Frame>, active: map<Side, Stream>, retired: set<(Side, Stream)>,
    seen: set<string>, session: Option<string>, consumed: nat,
    late: nat, flushed: nat, invalidTime: nat, overflow: nat, outside: nat,
    pairs: seq<Pair>, error: Option<PairingError>)
  {
    function Queue(side: Side): seq<Frame> {
      if side.Left? then left else right
    }
  }

  const START := State([], [], map[], {}, {}, None, 0, 0, 0, 0, 0, 0, [], None)

  /** Appending to a queue and sorting it again; the sort is stable. */
  function Enqueue(p: Policy, q: seq<Frame>, f: Frame): seq<Frame> {
    if q == [] || !p.NotAfter(q[0], f) then [f] + q else [q[0]] + Enqueue(p, q[1..], f)
  }

  function DropOverflow(p: Policy, q: seq<Frame>): seq<Frame> {
    if |q| > 0 && |q| > p.maxQueue then q[1..] else q
  }

  function Switch(s: State, f: Frame): State {
    var s1 := if f.side in s.active && s.active[f.side] != f.stream
              then s.(retired := s.retired + {(f.side, s.active[f.side])}, flushed := s.flushed + |s.left| + |s.right|,
                      left := [], right := [])
              else s;
    s1.(active := s1.active[f.side := f.stream])
  }

  function Admit(p: Policy, s: State, f: Frame): State {
    var q := Enqueue(p, s.Queue(f.side), f);
    var kept := DropOverflow(p, q);
    var m := if f.side.Left? then Merge(p, kept, s.right) else Merge(p, s.left, kept);
    s.(left := m.left, right := m.right, overflow := s.overflow + |q| - |kept|, outside := s.outside + m.outside,
       pairs := s.pairs + m.pairs, error := m.error)
  }

  /** The checks that raise before a frame is consumed, in their order. */
  function Refusal(p: Policy, s: State, f: Frame): Option<PairingError> {
    if s.consumed >= p.maxFrames then Some(FrameBudget)
    else if s.session.Some? && s.session.value != f.session then Some(SessionChanged)
    else if f.key in s.seen then Some(DuplicateKey)
    else None
  }

  /** The generator is finished once it has raised. */
  function Step(p: Policy, s: State, f: Frame): State {
    if s.error.Some? then s
    else if Refusal(p, s, f).Some? then s.(error := Refusal(p, s, f))
    else
      var s1 := s.(consumed := s.consumed + 1, session := Some(f.session), seen := s.seen + {f.key});
      if (f.side, f.stream) in s1.retired then s1.(late := s1.late + 1)
      else
        var s2 := Switch(s1, f);
        if !p.Usable(f) then s2.(invalidTime := s2.invalidTime + 1)
        else Admit(p, s2, f)
  }

  function Run(p: Policy, s: State, frames: seq<Frame>): State {
    if frames == [] then s else Step(p, Run(p, s, frames[..|frames| - 1]), frames[|frames| - 1])
  }

  // ----- invariants of every run -----

  ghost predicate Sorted(p: Policy, q: seq<Frame>) {
    forall i, j :: 0 <= i < j < |q| ==> p.NotAfter(q[i], q[j])
  }

  /** How often a key occurs among queued frames, and among paired ones. */
  function Count(q: seq<Frame>, key: string): nat {
    if q == [] then 0 else (if q[0].key == key then 1 else 0) + Count(q[1..], key)
  }

  function PairCount(pairs: seq<Pair>, key: string): nat {
    if pairs == [] then 0
    else (if pairs[0].left.key == key then 1 else 0) + (if pairs[0].right.key == key then 1 else 0)
         + PairCount(pairs[1..], key)
  }

  ghost function Held(s: State, key: string): nat {
    Count(s.left, key) + Count(s.right, key) + PairCount(s.pairs, key)
  }

  ghost predicate QueueOk(p: Policy, q: seq<Frame>, side: Side, active: map<Side, Stream>) {
    && Sorted(p, q) && |q| <= p.maxQueue
    && (forall f :: f in q ==> f.side == side && side in active && f.stream == active[side] && p.Usable(f))
  }

  ghost predicate PairOk(p: Policy, pair: Pair) {
    && pair.left.side == Left && pair.right.side == Right
    && p.InWindow(pair.left, pair.right) && Conflict(pair.left, pair.right).None?
  }

  ghost predicate QueuesOk(p: Policy, s: State) {
    && QueueOk(p, s.left, Left, s.active) && QueueOk(p, s.right, Right, s.active)
    && forall pair :: pair in s.pairs ==> PairOk(p, pair)
  }

  ghost predicate ActiveNotRetired(s: State) {
    forall side :: side in s.active ==> (side, s.active[side]) !in s.retired
  }

  /** A key is queued or paired at most once, and only if it is among `keys`. */
  ghost predicate KeysOnce(s: State, keys: set<string>) {
    forall key :: Held(s, key) <= if key in keys then 1 else 0
  }

  /** Where the consumed frames went. */
  function Accounted(s: State): nat {
    s.late + s.invalidTime + s.flushed + s.overflow + s.outside + 2 * |s.pairs| + |s.left| + |s.right|
  }

  ghost predicate Invariant(p: Policy, s: State) {
    && QueuesOk(p, s)
    && (s.error.None? ==> s.left == [] || s.right == [])
    && ActiveNotRetired(s)
    && KeysOnce(s, s.seen)
    && s.consumed == |s.seen| == Accounted(s)
  }

  /** `Enqueue` puts the frame behind every frame that does not come after it: the stable sort. */
  lemma {:induction false} EnqueuePlace(p: Policy, q: seq<Frame>, f: Frame) returns (k: nat)
    requires Sorted(p, q)
    ensures k <= |q| && Enqueue(p, q, f) == q[..k] + [f] + q[k..]
    ensures forall i :: 0 <= i < k ==> p.NotAfter(q[i], f)
    ensures forall i :: k <= i < |q| ==> !p.NotAfter(q[i], f)
  {
    if q == [] || !p.NotAfter(q[0], f) {
      k := 0;
    } else {
      var k' := EnqueuePlace(p, q[1..], f);
      k := k' + 1;
      assert q[1..][..k'] == q[1..k] && q[1..][k'..] == q[k..];
      assert [q[0]] + q[1..k] == q[..k];
    }
  }

  lemma EnqueueSorted(p: Policy, q: seq<Frame>, f: Frame)
    requires Sorted(p, q)
    ensures Sorted(p, Enqueue(p, q, f))
    ensures |Enqueue(p, q, f)| == |q| + 1
    ensures forall g :: g in Enqueue(p, q, f) ==> g in q || g == f
  {
    var k := EnqueuePlace(p, q, f);
    NotAfterTotal(p, f);
    hide Policy.NotAfter, Enqueue;
    var r := q[..k] + [f] + q[k..];
    forall i, j | 0 <= i < j < |r| ensures p.NotAfter(r[i], r[j]) {
      assert r[i] == if i < k then q[i] else if i == k then f else q[i - 1];
      assert r[j] == if j < k then q[j] else if j == k then f else q[j - 1];
    }
  }

  lemma NotAfterTotal(p: Policy, f: Frame)
    ensures forall g :: !p.NotAfter(g, f) ==> p.NotAfter(f, g)
  {
  }

  lemma {:induction false} EnqueueCount(p: Policy, q: seq<Frame>, f: Frame, key: string)
    ensures Count(Enqueue(p, q, f), key) == Count(q, key) + if f.key == key then 1 else 0
  {
    if q == [] || !p.NotAfter(q[0], f) {
      assert ([f] + q)[1..] == q;
    } else {
      EnqueueCount(p, q[1..], f, key);
      assert ([q[0]] + Enqueue(p, q[1..], f))[1..] == Enqueue(p, q[1..], f);
    }
  }

  lemma {:induction false} MergeCount(p: Policy, left: seq<Frame>, right: seq<Frame>, key: string)
    ensures var m := Merge(p, left, right);
            Count(m.left, key) + Count(m.right, key) + PairCount(m.pairs, key) <= Count(left, key) + Count(right, key)
    decreases |left| + |right|
  {
    if left == [] || right == [] {
    } else if !p.InWindow(left[0], right[0]) {
      if p.Stamp(left[0]) < p.Stamp(right[0]) {
        MergeCount(p, left[1..], right, key);
      } else {
        MergeCount(p, left, right[1..], key);
      }
    } else if Conflict(left[0], right[0]).None? {
      MergeCount(p, left[1..], right[1..], key);
      var m := Merge(p, left[1..], right[1..]);
      assert ([Pair(left[0], right[0])] + m.pairs)[1..] == m.pairs;
    }
  }

  /** The merge leaves suffixes of both queues and pairs only heads that belong together. */
  lemma {:induction false} MergeShape(p: Policy, left: seq<Frame>, right: seq<Frame>) returns (i: nat, j: nat)
    requires (forall f :: f in left ==> f.side == Left) && (forall f :: f in right ==> f.side == Right)
    ensures var m := Merge(p, left, right);
            && i <= |left| && j <= |right| && m.left == left[i..] && m.right == right[j..]
            && forall pair :: pair in m.pairs ==> PairOk(p, pair)
    decreases |left| + |right|
  {
    i, j := 0, 0;
    if left == [] || right == [] {
    } else if !p.InWindow(left[0], right[0]) {
      if p.Stamp(left[0]) < p.Stamp(right[0]) {
        i, j := MergeShape(p, left[1..], right);
        i := i + 1;
      } else {
        i, j := MergeShape(p, left, right[1..]);
        j := j + 1;
      }
    } else if Conflict(left[0], right[0]).None? {
      i, j := MergeShape(p, left[1..], right[1..]);
      i, j := i + 1, j + 1;
    }
  }

  lemma {:induction false} PairCountOfSum(a: seq<Pair>, b: seq<Pair>, key: string)
    ensures PairCount(a + b, key) == PairCount(a, key) + PairCount(b, key)
  {
    if a == [] {
      assert a + b == b;
    } else {
      PairCountOfSum(a[1..], b, key);
      assert (a + b)[1..] == a[1..] + b;
    }
  }

  lemma KeptQueueOk(p: Policy, q: seq<Frame>, f: Frame, active: map<Side, Stream>)
    requires p.Valid() && QueueOk(p, q, f.side, active)
    requires p.Usable(f) && f.side in active && active[f.side] == f.stream
    ensures QueueOk(p, DropOverflow(p, Enqueue(p, q, f)), f.side, active)
    ensures |Enqueue(p, q, f)| == |q| + 1
  {
    EnqueueSorted(p, q, f);
    SortedSuffix(p, Enqueue(p, q, f), 1);
    hide Sorted, Enqueue, Policy.Usable;
  }

  lemma SortedSuffix(p: Policy, q: seq<Frame>, i: nat)
    requires Sorted(p, q) && i <= |q|
    ensures Sorted(p, q[i..])
  {
  }

  lemma QueueOkSuffix(p: Policy, q: seq<Frame>, side: Side, active: map<Side, Stream>, i: nat)
    requires QueueOk(p, q, side, active) && i <= |q|
    ensures QueueOk(p, q[i..], side, active)
  {
  }

  lemma MergeKeepsQueues(p: Policy, left: seq<Frame>, right: seq<Frame>, active: map<Side, Stream>)
    requires QueueOk(p, left, Left, active) && QueueOk(p, right, Right, active)
    ensures var m := Merge(p, left, right);
            && QueueOk(p, m.left, Left, active) && QueueOk(p, m.right, Right, active)
            && forall pair :: pair in m.pairs ==> PairOk(p, pair)
  {
    var i, j := MergeShape(p, left, right);
    QueueOkSuffix(p, left, Left, active, i);
    QueueOkSuffix(p, right, Right, active, j);
  }

  /** What `Admit` keeps, and how it accounts for the new frame. */
  lemma AdmitKeeps(p: Policy, s: State, f: Frame)
    requires p.Valid() && QueuesOk(p, s)
    requires p.Usable(f) && f.side in s.active && s.active[f.side] == f.stream
    ensures var s' := Admit(p, s, f);
            && QueuesOk(p, s')
            && Accounted(s') == Accounted(s) + 1
  {
    KeptQueueOk(p, s.Queue(f.side), f, s.active);
    hide QueueOk, Merge, Enqueue, PairOk;
    var kept := DropOverflow(p, Enqueue(p, s.Queue(f.side), f));
    if f.side.Left? {
      MergeKeepsQueues(p, kept, s.right, s.active);
    } else {
      MergeKeepsQueues(p, s.left, kept, s.active);
    }
  }

  lemma AdmitHeld(p: Policy, s: State, f: Frame, key: string)
    ensures Held(Admit(p, s, f), key) <= Held(s, key) + if f.key == key then 1 else 0
  {
    EnqueueCount(p, s.Queue(f.side), f, key);
    var q := Enqueue(p, s.Queue(f.side), f);
    var kept := DropOverflow(p, q);
    assert Count(kept, key) <= Count(q, key);
    hide Merge, Enqueue, DropOverflow;
    if f.side.Left? {
      MergeCount(p, kept, s.right, key);
      PairCountOfSum(s.pairs, Merge(p, kept, s.right).pairs, key);
    } else {
      MergeCount(p, s.left, kept, key);
      PairCountOfSum(s.pairs, Merge(p, s.left, kept).pairs, key);
    }
  }

  lemma SwitchKeeps(p: Policy, s: State, f: Frame, keys: set<string>)
    requires p.Valid() && QueuesOk(p, s) && ActiveNotRetired(s) && (f.side, f.stream) !in s.retired
    requires KeysOnce(s, keys)
    ensures var s' := Switch(s, f);
            QueuesOk(p, s') && ActiveNotRetired(s') && Accounted(s') == Accounted(s) && KeysOnce(s', keys)
    ensures s.left == [] || s.right == [] ==> Switch(s, f).left == [] || Switch(s, f).right == []
  {
    assert Sorted(p, []);
    hide PairOk, Sorted, Policy.Usable;
    assert forall key :: Held(Switch(s, f), key) <= Held(s, key);
  }

  lemma AdmitKeysOnce(p: Policy, s: State, f: Frame, keys: set<string>)
    requires KeysOnce(s, keys) && f.key !in keys
    ensures KeysOnce(Admit(p, s, f), keys + {f.key})
  {
    hide Held, Merge, Enqueue, DropOverflow;
    forall key ensures Held(Admit(p, s, f), key) <= if key in keys + {f.key} then 1 else 0 {
      AdmitHeld(p, s, f, key);
    }
  }

  lemma SameHeld(s: State, s': State, keys: set<string>, keys': set<string>)
    requires s.left == s'.left && s.right == s'.right && s.pairs == s'.pairs && keys <= keys'
    requires KeysOnce(s, keys)
    ensures KeysOnce(s', keys')
  {
    assert forall key :: Held(s', key) == Held(s, key);
  }

  /** A consumed frame of a stream that is not retired. */
  lemma ConsumeKeeps(p: Policy, s: State, f: Frame)
    requires p.Valid() && s.error.None? && QueuesOk(p, s) && ActiveNotRetired(s) && (f.side, f.stream) !in s.retired
    requires s.left == [] || s.right == []
    requires f.key in s.seen && KeysOnce(s, s.seen - {f.key}) && s.consumed == |s.seen| == Accounted(s) + 1
    ensures var s2 := Switch(s, f);
            Invariant(p, if p.Usable(f) then Admit(p, s2, f) else s2.(invalidTime := s2.invalidTime + 1))
  {
    hide QueuesOk, KeysOnce, Merge, Enqueue, DropOverflow, Held;
    SwitchKeeps(p, s, f, s.seen - {f.key});
    var s2 := Switch(s, f);
    if p.Usable(f) {
      AdmitKeeps(p, s2, f);
      AdmitKeysOnce(p, s2, f, s.seen - {f.key});
      assert s.seen - {f.key} + {f.key} == s.seen;
      AdmitEmptiesOneSide(p, s2, f);
    } else {
      var s3 := s2.(invalidTime := s2.invalidTime + 1);
      SameHeld(s2, s3, s.seen - {f.key}, s.seen);
      assert QueuesOk(p, s3) by { SameQueues(p, s2, s3); }
    }
  }

  lemma AdmitEmptiesOneSide(p: Policy, s: State, f: Frame)
    ensures var s' := Admit(p, s, f); s'.error.None? ==> s'.left == [] || s'.right == []
  {
  }

  lemma SameQueues(p: Policy, s: State, s': State)
    requires QueuesOk(p, s)
    requires s.left == s'.left && s.right == s'.right && s.pairs == s'.pairs && s.active == s'.active
    ensures QueuesOk(p, s')
  {
  }

  /** Every step keeps the invariant: conservation, stream ownership, order and distinct keys. */
  lemma StepKeeps(p: Policy, s: State, f: Frame)
    requires p.Valid() && Invariant(p, s)
    ensures Invariant(p, Step(p, s, f))
  {
    hide QueuesOk, KeysOnce, Merge, Enqueue, DropOverflow, Held, Switch, Admit;
    var s' := Step(p, s, f);
    if s.error.Some? || Refusal(p, s, f).Some? {
      SameHeld(s, s', s.seen, s'.seen);
      SameQueues(p, s, s');
    } else {
      var s1 := s.(consumed := s.consumed + 1, session := Some(f.session), seen := s.seen + {f.key});
      assert s1.seen - {f.key} == s.seen;
      SameHeld(s, s1, s.seen, s.seen);
      SameQueues(p, s, s1);
      if (f.side, f.stream) in s.retired {
        SameHeld(s, s', s.seen, s'.seen);
        SameQueues(p, s, s');
      } else {
        ConsumeKeeps(p, s1, f);
      }
    }
  }

  lemma {:induction false} RunKeeps(p: Policy, frames: seq<Frame>)
    requires p.Valid()
    ensures Invariant(p, Run(p, START, frames))
  {
    if frames != [] {
      RunKeeps(p, frames[..|frames| - 1]);
      StepKeeps(p, Run(p, START, frames[..|frames| - 1]), frames[|frames| - 1]);
    }
  }

  lemma RetiredGrows(p: Policy, s: State, f: Frame)
    ensures s.retired <= Step(p, s, f).retired
  {
    hide Merge, Enqueue, DropOverflow;
  }

  /** Once retired, a stream is never the active stream of its side again. */
  lemma {:induction false} RetiredForever(p: Policy, s: State, frames: seq<Frame>, side: Side, stream: Stream)
    requires p.Valid() && Invariant(p, s) && (side, stream) in s.retired
    ensures var s' := Run(p, s, frames);
            (side, stream) in s'.retired && !(side in s'.active && s'.active[side] == stream) && Invariant(p, s')
  {
    hide QueuesOk, KeysOnce, Step;
    if frames != [] {
      var before := Run(p, s, frames[..|frames| - 1]);
      RetiredForever(p, s, frames[..|frames| - 1], side, stream);
      StepKeeps(p, before, frames[|frames| - 1]);
      RetiredGrows(p, before, frames[|frames| - 1]);
    }
  }

  lemma {:induction false} PairCountAt(pairs: seq<Pair>, i: nat, key: string)
    requires i < |pairs|
    ensures PairCount(pairs, key) >=
            (if pairs[i].left.key == key then 1 else 0) + (if pairs[i].right.key == key then 1 else 0)
  {
    if i > 0 {
      PairCountAt(pairs[1..], i - 1, key);
    }
  }

  ghost predicate Uses(pair: Pair, key: string) {
    pair.left.key == key || pair.right.key == key
  }

  lemma {:induction false} PairCountAtTwo(pairs: seq<Pair>, i: nat, j: nat, key: string)
    requires i < j < |pairs|
    ensures Uses(pairs[i], key) && Uses(pairs[j], key) ==> PairCount(pairs, key) >= 2
  {
    if i > 0 {
      PairCountAtTwo(pairs[1..], i - 1, j - 1, key);
    } else {
      PairCountAt(pairs[1..], j - 1, key);
    }
  }

  /** No raw frame takes part in two pairs of a run, nor on both sides of one pair. */
  lemma ExactlyOnce(p: Policy, frames: seq<Frame>)
    requires p.Valid()
    ensures var pairs := Run(p, START, frames).pairs;
            && (forall i, j, key :: 0 <= i < j < |pairs| ==> !(Uses(pairs[i], key) && Uses(pairs[j], key)))
            && (forall i :: 0 <= i < |pairs| ==> pairs[i].left.key != pairs[i].right.key)
  {
    RunKeeps(p, frames);
    var s := Run(p, START, frames);
    forall i, j, key | 0 <= i < j < |s.pairs| ensures !(Uses(s.pairs[i], key) && Uses(s.pairs[j], key)) {
      PairCountAtTwo(s.pairs, i, j, key);
      assert Held(s, key) <= 1;
    }
    forall i | 0 <= i < |s.pairs| ensures s.pairs[i].left.key != s.pairs[i].right.key {
      PairCountAt(s.pairs, i, s.pairs[i].left.key);
      assert Held(s, s.pairs[i].left.key) <= 1;
    }
  }

  // ----- confluence -----

  /** The usable frames of one side, in arrival order. */
  function Arrivals(p: Policy, frames: seq<Frame>, side: Side): seq<Frame> {
    if frames == [] then []
    else
      var f := frames[|frames| - 1];
      Arrivals(p, frames[..|frames| - 1], side) + if f.side == side && p.Usable(f) then [f] else []
  }

  /** All frames of each side belong to one stream. */
  ghost predicate OneStream(frames: seq<Frame>, left: Stream, right: Stream) {
    forall f :: f in frames ==> f.stream == if f.side.Left? then left else right
  }

  lemma {:induction false} EnqueueLast(p: Policy, q: seq<Frame>, f: Frame)
    requires Sorted(p, q + [f])
    ensures Enqueue(p, q, f) == q + [f]
  {
    if q != [] {
      assert p.NotAfter((q + [f])[0], (q + [f])[|q|]);
      assert (q + [f])[1..] == q[1..] + [f];
      EnqueueLast(p, q[1..], f);
    }
  }

  /** Go on merging the leftovers of `m` with later arrivals. */
  function Continue(m: Merged, p: Policy, a: seq<Frame>, b: seq<Frame>): Merged {
    var rest := Merge(p, m.left + a, m.right + b);
    rest.(pairs := m.pairs + rest.pairs, outside := m.outside + rest.outside)
  }

  lemma ContinueAfterPair(p: Policy, m: Merged, pair: Pair, a: seq<Frame>, b: seq<Frame>)
    ensures var c := Continue(m, p, a, b);
            Continue(m.(pairs := [pair] + m.pairs), p, a, b) == c.(pairs := [pair] + c.pairs)
  {
    hide Merge;
    var rest := Merge(p, m.left + a, m.right + b);
    assert [pair] + (m.pairs + rest.pairs) == [pair] + m.pairs + rest.pairs;
  }

  lemma ContinueAfterDrop(p: Policy, m: Merged, a: seq<Frame>, b: seq<Frame>)
    ensures var c := Continue(m, p, a, b);
            Continue(m.(outside := m.outside + 1), p, a, b) == c.(outside := c.outside + 1)
  {
  }

  lemma MergeTurn(p: Policy, left: seq<Frame>, right: seq<Frame>)
    requires left != [] && right != []
    ensures var m := Merge(p, left, right);
            if p.InWindow(left[0], right[0]) then
              Conflict(left[0], right[0]).None? ==>
                var rest := Merge(p, left[1..], right[1..]);
                m == rest.(pairs := [Pair(left[0], right[0])] + rest.pairs)
            else
              var rest := if p.Stamp(left[0]) < p.Stamp(right[0]) then Merge(p, left[1..], right)
                          else Merge(p, left, right[1..]);
              m == rest.(outside := rest.outside + 1)
    ensures p.InWindow(left[0], right[0]) && Conflict(left[0], right[0]).Some? ==> Merge(p, left, right).error.Some?
  {
  }

  /**
   What merging early leaves is all a later merge needs: merging the leftovers with what comes
   after continues the merge of everything.
   */
  lemma {:induction false} MergeContinues(p: Policy, left: seq<Frame>, right: seq<Frame>, a: seq<Frame>, b: seq<Frame>)
    requires Merge(p, left, right).error.None?
    ensures Merge(p, left + a, right + b) == Continue(Merge(p, left, right), p, a, b)
    decreases |left| + |right|
  {
    if left == [] || right == [] {
      var rest := Merge(p, left + a, right + b);
      assert [] + rest.pairs == rest.pairs;
    } else {
      hide Policy.InWindow, Policy.Stamp, Conflict, Merge, Continue;
      MergeTurn(p, left, right);
      MergeTurn(p, left + a, right + b);
      assert (left + a)[1..] == left[1..] + a && (right + b)[1..] == right[1..] + b;
      if p.InWindow(left[0], right[0]) {
        MergeContinues(p, left[1..], right[1..], a, b);
        ContinueAfterPair(p, Merge(p, left[1..], right[1..]), Pair(left[0], right[0]), a, b);
      } else if p.Stamp(left[0]) < p.Stamp(right[0]) {
        MergeContinues(p, left[1..], right, a, b);
        ContinueAfterDrop(p, Merge(p, left[1..], right), a, b);
      } else {
        MergeContinues(p, left, right[1..], a, b);
        ContinueAfterDrop(p, Merge(p, left, right[1..]), a, b);
      }
    }
  }

  /** The run has seen one stream a side, in sorted order, without error or overflow. */
  ghost predicate Smooth(p: Policy, frames: seq<Frame>, left: Stream, right: Stream) {
    && OneStream(frames, left, right)
    && Sorted(p, Arrivals(p, frames, Left)) && Sorted(p, Arrivals(p, frames, Right))
    && Run(p, START, frames).error.None? && Run(p, START, frames).overflow == 0
  }

  ghost predicate IsMergeOf(s: State, m: Merged) {
    s.pairs == m.pairs && s.left == m.left && s.right == m.right && s.outside == m.outside
  }

  lemma ErrorStays(p: Policy, s: State, f: Frame)
    ensures Step(p, s, f).error.None? ==> s.error.None?
    ensures s.overflow <= Step(p, s, f).overflow
  {
    hide Merge, Enqueue;
  }

  lemma SmoothPrefix(p: Policy, frames: seq<Frame>, left: Stream, right: Stream)
    requires frames != [] && Smooth(p, frames, left, right)
    ensures var n := |frames| - 1;
            && Smooth(p, frames[..n], left, right)
            && Run(p, START, frames[..n]).error.None?
            && Step(p, Run(p, START, frames[..n]), frames[n]).error.None?
            && frames[n].stream == (if frames[n].side.Left? then left else right)
            && (p.Usable(frames[n]) ==>
                  Sorted(p, Arrivals(p, frames[..n], frames[n].side) + [frames[n]])
                  && Step(p, Run(p, START, frames[..n]), frames[n]).overflow == Run(p, START, frames[..n]).overflow)
  {
    var n := |frames| - 1;
    assert forall f :: f in frames[..n] ==> f in frames;
    ErrorStays(p, Run(p, START, frames[..n]), frames[n]);
    hide Step, Merge, Enqueue, Sorted;
    assert Arrivals(p, frames, Left)[..|Arrivals(p, frames[..n], Left)|] == Arrivals(p, frames[..n], Left);
    assert Arrivals(p, frames, Right)[..|Arrivals(p, frames[..n], Right)|] == Arrivals(p, frames[..n], Right);
    SortedPrefix(p, Arrivals(p, frames, Left), |Arrivals(p, frames[..n], Left)|);
    SortedPrefix(p, Arrivals(p, frames, Right), |Arrivals(p, frames[..n], Right)|);
  }

  lemma SortedPrefix(p: Policy, q: seq<Frame>, i: nat)
    requires Sorted(p, q) && i <= |q|
    ensures Sorted(p, q[..i])
  {
  }

  /** With one stream a side nothing is ever retired. */
  lemma {:induction false} NothingRetired(p: Policy, frames: seq<Frame>, left: Stream, right: Stream)
    requires OneStream(frames, left, right)
    ensures var s := Run(p, START, frames);
            s.retired == {} && (forall side :: side in s.active ==> s.active[side] == if side.Left? then left else right)
  {
    if frames != [] {
      var n := |frames| - 1;
      assert forall f :: f in frames[..n] ==> f in frames;
      NothingRetired(p, frames[..n], left, right);
      hide Merge, Enqueue, DropOverflow, Admit, Policy.Usable, OneStream;
      assert frames[n].stream == if frames[n].side.Left? then left else right by { assert OneStream(frames, left, right); }
    }
  }

  /** A sorted arrival goes to the end of what the merge has left of the earlier ones. */
  lemma EnqueueAtEnd(p: Policy, arrivals: seq<Frame>, f: Frame, i: nat)
    requires i <= |arrivals| && Sorted(p, arrivals + [f])
    ensures Enqueue(p, arrivals[i..], f) == arrivals[i..] + [f]
  {
    SortedSuffix(p, arrivals + [f], i);
    assert (arrivals + [f])[i..] == arrivals[i..] + [f];
    EnqueueLast(p, arrivals[i..], f);
  }

  lemma ArrivalsSide(p: Policy, frames: seq<Frame>, side: Side)
    ensures forall f :: f in Arrivals(p, frames, side) ==> f.side == side
  {
  }

  lemma UnusableStep(p: Policy, s: State, f: Frame)
    requires s.retired == {} && (f.side in s.active ==> s.active[f.side] == f.stream) && !p.Usable(f)
    ensures var s' := Step(p, s, f);
            s'.pairs == s.pairs && s'.left == s.left && s'.right == s.right && s'.outside == s.outside
  {
  }

  /** The state `Admit` starts from when the frame's stream is already the active one. */
  function Consumed(s: State, f: Frame): State {
    s.(consumed := s.consumed + 1, session := Some(f.session), seen := s.seen + {f.key},
       active := s.active[f.side := f.stream])
  }

  lemma StepAdmits(p: Policy, s: State, f: Frame)
    requires s.error.None? && s.retired == {} && (f.side in s.active ==> s.active[f.side] == f.stream)
    requires p.Usable(f) && Step(p, s, f).error.None?
    ensures Step(p, s, f) == Admit(p, Consumed(s, f), f)
  {
    hide Admit;
  }

  lemma NoOverflow(p: Policy, s: State, f: Frame)
    requires Admit(p, s, f).overflow == s.overflow
    ensures DropOverflow(p, Enqueue(p, s.Queue(f.side), f)) == Enqueue(p, s.Queue(f.side), f)
  {
    hide Merge, Enqueue;
  }

  /** One more frame of a smooth run continues the merge of all arrivals. */
  lemma SmoothStep(p: Policy, s: State, f: Frame, left: seq<Frame>, right: seq<Frame>)
    requires s.error.None? && s.retired == {} && (f.side in s.active ==> s.active[f.side] == f.stream)
    requires (forall g :: g in left ==> g.side == Left) && (forall g :: g in right ==> g.side == Right)
    requires IsMergeOf(s, Merge(p, left, right)) && Merge(p, left, right).error.None?
    requires p.Usable(f) && (if f.side.Left? then Sorted(p, left + [f]) else Sorted(p, right + [f]))
    requires Step(p, s, f).error.None? && Step(p, s, f).overflow == s.overflow
    ensures var m := if f.side.Left? then Merge(p, left + [f], right) else Merge(p, left, right + [f]);
            IsMergeOf(Step(p, s, f), m) && m.error.None?
  {
    hide Merge, Enqueue, Sorted, Step, Policy.Usable, DropOverflow;
    StepAdmits(p, s, f);
    var t := Consumed(s, f);
    NoOverflow(p, t, f);
    var i, j := MergeShape(p, left, right);
    if f.side.Left? {
      EnqueueAtEnd(p, left, f, i);
      MergeContinues(p, left, right, [f], []);
      assert right + [] == right && s.right + [] == s.right;
    } else {
      EnqueueAtEnd(p, right, f, j);
      MergeContinues(p, left, right, [], [f]);
      assert left + [] == left && s.left + [] == s.left;
    }
  }

  lemma ArrivalsGrow(p: Policy, frames: seq<Frame>, side: Side)
    requires frames != []
    ensures var n := |frames| - 1;
            var before := Arrivals(p, frames[..n], side);
            Arrivals(p, frames, side) ==
            if frames[n].side == side && p.Usable(frames[n]) then before + [frames[n]] else before
  {
    var before := Arrivals(p, frames[..|frames| - 1], side);
    assert before + [] == before;
  }

  /**
   Confluence: whatever the interleaving, a smooth run has yielded exactly the pairs, and left
   exactly the queues, of the two-pointer merge of each side's complete arrivals.
   */
  lemma {:induction false} OnlineIsOffline(p: Policy, frames: seq<Frame>, left: Stream, right: Stream)
    requires Smooth(p, frames, left, right)
    ensures var m := Merge(p, Arrivals(p, frames, Left), Arrivals(p, frames, Right));
            IsMergeOf(Run(p, START, frames), m) && m.error.None?
  {
    if frames != [] {
      var n := |frames| - 1;
      var f, before := frames[n], Run(p, START, frames[..n]);
      assert Run(p, START, frames) == Step(p, before, f);
      OneStreamPrefix(p, frames, left, right);
      hide Merge, Enqueue, Sorted, Step, Run, Arrivals, Policy.Usable, OneStream, Smooth;
      SmoothPrefix(p, frames, left, right);
      OnlineIsOffline(p, frames[..n], left, right);
      ArrivalsGrow(p, frames, Left);
      ArrivalsGrow(p, frames, Right);
      ArrivalsSide(p, frames[..n], Left);
      ArrivalsSide(p, frames[..n], Right);
      if p.Usable(f) {
        SmoothStep(p, before, f, Arrivals(p, frames[..n], Left), Arrivals(p, frames[..n], Right));
      } else {
        UnusableStep(p, before, f);
      }
    }
  }

  lemma OneStreamPrefix(p: Policy, frames: seq<Frame>, left: Stream, right: Stream)
    requires frames != [] && OneStream(frames, left, right)
    ensures var n := |frames| - 1;
            var s := Run(p, START, frames[..n]);
            s.retired == {} && (frames[n].side in s.active ==> s.active[frames[n].side] == frames[n].stream)
  {
    var n := |frames| - 1;
    assert forall f :: f in frames[..n] ==> f in frames;
    NothingRetired(p, frames[..n], left, right);
    assert frames[n] in frames;
  }

  /** Two smooth interleavings of the same arrivals yield the same pairs. */
  lemma InterleavingIrrelevant(p: Policy, fs: seq<Frame>, gs: seq<Frame>, left: Stream, right: Stream)
    requires Smooth(p, fs, left, right) && Smooth(p, gs, left, right)
    requires Arrivals(p, fs, Left) == Arrivals(p, gs, Left) && Arrivals(p, fs, Right) == Arrivals(p, gs, Right)
    ensures var s, t := Run(p, START, fs), Run(p, START, gs);
            s.pairs == t.pairs && s.left == t.left && s.right == t.right && s.outside == t.outside
  {
    OnlineIsOffline(p, fs, left, right);
    OnlineIsOffline(p, gs, left, right);
  }

  // ----- the merge is a maximum matching -----

  datatype Edge = Edge(i: nat, j: nat)

  ghost predicate Fitting(p: Policy, left: seq<Frame>, right: seq<Frame>, m: set<Edge>) {
    forall e :: e in m ==> e.i < |left| && e.j < |right| && p.InWindow(left[e.i], right[e.j])
  }

  ghost predicate Touching(e: Edge, g: Edge) {
    e.i == g.i || e.j == g.j
  }

  ghost predicate Independent(m: set<Edge>) {
    forall e, g :: e in m && g in m && Touching(e, g) ==> e == g
  }

  /** Edges between positions of the two sides whose stamps fit the window; no position twice. */
  ghost predicate IsMatching(p: Policy, left: seq<Frame>, right: seq<Frame>, m: set<Edge>) {
    Fitting(p, left, right, m) && Independent(m)
  }

  ghost predicate From(m: set<Edge>, i: nat, j: nat) {
    forall e :: e in m ==> e.i >= i && e.j >= j
  }

  ghost predicate StampSorted(p: Policy, q: seq<Frame>) {
    forall i, j :: 0 <= i < j < |q| ==> p.Stamp(q[i]) <= p.Stamp(q[j])
  }

  lemma Exchange(m: set<Edge>, e: Edge, g: Edge, joined: Edge)
    requires Independent(m) && e in m && g in m && e != g
    requires joined == Edge(e.i, g.j)
    ensures Independent(m - {e, g} + {joined}) && |m - {e, g} + {joined}| == |m| - 1
  {
    var rest := m - {e, g};
    assert |rest| == |m| - 2;
    forall h | h in rest ensures !Touching(h, joined) {
      assert Touching(h, e) ==> h == e;
      assert Touching(h, g) ==> h == g;
    }
    assert Touching(joined, joined);
  }

  /** Two edges that use the heads separately can be exchanged for the one that joins their other ends. */
  lemma CrossEdges(p: Policy, left: seq<Frame>, right: seq<Frame>, m: set<Edge>, i: nat, j: nat, e: Edge, g: Edge)
    requires StampSorted(p, left) && StampSorted(p, right)
    requires IsMatching(p, left, right, m) && From(m, i, j)
    requires i < |left| && j < |right|
    requires e in m && g in m && e.j == j && g.i == i && e != g
    ensures var m' := m - {e, g} + {Edge(e.i, g.j)};
            IsMatching(p, left, right, m') && From(m', i + 1, j + 1) && |m| == |m'| + 1
  {
    assert p.Stamp(left[i]) <= p.Stamp(left[e.i]) && p.Stamp(right[j]) <= p.Stamp(right[g.j]);
    assert p.InWindow(left[e.i], right[g.j]);
    Exchange(m, e, g, Edge(e.i, g.j));
    forall h | h in m - {e, g} + {Edge(e.i, g.j)} ensures h.i >= i + 1 && h.j >= j + 1 {
      assert Touching(e, g) ==> e == g;
      if h in m {
        assert Touching(h, e) ==> h == e;
        assert Touching(h, g) ==> h == g;
      }
    }
  }

  lemma DropEdge(p: Policy, left: seq<Frame>, right: seq<Frame>, m: set<Edge>, i: nat, j: nat, e: Edge)
    requires IsMatching(p, left, right, m) && From(m, i, j) && e in m
    requires forall h :: h in m && (h.i == i || h.j == j) ==> h == e
    ensures IsMatching(p, left, right, m - {e}) && From(m - {e}, i + 1, j + 1) && |m| == |m - {e}| + 1
  {
  }

  /** Any matching can give up one edge and avoid the two earliest positions, if these fit. */
  lemma ExchangeHeads(p: Policy, left: seq<Frame>, right: seq<Frame>, m: set<Edge>, i: nat, j: nat)
    returns (m': set<Edge>)
    requires StampSorted(p, left) && StampSorted(p, right)
    requires IsMatching(p, left, right, m) && From(m, i, j)
    requires i < |left| && j < |right|
    ensures IsMatching(p, left, right, m') && From(m', i + 1, j + 1) && |m| <= |m'| + 1
  {
    hide StampSorted, Fitting;
    if e :| e in m && e.j == j {
      assert forall h :: h in m && h.j == j ==> Touching(h, e);
      if g :| g in m && g.i == i && g != e {
        CrossEdges(p, left, right, m, i, j, e, g);
        m' := m - {e, g} + {Edge(e.i, g.j)};
      } else {
        DropEdge(p, left, right, m, i, j, e);
        m' := m - {e};
      }
    } else if g :| g in m && g.i == i {
      assert forall h :: h in m && h.i == i ==> Touching(h, g);
      DropEdge(p, left, right, m, i, j, g);
      m' := m - {g};
    } else {
      m' := m;
    }
  }

  lemma {:induction false} NoLargerMatching(p: Policy, left: seq<Frame>, right: seq<Frame>, m: set<Edge>, i: nat, j: nat)
    requires i <= |left| && j <= |right|
    requires StampSorted(p, left) && StampSorted(p, right)
    requires IsMatching(p, left, right, m) && From(m, i, j)
    requires Merge(p, left[i..], right[j..]).error.None?
    ensures |m| <= |Merge(p, left[i..], right[j..]).pairs|
    decreases |left| - i + |right| - j
  {
    if i == |left| || j == |right| {
      assert m == {};
    } else {
      hide Merge;
      MergeTurn(p, left[i..], right[j..]);
      assert left[i..][1..] == left[i + 1..] && right[j..][1..] == right[j + 1..];
      if p.InWindow(left[i], right[j]) {
        var m' := ExchangeHeads(p, left, right, m, i, j);
        NoLargerMatching(p, left, right, m', i + 1, j + 1);
      } else if p.Stamp(left[i]) < p.Stamp(right[j]) {
        assert From(m, i + 1, j);
        NoLargerMatching(p, left, right, m, i + 1, j);
      } else {
        assert From(m, i, j + 1);
        NoLargerMatching(p, left, right, m, i, j + 1);
      }
    }
  }

  /** The pairs join positions that fit, increasing on both sides and starting at `i` and `j`. */
  ghost predicate Matches(p: Policy, left: seq<Frame>, right: seq<Frame>, pairs: seq<Pair>, at: seq<Edge>, i: nat, j: nat) {
    && |at| == |pairs|
    && (forall k :: 0 <= k < |at| ==>
          i <= at[k].i < |left| && j <= at[k].j < |right| && pairs[k] == Pair(left[at[k].i], right[at[k].j])
          && p.InWindow(left[at[k].i], right[at[k].j]))
    && (forall k, l :: 0 <= k < l < |at| ==> at[k].i < at[l].i && at[k].j < at[l].j)
  }

  lemma MatchesMore(p: Policy, left: seq<Frame>, right: seq<Frame>, pairs: seq<Pair>, at: seq<Edge>, i: nat, j: nat)
    requires Matches(p, left, right, pairs, at, i + 1, j + 1)
    requires i < |left| && j < |right| && p.InWindow(left[i], right[j])
    ensures Matches(p, left, right, [Pair(left[i], right[j])] + pairs, [Edge(i, j)] + at, i, j)
  {
    hide Policy.InWindow;
  }

  lemma {:induction false} MergeMatches(p: Policy, left: seq<Frame>, right: seq<Frame>, i: nat, j: nat)
    returns (at: seq<Edge>)
    requires i <= |left| && j <= |right|
    requires Merge(p, left[i..], right[j..]).error.None?
    ensures Matches(p, left, right, Merge(p, left[i..], right[j..]).pairs, at, i, j)
    decreases |left| - i + |right| - j
  {
    if i == |left| || j == |right| {
      at := [];
    } else {
      hide Merge, Matches, Policy.InWindow, Conflict;
      MergeTurn(p, left[i..], right[j..]);
      assert left[i..][1..] == left[i + 1..] && right[j..][1..] == right[j + 1..];
      if p.InWindow(left[i], right[j]) {
        at := MergeMatches(p, left, right, i + 1, j + 1);
        MatchesMore(p, left, right, Merge(p, left[i + 1..], right[j + 1..]).pairs, at, i, j);
        at := [Edge(i, j)] + at;
      } else if p.Stamp(left[i]) < p.Stamp(right[j]) {
        at := MergeMatches(p, left, right, i + 1, j);
        MatchesFrom(p, left, right, Merge(p, left[i + 1..], right[j..]).pairs, at, i + 1, j, i, j);
      } else {
        at := MergeMatches(p, left, right, i, j + 1);
        MatchesFrom(p, left, right, Merge(p, left[i..], right[j + 1..]).pairs, at, i, j + 1, i, j);
      }
    }
  }

  lemma MatchesFrom(p: Policy, left: seq<Frame>, right: seq<Frame>, pairs: seq<Pair>, at: seq<Edge>,
                    i: nat, j: nat, i': nat, j': nat)
    requires Matches(p, left, right, pairs, at, i, j) && i' <= i && j' <= j
    ensures Matches(p, left, right, pairs, at, i', j')
  {
    hide Policy.InWindow;
  }

  /** The pairs yielded by a smooth run are a largest possible matching of its usable arrivals. */
  lemma LargestMatching(p: Policy, frames: seq<Frame>, left: Stream, right: Stream, m: set<Edge>)
    requires Smooth(p, frames, left, right)
    requires IsMatching(p, Arrivals(p, frames, Left), Arrivals(p, frames, Right), m)
    ensures |m| <= |Run(p, START, frames).pairs|
    ensures exists at :: Matches(p, Arrivals(p, frames, Left), Arrivals(p, frames, Right), Run(p, START, frames).pairs, at, 0, 0)
  {
    OnlineIsOffline(p, frames, left, right);
    var l, r := Arrivals(p, frames, Left), Arrivals(p, frames, Right);
    assert l[0..] == l && r[0..] == r;
    hide Run, Merge, Arrivals, Policy.InWindow;
    NoLargerMatching(p, l, r, m, 0, 0);
    var at := MergeMatches(p, l, r, 0, 0);
  }

  // ----- the generator -----

  /** The inner loop: drop the older head outside the window, yield a pair inside it. */
  method MergeQueues(policy: Policy, left0: seq<Frame>, right0: seq<Frame>) returns (m: Merged)
    ensures m == Merge(policy, left0, right0)
  {
    var left, right := left0, right0;
    var pairs: seq<Pair> := [];
    var outside := 0;
    ghost var whole := Merge(policy, left, right);
    assert [] + whole.pairs == whole.pairs;
    hide Policy.InWindow, Policy.Stamp, Merge, Conflict;
    while left != [] && right != []
      invariant var rest := Merge(policy, left, right);
                whole == rest.(pairs := pairs + rest.pairs, outside := outside + rest.outside)
      decreases |left| + |right|
    {
      var l, r := left[0], right[0];
      MergeTurn(policy, left, right);
      if !policy.InWindow(l, r) {
        if policy.Stamp(l) < policy.Stamp(r) {
          left := left[1..];
        } else {
          right := right[1..];
        }
        outside := outside + 1;
        continue;
      }
      if Conflict(l, r).Some? {
        MergeConflict(policy, left, right);
        return Merged(pairs, left, right, outside, Conflict(l, r));
      }
      left, right := left[1..], right[1..];
      ghost var rest := Merge(policy, left, right);
      assert pairs + ([Pair(l, r)] + rest.pairs) == pairs + [Pair(l, r)] + rest.pairs;
      pairs := pairs + [Pair(l, r)];
    }
    MergeDone(policy, left, right);
    return Merged(pairs, left, right, outside, None);
  }

  lemma MergeConflict(p: Policy, left: seq<Frame>, right: seq<Frame>)
    requires left != [] && right != [] && p.InWindow(left[0], right[0]) && Conflict(left[0], right[0]).Some?
    ensures Merge(p, left, right) == Merged([], left, right, 0, Conflict(left[0], right[0]))
  {
  }

  lemma MergeDone(p: Policy, left: seq<Frame>, right: seq<Frame>)
    requires left == [] || right == []
    ensures Merge(p, left, right) == Merged([], left, right, 0, None)
  {
  }

  /** One record: the body of the outer loop. */
  method Consume(policy: Policy, s: State, f: Frame) returns (s': State)
    requires s.error.None?
    ensures s' == Step(policy, s, f)
  {
    hide Admit, Policy.Usable;
    if s.consumed >= policy.maxFrames {
      return s.(error := Some(FrameBudget));
    }
    if s.session.Some? && s.session.value != f.session {
      return s.(error := Some(SessionChanged));
    }
    if f.key in s.seen {
      return s.(error := Some(DuplicateKey));
    }
    s' := s.(consumed := s.consumed + 1, session := Some(f.session), seen := s.seen + {f.key});
    if (f.side, f.stream) in s'.retired {
      return s'.(late := s'.late + 1);
    }
    if f.side in s'.active && s'.active[f.side] != f.stream {
      s' := s'.(retired := s'.retired + {(f.side, s'.active[f.side])},
                flushed := s'.flushed + |s'.left| + |s'.right|, left := [], right := []);
    }
    s' := s'.(active := s'.active[f.side := f.stream]);
    if !policy.Usable(f) {
      return s'.(invalidTime := s'.invalidTime + 1);
    }
    s' := AdmitFrame(policy, s', f);
  }

  /** Queue the frame, drop the oldest on overflow, pair what can be paired. */
  method AdmitFrame(policy: Policy, s: State, f: Frame) returns (s': State)
    ensures s' == Admit(policy, s, f)
  {
    var q := Enqueue(policy, s.Queue(f.side), f);
    var dropped := 0;
    if |q| > 0 && |q| > policy.maxQueue {
      q, dropped := q[1..], 1;
    }
    var m;
    if f.side.Left? {
      m := MergeQueues(policy, q, s.right);
    } else {
      m := MergeQueues(policy, s.left, q);
    }
    hide Merge, Enqueue;
    s' := s.(left := m.left, right := m.right, overflow := s.overflow + dropped, outside := s.outside + m.outside,
             pairs := s.pairs + m.pairs, error := m.error);
  }

  /**
   The generator, driven to its end or to the first exception; `pairs` is what it has yielded.
   An invalid policy is refused before the first record.
   */
  method PairRecords(policy: Policy, records: seq<Frame>)
    returns (refused: bool, pairs: seq<Pair>, unmatchedEnd: nat, error: Option<PairingError>)
    ensures refused <==> !policy.Valid()
    ensures !refused ==> pairs == Run(policy, START, records).pairs && error == Run(policy, START, records).error
    ensures !refused && error.None? ==>
              unmatchedEnd == |Run(policy, START, records).left| + |Run(policy, START, records).right|
  {
    if !policy.Valid() {
      return true, [], 0, None;
    }
    var s := START;
    hide Step;
    for i := 0 to |records|
      invariant s.error.None? && s == Run(policy, START, records[..i])
    {
      assert records[..i + 1][..i] == records[..i];
      s := Consume(policy, s, records[i]);
      if s.error.Some? {
        RunStops(policy, records, i + 1);
        return false, s.pairs, 0, s.error;
      }
    }
    assert records[..|records|] == records;
    return false, s.pairs, |s.left| + |s.right|, None;
  }

  lemma {:induction false} RunStops(p: Policy, records: seq<Frame>, i: nat)
    requires i <= |records| && Run(p, START, records[..i]).error.Some?
    ensures Run(p, START, records) == Run(p, START, records[..i])
  {
    if i < |records| {
      assert records[..|records| - 1][..i] == records[..i];
      RunStops(p, records[..|records| - 1], i);
    } else {
      assert records[..i] == records;
    }
  }
}
