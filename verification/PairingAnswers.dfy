/**
 What the online pairing does with each record, told from the records before it: which are refused,
 which are late, when a stream changes and what that drops, and which pair is yielded
 (`iter_paired_records` in src/wc_calibration/importers.py).
 */
module PairingAnswers {
  import opened Common
  import opened RecordPairing

  // ----- the streams of a side, from the records -----

  ghost predicate Occurs(frames: seq<Frame>, side: Side, stream: Stream) {
    exists i :: 0 <= i < |frames| && frames[i].side == side && frames[i].stream == stream
  }

  /** The stream of `side` that appeared last. */
  ghost function Newest(frames: seq<Frame>, side: Side): Option<Stream> {
    if frames == [] then None
    else
      var f, before := frames[|frames| - 1], frames[..|frames| - 1];
      if f.side == side && !Occurs(before, side, f.stream) then Some(f.stream) else Newest(before, side)
  }

  /** The record is of a stream that its side had before and has given up. */
  ghost predicate Late(frames: seq<Frame>, f: Frame) {
    Occurs(frames, f.side, f.stream) && Newest(frames, f.side) != Some(f.stream)
  }

  /** The record brings a new stream to a side that has one. */
  ghost predicate Changes(frames: seq<Frame>, f: Frame) {
    Newest(frames, f.side).Some? && !Occurs(frames, f.side, f.stream)
  }

  ghost function Keys(frames: seq<Frame>): set<string> {
    set i | 0 <= i < |frames| :: frames[i].key
  }

  ghost predicate Refused(p: Policy, frames: seq<Frame>, f: Frame) {
    |frames| >= p.maxFrames || (frames != [] && frames[0].session != f.session) || f.key in Keys(frames)
  }

  ghost predicate StreamsAre(frames: seq<Frame>, active: map<Side, Stream>, retired: set<(Side, Stream)>) {
    && (forall side :: Newest(frames, side) == if side in active then Some(active[side]) else None)
    && (forall side, stream :: (side, stream) in retired <==>
          Occurs(frames, side, stream) && Newest(frames, side) != Some(stream))
  }

  /** What a state without an error remembers of its records. */
  ghost predicate Remembers(s: State, frames: seq<Frame>) {
    && s.consumed == |frames| && s.seen == Keys(frames)
    && s.session == (if frames == [] then None else Some(frames[0].session))
    && StreamsAre(frames, s.active, s.retired)
  }

  lemma OccursMore(frames: seq<Frame>, f: Frame, side: Side, stream: Stream)
    ensures Occurs(frames + [f], side, stream) <==> Occurs(frames, side, stream) || (f.side == side && f.stream == stream)
  {
    var all := frames + [f];
    if i :| 0 <= i < |frames| && frames[i].side == side && frames[i].stream == stream {
      assert all[i].side == side && all[i].stream == stream;
    }
    assert all[|frames|] == f;
    if i :| 0 <= i < |all| && all[i].side == side && all[i].stream == stream && i < |frames| {
      assert frames[i].side == side && frames[i].stream == stream;
    }
  }

  lemma NewestMore(frames: seq<Frame>, f: Frame, side: Side)
    ensures Newest(frames + [f], side) ==
            if f.side == side && !Occurs(frames, side, f.stream) then Some(f.stream) else Newest(frames, side)
  {
    assert (frames + [f])[..|frames|] == frames;
  }

  lemma {:induction false} NewestOccurs(frames: seq<Frame>, side: Side)
    ensures var newest := Newest(frames, side);
            && (newest.Some? ==> Occurs(frames, side, newest.value))
            && (newest.None? ==> forall stream :: !Occurs(frames, side, stream))
  {
    if frames != [] {
      var f, before := frames[|frames| - 1], frames[..|frames| - 1];
      NewestOccurs(before, side);
      hide Occurs, Newest;
      assert frames == before + [f];
      NewestMore(before, f, side);
      forall stream ensures Occurs(frames, side, stream) <==> Occurs(before, side, stream) || (f.side == side && f.stream == stream) {
        OccursMore(before, f, side, stream);
      }
    }
  }

  /** A late record leaves the streams; another one makes its stream the newest of its side. */
  lemma StreamsMove(frames: seq<Frame>, f: Frame, active: map<Side, Stream>, retired: set<(Side, Stream)>)
    requires StreamsAre(frames, active, retired)
    ensures Late(frames, f) <==> (f.side, f.stream) in retired
    ensures Changes(frames, f) <==> (f.side, f.stream) !in retired && f.side in active && active[f.side] != f.stream
    ensures if Late(frames, f) then StreamsAre(frames + [f], active, retired)
            else StreamsAre(frames + [f], active[f.side := f.stream],
                            if Changes(frames, f) then retired + {(f.side, active[f.side])} else retired)
  {
    NewestOccurs(frames, f.side);
    hide Occurs, Newest;
    var active' := if Late(frames, f) then active else active[f.side := f.stream];
    var retired' := if Changes(frames, f) then retired + {(f.side, active[f.side])} else retired;
    forall side ensures Newest(frames + [f], side) == if side in active' then Some(active'[side]) else None {
      NewestMore(frames, f, side);
    }
    forall side, stream ensures (side, stream) in retired' <==>
        Occurs(frames + [f], side, stream) && Newest(frames + [f], side) != Some(stream)
    {
      NewestMore(frames, f, side);
      OccursMore(frames, f, side, stream);
    }
  }

  // ----- one record against the queue of the other side -----

  ghost function Time(p: Policy, f: Frame): int {
    if p.common then f.commonTime else f.hostReceive
  }

  ghost predicate Timed(p: Policy, f: Frame) {
    p.common ==> f.commonTimeValid && f.stream.clockModel != ""
  }

  ghost predicate LongBefore(p: Policy, g: Frame, f: Frame) {
    Time(p, g) + p.maxPairNs < Time(p, f)
  }

  ghost predicate Near(p: Policy, f: Frame, g: Frame) {
    Time(p, f) - Time(p, g) <= p.maxPairNs && Time(p, g) - Time(p, f) <= p.maxPairNs
  }

  /** The frames of `q` up to `k` lie long before `f`, the next one does not. */
  ghost predicate Outrun(p: Policy, q: seq<Frame>, f: Frame, k: nat) {
    k <= |q| && (forall i :: 0 <= i < k ==> LongBefore(p, q[i], f)) && (k < |q| ==> !LongBefore(p, q[k], f))
  }

  ghost function Clash(f: Frame, g: Frame): Option<PairingError> {
    if f.sensor == g.sensor then Some(SameDevice)
    else if f.convention != g.convention then Some(ConventionsDiffer)
    else None
  }

  /** What becomes of the frame and the queue: pairs, the frame's own queue, the other one, drops, error. */
  datatype Met = Met(pairs: seq<Pair>, own: seq<Frame>, other: seq<Frame>, outside: nat, error: Option<PairingError>)

  ghost predicate Meets(p: Policy, f: Frame, q: seq<Frame>, m: Met, k: nat) {
    && Outrun(p, q, f, k)
    && if k == |q| then m == Met([], [f], [], k, None)
       else if !Near(p, f, q[k]) then m == Met([], [], q[k..], k + 1, None)
       else if Clash(f, q[k]).Some? then m == Met([], [f], q[k..], k, Clash(f, q[k]))
       else m == Met([if f.side.Left? then Pair(f, q[k]) else Pair(q[k], f)], [], q[k + 1..], k, None)
  }

  ghost function MetOf(m: Merged, side: Side): Met {
    if side.Left? then Met(m.pairs, m.left, m.right, m.outside, m.error)
    else Met(m.pairs, m.right, m.left, m.outside, m.error)
  }

  lemma {:induction false} MergeOne(p: Policy, f: Frame, q: seq<Frame>) returns (k: nat)
    requires p.maxPairNs >= 0
    ensures Meets(p, f, q, MetOf(if f.side.Left? then Merge(p, [f], q) else Merge(p, q, [f]), f.side), k)
  {
    k := 0;
    if q == [] {
    } else if LongBefore(p, q[0], f) {
      var k' := MergeOne(p, f, q[1..]);
      k := k' + 1;
      DropsHead(p, f, q);
      MeetsBehind(p, f, q, MetOf(if f.side.Left? then Merge(p, [f], q[1..]) else Merge(p, q[1..], [f]), f.side), k');
    } else if Near(p, f, q[0]) {
      MergeHeads(p, f, q);
    } else {
      DropsFrame(p, f, q);
    }
  }

  /** A head long before the frame is dropped, and the merge goes on behind it. */
  lemma DropsHead(p: Policy, f: Frame, q: seq<Frame>)
    requires q != [] && LongBefore(p, q[0], f) && p.maxPairNs >= 0
    ensures var m, rest := (if f.side.Left? then Merge(p, [f], q) else Merge(p, q, [f])),
                           (if f.side.Left? then Merge(p, [f], q[1..]) else Merge(p, q[1..], [f]));
            m == rest.(outside := rest.outside + 1)
  {
  }

  lemma DropsFrame(p: Policy, f: Frame, q: seq<Frame>)
    requires q != [] && LongBefore(p, f, q[0]) && p.maxPairNs >= 0
    ensures Meets(p, f, q, MetOf(if f.side.Left? then Merge(p, [f], q) else Merge(p, q, [f]), f.side), 0)
  {
    assert q[0..] == q && [f][1..] == [];
    MergeDone(p, q, []);
    MergeDone(p, [], q);
  }

  lemma MeetsBehind(p: Policy, f: Frame, q: seq<Frame>, m: Met, k: nat)
    requires q != [] && LongBefore(p, q[0], f) && Meets(p, f, q[1..], m, k)
    ensures Meets(p, f, q, m.(outside := m.outside + 1), k + 1)
  {
    hide LongBefore, Near, Clash;
    assert forall i :: 0 < i <= k + 1 && i < |q| ==> q[i] == q[1..][i - 1];
    assert q[1..][k..] == q[k + 1..];
    assert k + 1 < |q| ==> q[1..][k] == q[k + 1] && q[1..][k + 1..] == q[k + 2..];
  }

  lemma MergeHeads(p: Policy, f: Frame, q: seq<Frame>)
    requires q != [] && Near(p, f, q[0])
    ensures Meets(p, f, q, MetOf(if f.side.Left? then Merge(p, [f], q) else Merge(p, q, [f]), f.side), 0)
  {
    assert q[0..] == q;
    if f.side.Left? {
      assert [f][1..] == [] && Merge(p, [], q[1..]) == Merged([], [], q[1..], 0, None);
    } else {
      assert [f][1..] == [] && Merge(p, q[1..], []) == Merged([], q[1..], [], 0, None);
    }
  }

  /** `q'` is `q` with `f` behind every frame not later than it, less its oldest beyond the bound. */
  ghost predicate Queued(p: Policy, q: seq<Frame>, f: Frame, q': seq<Frame>, k: nat) {
    && k <= |q|
    && (forall i :: 0 <= i < k ==> Time(p, q[i]) < Time(p, f) || (Time(p, q[i]) == Time(p, f) && q[i].sequence <= f.sequence))
    && (k < |q| ==> Time(p, q[k]) > Time(p, f) || (Time(p, q[k]) == Time(p, f) && q[k].sequence > f.sequence))
    && var all := q[..k] + [f] + q[k..];
       q' == if |all| > p.maxQueue then all[1..] else all
  }

  lemma QueuesExactly(p: Policy, q: seq<Frame>, f: Frame) returns (k: nat)
    requires Sorted(p, q)
    ensures Queued(p, q, f, DropOverflow(p, Enqueue(p, q, f)), k)
  {
    k := EnqueuePlace(p, q, f);
  }

  /** A timed record: queued when nothing waits on the other side, else met with what does. */
  ghost predicate Admitted(p: Policy, own: seq<Frame>, other: seq<Frame>, f: Frame, s: State, s': State, k: nat) {
    if other == [] then
      && Queued(p, own, f, s'.Queue(f.side), k) && s'.Queue(Opposite(f.side)) == []
      && s'.overflow == s.overflow + (if |own| >= p.maxQueue then 1 else 0)
      && s'.outside == s.outside && s'.pairs == s.pairs && s'.error.None?
    else
      && s'.overflow == s.overflow && s'.outside >= s.outside && s.pairs <= s'.pairs
      && Meets(p, f, other, Met(s'.pairs[|s.pairs|..], s'.Queue(f.side), s'.Queue(Opposite(f.side)),
                                s'.outside - s.outside, s'.error), k)
  }

  ghost function Opposite(side: Side): Side {
    if side.Left? then Right else Left
  }

  lemma AdmitsExactly(p: Policy, s: State, f: Frame) returns (k: nat)
    requires p.Valid() && Sorted(p, s.Queue(f.side)) && (s.left == [] || s.right == [])
    ensures Admitted(p, s.Queue(f.side), s.Queue(Opposite(f.side)), f, s, Admit(p, s, f), k)
    ensures var s' := Admit(p, s, f);
            s' == s.(left := s'.left, right := s'.right, overflow := s'.overflow, outside := s'.outside,
                     pairs := s'.pairs, error := s'.error)
  {
    var own, other := s.Queue(f.side), s.Queue(Opposite(f.side));
    hide Policy.NotAfter, Meets, Queued, Merge, Sorted;
    if other == [] {
      k := QueuesExactly(p, own, f);
      EnqueueSorted(p, own, f);
      var kept := DropOverflow(p, Enqueue(p, own, f));
      MergeDone(p, kept, []);
      MergeDone(p, [], kept);
    } else {
      assert own == [] && DropOverflow(p, Enqueue(p, [], f)) == [f];
      k := MergeOne(p, f, other);
      hide Enqueue, DropOverflow;
      var m := if f.side.Left? then Merge(p, [f], other) else Merge(p, other, [f]);
      assert (s.pairs + m.pairs)[|s.pairs|..] == m.pairs;
    }
  }

  // ----- every record of every run -----

  /** Nothing but the count of the records and of this kind changes. */
  ghost predicate SameQueues(s: State, s': State) {
    s'.left == s.left && s'.right == s.right && s'.pairs == s.pairs && s'.overflow == s.overflow && s'.outside == s.outside
  }

  ghost predicate Answered(p: Policy, frames: seq<Frame>, s: State, f: Frame, s': State, k: nat) {
    if Refused(p, frames, f) then
      s'.error == Some(if |frames| >= p.maxFrames then FrameBudget
                       else if frames != [] && frames[0].session != f.session then SessionChanged else DuplicateKey)
      && s' == s.(error := s'.error)
    else if Late(frames, f) then
      s'.error.None? && SameQueues(s, s') && s'.late == s.late + 1 && s'.flushed == s.flushed && s'.invalidTime == s.invalidTime
    else
      && s'.late == s.late
      && s'.flushed == s.flushed + (if Changes(frames, f) then |s.left| + |s.right| else 0)
      && var s0 := if Changes(frames, f) then s.(left := [], right := []) else s;
         if Timed(p, f) then
           s'.invalidTime == s.invalidTime && Admitted(p, s0.Queue(f.side), s0.Queue(Opposite(f.side)), f, s, s', k)
         else s'.error.None? && SameQueues(s0, s') && s'.invalidTime == s.invalidTime + 1
  }

  lemma KeysMore(frames: seq<Frame>, f: Frame)
    ensures Keys(frames + [f]) == Keys(frames) + {f.key}
  {
    var all := frames + [f];
    assert all[|frames|] == f;
    assert forall i :: 0 <= i < |frames| ==> all[i] == frames[i];
    forall key ensures key in Keys(all) <==> key in Keys(frames) + {f.key} {
      if key in Keys(frames) {
        var i :| 0 <= i < |frames| && frames[i].key == key;
        assert all[i].key == key;
      }
    }
  }

  lemma AnswersStep(p: Policy, frames: seq<Frame>, s: State, f: Frame) returns (k: nat)
    requires p.Valid() && Invariant(p, s) && s.error.None? && Remembers(s, frames)
    ensures Answered(p, frames, s, f, Step(p, s, f), k)
    ensures Step(p, s, f).error.None? ==> Remembers(Step(p, s, f), frames + [f])
  {
    hide Occurs, Newest, Late, Changes, StreamsAre, Merge, Admit, Keys, Sorted, KeysOnce, Admitted, PairOk, Accounted,
         Switch;
    k := 0;
    if !Refused(p, frames, f) {
      KeysMore(frames, f);
      StreamsMove(frames, f, s.active, s.retired);
      var s1 := s.(consumed := s.consumed + 1, session := Some(f.session), seen := s.seen + {f.key});
      if !Late(frames, f) {
        SwitchesExactly(frames, s1, f);
        var s2 := Switch(s1, f);
        NothingSorted(p);
        if p.Usable(f) {
          k := AdmitsExactly(p, s2, f);
          AdmittedCarries(p, s2, s, s2.Queue(f.side), s2.Queue(Opposite(f.side)), f, Admit(p, s2, f), k);
        }
      }
    }
  }

  lemma NothingSorted(p: Policy)
    ensures Sorted(p, [])
  {
  }

  lemma SwitchesExactly(frames: seq<Frame>, s: State, f: Frame)
    requires StreamsAre(frames, s.active, s.retired) && !Late(frames, f)
    ensures var s' := Switch(s, f);
            && s' == s.(left := if Changes(frames, f) then [] else s.left, right := if Changes(frames, f) then [] else s.right,
                        flushed := s.flushed + (if Changes(frames, f) then |s.left| + |s.right| else 0),
                        active := s'.active, retired := s'.retired)
            && StreamsAre(frames + [f], s'.active, s'.retired)
  {
    StreamsMove(frames, f, s.active, s.retired);
    hide Late, Changes, StreamsAre;
  }

  lemma AdmittedCarries(p: Policy, s2: State, s: State, own: seq<Frame>, other: seq<Frame>, f: Frame, s': State, k: nat)
    requires s2.overflow == s.overflow && s2.outside == s.outside && s2.pairs == s.pairs
    requires Admitted(p, own, other, f, s2, s', k)
    ensures Admitted(p, own, other, f, s, s', k)
  {
    hide Queued, Meets;
  }

  lemma StartRemembers()
    ensures Remembers(START, [])
  {
    assert forall side :: Newest([], side) == None;
    assert forall side, stream :: !Occurs([], side, stream);
  }

  /** In every run without an error the state remembers its records. */
  lemma {:induction false} AlwaysRemembers(p: Policy, frames: seq<Frame>)
    requires p.Valid()
    ensures Run(p, START, frames).error.None? ==> Remembers(Run(p, START, frames), frames)
  {
    hide Step, Remembers, Invariant, Answered;
    if frames == [] {
      StartRemembers();
    } else {
      var f, before := frames[|frames| - 1], frames[..|frames| - 1];
      AlwaysRemembers(p, before);
      RunKeeps(p, before);
      var s := Run(p, START, before);
      ErrorStays(p, s, f);
      if s.error.None? {
        var k := AnswersStep(p, before, s, f);
        assert before + [f] == frames;
      }
    }
  }

  /**
   In every run without an error so far the next record is answered from the records before it: it
   is refused for the budget, the session or its key; it is late exactly when its side has given up
   its stream; a new stream on a side that has one empties both queues; and a timed record is then
   queued, paired with the first waiting one in the window, or drops what lies long before it.
   */
  lemma AnswersExactly(p: Policy, frames: seq<Frame>, f: Frame) returns (k: nat)
    requires p.Valid() && Run(p, START, frames).error.None?
    ensures Answered(p, frames, Run(p, START, frames), f, Run(p, START, frames + [f]), k)
  {
    AlwaysRemembers(p, frames);
    RunKeeps(p, frames);
    assert (frames + [f])[..|frames|] == frames;
    hide Step, Remembers, Invariant, Answered;
    k := AnswersStep(p, frames, Run(p, START, frames), f);
  }

  // ----- no pair across a change of stream -----

  /** No side changes its stream with the records after `i` up to `j`. */
  ghost predicate Unbroken(frames: seq<Frame>, i: int, j: int) {
    forall k :: 0 <= i < k <= j && k < |frames| ==> !Changes(frames[..k], frames[k])
  }

  /** `g` arrived, and since then no side has changed its stream. */
  ghost predicate Current(frames: seq<Frame>, g: Frame) {
    exists i :: 0 <= i < |frames| && frames[i] == g && Unbroken(frames, i, |frames|)
  }

  /** Both frames of the pair arrived, and no side changed its stream between the two. */
  ghost predicate OfOneEra(frames: seq<Frame>, pair: Pair) {
    exists i, j :: 0 <= i < |frames| && 0 <= j < |frames| && frames[i] == pair.left && frames[j] == pair.right
                   && Unbroken(frames, i, j) && Unbroken(frames, j, i)
  }

  /** A frame that the last record `f` leaves in a queue or pairs: it is `f`, or waited and nothing changed. */
  ghost predicate Stays(frames: seq<Frame>, s: State, f: Frame, g: Frame) {
    g == f || (!Changes(frames, f) && (g in s.left || g in s.right))
  }

  lemma MeetsMembers(p: Policy, f: Frame, q: seq<Frame>, m: Met, k: nat)
    requires Meets(p, f, q, m, k)
    ensures forall g :: g in m.own || g in m.other ==> g == f || g in q
    ensures forall pair :: pair in m.pairs ==> (pair.left == f || pair.left in q) && (pair.right == f || pair.right in q)
  {
  }

  lemma QueuedMembers(p: Policy, q: seq<Frame>, f: Frame, q': seq<Frame>, k: nat)
    requires Queued(p, q, f, q', k)
    ensures forall g :: g in q' ==> g == f || g in q
  {
    var all := q[..k] + [f] + q[k..];
    assert forall g :: g in all ==> g == f || g in q;
  }

  lemma AdmittedMembers(p: Policy, own: seq<Frame>, other: seq<Frame>, f: Frame, s: State, s': State, k: nat)
    requires Admitted(p, own, other, f, s, s', k)
    ensures s.pairs <= s'.pairs
    ensures forall g :: g in s'.left || g in s'.right ==> g == f || g in own || g in other
    ensures forall i :: |s.pairs| <= i < |s'.pairs| ==>
              (s'.pairs[i].left == f || s'.pairs[i].left in own || s'.pairs[i].left in other)
              && (s'.pairs[i].right == f || s'.pairs[i].right in own || s'.pairs[i].right in other)
  {
    hide Meets, Queued;
    var mine, yours := s'.Queue(f.side), s'.Queue(Opposite(f.side));
    assert forall g :: g in s'.left || g in s'.right ==> g in mine || g in yours;
    if other == [] {
      QueuedMembers(p, own, f, mine, k);
    } else {
      var more := s'.pairs[|s.pairs|..];
      MeetsMembers(p, f, other, Met(more, mine, yours, s'.outside - s.outside, s'.error), k);
      assert forall i :: |s.pairs| <= i < |s'.pairs| ==> s'.pairs[i] == more[i - |s.pairs|] && s'.pairs[i] in more;
    }
  }

  lemma AnsweredMembers(p: Policy, frames: seq<Frame>, s: State, f: Frame, s': State, k: nat)
    requires Answered(p, frames, s, f, s', k) && !Refused(p, frames, f)
    ensures s.pairs <= s'.pairs
    ensures !Late(frames, f) ==> forall g :: g in s'.left || g in s'.right ==> Stays(frames, s, f, g)
    ensures Late(frames, f) ==> forall g :: g in s'.left || g in s'.right ==> g in s.left || g in s.right
    ensures forall i :: |s.pairs| <= i < |s'.pairs| ==>
              Stays(frames, s, f, s'.pairs[i].left) && Stays(frames, s, f, s'.pairs[i].right)
  {
    hide Admitted, Changes, Late, Refused;
    if !Late(frames, f) && Timed(p, f) {
      var s0 := if Changes(frames, f) then s.(left := [], right := []) else s;
      AdmittedMembers(p, s0.Queue(f.side), s0.Queue(Opposite(f.side)), f, s, s', k);
    }
  }

  lemma UnbrokenMore(frames: seq<Frame>, f: Frame, i: int, j: int)
    requires Unbroken(frames, i, j) && j < |frames|
    ensures Unbroken(frames + [f], i, j)
  {
    hide Changes;
    var all := frames + [f];
    forall k | 0 <= i < k <= j && k < |all| ensures !Changes(all[..k], all[k]) {
      assert all[..k] == frames[..k] && all[k] == frames[k];
    }
  }

  lemma UnbrokenOn(frames: seq<Frame>, f: Frame, i: nat)
    requires Unbroken(frames, i, |frames|) && i < |frames| && !Changes(frames, f)
    ensures Unbroken(frames + [f], i, |frames|) && Unbroken(frames + [f], i, |frames| + 1)
  {
    hide Changes;
    var all := frames + [f];
    forall k | 0 <= i < k <= |frames| ensures !Changes(all[..k], all[k]) {
      assert all[..k] == frames[..k];
      assert frames[..|frames|] == frames;
    }
  }

  lemma EraMore(frames: seq<Frame>, f: Frame, pair: Pair)
    requires OfOneEra(frames, pair)
    ensures OfOneEra(frames + [f], pair)
  {
    hide Unbroken;
    var i, j :| 0 <= i < |frames| && 0 <= j < |frames| && frames[i] == pair.left && frames[j] == pair.right
                && Unbroken(frames, i, j) && Unbroken(frames, j, i);
    UnbrokenMore(frames, f, i, j);
    UnbrokenMore(frames, f, j, i);
    var all := frames + [f];
    assert all[i] == pair.left && all[j] == pair.right;
  }

  lemma CurrentMore(frames: seq<Frame>, f: Frame, g: Frame)
    requires Current(frames, g) && !Changes(frames, f)
    ensures Current(frames + [f], g)
  {
    hide Unbroken, Changes;
    var i :| 0 <= i < |frames| && frames[i] == g && Unbroken(frames, i, |frames|);
    UnbrokenOn(frames, f, i);
    var all := frames + [f];
    assert all[i] == g && |all| == |frames| + 1;
  }

  /** Where a frame that stays arrived: nothing has changed since then. */
  lemma StaysSince(frames: seq<Frame>, s: State, f: Frame, g: Frame) returns (i: nat)
    requires Stays(frames, s, f, g) && forall h :: h in s.left || h in s.right ==> Current(frames, h)
    ensures var all := frames + [f];
            i < |all| && all[i] == g && Unbroken(all, i, |frames|) && Unbroken(all, |frames|, i) && Unbroken(all, i, |all|)
    ensures i < |frames| ==> !Changes(frames, f) && Unbroken(frames, i, |frames|)
  {
    hide Changes;
    if g == f {
      i := |frames|;
    } else {
      assert Current(frames, g);
      i :| 0 <= i < |frames| && frames[i] == g && Unbroken(frames, i, |frames|);
      UnbrokenOn(frames, f, i);
    }
  }

  lemma UnbrokenWithin(frames: seq<Frame>, i: nat, j: nat, end: nat)
    requires Unbroken(frames, i, end) && j <= end
    ensures Unbroken(frames, i, j)
  {
    hide Changes;
  }

  lemma NewPairOfOneEra(frames: seq<Frame>, s: State, f: Frame, pair: Pair)
    requires Stays(frames, s, f, pair.left) && Stays(frames, s, f, pair.right)
    requires forall h :: h in s.left || h in s.right ==> Current(frames, h)
    ensures OfOneEra(frames + [f], pair)
  {
    hide Stays, Unbroken, Current, Changes;
    var i := StaysSince(frames, s, f, pair.left);
    var j := StaysSince(frames, s, f, pair.right);
    UnbrokenWithin(frames + [f], i, j, |frames|);
    UnbrokenWithin(frames + [f], j, i, |frames|);
  }

  ghost predicate EraOk(frames: seq<Frame>, s: State) {
    && (forall i :: 0 <= i < |s.pairs| ==> OfOneEra(frames, s.pairs[i]))
    && (s.error.None? ==> forall g :: g in s.left || g in s.right ==> Current(frames, g))
  }

  lemma RefusedKeeps(p: Policy, frames: seq<Frame>, s: State, f: Frame, s': State, k: nat)
    requires Answered(p, frames, s, f, s', k) && Refused(p, frames, f)
    ensures s'.pairs == s.pairs && s'.error.Some?
  {
  }

  lemma LateIsNoChange(frames: seq<Frame>, f: Frame)
    ensures Late(frames, f) ==> !Changes(frames, f)
  {
  }

  lemma ArrivedAt(frames: seq<Frame>, g: Frame, i: nat)
    requires i < |frames| && frames[i] == g && Unbroken(frames, i, |frames|)
    ensures Current(frames, g)
  {
  }

  lemma ErrorIsFinal(p: Policy, s: State, f: Frame)
    requires s.error.Some?
    ensures Step(p, s, f) == s
  {
  }

  lemma EraStep(p: Policy, frames: seq<Frame>, s: State, f: Frame, s': State, k: nat)
    requires EraOk(frames, s) && s.error.None? && Answered(p, frames, s, f, s', k)
    ensures EraOk(frames + [f], s')
  {
    hide Answered, Refused, Current, OfOneEra, Stays, Changes, Late, Unbroken;
    if Refused(p, frames, f) {
      RefusedKeeps(p, frames, s, f, s', k);
    } else {
      AnsweredMembers(p, frames, s, f, s', k);
      forall g | g in s'.left || g in s'.right ensures Current(frames + [f], g) {
        if Late(frames, f) {
          LateIsNoChange(frames, f);
          CurrentMore(frames, f, g);
        } else {
          var i := StaysSince(frames, s, f, g);
          ArrivedAt(frames + [f], g, i);
        }
      }
    }
    forall i | 0 <= i < |s'.pairs| ensures OfOneEra(frames + [f], s'.pairs[i]) {
      if i < |s.pairs| {
        assert s'.pairs[i] == s.pairs[i];
        EraMore(frames, f, s.pairs[i]);
      } else {
        NewPairOfOneEra(frames, s, f, s'.pairs[i]);
      }
    }
  }

  /**
   In every run no yielded pair has a change of stream, of either side, between the arrivals of its
   two frames, and what still waits arrived after the last change.
   */
  lemma {:induction false} NoPairAcrossAChange(p: Policy, frames: seq<Frame>)
    requires p.Valid()
    ensures EraOk(frames, Run(p, START, frames))
  {
    hide Step, Answered, OfOneEra, Current;
    if frames != [] {
      var f, before := frames[|frames| - 1], frames[..|frames| - 1];
      NoPairAcrossAChange(p, before);
      var s := Run(p, START, before);
      assert before + [f] == frames;
      if s.error.None? {
        var k := AnswersExactly(p, before, f);
        EraStep(p, before, s, f, Run(p, START, frames), k);
      } else {
        ErrorIsFinal(p, s, f);
        forall i | 0 <= i < |s.pairs| ensures OfOneEra(frames, s.pairs[i]) {
          EraMore(before, f, s.pairs[i]);
        }
      }
    }
  }

  /** A record that changes its side's stream leaves at most itself waiting, and yields no pair. */
  lemma ChangeEmptiesQueues(p: Policy, frames: seq<Frame>, f: Frame)
    requires p.Valid() && Run(p, START, frames).error.None? && !Refused(p, frames, f) && Changes(frames, f)
    ensures var s, s' := Run(p, START, frames), Run(p, START, frames + [f]);
            && s'.pairs == s.pairs && s'.error.None? && s'.flushed == s.flushed + |s.left| + |s.right|
            && s'.Queue(f.side) == (if Timed(p, f) then [f] else []) && s'.Queue(Opposite(f.side)) == []
  {
    var k := AnswersExactly(p, frames, f);
    hide Run, Refused;
    assert !Late(frames, f);
  }
}
