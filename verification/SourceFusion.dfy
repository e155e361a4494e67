/**
 The pairing front end of the estimator (`DualFusion` in src/wc_fusion/core.py): freshness,
 bounded duplicate memory, two bounded sorted queues, and the latch.

 Identity, clock and point-cloud checks are opaque verdicts carried by the frame; whether the
 numerical fusion of a pair succeeds is an input of the call.
 */
module SourceFusion {
  import opened Common

  datatype Stream = Stream(side: Side, epoch: string)

  /** `sensor_id/stream_epoch/frame_sequence`; a side has one sensor. */
  datatype Key = Key(stream: Stream, sequence: int)

  datatype Frame = Frame(
    side: Side, epoch: string, sequence: int, stamp: int, hostTime: int,
    identityFault: Option<string>, contentFault: Option<string>)
  {
    function Origin(): Stream {
      Stream(side, epoch)
    }

    function Identity(): Key {
      Key(Origin(), sequence)
    }
  }

  datatype Policy = Policy(maxPairNs: nat, maxQueue: nat, maxAgeNs: nat)

  /** Position in a stream: the newest sequence number with its stamp. */
  datatype Newest = Newest(sequence: int, stamp: int)

  datatype Bundle = Bundle(id: nat, tRef: int, left: Frame, right: Frame)

  datatype Reply = Nothing | Fused(bundle: Bundle) | Raised(reason: string)

  /** The object's fields, and two histories: frames entered in the memory, bundles returned. */
  datatype State = State(
    left: seq<Frame>, right: seq<Frame>, epochs: map<Side, string>,
    seen: set<Key>, seenOrder: seq<Key>, sequenceHigh: map<Stream, int>, stampHigh: map<Stream, Newest>,
    lastSeen: map<Side, int>, started: Option<int>, lastBundle: Option<int>, bundleCounter: nat,
    latched: Option<string>, accepted: seq<Frame>, emitted: seq<Bundle>)

  const START := State([], [], map[], {}, [], map[], map[], map[], None, None, 0, None, [], [])

  /** The queues are dropped in any case; only a text that is not empty latches. */
  function Latch(s: State, reason: string): State {
    s.(latched := Told(reason), left := [], right := [])
  }

  // ----- duplicate memory -----

  function High(s: State, stream: Stream): int {
    if stream in s.sequenceHigh then s.sequenceHigh[stream] else -1
  }

  predicate Refused(p: Policy, s: State, key: Key) {
    key in s.seen || key.sequence <= High(s, key.stream) - p.maxQueue * 4
  }

  function ToSet(order: seq<Key>): set<Key> {
    set k | k in order
  }

  function Last<T>(s: seq<T>, n: nat): seq<T> {
    if |s| <= n then s else s[|s| - n..]
  }

  /** Enter an admitted frame: its key joins the window and pushes the oldest keys out. */
  function Remember(p: Policy, s: State, f: Frame): State {
    var stream, order := f.Origin(), s.seenOrder + [f.Identity()];
    var kept := Last(order, p.maxQueue * 16);
    var forgotten := order[..|order| - |kept|];
    s.(sequenceHigh := s.sequenceHigh[stream := if f.sequence > High(s, stream) then f.sequence else High(s, stream)],
       stampHigh := if stream !in s.stampHigh || f.sequence > s.stampHigh[stream].sequence
                    then s.stampHigh[stream := Newest(f.sequence, f.stamp)] else s.stampHigh,
       seen := s.seen + {f.Identity()} - ToSet(forgotten), seenOrder := kept,
       accepted := s.accepted + [f])
  }

  // ----- one frame -----

  datatype Checked = Checked(s: State, fault: Option<string>)

  const DUPLICATE := "DUPLICATE_OR_TOO_OLD_FRAME"

  /** A newer frame of a stream with a stamp that is not newer. */
  predicate TimeJump(s: State, f: Frame) {
    f.Origin() in s.stampHigh && f.sequence > s.stampHigh[f.Origin()].sequence
    && f.stamp <= s.stampHigh[f.Origin()].stamp
  }

  function Adopt(s: State, f: Frame): State {
    s.(epochs := s.epochs[f.side := f.epoch])
  }

  function Check(p: Policy, s: State, f: Frame, now: int): Checked {
    if f.identityFault.Some? then Checked(s, f.identityFault)
    else if now - f.hostTime < 0 || now - f.hostTime > p.maxAgeNs then Checked(s, Some("SOURCE_STALE"))
    else if f.epoch == "" then Checked(s, Some("MISSING_STREAM_EPOCH"))
    else
      var changed := f.side in s.epochs && f.epoch != s.epochs[f.side];
      var s1 := Adopt(s, f);
      if changed then Checked(s1, Some("STREAM_EPOCH_CHANGED"))
      else if f.sequence < 0 then Checked(s1, Some("NEGATIVE_SEQUENCE"))
      else if TimeJump(s1, f) then Checked(s1, Some("SOURCE_TIME_JUMP"))
      else if Refused(p, s1, f.Identity()) then Checked(s1, Some(DUPLICATE))
      else Checked(Remember(p, s1, f), f.contentFault)
  }

  function LastSeen(s: State, side: Side, otherwise: int): int {
    if side in s.lastSeen then s.lastSeen[side] else otherwise
  }

  /** The first deadline missed at `now`, if any. */
  function Overdue(p: Policy, s: State, now: int): (reason: Option<string>)
    ensures reason.Some? ==> reason.value != ""
  {
    if s.started.None? then None
    else
      var left := now - LastSeen(s, Left, s.started.value);
      var right := now - LastSeen(s, Right, s.started.value);
      var last := if s.lastBundle.Some? then s.lastBundle.value else s.started.value;
      if left < 0 || left > p.maxAgeNs then Some("SOURCE_TIMEOUT:left")
      else if right < 0 || right > p.maxAgeNs then Some("SOURCE_TIMEOUT:right")
      else if now - last > p.maxAgeNs then Some("PAIR_STREAM_TIMEOUT")
      else None
  }

  function CheckFreshness(p: Policy, s: State, now: int): State {
    if s.latched.None? && Overdue(p, s, now).Some? then Latch(s, Overdue(p, s, now).value) else s
  }

  predicate NotAfter(f: Frame, g: Frame) {
    f.stamp < g.stamp || (f.stamp == g.stamp && f.sequence <= g.sequence)
  }

  /** Append, sort (stably), drop the oldest beyond the bound. */
  function Insert(q: seq<Frame>, f: Frame): seq<Frame> {
    if q == [] || !NotAfter(q[0], f) then [f] + q else [q[0]] + Insert(q[1..], f)
  }

  function Bounded(p: Policy, q: seq<Frame>): seq<Frame> {
    if |q| > p.maxQueue then q[|q| - p.maxQueue..] else q
  }

  datatype Search = Waiting(left: seq<Frame>, right: seq<Frame>)
                  | Found(l: Frame, r: Frame, left: seq<Frame>, right: seq<Frame>)
                  | Stale

  function Min(a: int, b: int): int {
    if a < b then a else b
  }

  function Max(a: int, b: int): int {
    if a < b then b else a
  }

  function FindPair(p: Policy, left: seq<Frame>, right: seq<Frame>, now: int): Search
    decreases |left| + |right|
  {
    if left == [] || right == [] then Waiting(left, right)
    else if now - Min(left[0].hostTime, right[0].hostTime) > p.maxAgeNs then Stale
    else if Abs(left[0].stamp - right[0].stamp) > p.maxPairNs then
      if left[0].stamp < right[0].stamp then FindPair(p, left[1..], right, now) else FindPair(p, left, right[1..], now)
    else Found(left[0], right[0], left[1..], right[1..])
  }

  function Fuse(s: State, l: Frame, r: Frame, fault: Option<string>, now: int): (State, Reply) {
    if fault.Some? then (Latch(s, fault.value), Raised(fault.value))
    else
      var b := Bundle(s.bundleCounter + 1, Max(l.stamp, r.stamp), l, r);
      (s.(bundleCounter := s.bundleCounter + 1, lastBundle := Some(now), emitted := s.emitted + [b]), Fused(b))
  }

  function Pair(p: Policy, s: State, fault: Option<string>, now: int): (State, Reply) {
    match FindPair(p, s.left, s.right, now)
    case Waiting(left, right) => (s.(left := left, right := right), Nothing)
    case Stale => (Latch(s, "PAIR_STALE"), Raised("PAIR_STALE"))
    case Found(l, r, left, right) => Fuse(s.(left := left, right := right), l, r, fault, now)
  }

  function Arrive(s: State, f: Frame, now: int): State {
    s.(started := if s.started.None? then Some(now) else s.started,
       lastSeen := s.lastSeen[f.side := Max(f.hostTime, LastSeen(s, f.side, f.hostTime))])
  }

  function Enqueue(p: Policy, s: State, f: Frame): State {
    if f.side.Left? then s.(left := Bounded(p, Insert(s.left, f)))
    else s.(right := Bounded(p, Insert(s.right, f)))
  }

  function Push(p: Policy, s: State, f: Frame, fuseFault: Option<string>, now: int): (State, Reply) {
    if s.latched.Some? then (s, Raised("PAUSED_INVALID:" + s.latched.value))
    else
      var c := Check(p, s, f, now);
      if c.fault == Some(DUPLICATE) then (c.s, Raised(DUPLICATE))
      else if c.fault.Some? then (Latch(c.s, c.fault.value), Raised(c.fault.value))
      else
        var s1 := CheckFreshness(p, Arrive(c.s, f, now), now);
        if s1.latched.Some? then (s1, Raised(s1.latched.value))
        else Pair(p, Enqueue(p, s1, f), fuseFault, now)
  }

  function Resume(s: State, granted: bool): State {
    if !granted then s
    else s.(latched := None, left := [], right := [], lastSeen := map[], started := None, lastBundle := None)
  }

  datatype Event =
    | Pushed(f: Frame, fuseFault: Option<string>, now: int)
    | Freshness(now: int)
    | Latched(reason: string)
    | Resumed(granted: bool)

  function Step(p: Policy, s: State, e: Event): State {
    match e
    case Pushed(f, fault, now) => Push(p, s, f, fault, now).0
    case Freshness(now) => CheckFreshness(p, s, now)
    case Latched(reason) => Latch(s, reason)
    case Resumed(granted) => Resume(s, granted)
  }

  function Run(p: Policy, events: seq<Event>): State {
    if events == [] then START else Step(p, Run(p, events[..|events| - 1]), events[|events| - 1])
  }

  // ----- queues -----

  ghost predicate Sorted(q: seq<Frame>) {
    forall i, j :: 0 <= i < j < |q| ==> NotAfter(q[i], q[j])
  }

  ghost predicate QueueOk(p: Policy, q: seq<Frame>, side: Side) {
    Sorted(q) && |q| <= p.maxQueue && forall f :: f in q ==> f.side == side
  }

  /** One queue is empty, so no pair that could be matched is ever left waiting. */
  ghost predicate QueuesOk(p: Policy, s: State) {
    && QueueOk(p, s.left, Left) && QueueOk(p, s.right, Right)
    && (s.left == [] || s.right == [])
    && (s.latched.Some? ==> s.left == [] && s.right == [])
  }

  lemma {:induction false} InsertPlace(q: seq<Frame>, f: Frame) returns (k: nat)
    requires Sorted(q)
    ensures k <= |q| && Insert(q, f) == q[..k] + [f] + q[k..]
    ensures forall i :: 0 <= i < k ==> NotAfter(q[i], f)
    ensures forall i :: k <= i < |q| ==> !NotAfter(q[i], f)
  {
    if q == [] || !NotAfter(q[0], f) {
      k := 0;
    } else {
      var k' := InsertPlace(q[1..], f);
      k := k' + 1;
      assert q[1..][..k'] == q[1..k] && q[1..][k'..] == q[k..];
      assert [q[0]] + q[1..k] == q[..k];
    }
  }

  lemma NotAfterTotal(f: Frame)
    ensures forall g :: !NotAfter(g, f) ==> NotAfter(f, g)
  {
  }

  lemma InsertSorted(q: seq<Frame>, f: Frame)
    requires Sorted(q)
    ensures Sorted(Insert(q, f)) && forall g :: g in Insert(q, f) ==> g in q || g == f
  {
    var k := InsertPlace(q, f);
    NotAfterTotal(f);
    hide NotAfter, Insert;
    var r := q[..k] + [f] + q[k..];
    forall i, j | 0 <= i < j < |r| ensures NotAfter(r[i], r[j]) {
      assert r[i] == if i < k then q[i] else if i == k then f else q[i - 1];
      assert r[j] == if j < k then q[j] else if j == k then f else q[j - 1];
    }
  }

  lemma SuffixOk(p: Policy, q: seq<Frame>, side: Side, i: nat)
    requires Sorted(q) && i <= |q| && (forall f :: f in q ==> f.side == side) && |q| - i <= p.maxQueue
    ensures QueueOk(p, q[i..], side)
  {
  }

  lemma EnqueueOk(p: Policy, q: seq<Frame>, f: Frame)
    requires QueueOk(p, q, f.side)
    ensures QueueOk(p, Bounded(p, Insert(q, f)), f.side)
  {
    InsertSorted(q, f);
    var r := Insert(q, f);
    hide Sorted, Insert;
    if |r| > p.maxQueue {
      SuffixOk(p, r, f.side, |r| - p.maxQueue);
    }
  }

  /** The search drops heads only; it leaves suffixes, and at most one of them is nonempty when
      one queue held no more than the frame just pushed. */
  lemma {:induction false} SearchShape(p: Policy, left: seq<Frame>, right: seq<Frame>, now: int)
    returns (i: nat, j: nat)
    ensures var r := FindPair(p, left, right, now);
            !r.Stale? ==> i <= |left| && j <= |right| && r.left == left[i..] && r.right == right[j..]
                          && (r.Found? ==> i > 0 && j > 0 && r.l == left[i - 1] && r.r == right[j - 1])
                          && (|left| <= 1 || |right| <= 1 ==> r.left == [] || r.right == [])
    decreases |left| + |right|
  {
    i, j := 0, 0;
    if left == [] || right == [] || now - Min(left[0].hostTime, right[0].hostTime) > p.maxAgeNs {
    } else if Abs(left[0].stamp - right[0].stamp) > p.maxPairNs {
      if left[0].stamp < right[0].stamp {
        i, j := SearchShape(p, left[1..], right, now);
        i := i + 1;
      } else {
        i, j := SearchShape(p, left, right[1..], now);
        j := j + 1;
      }
    } else {
      i, j := 1, 1;
    }
  }

  lemma PairKeepsQueues(p: Policy, s: State, fault: Option<string>, now: int)
    requires QueueOk(p, s.left, Left) && QueueOk(p, s.right, Right) && s.latched.None?
    requires |s.left| <= 1 || |s.right| <= 1
    ensures QueuesOk(p, Pair(p, s, fault, now).0)
  {
    var i, j := SearchShape(p, s.left, s.right, now);
    var r := FindPair(p, s.left, s.right, now);
    if !r.Stale? {
      SuffixOk(p, s.left, Left, i);
      SuffixOk(p, s.right, Right, j);
    }
    hide FindPair, NotAfter;
  }

  lemma CheckKeepsQueues(p: Policy, s: State, f: Frame, now: int)
    ensures var c := Check(p, s, f, now);
            c.s.left == s.left && c.s.right == s.right && c.s.latched == s.latched
            && c.s.emitted == s.emitted && c.s.bundleCounter == s.bundleCounter
  {
  }

  lemma PushKeepsQueues(p: Policy, s: State, f: Frame, fault: Option<string>, now: int)
    requires p.maxQueue >= 1 && QueuesOk(p, s)
    ensures QueuesOk(p, Push(p, s, f, fault, now).0)
  {
    CheckKeepsQueues(p, s, f, now);
    hide Check, Pair, CheckFreshness, Insert, Sorted;
    var c := Check(p, s, f, now);
    if s.latched.None? && c.fault.None? {
      var s0 := Arrive(c.s, f, now);
      FreshnessKeepsQueues(p, s0, now);
      var s1 := CheckFreshness(p, s0, now);
      if s1.latched.None? {
        EnqueueOk(p, if f.side.Left? then s.left else s.right, f);
        InsertLength(s.left, f);
        InsertLength(s.right, f);
        PairKeepsQueues(p, Enqueue(p, s1, f), fault, now);
      }
    }
  }

  lemma FreshnessKeepsQueues(p: Policy, s: State, now: int)
    requires QueuesOk(p, s)
    ensures var s' := CheckFreshness(p, s, now);
            QueuesOk(p, s') && (s'.latched.None? ==> s' == s)
  {
    hide Overdue;
  }

  lemma InsertLength(q: seq<Frame>, f: Frame)
    ensures |Insert(q, f)| == |q| + 1
  {
  }

  /** After every call both queues are sorted and bounded, and one of them is empty. */
  lemma {:induction false} QueuesAlwaysOk(p: Policy, events: seq<Event>)
    requires p.maxQueue >= 1
    ensures QueuesOk(p, Run(p, events))
  {
    if events != [] {
      QueuesAlwaysOk(p, events[..|events| - 1]);
      hide Push;
      match events[|events| - 1]
      case Pushed(f, fault, now) => PushKeepsQueues(p, Run(p, events[..|events| - 1]), f, fault, now);
      case _ =>
    }
  }

  // ----- the duplicate memory is exact -----

  /** The newest sequence number entered for a stream, -1 when there is none. */
  function HighIn(acc: seq<Frame>, stream: Stream): int {
    if acc == [] then -1
    else
      var f, before := acc[|acc| - 1], HighIn(acc[..|acc| - 1], stream);
      if f.Origin() == stream && f.sequence > before then f.sequence else before
  }

  function Identities(acc: seq<Frame>): seq<Key> {
    seq(|acc|, i requires 0 <= i < |acc| => acc[i].Identity())
  }

  ghost predicate Distinct(keys: seq<Key>) {
    forall i, j :: 0 <= i < j < |keys| ==> keys[i] != keys[j]
  }

  /** The memory is a function of what was accepted: its last keys and each stream's maximum. */
  ghost predicate MemoryOk(p: Policy, s: State) {
    && s.seenOrder == Last(Identities(s.accepted), p.maxQueue * 16)
    && s.seen == ToSet(s.seenOrder) && Distinct(s.seenOrder)
    && (forall stream :: High(s, stream) == HighIn(s.accepted, stream))
  }

  /** `f` may enter after `acc`: it is not among the last keys and not too old for its stream. */
  ghost predicate Fresh(p: Policy, acc: seq<Frame>, f: Frame) {
    && f.Identity() !in Last(Identities(acc), p.maxQueue * 16)
    && f.sequence > HighIn(acc, f.Origin()) - p.maxQueue * 4
    && f.sequence >= 0
  }

  ghost predicate AllFresh(p: Policy, acc: seq<Frame>) {
    forall j :: 0 <= j < |acc| ==> Fresh(p, acc[..j], acc[j])
  }

  /** Any window of the accepted frames as long as the memory holds distinct keys. */
  lemma WindowDistinct(p: Policy, acc: seq<Frame>, i: nat, j: nat)
    requires AllFresh(p, acc) && i < j < |acc| && j - i <= p.maxQueue * 16
    ensures acc[i].Identity() != acc[j].Identity()
  {
    assert Fresh(p, acc[..j], acc[j]);
    var keys := Identities(acc[..j]);
    assert keys[i] == acc[i].Identity();
    assert keys[i] in Last(keys, p.maxQueue * 16) by {
      if |keys| > p.maxQueue * 16 {
        assert keys[i] == keys[|keys| - p.maxQueue * 16..][i - (|keys| - p.maxQueue * 16)];
      }
    }
  }

  lemma LastOfLast(keys: seq<Key>, key: Key, n: nat)
    requires n >= 1
    ensures Last(Last(keys, n) + [key], n) == Last(keys + [key], n)
  {
  }

  lemma RememberKeys(order: seq<Key>, key: Key, n: nat)
    requires Distinct(order) && key !in order
    ensures var all := order + [key];
            var kept := Last(all, n);
            Distinct(kept) && ToSet(order) + {key} - ToSet(all[..|all| - |kept|]) == ToSet(kept)
  {
    var all := order + [key];
    var kept := Last(all, n);
    var gone := |all| - |kept|;
    assert Distinct(all);
    assert kept == all[gone..];
    forall k ensures k in ToSet(order) + {key} - ToSet(all[..gone]) <==> k in ToSet(kept) {
      assert k in ToSet(order) + {key} <==> k in all;
      if k in all {
        var i :| 0 <= i < |all| && all[i] == k;
        assert k in all[..gone] <==> i < gone;
        assert k in all[gone..] <==> i >= gone;
      }
    }
  }

  lemma HighInGrows(acc: seq<Frame>, f: Frame, stream: Stream)
    ensures HighIn(acc + [f], stream) ==
            if f.Origin() == stream && f.sequence > HighIn(acc, stream) then f.sequence else HighIn(acc, stream)
  {
    assert (acc + [f])[..|acc|] == acc;
  }

  lemma FreshAppend(p: Policy, acc: seq<Frame>, f: Frame)
    requires AllFresh(p, acc) && Fresh(p, acc, f)
    ensures AllFresh(p, acc + [f])
  {
    hide Fresh;
    forall j | 0 <= j < |acc| + 1 ensures Fresh(p, (acc + [f])[..j], (acc + [f])[j]) {
      assert (acc + [f])[..j] == acc[..j];
      assert acc[..|acc|] == acc;
    }
  }

  /** What passes the memory is fresh, and entering it keeps the memory exact. */
  lemma RememberOk(p: Policy, s: State, f: Frame)
    requires p.maxQueue >= 1 && MemoryOk(p, s) && AllFresh(p, s.accepted)
    requires !Refused(p, s, f.Identity()) && f.sequence >= 0
    ensures MemoryOk(p, Remember(p, s, f)) && AllFresh(p, Remember(p, s, f).accepted)
  {
    var acc := s.accepted;
    assert Fresh(p, acc, f);
    assert Identities(acc + [f]) == Identities(acc) + [f.Identity()];
    assert f.Identity() !in s.seenOrder;
    hide AllFresh, Fresh, Identities, Last, Distinct, HighIn, ToSet;
    FreshAppend(p, acc, f);
    LastOfLast(Identities(acc), f.Identity(), p.maxQueue * 16);
    RememberKeys(s.seenOrder, f.Identity(), p.maxQueue * 16);
    var s' := Remember(p, s, f);
    forall stream ensures High(s', stream) == HighIn(s'.accepted, stream) {
      HighInGrows(acc, f, stream);
    }
  }

  lemma {:induction false} HighInBounds(acc: seq<Frame>, k: nat)
    requires k < |acc|
    ensures acc[k].sequence <= HighIn(acc, acc[k].Origin())
  {
    if k < |acc| - 1 {
      HighInBounds(acc[..|acc| - 1], k);
    }
  }

  /** Sequence numbers of `stream` accepted in positions `a` to `b`, and the frames of others. */
  function Own(acc: seq<Frame>, a: nat, b: nat, stream: Stream): set<int>
    requires a <= b <= |acc|
  {
    if a == b then {}
    else Own(acc, a, b - 1, stream) + if acc[b - 1].Origin() == stream then {acc[b - 1].sequence} else {}
  }

  function Others(acc: seq<Frame>, a: nat, b: nat, stream: Stream): nat
    requires a <= b <= |acc|
  {
    if a == b then 0
    else Others(acc, a, b - 1, stream) + if acc[b - 1].Origin() == stream then 0 else 1
  }

  lemma {:induction false} OwnMembers(acc: seq<Frame>, a: nat, b: nat, stream: Stream, q: int) returns (k: nat)
    requires a <= b <= |acc| && q in Own(acc, a, b, stream)
    ensures a <= k < b && acc[k].Origin() == stream && acc[k].sequence == q
  {
    if acc[b - 1].Origin() == stream && acc[b - 1].sequence == q {
      k := b - 1;
    } else {
      k := OwnMembers(acc, a, b - 1, stream, q);
    }
  }

  /** In a window of the memory's length the frames of one stream have different numbers. */
  lemma {:induction false} WindowCount(p: Policy, acc: seq<Frame>, a: nat, b: nat, stream: Stream)
    requires AllFresh(p, acc) && a <= b <= |acc| && b - a <= p.maxQueue * 16
    ensures |Own(acc, a, b, stream)| + Others(acc, a, b, stream) == b - a
  {
    if a < b {
      WindowCount(p, acc, a, b - 1, stream);
      if acc[b - 1].Origin() == stream && acc[b - 1].sequence in Own(acc, a, b - 1, stream) {
        var k := OwnMembers(acc, a, b - 1, stream, acc[b - 1].sequence);
        WindowDistinct(p, acc, k, b - 1);
        assert false;
      }
    }
  }

  lemma {:induction false} OthersSplit(acc: seq<Frame>, a: nat, b: nat, c: nat, stream: Stream)
    requires a <= b <= c <= |acc|
    ensures Others(acc, b, c, stream) <= Others(acc, a, c, stream)
  {
    if b < c {
      OthersSplit(acc, a, b, c - 1, stream);
    }
  }

  function Range(lo: int, n: nat): (r: set<int>)
    ensures |r| == n && forall x :: x in r <==> lo <= x < lo + n
  {
    if n == 0 then {} else Range(lo, n - 1) + {lo + n - 1}
  }

  lemma SubsetSize(a: set<int>, b: set<int>)
    requires a <= b
    ensures |a| <= |b|
  {
    assert b == a + (b - a);
  }

  /** The stream's frames in the window before a second acceptance lie close around its number. */
  lemma OwnAreClose(p: Policy, acc: seq<Frame>, i: nat, j: nat, a: nat)
    requires p.maxQueue >= 1 && AllFresh(p, acc) && i < a <= j < |acc| && acc[i].Identity() == acc[j].Identity()
    requires a == j - p.maxQueue * 16
    ensures var n := acc[j].sequence;
            Own(acc, a, j, acc[j].Origin()) <= Range(n - p.maxQueue * 4 + 1, p.maxQueue * 8 - 1) - {n}
  {
    var n, stream := acc[j].sequence, acc[j].Origin();
    forall q | q in Own(acc, a, j, stream)
      ensures n - p.maxQueue * 4 < q < n + p.maxQueue * 4 && q != n
    {
      var k := OwnMembers(acc, a, j, stream, q);
      WindowDistinct(p, acc, k, j);
      assert Fresh(p, acc[..k], acc[k]) && Fresh(p, acc[..j], acc[j]);
      HighInBounds(acc[..k], i);
      HighInBounds(acc[..j], k);
    }
  }

  lemma OwnAreFew(own: set<int>, n: int, q: nat)
    requires q >= 1 && own <= Range(n - q * 4 + 1, q * 8 - 1) - {n}
    ensures |own| <= q * 8 - 2
  {
    var around := Range(n - q * 4 + 1, q * 8 - 1);
    hide Range;
    SubsetSize(own, around - {n});
    assert n in around;
  }

  /**
   The duplicate memory is exact: a key enters twice only if at least `8 * maxQueue + 2` frames
   from outside its stream were accepted in between.
   */
  lemma SecondAcceptanceNeedsOthers(p: Policy, acc: seq<Frame>, i: nat, j: nat)
    requires p.maxQueue >= 1 && AllFresh(p, acc) && i < j < |acc|
    requires acc[i].Identity() == acc[j].Identity()
    ensures Others(acc, i + 1, j, acc[j].Origin()) >= p.maxQueue * 8 + 2
  {
    hide AllFresh, Own, Others, Range;
    if j - i <= p.maxQueue * 16 {
      WindowDistinct(p, acc, i, j);
      assert false;
    } else {
      var n, a := acc[j].sequence, j - p.maxQueue * 16;
      OwnAreClose(p, acc, i, j, a);
      OwnAreFew(Own(acc, a, j, acc[j].Origin()), n, p.maxQueue);
      WindowCount(p, acc, a, j, acc[j].Origin());
      OthersSplit(acc, i + 1, a, j, acc[j].Origin());
    }
  }

  ghost predicate RememberedOk(p: Policy, s: State) {
    MemoryOk(p, s) && AllFresh(p, s.accepted)
  }

  predicate SameMemory(s: State, s': State) {
    && s'.seen == s.seen && s'.seenOrder == s.seenOrder && s'.sequenceHigh == s.sequenceHigh
    && s'.accepted == s.accepted && s'.stampHigh == s.stampHigh && s'.epochs == s.epochs
  }

  lemma MemoryCarries(p: Policy, s: State, s': State)
    requires RememberedOk(p, s) && SameMemory(s, s'.(epochs := s.epochs))
    ensures RememberedOk(p, s')
  {
    assert forall stream :: High(s', stream) == High(s, stream);
  }

  lemma CheckMemory(p: Policy, s: State, f: Frame, now: int)
    requires p.maxQueue >= 1 && RememberedOk(p, s)
    ensures RememberedOk(p, Check(p, s, f, now).s)
  {
    var s1 := Adopt(s, f);
    MemoryCarries(p, s, s1);
    hide MemoryOk, AllFresh, Remember;
    if Check(p, s, f, now).s != s && Check(p, s, f, now).s != s1 {
      RememberOk(p, s1, f);
    }
  }

  lemma PairMemory(p: Policy, s: State, fault: Option<string>, now: int)
    ensures SameMemory(s, Pair(p, s, fault, now).0)
  {
    hide FindPair;
  }

  lemma FreshnessMemory(p: Policy, s: State, now: int)
    ensures SameMemory(s, CheckFreshness(p, s, now))
  {
    hide Overdue;
  }

  /** What the memory is after a push: what the check made of it. */
  function Entered(p: Policy, s: State, f: Frame, now: int): State {
    if s.latched.Some? then s else Check(p, s, f, now).s
  }

  lemma PushMemory(p: Policy, s: State, f: Frame, fault: Option<string>, now: int)
    ensures SameMemory(Entered(p, s, f, now), Push(p, s, f, fault, now).0)
  {
    hide Check, Pair, CheckFreshness, Insert;
    var c := Check(p, s, f, now);
    if s.latched.None? && c.fault.None? {
      var s0 := Arrive(c.s, f, now);
      FreshnessMemory(p, s0, now);
      var s1 := CheckFreshness(p, s0, now);
      PairMemory(p, Enqueue(p, s1, f), fault, now);
    }
  }

  lemma {:induction false} MemoryAlwaysOk(p: Policy, events: seq<Event>)
    requires p.maxQueue >= 1
    ensures RememberedOk(p, Run(p, events))
  {
    if events != [] {
      var s, e := Run(p, events[..|events| - 1]), events[|events| - 1];
      MemoryAlwaysOk(p, events[..|events| - 1]);
      hide RememberedOk, Check, Push;
      if e.Pushed? {
        CheckMemory(p, s, e.f, e.now);
        PushMemory(p, s, e.f, e.fuseFault, e.now);
        MemoryCarries(p, Entered(p, s, e.f, e.now), Step(p, s, e));
      } else {
        MemoryCarries(p, s, Step(p, s, e));
      }
    } else {
      assert RememberedOk(p, START);
    }
  }

  /**
   In every run, between two acceptances of one key at least `8 * maxQueue + 2` frames from
   outside its stream were accepted; with fewer, no frame is ever used twice.
   */
  lemma NoFrameTwice(p: Policy, events: seq<Event>, i: nat, j: nat)
    requires p.maxQueue >= 1 && i < j < |Run(p, events).accepted|
    ensures var acc := Run(p, events).accepted;
            Others(acc, i + 1, j, acc[j].Origin()) < p.maxQueue * 8 + 2 ==> acc[i].Identity() != acc[j].Identity()
  {
    MemoryAlwaysOk(p, events);
    var acc := Run(p, events).accepted;
    if acc[i].Identity() == acc[j].Identity() {
      SecondAcceptanceNeedsOthers(p, acc, i, j);
    }
  }

  // ----- reference times increase -----

  /** The stamps of each side's accepted frames increase. */
  ghost predicate StampsRise(acc: seq<Frame>) {
    forall i, j :: 0 <= i < j < |acc| && acc[i].side == acc[j].side ==> acc[i].stamp < acc[j].stamp
  }

  /** Each side's accepted frames stay in one stream and their sequence numbers increase. */
  ghost predicate InOrder(acc: seq<Frame>) {
    forall i, j :: 0 <= i < j < |acc| && acc[i].side == acc[j].side ==>
      acc[i].epoch == acc[j].epoch && acc[i].sequence < acc[j].sequence
  }

  function Latest(acc: seq<Frame>, side: Side): Option<Frame> {
    if acc == [] then None
    else if acc[|acc| - 1].side == side then Some(acc[|acc| - 1])
    else Latest(acc[..|acc| - 1], side)
  }

  function LatestEmitted(emitted: seq<Bundle>, side: Side): Option<int> {
    if emitted == [] then None
    else Some(if side.Left? then emitted[|emitted| - 1].left.stamp else emitted[|emitted| - 1].right.stamp)
  }

  /** Stamps rise from the last emitted one through the queue up to the last accepted one. */
  ghost predicate Rising(q: seq<Frame>, latest: Option<Frame>, emitted: Option<int>) {
    && (forall i, j :: 0 <= i < j < |q| ==> q[i].stamp < q[j].stamp)
    && (forall f :: f in q ==> latest.Some? && f.stamp <= latest.value.stamp)
    && (emitted.Some? ==> latest.Some? && emitted.value <= latest.value.stamp
                          && forall f :: f in q ==> emitted.value < f.stamp)
  }

  ghost predicate Increasing(emitted: seq<Bundle>) {
    && (forall b :: b in emitted ==> b.tRef == Max(b.left.stamp, b.right.stamp))
    && (forall i, j :: 0 <= i < j < |emitted| ==> emitted[i].tRef < emitted[j].tRef)
  }

  ghost predicate TimesOk(s: State) {
    && Rising(s.left, Latest(s.accepted, Left), LatestEmitted(s.emitted, Left))
    && Rising(s.right, Latest(s.accepted, Right), LatestEmitted(s.emitted, Right))
    && Increasing(s.emitted)
  }

  lemma InsertNewest(q: seq<Frame>, f: Frame)
    requires forall g :: g in q ==> g.stamp < f.stamp
    ensures Insert(q, f) == q + [f]
  {
  }

  lemma RisingEnqueue(p: Policy, q: seq<Frame>, latest: Option<Frame>, emitted: Option<int>, f: Frame)
    requires Rising(q, latest, emitted) && (latest.Some? ==> latest.value.stamp < f.stamp)
    ensures Rising(q, Some(f), emitted) && Rising(Bounded(p, Insert(q, f)), Some(f), emitted)
  {
    InsertNewest(q, f);
    var r := q + [f];
    assert Rising(r, Some(f), emitted);
    RisingSuffix(r, Some(f), emitted, |r| - |Bounded(p, r)|);
  }

  lemma RisingSuffix(q: seq<Frame>, latest: Option<Frame>, emitted: Option<int>, i: nat)
    requires Rising(q, latest, emitted) && i <= |q|
    ensures Rising(q[i..], latest, emitted)
    ensures i > 0 ==> Rising(q[i..], latest, Some(q[i - 1].stamp)) && (emitted.Some? ==> emitted.value < q[i - 1].stamp)
  {
  }

  lemma LatchTimes(s: State, reason: string)
    requires TimesOk(s)
    ensures TimesOk(Latch(s, reason))
  {
    RisingEmpty(s);
    hide Rising, Increasing, Latest;
  }

  lemma DropTimes(s: State, left: seq<Frame>, right: seq<Frame>, i: nat, j: nat)
    requires TimesOk(s) && i <= |s.left| && j <= |s.right| && left == s.left[i..] && right == s.right[j..]
    ensures TimesOk(s.(left := left, right := right))
  {
    RisingSuffix(s.left, Latest(s.accepted, Left), LatestEmitted(s.emitted, Left), i);
    RisingSuffix(s.right, Latest(s.accepted, Right), LatestEmitted(s.emitted, Right), j);
    hide Rising, Increasing, Latest;
  }

  lemma EmitTimes(s: State, i: nat, j: nat, now: int)
    requires TimesOk(s) && 0 < i <= |s.left| && 0 < j <= |s.right|
    ensures var l, r := s.left[i - 1], s.right[j - 1];
            TimesOk(Fuse(s.(left := s.left[i..], right := s.right[j..]), l, r, None, now).0)
  {
    RisingSuffix(s.left, Latest(s.accepted, Left), LatestEmitted(s.emitted, Left), i);
    RisingSuffix(s.right, Latest(s.accepted, Right), LatestEmitted(s.emitted, Right), j);
    hide Rising, Latest;
    var l, r := s.left[i - 1], s.right[j - 1];
    EmitIncreases(s.emitted, Bundle(s.bundleCounter + 1, Max(l.stamp, r.stamp), l, r));
  }

  lemma PairTimes(p: Policy, s: State, fault: Option<string>, now: int)
    requires TimesOk(s)
    ensures TimesOk(Pair(p, s, fault, now).0)
  {
    var i, j := SearchShape(p, s.left, s.right, now);
    hide FindPair, TimesOk;
    match FindPair(p, s.left, s.right, now)
    case Waiting(left, right) => DropTimes(s, left, right, i, j);
    case Stale => LatchTimes(s, "PAIR_STALE");
    case Found(l, r, left, right) =>
      if fault.Some? {
        DropTimes(s, left, right, i, j);
        LatchTimes(s.(left := left, right := right), fault.value);
      } else {
        EmitTimes(s, i, j, now);
      }
  }

  lemma RisingEmpty(s: State)
    requires TimesOk(s)
    ensures Rising([], Latest(s.accepted, Left), LatestEmitted(s.emitted, Left))
    ensures Rising([], Latest(s.accepted, Right), LatestEmitted(s.emitted, Right))
  {
  }

  lemma EmitIncreases(emitted: seq<Bundle>, b: Bundle)
    requires Increasing(emitted)
    requires b.tRef == Max(b.left.stamp, b.right.stamp)
    requires emitted != [] ==> emitted[|emitted| - 1].left.stamp < b.left.stamp
                               && emitted[|emitted| - 1].right.stamp < b.right.stamp
    ensures Increasing(emitted + [b])
  {
    var n := |emitted|;
    if n > 0 {
      assert emitted[n - 1] in emitted;
      assert emitted[n - 1].tRef < b.tRef;
    }
  }

  lemma LatestSide(acc: seq<Frame>, side: Side) returns (k: nat)
    requires Latest(acc, side).Some?
    ensures k < |acc| && acc[k] == Latest(acc, side).value && acc[k].side == side
    ensures forall i :: k < i < |acc| ==> acc[i].side != side
  {
    if acc[|acc| - 1].side == side {
      k := |acc| - 1;
    } else {
      k := LatestSide(acc[..|acc| - 1], side);
    }
  }

  lemma LatestGrows(acc: seq<Frame>, f: Frame, side: Side)
    ensures Latest(acc + [f], side) == if f.side == side then Some(f) else Latest(acc, side)
  {
    assert (acc + [f])[..|acc|] == acc;
  }

  /** With rising stamps a new frame is later than its side's latest. */
  lemma RisingIsLater(acc: seq<Frame>, f: Frame)
    requires StampsRise(acc + [f])
    ensures Latest(acc, f.side).Some? ==> Latest(acc, f.side).value.stamp < f.stamp
  {
    if Latest(acc, f.side).Some? {
      var k := LatestSide(acc, f.side);
      assert (acc + [f])[k] == acc[k] && (acc + [f])[|acc|] == f;
    }
  }

  lemma RememberTimes(p: Policy, s: State, f: Frame)
    requires TimesOk(s) && StampsRise(s.accepted + [f])
    ensures TimesOk(Remember(p, s, f))
    ensures var q := if f.side.Left? then s.left else s.right;
            Rising(Bounded(p, Insert(q, f)), Some(f), LatestEmitted(s.emitted, f.side))
  {
    RisingIsLater(s.accepted, f);
    RisingEnqueue(p, if f.side.Left? then s.left else s.right, Latest(s.accepted, f.side),
                  LatestEmitted(s.emitted, f.side), f);
    LatestGrows(s.accepted, f, Left);
    LatestGrows(s.accepted, f, Right);
    hide Rising, Latest, Last, ToSet, StampsRise, Increasing, Bounded, Insert;
  }

  lemma TimesCarry(s: State, s': State)
    requires TimesOk(s) && SameMemory(s, s'.(epochs := s.epochs))
    requires s'.left == s.left && s'.right == s.right && s'.emitted == s.emitted
    ensures TimesOk(s')
  {
    hide Rising, Latest, Increasing;
  }

  /** A check either refuses the frame or enters it in the memory. */
  lemma CheckCases(p: Policy, s: State, f: Frame, now: int)
    ensures var c := Check(p, s, f, now);
            || (c.fault.Some? && (c.s == s || c.s == Adopt(s, f)))
            || (!TimeJump(s, f) && c == Checked(Remember(p, Adopt(s, f), f), f.contentFault))
  {
    hide Remember, Refused;
  }

  /** The check keeps the times, and a frame it lets through can be queued. */
  lemma CheckTimes(p: Policy, s: State, f: Frame, now: int)
    requires TimesOk(s) && StampsRise(Check(p, s, f, now).s.accepted)
    ensures TimesOk(Check(p, s, f, now).s)
    ensures Check(p, s, f, now).fault.None? ==>
              var q := if f.side.Left? then s.left else s.right;
              Rising(Bounded(p, Insert(q, f)), Some(f), LatestEmitted(s.emitted, f.side))
              && Latest(Check(p, s, f, now).s.accepted, f.side) == Some(f)
  {
    CheckCases(p, s, f, now);
    var s1 := Adopt(s, f);
    TimesCarry(s, s1);
    LatestGrows(s.accepted, f, f.side);
    hide Check, TimesOk, Rising, Latest, LatestEmitted, StampsRise, Bounded, Insert, Refused, Last, ToSet;
    if Check(p, s, f, now).s == Remember(p, s1, f) && StampsRise(s.accepted + [f]) {
      RememberTimes(p, s1, f);
    }
  }

  lemma EnqueueTimes(p: Policy, s: State, f: Frame)
    requires TimesOk(s) && Latest(s.accepted, f.side) == Some(f)
    requires var q := if f.side.Left? then s.left else s.right;
             Rising(Bounded(p, Insert(q, f)), Some(f), LatestEmitted(s.emitted, f.side))
    ensures TimesOk(Enqueue(p, s, f))
  {
    hide Rising, Latest, Bounded, Insert, Increasing;
  }

  lemma FreshnessTimes(p: Policy, s: State, now: int)
    requires TimesOk(s)
    ensures TimesOk(CheckFreshness(p, s, now))
  {
    hide TimesOk, Overdue;
    if s.latched.None? && Overdue(p, s, now).Some? {
      LatchTimes(s, Overdue(p, s, now).value);
    }
  }

  lemma PushTimes(p: Policy, s: State, f: Frame, fault: Option<string>, now: int)
    requires TimesOk(s) && StampsRise(Push(p, s, f, fault, now).0.accepted)
    ensures TimesOk(Push(p, s, f, fault, now).0)
  {
    PushMemory(p, s, f, fault, now);
    if s.latched.None? {
      CheckTimes(p, s, f, now);
      CheckKeepsQueues(p, s, f, now);
      hide Check, TimesOk, Rising, Pair, CheckFreshness, Enqueue, Bounded, Insert, Latest, StampsRise;
      var c := Check(p, s, f, now);
      if c.fault == Some(DUPLICATE) {
      } else if c.fault.Some? {
        LatchTimes(c.s, c.fault.value);
      } else {
        var s0 := Arrive(c.s, f, now);
        TimesCarry(c.s, s0);
        FreshnessTimes(p, s0, now);
        var s1 := CheckFreshness(p, s0, now);
        if s1.latched.None? {
          assert s1 == s0 by { FreshnessLatches(p, s0, now); }
          EnqueueTimes(p, s1, f);
          PairTimes(p, Enqueue(p, s1, f), fault, now);
        }
      }
    }
  }

  lemma FreshnessLatches(p: Policy, s: State, now: int)
    ensures CheckFreshness(p, s, now).latched.None? ==> CheckFreshness(p, s, now) == s
  {
    hide Overdue;
  }

  lemma AcceptedGrows(p: Policy, s: State, e: Event)
    ensures |s.accepted| <= |Step(p, s, e).accepted| && Step(p, s, e).accepted[..|s.accepted|] == s.accepted
  {
    if e.Pushed? {
      PushMemory(p, s, e.f, e.fuseFault, e.now);
      hide Push, Last, ToSet, Refused;
    } else {
      hide Overdue;
    }
  }

  /** In a run whose accepted frames have rising stamps a side, the bundles' reference times increase. */
  lemma {:induction false} ReferenceTimesIncrease(p: Policy, events: seq<Event>)
    requires StampsRise(Run(p, events).accepted)
    ensures TimesOk(Run(p, events))
  {
    if events != [] {
      var s, e := Run(p, events[..|events| - 1]), events[|events| - 1];
      AcceptedGrows(p, s, e);
      assert StampsRise(s.accepted) by {
        assert forall i :: 0 <= i < |s.accepted| ==> s.accepted[i] == Step(p, s, e).accepted[i];
      }
      hide Push, TimesOk, StampsRise;
      ReferenceTimesIncrease(p, events[..|events| - 1]);
      match e
      case Pushed(f, fault, now) => PushTimes(p, s, f, fault, now);
      case Freshness(now) => FreshnessTimes(p, s, now);
      case Latched(reason) => LatchTimes(s, reason);
      case Resumed(granted) =>
        LatchTimes(s, "");
        TimesCarry(if granted then Latch(s, "") else s, Resume(s, granted));
    }
  }

  // ----- when stamps rise -----

  ghost predicate HighOk(accepted: seq<Frame>, high: map<Stream, Newest>, side: Side) {
    var latest := Latest(accepted, side);
    && (latest.Some? ==> latest.value.side == side && latest.value.Origin() in high
                         && high[latest.value.Origin()] == Newest(latest.value.sequence, latest.value.stamp))
    && (latest.None? ==> forall stream :: stream in high ==> stream.side != side)
  }

  ghost predicate HighsOk(s: State) {
    StampsRise(s.accepted) && HighOk(s.accepted, s.stampHigh, Left) && HighOk(s.accepted, s.stampHigh, Right)
  }

  /** In order, a frame that passes the time-jump guard is later than its side's latest. */
  lemma InOrderIsLater(s: State, f: Frame)
    requires InOrder(s.accepted + [f]) && HighOk(s.accepted, s.stampHigh, f.side) && !TimeJump(s, f)
    ensures Latest(s.accepted, f.side).Some? ==>
              Latest(s.accepted, f.side).value.stamp < f.stamp && Latest(s.accepted, f.side).value.sequence < f.sequence
              && Latest(s.accepted, f.side).value.Origin() == f.Origin()
  {
    if Latest(s.accepted, f.side).Some? {
      var k := LatestSide(s.accepted, f.side);
      assert (s.accepted + [f])[k] == s.accepted[k] && (s.accepted + [f])[|s.accepted|] == f;
    }
  }

  lemma RememberHigh(p: Policy, s: State, f: Frame, side: Side)
    requires HighOk(s.accepted, s.stampHigh, side)
    requires side == f.side && Latest(s.accepted, side).Some? ==>
               Latest(s.accepted, side).value.sequence < f.sequence && Latest(s.accepted, side).value.Origin() == f.Origin()
    ensures HighOk(Remember(p, s, f).accepted, Remember(p, s, f).stampHigh, side)
  {
    LatestGrows(s.accepted, f, side);
    hide Latest, Last, ToSet;
  }

  /** A frame later than its side's latest is later than every one of that side. */
  lemma LaterRises(acc: seq<Frame>, f: Frame)
    requires StampsRise(acc) && (Latest(acc, f.side).Some? ==> Latest(acc, f.side).value.stamp < f.stamp)
    ensures StampsRise(acc + [f])
  {
    if Latest(acc, f.side).Some? {
      var k := LatestSide(acc, f.side);
      assert forall i :: 0 <= i < |acc| && acc[i].side == f.side ==> acc[i].stamp <= acc[k].stamp;
    } else {
      NoneOfSide(acc, f.side);
    }
  }

  lemma {:induction false} NoneOfSide(acc: seq<Frame>, side: Side)
    requires Latest(acc, side).None?
    ensures forall i :: 0 <= i < |acc| ==> acc[i].side != side
  {
    if acc != [] {
      NoneOfSide(acc[..|acc| - 1], side);
    }
  }

  lemma CheckHighs(p: Policy, s: State, f: Frame, now: int)
    requires HighsOk(s) && InOrder(Check(p, s, f, now).s.accepted)
    ensures HighsOk(Check(p, s, f, now).s)
  {
    CheckCases(p, s, f, now);
    var s1 := Adopt(s, f);
    hide Check, StampsRise, InOrder, HighOk, Latest, Refused, Last, ToSet, TimeJump;
    if Check(p, s, f, now).s == Remember(p, s1, f) && !TimeJump(s, f) {
      assert HighOk(s.accepted, s.stampHigh, f.side) by {
        if f.side.Left? {} else {}
      }
      InOrderIsLater(s, f);
      LaterRises(s.accepted, f);
      RememberHigh(p, s1, f, Left);
      RememberHigh(p, s1, f, Right);
    }
  }

  /**
   One stream a side with increasing sequence numbers is enough: the time-jump guard then makes the
   stamps of each side rise.
   */
  lemma {:induction false} InOrderStampsRise(p: Policy, events: seq<Event>)
    requires InOrder(Run(p, events).accepted)
    ensures HighsOk(Run(p, events))
  {
    if events != [] {
      var s, e := Run(p, events[..|events| - 1]), events[|events| - 1];
      AcceptedGrows(p, s, e);
      assert InOrder(s.accepted) by {
        assert forall i :: 0 <= i < |s.accepted| ==> s.accepted[i] == Step(p, s, e).accepted[i];
      }
      hide Push, HighOk, InOrder, StampsRise, Check;
      InOrderStampsRise(p, events[..|events| - 1]);
      if e.Pushed? {
        PushMemory(p, s, e.f, e.fuseFault, e.now);
        if s.latched.None? {
          CheckHighs(p, s, e.f, e.now);
        }
      }
    }
  }

  // ----- where the guarantees end -----

  lemma {:induction false} HighInAtMost(acc: seq<Frame>, stream: Stream, bound: int)
    requires bound >= -1 && forall f :: f in acc && f.Origin() == stream ==> f.sequence <= bound
    ensures HighIn(acc, stream) <= bound
  {
    if acc != [] {
      HighInAtMost(acc[..|acc| - 1], stream, bound);
    }
  }

  /** One frame of the left stream, its close neighbours, frames of the right side, and itself again. */
  function Replayed(q: nat, k: nat): Frame {
    if k == 0 || k > q * 16 then Numbered(Left, q * 4)
    else if k < q * 4 then Numbered(Left, k)
    else if k < q * 8 - 1 then Numbered(Left, k + 1)
    else Numbered(Right, k)
  }

  /** A frame stamped with its own number. */
  function Numbered(side: Side, n: nat): Frame {
    Frame(side, "e", n, n, 0, None, None)
  }

  function ReplayedFrames(q: nat): seq<Frame> {
    seq(q * 16 + 2, k requires 0 <= k => Replayed(q, k))
  }

  function ReplayedEvents(q: nat): seq<Event> {
    seq(q * 16 + 2, k requires 0 <= k => Pushed(Replayed(q, k), None, 0))
  }

  lemma {:induction false} ReplayedOthers(q: nat, acc: seq<Frame>, b: nat)
    requires q >= 1 && acc == ReplayedFrames(q)
    requires 1 <= b <= q * 16 + 1
    ensures Others(acc, 1, b, Stream(Left, "e")) == if b < q * 8 then 0 else b - (q * 8 - 1)
  {
    if b > 1 {
      ReplayedOthers(q, acc, b - 1);
    }
  }

  lemma ReplayedFresh(p: Policy, acc: seq<Frame>, j: nat)
    requires p.maxQueue >= 1 && acc == ReplayedFrames(p.maxQueue)
    requires j < |acc|
    ensures Fresh(p, acc[..j], acc[j])
  {
    var q, f := p.maxQueue, acc[j];
    var keys := Identities(acc[..j]);
    forall k | k in Last(keys, q * 16) ensures k != f.Identity() {
      var i :| 0 <= i < |Last(keys, q * 16)| && Last(keys, q * 16)[i] == k;
      var at := if |keys| <= q * 16 then i else i + |keys| - q * 16;
      assert k == acc[at].Identity();
    }
    HighInAtMost(acc[..j], f.Origin(), if j == 0 then -1 else if j < q * 4 then q * 4
                                       else if j <= q * 16 then f.sequence - 1 else q * 8 - 1);
  }

  /** All clocks stand at zero. */
  ghost predicate AtZero(s: State) {
    && (forall side :: side in s.lastSeen ==> s.lastSeen[side] == 0)
    && (s.started.Some? ==> s.started.value == 0) && (s.lastBundle.Some? ==> s.lastBundle.value == 0)
  }

  ghost predicate HostsZero(q: seq<Frame>) {
    forall f :: f in q ==> f.hostTime == 0
  }

  /** No time has passed, one epoch is in use, and every newest stamp is its frame's own number. */
  ghost predicate Untimed(s: State) {
    && s.latched.None? && AtZero(s) && HostsZero(s.left) && HostsZero(s.right)
    && (forall side :: side in s.epochs ==> s.epochs[side] == "e")
    && (forall stream :: stream in s.stampHigh ==> s.stampHigh[stream].stamp == s.stampHigh[stream].sequence)
  }

  lemma ZeroIsFresh(p: Policy, s: State)
    requires AtZero(s)
    ensures CheckFreshness(p, s, 0) == s
  {
  }

  lemma {:induction false} ZeroIsNotStale(p: Policy, left: seq<Frame>, right: seq<Frame>)
    requires HostsZero(left) && HostsZero(right)
    ensures !FindPair(p, left, right, 0).Stale?
    decreases |left| + |right|
  {
    if left != [] && right != [] {
      assert left[0] in left && right[0] in right;
      ZeroIsNotStale(p, left[1..], right);
      ZeroIsNotStale(p, left, right[1..]);
    }
  }

  lemma UntimedPair(p: Policy, s: State)
    requires Untimed(s)
    ensures Untimed(Pair(p, s, None, 0).0)
  {
    ZeroIsNotStale(p, s.left, s.right);
    var i, j := SearchShape(p, s.left, s.right, 0);
    hide FindPair;
  }

  lemma {:induction false} InsertMembers(q: seq<Frame>, f: Frame)
    ensures forall g :: g in Insert(q, f) ==> g in q || g == f
  {
    if q != [] {
      InsertMembers(q[1..], f);
    }
  }

  lemma UntimedEnqueue(p: Policy, s: State, f: Frame)
    requires Untimed(s) && f.hostTime == 0
    ensures Untimed(Enqueue(p, s, f))
  {
    var q := if f.side.Left? then s.left else s.right;
    InsertMembers(q, f);
    assert HostsZero(Bounded(p, Insert(q, f)));
    hide Insert, AtZero, Bounded;
  }

  /** A fresh numbered frame passes every check. */
  lemma NumberedChecked(p: Policy, s: State, side: Side, n: nat)
    requires Untimed(s) && RememberedOk(p, s) && Fresh(p, s.accepted, Numbered(side, n))
    ensures var f := Numbered(side, n);
            Check(p, s, f, 0) == Checked(Remember(p, Adopt(s, f), f), None) && Untimed(Remember(p, Adopt(s, f), f))
  {
    var f := Numbered(side, n);
    assert !Refused(p, s, f.Identity());
    hide Last, ToSet, AllFresh, Identities, Distinct, HighIn, AtZero, HostsZero;
  }

  lemma NumberedPushed(p: Policy, s: State, side: Side, n: nat)
    requires Untimed(s) && RememberedOk(p, s) && Fresh(p, s.accepted, Numbered(side, n))
    ensures var s' := Push(p, s, Numbered(side, n), None, 0).0;
            Untimed(s') && s'.accepted == s.accepted + [Numbered(side, n)]
  {
    var f := Numbered(side, n);
    PushMemory(p, s, f, None, 0);
    NumberedChecked(p, s, side, n);
    hide Check, RememberedOk, Fresh, Pair, CheckFreshness, Enqueue, HostsZero, Last, ToSet;
    var s1 := Arrive(Remember(p, Adopt(s, f), f), f, 0);
    assert Untimed(s1);
    ZeroIsFresh(p, s1);
    UntimedEnqueue(p, s1, f);
    UntimedPair(p, Enqueue(p, s1, f));
  }

  lemma RunNext(p: Policy, events: seq<Event>, n: nat)
    requires n < |events|
    ensures Run(p, events[..n + 1]) == Step(p, Run(p, events[..n]), events[n])
  {
    assert events[..n + 1][..n] == events[..n];
  }

  lemma ReplayedSize(q: nat)
    ensures |ReplayedEvents(q)| == |ReplayedFrames(q)| == q * 16 + 2
  {
  }

  lemma ReplayedAt(q: nat, n: nat)
    requires 0 < n <= q * 16 + 2
    ensures var f := Replayed(q, n - 1);
            && f.sequence >= 0 && f == Numbered(f.side, f.sequence)
            && ReplayedFrames(q)[n - 1] == f && ReplayedFrames(q)[..n] == ReplayedFrames(q)[..n - 1] + [f]
            && ReplayedEvents(q)[n - 1] == Pushed(f, None, 0)
  {
  }

  /** The object accepts every one of these frames. */
  lemma {:induction false} ReplayedRun(p: Policy, n: nat)
    requires p.maxQueue >= 1 && n <= p.maxQueue * 16 + 2
    ensures var s := Run(p, ReplayedEvents(p.maxQueue)[..n]);
            Untimed(s) && s.accepted == ReplayedFrames(p.maxQueue)[..n]
  {
    hide Untimed, RememberedOk, Fresh, Push, ReplayedFrames, ReplayedEvents, Replayed, Run, Numbered;
    var q := p.maxQueue;
    if n > 0 {
      ReplayedSize(q);
      ReplayedRun(p, n - 1);
      RunNext(p, ReplayedEvents(q), n - 1);
      MemoryAlwaysOk(p, ReplayedEvents(q)[..n - 1]);
      ReplayedFresh(p, ReplayedFrames(q), n - 1);
      ReplayedAt(q, n);
      var f := Replayed(q, n - 1);
      NumberedPushed(p, Run(p, ReplayedEvents(q)[..n - 1]), f.side, f.sequence);
    } else {
      StartsUntimed(p);
    }
  }

  lemma StartsUntimed(p: Policy)
    ensures Untimed(Run(p, [])) && Run(p, []).accepted == []
  {
  }

  /**
   The bound is exact: for every policy there is a run in which `8 * maxQueue + 2` frames from
   outside its stream are accepted between two acceptances of one key.
   */
  lemma EnoughOthersBreakIt(p: Policy)
    requires p.maxQueue >= 1
    ensures var s := Run(p, ReplayedEvents(p.maxQueue));
            var acc, last := s.accepted, p.maxQueue * 16 + 1;
            && s.latched.None? && |acc| == last + 1 && acc[0] == acc[last]
            && Others(acc, 1, last, acc[0].Origin()) == p.maxQueue * 8 + 2
  {
    hide Run, AtZero, HostsZero, Others;
    var events, acc := ReplayedEvents(p.maxQueue), ReplayedFrames(p.maxQueue);
    assert acc[0] == acc[p.maxQueue * 16 + 1] == Numbered(Left, p.maxQueue * 4);
    hide ReplayedEvents, ReplayedFrames, Replayed;
    ReplayedSize(p.maxQueue);
    ReplayedRun(p, |events|);
    assert events[..|events|] == events && acc[..|acc|] == acc;
    ReplayedOthers(p.maxQueue, acc, p.maxQueue * 16 + 1);
  }

  const SHORT := Policy(20, 8, 1000)

  function Sent(side: Side, epoch: string, sequence: int, stamp: int): Event {
    Pushed(Frame(side, epoch, sequence, stamp, 0, None, None), None, 0)
  }

  ghost predicate NewStream(s: State, f: Frame) {
    && f.Origin() !in s.stampHigh && f.Origin() !in s.sequenceHigh && f.Identity() !in s.seen
    && (f.side in s.epochs ==> s.epochs[f.side] == f.epoch)
  }

  lemma FirstChecked(s: State, f: Frame)
    requires f.hostTime == 0 && f.epoch != "" && f.sequence > 0 && f.identityFault.None? && f.contentFault.None?
    requires NewStream(s, f)
    ensures Check(SHORT, s, f, 0) == Checked(Remember(SHORT, Adopt(s, f), f), None)
  {
    hide Remember;
  }

  /** The first frame of a stream at time zero waits, or pairs with the one frame waiting. */
  lemma FirstFrame(s: State, e: Event, other: seq<Frame>)
    requires e.Pushed? && e.now == 0 && e.fuseFault.None? && e.f.hostTime == 0 && e.f.epoch != "" && e.f.sequence > 0
    requires e.f.identityFault.None? && e.f.contentFault.None?
    requires s.latched.None? && AtZero(s) && NewStream(s, e.f)
    requires if e.f.side.Left? then s.left == [] && s.right == other else s.right == [] && s.left == other
    requires other == [] || (|other| == 1 && other[0].hostTime == 0 && other[0].stamp == e.f.stamp)
    ensures var s' := Step(SHORT, s, e);
            && s'.latched.None? && AtZero(s') && s'.accepted == s.accepted + [e.f]
            && s'.epochs == s.epochs[e.f.side := e.f.epoch]
            && s'.stampHigh.Keys == s.stampHigh.Keys + {e.f.Origin()}
            && s'.sequenceHigh.Keys == s.sequenceHigh.Keys + {e.f.Origin()} && s'.seen <= s.seen + {e.f.Identity()}
            && if other == [] then
                 s'.emitted == s.emitted && (if e.f.side.Left? then s'.left == [e.f] && s'.right == []
                                             else s'.right == [e.f] && s'.left == [])
               else |s'.emitted| == |s.emitted| + 1 && s'.emitted[..|s.emitted|] == s.emitted
                    && s'.emitted[|s.emitted|].tRef == e.f.stamp && s'.left == [] && s'.right == []
  {
    var f := e.f;
    var s1 := Adopt(s, f);
    var s2 := Remember(SHORT, s1, f);
    FirstChecked(s, f);
    var s3 := Arrive(s2, f, 0);
    assert AtZero(s3) by { hide Last, ToSet; }
    ZeroIsFresh(SHORT, s3);
    var s4 := Enqueue(SHORT, s3, f);
    assert Insert([], f) == [f] && Bounded(SHORT, [f]) == [f];
    hide Check, CheckFreshness, Insert, Bounded, Last, ToSet, Overdue;
    assert Push(SHORT, s, f, None, 0) == Pair(SHORT, s4, None, 0);
  }

  /** A frame of another epoch latches; after the resume only the side's epoch has changed. */
  lemma NewEpoch(s: State, e: Event)
    requires e.Pushed? && e.now == 0 && e.f.hostTime == 0 && e.f.epoch != "" && e.f.identityFault.None?
    requires s.latched.None? && e.f.side in s.epochs && s.epochs[e.f.side] != e.f.epoch
    ensures var s' := Step(SHORT, Step(SHORT, s, e), Resumed(true));
            && s'.left == [] && s'.right == [] && s'.latched.None? && AtZero(s')
            && s'.epochs == s.epochs[e.f.side := e.f.epoch] && s'.stampHigh == s.stampHigh
            && s'.sequenceHigh == s.sequenceHigh && s'.seen == s.seen
            && s'.accepted == s.accepted && s'.emitted == s.emitted
  {
    hide Remember, Pair, CheckFreshness;
  }

  /** Nothing waits, nothing is latched, and these are the epochs and known streams. */
  ghost predicate Settled(s: State, epochs: map<Side, string>, known: set<Stream>) {
    && s.left == [] && s.right == [] && s.latched.None? && AtZero(s)
    && s.epochs == epochs && s.stampHigh.Keys == known && s.sequenceHigh.Keys == known
    && forall key :: key in s.seen ==> key.stream in known
  }

  /** Two first frames of new streams, one a side, with one stamp: one bundle. */
  lemma BothSides(s: State, epoch: string, sequence: int, stamp: int, known: set<Stream>, epochs: map<Side, string>)
    requires epoch != "" && sequence > 0 && Settled(s, epochs, known)
    requires Stream(Left, epoch) !in known && Stream(Right, epoch) !in known
    requires forall side :: side in epochs ==> epochs[side] == epoch
    ensures var l, r := Sent(Left, epoch, sequence, stamp), Sent(Right, epoch, sequence, stamp);
            var s' := Step(SHORT, Step(SHORT, s, l), r);
            && Settled(s', epochs[Left := epoch][Right := epoch], known + {Stream(Left, epoch), Stream(Right, epoch)})
            && s'.accepted == s.accepted + [l.f, r.f]
            && |s'.emitted| == |s.emitted| + 1 && s'.emitted[..|s.emitted|] == s.emitted
            && s'.emitted[|s.emitted|].tRef == stamp
  {
    var l, r := Sent(Left, epoch, sequence, stamp), Sent(Right, epoch, sequence, stamp);
    hide Step, AtZero;
    FirstFrame(s, l, []);
    FirstFrame(Step(SHORT, s, l), r, [l.f]);
  }

  /** Both sides announce a new epoch; each announcement latches and is resumed. */
  lemma BothChange(s: State, old_: string, epoch: string, sequence: int, stamp: int, known: set<Stream>)
    requires old_ != epoch && epoch != "" && Settled(s, map[Left := old_, Right := old_], known)
    ensures var s' := Step(SHORT, Step(SHORT, Step(SHORT, Step(SHORT, s,
                        Sent(Left, epoch, sequence, stamp)), Resumed(true)),
                        Sent(Right, epoch, sequence, stamp)), Resumed(true));
            Settled(s', map[Left := epoch, Right := epoch], known) && s'.accepted == s.accepted && s'.emitted == s.emitted
  {
    hide Step, AtZero;
    NewEpoch(s, Sent(Left, epoch, sequence, stamp));
    NewEpoch(Step(SHORT, Step(SHORT, s, Sent(Left, epoch, sequence, stamp)), Resumed(true)),
             Sent(Right, epoch, sequence, stamp));
  }

  function EpochChange(a: string, b: string): seq<Event> {
    [Sent(Left, a, 1, 100), Sent(Right, a, 1, 100), Sent(Left, b, 2, 50), Resumed(true),
     Sent(Right, b, 2, 50), Resumed(true), Sent(Left, b, 3, 50), Sent(Right, b, 3, 50)]
  }

  lemma RunEight(e: seq<Event>)
    requires |e| == 8
    ensures Run(SHORT, e) == Step(SHORT, Step(SHORT, Step(SHORT, Step(SHORT, Step(SHORT, Step(SHORT, Step(SHORT,
                  Step(SHORT, START, e[0]), e[1]), e[2]), e[3]), e[4]), e[5]), e[6]), e[7])
  {
    assert e[..0] == [] && e[..8] == e;
    hide Step;
    RunNext(SHORT, e, 0);
    RunNext(SHORT, e, 1);
    RunNext(SHORT, e, 2);
    RunNext(SHORT, e, 3);
    RunNext(SHORT, e, 4);
    RunNext(SHORT, e, 5);
    RunNext(SHORT, e, 6);
    RunNext(SHORT, e, 7);
  }

  ghost predicate OutOfOrder(s: State) {
    && (forall i, j :: 0 <= i < j < |s.accepted| && s.accepted[i].side == s.accepted[j].side ==>
          s.accepted[i].sequence < s.accepted[j].sequence)
    && |s.emitted| == 2 && s.emitted[0].tRef == 100 && s.emitted[1].tRef == 50
  }

  /** One bundle at 100, and both sides in epoch `b`. */
  ghost predicate Changed(s: State, a: string, b: string) {
    && Settled(s, map[Left := b, Right := b], {Stream(Left, a), Stream(Right, a)})
    && s.accepted == [Sent(Left, a, 1, 100).f, Sent(Right, a, 1, 100).f]
    && |s.emitted| == 1 && s.emitted[0].tRef == 100
  }

  lemma UpToTheChange(a: string, b: string)
    requires a != "" && b != "" && a != b
    ensures Changed(Step(SHORT, Step(SHORT, Step(SHORT, Step(SHORT,
              Step(SHORT, Step(SHORT, START, Sent(Left, a, 1, 100)), Sent(Right, a, 1, 100)),
              Sent(Left, b, 2, 50)), Resumed(true)), Sent(Right, b, 2, 50)), Resumed(true)), a, b)
  {
    assert Settled(START, map[], {});
    hide Step, Settled, Sent;
    BothSides(START, a, 1, 100, {}, map[]);
    var known := {Stream(Left, a), Stream(Right, a)};
    assert {} + known == known;
    BothChange(Step(SHORT, Step(SHORT, START, Sent(Left, a, 1, 100)), Sent(Right, a, 1, 100)), a, b, 2, 50, known);
  }

  lemma AfterTheChange(s: State, a: string, b: string)
    requires a != b && b != "" && Changed(s, a, b)
    ensures OutOfOrder(Step(SHORT, Step(SHORT, s, Sent(Left, b, 3, 50)), Sent(Right, b, 3, 50)))
  {
    hide Step, Settled;
    BothSides(s, b, 3, 50, {Stream(Left, a), Stream(Right, a)}, map[Left := b, Right := b]);
    var s' := Step(SHORT, Step(SHORT, s, Sent(Left, b, 3, 50)), Sent(Right, b, 3, 50));
    assert s'.emitted[0] == s'.emitted[..1][0];
  }

  /**
   Across a change of stream epoch the reference times need not increase, although every side's
   sequence numbers do: the time-jump guard compares stamps only within one stream.
   */
  lemma EpochChangeBreaksOrder(a: string, b: string)
    requires a != "" && b != "" && a != b
    ensures OutOfOrder(Run(SHORT, EpochChange(a, b)))
  {
    hide Step, Run, Sent, OutOfOrder, Changed;
    RunEight(EpochChange(a, b));
    UpToTheChange(a, b);
    AfterTheChange(Step(SHORT, Step(SHORT, Step(SHORT, Step(SHORT,
                     Step(SHORT, Step(SHORT, START, Sent(Left, a, 1, 100)), Sent(Right, a, 1, 100)),
                     Sent(Left, b, 2, 50)), Resumed(true)), Sent(Right, b, 2, 50)), Resumed(true)), a, b);
  }
}
