/**
 What a push answers, told from the histories and the queues before it: which frames enter, which
 deadlines latch, which frame is dropped and which pair is fused (`DualFusion` in
 src/wc_fusion/core.py).
 */
module SourceAnswers {
  import opened Common
  import opened SourceFusion

  // ----- the pair found -----

  ghost predicate InWindow(p: Policy, f: Frame, g: Frame) {
    f.stamp - g.stamp <= p.maxPairNs && g.stamp - f.stamp <= p.maxPairNs
  }

  ghost predicate LongBefore(p: Policy, g: Frame, f: Frame) {
    g.stamp + p.maxPairNs < f.stamp
  }

  ghost predicate TooOld(p: Policy, g: Frame, now: int) {
    now - g.hostTime > p.maxAgeNs
  }

  /** The frames of `q` up to `k` lie long before `f`, the next one does not. */
  ghost predicate Outrun(p: Policy, q: seq<Frame>, f: Frame, k: nat) {
    k <= |q| && (forall i :: 0 <= i < k ==> LongBefore(p, q[i], f)) && (k < |q| ==> !LongBefore(p, q[k], f))
  }

  ghost predicate OldOneSeen(p: Policy, q: seq<Frame>, k: nat, now: int) {
    exists i :: 0 <= i < |q| && i <= k && TooOld(p, q[i], now)
  }

  /** The search with one frame, on either side, against the queue of the other side. */
  lemma {:induction false} SearchOne(p: Policy, f: Frame, q: seq<Frame>, now: int) returns (k: nat)
    requires !TooOld(p, f, now)
    ensures k <= |q| && Outrun(p, q, f, k)
    ensures var l, r := FindPair(p, [f], q, now), FindPair(p, q, [f], now);
            if OldOneSeen(p, q, k, now) then l == r == Stale
            else if k < |q| && InWindow(p, q[k], f) then
              l == Found(f, q[k], [], q[k + 1..]) && r == Found(q[k], f, q[k + 1..], [])
            else if k < |q| then l == Search.Waiting([], q[k..]) && r == Search.Waiting(q[k..], [])
            else l == Search.Waiting([f], []) && r == Search.Waiting([], [f])
  {
    k := 0;
    if q != [] && !TooOld(p, q[0], now) && LongBefore(p, q[0], f) {
      var k' := SearchOne(p, f, q[1..], now);
      k := k' + 1;
      assert OldOneSeen(p, q, k, now) <==> OldOneSeen(p, q[1..], k', now) by {
        if OldOneSeen(p, q, k, now) {
          var i :| 0 <= i < |q| && i <= k && TooOld(p, q[i], now);
          assert TooOld(p, q[1..][i - 1], now);
        }
        if i :| 0 <= i < |q[1..]| && i <= k' && TooOld(p, q[1..][i], now) {
          assert TooOld(p, q[i + 1], now);
        }
      }
      assert q[1..][k'..] == q[k..];
    } else if q != [] && TooOld(p, q[0], now) {
      k := FirstNotOutrun(p, q, f);
      assert OldOneSeen(p, q, k, now);
    }
  }

  lemma {:induction false} FirstNotOutrun(p: Policy, q: seq<Frame>, f: Frame) returns (k: nat)
    ensures Outrun(p, q, f, k)
  {
    k := 0;
    if q != [] && LongBefore(p, q[0], f) {
      var k' := FirstNotOutrun(p, q[1..], f);
      k := k' + 1;
      assert forall i :: 0 < i < k ==> q[i] == q[1..][i - 1];
    }
  }

  /** By stamp, then by sequence number. */
  ghost predicate Ordered(q: seq<Frame>) {
    forall i, j :: 0 <= i < j < |q| ==>
      q[i].stamp < q[j].stamp || (q[i].stamp == q[j].stamp && q[i].sequence <= q[j].sequence)
  }

  /** Every frame of `q` before `k` lies long before some of `others`. */
  ghost predicate DroppedLate(p: Policy, q: seq<Frame>, k: nat, others: seq<Frame>) {
    forall i :: 0 <= i < k <= |q| ==> exists c :: 0 <= c < |others| && LongBefore(p, q[i], others[c])
  }

  /** No frame of `q` before `k` matches any of `others`. */
  ghost predicate MatchesNone(p: Policy, q: seq<Frame>, k: nat, others: seq<Frame>) {
    forall i, c :: 0 <= i < k <= |q| && 0 <= c < |others| ==> !InWindow(p, q[i], others[c])
  }

  ghost predicate NoneOld(p: Policy, q: seq<Frame>, now: int) {
    forall i :: 0 <= i < |q| ==> !TooOld(p, q[i], now)
  }

  /**
   Sorted queues with no frame too old: the search drops only frames that match nothing, so it finds
   a pair exactly when there is one, and then the first one of both sides.
   */
  lemma {:induction false} FindsTheFirst(p: Policy, left: seq<Frame>, right: seq<Frame>, now: int)
    returns (i: nat, j: nat)
    requires Ordered(left) && Ordered(right) && NoneOld(p, left, now) && NoneOld(p, right, now)
    ensures i <= |left| && j <= |right|
    ensures MatchesNone(p, left, i, right) && MatchesNone(p, right, j, left)
    ensures DroppedLate(p, left, i, right) && DroppedLate(p, right, j, left)
    ensures var r := FindPair(p, left, right, now);
            if i < |left| && j < |right| then
              InWindow(p, left[i], right[j]) && r == Found(left[i], right[j], left[i + 1..], right[j + 1..])
            else r == Search.Waiting(left[i..], right[j..])
    decreases |left| + |right|
  {
    hide Ordered, MatchesNone, DroppedLate;
    i, j := 0, 0;
    if left == [] || right == [] || InWindow(p, left[0], right[0]) {
      NoneDropped(p, left, right);
      NoneDropped(p, right, left);
    } else if left[0].stamp < right[0].stamp {
      var i' := 0;
      TailOrdered(left);
      i', j := FindsTheFirst(p, left[1..], right, now);
      i := i' + 1;
      AddDropped(p, left, i, right, j);
      assert left[1..][i'..] == left[i..];
    } else {
      var j' := 0;
      TailOrdered(right);
      i, j' := FindsTheFirst(p, left, right[1..], now);
      j := j' + 1;
      AddDropped(p, right, j, left, i);
      assert right[1..][j'..] == right[j..];
    }
  }

  lemma NoneDropped(p: Policy, q: seq<Frame>, others: seq<Frame>)
    ensures MatchesNone(p, q, 0, others) && DroppedLate(p, q, 0, others)
  {
  }

  lemma TailOrdered(q: seq<Frame>)
    requires q != [] && Ordered(q)
    ensures Ordered(q[1..])
  {
  }

  /** One more head dropped, before the head of the other queue. */
  lemma AddDropped(p: Policy, q: seq<Frame>, k: nat, others: seq<Frame>, m: nat)
    requires 0 < k <= |q| && others != [] && m <= |others| && Ordered(others) && LongBefore(p, q[0], others[0])
    requires MatchesNone(p, q[1..], k - 1, others) && MatchesNone(p, others, m, q[1..])
    requires DroppedLate(p, q[1..], k - 1, others) && DroppedLate(p, others, m, q[1..])
    ensures MatchesNone(p, q, k, others) && MatchesNone(p, others, m, q)
    ensures DroppedLate(p, q, k, others) && DroppedLate(p, others, m, q)
  {
    assert forall c :: 0 <= c < |others| ==> !InWindow(p, q[0], others[c]) && !InWindow(p, others[c], q[0]);
    assert forall i :: 0 < i < |q| ==> q[i] == q[1..][i - 1];
    hide Ordered, InWindow, LongBefore;
    forall i | 0 <= i < k ensures exists c :: 0 <= c < |others| && LongBefore(p, q[i], others[c]) {
      if i > 0 {
        assert q[i] == q[1..][i - 1];
      }
    }
    forall i | 0 <= i < m ensures exists c :: 0 <= c < |q| && LongBefore(p, others[i], q[c]) {
      var c :| 0 <= c < |q[1..]| && LongBefore(p, others[i], q[1..][c]);
      assert q[1..][c] == q[c + 1];
    }
  }

  // ----- which frames enter -----

  /** The first accepted frame of a stream with its newest sequence number. */
  function NewestIn(acc: seq<Frame>, stream: Stream): Option<Newest> {
    if acc == [] then None
    else
      var f, before := acc[|acc| - 1], NewestIn(acc[..|acc| - 1], stream);
      if f.Origin() == stream && (before.None? || f.sequence > before.value.sequence)
      then Some(Newest(f.sequence, f.stamp)) else before
  }

  ghost predicate StampsOk(s: State) {
    forall stream :: NewestIn(s.accepted, stream) == if stream in s.stampHigh then Some(s.stampHigh[stream]) else None
  }

  lemma NewestGrows(acc: seq<Frame>, f: Frame, stream: Stream)
    ensures var before := NewestIn(acc, stream);
            NewestIn(acc + [f], stream) ==
            if f.Origin() == stream && (before.None? || f.sequence > before.value.sequence)
            then Some(Newest(f.sequence, f.stamp)) else before
  {
    assert (acc + [f])[..|acc|] == acc;
  }

  lemma RememberStamps(p: Policy, s: State, f: Frame)
    requires StampsOk(s)
    ensures StampsOk(Remember(p, s, f))
  {
    var s' := Remember(p, s, f);
    hide Last, ToSet, High, NewestIn;
    forall stream ensures NewestIn(s'.accepted, stream) ==
                          if stream in s'.stampHigh then Some(s'.stampHigh[stream]) else None
    {
      NewestGrows(s.accepted, f, stream);
    }
  }

  /** In every run each stream's newest stamp is that of the accepted frame with its newest number. */
  lemma {:induction false} StampsAlwaysOk(p: Policy, events: seq<Event>)
    ensures StampsOk(Run(p, events))
  {
    if events != [] {
      var s, e := Run(p, events[..|events| - 1]), events[|events| - 1];
      StampsAlwaysOk(p, events[..|events| - 1]);
      if e.Pushed? {
        PushMemory(p, s, e.f, e.fuseFault, e.now);
        CheckCases(p, s, e.f, e.now);
        hide Push, Check, Remember, NewestIn;
        RememberStamps(p, Adopt(s, e.f), e.f);
      } else {
        hide Push, NewestIn, Overdue;
      }
    }
  }

  /** The frame gets as far as the comparison of its epoch. */
  ghost predicate Comes(p: Policy, s: State, f: Frame, now: int) {
    s.latched.None? && f.identityFault.None? && f.hostTime <= now <= f.hostTime + p.maxAgeNs && f.epoch != ""
  }

  /** It is of its side's stream, is numbered, and is later than the newest accepted one when its number is. */
  ghost predicate Continues(s: State, f: Frame) {
    && (f.side in s.epochs ==> s.epochs[f.side] == f.epoch) && f.sequence >= 0
    && var newest := NewestIn(s.accepted, f.Origin());
       newest.Some? && newest.value.sequence < f.sequence ==> newest.value.stamp < f.stamp
  }

  ghost predicate Enters(p: Policy, s: State, f: Frame, now: int) {
    Comes(p, s, f, now) && Continues(s, f) && Fresh(p, s.accepted, f)
  }

  lemma FreshExactly(p: Policy, s: State, f: Frame)
    requires MemoryOk(p, s) && f.sequence >= 0
    ensures Fresh(p, s.accepted, f) <==> !Refused(p, s, f.Identity())
  {
    hide Last, Identities, HighIn;
  }

  lemma ChecksExactly(p: Policy, s: State, f: Frame, now: int)
    requires s.latched.None? && MemoryOk(p, s) && StampsOk(s)
    ensures var c := Check(p, s, f, now);
            && c.s.epochs == (if Comes(p, s, f, now) then s.epochs[f.side := f.epoch] else s.epochs)
            && if Enters(p, s, f, now) then c == Checked(Remember(p, Adopt(s, f), f), f.contentFault)
               else c.s == s.(epochs := c.s.epochs) && c.fault.Some?
                    && (Comes(p, s, f, now) && Continues(s, f) ==> c.fault == Some(DUPLICATE))
                    && (Comes(p, s, f, now) && !Continues(s, f) ==> c.fault != Some(DUPLICATE))
  {
    hide MemoryOk, Fresh, NewestIn, Refused, High, Last, ToSet;
    MemoryIgnoresEpochs(p, s, f);
    if f.sequence >= 0 {
      FreshExactly(p, Adopt(s, f), f);
    }
  }

  lemma MemoryIgnoresEpochs(p: Policy, s: State, f: Frame)
    requires MemoryOk(p, s)
    ensures MemoryOk(p, Adopt(s, f))
  {
    assert forall stream :: High(Adopt(s, f), stream) == High(s, stream);
    hide HighIn, Last, Identities, Distinct, ToSet;
  }

  ghost predicate Emptied(s: State, reason: string) {
    s.left == [] && s.right == [] && s.latched == if reason == "" then None else Some(reason)
  }

  /** `s'` is `s` but for its epochs, its queues and its latch. */
  ghost predicate OnlyLatches(s: State, s': State) {
    s' == s.(epochs := s'.epochs, latched := s'.latched, left := s'.left, right := s'.right)
  }

  /**
   In every run a pushed frame is entered exactly when nothing is latched, its identity holds, it is
   neither early nor too old, it continues its side's stream, and it is neither among the last keys
   nor too old for its stream. Any other frame is refused: a repeated one changes nothing else, and
   every other fault empties the queues and latches its text.
   */
  lemma EntersExactly(p: Policy, events: seq<Event>, f: Frame, fault: Option<string>, now: int)
    requires p.maxQueue >= 1
    ensures var s := Run(p, events);
            var (s', reply) := Push(p, s, f, fault, now);
            && s'.accepted == (if Enters(p, s, f, now) then s.accepted + [f] else s.accepted)
            && s'.epochs == (if Comes(p, s, f, now) then s.epochs[f.side := f.epoch] else s.epochs)
            && (!Enters(p, s, f, now) ==>
                  reply.Raised?
                  && if s.latched.Some? then s' == s
                     else if (Comes(p, s, f, now) && Continues(s, f)) || f.identityFault == Some(DUPLICATE) then s' == s.(epochs := s'.epochs)
                     else OnlyLatches(s, s') && Emptied(s', reply.reason))
  {
    var s := Run(p, events);
    MemoryAlwaysOk(p, events);
    StampsAlwaysOk(p, events);
    assert s.latched.Some? ==> !Comes(p, s, f, now) && !Enters(p, s, f, now);
    hide Run, Enters, Comes, Continues, Check, MemoryOk, AllFresh, StampsOk, Pair, CheckFreshness, Enqueue, Arrive;
    PushMemory(p, s, f, fault, now);
    if s.latched.None? {
      ChecksExactly(p, s, f, now);
      if !Comes(p, s, f, now) {
        OnlyByIdentity(p, s, f, now);
      }
    }
  }

  lemma OnlyByIdentity(p: Policy, s: State, f: Frame, now: int)
    requires s.latched.None? && !Comes(p, s, f, now)
    ensures Check(p, s, f, now).fault == Some(DUPLICATE) <==> f.identityFault == Some(DUPLICATE)
  {
  }

  // ----- the deadlines -----

  ghost predicate Silent(p: Policy, seen: int, now: int) {
    now < seen || seen + p.maxAgeNs < now
  }

  ghost predicate SideSilent(p: Policy, started: int, lastSeen: map<Side, int>, side: Side, now: int) {
    Silent(p, if side in lastSeen then lastSeen[side] else started, now)
  }

  ghost predicate NoBundle(p: Policy, started: int, lastBundle: Option<int>, now: int) {
    (if lastBundle.Some? then lastBundle.value else started) + p.maxAgeNs < now
  }

  ghost predicate Missed(p: Policy, started: int, lastSeen: map<Side, int>, lastBundle: Option<int>, now: int) {
    (exists side :: SideSilent(p, started, lastSeen, side, now)) || NoBundle(p, started, lastBundle, now)
  }

  /** What a missed deadline says: the silent side, the left one first, or the missing bundle. */
  ghost predicate Names(p: Policy, started: int, lastSeen: map<Side, int>, now: int, reason: string) {
    reason == if SideSilent(p, started, lastSeen, Left, now) then "SOURCE_TIMEOUT:left"
              else if SideSilent(p, started, lastSeen, Right, now) then "SOURCE_TIMEOUT:right" else "PAIR_STREAM_TIMEOUT"
  }

  /** A call of the freshness check latches exactly when a side is silent or no bundle came in time. */
  lemma DeadlinesExactly(p: Policy, s: State, now: int)
    ensures var s' := Step(p, s, Freshness(now));
            if s.latched.None? && s.started.Some? && Missed(p, s.started.value, s.lastSeen, s.lastBundle, now) then
              OnlyLatches(s, s') && s'.epochs == s.epochs && s'.latched.Some? && Emptied(s', s'.latched.value)
              && Names(p, s.started.value, s.lastSeen, now, s'.latched.value)
            else s' == s
  {
    if s.started.Some? && Missed(p, s.started.value, s.lastSeen, s.lastBundle, now) {
      assert SideSilent(p, s.started.value, s.lastSeen, Left, now) || SideSilent(p, s.started.value, s.lastSeen, Right, now)
             || NoBundle(p, s.started.value, s.lastBundle, now) by {
        if side :| SideSilent(p, s.started.value, s.lastSeen, side, now) {
          match side
          case Left =>
          case Right =>
        }
      }
    } else if s.started.Some? {
      assert !SideSilent(p, s.started.value, s.lastSeen, Left, now);
      assert !SideSilent(p, s.started.value, s.lastSeen, Right, now);
    }
  }

  // ----- one push -----

  function Opposite(side: Side): Side {
    if side.Left? then Right else Left
  }

  function Waiting(s: State, side: Side): seq<Frame> {
    if side.Left? then s.left else s.right
  }

  /** `q'` is `q` with `f` behind every frame not later than it, less its oldest beyond the bound. */
  ghost predicate Queued(p: Policy, q: seq<Frame>, f: Frame, q': seq<Frame>) {
    exists k :: QueuedAt(p, q, f, q', k)
  }

  ghost predicate QueuedAt(p: Policy, q: seq<Frame>, f: Frame, q': seq<Frame>, k: nat) {
    && k <= |q|
    && (forall i :: 0 <= i < k ==> q[i].stamp < f.stamp || (q[i].stamp == f.stamp && q[i].sequence <= f.sequence))
    && (k < |q| ==> q[k].stamp > f.stamp || (q[k].stamp == f.stamp && q[k].sequence > f.sequence))
    && var all := q[..k] + [f] + q[k..];
       q' == if |all| > p.maxQueue then all[|all| - p.maxQueue..] else all
  }

  /** What the object has handed out. */
  datatype Books = Books(emitted: seq<Bundle>, counter: nat, last: Option<int>)

  function Handed(s: State): Books {
    Books(s.emitted, s.bundleCounter, s.lastBundle)
  }

  /** `f` is fused with `g`, or latches when the fusion fails. */
  ghost predicate Joins(b: Books, f: Frame, g: Frame, rest: seq<Frame>, fault: Option<string>, now: int, s': State, reply: Reply) {
    if fault.Some? then reply == Raised(fault.value) && Emptied(s', fault.value) && Handed(s') == b
    else
      && reply == Fused(Bundle(b.counter + 1, if f.stamp < g.stamp then g.stamp else f.stamp,
                               if f.side.Left? then f else g, if f.side.Left? then g else f))
      && Handed(s') == Books(b.emitted + [reply.bundle], b.counter + 1, Some(now)) && s'.latched.None?
      && Waiting(s', f.side) == [] && Waiting(s', Opposite(f.side)) == rest
  }

  /** Nothing is fused and nothing latches; what waits is this. */
  ghost predicate Waits(b: Books, side: Side, own: seq<Frame>, other: seq<Frame>, s': State, reply: Reply) {
    && reply == Nothing && Handed(s') == b && s'.latched.None?
    && Waiting(s', side) == own && Waiting(s', Opposite(side)) == other
  }

  ghost predicate GoesStale(b: Books, s': State, reply: Reply) {
    reply == Raised("PAIR_STALE") && Emptied(s', "PAIR_STALE") && Handed(s') == b
  }

  /**
   The pairing of an admitted frame, `k` frames of the other side lying long before it. With nothing
   on the other side it is queued. Otherwise these are dropped, a too old frame among them and the
   next one latches, and the next one is fused when it is in the window; else the earlier of the two
   is dropped.
   */
  ghost predicate PairsAt(p: Policy, s: State, f: Frame, fault: Option<string>, now: int, s': State, reply: Reply, k: nat) {
    var other := Waiting(s, Opposite(f.side));
    if other == [] then
      Queued(p, Waiting(s, f.side), f, Waiting(s', f.side))
      && Waits(Handed(s), f.side, Waiting(s', f.side), [], s', reply)
    else
      && Outrun(p, other, f, k)
      && if OldOneSeen(p, other, k, now) then GoesStale(Handed(s), s', reply)
         else if k < |other| && InWindow(p, other[k], f) then Joins(Handed(s), f, other[k], other[k + 1..], fault, now, s', reply)
         else if k < |other| then Waits(Handed(s), f.side, [], other[k..], s', reply)
         else Waits(Handed(s), f.side, [f], [], s', reply)
  }

  lemma QueuesExactly(p: Policy, q: seq<Frame>, f: Frame)
    requires Sorted(q)
    ensures Queued(p, q, f, Bounded(p, Insert(q, f)))
  {
    var k := InsertPlace(q, f);
    assert QueuedAt(p, q, f, Bounded(p, Insert(q, f)), k);
  }

  lemma FusesExactly(s: State, f: Frame, g: Frame, rest: seq<Frame>, fault: Option<string>, now: int)
    requires s.latched.None? && g.side == Opposite(f.side)
    requires Waiting(s, f.side) == [] && Waiting(s, Opposite(f.side)) == rest
    ensures var (s', reply) := Fuse(s, if f.side.Left? then f else g, if f.side.Left? then g else f, fault, now);
            Joins(Handed(s), f, g, rest, fault, now, s', reply)
  {
  }

  /** One frame against a queue of the other side. */
  lemma PairsWithOne(p: Policy, s: State, f: Frame, q: seq<Frame>, fault: Option<string>, now: int) returns (k: nat)
    requires s.latched.None? && !TooOld(p, f, now) && q != [] && forall g :: g in q ==> g.side == Opposite(f.side)
    requires Waiting(s, f.side) == [f] && Waiting(s, Opposite(f.side)) == q
    ensures var (s', reply) := Pair(p, s, fault, now);
            && Outrun(p, q, f, k)
            && if OldOneSeen(p, q, k, now) then GoesStale(Handed(s), s', reply)
               else if k < |q| && InWindow(p, q[k], f) then Joins(Handed(s), f, q[k], q[k + 1..], fault, now, s', reply)
               else if k < |q| then Waits(Handed(s), f.side, [], q[k..], s', reply)
               else Waits(Handed(s), f.side, [f], [], s', reply)
  {
    hide FindPair, Outrun, OldOneSeen, InWindow, Fuse, Joins;
    k := SearchOne(p, f, q, now);
    if k < |q| {
      assert q[k] in q;
      var rest := q[k + 1..];
      var s1 := s.(left := if f.side.Left? then [] else rest, right := if f.side.Left? then rest else []);
      FusesExactly(s1, f, q[k], rest, fault, now);
      assert Handed(s1) == Handed(s);
    }
  }

  lemma PairsExactly(p: Policy, s: State, f: Frame, fault: Option<string>, now: int) returns (k: nat)
    requires p.maxQueue >= 1 && QueuesOk(p, s) && s.latched.None? && !TooOld(p, f, now)
    ensures var (s', reply) := Pair(p, Enqueue(p, s, f), fault, now);
            PairsAt(p, s, f, fault, now, s', reply, k)
  {
    hide Outrun, OldOneSeen, InWindow, Joins, GoesStale, Sorted, Queued, Pair;
    var own, other := Waiting(s, f.side), Waiting(s, Opposite(f.side));
    var s1 := Enqueue(p, s, f);
    assert Handed(s1) == Handed(s);
    assert other == Waiting(s1, Opposite(f.side));
    k := 0;
    if other != [] {
      assert own == [] && Bounded(p, Insert([], f)) == [f];
      k := PairsWithOne(p, s1, f, other, fault, now);
    } else {
      QueuesExactly(p, own, f);
      WaitsAlone(p, s1, f, fault, now);
    }
  }

  /** With nothing on the other side. */
  lemma WaitsAlone(p: Policy, s: State, f: Frame, fault: Option<string>, now: int)
    requires Waiting(s, Opposite(f.side)) == [] && s.latched.None?
    ensures Pair(p, s, fault, now) == (s, Nothing)
  {
    assert FindPair(p, s.left, s.right, now) == Search.Waiting(s.left, s.right);
  }

  lemma PairKeepsClocks(p: Policy, s: State, fault: Option<string>, now: int)
    ensures var s' := Pair(p, s, fault, now).0;
            s'.started == s.started && s'.lastSeen == s.lastSeen
  {
    hide FindPair;
  }

  /** The newest acquisition time of a side after one of its frames arrived. */
  ghost predicate SeenAfter(lastSeen: map<Side, int>, f: Frame, lastSeen': map<Side, int>) {
    lastSeen' == lastSeen[f.side := if f.side in lastSeen && f.hostTime < lastSeen[f.side]
                                    then lastSeen[f.side] else f.hostTime]
  }

  /** The clocks after an arrival, and what is answered: a missed deadline, or the pairing. */
  ghost predicate Arrives(p: Policy, s: State, f: Frame, fault: Option<string>, now: int, s': State, reply: Reply, k: nat) {
    && s'.started == (if s.started.Some? then s.started else Some(now))
    && SeenAfter(s.lastSeen, f, s'.lastSeen)
    && if Missed(p, s'.started.value, s'.lastSeen, s.lastBundle, now) then
         reply.Raised? && Names(p, s'.started.value, s'.lastSeen, now, reply.reason) && Emptied(s', reply.reason)
         && Handed(s') == Handed(s)
       else PairsAt(p, s, f, fault, now, s', reply, k)
  }

  lemma ArrivesExactly(p: Policy, s: State, f: Frame, fault: Option<string>, now: int) returns (k: nat)
    requires p.maxQueue >= 1 && QueuesOk(p, s) && s.latched.None? && !TooOld(p, f, now)
    ensures var s1 := CheckFreshness(p, Arrive(s, f, now), now);
            var (s', reply) := if s1.latched.Some? then (s1, Raised(s1.latched.value))
                               else Pair(p, Enqueue(p, s1, f), fault, now);
            Arrives(p, s, f, fault, now, s', reply, k)
  {
    var s0 := Arrive(s, f, now);
    assert SeenAfter(s.lastSeen, f, s0.lastSeen);
    DeadlinesExactly(p, s0, now);
    assert QueuesOk(p, s0);
    assert Handed(s0) == Handed(s) && s0.left == s.left && s0.right == s.right
           && s0.started == (if s.started.Some? then s.started else Some(now));
    hide QueuesOk, Pair, PairsAt, Missed, Names, CheckFreshness, SeenAfter, Arrive;
    k := 0;
    if CheckFreshness(p, s0, now).latched.None? {
      FreshnessLatches(p, s0, now);
      k := PairsExactly(p, s0, f, fault, now);
      PairKeepsClocks(p, Enqueue(p, s0, f), fault, now);
      var (s', reply) := Pair(p, Enqueue(p, s0, f), fault, now);
      assert PairsAt(p, s, f, fault, now, s', reply, k) by { SameToPairing(p, s, s0, f, fault, now, s', reply, k); }
    }
  }

  lemma SameToPairing(p: Policy, s: State, s0: State, f: Frame, fault: Option<string>, now: int, s': State, reply: Reply, k: nat)
    requires Handed(s0) == Handed(s) && s0.left == s.left && s0.right == s.right
    requires PairsAt(p, s0, f, fault, now, s', reply, k)
    ensures PairsAt(p, s, f, fault, now, s', reply, k)
  {
    hide Outrun, OldOneSeen, InWindow, Joins, GoesStale, Queued, Waits;
  }

  /**
   What a frame that enters does, in every run. A content fault latches. Otherwise it counts as an
   arrival, a missed deadline latches, and else it is paired, queued or dropped.
   */
  lemma PushesExactly(p: Policy, events: seq<Event>, f: Frame, fault: Option<string>, now: int) returns (k: nat)
    requires p.maxQueue >= 1 && Enters(p, Run(p, events), f, now)
    ensures var s := Run(p, events);
            var (s', reply) := Push(p, s, f, fault, now);
            if f.contentFault.Some? then
              reply == Raised(f.contentFault.value) && Handed(s') == Handed(s)
              && s'.started == s.started && s'.lastSeen == s.lastSeen
              && (reply.reason != DUPLICATE ==> Emptied(s', reply.reason))
            else Arrives(p, s, f, fault, now, s', reply, k)
  {
    var s := Run(p, events);
    MemoryAlwaysOk(p, events);
    StampsAlwaysOk(p, events);
    QueuesAlwaysOk(p, events);
    assert s.latched.None? && !TooOld(p, f, now);
    hide Run, Enters, QueuesOk, Check, MemoryOk, AllFresh, StampsOk, Pair, CheckFreshness, Enqueue, Arrive, Arrives,
         Remember, TooOld;
    ChecksExactly(p, s, f, now);
    var c := Check(p, s, f, now);
    k := 0;
    if f.contentFault.None? {
      CheckKeepsQueues(p, s, f, now);
      QueuesCarry(p, s, c.s);
      k := CheckedArrives(p, s, f, fault, now);
    } else {
      CheckKeepsClocks(p, s, f, now);
      CheckKeepsQueues(p, s, f, now);
    }
  }

  lemma QueuesCarry(p: Policy, s: State, s': State)
    requires QueuesOk(p, s) && s'.left == s.left && s'.right == s.right && s'.latched == s.latched
    ensures QueuesOk(p, s')
  {
  }

  lemma CheckKeepsClocks(p: Policy, s: State, f: Frame, now: int)
    ensures var c := Check(p, s, f, now).s;
            c.started == s.started && c.lastSeen == s.lastSeen && c.lastBundle == s.lastBundle
  {
  }

  lemma CheckedArrives(p: Policy, s: State, f: Frame, fault: Option<string>, now: int) returns (k: nat)
    requires p.maxQueue >= 1 && QueuesOk(p, Check(p, s, f, now).s) && s.latched.None? && !TooOld(p, f, now)
    requires Check(p, s, f, now).fault.None?
    ensures var (s', reply) := Push(p, s, f, fault, now);
            Arrives(p, s, f, fault, now, s', reply, k)
  {
    CheckKeepsClocks(p, s, f, now);
    CheckKeepsQueues(p, s, f, now);
    hide Check, QueuesOk, TooOld, Pair, CheckFreshness, Enqueue, Arrive, Missed, PairsAt, SeenAfter, Names;
    var c := Check(p, s, f, now).s;
    k := ArrivesExactly(p, c, f, fault, now);
    var (s', reply) := Push(p, s, f, fault, now);
    if PairsAt(p, c, f, fault, now, s', reply, k) {
      SameToPairing(p, s, c, f, fault, now, s', reply, k);
    }
  }

  /**
   In every run a frame that enters in time, with no frame waiting that is too old, is fused exactly
   when one of the other side's waiting frames is within the window, and then with the first of these.
   */
  lemma FusesWhatMatches(p: Policy, events: seq<Event>, f: Frame, now: int)
    requires p.maxQueue >= 1 && Enters(p, Run(p, events), f, now) && f.contentFault.None?
    requires NoneOld(p, Waiting(Run(p, events), Opposite(f.side)), now)
    ensures var s := Run(p, events);
            var (s', reply) := Push(p, s, f, None, now);
            var other := Waiting(s, Opposite(f.side));
            Missed(p, if s.started.Some? then s.started.value else now, s'.lastSeen, s.lastBundle, now)
            || ((reply.Fused? <==> exists i :: 0 <= i < |other| && InWindow(p, other[i], f))
                && (reply.Fused? ==>
                      exists k :: 0 <= k < |other| && InWindow(p, other[k], f)
                                  && (forall i :: 0 <= i < k ==> !InWindow(p, other[i], f))
                                  && (if f.side.Left? then reply.bundle.left == f && reply.bundle.right == other[k]
                                      else reply.bundle.right == f && reply.bundle.left == other[k])))
  {
    var s := Run(p, events);
    QueuesAlwaysOk(p, events);
    var k := PushesExactly(p, events, f, None, now);
    var other := Waiting(s, Opposite(f.side));
    assert forall i, j :: 0 <= i < j < |other| ==> other[i].stamp <= other[j].stamp;
    hide Run, Enters, Push, Missed, Queued, QueuesOk, SeenAfter, Names;
    assert k < |other| && !InWindow(p, other[k], f) && !LongBefore(p, other[k], f) ==>
             forall i :: k <= i < |other| ==> !InWindow(p, other[i], f);
  }

  /**
   A granted resume leaves what a new object has, but for the epochs, the duplicate memory and the
   number of bundles: until the next frame no deadline runs. A refused one changes nothing.
   */
  lemma ResumesAnew(p: Policy, s: State, now: int)
    ensures var s' := Step(p, s, Resumed(true));
            && s' == START.(epochs := s.epochs, seen := s.seen, seenOrder := s.seenOrder, sequenceHigh := s.sequenceHigh,
                            stampHigh := s.stampHigh, bundleCounter := s.bundleCounter,
                            accepted := s.accepted, emitted := s.emitted)
            && Step(p, s', Freshness(now)) == s' && Step(p, s, Resumed(false)) == s
  {
    DeadlinesExactly(p, Step(p, s, Resumed(true)), now);
  }
}
