/** What the bundles of `SourceFusion` are made of: pairs inside the window, each accepted frame in
    at most one of them. */
module FusedBundles {
  import opened Common
  import opened SourceFusion

  /** A left and a right frame within the pair window, at the later of their stamps. */
  predicate BundleOk(p: Policy, b: Bundle) {
    && b.left.side == Left && b.right.side == Right && Abs(b.left.stamp - b.right.stamp) <= p.maxPairNs
    && b.tRef == Max(b.left.stamp, b.right.stamp)
  }

  ghost predicate Numbered(p: Policy, s: State) {
    s.bundleCounter == |s.emitted| && forall i :: 0 <= i < |s.emitted| ==> s.emitted[i].id == i + 1 && BundleOk(p, s.emitted[i])
  }

  function Is(f: Frame, key: Key): nat {
    if f.Identity() == key then 1 else 0
  }

  predicate Contains(b: Bundle, key: Key) {
    Is(b.left, key) + Is(b.right, key) > 0
  }

  function Count(q: seq<Frame>, key: Key): nat {
    if q == [] then 0 else Is(q[0], key) + Count(q[1..], key)
  }

  function Uses(emitted: seq<Bundle>, key: Key): nat {
    if emitted == [] then 0 else Is(emitted[0].left, key) + Is(emitted[0].right, key) + Uses(emitted[1..], key)
  }

  /** A frame waits or is used at most as often as it was accepted. */
  ghost predicate Conserved(s: State, key: Key) {
    Count(s.left, key) + Count(s.right, key) + Uses(s.emitted, key) <= Count(s.accepted, key)
  }

  lemma {:induction false} CountAppend(q: seq<Frame>, f: Frame, key: Key)
    ensures Count(q + [f], key) == Count(q, key) + Is(f, key)
  {
    if q != [] {
      CountAppend(q[1..], f, key);
      assert (q + [f])[1..] == q[1..] + [f];
    } else {
      assert [f][1..] == [];
    }
  }

  lemma {:induction false} UsesAppend(emitted: seq<Bundle>, b: Bundle, key: Key)
    ensures Uses(emitted + [b], key) == Uses(emitted, key) + Is(b.left, key) + Is(b.right, key)
  {
    if emitted != [] {
      UsesAppend(emitted[1..], b, key);
      assert (emitted + [b])[1..] == emitted[1..] + [b];
    } else {
      assert [b][1..] == [];
    }
  }

  lemma {:induction false} CountInsert(q: seq<Frame>, f: Frame, key: Key)
    ensures Count(Insert(q, f), key) == Count(q, key) + Is(f, key)
  {
    if q == [] || !NotAfter(q[0], f) {
      assert ([f] + q)[1..] == q;
    } else {
      CountInsert(q[1..], f, key);
      assert ([q[0]] + Insert(q[1..], f))[1..] == Insert(q[1..], f);
    }
  }

  /** A suffix keeps what it keeps, and the frame just before it was counted too. */
  lemma {:induction false} CountSuffix(q: seq<Frame>, i: nat, key: Key)
    requires i <= |q|
    ensures Count(q[i..], key) + (if i > 0 then Is(q[i - 1], key) else 0) <= Count(q, key)
  {
    if i > 0 {
      CountSuffix(q[1..], i - 1, key);
      assert q[1..][i - 1..] == q[i..];
    }
  }

  lemma {:induction false} FoundInWindow(p: Policy, left: seq<Frame>, right: seq<Frame>, now: int)
    ensures var r := FindPair(p, left, right, now);
            r.Found? ==> Abs(r.l.stamp - r.r.stamp) <= p.maxPairNs && r.l in left && r.r in right
                         && now - Min(r.l.hostTime, r.r.hostTime) <= p.maxAgeNs
    decreases |left| + |right|
  {
    if left != [] && right != [] && now - Min(left[0].hostTime, right[0].hostTime) <= p.maxAgeNs
       && Abs(left[0].stamp - right[0].stamp) > p.maxPairNs {
      if left[0].stamp < right[0].stamp {
        FoundInWindow(p, left[1..], right, now);
      } else {
        FoundInWindow(p, left, right[1..], now);
      }
    }
  }

  /** What the search leaves in the queues, and the pair it took out of them. */
  lemma SearchConserves(p: Policy, s: State, now: int, key: Key)
    requires Conserved(s, key) && QueueOk(p, s.left, Left) && QueueOk(p, s.right, Right)
    ensures var r := FindPair(p, s.left, s.right, now);
            && (r.Waiting? ==> Count(r.left, key) + Count(r.right, key) + Uses(s.emitted, key) <= Count(s.accepted, key))
            && (r.Found? ==> r.l.side == Left && r.r.side == Right && Abs(r.l.stamp - r.r.stamp) <= p.maxPairNs
                             && Count(r.left, key) + Count(r.right, key) + Uses(s.emitted, key) + Is(r.l, key) + Is(r.r, key)
                                <= Count(s.accepted, key))
  {
    hide FindPair, Sorted, Uses, Count, NotAfter;
    var r := FindPair(p, s.left, s.right, now);
    var i, j := SearchShape(p, s.left, s.right, now);
    FoundInWindow(p, s.left, s.right, now);
    if !r.Stale? {
      CountSuffix(s.left, i, key);
      CountSuffix(s.right, j, key);
    }
  }

  lemma PairConserves(p: Policy, s: State, fault: Option<string>, now: int, key: Key)
    requires Conserved(s, key) && Numbered(p, s) && QueueOk(p, s.left, Left) && QueueOk(p, s.right, Right)
    ensures Conserved(Pair(p, s, fault, now).0, key) && Numbered(p, Pair(p, s, fault, now).0)
  {
    hide FindPair, Count, Uses, QueueOk;
    SearchConserves(p, s, now, key);
    Emptied(s, key);
    var r := FindPair(p, s.left, s.right, now);
    if r.Found? {
      UsesAppend(s.emitted, Bundle(s.bundleCounter + 1, Max(r.l.stamp, r.r.stamp), r.l, r.r), key);
    }
  }

  lemma Emptied(s: State, key: Key)
    ensures Count([], key) == 0
  {
  }

  lemma CheckAccepts(p: Policy, s: State, f: Frame, now: int)
    ensures var c := Check(p, s, f, now);
            && c.s.left == s.left && c.s.right == s.right && c.s.emitted == s.emitted && c.s.bundleCounter == s.bundleCounter
            && (c.s.accepted == s.accepted || c.s.accepted == s.accepted + [f])
            && (c.fault.None? ==> c.s.accepted == s.accepted + [f])
  {
    hide Refused, Last, ToSet, TimeJump;
  }

  lemma FreshnessConserves(p: Policy, s: State, now: int)
    ensures var s' := CheckFreshness(p, s, now);
            && s'.accepted == s.accepted && s'.emitted == s.emitted && s'.bundleCounter == s.bundleCounter
            && (if s'.latched.Some? && s.latched.None? then s'.left == [] && s'.right == [] else s'.left == s.left && s'.right == s.right)
  {
    hide Overdue;
  }

  /** The pushed frame was accepted before it is queued. */
  lemma EnqueueConserves(p: Policy, s: State, f: Frame, key: Key)
    requires Count(s.left, key) + Count(s.right, key) + Uses(s.emitted, key) + Is(f, key) <= Count(s.accepted, key)
    ensures Conserved(Enqueue(p, s, f), key)
  {
    hide Insert, Uses, Count, Is;
    BoundedConserves(p, if f.side.Left? then s.left else s.right, f, key);
  }

  lemma BoundedConserves(p: Policy, q: seq<Frame>, f: Frame, key: Key)
    ensures Count(Bounded(p, Insert(q, f)), key) <= Count(q, key) + Is(f, key)
  {
    hide Insert, Count;
    CountInsert(q, f, key);
    var r := Insert(q, f);
    if |r| > p.maxQueue {
      CountSuffix(r, |r| - p.maxQueue, key);
    }
  }

  /** Latching empties the queues and nothing else. */
  lemma LatchConserves(p: Policy, s: State, reason: string, key: Key)
    requires Conserved(s, key) && Numbered(p, s)
    ensures Conserved(Latch(s, reason), key) && Numbered(p, Latch(s, reason))
  {
    hide Count, Uses;
    Emptied(s, key);
  }

  lemma CheckConserves(p: Policy, s: State, f: Frame, now: int, key: Key)
    requires Conserved(s, key) && Numbered(p, s)
    ensures var c := Check(p, s, f, now);
            && Conserved(c.s, key) && Numbered(p, c.s) && c.s.left == s.left && c.s.right == s.right && c.s.emitted == s.emitted
            && (c.fault.None? ==> Count(s.left, key) + Count(s.right, key) + Uses(s.emitted, key) + Is(f, key) <= Count(c.s.accepted, key))
  {
    hide Check, Count, Uses;
    CheckAccepts(p, s, f, now);
    CountAppend(s.accepted, f, key);
  }

  lemma PushConserves(p: Policy, s: State, f: Frame, fault: Option<string>, now: int, key: Key)
    requires p.maxQueue >= 1 && Conserved(s, key) && Numbered(p, s) && QueuesOk(p, s)
    ensures Conserved(Push(p, s, f, fault, now).0, key) && Numbered(p, Push(p, s, f, fault, now).0)
  {
    hide Check, CheckFreshness, Pair, Enqueue, Count, Uses, Sorted, Latch, Is, Numbered;
    if s.latched.None? {
      var c := Check(p, s, f, now);
      CheckConserves(p, s, f, now, key);
      if c.fault.Some? {
        LatchConserves(p, c.s, c.fault.value, key);
      } else {
        AdmittedConserves(p, c.s, f, fault, now, key);
      }
    }
  }

  /** The part of a push after the checks. */
  lemma AdmittedConserves(p: Policy, s: State, f: Frame, fault: Option<string>, now: int, key: Key)
    requires p.maxQueue >= 1 && Numbered(p, s) && QueueOk(p, s.left, Left) && QueueOk(p, s.right, Right)
    requires Count(s.left, key) + Count(s.right, key) + Uses(s.emitted, key) + Is(f, key) <= Count(s.accepted, key)
    ensures var s1 := CheckFreshness(p, Arrive(s, f, now), now);
            if s1.latched.Some? then Conserved(s1, key) && Numbered(p, s1)
            else Conserved(Pair(p, Enqueue(p, s1, f), fault, now).0, key) && Numbered(p, Pair(p, Enqueue(p, s1, f), fault, now).0)
  {
    hide CheckFreshness, Pair, Enqueue, Count, Uses, QueueOk, Is;
    FreshnessConserves(p, Arrive(s, f, now), now);
    Emptied(s, key);
    var s1 := CheckFreshness(p, Arrive(s, f, now), now);
    if s1.latched.None? {
      EnqueueConserves(p, s1, f, key);
      EnqueueShape(p, s1, f);
      PairConserves(p, Enqueue(p, s1, f), fault, now, key);
    }
  }

  lemma EnqueueShape(p: Policy, s: State, f: Frame)
    requires p.maxQueue >= 1 && QueueOk(p, s.left, Left) && QueueOk(p, s.right, Right)
    ensures var s' := Enqueue(p, s, f);
            && s'.emitted == s.emitted && s'.bundleCounter == s.bundleCounter
            && QueueOk(p, s'.left, Left) && QueueOk(p, s'.right, Right)
  {
    EnqueueOk(p, if f.side.Left? then s.left else s.right, f);
    hide Insert, Sorted;
  }

  lemma OthersConserve(p: Policy, s: State, e: Event, key: Key)
    requires Conserved(s, key) && Numbered(p, s) && !e.Pushed?
    ensures Conserved(Step(p, s, e), key) && Numbered(p, Step(p, s, e))
  {
    if e.Freshness? {
      FreshnessConserves(p, s, e.now);
    }
    Emptied(s, key);
    hide Count, Uses, CheckFreshness;
  }

  lemma {:induction false} AlwaysConserved(p: Policy, events: seq<Event>, key: Key)
    requires p.maxQueue >= 1
    ensures Conserved(Run(p, events), key) && Numbered(p, Run(p, events))
  {
    if events != [] {
      hide Step, QueuesOk, Conserved, Numbered;
      var s, e := Run(p, events[..|events| - 1]), events[|events| - 1];
      AlwaysConserved(p, events[..|events| - 1], key);
      QueuesAlwaysOk(p, events[..|events| - 1]);
      if e.Pushed? {
        PushConserves(p, s, e.f, e.fuseFault, e.now, key);
        StepPushes(p, s, e);
      } else {
        OthersConserve(p, s, e, key);
      }
    }
  }

  lemma StepPushes(p: Policy, s: State, e: Event)
    requires e.Pushed?
    ensures Step(p, s, e) == Push(p, s, e.f, e.fuseFault, e.now).0
  {
  }

  lemma {:induction false} UsesAtTwo(emitted: seq<Bundle>, i: nat, j: nat, key: Key)
    requires i < j < |emitted|
    requires Contains(emitted[i], key) && Contains(emitted[j], key)
    ensures Uses(emitted, key) >= 2
  {
    if i > 0 {
      UsesAtTwo(emitted[1..], i - 1, j - 1, key);
    } else {
      UsesAtOne(emitted[1..], j - 1, key);
    }
  }

  lemma {:induction false} UsesAtOne(emitted: seq<Bundle>, j: nat, key: Key)
    requires j < |emitted| && Contains(emitted[j], key)
    ensures Uses(emitted, key) >= 1
  {
    if j > 0 {
      UsesAtOne(emitted[1..], j - 1, key);
    }
  }

  /**
   In every run bundles are numbered from one and pair a left with a right frame inside the
   window; two bundles share a frame only when that frame was accepted twice.
   */
  lemma ExactlyOnce(p: Policy, events: seq<Event>, i: nat, j: nat, key: Key)
    requires p.maxQueue >= 1 && i < j < |Run(p, events).emitted|
    ensures var s := Run(p, events);
            && s.emitted[i].id == i + 1 && BundleOk(p, s.emitted[i])
            && (Contains(s.emitted[i], key) && Contains(s.emitted[j], key) ==> Count(s.accepted, key) >= 2)
  {
    hide Run, Count, Uses, BundleOk;
    AlwaysConserved(p, events, key);
    var s := Run(p, events);
    if Contains(s.emitted[i], key) && Contains(s.emitted[j], key) {
      UsesAtTwo(s.emitted, i, j, key);
    }
  }
}
