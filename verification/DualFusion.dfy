/** The object of src/wc_fusion/core.py whose calls `SourceFusion` specifies. */
module DualFusionObject {
  import opened Common
  import opened SF = SourceFusion

  class DualFusion {
    const policy: Policy
    var left: seq<Frame>
    var right: seq<Frame>
    var epochs: map<Side, string>
    var seen: set<Key>
    var seenOrder: seq<Key>
    var sequenceHighwater: map<Stream, int>
    var sequenceStampHighwater: map<Stream, Newest>
    var lastSeenMonotonic: map<Side, int>
    var startedMonotonic: Option<int>
    var lastBundleMonotonic: Option<int>
    var bundleCounter: nat
    var latchedReason: Option<string>
    ghost var accepted: seq<Frame>
    ghost var emitted: seq<Bundle>

    ghost function Abstract(): State
      reads this
    {
      State(left, right, epochs, seen, seenOrder, sequenceHighwater, sequenceStampHighwater, lastSeenMonotonic,
            startedMonotonic, lastBundleMonotonic, bundleCounter, latchedReason, accepted, emitted)
    }

    constructor (policy: Policy)
      ensures this.policy == policy && Abstract() == START
    {
      this.policy := policy;
      left, right, epochs, seen, seenOrder := [], [], map[], {}, [];
      sequenceHighwater, sequenceStampHighwater, lastSeenMonotonic := map[], map[], map[];
      startedMonotonic, lastBundleMonotonic, bundleCounter, latchedReason := None, None, 0, None;
      accepted, emitted := [], [];
    }

    method Latch(reason: string)
      modifies this
      ensures Abstract() == SF.Latch(old(Abstract()), reason)
    {
      latchedReason := Told(reason);
      left, right := [], [];
    }

    method CheckFreshness(now: int) returns (ok: bool)
      modifies this
      ensures Abstract() == SF.CheckFreshness(policy, old(Abstract()), now)
      ensures ok <==> latchedReason.None?
    {
      if latchedReason.Some? {
        return false;
      }
      if startedMonotonic.None? {
        return true;
      }
      var sides := [Left, Right];
      var names := ["SOURCE_TIMEOUT:left", "SOURCE_TIMEOUT:right"];
      for i := 0 to 2
        invariant Abstract() == old(Abstract())
        invariant forall k :: 0 <= k < i ==>
                    0 <= now - SF.LastSeen(Abstract(), sides[k], startedMonotonic.value) <= policy.maxAgeNs
      {
        var seenAt := if sides[i] in lastSeenMonotonic then lastSeenMonotonic[sides[i]] else startedMonotonic.value;
        if now - seenAt < 0 || now - seenAt > policy.maxAgeNs {
          Latch(names[i]);
          return false;
        }
      }
      assert 0 <= now - SF.LastSeen(Abstract(), sides[0], startedMonotonic.value) <= policy.maxAgeNs;
      assert 0 <= now - SF.LastSeen(Abstract(), sides[1], startedMonotonic.value) <= policy.maxAgeNs;
      var last := if lastBundleMonotonic.Some? then lastBundleMonotonic.value else startedMonotonic.value;
      if now - last > policy.maxAgeNs {
        Latch("PAIR_STREAM_TIMEOUT");
        return false;
      }
      return true;
    }

    method Resume(granted: bool) returns (ok: bool)
      modifies this
      ensures Abstract() == SF.Resume(old(Abstract()), granted) && ok == granted
    {
      if !granted {
        return false;
      }
      latchedReason, left, right, lastSeenMonotonic, startedMonotonic, lastBundleMonotonic :=
        None, [], [], map[], None, None;
      return true;
    }

    /** Enter an admitted key; the oldest keys beyond the window are discarded one by one. */
    method Remember(f: Frame)
      modifies this
      ensures Abstract() == SF.Remember(policy, old(Abstract()), f)
    {
      hide SF.Last, SF.ToSet;
      var key, stream := f.Identity(), f.Origin();
      var high := if stream in sequenceHighwater then sequenceHighwater[stream] else -1;
      var newer := stream !in sequenceStampHighwater || f.sequence > sequenceStampHighwater[stream].sequence;
      var newSeen, newOrder := TrimWindow(seen + {key}, seenOrder + [key], policy.maxQueue * 16);
      sequenceHighwater, sequenceStampHighwater, seen, seenOrder, accepted :=
        sequenceHighwater[stream := if f.sequence > high then f.sequence else high],
        if newer then sequenceStampHighwater[stream := Newest(f.sequence, f.stamp)] else sequenceStampHighwater,
        newSeen, newOrder, accepted + [f];
    }

    static method TrimWindow(seen: set<Key>, order: seq<Key>, limit: nat) returns (seen': set<Key>, order': seq<Key>)
      ensures order' == SF.Last(order, limit)
      ensures seen' == seen - SF.ToSet(order[..|order| - |order'|])
    {
      seen', order' := seen, order;
      ghost var k := 0;
      while |order'| > limit
        invariant 0 <= k <= |order| && order' == order[k..] && (k > 0 ==> |order'| >= limit)
        invariant seen' == seen - SF.ToSet(order[..k])
      {
        assert order[..k + 1] == order[..k] + [order'[0]];
        seen', order' := seen' - {order'[0]}, order'[1..];
        k := k + 1;
      }
      assert k == |order| - |order'|;
    }

    /** The checks of one frame up to the queue; a fault is what the caller raises. */
    method Check(f: Frame, now: int) returns (fault: Option<string>)
      modifies this
      ensures SF.Checked(Abstract(), fault) == SF.Check(policy, old(Abstract()), f, now)
    {
      hide SF.Remember;
      if f.identityFault.Some? {
        return f.identityFault;
      }
      if now - f.hostTime < 0 || now - f.hostTime > policy.maxAgeNs {
        return Some("SOURCE_STALE");
      }
      if f.epoch == "" {
        return Some("MISSING_STREAM_EPOCH");
      }
      if f.side in epochs && f.epoch != epochs[f.side] {
        epochs := epochs[f.side := f.epoch];
        return Some("STREAM_EPOCH_CHANGED");
      }
      epochs := epochs[f.side := f.epoch];
      if f.sequence < 0 {
        return Some("NEGATIVE_SEQUENCE");
      }
      var stream := f.Origin();
      if stream in sequenceStampHighwater && f.sequence > sequenceStampHighwater[stream].sequence
         && f.stamp <= sequenceStampHighwater[stream].stamp {
        return Some("SOURCE_TIME_JUMP");
      }
      var high := if stream in sequenceHighwater then sequenceHighwater[stream] else -1;
      if f.Identity() in seen || f.sequence <= high - policy.maxQueue * 4 {
        return Some(DUPLICATE);
      }
      Remember(f);
      return f.contentFault;
    }

    /** Drop heads outside the window until a pair is found or a queue is empty. */
    static method FindPair(policy: Policy, left0: seq<Frame>, right0: seq<Frame>, now: int) returns (found: Search)
      ensures found == SF.FindPair(policy, left0, right0, now)
    {
      var left, right := left0, right0;
      while left != [] && right != []
        invariant SF.FindPair(policy, left, right, now) == SF.FindPair(policy, left0, right0, now)
        decreases |left| + |right|
      {
        var l, r := left[0], right[0];
        if now - SF.Min(l.hostTime, r.hostTime) > policy.maxAgeNs {
          return Stale;
        }
        if Abs(l.stamp - r.stamp) <= policy.maxPairNs {
          return Found(l, r, left[1..], right[1..]);
        }
        if l.stamp < r.stamp {
          left := left[1..];
        } else {
          right := right[1..];
        }
      }
      return Waiting(left, right);
    }

    method Fuse(l: Frame, r: Frame, fuseFault: Option<string>, now: int) returns (reply: Reply)
      modifies this
      ensures (Abstract(), reply) == SF.Fuse(old(Abstract()), l, r, fuseFault, now)
    {
      if fuseFault.Some? {
        Latch(fuseFault.value);
        return Raised(fuseFault.value);
      }
      bundleCounter := bundleCounter + 1;
      lastBundleMonotonic := Some(now);
      var b := Bundle(bundleCounter, SF.Max(l.stamp, r.stamp), l, r);
      emitted := emitted + [b];
      return Fused(b);
    }

    method Pair(fuseFault: Option<string>, now: int) returns (reply: Reply)
      modifies this
      ensures (Abstract(), reply) == SF.Pair(policy, old(Abstract()), fuseFault, now)
    {
      hide SF.Latch, SF.FindPair, SF.Fuse;
      var found := FindPair(policy, left, right, now);
      match found {
        case Waiting(l, r) =>
          left, right := l, r;
          return Nothing;
        case Stale =>
          Latch("PAIR_STALE");
          return Raised("PAIR_STALE");
        case Found(l, r, restLeft, restRight) =>
          left, right := restLeft, restRight;
          reply := Fuse(l, r, fuseFault, now);
      }
    }

    method Push(f: Frame, fuseFault: Option<string>, now: int) returns (reply: Reply)
      modifies this
      ensures (Abstract(), reply) == SF.Push(policy, old(Abstract()), f, fuseFault, now)
    {
      hide SF.Check, SF.Pair, SF.CheckFreshness, SF.Latch, SF.Arrive, SF.Enqueue;
      if latchedReason.Some? {
        return Raised("PAUSED_INVALID:" + latchedReason.value);
      }
      var fault := Check(f, now);
      if fault.Some? {
        if fault.value != DUPLICATE {
          Latch(fault.value);
        }
        return Raised(fault.value);
      }
      Arrive(f, now);
      var ok := CheckFreshness(now);
      if !ok {
        return Raised(latchedReason.value);
      }
      Enqueue(f);
      reply := Pair(fuseFault, now);
    }

    method Arrive(f: Frame, now: int)
      modifies this
      ensures Abstract() == SF.Arrive(old(Abstract()), f, now)
    {
      if startedMonotonic.None? {
        startedMonotonic := Some(now);
      }
      var before := if f.side in lastSeenMonotonic then lastSeenMonotonic[f.side] else f.hostTime;
      lastSeenMonotonic := lastSeenMonotonic[f.side := SF.Max(f.hostTime, before)];
    }

    /** Append, sort, and pop from the front while the bound is exceeded. */
    method Enqueue(f: Frame)
      modifies this
      ensures Abstract() == SF.Enqueue(policy, old(Abstract()), f)
    {
      var q := SF.Insert(if f.side.Left? then left else right, f);
      ghost var sorted := q;
      while |q| > policy.maxQueue
        invariant |q| <= |sorted| && q == sorted[|sorted| - |q|..] && (q != sorted ==> |q| >= policy.maxQueue)
      {
        q := q[1..];
      }
      hide SF.Insert;
      if f.side.Left? {
        left := q;
      } else {
        right := q;
      }
    }
  }
}
