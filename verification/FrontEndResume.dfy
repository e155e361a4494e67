/**
 What the preflight of a resume knows, told from the messages of each side, and exactly when a resume
 reopens the node (`resume` and the source callbacks of `FusionNode` in src/wc_fusion/ros_node.py).
 */
module FrontEndResume {
  import opened Common
  import opened FrontEnd
  import FES = FrontEndSafety
  import SF = SourceFusion
  import RA = RawArchive
  import TG = TrackingGate
  import AD = AckedDelivery

  /** A message of a lidar and when it was heard. */
  datatype Heard = Heard(msg: SourceMsg, at: int)

  /** The messages of a side that got past the first two checks. */
  function HeardOn(events: seq<Event>, side: Side): seq<Heard> {
    if events == [] then []
    else
      var e := events[|events| - 1];
      HeardOn(events[..|events| - 1], side)
      + if e.SourceFrame? && e.msg.sideOk && e.msg.clockFault.None? && e.msg.frame.side == side then [Heard(e.msg, e.now)] else []
  }

  ghost predicate Good(c: Config, h: Heard) {
    h.msg.identified && h.msg.frame.hostTime <= h.at <= h.msg.frame.hostTime + c.fusion.maxAgeNs
  }

  ghost predicate Next(a: Heard, b: Heard) {
    && b.msg.frame.epoch == a.msg.frame.epoch
    && a.msg.frame.sequence < b.msg.frame.sequence && a.msg.frame.stamp < b.msg.frame.stamp
  }

  /** The last `k` messages are good and each comes next after the one before. */
  ghost predicate GoodRun(c: Config, heard: seq<Heard>, k: nat) {
    && k <= |heard|
    && (forall i :: |heard| - k <= i < |heard| ==> Good(c, heard[i]))
    && (forall i :: |heard| - k < i < |heard| ==> Next(heard[i - 1], heard[i]))
  }

  function SightingOf(h: Heard): Sighting {
    Sighting(h.at, h.msg.frame.epoch, h.msg.frame.sequence, h.msg.frame.stamp)
  }

  /** The stable sightings are the last messages, a good run of at most five, and a good run of `k`
      messages leaves at least `k - 1` of them, up to five. */
  ghost predicate WatchOk(c: Config, w: Watch, side: Side, heard: seq<Heard>) {
    var stable := Stable(w, side);
    && |stable| <= 5 && |stable| <= |heard| && GoodRun(c, heard, |stable|)
    && (forall i :: 0 <= i < |stable| ==> stable[i] == SightingOf(heard[|heard| - |stable| + i]))
    && (forall k: nat :: GoodRun(c, heard, k) ==> |stable| >= 5 || |stable| + 1 >= k)
    && (side in w.last <==> heard != [])
    && (heard != [] ==> w.last[side] == Seen(heard[|heard| - 1].at, heard[|heard| - 1].msg.validated))
  }

  lemma RunShrinks(c: Config, heard: seq<Heard>, h: Heard, k: nat)
    requires GoodRun(c, heard + [h], k) && k > 0
    ensures GoodRun(c, heard, k - 1) && Good(c, h) && (k > 1 ==> Next(heard[|heard| - 1], h))
  {
    var all := heard + [h];
    assert all[|heard|] == h && forall i :: 0 <= i < |heard| ==> all[i] == heard[i];
    assert forall i :: |heard| - (k - 1) < i < |heard| ==> Next(all[i - 1], all[i]);
  }

  lemma RunGrows(c: Config, heard: seq<Heard>, h: Heard, k: nat)
    requires GoodRun(c, heard, k) && Good(c, h) && (k > 0 ==> Next(heard[|heard| - 1], h))
    ensures GoodRun(c, heard + [h], k + 1)
  {
  }

  lemma RunShorter(c: Config, heard: seq<Heard>, k: nat, j: nat)
    requires GoodRun(c, heard, k) && j <= k
    ensures GoodRun(c, heard, j)
  {
  }

  lemma ObservedOk(c: Config, w: Watch, m: SourceMsg, now: int, heard: seq<Heard>)
    requires WatchOk(c, w, m.frame.side, heard)
    ensures WatchOk(c, Observed(c, w, m, now), m.frame.side, heard + [Heard(m, now)])
  {
    hide GoodRun;
    var side, h := m.frame.side, Heard(m, now);
    var stable, all := Stable(w, side), heard + [h];
    var w' := Observed(c, w, m, now);
    var stable' := Stable(w', side);
    ContinuesExactly(c, heard, stable, h);
    if Good(c, h) && Continues(stable, SightingOf(h)) {
      RunGrows(c, heard, h, |stable|);
      RunShorter(c, all, |stable| + 1, |stable'|);
      assert stable' == SF.Last(stable + [SightingOf(h)], 5);
    } else {
      assert stable' == [];
      NoRun(c, all);
    }
    forall k: nat | GoodRun(c, all, k) ensures |stable'| >= 5 || |stable'| + 1 >= k {
      if k > 0 {
        RunShrinks(c, heard, h, k);
      }
    }
  }

  lemma NoRun(c: Config, heard: seq<Heard>)
    ensures GoodRun(c, heard, 0)
  {
  }

  /** Comparing with the last stable sighting is comparing with the last message. */
  lemma ContinuesExactly(c: Config, heard: seq<Heard>, stable: seq<Sighting>, h: Heard)
    requires |stable| <= |heard| && forall i :: 0 <= i < |stable| ==> stable[i] == SightingOf(heard[|heard| - |stable| + i])
    ensures Continues(stable, SightingOf(h)) <==> stable == [] || Next(heard[|heard| - 1], h)
  {
    if stable != [] {
      assert stable[|stable| - 1] == SightingOf(heard[|heard| - 1]);
    }
  }

  lemma OtherSide(c: Config, w: Watch, m: SourceMsg, now: int, side: Side, heard: seq<Heard>)
    requires WatchOk(c, w, side, heard) && side != m.frame.side
    ensures WatchOk(c, Observed(c, w, m, now), side, heard)
  {
    assert Stable(Observed(c, w, m, now), side) == Stable(w, side);
    hide GoodRun;
  }

  // ----- no other callback looks at the sources -----

  lemma FailKeepsWatch(s: State, reason: string)
    ensures Fail(s, reason).watch == s.watch
  {
    hide SF.Latch, TG.Pause;
  }

  lemma TakeFrameKeepsWatch(c: Config, s: State, m: SourceMsg, now: int)
    ensures TakeFrame(c, s, m, now).watch == s.watch
  {
    hide Fail, SF.Push, EntryFault, RA.DoSubmit;
    var s1 := s.(fusion := SF.Push(c.fusion, s.fusion, m.frame, m.fuseFault, now).0);
    forall reason ensures Fail(s, reason).watch == s.watch && Fail(s1, reason).watch == s.watch {
      FailKeepsWatch(s, reason);
      FailKeepsWatch(s1, reason);
    }
  }

  lemma {:induction false} PollKeepsWatch(s: State, results: seq<RA.ArchiveResult>)
    ensures PollAll(s, results).watch == s.watch
  {
    hide Fail;
    if results != [] {
      PollKeepsWatch(s, results[..|results| - 1]);
      var before, r := PollAll(s, results[..|results| - 1]), results[|results| - 1];
      if r.error.Some? {
        FailKeepsWatch(before.(archivePending := before.archivePending - {r.key}), "RAW_ARCHIVE_FAILED:" + r.error.value);
      }
    }
  }

  lemma PublishKeepsWatch(c: Config, s: State, now: int, outcome: Outcome)
    ensures PublishArchived(c, s, now, outcome).watch == s.watch
  {
    hide Fail, PollAll, TG.Submit, Aged;
    PollKeepsWatch(s.(archive := RA.DoPoll(s.archive)), s.archive.results);
    var s0 := Collect(s);
    FailKeepsWatch(s0, "RAW_ARCHIVE_AGE_EXCEEDED");
    if s0.icpReady != [] {
      var r := s0.icpReady[0];
      var s1 := s0.(icpReady := s0.icpReady[1..], gate := TG.Submit(c.gate, s0.gate, GateBundle(r.bundle), now).0);
      var s2 := s1.(byStamp := s1.byStamp[r.bundle.tRef := r]);
      var s3 := s2.(published := s2.published + [Publication(r, now, s2.mark)]);
      forall reason ensures Fail(s1, reason).watch == Fail(s2, reason).watch == Fail(s3, reason).watch == s.watch {
        FailKeepsWatch(s1, reason);
        FailKeepsWatch(s2, reason);
        FailKeepsWatch(s3, reason);
      }
    }
  }

  lemma DeliverKeepsWatch(c: Config, s: State, now: int, sendFault: Option<string>)
    ensures DeliverGraph(c, s, now, sendFault).watch == s.watch
  {
    hide Fail, AD.Send;
    if c.graph.Some? && s.graph.Some? {
      var s1 := s.(graph := Some(AD.Send(c.graph.value, s.graph.value, now).0));
      forall reason ensures Fail(s1, reason).watch == s.watch {
        FailKeepsWatch(s1, reason);
      }
    }
  }

  lemma CompleteKeepsWatch(c: Config, s: State, key: int, now: int, d: Delivery)
    ensures Complete(c, s, key, now, d).watch == s.watch
  {
    hide Fail, AssessResult;
    if key in s.odomCache && key in s.infoCache && key in s.byStamp {
      var s1 := s.(odomCache := s.odomCache - {key}, infoCache := s.infoCache - {key});
      forall reason ensures Fail(s1, reason).watch == s.watch {
        FailKeepsWatch(s1, reason);
      }
      AssessKeepsWatch(c, s1, s.byStamp[key], s.odomCache[key], s.infoCache[key], now, d);
    }
  }

  lemma AssessKeepsWatch(c: Config, s: State, r: Record, odom: Odom, info: Info, now: int, d: Delivery)
    ensures AssessResult(c, s, r, odom, info, now, d).watch == s.watch
  {
    hide Fail, AD.Submit, AD.EnsureCapacity, DeliverGraph, TG.Assess, Judged;
    var s1 := CheckGraph(c, s);
    var s2 := s1.(gate := TG.Assess(c.gate, s1.gate, Judged(c, s1, r, odom, info), now).0);
    forall reason ensures Fail(s1, reason).watch == Fail(s2, reason).watch == s.watch {
      FailKeepsWatch(s1, reason);
      FailKeepsWatch(s2, reason);
    }
    if c.graph.Some? && s2.graph.Some? {
      var s3 := s2.(graph := Some(AD.Submit(c.graph.value, s2.graph.value,
                                            AD.Observation(r.bundle.id, d.rawKeys, c.odomEpoch, d.envelope))));
      forall reason ensures Fail(s3, reason).watch == s.watch {
        FailKeepsWatch(s3, reason);
      }
      DeliverKeepsWatch(c, s3, now, d.sendFault);
    }
  }

  lemma FreshenKeepsWatch(c: Config, s: State, now: int)
    ensures Freshen(c, s, now).watch == s.watch
  {
    hide Fail, SF.CheckFreshness, TG.Expire;
    var s1 := s.(fusion := SF.CheckFreshness(c.fusion, s.fusion, now), gate := TG.Expire(c.gate, s.gate, now));
    forall reason ensures Fail(s1, reason).watch == s.watch {
      FailKeepsWatch(s1, reason);
    }
  }

  lemma WatchdogKeepsWatch(c: Config, s: State, now: int, joinFault: Option<string>, outcome: Outcome, later: int, sendFault: Option<string>)
    ensures Watchdog(c, s, now, joinFault, outcome, later, sendFault).watch == s.watch
  {
    hide Fail, PublishArchived, DeliverGraph, Freshen;
    if joinFault.Some? {
      FailKeepsWatch(s, joinFault.value);
    }
    var s1 := if !s.paused && s.fusion.latched.None? && joinFault.Some? then Fail(s, joinFault.value) else s;
    FreshenKeepsWatch(c, s1, now);
    var s2 := if s1.paused then s1 else Freshen(c, s1, now);
    PublishKeepsWatch(c, s2, now, outcome);
    DeliverKeepsWatch(c, PublishArchived(c, s2, now, outcome), later, sendFault);
  }

  lemma OthersKeepWatch(c: Config, s: State, e: Event)
    requires !e.SourceFrame?
    ensures Step(c, s, e).watch == s.watch
  {
    hide Fail, Complete, Watchdog, AD.Acknowledge, RA.DoWork, Admitted;
    match e {
      case OdomArrived(key, publisherFault, odom, now, d) =>
        if publisherFault.Some? {
          FailKeepsWatch(s, publisherFault.value);
        }
        CompleteKeepsWatch(c, s.(odomCache := s.odomCache[key := odom]), key, now, d);
      case InfoArrived(key, info, now, d) => CompleteKeepsWatch(c, s.(infoCache := s.infoCache[key := info]), key, now, d);
      case Tick(now, joinFault, outcome, later, sendFault) => WatchdogKeepsWatch(c, s, now, joinFault, outcome, later, sendFault);
      case Acked(snapshot) =>
        if c.graph.Some? && s.graph.Some? {
          var s1 := s.(graph := Some(AD.Acknowledge(c.graph.value, s.graph.value, snapshot)));
          forall reason ensures Fail(s1, reason).watch == s.watch {
            FailKeepsWatch(s1, reason);
          }
        }
      case PauseCalled => FailKeepsWatch(s.(paused := true), "EXPLICIT_PAUSE");
      case OtherFault(reason) => FailKeepsWatch(s, reason);
      case _ =>
    }
  }

  lemma SourceWatches(c: Config, s: State, m: SourceMsg, now: int)
    ensures Source(c, s, m, now).watch ==
            if m.sideOk && m.clockFault.None? then Observed(c, s.watch, m, now) else s.watch
  {
    hide Fail, TakeFrame, Observed;
    FailKeepsWatch(s, "SOURCE_SIDE_INVALID");
    if m.clockFault.Some? {
      FailKeepsWatch(s, m.clockFault.value);
    }
    TakeFrameKeepsWatch(c, s.(watch := Observed(c, s.watch, m, now)), m, now);
  }

  /** In every run the watch knows of each side its last message and its stable sightings. */
  lemma {:induction false} WatchAlwaysOk(c: Config, graphEpoch: Option<string>, disk: RA.Disk, events: seq<Event>, side: Side)
    ensures WatchOk(c, Run(c, Start(c, graphEpoch, disk), events).watch, side, HeardOn(events, side))
  {
    hide Step, WatchOk;
    if events == [] {
      NothingHeard(c, side);
    } else {
      var before, e := events[..|events| - 1], events[|events| - 1];
      WatchAlwaysOk(c, graphEpoch, disk, before, side);
      var s := Run(c, Start(c, graphEpoch, disk), before);
      assert HeardOn(before, side) + [] == HeardOn(before, side);
      if e.SourceFrame? {
        SourceStep(c, s, e);
        SourceWatches(c, s, e.msg, e.now);
        if e.msg.sideOk && e.msg.clockFault.None? {
          if e.msg.frame.side == side {
            ObservedOk(c, s.watch, e.msg, e.now, HeardOn(before, side));
          } else {
            OtherSide(c, s.watch, e.msg, e.now, side, HeardOn(before, side));
          }
        }
      } else {
        OthersKeepWatch(c, s, e);
      }
    }
  }

  lemma SourceStep(c: Config, s: State, e: Event)
    requires e.SourceFrame?
    ensures Step(c, s, e) == Source(c, s, e.msg, e.now)
  {
  }

  lemma NothingHeard(c: Config, side: Side)
    ensures WatchOk(c, Watch(map[], map[]), side, [])
  {
  }

  // ----- when a resume reopens -----

  /** The side spoke just now from a validated sensor, and its last five messages came in time, good, in
      one epoch and in order. */
  ghost predicate SideReady(c: Config, w: Watch, side: Side, heard: seq<Heard>, now: int) {
    && heard != [] && heard[|heard| - 1].msg.validated && now < heard[|heard| - 1].at + c.fusion.maxAgeNs
    && |Stable(w, side)| == 5 && GoodRun(c, heard, 5) && now <= heard[|heard| - 5].at + 5 * c.fusion.maxAgeNs
  }

  lemma SteadyExactly(c: Config, w: Watch, side: Side, heard: seq<Heard>, now: int)
    requires WatchOk(c, w, side, heard)
    ensures SideReady(c, w, side, heard, now) <==> SteadySide(c, w, side, now) && side in w.last && w.last[side].validated
  {
    var stable := Stable(w, side);
    if |stable| == 5 {
      OneEpoch(c, heard, 5);
      assert stable[0] == SightingOf(heard[|heard| - 5]);
      forall i | 0 <= i < 5 ensures stable[i].epoch == stable[0].epoch {
        assert stable[i] == SightingOf(heard[|heard| - 5 + i]);
      }
    }
  }

  lemma {:induction false} OneEpoch(c: Config, heard: seq<Heard>, k: nat)
    requires GoodRun(c, heard, k)
    ensures forall i :: |heard| - k <= i < |heard| ==> heard[i].msg.frame.epoch == heard[|heard| - k].msg.frame.epoch
    decreases k
  {
    if k > 1 {
      RunShorter(c, heard, k, k - 1);
      OneEpoch(c, heard, k - 1);
      assert Next(heard[|heard| - k + 1 - 1], heard[|heard| - k + 1]);
    }
  }

  /**
   In every run a resume reopens the node exactly when the wheel prior is off, the delivery to the graph
   has not failed, the request is right and asks for it, names the epoch of the accepted poses, and
   both sides are ready. It then forgets what waits for the archive or the matcher; a refused one
   changes nothing.
   */
  lemma ReopensExactly(c: Config, graphEpoch: Option<string>, disk: RA.Disk, events: seq<Event>, q: Request, now: int)
    requires c.Valid()
    ensures var s := Run(c, Start(c, graphEpoch, disk), events);
            var s' := Resume(c, s, q, now);
            if !c.wheel && (s.graph.Some? ==> s.graph.value.failure.None?) && q.sessionOk && q.configOk && q.asked && q.continuity
               && s.gate.odomEpoch == Some(q.odomEpoch)
               && SideReady(c, s.watch, Left, HeardOn(events, Left), now) && SideReady(c, s.watch, Right, HeardOn(events, Right), now)
            then !s'.paused && s'.fusion.latched.None? && s'.gate.paused.None?
                 && s'.archivePending == map[] && s'.byStamp == map[] && s'.gate.pending == map[]
                 && s'.odomCache == map[] && s'.infoCache == map[] && s'.fusion.left == [] && s'.fusion.right == []
                 && s'.fusion.started.None? && s'.fusion.lastSeen == map[] && s'.fusion.lastBundle.None?
                 && s'.icpReady == s.icpReady && s'.published == s.published && s'.jobs == s.jobs && s'.graph == s.graph
                 && s'.gate.acceptances == s.gate.acceptances && s'.fusion.emitted == s.fusion.emitted
            else s' == s
  {
    hide Run, Start, WatchOk, SideReady, SteadySide;
    var s := Run(c, Start(c, graphEpoch, disk), events);
    WatchAlwaysOk(c, graphEpoch, disk, events, Left);
    WatchAlwaysOk(c, graphEpoch, disk, events, Right);
    SteadyExactly(c, s.watch, Left, HeardOn(events, Left), now);
    SteadyExactly(c, s.watch, Right, HeardOn(events, Right), now);
  }

  /** A pause closes the node and drops everything on its way; a closed node only watches its sources,
      until a resume. */
  lemma PauseCloses(c: Config, s: State, m: SourceMsg, now: int)
    ensures var s' := Step(c, s, PauseCalled);
            && s'.paused && s'.fusion.latched == Some("EXPLICIT_PAUSE") && s'.gate.paused == Some("EXPLICIT_PAUSE")
            && FES.Held(s') == {} && s'.odomCache == map[] && s'.infoCache == map[]
            && s'.gate.pending == map[] && s'.fusion.left == [] && s'.fusion.right == []
            && s'.published == s.published && s'.jobs == s.jobs && s'.graph == s.graph && s'.archive == s.archive
    ensures (s.paused || s.fusion.latched.Some?) && m.sideOk && m.clockFault.None? ==>
              var s' := Step(c, s, SourceFrame(m, now)); s' == s.(watch := s'.watch)
  {
    FES.HeldAfterFail(s.(paused := true), "EXPLICIT_PAUSE");
    hide SF.Push, EntryFault, Observed;
  }
}
