/** The node of src/wc_fusion/ros_node.py over its four component objects; `FrontEnd` specifies it. */
module FusionNodeObject {
  import opened Common
  import opened Decimals
  import opened FE = FrontEnd
  import SF = SourceFusion
  import RA = RawArchive
  import TG = TrackingGate
  import AD = AckedDelivery
  import opened DualFusionObject
  import opened DurableArchiveObject
  import opened GateObject
  import opened GraphDeliveryObject

  class FusionNode {
    const config: Config
    const fusion: DualFusion
    const gate: Gate
    const archive: DurableArchive
    const graph: GraphDelivery?
    var archivePending: map<string, Record>
    var icpReady: seq<Record>
    var byStamp: map<int, Record>
    var odomCache: map<int, Odom>
    var infoCache: map<int, Info>
    var lastObservations: map<Side, Seen>
    var stableObservations: map<Side, seq<Sighting>>
    var intentionalPause: bool
    var jobs: seq<Record>                 // numbers the archive jobs
    ghost var published: seq<Publication>
    ghost var mark: nat
    ghost var failures: nat

    ghost function Abstract(): State
      reads this, fusion, gate, archive, graph
    {
      State(fusion.Abstract(), gate.Abstract(), if graph == null then None else Some(graph.Abstract()), archive.Abstract(),
            archivePending, icpReady, byStamp, odomCache, infoCache, Watch(lastObservations, stableObservations),
            intentionalPause, jobs, published, mark, failures)
    }

    /** The parts follow the configuration. */
    ghost predicate Valid() {
      && fusion.policy == config.fusion && gate.policy == config.gate
      && (graph != null <==> config.graph.Some?) && (graph != null ==> graph.policy == config.graph.value)
    }

    constructor (config: Config, graphEpoch: Option<string>, disk: RA.Disk)
      requires config.Valid()
      ensures this.config == config && Valid() && Abstract() == FE.Start(config, graphEpoch, disk)
      ensures fresh(fusion) && fresh(gate) && fresh(archive) && (graph != null ==> fresh(graph))
    {
      this.config := config;
      fusion := new DualFusion(config.fusion);
      gate := new Gate(config.gate);
      archive := new DurableArchive(config.fusion.maxQueue, disk);
      if config.graph.Some? {
        var delivery := new GraphDelivery(config.graph.value, graphEpoch);
        graph := delivery;
      } else {
        graph := null;
      }
      archivePending, icpReady, byStamp, odomCache, infoCache := map[], [], map[], map[], map[];
      lastObservations, stableObservations, intentionalPause := map[], map[], false;
      jobs, published, mark, failures := [], [], 0, 0;
    }

    method FailNode(reason: string)
      requires Valid()
      modifies this, fusion, gate
      ensures Abstract() == FE.Fail(old(Abstract()), reason)
    {
      hide TG.Pause, Abstract;
      LatchParts(reason);
      DropRecords();
      RecordFailure();
    }

    method LatchParts(reason: string)
      requires Valid()
      modifies fusion, gate
      ensures Abstract() == old(Abstract()).(fusion := SF.Latch(old(Abstract()).fusion, reason),
                                             gate := TG.Pause(old(Abstract()).gate, reason))
    {
      hide SF.Latch, TG.Pause, DualFusion.Abstract, Gate.Abstract, DurableArchive.Abstract, GraphDelivery.Abstract;
      fusion.Latch(reason);
      gate.PauseGate(reason);
    }

    /** Forget every record and half result. */
    method DropRecords()
      requires Valid()
      modifies this
      ensures Abstract() == old(Abstract()).(
                byStamp := map[], archivePending := map[], icpReady := [], odomCache := map[], infoCache := map[])
    {
      hide DualFusion.Abstract, Gate.Abstract, DurableArchive.Abstract, GraphDelivery.Abstract;
      byStamp, archivePending, icpReady, odomCache, infoCache := map[], map[], [], map[], map[];
    }

    /** The two histories of failures. */
    ghost method RecordFailure()
      requires Valid()
      modifies this
      ensures Abstract() == old(Abstract()).(mark := old(Abstract()).fusion.bundleCounter, failures := old(Abstract()).failures + 1)
    {
      hide DualFusion.Abstract, Gate.Abstract, DurableArchive.Abstract, GraphDelivery.Abstract;
      mark, failures := fusion.Abstract().bundleCounter, failures + 1;
    }

    /** Hand the oldest ready bundle to the gate and the matcher. */
    method ReleaseHead(now: int, outcome: FE.Outcome)
      requires Valid() && icpReady != []
      modifies this, fusion, gate
      ensures Abstract() == FE.Release(config, old(Abstract()), now, outcome)
    {
      hide SF.Latch, TG.Pause, TG.Submit, FE.Fail, DualFusion.Abstract, Gate.Abstract, DurableArchive.Abstract, GraphDelivery.Abstract;
      var r := icpReady[0];
      icpReady := icpReady[1..];
      var error := gate.SubmitBundle(FE.GateBundle(r.bundle), now);
      if error.Some? {
        FailNode(error.value);
        return;
      }
      byStamp := byStamp[r.bundle.tRef := r];
      if outcome.Unsent? {
        FailNode(outcome.text);
        return;
      }
      published := published + [Publication(r, now, mark)];
      if outcome.SentThen? {
        FailNode(outcome.text);
      }
    }

    /** Take the results off the archive; good records become ready, in order. */
    method CollectArchived()
      requires Valid()
      modifies this, fusion, gate, archive
      ensures Abstract() == FE.Collect(old(Abstract()))
    {
      hide SF.Latch, TG.Pause, FE.Fail, RA.DoPoll, RA.Step, FE.PollOne;
      hide DualFusion.Abstract, Gate.Abstract, DurableArchive.Abstract, GraphDelivery.Abstract;
      ghost var before := Abstract();
      ResultsOf(archive);
      var results := archive.PollResults();
      assert RA.DoPoll(before.archive) == archive.Abstract() by { PollStep(before.archive); }
      ghost var polled := before.(archive := RA.DoPoll(before.archive));
      assert Abstract() == FE.PollAll(polled, results[..0]);
      for i := 0 to |results|
        invariant Valid() && Abstract() == FE.PollAll(polled, results[..i])
      {
        assert results[..i + 1][..i] == results[..i] && results[..i + 1][i] == results[i];
        HandleResult(results[i]);
      }
      assert results[..|results|] == results;
    }

    static lemma ResultsOf(archive: DurableArchive)
      ensures archive.Abstract().results == archive.results
    {
    }

    static lemma PollStep(a: RA.State)
      ensures RA.Step(a, RA.Poll) == RA.DoPoll(a)
    {
    }

    method HandleResult(result: RA.ArchiveResult)
      requires Valid()
      modifies this, fusion, gate
      ensures Abstract() == FE.PollOne(old(Abstract()), result)
    {
      hide SF.Latch, TG.Pause, FE.Fail, Gate.Abstract, DurableArchive.Abstract, GraphDelivery.Abstract;
      var found := result.key in archivePending;
      if found {
        var record := archivePending[result.key];
        archivePending := archivePending - {result.key};
        if result.error.None? && !intentionalPause && fusion.latchedReason.None? {
          icpReady := icpReady + [record];
        }
      }
      assert !found ==> archivePending == archivePending - {result.key};
      if result.error.Some? {
        FailNode("RAW_ARCHIVE_FAILED:" + result.error.value);
      }
    }

    /** One poll of the archive, the age limit, and at most one release to the matcher. */
    method PublishArchivedBundles(now: int, outcome: FE.Outcome)
      requires Valid()
      modifies this, fusion, gate, archive
      ensures Abstract() == FE.PublishArchived(config, old(Abstract()), now, outcome)
    {
      hide FE.Fail, FE.Collect, FE.Release, FE.Aged;
      hide DualFusion.Abstract, Gate.Abstract, DurableArchive.Abstract, GraphDelivery.Abstract;
      CollectArchived();
      if AnyAged(config, icpReady, now) {
        FailNode("RAW_ARCHIVE_AGE_EXCEEDED");
        return;
      }
      if byStamp != map[] || icpReady == [] {
        return;
      }
      ReleaseHead(now, outcome);
    }

    /** A source frame: it is watched, and then taken. */
    method SourceArrived(m: SourceMsg, now: int)
      requires Valid()
      modifies this, fusion, gate, archive
      ensures Abstract() == FE.Source(config, old(Abstract()), m, now)
    {
      hide FE.TakeFrame, FE.Fail, DualFusion.Abstract, Gate.Abstract, DurableArchive.Abstract, GraphDelivery.Abstract;
      if !m.sideOk {
        FailNode("SOURCE_SIDE_INVALID");
        return;
      }
      if m.clockFault.Some? {
        FailNode(m.clockFault.value);
        return;
      }
      WatchSource(m, now);
      FrameTaken(m, now);
    }

    /** The last observation of the side, and its run of stable ones. */
    method WatchSource(m: SourceMsg, now: int)
      requires Valid()
      modifies this`lastObservations, this`stableObservations
      ensures Abstract() == old(Abstract()).(watch := FE.Observed(config, old(Abstract()).watch, m, now))
    {
      hide DualFusion.Abstract, Gate.Abstract, DurableArchive.Abstract, GraphDelivery.Abstract;
      var side := m.frame.side;
      lastObservations := lastObservations[side := Seen(now, m.validated)];
      var history := if side in stableObservations then stableObservations[side] else [];
      var next := Sighting(now, m.frame.epoch, m.frame.sequence, m.frame.stamp);
      var valid := m.identified && 0 <= now - m.frame.hostTime <= config.fusion.maxAgeNs;
      var increasing := history == []
                        || (next.epoch == history[|history| - 1].epoch && next.sequence > history[|history| - 1].sequence
                            && next.stamp > history[|history| - 1].stamp);
      if valid && increasing {
        history := history + [next];
        history := if |history| > 5 then history[|history| - 5..] else history;   // deque(maxlen=5)
      } else {
        history := [];
      }
      stableObservations := stableObservations[side := history];
    }

    /** Fuse the frame, and archive the bundle it may complete. */
    method FrameTaken(m: SourceMsg, now: int)
      requires Valid()
      modifies this, fusion, gate, archive
      ensures Abstract() == FE.TakeFrame(config, old(Abstract()), m, now)
    {
      hide SF.Push, FE.Fail, FE.ArchiveBundle, Gate.Abstract, DurableArchive.Abstract, GraphDelivery.Abstract;
      if intentionalPause || fusion.latchedReason.Some? {
        return;
      }
      hide DualFusion.Abstract;
      if m.decodeFault.Some? {
        FailNode(m.decodeFault.value);
        return;
      }
      var reply := fusion.Push(m.frame, m.fuseFault, now);
      match reply {
        case Nothing =>
        case Raised(reason) => FailNode(reason);
        case Fused(b) => ArchiveFused(b, m, now);
      }
    }

    /** Guard the pipeline and submit the bundle's raw observations to the archive. */
    method ArchiveFused(b: SF.Bundle, m: SourceMsg, now: int)
      requires Valid()
      modifies this, fusion, gate, archive
      ensures Abstract() == FE.ArchiveBundle(config, old(Abstract()), b, m, now)
    {
      hide FE.Fail, RA.SubmitError, RA.DoSubmit, DualFusion.Abstract, Gate.Abstract, DurableArchive.Abstract, GraphDelivery.Abstract;
      if m.wheelFault.Some? {
        FailNode(m.wheelFault.value);
        return;
      }
      if !FE.InRosRange(b.tRef) {
        FailNode("ROS_STAMP_RANGE");
        return;
      }
      if b.tRef in byStamp || (exists k :: k in archivePending && archivePending[k].bundle.tRef == b.tRef)
         || (exists r :: r in icpReady && r.bundle.tRef == b.tRef) {
        FailNode("AMBIGUOUS_BUNDLE_STAMP");
        return;
      }
      if |archivePending| + |icpReady| + |byStamp| >= config.fusion.maxQueue {
        FailNode("ICP_ARCHIVE_PIPELINE_FULL");
        return;
      }
      SubmitRecord(b, m.payload, now);
    }

    method SubmitRecord(b: SF.Bundle, payload: string, now: int)
      requires Valid()
      modifies this, fusion, gate, archive
      ensures var s := old(Abstract());
              var error := RA.SubmitError(s.archive, FE.KeyOf(b.id), FE.PathOf(b.id), payload);
              Abstract() == if error.Some? then FE.Fail(s, error.value) else FE.Enter(s, Record(b, payload, now, |s.jobs|))
    {
      hide FE.Fail, RA.SubmitError, RA.DoSubmit, FE.KeyOf, FE.PathOf;
      hide DualFusion.Abstract, Gate.Abstract, DurableArchive.Abstract, GraphDelivery.Abstract;
      var key := FE.KeyOf(b.id);
      var record := Record(b, payload, now, |jobs|);
      ghost var before := archive.Abstract();
      var error := archive.SubmitJob(key, FE.PathOf(b.id), payload);
      if error.Some? {
        RefusedUnchanged(before, key, FE.PathOf(b.id), payload);
        FailNode(error.value);
        return;
      }
      archivePending, jobs := archivePending[key := record], jobs + [record];
    }

    static lemma RefusedUnchanged(a: RA.State, key: string, path: string, payload: string)
      requires RA.SubmitError(a, key, path, payload).Some?
      ensures RA.Step(a, RA.Submit(key, path, payload)) == a
    {
    }

    method DeliverPending(now: int, sendFault: Option<string>)
      requires Valid()
      modifies this, fusion, gate, graph
      ensures Abstract() == FE.DeliverGraph(config, old(Abstract()), now, sendFault)
    {
      hide FE.Fail, AD.Send, DualFusion.Abstract, Gate.Abstract, DurableArchive.Abstract;
      if graph == null || graph.failure.Some? {
        return;
      }
      hide GraphDelivery.Abstract;
      var payload, error := graph.NextPayload(now);
      FailureOf(graph);
      if error.Some? {
        FailNode(error.value);
      } else if payload.Publish? && sendFault.Some? {
        FailNode(sendFault.value);
      }
    }

    static lemma FailureOf(graph: GraphDelivery)
      ensures graph.Abstract().failure == graph.failure
    {
    }

    method GraphAckArrived(snapshot: AD.Snapshot)
      requires Valid()
      modifies this, fusion, gate, graph
      ensures Abstract() == FE.GraphAck(config, old(Abstract()), snapshot)
    {
      hide FE.Fail, AD.Acknowledge, DualFusion.Abstract, Gate.Abstract, DurableArchive.Abstract;
      if graph == null || graph.failure.Some? {
        return;
      }
      hide GraphDelivery.Abstract;
      var popped, error := graph.AcknowledgeSnapshot(snapshot);
      FailureOf(graph);
      if error.Some? {
        FailNode(error.value);
      }
    }

    method OdomArrived(key: int, publisherFault: Option<string>, odom: Odom, now: int, d: Delivery)
      requires Valid()
      modifies this, fusion, gate, graph
      ensures Abstract() == FE.Step(config, old(Abstract()), FE.OdomArrived(key, publisherFault, odom, now, d))
    {
      hide FE.Fail, FE.Complete, DualFusion.Abstract, Gate.Abstract, DurableArchive.Abstract, GraphDelivery.Abstract;
      if key !in byStamp {
        return;
      }
      if publisherFault.Some? {
        FailNode(publisherFault.value);
        return;
      }
      odomCache := odomCache[key := odom];
      CompleteResult(key, now, d);
    }

    method InfoArrived(key: int, info: Info, now: int, d: Delivery)
      requires Valid()
      modifies this, fusion, gate, graph
      ensures Abstract() == FE.Step(config, old(Abstract()), FE.InfoArrived(key, info, now, d))
    {
      hide FE.Fail, FE.Complete, DualFusion.Abstract, Gate.Abstract, DurableArchive.Abstract, GraphDelivery.Abstract;
      if key !in byStamp {
        return;
      }
      infoCache := infoCache[key := info];
      CompleteResult(key, now, d);
    }

    /** Once both halves of the result are here: judge it and hand it over. */
    method CompleteResult(key: int, now: int, d: Delivery)
      requires Valid()
      modifies this, fusion, gate, graph
      ensures Abstract() == FE.Complete(config, old(Abstract()), key, now, d)
    {
      hide FE.Fail, FE.AssessResult, DualFusion.Abstract, Gate.Abstract, DurableArchive.Abstract, GraphDelivery.Abstract;
      if key !in odomCache || key !in infoCache || key !in byStamp {
        return;
      }
      var odom, info := odomCache[key], infoCache[key];
      odomCache, infoCache := odomCache - {key}, infoCache - {key};
      if !odom.frameOk {
        FailNode("ODOM_FRAME_MISMATCH");
      } else if !odom.poseOk {
        FailNode("INVALID_ODOM_QUATERNION");
      } else if info.correspondences > 0 && !info.metricsOk {
        FailNode("INVALID_NATIVE_ICP_DIAGNOSTICS");
      } else {
        AssessAndHandOver(byStamp[key], odom, info, now, d);
      }
    }

    method AssessAndHandOver(r: Record, odom: Odom, info: Info, now: int, d: Delivery)
      requires Valid()
      modifies this, fusion, gate, graph
      ensures Abstract() == FE.AssessResult(config, old(Abstract()), r, odom, info, now, d)
    {
      hide FE.Fail, FE.HandOver, FE.Judged, AD.EnsureCapacity, TG.Assess;
      hide DualFusion.Abstract, Gate.Abstract, DurableArchive.Abstract, GraphDelivery.Abstract;
      if graph != null {
        var full := graph.CheckCapacity();
        FailureOf(graph);
        if full.Some? {
          FailNode(full.value);
          return;
        }
      }
      var result := Judge(r, odom, info);
      var error := gate.AssessResult(result, now);
      if error.Some? {
        FailNode(error.value);
      } else if d.relayFault.Some? {
        FailNode(d.relayFault.value);
      } else if d.lateFault.Some? {
        FailNode(d.lateFault.value);
      } else {
        HandOverAccepted(r, now, d);
      }
    }

    /** The verdict on a native result; the first accepted one initialises the map. */
    method Judge(r: Record, odom: Odom, info: Info) returns (result: TG.Assessment)
      ensures result == FE.Judged(config, Abstract(), r, odom, info)
    {
      hide DualFusion.Abstract, DurableArchive.Abstract, GraphDelivery.Abstract;
      var initialized, hasMetrics := gate.accepted == 0, info.correspondences > 0;
      var valid := !info.lost && (initialized || info.correspondences >= config.minCorrespondences);
      if !initialized && hasMetrics && !info.complexityOk {
        valid := false;
      }
      return TG.Assessment(r.bundle.id, true, r.bundle.tRef, valid, true, config.odomEpoch, true, odom.motionOk);
    }

    method HandOverAccepted(r: Record, now: int, d: Delivery)
      requires Valid()
      modifies this, fusion, gate, graph
      ensures Abstract() == FE.HandOver(config, old(Abstract()), r, now, d)
    {
      hide FE.Fail, FE.DeliverGraph, AD.Submit, DualFusion.Abstract, Gate.Abstract, DurableArchive.Abstract, GraphDelivery.Abstract;
      if graph != null {
        var error := graph.SubmitObservation(AD.Observation(r.bundle.id, d.rawKeys, config.odomEpoch, d.envelope));
        FailureOf(graph);
        if error.Some? {
          FailNode(error.value);
          return;
        }
        DeliverPending(now, d.sendFault);
      }
      byStamp := byStamp - {r.bundle.tRef};
    }

    /** The deadlines of a timer tick. */
    method CheckDeadlines(now: int)
      requires Valid()
      modifies this, fusion, gate
      ensures Abstract() == FE.Freshen(config, old(Abstract()), now)
    {
      hide FE.Fail, SF.CheckFreshness, TG.Expire, DurableArchive.Abstract, GraphDelivery.Abstract;
      var isFresh := fusion.CheckFreshness(now);
      var tracked := gate.ExpireAt(now);
      var stale, closed := fusion.latchedReason, gate.pausedReason;
      LatchesOf(fusion, gate);
      hide DualFusion.Abstract, Gate.Abstract;
      if !isFresh && closed.None? {
        FailNode(stale.value);
      } else if !tracked && stale.None? {
        FailNode(closed.value);
      }
    }

    static lemma LatchesOf(fusion: DualFusion, gate: Gate)
      ensures fusion.Abstract().latched == fusion.latchedReason && gate.Abstract().paused == gate.pausedReason
    {
    }

    method WatchdogTick(now: int, joinFault: Option<string>, outcome: FE.Outcome, later: int, sendFault: Option<string>)
      requires Valid()
      modifies this, fusion, gate, archive, graph
      ensures Abstract() == FE.Watchdog(config, old(Abstract()), now, joinFault, outcome, later, sendFault)
    {
      hide FE.Fail, FE.Freshen, FE.PublishArchived, FE.DeliverGraph;
      hide DualFusion.Abstract, Gate.Abstract, DurableArchive.Abstract, GraphDelivery.Abstract;
      LatchesOf(fusion, gate);
      if !intentionalPause && fusion.latchedReason.None? && joinFault.Some? {
        FailNode(joinFault.value);
      }
      if !intentionalPause {
        CheckDeadlines(now);
      }
      PublishArchivedBundles(now, outcome);
      DeliverPending(later, sendFault);
    }

    method PauseService()
      requires Valid()
      modifies this, fusion, gate
      ensures Abstract() == FE.Step(config, old(Abstract()), PauseCalled)
    {
      hide FE.Fail, DualFusion.Abstract, Gate.Abstract, DurableArchive.Abstract, GraphDelivery.Abstract;
      intentionalPause := true;
      FailNode("EXPLICIT_PAUSE");
    }

    /** Five stable observations of the side, and a fresh last one. */
    method CheckSteady(side: Side, now: int) returns (steady: bool)
      requires Valid()
      ensures steady == FE.SteadySide(config, Watch(lastObservations, stableObservations), side, now)
    {
      if side !in lastObservations || now - lastObservations[side].at >= config.fusion.maxAgeNs {
        return false;
      }
      var history := if side in stableObservations then stableObservations[side] else [];
      if |history| != 5 || now - history[0].at > 5 * config.fusion.maxAgeNs {
        return false;
      }
      for i := 0 to 5
        invariant forall k :: 0 <= k < i ==> history[k].epoch == history[0].epoch
      {
        if history[i].epoch != history[0].epoch {
          return false;
        }
      }
      return true;
    }

    /** The checks before anything is reopened: is a grant to be asked for, and is it due? */
    method Preflight(q: Request, now: int) returns (due: Option<bool>)
      requires Valid()
      ensures due.Some? <==> !config.wheel && !(Abstract().graph.Some? && Abstract().graph.value.failure.Some?)
                             && q.sessionOk && FE.SourcesValidated(Abstract().watch) && q.configOk
      ensures due.Some? ==> due.value == FE.Granted(config, Abstract(), q, now)
    {
      hide FE.SteadySide, DualFusion.Abstract, Gate.Abstract, DurableArchive.Abstract, GraphDelivery.Abstract;
      var leftSteady := CheckSteady(Left, now);
      var rightSteady := CheckSteady(Right, now);
      if config.wheel {
        return None;
      }
      if graph != null {
        FailureOf(graph);
        if graph.failure.Some? {
          return None;
        }
      }
      if !q.sessionOk {
        return None;
      }
      if Left !in lastObservations || !lastObservations[Left].validated
         || Right !in lastObservations || !lastObservations[Right].validated {
        return None;
      }
      if !q.configOk {
        return None;
      }
      return Some(q.asked && leftSteady && rightSteady && q.continuity);
    }

    /** Reopen gate and fusion and forget what was archived or in flight, or change nothing. */
    method ResumeService(q: Request, now: int) returns (accepted: bool)
      requires Valid()
      modifies this, fusion, gate
      ensures Abstract() == FE.Resume(config, old(Abstract()), q, now)
      ensures accepted == FE.Admitted(config, old(Abstract()), q, now)
    {
      hide TG.Resume, TG.Resumable, SF.Resume, FE.Granted, FE.SourcesValidated, Abstract;
      accepted := false;
      var due := Preflight(q, now);
      if due.Some? {
        accepted := ReopenParts(due.value, Some(q.odomEpoch));
        if accepted {
          ForgetFlights();
        }
      }
    }

    /** The gate decides; the fusion follows it. */
    method ReopenParts(due: bool, odomEpoch: Option<string>) returns (reopened: bool)
      requires Valid()
      modifies fusion, gate
      ensures reopened == TG.Resumable(old(Abstract()).gate, due, odomEpoch)
      ensures reopened ==> due
      ensures Abstract() == if !reopened then old(Abstract())
                            else old(Abstract()).(gate := TG.Resume(old(Abstract()).gate, true, odomEpoch),
                                                  fusion := SF.Resume(old(Abstract()).fusion, true))
    {
      hide TG.Resume, TG.Resumable, SF.Resume;
      hide DualFusion.Abstract, Gate.Abstract, DurableArchive.Abstract, GraphDelivery.Abstract;
      reopened := gate.ResumeGate(due, odomEpoch);
      if !reopened {
        NotResumed(old(gate.Abstract()), due, odomEpoch);
        return;
      }
      GrantNeeded(old(gate.Abstract()), due, odomEpoch);
      var resumed := fusion.Resume(due);
    }

    method ForgetFlights()
      requires Valid()
      modifies this
      ensures Abstract() == old(Abstract()).(byStamp := map[], archivePending := map[], odomCache := map[],
                                             infoCache := map[], paused := false)
    {
      hide DualFusion.Abstract, Gate.Abstract, DurableArchive.Abstract, GraphDelivery.Abstract;
      byStamp, archivePending, odomCache, infoCache, intentionalPause := map[], map[], map[], map[], false;
    }

    static lemma NotResumed(g: TG.State, granted: bool, odomEpoch: Option<string>)
      requires !TG.Resumable(g, granted, odomEpoch)
      ensures TG.Resume(g, granted, odomEpoch) == g
    {
    }

    static lemma GrantNeeded(g: TG.State, granted: bool, odomEpoch: Option<string>)
      requires TG.Resumable(g, granted, odomEpoch)
      ensures granted
    {
    }
  }
}
