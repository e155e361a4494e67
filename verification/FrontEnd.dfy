/**
 The mapping front end (`FusionNode` in src/wc_fusion/ros_node.py) as one state machine over the
 fusion, the durable archive, the gate and the graph delivery: a fused bundle is archived, then
 waits until the matcher is free, is published to it once, and its accepted pose goes to the graph.

 Every callback, timer tick, service call and archive-worker step is an event.  Message decoding,
 the numbers behind a verdict, and calls that may raise are inputs of the event.
 */
module FrontEnd {
  import opened Common
  import opened Decimals
  import SF = SourceFusion
  import RA = RawArchive
  import TG = TrackingGate
  import AD = AckedDelivery

  datatype Config = Config(
    fusion: SF.Policy, gate: TG.Policy, graph: Option<AD.Policy>, wheel: bool, odomEpoch: string, minCorrespondences: int)
  {
    predicate Valid() {
      1 <= fusion.maxQueue <= 8 && gate.maxPending == fusion.maxQueue && (graph.Some? ==> graph.value.Valid())
    }
  }

  /** A bundle with its archive payload, when it was submitted, and the number of its archive job. */
  datatype Record = Record(bundle: SF.Bundle, payload: string, submitted: int, nth: nat)

  /** A bundle handed to the matcher, when, and the newest bundle id at the last `fail()`. */
  datatype Publication = Publication(record: Record, at: int, mark: nat)

  datatype Odom = Odom(frameOk: bool, poseOk: bool, motionOk: bool)

  datatype Info = Info(lost: bool, correspondences: int, metricsOk: bool, complexityOk: bool)

  /** One message as the preflight of a resume remembers it. */
  datatype Sighting = Sighting(at: int, epoch: string, sequence: int, stamp: int)

  /** The last message of a side: when it came, and whether its sensor and its times are validated. */
  datatype Seen = Seen(at: int, validated: bool)

  /** Of each side the last message and up to five consecutive valid ones. */
  datatype Watch = Watch(last: map<Side, Seen>, stable: map<Side, seq<Sighting>>)

  datatype State = State(
    fusion: SF.State, gate: TG.State, graph: Option<AD.State>, archive: RA.State,
    archivePending: map<string, Record>, icpReady: seq<Record>, byStamp: map<int, Record>,
    odomCache: map<int, Odom>, infoCache: map<int, Info>, watch: Watch, paused: bool,
    jobs: seq<Record>, published: seq<Publication>, mark: nat, failures: nat)

  function Start(c: Config, graphEpoch: Option<string>, disk: RA.Disk): State {
    State(SF.START, TG.START, if c.graph.Some? then Some(AD.Start(graphEpoch)) else None, RA.Start(c.fusion.maxQueue, disk),
          map[], [], map[], map[], map[], Watch(map[], map[]), false, [], [], 0, 0)
  }

  /** `fail()`: latch the fusion, pause the gate, drop everything on its way.  With an empty text
      neither latches, and what had latched before is open again. */
  function Fail(s: State, reason: string): State {
    s.(fusion := SF.Latch(s.fusion, reason), gate := TG.Pause(s.gate, reason),
       byStamp := map[], archivePending := map[], icpReady := [], odomCache := map[], infoCache := map[],
       mark := s.fusion.bundleCounter, failures := s.failures + 1)
  }

  // ----- a source frame -----

  /** `validated`: the sensor id is the side's and both time flags are set; `identified`: so are
      session, clock model, time source, conventions and units. */
  datatype SourceMsg = SourceMsg(
    frame: SF.Frame, sideOk: bool, clockFault: Option<string>, validated: bool, identified: bool,
    decodeFault: Option<string>, fuseFault: Option<string>, wheelFault: Option<string>, payload: string)

  function Stable(w: Watch, side: Side): seq<Sighting> {
    if side in w.stable then w.stable[side] else []
  }

  predicate Continues(history: seq<Sighting>, next: Sighting) {
    history == []
    || (var last := history[|history| - 1];
        next.epoch == last.epoch && last.sequence < next.sequence && last.stamp < next.stamp)
  }

  /** The last five; an invalid or unordered message starts over. */
  function Observed(c: Config, w: Watch, m: SourceMsg, now: int): Watch {
    var side, history := m.frame.side, Stable(w, m.frame.side);
    var next := Sighting(now, m.frame.epoch, m.frame.sequence, m.frame.stamp);
    var valid := m.identified && 0 <= now - m.frame.hostTime <= c.fusion.maxAgeNs;
    var kept := if valid && Continues(history, next) then SF.Last(history + [next], 5) else [];
    Watch(w.last[side := Seen(now, m.validated)], w.stable[side := kept])
  }

  function KeyOf(id: nat): string {
    Digits(id)
  }

  function PathOf(id: nat): string {
    Digits(id) + ".json"
  }

  function JobOf(r: Record): RA.Job {
    RA.Job(KeyOf(r.bundle.id), PathOf(r.bundle.id), r.payload)
  }

  predicate InRosRange(stamp: int) {
    -0x8000_0000 <= stamp / 1_000_000_000 < 0x8000_0000
  }

  predicate StampInUse(s: State, stamp: int) {
    || stamp in s.byStamp
    || (exists k :: k in s.archivePending && s.archivePending[k].bundle.tRef == stamp)
    || (exists r :: r in s.icpReady && r.bundle.tRef == stamp)
  }

  /** Bundles archived, ready or in flight. */
  function Load(s: State): nat {
    |s.archivePending| + |s.icpReady| + |s.byStamp|
  }

  function Enter(s: State, r: Record): State {
    s.(archive := RA.DoSubmit(s.archive, KeyOf(r.bundle.id), PathOf(r.bundle.id), r.payload),
       archivePending := s.archivePending[KeyOf(r.bundle.id) := r], jobs := s.jobs + [r])
  }

  /** Why a fused bundle does not enter the archive queue. */
  function EntryFault(c: Config, s: State, b: SF.Bundle, m: SourceMsg): Option<string> {
    if m.wheelFault.Some? then m.wheelFault
    else if !InRosRange(b.tRef) then Some("ROS_STAMP_RANGE")
    else if StampInUse(s, b.tRef) then Some("AMBIGUOUS_BUNDLE_STAMP")
    else if Load(s) >= c.fusion.maxQueue then Some("ICP_ARCHIVE_PIPELINE_FULL")
    else RA.SubmitError(s.archive, KeyOf(b.id), PathOf(b.id), m.payload)
  }

  function ArchiveBundle(c: Config, s: State, b: SF.Bundle, m: SourceMsg, now: int): State {
    var fault := EntryFault(c, s, b, m);
    if fault.Some? then Fail(s, fault.value) else Enter(s, Record(b, m.payload, now, |s.jobs|))
  }

  function Source(c: Config, s: State, m: SourceMsg, now: int): State {
    if !m.sideOk then Fail(s, "SOURCE_SIDE_INVALID")
    else if m.clockFault.Some? then Fail(s, m.clockFault.value)
    else TakeFrame(c, s.(watch := Observed(c, s.watch, m, now)), m, now)
  }

  /** A closed node has only looked at the frame. */
  function TakeFrame(c: Config, s: State, m: SourceMsg, now: int): State {
    if s.paused || s.fusion.latched.Some? then s
    else if m.decodeFault.Some? then Fail(s, m.decodeFault.value)
    else
      var pushed := SF.Push(c.fusion, s.fusion, m.frame, m.fuseFault, now);
      var s1 := s.(fusion := pushed.0);
      match pushed.1
      case Raised(reason) => Fail(s1, reason)
      case Nothing => s1
      case Fused(b) => ArchiveBundle(c, s1, b, m, now)
  }

  // ----- archived bundles -----

  function PollOne(s: State, r: RA.ArchiveResult): State {
    var s1 := s.(archivePending := s.archivePending - {r.key});
    if r.error.Some? then Fail(s1, "RAW_ARCHIVE_FAILED:" + r.error.value)
    else if r.key !in s.archivePending || s.paused || s.fusion.latched.Some? then s1
    else s1.(icpReady := s.icpReady + [s.archivePending[r.key]])
  }

  function PollAll(s: State, results: seq<RA.ArchiveResult>): State {
    if results == [] then s else PollOne(PollAll(s, results[..|results| - 1]), results[|results| - 1])
  }

  function Collect(s: State): State {
    PollAll(s.(archive := RA.DoPoll(s.archive)), s.archive.results)
  }

  predicate Aged(c: Config, r: Record, now: int) {
    !(0 <= now - r.submitted <= c.fusion.maxAgeNs)
  }

  predicate AnyAged(c: Config, ready: seq<Record>, now: int) {
    exists r :: r in ready && Aged(c, r, now)
  }

  /** The fusion emits only dual bundles of its own session. */
  function GateBundle(b: SF.Bundle): TG.Bundle {
    TG.Bundle(b.id, b.tRef, true, true)
  }

  /** Publishing succeeds, raises before the bundle is out, or after it. */
  datatype Outcome = Sent | Unsent(text: string) | SentThen(text: string)

  function Release(c: Config, s: State, now: int, outcome: Outcome): State
    requires s.icpReady != []
  {
    var r := s.icpReady[0];
    var taken := TG.Submit(c.gate, s.gate, GateBundle(r.bundle), now);
    var s1 := s.(icpReady := s.icpReady[1..], gate := taken.0);
    if taken.1.Some? then Fail(s1, taken.1.value)
    else
      var s2 := s1.(byStamp := s1.byStamp[r.bundle.tRef := r]);
      if outcome.Unsent? then Fail(s2, outcome.text)
      else
        var s3 := s2.(published := s2.published + [Publication(r, now, s2.mark)]);
        if outcome.SentThen? then Fail(s3, outcome.text) else s3
  }

  function PublishArchived(c: Config, s: State, now: int, outcome: Outcome): State {
    var s1 := Collect(s);
    if AnyAged(c, s1.icpReady, now) then Fail(s1, "RAW_ARCHIVE_AGE_EXCEEDED")
    else if s1.byStamp != map[] || s1.icpReady == [] then s1
    else Release(c, s1, now, outcome)
  }

  // ----- results of the matcher -----

  /** Raw keys and serialised envelope of the accepted bundle, and what may raise on the way. */
  datatype Delivery = Delivery(
    rawKeys: seq<string>, envelope: string, relayFault: Option<string>, lateFault: Option<string>, sendFault: Option<string>)

  function Judged(c: Config, s: State, r: Record, odom: Odom, info: Info): TG.Assessment {
    var initialized := s.gate.accepted == 0;
    var hasMetrics := info.correspondences > 0;
    var valid := !info.lost && (initialized || info.correspondences >= c.minCorrespondences)
                 && (initialized || !hasMetrics || info.complexityOk);
    TG.Assessment(r.bundle.id, true, r.bundle.tRef, valid, true, c.odomEpoch, true, odom.motionOk)
  }

  function DeliverGraph(c: Config, s: State, now: int, sendFault: Option<string>): State {
    if c.graph.None? || s.graph.None? || s.graph.value.failure.Some? then s
    else
      var sending := AD.Send(c.graph.value, s.graph.value, now);
      var s1 := s.(graph := Some(sending.0));
      if sending.0.failure.Some? then Fail(s1, sending.0.failure.value)
      else if sending.1.Publish? && sendFault.Some? then Fail(s1, sendFault.value)
      else s1
  }

  function HandOver(c: Config, s: State, r: Record, now: int, d: Delivery): State {
    if c.graph.None? || s.graph.None? then s.(byStamp := s.byStamp - {r.bundle.tRef})
    else
      var g := AD.Submit(c.graph.value, s.graph.value, AD.Observation(r.bundle.id, d.rawKeys, c.odomEpoch, d.envelope));
      var s1 := s.(graph := Some(g));
      if g.failure.Some? then Fail(s1, g.failure.value)
      else
        var s2 := DeliverGraph(c, s1, now, d.sendFault);
        s2.(byStamp := s2.byStamp - {r.bundle.tRef})
  }

  function CheckGraph(c: Config, s: State): State {
    if c.graph.None? || s.graph.None? then s else s.(graph := Some(AD.EnsureCapacity(c.graph.value, s.graph.value)))
  }

  function AssessResult(c: Config, s: State, r: Record, odom: Odom, info: Info, now: int, d: Delivery): State {
    var s1 := CheckGraph(c, s);
    if s1.graph.Some? && s1.graph.value.failure.Some? then Fail(s1, s1.graph.value.failure.value)
    else
      var judged := TG.Assess(c.gate, s1.gate, Judged(c, s1, r, odom, info), now);
      var s2 := s1.(gate := judged.0);
      if judged.1.Some? then Fail(s2, judged.1.value)
      else if d.relayFault.Some? then Fail(s2, d.relayFault.value)
      else if d.lateFault.Some? then Fail(s2, d.lateFault.value)
      else HandOver(c, s2, r, now, d)
  }

  function Complete(c: Config, s: State, key: int, now: int, d: Delivery): State {
    if key !in s.odomCache || key !in s.infoCache || key !in s.byStamp then s
    else
      var odom, info := s.odomCache[key], s.infoCache[key];
      var s1 := s.(odomCache := s.odomCache - {key}, infoCache := s.infoCache - {key});
      if !odom.frameOk then Fail(s1, "ODOM_FRAME_MISMATCH")
      else if !odom.poseOk then Fail(s1, "INVALID_ODOM_QUATERNION")
      else if info.correspondences > 0 && !info.metricsOk then Fail(s1, "INVALID_NATIVE_ICP_DIAGNOSTICS")
      else AssessResult(c, s1, s.byStamp[key], odom, info, now, d)
  }

  // ----- timer and services -----

  /** The two deadlines of a timer tick; `fail()` is called only when one of them missed alone. */
  function Freshen(c: Config, s: State, now: int): State {
    var f, g := SF.CheckFreshness(c.fusion, s.fusion, now), TG.Expire(c.gate, s.gate, now);
    var s1 := s.(fusion := f, gate := g);
    if f.latched.Some? && g.paused.None? then Fail(s1, f.latched.value)
    else if g.paused.Some? && f.latched.None? then Fail(s1, g.paused.value)
    else s1
  }

  function Watchdog(c: Config, s: State, now: int, joinFault: Option<string>, outcome: Outcome, later: int,
                    sendFault: Option<string>): State
  {
    var s1 := if !s.paused && s.fusion.latched.None? && joinFault.Some? then Fail(s, joinFault.value) else s;
    var s2 := if s1.paused then s1 else Freshen(c, s1, now);
    DeliverGraph(c, PublishArchived(c, s2, now, outcome), later, sendFault)
  }

  datatype Request = Request(sessionOk: bool, configOk: bool, asked: bool, continuity: bool, odomEpoch: string)

  /** A fresh last message, and five valid ones of one epoch within five age limits. */
  predicate SteadySide(c: Config, w: Watch, side: Side, now: int) {
    var history := Stable(w, side);
    && side in w.last && now - w.last[side].at < c.fusion.maxAgeNs
    && |history| == 5 && now - history[0].at <= 5 * c.fusion.maxAgeNs
    && forall i :: 0 <= i < |history| ==> history[i].epoch == history[0].epoch
  }

  predicate Steady(c: Config, w: Watch, now: int) {
    SteadySide(c, w, Left, now) && SteadySide(c, w, Right, now)
  }

  predicate SourcesValidated(w: Watch) {
    && Left in w.last && w.last[Left].validated
    && Right in w.last && w.last[Right].validated
  }

  predicate Granted(c: Config, s: State, q: Request, now: int) {
    q.asked && Steady(c, s.watch, now) && q.continuity
  }

  predicate Admitted(c: Config, s: State, q: Request, now: int) {
    && !c.wheel && !(s.graph.Some? && s.graph.value.failure.Some?)
    && q.sessionOk && SourcesValidated(s.watch) && q.configOk
    && TG.Resumable(s.gate, Granted(c, s, q, now), Some(q.odomEpoch))
  }

  function Resume(c: Config, s: State, q: Request, now: int): State {
    if !Admitted(c, s, q, now) then s
    else
      s.(gate := TG.Resume(s.gate, true, Some(q.odomEpoch)), fusion := SF.Resume(s.fusion, true),
         byStamp := map[], archivePending := map[], odomCache := map[], infoCache := map[], paused := false)
  }

  function GraphAck(c: Config, s: State, snapshot: AD.Snapshot): State {
    if c.graph.None? || s.graph.None? || s.graph.value.failure.Some? then s
    else
      var g := AD.Acknowledge(c.graph.value, s.graph.value, snapshot);
      var s1 := s.(graph := Some(g));
      if g.failure.Some? then Fail(s1, g.failure.value) else s1
  }

  datatype Event =
    | SourceFrame(msg: SourceMsg, now: int)
    | OdomArrived(key: int, publisherFault: Option<string>, odom: Odom, now: int, delivery: Delivery)
    | InfoArrived(key: int, info: Info, now: int, delivery: Delivery)
    | Tick(now: int, joinFault: Option<string>, outcome: Outcome, later: int, sendFault: Option<string>)
    | Acked(snapshot: AD.Snapshot)
    | PauseCalled
    | ResumeCalled(request: Request, now: int)
    | OtherFault(reason: string)          // wheel callbacks and the raw/filtered join
    | ArchiveWork(answer: RA.Outcome)
    | FileAppears(path: string, file: RA.File)
    | Shutdown

  function Step(c: Config, s: State, e: Event): State {
    match e
    case SourceFrame(m, now) => Source(c, s, m, now)
    case OdomArrived(key, publisherFault, odom, now, d) =>
      if key !in s.byStamp then s
      else if publisherFault.Some? then Fail(s, publisherFault.value)
      else Complete(c, s.(odomCache := s.odomCache[key := odom]), key, now, d)
    case InfoArrived(key, info, now, d) =>
      if key !in s.byStamp then s else Complete(c, s.(infoCache := s.infoCache[key := info]), key, now, d)
    case Tick(now, joinFault, outcome, later, sendFault) => Watchdog(c, s, now, joinFault, outcome, later, sendFault)
    case Acked(snapshot) => GraphAck(c, s, snapshot)
    case PauseCalled => Fail(s.(paused := true), "EXPLICIT_PAUSE")
    case ResumeCalled(q, now) => Resume(c, s, q, now)
    case OtherFault(reason) => Fail(s, reason)
    case ArchiveWork(answer) => s.(archive := RA.DoWork(s.archive, answer))
    case FileAppears(path, file) => s.(archive := RA.Step(s.archive, RA.Appear(path, file)))
    case Shutdown => s.(archive := RA.DoClose(s.archive))
  }

  function Run(c: Config, s: State, events: seq<Event>): State {
    if events == [] then s else Step(c, Run(c, s, events[..|events| - 1]), events[|events| - 1])
  }
}
