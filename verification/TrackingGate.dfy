/**
 The gate between the scan matcher and the graph (`Gate` in src/wc_fusion/core.py): bundles
 handed to the matcher wait for its result, and any doubt pauses the gate and drops them.

 Session, participation and pose checks are verdicts carried by the inputs.
 */
module TrackingGate {
  import opened Common

  datatype Policy = Policy(maxPending: nat, timeoutNs: int)

  datatype Bundle = Bundle(id: nat, stamp: int, identityOk: bool, bothSides: bool)

  datatype Outstanding = Outstanding(bundle: Bundle, received: int)

  datatype Assessment = Assessment(
    id: nat, sessionOk: bool, stamp: int, trackingValid: bool, participationOk: bool, odomEpoch: string,
    poseOk: bool, motionOk: bool)

  datatype Acceptance = Acceptance(id: nat, stamp: int, odomEpoch: string, received: int, at: int)

  /** The fields, and the history of acceptances. */
  datatype State = State(
    pending: map<nat, Outstanding>, paused: Option<string>, odomEpoch: Option<string>, lastStamp: Option<int>,
    accepted: nat, lastResult: Option<int>, acceptances: seq<Acceptance>)

  const START := State(map[], None, None, None, 0, None, [])

  const BACKLOG := "DUPLICATE_BUNDLE_OR_BACKLOG"

  /** What waits is dropped in any case; only a text that is not empty pauses. */
  function Pause(s: State, reason: string): State {
    s.(paused := Told(reason), pending := map[])
  }

  /** Why a bundle is not taken. */
  function SubmitFault(p: Policy, s: State, b: Bundle): Option<string> {
    if !b.identityOk then Some("BUNDLE_SESSION_OR_MODE_MISMATCH")
    else if !b.bothSides then Some("DUAL_PARTICIPATION_MISSING")
    else if b.id in s.pending || |s.pending| >= p.maxPending then Some(BACKLOG)
    else None
  }

  function Submit(p: Policy, s: State, b: Bundle, now: int): (State, Option<string>) {
    if s.paused.Some? then (s, Some("GATE_PAUSED:" + s.paused.value))
    else if SubmitFault(p, s, b).Some? then (Pause(s, SubmitFault(p, s, b).value), SubmitFault(p, s, b))
    else (s.(pending := s.pending[b.id := Outstanding(b, now)]), None)
  }

  function AssessFault(p: Policy, s: State, o: Outstanding, r: Assessment, now: int): Option<string> {
    if !r.sessionOk || r.stamp != o.bundle.stamp then Some("ASSESSMENT_ID_TIME_MISMATCH")
    else if now - o.received < 0 || now - o.received > p.timeoutNs then Some("ICP_RESULT_TIMEOUT")
    else if !r.trackingValid then Some("TRACKING_FAILED")
    else if !r.participationOk then Some("ICP_INPUT_SOURCE_MISMATCH")
    else if s.odomEpoch.Some? && r.odomEpoch != s.odomEpoch.value then Some("ODOM_EPOCH_CHANGED")
    else if s.lastStamp.Some? && r.stamp <= s.lastStamp.value then Some("ODOM_TIME_NOT_INCREASING")
    else if !r.poseOk then Some("INVALID_ODOM_POSE")
    else if s.lastStamp.Some? && !r.motionOk then Some("ODOM_MOTION_JUMP")
    else None
  }

  function Accept(s: State, o: Outstanding, r: Assessment, now: int): State {
    s.(pending := s.pending - {r.id}, odomEpoch := Some(r.odomEpoch), lastStamp := Some(r.stamp), lastResult := Some(now),
       accepted := s.accepted + 1,
       acceptances := s.acceptances + [Acceptance(r.id, r.stamp, r.odomEpoch, o.received, now)])
  }

  function Assess(p: Policy, s: State, r: Assessment, now: int): (State, Option<string>) {
    if s.paused.Some? then (s, Some("GATE_PAUSED:" + s.paused.value))
    else if r.id !in s.pending then (Pause(s, "UNKNOWN_BUNDLE"), Some("UNKNOWN_BUNDLE"))
    else
      var o := s.pending[r.id];
      var fault := AssessFault(p, s, o, r, now);
      if fault.Some? then (Pause(s, fault.value), fault) else (Accept(s, o, r, now), None)
  }

  predicate Late(p: Policy, s: State, now: int) {
    exists id :: id in s.pending && now - s.pending[id].received > p.timeoutNs
  }

  /** The timer's check; it answers whether the gate is open. */
  function Expire(p: Policy, s: State, now: int): State {
    if Late(p, s, now) then Pause(s, "ICP_RESULT_TIMEOUT")
    else if s.lastResult.Some? && now - s.lastResult.value > p.timeoutNs then Pause(s, "TRACKING_STREAM_TIMEOUT")
    else s
  }

  /** Reopen on an explicit, stable, continuous request for the same odometry epoch, or for none
      while no pose has been accepted. */
  predicate Resumable(s: State, granted: bool, odomEpoch: Option<string>) {
    granted && odomEpoch == s.odomEpoch
  }

  function Resume(s: State, granted: bool, odomEpoch: Option<string>): State {
    if Resumable(s, granted, odomEpoch) then s.(pending := map[], paused := None, lastResult := None) else s
  }

  datatype Event =
    | Submitted(bundle: Bundle, now: int)
    | Assessed(result: Assessment, now: int)
    | Ticked(now: int)
    | Paused(reason: string)
    | Resumed(granted: bool, odomEpoch: Option<string>)

  function Step(p: Policy, s: State, e: Event): State {
    match e
    case Submitted(b, now) => Submit(p, s, b, now).0
    case Assessed(r, now) => Assess(p, s, r, now).0
    case Ticked(now) => Expire(p, s, now)
    case Paused(reason) => Pause(s, reason)
    case Resumed(granted, odomEpoch) => Resume(s, granted, odomEpoch)
  }

  function Run(p: Policy, events: seq<Event>): State {
    if events == [] then START else Step(p, Run(p, events[..|events| - 1]), events[|events| - 1])
  }

  // ----- invariants -----

  /** Accepted poses are in one epoch, in time order, each answered within the timeout. */
  ghost predicate AcceptancesOk(p: Policy, acceptances: seq<Acceptance>) {
    && (forall i, j :: 0 <= i < j < |acceptances| ==>
          acceptances[i].stamp < acceptances[j].stamp && acceptances[i].odomEpoch == acceptances[j].odomEpoch)
    && (forall i :: 0 <= i < |acceptances| ==> 0 <= acceptances[i].at - acceptances[i].received <= p.timeoutNs)
  }

  ghost predicate Invariant(p: Policy, s: State) {
    && AcceptancesOk(p, s.acceptances) && s.accepted == |s.acceptances|
    && s.lastStamp == (if s.acceptances == [] then None else Some(s.acceptances[|s.acceptances| - 1].stamp))
    && s.odomEpoch == (if s.acceptances == [] then None else Some(s.acceptances[|s.acceptances| - 1].odomEpoch))
    && (s.paused.Some? ==> s.pending == map[])
    && |s.pending| <= p.maxPending && (forall id :: id in s.pending ==> s.pending[id].bundle.id == id)
  }

  lemma StepKeeps(p: Policy, s: State, e: Event)
    requires Invariant(p, s)
    ensures Invariant(p, Step(p, s, e))
  {
    match e {
      case Submitted(b, now) =>
      case Assessed(r, now) =>
        if r.id in s.pending {
          hide AssessFault, Invariant;
          AcceptKeeps(p, s, r, now);
        }
      case _ =>
    }
  }

  lemma AcceptKeeps(p: Policy, s: State, r: Assessment, now: int)
    requires Invariant(p, s)
    ensures Invariant(p, Assess(p, s, r, now).0)
  {
    if s.paused.None? && r.id in s.pending && AssessFault(p, s, s.pending[r.id], r, now).None? {
      var s' := Accept(s, s.pending[r.id], r, now);
      assert s'.pending.Keys <= s.pending.Keys;
      SmallerMap(s'.pending, s.pending);
      AcceptancesGrow(p, s.acceptances, s'.acceptances[|s.acceptances|]);
    }
  }

  lemma SmallerMap<K, V>(a: map<K, V>, b: map<K, V>)
    requires a.Keys <= b.Keys
    ensures |a| <= |b|
  {
    Subset(a.Keys, b.Keys);
    assert |a.Keys| == |a| && |b.Keys| == |b|;
  }

  lemma Subset<K>(a: set<K>, b: set<K>)
    requires a <= b
    ensures |a| <= |b|
  {
    assert b == a + (b - a);
  }

  lemma AcceptancesGrow(p: Policy, acceptances: seq<Acceptance>, a: Acceptance)
    requires AcceptancesOk(p, acceptances) && 0 <= a.at - a.received <= p.timeoutNs
    requires acceptances != [] ==>
               acceptances[|acceptances| - 1].stamp < a.stamp && acceptances[|acceptances| - 1].odomEpoch == a.odomEpoch
    ensures AcceptancesOk(p, acceptances + [a])
  {
  }

  /** In every run, across pauses and resumes: accepted poses share one epoch and rise in time,
      and a paused gate holds nothing. */
  lemma {:induction false} AlwaysConsistent(p: Policy, events: seq<Event>)
    ensures Invariant(p, Run(p, events))
  {
    if events != [] {
      AlwaysConsistent(p, events[..|events| - 1]);
      StepKeeps(p, Run(p, events[..|events| - 1]), events[|events| - 1]);
      hide Step, Invariant;
    }
  }

  /**
   A result is accepted exactly when the gate is open, its bundle waits, it came in time for that
   bundle's own stamp, tracking and participation hold, and it continues the accepted poses: the
   same epoch, a later stamp, a possible motion.  Any other result closes an open gate.
   */
  lemma AcceptsExactly(p: Policy, s: State, r: Assessment, now: int)
    requires Invariant(p, s)
    ensures var s' := Assess(p, s, r, now).0;
            && (|s'.acceptances| > |s.acceptances| <==>
                  && s.paused.None? && r.id in s.pending
                  && r.sessionOk && r.stamp == s.pending[r.id].bundle.stamp && 0 <= now - s.pending[r.id].received <= p.timeoutNs
                  && r.trackingValid && r.participationOk && r.poseOk
                  && (s.acceptances != [] ==>
                        var last := s.acceptances[|s.acceptances| - 1];
                        r.odomEpoch == last.odomEpoch && last.stamp < r.stamp && r.motionOk))
            && (|s'.acceptances| == |s.acceptances| ==> s'.paused.Some? && s'.pending == map[])
  {
    hide AcceptancesOk;
  }

  /** An open gate that gives up has said why and forgets what waited; the accepted poses stay. */
  ghost predicate GivesUp(s: State, s': State) {
    s'.paused.Some? && s'.paused.value != "" && s' == s.(paused := s'.paused, pending := map[])
  }

  /**
   A bundle is taken exactly when the gate is open, it is dual and of the session, no bundle of its
   number waits, and fewer wait than the bound. A closed gate changes nothing; an open one that does
   not take the bundle gives up.
   */
  lemma TakesExactly(p: Policy, s: State, b: Bundle, now: int)
    ensures var (s', fault) := Submit(p, s, b, now);
            if s.paused.None? && b.identityOk && b.bothSides && b.id !in s.pending && |s.pending| < p.maxPending
            then fault.None? && s' == s.(pending := s.pending[b.id := Outstanding(b, now)])
            else fault.Some? && if s.paused.Some? then s' == s else GivesUp(s, s')
  {
  }

  /** A tick gives up exactly when a bundle has waited, or no pose was accepted since the last one, for
      longer than the timeout. */
  lemma ExpiresExactly(p: Policy, s: State, now: int)
    ensures var s' := Expire(p, s, now);
            if (exists id :: id in s.pending && s.pending[id].received + p.timeoutNs < now)
               || (s.lastResult.Some? && s.lastResult.value + p.timeoutNs < now)
            then GivesUp(s, s') else s' == s
  {
    if id :| id in s.pending && s.pending[id].received + p.timeoutNs < now {
      assert Late(p, s, now);
    }
  }

  /** A resume reopens exactly when it was granted and names the epoch of the accepted poses, or none
      before the first; only these are remembered. A refused one changes nothing. */
  lemma ResumesExactly(p: Policy, s: State, granted: bool, odomEpoch: Option<string>)
    requires Invariant(p, s)
    ensures var s' := Resume(s, granted, odomEpoch);
            if granted && odomEpoch == (if s.acceptances == [] then None else Some(s.acceptances[|s.acceptances| - 1].odomEpoch))
            then s' == START.(odomEpoch := s.odomEpoch, lastStamp := s.lastStamp, accepted := s.accepted, acceptances := s.acceptances)
            else s' == s
  {
    hide AcceptancesOk;
  }
}
