/**
 Wheel guesses for the scan matcher (`WheelTfBridge` in src/wc_fusion/wheel_tf.py): a guess is
 prepared when a bundle is fused, registered when its cloud is published, and answered by the
 matcher's pose, which alone is relayed.

 Poses are opaque tokens; parsing and the numerical checks are verdicts carried by the inputs.
 */
module WheelGuess {
  import opened Common

  type Pose = string

  datatype Policy = Policy(maxQueue: nat, maxAgeNs: nat, maxPredictionNs: nat, maxUncertaintyNs: nat)

  /** A wheel odometry message joined with its diagnostics. */
  datatype Wheel = Wheel(
    stamp: Result<int, string>, framesMatch: bool, diagnosticValid: bool, timeSourceOk: bool,
    diagnosticStamp: Result<int, string>, uncertainty: Result<int, string>, sequence: Result<int, string>,
    epoch: string, pose: Result<Pose, string>, motionFault: Option<string>)

  datatype Guess = Guess(stamp: int, epoch: string, pose: Pose)

  /** What the caller hands back when it publishes the cloud. */
  datatype Record = Record(stamp: int, framesMatch: bool, sourceMatches: bool, pose: Pose)

  datatype Native = Native(stamp: Result<int, string>, framesMatch: bool, pose: Result<Pose, string>)

  datatype Observed = Observed(stamp: int, sequence: int, mono: int, epoch: string)

  /** The fields, and four histories. */
  datatype State = State(
    history: seq<int>, epoch: Option<string>, sequence: int, latestReceive: Option<int>, blocked: Option<string>,
    prepared: seq<Guess>, pending: seq<Guess>,
    lastPrepared: Option<int>, lastRegistered: Option<int>, lastRelayed: Option<int>,
    observed: seq<Observed>, allPrepared: seq<int>, allRegistered: seq<int>, allRelayed: seq<int>)

  const START := State([], None, 0, None, None, [], [], None, None, None, [], [], [], [])

  // ----- wheel observations -----

  predicate Within(x: int, bound: int) {
    0 <= x <= bound
  }

  /** The checks of one observation, in order. */
  function ObserveFault(p: Policy, s: State, w: Wheel, now: int, mono: int): Option<string> {
    if w.stamp.Err? then Some(w.stamp.error)
    else if now < 1 then Some("NOW_INVALID")
    else if mono < 0 then Some("MONOTONIC_INVALID")
    else if !w.framesMatch then Some("WHEEL_TF_FRAME_MISMATCH")
    else if !w.diagnosticValid then Some("WHEEL_TF_DIAGNOSTIC_INVALID")
    else if !w.timeSourceOk then Some("WHEEL_TF_COMMON_TIME_MISMATCH")
    else if w.diagnosticStamp.Err? then Some(w.diagnosticStamp.error)
    else if w.diagnosticStamp.value != w.stamp.value then Some("WHEEL_TF_COMMON_TIME_MISMATCH")
    else if w.uncertainty.Err? then Some(w.uncertainty.error)
    else if w.uncertainty.value > p.maxUncertaintyNs || !Within(now - w.stamp.value, p.maxAgeNs) then
      Some("WHEEL_TF_TIME_BUDGET_EXCEEDED")
    else if w.sequence.Err? then Some(w.sequence.error)
    else if w.epoch == "" then Some("WHEEL_TF_EPOCH_REQUIRED")
    else if s.epoch.Some? && (w.epoch != s.epoch.value || w.sequence.value <= s.sequence) then
      Some("WHEEL_TF_EPOCH_OR_SEQUENCE_RESET")
    else if s.latestReceive.Some? && mono < s.latestReceive.value then Some("WHEEL_TF_MONOTONIC_CLOCK_RESET")
    else if w.pose.Err? then Some(w.pose.error)
    else if s.history != [] && !(0 < w.stamp.value - s.history[|s.history| - 1] <= p.maxAgeNs) then
      Some("WHEEL_TF_TIME_GAP_OR_RESET")
    else if s.history != [] then w.motionFault
    else None
  }

  /** The pose history keeps three stamps. */
  function Appended(history: seq<int>, stamp: int): seq<int> {
    if |history| < 3 then history + [stamp] else history[|history| - 2..] + [stamp]
  }

  /** A fault is raised in any case; only one whose text is not empty blocks. */
  function Observe(p: Policy, s: State, w: Wheel, now: int, mono: int): State {
    if s.blocked.Some? then s
    else if ObserveFault(p, s, w, now, mono).Some? then s.(blocked := Told(ObserveFault(p, s, w, now, mono).value))
    else
      s.(history := Appended(s.history, w.stamp.value), epoch := Some(w.epoch), sequence := w.sequence.value,
         latestReceive := Some(mono),
         observed := s.observed + [Observed(w.stamp.value, w.sequence.value, mono, w.epoch)])
  }

  // ----- guesses -----

  const NOT_INCREASING := "WHEEL_TF_ICP_INPUT_NOT_INCREASING"
  const FROZEN_CHANGED := "WHEEL_TF_FROZEN_GUESS_CHANGED"
  const UNEXPECTED := "NATIVE_ICP_TF_UNEXPECTED_STAMP"
  const REVERSED := "NATIVE_ICP_TF_DUPLICATE_OR_REVERSED"

  function FreshFault(p: Policy, s: State, now: int, mono: int): Option<string> {
    if now < 1 then Some("NOW_INVALID")
    else if mono < 0 then Some("MONOTONIC_INVALID")
    else if s.latestReceive.None? || s.history == [] then Some("WHEEL_TF_NO_OBSERVATIONS")
    else if !Within(mono - s.latestReceive.value, p.maxAgeNs) || !Within(now - s.history[|s.history| - 1], p.maxAgeNs) then
      Some("WHEEL_TF_STALE_OR_CLOCK_JUMP")
    else None
  }

  /** Prediction at `stamp` from the two newest poses; the numbers are an input. */
  function Predict(p: Policy, history: seq<int>, stamp: int, numbers: Result<Pose, string>): Result<Pose, string> {
    if |history| < 2 then Err("PREDICTION_NEEDS_COMPLETED_HISTORY")
    else if stamp < history[|history| - 2] || stamp - history[|history| - 1] > p.maxPredictionNs then Err("PREDICTION_EXPIRED")
    else numbers
  }

  function Prepare(p: Policy, s: State, stamp: int, now: int, mono: int, numbers: Result<Pose, string>): Result<Pose, string> {
    if s.blocked.Some? then Err("WHEEL_TF_BLOCKED:" + s.blocked.value)
    else if FreshFault(p, s, now, mono).Some? then Err(FreshFault(p, s, now, mono).value)
    else if stamp < 1 then Err("ICP_INPUT_STAMP_INVALID")
    else if s.lastPrepared.Some? && stamp <= s.lastPrepared.value then Err(NOT_INCREASING)
    else if |s.prepared| + |s.pending| >= p.maxQueue then Err("WHEEL_TF_PREPARED_QUEUE_FULL")
    else if !Within(now - stamp, p.maxAgeNs) then Err("WHEEL_TF_ICP_INPUT_STALE_OR_FUTURE")
    else Predict(p, s.history, stamp, numbers)
  }

  function DoPrepare(s: State, stamp: int, result: Result<Pose, string>): State {
    if result.Err? || s.epoch.None? then s
    else s.(prepared := s.prepared + [Guess(stamp, s.epoch.value, result.value)], lastPrepared := Some(stamp),
            allPrepared := s.allPrepared + [stamp])
  }

  function Register(s: State, r: Record): Result<Pose, string> {
    if s.blocked.Some? then Err("WHEEL_TF_BLOCKED:" + s.blocked.value)
    else if r.stamp < 1 then Err("ICP_INPUT_STAMP_INVALID")
    else if s.pending != [] then Err("WHEEL_TF_ICP_INPUT_ALREADY_IN_FLIGHT")
    else if s.prepared == [] || r.stamp != s.prepared[0].stamp then Err("WHEEL_TF_UNPREPARED_OR_REORDERED_GUESS")
    else if Some(s.prepared[0].epoch) != s.epoch || !r.framesMatch || !r.sourceMatches || r.pose != s.prepared[0].pose then
      Err(FROZEN_CHANGED)
    else if s.lastRegistered.Some? && r.stamp <= s.lastRegistered.value then Err(NOT_INCREASING)
    else Ok(r.pose)
  }

  function DoRegister(s: State, r: Record): State {
    if Register(s, r).Err? then s
    else s.(prepared := s.prepared[1..], pending := [s.prepared[0]], lastRegistered := Some(r.stamp),
            allRegistered := s.allRegistered + [r.stamp])
  }

  predicate Pending(s: State, stamp: int) {
    exists g :: g in s.pending && g.stamp == stamp
  }

  /** A pending guess with this stamp and the current epoch. */
  predicate Expected(s: State, stamp: int) {
    exists g :: g in s.pending && g.stamp == stamp && Some(g.epoch) == s.epoch
  }

  function Relay(s: State, n: Native): Result<Pose, string> {
    if s.blocked.Some? then Err("WHEEL_TF_BLOCKED:" + s.blocked.value)
    else if n.stamp.Err? then Err(n.stamp.error)
    else if !n.framesMatch then Err("NATIVE_ICP_TF_FRAME_MISMATCH")
    else if !Expected(s, n.stamp.value) then Err(UNEXPECTED)
    else if s.lastRelayed.Some? && n.stamp.value <= s.lastRelayed.value then Err(REVERSED)
    else n.pose
  }

  function Without(pending: seq<Guess>, stamp: int): seq<Guess> {
    if pending == [] then []
    else (if pending[0].stamp == stamp then [] else [pending[0]]) + Without(pending[1..], stamp)
  }

  function DoRelay(s: State, n: Native): State {
    if Relay(s, n).Err? then s
    else s.(pending := Without(s.pending, n.stamp.value), lastRelayed := Some(n.stamp.value),
            allRelayed := s.allRelayed + [n.stamp.value])
  }

  datatype Event =
    | Observing(wheel: Wheel, now: int, mono: int)
    | Preparing(stamp: int, now: int, mono: int, numbers: Result<Pose, string>)
    | Registering(record: Record)
    | Relaying(native: Native)

  function Step(p: Policy, s: State, e: Event): State {
    match e
    case Observing(w, now, mono) => Observe(p, s, w, now, mono)
    case Preparing(stamp, now, mono, numbers) => DoPrepare(s, stamp, Prepare(p, s, stamp, now, mono, numbers))
    case Registering(r) => DoRegister(s, r)
    case Relaying(n) => DoRelay(s, n)
  }

  function Run(p: Policy, events: seq<Event>): State {
    if events == [] then START else Step(p, Run(p, events[..|events| - 1]), events[|events| - 1])
  }

  // ----- invariants -----

  ghost predicate Rising(stamps: seq<int>) {
    forall i, j :: 0 <= i < j < |stamps| ==> stamps[i] < stamps[j]
  }

  function Stamps(guesses: seq<Guess>): (r: seq<int>)
    ensures |r| == |guesses| && forall i :: 0 <= i < |r| ==> r[i] == guesses[i].stamp
  {
    if guesses == [] then [] else [guesses[0].stamp] + Stamps(guesses[1..])
  }

  predicate Newest(last: Option<int>, stamps: seq<int>) {
    last == if stamps == [] then None else Some(stamps[|stamps| - 1])
  }

  /** Every stamp passes prepared, registered, relayed in this order; at most one is in flight. */
  ghost predicate Chain(prepared: seq<int>, registered: seq<int>, relayed: seq<int>, waiting: seq<int>, flying: seq<int>) {
    Rising(prepared) && prepared == registered + waiting && registered == relayed + flying && |flying| <= 1
  }

  ghost predicate ChainOk(s: State) {
    && Chain(s.allPrepared, s.allRegistered, s.allRelayed, Stamps(s.prepared), Stamps(s.pending))
    && Newest(s.lastPrepared, s.allPrepared) && Newest(s.lastRegistered, s.allRegistered) && Newest(s.lastRelayed, s.allRelayed)
  }

  ghost predicate EpochsOk(s: State) {
    && (forall g :: g in s.prepared || g in s.pending ==> Some(g.epoch) == s.epoch)
    && (s.epoch.None? <==> s.observed == []) && (s.observed == [] <==> s.history == [])
    && (s.latestReceive.None? <==> s.observed == [])
    && (s.observed != [] ==>
          var o := s.observed[|s.observed| - 1];
          s.epoch == Some(o.epoch) && s.sequence == o.sequence && s.latestReceive == Some(o.mono)
          && s.history[|s.history| - 1] == o.stamp)
  }

  predicate After(p: Policy, a: Observed, b: Observed) {
    b.epoch == a.epoch && a.sequence < b.sequence && a.mono <= b.mono && 0 < b.stamp - a.stamp <= p.maxAgeNs
  }

  ghost predicate ObservedOk(p: Policy, observed: seq<Observed>) {
    forall i :: 0 < i < |observed| ==> After(p, observed[i - 1], observed[i])
  }

  ghost predicate Invariant(p: Policy, s: State) {
    ChainOk(s) && EpochsOk(s) && ObservedOk(p, s.observed) && |s.prepared| + |s.pending| <= p.maxQueue
  }

  lemma ObserveKeeps(p: Policy, s: State, w: Wheel, now: int, mono: int)
    requires Invariant(p, s)
    ensures Invariant(p, Observe(p, s, w, now, mono))
  {
    var s' := Observe(p, s, w, now, mono);
    hide ChainOk;
    assert ChainOk(s') by { SameChain(s, s'); }
    if s'.observed != s.observed && s.observed != [] {
      var a, b := s.observed[|s.observed| - 1], s'.observed[|s.observed|];
      assert After(p, a, b);
    }
  }

  lemma SameChain(s: State, s': State)
    requires ChainOk(s) && s'.prepared == s.prepared && s'.pending == s.pending && s'.allPrepared == s.allPrepared
    requires s'.allRegistered == s.allRegistered && s'.allRelayed == s.allRelayed && s'.lastPrepared == s.lastPrepared
    requires s'.lastRegistered == s.lastRegistered && s'.lastRelayed == s.lastRelayed
    ensures ChainOk(s')
  {
  }

  lemma {:induction false} StampsAppend(guesses: seq<Guess>, g: Guess)
    ensures Stamps(guesses + [g]) == Stamps(guesses) + [g.stamp]
  {
    if guesses != [] {
      StampsAppend(guesses[1..], g);
      assert (guesses + [g])[1..] == guesses[1..] + [g];
    }
  }

  lemma PrepareKeeps(p: Policy, s: State, stamp: int, now: int, mono: int, numbers: Result<Pose, string>)
    requires Invariant(p, s)
    ensures Invariant(p, DoPrepare(s, stamp, Prepare(p, s, stamp, now, mono, numbers)))
  {
    hide ObservedOk, Predict, Stamps;
    var s' := DoPrepare(s, stamp, Prepare(p, s, stamp, now, mono, numbers));
    if s' != s {
      StampsAppend(s.prepared, s'.prepared[|s.prepared|]);
      assert s'.allPrepared == s'.allRegistered + (Stamps(s.prepared) + [stamp]);
    }
  }

  lemma RegisterChain(prepared: seq<int>, registered: seq<int>, relayed: seq<int>, waiting: seq<int>)
    requires Chain(prepared, registered, relayed, waiting, []) && waiting != []
    ensures Chain(prepared, registered + [waiting[0]], relayed, waiting[1..], [waiting[0]])
    ensures registered != [] ==> registered[|registered| - 1] < waiting[0]
  {
    hide Rising;
    assert prepared == registered + [waiting[0]] + waiting[1..];
    if registered != [] {
      assert prepared[|registered| - 1] < prepared[|registered|] by { RisingAt(prepared, |registered| - 1, |registered|); }
    }
  }

  lemma RelayChain(prepared: seq<int>, registered: seq<int>, relayed: seq<int>, waiting: seq<int>, stamp: int)
    requires Chain(prepared, registered, relayed, waiting, [stamp])
    ensures Chain(prepared, registered, relayed + [stamp], waiting, [])
    ensures relayed != [] ==> relayed[|relayed| - 1] < stamp
  {
    assert prepared == relayed + [stamp] + waiting;
    if relayed != [] {
      RisingAt(prepared, |relayed| - 1, |relayed|);
    }
  }

  lemma RisingAt(stamps: seq<int>, i: nat, j: nat)
    requires Rising(stamps) && i < j < |stamps|
    ensures stamps[i] < stamps[j]
  {
  }

  lemma RegisterKeeps(p: Policy, s: State, r: Record)
    requires Invariant(p, s)
    ensures Invariant(p, DoRegister(s, r))
  {
    hide ObservedOk, Rising, Chain;
    if DoRegister(s, r) != s {
      var g := s.prepared[0];
      assert Stamps(s.prepared) == [g.stamp] + Stamps(s.prepared[1..]) && Stamps([g]) == [g.stamp];
      hide Stamps;
      RegisterChain(s.allPrepared, s.allRegistered, s.allRelayed, Stamps(s.prepared));
    }
  }

  lemma Single(s: State, stamp: int)
    requires Expected(s, stamp) && |s.pending| <= 1
    ensures Stamps(s.pending) == [stamp] && Without(s.pending, stamp) == []
  {
    assert s.pending == [s.pending[0]];
  }

  lemma RelayKeeps(p: Policy, s: State, n: Native)
    requires Invariant(p, s)
    ensures Invariant(p, DoRelay(s, n))
  {
    hide ObservedOk, Rising, Expected;
    if DoRelay(s, n) != s {
      assert |s.pending| == |Stamps(s.pending)|;
      Single(s, n.stamp.value);
      RelayChain(s.allPrepared, s.allRegistered, s.allRelayed, Stamps(s.prepared), n.stamp.value);
      assert Stamps([]) == [];
      hide Stamps, Chain;
    }
  }

  lemma StepKeeps(p: Policy, s: State, e: Event)
    requires Invariant(p, s)
    ensures Invariant(p, Step(p, s, e))
  {
    hide Invariant, Observe, DoPrepare, Prepare, DoRegister, DoRelay;
    match e {
      case Observing(w, now, mono) => ObserveKeeps(p, s, w, now, mono);
      case Preparing(stamp, now, mono, numbers) => PrepareKeeps(p, s, stamp, now, mono, numbers);
      case Registering(r) => RegisterKeeps(p, s, r);
      case Relaying(n) => RelayKeeps(p, s, n);
    }
  }

  lemma {:induction false} AlwaysConsistent(p: Policy, events: seq<Event>)
    ensures Invariant(p, Run(p, events))
  {
    if events == [] {
      assert Stamps([]) == [];
    } else {
      AlwaysConsistent(p, events[..|events| - 1]);
      StepKeeps(p, Run(p, events[..|events| - 1]), events[|events| - 1]);
      hide Invariant, Step;
    }
  }

  // ----- what the pipeline relies on -----

  /** Relayed, registered and prepared stamps are prefixes of one another and rise; the bound
      covers the guesses in between. */
  lemma RelayedPrefix(p: Policy, events: seq<Event>)
    ensures var s := Run(p, events);
            && s.allRelayed <= s.allRegistered <= s.allPrepared && Rising(s.allPrepared)
            && |s.allRegistered| - |s.allRelayed| == |s.pending| <= 1
            && |s.allPrepared| - |s.allRelayed| == |s.prepared| + |s.pending| <= p.maxQueue
  {
    AlwaysConsistent(p, events);
    hide Run, Rising, EpochsOk, ObservedOk, Newest;
  }

  /** In a reachable state the registration guards come down to this: nothing in flight, and the
      record is the oldest prepared guess unchanged.  The epoch and order guards never fire. */
  lemma RegisterExactly(p: Policy, events: seq<Event>, r: Record)
    ensures var s := Run(p, events);
            s.blocked.None? && r.stamp >= 1 ==>
              (Register(s, r).Ok? <==>
                 s.pending == [] && s.prepared != [] && r == Record(s.prepared[0].stamp, true, true, s.prepared[0].pose))
  {
    AlwaysConsistent(p, events);
    var s := Run(p, events);
    hide Run, Rising, ObservedOk, Chain;
    if s.prepared != [] && s.pending == [] {
      assert Stamps(s.prepared)[0] == s.prepared[0].stamp && Stamps([]) == [];
      hide Stamps;
      RegisterChain(s.allPrepared, s.allRegistered, s.allRelayed, Stamps(s.prepared));
      assert s.prepared[0] in s.prepared;
    }
  }

  /** In a reachable state a native pose is relayed exactly when a pending guess has its stamp;
      the order and epoch guards never fire. */
  lemma RelayExactly(p: Policy, events: seq<Event>, n: Native)
    ensures var s := Run(p, events);
            s.blocked.None? && n.stamp.Ok? && n.framesMatch ==>
              Relay(s, n) == if Pending(s, n.stamp.value) then n.pose else Err(UNEXPECTED)
  {
    AlwaysConsistent(p, events);
    var s := Run(p, events);
    hide Run, Rising, ObservedOk;
    if s.blocked.None? && n.stamp.Ok? && Pending(s, n.stamp.value) {
      assert |s.pending| == |Stamps(s.pending)|;
      Single(s, n.stamp.value);
      RelayChain(s.allPrepared, s.allRegistered, s.allRelayed, Stamps(s.prepared), n.stamp.value);
    }
  }

  /** A blocked bridge never changes again. */
  lemma {:induction false} BlockedIsFinal(p: Policy, events: seq<Event>, more: seq<Event>)
    requires Run(p, events).blocked.Some?
    ensures Run(p, events + more) == Run(p, events)
  {
    if more == [] {
      assert events + more == events;
    } else {
      BlockedIsFinal(p, events, more[..|more| - 1]);
      assert (events + more)[..|events + more| - 1] == events + more[..|more| - 1];
    }
  }

  /**
   A bridge that is not blocked is stopped for good by an observation exactly when the observation
   has a fault with a text: a fault whose text is empty loses the observation and nothing else.
   */
  lemma FaultBlocksByText(p: Policy, events: seq<Event>, w: Wheel, now: int, mono: int, more: seq<Event>)
    requires Run(p, events).blocked.None?
    ensures var s := Run(p, events);
            var fault, s' := ObserveFault(p, s, w, now, mono), Run(p, events + [Observing(w, now, mono)]);
            && (s'.blocked.Some? <==> fault.Some? && fault.value != "")
            && (s'.blocked.Some? ==> Run(p, events + [Observing(w, now, mono)] + more) == s')
            && (fault == Some("") ==> s' == s)
  {
    var e := Observing(w, now, mono);
    assert (events + [e])[..|events + [e]| - 1] == events;
    assert Run(p, events + [e]) == Step(p, Run(p, events), e);
    hide ObserveFault;
    if Run(p, events + [e]).blocked.Some? {
      BlockedIsFinal(p, events + [e], more);
    }
  }

  // ----- the answers, told by the histories -----

  /** The history is the last three observed stamps. */
  ghost predicate HistoryOk(history: seq<int>, observed: seq<Observed>) {
    && |history| == (if |observed| < 3 then |observed| else 3)
    && forall i :: 0 <= i < |history| ==> history[i] == observed[|observed| - |history| + i].stamp
  }

  lemma HistoryGrows(history: seq<int>, observed: seq<Observed>, o: Observed)
    requires HistoryOk(history, observed)
    ensures HistoryOk(Appended(history, o.stamp), observed + [o])
  {
    var history', all := Appended(history, o.stamp), observed + [o];
    forall i | 0 <= i < |history'| ensures history'[i] == all[|all| - |history'| + i].stamp {
      if i == |history'| - 1 {
        assert history'[i] == o.stamp;
      } else {
        var j := |history| - |history'| + 1 + i;
        assert history'[i] == history[j] == observed[|observed| - |history| + j].stamp;
      }
    }
  }

  lemma {:induction false} HistoryIsObserved(p: Policy, events: seq<Event>)
    ensures HistoryOk(Run(p, events).history, Run(p, events).observed)
  {
    if events != [] {
      var s, e := Run(p, events[..|events| - 1]), events[|events| - 1];
      HistoryIsObserved(p, events[..|events| - 1]);
      hide HistoryOk, ObserveFault, Appended, Register, Relay;
      if e.Observing? && s.blocked.None? && ObserveFault(p, s, e.wheel, e.now, e.mono).None? {
        HistoryGrows(s.history, s.observed, Observed(e.wheel.stamp.value, e.wheel.sequence.value, e.mono, e.wheel.epoch));
      }
    }
  }

  /** The two newest observations allow a prediction at `stamp`, and neither clock says they are old. */
  ghost predicate Predictable(p: Policy, observed: seq<Observed>, stamp: int, now: int, mono: int) {
    && |observed| >= 2
    && var a, b := observed[|observed| - 2], observed[|observed| - 1];
       a.stamp <= stamp <= b.stamp + p.maxPredictionNs
       && b.mono <= mono <= b.mono + p.maxAgeNs && b.stamp <= now <= b.stamp + p.maxAgeNs
  }

  /** The bundle is young, later than every one prepared, and fewer than the bound are not yet relayed. */
  ghost predicate Preparable(p: Policy, s: State, stamp: int, now: int) {
    && stamp <= now <= stamp + p.maxAgeNs && (s.allPrepared != [] ==> s.allPrepared[|s.allPrepared| - 1] < stamp)
    && |s.allPrepared| - |s.allRelayed| < p.maxQueue
  }

  /** The fields, told by the histories. */
  ghost predicate ToldBy(s: State) {
    && (s.history == [] <==> s.observed == []) && (|s.history| >= 2 <==> |s.observed| >= 2)
    && (s.observed == [] ==> s.epoch.None? && s.latestReceive.None?)
    && (s.observed != [] ==>
          var o := s.observed[|s.observed| - 1];
          s.epoch == Some(o.epoch) && s.sequence == o.sequence && s.latestReceive == Some(o.mono)
          && s.history[|s.history| - 1] == o.stamp)
    && (|s.observed| >= 2 ==> s.history[|s.history| - 2] == s.observed[|s.observed| - 2].stamp)
    && Newest(s.lastPrepared, s.allPrepared) && |s.prepared| + |s.pending| == |s.allPrepared| - |s.allRelayed|
  }

  lemma AlwaysTold(p: Policy, events: seq<Event>)
    ensures ToldBy(Run(p, events))
  {
    AlwaysConsistent(p, events);
    HistoryIsObserved(p, events);
    var s := Run(p, events);
    hide Run, Rising, ObservedOk;
    assert |s.prepared| == |Stamps(s.prepared)| && |s.pending| == |Stamps(s.pending)|;
    hide Stamps;
    if s.observed != [] {
      assert s.history[|s.history| - 1] == s.observed[|s.observed| - 1].stamp;
    }
    if |s.observed| >= 2 {
      assert s.history[|s.history| - 2] == s.observed[|s.observed| - 2].stamp;
    }
  }

  lemma RunNext(p: Policy, events: seq<Event>, e: Event)
    ensures Run(p, events + [e]) == Step(p, Run(p, events), e)
  {
    assert (events + [e])[..|events|] == events;
  }

  lemma PreparesStep(p: Policy, s: State, stamp: int, now: int, mono: int, numbers: Result<Pose, string>)
    requires ToldBy(s)
    ensures var r := Prepare(p, s, stamp, now, mono, numbers);
            if s.blocked.None? && now >= 1 && mono >= 0 && stamp >= 1 && numbers.Ok?
               && Predictable(p, s.observed, stamp, now, mono) && Preparable(p, s, stamp, now)
            then r == numbers && s.epoch == Some(s.observed[|s.observed| - 1].epoch) else r.Err?
  {
  }

  /**
   In every run a guess is prepared exactly when the bridge runs, the clocks and stamp are positive,
   the observations allow a prediction, and the bundle may be prepared; it is then the newest one.
   Anything else raises and changes nothing.
   */
  lemma PreparesExactly(p: Policy, events: seq<Event>, stamp: int, now: int, mono: int, numbers: Result<Pose, string>)
    ensures var s := Run(p, events);
            var r, s' := Prepare(p, s, stamp, now, mono, numbers), Run(p, events + [Preparing(stamp, now, mono, numbers)]);
            if s.blocked.None? && now >= 1 && mono >= 0 && stamp >= 1 && numbers.Ok?
               && Predictable(p, s.observed, stamp, now, mono) && Preparable(p, s, stamp, now)
            then r == numbers && s'.allPrepared == s.allPrepared + [stamp]
                 && s'.prepared == s.prepared + [Guess(stamp, s.observed[|s.observed| - 1].epoch, numbers.value)]
            else r.Err? && s' == s
  {
    hide ToldBy, Prepare, Preparable, Run;
    AlwaysTold(p, events);
    RunNext(p, events, Preparing(stamp, now, mono, numbers));
    PreparesStep(p, Run(p, events), stamp, now, mono, numbers);
  }

  /** An observation without a fault: complete, in time, and next after the newest one. */
  ghost predicate Sound(p: Policy, observed: seq<Observed>, w: Wheel, now: int, mono: int) {
    && w.stamp.Ok? && now >= 1 && mono >= 0 && w.framesMatch && w.diagnosticValid && w.timeSourceOk
    && w.diagnosticStamp == Ok(w.stamp.value) && w.uncertainty.Ok? && w.uncertainty.value <= p.maxUncertaintyNs
    && w.stamp.value <= now <= w.stamp.value + p.maxAgeNs && w.sequence.Ok? && w.epoch != "" && w.pose.Ok?
    && (observed != [] ==>
          w.motionFault.None? && After(p, observed[|observed| - 1], Observed(w.stamp.value, w.sequence.value, mono, w.epoch)))
  }

  lemma FaultsExactly(p: Policy, s: State, w: Wheel, now: int, mono: int)
    requires ToldBy(s)
    ensures ObserveFault(p, s, w, now, mono).None? <==> Sound(p, s.observed, w, now, mono)
  {
  }

  /** In every run a running bridge takes an observation exactly when it is sound. */
  lemma ObservesExactly(p: Policy, events: seq<Event>, w: Wheel, now: int, mono: int)
    requires Run(p, events).blocked.None?
    ensures var s, s' := Run(p, events), Run(p, events + [Observing(w, now, mono)]);
            if Sound(p, s.observed, w, now, mono)
            then s'.observed == s.observed + [Observed(w.stamp.value, w.sequence.value, mono, w.epoch)] && s'.blocked.None?
            else s'.observed == s.observed
  {
    hide ToldBy, ObserveFault, Run, Appended, After;
    AlwaysTold(p, events);
    RunNext(p, events, Observing(w, now, mono));
    FaultsExactly(p, Run(p, events), w, now, mono);
  }
}
