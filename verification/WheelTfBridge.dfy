/** The object of src/wc_fusion/wheel_tf.py whose calls `WheelGuess` specifies. */
module WheelTfBridgeObject {
  import opened Common
  import opened WG = WheelGuess

  class WheelTfBridge {
    const policy: Policy
    var history: seq<int>
    var epoch: Option<string>
    var sequence: int
    var latestReceive: Option<int>
    var blocked: Option<string>
    var prepared: seq<Guess>
    var pending: seq<Guess>
    var lastPrepared: Option<int>
    var lastRegistered: Option<int>
    var lastRelayed: Option<int>
    ghost var observed: seq<Observed>
    ghost var allPrepared: seq<int>
    ghost var allRegistered: seq<int>
    ghost var allRelayed: seq<int>

    ghost function Abstract(): State
      reads this
    {
      State(history, epoch, sequence, latestReceive, blocked, prepared, pending, lastPrepared, lastRegistered, lastRelayed,
            observed, allPrepared, allRegistered, allRelayed)
    }

    constructor (policy: Policy)
      ensures this.policy == policy && Abstract() == WG.START
    {
      this.policy := policy;
      history, epoch, sequence, latestReceive, blocked, prepared, pending := [], None, 0, None, None, [], [];
      lastPrepared, lastRegistered, lastRelayed := None, None, None;
      observed, allPrepared, allRegistered, allRelayed := [], [], [], [];
    }

    /** The checks of a wheel observation, each raising its own error. */
    method CheckWheel(w: Wheel, now: int, mono: int) returns (fault: Option<string>)
      ensures fault == WG.ObserveFault(policy, Abstract(), w, now, mono)
      ensures fault.None? ==> w.stamp.Ok? && w.sequence.Ok?
    {
      if w.stamp.Err? {
        return Some(w.stamp.error);
      }
      if now < 1 {
        return Some("NOW_INVALID");
      }
      if mono < 0 {
        return Some("MONOTONIC_INVALID");
      }
      if !w.framesMatch {
        return Some("WHEEL_TF_FRAME_MISMATCH");
      }
      if !w.diagnosticValid {
        return Some("WHEEL_TF_DIAGNOSTIC_INVALID");
      }
      if !w.timeSourceOk {
        return Some("WHEEL_TF_COMMON_TIME_MISMATCH");
      }
      if w.diagnosticStamp.Err? {
        return Some(w.diagnosticStamp.error);
      }
      var stamp := w.stamp.value;
      if w.diagnosticStamp.value != stamp {
        return Some("WHEEL_TF_COMMON_TIME_MISMATCH");
      }
      if w.uncertainty.Err? {
        return Some(w.uncertainty.error);
      }
      if w.uncertainty.value > policy.maxUncertaintyNs || !(0 <= now - stamp <= policy.maxAgeNs) {
        return Some("WHEEL_TF_TIME_BUDGET_EXCEEDED");
      }
      if w.sequence.Err? {
        return Some(w.sequence.error);
      }
      if w.epoch == "" {
        return Some("WHEEL_TF_EPOCH_REQUIRED");
      }
      if epoch.Some? && (w.epoch != epoch.value || w.sequence.value <= sequence) {
        return Some("WHEEL_TF_EPOCH_OR_SEQUENCE_RESET");
      }
      if latestReceive.Some? && mono < latestReceive.value {
        return Some("WHEEL_TF_MONOTONIC_CLOCK_RESET");
      }
      if w.pose.Err? {
        return Some(w.pose.error);
      }
      if history != [] {
        var before := history[|history| - 1];
        if stamp <= before || stamp - before > policy.maxAgeNs {
          return Some("WHEEL_TF_TIME_GAP_OR_RESET");
        }
        return w.motionFault;
      }
      return None;
    }

    /** Take one wheel observation, or block for good. */
    method ObserveWheel(w: Wheel, now: int, mono: int) returns (error: Option<string>)
      modifies this
      ensures Abstract() == WG.Observe(policy, old(Abstract()), w, now, mono)
      ensures error == if old(blocked).Some? then Some("WHEEL_TF_BLOCKED:" + old(blocked).value)
                       else WG.ObserveFault(policy, old(Abstract()), w, now, mono)
    {
      hide WG.ObserveFault;
      if blocked.Some? {
        return Some("WHEEL_TF_BLOCKED:" + blocked.value);
      }
      error := CheckWheel(w, now, mono);
      if error.Some? {
        blocked := Told(error.value);
        return;
      }
      var stamp := w.stamp.value;
      history := (if |history| < 3 then history else history[|history| - 2..]) + [stamp];
      epoch, sequence, latestReceive := Some(w.epoch), w.sequence.value, Some(mono);
      observed := observed + [Observed(stamp, w.sequence.value, mono, w.epoch)];
    }

    /** Predict and freeze a guess for the bundle just fused. */
    method PrepareGuess(stamp: int, now: int, mono: int, numbers: Result<Pose, string>) returns (guess: Result<Pose, string>)
      modifies this
      ensures guess == WG.Prepare(policy, old(Abstract()), stamp, now, mono, numbers)
      ensures Abstract() == WG.DoPrepare(old(Abstract()), stamp, guess)
    {
      if blocked.Some? {
        return Err("WHEEL_TF_BLOCKED:" + blocked.value);
      }
      var stale := CheckFresh(now, mono);
      if stale.Some? {
        return Err(stale.value);
      }
      if stamp < 1 {
        return Err("ICP_INPUT_STAMP_INVALID");
      }
      if lastPrepared.Some? && stamp <= lastPrepared.value {
        return Err(NOT_INCREASING);
      }
      if |prepared| + |pending| >= policy.maxQueue {
        return Err("WHEEL_TF_PREPARED_QUEUE_FULL");
      }
      if !(0 <= now - stamp <= policy.maxAgeNs) {
        return Err("WHEEL_TF_ICP_INPUT_STALE_OR_FUTURE");
      }
      if |history| < 2 {
        return Err("PREDICTION_NEEDS_COMPLETED_HISTORY");
      }
      if stamp < history[|history| - 2] || stamp - history[|history| - 1] > policy.maxPredictionNs {
        return Err("PREDICTION_EXPIRED");
      }
      guess := numbers;
      if guess.Ok? && epoch.Some? {
        prepared, lastPrepared := prepared + [Guess(stamp, epoch.value, guess.value)], Some(stamp);
        allPrepared := allPrepared + [stamp];
      }
    }

    method CheckFresh(now: int, mono: int) returns (fault: Option<string>)
      ensures fault == WG.FreshFault(policy, Abstract(), now, mono)
    {
      if now < 1 {
        return Some("NOW_INVALID");
      }
      if mono < 0 {
        return Some("MONOTONIC_INVALID");
      }
      if latestReceive.None? || history == [] {
        return Some("WHEEL_TF_NO_OBSERVATIONS");
      }
      var age, measurementAge := mono - latestReceive.value, now - history[|history| - 1];
      if !(0 <= age <= policy.maxAgeNs) || !(0 <= measurementAge <= policy.maxAgeNs) {
        return Some("WHEEL_TF_STALE_OR_CLOCK_JUMP");
      }
      return None;
    }

    /** Put the oldest prepared guess in flight just before its cloud is published. */
    method RegisterGuess(r: Record) returns (pose: Result<Pose, string>)
      modifies this
      ensures pose == WG.Register(old(Abstract()), r) && Abstract() == WG.DoRegister(old(Abstract()), r)
    {
      if blocked.Some? {
        return Err("WHEEL_TF_BLOCKED:" + blocked.value);
      }
      if r.stamp < 1 {
        return Err("ICP_INPUT_STAMP_INVALID");
      }
      if pending != [] {
        return Err("WHEEL_TF_ICP_INPUT_ALREADY_IN_FLIGHT");
      }
      if prepared == [] || r.stamp != prepared[0].stamp {
        return Err("WHEEL_TF_UNPREPARED_OR_REORDERED_GUESS");
      }
      var g := prepared[0];
      if Some(g.epoch) != epoch || !r.framesMatch || !r.sourceMatches || r.pose != g.pose {
        return Err(FROZEN_CHANGED);
      }
      if lastRegistered.Some? && r.stamp <= lastRegistered.value {
        return Err(NOT_INCREASING);
      }
      prepared, pending, lastRegistered := prepared[1..], [g], Some(r.stamp);
      allRegistered := allRegistered + [r.stamp];
      return Ok(g.pose);
    }

    /** Copy the matcher's pose for the cloud in flight. */
    method RelayNativeOdometry(n: Native) returns (pose: Result<Pose, string>)
      modifies this
      ensures pose == WG.Relay(old(Abstract()), n) && Abstract() == WG.DoRelay(old(Abstract()), n)
    {
      if blocked.Some? {
        return Err("WHEEL_TF_BLOCKED:" + blocked.value);
      }
      if n.stamp.Err? {
        return Err(n.stamp.error);
      }
      var stamp := n.stamp.value;
      if !n.framesMatch {
        return Err("NATIVE_ICP_TF_FRAME_MISMATCH");
      }
      var expected, rest := Search(pending, epoch, stamp);
      assert expected == WG.Expected(Abstract(), stamp);
      if !expected {
        return Err(UNEXPECTED);
      }
      if lastRelayed.Some? && stamp <= lastRelayed.value {
        return Err(REVERSED);
      }
      if n.pose.Err? {
        return n.pose;
      }
      pending, lastRelayed, allRelayed := rest, Some(stamp), allRelayed + [stamp];
      return n.pose;
    }

    /** Is there a guess with this stamp and epoch, and what is left without the stamp? */
    static method Search(pending: seq<Guess>, epoch: Option<string>, stamp: int) returns (found: bool, rest: seq<Guess>)
      ensures found <==> exists g :: g in pending && g.stamp == stamp && Some(g.epoch) == epoch
      ensures rest == WG.Without(pending, stamp)
    {
      found, rest := false, [];
      for i := |pending| downto 0
        invariant found <==> exists g :: g in pending[i..] && g.stamp == stamp && Some(g.epoch) == epoch
        invariant rest == WG.Without(pending[i..], stamp)
      {
        assert pending[i..] == [pending[i]] + pending[i + 1..];
        if pending[i].stamp == stamp {
          found := found || Some(pending[i].epoch) == epoch;
        } else {
          rest := [pending[i]] + rest;
        }
      }
    }
  }
}
