/** The class `Gate` of src/wc_fusion/core.py, whose calls `TrackingGate` specifies. */
module GateObject {
  import opened Common
  import opened TG = TrackingGate

  class Gate {
    const policy: Policy
    var pending: map<nat, Outstanding>
    var pausedReason: Option<string>
    var odomEpoch: Option<string>
    var lastStamp: Option<int>
    var accepted: nat
    var lastResult: Option<int>
    ghost var acceptances: seq<Acceptance>

    ghost function Abstract(): State
      reads this
    {
      State(pending, pausedReason, odomEpoch, lastStamp, accepted, lastResult, acceptances)
    }

    constructor (policy: Policy)
      ensures this.policy == policy && Abstract() == TG.START
    {
      this.policy := policy;
      pending, pausedReason, odomEpoch, lastStamp, accepted, lastResult := map[], None, None, None, 0, None;
      acceptances := [];
    }

    method PauseGate(reason: string)
      modifies this
      ensures Abstract() == TG.Pause(old(Abstract()), reason)
    {
      pausedReason, pending := Told(reason), map[];
    }

    method SubmitBundle(b: Bundle, now: int) returns (error: Option<string>)
      modifies this
      ensures (Abstract(), error) == TG.Submit(policy, old(Abstract()), b, now)
    {
      if pausedReason.Some? {
        return Some("GATE_PAUSED:" + pausedReason.value);
      }
      if !b.identityOk {
        PauseGate("BUNDLE_SESSION_OR_MODE_MISMATCH");
        return pausedReason;
      }
      if !b.bothSides {
        PauseGate("DUAL_PARTICIPATION_MISSING");
        return pausedReason;
      }
      if b.id in pending || |pending| >= policy.maxPending {
        PauseGate(BACKLOG);
        return pausedReason;
      }
      pending := pending[b.id := Outstanding(b, now)];
      return None;
    }

    method AssessResult(r: Assessment, now: int) returns (error: Option<string>)
      modifies this
      ensures (Abstract(), error) == TG.Assess(policy, old(Abstract()), r, now)
    {
      if pausedReason.Some? {
        return Some("GATE_PAUSED:" + pausedReason.value);
      }
      if r.id !in pending {
        PauseGate("UNKNOWN_BUNDLE");
        return pausedReason;
      }
      var o := pending[r.id];
      var reason: Option<string> := None;
      if !r.sessionOk || r.stamp != o.bundle.stamp {
        reason := Some("ASSESSMENT_ID_TIME_MISMATCH");
      } else if now - o.received < 0 || now - o.received > policy.timeoutNs {
        reason := Some("ICP_RESULT_TIMEOUT");
      } else if !r.trackingValid {
        reason := Some("TRACKING_FAILED");
      } else if !r.participationOk {
        reason := Some("ICP_INPUT_SOURCE_MISMATCH");
      } else if odomEpoch.Some? && r.odomEpoch != odomEpoch.value {
        reason := Some("ODOM_EPOCH_CHANGED");
      } else if lastStamp.Some? && r.stamp <= lastStamp.value {
        reason := Some("ODOM_TIME_NOT_INCREASING");
      } else if !r.poseOk {
        reason := Some("INVALID_ODOM_POSE");
      } else if lastStamp.Some? && !r.motionOk {
        reason := Some("ODOM_MOTION_JUMP");
      }
      assert reason == TG.AssessFault(policy, Abstract(), o, r, now);
      if reason.Some? {
        PauseGate(reason.value);
        return reason;
      }
      pending, odomEpoch, lastStamp, lastResult := pending - {r.id}, Some(r.odomEpoch), Some(r.stamp), Some(now);
      accepted, acceptances := accepted + 1, acceptances + [Acceptance(r.id, r.stamp, r.odomEpoch, o.received, now)];
      return None;
    }

    method ExpireAt(now: int) returns (open: bool)
      modifies this
      ensures Abstract() == TG.Expire(policy, old(Abstract()), now)
      ensures open ==> pausedReason.None?
      ensures !open ==> pausedReason.Some?
    {
      var waiting, late := pending.Keys, false;
      while waiting != {}
        modifies {}
        invariant waiting <= pending.Keys
        invariant late <==> exists id :: id in pending.Keys - waiting && now - pending[id].received > policy.timeoutNs
      {
        var id :| id in waiting;
        late := late || now - pending[id].received > policy.timeoutNs;
        waiting := waiting - {id};
      }
      assert late == TG.Late(policy, Abstract(), now);
      if late {
        PauseGate("ICP_RESULT_TIMEOUT");
        return false;
      }
      if lastResult.Some? && now - lastResult.value > policy.timeoutNs {
        PauseGate("TRACKING_STREAM_TIMEOUT");
        return false;
      }
      return pausedReason.None?;
    }

    method ResumeGate(granted: bool, epoch: Option<string>) returns (ok: bool)
      modifies this
      ensures ok == TG.Resumable(old(Abstract()), granted, epoch)
      ensures Abstract() == TG.Resume(old(Abstract()), granted, epoch)
    {
      if !granted || odomEpoch != epoch {
        return false;
      }
      pending, pausedReason, lastResult := map[], None, None;
      return true;
    }
  }
}
