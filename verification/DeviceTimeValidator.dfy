/** The object of src/wc_imu/device_time.py whose calls `DeviceClock` specifies. */
module DeviceTimeValidatorObject {
  import opened Common
  import opened DC = DeviceClock

  class DeviceTimeValidator {
    const profile: Profile
    var previous: map<Field, int>
    var elapsedTicks: map<Field, int>
    var wraps: map<Field, int>
    var first: map<Field, int>
    var last: map<Field, int>
    var previousHost: Option<int>
    var accepted: nat
    var error: Option<string>
    ghost var origin: map<Field, int>

    ghost function Abstract(): State
      reads this
    {
      State(previous, elapsedTicks, wraps, first, last, previousHost, accepted, error, origin)
    }

    constructor (profile: Profile)
      requires profile.Valid()
      ensures this.profile == profile && Abstract() == DC.START
    {
      this.profile := profile;
      previous, elapsedTicks, wraps, first, last := map[], map[], map[], map[], map[];
      previousHost, accepted, error, origin := None, 0, None, map[];
    }

    /** Check one counter of the frame against its previous value; nothing changes. */
    method ReadField(f: Field, value: Option<int>, host: Option<int>) returns (reading: Result<Reading, string>)
      requires profile.Valid()
      ensures reading == DC.Read(profile, Abstract(), f, value, host)
    {
      hide DC.AdvanceCounter;
      if value.None? {
        return if profile.Required(f) then Err("IMU_DEVICE_TIME_MISSING") else Ok(Absent);
      }
      if !(0 <= value.value < PERIOD) {
        return Err("IMU_DEVICE_TIME_RANGE");
      }
      if f !in previous {
        return Ok(Value(value.value, 0, false));
      }
      var hostDelta := if previousHost.None? || host.None? then None else Some(host.value - previousHost.value);
      var advance := DC.AdvanceCounter(previous[f], value.value, hostDelta, profile);
      if advance.Err? {
        return Err(advance.error);
      }
      return Ok(Value(value.value, advance.value.delta, advance.value.wrapped));
    }

    /** Record a counter of an accepted frame. */
    method Record(f: Field, reading: Reading)
      modifies this
      ensures Abstract() == DC.Put(old(Abstract()), f, reading)
    {
      if reading.Value? {
        var elapsed := if f in elapsedTicks then elapsedTicks[f] else 0;
        var count := if f in wraps then wraps[f] else 0;
        previous, elapsedTicks, wraps, origin :=
          previous[f := reading.raw], elapsedTicks[f := elapsed + reading.delta],
          wraps[f := count + if reading.wrapped then 1 else 0], if f in origin then origin else origin[f := reading.raw];
      }
    }

    /** Accept a frame, or latch its first fault and change nothing else. */
    method ObserveFrame(frame: Frame, host: Option<int>) returns (ok: bool)
      requires profile.Valid()
      modifies this
      ensures Abstract() == DC.Observe(profile, old(Abstract()), frame, host)
      ensures ok == (old(error).None? && error.None?)
    {
      hide DC.Read, DC.Put;
      if error.Some? {
        return false;
      }
      if profile.guarded && (host.None? || host.value < 0 || (previousHost.Some? && host.value < previousHost.value)) {
        error := Some("IMU_DEVICE_TIME_HOST_MONOTONIC_REQUIRED");
        return false;
      }
      var sample := ReadField(Sample, frame.sample, host);
      if sample.Err? {
        error := Some(sample.error);
        return false;
      }
      var ready := ReadField(DataReady, frame.ready, host);
      if ready.Err? {
        error := Some(ready.error);
        return false;
      }
      PutKeepsRest(Abstract(), Sample, sample.value);
      Record(Sample, sample.value);
      PutKeepsRest(Abstract(), DataReady, ready.value);
      Record(DataReady, ready.value);
      var values := DC.Values(sample.value, ready.value);
      previousHost, last := host, values;
      if accepted == 0 {
        first := values;
      }
      accepted := accepted + 1;
      return true;
    }

    static lemma PutKeepsRest(s: State, f: Field, reading: Reading)
      ensures var s' := DC.Put(s, f, reading);
              s'.first == s.first && s'.last == s.last && s'.accepted == s.accepted && s'.error == s.error
    {
    }
  }
}
