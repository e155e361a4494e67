/**
 Guarded unwrapping of the device's 32-bit tick counters (`advance_device_counter` and
 `DeviceTimeValidator.observe` in src/wc_imu/device_time.py), against an unbounded counter.
 */
module DeviceClock {
  import opened Common

  const PERIOD := 0x1_0000_0000

  datatype Field = Sample | DataReady

  /** The reviewed profile; `maxGap` is mandatory under the guarded policy. */
  datatype Profile = Profile(guarded: bool, maxGap: Option<nat>, tickNs: nat, tolerance: nat, readyRequired: bool) {
    predicate Valid() {
      && (maxGap.Some? ==> maxGap.value > 0)
      && (guarded ==> maxGap.Some? && maxGap.value < 0x8000_0000)
    }

    predicate Required(f: Field) {
      f.Sample? || readyRequired
    }
  }

  datatype Advance = Advance(delta: int, wrapped: bool)

  const UNPROVEN := "IMU_DEVICE_TIME_UNPROVEN_WRAP_OR_RESET"

  function AdvanceCounter(previous: int, current: int, hostDelta: Option<int>, p: Profile): Result<Advance, string>
    requires p.Valid()
  {
    if !(0 <= previous < PERIOD) || !(0 <= current < PERIOD) then Err("IMU_DEVICE_TIME_RANGE")
    else
      var delta := current - previous;
      if delta == 0 then Err("IMU_DEVICE_TIME_DUPLICATE")
      else if delta > 0 then
        if p.maxGap.Some? && delta > p.maxGap.value then Err("IMU_DEVICE_TIME_GAP_EXCEEDED") else Ok(Advance(delta, false))
      else if !p.guarded then Err("IMU_DEVICE_TIME_BACKWARD_RESET_OR_WRAP")
      else if hostDelta.None? || hostDelta.value < 0 then Err("IMU_DEVICE_TIME_WRAP_HOST_DELTA_REQUIRED")
      else
        var bound := p.maxGap.value;
        if previous < PERIOD - bound || current > bound || !(0 < delta + PERIOD <= bound)
           || Abs((delta + PERIOD) * p.tickNs - hostDelta.value) > p.tolerance then Err(UNPROVEN)
        else Ok(Advance(delta + PERIOD, true))
  }

  /** Does the gap agree with the host clock? */
  predicate HostAgrees(p: Profile, gap: int, hostDelta: Option<int>) {
    hostDelta.Some? && hostDelta.value >= 0 && Abs(gap * p.tickNs - hostDelta.value) <= p.tolerance
  }

  /** The counter passed a multiple of the period between the true values. */
  predicate Wraps(a: nat, b: nat) {
    a / PERIOD < b / PERIOD
  }

  lemma Residues(a: nat, b: nat)
    requires a < b < a + PERIOD
    ensures b % PERIOD - a % PERIOD == b - a - (if Wraps(a, b) then PERIOD else 0)
    ensures Wraps(a, b) ==> b / PERIOD == a / PERIOD + 1 && a % PERIOD > b % PERIOD
    ensures !Wraps(a, b) ==> b / PERIOD == a / PERIOD && a % PERIOD < b % PERIOD
  {
    assert a == PERIOD * (a / PERIOD) + a % PERIOD && b == PERIOD * (b / PERIOD) + b % PERIOD;
  }

  /**
   For two true counter values less than one period apart the reading is accepted exactly when
   the gap is within the bound and a wrap is allowed and agrees with the host clock; then it is
   the true gap.  The guards on the two raw values follow from the bound.
   */
  lemma AdvanceExactly(a: nat, b: nat, hostDelta: Option<int>, p: Profile)
    requires p.Valid() && a < b < a + PERIOD
    ensures var r := AdvanceCounter(a % PERIOD, b % PERIOD, hostDelta, p);
            && (r.Ok? <==> (p.maxGap.Some? ==> b - a <= p.maxGap.value)
                           && (Wraps(a, b) ==> p.guarded && HostAgrees(p, b - a, hostDelta)))
            && (r.Ok? ==> r.value == Advance(b - a, Wraps(a, b)))
  {
    Residues(a, b);
    if Wraps(a, b) {
      assert (b % PERIOD - a % PERIOD + PERIOD) * p.tickNs == (b - a) * p.tickNs;
    }
  }

  /** Whatever the true gap, an accepted reading is right exactly when the gap is below one period. */
  lemma AcceptedIsTrueModulo(a: nat, b: nat, hostDelta: Option<int>, p: Profile)
    requires p.Valid() && a < b && AdvanceCounter(a % PERIOD, b % PERIOD, hostDelta, p).Ok?
    ensures var d := AdvanceCounter(a % PERIOD, b % PERIOD, hostDelta, p).value.delta;
            0 < d < PERIOD && (b - a - d) % PERIOD == 0 && (d == b - a <==> b - a < PERIOD)
  {
    var d := AdvanceCounter(a % PERIOD, b % PERIOD, hostDelta, p).value.delta;
    assert a == PERIOD * (a / PERIOD) + a % PERIOD && b == PERIOD * (b / PERIOD) + b % PERIOD;
    assert d == b % PERIOD - a % PERIOD || d == b % PERIOD - a % PERIOD + PERIOD;
    if d == b % PERIOD - a % PERIOD {
      assert b - a - d == PERIOD * (b / PERIOD - a / PERIOD);
      Multiple(b - a - d, b / PERIOD - a / PERIOD);
    } else {
      assert b - a - d == PERIOD * (b / PERIOD - a / PERIOD - 1);
      Multiple(b - a - d, b / PERIOD - a / PERIOD - 1);
    }
    if b - a < PERIOD {
      assert -PERIOD < b - a - d < PERIOD;
    }
  }

  lemma Multiple(x: int, q: int)
    requires x == PERIOD * q
    ensures x % PERIOD == 0 && (-PERIOD < x < PERIOD ==> x == 0)
  {
  }

  // ----- the validator -----

  datatype Frame = Frame(sample: Option<int>, ready: Option<int>) {
    function Value(f: Field): Option<int> {
      if f.Sample? then sample else ready
    }
  }

  /** The validator's fields, and the first value seen of each counter. */
  datatype State = State(
    previous: map<Field, int>, elapsed: map<Field, int>, wraps: map<Field, int>,
    first: map<Field, int>, last: map<Field, int>, previousHost: Option<int>, accepted: nat, error: Option<string>,
    origin: map<Field, int>)

  const START := State(map[], map[], map[], map[], map[], None, 0, None, map[])

  datatype Reading = Absent | Value(raw: int, delta: int, wrapped: bool)

  function Difference(host: Option<int>, before: Option<int>): Option<int> {
    if host.None? || before.None? then None else Some(host.value - before.value)
  }

  function Read(p: Profile, s: State, f: Field, value: Option<int>, host: Option<int>): Result<Reading, string>
    requires p.Valid()
  {
    if value.None? then if p.Required(f) then Err("IMU_DEVICE_TIME_MISSING") else Ok(Absent)
    else if !(0 <= value.value < PERIOD) then Err("IMU_DEVICE_TIME_RANGE")
    else if f !in s.previous then Ok(Value(value.value, 0, false))
    else
      match AdvanceCounter(s.previous[f], value.value, Difference(host, s.previousHost), p)
      case Err(e) => Err(e)
      case Ok(a) => Ok(Value(value.value, a.delta, a.wrapped))
  }

  function Get(m: map<Field, int>, f: Field): int {
    if f in m then m[f] else 0
  }

  function Put(s: State, f: Field, r: Reading): State {
    if r.Absent? then s
    else s.(previous := s.previous[f := r.raw], elapsed := s.elapsed[f := Get(s.elapsed, f) + r.delta],
            wraps := s.wraps[f := Get(s.wraps, f) + if r.wrapped then 1 else 0],
            origin := if f in s.origin then s.origin else s.origin[f := r.raw])
  }

  function Values(sample: Reading, ready: Reading): map<Field, int> {
    var m: map<Field, int> := if sample.Absent? then map[] else map[Sample := sample.raw];
    if ready.Absent? then m else m[DataReady := ready.raw]
  }

  function Accept(s: State, sample: Reading, ready: Reading, host: Option<int>): State {
    Put(Put(s, Sample, sample), DataReady, ready).(
      previousHost := host, accepted := s.accepted + 1, last := Values(sample, ready),
      first := if s.accepted == 0 then Values(sample, ready) else s.first)
  }

  predicate HostRefused(p: Profile, s: State, host: Option<int>) {
    p.guarded && (host.None? || host.value < 0 || (s.previousHost.Some? && host.value < s.previousHost.value))
  }

  /** Reads both counters before it changes anything. */
  function ReadBoth(p: Profile, s: State, frame: Frame, host: Option<int>): Result<(Reading, Reading), string>
    requires p.Valid()
  {
    if HostRefused(p, s, host) then Err("IMU_DEVICE_TIME_HOST_MONOTONIC_REQUIRED")
    else
      match Read(p, s, Sample, frame.sample, host)
      case Err(e) => Err(e)
      case Ok(sample) =>
        match Read(p, s, DataReady, frame.ready, host)
        case Err(e) => Err(e)
        case Ok(ready) => Ok((sample, ready))
  }

  function Observe(p: Profile, s: State, frame: Frame, host: Option<int>): State
    requires p.Valid()
  {
    if s.error.Some? then s
    else
      match ReadBoth(p, s, frame, host)
      case Err(e) => s.(error := Some(e))
      case Ok(r) => Accept(s, r.0, r.1, host)
  }

  datatype Input = Input(frame: Frame, host: Option<int>)

  function Run(p: Profile, inputs: seq<Input>): State
    requires p.Valid()
  {
    if inputs == [] then START
    else Observe(p, Run(p, inputs[..|inputs| - 1]), inputs[|inputs| - 1].frame, inputs[|inputs| - 1].host)
  }

  /** Raw values in range, and the elapsed ticks telescope through the counted wraps. */
  ghost predicate CounterOk(p: Profile, s: State, f: Field) {
    && (f in s.previous <==> f in s.origin) && (f in s.previous <==> f in s.elapsed) && (f in s.previous <==> f in s.wraps)
    && (f in s.previous ==>
          && 0 <= s.previous[f] < PERIOD && 0 <= s.wraps[f] && (!p.guarded ==> s.wraps[f] == 0)
          && s.previous[f] - s.origin[f] + PERIOD * s.wraps[f] == s.elapsed[f])
  }

  ghost predicate Invariant(p: Profile, s: State) {
    && CounterOk(p, s, Sample) && CounterOk(p, s, DataReady)
    && (s.accepted > 0 <==> Sample in s.previous) && (s.accepted == 0 ==> s.previous == map[])
    && (s.accepted > 0 ==> Sample in s.first && Sample in s.last
                           && s.first[Sample] == s.origin[Sample] && s.last[Sample] == s.previous[Sample])
  }

  lemma PutKeeps(p: Profile, s: State, f: Field, value: Option<int>, host: Option<int>)
    requires p.Valid() && CounterOk(p, s, f) && Read(p, s, f, value, host).Ok?
    ensures CounterOk(p, Put(s, f, Read(p, s, f, value, host).value), f)
    ensures forall g :: g != f && CounterOk(p, s, g) ==> CounterOk(p, Put(s, f, Read(p, s, f, value, host).value), g)
  {
  }

  lemma CounterSame(p: Profile, s: State, s': State, f: Field)
    requires CounterOk(p, s, f) && s'.previous == s.previous && s'.elapsed == s.elapsed && s'.wraps == s.wraps && s'.origin == s.origin
    ensures CounterOk(p, s', f)
  {
  }

  /** Reading does not depend on the other counter. */
  lemma ReadAfter(p: Profile, s: State, sample: Reading, value: Option<int>, host: Option<int>)
    requires p.Valid()
    ensures Read(p, Put(s, Sample, sample), DataReady, value, host) == Read(p, s, DataReady, value, host)
  {
    hide AdvanceCounter;
  }

  lemma AcceptKeeps(p: Profile, s: State, frame: Frame, host: Option<int>)
    requires p.Valid() && Invariant(p, s) && ReadBoth(p, s, frame, host).Ok?
    ensures var r := ReadBoth(p, s, frame, host).value;
            CounterOk(p, Accept(s, r.0, r.1, host), Sample) && CounterOk(p, Accept(s, r.0, r.1, host), DataReady)
  {
    hide CounterOk, AdvanceCounter, Read, Put, Get, Values;
    var r := ReadBoth(p, s, frame, host).value;
    var s1 := Put(s, Sample, r.0);
    PutKeeps(p, s, Sample, frame.sample, host);
    ReadAfter(p, s, r.0, frame.ready, host);
    PutKeeps(p, s1, DataReady, frame.ready, host);
    CounterSame(p, Put(s1, DataReady, r.1), Accept(s, r.0, r.1, host), Sample);
    CounterSame(p, Put(s1, DataReady, r.1), Accept(s, r.0, r.1, host), DataReady);
  }

  /** The first accepted frame fixes the first values, and every accepted one the last. */
  lemma AcceptShape(s: State, sample: Reading, ready: Reading, host: Option<int>)
    requires sample.Value?
    ensures var s' := Accept(s, sample, ready, host);
            && Sample in s'.previous && s'.accepted == s.accepted + 1 && s'.error == s.error
            && Sample in s'.last && s'.last[Sample] == s'.previous[Sample]
            && (if s.accepted == 0 then Sample in s'.first && s'.first[Sample] == s'.previous[Sample] else s'.first == s.first)
            && Sample in s'.origin
            && s'.origin[Sample] == if Sample in s.origin then s.origin[Sample] else s'.previous[Sample]
  {
  }

  lemma ObserveKeeps(p: Profile, s: State, frame: Frame, host: Option<int>)
    requires p.Valid() && Invariant(p, s)
    ensures Invariant(p, Observe(p, s, frame, host))
  {
    hide ReadBoth, Accept;
    if s.error.None? && ReadBoth(p, s, frame, host).Ok? {
      var r := ReadBoth(p, s, frame, host).value;
      AcceptKeeps(p, s, frame, host);
      SampleRead(p, s, frame, host);
      AcceptShape(s, r.0, r.1, host);
      assert Sample in s.origin <==> Sample in s.previous;
      hide CounterOk;
    }
  }

  /** The sample counter is required, so an accepted frame has it. */
  lemma SampleRead(p: Profile, s: State, frame: Frame, host: Option<int>)
    requires p.Valid() && ReadBoth(p, s, frame, host).Ok?
    ensures ReadBoth(p, s, frame, host).value.0.Value?
  {
    hide AdvanceCounter;
  }

  /** In every run the sample counter's first and last raw values and the wraps give the elapsed
      ticks, and without the guarded policy no wrap is ever counted. */
  lemma {:induction false} ElapsedTelescopes(p: Profile, inputs: seq<Input>)
    requires p.Valid()
    ensures var s := Run(p, inputs);
            && Invariant(p, s)
            && (s.accepted > 0 ==> s.last[Sample] - s.first[Sample] + PERIOD * s.wraps[Sample] == s.elapsed[Sample])
            && (s.accepted > 0 && !p.guarded ==> s.wraps[Sample] == 0)
  {
    if inputs != [] {
      ElapsedTelescopes(p, inputs[..|inputs| - 1]);
      ObserveKeeps(p, Run(p, inputs[..|inputs| - 1]), inputs[|inputs| - 1].frame, inputs[|inputs| - 1].host);
      hide Observe;
    }
  }

  lemma AcceptRaisesNothing(p: Profile, s: State, frame: Frame, host: Option<int>)
    requires p.Valid()
    ensures ReadBoth(p, s, frame, host).Ok? ==>
              var r := ReadBoth(p, s, frame, host).value; Accept(s, r.0, r.1, host).error == s.error
  {
    hide ReadBoth;
  }

  /** A refused frame changes only the error, and the error is final. */
  lemma {:induction false} RefusalIsFinal(p: Profile, inputs: seq<Input>, more: seq<Input>)
    requires p.Valid() && inputs != []
    requires Run(p, inputs[..|inputs| - 1]).error.None? && Run(p, inputs).error.Some?
    ensures var before := Run(p, inputs[..|inputs| - 1]);
            Run(p, inputs + more) == before.(error := Run(p, inputs).error)
  {
    hide ReadBoth, Accept;
    if more == [] {
      assert inputs + more == inputs;
      var i := inputs[|inputs| - 1];
      AcceptRaisesNothing(p, Run(p, inputs[..|inputs| - 1]), i.frame, i.host);
    } else {
      RefusalIsFinal(p, inputs, more[..|more| - 1]);
      assert (inputs + more)[..|inputs + more| - 1] == inputs + more[..|more| - 1];
    }
  }

  // ----- refinement of an unbounded counter -----

  /** True values of the two counters at a frame, and the host clock; a frame may lack the last two. */
  datatype Truth = Truth(sample: nat, ready: Option<nat>, host: Option<int>)

  function InputOf(t: Truth): Input {
    Input(Frame(Some(t.sample % PERIOD), if t.ready.Some? then Some(t.ready.value % PERIOD) else None), t.host)
  }

  function Inputs(truths: seq<Truth>): (inputs: seq<Input>)
    ensures |inputs| == |truths|
  {
    if truths == [] then [] else Inputs(truths[..|truths| - 1]) + [InputOf(truths[|truths| - 1])]
  }

  function FirstReady(truths: seq<Truth>): Option<nat> {
    if truths == [] then None
    else if FirstReady(truths[..|truths| - 1]).Some? then FirstReady(truths[..|truths| - 1])
    else truths[|truths| - 1].ready
  }

  function LastReady(truths: seq<Truth>): (ready: Option<nat>)
    ensures ready.Some? <==> FirstReady(truths).Some?
    ensures ready.Some? ==> truths != []
  {
    if truths == [] then None
    else if truths[|truths| - 1].ready.Some? then truths[|truths| - 1].ready
    else LastReady(truths[..|truths| - 1])
  }

  /** Each true counter rises by less than one period from the last frame that carried it. */
  predicate Rise(truths: seq<Truth>) {
    truths == []
    || (var before, t := truths[..|truths| - 1], truths[|truths| - 1];
        && Rise(before)
        && (before != [] ==> before[|before| - 1].sample < t.sample < before[|before| - 1].sample + PERIOD)
        && (t.ready.Some? && LastReady(before).Some? ==>
              LastReady(before).value < t.ready.value < LastReady(before).value + PERIOD))
  }

  predicate Paced(p: Profile, a: nat, b: nat, hostDelta: Option<int>) {
    && (p.maxGap.Some? ==> b - a <= p.maxGap.value)
    && (Wraps(a, b) ==> p.guarded && HostAgrees(p, b - a, hostDelta))
  }

  predicate HostRises(p: Profile, last: Truth, t: Truth) {
    p.guarded && last.host.Some? && t.host.Some? ==> last.host.value <= t.host.value
  }

  /** `t` keeps the pace of the profile after the frames before it; every gap is held against the
      host time since the previous frame. */
  predicate Keeps(p: Profile, before: seq<Truth>, t: Truth) {
    && (p.readyRequired ==> t.ready.Some?)
    && (p.guarded ==> t.host.Some? && t.host.value >= 0)
    && (before != [] ==>
          var last := before[|before| - 1];
          && HostRises(p, last, t)
          && Paced(p, last.sample, t.sample, Difference(t.host, last.host))
          && (t.ready.Some? && LastReady(before).Some? ==>
                Paced(p, LastReady(before).value, t.ready.value, Difference(t.host, last.host))))
  }

  predicate InPace(p: Profile, truths: seq<Truth>) {
    truths == []
    || (InPace(p, truths[..|truths| - 1]) && Keeps(p, truths[..|truths| - 1], truths[|truths| - 1]))
  }

  /** The state tracks the true counter. */
  ghost predicate Tracks(s: State, f: Field, origin: nat, now: nat) {
    && f in s.previous && s.previous[f] == now % PERIOD
    && f in s.elapsed && s.elapsed[f] == now - origin
    && f in s.wraps && s.wraps[f] == now / PERIOD - origin / PERIOD
  }

  lemma ReadTracks(p: Profile, s: State, f: Field, origin: nat, a: nat, b: nat, host: Option<int>)
    requires p.Valid() && Tracks(s, f, origin, a) && a < b < a + PERIOD
    ensures var r := Read(p, s, f, Some(b % PERIOD), host);
            && (r.Ok? <==> Paced(p, a, b, Difference(host, s.previousHost)))
            && (r.Ok? ==> Tracks(Put(s, f, r.value), f, origin, b))
  {
    AdvanceExactly(a, b, Difference(host, s.previousHost), p);
    Residues(a, b);
    hide AdvanceCounter;
  }

  ghost predicate Unread(s: State, f: Field) {
    f !in s.previous && f !in s.elapsed && f !in s.wraps
  }

  lemma FirstRead(p: Profile, s: State, f: Field, b: nat, host: Option<int>)
    requires p.Valid() && Unread(s, f)
    ensures var r := Read(p, s, f, Some(b % PERIOD), host); r.Ok? && Tracks(Put(s, f, r.value), f, b, b)
  {
  }

  /** Both counters stand at their last true values; the optional one may not have been seen. */
  ghost predicate TracksAll(s: State, truths: seq<Truth>)
    requires truths != []
  {
    && s.error.None? && s.previousHost == truths[|truths| - 1].host
    && Tracks(s, Sample, truths[0].sample, truths[|truths| - 1].sample)
    && (if LastReady(truths).Some? then Tracks(s, DataReady, FirstReady(truths).value, LastReady(truths).value)
        else Unread(s, DataReady))
  }

  lemma FirstFrame(p: Profile, t: Truth)
    requires p.Valid()
    ensures var s := Observe(p, START, InputOf(t).frame, InputOf(t).host);
            (s.error.None? <==> Keeps(p, [], t)) && (s.error.None? ==> TracksAll(s, [t]))
  {
    FirstRead(p, START, Sample, t.sample, t.host);
    var s1 := Put(START, Sample, Read(p, START, Sample, InputOf(t).frame.sample, t.host).value);
    assert [t][..0] == [];
    if t.ready.Some? {
      FirstRead(p, s1, DataReady, t.ready.value, t.host);
    }
  }

  /** Reading the optional counter after the required one. */
  lemma ReadyTracks(p: Profile, s: State, before: seq<Truth>, t: Truth)
    requires p.Valid() && before != [] && t.ready.Some? && s.previousHost == before[|before| - 1].host
    requires if LastReady(before).Some? then Tracks(s, DataReady, FirstReady(before).value, LastReady(before).value)
             else Unread(s, DataReady)
    requires LastReady(before).Some? ==> LastReady(before).value < t.ready.value < LastReady(before).value + PERIOD
    ensures var r := Read(p, s, DataReady, Some(t.ready.value % PERIOD), t.host);
            && (r.Ok? <==> (LastReady(before).Some? ==>
                              Paced(p, LastReady(before).value, t.ready.value, Difference(t.host, before[|before| - 1].host))))
            && (r.Ok? ==> Tracks(Put(s, DataReady, r.value), DataReady,
                                 if LastReady(before).Some? then FirstReady(before).value else t.ready.value, t.ready.value))
  {
    if LastReady(before).Some? {
      ReadTracks(p, s, DataReady, FirstReady(before).value, LastReady(before).value, t.ready.value, t.host);
    } else {
      FirstRead(p, s, DataReady, t.ready.value, t.host);
    }
  }

  /** Reading the required counter, which is read first. */
  lemma SampleTracks(p: Profile, s: State, before: seq<Truth>, t: Truth)
    requires p.Valid() && before != [] && TracksAll(s, before) && Rise(before + [t])
    ensures var last, r := before[|before| - 1], Read(p, s, Sample, Some(t.sample % PERIOD), t.host);
            && (r.Ok? <==> Paced(p, last.sample, t.sample, Difference(t.host, last.host)))
            && (r.Ok? ==> Tracks(Put(s, Sample, r.value), Sample, before[0].sample, t.sample))
  {
    assert (before + [t])[..|before|] == before;
    ReadTracks(p, s, Sample, before[0].sample, before[|before| - 1].sample, t.sample, t.host);
  }

  /** The state once both readings are recorded. */
  function Recorded(s: State, sample: Reading, ready: Reading): State {
    Put(Put(s, Sample, sample), DataReady, ready)
  }

  lemma ReadyCarries(s: State, sample: Reading, f: nat, l: nat)
    ensures var s1 := Put(s, Sample, sample);
            && Tracks(s1, DataReady, f, l) == Tracks(s, DataReady, f, l) && Unread(s1, DataReady) == Unread(s, DataReady)
            && s1.previousHost == s.previousHost
  {
  }

  lemma SampleCarries(s: State, ready: Reading, f: nat, l: nat)
    ensures Tracks(Put(s, DataReady, ready), Sample, f, l) == Tracks(s, Sample, f, l)
  {
  }

  lemma LastReadyAfter(before: seq<Truth>, t: Truth)
    ensures LastReady(before + [t]) == if t.ready.Some? then t.ready else LastReady(before)
    ensures FirstReady(before + [t]) == if FirstReady(before).Some? then FirstReady(before) else t.ready
    ensures Rise(before + [t]) && t.ready.Some? && LastReady(before).Some? ==>
              LastReady(before).value < t.ready.value < LastReady(before).value + PERIOD
  {
    assert (before + [t])[..|before|] == before;
  }

  lemma NextReads(p: Profile, s: State, before: seq<Truth>, t: Truth)
    requires p.Valid() && before != [] && TracksAll(s, before) && Rise(before + [t])
    ensures var r := ReadBoth(p, s, InputOf(t).frame, InputOf(t).host);
            && (r.Ok? <==> Keeps(p, before, t))
            && (r.Ok? ==> var s' := Recorded(s, r.value.0, r.value.1);
                  && Tracks(s', Sample, before[0].sample, t.sample)
                  && if LastReady(before + [t]).Some?
                     then Tracks(s', DataReady, FirstReady(before + [t]).value, LastReady(before + [t]).value)
                     else Unread(s', DataReady))
  {
    var last := before[|before| - 1];
    LastReadyAfter(before, t);
    if HostRises(p, last, t) {
      SampleTracks(p, s, before, t);
      var sample := Read(p, s, Sample, Some(t.sample % PERIOD), t.host);
      hide AdvanceCounter, Paced, Rise, Tracks, Put, FirstReady, LastReady, Unread;
      if sample.Ok? {
        var s1 := Put(s, Sample, sample.value);
        if LastReady(before).Some? {
          ReadyCarries(s, sample.value, FirstReady(before).value, LastReady(before).value);
        } else {
          ReadyCarries(s, sample.value, 0, 0);
        }
        ReadAfter(p, s, sample.value, InputOf(t).frame.ready, t.host);
        if t.ready.Some? {
          ReadyTracks(p, s1, before, t);
        }
        var ready := Read(p, s, DataReady, InputOf(t).frame.ready, t.host);
        if ready.Ok? {
          SampleCarries(s1, ready.value, before[0].sample, t.sample);
          PutAbsent(s1);
        }
      }
      hide Read;
    }
  }

  lemma PutAbsent(s: State)
    ensures Put(s, DataReady, Absent) == s
  {
  }

  lemma NextFrame(p: Profile, s: State, before: seq<Truth>, t: Truth)
    requires p.Valid() && before != [] && TracksAll(s, before) && Rise(before + [t])
    ensures var s' := Observe(p, s, InputOf(t).frame, InputOf(t).host);
            (s'.error.None? <==> Keeps(p, before, t)) && (s'.error.None? ==> TracksAll(s', before + [t]))
  {
    NextReads(p, s, before, t);
    hide ReadBoth, Keeps, Rise, Put, LastReady, FirstReady, Values;
    var r := ReadBoth(p, s, InputOf(t).frame, InputOf(t).host);
    if r.Ok? {
      AcceptRecords(s, r.value.0, r.value.1, InputOf(t).host);
    }
  }

  lemma AcceptRecords(s: State, sample: Reading, ready: Reading, host: Option<int>)
    ensures var s', s1 := Accept(s, sample, ready, host), Recorded(s, sample, ready);
            && s'.previous == s1.previous && s'.elapsed == s1.elapsed && s'.wraps == s1.wraps
            && s'.previousHost == host && s'.error == s.error
  {
  }

  lemma {:induction false} LastOfInputs(truths: seq<Truth>)
    requires truths != []
    ensures var n := |truths| - 1;
            Inputs(truths)[..n] == Inputs(truths[..n]) && Inputs(truths)[n] == InputOf(truths[n])
  {
  }

  /**
   Refinement: while the true counters rise by less than one period, a run raises no error exactly
   when every frame keeps the pace, and then the elapsed ticks and the wraps of both counters are
   those of the unbounded counters, however often the optional one was missing.
   */
  lemma {:induction false} RefinesUnbounded(p: Profile, truths: seq<Truth>)
    requires p.Valid() && truths != [] && Rise(truths)
    ensures Run(p, Inputs(truths)).error.None? <==> InPace(p, truths)
    ensures InPace(p, truths) ==> TracksAll(Run(p, Inputs(truths)), truths)
  {
    hide TracksAll, Keeps, InputOf, ReadBoth, Accept;
    var n := |truths| - 1;
    var before, t := truths[..n], truths[n];
    LastOfInputs(truths);
    assert before + [t] == truths;
    if n == 0 {
      assert before == [] && Inputs(before) == [] && truths == [t];
      FirstFrame(p, t);
    } else {
      RefinesUnbounded(p, before);
      if InPace(p, before) {
        NextFrame(p, Run(p, Inputs(before)), before, t);
      }
    }
  }

  /**
   The host interval runs from the previous frame, not from the counter's previous value: when the
   optional counter was missing from a frame in between, a true wrap with perfect clocks is
   accepted exactly when that missing frame came within the tolerance of the counter's last value.
   */
  lemma SkippedFrameRefusesWrap(p: Profile, s: State, a: nat, b: nat, seenAt: int, skippedAt: int, now: int)
    requires p.Valid() && p.guarded && a < b && Wraps(a, b) && b - a <= p.maxGap.value
    requires DataReady in s.previous && s.previous[DataReady] == a % PERIOD && s.previousHost == Some(skippedAt)
    requires seenAt <= skippedAt <= now && (b - a) * p.tickNs == now - seenAt
    ensures Read(p, s, DataReady, Some(b % PERIOD), Some(now)).Ok? <==> skippedAt - seenAt <= p.tolerance
  {
    AdvanceExactly(a, b, Some(now - skippedAt), p);
    assert Abs((b - a) * p.tickNs - (now - skippedAt)) == skippedAt - seenAt;
    hide AdvanceCounter;
  }

  const EXACT := Profile(true, Some(1000), 1, 0, false)

  /** Both counters tick with the host clock; the second frame lacks the optional one. */
  function Skipping(): seq<Truth> {
    [Truth(PERIOD - 10, Some(PERIOD - 10), Some(0)), Truth(PERIOD - 5, None, Some(5)),
     Truth(PERIOD + 5, Some(PERIOD + 5), Some(15))]
  }

  /** So perfect clocks and a wrap well inside the gap are refused after one frame without the counter. */
  lemma SkippedFrameIsRefused()
    ensures EXACT.Valid() && Rise(Skipping())
    ensures forall i :: 0 <= i < 3 ==> Skipping()[i].host == Some((Skipping()[i].sample - (PERIOD - 10)) * EXACT.tickNs)
                                       && (Skipping()[i].ready.Some? ==> Skipping()[i].ready.value == Skipping()[i].sample)
    ensures Run(EXACT, Inputs(Skipping()[..2])).error.None? && Run(EXACT, Inputs(Skipping())).error.Some?
  {
    hide Keeps, Rise, InPace, Inputs, Run, LastReady, FirstReady, TracksAll;
    var t := Skipping();
    var a, b := t[..1], t[..2];
    assert a == [t[0]] && b == [t[0], t[1]];
    ReadyOfTwo(t[0], t[1]);
    SkippingSteps(a, b, t);
    RefinesUnbounded(EXACT, b);
    RefinesUnbounded(EXACT, t);
  }

  lemma ReadyOfTwo(t0: Truth, t1: Truth)
    requires t0.ready.Some? && t1.ready.None?
    ensures LastReady([t0]) == t0.ready && LastReady([t0, t1]) == t0.ready
  {
    assert [t0, t1][..1] == [t0] && [t0][..0] == [];
  }

  lemma SkippingSteps(a: seq<Truth>, b: seq<Truth>, t: seq<Truth>)
    requires |t| == 3 && t == Skipping() && a == [t[0]] && b == [t[0], t[1]]
    requires LastReady(a) == Some(PERIOD - 10) && LastReady(b) == LastReady(a)
    ensures EXACT.Valid() && Rise(b) && Rise(t) && InPace(EXACT, b) && !InPace(EXACT, t)
  {
    assert a[..0] == [] && b[..1] == a && t[..2] == b;
    hide LastReady, FirstReady;
    assert LastReady([]) == None by { NoReady(); }
    assert Rise(a) && InPace(EXACT, a);
    assert Rise(b) && InPace(EXACT, b);
    assert Rise(t);
    assert Wraps(PERIOD - 10, PERIOD + 5) && !HostAgrees(EXACT, 15, Some(10));
    assert !Keeps(EXACT, b, t[2]);
  }

  lemma NoReady()
    ensures LastReady([]) == None
  {
  }
}
