/**
 The voxel traversal of one ray (`_ray_cells` in src/wc_maps/builder.py), over exact reals.

 A ray is the segment from a sensor origin to a measured endpoint.  In voxel units each
 coordinate moves along `a + t * v` while `t` runs from 0 to 1, and it changes voxel where
 `a + t * v` is an integer.  Every proof works on one axis at a time and on the equation
 `a + time * v == boundary`, so that no quotient of unknowns reaches the verifier.
 */
module RayTraversal {
  import opened Common

  datatype Point = Point(x: real, y: real, z: real)

  datatype Voxel = Voxel(x: int, y: int, z: int)

  datatype RayError = TooManyCells | EndpointNotReached

  /** The time of the next boundary crossing; an axis that does not move never crosses. */
  datatype Time = At(t: real) | Never

  function Earlier(p: Time, q: Time): Time {
    if p.Never? || (q.At? && q.t < p.t) then q else p
  }

  function Later(p: Time, q: Time): Time {
    if p.At? && q.At? then At(p.t + q.t) else Never
  }

  function Sign(d: real): int {
    if d > 0.0 then 1 else if d < 0.0 then -1 else 0
  }

  function Magnitude(d: real): real {
    if d < 0.0 then -d else d
  }

  function CrossingTime(cell: int, o: real, d: real, resolution: real): Time {
    if d == 0.0 then Never
    else At(((if d > 0.0 then cell + 1 else cell) as real * resolution - o) / d)
  }

  function CrossingPeriod(d: real, resolution: real): Time {
    if d == 0.0 then Never else At(resolution / Magnitude(d))
  }

  function VoxelOf(p: Point, resolution: real): Voxel
    requires resolution > 0.0
  {
    Voxel((p.x / resolution).Floor, (p.y / resolution).Floor, (p.z / resolution).Floor)
  }

  function Distance(p: Voxel, q: Voxel): nat {
    Abs(q.x - p.x) + Abs(q.y - p.y) + Abs(q.z - p.z)
  }

  // ----- what the traversal is about: the geometry of the segment -----

  /** One coordinate of the segment in voxel units: `a` at time 0, `a + v` at time 1. */
  datatype Axis = Axis(a: real, v: real) {
    ghost function Pos(t: real): real {
      a + t * v
    }

    ghost function Cell(t: real): int {
      Pos(t).Floor
    }

    /** The coordinate moves and stands on a voxel boundary. */
    ghost predicate OnBoundary(t: real) {
      v != 0.0 && Cell(t) as real == Pos(t)
    }

    ghost function Last(): int {
      (a + v).Floor
    }

    /** The coordinate arrives exactly on a voxel boundary from below, or from above. */
    ghost predicate EndsRising() {
      v > 0.0 && Last() as real == a + v
    }

    ghost predicate EndsFalling() {
      v < 0.0 && Last() as real == a + v
    }
  }

  datatype Segment = Segment(x: Axis, y: Axis, z: Axis) {
    ghost function VoxelAt(t: real): Voxel {
      Voxel(x.Cell(t), y.Cell(t), z.Cell(t))
    }

    ghost predicate Clear(t: real) {
      !x.OnBoundary(t) && !y.OnBoundary(t) && !z.OnBoundary(t)
    }

    /** Strictly between its ends the segment runs through `c` off every boundary it crosses. */
    ghost predicate RunsThrough(c: Voxel) {
      exists t :: 0.0 < t < 1.0 && Clear(t) && VoxelAt(t) == c
    }

    /** A rising and a falling coordinate both arrive exactly on a boundary. */
    ghost predicate MixedCorner() {
      && (x.EndsRising() || y.EndsRising() || z.EndsRising())
      && (x.EndsFalling() || y.EndsFalling() || z.EndsFalling())
    }
  }

  ghost function AxisOf(o: real, e: real, resolution: real): Axis
    requires resolution > 0.0
  {
    Axis(o / resolution, (e - o) / resolution)
  }

  ghost function SegmentOf(o: Point, e: Point, resolution: real): Segment
    requires resolution > 0.0
  {
    Segment(AxisOf(o.x, e.x, resolution), AxisOf(o.y, e.y, resolution), AxisOf(o.z, e.z, resolution))
  }

  /**
   The free cells of a ray: every voxel the segment runs through other than the sensor's own
   and the endpoint's, ordered from the sensor to the endpoint.
   */
  ghost predicate IsTraversal(cells: seq<Voxel>, o: Point, e: Point, resolution: real)
    requires resolution > 0.0
  {
    var first, last := VoxelOf(o, resolution), VoxelOf(e, resolution);
    && (forall c :: c in cells <==>
          c != first && c != last && SegmentOf(o, e, resolution).RunsThrough(c))
    && (forall i, j :: 0 <= i < j < |cells| ==> Distance(cells[j], last) < Distance(cells[i], last))
  }

  // ----- one axis -----

  function StepAxis(cell: int, next: Time, d: real, hit: Time): int {
    if next == hit then cell + Sign(d) else cell
  }

  function StepTime(next: Time, period: Time, hit: Time): Time {
    if next == hit then Later(next, period) else next
  }

  /**
   At time `now` the walk has this axis in voxel `cell` and will leave it at time `next`:
   the coordinate has entered the voxel, and `next` is when it reaches the far side.
   */
  ghost predicate Tracks(ax: Axis, cell: int, next: Time, now: real) {
    if ax.v > 0.0 then
      next.At? && now <= next.t && ax.Pos(next.t) == (cell + 1) as real && cell as real <= ax.Pos(now)
    else if ax.v < 0.0 then
      next.At? && now <= next.t && ax.Pos(next.t) == cell as real && ax.Pos(now) <= (cell + 1) as real
    else
      next.Never? && cell == ax.a.Floor
  }

  /** Crossings of a moving axis are `1 / |v|` apart. */
  ghost predicate Periodic(ax: Axis, period: Time) {
    if ax.v == 0.0 then period.Never? else period.At? && period.t * Magnitude(ax.v) == 1.0
  }

  ghost predicate Ahead(next: Time, now: real) {
    next.Never? || now < next.t
  }

  lemma PosOrder(ax: Axis, p: real, q: real)
    requires p < q
    ensures ax.v > 0.0 ==> ax.Pos(p) < ax.Pos(q)
    ensures ax.v < 0.0 ==> ax.Pos(q) < ax.Pos(p)
  {
    assert (q - p) * ax.v == q * ax.v - p * ax.v;
    if ax.v > 0.0 {
      assert (q - p) * ax.v > 0.0;
    } else if ax.v < 0.0 {
      assert (q - p) * -ax.v > 0.0;
    }
  }

  lemma PosEnds(ax: Axis)
    ensures ax.Pos(0.0) == ax.a
    ensures ax.Pos(1.0) == ax.a + ax.v
  {
  }

  lemma PosPeriod(ax: Axis, t: real, period: real)
    requires ax.v != 0.0 && period * Magnitude(ax.v) == 1.0
    ensures ax.Pos(t + period) == ax.Pos(t) + Sign(ax.v) as real
    ensures period > 0.0
  {
    assert (t + period) * ax.v == t * ax.v + period * ax.v;
    FactorOfOne(period, Magnitude(ax.v));
  }

  lemma FactorOfOne(p: real, m: real)
    requires m >= 0.0 && p * m == 1.0
    ensures p > 0.0
  {
  }

  lemma InsideVoxel(ax: Axis, cell: int, next: Time, now: real, t: real)
    requires Tracks(ax, cell, next, now)
    requires now < t && Ahead(next, t)
    ensures ax.Cell(t) == cell && !ax.OnBoundary(t)
  {
    if ax.v == 0.0 {
      assert ax.Pos(t) == ax.a;
    } else {
      hide Axis.Pos;
      PosOrder(ax, now, t);
      PosOrder(ax, t, next.t);
    }
  }

  lemma HitIsOnBoundary(ax: Axis, cell: int, next: Time, now: real)
    requires Tracks(ax, cell, next, now) && next.At?
    ensures ax.OnBoundary(next.t)
  {
    hide Axis.Pos;
  }

  /** Crossing a boundary moves the axis to the voxel behind it and its next crossing one period on. */
  lemma AxisCrosses(ax: Axis, cell: int, next: Time, period: Time, now: real)
    requires Tracks(ax, cell, next, now) && next.At? && Periodic(ax, period)
    ensures Tracks(ax, cell + Sign(ax.v), Later(next, period), next.t) && Ahead(Later(next, period), next.t)
  {
    hide Axis.Pos;
    PosPeriod(ax, next.t, period.t);
  }

  lemma AxisWaits(ax: Axis, cell: int, next: Time, now: real, hit: real)
    requires Tracks(ax, cell, next, now)
    requires now <= hit && Ahead(next, hit)
    ensures Tracks(ax, cell, next, hit)
  {
    hide Axis.Pos;
    if now < hit {
      PosOrder(ax, now, hit);
    }
  }

  lemma AxisStep(ax: Axis, cell: int, next: Time, period: Time, now: real, hit: real)
    requires Tracks(ax, cell, next, now) && Periodic(ax, period)
    requires now <= hit && (next.At? ==> hit <= next.t)
    ensures var cell', next' := StepAxis(cell, next, ax.v, At(hit)), StepTime(next, period, At(hit));
            Tracks(ax, cell', next', hit) && Ahead(next', hit)
  {
    hide Tracks;
    if next == At(hit) {
      AxisCrosses(ax, cell, next, period, now);
    } else {
      AxisWaits(ax, cell, next, now, hit);
    }
  }

  /** Up to time 1 no axis has passed its last voxel, unless it falls onto a boundary at 1. */
  lemma NotPassed(ax: Axis, cell: int, next: Time, now: real)
    requires Tracks(ax, cell, next, now)
    requires now < 1.0 || (now == 1.0 && !ax.EndsFalling())
    ensures ax.v > 0.0 ==> cell <= ax.Last()
    ensures ax.v < 0.0 ==> ax.Last() <= cell
    ensures ax.v == 0.0 ==> cell == ax.Last()
  {
    hide Axis.Pos;
    PosEnds(ax);
    if now < 1.0 {
      PosOrder(ax, now, 1.0);
    }
  }

  /** How the next crossing compares with time 1 tells whether the axis is in its last voxel. */
  lemma ArrivalTime(ax: Axis, cell: int, next: Time, now: real)
    requires Tracks(ax, cell, next, now)
    requires now < 1.0 || (now == 1.0 && !ax.EndsFalling())
    ensures cell != ax.Last() ==> next.At? && next.t <= 1.0 && (next.t == 1.0 ==> ax.EndsRising())
    ensures cell == ax.Last() && next.At? ==> 1.0 <= next.t && (next.t == 1.0 ==> ax.EndsFalling())
  {
    hide Axis.Pos;
    NotPassed(ax, cell, next, now);
    PosEnds(ax);
    if next.At? && next.t < 1.0 {
      PosOrder(ax, next.t, 1.0);
    } else if next.At? && 1.0 < next.t {
      PosOrder(ax, 1.0, next.t);
    }
  }

  /** An axis that ends on a boundary is short of its last voxel before time 1 when it rises,
      and beyond it from time 1 on when it falls. */
  lemma CornerArrival(ax: Axis, cell: int, next: Time, now: real)
    requires Tracks(ax, cell, next, now)
    requires Ahead(next, now)
    ensures ax.EndsRising() && now < 1.0 ==> cell < ax.Last()
    ensures ax.EndsFalling() && 1.0 <= now ==> cell < ax.Last()
  {
    hide Axis.Pos;
    PosEnds(ax);
    if now < 1.0 {
      PosOrder(ax, now, 1.0);
    } else if 1.0 < now {
      PosOrder(ax, 1.0, now);
    }
    if next.At? {
      PosOrder(ax, now, next.t);
    }
  }

  lemma TracksFromStart(ax: Axis, t: real)
    requires ax.v != 0.0
    requires ax.Pos(t) == (if ax.v > 0.0 then ax.a.Floor + 1 else ax.a.Floor) as real
    ensures Tracks(ax, ax.a.Floor, At(t), 0.0)
  {
    hide Axis.Pos;
    PosEnds(ax);
    if t < 0.0 {
      PosOrder(ax, t, 0.0);
    }
  }

  lemma FirstCrossing(o: real, e: real, resolution: real)
    requires resolution > 0.0
    ensures var cell := (o / resolution).Floor;
            Tracks(AxisOf(o, e, resolution), cell, CrossingTime(cell, o, e - o, resolution), 0.0)
  {
    var ax, d, cell := AxisOf(o, e, resolution), e - o, (o / resolution).Floor;
    QuotientSign(d, resolution);
    if d != 0.0 {
      hide Tracks;
      CrossingProduct((if d > 0.0 then cell + 1 else cell) as real, o, d, resolution);
      TracksFromStart(ax, CrossingTime(cell, o, d, resolution).t);
    }
  }

  lemma FirstPeriod(o: real, e: real, resolution: real)
    requires resolution > 0.0
    ensures Periodic(AxisOf(o, e, resolution), CrossingPeriod(e - o, resolution))
    ensures Sign(AxisOf(o, e, resolution).v) == Sign(e - o)
  {
    QuotientSign(e - o, resolution);
    if e != o {
      PeriodProduct(e - o, resolution);
    }
  }

  /** The quotients the code starts an axis with satisfy the product equations at time 0. */
  lemma AxisStart(o: real, e: real, resolution: real)
    requires resolution > 0.0
    ensures var ax, d, cell := AxisOf(o, e, resolution), e - o, (o / resolution).Floor;
            && Tracks(ax, cell, CrossingTime(cell, o, d, resolution), 0.0)
            && (ax.EndsRising() ==> cell < ax.Last())
            && ax.Last() == (e / resolution).Floor
            && Sign(ax.v) == Sign(d)
            && Periodic(ax, CrossingPeriod(d, resolution))
  {
    hide Tracks, Periodic, CrossingTime, CrossingPeriod, Sign;
    FirstCrossing(o, e, resolution);
    FirstPeriod(o, e, resolution);
    SumOfQuotients(o, e - o, resolution);
    RisesBeyondStart(AxisOf(o, e, resolution));
  }

  lemma RisesBeyondStart(ax: Axis)
    ensures ax.EndsRising() ==> ax.a.Floor < ax.Last()
  {
  }

  lemma QuotientSign(d: real, r: real)
    requires r > 0.0
    ensures Sign(d / r) == Sign(d)
  {
    assert (d / r) * r == d;
    if d / r > 0.0 {
      assert (d / r) * r > 0.0;
    } else if d / r < 0.0 {
      assert -(d / r) * r > 0.0;
    }
  }

  lemma SumOfQuotients(o: real, d: real, r: real)
    requires r > 0.0
    ensures o / r + d / r == (o + d) / r
  {
    assert (o / r + d / r) * r == o + d;
  }

  lemma CrossingProduct(far: real, o: real, d: real, r: real)
    requires r > 0.0 && d != 0.0
    ensures (far * r - o) / d * (d / r) == far - o / r
  {
    var t := (far * r - o) / d;
    assert t * d == far * r - o;
    assert t * (d / r) == (t * d) / r;
    assert (far * r - o) / r == far - o / r by {
      assert (far - o / r) * r == far * r - o;
    }
  }

  lemma PeriodProduct(d: real, r: real)
    requires r > 0.0 && d != 0.0
    ensures r / Magnitude(d) * Magnitude(d / r) == 1.0
  {
    QuotientSign(d, r);
    var m := Magnitude(d);
    assert Magnitude(d / r) == m / r by {
      assert -(d / r) * r == -d;
    }
    assert (r / m) * m == r;
    assert (r / m) * (m / r) == ((r / m) * m) / r;
  }

  // ----- the three axes together -----

  /** The loop state: the current voxel, the three next crossing times and the last time used. */
  datatype Walk = Walk(cell: Voxel, tx: Time, ty: Time, tz: Time, now: real) {
    function Next(): Time {
      Earlier(tx, Earlier(ty, tz))
    }

    ghost predicate Follows(seg: Segment) {
      && 0.0 <= now
      && Tracks(seg.x, cell.x, tx, now) && Tracks(seg.y, cell.y, ty, now) && Tracks(seg.z, cell.z, tz, now)
      && (now == 0.0 || !seg.Clear(now))
    }

    ghost predicate AllAhead() {
      Ahead(tx, now) && Ahead(ty, now) && Ahead(tz, now)
    }

    /** Crossing times up to here cannot have carried an axis past its last voxel. */
    ghost predicate OnCourse(seg: Segment) {
      now < 1.0 || (now == 1.0 && !seg.x.EndsFalling() && !seg.y.EndsFalling() && !seg.z.EndsFalling())
    }
  }

  ghost function LastVoxel(seg: Segment): Voxel {
    Voxel(seg.x.Last(), seg.y.Last(), seg.z.Last())
  }

  /** Between two crossings the segment stays in the current voxel and off every boundary. */
  lemma StaysInside(seg: Segment, w: Walk, t: real)
    requires w.Follows(seg)
    requires w.now < t && Ahead(w.Next(), t)
    ensures seg.VoxelAt(t) == w.cell && seg.Clear(t)
  {
    hide Axis.Pos;
    InsideVoxel(seg.x, w.cell.x, w.tx, w.now, t);
    InsideVoxel(seg.y, w.cell.y, w.ty, w.now, t);
    InsideVoxel(seg.z, w.cell.z, w.tz, w.now, t);
  }

  /** One turn of the loop body, on values. */
  function Step(seg: Segment, w: Walk, px: Time, py: Time, pz: Time): Walk {
    var hit := w.Next();
    Walk(Voxel(StepAxis(w.cell.x, w.tx, seg.x.v, hit), StepAxis(w.cell.y, w.ty, seg.y.v, hit),
               StepAxis(w.cell.z, w.tz, seg.z.v, hit)),
         StepTime(w.tx, px, hit), StepTime(w.ty, py, hit), StepTime(w.tz, pz, hit),
         if hit.At? then hit.t else w.now)
  }

  lemma StepFollows(seg: Segment, w: Walk, px: Time, py: Time, pz: Time)
    requires w.Follows(seg) && w.Next().At?
    requires Periodic(seg.x, px) && Periodic(seg.y, py) && Periodic(seg.z, pz)
    ensures var w' := Step(seg, w, px, py, pz); w'.Follows(seg) && w'.AllAhead() && w'.now == w.Next().t
  {
    var hit := w.Next().t;
    assert w.now <= hit;
    hide Tracks;
    hide Axis.OnBoundary;
    AxisStep(seg.x, w.cell.x, w.tx, px, w.now, hit);
    AxisStep(seg.y, w.cell.y, w.ty, py, w.now, hit);
    AxisStep(seg.z, w.cell.z, w.tz, pz, w.now, hit);
    if w.tx == At(hit) {
      HitIsOnBoundary(seg.x, w.cell.x, w.tx, w.now);
    } else if w.ty == At(hit) {
      HitIsOnBoundary(seg.y, w.cell.y, w.ty, w.now);
    } else {
      HitIsOnBoundary(seg.z, w.cell.z, w.tz, w.now);
    }
  }

  /** A step that stays on course never takes an axis away from its last voxel. */
  lemma AxisCloser(ax: Axis, cell: int, next: Time, period: Time, now: real, hit: real)
    requires Tracks(ax, cell, next, now) && Periodic(ax, period)
    requires now <= hit && (next.At? ==> hit <= next.t)
    requires hit < 1.0 || (hit == 1.0 && !ax.EndsFalling())
    ensures var cell' := StepAxis(cell, next, ax.v, At(hit));
            && Abs(ax.Last() - cell') <= Abs(ax.Last() - cell)
            && (next == At(hit) ==> Abs(ax.Last() - cell') < Abs(ax.Last() - cell))
  {
    AxisStep(ax, cell, next, period, now, hit);
    NotPassed(ax, cell, next, now);
    NotPassed(ax, StepAxis(cell, next, ax.v, At(hit)), StepTime(next, period, At(hit)), hit);
  }

  /** Short of the end there is a crossing left, and walking up to it stays on course. */
  lemma CrossingLeft(seg: Segment, w: Walk)
    requires w.Follows(seg) && w.OnCourse(seg) && !seg.MixedCorner()
    requires w.cell != LastVoxel(seg)
    ensures w.Next().At? && w.now <= w.Next().t
    ensures w.(now := w.Next().t).OnCourse(seg)
  {
    ArrivalTime(seg.x, w.cell.x, w.tx, w.now);
    ArrivalTime(seg.y, w.cell.y, w.ty, w.now);
    ArrivalTime(seg.z, w.cell.z, w.tz, w.now);
  }

  lemma StepApproaches(seg: Segment, w: Walk, px: Time, py: Time, pz: Time)
    requires w.Follows(seg) && w.OnCourse(seg) && !seg.MixedCorner()
    requires w.cell != LastVoxel(seg)
    requires Periodic(seg.x, px) && Periodic(seg.y, py) && Periodic(seg.z, pz)
    ensures w.Next().At?
    ensures var w' := Step(seg, w, px, py, pz);
            w'.OnCourse(seg) && Distance(w'.cell, LastVoxel(seg)) < Distance(w.cell, LastVoxel(seg))
  {
    hide Tracks, Periodic, Axis.EndsRising, Axis.EndsFalling, Axis.Last, Abs, Sign;
    CrossingLeft(seg, w);
    var hit := w.Next().t;
    AxisCloser(seg.x, w.cell.x, w.tx, px, w.now, hit);
    AxisCloser(seg.y, w.cell.y, w.ty, py, w.now, hit);
    AxisCloser(seg.z, w.cell.z, w.tz, pz, w.now, hit);
  }

  /** Short of the end, the voxel just entered is one the segment runs through. */
  lemma EnteredVoxel(seg: Segment, w: Walk)
    requires w.Follows(seg) && w.AllAhead() && w.OnCourse(seg)
    requires w.cell != LastVoxel(seg)
    ensures seg.RunsThrough(w.cell)
  {
    ArrivalTime(seg.x, w.cell.x, w.tx, w.now);
    ArrivalTime(seg.y, w.cell.y, w.ty, w.now);
    ArrivalTime(seg.z, w.cell.z, w.tz, w.now);
    var t := (w.now + w.Next().t) / 2.0;
    StaysInside(seg, w, t);
  }

  /** From the last voxel the segment runs inside it to its end. */
  lemma ArrivedForGood(seg: Segment, w: Walk, t: real)
    requires w.Follows(seg) && w.OnCourse(seg) && w.cell == LastVoxel(seg)
    requires w.now < t < 1.0
    ensures seg.VoxelAt(t) == w.cell
  {
    ArrivalTime(seg.x, w.cell.x, w.tx, w.now);
    ArrivalTime(seg.y, w.cell.y, w.ty, w.now);
    ArrivalTime(seg.z, w.cell.z, w.tz, w.now);
    StaysInside(seg, w, t);
  }

  /** With a mixed corner at the end, no crossing ever leads into the last voxel. */
  lemma CornerNeverReached(seg: Segment, w: Walk)
    requires w.Follows(seg) && w.AllAhead() && seg.MixedCorner()
    ensures w.cell != LastVoxel(seg)
  {
    CornerArrival(seg.x, w.cell.x, w.tx, w.now);
    CornerArrival(seg.y, w.cell.y, w.ty, w.now);
    CornerArrival(seg.z, w.cell.z, w.tz, w.now);
  }

  lemma CornerHasCrossings(seg: Segment, w: Walk)
    requires w.Follows(seg) && seg.MixedCorner()
    ensures w.Next().At?
  {
  }

  lemma WalkStart(o: Point, e: Point, resolution: real)
    requires resolution > 0.0
    ensures var seg := SegmentOf(o, e, resolution);
            var c := VoxelOf(o, resolution);
            && Walk(c, CrossingTime(c.x, o.x, e.x - o.x, resolution), CrossingTime(c.y, o.y, e.y - o.y, resolution),
                    CrossingTime(c.z, o.z, e.z - o.z, resolution), 0.0).Follows(seg)
            && Periodic(seg.x, CrossingPeriod(e.x - o.x, resolution))
            && Periodic(seg.y, CrossingPeriod(e.y - o.y, resolution))
            && Periodic(seg.z, CrossingPeriod(e.z - o.z, resolution))
            && LastVoxel(seg) == VoxelOf(e, resolution)
            && (seg.MixedCorner() ==> c != LastVoxel(seg))
            && Sign(seg.x.v) == Sign(e.x - o.x) && Sign(seg.y.v) == Sign(e.y - o.y) && Sign(seg.z.v) == Sign(e.z - o.z)
  {
    hide Tracks, Periodic, CrossingTime, CrossingPeriod, Axis.EndsRising, Axis.EndsFalling, Axis.Last;
    AxisStart(o.x, e.x, resolution);
    AxisStart(o.y, e.y, resolution);
    AxisStart(o.z, e.z, resolution);
  }

  // ----- the algorithm -----

  /** What the loop has collected when it stands at `w`, provided no mixed corner lies ahead. */
  ghost predicate Collected(seg: Segment, w: Walk, first: Voxel, cells: seq<Voxel>) {
    var last := LastVoxel(seg);
    && w.Follows(seg) && w.OnCourse(seg)
    && (w.cell == first || w.cell == last || w.cell in cells)
    && (forall t :: 0.0 < t < w.now && seg.Clear(t) ==> seg.VoxelAt(t) == first || seg.VoxelAt(t) in cells)
    && (forall c :: c in cells ==> c != last && seg.RunsThrough(c))
    && (forall k :: 0 <= k < |cells| ==>
          Distance(w.cell, last) <= Distance(cells[k], last) < Distance(first, last))
    && (forall i, j :: 0 <= i < j < |cells| ==> Distance(cells[j], last) < Distance(cells[i], last))
    && Distance(w.cell, last) <= Distance(first, last)
  }

  lemma CollectStep(seg: Segment, w: Walk, px: Time, py: Time, pz: Time, first: Voxel, cells: seq<Voxel>)
    requires !seg.MixedCorner() && Collected(seg, w, first, cells) && w.cell != LastVoxel(seg)
    requires Periodic(seg.x, px) && Periodic(seg.y, py) && Periodic(seg.z, pz)
    ensures w.Next().At?
    ensures var w' := Step(seg, w, px, py, pz);
            && Collected(seg, w', first, if w'.cell != LastVoxel(seg) then cells + [w'.cell] else cells)
            && Distance(w'.cell, LastVoxel(seg)) < Distance(w.cell, LastVoxel(seg))
  {
    StepApproaches(seg, w, px, py, pz);
    StepFollows(seg, w, px, py, pz);
    hide Tracks, Periodic, Distance, Step, Walk.Next, Walk.AllAhead, Walk.OnCourse, LastVoxel, Axis.OnBoundary;
    hide Segment.VoxelAt, Segment.Clear, Segment.RunsThrough;
    var w' := Step(seg, w, px, py, pz);
    if w'.cell != LastVoxel(seg) {
      EnteredVoxel(seg, w');
    }
    var cells' := if w'.cell != LastVoxel(seg) then cells + [w'.cell] else cells;
    forall t | 0.0 < t < w'.now && seg.Clear(t)
      ensures seg.VoxelAt(t) == first || seg.VoxelAt(t) in cells'
    {
      if w.now < t {
        StaysInside(seg, w, t);
      }
    }
  }

  lemma CollectedAtStart(seg: Segment, w: Walk)
    requires w.Follows(seg) && w.now == 0.0
    ensures Collected(seg, w, w.cell, [])
  {
  }

  lemma CollectedAtEnd(o: Point, e: Point, resolution: real, w: Walk, cells: seq<Voxel>)
    requires resolution > 0.0
    requires Collected(SegmentOf(o, e, resolution), w, VoxelOf(o, resolution), cells)
    requires w.cell == VoxelOf(e, resolution) == LastVoxel(SegmentOf(o, e, resolution))
    ensures IsTraversal(cells, o, e, resolution)
  {
    var seg, first := SegmentOf(o, e, resolution), VoxelOf(o, resolution);
    forall c | c != first && c != w.cell && seg.RunsThrough(c)
      ensures c in cells
    {
      var t :| 0.0 < t < 1.0 && seg.Clear(t) && seg.VoxelAt(t) == c;
      if w.now < t {
        ArrivedForGood(seg, w, t);
      }
    }
  }

  /** One ray the traversal cannot finish: it ends on two voxel faces, entering across one of them. */
  lemma CornerRay()
    ensures SegmentOf(Point(0.5, 0.5, 0.5), Point(1.0, 0.0, 0.5), 1.0).MixedCorner()
    ensures Distance(VoxelOf(Point(0.5, 0.5, 0.5), 1.0), VoxelOf(Point(1.0, 0.0, 0.5), 1.0)) == 1
  {
    assert (0.5).Floor == 0 && (1.0).Floor == 1 && (0.0).Floor == 0;
  }

  /**
   The traversal, statement by statement.  The bound check comes first; after it the only way
   to fail is a mixed corner at the endpoint, and every other ray yields its traversal.
   */
  method RayCells(origin: Point, endpoint: Point, resolution: real, maxCells: nat)
    returns (r: Result<seq<Voxel>, RayError>)
    requires resolution > 0.0
    ensures r == Err(TooManyCells) <==>
            Distance(VoxelOf(origin, resolution), VoxelOf(endpoint, resolution)) + 1 > maxCells
    ensures r != Err(TooManyCells) ==>
            (r == Err(EndpointNotReached) <==> SegmentOf(origin, endpoint, resolution).MixedCorner())
    ensures r.Ok? ==> IsTraversal(r.value, origin, endpoint, resolution)
  {
    hide VoxelOf, CrossingTime, CrossingPeriod, AxisOf, SegmentOf, Sign, Earlier, Later;
    hide Tracks, Periodic, Collected, IsTraversal, LastVoxel, Segment.MixedCorner, Walk.AllAhead, Walk.Follows;
    var start, end := VoxelOf(origin, resolution), VoxelOf(endpoint, resolution);
    var x, y, z := start.x, start.y, start.z;
    var fx, fy, fz := end.x, end.y, end.z;
    var countBound := Abs(fx - x) + Abs(fy - y) + Abs(fz - z) + 1;
    if countBound > maxCells {
      return Err(TooManyCells);
    }
    var dx, dy, dz := endpoint.x - origin.x, endpoint.y - origin.y, endpoint.z - origin.z;
    var tx, ty, tz := CrossingTime(x, origin.x, dx, resolution), CrossingTime(y, origin.y, dy, resolution),
                      CrossingTime(z, origin.z, dz, resolution);
    var deltaX, deltaY, deltaZ := CrossingPeriod(dx, resolution), CrossingPeriod(dy, resolution),
                                  CrossingPeriod(dz, resolution);
    var cells: seq<Voxel> := [];

    WalkStart(origin, endpoint, resolution);
    ghost var seg, first, last := SegmentOf(origin, endpoint, resolution), Voxel(x, y, z), Voxel(fx, fy, fz);
    ghost var now := 0.0;
    CollectedAtStart(seg, Walk(first, tx, ty, tz, now));
    ghost var corner := seg.MixedCorner();
    for i := 0 to countBound
      invariant Walk(Voxel(x, y, z), tx, ty, tz, now).Follows(seg)
      invariant corner ==> Voxel(x, y, z) != last
      invariant !corner ==> Collected(seg, Walk(Voxel(x, y, z), tx, ty, tz, now), first, cells)
      invariant !corner ==> i + Distance(Voxel(x, y, z), last) < countBound
    {
      if x == fx && y == fy && z == fz {
        CollectedAtEnd(origin, endpoint, resolution, Walk(last, tx, ty, tz, now), cells);
        return Ok(cells);
      }
      var next := Earlier(tx, Earlier(ty, tz));
      ghost var w := Walk(Voxel(x, y, z), tx, ty, tz, now);
      ghost var w' := Step(seg, w, deltaX, deltaY, deltaZ);
      if corner {
        CornerHasCrossings(seg, w);
      } else {
        CollectStep(seg, w, deltaX, deltaY, deltaZ, first, cells);
      }
      StepFollows(seg, w, deltaX, deltaY, deltaZ);
      if tx == next {
        x := x + Sign(dx);
        tx := Later(tx, deltaX);
      }
      if ty == next {
        y := y + Sign(dy);
        ty := Later(ty, deltaY);
      }
      if tz == next {
        z := z + Sign(dz);
        tz := Later(tz, deltaZ);
      }
      now := next.t;
      assert w' == Walk(Voxel(x, y, z), tx, ty, tz, now);
      if corner {
        CornerNeverReached(seg, w');
      }
      if x != fx || y != fy || z != fz {
        cells := cells + [Voxel(x, y, z)];
      }
    }
    return Err(EndpointNotReached);
  }
}
