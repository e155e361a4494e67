/**
 The occupancy rebuild (`build_map` in src/wc_maps/builder.py) from returns already expressed
 in the map frame: the union of endpoint and ray voxels under a resource bound, occupied
 evidence winning over free evidence, and the projected grid.
 */
module OccupancyMap {
  import opened Common
  import opened RayTraversal

  /** The returns of one raw frame: the sensor origin and the measured endpoints. */
  datatype Frame = Frame(origin: Point, endpoints: seq<Point>)

  datatype Config = Config(
    resolution: real, ground: real, tolerance: real, minimum: real, maximum: real, groundValid: bool,
    maxRayCells: nat, maxGridCells: nat, maxPoints: nat, maxVoxels: nat)
  {
    predicate Physical() {
      resolution > 0.0 && tolerance >= 0.0 && minimum > tolerance && maximum > minimum
    }

    function ZStart(): int
      requires Physical()
    {
      ((ground + minimum) / resolution).Floor
    }

    function ZEnd(): int
      requires Physical()
    {
      Ceiling((ground + maximum) / resolution)
    }
  }

  datatype MapError =
    | InvalidConfiguration
    | EmptyFrame
    | PointLimit
    | ZeroRange
    | Ray(error: RayError)
    | VoxelLimit
    | MissingObservations
    | GridLimit
    | CollisionLimit

  datatype Column = Column(x: int, y: int)

  /** The voxel evidence gathered so far. */
  datatype Evidence = Evidence(all: set<Voxel>, occupied: set<Voxel>, groundSupport: set<Column>)

  datatype Grid = Grid(lowX: int, lowY: int, width: nat, height: nat, data: seq<int>)

  datatype OccupancyMap = OccupancyMap(evidence: Evidence, grid: Grid)

  function Ceiling(r: real): int {
    -((-r).Floor)
  }

  function Area(width: int, height: int): int {
    width * height
  }

  predicate IsZeroRange(o: Point, e: Point) {
    var dx, dy, dz := e.x - o.x, e.y - o.y, e.z - o.z;
    dx * dx + dy * dy + dz * dz <= 0.00000000000000000001
  }

  predicate GroundReturn(cfg: Config, e: Point) {
    Magnitude(e.z - cfg.ground) <= cfg.tolerance
  }

  /** Occupied wins; a free column needs a ground return and every collision voxel free. */
  function ColumnState(cfg: Config, ev: Evidence, c: Column): int
    requires cfg.Physical()
  {
    if exists z :: cfg.ZStart() <= z < cfg.ZEnd() && Voxel(c.x, c.y, z) in ev.occupied then 100
    else if cfg.groundValid && c in ev.groundSupport
         && forall z :: cfg.ZStart() <= z < cfg.ZEnd() ==> Voxel(c.x, c.y, z) in ev.all - ev.occupied then 0
    else -1
  }

  // ----- specification: everything depends on the set of returns -----

  datatype Return = Return(origin: Point, endpoint: Point)

  ghost function Returns(frames: seq<Frame>): set<Return> {
    set f, e | f in frames && e in f.endpoints :: Return(f.origin, e)
  }

  function PointCount(frames: seq<Frame>): nat {
    if frames == [] then 0 else PointCount(frames[..|frames| - 1]) + |frames[|frames| - 1].endpoints|
  }

  ghost predicate OnRay(r: Return, resolution: real, c: Voxel)
    requires resolution > 0.0
  {
    && c != VoxelOf(r.origin, resolution) && c != VoxelOf(r.endpoint, resolution)
    && SegmentOf(r.origin, r.endpoint, resolution).RunsThrough(c)
  }

  ghost predicate Touched(hits: set<Return>, resolution: real, c: Voxel)
    requires resolution > 0.0
  {
    exists r :: r in hits && (VoxelOf(r.endpoint, resolution) == c || OnRay(r, resolution, c))
  }

  /** A return whose ray can be traversed within the bound. */
  ghost predicate Traceable(cfg: Config, r: Return)
    requires cfg.Physical()
  {
    && !IsZeroRange(r.origin, r.endpoint)
    && Distance(VoxelOf(r.origin, cfg.resolution), VoxelOf(r.endpoint, cfg.resolution)) + 1 <= cfg.maxRayCells
    && !SegmentOf(r.origin, r.endpoint, cfg.resolution).MixedCorner()
  }

  /** What a return must be for its own objection to be raised. */
  ghost predicate Objection(cfg: Config, r: Return, e: MapError)
    requires cfg.Physical()
  {
    match e
    case ZeroRange => IsZeroRange(r.origin, r.endpoint)
    case Ray(TooManyCells) =>
      Distance(VoxelOf(r.origin, cfg.resolution), VoxelOf(r.endpoint, cfg.resolution)) + 1 > cfg.maxRayCells
    case Ray(EndpointNotReached) => SegmentOf(r.origin, r.endpoint, cfg.resolution).MixedCorner()
    case _ => false
  }

  ghost predicate AllTouched(hits: set<Return>, resolution: real, some: set<Voxel>)
    requires resolution > 0.0
  {
    forall c :: c in some ==> Touched(hits, resolution, c)
  }

  /** The union of all endpoint and ray voxels has more than `limit` members. */
  ghost predicate UnionExceeds(hits: set<Return>, resolution: real, limit: nat)
    requires resolution > 0.0
  {
    exists some: set<Voxel> :: |some| > limit && AllTouched(hits, resolution, some)
  }

  /** The evidence is exactly what the returns say. */
  ghost predicate IsEvidence(cfg: Config, hits: set<Return>, ev: Evidence)
    requires cfg.Physical()
  {
    && (forall c :: c in ev.all <==> Touched(hits, cfg.resolution, c))
    && ev.occupied == (set r | r in hits :: VoxelOf(r.endpoint, cfg.resolution))
    && ev.groundSupport == (set r | r in hits && GroundReturn(cfg, r.endpoint) ::
                              var v := VoxelOf(r.endpoint, cfg.resolution); Column(v.x, v.y))
  }

  ghost predicate IsGrid(cfg: Config, ev: Evidence, g: Grid)
    requires cfg.Physical()
  {
    && (forall c :: c in ev.all ==> g.lowX <= c.x < g.lowX + g.width && g.lowY <= c.y < g.lowY + g.height)
    && (exists c :: c in ev.all && c.x == g.lowX) && (exists c :: c in ev.all && c.x == g.lowX + g.width - 1)
    && (exists c :: c in ev.all && c.y == g.lowY) && (exists c :: c in ev.all && c.y == g.lowY + g.height - 1)
    && g.width > 0 && |g.data| == Area(g.width, g.height)
    && (forall k :: 0 <= k < |g.data| ==>
          g.data[k] == ColumnState(cfg, ev, Column(g.lowX + k % g.width, g.lowY + k / g.width)))
  }

  /** The complete specification of a successful rebuild: its voxels, its grid and its limits. */
  ghost predicate IsMap(cfg: Config, hits: set<Return>, m: OccupancyMap)
    requires cfg.Physical()
  {
    && IsEvidence(cfg, hits, m.evidence)
    && IsGrid(cfg, m.evidence, m.grid)
    && |m.evidence.all| <= cfg.maxVoxels
    && Area(m.grid.width, m.grid.height) <= cfg.maxGridCells
  }

  // ----- the loops -----

  lemma EvidenceGrows(cfg: Config, hits: set<Return>, ev: Evidence, r: Return, ray: seq<Voxel>, ev': Evidence)
    requires cfg.Physical() && IsEvidence(cfg, hits, ev)
    requires IsTraversal(ray, r.origin, r.endpoint, cfg.resolution)
    requires var v := VoxelOf(r.endpoint, cfg.resolution);
             && (forall c :: c in ev'.all <==> c in ev.all || c == v || c in ray)
             && ev'.occupied == ev.occupied + {v}
             && ev'.groundSupport == ev.groundSupport + if GroundReturn(cfg, r.endpoint) then {Column(v.x, v.y)} else {}
    ensures IsEvidence(cfg, hits + {r}, ev')
  {
    hide RayTraversal.VoxelOf, Segment.RunsThrough, SegmentOf, GroundReturn;
    var v := VoxelOf(r.endpoint, cfg.resolution);
    forall c ensures c in ev'.all <==> Touched(hits + {r}, cfg.resolution, c) {
      assert c in ray <==> OnRay(r, cfg.resolution, c);
      assert r in hits + {r};
    }
  }

  lemma SmallerSet(small: set<Voxel>, large: set<Voxel>)
    requires small <= large
    ensures |small| <= |large|
  {
    assert large == small + (large - small);
  }

  /** A return whose traversal fails is not traceable. */
  lemma RayFailure(cfg: Config, r: Return, traced: Result<seq<Voxel>, RayError>)
    requires cfg.Physical()
    requires traced == Err(TooManyCells) <==>
             Distance(VoxelOf(r.origin, cfg.resolution), VoxelOf(r.endpoint, cfg.resolution)) + 1 > cfg.maxRayCells
    requires traced != Err(TooManyCells) ==>
             (traced == Err(EndpointNotReached) <==> SegmentOf(r.origin, r.endpoint, cfg.resolution).MixedCorner())
    requires !IsZeroRange(r.origin, r.endpoint)
    ensures traced.Ok? <==> Traceable(cfg, r)
    ensures traced.Err? ==> Objection(cfg, r, Ray(traced.error))
  {
    hide RayTraversal.VoxelOf, SegmentOf, Segment.MixedCorner, IsZeroRange;
    if traced.Err? {
      match traced.error {
        case TooManyCells => assert traced == Err(TooManyCells);
        case EndpointNotReached => assert traced == Err(EndpointNotReached);
      }
    }
  }

  /**
   The union with one ray: the fast path when the bound cannot be reached, otherwise cell by
   cell, raising before the first growth beyond the bound; `beyond` shows that growth.
   */
  method MergeRay(all: set<Voxel>, rayCells: seq<Voxel>, limit: nat)
    returns (merged: Option<set<Voxel>>, ghost beyond: set<Voxel>)
    requires |all| <= limit
    ensures merged.Some? ==>
              |merged.value| <= limit && forall c :: c in merged.value <==> c in all || c in rayCells
    ensures merged.None? ==> |beyond| > limit && forall c :: c in beyond ==> c in all || c in rayCells
  {
    var cells := all;
    beyond := {};
    if |cells| + |rayCells| <= limit {
      SetOfSeq(rayCells);
      cells := cells + set c | c in rayCells;
    } else {
      for i := 0 to |rayCells|
        invariant |cells| <= limit
        invariant forall c :: c in cells <==> c in all || c in rayCells[..i]
      {
        if rayCells[i] !in cells {
          if |cells| >= limit {
            return None, cells + {rayCells[i]};
          }
          cells := cells + {rayCells[i]};
        }
      }
    }
    return Some(cells), beyond;
  }

  /** Adding one return: the source's endpoint check, fast path and near-limit path. */
  method AddReturn(cfg: Config, ghost hits: set<Return>, ev: Evidence, origin: Point, endpoint: Point)
    returns (res: Result<Evidence, MapError>)
    requires cfg.Physical() && IsEvidence(cfg, hits, ev) && |ev.all| <= cfg.maxVoxels
    ensures res.Ok? ==> IsEvidence(cfg, hits + {Return(origin, endpoint)}, res.value)
                        && |res.value.all| <= cfg.maxVoxels && Traceable(cfg, Return(origin, endpoint))
    ensures res.Err? && Traceable(cfg, Return(origin, endpoint)) ==>
              UnionExceeds(hits + {Return(origin, endpoint)}, cfg.resolution, cfg.maxVoxels)
    ensures res == Err(VoxelLimit) ==>
              UnionExceeds(hits + {Return(origin, endpoint)}, cfg.resolution, cfg.maxVoxels)
    ensures res.Err? ==> res.error.VoxelLimit? || Objection(cfg, Return(origin, endpoint), res.error)
  {
    hide IsEvidence, IsTraversal;
    ghost var r := Return(origin, endpoint);
    if IsZeroRange(origin, endpoint) {
      assert Objection(cfg, r, ZeroRange);
      return Err(ZeroRange);
    }
    hide RayTraversal.VoxelOf, Traceable, Objection, Touched, OnRay, UnionExceeds, IsZeroRange, SegmentOf,
      Segment.MixedCorner;
    var voxel := VoxelOf(endpoint, cfg.resolution);
    if |ev.all| >= cfg.maxVoxels && voxel !in ev.all {
      Exceeds(cfg, hits, ev, r, ev.all + {voxel});
      return Err(VoxelLimit);
    }
    var all := ev.all + {voxel};
    var occupied := ev.occupied + {voxel};
    var traced := RayCells(origin, endpoint, cfg.resolution, cfg.maxRayCells);
    RayFailure(cfg, r, traced);
    if traced.Err? {
      return Err(Ray(traced.error));
    }
    var rayCells := traced.value;
    var merged, beyond := MergeRay(all, rayCells, cfg.maxVoxels);
    if merged.None? {
      RayIsOnRay(cfg, r, rayCells);
      Exceeds(cfg, hits, ev, r, beyond);
      return Err(VoxelLimit);
    }
    all := merged.value;
    var ground := if GroundReturn(cfg, endpoint) then ev.groundSupport + {Column(voxel.x, voxel.y)}
                  else ev.groundSupport;
    EvidenceGrows(cfg, hits, ev, r, rayCells, Evidence(all, occupied, ground));
    return Ok(Evidence(all, occupied, ground));
  }

  lemma RayIsOnRay(cfg: Config, r: Return, ray: seq<Voxel>)
    requires cfg.Physical() && IsTraversal(ray, r.origin, r.endpoint, cfg.resolution)
    ensures forall c :: c in ray ==> OnRay(r, cfg.resolution, c)
  {
  }

  lemma SetOfSeq(s: seq<Voxel>)
    ensures |set c | c in s| <= |s|
  {
    if s != [] {
      SetOfSeq(s[1..]);
      assert (set c | c in s) == {s[0]} + (set c | c in s[1..]);
    }
  }

  lemma Exceeds(cfg: Config, hits: set<Return>, ev: Evidence, r: Return, grown: set<Voxel>)
    requires cfg.Physical() && |grown| > cfg.maxVoxels && IsEvidence(cfg, hits, ev)
    requires forall c :: c in grown ==>
               c in ev.all || c == VoxelOf(r.endpoint, cfg.resolution) || OnRay(r, cfg.resolution, c)
    ensures UnionExceeds(hits + {r}, cfg.resolution, cfg.maxVoxels)
  {
    hide RayTraversal.VoxelOf, OnRay;
    forall c | c in grown ensures Touched(hits + {r}, cfg.resolution, c) {
      assert r in hits + {r};
    }
    assert AllTouched(hits + {r}, cfg.resolution, grown);
  }

  lemma ReturnsOfFrame(f: Frame, i: nat)
    requires i < |f.endpoints|
    ensures Returns([Frame(f.origin, f.endpoints[..i + 1])]) ==
            Returns([Frame(f.origin, f.endpoints[..i])]) + {Return(f.origin, f.endpoints[i])}
    ensures Returns([Frame(f.origin, f.endpoints[..i + 1])]) <= Returns([f])
  {
    assert f.endpoints[..i + 1] == f.endpoints[..i] + [f.endpoints[i]];
  }

  /** One frame: every return in turn. */
  method AddFrame(cfg: Config, ghost hits: set<Return>, ev: Evidence, f: Frame)
    returns (res: Result<Evidence, MapError>)
    requires cfg.Physical() && IsEvidence(cfg, hits, ev) && |ev.all| <= cfg.maxVoxels
    ensures res.Ok? ==> IsEvidence(cfg, hits + Returns([f]), res.value) && |res.value.all| <= cfg.maxVoxels
                        && forall r :: r in Returns([f]) ==> Traceable(cfg, r)
    ensures res.Err? && (forall r :: r in Returns([f]) ==> Traceable(cfg, r)) ==>
              UnionExceeds(hits + Returns([f]), cfg.resolution, cfg.maxVoxels)
    ensures res == Err(VoxelLimit) ==> UnionExceeds(hits + Returns([f]), cfg.resolution, cfg.maxVoxels)
    ensures res.Err? ==> res.error.VoxelLimit? || exists r :: r in Returns([f]) && Objection(cfg, r, res.error)
  {
    var current := ev;
    ghost var done := Returns([Frame(f.origin, f.endpoints[..0])]);
    assert hits + done == hits;
    hide IsEvidence, Traceable, Objection, UnionExceeds, Returns, Config.Physical;
    for i := 0 to |f.endpoints|
      invariant IsEvidence(cfg, hits + done, current) && |current.all| <= cfg.maxVoxels
      invariant done == Returns([Frame(f.origin, f.endpoints[..i])])
      invariant forall r :: r in done ==> Traceable(cfg, r)
    {
      ghost var r := Return(f.origin, f.endpoints[i]);
      ReturnsOfFrame(f, i);
      var next := AddReturn(cfg, hits + done, current, f.origin, f.endpoints[i]);
      assert hits + done + {r} == hits + (done + {r});
      if next.Err? {
        if UnionExceeds(hits + (done + {r}), cfg.resolution, cfg.maxVoxels) {
          ExceedsMore(hits + (done + {r}), hits + Returns([f]), cfg);
        }
        return next;
      }
      done, current := done + {r}, next.value;
    }
    assert f.endpoints[..|f.endpoints|] == f.endpoints;
    return Ok(current);
  }

  lemma ExceedsMore(fewer: set<Return>, more: set<Return>, cfg: Config)
    requires cfg.Physical() && fewer <= more
    requires UnionExceeds(fewer, cfg.resolution, cfg.maxVoxels)
    ensures UnionExceeds(more, cfg.resolution, cfg.maxVoxels)
  {
    var some :| |some| > cfg.maxVoxels && AllTouched(fewer, cfg.resolution, some);
    hide OnRay;
    forall c | c in some ensures Touched(more, cfg.resolution, c) {
      var r :| r in fewer && (VoxelOf(r.endpoint, cfg.resolution) == c || OnRay(r, cfg.resolution, c));
      assert r in more;
    }
    assert AllTouched(more, cfg.resolution, some);
  }

  /** Smallest and largest column of a nonempty set of voxels. */
  method Bounds(cells: set<Voxel>) returns (lowX: int, highX: int, lowY: int, highY: int)
    requires cells != {}
    ensures forall c :: c in cells ==> lowX <= c.x <= highX && lowY <= c.y <= highY
    ensures (exists c :: c in cells && c.x == lowX) && (exists c :: c in cells && c.x == highX)
    ensures (exists c :: c in cells && c.y == lowY) && (exists c :: c in cells && c.y == highY)
  {
    var first :| first in cells;
    lowX, highX, lowY, highY := first.x, first.x, first.y, first.y;
    var rest := cells - {first};
    while rest != {}
      invariant rest <= cells
      invariant forall c :: c in cells - rest ==> lowX <= c.x <= highX && lowY <= c.y <= highY
      invariant (exists c :: c in cells && c.x == lowX) && (exists c :: c in cells && c.x == highX)
      invariant (exists c :: c in cells && c.y == lowY) && (exists c :: c in cells && c.y == highY)
    {
      var c :| c in rest;
      lowX, highX := if c.x < lowX then c.x else lowX, if highX < c.x then c.x else highX;
      lowY, highY := if c.y < lowY then c.y else lowY, if highY < c.y then c.y else highY;
      rest := rest - {c};
    }
  }

  lemma MulSign(d: int, width: nat)
    ensures d >= 1 ==> d * width >= width
    ensures d <= -1 ==> d * width + width <= 0
  {
  }

  lemma RowMajor(row: nat, column: nat, width: nat)
    requires column < width
    ensures (row * width + column) / width == row && (row * width + column) % width == column
  {
    var k := row * width + column;
    var d := k / width - row;
    assert d * width == column - k % width;
    MulSign(d, width);
  }

  ghost predicate Filled(cfg: Config, ev: Evidence, lowX: int, lowY: int, width: nat, data: seq<int>)
    requires cfg.Physical() && width > 0
  {
    forall k :: 0 <= k < |data| ==>
      data[k] == ColumnState(cfg, ev, Column(lowX + k % width, lowY + k / width))
  }

  lemma FillNext(cfg: Config, ev: Evidence, lowX: int, lowY: int, width: nat, data: seq<int>, i: nat, j: nat)
    requires cfg.Physical() && i < width && |data| == j * width + i
    requires Filled(cfg, ev, lowX, lowY, width, data)
    ensures Filled(cfg, ev, lowX, lowY, width, data + [ColumnState(cfg, ev, Column(lowX + i, lowY + j))])
  {
    hide ColumnState;
    RowMajor(j, i, width);
  }

  ghost predicate Extremes(all: set<Voxel>, west: Voxel, east: Voxel, south: Voxel, north: Voxel) {
    west in all && east in all && south in all && north in all && west.x <= east.x && south.y <= north.y
  }

  /** The bounding columns of the voxels and the collision interval respect their limits. */
  ghost predicate GridFits(cfg: Config, all: set<Voxel>)
    requires cfg.Physical()
  {
    && cfg.ZEnd() - cfg.ZStart() <= cfg.maxRayCells
    && forall west, east, south, north :: Extremes(all, west, east, south, north) ==>
         Area(east.x - west.x + 1, north.y - south.y + 1) <= cfg.maxGridCells
  }

  lemma ProductGrows(a: nat, b: nat, w: nat, h: nat)
    requires a <= w && b <= h
    ensures Area(a, b) <= Area(w, h)
  {
    assert a * b <= w * b <= w * h;
  }

  lemma FitsWithinBounds(cfg: Config, all: set<Voxel>, lowX: int, highX: int, lowY: int, highY: int)
    requires cfg.Physical() && cfg.ZEnd() - cfg.ZStart() <= cfg.maxRayCells
    requires forall c :: c in all ==> lowX <= c.x <= highX && lowY <= c.y <= highY
    requires lowX <= highX && lowY <= highY && Area(highX - lowX + 1, highY - lowY + 1) <= cfg.maxGridCells
    ensures GridFits(cfg, all)
  {
    hide Area;
    forall west, east, south, north | Extremes(all, west, east, south, north)
      ensures Area(east.x - west.x + 1, north.y - south.y + 1) <= cfg.maxGridCells
    {
      ProductGrows(east.x - west.x + 1, north.y - south.y + 1, highX - lowX + 1, highY - lowY + 1);
    }
  }

  lemma FitsEverywhere(cfg: Config, all: set<Voxel>, west: Voxel, east: Voxel, south: Voxel, north: Voxel)
    requires cfg.Physical() && GridFits(cfg, all) && Extremes(all, west, east, south, north)
    ensures Area(east.x - west.x + 1, north.y - south.y + 1) <= cfg.maxGridCells
  {
    hide Area, Config.ZStart, Config.ZEnd;
  }

  lemma ExceedsBounds(cfg: Config, all: set<Voxel>, lowX: int, highX: int, lowY: int, highY: int)
    requires cfg.Physical() && lowX <= highX && lowY <= highY
    requires (exists c :: c in all && c.x == lowX) && (exists c :: c in all && c.x == highX)
    requires (exists c :: c in all && c.y == lowY) && (exists c :: c in all && c.y == highY)
    requires Area(highX - lowX + 1, highY - lowY + 1) > cfg.maxGridCells
    ensures !GridFits(cfg, all)
  {
    hide Area, GridFits;
    var west :| west in all && west.x == lowX;
    var east :| east in all && east.x == highX;
    var south :| south in all && south.y == lowY;
    var north :| north in all && north.y == highY;
    assert Extremes(all, west, east, south, north) && west.x == lowX && east.x == highX;
    if GridFits(cfg, all) {
      FitsEverywhere(cfg, all, west, east, south, north);
      assert false;
    }
  }

  lemma CollisionTooTall(cfg: Config, all: set<Voxel>)
    requires cfg.Physical() && cfg.ZEnd() - cfg.ZStart() > cfg.maxRayCells
    ensures !GridFits(cfg, all)
  {
  }

  lemma FilledIsGrid(cfg: Config, ev: Evidence, g: Grid)
    requires cfg.Physical() && g.width > 0 && |g.data| == Area(g.width, g.height)
    requires Filled(cfg, ev, g.lowX, g.lowY, g.width, g.data)
    requires forall c :: c in ev.all ==> g.lowX <= c.x < g.lowX + g.width && g.lowY <= c.y < g.lowY + g.height
    requires (exists c :: c in ev.all && c.x == g.lowX) && (exists c :: c in ev.all && c.x == g.lowX + g.width - 1)
    requires (exists c :: c in ev.all && c.y == g.lowY) && (exists c :: c in ev.all && c.y == g.lowY + g.height - 1)
    ensures IsGrid(cfg, ev, g)
  {
    hide ColumnState;
  }

  /** The projected grid, rows in increasing y with x running fastest. */
  method Project(cfg: Config, ev: Evidence) returns (res: Result<Grid, MapError>)
    requires cfg.Physical() && ev.all != {}
    ensures res.Ok? ==> IsGrid(cfg, ev, res.value) && Area(res.value.width, res.value.height) <= cfg.maxGridCells
    ensures res.Ok? <==> GridFits(cfg, ev.all)
    ensures res.Err? ==> res.error.GridLimit? || res.error.CollisionLimit?
    ensures res == Err(CollisionLimit) ==> cfg.ZEnd() - cfg.ZStart() > cfg.maxRayCells
  {
    var lowX, highX, lowY, highY := Bounds(ev.all);
    var width, height := highX - lowX + 1, highY - lowY + 1;
    hide ColumnState, Area, GridFits, Config.ZEnd, Config.ZStart, Filled, IsGrid;
    if Area(width, height) > cfg.maxGridCells {
      ExceedsBounds(cfg, ev.all, lowX, highX, lowY, highY);
      return Err(GridLimit);
    }
    if cfg.ZEnd() - cfg.ZStart() > cfg.maxRayCells {
      CollisionTooTall(cfg, ev.all);
      return Err(CollisionLimit);
    }
    FitsWithinBounds(cfg, ev.all, lowX, highX, lowY, highY);
    var data := FillColumns(cfg, ev, lowX, lowY, width, height);
    FilledIsGrid(cfg, ev, Grid(lowX, lowY, width, height, data));
    return Ok(Grid(lowX, lowY, width, height, data));
  }

  method FillColumns(cfg: Config, ev: Evidence, lowX: int, lowY: int, width: nat, height: nat)
    returns (data: seq<int>)
    requires cfg.Physical() && width > 0
    ensures |data| == Area(width, height) && Filled(cfg, ev, lowX, lowY, width, data)
  {
    data := [];
    assert Filled(cfg, ev, lowX, lowY, width, data);
    hide ColumnState, Filled;
    for j := 0 to height
      invariant |data| == j * width
      invariant Filled(cfg, ev, lowX, lowY, width, data)
    {
      for i := 0 to width
        invariant |data| == j * width + i
        invariant Filled(cfg, ev, lowX, lowY, width, data)
      {
        FillNext(cfg, ev, lowX, lowY, width, data, i, j);
        data := data + [ColumnState(cfg, ev, Column(lowX + i, lowY + j))];
      }
    }
  }

  /** Nothing stands in the way of a rebuild; only the returns and their number matter. */
  ghost predicate Buildable(cfg: Config, frames: seq<Frame>)
    requires cfg.Physical()
  {
    && (forall f :: f in frames ==> f.endpoints != [])
    && PointCount(frames) <= cfg.maxPoints
    && Admissible(cfg, Returns(frames))
  }

  ghost predicate Admissible(cfg: Config, hits: set<Return>)
    requires cfg.Physical()
  {
    && hits != {}
    && (forall r :: r in hits ==> Traceable(cfg, r))
    && !UnionExceeds(hits, cfg.resolution, cfg.maxVoxels)
    && (forall ev :: IsEvidence(cfg, hits, ev) ==> GridFits(cfg, ev.all))
  }

  lemma EvidenceUnique(cfg: Config, hits: set<Return>, e1: Evidence, e2: Evidence)
    requires cfg.Physical() && IsEvidence(cfg, hits, e1) && IsEvidence(cfg, hits, e2)
    ensures e1 == e2
  {
    hide Touched, RayTraversal.VoxelOf, GroundReturn;
    assert e1.all == e2.all;
  }

  lemma EvidenceBounded(cfg: Config, hits: set<Return>, ev: Evidence)
    requires cfg.Physical() && IsEvidence(cfg, hits, ev)
    ensures |ev.all| <= cfg.maxVoxels <==> !UnionExceeds(hits, cfg.resolution, cfg.maxVoxels)
  {
    hide Touched, RayTraversal.VoxelOf, GroundReturn;
    if |ev.all| > cfg.maxVoxels {
      assert AllTouched(hits, cfg.resolution, ev.all);
    } else {
      forall some: set<Voxel> | AllTouched(hits, cfg.resolution, some) ensures |some| <= cfg.maxVoxels {
        SmallerSet(some, ev.all);
      }
    }
  }

  lemma PointsOfPrefix(frames: seq<Frame>, i: nat)
    requires i <= |frames|
    ensures PointCount(frames[..i]) <= PointCount(frames)
  {
    if i < |frames| {
      PointsOfPrefix(frames[..|frames| - 1], i);
      assert frames[..|frames| - 1][..i] == frames[..i];
    } else {
      assert frames[..i] == frames;
    }
  }

  lemma ReturnsOfPrefix(frames: seq<Frame>, i: nat)
    requires i < |frames|
    ensures Returns(frames[..i + 1]) == Returns(frames[..i]) + Returns([frames[i]])
    ensures Returns(frames[..i + 1]) <= Returns(frames)
    ensures Returns([frames[i]]) <= Returns(frames)
  {
    assert frames[..i + 1] == frames[..i] + [frames[i]];
  }

  /** What must be true of the observations when the loop over them raises `e`. */
  ghost predicate Explains(cfg: Config, frames: seq<Frame>, e: MapError)
    requires cfg.Physical()
  {
    match e
    case EmptyFrame => exists f :: f in frames && f.endpoints == []
    case PointLimit => PointCount(frames) > cfg.maxPoints
    case VoxelLimit => UnionExceeds(Returns(frames), cfg.resolution, cfg.maxVoxels)
    case _ => exists r :: r in Returns(frames) && Objection(cfg, r, e)
  }

  /** Nothing but the number of voxels can stand in the way of the evidence. */
  ghost predicate Gatherable(cfg: Config, frames: seq<Frame>)
    requires cfg.Physical()
  {
    && (forall f :: f in frames ==> f.endpoints != [])
    && PointCount(frames) <= cfg.maxPoints
    && (forall r :: r in Returns(frames) ==> Traceable(cfg, r))
  }

  lemma ObjectionKinds(cfg: Config, f: Frame, e: MapError)
    requires cfg.Physical()
    requires e.VoxelLimit? || exists r :: r in Returns([f]) && Objection(cfg, r, e)
    ensures e.ZeroRange? || e.Ray? || e.VoxelLimit?
  {
  }

  lemma ObjectionBlocks(cfg: Config, r: Return, e: MapError)
    requires cfg.Physical() && Objection(cfg, r, e)
    ensures !Traceable(cfg, r)
  {
  }

  /** Other errors than the voxel limit need observations that are not gatherable. */
  lemma ExplainedByVoxels(cfg: Config, frames: seq<Frame>, e: MapError)
    requires cfg.Physical() && Gatherable(cfg, frames) && Explains(cfg, frames, e)
    ensures e.VoxelLimit?
  {
    hide UnionExceeds, Traceable, Objection, Returns;
    if !e.VoxelLimit? {
      var r :| r in Returns(frames) && Objection(cfg, r, e);
      ObjectionBlocks(cfg, r, e);
      assert false;
    }
  }

  /** The observation loop: either all the evidence of all frames, or an objection that holds. */
  method GatherEvidence(cfg: Config, frames: seq<Frame>) returns (res: Result<Evidence, MapError>)
    requires cfg.Physical()
    ensures res.Ok? ==> IsEvidence(cfg, Returns(frames), res.value) && |res.value.all| <= cfg.maxVoxels
    ensures res.Ok? ==> Gatherable(cfg, frames)
    ensures res.Err? ==> !Buildable(cfg, frames) && Explains(cfg, frames, res.error)
  {
    var ev := Evidence({}, {}, {});
    var points := 0;
    assert IsEvidence(cfg, Returns(frames[..0]), ev);
    hide IsEvidence, Traceable, Objection, UnionExceeds, GridFits, Returns;
    for i := 0 to |frames|
      invariant IsEvidence(cfg, Returns(frames[..i]), ev) && |ev.all| <= cfg.maxVoxels
      invariant points == PointCount(frames[..i]) <= cfg.maxPoints
      invariant forall f :: f in frames[..i] ==> f.endpoints != []
      invariant forall r :: r in Returns(frames[..i]) ==> Traceable(cfg, r)
    {
      var f := frames[i];
      ReturnsOfPrefix(frames, i);
      PointsOfPrefix(frames, i + 1);
      assert frames[..i + 1][..i] == frames[..i];
      if f.endpoints == [] {
        return Err(EmptyFrame);
      }
      if points + |f.endpoints| > cfg.maxPoints {
        return Err(PointLimit);
      }
      var next := AddFrame(cfg, Returns(frames[..i]), ev, f);
      if next.Err? {
        if UnionExceeds(Returns(frames[..i + 1]), cfg.resolution, cfg.maxVoxels) {
          ExceedsMore(Returns(frames[..i + 1]), Returns(frames), cfg);
        }
        assert !next.error.VoxelLimit? ==> exists r :: r in Returns(frames) && Objection(cfg, r, next.error);
        assert next.error.ZeroRange? || next.error.Ray? || next.error.VoxelLimit? by { ObjectionKinds(cfg, f, next.error); }
        return Err(next.error);
      }
      ev, points := next.value, points + |f.endpoints|;
    }
    assert frames[..|frames|] == frames;
    return Ok(ev);
  }

  lemma ExplainedLimit(cfg: Config, frames: seq<Frame>, e: MapError)
    requires cfg.Physical() && Explains(cfg, frames, e)
    ensures e.VoxelLimit? ==> UnionExceeds(Returns(frames), cfg.resolution, cfg.maxVoxels)
    ensures !e.InvalidConfiguration? && !e.MissingObservations? && !e.GridLimit? && !e.CollisionLimit?
  {
    hide UnionExceeds;
  }

  /** What must be true of the observations when the rebuild raises `e`. */
  ghost predicate ErrorHolds(cfg: Config, frames: seq<Frame>, e: MapError)
    requires cfg.Physical()
  {
    match e
    case InvalidConfiguration => false
    case MissingObservations => Returns(frames) == {}
    case GridLimit => forall ev :: IsEvidence(cfg, Returns(frames), ev) ==> !GridFits(cfg, ev.all)
    case CollisionLimit => cfg.ZEnd() - cfg.ZStart() > cfg.maxRayCells
    case _ => Explains(cfg, frames, e)
  }

  /**
   The rebuild of one graph revision.  It succeeds exactly when the observations are buildable;
   its result is the map of the set of returns.  With nothing else wrong the voxel limit is raised
   exactly when the union of all endpoint and ray voxels exceeds it, and whatever is raised is so.
   */
  method BuildMap(cfg: Config, frames: seq<Frame>) returns (r: Result<OccupancyMap, MapError>)
    ensures r == Err(InvalidConfiguration) <==> !cfg.Physical()
    ensures cfg.Physical() ==> (r.Ok? <==> Buildable(cfg, frames))
    ensures cfg.Physical() && r.Ok? ==> IsMap(cfg, Returns(frames), r.value)
    ensures cfg.Physical() && Gatherable(cfg, frames) ==>
              (r == Err(VoxelLimit) <==> UnionExceeds(Returns(frames), cfg.resolution, cfg.maxVoxels))
    ensures cfg.Physical() && r.Err? ==> ErrorHolds(cfg, frames, r.error)
  {
    if !cfg.Physical() {
      return Err(InvalidConfiguration);
    }
    hide IsEvidence, UnionExceeds, IsGrid, GridFits, Returns, Area, Config.Physical, Gatherable, Explains, Buildable,
      ErrorHolds;
    var gathered := GatherEvidence(cfg, frames);
    if gathered.Err? {
      NotGathered(cfg, frames, gathered.error);
      return Err(gathered.error);
    }
    var ev := gathered.value;
    Gathered(cfg, frames, ev);
    if ev.all == {} {
      return Err(MissingObservations);
    }
    var grid := Project(cfg, ev);
    if grid.Err? {
      CollisionHolds(cfg, frames);
      return Err(grid.error);
    }
    return Ok(OccupancyMap(ev, grid.value));
  }

  lemma NotGathered(cfg: Config, frames: seq<Frame>, e: MapError)
    requires cfg.Physical() && Explains(cfg, frames, e)
    ensures ErrorHolds(cfg, frames, e) && e != InvalidConfiguration
    ensures Gatherable(cfg, frames) ==>
              e == VoxelLimit && UnionExceeds(Returns(frames), cfg.resolution, cfg.maxVoxels)
  {
    hide UnionExceeds, Traceable, Objection, Returns;
    ExplainedLimit(cfg, frames, e);
    if Gatherable(cfg, frames) {
      ExplainedByVoxels(cfg, frames, e);
    }
  }

  /** With all the evidence at hand only the grid can stand in the way. */
  lemma Gathered(cfg: Config, frames: seq<Frame>, ev: Evidence)
    requires cfg.Physical() && Gatherable(cfg, frames)
    requires IsEvidence(cfg, Returns(frames), ev) && |ev.all| <= cfg.maxVoxels
    ensures !UnionExceeds(Returns(frames), cfg.resolution, cfg.maxVoxels)
    ensures Buildable(cfg, frames) <==> ev.all != {} && GridFits(cfg, ev.all)
    ensures ev.all == {} ==> ErrorHolds(cfg, frames, MissingObservations)
    ensures !GridFits(cfg, ev.all) ==> ErrorHolds(cfg, frames, GridLimit)
  {
    hide IsEvidence, Traceable, UnionExceeds, GridFits, Returns, PointCount;
    EvidenceBounded(cfg, Returns(frames), ev);
    forall e | IsEvidence(cfg, Returns(frames), e) ensures e == ev {
      EvidenceUnique(cfg, Returns(frames), e, ev);
    }
    EvidenceEmpty(cfg, Returns(frames), ev);
  }

  lemma CollisionHolds(cfg: Config, frames: seq<Frame>)
    requires cfg.Physical()
    ensures cfg.ZEnd() - cfg.ZStart() > cfg.maxRayCells ==> ErrorHolds(cfg, frames, CollisionLimit)
  {
  }

  lemma EvidenceEmpty(cfg: Config, hits: set<Return>, ev: Evidence)
    requires cfg.Physical() && IsEvidence(cfg, hits, ev)
    ensures ev.all == {} <==> hits == {}
  {
    hide OnRay, RayTraversal.VoxelOf, GroundReturn;
    if r :| r in hits {
      assert Touched(hits, cfg.resolution, VoxelOf(r.endpoint, cfg.resolution));
    }
  }

  // ----- what the specification implies -----

  /** A set of returns has at most one map. */
  lemma MapUnique(cfg: Config, hits: set<Return>, m1: OccupancyMap, m2: OccupancyMap)
    requires cfg.Physical() && IsMap(cfg, hits, m1) && IsMap(cfg, hits, m2)
    ensures m1 == m2
  {
    hide IsEvidence, ColumnState;
    EvidenceUnique(cfg, hits, m1.evidence, m2.evidence);
    assert m1.grid.data == m2.grid.data;
  }

  lemma PointsOfRemoval(frames: seq<Frame>, k: nat)
    requires k < |frames|
    ensures PointCount(frames) == PointCount(frames[..k] + frames[k + 1..]) + |frames[k].endpoints|
  {
    var n := |frames| - 1;
    if k < n {
      PointsOfRemoval(frames[..n], k);
      var rest := frames[..k] + frames[k + 1..];
      assert rest[..|rest| - 1] == frames[..n][..k] + frames[..n][k + 1..];
    } else {
      assert frames[..k] + frames[k + 1..] == frames[..n];
    }
  }

  lemma RemoveSame<T>(fs: seq<T>, gs: seq<T>, k: nat)
    requires multiset(fs) == multiset(gs) && fs != [] && k < |gs| && gs[k] == fs[|fs| - 1]
    ensures multiset(fs[..|fs| - 1]) == multiset(gs[..k] + gs[k + 1..])
  {
    RemoveOne(fs, |fs| - 1);
    RemoveOne(gs, k);
    assert fs[..|fs| - 1] + fs[|fs|..] == fs[..|fs| - 1];
  }

  lemma RemoveOne<T>(s: seq<T>, k: nat)
    requires k < |s|
    ensures multiset(s[..k] + s[k + 1..]) == multiset(s) - multiset{s[k]}
  {
    var before, after := s[..k], s[k + 1..];
    assert s == before + [s[k]] + after;
    assert multiset(s) == multiset(before) + multiset{s[k]} + multiset(after);
  }

  lemma {:induction false} PointsPermute(fs: seq<Frame>, gs: seq<Frame>)
    requires multiset(fs) == multiset(gs)
    ensures PointCount(fs) == PointCount(gs)
    decreases |fs|
  {
    if fs == [] {
      assert |multiset(gs)| == 0;
    } else {
      var n := |fs| - 1;
      assert fs[n] in multiset(gs);
      var k :| 0 <= k < |gs| && gs[k] == fs[n];
      RemoveSame(fs, gs, k);
      PointsPermute(fs[..n], gs[..k] + gs[k + 1..]);
      PointsOfRemoval(gs, k);
    }
  }

  /** Reordering the observations changes neither the verdict nor the map. */
  lemma OrderIrrelevant(cfg: Config, fs: seq<Frame>, gs: seq<Frame>, m: OccupancyMap)
    requires cfg.Physical() && multiset(fs) == multiset(gs)
    ensures Buildable(cfg, fs) <==> Buildable(cfg, gs)
    ensures IsMap(cfg, Returns(fs), m) <==> IsMap(cfg, Returns(gs), m)
  {
    hide Admissible, IsMap;
    PointsPermute(fs, gs);
    forall f ensures f in fs <==> f in gs {
      assert f in fs <==> f in multiset(fs);
      assert f in gs <==> f in multiset(gs);
    }
    assert Returns(fs) == Returns(gs);
  }

  /** More observations never turn an occupied column into a free one: it stays occupied. */
  lemma OccupiedStaysOccupied(cfg: Config, fewer: set<Return>, more: set<Return>, e1: Evidence, e2: Evidence, c: Column)
    requires cfg.Physical() && fewer <= more
    requires IsEvidence(cfg, fewer, e1) && IsEvidence(cfg, more, e2)
    requires ColumnState(cfg, e1, c) == 100
    ensures ColumnState(cfg, e2, c) == 100
  {
    hide Touched, RayTraversal.VoxelOf, GroundReturn, Config.ZStart, Config.ZEnd;
    assert e1.occupied <= e2.occupied;
  }

  /** A voxel that contains a measured endpoint is never free, whatever rays cross it. */
  lemma EndpointNeverFree(cfg: Config, hits: set<Return>, ev: Evidence, r: Return)
    requires cfg.Physical() && IsEvidence(cfg, hits, ev) && r in hits
    ensures VoxelOf(r.endpoint, cfg.resolution) !in ev.all - ev.occupied
    ensures VoxelOf(r.endpoint, cfg.resolution) in ev.all
  {
    assert Touched(hits, cfg.resolution, VoxelOf(r.endpoint, cfg.resolution));
  }

  lemma QuotientOrder(p: real, q: real, d: real)
    requires p < q && d > 0.0
    ensures p / d < q / d
  {
    assert (q / d) * d == q && (p / d) * d == p;
    assert (q / d - p / d) * d > 0.0;
  }

  /** The collision interval of a column is never empty, so a free column rests on a free voxel
      and on a ground return in that very column. */
  lemma FreeColumnHasEvidence(cfg: Config, hits: set<Return>, ev: Evidence, c: Column)
    requires cfg.Physical() && IsEvidence(cfg, hits, ev) && ColumnState(cfg, ev, c) == 0
    ensures exists z :: cfg.ZStart() <= z < cfg.ZEnd() && Voxel(c.x, c.y, z) in ev.all - ev.occupied
    ensures exists r :: r in hits && GroundReturn(cfg, r.endpoint)
                        && VoxelOf(r.endpoint, cfg.resolution).x == c.x && VoxelOf(r.endpoint, cfg.resolution).y == c.y
  {
    hide Touched, GroundReturn, RayTraversal.VoxelOf;
    QuotientOrder(cfg.ground + cfg.minimum, cfg.ground + cfg.maximum, cfg.resolution);
    assert cfg.ZStart() < cfg.ZEnd();
    assert Voxel(c.x, c.y, cfg.ZStart()) in ev.all - ev.occupied;
  }
}
