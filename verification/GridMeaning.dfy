/**
 What each cell of a finished grid says about the returns it was built from, without the voxel sets
 in between (`build_map` in src/wc_maps/builder.py).
 */
module GridMeaning {
  import opened Common
  import opened RayTraversal
  import opened OccupancyMap

  /** The layer of voxels at `z` meets the heights a robot can collide with. */
  ghost predicate Collision(cfg: Config, z: int) {
    z as real * cfg.resolution < cfg.ground + cfg.maximum && cfg.ground + cfg.minimum < (z + 1) as real * cfg.resolution
  }

  ghost predicate EndsIn(cfg: Config, r: Return, c: Column)
    requires cfg.Physical()
  {
    VoxelOf(r.endpoint, cfg.resolution).x == c.x && VoxelOf(r.endpoint, cfg.resolution).y == c.y
  }

  /** Some return ends in the column, in a layer of the collision heights. */
  ghost predicate Blocked(cfg: Config, hits: set<Return>, c: Column)
    requires cfg.Physical()
  {
    exists r :: r in hits && EndsIn(cfg, r, c) && Collision(cfg, VoxelOf(r.endpoint, cfg.resolution).z)
  }

  ghost predicate OnGround(cfg: Config, r: Return) {
    cfg.ground - cfg.tolerance <= r.endpoint.z <= cfg.ground + cfg.tolerance
  }

  /** A return ends on the ground of the column, and returns touch its every voxel of the collision heights. */
  ghost predicate Cleared(cfg: Config, hits: set<Return>, c: Column)
    requires cfg.Physical()
  {
    && cfg.groundValid
    && (exists r :: r in hits && EndsIn(cfg, r, c) && OnGround(cfg, r))
    && (forall z :: Collision(cfg, z) ==> Touched(hits, cfg.resolution, Voxel(c.x, c.y, z)))
  }

  lemma ScaleOrder(z: int, q: real, d: real)
    requires d > 0.0
    ensures z as real < q / d <==> z as real * d < q
    ensures q / d < z as real <==> q < z as real * d
  {
    assert (q / d) * d == q;
    var r, a := q / d, z as real;
    if a < r {
      assert (r - a) * d > 0.0;
    } else if r < a {
      assert (a - r) * d > 0.0;
    }
  }

  /** The collision interval is exactly the layers that meet the collision heights. */
  lemma CollisionInterval(cfg: Config, z: int)
    requires cfg.Physical()
    ensures cfg.ZStart() <= z < cfg.ZEnd() <==> Collision(cfg, z)
  {
    ScaleOrder(z, cfg.ground + cfg.maximum, cfg.resolution);
    ScaleOrder(z + 1, cfg.ground + cfg.minimum, cfg.resolution);
    var low, high := (cfg.ground + cfg.minimum) / cfg.resolution, (cfg.ground + cfg.maximum) / cfg.resolution;
    assert cfg.ZStart() <= z <==> low < (z + 1) as real;
    assert z < cfg.ZEnd() <==> (z as real) < high;
  }

  lemma OccupiedMeaning(cfg: Config, hits: set<Return>, ev: Evidence, c: Column)
    requires cfg.Physical() && IsEvidence(cfg, hits, ev)
    ensures (exists z :: cfg.ZStart() <= z < cfg.ZEnd() && Voxel(c.x, c.y, z) in ev.occupied) <==> Blocked(cfg, hits, c)
  {
    hide Touched, GroundReturn, RayTraversal.VoxelOf, Config.ZStart, Config.ZEnd, Collision;
    if z :| cfg.ZStart() <= z < cfg.ZEnd() && Voxel(c.x, c.y, z) in ev.occupied {
      CollisionInterval(cfg, z);
      var r :| r in hits && VoxelOf(r.endpoint, cfg.resolution) == Voxel(c.x, c.y, z);
      assert EndsIn(cfg, r, c);
    }
    if r :| r in hits && EndsIn(cfg, r, c) && Collision(cfg, VoxelOf(r.endpoint, cfg.resolution).z) {
      CollisionInterval(cfg, VoxelOf(r.endpoint, cfg.resolution).z);
      var v := VoxelOf(r.endpoint, cfg.resolution);
      assert v == Voxel(c.x, c.y, v.z) && v in ev.occupied;
    }
  }

  lemma GroundMeaning(cfg: Config, hits: set<Return>, ev: Evidence, c: Column)
    requires cfg.Physical() && IsEvidence(cfg, hits, ev)
    ensures c in ev.groundSupport <==> exists r :: r in hits && EndsIn(cfg, r, c) && OnGround(cfg, r)
  {
    hide Touched, RayTraversal.VoxelOf;
    if r :| r in hits && EndsIn(cfg, r, c) && OnGround(cfg, r) {
      var v := VoxelOf(r.endpoint, cfg.resolution);
      assert GroundReturn(cfg, r.endpoint) && Column(v.x, v.y) == c;
    }
    if c in ev.groundSupport {
      var r :| r in hits && GroundReturn(cfg, r.endpoint)
               && c == Column(VoxelOf(r.endpoint, cfg.resolution).x, VoxelOf(r.endpoint, cfg.resolution).y);
      assert EndsIn(cfg, r, c) && OnGround(cfg, r);
    }
  }

  /** One column: 100, 0 and -1 each exactly when the returns say so. */
  lemma ColumnMeaning(cfg: Config, hits: set<Return>, ev: Evidence, c: Column)
    requires cfg.Physical() && IsEvidence(cfg, hits, ev)
    ensures ColumnState(cfg, ev, c) == if Blocked(cfg, hits, c) then 100 else if Cleared(cfg, hits, c) then 0 else -1
  {
    OccupiedMeaning(cfg, hits, ev, c);
    GroundMeaning(cfg, hits, ev, c);
    forall z ensures cfg.ZStart() <= z < cfg.ZEnd() <==> Collision(cfg, z) {
      CollisionInterval(cfg, z);
    }
    hide Blocked, EndsIn, Touched, Collision, Config.ZStart, Config.ZEnd, RayTraversal.VoxelOf, GroundReturn, OnGround;
    assert forall z :: Voxel(c.x, c.y, z) in ev.all <==> Touched(hits, cfg.resolution, Voxel(c.x, c.y, z));
    if !Blocked(cfg, hits, c) {
      assert Cleared(cfg, hits, c) <==> ColumnState(cfg, ev, c) == 0;
    }
  }

  /**
   Every datum of a finished map: it is 100 exactly when a return ends in its column at a collision
   height; else 0 exactly when the ground is valid, a return ends on its ground, and every voxel of
   its collision heights is touched by the returns; else -1.
   */
  lemma DatumMeaning(cfg: Config, hits: set<Return>, m: OccupancyMap, k: nat)
    requires cfg.Physical() && IsMap(cfg, hits, m) && k < |m.grid.data|
    ensures var c := Column(m.grid.lowX + k % m.grid.width, m.grid.lowY + k / m.grid.width);
            m.grid.data[k] == if Blocked(cfg, hits, c) then 100 else if Cleared(cfg, hits, c) then 0 else -1
  {
    hide IsEvidence, Blocked, Cleared, ColumnState;
    ColumnMeaning(cfg, hits, m.evidence, Column(m.grid.lowX + k % m.grid.width, m.grid.lowY + k / m.grid.width));
  }
}
