/**
 Exclusive ownership of image pixels by plane proposals (`_exclusive_refit` and
 `_finalize_region_quality` in src/wc_calibration/environment_planes.py): assign every pixel to
 its nearest proposal, fit the connected parts, withdraw the proposals that failed, repeat.

 Geometry is opaque: supports, distances, connected components, the fit of a component and the
 measure of a plane against the donor planes are functions of the `World`.
 */
module PlaneOwnership {
  import opened Common

  type Pixel = nat

  datatype Fit = Fit(interior: set<Pixel>, qualityPass: bool, temporalRejected: bool)

  datatype Plane = Plane(entry: nat, component: set<Pixel>, interior: set<Pixel>, quality: bool, rejected: bool)

  datatype World = World(
    pixels: nat, entries: nat, gate: real, minComponentPoints: nat, maxComponents: nat,
    support: nat -> set<Pixel>,                       // eligible pixels of the proposal's original mask
    distance: (nat, Pixel) -> real,
    parts: set<Pixel> -> seq<set<Pixel>>,             // connected components, largest first
    fit: (nat, set<Pixel>) -> Fit,
    rejects: (seq<Plane>, nat, set<nat>) -> bool)     // does the measure give reasons?
  {
    /** Components are disjoint parts of what was labelled, and a fit keeps to its component. */
    ghost predicate Valid() {
      && maxComponents >= 1
      && (forall owned, i :: 0 <= i < |parts(owned)| ==> parts(owned)[i] <= owned)
      && (forall owned, i, j :: 0 <= i < j < |parts(owned)| ==> parts(owned)[i] !! parts(owned)[j])
      && (forall e, component :: fit(e, component).interior <= component)
    }
  }

  // ----- ownership of a pixel -----

  predicate Near(w: World, e: nat, x: Pixel) {
    x in w.support(e) && w.distance(e, x) <= w.gate
  }

  /** Column `col` of the active proposals owns the pixel: it is near, no other active proposal
      supporting the pixel is closer, and an equally close one comes later. */
  ghost predicate Owns(w: World, active: seq<nat>, col: nat, x: Pixel) {
    && col < |active| && Near(w, active[col], x)
    && forall c: nat :: c < |active| && x in w.support(active[c]) ==>
         w.distance(active[col], x) <= w.distance(active[c], x)
         && (c < col ==> w.distance(active[col], x) < w.distance(active[c], x))
  }

  lemma OneOwner(w: World, active: seq<nat>, a: nat, b: nat, x: Pixel)
    requires Owns(w, active, a, x) && Owns(w, active, b, x)
    ensures a == b
  {
  }

  /** The first column with the least residual, or none when no residual is within the gate. */
  method FindOwner(w: World, active: seq<nat>, x: Pixel) returns (owner: Option<nat>)
    ensures owner.Some? ==> Owns(w, active, owner.value, x)
    ensures owner.None? ==> forall c: nat :: c < |active| ==> !Near(w, active[c], x)
  {
    var best: Option<nat> := None;
    for c := 0 to |active|
      invariant best.None? ==> forall k :: 0 <= k < c ==> x !in w.support(active[k])
      invariant best.Some? ==>
                  && best.value < c && x in w.support(active[best.value])
                  && forall k :: 0 <= k < c && x in w.support(active[k]) ==>
                       w.distance(active[best.value], x) <= w.distance(active[k], x)
                       && (k < best.value ==> w.distance(active[best.value], x) < w.distance(active[k], x))
    {
      if x in w.support(active[c]) && (best.None? || w.distance(active[c], x) < w.distance(active[best.value], x)) {
        best := Some(c);
      }
    }
    return if best.Some? && w.distance(active[best.value], x) <= w.gate then best else None;
  }

  function Pixels(n: nat): set<Pixel>
    ensures forall x: Pixel :: x in Pixels(n) <==> x < n
  {
    if n == 0 then {} else Pixels(n - 1) + {n - 1}
  }

  ghost function Owned(w: World, active: seq<nat>, col: nat): set<Pixel> {
    set x | x in Pixels(w.pixels) && Owns(w, active, col, x)
  }

  // ----- the planes of one round -----

  predicate Large(w: World, components: seq<set<Pixel>>, i: nat)
    requires i < |components|
  {
    |components[i]| >= w.minComponentPoints && i < w.maxComponents
  }

  /** The first `n` components that are large and not too many. */
  function Kept(w: World, components: seq<set<Pixel>>, n: nat): seq<set<Pixel>>
    requires n <= |components|
  {
    if n == 0 then []
    else Kept(w, components, n - 1) + if Large(w, components, n - 1) then [components[n - 1]] else []
  }

  /** What is fitted: the kept components, or one part for the record when none is kept. */
  function Selected(w: World, components: seq<set<Pixel>>): seq<set<Pixel>> {
    var kept := Kept(w, components, |components|);
    if kept != [] then kept else if components != [] then [components[0]] else [{}]
  }

  function FitPlane(w: World, e: nat, component: set<Pixel>): Plane {
    var f := w.fit(e, component);
    if |component| < w.minComponentPoints then Plane(e, component, f.interior, false, true)
    else Plane(e, component, f.interior, f.qualityPass, !f.qualityPass || f.temporalRejected)
  }

  function Fitted(w: World, e: nat, parts: seq<set<Pixel>>): seq<Plane> {
    if parts == [] then [] else Fitted(w, e, parts[..|parts| - 1]) + [FitPlane(w, e, parts[|parts| - 1])]
  }

  ghost function PlanesOf(w: World, active: seq<nat>, col: nat): seq<Plane>
    requires col < |active|
  {
    Fitted(w, active[col], Selected(w, w.parts(Owned(w, active, col))))
  }

  /** The planes of the first `n` active proposals. */
  ghost function Current(w: World, active: seq<nat>, n: nat): seq<Plane>
    requires n <= |active|
  {
    if n == 0 then [] else Current(w, active, n - 1) + PlanesOf(w, active, n - 1)
  }

  method SelectComponents(w: World, components: seq<set<Pixel>>) returns (selected: seq<set<Pixel>>)
    ensures selected == Selected(w, components)
  {
    selected := [];
    for i := 0 to |components|
      invariant selected == Kept(w, components, i)
    {
      if |components[i]| >= w.minComponentPoints && i < w.maxComponents {
        selected := selected + [components[i]];
      }
    }
    if selected == [] {
      selected := if components != [] then [components[0]] else [{}];
    }
  }

  method FitParts(w: World, e: nat, parts: seq<set<Pixel>>) returns (planes: seq<Plane>)
    ensures planes == Fitted(w, e, parts)
  {
    hide FitPlane;
    planes := [];
    for part := 0 to |parts|
      invariant planes == Fitted(w, e, parts[..part])
    {
      assert parts[..part + 1][..part] == parts[..part];
      planes := planes + [FitPlane(w, e, parts[part])];
    }
    assert parts[..|parts|] == parts;
  }

  method FitRound(w: World, active: seq<nat>) returns (current: seq<Plane>)
    ensures current == Current(w, active, |active|)
  {
    hide OwnersOk, Owned, Fitted, Selected;
    current := [];
    var owners := AssignOwners(w, active);
    for col := 0 to |active|
      invariant current == Current(w, active, col)
    {
      var mask := set x | x in Pixels(w.pixels) && owners[x] == Some(col);
      MaskIsOwned(w, active, owners, col);
      var selected := SelectComponents(w, w.parts(mask));
      var planes := FitParts(w, active[col], selected);
      current := current + planes;
    }
  }

  ghost predicate OwnersOk(w: World, active: seq<nat>, owners: seq<Option<nat>>) {
    forall x :: 0 <= x < |owners| ==>
      (owners[x].Some? ==> Owns(w, active, owners[x].value, x))
      && (owners[x].None? ==> forall c: nat :: c < |active| ==> !Near(w, active[c], x))
  }

  method AssignOwners(w: World, active: seq<nat>) returns (owners: seq<Option<nat>>)
    ensures |owners| == w.pixels && OwnersOk(w, active, owners)
  {
    owners := [];
    for x := 0 to w.pixels
      invariant |owners| == x && OwnersOk(w, active, owners)
    {
      var owner := FindOwner(w, active, x);
      owners := owners + [owner];
    }
  }

  lemma MaskIsOwned(w: World, active: seq<nat>, owners: seq<Option<nat>>, col: nat)
    requires |owners| == w.pixels && OwnersOk(w, active, owners) && col < |active|
    ensures (set x | x in Pixels(w.pixels) && owners[x] == Some(col)) == Owned(w, active, col)
  {
    forall x | x in Pixels(w.pixels) ensures owners[x] == Some(col) <==> Owns(w, active, col, x) {
      if Owns(w, active, col, x) {
        assert Near(w, active[col], x);
        if owners[x].Some? {
          OneOwner(w, active, owners[x].value, col, x);
        }
      }
    }
  }

  // ----- donors -----

  function Retained(w: World, current: seq<Plane>, donors: set<nat>): set<nat> {
    set i | i in donors && !w.rejects(current, i, donors)
  }

  /** Withdraw rejected donors until none is rejected. */
  function Donors(w: World, current: seq<Plane>, donors: set<nat>): set<nat>
    decreases |donors|
  {
    var retained := Retained(w, current, donors);
    if retained == donors then donors
    else
      Fewer(retained, donors);
      Donors(w, current, retained)
  }

  lemma Fewer(a: set<nat>, b: set<nat>)
    requires a <= b && a != b
    ensures |a| < |b|
  {
    assert b == a + (b - a) && b - a != {};
  }

  /** For any measure the result supports itself: measured against itself no member is rejected. */
  lemma {:induction false} DonorsAreStable(w: World, current: seq<Plane>, donors: set<nat>)
    ensures var d := Donors(w, current, donors); d <= donors && forall i :: i in d ==> !w.rejects(current, i, d)
    decreases |donors|
  {
    var retained := Retained(w, current, donors);
    if retained != donors {
      Fewer(retained, donors);
      DonorsAreStable(w, current, retained);
    } else {
      assert forall i :: i in donors ==> i in retained;
    }
  }

  /** When more donors never cause a rejection, it is the largest self-supporting set. */
  lemma {:induction false} DonorsAreGreatest(w: World, current: seq<Plane>, donors: set<nat>, other: set<nat>)
    requires forall i, a: set<nat>, b: set<nat> :: a <= b && w.rejects(current, i, b) ==> w.rejects(current, i, a)
    requires other <= donors && forall i :: i in other ==> !w.rejects(current, i, other)
    ensures other <= Donors(w, current, donors)
    decreases |donors|
  {
    var retained := Retained(w, current, donors);
    if retained != donors {
      Fewer(retained, donors);
      DonorsAreGreatest(w, current, retained, other);
    }
  }

  /** The bounded loop of the source: it always ends by reaching the fixed point. */
  method FindDonors(w: World, current: seq<Plane>, start: set<nat>) returns (donors: set<nat>)
    ensures donors == Donors(w, current, start)
  {
    donors := start;
    var stable := false;
    for round := 0 to |start| + 1
      invariant Donors(w, current, donors) == Donors(w, current, start)
      invariant stable ==> Retained(w, current, donors) == donors
      invariant !stable ==> |donors| + round <= |start|
    {
      var retained := set i | i in donors && !w.rejects(current, i, donors);
      assert retained == Retained(w, current, donors);
      if retained == donors {
        stable := true;
        break;
      }
      Fewer(retained, donors);
      donors := retained;
    }
  }

  // ----- finalising a round -----

  function Eligible(current: seq<Plane>): set<nat> {
    set i | i in Pixels(|current|) && current[i].quality && !current[i].rejected
  }

  /** A plane of good quality that the donors do not explain well enough is rejected. */
  function Judged(w: World, current: seq<Plane>, i: nat): Plane
    requires i < |current|
  {
    if current[i].quality && w.rejects(current, i, Donors(w, current, Eligible(current)))
    then current[i].(quality := false, rejected := true)
    else current[i]
  }

  ghost predicate IsFinalized(w: World, current: seq<Plane>, planes: seq<Plane>) {
    |planes| == |current| && forall i :: 0 <= i < |current| ==> planes[i] == Judged(w, current, i)
  }

  method FinalizeQuality(w: World, current: seq<Plane>) returns (planes: seq<Plane>)
    ensures IsFinalized(w, current, planes)
  {
    hide Donors;
    var eligible := set i | i in Pixels(|current|) && current[i].quality && !current[i].rejected;
    assert eligible == Eligible(current);
    var donors := FindDonors(w, current, eligible);
    planes := [];
    for i := 0 to |current|
      invariant |planes| == i && forall k :: 0 <= k < i ==> planes[k] == Judged(w, current, k)
    {
      var plane := current[i];
      if plane.quality && w.rejects(current, i, donors) {
        plane := plane.(quality := false, rejected := true);
      }
      planes := planes + [plane];
    }
  }

  // ----- what one round guarantees -----

  ghost predicate PartsOk(parts: seq<set<Pixel>>, owned: set<Pixel>) {
    && (forall i :: 0 <= i < |parts| ==> parts[i] <= owned)
    && (forall i, j :: 0 <= i < j < |parts| ==> parts[i] !! parts[j])
  }

  lemma {:induction false} KeptParts(w: World, components: seq<set<Pixel>>, n: nat, owned: set<Pixel>)
    requires PartsOk(components, owned) && n <= |components|
    ensures PartsOk(Kept(w, components, n), owned)
    ensures forall i, k :: 0 <= i < |Kept(w, components, n)| && n <= k < |components| ==> Kept(w, components, n)[i] !! components[k]
  {
    if n > 0 {
      KeptParts(w, components, n - 1, owned);
      hide Large;
    }
  }

  lemma SelectedParts(w: World, active: seq<nat>, col: nat)
    requires w.Valid() && col < |active|
    ensures var owned := Owned(w, active, col);
            var selected := Selected(w, w.parts(owned)); PartsOk(selected, owned) && selected != []
  {
    hide Owned;
    var owned := Owned(w, active, col);
    KeptParts(w, w.parts(owned), |w.parts(owned)|, owned);
  }

  lemma {:induction false} FittedAt(w: World, e: nat, parts: seq<set<Pixel>>)
    ensures |Fitted(w, e, parts)| == |parts|
    ensures forall i :: 0 <= i < |parts| ==> Fitted(w, e, parts)[i] == FitPlane(w, e, parts[i])
  {
    hide FitPlane;
    if parts != [] {
      FittedAt(w, e, parts[..|parts| - 1]);
    }
  }

  /** The plane belongs to the proposal of this column, on pixels that column owns. */
  ghost predicate FromColumn(w: World, active: seq<nat>, p: Plane, col: nat) {
    col < |active| && p.entry == active[col] && p.component <= Owned(w, active, col) && p.interior <= p.component
  }

  ghost predicate Disjoint(planes: seq<Plane>) {
    forall i, j :: 0 <= i < j < |planes| ==> planes[i].component !! planes[j].component
  }

  ghost predicate HasPlane(planes: seq<Plane>, e: nat) {
    exists p :: p in planes && p.entry == e
  }

  /** The planes of the first `n` columns: each on its column's pixels, disjoint, none missing. */
  ghost predicate ColumnsOk(w: World, active: seq<nat>, planes: seq<Plane>, n: nat)
    requires n <= |active|
  {
    && (forall p :: p in planes ==> exists col: nat :: col < n && FromColumn(w, active, p, col))
    && Disjoint(planes)
    && (forall col: nat :: col < n ==> HasPlane(planes, active[col]))
  }

  lemma ColumnPlanes(w: World, active: seq<nat>, col: nat)
    requires w.Valid() && col < |active|
    ensures var planes := PlanesOf(w, active, col);
            && planes != [] && Disjoint(planes) && forall p :: p in planes ==> FromColumn(w, active, p, col)
  {
    var owned := Owned(w, active, col);
    var parts := Selected(w, w.parts(owned));
    SelectedParts(w, active, col);
    FittedAt(w, active[col], parts);
    hide Owned, Selected, Fitted;
  }

  lemma DisjointColumns(w: World, active: seq<nat>, a: nat, b: nat)
    requires a != b
    ensures Owned(w, active, a) !! Owned(w, active, b)
  {
    forall x | x in Owned(w, active, a) && x in Owned(w, active, b) ensures false {
      OneOwner(w, active, a, b, x);
    }
  }

  lemma DisjointAppend(a: seq<Plane>, b: seq<Plane>)
    requires Disjoint(a) && Disjoint(b)
    requires forall p, q :: p in a && q in b ==> p.component !! q.component
    ensures Disjoint(a + b)
  {
    var c := a + b;
    forall i, j | 0 <= i < j < |c| ensures c[i].component !! c[j].component {
      if i < |a| && j >= |a| {
        assert c[i] in a && c[j] in b;
      }
    }
  }

  lemma ColumnsApart(w: World, active: seq<nat>, before: seq<Plane>, more: seq<Plane>, n: nat)
    requires n < |active| && ColumnsOk(w, active, before, n) && forall p :: p in more ==> FromColumn(w, active, p, n)
    ensures forall p, q :: p in before && q in more ==> p.component !! q.component
  {
    hide Owned, Disjoint, HasPlane;
    forall p, q | p in before && q in more ensures p.component !! q.component {
      var col: nat :| col < n && FromColumn(w, active, p, col);
      DisjointColumns(w, active, col, n);
    }
  }

  lemma {:induction false} CurrentOk(w: World, active: seq<nat>, n: nat)
    requires w.Valid() && n <= |active|
    ensures ColumnsOk(w, active, Current(w, active, n), n)
  {
    hide PlanesOf, Owned, FromColumn;
    if n > 0 {
      CurrentOk(w, active, n - 1);
      var before, more := Current(w, active, n - 1), PlanesOf(w, active, n - 1);
      ColumnPlanes(w, active, n - 1);
      ColumnsApart(w, active, before, more, n - 1);
      hide Disjoint, ColumnsOk;
      assert Disjoint(before) by { ColumnsDisjoint(w, active, before, n - 1); }
      DisjointAppend(before, more);
      ColumnsAppend(w, active, before, more, n - 1);
    }
  }

  lemma ColumnsDisjoint(w: World, active: seq<nat>, planes: seq<Plane>, n: nat)
    requires n <= |active| && ColumnsOk(w, active, planes, n)
    ensures Disjoint(planes)
  {
  }

  lemma ColumnsAppend(w: World, active: seq<nat>, before: seq<Plane>, more: seq<Plane>, n: nat)
    requires n < |active| && ColumnsOk(w, active, before, n) && Disjoint(before + more)
    requires more != [] && forall p :: p in more ==> FromColumn(w, active, p, n)
    ensures ColumnsOk(w, active, before + more, n + 1)
  {
    hide Disjoint, Owned;
    var planes := before + more;
    forall p | p in planes ensures exists col: nat :: col < n + 1 && FromColumn(w, active, p, col) {
      if p in before {
        var col: nat :| col < n && FromColumn(w, active, p, col);
        assert col < n + 1;
      } else {
        assert FromColumn(w, active, p, n);
      }
    }
    forall col: nat | col < n + 1 ensures HasPlane(planes, active[col]) {
      if col < n {
        assert HasPlane(before, active[col]);
        var p :| p in before && p.entry == active[col];
        assert p in planes;
      } else {
        assert more[0] in planes;
      }
    }
  }

  /** Finalising changes verdicts only. */
  lemma FinalizedOk(w: World, active: seq<nat>, current: seq<Plane>, planes: seq<Plane>)
    requires ColumnsOk(w, active, current, |active|) && IsFinalized(w, current, planes)
    ensures ColumnsOk(w, active, planes, |active|)
  {
    hide Donors, Owned;
    forall i | 0 <= i < |planes|
      ensures planes[i].entry == current[i].entry && planes[i].component == current[i].component
              && planes[i].interior == current[i].interior
    {
      assert planes[i] == Judged(w, current, i);
    }
    hide IsFinalized, Judged;
    forall p | p in planes ensures exists col: nat :: col < |active| && FromColumn(w, active, p, col) {
      var i :| 0 <= i < |planes| && planes[i] == p;
      assert current[i] in current;
      var col: nat :| col < |active| && FromColumn(w, active, current[i], col);
      assert FromColumn(w, active, p, col);
    }
    forall col: nat | col < |active| ensures HasPlane(planes, active[col]) {
      var p :| p in current && p.entry == active[col];
      var i :| 0 <= i < |current| && current[i] == p;
      assert planes[i] in planes;
    }
  }

  // ----- the rounds -----

  ghost predicate Rising(active: seq<nat>, bound: nat) {
    && (forall i, j :: 0 <= i < j < |active| ==> active[i] < active[j])
    && (forall i :: 0 <= i < |active| ==> active[i] < bound)
  }

  function Survivors(planes: seq<Plane>): set<nat> {
    set p | p in planes && !p.rejected :: p.entry
  }

  function Surviving(active: seq<nat>, survivors: set<nat>): seq<nat> {
    if active == [] then []
    else Surviving(active[..|active| - 1], survivors) +
         if active[|active| - 1] in survivors then [active[|active| - 1]] else []
  }

  function Failed(planes: seq<Plane>, survivors: set<nat>): seq<Plane> {
    if planes == [] then []
    else Failed(planes[..|planes| - 1], survivors) +
         if planes[|planes| - 1].entry in survivors then [] else [planes[|planes| - 1]]
  }

  lemma {:induction false} SurvivingMembers(active: seq<nat>, survivors: set<nat>)
    ensures forall e :: e in Surviving(active, survivors) <==> e in active && e in survivors
  {
    if active != [] {
      SurvivingMembers(active[..|active| - 1], survivors);
      assert active == active[..|active| - 1] + [active[|active| - 1]];
    }
  }

  lemma {:induction false} SurvivingLength(active: seq<nat>, survivors: set<nat>)
    ensures |Surviving(active, survivors)| <= |active|
    ensures (exists i :: 0 <= i < |active| && active[i] !in survivors) ==> |Surviving(active, survivors)| < |active|
  {
    if active != [] {
      var init := active[..|active| - 1];
      SurvivingLength(init, survivors);
      if i :| 0 <= i < |active| && active[i] !in survivors {
        assert i < |init| ==> init[i] !in survivors;
      }
    }
  }

  lemma {:induction false} SurvivingRises(active: seq<nat>, survivors: set<nat>, bound: nat)
    requires Rising(active, bound)
    ensures Rising(Surviving(active, survivors), bound)
  {
    if active != [] {
      var init, last := active[..|active| - 1], active[|active| - 1];
      assert Rising(init, bound) && last < bound && forall e :: e in init ==> e < last;
      SurvivingRises(init, survivors, bound);
      SurvivingMembers(init, survivors);
      hide Rising;
      RisingAppend(Surviving(init, survivors), bound, last);
    }
  }

  lemma RisingAppend(s: seq<nat>, bound: nat, last: nat)
    requires Rising(s, bound) && last < bound && forall e :: e in s ==> e < last
    ensures Rising(s + [last], bound)
  {
    var t := s + [last];
    forall i, j | 0 <= i < j < |t| ensures t[i] < t[j] {
      assert t[i] in s;
    }
  }

  lemma {:induction false} FailedMembers(planes: seq<Plane>, survivors: set<nat>)
    ensures forall p :: p in Failed(planes, survivors) <==> p in planes && p.entry !in survivors
  {
    if planes != [] {
      var init, last := planes[..|planes| - 1], planes[|planes| - 1];
      FailedMembers(init, survivors);
      assert planes == init + [last];
    }
  }

  /** A round whose proposals all keep an unrejected plane; the rounds stop there. */
  ghost predicate Stable(w: World, active: seq<nat>, planes: seq<Plane>) {
    && IsFinalized(w, Current(w, active, |active|), planes) && ColumnsOk(w, active, planes, |active|)
    && Survivors(planes) == set e | e in active
  }

  /** The planes of one round with these active proposals. */
  ghost predicate IsRound(w: World, active: seq<nat>, planes: seq<Plane>) {
    Rising(active, w.entries) && IsFinalized(w, Current(w, active, |active|), planes)
  }

  /** In this round proposal `e` was active, and all its planes were rejected and put on record. */
  ghost predicate FailedIn(w: World, was: seq<nat>, planes: seq<Plane>, e: nat, archived: seq<Plane>) {
    IsRound(w, was, planes) && e in was && forall p :: p in planes && p.entry == e ==> p.rejected && p in archived
  }

  /** ... and so were all proposals that are still active. */
  ghost predicate WithdrawnFairly(w: World, active: seq<nat>, e: nat, archived: seq<Plane>) {
    exists was, planes :: FailedIn(w, was, planes, e, archived) && forall a :: a in active ==> a in was
  }

  /** Every withdrawn proposal is on record, by rejected planes only, and was withdrawn in a round
      that rejected all its planes. */
  ghost predicate ArchiveOk(w: World, active: seq<nat>, archived: seq<Plane>) {
    && (forall p :: p in archived ==> p.rejected && p.entry !in active && p.entry < w.entries)
    && (forall e: nat :: e < w.entries && e !in active ==> HasPlane(archived, e))
    && (forall e: nat :: e < w.entries && e !in active ==> WithdrawnFairly(w, active, e, archived))
  }

  function Everyone(n: nat): (r: seq<nat>)
    ensures |r| == n && Rising(r, n) && forall e: nat :: e in r <==> e < n
  {
    if n == 0 then [] else Everyone(n - 1) + [n - 1]
  }

  /**
   Assign, fit and withdraw until every active proposal keeps a plane.  The bounded loop always
   gets there: each earlier round withdraws a proposal.
   */
  method ExclusiveRefit(w: World) returns (archived: seq<Plane>, final: seq<Plane>, active: seq<nat>, rounds: nat)
    requires w.Valid()
    ensures Rising(active, w.entries) && ArchiveOk(w, active, archived)
    ensures if active == [] then final == [] else Stable(w, active, final)
    ensures rounds + |active| <= w.entries + 1
  {
    hide ColumnsOk, IsFinalized, Current, HasPlane, FailedIn;
    active, archived, final, rounds := Everyone(w.entries), [], [], 0;
    for round := 0 to w.entries + 1
      invariant round == rounds && rounds + |active| <= w.entries && final == []
      invariant Rising(active, w.entries) && ArchiveOk(w, active, archived)
    {
      if active == [] {
        break;
      }
      rounds := rounds + 1;
      var current := FitRound(w, active);
      var planes := FinalizeQuality(w, current);
      CurrentOk(w, active, |active|);
      FinalizedOk(w, active, current, planes);
      var survivors := Survivors(planes);
      if survivors == set e | e in active {
        final := planes;
        break;
      }
      Withdraw(w, active, archived, planes);
      archived, active := archived + Failed(planes, survivors), Surviving(active, survivors);
    }
  }

  /** Withdrawing the failed proposals keeps the record complete and leaves fewer of them. */
  lemma Withdraw(w: World, active: seq<nat>, archived: seq<Plane>, planes: seq<Plane>)
    requires Rising(active, w.entries) && ArchiveOk(w, active, archived) && ColumnsOk(w, active, planes, |active|)
    requires Survivors(planes) != set e | e in active
    requires IsFinalized(w, Current(w, active, |active|), planes)
    ensures var survivors := Survivors(planes);
            var rest := Surviving(active, survivors);
            Rising(rest, w.entries) && ArchiveOk(w, rest, archived + Failed(planes, survivors)) && |rest| < |active|
  {
    hide Surviving, Failed, Owned, ArchiveOk, Survivors, IsFinalized, Current;
    var survivors := Survivors(planes);
    SurvivingRises(active, survivors, w.entries);
    OnlyActive(w, active, planes);
    ArchiveGrows(w, active, archived, planes, survivors);
    assert exists i :: 0 <= i < |active| && active[i] !in survivors;
    SurvivingLength(active, survivors);
  }

  lemma OnlyActive(w: World, active: seq<nat>, planes: seq<Plane>)
    requires ColumnsOk(w, active, planes, |active|)
    ensures forall p :: p in planes ==> p.entry in active
    ensures Survivors(planes) <= set e | e in active
  {
    hide Owned, Disjoint, HasPlane;
    forall p | p in planes ensures p.entry in active {
      var col: nat :| col < |active| && FromColumn(w, active, p, col);
    }
  }

  lemma ArchiveGrows(w: World, active: seq<nat>, archived: seq<Plane>, planes: seq<Plane>, survivors: set<nat>)
    requires Rising(active, w.entries) && ArchiveOk(w, active, archived) && ColumnsOk(w, active, planes, |active|)
    requires survivors == Survivors(planes) && IsFinalized(w, Current(w, active, |active|), planes)
    ensures ArchiveOk(w, Surviving(active, survivors), archived + Failed(planes, survivors))
  {
    hide Surviving, Failed, FromColumn, Disjoint, IsFinalized, Current, FailedIn;
    var rest, all := Surviving(active, survivors), archived + Failed(planes, survivors);
    SurvivingMembers(active, survivors);
    FailedMembers(planes, survivors);
    OnlyActive(w, active, planes);
    forall e: nat | e < w.entries && e !in rest ensures HasPlane(all, e) {
      if e in active {
        var col: nat :| col < |active| && active[col] == e;
        assert HasPlane(planes, active[col]);
        var p :| p in planes && p.entry == e;
        assert p in all;
      } else {
        assert HasPlane(archived, e);
        var p :| p in archived && p.entry == e;
        assert p in all;
      }
    }
    forall e: nat | e < w.entries && e !in rest ensures WithdrawnFairly(w, rest, e, all) {
      if e in active {
        FailsNow(w, active, planes, survivors, e, archived);
      } else {
        StillWithdrawn(w, active, e, archived, rest, Failed(planes, survivors));
      }
    }
  }

  lemma FailsNow(w: World, active: seq<nat>, planes: seq<Plane>, survivors: set<nat>, e: nat, archived: seq<Plane>)
    requires IsRound(w, active, planes) && survivors == Survivors(planes) && e in active && e !in survivors
    ensures WithdrawnFairly(w, Surviving(active, survivors), e, archived + Failed(planes, survivors))
  {
    hide IsRound, Surviving, Failed;
    SurvivingMembers(active, survivors);
    FailedMembers(planes, survivors);
    assert FailedIn(w, active, planes, e, archived + Failed(planes, survivors));
  }

  lemma StillWithdrawn(w: World, active: seq<nat>, e: nat, archived: seq<Plane>, rest: seq<nat>, more: seq<Plane>)
    requires WithdrawnFairly(w, active, e, archived) && forall a :: a in rest ==> a in active
    ensures WithdrawnFairly(w, rest, e, archived + more)
  {
    hide IsRound;
    var was, planes :| FailedIn(w, was, planes, e, archived) && forall a :: a in active ==> a in was;
    assert FailedIn(w, was, planes, e, archived + more);
  }

  // ----- what the result means -----

  /** Near the proposal, within its original support, and no surviving proposal is closer; at
      equal distance the earlier proposal wins. */
  ghost predicate NearestOwner(w: World, active: seq<nat>, e: nat, x: Pixel) {
    && e in active && Near(w, e, x)
    && forall other :: other in active && x in w.support(other) ==>
         w.distance(e, x) <= w.distance(other, x) && (other < e ==> w.distance(e, x) < w.distance(other, x))
  }

  /** In a stable round every pixel is in at most one plane, each plane's pixels belong to the
      nearest surviving proposal, and each surviving proposal keeps an unrejected plane. */
  lemma StableMeaning(w: World, active: seq<nat>, planes: seq<Plane>)
    requires Rising(active, w.entries) && Stable(w, active, planes)
    ensures forall i, j :: 0 <= i < j < |planes| ==> planes[i].component !! planes[j].component
    ensures forall p, x :: p in planes && x in p.component ==> NearestOwner(w, active, p.entry, x)
    ensures forall p :: p in planes ==> p.interior <= p.component
    ensures forall e :: e in active ==> exists p :: p in planes && p.entry == e && !p.rejected
  {
    hide IsFinalized, Current, HasPlane;
    forall p | p in planes ensures p.interior <= p.component && forall x :: x in p.component ==> NearestOwner(w, active, p.entry, x) {
      var col: nat :| col < |active| && FromColumn(w, active, p, col);
      forall x | x in p.component ensures NearestOwner(w, active, p.entry, x) {
        assert Owns(w, active, col, x);
        ColumnIsNearest(w, active, col, x);
      }
    }
    forall e | e in active ensures exists p :: p in planes && p.entry == e && !p.rejected {
      assert e in Survivors(planes);
    }
  }

  lemma ColumnIsNearest(w: World, active: seq<nat>, col: nat, x: Pixel)
    requires Rising(active, w.entries) && Owns(w, active, col, x)
    ensures NearestOwner(w, active, active[col], x)
  {
    forall other | other in active && x in w.support(other)
      ensures w.distance(active[col], x) <= w.distance(other, x)
      ensures other < active[col] ==> w.distance(active[col], x) < w.distance(other, x)
    {
      var c: nat :| c < |active| && active[c] == other;
    }
  }
}
