/**
 What the planes of one round are, from the geometry alone: which components become planes, and when
 a plane is of good quality and when it is rejected (`_exclusive_refit`, `_component_fit` and
 `_finalize_region_quality` in src/wc_calibration/environment_planes.py).
 */
module PlaneVerdicts {
  import opened Common
  import opened PlaneOwnership

  // ----- which components become planes -----

  /** One of the first components, and not a small one. */
  ghost predicate Fits(w: World, components: seq<set<Pixel>>, i: int) {
    0 <= i < |components| && i < w.maxComponents && w.minComponentPoints <= |components[i]|
  }

  /** A fitting component; when none fits, the first one for the record, or no pixel at all. */
  ghost predicate IsPart(w: World, components: seq<set<Pixel>>, c: set<Pixel>) {
    if exists i :: Fits(w, components, i) then exists i :: Fits(w, components, i) && components[i] == c
    else c == if components == [] then {} else components[0]
  }

  lemma {:induction false} KeptExactly(w: World, components: seq<set<Pixel>>, n: nat, c: set<Pixel>)
    requires n <= |components|
    ensures c in Kept(w, components, n) <==> exists i :: i < n && Fits(w, components, i) && components[i] == c
    ensures Kept(w, components, n) == [] <==> !exists i :: i < n && Fits(w, components, i)
  {
    if n > 0 {
      KeptExactly(w, components, n - 1, c);
      assert Large(w, components, n - 1) <==> Fits(w, components, n - 1);
      hide Large;
    }
  }

  lemma SelectedExactly(w: World, components: seq<set<Pixel>>, c: set<Pixel>)
    ensures c in Selected(w, components) <==> IsPart(w, components, c)
  {
    hide Kept;
    KeptExactly(w, components, |components|, c);
    var kept := Kept(w, components, |components|);
    assert (exists i :: i < |components| && Fits(w, components, i)) <==> exists i :: Fits(w, components, i);
  }

  // ----- the verdict on a plane -----

  ghost predicate Sound(w: World, p: Plane) {
    w.minComponentPoints <= |p.component| && w.fit(p.entry, p.component).qualityPass
  }

  /** Its own fit is good and repeats over time: it may explain others. */
  ghost predicate MayDonate(w: World, p: Plane) {
    Sound(w, p) && !w.fit(p.entry, p.component).temporalRejected
  }

  /** What the fit alone says of a plane. */
  ghost predicate AsFitted(w: World, p: Plane) {
    && p.interior == w.fit(p.entry, p.component).interior
    && (p.quality <==> Sound(w, p)) && (p.rejected <==> !MayDonate(w, p))
  }

  /** Planes that may donate and, measured against one another, are not rejected; when more donors
      never cause a rejection, all sets of such planes are among them. */
  ghost predicate AreDonors(w: World, current: seq<Plane>, donors: set<nat>) {
    && (forall i :: i in donors ==> i < |current| && MayDonate(w, current[i]) && !w.rejects(current, i, donors))
    && (Monotone(w, current) ==>
          forall other: set<nat> :: SelfSupporting(w, current, other) ==> other <= donors)
  }

  ghost predicate Monotone(w: World, current: seq<Plane>) {
    forall i, a: set<nat>, b: set<nat> :: a <= b && w.rejects(current, i, b) ==> w.rejects(current, i, a)
  }

  ghost predicate SelfSupporting(w: World, current: seq<Plane>, other: set<nat>) {
    forall i :: i in other ==> i < |current| && MayDonate(w, current[i]) && !w.rejects(current, i, other)
  }

  /** The final verdict on plane `i`: of good quality when its fit is and the donors explain it; rejected
      when it is not, or does not repeat over time. */
  ghost predicate Verdict(w: World, current: seq<Plane>, donors: set<nat>, i: nat, p: Plane)
    requires i < |current|
  {
    && p.entry == current[i].entry && p.component == current[i].component && p.interior == current[i].interior
    && (p.quality <==> Sound(w, p) && !w.rejects(current, i, donors))
    && (p.rejected <==> !p.quality || w.fit(p.entry, p.component).temporalRejected)
  }

  lemma {:induction false} FittedExactly(w: World, e: nat, parts: seq<set<Pixel>>)
    ensures forall p :: p in Fitted(w, e, parts) ==> p.entry == e && p.component in parts && AsFitted(w, p)
    ensures forall c :: c in parts ==> exists p :: p in Fitted(w, e, parts) && p.component == c
  {
    FittedAt(w, e, parts);
    var planes := Fitted(w, e, parts);
    hide Fitted;
    forall c | c in parts ensures exists p :: p in planes && p.component == c {
      var i :| 0 <= i < |parts| && parts[i] == c;
      assert planes[i] in planes;
    }
  }

  /** Planes of the first `n` active proposals, as fitted, on exactly the parts of the pixels they own. */
  ghost predicate AreFits(w: World, active: seq<nat>, planes: seq<Plane>, n: nat)
    requires n <= |active|
  {
    && (forall p :: p in planes ==> AsFitted(w, p) && p.entry in active[..n])
    && (forall col: nat, c: set<Pixel> :: col < n ==>
          (OnPart(planes, active[col], c) <==> IsPart(w, w.parts(Owned(w, active, col)), c)))
  }

  ghost predicate OnPart(planes: seq<Plane>, e: nat, c: set<Pixel>) {
    exists p :: p in planes && p.entry == e && p.component == c
  }

  lemma ColumnExactly(w: World, active: seq<nat>, col: nat)
    requires col < |active|
    ensures forall p :: p in PlanesOf(w, active, col) ==> p.entry == active[col] && AsFitted(w, p)
    ensures forall c :: OnPart(PlanesOf(w, active, col), active[col], c) <==> IsPart(w, w.parts(Owned(w, active, col)), c)
  {
    hide Owned, Selected, AsFitted, Fitted, IsPart;
    var components := w.parts(Owned(w, active, col));
    FittedExactly(w, active[col], Selected(w, components));
    forall c: set<Pixel> ensures c in Selected(w, components) <==> IsPart(w, components, c) {
      SelectedExactly(w, components, c);
    }
  }

  lemma {:induction false} CurrentExactly(w: World, active: seq<nat>, n: nat)
    requires n <= |active| && Rising(active, w.entries)
    ensures AreFits(w, active, Current(w, active, n), n)
  {
    hide PlanesOf, Owned, AsFitted, IsPart, OnPart;
    if n > 0 {
      CurrentExactly(w, active, n - 1);
      ColumnExactly(w, active, n - 1);
      var before, more := Current(w, active, n - 1), PlanesOf(w, active, n - 1);
      FitsAppend(w, active, before, more, n - 1);
    }
  }

  lemma FitsAppend(w: World, active: seq<nat>, before: seq<Plane>, more: seq<Plane>, n: nat)
    requires n < |active| && Rising(active, w.entries) && AreFits(w, active, before, n)
    requires forall p :: p in more ==> p.entry == active[n] && AsFitted(w, p)
    requires forall c :: OnPart(more, active[n], c) <==> IsPart(w, w.parts(Owned(w, active, n)), c)
    ensures AreFits(w, active, before + more, n + 1)
  {
    hide Owned, AsFitted, IsPart;
    var planes := before + more;
    assert forall p :: p in planes <==> p in before || p in more;
    assert forall p :: p in before ==> p.entry != active[n];
    assert forall i :: 0 <= i < n ==> active[i] in active[..n + 1];
    forall col: nat, c: set<Pixel> | col < n + 1
      ensures OnPart(planes, active[col], c) <==> IsPart(w, w.parts(Owned(w, active, col)), c)
    {
      assert OnPart(planes, active[col], c) <==> if col < n then OnPart(before, active[col], c) else OnPart(more, active[n], c);
    }
  }

  lemma DonorsExactly(w: World, current: seq<Plane>)
    requires forall p :: p in current ==> AsFitted(w, p)
    ensures AreDonors(w, current, Donors(w, current, Eligible(current)))
  {
    hide Sound, MayDonate, Donors;
    assert forall i :: i in Eligible(current) <==> 0 <= i < |current| && MayDonate(w, current[i]) by {
      forall i | 0 <= i < |current| ensures i in Eligible(current) <==> MayDonate(w, current[i]) {
        assert current[i] in current;
        SoundDonor(w, current[i]);
      }
    }
    hide Eligible;
    DonorsAreStable(w, current, Eligible(current));
    if Monotone(w, current) {
      forall other: set<nat> | SelfSupporting(w, current, other) ensures other <= Donors(w, current, Eligible(current)) {
        DonorsAreGreatest(w, current, Eligible(current), other);
      }
    }
  }

  lemma SoundDonor(w: World, p: Plane)
    ensures MayDonate(w, p) ==> Sound(w, p)
  {
  }

  /**
   The planes of a round: every active proposal has one on each part of the pixels it owns and no
   other, and there are donors that, with the plane's own fit, decide its verdict.
   */
  lemma RoundMeaning(w: World, active: seq<nat>, planes: seq<Plane>) returns (current: seq<Plane>, donors: set<nat>)
    requires IsRound(w, active, planes)
    ensures AreFits(w, active, current, |active|) && |planes| == |current|
    ensures AreDonors(w, current, donors)
    ensures forall i :: 0 <= i < |planes| ==> Verdict(w, current, donors, i, planes[i])
    ensures forall col: nat, c :: col < |active| ==>
              (OnPart(planes, active[col], c) <==> IsPart(w, w.parts(Owned(w, active, col)), c))
  {
    hide Owned, IsPart, Current, Donors, Eligible, AreDonors, MayDonate;
    current := Current(w, active, |active|);
    CurrentExactly(w, active, |active|);
    DonorsExactly(w, current);
    donors := Donors(w, current, Eligible(current));
    forall i | 0 <= i < |planes| ensures Verdict(w, current, donors, i, planes[i]) {
      assert current[i] in current;
      JudgedExactly(w, current, i);
    }
    hide IsFinalized, AsFitted;
    forall col: nat, c: set<Pixel> | col < |active| ensures OnPart(planes, active[col], c) <==> OnPart(current, active[col], c) {
      SameParts(current, planes, active[col], c);
    }
  }

  lemma JudgedExactly(w: World, current: seq<Plane>, i: nat)
    requires i < |current| && AsFitted(w, current[i])
    ensures Verdict(w, current, Donors(w, current, Eligible(current)), i, Judged(w, current, i))
  {
    hide Donors, Eligible;
  }

  lemma SameParts(a: seq<Plane>, b: seq<Plane>, e: nat, c: set<Pixel>)
    requires |a| == |b| && forall i :: 0 <= i < |a| ==> a[i].entry == b[i].entry && a[i].component == b[i].component
    ensures OnPart(a, e, c) <==> OnPart(b, e, c)
  {
    if p :| p in a && p.entry == e && p.component == c {
      var i :| 0 <= i < |a| && a[i] == p;
      assert b[i] in b;
    }
    if p :| p in b && p.entry == e && p.component == c {
      var i :| 0 <= i < |b| && b[i] == p;
      assert a[i] in a;
    }
  }
}
