/**
 Suppression of near-identical plane proposals (`_deduplicate_proposals` in
 src/wc_calibration/environment_planes.py): larger original interiors first, discovery order
 among equals, and a proposal is dropped when an earlier kept one duplicates it.
 */
module ProposalSuppression {
  import opened Common

  /** `duplicates(candidate, prior)`: close in normal and offset, with enough support overlap. */
  datatype Proposals = Proposals(size: nat, count: nat -> nat, duplicates: (nat, nat) -> bool)

  /** Considered before: more interior points, or as many and found earlier. */
  predicate Precedes(p: Proposals, i: nat, j: nat) {
    p.count(i) > p.count(j) || (p.count(i) == p.count(j) && i < j)
  }

  /** Would a kept `j` drop the proposal `i`? */
  predicate Suppresses(p: Proposals, j: nat, i: nat) {
    Precedes(p, j, i) && p.duplicates(i, j)
  }

  ghost predicate Dropped(p: Proposals, kept: set<nat>, i: nat) {
    exists j :: j in kept && Suppresses(p, j, i)
  }

  /** Of these proposals exactly those are kept that no kept one suppresses. */
  ghost predicate IsKernel(p: Proposals, kept: set<nat>, domain: set<nat>) {
    kept <= domain && forall i :: i in domain ==> (i in kept <==> !Dropped(p, kept, i))
  }

  ghost predicate Considered(p: Proposals, order: seq<nat>) {
    forall a, b :: 0 <= a < b < |order| ==> Precedes(p, order[a], order[b])
  }

  /** Put `i` behind every index that precedes it; Python's sort by (-count, index). */
  function Insert(p: Proposals, order: seq<nat>, i: nat): seq<nat> {
    if order == [] || Precedes(p, order[|order| - 1], i) then order + [i]
    else Insert(p, order[..|order| - 1], i) + [order[|order| - 1]]
  }

  lemma {:induction false} InsertMembers(p: Proposals, order: seq<nat>, i: nat)
    ensures forall k :: k in Insert(p, order, i) <==> k in order || k == i
  {
    if order != [] {
      InsertMembers(p, order[..|order| - 1], i);
      assert order == order[..|order| - 1] + [order[|order| - 1]];
    }
  }

  lemma ConsideredAppend(p: Proposals, order: seq<nat>, last: nat)
    requires Considered(p, order) && forall k :: k in order ==> Precedes(p, k, last)
    ensures Considered(p, order + [last])
  {
    var all := order + [last];
    forall a, b | 0 <= a < b < |all| ensures Precedes(p, all[a], all[b]) {
      assert all[a] in order;
    }
  }

  lemma {:induction false} InsertConsidered(p: Proposals, order: seq<nat>, i: nat)
    requires Considered(p, order) && i !in order
    ensures Considered(p, Insert(p, order, i))
  {
    if order == [] {
    } else if Precedes(p, order[|order| - 1], i) {
      forall k | k in order ensures Precedes(p, k, i) {
        var a :| 0 <= a < |order| && order[a] == k;
        assert a < |order| - 1 ==> Precedes(p, order[a], order[|order| - 1]);
      }
      ConsideredAppend(p, order, i);
    } else {
      var init, last := order[..|order| - 1], order[|order| - 1];
      assert last in order;
      InsertConsidered(p, init, i);
      InsertMembers(p, init, i);
      forall k | k in Insert(p, init, i) ensures Precedes(p, k, last) {
        if k != i {
          var a :| 0 <= a < |init| && init[a] == k;
          assert order[a] == k;
        }
      }
      ConsideredAppend(p, Insert(p, init, i), last);
    }
  }

  /** The proposals in the order of consideration. */
  function Sorted(p: Proposals, n: nat): seq<nat> {
    if n == 0 then [] else Insert(p, Sorted(p, n - 1), n - 1)
  }

  lemma {:induction false} SortedConsidered(p: Proposals, n: nat)
    ensures Considered(p, Sorted(p, n)) && forall k: nat :: k in Sorted(p, n) <==> k < n
  {
    if n > 0 {
      SortedConsidered(p, n - 1);
      InsertConsidered(p, Sorted(p, n - 1), n - 1);
      InsertMembers(p, Sorted(p, n - 1), n - 1);
    }
  }

  function ToSet(s: seq<nat>): set<nat> {
    set k | k in s
  }

  /** The next proposal in order joins the kernel or is dropped by it; earlier verdicts stand. */
  lemma KernelGrows(p: Proposals, kept: set<nat>, domain: set<nat>, i: nat)
    requires IsKernel(p, kept, domain) && forall k :: k in domain ==> Precedes(p, k, i)
    ensures IsKernel(p, if Dropped(p, kept, i) then kept else kept + {i}, domain + {i})
  {
    var grown := if Dropped(p, kept, i) then kept else kept + {i};
    forall k | k in domain + {i} ensures k in grown <==> !Dropped(p, grown, k) {
      if k in domain {
        assert !Suppresses(p, i, k);
        assert Dropped(p, kept, k) <==> Dropped(p, grown, k);
      } else {
        assert !Suppresses(p, i, i);
        assert Dropped(p, kept, i) <==> Dropped(p, grown, i);
      }
    }
  }

  /** Everyone is kept or dropped, and the record names for each dropped one who dropped it. */
  ghost predicate Recorded(p: Proposals, kept: seq<nat>, suppressed: seq<(nat, nat)>, domain: set<nat>) {
    && (forall s :: s in suppressed ==> s.1 in kept && Suppresses(p, s.1, s.0))
    && (forall k :: k in domain && k !in kept ==> exists s :: s in suppressed && s.0 == k)
  }

  /** First fit over the sorted proposals. */
  method FirstFit(p: Proposals) returns (kept: seq<nat>, suppressed: seq<(nat, nat)>)
    ensures IsKernel(p, ToSet(kept), ToSet(Sorted(p, p.size)))
    ensures Recorded(p, kept, suppressed, ToSet(Sorted(p, p.size)))
  {
    hide Insert, Sorted, Precedes;
    var order := Sorted(p, p.size);
    SortedConsidered(p, p.size);
    kept, suppressed := [], [];
    for n := 0 to |order|
      invariant IsKernel(p, ToSet(kept), ToSet(order[..n]))
      invariant Recorded(p, kept, suppressed, ToSet(order[..n]))
    {
      var index := order[n];
      var duplicate := FindDuplicate(p, kept, index);
      assert ToSet(order[..n + 1]) == ToSet(order[..n]) + {index};
      NextInOrder(p, order, n);
      KernelGrows(p, ToSet(kept), ToSet(order[..n]), index);
      if duplicate.None? {
        assert ToSet(kept + [index]) == ToSet(kept) + {index};
        assert !Dropped(p, ToSet(kept), index);
        kept := kept + [index];
      } else {
        assert duplicate.value in ToSet(kept) && duplicate.value in ToSet(order[..n]);
        assert Dropped(p, ToSet(kept), index);
        assert (index, duplicate.value).0 == index;
        suppressed := suppressed + [(index, duplicate.value)];
      }
    }
    assert order[..|order|] == order;
  }

  /** The kept proposals in discovery order, and each suppressed one with the kept one that
      dropped it. */
  method Deduplicate(p: Proposals) returns (kept: seq<nat>, suppressed: seq<(nat, nat)>)
    ensures IsKernel(p, ToSet(kept), ToSet(Sorted(p, p.size)))
    ensures forall a, b :: 0 <= a < b < |kept| ==> kept[a] < kept[b]
    ensures Recorded(p, kept, suppressed, ToSet(Sorted(p, p.size)))
  {
    hide Insert, Sorted, Precedes, IsKernel, Suppresses;
    var fitted;
    fitted, suppressed := FirstFit(p);
    SortedConsidered(p, p.size);
    kept := [];
    for i := 0 to p.size
      invariant forall k: nat :: k in kept <==> k in fitted && k < i
      invariant forall a, b :: 0 <= a < b < |kept| ==> kept[a] < kept[b]
    {
      if i in fitted {
        assert forall a :: 0 <= a < |kept| ==> kept[a] in kept;
        kept := kept + [i];
      }
    }
    KernelInside(p, ToSet(fitted), ToSet(Sorted(p, p.size)));
    assert forall k :: k in fitted ==> k in ToSet(fitted);
    assert ToSet(kept) == ToSet(fitted);
  }

  lemma KernelInside(p: Proposals, kept: set<nat>, domain: set<nat>)
    requires IsKernel(p, kept, domain)
    ensures kept <= domain
  {
  }

  lemma NextInOrder(p: Proposals, order: seq<nat>, n: nat)
    requires Considered(p, order) && n < |order|
    ensures forall k :: k in ToSet(order[..n]) ==> Precedes(p, k, order[n])
  {
    forall k | k in ToSet(order[..n]) ensures Precedes(p, k, order[n]) {
      var a :| 0 <= a < n && order[a] == k;
    }
  }

  /** The first kept proposal that the candidate duplicates. */
  method FindDuplicate(p: Proposals, kept: seq<nat>, index: nat) returns (duplicate: Option<nat>)
    ensures duplicate.Some? ==> duplicate.value in kept && p.duplicates(index, duplicate.value)
    ensures duplicate.None? ==> forall j :: j in kept ==> !p.duplicates(index, j)
  {
    for k := 0 to |kept|
      invariant forall j :: 0 <= j < k ==> !p.duplicates(index, kept[j])
    {
      if p.duplicates(index, kept[k]) {
        return Some(kept[k]);
      }
    }
    return None;
  }

  /** The rule has one solution: any set of proposals that keeps exactly what it does not suppress
      is the one the loop keeps. */
  lemma KernelUnique(p: Proposals, a: set<nat>, b: set<nat>)
    requires IsKernel(p, a, ToSet(Sorted(p, p.size))) && IsKernel(p, b, ToSet(Sorted(p, p.size)))
    ensures a == b
  {
    hide Insert, Sorted, Precedes, Considered, Dropped, ToSet;
    var order := Sorted(p, p.size);
    SortedConsidered(p, p.size);
    for n := 0 to |order|
      invariant forall k :: 0 <= k < n ==> (order[k] in a <==> order[k] in b)
    {
      SameVerdict(p, a, b, order, n);
    }
    forall i | i in ToSet(order) ensures i in a <==> i in b {
      var k := Position(order, i);
    }
  }

  lemma Position(order: seq<nat>, i: nat) returns (k: nat)
    requires i in ToSet(order)
    ensures k < |order| && order[k] == i
  {
    k :| 0 <= k < |order| && order[k] == i;
  }

  /** Whoever drops a proposal was considered before it. */
  lemma SameVerdict(p: Proposals, a: set<nat>, b: set<nat>, order: seq<nat>, n: nat)
    requires IsKernel(p, a, ToSet(order)) && IsKernel(p, b, ToSet(order)) && Considered(p, order) && n < |order|
    requires forall k :: 0 <= k < n ==> (order[k] in a <==> order[k] in b)
    ensures order[n] in a <==> order[n] in b
  {
    var i := order[n];
    forall j | (j in a || j in b) && Suppresses(p, j, i) ensures j in a <==> j in b {
      assert j in ToSet(order);
      var k :| 0 <= k < |order| && order[k] == j;
      assert k > n ==> Precedes(p, i, j);
    }
    assert i in ToSet(order);
    assert Dropped(p, a, i) <==> Dropped(p, b, i);
  }
}
