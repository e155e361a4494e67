/**
 One-to-one plane association and its ambiguity check (`_allowed`, `_assignment` and the two
 ban-one-edge loops of `solve_environment` in src/wc_calibration/environment_registration.py).

 The geometry enters as a table of angles and offsets; scipy's `linear_sum_assignment` enters
 as any function that returns an optimal assignment of every rectangular cost matrix.
 */
module PlaneAssignment {
  import opened Common

  datatype Metric = Metric(angle: real, offset: real)

  datatype Edge = Edge(i: nat, j: nat)

  /** The residuals of every left plane against every right plane, and the gated pairs. */
  datatype Problem = Problem(nl: nat, nr: nat, metrics: seq<seq<Metric>>, allowed: set<Edge>) {
    predicate Tabulated() {
      && |metrics| == nl
      && (forall row :: row in metrics ==> |row| == nr)
      && (forall e :: e in allowed ==> e.i < nl && e.j < nr)
    }

    function MetricAt(e: Edge): Metric
      requires Tabulated() && e.i < nl && e.j < nr
    {
      metrics[e.i][e.j]
    }

    /** Every allowed pair lies inside the widest gate, 20 degrees and 0.35 metres. */
    predicate Gated() {
      Tabulated() && forall e :: e in allowed ==> InWidestGate(metrics[e.i][e.j])
    }
  }

  predicate InWidestGate(m: Metric) {
    0.0 <= m.angle <= 20.0 && -0.35 <= m.offset <= 0.35
  }

  function PairCost(m: Metric): real {
    (m.angle / 2.0) * (m.angle / 2.0) + (m.offset / 0.03) * (m.offset / 0.03)
  }

  const FORBIDDEN: real := 1000000000.0
  const UNMATCHED: real := 100000.0
  const TOLERANCE: real := 0.25
  const WIDEST_COST: real := 2125.0 / 9.0
  const MAXIMUM_PAIRS: nat := 423

  lemma SquareBound(x: real, b: real)
    requires -b <= x <= b
    ensures 0.0 <= x * x <= b * b
  {
    assert (b - x) * (b + x) == b * b - x * x;
    assert (b - x) * (b + x) >= 0.0;
  }

  lemma GatedCost(m: Metric)
    requires InWidestGate(m)
    ensures 0.0 <= PairCost(m) <= WIDEST_COST
  {
    SquareBound(m.angle / 2.0, 10.0);
    SquareBound(m.offset / 0.03, 35.0 / 3.0);
  }

  // ----- matchings -----

  const NO_MATCH: int := -1

  /** For each left plane the right plane matched to it, or `NO_MATCH`. */
  type Matching = seq<int>

  ghost predicate IsMatching(p: Problem, edges: set<Edge>, m: Matching) {
    && |m| == p.nl
    && (forall i :: 0 <= i < |m| ==> m[i] == NO_MATCH || (m[i] >= 0 && Edge(i, m[i]) in edges))
    && (forall i, k :: 0 <= i < k < |m| && m[i] >= 0 ==> m[i] != m[k])
  }

  /** The number of matched planes among the first `n`, and all together. */
  function SizeTo(m: Matching, n: nat): nat
    requires n <= |m|
  {
    if n == 0 then 0 else SizeTo(m, n - 1) + if m[n - 1] >= 0 then 1 else 0
  }

  function Size(m: Matching): nat {
    SizeTo(m, |m|)
  }

  /** The matching stays inside the table. */
  predicate Columns(p: Problem, m: Matching) {
    p.Tabulated() && |m| == p.nl && forall i :: 0 <= i < |m| ==> m[i] < p.nr
  }

  function RowCost(p: Problem, m: Matching, i: nat): real
    requires Columns(p, m) && i < |m|
  {
    if m[i] >= 0 then PairCost(p.MetricAt(Edge(i, m[i]))) else 0.0
  }

  function CostTo(p: Problem, m: Matching, n: nat): real
    requires Columns(p, m) && n <= |m|
  {
    if n == 0 then 0.0 else CostTo(p, m, n - 1) + RowCost(p, m, n - 1)
  }

  function Cost(p: Problem, m: Matching): real
    requires Columns(p, m)
  {
    CostTo(p, m, |m|)
  }

  /** A largest matching, and a cheapest one among the largest. */
  ghost predicate IsBest(p: Problem, edges: set<Edge>, m: Matching)
    requires p.Tabulated() && edges <= p.allowed
  {
    && IsMatching(p, edges, m) && Columns(p, m)
    && (forall other :: IsMatching(p, edges, other) ==>
          Columns(p, other) && Size(other) <= Size(m) && (Size(other) == Size(m) ==> Cost(p, m) <= Cost(p, other)))
  }

  /** Least geometric cost plus the penalty of every plane left unmatched. */
  ghost predicate IsCheapest(p: Problem, edges: set<Edge>, m: Matching)
    requires p.Tabulated() && edges <= p.allowed
  {
    && IsMatching(p, edges, m) && Columns(p, m)
    && forall other :: IsMatching(p, edges, other) ==>
         Columns(p, other)
         && Cost(p, m) + UNMATCHED * (p.nl - Size(m)) as real <= Cost(p, other) + UNMATCHED * (p.nl - Size(other)) as real
  }

  // ----- assignments of a cost matrix -----

  type Matrix = seq<seq<real>>

  predicate Rectangular(c: Matrix, width: nat) {
    |c| <= width && forall row :: row in c ==> |row| == width
  }

  predicate IsAssignment(c: Matrix, width: nat, a: seq<nat>) {
    && |a| == |c|
    && (forall i :: 0 <= i < |a| ==> a[i] < width)
    && (forall i, k :: 0 <= i < k < |a| ==> a[i] != a[k])
  }

  function TotalTo(c: Matrix, width: nat, a: seq<nat>, n: nat): real
    requires Rectangular(c, width) && IsAssignment(c, width, a) && n <= |a|
  {
    if n == 0 then 0.0 else TotalTo(c, width, a, n - 1) + c[n - 1][a[n - 1]]
  }

  function Total(c: Matrix, width: nat, a: seq<nat>): real
    requires Rectangular(c, width) && IsAssignment(c, width, a)
  {
    TotalTo(c, width, a, |a|)
  }

  ghost predicate IsOptimal(c: Matrix, width: nat, a: seq<nat>)
    requires Rectangular(c, width)
  {
    && IsAssignment(c, width, a)
    && forall other :: IsAssignment(c, width, other) ==> Total(c, width, a) <= Total(c, width, other)
  }

  /** What is assumed of `linear_sum_assignment`. */
  ghost predicate IsSolver(solve: (Matrix, nat) -> seq<nat>) {
    forall c, width :: Rectangular(c, width) ==> IsOptimal(c, width, solve(c, width))
  }

  // ----- the padded matrix -----

  function Entry(p: Problem, edges: set<Edge>, i: nat, j: nat): real
    requires p.Tabulated() && edges <= p.allowed
  {
    if j >= p.nr then UNMATCHED
    else if Edge(i, j) in edges then PairCost(p.MetricAt(Edge(i, j)))
    else FORBIDDEN
  }

  ghost predicate IsPadded(p: Problem, edges: set<Edge>, c: Matrix)
    requires p.Tabulated() && edges <= p.allowed
  {
    && |c| == p.nl && Rectangular(c, p.nr + p.nl)
    && forall i, j :: 0 <= i < p.nl && 0 <= j < p.nr + p.nl ==> c[i][j] == Entry(p, edges, i, j)
  }

  /** Unmatched rows take the dummy column of their own row. */
  function Pad(p: Problem, m: Matching): (a: seq<nat>)
    ensures |a| == |m|
  {
    seq(|m|, i requires 0 <= i < |m| => if m[i] >= 0 then m[i] else p.nr + i)
  }

  /** Keep only the rows that an assignment sends to an edge. */
  function Kept(p: Problem, edges: set<Edge>, a: seq<nat>): (m: Matching)
    ensures |m| == |a|
  {
    seq(|a|, i requires 0 <= i < |a| => if a[i] < p.nr && Edge(i, a[i]) in edges then a[i] else NO_MATCH)
  }

  lemma MatchedInRange(p: Problem, edges: set<Edge>, m: Matching)
    requires p.Tabulated() && edges <= p.allowed && IsMatching(p, edges, m)
    ensures Columns(p, m)
  {
    forall i | 0 <= i < |m| ensures m[i] < p.nr {
      if m[i] >= 0 {
        assert Edge(i, m[i]) in p.allowed;
      }
    }
  }

  lemma PadIsAssignment(p: Problem, edges: set<Edge>, c: Matrix, m: Matching)
    requires p.Tabulated() && edges <= p.allowed && IsPadded(p, edges, c) && IsMatching(p, edges, m)
    requires Columns(p, m)
    ensures IsAssignment(c, p.nr + p.nl, Pad(p, m))
  {
    hide PairCost;
  }

  lemma PadEntry(p: Problem, edges: set<Edge>, c: Matrix, m: Matching, i: nat)
    requires p.Tabulated() && edges <= p.allowed && IsPadded(p, edges, c) && IsMatching(p, edges, m)
    requires Columns(p, m) && i < |m|
    ensures c[i][Pad(p, m)[i]] == RowCost(p, m, i) + if m[i] >= 0 then 0.0 else UNMATCHED
  {
    hide PairCost;
  }

  lemma {:induction false} PadTotal(p: Problem, edges: set<Edge>, c: Matrix, m: Matching, n: nat)
    requires p.Tabulated() && edges <= p.allowed && IsPadded(p, edges, c) && IsMatching(p, edges, m)
    requires Columns(p, m) && n <= |m| && IsAssignment(c, p.nr + p.nl, Pad(p, m))
    ensures SizeTo(m, n) <= n
    ensures TotalTo(c, p.nr + p.nl, Pad(p, m), n) == CostTo(p, m, n) + UNMATCHED * (n - SizeTo(m, n)) as real
  {
    if n > 0 {
      PadEntry(p, edges, c, m, n - 1);
      assert Rectangular(c, p.nr + p.nl);
      hide RowCost, Pad, PairCost, IsPadded, IsMatching;
      PadTotal(p, edges, c, m, n - 1);
    }
  }

  lemma KeptIsMatching(p: Problem, edges: set<Edge>, c: Matrix, a: seq<nat>)
    requires p.Tabulated() && edges <= p.allowed && IsPadded(p, edges, c)
    requires IsAssignment(c, p.nr + p.nl, a)
    ensures IsMatching(p, edges, Kept(p, edges, a)) && Columns(p, Kept(p, edges, a))
  {
    hide PairCost;
  }

  lemma KeptEntry(p: Problem, edges: set<Edge>, c: Matrix, a: seq<nat>, i: nat)
    requires p.Tabulated() && edges <= p.allowed && IsPadded(p, edges, c)
    requires IsAssignment(c, p.nr + p.nl, a) && i < |a|
    ensures var b := Pad(p, Kept(p, edges, a));
            b[i] < p.nr + p.nl
            && if a[i] < p.nr && Edge(i, a[i]) !in edges then c[i][b[i]] < c[i][a[i]] else c[i][b[i]] == c[i][a[i]]
  {
    hide PairCost;
  }

  lemma KeptEntries(p: Problem, edges: set<Edge>, c: Matrix, a: seq<nat>)
    requires p.Tabulated() && edges <= p.allowed && IsPadded(p, edges, c)
    requires IsAssignment(c, p.nr + p.nl, a)
    ensures var b := Pad(p, Kept(p, edges, a));
            && IsAssignment(c, p.nr + p.nl, b)
            && forall i :: 0 <= i < |a| ==>
                 c[i][b[i]] <= c[i][a[i]] && (a[i] < p.nr && Edge(i, a[i]) !in edges ==> c[i][b[i]] < c[i][a[i]])
  {
    assert Rectangular(c, p.nr + p.nl);
    hide Entry, IsPadded;
    KeptIsMatching(p, edges, c, a);
    PadIsAssignment(p, edges, c, Kept(p, edges, a));
    forall i | 0 <= i < |a|
      ensures var b := Pad(p, Kept(p, edges, a));
              c[i][b[i]] <= c[i][a[i]] && (a[i] < p.nr && Edge(i, a[i]) !in edges ==> c[i][b[i]] < c[i][a[i]])
    {
      KeptEntry(p, edges, c, a, i);
    }
  }

  lemma {:induction false} PointwiseTotal(c: Matrix, width: nat, a: seq<nat>, b: seq<nat>, n: nat)
    requires Rectangular(c, width) && IsAssignment(c, width, a) && IsAssignment(c, width, b) && n <= |a|
    requires forall i :: 0 <= i < n ==> c[i][b[i]] <= c[i][a[i]]
    ensures TotalTo(c, width, b, n) <= TotalTo(c, width, a, n)
  {
    if n > 0 {
      PointwiseTotal(c, width, a, b, n - 1);
    }
  }

  lemma {:induction false} StrictTotal(c: Matrix, width: nat, a: seq<nat>, b: seq<nat>, n: nat, k: nat)
    requires Rectangular(c, width) && IsAssignment(c, width, a) && IsAssignment(c, width, b) && k < n <= |a|
    requires forall i :: 0 <= i < n ==> c[i][b[i]] <= c[i][a[i]]
    requires c[k][b[k]] < c[k][a[k]]
    ensures TotalTo(c, width, b, n) < TotalTo(c, width, a, n)
  {
    if k < n - 1 {
      StrictTotal(c, width, a, b, n - 1, k);
    } else {
      PointwiseTotal(c, width, a, b, n - 1);
    }
  }

  /** An assignment that is nowhere dearer than an optimal one costs the same row by row. */
  lemma OptimalDominates(c: Matrix, width: nat, a: seq<nat>, b: seq<nat>)
    requires Rectangular(c, width) && IsOptimal(c, width, a) && IsAssignment(c, width, b)
    requires forall i :: 0 <= i < |a| ==> c[i][b[i]] <= c[i][a[i]]
    ensures Total(c, width, b) == Total(c, width, a)
    ensures forall i :: 0 <= i < |a| ==> c[i][b[i]] == c[i][a[i]]
  {
    PointwiseTotal(c, width, a, b, |a|);
    forall i | 0 <= i < |a| ensures c[i][b[i]] == c[i][a[i]] {
      if c[i][b[i]] < c[i][a[i]] {
        StrictTotal(c, width, a, b, |a|, i);
        assert false;
      }
    }
  }

  /** An optimal assignment of the padded matrix never uses a forbidden or banned pair. */
  lemma NeverForbidden(p: Problem, edges: set<Edge>, c: Matrix, a: seq<nat>)
    requires p.Tabulated() && edges <= p.allowed && IsPadded(p, edges, c) && IsOptimal(c, p.nr + p.nl, a)
    ensures forall i :: 0 <= i < |a| && a[i] < p.nr ==> Edge(i, a[i]) in edges
    ensures IsAssignment(c, p.nr + p.nl, Pad(p, Kept(p, edges, a)))
    ensures Total(c, p.nr + p.nl, a) == Total(c, p.nr + p.nl, Pad(p, Kept(p, edges, a)))
  {
    KeptEntries(p, edges, c, a);
    OptimalDominates(c, p.nr + p.nl, a, Pad(p, Kept(p, edges, a)));
  }

  lemma {:induction false} CostBounds(p: Problem, m: Matching, n: nat)
    requires p.Gated() && Columns(p, m) && n <= |m|
    requires forall i :: 0 <= i < |m| && m[i] >= 0 ==> Edge(i, m[i]) in p.allowed
    ensures 0.0 <= CostTo(p, m, n) <= WIDEST_COST * SizeTo(m, n) as real
  {
    if n > 0 {
      CostBounds(p, m, n - 1);
      if m[n - 1] >= 0 {
        GatedCost(p.MetricAt(Edge(n - 1, m[n - 1])));
      }
      hide PairCost;
    }
  }

  /** No matching is larger than the dummy penalty can tell apart from a smaller one. */
  ghost predicate Separable(p: Problem) {
    forall m :: IsMatching(p, p.allowed, m) ==> Size(m) <= MAXIMUM_PAIRS
  }

  lemma FewerEdges(p: Problem, edges: set<Edge>, m: Matching)
    requires edges <= p.allowed && IsMatching(p, edges, m)
    ensures IsMatching(p, p.allowed, m)
  {
  }

  lemma MatchingTotal(p: Problem, edges: set<Edge>, c: Matrix, m: Matching)
    requires p.Gated() && edges <= p.allowed && IsPadded(p, edges, c) && IsMatching(p, edges, m)
    ensures Columns(p, m) && IsAssignment(c, p.nr + p.nl, Pad(p, m))
    ensures Total(c, p.nr + p.nl, Pad(p, m)) == Cost(p, m) + UNMATCHED * (p.nl - Size(m)) as real
    ensures 0.0 <= Cost(p, m) <= WIDEST_COST * Size(m) as real
    ensures Size(m) <= p.nl
  {
    MatchedInRange(p, edges, m);
    PadIsAssignment(p, edges, c, m);
    PadTotal(p, edges, c, m, |m|);
    CostBounds(p, m, |m|);
  }

  lemma PenaltyDominates(k: nat, k': nat, cost: real, cost': real, n: nat)
    requires cost + UNMATCHED * (n - k) as real <= cost' + UNMATCHED * (n - k') as real
    requires 0.0 <= cost && cost' <= WIDEST_COST * k' as real
    requires k' <= MAXIMUM_PAIRS && k <= n && k' <= n
    ensures k' <= k
    ensures k' == k ==> cost <= cost'
  {
  }

  /** Read back, an optimal assignment of the padded matrix is a cheapest matching, penalties included. */
  lemma OptimalIsCheapest(p: Problem, edges: set<Edge>, c: Matrix, a: seq<nat>)
    requires p.Gated() && edges <= p.allowed && IsPadded(p, edges, c) && IsOptimal(c, p.nr + p.nl, a)
    ensures IsCheapest(p, edges, Kept(p, edges, a))
  {
    hide Entry, IsPadded, Size, Cost, Total;
    var m := Kept(p, edges, a);
    KeptIsMatching(p, edges, c, a);
    NeverForbidden(p, edges, c, a);
    MatchingTotal(p, edges, c, m);
    forall other | IsMatching(p, edges, other)
      ensures Columns(p, other)
              && Cost(p, m) + UNMATCHED * (p.nl - Size(m)) as real <= Cost(p, other) + UNMATCHED * (p.nl - Size(other)) as real
    {
      MatchingTotal(p, edges, c, other);
    }
  }

  lemma MatchingBounds(p: Problem, edges: set<Edge>, m: Matching)
    requires p.Gated() && edges <= p.allowed && IsMatching(p, edges, m)
    ensures Columns(p, m) && 0.0 <= Cost(p, m) <= WIDEST_COST * Size(m) as real && Size(m) <= p.nl
  {
    MatchedInRange(p, edges, m);
    CostBounds(p, m, |m|);
    SizeAtMost(m, |m|);
  }

  lemma SizeAtMost(m: Matching, n: nat)
    requires n <= |m|
    ensures SizeTo(m, n) <= n
  {
  }

  /** While the penalty outweighs every geometric cost, cheapest means largest and then cheapest. */
  lemma CheapestIsBest(p: Problem, edges: set<Edge>, m: Matching)
    requires p.Gated() && Separable(p) && edges <= p.allowed && IsCheapest(p, edges, m)
    ensures IsBest(p, edges, m)
  {
    hide Size, Cost, PairCost;
    MatchingBounds(p, edges, m);
    forall other | IsMatching(p, edges, other)
      ensures Columns(p, other) && Size(other) <= Size(m) && (Size(other) == Size(m) ==> Cost(p, m) <= Cost(p, other))
    {
      MatchingBounds(p, edges, other);
      FewerEdges(p, edges, other);
      PenaltyDominates(Size(m), Size(other), Cost(p, m), Cost(p, other), p.nl);
    }
  }

  /** Read back, an optimal assignment of the padded matrix is a best matching. */
  lemma OptimalIsBest(p: Problem, edges: set<Edge>, c: Matrix, a: seq<nat>)
    requires p.Gated() && Separable(p) && edges <= p.allowed
    requires IsPadded(p, edges, c) && IsOptimal(c, p.nr + p.nl, a)
    ensures IsBest(p, edges, Kept(p, edges, a))
  {
    hide IsPadded, IsOptimal, IsCheapest, IsBest, Separable;
    OptimalIsCheapest(p, edges, c, a);
    CheapestIsBest(p, edges, Kept(p, edges, a));
  }

  // ----- the algorithm -----

  /** The padded cost matrix, filled entry by entry. */
  method FillCosts(p: Problem, banned: Option<Edge>) returns (costs: Matrix)
    requires p.Tabulated()
    ensures IsPadded(p, Remaining(p, banned), costs)
  {
    hide PairCost;
    var width := p.nr + p.nl;
    costs := seq(p.nl, _ => seq(width, j => if j < p.nr then FORBIDDEN else UNMATCHED));
    var rest := p.allowed;
    while rest != {}
      invariant rest <= p.allowed
      invariant IsPadded(p, Remaining(p, banned) - rest, costs)
    {
      var e :| e in rest;
      if banned != Some(e) {
        costs := costs[e.i := costs[e.i][e.j := PairCost(p.MetricAt(e))]];
      }
      rest := rest - {e};
    }
  }

  function Remaining(p: Problem, banned: Option<Edge>): (edges: set<Edge>)
    ensures edges <= p.allowed
  {
    if banned.Some? then p.allowed - {banned.value} else p.allowed
  }

  lemma NothingToMatch(p: Problem, edges: set<Edge>, m: Matching)
    requires p.Tabulated() && edges <= p.allowed && p.allowed == {}
    requires |m| == p.nl && forall i :: 0 <= i < |m| ==> m[i] == NO_MATCH
    ensures IsBest(p, edges, m) && IsCheapest(p, edges, m) && Cost(p, m) == 0.0
  {
    EmptySums(p, m, |m|);
    forall other | IsMatching(p, edges, other) ensures other == m {
    }
  }

  lemma EmptySums(p: Problem, m: Matching, n: nat)
    requires Columns(p, m) && n <= |m| && forall i :: 0 <= i < |m| ==> m[i] == NO_MATCH
    ensures SizeTo(m, n) == 0 && CostTo(p, m, n) == 0.0
  {
  }

  /**
   One association under the gates, with at most one pair banned.  The chosen pairs are read off
   the solver's answer; they form a cheapest matching of the remaining pairs, penalties included,
   and below the penalty's reach a largest one.
   */
  method Assign(p: Problem, banned: Option<Edge>, solve: (Matrix, nat) -> seq<nat>)
    returns (matches: Matching, cost: real)
    requires p.Gated() && IsSolver(solve)
    ensures IsCheapest(p, Remaining(p, banned), matches) && cost == Cost(p, matches)
    ensures Separable(p) ==> IsBest(p, Remaining(p, banned), matches)
  {
    if p.nl == 0 || p.nr == 0 || p.allowed == {} {
      matches := seq(p.nl, _ => NO_MATCH);
      NothingToMatch(p, Remaining(p, banned), matches);
      return matches, 0.0;
    }
    ghost var edges := Remaining(p, banned);
    var costs := FillCosts(p, banned);
    hide PairCost, IsPadded, Separable;
    var cols := solve(costs, p.nr + p.nl);
    assert IsOptimal(costs, p.nr + p.nl, cols);
    OptimalIsCheapest(p, edges, costs, cols);
    if Separable(p) {
      OptimalIsBest(p, edges, costs, cols);
    }
    matches, cost := ReadMatches(p, edges, costs, cols);
  }

  /** The chosen pairs: real columns whose cost is below the penalty for staying unmatched. */
  method ReadMatches(p: Problem, ghost edges: set<Edge>, costs: Matrix, cols: seq<nat>)
    returns (matches: Matching, cost: real)
    requires p.Gated() && edges <= p.allowed && IsPadded(p, edges, costs)
    requires IsAssignment(costs, p.nr + p.nl, cols) && Columns(p, Kept(p, edges, cols))
    ensures matches == Kept(p, edges, cols) && cost == Cost(p, matches)
  {
    hide Kept, RowCost, IsPadded, PairCost, Problem.Gated, Problem.Tabulated;
    assert |costs| == p.nl && Rectangular(costs, p.nr + p.nl) by { PaddedShape(p, edges, costs); }
    ghost var kept := Kept(p, edges, cols);
    matches, cost := [], 0.0;
    for i := 0 to p.nl
      invariant matches == kept[..i] && cost == CostTo(p, kept, i)
    {
      ReadEntry(p, edges, costs, cols, i);
      assert kept[..i + 1] == kept[..i] + [kept[i]];
      if cols[i] < p.nr && costs[i][cols[i]] < UNMATCHED {
        matches, cost := matches + [cols[i]], cost + costs[i][cols[i]];
      } else {
        matches := matches + [NO_MATCH];
      }
    }
    assert matches == kept;
  }

  lemma PaddedShape(p: Problem, edges: set<Edge>, c: Matrix)
    requires p.Tabulated() && edges <= p.allowed && IsPadded(p, edges, c)
    ensures |c| == p.nl && Rectangular(c, p.nr + p.nl)
  {
  }

  lemma ReadEntry(p: Problem, edges: set<Edge>, c: Matrix, a: seq<nat>, i: nat)
    requires p.Gated() && edges <= p.allowed && IsPadded(p, edges, c) && IsAssignment(c, p.nr + p.nl, a) && i < |a|
    requires Columns(p, Kept(p, edges, a))
    ensures var m := Kept(p, edges, a);
            && (a[i] < p.nr && c[i][a[i]] < UNMATCHED <==> m[i] >= 0)
            && (m[i] >= 0 ==> m[i] == a[i] && RowCost(p, m, i) == c[i][a[i]])
            && (m[i] < 0 ==> m[i] == NO_MATCH && RowCost(p, m, i) == 0.0)
  {
    if a[i] < p.nr && Edge(i, a[i]) in edges {
      GatedCost(p.MetricAt(Edge(i, a[i])));
    }
    hide PairCost;
  }

  // ----- ambiguity -----

  /** A different matching of the same size that costs no more than the tolerance above `m`. */
  ghost predicate Competes(p: Problem, m: Matching, other: Matching)
    requires p.Tabulated()
  {
    && IsMatching(p, p.allowed, other) && other != m && Columns(p, m) && Columns(p, other)
    && Size(other) == Size(m) && Cost(p, other) <= Cost(p, m) + TOLERANCE * Size(m) as real
  }

  lemma {:induction false} SizesCompare(m: Matching, other: Matching, n: nat)
    requires n <= |m| == |other|
    requires forall i :: 0 <= i < n && m[i] >= 0 ==> other[i] == m[i]
    ensures SizeTo(m, n) <= SizeTo(other, n)
    ensures SizeTo(m, n) == SizeTo(other, n) ==> forall i :: 0 <= i < n && other[i] >= 0 ==> m[i] >= 0
  {
    if n > 0 {
      SizesCompare(m, other, n - 1);
    }
  }

  /** Two different matchings of one size differ on a row that the first one matches. */
  lemma DiffersOnAnEdge(p: Problem, m: Matching, other: Matching) returns (i: nat)
    requires IsMatching(p, p.allowed, m) && IsMatching(p, p.allowed, other) && m != other && Size(m) == Size(other)
    ensures i < |m| && m[i] >= 0 && other[i] != m[i]
  {
    if k :| 0 <= k < |m| && m[k] >= 0 && other[k] != m[k] {
      i := k;
    } else {
      SameMatching(p, m, other);
      assert false;
    }
  }

  lemma SameMatching(p: Problem, m: Matching, other: Matching)
    requires IsMatching(p, p.allowed, m) && IsMatching(p, p.allowed, other) && Size(m) == Size(other)
    requires forall i :: 0 <= i < |m| && m[i] >= 0 ==> other[i] == m[i]
    ensures m == other
  {
    SizesCompare(m, other, |m|);
  }

  /** Banning an edge of the best matching exposes every competitor that avoids the edge. */
  lemma BanExposes(p: Problem, m: Matching, i: nat, alternative: Matching, other: Matching)
    requires p.Tabulated() && IsBest(p, p.allowed, m) && i < |m| && m[i] >= 0
    requires IsBest(p, p.allowed - {Edge(i, m[i])}, alternative)
    requires Competes(p, m, other) && other[i] != m[i]
    ensures Size(alternative) == Size(m) && Cost(p, alternative) <= Cost(p, m) + TOLERANCE * Size(m) as real
  {
    hide Size, Cost, PairCost;
    assert IsMatching(p, p.allowed - {Edge(i, m[i])}, other);
    FewerEdges(p, p.allowed - {Edge(i, m[i])}, alternative);
  }

  /**
   The ambiguity loop, used for train and holdout captures alike: ban each matched pair in turn
   and look for an equally large association within the tolerance.  A raised flag always has a
   competing association behind it; below the penalty's reach every competing one raises it.
   */
  method CheckAmbiguity(p: Problem, solve: (Matrix, nat) -> seq<nat>)
    returns (matched: Matching, total: real, ambiguous: bool)
    requires p.Gated() && IsSolver(solve)
    ensures IsCheapest(p, p.allowed, matched) && total == Cost(p, matched)
    ensures ambiguous ==> exists other :: Competes(p, matched, other)
    ensures Separable(p) ==> IsBest(p, p.allowed, matched)
                             && (ambiguous <==> exists other :: Competes(p, matched, other))
  {
    hide IsSolver, Separable, PairCost, IsMatching, IsBest;
    matched, total := Assign(p, None, solve);
    ghost var size := Size(matched);
    var count := Count(matched);
    for k := 0 to |matched|
      invariant Separable(p) ==>
                  forall i, other :: 0 <= i < k && matched[i] >= 0 && Competes(p, matched, other) ==> other[i] == matched[i]
    {
      if matched[k] >= 0 {
        var edge := Edge(k, matched[k]);
        var alternative, alternativeCost := Assign(p, Some(edge), solve);
        var alternativeCount := Count(alternative);
        if alternativeCount == count && alternativeCost <= total + TOLERANCE * count as real {
          AlternativeCompetes(p, matched, k, alternative);
          return matched, total, true;
        }
        forall other | Separable(p) && Competes(p, matched, other) ensures other[k] == matched[k] {
          if other[k] != matched[k] {
            BanExposes(p, matched, k, alternative, other);
          }
        }
      }
    }
    forall other | Separable(p) ensures !Competes(p, matched, other) {
      if Competes(p, matched, other) {
        var i := DiffersOnAnEdge(p, matched, other);
      }
    }
    return matched, total, false;
  }

  lemma AlternativeCompetes(p: Problem, m: Matching, k: nat, alternative: Matching)
    requires p.Tabulated() && IsCheapest(p, p.allowed, m) && k < |m| && m[k] >= 0
    requires IsCheapest(p, p.allowed - {Edge(k, m[k])}, alternative)
    requires Columns(p, m) && Columns(p, alternative)
    requires Size(alternative) == Size(m) && Cost(p, alternative) <= Cost(p, m) + TOLERANCE * Size(m) as real
    ensures Competes(p, m, alternative)
  {
    hide Size, Cost, PairCost;
    FewerEdges(p, p.allowed - {Edge(k, m[k])}, alternative);
    assert alternative[k] != m[k];
  }

  method Count(m: Matching) returns (n: nat)
    ensures n == Size(m)
  {
    n := 0;
    for i := 0 to |m|
      invariant n == SizeTo(m, i)
    {
      if m[i] >= 0 {
        n := n + 1;
      }
    }
  }

  // ----- the assumption on the solver can be met -----

  function Prefixes(rows: nat, width: nat): set<seq<nat>> {
    if rows == 0 then {[]}
    else
      var shorter := Prefixes(rows - 1, width);
      set a, j: nat | a in shorter && 0 <= j < width :: a + [j]
  }

  lemma {:induction false} PrefixesComplete(a: seq<nat>, width: nat)
    requires forall i :: 0 <= i < |a| ==> a[i] < width
    ensures a in Prefixes(|a|, width)
  {
    if a != [] {
      var n := |a| - 1;
      PrefixesComplete(a[..n], width);
      assert a == a[..n] + [a[n]];
    }
  }

  lemma {:induction false} CheapestOf(c: Matrix, width: nat, s: set<seq<nat>>) returns (best: seq<nat>)
    requires Rectangular(c, width) && s != {} && forall a :: a in s ==> IsAssignment(c, width, a)
    ensures best in s && forall a :: a in s ==> Total(c, width, best) <= Total(c, width, a)
    decreases |s|
  {
    var a :| a in s;
    if s == {a} {
      best := a;
    } else {
      var rest := CheapestOf(c, width, s - {a});
      best := if Total(c, width, a) < Total(c, width, rest) then a else rest;
    }
  }

  /** Every rectangular matrix has an optimal assignment. */
  lemma OptimalExists(c: Matrix, width: nat) returns (a: seq<nat>)
    requires Rectangular(c, width)
    ensures IsOptimal(c, width, a)
  {
    var all := set a | a in Prefixes(|c|, width) && IsAssignment(c, width, a);
    var diagonal := seq(|c|, i requires 0 <= i < |c| => i);
    PrefixesComplete(diagonal, width);
    assert IsAssignment(c, width, diagonal) && diagonal in all;
    a := CheapestOf(c, width, all);
    forall other | IsAssignment(c, width, other) ensures other in all {
      PrefixesComplete(other, width);
    }
  }

  ghost function Solved(c: Matrix, width: nat): (a: seq<nat>)
    ensures Rectangular(c, width) ==> IsOptimal(c, width, a)
  {
    if Rectangular(c, width) then
      assert exists a :: IsOptimal(c, width, a) by { var a := OptimalExists(c, width); }
      var a :| IsOptimal(c, width, a);
      a
    else []
  }

  /** So what the methods assume of their solver can be had. */
  lemma SolverExists() returns (solve: (Matrix, nat) -> seq<nat>)
    ensures IsSolver(solve)
  {
    solve := (c: Matrix, width: nat) => Solved(c, width);
  }

  // ----- where the penalty is large enough -----

  /** The seed-triple budget of the train search keeps every matching well below the bound. */
  lemma SeedBudget(edges: nat)
    requires edges > 42
    ensures edges * (edges - 1) * (edges - 2) / 6 > 12000
  {
    assert edges * (edges - 1) >= 43 * 42;
    assert edges * (edges - 1) * (edges - 2) >= 43 * 42 * 41;
  }

  function EdgesOf(m: Matching, n: nat): set<Edge>
    requires n <= |m|
  {
    if n == 0 then {} else EdgesOf(m, n - 1) + if m[n - 1] >= 0 then {Edge(n - 1, m[n - 1])} else {}
  }

  lemma {:induction false} EdgesMatched(m: Matching, n: nat)
    requires n <= |m|
    ensures forall e :: e in EdgesOf(m, n) ==> e.i < n && m[e.i] == e.j
  {
    if n > 0 {
      EdgesMatched(m, n - 1);
    }
  }

  lemma {:induction false} EdgesCounted(m: Matching, n: nat)
    requires n <= |m|
    ensures |EdgesOf(m, n)| == SizeTo(m, n)
    ensures forall e :: e in EdgesOf(m, n) ==> e.i < n && m[e.i] == e.j
  {
    EdgesMatched(m, n);
    if n > 0 {
      EdgesCounted(m, n - 1);
      OneMoreEdge(EdgesOf(m, n - 1), n, m[n - 1]);
    }
  }

  lemma OneMoreEdge(edges: set<Edge>, n: nat, j: int)
    requires n > 0 && forall e :: e in edges ==> e.i < n - 1
    ensures |edges + if j >= 0 then {Edge(n - 1, j)} else {}| == |edges| + if j >= 0 then 1 else 0
  {
    if j >= 0 {
      assert Edge(n - 1, j) !in edges;
    } else {
      assert edges + {} == edges;
    }
  }

  lemma SubsetSize<T>(a: set<T>, b: set<T>)
    requires a <= b
    ensures |a| <= |b|
  {
    assert b == a + (b - a);
  }

  /** Few allowed pairs, or few left planes, make the cardinality priority safe. */
  lemma SmallIsSeparable(p: Problem)
    requires |p.allowed| <= MAXIMUM_PAIRS || p.nl <= MAXIMUM_PAIRS
    ensures Separable(p)
  {
    forall m | IsMatching(p, p.allowed, m) ensures Size(m) <= MAXIMUM_PAIRS {
      EdgesCounted(m, |m|);
      SizeAtMost(m, |m|);
      SubsetSize(EdgesOf(m, |m|), p.allowed);
    }
  }

  /**
   A ladder of `n` planes a side: plane `i` fits plane `i` at the very edge of the gate and plane
   `i + 1` exactly.
   */
  ghost function Ladder(n: nat): Problem {
    Problem(n, n,
            seq(n, i => seq(n, j => if i == j then Metric(20.0, 0.35) else if j == i + 1 then Metric(0.0, 0.0)
                                    else Metric(180.0, 0.0))),
            set i: nat, j: nat | 0 <= i < n && 0 <= j < n && (j == i || j == i + 1) :: Edge(i, j))
  }

  ghost function Straight(n: nat): Matching {
    seq(n, i => i)
  }

  ghost function Shifted(n: nat): Matching {
    seq(n, i => if i < n - 1 then i + 1 else NO_MATCH)
  }

  lemma LadderFacts(n: nat)
    ensures Ladder(n).Gated()
    ensures IsMatching(Ladder(n), Ladder(n).allowed, Straight(n)) && Columns(Ladder(n), Straight(n))
    ensures IsMatching(Ladder(n), Ladder(n).allowed, Shifted(n)) && Columns(Ladder(n), Shifted(n))
  {
    hide PairCost;
  }

  lemma EdgeCosts()
    ensures PairCost(Metric(20.0, 0.35)) == WIDEST_COST && PairCost(Metric(0.0, 0.0)) == 0.0
  {
    assert 0.35 / 0.03 == 35.0 / 3.0;
  }

  lemma LadderRow(n: nat, i: nat)
    requires i < n && Columns(Ladder(n), Straight(n)) && Columns(Ladder(n), Shifted(n))
    ensures RowCost(Ladder(n), Straight(n), i) == WIDEST_COST && RowCost(Ladder(n), Shifted(n), i) == 0.0
    ensures Straight(n)[i] == i && Shifted(n)[i] == if i + 1 < n then i + 1 else NO_MATCH
  {
    EdgeCosts();
    hide PairCost;
  }

  lemma {:induction false} LadderSums(n: nat, k: nat)
    requires k <= n == |Straight(n)| == |Shifted(n)| == Ladder(n).nl
    requires Columns(Ladder(n), Straight(n)) && Columns(Ladder(n), Shifted(n))
    ensures SizeTo(Straight(n), k) == k && CostTo(Ladder(n), Straight(n), k) == WIDEST_COST * k as real
    ensures SizeTo(Shifted(n), k) == (if k < n then k else if n == 0 then 0 else n - 1)
    ensures CostTo(Ladder(n), Shifted(n), k) == 0.0
  {
    hide RowCost, Ladder, Straight, Shifted;
    if k > 0 {
      LadderSums(n, k - 1);
      LadderRow(n, k - 1);
    }
  }

  /** In a ladder a matching of every left plane can only be the straight one. */
  lemma {:induction false} FullIsStraight(n: nat, m: Matching, k: nat)
    requires IsMatching(Ladder(n), Ladder(n).allowed, m) && (forall i :: 0 <= i < n ==> m[i] >= 0) && k <= n
    ensures forall i :: n - k <= i < n ==> m[i] == i
  {
    if k > 0 {
      FullIsStraight(n, m, k - 1);
      var i := n - k;
      assert Edge(i, m[i]) in Ladder(n).allowed;
      assert i <= m[i] <= i + 1;
      if i + 1 < n {
        assert m[i] != m[i + 1];
      }
    }
  }

  lemma FullIsExactlyStraight(n: nat, m: Matching)
    requires IsMatching(Ladder(n), Ladder(n).allowed, m) && (forall i :: 0 <= i < n ==> m[i] >= 0)
    ensures m == Straight(n)
  {
    FullIsStraight(n, m, n);
  }

  lemma {:induction false} FullSize(m: Matching, n: nat)
    requires n <= |m|
    ensures SizeTo(m, n) <= n
    ensures SizeTo(m, n) == n ==> forall i :: 0 <= i < n ==> m[i] >= 0
  {
    if n > 0 {
      FullSize(m, n - 1);
    }
  }

  /**
   The bound is exact.  With one plane more the solver's optimum can drop a pair although all
   planes could be matched: cardinality is no longer maximised.
   */
  lemma BoundIsTight(c: Matrix, a: seq<nat>)
    requires var p := Ladder(MAXIMUM_PAIRS + 1);
             p.Tabulated() && IsPadded(p, p.allowed, c) && IsOptimal(c, p.nr + p.nl, a)
    ensures var p := Ladder(MAXIMUM_PAIRS + 1);
            && IsMatching(p, p.allowed, Straight(p.nl)) && Size(Straight(p.nl)) == p.nl
            && Size(Kept(p, p.allowed, a)) < p.nl
  {
    var n := MAXIMUM_PAIRS + 1;
    var p := Ladder(n);
    LadderFacts(n);
    LadderSums(n, n);
    MatchingTotal(p, p.allowed, c, Shifted(n));
    MatchingTotal(p, p.allowed, c, Straight(n));
    NeverForbidden(p, p.allowed, c, a);
    KeptIsMatching(p, p.allowed, c, a);
    var m := Kept(p, p.allowed, a);
    FullSize(m, n);
    if Size(m) == n {
      FullIsExactlyStraight(n, m);
      assert false;
    }
  }
}
