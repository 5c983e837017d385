/** Lloyd's iteration on values: which mean a point is assigned to, the
    means recomputed from the assignment, the stop test, and the whole run
    of at most a given number of rounds. The engine's methods are proved
    against these functions. */
module Lloyd {
  import opened Points

  datatype Option<T> = None | Some(value: T)

  /** Squared distance from (x, y) to a mean that has coordinates. */
  function DistTo(x: real, y: real, c: Centroid): real
    requires c.Finite?
  {
    SqDistance(x, y, c.x, c.y)
  }

  /** `j` is the mean the assignment scan settles on for (x, y): a mean with
      coordinates at minimal distance, strictly closer than every such mean
      before it (the scan keeps the first of several equally close means).
      A NaN mean has no distance that compares smaller, so it never wins. */
  ghost predicate IsFirstNearest(x: real, y: real, means: seq<Centroid>, j: int)
  {
    0 <= j < |means| && means[j].Finite? &&
    (forall i :: 0 <= i < |means| && means[i].Finite? ==>
       DistTo(x, y, means[j]) <= DistTo(x, y, means[i])) &&
    (forall i :: 0 <= i < j && means[i].Finite? ==>
       DistTo(x, y, means[j]) < DistTo(x, y, means[i]))
  }

  /** The index the scan over `means` in order ends with, replacing its
      current best only on a strictly smaller distance; `None` when no mean
      has coordinates. */
  function Nearest(x: real, y: real, means: seq<Centroid>): (r: Option<nat>)
    ensures r.None? <==> forall i :: 0 <= i < |means| ==> means[i].NaN?
    ensures r.Some? ==> IsFirstNearest(x, y, means, r.value)
  {
    if |means| == 0 then None
    else
      var r := Nearest(x, y, means[..|means| - 1]);
      var last := means[|means| - 1];
      if last.Finite? && (r.None? || DistTo(x, y, last) < DistTo(x, y, means[r.value]))
      then Some(|means| - 1)
      else r
  }

  /** At most one index is the first nearest mean, so `Nearest` is exactly
      the first-wins argmin. */
  lemma FirstNearestUnique(x: real, y: real, means: seq<Centroid>, j1: int, j2: int)
    requires IsFirstNearest(x, y, means, j1) && IsFirstNearest(x, y, means, j2)
    ensures j1 == j2
  {
  }

  /** The label point `p` carries after one assignment pass over `means`:
      the label of the nearest mean, or its old label when no mean has
      coordinates. */
  function AssignedCluster(p: Sample, means: seq<Centroid>): int
  {
    match Nearest(p.x, p.y, means)
    case None => p.cluster
    case Some(j) => means[j].cluster
  }

  function Reassign(p: Sample, means: seq<Centroid>): Sample
  {
    p.(cluster := AssignedCluster(p, means))
  }

  /** The data points after one assignment pass: same points in the same
      order, same coordinates, labels reassigned. */
  function Assign(ps: seq<Sample>, means: seq<Centroid>): (r: seq<Sample>)
    ensures |r| == |ps|
    ensures forall i :: 0 <= i < |ps| ==>
      r[i].x == ps[i].x && r[i].y == ps[i].y && r[i].cluster == AssignedCluster(ps[i], means)
  {
    seq(|ps|, i requires 0 <= i < |ps| => Reassign(ps[i], means))
  }

  /** Mean `i` carries label `i`. */
  ghost predicate Indexed(means: seq<Centroid>)
  {
    forall i :: 0 <= i < |means| ==> means[i].cluster == i
  }

  /** Every point carries a label in 0..k-1. */
  ghost predicate ClustersIn(ps: seq<Sample>, k: int)
  {
    forall i :: 0 <= i < |ps| ==> 0 <= ps[i].cluster < k
  }

  ghost predicate HasFinite(means: seq<Centroid>)
  {
    exists i :: 0 <= i < |means| && means[i].Finite?
  }

  /** With label equal to index and some mean with coordinates, every point
      is assigned a label in 0..k-1 naming a mean with coordinates at
      minimal distance, strictly closer than every mean of smaller label. */
  lemma AssignNearest(ps: seq<Sample>, means: seq<Centroid>, i: int)
    requires Indexed(means) && HasFinite(means)
    requires 0 <= i < |ps|
    ensures var c := Assign(ps, means)[i].cluster;
      0 <= c < |means| && IsFirstNearest(ps[i].x, ps[i].y, means, c)
  {
    var r := Nearest(ps[i].x, ps[i].y, means);
    var w :| 0 <= w < |means| && means[w].Finite?;
    assert r.Some? by { assert !means[w].NaN?; }
  }

  /** After an assignment pass every label is in 0..k-1, provided some mean
      has coordinates or the labels already were. */
  lemma {:induction false} AssignInRange(ps: seq<Sample>, means: seq<Centroid>)
    requires Indexed(means)
    requires HasFinite(means) || ClustersIn(ps, |means|)
    ensures ClustersIn(Assign(ps, means), |means|)
  {
    forall i | 0 <= i < |ps|
      ensures 0 <= Assign(ps, means)[i].cluster < |means|
    {
      if HasFinite(means) {
        AssignNearest(ps, means, i);
      }
    }
  }

  /** A second pass with the same means changes no label. */
  lemma AssignIdempotent(ps: seq<Sample>, means: seq<Centroid>)
    ensures Assign(Assign(ps, means), means) == Assign(ps, means)
  {
    var once := Assign(ps, means);
    forall i | 0 <= i < |ps|
      ensures Assign(once, means)[i] == once[i]
    {
      assert once[i].x == ps[i].x && once[i].y == ps[i].y;
    }
  }

  /** When some mean has coordinates, the assigned label depends only on the
      coordinates of the point, never on its previous label. */
  lemma AssignIgnoresOldLabels(ps: seq<Sample>, qs: seq<Sample>, means: seq<Centroid>)
    requires HasFinite(means)
    requires |ps| == |qs|
    requires forall i :: 0 <= i < |ps| ==> ps[i].x == qs[i].x && ps[i].y == qs[i].y
    ensures Assign(ps, means) == Assign(qs, means)
  {
    forall i | 0 <= i < |ps|
      ensures Assign(ps, means)[i] == Assign(qs, means)[i]
    {
      var w :| 0 <= w < |means| && means[w].Finite?;
      assert Nearest(ps[i].x, ps[i].y, means).Some? by { assert !means[w].NaN?; }
    }
  }

  // ----- recomputation of the means -----

  datatype Axis = X | Y

  function Coord(p: Sample, axis: Axis): real
  {
    match axis
    case X => p.x
    case Y => p.y
  }

  /** Sum of one coordinate over the points labelled `c`, in data order. */
  function Sum(ps: seq<Sample>, c: int, axis: Axis): real
  {
    if |ps| == 0 then 0.0
    else
      var last := ps[|ps| - 1];
      Sum(ps[..|ps| - 1], c, axis) + (if last.cluster == c then Coord(last, axis) else 0.0)
  }

  /** Number of points labelled `c`. */
  function Count(ps: seq<Sample>, c: int): nat
  {
    if |ps| == 0 then 0
    else Count(ps[..|ps| - 1], c) + (if ps[|ps| - 1].cluster == c then 1 else 0)
  }

  /** Adding the point at index `j` to the prefix before it. */
  lemma TallyStep(ps: seq<Sample>, j: int, c: int)
    requires 0 <= j < |ps|
    ensures Sum(ps[..j + 1], c, X) == Sum(ps[..j], c, X) + (if ps[j].cluster == c then ps[j].x else 0.0)
    ensures Sum(ps[..j + 1], c, Y) == Sum(ps[..j], c, Y) + (if ps[j].cluster == c then ps[j].y else 0.0)
    ensures Count(ps[..j + 1], c) == Count(ps[..j], c) + (if ps[j].cluster == c then 1 else 0)
  {
    assert ps[..j + 1][..j] == ps[..j];
  }

  /** Mean of the points labelled `c`; for an empty cluster the division
      0.0 / 0.0 gives NaN in both coordinates. */
  function MeanOf(ps: seq<Sample>, c: int): Centroid
  {
    var n := Count(ps, c);
    if n == 0 then NaN(c)
    else Finite(Sum(ps, c, X) / n as real, Sum(ps, c, Y) / n as real, c)
  }

  /** The `k` means recomputed from the labelled points: mean `i` carries
      label `i`. */
  function Recompute(ps: seq<Sample>, k: nat): (r: seq<Centroid>)
    ensures |r| == k && Indexed(r)
  {
    seq(k, i requires 0 <= i < k => MeanOf(ps, i))
  }

  /** A cluster has a positive count exactly when some point carries its
      label. */
  lemma {:induction false} CountPositive(ps: seq<Sample>, c: int)
    ensures Count(ps, c) > 0 <==> exists i :: 0 <= i < |ps| && ps[i].cluster == c
  {
    if |ps| > 0 {
      var init := ps[..|ps| - 1];
      CountPositive(init, c);
      if Count(init, c) > 0 {
        var i :| 0 <= i < |init| && init[i].cluster == c;
        assert ps[i].cluster == c;
      }
      if exists i :: 0 <= i < |ps| && ps[i].cluster == c {
        var i :| 0 <= i < |ps| && ps[i].cluster == c;
        if i < |init| {
          assert init[i].cluster == c;
        }
      }
    }
  }

  /** A recomputed mean is NaN exactly when its cluster is empty. */
  lemma EmptyClusterIsNaN(ps: seq<Sample>, k: nat, i: int)
    requires 0 <= i < k
    ensures Recompute(ps, k)[i].NaN? <==> forall j :: 0 <= j < |ps| ==> ps[j].cluster != i
  {
    CountPositive(ps, i);
  }

  /** With at least one point and every label in 0..k-1, some recomputed mean
      has coordinates, so the next assignment pass labels every point. */
  lemma RecomputeHasFinite(ps: seq<Sample>, k: nat)
    requires |ps| > 0 && ClustersIn(ps, k)
    ensures HasFinite(Recompute(ps, k))
  {
    var c := ps[0].cluster;
    CountPositive(ps, c);
    assert Recompute(ps, k)[c].Finite?;
  }

  /** If every point labelled `c` has its coordinate in [lo, hi], so does the
      sum divided by the count. */
  lemma {:induction false} SumBounds(ps: seq<Sample>, c: int, axis: Axis, lo: real, hi: real)
    requires forall i :: 0 <= i < |ps| && ps[i].cluster == c ==> lo <= Coord(ps[i], axis) <= hi
    ensures Mul(Count(ps, c) as real, lo) <= Sum(ps, c, axis) <= Mul(Count(ps, c) as real, hi)
  {
    if |ps| > 0 {
      var init := ps[..|ps| - 1];
      SumBounds(init, c, axis, lo, hi);
      var last := ps[|ps| - 1];
      if last.cluster == c {
        var n := Count(init, c) as real;
        assert Count(ps, c) as real == n + 1.0;
        MulSucc(n, lo);
        MulSucc(n, hi);
      }
    }
  }

  lemma MulSucc(n: real, a: real)
    ensures Mul(n + 1.0, a) == Mul(n, a) + a
  {
  }

  lemma DivideBounds(s: real, n: real, lo: real, hi: real)
    requires n > 0.0
    requires Mul(n, lo) <= s <= Mul(n, hi)
    ensures lo <= s / n <= hi
  {
    var q := s / n;
    assert Mul(n, q) == s;
    assert Mul(n, lo - q) == Mul(n, lo) - Mul(n, q);
    assert Mul(n, q - hi) == Mul(n, q) - Mul(n, hi);
    if q < lo {
      MulPositive(n, lo - q);
    }
    if q > hi {
      MulPositive(n, q - hi);
    }
  }

  /** A recomputed mean lies in every box that holds all the points of its
      cluster. */
  lemma MeanWithinBox(ps: seq<Sample>, c: int, xlo: real, xhi: real, ylo: real, yhi: real)
    requires forall i :: 0 <= i < |ps| && ps[i].cluster == c ==>
      xlo <= ps[i].x <= xhi && ylo <= ps[i].y <= yhi
    requires Count(ps, c) > 0
    ensures var m := MeanOf(ps, c);
      m.Finite? && xlo <= m.x <= xhi && ylo <= m.y <= yhi
  {
    var n := Count(ps, c) as real;
    SumBounds(ps, c, X, xlo, xhi);
    SumBounds(ps, c, Y, ylo, yhi);
    DivideBounds(Sum(ps, c, X), n, xlo, xhi);
    DivideBounds(Sum(ps, c, Y), n, ylo, yhi);
  }

  /** A cluster whose points all sit at (x0, y0) has its mean there. */
  lemma MeanOfCoincidentPoints(ps: seq<Sample>, c: int, x0: real, y0: real)
    requires exists i :: 0 <= i < |ps| && ps[i].cluster == c
    requires forall i :: 0 <= i < |ps| && ps[i].cluster == c ==> ps[i].x == x0 && ps[i].y == y0
    ensures MeanOf(ps, c) == Finite(x0, y0, c)
  {
    CountPositive(ps, c);
    MeanWithinBox(ps, c, x0, x0, y0, y0);
  }

  // ----- the stop test -----

  /** Two means are at the same position under IEEE comparison: `!=` on a
      NaN coordinate is true, so a NaN mean equals nothing, not even itself. */
  predicate SamePosition(a: Centroid, b: Centroid)
  {
    a.Finite? && b.Finite? && a.x == b.x && a.y == b.y
  }

  /** The stop test as the engine has it: it compares the means at index 0
      only. */
  function CheckStop(m1: seq<Centroid>, m2: seq<Centroid>): (r: bool)
    requires |m1| > 0 && |m2| > 0
    ensures r ==> m1[0].Finite? && m2[0].Finite?
  {
    SamePosition(m1[0], m2[0])
  }

  /** For first means with coordinates, the test holds exactly when their
      x coordinates agree and their y coordinates agree. */
  lemma CheckStopFirstEqual(m1: seq<Centroid>, m2: seq<Centroid>)
    requires |m1| > 0 && |m2| > 0 && m1[0].Finite? && m2[0].Finite?
    ensures CheckStop(m1, m2) <==> m1[0].x == m2[0].x && m1[0].y == m2[0].y
  {
  }

  /** All k means at the same positions, index by index. */
  ghost predicate SameMeans(m1: seq<Centroid>, m2: seq<Centroid>)
  {
    |m1| == |m2| && forall i :: 0 <= i < |m1| ==> SamePosition(m1[i], m2[i])
  }

  /** The stop test depends on index 0 alone: lists that agree there get the
      same answer whatever they hold elsewhere. */
  lemma CheckStopReadsOnlyFirst(m1: seq<Centroid>, m2: seq<Centroid>, n1: seq<Centroid>, n2: seq<Centroid>)
    requires |m1| > 0 && |m2| > 0 && |n1| > 0 && |n2| > 0
    requires m1[0] == n1[0] && m2[0] == n2[0]
    ensures CheckStop(m1, m2) == CheckStop(n1, n2)
  {
  }

  /** All means in place implies the stop test holds ... */
  lemma SameMeansStops(m1: seq<Centroid>, m2: seq<Centroid>)
    requires |m1| > 0 && SameMeans(m1, m2)
    ensures CheckStop(m1, m2)
  {
  }

  /** ... but not the other way round: a move of any mean other than the
      first goes unnoticed. */
  lemma CheckStopMissesOtherMeans()
    ensures exists m1: seq<Centroid>, m2: seq<Centroid> ::
      |m1| == |m2| == 2 && Indexed(m1) && Indexed(m2) && CheckStop(m1, m2) && !SameMeans(m1, m2)
  {
    var m1 := [Finite(0.0, 0.0, 0), Finite(1.0, 1.0, 1)];
    var m2 := [Finite(0.0, 0.0, 0), Finite(5.0, 5.0, 1)];
    assert !SamePosition(m1[1], m2[1]);
    assert CheckStop(m1, m2) && !SameMeans(m1, m2);
  }

  /** A NaN first mean never passes the stop test, not even against itself. */
  lemma CheckStopNaNFirst(m1: seq<Centroid>, m2: seq<Centroid>)
    requires |m1| > 0 && |m2| > 0
    requires m1[0].NaN? || m2[0].NaN?
    ensures !CheckStop(m1, m2)
  {
  }

  // ----- the run -----

  datatype Outcome = Outcome(points: seq<Sample>, means: seq<Centroid>, rounds: nat, converged: bool)

  /** At most `n` rounds of assignment and recomputation from `ps` and
      `means`. A round whose recomputed means pass the stop test ends the run
      and keeps the means it started from; otherwise the recomputed means
      replace them. `rounds` counts the rounds run, `converged` says the stop
      test ended the run. */
  function Run(ps: seq<Sample>, means: seq<Centroid>, k: nat, n: int): (r: Outcome)
    requires |means| == k && (n > 0 ==> k >= 1)
    ensures |r.points| == |ps| && |r.means| == k
    ensures r.rounds <= (if n > 0 then n else 0)
    ensures n > 0 ==> r.rounds >= 1
    ensures !r.converged ==> r.rounds == (if n > 0 then n else 0)
    decreases n
  {
    if n <= 0 then Outcome(ps, means, 0, false)
    else
      var relabelled := Assign(ps, means);
      var next := Recompute(relabelled, k);
      if CheckStop(means, next) then Outcome(relabelled, means, 1, true)
      else
        var r := Run(relabelled, next, k, n - 1);
        r.(rounds := r.rounds + 1)
  }

  /** Adds `n` earlier rounds to the count of an outcome. */
  function After(r: Outcome, n: nat): Outcome
  {
    r.(rounds := r.rounds + n)
  }

  /** One round of the run, unfolded. */
  lemma RunStep(ps: seq<Sample>, means: seq<Centroid>, k: nat, n: int, next: seq<Centroid>)
    requires |means| == k && n > 0 && k >= 1
    requires next == Recompute(Assign(ps, means), k)
    ensures CheckStop(means, next) ==> Run(ps, means, k, n) == Outcome(Assign(ps, means), means, 1, true)
    ensures !CheckStop(means, next) ==> Run(ps, means, k, n) == After(Run(Assign(ps, means), next, k, n - 1), 1)
  {
  }

  /** No round leaves the means as they were before the run. */
  lemma RunZeroRounds(ps: seq<Sample>, means: seq<Centroid>, k: nat, n: int)
    requires |means| == k && n <= 0
    ensures Run(ps, means, k, n) == Outcome(ps, means, 0, false)
  {
  }

  /** The run keeps the points, their order and their coordinates, and keeps
      label equal to index in the means. */
  lemma {:induction false} RunKeepsShape(ps: seq<Sample>, means: seq<Centroid>, k: nat, n: int)
    requires |means| == k && (n > 0 ==> k >= 1)
    requires Indexed(means)
    ensures var r := Run(ps, means, k, n);
      Indexed(r.means) &&
      forall i :: 0 <= i < |ps| ==> r.points[i].x == ps[i].x && r.points[i].y == ps[i].y
    decreases n
  {
    if n > 0 {
      var relabelled := Assign(ps, means);
      var next := Recompute(relabelled, k);
      if !CheckStop(means, next) {
        RunKeepsShape(relabelled, next, k, n - 1);
      }
    }
  }

  /** After at least one round every label is in 0..k-1. */
  lemma {:induction false} RunLabelsInRange(ps: seq<Sample>, means: seq<Centroid>, k: nat, n: int)
    requires |means| == k && n > 0 && k >= 1
    requires Indexed(means) && (HasFinite(means) || ClustersIn(ps, k))
    ensures ClustersIn(Run(ps, means, k, n).points, k)
    decreases n
  {
    var relabelled := Assign(ps, means);
    var next := Recompute(relabelled, k);
    AssignInRange(ps, means);
    if !CheckStop(means, next) && n > 1 {
      RunLabelsInRange(relabelled, next, k, n - 1);
    }
  }

  /** What the means hold when the run ends: after a stop, means whose
      recomputation from the final labels passes the stop test; after the
      last round of the budget, exactly the means recomputed from the final
      labels. */
  lemma {:induction false} RunFinalMeans(ps: seq<Sample>, means: seq<Centroid>, k: nat, n: int)
    requires |means| == k && n > 0 && k >= 1
    ensures var r := Run(ps, means, k, n);
      (r.converged ==> CheckStop(r.means, Recompute(r.points, k))) &&
      (!r.converged ==> r.means == Recompute(r.points, k))
    decreases n
  {
    var relabelled := Assign(ps, means);
    var next := Recompute(relabelled, k);
    if !CheckStop(means, next) && n > 1 {
      RunFinalMeans(relabelled, next, k, n - 1);
    }
  }

  /** Means that reproduce themselves from their own assignment do so again
      in the following round: a fixed point stays fixed. */
  lemma FixedPointStable(ps: seq<Sample>, means: seq<Centroid>, k: nat)
    requires Recompute(Assign(ps, means), k) == means
    ensures Recompute(Assign(Assign(ps, means), means), k) == means
  {
    AssignIdempotent(ps, means);
  }

  /** When a run ends because the stop test held, one more round from the
      state it ends in relabels nothing and stops at once, keeping the same
      means. This holds for the state a run actually stops in, even though
      the test looks at mean 0 only and the other kept means may differ from
      those the final labels give. */
  lemma {:induction false} StopIsStable(ps: seq<Sample>, means: seq<Centroid>, k: nat, n: int)
    requires |means| == k && n > 0 && k >= 1
    ensures var r := Run(ps, means, k, n);
      r.converged ==> Run(r.points, r.means, k, 1) == Outcome(r.points, r.means, 1, true)
    decreases n
  {
    var relabelled := Assign(ps, means);
    var next := Recompute(relabelled, k);
    if CheckStop(means, next) {
      AssignIdempotent(ps, means);
    } else if n > 1 {
      StopIsStable(relabelled, next, k, n - 1);
    }
  }

  /** One cluster over the corners of the square [0, 2] x [0, 2], starting
      from a mean drawn in [0, 1) x [0, 1): the first round moves the mean to
      (1, 1), the second finds it in place and stops. */
  lemma SingleClusterConverges(a: real, b: real)
    requires 0.0 <= a < 1.0 && 0.0 <= b < 1.0
    ensures var ps := [Sample(0.0, 0.0, -1), Sample(2.0, 0.0, -1), Sample(0.0, 2.0, -1), Sample(2.0, 2.0, -1)];
      Run(ps, [Finite(a, b, 0)], 1, 10) ==
        Outcome(Assign(ps, [Finite(a, b, 0)]), [Finite(1.0, 1.0, 0)], 2, true)
  {
    var ps := [Sample(0.0, 0.0, -1), Sample(2.0, 0.0, -1), Sample(0.0, 2.0, -1), Sample(2.0, 2.0, -1)];
    var m0 := [Finite(a, b, 0)];
    var m1 := [Finite(1.0, 1.0, 0)];
    var labelled := [Sample(0.0, 0.0, 0), Sample(2.0, 0.0, 0), Sample(0.0, 2.0, 0), Sample(2.0, 2.0, 0)];
    forall i | 0 <= i < 4 ensures Assign(ps, m0)[i] == labelled[i] {
      assert Nearest(ps[i].x, ps[i].y, m0).Some?;
    }
    assert Assign(ps, m0) == labelled;
    forall i | 0 <= i < 4 ensures Assign(labelled, m1)[i] == labelled[i] {
      assert Nearest(labelled[i].x, labelled[i].y, m1).Some?;
    }
    assert Assign(labelled, m1) == labelled;
    MeanOfSquareCorners(labelled);
    assert Recompute(labelled, 1) == m1;
    assert !CheckStop(m0, m1);
    RunStep(ps, m0, 1, 10, m1);
    RunStep(labelled, m1, 1, 9, m1);
  }

  lemma MeanOfSquareCorners(ps: seq<Sample>)
    requires ps == [Sample(0.0, 0.0, 0), Sample(2.0, 0.0, 0), Sample(0.0, 2.0, 0), Sample(2.0, 2.0, 0)]
    ensures MeanOf(ps, 0) == Finite(1.0, 1.0, 0)
  {
    assert ps[..0] == [] && ps[..4] == ps;
    TallyStep(ps, 0, 0);
    TallyStep(ps, 1, 0);
    TallyStep(ps, 2, 0);
    TallyStep(ps, 3, 0);
  }
}
