/** The k-means engine: the data points, the current means, and the steps
    of Lloyd's iteration that change them. */
module Engine {
  import opened Points
  import opened Lloyd

  /** The values the points of `ps` hold right now. */
  function Snapshot(ps: seq<Point>): (s: seq<Sample>)
    reads ps
    ensures |s| == |ps|
    ensures forall i :: 0 <= i < |ps| ==> s[i] == ps[i].Value()
  {
    seq(|ps|, i requires 0 <= i < |ps| reads ps => ps[i].Value())
  }

  class Kmeans {
    /** Number of clusters. */
    const k: nat
    /** Largest number of rounds `Compute` runs. */
    const rounds: int
    /** The data points, in input order. */
    var data: seq<Point>
    /** The current means; mean `i` carries label `i`. */
    var means: seq<Centroid>

    /** Exactly `k` means, mean `i` labelled `i`, and no data point listed
        twice (each one is a separate object). */
    ghost predicate Valid()
      reads this
    {
      |means| == k && Indexed(means) &&
      forall a, b :: 0 <= a < b < |data| ==> data[a] != data[b]
    }

    ghost function Points(): seq<Sample>
      reads this`data, data
    {
      Snapshot(data)
    }

    /** Every data point carries a label in 0..k-1. */
    ghost predicate Labelled()
      reads this`data, data
    {
      forall j :: 0 <= j < |data| ==> 0 <= data[j].cluster < k
    }

    /** `k` means, the i-th at the i-th pair of `draws` (the two draws of the
        random source for it, each in [0, 1)) and labelled `i`; no data. */
    constructor (k: nat, rounds: int, draws: seq<(real, real)>)
      requires |draws| == k
      requires forall i :: 0 <= i < k ==> 0.0 <= draws[i].0 < 1.0 && 0.0 <= draws[i].1 < 1.0
      ensures Valid() && this.k == k && this.rounds == rounds && data == []
      ensures forall i :: 0 <= i < k ==> means[i] == Finite(draws[i].0, draws[i].1, i)
    {
      this.k := k;
      this.rounds := rounds;
      data := [];
      means := [];
      new;
      var i := 0;
      while i < k
        invariant 0 <= i <= k
        invariant |means| == i && data == []
        invariant forall j :: 0 <= j < i ==> means[j] == Finite(draws[j].0, draws[j].1, j)
      {
        means := means + [Finite(draws[i].0, draws[i].1, i)];
        i := i + 1;
      }
    }

    /** Appends one new, unlabelled point per parsed (x, y) pair. */
    method LoadData(coords: seq<(real, real)>)
      requires Valid()
      modifies this
      ensures Valid() && means == old(means)
      ensures |data| == old(|data|) + |coords| && data[..old(|data|)] == old(data)
      ensures forall j :: old(|data|) <= j < |data| ==> fresh(data[j])
      ensures Points() == old(Points()) +
        seq(|coords|, i requires 0 <= i < |coords| => Sample(coords[i].0, coords[i].1, -1))
    {
      ghost var before := Points();
      var i := 0;
      while i < |coords|
        invariant 0 <= i <= |coords|
        invariant Valid() && means == old(means)
        invariant |data| == old(|data|) + i && data[..old(|data|)] == old(data)
        invariant forall j :: old(|data|) <= j < |data| ==> fresh(data[j])
        invariant forall j :: 0 <= j < old(|data|) ==> data[j].Value() == before[j]
        invariant forall j :: 0 <= j < i ==>
          data[old(|data|) + j].Value() == Sample(coords[j].0, coords[j].1, -1)
      {
        var p := new Point(coords[i].0, coords[i].1);
        data := data + [p];
        i := i + 1;
      }
    }

    /** The assignment pass: every data point takes the label of the mean
        nearest to it; only labels change. */
    method UpdateLabel()
      requires Valid()
      modifies data
      ensures Valid()
      ensures Points() == Assign(old(Points()), means)
    {
      var i := 0;
      while i < |data|
        invariant 0 <= i <= |data|
        invariant forall j :: 0 <= j < i ==> data[j].Value() == Reassign(old(data[j].Value()), means)
        invariant forall j :: i <= j < |data| ==> data[j].Value() == old(data[j].Value())
      {
        var point := data[i];
        ghost var p := point.Value();
        var found, dis := false, 0.0;
        var m := 0;
        while m < |means|
          modifies point
          invariant 0 <= m <= |means|
          invariant point.x == p.x && point.y == p.y
          invariant found <==> Nearest(p.x, p.y, means[..m]).Some?
          invariant found ==> dis == DistTo(p.x, p.y, means[Nearest(p.x, p.y, means[..m]).value])
          invariant point.cluster == AssignedCluster(p, means[..m])
        {
          assert means[..m + 1][..m] == means[..m];
          var mean := means[m];
          if mean.Finite? {
            var distance := SqDistance(point.x, point.y, mean.x, mean.y);
            if !found || distance < dis {
              dis := distance;
              point.cluster := mean.cluster;
              found := true;
            }
          }
          m := m + 1;
        }
        assert means[..|means|] == means;
        i := i + 1;
      }
    }

    /** The recomputed means: for each label, the mean of the points carrying
        it (NaN for a label no point carries). Changes nothing. */
    method NewMeans() returns (r: seq<Centroid>)
      requires Valid() && Labelled()
      ensures r == Recompute(Points(), k)
    {
      ghost var ps := Points();
      var sumX := new real[k](_ => 0.0);
      var sumY := new real[k](_ => 0.0);
      var count := new nat[k](_ => 0);
      var j := 0;
      while j < |data|
        invariant 0 <= j <= |data|
        invariant forall c :: 0 <= c < k ==> sumX[c] == Sum(ps[..j], c, X)
        invariant forall c :: 0 <= c < k ==> sumY[c] == Sum(ps[..j], c, Y)
        invariant forall c :: 0 <= c < k ==> count[c] == Count(ps[..j], c)
      {
        var point := data[j];
        var c := point.cluster;
        assert ps[j] == Sample(point.x, point.y, c);
        sumX[c] := sumX[c] + point.x;
        sumY[c] := sumY[c] + point.y;
        count[c] := count[c] + 1;
        forall c' | 0 <= c' < k
          ensures sumX[c'] == Sum(ps[..j + 1], c', X)
          ensures sumY[c'] == Sum(ps[..j + 1], c', Y)
          ensures count[c'] == Count(ps[..j + 1], c')
        {
          TallyStep(ps, j, c');
        }
        j := j + 1;
      }
      assert ps[..|data|] == ps;
      r := [];
      var i := 0;
      while i < k
        invariant 0 <= i <= k
        invariant |r| == i && forall c :: 0 <= c < i ==> r[c] == MeanOf(ps, c)
      {
        var mean := if count[i] == 0 then NaN(i)
                    else Finite(sumX[i] / count[i] as real, sumY[i] / count[i] as real, i);
        r := r + [mean];
        i := i + 1;
      }
    }

    /** One round of the iteration: assignment, recomputation, stop test;
        the means are replaced unless the test holds. */
    method Round() returns (stop: bool)
      requires Valid() && k >= 1 && (HasFinite(means) || Labelled())
      modifies this, data
      ensures Valid() && data == old(data) && Labelled()
      ensures Points() == Assign(old(Points()), old(means))
      ensures stop == CheckStop(old(means), Recompute(Points(), k))
      ensures means == if stop then old(means) else Recompute(Points(), k)
    {
      ghost var ps := Points();
      assert Labelled() ==> ClustersIn(ps, k);
      AssignInRange(ps, means);
      UpdateLabel();
      ghost var relabelled := Points();
      assert ClustersIn(relabelled, k);
      assert Labelled();
      var next := NewMeans();
      assert relabelled == Points();
      stop := CheckStop(means, next);
      if !stop {
        means := next;
      }
    }

    /** Lloyd's iteration: at most `rounds` rounds of assignment and
        recomputation, stopping early when the stop test holds (the means
        are then kept), otherwise replacing the means by the recomputed
        ones. `executed` counts the rounds and `converged` says the stop
        test ended the loop. */
    method Compute() returns (ghost executed: nat, ghost converged: bool)
      requires Valid()
      requires rounds > 0 ==> k >= 1 && (HasFinite(means) || Labelled())
      modifies this, data
      ensures Valid() && data == old(data)
      ensures Outcome(Points(), means, executed, converged) == Run(old(Points()), old(means), k, rounds)
    {
      ghost var cur := Points();
      ghost var total := Run(cur, means, k, rounds);
      var i := 0;
      executed, converged := 0, false;
      while i < rounds
        invariant 0 <= i && (rounds > 0 ==> i <= rounds)
        invariant Valid() && data == old(data)
        invariant cur == Points()
        invariant rounds > 0 ==> k >= 1 && (HasFinite(means) || Labelled())
        invariant total == After(Run(cur, means, k, rounds - i), i)
      {
        ghost var ms := means;
        var stop := Round();
        RunStep(cur, ms, k, rounds - i, Recompute(Points(), k));
        cur := Points();
        if stop {
          executed, converged := i + 1, true;
          return;
        }
        i := i + 1;
      }
      executed := i;
    }
  }
}
