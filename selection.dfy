/** Nearest-neighbour selection: the indices of the k rows with the smallest distances,
    nearest first.

    Equal distances are ordered by ascending row index, so the selection is one fixed,
    deterministic list (the unstable `argpartition`/`argsort` pair fixes no order among ties). */
module Selection {

  /** Row `i` ranks before row `j`: strictly closer, or equally close with a lower row index. */
  predicate Before(dist: seq<real>, i: nat, j: nat)
    requires i < |dist| && j < |dist|
  {
    dist[i] < dist[j] || (dist[i] == dist[j] && i < j)
  }

  /** Every entry of `s` is a row index. */
  predicate InRange(dist: seq<real>, s: seq<nat>) {
    forall p :: 0 <= p < |s| ==> s[p] < |dist|
  }

  /** Each row of `s` ranks before every row listed after it (so `s` has no repeats). */
  predicate Ranked(dist: seq<real>, s: seq<nat>)
    requires InRange(dist, s)
  {
    forall p, q :: 0 <= p < q < |s| ==> Before(dist, s[p], s[q])
  }

  /** `s` lists the |s| nearest rows, nearest first: it is ranked, and every listed row
      ranks before every row that is not listed. */
  predicate IsNearest(dist: seq<real>, s: seq<nat>) {
    && InRange(dist, s)
    && Ranked(dist, s)
    && forall p, i :: 0 <= p < |s| && 0 <= i < |dist| && i !in s ==> Before(dist, s[p], i)
  }

  /** Inserts row `x` into a ranked list at its place. */
  function Insert(dist: seq<real>, x: nat, s: seq<nat>): (r: seq<nat>)
    requires x < |dist| && InRange(dist, s) && Ranked(dist, s) && x !in s
    ensures |r| == |s| + 1
    ensures forall e :: e in r <==> e == x || e in s
    ensures InRange(dist, r) && Ranked(dist, r)
  {
    if s == [] || Before(dist, x, s[0]) then [x] + s
    else
      var rest := Insert(dist, x, s[1..]);
      assert forall e :: e in rest ==> Before(dist, s[0], e) by {
        forall e | e in rest ensures Before(dist, s[0], e) {
          if e != x {
            var q :| 0 <= q < |s[1..]| && s[1..][q] == e;
            assert s[q + 1] == e;
          }
        }
      }
      [s[0]] + rest
  }

  /** Rows `0 .. m-1`, ranked. */
  function RankPrefix(dist: seq<real>, m: nat): (r: seq<nat>)
    requires m <= |dist|
    ensures |r| == m && InRange(dist, r) && Ranked(dist, r)
    ensures forall e: nat :: e in r <==> e < m
  {
    if m == 0 then [] else Insert(dist, m - 1, RankPrefix(dist, m - 1))
  }

  /** Every row, ranked: the full argsort with the row-index tie-break. */
  function Ranking(dist: seq<real>): (r: seq<nat>)
    ensures |r| == |dist| && InRange(dist, r) && Ranked(dist, r)
    ensures forall e: nat :: e in r <==> e < |dist|
  {
    RankPrefix(dist, |dist|)
  }

  /** Any prefix of the ranking lists the nearest rows. */
  lemma RankingPrefixIsNearest(dist: seq<real>, k: nat)
    requires k <= |dist|
    ensures IsNearest(dist, Ranking(dist)[..k])
  {
    var r := Ranking(dist);
    var s := r[..k];
    forall p, i | 0 <= p < k && 0 <= i < |dist| && i !in s
      ensures Before(dist, s[p], i)
    {
      assert i in r;
      var q :| 0 <= q < |r| && r[q] == i;
    }
  }

  /** The selection `idx = argpartition(d, k-1)[:k]` followed by `idx[argsort(d[idx])]`:
      exactly k distinct rows, nearest first, none farther than a row left out. */
  function Nearest(dist: seq<real>, k: nat): (r: seq<nat>)
    requires k <= |dist|
    ensures |r| == k && IsNearest(dist, r)
    ensures forall p, q :: 0 <= p < q < k ==> r[p] != r[q]
    ensures forall p, q :: 0 <= p < q < k ==> dist[r[p]] <= dist[r[q]]
    ensures forall p, i :: 0 <= p < k && 0 <= i < |dist| && i !in r ==> dist[r[p]] <= dist[i]
  {
    RankingPrefixIsNearest(dist, k);
    Ranking(dist)[..k]
  }

  /** A listed row ranks before every row that is not listed in front of it. */
  lemma RanksBeforeLater(dist: seq<real>, s: seq<nat>, p: nat, x: nat)
    requires IsNearest(dist, s) && p < |s| && x < |dist|
    requires x != s[p] && x !in s[..p]
    ensures Before(dist, s[p], x)
  {
    if x in s {
      var q :| 0 <= q < |s| && s[q] == x;
    }
  }

  /** The contract of `Nearest` fixes the selection: any list of k nearest rows, nearest
      first, is the same list, whatever algorithm produced it. */
  lemma {:induction false} NearestIsUnique(dist: seq<real>, s: seq<nat>, t: seq<nat>)
    requires IsNearest(dist, s) && IsNearest(dist, t) && |s| == |t|
    ensures s == t
  {
    var p := 0;
    while p < |s|
      invariant p <= |s|
      invariant s[..p] == t[..p]
    {
      if s[p] != t[p] {
        assert t[p] !in s[..p] by { assert s[..p] == t[..p]; }
        assert s[p] !in t[..p] by { assert s[..p] == t[..p]; }
        RanksBeforeLater(dist, s, p, t[p]);
        RanksBeforeLater(dist, t, p, s[p]);
        assert false;
      }
      assert s[..p + 1] == s[..p] + [s[p]];
      assert t[..p + 1] == t[..p] + [t[p]];
      p := p + 1;
    }
    assert s == s[..p] && t == t[..p];
  }

  /** Partial selection over the distance array: k passes, each picking the nearest row
      not yet chosen, for O(n * k) work instead of a full sort. */
  method SelectNearest(dist: array<real>, k: nat) returns (idx: seq<nat>)
    requires k <= dist.Length
    ensures idx == Nearest(dist[..], k)
  {
    var n := dist.Length;
    var taken := new bool[n](_ => false);
    idx := [];
    while |idx| < k
      invariant |idx| <= k
      invariant idx == Nearest(dist[..], |idx|)
      invariant forall i :: 0 <= i < n ==> (taken[i] <==> i in idx)
    {
      var best := -1;
      for j := 0 to n
        invariant best == -1 || (0 <= best < j && !taken[best])
        invariant best == -1 ==> forall i :: 0 <= i < j ==> taken[i]
        invariant best != -1 ==> forall i :: 0 <= i < j && !taken[i] && i != best ==> Before(dist[..], best, i)
      {
        if !taken[j] && (best == -1 || dist[j] < dist[best]) {
          best := j;
        }
      }
      NextIsNearest(dist[..], idx, best);
      taken[best] := true;
      idx := idx + [best];
    }
  }

  /** The step of `SelectNearest`: the nearest row not yet chosen extends the selection. */
  lemma NextIsNearest(dist: seq<real>, chosen: seq<nat>, best: int)
    requires |chosen| < |dist| && chosen == Nearest(dist, |chosen|)
    requires best == -1 ==> forall i :: 0 <= i < |dist| ==> i in chosen
    requires best != -1 ==> 0 <= best < |dist| && best !in chosen
    requires best != -1 ==> forall i :: 0 <= i < |dist| && i !in chosen && i != best ==> Before(dist, best, i)
    ensures 0 <= best < |dist| && chosen + [best] == Nearest(dist, |chosen| + 1)
  {
    var r := Ranking(dist);
    var t := |chosen|;
    assert chosen == r[..t];
    assert r[t] !in chosen;
    var b: nat := best;
    assert b in r;
    assert r[..t + 1] == r[..t] + [r[t]];
  }
}
