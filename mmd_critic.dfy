/**
 * Greedy prototype selection with MMD-critic: an `MMDCritic` holds a data set
 * and a `CachedMMD` over it, and `SelectPrototypes` adds, round by round, the
 * data point whose addition to the chosen prototypes scores best.
 */
module Critic {
  import opened Results
  import opened NdArrays
  import Mmd

  /** The best cost seen so far in a scan: minus infinity before the first candidate. */
  datatype Bound = NegInf | Finite(value: real) {
    /** `c > cur_max`. */
    predicate Below(c: real) {
      match this
      case NegInf => true
      case Finite(v) => c > v
    }
  }

  /** Every chosen index designates a row of a data set of `m` rows. */
  predicate InRange(picks: seq<nat>, m: nat) {
    forall t :: 0 <= t < |picks| ==> picks[t] < m
  }

  /** No index occurs twice. */
  predicate Distinct(picks: seq<nat>) {
    forall s, t :: 0 <= s < t < |picks| ==> picks[s] != picks[t]
  }

  /** The indices 0 .. m - 1. */
  function Range(m: nat): (r: set<nat>)
    ensures |r| == m
    ensures forall j: nat :: j in r <==> j < m
  {
    if m == 0 then {} else Range(m - 1) + {m - 1}
  }

  /** A subset has no more elements than its superset. */
  lemma {:induction false} SubsetCard(a: set<nat>, b: set<nat>)
    requires a <= b
    ensures |a| <= |b|
    decreases |a|
  {
    if a != {} {
      var x :| x in a;
      SubsetCard(a - {x}, b - {x});
    }
  }

  /** A set of fewer than m indices leaves some index below m out. */
  lemma Pigeonhole(selected: set<nat>, m: nat)
    requires |selected| < m
    ensures exists j: nat :: j < m && j !in selected
  {
    if forall j: nat :: j < m ==> j in selected {
      assert Range(m) <= selected;
      SubsetCard(Range(m), selected);
    }
  }

  /**
   * The index one scan keeps: not excluded, with a cost no other admissible
   * index exceeds, and strictly above the cost of every admissible index
   * before it (the scan replaces its best only on a strictly larger cost).
   */
  predicate FirstMax(costs: seq<real>, excluded: seq<nat>, p: nat) {
    p < |costs| && p !in excluded &&
    (forall i :: 0 <= i < |costs| && i !in excluded ==> costs[i] <= costs[p]) &&
    (forall i :: 0 <= i < p && i !in excluded ==> costs[i] < costs[p])
  }

  /** A scan has at most one outcome: arg-max with ties broken towards the lowest index. */
  lemma FirstMaxUnique(costs: seq<real>, excluded: seq<nat>, p: nat, q: nat)
    requires FirstMax(costs, excluded, p) && FirstMax(costs, excluded, q)
    ensures p == q
  {
  }

  /**
   * The state of a scan after the indices below i: with no admissible index
   * seen the best is still minus infinity; otherwise `index` is the first
   * admissible index seen whose cost is maximal so far, and `best` its cost.
   */
  predicate ScanInv(costs: seq<real>, excluded: seq<nat>, i: nat, best: Bound, index: nat) {
    i <= |costs| &&
    (best.NegInf? ==> forall j: nat :: j < i ==> j in excluded) &&
    (best.Finite? ==>
      index < i && index !in excluded && best.value == costs[index] &&
      (forall j :: 0 <= j < i && j !in excluded ==> costs[j] <= best.value) &&
      (forall j :: 0 <= j < index && j !in excluded ==> costs[j] < best.value))
  }

  /** One step of the scan keeps its state: an excluded index is skipped, a strictly larger cost takes over. */
  lemma ScanStep(costs: seq<real>, excluded: seq<nat>, i: nat, best: Bound, index: nat)
    requires i < |costs| && ScanInv(costs, excluded, i, best, index)
    ensures i in excluded ==> ScanInv(costs, excluded, i + 1, best, index)
    ensures i !in excluded && best.Below(costs[i]) ==> ScanInv(costs, excluded, i + 1, Finite(costs[i]), i)
    ensures i !in excluded && !best.Below(costs[i]) ==> ScanInv(costs, excluded, i + 1, best, index)
  {
  }

  /** A finished scan that met an admissible index has found the first maximum. */
  lemma ScanDone(costs: seq<real>, excluded: seq<nat>, best: Bound, index: nat)
    requires ScanInv(costs, excluded, |costs|, best, index)
    requires exists j: nat :: j < |costs| && j !in excluded
    ensures FirstMax(costs, excluded, index)
  {
  }

  class MMDCritic {
    const X: seq<Row>
    const mmd: Mmd.CachedMMD
    const bias: real

    /**
     * The data set is a table of equal-length rows, the MMD object caches over
     * that data set, and the additive bias is `mmd([])`.
     */
    predicate Valid() {
      IsTable(X) && mmd.X == AsArray(X) && mmd.Valid() && mmd.Call(EmptyList) == Ok(bias)
    }

    constructor (X: seq<Row>, mmd: Mmd.CachedMMD)
      requires IsTable(X) && mmd.X == AsArray(X) && mmd.Valid()
      ensures Valid()
      ensures this.X == X && this.mmd == mmd
    {
      this.X := X;
      this.mmd := mmd;
      this.bias := mmd.Call(EmptyList).value;
    }

    /**
     * `MMDCritic(X, kernel, sigma=...)`: builds the cached MMD over X, whose only
     * possible failure on a table is the kernel choice, then takes the bias.
     */
    static method Create(X: seq<Row>, name: string, sigma: Option<real>, exp: real -> real) returns (r: Result<MMDCritic>)
      requires IsTable(X)
      ensures r.Ok? <==> Mmd.NewKernel(name, sigma, exp).Ok?
      ensures r.Err? ==> r.error == Mmd.NewKernel(name, sigma, exp).error
      ensures r.Ok? ==> fresh(r.value) && r.value.Valid()
      ensures r.Ok? ==> r.value.X == X && r.value.mmd.kernel == Mmd.NewKernel(name, sigma, exp).value
    {
      var m := Mmd.CachedMMD.Create(AsArray(X), name, sigma, exp);
      if m.Err? {
        return Err(m.error);
      }
      var c := new MMDCritic(X, m.value);
      return Ok(c);
    }

    /** The additive bias is the cached mean of K(X, X), which is zero for a data set without entries. */
    lemma BiasIsCachedMean()
      requires Valid()
      ensures bias == mmd.meanKXX
      ensures bias == if |X| == 0 || Width(X) == 0 then 0.0 else Mmd.KMean(mmd.kernel, X, X)
    {
    }

    /**
     * `_prototype_cost(S)` = bias - mmd(S) for prototypes S drawn from the data
     * set: the MMD-critic objective 2 mean K(X, S) - mean K(S, S), and zero when
     * S or the feature vectors are empty.
     */
    function PrototypeCost(S: seq<Row>): (c: real)
      requires Valid()
      requires Rectangular(S, Width(X))
      ensures c == if |S| == 0 || Width(X) == 0 then 0.0
                   else 2.0 * Mmd.KMean(mmd.kernel, X, S) - Mmd.KMean(mmd.kernel, S, S)
    {
      assert IsTable(S) by {
        if |S| > 0 {
          assert Width(S) == |S[0]| == Width(X);
        }
      }
      var m := mmd.Call(AsArray(S));
      assert m.Ok?;
      bias - m.value
    }

    /** The rows of the data set at the chosen indices, in choosing order. */
    function RowsAt(picks: seq<nat>): (rows: seq<Row>)
      requires InRange(picks, |X|)
      ensures |rows| == |picks|
      ensures forall t :: 0 <= t < |picks| ==> rows[t] == X[picks[t]]
    {
      seq(|picks|, t requires 0 <= t < |picks| => X[picks[t]])
    }

    /** The cost of adding row j to the prototypes already chosen. */
    function CandidateCost(chosen: seq<nat>, j: nat): real
      requires Valid()
      requires InRange(chosen, |X|) && j < |X|
    {
      var S := RowsAt(chosen) + [X[j]];
      assert Rectangular(S, Width(X)) by {
        forall t | 0 <= t < |S|
          ensures |S[t]| == Width(X)
        {
          if t < |chosen| {
            assert S[t] == X[chosen[t]];
          }
        }
      }
      PrototypeCost(S)
    }

    /** The candidate costs of every row, given the prototypes already chosen. */
    function Costs(chosen: seq<nat>): (costs: seq<real>)
      requires Valid()
      requires InRange(chosen, |X|)
      ensures |costs| == |X|
    {
      seq(|X|, j requires 0 <= j < |X| => CandidateCost(chosen, j))
    }

    /** What one round picks after `chosen`: the first unchosen index of maximal cost. */
    predicate GreedyChoice(chosen: seq<nat>, p: nat)
      requires Valid()
      requires InRange(chosen, |X|)
    {
      FirstMax(Costs(chosen), chosen, p)
    }

    /** Every pick is the greedy choice after the picks before it. */
    predicate IsGreedyRun(picks: seq<nat>)
      requires Valid()
    {
      InRange(picks, |X|) &&
      forall t :: 0 <= t < |picks| ==> GreedyChoice(picks[..t], picks[t])
    }

    /** A prefix of a greedy run is a greedy run. */
    lemma GreedyRunPrefix(picks: seq<nat>, n: nat)
      requires Valid() && IsGreedyRun(picks) && n <= |picks|
      ensures IsGreedyRun(picks[..n])
    {
      forall t | 0 <= t < n
        ensures GreedyChoice(picks[..n][..t], picks[..n][t])
      {
        assert picks[..n][..t] == picks[..t];
      }
    }

    /** A greedy run followed by the greedy choice after it is a greedy run. */
    lemma GreedyRunExtend(picks: seq<nat>, p: nat)
      requires Valid() && IsGreedyRun(picks) && GreedyChoice(picks, p)
      ensures IsGreedyRun(picks + [p])
    {
      var longer := picks + [p];
      forall t | 0 <= t < |longer|
        ensures GreedyChoice(longer[..t], longer[t])
      {
        if t == |picks| {
          assert longer[..t] == picks;
        } else {
          assert longer[..t] == picks[..t];
        }
      }
    }

    /** A non-empty greedy run is a greedy run followed by the greedy choice after it. */
    lemma GreedyRunLast(picks: seq<nat>)
      requires Valid() && IsGreedyRun(picks) && |picks| > 0
      ensures IsGreedyRun(picks[..|picks| - 1])
      ensures InRange(picks[..|picks| - 1], |X|)
      ensures GreedyChoice(picks[..|picks| - 1], picks[|picks| - 1])
      ensures picks == picks[..|picks| - 1] + [picks[|picks| - 1]]
    {
      GreedyRunPrefix(picks, |picks| - 1);
    }

    /** Two greedy runs of the same length pick the same indices in the same order. */
    lemma {:induction false} GreedyRunUnique(a: seq<nat>, b: seq<nat>)
      requires Valid()
      requires IsGreedyRun(a) && IsGreedyRun(b) && |a| == |b|
      ensures a == b
    {
      if |a| > 0 {
        var n := |a| - 1;
        GreedyRunLast(a);
        GreedyRunLast(b);
        GreedyRunUnique(a[..n], b[..n]);
        FirstMaxUnique(Costs(a[..n]), a[..n], a[n], b[n]);
      }
    }

    /** A greedy run never picks an index twice. */
    lemma GreedyRunDistinct(picks: seq<nat>)
      requires Valid() && IsGreedyRun(picks)
      ensures Distinct(picks)
    {
      forall s, t | 0 <= s < t < |picks|
        ensures picks[s] != picks[t]
      {
        assert GreedyChoice(picks[..t], picks[t]);
        assert picks[..t][s] == picks[s];
      }
    }

    /**
     * One round of `select_prototypes`: the scan over the rows not yet
     * selected, keeping the first whose cost is strictly larger than the best
     * so far (which starts at minus infinity).
     */
    method ScanRound(prototypes: seq<Row>, selected: set<nat>, ghost picks: seq<nat>) returns (index: nat, row: Row)
      requires Valid() && InRange(picks, |X|)
      requires prototypes == RowsAt(picks)
      requires forall j: nat :: j in selected <==> j in picks
      requires |selected| < |X|
      ensures GreedyChoice(picks, index)
      ensures row == X[index]
    {
      ghost var costs := Costs(picks);
      var best: Bound := NegInf;
      row, index := X[0], 0;
      for i := 0 to |X|
        invariant index < |X| && row == X[index]
        invariant ScanInv(costs, picks, i, best, index)
      {
        ScanStep(costs, picks, i, best, index);
        if i !in selected {
          var cost := PrototypeCost(prototypes + [X[i]]);
          assert cost == costs[i];
          if best.Below(cost) {
            best := Finite(cost);
            row, index := X[i], i;
          }
        }
      }
      Pigeonhole(selected, |X|);
      ScanDone(costs, picks, best, index);
    }

    /**
     * `select_prototypes(n)`: refuses a count outside 0 < n <= |X|; otherwise
     * runs n rounds and returns the chosen rows, in choosing order, as an
     * array. `picks` are the chosen indices.
     */
    method SelectPrototypes(n: int) returns (r: Result<NdArray>, ghost picks: seq<nat>)
      requires Valid()
      ensures r.Err? <==> n <= 0 || n > |X|
      ensures r.Err? ==> r.error == InvalidCount
      ensures r.Ok? ==> |picks| == n && IsGreedyRun(picks) && Distinct(picks)
      ensures r.Ok? ==> r.value.Mat? && |r.value.rows| == n && r.value.cols == Width(X)
      ensures r.Ok? ==> forall t :: 0 <= t < n ==> r.value.rows[t] == X[picks[t]]
    {
      picks := [];
      if n > |X| || n <= 0 {
        return Err(InvalidCount), picks;
      }
      var prototypes: seq<Row> := [];
      var selected: set<nat> := {};
      while |prototypes| < n
        invariant |prototypes| == |picks| <= n
        invariant IsGreedyRun(picks)
        invariant prototypes == RowsAt(picks)
        invariant forall j: nat :: j in selected <==> j in picks
        invariant |selected| == |picks|
        decreases n - |prototypes|
      {
        var index, row := ScanRound(prototypes, selected, picks);
        GreedyRunExtend(picks, index);
        assert RowsAt(picks + [index]) == prototypes + [row];
        prototypes := prototypes + [row];
        selected := selected + {index};
        picks := picks + [index];
      }
      GreedyRunDistinct(picks);
      r := Ok(AsArray(prototypes));
    }
  }
}
