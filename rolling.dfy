/** The per-group window statistics the feature scripts compute with pandas:
    `x.shift(1).rolling(w).mean()` and `x.ewm(alpha, adjust=False).mean()`,
    applied to one column inside `groupby(key).transform`. A missing value
    (NaN) is `None`. */
module Rolling {
  import opened Wrappers
  import opened Seqs

  /** Series.shift(1): every value moves one row down; the first row is NaN. */
  function Shift(xs: seq<real>): (ys: seq<Option<real>>)
    ensures |ys| == |xs|
    ensures |xs| > 0 ==> ys[0] == None
    ensures forall k :: 1 <= k < |xs| ==> ys[k] == Some(xs[k - 1])
  {
    seq(|xs|, k requires 0 <= k < |xs| => if k == 0 then None else Some(xs[k - 1]))
  }

  /** Every value is present. */
  predicate AllDefined(ys: seq<Option<real>>)
  {
    forall i :: 0 <= i < |ys| ==> ys[i].Some?
  }

  function Values(ys: seq<Option<real>>): (xs: seq<real>)
    requires AllDefined(ys)
    ensures |xs| == |ys|
  {
    seq(|ys|, i requires 0 <= i < |ys| => ys[i].value)
  }

  /** Present values as a series without gaps. */
  function Lift(xs: seq<real>): (ys: seq<Option<real>>)
    ensures |ys| == |xs|
  {
    seq(|xs|, i requires 0 <= i < |xs| => Some(xs[i]))
  }

  /** rolling(w).mean() at row k: the mean of rows k-w+1..k, NaN when the
      window is short or holds a NaN (pandas' default min_periods is w). */
  function WindowMean(ys: seq<Option<real>>, k: nat, w: nat): Option<real>
    requires 0 < w && k < |ys|
  {
    if k + 1 < w then None
    else
      var win := ys[k + 1 - w..k + 1];
      if AllDefined(win) then Some(Mean(Values(win))) else None
  }

  function RollingMean(ys: seq<Option<real>>, w: nat): (r: seq<Option<real>>)
    requires 0 < w
    ensures |r| == |ys|
  {
    seq(|ys|, k requires 0 <= k < |ys| => WindowMean(ys, k, w))
  }

  /** shift(1).rolling(w).mean() */
  function ShiftedRolling(xs: seq<real>, w: nat): (r: seq<Option<real>>)
    requires 0 < w
    ensures |r| == |xs|
  {
    RollingMean(Shift(xs), w)
  }

  /** The shifted rolling mean at row k is the mean of the w rows before k,
      and is missing for the first w rows: row k itself never contributes. */
  lemma ShiftedRollingAt(xs: seq<real>, w: nat, k: nat)
    requires 0 < w && k < |xs|
    ensures ShiftedRolling(xs, w)[k] == if k < w then None else Some(Mean(xs[k - w..k]))
  {
    var ys := Shift(xs);
    assert ShiftedRolling(xs, w)[k] == WindowMean(ys, k, w);
    if k >= w {
      var win := ys[k + 1 - w..k + 1];
      forall i | 0 <= i < |win|
        ensures win[i] == Some(xs[k - w + i])
      {
        assert win[i] == ys[k + 1 - w + i];
      }
      assert AllDefined(win);
      var v := Values(win);
      assert v == xs[k - w..k];
      assert WindowMean(ys, k, w) == Some(Mean(v));
    } else if k + 1 == w {
      assert ys[k + 1 - w..k + 1][0] == None;
    }
  }

  // ---------------------------------------------------------------------
  // Exponentially weighted mean, adjust=False

  /** The textbook recurrence over a gap-free series: the first value is the
      first observation, and each later one is (1 - alpha) * prev + alpha * x. */
  function Ewma(xs: seq<real>, alpha: real): (e: seq<real>)
    ensures |e| == |xs|
  {
    if |xs| <= 1 then xs
    else
      var p := Ewma(xs[..|xs| - 1], alpha);
      p + [Mix(p[|p| - 1], xs[|xs| - 1], alpha)]
  }

  /** One smoothing step: (1 - alpha) * prev + alpha * x. */
  function Mix(prev: real, x: real, alpha: real): real
  {
    (1.0 - alpha) * prev + alpha * x
  }

  /** The mean over a prefix is the prefix of the mean. */
  lemma {:induction false} EwmaPrefix(xs: seq<real>, alpha: real, n: nat)
    requires n <= |xs|
    ensures Ewma(xs[..n], alpha) == Ewma(xs, alpha)[..n]
    decreases |xs|
  {
    if n < |xs| {
      assert xs[..|xs| - 1][..n] == xs[..n];
      EwmaPrefix(xs[..|xs| - 1], alpha, n);
    } else {
      assert xs[..n] == xs;
    }
  }

  /** The recurrence, element by element. */
  lemma EwmaRecurrence(xs: seq<real>, alpha: real, k: nat)
    requires 0 < k < |xs|
    ensures Ewma(xs, alpha)[0] == xs[0]
    ensures Ewma(xs, alpha)[k] == Mix(Ewma(xs, alpha)[k - 1], xs[k], alpha)
  {
    EwmaPrefix(xs, alpha, k + 1);
    EwmaPrefix(xs, alpha, 1);
    assert xs[..k + 1][..k] == xs[..k];
    assert xs[..1] == [xs[0]];
  }

  /** Every smoothed value lies between the smallest and the largest
      observation: it is a convex combination of them. */
  lemma {:induction false} EwmaBounds(xs: seq<real>, alpha: real, lo: real, hi: real)
    requires 0.0 <= alpha <= 1.0
    requires forall i :: 0 <= i < |xs| ==> lo <= xs[i] <= hi
    ensures forall i :: 0 <= i < |xs| ==> lo <= Ewma(xs, alpha)[i] <= hi
    decreases |xs|
  {
    if |xs| > 1 {
      var p := Ewma(xs[..|xs| - 1], alpha);
      EwmaBounds(xs[..|xs| - 1], alpha, lo, hi);
      var prev, x := p[|p| - 1], xs[|xs| - 1];
      MixBounds(prev, x, alpha, lo, hi);
      assert Ewma(xs, alpha) == p + [Mix(prev, x, alpha)];
    }
  }

  /** A smoothing step of two values in [lo, hi] stays in [lo, hi]. */
  lemma MixBounds(prev: real, x: real, alpha: real, lo: real, hi: real)
    requires 0.0 <= alpha <= 1.0
    requires lo <= prev <= hi && lo <= x <= hi
    ensures lo <= Mix(prev, x, alpha) <= hi
  {
    var beta := 1.0 - alpha;
    MulMono(beta, lo, prev);
    MulMono(beta, prev, hi);
    MulMono(alpha, lo, x);
    MulMono(alpha, x, hi);
    SumMono(beta * lo, beta * prev, alpha * lo, alpha * x);
    SumMono(beta * prev, beta * hi, alpha * x, alpha * hi);
    assert beta * lo + alpha * lo == lo;
    assert beta * hi + alpha * hi == hi;
  }

  lemma SumMono(a: real, b: real, c: real, d: real)
    requires a <= b && c <= d
    ensures a + c <= b + d
  {
  }

  lemma MulNonNeg(a: real, b: real)
    requires 0.0 <= a && 0.0 <= b
    ensures 0.0 <= a * b
  {
  }

  lemma MulMono(c: real, a: real, b: real)
    requires 0.0 <= c && a <= b
    ensures c * a <= c * b
  {
  }

  /** What pandas keeps between rows while computing ewm(adjust=False,
      ignore_na=False): the current mean (NaN before the first observation)
      and the weight of the old mean. */
  datatype EwmState = EwmState(weighted: Option<real>, oldWeight: real)

  /** One row of pandas' ewm loop: a NaN before the first observation leaves
      the mean NaN; a NaN after it decays the old weight; an observation
      mixes old mean and new value in proportion to their weights. */
  function EwmStep(st: EwmState, cur: Option<real>, alpha: real): (next: EwmState)
    requires 0.0 < alpha <= 1.0 && st.oldWeight >= 0.0
    ensures next.oldWeight >= 0.0
  {
    match st.weighted
    case None => EwmState(cur, st.oldWeight)
    case Some(w) =>
      var ow := st.oldWeight * (1.0 - alpha);
      assert ow >= 0.0 by { MulNonNeg(st.oldWeight, 1.0 - alpha); }
      match cur
      case None => EwmState(Some(w), ow)
      case Some(c) => EwmState(Some(if w != c then Reweigh(ow, w, c, alpha) else w), 1.0)
  }

  /** The old mean and the new value averaged with weights ow and alpha. */
  function Reweigh(ow: real, w: real, c: real, alpha: real): real
    requires 0.0 <= ow && 0.0 < alpha
  {
    (ow * w + alpha * c) / (ow + alpha)
  }

  /** Once the old weight is back to 1, an observation is one textbook
      smoothing step. */
  lemma EwmStepSettled(w: real, c: real, alpha: real)
    requires 0.0 < alpha <= 1.0
    ensures EwmStep(EwmState(Some(w), 1.0), Some(c), alpha) == EwmState(Some(Mix(w, c, alpha)), 1.0)
  {
    var ow := 1.0 * (1.0 - alpha);
    assert EwmStep(EwmState(Some(w), 1.0), Some(c), alpha) ==
      EwmState(Some(if w != c then Reweigh(ow, w, c, alpha) else w), 1.0);
    if w != c {
      WeightedByOne(w, c, alpha);
    } else {
      MixSame(w, alpha);
    }
  }

  lemma MixSame(w: real, alpha: real)
    ensures Mix(w, w, alpha) == w
  {
    calc {
      Mix(w, w, alpha);
      (1.0 - alpha) * w + alpha * w;
      (1.0 - alpha + alpha) * w;
      w;
    }
  }

  lemma WeightedByOne(w: real, c: real, alpha: real)
    requires 0.0 < alpha <= 1.0
    ensures Reweigh(1.0 * (1.0 - alpha), w, c, alpha) == Mix(w, c, alpha)
  {
    var ow := 1.0 * (1.0 - alpha);
    assert ow == 1.0 - alpha;
    assert ow + alpha == 1.0;
    calc {
      Reweigh(ow, w, c, alpha);
      (ow * w + alpha * c) / (ow + alpha);
      (ow * w + alpha * c) / 1.0;
      ow * w + alpha * c;
      Mix(w, c, alpha);
    }
  }

  /** The state after each row. */
  function EwmStates(ys: seq<Option<real>>, alpha: real): (sts: seq<EwmState>)
    requires 0.0 < alpha <= 1.0
    ensures |sts| == |ys|
    ensures forall i :: 0 <= i < |sts| ==> sts[i].oldWeight >= 0.0
  {
    if ys == [] then []
    else if |ys| == 1 then [EwmState(ys[0], 1.0)]
    else
      var p := EwmStates(ys[..|ys| - 1], alpha);
      p + [EwmStep(p[|p| - 1], ys[|ys| - 1], alpha)]
  }

  /** Series.ewm(alpha, adjust=False).mean() */
  function EwmMean(ys: seq<Option<real>>, alpha: real): (r: seq<Option<real>>)
    requires 0.0 < alpha <= 1.0
    ensures |r| == |ys|
  {
    var sts := EwmStates(ys, alpha);
    seq(|ys|, i requires 0 <= i < |ys| => sts[i].weighted)
  }

  function Nones(m: nat): (r: seq<Option<real>>)
    ensures |r| == m && forall i :: 0 <= i < m ==> r[i] == None
  {
    seq(m, i => None)
  }

  /** Looking at fewer rows gives a prefix of the states. */
  lemma {:induction false} EwmStatesPrefix(ys: seq<Option<real>>, alpha: real, n: nat)
    requires 0.0 < alpha <= 1.0 && n <= |ys|
    ensures EwmStates(ys[..n], alpha) == EwmStates(ys, alpha)[..n]
    decreases |ys|
  {
    if n < |ys| {
      assert ys[..|ys| - 1][..n] == ys[..n];
      EwmStatesPrefix(ys[..|ys| - 1], alpha, n);
    } else {
      assert ys[..n] == ys;
    }
  }

  /** The state after row i is one step of pandas' loop from the state after
      row i - 1. */
  lemma EwmStatesStep(ys: seq<Option<real>>, alpha: real, i: nat)
    requires 0.0 < alpha <= 1.0 && 0 < i < |ys|
    ensures EwmStates(ys, alpha)[0] == EwmState(ys[0], 1.0)
    ensures EwmStates(ys, alpha)[i] == EwmStep(EwmStates(ys, alpha)[i - 1], ys[i], alpha)
  {
    EwmStatesPrefix(ys, alpha, i + 1);
    EwmStatesPrefix(ys, alpha, i);
    EwmStatesPrefix(ys, alpha, 1);
    assert ys[..i + 1][..i] == ys[..i];
    assert ys[..1] == [ys[0]];
  }

  /** On a series that starts with m NaNs and has no gap afterwards, pandas'
      loop stays NaN for m rows and then follows the textbook recurrence. */
  lemma {:induction false} EwmStatesAfterLeadingNaN(m: nat, xs: seq<real>, alpha: real, i: nat)
    requires 0.0 < alpha <= 1.0
    requires i < m + |xs|
    ensures EwmStates(Nones(m) + Lift(xs), alpha)[i] ==
      if i < m then EwmState(None, 1.0) else EwmState(Some(Ewma(xs, alpha)[i - m]), 1.0)
  {
    var ys := Nones(m) + Lift(xs);
    var sts := EwmStates(ys, alpha);
    var e := Ewma(xs, alpha);
    assert ys[i] == if i < m then None else Some(xs[i - m]);
    if i == 0 {
      if |ys| == 1 {
        assert sts == [EwmState(ys[0], 1.0)];
      } else {
        EwmStatesStep(ys, alpha, 1);
      }
      if m == 0 {
        EwmaPrefix(xs, alpha, 1);
        assert xs[..1] == [xs[0]];
      }
    } else {
      EwmStatesAfterLeadingNaN(m, xs, alpha, i - 1);
      EwmStatesStep(ys, alpha, i);
      var last := sts[i - 1];
      if i < m {
        assert last == EwmState(None, 1.0);
        assert sts[i] == EwmStep(last, None, alpha);
      } else if i == m {
        EwmaPrefix(xs, alpha, 1);
        assert xs[..1] == [xs[0]];
        assert last == EwmState(None, 1.0);
        assert sts[i] == EwmStep(last, Some(xs[0]), alpha);
      } else {
        var k := i - m;
        EwmaRecurrence(xs, alpha, k);
        var w, c := e[k - 1], xs[k];
        assert last == EwmState(Some(w), 1.0);
        assert sts[i] == EwmStep(last, Some(c), alpha);
        EwmStepSettled(w, c, alpha);
      }
    }
  }

  /** ewm over a gap-free series is the textbook recurrence. */
  lemma EwmMeanGapFree(xs: seq<real>, alpha: real)
    requires 0.0 < alpha <= 1.0
    ensures EwmMean(Lift(xs), alpha) == Lift(Ewma(xs, alpha))
  {
    assert Nones(0) + Lift(xs) == Lift(xs);
    forall i | 0 <= i < |xs|
      ensures EwmMean(Lift(xs), alpha)[i] == Some(Ewma(xs, alpha)[i])
    {
      EwmStatesAfterLeadingNaN(0, xs, alpha, i);
    }
  }

  /** shift(1).ewm(alpha, adjust=False).mean() */
  function ShiftedEwma(xs: seq<real>, alpha: real): (r: seq<Option<real>>)
    requires 0.0 < alpha <= 1.0
    ensures |r| == |xs|
  {
    EwmMean(Shift(xs), alpha)
  }

  /** The shifted mean is missing at row 0, and at row k > 0 it is the
      textbook mean of rows 0..k-1 at its last position: row k itself never
      contributes. */
  lemma ShiftedEwmaAt(xs: seq<real>, alpha: real, k: nat)
    requires 0.0 < alpha <= 1.0 && k < |xs|
    ensures ShiftedEwma(xs, alpha)[k] ==
      if k == 0 then None else Some(Ewma(xs[..k], alpha)[k - 1])
  {
    var n := |xs|;
    var rest := xs[..n - 1];
    assert Shift(xs) == Nones(1) + Lift(rest);
    EwmStatesAfterLeadingNaN(1, rest, alpha, k);
    if k > 0 {
      EwmaPrefix(rest, alpha, k);
      assert rest[..k] == xs[..k];
    }
  }

  // ---------------------------------------------------------------------
  // groupby(key)[column].transform(...)

  /** The values of the rows among the first n whose key is `key`, in frame
      order: the group's series as pandas hands it to the transform. */
  function GroupValues<K(==), V>(keys: seq<K>, vals: seq<V>, key: K, n: nat): (g: seq<V>)
    requires |keys| == |vals| && n <= |keys|
    ensures |g| <= n
  {
    if n == 0 then []
    else
      var p := GroupValues(keys, vals, key, n - 1);
      if keys[n - 1] == key then p + [vals[n - 1]] else p
  }

  /** The number of rows among the first n whose key is `key`. */
  function GroupSize<K(==)>(keys: seq<K>, key: K, n: nat): nat
    requires n <= |keys|
  {
    if n == 0 then 0 else GroupSize(keys, key, n - 1) + (if keys[n - 1] == key then 1 else 0)
  }

  /** A group's series has one value per row of the group, whatever the
      column. */
  lemma {:induction false} GroupValuesSize<K, V>(keys: seq<K>, vals: seq<V>, key: K, n: nat)
    requires |keys| == |vals| && n <= |keys|
    ensures |GroupValues(keys, vals, key, n)| == GroupSize(keys, key, n)
  {
    if n > 0 {
      GroupValuesSize(keys, vals, key, n - 1);
    }
  }

  /** Looking at fewer rows gives a prefix of the group. */
  lemma {:induction false} GroupValuesPrefix<K, V>(keys: seq<K>, vals: seq<V>, key: K, n: nat, m: nat)
    requires |keys| == |vals| && n <= m <= |keys|
    ensures |GroupValues(keys, vals, key, n)| <= |GroupValues(keys, vals, key, m)|
    ensures GroupValues(keys, vals, key, m)[..|GroupValues(keys, vals, key, n)|] == GroupValues(keys, vals, key, n)
    decreases m
  {
    if n < m {
      GroupValuesPrefix(keys, vals, key, n, m - 1);
    }
  }

  /** Row k sits in its group right after the group's earlier rows. */
  lemma RowInGroup<K, V>(keys: seq<K>, vals: seq<V>, k: nat)
    requires |keys| == |vals| && k < |keys|
    ensures var g := GroupValues(keys, vals, keys[k], |keys|);
      var prior := GroupValues(keys, vals, keys[k], k);
      |prior| < |g| && g[..|prior|] == prior && g[|prior|] == vals[k]
  {
    GroupValuesPrefix(keys, vals, keys[k], k + 1, |keys|);
  }

  /** groupby(key)[col].transform(lambda x: x.shift(1).rolling(w).mean()) */
  function GroupShiftedRolling<K(==)>(keys: seq<K>, vals: seq<real>, w: nat): (r: seq<Option<real>>)
    requires |keys| == |vals| && 0 < w
    ensures |r| == |keys|
  {
    seq(|keys|, k requires 0 <= k < |keys| =>
      RowInGroup(keys, vals, k);
      ShiftedRolling(GroupValues(keys, vals, keys[k], |keys|), w)[|GroupValues(keys, vals, keys[k], k)|])
  }

  /** The mean of the last w values of a series, missing while the series
      has fewer than w values. */
  function MeanOfLast(prior: seq<real>, w: nat): (r: Option<real>)
    requires 0 < w
    ensures r.Some? <==> |prior| >= w
    ensures r.Some? ==> r.value == Mean(prior[|prior| - w..])
  {
    if |prior| < w then None else Some(Mean(prior[|prior| - w..]))
  }

  /** No look-ahead: row k's rolling value is the mean of the last w earlier
      rows of its own group, and is missing while the group has fewer than w
      earlier rows. */
  lemma GroupShiftedRollingAt<K>(keys: seq<K>, vals: seq<real>, w: nat, k: nat, key: K)
    requires |keys| == |vals| && 0 < w && k < |keys| && keys[k] == key
    ensures GroupShiftedRolling(keys, vals, w)[k] == MeanOfLast(GroupValues(keys, vals, key, k), w)
  {
    var g := GroupValues(keys, vals, keys[k], |keys|);
    var prior := GroupValues(keys, vals, keys[k], k);
    RowInGroup(keys, vals, k);
    ShiftedRollingAt(g, w, |prior|);
    if |prior| >= w {
      assert g[|prior| - w..|prior|] == prior[|prior| - w..];
    }
  }

  /** groupby(key)[col].transform(lambda x: x.shift(1).ewm(alpha, adjust=False).mean()) */
  function GroupShiftedEwma<K(==)>(keys: seq<K>, vals: seq<real>, alpha: real): (r: seq<Option<real>>)
    requires |keys| == |vals| && 0.0 < alpha <= 1.0
    ensures |r| == |keys|
  {
    seq(|keys|, k requires 0 <= k < |keys| =>
      RowInGroup(keys, vals, k);
      ShiftedEwma(GroupValues(keys, vals, keys[k], |keys|), alpha)[|GroupValues(keys, vals, keys[k], k)|])
  }

  /** No look-ahead: row k's smoothed value is missing for the group's first
      row and otherwise is the textbook mean over the group's earlier rows. */
  lemma GroupShiftedEwmaAt<K>(keys: seq<K>, vals: seq<real>, alpha: real, k: nat, key: K)
    requires |keys| == |vals| && 0.0 < alpha <= 1.0 && k < |keys| && keys[k] == key
    ensures var prior := GroupValues(keys, vals, key, k);
      GroupShiftedEwma(keys, vals, alpha)[k] ==
        if prior == [] then None else Some(Ewma(prior, alpha)[|prior| - 1])
  {
    var g := GroupValues(keys, vals, keys[k], |keys|);
    var prior := GroupValues(keys, vals, keys[k], k);
    RowInGroup(keys, vals, k);
    ShiftedEwmaAt(g, alpha, |prior|);
  }

  /** The group's series over the first n rows reads only those rows. */
  lemma {:induction false} GroupValuesLocal<K, V>(keys: seq<K>, vals: seq<V>, keys': seq<K>, vals': seq<V>, key: K, n: nat)
    requires |keys| == |vals| && |keys'| == |vals'| && n <= |keys| && n <= |keys'|
    requires keys[..n] == keys'[..n] && vals[..n] == vals'[..n]
    ensures GroupValues(keys, vals, key, n) == GroupValues(keys', vals', key, n)
  {
    if n > 0 {
      assert keys[n - 1] == keys[..n][n - 1] && keys'[n - 1] == keys'[..n][n - 1];
      assert vals[n - 1] == vals[..n][n - 1] && vals'[n - 1] == vals'[..n][n - 1];
      assert keys[..n - 1] == keys[..n][..n - 1] && keys'[..n - 1] == keys'[..n][..n - 1];
      assert vals[..n - 1] == vals[..n][..n - 1] && vals'[..n - 1] == vals'[..n][..n - 1];
      GroupValuesLocal(keys, vals, keys', vals', key, n - 1);
    }
  }

  /** No look-ahead for the rolling mean: two frames that agree on the rows
      before row k and on row k's key give row k the same value, whatever
      row k's own value and whatever follows it. */
  lemma GroupShiftedRollingNoLookAhead<K>(keys: seq<K>, vals: seq<real>, keys': seq<K>, vals': seq<real>, w: nat, k: nat)
    requires |keys| == |vals| && |keys'| == |vals'| && 0 < w && k < |keys| && k < |keys'|
    requires keys[..k] == keys'[..k] && vals[..k] == vals'[..k] && keys[k] == keys'[k]
    ensures GroupShiftedRolling(keys, vals, w)[k] == GroupShiftedRolling(keys', vals', w)[k]
  {
    GroupShiftedRollingAt(keys, vals, w, k, keys[k]);
    GroupShiftedRollingAt(keys', vals', w, k, keys[k]);
    GroupValuesLocal(keys, vals, keys', vals', keys[k], k);
  }

  /** No look-ahead for the smoothed mean, in the same sense. */
  lemma GroupShiftedEwmaNoLookAhead<K>(keys: seq<K>, vals: seq<real>, keys': seq<K>, vals': seq<real>, alpha: real, k: nat)
    requires |keys| == |vals| && |keys'| == |vals'| && 0.0 < alpha <= 1.0 && k < |keys| && k < |keys'|
    requires keys[..k] == keys'[..k] && vals[..k] == vals'[..k] && keys[k] == keys'[k]
    ensures GroupShiftedEwma(keys, vals, alpha)[k] == GroupShiftedEwma(keys', vals', alpha)[k]
  {
    GroupShiftedEwmaAt(keys, vals, alpha, k, keys[k]);
    GroupShiftedEwmaAt(keys', vals', alpha, k, keys[k]);
    GroupValuesLocal(keys, vals, keys', vals', keys[k], k);
  }

  /** Series.shift(1) over a column that may hold NaN. */
  function ShiftGaps(ys: seq<Option<real>>): (zs: seq<Option<real>>)
    ensures |zs| == |ys|
  {
    seq(|ys|, k requires 0 <= k < |ys| => if k == 0 then None else ys[k - 1])
  }

  /** groupby(key)[col].transform(lambda x: x.shift(1).rolling(w).mean())
      over a column that may hold NaN. */
  function GroupShiftedRollingGaps<K(==)>(keys: seq<K>, vals: seq<Option<real>>, w: nat): (r: seq<Option<real>>)
    requires |keys| == |vals| && 0 < w
    ensures |r| == |keys|
  {
    seq(|keys|, k requires 0 <= k < |keys| =>
      RowInGroup(keys, vals, k);
      RollingMean(ShiftGaps(GroupValues(keys, vals, keys[k], |keys|)), w)[|GroupValues(keys, vals, keys[k], k)|])
  }

  /** The mean of the last w values of a series, missing when the series
      has fewer than w values or one of those w is missing. */
  function LastWindowMean(prior: seq<Option<real>>, w: nat): (r: Option<real>)
    requires 0 < w
    ensures r.Some? <==> |prior| >= w && AllDefined(prior[|prior| - w..])
    ensures r.Some? ==> r.value == Mean(Values(prior[|prior| - w..]))
  {
    if |prior| < w || !AllDefined(prior[|prior| - w..]) then None
    else Some(Mean(Values(prior[|prior| - w..])))
  }

  /** No look-ahead with gaps: row k's value is the mean of the last w
      earlier values of its group, missing while the group has fewer than w
      earlier rows or when one of those w values is missing. */
  lemma GroupShiftedRollingGapsAt<K>(keys: seq<K>, vals: seq<Option<real>>, w: nat, k: nat, key: K)
    requires |keys| == |vals| && 0 < w && k < |keys| && keys[k] == key
    ensures GroupShiftedRollingGaps(keys, vals, w)[k] == LastWindowMean(GroupValues(keys, vals, key, k), w)
  {
    var g := GroupValues(keys, vals, keys[k], |keys|);
    var prior := GroupValues(keys, vals, keys[k], k);
    RowInGroup(keys, vals, k);
    assert GroupShiftedRollingGaps(keys, vals, w)[k] == WindowMean(ShiftGaps(g), |prior|, w);
    ShiftGapsWindow(g, prior, w);
  }

  /** Within a series whose first values are `prior`, the shifted rolling
      mean at the row right after them reads the last w of them. */
  lemma ShiftGapsWindow(g: seq<Option<real>>, prior: seq<Option<real>>, w: nat)
    requires 0 < w && |prior| < |g| && g[..|prior|] == prior
    ensures WindowMean(ShiftGaps(g), |prior|, w) == LastWindowMean(prior, w)
  {
    var j := |prior|;
    var zs := ShiftGaps(g);
    if j >= w {
      var win := zs[j + 1 - w..j + 1];
      forall i | 0 <= i < w
        ensures win[i] == prior[j - w + i]
      {
        assert win[i] == zs[j + 1 - w + i] == g[j - w + i];
        assert g[j - w + i] == g[..j][j - w + i];
      }
      assert win == prior[j - w..];
    } else if j + 1 == w {
      assert zs[j + 1 - w..j + 1][0] == None;
    }
  }
}
