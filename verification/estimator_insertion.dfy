// A repeat put into a cluster at its place in time. Later repeats move down one weight, so the
// cluster may lose; this says exactly at which places it never does.
module EstimatorInsertion {
  import opened EstimatorClaims
  import opened EstimatorMass

  /** What the profile means by diminishing: no weight is larger than the one before. */
  ghost predicate Diminishing(cfg: Config) {
    forall i, j | 0 <= i <= j < |cfg.repeatWeights| :: cfg.repeatWeights[j] <= cfg.repeatWeights[i]
  }

  function InsertedAt<T>(l: seq<T>, i: nat, x: T): (r: seq<T>)
    requires i <= |l|
    ensures |r| == |l| + 1
  {
    l[..i] + [x] + l[i..]
  }

  /** A weight counts up to the cap. */
  function Effective(cfg: Config, i: nat): real
    requires cfg.repeatWeights != []
  {
    Min(Weight(cfg, i), cfg.capMultiple)
  }

  /** Whatever the values, a repeat put at place i of a cluster of n does not lower it. */
  ghost predicate NeverLowers(cfg: Config, i: nat, n: nat)
    requires cfg.repeatWeights != [] && i <= n
  {
    forall vals: seq<real>, v: real | |vals| == n && AllPositive(vals) && 0.0 < v :: Holds(cfg, vals, i, v)
  }

  ghost predicate Holds(cfg: Config, vals: seq<real>, i: nat, v: real)
    requires cfg.repeatWeights != [] && i <= |vals|
  {
    ClusterMass(vals, cfg) <= ClusterMass(InsertedAt(vals, i, v), cfg)
  }

  lemma WeightsFall(cfg: Config, i: nat, j: nat)
    requires cfg.repeatWeights != [] && Diminishing(cfg) && i <= j
    ensures Weight(cfg, j) <= Weight(cfg, i)
  {
  }

  lemma InsertedPositive(vals: seq<real>, i: nat, v: real)
    requires i <= |vals| && AllPositive(vals) && 0.0 < v
    ensures AllPositive(InsertedAt(vals, i, v))
  {
  }

  lemma InsertedIndex<T>(l: seq<T>, i: nat, x: T, k: nat)
    requires i <= |l| && k < |l|
    ensures InsertedAt(l, i, x)[if k < i then k else k + 1] == l[k]
  {
  }

  lemma AtMostLargest(vals: seq<real>, k: nat)
    requires k < |vals|
    ensures vals[k] <= Largest(vals)
  {
  }

  lemma InsertedLargest(vals: seq<real>, i: nat, v: real)
    requires i <= |vals| && vals != []
    ensures Largest(vals) <= Largest(InsertedAt(vals, i, v))
  {
    var top := Largest(vals);
    var k :| 0 <= k < |vals| && vals[k] == top;
    InsertedIndex(vals, i, v, k);
    AtMostLargest(InsertedAt(vals, i, v), if k < i then k else k + 1);
  }

  // ---- places on a level stretch of weights ------------------------------------------------

  lemma PlusCommutes(a: real, w: real, x: real, v: real)
    ensures Plus(Plus(a, w, v), w, x) == Plus(Plus(a, w, x), w, v)
  {
  }

  /** On a level stretch the repeat adds its own weight and moves nothing. */
  lemma {:induction false} InsertAdds(vals: seq<real>, i: nat, v: real, cfg: Config)
    requires cfg.repeatWeights != [] && Diminishing(cfg) && i <= |vals|
    requires Weight(cfg, i) == Weight(cfg, |vals|)
    ensures Diminished(InsertedAt(vals, i, v), cfg) == Plus(Diminished(vals, cfg), Weight(cfg, i), v)
    decreases |vals|
  {
    var more, n := InsertedAt(vals, i, v), |vals|;
    if i == n {
      assert more[..n] == vals;
    } else {
      var front, x := vals[..n - 1], vals[n - 1];
      WeightsFall(cfg, i, n - 1);
      WeightsFall(cfg, n - 1, n);
      InsertAdds(front, i, v, cfg);
      assert more[..n] == InsertedAt(front, i, v);
      PlusCommutes(Diminished(front, cfg), Weight(cfg, i), x, v);
    }
  }

  lemma LevelNeverLowers(vals: seq<real>, i: nat, v: real, cfg: Config)
    requires ProfileFile(cfg) && Diminishing(cfg) && i <= |vals| && AllPositive(vals) && 0.0 < v
    requires Weight(cfg, i) == Weight(cfg, |vals|)
    ensures Holds(cfg, vals, i, v)
  {
    var more := InsertedAt(vals, i, v);
    InsertedPositive(vals, i, v);
    if vals == [] {
      ClusterNonNegative(more, cfg);
    } else {
      InsertAdds(vals, i, v, cfg);
      PlusIsMore(Diminished(vals, cfg), Weight(cfg, i), v);
      InsertedLargest(vals, i, v);
      CappedGrows(Diminished(vals, cfg), Diminished(more, cfg), cfg.capMultiple, Largest(vals), Largest(more));
    }
  }

  lemma PlusIsMore(a: real, w: real, v: real)
    requires 0.0 <= w && 0.0 <= v
    ensures a <= Plus(a, w, v)
  {
    Monotone(w, 0.0, v);
  }

  // ---- places above the cap --------------------------------------------------------------

  lemma PlusCovers(a: real, w: real, x: real, cap: real)
    requires 0.0 <= a && 0.0 <= cap <= w && 0.0 <= x
    ensures Times(cap)(x) <= Plus(a, w, x)
  {
    Monotone(x, cap, w);
  }

  /** Weights that all reach the cap make a cluster as heavy as the cap lets it be. */
  lemma {:induction false} FullWeight(vals: seq<real>, cfg: Config)
    requires ProfileFile(cfg) && AllPositive(vals) && vals != []
    requires forall k | 0 <= k < |vals| :: cfg.capMultiple <= Weight(cfg, k)
    ensures Times(cfg.capMultiple)(Largest(vals)) <= Diminished(vals, cfg)
  {
    var n := |vals| - 1;
    var front, x, w := vals[..n], vals[n], Weight(cfg, n);
    DiminishedNonNegative(front, cfg);
    assert Diminished(vals, cfg) == Plus(Diminished(front, cfg), w, x);
    PlusCovers(Diminished(front, cfg), w, x, cfg.capMultiple);
    if front != [] && Largest(vals) != x {
      FullWeight(front, cfg);
      PlusIsMore(Diminished(front, cfg), w, x);
    }
  }

  lemma CappedFull(total: real, multiple: real, largest: real)
    requires Times(multiple)(largest) <= total
    ensures Capped(total, multiple, largest) == Times(multiple)(largest)
  {
  }

  lemma FullNeverLowers(vals: seq<real>, i: nat, v: real, cfg: Config)
    requires ProfileFile(cfg) && Diminishing(cfg) && i <= |vals| && AllPositive(vals) && 0.0 < v
    requires cfg.capMultiple <= Weight(cfg, |vals|)
    ensures Holds(cfg, vals, i, v)
  {
    var more := InsertedAt(vals, i, v);
    InsertedPositive(vals, i, v);
    if vals == [] {
      ClusterNonNegative(more, cfg);
    } else {
      forall k | 0 <= k < |more| ensures cfg.capMultiple <= Weight(cfg, k) { WeightsFall(cfg, k, |vals|); }
      FullIsHeaviest(vals, more, i, v, cfg);
    }
  }

  lemma FullIsHeaviest(vals: seq<real>, more: seq<real>, i: nat, v: real, cfg: Config)
    requires ProfileFile(cfg) && i <= |vals| && vals != [] && more == InsertedAt(vals, i, v) && AllPositive(more)
    requires forall k | 0 <= k < |more| :: cfg.capMultiple <= Weight(cfg, k)
    ensures ClusterMass(vals, cfg) <= ClusterMass(more, cfg)
  {
    FullWeight(more, cfg);
    CappedFull(Diminished(more, cfg), cfg.capMultiple, Largest(more));
    ClusterIsCapped(vals, cfg);
    InsertedLargest(vals, i, v);
    TimesMonotone(cfg.capMultiple, Largest(vals), Largest(more));
  }

  lemma TimesMonotone(k: real, x: real, y: real)
    requires 0.0 <= k && x <= y
    ensures Times(k)(x) <= Times(k)(y)
  {
    Monotone(k, x, y);
  }

  // ---- places before a fall ------------------------------------------------------------------

  /** The last place at which the weights fall. */
  lemma {:induction false} LastFall(cfg: Config, i: nat, n: nat) returns (k: nat)
    requires cfg.repeatWeights != [] && Diminishing(cfg) && i <= n && Weight(cfg, n) < Weight(cfg, i)
    ensures i <= k < n && Weight(cfg, k + 1) == Weight(cfg, n) < Weight(cfg, k)
    decreases n
  {
    WeightsFall(cfg, n - 1, n);
    if Weight(cfg, n - 1) > Weight(cfg, n) {
      k := n - 1;
    } else {
      k := LastFall(cfg, i, n - 1);
    }
  }

  /** One strong group among weak ones. */
  function Spike(n: nat, p: nat, weak: real): seq<real> {
    seq(n, m => if m == p then 1.0 else weak)
  }

  lemma SpikeLargest(n: nat, p: nat, weak: real)
    requires p < n && weak <= 1.0
    ensures Largest(Spike(n, p, weak)) == 1.0
  {
    assert Spike(n, p, weak)[p] == 1.0;
  }

  lemma {:induction false} SpikeAbove(n: nat, p: nat, weak: real, cfg: Config)
    requires ProfileFile(cfg) && p < n && 0.0 < weak
    ensures Weight(cfg, p) <= Diminished(Spike(n, p, weak), cfg)
  {
    var vals := Spike(n, p, weak);
    assert vals[..n - 1] == Spike(n - 1, p, weak);
    if p == n - 1 {
      DiminishedNonNegative(Spike(n - 1, p, weak), cfg);
    } else {
      SpikeAbove(n - 1, p, weak, cfg);
      PlusIsMore(Diminished(Spike(n - 1, p, weak), cfg), Weight(cfg, n - 1), weak);
    }
  }

  function Repeated(n: nat, t: real): real {
    if n == 0 then 0.0 else Repeated(n - 1, t) + t
  }

  lemma {:induction false} RepeatedIsProduct(n: nat, t: real)
    ensures Repeated(n, t) == n as real * t
  {
    if n > 0 {
      RepeatedIsProduct(n - 1, t);
      OneMore((n - 1) as real, t);
    }
  }

  lemma OneMore(m: real, t: real)
    ensures (m + 1.0) * t == m * t + t
  {
  }

  lemma WeakAdds(a: real, w: real, top: real, weak: real, t: real)
    requires w <= top && 0.0 < weak && Times(top)(weak) <= t
    ensures Plus(a, w, weak) <= a + t
  {
    Monotone(weak, w, top);
  }

  lemma StrongAdds(a: real, w: real)
    ensures Plus(a, w, 1.0) == a + w
  {
  }

  /** t bounds what each weak group adds. */
  lemma {:induction false} SpikeBelow(n: nat, p: nat, weak: real, t: real, cfg: Config)
    requires ProfileFile(cfg) && Diminishing(cfg) && 0.0 < weak && 0.0 <= t && Times(Weight(cfg, 0))(weak) <= t
    ensures Diminished(Spike(n, p, weak), cfg) <= (if p < n then Weight(cfg, p) else 0.0) + Repeated(n, t)
  {
    if n > 0 {
      var vals, less := Spike(n, p, weak), Diminished(Spike(n - 1, p, weak), cfg);
      assert vals[..n - 1] == Spike(n - 1, p, weak);
      assert Diminished(vals, cfg) == Plus(less, Weight(cfg, n - 1), vals[n - 1]);
      SpikeBelow(n - 1, p, weak, t, cfg);
      if p == n - 1 {
        StrongAdds(less, Weight(cfg, p));
      } else {
        WeightsFall(cfg, 0, n - 1);
        WeakAdds(less, Weight(cfg, n - 1), Weight(cfg, 0), weak, t);
      }
    }
  }

  lemma InsertedSpike(n: nat, i: nat, k: nat, weak: real)
    requires i <= k < n
    ensures InsertedAt(Spike(n, k, weak), i, weak) == Spike(n + 1, k + 1, weak)
  {
  }

  /** Small enough for n + 1 weak groups to stay below the gap. */
  lemma WeakEnough(gap: real, n: nat, w: real) returns (weak: real, t: real)
    requires 0.0 < gap && 0.0 < w
    ensures 0.0 < weak <= 1.0 && 0.0 <= t && Times(w)(weak) <= t && Repeated(n + 1, t) < gap
  {
    var m := (n + 1) as real;
    t := gap / (2.0 * m);
    assert m * t == gap / 2.0;
    RepeatedIsProduct(n + 1, t);
    var q := t / w;
    assert q * w == t;
    PositiveQuotient(t, w);
    weak := Min(1.0, q);
    Monotone(w, weak, q);
  }

  lemma PositiveQuotient(t: real, w: real)
    requires 0.0 < t && 0.0 < w
    ensures 0.0 < t / w
  {
  }

  /** Before a fall the cluster can lose: a strong group moves down, and the newcomer adds next to nothing. */
  lemma FallCanLower(cfg: Config, i: nat, n: nat) returns (vals: seq<real>, v: real)
    requires ProfileFile(cfg) && Diminishing(cfg) && i <= n && Effective(cfg, i) != Effective(cfg, n)
    ensures |vals| == n && AllPositive(vals) && 0.0 < v && !Holds(cfg, vals, i, v)
    ensures forall m | 0 <= m < n :: v <= vals[m]
  {
    WeightsFall(cfg, i, n);
    var k := LastFall(cfg, i, n);
    WeightsFall(cfg, 0, k);
    var gap := Effective(cfg, k) - Weight(cfg, n);
    var weak, t := WeakEnough(gap, n, Weight(cfg, 0));
    vals, v := Spike(n, k, weak), weak;
    InsertedSpike(n, i, k, weak);
    SpikeMoves(cfg, n, k, weak, t);
  }

  lemma SpikeMoves(cfg: Config, n: nat, k: nat, weak: real, t: real)
    requires ProfileFile(cfg) && Diminishing(cfg) && k < n && 0.0 < weak <= 1.0
    requires 0.0 <= t && Times(Weight(cfg, 0))(weak) <= t && Weight(cfg, k + 1) + Repeated(n + 1, t) < Effective(cfg, k)
    ensures ClusterMass(Spike(n + 1, k + 1, weak), cfg) < ClusterMass(Spike(n, k, weak), cfg)
  {
    SpikeMass(n, k, weak, cfg);
    SpikeMass(n + 1, k + 1, weak, cfg);
    SpikeAbove(n, k, weak, cfg);
    SpikeBelow(n + 1, k + 1, weak, t, cfg);
  }

  lemma SpikeMass(n: nat, p: nat, weak: real, cfg: Config)
    requires cfg.repeatWeights != [] && p < n && weak <= 1.0
    ensures ClusterMass(Spike(n, p, weak), cfg) == Min(Diminished(Spike(n, p, weak), cfg), cfg.capMultiple)
  {
    SpikeLargest(n, p, weak);
    CappedAtOne(Diminished(Spike(n, p, weak), cfg), cfg.capMultiple);
  }

  lemma CappedAtOne(total: real, multiple: real)
    ensures Capped(total, multiple, 1.0) == Min(total, multiple)
  {
  }

  // A repeat at place i of a cluster of n never lowers it, whatever the values, if and only if
  // place i weighs as much as place n, counted up to the cap.
  lemma NeverLowersExactlyWhenLevel(cfg: Config, i: nat, n: nat)
    requires ProfileFile(cfg) && Diminishing(cfg) && i <= n
    ensures NeverLowers(cfg, i, n) <==> Effective(cfg, i) == Effective(cfg, n)
  {
    if Effective(cfg, i) == Effective(cfg, n) {
      forall vals: seq<real>, v: real | |vals| == n && AllPositive(vals) && 0.0 < v ensures Holds(cfg, vals, i, v) {
        LevelPlaceHolds(cfg, vals, i, v);
      }
    } else {
      var vals, v := FallCanLower(cfg, i, n);
    }
  }

  lemma LevelPlaceHolds(cfg: Config, vals: seq<real>, i: nat, v: real)
    requires ProfileFile(cfg) && Diminishing(cfg) && i <= |vals| && AllPositive(vals) && 0.0 < v
    requires Effective(cfg, i) == Effective(cfg, |vals|)
    ensures Holds(cfg, vals, i, v)
  {
    WeightsFall(cfg, i, |vals|);
    if Weight(cfg, i) == Weight(cfg, |vals|) {
      LevelNeverLowers(vals, i, v, cfg);
    } else {
      FullNeverLowers(vals, i, v, cfg);
    }
  }
}
