/**
 Which honest chains the limits of the total-difficulty check accept. A chain is the sequence of its
 epoch difficulties; it is honest when the difficulty changes by at most a factor tau per epoch.
 */
module HonestChains {
  import opened Arithmetic
  import opened EpochDifficulty

  ghost predicate Honest(d: seq<nat>, tau: nat) {
    && |d| >= 2
    && forall i :: 0 <= i < |d| - 1 ==> d[i + 1] <= Times(d[i], tau) && d[i] <= Times(d[i + 1], tau)
  }

  /** An honest chain that leads from epoch difficulty `a` to `b` over `n` epoch switches. */
  ghost predicate HonestFromTo(d: seq<nat>, tau: nat, n: nat, a: nat, b: nat) {
    |d| == n + 1 && Honest(d, tau) && d[0] == a && d[n] == b
  }

  /** The epochs that lie entirely between the first and the last one. */
  function Interior(d: seq<nat>): seq<nat>
    requires |d| >= 2
  {
    d[1..|d| - 1]
  }

  /** Two epochs `j - i` switches apart differ by at most that many factors of tau. */
  lemma {:induction false} HonestApart(d: seq<nat>, tau: nat, i: nat, j: nat)
    requires Honest(d, tau) && i <= j < |d|
    ensures d[j] <= Times(d[i], Pow(tau, j - i))
    ensures d[i] <= Times(d[j], Pow(tau, j - i))
    decreases j - i
  {
    hide Times, Quot, Pow;
    if i < j {
      HonestApart(d, tau, i, j - 1);
      assert d[j] <= Times(d[j - 1], tau) && d[j - 1] <= Times(d[j], tau);
      var p := Pow(tau, j - 1 - i);
      TimesMonotone(d[j - 1], Times(d[i], p), tau);
      TimesMonotone(d[j - 1], Times(d[j], tau), p);
      PowStep(d[i], tau, j - 1 - i);
      BaseStep(d[j], tau, j - 1 - i);
    } else {
      TimesPowZero(d[i], tau);
    }
  }

  /** The number of leading extreme epochs that move towards the extreme. */
  function Peak(trend: Trend, limit: Limit, n: nat, k: nat): nat
    requires 1 <= n && k <= n
  {
    RemoveLastEpoch(SplitEpochs(trend, limit, n, k)).start.count
  }

  lemma LimitTermAt(trend: Trend, limit: Limit, n: nat, k: nat, start: nat, tau: nat, i: nat)
    requires 1 <= i < n && k <= n && tau > 0
    ensures var u := Peak(trend, limit, n, k);
            var up := limit.Upper?;
            LimitTerms(trend, limit, n, k, start, tau)[i - 1]
            == if i <= u then AfterGroup(up, start, tau, i)
               else AfterGroup(!up, AfterGroup(up, start, tau, u), tau, i - u)
  {
    hide Times, Quot, Pow;
  }

  /** An honest chain always has a tau exponent below its number of switches. */
  lemma HonestObeysTauRule(d: seq<nat>, tau: nat, n: nat, a: nat, b: nat)
    requires tau > 0 && n >= 1 && HonestFromTo(d, tau, n, a, b)
    ensures TauRule(NewTrend(a, b), tau, n)
  {
    hide Times, Quot, Pow;
    HonestApart(d, tau, 0, n);
    PowPositive(tau, n);
    FloorAdjoint(b + 1, a, Pow(tau, n));
    TimesNext(b, Pow(tau, n));
  }

  /** What bounds the falling part of the upper limit: the end difficulty stays below the mirrored peak. */
  ghost predicate MirrorsUpper(n: nat, a: nat, b: nat, tau: nat, u: nat)
    requires u <= n
  {
    Times(b, Pow(tau, n - u)) <= Times(a, Pow(tau, u))
  }

  ghost predicate MirrorsLower(n: nat, a: nat, b: nat, tau: nat, u: nat)
    requires u <= n && tau > 0
  {
    PowPositive(tau, u);
    Times(Quot(a, Pow(tau, u)), Pow(tau, n - u)) <= b
  }

  /** The closed condition under which the upper limit accepts every honest chain. */
  predicate UpperIsSafe(trend: Trend, n: nat, k: nat)
    requires k <= n
  {
    !trend.Increased? || (n - k) % 2 == 1 || n - k == 2
  }

  predicate LowerIsSafe(trend: Trend, n: nat, k: nat)
    requires k <= n
  {
    !trend.Decreased? || (n - k) % 2 == 1 || n - k == 2
  }

  lemma UpperMirror(a: nat, b: nat, tau: nat, n: nat, k: nat)
    requires tau > 0 && n >= 2 && k < n && IsTauExponent(NewTrend(a, b), tau, k)
    requires UpperIsSafe(NewTrend(a, b), n, k)
    ensures var u := Peak(NewTrend(a, b), Upper, n, k);
            u == n - 1 || MirrorsUpper(n, a, b, tau, u)
  {
    hide Times, Quot, Pow;
    var trend := NewTrend(a, b);
    var u := Peak(trend, Upper, n, k);
    if u < n - 1 {
      match trend
      case Unchanged =>
        PowMonotone(tau, n - u, u);
        TimesMonotone(Pow(tau, n - u), Pow(tau, u), a);
      case Increased(_, _) =>
        assert k + 1 + (n - u) == u;
        TimesMonotone(b, Times(a, Pow(tau, k + 1)), Pow(tau, n - u));
        TimesPow(a, tau, k + 1, n - u);
      case Decreased(_, _) =>
        PowPositive(tau, k);
        FloorAdjoint(b, a, Pow(tau, k));
        PowMonotone(tau, n - u, k + u);
        TimesMonotone(Pow(tau, n - u), Pow(tau, k + u), b);
        TimesPow(b, tau, k, u);
        TimesMonotone(Times(b, Pow(tau, k)), a, Pow(tau, u));
    }
  }

  lemma LowerMirror(a: nat, b: nat, tau: nat, n: nat, k: nat)
    requires tau > 0 && n >= 2 && k < n && IsTauExponent(NewTrend(a, b), tau, k)
    requires LowerIsSafe(NewTrend(a, b), n, k)
    ensures var u := Peak(NewTrend(a, b), Lower, n, k);
            u == n - 1 || MirrorsLower(n, a, b, tau, u)
  {
    hide Times, Quot, Pow;
    var u := Peak(NewTrend(a, b), Lower, n, k);
    if u < n - 1 {
      if a <= b {
        TimesPowZero(a, tau);
        LowerMirrorRising(a, b, tau, n, k, u);
      } else {
        PowPositive(tau, k + 1);
        LowerMirrorFalling(a, b, tau, n, k, u);
      }
    }
  }

  lemma LowerMirrorRising(a: nat, b: nat, tau: nat, n: nat, k: nat, u: nat)
    requires tau > 0 && u <= n <= 2 * u + k && Times(a, Pow(tau, k)) <= b
    ensures MirrorsLower(n, a, b, tau, u)
  {
    hide Times, Quot, Pow;
    PowPositive(tau, u);
    var q := Quot(a, Pow(tau, u));
    FloorAdjoint(q, a, Pow(tau, u));
    PowMonotone(tau, n - u, u + k);
    TimesMonotone(Pow(tau, n - u), Pow(tau, u + k), q);
    TimesPow(q, tau, u, k);
    TimesMonotone(Times(q, Pow(tau, u)), a, Pow(tau, k));
  }

  lemma LowerMirrorFalling(a: nat, b: nat, tau: nat, n: nat, k: nat, u: nat)
    requires tau > 0 && u <= n && (n - u) + (k + 1) == u
    requires Pow(tau, k + 1) > 0 && Quot(a, Pow(tau, k + 1)) <= b
    ensures MirrorsLower(n, a, b, tau, u)
  {
    hide Times, Quot, Pow;
    PowPositive(tau, u);
    var q := Quot(a, Pow(tau, u));
    FloorAdjoint(q, a, Pow(tau, u));
    TimesPow(q, tau, n - u, k + 1);
    FloorAdjoint(Times(q, Pow(tau, n - u)), a, Pow(tau, k + 1));
  }

  /** Each interior epoch of an honest chain lies within the extreme one. */
  lemma HonestBelowUpperTerm(d: seq<nat>, tau: nat, n: nat, a: nat, b: nat, k: nat, i: nat)
    requires tau > 0 && n >= 2 && k < n && 1 <= i < n
    requires HonestFromTo(d, tau, n, a, b) && IsTauExponent(NewTrend(a, b), tau, k)
    requires UpperIsSafe(NewTrend(a, b), n, k)
    ensures d[i] <= LimitTerms(NewTrend(a, b), Upper, n, k, a, tau)[i - 1]
  {
    hide Times, Quot, Pow;
    var u := Peak(NewTrend(a, b), Upper, n, k);
    LimitTermAt(NewTrend(a, b), Upper, n, k, a, tau, i);
    HonestApart(d, tau, 0, i);
    if i > u {
      UpperMirror(a, b, tau, n, k);
      HonestApart(d, tau, i, n);
      var p := Pow(tau, i - u);
      PowPositive(tau, i - u);
      TimesMonotone(d[i], Times(b, Pow(tau, n - i)), p);
      TimesPow(b, tau, n - i, i - u);
      FloorAdjoint(d[i], Times(a, Pow(tau, u)), p);
    }
  }

  lemma HonestAboveLowerTerm(d: seq<nat>, tau: nat, n: nat, a: nat, b: nat, k: nat, i: nat)
    requires tau > 0 && n >= 2 && k < n && 1 <= i < n
    requires HonestFromTo(d, tau, n, a, b) && IsTauExponent(NewTrend(a, b), tau, k)
    requires LowerIsSafe(NewTrend(a, b), n, k)
    ensures LimitTerms(NewTrend(a, b), Lower, n, k, a, tau)[i - 1] <= d[i]
  {
    hide Times, Quot, Pow;
    var u := Peak(NewTrend(a, b), Lower, n, k);
    LimitTermAt(NewTrend(a, b), Lower, n, k, a, tau, i);
    HonestApart(d, tau, 0, i);
    if i <= u {
      PowPositive(tau, i);
      FloorAdjoint(d[i] + 1, a, Pow(tau, i));
      TimesNext(d[i], Pow(tau, i));
    } else {
      LowerMirror(a, b, tau, n, k);
      HonestApart(d, tau, i, n);
      PowPositive(tau, u);
      PowPositive(tau, n - i);
      var q := Quot(a, Pow(tau, u));
      TimesPow(q, tau, i - u, n - i);
      TimesCancel(Times(q, Pow(tau, i - u)), d[i], Pow(tau, n - i));
    }
  }

  lemma HonestWithinUpper(d: seq<nat>, tau: nat, n: nat, a: nat, b: nat, k: nat)
    requires tau > 0 && n >= 2 && k < n
    requires HonestFromTo(d, tau, n, a, b) && IsTauExponent(NewTrend(a, b), tau, k)
    requires UpperIsSafe(NewTrend(a, b), n, k)
    ensures Sum(Interior(d)) <= Sum(LimitTerms(NewTrend(a, b), Upper, n, k, a, tau))
  {
    hide Times, Quot, Pow;
    var terms := LimitTerms(NewTrend(a, b), Upper, n, k, a, tau);
    forall i | 0 <= i < n - 1 ensures Interior(d)[i] <= terms[i] {
      HonestBelowUpperTerm(d, tau, n, a, b, k, i + 1);
    }
    SumMonotone(Interior(d), terms);
  }

  lemma HonestWithinLower(d: seq<nat>, tau: nat, n: nat, a: nat, b: nat, k: nat)
    requires tau > 0 && n >= 2 && k < n
    requires HonestFromTo(d, tau, n, a, b) && IsTauExponent(NewTrend(a, b), tau, k)
    requires LowerIsSafe(NewTrend(a, b), n, k)
    ensures Sum(LimitTerms(NewTrend(a, b), Lower, n, k, a, tau)) <= Sum(Interior(d))
  {
    hide Times, Quot, Pow;
    var terms := LimitTerms(NewTrend(a, b), Lower, n, k, a, tau);
    forall i | 0 <= i < n - 1 ensures terms[i] <= Interior(d)[i] {
      HonestAboveLowerTerm(d, tau, n, a, b, k, i + 1);
    }
    SumMonotone(terms, Interior(d));
  }

  // The envelopes: the heaviest and the lightest honest chain between two given epochs.

  function HeavyAt(tau: nat, n: nat, a: nat, b: nat, i: nat): nat
    requires i <= n
  {
    Min(Times(a, Pow(tau, i)), Times(b, Pow(tau, n - i)))
  }

  function Heaviest(tau: nat, n: nat, a: nat, b: nat): (d: seq<nat>)
    ensures |d| == n + 1
  {
    seq(n + 1, i requires 0 <= i <= n => HeavyAt(tau, n, a, b, i))
  }

  function LightAt(tau: nat, n: nat, a: nat, b: nat, i: nat): nat
    requires i <= n && tau > 0
  {
    PowPositive(tau, i);
    PowPositive(tau, n - i);
    Max(CeilQuot(a, Pow(tau, i)), CeilQuot(b, Pow(tau, n - i)))
  }

  function Lightest(tau: nat, n: nat, a: nat, b: nat): (d: seq<nat>)
    requires tau > 0
    ensures |d| == n + 1
  {
    seq(n + 1, i requires 0 <= i <= n => LightAt(tau, n, a, b, i))
  }

  /** The smaller, or the larger, of two values one factor tau apart in opposite directions. */
  lemma MinMaxStep(x: nat, x': nat, y: nat, y': nat, tau: nat)
    requires tau > 0
    requires x' <= Times(x, tau) && x <= Times(x', tau) && y' <= Times(y, tau) && y <= Times(y', tau)
    ensures Min(x', y') <= Times(Min(x, y), tau) && Min(x, y) <= Times(Min(x', y'), tau)
    ensures Max(x', y') <= Times(Max(x, y), tau) && Max(x, y) <= Times(Max(x', y'), tau)
  {
    TimesMonotone(x, Max(x, y), tau);
    TimesMonotone(y, Max(x, y), tau);
    TimesMonotone(x', Max(x', y'), tau);
    TimesMonotone(y', Max(x', y'), tau);
  }

  lemma HeavyStep(tau: nat, n: nat, a: nat, b: nat, i: nat)
    requires tau > 0 && i < n
    ensures HeavyAt(tau, n, a, b, i + 1) <= Times(HeavyAt(tau, n, a, b, i), tau)
    ensures HeavyAt(tau, n, a, b, i) <= Times(HeavyAt(tau, n, a, b, i + 1), tau)
  {
    hide Times, Quot, Pow;
    var x, y := Times(a, Pow(tau, i)), Times(b, Pow(tau, n - i - 1));
    PowStep(a, tau, i);
    PowStep(b, tau, n - i - 1);
    UpThenDown(x, tau);
    UpThenDown(y, tau);
    MinMaxStep(x, Times(x, tau), Times(y, tau), y, tau);
  }

  lemma UpThenDown(x: nat, tau: nat)
    requires tau > 0
    ensures x <= Times(x, tau) <= Times(Times(x, tau), tau)
  {
    TimesMonotone(1, tau, x);
    TimesOne(x);
    TimesMonotone(1, tau, Times(x, tau));
    TimesOne(Times(x, tau));
  }

  lemma HeaviestIsHonest(tau: nat, n: nat, a: nat, b: nat)
    requires tau > 0 && n >= 1
    requires b <= Times(a, Pow(tau, n)) && a <= Times(b, Pow(tau, n))
    ensures HonestFromTo(Heaviest(tau, n, a, b), tau, n, a, b)
  {
    hide Times, Quot, Pow;
    var d := Heaviest(tau, n, a, b);
    forall i | 0 <= i < n ensures d[i + 1] <= Times(d[i], tau) && d[i] <= Times(d[i + 1], tau) {
      HeavyStep(tau, n, a, b, i);
    }
    TimesPowZero(a, tau);
    TimesPowZero(b, tau);
  }

  /** Ceilings lose at most a factor tau per step, in either direction. */
  lemma CeilStep(x: nat, tau: nat, e: nat)
    requires tau > 0
    ensures Pow(tau, e) > 0 && Pow(tau, e + 1) > 0
    ensures CeilQuot(x, Pow(tau, e + 1)) <= CeilQuot(x, Pow(tau, e)) <= Times(CeilQuot(x, Pow(tau, e + 1)), tau)
  {
    PowPositive(tau, e);
    PowPositive(tau, e + 1);
    var p, c, c' := Pow(tau, e), CeilQuot(x, Pow(tau, e)), CeilQuot(x, Pow(tau, e + 1));
    CeilAdjoint(c', x, Times(tau, p));
    TimesAssociates(c', tau, p);
    CeilAdjoint(Times(c', tau), x, p);
    CeilAdjoint(c, x, p);
    TimesMonotone(1, tau, p);
    TimesOne(p);
    TimesMonotone(p, Times(tau, p), c);
    CeilAdjoint(c, x, Times(tau, p));
  }

  lemma LightStep(tau: nat, n: nat, a: nat, b: nat, i: nat)
    requires tau > 0 && i < n
    ensures LightAt(tau, n, a, b, i + 1) <= Times(LightAt(tau, n, a, b, i), tau)
    ensures LightAt(tau, n, a, b, i) <= Times(LightAt(tau, n, a, b, i + 1), tau)
  {
    hide Times, Quot, Pow;
    CeilStep(a, tau, i);
    CeilStep(b, tau, n - i - 1);
    var x, x' := CeilQuot(a, Pow(tau, i)), CeilQuot(a, Pow(tau, i + 1));
    var y, y' := CeilQuot(b, Pow(tau, n - i)), CeilQuot(b, Pow(tau, n - i - 1));
    TimesMonotone(1, tau, x);
    TimesOne(x);
    TimesMonotone(1, tau, y');
    TimesOne(y');
    MinMaxStep(x, x', y, y', tau);
  }

  lemma LightestIsHonest(tau: nat, n: nat, a: nat, b: nat)
    requires tau > 0 && n >= 1
    requires b <= Times(a, Pow(tau, n)) && a <= Times(b, Pow(tau, n))
    ensures HonestFromTo(Lightest(tau, n, a, b), tau, n, a, b)
  {
    hide Times, Quot, Pow;
    var d := Lightest(tau, n, a, b);
    forall i | 0 <= i < n ensures d[i + 1] <= Times(d[i], tau) && d[i] <= Times(d[i + 1], tau) {
      LightStep(tau, n, a, b, i);
    }
    PowPositive(tau, n);
    CeilAdjoint(a, b, Pow(tau, n));
    CeilAdjoint(b, a, Pow(tau, n));
    CeilOfOne(a, tau);
    CeilOfOne(b, tau);
  }

  lemma CeilOfOne(x: nat, tau: nat)
    ensures CeilQuot(x, Pow(tau, 0)) == x
  {
    QuotOne(x);
  }

  /** No honest chain is lighter than the lightest one in any epoch. */
  lemma LightestBelow(d: seq<nat>, tau: nat, n: nat, a: nat, b: nat)
    requires tau > 0 && n >= 1 && HonestFromTo(d, tau, n, a, b)
    ensures Sum(Interior(Lightest(tau, n, a, b))) <= Sum(Interior(d))
  {
    hide Times, Quot, Pow;
    var e := Lightest(tau, n, a, b);
    forall i | 0 <= i <= n ensures e[i] <= d[i] {
      LightBelowAt(d, tau, n, a, b, i);
    }
    SumMonotone(Interior(e), Interior(d));
  }

  lemma LightBelowAt(d: seq<nat>, tau: nat, n: nat, a: nat, b: nat, i: nat)
    requires tau > 0 && n >= 1 && HonestFromTo(d, tau, n, a, b) && i <= n
    ensures LightAt(tau, n, a, b, i) <= d[i]
  {
    hide Times, Quot, Pow;
    HonestApart(d, tau, 0, i);
    HonestApart(d, tau, i, n);
    PowPositive(tau, i);
    PowPositive(tau, n - i);
    CeilAdjoint(d[i], a, Pow(tau, i));
    CeilAdjoint(d[i], b, Pow(tau, n - i));
  }

  /** Outside the safe cases the heaviest honest chain exceeds the upper limit. */
  lemma HeaviestExceedsUpper(tau: nat, n: nat, a: nat, b: nat, k: nat)
    requires tau >= 2 && k < n && 0 < a < b
    requires IsTauExponent(NewTrend(a, b), tau, k) && !UpperIsSafe(NewTrend(a, b), n, k)
    ensures Sum(LimitTerms(NewTrend(a, b), Upper, n, k, a, tau)) < Sum(Interior(Heaviest(tau, n, a, b)))
  {
    hide Times, Quot, Pow;
    var terms := LimitTerms(NewTrend(a, b), Upper, n, k, a, tau);
    var e := Interior(Heaviest(tau, n, a, b));
    var u := Peak(NewTrend(a, b), Upper, n, k);
    assert 2 * u == n + k && u <= n - 2;
    forall j | 0 <= j < n - 1 ensures terms[j] <= e[j] && (j >= u ==> terms[j] < e[j]) {
      LimitTermAt(NewTrend(a, b), Upper, n, k, a, tau, j + 1);
      HeaviestAbovePower(tau, n, a, b, k, j + 1, 2 * u - j - 1);
      if j >= u {
        DownFromPeak(tau, a, u, j + 1);
      }
      assert e[j] == HeavyAt(tau, n, a, b, j + 1);
    }
    SumStrict(terms, e, u);
  }

  lemma EndAboveMirror(tau: nat, n: nat, a: nat, b: nat, k: nat, i: nat)
    requires tau >= 2 && i <= n && k <= n && Times(a, Pow(tau, k)) < b
    ensures Times(a, Pow(tau, k + n - i)) < Times(b, Pow(tau, n - i))
  {
    hide Times, Quot, Pow;
    PowPositive(tau, n - i);
    TimesStrict(Times(a, Pow(tau, k)), b, Pow(tau, n - i));
    TimesPow(a, tau, k, n - i);
  }

  lemma HeaviestAbovePower(tau: nat, n: nat, a: nat, b: nat, k: nat, i: nat, m: nat)
    requires tau >= 2 && i <= n && k <= n && m == k + n - i && a > 0
    requires Times(a, Pow(tau, k)) < b
    ensures i <= m ==> Times(a, Pow(tau, i)) <= HeavyAt(tau, n, a, b, i)
    ensures i > m ==> Times(a, Pow(tau, m)) < HeavyAt(tau, n, a, b, i)
  {
    hide Times, Quot, Pow;
    EndAboveMirror(tau, n, a, b, k, i);
    if i <= m {
      PowMonotone(tau, i, m);
      TimesMonotone(Pow(tau, i), Pow(tau, m), a);
    } else {
      PowStrict(tau, m, i);
      TimesStrict(Pow(tau, m), Pow(tau, i), a);
    }
  }

  lemma DownFromPeak(tau: nat, a: nat, u: nat, i: nat)
    requires tau > 0 && u <= i <= 2 * u
    ensures AfterGroup(false, AfterGroup(true, a, tau, u), tau, i - u) == Times(a, Pow(tau, 2 * u - i))
  {
    hide Times, Quot, Pow;
    var p := Pow(tau, i - u);
    PowPositive(tau, i - u);
    TimesPow(a, tau, 2 * u - i, i - u);
    ExactQuotient(Times(a, Pow(tau, 2 * u - i)), p);
  }

  /** The tau rule bounds both ends by each other. */
  lemma ExponentBoundsEnds(a: nat, b: nat, tau: nat, n: nat, k: nat)
    requires tau > 0 && k < n && IsTauExponent(NewTrend(a, b), tau, k) && (a == 0 <==> b == 0)
    requires a > b ==> a <= Times(b, Pow(tau, n))
    ensures b <= Times(a, Pow(tau, n)) && a <= Times(b, Pow(tau, n))
  {
    hide Times, Quot, Pow;
    PowPositive(tau, n);
    PowMonotone(tau, k + 1, n);
    TimesMonotone(Pow(tau, k + 1), Pow(tau, n), a);
    TimesMonotone(1, Pow(tau, n), a);
    TimesMonotone(1, Pow(tau, n), b);
    TimesOne(a);
    TimesOne(b);
    assert a <= b ==> a <= Times(b, Pow(tau, n));
    assert b <= a ==> b <= Times(a, Pow(tau, n));
  }

  /**
   The upper limit accepts all honest chains from `a` to `b` over `n` switches exactly in the safe cases:
   the difficulty did not rise, or `n - k` is odd, or it is two.
   */
  lemma UpperLimitExact(a: nat, b: nat, tau: nat, n: nat, k: nat)
    requires tau >= 2 && n >= 2 && k < n && b > 0 && IsTauExponent(NewTrend(a, b), tau, k)
    ensures UpperIsSafe(NewTrend(a, b), n, k) <==>
            forall d: seq<nat> :: HonestFromTo(d, tau, n, a, b) ==>
              Sum(Interior(d)) <= Sum(LimitTerms(NewTrend(a, b), Upper, n, k, a, tau))
  {
    hide Times, Quot, Pow;
    if UpperIsSafe(NewTrend(a, b), n, k) {
      forall d: seq<nat> | HonestFromTo(d, tau, n, a, b)
        ensures Sum(Interior(d)) <= Sum(LimitTerms(NewTrend(a, b), Upper, n, k, a, tau))
      {
        HonestWithinUpper(d, tau, n, a, b, k);
      }
    } else {
      TimesPowZero(a, Pow(tau, k + 1));
      ExponentBoundsEnds(a, b, tau, n, k);
      HeaviestIsHonest(tau, n, a, b);
      assert a > 0;
      HeaviestExceedsUpper(tau, n, a, b, k);
      var d := Heaviest(tau, n, a, b);
      assert HonestFromTo(d, tau, n, a, b);
    }
  }

  /**
   The lower limit accepts all honest chains from `a` to `b` in its safe cases, and otherwise exactly
   when the lightest chain, which has a closed form, reaches the sum of the extreme epochs.
   */
  lemma LowerLimitExact(a: nat, b: nat, tau: nat, n: nat, k: nat)
    requires tau >= 2 && n >= 2 && k < n && b > 0 && IsTauExponent(NewTrend(a, b), tau, k)
    requires a <= Times(b, Pow(tau, n))
    ensures (LowerIsSafe(NewTrend(a, b), n, k)
             || Sum(LimitTerms(NewTrend(a, b), Lower, n, k, a, tau)) <= Sum(Interior(Lightest(tau, n, a, b)))) <==>
            forall d: seq<nat> :: HonestFromTo(d, tau, n, a, b) ==>
              Sum(LimitTerms(NewTrend(a, b), Lower, n, k, a, tau)) <= Sum(Interior(d))
  {
    hide Times, Quot, Pow;
    var limit := Sum(LimitTerms(NewTrend(a, b), Lower, n, k, a, tau));
    if LowerIsSafe(NewTrend(a, b), n, k) {
      forall d: seq<nat> | HonestFromTo(d, tau, n, a, b) ensures limit <= Sum(Interior(d)) {
        HonestWithinLower(d, tau, n, a, b, k);
      }
    } else {
      forall d: seq<nat> | HonestFromTo(d, tau, n, a, b)
        ensures Sum(Interior(Lightest(tau, n, a, b))) <= Sum(Interior(d))
      {
        LightestBelow(d, tau, n, a, b);
      }
      ExponentBoundsEnds(a, b, tau, n, k);
      LightestIsHonest(tau, n, a, b);
      assert HonestFromTo(Lightest(tau, n, a, b), tau, n, a, b);
    }
  }
}
