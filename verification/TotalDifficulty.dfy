/**
 The tau check of sampled headers and the check that the total difficulty gained between two
 headers is plausible. `difficultyOf` stands for the decoding of a compact target.
 */
module TotalDifficulty {
  import opened Options
  import opened Arithmetic
  import opened EpochDifficulty
  import opened HonestChains

  datatype Epoch = Epoch(number: nat, index: nat, length: nat)

  /** What the check reads of a header: its epoch, its block difficulty and the total up to it. */
  datatype Point = Point(epoch: Epoch, difficulty: nat, total: nat)

  datatype TauVerdict = TauPassed | TauFailed | InvalidCompactTarget | TauPanic

  function EpochTotal(p: Point): nat {
    Times(p.epoch.length, p.difficulty)
  }

  method VerifyTau(start: Epoch, startTarget: nat, end: Epoch, endTarget: nat, tau: nat, difficultyOf: nat -> nat)
    returns (r: TauVerdict)
    requires tau > 0
    ensures var (a, b) := (Times(start.length, difficultyOf(startTarget)), Times(end.length, difficultyOf(endTarget)));
            if start.number == end.number then r == if startTarget == endTarget then TauPassed else InvalidCompactTarget
            else if end.number < start.number || a > U256_MAX || b > U256_MAX then r == TauPanic
            else r == if TauRule(NewTrend(a, b), tau, end.number - start.number) then TauPassed else TauFailed
  {
    if start.number == end.number {
      return if startTarget != endTarget then InvalidCompactTarget else TauPassed;
    }
    var a := Times(start.length, difficultyOf(startTarget));
    var b := Times(end.length, difficultyOf(endTarget));
    if a > U256_MAX || b > U256_MAX || end.number < start.number {
      return TauPanic;
    }
    var ok := CheckTau(NewTrend(a, b), tau, end.number - start.number);
    return if ok then TauPassed else TauFailed;
  }

  /** Difficulty of the blocks outside the interior epochs: the rest of the first one, the begin of the last one. */
  function Unaligned(s: Point, e: Point): nat
    requires s.epoch.index < s.epoch.length
  {
    Times(s.epoch.length - s.epoch.index - 1, s.difficulty) + Times(e.epoch.index + 1, e.difficulty)
  }

  /** The inputs on which no checked 256-bit or 64-bit operation fails before the limits are summed. */
  predicate EpochsFit(s: Point, e: Point) {
    && s.total <= U256_MAX && e.total <= U256_MAX
    && if s.epoch.number == e.epoch.number then
         s.epoch.index <= e.epoch.index && Times(e.epoch.index - s.epoch.index, s.difficulty) <= U256_MAX
       else
         && s.epoch.number < e.epoch.number
         && s.epoch.index < s.epoch.length
         && EpochTotal(s) <= U256_MAX && EpochTotal(e) <= U256_MAX
         && Unaligned(s, e) <= U256_MAX
  }

  /** The verdict on a gain between epoch difficulties `a` and `b`, once the exponent of the trend is `k`. */
  ghost predicate PlausibleGain(a: nat, b: nat, n: nat, gained: nat, unaligned: nat, tau: nat, k: nat)
    requires tau > 0 && n > 0
  {
    && k < n
    && IsTauExponent(NewTrend(a, b), tau, k)
    && (n >= 2 ==> LimitVerdict(NewTrend(a, b), Lower, n, k, gained, a, tau, unaligned))
    && (n >= 2 ==> LimitVerdict(NewTrend(a, b), Upper, n, k, gained, a, tau, unaligned))
    && (n == 1 ==> gained == unaligned)
  }

  ghost predicate IsPlausibleGain(a: nat, b: nat, n: nat, gained: nat, unaligned: nat, tau: nat)
    requires tau > 0 && n > 0
  {
    exists k :: PlausibleGain(a, b, n, gained, unaligned, tau, k)
  }

  /** Some limit sum does not fit 256 bits. */
  ghost predicate LimitsOverflow(a: nat, b: nat, n: nat, unaligned: nat, tau: nat)
    requires tau > 0 && n > 0
  {
    exists limit: Limit, k: nat ::
      k < n && IsTauExponent(NewTrend(a, b), tau, k)
      && Sum(LimitTerms(NewTrend(a, b), limit, n, k, a, tau)) + unaligned > U256_MAX
  }

  /** The checks of both limits, one after the other, give up. */
  ghost predicate LimitsGiveUp(a: nat, b: nat, n: nat, gained: nat, unaligned: nat, tau: nat, k: nat)
    requires tau > 0 && n > 0 && k <= n
  {
    && n >= 2
    && (|| LimitGivesUp(LimitTerms(NewTrend(a, b), Lower, n, k, a, tau), unaligned, gained)
        || (&& LimitVerdict(NewTrend(a, b), Lower, n, k, gained, a, tau, unaligned)
            && LimitGivesUp(LimitTerms(NewTrend(a, b), Upper, n, k, a, tau), unaligned, gained)))
  }

  /**
   The check of a gain gives up: on epochs out of order or beyond their length, on a product or a sum that does not
   fit 256 bits, but not where it has refused the gain before.
   */
  ghost predicate GainGivesUp(s: Point, e: Point, tau: nat)
    requires tau > 0
  {
    && s.total <= e.total
    && if s.epoch.number == e.epoch.number then
         e.epoch.index < s.epoch.index || Times(e.epoch.index - s.epoch.index, s.difficulty) > U256_MAX
       else
         || e.epoch.number < s.epoch.number || EpochTotal(s) > U256_MAX || EpochTotal(e) > U256_MAX
         || exists k: nat :: ExponentGivesUp(s, e, tau, k)
  }

  ghost predicate ExponentGivesUp(s: Point, e: Point, tau: nat, k: nat)
    requires tau > 0 && s.epoch.number < e.epoch.number
  {
    var (a, b, n) := (EpochTotal(s), EpochTotal(e), e.epoch.number - s.epoch.number);
    && k < n && IsTauExponent(NewTrend(a, b), tau, k)
    && (|| s.epoch.length <= s.epoch.index || Unaligned(s, e) > U256_MAX
        || (s.total <= e.total && LimitsGiveUp(a, b, n, e.total - s.total, Unaligned(s, e), tau, k)))
  }

  /** The exponent is unique, so that it alone decides whether the check gives up. */
  lemma ExponentDecides(s: Point, e: Point, tau: nat, k: nat)
    requires tau > 0 && s.epoch.number < e.epoch.number && EpochTotal(s) <= U256_MAX && EpochTotal(e) <= U256_MAX
    requires k < e.epoch.number - s.epoch.number && IsTauExponent(NewTrend(EpochTotal(s), EpochTotal(e)), tau, k)
    requires s.total <= e.total
    ensures GainGivesUp(s, e, tau) <==> ExponentGivesUp(s, e, tau, k)
  {
    hide IsTauExponent, LimitsGiveUp, Times, Unaligned;
    forall j: nat | ExponentGivesUp(s, e, tau, j) ensures j == k {
      TauExponentUnique(NewTrend(EpochTotal(s), EpochTotal(e)), tau, j, k);
    }
  }

  lemma ExponentNeedsTauRule(s: Point, e: Point, tau: nat)
    requires tau > 0 && s.epoch.number < e.epoch.number && EpochTotal(s) <= U256_MAX && EpochTotal(e) <= U256_MAX
    ensures (exists k: nat :: ExponentGivesUp(s, e, tau, k)) ==>
              TauRule(NewTrend(EpochTotal(s), EpochTotal(e)), tau, e.epoch.number - s.epoch.number)
  {
    hide IsTauExponent, TauRule, LimitsGiveUp, Times, Unaligned;
    if k: nat :| ExponentGivesUp(s, e, tau, k) {
      ExponentImpliesTauRule(NewTrend(EpochTotal(s), EpochTotal(e)), tau, k, e.epoch.number - s.epoch.number);
    }
  }

  lemma PlausibleGainUnique(a: nat, b: nat, n: nat, gained: nat, unaligned: nat, tau: nat, k: nat)
    requires tau > 0 && k < n && a <= U256_MAX && b <= U256_MAX && IsTauExponent(NewTrend(a, b), tau, k)
    ensures PlausibleGain(a, b, n, gained, unaligned, tau, k)
       <==> IsPlausibleGain(a, b, n, gained, unaligned, tau)
  {
    forall j | PlausibleGain(a, b, n, gained, unaligned, tau, j) ensures j == k {
      TauExponentUnique(NewTrend(a, b), tau, j, k);
    }
  }

  method VerifyGain(a: nat, b: nat, n: nat, gained: nat, unaligned: nat, tau: nat, k: nat) returns (r: Outcome)
    requires tau > 0 && k < n && IsTauExponent(NewTrend(a, b), tau, k)
    requires a <= U256_MAX && b <= U256_MAX && gained <= U256_MAX
    ensures r.Panic? ==> LimitsOverflow(a, b, n, unaligned, tau)
    ensures r.Panic? <==> LimitsGiveUp(a, b, n, gained, unaligned, tau, k)
    ensures !r.Panic? ==> (r.Accept? <==> IsPlausibleGain(a, b, n, gained, unaligned, tau))
  {
    hide LimitGivesUp;
    PlausibleGainUnique(a, b, n, gained, unaligned, tau, k);
    if n == 1 {
      return if gained != unaligned then Reject else Accept;
    }
    r := CheckTotalDifficultyLimit(NewTrend(a, b), Lower, n, k, gained, a, tau, unaligned);
    if r.Accept? {
      r := CheckTotalDifficultyLimit(NewTrend(a, b), Upper, n, k, gained, a, tau, unaligned);
    }
  }

  ghost predicate Plausible(s: Point, e: Point, tau: nat)
    requires EpochsFit(s, e) && tau > 0
  {
    && s.total <= e.total
    && if s.epoch.number == e.epoch.number then
         e.total - s.total == Times(e.epoch.index - s.epoch.index, s.difficulty)
       else
         IsPlausibleGain(EpochTotal(s), EpochTotal(e), e.epoch.number - s.epoch.number, e.total - s.total,
             Unaligned(s, e), tau)
  }

  /** Where the checked arithmetic gives up: malformed epochs, or a limit sum beyond 256 bits. */
  ghost predicate Incomputable(s: Point, e: Point, tau: nat)
    requires tau > 0
  {
    || !EpochsFit(s, e)
    || (&& s.epoch.number < e.epoch.number
        && LimitsOverflow(EpochTotal(s), EpochTotal(e), e.epoch.number - s.epoch.number, Unaligned(s, e), tau))
  }

  method VerifyTotalDifficulty(s: Point, e: Point, tau: nat) returns (r: Outcome)
    requires s.total <= U256_MAX && e.total <= U256_MAX && tau > 0
    ensures r.Panic? ==> Incomputable(s, e, tau)
    ensures r.Panic? <==> GainGivesUp(s, e, tau)
    ensures r.Accept? ==> EpochsFit(s, e)
    ensures EpochsFit(s, e) && !r.Panic? ==> (r.Accept? <==> Plausible(s, e, tau))
    ensures s.total > e.total ==> r == Reject
  {
    hide IsPlausibleGain, LimitsOverflow, IsTauExponent, TauRule, LimitsGiveUp;
    if s.total > e.total {
      return Reject;
    }
    var gained := e.total - s.total;
    if s.epoch.number == e.epoch.number {
      if e.epoch.index < s.epoch.index {
        return Panic;
      }
      var calculated := Times(e.epoch.index - s.epoch.index, s.difficulty);
      if calculated > U256_MAX {
        return Panic;
      }
      return if gained != calculated then Reject else Accept;
    }
    var a := EpochTotal(s);
    var b := EpochTotal(e);
    if a > U256_MAX || b > U256_MAX || e.epoch.number < s.epoch.number {
      return Panic;
    }
    var n := e.epoch.number - s.epoch.number;
    var found := CalculateTauExponent(NewTrend(a, b), tau, n);
    if found.None? {
      if EpochsFit(s, e) {
        GainObeysTauRule(a, b, n, gained, Unaligned(s, e), tau);
      }
      ExponentNeedsTauRule(s, e, tau);
      return Reject;
    }
    ExponentDecides(s, e, tau, found.value);
    if s.epoch.length < s.epoch.index + 1 {
      return Panic;
    }
    var unaligned := Unaligned(s, e);
    if unaligned > U256_MAX {
      return Panic;
    }
    r := VerifyGain(a, b, n, gained, unaligned, tau, found.value);
  }

  lemma GainObeysTauRule(a: nat, b: nat, n: nat, gained: nat, unaligned: nat, tau: nat)
    requires tau > 0 && n > 0 && a <= U256_MAX && b <= U256_MAX
    ensures IsPlausibleGain(a, b, n, gained, unaligned, tau) ==> TauRule(NewTrend(a, b), tau, n)
  {
    forall k: nat | k < n && IsTauExponent(NewTrend(a, b), tau, k) ensures TauRule(NewTrend(a, b), tau, n) {
      ExponentImpliesTauRule(NewTrend(a, b), tau, k, n);
    }
  }

  lemma ExponentImpliesTauRule(trend: Trend, tau: nat, k: nat, n: nat)
    requires trend.Valid() && tau > 0 && k < n && IsTauExponent(trend, tau, k)
    ensures TauRule(trend, tau, n)
  {
    PowMonotone(tau, k + 1, n);
    PowPositive(tau, k + 1);
    match trend
    case Unchanged =>
    case Increased(start, end) =>
      TimesMonotone(Pow(tau, k + 1), Pow(tau, n), start);
    case Decreased(start, end) =>
      FloorAntitone(start, Pow(tau, k + 1), Pow(tau, n));
  }

  /** The total difficulty a chain has reached at `e`, given the epoch difficulties on the way. */
  function EndPoint(s: Point, e: Point, d: seq<nat>): Point
    requires s.epoch.index < s.epoch.length && |d| >= 2
  {
    e.(total := s.total + Unaligned(s, e) + Sum(Interior(d)))
  }

  /** `d` is an honest chain between the epochs of `s` and `e`, and its totals fit 256 bits. */
  ghost predicate HonestBetween(s: Point, e: Point, d: seq<nat>, tau: nat)
    requires s.epoch.index < s.epoch.length
  {
    && s.epoch.number < e.epoch.number
    && HonestFromTo(d, tau, e.epoch.number - s.epoch.number, EpochTotal(s), EpochTotal(e))
    && EpochsFit(s, EndPoint(s, e, d))
  }

  /** The condition on the two end points alone under which every honest chain between them passes. */
  ghost predicate HonestAlwaysPlausible(s: Point, e: Point, tau: nat, k: nat)
    requires s.epoch.number < e.epoch.number && tau > 0
    requires k < e.epoch.number - s.epoch.number
  {
    var (a, b, n) := (EpochTotal(s), EpochTotal(e), e.epoch.number - s.epoch.number);
    && UpperIsSafe(NewTrend(a, b), n, k)
    && (|| LowerIsSafe(NewTrend(a, b), n, k)
        || Sum(LimitTerms(NewTrend(a, b), Lower, n, k, a, tau)) <= Sum(Interior(Lightest(tau, n, a, b))))
  }

  lemma GainVerdict(a: nat, b: nat, n: nat, sum: nat, unaligned: nat, tau: nat, k: nat)
    requires tau > 0 && 2 <= n && k < n && unaligned > 0 && IsTauExponent(NewTrend(a, b), tau, k)
    ensures PlausibleGain(a, b, n, unaligned + sum, unaligned, tau, k)
       <==> && Sum(LimitTerms(NewTrend(a, b), Lower, n, k, a, tau)) <= sum
            && sum <= Sum(LimitTerms(NewTrend(a, b), Upper, n, k, a, tau))
  {
  }

  /** The limits are met by the gained difficulty exactly when the interior sum meets them. */
  lemma ReachedVerdict(s: Point, e: Point, d: seq<nat>, tau: nat, k: nat)
    requires tau >= 2 && s.epoch.index < s.epoch.length && e.difficulty > 0
    requires HonestBetween(s, e, d, tau)
    requires e.epoch.number - s.epoch.number >= 2 && k < e.epoch.number - s.epoch.number
    requires IsTauExponent(NewTrend(EpochTotal(s), EpochTotal(e)), tau, k)
    ensures var (a, b, n) := (EpochTotal(s), EpochTotal(e), e.epoch.number - s.epoch.number);
            Plausible(s, EndPoint(s, e, d), tau)
            <==> && Sum(LimitTerms(NewTrend(a, b), Lower, n, k, a, tau)) <= Sum(Interior(d))
                 && Sum(Interior(d)) <= Sum(LimitTerms(NewTrend(a, b), Upper, n, k, a, tau))
  {
    hide PlausibleGain, IsTauExponent, LimitTerms, LimitVerdict, Times, Pow;
    var e' := EndPoint(s, e, d);
    TimesNext(e.epoch.index, e.difficulty);
    assert Unaligned(s, e) > 0;
    assert Unaligned(s, e') == Unaligned(s, e) && EpochTotal(e') == EpochTotal(e);
    var (a, b, n, unaligned) := (EpochTotal(s), EpochTotal(e), e.epoch.number - s.epoch.number, Unaligned(s, e));
    PlausibleGainUnique(a, b, n, unaligned + Sum(Interior(d)), unaligned, tau, k);
    GainVerdict(a, b, n, Sum(Interior(d)), unaligned, tau, k);
  }

  /**
   Epoch difficulties that change by at most a factor tau per epoch have a tau exponent, and what they gain
   passes the check whenever the end points are in the safe cases.
   */
  lemma HonestGainIsPlausible(s: Point, e: Point, d: seq<nat>, tau: nat) returns (k: nat)
    requires tau >= 2 && s.epoch.index < s.epoch.length && e.difficulty > 0
    requires HonestBetween(s, e, d, tau) && e.epoch.number - s.epoch.number >= 2
    ensures k < e.epoch.number - s.epoch.number && IsTauExponent(NewTrend(EpochTotal(s), EpochTotal(e)), tau, k)
    ensures HonestAlwaysPlausible(s, e, tau, k) ==> Plausible(s, EndPoint(s, e, d), tau)
  {
    hide PlausibleGain, LimitTerms, LimitVerdict, Times, Pow, Quot, IsTauExponent, TauRule;
    var (a, b, n) := (EpochTotal(s), EpochTotal(e), e.epoch.number - s.epoch.number);
    HonestObeysTauRule(d, tau, n, a, b);
    k := TauRuleHasExponent(a, b, tau, n);
    if HonestAlwaysPlausible(s, e, tau, k) {
      ReachedVerdict(s, e, d, tau, k);
      HonestWithinUpper(d, tau, n, a, b, k);
      if LowerIsSafe(NewTrend(a, b), n, k) {
        HonestWithinLower(d, tau, n, a, b, k);
      } else {
        LightestBelow(d, tau, n, a, b);
      }
    }
  }

  /** Outside the safe cases some honest epoch difficulties between the same end points are refused. */
  lemma SomeHonestGainIsRefused(s: Point, e: Point, tau: nat, k: nat) returns (d: seq<nat>)
    requires tau >= 2 && s.epoch.index < s.epoch.length && e.difficulty > 0 && EpochTotal(e) > 0
    requires e.epoch.number >= s.epoch.number + 2 && k < e.epoch.number - s.epoch.number
    requires IsTauExponent(NewTrend(EpochTotal(s), EpochTotal(e)), tau, k)
    requires EpochTotal(s) <= Times(EpochTotal(e), Pow(tau, e.epoch.number - s.epoch.number))
    requires !HonestAlwaysPlausible(s, e, tau, k)
    ensures HonestFromTo(d, tau, e.epoch.number - s.epoch.number, EpochTotal(s), EpochTotal(e))
    ensures HonestBetween(s, e, d, tau) ==> !Plausible(s, EndPoint(s, e, d), tau)
  {
    hide PlausibleGain, LimitTerms, LimitVerdict, Times, Pow, Quot;
    var (a, b, n) := (EpochTotal(s), EpochTotal(e), e.epoch.number - s.epoch.number);
    TimesPowZero(0, Pow(tau, k + 1));
    ExponentBoundsEnds(a, b, tau, n, k);
    d := LimitBreaker(tau, n, a, b, k);
    if HonestBetween(s, e, d, tau) {
      ReachedVerdict(s, e, d, tau, k);
    }
  }

  /** An honest chain whose interior breaks one of the limits. */
  lemma LimitBreaker(tau: nat, n: nat, a: nat, b: nat, k: nat) returns (d: seq<nat>)
    requires tau >= 2 && 2 <= n && k < n && b > 0 && IsTauExponent(NewTrend(a, b), tau, k)
    requires b <= Times(a, Pow(tau, n)) && a <= Times(b, Pow(tau, n))
    requires UpperIsSafe(NewTrend(a, b), n, k) ==>
               Sum(LimitTerms(NewTrend(a, b), Lower, n, k, a, tau)) > Sum(Interior(Lightest(tau, n, a, b)))
    ensures HonestFromTo(d, tau, n, a, b)
    ensures Sum(LimitTerms(NewTrend(a, b), Lower, n, k, a, tau)) > Sum(Interior(d))
         || Sum(Interior(d)) > Sum(LimitTerms(NewTrend(a, b), Upper, n, k, a, tau))
  {
    if !UpperIsSafe(NewTrend(a, b), n, k) {
      d := Heaviest(tau, n, a, b);
      HeaviestIsHonest(tau, n, a, b);
      assert a > 0;
      HeaviestExceedsUpper(tau, n, a, b, k);
    } else {
      d := Lightest(tau, n, a, b);
      LightestIsHonest(tau, n, a, b);
    }
  }

  /** The refusal is real: 100, 200, 400, 400, 200 is honest for tau = 2 and exceeds the upper limit. */
  lemma RefusedExample()
    ensures var d := [100, 200, 400, 400, 200];
            && HonestFromTo(d, 2, 4, 100, 200)
            && IsTauExponent(NewTrend(100, 200), 2, 0)
            && Sum(Interior(d)) == 1000
            && Sum(LimitTerms(NewTrend(100, 200), Upper, 4, 0, 100, 2)) == 800
  {
    ExampleArithmetic();
    hide Times, Pow, Quot;
    var d := [100, 200, 400, 400, 200];
    assert Honest(d, 2);
    assert SplitEpochs(NewTrend(100, 200), Upper, 4, 0) == Details(Rising(2), Falling(2));
    assert LimitTerms(NewTrend(100, 200), Upper, 4, 0, 100, 2) == [200, 400, 200];
    assert Interior(d) == [200, 400, 400];
    SumOfThree(200, 400, 200);
    SumOfThree(200, 400, 400);
  }

  /** The same below: 200, 100, 50, 50, 100 is honest for tau = 2 and stays below the lower limit. */
  lemma RefusedBelowExample()
    ensures var d := [200, 100, 50, 50, 100];
            && HonestFromTo(d, 2, 4, 200, 100)
            && IsTauExponent(NewTrend(200, 100), 2, 0)
            && Sum(Interior(d)) == 200
            && Sum(LimitTerms(NewTrend(200, 100), Lower, 4, 0, 200, 2)) == 250
  {
    ExampleBelowArithmetic();
    hide Times, Pow, Quot;
    var d := [200, 100, 50, 50, 100];
    assert Honest(d, 2);
    assert SplitEpochs(NewTrend(200, 100), Lower, 4, 0) == Details(Falling(2), Rising(2));
    assert LimitTerms(NewTrend(200, 100), Lower, 4, 0, 200, 2) == [100, 50, 100];
    assert Interior(d) == [100, 50, 50];
    SumOfThree(100, 50, 100);
    SumOfThree(100, 50, 50);
  }

  lemma SumOfThree(x: nat, y: nat, z: nat)
    ensures Sum([x, y, z]) == x + y + z
  {
    assert [x, y, z] == [x] + [y] + [z];
    SumConcat([x] + [y], [z]);
    SumConcat([x], [y]);
  }

  lemma ExampleBelowArithmetic()
    ensures Pow(2, 0) == 1 && Pow(2, 1) == 2 && Pow(2, 2) == 4
    ensures Times(50, 1) == 50 && Times(50, 2) == 100 && Times(100, 2) == 200 && Times(200, 2) == 400
    ensures Quot(200, 1) == 200 && Quot(200, 2) == 100 && Quot(200, 4) == 50 && Quot(100, 2) == 50
  {
    TimesOne(2);
    TimesIsProduct(2, 2);
    TimesIsProduct(50, 1);
    TimesIsProduct(50, 2);
    TimesIsProduct(100, 2);
    TimesIsProduct(200, 2);
    QuotIsQuotient(200, 1);
    QuotIsQuotient(200, 2);
    QuotIsQuotient(200, 4);
    QuotIsQuotient(100, 2);
  }

  lemma ExampleArithmetic()
    ensures Pow(2, 0) == 1 && Pow(2, 1) == 2 && Pow(2, 2) == 4
    ensures Times(100, 1) == 100 && Times(100, 2) == 200 && Times(200, 2) == 400 && Times(400, 2) == 800
    ensures Times(100, 4) == 400 && Quot(400, 2) == 200
  {
    TimesOne(2);
    TimesIsProduct(2, 2);
    TimesIsProduct(100, 1);
    TimesIsProduct(100, 2);
    TimesIsProduct(200, 2);
    TimesIsProduct(400, 2);
    TimesIsProduct(100, 4);
    QuotIsQuotient(400, 2);
  }
}
