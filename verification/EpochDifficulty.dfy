/**
 How far epoch difficulties may move between two epochs: the tau exponent, the split of the epochs
 into a first and a second part, and the early-exit check of a total difficulty against the sum of
 the extreme epochs. Difficulties are 256-bit: products saturate, sums that overflow panic.
 */
module EpochDifficulty {
  import opened Options
  import opened Arithmetic

  /** The verdict of a check; `Panic` is an arithmetic overflow or underflow in the checked build. */
  datatype Outcome = Accept | Reject | Panic

  datatype Trend =
    | Unchanged
    | Increased(start: nat, end: nat)
    | Decreased(start: nat, end: nat)
  {
    /** What `NewTrend` establishes. */
    predicate Valid() {
      match this
      case Unchanged => true
      case Increased(start, end) => start < end <= U256_MAX
      case Decreased(start, end) => end < start <= U256_MAX
    }
  }

  datatype Limit = Lower | Upper

  datatype Group = Rising(count: nat) | Falling(count: nat)

  datatype Details = Details(start: Group, end: Group) {
    function Total(): nat {
      start.count + end.count
    }
  }

  function NewTrend(start: nat, end: nat): (t: Trend)
    ensures start <= U256_MAX && end <= U256_MAX ==> t.Valid()
  {
    if start == end then Unchanged
    else if start < end then Increased(start, end)
    else Decreased(start, end)
  }

  /** The tau rule over true integers: at most a factor tau per epoch switch. */
  ghost predicate TauRule(trend: Trend, tau: nat, switches: nat)
    requires tau > 0
  {
    PowPositive(tau, switches);
    match trend
    case Unchanged => true
    case Increased(start, end) => end <= Times(start, Pow(tau, switches))
    case Decreased(start, end) => Quot(start, Pow(tau, switches)) <= end
  }

  /** `k` is the exponent: the end is beyond `k` factors of tau and within `k + 1` of them. */
  ghost predicate IsTauExponent(trend: Trend, tau: nat, k: nat)
    requires tau > 0
  {
    PowPositive(tau, k);
    PowPositive(tau, k + 1);
    match trend
    case Unchanged => k == 0
    case Increased(start, end) => Times(start, Pow(tau, k)) < end <= Times(start, Pow(tau, k + 1))
    case Decreased(start, end) => Quot(start, Pow(tau, k)) > end >= Quot(start, Pow(tau, k + 1))
  }

  function SaturatingMul(a: nat, b: nat): nat {
    Min(Times(a, b), U256_MAX)
  }

  lemma SaturatingStep(start: nat, tau: nat, i: nat, v: nat)
    requires start <= U256_MAX && tau > 0
    requires v == Min(Times(start, Pow(tau, i)), U256_MAX)
    ensures SaturatingMul(v, tau) == Min(Times(start, Pow(tau, i + 1)), U256_MAX)
  {
    PowStep(start, tau, i);
    if v == U256_MAX {
      TimesMonotone(1, tau, v);
      TimesOne(v);
      TimesMonotone(v, Times(start, Pow(tau, i)), tau);
    }
  }

  /** Saturation never changes the verdict, because the end difficulty itself fits 256 bits. */
  method CheckTau(trend: Trend, tau: nat, switches: nat) returns (ok: bool)
    requires trend.Valid() && tau > 0
    ensures ok <==> TauRule(trend, tau, switches)
  {
    match trend
    case Unchanged =>
      ok := true;
    case Increased(start, end) =>
      TimesOne(start);
      var endMax := start;
      for i := 0 to switches
        invariant endMax == Min(Times(start, Pow(tau, i)), U256_MAX)
      {
        SaturatingStep(start, tau, i, endMax);
        endMax := SaturatingMul(endMax, tau);
      }
      ok := end <= endMax;
    case Decreased(start, end) =>
      QuotOne(start);
      var endMin := start;
      for i := 0 to switches
        invariant Pow(tau, i) > 0 && endMin == Quot(start, Pow(tau, i))
      {
        FloorPowStep(start, tau, i);
        endMin := Quot(endMin, tau);
      }
      ok := end >= endMin;
  }

  /** The exponent search and the tau check agree, and what the search returns is the exponent. */
  method CalculateTauExponent(trend: Trend, tau: nat, limit: nat) returns (r: Option<nat>)
    requires trend.Valid() && tau > 0
    ensures r.Some? <==> TauRule(trend, tau, limit)
    ensures r.Some? ==> IsTauExponent(trend, tau, r.value)
    ensures r.Some? && !trend.Unchanged? ==> r.value < limit
  {
    match trend
    case Unchanged =>
      return Some(0);
    case Increased(start, end) =>
      TimesOne(start);
      var tmp := start;
      for k := 0 to limit
        invariant tmp == Min(Times(start, Pow(tau, k)), U256_MAX)
        invariant Times(start, Pow(tau, k)) < end
      {
        SaturatingStep(start, tau, k, tmp);
        tmp := SaturatingMul(tmp, tau);
        if tmp >= end {
          PowMonotone(tau, k + 1, limit);
          TimesMonotone(Pow(tau, k + 1), Pow(tau, limit), start);
          return Some(k);
        }
      }
      return None;
    case Decreased(start, end) =>
      QuotOne(start);
      var tmp := start;
      for k := 0 to limit
        invariant Pow(tau, k) > 0 && tmp == Quot(start, Pow(tau, k)) > end
      {
        FloorPowStep(start, tau, k);
        tmp := Quot(tmp, tau);
        if tmp <= end {
          PowMonotone(tau, k + 1, limit);
          FloorAntitone(start, Pow(tau, k + 1), Pow(tau, limit));
          return Some(k);
        }
      }
      return None;
  }

  /** The exponent is unique, so "the k of a trend" is well defined. */
  lemma TauExponentUnique(trend: Trend, tau: nat, j: nat, k: nat)
    requires trend.Valid() && tau > 0
    requires IsTauExponent(trend, tau, j) && IsTauExponent(trend, tau, k)
    ensures j == k
  {
    if j != k && !trend.Unchanged? {
      var lo, hi := Min(j, k), Max(j, k);
      PowMonotone(tau, lo + 1, hi);
      PowPositive(tau, lo + 1);
      match trend
      case Increased(start, end) =>
        TimesMonotone(Pow(tau, lo + 1), Pow(tau, hi), start);
      case Decreased(start, end) =>
        FloorAntitone(start, Pow(tau, lo + 1), Pow(tau, hi));
    }
  }

  /** The epochs of a group that remain when those are taken out that the trend itself needs. */
  function Spare(g: Group, trend: Trend, k: nat): int {
    if (trend.Increased? && g.Rising?) || (trend.Decreased? && g.Falling?) then g.count - k else g.count
  }

  /**
   The group that moves with the trend gets the k epochs the trend needs; the others are shared evenly, and
   an odd one goes to the first group.
   */
  function SplitEpochs(trend: Trend, limit: Limit, n: nat, k: nat): (d: Details)
    requires k <= n
    ensures d.Total() == n
    ensures limit.Lower? ==> d.start.Falling? && d.end.Rising?
    ensures limit.Upper? ==> d.start.Rising? && d.end.Falling?
    ensures 0 <= Spare(d.end, trend, k) <= Spare(d.start, trend, k) <= Spare(d.end, trend, k) + 1
  {
    // The counts of rising and of falling epochs.
    var counts: (nat, nat) := match (limit, trend) {
      case (Lower, Unchanged) => (n - (n + 1) / 2, (n + 1) / 2)
      case (Upper, Unchanged) => ((n + 1) / 2, n - (n + 1) / 2)
      case (Lower, Increased(_, _)) => (n - (n - k + 1) / 2, (n - k + 1) / 2)
      case (Upper, Increased(_, _)) => ((n - k + 1) / 2 + k, n - ((n - k + 1) / 2 + k))
      case (Lower, Decreased(_, _)) => (n - ((n - k + 1) / 2 + k), (n - k + 1) / 2 + k)
      case (Upper, Decreased(_, _)) => ((n - k + 1) / 2, n - (n - k + 1) / 2)
    };
    match limit
    case Lower => Details(Falling(counts.1), Rising(counts.0))
    case Upper => Details(Rising(counts.0), Falling(counts.1))
  }

  function SubtractOne(g: Group): Group
    requires g.count > 0
  {
    match g
    case Rising(count) => Rising(count - 1)
    case Falling(count) => Falling(count - 1)
  }

  function RemoveLastEpoch(d: Details): (r: Details)
    requires d.Total() > 0
    ensures r.Total() == d.Total() - 1
    ensures r.start.Rising? == d.start.Rising? && r.end.Rising? == d.end.Rising?
  {
    if d.end.count == 0 then Details(SubtractOne(d.start), d.end)
    else Details(d.start, SubtractOne(d.end))
  }

  /** Difficulty after `count` steps of one group, over true integers. */
  function AfterGroup(rising: bool, difficulty: nat, tau: nat, count: nat): nat
    requires tau > 0
  {
    PowPositive(tau, count);
    if rising then Times(difficulty, Pow(tau, count)) else Quot(difficulty, Pow(tau, count))
  }

  /** The difficulties of the epochs of one group that starts after an epoch of difficulty `from`. */
  function GroupTerms(g: Group, from: nat, tau: nat): (s: seq<nat>)
    requires tau > 0
    ensures |s| == g.count
  {
    seq(g.count, i requires 0 <= i < g.count => AfterGroup(g.Rising?, from, tau, i + 1))
  }

  function Terms(d: Details, start: nat, tau: nat): (s: seq<nat>)
    requires tau > 0
    ensures |s| == d.Total()
  {
    GroupTerms(d.start, start, tau) + GroupTerms(d.end, AfterGroup(d.start.Rising?, start, tau, d.start.count), tau)
  }

  /** The extreme interior epochs that the check of one limit sums up. */
  function LimitTerms(trend: Trend, limit: Limit, n: nat, k: nat, start: nat, tau: nat): (s: seq<nat>)
    requires 1 <= n && k <= n && tau > 0
    ensures |s| == n - 1
  {
    Terms(RemoveLastEpoch(SplitEpochs(trend, limit, n, k)), start, tau)
  }

  lemma GroupStep(rising: bool, difficulty: nat, tau: nat, i: nat)
    requires tau > 0
    ensures AfterGroup(rising, difficulty, tau, 0) == difficulty
    ensures AfterGroup(rising, difficulty, tau, i + 1)
         == if rising then Times(AfterGroup(rising, difficulty, tau, i), tau)
             else Quot(AfterGroup(rising, difficulty, tau, i), tau)
  {
    FloorPowStep(difficulty, tau, i);
    PowStep(difficulty, tau, i);
    TimesOne(difficulty);
    QuotOne(difficulty);
  }

  /** The comparison made once, after summing all interior epochs. */
  ghost predicate WithinLimit(limit: Limit, sum: nat, unaligned: nat, actual: nat) {
    match limit
    case Upper => actual <= sum + unaligned
    case Lower => sum + unaligned <= actual
  }

  /** What the early-exit check decides, over true integers. */
  ghost predicate LimitVerdict(trend: Trend, limit: Limit, n: nat, k: nat, actual: nat, start: nat, tau: nat,
                          unaligned: nat)
    requires 1 <= n && k <= n && tau > 0
  {
    var sum := Sum(LimitTerms(trend, limit, n, k, start, tau));
    && WithinLimit(limit, sum, unaligned, actual)
    && (limit.Lower? && n > 1 ==> sum < actual)
  }

  /** How far summing a group got: to its end, to `actual`, or to an overflow. */
  datatype Progress = Summed(curr: nat, total: nat) | Reached | Overflow

  /**
   Adding the terms to `before`, one by one, gives up at a term: the sum has not come to `actual` yet, and with
   the saturated term it does not fit 256 bits.
   */
  predicate GivesUpAt(terms: seq<nat>, before: nat, actual: nat, i: nat) {
    && i < |terms| && (i == 0 || before + Sum(terms[..i]) < actual)
    && before + Sum(terms[..i]) + Min(terms[i], U256_MAX) > U256_MAX
  }

  ghost predicate GivesUp(terms: seq<nat>, before: nat, actual: nat) {
    exists i :: GivesUpAt(terms, before, actual, i)
  }

  /** Where the sum stays below `actual` there is nothing to give up; where it reaches it, nothing behind counts. */
  lemma SummedUp(terms: seq<nat>, before: nat, actual: nat, n: nat)
    requires n <= |terms| && actual <= U256_MAX && (n > 0 ==> before + Sum(terms[..n]) < actual)
    ensures n == |terms| ==> !GivesUp(terms, before, actual)
    ensures n < |terms| && before + Sum(terms[..n + 1]) >= actual ==>
              (GivesUp(terms, before, actual) <==> before + Sum(terms[..n]) + Min(terms[n], U256_MAX) > U256_MAX)
  {
    hide Sum;
    forall i: nat | i < |terms| && i != n ensures GivesUpAt(terms, before, actual, i) ==>
                                              i > n && (n < |terms| ==> before + Sum(terms[..n + 1]) < actual)
    {
      if i < n {
        SumWithin(terms, i + 1, n);
        SumStep(terms, i);
      } else if n < |terms| {
        SumWithin(terms, n + 1, i);
      }
    }
    assert n < |terms| && before + Sum(terms[..n]) + Min(terms[n], U256_MAX) > U256_MAX ==>
        GivesUpAt(terms, before, actual, n);
  }

  /** Two groups of terms: the second one counts if the first one stays below `actual`. */
  lemma GivesUpJoin(a: seq<nat>, b: seq<nat>, before: nat, actual: nat)
    ensures GivesUp(a + b, before, actual)
       <==> GivesUp(a, before, actual)
            || ((a == [] || before + Sum(a) < actual) && GivesUp(b, before + Sum(a), actual))
  {
    hide Sum, GivesUpAt;
    forall i: nat | i < |a| ensures GivesUpAt(a + b, before, actual, i) <==> GivesUpAt(a, before, actual, i) {
      GivesUpInFront(a, b, before, actual, i);
    }
    if GivesUp(a + b, before, actual) {
      var i: nat :| GivesUpAt(a + b, before, actual, i);
      if i >= |a| {
        GivesUpBehind(a, b, before, actual, i - |a|);
      } else {
        assert GivesUpAt(a, before, actual, i);
      }
    }
    if GivesUp(a, before, actual) {
      var i: nat :| GivesUpAt(a, before, actual, i);
      GivesUpInFront(a, b, before, actual, i);
    }
    if (a == [] || before + Sum(a) < actual) && GivesUp(b, before + Sum(a), actual) {
      var j: nat :| GivesUpAt(b, before + Sum(a), actual, j);
      GivesUpBehind(a, b, before, actual, j);
    }
  }

  lemma GivesUpInFront(a: seq<nat>, b: seq<nat>, before: nat, actual: nat, i: nat)
    ensures i < |a| ==> (GivesUpAt(a + b, before, actual, i) <==> GivesUpAt(a, before, actual, i))
    ensures GivesUpAt(a, before, actual, i) ==> i < |a|
  {
    hide Sum;
    assert i < |a| ==> (a + b)[..i] == a[..i];
  }

  lemma GivesUpBehind(a: seq<nat>, b: seq<nat>, before: nat, actual: nat, j: nat)
    ensures GivesUpAt(a + b, before, actual, |a| + j)
       <==> (a == [] || before + Sum(a) < actual) && GivesUpAt(b, before + Sum(a), actual, j)
  {
    hide Sum;
    if j < |b| {
      assert (a + b)[..|a| + j] == a + b[..j];
      SumConcat(a, b[..j]);
      SumWithin(b, 0, j);
      SumWithin(a + b, |a|, |a| + j);
      assert (a + b)[..|a|] == a && b[..0] == [];
      NoSum();
    }
  }

  lemma NoSum()
    ensures Sum([]) == 0
  {
  }

  /** The check of a limit gives up while it sums, or when it adds the unaligned part to a sum below `actual`. */
  ghost predicate LimitGivesUp(terms: seq<nat>, unaligned: nat, actual: nat) {
    GivesUp(terms, 0, actual) || ((terms == [] || Sum(terms) < actual) && Sum(terms) + unaligned > U256_MAX)
  }

  lemma SumWithin(terms: seq<nat>, i: nat, j: nat)
    requires i <= j <= |terms|
    ensures Sum(terms[..i]) <= Sum(terms[..j])
  {
    SumPrefix(terms[..j], i);
    assert terms[..j][..i] == terms[..i];
  }

  method SumGroup(group: Group, from: nat, before: nat, tau: nat, actual: nat) returns (p: Progress)
    requires tau > 0 && from <= U256_MAX && actual <= U256_MAX
    ensures var sum := before + Sum(GroupTerms(group, from, tau));
            match p
            case Summed(curr, total) =>
              && curr == AfterGroup(group.Rising?, from, tau, group.count) <= U256_MAX
              && total == sum
              && (group.count > 0 ==> total < actual)
            case Reached => group.count > 0 && sum >= actual
            case Overflow => sum > U256_MAX
    ensures p.Overflow? <==> GivesUp(GroupTerms(group, from, tau), before, actual)
  {
    hide GivesUp;
    ghost var terms := GroupTerms(group, from, tau);
    var curr, total := from, before;
    GroupStep(group.Rising?, from, tau, 0);
    for index := 0 to group.count
      invariant curr == AfterGroup(group.Rising?, from, tau, index) <= U256_MAX
      invariant total == before + Sum(terms[..index])
      invariant index > 0 ==> total < actual
    {
      GroupStep(group.Rising?, from, tau, index);
      SumStep(terms, index);
      SumPrefix(terms, index + 1);
      curr := NextDifficulty(group.Rising?, curr, tau);
      assert curr == Min(terms[index], U256_MAX);
      SummedUp(terms, before, actual, index);
      if total + curr > U256_MAX {
        return Overflow;
      }
      total := total + curr;
      if total >= actual {
        return Reached;
      }
    }
    assert terms[..group.count] == terms;
    SummedUp(terms, before, actual, group.count);
    return Summed(curr, total);
  }

  /** One epoch on: a saturating product or a floor division. */
  function NextDifficulty(rising: bool, curr: nat, tau: nat): (r: nat)
    requires tau > 0
    ensures r <= (if rising then Times(curr, tau) else Quot(curr, tau))
    ensures curr <= U256_MAX ==> r <= U256_MAX
    ensures r < U256_MAX ==> r == (if rising then Times(curr, tau) else Quot(curr, tau))
  {
    FloorAntitone(curr, 1, tau);
    QuotOne(curr);
    if rising then SaturatingMul(curr, tau) else Quot(curr, tau)
  }

  /** The terms of a limit are those of its two groups, one behind the other. */
  lemma LimitTermsJoin(trend: Trend, limit: Limit, n: nat, k: nat, start: nat, tau: nat, actual: nat)
    requires 1 <= n && k <= n && tau > 0
    ensures var d := RemoveLastEpoch(SplitEpochs(trend, limit, n, k));
            var peak := AfterGroup(d.start.Rising?, start, tau, d.start.count);
            var (a, b, terms) := (GroupTerms(d.start, start, tau), GroupTerms(d.end, peak, tau),
              LimitTerms(trend, limit, n, k, start, tau));
            && d.start.count + d.end.count == n - 1 == |terms| && Sum(terms) == Sum(a) + Sum(b)
            && (d.start.count == 0 ==> Sum(a) == 0) && (d.end.count == 0 ==> Sum(b) == 0)
            && (|terms| == 0 ==> terms == [] && Sum(terms) == 0)
            && (GivesUp(terms, 0, actual) <==>
                GivesUp(a, 0, actual) || ((d.start.count == 0 || Sum(a) < actual) && GivesUp(b, Sum(a), actual)))
  {
    hide GivesUp, Sum, SplitEpochs, AfterGroup, RemoveLastEpoch;
    var d := RemoveLastEpoch(SplitEpochs(trend, limit, n, k));
    var peak := AfterGroup(d.start.Rising?, start, tau, d.start.count);
    var a, b := GroupTerms(d.start, start, tau), GroupTerms(d.end, peak, tau);
    SumConcat(a, b);
    GivesUpJoin(a, b, 0, actual);
    NoSum();
  }

  /**
   The early exits give the verdict of the full sum over true integers, saturation notwithstanding;
   a panic means that the full sum does not fit 256 bits.
   */
  method CheckTotalDifficultyLimit(trend: Trend, limit: Limit, n: nat, k: nat, actual: nat, start: nat, tau: nat,
                          unaligned: nat)
    returns (r: Outcome)
    requires 1 <= n && k <= n && tau > 0
    requires actual <= U256_MAX && start <= U256_MAX
    ensures r.Panic? ==> Sum(LimitTerms(trend, limit, n, k, start, tau)) + unaligned > U256_MAX
    ensures r.Panic? <==> LimitGivesUp(LimitTerms(trend, limit, n, k, start, tau), unaligned, actual)
    ensures !r.Panic? ==> (r.Accept? <==> LimitVerdict(trend, limit, n, k, actual, start, tau, unaligned))
  {
    hide GivesUp, Sum, SplitEpochs, AfterGroup, GroupTerms, LimitTerms, RemoveLastEpoch;
    var details := RemoveLastEpoch(SplitEpochs(trend, limit, n, k));
    ghost var peak := AfterGroup(details.start.Rising?, start, tau, details.start.count);
    LimitTermsJoin(trend, limit, n, k, start, tau, actual);
    var curr, total := start, 0;
    for g := 0 to 2
      invariant curr <= U256_MAX
      invariant g == 0 ==> curr == start && total == 0
      invariant g == 1 ==> curr == peak && total == Sum(GroupTerms(details.start, start, tau))
      invariant g == 2 ==> total == Sum(LimitTerms(trend, limit, n, k, start, tau))
      invariant g >= 1 ==> !GivesUp(GroupTerms(details.start, start, tau), 0, actual)
      invariant g == 2 ==> !GivesUp(LimitTerms(trend, limit, n, k, start, tau), 0, actual)
      invariant (g >= 1 && details.start.count > 0) || (g == 2 && details.end.count > 0) ==> total < actual
    {
      var p := SumGroup(if g == 0 then details.start else details.end, curr, total, tau, actual);
      match p
      case Summed(c, t) =>
        curr, total := c, t;
      case Reached =>
        return if limit.Upper? then Accept else Reject;
      case Overflow =>
        return Panic;
    }
    if total + unaligned > U256_MAX {
      return Panic;
    }
    if limit.Upper? {
      r := if total + unaligned >= actual then Accept else Reject;
    } else {
      r := if total + unaligned <= actual then Accept else Reject;
    }
  }

  /** With something unaligned, as in every real pair of epochs, the early exits change nothing. */
  lemma EarlyExitRefinesFullSum(trend: Trend, limit: Limit, n: nat, k: nat, actual: nat, start: nat, tau: nat,
                          unaligned: nat)
    requires 1 <= n && k <= n && tau > 0
    ensures var sum := Sum(LimitTerms(trend, limit, n, k, start, tau));
            var full := WithinLimit(limit, sum, unaligned, actual);
            && (unaligned > 0 ==> (LimitVerdict(trend, limit, n, k, actual, start, tau, unaligned) <==> full))
            && (LimitVerdict(trend, limit, n, k, actual, start, tau, unaligned) != full
                <==> limit.Lower? && n > 1 && unaligned == 0 && sum == actual)
  {
  }

  /** Whenever the tau rule holds over `n` switches there is an exponent below `n`. */
  lemma {:induction false} TauRuleHasExponent(start: nat, end: nat, tau: nat, n: nat) returns (k: nat)
    requires tau > 0 && n > 0 && TauRule(NewTrend(start, end), tau, n)
    ensures k < n && IsTauExponent(NewTrend(start, end), tau, k)
  {
    if NewTrend(start, end).Unchanged? {
      k := 0;
    } else if n > 1 && TauRule(NewTrend(start, end), tau, n - 1) {
      k := TauRuleHasExponent(start, end, tau, n - 1);
    } else {
      k := n - 1;
      TimesOne(start);
      QuotOne(start);
    }
  }
}
