/**
 Chains of blocks, as the check of total difficulty sees them: what a chain gains between two of its blocks,
 and which chains the check accepts.
 */
module BlockChains {
  import opened Options
  import opened Arithmetic
  import opened EpochDifficulty
  import opened HonestChains
  import opened TotalDifficulty

  /** `b` is the next block: its total includes its own difficulty, which is one and the same within an epoch. */
  predicate IsNext(a: Point, b: Point) {
    && b.total == a.total + b.difficulty
    && if a.epoch.index + 1 < a.epoch.length
       then b.epoch == a.epoch.(index := a.epoch.index + 1) && b.difficulty == a.difficulty
       else b.epoch.number == a.epoch.number + 1 && b.epoch.index == 0 && b.epoch.length > 0
  }

  ghost predicate IsChain(blocks: seq<Point>) {
    && blocks != [] && blocks[0].epoch.index < blocks[0].epoch.length
    && forall i :: 0 < i < |blocks| ==> IsNext(blocks[i - 1], blocks[i])
  }

  function Last(blocks: seq<Point>): Point
    requires blocks != []
  {
    blocks[|blocks| - 1]
  }

  /** The difficulties of the epochs on the way, the first and the last one included. */
  function EpochTotals(blocks: seq<Point>): (d: seq<nat>)
    requires blocks != []
    ensures d != []
  {
    var init := blocks[..|blocks| - 1];
    if init == [] then [EpochTotal(Last(blocks))]
    else if Last(init).epoch.number == Last(blocks).epoch.number then EpochTotals(init)
    else EpochTotals(init) + [EpochTotal(Last(blocks))]
  }

  /** The difficulty between the first and the last block of the chain, the first one excluded. */
  function Gained(blocks: seq<Point>): int
    requires blocks != []
  {
    Last(blocks).total - blocks[0].total
  }

  /** Where the last block of a chain stands, and what the chain has gained. */
  ghost predicate GainsAsChecked(blocks: seq<Point>)
    requires blocks != []
  {
    var (s, e, d) := (blocks[0], Last(blocks), EpochTotals(blocks));
    && e.epoch.index < e.epoch.length && s.epoch.number <= e.epoch.number
    && |d| == e.epoch.number - s.epoch.number + 1 && d[0] == EpochTotal(s) && d[|d| - 1] == EpochTotal(e)
    && if s.epoch.number == e.epoch.number then
         && s.epoch.index <= e.epoch.index && s.epoch.length == e.epoch.length && s.difficulty == e.difficulty
         && Gained(blocks) == Times(e.epoch.index - s.epoch.index, s.difficulty)
       else
         s.epoch.index < s.epoch.length && Gained(blocks) == Unaligned(s, e) + Sum(Interior(d))
  }

  /** One more block of the same epoch. */
  lemma GainsOneMore(s: Point, e: Point, b: Point)
    requires IsNext(e, b) && e.epoch.number == b.epoch.number && s.epoch.index < s.epoch.length
    ensures b.epoch == e.epoch.(index := e.epoch.index + 1) && EpochTotal(b) == EpochTotal(e)
    ensures Unaligned(s, b) == Unaligned(s, e) + b.difficulty
    ensures s.epoch.index <= e.epoch.index ==>
              Times(b.epoch.index - s.epoch.index, b.difficulty)
                  == Times(e.epoch.index - s.epoch.index, b.difficulty) + b.difficulty
  {
    TimesNext(e.epoch.index + 1, b.difficulty);
    if s.epoch.index <= e.epoch.index {
      TimesNext(e.epoch.index - s.epoch.index, b.difficulty);
    }
  }

  /** The first block of the next epoch: the epoch it leaves is now complete. */
  lemma GainsNewEpoch(s: Point, e: Point, b: Point)
    requires IsNext(e, b) && e.epoch.number != b.epoch.number && s.epoch.index < s.epoch.length
    requires e.epoch.index < e.epoch.length
    ensures b.epoch.number == e.epoch.number + 1 && b.epoch.index == 0 && b.epoch.length > 0
    ensures Times(e.epoch.index + 1, e.difficulty) == EpochTotal(e)
    ensures Unaligned(s, b) == Times(s.epoch.length - s.epoch.index - 1, s.difficulty) + b.difficulty
    ensures Unaligned(s, e) == Times(s.epoch.length - s.epoch.index - 1, s.difficulty) + EpochTotal(e)
  {
    TimesZero(b.difficulty);
  }

  lemma InteriorGrows(d: seq<nat>, x: nat)
    requires |d| >= 2
    ensures Sum(Interior(d + [x])) == Sum(Interior(d)) + d[|d| - 1]
  {
    assert Interior(d + [x]) == Interior(d) + [d[|d| - 1]];
    SumConcat(Interior(d), [d[|d| - 1]]);
  }

  /**
   What a chain gains is the product that the check computes within one epoch, and over several epochs the
   unaligned blocks and all interior epochs.
   */
  lemma {:induction false} ChainGains(blocks: seq<Point>)
    requires IsChain(blocks)
    ensures GainsAsChecked(blocks)
  {
    hide Times, Unaligned;
    var init, b := blocks[..|blocks| - 1], Last(blocks);
    if init == [] {
      TimesPowZero(0, b.difficulty);
      TimesZero(b.difficulty);
      assert Times(0, b.difficulty) == 0;
    } else {
      ChainGains(init);
      var s, e, d := blocks[0], Last(init), EpochTotals(init);
      assert IsNext(e, b);
      if e.epoch.number == b.epoch.number {
        GainsOneMore(s, e, b);
      } else {
        GainsNewEpoch(s, e, b);
        if s.epoch.number == e.epoch.number {
          assert Interior(d + [EpochTotal(b)]) == [];
        } else {
          InteriorGrows(d, EpochTotal(b));
        }
      }
    }
  }

  // Which chains the check accepts

  /** The epoch difficulties of the chain change by at most a factor tau per epoch. */
  ghost predicate IsHonest(blocks: seq<Point>, tau: nat)
    requires blocks != []
  {
    blocks[0].epoch.number != Last(blocks).epoch.number ==> Honest(EpochTotals(blocks), tau)
  }

  lemma OneSwitchFits(s: Point, e: Point, tau: nat)
    requires EpochsFit(s, e) && tau > 0 && e.epoch.number <= s.epoch.number + 1
    ensures !Incomputable(s, e, tau)
  {
    hide IsTauExponent;
    if s.epoch.number < e.epoch.number {
      forall limit: Limit, k: nat | k < 1 && IsTauExponent(NewTrend(EpochTotal(s), EpochTotal(e)), tau, k)
        ensures Sum(LimitTerms(NewTrend(EpochTotal(s), EpochTotal(e)), limit, 1, k, EpochTotal(s), tau))
                + Unaligned(s, e) <= U256_MAX
      {
        assert LimitTerms(NewTrend(EpochTotal(s), EpochTotal(e)), limit, 1, k, EpochTotal(s), tau) == [];
      }
    }
  }

  /** Every honest chain with at most one epoch switch is accepted, whatever its length. */
  lemma ShortChainIsAccepted(blocks: seq<Point>, tau: nat)
    requires IsChain(blocks) && tau > 0 && EpochsFit(blocks[0], Last(blocks))
    requires Last(blocks).epoch.number <= blocks[0].epoch.number + 1 && IsHonest(blocks, tau)
    ensures !Incomputable(blocks[0], Last(blocks), tau) && Plausible(blocks[0], Last(blocks), tau)
  {
    hide Times, Unaligned, IsTauExponent, TauRule, EpochsFit, Honest, LimitVerdict;
    var s, e := blocks[0], Last(blocks);
    ChainGains(blocks);
    OneSwitchFits(s, e, tau);
    if s.epoch.number != e.epoch.number {
      var (a, b, d) := (EpochTotal(s), EpochTotal(e), EpochTotals(blocks));
      HonestObeysTauRule(d, tau, 1, a, b);
      var k := TauRuleHasExponent(a, b, tau, 1);
      assert Interior(d) == [];
      assert PlausibleGain(a, b, 1, Gained(blocks), Unaligned(s, e), tau, k);
    }
  }

  /** A chain over several epochs ends where its unaligned blocks and its interior epochs take it. */
  lemma ChainReaches(blocks: seq<Point>)
    requires IsChain(blocks) && blocks[0].epoch.number != Last(blocks).epoch.number
    ensures |EpochTotals(blocks)| >= 2 && EndPoint(blocks[0], Last(blocks), EpochTotals(blocks)) == Last(blocks)
  {
    hide Unaligned;
    ChainGains(blocks);
  }

  /**
   An honest chain over two or more epoch switches has a tau exponent, and is accepted unless its end points
   are outside the condition.
   */
  lemma HonestChainIsPlausible(blocks: seq<Point>, tau: nat) returns (k: nat)
    requires IsChain(blocks) && tau >= 2 && Last(blocks).difficulty > 0 && EpochsFit(blocks[0], Last(blocks))
    requires Last(blocks).epoch.number >= blocks[0].epoch.number + 2 && IsHonest(blocks, tau)
    ensures var (s, e) := (blocks[0], Last(blocks));
            && k < e.epoch.number - s.epoch.number && IsTauExponent(NewTrend(EpochTotal(s), EpochTotal(e)), tau, k)
            && (HonestAlwaysPlausible(s, e, tau, k) ==> Plausible(s, e, tau))
  {
    hide Times, Unaligned, IsTauExponent, EpochsFit, Honest, Plausible, HonestAlwaysPlausible;
    ChainGains(blocks);
    ChainReaches(blocks);
    k := HonestGainIsPlausible(blocks[0], Last(blocks), EpochTotals(blocks), tau);
  }

  // Chains to order

  /** The chain goes on by some blocks of its last epoch. */
  function Onward(blocks: seq<Point>, count: nat): (r: seq<Point>)
    requires blocks != []
    ensures r != []
  {
    if count == 0 then blocks
    else
      var init := Onward(blocks, count - 1);
      var last := Last(init);
      init + [Point(last.epoch.(index := last.epoch.index + 1), last.difficulty, last.total + last.difficulty)]
  }

  lemma {:induction false} OnwardIsChain(blocks: seq<Point>, count: nat)
    requires IsChain(blocks) && Last(blocks).epoch.index + count < Last(blocks).epoch.length
    ensures var r := Onward(blocks, count);
            && IsChain(r) && r[0] == blocks[0] && EpochTotals(r) == EpochTotals(blocks)
            && Last(r).epoch == Last(blocks).epoch.(index := Last(blocks).epoch.index + count)
            && Last(r).difficulty == Last(blocks).difficulty
  {
    hide EpochTotal;
    if count > 0 {
      OnwardIsChain(blocks, count - 1);
      var r := Onward(blocks, count);
      assert r[..|r| - 1] == Onward(blocks, count - 1);
    }
  }

  /** The chain goes on with the first block of a new epoch. */
  function Switched(blocks: seq<Point>, length: nat, difficulty: nat): (r: seq<Point>)
    requires blocks != []
    ensures r != []
  {
    blocks + [Point(Epoch(Last(blocks).epoch.number + 1, 0, length), difficulty, Last(blocks).total + difficulty)]
  }

  lemma SwitchedIsChain(blocks: seq<Point>, length: nat, difficulty: nat)
    requires IsChain(blocks) && length > 0 && Last(blocks).epoch.index + 1 == Last(blocks).epoch.length
    ensures var r := Switched(blocks, length, difficulty);
            && IsChain(r) && r[0] == blocks[0] && EpochTotals(r) == EpochTotals(blocks) + [Times(length, difficulty)]
            && Last(r).epoch == Epoch(Last(blocks).epoch.number + 1, 0, length) && Last(r).difficulty == difficulty
  {
    hide Times;
    var r := Switched(blocks, length, difficulty);
    assert r[..|r| - 1] == blocks;
  }

  /** The chain goes on through epochs of one block each. */
  function Through(blocks: seq<Point>, ds: seq<nat>): (r: seq<Point>)
    requires blocks != []
    ensures r != []
  {
    if ds == [] then blocks else Switched(Through(blocks, ds[..|ds| - 1]), 1, ds[|ds| - 1])
  }

  lemma {:induction false} ThroughIsChain(blocks: seq<Point>, ds: seq<nat>)
    requires blocks != [] && IsChain(blocks) && Last(blocks).epoch.index + 1 == Last(blocks).epoch.length
    ensures var r := Through(blocks, ds);
            && IsChain(r) && r[0] == blocks[0] && EpochTotals(r) == EpochTotals(blocks) + ds
            && Last(r).epoch.index + 1 == Last(r).epoch.length
            && Last(r).epoch.number == Last(blocks).epoch.number + |ds|
  {
    hide IsChain, Times, EpochTotals, Switched;
    if ds == [] {
      assert EpochTotals(blocks) + ds == EpochTotals(blocks);
    } else {
      var init := ds[..|ds| - 1];
      ThroughIsChain(blocks, init);
      SwitchedIsChain(Through(blocks, init), 1, ds[|ds| - 1]);
      TimesOne(ds[|ds| - 1]);
      assert ds == init + [ds[|ds| - 1]];
      assert EpochTotals(blocks) + ds == EpochTotals(blocks) + init + [ds[|ds| - 1]];
    }
  }

  /** For any epoch difficulties between two end points there is a chain of blocks. */
  lemma ChainExists(s: Point, e: Point, d: seq<nat>) returns (blocks: seq<Point>)
    requires s.epoch.index < s.epoch.length && e.epoch.index < e.epoch.length && s.epoch.number < e.epoch.number
    requires |d| == e.epoch.number - s.epoch.number + 1 && d[0] == EpochTotal(s) && d[|d| - 1] == EpochTotal(e)
    ensures IsChain(blocks) && blocks[0] == s && EpochTotals(blocks) == d && Last(blocks) == EndPoint(s, e, d)
  {
    hide IsChain, Times, EpochTotals, Switched, Onward, Through;
    OneBlockIsChain(s);
    var rest := Onward([s], s.epoch.length - s.epoch.index - 1);
    OnwardIsChain([s], s.epoch.length - s.epoch.index - 1);
    var interior := Through(rest, Interior(d));
    ThroughIsChain(rest, Interior(d));
    var begun := Switched(interior, e.epoch.length, e.difficulty);
    SwitchedIsChain(interior, e.epoch.length, e.difficulty);
    blocks := Onward(begun, e.epoch.index);
    OnwardIsChain(begun, e.epoch.index);
    assert d == [EpochTotal(s)] + Interior(d) + [EpochTotal(e)];
    ChainReaches(blocks);
  }

  lemma OneBlockIsChain(s: Point)
    requires s.epoch.index < s.epoch.length
    ensures IsChain([s]) && EpochTotals([s]) == [EpochTotal(s)]
  {
  }

  /** Outside the condition some honest chain of blocks, between blocks like the given ones, is refused. */
  lemma SomeHonestChainIsRefused(s: Point, e: Point, tau: nat, k: nat) returns (blocks: seq<Point>)
    requires tau >= 2 && s.epoch.index < s.epoch.length && e.epoch.index < e.epoch.length
    requires e.difficulty > 0 && EpochTotal(e) > 0
    requires e.epoch.number >= s.epoch.number + 2 && k < e.epoch.number - s.epoch.number
    requires IsTauExponent(NewTrend(EpochTotal(s), EpochTotal(e)), tau, k)
    requires EpochTotal(s) <= Times(EpochTotal(e), Pow(tau, e.epoch.number - s.epoch.number))
    requires !HonestAlwaysPlausible(s, e, tau, k)
    ensures IsChain(blocks) && IsHonest(blocks, tau) && blocks[0] == s
    ensures Last(blocks) == e.(total := Last(blocks).total)
    ensures EpochsFit(s, Last(blocks)) ==> !Plausible(s, Last(blocks), tau)
  {
    hide IsChain, Times, Pow, IsTauExponent, HonestAlwaysPlausible, Plausible, EpochsFit, Unaligned, Honest;
    var d := SomeHonestGainIsRefused(s, e, tau, k);
    blocks := ChainExists(s, e, d);
  }
}
