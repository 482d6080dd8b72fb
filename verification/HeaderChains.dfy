/**
 Hash-linked headers of one chain, as the checks of difficulty see them: an honest chain of headers passes the
 tau rule between any two of its headers, and the check of what it gains.
 */
module HeaderChains {
  import opened Options
  import opened Keys
  import opened Arithmetic
  import opened EpochDifficulty
  import opened HonestChains
  import opened TotalDifficulty
  import opened BlockChains
  import opened LightHeaders
  import opened LastStateProof
  import Samples

  /** Epochs follow one another by one index, or begin anew with the next number. */
  ghost predicate EpochsFollow(c: Rules) {
    forall a, b :: c.follows(a, b) <==>
      if a.index + 1 < a.length then b == a.(index := a.index + 1)
      else b.number == a.number + 1 && b.index == 0 && b.length > 0
  }

  /** Each chain root tells the total up to the parent, and all blocks of an epoch have one target. */
  ghost predicate TotalsFollow(c: Rules, vs: seq<Verifiable>) {
    forall i :: 0 < i < |vs| ==>
      && vs[i].root.total == TotalOf(c, vs[i - 1])
      && (vs[i].header.epoch.number == vs[i - 1].header.epoch.number ==> vs[i].header.target == vs[i - 1].header.target)
  }

  /** Consecutive headers of one chain, from a block behind the genesis block on. */
  ghost predicate IsHeaderChain(c: Rules, vs: seq<Verifiable>) {
    && vs != [] && vs[0].header.number > 0 && vs[0].header.epoch.index < vs[0].header.epoch.length
    && Linked(c, HeadersOf(vs)) && TotalsFollow(c, vs)
  }

  function PointsOf(c: Rules, vs: seq<Verifiable>): (ps: seq<Point>)
    ensures |ps| == |vs| && forall i :: 0 <= i < |vs| ==> ps[i] == PointOf(c, vs[i])
  {
    seq(|vs|, i requires 0 <= i < |vs| => PointOf(c, vs[i]))
  }

  /** Headers that pass the check of parent and child are blocks of a chain. */
  lemma HeadersAreBlocks(c: Rules, vs: seq<Verifiable>)
    requires EpochsFollow(c) && IsHeaderChain(c, vs)
    ensures IsChain(PointsOf(c, vs))
  {
    var hs, ps := HeadersOf(vs), PointsOf(c, vs);
    forall i | 0 < i < |vs| ensures IsNext(ps[i - 1], ps[i]) {
      assert IsParentOf(c, hs[i - 1], hs[i]);
      NumbersFollow(c, hs, 0, i - 1);
      assert c.follows(vs[i - 1].header.epoch, vs[i].header.epoch);
    }
  }

  /** The epoch difficulties along the headers change by at most the factor that the check allows. */
  ghost predicate HeadersAreHonest(c: Rules, vs: seq<Verifiable>)
    requires vs != []
  {
    IsHonest(PointsOf(c, vs), TAU)
  }

  lemma {:induction false} SameEpochSameTarget(c: Rules, vs: seq<Verifiable>, i: nat)
    requires EpochsFollow(c) && IsHeaderChain(c, vs) && i < |vs|
    ensures vs[i].header.epoch.number >= vs[0].header.epoch.number
    ensures vs[i].header.epoch.number == vs[0].header.epoch.number ==> vs[i].header.target == vs[0].header.target
  {
    if i > 0 {
      SameEpochSameTarget(c, vs, i - 1);
      HeadersAreBlocks(c, vs);
      assert IsNext(PointsOf(c, vs)[i - 1], PointsOf(c, vs)[i]);
    }
  }

  /** The tau rule holds between the first and the last header of an honest chain. */
  lemma HonestHeadersObeyTau(c: Rules, vs: seq<Verifiable>)
    requires EpochsFollow(c) && IsHeaderChain(c, vs) && HeadersAreHonest(c, vs)
    ensures TauObeyed(c, vs[0].header, vs[|vs| - 1].header)
  {
    hide TauRule, EpochTotals, Honest;
    var (ps, start, end) := (PointsOf(c, vs), vs[0].header, vs[|vs| - 1].header);
    HeadersAreBlocks(c, vs);
    ChainGains(ps);
    SameEpochSameTarget(c, vs, |vs| - 1);
    if start.epoch.number != end.epoch.number {
      HonestObeysTauRule(EpochTotals(ps), TAU, end.epoch.number - start.epoch.number, EpochTotal(ps[0]),
                         EpochTotal(Last(ps)));
    }
  }

  /** Over two or more epoch switches, the condition on the end points under which every honest chain passes. */
  ghost predicate EndsAreSafe(s: Point, e: Point) {
    e.epoch.number >= s.epoch.number + 2 ==>
      forall j: nat ::
        (j < e.epoch.number - s.epoch.number && IsTauExponent(NewTrend(EpochTotal(s), EpochTotal(e)), TAU, j) ==>
           HonestAlwaysPlausible(s, e, TAU, j))
  }

  lemma HonestBlocksAreAccepted(ps: seq<Point>)
    requires ps != [] && IsChain(ps) && IsHonest(ps, TAU) && EpochsFit(ps[0], Last(ps)) && Last(ps).difficulty > 0
    requires EndsAreSafe(ps[0], Last(ps))
    ensures Plausible(ps[0], Last(ps), TAU)
  {
    hide EpochsFit, Plausible, HonestAlwaysPlausible, IsTauExponent, IsChain, Incomputable, IsHonest;
    if Last(ps).epoch.number <= ps[0].epoch.number + 1 {
      ShortChainIsAccepted(ps, TAU);
    } else {
      var j := HonestChainIsPlausible(ps, TAU);
    }
  }

  /**
   What an honest chain gains from the previous proof to a message's last header is accepted, over at most one
   epoch switch always, and over more of them within the condition on the end points.
   */
  lemma HonestGainIsAccepted(c: Rules, vs: seq<Verifiable>, prev: ProveState, m: Message, k: Samples.Response)
    requires EpochsFollow(c) && IsHeaderChain(c, vs) && HeadersAreHonest(c, vs) && k.Matched?
    requires prev.last == vs[0] && m.last == vs[|vs| - 1]
    requires var (s, e) := (PointOf(c, prev.last), PointOf(c, m.last));
             EpochsFit(s, e) && e.difficulty > 0 && EndsAreSafe(s, e)
    ensures GainIsPlausible(c, Some(prev), m, k)
  {
    hide EpochsFit, Plausible, EndsAreSafe, IsChain, EpochTotals, EpochsFollow, IsHonest, TotalsFollow, Linked;
    HeadersAreBlocks(c, vs);
    HonestBlocksAreAccepted(PointsOf(c, vs));
  }
}
