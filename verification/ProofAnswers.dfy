/** What an answer that earns a state has been checked for, and what the state keeps of it. */
module ProofAnswers {
  import opened Options
  import opened Keys
  import opened EpochDifficulty
  import opened TotalDifficulty
  import opened LightHeaders
  import opened LastStateProof
  import opened Quorum
  import opened PeerStates
  import opened Provenance
  import Samples

  /** Sampled answers obey the tau rule, unless it is waived, and gain a plausible difficulty since the last proof. */
  lemma AnswersArePlausible(c: Rules, n: nat, w: World, e: Event, q: PeerIndex, s: ProveState)
    requires Answers(c, n, w, e, q, s)
    ensures var (r, prev, m, k) := (w.peers[q].Request().value, w.peers[q].Proven(), e.message, e.counts);
            && s.last == r.last && !r.longFork
            && (forall i, j :: 0 <= i < j < |m.headers| ==> m.headers[i].header.number < m.headers[j].header.number)
            && k.reorg + k.sampled + k.lastN == |m.headers|
            && (k.sampled > 0 && prev.Some? ==>
                  && EpochsFit(PointOf(c, prev.value.last), PointOf(c, m.last))
                  && Plausible(PointOf(c, prev.value.last), PointOf(c, m.last), TAU))
            && (k.sampled > 0 && !r.skipTau ==>
                  TauObeyed(c, m.headers[k.reorg].header, m.headers[|m.headers| - 1].header))
  {
    hide Matches, HeadersAreValid, PartsAreLinked, IsInChain, EpochsFit, Plausible, TauObeyed, LastHeaders, Same;
    PartsAddUp(c, n, w.peers[q].Request().value, e.message, e.counts);
    NumbersAscend(c, n, w.peers[q].Request().value, e.message, e.counts);
  }

  lemma NumbersAscend(c: Rules, n: nat, request: ProveRequest, m: Message, k: Samples.Response)
    requires Matches(c, n, request, m, k)
    ensures forall i, j :: 0 <= i < j < |m.headers| ==> m.headers[i].header.number < m.headers[j].header.number
  {
    hide Samples.SamplesAnswered, Samples.CountShape, Samples.ReorgShape, Samples.NothingMissing;
    var views := Views(c, m.headers);
    forall i, j | 0 <= i < j < |m.headers| ensures m.headers[i].header.number < m.headers[j].header.number {
      assert views[i].number < views[j].number;
    }
  }

  /** The rule is waived at most once: an answer to a request that waives it never leads to another one. */
  lemma RecheckOnce(c: Rules, n: nat, request: ProveRequest, prev: Option<ProveState>, m: Message, k: Samples.Response)
    requires IsVerdict(c, n, request, prev, m, Recheck, k)
    ensures !request.skipTau && k.sampled > 0
  {
    hide Matches, HeadersAreValid, PartsAreLinked, IsInChain, GainIsPlausible, NothingAccepted;
    PartsAddUp(c, n, request, m, k);
  }

  /**
   The reorg headers of the state are the message's headers below the start of the request, one behind the other
   up to right below it, n of them or from block 1 on.
   */
  lemma ReorgIsBelowStart(c: Rules, n: nat, w: World, e: Event, q: PeerIndex, s: ProveState, i: nat)
    requires Answers(c, n, w, e, q, s) && i < |s.reorg|
    ensures var start := w.peers[q].Request().value.content.startNumber;
            && |s.reorg| <= |e.message.headers|
            && (forall j :: 0 <= j < |e.message.headers| ==>
                  (e.message.headers[j].header.number < start <==> j < |s.reorg|))
            && s.reorg == HeadersOf(e.message.headers)[..|s.reorg|]
            && s.reorg[i].number == start - |s.reorg| + i
            && (|s.reorg| == n || s.reorg[0].number == 1)
  {
    hide HeadersAreValid, IsInChain, GainIsPlausible, TauChecked, LastHeaders, Same, Samples.SamplesAnswered,
      Samples.CountShape, Samples.NothingMissing;
    var (r, m, k) := (w.peers[q].Request().value, e.message, e.counts);
    var views := Views(c, m.headers);
    assert forall j :: 0 <= j < |m.headers| ==> views[j].number == m.headers[j].header.number;
    NumbersFollow(c, s.reorg, i, |s.reorg| - 1);
    assert s.reorg[0] == m.headers[0].header && s.reorg[|s.reorg| - 1] == m.headers[|s.reorg| - 1].header;
  }

  /** No reorg headers are kept only if the message has none below the start. */
  lemma NoReorgIsNoneBelow(c: Rules, n: nat, w: World, e: Event, q: PeerIndex, s: ProveState)
    requires Answers(c, n, w, e, q, s) && s.reorg == []
    ensures forall j :: 0 <= j < |e.message.headers| ==>
              e.message.headers[j].header.number >= w.peers[q].Request().value.content.startNumber
  {
    hide HeadersAreValid, IsInChain, GainIsPlausible, TauChecked, LastHeaders, Same, PartsAreLinked,
      Samples.SamplesAnswered, Samples.NothingMissing;
    var views := Views(c, e.message.headers);
    assert forall j :: 0 <= j < |e.message.headers| ==> views[j].number == e.message.headers[j].header.number;
  }

  /**
   The state's list is the newest part of what was known before, or of the reorg headers instead, with the last
   headers of the message behind it.
   */
  lemma ListIsNewest(c: Rules, n: nat, w: World, e: Event, q: PeerIndex, s: ProveState)
    requires Answers(c, n, w, e, q, s)
    ensures var (prev, headers, k) := (w.peers[q].Proven(), HeadersOf(e.message.headers), e.counts);
            && k.reorg + k.sampled + k.lastN == |headers|
            && var older := if s.reorg != [] then s.reorg else if prev.Some? then prev.value.lastHeaders else [];
               var all := older + headers[k.reorg + k.sampled..];
               |s.lastHeaders| <= n && (|all| > n ==> |s.lastHeaders| == n) && |s.lastHeaders| <= |all|
               && s.lastHeaders == all[|all| - |s.lastHeaders|..]
  {
    hide Matches, HeadersAreValid, PartsAreLinked, IsInChain, GainIsPlausible, TauChecked, Same;
    var (prev, headers, k) := (w.peers[q].Proven(), HeadersOf(e.message.headers), e.counts);
    PartsAddUp(c, n, w.peers[q].Request().value, e.message, k);
    assert |headers| - k.lastN == k.reorg + k.sampled;
    assert s.reorg == headers[..k.reorg];
  }
}
