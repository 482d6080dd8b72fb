/**
 What the handlers bring about: transitions of a peer keep what they do not replace, what is earned is held and
 moves the tip, what is not proved is asked for, and a peer loses its proved state only where that is said.
 */
module PeerProgress {
  import opened Options
  import opened Keys
  import opened LightHeaders
  import opened LastStateProof
  import opened Quorum
  import opened PeerStates
  import opened Provenance
  import MatchedBlocks
  import Samples

  /** The peer was asked for its last state, and has not answered yet. */
  predicate OwesLastState(s: PeerState) {
    s.RequestFirstLastState? || s.RequestNewLastState?
  }

  /** Asking for a last state is rejected while anything is outstanding, and otherwise keeps all that is known. */
  lemma AskingKeeps(s: PeerState)
    ensures RequestLastState(s).None? <==> OwesLastState(s) || s.Request().Some?
    ensures RequestLastState(s).Some? ==>
              var t := RequestLastState(s).value;
              && t.LastState() == s.LastState() && t.Proven() == s.Proven() && t.Request().None?
              && (OwesLastState(t) <==> s.LastState().None? || s.Proven().Some?)
  {
  }

  /** A last state replaces the old one and nothing else, and is refused only by a peer that was not asked for any. */
  lemma ReceivingKeeps(s: PeerState, last: Verifiable)
    ensures ReceiveLastState(s, last).None? <==> s.Initialized?
    ensures ReceiveLastState(s, last).Some? ==>
              var t := ReceiveLastState(s, last).value;
              && t.LastState() == Some(last) && t.Proven() == s.Proven() && t.Request() == s.Request()
              && !OwesLastState(t)
  {
  }

  /** A request can be put where the last state is known and none is owed; it replaces an earlier one. */
  lemma PuttingKeeps(s: PeerState, request: ProveRequest)
    ensures RequestProof(s, request).None? <==> s.LastState().None? || OwesLastState(s)
    ensures RequestProof(s, request).Some? ==>
              var t := RequestProof(s, request).value;
              t.Request() == Some(request) && t.Proven() == s.Proven() && t.LastState() == s.LastState()
  {
  }

  /** A proved state replaces the old one and settles the request. */
  lemma ProvingKeeps(s: PeerState, proved: ProveState)
    ensures ReceiveProof(s, proved).None? <==> s.LastState().None? || OwesLastState(s)
    ensures ReceiveProof(s, proved).Some? ==>
              var t := ReceiveProof(s, proved).value;
              t.Proven() == Some(proved) && t.Request().None? && t.LastState() == s.LastState() && !OwesLastState(t)
  {
  }

  /** Where the proof of a last state would start, by number and total: at what the peer has proved, or at the tip. */
  function StartFor(c: Rules, w: World, p: PeerIndex): (nat, nat)
    requires p in w.peers
  {
    if w.peers[p].Proven().Some? then
      var last := w.peers[p].Proven().value.last;
      (last.header.number, TotalOf(c, last))
    else (w.store.tip.number, w.store.tip.total)
  }

  /** A proof from `start` on makes sense: the last state is not lighter, and it is higher. */
  predicate IsAhead(c: Rules, start: (nat, nat), last: Verifiable) {
    start.1 <= TotalOf(c, last) && start.0 < last.header.number
  }

  /** The last state is proved, or its proof is asked for, or it is not ahead of where the proof would start. */
  ghost predicate IsSettled(c: Rules, w: World, p: PeerIndex, last: Verifiable) {
    p in w.peers ==>
      || HasProof(c, w, p, last)
      || (w.peers[p].Request().Some? && Same(c, w.peers[p].Request().value.last, last))
      || !IsAhead(c, StartFor(c, w, p), last)
  }

  lemma ContentWhereAhead(c: Rules, n: nat, w: World, p: PeerIndex, last: Verifiable, sample: Sample)
    requires p in w.peers
    ensures BuildFor(c, n, w, w.peers[p].Proven(), last, sample).Some? <==> IsAhead(c, StartFor(c, w, p), last)
  {
  }

  lemma SameAsItself(c: Rules, v: Verifiable)
    ensures Same(c, v, v)
  {
  }

  /** Asking for a proof settles the last state of a peer that owes none; only what is not settled is asked for. */
  lemma AskingSettles(c: Rules, n: nat, w: World, p: PeerIndex, choice: Choice)
    requires p in w.peers && w.peers[p].LastState().Some? && !OwesLastState(w.peers[p])
    ensures var (w', last) := (AfterAskProof(c, n, w, p, choice), w.peers[p].LastState().value);
            && p in w'.peers && w'.peers[p].LastState() == Some(last) && w'.store == w.store
            && IsSettled(c, w', p, last)
            && (w'.peers[p].Request() != w.peers[p].Request() && w'.peers[p].Request().Some? ==>
                  !IsSettled(c, w, p, last) && w'.peers[p].Request().value.last == last)
            && (forall q :: q != p ==>
                  (q in w'.peers <==> q in w.peers) && (q in w.peers ==> w'.peers[q] == w.peers[q]))
  {
    hide BuildFor, Same;
    var s := w.peers[p];
    var last := s.LastState().value;
    SameAsItself(c, last);
    ContentWhereAhead(c, n, w, p, last, choice.sample);
  }

  /** An earned state is held by the peer that earned it, unless it is a long fork. */
  lemma EarnedIsHeld(c: Rules, n: nat, w: World, e: Event, q: PeerIndex, s: ProveState)
    requires MatchedBlocks.Inv(w.store) && Earns(c, n, w, e, q, s) && Enabled(c, n, w, e)
    ensures Provenance.Holds(Next(c, n, w, e), q, s)
            || (&& e.Proof?
                && MatchedBlocks.Committed(w.store, TipOf(c, s), Numbered(s.reorg), Numbered(s.lastHeaders)).None?)
  {
    hide MatchedBlocks.Inv, MatchedBlocks.Next, MatchedBlocks.Committed, Accepts, Worked, NewChild, BuildContent,
      IsVerdict, TotalOf;
  }

  /** A heavier state that is earned, and is no long fork, becomes the tip, and its list the stored last headers. */
  lemma EarnedMovesTip(c: Rules, n: nat, w: World, e: Event, q: PeerIndex, s: ProveState)
    requires MatchedBlocks.Inv(w.store) && Earns(c, n, w, e, q, s) && Enabled(c, n, w, e)
    requires Provenance.Holds(Next(c, n, w, e), q, s) && !Provenance.Holds(w, q, s)
              && TotalOf(c, s.last) > w.store.tip.total
    ensures Next(c, n, w, e).store.tip == MatchedBlocks.Tip(TotalOf(c, s.last), s.last.header.number,
              s.last.header.hash)
    ensures Next(c, n, w, e).store.lastHeaders == Numbered(s.lastHeaders)
  {
    hide MatchedBlocks.Inv, Accepts, Same, Worked, NewChild, BuildContent, IsVerdict, Numbered;
    assert e.Proof? || e.LastState?;
  }

  /** A proof that fails the tau rule alone is asked for once more without it, unless it is no longer ahead. */
  lemma RecheckIsAsked(c: Rules, n: nat, w: World, e: Event, q: PeerIndex)
    requires MatchedBlocks.Inv(w.store) && e.Proof? && e.peer == q && q in w.peers && e.verdict.Recheck?
    requires w.peers[q].Request().Some? && Same(c, w.peers[q].Request().value.last, e.message.last)
    requires IsAhead(c, StartFor(c, w, q), e.message.last)
    ensures var r := Next(c, n, w, e).peers[q].Request();
            r.Some? && r.value.last == e.message.last && r.value.skipTau && !r.value.longFork
    ensures Next(c, n, w, e).peers[q].Proven() == w.peers[q].Proven() && Next(c, n, w, e).store == w.store
  {
    hide BuildFor, Same, MatchedBlocks.Inv;
    ContentWhereAhead(c, n, w, q, e.message.last, e.choice.sample);
    PuttingKeeps(w.peers[q], ProveRequest(e.message.last, Samples.Request(0, 0, []), true, false));
  }

  /** A refused answer changes nothing; a panic forgets all peers and what is in memory, and keeps what is stored. */
  lemma RefusedOrCrashed(c: Rules, n: nat, w: World, e: Event, q: PeerIndex)
    requires MatchedBlocks.Inv(w.store) && e.Proof? && e.peer == q && q in w.peers
    requires w.peers[q].Request().Some? && Same(c, w.peers[q].Request().value.last, e.message.last)
    ensures e.verdict.Refused? ==> Next(c, n, w, e) == w
    ensures e.verdict.Crash? ==>
              Next(c, n, w, e) == World(map[], w.store.(matched := map[]))
  {
    hide Same;
  }

  /** Peers come with the request for their last state, and go; a rejected question leaves a peer initialised. */
  lemma PeersComeAndGo(c: Rules, n: nat, w: World, e: Event, p: PeerIndex)
    requires MatchedBlocks.Inv(w.store)
    ensures e == Connect(p) ==> Next(c, n, w, e) == w.(peers := w.peers[p := RequestFirstLastState])
    ensures e == Disconnect(p) ==> Next(c, n, w, e) == w.(peers := w.peers - {p})
    ensures e == AskState(p) && p in w.peers && (OwesLastState(w.peers[p]) || w.peers[p].Request().Some?) ==>
              Next(c, n, w, e) == w.(peers := w.peers[p := Initialized])
    ensures e.Progress? ==> Next(c, n, w, e) == w.(store := MatchedBlocks.Next(w.store, e.step))
  {
    AskingKeeps(Initialized);
    if p in w.peers {
      AskingKeeps(w.peers[p]);
    }
  }

  /** How a peer may lose its proved state: it goes, or comes anew, or is asked while it owes an answer. */
  ghost predicate MayForget(w: World, e: Event, p: PeerIndex) {
    match e
    case Connect(q) => q == p
    case Disconnect(q) => q == p
    case AskState(q) => q == p && p in w.peers && RequestLastState(w.peers[p]).None?
    case AskProof(q, _) => q == p && p in w.peers && OwesLastState(w.peers[p])
    case Proof(_, _, verdict, _, _) => verdict.Crash?
    case _ => false
  }

  /** A proved state stays, or is replaced by another one, unless the step is one of those that may forget it. */
  lemma ProofIsKept(c: Rules, n: nat, w: World, e: Event, p: PeerIndex)
    requires MatchedBlocks.Inv(w.store) && p in w.peers && w.peers[p].Proven().Some? && !MayForget(w, e, p)
    ensures p in Next(c, n, w, e).peers && Next(c, n, w, e).peers[p].Proven().Some?
  {
    hide MatchedBlocks.Inv, MatchedBlocks.Next, MatchedBlocks.Committed, BuildFor, BuildContent, Worked, Same, NewChild;
  }
}
