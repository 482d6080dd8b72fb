/**
 Where proved states come from. Over any run of events, a proved state that a peer holds was earned at an
 earlier step by some peer, through a checked answer to its own request or as a checked child of what it
 held, and reached the peer by copies; and work stands behind all its headers.
 */
module Provenance {
  import opened Options
  import opened Keys
  import opened LightHeaders
  import opened LastStateProof
  import opened Quorum
  import opened PeerStates
  import MatchedBlocks
  import Samples

  // What a step may do to proved states

  predicate Holds(w: World, p: PeerIndex, s: ProveState) {
    p in w.peers && w.peers[p].Proven() == Some(s)
  }

  predicate Awaits(w: World, p: PeerIndex, r: ProveRequest) {
    p in w.peers && w.peers[p].Request() == Some(r)
  }

  /** Peer `q` sends a message that answers the request it was put, and passes every check against what it held. */
  ghost predicate Answers(c: Rules, n: nat, w: World, e: Event, q: PeerIndex, s: ProveState) {
    && e.Proof? && e.peer == q && q in w.peers && e.verdict == Proved(s)
    && w.peers[q].Request().Some? && Same(c, w.peers[q].Request().value.last, e.message.last)
    && Accepts(c, n, w.peers[q].Request().value, w.peers[q].Proven(), e.message, e.counts, s)
  }

  /** Peer `q` sends a checked last state that is a child of the one it has proved. */
  ghost predicate Extends(c: Rules, n: nat, w: World, e: Event, q: PeerIndex, s: ProveState) {
    && e.LastState? && e.peer == q && q in w.peers && !e.tooOld && Worked(c, e.last)
    && ExtendsProof(c, w.peers[q], e.last)
    && s == NewChild(w.peers[q].Proven().value, e.last, n)
  }

  ghost predicate Earns(c: Rules, n: nat, w: World, e: Event, q: PeerIndex, s: ProveState) {
    Answers(c, n, w, e, q, s) || Extends(c, n, w, e, q, s)
  }

  /** The last state that the peer of an event claims. */
  function Claimed(w: World, e: Event): Option<Verifiable> {
    match e
    case AskProof(p, _) => if p in w.peers then w.peers[p].LastState() else None
    case LastState(_, last, _, _) => Some(last)
    case Proof(_, m, _, _, _) => Some(m.last)
    case _ => None
  }

  /** Peer `p` copies the state that `r` has proved, which is its own claimed last state. */
  ghost predicate Copies(c: Rules, w: World, e: Event, p: PeerIndex, r: PeerIndex, s: ProveState) {
    && Claimed(w, e).Some? && e.peer == p && r != p
    && Holds(w, r, s) && Same(c, s.last, Claimed(w, e).value)
  }

  lemma AskProofOrigin(c: Rules, n: nat, w: World, p: PeerIndex, choice: Choice, q: PeerIndex, s: ProveState)
    requires p in w.peers && Holds(AfterAskProof(c, n, w, p, choice), q, s)
    ensures Holds(w, q, s)
            || (q == p && w.peers[p].LastState().Some?
                && exists r :: r != p && Holds(w, r, s) && Same(c, s.last, w.peers[p].LastState().value))
  {
    hide BuildFor, Same;
    var t := w.peers[p];
    if !Holds(w, q, s) && t.LastState().Some? {
      var source := ProofSource(c, w, t.LastState().value, choice.from);
      if source.Some? {
        assert Holds(w, source.value, w.peers[source.value].Proven().value);
      }
    }
  }

  /** The last state of the peer of a step is what it claims, before it is asked for a proof. */
  lemma ReceivedOrigin(c: Rules, n: nat, w: World, p: PeerIndex, last: Verifiable, choice: Choice, q: PeerIndex,
                       s: ProveState)
    requires p in w.peers && ReceiveLastState(w.peers[p], last).Some?
    requires Holds(AfterAskProof(c, n, Moved(w, p, ReceiveLastState(w.peers[p], last)), p, choice), q, s)
    ensures Holds(w, q, s) || (q == p && exists r :: r != p && Holds(w, r, s) && Same(c, s.last, last))
  {
    hide AfterAskProof;
    var w' := Moved(w, p, ReceiveLastState(w.peers[p], last));
    AskProofOrigin(c, n, w', p, choice, q, s);
    assert forall r, t :: Holds(w', r, t) <==> Holds(w, r, t);
  }

  lemma LastStateOrigin(c: Rules, n: nat, w: World, e: Event, p: PeerIndex, s: ProveState)
    requires MatchedBlocks.Inv(w.store) && e.LastState? && Holds(Next(c, n, w, e), p, s)
    ensures Holds(w, p, s) || Earns(c, n, w, e, p, s) || exists r :: Copies(c, w, e, p, r, s)
  {
    hide AfterAskProof, MatchedBlocks.Inv, MatchedBlocks.Next, NewChild, Worked, Same;
    var q, last := e.peer, e.last;
    if q in w.peers && Worked(c, last) && !e.tooOld {
      var t := w.peers[q];
      if t.LastState().None? && ReceiveLastState(t, last).Some? {
        ReceivedOrigin(c, n, w, q, last, e.choice, p, s);
        if !Holds(w, p, s) {
          var r :| r != q && Holds(w, r, s) && Same(c, s.last, last);
          assert Copies(c, w, e, p, r, s);
        }
      }
    }
  }

  lemma UnknownOrigin(c: Rules, n: nat, w: World, q: PeerIndex, m: Message, choice: Choice, p: PeerIndex, s: ProveState)
    requires q in w.peers && Holds(AfterUnknownProof(c, n, w, q, m, choice), p, s)
    ensures Holds(w, p, s) || (p == q && exists r :: r != q && Holds(w, r, s) && Same(c, s.last, m.last))
  {
    hide AfterAskProof, Worked, Same;
    if m.proof == [] && Worked(c, m.last) && ReceiveLastState(w.peers[q], m.last).Some? {
      ReceivedOrigin(c, n, w, q, m.last, choice, p, s);
    }
  }

  lemma ProvedOrigin(c: Rules, n: nat, w: World, q: PeerIndex, proved: ProveState, sample: Sample, p: PeerIndex,
                     s: ProveState)
    requires MatchedBlocks.Inv(w.store) && q in w.peers && Holds(AfterProved(c, n, w, q, proved, sample), p, s)
    ensures Holds(w, p, s) || (p == q && s == proved)
  {
    hide MatchedBlocks.Inv, MatchedBlocks.Next, MatchedBlocks.Committed, BuildContent, Numbered, TipOf;
  }

  lemma ProofOrigin(c: Rules, n: nat, w: World, e: Event, p: PeerIndex, s: ProveState)
    requires MatchedBlocks.Inv(w.store) && e.Proof? && Enabled(c, n, w, e) && Holds(Next(c, n, w, e), p, s)
    ensures Holds(w, p, s) || Earns(c, n, w, e, p, s) || exists r :: Copies(c, w, e, p, r, s)
  {
    hide AfterUnknownProof, AfterProved, MatchedBlocks.Inv, MatchedBlocks.Next, Worked, Same, Accepts, BuildFor,
        BuildContent,
      PassesOthers, TauChecked, NothingAccepted;
    var q, m := e.peer, e.message;
    if q in w.peers && w.peers[q].Request().Some? {
      if !Same(c, w.peers[q].Request().value.last, m.last) {
        UnknownOrigin(c, n, w, q, m, e.choice, p, s);
        if !Holds(w, p, s) {
          var r :| r != q && Holds(w, r, s) && Same(c, s.last, m.last);
          assert Copies(c, w, e, p, r, s);
        }
      } else if e.verdict.Proved? {
        ProvedOrigin(c, n, w, q, e.verdict.state, e.choice.sample, p, s);
      }
    }
  }

  /** What a peer holds after a step it held before, has earned, or has copied from a peer that held it. */
  lemma StepOrigin(c: Rules, n: nat, w: World, e: Event, p: PeerIndex, s: ProveState)
    requires MatchedBlocks.Inv(w.store) && Enabled(c, n, w, e) && Holds(Next(c, n, w, e), p, s)
    ensures Holds(w, p, s) || Earns(c, n, w, e, p, s) || exists r :: Copies(c, w, e, p, r, s)
  {
    hide AfterAskProof, AfterLastState, AfterProof, MatchedBlocks.Inv, MatchedBlocks.Next, Earns, IsVerdict;
    match e
    case LastState(_, _, _, _) => LastStateOrigin(c, n, w, e, p, s);
    case Proof(_, _, _, _, _) => ProofOrigin(c, n, w, e, p, s);
    case AskProof(q, choice) =>
      if q in w.peers {
        AskProofOrigin(c, n, w, q, choice, p, s);
        if !Holds(w, p, s) {
          var r :| r != q && Holds(w, r, s) && Same(c, s.last, w.peers[q].LastState().value);
          assert Copies(c, w, e, p, r, s);
        }
      }
    case _ =>
  }

  // Runs

  ghost predicate IsRun(c: Rules, n: nat, worlds: seq<World>, events: seq<Event>) {
    && |worlds| == |events| + 1
    && worlds[0].peers == map[] && MatchedBlocks.Inv(worlds[0].store)
    && forall i :: 0 <= i < |events| ==> StepsTo(c, n, worlds[i], events[i], worlds[i + 1])
  }

  ghost predicate StepsTo(c: Rules, n: nat, w: World, e: Event, w': World) {
    MatchedBlocks.Inv(w.store) && Enabled(c, n, w, e) && w' == Next(c, n, w, e)
  }

  /** In one step the state moves on from peer `r`: that peer keeps it, or peer `p` copies it. */
  ghost predicate MovesOn(c: Rules, w: World, e: Event, w': World, r: PeerIndex, p: PeerIndex, s: ProveState) {
    Holds(w, r, s) && Holds(w', p, s) && (p == r || Copies(c, w, e, p, r, s))
  }

  /**
   State `s` was earned at step `j` by the first peer of the trail, and came to the last one in world `i`:
   from world to world the peer on the trail keeps it, or the next one copies it.
   */
  ghost predicate Traced(c: Rules, n: nat, worlds: seq<World>, events: seq<Event>, i: nat, p: PeerIndex, s: ProveState,
                         j: nat, trail: seq<PeerIndex>)
    requires |worlds| == |events| + 1 && i <= |events|
  {
    && j < i && |trail| == i - j && trail[|trail| - 1] == p
    && Earns(c, n, worlds[j], events[j], trail[0], s) && Holds(worlds[j + 1], trail[0], s)
    && forall k :: 0 < k < |trail| ==> MovesOn(c, worlds[j + k], events[j + k], worlds[j + k + 1], trail[k - 1],
        trail[k], s)
  }

  lemma TraceOn(c: Rules, n: nat, worlds: seq<World>, events: seq<Event>, i: nat, r: PeerIndex, p: PeerIndex,
                s: ProveState,
                j: nat, trail: seq<PeerIndex>)
    requires |worlds| == |events| + 1 && i < |events|
    requires Traced(c, n, worlds, events, i, r, s, j, trail)
    requires MovesOn(c, worlds[i], events[i], worlds[i + 1], r, p, s)
    ensures Traced(c, n, worlds, events, i + 1, p, s, j, trail + [p])
  {
    hide Earns, MovesOn;
    var longer := trail + [p];
    forall k | 0 < k < |longer|
      ensures MovesOn(c, worlds[j + k], events[j + k], worlds[j + k + 1], longer[k - 1], longer[k], s)
    {
      assert k < |trail| ==> longer[k - 1] == trail[k - 1] && longer[k] == trail[k];
    }
  }

  /** In every run, every proved state that a peer holds was earned by some peer, and came from it by copies. */
  lemma {:induction false} ProvedStatesAreTraced(c: Rules, n: nat, worlds: seq<World>, events: seq<Event>, i: nat,
                                                 p: PeerIndex, s: ProveState)
    returns (j: nat, trail: seq<PeerIndex>)
    requires IsRun(c, n, worlds, events) && i <= |events| && Holds(worlds[i], p, s)
    ensures Traced(c, n, worlds, events, i, p, s, j, trail)
  {
    hide Next, Enabled, MatchedBlocks.Inv, Earns, Copies;
    var h := i - 1;
    assert StepsTo(c, n, worlds[h], events[h], worlds[h + 1]);
    StepOrigin(c, n, worlds[h], events[h], p, s);
    if Earns(c, n, worlds[h], events[h], p, s) {
      j, trail := h, [p];
    } else {
      var r := p;
      if !Holds(worlds[h], p, s) {
        r :| Copies(c, worlds[h], events[h], p, r, s);
        CopiesHeld(c, worlds[h], events[h], p, r, s);
      }
      j, trail := ProvedStatesAreTraced(c, n, worlds, events, h, r, s);
      TraceOn(c, n, worlds, events, h, r, p, s, j, trail);
      trail := trail + [p];
    }
  }

  lemma CopiesHeld(c: Rules, w: World, e: Event, p: PeerIndex, r: PeerIndex, s: ProveState)
    requires Copies(c, w, e, p, r, s)
    ensures Holds(w, r, s)
  {
  }

  // Requests

  /**
   The step puts request `r` to peer `q`: for its last state, once more without the tau rule, or from the
   genesis block on.
   */
  ghost predicate Puts(c: Rules, n: nat, w: World, e: Event, q: PeerIndex, r: ProveRequest) {
    && Claimed(w, e).Some? && e.peer == q && q in w.peers
    && (|| PutsPlain(c, n, w, e, q, r) || PutsRecheck(c, n, w, e, q, r) || PutsFromGenesis(c, n, w, e, q, r))
  }

  ghost predicate PutsPlain(c: Rules, n: nat, w: World, e: Event, q: PeerIndex, r: ProveRequest)
    requires Claimed(w, e).Some? && q in w.peers
  {
    && r.last == Claimed(w, e).value && !r.skipTau && !r.longFork && (e.AskProof? || Worked(c, r.last))
    && Some(r.content) == BuildFor(c, n, w, w.peers[q].Proven(), r.last, e.choice.sample)
  }

  ghost predicate PutsRecheck(c: Rules, n: nat, w: World, e: Event, q: PeerIndex, r: ProveRequest)
    requires Claimed(w, e).Some? && q in w.peers
  {
    && e.Proof? && e.verdict == Recheck
    && w.peers[q].Request().Some? && Same(c, w.peers[q].Request().value.last, e.message.last)
    && r.last == e.message.last && r.skipTau && !r.longFork
    && Some(r.content) == BuildFor(c, n, w, w.peers[q].Proven(), r.last, e.choice.sample)
  }

  ghost predicate PutsFromGenesis(c: Rules, n: nat, w: World, e: Event, q: PeerIndex, r: ProveRequest)
    requires Claimed(w, e).Some? && q in w.peers
  {
    && e.Proof? && e.verdict.Proved? && Answers(c, n, w, e, q, e.verdict.state)
    && r.last == e.verdict.state.last && !r.skipTau && r.longFork
    && Some(r.content) == BuildContent(c, n, 0, 0, [], r.last, e.choice.sample)
  }

  lemma AskProofPuts(c: Rules, n: nat, w: World, p: PeerIndex, choice: Choice, q: PeerIndex, r: ProveRequest)
    requires p in w.peers && Awaits(AfterAskProof(c, n, w, p, choice), q, r)
    ensures Awaits(w, q, r)
            || (&& q == p && w.peers[p].LastState() == Some(r.last) && !r.skipTau && !r.longFork
                && Some(r.content) == BuildFor(c, n, w, w.peers[p].Proven(), r.last, choice.sample))
  {
    hide BuildFor, Same;
  }

  lemma ReceivedPuts(c: Rules, n: nat, w: World, p: PeerIndex, last: Verifiable, choice: Choice, q: PeerIndex,
                     r: ProveRequest)
    requires p in w.peers && ReceiveLastState(w.peers[p], last).Some?
    requires Awaits(AfterAskProof(c, n, Moved(w, p, ReceiveLastState(w.peers[p], last)), p, choice), q, r)
    ensures Awaits(w, q, r)
            || (&& q == p && r.last == last && !r.skipTau && !r.longFork
                && Some(r.content) == BuildFor(c, n, w, w.peers[p].Proven(), r.last, choice.sample))
  {
    hide AfterAskProof, BuildContent;
    AskProofPuts(c, n, Moved(w, p, ReceiveLastState(w.peers[p], last)), p, choice, q, r);
  }

  lemma LastStatePuts(c: Rules, n: nat, w: World, e: Event, p: PeerIndex, r: ProveRequest)
    requires MatchedBlocks.Inv(w.store) && e.LastState? && Awaits(Next(c, n, w, e), p, r)
    ensures Awaits(w, p, r) || Puts(c, n, w, e, p, r)
  {
    hide AfterAskProof, MatchedBlocks.Inv, MatchedBlocks.Next, NewChild, Worked, Same, BuildFor;
    var q, last := e.peer, e.last;
    if q in w.peers && Worked(c, last) && !e.tooOld && w.peers[q].LastState().None?
        && ReceiveLastState(w.peers[q], last).Some? {
      ReceivedPuts(c, n, w, q, last, e.choice, p, r);
    }
  }

  lemma ProvedPuts(c: Rules, n: nat, w: World, q: PeerIndex, proved: ProveState, sample: Sample, p: PeerIndex,
                   r: ProveRequest)
    requires MatchedBlocks.Inv(w.store) && q in w.peers && Awaits(AfterProved(c, n, w, q, proved, sample), p, r)
    ensures Awaits(w, p, r)
            || (&& p == q && r.last == proved.last && !r.skipTau && r.longFork
                && Some(r.content) == BuildContent(c, n, 0, 0, [], r.last, sample))
  {
    hide MatchedBlocks.Inv, MatchedBlocks.Next, MatchedBlocks.Committed, BuildContent, Numbered, TipOf;
  }

  lemma UnknownPuts(c: Rules, n: nat, w: World, q: PeerIndex, m: Message, choice: Choice, p: PeerIndex, r: ProveRequest)
    requires q in w.peers && Awaits(AfterUnknownProof(c, n, w, q, m, choice), p, r)
    ensures Awaits(w, p, r)
            || (&& p == q && r.last == m.last && !r.skipTau && !r.longFork && Worked(c, r.last)
                && Some(r.content) == BuildFor(c, n, w, w.peers[q].Proven(), r.last, choice.sample))
  {
    hide AfterAskProof, BuildFor, Worked;
    if m.proof == [] && Worked(c, m.last) && ReceiveLastState(w.peers[q], m.last).Some? {
      ReceivedPuts(c, n, w, q, m.last, choice, p, r);
    }
  }

  lemma ProofPuts(c: Rules, n: nat, w: World, e: Event, p: PeerIndex, r: ProveRequest)
    requires MatchedBlocks.Inv(w.store) && e.Proof? && Enabled(c, n, w, e) && Awaits(Next(c, n, w, e), p, r)
    ensures Awaits(w, p, r) || Puts(c, n, w, e, p, r)
  {
    hide AfterUnknownProof, AfterProved, MatchedBlocks.Inv, MatchedBlocks.Next, Worked, Same, Accepts, BuildFor,
        BuildContent,
      PassesOthers, TauChecked, NothingAccepted;
    var q, m := e.peer, e.message;
    if q in w.peers && w.peers[q].Request().Some? {
      if !Same(c, w.peers[q].Request().value.last, m.last) {
        UnknownPuts(c, n, w, q, m, e.choice, p, r);
      } else if e.verdict.Proved? {
        ProvedPuts(c, n, w, q, e.verdict.state, e.choice.sample, p, r);
      }
    }
  }

  /** What a peer is awaited to answer after a step it was awaited to answer before, or the step has put it. */
  lemma StepPuts(c: Rules, n: nat, w: World, e: Event, p: PeerIndex, r: ProveRequest)
    requires MatchedBlocks.Inv(w.store) && Enabled(c, n, w, e) && Awaits(Next(c, n, w, e), p, r)
    ensures Awaits(w, p, r) || Puts(c, n, w, e, p, r)
  {
    hide AfterAskProof, AfterLastState, AfterProof, MatchedBlocks.Inv, MatchedBlocks.Next, IsVerdict, BuildFor;
    match e
    case LastState(_, _, _, _) => LastStatePuts(c, n, w, e, p, r);
    case Proof(_, _, _, _, _) => ProofPuts(c, n, w, e, p, r);
    case AskProof(q, choice) =>
      if q in w.peers {
        AskProofPuts(c, n, w, q, choice, p, r);
      }
    case _ =>
  }

  /** The request was put to the peer at step `h` and awaited ever since. */
  ghost predicate PutAt(c: Rules, n: nat, worlds: seq<World>, events: seq<Event>, i: nat, p: PeerIndex,
                        r: ProveRequest, h: nat)
    requires |worlds| == |events| + 1 && i <= |events|
  {
    && h < i && Puts(c, n, worlds[h], events[h], p, r)
    && forall k :: h < k <= i ==> Awaits(worlds[k], p, r)
  }

  lemma {:induction false} RequestsArePut(c: Rules, n: nat, worlds: seq<World>, events: seq<Event>, i: nat,
                          p: PeerIndex, r: ProveRequest)
    returns (h: nat)
    requires IsRun(c, n, worlds, events) && i <= |events| && Awaits(worlds[i], p, r)
    ensures PutAt(c, n, worlds, events, i, p, r, h)
  {
    hide Next, Enabled, MatchedBlocks.Inv, Puts;
    h := i - 1;
    assert StepsTo(c, n, worlds[h], events[h], worlds[h + 1]);
    StepPuts(c, n, worlds[h], events[h], p, r);
    if Awaits(worlds[h], p, r) {
      h := RequestsArePut(c, n, worlds, events, h, p, r);
    }
  }

  /** Peer `q` answers, at step `j`, the request that was put to that very peer before and is still awaited. */
  ghost predicate AnswersOwnRequest(c: Rules, n: nat, worlds: seq<World>, events: seq<Event>, j: nat, q: PeerIndex,
                          s: ProveState)
    requires |worlds| == |events| + 1 && j < |events|
  {
    && Answers(c, n, worlds[j], events[j], q, s)
    && exists h :: PutAt(c, n, worlds, events, j, q, worlds[j].peers[q].Request().value, h)
  }

  /**
   In every run, a proved state that a peer holds came by copies from a peer that earned it: by a message,
   received then, that answers the peer's own request, put to it before, and passes every check against
   what the peer held; or by a last state, received then, that is the checked child of what the peer held.
   */
  lemma RunHasProvenance(c: Rules, n: nat, worlds: seq<World>, events: seq<Event>, i: nat, p: PeerIndex, s: ProveState)
    returns (j: nat, trail: seq<PeerIndex>)
    requires IsRun(c, n, worlds, events) && i <= |events| && Holds(worlds[i], p, s)
    ensures Traced(c, n, worlds, events, i, p, s, j, trail)
    ensures AnswersOwnRequest(c, n, worlds, events, j, trail[0], s) || Extends(c, n, worlds[j], events[j], trail[0], s)
  {
    hide StepsTo, Extends, MovesOn, Accepts, PutAt;
    j, trail := ProvedStatesAreTraced(c, n, worlds, events, i, p, s);
    if Answers(c, n, worlds[j], events[j], trail[0], s) {
      var h := RequestsArePut(c, n, worlds, events, j, trail[0], worlds[j].peers[trail[0]].Request().value);
    }
  }

  // Work, bounds and order

  ghost predicate AllWorked(c: Rules, headers: seq<Header>) {
    forall h :: h in headers ==> c.nonceIsValid(h)
  }

  /** Work stands behind every header of a proved state, and the list of last headers is bounded. */
  ghost predicate IsWorked(c: Rules, n: nat, s: ProveState) {
    && c.nonceIsValid(s.last.header) && IsValid(c, s.last)
    && AllWorked(c, s.lastHeaders) && AllWorked(c, s.reorg) && |s.lastHeaders| <= n
  }

  ghost predicate RequestIsSound(c: Rules, r: ProveRequest) {
    Worked(c, r.last) && Samples.SortedDifficulties(r.content.difficulties)
  }

  ghost predicate PeerIsSound(c: Rules, n: nat, s: PeerState) {
    && (s.LastState().Some? ==> Worked(c, s.LastState().value))
    && (s.Request().Some? ==> RequestIsSound(c, s.Request().value))
    && (s.Proven().Some? ==> IsWorked(c, n, s.Proven().value))
  }

  ghost predicate Sound(c: Rules, n: nat, w: World) {
    && (forall p :: p in w.peers ==> PeerIsSound(c, n, w.peers[p]))
    && MatchedBlocks.Inv(w.store)
  }

  lemma ContentIsSorted(c: Rules, n: nat, start: nat, startTotal: nat, stored: seq<(nat, Hash)>, last: Verifiable,
                        sample: Sample)
    requires Samples.SortedDifficulties(sample.difficulties)
    ensures var r := BuildContent(c, n, start, startTotal, stored, last, sample);
            r.Some? ==> Samples.SortedDifficulties(r.value.difficulties)
  {
  }

  lemma BuiltIsSorted(c: Rules, n: nat, w: World, proven: Option<ProveState>, last: Verifiable, sample: Sample)
    requires Samples.SortedDifficulties(sample.difficulties)
    ensures var r := BuildFor(c, n, w, proven, last, sample);
            r.Some? ==> Samples.SortedDifficulties(r.value.difficulties)
  {
    hide BuildContent;
    var start := if proven.Some? then TipOf(c, proven.value) else w.store.tip;
    ContentIsSorted(c, n, start.number, start.total, w.store.lastHeaders, last, sample);
  }

  /** The last header of a message that passes the checks is worked if the one it was asked for is. */
  lemma CheckedIsWorked(c: Rules, n: nat, request: ProveRequest, prev: Option<ProveState>, m: Message,
                        k: Samples.Response)
    requires Worked(c, request.last) && Same(c, request.last, m.last) && PassesOthers(c, n, request, prev, m, k)
    ensures Worked(c, m.last)
  {
    hide Matches, HeadersAreValid, PartsAreLinked, GainIsPlausible, IsValid;
  }

  lemma PutIsSound(c: Rules, n: nat, w: World, e: Event, q: PeerIndex, r: ProveRequest)
    requires Sound(c, n, w) && Enabled(c, n, w, e) && Puts(c, n, w, e, q, r)
    ensures RequestIsSound(c, r)
  {
    hide MatchedBlocks.Inv, BuildFor, BuildContent, Worked, IsWorked, PassesOthers, TauChecked, NothingAccepted, Same;
    assert PeerIsSound(c, n, w.peers[q]);
    if PutsFromGenesis(c, n, w, e, q, r) {
      ContentIsSorted(c, n, 0, 0, [], r.last, e.choice.sample);
    } else {
      BuiltIsSorted(c, n, w, w.peers[q].Proven(), r.last, e.choice.sample);
      if PutsRecheck(c, n, w, e, q, r) {
        CheckedIsWorked(c, n, w.peers[q].Request().value, w.peers[q].Proven(), e.message, e.counts);
      }
    }
  }

  lemma AcceptedIsWorked(c: Rules, n: nat, request: ProveRequest, prev: Option<ProveState>, m: Message,
                         k: Samples.Response, s: ProveState)
    requires Accepts(c, n, request, prev, m, k, s)
    requires prev.Some? ==> AllWorked(c, prev.value.lastHeaders)
    ensures s.last == request.last && |s.lastHeaders| <= n
    ensures AllWorked(c, s.lastHeaders) && AllWorked(c, s.reorg)
  {
    hide Matches, PartsAreLinked, IsInChain, GainIsPlausible, TauChecked, IsValid, Suffix;
    PartsAddUp(c, n, request, m, k);
    var headers := HeadersOf(m.headers);
    assert AllWorked(c, headers);
    var all := Before(prev, headers, k.reorg) + headers[|headers| - k.lastN..];
    assert AllWorked(c, all);
    SuffixIsPart(all, n);
  }

  lemma PartsAddUp(c: Rules, n: nat, request: ProveRequest, m: Message, k: Samples.Response)
    requires Matches(c, n, request, m, k)
    ensures k.Matched? && k.reorg + k.sampled + k.lastN == |m.headers|
  {
    hide Samples.SamplesAnswered;
  }

  lemma SuffixIsPart(s: seq<Header>, n: nat)
    ensures forall h :: h in Suffix(s, n) ==> h in s
  {
  }

  /** What a peer earns in a sound client is worked. */
  lemma EarnedIsWorked(c: Rules, n: nat, w: World, e: Event, q: PeerIndex, s: ProveState)
    requires n > 0 && Sound(c, n, w) && Earns(c, n, w, e, q, s)
    ensures IsWorked(c, n, s)
  {
    hide MatchedBlocks.Inv, Accepts, IsValid, Same;
    assert PeerIsSound(c, n, w.peers[q]);
    if Answers(c, n, w, e, q, s) {
      AcceptedIsWorked(c, n, w.peers[q].Request().value, w.peers[q].Proven(), e.message, e.counts, s);
    }
  }

  /** A last state is taken over only with its work and its chain root checked. */
  lemma StepLastState(c: Rules, n: nat, w: World, e: Event, p: PeerIndex)
    requires MatchedBlocks.Inv(w.store) && p in Next(c, n, w, e).peers && Next(c, n, w, e).peers[p].LastState().Some?
    ensures var last := Next(c, n, w, e).peers[p].LastState();
            (p in w.peers && w.peers[p].LastState() == last) || Worked(c, last.value)
  {
    hide MatchedBlocks.Inv, MatchedBlocks.Next, MatchedBlocks.Committed, BuildFor, BuildContent, Worked, Same, NewChild;
  }

  lemma NextKeepsStore(c: Rules, n: nat, w: World, e: Event)
    requires MatchedBlocks.Inv(w.store)
    ensures MatchedBlocks.Inv(Next(c, n, w, e).store)
  {
    hide MatchedBlocks.Inv, MatchedBlocks.Next, MatchedBlocks.Committed, BuildFor, BuildContent, Worked, Same, NewChild;
    forall step ensures MatchedBlocks.Inv(MatchedBlocks.Next(w.store, step)) {
      MatchedBlocks.NextKeepsInv(w.store, step);
    }
  }

  lemma NextKeepsSound(c: Rules, n: nat, w: World, e: Event)
    requires n > 0 && Sound(c, n, w) && Enabled(c, n, w, e)
    ensures Sound(c, n, Next(c, n, w, e))
  {
    hide MatchedBlocks.Inv, Next, Enabled, Worked, IsWorked, RequestIsSound, Puts, Earns;
    var w' := Next(c, n, w, e);
    NextKeepsStore(c, n, w, e);
    forall p | p in w'.peers ensures PeerIsSound(c, n, w'.peers[p]) {
      NextKeepsPeer(c, n, w, e, p);
    }
  }

  lemma NextKeepsPeer(c: Rules, n: nat, w: World, e: Event, p: PeerIndex)
    requires n > 0 && Sound(c, n, w) && Enabled(c, n, w, e) && p in Next(c, n, w, e).peers
    ensures PeerIsSound(c, n, Next(c, n, w, e).peers[p])
  {
    hide MatchedBlocks.Inv, Next, Enabled, Worked, IsWorked, RequestIsSound, Puts, Earns;
    var t := Next(c, n, w, e).peers[p];
    assert p in w.peers ==> PeerIsSound(c, n, w.peers[p]);
    if t.LastState().Some? {
      StepLastState(c, n, w, e, p);
    }
    if t.Request().Some? {
      StepPuts(c, n, w, e, p, t.Request().value);
      if Puts(c, n, w, e, p, t.Request().value) {
        PutIsSound(c, n, w, e, p, t.Request().value);
      }
    }
    if t.Proven().Some? {
      ProvenIsWorked(c, n, w, e, p, t.Proven().value);
    }
  }

  lemma ProvenIsWorked(c: Rules, n: nat, w: World, e: Event, p: PeerIndex, s: ProveState)
    requires n > 0 && Sound(c, n, w) && Enabled(c, n, w, e) && Holds(Next(c, n, w, e), p, s)
    ensures IsWorked(c, n, s)
  {
    hide MatchedBlocks.Inv, Next, Enabled, Worked, IsWorked, RequestIsSound, Earns;
    StepOrigin(c, n, w, e, p, s);
    if Earns(c, n, w, e, p, s) {
      EarnedIsWorked(c, n, w, e, p, s);
    } else if Holds(w, p, s) {
      assert PeerIsSound(c, n, w.peers[p]);
    } else {
      var r :| Copies(c, w, e, p, r, s);
      assert PeerIsSound(c, n, w.peers[r]);
    }
  }

  lemma {:induction false} RunIsSound(c: Rules, n: nat, worlds: seq<World>, events: seq<Event>, i: nat)
    requires n > 0 && IsRun(c, n, worlds, events) && i <= |events|
    ensures Sound(c, n, worlds[i])
  {
    hide Next, Enabled, MatchedBlocks.Inv, PeerIsSound;
    if i > 0 {
      var h := i - 1;
      RunIsSound(c, n, worlds, events, h);
      assert StepsTo(c, n, worlds[h], events[h], worlds[h + 1]);
      NextKeepsSound(c, n, worlds[h], events[h]);
    }
  }

  /** In every run, at every peer: work stands behind every header of a proved state, and its list stays bounded. */
  lemma ProvedStatesAreWorked(c: Rules, n: nat, worlds: seq<World>, events: seq<Event>, i: nat, p: PeerIndex,
                          s: ProveState)
    requires n > 0 && IsRun(c, n, worlds, events) && i <= |events| && Holds(worlds[i], p, s)
    ensures IsWorked(c, n, s)
  {
    hide IsWorked, MatchedBlocks.Inv, StepsTo;
    RunIsSound(c, n, worlds, events, i);
    assert PeerIsSound(c, n, worlds[i].peers[p]);
  }

  /** In every run, a message by which a peer earns a state answers all samples that were asked for. */
  lemma AnswersAreCovered(c: Rules, n: nat, worlds: seq<World>, events: seq<Event>, j: nat, q: PeerIndex, s: ProveState)
    requires n > 0 && IsRun(c, n, worlds, events) && j < |events| && Answers(c, n, worlds[j], events[j], q, s)
    ensures var (r, m, k) := (worlds[j].peers[q].Request().value, events[j].message, events[j].counts);
            Matches(c, n, r, m, k) && Samples.SamplesAnswered(r.content, Views(c, m.headers), k)
  {
    hide MatchedBlocks.Inv, StepsTo, HeadersAreValid, PartsAreLinked, IsInChain, GainIsPlausible, TauChecked,
        Samples.Shape,
      Samples.SamplesAnswered, Same, IsWorked;
    RunIsSound(c, n, worlds, events, j);
    assert PeerIsSound(c, n, worlds[j].peers[q]);
  }

  /**
   Number and total of where the proof that a request asks for starts: at the genesis block, at what the peer
   has proved, or at the tip.
   */
  function StartOf(c: Rules, w: World, q: PeerIndex, r: ProveRequest): (nat, nat)
    requires q in w.peers
  {
    if r.longFork then (0, 0)
    else if w.peers[q].Proven().Some? then
      var last := w.peers[q].Proven().value.last;
      (last.header.number, TotalOf(c, last))
    else (w.store.tip.number, w.store.tip.total)
  }

  /** Some stored last header lies below the start, and no more than n blocks below the last state. */
  ghost predicate StoredFits(w: World, start: nat, last: nat, n: nat) {
    exists i :: 0 <= i < |w.store.lastHeaders| && w.store.lastHeaders[i].0 < start
        && last <= w.store.lastHeaders[i].0 + n
  }

  /**
   A request asks for a last state that is ahead of its start. More than n blocks behind it asks for the samples
   of its step; with at most n blocks it asks for none, and may start at a stored header below.
   */
  lemma PutAsks(c: Rules, n: nat, w: World, e: Event, q: PeerIndex, r: ProveRequest)
    requires Puts(c, n, w, e, q, r)
    ensures var (start, last) := (StartOf(c, w, q, r), r.last.header.number);
            && start.0 < last && start.1 <= TotalOf(c, r.last)
            && if last - start.0 > n
               then r.content == Samples.Request(start.0, e.choice.sample.boundary, e.choice.sample.difficulties)
               else
                 && r.content.boundary == start.1 && r.content.difficulties == []
                 && r.content.startNumber <= start.0 && last <= r.content.startNumber + n
                 && (r.content.startNumber < start.0 <==> !r.longFork && StoredFits(w, start.0, last, n))
  {
    hide Answers, Same, Worked;
    var stored := if r.longFork then [] else w.store.lastHeaders;
    var i := FirstFitIsFirst(stored, StartOf(c, w, q, r).0, r.last.header.number, n);
    assert i < |stored| ==> stored[i].0 < StartOf(c, w, q, r).0;
  }

  /** In every run, a message with samples that earns a state answers those drawn when its request was put. */
  lemma DrawnSamplesAreAnswered(c: Rules, n: nat, worlds: seq<World>, events: seq<Event>, j: nat, q: PeerIndex,
                                s: ProveState, h: nat)
    requires n > 0 && IsRun(c, n, worlds, events) && j < |events| && Answers(c, n, worlds[j], events[j], q, s)
    requires var r := worlds[j].peers[q].Request().value;
             && PutAt(c, n, worlds, events, j, q, r, h)
             && r.last.header.number - StartOf(c, worlds[h], q, r).0 > n && events[j].counts.sampled > 0
    ensures var (views, k) := (Views(c, events[j].message.headers), events[j].counts);
            && k.reorg + k.sampled + k.lastN == |views| && k.lastN > 0
            && Samples.Coverage(events[h].choice.sample.difficulties, views[k.reorg..k.reorg + k.sampled],
                 views[k.reorg + k.sampled])
  {
    hide StepsTo, Accepts, Puts, Samples.Shape, Samples.Coverage;
    var r := worlds[j].peers[q].Request().value;
    AnswersAreCovered(c, n, worlds, events, j, q, s);
    PartsAddUp(c, n, r, events[j].message, events[j].counts);
    PutAsks(c, n, worlds[h], events[h], q, r);
  }

  /**
   In every run, a message that earns a state for a request of at most n blocks has no samples, and its last
   headers are all blocks from the start of the request up to the last state.
   */
  lemma ShortAnswersAreComplete(c: Rules, n: nat, worlds: seq<World>, events: seq<Event>, j: nat, q: PeerIndex,
                                s: ProveState, h: nat, i: nat)
    requires n > 0 && IsRun(c, n, worlds, events) && j < |events| && Answers(c, n, worlds[j], events[j], q, s)
    requires var r := worlds[j].peers[q].Request().value;
             && PutAt(c, n, worlds, events, j, q, r, h)
             && r.last.header.number - StartOf(c, worlds[h], q, r).0 <= n
    requires i < events[j].counts.lastN
    ensures var (r, m, k) := (worlds[j].peers[q].Request().value, events[j].message, events[j].counts);
            && k.sampled == 0 && k.reorg + k.lastN == |m.headers|
            && m.headers[k.reorg + i].header.number == r.content.startNumber + i
            && r.content.startNumber + k.lastN == m.last.header.number
  {
    hide StepsTo, Accepts, Puts, Matches, Samples.SamplesAnswered;
    var (r, m, k) := (worlds[j].peers[q].Request().value, events[j].message, events[j].counts);
    AnswersAreCovered(c, n, worlds, events, j, q, s);
    PutAsks(c, n, worlds[h], events[h], q, r);
    ShortAnswerIsComplete(c, n, r, worlds[j].peers[q].Proven(), m, k, s, i);
  }

  lemma ShortAnswerIsComplete(c: Rules, n: nat, r: ProveRequest, prev: Option<ProveState>, m: Message,
                              k: Samples.Response, s: ProveState, i: nat)
    requires Accepts(c, n, r, prev, m, k, s) && r.content.difficulties == [] && i < k.lastN
    requires Matches(c, n, r, m, k) && Samples.SamplesAnswered(r.content, Views(c, m.headers), k)
    ensures k.sampled == 0 && k.reorg + k.lastN == |m.headers|
    ensures m.headers[k.reorg + i].header.number == r.content.startNumber + i
    ensures r.content.startNumber + k.lastN == m.last.header.number
  {
    hide Accepts, Matches, PartsAreLinked, Samples.SamplesAnswered;
    NothingAskedNothingSampled(c, n, r, m, k);
    AcceptedAreLinked(c, n, r, prev, m, k, s);
    NothingIsMissing(c, n, r, m, k);
    NewestFollow(c, m, k, i);
    NewestFollow(c, m, k, k.lastN - 1);
  }

  lemma NewestFollow(c: Rules, m: Message, k: Samples.Response, i: nat)
    requires k.Matched? && k.sampled == 0 && k.reorg + k.lastN == |m.headers| && i < k.lastN && PartsAreLinked(c, m, k)
    ensures m.headers[k.reorg + i].header.number == m.headers[k.reorg].header.number + i
  {
    hide Linked;
    var newest := HeadersOf(m.headers)[k.reorg..];
    NumbersFollow(c, newest, 0, i);
    assert newest[i] == m.headers[k.reorg + i].header && newest[0] == m.headers[k.reorg].header;
  }

  lemma NothingIsMissing(c: Rules, n: nat, r: ProveRequest, m: Message, k: Samples.Response)
    requires Matches(c, n, r, m, k) && k.Matched? && k.sampled == 0 && k.lastN > 0 && k.reorg + k.lastN == |m.headers|
    ensures m.headers[k.reorg].header.number == r.content.startNumber
    ensures m.headers[|m.headers| - 1].header.number + 1 == m.last.header.number
  {
    hide Samples.SamplesAnswered, Samples.ReorgShape, Samples.CountShape;
    var views := Views(c, m.headers);
    assert views[k.reorg].number == m.headers[k.reorg].header.number;
    assert views[|views| - 1].number == m.headers[|m.headers| - 1].header.number;
  }

  lemma NothingAskedNothingSampled(c: Rules, n: nat, r: ProveRequest, m: Message, k: Samples.Response)
    requires Matches(c, n, r, m, k) && Samples.SamplesAnswered(r.content, Views(c, m.headers), k)
    requires r.content.difficulties == []
    ensures k.sampled == 0
  {
    hide Samples.Coverage, Samples.Shape;
    if k.sampled > 0 {
      var views := Views(c, m.headers);
      PartsAddUp(c, n, r, m, k);
      NobodyAnswersNothing(views[k.reorg..k.reorg + k.sampled], views[k.reorg + k.sampled]);
    }
  }

  lemma NobodyAnswersNothing(sampled: seq<Samples.Header>, firstLastN: Samples.Header)
    requires sampled != []
    ensures !Samples.Coverage([], sampled, firstLastN)
  {
    assert !Samples.Answers(sampled[0], []);
  }

  lemma AcceptedAreLinked(c: Rules, n: nat, r: ProveRequest, prev: Option<ProveState>, m: Message, k: Samples.Response,
                          s: ProveState)
    requires Accepts(c, n, r, prev, m, k, s)
    ensures k.Matched? && k.reorg + k.sampled + k.lastN == |m.headers| && PartsAreLinked(c, m, k)
  {
    hide Matches, HeadersAreValid, PartsAreLinked, IsInChain, GainIsPlausible, TauChecked;
    PartsAddUp(c, n, r, m, k);
  }

  /** A child keeps the reorg headers, and what was the last header is the newest one of its list. */
  lemma ChildrenRemember(c: Rules, n: nat, worlds: seq<World>, events: seq<Event>, j: nat, q: PeerIndex, s: ProveState)
    requires n > 0 && IsRun(c, n, worlds, events) && j < |events| && Extends(c, n, worlds[j], events[j], q, s)
    ensures var p := worlds[j].peers[q].Proven().value;
            && s.last == events[j].last && s.reorg == p.reorg
            && TotalOf(c, worlds[j].peers[q].LastState().value) < TotalOf(c, s.last)
            && s.lastHeaders == Suffix(p.lastHeaders + [p.last.header], n)
            && (Linked(c, p.lastHeaders + [p.last.header]) ==> Linked(c, s.lastHeaders + [s.last.header]))
  {
    hide MatchedBlocks.Inv, StepsTo, Suffix, Linked, Worked, NewChild;
    var p := worlds[j].peers[q].Proven().value;
    RunIsSound(c, n, worlds, events, j);
    assert PeerIsSound(c, n, worlds[j].peers[q]);
    NewChildAppends(p, events[j].last, n);
    if Linked(c, p.lastHeaders + [p.last.header]) {
      NewChildIsLinked(c, p, events[j].last, n);
    }
  }

  /** In every run, the chain root of an earned state is the one that vouched for the message's headers. */
  lemma EarnedRootVouches(c: Rules, n: nat, worlds: seq<World>, events: seq<Event>, j: nat, q: PeerIndex, s: ProveState)
    requires n > 0 && IsRun(c, n, worlds, events) && j < |events| && Answers(c, n, worlds[j], events[j], q, s)
    requires RootHashInjective(c)
    ensures TotalOf(c, s.last) == TotalOf(c, events[j].message.last)
    ensures HasRoot(c, s.last.header.epoch) ==>
              c.proves(s.last.root, events[j].message.proof, HeadersOf(events[j].message.headers))
  {
    hide MatchedBlocks.Inv, StepsTo, Matches, HeadersAreValid, PartsAreLinked, GainIsPlausible, TauChecked, IsValid,
        HasRoot,
      RootHashInjective, LastHeaders;
    RunIsSound(c, n, worlds, events, j);
    assert PeerIsSound(c, n, worlds[j].peers[q]);
    if HasRoot(c, s.last.header.epoch) {
      SameRoot(c, s.last, events[j].message.last);
    }
  }

  // The tip

  lemma StoreTip(s: MatchedBlocks.State, e: MatchedBlocks.Event)
    requires MatchedBlocks.Inv(s)
    ensures MatchedBlocks.Next(s, e).tip.total >= s.tip.total
    ensures !e.Commit? && !e.Child? ==> MatchedBlocks.Next(s, e).tip == s.tip
    ensures e.Commit? || e.Child? ==> MatchedBlocks.Next(s, e).tip == s.tip || MatchedBlocks.Next(s, e).tip == e.newTip
  {
    MatchedBlocks.TipStep(s, e);
  }

  /** The tip never gets lighter, and moves only to a state that is earned in the same step. */
  lemma TipStep(c: Rules, n: nat, w: World, e: Event)
    requires MatchedBlocks.Inv(w.store) && Enabled(c, n, w, e)
    ensures Next(c, n, w, e).store.tip.total >= w.store.tip.total
    ensures Next(c, n, w, e).store.tip == w.store.tip
            || exists q, s :: Earns(c, n, w, e, q, s) && Next(c, n, w, e).store.tip == TipOf(c, s)
  {
    hide MatchedBlocks.Inv, MatchedBlocks.Next, Worked, BuildFor, MatchedBlocks.Committed, BuildContent, NewChild,
        Same, Accepts,
      Numbered;
    forall step
      ensures MatchedBlocks.Next(w.store, step).tip.total >= w.store.tip.total
      ensures !step.Commit? && !step.Child? ==> MatchedBlocks.Next(w.store, step).tip == w.store.tip
      ensures step.Commit? || step.Child? ==>
                MatchedBlocks.Next(w.store, step).tip == w.store.tip
                    || MatchedBlocks.Next(w.store, step).tip == step.newTip
    {
      StoreTip(w.store, step);
    }
    if e.Proof? && e.verdict.Proved? && Answers(c, n, w, e, e.peer, e.verdict.state) {
      assert Earns(c, n, w, e, e.peer, e.verdict.state);
    }
    if e.LastState? && e.peer in w.peers && ExtendsProof(c, w.peers[e.peer], e.last) && Worked(c, e.last) && !e.tooOld {
      assert Earns(c, n, w, e, e.peer, NewChild(w.peers[e.peer].Proven().value, e.last, n));
    }
  }

  /** The stored tip never loses total difficulty, whatever peers and messages do. */
  lemma {:induction false} TipOnlyGrows(c: Rules, n: nat, worlds: seq<World>, events: seq<Event>, i: nat, j: nat)
    requires IsRun(c, n, worlds, events) && i <= j <= |events|
    ensures worlds[i].store.tip.total <= worlds[j].store.tip.total
  {
    if i < j {
      hide Next, Enabled, MatchedBlocks.Inv, Earns;
      var h := j - 1;
      TipOnlyGrows(c, n, worlds, events, i, h);
      assert StepsTo(c, n, worlds[h], events[h], worlds[h + 1]);
      TipStep(c, n, worlds[h], events[h]);
    }
  }

  /** At step `j` some peer earned a state with this tip. */
  ghost predicate TipEarnedAt(c: Rules, n: nat, worlds: seq<World>, events: seq<Event>, j: nat, tip: MatchedBlocks.Tip)
    requires j < |worlds| && j < |events|
  {
    exists q, s :: Earns(c, n, worlds[j], events[j], q, s) && tip == TipOf(c, s)
  }

  /** The stored tip is the one a run began with, or was earned at an earlier step. */
  lemma {:induction false} TipIsEarned(c: Rules, n: nat, worlds: seq<World>, events: seq<Event>, i: nat)
    returns (j: nat)
    requires IsRun(c, n, worlds, events) && i <= |events|
    ensures worlds[i].store.tip == worlds[0].store.tip || (j < i
              && TipEarnedAt(c, n, worlds, events, j, worlds[i].store.tip))
  {
    j := 0;
    if i > 0 {
      hide Next, Enabled, MatchedBlocks.Inv, Earns, TipOf;
      var h := i - 1;
      j := TipIsEarned(c, n, worlds, events, h);
      assert StepsTo(c, n, worlds[h], events[h], worlds[h + 1]);
      TipStep(c, n, worlds[h], events[h]);
      if worlds[i].store.tip != worlds[h].store.tip {
        j := h;
      }
    }
  }
}
