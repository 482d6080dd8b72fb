/** The light-client protocol in place: peers and stored progress, moved by the handlers of its messages. */
module LightClient {
  import opened Options
  import opened Keys
  import opened LightHeaders
  import opened LastStateProof
  import opened Quorum
  import opened PeerStates
  import MatchedBlocks
  import Samples

  /** The first stored header that lies below `start` and no more than n blocks below `last`. */
  method FindFirstFit(headers: seq<(nat, Hash)>, start: nat, last: nat, n: nat) returns (r: nat)
    ensures r == FirstFit(headers, start, last, n)
    ensures r == start || (exists i :: 0 <= i < |headers| && headers[i].0 == r && Fits(r, start, last, n))
    ensures r == start ==> forall i :: 0 <= i < |headers| ==> !Fits(headers[i].0, start, last, n)
  {
    ghost var _ := FirstFitIsFirst(headers, start, last, n);
    var i := 0;
    assert headers[0..] == headers;
    while i < |headers|
      invariant i <= |headers|
      invariant FirstFit(headers, start, last, n) == FirstFit(headers[i..], start, last, n)
    {
      if Fits(headers[i].0, start, last, n) {
        return headers[i].0;
      }
      assert headers[i..][1..] == headers[i + 1..];
      i := i + 1;
    }
    return start;
  }

  class Protocol {
    const rules: Rules
    const n: nat
    const client: MatchedBlocks.Client
    var peers: map<PeerIndex, PeerState>

    constructor (rules: Rules, n: nat, client: MatchedBlocks.Client)
      requires n > 0 && MatchedBlocks.Inv(client.Snapshot())
      ensures Valid() && this.client == client && this.rules == rules && this.n == n
      ensures Look() == World(map[], client.Snapshot())
    {
      this.rules, this.n, this.client := rules, n, client;
      peers := map[];
    }

    ghost predicate Valid()
      reads this, client
    {
      n > 0 && MatchedBlocks.Inv(client.Snapshot())
    }

    ghost function Look(): World
      reads this, client
    {
      World(peers, client.Snapshot())
    }

    // A transition first takes the state away, and puts one back only if it succeeds

    method Put(p: PeerIndex, next: Option<PeerState>) returns (ok: bool)
      requires p in peers
      modifies this`peers
      ensures peers == old(peers)[p := After(next)] && ok == next.Some?
    {
      peers := peers[p := Initialized];
      if next.Some? {
        peers := peers[p := next.value];
      }
      return next.Some?;
    }

    /** Copies the proved state of a peer that has proved the header, if there is one. */
    method FindProved(last: Verifiable) returns (from: Option<PeerIndex>)
      ensures from.Some? ==> HasProof(rules, Look(), from.value, last)
      ensures from.None? ==> forall p :: !HasProof(rules, Look(), p, last)
    {
      var rest := peers.Keys;
      while rest != {}
        invariant rest <= peers.Keys
        invariant forall p :: p in peers && p !in rest ==> !HasProof(rules, Look(), p, last)
        decreases rest
      {
        var p :| p in rest;
        rest := rest - {p};
        var proven := peers[p].Proven();
        if proven.Some? && Same(rules, proven.value.last, last) {
          return Some(p);
        }
      }
      return None;
    }

    method Build(proven: Option<ProveState>, last: Verifiable, sample: Sample)
      returns (content: Option<Samples.Request>)
      ensures content == BuildFor(rules, n, Look(), proven, last, sample)
    {
      var start := client.tip;
      if proven.Some? {
        start := TipOf(rules, proven.value);
      }
      if start.total > TotalOf(rules, last) || start.number >= last.header.number {
        return None;
      }
      if last.header.number - start.number <= n {
        var from := FindFirstFit(client.lastHeaders, start.number, last.header.number, n);
        return Some(Samples.Request(from, start.total, []));
      }
      return Some(Samples.Request(start.number, sample.boundary, sample.difficulties));
    }

    method Ask(p: PeerIndex, request: ProveRequest) returns (ok: bool)
      requires p in peers
      modifies this`peers
      ensures Look() == Asked(old(Look()), p, request)
      ensures ok == RequestProof(old(peers[p]), request).Some?
    {
      ok := Put(p, RequestProof(peers[p], request));
    }

    /** Asks a peer for its last state. */
    method GetLastState(p: PeerIndex) returns (ok: bool)
      requires Valid()
      modifies this`peers
      ensures Valid() && Look() == Next(rules, n, old(Look()), AskState(p))
      ensures ok <==> (p in old(peers) ==> RequestLastState(old(peers)[p]).Some?)
    {
      if p !in peers {
        return true;
      }
      ok := Put(p, RequestLastState(peers[p]));
    }

    method Connected(p: PeerIndex)
      requires Valid()
      modifies this`peers
      ensures Valid() && Look() == Next(rules, n, old(Look()), Connect(p))
    {
      peers := peers[p := Initialized];
      var _ := GetLastState(p);
    }

    method Disconnected(p: PeerIndex)
      requires Valid()
      modifies this`peers
      ensures Valid() && Look() == Next(rules, n, old(Look()), Disconnect(p))
    {
      peers := peers - {p};
    }

    /** Asks a peer for the proof of its last state, unless that is proved, asked for, or proved by another peer. */
    method GetLastStateProof(p: PeerIndex, sample: Sample) returns (ghost choice: Choice)
      requires Valid() && p in peers
      modifies this`peers
      ensures Valid() && Look() == AfterAskProof(rules, n, old(Look()), p, choice)
      ensures choice.sample == sample
    {
      hide MatchedBlocks.Inv;
      choice := Choice(0, sample);
      var s := peers[p];
      if s.LastState().None? {
        return;
      }
      var last := s.LastState().value;
      if s.Proven().Some? && Same(rules, s.Proven().value.last, last) {
        return;
      }
      if s.Request().Some? && Same(rules, s.Request().value.last, last) {
        return;
      }
      var from := FindProved(last);
      if from.Some? {
        choice := Choice(from.value, sample);
        var _ := Put(p, ReceiveProof(s, peers[from.value].Proven().value));
        return;
      }
      var content := Build(s.Proven(), last, sample);
      if content.Some? {
        var _ := Ask(p, ProveRequest(last, content.value, false, false));
      }
    }

    /** Takes a peer's new last state: a child of what is proved is proved with it, a first one has to be proved. */
    method SendLastState(p: PeerIndex, last: Verifiable, tooOld: bool, sample: Sample) returns (ghost choice: Choice)
      requires Valid()
      modifies this, client
      ensures choice.sample == sample
      ensures Valid() && Look() == Next(rules, n, old(Look()), LastState(p, last, tooOld, choice))
    {
      hide MatchedBlocks.Inv, AfterAskProof, MatchedBlocks.Next;
      choice := Choice(0, sample);
      if p !in peers || !Worked(rules, last) || tooOld {
        return;
      }
      var s := peers[p];
      if s.LastState().Some? {
        if Same(rules, last, s.LastState().value) {
          return;
        }
        var ok := Put(p, ReceiveLastState(s, last));
        if ok && ExtendsProof(rules, s, last) {
          UpdateToChild(p, NewChild(s.Proven().value, last, n));
        }
      } else {
        var ok := Put(p, ReceiveLastState(s, last));
        if ok {
          choice := GetLastStateProof(p, sample);
        }
      }
    }

    method UpdateToChild(p: PeerIndex, child: ProveState)
      requires Valid() && p in peers
      modifies this`peers, client
      ensures Valid() && Look() == AfterChild(rules, old(Look()), p, child)
    {
      hide MatchedBlocks.Inv, MatchedBlocks.Next;
      client.UpdateToChild(TipOf(rules, child), Numbered(child.lastHeaders));
      var _ := Put(p, ReceiveProof(peers[p], child));
    }

    /** Takes over a proved state; `false` is a long fork, which changes nothing. */
    method CommitProveState(p: PeerIndex, proved: ProveState) returns (ok: bool)
      requires Valid() && p in peers
      modifies this`peers, client
      ensures Valid()
      ensures ok == MatchedBlocks.Committed(old(client.Snapshot()), TipOf(rules, proved), Numbered(proved.reorg),
                Numbered(proved.lastHeaders)).Some?
      ensures ok ==> forall sample :: Look() == AfterProved(rules, n, old(Look()), p, proved, sample)
      ensures !ok ==> Look() == old(Look())
    {
      hide MatchedBlocks.Inv, MatchedBlocks.Committed;
      ok := client.CommitTip(TipOf(rules, proved), Numbered(proved.reorg), Numbered(proved.lastHeaders));
      if ok {
        var _ := Put(p, ReceiveProof(peers[p], proved));
      }
    }

    /** A panic: the process starts again from what is stored. */
    method Restart()
      requires Valid()
      modifies this`peers, client
      ensures Valid() && Look() == Restarted(old(Look()))
    {
      MatchedBlocks.NextKeepsInv(client.Snapshot(), MatchedBlocks.Restart);
      peers := map[];
      client.matched := map[];
    }

    /** The answer for another last header than the one asked for: without a proof it is a new last state. */
    method SendUnknownProof(p: PeerIndex, m: Message, sample: Sample) returns (ghost choice: Choice)
      requires Valid() && p in peers
      modifies this`peers
      ensures choice.sample == sample
      ensures Valid() && Look() == AfterUnknownProof(rules, n, old(Look()), p, m, choice)
    {
      hide MatchedBlocks.Inv, AfterAskProof;
      choice := Choice(0, sample);
      if m.proof != [] || !Worked(rules, m.last) {
        return;
      }
      var ok := Put(p, ReceiveLastState(peers[p], m.last));
      if ok {
        choice := GetLastStateProof(p, sample);
      }
    }

    /** Takes over what a message has proved, or asks for a proof from the genesis block on when that is a long fork. */
    method TakeProved(p: PeerIndex, proved: ProveState, sample: Sample)
      requires Valid() && p in peers
      modifies this`peers, client
      ensures Valid() && Look() == AfterProved(rules, n, old(Look()), p, proved, sample)
    {
      hide MatchedBlocks.Inv, MatchedBlocks.Committed, MatchedBlocks.Next;
      var ok := CommitProveState(p, proved);
      if !ok {
        var content := BuildContent(rules, n, 0, 0, [], proved.last, sample);
        if content.Some? {
          var _ := Ask(p, ProveRequest(proved.last, content.value, false, true));
        }
      }
    }

    /** Handles the proof of a last state, for the peer that was asked for it. */
    method SendLastStateProof(p: PeerIndex, m: Message, sample: Sample)
      returns (verdict: Verdict, ghost counts: Samples.Response, ghost choice: Choice)
      requires Valid() && Samples.SortedDifficulties(sample.difficulties)
      modifies this`peers, client
      ensures Valid()
      ensures Enabled(rules, n, old(Look()), Proof(p, m, verdict, counts, choice))
      ensures Look() == Next(rules, n, old(Look()), Proof(p, m, verdict, counts, choice))
    {
      hide MatchedBlocks.Inv, AfterUnknownProof, AfterProved, Restarted, IsVerdict, BuildFor;
      verdict, counts, choice := Refused, Samples.Matched(0, 0, 0), Choice(0, sample);
      if p !in peers || peers[p].Request().None? {
        return;
      }
      var s := peers[p];
      var request := s.Request().value;
      if !Same(rules, request.last, m.last) {
        choice := SendUnknownProof(p, m, sample);
        return;
      }
      verdict, counts := Verify(rules, n, request, s.Proven(), m);
      match verdict
      case Refused =>
      case Crash => Restart();
      case Proved(proved) => TakeProved(p, proved, sample);
      case Recheck =>
        var content := Build(s.Proven(), m.last, sample);
        if content.Some? {
          var _ := Ask(p, ProveRequest(m.last, content.value, true, false));
        }
    }
  }
}
