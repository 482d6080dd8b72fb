/**
 What the client knows of its peers: the states of the proof protocol, their transitions, and the
 handlers that move peers and the stored tip.
 */
module PeerStates {
  import opened Options
  import opened Keys
  import opened LightHeaders
  import opened LastStateProof
  import opened Quorum
  import MatchedBlocks
  import Samples

  datatype PeerState =
    | Initialized
    | RequestFirstLastState
    | OnlyHasLastState(last: Verifiable)
    | RequestFirstLastStateProof(last: Verifiable, request: ProveRequest)
    | Ready(last: Verifiable, proved: ProveState)
    | RequestNewLastState(last: Verifiable, proved: ProveState)
    | RequestNewLastStateProof(last: Verifiable, proved: ProveState, request: ProveRequest)
  {
    function LastState(): Option<Verifiable> {
      if Initialized? || RequestFirstLastState? then None else Some(last)
    }

    function Request(): Option<ProveRequest> {
      if RequestFirstLastStateProof? || RequestNewLastStateProof? then Some(request) else None
    }

    function Proven(): Option<ProveState> {
      if Ready? || RequestNewLastState? || RequestNewLastStateProof? then Some(proved) else None
    }
  }

  // Transitions; `None` is a rejected one

  function RequestLastState(s: PeerState): Option<PeerState> {
    match s
    case Initialized => Some(RequestFirstLastState)
    case OnlyHasLastState(_) => Some(s)
    case Ready(last, proved) => Some(RequestNewLastState(last, proved))
    case _ => None
  }

  function ReceiveLastState(s: PeerState, newLast: Verifiable): Option<PeerState> {
    match s
    case RequestFirstLastState => Some(OnlyHasLastState(newLast))
    case RequestNewLastState(_, proved) => Some(Ready(newLast, proved))
    case OnlyHasLastState(_) => Some(OnlyHasLastState(newLast))
    case RequestFirstLastStateProof(_, request) => Some(RequestFirstLastStateProof(newLast, request))
    case Ready(_, proved) => Some(Ready(newLast, proved))
    case RequestNewLastStateProof(_, proved, request) => Some(RequestNewLastStateProof(newLast, proved, request))
    case Initialized => None
  }

  function RequestProof(s: PeerState, newRequest: ProveRequest): Option<PeerState> {
    match s
    case OnlyHasLastState(last) => Some(RequestFirstLastStateProof(last, newRequest))
    case Ready(last, proved) => Some(RequestNewLastStateProof(last, proved, newRequest))
    case RequestFirstLastStateProof(last, _) => Some(RequestFirstLastStateProof(last, newRequest))
    case RequestNewLastStateProof(last, proved, _) => Some(RequestNewLastStateProof(last, proved, newRequest))
    case _ => None
  }

  function ReceiveProof(s: PeerState, newProved: ProveState): Option<PeerState> {
    match s
    case OnlyHasLastState(last) => Some(Ready(last, newProved))
    case RequestFirstLastStateProof(last, _) => Some(Ready(last, newProved))
    case Ready(last, _) => Some(Ready(last, newProved))
    case RequestNewLastStateProof(last, _, _) => Some(Ready(last, newProved))
    case _ => None
  }

  /** A rejected transition has already taken the old state away: the peer is left as if just connected. */
  function After(r: Option<PeerState>): PeerState {
    match r
    case Some(s) => s
    case None => Initialized
  }

  // Children

  /** The proved state of a child: the old last header joins the list, whose oldest one makes room. */
  function NewChild(p: ProveState, child: Verifiable, n: nat): ProveState {
    var list := if |p.lastHeaders| >= n && p.lastHeaders != [] then p.lastHeaders[1..] else p.lastHeaders;
    ProveState(child, p.reorg, list + [p.last.header])
  }

  /** The child's list is the newest part of the parent's list with the parent's last header behind it. */
  lemma NewChildAppends(p: ProveState, child: Verifiable, n: nat)
    requires 0 < n && |p.lastHeaders| <= n
    ensures NewChild(p, child, n) == ProveState(child, p.reorg, Suffix(p.lastHeaders + [p.last.header], n))
  {
  }

  lemma OneIsLinked(c: Rules, h: Header)
    ensures Linked(c, [h])
  {
  }

  /** Where the parent's list leads up to its last header, the child's list leads up to the child. */
  lemma NewChildIsLinked(c: Rules, p: ProveState, child: Verifiable, n: nat)
    requires Linked(c, p.lastHeaders + [p.last.header]) && IsParentOf(c, p.last.header, child.header)
    ensures Linked(c, NewChild(p, child, n).lastHeaders + [child.header])
  {
    hide IsParentOf, Linked;
    var joined := p.lastHeaders + [p.last.header];
    var list := NewChild(p, child, n).lastHeaders;
    var cut := |joined| - |list|;
    assert list == joined[cut..|joined|];
    LinkedSlice(c, joined, cut, |joined|);
    OneIsLinked(c, child.header);
    LinkedJoin(c, list, [child.header]);
  }

  // Requests

  /** Difficulties sampled below a boundary. */
  datatype Sample = Sample(boundary: nat, difficulties: seq<nat>)

  function FirstFit(headers: seq<(nat, Hash)>, start: nat, last: nat, n: nat): nat {
    if headers == [] then start
    else if Fits(headers[0].0, start, last, n) then headers[0].0
    else FirstFit(headers[1..], start, last, n)
  }

  predicate Fits(number: nat, start: nat, last: nat, n: nat) {
    number < start && last <= number + n
  }

  /** The first stored header that fits, or else the start itself. */
  lemma {:induction false} FirstFitIsFirst(headers: seq<(nat, Hash)>, start: nat, last: nat, n: nat) returns (i: nat)
    ensures i <= |headers| && forall j :: 0 <= j < i ==> !Fits(headers[j].0, start, last, n)
    ensures if i == |headers| then FirstFit(headers, start, last, n) == start
            else Fits(headers[i].0, start, last, n) && FirstFit(headers, start, last, n) == headers[i].0
  {
    i := 0;
    if headers != [] && !Fits(headers[0].0, start, last, n) {
      i := FirstFitIsFirst(headers[1..], start, last, n);
      i := i + 1;
    }
  }

  /** The content of a request that starts from block `start`; without samples if at most n blocks are asked for. */
  function BuildContent(c: Rules, n: nat, start: nat, startTotal: nat, stored: seq<(nat, Hash)>, last: Verifiable,
                        sample: Sample)
    : Option<Samples.Request>
  {
    if startTotal > TotalOf(c, last) || start >= last.header.number then None
    else if last.header.number - start <= n then
      Some(Samples.Request(FirstFit(stored, start, last.header.number, n), startTotal, []))
    else Some(Samples.Request(start, sample.boundary, sample.difficulties))
  }

  // The client

  datatype World = World(peers: map<PeerIndex, PeerState>, store: MatchedBlocks.State)

  /** What is left open by a handler: which peer to copy from, and the random samples of a request. */
  datatype Choice = Choice(from: PeerIndex, sample: Sample)

  datatype Event =
    | Connect(peer: PeerIndex)
    | Disconnect(peer: PeerIndex)
    | AskState(peer: PeerIndex)
    | AskProof(peer: PeerIndex, choice: Choice)
    | LastState(peer: PeerIndex, last: Verifiable, tooOld: bool, choice: Choice)
    | Proof(peer: PeerIndex, message: Message, verdict: Verdict, counts: Samples.Response, choice: Choice)
    | Progress(step: MatchedBlocks.Event)

  function TipOf(c: Rules, p: ProveState): MatchedBlocks.Tip {
    MatchedBlocks.Tip(TotalOf(c, p.last), p.last.header.number, p.last.header.hash)
  }

  function Moved(w: World, p: PeerIndex, r: Option<PeerState>): World {
    w.(peers := w.peers[p := After(r)])
  }

  function Asked(w: World, p: PeerIndex, request: ProveRequest): World
    requires p in w.peers
  {
    Moved(w, p, RequestProof(w.peers[p], request))
  }

  predicate HasProof(c: Rules, w: World, p: PeerIndex, last: Verifiable) {
    p in w.peers && w.peers[p].Proven().Some? && Same(c, w.peers[p].Proven().value.last, last)
  }

  /** Some peer that has proved `last`; `from` if it has. */
  function ProofSource(c: Rules, w: World, last: Verifiable, from: PeerIndex): (r: Option<PeerIndex>)
    ensures r.Some? ==> HasProof(c, w, r.value, last)
    ensures r.None? ==> forall p :: !HasProof(c, w, p, last)
  {
    var sources := set p | p in w.peers && HasProof(c, w, p, last);
    assert forall p :: HasProof(c, w, p, last) ==> p in sources;
    if from in sources then Some(from)
    else if sources == {} then None
    else Some(MatchedBlocks.MinOf(sources))
  }

  function BuildFor(c: Rules, n: nat, w: World, proven: Option<ProveState>, last: Verifiable,
                    sample: Sample): Option<Samples.Request> {
    var start := if proven.Some? then TipOf(c, proven.value) else w.store.tip;
    BuildContent(c, n, start.number, start.total, w.store.lastHeaders, last, sample)
  }

  /** Asks a peer for the proof of its last state, unless that is proved, asked for, or proved by another peer. */
  function AfterAskProof(c: Rules, n: nat, w: World, p: PeerIndex, choice: Choice): World
    requires p in w.peers
  {
    var s := w.peers[p];
    if s.LastState().None? then w
    else
      var last := s.LastState().value;
      if HasProof(c, w, p, last) || (s.Request().Some? && Same(c, s.Request().value.last, last)) then w
      else
        var source := ProofSource(c, w, last, choice.from);
        if source.Some? then Moved(w, p, ReceiveProof(s, w.peers[source.value].Proven().value))
        else
          var content := BuildFor(c, n, w, s.Proven(), last, choice.sample);
          if content.None? then w else Asked(w, p, ProveRequest(last, content.value, false, false))
  }

  predicate Worked(c: Rules, v: Verifiable) {
    c.nonceIsValid(v.header) && IsValid(c, v)
  }

  /** A heavier last state that is a child of the proved one is proved with it. */
  predicate ExtendsProof(c: Rules, s: PeerState, last: Verifiable) {
    && s.LastState().Some? && TotalOf(c, s.LastState().value) < TotalOf(c, last)
    && s.Proven().Some? && IsParentOf(c, s.Proven().value.last.header, last.header)
  }

  function AfterChild(c: Rules, w: World, p: PeerIndex, child: ProveState): World
    requires p in w.peers && MatchedBlocks.Inv(w.store)
  {
    var w' := w.(store :=
      MatchedBlocks.Next(w.store, MatchedBlocks.Child(TipOf(c, child), Numbered(child.lastHeaders))));
    Moved(w', p, ReceiveProof(w.peers[p], child))
  }

  function AfterLastState(c: Rules, n: nat, w: World, p: PeerIndex, last: Verifiable, tooOld: bool,
                          choice: Choice): World
    requires MatchedBlocks.Inv(w.store)
  {
    if p !in w.peers || !Worked(c, last) || tooOld then w
    else
      var s := w.peers[p];
      if s.LastState().Some? && Same(c, last, s.LastState().value) then w
      else
        var received := ReceiveLastState(s, last);
        var w' := Moved(w, p, received);
        if received.None? then w'
        else if s.LastState().None? then AfterAskProof(c, n, w', p, choice)
        else if ExtendsProof(c, s, last) then AfterChild(c, w', p, NewChild(s.Proven().value, last, n))
        else w'
  }

  /** A panic: the client starts again from what is stored. */
  function Restarted(w: World): World
    requires MatchedBlocks.Inv(w.store)
  {
    World(map[], MatchedBlocks.Next(w.store, MatchedBlocks.Restart))
  }

  /** Takes over a proved state; a long fork is first confirmed by a proof from the genesis block on. */
  function AfterProved(c: Rules, n: nat, w: World, p: PeerIndex, proved: ProveState, sample: Sample): World
    requires p in w.peers && MatchedBlocks.Inv(w.store)
  {
    var (tip, reorg, lastN) := (TipOf(c, proved), Numbered(proved.reorg), Numbered(proved.lastHeaders));
    if MatchedBlocks.Committed(w.store, tip, reorg, lastN).Some? then
      Moved(w.(store := MatchedBlocks.Next(w.store, MatchedBlocks.Commit(tip, reorg, lastN))), p,
          ReceiveProof(w.peers[p], proved))
    else
      var content := BuildContent(c, n, 0, 0, [], proved.last, sample);
      if content.None? then w else Asked(w, p, ProveRequest(proved.last, content.value, false, true))
  }

  function AfterUnknownProof(c: Rules, n: nat, w: World, p: PeerIndex, m: Message, choice: Choice): World
    requires p in w.peers
  {
    if m.proof != [] || !Worked(c, m.last) then w
    else
      var received := ReceiveLastState(w.peers[p], m.last);
      if received.None? then Moved(w, p, received) else AfterAskProof(c, n, Moved(w, p, received), p, choice)
  }

  function AfterProof(c: Rules, n: nat, w: World, p: PeerIndex, m: Message, v: Verdict, choice: Choice): World
    requires MatchedBlocks.Inv(w.store)
  {
    if p !in w.peers || w.peers[p].Request().None? then w
    else
      var s := w.peers[p];
      if !Same(c, s.Request().value.last, m.last) then AfterUnknownProof(c, n, w, p, m, choice)
      else
        match v
        case Refused => w
        case Crash => Restarted(w)
        case Proved(proved) => AfterProved(c, n, w, p, proved, choice.sample)
        case Recheck =>
          var content := BuildFor(c, n, w, s.Proven(), m.last, choice.sample);
          if content.None? then w else Asked(w, p, ProveRequest(m.last, content.value, true, false))
  }

  ghost predicate IsSorted(choice: Choice) {
    Samples.SortedDifficulties(choice.sample.difficulties)
  }

  /** Samples are sorted, and the verdict in a proof event is one that verifying the message can give. */
  ghost predicate Enabled(c: Rules, n: nat, w: World, e: Event) {
    match e
    case AskProof(_, choice) => IsSorted(choice)
    case LastState(_, _, _, choice) => IsSorted(choice)
    case Proof(p, m, v, k, choice) =>
      && IsSorted(choice)
      && (p in w.peers && w.peers[p].Request().Some? && Same(c, w.peers[p].Request().value.last, m.last) ==>
            IsVerdict(c, n, w.peers[p].Request().value, w.peers[p].Proven(), m, v, k))
    case Progress(step) => !step.Commit? && !step.Child?
    case _ => true
  }

  function Next(c: Rules, n: nat, w: World, e: Event): World
    requires MatchedBlocks.Inv(w.store)
  {
    match e
    case Connect(p) => Moved(w, p, RequestLastState(Initialized))
    case Disconnect(p) => w.(peers := w.peers - {p})
    case AskState(p) => if p in w.peers then Moved(w, p, RequestLastState(w.peers[p])) else w
    case AskProof(p, choice) => if p in w.peers then AfterAskProof(c, n, w, p, choice) else w
    case LastState(p, last, tooOld, choice) => AfterLastState(c, n, w, p, last, tooOld, choice)
    case Proof(p, m, v, _, choice) => AfterProof(c, n, w, p, m, v, choice)
    case Progress(step) => w.(store := MatchedBlocks.Next(w.store, step))
  }
}
