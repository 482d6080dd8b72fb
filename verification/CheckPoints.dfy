/**
 Check points of block filter hashes: what peers send, what a quorum of proved peers finalises, and what
 is stored. Check points are spaced by a fixed interval of block numbers.
 */
module CheckPoints {
  import opened Options
  import opened Arithmetic
  import opened Keys
  import opened Quorum
  import opened Chain

  /** The filter data of a peer; `proved` is the number of its proved last header, if any. */
  datatype Peer = Peer(
    proved: Option<nat>,
    // Check points from index `first` on; never empty.
    first: nat, points: seq<Hash>,
    // Filter hashes of the blocks that follow block `base`.
    base: nat, latest: seq<Hash>)

  datatype State = State(stored: map<nat, Hash>, maxIndex: nat, peers: map<PeerIndex, Peer>)

  datatype Refusal = PointsEmpty | PointsUnaligned | PointsUnexpected | PeerNotProved

  datatype Answer = Accepted(next: Option<nat>) | Refused(why: Refusal)

  /** The block number of a check point. */
  function Number(index: nat, interval: nat): nat {
    Times(index, interval)
  }

  // Receiving check points

  function LastIndex(p: Peer): nat
    requires p.points != []
  {
    p.first + |p.points| - 1
  }

  /** The message continues the peer's list: it starts at the last known check point and repeats it. */
  predicate Continues(p: Peer, interval: nat, start: nat, given: seq<Hash>)
    requires p.points != []
  {
    && |given| >= 2
    && start == Number(LastIndex(p), interval)
    && given[0] == p.points[|p.points| - 1]
  }

  /** The check points taken from a message; the last one is held back unless a whole interval behind it is proved. */
  function Taken(interval: nat, lastProved: nat, start: nat, given: seq<Hash>): seq<Hash>
    requires |given| >= 2
  {
    if start + Times(|given|, interval) <= lastProved then given[1..] else given[1..|given| - 1]
  }

  function WithPoints(p: Peer, interval: nat, lastProved: nat, start: nat, given: seq<Hash>): Peer
    requires |given| >= 2
  {
    p.(points := p.points + Taken(interval, lastProved, start, given))
  }

  function NextWanted(p: Peer, interval: nat, lastProved: nat): Option<nat>
    requires p.points != []
  {
    var last := Number(LastIndex(p), interval);
    if last + interval + interval <= lastProved then Some(last) else None
  }

  /**
   An accepted message carries the list on, from its last check point, by the message's own ones: by all of them
   if a whole interval behind the last one is proved, and otherwise by all but the last one.
   */
  lemma AddedPoints(p: Peer, interval: nat, lastProved: nat, start: nat, given: seq<Hash>)
    requires p.points != [] && Continues(p, interval, start, given)
    ensures var p' := WithPoints(p, interval, lastProved, start, given);
            var count := if Number(LastIndex(p) + |given|, interval) <= lastProved then |given| - 1 else |given| - 2;
            && p' == p.(points := p'.points) && p.points <= p'.points
            && LastIndex(p') == LastIndex(p) + count
            && forall i :: 0 <= i <= count ==> p'.points[|p.points| - 1 + i] == given[i]
  {
    TimesAdds(LastIndex(p), |given|, interval);
  }

  /** The client asks for more check points exactly where an answer with just the next one would carry the list on. */
  lemma NextWantedIsUseful(p: Peer, interval: nat, lastProved: nat, given: seq<Hash>)
    requires p.points != [] && |given| == 2 && given[0] == p.points[|p.points| - 1]
    ensures var (next, start) := (NextWanted(p, interval, lastProved), Number(LastIndex(p), interval));
            && Continues(p, interval, start, given) && (next.Some? ==> next.value == start)
            && (next.Some? <==> WithPoints(p, interval, lastProved, start, given).points == p.points + [given[1]])
  {
    TimesNext(1, interval);
    TimesOne(interval);
    assert given[1..] == [given[1]] && given[1..1] == [];
    assert |p.points + [given[1]]| == |p.points| + 1;
  }

  // Finalising check points

  ghost predicate PeerInv(p: Peer, interval: nat, maxIndex: nat) {
    && p.points != []
    && p.first <= maxIndex
    && p.base == Number(p.first, interval)
  }

  /** Stored check points are contiguous from index 0 on, and no peer's list starts behind the last one. */
  ghost predicate Inv(s: State, interval: nat) {
    && (forall i: nat :: i in s.stored <==> i <= s.maxIndex)
    && (forall p :: p in s.peers ==> PeerInv(s.peers[p], interval, s.maxIndex))
  }

  function ProvedPeers(s: State): set<PeerIndex> {
    set p | p in s.peers && s.peers[p].proved.Some?
  }

  /** The peer's list reaches the last finalised check point and agrees with it. */
  predicate Eligible(s: State, p: PeerIndex)
    requires s.maxIndex in s.stored
  {
    && p in s.peers && s.peers[p].proved.Some?
    && s.peers[p].first <= s.maxIndex < s.peers[p].first + |s.peers[p].points|
    && s.peers[p].points[s.maxIndex - s.peers[p].first] == s.stored[s.maxIndex]
  }

  /** The eligible lists, from the last finalised check point on. */
  function EligibleLists(s: State): (l: Lists<Hash>)
    requires s.maxIndex in s.stored
    ensures AgreeUpTo(l, [s.stored[s.maxIndex]])
  {
    map p | p in s.peers && Eligible(s, p) :: s.peers[p].points[s.maxIndex - s.peers[p].first..]
  }

  function Trimmed(p: Peer, interval: nat, to: nat): Peer
    requires p.first <= to <= p.first + |p.points|
  {
    if to == p.first then p
    else p.(first := to, points := p.points[to - p.first..], base := Number(to, interval), latest := [])
  }

  function TrimmedPeers(s: State, interval: nat): map<PeerIndex, Peer>
    requires s.maxIndex in s.stored
  {
    map p | p in s.peers :: if Eligible(s, p) then Trimmed(s.peers[p], interval, s.maxIndex) else s.peers[p]
  }

  /** The stored check points with further ones written from index `from` on. */
  function Extended(stored: map<nat, Hash>, from: nat, points: seq<Hash>): (r: map<nat, Hash>)
    ensures forall i: nat :: i in r <==> i in stored || from <= i < from + |points|
    ensures forall i: nat :: i in r ==> r[i] == if from <= i < from + |points| then points[i - from] else stored[i]
  {
    if points == [] then stored
    else Extended(stored, from, points[..|points| - 1])[from + |points| - 1 := points[|points| - 1]]
  }

  /** The new check points of a prefix are stored behind the last finalised one. */
  function Stored(s: State, prefix: seq<Hash>, interval: nat): State
    requires s.maxIndex in s.stored && prefix != []
  {
    State(Extended(s.stored, s.maxIndex + 1, prefix[1..]), s.maxIndex + |prefix| - 1, TrimmedPeers(s, interval))
  }

  /** What finalising may lead to: without a quorum nothing is stored, with one a greedy outcome is. */
  ghost predicate Finalized(s: State, interval: nat, quorum: nat, s': State)
    requires s.maxIndex in s.stored
  {
    if |ProvedPeers(s)| < quorum then s' == s
    else if |EligibleLists(s)| < quorum then s' == s.(peers := TrimmedPeers(s, interval))
    else exists prefix ::
           && GreedyOutcome(EligibleLists(s), quorum, [s.stored[s.maxIndex]], prefix)
           && prefix != [] && s' == Stored(s, prefix, interval)
  }

  /** The peers that hold the check points `from..to` exactly as they are stored. */
  ghost function Backers(s: State, peers: map<PeerIndex, Peer>, from: nat, to: nat): set<PeerIndex>
    requires forall i: nat :: i <= to ==> i in s.stored
  {
    set p | p in peers && peers[p].proved.Some? && Backs(s, peers[p], from, to)
  }

  ghost predicate Backs(s: State, p: Peer, from: nat, to: nat)
    requires forall i: nat :: i <= to ==> i in s.stored
  {
    && p.first <= from && to < p.first + |p.points|
    && forall i: nat :: from <= i <= to ==> p.points[i - p.first] == s.stored[i]
  }

  lemma TrimmedKeepsInv(s: State, interval: nat, maxIndex: nat)
    requires Inv(s, interval) && s.maxIndex <= maxIndex
    ensures forall p :: p in s.peers ==> PeerInv(TrimmedPeers(s, interval)[p], interval, maxIndex)
  {
  }

  lemma FinalizeKeepsInv(s: State, interval: nat, quorum: nat, s': State)
    requires Inv(s, interval) && Finalized(s, interval, quorum, s')
    ensures Inv(s', interval)
  {
    hide GreedyOutcome, TrimmedPeers, PeerInv, EligibleLists;
    if |ProvedPeers(s)| >= quorum {
      TrimmedKeepsInv(s, interval, s'.maxIndex);
      assert TrimmedPeers(s, interval).Keys == s.peers.Keys by {
        TrimmedSamePeers(s, interval);
      }
    }
  }

  lemma TrimmedSamePeers(s: State, interval: nat)
    requires s.maxIndex in s.stored
    ensures TrimmedPeers(s, interval).Keys == s.peers.Keys
  {
  }

  lemma GreedyExtends<H(!new)>(lists: Lists<H>, quorum: nat, from: seq<H>, prefix: seq<H>)
    requires GreedyOutcome(lists, quorum, from, prefix)
    ensures from <= prefix && |Holders(lists, prefix)| >= quorum
  {
  }

  /** Finalised check points are never rewritten. */
  lemma FinalizeOnlyAppends(s: State, interval: nat, quorum: nat, s': State)
    requires Inv(s, interval) && Finalized(s, interval, quorum, s')
    ensures s'.maxIndex >= s.maxIndex
    ensures forall i: nat :: i <= s.maxIndex ==> i in s'.stored && s'.stored[i] == s.stored[i]
  {
    FinalizeKeepsInv(s, interval, quorum, s');
  }

  /**
   Every newly finalised check point, and every one before it down to the previous last one, is held by
   one and the same quorum of proved peers.
   */
  lemma FinalizedHasQuorum(s: State, interval: nat, quorum: nat, s': State)
    requires Inv(s, interval) && Finalized(s, interval, quorum, s') && s'.maxIndex > s.maxIndex
    ensures Inv(s', interval) && |Backers(s', s.peers, s.maxIndex, s'.maxIndex)| >= quorum
  {
    hide GreedyOutcome, EligibleLists, TrimmedPeers, PeerInv, Backs, Extended;
    FinalizeKeepsInv(s, interval, quorum, s');
    var lists := EligibleLists(s);
    var prefix :| GreedyOutcome(lists, quorum, [s.stored[s.maxIndex]], prefix)
                  && prefix != [] && s' == Stored(s, prefix, interval);
    GreedyExtends(lists, quorum, [s.stored[s.maxIndex]], prefix);
    forall p | p in Holders(lists, prefix) ensures p in Backers(s', s.peers, s.maxIndex, s'.maxIndex) {
      EligibleArePeers(s, p);
      HolderBacks(s, interval, s', prefix, p);
    }
    SubsetSize(Holders(lists, prefix), Backers(s', s.peers, s.maxIndex, s'.maxIndex));
  }

  lemma EligibleArePeers(s: State, p: PeerIndex)
    requires s.maxIndex in s.stored && p in EligibleLists(s)
    ensures p in s.peers && s.peers[p].proved.Some?
  {
  }

  lemma HolderBacks(s: State, interval: nat, s': State, prefix: seq<Hash>, p: PeerIndex)
    requires Inv(s, interval) && Inv(s', interval)
    requires [s.stored[s.maxIndex]] <= prefix
    requires s' == Stored(s, prefix, interval)
    requires p in Holders(EligibleLists(s), prefix)
    ensures Backs(s', s.peers[p], s.maxIndex, s'.maxIndex)
  {
    hide PeerInv, TrimmedPeers;
    var peer := s.peers[p];
    var list := peer.points[s.maxIndex - peer.first..];
    assert prefix <= list;
    forall i: nat | s.maxIndex <= i <= s'.maxIndex ensures peer.points[i - peer.first] == s'.stored[i] {
      assert peer.points[i - peer.first] == list[i - s.maxIndex] == prefix[i - s.maxIndex];
      assert prefix[0] == [s.stored[s.maxIndex]][0];
      assert i > s.maxIndex ==> s'.stored[i] == prefix[1..][i - s.maxIndex - 1];
    }
  }

  /**
   With fewer than two quorums of eligible peers, what gets stored is determined: the longest list some quorum
   shares.
   */
  lemma FinalizeIsExact(s: State, interval: nat, quorum: nat, s': State, w: seq<Hash>)
    requires Inv(s, interval) && 0 < quorum && Finalized(s, interval, quorum, s')
    requires |ProvedPeers(s)| >= quorum && quorum <= |EligibleLists(s)| < 2 * quorum
    requires Shared(EligibleLists(s), quorum, w)
    ensures s'.maxIndex + 1 >= s.maxIndex + |w|
    ensures forall i: nat :: 0 < i < |w| ==> s.maxIndex + i in s'.stored && s'.stored[s.maxIndex + i] == w[i]
  {
    hide GreedyOutcome;
    var lists := EligibleLists(s);
    var prefix :| GreedyOutcome(lists, quorum, [s.stored[s.maxIndex]], prefix)
                  && prefix != [] && s' == Stored(s, prefix, interval);
    GreedyIsLongest(lists, quorum, [s.stored[s.maxIndex]], prefix, w);
    GreedyExtends(lists, quorum, [s.stored[s.maxIndex]], prefix);
  }

  // Runs

  /** The steps that change check points or the data of peers. */
  datatype Step =
    | Finalize
    | Receive(peer: PeerIndex, start: nat, given: seq<Hash>)
    | Connect(peer: PeerIndex)
    | Disconnect(peer: PeerIndex)
    | Proved(peer: PeerIndex, number: nat, reorg: bool)
    | Unproved(peer: PeerIndex)
    | NewLatest(peer: PeerIndex, latest: seq<Hash>)

  /** Constants of a client: the check point it started from, its interval and its quorum. */
  datatype Config = Config(interval: nat, quorum: nat, startIndex: nat, startPoint: Hash)

  function NewPeer(c: Config): Peer {
    Peer(None, c.startIndex, [c.startPoint], Number(c.startIndex, c.interval), [])
  }

  /** The peers after a step other than finalising. */
  function PeersAfter(c: Config, peers: map<PeerIndex, Peer>, step: Step): map<PeerIndex, Peer>
    requires !step.Finalize?
  {
    match step
    case Connect(p) => peers[p := NewPeer(c)]
    case Disconnect(p) => peers - {p}
    case Receive(p, start, given) =>
      if p in peers && peers[p].proved.Some? && peers[p].points != [] && Continues(peers[p], c.interval, start, given)
      then peers[p := WithPoints(peers[p], c.interval, peers[p].proved.value, start, given)] else peers
    case Proved(p, number, reorg) =>
      if p in peers
      then peers[p := peers[p].(proved := Some(number), latest := if reorg then [] else peers[p].latest)] else peers
    case Unproved(p) => if p in peers then peers[p := peers[p].(proved := None)] else peers
    case NewLatest(p, latest) => if p in peers then peers[p := peers[p].(latest := latest)] else peers
  }

  /** Who counts after a step: a peer counts from being proved until it is not any more, or goes, or comes anew. */
  lemma CountedPeers(c: Config, s: State, step: Step, s': State)
    requires !step.Finalize? && Steps(c, s, step, s')
    ensures s' == s.(peers := s'.peers)
    ensures forall p :: p in ProvedPeers(s') <==>
              match step
              case Proved(q, _, _) => p in s.peers && (p == q || p in ProvedPeers(s))
              case Unproved(q) => p in ProvedPeers(s) && p != q
              case Connect(q) => p in ProvedPeers(s) && p != q
              case Disconnect(q) => p in ProvedPeers(s) && p != q
              case _ => p in ProvedPeers(s)
    ensures step.NewLatest? && step.peer in s.peers ==> s'.peers[step.peer].latest == step.latest
    ensures step.Proved? && step.peer in s.peers ==>
              s'.peers[step.peer].proved == Some(step.number)
              && s'.peers[step.peer].latest == if step.reorg then [] else s.peers[step.peer].latest
  {
  }

  ghost predicate Steps(c: Config, s: State, step: Step, s': State) {
    if step.Finalize? then s.maxIndex in s.stored && Finalized(s, c.interval, c.quorum, s')
    else s' == s.(peers := PeersAfter(c, s.peers, step))
  }

  ghost predicate IsRun(c: Config, states: seq<State>, steps: seq<Step>) {
    && |states| == |steps| + 1
    && Inv(states[0], c.interval) && c.startIndex <= states[0].maxIndex
    && forall i :: 0 <= i < |steps| ==> Steps(c, states[i], steps[i], states[i + 1])
  }

  lemma StepKeepsInv(c: Config, s: State, step: Step, s': State)
    requires Inv(s, c.interval) && c.startIndex <= s.maxIndex && Steps(c, s, step, s')
    ensures Inv(s', c.interval) && c.startIndex <= s'.maxIndex
    ensures s.maxIndex <= s'.maxIndex
    ensures forall i: nat :: i <= s.maxIndex ==> s'.stored[i] == s.stored[i]
  {
    if step.Finalize? {
      FinalizeKeepsInv(s, c.interval, c.quorum, s');
      FinalizeOnlyAppends(s, c.interval, c.quorum, s');
    }
  }

  /** Over any run, stored check points stay contiguous and are never rewritten. */
  lemma {:induction false} RunOnlyAppends(c: Config, states: seq<State>, steps: seq<Step>, n: nat)
    requires IsRun(c, states, steps) && n <= |steps|
    ensures Inv(states[n], c.interval) && c.startIndex <= states[n].maxIndex
    ensures states[0].maxIndex <= states[n].maxIndex
    ensures forall i: nat :: i <= states[0].maxIndex ==>
              i in states[n].stored && states[n].stored[i] == states[0].stored[i]
  {
    if n > 0 {
      RunOnlyAppends(c, states, steps, n - 1);
      assert Steps(c, states[n - 1], steps[n - 1], states[n - 1 + 1]);
      StepKeepsInv(c, states[n - 1], steps[n - 1], states[n]);
    }
  }

  lemma RunOnlyAppendsBetween(c: Config, states: seq<State>, steps: seq<Step>, m: nat, n: nat)
    requires IsRun(c, states, steps) && m <= n <= |steps|
    ensures Inv(states[m], c.interval) && Inv(states[n], c.interval)
    ensures forall i: nat :: i <= states[m].maxIndex ==>
              i in states[n].stored && states[n].stored[i] == states[m].stored[i]
  {
    RunOnlyAppends(c, states, steps, m);
    RunOnlyAppends(c, states, steps, n);
    assert states[m..][n - m] == states[n];
    RunOnlyAppends(c, states[m..], steps[m..], n - m);
  }

  /** At step `m` of the run a quorum of proved peers held check point `i` as it is stored in the end. */
  ghost predicate WonQuorum(c: Config, states: seq<State>, m: nat, i: nat, value: Hash)
    requires m + 1 < |states|
  {
    && states[m].maxIndex < i <= states[m + 1].maxIndex
    && Inv(states[m + 1], c.interval)
    && |Backers(states[m + 1], states[m].peers, states[m].maxIndex, states[m + 1].maxIndex)| >= c.quorum
    && states[m + 1].stored[i] == value
  }

  /** Every check point stored during a run was once held by a quorum of proved peers, and still has that value. */
  lemma {:induction false} StoredWonQuorum(c: Config, states: seq<State>, steps: seq<Step>, n: nat, i: nat)
    returns (m: nat)
    requires IsRun(c, states, steps) && n <= |steps| && states[0].maxIndex < i <= states[n].maxIndex
    ensures m < n && i in states[n].stored && WonQuorum(c, states, m, i, states[n].stored[i])
  {
    hide Finalized, Backers, PeersAfter, PeerInv;
    RunOnlyAppends(c, states, steps, n - 1);
    RunOnlyAppends(c, states, steps, n);
    assert Steps(c, states[n - 1], steps[n - 1], states[n - 1 + 1]);
    if i <= states[n - 1].maxIndex {
      m := StoredWonQuorum(c, states, steps, n - 1, i);
      RunOnlyAppendsBetween(c, states, steps, n - 1, n);
    } else {
      m := n - 1;
      FinalizedHasQuorum(states[n - 1], c.interval, c.quorum, states[n]);
    }
  }
}
