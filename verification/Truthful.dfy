/**
 What the quorum is for: as long as fewer than a quorum of the connected peers lie, every finalised check point
 and every latest filter hash that the client goes by is that of the chain.
 */
module Truthful {
  import opened Options
  import opened Arithmetic
  import opened Keys
  import opened Quorum
  import opened Chain
  import opened CheckPoints
  import opened FilterHashes
  import opened FilterSync

  /** The chain's own check points, by index, and filter hashes, by block. */
  datatype Truth = Truth(points: nat -> Hash, hashes: nat -> Hash)

  ghost predicate PointsAreTrue(t: Truth, first: nat, points: seq<Hash>) {
    forall i :: 0 <= i < |points| ==> points[i] == t.points(first + i)
  }

  ghost predicate HashesAreTrue(t: Truth, first: nat, hashes: seq<Hash>) {
    forall i :: 0 <= i < |hashes| ==> hashes[i] == t.hashes(first + i)
  }

  /** All that the peer is known to have sent is true. */
  ghost predicate IsTruePeer(t: Truth, p: Peer) {
    PointsAreTrue(t, p.first, p.points) && HashesAreTrue(t, p.base + 1, p.latest)
  }

  ghost predicate StoredAreTrue(t: Truth, s: State) {
    forall i :: i in s.stored ==> s.stored[i] == t.points(i)
  }

  // What a true peer sends is taken, and stays

  lemma TruePointsContinue(t: Truth, p: Peer, interval: nat, given: seq<Hash>)
    requires IsTruePeer(t, p) && p.points != [] && |given| >= 2 && PointsAreTrue(t, LastIndex(p), given)
    ensures Continues(p, interval, Number(LastIndex(p), interval), given)
  {
    assert given[0] == t.points(LastIndex(p) + 0);
    assert p.points[|p.points| - 1] == t.points(p.first + (|p.points| - 1));
  }

  /** True check points from the last known one on are accepted, and the peer stays true. */
  lemma TruePointsAreTaken(t: Truth, p: Peer, interval: nat, lastProved: nat, given: seq<Hash>)
    requires IsTruePeer(t, p) && p.points != [] && |given| >= 2 && PointsAreTrue(t, LastIndex(p), given)
    ensures Continues(p, interval, Number(LastIndex(p), interval), given)
    ensures IsTruePeer(t, WithPoints(p, interval, lastProved, Number(LastIndex(p), interval), given))
  {
    hide CheckPoints.Taken, Number, Continues, WithPoints;
    var start := Number(LastIndex(p), interval);
    TruePointsContinue(t, p, interval, given);
    AddedPoints(p, interval, lastProved, start, given);
    var p', last := WithPoints(p, interval, lastProved, start, given), |p.points| - 1;
    forall i | 0 <= i < |p'.points| ensures p'.points[i] == t.points(p'.first + i) {
      if i < |p.points| {
        assert p'.points[i] == p.points[i];
      } else {
        assert p'.points[last + (i - last)] == given[i - last] == t.points(LastIndex(p) + (i - last));
      }
    }
  }

  /** A proved, true peer whose list reaches the last finalised check point counts, if that one is true. */
  lemma TruePeersCount(t: Truth, s: State, p: PeerIndex)
    requires s.maxIndex in s.stored && s.stored[s.maxIndex] == t.points(s.maxIndex)
    requires p in s.peers && s.peers[p].proved.Some? && s.peers[p].points != [] && IsTruePeer(t, s.peers[p])
    ensures Eligible(s, p) <==> s.peers[p].first <= s.maxIndex <= LastIndex(s.peers[p])
  {
  }

  /** Dropping the check points below the finalised one leaves the others where they are. */
  lemma TrimmedStaysTrue(t: Truth, p: Peer, interval: nat, to: nat)
    requires IsTruePeer(t, p) && p.first <= to < p.first + |p.points|
    ensures var p' := Trimmed(p, interval, to);
            IsTruePeer(t, p') && p'.first == to && LastIndex(p') == LastIndex(p) && p'.proved == p.proved
  {
  }

  lemma NewPeerIsTrue(t: Truth, c: Config)
    requires c.startPoint == t.points(c.startIndex)
    ensures IsTruePeer(t, NewPeer(c))
  {
  }

  // Finalising

  /** The connected peers outside `good`. */
  function Others(s: State, good: set<PeerIndex>): set<PeerIndex> {
    set p | p in s.peers && p !in good
  }

  ghost predicate GoodPeersAreTrue(t: Truth, s: State, good: set<PeerIndex>) {
    forall p :: p in s.peers && p in good ==> IsTruePeer(t, s.peers[p])
  }

  lemma SomeGood(backers: set<PeerIndex>, s: State, good: set<PeerIndex>, quorum: nat) returns (p: PeerIndex)
    requires |backers| >= quorum > |Others(s, good)| && forall q :: q in backers ==> q in s.peers
    ensures p in backers && p in good
  {
    if forall q :: q in backers ==> q !in good {
      SubsetSize(backers, Others(s, good));
      assert false;
    }
    p :| p in backers && p in good;
  }

  /** With fewer than a quorum of other peers, finalising stores true check points only. */
  lemma FinalizingStaysTrue(t: Truth, s: State, interval: nat, quorum: nat, s': State, good: set<PeerIndex>)
    requires Inv(s, interval) && Finalized(s, interval, quorum, s') && StoredAreTrue(t, s)
    requires GoodPeersAreTrue(t, s, good) && |Others(s, good)| < quorum
    ensures StoredAreTrue(t, s') && GoodPeersAreTrue(t, s', good)
  {
    hide GreedyOutcome, PeerInv, IsTruePeer;
    FinalizeKeepsInv(s, interval, quorum, s');
    FinalizeOnlyAppends(s, interval, quorum, s');
    if s'.maxIndex > s.maxIndex {
      FinalizedHasQuorum(s, interval, quorum, s');
      var p := SomeGood(Backers(s', s.peers, s.maxIndex, s'.maxIndex), s, good, quorum);
      BackedIsTrue(t, s', s.peers[p], s.maxIndex, s'.maxIndex);
    }
    forall p | p in s'.peers && p in good ensures IsTruePeer(t, s'.peers[p]) {
      FinalizedPeer(t, s, interval, quorum, s', p);
    }
  }

  lemma BackedIsTrue(t: Truth, s: State, p: Peer, from: nat, to: nat)
    requires (forall i: nat :: i <= to ==> i in s.stored) && Backs(s, p, from, to) && IsTruePeer(t, p)
    ensures forall i: nat :: from <= i <= to ==> s.stored[i] == t.points(i)
  {
    forall i: nat | from <= i <= to ensures s.stored[i] == t.points(i) {
      assert p.points[i - p.first] == t.points(p.first + (i - p.first));
    }
  }

  lemma FinalizedPeer(t: Truth, s: State, interval: nat, quorum: nat, s': State, p: PeerIndex)
    requires Inv(s, interval) && Finalized(s, interval, quorum, s') && p in s'.peers
    ensures p in s.peers && (IsTruePeer(t, s.peers[p]) ==> IsTruePeer(t, s'.peers[p]))
  {
    hide GreedyOutcome, IsTruePeer;
    if p in s.peers && Eligible(s, p) && IsTruePeer(t, s.peers[p]) {
      TrimmedStaysTrue(t, s.peers[p], interval, s.maxIndex);
    }
  }

  /**
   Below two quorums, when a quorum of true peers is proved and has sent the check points up to an index, that
   index is finalised.
   */
  lemma TrueQuorumFinalizes(t: Truth, s: State, interval: nat, quorum: nat, s': State, good: set<PeerIndex>, index: nat)
    requires Inv(s, interval) && 0 < quorum && Finalized(s, interval, quorum, s') && StoredAreTrue(t, s)
    requires |EligibleLists(s)| < 2 * quorum && |good| >= quorum && index >= s.maxIndex
    requires forall p :: p in good ==>
               && p in s.peers && s.peers[p].proved.Some? && IsTruePeer(t, s.peers[p])
               && s.peers[p].points != [] && s.peers[p].first <= s.maxIndex && index <= LastIndex(s.peers[p])
    ensures s'.maxIndex >= index
  {
    hide GreedyOutcome, PeerInv, EligibleLists, Finalized;
    var w: seq<Hash> := seq(index - s.maxIndex + 1, i requires 0 <= i => t.points(s.maxIndex + i));
    forall p | p in good ensures p in Holders(EligibleLists(s), w) {
      TrueListHolds(t, s, p, w);
    }
    SubsetSize(good, Holders(EligibleLists(s), w));
    SubsetSize(Holders(EligibleLists(s), w), EligibleLists(s).Keys);
    SubsetSize(good, ProvedPeers(s));
    assert |EligibleLists(s)| == |EligibleLists(s).Keys|;
    FinalizeIsExact(s, interval, quorum, s', w);
  }

  lemma TrueListHolds(t: Truth, s: State, p: PeerIndex, w: seq<Hash>)
    requires s.maxIndex in s.stored && s.stored[s.maxIndex] == t.points(s.maxIndex) && w != []
    requires p in s.peers && s.peers[p].proved.Some? && IsTruePeer(t, s.peers[p]) && s.peers[p].points != []
    requires s.peers[p].first <= s.maxIndex && s.maxIndex + |w| - 1 <= LastIndex(s.peers[p])
    requires PointsAreTrue(t, s.maxIndex, w)
    ensures p in Holders(EligibleLists(s), w)
  {
    TruePeersCount(t, s, p);
    var list := s.peers[p].points[s.maxIndex - s.peers[p].first..];
    assert EligibleLists(s)[p] == list;
    forall i | 0 <= i < |w| ensures list[i] == w[i] {
      assert list[i] == s.peers[p].points[s.maxIndex - s.peers[p].first + i];
    }
    assert list[..|w|] == w;
  }

  // Latest filter hashes

  /** The hashes that a quorum agrees on are true, if fewer than a quorum of other peers are connected. */
  lemma LatestIsTrue(t: Truth, s: State, interval: nat, quorum: nat, latest: seq<Hash>, good: set<PeerIndex>)
    requires quorum > 0 && IsLatest(s, interval, quorum, latest)
    requires GoodPeersAreTrue(t, s, good) && |Others(s, good)| < quorum
    ensures HashesAreTrue(t, Number(s.maxIndex, interval) + 1, latest)
  {
    hide IsLatest;
    if latest != [] {
      LatestHasQuorum(s, interval, quorum, latest);
      var p := SomeGood(LatestBackers(s, interval, latest), s, good, quorum);
      assert HashesAreTrue(t, s.peers[p].base + 1, s.peers[p].latest);
    }
  }

  /** True hashes stay true as a window grows. */
  lemma TrueHashesStay(t: Truth, a: nat, x: seq<Hash>, b: nat, y: seq<Hash>, end: nat, z: seq<Hash>)
    requires ContinuesWith(a, x, b, y, end, z) && HashesAreTrue(t, a, x) && HashesAreTrue(t, b, y)
    ensures HashesAreTrue(t, a, z)
  {
    forall i | 0 <= i < |z| ensures z[i] == t.hashes(a + i) {
      if i >= |x| {
        var hash := z[i];
        assert b <= a + i && hash == y[a + i - b];
        assert y[a + i - b] == t.hashes(b + (a + i - b));
      } else {
        assert z[i] == x[i];
      }
    }
  }

  /** True hashes that fit the window of a true peer are acceptable, if the check point is that of the chain. */
  lemma TrueHashesAreTaken(t: Truth, p: Peer, lastProved: nat, point: Hash, start: nat, parent: Hash, hashes: seq<Hash>)
    requires IsTruePeer(t, p) && point == t.hashes(p.base) && HashesAreTrue(t, start, hashes)
    requires InWindow(p, lastProved, p.base, start, hashes) && (start > 0 ==> parent == t.hashes(start - 1))
    ensures Acceptable(p, lastProved, p.base, point, start, parent, hashes)
  {
    hide Acceptable;
    forall b: nat | start <= b + 1 && b <= EndNumber(start, hashes, lastProved) && KnownAt(p, point, b).Some?
      ensures SaidAt(start, parent, hashes, b) == KnownAt(p, point, b).value == t.hashes(b)
    {
      if b >= start {
        assert hashes[b - start] == t.hashes(start + (b - start));
      }
      if b > p.base {
        assert p.latest[b - p.base - 1] == t.hashes(p.base + 1 + (b - p.base - 1));
      }
    }
    AcceptableIsConsistent(p, lastProved, p.base, point, start, parent, hashes);
  }

  /** Filters that are taken have the hashes of the chain, as far as the known ones go. */
  lemma TakenFiltersAreTrue(t: Truth, line: Line, digest: (Hash, Filter) -> Hash, start: nat, filters: seq<Filter>)
    requires HashesAreTrue(t, line.number, line.hashes) && line.number < start <= line.number + |line.hashes|
    requires Matching(line, digest, start, filters)
    ensures var count := Min(|filters|, line.number + |line.hashes| - start);
            HashesAreTrue(t, start, Chained(digest, t.hashes(start - 1), filters)[..count])
  {
    hide Chained, HashesAreTrue, SameInCommon;
    var parent, known := line.hashes[start - 1 - line.number], line.hashes[start - line.number..];
    KnownAreTrue(t, line, start);
    SameIsTrue(t, start, Chained(digest, parent, filters), known);
  }

  lemma KnownAreTrue(t: Truth, line: Line, start: nat)
    requires HashesAreTrue(t, line.number, line.hashes) && line.number < start <= line.number + |line.hashes|
    ensures line.hashes[start - 1 - line.number] == t.hashes(start - 1)
    ensures HashesAreTrue(t, start, line.hashes[start - line.number..])
  {
    assert line.hashes[start - 1 - line.number] == t.hashes(line.number + (start - 1 - line.number));
    var known := line.hashes[start - line.number..];
    forall i | 0 <= i < |known| ensures known[i] == t.hashes(start + i) {
      assert known[i] == line.hashes[start - line.number + i] == t.hashes(line.number + (start - line.number + i));
    }
  }

  lemma SameIsTrue(t: Truth, start: nat, given: seq<Hash>, known: seq<Hash>)
    requires SameInCommon(given, known) && HashesAreTrue(t, start, known)
    ensures HashesAreTrue(t, start, given[..Min(|given|, |known|)])
  {
  }

  // Runs

  /** Good peers send only what is true, and the client starts from a true check point. */
  ghost predicate IsGoodStep(t: Truth, c: Config, s: State, step: Step, good: set<PeerIndex>) {
    match step
    case Connect(_) => c.startPoint == t.points(c.startIndex)
    case Receive(p, start, given) =>
      p in good && p in s.peers && s.peers[p].points != [] && Continues(s.peers[p], c.interval, start, given) ==>
        PointsAreTrue(t, LastIndex(s.peers[p]), given)
    case NewLatest(p, latest) => p in good && p in s.peers ==> HashesAreTrue(t, s.peers[p].base + 1, latest)
    case _ => true
  }

  lemma StepStaysTrue(t: Truth, c: Config, s: State, step: Step, s': State, good: set<PeerIndex>)
    requires Inv(s, c.interval) && Steps(c, s, step, s') && StoredAreTrue(t, s) && GoodPeersAreTrue(t, s, good)
    requires |Others(s, good)| < c.quorum && IsGoodStep(t, c, s, step, good)
    ensures StoredAreTrue(t, s') && GoodPeersAreTrue(t, s', good)
  {
    hide Finalized, WithPoints;
    match step
    case Finalize => FinalizingStaysTrue(t, s, c.interval, c.quorum, s', good);
    case Receive(p, start, given) =>
      if p in good && p in s.peers && s.peers[p].proved.Some? && s.peers[p].points != []
         && Continues(s.peers[p], c.interval, start, given) {
        TruePointsAreTaken(t, s.peers[p], c.interval, s.peers[p].proved.value, given);
      }
    case Connect(p) => NewPeerIsTrue(t, c);
    case _ =>
  }

  /**
   Over any run in which fewer than a quorum of the connected peers ever lie, all finalised check points are those
   of the chain.
   */
  lemma {:induction false} RunStaysTrue(t: Truth, c: Config, states: seq<State>, steps: seq<Step>,
                                        good: set<PeerIndex>, n: nat)
    requires CheckPoints.IsRun(c, states, steps) && n <= |steps|
    requires StoredAreTrue(t, states[0]) && GoodPeersAreTrue(t, states[0], good)
    requires forall i :: 0 <= i < n ==>
               |Others(states[i], good)| < c.quorum && IsGoodStep(t, c, states[i], steps[i], good)
    ensures StoredAreTrue(t, states[n]) && GoodPeersAreTrue(t, states[n], good)
  {
    hide Steps, StoredAreTrue, GoodPeersAreTrue, Others, IsGoodStep, CheckPoints.Inv;
    if n > 0 {
      RunStaysTrue(t, c, states, steps, good, n - 1);
      RunOnlyAppends(c, states, steps, n - 1);
      assert Steps(c, states[n - 1], steps[n - 1], states[n - 1 + 1]);
      StepStaysTrue(t, c, states[n - 1], steps[n - 1], states[n], good);
    }
  }
}
