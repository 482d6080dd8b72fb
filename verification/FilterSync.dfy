/**
 The block-filter pipeline up to the point where filters are matched: finalising check points, receiving
 filter hashes, deciding whether filters can be requested, and checking received filters against the hashes.
 */
module FilterSync {
  import opened Options
  import opened Arithmetic
  import opened Bytes
  import opened Keys
  import opened Quorum
  import opened Chain
  import opened CheckPoints
  import opened FilterHashes

  /** What checking filters depends on. `cached` follows check point `cachedIndex`. */
  datatype View = View(points: State, cachedIndex: nat, cached: seq<Hash>)

  /** The cached window never exceeds one interval. */
  ghost predicate ViewInv(v: View, interval: nat) {
    Inv(v.points, interval) && |v.cached| <= interval
  }

  // The hashes that a quorum agrees on behind the last finalised check point

  function LatestLists(s: State, interval: nat): Lists<Hash> {
    map p | p in s.peers && s.peers[p].proved.Some? && s.peers[p].base == Number(s.maxIndex, interval) ::
        s.peers[p].latest
  }

  ghost predicate IsLatest(s: State, interval: nat, quorum: nat, latest: seq<Hash>) {
    if |LatestLists(s, interval)| < quorum then latest == []
    else GreedyOutcome(LatestLists(s, interval), quorum, [], latest)
  }

  /** With fewer than two quorums of counted peers there is one answer, however often one asks. */
  lemma LatestIsDetermined(s: State, interval: nat, quorum: nat, one: seq<Hash>, other: seq<Hash>)
    requires 0 < quorum && |LatestLists(s, interval)| < 2 * quorum
    requires IsLatest(s, interval, quorum, one) && IsLatest(s, interval, quorum, other)
    ensures one == other
  {
    hide GreedyOutcome, LatestLists;
    if |LatestLists(s, interval)| >= quorum {
      GreedyIsDeterministic(LatestLists(s, interval), quorum, [], one, other);
    }
  }

  /** Latest hashes are held, from the first to the last, by one and the same quorum of proved peers. */
  lemma LatestHasQuorum(s: State, interval: nat, quorum: nat, latest: seq<Hash>)
    requires quorum > 0 && IsLatest(s, interval, quorum, latest) && latest != []
    ensures |LatestBackers(s, interval, latest)| >= quorum
  {
    var lists := LatestLists(s, interval);
    GreedyExtends(lists, quorum, [], latest);
    forall p | p in Holders(lists, latest) ensures p in LatestBackers(s, interval, latest) {
      assert latest <= lists[p];
    }
    SubsetSize(Holders(lists, latest), LatestBackers(s, interval, latest));
  }

  ghost function LatestBackers(s: State, interval: nat, latest: seq<Hash>): set<PeerIndex> {
    set p | p in s.peers && s.peers[p].proved.Some? && s.peers[p].base == Number(s.maxIndex, interval)
        && latest <= s.peers[p].latest
  }

  // Requesting filters

  /** Index of the check point whose interval holds block `min + 1`. */
  function CacheIndexAt(min: nat, interval: nat): nat
    requires interval > 0
  {
    Quot(min, interval)
  }

  predicate CouldRequestMore(v: View, interval: nat, latest: seq<Hash>, min: nat)
    requires interval > 0
  {
    if CacheIndexAt(min, interval) >= v.points.maxIndex
    then Number(v.points.maxIndex, interval) + |latest| >= min + 1
    else CacheIndexAt(min, interval) == v.cachedIndex && |v.cached| == interval
  }

  // Checking filters

  type Filter = seq<Byte>

  /** The hash of each filter, chained from the hash `parent` of the filter before the first. */
  function Chained(digest: (Hash, Filter) -> Hash, parent: Hash, filters: seq<Filter>): (r: seq<Hash>)
    ensures |r| == |filters|
    decreases |filters|
  {
    if filters == [] then []
    else var h := digest(parent, filters[0]); [h] + Chained(digest, h, filters[1..])
  }

  datatype FilterAnswer =
    | NotContinuous | Malformed | NoFilters | FiltersIgnored | FiltersUnexpected
    | FiltersPanic
    | Taken(count: nat)

  /** Filter hashes of consecutive blocks; the first one, of block `number`, is a check point. */
  datatype Line = Line(number: nat, hashes: seq<Hash>)

  function LineFor(v: View, interval: nat, latest: seq<Hash>, start: nat): Line
    requires v.points.maxIndex in v.points.stored
    requires start <= Number(v.points.maxIndex, interval) ==> v.cachedIndex in v.points.stored
  {
    if start <= Number(v.points.maxIndex, interval)
    then Line(Number(v.cachedIndex, interval), [v.points.stored[v.cachedIndex]] + v.cached)
    else Line(Number(v.points.maxIndex, interval), [v.points.stored[v.points.maxIndex]] + latest)
  }

  /** Filters up to the finalised check point can be checked only inside a cached window that is not empty. */
  predicate Covered(v: View, interval: nat, start: nat) {
    start <= Number(v.points.maxIndex, interval) ==>
      Number(v.cachedIndex, interval) < start <= Number(v.cachedIndex + 1, interval) && v.cached != []
  }

  lemma CoveredIsStored(v: View, interval: nat, start: nat)
    requires ViewInv(v, interval) && Covered(v, interval, start)
    ensures v.points.maxIndex in v.points.stored
    ensures start <= Number(v.points.maxIndex, interval) ==>
              v.cachedIndex < v.points.maxIndex && v.cachedIndex in v.points.stored
                  && v.cachedIndex + 1 in v.points.stored
  {
    if start <= Number(v.points.maxIndex, interval) {
      WindowIsStored(v, interval, start);
    }
  }

  /** Both check points around a window that holds a finalised block exist. */
  lemma WindowIsStored(v: View, interval: nat, start: nat)
    requires ViewInv(v, interval)
    requires Number(v.cachedIndex, interval) < start <= Number(v.points.maxIndex, interval)
    ensures v.cachedIndex < v.points.maxIndex && v.cachedIndex in v.points.stored
              && v.cachedIndex + 1 in v.points.stored
  {
    if v.cachedIndex >= v.points.maxIndex {
      TimesMonotone(v.points.maxIndex, v.cachedIndex, interval);
      assert false;
    }
  }

  /** The hash before the first filter and those from it on; or no hashes, or an index beyond the end of a list. */
  datatype Known = Known(parent: Hash, hashes: seq<Hash>) | NotKnown | BeyondEnd

  ghost predicate Selected(v: View, interval: nat, latest: seq<Hash>, start: nat, k: Known)
    requires ViewInv(v, interval)
  {
    if !Covered(v, interval, start) then k == NotKnown
    else
      CoveredIsStored(v, interval, start);
      var line := LineFor(v, interval, latest, start);
      && line.number < start
      && if start > line.number + |line.hashes|
         then k == if start <= Number(v.points.maxIndex, interval) then BeyondEnd else NotKnown
         else k == Known(line.hashes[start - 1 - line.number], line.hashes[start - line.number..])
  }

  /** Filters match the known hashes from block `start` on, as far as both go. */
  predicate Matching(line: Line, digest: (Hash, Filter) -> Hash, start: nat, filters: seq<Filter>)
    requires line.number < start <= line.number + |line.hashes|
  {
    SameInCommon(Chained(digest, line.hashes[start - 1 - line.number], filters), line.hashes[start - line.number..])
  }

  /** The answer to filters that start right behind `min`; `blocks` is the number of block hashes in the message. */
  ghost predicate Verdict(v: View, interval: nat, latest: seq<Hash>, digest: (Hash, Filter) -> Hash, min: nat,
                          start: nat, filters: seq<Filter>, blocks: nat, r: FilterAnswer)
    requires ViewInv(v, interval)
  {
    if start != min + 1 then r == NotContinuous
    else if |filters| != blocks then r == Malformed
    else if filters == [] then r == NoFilters
    else if !Covered(v, interval, start) then r == FiltersIgnored
    else
      CoveredIsStored(v, interval, start);
      var line := LineFor(v, interval, latest, start);
      if start > line.number + |line.hashes|
      then r == if start <= Number(v.points.maxIndex, interval) then FiltersPanic else FiltersIgnored
      else if Matching(line, digest, start, filters)
      then r == Taken(Min(|filters|, line.number + |line.hashes| - start))
      else r == FiltersUnexpected
  }

  /**
   One hash is known of an interval of ten blocks, of which four are filtered: filters from block 5 on lead to an
   index beyond the end of the known hashes.
   */
  lemma FiltersPanicExample(points: State, h: Hash, digest: (Hash, Filter) -> Hash, filter: Filter, r: FilterAnswer)
    requires Inv(points, 10) && points.maxIndex == 1
    ensures ViewInv(View(points, 0, [h]), 10)
    ensures Verdict(View(points, 0, [h]), 10, [], digest, 4, 5, [filter], 1, r) <==> r == FiltersPanic
  {
    assert Number(0, 10) == 0 && Number(1, 10) == 10;
  }

  /**
   An index goes beyond the end exactly if some hashes of the block's interval are known, but not the one before
   the first filter.
   */
  lemma FiltersPanicExactly(v: View, interval: nat, latest: seq<Hash>, digest: (Hash, Filter) -> Hash, min: nat,
                            filters: seq<Filter>, r: FilterAnswer)
    requires ViewInv(v, interval) && filters != []
    requires Verdict(v, interval, latest, digest, min, min + 1, filters, |filters|, r)
    ensures var from := Number(v.cachedIndex, interval);
            r == FiltersPanic
            <==> && min + 1 <= Number(v.points.maxIndex, interval) && min + 1 <= Number(v.cachedIndex + 1, interval)
                 && 0 < |v.cached| && from + |v.cached| < min
  {
    hide Inv;
  }

  lemma BehindFinalized(min: nat, interval: nat, maxIndex: nat)
    requires interval > 0
    ensures CacheIndexAt(min, interval) >= maxIndex <==> min + 1 > Number(maxIndex, interval)
    ensures Number(CacheIndexAt(min, interval), interval) <= min < Number(CacheIndexAt(min, interval) + 1, interval)
  {
    FloorAdjoint(maxIndex, min, interval);
    FloorAdjoint(CacheIndexAt(min, interval), min, interval);
    FloorAdjoint(CacheIndexAt(min, interval) + 1, min, interval);
  }

  /**
   If filters can be requested behind `min`, every well-formed, non-empty message from `min + 1` on is
   checked against at least one known hash, without leaving any list: it is taken if and only if its
   hashes chain correctly, and then at least one filter is consumed.
   */
  lemma RequestMakesProgress(v: View, interval: nat, latest: seq<Hash>, digest: (Hash, Filter) -> Hash, min: nat,
                          filters: seq<Filter>,
                             r: FilterAnswer)
    requires interval > 0 && ViewInv(v, interval) && filters != []
    requires CouldRequestMore(v, interval, latest, min)
    requires Verdict(v, interval, latest, digest, min, min + 1, filters, |filters|, r)
    ensures Covered(v, interval, min + 1)
    ensures v.points.maxIndex in v.points.stored
    ensures min + 1 <= Number(v.points.maxIndex, interval) ==> v.cachedIndex in v.points.stored
    ensures var line := LineFor(v, interval, latest, min + 1);
            && line.number <= min && min + 1 < line.number + |line.hashes|
            && (r.Taken? <==> Matching(line, digest, min + 1, filters))
            && (r.Taken? || r == FiltersUnexpected)
            && (r.Taken? ==> 1 <= r.count == Min(|filters|, line.number + |line.hashes| - (min + 1)))
  {
    hide Matching, Inv;
    RequestIsCovered(v, interval, latest, min);
  }

  /** Behind the last check point, where filters may not be requested none would be consumed. */
  lemma NoRequestNoProgress(v: View, interval: nat, latest: seq<Hash>, digest: (Hash, Filter) -> Hash, min: nat,
                            filters: seq<Filter>, r: FilterAnswer)
    requires interval > 0 && ViewInv(v, interval) && filters != [] && min + 1 > Number(v.points.maxIndex, interval)
    requires Verdict(v, interval, latest, digest, min, min + 1, filters, |filters|, r)
    ensures !CouldRequestMore(v, interval, latest, min) ==> r == FiltersIgnored || r == Taken(0)
  {
    hide Inv;
    BehindFinalized(min, interval, v.points.maxIndex);
  }

  /** Up to the last check point, filters may be requested exactly if all hashes of the block's interval are known. */
  lemma RequestNeedsInterval(v: View, interval: nat, latest: seq<Hash>, min: nat)
    requires interval > 0 && min + 1 <= Number(v.points.maxIndex, interval)
    ensures CouldRequestMore(v, interval, latest, min)
       <==> && Number(v.cachedIndex, interval) <= min < Number(v.cachedIndex + 1, interval)
            && Number(v.cachedIndex, interval) + |v.cached| == Number(v.cachedIndex + 1, interval)
  {
    BehindFinalized(min, interval, v.points.maxIndex);
    TimesNext(v.cachedIndex, interval);
    FloorAdjoint(v.cachedIndex, min, interval);
    FloorAdjoint(v.cachedIndex + 1, min, interval);
  }

  lemma RequestIsCovered(v: View, interval: nat, latest: seq<Hash>, min: nat)
    requires interval > 0 && ViewInv(v, interval)
    requires CouldRequestMore(v, interval, latest, min)
    ensures Covered(v, interval, min + 1)
    ensures v.points.maxIndex in v.points.stored
    ensures min + 1 <= Number(v.points.maxIndex, interval) ==> v.cachedIndex in v.points.stored
    ensures var line := LineFor(v, interval, latest, min + 1);
            line.number <= min && min + 1 < line.number + |line.hashes|
  {
    BehindFinalized(min, interval, v.points.maxIndex);
    CoveredIsStored(v, interval, min + 1);
  }

  // The client

  datatype HashesAnswer = HashesIgnored | HashesRefused | HashesTaken(next: Option<nat>) | HashesPanic

  /** The message belongs to the cached window. */
  predicate ToCache(v: View, interval: nat, start: nat) {
    && start <= Number(v.points.maxIndex, interval)
    && Number(v.cachedIndex, interval) < start <= Number(v.cachedIndex + 1, interval)
  }

  /** The message comes from a proved peer and fits the window it belongs to. */
  ghost predicate HashesFit(v: View, interval: nat, p: PeerIndex, start: nat, parent: Hash, hashes: seq<Hash>)
    requires ViewInv(v, interval)
  {
    var s := v.points;
    && p in s.peers && s.peers[p].proved.Some?
    && if ToCache(v, interval, start) then
         WindowIsStored(v, interval, start);
         CacheAcceptable(Number(v.cachedIndex, interval), Number(v.cachedIndex + 1, interval),
                         s.stored[v.cachedIndex], s.stored[v.cachedIndex + 1], v.cached, start, parent, hashes)
       else
         && start > Number(s.maxIndex, interval)
         && Acceptable(s.peers[p], s.peers[p].proved.value, Number(s.maxIndex, interval), s.stored[s.maxIndex],
             start, parent, hashes)
  }

  /** The message ends before the last hash known in its window. */
  predicate HashesEndEarly(v: View, interval: nat, p: PeerIndex, start: nat, hashes: seq<Hash>) {
    if ToCache(v, interval, start) then start + |hashes| < Number(v.cachedIndex, interval) + |v.cached| + 1
    else
      && p in v.points.peers && v.points.peers[p].proved.Some? && hashes != []
      && EndNumber(start, hashes, v.points.peers[p].proved.value) < LastNumber(v.points.peers[p])
  }

  /**
   One window has grown, the known hashes still at its front, and all else is as it was. The cached window
   stays inside its interval, the latest hashes of the peer inside its proved chain.
   */
  ghost predicate HashesAppended(v: View, interval: nat, p: PeerIndex, start: nat, hashes: seq<Hash>, v': View) {
    if ToCache(v, interval, start) then
      var from, to := Number(v.cachedIndex, interval), Number(v.cachedIndex + 1, interval);
      && v' == v.(cached := v'.cached)
      && ContinuesWith(from + 1, v.cached, start, hashes, Min(start + |hashes| - 1, to), v'.cached)
    else
      && p in v.points.peers && p in v'.points.peers && v.points.peers[p].proved.Some? && hashes != []
      && var peer, latest := v.points.peers[p], v'.points.peers[p].latest;
      && v' == v.(points := v.points.(peers := v.points.peers[p := peer.(latest := latest)]))
      && ContinuesWith(peer.base + 1, peer.latest, start, hashes, EndNumber(start, hashes, peer.proved.value), latest)
  }

  /** The block to ask hashes for next: none at the end of the window or of the proved chain. */
  function NextHashes(v: View, interval: nat, p: PeerIndex, start: nat, hashes: seq<Hash>): Option<nat>
    requires p in v.points.peers && v.points.peers[p].proved.Some?
  {
    var last := if ToCache(v, interval, start) then Number(v.cachedIndex + 1, interval)
        else v.points.peers[p].proved.value;
    if start + |hashes| - 1 < last then Some(start + |hashes|) else None
  }

  /** A message belongs to the cached window if its first block lies in the interval of the cached check point. */
  lemma ToCacheIsInterval(v: View, interval: nat, start: nat)
    requires interval > 0 && start > 0
    ensures ToCache(v, interval, start)
       <==> start <= Number(v.points.maxIndex, interval) && CacheIndexAt(start - 1, interval) == v.cachedIndex
  {
    FloorAdjoint(v.cachedIndex, start - 1, interval);
    FloorAdjoint(v.cachedIndex + 1, start - 1, interval);
  }

  /** Where a window has grown, the next hashes are asked for from the block right behind it, while it has room. */
  lemma NextHashesFollow(v: View, interval: nat, p: PeerIndex, start: nat, hashes: seq<Hash>, v': View)
    requires interval > 0 && ViewInv(v, interval) && p in v.points.peers && v.points.peers[p].proved.Some?
              && hashes != []
    requires HashesAppended(v, interval, p, start, hashes, v')
    ensures var next := NextHashes(v, interval, p, start, hashes);
            if ToCache(v, interval, start) then
              && (next.Some? <==> ToCache(v, interval, start + |hashes|))
              && (next.Some? ==> next.value == Number(v.cachedIndex, interval) + |v'.cached| + 1)
            else
              && (next.Some? <==> start + |hashes| <= v.points.peers[p].proved.value)
              && (next.Some? ==> next.value == LastNumber(v'.points.peers[p]) + 1)
  {
    if ToCache(v, interval, start) {
      WindowIsStored(v, interval, start);
      TimesMonotone(v.cachedIndex + 1, v.points.maxIndex, interval);
    }
  }

  /** A message that fits its window has a grown window to lead to, exactly if it does not end before what is known. */
  lemma EndsEarlyExactly(v: View, interval: nat, p: PeerIndex, start: nat, parent: Hash, hashes: seq<Hash>)
    requires interval > 0 && ViewInv(v, interval) && HashesFit(v, interval, p, start, parent, hashes)
    ensures HashesEndEarly(v, interval, p, start, hashes) <==>
              forall v' :: !HashesAppended(v, interval, p, start, hashes, v')
  {
    if ToCache(v, interval, start) {
      CacheEndsEarly(v, interval, p, start, parent, hashes);
    } else {
      LatestEndsEarly(v, interval, p, start, parent, hashes);
    }
  }

  lemma CacheEndsEarly(v: View, interval: nat, p: PeerIndex, start: nat, parent: Hash, hashes: seq<Hash>)
    requires interval > 0 && ViewInv(v, interval) && HashesFit(v, interval, p, start, parent, hashes)
    requires ToCache(v, interval, start)
    ensures HashesEndEarly(v, interval, p, start, hashes) <==>
              forall v' :: !HashesAppended(v, interval, p, start, hashes, v')
  {
    hide WindowsAgree, CacheAnchored, MeetsNext;
    var from, to := Number(v.cachedIndex, interval), Number(v.cachedIndex + 1, interval);
    TimesNext(v.cachedIndex, interval);
    if !HashesEndEarly(v, interval, p, start, hashes) {
      var end := Min(start + |hashes| - 1, to);
      AppendRest(from + 1, v.cached, start, hashes, from + |v.cached| + 1 - start, end + 1 - start);
      var grown := v.cached + hashes[from + |v.cached| + 1 - start..end + 1 - start];
      assert HashesAppended(v, interval, p, start, hashes, v.(cached := grown));
    }
  }

  lemma LatestEndsEarly(v: View, interval: nat, p: PeerIndex, start: nat, parent: Hash, hashes: seq<Hash>)
    requires interval > 0 && ViewInv(v, interval) && HashesFit(v, interval, p, start, parent, hashes)
    requires !ToCache(v, interval, start)
    ensures HashesEndEarly(v, interval, p, start, hashes) <==>
              forall v' :: !HashesAppended(v, interval, p, start, hashes, v')
  {
    hide WindowsAgree, Anchored, Agrees;
    var peer := v.points.peers[p];
    var end := EndNumber(start, hashes, peer.proved.value);
    if !HashesEndEarly(v, interval, p, start, hashes) {
      AppendRest(peer.base + 1, peer.latest, start, hashes, LastNumber(peer) + 1 - start, end + 1 - start);
      var grown := peer.latest + hashes[LastNumber(peer) + 1 - start..end + 1 - start];
      var v' := v.(points := v.points.(peers := v.points.peers[p := peer.(latest := grown)]));
      assert v'.points.peers[p].latest == grown;
      assert HashesAppended(v, interval, p, start, hashes, v');
    }
  }

  lemma NoListsAgreeUpToNothing<H>(lists: Lists<H>)
    ensures AgreeUpTo(lists, [])
  {
  }

  lemma KeptHolds(lists: Lists<Hash>, prefix: seq<Hash>, p: PeerIndex)
    requires p in Holders(lists, prefix) && prefix != []
    ensures |lists[p]| >= |prefix| && lists[p][1..|prefix|] == prefix[1..]
  {
    assert lists[p][..|prefix|] == prefix;
  }

  lemma FinalizedCases(s: State, interval: nat, quorum: nat, prefix: seq<Hash>)
    requires s.maxIndex in s.stored
    ensures |ProvedPeers(s)| < quorum ==> Finalized(s, interval, quorum, s)
    ensures |ProvedPeers(s)| >= quorum > |EligibleLists(s)| ==>
              Finalized(s, interval, quorum, s.(peers := TrimmedPeers(s, interval)))
    ensures |ProvedPeers(s)| >= quorum && |EligibleLists(s)| >= quorum && prefix != []
            && GreedyOutcome(EligibleLists(s), quorum, [s.stored[s.maxIndex]], prefix) ==>
              Finalized(s, interval, quorum, Stored(s, prefix, interval))
  {
    hide GreedyOutcome, EligibleLists, TrimmedPeers, Stored;
  }

  /** The check points behind `last` that the greedy search finds, taken from the list of a peer it kept. */
  method NewCheckPoints(ghost s: State, lists: Lists<Hash>, quorum: nat, last: Hash)
    returns (points: seq<Hash>, ghost prefix: seq<Hash>)
    requires s.maxIndex in s.stored && last == s.stored[s.maxIndex]
    requires lists == EligibleLists(s) && |lists| >= quorum > 0
    ensures GreedyOutcome(EligibleLists(s), quorum, [s.stored[s.maxIndex]], prefix)
    ensures prefix != [] && points == prefix[1..]
  {
    hide EligibleLists, GreedyOutcome;
    EligibleAgree(s);
    var found, kept := GreedyPrefix(lists, quorum, [last]);
    prefix := found;
    GreedyExtends(lists, quorum, [last], found);
    SomeKept(lists, quorum, found, kept);
    var p :| p in kept;
    assert |found| >= 1;
    KeptHolds(lists, found, p);
    points := kept[p][1..|found|];
  }

  lemma SomeKept(lists: Lists<Hash>, quorum: nat, prefix: seq<Hash>, kept: Lists<Hash>)
    requires kept.Keys == Holders(lists, prefix) && |Holders(lists, prefix)| >= quorum > 0
    ensures exists p :: p in kept
  {
    var p :| p in Holders(lists, prefix);
    assert p in kept;
  }

  lemma EligibleAgree(s: State)
    requires s.maxIndex in s.stored
    ensures AgreeUpTo(EligibleLists(s), [s.stored[s.maxIndex]])
  {
  }

  lemma ChainStep(digest: (Hash, Filter) -> Hash, parent: Hash, filters: seq<Filter>)
    requires filters != []
    ensures Chained(digest, parent, filters)[0] == digest(parent, filters[0])
    ensures Chained(digest, parent, filters)[1..] == Chained(digest, digest(parent, filters[0]), filters[1..])
  {
  }

  lemma SameInCommonStep(x: seq<Hash>, y: seq<Hash>)
    requires x != [] && y != []
    ensures SameInCommon(x, y) <==> x[0] == y[0] && SameInCommon(x[1..], y[1..])
  {
    if x[0] == y[0] && SameInCommon(x[1..], y[1..]) {
      forall i | 0 <= i < |x| && i < |y| ensures x[i] == y[i] {
        if i > 0 {
          assert x[1..][i - 1] == y[1..][i - 1];
        }
      }
    }
    if SameInCommon(x, y) {
      forall i | 0 <= i < |x[1..]| && i < |y[1..]| ensures x[1..][i] == y[1..][i] {
        assert x[i + 1] == y[i + 1];
      }
    }
  }

  /** Chains the hashes of the filters as far as hashes are expected, and compares each with the expected one. */
  method ChainMatches(digest: (Hash, Filter) -> Hash, first: Hash, filters: seq<Filter>, expected: seq<Hash>)
    returns (good: bool)
    ensures good <==> SameInCommon(Chained(digest, first, filters), expected)
  {
    hide SameInCommon, Chained;
    var limit := Min(|filters|, |expected|);
    var parent := first;
    var i := 0;
    assert filters[0..] == filters && expected[0..] == expected;
    while i < limit
      invariant i <= limit
      invariant SameInCommon(Chained(digest, first, filters), expected)
                <==> SameInCommon(Chained(digest, parent, filters[i..]), expected[i..])
    {
      ChainStep(digest, parent, filters[i..]);
      SameInCommonStep(Chained(digest, parent, filters[i..]), expected[i..]);
      assert filters[i..][1..] == filters[i + 1..] && expected[i..][1..] == expected[i + 1..];
      var current := digest(parent, filters[i]);
      if current != expected[i] {
        return false;
      }
      parent := current;
      i := i + 1;
    }
    NothingInCommon(Chained(digest, parent, filters[i..]), expected[i..]);
    return true;
  }

  lemma NothingInCommon(x: seq<Hash>, y: seq<Hash>)
    requires x == [] || y == []
    ensures SameInCommon(x, y)
  {
  }

  lemma ExtendedStep(stored: map<nat, Hash>, from: nat, points: seq<Hash>, i: nat)
    requires i < |points|
    ensures Extended(stored, from, points[..i + 1]) == Extended(stored, from, points[..i])[from + i := points[i]]
  {
    assert points[..i + 1][..i] == points[..i];
  }

  /** Writes check points one after the other. */
  method StoreCheckPoints(stored: map<nat, Hash>, from: nat, points: seq<Hash>) returns (r: map<nat, Hash>)
    ensures r == Extended(stored, from, points)
  {
    r := stored;
    var i := 0;
    while i < |points|
      invariant i <= |points|
      invariant r == Extended(stored, from, points[..i])
    {
      ExtendedStep(stored, from, points, i);
      r := r[from + i := points[i]];
      i := i + 1;
    }
    assert points[..i] == points;
  }

  /** The peers and the lists gathered while those in `rest` still have to be visited. */
  ghost predicate Gathered(s: State, interval: nat, rest: set<PeerIndex>, peers: map<PeerIndex, Peer>,
                          lists: Lists<Hash>)
    requires s.maxIndex in s.stored
  {
    && peers.Keys == s.peers.Keys
    && (forall p :: p in s.peers ==>
          peers[p] == if p in rest || !Eligible(s, p) then s.peers[p] else Trimmed(s.peers[p], interval, s.maxIndex))
    && (forall p :: p in lists <==> p !in rest && p in s.peers && Eligible(s, p))
    && (forall p :: p in lists ==> lists[p] == s.peers[p].points[s.maxIndex - s.peers[p].first..])
  }

  lemma NothingGathered(s: State, interval: nat)
    requires s.maxIndex in s.stored
    ensures Gathered(s, interval, ProvedPeers(s), s.peers, map[])
  {
  }

  lemma AllGathered(s: State, interval: nat, peers: map<PeerIndex, Peer>, lists: Lists<Hash>)
    requires s.maxIndex in s.stored && Gathered(s, interval, {}, peers, lists)
    ensures peers == TrimmedPeers(s, interval) && lists == EligibleLists(s)
  {
    hide Trimmed, Eligible;
    assert peers.Keys == TrimmedPeers(s, interval).Keys;
    assert lists.Keys == EligibleLists(s).Keys;
  }

  lemma GatherOne(s: State, interval: nat, rest: set<PeerIndex>, peers: map<PeerIndex, Peer>, lists: Lists<Hash>,
                  p: PeerIndex)
    requires s.maxIndex in s.stored && Gathered(s, interval, rest, peers, lists) && p in rest && rest <= ProvedPeers(s)
    ensures p in peers && peers[p] == s.peers[p]
    ensures !Eligible(s, p) ==> Gathered(s, interval, rest - {p}, peers, lists)
    ensures Eligible(s, p) ==>
              Gathered(s, interval, rest - {p}, peers[p := Trimmed(s.peers[p], interval, s.maxIndex)],
                       lists[p := s.peers[p].points[s.maxIndex - s.peers[p].first..]])
  {
    hide Trimmed, Eligible, EligibleLists, TrimmedPeers;
    assert p in ProvedPeers(s);
  }

  /** Drops the finalised check points of proved peers, and gathers what their lists say from the last one on. */
  method GatherLists(s: State, interval: nat) returns (peers: map<PeerIndex, Peer>, lists: Lists<Hash>)
    requires s.maxIndex in s.stored
    ensures peers == TrimmedPeers(s, interval) && lists == EligibleLists(s)
  {
    hide Gathered;
    peers, lists := s.peers, map[];
    var rest := ProvedPeers(s);
    NothingGathered(s, interval);
    while rest != {}
      invariant rest <= ProvedPeers(s)
      invariant Gathered(s, interval, rest, peers, lists)
      decreases rest
    {
      var p :| p in rest;
      GatherOne(s, interval, rest, peers, lists, p);
      rest := rest - {p};
      if Eligible(s, p) {
        lists := lists[p := s.peers[p].points[s.maxIndex - s.peers[p].first..]];
        peers := peers[p := Trimmed(s.peers[p], interval, s.maxIndex)];
      }
    }
    AllGathered(s, interval, peers, lists);
  }

  lemma LastIsStored(s: State, interval: nat)
    requires Inv(s, interval)
    ensures s.maxIndex in s.stored
  {
  }

  /** Selects from the hashes behind block `number`, whose own hash is `point`. */
  method SelectBehind(number: nat, point: Hash, hashes: seq<Hash>, start: nat) returns (k: Known)
    requires number < start
    ensures var all := [point] + hashes;
            k == if start > number + |all| then BeyondEnd else Known(all[start - 1 - number], all[start - number..])
  {
    if start == number + 1 {
      return Known(point, hashes);
    }
    var index := start - number - 2;
    if index >= |hashes| {
      return BeyondEnd;
    }
    return Known(hashes[index], hashes[index + 1..]);
  }

  class FilterClient {
    const config: Config
    var stored: map<nat, Hash>
    var maxIndex: nat
    var peers: map<PeerIndex, Peer>
    var cachedIndex: nat
    var cached: seq<Hash>
    var minFiltered: nat

    constructor (c: Config, points: State, min: nat)
      requires c.interval > 0 && c.quorum > 0 && Inv(points, c.interval)
      ensures config == c && Valid() && Points() == points && minFiltered == min
      ensures cachedIndex == CacheIndexAt(min, c.interval) && cached == []
    {
      config := c;
      stored, maxIndex, peers := points.stored, points.maxIndex, points.peers;
      cachedIndex, cached, minFiltered := CacheIndexAt(min, c.interval), [], min;
    }

    ghost predicate Valid()
      reads this
    {
      config.interval > 0 && config.quorum > 0 && ViewInv(Look(), config.interval)
    }

    function Points(): State
      reads this
    {
      State(stored, maxIndex, peers)
    }

    function Look(): View
      reads this
    {
      View(Points(), cachedIndex, cached)
    }

    /** Takes check points from a peer; what is refused changes nothing. */
    method AddCheckPoints(p: PeerIndex, start: nat, given: seq<Hash>) returns (r: Answer)
      requires Valid()
      modifies this`peers
      ensures Valid()
      ensures Steps(config, old(Points()), Receive(p, start, given), Points())
      ensures r.Accepted? <==>
                && p in old(peers) && old(peers)[p].proved.Some?
                && Continues(old(peers)[p], config.interval, start, given)
      ensures r.Accepted? ==>
                && p in peers && peers[p].proved.Some?
                && r.next == NextWanted(peers[p], config.interval, peers[p].proved.value)
      ensures r.Refused? ==> peers == old(peers)
    {
      if p !in peers || peers[p].proved.None? {
        return Refused(PeerNotProved);
      }
      var peer := peers[p];
      assert PeerInv(peer, config.interval, maxIndex);
      var lastProved := peer.proved.value;
      if given == [] {
        return Refused(PointsEmpty);
      }
      if Times(Quot(start, config.interval), config.interval) != start {
        assert Continues(peer, config.interval, start, given) ==> false by {
          ExactQuotient(LastIndex(peer), config.interval);
        }
        return Refused(PointsUnaligned);
      }
      if start != Number(LastIndex(peer), config.interval) || peer.points[|peer.points| - 1] != given[0]
          || |given| < 2 {
        return Refused(PointsUnexpected);
      }
      if start + Times(|given|, config.interval) <= lastProved {
        peer := peer.(points := peer.points + given[1..]);
      } else if |given| > 2 {
        peer := peer.(points := peer.points + given[1..|given| - 1]);
      }
      assert peer == WithPoints(peers[p], config.interval, lastProved, start, given);
      peers := peers[p := peer];
      r := Accepted(NextWanted(peer, config.interval, lastProved));
    }

    /** The latest filter hashes that a quorum of proved peers agrees on. */
    method LatestHashes() returns (latest: seq<Hash>)
      requires Valid()
      ensures IsLatest(Points(), config.interval, config.quorum, latest)
    {
      var lists := LatestLists(Points(), config.interval);
      if |lists| < config.quorum {
        return [];
      }
      NoListsAgreeUpToNothing(lists);
      var prefix, _ := GreedyPrefix(lists, config.quorum, []);
      return prefix;
    }

    method UpdateMinFiltered(min: nat)
      requires Valid()
      modifies this`minFiltered, this`cachedIndex, this`cached
      ensures Valid() && minFiltered == min
      ensures cachedIndex == CacheIndexAt(min, config.interval)
      ensures cached == if cachedIndex == old(cachedIndex) then old(cached) else []
    {
      minFiltered := min;
      var index := CacheIndexAt(min, config.interval);
      if cachedIndex != index {
        cachedIndex, cached := index, [];
      }
    }

    method MayRequestMore(min: nat) returns (more: bool, latest: seq<Hash>)
      requires Valid()
      ensures IsLatest(Points(), config.interval, config.quorum, latest)
      ensures more == CouldRequestMore(Look(), config.interval, latest, min)
    {
      latest := LatestHashes();
      var index := CacheIndexAt(min, config.interval);
      if index >= maxIndex {
        more := Number(maxIndex, config.interval) + |latest| >= min + 1;
      } else {
        more := index == cachedIndex && |cached| == config.interval;
      }
    }

    /**
     Takes filter hashes from a peer: into the cached window if they start inside it, behind a finalised
     check point, or into the peer's latest hashes if they start behind the last one.
     */
    method ReceiveHashes(p: PeerIndex, start: nat, parent: Hash, hashes: seq<Hash>) returns (r: HashesAnswer)
      requires Valid()
      modifies this`peers, this`cached
      ensures Valid()
      ensures r.HashesTaken? || r.HashesPanic? <==> HashesFit(old(Look()), config.interval, p, start, parent, hashes)
      ensures r.HashesPanic? ==> HashesEndEarly(old(Look()), config.interval, p, start, hashes)
      ensures r.HashesTaken? ==> !HashesEndEarly(old(Look()), config.interval, p, start, hashes)
      ensures !r.HashesTaken? ==> Look() == old(Look())
      ensures r.HashesTaken? ==> HashesAppended(old(Look()), config.interval, p, start, hashes, Look())
      ensures r.HashesTaken? ==> r.next == NextHashes(old(Look()), config.interval, p, start, hashes)
    {
      hide CacheAcceptable, Anchored, Agrees, WindowsAgree;
      if p !in peers || peers[p].proved.None? {
        return HashesIgnored;
      }
      var finalized := Number(maxIndex, config.interval);
      var from, to := Number(cachedIndex, config.interval), Number(cachedIndex + 1, config.interval);
      if start <= finalized && from < start <= to {
        WindowIsStored(Look(), config.interval, start);
        var answer := UpdateCache(from, to, stored[cachedIndex], stored[cachedIndex + 1], cached, start, parent,
            hashes);
        match answer
        case CacheRefused => r := HashesRefused;
        case CachePanic => r := HashesPanic;
        case CacheAccepted(extended) =>
          cached := extended;
          r := HashesTaken(if start + |hashes| - 1 < to then Some(start + |hashes|) else None);
      } else if start > finalized {
        assert maxIndex in stored;
        var answer := UpdateLatest(peers[p], peers[p].proved.value, finalized, stored[maxIndex], start, parent, hashes);
        match answer
        case LatestRefused(_) => r := HashesRefused;
        case LatestPanic => r := HashesPanic;
        case LatestAccepted(latest, next) =>
          peers := peers[p := peers[p].(latest := latest)];
          r := HashesTaken(next);
      } else {
        r := HashesIgnored;
      }
    }

    /** Finalises the check points that a quorum of proved peers agrees on. */
    method Finalize()
      requires Valid()
      modifies this`stored, this`maxIndex, this`peers
      ensures Valid()
      ensures Finalized(old(Points()), config.interval, config.quorum, Points())
    {
      hide PeerInv, TrimmedPeers, EligibleLists, GreedyOutcome, Extended, Finalized;
      ghost var before := Points();
      FinalizedCases(before, config.interval, config.quorum, []);
      if |ProvedPeers(Points())| < config.quorum {
        return;
      }
      var trimmed, lists := GatherLists(Points(), config.interval);
      peers := trimmed;
      if |lists| >= config.quorum {
        ghost var prefix;
        var points;
        points, prefix := NewCheckPoints(before, lists, config.quorum, stored[maxIndex]);
        FinalizedCases(before, config.interval, config.quorum, prefix);
        stored := StoreCheckPoints(stored, maxIndex + 1, points);
        maxIndex := maxIndex + |points|;
        assert Points() == Stored(before, prefix, config.interval);
      }
      FinalizeKeepsInv(before, config.interval, config.quorum, Points());
    }

    /** Selects the hashes to check filters from block `start` on against. */
    method SelectHashes(start: nat, latest: seq<Hash>) returns (k: Known)
      requires Valid() && start > 0
      ensures Selected(Look(), config.interval, latest, start, k)
    {
      hide Inv, SameInCommon;
      assert maxIndex in stored by {
        LastIsStored(Points(), config.interval);
      }
      var finalized := Number(maxIndex, config.interval);
      if start <= finalized {
        var from, to := Number(cachedIndex, config.interval), Number(cachedIndex + 1, config.interval);
        if start <= from || start > to || cached == [] {
          return NotKnown;
        }
        WindowIsStored(Look(), config.interval, start);
        k := SelectBehind(from, stored[cachedIndex], cached, start);
      } else {
        k := SelectBehind(finalized, stored[maxIndex], latest, start);
        if k.BeyondEnd? {
          k := NotKnown;
        }
      }
    }

    /** Checks filters against the known hashes, and advances behind those that were checked. */
    method CheckFilters(p: PeerIndex, start: nat, filters: seq<Filter>, blocks: nat, digest: (Hash, Filter) -> Hash)
      returns (r: FilterAnswer, ghost latest: seq<Hash>)
      requires Valid()
      modifies this`minFiltered, this`cachedIndex, this`cached
      ensures Valid()
      ensures p !in peers || peers[p].proved.None? ==> r == FiltersIgnored
      ensures p in peers && peers[p].proved.Some? ==>
                && IsLatest(Points(), config.interval, config.quorum, latest)
                && Verdict(old(Look()), config.interval, latest, digest, old(minFiltered), start, filters, blocks, r)
      ensures !r.Taken? ==> Look() == old(Look()) && minFiltered == old(minFiltered)
      ensures r.Taken? ==>
                && minFiltered == old(minFiltered) + r.count
                && cachedIndex == CacheIndexAt(minFiltered, config.interval)
                && cached == if cachedIndex == old(cachedIndex) then old(cached) else []
    {
      hide GreedyOutcome, IsLatest, Covered, LineFor, SameInCommon, Chained;
      latest := [];
      if p !in peers || peers[p].proved.None? {
        return FiltersIgnored, latest;
      }
      var found := LatestHashes();
      latest := found;
      if minFiltered + 1 != start {
        return NotContinuous, latest;
      }
      if |filters| != blocks {
        return Malformed, latest;
      }
      if filters == [] {
        return NoFilters, latest;
      }
      var known := SelectHashes(start, found);
      match known
      case NotKnown => r := FiltersIgnored;
      case BeyondEnd => r := FiltersPanic;
      case Known(parent, expected) =>
        var good := ChainMatches(digest, parent, filters, expected);
        if good {
          r := Taken(Min(|filters|, |expected|));
          UpdateMinFiltered(start - 1 + r.count);
        } else {
          r := FiltersUnexpected;
        }
    }
  }
}
