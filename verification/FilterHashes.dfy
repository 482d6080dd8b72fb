/**
 The two windows of block filter hashes: the latest hashes of one peer, which follow the last finalised
 check point, and the cached hashes between two finalised check points. A window is the number of its
 first block and the hashes from there on.
 */
module FilterHashes {
  import opened Options
  import opened Arithmetic
  import opened Keys
  import opened Chain
  import opened CheckPoints

  /** Two windows give the same hash for every block they both cover. */
  predicate WindowsAgree(a: nat, x: seq<Hash>, b: nat, y: seq<Hash>) {
    forall i :: 0 <= i < |x| && b <= a + i < b + |y| ==> x[i] == y[a + i - b]
  }

  predicate SameInCommon(x: seq<Hash>, y: seq<Hash>) {
    forall i :: 0 <= i < |x| && i < |y| ==> x[i] == y[i]
  }

  method CompareInCommon(x: seq<Hash>, y: seq<Hash>) returns (same: bool)
    ensures same <==> SameInCommon(x, y)
  {
    var i := 0;
    while i < |x| && i < |y|
      invariant i <= |x| && i <= |y|
      invariant forall j :: 0 <= j < i ==> x[j] == y[j]
    {
      if x[i] != y[i] {
        return false;
      }
      i := i + 1;
    }
    return true;
  }

  lemma AlignedWindows(a: nat, x: seq<Hash>, b: nat, y: seq<Hash>, fromX: nat, fromY: nat)
    requires fromX <= |x| && fromY <= |y| && a + fromX == b + fromY && (fromX == 0 || fromY == 0)
    ensures SameInCommon(x[fromX..], y[fromY..]) <==> WindowsAgree(a, x, b, y)
  {
    if SameInCommon(x[fromX..], y[fromY..]) {
      forall i | 0 <= i < |x| && b <= a + i < b + |y| ensures x[i] == y[a + i - b] {
        assert x[fromX..][i - fromX] == y[fromY..][i - fromX];
      }
    }
    if WindowsAgree(a, x, b, y) {
      forall i | 0 <= i < |x[fromX..]| && i < |y[fromY..]| ensures x[fromX..][i] == y[fromY..][i] {
        assert x[fromX + i] == y[a + (fromX + i) - b];
      }
    }
  }

  /** `z` continues window `x` with hashes of window `y`, up to block `end`. */
  ghost predicate ContinuesWith(a: nat, x: seq<Hash>, b: nat, y: seq<Hash>, end: nat, z: seq<Hash>) {
    && x <= z
    && a + |z| == end + 1 <= b + |y|
    && forall i :: |x| <= i < |z| ==> b <= a + i && z[i] == y[a + i - b]
  }

  lemma AppendRest(a: nat, x: seq<Hash>, b: nat, y: seq<Hash>, from: nat, to: nat)
    requires from <= to <= |y| && a + |x| == b + from && 0 < b + to
    ensures ContinuesWith(a, x, b, y, b + to - 1, x + y[from..to])
  {
  }

  // Latest filter hashes of one peer

  datatype LatestRefusal = HashesEmpty | Ignored | HashesUnexpected

  /** `Panic` is a slice beyond the end of the received hashes. */
  datatype LatestAnswer =
    | LatestAccepted(latest: seq<Hash>, next: Option<nat>)
    | LatestRefused(why: LatestRefusal)
    | LatestPanic

  function LastNumber(p: Peer): nat {
    p.base + |p.latest|
  }

  /** Number of the last block of a message, cut off at the proved number. */
  function EndNumber(start: nat, hashes: seq<Hash>, lastProved: nat): nat
    requires hashes != []
  {
    Min(start + |hashes| - 1, lastProved)
  }

  /**
   The message's numbers fit the peer's window: they overlap or continue it, and go past the finalised check
   point.
   */
  predicate InWindow(p: Peer, lastProved: nat, finalized: nat, start: nat, hashes: seq<Hash>) {
    && hashes != []
    && finalized < lastProved
    && finalized == p.base
    && finalized < start + |hashes| - 1
    && start <= lastProved
    && start <= LastNumber(p) + 1
  }

  /** The message is anchored: at the check point if it reaches back to it, else at the known hash before it. */
  predicate Anchored(p: Peer, finalized: nat, point: Hash, start: nat, parent: Hash, hashes: seq<Hash>)
    requires finalized == p.base < start + |hashes| - 1 && start <= LastNumber(p) + 1
  {
    if start <= finalized then hashes[finalized - start] == point
    else if start == finalized + 1 then parent == point
    else p.latest[start - finalized - 2] == parent
  }

  /** Known and received hashes agree up to the proved number. */
  predicate Agrees(p: Peer, lastProved: nat, start: nat, hashes: seq<Hash>)
    requires hashes != [] && start <= lastProved
  {
    WindowsAgree(p.base + 1, p.latest, start, hashes[..EndNumber(start, hashes, lastProved) + 1 - start])
  }

  predicate Acceptable(p: Peer, lastProved: nat, finalized: nat, point: Hash, start: nat, parent: Hash,
                       hashes: seq<Hash>) {
    && InWindow(p, lastProved, finalized, start, hashes)
    && Anchored(p, finalized, point, start, parent, hashes)
    && Agrees(p, lastProved, start, hashes)
  }

  /** What is known of a block: the check point, or a hash of the window behind it. */
  function KnownAt(p: Peer, point: Hash, block: nat): Option<Hash> {
    if block == p.base then Some(point)
    else if p.base < block <= LastNumber(p) then Some(p.latest[block - p.base - 1])
    else None
  }

  /** What a message says of a block: its own hashes, and the parent of the first one. */
  function SaidAt(start: nat, parent: Hash, hashes: seq<Hash>, block: nat): Hash
    requires start <= block + 1 <= start + |hashes|
  {
    if block + 1 == start then parent else hashes[block - start]
  }

  /** Acceptable messages are those that fit the window and say of every known block what is known of it. */
  lemma AcceptableIsConsistent(p: Peer, lastProved: nat, finalized: nat, point: Hash, start: nat, parent: Hash,
                               hashes: seq<Hash>)
    ensures Acceptable(p, lastProved, finalized, point, start, parent, hashes)
       <==> && InWindow(p, lastProved, finalized, start, hashes)
            && forall b: nat ::
                 (start <= b + 1 && b <= EndNumber(start, hashes, lastProved) && KnownAt(p, point, b).Some? ==>
                    SaidAt(start, parent, hashes, b) == KnownAt(p, point, b).value)
  {
    if InWindow(p, lastProved, finalized, start, hashes) {
      var end := EndNumber(start, hashes, lastProved);
      var cut := hashes[..end + 1 - start];
      if Acceptable(p, lastProved, finalized, point, start, parent, hashes) {
        forall b: nat | start <= b + 1 && b <= end && KnownAt(p, point, b).Some?
          ensures SaidAt(start, parent, hashes, b) == KnownAt(p, point, b).value
        {
          if b > p.base && b >= start {
            assert p.latest[b - p.base - 1] == cut[p.base + 1 + (b - p.base - 1) - start];
          }
        }
      } else if forall b: nat :: start <= b + 1 && b <= end && KnownAt(p, point, b).Some?
                  ==> SaidAt(start, parent, hashes, b) == KnownAt(p, point, b).value {
        KnownIsAnchored(p, lastProved, point, start, parent, hashes);
        assert false;
      }
    }
  }

  lemma KnownIsAnchored(p: Peer, lastProved: nat, point: Hash, start: nat, parent: Hash, hashes: seq<Hash>)
    requires InWindow(p, lastProved, p.base, start, hashes)
    requires forall b: nat :: start <= b + 1 && b <= EndNumber(start, hashes, lastProved) && KnownAt(p, point, b).Some?
               ==> SaidAt(start, parent, hashes, b) == KnownAt(p, point, b).value
    ensures Acceptable(p, lastProved, p.base, point, start, parent, hashes)
  {
    var cut := hashes[..EndNumber(start, hashes, lastProved) + 1 - start];
    assert KnownAt(p, point, p.base) == Some(point);
    if start > p.base + 1 {
      assert KnownAt(p, point, start - 1).Some? && SaidAt(start, parent, hashes, start - 1) == parent;
    } else {
      assert SaidAt(start, parent, hashes, p.base) == if start == p.base + 1 then parent else hashes[p.base - start];
    }
    forall i | 0 <= i < |p.latest| && start <= p.base + 1 + i < start + |cut|
      ensures p.latest[i] == cut[p.base + 1 + i - start]
    {
      assert KnownAt(p, point, p.base + 1 + i) == Some(p.latest[i]);
      assert SaidAt(start, parent, hashes, p.base + 1 + i) == cut[p.base + 1 + i - start];
    }
  }

  /** Checks the anchor and says from where on known and received hashes have to be compared. */
  method CheckAnchor(p: Peer, finalized: nat, point: Hash, start: nat, parent: Hash, hashes: seq<Hash>)
    returns (ok: bool, fromOld: nat, fromNew: nat)
    requires finalized == p.base < start + |hashes| - 1 && start <= LastNumber(p) + 1
    ensures ok == Anchored(p, finalized, point, start, parent, hashes)
    ensures fromOld <= |p.latest| && fromNew <= |hashes| && (fromOld == 0 || fromNew == 0)
    ensures p.base + 1 + fromOld == start + fromNew
  {
    if start <= finalized {
      var index := finalized - start;
      return hashes[index] == point, 0, index + 1;
    } else if start == finalized + 1 {
      return parent == point, 0, 0;
    } else {
      var index := start - finalized - 2;
      return p.latest[index] == parent, index + 1, 0;
    }
  }

  lemma AnchoredWhenCut(p: Peer, finalized: nat, point: Hash, start: nat, parent: Hash, hashes: seq<Hash>, size: nat)
    requires size <= |hashes| && finalized == p.base < start + size - 1 && start <= LastNumber(p) + 1
    ensures Anchored(p, finalized, point, start, parent, hashes[..size]) <==>
              Anchored(p, finalized, point, start, parent, hashes)
  {
  }

  /**
   A message is taken in exactly if it is acceptable and does not end before the known last number; the
   known hashes then stay a prefix, the new ones are the message's, and the list ends within the proved chain.
   An acceptable message that ends earlier makes an unguarded slice fail.
   */
  method UpdateLatest(p: Peer, lastProved: nat, finalized: nat, point: Hash, start: nat, parent: Hash, given: seq<Hash>)
    returns (r: LatestAnswer)
    ensures r.LatestRefused? <==> !Acceptable(p, lastProved, finalized, point, start, parent, given)
    ensures r.LatestPanic? <==> Acceptable(p, lastProved, finalized, point, start, parent, given)
                                && EndNumber(start, given, lastProved) < LastNumber(p)
    ensures r.LatestAccepted? ==>
              var end := EndNumber(start, given, lastProved);
              && ContinuesWith(p.base + 1, p.latest, start, given, end, r.latest)
              && r.next == (if end < lastProved then Some(end + 1) else None)
  {
    hide Anchored, WindowsAgree, SameInCommon, ContinuesWith;
    if given == [] {
      return LatestRefused(HashesEmpty);
    }
    if finalized >= lastProved || finalized != p.base {
      return LatestRefused(Ignored);
    }
    var end := start + |given| - 1;
    if finalized >= end || start > lastProved || start > LastNumber(p) + 1 {
      return LatestRefused(Ignored);
    }
    var hashes := given;
    if end > lastProved {
      hashes := hashes[..|hashes| - (end - lastProved)];
      end := lastProved;
    }
    ghost var size := |hashes|;
    assert size == EndNumber(start, given, lastProved) + 1 - start;
    assert hashes == given[..size];
    AnchoredWhenCut(p, finalized, point, start, parent, given, size);
    var anchored, fromOld, fromNew := CheckAnchor(p, finalized, point, start, parent, hashes);
    if !anchored {
      return LatestRefused(HashesUnexpected);
    }
    var same := CompareInCommon(p.latest[fromOld..], hashes[fromNew..]);
    AlignedWindows(p.base + 1, p.latest, start, hashes, fromOld, fromNew);
    if !same {
      return LatestRefused(Ignored);
    }
    var from := fromNew + |p.latest[fromOld..]|;
    if from > |hashes| {
      return LatestPanic;
    }
    AppendRest(p.base + 1, p.latest, start, given, from, size);
    assert hashes[from..] == given[from..size];
    return LatestAccepted(p.latest + hashes[from..], if end < lastProved then Some(end + 1) else None);
  }

  /**
   A slice does fail: a peer that has sent the hashes of two blocks behind the check point sends the first
   one alone once more.
   */
  lemma LatestEndsEarlyExample(p: Peer, lastProved: nat, point: Hash, one: Hash, two: Hash)
    requires p.latest == [] && p.base + 2 <= lastProved
    ensures var start := p.base + 1;
            && Acceptable(p, lastProved, p.base, point, start, point, [one, two])
            && EndNumber(start, [one, two], lastProved) >= LastNumber(p)
            && ContinuesWith(start, [], start, [one, two], p.base + 2, [one, two])
            && var p' := p.(latest := [one, two]);
            && Acceptable(p', lastProved, p.base, point, start, point, [one])
            && EndNumber(start, [one], lastProved) < LastNumber(p')
  {
    assert [one, two][..2] == [one, two] && [one][..1] == [one];
  }

  // The cached window between two check points

  datatype CacheAnswer = CacheAccepted(cached: seq<Hash>) | CacheRefused | CachePanic

  predicate CacheAnchored(from: nat, point: Hash, cached: seq<Hash>, start: nat, parent: Hash)
    requires from < start <= from + |cached| + 1
  {
    if start == from + 1 then parent == point else cached[start - from - 2] == parent
  }

  /** A message that goes past the next check point has to repeat it. */
  predicate MeetsNext(to: nat, next: Hash, start: nat, hashes: seq<Hash>)
    requires start <= to
  {
    start + |hashes| > to + 1 ==> hashes[to - start] == next
  }

  /** The message fits the window behind check point `point` at block `from`, where check point `next` at `to` ends. */
  predicate CacheAcceptable(from: nat, to: nat, point: Hash, next: Hash, cached: seq<Hash>, start: nat, parent: Hash,
                          hashes: seq<Hash>)
  {
    && from < start <= to && start <= from + |cached| + 1
    && CacheAnchored(from, point, cached, start, parent)
    && MeetsNext(to, next, start, hashes)
    && WindowsAgree(from + 1, cached, start, hashes)
  }

  function KnownCached(from: nat, point: Hash, cached: seq<Hash>, block: nat): Option<Hash> {
    if block == from then Some(point)
    else if from < block <= from + |cached| then Some(cached[block - from - 1])
    else None
  }

  /** The same for the cached window, whose end is the next check point. */
  lemma CacheAcceptableIsConsistent(from: nat, to: nat, point: Hash, next: Hash, cached: seq<Hash>, start: nat,
                                    parent: Hash, hashes: seq<Hash>)
    ensures CacheAcceptable(from, to, point, next, cached, start, parent, hashes)
       <==> && from < start <= to && start <= from + |cached| + 1
            && (forall b: nat :: start <= b + 1 <= start + |hashes| && KnownCached(from, point, cached, b).Some? ==>
                  SaidAt(start, parent, hashes, b) == KnownCached(from, point, cached, b).value)
            && (to + 1 < start + |hashes| ==> SaidAt(start, parent, hashes, to) == next)
  {
    if from < start <= to && start <= from + |cached| + 1 {
      assert KnownCached(from, point, cached, start - 1) == Some(if start == from + 1 then point
          else cached[start - from - 2]);
      assert SaidAt(start, parent, hashes, start - 1) == parent;
      forall i | 0 <= i < |cached| && start <= from + 1 + i < start + |hashes|
        ensures KnownCached(from, point, cached, from + 1 + i) == Some(cached[i])
        ensures SaidAt(start, parent, hashes, from + 1 + i) == hashes[from + 1 + i - start]
      {
      }
    }
  }

  /**
   The cached window only grows and never leaves its interval; a message that ends before the known last
   number, although it agrees with it, makes an unguarded slice fail.
   */
  method UpdateCache(from: nat, to: nat, point: Hash, next: Hash, cached: seq<Hash>, start: nat, parent: Hash,
                     hashes: seq<Hash>)
    returns (r: CacheAnswer)
    requires from < start <= to && from + |cached| <= to
    ensures r.CacheRefused? <==> !CacheAcceptable(from, to, point, next, cached, start, parent, hashes)
    ensures r.CachePanic? <==> CacheAcceptable(from, to, point, next, cached, start, parent, hashes)
                               && start + |hashes| < from + |cached| + 1
    ensures r.CacheAccepted? ==>
              ContinuesWith(from + 1, cached, start, hashes, Min(start + |hashes| - 1, to), r.cached)
  {
    hide WindowsAgree, SameInCommon, ContinuesWith;
    if start > from + |cached| + 1 {
      return CacheRefused;
    }
    if start == from + 1 {
      if point != parent {
        return CacheRefused;
      }
    } else {
      if cached[start - from - 2] != parent {
        return CacheRefused;
      }
    }
    var end := start + |hashes| - 1;
    if end > to {
      var index := |hashes| - (end - to) - 1;
      if next != hashes[index] {
        return CacheRefused;
      }
    }
    var offset := start - (from + 1);
    var same := CompareInCommon(cached[offset..], hashes);
    assert hashes[0..] == hashes;
    AlignedWindows(from + 1, cached, start, hashes, offset, 0);
    if !same {
      return CacheRefused;
    }
    var first := |cached[offset..]|;
    var size := if end > to then |hashes| - (end - to) else |hashes|;
    if first > size {
      return CachePanic;
    }
    AppendRest(from + 1, cached, start, hashes, first, size);
    return CacheAccepted(cached + hashes[first..size]);
  }

  /** The same happens to the cached window. */
  lemma CacheEndsEarlyExample(from: nat, to: nat, point: Hash, next: Hash, one: Hash, two: Hash)
    requires from + 2 <= to
    ensures && CacheAcceptable(from, to, point, next, [], from + 1, point, [one, two])
            && ContinuesWith(from + 1, [], from + 1, [one, two], from + 2, [one, two])
            && CacheAcceptable(from, to, point, next, [one, two], from + 1, point, [one])
            && from + 1 + |[one]| < from + |[one, two]| + 1
  {
  }
}
