/**
 The greedy search for the longest prefix that a quorum of peers agrees on. It serves both the
 finalisation of check points and the latest block filter hashes.
 */
module Quorum {
  import opened Arithmetic

  type PeerIndex = nat

  type Lists<H> = map<PeerIndex, seq<H>>

  ghost predicate Holds<H>(list: seq<H>, prefix: seq<H>) {
    prefix <= list
  }

  /** The peers whose list starts with `prefix`. */
  ghost function Holders<H>(lists: Lists<H>, prefix: seq<H>): set<PeerIndex> {
    set p | p in lists && Holds(lists[p], prefix)
  }

  function Voters<H(==)>(lists: Lists<H>, index: nat, value: H): set<PeerIndex> {
    set p | p in lists && index < |lists[p]| && lists[p][index] == value
  }

  function ShorterThan<H>(lists: Lists<H>, length: nat): set<PeerIndex> {
    set p | p in lists && |lists[p]| < length
  }

  /** `length` is the quorum-th smallest length of the lists. */
  ghost predicate IsQuorumLength<H>(lists: Lists<H>, quorum: nat, length: nat) {
    |ShorterThan(lists, length)| < quorum <= |ShorterThan(lists, length + 1)|
  }

  /** All lists are known to agree on their first `from` entries. */
  ghost predicate AgreeUpTo<H>(lists: Lists<H>, from: seq<H>) {
    forall p :: p in lists ==> Holds(lists[p], from)
  }

  /**
   What the greedy loop ends with: a prefix that a quorum holds in full and that it could not extend,
   because it has the quorum-th smallest length or no next value has a quorum among its holders.
   */
  ghost predicate GreedyOutcome<H(!new)>(lists: Lists<H>, quorum: nat, from: seq<H>, prefix: seq<H>) {
    && from <= prefix
    && |Holders(lists, prefix)| >= quorum
    && exists bound: nat :: IsQuorumLength(lists, quorum, bound) && StopsAt(lists, quorum, from, prefix, bound)
  }

  ghost predicate StopsAt<H(!new)>(lists: Lists<H>, quorum: nat, from: seq<H>, prefix: seq<H>, bound: nat) {
    && |prefix| <= Max(|from|, bound)
    && (|prefix| >= bound || forall v :: |Holders(lists, prefix + [v])| < quorum)
  }

  // The loops

  method QuorumLength<H>(lists: Lists<H>, quorum: nat) returns (length: nat)
    requires 0 < quorum <= |lists|
    ensures IsQuorumLength(lists, quorum, length)
  {
    var order: seq<PeerIndex> := [];
    var rest := lists.Keys;
    while rest != {}
      invariant rest <= lists.Keys
      invariant forall i :: 0 <= i < |order| ==> order[i] in lists && order[i] !in rest
      invariant forall i, j :: 0 <= i < j < |order| ==> order[i] != order[j] && |lists[order[i]]| <= |lists[order[j]]|
      invariant |order| + |rest| == |lists.Keys|
      decreases rest
    {
      var p :| p in rest;
      rest := rest - {p};
      order := Insert(lists, order, p);
    }
    length := |lists[order[quorum - 1]]|;
    AtMost(order, quorum - 1, ShorterThan(lists, length), lists);
    AtLeast(order, quorum, ShorterThan(lists, length + 1));
  }

  /** Insertion into a sequence of peers that is sorted by the lengths of their lists. */
  method Insert<H>(lists: Lists<H>, order: seq<PeerIndex>, p: PeerIndex) returns (r: seq<PeerIndex>)
    requires p in lists && p !in order
    requires forall i :: 0 <= i < |order| ==> order[i] in lists
    requires forall i, j :: 0 <= i < j < |order| ==> order[i] != order[j] && |lists[order[i]]| <= |lists[order[j]]|
    ensures |r| == |order| + 1
    ensures forall i :: 0 <= i < |r| ==> r[i] in lists && (r[i] == p || r[i] in order)
    ensures forall i, j :: 0 <= i < j < |r| ==> r[i] != r[j] && |lists[r[i]]| <= |lists[r[j]]|
  {
    var k := 0;
    while k < |order| && |lists[order[k]]| < |lists[p]|
      invariant k <= |order|
      invariant forall i :: 0 <= i < k ==> |lists[order[i]]| < |lists[p]|
    {
      k := k + 1;
    }
    r := order[..k] + [p] + order[k..];
  }

  lemma {:induction false} AtLeast(order: seq<PeerIndex>, k: nat, s: set<PeerIndex>)
    requires k <= |order|
    requires forall i, j :: 0 <= i < j < |order| ==> order[i] != order[j]
    requires forall i :: 0 <= i < k ==> order[i] in s
    ensures |s| >= k
  {
    if k > 0 {
      AtLeast(order, k - 1, s - {order[k - 1]});
    }
  }

  lemma AtMost<H>(order: seq<PeerIndex>, k: nat, s: set<PeerIndex>, lists: Lists<H>)
    requires k < |order| == |lists.Keys|
    requires forall i :: 0 <= i < |order| ==> order[i] in lists
    requires forall i, j :: 0 <= i < j < |order| ==> order[i] != order[j]
    requires forall i :: k <= i < |order| ==> order[i] !in s
    requires s <= lists.Keys
    ensures |s| <= k
  {
    var others := lists.Keys - s;
    var tail := order[k..];
    AtLeast(tail, |tail|, others);
    assert lists.Keys == s + others;
  }

  function VotesFor<H(==)>(votes: map<H, nat>, v: H): nat {
    if v in votes then votes[v] else 0
  }

  /** `votes` says how often each value occurs at `index`. */
  ghost predicate Counted<H(!new)>(lists: Lists<H>, index: nat, votes: map<H, nat>) {
    forall v :: |Voters(lists, index, v)| == VotesFor(votes, v)
  }

  lemma VotersInsert<H>(seen: Lists<H>, p: PeerIndex, list: seq<H>, index: nat, v: H)
    requires p !in seen
    ensures Voters(seen[p := list], index, v)
         == Voters(seen, index, v) + if index < |list| && list[index] == v then {p} else {}
  {
  }

  lemma CountOne<H(!new)>(seen: Lists<H>, p: PeerIndex, list: seq<H>, index: nat, votes: map<H, nat>)
    requires p !in seen && index < |list| && Counted(seen, index, votes)
    ensures Counted(seen[p := list], index, votes[list[index] := VotesFor(votes, list[index]) + 1])
  {
    var votes' := votes[list[index] := VotesFor(votes, list[index]) + 1];
    forall v ensures |Voters(seen[p := list], index, v)| == VotesFor(votes', v) {
      VotersInsert(seen, p, list, index, v);
      assert |Voters(seen, index, v)| == VotesFor(votes, v);
      assert p !in Voters(seen, index, v);
    }
  }

  lemma CountNone<H(!new)>(seen: Lists<H>, p: PeerIndex, list: seq<H>, index: nat, votes: map<H, nat>)
    requires p !in seen && index >= |list| && Counted(seen, index, votes)
    ensures Counted(seen[p := list], index, votes)
  {
    forall v ensures |Voters(seen[p := list], index, v)| == VotesFor(votes, v) {
      VotersInsert(seen, p, list, index, v);
      assert |Voters(seen, index, v)| == VotesFor(votes, v);
    }
  }

  lemma NothingCounted<H(!new)>(index: nat)
    ensures Counted<H>(map[], index, map[])
  {
    forall v: H ensures |Voters<H>(map[], index, v)| == 0 {
      assert Voters<H>(map[], index, v) == {};
    }
  }

  method CountVotes<H(==, !new)>(lists: Lists<H>, index: nat) returns (votes: map<H, nat>)
    ensures Counted(lists, index, votes)
    ensures forall v :: v in votes ==> votes[v] > 0
  {
    hide Counted;
    votes := map[];
    var seen: Lists<H> := map[];
    var rest := lists.Keys;
    NothingCounted<H>(index);
    while rest != {}
      invariant rest <= lists.Keys && seen.Keys == lists.Keys - rest
      invariant forall p :: p in seen ==> seen[p] == lists[p]
      invariant Counted(seen, index, votes)
      invariant forall v :: v in votes ==> votes[v] > 0
      decreases rest
    {
      var p :| p in rest;
      rest := rest - {p};
      ghost var before := seen;
      seen := seen[p := lists[p]];
      if index < |lists[p]| {
        CountOne(before, p, lists[p], index, votes);
        var v := lists[p][index];
        votes := votes[v := VotesFor(votes, v) + 1];
      } else {
        CountNone(before, p, lists[p], index, votes);
      }
    }
    assert seen == lists;
  }

  /** A value with the most votes; which one, in a tie, depends on the iteration order of the map. */
  method Winner<H(==)>(votes: map<H, nat>) returns (v: H)
    requires votes != map[]
    ensures v in votes && forall w :: w in votes ==> votes[w] <= votes[v]
  {
    v :| v in votes;
    var rest := votes.Keys;
    while rest != {}
      invariant rest <= votes.Keys && v in votes
      invariant forall w :: w in votes && w !in rest ==> votes[w] <= votes[v]
      decreases rest
    {
      var w :| w in rest;
      rest := rest - {w};
      if votes[w] > votes[v] {
        v := w;
      }
    }
  }

  lemma ExtendedHolders<H>(lists: Lists<H>, prefix: seq<H>, kept: Lists<H>, v: H)
    requires kept.Keys == Holders(lists, prefix) && forall p :: p in kept ==> kept[p] == lists[p]
    ensures Holders(lists, prefix + [v]) == Voters(kept, |prefix|, v)
  {
    forall p | p in Holders(lists, prefix + [v]) ensures p in Voters(kept, |prefix|, v) {
      assert lists[p][..|prefix|] == (prefix + [v])[..|prefix|] == prefix;
    }
    forall p | p in Voters(kept, |prefix|, v) ensures p in Holders(lists, prefix + [v]) {
      assert lists[p][..|prefix| + 1] == prefix + [v];
    }
  }

  method GreedyPrefix<H(==, !new)>(lists: Lists<H>, quorum: nat, from: seq<H>) returns (prefix: seq<H>, kept: Lists<H>)
    requires 0 < quorum <= |lists| && AgreeUpTo(lists, from)
    ensures GreedyOutcome(lists, quorum, from, prefix)
    ensures kept.Keys == Holders(lists, prefix) && forall p :: p in kept ==> kept[p] == lists[p]
  {
    var bound := QuorumLength(lists, quorum);
    prefix, kept := from, lists;
    assert Holders(lists, from) == lists.Keys;
    var index := |from|;
    while index < bound
      invariant index == |prefix| <= Max(|from|, bound) && from <= prefix
      invariant kept.Keys == Holders(lists, prefix) && |kept| >= quorum
      invariant forall p :: p in kept ==> kept[p] == lists[p]
    {
      var votes := CountVotes(kept, index);
      if votes == map[] {
        forall v ensures |Holders(lists, prefix + [v])| < quorum {
          ExtendedHolders(lists, prefix, kept, v);
        }
        break;
      }
      var winner := Winner(votes);
      if votes[winner] < quorum {
        forall v ensures |Holders(lists, prefix + [v])| < quorum {
          ExtendedHolders(lists, prefix, kept, v);
        }
        break;
      }
      ExtendedHolders(lists, prefix, kept, winner);
      if votes[winner] != |kept| {
        kept := map p | p in kept && index < |kept[p]| && kept[p][index] == winner :: kept[p];
      } else {
        SubsetOfSameSize(Voters(kept, index, winner), kept.Keys);
      }
      prefix := prefix + [winner];
      index := index + 1;
    }
    assert StopsAt(lists, quorum, from, prefix, bound);
  }

  lemma {:induction false} SubsetSize(a: set<PeerIndex>, b: set<PeerIndex>)
    requires a <= b
    ensures |a| <= |b|
  {
    assert b == a + (b - a);
  }

  lemma SubsetOfSameSize(a: set<PeerIndex>, b: set<PeerIndex>)
    requires a <= b && |a| == |b|
    ensures a == b
  {
    assert b == a + (b - a);
  }

  // What the outcome means

  /** `w` is held in full by at least `quorum` peers. */
  ghost predicate Shared<H>(lists: Lists<H>, quorum: nat, w: seq<H>) {
    |Holders(lists, w)| >= quorum
  }

  lemma QuorumsMeet(a: set<PeerIndex>, b: set<PeerIndex>, all: set<PeerIndex>, quorum: nat) returns (p: PeerIndex)
    requires a <= all && b <= all && |a| >= quorum && |b| >= quorum && |all| < 2 * quorum
    ensures p in a && p in b
  {
    SubsetSize(a + b, all);
    assert |a + b| + |a * b| == |a| + |b|;
    p :| p in a * b;
  }

  /** With fewer than two quorums of peers the outcome extends every prefix that some quorum shares. */
  lemma GreedyIsLongest<H(!new)>(lists: Lists<H>, quorum: nat, from: seq<H>, prefix: seq<H>, w: seq<H>)
    requires 0 < quorum && |lists| < 2 * quorum
    requires AgreeUpTo(lists, from) && GreedyOutcome(lists, quorum, from, prefix) && Shared(lists, quorum, w)
    ensures w <= prefix
  {
    var p := QuorumsMeet(Holders(lists, prefix), Holders(lists, w), lists.Keys, quorum);
    assert prefix <= lists[p] && w <= lists[p];
    if |w| > |prefix| {
      assert prefix + [w[|prefix|]] == w[..|prefix| + 1];
      assert Holders(lists, w) <= Holders(lists, prefix + [w[|prefix|]]) by {
        forall q | q in Holders(lists, w) ensures Holds(lists[q], w[..|prefix| + 1]) {
        }
      }
      SubsetSize(Holders(lists, w), Holders(lists, prefix + [w[|prefix|]]));
      var bound: nat :| IsQuorumLength(lists, quorum, bound) && StopsAt(lists, quorum, from, prefix, bound);
      assert bound < |w|;
      var q := QuorumsMeet(ShorterThan(lists, bound + 1), Holders(lists, w), lists.Keys, quorum);
      assert false;
    } else {
      assert w == lists[p][..|w|] == prefix[..|w|];
    }
  }

  /** With fewer than two quorums of peers the outcome does not depend on any iteration order. */
  lemma GreedyIsDeterministic<H(!new)>(lists: Lists<H>, quorum: nat, from: seq<H>, one: seq<H>, other: seq<H>)
    requires 0 < quorum && |lists| < 2 * quorum && AgreeUpTo(lists, from)
    requires GreedyOutcome(lists, quorum, from, one) && GreedyOutcome(lists, quorum, from, other)
    ensures one == other
  {
    GreedyIsLongest(lists, quorum, from, one, other);
    GreedyIsLongest(lists, quorum, from, other, one);
  }

  /** The outcome is exact on all families of `n` lists. */
  ghost predicate AlwaysExact(n: nat, quorum: nat) {
    forall lists: Lists<nat>, from: seq<nat>, prefix: seq<nat>, w: seq<nat> ::
      |lists| == n && AgreeUpTo(lists, from) && GreedyOutcome(lists, quorum, from, prefix) && Shared(lists, quorum, w)
      ==> w <= prefix
  }

  /** `quorum` peers that know one entry, and all others that know two. */
  function Lagging(n: nat, quorum: nat): (l: Lists<nat>)
    ensures |l| == n
  {
    assert (map p: nat | p in Range(0, n) :: 0).Keys == Range(0, n);
    map p: nat | p in Range(0, n) :: if p < quorum then LAGGARD else LEADER
  }

  function Range(lo: nat, hi: nat): (s: set<nat>)
    requires lo <= hi
    ensures |s| == hi - lo
    ensures forall p: nat :: p in s <==> lo <= p < hi
    decreases hi
  {
    if lo == hi then {} else Range(lo, hi - 1) + {hi - 1}
  }

  const LAGGARD: seq<nat> := [7]
  const LEADER: seq<nat> := [7, 8]

  lemma LaggingHolders(n: nat, quorum: nat)
    requires quorum <= n
    ensures Holders(Lagging(n, quorum), LAGGARD) == Range(0, n)
    ensures Holders(Lagging(n, quorum), LEADER) == Range(quorum, n)
  {
    var lists := Lagging(n, quorum);
    assert LAGGARD <= LEADER && !(LEADER <= LAGGARD);
    forall p: nat | p in Range(0, n) ensures Holds(lists[p], LAGGARD) && (Holds(lists[p], LEADER) <==> quorum <= p) {
      assert lists[p] == if p < quorum then LAGGARD else LEADER;
    }
  }

  lemma LaggingLengths(n: nat, quorum: nat)
    requires 0 < quorum <= n
    ensures IsQuorumLength(Lagging(n, quorum), quorum, 1)
  {
    var lists := Lagging(n, quorum);
    forall p: nat | p in Range(0, n) ensures |lists[p]| == if p < quorum then 1 else 2 {
    }
    assert ShorterThan(lists, 1) == {};
    assert ShorterThan(lists, 2) == Range(0, quorum);
  }

  lemma LaggingIsNotExact(n: nat, quorum: nat)
    requires 0 < quorum && 2 * quorum <= n
    ensures var lists := Lagging(n, quorum);
            AgreeUpTo(lists, LAGGARD) && GreedyOutcome(lists, quorum, LAGGARD, LAGGARD) && Shared(lists, quorum, LEADER)
  {
    var lists := Lagging(n, quorum);
    LaggingHolders(n, quorum);
    LaggingLengths(n, quorum);
    forall p | p in lists ensures Holds(lists[p], LAGGARD) {
      assert p in Holders(lists, LAGGARD);
    }
    assert StopsAt(lists, quorum, LAGGARD, LAGGARD, 1);
  }

  /** Exact for every family of `n` lists if and only if `n` is below two quorums. */
  lemma ExactBelowTwoQuorums(n: nat, quorum: nat)
    requires 0 < quorum <= n
    ensures AlwaysExact(n, quorum) <==> n < 2 * quorum
  {
    if n < 2 * quorum {
      forall lists: Lists<nat>, from: seq<nat>, prefix: seq<nat>, w: seq<nat>
        | |lists| == n && AgreeUpTo(lists, from) && GreedyOutcome(lists, quorum, from, prefix)
            && Shared(lists, quorum, w)
        ensures w <= prefix
      {
        GreedyIsLongest(lists, quorum, from, prefix, w);
      }
    } else {
      LaggingIsNotExact(n, quorum);
      assert !(LEADER <= LAGGARD);
    }
  }
}
