/**
 Proofs and downloads of matched blocks: which hashes are asked for next, and how they are handed out to
 the best peers that have no request of that kind outstanding.
 */
module Scheduling {
  import opened Options
  import opened Keys
  import opened Quorum
  import opened MatchedBlocks

  const GET_BLOCKS_PROOF_LIMIT: nat := 1000

  type Requests = map<PeerIndex, set<Hash>>

  /** The hashes of each download, with whether the block has arrived. */
  type Downloads = map<PeerIndex, map<Hash, bool>>

  /** Everything that some request asks for. */
  function Requested(requests: Requests): set<Hash> {
    set p, h | p in requests && h in requests[p] :: h
  }

  /** Matched blocks that still have to be proved. */
  function Unproved(matched: map<Hash, Entry>): set<Hash> {
    set h | h in matched && !matched[h].proved
  }

  /** Matched blocks that are proved and still have to be downloaded. */
  function Undownloaded(matched: map<Hash, Entry>): set<Hash> {
    set h | h in matched && matched[h].proved && matched[h].block.None?
  }

  /** A matched block is to be proved, to be downloaded, or there; all are there if nothing is left to ask for. */
  lemma WorkIsLeft(matched: map<Hash, Entry>)
    requires forall h :: h in matched && matched[h].block.Some? ==> matched[h].proved
    ensures Unproved(matched) !! Undownloaded(matched)
    ensures forall h :: h in matched ==> (h in Unproved(matched) + Undownloaded(matched) <==> matched[h].block.None?)
    ensures AllDownloaded(matched) <==> Unproved(matched) + Undownloaded(matched) == {}
  {
    if AllDownloaded(matched) {
      assert forall h :: h !in Unproved(matched) + Undownloaded(matched);
    }
  }

  /**
   The requests of one call: to idle best peers only, disjoint, not empty, within the limit, for wanted hashes
   that nobody was asked for.
   */
  ghost predicate WellIssued(issued: Requests, before: Requests, best: set<PeerIndex>, wanted: set<Hash>, limit: nat) {
    && issued.Keys <= best && issued.Keys !! before.Keys
    && (forall p :: p in issued ==>
          issued[p] != {} && |issued[p]| <= limit && issued[p] <= wanted && issued[p] !! Requested(before))
    && (forall p, q :: p in issued && q in issued && p != q ==> issued[p] !! issued[q])
  }

  /** Nothing is left to do: no best peer is idle, or everything wanted is asked for. */
  ghost predicate Exhausted(after: Requests, best: set<PeerIndex>, wanted: set<Hash>) {
    best <= after.Keys || wanted <= Requested(after)
  }

  /** At most `limit` hashes that are wanted and not yet asked for; fewer only if there are no more. */
  method Select(wanted: set<Hash>, requested: set<Hash>, limit: nat) returns (r: set<Hash>)
    ensures r <= wanted - requested && |r| <= limit
    ensures |r| < limit ==> r == wanted - requested
  {
    r := {};
    var rest := wanted;
    while rest != {} && |r| < limit
      invariant rest <= wanted && |r| <= limit
      invariant r == (wanted - rest) - requested
      decreases rest
    {
      var h :| h in rest;
      rest := rest - {h};
      if h !in requested {
        assert h !in r;
        r := r + {h};
      }
    }
  }

  lemma IssueOne(issued: Requests, before: Requests, best: set<PeerIndex>, wanted: set<Hash>, limit: nat, p: PeerIndex,
                 hashes: set<Hash>)
    requires WellIssued(issued, before, best, wanted, limit)
    requires p in best && p !in before && p !in issued
    requires hashes != {} && |hashes| <= limit && hashes <= wanted - Requested(before + issued)
    ensures WellIssued(issued[p := hashes], before, best, wanted, limit)
    ensures (before + issued)[p := hashes] == before + issued[p := hashes]
  {
    hide Requested;
    RequestedUnion(before, issued);
    forall q | q in issued ensures issued[q] !! hashes {
      RequestedHas(issued, q);
    }
  }

  lemma RequestedHas(requests: Requests, p: PeerIndex)
    requires p in requests
    ensures requests[p] <= Requested(requests)
  {
  }

  lemma NothingLeft<T>(a: set<T>, b: set<T>)
    requires a - b == {}
    ensures a <= b
  {
    forall x | x in a ensures x in b {
      assert x !in b ==> x in a - b;
    }
  }

  lemma RequestedUnion(a: Requests, b: Requests)
    requires a.Keys !! b.Keys
    ensures Requested(a + b) == Requested(a) + Requested(b)
  {
    forall h | h in Requested(a) + Requested(b) ensures h in Requested(a + b) {
      if h in Requested(a) {
        var p :| p in a && h in a[p];
        assert (a + b)[p] == a[p];
      } else {
        var p :| p in b && h in b[p];
        assert (a + b)[p] == b[p];
      }
    }
  }

  /** The hashes of every outstanding download. */
  function HashesOfAll(downloads: Downloads): Requests {
    map p | p in downloads :: downloads[p].Keys
  }

  function NewDownload(hashes: set<Hash>): (r: map<Hash, bool>)
    ensures r.Keys == hashes
  {
    map h | h in hashes :: false
  }

  /** The new downloads, of which nothing has arrived, join those that were outstanding before. */
  ghost predicate Added(before: Downloads, issued: Requests, after: Downloads) {
    && after.Keys == before.Keys + issued.Keys
    && (forall p :: p in after ==> after[p] == if p in issued then NewDownload(issued[p]) else before[p])
  }

  lemma NothingAdded(downloads: Downloads)
    ensures Added(downloads, map[], downloads)
  {
  }

  lemma SameRequests(downloads: Downloads)
    ensures HashesOfAll(downloads).Keys == downloads.Keys
  {
  }

  lemma AddOne(before: Downloads, issued: Requests, after: Downloads, p: PeerIndex, hashes: set<Hash>)
    requires Added(before, issued, after) && p !in after
    ensures Added(before, issued[p := hashes], after[p := NewDownload(hashes)])
  {
    hide NewDownload;
  }

  lemma RequestOne(downloads: Downloads, p: PeerIndex, request: map<Hash, bool>)
    ensures HashesOfAll(downloads[p := request]) == HashesOfAll(downloads)[p := request.Keys]
  {
    var one, other := HashesOfAll(downloads[p := request]), HashesOfAll(downloads)[p := request.Keys];
    assert one.Keys == downloads.Keys + {p} == other.Keys;
  }

  class Scheduler {
    var peers: set<PeerIndex>
    var proofs: Requests
    var downloads: Downloads

    /** Asks the idle best peers for proofs of matched blocks, until none is idle or nothing is left to ask for. */
    method ProveMatched(best: set<PeerIndex>, matched: map<Hash, Entry>) returns (ghost issued: Requests)
      modifies this`proofs
      ensures proofs == old(proofs) + issued
      ensures WellIssued(issued, old(proofs), best * peers, Unproved(matched), GET_BLOCKS_PROOF_LIMIT)
      ensures Exhausted(proofs, best * peers, Unproved(matched))
    {
      hide WellIssued, Requested;
      issued := map[];
      NothingIssued(proofs, best * peers, Unproved(matched), GET_BLOCKS_PROOF_LIMIT);
      while true
        invariant proofs == old(proofs) + issued
        invariant WellIssued(issued, old(proofs), best * peers, Unproved(matched), GET_BLOCKS_PROOF_LIMIT)
        decreases best * peers - proofs.Keys
      {
        var idle := best * peers - proofs.Keys;
        if idle == {} {
          NothingLeft(best * peers, proofs.Keys);
          return;
        }
        var peer :| peer in idle;
        var hashes := Select(Unproved(matched), Requested(proofs), GET_BLOCKS_PROOF_LIMIT);
        if hashes == {} {
          NothingLeft(Unproved(matched), Requested(proofs));
          return;
        }
        IssueOne(issued, old(proofs), best * peers, Unproved(matched), GET_BLOCKS_PROOF_LIMIT, peer, hashes);
        proofs := proofs[peer := hashes];
        issued := issued[peer := hashes];
      }
    }

    /** Asks the idle best peers for proved matched blocks, until none is idle or nothing is left to ask for. */
    method DownloadMatched(best: set<PeerIndex>, matched: map<Hash, Entry>, limit: nat) returns (ghost issued: Requests)
      modifies this`downloads
      ensures Added(old(downloads), issued, downloads)
      ensures WellIssued(issued, HashesOfAll(old(downloads)), best * peers, Undownloaded(matched), limit)
      ensures limit > 0 ==> Exhausted(HashesOfAll(downloads), best * peers, Undownloaded(matched))
    {
      hide WellIssued, Requested, HashesOfAll, Added;
      ghost var before := HashesOfAll(downloads);
      issued := map[];
      NothingIssued(before, best * peers, Undownloaded(matched), limit);
      NothingAdded(downloads);
      while true
        invariant Added(old(downloads), issued, downloads)
        invariant HashesOfAll(downloads) == before + issued
        invariant WellIssued(issued, before, best * peers, Undownloaded(matched), limit)
        decreases best * peers - downloads.Keys
      {
        SameRequests(downloads);
        var idle := best * peers - downloads.Keys;
        if idle == {} {
          NothingLeft(best * peers, downloads.Keys);
          return;
        }
        var peer :| peer in idle;
        var hashes := Select(Undownloaded(matched), Requested(HashesOfAll(downloads)), limit);
        if hashes == {} {
          if limit > 0 {
            NothingLeft(Undownloaded(matched), Requested(HashesOfAll(downloads)));
          }
          return;
        }
        IssueOne(issued, before, best * peers, Undownloaded(matched), limit, peer, hashes);
        AddOne(old(downloads), issued, downloads, peer, hashes);
        RequestOne(downloads, peer, NewDownload(hashes));
        downloads := downloads[peer := NewDownload(hashes)];
        issued := issued[peer := hashes];
      }
    }

    /** Proofs first, then downloads. */
    method ProveOrDownload(best: set<PeerIndex>, matched: map<Hash, Entry>, limit: nat)
      returns (ghost proofsIssued: Requests, ghost downloadsIssued: Requests)
      modifies this`proofs, this`downloads
      ensures proofs == old(proofs) + proofsIssued && Added(old(downloads), downloadsIssued, downloads)
      ensures WellIssued(proofsIssued, old(proofs), best * peers, Unproved(matched), GET_BLOCKS_PROOF_LIMIT)
      ensures WellIssued(downloadsIssued, HashesOfAll(old(downloads)), best * peers, Undownloaded(matched), limit)
      ensures Exhausted(proofs, best * peers, Unproved(matched))
      ensures limit > 0 ==> Exhausted(HashesOfAll(downloads), best * peers, Undownloaded(matched))
    {
      hide *;
      proofsIssued := ProveMatched(best, matched);
      downloadsIssued := DownloadMatched(best, matched, limit);
    }

    /** A block has arrived: every request takes note, and one that has got all its blocks is done. */
    method ReceiveBlock(hash: Hash)
      modifies this`downloads
      ensures forall p :: p in downloads ==> p in old(downloads) && downloads[p] == Noted(old(downloads)[p], hash)
      ensures forall p :: p in old(downloads) ==> (p in downloads <==> IsOutstanding(old(downloads)[p], hash))
    {
      hide Noted, Finished, IsOutstanding;
      var rest := downloads.Keys;
      while rest != {}
        invariant rest <= old(downloads).Keys
        invariant forall p :: p in downloads ==> p in old(downloads)
        invariant forall p :: p in rest ==> p in downloads && downloads[p] == old(downloads)[p]
        invariant forall p :: p in downloads && p !in rest ==> downloads[p] == Noted(old(downloads)[p], hash)
        invariant forall p :: p in old(downloads) && p !in rest ==>
                  (p in downloads <==> IsOutstanding(old(downloads)[p], hash))
        decreases rest
      {
        var p :| p in rest;
        rest := rest - {p};
        var request := Noted(downloads[p], hash);
        NotedIsFinished(downloads[p], hash);
        if Finished(request) {
          downloads := downloads - {p};
        } else {
          downloads := downloads[p := request];
        }
      }
    }
  }

  /** The block counts as arrived, if it was asked for, and all others as before. */
  function Noted(request: map<Hash, bool>, hash: Hash): (r: map<Hash, bool>)
    ensures r.Keys == request.Keys
    ensures forall h :: h in r ==> (r[h] <==> request[h] || h == hash)
  {
    if hash in request then request[hash := true] else request
  }

  predicate Finished(request: map<Hash, bool>) {
    forall h :: h in request ==> request[h]
  }

  /** Some other block is still to come. */
  ghost predicate IsOutstanding(request: map<Hash, bool>, hash: Hash) {
    exists h :: h in request && h != hash && !request[h]
  }

  lemma NotedIsFinished(request: map<Hash, bool>, hash: Hash)
    ensures Finished(Noted(request, hash)) <==> !IsOutstanding(request, hash)
  {
    forall h | h in request && h != hash && !request[h] ensures !Finished(Noted(request, hash)) {
      assert !Noted(request, hash)[h];
    }
  }

  /** A request after some blocks have arrived. */
  function NotedAll(request: map<Hash, bool>, arrived: seq<Hash>): (r: map<Hash, bool>)
    ensures r.Keys == request.Keys
  {
    if arrived == [] then request else Noted(NotedAll(request, arrived[..|arrived| - 1]), arrived[|arrived| - 1])
  }

  /** A new download is over when all blocks that it asks for have arrived, in any order and between any others. */
  lemma {:induction false} DownloadEndsWithAll(hashes: set<Hash>, arrived: seq<Hash>)
    ensures var r := NotedAll(NewDownload(hashes), arrived);
            && r.Keys == hashes
            && (forall h :: h in hashes ==> (r[h] <==> h in arrived))
            && (Finished(r) <==> forall h :: h in hashes ==> h in arrived)
  {
    if arrived != [] {
      var init := arrived[..|arrived| - 1];
      DownloadEndsWithAll(hashes, init);
      assert arrived == init + [arrived[|arrived| - 1]];
    }
  }

  lemma NothingIssued(before: Requests, best: set<PeerIndex>, wanted: set<Hash>, limit: nat)
    ensures WellIssued(map[], before, best, wanted, limit) && before + map[] == before
  {
  }
}
