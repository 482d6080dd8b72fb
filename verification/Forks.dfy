/** Where a proved chain forks from the stored one, and what committing the fork leaves of the stored progress. */
module Forks {
  import opened Options
  import opened Keys
  import opened LightHeaders
  import opened MatchedBlocks
  import opened Chain
  import opened Index
  import opened Rollback
  import opened RollbackScan
  import opened RollbackProofs

  ghost predicate HashesIdentify(a: seq<Header>, b: seq<Header>) {
    forall i, j :: 0 <= i < |a| && 0 <= j < |b| && a[i].hash == b[j].hash ==> a[i] == b[j]
  }

  /** Both lists hold the same block at number `n`. */
  ghost predicate Common(a: seq<Header>, b: seq<Header>, n: nat) {
    exists i, j :: 0 <= i < |a| && 0 <= j < |b| && a[i].number == n == b[j].number && a[i].hash == b[j].hash
  }

  /** Both lists have a block at number `n`. */
  ghost predicate Overlap(a: seq<Header>, b: seq<Header>, n: nat) {
    exists i, j :: 0 <= i < |a| && 0 <= j < |b| && a[i].number == n == b[j].number
  }

  /** Below a common block the linked lists agree. */
  lemma {:induction false} AgreeBelow(c: Rules, a: seq<Header>, b: seq<Header>, i: nat, j: nat, d: nat)
    requires Linked(c, a) && Linked(c, b) && HashesIdentify(a, b)
    requires i < |a| && j < |b| && d <= i && d <= j && a[i].hash == b[j].hash
    ensures a[i - d].hash == b[j - d].hash
  {
    if d > 0 {
      AgreeBelow(c, a, b, i, j, d - 1);
      assert a[i - d + 1] == b[j - d + 1];
      assert IsParentOf(c, a[i - d], a[i - d + 1]) && IsParentOf(c, b[j - d], b[j - d + 1]);
    }
  }

  lemma {:induction false} LookUpLinked(c: Rules, hs: seq<Header>, n: nat)
    requires Linked(c, hs)
    ensures forall j :: 0 <= j < |hs| && hs[j].number == n ==> LookUp(Numbered(hs), n) == Some(hs[j].hash)
    ensures LookUp(Numbered(hs), n).Some? ==> exists j ::
              0 <= j < |hs| && hs[j].number == n && LookUp(Numbered(hs), n) == Some(hs[j].hash)
  {
    if hs != [] {
      var init := hs[..|hs| - 1];
      LookUpLinked(c, init, n);
      assert Numbered(hs)[..|hs| - 1] == Numbered(init);
      forall j | 0 <= j < |hs| && hs[j].number == n ensures LookUp(Numbered(hs), n) == Some(hs[j].hash) {
        NumbersFollow(c, hs, j, |hs| - 1);
        if j < |hs| - 1 {
          assert init[j].number == n;
        }
      }
      if LookUp(Numbered(hs), n).Some? && hs[|hs| - 1].number != n {
        var j :| 0 <= j < |init| && init[j].number == n && LookUp(Numbered(init), n) == Some(init[j].hash);
        assert hs[j].number == n;
      }
    }
  }

  /** A prefix of the reorg headers yields the highest common number within that prefix. */
  lemma {:induction false} ForkInPrefix(c: Rules, a: seq<Header>, b: seq<Header>, len: nat)
    requires Linked(c, a) && Linked(c, b) && len <= |a|
    ensures var f := ForkNumber(Numbered(a)[..len], Numbered(b));
            && (f.Some? ==> Common(a, b, f.value))
            && (forall i, j :: 0 <= i < len && 0 <= j < |b| && a[i].number == b[j].number && a[i].hash == b[j].hash ==>
                  f.Some? && a[i].number <= f.value)
  {
    if len > 0 {
      ForkInPrefix(c, a, b, len - 1);
      var ps := Numbered(a)[..len];
      assert ps[..len - 1] == Numbered(a)[..len - 1];
      var h := a[len - 1];
      LookUpLinked(c, b, h.number);
      forall i | 0 <= i < len ensures a[i].number <= h.number {
        NumbersFollow(c, a, i, len - 1);
      }
      if LookUp(Numbered(b), h.number) == Some(h.hash) {
        var j :| 0 <= j < |b| && b[j].number == h.number && LookUp(Numbered(b), h.number) == Some(b[j].hash);
        assert Common(a, b, h.number);
      }
    }
  }

  /** A block that both lists hold below a common one is common, too. */
  lemma OverlapIsCommon(c: Rules, a: seq<Header>, b: seq<Header>, i: nat, j: nat, x: nat, y: nat)
    requires Linked(c, a) && Linked(c, b) && HashesIdentify(a, b)
    requires i < |a| && j < |b| && a[i].number == b[j].number && a[i].hash == b[j].hash
    requires x < |a| && y < |b| && a[x].number == b[y].number <= a[i].number
    ensures a[x].hash == b[y].hash
  {
    hide Linked, HashesIdentify;
    if x <= i {
      NumbersFollow(c, a, x, i);
    } else {
      NumbersFollow(c, a, i, x);
    }
    if y <= j {
      NumbersFollow(c, b, y, j);
    } else {
      NumbersFollow(c, b, j, y);
    }
    assert i - x == j - y == a[i].number - a[x].number;
    AgreeBelow(c, a, b, i, j, i - x);
  }

  /**
   The chosen fork number is the highest common block, all lower overlapping numbers agree, and no number
   is chosen only if the lists have no block in common.
   */
  lemma ForkIsExact(c: Rules, reorg: seq<Header>, stored: seq<Header>)
    requires Linked(c, reorg) && Linked(c, stored) && HashesIdentify(reorg, stored)
    ensures var f := ForkNumber(Numbered(reorg), Numbered(stored));
            && (f.None? <==> forall n: nat :: !Common(reorg, stored, n))
            && (f.Some? ==> Common(reorg, stored, f.value))
            && (f.Some? ==> forall n: nat :: n > f.value ==> !Common(reorg, stored, n))
            && (f.Some? ==> forall n: nat :: n <= f.value && Overlap(reorg, stored, n) ==> Common(reorg, stored, n))
  {
    hide Linked, HashesIdentify, ForkNumber, Numbered;
    var f := ForkNumber(Numbered(reorg), Numbered(stored));
    assert Numbered(reorg)[..|reorg|] == Numbered(reorg);
    ForkInPrefix(c, reorg, stored, |reorg|);
    if f.Some? {
      var i, j :| 0 <= i < |reorg| && 0 <= j < |stored| && reorg[i].number == f.value == stored[j].number
                  && reorg[i].hash == stored[j].hash;
      forall n: nat | n <= f.value && Overlap(reorg, stored, n) ensures Common(reorg, stored, n) {
        var x, y :| 0 <= x < |reorg| && 0 <= y < |stored| && reorg[x].number == n == stored[y].number;
        OverlapIsCommon(c, reorg, stored, i, j, x, y);
      }
    }
  }

  // The index after a fork

  /** Where committing a tip rolls the index back to, if it does. */
  function RollsBackTo(s: State, newTip: Tip, reorg: seq<(nat, Hash)>): Option<nat> {
    if newTip.total <= s.tip.total then None
    else if reorg == [] then if s.tip.number == 1 then Some(1) else None
    else
      match ForkNumber(reorg, s.lastHeaders)
      case None => None
      case Some(fork) => Some(RollbackPoint(s.batches, fork))
  }

  /** What committing a tip does to script numbers and to the filtered number is what the rollback does to them. */
  lemma CommitRollsBack(s: State, newTip: Tip, reorg: seq<(nat, Hash)>, lastN: seq<(nat, Hash)>)
    requires Inv(s)
    ensures var (s', to) := (Next(s, Commit(newTip, reorg, lastN)), RollsBackTo(s, newTip, reorg));
            && s'.scripts == (if to.Some? then ScriptsAfter(s.scripts, to.value) else s.scripts)
            && s'.minFiltered == (if to.Some? then MinFilteredAfter(s.minFiltered, to.value) else s.minFiltered)
  {
  }

  /**
   Committing a fork leaves in the index exactly the tables of the blocks below the point of the rollback,
   which lies at most one above the fork, and filtering goes on from no later than there.
   */
  lemma ForkLeavesKeptIndex(s: State, newTip: Tip, reorg: seq<(nat, Hash)>, lastN: seq<(nat, Hash)>,
                            db: Db, kept: Log, removed: Log, to: nat, db': Db)
    requires Inv(s) && reorg != [] && RollsBackTo(s, newTip, reorg) == Some(to)
    requires Indexed(db, kept + removed, s.scripts.Keys) && ValidLog(kept + removed) && CutsAt(kept, removed, to)
    requires NoDoubleSpend(kept + removed) && WellFormed(db.Keys, ScriptsOf(s.scripts.Keys))
    requires forall w :: w in s.scripts ==> IsRestored(kept, removed, s.scripts, to, w)
    requires forall k: Key :: Get(db', k) == RolledBackKey(db, s.scripts, to, k)
    ensures var s' := Next(s, Commit(newTip, reorg, lastN));
            && Indexed(db', kept, s'.scripts.Keys)
            && s'.minFiltered < to <= ForkNumber(reorg, s.lastHeaders).value + 1
            && forall w :: w in s'.scripts ==> s'.scripts[w] <= to
  {
    hide ValidLog, CutsAt, NoDoubleSpend, WellFormed, RolledBackKey, IsRestored, TablesMatch, StoredRight, Inv;
    CommitRollsBack(s, newTip, reorg, lastN);
    RollbackUndoesFiltering(db, kept, removed, s.scripts, to, db');
    RollbackKeepsStored(db, kept, removed, s.scripts, to, db');
  }

  /** Commits a tip to the stored progress and rolls the index back with it; both keep the same numbers. */
  method CommitToStorage(client: Client, storage: Storage, newTip: Tip, reorg: seq<(nat, Hash)>,
                         lastN: seq<(nat, Hash)>)
    returns (ok: bool)
    requires Inv(client.Snapshot())
    requires storage.scripts == client.scripts && storage.minFiltered == client.minFiltered
    requires var to := RollsBackTo(client.Snapshot(), newTip, reorg);
             to.Some? ==> forall w :: w in storage.scripts && storage.scripts[w] >= to.value ==>
                 AllReadable(storage.db, w, to.value)
    modifies client, storage
    ensures client.Snapshot() == Next(old(client.Snapshot()), Commit(newTip, reorg, lastN)) && Inv(client.Snapshot())
    ensures storage.scripts == client.scripts && storage.minFiltered == client.minFiltered
    ensures var to := RollsBackTo(old(client.Snapshot()), newTip, reorg);
            if to.None? then storage.db == old(storage.db)
            else forall k: Key ::
                   Get(storage.db, k) == RolledBackKey(old(storage.db), old(storage.scripts), to.value, k)
  {
    hide Inv, AllReadable, RolledBackKey, ForkNumber, Next;
    CommitRollsBack(client.Snapshot(), newTip, reorg, lastN);
    var to := RollsBackTo(client.Snapshot(), newTip, reorg);
    ok := client.CommitTip(newTip, reorg, lastN);
    if to.Some? {
      storage.RollbackToBlock(to.value);
    }
  }
}
