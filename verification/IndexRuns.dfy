/**
 Runs of the client together with its storage: drained batches are filtered, forks roll the index back, and
 registering scripts may filter the genesis block. The index follows the chain through all of it.
 */
module IndexRuns {
  import opened Options
  import opened Keys
  import opened MatchedBlocks
  import opened Chain
  import opened Index
  import opened FilterProofs
  import opened Refiltering
  import opened Rollback
  import opened RollbackScan
  import opened RollbackProofs
  import opened Forks

  datatype Joint = Joint(sync: State, db: Db)

  /** The genesis block, the number of each block by its hash, and all scripts that are ever registered. */
  datatype World = World(genesis: Block, numberOf: Hash -> nat, known: set<Script>)

  // The steps of both together

  /** Registering a script from block 0 on filters the genesis block at once. */
  predicate FiltersGenesis(command: Command, given: map<Watch, nat>) {
    !command.Delete? && 0 in given.Values
  }

  /** The step finds all that it reads in the storage. */
  ghost predicate IsReadableFrom(db: Db, scripts: map<Watch, nat>, to: nat) {
    forall w :: w in scripts && scripts[w] >= to ==> AllReadable(db, w, to)
  }

  ghost predicate IsRolledBack(db: Db, scripts: map<Watch, nat>, to: nat, db': Db) {
    forall k: Key :: Get(db', k) == RolledBackKey(db, scripts, to, k)
  }

  /** The state and the storage move together; `taken` are the blocks that a drain filters. */
  ghost predicate JointStep(genesis: Block, j: Joint, e: Event, taken: seq<Block>, j': Joint)
    requires Inv(j.sync)
  {
    && j'.sync == Next(j.sync, e)
    && match e
       case SendBlock(block) =>
         if Drains(j.sync, block)
         then TakenFrom(AddBlock(j.sync.matched, block), taken)
             && j'.db == FilteredAll(j.db, j.sync.scripts.Keys, taken)
         else taken == [] && j'.db == j.db
       case Commit(newTip, reorg, lastN) =>
         && taken == []
         && (match RollsBackTo(j.sync, newTip, reorg)
             case None => j'.db == j.db
             case Some(to) =>
               IsReadableFrom(j.db, j.sync.scripts, to) && IsRolledBack(j.db, j.sync.scripts, to, j'.db))
       case SetScripts(command, given) =>
         taken == [] && j'.db == if FiltersGenesis(command, given) then Filtered(j.db, j'.sync.scripts.Keys, genesis)
                                 else j.db
       case _ => taken == [] && j'.db == j.db
  }

  // No script's number lies below a block that is indexed for it

  ghost predicate Covered(db: Db, scripts: map<Watch, nat>) {
    forall k: Key :: k.History? && k in db && WatchOf(k) in scripts ==> k.block <= scripts[WatchOf(k)]
  }

  /** No batch names a block above those it covers, and downloads have the number of their hash. */
  ghost predicate InRange(numberOf: Hash -> nat, s: State) {
    && (forall n :: n in s.batches ==> BatchInRange(numberOf, n, s.batches[n]))
    && (forall h :: h in s.matched && s.matched[h].block.Some? ==> s.matched[h].block.value.number == numberOf(h))
  }

  ghost predicate BatchInRange(numberOf: Hash -> nat, start: nat, batch: Batch) {
    forall h :: h in HashesOf(batch.blocks) ==> numberOf(h) < start + batch.count
  }

  /** What peers send is in range: filters name blocks they cover, and a block has the number of its hash. */
  ghost predicate EventInRange(numberOf: Hash -> nat, s: State, e: Event) {
    match e
    case Filters(count, hits) => BatchInRange(numberOf, s.minFiltered + 1, Batch(count, hits))
    case SendBlock(block) => block.number == numberOf(block.hash)
    case _ => true
  }

  lemma ReloadInRange(numberOf: Hash -> nat, s: State)
    requires InRange(numberOf, s)
    ensures InRange(numberOf, Reload(s))
  {
  }

  lemma RangeKept(numberOf: Hash -> nat, s: State, e: Event)
    requires Inv(s) && InRange(numberOf, s) && EventInRange(numberOf, s, e)
    ensures InRange(numberOf, Next(s, e))
  {
    hide BatchInRange, HashesOf, Loaded;
    match e
    case Filters(count, hits) =>
      if hits != [] && count > 0 {
        ReloadInRange(numberOf, s.(batches := s.batches[s.minFiltered + 1 := Batch(count, hits)]));
      }
    case SendBlock(block) =>
      if Drains(s, block) {
        DrainKeepsInv(s);
        var start := MinOf(s.batches.Keys);
        ReloadInRange(numberOf, s.(batches := s.batches - {start}, matched := map[],
                                   scripts := RaiseScripts(s.scripts, start + s.batches[start].count - 1)));
      }
    case Commit(newTip, reorg, lastN) =>
    case Recover =>
      ReloadInRange(numberOf, s);
    case _ =>
  }

  /** Drained blocks lie in the range of the batch, which is where the drain raises the scripts to. */
  lemma DrainedInRange(numberOf: Hash -> nat, s: State, block: Block, taken: seq<Block>)
    requires Inv(s) && InRange(numberOf, s) && block.number == numberOf(block.hash)
    requires Drains(s, block) && TakenFrom(AddBlock(s.matched, block), taken)
    ensures s.batches != map[]
    ensures var start := MinOf(s.batches.Keys); forall b :: b in taken ==> b.number < start + s.batches[start].count
  {
    var m := AddBlock(s.matched, block);
    forall b | b in taken ensures b.number < MinOf(s.batches.Keys) + s.batches[MinOf(s.batches.Keys)].count {
      assert IsDownload(m, b);
      var h :| h in m && m[h].block == Some(b);
      assert b.number == numberOf(h);
    }
  }

  /** Filtering adds history only at the number of the block, and removes none. */
  lemma FilteredHistory(db: Db, watch: set<Watch>, block: Block, k: Key)
    requires k.History? && WatchOf(k) in watch
    ensures k in Filtered(db, watch, block) ==> k in db || k.block == block.number
    ensures k in db ==> k in Filtered(db, watch, block)
  {
    hide Filtered;
    FilteredIsApplied(db, watch, block);
    HistoryAfter(db, watch, block, |block.txs|, k);
    assert Get(Filtered(db, watch, block), k) == Get(Apply(db, BlockOps(db, watch, block, |block.txs|)), k);
  }

  lemma {:induction false} FilteredAllHistory(db: Db, watch: set<Watch>, blocks: seq<Block>, k: Key)
    requires k.History? && WatchOf(k) in watch && k in FilteredAll(db, watch, blocks)
    ensures k in db || exists b :: b in blocks && k.block == b.number
  {
    hide Filtered;
    if blocks != [] {
      var init := blocks[..|blocks| - 1];
      FilteredHistory(FilteredAll(db, watch, init), watch, blocks[|blocks| - 1], k);
      if k in FilteredAll(db, watch, init) {
        FilteredAllHistory(db, watch, init, k);
      }
    }
  }

  lemma DrainCovers(world: World, j: Joint, block: Block, taken: seq<Block>, j': Joint)
    requires Inv(j.sync) && InRange(world.numberOf, j.sync) && block.number == world.numberOf(block.hash)
    requires JointStep(world.genesis, j, SendBlock(block), taken, j') && Covered(j.db, j.sync.scripts)
    ensures Covered(j'.db, j'.sync.scripts)
  {
    hide HashesOf, Filtered, AfterDrain;
    if Drains(j.sync, block) {
      DrainRaises(j.sync);
      DrainedInRange(world.numberOf, j.sync, block, taken);
      forall k: Key | k.History? && k in j'.db && WatchOf(k) in j'.sync.scripts
        ensures k.block <= j'.sync.scripts[WatchOf(k)]
      {
        FilteredAllHistory(j.db, j.sync.scripts.Keys, taken, k);
      }
    }
  }

  /** Registering scripts keeps the numbers right exactly if none is given a number below its history. */
  lemma SetScriptsCovers(world: World, j: Joint, command: Command, given: map<Watch, nat>, j': Joint)
    requires Inv(j.sync) && world.genesis.number == 0
    requires JointStep(world.genesis, j, SetScripts(command, given), [], j') && Covered(j.db, j.sync.scripts)
    ensures Covered(j'.db, j'.sync.scripts) <==> command.Delete? || Covered(j.db, given)
  {
    hide Filtered;
    forall k: Key | k.History? && WatchOf(k) in j'.sync.scripts
      ensures k in j'.db ==> k in j.db || k.block == 0
      ensures k in j.db ==> k in j'.db
    {
      if FiltersGenesis(command, given) {
        FilteredHistory(j.db, j'.sync.scripts.Keys, world.genesis, k);
      }
    }
    forall k: Key | k.History? && WatchOf(k) in given && !command.Delete?
      ensures WatchOf(k) in j'.sync.scripts && j'.sync.scripts[WatchOf(k)] == given[WatchOf(k)]
    {
    }
  }

  /** Whatever is stored, a rollback that does not panic leaves a swept script no history from the target on. */
  lemma RolledBackHistoryIsBelow(db: Db, known: set<Script>, scripts: map<Watch, nat>, to: nat, k: Key)
    requires WellFormed(db.Keys, known) && IsReadableFrom(db, scripts, to)
    requires k.History? && WatchOf(k) in scripts && scripts[WatchOf(k)] >= to && k.script in known
    requires RolledBackKey(db, scripts, to, k).Some?
    ensures k in db && k.block < to
  {
    hide Encode, ScannedBytes, IsUndoable, UndoScanned, UndoOps, WellFormed;
    var w := WatchOf(k);
    var ks := Descending(HistoryFrom(db, w, to), w);
    assert AllReadable(db, w, to);
    ScanIsHistory(db, known, w, to);
    forall h | h in ks ensures h in db && h.History? && WatchOf(h) == w && IsUndoable(db, w, Encode(h)) {
      assert h in HistoryFrom(db, w, to);
      var i :| 0 <= i < |ks| && ks[i] == h;
      assert EncodeAll(ks)[i] == Encode(h);
    }
    SweepOfScanned(db, w, ks);
    SweepHistory(db, ks, k);
    assert k in ks <==> k in HistoryFrom(db, w, to);
  }

  lemma RollbackCovers(db: Db, known: set<Script>, scripts: map<Watch, nat>, to: nat, db': Db)
    requires WellFormed(db.Keys, known) && ScriptsOf(scripts.Keys) <= known && IsReadableFrom(db, scripts, to)
    requires IsRolledBack(db, scripts, to, db') && Covered(db, scripts)
    ensures Covered(db', ScriptsAfter(scripts, to))
  {
    hide WellFormed, IsReadableFrom;
    forall k: Key | k.History? && k in db' && WatchOf(k) in scripts ensures k.block <= ScriptsAfter(scripts,
        to)[WatchOf(k)] {
      assert Get(db', k) == RolledBackKey(db, scripts, to, k);
      assert k.script in ScriptsOf(scripts.Keys);
      if scripts[WatchOf(k)] >= to {
        RolledBackHistoryIsBelow(db, known, scripts, to, k);
      }
    }
  }

  lemma CommitCovers(world: World, j: Joint, e: Event, j': Joint)
    requires Inv(j.sync) && e.Commit? && JointStep(world.genesis, j, e, [], j') && Covered(j.db, j.sync.scripts)
    requires WellFormed(j.db.Keys, world.known) && ScriptsOf(j.sync.scripts.Keys) <= world.known
    ensures Covered(j'.db, j'.sync.scripts)
  {
    hide WellFormed, IsRolledBack, IsReadableFrom, Covered, Next, Inv;
    CommitRollsBack(j.sync, e.newTip, e.reorg, e.lastN);
    var to := RollsBackTo(j.sync, e.newTip, e.reorg);
    if to.Some? {
      RollbackCovers(j.db, world.known, j.sync.scripts, to.value, j'.db);
    }
  }

  /** The step gives a script a number below a block that is indexed for it. */
  ghost predicate Lowers(j: Joint, e: Event) {
    e.SetScripts? && !e.command.Delete? && !Covered(j.db, e.given)
  }

  /**
   Every step keeps each script's number at or above the blocks indexed for it, with one exception: a script
   that is registered again with a number below its history.
   */
  lemma CoveredExactly(world: World, j: Joint, e: Event, taken: seq<Block>, j': Joint)
    requires Inv(j.sync) && InRange(world.numberOf, j.sync) && EventInRange(world.numberOf, j.sync, e)
    requires world.genesis.number == 0 && WellFormed(j.db.Keys, world.known)
    requires ScriptsOf(j.sync.scripts.Keys) <= world.known
    requires JointStep(world.genesis, j, e, taken, j') && Covered(j.db, j.sync.scripts)
    ensures Covered(j'.db, j'.sync.scripts) <==> !Lowers(j, e)
  {
    match e
    case SendBlock(block) =>
      hide Covered, Next, AfterDrain, WellFormed, FilteredAll, TakenFrom, InRange;
      DrainCovers(world, j, block, taken, j');
    case Commit(newTip, reorg, lastN) =>
      hide Covered, Next, WellFormed, IsRolledBack, IsReadableFrom;
      CommitCovers(world, j, e, j');
    case SetScripts(command, given) =>
      hide Covered, Next, WellFormed;
      SetScriptsCovers(world, j, command, given, j');
    case _ =>
  }

  // Covered numbers are what a rollback needs

  /** How many transactions of the log lie below block `to`. */
  function CutAt(log: Log, to: nat): (n: nat)
    ensures n <= |log|
  {
    if log == [] || log[|log| - 1].block < to then |log| else CutAt(log[..|log| - 1], to)
  }

  lemma {:induction false} CutAtCuts(log: Log, to: nat)
    requires ValidLog(log)
    ensures CutsAt(log[..CutAt(log, to)], log[CutAt(log, to)..], to)
  {
    hide ValidLog;
    if log != [] {
      var init, last, n := log[..|log| - 1], log[|log| - 1], CutAt(log, to);
      if last.block < to {
        forall p | p in log ensures p.block < to {
          LastIsLatest(log, p);
        }
      } else {
        ValidPrefix(log, |log| - 1);
        CutAtCuts(init, to);
        assert log[..n] == init[..n] && log[n..] == init[n..] + [last];
      }
    }
  }

  lemma LastIsLatest(log: Log, p: Placed)
    requires ValidLog(log) && p in log
    ensures p.block <= log[|log| - 1].block
  {
    var i :| 0 <= i < |log| && log[i] == p;
    assert i < |log| - 1 ==> Precedes(log[i], log[|log| - 1]);
  }

  /** Blocks that left no history of a script do not affect it. */
  lemma NoHistoryIsUnaffected(db: Db, kept: Log, removed: Log, watch: set<Watch>, to: nat, w: Watch)
    requires Indexed(db, kept + removed, watch) && ValidLog(kept + removed) && CutsAt(kept, removed, to)
    requires NoDoubleSpend(kept + removed) && w in watch && HistoryFrom(db, w, to) == {}
    ensures Unaffected(kept, removed, w)
  {
    hide ValidLog, NoDoubleSpend, Expect, FindAt, StoredRight;
    forall k: Key | IsIndexKey(k) && WatchOf(k) == w ensures Expect(kept + removed, k) == Expect(kept, k) {
      assert Get(db, k) == Expected(kept + removed, watch, k);
      if k.Cell? {
        var at := FindAt(kept + removed, k.block, k.tx);
        CellCases(db, kept, removed, watch, to, k, [], if at.Some? then at.value.tx.hash else seq(32, _ => 0));
      } else {
        HistoryIsUnaffected(kept, removed, to, k);
        assert k in db && k.block >= to ==> k in HistoryFrom(db, w, to);
      }
    }
  }

  lemma HistoryIsUnaffected(kept: Log, removed: Log, to: nat, k: Key)
    requires ValidLog(kept + removed) && CutsAt(kept, removed, to) && k.History?
    ensures if k.block < to then Expect(kept + removed, k) == Expect(kept, k) else Expect(kept, k).None?
  {
    hide ValidLog, FindTx, FindAt;
    FindAtCut(kept, removed, to, k.block, k.tx);
    var p := FindAt(kept, k.block, k.tx);
    if k.block < to && !k.output && p.Some? && k.io < |p.value.tx.inputs| {
      ReferredStays(kept, removed, p.value, k.io);
    }
  }

  /** Wherever the log is cut, rolling back to there restores the index. */
  ghost predicate AlwaysRestored(log: Log, scripts: map<Watch, nat>) {
    forall n: nat, to: nat, w ::
      n <= |log| && CutsAt(log[..n], log[n..], to) && w in scripts ==> IsRestored(log[..n], log[n..], scripts, to, w)
  }

  lemma NothingFrom(db: Db, scripts: map<Watch, nat>, to: nat, w: Watch)
    requires Covered(db, scripts) && w in scripts && scripts[w] < to
    ensures HistoryFrom(db, w, to) == {}
  {
  }

  lemma CoveredIsRestored(db: Db, kept: Log, removed: Log, scripts: map<Watch, nat>, to: nat, w: Watch)
    requires Indexed(db, kept + removed, scripts.Keys) && ValidLog(kept + removed) && CutsAt(kept, removed, to)
    requires NoDoubleSpend(kept + removed) && Covered(db, scripts) && w in scripts
    ensures IsRestored(kept, removed, scripts, to, w)
  {
    hide ValidLog, NoDoubleSpend, CutsAt, Indexed, Unaffected;
    if scripts[w] < to {
      NothingFrom(db, scripts, to, w);
      NoHistoryIsUnaffected(db, kept, removed, scripts.Keys, to, w);
    }
  }

  /** On an index, every rollback restores exactly if no script's number lies below a block indexed for it. */
  lemma CoveredIsExact(db: Db, log: Log, scripts: map<Watch, nat>)
    requires Indexed(db, log, scripts.Keys) && ValidLog(log) && NoDoubleSpend(log)
    ensures Covered(db, scripts) <==> AlwaysRestored(log, scripts)
  {
    hide ValidLog, NoDoubleSpend, CutsAt, Indexed, IsRestored;
    if Covered(db, scripts) {
      forall n: nat, to: nat, w | n <= |log| && CutsAt(log[..n], log[n..], to) && w in scripts
        ensures IsRestored(log[..n], log[n..], scripts, to, w)
      {
        assert log[..n] + log[n..] == log;
        CoveredIsRestored(db, log[..n], log[n..], scripts, to, w);
      }
    } else {
      var k: Key :| k.History? && k in db && WatchOf(k) in scripts && k.block > scripts[WatchOf(k)];
      var n := CutAt(log, k.block);
      CutAtCuts(log, k.block);
      assert log[..n] + log[n..] == log;
      HistoryIsAffected(db, log[..n], log[n..], scripts, k);
    }
  }

  lemma HistoryIsAffected(db: Db, kept: Log, removed: Log, scripts: map<Watch, nat>, k: Key)
    requires k.History? && k in db && WatchOf(k) in scripts && k.block > scripts[WatchOf(k)]
    requires Indexed(db, kept + removed, scripts.Keys) && ValidLog(kept + removed) && CutsAt(kept, removed, k.block)
    ensures !IsRestored(kept, removed, scripts, k.block, WatchOf(k))
  {
    hide ValidLog, CutsAt, Expect;
    assert Get(db, k) == Expected(kept + removed, scripts.Keys, k);
    HistoryIsUnaffected(kept, removed, k.block, k);
  }

  // The index over a run

  /** The transactions of the blocks that are filtered and not rolled back, after one more step. */
  function LogAfter(s: State, log: Log, e: Event, taken: seq<Block>): Log {
    match e
    case SendBlock(_) => log + AllPositions(taken)
    case Commit(newTip, reorg, _) =>
      (match RollsBackTo(s, newTip, reorg)
       case None => log
       case Some(to) => log[..CutAt(log, to)])
    case _ => log
  }

  /** The filtered blocks continue a chain without double spends, and what a rollback left behind misleads nobody. */
  ghost predicate Continues(db: Db, log: Log, taken: seq<Block>, watch: set<Watch>) {
    var full := log + AllPositions(taken);
    ValidLog(full) && NoDoubleSpend(full) && StoredSame(db, full) && RunMisleadsNobody(db, log, taken, watch)
  }

  /** The index is the replay of the blocks filtered so far, and every number covers it. */
  ghost predicate Follows(world: World, j: Joint, log: Log) {
    && Inv(j.sync) && InRange(world.numberOf, j.sync) && Covered(j.db, j.sync.scripts)
    && ValidLog(log) && NoDoubleSpend(log) && Indexed(j.db, log, j.sync.scripts.Keys)
  }

  lemma DrainFollows(genesis: Block, j: Joint, log: Log, block: Block, taken: seq<Block>, j': Joint)
    requires Inv(j.sync) && JointStep(genesis, j, SendBlock(block), taken, j')
    requires Indexed(j.db, log, j.sync.scripts.Keys) && Continues(j.db, log, taken, j.sync.scripts.Keys)
    ensures j'.sync.scripts.Keys == j.sync.scripts.Keys
    ensures Indexed(j'.db, log + AllPositions(taken), j'.sync.scripts.Keys)
  {
    hide ValidLog, NoDoubleSpend, StoredSame, RunMisleadsNobody, Indexed, AfterDrain, TakenFrom;
    if Drains(j.sync, block) {
      DrainIsSafe(j.sync, block);
      DrainRaises(j.sync);
      FilteringAllRefinesReplay(j.db, log, taken, j.sync.scripts.Keys, log + AllPositions(taken));
    } else {
      assert log + AllPositions(taken) == log;
    }
  }

  lemma CommitFollows(world: World, j: Joint, log: Log, e: Event, j': Joint)
    requires Follows(world, j, log) && e.Commit? && JointStep(world.genesis, j, e, [], j')
    requires WellFormed(j.db.Keys, ScriptsOf(j.sync.scripts.Keys))
    ensures j'.sync.scripts.Keys == j.sync.scripts.Keys
    ensures Indexed(j'.db, LogAfter(j.sync, log, e, []), j'.sync.scripts.Keys)
  {
    hide ValidLog, NoDoubleSpend, WellFormed, IsRestored, Covered, Next, Inv, RolledBackKey, IsReadableFrom,
        TablesMatch,
      StoredRight, CutsAt;
    CommitRollsBack(j.sync, e.newTip, e.reorg, e.lastN);
    var to := RollsBackTo(j.sync, e.newTip, e.reorg);
    if to.Some? {
      var n := CutAt(log, to.value);
      var kept, removed := log[..n], log[n..];
      assert kept + removed == log;
      CutAtCuts(log, to.value);
      forall w | w in j.sync.scripts ensures IsRestored(kept, removed, j.sync.scripts, to.value, w) {
        CoveredIsRestored(j.db, kept, removed, j.sync.scripts, to.value, w);
      }
      RollbackUndoesFiltering(j.db, kept, removed, j.sync.scripts, to.value, j'.db);
      RollbackKeepsStored(j.db, kept, removed, j.sync.scripts, to.value, j'.db);
    }
  }

  /** An index needs prefix-freedom of its own scripts only. */
  lemma WellFormedHere(db: Db, log: Log, known: set<Script>, watch: set<Watch>)
    requires WellFormed(db.Keys, known) && Indexed(db, log, watch) && ScriptsOf(watch) <= known
    ensures WellFormed(db.Keys, ScriptsOf(watch))
  {
    hide Expect;
    forall k | k in db && k.History? ensures k.script in ScriptsOf(watch) {
      assert Get(db, k) == Expected(log, watch, k);
      assert WatchOf(k) in watch;
    }
  }

  lemma NoDoubleSpendPrefix(log: Log, n: nat)
    requires NoDoubleSpend(log) && n <= |log|
    ensures NoDoubleSpend(log[..n])
  {
    forall h: Hash | FindTx(log[..n], h).Some? ensures FindTx(log, h).Some? {
      var i :| 0 <= i < n && log[..n][i] == FindTx(log[..n], h).value;
      assert log[i].tx.hash == h;
    }
  }

  lemma LogAfterIsChain(s: State, db: Db, log: Log, e: Event, taken: seq<Block>)
    requires Continues(db, log, taken, s.scripts.Keys) && ValidLog(log) && NoDoubleSpend(log)
    ensures ValidLog(LogAfter(s, log, e, taken)) && NoDoubleSpend(LogAfter(s, log, e, taken))
  {
    hide ValidLog, NoDoubleSpend, StoredSame, RunMisleadsNobody, RollsBackTo, AllPositions;
    if e.Commit? && RollsBackTo(s, e.newTip, e.reorg).Some? {
      var n := CutAt(log, RollsBackTo(s, e.newTip, e.reorg).value);
      ValidPrefix(log, n);
      NoDoubleSpendPrefix(log, n);
    }
  }

  /** What holds of the world at each step. */
  ghost predicate Lawful(world: World, j: Joint, e: Event) {
    && world.genesis.number == 0 && EventInRange(world.numberOf, j.sync, e)
    && WellFormed(j.db.Keys, world.known) && ScriptsOf(j.sync.scripts.Keys) <= world.known
  }

  /**
   Every step but the registration of scripts keeps the index equal to the replay of the blocks filtered so
   far: a drain adds its blocks to the replay, and a fork takes those from the target of the rollback on away.
   */
  lemma IndexFollows(world: World, j: Joint, log: Log, e: Event, taken: seq<Block>, j': Joint)
    requires Follows(world, j, log) && Lawful(world, j, e) && !e.SetScripts?
    requires JointStep(world.genesis, j, e, taken, j') && Continues(j.db, log, taken, j.sync.scripts.Keys)
    ensures Follows(world, j', LogAfter(j.sync, log, e, taken))
  {
    hide ValidLog, NoDoubleSpend, WellFormed, Covered, Next, Inv, InRange, Indexed, Continues;
    NextKeepsInv(j.sync, e);
    RangeKept(world.numberOf, j.sync, e);
    CoveredExactly(world, j, e, taken, j');
    LogAfterIsChain(j.sync, j.db, log, e, taken);
    match e
    case SendBlock(block) =>
      DrainFollows(world.genesis, j, log, block, taken, j');
    case Commit(newTip, reorg, lastN) =>
      WellFormedHere(j.db, log, world.known, j.sync.scripts.Keys);
      CommitFollows(world, j, log, e, j');
    case _ =>
      OthersKeepScripts(j.sync, e);
  }

  lemma OthersKeepScripts(s: State, e: Event)
    requires Inv(s) && !e.SetScripts? && !e.SendBlock? && !e.Commit?
    ensures Next(s, e).scripts.Keys == s.scripts.Keys
  {
  }

  datatype Move = Move(event: Event, taken: seq<Block>, after: Joint)

  function Reached(start: Joint, moves: seq<Move>): Joint {
    if moves == [] then start else moves[|moves| - 1].after
  }

  ghost predicate IsRun(world: World, start: Joint, moves: seq<Move>) {
    moves == []
    || (var init, m := moves[..|moves| - 1], moves[|moves| - 1];
        var j := Reached(start, init);
        && IsRun(world, start, init) && Inv(j.sync) && Lawful(world, j, m.event)
        && JointStep(world.genesis, j, m.event, m.taken, m.after))
  }

  /** No step of the run registers a script again with a number below its history. */
  ghost predicate NeverLowers(start: Joint, moves: seq<Move>) {
    forall i :: 0 <= i < |moves| ==> !Lowers(Reached(start, moves[..i]), moves[i].event)
  }

  /** Over any run that never lowers a script below its history, every number covers the index. */
  lemma {:induction false} RunIsCovered(world: World, start: Joint, moves: seq<Move>)
    requires IsRun(world, start, moves) && NeverLowers(start, moves)
    requires Inv(start.sync) && InRange(world.numberOf, start.sync) && Covered(start.db, start.sync.scripts)
    ensures var j := Reached(start, moves);
            Inv(j.sync) && InRange(world.numberOf, j.sync) && Covered(j.db, j.sync.scripts)
  {
    hide Inv, InRange, Covered, Next, Lowers, WellFormed;
    if moves != [] {
      var init, m := moves[..|moves| - 1], moves[|moves| - 1];
      forall i | 0 <= i < |init| ensures !Lowers(Reached(start, init[..i]), init[i].event) {
        assert init[..i] == moves[..i];
      }
      RunIsCovered(world, start, init);
      var j := Reached(start, init);
      assert moves[..|init|] == init;
      assert !Lowers(j, m.event);
      NextKeepsInv(j.sync, m.event);
      RangeKept(world.numberOf, j.sync, m.event);
      CoveredExactly(world, j, m.event, m.taken, m.after);
    }
  }

  function LogReached(start: Joint, log: Log, moves: seq<Move>): Log {
    if moves == [] then log
    else
      var init, m := moves[..|moves| - 1], moves[|moves| - 1];
      LogAfter(Reached(start, init).sync, LogReached(start, log, init), m.event, m.taken)
  }

  /** No scripts are registered, and drained blocks continue the chain that is left of those before. */
  ghost predicate StaysOnChain(start: Joint, log: Log, moves: seq<Move>) {
    forall i :: 0 <= i < |moves| ==>
      && !moves[i].event.SetScripts?
      && var j := Reached(start, moves[..i]);
         Continues(j.db, LogReached(start, log, moves[..i]), moves[i].taken, j.sync.scripts.Keys)
  }

  /**
   Over any run of drains and forks the index is the replay of the blocks that were filtered and not rolled
   back, new blocks that were filtered after a fork included.
   */
  lemma {:induction false} RunFollows(world: World, start: Joint, log: Log, moves: seq<Move>)
    requires IsRun(world, start, moves) && StaysOnChain(start, log, moves) && Follows(world, start, log)
    ensures Follows(world, Reached(start, moves), LogReached(start, log, moves))
  {
    hide Inv, Follows, Next, WellFormed, Continues;
    if moves != [] {
      var init, m := moves[..|moves| - 1], moves[|moves| - 1];
      forall i | 0 <= i < |init|
        ensures !init[i].event.SetScripts?
        ensures var j := Reached(start, init[..i]);
                Continues(j.db, LogReached(start, log, init[..i]), init[i].taken, j.sync.scripts.Keys)
      {
        assert init[..i] == moves[..i];
      }
      RunFollows(world, start, log, init);
      assert moves[..|init|] == init;
      IndexFollows(world, Reached(start, init), LogReached(start, log, init), m.event, m.taken, m.after);
    }
  }

  /** After a fork the replay holds no block above the fork. */
  lemma ForkCutsLog(s: State, log: Log, newTip: Tip, reorg: seq<(nat, Hash)>, lastN: seq<(nat, Hash)>)
    requires ValidLog(log) && newTip.total > s.tip.total && ForkNumber(reorg, s.lastHeaders).Some?
    ensures var log' := LogAfter(s, log, Commit(newTip, reorg, lastN), []);
            && log' <= log
            && (forall p :: p in log' ==> p.block <= ForkNumber(reorg, s.lastHeaders).value)
            && (forall p :: p in log && p !in log' ==> p.block >= RollsBackTo(s, newTip, reorg).value)
  {
    hide ValidLog, LookUp;
    var to := RollsBackTo(s, newTip, reorg).value;
    CutAtCuts(log, to);
    assert log == log[..CutAt(log, to)] + log[CutAt(log, to)..];
  }

  // How a run starts

  /** Registering scripts on an index that is still empty starts the replay, at the genesis block if it is filtered. */
  lemma RegisteringStarts(world: World, j: Joint, command: Command, given: map<Watch, nat>, j': Joint)
    requires Inv(j.sync) && InRange(world.numberOf, j.sync) && world.genesis.number == 0
    requires forall k: Key :: IsIndexKey(k) ==> k !in j.db
    requires ValidLog(Positions(world.genesis)) && NoDoubleSpend(Positions(world.genesis))
    requires NothingLeft(j.db, Positions(world.genesis))
              && JointStep(world.genesis, j, SetScripts(command, given), [], j')
    ensures var fromStart := !command.Delete? && exists w :: w in given && given[w] == 0;
            Follows(world, j', if fromStart then Positions(world.genesis) else [])
  {
    hide ValidLog, NoDoubleSpend, NothingLeft, Filtered, Inv, InRange, FindTx, Next, Indexed;
    NextKeepsInv(j.sync, SetScripts(command, given));
    RangeKept(world.numberOf, j.sync, SetScripts(command, given));
    SetScriptsCovers(world, j, command, given, j');
    var watch := j'.sync.scripts.Keys;
    if FiltersGenesis(command, given) {
      OneBlock(j.db, watch, world.genesis);
      FreshFilteringRefinesReplay(j.db, [world.genesis], watch);
    } else {
      NothingToReplay(j.db, watch);
    }
  }

  lemma OneBlock(db: Db, watch: set<Watch>, block: Block)
    ensures AllPositions([block]) == Positions(block) && FilteredAll(db, watch, [block]) == Filtered(db, watch, block)
  {
    assert [block][..0] == [];
    assert AllPositions([]) == [] && FilteredAll(db, watch, []) == db;
  }

  lemma NothingToReplay(db: Db, watch: set<Watch>)
    requires forall k: Key :: IsIndexKey(k) ==> k !in db
    ensures Indexed(db, [], watch) && ValidLog([]) && NoDoubleSpend([])
  {
  }

  /** A script whose history reaches to block 5 is registered again from block 1 on: a rollback to 3 passes it over. */
  lemma RegisteredAgainExample(tip: Tip, script: Script, hash: Hash)
    ensures var (w, k) := (Watch(Lock, script), History(Lock, script, 5, 0, 0, true));
            var (j, again) := (Joint(Fresh(tip).(scripts := map[w := 5]), map[k := Ref(hash)]), map[w := 1]);
            && Inv(j.sync) && Covered(j.db, j.sync.scripts) && Lowers(j, SetScripts(Partial, again))
            && RolledBackKey(j.db, Next(j.sync, SetScripts(Partial, again)).scripts, 3, k) == Some(Ref(hash))
  {
    var (w, k) := (Watch(Lock, script), History(Lock, script, 5, 0, 0, true));
    assert WatchOf(k) == w;
    assert map[w := 5] + map[w := 1] == map[w := 1];
  }

  // The steps in place

  method RegisterScripts(client: Client, storage: Storage, command: Command, given: map<Watch, nat>, genesis: Block)
    requires Inv(client.Snapshot()) && storage.scripts == client.scripts && storage.minFiltered == client.minFiltered
    modifies client, storage
    ensures Inv(client.Snapshot()) && storage.scripts == client.scripts && storage.minFiltered == client.minFiltered
    ensures JointStep(genesis, old(Joint(client.Snapshot(), storage.db)), SetScripts(command, given), [],
                      Joint(client.Snapshot(), storage.db))
    ensures given != map[] || command.All? ==>
              forall w :: w in storage.scripts ==> storage.minFiltered <= storage.scripts[w]
  {
    SetScriptsStartsOver(client.Snapshot(), command, given);
    client.SetScripts(command, given);
    storage.scripts, storage.minFiltered := client.scripts, client.minFiltered;
    if FiltersGenesis(command, given) {
      storage.FilterBlock(genesis);
    }
  }

  lemma SendBlockFiltersNothing(s: State, block: Block)
    requires Inv(s)
    ensures Next(s, SendBlock(block)).minFiltered == s.minFiltered
  {
  }

  /** Takes a block; if it completes the download, all blocks of the batch are filtered in ascending order. */
  method ReceiveBlock(client: Client, storage: Storage, block: Block, ghost genesis: Block) returns (taken: seq<Block>)
    requires Inv(client.Snapshot()) && storage.scripts == client.scripts && storage.minFiltered == client.minFiltered
    modifies client, storage
    ensures Inv(client.Snapshot()) && storage.scripts == client.scripts && storage.minFiltered == client.minFiltered
    ensures JointStep(genesis, old(Joint(client.Snapshot(), storage.db)), SendBlock(block), taken,
                      Joint(client.Snapshot(), storage.db))
  {
    hide Inv, Filtered, Next, Drains;
    SendBlockFiltersNothing(client.Snapshot(), block);
    taken := client.SendBlock(block);
    for i := 0 to |taken|
      invariant storage.scripts == old(storage.scripts)
                && client.Snapshot() == Next(old(client.Snapshot()), SendBlock(block))
      invariant storage.minFiltered == old(storage.minFiltered)
      invariant storage.db == FilteredAll(old(storage.db), storage.scripts.Keys, taken[..i])
    {
      assert taken[..i + 1][..i] == taken[..i];
      storage.FilterBlock(taken[i]);
    }
    assert taken[..|taken|] == taken;
    storage.scripts := client.scripts;
  }
}
