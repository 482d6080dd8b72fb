/** Rolling back undoes filtering: the tables return to what they were before the removed blocks. */
module RollbackProofs {
  import opened Options
  import opened Keys
  import opened Chain
  import opened Index
  import opened Rollback
  import opened RollbackScan
  import opened FilterProofs

  /** The history entry that records the creation of a cell. */
  function CreationOf(c: Key): Key
    requires c.Cell?
  {
    History(c.kind, c.script, c.block, c.tx, c.io, true)
  }

  /** Undoing the history entry `k` puts the cell `c` back. */
  ghost predicate Respends(db: Db, k: Key, c: Key)
    requires Readable(db, k)
  {
    && !k.output
    && var prev := GetTransaction(db, InputOf(db, k).hash);
       prev.Some? && c == CellAt(WatchOf(k), prev.value, InputOf(db, k).index)
  }

  lemma UndoHistoryEffect(v: Db, db: Db, k: Key, h: Key)
    requires Readable(db, k) && h.History?
    ensures Get(Apply(v, UndoOps(db, k)), h) == if h == k then None else Get(v, h)
  {
    UndoSplits(v, db, k);
  }

  lemma UndoCellEffect(v: Db, db: Db, k: Key, c: Key)
    requires Readable(db, k) && c.Cell?
    ensures Get(Apply(v, UndoOps(db, k)), c)
         == if k == CreationOf(c) then None
            else if Respends(db, k, c) then Some(Ref(InputOf(db, k).hash))
            else Get(v, c)
  {
    UndoSplits(v, db, k);
  }

  lemma UndoSplits(v: Db, db: Db, k: Key)
    requires Readable(db, k)
    ensures var ops := UndoOps(db, k);
            Apply(v, ops) == if |ops| == 2 then ApplyOne(ApplyOne(v, ops[0]), ops[1]) else ApplyOne(v, ops[0])
  {
    ApplyFew(v, UndoOps(db, k));
  }

  lemma ApplyFew(v: Db, ops: seq<Op>)
    requires 1 <= |ops| <= 2
    ensures Apply(v, ops) == if |ops| == 2 then ApplyOne(ApplyOne(v, ops[0]), ops[1]) else ApplyOne(v, ops[0])
  {
    assert ops[..1][..0] == [];
    assert Apply(v, ops[..1]) == ApplyOne(v, ops[0]);
    if |ops| == 1 {
      assert ops[..1] == ops;
    }
  }

  /** Sweeping deletes the history entries it visits and leaves all others. */
  lemma {:induction false} SweepHistory(db: Db, ks: seq<Key>, h: Key)
    requires h.History? && forall k :: k in ks ==> Readable(db, k)
    ensures Get(Apply(db, SweepOps(db, ks)), h) == if h in ks then None else Get(db, h)
  {
    hide UndoOps, InputOf;
    if ks != [] {
      var init, k := ks[..|ks| - 1], ks[|ks| - 1];
      SweepHistory(db, init, h);
      ApplyConcat(db, SweepOps(db, init), UndoOps(db, k));
      UndoHistoryEffect(Apply(db, SweepOps(db, init)), db, k, h);
      assert ks == init + [k];
    }
  }

  /** The spends among the visited entries come after the creations of what they spend. */
  ghost predicate SpendsFollowCreation(db: Db, ks: seq<Key>, c: Key)
    requires c.Cell? && forall k :: k in ks ==> Readable(db, k)
  {
    forall k :: k in ks && Respends(db, k, c) ==> EarlierKey(CreationOf(c), k)
  }

  ghost predicate RespentIn(db: Db, ks: seq<Key>, c: Key)
    requires c.Cell? && forall k :: k in ks ==> Readable(db, k)
  {
    exists k :: k in ks && Respends(db, k, c)
  }

  /**
   Sweeping newest first: a cell created in the swept range ends up deleted, even when it was spent there
   as well; a cell that was only spent there is restored; any other cell is left alone.
   */
  lemma {:induction false} SweepCell(db: Db, ks: seq<Key>, c: Key, hash: Hash)
    requires c.Cell? && forall k :: k in ks ==> Readable(db, k)
    requires forall i, j :: 0 <= i < j < |ks| ==> Readable(db, ks[i]) && Readable(db, ks[j]) && EarlierKey(ks[j], ks[i])
    requires SpendsFollowCreation(db, ks, c)
    requires forall k :: k in ks && Respends(db, k, c) ==> InputOf(db, k).hash == hash
    ensures Get(Apply(db, SweepOps(db, ks)), c)
         == if CreationOf(c) in ks then None
            else if RespentIn(db, ks, c) then Some(Ref(hash))
            else Get(db, c)
  {
    if ks != [] {
      var init, k := ks[..|ks| - 1], ks[|ks| - 1];
      assert ks == init + [k];
      SweepCell(db, init, c, hash);
      ApplyConcat(db, SweepOps(db, init), UndoOps(db, k));
      UndoCellEffect(Apply(db, SweepOps(db, init)), db, k, c);
      assert RespentIn(db, ks, c) <==> RespentIn(db, init, c) || Respends(db, k, c);
      assert Respends(db, k, c) ==> EarlierKey(CreationOf(c), k);
      assert CreationOf(c) in init ==> EarlierKey(k, CreationOf(c));
    }
  }

  // Connection with the chain log

  lemma HistoryInLog(db: Db, log: Log, watch: set<Watch>, k: Key)
    requires Indexed(db, log, watch) && ValidLog(log) && k.History? && k in db
    ensures WatchOf(k) in watch
    ensures var p := FindAt(log, k.block, k.tx);
            && p.Some? && db[k] == Ref(p.value.tx.hash)
            && GetTransaction(db, p.value.tx.hash) == p
            && (k.output ==> k.io < |p.value.tx.outputs| && Carries(p.value.tx.outputs[k.io], WatchOf(k)))
            && (!k.output ==> k.io < |p.value.tx.inputs| && SpendsWatched(log, p.value.tx.inputs[k.io], WatchOf(k)))
  {
    hide ValidLog, FindTx, FindAt;
    assert Get(db, k) == Expected(log, watch, k);
    var p := FindAt(log, k.block, k.tx).value;
    assert Relevant(log, p, watch);
    StoredIs(db, log, watch, p);
  }

  lemma StoredIs(db: Db, log: Log, watch: set<Watch>, p: Placed)
    requires Indexed(db, log, watch) && p in log && Relevant(log, p, watch)
    ensures GetTransaction(db, p.tx.hash) == Some(p)
  {
  }

  function ScriptsOf(watch: set<Watch>): set<Script> {
    set w | w in watch :: w.script
  }

  lemma KnownKey(db: Db, k: Key)
    requires KeysFit(db) && k in db
    ensures Encode(k) in Encoded(db.Keys) && KeyOf(db, Encode(k)) == k
  {
    KeyIsUnique(db, Encode(k));
  }

  /** On an index with prefix-free scripts each history entry can be undone from its bytes. */
  lemma HistoryIsUndoable(db: Db, log: Log, watch: set<Watch>, k: Key)
    requires Indexed(db, log, watch) && ValidLog(log) && KeysFit(db) && k.History? && k in db
    ensures IsUndoable(db, WatchOf(k), Encode(k))
  {
    hide ValidLog, Indexed, FindAt, FindTx;
    HistoryInLog(db, log, watch, k);
    KnownKey(db, k);
    DecodedRoundTrip(k);
    EntryLength(k);
  }

  lemma EntryLength(k: Key)
    requires k.History?
    ensures |Encode(k)| == |HistoryPrefix(k.kind, k.script)| + 17
  {
  }

  /** A scanned entry can be undone: the fields cut out of its bytes are those of its key. */
  lemma ScannedIsReadable(db: Db, w: Watch, k: Key)
    requires KeysFit(db) && k in db && k.History? && WatchOf(k) == w && IsUndoable(db, w, Encode(k))
    ensures Readable(db, k) && UndoScanned(db, w, Encode(k)) == UndoOps(db, k)
  {
    hide Encode, Decoded;
    KnownKey(db, k);
    DecodedRoundTrip(k);
  }

  lemma {:induction false} SweepOfScanned(db: Db, w: Watch, ks: seq<Key>)
    requires KeysFit(db) && forall k :: k in ks ==>
              k in db && k.History? && WatchOf(k) == w && IsUndoable(db, w, Encode(k))
    ensures forall k :: k in ks ==> Readable(db, k)
    ensures forall y :: y in EncodeAll(ks) ==> IsUndoable(db, w, y)
    ensures SweepBytes(db, w, EncodeAll(ks)) == SweepOps(db, ks)
  {
    hide Encode, IsUndoable, UndoScanned, UndoOps, Readable;
    if ks != [] {
      var init, k := ks[..|ks| - 1], ks[|ks| - 1];
      SweepOfScanned(db, w, init);
      ScannedIsReadable(db, w, k);
      assert EncodeAll(ks) == EncodeAll(init) + [Encode(k)];
      assert EncodeAll(ks)[..|ks| - 1] == EncodeAll(init);
    }
  }

  /** The sweep undoes the script's history from block `to` on, newest first, and never panics. */
  lemma SweepIsHistory(db: Db, log: Log, watch: set<Watch>, w: Watch, to: nat)
    requires Indexed(db, log, watch) && ValidLog(log) && WellFormed(db.Keys, ScriptsOf(watch)) && w in watch
    ensures AllReadable(db, w, to)
    ensures forall k :: k in HistoryFrom(db, w, to) ==> Readable(db, k)
    ensures Sweep(db, w, to) == SweepOps(db, Descending(HistoryFrom(db, w, to), w))
  {
    hide Encode, ScannedBytes, Indexed, ValidLog, IsUndoable;
    var ks := Descending(HistoryFrom(db, w, to), w);
    ScanIsHistory(db, ScriptsOf(watch), w, to);
    forall k | k in ks ensures k in db && k.History? && WatchOf(k) == w && IsUndoable(db, w, Encode(k)) {
      assert k in HistoryFrom(db, w, to);
      HistoryIsUndoable(db, log, watch, k);
    }
    SweepOfScanned(db, w, ks);
  }

  /** On an indexed database with prefix-free scripts no rollback runs into missing data. */
  lemma RollbackNeverPanics(db: Db, log: Log, watch: set<Watch>, to: nat)
    requires Indexed(db, log, watch) && ValidLog(log) && WellFormed(db.Keys, ScriptsOf(watch))
    ensures forall w :: w in watch ==> AllReadable(db, w, to)
  {
    forall w | w in watch ensures AllReadable(db, w, to) {
      SweepIsHistory(db, log, watch, w, to);
    }
  }

  /** A history entry of an input puts back exactly the cell of the output it spends. */
  lemma RespendsInLog(db: Db, log: Log, watch: set<Watch>, k: Key, c: Key)
    requires Indexed(db, log, watch) && ValidLog(log)
    requires k.History? && k in db && !k.output && c.Cell? && Readable(db, k)
    ensures var p := FindAt(log, k.block, k.tx);
            && p.Some? && k.io < |p.value.tx.inputs| && InputOf(db, k) == p.value.tx.inputs[k.io]
            && var at := FindAt(log, c.block, c.tx);
               Respends(db, k, c)
               <==> WatchOf(k) == WatchOf(c) && at.Some? && OutPoint(at.value.tx.hash, c.io) == p.value.tx.inputs[k.io]
  {
    hide ValidLog, FindTx, FindAt;
    HistoryInLog(db, log, watch, k);
    var p := FindAt(log, k.block, k.tx).value;
    var input := p.tx.inputs[k.io];
    var prev := FindTx(log, input.hash).value;
    assert Relevant(log, prev, watch);
    StoredIs(db, log, watch, prev);
    SpentCellKey(log, input, c);
  }

  /** Creations precede the spends that put the cell back. */
  lemma CreationPrecedesSpend(db: Db, log: Log, watch: set<Watch>, k: Key, c: Key)
    requires Indexed(db, log, watch) && ValidLog(log)
    requires k.History? && k in db && !k.output && c.Cell? && Readable(db, k) && Respends(db, k, c)
    ensures EarlierKey(CreationOf(c), k)
  {
    RespendsInLog(db, log, watch, k, c);
    var p, at := FindAt(log, k.block, k.tx).value, FindAt(log, c.block, c.tx).value;
    var i :| 0 <= i < |log| && log[i] == p;
    var j :| 0 <= j < |log| && log[j] == at;
    assert log[i].tx.inputs[k.io].hash == log[j].tx.hash;
    assert j < i;
  }

  /** The log is cut at block `to`. */
  ghost predicate CutsAt(kept: Log, removed: Log, to: nat) {
    && (forall p :: p in kept ==> p.block < to)
    && (forall p :: p in removed ==> p.block >= to)
  }

  lemma {:induction false} FindAtConcat(a: Log, b: Log, block: nat, index: nat)
    ensures FindAt(a + b, block, index) == if FindAt(b, block, index).Some? then FindAt(b, block, index)
              else FindAt(a, block, index)
  {
    if b == [] {
      assert a + b == a;
    } else {
      assert (a + b)[..|a + b| - 1] == a + b[..|b| - 1];
      FindAtConcat(a, b[..|b| - 1], block, index);
    }
  }

  lemma FindAtCut(kept: Log, removed: Log, to: nat, block: nat, index: nat)
    requires CutsAt(kept, removed, to)
    ensures block < to ==> FindAt(kept + removed, block, index) == FindAt(kept, block, index)
    ensures block >= to ==> FindAt(kept, block, index).None?
  {
    FindAtConcat(kept, removed, block, index);
  }

  lemma ReferredStays(kept: Log, removed: Log, p: Placed, a: nat)
    requires ValidLog(kept + removed) && p in kept && a < |p.tx.inputs|
    ensures Referred(kept + removed, p.tx.inputs[a]) == Referred(kept, p.tx.inputs[a])
  {
    var log := kept + removed;
    assert log[..|kept|] == kept;
    ValidPrefix(log, |kept|);
    var h := p.tx.inputs[a].hash;
    var i :| 0 <= i < |kept| && kept[i] == p;
    assert log[i] == p;
    var r := FindTx(log, h);
    if r.Some? {
      assert r.value in log;
      RefersBack(log, i, a, r.value);
      assert log[..i] == kept[..i];
      assert r.value in kept;
      FoundIn(kept, r.value);
    } else {
      forall j | 0 <= j < |kept| ensures kept[j].tx.hash != h {
        assert log[j] == kept[j];
      }
    }
  }

  lemma SpentConcat(kept: Log, removed: Log, p: OutPoint)
    ensures SpentIn(kept + removed, p) <==> SpentIn(kept, p) || SpentIn(removed, p)
  {
    var log := kept + removed;
    if SpentIn(kept, p) {
      var i, a :| 0 <= i < |kept| && 0 <= a < |kept[i].tx.inputs| && kept[i].tx.inputs[a] == p;
      assert log[i].tx.inputs[a] == p;
    }
    if SpentIn(removed, p) {
      var i, a :| 0 <= i < |removed| && 0 <= a < |removed[i].tx.inputs| && removed[i].tx.inputs[a] == p;
      assert log[|kept| + i].tx.inputs[a] == p;
    }
    if SpentIn(log, p) {
      var i, a :| 0 <= i < |log| && 0 <= a < |log[i].tx.inputs| && log[i].tx.inputs[a] == p;
      if i < |kept| {
        assert kept[i].tx.inputs[a] == p;
      } else {
        assert removed[i - |kept|].tx.inputs[a] == p;
      }
    }
  }

  /** A history key after the rollback. */
  lemma RolledBackHistory(db: Db, kept: Log, removed: Log, watch: set<Watch>, to: nat, k: Key)
    requires Indexed(db, kept + removed, watch) && ValidLog(kept + removed) && CutsAt(kept, removed, to)
    requires k.History? && WatchOf(k) in watch && WellFormed(db.Keys, ScriptsOf(watch))
    ensures AllReadable(db, WatchOf(k), to)
    ensures Get(Apply(db, Sweep(db, WatchOf(k), to)), k) == Expected(kept, watch, k)
  {
    hide ValidLog, FindTx, FindAt;
    var log := kept + removed;
    var s := HistoryFrom(db, WatchOf(k), to);
    SweepIsHistory(db, log, watch, WatchOf(k), to);
    SweepHistory(db, Descending(s, WatchOf(k)), k);
    assert Get(db, k) == Expected(log, watch, k);
    FindAtCut(kept, removed, to, k.block, k.tx);
    var p := FindAt(kept, k.block, k.tx);
    if k.block < to && !k.output && p.Some? && k.io < |p.value.tx.inputs| {
      ReferredStays(kept, removed, p.value, k.io);
    }
  }

  lemma UniqueSpender(log: Log, p: OutPoint)
    requires NoDoubleSpend(log) && FindTx(log, p.hash).Some?
    ensures forall i, a, j, b ::
              (&& 0 <= i < |log| && 0 <= a < |log[i].tx.inputs| && log[i].tx.inputs[a] == p
               && 0 <= j < |log| && 0 <= b < |log[j].tx.inputs| && log[j].tx.inputs[b] == p)
              ==> i == j && a == b
  {
  }

  /** The setting: a cell of a kept block that was created there and carries its script, and the swept entries. */
  ghost predicate KeptCell(db: Db, kept: Log, removed: Log, watch: set<Watch>, to: nat, c: Key, ks: seq<Key>) {
    && Indexed(db, kept + removed, watch) && ValidLog(kept + removed) && CutsAt(kept, removed, to)
    && c.Cell? && WatchOf(c) in watch && c.block < to
    && (forall k :: k in ks <==> k in HistoryFrom(db, WatchOf(c), to))
    && (forall k :: k in ks ==> Readable(db, k))
    && var at := FindAt(kept, c.block, c.tx);
       at.Some? && c.io < |at.value.tx.outputs| && Carries(at.value.tx.outputs[c.io], WatchOf(c))
  }

  lemma RespentIsRemovedSpend(db: Db, kept: Log, removed: Log, watch: set<Watch>, to: nat, c: Key, ks: seq<Key>)
    requires KeptCell(db, kept, removed, watch, to, c, ks) && RespentIn(db, ks, c)
    ensures SpentIn(removed, OutPoint(FindAt(kept, c.block, c.tx).value.tx.hash, c.io))
  {
    hide ValidLog, FindTx, FindAt, Indexed;
    var log := kept + removed;
    FindAtCut(kept, removed, to, c.block, c.tx);
    var k :| k in ks && Respends(db, k, c);
    RespendsInLog(db, log, watch, k, c);
    var q := FindAt(log, k.block, k.tx).value;
    FindAtConcat(kept, removed, k.block, k.tx);
    FindAtCut(kept, removed, to, k.block, k.tx);
    assert q in removed;
    InputIsSpent(removed, q, k.io);
  }

  lemma RemovedSpendIsRespent(db: Db, kept: Log, removed: Log, watch: set<Watch>, to: nat, c: Key, ks: seq<Key>)
    requires KeptCell(db, kept, removed, watch, to, c, ks)
    requires SpentIn(removed, OutPoint(FindAt(kept, c.block, c.tx).value.tx.hash, c.io))
    ensures RespentIn(db, ks, c)
  {
    hide ValidLog, FindTx, FindAt, StoredRight;
    var log := kept + removed;
    FindAtCut(kept, removed, to, c.block, c.tx);
    var at := FindAt(kept, c.block, c.tx).value;
    var p := OutPoint(at.tx.hash, c.io);
    var i, a :| 0 <= i < |removed| && 0 <= a < |removed[i].tx.inputs| && removed[i].tx.inputs[a] == p;
    var q := removed[i];
    assert log[|kept| + i] == q;
    FoundIn(log, q);
    FoundIn(log, at);
    var k := History(c.kind, c.script, q.block, q.index, a, false);
    assert WatchOf(k) == WatchOf(c);
    assert SpendsWatched(log, q.tx.inputs[a], WatchOf(k));
    assert Get(db, k) == Expected(log, watch, k);
    assert k in ks;
    RespendsInLog(db, log, watch, k, c);
    assert Respends(db, k, c);
  }

  /** Every spend swept comes after the creation of the cell and puts back the transaction that stands there. */
  lemma SpendsAreInOrder(db: Db, log: Log, watch: set<Watch>, c: Key, ks: seq<Key>, hash: Hash)
    requires Indexed(db, log, watch) && ValidLog(log) && c.Cell?
    requires forall k :: k in ks ==> k in db && k.History? && Readable(db, k)
    requires FindAt(log, c.block, c.tx).Some? ==> hash == FindAt(log, c.block, c.tx).value.tx.hash
    ensures SpendsFollowCreation(db, ks, c)
    ensures forall k :: k in ks && Respends(db, k, c) ==> InputOf(db, k).hash == hash
  {
    hide ValidLog, FindTx, FindAt, Indexed, Readable;
    forall k | k in ks && Respends(db, k, c) ensures EarlierKey(CreationOf(c), k) && InputOf(db, k).hash == hash {
      CreationPrecedesSpend(db, log, watch, k, c);
      RespendsInLog(db, log, watch, k, c);
    }
  }

  /** A cell key after the rollback. */
  lemma RolledBackCell(db: Db, kept: Log, removed: Log, watch: set<Watch>, to: nat, c: Key)
    requires Indexed(db, kept + removed, watch) && ValidLog(kept + removed) && CutsAt(kept, removed, to)
    requires NoDoubleSpend(kept + removed)
    requires c.Cell? && WatchOf(c) in watch && WellFormed(db.Keys, ScriptsOf(watch))
    ensures AllReadable(db, WatchOf(c), to)
    ensures Get(Apply(db, Sweep(db, WatchOf(c), to)), c) == Expected(kept, watch, c)
  {
    hide ValidLog, FindTx, FindAt, NoDoubleSpend, Sweep, AllReadable, Indexed, UndoOps, Expect, WellFormed, SweepOps,
      SpendsFollowCreation, RespentIn, Respends;
    var log := kept + removed;
    var ks := Descending(HistoryFrom(db, WatchOf(c), to), WatchOf(c));
    SweepIsHistory(db, log, watch, WatchOf(c), to);
    var at := FindAt(log, c.block, c.tx);
    var hash := if at.Some? then at.value.tx.hash else seq(32, _ => 0);
    SpendsAreInOrder(db, log, watch, c, ks, hash);
    SweepCell(db, ks, c, hash);
    CellCases(db, kept, removed, watch, to, c, ks, hash);
  }

  lemma CellCases(db: Db, kept: Log, removed: Log, watch: set<Watch>, to: nat, c: Key, ks: seq<Key>, hash: Hash)
    requires Indexed(db, kept + removed, watch) && ValidLog(kept + removed) && CutsAt(kept, removed, to)
    requires NoDoubleSpend(kept + removed)
    requires c.Cell? && WatchOf(c) in watch
    requires forall k :: k in ks <==> k in HistoryFrom(db, WatchOf(c), to)
    requires forall k :: k in ks ==> Readable(db, k)
    requires FindAt(kept + removed, c.block, c.tx).Some? ==> hash == FindAt(kept + removed, c.block, c.tx).value.tx.hash
    ensures (if CreationOf(c) in ks then None else if RespentIn(db, ks, c) then Some(Ref(hash)) else Get(db, c))
         == Expected(kept, watch, c)
  {
    hide ValidLog, FindTx, FindAt, NoDoubleSpend;
    var log := kept + removed;
    var at := FindAt(log, c.block, c.tx);
    FindAtCut(kept, removed, to, c.block, c.tx);
    var h := CreationOf(c);
    assert WatchOf(h) == WatchOf(c);
    assert Get(db, h) == Expected(log, watch, h);
    assert Get(db, c) == Expected(log, watch, c);
    var created := at.Some? && c.io < |at.value.tx.outputs| && Carries(at.value.tx.outputs[c.io], WatchOf(c));
    assert h in db <==> created;
    if !created {
      NotCreatedNotRespent(db, log, watch, c, ks);
    } else if c.block < to {
      var p := OutPoint(at.value.tx.hash, c.io);
      SpentConcat(kept, removed, p);
      if RespentIn(db, ks, c) {
        RespentIsRemovedSpend(db, kept, removed, watch, to, c, ks);
      } else if SpentIn(removed, p) {
        RemovedSpendIsRespent(db, kept, removed, watch, to, c, ks);
      }
      if SpentIn(kept, p) && SpentIn(removed, p) {
        SpentTwice(kept, removed, at.value, p);
      }
    }
  }

  /** Without a double spend an output cannot be spent on both sides of the cut. */
  lemma SpentTwice(kept: Log, removed: Log, at: Placed, p: OutPoint)
    requires ValidLog(kept + removed) && NoDoubleSpend(kept + removed) && at in kept + removed && p.hash == at.tx.hash
    requires SpentIn(kept, p)
    ensures !SpentIn(removed, p)
  {
    var log := kept + removed;
    FoundIn(log, at);
    UniqueSpender(log, p);
    var i, a :| 0 <= i < |kept| && 0 <= a < |kept[i].tx.inputs| && kept[i].tx.inputs[a] == p;
    assert log[i].tx.inputs[a] == p;
    forall j, b | 0 <= j < |removed| && 0 <= b < |removed[j].tx.inputs| ensures removed[j].tx.inputs[b] != p {
      assert log[|kept| + j].tx.inputs[b] == removed[j].tx.inputs[b];
    }
  }

  lemma NotCreatedNotRespent(db: Db, log: Log, watch: set<Watch>, c: Key, ks: seq<Key>)
    requires Indexed(db, log, watch) && ValidLog(log) && c.Cell?
    requires forall k :: k in ks ==> k in db && k.History? && Readable(db, k)
    requires var at := FindAt(log, c.block, c.tx);
             !(at.Some? && c.io < |at.value.tx.outputs| && Carries(at.value.tx.outputs[c.io], WatchOf(c)))
    ensures !RespentIn(db, ks, c)
  {
    hide ValidLog, FindTx, FindAt;
    forall k | k in ks ensures !Respends(db, k, c) {
      if Respends(db, k, c) {
        RespendsInLog(db, log, watch, k, c);
        HistoryInLog(db, log, watch, k);
        FoundIn(log, FindAt(log, c.block, c.tx).value);
      }
    }
  }

  /** The removed blocks neither create nor spend anything of the script. */
  ghost predicate Unaffected(kept: Log, removed: Log, w: Watch) {
    forall k: Key :: IsIndexKey(k) && WatchOf(k) == w ==> Expect(kept + removed, k) == Expect(kept, k)
  }

  /** The script is swept, or there is nothing to sweep. */
  ghost predicate IsRestored(kept: Log, removed: Log, scripts: map<Watch, nat>, to: nat, w: Watch)
    requires w in scripts
  {
    scripts[w] >= to || Unaffected(kept, removed, w)
  }

  lemma RolledBackKeyOf(db: Db, kept: Log, removed: Log, scripts: map<Watch, nat>, to: nat, k: Key)
    requires Indexed(db, kept + removed, scripts.Keys) && ValidLog(kept + removed) && CutsAt(kept, removed, to)
    requires NoDoubleSpend(kept + removed) && WellFormed(db.Keys, ScriptsOf(scripts.Keys))
    requires IsIndexKey(k)
    ensures RolledBackKey(db, scripts, to, k)
         == if WatchOf(k) in scripts && scripts[WatchOf(k)] < to then Expected(kept + removed, scripts.Keys, k)
            else Expected(kept, scripts.Keys, k)
  {
    hide ValidLog, NoDoubleSpend, Sweep, AllReadable;
    RollbackNeverPanics(db, kept + removed, scripts.Keys, to);
    assert Get(db, k) == Expected(kept + removed, scripts.Keys, k);
    if WatchOf(k) in scripts && scripts[WatchOf(k)] >= to {
      if k.History? {
        RolledBackHistory(db, kept, removed, scripts.Keys, to, k);
      } else {
        RolledBackCell(db, kept, removed, scripts.Keys, to, k);
      }
    }
  }

  /**
   Rolling back to block `to` after filtering blocks below and from `to` on restores the cell and history
   tables to what the kept blocks alone yield, including cells created and spent in the removed range. It
   does so exactly if every script that the removed blocks affect has a number from `to` on.
   */
  lemma RollbackUndoesFiltering(db: Db, kept: Log, removed: Log, scripts: map<Watch, nat>, to: nat, db': Db)
    requires Indexed(db, kept + removed, scripts.Keys) && ValidLog(kept + removed) && CutsAt(kept, removed, to)
    requires NoDoubleSpend(kept + removed) && WellFormed(db.Keys, ScriptsOf(scripts.Keys))
    requires forall k: Key :: Get(db', k) == RolledBackKey(db, scripts, to, k)
    ensures TablesMatch(db', kept, scripts.Keys) <==> forall w :: w in scripts ==>
              IsRestored(kept, removed, scripts, to, w)
  {
    hide ValidLog, NoDoubleSpend, Indexed, CutsAt, AllReadable, RolledBackKey, Expect;
    forall k: Key | IsIndexKey(k)
      ensures Get(db', k) == if WatchOf(k) in scripts && scripts[WatchOf(k)] < to then
                Expected(kept + removed, scripts.Keys, k)
                             else Expected(kept, scripts.Keys, k)
    {
      RolledBackKeyOf(db, kept, removed, scripts, to, k);
    }
    if TablesMatch(db', kept, scripts.Keys) {
      forall w | w in scripts ensures IsRestored(kept, removed, scripts, to, w) {
        forall k: Key | scripts[w] < to && IsIndexKey(k)
            && WatchOf(k) == w ensures Expect(kept + removed, k) == Expect(kept, k) {
          assert Get(db', k) == Expected(kept, scripts.Keys, k);
        }
      }
    } else {
      var k: Key :| IsIndexKey(k) && Get(db', k) != Expected(kept, scripts.Keys, k);
      assert WatchOf(k) in scripts && !IsRestored(kept, removed, scripts, to, WatchOf(k));
    }
  }

  /** A rollback leaves all stored transactions in place, so those of the kept blocks stay right. */
  lemma RollbackKeepsStored(db: Db, kept: Log, removed: Log, scripts: map<Watch, nat>, to: nat, db': Db)
    requires Indexed(db, kept + removed, scripts.Keys) && ValidLog(kept + removed)
    requires forall k: Key :: Get(db', k) == RolledBackKey(db, scripts, to, k)
    ensures forall h: Hash :: GetTransaction(db', h) == GetTransaction(db, h)
    ensures StoredRight(db', kept, scripts.Keys)
  {
    hide ValidLog, FindTx, Sweep, AllReadable;
    forall h: Hash ensures GetTransaction(db', h) == GetTransaction(db, h) {
      assert Get(db', TxHash(h)) == RolledBackKey(db, scripts, to, TxHash(h)) == Get(db, TxHash(h));
    }
    forall p | p in kept && Relevant(kept, p, scripts.Keys) ensures GetTransaction(db', p.tx.hash) == Some(p) {
      RelevantWithMore(kept, removed, p, scripts.Keys);
    }
  }

  lemma RelevantWithMore(kept: Log, removed: Log, p: Placed, watch: set<Watch>)
    requires ValidLog(kept + removed) && p in kept && Relevant(kept, p, watch)
    ensures Relevant(kept + removed, p, watch)
  {
    hide ValidLog, FindTx;
    if a, w :| 0 <= a < |p.tx.inputs| && w in watch && SpendsWatched(kept, p.tx.inputs[a], w) {
      ReferredStays(kept, removed, p, a);
      assert SpendsWatched(kept + removed, p.tx.inputs[a], w);
    }
  }

  /**
   The round trip: filter any further blocks, roll back to the first of them, and every cell and history
   key has the value it had before; what the blocks have stored stays behind.
   */
  lemma FilterThenRollback(db: Db, kept: Log, blocks: seq<Block>, scripts: map<Watch, nat>, to: nat, db': Db)
    requires Indexed(db, kept, scripts.Keys) && ValidLog(kept + AllPositions(blocks))
    requires StoredSame(db, kept + AllPositions(blocks)) && RunMisleadsNobody(db, kept, blocks, scripts.Keys)
    requires CutsAt(kept, AllPositions(blocks), to) && NoDoubleSpend(kept + AllPositions(blocks))
    requires forall w :: w in scripts ==> scripts[w] >= to
    requires var filtered := FilteredAll(db, scripts.Keys, blocks);
             && WellFormed(filtered.Keys, ScriptsOf(scripts.Keys))
             && forall k: Key :: Get(db', k) == RolledBackKey(filtered, scripts, to, k)
    ensures forall k: Key :: IsIndexKey(k) ==> Get(db', k) == Get(db, k)
    ensures Indexed(db', kept, scripts.Keys)
  {
    hide ValidLog, NoDoubleSpend, CutsAt, RolledBackKey, Expect, FilteredAll, StoredRight, StoredSame,
        RunMisleadsNobody;
    var filtered := FilteredAll(db, scripts.Keys, blocks);
    FilteringAllRefinesReplay(db, kept, blocks, scripts.Keys, kept + AllPositions(blocks));
    RollbackUndoesFiltering(filtered, kept, AllPositions(blocks), scripts, to, db');
    RollbackKeepsStored(filtered, kept, AllPositions(blocks), scripts, to, db');
  }
}
