/**
 Filtering on a database in which a rollback has left transactions behind. The lookup of a spent output goes to
 the database first; the index refines the replay of the chain exactly if these lookups delete the cells that
 the chain spends, and record the spends that it has.
 */
module Refiltering {
  import opened Options
  import opened Keys
  import opened Chain
  import opened Index
  import opened FilterProofs

  /** The input finds its output in the database or in the block, at the position of the cell. */
  predicate Hits(db: Db, block: Block, t: nat, a: nat, c: Key)
    requires t < |block.txs| && a < |block.txs[t].inputs| && c.Cell?
  {
    var p := block.txs[t].inputs[a];
    var r := Resolve(db, Seen(block, t), p.hash);
    Names(r, p, WatchOf(c)) && r.value.block == c.block && r.value.index == c.tx && p.index == c.io
  }

  /** The input refers, in the chain, to the output at the position of the cell. */
  ghost predicate Refers(log: Log, block: Block, t: nat, a: nat, c: Key)
    requires t < |block.txs| && a < |block.txs[t].inputs| && c.Cell?
  {
    var p := block.txs[t].inputs[a];
    var q := FindTx(log + Positions(block)[..t], p.hash);
    q.Some? && q.value.block == c.block && q.value.index == c.tx && p.index == c.io
  }

  /** The block itself creates the cell. */
  predicate IsCreated(block: Block, c: Key)
    requires c.Cell?
  {
    c.block == block.number && c.tx < |block.txs| && c.io < |block.txs[c.tx].outputs|
    && Carries(block.txs[c.tx].outputs[c.io], WatchOf(c))
  }

  /** Some input of the first `t` transactions hits the cell, after it was created. */
  ghost predicate IsHit(db: Db, block: Block, t: nat, c: Key)
    requires t <= |block.txs| && c.Cell?
  {
    exists u, a :: 0 <= u < t && 0 <= a < |block.txs[u].inputs|
                   && (IsCreated(block, c) ==> c.tx < u) && Hits(db, block, u, a, c)
  }

  ghost predicate IsReferred(log: Log, block: Block, t: nat, c: Key)
    requires t <= |block.txs| && c.Cell?
  {
    exists u, a :: 0 <= u < t && 0 <= a < |block.txs[u].inputs| && Refers(log, block, u, a, c)
  }

  // What the batch does to one key

  ghost predicate TxHits(db: Db, block: Block, t: nat, n: nat, c: Key)
    requires t < |block.txs| && n <= |block.txs[t].inputs| && c.Cell?
  {
    exists a :: 0 <= a < n && Hits(db, block, t, a, c)
  }

  lemma {:induction false} InputsOnCell(v: Db, db: Db, watch: set<Watch>, block: Block, t: nat, n: nat, c: Key)
    requires t < |block.txs| && n <= |block.txs[t].inputs| && c.Cell? && WatchOf(c) in watch
    ensures var cur := Placed(block.number, t, block.txs[t]);
            Get(Apply(v, InputsOps(db, watch, Seen(block, t), cur, n)), c)
            == if TxHits(db, block, t, n, c) then None else Get(v, c)
  {
    hide InputOps;
    if n > 0 {
      var cur := Placed(block.number, t, block.txs[t]);
      var seen := Seen(block, t);
      InputsOnCell(v, db, watch, block, t, n - 1, c);
      ApplyConcat(v, InputsOps(db, watch, seen, cur, n - 1), InputOps(db, watch, seen, cur, n - 1));
      InputEffect(Apply(v, InputsOps(db, watch, seen, cur, n - 1)), db, watch, seen, cur, n - 1, c);
      assert TxHits(db, block, t, n, c) <==> TxHits(db, block, t, n - 1, c) || Hits(db, block, t, n - 1, c);
    }
  }

  lemma {:induction false} InputsOnHistory(v: Db, db: Db, watch: set<Watch>, block: Block, t: nat, n: nat, k: Key)
    requires t < |block.txs| && n <= |block.txs[t].inputs| && k.History? && WatchOf(k) in watch
    ensures var cur := Placed(block.number, t, block.txs[t]);
            Get(Apply(v, InputsOps(db, watch, Seen(block, t), cur, n)), k)
            == if k.block == block.number && k.tx == t && !k.output && k.io < n
                  && Names(Resolve(db, Seen(block, t), cur.tx.inputs[k.io].hash), cur.tx.inputs[k.io], WatchOf(k))
               then Some(Ref(cur.tx.hash)) else Get(v, k)
  {
    hide InputOps, Resolve;
    if n > 0 {
      var cur := Placed(block.number, t, block.txs[t]);
      var seen := Seen(block, t);
      InputsOnHistory(v, db, watch, block, t, n - 1, k);
      ApplyConcat(v, InputsOps(db, watch, seen, cur, n - 1), InputOps(db, watch, seen, cur, n - 1));
      InputEffect(Apply(v, InputsOps(db, watch, seen, cur, n - 1)), db, watch, seen, cur, n - 1, k);
    }
  }

  lemma {:induction false} OutputsOn(v: Db, watch: set<Watch>, cur: Placed, n: nat, k: Key)
    requires n <= |cur.tx.outputs| && IsIndexKey(k) && WatchOf(k) in watch
    ensures Get(Apply(v, OutputsOps(watch, cur, n)), k)
         == if k.block == cur.block && k.tx == cur.index && k.io < n && (k.Cell? || k.output)
               && Carries(cur.tx.outputs[k.io], WatchOf(k))
            then Some(Ref(cur.tx.hash)) else Get(v, k)
  {
    hide OutputOps;
    if n > 0 {
      OutputsOn(v, watch, cur, n - 1, k);
      ApplyConcat(v, OutputsOps(watch, cur, n - 1), OutputOps(watch, cur, n - 1));
      OutputEffect(Apply(v, OutputsOps(watch, cur, n - 1)), watch, cur, n - 1, k);
    }
  }

  lemma TxSplits(v: Db, db: Db, watch: set<Watch>, block: Block, t: nat)
    requires t < |block.txs|
    ensures var cur := Placed(block.number, t, block.txs[t]);
            Apply(v, TxOps(db, watch, block, t))
            == Apply(Apply(v, InputsOps(db, watch, Seen(block, t), cur, |cur.tx.inputs|)),
                     OutputsOps(watch, cur, |cur.tx.outputs|))
  {
    var cur := Placed(block.number, t, block.txs[t]);
    ApplyConcat(v, InputsOps(db, watch, Seen(block, t), cur, |cur.tx.inputs|),
        OutputsOps(watch, cur, |cur.tx.outputs|));
  }

  /** A cell after the first `t` transactions. */
  lemma {:induction false} CellAfter(db: Db, watch: set<Watch>, block: Block, t: nat, c: Key)
    requires t <= |block.txs| && c.Cell? && WatchOf(c) in watch
    ensures var v := Apply(db, BlockOps(db, watch, block, t));
            && (IsCreated(block, c) && c.tx < t ==>
                  Get(v, c) == if IsHit(db, block, t, c) then None else Some(Ref(block.txs[c.tx].hash)))
            && (!IsCreated(block, c) ==> Get(v, c) == if IsHit(db, block, t, c) then None else Get(db, c))
  {
    hide InputsOps, OutputsOps, TxOps, Hits;
    if t > 0 {
      var u := t - 1;
      var v, cur := Apply(db, BlockOps(db, watch, block, u)), Placed(block.number, u, block.txs[u]);
      CellAfter(db, watch, block, u, c);
      ApplyConcat(db, BlockOps(db, watch, block, u), TxOps(db, watch, block, u));
      TxSplits(v, db, watch, block, u);
      InputsOnCell(v, db, watch, block, u, |cur.tx.inputs|, c);
      OutputsOn(Apply(v, InputsOps(db, watch, Seen(block, u), cur, |cur.tx.inputs|)), watch, cur, |cur.tx.outputs|, c);
      HitStep(db, block, u, c);
    }
  }

  lemma HitStep(db: Db, block: Block, t: nat, c: Key)
    requires t < |block.txs| && c.Cell?
    ensures IsHit(db, block, t + 1, c) <==>
              || IsHit(db, block, t, c)
              || ((IsCreated(block, c) ==> c.tx < t) && TxHits(db, block, t, |block.txs[t].inputs|, c))
  {
    hide Hits, IsCreated;
    if TxHits(db, block, t, |block.txs[t].inputs|, c) {
      var a :| 0 <= a < |block.txs[t].inputs| && Hits(db, block, t, a, c);
    }
  }

  ghost predicate InputNames(db: Db, block: Block, k: Key)
    requires k.History?
  {
    && k.block == block.number && k.tx < |block.txs| && !k.output && k.io < |block.txs[k.tx].inputs|
    && var p := block.txs[k.tx].inputs[k.io];
       Names(Resolve(db, Seen(block, k.tx), p.hash), p, WatchOf(k))
  }

  predicate OutputCarries(block: Block, k: Key)
    requires k.History?
  {
    && k.block == block.number && k.tx < |block.txs| && k.output && k.io < |block.txs[k.tx].outputs|
    && Carries(block.txs[k.tx].outputs[k.io], WatchOf(k))
  }

  lemma {:induction false} HistoryAfter(db: Db, watch: set<Watch>, block: Block, t: nat, k: Key)
    requires t <= |block.txs| && k.History? && WatchOf(k) in watch
    ensures Get(Apply(db, BlockOps(db, watch, block, t)), k)
         == if k.tx < t && (InputNames(db, block, k) || OutputCarries(block, k)) then Some(Ref(block.txs[k.tx].hash))
            else Get(db, k)
  {
    hide InputsOps, OutputsOps, TxOps, Resolve;
    if t > 0 {
      var u := t - 1;
      var v, cur := Apply(db, BlockOps(db, watch, block, u)), Placed(block.number, u, block.txs[u]);
      HistoryAfter(db, watch, block, u, k);
      ApplyConcat(db, BlockOps(db, watch, block, u), TxOps(db, watch, block, u));
      TxSplits(v, db, watch, block, u);
      InputsOnHistory(v, db, watch, block, u, |cur.tx.inputs|, k);
      OutputsOn(Apply(v, InputsOps(db, watch, Seen(block, u), cur, |cur.tx.inputs|)), watch, cur, |cur.tx.outputs|, k);
    }
  }

  // What the chain has under one key

  lemma ExpectTx(log: Log, cur: Placed, k: Key)
    requires ValidLog(log + [cur]) && IsIndexKey(k)
    ensures Expect(log + [cur], k) == ExpectAppended(log, cur, |cur.tx.inputs|, |cur.tx.outputs|, k)
  {
    var n, m := |cur.tx.inputs|, |cur.tx.outputs|;
    assert cur.tx.inputs[..n] == cur.tx.inputs && cur.tx.outputs[..m] == cur.tx.outputs;
    assert Part(cur, n, m) == cur;
    ExpectAppend(log, cur, n, m, k);
  }

  lemma {:induction false} CellExpected(log: Log, block: Block, t: nat, c: Key)
    requires t <= |block.txs| && ValidLog(log + Positions(block)) && c.Cell?
    ensures var e := Expect(log + Positions(block)[..t], c);
            && (IsCreated(block, c) && c.tx < t ==>
                  e == if IsReferred(log, block, t, c) then None else Some(block.txs[c.tx].hash))
            && (!IsCreated(block, c) ==> e == if IsReferred(log, block, t, c) then None else Expect(log, c))
  {
    hide FindTx, FindAt, ValidLog, Expect;
    if t > 0 {
      CellExpected(log, block, t - 1, c);
      CellExpectedStep(log, block, t - 1, c);
      if c.block == block.number && c.tx == t - 1 {
        NothingThereYet(log, block, c);
      }
    } else {
      assert log + Positions(block)[..0] == log;
    }
  }

  lemma TxHasPlace(log: Log, block: Block, t: nat)
    requires t < |block.txs| && ValidLog(log + Positions(block))
    ensures var l := log + Positions(block)[..t];
            && log + Positions(block)[..t + 1] == l + [Positions(block)[t]]
            && ValidLog(l) && ValidLog(l + [Positions(block)[t]])
  {
    hide ValidLog;
    var full := log + Positions(block);
    assert full[..|log| + t] == log + Positions(block)[..t];
    assert full[..|log| + t + 1] == log + Positions(block)[..t + 1]
        == log + Positions(block)[..t] + [Positions(block)[t]];
    ValidPrefix(full, |log| + t);
    ValidPrefix(full, |log| + t + 1);
  }

  /** Among the inputs of a transaction one refers to the cell. */
  ghost predicate TxRefers(log: Log, block: Block, t: nat, c: Key)
    requires t < |block.txs| && c.Cell?
  {
    exists a :: 0 <= a < |block.txs[t].inputs| && Refers(log, block, t, a, c)
  }

  lemma CellExpectedStep(log: Log, block: Block, t: nat, c: Key)
    requires t < |block.txs| && ValidLog(log + Positions(block)) && c.Cell?
    ensures IsReferred(log, block, t + 1, c) <==> IsReferred(log, block, t, c) || TxRefers(log, block, t, c)
    ensures c.block == block.number && c.tx == t ==> !IsReferred(log, block, t + 1, c)
    ensures Expect(log + Positions(block)[..t + 1], c)
         == if c.block == block.number && c.tx == t then
              if IsCreated(block, c) then Some(block.txs[t].hash) else None
            else if TxRefers(log, block, t, c) then None else Expect(log + Positions(block)[..t], c)
  {
    hide FindTx, FindAt, ValidLog, Expect, Refers;
    var l, cur := log + Positions(block)[..t], Positions(block)[t];
    TxHasPlace(log, block, t);
    ExpectTx(l, cur, c);
    CurIsFresh(l, cur);
    TxRefersIsSpent(log, block, t, c);
    ReferredStep(log, block, t, c);
    if c.block == block.number && c.tx == t {
      NobodyRefersAhead(log, block, t, c);
    }
  }

  lemma ReferredStep(log: Log, block: Block, t: nat, c: Key)
    requires t < |block.txs| && c.Cell?
    ensures IsReferred(log, block, t + 1, c) <==> IsReferred(log, block, t, c) || TxRefers(log, block, t, c)
  {
    hide Refers;
    if TxRefers(log, block, t, c) {
      var a :| 0 <= a < |block.txs[t].inputs| && Refers(log, block, t, a, c);
    }
  }

  lemma TxRefersIsSpent(log: Log, block: Block, t: nat, c: Key)
    requires t < |block.txs| && c.Cell? && ValidLog(log + Positions(block)[..t])
    ensures var (l, cur) := (log + Positions(block)[..t], Positions(block)[t]);
            TxRefers(log, block, t, c) <==> SpentByPart(l, cur, |cur.tx.inputs|, c)
  {
    hide FindTx, FindAt, ValidLog;
    var l, cur := log + Positions(block)[..t], Positions(block)[t];
    assert cur.tx.inputs[..|cur.tx.inputs|] == cur.tx.inputs;
    forall a | 0 <= a < |cur.tx.inputs|
      ensures Refers(log, block, t, a, c) <==>
                FindAt(l, c.block, c.tx).Some? && OutPoint(FindAt(l, c.block, c.tx).value.tx.hash, c.io)
                    == cur.tx.inputs[a]
    {
      SpentCellKey(l, cur.tx.inputs[a], c);
    }
  }

  lemma NobodyRefersAhead(log: Log, block: Block, t: nat, c: Key)
    requires t < |block.txs| && ValidLog(log + Positions(block)) && c.Cell? && c.block == block.number && c.tx == t
    ensures !IsReferred(log, block, t + 1, c)
  {
    hide FindTx, ValidLog;
    forall u, a | 0 <= u < t + 1 && 0 <= a < |block.txs[u].inputs| ensures !Refers(log, block, u, a, c) {
      var l, h := log + Positions(block)[..u], block.txs[u].inputs[a].hash;
      TxHasPlace(log, block, t);
      var all := log + Positions(block)[..t];
      CurIsFresh(all, Positions(block)[t]);
      if FindTx(l, h).Some? {
        FindTxIsThere(l, h);
        assert Positions(block)[..u] <= Positions(block)[..t];
        assert FindTx(l, h).value in all;
        FoundIn(all, FindTx(l, h).value);
      }
    }
  }

  lemma {:induction false} HistoryExpected(log: Log, block: Block, t: nat, k: Key)
    requires t <= |block.txs| && ValidLog(log + Positions(block)) && k.History?
    ensures Expect(log + Positions(block)[..t], k)
         == if k.block == block.number && k.tx < t then
              if OutputCarries(block, k) || InputSpends(log, block, k) then Some(block.txs[k.tx].hash) else None
            else Expect(log, k)
  {
    hide FindTx, FindAt, ValidLog, Expect;
    if t > 0 {
      var u := t - 1;
      HistoryExpected(log, block, u, k);
      TxHasPlace(log, block, u);
      ExpectTx(log + Positions(block)[..u], Positions(block)[u], k);
    } else {
      assert log + Positions(block)[..0] == log;
    }
  }

  ghost predicate InputSpends(log: Log, block: Block, k: Key)
    requires k.History?
  {
    && k.block == block.number && k.tx < |block.txs| && !k.output && k.io < |block.txs[k.tx].inputs|
    && SpendsWatched(log + Positions(block)[..k.tx], block.txs[k.tx].inputs[k.io], WatchOf(k))
  }

  // The exact condition

  /** The lookups of inputs recognise exactly the spends of registered scripts that the chain has. */
  ghost predicate SpendsAreTrue(db: Db, log: Log, block: Block, watch: set<Watch>) {
    forall k: Key :: k.History? && WatchOf(k) in watch ==> (InputNames(db, block, k) <==> InputSpends(log, block, k))
  }

  /** The lookups hit a live cell, or one that the block creates, exactly if the chain spends it. */
  ghost predicate CellIsTrue(db: Db, log: Log, block: Block, c: Key)
    requires c.Cell?
  {
    c in db || IsCreated(block, c) ==>
      (IsHit(db, block, |block.txs|, c) <==> IsReferred(log, block, |block.txs|, c))
  }

  ghost predicate HitsAreTrue(db: Db, log: Log, block: Block, watch: set<Watch>) {
    forall c: Key :: c.Cell? && WatchOf(c) in watch ==> CellIsTrue(db, log, block, c)
  }

  lemma CellsMatch(db: Db, log: Log, block: Block, watch: set<Watch>, c: Key)
    requires ValidLog(log + Positions(block)) && TablesMatch(db, log, watch) && c.Cell? && WatchOf(c) in watch
    ensures Get(Filtered(db, watch, block), c) == Expected(log + Positions(block), watch, c)
       <==> CellIsTrue(db, log, block, c)
  {
    hide ValidLog, Filtered, Expect, IsHit, IsReferred, IsCreated;
    var n := |block.txs|;
    assert Positions(block)[..n] == Positions(block);
    FilteredIsApplied(db, watch, block);
    CellAfter(db, watch, block, n, c);
    CellExpected(log, block, n, c);
    CreatedInside(block, c);
    assert Get(db, c) == Expected(log, watch, c);
  }

  lemma CreatedInside(block: Block, c: Key)
    requires c.Cell?
    ensures IsCreated(block, c) ==> c.tx < |block.txs|
  {
  }

  lemma HistoryMatches(db: Db, log: Log, block: Block, watch: set<Watch>, k: Key)
    requires ValidLog(log + Positions(block)) && TablesMatch(db, log, watch) && k.History? && WatchOf(k) in watch
    ensures Get(Filtered(db, watch, block), k) == Expected(log + Positions(block), watch, k)
       <==> (InputNames(db, block, k) <==> InputSpends(log, block, k))
  {
    hide ValidLog, Filtered, Names, SpendsWatched, Resolve;
    var n := |block.txs|;
    assert Positions(block)[..n] == Positions(block);
    FilteredIsApplied(db, watch, block);
    HistoryAfter(db, watch, block, n, k);
    HistoryExpected(log, block, n, k);
    assert Get(db, k) == Expected(log, watch, k);
    if k.block == block.number && k.tx < n {
      TxHasPlace(log, block, k.tx);
      NothingThereYet(log, block, k);
    }
  }

  /** The chain before the block has nothing at a position of the block. */
  lemma NothingThereYet(log: Log, block: Block, k: Key)
    requires ValidLog(log + Positions(block)) && IsIndexKey(k) && k.block == block.number && k.tx < |block.txs|
    ensures Expect(log, k).None?
  {
    hide ValidLog, FindAt;
    var l := log + Positions(block)[..k.tx];
    TxHasPlace(log, block, k.tx);
    CurIsFresh(l, Positions(block)[k.tx]);
    if FindAt(log, k.block, k.tx).Some? {
      FoundThere(log, k.block, k.tx);
      FoundIn(l, FindAt(log, k.block, k.tx).value);
    }
  }

  lemma {:induction false} FoundThere(log: Log, block: nat, index: nat)
    requires FindAt(log, block, index).Some?
    ensures var p := FindAt(log, block, index).value; p in log && p.block == block && p.index == index
  {
    if !(log[|log| - 1].block == block && log[|log| - 1].index == index) {
      FoundThere(log[..|log| - 1], block, index);
    }
  }

  lemma UnwatchedMatches(db: Db, log: Log, block: Block, watch: set<Watch>, k: Key)
    requires TablesMatch(db, log, watch) && IsIndexKey(k) && WatchOf(k) !in watch
    ensures Get(Filtered(db, watch, block), k) == Expected(log + Positions(block), watch, k)
  {
    hide Filtered;
    FilteredIsApplied(db, watch, block);
    BlockLeavesUnwatched(db, watch, block, |block.txs|, k);
    assert Get(db, k) == Expected(log, watch, k);
  }

  lemma {:induction false} BlockLeavesUnwatched(db: Db, watch: set<Watch>, block: Block, t: nat, k: Key)
    requires t <= |block.txs| && IsIndexKey(k) && WatchOf(k) !in watch
    ensures Get(Apply(db, BlockOps(db, watch, block, t)), k) == Get(db, k)
  {
    hide TxOps;
    if t > 0 {
      var u := t - 1;
      var v, cur := Apply(db, BlockOps(db, watch, block, u)), Placed(block.number, u, block.txs[u]);
      BlockLeavesUnwatched(db, watch, block, u, k);
      ApplyConcat(db, BlockOps(db, watch, block, u), TxOps(db, watch, block, u));
      TxSplits(v, db, watch, block, u);
      InputsLeaveUnwatched(v, db, watch, Seen(block, u), cur, |cur.tx.inputs|, k);
      var v' := Apply(v, InputsOps(db, watch, Seen(block, u), cur, |cur.tx.inputs|));
      OutputsLeaveUnwatched(v', watch, cur, |cur.tx.outputs|, k);
    }
  }

  lemma {:induction false} InputsLeaveUnwatched(v: Db, db: Db, watch: set<Watch>, seen: map<Hash, Placed>, cur: Placed,
                                                n: nat, k: Key)
    requires n <= |cur.tx.inputs| && IsIndexKey(k) && WatchOf(k) !in watch
    ensures Get(Apply(v, InputsOps(db, watch, seen, cur, n)), k) == Get(v, k)
  {
    hide InputOps;
    if n > 0 {
      InputsLeaveUnwatched(v, db, watch, seen, cur, n - 1, k);
      ApplyConcat(v, InputsOps(db, watch, seen, cur, n - 1), InputOps(db, watch, seen, cur, n - 1));
      InputEffect(Apply(v, InputsOps(db, watch, seen, cur, n - 1)), db, watch, seen, cur, n - 1, k);
    }
  }

  lemma {:induction false} OutputsLeaveUnwatched(v: Db, watch: set<Watch>, cur: Placed, n: nat, k: Key)
    requires n <= |cur.tx.outputs| && IsIndexKey(k) && WatchOf(k) !in watch
    ensures Get(Apply(v, OutputsOps(watch, cur, n)), k) == Get(v, k)
  {
    hide OutputOps;
    if n > 0 {
      OutputsLeaveUnwatched(v, watch, cur, n - 1, k);
      ApplyConcat(v, OutputsOps(watch, cur, n - 1), OutputOps(watch, cur, n - 1));
      OutputEffect(Apply(v, OutputsOps(watch, cur, n - 1)), watch, cur, n - 1, k);
    }
  }

  /**
   Whatever transactions are stored, filtering a block refines the replay of the chain if and only if the
   lookups recognise the spends and hit the cells that the chain has.
   */
  lemma RefilteringIsExact(db: Db, log: Log, block: Block, watch: set<Watch>)
    requires ValidLog(log + Positions(block)) && TablesMatch(db, log, watch)
    ensures TablesMatch(Filtered(db, watch, block), log + Positions(block), watch)
       <==> SpendsAreTrue(db, log, block, watch) && HitsAreTrue(db, log, block, watch)
  {
    hide ValidLog, Filtered, IsHit, IsReferred, IsCreated, InputNames, InputSpends, Expect;
    var db', full := Filtered(db, watch, block), log + Positions(block);
    forall k: Key | IsIndexKey(k)
      ensures Get(db', k) == Expected(full, watch, k) <==>
                (WatchOf(k) in watch ==>
                   if k.History? then InputNames(db, block, k) <==> InputSpends(log, block, k)
                   else CellIsTrue(db, log, block, k))
    {
      if WatchOf(k) !in watch {
        UnwatchedMatches(db, log, block, watch, k);
      } else if k.History? {
        HistoryMatches(db, log, block, watch, k);
      } else {
        CellsMatch(db, log, block, watch, k);
      }
    }
  }

  // Who is misled

  /**
   A misled input refers to a transaction that was left behind: it has come back in the input's own block, at
   another position, or it has not come back at all.
   */
  lemma MisledWithinBlock(db: Db, log: Log, block: Block, watch: set<Watch>, t: nat, a: nat)
    requires t < |block.txs| && a < |block.txs[t].inputs| && ValidLog(log + Positions(block))
    requires StoredRight(db, log, watch) && StoredSame(db, log + Positions(block))
              && IsMisled(db, log, block, watch, t, a)
    ensures var h := block.txs[t].inputs[a].hash;
            var q := FindTx(log + Positions(block)[..t], h);
            && GetTransaction(db, h).Some? && q != GetTransaction(db, h)
            && (q.Some? ==> q.value in Positions(block)[..t])
  {
    hide ValidLog, FindTx;
    var p := block.txs[t].inputs[a];
    var l := log + Positions(block)[..t];
    TxHasPlace(log, block, t);
    if FindTx(l, p.hash).Some? {
      FindTxIsThere(l, p.hash);
      var q := FindTx(l, p.hash).value;
      var w :| w in watch && Names(GetTransaction(db, p.hash), p, w);
      assert q in log + Positions(block);
      assert Carries(q.tx.outputs[p.index], w);
      assert q in log ==> Relevant(log, q, watch);
    }
  }

  /** The transaction that one input finds stands where the chain has the one that another input spends. */
  ghost predicate TakesPlace(db: Db, log: Log, block: Block, t: nat, a: nat, u: nat, b: nat)
    requires t < |block.txs| && a < |block.txs[t].inputs| && u < |block.txs| && b < |block.txs[u].inputs|
  {
    var q, r := FindTx(log + Positions(block)[..t], block.txs[t].inputs[a].hash),
        GetTransaction(db, block.txs[u].inputs[b].hash);
    q.Some? && r.Some? && r.value.block == q.value.block && r.value.index == q.value.index
  }

  /** No two misled inputs make up for each other. */
  ghost predicate NobodySwaps(db: Db, log: Log, block: Block, watch: set<Watch>) {
    forall t, a, u, b ::
      && 0 <= t < |block.txs| && 0 <= a < |block.txs[t].inputs| && 0 <= u < |block.txs|
          && 0 <= b < |block.txs[u].inputs|
      && IsMisled(db, log, block, watch, t, a) && IsMisled(db, log, block, watch, u, b)
      ==> !TakesPlace(db, log, block, t, a, u, b)
  }

  /** A misled input is the only one to refer to its cell, and nobody else hits the cell in its place. */
  lemma NobodyHitsInstead(db: Db, log: Log, block: Block, watch: set<Watch>, t: nat, a: nat, u: nat, b: nat, c: Key)
    requires t < |block.txs| && a < |block.txs[t].inputs| && u < |block.txs| && b < |block.txs[u].inputs|
    requires ValidLog(log + Positions(block)) && StoredRight(db, log, watch) && StoredSame(db, log + Positions(block))
    requires NobodySwaps(db, log, block, watch) && IsMisled(db, log, block, watch, t, a)
    requires c.Cell? && WatchOf(c) in watch && Refers(log, block, t, a, c)
    ensures !Hits(db, block, u, b, c)
  {
    hide ValidLog, FindTx, FindAt, StoredRight, StoredSame, NobodySwaps;
    if Hits(db, block, u, b, c) {
      var q := FindTx(log + Positions(block)[..t], block.txs[t].inputs[a].hash).value;
      if IsMisled(db, log, block, watch, u, b) {
        MisledTakesPlace(db, log, block, watch, t, a, u, b, c);
      } else {
        LookupResolves(db, log, watch, block, u, b);
        assert Refers(log, block, u, b, c);
        SamePlaceSameHash(log, block, t, a, u, b, c);
      }
    }
  }

  /** A misled input that hits the cell of another one has swapped places with it. */
  lemma MisledTakesPlace(db: Db, log: Log, block: Block, watch: set<Watch>, t: nat, a: nat, u: nat, b: nat, c: Key)
    requires t < |block.txs| && a < |block.txs[t].inputs| && u < |block.txs| && b < |block.txs[u].inputs| && c.Cell?
    requires IsMisled(db, log, block, watch, t, a) && IsMisled(db, log, block, watch, u, b)
    requires Hits(db, block, u, b, c) && Refers(log, block, t, a, c)
    ensures !NobodySwaps(db, log, block, watch)
  {
    hide FindTx;
    assert TakesPlace(db, log, block, t, a, u, b);
  }

  /** Inputs that refer to one cell name one transaction. */
  lemma SamePlaceSameHash(log: Log, block: Block, t: nat, a: nat, u: nat, b: nat, c: Key)
    requires t < |block.txs| && a < |block.txs[t].inputs| && u < |block.txs| && b < |block.txs[u].inputs| && c.Cell?
    requires ValidLog(log + Positions(block)) && Refers(log, block, t, a, c) && Refers(log, block, u, b, c)
    ensures block.txs[t].inputs[a].hash == block.txs[u].inputs[b].hash
    ensures FindTx(log + Positions(block)[..t], block.txs[t].inputs[a].hash)
         == FindTx(log + Positions(block)[..u], block.txs[u].inputs[b].hash)
  {
    hide ValidLog, FindTx;
    var full := log + Positions(block);
    var p, q := block.txs[t].inputs[a], block.txs[u].inputs[b];
    FindTxIsThere(log + Positions(block)[..t], p.hash);
    FindTxIsThere(log + Positions(block)[..u], q.hash);
    assert full == log + Positions(block)[..t] + Positions(block)[t..];
    assert full == log + Positions(block)[..u] + Positions(block)[u..];
    FoundIn(full, FindTx(log + Positions(block)[..t], p.hash).value);
    FoundIn(full, FindTx(log + Positions(block)[..u], q.hash).value);
  }

  /**
   A misled input whose transaction the chain has creates the cell in its block; the cell is referred to, but
   not hit.
   */
  lemma MisledLeavesCell(db: Db, log: Log, block: Block, watch: set<Watch>, t: nat, a: nat)
    requires t < |block.txs| && a < |block.txs[t].inputs| && IsMisled(db, log, block, watch, t, a)
    requires ValidLog(log + Positions(block)) && StoredRight(db, log, watch) && StoredSame(db, log + Positions(block))
    requires NobodySwaps(db, log, block, watch)
    requires FindTx(log + Positions(block)[..t], block.txs[t].inputs[a].hash).Some?
    ensures !HitsAreTrue(db, log, block, watch)
  {
    hide ValidLog, FindTx, FindAt, StoredRight, NobodySwaps, Hits;
    var p := block.txs[t].inputs[a];
    var l := log + Positions(block)[..t];
    var q := FindTx(l, p.hash).value;
    var w :| w in watch && Names(GetTransaction(db, p.hash), p, w);
    var c := Cell(w.kind, w.script, q.block, q.index, p.index);
    assert WatchOf(c) == w;
    MisledWithinBlock(db, log, block, watch, t, a);
    FindTxIsThere(l, p.hash);
    assert q in log + Positions(block);
    assert IsCreated(block, c);
    assert Refers(log, block, t, a, c);
    assert IsReferred(log, block, |block.txs|, c);
    forall u, b | 0 <= u < |block.txs| && 0 <= b < |block.txs[u].inputs| ensures !Hits(db, block, u, b, c) {
      NobodyHitsInstead(db, log, block, watch, t, a, u, b, c);
    }
    assert !IsHit(db, block, |block.txs|, c);
    assert !CellIsTrue(db, log, block, c);
  }

  /** A misled input whose transaction the chain does not have is recorded as a spend that the chain does not have. */
  lemma MisledRecordsSpend(db: Db, log: Log, block: Block, watch: set<Watch>, t: nat, a: nat)
    requires t < |block.txs| && a < |block.txs[t].inputs| && IsMisled(db, log, block, watch, t, a)
    requires FindTx(log + Positions(block)[..t], block.txs[t].inputs[a].hash).None?
    ensures !SpendsAreTrue(db, log, block, watch)
  {
    hide FindTx;
    var p := block.txs[t].inputs[a];
    var w :| w in watch && Names(GetTransaction(db, p.hash), p, w);
    var k := History(w.kind, w.script, block.number, t, a, false);
    assert WatchOf(k) == w;
    assert InputNames(db, block, k) && !InputSpends(log, block, k);
  }

  /**
   Unless misled inputs make up for each other by swapped places, filtering a block after a rollback refines the
   replay of the new chain if and only if it misleads nobody.
   */
  lemma RefiltersExactlyUnlessMisled(db: Db, log: Log, block: Block, watch: set<Watch>)
    requires ValidLog(log + Positions(block)) && Indexed(db, log, watch) && StoredSame(db, log + Positions(block))
    requires NobodySwaps(db, log, block, watch)
    ensures TablesMatch(Filtered(db, watch, block), log + Positions(block), watch) <==>
              NobodyMisled(db, log, block, watch)
  {
    hide ValidLog, Filtered, StoredSame, NobodySwaps, IsMisled, SpendsAreTrue, HitsAreTrue, TablesMatch, StoredRight;
    if NobodyMisled(db, log, block, watch) {
      FilteringRefinesReplay(db, log, block, watch);
    } else {
      var t, a :| 0 <= t < |block.txs| && 0 <= a < |block.txs[t].inputs| && IsMisled(db, log, block, watch, t, a);
      RefilteringIsExact(db, log, block, watch);
      if FindTx(log + Positions(block)[..t], block.txs[t].inputs[a].hash).Some? {
        MisledLeavesCell(db, log, block, watch, t, a);
      } else {
        MisledRecordsSpend(db, log, block, watch, t, a);
      }
    }
  }

  // An example

  function CoinBlock(lock: Script, x: Hash, y: Hash, z: Hash, hash: Hash): Block {
    var out := Output(lock, None);
    Block(hash, 1, [Tx(x, [], [out]), Tx(y, [], [out]), Tx(z, [OutPoint(y, 0)], [])])
  }

  /** The second transaction of the block is stored, as it stood at another position before a rollback. */
  function LeftBehind(lock: Script, y: Hash): Db {
    map[TxHash(y) := Transaction(1, 0, Tx(y, [], [Output(lock, None)]))]
  }

  function CoinPositions(lock: Script, x: Hash, y: Hash, z: Hash): Log {
    var out := Output(lock, None);
    [Placed(1, 0, Tx(x, [], [out])), Placed(1, 1, Tx(y, [], [out])), Placed(1, 2, Tx(z, [OutPoint(y, 0)], []))]
  }

  lemma CoinsAreAt(lock: Script, x: Hash, y: Hash, z: Hash, hash: Hash)
    ensures [] + Positions(CoinBlock(lock, x, y, z, hash)) == CoinPositions(lock, x, y, z)
  {
    var block, ps := CoinBlock(lock, x, y, z, hash), CoinPositions(lock, x, y, z);
    forall t | 0 <= t < 3 ensures Positions(block)[t] == ps[t] {
      assert block.txs[t] == ps[t].tx;
    }
    assert Positions(block) == ps;
  }

  lemma CoinsAreValid(lock: Script, x: Hash, y: Hash, z: Hash)
    requires x != y && y != z && x != z
    ensures ValidLog(CoinPositions(lock, x, y, z))
  {
    var ps := CoinPositions(lock, x, y, z);
    forall i, j | 0 <= i < j < |ps| ensures Precedes(ps[i], ps[j]) && ps[i].tx.hash != ps[j].tx.hash {
      assert ps[i].index == i && ps[j].index == j;
    }
  }

  lemma CoinsAreSame(lock: Script, x: Hash, y: Hash, z: Hash)
    requires x != y && y != z && x != z
    ensures StoredSame(LeftBehind(lock, y), CoinPositions(lock, x, y, z))
  {
    var ps := CoinPositions(lock, x, y, z);
    forall h: Hash, p | GetTransaction(LeftBehind(lock, y), h).Some? && p in ps && p.tx.hash == h
      ensures GetTransaction(LeftBehind(lock, y), h).value.tx == p.tx
    {
      assert h == y && p == ps[1];
    }
  }

  lemma LeftBehindIsIndexed(lock: Script, y: Hash)
    ensures Indexed(LeftBehind(lock, y), [], {Watch(Lock, lock)})
  {
  }

  /** The chain has the spent transaction at its new position. */
  lemma CoinIsAt(lock: Script, x: Hash, y: Hash, z: Hash, hash: Hash)
    requires x != y && y != z && x != z
    ensures var block := CoinBlock(lock, x, y, z, hash);
            FindTx([] + Positions(block)[..2], y) == Some(Placed(1, 1, Tx(y, [], [Output(lock, None)])))
  {
    hide Positions;
    CoinsAreAt(lock, x, y, z, hash);
    var ps := CoinPositions(lock, x, y, z);
    assert [] + Positions(CoinBlock(lock, x, y, z, hash))[..2] == ps[..2] == [ps[0], ps[1]];
  }

  /**
   A transaction that a rollback left behind at (1, 0) comes back at (1, 1), and its output is spent in the same
   block: the lookup hits the old position, and the spent cell stays live.
   */
  lemma MisledExample(lock: Script, x: Hash, y: Hash, z: Hash, hash: Hash)
    requires x != y && y != z && x != z
    ensures var (db, block, watch) := (LeftBehind(lock, y), CoinBlock(lock, x, y, z, hash), {Watch(Lock, lock)});
            var c := Cell(Lock, lock, 1, 1, 0);
            && ValidLog([] + Positions(block)) && Indexed(db, [], watch) && StoredSame(db, [] + Positions(block))
            && IsMisled(db, [], block, watch, 2, 0)
            && Get(Filtered(db, watch, block), c) == Some(Ref(y))
            && Expected([] + Positions(block), watch, c) == None
  {
    hide ValidLog, FindTx, StoredSame, Filtered, Indexed, Expect;
    var (db, block, watch) := (LeftBehind(lock, y), CoinBlock(lock, x, y, z, hash), {Watch(Lock, lock)});
    var c := Cell(Lock, lock, 1, 1, 0);
    CoinsAreAt(lock, x, y, z, hash);
    CoinsAreValid(lock, x, y, z);
    CoinsAreSame(lock, x, y, z);
    LeftBehindIsIndexed(lock, y);
    CoinIsAt(lock, x, y, z, hash);
    var p := block.txs[2].inputs[0];
    assert p == OutPoint(y, 0) && GetTransaction(db, y) == Some(Placed(1, 0, Tx(y, [], [Output(lock, None)])));
    assert Names(GetTransaction(db, y), p, Watch(Lock, lock));
    assert IsCreated(block, c) && !IsHit(db, block, 3, c);
    assert Refers([], block, 2, 0, c);
    assert Positions(block)[..3] == Positions(block);
    CellAfter(db, watch, block, 3, c);
    FilteredIsApplied(db, watch, block);
    CellExpected([], block, 3, c);
  }

  // An example of misled inputs that make up for each other

  /** Two coins, and a transaction that spends both. */
  function SwapBlock(lock: Script, x: Hash, y: Hash, z: Hash, hash: Hash): Block {
    var out := Output(lock, None);
    Block(hash, 1, [Tx(x, [], [out]), Tx(y, [], [out]), Tx(z, [OutPoint(x, 0), OutPoint(y, 0)], [])])
  }

  /** The coins are stored in the opposite order. */
  function LeftSwapped(lock: Script, x: Hash, y: Hash): Db {
    var out := Output(lock, None);
    map[TxHash(x) := Transaction(1, 1, Tx(x, [], [out])), TxHash(y) := Transaction(1, 0, Tx(y, [], [out]))]
  }

  lemma SwapsAreValid(lock: Script, x: Hash, y: Hash, z: Hash, hash: Hash)
    requires x != y && y != z && x != z
    ensures var ps := [] + Positions(SwapBlock(lock, x, y, z, hash));
            ValidLog(ps) && StoredSame(LeftSwapped(lock, x, y), ps)
  {
    var block, db := SwapBlock(lock, x, y, z, hash), LeftSwapped(lock, x, y);
    var ps := [] + Positions(block);
    assert forall i :: 0 <= i < 3 ==> ps[i] == Placed(1, i, block.txs[i]);
    forall h: Hash, p | GetTransaction(db, h).Some? && p in ps && p.tx.hash == h
      ensures GetTransaction(db, h).value.tx == p.tx
    {
      assert h == x || h == y;
      assert h == x ==> p == ps[0];
      assert h == y ==> p == ps[1];
    }
  }

  lemma SwapsAreAt(lock: Script, x: Hash, y: Hash, z: Hash, hash: Hash)
    requires x != y
    ensures var block := SwapBlock(lock, x, y, z, hash);
            && FindTx([] + Positions(block)[..2], x) == Some(Placed(1, 0, block.txs[0]))
            && FindTx([] + Positions(block)[..2], y) == Some(Placed(1, 1, block.txs[1]))
  {
    var block := SwapBlock(lock, x, y, z, hash);
    var ps := Positions(block);
    assert [] + ps[..2] == [ps[0], ps[1]] && [ps[0], ps[1]][..1] == [ps[0]];
    assert FindTx([ps[0]], x) == Some(ps[0]);
  }

  /** Both inputs are misled, each hits the cell of the other, and the index is right. */
  lemma SwapExample(lock: Script, x: Hash, y: Hash, z: Hash, hash: Hash)
    requires x != y && y != z && x != z
    ensures var (db, block, watch) := (LeftSwapped(lock, x, y), SwapBlock(lock, x, y, z, hash), {Watch(Lock, lock)});
            && ValidLog([] + Positions(block)) && Indexed(db, [], watch) && StoredSame(db, [] + Positions(block))
            && IsMisled(db, [], block, watch, 2, 0) && IsMisled(db, [], block, watch, 2, 1)
            && TablesMatch(Filtered(db, watch, block), [] + Positions(block), watch)
  {
    hide ValidLog, FindTx, StoredSame, Filtered, Expect, Positions, TablesMatch;
    var (db, block, watch) := (LeftSwapped(lock, x, y), SwapBlock(lock, x, y, z, hash), {Watch(Lock, lock)});
    SwapsAreValid(lock, x, y, z, hash);
    SwapsAreAt(lock, x, y, z, hash);
    SwappedIsIndexed(lock, x, y);
    var w := Watch(Lock, lock);
    assert Names(GetTransaction(db, x), OutPoint(x, 0), w) && Names(GetTransaction(db, y), OutPoint(y, 0), w);
    SwapSpends(lock, x, y, z, hash);
    forall c: Key | c.Cell? && WatchOf(c) in watch ensures CellIsTrue(db, [], block, c) {
      SwapHits(lock, x, y, z, hash, c);
    }
    RefilteringIsExact(db, [], block, watch);
  }

  lemma SwappedIsIndexed(lock: Script, x: Hash, y: Hash)
    ensures Indexed(LeftSwapped(lock, x, y), [], {Watch(Lock, lock)})
  {
  }

  lemma SwapSpends(lock: Script, x: Hash, y: Hash, z: Hash, hash: Hash)
    requires x != y
    ensures SpendsAreTrue(LeftSwapped(lock, x, y), [], SwapBlock(lock, x, y, z, hash), {Watch(Lock, lock)})
  {
    hide FindTx, Positions;
    SwapsAreAt(lock, x, y, z, hash);
  }

  lemma SwapHits(lock: Script, x: Hash, y: Hash, z: Hash, hash: Hash, c: Key)
    requires x != y && c.Cell? && WatchOf(c) == Watch(Lock, lock)
    ensures CellIsTrue(LeftSwapped(lock, x, y), [], SwapBlock(lock, x, y, z, hash), c)
  {
    hide FindTx, Positions;
    var db, block := LeftSwapped(lock, x, y), SwapBlock(lock, x, y, z, hash);
    SwapsAreAt(lock, x, y, z, hash);
    if IsCreated(block, c) {
      var a := if c.tx == 0 then 1 else 0;
      assert Hits(db, block, 2, a, c);
      assert Refers([], block, 2, 1 - a, c);
    }
  }
}
