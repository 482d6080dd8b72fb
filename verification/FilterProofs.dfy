/** Filtering a block keeps the index equal to what the chain log says: a refinement of naive replay. */
module FilterProofs {
  import opened Options
  import opened Keys
  import opened Chain
  import opened Index

  /** A transaction of which only the first `a` inputs and `o` outputs have been looked at. */
  function Part(p: Placed, a: nat, o: nat): Placed
    requires a <= |p.tx.inputs| && o <= |p.tx.outputs|
  {
    p.(tx := p.tx.(inputs := p.tx.inputs[..a], outputs := p.tx.outputs[..o]))
  }

  lemma AppendLookups(log: Log, q: Placed)
    ensures forall h: Hash :: FindTx(log + [q], h) == if q.tx.hash == h then Some(q) else FindTx(log, h)
    ensures forall b: nat, t: nat :: FindAt(log + [q], b, t) == if q.block == b && q.index == t then Some(q)
              else FindAt(log, b, t)
  {
    assert (log + [q])[..|log|] == log;
  }

  lemma AppendSpent(log: Log, q: Placed, p: OutPoint)
    ensures SpentIn(log + [q], p) <==> SpentIn(log, p) || p in q.tx.inputs
  {
    var l := log + [q];
    if SpentIn(log, p) {
      var i, a :| 0 <= i < |log| && 0 <= a < |log[i].tx.inputs| && log[i].tx.inputs[a] == p;
      assert l[i].tx.inputs[a] == p;
    }
    if p in q.tx.inputs {
      var a :| 0 <= a < |q.tx.inputs| && q.tx.inputs[a] == p;
      assert l[|log|].tx.inputs[a] == p;
    }
    if SpentIn(l, p) {
      var i, a :| 0 <= i < |l| && 0 <= a < |l[i].tx.inputs| && l[i].tx.inputs[a] == p;
      assert i < |log| ==> log[i].tx.inputs[a] == p;
    }
  }

  /** `cur` extends the log validly. */
  ghost predicate Extends(log: Log, cur: Placed) {
    ValidLog(log + [cur])
  }

  /** Nothing in the log, nor `cur` itself, refers to `cur`; its hash and position are new. */
  lemma CurIsFresh(log: Log, cur: Placed)
    requires Extends(log, cur)
    ensures ValidLog(log)
    ensures forall p: OutPoint :: p.hash == cur.tx.hash ==> !SpentIn(log, p) && p !in cur.tx.inputs
    ensures FindTx(log, cur.tx.hash).None? && FindAt(log, cur.block, cur.index).None?
  {
    var l := log + [cur];
    assert l[|log|] == cur && l[..|log|] == log;
    ValidPrefix(l, |log|);
    forall p: OutPoint | p.hash == cur.tx.hash ensures !SpentIn(log, p) && p !in cur.tx.inputs {
      forall i, a | 0 <= i < |log| && 0 <= a < |log[i].tx.inputs| ensures log[i].tx.inputs[a] != p {
        assert l[i].tx.inputs[a].hash == l[|log|].tx.hash ==> |log| < i;
      }
      forall a | 0 <= a < |cur.tx.inputs| ensures cur.tx.inputs[a] != p {
        assert l[|log|].tx.inputs[a].hash == l[|log|].tx.hash ==> |log| < |log|;
      }
    }
    assert forall i :: 0 <= i < |log| ==>
      l[i] == log[i] && Precedes(l[i], l[|log|]) && l[i].tx.hash != l[|log|].tx.hash;
  }

  /** The expected content under a key once a part of `cur` has been appended, in terms of the log before it. */
  ghost function ExpectAppended(log: Log, cur: Placed, a: nat, o: nat, k: Key): Option<Hash>
    requires a <= |cur.tx.inputs| && o <= |cur.tx.outputs| && IsIndexKey(k)
  {
    if k.block == cur.block && k.tx == cur.index then
      if k.Cell? || k.output then
        if k.io < o && Carries(cur.tx.outputs[k.io], WatchOf(k)) then Some(cur.tx.hash) else None
      else
        if k.io < a && SpendsWatched(log, cur.tx.inputs[k.io], WatchOf(k)) then Some(cur.tx.hash) else None
    else if k.Cell? && SpentByPart(log, cur, a, k) then None
    else Expect(log, k)
  }

  ghost predicate SpentByPart(log: Log, cur: Placed, a: nat, k: Key)
    requires a <= |cur.tx.inputs| && k.Cell?
  {
    var p := FindAt(log, k.block, k.tx);
    p.Some? && OutPoint(p.value.tx.hash, k.io) in cur.tx.inputs[..a]
  }

  lemma ExpectAppend(log: Log, cur: Placed, a: nat, o: nat, k: Key)
    requires Extends(log, cur) && a <= |cur.tx.inputs| && o <= |cur.tx.outputs| && IsIndexKey(k)
    ensures Expect(log + [Part(cur, a, o)], k) == ExpectAppended(log, cur, a, o, k)
  {
    hide FindTx, FindAt, ValidLog, SpentIn;
    var q := Part(cur, a, o);
    AppendLookups(log, q);
    CurIsFresh(log, cur);
    if k.block == cur.block && k.tx == cur.index {
      AppendSpent(log, q, OutPoint(cur.tx.hash, k.io));
      if k.History? && !k.output && k.io < a {
        assert q.tx.inputs[k.io] == cur.tx.inputs[k.io] && cur.tx.inputs[k.io] in cur.tx.inputs;
      }
    } else {
      var p := FindAt(log, k.block, k.tx);
      if p.Some? {
        AppendSpent(log, q, OutPoint(p.value.tx.hash, k.io));
        if k.History? && !k.output && k.io < |p.value.tx.inputs| {
          InputIsSpent(log, p.value, k.io);
        }
      }
    }
  }

  lemma InputIsSpent(log: Log, p: Placed, a: nat)
    requires p in log && a < |p.tx.inputs|
    ensures SpentIn(log, p.tx.inputs[a])
  {
    var i :| 0 <= i < |log| && log[i] == p;
  }

  // What a batch does to one key

  lemma ApplySpendOne(v: Db, watch: set<Watch>, w: Watch, prev: Placed, index: nat, cur: Placed, a: nat, k: Key)
    requires IsIndexKey(k)
    ensures var ops := SpendOne(watch, w, prev, index, cur, a);
            Get(Apply(v, ops), k)
            == if w in watch && k == Cell(w.kind, w.script, prev.block, prev.index, index) then None
               else if w in watch && k == History(w.kind, w.script, cur.block, cur.index, a, false) then
                   Some(Ref(cur.tx.hash))
               else Get(v, k)
  {
    if w in watch {
      ApplyThree(v, SpendOne(watch, w, prev, index, cur, a));
    }
  }

  lemma ApplyThree(v: Db, ops: seq<Op>)
    requires |ops| == 3
    ensures Apply(v, ops) == ApplyOne(ApplyOne(ApplyOne(v, ops[0]), ops[1]), ops[2])
  {
    assert Apply(v, ops[..1]) == ApplyOne(v, ops[0]) by {
      assert ops[..1][..0] == [];
    }
    assert ops[..2][..1] == ops[..1];
  }

  lemma ApplyCreateOne(v: Db, watch: set<Watch>, w: Watch, cur: Placed, o: nat, k: Key)
    requires IsIndexKey(k)
    ensures Get(Apply(v, CreateOne(watch, w, cur, o)), k)
         == if w in watch && (k == Cell(w.kind, w.script, cur.block, cur.index, o)
                              || k == History(w.kind, w.script, cur.block, cur.index, o, true))
            then Some(Ref(cur.tx.hash)) else Get(v, k)
  {
    if w in watch {
      ApplyThree(v, CreateOne(watch, w, cur, o));
    }
  }

  /** One input deletes the cells it spends and records the spend, for the registered scripts of the output. */
  lemma InputEffect(v: Db, db: Db, watch: set<Watch>, seen: map<Hash, Placed>, cur: Placed, a: nat, k: Key)
    requires a < |cur.tx.inputs| && IsIndexKey(k)
    ensures var p := cur.tx.inputs[a];
            var r := Resolve(db, seen, p.hash);
            var hit := r.Some? && p.index < |r.value.tx.outputs| && WatchOf(k) in watch
                       && Carries(r.value.tx.outputs[p.index], WatchOf(k));
            Get(Apply(v, InputOps(db, watch, seen, cur, a)), k)
            == if hit && k.Cell? && k.block == r.value.block && k.tx == r.value.index && k.io == p.index then None
               else if hit && k == History(k.kind, k.script, cur.block, cur.index, a, false) then Some(Ref(cur.tx.hash))
               else Get(v, k)
  {
    var p := cur.tx.inputs[a];
    var r := Resolve(db, seen, p.hash);
    if r.Some? && p.index < |r.value.tx.outputs| {
      var out := r.value.tx.outputs[p.index];
      var first := SpendOne(watch, Watch(Lock, out.lock), r.value, p.index, cur, a);
      ApplySpendOne(v, watch, Watch(Lock, out.lock), r.value, p.index, cur, a, k);
      if out.type_.Some? {
        var second := SpendOne(watch, Watch(Type, out.type_.value), r.value, p.index, cur, a);
        ApplyConcat(v, first, second);
        ApplySpendOne(Apply(v, first), watch, Watch(Type, out.type_.value), r.value, p.index, cur, a, k);
      } else {
        assert first + [] == first;
      }
    }
  }

  lemma OutputEffect(v: Db, watch: set<Watch>, cur: Placed, o: nat, k: Key)
    requires o < |cur.tx.outputs| && IsIndexKey(k)
    ensures Get(Apply(v, OutputOps(watch, cur, o)), k)
         == if WatchOf(k) in watch && Carries(cur.tx.outputs[o], WatchOf(k))
               && k.block == cur.block && k.tx == cur.index && k.io == o && (k.Cell? || k.output)
            then Some(Ref(cur.tx.hash)) else Get(v, k)
  {
    var out := cur.tx.outputs[o];
    var first := CreateOne(watch, Watch(Lock, out.lock), cur, o);
    ApplyCreateOne(v, watch, Watch(Lock, out.lock), cur, o, k);
    if out.type_.Some? {
      var second := CreateOne(watch, Watch(Type, out.type_.value), cur, o);
      ApplyConcat(v, first, second);
      ApplyCreateOne(Apply(v, first), watch, Watch(Type, out.type_.value), cur, o, k);
    } else {
      assert first + [] == first;
    }
  }

  // Looking up the spent output

  /** The transaction has the output that the out point names, and it carries the script. */
  predicate Names(r: Option<Placed>, p: OutPoint, w: Watch) {
    r.Some? && p.index < |r.value.tx.outputs| && Carries(r.value.tx.outputs[p.index], w)
  }

  /** The lookups of a transaction resolve to the log, as far as outputs with registered scripts are concerned. */
  ghost predicate ResolvesTo(db: Db, seen: map<Hash, Placed>, log: Log, cur: Placed, watch: set<Watch>) {
    forall a :: 0 <= a < |cur.tx.inputs| ==> ResolvesInput(db, seen, log, cur.tx.inputs[a], watch)
  }

  ghost predicate ResolvesInput(db: Db, seen: map<Hash, Placed>, log: Log, p: OutPoint, watch: set<Watch>) {
    forall w :: w in watch && (Names(Resolve(db, seen, p.hash), p, w) || Names(FindTx(log, p.hash), p, w)) ==>
      Resolve(db, seen, p.hash) == FindTx(log, p.hash)
  }

  lemma {:induction false} SeenIsPositions(block: Block, t: nat)
    requires t <= |block.txs|
    ensures forall h: Hash :: h in Seen(block, t) ==>
              Seen(block, t)[h] in Positions(block)[..t] && Seen(block, t)[h].tx.hash == h
    ensures forall j :: 0 <= j < t ==> block.txs[j].hash in Seen(block, t)
  {
    if t > 0 {
      SeenIsPositions(block, t - 1);
      assert Positions(block)[..t] == Positions(block)[..t - 1] + [Positions(block)[t - 1]];
    }
  }

  lemma FoundIn(log: Log, p: Placed)
    requires ValidLog(log) && p in log
    ensures FindTx(log, p.tx.hash) == Some(p)
    ensures FindAt(log, p.block, p.index) == Some(p)
  {
    var i :| 0 <= i < |log| && log[i] == p;
    FindTxAt(log, i);
    FindAtAt(log, i);
  }

  /** What an input refers to precedes its transaction. */
  lemma RefersBack(log: Log, i: nat, a: nat, p: Placed)
    requires ValidLog(log) && i < |log| && a < |log[i].tx.inputs|
    requires p in log && p.tx.hash == log[i].tx.inputs[a].hash
    ensures p in log[..i]
  {
    var j :| 0 <= j < |log| && log[j] == p;
    assert log[..i][j] == p;
  }

  /**
   An input of the block is misled: the database holds the transaction it refers to, with a registered script on
   the output it spends, but at another position than the chain has it, or the chain does not have it.
   */
  ghost predicate IsMisled(db: Db, log: Log, block: Block, watch: set<Watch>, t: nat, a: nat)
    requires t < |block.txs| && a < |block.txs[t].inputs|
  {
    var p := block.txs[t].inputs[a];
    && (exists w :: w in watch && Names(GetTransaction(db, p.hash), p, w))
    && FindTx(log + Positions(block)[..t], p.hash) != GetTransaction(db, p.hash)
  }

  ghost predicate NobodyMisled(db: Db, log: Log, block: Block, watch: set<Watch>) {
    forall t, a :: 0 <= t < |block.txs| && 0 <= a < |block.txs[t].inputs| ==> !IsMisled(db, log, block, watch, t, a)
  }

  lemma LookupsResolve(db: Db, log: Log, watch: set<Watch>, block: Block, t: nat)
    requires t < |block.txs| && ValidLog(log + Positions(block))
    requires StoredRight(db, log, watch) && StoredSame(db, log + Positions(block))
              && NobodyMisled(db, log, block, watch)
    ensures ResolvesTo(db, Seen(block, t), log + Positions(block)[..t], Positions(block)[t], watch)
  {
    hide FindAt, ValidLog, FindTx, StoredRight, StoredSame, IsMisled, Resolve;
    var cur := Positions(block)[t];
    forall a | 0 <= a < |cur.tx.inputs|
      ensures ResolvesInput(db, Seen(block, t), log + Positions(block)[..t], cur.tx.inputs[a], watch)
    {
      assert !IsMisled(db, log, block, watch, t, a);
      LookupResolves(db, log, watch, block, t, a);
    }
  }

  lemma LookupResolves(db: Db, log: Log, watch: set<Watch>, block: Block, t: nat, a: nat)
    requires t < |block.txs| && a < |block.txs[t].inputs| && ValidLog(log + Positions(block))
    requires StoredRight(db, log, watch) && StoredSame(db, log + Positions(block))
    requires !IsMisled(db, log, block, watch, t, a)
    ensures ResolvesInput(db, Seen(block, t), log + Positions(block)[..t], block.txs[t].inputs[a], watch)
  {
    hide FindAt, ValidLog, FindTx;
    var l, p := log + Positions(block)[..t], block.txs[t].inputs[a];
    ValidPrefix(log + Positions(block), |log| + t);
    assert (log + Positions(block))[..|log| + t] == l;
    if GetTransaction(db, p.hash).Some? {
      if FindTx(l, p.hash).Some? {
        FindTxIsThere(l, p.hash);
      }
    } else {
      UnstoredResolves(db, log, watch, block, t, p);
    }
  }

  lemma {:induction false} FindTxIsThere(log: Log, h: Hash)
    requires FindTx(log, h).Some?
    ensures FindTx(log, h).value in log && FindTx(log, h).value.tx.hash == h
  {
    if log[|log| - 1].tx.hash != h {
      FindTxIsThere(log[..|log| - 1], h);
    }
  }

  /** What the database does not hold is found in the block, or has no registered output. */
  lemma UnstoredResolves(db: Db, log: Log, watch: set<Watch>, block: Block, t: nat, p: OutPoint)
    requires t < |block.txs| && ValidLog(log + Positions(block)[..t])
    requires StoredRight(db, log, watch) && GetTransaction(db, p.hash).None?
    ensures ResolvesInput(db, Seen(block, t), log + Positions(block)[..t], p, watch)
  {
    hide FindAt, ValidLog, FindTx;
    var l := log + Positions(block)[..t];
    SeenIsPositions(block, t);
    if p.hash in Seen(block, t) {
      FoundIn(l, Seen(block, t)[p.hash]);
    } else if FindTx(l, p.hash).Some? {
      FindTxIsThere(l, p.hash);
      var q := FindTx(l, p.hash).value;
      forall j | 0 <= j < t ensures Positions(block)[..t][j] != q {
        assert block.txs[j].hash in Seen(block, t);
      }
      assert q in log && !Relevant(log, q, watch);
    }
  }

  // One input, one output

  ghost predicate MatchesPart(v: Db, log: Log, cur: Placed, a: nat, o: nat, watch: set<Watch>)
    requires a <= |cur.tx.inputs| && o <= |cur.tx.outputs|
  {
    TablesMatch(v, log + [Part(cur, a, o)], watch)
  }

  lemma InputStep(v: Db, db: Db, seen: map<Hash, Placed>, log: Log, cur: Placed, a: nat, watch: set<Watch>)
    requires Extends(log, cur) && a < |cur.tx.inputs| && ResolvesTo(db, seen, log, cur, watch)
    requires MatchesPart(v, log, cur, a, 0, watch)
    ensures MatchesPart(Apply(v, InputOps(db, watch, seen, cur, a)), log, cur, a + 1, 0, watch)
  {
    var v' := Apply(v, InputOps(db, watch, seen, cur, a));
    forall k: Key | IsIndexKey(k) ensures Get(v', k) == Expected(log + [Part(cur, a + 1, 0)], watch, k) {
      assert Get(v, k) == Expected(log + [Part(cur, a, 0)], watch, k);
      ExpectAppend(log, cur, a, 0, k);
      ExpectAppend(log, cur, a + 1, 0, k);
      InputEffect(v, db, watch, seen, cur, a, k);
      if WatchOf(k) in watch {
        InputStepKey(db, seen, log, cur, a, watch, k);
      }
    }
  }

  /** How the expectation under one key changes with one more input. */
  lemma InputStepKey(db: Db, seen: map<Hash, Placed>, log: Log, cur: Placed, a: nat, watch: set<Watch>, k: Key)
    requires Extends(log, cur) && a < |cur.tx.inputs| && ResolvesTo(db, seen, log, cur, watch)
    requires IsIndexKey(k) && WatchOf(k) in watch
    ensures var p := cur.tx.inputs[a];
            var r := Resolve(db, seen, p.hash);
            var hit := r.Some? && p.index < |r.value.tx.outputs| && Carries(r.value.tx.outputs[p.index], WatchOf(k));
            ExpectAppended(log, cur, a + 1, 0, k)
            == if hit && k.Cell? && k.block == r.value.block && k.tx == r.value.index && k.io == p.index then None
               else if hit && k == History(k.kind, k.script, cur.block, cur.index, a, false) then Some(cur.tx.hash)
               else ExpectAppended(log, cur, a, 0, k)
  {
    hide FindTx, FindAt, ValidLog, SpentIn, Resolve;
    var p := cur.tx.inputs[a];
    var r := Resolve(db, seen, p.hash);
    assert ResolvesInput(db, seen, log, p, watch);
    CurIsFresh(log, cur);
    assert SpendsWatched(log, p, WatchOf(k)) <==> Names(FindTx(log, p.hash), p, WatchOf(k));
    assert Names(r, p, WatchOf(k)) <==> Names(FindTx(log, p.hash), p, WatchOf(k));
    assert cur.tx.inputs[..a + 1] == cur.tx.inputs[..a] + [p];
    if k.Cell? && !(k.block == cur.block && k.tx == cur.index) {
      SpentCellKey(log, p, k);
    }
    if k.Cell? && Names(r, p, WatchOf(k)) {
      FindTxIsThere(log, p.hash);
      FoundIn(log, r.value);
    }
  }

  /** The cell that an input spends is the one at the position of the transaction it refers to. */
  lemma SpentCellKey(log: Log, p: OutPoint, k: Key)
    requires ValidLog(log) && k.Cell?
    ensures var at := FindAt(log, k.block, k.tx);
            var prev := FindTx(log, p.hash);
            at.Some? && OutPoint(at.value.tx.hash, k.io) == p
            <==> prev.Some? && prev.value.block == k.block && prev.value.index == k.tx && k.io == p.index
  {
    var at := FindAt(log, k.block, k.tx);
    var prev := FindTx(log, p.hash);
    if at.Some? {
      FoundIn(log, at.value);
    }
    if prev.Some? {
      FoundIn(log, prev.value);
    }
  }

  lemma OutputStep(v: Db, log: Log, cur: Placed, o: nat, watch: set<Watch>)
    requires Extends(log, cur) && o < |cur.tx.outputs|
    requires MatchesPart(v, log, cur, |cur.tx.inputs|, o, watch)
    ensures MatchesPart(Apply(v, OutputOps(watch, cur, o)), log, cur, |cur.tx.inputs|, o + 1, watch)
  {
    var n := |cur.tx.inputs|;
    var v' := Apply(v, OutputOps(watch, cur, o));
    forall k: Key | IsIndexKey(k) ensures Get(v', k) == Expected(log + [Part(cur, n, o + 1)], watch, k) {
      assert Get(v, k) == Expected(log + [Part(cur, n, o)], watch, k);
      ExpectAppend(log, cur, n, o, k);
      ExpectAppend(log, cur, n, o + 1, k);
      OutputEffect(v, watch, cur, o, k);
    }
  }

  // One transaction

  lemma {:induction false} InputsStep(v: Db, db: Db, seen: map<Hash, Placed>, log: Log, cur: Placed, a: nat,
                          watch: set<Watch>)
    requires Extends(log, cur) && a <= |cur.tx.inputs| && ResolvesTo(db, seen, log, cur, watch)
    requires MatchesPart(v, log, cur, 0, 0, watch)
    ensures MatchesPart(Apply(v, InputsOps(db, watch, seen, cur, a)), log, cur, a, 0, watch)
  {
    hide MatchesPart, ResolvesTo, Extends, InputOps;
    if a > 0 {
      InputsStep(v, db, seen, log, cur, a - 1, watch);
      ApplyConcat(v, InputsOps(db, watch, seen, cur, a - 1), InputOps(db, watch, seen, cur, a - 1));
      InputStep(Apply(v, InputsOps(db, watch, seen, cur, a - 1)), db, seen, log, cur, a - 1, watch);
    }
  }

  lemma {:induction false} OutputsStep(v: Db, log: Log, cur: Placed, o: nat, watch: set<Watch>)
    requires Extends(log, cur) && o <= |cur.tx.outputs|
    requires MatchesPart(v, log, cur, |cur.tx.inputs|, 0, watch)
    ensures MatchesPart(Apply(v, OutputsOps(watch, cur, o)), log, cur, |cur.tx.inputs|, o, watch)
  {
    hide MatchesPart, Extends, OutputOps;
    if o > 0 {
      OutputsStep(v, log, cur, o - 1, watch);
      ApplyConcat(v, OutputsOps(watch, cur, o - 1), OutputOps(watch, cur, o - 1));
      OutputStep(Apply(v, OutputsOps(watch, cur, o - 1)), log, cur, o - 1, watch);
    }
  }

  /** A transaction of which nothing has been looked at yet changes nothing. */
  lemma NothingAppended(log: Log, cur: Placed, k: Key)
    requires Extends(log, cur) && IsIndexKey(k)
    ensures Expect(log + [Part(cur, 0, 0)], k) == Expect(log, k)
  {
    ExpectAppend(log, cur, 0, 0, k);
    CurIsFresh(log, cur);
  }

  lemma TxTables(v: Db, db: Db, log: Log, block: Block, t: nat, watch: set<Watch>)
    requires t < |block.txs|
    requires var cur := Placed(block.number, t, block.txs[t]);
             Extends(log, cur) && ResolvesTo(db, Seen(block, t), log, cur, watch)
    requires TablesMatch(v, log, watch)
    ensures TablesMatch(Apply(v, TxOps(db, watch, block, t)), log + [Positions(block)[t]], watch)
  {
    var cur := Placed(block.number, t, block.txs[t]);
    var n, m := |cur.tx.inputs|, |cur.tx.outputs|;
    forall k: Key | IsIndexKey(k) ensures Get(v, k) == Expected(log + [Part(cur, 0, 0)], watch, k) {
      NothingAppended(log, cur, k);
    }
    InputsStep(v, db, Seen(block, t), log, cur, n, watch);
    var inputs, outputs := InputsOps(db, watch, Seen(block, t), cur, n), OutputsOps(watch, cur, m);
    OutputsStep(Apply(v, inputs), log, cur, m, watch);
    ApplyConcat(v, inputs, outputs);
    assert cur.tx.inputs[..n] == cur.tx.inputs && cur.tx.outputs[..m] == cur.tx.outputs;
    assert Part(cur, n, m) == cur;
  }

  // Stored transactions

  function StoreTx(cur: Placed): Op {
    Put(TxHash(cur.tx.hash), Transaction(cur.block, cur.index, cur.tx))
  }

  /** The operations store no transaction but `cur`, and they do so unless there are none. */
  ghost predicate StoresOnly(ops: seq<Op>, cur: Placed) {
    && (forall op :: op in ops && op.key.TxHash? ==> op == StoreTx(cur))
    && (ops != [] ==> StoreTx(cur) in ops)
  }

  lemma {:induction false} StoresOnlyEffect(v: Db, ops: seq<Op>, cur: Placed, h: Hash)
    requires forall op :: op in ops && op.key.TxHash? ==> op == StoreTx(cur)
    ensures Get(Apply(v, ops), TxHash(h))
         == if h == cur.tx.hash && StoreTx(cur) in ops then Some(StoreTx(cur).value) else Get(v, TxHash(h))
  {
    if ops != [] {
      var init := ops[..|ops| - 1];
      StoresOnlyEffect(v, init, cur, h);
      assert ops == init + [ops[|ops| - 1]];
    }
  }

  lemma StoresOnlyConcat(a: seq<Op>, b: seq<Op>, cur: Placed)
    requires StoresOnly(a, cur) && StoresOnly(b, cur)
    ensures StoresOnly(a + b, cur)
  {
  }

  lemma StoresNothing(cur: Placed)
    ensures StoresOnly([], cur)
  {
  }

  lemma InputStores(db: Db, watch: set<Watch>, seen: map<Hash, Placed>, cur: Placed, a: nat)
    requires a < |cur.tx.inputs|
    ensures StoresOnly(InputOps(db, watch, seen, cur, a), cur)
  {
    var p := cur.tx.inputs[a];
    var r := Resolve(db, seen, p.hash);
    if r.Some? && p.index < |r.value.tx.outputs| {
      var out := r.value.tx.outputs[p.index];
      SpendOneStores(watch, Watch(Lock, out.lock), r.value, p.index, cur, a);
      if out.type_.Some? {
        SpendOneStores(watch, Watch(Type, out.type_.value), r.value, p.index, cur, a);
      }
    }
  }

  lemma SpendOneStores(watch: set<Watch>, w: Watch, prev: Placed, index: nat, cur: Placed, a: nat)
    ensures StoresOnly(SpendOne(watch, w, prev, index, cur, a), cur)
  {
    if w in watch {
      assert SpendOne(watch, w, prev, index, cur, a)[2] == StoreTx(cur);
    }
  }

  lemma CreateOneStores(watch: set<Watch>, w: Watch, cur: Placed, o: nat)
    ensures StoresOnly(CreateOne(watch, w, cur, o), cur)
  {
    if w in watch {
      assert CreateOne(watch, w, cur, o)[2] == StoreTx(cur);
    }
  }

  lemma OutputStores(watch: set<Watch>, cur: Placed, o: nat)
    requires o < |cur.tx.outputs|
    ensures StoresOnly(OutputOps(watch, cur, o), cur)
  {
    var out := cur.tx.outputs[o];
    CreateOneStores(watch, Watch(Lock, out.lock), cur, o);
    if out.type_.Some? {
      CreateOneStores(watch, Watch(Type, out.type_.value), cur, o);
    }
  }

  lemma {:induction false} InputsStoreOnly(db: Db, watch: set<Watch>, seen: map<Hash, Placed>, cur: Placed, n: nat)
    requires n <= |cur.tx.inputs|
    ensures StoresOnly(InputsOps(db, watch, seen, cur, n), cur)
  {
    hide StoresOnly, InputOps;
    StoresNothing(cur);
    if n > 0 {
      InputsStoreOnly(db, watch, seen, cur, n - 1);
      InputStores(db, watch, seen, cur, n - 1);
      StoresOnlyConcat(InputsOps(db, watch, seen, cur, n - 1), InputOps(db, watch, seen, cur, n - 1), cur);
    }
  }

  /** Inputs store only `cur`, and an input that spends a watched output stores it indeed. */
  lemma {:induction false} InputsStore(db: Db, watch: set<Watch>, seen: map<Hash, Placed>, log: Log, cur: Placed,
                          n: nat)
    requires n <= |cur.tx.inputs| && ResolvesTo(db, seen, log, cur, watch)
    ensures StoresOnly(InputsOps(db, watch, seen, cur, n), cur)
    ensures forall a, w :: 0 <= a < n && w in watch && SpendsWatched(log, cur.tx.inputs[a], w) ==>
              InputsOps(db, watch, seen, cur, n) != []
  {
    hide StoresOnly, InputOps, ResolvesTo;
    StoresNothing(cur);
    if n > 0 {
      InputsStore(db, watch, seen, log, cur, n - 1);
      InputStores(db, watch, seen, cur, n - 1);
      StoresOnlyConcat(InputsOps(db, watch, seen, cur, n - 1), InputOps(db, watch, seen, cur, n - 1), cur);
      WatchedInputIsStored(db, watch, seen, log, cur, n - 1);
    }
  }

  lemma WatchedInputIsStored(db: Db, watch: set<Watch>, seen: map<Hash, Placed>, log: Log, cur: Placed, a: nat)
    requires a < |cur.tx.inputs| && ResolvesTo(db, seen, log, cur, watch)
    ensures (exists w :: w in watch && SpendsWatched(log, cur.tx.inputs[a], w)) ==>
              InputOps(db, watch, seen, cur, a) != []
  {
    if w :| w in watch && SpendsWatched(log, cur.tx.inputs[a], w) {
      var p := cur.tx.inputs[a];
      var r := Resolve(db, seen, p.hash);
      assert ResolvesInput(db, seen, log, p, watch);
      assert Names(FindTx(log, p.hash), p, w);
      var out := r.value.tx.outputs[p.index];
      assert w == Watch(Lock, out.lock) || (out.type_.Some? && w == Watch(Type, out.type_.value));
    }
  }

  lemma WatchedOutputIsStored(watch: set<Watch>, cur: Placed, o: nat)
    requires o < |cur.tx.outputs|
    ensures (exists w :: w in watch && Carries(cur.tx.outputs[o], w)) ==> OutputOps(watch, cur, o) != []
  {
    if w :| w in watch && Carries(cur.tx.outputs[o], w) {
      var out := cur.tx.outputs[o];
      assert w == Watch(Lock, out.lock) || (out.type_.Some? && w == Watch(Type, out.type_.value));
    }
  }

  lemma {:induction false} OutputsStore(watch: set<Watch>, cur: Placed, n: nat)
    requires n <= |cur.tx.outputs|
    ensures StoresOnly(OutputsOps(watch, cur, n), cur)
    ensures forall o, w :: 0 <= o < n && w in watch && Carries(cur.tx.outputs[o], w) ==> OutputsOps(watch, cur, n) != []
  {
    hide StoresOnly, OutputOps;
    StoresNothing(cur);
    if n > 0 {
      OutputsStore(watch, cur, n - 1);
      OutputStores(watch, cur, n - 1);
      StoresOnlyConcat(OutputsOps(watch, cur, n - 1), OutputOps(watch, cur, n - 1), cur);
      WatchedOutputIsStored(watch, cur, n - 1);
    }
  }

  /** Later transactions do not change what is relevant about the earlier ones. */
  lemma RelevantStays(log: Log, cur: Placed, p: Placed, watch: set<Watch>)
    requires Extends(log, cur) && p in log + [cur] && Relevant(log + [cur], p, watch)
    ensures Relevant(log, p, watch)
  {
    hide FindTx, ValidLog;
    CurIsFresh(log, cur);
    AppendLookups(log, cur);
    if a, w :| 0 <= a < |p.tx.inputs| && w in watch && SpendsWatched(log + [cur], p.tx.inputs[a], w) {
      if p in log {
        InputIsSpent(log, p, a);
      }
      assert p.tx.inputs[a].hash != cur.tx.hash;
      assert SpendsWatched(log, p.tx.inputs[a], w);
    }
  }

  /** What one transaction does to the stored transactions: it stores itself, or nothing. */
  ghost predicate StoresAs(v: Db, v': Db, cur: Placed, stored: bool) {
    forall h: Hash :: GetTransaction(v', h) == if h == cur.tx.hash && stored then Some(cur) else GetTransaction(v, h)
  }

  lemma TxStores(v: Db, db: Db, log: Log, block: Block, t: nat, watch: set<Watch>) returns (stored: bool)
    requires t < |block.txs|
    requires ResolvesTo(db, Seen(block, t), log, Placed(block.number, t, block.txs[t]), watch)
    ensures StoresAs(v, Apply(v, TxOps(db, watch, block, t)), Placed(block.number, t, block.txs[t]), stored)
    ensures Relevant(log, Placed(block.number, t, block.txs[t]), watch) ==> stored
  {
    hide ResolvesTo, StoreTx;
    var cur := Placed(block.number, t, block.txs[t]);
    var ops := TxOps(db, watch, block, t);
    var v' := Apply(v, ops);
    InputsStore(db, watch, Seen(block, t), log, cur, |cur.tx.inputs|);
    OutputsStore(watch, cur, |cur.tx.outputs|);
    assert StoresOnly(ops, cur);
    stored := ops != [];
    forall h: Hash ensures GetTransaction(v', h) == if h == cur.tx.hash && stored then Some(cur)
        else GetTransaction(v, h)
    {
      StoresOnlyEffect(v, ops, cur, h);
      StoredIsGot(v, v', cur, h, stored);
    }
  }

  lemma StoredIsGot(v: Db, v': Db, cur: Placed, h: Hash, stored: bool)
    requires Get(v', TxHash(h)) == if h == cur.tx.hash && stored then Some(StoreTx(cur).value) else Get(v, TxHash(h))
    ensures GetTransaction(v', h) == if h == cur.tx.hash && stored then Some(cur) else GetTransaction(v, h)
  {
  }

  lemma StoredAfter(v: Db, v': Db, log: Log, full: Log, cur: Placed, watch: set<Watch>, stored: bool)
    requires Extends(log, cur) && cur in full && ValidLog(full) && StoresAs(v, v', cur, stored)
    requires StoredRight(v, log, watch) && (Relevant(log, cur, watch) ==> stored)
    ensures StoredRight(v', log + [cur], watch)
    ensures StoredSame(v, full) ==> StoredSame(v', full)
    ensures NothingLeft(v, full) ==> NothingLeft(v', full)
  {
    hide FindTx, Relevant, ValidLog;
    CurIsFresh(log, cur);
    FoundIn(full, cur);
    forall p | p in log + [cur] && Relevant(log + [cur], p, watch) ensures GetTransaction(v', p.tx.hash) == Some(p) {
      RelevantStays(log, cur, p, watch);
      if p in log {
        FoundIn(log, p);
      }
    }
    forall h: Hash, p | StoredSame(v, full) && GetTransaction(v', h).Some? && p in full && p.tx.hash == h
      ensures GetTransaction(v', h).value.tx == p.tx
    {
      FoundIn(full, p);
    }
  }

  // One block, many blocks

  lemma {:induction false} BlockStep(db: Db, log: Log, block: Block, t: nat, watch: set<Watch>)
    requires t <= |block.txs| && ValidLog(log + Positions(block)) && Indexed(db, log, watch)
    requires StoredSame(db, log + Positions(block)) && NobodyMisled(db, log, block, watch)
    ensures Indexed(Apply(db, BlockOps(db, watch, block, t)), log + Positions(block)[..t], watch)
  {
    hide TablesMatch, StoredRight, StoredSame, NobodyMisled, ResolvesTo, TxOps, Seen, ValidLog, NothingLeft, StoresAs;
    if t == 0 {
      assert log + Positions(block)[..0] == log;
    } else {
      BlockStep(db, log, block, t - 1, watch);
      var full := log + Positions(block);
      var l := log + Positions(block)[..t - 1];
      var v := Apply(db, BlockOps(db, watch, block, t - 1));
      assert l + [Positions(block)[t - 1]] == log + Positions(block)[..t] == full[..|log| + t];
      assert full[|log| + t - 1] == Positions(block)[t - 1];
      ValidPrefix(full, |log| + t);
      LookupsResolve(db, log, watch, block, t - 1);
      TxTables(v, db, l, block, t - 1, watch);
      var stored := TxStores(v, db, l, block, t - 1, watch);
      StoredAfter(v, Apply(v, TxOps(db, watch, block, t - 1)), l, full, Positions(block)[t - 1], watch, stored);
      ApplyConcat(db, BlockOps(db, watch, block, t - 1), TxOps(db, watch, block, t - 1));
    }
  }

  /** A block stores its own transactions at their positions, or leaves alone what is stored. */
  ghost predicate StoresFrom(v: Db, v': Db, block: Block) {
    forall h: Hash :: GetTransaction(v', h) != GetTransaction(v, h) ==>
      && GetTransaction(v', h).Some? && GetTransaction(v', h).value in Positions(block)
      && GetTransaction(v', h).value.tx.hash == h
  }

  lemma {:induction false} BlockStores(db: Db, block: Block, t: nat, watch: set<Watch>)
    requires t <= |block.txs|
    ensures StoresFrom(db, Apply(db, BlockOps(db, watch, block, t)), block)
  {
    hide TxOps, GetTransaction, StoresFrom, StoresAtMost;
    StoresFromItself(db, block);
    if t > 0 {
      BlockStores(db, block, t - 1, watch);
      var v := Apply(db, BlockOps(db, watch, block, t - 1));
      ApplyConcat(db, BlockOps(db, watch, block, t - 1), TxOps(db, watch, block, t - 1));
      TxStoresSomehow(v, db, block, t - 1, watch);
      StoresFromThen(db, v, Apply(v, TxOps(db, watch, block, t - 1)), block, t - 1);
    }
  }

  lemma StoresFromItself(db: Db, block: Block)
    ensures StoresFrom(db, db, block)
  {
  }

  /** One transaction stores itself at its position, or nothing. */
  ghost predicate StoresAtMost(v: Db, v': Db, cur: Placed) {
    forall h: Hash :: GetTransaction(v', h) == GetTransaction(v, h)
                      || (h == cur.tx.hash && GetTransaction(v', h) == Some(cur))
  }

  lemma StoresFromThen(v: Db, v': Db, v'': Db, block: Block, t: nat)
    requires t < |block.txs| && StoresFrom(v, v', block) && StoresAtMost(v', v'', Positions(block)[t])
    ensures StoresFrom(v, v'', block)
  {
    hide GetTransaction;
    assert Positions(block)[t] in Positions(block);
    forall h: Hash | GetTransaction(v'', h) != GetTransaction(v, h)
      ensures GetTransaction(v'', h).Some? && GetTransaction(v'', h).value in Positions(block)
              && GetTransaction(v'', h).value.tx.hash == h
    {
      if GetTransaction(v'', h) == GetTransaction(v', h) {
        assert GetTransaction(v', h) != GetTransaction(v, h);
      }
    }
  }

  lemma TxStoresSomehow(v: Db, db: Db, block: Block, t: nat, watch: set<Watch>)
    requires t < |block.txs|
    ensures StoresAtMost(v, Apply(v, TxOps(db, watch, block, t)), Positions(block)[t])
  {
    hide GetTransaction, StoreTx;
    var cur := Placed(block.number, t, block.txs[t]);
    var ops := TxOps(db, watch, block, t);
    InputsStoreOnly(db, watch, Seen(block, t), cur, |cur.tx.inputs|);
    OutputsStore(watch, cur, |cur.tx.outputs|);
    forall h: Hash
      ensures GetTransaction(Apply(v, ops), h) == GetTransaction(v, h)
              || (h == cur.tx.hash && GetTransaction(Apply(v, ops), h) == Some(cur))
    {
      StoresOnlyEffect(v, ops, cur, h);
      StoredIsGot(v, Apply(v, ops), cur, h, StoreTx(cur) in ops);
    }
  }

  lemma HeadersLeaveIndex(v: Db, block: Block)
    ensures forall k: Key :: !k.BlockHash? && !k.BlockNumber? ==> Get(Apply(v, HeaderOps(block)), k) == Get(v, k)
    ensures forall h: Hash :: GetTransaction(Apply(v, HeaderOps(block)), h) == GetTransaction(v, h)
  {
    var v' := Apply(v, HeaderOps(block));
    assert HeaderOps(block)[..1][..0] == [];
    assert v' == v[BlockHash(block.hash) := Header(block.number)][BlockNumber(block.number) := Ref(block.hash)] by {
      assert Apply(v, HeaderOps(block)[..1]) == v[BlockHash(block.hash) := Header(block.number)];
    }
    forall h: Hash ensures GetTransaction(v', h) == GetTransaction(v, h) {
      assert Get(v', TxHash(h)) == Get(v, TxHash(h));
    }
  }

  /** The header records of a filtered block are all that distinguishes it from its operations. */
  lemma FilteredIsApplied(db: Db, watch: set<Watch>, block: Block)
    ensures var v := Apply(db, BlockOps(db, watch, block, |block.txs|));
            && (forall k: Key :: IsIndexKey(k) ==> Get(Filtered(db, watch, block), k) == Get(v, k))
            && (forall h: Hash :: GetTransaction(Filtered(db, watch, block), h) == GetTransaction(v, h))
  {
    var ops := BlockOps(db, watch, block, |block.txs|);
    if ops != [] {
      ApplyConcat(db, ops, HeaderOps(block));
      HeadersLeaveIndex(Apply(db, ops), block);
    }
  }

  lemma IndexedAlike(v: Db, v': Db, log: Log, watch: set<Watch>)
    requires forall k: Key :: IsIndexKey(k) ==> Get(v', k) == Get(v, k)
    requires forall h: Hash :: GetTransaction(v', h) == GetTransaction(v, h)
    ensures Indexed(v, log, watch) ==> Indexed(v', log, watch)
  {
  }

  /**
   Filtering the next block of a valid chain keeps the index equal to the log: the live cells and the
   history of every registered script, also when a transaction spends an output of the same block, and
   whatever a rollback has left behind, as long as that misleads nobody.
   */
  lemma FilteringRefinesReplay(db: Db, log: Log, block: Block, watch: set<Watch>)
    requires ValidLog(log + Positions(block)) && Indexed(db, log, watch)
    requires StoredSame(db, log + Positions(block)) && NobodyMisled(db, log, block, watch)
    ensures Indexed(Filtered(db, watch, block), log + Positions(block), watch)
  {
    hide Indexed, StoredSame, NobodyMisled, ValidLog, Filtered;
    BlockStep(db, log, block, |block.txs|, watch);
    assert Positions(block)[..|block.txs|] == Positions(block);
    FilteredIsApplied(db, watch, block);
    IndexedAlike(Apply(db, BlockOps(db, watch, block, |block.txs|)), Filtered(db, watch, block),
        log + Positions(block), watch);
  }

  /** A filtered block stores only its own transactions. */
  lemma FilteredStores(db: Db, watch: set<Watch>, block: Block, full: Log)
    requires ValidLog(full) && forall p :: p in Positions(block) ==> p in full
    ensures StoredSame(db, full) ==> StoredSame(Filtered(db, watch, block), full)
    ensures NothingLeft(db, full) ==> NothingLeft(Filtered(db, watch, block), full)
  {
    hide ValidLog, Filtered;
    BlockStores(db, block, |block.txs|, watch);
    FilteredIsApplied(db, watch, block);
    var v' := Filtered(db, watch, block);
    forall h: Hash, p | StoredSame(db, full) && GetTransaction(v', h).Some? && p in full && p.tx.hash == h
      ensures GetTransaction(v', h).value.tx == p.tx
    {
      FoundIn(full, p);
      if GetTransaction(v', h) != GetTransaction(db, h) {
        FoundIn(full, GetTransaction(v', h).value);
      }
    }
  }

  /** Where nothing is left behind nobody is misled; genesis transactions may be stored beforehand. */
  lemma CleanMisleadsNobody(db: Db, log: Log, block: Block, watch: set<Watch>, full: Log)
    requires ValidLog(full) && NothingLeft(db, full) && log + Positions(block) <= full
    ensures StoredSame(db, full) && NobodyMisled(db, log, block, watch)
  {
    hide FindTx;
    forall h: Hash, p | GetTransaction(db, h).Some? && p in full
        && p.tx.hash == h ensures GetTransaction(db, h).value.tx == p.tx {
      FoundIn(full, p);
      FoundIn(full, GetTransaction(db, h).value);
    }
    forall t, a | 0 <= t < |block.txs| && 0 <= a < |block.txs[t].inputs| ensures !IsMisled(db, log, block, watch, t,
        a) {
      var r := GetTransaction(db, block.txs[t].inputs[a].hash);
      if r.Some? {
        var i := |log| + t;
        assert full[i] == Positions(block)[t] && full[..i] == log + Positions(block)[..t];
        RefersBack(full, i, a, r.value);
        ValidPrefix(full, i);
        FoundIn(full[..i], r.value);
      }
    }
  }

  function FilteredAll(db: Db, watch: set<Watch>, blocks: seq<Block>): Db {
    if blocks == [] then db
    else Filtered(FilteredAll(db, watch, blocks[..|blocks| - 1]), watch, blocks[|blocks| - 1])
  }

  function AllPositions(blocks: seq<Block>): Log {
    if blocks == [] then [] else AllPositions(blocks[..|blocks| - 1]) + Positions(blocks[|blocks| - 1])
  }

  /** No block of the run misleads, each on top of those before it. */
  ghost predicate RunMisleadsNobody(db: Db, log: Log, blocks: seq<Block>, watch: set<Watch>) {
    forall i :: 0 <= i < |blocks| ==>
      NobodyMisled(FilteredAll(db, watch, blocks[..i]), log + AllPositions(blocks[..i]), blocks[i], watch)
  }

  /** Filtering any valid run of blocks that misleads nobody yields exactly what replaying them yields. */
  lemma {:induction false} FilteringAllRefinesReplay(db: Db, log: Log, blocks: seq<Block>, watch: set<Watch>, full: Log)
    requires ValidLog(full) && log + AllPositions(blocks) <= full && Indexed(db, log, watch) && StoredSame(db, full)
    requires RunMisleadsNobody(db, log, blocks, watch)
    ensures Indexed(FilteredAll(db, watch, blocks), log + AllPositions(blocks), watch)
    ensures StoredSame(FilteredAll(db, watch, blocks), full)
  {
    hide Indexed, StoredSame, NobodyMisled, ValidLog, Filtered;
    if blocks == [] {
      assert log + AllPositions(blocks) == log;
    } else {
      var init, last := blocks[..|blocks| - 1], blocks[|blocks| - 1];
      var l, next := log + AllPositions(init), log + AllPositions(blocks);
      assert l + Positions(last) == next == full[..|next|];
      forall i | 0 <= i < |init|
        ensures NobodyMisled(FilteredAll(db, watch, init[..i]), log + AllPositions(init[..i]), init[i], watch)
      {
        assert init[..i] == blocks[..i];
      }
      FilteringAllRefinesReplay(db, log, init, watch, full);
      ValidPrefix(full, |next|);
      SamePart(FilteredAll(db, watch, init), next, full);
      assert blocks[..|init|] == init;
      FilteringRefinesReplay(FilteredAll(db, watch, init), l, last, watch);
      forall p | p in Positions(last) ensures p in full {
        assert p in next;
      }
      FilteredStores(FilteredAll(db, watch, init), watch, last, full);
    }
  }

  lemma SamePart(db: Db, part: Log, full: Log)
    requires part <= full && StoredSame(db, full)
    ensures StoredSame(db, part)
  {
  }

  /** On a database where nothing is left behind a valid run never misleads, and leaves nothing behind either. */
  lemma {:induction false} CleanRunMisleadsNobody(db: Db, log: Log, blocks: seq<Block>, watch: set<Watch>, full: Log)
    requires ValidLog(full) && log + AllPositions(blocks) <= full && NothingLeft(db, full)
    ensures RunMisleadsNobody(db, log, blocks, watch) && NothingLeft(FilteredAll(db, watch, blocks), full)
    ensures StoredSame(db, full)
  {
    hide NothingLeft, StoredSame, NobodyMisled, ValidLog, Filtered;
    if blocks == [] {
      CleanIsSame(db, full);
    } else {
      var init, last := blocks[..|blocks| - 1], blocks[|blocks| - 1];
      var l, next := log + AllPositions(init), log + AllPositions(blocks);
      assert l + Positions(last) == next;
      CleanRunMisleadsNobody(db, log, init, watch, full);
      CleanMisleadsNobody(FilteredAll(db, watch, init), l, last, watch, full);
      forall i | 0 <= i < |blocks|
        ensures NobodyMisled(FilteredAll(db, watch, blocks[..i]), log + AllPositions(blocks[..i]), blocks[i], watch)
      {
        if i < |init| {
          assert init[..i] == blocks[..i];
        } else {
          assert blocks[..i] == init;
        }
      }
      forall p | p in Positions(last) ensures p in full {
        assert p in next;
      }
      FilteredStores(FilteredAll(db, watch, init), watch, last, full);
    }
  }

  lemma CleanIsSame(db: Db, full: Log)
    requires ValidLog(full) && NothingLeft(db, full)
    ensures StoredSame(db, full)
  {
    forall h: Hash, p | GetTransaction(db, h).Some? && p in full
        && p.tx.hash == h ensures GetTransaction(db, h).value.tx == p.tx {
      FoundIn(full, p);
      FoundIn(full, GetTransaction(db, h).value);
    }
  }

  /** A fresh index that filters any valid run of blocks holds exactly what replaying them yields. */
  lemma FreshFilteringRefinesReplay(db: Db, blocks: seq<Block>, watch: set<Watch>)
    requires ValidLog(AllPositions(blocks)) && NothingLeft(db, AllPositions(blocks))
    requires forall k: Key :: IsIndexKey(k) ==> k !in db
    ensures Indexed(FilteredAll(db, watch, blocks), AllPositions(blocks), watch)
  {
    hide StoredSame, ValidLog;
    assert [] + AllPositions(blocks) == AllPositions(blocks);
    CleanRunMisleadsNobody(db, [], blocks, watch, AllPositions(blocks));
    assert Indexed(db, [], watch);
    FilteringAllRefinesReplay(db, [], blocks, watch, AllPositions(blocks));
  }
}
