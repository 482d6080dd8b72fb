/** The header records of filtered blocks: a block is recorded, under its number and its hash, exactly if it matched. */
module BlockHeaders {
  import opened Options
  import opened Keys
  import opened Chain
  import opened Index
  import opened FilterProofs

  predicate IsHeaderKey(k: Key) {
    k.BlockHash? || k.BlockNumber?
  }

  // The operations of transactions leave header records alone

  ghost predicate LeaveHeaders(ops: seq<Op>) {
    forall i :: 0 <= i < |ops| ==> !IsHeaderKey(ops[i].key)
  }

  lemma {:induction false} InputsLeaveHeaders(db: Db, watch: set<Watch>, seen: map<Hash, Placed>, cur: Placed, n: nat)
    requires n <= |cur.tx.inputs|
    ensures LeaveHeaders(InputsOps(db, watch, seen, cur, n))
  {
    hide InputOps;
    if n > 0 {
      InputsLeaveHeaders(db, watch, seen, cur, n - 1);
      InputLeavesHeaders(db, watch, seen, cur, n - 1);
    }
  }

  lemma InputLeavesHeaders(db: Db, watch: set<Watch>, seen: map<Hash, Placed>, cur: Placed, a: nat)
    requires a < |cur.tx.inputs|
    ensures LeaveHeaders(InputOps(db, watch, seen, cur, a))
  {
    hide Resolve;
  }

  lemma {:induction false} OutputsLeaveHeaders(watch: set<Watch>, cur: Placed, n: nat)
    requires n <= |cur.tx.outputs|
    ensures LeaveHeaders(OutputsOps(watch, cur, n))
  {
    if n > 0 {
      OutputsLeaveHeaders(watch, cur, n - 1);
      assert LeaveHeaders(OutputOps(watch, cur, n - 1));
    }
  }

  lemma {:induction false} BlockLeavesHeaders(db: Db, watch: set<Watch>, block: Block, t: nat)
    requires t <= |block.txs|
    ensures LeaveHeaders(BlockOps(db, watch, block, t))
  {
    hide InputsOps, OutputsOps;
    if t > 0 {
      var cur := Placed(block.number, t - 1, block.txs[t - 1]);
      BlockLeavesHeaders(db, watch, block, t - 1);
      InputsLeaveHeaders(db, watch, Seen(block, t - 1), cur, |cur.tx.inputs|);
      OutputsLeaveHeaders(watch, cur, |cur.tx.outputs|);
    }
  }

  lemma {:induction false} UntouchedHeader(v: Db, ops: seq<Op>, k: Key)
    requires LeaveHeaders(ops) && IsHeaderKey(k)
    ensures Get(Apply(v, ops), k) == Get(v, k)
  {
    if ops != [] {
      UntouchedHeader(v, ops[..|ops| - 1], k);
    }
  }

  predicate IsMatched(db: Db, watch: set<Watch>, block: Block) {
    BlockOps(db, watch, block, |block.txs|) != []
  }

  lemma ApplyHeaders(v: Db, block: Block)
    ensures Apply(v, HeaderOps(block))
         == v[BlockHash(block.hash) := Header(block.number)][BlockNumber(block.number) := Ref(block.hash)]
  {
    assert HeaderOps(block)[..1][..0] == [];
    assert Apply(v, HeaderOps(block)[..1]) == v[BlockHash(block.hash) := Header(block.number)];
  }

  /** A matched block can be found under its number and its hash; no other header record changes. */
  lemma FilteredHeaders(db: Db, watch: set<Watch>, block: Block, k: Key)
    requires IsHeaderKey(k)
    ensures Get(Filtered(db, watch, block), k)
         == if IsMatched(db, watch, block) && k == BlockHash(block.hash) then Some(Header(block.number))
            else if IsMatched(db, watch, block) && k == BlockNumber(block.number) then Some(Ref(block.hash))
            else Get(db, k)
  {
    hide BlockOps, HeaderOps;
    var ops := BlockOps(db, watch, block, |block.txs|);
    BlockLeavesHeaders(db, watch, block, |block.txs|);
    UntouchedHeader(db, ops, k);
    ApplyConcat(db, ops, HeaderOps(block));
    ApplyHeaders(Apply(db, ops), block);
  }

  // Which blocks match

  lemma InputMatches(db: Db, watch: set<Watch>, seen: map<Hash, Placed>, log: Log, cur: Placed, a: nat)
    requires a < |cur.tx.inputs| && ResolvesTo(db, seen, log, cur, watch)
    ensures InputOps(db, watch, seen, cur, a) != [] ==>
              exists w :: w in watch && SpendsWatched(log, cur.tx.inputs[a], w)
  {
    hide FindTx, Resolve;
    var p := cur.tx.inputs[a];
    var r := Resolve(db, seen, p.hash);
    assert ResolvesInput(db, seen, log, p, watch);
    if r.Some? && p.index < |r.value.tx.outputs| {
      var out := r.value.tx.outputs[p.index];
      forall w | w in watch && (w == Watch(Lock, out.lock) || (out.type_.Some? && w == Watch(Type, out.type_.value)))
        ensures SpendsWatched(log, p, w)
      {
        assert Names(r, p, w);
      }
    }
  }

  lemma OutputMatches(watch: set<Watch>, cur: Placed, o: nat)
    requires o < |cur.tx.outputs|
    ensures OutputOps(watch, cur, o) != [] ==> exists w :: w in watch && Carries(cur.tx.outputs[o], w)
  {
    var out := cur.tx.outputs[o];
    forall w | w in watch && (w == Watch(Lock, out.lock) || (out.type_.Some? && w == Watch(Type, out.type_.value)))
      ensures Carries(out, w)
    {
    }
  }

  lemma {:induction false} InputsMatch(db: Db, watch: set<Watch>, seen: map<Hash, Placed>, log: Log, cur: Placed,
                          n: nat)
    requires n <= |cur.tx.inputs| && ResolvesTo(db, seen, log, cur, watch)
    ensures InputsOps(db, watch, seen, cur, n) != [] ==> Relevant(log, cur, watch)
  {
    hide ResolvesTo, InputOps, SpendsWatched;
    if n > 0 {
      InputsMatch(db, watch, seen, log, cur, n - 1);
      InputMatches(db, watch, seen, log, cur, n - 1);
    }
  }

  lemma {:induction false} OutputsMatch(watch: set<Watch>, log: Log, cur: Placed, n: nat)
    requires n <= |cur.tx.outputs|
    ensures OutputsOps(watch, cur, n) != [] ==> Relevant(log, cur, watch)
  {
    hide OutputOps, SpendsWatched;
    if n > 0 {
      OutputsMatch(watch, log, cur, n - 1);
      OutputMatches(watch, cur, n - 1);
    }
  }

  /** Some transaction of the first `t` creates or spends an output with a registered script. */
  ghost predicate SomeRelevant(log: Log, block: Block, t: nat, watch: set<Watch>)
    requires t <= |block.txs|
  {
    exists u :: 0 <= u < t && Relevant(log + Positions(block)[..u], Positions(block)[u], watch)
  }

  lemma TxMatches(db: Db, log: Log, block: Block, t: nat, watch: set<Watch>)
    requires t < |block.txs| && ResolvesTo(db, Seen(block, t), log, Positions(block)[t], watch)
    ensures TxOps(db, watch, block, t) != [] <==> Relevant(log, Positions(block)[t], watch)
  {
    hide ResolvesTo, InputsOps, OutputsOps, Relevant;
    var cur := Placed(block.number, t, block.txs[t]);
    InputsMatch(db, watch, Seen(block, t), log, cur, |cur.tx.inputs|);
    OutputsMatch(watch, log, cur, |cur.tx.outputs|);
    RelevantMatches(db, watch, Seen(block, t), log, cur);
  }

  lemma RelevantMatches(db: Db, watch: set<Watch>, seen: map<Hash, Placed>, log: Log, cur: Placed)
    requires ResolvesTo(db, seen, log, cur, watch)
    ensures Relevant(log, cur, watch) ==>
              InputsOps(db, watch, seen, cur, |cur.tx.inputs|) + OutputsOps(watch, cur, |cur.tx.outputs|) != []
  {
    hide ResolvesTo, InputsOps, OutputsOps, SpendsWatched, Carries;
    InputsStore(db, watch, seen, log, cur, |cur.tx.inputs|);
    OutputsStore(watch, cur, |cur.tx.outputs|);
  }

  lemma {:induction false} BlockMatches(db: Db, log: Log, block: Block, t: nat, watch: set<Watch>)
    requires t <= |block.txs| && ValidLog(log + Positions(block)) && StoredRight(db, log, watch)
    requires StoredSame(db, log + Positions(block)) && NobodyMisled(db, log, block, watch)
    ensures BlockOps(db, watch, block, t) != [] <==> SomeRelevant(log, block, t, watch)
  {
    hide ValidLog, StoredRight, StoredSame, NobodyMisled, ResolvesTo, TxOps, Relevant;
    if t > 0 {
      BlockMatches(db, log, block, t - 1, watch);
      LookupsResolve(db, log, watch, block, t - 1);
      TxMatches(db, log + Positions(block)[..t - 1], block, t - 1, watch);
    }
  }

  /**
   On an index that misleads nobody, the blocks whose headers are recorded are exactly those with a transaction
   that creates or spends an output with a registered script.
   */
  lemma HeadersOfRelevantBlocks(db: Db, log: Log, block: Block, watch: set<Watch>, k: Key)
    requires ValidLog(log + Positions(block)) && Indexed(db, log, watch)
    requires StoredSame(db, log + Positions(block)) && NobodyMisled(db, log, block, watch)
    requires k == BlockHash(block.hash) || k == BlockNumber(block.number)
    ensures Get(Filtered(db, watch, block), k)
         == if !SomeRelevant(log, block, |block.txs|, watch) then Get(db, k)
            else if k.BlockHash? then Some(Header(block.number)) else Some(Ref(block.hash))
  {
    hide ValidLog, StoredRight, StoredSame, NobodyMisled, SomeRelevant, TablesMatch, Filtered, BlockOps;
    BlockMatches(db, log, block, |block.txs|, watch);
    FilteredHeaders(db, watch, block, k);
  }
}
