/**
 The script index kept in the database: filtering a block appends to one write batch, which reads the
 database as it was before the block. `Filtered` is the resulting database as a function.
 */
module Index {
  import opened Options
  import opened Keys
  import opened Chain

  datatype Value =
    | Ref(hash: Hash)
    | Transaction(block: nat, index: nat, tx: Tx)
    | Header(number: nat)

  type Db = map<Key, Value>

  datatype Op = Put(key: Key, value: Value) | Delete(key: Key)

  function ApplyOne(db: Db, op: Op): Db {
    match op
    case Put(key, value) => db[key := value]
    case Delete(key) => db - {key}
  }

  /** Committing a write batch: its operations take effect in order. */
  function Apply(db: Db, ops: seq<Op>): Db {
    if ops == [] then db else ApplyOne(Apply(db, ops[..|ops| - 1]), ops[|ops| - 1])
  }

  lemma {:induction false} ApplyConcat(db: Db, a: seq<Op>, b: seq<Op>)
    ensures Apply(db, a + b) == Apply(Apply(db, a), b)
  {
    if b == [] {
      assert a + b == a;
    } else {
      ApplyConcat(db, a, b[..|b| - 1]);
      assert (a + b)[..|a + b| - 1] == a + b[..|b| - 1];
    }
  }

  function GetTransaction(db: Db, hash: Hash): Option<Placed> {
    if TxHash(hash) in db && db[TxHash(hash)].Transaction?
    then Some(Placed(db[TxHash(hash)].block, db[TxHash(hash)].index, db[TxHash(hash)].tx))
    else None
  }

  /** The transactions of the block that precede index `t`, by hash; later ones win. */
  function Seen(block: Block, t: nat): map<Hash, Placed>
    requires t <= |block.txs|
  {
    if t == 0 then map[] else Seen(block, t - 1)[block.txs[t - 1].hash := Placed(block.number, t - 1, block.txs[t - 1])]
  }

  /** The database first, the block's own transactions second. */
  function Resolve(db: Db, seen: map<Hash, Placed>, hash: Hash): Option<Placed> {
    var stored := GetTransaction(db, hash);
    if stored.Some? then stored
    else if hash in seen then Some(seen[hash])
    else None
  }

  function SpendOne(watch: set<Watch>, w: Watch, prev: Placed, index: nat, cur: Placed, a: nat): seq<Op> {
    if w in watch then
      [ Delete(Cell(w.kind, w.script, prev.block, prev.index, index)),
        Put(History(w.kind, w.script, cur.block, cur.index, a, false), Ref(cur.tx.hash)),
        Put(TxHash(cur.tx.hash), Transaction(cur.block, cur.index, cur.tx)) ]
    else []
  }

  function CreateOne(watch: set<Watch>, w: Watch, cur: Placed, o: nat): seq<Op> {
    if w in watch then
      [ Put(Cell(w.kind, w.script, cur.block, cur.index, o), Ref(cur.tx.hash)),
        Put(History(w.kind, w.script, cur.block, cur.index, o, true), Ref(cur.tx.hash)),
        Put(TxHash(cur.tx.hash), Transaction(cur.block, cur.index, cur.tx)) ]
    else []
  }

  /** What one input adds to the batch. */
  function InputOps(db: Db, watch: set<Watch>, seen: map<Hash, Placed>, cur: Placed, a: nat): seq<Op>
    requires a < |cur.tx.inputs|
  {
    var p := cur.tx.inputs[a];
    match Resolve(db, seen, p.hash)
    case None => []
    case Some(prev) =>
      if p.index < |prev.tx.outputs| then
        var out := prev.tx.outputs[p.index];
        SpendOne(watch, Watch(Lock, out.lock), prev, p.index, cur, a)
        + (if out.type_.Some? then SpendOne(watch, Watch(Type, out.type_.value), prev, p.index, cur, a) else [])
      else []
  }

  function OutputOps(watch: set<Watch>, cur: Placed, o: nat): seq<Op>
    requires o < |cur.tx.outputs|
  {
    var out := cur.tx.outputs[o];
    CreateOne(watch, Watch(Lock, out.lock), cur, o)
    + (if out.type_.Some? then CreateOne(watch, Watch(Type, out.type_.value), cur, o) else [])
  }

  function InputsOps(db: Db, watch: set<Watch>, seen: map<Hash, Placed>, cur: Placed, a: nat): seq<Op>
    requires a <= |cur.tx.inputs|
  {
    if a == 0 then [] else InputsOps(db, watch, seen, cur, a - 1) + InputOps(db, watch, seen, cur, a - 1)
  }

  function OutputsOps(watch: set<Watch>, cur: Placed, o: nat): seq<Op>
    requires o <= |cur.tx.outputs|
  {
    if o == 0 then [] else OutputsOps(watch, cur, o - 1) + OutputOps(watch, cur, o - 1)
  }

  function TxOps(db: Db, watch: set<Watch>, block: Block, t: nat): seq<Op>
    requires t < |block.txs|
  {
    var cur := Placed(block.number, t, block.txs[t]);
    InputsOps(db, watch, Seen(block, t), cur, |cur.tx.inputs|) + OutputsOps(watch, cur, |cur.tx.outputs|)
  }

  function BlockOps(db: Db, watch: set<Watch>, block: Block, t: nat): seq<Op>
    requires t <= |block.txs|
  {
    if t == 0 then [] else BlockOps(db, watch, block, t - 1) + TxOps(db, watch, block, t - 1)
  }

  function HeaderOps(block: Block): seq<Op> {
    [Put(BlockHash(block.hash), Header(block.number)), Put(BlockNumber(block.number), Ref(block.hash))]
  }

  /** The database after filtering one block. */
  function Filtered(db: Db, watch: set<Watch>, block: Block): Db {
    var ops := BlockOps(db, watch, block, |block.txs|);
    Apply(db, if ops != [] then ops + HeaderOps(block) else [])
  }

  // What a filtered database means

  function Get(db: Db, k: Key): Option<Value> {
    if k in db then Some(db[k]) else None
  }

  ghost function Expected(log: Log, watch: set<Watch>, k: Key): Option<Value>
    requires IsIndexKey(k)
  {
    if WatchOf(k) !in watch then None
    else match Expect(log, k)
      case Some(hash) => Some(Ref(hash))
      case None => None
  }

  /** The cell and history tables are exactly those of the log. */
  ghost predicate TablesMatch(db: Db, log: Log, watch: set<Watch>) {
    forall k: Key :: IsIndexKey(k) ==> Get(db, k) == Expected(log, watch, k)
  }

  /** Every relevant transaction is stored, at its position. */
  ghost predicate StoredRight(db: Db, log: Log, watch: set<Watch>) {
    forall p :: p in log && Relevant(log, p, watch) ==> GetTransaction(db, p.tx.hash) == Some(p)
  }

  /** The index is that of the log; the database may hold further transactions, which a rollback leaves behind. */
  ghost predicate Indexed(db: Db, log: Log, watch: set<Watch>) {
    TablesMatch(db, log, watch) && StoredRight(db, log, watch)
  }

  /** A hash names one transaction, wherever it is placed. */
  ghost predicate StoredSame(db: Db, log: Log) {
    forall h: Hash, p :: GetTransaction(db, h).Some? && p in log && p.tx.hash == h ==>
        GetTransaction(db, h).value.tx == p.tx
  }

  /** Nothing is left behind: all stored transactions are those of the log, at their positions. */
  ghost predicate NothingLeft(db: Db, log: Log) {
    forall h: Hash :: GetTransaction(db, h).Some? ==>
      GetTransaction(db, h).value in log && GetTransaction(db, h).value.tx.hash == h
  }
}
