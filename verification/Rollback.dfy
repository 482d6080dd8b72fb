/**
 Rolling the script index back: a reverse scan over each registered script's history, newest entry
 first, restores spent cells, deletes created ones and deletes the history itself.
 */
module Rollback {
  import opened Options
  import opened Bytes
  import opened Keys
  import opened Chain
  import opened Index
  import opened RollbackScan

  /** The stored data that a history entry relies on: its transaction, with the input it names. */
  predicate Readable(db: Db, k: Key) {
    k in db && k.History? && HasInput(db, k, db[k])
  }

  predicate HasInput(db: Db, k: Key, v: Value)
    requires k.History?
  {
    !k.output ==>
      && v.Ref?
      && GetTransaction(db, v.hash).Some?
      && k.io < |GetTransaction(db, v.hash).value.tx.inputs|
  }

  function InputOf(db: Db, k: Key): OutPoint
    requires Readable(db, k) && !k.output
  {
    GetTransaction(db, db[k].hash).value.tx.inputs[k.io]
  }

  function CellAt(w: Watch, p: Placed, index: nat): Key {
    Cell(w.kind, w.script, p.block, p.index, index)
  }

  /** What the entry `k` with value `v` adds to the batch. */
  function UndoEntry(db: Db, k: Key, v: Value): seq<Op>
    requires k.History? && HasInput(db, k, v)
  {
    if k.output then
      [Delete(Cell(k.kind, k.script, k.block, k.tx, k.io)), Delete(k)]
    else
      var input := GetTransaction(db, v.hash).value.tx.inputs[k.io];
      var prev := GetTransaction(db, input.hash);
      (if prev.Some? then [Put(CellAt(WatchOf(k), prev.value, input.index), Ref(input.hash))] else []) + [Delete(k)]
  }

  function UndoOps(db: Db, k: Key): seq<Op>
    requires Readable(db, k)
  {
    UndoEntry(db, k, db[k])
  }

  function SweepOps(db: Db, ks: seq<Key>): seq<Op>
    requires forall k :: k in ks ==> Readable(db, k)
  {
    if ks == [] then [] else SweepOps(db, ks[..|ks| - 1]) + UndoOps(db, ks[|ks| - 1])
  }

  // The sweep on bytes

  /** Every number in a key fits the width of its field. */
  ghost predicate KeysFit(db: Db) {
    forall k :: k in db ==> Keys.Valid(k)
  }

  /** The key whose encoding an iterator yields. */
  function KeyOf(db: Db, y: Bytes): (k: Key)
    requires KeysFit(db) && y in Encoded(db.Keys)
    ensures k in db && Encode(k) == y
  {
    KeyIsUnique(db, y);
    var k :| k in db.Keys && Encode(k) == y;
    k
  }

  lemma KeyIsUnique(db: Db, y: Bytes)
    requires KeysFit(db)
    ensures forall j, k :: j in db.Keys && k in db.Keys && Encode(j) == y && Encode(k) == y ==> j == k
  {
    forall j, k | j in db.Keys && k in db.Keys && Encode(j) == y && Encode(k) == y ensures j == k {
      EncodeInjective(j, k);
    }
  }

  /** The bytes have all fields of an entry, and name stored data; otherwise a slice or a lookup panics. */
  ghost predicate IsUndoable(db: Db, w: Watch, y: Bytes)
    requires KeysFit(db)
  {
    && y in Encoded(db.Keys) && |HistoryPrefix(w.kind, w.script)| + 17 <= |y|
    && db[KeyOf(db, y)].Ref? && HasInput(db, Decoded(w, y), db[KeyOf(db, y)])
  }

  ghost predicate AllReadable(db: Db, w: Watch, to: nat) {
    KeysFit(db) && forall y :: y in ScannedBytes(db, w, to) ==> IsUndoable(db, w, y)
  }

  /** What one scanned key adds: its fields are cut out behind the script's prefix, whosever entry it is. */
  function UndoScanned(db: Db, w: Watch, y: Bytes): seq<Op>
    requires KeysFit(db) && IsUndoable(db, w, y)
  {
    UndoEntry(db, Decoded(w, y), db[KeyOf(db, y)])
  }

  function SweepBytes(db: Db, w: Watch, ys: seq<Bytes>): seq<Op>
    requires KeysFit(db) && forall y :: y in ys ==> IsUndoable(db, w, y)
  {
    if ys == [] then []
    else
      var y := ys[|ys| - 1];
      SweepBytes(db, w, ys[..|ys| - 1]) + UndoScanned(db, w, y)
  }

  function Sweep(db: Db, w: Watch, to: nat): seq<Op>
    requires AllReadable(db, w, to)
  {
    SweepBytes(db, w, ScannedBytes(db, w, to))
  }

  /** The content of one key after rolling back to block `to`, which is removed, too. */
  ghost function RolledBackKey(db: Db, scripts: map<Watch, nat>, to: nat, k: Key): Option<Value> {
    if IsIndexKey(k) && WatchOf(k) in scripts && scripts[WatchOf(k)] >= to && AllReadable(db, WatchOf(k), to)
    then Get(Apply(db, Sweep(db, WatchOf(k), to)), k)
    else Get(db, k)
  }

  /** The script numbers after a rollback. */
  function ScriptsAfter(scripts: map<Watch, nat>, to: nat): (r: map<Watch, nat>)
    ensures r.Keys == scripts.Keys
    ensures forall w :: w in r ==> r[w] <= to && r[w] <= scripts[w]
  {
    map w | w in scripts :: if scripts[w] >= to then to else scripts[w]
  }

  /** The number up to which filters count as checked after a rollback; it lies below `to`. */
  function MinFilteredAfter(minFiltered: nat, to: nat): (r: nat)
    ensures r <= minFiltered
    ensures to > 0 ==> r < to
  {
    if minFiltered >= to then (if to == 0 then 0 else to - 1) else minFiltered
  }

  // Locality of batches

  lemma {:induction false} ApplyUntouched(v: Db, ops: seq<Op>, k: Key)
    requires forall op :: op in ops ==> op.key != k
    ensures Get(Apply(v, ops), k) == Get(v, k)
  {
    if ops != [] {
      ApplyUntouched(v, ops[..|ops| - 1], k);
    }
  }

  lemma {:induction false} ApplyLocal(v: Db, v': Db, ops: seq<Op>, k: Key)
    requires Get(v, k) == Get(v', k)
    ensures Get(Apply(v, ops), k) == Get(Apply(v', ops), k)
  {
    if ops != [] {
      ApplyLocal(v, v', ops[..|ops| - 1], k);
    }
  }

  lemma {:induction false} SweepTouches(db: Db, ys: seq<Bytes>, w: Watch)
    requires KeysFit(db) && forall y :: y in ys ==> IsUndoable(db, w, y)
    ensures forall op :: op in SweepBytes(db, w, ys) ==> IsIndexKey(op.key) && WatchOf(op.key) == w
  {
    if ys != [] {
      SweepTouches(db, ys[..|ys| - 1], w);
      assert ys[|ys| - 1] in ys;
    }
  }

  /** The storage as far as script filtering is concerned. */
  class Storage {
    var db: Db
    // The registered scripts and the block number up to which each is filtered.
    var scripts: map<Watch, nat>
    var minFiltered: nat

    constructor ()
      ensures db == map[] && scripts == map[] && minFiltered == 0
    {
      db, scripts, minFiltered := map[], map[], 0;
    }

    method FilterBlock(block: Block)
      modifies this`db
      ensures db == Filtered(old(db), scripts.Keys, block)
    {
      var watch := scripts.Keys;
      var batch: seq<Op> := [];
      var txs: map<Hash, Placed> := map[];
      var t := 0;
      while t < |block.txs|
        invariant t <= |block.txs| && db == old(db)
        invariant txs == Seen(block, t)
        invariant batch == BlockOps(db, watch, block, t)
      {
        var cur := Placed(block.number, t, block.txs[t]);
        var ops := FilterTx(watch, txs, cur);
        batch := batch + ops;
        txs := txs[cur.tx.hash := cur];
        t := t + 1;
      }
      if batch != [] {
        batch := batch + HeaderOps(block);
      }
      db := Apply(db, batch);
    }

    /** The batch operations for one transaction: its inputs first, then its outputs. */
    method FilterTx(watch: set<Watch>, txs: map<Hash, Placed>, cur: Placed) returns (ops: seq<Op>)
      ensures ops == InputsOps(db, watch, txs, cur, |cur.tx.inputs|) + OutputsOps(watch, cur, |cur.tx.outputs|)
    {
      ops := [];
      for a := 0 to |cur.tx.inputs|
        invariant ops == InputsOps(db, watch, txs, cur, a)
      {
        ops := ops + InputOps(db, watch, txs, cur, a);
      }
      ghost var inputs := ops;
      for o := 0 to |cur.tx.outputs|
        invariant ops == inputs + OutputsOps(watch, cur, o)
      {
        assert inputs + OutputsOps(watch, cur, o) + OutputOps(watch, cur, o)
            == inputs + (OutputsOps(watch, cur, o) + OutputOps(watch, cur, o));
        ops := ops + OutputOps(watch, cur, o);
      }
    }

    method RollbackToBlock(to: nat)
      requires forall w :: w in scripts && scripts[w] >= to ==> AllReadable(db, w, to)
      modifies this
      ensures forall k: Key :: Get(db, k) == RolledBackKey(old(db), old(scripts), to, k)
      ensures scripts == ScriptsAfter(old(scripts), to)
      ensures minFiltered == MinFilteredAfter(old(minFiltered), to)
    {
      hide SweptBut, RolledBackKey, AllReadable, Sweep;
      var batch: seq<Op> := [];
      var updated := scripts;
      NothingSwept(db, scripts, to);
      var rest := scripts.Keys;
      while rest != {}
        invariant rest <= scripts.Keys && updated.Keys == scripts.Keys
        invariant unchanged(this)
        invariant forall w :: w in scripts ==>
                    updated[w] == if w !in rest && scripts[w] >= to then to else scripts[w]
        invariant SweptBut(db, scripts, to, batch, rest)
        decreases rest
      {
        var w :| w in rest;
        if scripts[w] >= to {
          var sweep := SweepScript(w, to);
          MergeSweep(db, scripts, to, batch, rest, w);
          batch := batch + sweep;
          updated := updated[w := to];
        } else {
          NoSweep(db, scripts, to, batch, rest, w);
        }
        rest := rest - {w};
      }
      if minFiltered >= to {
        minFiltered := if to == 0 then 0 else to - 1;
      }
      AllSwept(db, scripts, to, batch);
      db := Apply(db, batch);
      scripts := updated;
    }

    /** The batch operations for one script, collected while the iterator walks back over encoded keys. */
    method SweepScript(w: Watch, to: nat) returns (ops: seq<Op>)
      requires AllReadable(db, w, to)
      ensures ops == Sweep(db, w, to)
    {
      hide UndoEntry, IsUndoable, ScannedBytes, Decoded, Encode;
      var ys := ScannedBytes(db, w, to);
      ops := [];
      for i := 0 to |ys|
        invariant ops == SweepBytes(db, w, ys[..i])
      {
        assert ys[..i + 1][..i] == ys[..i];
        ops := ops + UndoScanned(db, w, ys[i]);
      }
      assert ys[..|ys|] == ys;
    }
  }

  /** The batch sweeps all scripts but those in `rest`. */
  ghost predicate SweptBut(db: Db, scripts: map<Watch, nat>, to: nat, batch: seq<Op>, rest: set<Watch>) {
    forall k: Key :: Get(Apply(db, batch), k)
      == if IsIndexKey(k) && WatchOf(k) in scripts && WatchOf(k) in rest then Get(db, k)
         else RolledBackKey(db, scripts, to, k)
  }

  lemma NothingSwept(db: Db, scripts: map<Watch, nat>, to: nat)
    ensures SweptBut(db, scripts, to, [], scripts.Keys)
  {
  }

  lemma NoSweep(db: Db, scripts: map<Watch, nat>, to: nat, batch: seq<Op>, rest: set<Watch>, w: Watch)
    requires SweptBut(db, scripts, to, batch, rest) && w in scripts && scripts[w] < to
    ensures SweptBut(db, scripts, to, batch, rest - {w})
  {
  }

  lemma AllSwept(db: Db, scripts: map<Watch, nat>, to: nat, batch: seq<Op>)
    requires SweptBut(db, scripts, to, batch, {})
    ensures forall k: Key :: Get(Apply(db, batch), k) == RolledBackKey(db, scripts, to, k)
  {
  }

  /** Sweeping one more script changes the keys of that script only. */
  lemma MergeSweep(db: Db, scripts: map<Watch, nat>, to: nat, batch: seq<Op>, rest: set<Watch>, w: Watch)
    requires w in rest && w in scripts && scripts[w] >= to && AllReadable(db, w, to)
    requires SweptBut(db, scripts, to, batch, rest)
    ensures SweptBut(db, scripts, to, batch + Sweep(db, w, to), rest - {w})
  {
    var sweep := Sweep(db, w, to);
    ApplyConcat(db, batch, sweep);
    SweepTouches(db, ScannedBytes(db, w, to), w);
    forall k: Key
      ensures Get(Apply(db, batch + sweep), k)
           == if IsIndexKey(k) && WatchOf(k) in scripts && WatchOf(k) in rest - {w} then Get(db, k)
              else RolledBackKey(db, scripts, to, k)
    {
      if IsIndexKey(k) && WatchOf(k) == w {
        ApplyLocal(Apply(db, batch), db, sweep, k);
      } else {
        ApplyUntouched(Apply(db, batch), sweep, k);
      }
    }
  }
}
