/**
 Blocks and transactions, and what a script index over a chain has to hold. The chain is a log of
 transactions in chain order; the expected content of every index key is read off the log directly.
 */
module Chain {
  import opened Options
  import opened Keys

  datatype OutPoint = OutPoint(hash: Hash, index: nat)

  datatype Output = Output(lock: Script, type_: Option<Script>)

  datatype Tx = Tx(hash: Hash, inputs: seq<OutPoint>, outputs: seq<Output>)

  datatype Block = Block(hash: Hash, number: nat, txs: seq<Tx>)

  /** A registered script and the role in which it is registered. */
  datatype Watch = Watch(kind: ScriptType, script: Script)

  predicate Carries(o: Output, w: Watch) {
    match w.kind
    case Lock => o.lock == w.script
    case Type => o.type_ == Some(w.script)
  }

  /** A transaction at its position in the chain. */
  datatype Placed = Placed(block: nat, index: nat, tx: Tx)

  type Log = seq<Placed>

  predicate Precedes(p: Placed, q: Placed) {
    p.block < q.block || (p.block == q.block && p.index < q.index)
  }

  function Positions(block: Block): (log: Log)
    ensures |log| == |block.txs|
  {
    seq(|block.txs|, t requires 0 <= t < |block.txs| => Placed(block.number, t, block.txs[t]))
  }

  /** Chain order, unique hashes, and inputs that refer to earlier transactions only. */
  ghost predicate ValidLog(log: Log) {
    && (forall i, j :: 0 <= i < j < |log| ==> Precedes(log[i], log[j]) && log[i].tx.hash != log[j].tx.hash)
    && (forall i, j, a :: 0 <= i < |log| && 0 <= j < |log| && 0 <= a < |log[i].tx.inputs| ==>
          log[i].tx.inputs[a].hash == log[j].tx.hash ==> j < i)
  }

  /** No output of the log is spent by two inputs. */
  ghost predicate NoDoubleSpend(log: Log) {
    forall i, a, j, b ::
      (&& 0 <= i < |log| && 0 <= a < |log[i].tx.inputs|
       && 0 <= j < |log| && 0 <= b < |log[j].tx.inputs|
       && log[i].tx.inputs[a] == log[j].tx.inputs[b]
       && FindTx(log, log[i].tx.inputs[a].hash).Some?)
      ==> i == j && a == b
  }

  function FindTx(log: Log, hash: Hash): (r: Option<Placed>)
    ensures r.Some? ==> r.value in log && r.value.tx.hash == hash
    ensures r.None? ==> forall i :: 0 <= i < |log| ==> log[i].tx.hash != hash
  {
    if log == [] then None
    else if log[|log| - 1].tx.hash == hash then Some(log[|log| - 1])
    else FindTx(log[..|log| - 1], hash)
  }

  function FindAt(log: Log, block: nat, index: nat): (r: Option<Placed>)
    ensures r.Some? ==> r.value in log && r.value.block == block && r.value.index == index
    ensures r.None? ==> forall i :: 0 <= i < |log| ==> !(log[i].block == block && log[i].index == index)
  {
    if log == [] then None
    else if log[|log| - 1].block == block && log[|log| - 1].index == index then Some(log[|log| - 1])
    else FindAt(log[..|log| - 1], block, index)
  }

  ghost predicate SpentIn(log: Log, p: OutPoint) {
    exists i, a :: 0 <= i < |log| && 0 <= a < |log[i].tx.inputs| && log[i].tx.inputs[a] == p
  }

  /** The output an input refers to, if its transaction is in the log and has such an output. */
  function Referred(log: Log, p: OutPoint): Option<Output> {
    match FindTx(log, p.hash)
    case Some(prev) => if p.index < |prev.tx.outputs| then Some(prev.tx.outputs[p.index]) else None
    case None => None
  }

  predicate IsIndexKey(k: Key) {
    k.Cell? || k.History?
  }

  function WatchOf(k: Key): Watch
    requires IsIndexKey(k)
  {
    Watch(k.kind, k.script)
  }

  /**
   What the index holds under a key: a cell key exists for the unspent outputs that carry the script, a
   history key for the creations and the spends of such outputs; its value is the transaction hash.
   */
  ghost function Expect(log: Log, k: Key): Option<Hash>
    requires IsIndexKey(k)
  {
    match FindAt(log, k.block, k.tx)
    case None => None
    case Some(p) =>
      if k.Cell? then
        if k.io < |p.tx.outputs| && Carries(p.tx.outputs[k.io], WatchOf(k)) && !SpentIn(log, OutPoint(p.tx.hash, k.io))
        then Some(p.tx.hash) else None
      else if k.output then
        if k.io < |p.tx.outputs| && Carries(p.tx.outputs[k.io], WatchOf(k)) then Some(p.tx.hash) else None
      else if k.io < |p.tx.inputs| then
        var o := Referred(log, p.tx.inputs[k.io]);
        if o.Some? && Carries(o.value, WatchOf(k)) then Some(p.tx.hash) else None
      else None
  }

  /** The transaction creates or spends an output that carries a registered script. */
  ghost predicate Relevant(log: Log, p: Placed, watch: set<Watch>) {
    || (exists o, w :: 0 <= o < |p.tx.outputs| && w in watch && Carries(p.tx.outputs[o], w))
    || (exists a, w :: 0 <= a < |p.tx.inputs| && w in watch && SpendsWatched(log, p.tx.inputs[a], w))
  }

  ghost predicate SpendsWatched(log: Log, p: OutPoint, w: Watch) {
    var o := Referred(log, p);
    o.Some? && Carries(o.value, w)
  }

  // Facts about logs

  lemma FindTxAt(log: Log, i: nat)
    requires ValidLog(log) && i < |log|
    ensures FindTx(log, log[i].tx.hash) == Some(log[i])
  {
    var r := FindTx(log, log[i].tx.hash);
    var j :| 0 <= j < |log| && log[j] == r.value;
  }

  lemma FindAtAt(log: Log, i: nat)
    requires ValidLog(log) && i < |log|
    ensures FindAt(log, log[i].block, log[i].index) == Some(log[i])
  {
    var r := FindAt(log, log[i].block, log[i].index);
    var j :| 0 <= j < |log| && log[j] == r.value;
  }

  lemma ValidPrefix(log: Log, n: nat)
    requires ValidLog(log) && n <= |log|
    ensures ValidLog(log[..n])
  {
  }
}
