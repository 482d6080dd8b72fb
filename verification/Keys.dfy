/** The encoding of database keys and of the records stored as raw bytes, and the scans over them. */
module Keys {
  import opened Bytes

  type Hash = h: Bytes | |h| == 32 witness seq(32, _ => 0)

  datatype Script = Script(codeHash: Hash, hashType: Byte, args: Bytes)

  datatype ScriptType = Lock | Type

  datatype Key =
    | TxHash(hash: Hash)
    | Cell(kind: ScriptType, script: Script, block: nat, tx: nat, io: nat)
    | History(kind: ScriptType, script: Script, block: nat, tx: nat, io: nat, output: bool)
    | BlockHash(hash: Hash)
    | BlockNumber(block: nat)
    | CheckPointIndex(index: nat)
    | Meta(name: Bytes)

  /** Numbers fit the fixed widths that the encoding gives them. */
  predicate Valid(k: Key) {
    match k
    case Cell(_, _, block, tx, io) => block < Capacity(8) && tx < Capacity(4) && io < Capacity(4)
    case History(_, _, block, tx, io, _) => block < Capacity(8) && tx < Capacity(4) && io < Capacity(4)
    case BlockNumber(block) => block < Capacity(8)
    case CheckPointIndex(index) => index < Capacity(4)
    case _ => true
  }

  function Raw(s: Script): Bytes {
    s.codeHash + [s.hashType] + s.args
  }

  function Tag(k: Key): Byte {
    match k
    case TxHash(_) => 0
    case Cell(Lock, _, _, _, _) => 32
    case Cell(Type, _, _, _, _) => 64
    case History(Lock, _, _, _, _, _) => 96
    case History(Type, _, _, _, _, _) => 128
    case BlockHash(_) => 160
    case BlockNumber(_) => 192
    case CheckPointIndex(_) => 208
    case Meta(_) => 224
  }

  function Position(block: nat, tx: nat, io: nat): (s: Bytes)
    ensures |s| == 16
  {
    Big(block, 8) + Big(tx, 4) + Big(io, 4)
  }

  function Flag(output: bool): Byte {
    if output then 1 else 0
  }

  function Payload(k: Key): Bytes {
    match k
    case TxHash(hash) => hash
    case Cell(_, script, block, tx, io) => Raw(script) + Position(block, tx, io)
    case History(_, script, block, tx, io, output) => Raw(script) + (Position(block, tx, io) + [Flag(output)])
    case BlockHash(hash) => hash
    case BlockNumber(block) => Big(block, 8)
    case CheckPointIndex(index) => Big(index, 4)
    case Meta(name) => name
  }

  function Encode(k: Key): Bytes {
    [Tag(k)] + Payload(k)
  }

  lemma RawInjective(s: Script, t: Script)
    requires Raw(s) == Raw(t)
    ensures s == t
  {
    assert Raw(s)[..32] == s.codeHash && Raw(t)[..32] == t.codeHash;
    assert Raw(s)[32] == s.hashType && Raw(t)[32] == t.hashType;
    assert Raw(s)[33..] == s.args && Raw(t)[33..] == t.args;
  }

  lemma PositionInjective(b: nat, t: nat, i: nat, b': nat, t': nat, i': nat)
    requires b < Capacity(8) && t < Capacity(4) && i < Capacity(4)
    requires b' < Capacity(8) && t' < Capacity(4) && i' < Capacity(4)
    requires Position(b, t, i) == Position(b', t', i')
    ensures b == b' && t == t' && i == i'
  {
    var p, q := Position(b, t, i), Position(b', t', i');
    assert p[..8] == Big(b, 8) && q[..8] == Big(b', 8);
    assert p[8..12] == Big(t, 4) && q[8..12] == Big(t', 4);
    assert p[12..] == Big(i, 4) && q[12..] == Big(i', 4);
    BigInjective(b, b', 8);
    BigInjective(t, t', 4);
    BigInjective(i, i', 4);
  }

  lemma SplitAtEnd(a: Bytes, x: Bytes, b: Bytes, y: Bytes)
    requires a + x == b + y && |x| == |y|
    ensures a == b && x == y
  {
    assert (a + x)[..|a|] == a && (b + y)[..|b|] == b;
    assert (a + x)[|a|..] == x && (b + y)[|b|..] == y;
  }

  /** No two keys share an encoding, across all tables. */
  lemma EncodeInjective(j: Key, k: Key)
    requires Valid(j) && Valid(k) && Encode(j) == Encode(k)
    ensures j == k
  {
    assert Encode(j)[0] == Tag(j) && Encode(k)[0] == Tag(k);
    assert Encode(j)[1..] == Payload(j) && Encode(k)[1..] == Payload(k);
    match j
    case Cell(_, script, block, tx, io) =>
      SplitAtEnd(Raw(script), Position(block, tx, io), Raw(k.script), Position(k.block, k.tx, k.io));
      RawInjective(script, k.script);
      PositionInjective(block, tx, io, k.block, k.tx, k.io);
    case History(_, script, block, tx, io, output) =>
      var x, y := Position(block, tx, io) + [Flag(output)], Position(k.block, k.tx, k.io) + [Flag(k.output)];
      SplitAtEnd(Raw(script), x, Raw(k.script), y);
      SplitAtEnd(Position(block, tx, io), [Flag(output)], Position(k.block, k.tx, k.io), [Flag(k.output)]);
      assert [Flag(output)][0] == [Flag(k.output)][0];
      RawInjective(script, k.script);
      PositionInjective(block, tx, io, k.block, k.tx, k.io);
    case BlockNumber(block) =>
      BigInjective(block, k.block, 8);
    case CheckPointIndex(index) =>
      BigInjective(index, k.index, 4);
    case _ =>
  }

  /** Position in the chain: block, then transaction, then cell; inputs before outputs of the same index. */
  predicate Earlier(b: nat, t: nat, i: nat, o: bool, b': nat, t': nat, i': nat, o': bool) {
    || b < b'
    || (b == b' && t < t')
    || (b == b' && t == t' && i < i')
    || (b == b' && t == t' && i == i' && !o && o')
  }

  lemma PositionOrder(b: nat, t: nat, i: nat, x: Bytes, b': nat, t': nat, i': nat, y: Bytes)
    requires b < Capacity(8) && t < Capacity(4) && i < Capacity(4)
    requires b' < Capacity(8) && t' < Capacity(4) && i' < Capacity(4)
    ensures Less(Position(b, t, i) + x, Position(b', t', i') + y)
       <==> || b < b'
            || (b == b' && t < t')
            || (b == b' && t == t' && i < i')
            || (b == b' && t == t' && i == i' && Less(x, y))
  {
    assert Position(b, t, i) + x == Big(b, 8) + (Big(t, 4) + (Big(i, 4) + x));
    assert Position(b', t', i') + y == Big(b', 8) + (Big(t', 4) + (Big(i', 4) + y));
    LessByFields(Big(b, 8), Big(t, 4) + (Big(i, 4) + x), Big(b', 8), Big(t', 4) + (Big(i', 4) + y));
    LessByFields(Big(t, 4), Big(i, 4) + x, Big(t', 4), Big(i', 4) + y);
    LessByFields(Big(i, 4), x, Big(i', 4), y);
    FieldOrder(b, b', 8);
    FieldOrder(t, t', 4);
    FieldOrder(i, i', 4);
  }

  lemma FieldOrder(m: nat, n: nat, width: nat)
    requires m < Capacity(width) && n < Capacity(width)
    ensures Less(Big(m, width), Big(n, width)) <==> m < n
    ensures Big(m, width) == Big(n, width) <==> m == n
  {
    BigOrder(m, n, width);
    if Big(m, width) == Big(n, width) {
      BigInjective(m, n, width);
    }
  }

  /** Within one table of one script the database iterates in chain order. */
  lemma HistoryOrder(j: Key, k: Key)
    requires j.History? && k.History? && Valid(j) && Valid(k) && j.kind == k.kind && j.script == k.script
    ensures Less(Encode(j), Encode(k)) <==> Earlier(j.block, j.tx, j.io, j.output, k.block, k.tx, k.io, k.output)
  {
    var p := [Tag(j)] + Raw(j.script);
    var x, y := Position(j.block, j.tx, j.io) + [Flag(j.output)], Position(k.block, k.tx, k.io) + [Flag(k.output)];
    assert Encode(j) == p + x && Encode(k) == p + y;
    LessAfterPrefix(p, x, y);
    PositionOrder(j.block, j.tx, j.io, [Flag(j.output)], k.block, k.tx, k.io, [Flag(k.output)]);
    LessOneByte(Flag(j.output), Flag(k.output));
  }

  lemma CellOrder(j: Key, k: Key)
    requires j.Cell? && k.Cell? && Valid(j) && Valid(k) && j.kind == k.kind && j.script == k.script
    ensures Less(Encode(j), Encode(k)) <==> Earlier(j.block, j.tx, j.io, true, k.block, k.tx, k.io, true)
  {
    var p := [Tag(j)] + Raw(j.script);
    var x, y := Position(j.block, j.tx, j.io), Position(k.block, k.tx, k.io);
    assert Encode(j) == p + (x + []) && Encode(k) == p + (y + []);
    LessAfterPrefix(p, x + [], y + []);
    PositionOrder(j.block, j.tx, j.io, [], k.block, k.tx, k.io, []);
  }

  // The reverse scan of a rollback

  function HistoryPrefix(kind: ScriptType, script: Script): Bytes {
    [Tag(History(kind, script, 0, 0, 0, false))] + Raw(script)
  }

  ghost predicate PrefixFree(scripts: set<Script>) {
    forall s, t :: s in scripts && t in scripts && Raw(s) <= Raw(t) ==> s == t
  }

  /** With prefix-free scripts a script's prefix selects the history keys of that script only. */
  lemma HistoryPrefixSelects(kind: ScriptType, script: Script, k: Key, scripts: set<Script>)
    requires PrefixFree(scripts) && script in scripts
    requires k.History? ==> k.script in scripts
    requires HistoryPrefix(kind, script) <= Encode(k)
    ensures k.History? && k.kind == kind && k.script == script
  {
    var p := HistoryPrefix(kind, script);
    assert p[0] == Encode(k)[0];
    assert p[1..] == Raw(script) && Encode(k)[1..] == Payload(k);
    assert Raw(script) <= Payload(k) by {
      assert Encode(k)[..|p|] == p;
      assert Payload(k)[..|Raw(script)|] == Raw(script);
    }
    assert Raw(k.script) <= Payload(k);
    PrefixesCompare(Raw(script), Raw(k.script), Payload(k));
  }

  lemma PrefixesCompare(a: Bytes, b: Bytes, c: Bytes)
    requires a <= c && b <= c
    ensures a <= b || b <= a
  {
    if |a| <= |b| {
      assert a == c[..|a|] == b[..|a|];
    } else {
      assert b == c[..|b|] == a[..|b|];
    }
  }

  /** What a reverse iterator from `from` yields while `keep` holds: everything above the first key it fails on. */
  ghost function ReverseScan(keys: set<Bytes>, from: Bytes, keep: Bytes -> bool): set<Bytes> {
    set x | x in keys && AtMost(x, from) && forall y :: y in keys && AtMost(x, y) && AtMost(y, from) ==> keep(y)
  }

  predicate KeepForRollback(prefix: Bytes, to: nat, y: Bytes) {
    prefix <= y && |prefix| + 8 <= |y| && FromBig(y[|prefix|..|prefix| + 8]) >= to
  }

  function RollbackStart(kind: ScriptType, script: Script): Bytes {
    HistoryPrefix(kind, script) + Big(Capacity(8) - 1, 8)
  }

  lemma HistoryBlockField(k: Key)
    requires k.History? && Valid(k)
    ensures var p := HistoryPrefix(k.kind, k.script);
            p <= Encode(k) && |p| + 8 <= |Encode(k)| && FromBig(Encode(k)[|p|..|p| + 8]) == k.block
  {
    var p := HistoryPrefix(k.kind, k.script);
    assert Encode(k) == p + (Position(k.block, k.tx, k.io) + [Flag(k.output)]);
    assert Encode(k)[|p|..|p| + 8] == Big(k.block, 8);
    BigRoundTrip(k.block, 8);
  }

  lemma BigBelowMax(n: nat, width: nat, x: Bytes)
    requires n < Capacity(width) - 1
    ensures Less(Big(n, width) + x, Big(Capacity(width) - 1, width))
  {
    var max := Big(Capacity(width) - 1, width);
    LessByFields(Big(n, width), x, max, []);
    BigOrder(n, Capacity(width) - 1, width);
    assert max + [] == max;
  }

  /** Every history key of a script below the last block number lies below the start of its scan. */
  lemma HistoryBelowStart(k: Key)
    requires k.History? && Valid(k) && k.block < Capacity(8) - 1
    ensures Less(Encode(k), RollbackStart(k.kind, k.script))
  {
    hide Less, Big, Capacity;
    var p := HistoryPrefix(k.kind, k.script);
    var x := Big(k.tx, 4) + Big(k.io, 4) + [Flag(k.output)];
    var field := Big(k.block, 8) + x;
    assert Encode(k) == p + field;
    BigBelowMax(k.block, 8, x);
    LessAfterPrefix(p, field, Big(Capacity(8) - 1, 8));
  }

  /** A database whose keys are encodings, with prefix-free scripts and block numbers below the maximum. */
  ghost predicate WellFormed(stored: set<Key>, scripts: set<Script>) {
    && PrefixFree(scripts)
    && forall k :: k in stored ==> Valid(k) && (k.History? ==> k.script in scripts && k.block < Capacity(8) - 1)
  }

  function Encoded(stored: set<Key>): set<Bytes> {
    set k | k in stored :: Encode(k)
  }

  /** Whatever lies between a history key to be rolled back and the start of the scan is one, too. */
  lemma ScanStaysInHistory(stored: set<Key>, scripts: set<Script>, k: Key, j: Key, to: nat)
    requires WellFormed(stored, scripts) && k in stored && j in stored
    requires k.History? && k.script in scripts && k.block >= to
    requires AtMost(Encode(k), Encode(j)) && AtMost(Encode(j), RollbackStart(k.kind, k.script))
    ensures KeepForRollback(HistoryPrefix(k.kind, k.script), to, Encode(j))
  {
    hide Encode, Less;
    var p := HistoryPrefix(k.kind, k.script);
    HistoryBlockField(k);
    PrefixInterval(p, Encode(k), Encode(j), RollbackStart(k.kind, k.script));
    HistoryPrefixSelects(k.kind, k.script, j, scripts);
    HistoryBlockField(j);
    if Encode(k) == Encode(j) {
      EncodeInjective(k, j);
    } else {
      HistoryOrder(k, j);
    }
  }

  /** The scan of a rollback finds exactly the script's history from the target block on. */
  lemma RollbackScanIsExact(stored: set<Key>, scripts: set<Script>, kind: ScriptType, script: Script, to: nat, k: Key)
    requires WellFormed(stored, scripts) && script in scripts && k in stored
    ensures var p := HistoryPrefix(kind, script);
            Encode(k) in ReverseScan(Encoded(stored), RollbackStart(kind, script), y => KeepForRollback(p, to, y))
            <==> k.History? && k.kind == kind && k.script == script && k.block >= to
  {
    hide Encode, Less, RollbackStart, HistoryPrefix;
    var p := HistoryPrefix(kind, script);
    var from := RollbackStart(kind, script);
    var keys := Encoded(stored);
    assert Encode(k) in keys;
    if k.History? && k.kind == kind && k.script == script && k.block >= to {
      HistoryBelowStart(k);
      forall y | y in keys && AtMost(Encode(k), y) && AtMost(y, from) ensures KeepForRollback(p, to, y) {
        var j :| j in stored && Encode(j) == y;
        ScanStaysInHistory(stored, scripts, k, j, to);
      }
    } else if KeepForRollback(p, to, Encode(k)) {
      HistoryPrefixSelects(kind, script, k, scripts);
      HistoryBlockField(k);
    }
  }

  // Matched-block records

  function Ascii(s: string): Bytes {
    seq(|s|, i requires 0 <= i < |s| => s[i] as int % 256)
  }

  const MATCHED_BLOCKS: Bytes := Ascii("MATCHED_BLOCKS")

  function MatchedPrefix(): Bytes {
    Encode(Meta(MATCHED_BLOCKS))
  }

  function MatchedKey(start: nat): Bytes {
    MatchedPrefix() + Big(start, 8)
  }

  lemma MatchedKeyOrder(a: nat, b: nat)
    requires a < Capacity(8) && b < Capacity(8)
    ensures Less(MatchedKey(a), MatchedKey(b)) <==> a < b
    ensures MatchedKey(a) == MatchedKey(b) <==> a == b
  {
    LessAfterPrefix(MatchedPrefix(), Big(a, 8), Big(b, 8));
    FieldOrder(a, b, 8);
    if MatchedKey(a) == MatchedKey(b) {
      assert MatchedKey(a)[|MatchedPrefix()|..] == Big(a, 8);
    }
  }

  /** The keys with the prefix of matched blocks are those of the stored start numbers. */
  ghost predicate HoldsBatches(keys: set<Bytes>, starts: set<nat>) {
    && (forall n :: n in starts ==> n < Capacity(8) && MatchedKey(n) in keys)
    && (forall k :: k in keys && MatchedPrefix() <= k ==> exists n :: n in starts && k == MatchedKey(n))
  }

  ghost predicate IsFirstFrom(keys: set<Bytes>, from: Bytes, k: Bytes) {
    k in keys && AtMost(from, k) && forall x :: x in keys && AtMost(from, x) ==> AtMost(k, x)
  }

  ghost predicate IsLastFrom(keys: set<Bytes>, from: Bytes, k: Bytes) {
    k in keys && AtMost(k, from) && forall x :: x in keys && AtMost(x, from) ==> AtMost(x, k)
  }

  lemma {:induction false} PrefixAtMost(p: Bytes, k: Bytes)
    requires p <= k
    ensures AtMost(p, k)
  {
    if p != [] {
      assert p[1..] <= k[1..];
      PrefixAtMost(p[1..], k[1..]);
      if p[1..] == k[1..] {
        assert p == [p[0]] + p[1..] == [k[0]] + k[1..] == k;
      }
    } else if k == [] {
      assert p == k;
    }
  }

  /** The forward scan meets the smallest start number first, or no batch at all. */
  lemma EarliestBatch(keys: set<Bytes>, starts: set<nat>, k: Bytes)
    requires HoldsBatches(keys, starts) && IsFirstFrom(keys, MatchedPrefix(), k)
    ensures MatchedPrefix() <= k <==> starts != {}
    ensures MatchedPrefix() <= k ==> exists n :: n in starts && k == MatchedKey(n) && forall m :: m in starts ==> n <= m
  {
    forall m | m in starts ensures AtMost(k, MatchedKey(m)) {
      PrefixAtMost(MatchedPrefix(), MatchedKey(m));
    }
    if m :| m in starts {
      PrefixInterval(MatchedPrefix(), MatchedPrefix(), k, MatchedKey(m));
    }
    if MatchedPrefix() <= k {
      var n :| n in starts && k == MatchedKey(n);
      forall m | m in starts ensures n <= m {
        MatchedKeyOrder(n, m);
      }
    }
  }

  lemma LatestBatch(keys: set<Bytes>, starts: set<nat>, k: Bytes)
    requires HoldsBatches(keys, starts) && IsLastFrom(keys, MatchedKey(Capacity(8) - 1), k)
    ensures MatchedPrefix() <= k <==> starts != {}
    ensures MatchedPrefix() <= k ==> exists n :: n in starts && k == MatchedKey(n) && forall m :: m in starts ==> m <= n
  {
    forall m | m in starts ensures AtMost(MatchedKey(m), k) {
      MatchedKeyOrder(m, Capacity(8) - 1);
    }
    if m :| m in starts {
      PrefixInterval(MatchedPrefix(), MatchedKey(m), k, MatchedKey(Capacity(8) - 1));
    }
    if MatchedPrefix() <= k {
      var n :| n in starts && k == MatchedKey(n);
      forall m | m in starts ensures m <= n {
        MatchedKeyOrder(m, n);
      }
    }
  }

  function MatchedValue(count: nat, blocks: seq<(Hash, bool)>): Bytes {
    Little(count, 8) + MatchedEntries(blocks)
  }

  function MatchedEntries(blocks: seq<(Hash, bool)>): (s: Bytes)
    ensures |s| == 33 * |blocks|
  {
    if blocks == [] then [] else blocks[0].0 + [Flag(blocks[0].1)] + MatchedEntries(blocks[1..])
  }

  function ParseEntries(data: Bytes): seq<(Hash, bool)>
    requires |data| % 33 == 0
    decreases |data|
  {
    if data == [] then [] else [(data[..32], data[32] == 1)] + ParseEntries(data[33..])
  }

  lemma {:induction false} EntriesRoundTrip(blocks: seq<(Hash, bool)>)
    ensures ParseEntries(MatchedEntries(blocks)) == blocks
  {
    if blocks != [] {
      var data := MatchedEntries(blocks);
      assert data[..32] == blocks[0].0 && data[32] == Flag(blocks[0].1);
      assert data[33..] == MatchedEntries(blocks[1..]);
      EntriesRoundTrip(blocks[1..]);
    }
  }

  function ParseMatched(data: Bytes): (nat, seq<(Hash, bool)>)
    requires |data| >= 8 && (|data| - 8) % 33 == 0
  {
    (FromLittle(data[..8]), ParseEntries(data[8..]))
  }

  lemma MatchedRoundTrip(count: nat, blocks: seq<(Hash, bool)>)
    requires count < Capacity(8)
    ensures |MatchedValue(count, blocks)| >= 8 && (|MatchedValue(count, blocks)| - 8) % 33 == 0
    ensures ParseMatched(MatchedValue(count, blocks)) == (count, blocks)
  {
    var data := MatchedValue(count, blocks);
    assert data[..8] == Little(count, 8) && data[8..] == MatchedEntries(blocks);
    LittleRoundTrip(count, 8);
    EntriesRoundTrip(blocks);
  }

  // The last n headers

  function LastHeadersValue(headers: seq<(nat, Hash)>): (s: Bytes)
    ensures |s| == 40 * |headers|
  {
    if headers == [] then [] else Little(headers[0].0, 8) + headers[0].1 + LastHeadersValue(headers[1..])
  }

  function ParseLastHeaders(data: Bytes): seq<(nat, Hash)>
    requires |data| % 40 == 0
    decreases |data|
  {
    if data == [] then [] else [(FromLittle(data[..8]), data[8..40])] + ParseLastHeaders(data[40..])
  }

  lemma {:induction false} LastHeadersRoundTrip(headers: seq<(nat, Hash)>)
    requires forall i :: 0 <= i < |headers| ==> headers[i].0 < Capacity(8)
    ensures ParseLastHeaders(LastHeadersValue(headers)) == headers
  {
    if headers != [] {
      var data := LastHeadersValue(headers);
      assert data[..8] == Little(headers[0].0, 8) && data[8..40] == headers[0].1;
      assert data[40..] == LastHeadersValue(headers[1..]);
      LittleRoundTrip(headers[0].0, 8);
      LastHeadersRoundTrip(headers[1..]);
    }
  }
}
