/**
 The reverse scan of a rollback, on bytes: the iterator walks back over encoded keys from the script's last
 possible one, while they have the script's prefix and a block number that is rolled back; the fields of a
 key are cut out of its bytes. With prefix-free scripts this meets the script's history, newest first.
 */
module RollbackScan {
  import opened Bytes
  import opened Keys
  import opened Chain
  import opened Index

  predicate EarlierKey(j: Key, k: Key)
    requires j.History? && k.History?
  {
    Earlier(j.block, j.tx, j.io, j.output, k.block, k.tx, k.io, k.output)
  }

  predicate HistoryOf(s: set<Key>, w: Watch) {
    forall k :: k in s ==> k.History? && WatchOf(k) == w
  }

  /** The history entries of one script from block `to` on. */
  function HistoryFrom(db: Db, w: Watch, to: nat): (s: set<Key>)
    ensures HistoryOf(s, w)
  {
    set k | k in db.Keys && k.History? && WatchOf(k) == w && k.block >= to
  }

  lemma {:induction false} LatestExists(s: set<Key>, w: Watch)
    requires s != {} && HistoryOf(s, w)
    ensures exists k :: IsLatest(s, w, k)
  {
    var x :| x in s;
    if s == {x} {
      assert IsLatest(s, w, x);
    } else {
      LatestExists(s - {x}, w);
      var m :| IsLatest(s - {x}, w, m);
      if x == m || EarlierKey(x, m) {
        assert IsLatest(s, w, m);
      } else {
        assert EarlierKey(m, x);
        forall j | j in s ensures j == x || EarlierKey(j, x) {
          assert j != x ==> j in s - {x};
        }
        assert IsLatest(s, w, x);
      }
    }
  }

  predicate IsLatest(s: set<Key>, w: Watch, k: Key)
    requires HistoryOf(s, w)
  {
    k in s && forall j :: j in s ==> j == k || EarlierKey(j, k)
  }

  function Latest(s: set<Key>, w: Watch): (k: Key)
    requires s != {} && HistoryOf(s, w)
    ensures IsLatest(s, w, k)
  {
    LatestExists(s, w);
    var k :| k in s && IsLatest(s, w, k);
    k
  }

  /** History entries in reverse chain order: newest first. */
  function Descending(s: set<Key>, w: Watch): (ks: seq<Key>)
    requires HistoryOf(s, w)
    ensures forall k :: k in ks <==> k in s
    ensures forall i, j :: 0 <= i < j < |ks| ==> EarlierKey(ks[j], ks[i])
  {
    if s == {} then []
    else
      var k := Latest(s, w);
      [k] + Descending(s - {k}, w)
  }

  // The scan on bytes

  predicate IsGreatest(s: set<Bytes>, x: Bytes) {
    x in s && forall y :: y in s ==> AtMost(y, x)
  }

  lemma {:induction false} GreatestExists(s: set<Bytes>)
    requires s != {}
    ensures exists x :: IsGreatest(s, x)
  {
    var x :| x in s;
    if s == {x} {
      assert IsGreatest(s, x);
    } else {
      GreatestExists(s - {x});
      var m :| IsGreatest(s - {x}, m);
      LessTotal(x, m);
      var g := if Less(m, x) then x else m;
      forall y | y in s ensures AtMost(y, g) {
        if y != x && Less(y, m) && Less(m, x) {
          LessTransitive(y, m, x);
        }
        assert y != x ==> y in s - {x};
      }
      assert IsGreatest(s, g);
    }
  }

  function Greatest(s: set<Bytes>): (x: Bytes)
    requires s != {}
    ensures IsGreatest(s, x)
  {
    GreatestExists(s);
    GreatestIsUnique(s);
    var x :| x in s && IsGreatest(s, x);
    x
  }

  lemma GreatestIsUnique(s: set<Bytes>)
    ensures forall x, y :: IsGreatest(s, x) && IsGreatest(s, y) ==> x == y
  {
    forall x, y | IsGreatest(s, x) && IsGreatest(s, y) ensures x == y {
      if Less(x, y) {
        LessAsymmetric(x, y);
      }
    }
  }

  function UpTo(keys: set<Bytes>, from: Bytes): set<Bytes> {
    set x | x in keys && AtMost(x, from)
  }

  /** What a reverse iterator from `from` yields while `keep` holds, in its order. */
  function ByteScan(keys: set<Bytes>, from: Bytes, keep: Bytes -> bool): seq<Bytes>
    decreases |UpTo(keys, from)|
  {
    var below := UpTo(keys, from);
    if below == {} then []
    else
      var y := Greatest(below);
      if !keep(y) then []
      else
        assert UpTo(below - {y}, from) == below - {y};
        [y] + ByteScan(below - {y}, from, keep)
  }

  predicate StrictlyDescending(ys: seq<Bytes>) {
    forall i, j :: 0 <= i < j < |ys| ==> Less(ys[j], ys[i])
  }

  lemma {:induction false} ByteScanIsReverseScan(keys: set<Bytes>, from: Bytes, keep: Bytes -> bool)
    ensures StrictlyDescending(ByteScan(keys, from, keep))
    ensures forall y :: y in ByteScan(keys, from, keep) <==> y in ReverseScan(keys, from, keep)
    decreases |UpTo(keys, from)|
  {
    hide ReverseScan;
    var below := UpTo(keys, from);
    ScanStaysBelow(keys, from, keep);
    if below != {} {
      var g := Greatest(below);
      if keep(g) {
        assert UpTo(below - {g}, from) == below - {g};
        ByteScanIsReverseScan(below - {g}, from, keep);
        ScanWithoutGreatest(keys, from, keep, g);
        ScanStaysBelow(below - {g}, from, keep);
        var rest := ByteScan(below - {g}, from, keep);
        assert ByteScan(keys, from, keep) == [g] + rest;
        forall y | y in rest ensures Less(y, g) {
          assert y in UpTo(below - {g}, from);
        }
        GreaterInFront(g, rest);
      } else {
        ScanStopsAtGreatest(keys, from, keep, g);
        assert ByteScan(keys, from, keep) == [];
      }
    }
  }

  lemma GreaterInFront(g: Bytes, rest: seq<Bytes>)
    requires StrictlyDescending(rest) && forall y :: y in rest ==> Less(y, g)
    ensures StrictlyDescending([g] + rest)
  {
    var ys := [g] + rest;
    forall i, j | 0 <= i < j < |ys| ensures Less(ys[j], ys[i]) {
      assert ys[j] == rest[j - 1] && rest[j - 1] in rest;
    }
  }

  lemma ScanStaysBelow(keys: set<Bytes>, from: Bytes, keep: Bytes -> bool)
    ensures ReverseScan(keys, from, keep) <= UpTo(keys, from)
  {
  }

  lemma ScanStopsAtGreatest(keys: set<Bytes>, from: Bytes, keep: Bytes -> bool, g: Bytes)
    requires IsGreatest(UpTo(keys, from), g) && !keep(g)
    ensures ReverseScan(keys, from, keep) == {}
  {
    forall x | x in UpTo(keys, from) ensures x !in ReverseScan(keys, from, keep) {
      assert AtMost(x, g) && g in keys && AtMost(g, from);
    }
    ScanStaysBelow(keys, from, keep);
  }

  lemma ScanWithoutGreatest(keys: set<Bytes>, from: Bytes, keep: Bytes -> bool, g: Bytes)
    requires IsGreatest(UpTo(keys, from), g) && keep(g)
    ensures ReverseScan(keys, from, keep) == ReverseScan(UpTo(keys, from) - {g}, from, keep) + {g}
  {
    var below := UpTo(keys, from);
    forall x | x in ReverseScan(below - {g}, from, keep) ensures x in ReverseScan(keys, from, keep) {
      forall y | y in keys && AtMost(x, y) && AtMost(y, from) ensures keep(y) {
        assert y in below;
      }
    }
    forall y | y in keys && AtMost(g, y) && AtMost(y, from) ensures y == g {
      assert y in below;
      if Less(g, y) {
        LessAsymmetric(g, y);
      }
    }
    assert g in ReverseScan(keys, from, keep);
  }

  /** A strictly descending sequence is determined by its members. */
  lemma {:induction false} DescendingIsUnique(xs: seq<Bytes>, ys: seq<Bytes>)
    requires StrictlyDescending(xs) && StrictlyDescending(ys)
    requires forall x :: x in xs <==> x in ys
    ensures xs == ys
  {
    assert xs != [] ==> xs[0] in ys;
    assert ys != [] ==> ys[0] in xs;
    if xs != [] && ys != [] {
      FirstIsGreatest(xs, ys[0]);
      FirstIsGreatest(ys, xs[0]);
      if Less(xs[0], ys[0]) {
        LessAsymmetric(xs[0], ys[0]);
      }
      forall x ensures x in xs[1..] <==> x in ys[1..] {
        FirstIsOnce(xs, x);
        FirstIsOnce(ys, x);
      }
      DescendingIsUnique(xs[1..], ys[1..]);
    }
  }

  lemma FirstIsGreatest(xs: seq<Bytes>, x: Bytes)
    requires StrictlyDescending(xs) && x in xs
    ensures AtMost(x, xs[0])
  {
    var i :| 0 <= i < |xs| && xs[i] == x;
    assert i > 0 ==> Less(xs[i], xs[0]);
  }

  lemma FirstIsOnce(xs: seq<Bytes>, x: Bytes)
    requires StrictlyDescending(xs) && xs != []
    ensures x in xs[1..] <==> x in xs && x != xs[0]
  {
    if x in xs[1..] {
      var i :| 0 <= i < |xs[1..]| && xs[1..][i] == x;
      assert Less(xs[i + 1], xs[0]);
      LessIrreflexive(x);
    }
    if x in xs && x != xs[0] {
      var i :| 0 <= i < |xs| && xs[i] == x;
      assert xs[1..][i - 1] == x;
    }
  }

  // Decoding

  /** The number in the bytes from `lo` on, below `hi`; 0 where the key is too short, which is a panic. */
  function Field(y: Bytes, lo: nat, hi: nat): nat
    requires lo <= hi
  {
    if hi <= |y| then FromBig(y[lo..hi]) else 0
  }

  /** The history entry that the bytes behind the prefix of script `w` name. */
  function Decoded(w: Watch, y: Bytes): (k: Key)
    ensures k.History? && WatchOf(k) == w
  {
    var p := |HistoryPrefix(w.kind, w.script)|;
    History(w.kind, w.script, Field(y, p, p + 8), Field(y, p + 8, p + 12), Field(y, p + 12, p + 16),
        Field(y, p + 16, p + 17) != 0)
  }

  lemma DecodedRoundTrip(k: Key)
    requires k.History? && Valid(k)
    ensures Decoded(WatchOf(k), Encode(k)) == k
  {
    var y, p := Encode(k), |HistoryPrefix(k.kind, k.script)|;
    assert y == HistoryPrefix(k.kind, k.script) + (Big(k.block, 8) + Big(k.tx, 4) + Big(k.io, 4) + [Flag(k.output)]);
    assert y[p..p + 8] == Big(k.block, 8) && y[p + 8..p + 12] == Big(k.tx, 4) && y[p + 12..p + 16] == Big(k.io, 4);
    assert y[p + 16..p + 17] == [Flag(k.output)];
    BigRoundTrip(k.block, 8);
    BigRoundTrip(k.tx, 4);
    BigRoundTrip(k.io, 4);
    FlagNumber(k.output);
  }

  lemma FlagNumber(output: bool)
    ensures FromBig([Flag(output)]) != 0 <==> output
  {
  }

  /** The bytes that the scan of one script meets. */
  function ScannedBytes(db: Db, w: Watch, to: nat): seq<Bytes> {
    ByteScan(Encoded(db.Keys), RollbackStart(w.kind, w.script),
        y => KeepForRollback(HistoryPrefix(w.kind, w.script), to, y))
  }

  function DecodeAll(w: Watch, ys: seq<Bytes>): (ks: seq<Key>)
    ensures |ks| == |ys| && forall i :: 0 <= i < |ys| ==> ks[i] == Decoded(w, ys[i])
  {
    seq(|ys|, i requires 0 <= i < |ys| => Decoded(w, ys[i]))
  }

  function ScannedKeys(db: Db, w: Watch, to: nat): seq<Key> {
    DecodeAll(w, ScannedBytes(db, w, to))
  }

  function EncodeAll(ks: seq<Key>): (ys: seq<Bytes>)
    ensures |ys| == |ks| && forall i :: 0 <= i < |ks| ==> ys[i] == Encode(ks[i])
  {
    seq(|ks|, i requires 0 <= i < |ks| => Encode(ks[i]))
  }

  lemma HistoryEncodedDescends(db: Db, scripts: set<Script>, w: Watch, to: nat)
    requires WellFormed(db.Keys, scripts)
    ensures StrictlyDescending(EncodeAll(Descending(HistoryFrom(db, w, to), w)))
  {
    hide Encode, Less;
    var ks := Descending(HistoryFrom(db, w, to), w);
    forall i, j | 0 <= i < j < |ks| ensures Less(Encode(ks[j]), Encode(ks[i])) {
      assert ks[i] in HistoryFrom(db, w, to) && ks[j] in HistoryFrom(db, w, to);
      HistoryOrder(ks[j], ks[i]);
    }
  }

  lemma ScannedAreHistory(db: Db, scripts: set<Script>, w: Watch, to: nat, y: Bytes)
    requires WellFormed(db.Keys, scripts) && w.script in scripts
    ensures y in ScannedBytes(db, w, to) <==> y in EncodeAll(Descending(HistoryFrom(db, w, to), w))
  {
    hide Encode, Less, RollbackStart, HistoryPrefix, ByteScan;
    var (p, from) := (HistoryPrefix(w.kind, w.script), RollbackStart(w.kind, w.script));
    var keep := (y: Bytes) => KeepForRollback(p, to, y);
    var keys, ks := Encoded(db.Keys), Descending(HistoryFrom(db, w, to), w);
    ByteScanIsReverseScan(keys, from, keep);
    if y in ReverseScan(keys, from, keep) {
      var k :| k in db.Keys && Encode(k) == y;
      RollbackScanIsExact(db.Keys, scripts, w.kind, w.script, to, k);
      assert k in ks;
      var i :| 0 <= i < |ks| && ks[i] == k;
      assert EncodeAll(ks)[i] == y;
    }
    if y in EncodeAll(ks) {
      var i :| 0 <= i < |ks| && EncodeAll(ks)[i] == y;
      assert ks[i] in HistoryFrom(db, w, to);
      RollbackScanIsExact(db.Keys, scripts, w.kind, w.script, to, ks[i]);
    }
  }

  /** With prefix-free scripts the scan on bytes meets exactly the script's history from block `to` on, newest first. */
  lemma ScanIsHistory(db: Db, scripts: set<Script>, w: Watch, to: nat)
    requires WellFormed(db.Keys, scripts) && w.script in scripts
    ensures ScannedBytes(db, w, to) == EncodeAll(Descending(HistoryFrom(db, w, to), w))
    ensures ScannedKeys(db, w, to) == Descending(HistoryFrom(db, w, to), w)
  {
    hide Encode, Less, RollbackStart, HistoryPrefix, ByteScan, Decoded, ScannedBytes;
    var ks := Descending(HistoryFrom(db, w, to), w);
    forall y ensures y in ScannedBytes(db, w, to) <==> y in EncodeAll(ks) {
      ScannedAreHistory(db, scripts, w, to, y);
    }
    ScannedDescend(db, w, to);
    HistoryEncodedDescends(db, scripts, w, to);
    DescendingIsUnique(ScannedBytes(db, w, to), EncodeAll(ks));
    forall i | 0 <= i < |ks| ensures Decoded(w, EncodeAll(ks)[i]) == ks[i] {
      assert ks[i] in HistoryFrom(db, w, to);
      DecodedRoundTrip(ks[i]);
    }
  }

  lemma ScannedDescend(db: Db, w: Watch, to: nat)
    ensures StrictlyDescending(ScannedBytes(db, w, to))
  {
    ByteScanIsReverseScan(Encoded(db.Keys), RollbackStart(w.kind, w.script),
                          y => KeepForRollback(HistoryPrefix(w.kind, w.script), to, y));
  }
}
