/**
 Paged queries over a snapshot of the ordered index: a prefix search in either direction, cut into pages
 by a limit, where the last key of a page is the cursor for the next one. `keep` stands for the filter
 options; on one snapshot it depends on the key alone.
 */
module Pagination {
  import opened Arithmetic
  import opened Options
  import opened Bytes
  import opened Keys

  const MAX_PREFIX_SEARCH_SIZE: nat := 65535
  const U64_MAX: nat := 0xFFFF_FFFF_FFFF_FFFF

  datatype Order = Asc | Desc

  predicate Precedes(order: Order, a: Bytes, b: Bytes) {
    if order.Asc? then Less(a, b) else Less(b, a)
  }

  ghost predicate InOrder(order: Order, s: seq<Bytes>) {
    forall i, j :: 0 <= i < j < |s| ==> Precedes(order, s[i], s[j])
  }

  function Reverse(s: seq<Bytes>): (r: seq<Bytes>)
    ensures |r| == |s| && forall i :: 0 <= i < |s| ==> r[i] == s[|s| - 1 - i]
  {
    if s == [] then [] else Reverse(s[1..]) + [s[0]]
  }

  /** The keys of a snapshot in the direction of a query. */
  function Ordered(order: Order, keys: seq<Bytes>): seq<Bytes> {
    if order.Asc? then keys else Reverse(keys)
  }

  lemma OrderedIsInOrder(order: Order, keys: seq<Bytes>)
    requires InOrder(Asc, keys)
    ensures InOrder(order, Ordered(order, keys))
  {
    var s := Ordered(order, keys);
    forall i, j | 0 <= i < j < |s| ensures Precedes(order, s[i], s[j]) {
      if order.Desc? {
        assert s[i] == keys[|keys| - 1 - i] && s[j] == keys[|keys| - 1 - j];
        assert Precedes(Asc, keys[|keys| - 1 - j], keys[|keys| - 1 - i]);
      }
    }
  }

  // What a query means

  /** The keys that a query asks for. */
  function Matching(s: seq<Bytes>, prefix: Bytes, keep: Bytes -> bool): (r: seq<Bytes>)
    ensures |r| <= |s|
    ensures forall k :: k in r <==> k in s && prefix <= k && keep(k)
  {
    if s == [] then []
    else if prefix <= s[0] && keep(s[0]) then [s[0]] + Matching(s[1..], prefix, keep)
    else Matching(s[1..], prefix, keep)
  }

  // How a query runs

  /** Where an iterator that seeks `from` begins. */
  function Seek(order: Order, s: seq<Bytes>, from: Bytes): seq<Bytes> {
    if s == [] || !Precedes(order, s[0], from) then s else Seek(order, s[1..], from)
  }

  function TakePrefix(s: seq<Bytes>, prefix: Bytes): seq<Bytes> {
    if s == [] || !(prefix <= s[0]) then [] else [s[0]] + TakePrefix(s[1..], prefix)
  }

  function KeepOnly(s: seq<Bytes>, keep: Bytes -> bool): seq<Bytes> {
    if s == [] then []
    else if keep(s[0]) then [s[0]] + KeepOnly(s[1..], keep)
    else KeepOnly(s[1..], keep)
  }

  function First(s: seq<Bytes>, limit: nat): (r: seq<Bytes>)
    ensures r <= s && |r| == Min(|s|, limit)
  {
    if |s| <= limit then s else s[..limit]
  }

  /** A query on a snapshot: its prefix, and where its first page starts. */
  datatype Query = Query(order: Order, keys: seq<Bytes>, prefix: Bytes, start: Bytes, keep: Bytes -> bool) {
    ghost predicate Valid() {
      InOrder(Asc, keys) && prefix <= start && (order.Asc? ==> start == prefix)
    }

    /** The keys behind a cursor, or from the start. */
    function Entries(after: Option<Bytes>): seq<Bytes> {
      match after
      case None => Seek(order, Ordered(order, keys), start)
      case Some(cursor) =>
        var s := Seek(order, Ordered(order, keys), cursor);
        if s == [] then [] else s[1..]
    }

    /** All that the query yields behind a cursor, without a limit. */
    function Remaining(after: Option<Bytes>): seq<Bytes> {
      KeepOnly(TakePrefix(Entries(after), prefix), keep)
    }

    /** What the query asks for. */
    function Answer(): seq<Bytes> {
      Matching(Ordered(order, keys), prefix, keep)
    }
  }

  // Building and answering a query

  datatype SearchKey = SearchKey(kind: ScriptType, script: Script)

  /** The prefix of a script's table keys. */
  function SearchPrefix(search: SearchKey, cells: bool): Bytes {
    var key := if cells then Cell(search.kind, search.script, 0, 0, 0)
        else History(search.kind, search.script, 0, 0, 0, false);
    [Tag(key)] + Raw(search.script)
  }

  /** The query for a search key; `None` if the arguments are too long. */
  function BuildQuery(search: SearchKey, cells: bool, order: Order, keys: seq<Bytes>,
                      keep: Bytes -> bool): (r: Option<Query>)
    ensures r.Some? <==> |search.script.args| <= MAX_PREFIX_SEARCH_SIZE
    ensures r.Some? && InOrder(Asc, keys) ==> r.value.Valid()
  {
    if |search.script.args| > MAX_PREFIX_SEARCH_SIZE then None
    else
      var prefix := SearchPrefix(search, cells);
      Some(Query(order, keys, prefix, if order.Asc? then prefix
          else prefix + AllOnes(MAX_PREFIX_SEARCH_SIZE - |search.script.args|), keep))
  }

  // What a search asks for

  /** The entries of one table, for one kind of script, whose script starts with the bytes of the given one. */
  predicate IsAsked(search: SearchKey, cells: bool, k: Key) {
    && (if cells then k.Cell? else k.History?)
    && k.kind == search.kind && Raw(search.script) <= Payload(k)
  }

  /** The prefix of a search selects exactly the entries that it asks for. */
  lemma SearchPrefixSelects(search: SearchKey, cells: bool, k: Key)
    ensures SearchPrefix(search, cells) <= Encode(k) <==> IsAsked(search, cells, k)
  {
    hide Position, Big;
    var p, y := SearchPrefix(search, cells), Encode(k);
    assert y[0] == Tag(k) && y[1..] == Payload(k) && p[1..] == Raw(search.script);
    if p <= y {
      assert p[0] == y[0];
      assert Payload(k)[..|p| - 1] == y[1..|p|] == p[1..];
    }
    if IsAsked(search, cells, k) {
      assert y[..|p|] == [Tag(k)] + Payload(k)[..|p| - 1] == p;
    }
  }

  /** As far as the arguments go, that is: the same code, and arguments that start with the given ones. */
  lemma AskedByArgs(search: SearchKey, cells: bool, k: Key)
    requires if cells then k.Cell? else k.History?
    requires |search.script.args| <= |k.script.args|
    ensures IsAsked(search, cells, k)
       <==> && k.kind == search.kind && k.script.codeHash == search.script.codeHash
            && k.script.hashType == search.script.hashType && search.script.args <= k.script.args
  {
    hide Position;
    var a, b := Raw(search.script), Raw(k.script);
    assert Payload(k)[..|a|] == b[..|a|];
    assert a[..32] == search.script.codeHash && a[32] == search.script.hashType && a[33..] == search.script.args;
    assert b[..32] == k.script.codeHash && b[32] == k.script.hashType && b[33..] == k.script.args;
    if a <= Payload(k) {
      assert a == b[..|a|];
      assert search.script.codeHash == b[..|a|][..32] == k.script.codeHash;
      assert search.script.args == b[..|a|][33..] == k.script.args[..|search.script.args|];
    }
  }

  ghost predicate AsksFor(search: SearchKey, cells: bool, y: Bytes) {
    exists k: Key :: Encode(k) == y && IsAsked(search, cells, k)
  }

  ghost predicate IsEncoded(y: Bytes) {
    exists k: Key :: Encode(k) == y
  }

  /** All keys of the database are encodings. */
  ghost predicate AreEncoded(keys: seq<Bytes>) {
    forall i :: 0 <= i < |keys| ==> IsEncoded(keys[i])
  }

  /** The keys that a search asks for and the filter lets through, in the order of the keys. */
  ghost function AskedOf(keys: seq<Bytes>, search: SearchKey, cells: bool, keep: Bytes -> bool): (r: seq<Bytes>)
    ensures forall y :: y in r <==> y in keys && AsksFor(search, cells, y) && keep(y)
  {
    if keys == [] then []
    else (if AsksFor(search, cells, keys[0]) && keep(keys[0]) then [keys[0]] else [])
         + AskedOf(keys[1..], search, cells, keep)
  }

  lemma AskedIsPrefixed(keys: seq<Bytes>, search: SearchKey, cells: bool, y: Bytes)
    requires AreEncoded(keys) && y in keys
    ensures AsksFor(search, cells, y) <==> SearchPrefix(search, cells) <= y
  {
    hide SearchPrefix, Encode, IsAsked;
    forall k: Key | Encode(k) == y ensures SearchPrefix(search, cells) <= y <==> IsAsked(search, cells, k) {
      SearchPrefixSelects(search, cells, k);
    }
  }

  lemma {:induction false} MatchingIsAsked(keys: seq<Bytes>, search: SearchKey, cells: bool, keep: Bytes -> bool)
    requires AreEncoded(keys)
    ensures Matching(keys, SearchPrefix(search, cells), keep) == AskedOf(keys, search, cells, keep)
  {
    hide SearchPrefix, IsEncoded, AsksFor;
    if keys != [] {
      AskedIsPrefixed(keys, search, cells, keys[0]);
      MatchingIsAsked(keys[1..], search, cells, keep);
    }
  }

  lemma AskedAreMatching(keys: seq<Bytes>, search: SearchKey, cells: bool, keep: Bytes -> bool, y: Bytes)
    requires AreEncoded(keys)
    ensures y in AskedOf(keys, search, cells, keep) <==> y in keys && SearchPrefix(search, cells) <= y && keep(y)
  {
    hide SearchPrefix, AreEncoded, AskedOf;
    MatchingIsAsked(keys, search, cells, keep);
  }

  datatype Reply = Page(items: seq<Bytes>, lastCursor: Bytes) | InvalidParams

  function LastOf(s: seq<Bytes>): Bytes {
    if s == [] then [] else s[|s| - 1]
  }

  /** One page: at most `limit` keys behind the cursor, and the last of them as the next cursor. */
  method GetPage(search: SearchKey, cells: bool, order: Order, limit: nat, after: Option<Bytes>, keys: seq<Bytes>,
                 keep: Bytes -> bool)
    returns (r: Reply)
    ensures r.InvalidParams? <==> limit == 0 || |search.script.args| > MAX_PREFIX_SEARCH_SIZE
    ensures r.Page? ==>
              && r.items == First(BuildQuery(search, cells, order, keys, keep).value.Remaining(after), limit)
              && r.lastCursor == LastOf(r.items)
              && forall y :: y in r.items ==> y in keys && keep(y) && (AreEncoded(keys) ==> AsksFor(search, cells, y))
  {
    hide SearchPrefix, AsksFor, IsEncoded;
    var built := BuildQuery(search, cells, order, keys, keep);
    if built.None? || limit == 0 {
      return InvalidParams;
    }
    var items, lastKey := Collect(built.value.Entries(after), built.value.prefix, keep, limit);
    RemainingIsPart(built.value, after);
    forall y | y in items && AreEncoded(keys) ensures AsksFor(search, cells, y) {
      assert y in built.value.Remaining(after) && y in keys;
      AskedIsPrefixed(keys, search, cells, y);
    }
    return Page(items, lastKey);
  }

  /** Whatever remains behind a cursor is in the snapshot, has the prefix and passes the filter. */
  lemma RemainingIsPart(q: Query, after: Option<Bytes>)
    ensures forall y :: y in q.Remaining(after) ==> y in q.keys && q.keep(y) && q.prefix <= y
  {
    var s := Ordered(q.order, q.keys);
    SameKeys(q.order, q.keys);
    SeekIsPart(q.order, s, if after.Some? then after.value else q.start);
    KeptIsPart(q.Entries(after), q.prefix, q.keep);
  }

  lemma {:induction false} SeekIsPart(order: Order, s: seq<Bytes>, from: Bytes)
    ensures forall y :: y in Seek(order, s, from) ==> y in s
  {
    if s != [] {
      SeekIsPart(order, s[1..], from);
    }
  }

  lemma {:induction false} KeptIsPart(s: seq<Bytes>, prefix: Bytes, keep: Bytes -> bool)
    ensures forall y :: y in KeepOnly(TakePrefix(s, prefix), keep) ==> y in s && keep(y) && prefix <= y
  {
    if s != [] && prefix <= s[0] {
      KeptIsPart(s[1..], prefix, keep);
      KeepStep(s, prefix, keep);
    }
  }

  method Collect(entries: seq<Bytes>, prefix: Bytes, keep: Bytes -> bool, limit: nat)
    returns (items: seq<Bytes>, lastKey: Bytes)
    requires limit > 0
    ensures items == First(KeepOnly(TakePrefix(entries, prefix), keep), limit)
    ensures lastKey == LastOf(items)
  {
    items, lastKey := [], [];
    var i := 0;
    assert entries[0..] == entries;
    while i < |entries| && |items| < limit && prefix <= entries[i]
      invariant i <= |entries| && |items| <= limit && lastKey == LastOf(items)
      invariant KeepOnly(TakePrefix(entries, prefix), keep) == items + KeepOnly(TakePrefix(entries[i..], prefix), keep)
    {
      assert entries[i..][1..] == entries[i + 1..];
      KeepStep(entries[i..], prefix, keep);
      if keep(entries[i]) {
        items, lastKey := items + [entries[i]], entries[i];
      }
      i := i + 1;
    }
  }

  lemma KeepStep(s: seq<Bytes>, prefix: Bytes, keep: Bytes -> bool)
    requires s != [] && prefix <= s[0]
    ensures KeepOnly(TakePrefix(s, prefix), keep) == (if keep(s[0]) then [s[0]]
              else []) + KeepOnly(TakePrefix(s[1..], prefix), keep)
  {
    assert TakePrefix(s, prefix)[1..] == TakePrefix(s[1..], prefix);
  }

  // Following cursors

  /** The pages one gets by asking again with the last cursor until a page is empty. */
  ghost predicate IsPageRun(q: Query, limit: nat, after: Option<Bytes>, pages: seq<seq<Bytes>>)
    decreases |pages|
  {
    && pages != []
    && pages[0] == First(q.Remaining(after), limit)
    && if pages[0] == [] then |pages| == 1 else IsPageRun(q, limit, Some(LastOf(pages[0])), pages[1..])
  }

  function Concat(pages: seq<seq<Bytes>>): seq<Bytes> {
    if pages == [] then [] else pages[0] + Concat(pages[1..])
  }

  lemma {:induction false} SeekSplits(order: Order, s: seq<Bytes>, from: Bytes) returns (o: nat)
    ensures o <= |s| && Seek(order, s, from) == s[o..]
    ensures forall i :: 0 <= i < o ==> Precedes(order, s[i], from)
    ensures o < |s| ==> !Precedes(order, s[o], from)
  {
    if s == [] || !Precedes(order, s[0], from) {
      o := 0;
    } else {
      var rest := SeekSplits(order, s[1..], from);
      o := rest + 1;
      assert s[1..][rest..] == s[o..];
      forall i | 0 <= i < o ensures Precedes(order, s[i], from) {
        assert i > 0 ==> s[i] == s[1..][i - 1];
      }
    }
  }

  lemma PrecedesTransitive(order: Order, a: Bytes, b: Bytes, c: Bytes)
    requires Precedes(order, a, b) && Precedes(order, b, c)
    ensures Precedes(order, a, c)
  {
    if order.Asc? {
      LessTransitive(a, b, c);
    } else {
      LessTransitive(c, b, a);
    }
  }

  lemma SeekFindsKey(order: Order, s: seq<Bytes>, j: nat)
    requires InOrder(order, s) && j < |s|
    ensures Seek(order, s, s[j]) == s[j..]
  {
    LessIrreflexive(s[j]);
    SeekStopsAt(order, s, s[j], j);
  }

  lemma {:induction false} SeekStopsAt(order: Order, s: seq<Bytes>, from: Bytes, o: nat)
    requires o < |s| && !Precedes(order, s[o], from)
    requires forall i :: 0 <= i < o ==> Precedes(order, s[i], from)
    ensures Seek(order, s, from) == s[o..]
  {
    if o > 0 {
      SeekStopsAt(order, s[1..], from, o - 1);
      assert s[1..][o - 1..] == s[o..];
    }
  }

  /** Behind a key with the prefix, nothing with the prefix follows a key without it. */
  lemma PrefixIsConvex(order: Order, prefix: Bytes, from: Bytes, k: Bytes, l: Bytes)
    requires prefix <= from && prefix <= l
    requires !Precedes(order, k, from) && Precedes(order, k, l)
    ensures prefix <= k
  {
    LessTotal(k, from);
    if order.Asc? {
      PrefixInterval(prefix, from, k, l);
    } else {
      PrefixInterval(prefix, l, k, from);
    }
  }

  /** Taking keys while they have the prefix loses none that a query asks for. */
  lemma {:induction false} TakePrefixLosesNothing(order: Order, s: seq<Bytes>, prefix: Bytes, from: Bytes,
                          keep: Bytes -> bool)
    requires InOrder(order, s) && prefix <= from
    requires forall k :: k in s ==> !Precedes(order, k, from)
    ensures KeepOnly(TakePrefix(s, prefix), keep) == Matching(s, prefix, keep)
  {
    if s != [] {
      if prefix <= s[0] {
        assert TakePrefix(s, prefix)[1..] == TakePrefix(s[1..], prefix);
        TakePrefixLosesNothing(order, s[1..], prefix, from, keep);
      } else {
        forall i | 0 <= i < |s| ensures !(prefix <= s[i]) {
          if i > 0 && prefix <= s[i] {
            PrefixIsConvex(order, prefix, from, s[0], s[i]);
          }
        }
        MatchingSkips(s, prefix, keep, |s|);
      }
    }
  }

  lemma NoneBefore(order: Order, s: seq<Bytes>, o: nat, from: Bytes)
    requires InOrder(order, s) && o <= |s|
    requires o < |s| ==> !Precedes(order, s[o], from)
    ensures forall k :: k in s[o..] ==> !Precedes(order, k, from)
  {
    forall k | k in s[o..] && Precedes(order, k, from) ensures false {
      var i :| o <= i < |s| && s[i] == k;
      if i > o {
        PrecedesTransitive(order, s[o], s[i], from);
      }
    }
  }

  lemma InOrderSuffix(order: Order, s: seq<Bytes>, o: nat)
    requires InOrder(order, s) && o <= |s|
    ensures InOrder(order, s[o..])
  {
  }

  lemma RemainingBehindKey(q: Query, j: nat)
    requires q.Valid() && j < |Ordered(q.order, q.keys)| && q.prefix <= Ordered(q.order, q.keys)[j]
    ensures q.Remaining(Some(Ordered(q.order, q.keys)[j]))
              == Matching(Ordered(q.order, q.keys)[j + 1..], q.prefix, q.keep)
  {
    var s := Ordered(q.order, q.keys);
    OrderedIsInOrder(q.order, q.keys);
    SeekFindsKey(q.order, s, j);
    assert s[j..][1..] == s[j + 1..];
    InOrderSuffix(q.order, s, j + 1);
    forall k | k in s[j + 1..] ensures !Precedes(q.order, k, s[j]) {
      var i :| j < i < |s| && s[i] == k;
      assert Precedes(q.order, s[j], s[i]);
      if q.order.Asc? {
        LessAsymmetric(s[j], k);
      } else {
        LessAsymmetric(k, s[j]);
      }
    }
    TakePrefixLosesNothing(q.order, s[j + 1..], q.prefix, s[j], q.keep);
  }

  lemma RemainingFromStart(q: Query) returns (o: nat)
    requires q.Valid()
    ensures o <= |Ordered(q.order, q.keys)|
    ensures q.Remaining(None) == Matching(Ordered(q.order, q.keys)[o..], q.prefix, q.keep)
    ensures forall i :: 0 <= i < o ==> Precedes(q.order, Ordered(q.order, q.keys)[i], q.start)
    ensures forall k :: k in Ordered(q.order, q.keys)[o..] ==> !Precedes(q.order, k, q.start)
  {
    var s := Ordered(q.order, q.keys);
    OrderedIsInOrder(q.order, q.keys);
    o := SeekSplits(q.order, s, q.start);
    NoneBefore(q.order, s, o, q.start);
    InOrderSuffix(q.order, s, o);
    TakePrefixLosesNothing(q.order, s[o..], q.prefix, q.start, q.keep);
  }

  /** The m-th match splits the matches where it splits the keys. */
  lemma {:induction false} MatchingSplits(s: seq<Bytes>, prefix: Bytes, keep: Bytes -> bool, m: nat) returns (j: nat)
    requires 0 < m <= |Matching(s, prefix, keep)|
    ensures j < |s| && s[j] == Matching(s, prefix, keep)[m - 1]
    ensures Matching(s[j + 1..], prefix, keep) == Matching(s, prefix, keep)[m..]
  {
    if prefix <= s[0] && keep(s[0]) && m == 1 {
      j := 0;
    } else {
      var i := MatchingSplits(s[1..], prefix, keep, if prefix <= s[0] && keep(s[0]) then m - 1 else m);
      j := i + 1;
      assert s[1..][i + 1..] == s[j + 1..];
    }
  }

  /** What remains behind the cursor is what is asked for among the keys from index `o` on. */
  ghost predicate IsAt(q: Query, after: Option<Bytes>, o: nat) {
    && o <= |Ordered(q.order, q.keys)|
    && q.Remaining(after) == Matching(Ordered(q.order, q.keys)[o..], q.prefix, q.keep)
  }

  /** A page that is not empty leaves what follows its last key. */
  lemma NextPage(q: Query, limit: nat, after: Option<Bytes>, o: nat) returns (next: nat)
    requires q.Valid() && limit > 0 && IsAt(q, after, o) && First(q.Remaining(after), limit) != []
    ensures var page := First(q.Remaining(after), limit);
            && o < next && IsAt(q, Some(LastOf(page)), next)
            && q.Remaining(after) == page + q.Remaining(Some(LastOf(page)))
  {
    hide Query.Remaining, Query.Valid, Ordered, Matching, First, LastOf;
    var s := Ordered(q.order, q.keys);
    var rest, page := q.Remaining(after), First(q.Remaining(after), limit);
    FirstIsFront(rest, limit);
    var j := MatchingSplits(s[o..], q.prefix, q.keep, |page|);
    assert s[o..][j] == s[o + j] && s[o..][j + 1..] == s[o + j + 1..];
    assert s[o + j] in rest;
    RemainingBehindKey(q, o + j);
    next := o + j + 1;
  }

  lemma FirstIsFront(s: seq<Bytes>, limit: nat)
    requires First(s, limit) != []
    ensures var page := First(s, limit);
            0 < |page| <= |s| && LastOf(page) == s[|page| - 1] && s == page + s[|page|..]
  {
  }

  lemma {:induction false} PagesCover(q: Query, limit: nat, after: Option<Bytes>, pages: seq<seq<Bytes>>, o: nat)
    requires q.Valid() && limit > 0 && IsPageRun(q, limit, after, pages) && IsAt(q, after, o)
    ensures Concat(pages) == q.Remaining(after)
    decreases |pages|
  {
    hide Query.Remaining, Query.Valid, IsAt;
    if pages[0] == [] {
      assert Concat(pages[1..]) == [];
    } else {
      var next := NextPage(q, limit, after, o);
      PagesCover(q, limit, Some(LastOf(pages[0])), pages[1..], next);
    }
  }

  /** Following cursors yields everything from the start key on, each key once and in order, whatever the limit. */
  lemma PagesYieldAllFromStart(q: Query, limit: nat, pages: seq<seq<Bytes>>)
    requires q.Valid() && limit > 0 && IsPageRun(q, limit, None, pages)
    ensures Concat(pages) == q.Remaining(None)
  {
    var o := RemainingFromStart(q);
    PagesCover(q, limit, None, pages, o);
  }

  lemma {:induction false} MatchingSkips(s: seq<Bytes>, prefix: Bytes, keep: Bytes -> bool, o: nat)
    requires o <= |s| && forall i :: 0 <= i < o ==> !(prefix <= s[i] && keep(s[i]))
    ensures Matching(s, prefix, keep) == Matching(s[o..], prefix, keep)
  {
    if o > 0 {
      MatchingSkips(s[1..], prefix, keep, o - 1);
      assert s[1..][o - 1..] == s[o..];
    }
  }

  /** No key that is asked for lies before the start key. */
  ghost predicate StartIsFar(q: Query) {
    forall k :: k in q.keys && q.prefix <= k && q.keep(k) ==> !Precedes(q.order, k, q.start)
  }

  lemma SameKeys(order: Order, keys: seq<Bytes>)
    ensures forall k :: k in Ordered(order, keys) <==> k in keys
  {
    forall k | k in keys ensures k in Ordered(order, keys) {
      var i :| 0 <= i < |keys| && keys[i] == k;
      assert order.Desc? ==> Reverse(keys)[|keys| - 1 - i] == k;
    }
  }

  /** The start key leaves nothing out if and only if no key that is asked for lies before it. */
  lemma StartDecides(q: Query)
    requires q.Valid()
    ensures q.Remaining(None) == q.Answer() <==> StartIsFar(q)
  {
    var s := Ordered(q.order, q.keys);
    var o := RemainingFromStart(q);
    SameKeys(q.order, q.keys);
    if StartIsFar(q) {
      forall i | 0 <= i < o ensures !(q.prefix <= s[i] && q.keep(s[i])) {
        assert s[i] in s && Precedes(q.order, s[i], q.start);
      }
      MatchingSkips(s, q.prefix, q.keep, o);
    } else {
      var k :| k in q.keys && q.prefix <= k && q.keep(k) && Precedes(q.order, k, q.start);
      assert k in q.Answer() && (k in q.Remaining(None) ==> k in s && !Precedes(q.order, k, q.start));
    }
  }

  /** Pagination is lossless if and only if no key that is asked for lies before the start key. */
  lemma PaginationIsLossless(q: Query, limit: nat, pages: seq<seq<Bytes>>)
    requires q.Valid() && limit > 0 && IsPageRun(q, limit, None, pages)
    ensures Concat(pages) == q.Answer() <==> StartIsFar(q)
  {
    PagesYieldAllFromStart(q, limit, pages);
    StartDecides(q);
  }

  lemma PrefixIsLeast(p: Bytes, k: Bytes)
    requires p <= k
    ensures !Less(k, p)
  {
    assert k == p + k[|p|..] && p == p + [];
    LessAfterPrefix(p, k[|p|..], []);
  }

  function AllOnes(n: nat): (r: Bytes)
    ensures |r| == n
  {
    if n == 0 then [] else [255] + AllOnes(n - 1)
  }

  lemma {:induction false} OnlyLongerIsAboveOnes(n: nat, x: Bytes)
    ensures Less(AllOnes(n), x) <==> AllOnes(n) <= x && n < |x|
  {
    if n > 0 && x != [] {
      OnlyLongerIsAboveOnes(n - 1, x[1..]);
      assert AllOnes(n)[1..] == AllOnes(n - 1);
      assert AllOnes(n) <= x <==> x[0] == 255 && AllOnes(n - 1) <= x[1..];
    }
  }

  lemma OnlyLongerIsAboveStart(prefix: Bytes, n: nat, k: Bytes)
    requires prefix <= k
    ensures Less(prefix + AllOnes(n), k) <==> prefix + AllOnes(n) <= k && |prefix| + n < |k|
  {
    hide Less, AllOnes;
    var x := k[|prefix|..];
    assert k == prefix + x;
    LessAfterPrefix(prefix, AllOnes(n), x);
    OnlyLongerIsAboveOnes(n, x);
    PrefixCancels(prefix, AllOnes(n), x);
  }

  lemma PrefixCancels(p: Bytes, a: Bytes, x: Bytes)
    ensures p + a <= p + x <==> a <= x
  {
    if p + a <= p + x {
      assert a == (p + a)[|p|..] == (p + x)[|p|..|p| + |a|] == x[..|a|];
    }
    if a <= x {
      assert (p + x)[..|p| + |a|] == p + a;
    }
  }

  /**
   In descending order pagination misses something exactly if a key that is asked for goes on behind the padded
   start.
   */
  lemma DescendingIsLossless(search: SearchKey, cells: bool, keys: seq<Bytes>, keep: Bytes -> bool, limit: nat,
                          pages: seq<seq<Bytes>>)
    requires InOrder(Asc, keys) && |search.script.args| <= MAX_PREFIX_SEARCH_SIZE && limit > 0
    requires IsPageRun(BuildQuery(search, cells, Desc, keys, keep).value, limit, None, pages)
    ensures var q := BuildQuery(search, cells, Desc, keys, keep).value;
            Concat(pages) == q.Answer() <==> forall k :: k in keys && q.prefix <= k && keep(k) ==> !(q.start < k)
  {
    hide IsPageRun, Concat, SearchPrefix;
    var q := BuildQuery(search, cells, Desc, keys, keep).value;
    PaginationIsLossless(q, limit, pages);
    forall k | q.prefix <= k ensures Precedes(Desc, k, q.start) <==> q.start < k {
      OnlyLongerIsAboveStart(q.prefix, MAX_PREFIX_SEARCH_SIZE - |search.script.args|, k);
    }
  }

  lemma KeyGoesOn(codeHash: Hash, hashType: Byte, block: nat, tx: nat, io: nat)
    ensures var (wanted, full) := (Script(codeHash, hashType, []),
              Script(codeHash, hashType, AllOnes(MAX_PREFIX_SEARCH_SIZE)));
            SearchPrefix(SearchKey(Lock, wanted), true)
                + AllOnes(MAX_PREFIX_SEARCH_SIZE) < Encode(Cell(Lock, full, block, tx, io))
  {
    hide AllOnes, Big;
    var ones := AllOnes(MAX_PREFIX_SEARCH_SIZE);
    var key := Encode(Cell(Lock, Script(codeHash, hashType, ones), block, tx, io));
    assert key == [Tag(Cell(Lock, Script(codeHash, hashType, []), 0, 0, 0))] + codeHash + [hashType] + ones
        + Position(block, tx, io);
  }

  /** A key is missed: that of a cell whose script arguments fill the padding, in a search for its code hash alone. */
  lemma DescendingLosesExample(codeHash: Hash, hashType: Byte, keep: Bytes -> bool, limit: nat, pages: seq<seq<Bytes>>,
                          key: Bytes)
    requires limit > 0 && keep(key)
    requires key == Encode(Cell(Lock, Script(codeHash, hashType, AllOnes(MAX_PREFIX_SEARCH_SIZE)), 1, 0, 0))
    requires IsPageRun(BuildQuery(SearchKey(Lock, Script(codeHash, hashType, [])), true, Desc, [key], keep).value,
              limit, None, pages)
    ensures var q := BuildQuery(SearchKey(Lock, Script(codeHash, hashType, [])), true, Desc, [key], keep).value;
            key in q.Answer() && Concat(pages) != q.Answer()
  {
    hide IsPageRun, Concat, AllOnes, Matching, SearchPrefix, Encode, Ordered;
    var search := SearchKey(Lock, Script(codeHash, hashType, []));
    var q := BuildQuery(search, true, Desc, [key], keep).value;
    KeyGoesOn(codeHash, hashType, 1, 0, 0);
    SameKeys(Desc, q.keys);
    DescendingIsLossless(search, true, [key], keep, limit, pages);
  }

  lemma AscendingStartIsFar(q: Query)
    requires q.Valid() && q.order.Asc?
    ensures StartIsFar(q)
  {
    forall k | k in q.keys && q.prefix <= k && q.keep(k) ensures !Precedes(q.order, k, q.start) {
      PrefixIsLeast(q.prefix, k);
    }
  }

  /** In ascending order the start is always far enough. */
  lemma AscendingIsLossless(q: Query, limit: nat, pages: seq<seq<Bytes>>)
    requires q.Valid() && q.order.Asc? && limit > 0 && IsPageRun(q, limit, None, pages)
    ensures Concat(pages) == q.Answer()
  {
    AscendingStartIsFar(q);
    PaginationIsLossless(q, limit, pages);
  }

  lemma {:induction false} MatchingInOrder(order: Order, s: seq<Bytes>, prefix: Bytes, keep: Bytes -> bool)
    requires InOrder(order, s)
    ensures InOrder(order, Matching(s, prefix, keep))
  {
    if s != [] {
      MatchingInOrder(order, s[1..], prefix, keep);
      forall k | k in s[1..] ensures Precedes(order, s[0], k) {
        var i :| 0 < i < |s| && s[i] == k;
      }
    }
  }

  /** From the start key on a query yields what it asks for, in order, each key that does not lie before the start. */
  lemma RemainingExactly(q: Query, y: Bytes)
    requires q.Valid()
    ensures InOrder(q.order, q.Remaining(None))
    ensures y in q.Remaining(None) <==> y in q.keys && q.prefix <= y && q.keep(y) && !Precedes(q.order, y, q.start)
  {
    var s := Ordered(q.order, q.keys);
    OrderedIsInOrder(q.order, q.keys);
    SameKeys(q.order, q.keys);
    var o := RemainingFromStart(q);
    InOrderSuffix(q.order, s, o);
    MatchingInOrder(q.order, s[o..], q.prefix, q.keep);
    if y in s && !Precedes(q.order, y, q.start) {
      var i :| 0 <= i < |s| && s[i] == y;
      assert y == s[o..][i - o];
    }
  }

  /**
   Following the cursors of a search in ascending order yields exactly the entries that it asks for: those of its
   table and its kind of script, with scripts that start with the given one.
   */
  lemma PagesAnswerSearch(search: SearchKey, cells: bool, keys: seq<Bytes>, keep: Bytes -> bool, limit: nat,
                          pages: seq<seq<Bytes>>)
    requires InOrder(Asc, keys) && AreEncoded(keys) && |search.script.args| <= MAX_PREFIX_SEARCH_SIZE && limit > 0
    requires IsPageRun(BuildQuery(search, cells, Asc, keys, keep).value, limit, None, pages)
    ensures Concat(pages) == AskedOf(keys, search, cells, keep)
  {
    hide SearchPrefix, IsPageRun, AskedOf, AreEncoded;
    AscendingIsLossless(BuildQuery(search, cells, Asc, keys, keep).value, limit, pages);
    MatchingIsAsked(keys, search, cells, keep);
  }

  /**
   In descending order the entries that go on behind the padded start are missed, and only those; all others are
   yielded, last one first.
   */
  lemma DescendingPagesAnswerSearch(search: SearchKey, cells: bool, keys: seq<Bytes>, keep: Bytes -> bool, limit: nat,
                                    pages: seq<seq<Bytes>>, y: Bytes)
    requires InOrder(Asc, keys) && AreEncoded(keys) && |search.script.args| <= MAX_PREFIX_SEARCH_SIZE && limit > 0
    requires IsPageRun(BuildQuery(search, cells, Desc, keys, keep).value, limit, None, pages)
    ensures InOrder(Desc, Concat(pages))
    ensures y in Concat(pages)
       <==> y in AskedOf(keys, search, cells, keep)
            && !(SearchPrefix(search, cells) + AllOnes(MAX_PREFIX_SEARCH_SIZE - |search.script.args|) < y)
  {
    hide SearchPrefix, IsPageRun, AskedOf, AreEncoded, AllOnes, InOrder, Query.Remaining, AsksFor, Less, Concat;
    var q := BuildQuery(search, cells, Desc, keys, keep).value;
    PagesYieldAllFromStart(q, limit, pages);
    RemainingExactly(q, y);
    AskedAreMatching(keys, search, cells, keep, y);
    if q.prefix <= y {
      OnlyLongerIsAboveStart(q.prefix, MAX_PREFIX_SEARCH_SIZE - |search.script.args|, y);
    }
  }

  /** Asking on always comes to an end. */
  lemma {:induction false} PageRunExists(q: Query, limit: nat, after: Option<Bytes>, o: nat)
    returns (pages: seq<seq<Bytes>>)
    requires q.Valid() && limit > 0 && IsAt(q, after, o)
    ensures IsPageRun(q, limit, after, pages)
    decreases |Ordered(q.order, q.keys)| - o
  {
    hide Query.Remaining, Query.Valid;
    var page := First(q.Remaining(after), limit);
    if page == [] {
      pages := [page];
    } else {
      var next := NextPage(q, limit, after, o);
      var rest := PageRunExists(q, limit, Some(LastOf(page)), next);
      pages := [page] + rest;
      assert pages[1..] == rest;
    }
  }

  // Capacity

  function Values(s: seq<Bytes>, value: Bytes -> nat): (r: seq<nat>)
    ensures |r| == |s| && forall i :: 0 <= i < |s| ==> r[i] == value(s[i])
  {
    if s == [] then [] else [value(s[0])] + Values(s[1..], value)
  }

  datatype CapacityReply = CapacityIs(total: nat) | CapacityOverflow | InvalidSearch

  /** The capacity of all matching cells, which may not exceed 64 bits. */
  method GetCellsCapacity(search: SearchKey, keys: seq<Bytes>, keep: Bytes -> bool, value: Bytes -> nat)
    returns (r: CapacityReply)
    requires InOrder(Asc, keys)
    ensures r.InvalidSearch? <==> |search.script.args| > MAX_PREFIX_SEARCH_SIZE
    ensures !r.InvalidSearch? ==>
              var total := Sum(Values(Matching(keys, SearchPrefix(search, true), keep), value));
              r == if total <= U64_MAX then CapacityIs(total) else CapacityOverflow
    ensures !r.InvalidSearch? && AreEncoded(keys) ==>
              var total := Sum(Values(AskedOf(keys, search, true, keep), value));
              r == if total <= U64_MAX then CapacityIs(total) else CapacityOverflow
  {
    hide SearchPrefix;
    if AreEncoded(keys) {
      MatchingIsAsked(keys, search, true, keep);
    }
    var built := BuildQuery(search, true, Asc, keys, keep);
    if built.None? {
      return InvalidSearch;
    }
    var cells := built.value.Remaining(None);
    AnswerFromStart(built.value);
    var total := AddUp(cells, value);
    return if total.Some? then CapacityIs(total.value) else CapacityOverflow;
  }

  /** The checked sum of 64-bit values. */
  method AddUp(cells: seq<Bytes>, value: Bytes -> nat) returns (r: Option<nat>)
    ensures r == if Sum(Values(cells, value)) <= U64_MAX then Some(Sum(Values(cells, value))) else None
  {
    assert Sum([]) == 0;
    hide Sum;
    ghost var values := Values(cells, value);
    var capacity := 0;
    var i := 0;
    SumPrefix(values, 0);
    assert values[..0] == [];
    while i < |cells|
      invariant i <= |cells| && capacity <= U64_MAX
      invariant capacity == Sum(values[..i]) <= Sum(values)
    {
      SumStep(values, i);
      SumPrefix(values, i + 1);
      if capacity + value(cells[i]) > U64_MAX {
        return None;
      }
      capacity := capacity + value(cells[i]);
      i := i + 1;
    }
    assert values[..i] == values;
    return Some(capacity);
  }

  lemma AnswerFromStart(q: Query)
    requires q.Valid() && q.order.Asc?
    ensures q.Remaining(None) == q.Answer()
  {
    AscendingStartIsFar(q);
    StartDecides(q);
  }

  /** The capacity is the sum over the pages that following cursors yields, whatever their size. */
  lemma {:induction false} CapacityIsSumOfPages(q: Query, limit: nat, pages: seq<seq<Bytes>>, value: Bytes -> nat)
    requires q.Valid() && q.order.Asc? && limit > 0 && IsPageRun(q, limit, None, pages)
    ensures Sum(Values(q.Answer(), value)) == Sum(PageSums(pages, value))
  {
    AscendingIsLossless(q, limit, pages);
    SumsOfPages(pages, value);
  }

  function PageSums(pages: seq<seq<Bytes>>, value: Bytes -> nat): seq<nat> {
    if pages == [] then [] else [Sum(Values(pages[0], value))] + PageSums(pages[1..], value)
  }

  lemma {:induction false} SumsOfPages(pages: seq<seq<Bytes>>, value: Bytes -> nat)
    ensures Sum(Values(Concat(pages), value)) == Sum(PageSums(pages, value))
  {
    if pages != [] {
      SumsOfPages(pages[1..], value);
      ValuesConcat(pages[0], Concat(pages[1..]), value);
      SumConcat(Values(pages[0], value), Values(Concat(pages[1..]), value));
      SumConcat([Sum(Values(pages[0], value))], PageSums(pages[1..], value));
    }
  }

  lemma ValuesConcat(a: seq<Bytes>, b: seq<Bytes>, value: Bytes -> nat)
    ensures Values(a + b, value) == Values(a, value) + Values(b, value)
  {
  }
}
