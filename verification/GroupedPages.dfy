/** Paged queries of the transaction history, grouped by transaction: the limit counts transactions. */
module GroupedPages {
  import opened Options
  import opened Bytes
  import opened Keys
  import opened Pagination

  datatype Group = Group(hash: Hash, cells: seq<Bytes>)

  /** A cell joins the last group if that is of its transaction, and else begins a group. */
  function Push(groups: seq<Group>, key: Bytes, hash: Hash): (r: seq<Group>)
    ensures r != [] && r[|r| - 1].hash == hash
  {
    if groups != [] && groups[|groups| - 1].hash == hash
    then groups[|groups| - 1 := Group(hash, groups[|groups| - 1].cells + [key])]
    else groups + [Group(hash, [key])]
  }

  /** The runs of keys with one transaction hash, appended to `groups`. */
  function Runs(groups: seq<Group>, s: seq<Bytes>, hashOf: Bytes -> Hash): seq<Group>
    decreases |s|
  {
    if s == [] then groups else Runs(Push(groups, s[0], hashOf(s[0])), s[1..], hashOf)
  }

  function PushKept(groups: seq<Group>, key: Bytes, keep: Bytes -> bool, hashOf: Bytes -> Hash): seq<Group> {
    if keep(key) then Push(groups, key, hashOf(key)) else groups
  }

  /** The page is full and the next key belongs to another transaction. */
  predicate IsFull(groups: seq<Group>, limit: nat, hash: Hash) {
    |groups| == limit && groups != [] && groups[|groups| - 1].hash != hash
  }

  /** The groups after the first `i` entries. */
  function GroupsAt(all: seq<Bytes>, keep: Bytes -> bool, hashOf: Bytes -> Hash, i: nat): seq<Group>
    requires i <= |all|
  {
    Runs([], KeepOnly(all[..i], keep), hashOf)
  }

  /** One grouped page of the entries `all`: it passes entries up to the first one for which it is full. */
  ghost predicate IsGroupPage(all: seq<Bytes>, keep: Bytes -> bool, hashOf: Bytes -> Hash, limit: nat,
                          groups: seq<Group>, passed: nat) {
    && passed <= |all| && |groups| <= limit
    && groups == GroupsAt(all, keep, hashOf, passed)
    && (forall i :: 0 <= i < passed ==> !IsFull(GroupsAt(all, keep, hashOf, i), limit, hashOf(all[i])))
    && (passed < |all| ==> IsFull(groups, limit, hashOf(all[passed])))
  }

  method CollectGroups(entries: seq<Bytes>, prefix: Bytes, keep: Bytes -> bool, hashOf: Bytes -> Hash, limit: nat)
    returns (groups: seq<Group>, passed: nat, lastKey: Bytes)
    requires limit > 0
    ensures IsGroupPage(TakePrefix(entries, prefix), keep, hashOf, limit, groups, passed)
    ensures lastKey == LastOf(TakePrefix(entries, prefix)[..passed])
  {
    groups, lastKey := [], [];
    var all := TakePrefix(entries, prefix);
    passed := 0;
    while passed < |all|
      invariant passed <= |all|
      invariant groups == GroupsAt(all, keep, hashOf, passed)
      invariant forall i :: 0 <= i < passed ==> !IsFull(GroupsAt(all, keep, hashOf, i), limit, hashOf(all[i]))
      invariant |groups| <= limit && lastKey == LastOf(all[..passed])
    {
      var key := all[passed];
      if |groups| == limit && groups[|groups| - 1].hash != hashOf(key) {
        return;
      }
      lastKey := key;
      RunsStep(all, passed, keep, hashOf);
      groups := PushKept(groups, key, keep, hashOf);
      passed := passed + 1;
    }
  }

  lemma {:induction false} KeepConcat(a: seq<Bytes>, b: seq<Bytes>, keep: Bytes -> bool)
    ensures KeepOnly(a + b, keep) == KeepOnly(a, keep) + KeepOnly(b, keep)
  {
    if a == [] {
      assert a + b == b;
    } else {
      KeepConcat(a[1..], b, keep);
      assert (a + b)[1..] == a[1..] + b;
    }
  }

  lemma {:induction false} RunsConcat(groups: seq<Group>, a: seq<Bytes>, b: seq<Bytes>, hashOf: Bytes -> Hash)
    ensures Runs(groups, a + b, hashOf) == Runs(Runs(groups, a, hashOf), b, hashOf)
    decreases |a|
  {
    if a == [] {
      assert a + b == b;
    } else {
      RunsConcat(Push(groups, a[0], hashOf(a[0])), a[1..], b, hashOf);
      assert (a + b)[1..] == a[1..] + b;
    }
  }

  lemma RunsStep(s: seq<Bytes>, i: nat, keep: Bytes -> bool, hashOf: Bytes -> Hash)
    requires i < |s|
    ensures GroupsAt(s, keep, hashOf, i + 1) == PushKept(GroupsAt(s, keep, hashOf, i), s[i], keep, hashOf)
  {
    assert s[..i + 1] == s[..i] + [s[i]];
    KeepConcat(s[..i], [s[i]], keep);
    RunsConcat([], KeepOnly(s[..i], keep), KeepOnly([s[i]], keep), hashOf);
  }

  // Following cursors

  function Prefixed(q: Query, after: Option<Bytes>): seq<Bytes> {
    TakePrefix(q.Entries(after), q.prefix)
  }

  datatype GroupPage = GroupPage(groups: seq<Group>, passed: nat)

  /** The pages one gets by asking again with the last cursor until a page passes nothing. */
  ghost predicate IsGroupRun(q: Query, limit: nat, hashOf: Bytes -> Hash, after: Option<Bytes>, pages: seq<GroupPage>)
    decreases |pages|
  {
    && pages != []
    && IsGroupPage(Prefixed(q, after), q.keep, hashOf, limit, pages[0].groups, pages[0].passed)
    && if pages[0].passed == 0 then |pages| == 1
       else IsGroupRun(q, limit, hashOf, Some(Prefixed(q, after)[pages[0].passed - 1]), pages[1..])
  }

  function AllGroups(pages: seq<GroupPage>): seq<Group> {
    if pages == [] then [] else pages[0].groups + AllGroups(pages[1..])
  }

  /** The keys of one transaction stand side by side. */
  ghost predicate Contiguous(s: seq<Bytes>, hashOf: Bytes -> Hash) {
    forall i, j, k :: 0 <= i < j < k < |s| && hashOf(s[i]) == hashOf(s[k]) ==> hashOf(s[j]) == hashOf(s[i])
  }

  lemma {:induction false} TakePrefixRest(s: seq<Bytes>, prefix: Bytes, i: nat)
    requires i <= |TakePrefix(s, prefix)|
    ensures |TakePrefix(s, prefix)| <= |s| && TakePrefix(s[i..], prefix) == TakePrefix(s, prefix)[i..]
    ensures i > 0 ==> TakePrefix(s, prefix)[i - 1] == s[i - 1]
  {
    if s != [] && prefix <= s[0] {
      TakePrefixRest(s[1..], prefix, if i > 0 then i - 1 else 0);
      if i > 0 {
        assert s[1..][i - 1..] == s[i..];
      }
    }
  }

  ghost predicate IsSuffix(q: Query, after: Option<Bytes>, o: nat) {
    o <= |Ordered(q.order, q.keys)| && q.Entries(after) == Ordered(q.order, q.keys)[o..]
  }

  /** Behind the last key it passed, a page leaves exactly the rest. */
  lemma RestBehindPage(q: Query, after: Option<Bytes>, passed: nat, o: nat) returns (next: nat)
    requires InOrder(Asc, q.keys) && IsSuffix(q, after, o) && 0 < passed <= |Prefixed(q, after)|
    ensures var cursor := Some(Prefixed(q, after)[passed - 1]);
            IsSuffix(q, cursor, next) && Prefixed(q, cursor) == Prefixed(q, after)[passed..]
  {
    var s := Ordered(q.order, q.keys);
    OrderedIsInOrder(q.order, q.keys);
    TakePrefixRest(s[o..], q.prefix, passed);
    var j := o + passed - 1;
    assert s[o..][passed - 1] == s[j];
    SeekFindsKey(q.order, s, j);
    assert s[j..][1..] == s[j + 1..] == s[o..][passed..];
    next := j + 1;
  }

  lemma {:induction false} RunsOnTop(g: seq<Group>, h: seq<Group>, s: seq<Bytes>, hashOf: Bytes -> Hash)
    requires h != []
    ensures Runs(g + h, s, hashOf) == g + Runs(h, s, hashOf)
    decreases |s|
  {
    if s != [] {
      assert Push(g + h, s[0], hashOf(s[0])) == g + Push(h, s[0], hashOf(s[0]));
      RunsOnTop(g, Push(h, s[0], hashOf(s[0])), s[1..], hashOf);
    }
  }

  lemma RunsApart(g: seq<Group>, s: seq<Bytes>, hashOf: Bytes -> Hash)
    requires g != [] && s != [] ==> hashOf(s[0]) != g[|g| - 1].hash
    ensures Runs(g, s, hashOf) == g + Runs([], s, hashOf)
  {
    if s != [] {
      var first := [Group(hashOf(s[0]), [s[0]])];
      assert Push(g, s[0], hashOf(s[0])) == g + first && Push([], s[0], hashOf(s[0])) == first;
      RunsUnfold(g, s, hashOf);
      RunsUnfold([], s, hashOf);
      hide Runs, Push;
      RunsOnTop(g, first, s[1..], hashOf);
    } else {
      assert g + [] == g;
    }
  }

  lemma RunsUnfold(g: seq<Group>, s: seq<Bytes>, hashOf: Bytes -> Hash)
    requires s != []
    ensures Runs(g, s, hashOf) == Runs(Push(g, s[0], hashOf(s[0])), s[1..], hashOf)
  {
  }

  lemma {:induction false} LastRun(groups: seq<Group>, s: seq<Bytes>, hashOf: Bytes -> Hash)
    requires s != []
    ensures var r := Runs(groups, s, hashOf); r != [] && r[|r| - 1].hash == hashOf(s[|s| - 1])
    decreases |s|
  {
    if |s| > 1 {
      LastRun(Push(groups, s[0], hashOf(s[0])), s[1..], hashOf);
    }
  }

  lemma {:induction false} KeptAreEntries(s: seq<Bytes>, keep: Bytes -> bool)
    ensures forall k :: k in KeepOnly(s, keep) ==> k in s
  {
    if s != [] {
      KeptAreEntries(s[1..], keep);
    }
  }

  /** When a page is full, none of the rest belongs to its last transaction. */
  lemma FullPageEnds(all: seq<Bytes>, keep: Bytes -> bool, hashOf: Bytes -> Hash, limit: nat, groups: seq<Group>,
                     passed: nat)
    requires Contiguous(all, hashOf) && IsGroupPage(all, keep, hashOf, limit, groups, passed)
    ensures var rest := KeepOnly(all[passed..], keep);
            groups != [] && rest != [] ==> hashOf(rest[0]) != groups[|groups| - 1].hash
  {
    var kept, rest := KeepOnly(all[..passed], keep), KeepOnly(all[passed..], keep);
    if groups != [] && rest != [] {
      if kept != [] {
        LastRun([], kept, hashOf);
        KeptAreEntries(all[..passed], keep);
        KeptAreEntries(all[passed..], keep);
        assert kept[|kept| - 1] in all[..passed] && rest[0] in all[passed..];
        var i :| 0 <= i < passed && all[..passed][i] == kept[|kept| - 1];
        var k :| 0 <= k < |all[passed..]| && all[passed..][k] == rest[0];
        assert all[passed + k] == rest[0] && all[i] == kept[|kept| - 1];
        assert hashOf(all[passed]) != hashOf(all[i]);
      }
    }
  }

  lemma GroupsSplit(all: seq<Bytes>, keep: Bytes -> bool, hashOf: Bytes -> Hash, limit: nat, groups: seq<Group>,
                    passed: nat)
    requires Contiguous(all, hashOf) && IsGroupPage(all, keep, hashOf, limit, groups, passed)
    ensures Runs([], KeepOnly(all, keep), hashOf) == groups + Runs([], KeepOnly(all[passed..], keep), hashOf)
  {
    assert all == all[..passed] + all[passed..];
    KeepConcat(all[..passed], all[passed..], keep);
    RunsConcat([], KeepOnly(all[..passed], keep), KeepOnly(all[passed..], keep), hashOf);
    FullPageEnds(all, keep, hashOf, limit, groups, passed);
    RunsApart(groups, KeepOnly(all[passed..], keep), hashOf);
  }

  lemma ContiguousRest(s: seq<Bytes>, hashOf: Bytes -> Hash, i: nat)
    requires Contiguous(s, hashOf) && i <= |s|
    ensures Contiguous(s[i..], hashOf)
  {
  }

  lemma {:induction false} GroupsCover(q: Query, limit: nat, hashOf: Bytes -> Hash, after: Option<Bytes>,
                          pages: seq<GroupPage>, o: nat)
    requires InOrder(Asc, q.keys) && limit > 0 && IsGroupRun(q, limit, hashOf, after, pages) && IsSuffix(q, after, o)
    requires Contiguous(Prefixed(q, after), hashOf)
    ensures AllGroups(pages) == Runs([], q.Remaining(after), hashOf)
    decreases |pages|
  {
    hide Contiguous, IsGroupPage, IsSuffix, Runs, Query.Entries, TakePrefix, KeepOnly;
    var all, page := Prefixed(q, after), pages[0];
    PageIsProgress(all, q.keep, hashOf, limit, page.groups, page.passed);
    if page.passed == 0 {
      assert AllGroups(pages[1..]) == [];
      assert AllGroups(pages) == page.groups;
    } else {
      GroupsSplit(all, q.keep, hashOf, limit, page.groups, page.passed);
      var next := RestBehindPage(q, after, page.passed, o);
      ContiguousRest(all, hashOf, page.passed);
      GroupsCover(q, limit, hashOf, Some(all[page.passed - 1]), pages[1..], next);
    }
  }

  lemma PageIsProgress(all: seq<Bytes>, keep: Bytes -> bool, hashOf: Bytes -> Hash, limit: nat, groups: seq<Group>,
                       passed: nat)
    requires IsGroupPage(all, keep, hashOf, limit, groups, passed)
    ensures passed <= |all|
    ensures passed == 0 ==> all == [] && groups == Runs([], KeepOnly(all, keep), hashOf)
  {
    assert all[..0] == [];
  }

  /**
   If transactions stand side by side, following cursors in either order yields every transaction from the
   start key on once, with all its cells, whatever the limit; and that is all exactly if the start is far enough.
   */
  lemma GroupedPaginationIsLossless(q: Query, limit: nat, hashOf: Bytes -> Hash, pages: seq<GroupPage>)
    requires q.Valid() && limit > 0 && IsGroupRun(q, limit, hashOf, None, pages)
    requires Contiguous(Prefixed(q, None), hashOf)
    ensures AllGroups(pages) == Runs([], q.Remaining(None), hashOf)
    ensures q.Remaining(None) == q.Answer() <==> StartIsFar(q)
  {
    hide IsGroupRun, Runs, Contiguous;
    var o := SeekSplits(q.order, Ordered(q.order, q.keys), q.start);
    GroupsCover(q, limit, hashOf, None, pages, o);
    StartDecides(q);
  }

  /** The history keys of one script, where a transaction hash names one position in the chain. */
  ghost predicate IsHistoryOf(ks: seq<Key>, s: seq<Bytes>, hashOf: Bytes -> Hash, kind: ScriptType, script: Script) {
    && |ks| == |s|
    && (forall i :: 0 <= i < |s| ==>
          ks[i].History? && Keys.Valid(ks[i]) && ks[i].kind == kind && ks[i].script == script && s[i] == Encode(ks[i]))
    && (forall i, j :: 0 <= i < |s| && 0 <= j < |s| ==>
          (hashOf(s[i]) == hashOf(s[j]) <==> ks[i].block == ks[j].block && ks[i].tx == ks[j].tx))
  }

  /** In the history of one script transactions do stand side by side. */
  lemma OneScriptIsContiguous(order: Order, ks: seq<Key>, s: seq<Bytes>, hashOf: Bytes -> Hash, kind: ScriptType,
                          script: Script)
    requires IsHistoryOf(ks, s, hashOf, kind, script) && InOrder(order, s)
    ensures Contiguous(s, hashOf)
  {
    hide Encode, Keys.Valid;
    forall i, j, k | 0 <= i < j < k < |s| && hashOf(s[i]) == hashOf(s[k]) ensures hashOf(s[j]) == hashOf(s[i]) {
      HistoryOrder(ks[i], ks[j]);
      HistoryOrder(ks[j], ks[k]);
      HistoryOrder(ks[j], ks[i]);
      HistoryOrder(ks[k], ks[j]);
      assert Precedes(order, s[i], s[j]) && Precedes(order, s[j], s[k]);
    }
  }

  function CellsOf(groups: seq<Group>): seq<Bytes> {
    if groups == [] then [] else CellsOf(groups[..|groups| - 1]) + groups[|groups| - 1].cells
  }

  /** No group is empty, a group holds cells of one transaction, and neighbours are of different ones. */
  ghost predicate AreMaximal(groups: seq<Group>, hashOf: Bytes -> Hash) {
    && (forall i :: 0 <= i < |groups| ==> groups[i].cells != [] && forall k :: k in groups[i].cells ==>
        hashOf(k) == groups[i].hash)
    && (forall i :: 0 < i < |groups| ==> groups[i - 1].hash != groups[i].hash)
  }

  /** Grouping changes nothing but the grouping: the groups are the maximal runs of the cells given, in order. */
  lemma {:induction false} RunsAreMaximal(groups: seq<Group>, s: seq<Bytes>, hashOf: Bytes -> Hash)
    requires AreMaximal(groups, hashOf)
    ensures AreMaximal(Runs(groups, s, hashOf), hashOf)
    ensures CellsOf(Runs(groups, s, hashOf)) == CellsOf(groups) + s
    decreases |s|
  {
    hide AreMaximal, CellsOf, Push;
    if s != [] {
      PushIsMaximal(groups, s[0], hashOf);
      PushCells(groups, s[0], hashOf(s[0]));
      RunsAreMaximal(Push(groups, s[0], hashOf(s[0])), s[1..], hashOf);
      assert CellsOf(groups) + s == CellsOf(groups) + [s[0]] + s[1..];
    } else {
      assert CellsOf(groups) + s == CellsOf(groups);
    }
  }

  lemma PushIsMaximal(groups: seq<Group>, key: Bytes, hashOf: Bytes -> Hash)
    requires AreMaximal(groups, hashOf)
    ensures AreMaximal(Push(groups, key, hashOf(key)), hashOf)
  {
    var r := Push(groups, key, hashOf(key));
    forall i | 0 <= i < |r| ensures r[i].cells != [] && forall k :: k in r[i].cells ==> hashOf(k) == r[i].hash {
      assert i < |r| - 1 ==> r[i] == groups[i];
    }
    forall i | 0 < i < |r| ensures r[i - 1].hash != r[i].hash {
      assert r[i - 1].hash == groups[i - 1].hash;
    }
  }

  lemma PushCells(groups: seq<Group>, key: Bytes, hash: Hash)
    ensures CellsOf(Push(groups, key, hash)) == CellsOf(groups) + [key]
  {
    var r := Push(groups, key, hash);
    if groups != [] && groups[|groups| - 1].hash == hash {
      assert r[..|r| - 1] == groups[..|groups| - 1];
    } else {
      assert r[..|r| - 1] == groups;
    }
  }
}
