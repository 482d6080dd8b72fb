/**
 Which transactions a grouped query splits into several groups. Without any assumption no cell is lost or
 repeated; a transaction can be split, by some limit, exactly if an entry of another transaction lies
 between two of its cells.
 */
module GroupSplits {
  import opened Options
  import opened Bytes
  import opened Keys
  import opened Pagination
  import opened GroupedPages

  /** The pages cut the entries into pieces, one behind the other. */
  ghost predicate IsCut(all: seq<Bytes>, keep: Bytes -> bool, hashOf: Bytes -> Hash, limit: nat, pages: seq<GroupPage>)
    decreases |pages|
  {
    && pages != []
    && IsGroupPage(all, keep, hashOf, limit, pages[0].groups, pages[0].passed)
    && if pages[0].passed == 0 then |pages| == 1 else IsCut(all[pages[0].passed..], keep, hashOf, limit, pages[1..])
  }

  lemma {:induction false} GroupRunIsCut(q: Query, limit: nat, hashOf: Bytes -> Hash, after: Option<Bytes>,
                          pages: seq<GroupPage>, o: nat)
    requires InOrder(Asc, q.keys) && IsSuffix(q, after, o)
    ensures IsGroupRun(q, limit, hashOf, after, pages) <==> IsCut(Prefixed(q, after), q.keep, hashOf, limit, pages)
    decreases |pages|
  {
    hide IsGroupPage, IsSuffix, Query.Entries, TakePrefix;
    if pages != [] && IsGroupPage(Prefixed(q, after), q.keep, hashOf, limit, pages[0].groups, pages[0].passed)
       && pages[0].passed != 0 {
      PageIsProgress(Prefixed(q, after), q.keep, hashOf, limit, pages[0].groups, pages[0].passed);
      var next := RestBehindPage(q, after, pages[0].passed, o);
      GroupRunIsCut(q, limit, hashOf, Some(Prefixed(q, after)[pages[0].passed - 1]), pages[1..], next);
    }
  }

  // No cell is lost or repeated

  lemma {:induction false} CellsConcat(a: seq<Group>, b: seq<Group>)
    ensures CellsOf(a + b) == CellsOf(a) + CellsOf(b)
    decreases |b|
  {
    if b == [] {
      assert a + b == a;
    } else {
      CellsConcat(a, b[..|b| - 1]);
      assert (a + b)[..|a + b| - 1] == a + b[..|b| - 1];
    }
  }

  lemma {:induction false} CutKeepsCells(all: seq<Bytes>, keep: Bytes -> bool, hashOf: Bytes -> Hash, limit: nat,
                          pages: seq<GroupPage>)
    requires IsCut(all, keep, hashOf, limit, pages)
    ensures CellsOf(AllGroups(pages)) == KeepOnly(all, keep)
    decreases |pages|
  {
    hide IsGroupPage, CellsOf, KeepOnly, Runs;
    var page := pages[0];
    PageIsProgress(all, keep, hashOf, limit, page.groups, page.passed);
    PageCells(all, keep, hashOf, limit, page.groups, page.passed);
    CellsConcat(page.groups, AllGroups(pages[1..]));
    if page.passed != 0 {
      CutKeepsCells(all[page.passed..], keep, hashOf, limit, pages[1..]);
    } else {
      NoCells();
      assert AllGroups(pages[1..]) == [] && KeepOnly(all[page.passed..], keep) == [] by {
        NothingKept(all, keep);
      }
    }
  }

  lemma NoCells()
    ensures CellsOf([]) == []
  {
  }

  lemma NothingKept(all: seq<Bytes>, keep: Bytes -> bool)
    ensures all == [] ==> KeepOnly(all[0..], keep) == []
  {
  }

  lemma PageCells(all: seq<Bytes>, keep: Bytes -> bool, hashOf: Bytes -> Hash, limit: nat, groups: seq<Group>,
                  passed: nat)
    requires IsGroupPage(all, keep, hashOf, limit, groups, passed)
    ensures passed <= |all| && CellsOf(groups) + KeepOnly(all[passed..], keep) == KeepOnly(all, keep)
  {
    hide CellsOf, Runs, KeepOnly;
    NoCells();
    RunsAreMaximal([], KeepOnly(all[..passed], keep), hashOf);
    assert all == all[..passed] + all[passed..];
    KeepConcat(all[..passed], all[passed..], keep);
  }

  /**
   Following cursors in either order yields all cells from the start key on, each once and in order, however
   they are grouped.
   */
  lemma GroupedPaginationKeepsCells(q: Query, limit: nat, hashOf: Bytes -> Hash, pages: seq<GroupPage>)
    requires q.Valid() && limit > 0 && IsGroupRun(q, limit, hashOf, None, pages)
    ensures CellsOf(AllGroups(pages)) == q.Remaining(None)
  {
    var o := SeekSplits(q.order, Ordered(q.order, q.keys), q.start);
    GroupRunIsCut(q, limit, hashOf, None, pages, o);
    CutKeepsCells(Prefixed(q, None), q.keep, hashOf, limit, pages);
  }

  // Splits

  ghost predicate HasGroup(groups: seq<Group>, hash: Hash) {
    exists i :: 0 <= i < |groups| && groups[i].hash == hash
  }

  ghost predicate IsSplit(groups: seq<Group>, hash: Hash) {
    exists i, j :: 0 <= i < j < |groups| && groups[i].hash == hash && groups[j].hash == hash
  }

  predicate IsKeptOf(all: seq<Bytes>, keep: Bytes -> bool, hashOf: Bytes -> Hash, hash: Hash, i: nat) {
    i < |all| && keep(all[i]) && hashOf(all[i]) == hash
  }

  predicate IsOther(all: seq<Bytes>, hashOf: Bytes -> Hash, hash: Hash, i: nat) {
    i < |all| && hashOf(all[i]) != hash
  }

  /** Between two kept entries of the transaction lies an entry, kept or not, of another one. */
  ghost predicate IsInterrupted(all: seq<Bytes>, keep: Bytes -> bool, hashOf: Bytes -> Hash, hash: Hash) {
    exists a: nat, b: nat, c: nat ::
      a < b < c && IsKeptOf(all, keep, hashOf, hash, a) && IsOther(all, hashOf, hash, b)
          && IsKeptOf(all, keep, hashOf, hash, c)
  }

  lemma InterruptedBehind(all: seq<Bytes>, keep: Bytes -> bool, hashOf: Bytes -> Hash, hash: Hash, o: nat)
    requires o <= |all| && IsInterrupted(all[o..], keep, hashOf, hash)
    ensures IsInterrupted(all, keep, hashOf, hash)
  {
    var a: nat, b: nat, c: nat :| a < b < c && IsKeptOf(all[o..], keep, hashOf, hash, a)
        && IsOther(all[o..], hashOf, hash, b)
      && IsKeptOf(all[o..], keep, hashOf, hash, c);
    assert IsKeptOf(all, keep, hashOf, hash, o + a) && IsOther(all, hashOf, hash, o + b)
        && IsKeptOf(all, keep, hashOf, hash, o + c);
  }

  lemma SplitConcat(g: seq<Group>, h: seq<Group>, hash: Hash)
    ensures IsSplit(g + h, hash) <==> IsSplit(g, hash) || IsSplit(h, hash) || (HasGroup(g, hash) && HasGroup(h, hash))
  {
    var all := g + h;
    if IsSplit(h, hash) {
      var i, j :| 0 <= i < j < |h| && h[i].hash == hash && h[j].hash == hash;
      assert all[|g| + i].hash == hash && all[|g| + j].hash == hash;
    }
    if IsSplit(g, hash) {
      var i, j :| 0 <= i < j < |g| && g[i].hash == hash && g[j].hash == hash;
      assert all[i].hash == hash && all[j].hash == hash;
    }
    if HasGroup(g, hash) && HasGroup(h, hash) {
      var i :| 0 <= i < |g| && g[i].hash == hash;
      var j :| 0 <= j < |h| && h[j].hash == hash;
      assert all[i].hash == hash && all[|g| + j].hash == hash;
    }
    if IsSplit(all, hash) {
      var i, j :| 0 <= i < j < |all| && all[i].hash == hash && all[j].hash == hash;
      assert i < |g| ==> g[i].hash == hash;
      assert j < |g| ==> g[j].hash == hash;
      assert i >= |g| ==> h[i - |g|].hash == hash;
      assert j >= |g| ==> h[j - |g|].hash == hash;
    }
  }

  lemma HasConcat(g: seq<Group>, h: seq<Group>, hash: Hash)
    ensures HasGroup(g + h, hash) <==> HasGroup(g, hash) || HasGroup(h, hash)
  {
    var all := g + h;
    if HasGroup(g, hash) {
      var i :| 0 <= i < |g| && g[i].hash == hash;
      assert all[i].hash == hash;
    }
    if HasGroup(h, hash) {
      var i :| 0 <= i < |h| && h[i].hash == hash;
      assert all[|g| + i].hash == hash;
    }
  }

  lemma PushHas(groups: seq<Group>, key: Bytes, hash: Hash, h: Hash)
    ensures HasGroup(Push(groups, key, hash), h) <==> HasGroup(groups, h) || h == hash
    ensures IsSplit(Push(groups, key, hash), h) <==>
              IsSplit(groups, h) || (h == hash && HasGroup(groups, h) && groups[|groups| - 1].hash != h)
  {
    var r := Push(groups, key, hash);
    assert r[|r| - 1].hash == hash;
    if groups != [] && groups[|groups| - 1].hash == hash {
      assert |r| == |groups| && forall i :: 0 <= i < |r| ==> r[i].hash == groups[i].hash;
    } else {
      HasConcat(groups, [Group(hash, [key])], h);
      SplitConcat(groups, [Group(hash, [key])], h);
      assert HasGroup([Group(hash, [key])], h) <==> h == hash;
      assert h == hash && HasGroup(groups, h) ==> groups != [];
    }
  }

  /** A group stands for a kept entry. */
  lemma {:induction false} GroupIsKept(all: seq<Bytes>, keep: Bytes -> bool, hashOf: Bytes -> Hash, i: nat,
                          hash: Hash) returns (a: nat)
    requires i <= |all| && HasGroup(GroupsAt(all, keep, hashOf, i), hash)
    ensures a < i && IsKeptOf(all, keep, hashOf, hash, a)
  {
    hide Push, KeepOnly;
    NoGroupsAtFirst(all, keep, hashOf);
    a := i - 1;
    RunsStep(all, a, keep, hashOf);
    PushHas(GroupsAt(all, keep, hashOf, a), all[a], hashOf(all[a]), hash);
    if HasGroup(GroupsAt(all, keep, hashOf, a), hash) {
      a := GroupIsKept(all, keep, hashOf, a, hash);
    }
  }

  lemma NoGroupsAtFirst(all: seq<Bytes>, keep: Bytes -> bool, hashOf: Bytes -> Hash)
    ensures GroupsAt(all, keep, hashOf, 0) == []
  {
    assert all[..0] == [];
  }

  lemma {:induction false} KeptHasGroup(all: seq<Bytes>, keep: Bytes -> bool, hashOf: Bytes -> Hash, i: nat,
                          hash: Hash, a: nat)
    requires a < i <= |all| && IsKeptOf(all, keep, hashOf, hash, a)
    ensures HasGroup(GroupsAt(all, keep, hashOf, i), hash)
  {
    hide Push, KeepOnly, GroupsAt;
    RunsStep(all, i - 1, keep, hashOf);
    PushHas(GroupsAt(all, keep, hashOf, i - 1), all[i - 1], hashOf(all[i - 1]), hash);
    if a < i - 1 {
      KeptHasGroup(all, keep, hashOf, i - 1, hash, a);
    }
  }

  /** The last group is that of the last kept entry. */
  lemma {:induction false} LastKept(all: seq<Bytes>, keep: Bytes -> bool, hashOf: Bytes -> Hash, i: nat)
    returns (b: nat)
    requires i <= |all| && GroupsAt(all, keep, hashOf, i) != []
    ensures var groups := GroupsAt(all, keep, hashOf, i);
            b < i && IsKeptOf(all, keep, hashOf, groups[|groups| - 1].hash, b)
    ensures forall x :: b < x < i ==> !keep(all[x])
  {
    hide Push, KeepOnly;
    NoGroupsAtFirst(all, keep, hashOf);
    b := i - 1;
    RunsStep(all, b, keep, hashOf);
    if !keep(all[b]) {
      b := LastKept(all, keep, hashOf, b);
    }
  }

  /** Within one page a transaction is split only if it is interrupted. */
  lemma {:induction false} SplitInPage(all: seq<Bytes>, keep: Bytes -> bool, hashOf: Bytes -> Hash, i: nat, hash: Hash)
    requires i <= |all| && IsSplit(GroupsAt(all, keep, hashOf, i), hash)
    ensures IsInterrupted(all, keep, hashOf, hash)
  {
    hide Push, KeepOnly, GroupsAt, HasGroup, IsSplit;
    NoGroupsAtFirst(all, keep, hashOf);
    NotSplit(hash);
    var c := i - 1;
    var groups := GroupsAt(all, keep, hashOf, c);
    RunsStep(all, c, keep, hashOf);
    PushHas(groups, all[c], hashOf(all[c]), hash);
    if IsSplit(groups, hash) {
      SplitInPage(all, keep, hashOf, c, hash);
    } else {
      HasNotEmpty(groups, hash);
      var a := GroupIsKept(all, keep, hashOf, c, hash);
      var b := LastKept(all, keep, hashOf, c);
      assert a < b < c && IsOther(all, hashOf, hash, b) && IsKeptOf(all, keep, hashOf, hash, c);
    }
  }

  lemma NotSplit(hash: Hash)
    ensures !IsSplit([], hash) && !HasGroup([], hash)
  {
  }

  lemma HasNotEmpty(groups: seq<Group>, hash: Hash)
    requires HasGroup(groups, hash)
    ensures groups != []
  {
  }

  // Pages

  lemma {:induction false} CutGroupIsKept(all: seq<Bytes>, keep: Bytes -> bool, hashOf: Bytes -> Hash, limit: nat,
                          pages: seq<GroupPage>, hash: Hash)
    returns (a: nat)
    requires IsCut(all, keep, hashOf, limit, pages) && HasGroup(AllGroups(pages), hash)
    ensures IsKeptOf(all, keep, hashOf, hash, a)
    decreases |pages|
  {
    hide HasGroup, Runs, KeepOnly;
    var page := pages[0];
    HasConcat(page.groups, AllGroups(pages[1..]), hash);
    if HasGroup(page.groups, hash) {
      a := GroupIsKept(all, keep, hashOf, page.passed, hash);
    } else {
      NotSplit(hash);
      assert AllGroups([]) == [];
      var rest := CutGroupIsKept(all[page.passed..], keep, hashOf, limit, pages[1..], hash);
      a := page.passed + rest;
    }
  }

  lemma {:induction false} KeptHasCutGroup(all: seq<Bytes>, keep: Bytes -> bool, hashOf: Bytes -> Hash, limit: nat,
                          pages: seq<GroupPage>, hash: Hash, a: nat)
    requires IsCut(all, keep, hashOf, limit, pages) && IsKeptOf(all, keep, hashOf, hash, a)
    ensures HasGroup(AllGroups(pages), hash)
    decreases |pages|
  {
    hide HasGroup, Runs, KeepOnly;
    var page := pages[0];
    HasConcat(page.groups, AllGroups(pages[1..]), hash);
    if a < page.passed {
      KeptHasGroup(all, keep, hashOf, page.passed, hash, a);
    } else {
      PageIsProgress(all, keep, hashOf, limit, page.groups, page.passed);
      assert IsKeptOf(all[page.passed..], keep, hashOf, hash, a - page.passed);
      KeptHasCutGroup(all[page.passed..], keep, hashOf, limit, pages[1..], hash, a - page.passed);
    }
  }

  /** No limit splits a transaction that is not interrupted. */
  lemma {:induction false} SplitIsInterrupted(all: seq<Bytes>, keep: Bytes -> bool, hashOf: Bytes -> Hash, limit: nat,
                          pages: seq<GroupPage>, hash: Hash)
    requires IsCut(all, keep, hashOf, limit, pages) && IsSplit(AllGroups(pages), hash)
    ensures IsInterrupted(all, keep, hashOf, hash)
    decreases |pages|
  {
    hide HasGroup, IsSplit, Runs, KeepOnly;
    var page := pages[0];
    SplitConcat(page.groups, AllGroups(pages[1..]), hash);
    NotSplit(hash);
    assert AllGroups([]) == [];
    if IsSplit(page.groups, hash) {
      SplitInPage(all, keep, hashOf, page.passed, hash);
    } else if IsSplit(AllGroups(pages[1..]), hash) {
      SplitIsInterrupted(all[page.passed..], keep, hashOf, limit, pages[1..], hash);
      InterruptedBehind(all, keep, hashOf, hash, page.passed);
    } else {
      SplitAcross(all, keep, hashOf, limit, pages, hash);
    }
  }

  /** A transaction in a full page and behind it: the page ends at another transaction, or its last cell is of one. */
  lemma SplitAcross(all: seq<Bytes>, keep: Bytes -> bool, hashOf: Bytes -> Hash, limit: nat, pages: seq<GroupPage>,
                    hash: Hash)
    requires IsCut(all, keep, hashOf, limit, pages) && pages[0].passed != 0
    requires HasGroup(pages[0].groups, hash) && HasGroup(AllGroups(pages[1..]), hash)
    ensures IsInterrupted(all, keep, hashOf, hash)
  {
    hide HasGroup, IsSplit, Runs, KeepOnly;
    var passed := pages[0].passed;
    var a := GroupIsKept(all, keep, hashOf, passed, hash);
    var rest := CutGroupIsKept(all[passed..], keep, hashOf, limit, pages[1..], hash);
    var c := passed + rest;
    assert IsKeptOf(all, keep, hashOf, hash, c);
    if hashOf(all[passed]) != hash {
      assert IsOther(all, hashOf, hash, passed) && a < passed < c;
    } else {
      HasNotEmpty(pages[0].groups, hash);
      var b := LastKept(all, keep, hashOf, passed);
      assert a < b < c && IsOther(all, hashOf, hash, b);
    }
  }

  /** Pages of one transaction each split every transaction that is interrupted. */
  lemma {:induction false} InterruptedIsSplit(all: seq<Bytes>, keep: Bytes -> bool, hashOf: Bytes -> Hash,
                          pages: seq<GroupPage>, hash: Hash,
                                              a: nat, b: nat, c: nat)
    requires IsCut(all, keep, hashOf, 1, pages) && a < b < c
    requires IsKeptOf(all, keep, hashOf, hash, a) && IsOther(all, hashOf, hash, b)
              && IsKeptOf(all, keep, hashOf, hash, c)
    ensures IsSplit(AllGroups(pages), hash)
    decreases |pages|
  {
    hide HasGroup, IsSplit, Runs, KeepOnly;
    var page := pages[0];
    PageIsProgress(all, keep, hashOf, 1, page.groups, page.passed);
    SplitConcat(page.groups, AllGroups(pages[1..]), hash);
    var rest := all[page.passed..];
    if a >= page.passed {
      assert IsKeptOf(rest, keep, hashOf, hash, a - page.passed) && IsOther(rest, hashOf, hash, b - page.passed)
        && IsKeptOf(rest, keep, hashOf, hash, c - page.passed);
      InterruptedIsSplit(rest, keep, hashOf, pages[1..], hash, a - page.passed, b - page.passed, c - page.passed);
    } else {
      PageEndsBefore(all, keep, hashOf, page.groups, page.passed, hash, a, b);
      KeptHasGroup(all, keep, hashOf, page.passed, hash, a);
      assert IsKeptOf(rest, keep, hashOf, hash, c - page.passed);
      KeptHasCutGroup(rest, keep, hashOf, 1, pages[1..], hash, c - page.passed);
    }
  }

  /** A page of one transaction does not go past another one. */
  lemma PageEndsBefore(all: seq<Bytes>, keep: Bytes -> bool, hashOf: Bytes -> Hash, groups: seq<Group>, passed: nat,
                       hash: Hash, a: nat, b: nat)
    requires IsGroupPage(all, keep, hashOf, 1, groups, passed)
    requires a < b && a < passed && IsKeptOf(all, keep, hashOf, hash, a) && IsOther(all, hashOf, hash, b)
    ensures passed <= b
  {
    hide Runs, KeepOnly;
    if b < passed {
      KeptHasGroup(all, keep, hashOf, b, hash, a);
      GroupsGrow(all, keep, hashOf, b, passed);
      FullAt(GroupsAt(all, keep, hashOf, b), hash, hashOf(all[b]));
    }
  }

  lemma FullAt(groups: seq<Group>, hash: Hash, next: Hash)
    requires |groups| <= 1 && HasGroup(groups, hash) && next != hash
    ensures IsFull(groups, 1, next)
  {
  }

  lemma {:induction false} GroupsGrow(all: seq<Bytes>, keep: Bytes -> bool, hashOf: Bytes -> Hash, i: nat, j: nat)
    requires i <= j <= |all|
    ensures |GroupsAt(all, keep, hashOf, i)| <= |GroupsAt(all, keep, hashOf, j)|
    decreases j - i
  {
    hide GroupsAt;
    if i < j {
      RunsStep(all, j - 1, keep, hashOf);
      GroupsGrow(all, keep, hashOf, i, j - 1);
    }
  }

  // Existence of pages

  lemma {:induction false} PageExists(all: seq<Bytes>, keep: Bytes -> bool, hashOf: Bytes -> Hash, limit: nat,
                          from: nat) returns (passed: nat)
    requires limit > 0 && from <= |all| && |GroupsAt(all, keep, hashOf, from)| <= limit
    requires forall i :: 0 <= i < from ==> !IsFull(GroupsAt(all, keep, hashOf, i), limit, hashOf(all[i]))
    ensures passed <= |all| && IsGroupPage(all, keep, hashOf, limit, GroupsAt(all, keep, hashOf, passed), passed)
    decreases |all| - from
  {
    hide GroupsAt;
    if from == |all| || IsFull(GroupsAt(all, keep, hashOf, from), limit, hashOf(all[from])) {
      passed := from;
    } else {
      RunsStep(all, from, keep, hashOf);
      passed := PageExists(all, keep, hashOf, limit, from + 1);
    }
  }

  lemma {:induction false} CutExists(all: seq<Bytes>, keep: Bytes -> bool, hashOf: Bytes -> Hash, limit: nat)
    returns (pages: seq<GroupPage>)
    requires limit > 0
    ensures IsCut(all, keep, hashOf, limit, pages)
    decreases |all|
  {
    hide GroupsAt, IsGroupPage;
    NoGroupsAtFirst(all, keep, hashOf);
    var passed := PageExists(all, keep, hashOf, limit, 0);
    var page := GroupPage(GroupsAt(all, keep, hashOf, passed), passed);
    if passed == 0 {
      pages := [page];
    } else {
      var rest := CutExists(all[passed..], keep, hashOf, limit);
      pages := [page] + rest;
      assert pages[1..] == rest;
    }
  }

  /** Some limit makes following cursors yield the transaction in more than one group. */
  ghost predicate CanBeSplit(q: Query, hashOf: Bytes -> Hash, hash: Hash) {
    exists limit: nat, pages :: limit > 0 && IsGroupRun(q, limit, hashOf, None, pages)
        && IsSplit(AllGroups(pages), hash)
  }

  /** A transaction can be split if and only if an entry of another transaction lies between two of its cells. */
  lemma SplitExactlyIfInterrupted(q: Query, hashOf: Bytes -> Hash, hash: Hash)
    requires q.Valid()
    ensures CanBeSplit(q, hashOf, hash) <==> IsInterrupted(Prefixed(q, None), q.keep, hashOf, hash)
  {
    hide IsGroupRun, IsSplit, IsCut, TakePrefix;
    var all := Prefixed(q, None);
    var o := SeekSplits(q.order, Ordered(q.order, q.keys), q.start);
    assert IsSuffix(q, None, o);
    if CanBeSplit(q, hashOf, hash) {
      var limit: nat, pages :| limit > 0 && IsGroupRun(q, limit, hashOf, None, pages)
          && IsSplit(AllGroups(pages), hash);
      GroupRunIsCut(q, limit, hashOf, None, pages, o);
      SplitIsInterrupted(all, q.keep, hashOf, limit, pages, hash);
    }
    if IsInterrupted(all, q.keep, hashOf, hash) {
      var a: nat, b: nat, c: nat :| a < b < c && IsKeptOf(all, q.keep, hashOf, hash, a) && IsOther(all, hashOf, hash, b)
        && IsKeptOf(all, q.keep, hashOf, hash, c);
      var pages := CutExists(all, q.keep, hashOf, 1);
      GroupRunIsCut(q, 1, hashOf, None, pages, o);
      InterruptedIsSplit(all, q.keep, hashOf, pages, hash, a, b, c);
    }
  }

  // An example

  function EntryOf(codeHash: Hash, hashType: Byte, args: Bytes, block: nat): Bytes {
    Encode(History(Lock, Script(codeHash, hashType, args), block, 0, 0, true))
  }

  /** Outputs of one script in the blocks 1 and 2, and an output of a script with longer arguments in block 1. */
  function TwoScripts(codeHash: Hash, hashType: Byte): seq<Bytes> {
    [EntryOf(codeHash, hashType, [], 1), EntryOf(codeHash, hashType, [], 2), EntryOf(codeHash, hashType, [255], 1)]
  }

  lemma EntryStartsWith(codeHash: Hash, hashType: Byte, args: Bytes, block: nat)
    ensures var p := SearchPrefix(SearchKey(Lock, Script(codeHash, hashType, [])), false);
            EntryOf(codeHash, hashType, args, block)
            == p + (args + (Big(block, 8) + (Big(0, 4) + Big(0, 4) + [Flag(true)])))
  {
    hide Big;
  }

  lemma FirstByteIsZero(n: nat)
    requires n < 256
    ensures Big(n, 8)[0] == 0
  {
    assert Big(n, 8) == Big(0, 7) + [n] && Big(0, 7) == Big(0, 6) + [0];
  }

  predicate AllStartWith(s: seq<Bytes>, prefix: Bytes) {
    forall i :: 0 <= i < |s| ==> prefix <= s[i]
  }

  lemma ScriptsInOrder(codeHash: Hash, hashType: Byte)
    ensures InOrder(Asc, TwoScripts(codeHash, hashType))
    ensures var search := SearchKey(Lock, Script(codeHash, hashType, []));
            AllStartWith(TwoScripts(codeHash, hashType), SearchPrefix(search, false))
  {
    hide Encode, Big, SearchPrefix, Less;
    var p := SearchPrefix(SearchKey(Lock, Script(codeHash, hashType, [])), false);
    var short := Script(codeHash, hashType, []);
    EntryStartsWith(codeHash, hashType, [], 1);
    EntryStartsWith(codeHash, hashType, [], 2);
    EntryStartsWith(codeHash, hashType, [255], 1);
    assert Capacity(8) > 2 && Capacity(4) > 0;
    HistoryOrder(History(Lock, short, 1, 0, 0, true), History(Lock, short, 2, 0, 0, true));
    forall block | 1 <= block <= 2
      ensures Less(EntryOf(codeHash, hashType, [], block), EntryOf(codeHash, hashType, [255], 1))
    {
      LongerComesLast(p, block, Big(0, 4) + Big(0, 4) + [Flag(true)],
          Big(1, 8) + (Big(0, 4) + Big(0, 4) + [Flag(true)]));
      assert [] + (Big(block, 8) + (Big(0, 4) + Big(0, 4) + [Flag(true)]))
        == Big(block, 8) + (Big(0, 4) + Big(0, 4) + [Flag(true)]);
    }
  }

  lemma LongerComesLast(p: Bytes, block: nat, x: Bytes, y: Bytes)
    requires block < 256
    ensures Less(p + (Big(block, 8) + x), p + ([255] + y))
  {
    FirstByteIsZero(block);
    LessAfterPrefix(p, Big(block, 8) + x, [255] + y);
  }

  lemma AllAreTaken(q: Query)
    requires q.Valid() && q.order.Asc? && AllStartWith(q.keys, q.prefix)
    ensures Prefixed(q, None) == q.keys
  {
    if q.keys != [] {
      PrefixIsLeast(q.prefix, q.keys[0]);
    }
    AllWithPrefix(q.keys, q.prefix);
  }

  lemma {:induction false} AllWithPrefix(s: seq<Bytes>, prefix: Bytes)
    requires AllStartWith(s, prefix)
    ensures TakePrefix(s, prefix) == s
  {
    if s != [] {
      AllWithPrefix(s[1..], prefix);
    }
  }

  /**
   A search for a script by prefix also meets the entries of scripts with longer arguments. If one transaction
   has outputs of both, and another one follows for the shorter script, the first transaction can be split.
   */
  lemma SplitExample(codeHash: Hash, hashType: Byte, hashOf: Bytes -> Hash, tx: Hash, other: Hash)
    requires tx != other
    requires hashOf(EntryOf(codeHash, hashType, [], 1)) == tx && hashOf(EntryOf(codeHash, hashType, [255], 1)) == tx
    requires hashOf(EntryOf(codeHash, hashType, [], 2)) == other
    ensures var search := SearchKey(Lock, Script(codeHash, hashType, []));
            CanBeSplit(BuildQuery(search, false, Asc, TwoScripts(codeHash, hashType), _ => true).value, hashOf, tx)
  {
    hide SearchPrefix, Less, CanBeSplit, Prefixed;
    var (search, keys) := (SearchKey(Lock, Script(codeHash, hashType, [])), TwoScripts(codeHash, hashType));
    var q := BuildQuery(search, false, Asc, keys, _ => true).value;
    ScriptsInOrder(codeHash, hashType);
    assert q.keys == keys && q.prefix == SearchPrefix(search, false);
    AllAreTaken(q);
    assert IsKeptOf(keys, q.keep, hashOf, tx, 0) && IsOther(keys, hashOf, tx, 1)
        && IsKeptOf(keys, q.keep, hashOf, tx, 2);
    SplitExactlyIfInterrupted(q, hashOf, tx);
  }
}
