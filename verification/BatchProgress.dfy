/**
 What the numbers of matched-block synchronisation promise: no hit of a checked filter is lost, and a script's
 number is passed on only over blocks whose hits have been filtered.
 */
module BatchProgress {
  import opened Options
  import opened Keys
  import opened Chain
  import opened Rollback
  import opened MatchedBlocks

  // No hit is lost

  /** The blocks that wait in stored batches. */
  function StoredHits(batches: map<nat, Batch>): set<Hash> {
    set n, h | n in batches && h in HashesOf(batches[n].blocks) :: h
  }

  /** The blocks that the step finds to match. */
  function FoundBy(e: Event): set<Hash> {
    match e
    case Filters(count, hits) => if count > 0 then HashesOf(hits) else {}
    case _ => {}
  }

  /** The blocks that the step hands on to filtering. */
  function DrainedBy(s: State, e: Event): set<Hash>
    requires Inv(s)
  {
    if e.SendBlock? && Drains(s, e.block) then
      DrainIsSafe(s, e.block);
      HashesOf(s.batches[MinOf(s.batches.Keys)].blocks)
    else {}
  }

  /** The step throws batches away: scripts are registered, or a fork is committed. */
  predicate Restarts(s: State, e: Event) {
    match e
    case SetScripts(command, given) => given != map[] || command.All?
    case Commit(_, _, _) => true
    case _ => false
  }

  lemma StoredHitsJoin(batches: map<nat, Batch>, n: nat, batch: Batch)
    requires n !in batches
    ensures StoredHits(batches[n := batch]) == StoredHits(batches) + HashesOf(batch.blocks)
    ensures StoredHits(batches[n := batch] - {n}) == StoredHits(batches)
  {
    var more := batches[n := batch];
    assert more - {n} == batches;
    forall h | h in StoredHits(batches) + HashesOf(batch.blocks) ensures h in StoredHits(more) {
      if h in HashesOf(batch.blocks) {
        assert h in HashesOf(more[n].blocks);
      } else {
        var m :| m in batches && h in HashesOf(batches[m].blocks);
        assert m in more && more[m] == batches[m];
      }
    }
    forall h | h in StoredHits(more) ensures h in StoredHits(batches) + HashesOf(batch.blocks) {
      var m :| m in more && h in HashesOf(more[m].blocks);
      assert m != n ==> m in batches && more[m] == batches[m];
    }
  }

  /** What was stored or is found is stored afterwards or handed on. */
  lemma HitsAreConserved(s: State, e: Event)
    requires Inv(s) && !Restarts(s, e)
    ensures StoredHits(Next(s, e).batches) + DrainedBy(s, e) == StoredHits(s.batches) + FoundBy(e)
  {
    hide HashesOf, Mirrors, DownloadsInv, Reload, StoredHits;
    match e
    case Filters(count, hits) =>
      if hits != [] && count > 0 {
        assert s.minFiltered + 1 !in s.batches;
        StoredHitsJoin(s.batches, s.minFiltered + 1, Batch(count, hits));
        ReloadKeepsStored(s.(batches := s.batches[s.minFiltered + 1 := Batch(count, hits)]));
      }
      NoHits();
    case SendBlock(block) =>
      if Drains(s, block) {
        DrainIsSafe(s, block);
        var start := MinOf(s.batches.Keys);
        assert (s.batches - {start})[start := s.batches[start]] == s.batches;
        StoredHitsJoin(s.batches - {start}, start, s.batches[start]);
        DrainKeepsRest(s);
      }
    case Recover => ReloadKeepsStored(s);
    case _ =>
  }

  lemma NoHits()
    ensures HashesOf([]) == {}
  {
  }

  lemma ReloadKeepsStored(s: State)
    ensures Reload(s) == s.(matched := Reload(s).matched)
  {
  }

  lemma DrainKeepsRest(s: State)
    requires s.batches != map[] && MinOf(s.batches.Keys) > 0
    ensures AfterDrain(s).batches == s.batches - {MinOf(s.batches.Keys)} && AfterDrain(s).minFiltered == s.minFiltered
  {
  }

  ghost predicate NeverRestarts(s: State, events: seq<Event>)
    requires Inv(s)
  {
    forall i :: 0 <= i < |events| ==> !Restarts(Run(s, events[..i]), events[i])
  }

  function FoundIn(events: seq<Event>): set<Hash> {
    if events == [] then {} else FoundIn(events[..|events| - 1]) + FoundBy(events[|events| - 1])
  }

  function DrainedIn(s: State, events: seq<Event>): set<Hash>
    requires Inv(s)
  {
    if events == [] then {}
    else
      DrainedIn(s, events[..|events| - 1]) + DrainedBy(Run(s, events[..|events| - 1]), events[|events| - 1])
  }

  /** Over a run that does not start over, every block that was found to match still waits or was handed on. */
  lemma {:induction false} NothingIsLost(s: State, events: seq<Event>)
    requires Inv(s) && NeverRestarts(s, events)
    ensures StoredHits(Run(s, events).batches) + DrainedIn(s, events) == StoredHits(s.batches) + FoundIn(events)
  {
    hide Inv, Next, Restarts, StoredHits, FoundBy, DrainedBy;
    if events != [] {
      var init, e := events[..|events| - 1], events[|events| - 1];
      forall i | 0 <= i < |init| ensures !Restarts(Run(s, init[..i]), init[i]) {
        assert init[..i] == events[..i];
      }
      NothingIsLost(s, init);
      assert events[..|init|] == init;
      HitsAreConserved(Run(s, init), e);
    }
  }

  // Numbers do not run ahead

  /** The script's number does not go beyond the one it was registered with. */
  predicate IsAsGiven(scripts: map<Watch, nat>, given: map<Watch, nat>, w: Watch)
    requires w in scripts
  {
    w in given && scripts[w] <= given[w]
  }

  /** Stored batches cover separate ranges of filtered blocks. */
  ghost predicate AreApart(s: State) {
    && (forall m, n :: m in s.batches && n in s.batches && m < n ==> m + s.batches[m].count <= n)
    && (forall n :: n in s.batches ==> n + s.batches[n].count <= s.minFiltered + 1)
  }

  /** Beyond what it was given, a script's number covers no unfiltered block and no batch that still waits. */
  ghost predicate CoversFiltered(s: State, given: map<Watch, nat>) {
    forall w :: w in s.scripts && !IsAsGiven(s.scripts, given, w) ==>
      s.scripts[w] <= s.minFiltered && forall n :: n in s.batches ==> s.scripts[w] < n
  }

  ghost predicate Honest(s: State, given: map<Watch, nat>) {
    AreApart(s) && CoversFiltered(s, given)
  }

  /** Where registering scripts starts over, numbers are as given and nothing waits. */
  lemma RegisteringIsHonest(s: State, command: Command, given: map<Watch, nat>)
    requires Inv(s) && Restarts(s, SetScripts(command, given))
    ensures var s' := Next(s, SetScripts(command, given)); Honest(s', s'.scripts)
  {
  }

  /**
   Numbers are raised although batches wait, because memory was emptied by a restart or a fork and not refilled
   yet.
   */
  predicate SkipsWaiting(s: State, e: Event, given: map<Watch, nat>) {
    && e.Filters? && e.hits == [] && s.matched == map[] && s.batches != map[]
    && exists w :: w in s.scripts && s.scripts[w] < s.minFiltered + e.count
                   && !(w in given && s.minFiltered + e.count <= given[w])
  }

  lemma OthersStayHonest(s: State, e: Event, given: map<Watch, nat>)
    requires Inv(s) && Honest(s, given) && !Restarts(s, e)
    ensures Honest(Next(s, e), given) <==> !SkipsWaiting(s, e, given)
  {
    hide Honest, Inv, Next, SkipsWaiting;
    match e
    case Filters(count, hits) => FiltersStayHonest(s, count, hits, given);
    case SendBlock(block) => DrainsStayHonest(s, block, given);
    case _ => RestStaysHonest(s, e, given);
  }

  lemma DrainsStayHonest(s: State, block: Block, given: map<Watch, nat>)
    requires Inv(s) && Honest(s, given)
    ensures Honest(Next(s, SendBlock(block)), given) && !SkipsWaiting(s, SendBlock(block), given)
  {
    hide HashesOf, Mirrors, DownloadsInv, Reload, AfterDrain, Honest;
    if Drains(s, block) {
      DrainIsSafe(s, block);
      DrainRaises(s);
      DrainKeepsRest(s);
      DrainedIsHonest(s, AfterDrain(s), given);
    } else {
      MemoryIsAside(s, AddBlock(s.matched, block), given);
    }
  }

  lemma MemoryIsAside(s: State, matched: map<Hash, Entry>, given: map<Watch, nat>)
    ensures Honest(s.(matched := matched), given) <==> Honest(s, given)
  {
    var s' := s.(matched := matched);
    assert AreApart(s') <==> AreApart(s);
    assert CoversFiltered(s', given) <==> CoversFiltered(s, given);
  }

  lemma DrainedIsHonest(s: State, s': State, given: map<Watch, nat>)
    requires BatchesInv(s) && Honest(s, given) && s.batches != map[]
    requires var start := MinOf(s.batches.Keys);
             && s'.batches == s.batches - {start} && s'.minFiltered == s.minFiltered && start > 0
             && s'.scripts == RaiseScripts(s.scripts, start + s.batches[start].count - 1)
    ensures Honest(s', given)
  {
    var start := MinOf(s.batches.Keys);
    forall n | n in s'.batches ensures n in s.batches && s'.batches[n] == s.batches[n] && start < n {
    }
    forall w | w in s'.scripts && !IsAsGiven(s'.scripts, given, w)
      ensures s'.scripts[w] <= s'.minFiltered && forall n :: n in s'.batches ==> s'.scripts[w] < n
    {
      assert w in s.scripts;
      assert s'.scripts[w] == s.scripts[w] ==> !IsAsGiven(s.scripts, given, w);
    }
  }

  lemma RestStaysHonest(s: State, e: Event, given: map<Watch, nat>)
    requires Inv(s) && Honest(s, given) && !Restarts(s, e) && !e.Filters? && !e.SendBlock?
    ensures Honest(Next(s, e), given) && !SkipsWaiting(s, e, given)
  {
    hide HashesOf, Mirrors, DownloadsInv, Reload;
    ReloadKeepsStored(s);
  }

  lemma FiltersStayHonest(s: State, count: nat, hits: seq<(Hash, bool)>, given: map<Watch, nat>)
    requires Inv(s) && Honest(s, given)
    ensures Honest(Next(s, Filters(count, hits)), given) <==> !SkipsWaiting(s, Filters(count, hits), given)
  {
    hide HashesOf, Mirrors, DownloadsInv, Reload, Honest, Next, SkipsWaiting;
    if hits != [] {
      HitsStayHonest(s, count, hits, given);
    } else if s.matched == map[] {
      RaisingStaysHonest(s, count, given);
    } else {
      WaitingStaysHonest(s, count, given);
    }
  }

  lemma HitsStayHonest(s: State, count: nat, hits: seq<(Hash, bool)>, given: map<Watch, nat>)
    requires Inv(s) && Honest(s, given) && hits != []
    ensures Honest(Next(s, Filters(count, hits)), given) && !SkipsWaiting(s, Filters(count, hits), given)
  {
    hide HashesOf, Mirrors, DownloadsInv, Reload;
    var s' := s.(batches := s.batches[s.minFiltered + 1 := Batch(count, hits)]);
    ReloadKeepsStored(s');
  }

  lemma WaitingStaysHonest(s: State, count: nat, given: map<Watch, nat>)
    requires Inv(s) && Honest(s, given) && s.matched != map[]
    ensures Honest(Next(s, Filters(count, [])), given) && !SkipsWaiting(s, Filters(count, []), given)
  {
    hide Mirrors, DownloadsInv;
  }

  lemma RaisingStaysHonest(s: State, count: nat, given: map<Watch, nat>)
    requires Inv(s) && Honest(s, given) && s.matched == map[]
    ensures Honest(Next(s, Filters(count, [])), given) <==> !SkipsWaiting(s, Filters(count, []), given)
  {
    hide HashesOf, Mirrors, DownloadsInv, Reload;
    var s' := Next(s, Filters(count, []));
    var number := s.minFiltered + count;
    assert s' == s.(scripts := RaiseScripts(s.scripts, number), minFiltered := number);
    if SkipsWaiting(s, Filters(count, []), given) {
      var w :| w in s.scripts && s.scripts[w] < number && !(w in given && number <= given[w]);
      var n :| n in s.batches;
      assert s'.scripts[w] == number >= n && n in s'.batches;
      assert !IsAsGiven(s'.scripts, given, w);
    } else {
      forall w | w in s'.scripts && !IsAsGiven(s'.scripts, given, w)
        ensures s'.scripts[w] <= s'.minFiltered && forall n :: n in s'.batches ==> s'.scripts[w] < n
      {
        assert w in s.scripts;
        assert s.scripts[w] >= number ==> s'.scripts[w] == s.scripts[w];
      }
    }
  }

  // Forks

  /** What the rollback of a fork leaves is honest unless it overstates a number, or a batch that stays reaches on. */
  ghost predicate ForkOverstates(s: State, to: nat, batches: map<nat, Batch>, given: map<Watch, nat>) {
    || (exists w :: w in s.scripts && s.scripts[w] >= to && !(w in given && to <= given[w]))
    || (exists n :: n in batches && n + batches[n].count > MinFilteredAfter(s.minFiltered, to) + 1)
  }

  /**
   A rollback sets the numbers of scripts to the first block that it removes, but the filtered number below it:
   numbers stay honest exactly if no script had come so far, and no batch that stays reaches on.
   */
  lemma RollbackIsHonest(s: State, to: nat, batches: map<nat, Batch>, given: map<Watch, nat>)
    requires Inv(s) && Honest(s, given) && to > 0
    requires forall n :: n in batches ==> n in s.batches && batches[n] == s.batches[n] && n < to
    ensures Honest(RollBack(s.(batches := batches, matched := map[]), to), given)
       <==> !ForkOverstates(s, to, batches, given)
  {
    hide Mirrors, DownloadsInv;
    var s' := RollBack(s.(batches := batches, matched := map[]), to);
    if w :| w in s.scripts && s.scripts[w] >= to && !(w in given && to <= given[w]) {
      assert s'.scripts[w] == to && !IsAsGiven(s'.scripts, given, w);
      assert s'.scripts[w] > s'.minFiltered;
    } else {
      forall w | w in s'.scripts && !IsAsGiven(s'.scripts, given, w)
        ensures s'.scripts[w] <= s'.minFiltered && forall n :: n in s'.batches ==> s'.scripts[w] < n
      {
        assert w in s.scripts && s'.scripts[w] == s.scripts[w] && !IsAsGiven(s.scripts, given, w);
      }
    }
  }

  /** Committing a fork, as far as numbers and batches go. */
  lemma ForkIsHonest(s: State, newTip: Tip, reorg: seq<(nat, Hash)>, lastN: seq<(nat, Hash)>, given: map<Watch, nat>)
    requires Inv(s) && Honest(s, given) && newTip.total > s.tip.total && ForkNumber(reorg, s.lastHeaders).Some?
    ensures var fork := ForkNumber(reorg, s.lastHeaders).value;
            Honest(Next(s, Commit(newTip, reorg, lastN)), given)
            <==> !ForkOverstates(s, RollbackPoint(s.batches, fork), UpToFork(s.batches, fork), given)
  {
    hide Honest, ForkOverstates, Mirrors, DownloadsInv;
    var fork := ForkNumber(reorg, s.lastHeaders).value;
    var kept := UpToFork(s.batches, fork);
    var back := BackToFork(s, fork);
    RollbackIsHonest(s, RollbackPoint(s.batches, fork), kept, given);
    assert Next(s, Commit(newTip, reorg, lastN)) == back.(tip := newTip, lastHeaders := lastN);
    TipIsAside(back, newTip, lastN, given);
  }

  lemma TipIsAside(s: State, tip: Tip, lastN: seq<(nat, Hash)>, given: map<Watch, nat>)
    ensures Honest(s.(tip := tip, lastHeaders := lastN), given) <==> Honest(s, given)
  {
    assert CoversFiltered(s.(tip := tip, lastHeaders := lastN), given) <==> CoversFiltered(s, given);
  }

  // What a number promises over a run

  ghost predicate NeverSkips(s: State, events: seq<Event>, given: map<Watch, nat>)
    requires Inv(s)
  {
    forall i :: 0 <= i < |events| ==>
      !Restarts(Run(s, events[..i]), events[i]) && !SkipsWaiting(Run(s, events[..i]), events[i], given)
  }

  lemma {:induction false} RunStaysHonest(s: State, events: seq<Event>, given: map<Watch, nat>)
    requires Inv(s) && Honest(s, given) && NeverSkips(s, events, given)
    ensures Honest(Run(s, events), given) && NeverRestarts(s, events)
  {
    hide Inv, Next, Restarts, SkipsWaiting, Honest;
    if events != [] {
      var init, e := events[..|events| - 1], events[|events| - 1];
      forall i | 0 <= i < |init|
        ensures !Restarts(Run(s, init[..i]), init[i]) && !SkipsWaiting(Run(s, init[..i]), init[i], given)
      {
        assert init[..i] == events[..i];
      }
      RunStaysHonest(s, init, given);
      assert events[..|init|] == init;
      OthersStayHonest(Run(s, init), e, given);
    }
  }

  /** The blocks of a batch do not lie below its start. */
  ghost predicate StartsInRange(numberOf: Hash -> nat, s: State) {
    forall n, h :: n in s.batches && h in HashesOf(s.batches[n].blocks) ==> n <= numberOf(h)
  }

  ghost predicate FindsInRange(numberOf: Hash -> nat, s: State, e: Event) {
    forall h :: h in FoundBy(e) ==> s.minFiltered < numberOf(h)
  }

  lemma StepStartsInRange(numberOf: Hash -> nat, s: State, e: Event)
    requires Inv(s) && StartsInRange(numberOf, s) && FindsInRange(numberOf, s, e) && !Restarts(s, e)
    ensures StartsInRange(numberOf, Next(s, e))
  {
    hide HashesOf, Mirrors, DownloadsInv, Reload;
    match e
    case Filters(count, hits) => ReloadKeepsStored(s.(batches := s.batches[s.minFiltered + 1 := Batch(count, hits)]));
    case SendBlock(block) =>
      if Drains(s, block) {
        DrainIsSafe(s, block);
        DrainKeepsRest(s);
      }
    case Recover => ReloadKeepsStored(s);
    case _ =>
  }

  ghost predicate RunInRange(numberOf: Hash -> nat, s: State, events: seq<Event>)
    requires Inv(s)
  {
    forall i :: 0 <= i < |events| ==> FindsInRange(numberOf, Run(s, events[..i]), events[i])
  }

  lemma {:induction false} RunStartsInRange(numberOf: Hash -> nat, s: State, events: seq<Event>)
    requires Inv(s) && StartsInRange(numberOf, s) && RunInRange(numberOf, s, events) && NeverRestarts(s, events)
    ensures StartsInRange(numberOf, Run(s, events))
  {
    hide Inv, Next, Restarts, StartsInRange, FindsInRange;
    if events != [] {
      var init, e := events[..|events| - 1], events[|events| - 1];
      forall i | 0 <= i < |init|
        ensures FindsInRange(numberOf, Run(s, init[..i]), init[i]) && !Restarts(Run(s, init[..i]), init[i])
      {
        assert init[..i] == events[..i];
      }
      RunStartsInRange(numberOf, s, init);
      assert events[..|init|] == init;
      StepStartsInRange(numberOf, Run(s, init), e);
    }
  }

  lemma NothingWaitsBelow(numberOf: Hash -> nat, s: State, given: map<Watch, nat>, w: Watch, h: Hash)
    requires CoversFiltered(s, given) && StartsInRange(numberOf, s)
    requires w in s.scripts && !IsAsGiven(s.scripts, given, w) && numberOf(h) <= s.scripts[w]
    ensures h !in StoredHits(s.batches)
  {
    hide HashesOf;
  }

  /**
   From the registration of scripts on, over any run that skips no waiting batch: where a script's number has been
   raised, all blocks up to it that were found to match have been handed on to filtering.
   */
  lemma NumberIsKept(numberOf: Hash -> nat, s: State, events: seq<Event>, w: Watch, h: Hash)
    requires Inv(s) && s.batches == map[] && NeverSkips(s, events, s.scripts) && RunInRange(numberOf, s, events)
    requires var s' := Run(s, events);
             w in s'.scripts && !IsAsGiven(s'.scripts, s.scripts, w) && numberOf(h) <= s'.scripts[w]
    requires h in FoundIn(events)
    ensures h in DrainedIn(s, events)
  {
    hide Inv, Next, Run, FoundIn, DrainedIn, NeverSkips, RunInRange, NeverRestarts, HashesOf;
    RunStaysHonest(s, events, s.scripts);
    RunStartsInRange(numberOf, s, events);
    NothingIsLost(s, events);
    NothingWaitsBelow(numberOf, Run(s, events), s.scripts, w, h);
  }

  // Examples

  /**
   A script at block 10 is set to 6 by a fork at 5, the filtered number to 5; another registration passes over
   block 6.
   */
  lemma PassedOverExample(w: Watch, other: Watch, tip: Tip, newTip: Tip, fork: Hash)
    requires newTip.total > tip.total && w != other
    ensures var s := State(map[], 10, map[w := 10], map[], tip, [(5, fork)]);
            && Inv(s) && Honest(s, map[w := 0])
            && var s' := Next(s, Commit(newTip, [(5, fork)], [(5, fork)]));
               && s'.scripts == map[w := 6] && s'.minFiltered == 5 && Inv(s')
               && Next(s', SetScripts(Partial, map[other := 8])).scripts == map[w := 6, other := 8]
               && Next(s', SetScripts(Partial, map[other := 8])).minFiltered == 6
  {
    var s := State(map[], 10, map[w := 10], map[], tip, [(5, fork)]);
    assert ForkNumber([(5, fork)], [(5, fork)]) == Some(5);
    assert UpToFork(s.batches, 5) == map[] && RollbackPoint(s.batches, 5) == 6;
    var s' := Next(s, Commit(newTip, [(5, fork)], [(5, fork)]));
    NextKeepsInv(s, Commit(newTip, [(5, fork)], [(5, fork)]));
    assert s'.scripts == map[w := 6] && s'.minFiltered == 5;
    var s'' := Next(s', SetScripts(Partial, map[other := 8]));
    LeastOfTwo(w, other);
    assert other in map[other := 8] && map[other := 8] != map[];
    assert s''.scripts == map[w := 6] + map[other := 8];
  }

  lemma LeastOfTwo(w: Watch, other: Watch)
    requires w != other
    ensures var m := map[w := 6] + map[other := 8]; m != map[] && m == map[w := 6, other := 8] && MinOf(m.Values) == 6
  {
    var m := map[w := 6] + map[other := 8];
    assert m == map[w := 6, other := 8] && m[w] == 6 && m[other] == 8;
    assert 6 in m.Values;
    assert forall x :: x in m.Values ==> x == 6 || x == 8;
  }

  /** After a restart a batch of blocks 1 to 5 waits; filters of three blocks without a hit take the script past it. */
  lemma SkippedBatchExample(w: Watch, tip: Tip, h: Hash)
    ensures var s := State(map[1 := Batch(5, [(h, true)])], 5, map[w := 0], map[], tip, []);
            && Inv(s) && Honest(s, map[w := 0])
            && Next(s, Filters(3, [])).scripts == map[w := 8] && Next(s, Filters(3, [])).batches == s.batches
            && SkipsWaiting(s, Filters(3, []), map[w := 0])
  {
    var s := State(map[1 := Batch(5, [(h, true)])], 5, map[w := 0], map[], tip, []);
    assert w in s.scripts && s.scripts[w] < 8 && 1 in s.batches;
    assert RaiseScripts(s.scripts, 8) == map[w := 8];
  }
}
