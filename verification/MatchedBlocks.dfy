/**
 Matched blocks: the stored batches, their mirror in memory, the download that drains a batch, and what
 a fork does to them. Handlers are atomic steps over `State`; `Client` carries them out in place.
 */
module MatchedBlocks {
  import opened Options
  import opened Keys
  import opened Chain
  import opened Rollback

  /** A stored record of matched blocks; it covers `count` block numbers from its start on. */
  datatype Batch = Batch(count: nat, blocks: seq<(Hash, bool)>)

  datatype Entry = Entry(proved: bool, block: Option<Block>)

  datatype Tip = Tip(total: nat, number: nat, hash: Hash)

  datatype State = State(
    batches: map<nat, Batch>,
    minFiltered: nat,
    scripts: map<Watch, nat>,
    matched: map<Hash, Entry>,
    tip: Tip,
    lastHeaders: seq<(nat, Hash)>)

  datatype Command = All | Partial | Delete

  datatype Event =
    | SetScripts(command: Command, given: map<Watch, nat>)
    | IgnoredFilters
    | Filters(count: nat, hits: seq<(Hash, bool)>)
    | BlocksProved(hashes: seq<Hash>)
    | SendBlock(block: Block)
    | Recover
    | Restart
    | Commit(newTip: Tip, reorg: seq<(nat, Hash)>, lastN: seq<(nat, Hash)>)
    | Child(newTip: Tip, lastN: seq<(nat, Hash)>)

  // Minimum and maximum of finite sets of numbers

  predicate IsMin(s: set<nat>, n: nat) {
    n in s && forall m :: m in s ==> n <= m
  }

  lemma {:induction false} MinExists(s: set<nat>)
    requires s != {}
    ensures exists n :: IsMin(s, n)
  {
    var x :| x in s;
    if s == {x} {
      assert IsMin(s, x);
    } else {
      MinExists(s - {x});
      var y :| IsMin(s - {x}, y);
      assert forall m :: m in s ==> m == x || m in s - {x};
      assert IsMin(s, if x <= y then x else y);
    }
  }

  function MinOf(s: set<nat>): (n: nat)
    requires s != {}
    ensures IsMin(s, n)
  {
    MinExists(s);
    var n :| n in s && IsMin(s, n);
    n
  }

  predicate IsMax(s: set<nat>, n: nat) {
    n in s && forall m :: m in s ==> m <= n
  }

  lemma {:induction false} MaxExists(s: set<nat>)
    requires s != {}
    ensures exists n :: IsMax(s, n)
  {
    var x :| x in s;
    if s == {x} {
      assert IsMax(s, x);
    } else {
      MaxExists(s - {x});
      var y :| IsMax(s - {x}, y);
      assert forall m :: m in s ==> m == x || m in s - {x};
      assert IsMax(s, if x <= y then y else x);
    }
  }

  function MaxOf(s: set<nat>): (n: nat)
    requires s != {}
    ensures IsMax(s, n)
  {
    MaxExists(s);
    var n :| n in s && IsMax(s, n);
    n
  }

  // The steps as functions

  function HashesOf(blocks: seq<(Hash, bool)>): (hs: set<Hash>)
    ensures blocks != [] ==> hs != {}
  {
    if blocks == [] then {} else HashesOf(blocks[..|blocks| - 1]) + {blocks[|blocks| - 1].0}
  }

  /** A batch as it is loaded into memory: nothing is downloaded yet. */
  function Loaded(blocks: seq<(Hash, bool)>): (m: map<Hash, Entry>)
    ensures m.Keys == HashesOf(blocks)
    ensures forall h :: h in m ==> m[h].block.None?
  {
    if blocks == [] then map[]
    else Loaded(blocks[..|blocks| - 1])[blocks[|blocks| - 1].0 := Entry(blocks[|blocks| - 1].1, None)]
  }

  /** An empty memory is refilled with the earliest stored batch, if there is one. */
  function Reload(s: State): State {
    if s.matched == map[] && s.batches != map[]
    then s.(matched := Loaded(s.batches[MinOf(s.batches.Keys)].blocks))
    else s
  }

  /** Scripts that lag behind `number` are moved up to it. */
  function RaiseScripts(scripts: map<Watch, nat>, number: nat): map<Watch, nat> {
    map w | w in scripts :: if scripts[w] < number then number else scripts[w]
  }

  predicate AllDownloaded(m: map<Hash, Entry>) {
    forall h :: h in m ==> m[h].block.Some?
  }

  function AddBlock(m: map<Hash, Entry>, block: Block): map<Hash, Entry> {
    if block.hash in m && m[block.hash].proved then m[block.hash := Entry(true, Some(block))] else m
  }

  function MarkProved(m: map<Hash, Entry>, hashes: set<Hash>): map<Hash, Entry> {
    map h | h in m :: if h in hashes then m[h].(proved := true) else m[h]
  }

  predicate Drains(s: State, block: Block) {
    var m := AddBlock(s.matched, block);
    m != map[] && AllDownloaded(m)
  }

  function AfterDrain(s: State): State
    requires s.batches != map[] && MinOf(s.batches.Keys) > 0
  {
    var start := MinOf(s.batches.Keys);
    Reload(s.(batches := s.batches - {start},
              matched := map[],
              scripts := RaiseScripts(s.scripts, start + s.batches[start].count - 1)))
  }

  /** The hash stored under a number; of several entries for one number the last counts. */
  function LookUp(headers: seq<(nat, Hash)>, number: nat): Option<Hash> {
    if headers == [] then None
    else if headers[|headers| - 1].0 == number then Some(headers[|headers| - 1].1)
    else LookUp(headers[..|headers| - 1], number)
  }

  /** The last reorg header that is also a stored last header. */
  function ForkNumber(reorg: seq<(nat, Hash)>, stored: seq<(nat, Hash)>): Option<nat> {
    if reorg == [] then None
    else
      var header := reorg[|reorg| - 1];
      if LookUp(stored, header.0) == Some(header.1) then Some(header.0)
      else ForkNumber(reorg[..|reorg| - 1], stored)
  }

  function RollBack(s: State, to: nat): State {
    s.(scripts := ScriptsAfter(s.scripts, to), minFiltered := MinFilteredAfter(s.minFiltered, to))
  }

  function UpToFork(batches: map<nat, Batch>, fork: nat): map<nat, Batch> {
    map n | n in batches && n <= fork :: batches[n]
  }

  /** Where the rollback to a fork starts: behind the start of the last batch that stays, or else behind the fork. */
  function RollbackPoint(batches: map<nat, Batch>, fork: nat): (to: nat)
    ensures 0 < to <= fork + 1
  {
    var kept := UpToFork(batches, fork);
    (if kept == map[] then fork else MaxOf(kept.Keys)) + 1
  }

  /** Back to a fork: no batch above it stays. */
  function BackToFork(s: State, fork: nat): State {
    RollBack(s.(batches := UpToFork(s.batches, fork), matched := map[]), RollbackPoint(s.batches, fork))
  }

  /** The state a heavier proved tip leads to; `None` is a long fork, which changes nothing. */
  function Committed(s: State, newTip: Tip, reorg: seq<(nat, Hash)>, lastN: seq<(nat, Hash)>): Option<State> {
    if newTip.total <= s.tip.total then Some(s)
    else if reorg == [] then
      var s' := if s.tip.number == 1 then RollBack(s.(batches := map[], matched := map[]), 1) else s;
      Some(s'.(tip := newTip, lastHeaders := lastN))
    else
      match ForkNumber(reorg, s.lastHeaders)
      case None => None
      case Some(fork) => Some(BackToFork(s, fork).(tip := newTip, lastHeaders := lastN))
  }

  function AfterSetScripts(s: State, command: Command, given: map<Watch, nat>): State {
    if given == map[] && !command.All? then s.(matched := map[])
    else
      var scripts := match command
        case All => given
        case Partial => s.scripts + given
        case Delete => s.scripts - given.Keys;
      s.(scripts := scripts,
         minFiltered := if scripts == map[] then s.minFiltered else MinOf(scripts.Values),
         batches := map[],
         matched := map[])
  }

  function AfterFilters(s: State, count: nat, hits: seq<(Hash, bool)>): State {
    var start := s.minFiltered + 1;
    var s' :=
      if hits != [] then Reload(s.(batches := s.batches[start := Batch(count, hits)]))
      else if s.matched == map[] then s.(scripts := RaiseScripts(s.scripts, s.minFiltered + count))
      else s;
    s'.(minFiltered := s.minFiltered + count)
  }

  function Next(s: State, e: Event): State
    requires Inv(s)
  {
    match e
    case SetScripts(command, given) => AfterSetScripts(s, command, given)
    case IgnoredFilters => if s.batches == map[] then s.(scripts := RaiseScripts(s.scripts, s.minFiltered)) else s
    case Filters(count, hits) => if hits != [] && count == 0 then s else AfterFilters(s, count, hits)
    case BlocksProved(hashes) => s.(matched := MarkProved(s.matched, set h | h in hashes))
    case SendBlock(block) =>
      if Drains(s, block) then AfterDrain(s) else s.(matched := AddBlock(s.matched, block))
    case Recover => Reload(s)
    case Restart => s.(matched := map[])
    case Commit(newTip, reorg, lastN) =>
      var r := Committed(s, newTip, reorg, lastN);
      if r.Some? then r.value else s
    case Child(newTip, lastN) => if newTip.total > s.tip.total then s.(tip := newTip, lastHeaders := lastN) else s
  }

  // The invariant

  /** Every stored batch is non-empty and starts at a block that has been filtered. */
  ghost predicate BatchesInv(s: State) {
    forall n :: n in s.batches ==> 1 <= n <= s.minFiltered && s.batches[n].blocks != []
  }

  /** Memory is empty or holds exactly the earliest stored batch. */
  ghost predicate Mirrors(s: State) {
    s.matched == map[]
    || (s.batches != map[] && s.matched.Keys == HashesOf(s.batches[MinOf(s.batches.Keys)].blocks))
  }

  /** A downloaded block is proved and stored under its own hash. */
  ghost predicate DownloadsInv(s: State) {
    forall h :: h in s.matched && s.matched[h].block.Some? ==> s.matched[h].proved && s.matched[h].block.value.hash == h
  }

  ghost predicate Inv(s: State) {
    BatchesInv(s) && Mirrors(s) && DownloadsInv(s)
  }

  function Fresh(tip: Tip): (s: State)
    ensures Inv(s)
  {
    State(map[], 0, map[], map[], tip, [])
  }

  lemma ReloadKeepsInv(s: State)
    requires BatchesInv(s) && Mirrors(s) && DownloadsInv(s)
    ensures Inv(Reload(s))
  {
  }

  lemma FiltersKeepInv(s: State, count: nat, hits: seq<(Hash, bool)>)
    requires Inv(s) && (hits != [] ==> count > 0)
    ensures Inv(AfterFilters(s, count, hits))
  {
    var start := s.minFiltered + 1;
    if hits != [] {
      var batches := s.batches[start := Batch(count, hits)];
      if s.batches != map[] {
        assert batches.Keys == s.batches.Keys + {start};
        assert MinOf(batches.Keys) == MinOf(s.batches.Keys);
      } else {
        assert batches.Keys == {start};
      }
    }
  }

  lemma DrainKeepsInv(s: State)
    requires Inv(s) && s.batches != map[]
    ensures MinOf(s.batches.Keys) > 0 && Inv(AfterDrain(s))
  {
    var start := MinOf(s.batches.Keys);
    var rest := s.batches - {start};
    assert forall n :: n in rest ==> n in s.batches && rest[n] == s.batches[n];
  }

  lemma CommitKeepsInv(s: State, newTip: Tip, reorg: seq<(nat, Hash)>, lastN: seq<(nat, Hash)>)
    requires Inv(s)
    ensures var r := Committed(s, newTip, reorg, lastN); r.Some? ==> Inv(r.value)
  {
  }

  lemma NextKeepsInv(s: State, e: Event)
    requires Inv(s)
    ensures Inv(Next(s, e))
  {
    match e
    case Filters(count, hits) =>
      if !(hits != [] && count == 0) {
        FiltersKeepInv(s, count, hits);
      }
    case SendBlock(block) =>
      if Drains(s, block) {
        DrainKeepsInv(s);
      }
    case Commit(newTip, reorg, lastN) =>
      CommitKeepsInv(s, newTip, reorg, lastN);
    case Recover =>
      ReloadKeepsInv(s);
    case BlocksProved(hashes) =>
      var m := MarkProved(s.matched, set h | h in hashes);
      assert m.Keys == s.matched.Keys;
      assert m == map[] <==> s.matched == map[];
    case _ =>
  }

  /** The scripts that are registered after the command. */
  predicate IsRegistered(s: State, command: Command, given: map<Watch, nat>, w: Watch, number: nat) {
    match command
    case All => w in given && given[w] == number
    case Partial => if w in given then given[w] == number else w in s.scripts && s.scripts[w] == number
    case Delete => w in s.scripts && s.scripts[w] == number && w !in given
  }

  /** Filtering starts behind the number of the script that is filtered least far, and of no other one. */
  predicate StartsAtLeast(s: State) {
    && (forall w :: w in s.scripts ==> s.minFiltered <= s.scripts[w])
    && (s.scripts != map[] ==> exists w :: w in s.scripts && s.minFiltered == s.scripts[w])
  }

  /**
   Registering scripts leaves exactly those that the command asks for, and filtering starts over from the least
   of their numbers, so that no block behind a registered number is passed over.
   */
  lemma SetScriptsStartsOver(s: State, command: Command, given: map<Watch, nat>)
    requires Inv(s)
    ensures var s' := Next(s, SetScripts(command, given));
            && s'.matched == map[]
            && (forall w, number :: w in s'.scripts && s'.scripts[w] == number
                                    <==> IsRegistered(s, command, given, w, number))
            && (given != map[] || command.All? ==> s'.batches == map[] && StartsAtLeast(s'))
            && (s'.scripts == map[] || (given == map[] && !command.All?) ==> s'.minFiltered == s.minFiltered)
  {
    var scripts := AfterSetScripts(s, command, given).scripts;
    if scripts != map[] {
      var w :| w in scripts;
      assert scripts[w] in scripts.Values;
    }
    assert forall w :: w in scripts ==> scripts[w] in scripts.Values;
  }

  function Run(s: State, events: seq<Event>): (r: State)
    requires Inv(s)
    ensures Inv(r)
  {
    if events == [] then s
    else
      var before := Run(s, events[..|events| - 1]);
      NextKeepsInv(before, events[|events| - 1]);
      Next(before, events[|events| - 1])
  }

  lemma TipStep(s: State, e: Event)
    requires Inv(s)
    ensures Next(s, e).tip.total >= s.tip.total
  {
  }

  /** Over any run of events the stored tip never loses total difficulty. */
  lemma {:induction false} TipNeverDecreases(s: State, events: seq<Event>)
    requires Inv(s)
    ensures Run(s, events).tip.total >= s.tip.total
  {
    hide Next, Inv;
    if events != [] {
      TipNeverDecreases(s, events[..|events| - 1]);
      TipStep(Run(s, events[..|events| - 1]), events[|events| - 1]);
    }
  }

  /**
   When a block completes the download, a stored batch exists, as many blocks were downloaded as it names
   distinct hashes, and every one of them carries a hash of that batch: nothing the step relies on can fail.
   */
  lemma DrainIsSafe(s: State, block: Block)
    requires Inv(s) && Drains(s, block)
    ensures s.batches != map[]
    ensures var m, hashes := AddBlock(s.matched, block), HashesOf(s.batches[MinOf(s.batches.Keys)].blocks);
            BatchHolds(m, hashes)
  {
    var m := AddBlock(s.matched, block);
    assert m.Keys == s.matched.Keys;
    assert |m| == |m.Keys|;
  }

  // What memory knows of its blocks

  /** The flag stored with a hash; of several entries for one hash the last counts. */
  ghost predicate IsStoredProved(blocks: seq<(Hash, bool)>, h: Hash) {
    exists i :: 0 <= i < |blocks| && IsLastOf(blocks, h, i) && blocks[i].1
  }

  predicate IsLastOf(blocks: seq<(Hash, bool)>, h: Hash, i: nat)
    requires i < |blocks|
  {
    blocks[i].0 == h && forall j :: i < j < |blocks| ==> blocks[j].0 != h
  }

  lemma {:induction false} LoadedFlag(blocks: seq<(Hash, bool)>, h: Hash)
    requires h in Loaded(blocks)
    ensures Loaded(blocks)[h].proved <==> IsStoredProved(blocks, h)
  {
    hide IsStoredProved;
    StoredProvedStep(blocks, h);
    if blocks[|blocks| - 1].0 != h {
      LoadedFlag(blocks[..|blocks| - 1], h);
    }
  }

  lemma StoredProvedStep(blocks: seq<(Hash, bool)>, h: Hash)
    requires blocks != []
    ensures var last := blocks[|blocks| - 1];
            IsStoredProved(blocks, h) <==> if last.0 == h then last.1 else IsStoredProved(blocks[..|blocks| - 1], h)
  {
    var n := |blocks| - 1;
    var init := blocks[..n];
    if blocks[n].0 == h {
      assert IsLastOf(blocks, h, n);
      forall i | 0 <= i < n ensures !IsLastOf(blocks, h, i) {
        assert blocks[n].0 == h;
      }
    } else {
      assert !IsLastOf(blocks, h, n);
      forall i | 0 <= i < n ensures IsLastOf(blocks, h, i) <==> IsLastOf(init, h, i) {
        LastOfInit(blocks, h, i);
      }
    }
  }

  lemma LastOfInit(blocks: seq<(Hash, bool)>, h: Hash, i: nat)
    requires i < |blocks| - 1 && blocks[|blocks| - 1].0 != h
    ensures IsLastOf(blocks, h, i) <==> IsLastOf(blocks[..|blocks| - 1], h, i)
  {
    var init := blocks[..|blocks| - 1];
    assert forall j :: 0 <= j < |init| ==> init[j] == blocks[j];
  }

  /** The step takes the blocks of memory from the earliest stored batch. */
  predicate Reloads(s: State, e: Event) {
    s.matched == map[] || (e.SendBlock? && Drains(s, e.block))
  }

  /**
   A block in memory counts as proved if its batch was stored so, or since a step has proved it; a step proves
   all the blocks that it names, and no step takes that back.
   */
  lemma ProvedIsEarned(s: State, e: Event, h: Hash)
    requires Inv(s) && h in Next(s, e).matched
    ensures var s' := Next(s, e);
            if Reloads(s, e) then
              && s'.batches != map[]
              && (s'.matched[h].proved <==> IsStoredProved(s'.batches[MinOf(s'.batches.Keys)].blocks, h))
            else
              && h in s.matched
              && (s'.matched[h].proved <==> s.matched[h].proved || (e.BlocksProved? && h in e.hashes))
  {
    hide IsStoredProved, Loaded, BatchesInv, HashesOf, IsMin;
    var s' := Next(s, e);
    NextKeepsInv(s, e);
    if s'.batches != map[] && h in Loaded(s'.batches[MinOf(s'.batches.Keys)].blocks) {
      LoadedFlag(s'.batches[MinOf(s'.batches.Keys)].blocks, h);
    }
  }

  predicate Refills(s: State, e: Event) {
    match e
    case Recover => true
    case SendBlock(block) => Drains(s, block)
    case Filters(count, hits) => hits != [] && count > 0
    case _ => false
  }

  /** A step that refills memory leaves it empty only if no batch is stored. */
  lemma RefilledUnlessNothing(s: State, e: Event)
    requires Inv(s) && Refills(s, e)
    ensures Next(s, e).matched == map[] ==> Next(s, e).batches == map[]
  {
    NextKeepsInv(s, e);
  }

  // Forks

  /** A fork takes the filtered number and all script numbers back to it, and drops the batches that start above it. */
  lemma ForkBoundsProgress(s: State, newTip: Tip, reorg: seq<(nat, Hash)>, lastN: seq<(nat, Hash)>)
    requires Inv(s) && newTip.total > s.tip.total && reorg != []
    requires ForkNumber(reorg, s.lastHeaders).Some?
    ensures var fork := ForkNumber(reorg, s.lastHeaders).value;
            var s' := Next(s, Commit(newTip, reorg, lastN));
            && s'.matched == map[]
            && s'.minFiltered <= fork
            && (forall n :: n in s'.batches <==> n in s.batches && n <= fork)
            && (forall n :: n in s'.batches ==> s'.batches[n] == s.batches[n])
            && (forall w :: w in s'.scripts ==> s'.scripts[w] <= fork + 1)
            && s'.scripts.Keys == s.scripts.Keys
            && s'.tip == newTip && s'.lastHeaders == lastN
  {
  }

  /** Without reorg headers a tip that follows block 1 takes all progress back to the start; any other changes none. */
  lemma CommitWithoutReorg(s: State, newTip: Tip, lastN: seq<(nat, Hash)>)
    requires Inv(s)
    ensures var s' := Next(s, Commit(newTip, [], lastN));
            if newTip.total <= s.tip.total then s' == s
            else
              && s'.tip == newTip && s'.lastHeaders == lastN
              && if s.tip.number == 1 then
                   && s'.batches == map[] && s'.matched == map[] && s'.minFiltered == 0
                   && s'.scripts.Keys == s.scripts.Keys
                   && forall w :: w in s.scripts ==> s'.scripts[w] == if s.scripts[w] == 0 then 0 else 1
                 else s' == s.(tip := newTip, lastHeaders := lastN)
  {
  }

  lemma DrainRaises(s: State)
    requires s.batches != map[] && MinOf(s.batches.Keys) > 0
    ensures var start := MinOf(s.batches.Keys);
            AfterDrain(s).scripts == RaiseScripts(s.scripts, start + s.batches[start].count - 1)
  {
  }

  /** A batch that starts up to the fork stays as it is, and may reach above it. */
  predicate ReachesAbove(start: nat, batch: Batch, fork: nat) {
    start + batch.count - 1 > fork
  }

  /**
   After a fork no batch reaches above it exactly if none of those that start up to it does; and the next drain
   leaves every script number at most one above the fork exactly if the earliest of them ends there.
   */
  lemma ForkLeavesNoneAbove(s: State, newTip: Tip, reorg: seq<(nat, Hash)>, lastN: seq<(nat, Hash)>)
    requires Inv(s) && newTip.total > s.tip.total && ForkNumber(reorg, s.lastHeaders).Some?
    ensures var fork, s' := ForkNumber(reorg, s.lastHeaders).value, Next(s, Commit(newTip, reorg, lastN));
            && ((forall n :: n in s'.batches ==> !ReachesAbove(n, s'.batches[n], fork)) <==>
                (forall n :: n in s.batches && n <= fork ==> !ReachesAbove(n, s.batches[n], fork)))
            && (s'.batches != map[] && s'.scripts != map[] ==>
                  && MinOf(s'.batches.Keys) > 0
                  && ((forall w :: w in s'.scripts ==> AfterDrain(s').scripts[w] <= fork + 1) <==>
                      !ReachesAbove(MinOf(s'.batches.Keys), s'.batches[MinOf(s'.batches.Keys)], fork + 1)))
  {
    hide Reload, Mirrors, DownloadsInv, AfterDrain, ReachesAbove;
    var s' := Next(s, Commit(newTip, reorg, lastN));
    ForkBoundsProgress(s, newTip, reorg, lastN);
    if s'.batches != map[] && s'.scripts != map[] {
      DrainRaises(s');
      RaisedExactly(s'.scripts, MinOf(s'.batches.Keys), s'.batches[MinOf(s'.batches.Keys)],
                    ForkNumber(reorg, s.lastHeaders).value + 1);
    }
  }

  lemma RaisedExactly(scripts: map<Watch, nat>, start: nat, batch: Batch, bound: nat)
    requires start > 0 && scripts != map[] && forall w :: w in scripts ==> scripts[w] <= bound
    ensures var r := RaiseScripts(scripts, start + batch.count - 1);
            (forall w :: w in r ==> r[w] <= bound) <==> !ReachesAbove(start, batch, bound)
  {
    var w :| w in scripts;
    assert w in RaiseScripts(scripts, start + batch.count - 1);
  }

  /** One batch, of the blocks 1 to 10, with one block that matched. */
  function OneBatch(w: Watch, minFiltered: nat, h: Hash, tip: Tip, fork: Hash): State {
    State(map[1 := Batch(10, [(h, true)])], minFiltered, map[w := 0], map[], tip, [(3, fork)])
  }

  lemma OneBatchHolds(w: Watch, minFiltered: nat, h: Hash, tip: Tip, fork: Hash)
    requires minFiltered > 0
    ensures var s := OneBatch(w, minFiltered, h, tip, fork);
            && Inv(s) && s.batches.Keys == {1} && MinOf(s.batches.Keys) == 1
            && HashesOf(s.batches[1].blocks) == {h} && Loaded(s.batches[1].blocks) == map[h := Entry(true, None)]
  {
    var blocks := OneBatch(w, minFiltered, h, tip, fork).batches[1].blocks;
    assert blocks[..0] == [];
    assert HashesOf([]) == {} && Loaded([]) == map[];
  }

  lemma OneBatchForks(w: Watch, h: Hash, tip: Tip, newTip: Tip, fork: Hash)
    requires newTip.total > tip.total
    ensures var s := OneBatch(w, 10, h, tip, fork);
            Inv(s) && Next(s, Commit(newTip, [(3, fork)], [(3, fork)])) == OneBatch(w, 1, h, newTip, fork)
  {
    hide HashesOf, Loaded;
    var s := OneBatch(w, 10, h, tip, fork);
    OneBatchHolds(w, 10, h, tip, fork);
    ForkIsFound(fork);
    assert UpToFork(s.batches, 3) == s.batches;
    assert RollbackPoint(s.batches, 3) == 2;
  }

  lemma OneBatchDrains(w: Watch, block: Block, tip: Tip, fork: Hash)
    ensures var s := OneBatch(w, 1, block.hash, tip, fork);
            && Inv(s) && Inv(Next(s, Recover))
            && var drained := Next(Next(s, Recover), SendBlock(block));
               drained.scripts == map[w := 10] && drained.minFiltered == 1
  {
    hide HashesOf, Loaded;
    var s := OneBatch(w, 1, block.hash, tip, fork);
    OneBatchHolds(w, 1, block.hash, tip, fork);
    NextKeepsInv(s, Recover);
    var r := Next(s, Recover);
    assert r == s.(matched := map[block.hash := Entry(true, None)]);
    var downloaded := AddBlock(r.matched, block);
    assert downloaded == map[block.hash := Entry(true, Some(block))] && block.hash in downloaded;
    assert Drains(r, block);
    DrainRaises(r);
    assert RaiseScripts(map[w := 0], 10) == map[w := 10];
  }

  /** The batch survives a fork at block 3, and its drain takes the script to block 10. */
  lemma BatchAboveForkExample(w: Watch, block: Block, tip: Tip, newTip: Tip, fork: Hash)
    requires newTip.total > tip.total
    ensures var s := OneBatch(w, 10, block.hash, tip, fork);
            && Inv(s)
            && var s' := Next(s, Commit(newTip, [(3, fork)], [(3, fork)]));
               && s'.batches == s.batches && s'.minFiltered == 1 && s'.scripts == map[w := 0]
               && Inv(s') && Inv(Next(s', Recover))
               && var drained := Next(Next(s', Recover), SendBlock(block));
                  drained.scripts == map[w := 10] && drained.minFiltered == 1
  {
    hide Inv, Next;
    OneBatchForks(w, block.hash, tip, newTip, fork);
    OneBatchDrains(w, block, newTip, fork);
  }

  lemma ForkIsFound(fork: Hash)
    ensures ForkNumber([(3, fork)], [(3, fork)]) == Some(3)
  {
  }

  // The steps in place

  class Client {
    var batches: map<nat, Batch>
    var minFiltered: nat
    var scripts: map<Watch, nat>
    var matched: map<Hash, Entry>
    var tip: Tip
    var lastHeaders: seq<(nat, Hash)>

    function Snapshot(): State
      reads this
    {
      State(batches, minFiltered, scripts, matched, tip, lastHeaders)
    }

    constructor (tip: Tip)
      ensures Snapshot() == Fresh(tip) && Inv(Snapshot())
    {
      batches, minFiltered, scripts, matched, this.tip, lastHeaders := map[], 0, map[], map[], tip, [];
    }

    /** Puts the blocks of a stored batch into memory, one by one. */
    method LoadBatch(blocks: seq<(Hash, bool)>)
      requires matched == map[]
      modifies this`matched
      ensures matched == Loaded(blocks)
    {
      for i := 0 to |blocks|
        invariant matched == Loaded(blocks[..i])
      {
        assert blocks[..i + 1][..i] == blocks[..i];
        matched := matched[blocks[i].0 := Entry(blocks[i].1, None)];
      }
      assert blocks[..|blocks|] == blocks;
    }

    /** Refills an empty memory with the earliest stored batch. */
    method RefillMemory()
      modifies this`matched
      ensures Snapshot() == Reload(old(Snapshot()))
    {
      if batches != map[] && matched == map[] {
        LoadBatch(batches[MinOf(batches.Keys)].blocks);
      }
    }

    method Recover()
      requires Inv(Snapshot())
      modifies this`matched
      ensures Snapshot() == Next(old(Snapshot()), Event.Recover) && Inv(Snapshot())
    {
      RefillMemory();
      NextKeepsInv(old(Snapshot()), Event.Recover);
    }

    /** Checked block filters: `hits` are the matching blocks among the `count` checked ones. */
    method AcceptFilters(count: nat, hits: seq<(Hash, bool)>)
      requires Inv(Snapshot()) && |hits| <= count
      modifies this
      ensures Snapshot() == Next(old(Snapshot()), Filters(count, hits)) && Inv(Snapshot())
    {
      var start := minFiltered + 1;
      if hits != [] {
        batches := batches[start := Batch(count, hits)];
        RefillMemory();
      } else if matched == map[] {
        scripts := RaiseScripts(scripts, minFiltered + count);
      }
      minFiltered := minFiltered + count;
      NextKeepsInv(old(Snapshot()), Filters(count, hits));
    }

    method ProveBlocks(hashes: seq<Hash>)
      requires Inv(Snapshot())
      modifies this`matched
      ensures Snapshot() == Next(old(Snapshot()), BlocksProved(hashes)) && Inv(Snapshot())
    {
      ghost var before := matched;
      for i := 0 to |hashes|
        invariant matched == MarkProved(before, set h | h in hashes[..i])
      {
        assert hashes[..i + 1] == hashes[..i] + [hashes[i]];
        if hashes[i] in matched {
          matched := matched[hashes[i] := matched[hashes[i]].(proved := true)];
        }
      }
      assert hashes[..|hashes|] == hashes;
      NextKeepsInv(old(Snapshot()), BlocksProved(hashes));
    }

    /** Takes the downloaded blocks out of memory, sorted by number. */
    method TakeBlocks() returns (blocks: seq<Block>)
      requires AllDownloaded(matched)
      modifies this`matched
      ensures matched == map[]
      ensures TakenFrom(old(matched), blocks)
    {
      blocks := [];
      var rest := matched.Keys;
      while rest != {}
        invariant rest <= matched.Keys && matched == old(matched)
        invariant |blocks| + |rest| == |matched.Keys|
        invariant forall b :: b in blocks ==> IsDownload(matched, b)
        invariant forall h :: h in matched && h !in rest ==> matched[h].block.value in blocks
        invariant SortedByNumber(blocks)
        decreases rest
      {
        var h :| h in rest;
        rest := rest - {h};
        assert IsDownload(matched, matched[h].block.value);
        blocks := InsertByNumber(blocks, matched[h].block.value);
      }
      assert |matched| == |matched.Keys|;
      matched := map[];
    }

    /** All blocks of the earliest batch are downloaded: hand them on and load the next batch. */
    method Drain() returns (toFilter: seq<Block>)
      requires batches != map[] && MinOf(batches.Keys) > 0
      requires AllDownloaded(matched) && BatchHolds(matched, HashesOf(batches[MinOf(batches.Keys)].blocks))
      modifies this
      ensures Snapshot() == AfterDrain(old(Snapshot()))
      ensures TakenFrom(old(matched), toFilter)
    {
      hide HashesOf, BatchHolds, TakenFrom, AllDownloaded, RaiseScripts, Reload, IsMin;
      ghost var s, downloaded := Snapshot(), matched;
      var start := MinOf(batches.Keys);
      var count := batches[start].count;
      ghost var dbBlocks := HashesOf(batches[start].blocks);
      batches := batches - {start};
      toFilter := TakeBlocks();
      TakenBelongToBatch(downloaded, toFilter, dbBlocks);
      assert |toFilter| == |dbBlocks|;
      assert forall b :: b in toFilter ==> b.hash in dbBlocks;
      scripts := RaiseScripts(scripts, start + count - 1);
      assert Snapshot() == s.(batches := s.batches - {start}, matched := map[],
                              scripts := RaiseScripts(s.scripts, start + s.batches[start].count - 1));
      RefillMemory();
    }

    method SendBlock(block: Block) returns (toFilter: seq<Block>)
      requires Inv(Snapshot())
      modifies this
      ensures Snapshot() == Next(old(Snapshot()), Event.SendBlock(block)) && Inv(Snapshot())
      ensures if Drains(old(Snapshot()), block) then TakenFrom(AddBlock(old(matched), block), toFilter)
                else toFilter == []
    {
      hide BatchesInv, Mirrors, DownloadsInv, Reload, HashesOf, RaiseScripts;
      toFilter := [];
      ghost var s := Snapshot();
      NextKeepsInv(s, Event.SendBlock(block));
      matched := AddBlock(matched, block);
      if matched != map[] && AllDownloaded(matched) {
        DrainIsSafe(s, block);
        DrainKeepsInv(s);
        assert AfterDrain(Snapshot()) == AfterDrain(s);
        toFilter := Drain();
      }
    }

    method SetScripts(command: Command, given: map<Watch, nat>)
      requires Inv(Snapshot())
      modifies this
      ensures Snapshot() == Next(old(Snapshot()), Event.SetScripts(command, given)) && Inv(Snapshot())
    {
      NextKeepsInv(Snapshot(), Event.SetScripts(command, given));
      if given == map[] && !command.All? {
        matched := map[];
        return;
      }
      match command {
        case All => scripts := given;
        case Partial => scripts := scripts + given;
        case Delete => scripts := scripts - given.Keys;
      }
      if scripts != map[] {
        minFiltered := MinOf(scripts.Values);
      }
      batches := map[];
      matched := map[];
    }

    /** Removes every stored batch, latest first; this ends because no batch starts at block 0. */
    method RemoveAllBatches()
      requires BatchesInv(Snapshot())
      modifies this`batches
      ensures batches == map[]
    {
      while batches != map[]
        invariant BatchesInv(Snapshot())
        decreases |batches|
      {
        var start := MaxOf(batches.Keys);
        if start > 0 {
          RemoveOne(batches, start);
          batches := batches - {start};
        }
      }
    }

    /** Removes the batches that start above the fork, latest first, and tells where the last remaining one starts. */
    method RemoveBatchesAbove(fork: nat) returns (last: nat)
      modifies this`batches
      ensures batches == map n | n in old(batches) && n <= fork :: old(batches)[n]
      ensures last == if batches == map[] then fork else MaxOf(batches.Keys)
    {
      while batches != map[]
        invariant forall n :: n in batches <==> n in old(batches) && (n <= fork || n in batches)
        invariant forall n :: n in old(batches) && n <= fork ==> n in batches
        invariant forall n :: n in batches ==> n in old(batches) && batches[n] == old(batches)[n]
        decreases |batches|
      {
        var start := MaxOf(batches.Keys);
        if start > fork {
          RemoveOne(batches, start);
          batches := batches - {start};
        } else {
          return start;
        }
      }
      return fork;
    }

    /** Commits a proved tip: a heavier one may first take the stored progress back to the fork block. */
    method CommitTip(newTip: Tip, reorg: seq<(nat, Hash)>, lastN: seq<(nat, Hash)>) returns (ok: bool)
      requires Inv(Snapshot())
      modifies this
      ensures ok <==> Committed(old(Snapshot()), newTip, reorg, lastN).Some?
      ensures Snapshot() == Next(old(Snapshot()), Commit(newTip, reorg, lastN)) && Inv(Snapshot())
    {
      hide Mirrors, DownloadsInv, ScriptsAfter, MinFilteredAfter, ForkNumber;
      NextKeepsInv(Snapshot(), Commit(newTip, reorg, lastN));
      if newTip.total <= tip.total {
        return true;
      }
      if reorg == [] {
        if tip.number == 1 {
          RemoveAllBatches();
          scripts := ScriptsAfter(scripts, 1);
          minFiltered := MinFilteredAfter(minFiltered, 1);
          matched := map[];
        }
      } else {
        var fork := FindFork(reorg);
        if fork.None? {
          return false;
        }
        var last := RemoveBatchesAbove(fork.value);
        scripts := ScriptsAfter(scripts, last + 1);
        minFiltered := MinFilteredAfter(minFiltered, last + 1);
        matched := map[];
      }
      tip := newTip;
      lastHeaders := lastN;
      return true;
    }

    /** Looks for the fork from the last reorg header backwards. */
    method FindFork(reorg: seq<(nat, Hash)>) returns (fork: Option<nat>)
      ensures fork == ForkNumber(reorg, lastHeaders)
    {
      var i := |reorg|;
      assert reorg[..i] == reorg;
      while i > 0
        invariant 0 <= i <= |reorg|
        invariant ForkNumber(reorg, lastHeaders) == ForkNumber(reorg[..i], lastHeaders)
      {
        assert reorg[..i][..i - 1] == reorg[..i - 1];
        if LookUp(lastHeaders, reorg[i - 1].0) == Some(reorg[i - 1].1) {
          return Some(reorg[i - 1].0);
        }
        i := i - 1;
      }
      return None;
    }

    method UpdateToChild(newTip: Tip, lastN: seq<(nat, Hash)>)
      requires Inv(Snapshot())
      modifies this
      ensures Snapshot() == Next(old(Snapshot()), Child(newTip, lastN)) && Inv(Snapshot())
    {
      NextKeepsInv(Snapshot(), Child(newTip, lastN));
      if newTip.total > tip.total {
        tip := newTip;
        lastHeaders := lastN;
      }
    }
  }

  predicate SortedByNumber(blocks: seq<Block>) {
    forall i, j :: 0 <= i < j < |blocks| ==> blocks[i].number <= blocks[j].number
  }

  ghost predicate IsDownload(m: map<Hash, Entry>, b: Block) {
    exists h :: h in m && m[h].block == Some(b)
  }

  /** `blocks` are the downloaded blocks of `m`, each once, sorted by number. */
  ghost predicate TakenFrom(m: map<Hash, Entry>, blocks: seq<Block>) {
    && |blocks| == |m|
    && (forall b :: b in blocks ==> IsDownload(m, b))
    && (forall h :: h in m && m[h].block.Some? ==> m[h].block.value in blocks)
    && SortedByNumber(blocks)
  }

  /** Memory holds one download for each hash of a batch, and nothing else. */
  ghost predicate BatchHolds(m: map<Hash, Entry>, hashes: set<Hash>) {
    |m| == |hashes| && forall h :: h in m && m[h].block.Some? ==> m[h].block.value.hash in hashes
  }

  lemma TakenBelongToBatch(m: map<Hash, Entry>, blocks: seq<Block>, hashes: set<Hash>)
    requires TakenFrom(m, blocks) && BatchHolds(m, hashes)
    ensures |blocks| == |hashes| && forall b :: b in blocks ==> b.hash in hashes
  {
    forall b | b in blocks ensures b.hash in hashes {
      var h :| h in m && m[h].block == Some(b);
      assert m[h].block.Some?;
    }
  }

  lemma RemoveOne(m: map<nat, Batch>, k: nat)
    requires k in m
    ensures |m - {k}| == |m| - 1
  {
    assert (m - {k}).Keys == m.Keys - {k};
    assert |m - {k}| == |(m - {k}).Keys| && |m| == |m.Keys|;
  }

  method InsertByNumber(blocks: seq<Block>, block: Block) returns (r: seq<Block>)
    requires forall i, j :: 0 <= i < j < |blocks| ==> blocks[i].number <= blocks[j].number
    ensures |r| == |blocks| + 1
    ensures forall b :: b in r <==> b in blocks || b == block
    ensures forall i, j :: 0 <= i < j < |r| ==> r[i].number <= r[j].number
  {
    var k := |blocks|;
    while k > 0 && blocks[k - 1].number > block.number
      invariant 0 <= k <= |blocks|
      invariant forall i :: k <= i < |blocks| ==> blocks[i].number > block.number
    {
      k := k - 1;
    }
    r := blocks[..k] + [block] + blocks[k..];
  }
}
