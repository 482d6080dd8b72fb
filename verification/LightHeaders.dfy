/**
 Headers as the light-client protocol checks them: the link between a parent and its child, and the
 chain root that a header carries about all blocks before it. Primitives that lie outside the protocol
 (proof of work, hashing, the proof of a header's position) are parameters.
 */
module LightHeaders {
  import opened Options
  import opened Bytes
  import opened Keys
  import opened Arithmetic
  import opened TotalDifficulty

  datatype Header = Header(number: nat, hash: Hash, parent: Hash, epoch: Epoch, target: nat, extra: Hash)

  /** What a header says about the chain up to its parent. */
  datatype ChainRoot = ChainRoot(total: nat, digest: Hash)

  datatype Verifiable = Verifiable(header: Header, uncles: Hash, extension: Option<Bytes>, root: ChainRoot)

  datatype Rules = Rules(
    // Chain roots exist from the second block of this epoch on.
    activated: nat,
    emptyRoot: ChainRoot,
    rootHash: ChainRoot -> Hash,
    dataHash: Bytes -> Hash,
    extraHash: (Hash, Option<Hash>) -> Hash,
    nonceIsValid: Header -> bool,
    follows: (Epoch, Epoch) -> bool,
    difficultyOf: nat -> nat,
    proves: (ChainRoot, seq<Hash>, seq<Header>) -> bool)

  function TotalOf(c: Rules, v: Verifiable): nat {
    v.root.total + c.difficultyOf(v.header.target)
  }

  function PointOf(c: Rules, v: Verifiable): Point {
    Point(v.header.epoch, c.difficultyOf(v.header.target), TotalOf(c, v))
  }

  predicate HasRoot(c: Rules, epoch: Epoch) {
    epoch.number > c.activated || (epoch.number == c.activated && epoch.index > 0)
  }

  predicate IsValid(c: Rules, v: Verifiable) {
    && (HasRoot(c, v.header.epoch) ==>
          if v.header.number == 0 then v.root == c.emptyRoot
          else v.extension.Some? && c.rootHash(v.root) <= v.extension.value)
    && v.header.extra == c.extraHash(v.uncles, if v.extension.Some? then Some(c.dataHash(v.extension.value)) else None)
  }

  /** The comparison of last states: of the chain root it looks at the total difficulty alone. */
  predicate Same(c: Rules, v: Verifiable, w: Verifiable) {
    && v.header == w.header && v.uncles == w.uncles && v.extension == w.extension
    && TotalOf(c, v) == TotalOf(c, w)
  }

  ghost predicate RootHashInjective(c: Rules) {
    forall r: ChainRoot, s: ChainRoot :: c.rootHash(r) == c.rootHash(s) ==> r == s
  }

  /** All valid headers that count as the same carry the same chain root. */
  ghost predicate RootIsDetermined(c: Rules, v: Verifiable) {
    forall w: Verifiable :: IsValid(c, w) && Same(c, v, w) ==> w.root == v.root
  }

  lemma SamePrefix(a: Hash, b: Hash, data: Bytes)
    requires a <= data && b <= data
    ensures a == b
  {
    assert a == data[..32] == b;
  }

  lemma SameRoot(c: Rules, v: Verifiable, w: Verifiable)
    requires RootHashInjective(c) && IsValid(c, v) && IsValid(c, w) && Same(c, v, w) && HasRoot(c, v.header.epoch)
    ensures v.root == w.root
  {
    if v.header.number != 0 {
      SamePrefix(c.rootHash(v.root), c.rootHash(w.root), v.extension.value);
    }
  }

  /**
   Headers that count as the same share the whole chain root from the activation of chain roots on, and only
   from there.
   */
  lemma RootDeterminedIffActive(c: Rules, v: Verifiable)
    requires RootHashInjective(c) && IsValid(c, v)
    ensures RootIsDetermined(c, v) <==> HasRoot(c, v.header.epoch)
  {
    if HasRoot(c, v.header.epoch) {
      forall w: Verifiable | IsValid(c, w) && Same(c, v, w) ensures w.root == v.root {
        SameRoot(c, v, w);
      }
    } else {
      var one, other: Hash := seq(32, _ => 1), seq(32, _ => 2);
      assert one[0] != other[0];
      var digest := if v.root.digest == one then other else one;
      var w := v.(root := v.root.(digest := digest));
      assert IsValid(c, w) && Same(c, v, w);
    }
  }

  /** Distinct inputs have distinct hashes. */
  ghost predicate HashesInjective(c: Rules) {
    && RootHashInjective(c)
    && (forall a: Bytes, b: Bytes :: c.dataHash(a) == c.dataHash(b) ==> a == b)
    && (forall u: Hash, v: Hash, d: Option<Hash>, e: Option<Hash> ::
          c.extraHash(u, d) == c.extraHash(v, e) ==> u == v && d == e)
  }

  /** A header commits to its uncles, its extension and, once chain roots exist, to the whole chain before it. */
  lemma HeaderDeterminesRoot(c: Rules, v: Verifiable, w: Verifiable)
    requires HashesInjective(c) && IsValid(c, v) && IsValid(c, w) && v.header == w.header
    ensures v.uncles == w.uncles && v.extension == w.extension
    ensures HasRoot(c, v.header.epoch) ==> v == w
  {
    assert c.extraHash(v.uncles, if v.extension.Some? then Some(c.dataHash(v.extension.value)) else None)
        == c.extraHash(w.uncles, if w.extension.Some? then Some(c.dataHash(w.extension.value)) else None);
    if HasRoot(c, v.header.epoch) && v.header.number != 0 {
      SamePrefix(c.rootHash(v.root), c.rootHash(w.root), v.extension.value);
    }
  }

  /** Chain roots exist later than at the first block of the activation epoch; epochs are compared as fractions. */
  lemma HasRootIsLater(c: Rules, epoch: Epoch)
    requires epoch.index < epoch.length
    ensures HasRoot(c, epoch) <==> Times(epoch.number, epoch.length) + epoch.index > Times(c.activated, epoch.length)
  {
    TimesNext(epoch.number, epoch.length);
    if epoch.number < c.activated {
      TimesMonotone(epoch.number + 1, c.activated, epoch.length);
    } else if epoch.number > c.activated {
      TimesStrict(c.activated, epoch.number, epoch.length);
    }
  }

  // Parents and children

  predicate IsParentOf(c: Rules, parent: Header, child: Header) {
    && parent.number + 1 == child.number
    && (parent.number == 0 || c.follows(parent.epoch, child.epoch))
    && parent.hash == child.parent
  }

  ghost predicate Linked(c: Rules, headers: seq<Header>) {
    forall i :: 0 < i < |headers| ==> IsParentOf(c, headers[i - 1], headers[i])
  }

  method CheckContinuous(c: Rules, headers: seq<Header>) returns (ok: bool)
    ensures ok <==> Linked(c, headers)
  {
    var i := 1;
    while i < |headers|
      invariant 1 <= i && forall j :: 0 < j < i && j < |headers| ==> IsParentOf(c, headers[j - 1], headers[j])
    {
      if !IsParentOf(c, headers[i - 1], headers[i]) {
        return false;
      }
      i := i + 1;
    }
    return true;
  }

  lemma LinkedSlice(c: Rules, headers: seq<Header>, lo: nat, hi: nat)
    requires lo <= hi <= |headers| && Linked(c, headers)
    ensures Linked(c, headers[lo..hi])
  {
    forall i | 0 < i < hi - lo ensures IsParentOf(c, headers[lo..hi][i - 1], headers[lo..hi][i]) {
      assert IsParentOf(c, headers[lo + i - 1], headers[lo + i]);
    }
  }

  lemma LinkedJoin(c: Rules, a: seq<Header>, b: seq<Header>)
    requires Linked(c, a) && Linked(c, b)
    requires a != [] && b != [] ==> IsParentOf(c, a[|a| - 1], b[0])
    ensures Linked(c, a + b)
  {
    forall i | 0 < i < |a + b| ensures IsParentOf(c, (a + b)[i - 1], (a + b)[i]) {
      if i < |a| {
        assert IsParentOf(c, a[i - 1], a[i]);
      } else if i > |a| {
        assert IsParentOf(c, b[i - |a| - 1], b[i - |a|]);
      }
    }
  }

  lemma {:induction false} NumbersFollow(c: Rules, hs: seq<Header>, i: nat, j: nat)
    requires Linked(c, hs) && i <= j < |hs|
    ensures hs[j].number == hs[i].number + (j - i)
    decreases j - i
  {
    if i < j {
      NumbersFollow(c, hs, i, j - 1);
      assert IsParentOf(c, hs[j - 1], hs[j]);
    }
  }

  /** Numbers and hashes, as they are stored. */
  function Numbered(hs: seq<Header>): (r: seq<(nat, Hash)>)
    ensures |r| == |hs| && forall i :: 0 <= i < |hs| ==> r[i] == (hs[i].number, hs[i].hash)
  {
    seq(|hs|, i requires 0 <= i < |hs| => (hs[i].number, hs[i].hash))
  }
}
