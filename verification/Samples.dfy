/**
 Matching the headers of a last-state proof against the request: reorg headers, sampled headers and
 the last n headers, and the sampled headers against the requested difficulties.
 */
module Samples {

  /** A header with the total difficulty up to its parent and up to itself. */
  datatype Header = Header(number: nat, parentTotal: nat, total: nat) {
    predicate Covers(difficulty: nat) {
      parentTotal < difficulty <= total
    }
  }

  datatype Request = Request(startNumber: nat, boundary: nat, difficulties: seq<nat>)

  datatype Failure =
    | HeadersEmpty
    | HeadersUnsorted
    | InvalidReorgHeaders
    | BlocksMissing
    | InvalidSamples

  datatype Response =
    | Matched(reorg: nat, sampled: nat, lastN: nat)
    | Refused(why: Failure)
    // A count of headers falls below zero, which is a panic.
    | Underflow

  predicate SortedByNumber(headers: seq<Header>) {
    forall i, j :: 0 <= i < j < |headers| ==> headers[i].number < headers[j].number
  }

  predicate SortedDifficulties(ds: seq<nat>) {
    forall i, j :: 0 <= i < j < |ds| ==> ds[i] <= ds[j]
  }

  /** The headers' intervals of total difficulty are non-empty and follow one another. */
  ghost predicate OrderedTotals(headers: seq<Header>) {
    && (forall i :: 0 <= i < |headers| ==> headers[i].parentTotal < headers[i].total)
    && (forall i, j :: 0 <= i < j < |headers| ==> headers[i].total <= headers[j].parentTotal)
  }

  ghost predicate Answers(h: Header, difficulties: seq<nat>) {
    exists j :: 0 <= j < |difficulties| && h.Covers(difficulties[j])
  }

  ghost predicate Answered(d: nat, headers: seq<Header>) {
    exists m :: 0 <= m < |headers| && headers[m].Covers(d)
  }

  /** Every sampled header answers a request and every request below the last n headers is answered. */
  ghost predicate Coverage(difficulties: seq<nat>, sampled: seq<Header>, firstLastN: Header) {
    && (forall i :: 0 <= i < |sampled| ==> Answers(sampled[i], difficulties))
    && (forall d :: d in difficulties && d < firstLastN.total ==> firstLastN.Covers(d) || Answered(d, sampled))
  }

  /** How many leading headers satisfy `p`. */
  function CountWhile<T>(s: seq<T>, p: T -> bool): (n: nat)
    ensures n <= |s|
    ensures forall i :: 0 <= i < n ==> p(s[i])
    ensures n < |s| ==> !p(s[n])
  {
    if s == [] || !p(s[0]) then 0 else 1 + CountWhile(s[1..], p)
  }

  /** The reorg headers are those below the start; there are n of them, or they begin at block 1. */
  ghost predicate ReorgShape(n: nat, req: Request, headers: seq<Header>, reorg: nat) {
    && reorg <= |headers|
    && (forall i :: 0 <= i < |headers| ==> (headers[i].number < req.startNumber <==> i < reorg))
    && (reorg > 0 ==> && (reorg == n || headers[0].number == 1)
                      && headers[reorg - 1].number + 1 == req.startNumber)
  }

  /**
   At most n new headers are all last ones; otherwise the last ones are those from the boundary on, but at least
   n.
   */
  ghost predicate CountShape(n: nat, req: Request, headers: seq<Header>, r: Response)
    requires r.Matched?
  {
    && r.reorg + r.sampled + r.lastN == |headers|
    && (|headers| - r.reorg <= n ==> r.sampled == 0)
    && (|headers| - r.reorg > n ==>
          && r.lastN >= n
          && (forall i :: 0 <= i < r.reorg + r.sampled ==> headers[i].total < req.boundary)
          && (r.lastN > n ==> headers[r.reorg + r.sampled].total >= req.boundary))
  }

  /** Without samples the response holds every block from the start up to the last one. */
  ghost predicate NothingMissing(req: Request, headers: seq<Header>, lastNumber: nat, r: Response)
    requires r.Matched? && r.reorg + r.sampled + r.lastN == |headers|
  {
    r.sampled == 0 && r.lastN > 0 ==>
      headers[r.reorg].number == req.startNumber && headers[|headers| - 1].number + 1 == lastNumber
  }

  ghost predicate Shape(n: nat, req: Request, headers: seq<Header>, lastNumber: nat, r: Response)
    requires r.Matched?
  {
    && headers != [] && SortedByNumber(headers)
    && ReorgShape(n, req, headers, r.reorg)
    && CountShape(n, req, headers, r)
    && NothingMissing(req, headers, lastNumber, r)
  }

  lemma ReorgUnique(n: nat, req: Request, headers: seq<Header>, reorg: nat, m: nat)
    requires reorg <= |headers|
    requires forall i :: 0 <= i < |headers| ==> (headers[i].number < req.startNumber <==> i < reorg)
    requires ReorgShape(n, req, headers, m)
    ensures m == reorg
  {
    var i := if m < reorg then m else reorg;
    if i < |headers| {
      assert headers[i].number < req.startNumber <==> i < reorg;
      assert headers[i].number < req.startNumber <==> i < m;
    }
  }

  /** A response can be split in one way only. */
  lemma CountsUnique(n: nat, req: Request, headers: seq<Header>, r: Response, m: Response)
    requires n > 0 && r.Matched? && m.Matched? && r.reorg == m.reorg
    requires CountShape(n, req, headers, r) && CountShape(n, req, headers, m)
    ensures r == m
  {
  }

  predicate Below(requested: seq<nat>, firstLastN: Header, all: seq<nat>) {
    && all <= requested
    && (forall j :: 0 <= j < |all| ==> all[j] < firstLastN.total)
    && (|all| < |requested| ==> requested[|all|] >= firstLastN.total)
  }

  /** The first `p` requests are spent on the first `i` headers, each on one that covers it, and none idle. */
  ghost predicate Spent(all: seq<nat>, p: nat, sampled: seq<Header>, i: nat)
    requires p <= |all| && i <= |sampled|
  {
    && (forall j :: 0 <= j < p ==> Answered(all[j], sampled[..i]))
    && (forall m :: 0 <= m < i ==> Answers(sampled[m], all[..p]))
  }

  lemma SpentStep(all: seq<nat>, p: nat, p': nat, sampled: seq<Header>, i: nat)
    requires p < p' <= |all| && i < |sampled| && Spent(all, p, sampled, i)
    requires forall j :: p <= j < p' ==> sampled[i].Covers(all[j])
    ensures Spent(all, p', sampled, i + 1)
  {
    var hs := sampled[..i + 1];
    forall j | 0 <= j < p' ensures Answered(all[j], hs) {
      if j < p {
        assert Answered(all[j], sampled[..i]);
        var m :| 0 <= m < i && sampled[..i][m].Covers(all[j]);
        assert hs[m].Covers(all[j]);
      } else {
        assert hs[i].Covers(all[j]);
      }
    }
    forall m | 0 <= m < i + 1 ensures Answers(sampled[m], all[..p']) {
      if m < i {
        assert Answers(sampled[m], all[..p]);
        var j :| 0 <= j < p && sampled[m].Covers(all[..p][j]);
        assert sampled[m].Covers(all[..p'][j]);
      } else {
        assert sampled[m].Covers(all[..p'][p]);
      }
    }
  }

  /** A header that covers neither a spent request nor the next one covers none at all. */
  lemma UnmatchedHeader(requested: seq<nat>, all: seq<nat>, sampled: seq<Header>, firstLastN: Header, i: nat, p: nat)
    requires SortedDifficulties(requested) && OrderedTotals(sampled + [firstLastN]) && Below(requested, firstLastN, all)
    requires i < |sampled| && p <= |all| && Spent(all, p, sampled, i)
    requires p < |all| ==> !sampled[i].Covers(all[p])
    requires i > 0 && p < |all| ==> all[p] > sampled[i - 1].total
    ensures !Coverage(requested, sampled, firstLastN)
  {
    var hs := sampled + [firstLastN];
    assert forall m :: 0 <= m < |sampled| ==> hs[m] == sampled[m];
    assert hs[|sampled|] == firstLastN;
    if p < |all| && all[p] <= sampled[i].parentTotal {
      Uncovered(requested, sampled, firstLastN, i, all[p]);
    } else {
      forall j | 0 <= j < |requested| ensures !sampled[i].Covers(requested[j]) {
        if j < p {
          assert all[j] == requested[j];
          assert Answered(all[j], sampled[..i]);
          var m :| 0 <= m < i && sampled[..i][m].Covers(all[j]);
          assert hs[m].total <= hs[i].parentTotal;
        } else if j < |all| {
          assert all[p] == requested[p] <= requested[j];
        } else {
          assert requested[|all|] <= requested[j];
          assert hs[i].total <= hs[|sampled|].parentTotal;
        }
      }
      assert !Answers(sampled[i], requested);
    }
  }

  /** A request between two neighbouring intervals is answered by nobody. */
  lemma Uncovered(requested: seq<nat>, sampled: seq<Header>, firstLastN: Header, i: nat, d: nat)
    requires OrderedTotals(sampled + [firstLastN]) && d in requested
    requires i <= |sampled|
    requires d <= (if i == |sampled| then firstLastN else sampled[i]).parentTotal
    requires i > 0 ==> sampled[i - 1].total < d
    ensures !Coverage(requested, sampled, firstLastN)
  {
    var hs := sampled + [firstLastN];
    assert forall m :: 0 <= m < |sampled| ==> hs[m] == sampled[m];
    assert hs[|sampled|] == firstLastN;
    forall m | 0 <= m < |hs| ensures !hs[m].Covers(d) {
      if m < i {
        assert m < i - 1 ==> hs[m].total <= hs[i - 1].parentTotal < hs[i - 1].total;
      } else if m > i {
        assert hs[i].parentTotal < hs[i].total <= hs[m].parentTotal;
      }
    }
    assert d < firstLastN.total by {
      assert hs[i].parentTotal < hs[i].total;
      assert i < |sampled| ==> hs[i].total <= hs[|sampled|].parentTotal;
    }
    assert forall m :: 0 <= m < |sampled| ==> !sampled[m].Covers(d);
    assert !firstLastN.Covers(d);
  }

  lemma SpentCovers(requested: seq<nat>, all: seq<nat>, sampled: seq<Header>, firstLastN: Header, p: nat)
    requires SortedDifficulties(requested) && Below(requested, firstLastN, all)
    requires p <= |all| && Spent(all, p, sampled, |sampled|)
    requires p < |all| ==> all[p] > firstLastN.parentTotal
    ensures Coverage(requested, sampled, firstLastN)
  {
    forall i | 0 <= i < |sampled| ensures Answers(sampled[i], requested) {
      assert Answers(sampled[i], all[..p]);
      var j :| 0 <= j < p && sampled[i].Covers(all[..p][j]);
      assert sampled[i].Covers(requested[j]);
    }
    forall d | d in requested && d < firstLastN.total ensures firstLastN.Covers(d) || Answered(d, sampled) {
      var j :| 0 <= j < |requested| && requested[j] == d;
      assert j < |all| && all[j] == d;
      if j < p {
        assert Answered(all[j], sampled[..|sampled|]);
        var m :| 0 <= m < |sampled| && sampled[..|sampled|][m].Covers(d);
        assert sampled[m].Covers(d);
      } else {
        assert requested[p] <= requested[j];
      }
    }
  }

  /**
   Matches the sampled headers, in order, with the requested difficulties, in order. Acceptance means
   full coverage, and with ordered intervals a refusal means that coverage fails.
   */
  method MatchSamples(requested: seq<nat>, sampled: seq<Header>, firstLastN: Header) returns (ok: bool)
    ensures SortedDifficulties(requested) && ok ==> Coverage(requested, sampled, firstLastN)
    ensures SortedDifficulties(requested) && OrderedTotals(sampled + [firstLastN]) && !ok ==>
              !Coverage(requested, sampled, firstLastN)
  {
    var difficulties := requested[..CountWhile(requested, (d: nat) => d < firstLastN.total)];
    ghost var all := difficulties;
    assert Below(requested, firstLastN, all);
    ghost var p := 0;
    for i := 0 to |sampled|
      invariant p <= |all| && difficulties == all[p..]
      invariant SortedDifficulties(requested) ==> Spent(all, p, sampled, i)
      invariant i > 0 && p < |all| ==> all[p] > sampled[i - 1].total
    {
      ghost var p0 := p;
      var isValid;
      isValid, difficulties := SpendOn(sampled[i], difficulties);
      p := |all| - |difficulties|;
      assert difficulties == all[p..];
      assert forall j :: p0 <= j < p ==> all[j] == all[p0..][j - p0];
      if !isValid {
        if SortedDifficulties(requested) && OrderedTotals(sampled + [firstLastN]) {
          UnmatchedHeader(requested, all, sampled, firstLastN, i, p);
        }
        return false;
      }
      if SortedDifficulties(requested) {
        SortedSlice(requested, all, p0);
        SpentStep(all, p0, p, sampled, i);
      }
    }
    if difficulties != [] && difficulties[0] <= firstLastN.parentTotal {
      if OrderedTotals(sampled + [firstLastN]) {
        assert requested[p] == all[p];
        Uncovered(requested, sampled, firstLastN, |sampled|, all[p]);
      }
      return false;
    }
    if SortedDifficulties(requested) {
      SpentCovers(requested, all, sampled, firstLastN, p);
    }
    return true;
  }

  lemma SortedSlice(requested: seq<nat>, all: seq<nat>, p: nat)
    requires SortedDifficulties(requested) && all <= requested && p <= |all|
    ensures SortedDifficulties(all[p..])
  {
    forall i, j | 0 <= i < j < |all[p..]| ensures all[p..][i] <= all[p..][j] {
      assert requested[p + i] <= requested[p + j];
    }
  }

  /** Spends the leading difficulties that one header covers; the header is valid if there is one. */
  method SpendOn(header: Header, difficulties: seq<nat>) returns (isValid: bool, rest: seq<nat>)
    ensures |rest| <= |difficulties| && rest == difficulties[|difficulties| - |rest|..]
    ensures isValid <==> |rest| < |difficulties|
    ensures isValid <==> difficulties != [] && header.Covers(difficulties[0])
    ensures isValid && rest != [] ==> rest[0] > header.total
    ensures SortedDifficulties(difficulties) ==>
              forall j :: 0 <= j < |difficulties| - |rest| ==> header.Covers(difficulties[j])
  {
    isValid, rest := false, difficulties;
    while rest != []
      invariant |rest| <= |difficulties| && rest == difficulties[|difficulties| - |rest|..]
      invariant isValid <==> |rest| < |difficulties|
      invariant isValid ==> difficulties != [] && header.Covers(difficulties[0])
      invariant SortedDifficulties(difficulties) ==>
                  forall j :: 0 <= j < |difficulties| - |rest| ==> header.Covers(difficulties[j])
      decreases |rest|
    {
      var diff := rest[0];
      assert diff == difficulties[|difficulties| - |rest|];
      if isValid {
        if diff <= header.total {
          assert SortedDifficulties(difficulties) ==> difficulties[0] <= diff;
          rest := rest[1..];
          continue;
        } else {
          break;
        }
      } else if header.Covers(diff) {
        rest := rest[1..];
        isValid := true;
      } else {
        break;
      }
    }
  }

  /** What the sampled headers of a matched response have to satisfy. */
  ghost predicate SamplesAnswered(req: Request, headers: seq<Header>, r: Response)
    requires r.Matched? && r.reorg + r.sampled + r.lastN == |headers|
  {
    r.sampled > 0 ==> r.lastN > 0 && Coverage(req.difficulties, headers[r.reorg..r.reorg + r.sampled],
        headers[r.reorg + r.sampled])
  }

  /** `m` is the split of an acceptable response. */
  ghost predicate Acceptable(n: nat, req: Request, headers: seq<Header>, lastNumber: nat, m: Response) {
    m.Matched? && Shape(n, req, headers, lastNumber, m) && SamplesAnswered(req, headers, m)
  }

  method CheckSorted(headers: seq<Header>) returns (sorted: bool)
    ensures sorted <==> SortedByNumber(headers)
  {
    var i := 0;
    while i + 1 < |headers|
      invariant 0 <= i && (headers != [] ==> i < |headers|)
      invariant headers != [] ==> SortedByNumber(headers[..i + 1])
    {
      if headers[i].number >= headers[i + 1].number {
        return false;
      }
      i := i + 1;
    }
    assert headers != [] ==> headers[..i + 1] == headers;
    return true;
  }

  /** The boundary lies among the reorg headers, with more than n headers behind them. */
  ghost predicate BoundaryAmongReorg(n: nat, req: Request, headers: seq<Header>, reorg: nat) {
    reorg <= |headers| && |headers| - reorg > n && exists i :: 0 <= i < reorg && headers[i].total >= req.boundary
  }

  /** The count of sampled headers, taken between the reorg headers and the boundary, is negative. */
  ghost predicate CountUnderflows(n: nat, req: Request, headers: seq<Header>) {
    && headers != [] && SortedByNumber(headers)
    && exists reorg :: ReorgShape(n, req, headers, reorg) && BoundaryAmongReorg(n, req, headers, reorg)
  }

  /**
   Block 1 is a reorg header with the total of the boundary, and two headers follow where the last one is asked
   for.
   */
  lemma CountUnderflowsExample()
    ensures CountUnderflows(1, Request(2, 10, []), [Header(1, 0, 10), Header(2, 10, 11), Header(3, 11, 12)])
  {
    var headers := [Header(1, 0, 10), Header(2, 10, 11), Header(3, 11, 12)];
    assert headers[0].total >= 10;
    assert ReorgShape(1, Request(2, 10, []), headers, 1);
    assert BoundaryAmongReorg(1, Request(2, 10, []), headers, 1);
  }

  /** Splits the headers behind the reorg ones. */
  method SplitCounts(n: nat, req: Request, headers: seq<Header>, reorg: nat) returns (r: Response)
    requires n > 0 && reorg <= |headers|
    ensures !r.Refused?
    ensures r.Matched? ==> r.reorg == reorg && CountShape(n, req, headers, r)
    ensures r.Underflow? <==> BoundaryAmongReorg(n, req, headers, reorg)
    ensures r.Underflow? ==> forall m: Response :: m.Matched? && m.reorg == reorg ==> !CountShape(n, req, headers, m)
  {
    if |headers| - reorg <= n {
      return Matched(reorg, 0, |headers| - reorg);
    }
    var before := CountWhile(headers, (h: Header) => h.total < req.boundary);
    var lastN := |headers| - before;
    if lastN <= n {
      return Matched(reorg, |headers| - reorg - n, n);
    }
    if before < reorg {
      assert headers[before].total >= req.boundary;
      return Underflow;
    }
    return Matched(reorg, before - reorg, lastN);
  }

  /**
   A matched response has its unique split and, for sorted requests, full sample coverage. Conversely a
   response whose intervals are ordered is refused only if no acceptable split exists. A boundary among the
   reorg headers, and nothing else, makes the count of samples underflow.
   */
  method CheckIfResponseIsMatched(n: nat, req: Request, headers: seq<Header>, lastNumber: nat) returns (r: Response)
    requires n > 0
    ensures r.Matched? ==> Shape(n, req, headers, lastNumber, r)
    ensures r.Matched? && SortedDifficulties(req.difficulties) ==> SamplesAnswered(req, headers, r)
    ensures r.Refused? && SortedDifficulties(req.difficulties) && OrderedTotals(headers) ==>
              forall m: Response :: !Acceptable(n, req, headers, lastNumber, m)
    ensures r.Underflow? <==> CountUnderflows(n, req, headers)
  {
    hide Coverage, CountShape, ReorgShape, BoundaryAmongReorg;
    if headers == [] {
      return Refused(HeadersEmpty);
    }
    var sorted := CheckSorted(headers);
    if !sorted {
      return Refused(HeadersUnsorted);
    }
    var reorg, reorgOk := CheckReorg(n, req, headers);
    if !reorgOk {
      return Refused(InvalidReorgHeaders);
    }
    r := SplitCounts(n, req, headers, reorg);
    if r.Underflow? {
      return;
    }
    assert r.reorg + r.sampled + r.lastN == |headers| && (r.sampled > 0 ==> r.lastN > 0) by {
      CountsAddUp(n, req, headers, r);
    }
    forall m: Response | m.Matched? && Shape(n, req, headers, lastNumber, m) ensures m == r {
      CountsUnique(n, req, headers, r, m);
    }
    if r.sampled == 0 {
      if r.lastN > 0 && (headers[reorg].number != req.startNumber || headers[|headers| - 1].number + 1 != lastNumber) {
        return Refused(BlocksMissing);
      }
    } else {
      var samples, firstLastN := headers[reorg..reorg + r.sampled], headers[reorg + r.sampled];
      var ok := MatchSamples(req.difficulties, samples, firstLastN);
      if !ok {
        OrderedSlice(headers, reorg, r.sampled);
        return Refused(InvalidSamples);
      }
    }
  }

  lemma CountsAddUp(n: nat, req: Request, headers: seq<Header>, r: Response)
    requires n > 0 && r.Matched? && CountShape(n, req, headers, r)
    ensures r.reorg + r.sampled + r.lastN == |headers| && (r.sampled > 0 ==> r.lastN > 0)
  {
  }

  lemma OrderedSlice(headers: seq<Header>, from: nat, count: nat)
    requires from + count < |headers|
    ensures OrderedTotals(headers) ==> OrderedTotals(headers[from..from + count] + [headers[from + count]])
  {
    assert headers[from..from + count] + [headers[from + count]] == headers[from..from + count + 1];
  }

  /** Counts the headers below the start and checks that they are the right ones. */
  method CheckReorg(n: nat, req: Request, headers: seq<Header>) returns (reorg: nat, ok: bool)
    requires headers != [] && SortedByNumber(headers)
    ensures reorg <= |headers|
    ensures ok ==> ReorgShape(n, req, headers, reorg)
    ensures forall m: nat :: ReorgShape(n, req, headers, m) ==> ok && m == reorg
  {
    reorg := CountWhile(headers, (h: Header) => h.number < req.startNumber);
    forall m: nat | ReorgShape(n, req, headers, m) ensures m == reorg {
      ReorgUnique(n, req, headers, reorg, m);
    }
    if reorg != 0 {
      if reorg != n && headers[0].number != 1 {
        return reorg, false;
      }
      if headers[reorg - 1].number != req.startNumber - 1 {
        return reorg, false;
      }
    }
    return reorg, true;
  }
}
