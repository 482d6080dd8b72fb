/**
 A peer's proof of its last state: the checks it has to pass, in the order they are made, and the
 list of last headers that a proved state keeps for the detection of later forks.
 */
module LastStateProof {
  import opened Arithmetic
  import opened Options
  import opened Keys
  import opened EpochDifficulty
  import opened TotalDifficulty
  import opened LightHeaders
  import Samples

  const TAU: nat := 2

  datatype ProveRequest = ProveRequest(last: Verifiable, content: Samples.Request, skipTau: bool, longFork: bool)

  datatype ProveState = ProveState(last: Verifiable, reorg: seq<Header>, lastHeaders: seq<Header>)

  datatype Message = Message(last: Verifiable, headers: seq<Verifiable>, proof: seq<Hash>)

  /** `Crash` stands for the panics: failing checked arithmetic, a slice beyond its end, a confirmed long fork. */
  datatype Verdict = Proved(state: ProveState) | Recheck | Refused | Crash

  // The list of last headers

  function Suffix<T>(s: seq<T>, n: nat): (r: seq<T>)
    ensures |r| == Min(|s|, n) && r == s[|s| - |r|..]
  {
    if |s| <= n then s else s[|s| - n..]
  }

  datatype Assembly = Assembled(lastHeaders: seq<Header>) | Disconnected | BeyondEnd

  /** The headers known from before the new ones: those of the previous proof, or the reorg headers instead. */
  function Before(prev: Option<ProveState>, headers: seq<Header>, reorg: nat): seq<Header>
    requires reorg <= |headers|
  {
    if prev.Some? && reorg == 0 then prev.value.lastHeaders else headers[..reorg]
  }

  /** The last n of the headers known before and the new ones. */
  function LastHeaders(n: nat, prev: Option<ProveState>, headers: seq<Header>, reorg: nat, lastN: nat): (r: seq<Header>)
    requires reorg + lastN <= |headers|
    ensures |r| <= n
  {
    Suffix(Before(prev, headers, reorg) + headers[|headers| - lastN..], n)
  }

  /** Without a previous proof, fewer than n new headers have to connect to the reorg headers. */
  predicate NeedsConnection(n: nat, prev: Option<ProveState>, reorg: nat, lastN: nat) {
    prev.None? && reorg > 0 && lastN < n
  }

  method Assemble(c: Rules, n: nat, prev: Option<ProveState>, headers: seq<Header>, reorg: nat, sampled: nat,
                  lastN: nat)
    returns (r: Assembly)
    requires reorg + sampled + lastN == |headers| && (lastN < n ==> sampled == 0)
    ensures r.Assembled? ==> r.lastHeaders == LastHeaders(n, prev, headers, reorg, lastN)
    ensures r.BeyondEnd? <==> NeedsConnection(n, prev, reorg, lastN) && lastN == 0
    ensures r.Disconnected? <==>
              NeedsConnection(n, prev, reorg, lastN) && lastN > 0 && !IsParentOf(c, headers[reorg - 1], headers[reorg])
  {
    hide Suffix;
    var newHeaders := headers[|headers| - lastN..];
    ghost var known := Before(prev, headers, reorg);
    SuffixOfJoin(known, newHeaders, n);
    if lastN == n {
      return Assembled(newHeaders);
    }
    if lastN > n {
      return Assembled(newHeaders[lastN - n..]);
    }
    r := AssembleFew(c, n, prev, headers, reorg, lastN);
  }

  /** Fewer than n new headers are joined to those known before. */
  method AssembleFew(c: Rules, n: nat, prev: Option<ProveState>, headers: seq<Header>, reorg: nat, lastN: nat)
    returns (r: Assembly)
    requires reorg + lastN == |headers| && lastN < n
    ensures r.Assembled? ==> r.lastHeaders == LastHeaders(n, prev, headers, reorg, lastN)
    ensures r.BeyondEnd? <==> NeedsConnection(n, prev, reorg, lastN) && lastN == 0
    ensures r.Disconnected? <==>
              NeedsConnection(n, prev, reorg, lastN) && lastN > 0 && !IsParentOf(c, headers[reorg - 1], headers[reorg])
  {
    hide Suffix, Before;
    if prev.None? && reorg > 0 {
      if reorg == |headers| {
        return BeyondEnd;
      }
      if !IsParentOf(c, headers[reorg - 1], headers[reorg]) {
        return Disconnected;
      }
    }
    r := Prepend(n, Before(prev, headers, reorg), headers[|headers| - lastN..]);
  }

  lemma SuffixOfJoin(a: seq<Header>, b: seq<Header>, n: nat)
    ensures |b| >= n ==> Suffix(a + b, n) == b[|b| - n..]
    ensures |b| >= n ==> |b| == n ==> b[|b| - n..] == b
    ensures |b| < n ==> Suffix(a + b, n) == Suffix(a, n - |b|) + b
    ensures a == [] && |b| < n ==> Suffix(a + b, n) == b
  {
  }

  method Prepend(n: nat, older: seq<Header>, newHeaders: seq<Header>) returns (r: Assembly)
    requires |newHeaders| < n
    ensures r == Assembled(Suffix(older + newHeaders, n))
  {
    SuffixOfJoin(older, newHeaders, n);
    if older == [] {
      return Assembled(newHeaders);
    }
    var required := n - |newHeaders|;
    return Assembled(older[if |older| >= required then |older| - required else 0..] + newHeaders);
  }

  /** The list is hash-linked, except where fewer than n new headers follow what is known from before. */
  lemma LastHeadersAreLinked(c: Rules, n: nat, prev: Option<ProveState>, headers: seq<Header>, reorg: nat,
                          sampled: nat, lastN: nat)
    requires reorg + sampled + lastN == |headers| && (lastN < n ==> sampled == 0)
    requires Linked(c, headers[..reorg]) && Linked(c, headers[reorg + sampled..])
    requires prev.None? || lastN >= n
    requires NeedsConnection(n, prev, reorg, lastN) ==> lastN > 0 && IsParentOf(c, headers[reorg - 1], headers[reorg])
    ensures Linked(c, LastHeaders(n, prev, headers, reorg, lastN))
  {
    hide Linked, Suffix, Before;
    if lastN >= n {
      assert reorg + sampled == |headers| - lastN;
      NewestAreLinked(c, n, Before(prev, headers, reorg), headers[reorg + sampled..]);
    } else {
      JoinIsLinked(c, n, prev, headers, reorg, lastN);
    }
  }

  lemma NewestAreLinked(c: Rules, n: nat, known: seq<Header>, newHeaders: seq<Header>)
    requires n <= |newHeaders| && Linked(c, newHeaders)
    ensures Linked(c, Suffix(known + newHeaders, n))
  {
    hide Linked, Suffix;
    SuffixOfJoin(known, newHeaders, n);
    LinkedSlice(c, newHeaders, |newHeaders| - n, |newHeaders|);
    ToEnd(newHeaders, |newHeaders| - n);
  }

  lemma ToEnd(s: seq<Header>, i: nat)
    requires i <= |s|
    ensures s[i..|s|] == s[i..]
  {
  }

  lemma JoinIsLinked(c: Rules, n: nat, prev: Option<ProveState>, headers: seq<Header>, reorg: nat, lastN: nat)
    requires reorg + lastN == |headers| && lastN < n && prev.None?
    requires Linked(c, headers[..reorg]) && Linked(c, headers[reorg..])
    requires reorg > 0 ==> lastN > 0 && IsParentOf(c, headers[reorg - 1], headers[reorg])
    ensures Linked(c, LastHeaders(n, prev, headers, reorg, lastN))
  {
    hide Linked, Suffix;
    LinkedJoin(c, headers[..reorg], headers[reorg..]);
    SplitAt(headers, reorg);
    SuffixIsSlice(headers, n);
    LinkedSlice(c, headers, |headers| - Min(|headers|, n), |headers|);
  }

  lemma SplitAt(s: seq<Header>, i: nat)
    requires i <= |s|
    ensures s[..i] + s[i..] == s
  {
  }

  lemma SuffixIsSlice(s: seq<Header>, n: nat)
    ensures Suffix(s, n) == s[|s| - Min(|s|, n)..|s|]
  {
  }

  // The checks

  function HeadersOf(vs: seq<Verifiable>): (hs: seq<Header>)
    ensures |hs| == |vs| && forall i :: 0 <= i < |vs| ==> hs[i] == vs[i].header
  {
    seq(|vs|, i requires 0 <= i < |vs| => vs[i].header)
  }

  /** What matching a response against its request looks at. */
  function Views(c: Rules, vs: seq<Verifiable>): (hs: seq<Samples.Header>)
    ensures |hs| == |vs|
    ensures forall i :: 0 <= i < |vs| ==>
              hs[i] == Samples.Header(vs[i].header.number, vs[i].root.total, TotalOf(c, vs[i]))
  {
    seq(|vs|, i requires 0 <= i < |vs| => Samples.Header(vs[i].header.number, vs[i].root.total, TotalOf(c, vs[i])))
  }

  /** `k` is how the message's headers split into reorg, sampled and last headers that answer the request. */
  ghost predicate Matches(c: Rules, n: nat, request: ProveRequest, m: Message, k: Samples.Response) {
    && k.Matched?
    && Samples.Shape(n, request.content, Views(c, m.headers), m.last.header.number, k)
    && (Samples.SortedDifficulties(request.content.difficulties) ==>
          Samples.SamplesAnswered(request.content, Views(c, m.headers), k))
  }

  ghost predicate HeadersAreValid(c: Rules, vs: seq<Verifiable>) {
    forall i :: 0 <= i < |vs| ==> IsValid(c, vs[i]) && c.nonceIsValid(vs[i].header)
  }

  ghost predicate PartsAreLinked(c: Rules, m: Message, k: Samples.Response)
    requires k.Matched? && k.reorg + k.sampled + k.lastN == |m.headers|
  {
    Linked(c, HeadersOf(m.headers)[..k.reorg]) && Linked(c, HeadersOf(m.headers)[k.reorg + k.sampled..])
  }

  /** The last header's chain root vouches for all headers. */
  predicate IsInChain(c: Rules, m: Message) {
    IsValid(c, m.last) && c.proves(m.last.root, m.proof, HeadersOf(m.headers))
  }

  /** The difficulty gained since the previous proof respects the tau limits. */
  ghost predicate GainIsPlausible(c: Rules, prev: Option<ProveState>, m: Message, k: Samples.Response)
    requires k.Matched?
  {
    k.sampled > 0 && prev.Some? ==>
      && EpochsFit(PointOf(c, prev.value.last), PointOf(c, m.last))
      && Plausible(PointOf(c, prev.value.last), PointOf(c, m.last), TAU)
  }

  /** The epoch difficulties of two headers respect the tau rule. */
  ghost predicate TauObeyed(c: Rules, start: Header, end: Header) {
    if start.epoch.number == end.epoch.number then start.target == end.target
    else
      var a, b := Times(start.epoch.length, c.difficultyOf(start.target)), Times(end.epoch.length,
          c.difficultyOf(end.target));
      start.epoch.number < end.epoch.number && TauRule(NewTrend(a, b), TAU, end.epoch.number - start.epoch.number)
  }

  predicate TauMatters(request: ProveRequest, k: Samples.Response)
    requires k.Matched?
  {
    !request.skipTau && k.sampled > 0
  }

  ghost predicate TauChecked(c: Rules, request: ProveRequest, m: Message, k: Samples.Response)
    requires k.Matched? && k.reorg + k.sampled + k.lastN == |m.headers|
  {
    TauMatters(request, k) ==> TauObeyed(c, m.headers[k.reorg].header, m.headers[|m.headers| - 1].header)
  }

  /** The checked arithmetic of the tau check gives up. */
  ghost predicate TauOverflows(c: Rules, request: ProveRequest, m: Message, k: Samples.Response)
    requires k.Matched? && k.reorg + k.sampled + k.lastN == |m.headers|
  {
    && TauMatters(request, k)
    && var start, end := m.headers[k.reorg].header, m.headers[|m.headers| - 1].header;
    && start.epoch.number != end.epoch.number
    && (|| end.epoch.number < start.epoch.number
        || Times(start.epoch.length, c.difficultyOf(start.target)) > U256_MAX
        || Times(end.epoch.length, c.difficultyOf(end.target)) > U256_MAX)
  }

  /** The checked arithmetic of the total-difficulty check gives up. */
  ghost predicate GainOverflows(c: Rules, prev: Option<ProveState>, m: Message, k: Samples.Response)
    requires k.Matched?
  {
    && k.sampled > 0 && prev.Some?
    && var s, e := PointOf(c, prev.value.last), PointOf(c, m.last);
    s.total > U256_MAX || e.total > U256_MAX || GainGivesUp(s, e, TAU)
  }

  /** Two headers of one epoch have different targets. */
  predicate WrongTarget(request: ProveRequest, m: Message, k: Samples.Response)
    requires k.Matched? && k.reorg + k.sampled + k.lastN == |m.headers|
  {
    && TauMatters(request, k)
    && var start, end := m.headers[k.reorg].header, m.headers[|m.headers| - 1].header;
       start.epoch.number == end.epoch.number && start.target != end.target
  }

  /** The checks of valid headers come to arithmetic that gives up, before another check refuses the message. */
  ghost predicate ArithmeticFails(c: Rules, request: ProveRequest, prev: Option<ProveState>, m: Message,
                                  k: Samples.Response)
    requires k.Matched? && k.reorg + k.sampled + k.lastN == |m.headers|
  {
    && HeadersAreValid(c, m.headers)
    && (|| TauOverflows(c, request, m, k)
        || (!WrongTarget(request, m, k) && PartsAreLinked(c, m, k) && IsInChain(c, m) && GainOverflows(c, prev, m, k)))
  }

  /** Every check but the tau rule. */
  ghost predicate PassesOthers(c: Rules, n: nat, request: ProveRequest, prev: Option<ProveState>, m: Message,
                          k: Samples.Response) {
    && Matches(c, n, request, m, k)
    && HeadersAreValid(c, m.headers)
    && PartsAreLinked(c, m, k)
    && IsInChain(c, m)
    && GainIsPlausible(c, prev, m, k)
  }

  method CheckHeaders(c: Rules, vs: seq<Verifiable>) returns (ok: bool)
    ensures ok <==> HeadersAreValid(c, vs)
  {
    var i := 0;
    while i < |vs|
      invariant i <= |vs| && forall j :: 0 <= j < i ==> IsValid(c, vs[j]) && c.nonceIsValid(vs[j].header)
    {
      if !IsValid(c, vs[i]) || !c.nonceIsValid(vs[i].header) {
        return false;
      }
      i := i + 1;
    }
    return true;
  }

  method CheckParts(c: Rules, m: Message, k: Samples.Response) returns (ok: bool)
    requires k.Matched? && k.reorg + k.sampled + k.lastN == |m.headers|
    ensures ok <==> PartsAreLinked(c, m, k)
  {
    hide Linked;
    var headers := HeadersOf(m.headers);
    ok := CheckContinuous(c, headers[..k.reorg]);
    if ok {
      ok := CheckContinuous(c, headers[k.reorg + k.sampled..]);
    }
  }

  method CheckTauOf(c: Rules, request: ProveRequest, m: Message, k: Samples.Response) returns (r: TauVerdict)
    requires k.Matched? && k.reorg + k.sampled + k.lastN == |m.headers|
    ensures r == TauPassed ==> TauChecked(c, request, m, k)
    ensures r == TauFailed || r == InvalidCompactTarget ==> !TauChecked(c, request, m, k)
    ensures r != TauPassed ==> TauMatters(request, k)
    ensures r == TauPanic <==> TauOverflows(c, request, m, k)
    ensures r == InvalidCompactTarget <==> WrongTarget(request, m, k)
  {
    hide TauRule;
    if request.skipTau || k.sampled == 0 {
      return TauPassed;
    }
    var start, end := m.headers[k.reorg].header, m.headers[|m.headers| - 1].header;
    r := VerifyTau(start.epoch, start.target, end.epoch, end.target, TAU, c.difficultyOf);
  }

  method CheckGain(c: Rules, prev: Option<ProveState>, m: Message, k: Samples.Response) returns (r: Outcome)
    requires k.Matched?
    ensures r.Accept? ==> GainIsPlausible(c, prev, m, k)
    ensures r.Reject? ==> !GainIsPlausible(c, prev, m, k)
    ensures r.Panic? <==> GainOverflows(c, prev, m, k)
  {
    hide Plausible, Incomputable, GainGivesUp;
    if k.sampled == 0 || prev.None? {
      return Accept;
    }
    var s, e := PointOf(c, prev.value.last), PointOf(c, m.last);
    if s.total > U256_MAX || e.total > U256_MAX {
      return Panic;
    }
    r := VerifyTotalDifficulty(s, e, TAU);
  }

  /** Message `m`, split as `k` says, proves state `s` to a client that asked `request` and held `prev`. */
  ghost predicate Accepts(c: Rules, n: nat, request: ProveRequest, prev: Option<ProveState>, m: Message,
                          k: Samples.Response, s: ProveState) {
    && PassesOthers(c, n, request, prev, m, k)
    && TauChecked(c, request, m, k)
    && !request.longFork
    && (NeedsConnection(n, prev, k.reorg, k.lastN) ==>
          k.lastN > 0 && IsParentOf(c, m.headers[k.reorg - 1].header, m.headers[k.reorg].header))
    && s == ProveState(request.last, HeadersOf(m.headers)[..k.reorg],
        LastHeaders(n, prev, HeadersOf(m.headers), k.reorg, k.lastN))
  }

  /** A message that passes every check, and ends the run: reorg headers alone, or the confirmation of a long fork. */
  ghost predicate EndsRun(c: Rules, n: nat, request: ProveRequest, prev: Option<ProveState>, m: Message,
                          k: Samples.Response)
    requires k.Matched? && k.reorg + k.sampled + k.lastN == |m.headers| && (k.lastN < n ==> k.sampled == 0)
  {
    if NeedsConnection(n, prev, k.reorg, k.lastN) && k.lastN == 0 then true
    else
      && request.longFork
      && (NeedsConnection(n, prev, k.reorg, k.lastN) ==>
            IsParentOf(c, m.headers[k.reorg - 1].header, m.headers[k.reorg].header))
  }

  /**
   A state is proved only by a message that passes every check; a recheck is asked for only when the tau
   rule alone fails. With ordered totals, a message is refused only if it fails some check. Arithmetic that gives up
   (a count of samples included), a confirmed long fork, or reorg headers alone without a previous proof end the run.
   */
  ghost predicate IsVerdict(c: Rules, n: nat, request: ProveRequest, prev: Option<ProveState>, m: Message, r: Verdict,
                          k: Samples.Response) {
    && (r.Proved? ==> Accepts(c, n, request, prev, m, k, r.state))
    && (r.Recheck? ==> PassesOthers(c, n, request, prev, m, k) && !TauChecked(c, request, m, k))
    && (r.Refused? && Samples.SortedDifficulties(request.content.difficulties)
        && Samples.OrderedTotals(Views(c, m.headers)) ==>
          NothingAccepted(c, n, request, prev, m))
    && (Samples.CountUnderflows(n, request.content, Views(c, m.headers)) ==> r.Crash?)
    && (Matches(c, n, request, m, k) && k.reorg + k.sampled + k.lastN == |m.headers| ==>
          (ArithmeticFails(c, request, prev, m, k) ==> r.Crash?))
    && (PassesOthers(c, n, request, prev, m, k) ==>
          TauChecked(c, request, m, k) && EndsRun(c, n, request, prev, m, k) ==> r.Crash?)
    && (r.Crash? && !Samples.CountUnderflows(n, request.content, Views(c, m.headers)) ==>
          && k.Matched? && k.reorg + k.sampled + k.lastN == |m.headers| && (k.lastN < n ==> k.sampled == 0)
          && (|| ArithmeticFails(c, request, prev, m, k)
              || (&& PassesOthers(c, n, request, prev, m, k) && TauChecked(c, request, m, k)
                  && EndsRun(c, n, request, prev, m, k))))
  }

  ghost predicate NothingAccepted(c: Rules, n: nat, request: ProveRequest, prev: Option<ProveState>, m: Message) {
    forall k, s :: !Accepts(c, n, request, prev, m, k, s)
  }

  method Verify(c: Rules, n: nat, request: ProveRequest, prev: Option<ProveState>, m: Message)
    returns (r: Verdict, k: Samples.Response)
    requires n > 0
    ensures IsVerdict(c, n, request, prev, m, r, k)
  {
    hide Matches, PassesOthers, TauChecked, NothingAccepted, ArithmeticFails, Samples.CountUnderflows;
    var counts := MatchResponse(c, n, request, m);
    k := counts;
    PassedIsMatched(c, n, request, prev, m, k);
    if counts.Underflow? {
      return Crash, k;
    }
    if counts.Refused? {
      if Samples.SortedDifficulties(request.content.difficulties) && Samples.OrderedTotals(Views(c, m.headers)) {
        NoMatch(c, n, request, prev, m);
      }
      return Refused, k;
    }
    var checks := CheckMatched(c, n, request, prev, m, counts);
    if checks.ChecksFailed? {
      FailedCheck(c, n, request, prev, m, k);
      return Refused, k;
    }
    if !checks.ChecksPassed? {
      return if checks.OnlyTauFailed? then Recheck else Crash, k;
    }
    r := Conclude(c, n, request, prev, m, counts);
  }

  /** The outcome for a message that passed all checks. */
  method Conclude(c: Rules, n: nat, request: ProveRequest, prev: Option<ProveState>, m: Message,
                  k: Samples.Response) returns (r: Verdict)
    requires k.Matched? && k.reorg + k.sampled + k.lastN == |m.headers|
    requires PassesOthers(c, n, request, prev, m, k) && TauChecked(c, request, m, k)
    requires k.lastN < n ==> k.sampled == 0
    requires forall k' :: Matches(c, n, request, m, k') ==> k' == k
    requires !Samples.CountUnderflows(n, request.content, Views(c, m.headers))
    requires !ArithmeticFails(c, request, prev, m, k)
    ensures IsVerdict(c, n, request, prev, m, r, k) && !r.Recheck?
  {
    hide Matches, HeadersAreValid, PartsAreLinked, IsInChain, GainIsPlausible, TauChecked, NothingAccepted,
      ArithmeticFails, LastHeaders, Samples.CountUnderflows;
    var headers := HeadersOf(m.headers);
    var list := Assemble(c, n, prev, headers, k.reorg, k.sampled, k.lastN);
    if list.Disconnected? {
      FailedCheck(c, n, request, prev, m, k);
      return Refused;
    }
    if list.BeyondEnd? || request.longFork {
      return Crash;
    }
    return Proved(ProveState(request.last, headers[..k.reorg], list.lastHeaders));
  }

  lemma PassedIsMatched(c: Rules, n: nat, request: ProveRequest, prev: Option<ProveState>, m: Message,
                        k: Samples.Response)
    ensures PassesOthers(c, n, request, prev, m, k) ==> Matches(c, n, request, m, k)
    ensures Matches(c, n, request, m, k) ==> k.Matched?
  {
  }

  lemma NoMatch(c: Rules, n: nat, request: ProveRequest, prev: Option<ProveState>, m: Message)
    requires forall k :: !Matches(c, n, request, m, k)
    ensures NothingAccepted(c, n, request, prev, m)
  {
    hide Matches, HeadersAreValid, PartsAreLinked, IsInChain, GainIsPlausible, TauChecked;
  }

  lemma FailedCheck(c: Rules, n: nat, request: ProveRequest, prev: Option<ProveState>, m: Message, k: Samples.Response)
    requires k.Matched? && k.reorg + k.sampled + k.lastN == |m.headers|
    requires forall k' :: Matches(c, n, request, m, k') ==> k' == k
    requires || !(PassesOthers(c, n, request, prev, m, k) && TauChecked(c, request, m, k))
             || (&& NeedsConnection(n, prev, k.reorg, k.lastN)
                 && (|| k.lastN == 0 || k.sampled > 0
                     || !IsParentOf(c, m.headers[k.reorg - 1].header, m.headers[k.reorg].header)))
    requires k.lastN < n ==> k.sampled == 0
    ensures NothingAccepted(c, n, request, prev, m)
  {
    hide Matches, HeadersAreValid, PartsAreLinked, IsInChain, GainIsPlausible, TauChecked;
  }

  method MatchResponse(c: Rules, n: nat, request: ProveRequest, m: Message) returns (k: Samples.Response)
    requires n > 0
    ensures k.Matched? ==> Matches(c, n, request, m, k)
    ensures k.Matched? ==> k.reorg + k.sampled + k.lastN == |m.headers| && (k.lastN < n ==> k.sampled == 0)
    ensures k.Matched? ==> forall k' :: Matches(c, n, request, m, k') ==> k' == k
    ensures k.Underflow? <==> Samples.CountUnderflows(n, request.content, Views(c, m.headers))
    ensures k.Refused? && Samples.SortedDifficulties(request.content.difficulties)
              && Samples.OrderedTotals(Views(c, m.headers)) ==>
              forall k' :: !Matches(c, n, request, m, k')
  {
    hide Samples.Shape, Samples.SamplesAnswered;
    k := Samples.CheckIfResponseIsMatched(n, request.content, Views(c, m.headers), m.last.header.number);
    if k.Refused? {
      forall k' | Samples.SortedDifficulties(request.content.difficulties) && Matches(c, n, request, m, k')
        ensures Samples.Acceptable(n, request.content, Views(c, m.headers), m.last.header.number, k')
      {
      }
    } else if k.Matched? {
      Splits(c, n, request, m, k);
    }
  }

  datatype Checks = ChecksPassed | OnlyTauFailed | ChecksFailed | ChecksCrashed

  /** The checks of a matched message. */
  method CheckMatched(c: Rules, n: nat, request: ProveRequest, prev: Option<ProveState>, m: Message,
                      k: Samples.Response) returns (r: Checks)
    requires Matches(c, n, request, m, k) && k.Matched? && k.reorg + k.sampled + k.lastN == |m.headers|
    ensures r.ChecksPassed? ==> PassesOthers(c, n, request, prev, m, k) && TauChecked(c, request, m, k)
    ensures r.OnlyTauFailed? ==> PassesOthers(c, n, request, prev, m, k) && !TauChecked(c, request, m, k)
    ensures r.ChecksFailed? ==> !(PassesOthers(c, n, request, prev, m, k) && TauChecked(c, request, m, k))
    ensures r.ChecksCrashed? <==> ArithmeticFails(c, request, prev, m, k)
  {
    hide Matches, HeadersAreValid, PartsAreLinked, IsInChain, GainIsPlausible, TauChecked, TauOverflows, GainOverflows,
      WrongTarget;
    var valid := CheckHeaders(c, m.headers);
    if !valid {
      return ChecksFailed;
    }
    var tau := CheckTauOf(c, request, m, k);
    if tau == TauPanic {
      return ChecksCrashed;
    }
    if tau == InvalidCompactTarget {
      return ChecksFailed;
    }
    var linked := CheckParts(c, m, k);
    if !linked || !IsInChain(c, m) {
      return ChecksFailed;
    }
    var gain := CheckGain(c, prev, m, k);
    if !gain.Accept? {
      return if gain.Reject? then ChecksFailed else ChecksCrashed;
    }
    return if tau == TauFailed then OnlyTauFailed else ChecksPassed;
  }

  lemma Splits(c: Rules, n: nat, request: ProveRequest, m: Message, k: Samples.Response)
    requires n > 0 && Matches(c, n, request, m, k)
    ensures k.reorg + k.sampled + k.lastN == |m.headers| && (k.lastN < n ==> k.sampled == 0)
    ensures forall k' :: Matches(c, n, request, m, k') ==> k' == k
  {
    hide Samples.Coverage;
    forall k' | Matches(c, n, request, m, k') ensures k' == k {
      Samples.ReorgUnique(n, request.content, Views(c, m.headers), k.reorg, k'.reorg);
      Samples.CountsUnique(n, request.content, Views(c, m.headers), k, k');
    }
  }

  /**
   The slice of the join does fail: a client that has proved nothing since it started and whose request begins
   at block 2 gets block 1 as the only header, valid and in the chain.
   */
  lemma ReorgAloneExample(c: Rules, n: nat, request: ProveRequest, m: Message, k: Samples.Response)
    requires n > 0 && request.content.startNumber == 2 && !request.longFork
    requires |m.headers| == 1 && m.headers[0].header.number == 1
    requires HeadersAreValid(c, m.headers) && IsInChain(c, m)
    requires k == Samples.Matched(1, 0, 0)
    ensures PassesOthers(c, n, request, None, m, k) && TauChecked(c, request, m, k)
    ensures NeedsConnection(n, None, k.reorg, k.lastN) && k.lastN == 0
    ensures forall r :: IsVerdict(c, n, request, None, m, r, k) ==> r.Crash?
  {
    assert Views(c, m.headers)[0].number == 1;
    assert Samples.ReorgShape(n, request.content, Views(c, m.headers), 1);
  }
}
