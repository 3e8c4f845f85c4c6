/** The resolver chain: a bounded loop that applies the first matching resolver until none matches. Resolvers and
    network answers are arbitrary; the k-th call gets the k-th answer. */
module Registry {
  import opened Tables
  import opened SpanEdit
  import opened WebAddress
  import opened Resolvers

  datatype Resolver = Resolver(name: string, hosts: seq<string>, matches: Address -> bool,
                               resolve: (Address, Fetched) -> Answer)

  // Construction

  function Claimed(lib: Library, host: string): string {
    Lower(lib, TrimSuffix(host, "."))
  }

  predicate Claims(lib: Library, hosts: seq<string>, host: string) {
    exists x | x in hosts :: Claimed(lib, x) == host
  }

  predicate Unambiguous(lib: Library, rs: seq<Resolver>) {
    && (forall i | 0 <= i < |rs| :: rs[i].name != "")
    && (forall i, j | 0 <= i < j < |rs| :: rs[i].name != rs[j].name)
    && (forall i, j, x | 0 <= i < j < |rs| && x in rs[j].hosts :: !Claims(lib, rs[i].hosts, Claimed(lib, x)))
  }

  /** What makes a list ambiguous: a resolver without a name, a name given twice, or a host of two resolvers,
      whatever its case and with or without a final dot. */
  lemma AmbiguousWhen(lib: Library, rs: seq<Resolver>)
    ensures !Unambiguous(lib, rs)
            <==>
              || (exists i | 0 <= i < |rs| :: rs[i].name == "")
              || (exists i, j | 0 <= i < j < |rs| :: rs[i].name == rs[j].name)
              || (exists i, j | 0 <= i < j < |rs| :: SharesHost(lib, rs[i].hosts, rs[j].hosts))
  {
    forall i, j | 0 <= i < j < |rs|
      ensures SharesHost(lib, rs[i].hosts, rs[j].hosts)
              <==> exists y | y in rs[j].hosts :: Claims(lib, rs[i].hosts, Claimed(lib, y))
    {
    }
  }

  predicate SharesHost(lib: Library, xs: seq<string>, ys: seq<string>) {
    exists x, y | x in xs && y in ys :: Lower(lib, TrimSuffix(x, ".")) == Lower(lib, TrimSuffix(y, "."))
  }

  ghost predicate ClaimedBy(lib: Library, rs: seq<Resolver>, k: nat, host: string)
    requires k <= |rs|
  {
    exists i | 0 <= i < k :: Claims(lib, rs[i].hosts, host)
  }

  /** Accepts exactly the lists with distinct, nonempty names in which no host has two owners. */
  method NewRegistry(lib: Library, rs: seq<Resolver>) returns (ok: bool)
    ensures ok <==> Unambiguous(lib, rs)
  {
    hide Claims;
    var seen: set<string> := {};
    var owners: map<string, string> := map[];
    for k := 0 to |rs|
      invariant seen == Names(rs[..k])
      invariant Unambiguous(lib, rs[..k])
      invariant forall h :: h in owners <==> ClaimedBy(lib, rs, k, h)
      invariant forall h | h in owners :: owners[h] in seen
    {
      assert rs[..k + 1] == rs[..k] + [rs[k]];
      if rs[k].name == "" || rs[k].name in seen {
        return false;
      }
      ghost var before := owners;
      owners, ok := ClaimHosts(lib, rs[k], owners);
      if !ok {
        return false;
      }
      seen := seen + {rs[k].name};
      assert forall h :: ClaimedBy(lib, rs, k + 1, h) <==> ClaimedBy(lib, rs, k, h) || Claims(lib, rs[k].hosts, h);
    }
    assert rs[..|rs|] == rs;
    return true;
  }

  /** Enters the hosts of one resolver; fails exactly if one of them has an owner. */
  method ClaimHosts(lib: Library, r: Resolver, before: map<string, string>)
    returns (owners: map<string, string>, ok: bool)
    requires forall h | h in before :: before[h] != r.name
    ensures ok <==> forall x | x in r.hosts :: Claimed(lib, x) !in before
    ensures ok ==> forall h :: h in owners <==> h in before || Claims(lib, r.hosts, h)
    ensures ok ==> forall h | h in owners :: owners[h] == if h in before then before[h] else r.name
  {
    hide Claimed, Claims;
    owners := before;
    ClaimsNone(lib);
    assert r.hosts[..0] == [];
    for k := 0 to |r.hosts|
      invariant forall h :: h in owners <==> h in before || Claims(lib, r.hosts[..k], h)
      invariant forall h | h in owners :: owners[h] == if h in before then before[h] else r.name
      invariant forall y | 0 <= y < k :: Claimed(lib, r.hosts[y]) !in before
    {
      ClaimsMore(lib, r.hosts, k);
      var host := Claimed(lib, r.hosts[k]);
      if host in owners && owners[host] != r.name {
        return owners, false;
      }
      owners := owners[host := r.name];
    }
    assert r.hosts[..|r.hosts|] == r.hosts;
    ok := true;
  }

  lemma ClaimsNone(lib: Library)
    ensures forall h :: !Claims(lib, [], h)
  {}

  lemma ClaimsMore(lib: Library, hosts: seq<string>, k: nat)
    requires k < |hosts|
    ensures forall h :: Claims(lib, hosts[..k + 1], h) <==> Claims(lib, hosts[..k], h) || h == Claimed(lib, hosts[k])
  {
    assert hosts[..k + 1] == hosts[..k] + [hosts[k]];
    forall h ensures Claims(lib, hosts[..k + 1], h) <==> Claims(lib, hosts[..k], h) || h == Claimed(lib, hosts[k]) {
      assert hosts[k] in hosts[..k + 1];
      assert forall x | x in hosts[..k] :: x in hosts[..k + 1];
    }
  }

  function Names(rs: seq<Resolver>): set<string> {
    set i | 0 <= i < |rs| :: rs[i].name
  }

  // The chain

  /** The first resolver that matches. */
  function FirstMatch(rs: seq<Resolver>, u: Address, from: nat := 0): (i: Option<nat>)
    requires from <= |rs|
    ensures i.Some? ==>
              from <= i.value < |rs| && rs[i.value].matches(u)
              && forall j | from <= j < i.value :: !rs[j].matches(u)
    ensures i.None? ==> forall j | from <= j < |rs| :: !rs[j].matches(u)
    decreases |rs| - from
  {
    if from == |rs| then None else if rs[from].matches(u) then Some(from) else FirstMatch(rs, u, from + 1)
  }

  function ParseHttp(lib: Library, raw: string): (u: Option<Address>) {
    var parsed := lib.parse(TrimSpace(raw));
    if parsed.None? || !IsHttp(lib, parsed.value) then None
    else Some(parsed.value.(host := LowerHost(lib, parsed.value.host)))
  }

  lemma ParsedIsHttp(lib: Library, raw: string)
    requires Lawful(lib)
    ensures ParseHttp(lib, raw).Some? ==> IsHttp(lib, ParseHttp(lib, raw).value)
  {
  }

  function MatchName(lib: Library, rs: seq<Resolver>, raw: string): Option<string> {
    var u := ParseHttp(lib, raw);
    if u.None? then None else
    var i := FirstMatch(rs, u.value);
    if i.None? then None else Some(rs[i.value].name)
  }

  datatype Outcome =
    | Rejected
    | NoMatch
    | Resolved(original: Address, destination: Address, resolver: string)
    | ResolverFailed(resolver: string)
    | NoDestination(resolver: string)
    | LimitExceeded

  /** The URLs a run goes through: each the answer of the first matching resolver to the one before, rendered
      differently. */
  ghost predicate Rewrites(lib: Library, rs: seq<Resolver>, net: nat -> Fetched, urls: seq<Address>) {
    forall k | 0 <= k < |urls| - 1 :: RewritesTo(lib, rs, urls[k], net(k), urls[k + 1])
  }

  predicate RewritesTo(lib: Library, rs: seq<Resolver>, u: Address, answer: Fetched, d: Address) {
    var i := FirstMatch(rs, u);
    i.Some? && rs[i.value].resolve(u, answer) == Gave(Some(d)) && Render(lib, d) != Render(lib, u)
  }

  method FindResolver(rs: seq<Resolver>, u: Address) returns (found: Option<nat>)
    ensures found == FirstMatch(rs, u)
  {
    for i := 0 to |rs|
      invariant FirstMatch(rs, u) == FirstMatch(rs, u, i)
    {
      if rs[i].matches(u) {
        return Some(i);
      }
    }
    found := None;
  }

  /** What the run makes of its last URL. */
  predicate Ends(lib: Library, rs: seq<Resolver>, first: Address, rewrites: nat, last: Address, answer: Fetched,
                 r: Outcome) {
    if rewrites > |rs| then rewrites == |rs| + 1 && r == LimitExceeded else
    var i := FirstMatch(rs, last);
    if i.None? then r == if rewrites == 0 then NoMatch else Resolved(first, last, NameFor(rs, first))
    else match rs[i.value].resolve(last, answer)
      case Refused => r == ResolverFailed(rs[i.value].name)
      case Gave(None) => r == NoDestination(rs[i.value].name)
      case Gave(Some(d)) => Render(lib, d) == Render(lib, last) && r == Resolved(first, last, NameFor(rs, first))
  }

  function NameFor(rs: seq<Resolver>, u: Address): string {
    var i := FirstMatch(rs, u);
    if i.None? then "" else rs[i.value].name
  }

  /** A complete run on a raw URL. */
  ghost predicate Runs(lib: Library, rs: seq<Resolver>, net: nat -> Fetched, raw: string, urls: seq<Address>,
                       r: Outcome) {
    match ParseHttp(lib, raw)
    case None => urls == [] && r == Rejected
    case Some(u) =>
      && |urls| > 0 && urls[0] == u && Rewrites(lib, rs, net, urls)
      && Ends(lib, rs, u, |urls| - 1, urls[|urls| - 1], net(|urls| - 1), r)
  }

  ghost predicate Reaches(lib: Library, rs: seq<Resolver>, net: nat -> Fetched, raw: string, r: Outcome) {
    exists urls :: Runs(lib, rs, net, raw, urls, r)
  }

  /** Registry.Resolve: the outcome of the one complete run for the given answers. */
  method Resolve(lib: Library, rs: seq<Resolver>, net: nat -> Fetched, raw: string) returns (r: Outcome)
    requires forall i | 0 <= i < |rs| :: rs[i].name != ""
    ensures Reaches(lib, rs, net, raw, r) && r == OutcomeOf(lib, rs, net, raw)
  {
    ghost var urls, calls;
    r, urls, calls := RunChain(lib, rs, net, raw);
    OneOutcome(lib, rs, net, raw, r);
  }

  /** The loop, with the URLs it goes through and the resolvers it calls. */
  method RunChain(lib: Library, rs: seq<Resolver>, net: nat -> Fetched, raw: string)
    returns (r: Outcome, ghost urls: seq<Address>, ghost calls: seq<nat>)
    requires forall i | 0 <= i < |rs| :: rs[i].name != ""
    ensures Runs(lib, rs, net, raw, urls, r)
    ensures urls != [] ==> CallsOf(rs, urls, calls)
  {
    hide FirstMatch, Render, IsHttp;
    var start := ParseHttp(lib, raw);
    urls, calls := [], [];
    if start.None? {
      return Rejected, urls, calls;
    }
    var original, parsed, matched, resolverName := start.value, start.value, false, "";
    urls := [parsed];
    for steps := 0 to |rs| + 1
      invariant |urls| == steps + 1 && urls[0] == original && urls[steps] == parsed
      invariant Rewrites(lib, rs, net, urls)
      invariant |calls| == steps && forall k | 0 <= k < steps :: FirstMatch(rs, urls[k]) == Some(calls[k])
      invariant matched <==> steps > 0
      invariant resolverName == if steps > 0 then NameFor(rs, original) else ""
    {
      var chosen := FindResolver(rs, parsed);
      if chosen.None? {
        if !matched {
          return NoMatch, urls, calls;
        }
        return Resolved(original, parsed, resolverName), urls, calls;
      }
      matched := true;
      if resolverName == "" {
        resolverName := rs[chosen.value].name;
      }
      calls := calls + [chosen.value];
      var resolution := rs[chosen.value].resolve(parsed, net(steps));
      if resolution.Refused? {
        return ResolverFailed(rs[chosen.value].name), urls, calls;
      }
      if resolution.destination.None? {
        return NoDestination(rs[chosen.value].name), urls, calls;
      }
      var destination := resolution.destination.value;
      if Render(lib, destination) == Render(lib, parsed) {
        return Resolved(original, parsed, resolverName), urls, calls;
      }
      parsed := destination;
      urls := urls + [parsed];
    }
    r := LimitExceeded;
  }

  /** The outcome of the chain from the k-th URL on. */
  function Chain(lib: Library, rs: seq<Resolver>, net: nat -> Fetched, first: Address, k: nat, u: Address): Outcome
    requires k <= |rs| + 1
    decreases |rs| + 1 - k
  {
    if k > |rs| then LimitExceeded else
    var i := FirstMatch(rs, u);
    if i.None? then if k == 0 then NoMatch else Resolved(first, u, NameFor(rs, first))
    else match rs[i.value].resolve(u, net(k))
      case Refused => ResolverFailed(rs[i.value].name)
      case Gave(None) => NoDestination(rs[i.value].name)
      case Gave(Some(d)) =>
        if Render(lib, d) == Render(lib, u) then Resolved(first, u, NameFor(rs, first))
        else Chain(lib, rs, net, first, k + 1, d)
  }

  function OutcomeOf(lib: Library, rs: seq<Resolver>, net: nat -> Fetched, raw: string): Outcome {
    var u := ParseHttp(lib, raw);
    if u.None? then Rejected else Chain(lib, rs, net, u.value, 0, u.value)
  }

  /** For given answers there is one outcome, and a run that has it. */
  lemma OneOutcome(lib: Library, rs: seq<Resolver>, net: nat -> Fetched, raw: string, r: Outcome)
    ensures Reaches(lib, rs, net, raw, r) <==> r == OutcomeOf(lib, rs, net, raw)
  {
    if Reaches(lib, rs, net, raw, r) {
      var urls :| Runs(lib, rs, net, raw, urls, r);
      if urls != [] {
        ChainOutcome(lib, rs, net, urls, 0, r);
      }
    }
    var urls := OutcomeHasRun(lib, rs, net, raw);
  }

  lemma {:induction false} ChainOutcome(lib: Library, rs: seq<Resolver>, net: nat -> Fetched, urls: seq<Address>,
                                        k: nat, r: Outcome)
    requires k < |urls| <= |rs| + 2 && Rewrites(lib, rs, net, urls)
    requires Ends(lib, rs, urls[0], |urls| - 1, urls[|urls| - 1], net(|urls| - 1), r)
    ensures Chain(lib, rs, net, urls[0], k, urls[k]) == r
    decreases |urls| - k
  {
    hide FirstMatch, Render, NameFor;
    if k < |urls| - 1 {
      assert RewritesTo(lib, rs, urls[k], net(k), urls[k + 1]);
      ChainOutcome(lib, rs, net, urls, k + 1, r);
    }
  }

  lemma OutcomeHasRun(lib: Library, rs: seq<Resolver>, net: nat -> Fetched, raw: string) returns (urls: seq<Address>)
    ensures Runs(lib, rs, net, raw, urls, OutcomeOf(lib, rs, net, raw))
  {
    var u := ParseHttp(lib, raw);
    urls := [];
    if u.Some? {
      urls := ChainHasRun(lib, rs, net, [u.value]);
    }
  }

  lemma {:induction false} ChainHasRun(lib: Library, rs: seq<Resolver>, net: nat -> Fetched, so: seq<Address>)
    returns (urls: seq<Address>)
    requires 0 < |so| <= |rs| + 2 && Rewrites(lib, rs, net, so)
    ensures |urls| > 0 && urls[0] == so[0] && Rewrites(lib, rs, net, urls)
    ensures Ends(lib, rs, urls[0], |urls| - 1, urls[|urls| - 1], net(|urls| - 1),
                 Chain(lib, rs, net, so[0], |so| - 1, so[|so| - 1]))
    decreases |rs| + 2 - |so|
  {
    hide FirstMatch, Render, NameFor;
    urls := so;
    var k, u := |so| - 1, so[|so| - 1];
    var i := FirstMatch(rs, u);
    if k <= |rs| && i.Some? {
      match rs[i.value].resolve(u, net(k)) {
        case Gave(Some(d)) =>
          if Render(lib, d) != Render(lib, u) {
            urls := ChainHasRun(lib, rs, net, so + [d]);
          }
        case _ =>
      }
    }
  }

  // The bound

  /** The last URL went to a resolver too, which did not rewrite it. */
  predicate LastCalled(rs: seq<Resolver>, urls: seq<Address>)
    requires |urls| > 0
  {
    |urls| - 1 <= |rs| && FirstMatch(rs, urls[|urls| - 1]).Some?
  }

  /** The resolver that each call went to. */
  ghost predicate CallsOf(rs: seq<Resolver>, urls: seq<Address>, calls: seq<nat>)
    requires |urls| > 0
  {
    && |calls| == (if LastCalled(rs, urls) then |urls| else |urls| - 1)
    && (forall k | 0 <= k < |calls| :: FirstMatch(rs, urls[k]) == Some(calls[k]))
  }

  predicate Repeats(s: seq<nat>) {
    exists i, j :: 0 <= i < j < |s| && s[i] == s[j]
  }

  lemma {:induction false} Pigeonhole(s: seq<nat>, n: nat)
    requires |s| > n && forall k | 0 <= k < |s| :: s[k] < n
    ensures Repeats(s)
    decreases n
  {
    var last := |s| - 1;
    assert s[last] < n;
    if i :| 0 <= i < last && s[i] == s[last] {
    } else {
      // Rename n - 1 to the last value, which no longer occurs before.
      var t := seq(last, k requires 0 <= k < last => if s[k] == n - 1 then s[last] else s[k]);
      Pigeonhole(t, n - 1);
      var i, j :| 0 <= i < j < |t| && t[i] == t[j];
      assert s[i] == s[j];
    }
  }

  /** At most n + 1 calls for n resolvers, and the limit is met only if some resolver was called twice. */
  lemma CallsBounded(lib: Library, rs: seq<Resolver>, net: nat -> Fetched, raw: string, urls: seq<Address>, r: Outcome,
                     calls: seq<nat>)
    requires Runs(lib, rs, net, raw, urls, r) && urls != [] && CallsOf(rs, urls, calls)
    ensures |calls| <= |rs| + 1
    ensures r == LimitExceeded ==> |calls| == |rs| + 1 && Repeats(calls)
  {
    if r == LimitExceeded {
      assert |urls| == |rs| + 2;
      Pigeonhole(calls, |rs|);
    }
  }

  // The three production resolvers

  function Production(lib: Library): seq<Resolver> {
    [Resolver("google-share", ["share.google", "goo.gl"], (u: Address) => IsGoogleShare(lib, u),
              (u: Address, f) => GoogleShareResolve(lib, u, f)),
     Resolver("amp", [], (u: Address) => IsAmp(lib, u), (u: Address, f) => AmpResolve(lib, u, f)),
     Resolver("tracking-parameter", [], (u: Address) => TrackingParameters(lib, u) != {},
              (u: Address, f) => Gave(Some(WithoutTracking(lib, u))))]
  }

  /** Nothing left to resolve: no share host, no AMP shape, no tracking parameter. */
  predicate Clean(lib: Library, u: Address) {
    IsHttp(lib, u) && !IsGoogleShare(lib, u) && !IsAmp(lib, u) && TrackingParameters(lib, u) == {}
  }

  /** Whatever the network answers, a destination is again HTTP(S) without credentials and is rendered differently. */
  lemma {:induction false} AlwaysChanges(lib: Library, u: Address, f: Fetched, i: nat, d: Address)
    requires Lawful(lib) && IsHttp(lib, u)
    requires FirstMatch(Production(lib), u) == Some(i) && Production(lib)[i].resolve(u, f) == Gave(Some(d))
    ensures IsHttp(lib, d) && Render(lib, d) != Render(lib, u)
  {
    hide Render, IsAmp, IsGoogleShare, TrackingParameters, UnwrapAmpCache;
    if i == 0 {
      LeavingChanges(lib, u, d);
    } else if i == 1 {
      if UnwrapAmpCache(lib, u) == Some(d) {
        UnwrappingChanges(lib, u);
      } else {
        LeavingChanges(lib, u, d);
      }
    } else {
      assert i == 2 && d == WithoutTracking(lib, u);
      TrackingChanges(lib, u);
    }
  }

  lemma {:induction false} StaysHttp(lib: Library, net: nat -> Fetched, urls: seq<Address>, k: nat)
    requires Lawful(lib) && k < |urls| && IsHttp(lib, urls[0]) && Rewrites(lib, Production(lib), net, urls)
    ensures IsHttp(lib, urls[k])
  {
    hide Production, Render, FirstMatch, IsHttp;
    if k > 0 {
      StaysHttp(lib, net, urls, k - 1);
      assert RewritesTo(lib, Production(lib), urls[k - 1], net(k - 1), urls[k]);
      AlwaysChanges(lib, urls[k - 1], net(k - 1), FirstMatch(Production(lib), urls[k - 1]).value, urls[k]);
    }
  }

  lemma GivesDestination(lib: Library, u: Address, f: Fetched, i: nat)
    requires i < |Production(lib)| && Production(lib)[i].resolve(u, f).Gave?
    ensures Production(lib)[i].resolve(u, f).destination.Some?
  {
    hide IsAmp, IsGoogleShare, IsPublic, UnwrapAmpCache, WithoutTracking, TrackingParameters;
    assert i == 0 || i == 1 || i == 2;
  }

  /** A production run ends at a URL that no resolver matches, or fails. */
  lemma EndIsClean(lib: Library, first: Address, rewrites: nat, last: Address, answer: Fetched, r: Outcome)
    requires Lawful(lib) && IsHttp(lib, last) && Ends(lib, Production(lib), first, rewrites, last, answer, r)
    ensures !r.NoDestination?
    ensures r.Resolved? ==> rewrites > 0 && r.destination == last && FirstMatch(Production(lib), last).None?
    ensures r.Resolved? ==> r.resolver == NameFor(Production(lib), first)
  {
    hide Production, FirstMatch, Render, IsHttp;
    var rs := Production(lib);
    var i := FirstMatch(rs, last);
    if i.Some? && rs[i.value].resolve(last, answer).Gave? {
      var d := rs[i.value].resolve(last, answer).destination;
      GivesDestination(lib, last, answer, i.value);
      AlwaysChanges(lib, last, answer, i.value, d.value);
    }
  }

  lemma UnmatchedIsClean(lib: Library, u: Address)
    requires IsHttp(lib, u) && FirstMatch(Production(lib), u).None?
    ensures Clean(lib, u)
  {
    var rs := Production(lib);
    assert !rs[0].matches(u) && !rs[1].matches(u) && !rs[2].matches(u);
  }

  /** For any answers of the network, a successful production run that matched ends at a clean URL, and names the
      resolver that matched first. */
  lemma {:induction false} ResolvedIsClean(lib: Library, net: nat -> Fetched, raw: string, urls: seq<Address>,
                                           r: Outcome)
    requires Lawful(lib) && Runs(lib, Production(lib), net, raw, urls, r)
    ensures r.Resolved? ==> Clean(lib, r.destination) && MatchName(lib, Production(lib), raw) == Some(r.resolver)
    ensures !r.NoDestination?
  {
    hide Production, Ends, Clean, IsHttp, Render;
    if !r.Rejected? {
      var rs, last := Production(lib), urls[|urls| - 1];
      ParsedIsHttp(lib, raw);
      StaysHttp(lib, net, urls, |urls| - 1);
      EndIsClean(lib, urls[0], |urls| - 1, last, net(|urls| - 1), r);
      if r.Resolved? {
        UnmatchedIsClean(lib, last);
        assert RewritesTo(lib, rs, urls[0], net(0), urls[1]);
      }
    }
  }
}
