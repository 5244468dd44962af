/**
 * The ordered behaviors of a distribution (SortedCustomBehaviors in internal/cloudfront/distribution.go), and
 * what the whole compilation from Ingresses to behaviors keeps.
 */
module CompiledBehaviors {
  import opened GoStrings
  import opened Model
  import opened Specificity
  import opened Glob
  import opened PathRules
  import opened Associations
  import opened Functions
  import opened SharedParams
  import opened OriginAccess
  import opened Compiler

  function Gathered(os: seq<Origin>): seq<Behavior> {
    if os == [] then []
    else
      var n := |os| - 1;
      Gathered(os[..n]) + os[n].behaviors
  }

  method SortedCustomBehaviors(d: Distribution) returns (bs: seq<Behavior>)
    ensures bs == SortedBehaviors(Gathered(d.customOrigins))
    ensures multiset(bs) == multiset(Gathered(d.customOrigins))
    ensures AllValid(bs) ==> Ordered(bs)
  {
    var result: seq<Behavior> := [];
    for i := 0 to |d.customOrigins|
      invariant result == Gathered(d.customOrigins[..i])
    {
      result := result + d.customOrigins[i].behaviors;
      assert d.customOrigins[..i + 1][..i] == d.customOrigins[..i];
    }
    assert d.customOrigins[..|d.customOrigins|] == d.customOrigins;
    var a := new Behavior[|result|](i requires 0 <= i < |result| => result[i]);
    assert a[..] == result;
    Sort(a);
    bs := a[..];
    if AllValid(bs) {
      PermutationStaysValid(bs, result);
    }
  }

  // ----- what a compilation must produce

  /** The path rules of the Ingresses, each with the origin host it routes to. */
  function RulesOf(ings: seq<CDNIngress>): set<Rule> {
    set a | a in Mentions(ings) :: RuleOf(a)
  }

  function RuleOf(a: Mention): Rule {
    Rule(a.host, a.key.pathPattern, a.key.pathType)
  }

  predicate DistinctPairs(bs: seq<Behavior>) {
    forall i, j :: 0 <= i < j < |bs| ==> bs[i].originHost != bs[j].originHost || bs[i].pathPattern != bs[j].pathPattern
  }

  predicate KeyExpandsTo(key: PathKey, pattern: string) {
    pattern in PathPatternsForPath(key.pathPattern, key.pathType)
  }

  /** No other path of the host expands to the pattern. */
  ghost predicate OnlyKey(mentions: set<Mention>, host: string, key: PathKey, pattern: string) {
    && Mentioned(mentions, host, key) && KeyExpandsTo(key, pattern)
    && forall k :: Mentioned(mentions, host, k) && KeyExpandsTo(k, pattern) ==> k == key
  }

  /** The functions of all the paths, in their order. */
  function AllFunctions(ps: seq<Path>): seq<Function> {
    if ps == [] then []
    else
      var n := |ps| - 1;
      AllFunctions(ps[..n]) + FunctionsOf(ps[n].functions)
  }

  predicate DistinctKeys(ps: seq<Path>) {
    forall i, j :: 0 <= i < j < |ps| ==> KeyOf(ps[i]) != KeyOf(ps[j])
  }

  predicate HasKey(ps: seq<Path>, key: PathKey) {
    exists p :: p in ps && KeyOf(p) == key
  }

  /** ps are the paths of the host that expand to the pattern, each once, with their merged functions. */
  ghost predicate MergedPathsOf(ps: seq<Path>, mentions: set<Mention>, host: string, pattern: string) {
    && DistinctKeys(ps)
    && (forall key :: HasKey(ps, key) <==> Mentioned(mentions, host, key) && KeyExpandsTo(key, pattern))
    && forall p :: p in ps ==> JoinOf(p.functions, mentions, host, KeyOf(p))
  }

  /** A behavior carries the merged functions of the paths it stems from, one path after the other. */
  ghost predicate CarriesMergedFunctions(b: Behavior, mentions: set<Mention>) {
    exists ps :: MergedPathsOf(ps, mentions, b.originHost, b.pathPattern) && b.functions == AllFunctions(ps)
  }

  ghost predicate CompiledFrom(bs: seq<Behavior>, ings: seq<CDNIngress>) {
    && Expands(bs, RulesOf(ings))
    && DistinctPairs(bs)
    && (AllValid(bs) ==> Ordered(bs))
    && forall b :: b in bs ==> CarriesMergedFunctions(b, Mentions(ings))
  }

  method DesiredBehaviors(ings: seq<CDNIngress>, s: Setting, shortId: ShortId) returns (r: Result<seq<Behavior>>)
    ensures r.Err? <==> |ACLs(ings)| > 1 || !Consistent(Mentions(ings)) || ClashesWithDefault(ings, s)
    ensures r.Ok? ==> CompiledFrom(r.value, ings)
  {
    var shared := NewSharedIngressParams(ings);
    if shared.Err? {
      return Err(shared.error);
    }
    var d := NewDistribution(ings, shared.value, s, shortId);
    if d.Err? {
      return Err(d.error);
    }
    var bs := SortedCustomBehaviors(d.value);
    CompilationIsFaithful(bs, ings, shared.value, d.value, s, shortId);
    return Ok(bs);
  }

  lemma CompilationIsFaithful(
    bs: seq<Behavior>, ings: seq<CDNIngress>, shared: Params, d: Distribution, s: Setting, shortId: ShortId)
    requires SharedFrom(ings, Ok(shared)) && DistributionFrom(Ok(d), ings, shared, s, shortId)
    requires multiset(bs) == multiset(Gathered(d.customOrigins)) && (AllValid(bs) ==> Ordered(bs))
    ensures CompiledFrom(bs, ings)
  {
    var m :| MergeOf(m, Mentions(ings)) && ListsPaths(shared.paths, m);
    var origins :| OriginsFrom(origins, ings, shared, shortId) && OriginsOf(d.customOrigins, origins);
    forall b
      ensures b in bs <==> Contributed(b, ings, shared)
    {
      assert b in bs <==> b in multiset(Gathered(d.customOrigins));
      GatheredMembers(d.customOrigins, b);
      MemberIsContributed(b, ings, shared, d.customOrigins, origins, shortId);
    }
    ExpandsTheRules(bs, ings, shared, m);
    forall b | b in bs
      ensures CarriesMergedFunctions(b, Mentions(ings))
    {
      assert Contributed(b, ings, shared);
      assert ListsHost(PathsFromOrigin(shared, b.originHost), m, b.originHost);
      ContributedFunctions(b, ings, shared, m);
    }
    GatheredDistinct(d.customOrigins, origins, ings, shared, shortId);
    PermutationDistinct(bs, Gathered(d.customOrigins));
  }

  // ----- from origins to behaviors

  lemma {:induction false} GatheredMembers(os: seq<Origin>, b: Behavior)
    ensures b in Gathered(os) <==> exists o :: o in os && b in o.behaviors
  {
    if os != [] {
      var n := |os| - 1;
      GatheredMembers(os[..n], b);
      assert os == os[..n] + [os[n]];
    }
  }

  /** b is an entry of the behavior map of a host that some Ingress contributes. */
  predicate Contributed(b: Behavior, ings: seq<CDNIngress>, shared: Params) {
    var m := BehaviorMap(PathsFromOrigin(shared, b.originHost));
    ContributesHost(ings, b.originHost) && b.pathPattern in m && b.functions == m[b.pathPattern]
  }

  lemma MemberIsContributed(
    b: Behavior, ings: seq<CDNIngress>, shared: Params, os: seq<Origin>, origins: map<string, Origin>, shortId: ShortId)
    requires OriginsFrom(origins, ings, shared, shortId) && OriginsOf(os, origins)
    ensures (exists o :: o in os && b in o.behaviors) <==> Contributed(b, ings, shared)
  {
    if o :| o in os && b in o.behaviors {
      assert OriginFor(origins[o.host], LastFor(ings, o.host), PathsFromOrigin(shared, o.host), shortId);
    }
    if Contributed(b, ings, shared) {
      var host := b.originHost;
      assert host in origins;
      assert OriginFor(origins[host], LastFor(ings, host), PathsFromOrigin(shared, host), shortId);
      assert origins[host] in os && b in origins[host].behaviors;
    }
  }

  lemma {:induction false} GatheredDistinct(
    os: seq<Origin>, origins: map<string, Origin>, ings: seq<CDNIngress>, shared: Params, shortId: ShortId)
    requires OriginsFrom(origins, ings, shared, shortId) && DistinctHosts(os)
    requires forall o :: o in os ==> o.host in origins && origins[o.host] == o
    ensures DistinctPairs(Gathered(os))
    ensures forall b :: b in Gathered(os) ==> exists o :: o in os && o.host == b.originHost
    decreases |os|
  {
    if os != [] {
      var n := |os| - 1;
      var rest, last := os[..n], os[n];
      assert os == rest + [last];
      GatheredDistinct(rest, origins, ings, shared, shortId);
      assert OriginFor(last, LastFor(ings, last.host), PathsFromOrigin(shared, last.host), shortId);
      DistinctConcat(Gathered(rest), last.behaviors, last.host);
    }
  }

  lemma DistinctConcat(bs: seq<Behavior>, cs: seq<Behavior>, host: string)
    requires DistinctPairs(bs) && DistinctPatterns(cs)
    requires forall b :: b in bs ==> b.originHost != host
    requires forall c :: c in cs ==> c.originHost == host
    ensures DistinctPairs(bs + cs)
  {
    assert forall i :: 0 <= i < |bs| ==> bs[i] in bs;
    assert forall i :: 0 <= i < |cs| ==> cs[i] in cs;
  }

  /** Distinctness of (host, pattern) pairs survives reordering. */
  lemma PermutationDistinct(bs: seq<Behavior>, cs: seq<Behavior>)
    requires multiset(bs) == multiset(cs) && DistinctPairs(cs)
    ensures DistinctPairs(bs)
  {
    forall i, j | 0 <= i < j < |bs| && bs[i].originHost == bs[j].originHost && bs[i].pathPattern == bs[j].pathPattern
      ensures false
    {
      assert bs[i] in multiset(cs) && bs[j] in multiset(cs);
      var k :| 0 <= k < |cs| && cs[k] == bs[i];
      var l :| 0 <= l < |cs| && cs[l] == bs[j];
      assert k == l;
      TwiceInMultiset(bs, i, j);
      MultiplicityWithoutDuplicates(cs, bs[i]);
    }
  }

  // ----- from paths to patterns

  lemma {:induction false} WithPatternsKeys(m: FunctionMap, patterns: seq<string>, fs: seq<Function>, q: string)
    requires forall i, j :: 0 <= i < j < |patterns| ==> patterns[i] != patterns[j]
    ensures q in WithPatterns(m, patterns, fs) <==> q in m || q in patterns
    ensures q in WithPatterns(m, patterns, fs) ==>
      WithPatterns(m, patterns, fs)[q] == (if q in m then m[q] else []) + if q in patterns then fs else []
  {
    if patterns != [] {
      var n := |patterns| - 1;
      WithPatternsKeys(m, patterns[..n], fs, q);
      LastMember(patterns, q);
    }
  }

  lemma PatternsOfPathDistinct(p: Path)
    ensures var ps := PatternsOfPath(p); forall i, j :: 0 <= i < j < |ps| ==> ps[i] != ps[j]
  {
    var n := TrimSuffix(p.pathPattern, "/");
    assert |n + "/*"| != |n|;
  }

  lemma {:induction false} BehaviorMapKeys(paths: seq<Path>, q: string)
    ensures q in BehaviorMap(paths) <==> exists p :: p in paths && q in PatternsOfPath(p)
  {
    if paths != [] {
      var n := |paths| - 1;
      BehaviorMapKeys(paths[..n], q);
      PatternsOfPathDistinct(paths[n]);
      WithPatternsKeys(BehaviorMap(paths[..n]), PatternsOfPath(paths[n]), FunctionsOf(paths[n].functions), q);
      assert paths == paths[..n] + [paths[n]];
    }
  }

  /** The paths that expand to q, in their order. */
  function Contributing(paths: seq<Path>, q: string): seq<Path> {
    if paths == [] then []
    else
      var n := |paths| - 1;
      Contributing(paths[..n], q) + if q in PatternsOfPath(paths[n]) then [paths[n]] else []
  }

  /** The entry of q holds the functions of all paths that expand to q, one after the other. */
  lemma {:induction false} BehaviorMapEntry(paths: seq<Path>, q: string)
    ensures q in BehaviorMap(paths) <==> Contributing(paths, q) != []
    ensures q in BehaviorMap(paths) ==> BehaviorMap(paths)[q] == AllFunctions(Contributing(paths, q))
  {
    if paths != [] {
      var n := |paths| - 1;
      BehaviorMapEntry(paths[..n], q);
      PatternsOfPathDistinct(paths[n]);
      WithPatternsKeys(BehaviorMap(paths[..n]), PatternsOfPath(paths[n]), FunctionsOf(paths[n].functions), q);
      var before := Contributing(paths[..n], q);
      assert before + [] == before && (before + [paths[n]])[..|before|] == before;
    }
  }

  lemma {:induction false} ContributingMembers(paths: seq<Path>, q: string)
    requires DistinctKeys(paths)
    ensures var ps := Contributing(paths, q);
      DistinctKeys(ps) && forall p :: p in ps <==> p in paths && q in PatternsOfPath(p)
  {
    if paths != [] {
      var n := |paths| - 1;
      assert paths == paths[..n] + [paths[n]];
      ContributingMembers(paths[..n], q);
      var before := Contributing(paths[..n], q);
      forall i | 0 <= i < |before|
        ensures KeyOf(before[i]) != KeyOf(paths[n])
      {
        assert before[i] in before && before[i] in paths[..n];
      }
    }
  }

  lemma ContributedFunctions(b: Behavior, ings: seq<CDNIngress>, shared: Params, m: MergedPathMap)
    requires Contributed(b, ings, shared)
    requires MergeOf(m, Mentions(ings)) && ListsHost(PathsFromOrigin(shared, b.originHost), m, b.originHost)
    ensures CarriesMergedFunctions(b, Mentions(ings))
  {
    var mentions, host, q := Mentions(ings), b.originHost, b.pathPattern;
    var paths := PathsFromOrigin(shared, host);
    var ps := Contributing(paths, q);
    BehaviorMapEntry(paths, q);
    ContributingMembers(paths, q);
    forall key
      ensures HasKey(ps, key) <==> Mentioned(mentions, host, key) && KeyExpandsTo(key, q)
    {
      if Mentioned(mentions, host, key) {
        assert Has(m, host, key);
        var p := Path(key.pathPattern, key.pathType, m[host][key]);
        assert KeyOf(p) == key && p in paths;
        assert KeyExpandsTo(key, q) <==> p in ps;
      }
      if p :| p in ps && KeyOf(p) == key {
        assert p in paths && Has(m, host, key);
      }
    }
    forall p | p in ps
      ensures JoinOf(p.functions, mentions, host, KeyOf(p))
    {
      assert p in paths && Has(m, host, KeyOf(p));
    }
    assert MergedPathsOf(ps, mentions, host, q);
  }

  lemma ExpandsTheRules(bs: seq<Behavior>, ings: seq<CDNIngress>, shared: Params, m: MergedPathMap)
    requires MergeOf(m, Mentions(ings)) && ListsPaths(shared.paths, m)
    requires forall b :: b in bs <==> Contributed(b, ings, shared)
    ensures Expands(bs, RulesOf(ings))
  {
    var mentions, rules := Mentions(ings), RulesOf(ings);
    forall b | b in bs
      ensures exists r :: r in rules && Belongs(b, r)
    {
      var host := b.originHost;
      var paths := PathsFromOrigin(shared, host);
      BehaviorMapKeys(paths, b.pathPattern);
      var p :| p in paths && b.pathPattern in PatternsOfPath(p);
      assert ListsHost(paths, m, host);
      assert Mentioned(mentions, host, KeyOf(p));
      var a :| a in mentions && a.host == host && a.key == KeyOf(p);
      assert RuleOf(a) in rules && Belongs(b, RuleOf(a));
    }
    forall r, q | r in rules && q in PatternsOf(r)
      ensures HasBehavior(bs, r.host, q)
    {
      var a :| a in mentions && RuleOf(a) == r;
      MentionComesFromHost(ings, a);
      assert Mentioned(mentions, a.host, a.key);
      var paths := PathsFromOrigin(shared, r.host);
      assert ListsHost(paths, m, r.host) && Has(m, a.host, a.key);
      var p := Path(a.key.pathPattern, a.key.pathType, m[a.host][a.key]);
      assert KeyOf(p) == a.key && p in paths && q in PatternsOfPath(p);
      BehaviorMapKeys(paths, q);
      var b := Behavior(q, r.host, BehaviorMap(paths)[q]);
      assert Contributed(b, ings, shared) && Serves(b, r.host, q);
    }
  }

  lemma MentionComesFromHost(ings: seq<CDNIngress>, a: Mention)
    requires a in Mentions(ings)
    ensures ContributesHost(ings, a.host)
  {
    var i, k :|
      0 <= i < |ings| && 0 <= k < |ings[i].unmergedPaths| && a == MentionOf(ings[i], ings[i].unmergedPaths[k]);
    assert ings[i].originHost == a.host;
  }

  // ----- the main results about compilations

  /** An Ingress of the list has a path, for its host, that is written as the pattern. */
  ghost predicate WrittenBy(ings: seq<CDNIngress>, host: string, pattern: string) {
    exists i, p :: PathOf(ings, i, p) && i.originHost == host && WrittenAs(p.pathPattern, p.pathType, pattern)
  }

  predicate PathOf(ings: seq<CDNIngress>, i: CDNIngress, p: Path) {
    i in ings && p in i.unmergedPaths
  }

  /** There is a behavior for a host and a pattern if and only if some path of that host is written as the pattern. */
  lemma CompiledPairsAreWritten(ings: seq<CDNIngress>, bs: seq<Behavior>, host: string, pattern: string)
    requires CompiledFrom(bs, ings)
    ensures HasBehavior(bs, host, pattern) <==> WrittenBy(ings, host, pattern)
  {
    if b :| b in bs && Serves(b, host, pattern) {
      var r :| r in RulesOf(ings) && Belongs(b, r);
      var a :| a in Mentions(ings) && RuleOf(a) == r;
      var i, k :|
        0 <= i < |ings| && 0 <= k < |ings[i].unmergedPaths| && a == MentionOf(ings[i], ings[i].unmergedPaths[k]);
      PatternsAreWritten(r, pattern);
      assert PathOf(ings, ings[i], ings[i].unmergedPaths[k]);
    }
    if i, p :| PathOf(ings, i, p) && i.originHost == host && WrittenAs(p.pathPattern, p.pathType, pattern) {
      var n :| 0 <= n < |ings| && ings[n] == i;
      var k :| 0 <= k < |i.unmergedPaths| && i.unmergedPaths[k] == p;
      var a := MentionOf(ings[n], ings[n].unmergedPaths[k]);
      assert a in Mentions(ings) && RuleOf(a) in RulesOf(ings);
      PatternsAreWritten(RuleOf(a), pattern);
      assert HasBehavior(bs, RuleOf(a).host, pattern);
    }
  }

  /**
   * Compiled Ingresses with plain Exact and Prefix paths route as Kubernetes does, but for trailing-slash clashes:
   * every request that matches no path of another type, such as those of user-supplied origins.
   */
  lemma CompiledRoutingMeetsKubernetes(ings: seq<CDNIngress>, bs: seq<Behavior>, req: string)
    requires CompiledFrom(bs, ings)
    requires forall r :: r in KubernetesRules(RulesOf(ings)) ==> Plain(r)
    requires forall r :: r in RulesOf(ings) && !OfKubernetes(r) ==> ValidUtf8(r.path) && !Matches(r.path, req)
    requires TiedRulesShareHost(KubernetesRules(RulesOf(ings))) && HasPrefix(req, "/")
    ensures var rules := KubernetesRules(RulesOf(ings));
      && (FirstMatch(bs, req).None? <==> forall r :: r in rules ==> !RuleMatches(r, req))
      && (FirstMatch(bs, req).Some? ==>
          (ServedByBest(rules, FirstMatch(bs, req).value, req) <==> !TrailingSlashClash(rules, req)))
  {
    forall b | b in bs
      ensures ValidUtf8(b.pathPattern)
    {
      var r :| r in RulesOf(ings) && Belongs(b, r);
      if OfKubernetes(r) {
        assert r in KubernetesRules(RulesOf(ings));
        PlainPatternIsValid(r, b.pathPattern);
      }
    }
    RoutingBesidePatterns(RulesOf(ings), bs, req);
  }

  lemma PlainPatternIsValid(r: Rule, q: string)
    requires Plain(r) && q in PatternsOf(r)
    ensures ValidUtf8(q)
  {
    NormalizedIsPlain(r);
    PatternsOfPlain(r);
    ValidConcat(Normalized(r), SlashStar());
  }

  function SlashStar(): (s: string)
    ensures s == "/*" && ValidUtf8(s)
  {
    AsciiIsItsLeadBytes("/*");
    "/*"
  }

  function Pairs(bs: seq<Behavior>): (ps: seq<(string, string)>)
    ensures |ps| == |bs| && forall k :: 0 <= k < |bs| ==> ps[k] == (bs[k].originHost, bs[k].pathPattern)
  {
    seq(|bs|, k requires 0 <= k < |bs| => (bs[k].originHost, bs[k].pathPattern))
  }

  /**
   * With ASCII patterns the compiled sequence of patterns depends only on what the Ingresses mention: not on
   * their order, the order of their paths, or the iteration order of any map on the way.
   */
  lemma CompiledPatternsAreUnique(ings: seq<CDNIngress>, others: seq<CDNIngress>, bs: seq<Behavior>, cs: seq<Behavior>)
    requires CompiledFrom(bs, ings) && CompiledFrom(cs, others)
    requires Mentions(ings) == Mentions(others)
    requires forall b :: b in bs ==> Ascii(b.pathPattern)
    ensures Patterns(bs) == Patterns(cs)
  {
    forall x
      ensures x in Pairs(bs) <==> x in Pairs(cs)
    {
      PairsAreExpansions(bs, RulesOf(ings), x);
      PairsAreExpansions(cs, RulesOf(others), x);
    }
    NoDuplicatesSameElements(Pairs(bs), Pairs(cs));
    SameMultisetSameSeconds(Pairs(bs), Pairs(cs));
    assert Seconds(Pairs(bs)) == Patterns(bs) && Seconds(Pairs(cs)) == Patterns(cs);
    AsciiPatternsAreOrdered(bs);
    SamePatternsSameAscii(bs, cs);
    AsciiPatternsAreOrdered(cs);
    OrderedArrangementIsUnique(Patterns(bs), Patterns(cs));
  }

  lemma SamePatternsSameAscii(bs: seq<Behavior>, cs: seq<Behavior>)
    requires multiset(Patterns(bs)) == multiset(Patterns(cs))
    requires forall b :: b in bs ==> Ascii(b.pathPattern)
    ensures forall c :: c in cs ==> Ascii(c.pathPattern)
  {
    forall c | c in cs
      ensures Ascii(c.pathPattern)
    {
      var k :| 0 <= k < |cs| && cs[k] == c;
      assert Patterns(cs)[k] in multiset(Patterns(bs));
      assert c.pathPattern in Patterns(bs);
    }
  }

  lemma AsciiPatternsAreOrdered(bs: seq<Behavior>)
    requires AllValid(bs) ==> Ordered(bs)
    requires forall b :: b in bs ==> Ascii(b.pathPattern)
    ensures InOrderThroughout(Patterns(bs))
  {
    forall b | b in bs
      ensures ValidUtf8(b.pathPattern)
    {
      AsciiIsItsLeadBytes(b.pathPattern);
    }
  }

  lemma PairsAreExpansions(bs: seq<Behavior>, rules: set<Rule>, x: (string, string))
    requires Expands(bs, rules)
    ensures x in Pairs(bs) <==> exists r :: r in rules && r.host == x.0 && x.1 in PatternsOf(r)
  {
    if x in Pairs(bs) {
      var k :| 0 <= k < |bs| && Pairs(bs)[k] == x;
      assert bs[k] in bs;
      var r :| r in rules && Belongs(bs[k], r);
    }
    if r :| r in rules && r.host == x.0 && x.1 in PatternsOf(r) {
      assert HasBehavior(bs, r.host, x.1);
      var b :| b in bs && Serves(b, r.host, x.1);
      var k :| 0 <= k < |bs| && bs[k] == b;
      assert Pairs(bs)[k] == x;
    }
  }

  function Seconds<A, B>(ps: seq<(A, B)>): (qs: seq<B>)
    ensures |qs| == |ps| && forall k :: 0 <= k < |ps| ==> qs[k] == ps[k].1
  {
    seq(|ps|, k requires 0 <= k < |ps| => ps[k].1)
  }

  lemma {:induction false} SameMultisetSameSeconds<A, B>(ps: seq<(A, B)>, qs: seq<(A, B)>)
    requires multiset(ps) == multiset(qs)
    ensures multiset(Seconds(ps)) == multiset(Seconds(qs))
    decreases |ps|
  {
    assert |ps| == |multiset(ps)| == |qs|;
    if ps != [] {
      assert ps[0] in multiset(qs);
      var k :| 0 <= k < |qs| && qs[k] == ps[0];
      SecondsWithout(ps, 0);
      SecondsWithout(qs, k);
      SameMultisetSameSeconds(ps[..0] + ps[1..], qs[..k] + qs[k + 1..]);
    }
  }

  lemma SecondsWithout<A, B>(ps: seq<(A, B)>, k: nat)
    requires k < |ps|
    ensures multiset(ps[..k] + ps[k + 1..]) == multiset(ps) - multiset{ps[k]}
    ensures multiset(Seconds(ps)) == multiset(Seconds(ps[..k] + ps[k + 1..])) + multiset{ps[k].1}
  {
    RemoveAt(ps, k);
    RemoveAt(Seconds(ps), k);
    assert Seconds(ps)[..k] + Seconds(ps)[k + 1..] == Seconds(ps[..k] + ps[k + 1..]);
  }

  lemma RemoveAt<T>(s: seq<T>, k: nat)
    requires k < |s|
    ensures multiset(s) == multiset(s[..k] + s[k + 1..]) + multiset{s[k]}
  {
    assert s == s[..k] + [s[k]] + s[k + 1..];
  }

  /**
   * End to end, a behavior that stems from one path of its host sends to CloudFront exactly the functions
   * that the Ingresses together configure for the path.
   */
  lemma CompiledFunctionsAreConserved(ings: seq<CDNIngress>, bs: seq<Behavior>, b: Behavior, key: PathKey)
    requires CompiledFrom(bs, ings) && b in bs
    requires OnlyKey(Mentions(ings), b.originHost, key, b.pathPattern)
    ensures exists fa ::
      && JoinOf(fa, Mentions(ings), b.originHost, key)
      && Conserves(fa, CacheBehaviorOf(b).functions, CacheBehaviorOf(b).lambdas)
  {
    var ps: seq<Path> :|
      MergedPathsOf(ps, Mentions(ings), b.originHost, b.pathPattern) && b.functions == AllFunctions(ps);
    OnlyPath(ps, Mentions(ings), b, key);
    FunctionsAreConserved(b, ps[0].functions);
  }

  lemma OnlyPath(ps: seq<Path>, mentions: set<Mention>, b: Behavior, key: PathKey)
    requires MergedPathsOf(ps, mentions, b.originHost, b.pathPattern)
    requires OnlyKey(mentions, b.originHost, key, b.pathPattern)
    ensures |ps| == 1 && JoinOf(ps[0].functions, mentions, b.originHost, key)
    ensures AllFunctions(ps) == FunctionsOf(ps[0].functions)
  {
    assert HasKey(ps, key);
    forall i | 0 <= i < |ps|
      ensures KeyOf(ps[i]) == key
    {
      assert ps[i] in ps && HasKey(ps, KeyOf(ps[i]));
    }
    if |ps| > 1 {
      TwoOfKey(ps, key);
    }
    assert ps[..0] == [] && [] + FunctionsOf(ps[0].functions) == FunctionsOf(ps[0].functions);
  }

  lemma TwoOfKey(ps: seq<Path>, key: PathKey)
    requires |ps| > 1 && forall i :: 0 <= i < |ps| ==> KeyOf(ps[i]) == key
    ensures !DistinctKeys(ps)
  {
    assert KeyOf(ps[0]) == KeyOf(ps[1]);
  }

  /** No slot is configured on both sides. */
  predicate SlotsApart(a: FunctionAssociations, b: FunctionAssociations) {
    && !(a.viewerRequest.Some? && b.viewerRequest.Some?) && !(a.viewerResponse.Some? && b.viewerResponse.Some?)
    && !(a.originRequest.Some? && b.originRequest.Some?) && !(a.originResponse.Some? && b.originResponse.Some?)
  }

  predicate AllApart(ps: seq<Path>) {
    forall i, j :: 0 <= i < j < |ps| ==> SlotsApart(ps[i].functions, ps[j].functions)
  }

  /**
   * CloudFront takes one function per event. A compiled behavior asks for no more if and only if no two paths of
   * the host that expand to its pattern configure the same slot.
   */
  lemma CompiledEventsAreDistinctIff(ings: seq<CDNIngress>, bs: seq<Behavior>, b: Behavior) returns (ps: seq<Path>)
    requires CompiledFrom(bs, ings) && b in bs
    ensures MergedPathsOf(ps, Mentions(ings), b.originHost, b.pathPattern) && b.functions == AllFunctions(ps)
    ensures DistinctFunctionEvents(b.functions) <==> AllApart(ps)
  {
    ps :| MergedPathsOf(ps, Mentions(ings), b.originHost, b.pathPattern) && b.functions == AllFunctions(ps);
    EventsDistinctIff(ps);
  }

  /** An Ingress with one path twice, as Prefix and as Exact, and a viewer request function for each. */
  function TwofoldIngress(host: string, arn: string, otherArn: string): CDNIngress {
    CDNIngress(
      "site", "portal", host,
      [Path("/foo", PREFIX, EMPTY.(viewerRequest := Some(ViewerRequestFunction(arn, TYPE_CLOUDFRONT, false)))),
       Path("/foo", EXACT, EMPTY.(viewerRequest := Some(ViewerRequestFunction(otherArn, TYPE_CLOUDFRONT, false))))],
      "", [], 0, ACCESS_PUBLIC, false)
  }

  /** It is valid and without conflict, and yet every compilation asks for two functions of one event. */
  lemma TwofoldIngressCollides(host: string, arn: string, otherArn: string, bs: seq<Behavior>) returns (b: Behavior)
    requires arn != "" && otherArn != ""
    requires CompiledFrom(bs, [TwofoldIngress(host, arn, otherArn)])
    ensures var ing := TwofoldIngress(host, arn, otherArn);
      && (forall p :: p in ing.unmergedPaths ==> Validate(p.functions))
      && Consistent(Mentions([ing])) && ACLs([ing]) == {}
    ensures b in bs && Serves(b, host, "/foo") && !DistinctFunctionEvents(b.functions)
  {
    var ing := TwofoldIngress(host, arn, otherArn);
    var mp, me := MentionOf(ing, ing.unmergedPaths[0]), MentionOf(ing, ing.unmergedPaths[1]);
    TwofoldMentions(ing, mp, me);
    NotASlash();
    b := SharedPatternCollides([ing], bs, mp, me, "/foo");
  }

  /** Two paths of a host that set one slot collide at every pattern that both expand to. */
  lemma SharedPatternCollides(ings: seq<CDNIngress>, bs: seq<Behavior>, mp: Mention, me: Mention, q: string)
    returns (b: Behavior)
    requires CompiledFrom(bs, ings) && mp in Mentions(ings) && me in Mentions(ings)
    requires mp.host == me.host && mp.key != me.key && KeyExpandsTo(mp.key, q) && KeyExpandsTo(me.key, q)
    requires mp.functions.viewerRequest.Some? && me.functions.viewerRequest.Some?
    ensures b in bs && Serves(b, mp.host, q) && !DistinctFunctionEvents(b.functions)
  {
    assert RuleOf(mp) in RulesOf(ings) && q in PatternsOf(RuleOf(mp));
    assert HasBehavior(bs, mp.host, q);
    b :| b in bs && Serves(b, mp.host, q);
    var ps := CompiledEventsAreDistinctIff(ings, bs, b);
    BothSetTheSlot(ps, Mentions(ings), b, mp, me);
  }

  lemma NotASlash()
    ensures PathPatternsForPath("/foo", PREFIX) == ["/foo", "/foo" + "/*"]
    ensures PathPatternsForPath("/foo", EXACT) == ["/foo"]
  {
    assert "/foo"[3..] == "o";
  }

  lemma TwofoldMentions(ing: CDNIngress, mp: Mention, me: Mention)
    requires |ing.unmergedPaths| == 2
    requires mp == MentionOf(ing, ing.unmergedPaths[0]) && me == MentionOf(ing, ing.unmergedPaths[1])
    requires mp.key != me.key && ing.unmergedWebACL == ""
    ensures Mentions([ing]) == {mp, me} && Consistent(Mentions([ing])) && ACLs([ing]) == {}
  {
    assert [ing][0] == ing;
    assert mp in Mentions([ing]) && me in Mentions([ing]);
  }

  lemma BothSetTheSlot(ps: seq<Path>, mentions: set<Mention>, b: Behavior, mp: Mention, me: Mention)
    requires MergedPathsOf(ps, mentions, b.originHost, b.pathPattern)
    requires mp in mentions && me in mentions && mp.host == me.host == b.originHost && mp.key != me.key
    requires KeyExpandsTo(mp.key, b.pathPattern) && KeyExpandsTo(me.key, b.pathPattern)
    requires mp.functions.viewerRequest.Some? && me.functions.viewerRequest.Some?
    ensures !AllApart(ps)
  {
    assert Mentioned(mentions, b.originHost, mp.key) && Mentioned(mentions, b.originHost, me.key);
    assert HasKey(ps, mp.key) && HasKey(ps, me.key);
    var i :| 0 <= i < |ps| && KeyOf(ps[i]) == mp.key;
    var j :| 0 <= j < |ps| && KeyOf(ps[j]) == me.key;
    assert ps[i] in ps && ps[j] in ps;
    assert Below(mp.functions, ps[i].functions) && Below(me.functions, ps[j].functions);
    assert !SlotsApart(ps[i].functions, ps[j].functions) && !SlotsApart(ps[j].functions, ps[i].functions);
  }

  lemma {:induction false} EventsDistinctIff(ps: seq<Path>)
    ensures DistinctFunctionEvents(AllFunctions(ps)) <==> AllApart(ps)
  {
    if ps != [] {
      var n := |ps| - 1;
      EventsDistinctIff(ps[..n]);
      FourSlots(ps[n].functions);
      DistinctEventsConcat(AllFunctions(ps[..n]), FunctionsOf(ps[n].functions));
      ApartFromAll(ps[..n], ps[n].functions);
      AllApartOneMore(ps);
    }
  }

  predicate EventsApart(fs: seq<Function>, gs: seq<Function>) {
    forall f, g :: f in fs && g in gs ==> f.eventType != g.eventType
  }

  lemma DistinctEventsConcat(fs: seq<Function>, gs: seq<Function>)
    ensures DistinctFunctionEvents(fs + gs) <==>
      DistinctFunctionEvents(fs) && DistinctFunctionEvents(gs) && EventsApart(fs, gs)
  {
    var all := fs + gs;
    if DistinctFunctionEvents(all) {
      assert forall i :: 0 <= i < |fs| ==> all[i] == fs[i];
      assert forall j :: 0 <= j < |gs| ==> all[|fs| + j] == gs[j];
    }
  }

  predicate ApartFrom(ps: seq<Path>, fa: FunctionAssociations) {
    forall i :: 0 <= i < |ps| ==> SlotsApart(ps[i].functions, fa)
  }

  lemma AllApartOneMore(ps: seq<Path>)
    requires ps != []
    ensures var n := |ps| - 1;
      AllApart(ps) <==> AllApart(ps[..n]) && ApartFrom(ps[..n], ps[n].functions)
  {
    var n := |ps| - 1;
    assert forall i :: 0 <= i < n ==> ps[..n][i] == ps[i];
  }

  lemma ApartFromOneMore(ps: seq<Path>, fa: FunctionAssociations)
    requires ps != []
    ensures var n := |ps| - 1;
      ApartFrom(ps, fa) <==> ApartFrom(ps[..n], fa) && SlotsApart(ps[n].functions, fa)
  {
    var n := |ps| - 1;
    assert forall i :: 0 <= i < n ==> ps[..n][i] == ps[i];
  }

  lemma {:induction false} ApartFromAll(ps: seq<Path>, fa: FunctionAssociations)
    ensures EventsApart(AllFunctions(ps), FunctionsOf(fa)) <==> ApartFrom(ps, fa)
  {
    if ps != [] {
      var n := |ps| - 1;
      ApartFromAll(ps[..n], fa);
      ApartFromOneMore(ps, fa);
      EventsApartIff(ps[n].functions, fa);
      EventsApartConcat(AllFunctions(ps[..n]), FunctionsOf(ps[n].functions), FunctionsOf(fa));
    }
  }

  lemma EventsApartConcat(es: seq<Function>, fs: seq<Function>, gs: seq<Function>)
    ensures EventsApart(es + fs, gs) <==> EventsApart(es, gs) && EventsApart(fs, gs)
  {
    assert forall f :: f in es + fs <==> f in es || f in fs;
  }

  lemma EventsApartIff(a: FunctionAssociations, b: FunctionAssociations)
    ensures EventsApart(FunctionsOf(a), FunctionsOf(b)) <==> SlotsApart(a, b)
  {
    var fs, gs := FunctionsOf(a), FunctionsOf(b);
    EventsAre(a);
    EventsAre(b);
    EventsApartMeaning(fs, gs);
  }

  lemma EventsApartMeaning(fs: seq<Function>, gs: seq<Function>)
    ensures EventsApart(fs, gs) <==> forall event :: !(HasEvent(fs, event) && HasEvent(gs, event))
  {
    if event :| HasEvent(fs, event) && HasEvent(gs, event) {
      var f :| f in fs && f.eventType == event;
      var g :| g in gs && g.eventType == event;
    }
    if f, g :| f in fs && g in gs && f.eventType == g.eventType {
      assert HasEvent(fs, f.eventType) && HasEvent(gs, f.eventType);
    }
  }

  predicate HasEvent(fs: seq<Function>, event: string) {
    exists f :: f in fs && f.eventType == event
  }

  lemma EventsAre(fa: FunctionAssociations)
    ensures forall event :: HasEvent(FunctionsOf(fa), event) <==>
      || (event == VIEWER_REQUEST && fa.viewerRequest.Some?) || (event == VIEWER_RESPONSE && fa.viewerResponse.Some?)
      || (event == ORIGIN_REQUEST && fa.originRequest.Some?) || (event == ORIGIN_RESPONSE && fa.originResponse.Some?)
  {
    var fs := FunctionsOf(fa);
    FourSlots(fa);
    assert fa.viewerRequest.Some? ==> ViewerRequestFn(fa.viewerRequest.value) in fs;
    assert fa.viewerResponse.Some? ==> ViewerResponseFn(fa.viewerResponse.value) in fs;
    assert fa.originRequest.Some? ==>
      RequestEdge(fa.originRequest.value.arn, ORIGIN_REQUEST, fa.originRequest.value.includeBody) in fs;
    assert fa.originResponse.Some? ==> ResponseEdge(fa.originResponse.value.arn, ORIGIN_RESPONSE) in fs;
  }
}
