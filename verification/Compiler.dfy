/**
 * The compiler from Ingresses to the ordered behaviors of a distribution: newOrigin in
 * internal/cloudfront/service_helpers.go, newDistribution in service.go, and the builders of origin.go and
 * distribution.go.
 */
module Compiler {
  import opened Model
  import opened PathRules
  import opened Functions
  import opened SharedParams
  import opened OriginAccess

  const DEFAULT_RESPONSE_TIMEOUT := 30

  datatype Distribution = Distribution(
    id: string,
    arn: string,
    address: string,
    alternateDomains: seq<string>,
    customOrigins: seq<Origin>,
    defaultOrigin: Origin,
    group: string,
    ipv6Enabled: bool,
    webACL: string)
  {
    predicate Exists() {
      id != ""
    }

    predicate IsEmpty() {
      customOrigins == []
    }

    predicate HasOrigin(host: string) {
      exists k :: 0 <= k < |customOrigins| && customOrigins[k].host == host
    }
  }

  // ----- origins

  type FunctionMap = map<string, seq<Function>>

  function WithBehaviorIn(m: FunctionMap, pattern: string, fs: seq<Function>): FunctionMap {
    m[pattern := if pattern in m then m[pattern] + fs else fs]
  }

  function WithPatterns(m: FunctionMap, patterns: seq<string>, fs: seq<Function>): FunctionMap {
    if patterns == [] then m
    else
      var n := |patterns| - 1;
      WithBehaviorIn(WithPatterns(m, patterns[..n], fs), patterns[n], fs)
  }

  function BehaviorMap(paths: seq<Path>): FunctionMap {
    if paths == [] then map[]
    else
      var n := |paths| - 1;
      WithPatterns(BehaviorMap(paths[..n]), PatternsOfPath(paths[n]), FunctionsOf(paths[n].functions))
  }

  function PatternsOfPath(p: Path): seq<string> {
    PathPatternsForPath(p.pathPattern, p.pathType)
  }

  /** bs are the entries of m, each once and in any order. */
  ghost predicate BehaviorsFrom(bs: seq<Behavior>, host: string, m: FunctionMap) {
    && DistinctPatterns(bs)
    && forall b :: b in bs <==> b.originHost == host && b.pathPattern in m && m[b.pathPattern] == b.functions
  }

  predicate DistinctPatterns(bs: seq<Behavior>) {
    forall i, j :: 0 <= i < j < |bs| ==> bs[i].pathPattern != bs[j].pathPattern
  }

  function TimeoutOf(responseTimeout: int): int {
    if responseTimeout > 0 then responseTimeout else DEFAULT_RESPONSE_TIMEOUT
  }

  class OriginBuilder {
    const host: string
    const distributionName: string
    const accessType: string
    var respTimeout: int
    var behaviors: FunctionMap

    constructor (distributionName: string, host: string, accessType: string)
      ensures this.host == host && this.distributionName == distributionName && this.accessType == accessType
      ensures respTimeout == DEFAULT_RESPONSE_TIMEOUT && behaviors == map[]
    {
      this.distributionName := distributionName;
      this.host := host;
      this.accessType := accessType;
      respTimeout := DEFAULT_RESPONSE_TIMEOUT;
      behaviors := map[];
    }

    method WithResponseTimeout(rpTimeout: int)
      modifies this`respTimeout
      ensures respTimeout == if rpTimeout > 0 then rpTimeout else old(respTimeout)
    {
      if rpTimeout > 0 {
        respTimeout := rpTimeout;
      }
    }

    method WithBehavior(pathPattern: string, functions: seq<Function>)
      modifies this`behaviors
      ensures behaviors == WithBehaviorIn(old(behaviors), pathPattern, functions)
    {
      if pathPattern !in behaviors {
        behaviors := behaviors[pathPattern := functions];
        return;
      }
      behaviors := behaviors[pathPattern := behaviors[pathPattern] + functions];
    }

    /** Iterates over the behavior map in an arbitrary order. */
    method AddBehaviors() returns (bs: seq<Behavior>)
      ensures BehaviorsFrom(bs, host, behaviors)
    {
      bs := [];
      var patterns := behaviors.Keys;
      while patterns != {}
        invariant patterns <= behaviors.Keys
        invariant BehaviorsFrom(bs, host, behaviors - patterns)
        decreases |patterns|
      {
        var p :| p in patterns;
        var b := Behavior(p, host, behaviors[p]);
        AddOneBehavior(bs, host, behaviors, patterns, p);
        bs := bs + [b];
        patterns := patterns - {p};
      }
      assert behaviors - patterns == behaviors;
    }

    method Build(shortId: ShortId) returns (o: Origin)
      ensures o.host == host && o.responseTimeout == respTimeout && o.access == accessType
      ensures BehaviorsFrom(o.behaviors, host, behaviors)
      ensures o.oac == if accessType == ACCESS_BUCKET then NewOAC(shortId, distributionName, host) else NO_OAC
    {
      var bs := AddBehaviors();
      o := Origin(host, bs, respTimeout, accessType, NO_OAC);
      if o.access == ACCESS_BUCKET {
        o := o.(oac := NewOAC(shortId, distributionName, host));
      }
    }
  }

  lemma AddOneBehavior(bs: seq<Behavior>, host: string, m: FunctionMap, rest: set<string>, p: string)
    requires BehaviorsFrom(bs, host, m - rest) && p in rest && p in m
    ensures BehaviorsFrom(bs + [Behavior(p, host, m[p])], host, m - (rest - {p}))
  {
    var b := Behavior(p, host, m[p]);
    assert forall i :: 0 <= i < |bs| ==> bs[i] in bs;
    assert forall c :: c in bs + [b] <==> c in bs || c == b;
  }

  method NewOrigin(ing: CDNIngress, shared: Params, shortId: ShortId) returns (o: Origin)
    ensures OriginFor(o, ing, PathsFromOrigin(shared, ing.originHost), shortId)
  {
    var builder := new OriginBuilder(ing.group, ing.originHost, ing.originAccess);
    builder.WithResponseTimeout(ing.responseTimeout);
    var paths := PathsFromOrigin(shared, ing.originHost);
    for i := 0 to |paths|
      invariant builder.behaviors == BehaviorMap(paths[..i])
      invariant builder.respTimeout == TimeoutOf(ing.responseTimeout)
    {
      var p := paths[i];
      ghost var before := builder.behaviors;
      var patterns := PathPatternsForPath(p.pathPattern, p.pathType);
      for k := 0 to |patterns|
        invariant builder.behaviors == WithPatterns(before, patterns[..k], FunctionsOf(p.functions))
        invariant builder.respTimeout == TimeoutOf(ing.responseTimeout)
      {
        var functions := NewFunctions(p.functions);
        WithOnePattern(before, patterns, k, functions);
        builder.WithBehavior(patterns[k], functions);
      }
      BehaviorMapStep(paths, i);
      assert patterns[..|patterns|] == patterns;
    }
    assert paths[..|paths|] == paths;
    o := builder.Build(shortId);
  }

  lemma WithOnePattern(m: FunctionMap, patterns: seq<string>, k: nat, fs: seq<Function>)
    requires k < |patterns|
    ensures WithPatterns(m, patterns[..k + 1], fs) ==
      WithBehaviorIn(WithPatterns(m, patterns[..k], fs), patterns[k], fs)
  {
    assert patterns[..k + 1][..k] == patterns[..k];
  }

  lemma BehaviorMapStep(paths: seq<Path>, i: nat)
    requires i < |paths|
    ensures BehaviorMap(paths[..i + 1]) ==
      WithPatterns(BehaviorMap(paths[..i]), PatternsOfPath(paths[i]), FunctionsOf(paths[i].functions))
  {
    assert paths[..i + 1][..i] == paths[..i];
  }

  /** The origin that an Ingress contributes, given the merged paths of its host. */
  ghost predicate OriginFor(o: Origin, ing: CDNIngress, paths: seq<Path>, shortId: ShortId) {
    && SameConfiguration(o, ing, shortId)
    && BehaviorsFrom(o.behaviors, ing.originHost, BehaviorMap(paths))
  }

  predicate SameConfiguration(o: Origin, ing: CDNIngress, shortId: ShortId) {
    && o.host == ing.originHost && o.responseTimeout == TimeoutOf(ing.responseTimeout) && o.access == ing.originAccess
    && o.oac == if ing.originAccess == ACCESS_BUCKET then NewOAC(shortId, ing.group, ing.originHost) else NO_OAC
  }

  // ----- distributions

  function DefaultOrigin(domain: string): Origin {
    Origin(domain, [], DEFAULT_RESPONSE_TIMEOUT, ACCESS_PUBLIC, NO_OAC)
  }

  /** The domains of all Ingresses, each once, in the order in which they come. */
  function AppendMissing(domains: seq<string>, more: seq<string>): seq<string> {
    if more == [] then domains
    else
      var n := |more| - 1;
      var ds := AppendMissing(domains, more[..n]);
      if more[n] in ds then ds else ds + [more[n]]
  }

  function AlternateDomains(ings: seq<CDNIngress>): seq<string> {
    if ings == [] then []
    else
      var n := |ings| - 1;
      AppendMissing(AlternateDomains(ings[..n]), ings[n].alternateDomains)
  }

  predicate NoRepetition(s: seq<string>) {
    forall i, j :: 0 <= i < j < |s| ==> s[i] != s[j]
  }

  lemma {:induction false} AppendMissingMeaning(domains: seq<string>, more: seq<string>, x: string)
    ensures x in AppendMissing(domains, more) <==> x in domains || x in more
    ensures NoRepetition(domains) ==> NoRepetition(AppendMissing(domains, more))
  {
    if more != [] {
      var n := |more| - 1;
      AppendMissingMeaning(domains, more[..n], x);
      AppendMissingMeaning(domains, more[..n], more[n]);
      LastMember(more, x);
    }
  }

  /** What is there keeps its place, and domains come in the order in which they are added. */
  lemma {:induction false} AppendMissingOrder(domains: seq<string>, more: seq<string>, rest: seq<string>)
    ensures domains <= AppendMissing(domains, more)
    ensures AppendMissing(domains, more + rest) == AppendMissing(AppendMissing(domains, more), rest)
    decreases |more| + |rest|
  {
    if rest != [] {
      var n := |rest| - 1;
      assert (more + rest)[..|more| + n] == more + rest[..n];
      AppendMissingOrder(domains, more, rest[..n]);
    } else {
      assert more + rest == more;
      if more != [] {
        AppendMissingOrder(domains, more[..|more| - 1], []);
      }
    }
  }

  /** The distribution has the domains of all its Ingresses, and none twice. */
  lemma {:induction false} AlternateDomainsMeaning(ings: seq<CDNIngress>, x: string)
    ensures x in AlternateDomains(ings) <==> exists i :: i in ings && x in i.alternateDomains
    ensures NoRepetition(AlternateDomains(ings))
  {
    if ings != [] {
      var n := |ings| - 1;
      AlternateDomainsMeaning(ings[..n], x);
      AppendMissingMeaning(AlternateDomains(ings[..n]), ings[n].alternateDomains, x);
      assert ings == ings[..n] + [ings[n]];
    }
  }

  /** The origins by host: the last Ingress of a host decides its configuration. */
  ghost predicate OriginsFrom(m: map<string, Origin>, ings: seq<CDNIngress>, shared: Params, shortId: ShortId) {
    && (forall host :: host in m <==> ContributesHost(ings, host))
    && forall host :: host in m ==> OriginFor(m[host], LastFor(ings, host), PathsFromOrigin(shared, host), shortId)
  }

  predicate ContributesHost(ings: seq<CDNIngress>, host: string) {
    exists i :: 0 <= i < |ings| && ings[i].originHost == host
  }

  function LastFor(ings: seq<CDNIngress>, host: string): (ing: CDNIngress)
    requires ContributesHost(ings, host)
    ensures ing in ings && ing.originHost == host
  {
    var n := |ings| - 1;
    if ings[n].originHost == host then ings[n]
    else
      assert ContributesHost(ings[..n], host);
      LastFor(ings[..n], host)
  }

  predicate DistinctHosts(os: seq<Origin>) {
    forall i, j :: 0 <= i < j < |os| ==> os[i].host != os[j].host
  }

  /** os are the values of m, each once and in any order. */
  ghost predicate OriginsOf(os: seq<Origin>, m: map<string, Origin>) {
    DistinctHosts(os) && forall o :: o in os <==> o.host in m && m[o.host] == o
  }

  /** Two origins of one host with different parameters. */
  predicate Clashing(os: seq<Origin>) {
    exists i, j :: 0 <= i < j < |os| && os[i].host == os[j].host && !os[i].HasEqualParameters(os[j])
  }

  method ValidateOrigins(d: Distribution) returns (ok: bool)
    ensures ok <==> !Clashing([d.defaultOrigin] + d.customOrigins)
  {
    var origins := [d.defaultOrigin] + d.customOrigins;
    var existing: map<string, Origin> := map[];
    for i := 0 to |origins|
      invariant !Clashing(origins[..i])
      invariant forall k :: 0 <= k < i ==> origins[k].host in existing
      invariant forall h :: h in existing ==> existing[h] in origins[..i] && existing[h].host == h
    {
      var o := origins[i];
      if o.host in existing {
        if !existing[o.host].HasEqualParameters(o) {
          ClashFound(origins, i, existing[o.host]);
          return false;
        }
      }
      StillNoClash(origins, i, existing);
      existing := existing[o.host := o];
      assert origins[..i + 1] == origins[..i] + [o];
    }
    assert origins[..|origins|] == origins;
    return true;
  }

  lemma ClashFound(os: seq<Origin>, i: nat, o: Origin)
    requires i < |os| && o in os[..i] && o.host == os[i].host && !o.HasEqualParameters(os[i])
    ensures Clashing(os)
  {
    var k :| 0 <= k < i && os[k] == o;
  }

  lemma StillNoClash(os: seq<Origin>, i: nat, existing: map<string, Origin>)
    requires i < |os| && !Clashing(os[..i])
    requires forall k :: 0 <= k < i ==> os[k].host in existing
    requires forall h :: h in existing ==> existing[h] in os[..i] && existing[h].host == h
    requires os[i].host in existing ==> existing[os[i].host].HasEqualParameters(os[i])
    ensures !Clashing(os[..i + 1])
  {
    forall a, b | 0 <= a < b < i + 1 && os[a].host == os[b].host
      ensures os[a].HasEqualParameters(os[b])
    {
      if b < i {
        assert os[..i][a] == os[a] && os[..i][b] == os[b];
      } else {
        var c :| 0 <= c < i && os[..i][c] == existing[os[i].host];
        assert os[..i][a] == os[a];
        assert a < c ==> os[..i][a].HasEqualParameters(os[..i][c]);
        assert c < a ==> os[..i][c].HasEqualParameters(os[..i][a]);
      }
    }
  }

  /** One origin per host: the first of the host, with the behaviors of all. */
  function MergedByHost(os: seq<Origin>): map<string, Origin> {
    if os == [] then map[]
    else
      var n := |os| - 1;
      var m, o := MergedByHost(os[..n]), os[n];
      m[o.host := if o.host in m then m[o.host].(behaviors := m[o.host].behaviors + o.behaviors) else o]
  }

  /** The behaviors of the origins of a host, in their order. */
  function BehaviorsOf(os: seq<Origin>, host: string): seq<Behavior> {
    if os == [] then []
    else
      var n := |os| - 1;
      BehaviorsOf(os[..n], host) + if os[n].host == host then os[n].behaviors else []
  }

  predicate IsFirstOf(os: seq<Origin>, host: string, k: nat) {
    k < |os| && os[k].host == host && forall i :: 0 <= i < k ==> os[i].host != host
  }

  function FirstOf(os: seq<Origin>, host: string): (r: Option<Origin>)
    ensures r.None? ==> forall k :: 0 <= k < |os| ==> os[k].host != host
    ensures r.Some? ==> exists k: nat :: IsFirstOf(os, host, k) && os[k] == r.value
  {
    if os == [] then None
    else
      var n := |os| - 1;
      var first := FirstOf(os[..n], host);
      if first.Some? then
        var k: nat :| IsFirstOf(os[..n], host, k) && os[..n][k] == first.value;
        assert IsFirstOf(os, host, k);
        Some(os[k])
      else if os[n].host == host then
        assert forall i :: 0 <= i < n ==> os[i] == os[..n][i];
        assert IsFirstOf(os, host, n);
        Some(os[n])
      else
        assert forall i :: 0 <= i < n ==> os[i] == os[..n][i];
        None
  }

  /** Merging keeps every host once, with the settings of its first origin, and every behavior in its order. */
  lemma {:induction false} MergedByHostMeaning(os: seq<Origin>, host: string)
    ensures var (m, first) := (MergedByHost(os), FirstOf(os, host));
      && (host in m <==> first.Some?)
      && (first.Some? ==> m[host] == first.value.(behaviors := BehaviorsOf(os, host)))
      && (first.None? ==> BehaviorsOf(os, host) == [])
  {
    if os != [] {
      MergedByHostMeaning(os[..|os| - 1], host);
    }
  }

  /** Merges origins of one host; the iteration order over the result is arbitrary. */
  method MergeCustomOrigins(os: seq<Origin>) returns (merged: seq<Origin>)
    ensures OriginsOf(merged, MergedByHost(os))
    ensures DistinctHosts(os) ==> multiset(merged) == multiset(os)
  {
    var byHost: map<string, Origin> := map[];
    for i := 0 to |os|
      invariant byHost == MergedByHost(os[..i])
      invariant DistinctHosts(os) ==> OriginsOf(os[..i], byHost)
      invariant forall h :: h in byHost ==> byHost[h].host == h
    {
      var candidate := os[i];
      assert os[..i + 1][..i] == os[..i];
      if candidate.host !in byHost {
        if DistinctHosts(os) {
          OneMoreOrigin(os, i, byHost);
        }
        byHost := byHost[candidate.host := candidate];
      } else {
        var existing := byHost[candidate.host];
        byHost := byHost[existing.host := existing.(behaviors := existing.behaviors + candidate.behaviors)];
      }
    }
    merged := OriginSlice(byHost);
    assert os[..|os|] == os;
    if DistinctHosts(os) {
      NoDuplicatesSameElements(merged, os);
    }
  }

  lemma OneMoreOrigin(os: seq<Origin>, i: nat, m: map<string, Origin>)
    requires i < |os| && DistinctHosts(os) && OriginsOf(os[..i], m) && os[i].host !in m
    ensures OriginsOf(os[..i + 1], m[os[i].host := os[i]])
  {
    assert os[..i + 1] == os[..i] + [os[i]];
    assert forall o :: o in os[..i + 1] <==> o in os[..i] || o == os[i];
  }

  method OriginSlice(m: map<string, Origin>) returns (os: seq<Origin>)
    requires forall h :: h in m ==> m[h].host == h
    ensures OriginsOf(os, m)
  {
    os := [];
    var hosts := m.Keys;
    while hosts != {}
      invariant hosts <= m.Keys
      invariant OriginsOf(os, m - hosts)
      decreases |hosts|
    {
      var h :| h in hosts;
      AddOneOrigin(os, m, hosts, h);
      os := os + [m[h]];
      hosts := hosts - {h};
    }
    assert m - hosts == m;
  }

  lemma AddOneOrigin(os: seq<Origin>, m: map<string, Origin>, rest: set<string>, h: string)
    requires OriginsOf(os, m - rest) && h in rest && h in m && m[h].host == h
    ensures OriginsOf(os + [m[h]], m - (rest - {h}))
  {
    assert forall i :: 0 <= i < |os| ==> os[i] in os;
    assert forall o :: o in os + [m[h]] <==> o in os || o == m[h];
  }

  class DistributionBuilder {
    const group: string
    const defaultOriginDomain: string
    var id: string
    var arn: string
    var alternateDomains: seq<string>
    var customOrigins: map<string, Origin>
    var ipv6Enabled: bool
    var webACL: string

    constructor (group: string, defaultOriginDomain: string)
      ensures this.group == group && this.defaultOriginDomain == defaultOriginDomain
      ensures id == arn == webACL == "" && alternateDomains == [] && customOrigins == map[] && !ipv6Enabled
    {
      this.group := group;
      this.defaultOriginDomain := defaultOriginDomain;
      id, arn, webACL := "", "", "";
      alternateDomains, customOrigins, ipv6Enabled := [], map[], false;
    }

    method WithOrigin(o: Origin)
      modifies this`customOrigins
      ensures customOrigins == old(customOrigins)[o.host := o]
    {
      customOrigins := customOrigins[o.host := o];
    }

    method WithAlternateDomains(domains: seq<string>)
      modifies this`alternateDomains
      ensures alternateDomains == AppendMissing(old(alternateDomains), domains)
    {
      for i := 0 to |domains|
        invariant alternateDomains == AppendMissing(old(alternateDomains), domains[..i])
      {
        if domains[i] !in alternateDomains {
          alternateDomains := alternateDomains + [domains[i]];
        }
        assert domains[..i + 1][..i] == domains[..i];
      }
      assert domains[..|domains|] == domains;
    }

    method Build() returns (r: Result<Distribution>)
      requires forall h :: h in customOrigins ==> customOrigins[h].host == h
      ensures r.Err? <==> DefaultHostClash(customOrigins, defaultOriginDomain)
      ensures r.Err? ==> r.error == ConflictingOrigins
      ensures r.Ok? ==>
        && OriginsOf(r.value.customOrigins, customOrigins)
        && r.value == Distribution(id, arn, "", alternateDomains, r.value.customOrigins,
                                   DefaultOrigin(defaultOriginDomain), group, ipv6Enabled, webACL)
    {
      var os := OriginSlice(customOrigins);
      var d := Distribution(id, arn, "", alternateDomains, os, DefaultOrigin(defaultOriginDomain), group,
                            ipv6Enabled, webACL);
      ClashIsWithDefault(os, customOrigins, defaultOriginDomain);
      var ok := ValidateOrigins(d);
      if !ok {
        return Err(ConflictingOrigins);
      }
      var merged := MergeCustomOrigins(d.customOrigins);
      SameOrigins(merged, os, customOrigins);
      return Ok(d.(customOrigins := merged));
    }
  }

  lemma SameOrigins(merged: seq<Origin>, os: seq<Origin>, m: map<string, Origin>)
    requires OriginsOf(os, m) && multiset(merged) == multiset(os)
    ensures OriginsOf(merged, m)
  {
    forall o
      ensures o in merged <==> o in os
    {
      assert o in multiset(merged) <==> o in multiset(os);
    }
    forall i, j | 0 <= i < j < |merged|
      ensures merged[i].host != merged[j].host
    {
      if merged[i].host == merged[j].host {
        assert merged[i] in merged && merged[j] in merged;
        MultiplicityWithoutDuplicates(os, merged[i]);
        TwiceInMultiset(merged, i, j);
      }
    }
  }

  lemma TwiceInMultiset<T>(s: seq<T>, i: nat, j: nat)
    requires i < j < |s| && s[i] == s[j]
    ensures multiset(s)[s[i]] >= 2
  {
    assert s == s[..j] + s[j..];
    assert s[i] in s[..j] && s[j] in s[j..];
    assert multiset(s) == multiset(s[..j]) + multiset(s[j..]);
  }

  /** Only a custom origin on the default origin's host can clash, when it is not configured like the default. */
  predicate DefaultHostClash(m: map<string, Origin>, domain: string) {
    domain in m && !DefaultOrigin(domain).HasEqualParameters(m[domain])
  }

  lemma ClashIsWithDefault(os: seq<Origin>, m: map<string, Origin>, domain: string)
    requires OriginsOf(os, m)
    requires forall h :: h in m ==> m[h].host == h
    ensures Clashing([DefaultOrigin(domain)] + os) <==> DefaultHostClash(m, domain)
  {
    var first := DefaultOrigin(domain);
    var all := [first] + os;
    if DefaultHostClash(m, domain) {
      assert m[domain] in os;
      var k :| 0 <= k < |os| && os[k] == m[domain];
      assert all[0] == first && all[k + 1] == os[k];
    }
    if Clashing(all) {
      var i, j :| 0 <= i < j < |all| && all[i].host == all[j].host && !all[i].HasEqualParameters(all[j]);
      assert all[j] == os[j - 1];
      OnlyFirstClashes(first, os, i, j);
    }
  }

  lemma OnlyFirstClashes(first: Origin, os: seq<Origin>, i: nat, j: nat)
    requires DistinctHosts(os) && i < j < |os| + 1
    requires ([first] + os)[i].host == os[j - 1].host
    ensures i == 0
  {
  }

  /** What does not come from the Ingresses: configuration, and the existing distribution if there is one. */
  datatype Setting = Setting(
    group: string,
    defaultOriginDomain: string,
    ipv6Enabled: bool,
    existingID: string,
    existingARN: string,
    currentWebACL: string)

  /** The Ingresses' ACL, or else the one that an existing distribution has. */
  function DesiredWebACL(sharedACL: string, s: Setting): string {
    if sharedACL != "" then sharedACL
    else if s.existingARN != "" then s.currentWebACL
    else ""
  }

  method NewDistribution(ings: seq<CDNIngress>, shared: Params, s: Setting, shortId: ShortId)
    returns (r: Result<Distribution>)
    ensures DistributionFrom(r, ings, shared, s, shortId)
  {
    var b := new DistributionBuilder(s.group, s.defaultOriginDomain);
    for i := 0 to |ings|
      invariant OriginsFrom(b.customOrigins, ings[..i], shared, shortId)
      invariant b.alternateDomains == AlternateDomains(ings[..i])
      invariant b.id == b.arn == b.webACL == "" && !b.ipv6Enabled
    {
      var o := NewOrigin(ings[i], shared, shortId);
      ghost var before := b.customOrigins;
      b.WithOrigin(o);
      OneMoreIngress(before, ings, i, o, shared, shortId);
      b.WithAlternateDomains(ings[i].alternateDomains);
      assert ings[..i + 1][..i] == ings[..i];
    }
    assert ings[..|ings|] == ings;
    Configure(b, shared.webACL, s);
    r := b.Build();
  }

  /** The settings that do not come from single Ingresses. */
  method Configure(b: DistributionBuilder, sharedACL: string, s: Setting)
    requires b.id == b.arn == b.webACL == "" && !b.ipv6Enabled
    modifies b
    ensures b.customOrigins == old(b.customOrigins) && b.alternateDomains == old(b.alternateDomains)
    ensures b.ipv6Enabled == s.ipv6Enabled && b.webACL == DesiredWebACL(sharedACL, s)
    ensures b.id == (if s.existingARN != "" then s.existingID else "") && b.arn == s.existingARN
  {
    b.ipv6Enabled := s.ipv6Enabled;
    if |sharedACL| > 0 {
      b.webACL := sharedACL;
    } else if |s.existingARN| > 0 {
      if |s.currentWebACL| > 0 {
        b.webACL := s.currentWebACL;
      }
    }
    if |s.existingARN| > 0 {
      b.id, b.arn := s.existingID, s.existingARN;
    }
  }

  lemma OneMoreIngress(
    m: map<string, Origin>, ings: seq<CDNIngress>, i: nat, o: Origin, shared: Params, shortId: ShortId)
    requires i < |ings| && OriginsFrom(m, ings[..i], shared, shortId)
    requires OriginFor(o, ings[i], PathsFromOrigin(shared, ings[i].originHost), shortId)
    ensures OriginsFrom(m[o.host := o], ings[..i + 1], shared, shortId)
  {
    var next := ings[..i + 1];
    assert next[..i] == ings[..i] && next[i] == ings[i];
    forall host
      ensures ContributesHost(next, host) <==> ContributesHost(ings[..i], host) || host == o.host
    {
      ContributesOneMore(next, host);
    }
  }

  lemma ContributesOneMore(ings: seq<CDNIngress>, host: string)
    requires ings != []
    ensures var n := |ings| - 1;
      ContributesHost(ings, host) <==> ContributesHost(ings[..n], host) || ings[n].originHost == host
  {
    var n := |ings| - 1;
    assert forall k :: 0 <= k < n ==> ings[..n][k] == ings[k];
  }

  ghost predicate DistributionFrom(
    r: Result<Distribution>, ings: seq<CDNIngress>, shared: Params, s: Setting, shortId: ShortId)
  {
    if ClashesWithDefault(ings, s) then r == Err(ConflictingOrigins)
    else
      && r.Ok? && var d := r.value;
      && d.group == s.group && d.ipv6Enabled == s.ipv6Enabled && d.address == ""
      && d.defaultOrigin == DefaultOrigin(s.defaultOriginDomain)
      && d.id == (if s.existingARN != "" then s.existingID else "") && d.arn == s.existingARN
      && d.webACL == DesiredWebACL(shared.webACL, s)
      && d.alternateDomains == AlternateDomains(ings)
      && exists m :: OriginsFrom(m, ings, shared, shortId) && OriginsOf(d.customOrigins, m)
  }

  /** No Ingress after the k-th contributes its host. */
  predicate IsLast(ings: seq<CDNIngress>, k: nat) {
    k < |ings| && forall j :: k < j < |ings| ==> ings[j].originHost != ings[k].originHost
  }

  lemma {:induction false} LastForIsLast(ings: seq<CDNIngress>, k: nat)
    requires IsLast(ings, k)
    ensures ContributesHost(ings, ings[k].originHost) && LastFor(ings, ings[k].originHost) == ings[k]
    decreases |ings|
  {
    var n := |ings| - 1;
    if k < n {
      LastForIsLast(ings[..n], k);
    }
  }

  /** The last Ingress of a host decides the timeout and the access of the host's origin. */
  lemma LastIngressDecides(
    d: Distribution, ings: seq<CDNIngress>, shared: Params, s: Setting, shortId: ShortId, k: nat)
    returns (o: Origin)
    requires DistributionFrom(Ok(d), ings, shared, s, shortId) && IsLast(ings, k)
    ensures o in d.customOrigins && o.host == ings[k].originHost && o.access == ings[k].originAccess
    ensures o.responseTimeout == if ings[k].responseTimeout > 0 then ings[k].responseTimeout else 30
    ensures o.access == "Bucket" ==> o.oac.originName == o.host && o.oac.id == ""
  {
    var m :| OriginsFrom(m, ings, shared, shortId) && OriginsOf(d.customOrigins, m);
    LastForIsLast(ings, k);
    var host := ings[k].originHost;
    assert OriginFor(m[host], LastFor(ings, host), PathsFromOrigin(shared, host), shortId);
    o := m[host];
  }

  /** The Ingress sets up the default origin's host otherwise than the default origin is. */
  predicate Deviates(ing: CDNIngress, domain: string) {
    && ing.originHost == domain
    && !(ing.originAccess == "Public" && (ing.responseTimeout <= 0 || ing.responseTimeout == 30))
  }

  /** The default origin is public and waits 30 seconds; an Ingress can only have its host if it agrees. */
  lemma DefaultOriginDecides(
    r: Result<Distribution>, ings: seq<CDNIngress>, shared: Params, s: Setting, shortId: ShortId)
    requires DistributionFrom(r, ings, shared, s, shortId)
    ensures r.Err? <==> exists k: nat :: IsLast(ings, k) && Deviates(ings[k], s.defaultOriginDomain)
    ensures r.Ok? ==> r.value.defaultOrigin == Origin(s.defaultOriginDomain, [], 30, "Public", OAC("", "", ""))
  {
    var h := s.defaultOriginDomain;
    if k: nat :| IsLast(ings, k) && Deviates(ings[k], h) {
      LastForIsLast(ings, k);
    }
    if r.Err? {
      var k := LastOf(ings, h);
      LastForIsLast(ings, k);
      assert Deviates(ings[k], h);
    }
  }

  lemma {:induction false} LastOf(ings: seq<CDNIngress>, host: string) returns (k: nat)
    requires ContributesHost(ings, host)
    ensures IsLast(ings, k) && ings[k].originHost == host
  {
    var n := |ings| - 1;
    if ings[n].originHost == host {
      k := n;
    } else {
      ContributesOneMore(ings, host);
      k := LastOf(ings[..n], host);
    }
  }

  /** The deciding Ingress of the default host configures it unlike the default origin. */
  predicate ClashesWithDefault(ings: seq<CDNIngress>, s: Setting) {
    var h := s.defaultOriginDomain;
    ContributesHost(ings, h) && var ing := LastFor(ings, h);
    TimeoutOf(ing.responseTimeout) != DEFAULT_RESPONSE_TIMEOUT || ing.originAccess != ACCESS_PUBLIC
  }
}
