/** What CloudFront holds after a successful reconciliation, and how it routes requests. */
module DeployedRouting {
  import opened GoStrings
  import opened Model
  import opened Specificity
  import opened Glob
  import opened PathRules
  import opened Functions
  import opened SharedParams
  import opened OriginAccess
  import opened Compiler
  import opened CompiledBehaviors
  import opened AccessControlSafety
  import opened Reconciler
  import opened DesiredState
  import opened ReconcilerRuns
  import opened ReconcilerConvergence
  import Cf = DistRepository

  /** The distribution of the group holds a compilation of the Ingresses. */
  ghost predicate HoldsCompiled(c: Cf.Cloud, g: string, ings: seq<CDNIngress>, bs: seq<Behavior>) {
    g in c.dists && CompiledFrom(bs, ings) && c.dists[g].config.behaviors == Cf.NewCacheBehaviors(bs)
  }

  // ----- a synchronisation writes the behaviors of its distribution

  lemma SyncWrites(c: Cf.Cloud, d: Distribution, enabled: bool, ids: Cf.IdSource, f: Cf.Faults)
    requires Cf.SyncOutcome(c, d, enabled, ids, f).1.Some?
    ensures var after := Cf.SyncOutcome(c, d, enabled, ids, f).0;
      d.group in after.dists && after.dists[d.group].config == Cf.WrittenConfig(c, d, ids)
  {
    var remote := c.dists[d.group];
    var synced := c.(oacs := Cf.SyncAll(c.oacs, Cf.DesiredOACs(d.customOrigins), ids).0);
    var written := synced.(dists := synced.dists[d.group := remote.(config := Cf.WrittenConfig(c, d, ids))]);
    DeleteAllKeepsDists(written, Cf.ObsoleteOACs(remote.config.origins, d), enabled, f.oacDeletes);
  }

  function WrittenBehaviors(d: Distribution): seq<Behavior> {
    SortedBehaviors(Gathered(d.customOrigins))
  }

  lemma UpsertWrites(c: Cf.Cloud, d: Distribution, enabled: bool, x: Circumstances)
    requires UpsertDist(c, d, enabled, x).1.Some? && (d.Exists() ==> Cf.Present(c, d))
    ensures var after := UpsertDist(c, d, enabled, x).0;
      d.group in after.dists && Writes(after.dists[d.group].config, d)
  {
    var c0, d0 := UpsertIsSync(c, d, enabled, x);
    SyncWrites(c0, d0, enabled, x.ids, x.dist);
    WrittenWrites(c0, d0, x.ids);
    WritesAlike(Cf.WrittenConfig(c0, d0, x.ids), d0, d);
  }

  lemma WrittenWrites(c: Cf.Cloud, d: Distribution, ids: Cf.IdSource)
    ensures Writes(Cf.WrittenConfig(c, d, ids), d)
  {
    WrittenIds(c, d, ids);
    var config, built := Cf.WrittenConfig(c, d, ids), Cf.NewConfig(d);
    assert Cf.SameButForOAC(built.origins[0], config.origins[0]);
    forall k | 0 <= k < |d.customOrigins|
      ensures WritesOrigin(config.origins[k + 1], d.customOrigins[k])
    {
      assert Cf.SameButForOAC(built.origins[k + 1], config.origins[k + 1]);
      assert built.origins[k + 1] == Cf.NewAwsOrigin(d.customOrigins[k]);
    }
  }

  /** What is written does not depend on the identity. */
  lemma WritesAlike(config: Cf.DistConfig, d: Distribution, e: Distribution)
    requires Writes(config, d) && e == d.(id := e.id, arn := e.arn, address := e.address)
    ensures Writes(config, e)
  {
    assert WrittenBehaviors(d) == WrittenBehaviors(e);
  }

  /** The configuration is switched on and says what the distribution asks for, access controls aside. */
  predicate Writes(config: Cf.DistConfig, d: Distribution) {
    && config.enabled && config.ipv6Enabled == d.ipv6Enabled
    && config.aliases == d.alternateDomains && config.webACL == d.webACL
    && config.behaviors == Cf.NewCacheBehaviors(WrittenBehaviors(d))
    && |config.origins| == |d.customOrigins| + 1 && WritesOrigin(config.origins[0], d.defaultOrigin)
    && forall k :: 0 <= k < |d.customOrigins| ==> WritesOrigin(config.origins[k + 1], d.customOrigins[k])
  }

  /** Only public origins have a timeout. */
  predicate WritesOrigin(a: Cf.AwsOrigin, o: Origin) {
    a.id == o.host && a.readTimeout == if o.access == "Public" then Some(o.responseTimeout) else None
  }

  lemma DesiredIsCompiled(w: World, g: string, cfg: Config, d: Distribution)
    requires Desired(w, g, cfg, Ok(d))
    ensures CompiledFrom(WrittenBehaviors(d), DesiredIngresses(w.ingresses, g))
  {
    var ings, bs := DesiredIngresses(w.ingresses, g), WrittenBehaviors(d);
    var shared :| SharedFrom(ings, shared) &&
      if shared.Err? then Ok(d) == Err(shared.error)
      else DistributionFrom(Ok(d), ings, shared.value, SettingOf(w, g, cfg), cfg.shortId);
    SortedIsPermutation(Gathered(d.customOrigins));
    if AllValid(bs) {
      PermutationStaysValid(bs, Gathered(d.customOrigins));
      SortedIsOrdered(Gathered(d.customOrigins));
    }
    CompilationIsFaithful(bs, ings, shared.value, d, SettingOf(w, g, cfg), cfg.shortId);
  }

  // ----- after a success

  /** A success in a group that is not empty leaves CloudFront with a compilation of the group's live Ingresses. */
  lemma SuccessDeploysIngresses(w: World, e: Event, cfg: Config, after: World) returns (bs: seq<Behavior>)
    requires e.k < |w.ingresses| && Step(w, e.k, e.cls, cfg, e.x, after, true) && w.ingresses[e.k].HasGroup()
    requires Identified(w.cloud) && DesiredIngresses(w.ingresses, w.ingresses[e.k].group) != []
    ensures var g := w.ingresses[e.k].group;
      && HoldsCompiled(after.cloud, g, DesiredIngresses(w.ingresses, g), bs)
      && DeploysFields(after.cloud.dists[g].config, w.ingresses, g, cfg)
  {
    var g := w.ingresses[e.k].group;
    var d := SuccessIsApplied(w, e, cfg, after);
    DesiredDomains(w, g, cfg, d);
    DesiredIsCompiled(w, g, cfg, d);
    bs := WrittenBehaviors(d);
    AppliedWrites(w, e.k, e.cls, cfg, d, e.x);
    WritingDeploysFields(w, g, cfg, d, after.cloud.dists[g].config);
  }

  lemma AppliedWrites(w: World, k: nat, cls: Class, cfg: Config, d: Distribution, x: Circumstances)
    requires k < |w.ingresses| && Applied(w, k, cls, cfg, d, x).1 && !d.IsEmpty()
    requires d.Exists() ==> Cf.Present(w.cloud, d)
    ensures var after := Applied(w, k, cls, cfg, d, x).0;
      d.group in after.cloud.dists && Writes(after.cloud.dists[d.group].config, d)
  {
    SuccessfulDist(w, k, cls, cfg, d, x);
    AppliedCloud(w, k, cls, cfg, d, x);
    UpsertWrites(w.cloud, d, cfg.deletionEnabled, x);
  }

  // ----- what that means in terms of the fields of Ingresses

  /** The Ingress, itself or by a user-supplied origin, has the domain. */
  predicate HasDomain(i: Ingress, x: string) {
    x in i.alternateDomains || exists u :: u in i.userOrigins && x in u.alternateDomains
  }

  /** The Ingress, itself or by a user-supplied origin, brings the host. */
  predicate HasHost(i: Ingress, host: string) {
    i.originHost == host || exists u :: u in i.userOrigins && u.originHost == host
  }

  /** The Ingress, itself or by a user-supplied origin, has a path of the host that is written as the pattern. */
  ghost predicate HasPattern(i: Ingress, host: string, pattern: string) {
    || (i.originHost == host && exists p :: p in i.paths && WrittenAs(p.pathPattern, p.pathType, pattern))
    || (exists u :: u in i.userOrigins && UserPattern(u, host, pattern))
  }

  ghost predicate UserPattern(u: CDNIngress, host: string, pattern: string) {
    u.originHost == host && exists p :: p in u.unmergedPaths && WrittenAs(p.pathPattern, p.pathType, pattern)
  }

  predicate Routes(cs: seq<CacheBehavior>, host: string, pattern: string) {
    exists c :: c in cs && c.targetOriginId == host && c.pathPattern == pattern
  }

  predicate GroupHasDomain(ingresses: seq<Ingress>, g: string, x: string) {
    exists i :: i in ingresses && IsLive(i, g) && HasDomain(i, x)
  }

  predicate GroupHasHost(ingresses: seq<Ingress>, g: string, host: string) {
    exists i :: i in ingresses && IsLive(i, g) && HasHost(i, host)
  }

  ghost predicate GroupHasPattern(ingresses: seq<Ingress>, g: string, host: string, pattern: string) {
    exists i :: i in ingresses && IsLive(i, g) && HasPattern(i, host, pattern)
  }

  predicate ListsHost(os: seq<Cf.AwsOrigin>, host: string) {
    exists o :: o in os && o.id == host
  }

  ghost predicate DeploysDomains(aliases: seq<string>, ingresses: seq<Ingress>, g: string) {
    NoRepetition(aliases) && forall x :: x in aliases <==> GroupHasDomain(ingresses, g, x)
  }

  predicate DeploysWebACL(webACL: string, ingresses: seq<Ingress>, g: string) {
    forall i :: i in ingresses && IsLive(i, g) && i.webACL != "" ==> webACL == i.webACL
  }

  ghost predicate DeploysHosts(os: seq<Cf.AwsOrigin>, ingresses: seq<Ingress>, g: string, domain: string) {
    && os != [] && os[0].id == domain
    && forall host :: ListsHost(os[1..], host) <==> GroupHasHost(ingresses, g, host)
  }

  ghost predicate DeploysPatterns(cs: seq<CacheBehavior>, ingresses: seq<Ingress>, g: string) {
    forall host, pattern :: Routes(cs, host, pattern) <==> GroupHasPattern(ingresses, g, host, pattern)
  }

  /** Public origins wait 30 seconds unless their Ingress says otherwise. */
  function ReadTimeout(ing: CDNIngress): Option<int> {
    if ing.originAccess != "Public" then None else Some(if ing.responseTimeout > 0 then ing.responseTimeout else 30)
  }

  /** The last Ingress of a host decides how long CloudFront waits for its origin. */
  ghost predicate DeploysTimeouts(os: seq<Cf.AwsOrigin>, ings: seq<CDNIngress>) {
    && os != [] && os[0].readTimeout == Some(30)
    && forall a, k: nat :: a in os[1..] && IsLast(ings, k) && ings[k].originHost == a.id ==>
         a.readTimeout == ReadTimeout(ings[k])
  }

  /** The configuration is switched on, and has exactly what the live Ingresses of the group ask for. */
  ghost predicate DeploysFields(config: Cf.DistConfig, ingresses: seq<Ingress>, g: string, cfg: Config) {
    && config.enabled && config.ipv6Enabled == cfg.ipv6Enabled
    && DeploysDomains(config.aliases, ingresses, g)
    && DeploysWebACL(config.webACL, ingresses, g)
    && DeploysHosts(config.origins, ingresses, g, cfg.defaultOriginDomain)
    && DeploysTimeouts(config.origins, DesiredIngresses(ingresses, g))
    && DeploysPatterns(config.behaviors, ingresses, g)
  }

  lemma WritingDeploysFields(w: World, g: string, cfg: Config, d: Distribution, config: Cf.DistConfig)
    requires Desired(w, g, cfg, Ok(d)) && Writes(config, d)
    ensures DeploysFields(config, w.ingresses, g, cfg)
  {
    DesiredDomains(w, g, cfg, d);
    DomainsDeployed(w.ingresses, g);
    WebACLDeployed(w, g, cfg, d);
    HostsDesired(w, g, cfg, d);
    HostsDeployed(w.ingresses, g, cfg, d, config);
    TimeoutsDesired(w, g, cfg, d, config);
    DesiredIsCompiled(w, g, cfg, d);
    PatternsDeployed(w.ingresses, g, WrittenBehaviors(d));
  }

  lemma DomainsDeployed(ingresses: seq<Ingress>, g: string)
    ensures DeploysDomains(AlternateDomains(DesiredIngresses(ingresses, g)), ingresses, g)
  {
    var ings := DesiredIngresses(ingresses, g);
    AlternateDomainsMeaning(ings, "");
    forall x
      ensures x in AlternateDomains(ings) <==> GroupHasDomain(ingresses, g, x)
    {
      AlternateDomainsMeaning(ings, x);
      if c :| c in ings && x in c.alternateDomains {
        var i := Contributor(ingresses, g, c);
        assert HasDomain(i, x);
      }
      if i :| i in ingresses && IsLive(i, g) && HasDomain(i, x) {
        var own := OwnContribution(ingresses, g, i);
        if x !in i.alternateDomains {
          var u :| u in i.userOrigins && x in u.alternateDomains;
          UserContribution(ingresses, g, i, u);
        }
      }
    }
  }

  lemma Contributor(ingresses: seq<Ingress>, g: string, c: CDNIngress) returns (i: Ingress)
    requires c in DesiredIngresses(ingresses, g)
    ensures i in ingresses && IsLive(i, g) && Contributes(i, c)
  {
    DesiredMembers(ingresses, g, c);
    i :| i in ingresses && IsLive(i, g) && Contributes(i, c);
  }

  lemma OwnContribution(ingresses: seq<Ingress>, g: string, i: Ingress) returns (c: CDNIngress)
    requires i in ingresses && IsLive(i, g)
    ensures c in DesiredIngresses(ingresses, g) && AsksFor(i, c)
  {
    c := CDNIngress(
      i.name, i.group, i.originHost, i.paths, i.webACL, i.alternateDomains, i.responseTimeout, "Public", false);
    DesiredMembers(ingresses, g, c);
  }

  lemma UserContribution(ingresses: seq<Ingress>, g: string, i: Ingress, u: CDNIngress)
    requires i in ingresses && IsLive(i, g) && u in i.userOrigins
    ensures u in DesiredIngresses(ingresses, g)
  {
    DesiredMembers(ingresses, g, u);
  }

  lemma WebACLDeployed(w: World, g: string, cfg: Config, d: Distribution)
    requires Desired(w, g, cfg, Ok(d))
    ensures DeploysWebACL(d.webACL, w.ingresses, g)
  {
    DesiredACL(w, g, cfg, d);
    forall i | i in w.ingresses && IsLive(i, g) && i.webACL != ""
      ensures d.webACL == i.webACL
    {
      var c := OwnContribution(w.ingresses, g, i);
      var ings := DesiredIngresses(w.ingresses, g);
      var k :| 0 <= k < |ings| && ings[k] == c;
      assert c.unmergedWebACL in AnnotatedACLs(w, g);
    }
  }

  /** The custom origins are those of the hosts that the desired Ingresses bring. */
  ghost predicate OriginsOfHosts(d: Distribution, ings: seq<CDNIngress>) {
    forall host :: ContributesHost(ings, host) <==> d.HasOrigin(host)
  }

  lemma HostsDeployed(ingresses: seq<Ingress>, g: string, cfg: Config, d: Distribution, config: Cf.DistConfig)
    requires OriginsOfHosts(d, DesiredIngresses(ingresses, g)) && d.defaultOrigin.host == cfg.defaultOriginDomain
    requires Writes(config, d)
    ensures DeploysHosts(config.origins, ingresses, g, cfg.defaultOriginDomain)
  {
    forall host
      ensures ListsHost(config.origins[1..], host) <==> GroupHasHost(ingresses, g, host)
    {
      HostsListed(config, d, host);
      HostsContributed(ingresses, g, host);
    }
  }

  lemma HostsListed(config: Cf.DistConfig, d: Distribution, host: string)
    requires Writes(config, d)
    ensures ListsHost(config.origins[1..], host) <==> d.HasOrigin(host)
  {
    var os := config.origins[1..];
    if o :| o in os && o.id == host {
      var k :| 0 <= k < |os| && os[k] == o;
      assert d.customOrigins[k].host == host;
    }
    if k :| 0 <= k < |d.customOrigins| && d.customOrigins[k].host == host {
      assert os[k] in os && os[k].id == host;
    }
  }

  lemma HostsContributed(ingresses: seq<Ingress>, g: string, host: string)
    ensures ContributesHost(DesiredIngresses(ingresses, g), host) <==> GroupHasHost(ingresses, g, host)
  {
    var ings := DesiredIngresses(ingresses, g);
    if n :| 0 <= n < |ings| && ings[n].originHost == host {
      var i := Contributor(ingresses, g, ings[n]);
      assert HasHost(i, host);
    }
    if i :| i in ingresses && IsLive(i, g) && HasHost(i, host) {
      var c := OwnContribution(ingresses, g, i);
      if i.originHost != host {
        c :| c in i.userOrigins && c.originHost == host;
        UserContribution(ingresses, g, i, c);
      }
      var n :| 0 <= n < |ings| && ings[n] == c;
    }
  }

  lemma HostsDesired(w: World, g: string, cfg: Config, d: Distribution)
    requires Desired(w, g, cfg, Ok(d))
    ensures d.defaultOrigin.host == cfg.defaultOriginDomain
    ensures OriginsOfHosts(d, DesiredIngresses(w.ingresses, g))
  {
    var ings := DesiredIngresses(w.ingresses, g);
    var shared :| SharedFrom(ings, shared) &&
      if shared.Err? then Ok(d) == Err(shared.error)
      else DistributionFrom(Ok(d), ings, shared.value, SettingOf(w, g, cfg), cfg.shortId);
    HostsCompiled(d, ings, shared.value, SettingOf(w, g, cfg), cfg.shortId);
  }

  lemma HostsCompiled(d: Distribution, ings: seq<CDNIngress>, shared: Params, s: Setting, shortId: ShortId)
    requires DistributionFrom(Ok(d), ings, shared, s, shortId)
    ensures d.defaultOrigin.host == s.defaultOriginDomain && OriginsOfHosts(d, ings)
  {
    var m :| OriginsFrom(m, ings, shared, shortId) && OriginsOf(d.customOrigins, m);
    forall host
      ensures ContributesHost(ings, host) <==> d.HasOrigin(host)
    {
      if ContributesHost(ings, host) {
        assert OriginFor(m[host], LastFor(ings, host), PathsFromOrigin(shared, host), shortId);
        assert m[host] in d.customOrigins;
        var k :| 0 <= k < |d.customOrigins| && d.customOrigins[k] == m[host];
      }
      if k :| 0 <= k < |d.customOrigins| && d.customOrigins[k].host == host {
        assert d.customOrigins[k] in d.customOrigins;
      }
    }
  }

  lemma TimeoutsDesired(w: World, g: string, cfg: Config, d: Distribution, config: Cf.DistConfig)
    requires Desired(w, g, cfg, Ok(d)) && Writes(config, d)
    ensures DeploysTimeouts(config.origins, DesiredIngresses(w.ingresses, g))
  {
    var ings, s := DesiredIngresses(w.ingresses, g), SettingOf(w, g, cfg);
    var shared :| SharedFrom(ings, shared) &&
      if shared.Err? then Ok(d) == Err(shared.error)
      else DistributionFrom(Ok(d), ings, shared.value, s, cfg.shortId);
    DefaultOriginDecides(Ok(d), ings, shared.value, s, cfg.shortId);
    forall a, k: nat | a in config.origins[1..] && IsLast(ings, k) && ings[k].originHost == a.id
      ensures a.readTimeout == ReadTimeout(ings[k])
    {
      var o := LastIngressDecides(d, ings, shared.value, s, cfg.shortId, k);
      OriginOfHost(d, config, a, o);
    }
  }

  /** The hosts of a compiled distribution differ. */
  lemma OriginOfHost(d: Distribution, config: Cf.DistConfig, a: Cf.AwsOrigin, o: Origin)
    requires DistinctHosts(d.customOrigins) && Writes(config, d)
    requires a in config.origins[1..] && o in d.customOrigins && a.id == o.host
    ensures WritesOrigin(a, o)
  {
    var j :| 0 <= j < |d.customOrigins| && config.origins[j + 1] == a;
    var k :| 0 <= k < |d.customOrigins| && d.customOrigins[k] == o;
    assert WritesOrigin(a, d.customOrigins[j]);
  }

  lemma PatternsDeployed(ingresses: seq<Ingress>, g: string, bs: seq<Behavior>)
    requires CompiledFrom(bs, DesiredIngresses(ingresses, g))
    ensures DeploysPatterns(Cf.NewCacheBehaviors(bs), ingresses, g)
  {
    var ings := DesiredIngresses(ingresses, g);
    forall host, pattern
      ensures Routes(Cf.NewCacheBehaviors(bs), host, pattern) <==> GroupHasPattern(ingresses, g, host, pattern)
    {
      CompiledPairsAreWritten(ings, bs, host, pattern);
      RoutesLikeBehaviors(bs, host, pattern);
      if c, p :| PathOf(ings, c, p) && c.originHost == host && WrittenAs(p.pathPattern, p.pathType, pattern) {
        var i := Contributor(ingresses, g, c);
        assert c in i.userOrigins ==> UserPattern(c, host, pattern);
        assert HasPattern(i, host, pattern);
      }
      if i :| i in ingresses && IsLive(i, g) && HasPattern(i, host, pattern) {
        var c := OwnContribution(ingresses, g, i);
        if u :| u in i.userOrigins && UserPattern(u, host, pattern) {
          UserContribution(ingresses, g, i, u);
          c := u;
        }
        var p :| p in c.unmergedPaths && WrittenAs(p.pathPattern, p.pathType, pattern);
        assert PathOf(ings, c, p);
      }
    }
  }

  lemma RoutesLikeBehaviors(bs: seq<Behavior>, host: string, pattern: string)
    ensures Routes(Cf.NewCacheBehaviors(bs), host, pattern) <==> HasBehavior(bs, host, pattern)
  {
    var cs := Cf.NewCacheBehaviors(bs);
    if c :| c in cs && c.targetOriginId == host && c.pathPattern == pattern {
      var k :| 0 <= k < |cs| && cs[k] == c;
      assert Serves(bs[k], host, pattern) && bs[k] in bs;
    }
    if b :| b in bs && Serves(b, host, pattern) {
      var k :| 0 <= k < |bs| && bs[k] == b;
      assert cs[k] in cs;
    }
  }

  // ----- how it routes

  /** CloudFront serves a request by the first cache behavior whose pattern matches it. */
  function ServingBehavior(cs: seq<CacheBehavior>, req: string): Option<CacheBehavior> {
    if cs == [] then None
    else if Matches(cs[0].pathPattern, req) then Some(cs[0])
    else ServingBehavior(cs[1..], req)
  }

  /** A distribution that is switched off serves nothing. */
  function Serving(config: Cf.DistConfig, req: string): Option<CacheBehavior> {
    if config.enabled then ServingBehavior(config.behaviors, req) else None
  }

  lemma {:induction false} ServingIsFirstMatch(bs: seq<Behavior>, req: string)
    ensures ServingBehavior(Cf.NewCacheBehaviors(bs), req) ==
      if FirstMatch(bs, req).None? then None else Some(CacheBehaviorOf(FirstMatch(bs, req).value))
  {
    if bs != [] {
      assert Cf.NewCacheBehaviors(bs)[1..] == Cf.NewCacheBehaviors(bs[1..]);
      ServingIsFirstMatch(bs[1..], req);
    }
  }

  /** The cache behavior is for the host of a rule that Kubernetes prefers, with a pattern written for its path. */
  ghost predicate RoutesToBest(rules: set<Rule>, c: CacheBehavior, req: string) {
    exists r :: Best(rules, r, req) && c.targetOriginId == r.host && WrittenAs(r.path, r.pathType, c.pathPattern)
  }

  /** The live Ingresses of the group have paths of Kubernetes' types that are plain, and other paths that are UTF-8. */
  ghost predicate Routable(w: World, g: string) {
    var all := RulesOf(DesiredIngresses(w.ingresses, g));
    && (forall r :: r in KubernetesRules(all) ==> Plain(r)) && TiedRulesShareHost(KubernetesRules(all))
    && forall r :: r in all && !OfKubernetes(r) ==> ValidUtf8(r.path)
  }

  /**
   * After a success CloudFront serves a request by none exactly if no Exact or Prefix path matches it, and no other
   * path as a pattern. Requests that no path of another type matches are routed as Kubernetes does, but for
   * trailing-slash clashes.
   */
  lemma DeployedRoutingMeetsKubernetes(w: World, e: Event, cfg: Config, after: World, req: string)
    requires e.k < |w.ingresses| && Step(w, e.k, e.cls, cfg, e.x, after, true) && w.ingresses[e.k].HasGroup()
    requires Identified(w.cloud) && DesiredIngresses(w.ingresses, w.ingresses[e.k].group) != []
    requires Routable(w, w.ingresses[e.k].group) && HasPrefix(req, "/")
    ensures w.ingresses[e.k].group in after.cloud.dists
    ensures var all := RulesOf(DesiredIngresses(w.ingresses, w.ingresses[e.k].group));
      var served := Serving(after.cloud.dists[w.ingresses[e.k].group].config, req);
      && (served.None? <==>
          forall r :: r in all ==> if OfKubernetes(r) then !RuleMatches(r, req) else !Matches(r.path, req))
      && (served.Some? && (forall r :: r in all && !OfKubernetes(r) ==> !Matches(r.path, req)) ==>
          (RoutesToBest(KubernetesRules(all), served.value, req) <==> !TrailingSlashClash(KubernetesRules(all), req)))
  {
    var g := w.ingresses[e.k].group;
    var ings := DesiredIngresses(w.ingresses, g);
    var bs := SuccessDeploysIngresses(w, e, cfg, after);
    RoutingOfAllTypes(RulesOf(ings), bs, req);
    ServingIsFirstMatch(bs, req);
    if FirstMatch(bs, req).Some? && forall r :: r in RulesOf(ings) && !OfKubernetes(r) ==> !Matches(r.path, req) {
      CompiledRoutingMeetsKubernetes(ings, bs, req);
      RoutesLike(KubernetesRules(RulesOf(ings)), FirstMatch(bs, req).value, req);
    }
  }

  lemma RoutesLike(rules: set<Rule>, b: Behavior, req: string)
    ensures RoutesToBest(rules, CacheBehaviorOf(b), req) <==> ServedByBest(rules, b, req)
  {
    if r :| Best(rules, r, req) && b.originHost == r.host && WrittenAs(r.path, r.pathType, b.pathPattern) {
      PatternsAreWritten(r, b.pathPattern);
      assert Belongs(b, r);
    }
    if r :| Best(rules, r, req) && Belongs(b, r) {
      PatternsAreWritten(r, b.pathPattern);
      assert CacheBehaviorOf(b).targetOriginId == r.host;
    }
  }

  /**
   * A path of another type serves every request that it matches as a pattern, from its host, if no other behavior
   * with a matching pattern sorts at or before it.
   */
  lemma DeployedOtherPathServes(w: World, e: Event, cfg: Config, after: World, r: Rule, req: string)
    requires e.k < |w.ingresses| && Step(w, e.k, e.cls, cfg, e.x, after, true) && w.ingresses[e.k].HasGroup()
    requires Identified(w.cloud) && DesiredIngresses(w.ingresses, w.ingresses[e.k].group) != []
    requires Routable(w, w.ingresses[e.k].group)
    requires r in RulesOf(DesiredIngresses(w.ingresses, w.ingresses[e.k].group)) && r.pathType != "Prefix"
    requires Matches(r.path, req)
    ensures var g := w.ingresses[e.k].group;
      && g in after.cloud.dists
      && var config := after.cloud.dists[g].config;
      && Routes(config.behaviors, r.host, r.path)
      && ((forall c :: c in config.behaviors && Matches(c.pathPattern, req) && InOrder(c.pathPattern, r.path) ==>
             c.targetOriginId == r.host && c.pathPattern == r.path) ==>
          && Serving(config, req).Some?
          && Serving(config, req).value.targetOriginId == r.host && Serving(config, req).value.pathPattern == r.path)
  {
    var g := w.ingresses[e.k].group;
    var ings := DesiredIngresses(w.ingresses, g);
    var bs := SuccessDeploysIngresses(w, e, cfg, after);
    var cs := after.cloud.dists[g].config.behaviors;
    assert r.path in PatternsOf(r);
    assert HasBehavior(bs, r.host, r.path);
    RoutesLikeBehaviors(bs, r.host, r.path);
    CompiledIsOrdered(bs, w, g);
    ServingIsFirstMatch(bs, req);
    if forall c :: c in cs && Matches(c.pathPattern, req) && InOrder(c.pathPattern, r.path) ==>
      c.targetOriginId == r.host && c.pathPattern == r.path
    {
      forall b | b in bs && Matches(b.pathPattern, req) && InOrder(b.pathPattern, r.path)
        ensures Serves(b, r.host, r.path)
      {
        var k :| 0 <= k < |bs| && bs[k] == b;
        assert cs[k] in cs;
      }
      OtherPathServes(RulesOf(ings), bs, r, req);
    }
  }

  lemma CompiledIsOrdered(bs: seq<Behavior>, w: World, g: string)
    requires CompiledFrom(bs, DesiredIngresses(w.ingresses, g)) && Routable(w, g)
    ensures Ordered(bs)
  {
    forall b | b in bs
      ensures ValidUtf8(b.pathPattern)
    {
      var r :| r in RulesOf(DesiredIngresses(w.ingresses, g)) && Belongs(b, r);
      if OfKubernetes(r) {
        assert r in KubernetesRules(RulesOf(DesiredIngresses(w.ingresses, g)));
        PlainPatternIsValid(r, b.pathPattern);
      }
    }
  }

  // ----- after a second success

  /** Every pattern comes from one path of one host. */
  ghost predicate Unambiguous(bs: seq<Behavior>, ings: seq<CDNIngress>) {
    && DistinctPatterns(bs)
    && forall b :: b in bs ==> exists key :: OnlyKey(Mentions(ings), b.originHost, key, b.pathPattern)
  }

  /**
   * The behaviors after a second reconciliation, of this or another live Ingress of the group, are the same if the
   * patterns are ASCII and each comes from one path.
   */
  lemma SecondReconciliationKeepsBehaviors(
    w: World, k: nat, cls: Class, cfg: Config, d: Distribution, x: Circumstances, j: nat, y: Circumstances,
    again: World, ok: bool)
    requires Reconciles(w, k, cls, cfg, d, x) && CalmAfter(w, k, cls, cfg, d, x, y)
    requires Live(w, j, w.ingresses[k].group)
    requires var after := Applied(w, k, cls, cfg, d, x).0;
      j < |after.ingresses| && Step(after, j, cls, cfg, y, again, ok)
    requires Unambiguous(WrittenBehaviors(d), DesiredIngresses(w.ingresses, w.ingresses[k].group))
    requires forall b :: b in WrittenBehaviors(d) ==> Ascii(b.pathPattern)
    ensures var (g, after) := (w.ingresses[k].group, Applied(w, k, cls, cfg, d, x).0);
      && g in again.cloud.dists && g in after.cloud.dists
      && again.cloud.dists[g].config.behaviors == after.cloud.dists[g].config.behaviors
  {
    var g, after := w.ingresses[k].group, Applied(w, k, cls, cfg, d, x).0;
    var ings := DesiredIngresses(w.ingresses, g);
    AfterReconciling(w, k, cls, cfg, d, x);
    DesiredIsCompiled(w, g, cfg, d);
    AppliedWrites(w, k, cls, cfg, d, x);
    SecondReconciliationChangesNothing(w, k, cls, cfg, d, x, j, y, again, ok);
    DesiredDomains(w, g, cfg, d);
    IdentifiedAfterwards(w, k, cls, cfg, d, x);
    var cs := SuccessDeploysIngresses(after, Event(j, cls, y), cfg, again);
    CompiledIsUnique(ings, WrittenBehaviors(d), cs);
  }

  lemma IdentifiedAfterwards(w: World, k: nat, cls: Class, cfg: Config, d: Distribution, x: Circumstances)
    requires Reconciles(w, k, cls, cfg, d, x)
    ensures Identified(Applied(w, k, cls, cfg, d, x).0.cloud)
  {
    var i := w.ingresses[k];
    AppliedCloud(w, k, cls, cfg, d, x);
    SyncDistChange(w.cloud, d, StatusOf(w, i.group), i.name, cfg.deletionEnabled, x);
  }

  lemma CompiledIsUnique(ings: seq<CDNIngress>, bs: seq<Behavior>, cs: seq<Behavior>)
    requires CompiledFrom(bs, ings) && CompiledFrom(cs, ings) && Unambiguous(bs, ings)
    requires forall b :: b in bs ==> Ascii(b.pathPattern)
    ensures bs == cs
  {
    CompiledPatternsAreUnique(ings, ings, bs, cs);
    assert |bs| == |Patterns(bs)| == |Patterns(cs)| == |cs|;
    forall k | 0 <= k < |bs|
      ensures bs[k] == cs[k]
    {
      assert Patterns(bs)[k] == Patterns(cs)[k];
      SameHost(ings, bs, cs, k);
      assert bs[k] in bs && cs[k] in cs;
      var key :| OnlyKey(Mentions(ings), bs[k].originHost, key, bs[k].pathPattern);
      OnlyFunctions(ings, bs[k], key);
      OnlyFunctions(ings, cs[k], key);
      var fa :| JoinOf(fa, Mentions(ings), bs[k].originHost, key) && bs[k].functions == FunctionsOf(fa);
      var fb :| JoinOf(fb, Mentions(ings), bs[k].originHost, key) && cs[k].functions == FunctionsOf(fb);
      JoinIsUnique(fa, fb, Mentions(ings), bs[k].originHost, key);
    }
  }

  lemma SameHost(ings: seq<CDNIngress>, bs: seq<Behavior>, cs: seq<Behavior>, k: nat)
    requires CompiledFrom(bs, ings) && CompiledFrom(cs, ings) && DistinctPatterns(bs)
    requires k < |bs| == |cs| && bs[k].pathPattern == cs[k].pathPattern
    ensures bs[k].originHost == cs[k].originHost
  {
    var x := (cs[k].originHost, cs[k].pathPattern);
    assert Pairs(cs)[k] == x;
    PairsAreExpansions(cs, RulesOf(ings), x);
    PairsAreExpansions(bs, RulesOf(ings), x);
    var i :| 0 <= i < |bs| && Pairs(bs)[i] == x;
    assert bs[i].pathPattern == bs[k].pathPattern;
  }

  lemma OnlyFunctions(ings: seq<CDNIngress>, b: Behavior, key: PathKey)
    requires CarriesMergedFunctions(b, Mentions(ings))
    requires OnlyKey(Mentions(ings), b.originHost, key, b.pathPattern)
    ensures exists fa :: JoinOf(fa, Mentions(ings), b.originHost, key) && b.functions == FunctionsOf(fa)
  {
    var ps: seq<Path> :|
      MergedPathsOf(ps, Mentions(ings), b.originHost, b.pathPattern) && b.functions == AllFunctions(ps);
    OnlyPath(ps, Mentions(ings), b, key);
  }
}
