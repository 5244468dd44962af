/** What a successful reconciliation achieves, and that repeating it changes nothing. */
module ReconcilerConvergence {
  import opened Model
  import opened SharedParams
  import opened OriginAccess
  import opened Compiler
  import opened Zone
  import opened CdnStatuses
  import opened Ownership
  import opened Reconciler
  import opened AliasBookkeeping
  import opened ReconcilerRuns
  import opened AccessControlSafety
  import Cf = DistRepository

  /** After a reported success the tracked names are the normalized domains of the group's live Ingresses. */
  lemma SuccessTracksDesiredNames(w: World, e: Event, cfg: Config, after: World)
    requires e.k < |w.ingresses| && Step(w, e.k, e.cls, cfg, e.x, after, true)
    requires w.ingresses[e.k].HasGroup() && e.cls.createAlias
    requires AllAbsolute(Tracked(DnsOf(w, w.ingresses[e.k].group)))
    ensures var g := w.ingresses[e.k].group;
      Tracked(DnsOf(after, g)) ==
        if cfg.deletionEnabled || DesiredIngresses(w.ingresses, g) == [] then NamesOf(w, g)
        else Tracked(DnsOf(w, g)) + NamesOf(w, g)
  {
    var d := SuccessIsApplied(w, e, cfg, after);
    DesiredDomains(w, w.ingresses[e.k].group, cfg, d);
    TrackedAfterSuccess(w, e.k, e.cls, cfg, d, e.x);
  }

  lemma SuccessIsApplied(w: World, e: Event, cfg: Config, after: World) returns (d: Distribution)
    requires e.k < |w.ingresses| && Step(w, e.k, e.cls, cfg, e.x, after, true) && w.ingresses[e.k].HasGroup()
    ensures Desired(w, w.ingresses[e.k].group, cfg, Ok(d)) && (after, true) == Applied(w, e.k, e.cls, cfg, d, e.x)
  {
    var desired :|
      && (Computes(w, e.k, e.x) ==> Desired(w, w.ingresses[e.k].group, cfg, desired))
      && (after, true) == Reconciled(w, e.k, e.cls, cfg, desired, e.x);
    d := desired.value;
  }

  lemma TrackedAfterSuccess(w: World, k: nat, cls: Class, cfg: Config, d: Distribution, x: Circumstances)
    requires k < |w.ingresses| && Applied(w, k, cls, cfg, d, x).1 && cls.createAlias
    requires AllAbsolute(Tracked(DnsOf(w, w.ingresses[k].group)))
    ensures var g := w.ingresses[k].group;
      var (before, after) := (DnsOf(w, g), DnsOf(Applied(w, k, cls, cfg, d, x).0, g));
      Tracked(after) ==
        if d.IsEmpty() then {}
        else if cfg.deletionEnabled then DesiredNames(d) else Tracked(before) + DesiredNames(d)
  {
    var dist := DistStepOf(w, k, cfg, d, x);
    SuccessfulDist(w, k, cls, cfg, d, x);
    if cfg.deletionEnabled {
      TrackedConverges(w.zone, dist.status.dns, dist.dist, cls, x);
    } else {
      TrackedOnlyGrowsWithoutDeletion(w.zone, dist.status.dns, dist.dist, cls, x);
    }
  }

  /** What success says about the single steps. */
  lemma SuccessfulDist(w: World, k: nat, cls: Class, cfg: Config, d: Distribution, x: Circumstances)
    requires k < |w.ingresses| && Applied(w, k, cls, cfg, d, x).1
    ensures var dist := DistStepOf(w, k, cfg, d, x);
      && dist.ok && DnsStepOf(w.zone, dist, cls, cfg, x).ok
      && dist.dist.alternateDomains == d.alternateDomains
      && dist.status.dns == DnsOf(w, w.ingresses[k].group)
      && DnsOf(Applied(w, k, cls, cfg, d, x).0, w.ingresses[k].group)
         == if d.IsEmpty() then None else DnsStepOf(w.zone, dist, cls, cfg, x).dns
  {
    var i, dist := w.ingresses[k], DistStepOf(w, k, cfg, d, x);
    var dns := DnsStepOf(w.zone, dist, cls, cfg, x);
    var before := w.(cloud := dist.cloud, zone := dns.zone);
    SuccessfulFinish(before, k, d, dist.status.(dns := dns.dns), dist.ok && dns.ok, x);
    SyncDistResult(w.cloud, d, StatusOf(w, i.group), i.name, cfg.deletionEnabled, x);
  }

  lemma SuccessfulFinish(w: World, k: nat, d: Distribution, s: Status, synced: bool, x: Circumstances)
    requires k < |w.ingresses| && Finish(w, k, d, s, synced, x).1
    ensures synced
    ensures DnsOf(Finish(w, k, d, s, synced, x).0, w.ingresses[k].group) == if d.IsEmpty() then None else s.dns
  {
  }

  /**
   * With deletion disabled, a success in an emptied group leaves every record in the zone, and the distribution, but
   * forgets which names the group tracked.
   */
  lemma EmptiedGroupForgets(w: World, e: Event, cfg: Config, after: World)
    requires e.k < |w.ingresses| && Step(w, e.k, e.cls, cfg, e.x, after, true) && w.ingresses[e.k].HasGroup()
    requires !cfg.deletionEnabled && DesiredIngresses(w.ingresses, w.ingresses[e.k].group) == []
    ensures after.zone == w.zone && after.cloud == w.cloud && w.ingresses[e.k].group !in after.statuses
  {
    var g := w.ingresses[e.k].group;
    var d := SuccessIsApplied(w, e, cfg, after);
    DesiredDomains(w, g, cfg, d);
    AppliedCloud(w, e.k, e.cls, cfg, d, e.x);
    SuccessfulDist(w, e.k, e.cls, cfg, d, e.x);
    EmptyDeletesNothing(w.zone, DistStepOf(w, e.k, cfg, d, e.x), e.cls, cfg, e.x);
    EmptyStatusGoes(w, e.k, e.cls, cfg, d, e.x);
  }

  lemma EmptyDeletesNothing(z: ZoneMap, step: DistStep, cls: Class, cfg: Config, x: Circumstances)
    requires !cfg.deletionEnabled && step.dist.alternateDomains == []
    ensures DnsStepOf(z, step, cls, cfg, x).zone == z
  {
    assert UpsertingAliases(step.dist, cls).entries == [];
    assert DeletingAliases(step.status.dns, step.dist, cls, false).entries == [];
  }

  lemma EmptyStatusGoes(w: World, k: nat, cls: Class, cfg: Config, d: Distribution, x: Circumstances)
    requires k < |w.ingresses| && Applied(w, k, cls, cfg, d, x).1 && d.IsEmpty()
    ensures w.ingresses[k].group !in Applied(w, k, cls, cfg, d, x).0.statuses
  {
  }

  // ----- a second reconciliation

  /** No call of a second reconciliation fails. */
  predicate Calm(d: Distribution, dist: Distribution, dns: Option<DNSStatus>, cls: Class, y: Circumstances) {
    && !y.parse && !y.list && !y.findDist && !y.fetchConfig && !y.getStatus
    && !y.updateIngress && !y.createStatus && !y.updateStatus && !y.deleteStatus
    && !y.dist.getConfig && !y.dist.update && !y.dist.tag && |Cf.DesiredOACs(d.customOrigins)| <= y.dist.oacSyncs
    && AliasBookkeeping.Undisturbed(dns, dist, cls, true, y)
  }

  /** The desired distribution of a second reconciliation that finds the origins in the same order. */
  function Again(d: Distribution, identity: Cf.Identity): Distribution {
    d.(id := identity.id, arn := identity.arn)
  }

  /** Both ways of bringing a distribution about end in a synchronisation that finds it. */
  lemma UpsertIsSync(c: Cf.Cloud, d: Distribution, enabled: bool, x: Circumstances)
    returns (c0: Cf.Cloud, d0: Distribution)
    requires UpsertDist(c, d, enabled, x).1.Some? && (d.Exists() ==> Cf.Present(c, d))
    ensures Cf.SyncOutcome(c0, d0, enabled, x.ids, x.dist) == UpsertDist(c, d, enabled, x)
    ensures c0.oacs == c.oacs && Cf.Present(c0, d0)
    ensures d0 == d.(id := d0.id, arn := d0.arn, address := d0.address)
    ensures c0.dists[d0.group].identity == if d.Exists() then c.dists[d.group].identity else x.born
  {
    if d.Exists() {
      c0, d0 := c, d;
    } else {
      c0 := c.(dists := c.dists[d.group := Cf.RemoteDist(x.born, Cf.NewConfig(d))]);
      d0 := d.(id := x.born.id, arn := x.born.arn, address := x.born.address);
    }
  }

  /** Creating or updating a distribution leaves it as it is desired. */
  lemma UpsertSettlesCloud(c: Cf.Cloud, d: Distribution, x: Circumstances, shortId: ShortId)
    requires WellBuilt(d, shortId) && DistinctOACs(c.oacs) && FreshIds(c.oacs, x.ids)
    requires UpsertDist(c, d, true, x).1.Some? && (d.Exists() ==> Cf.Present(c, d))
    ensures var (after, r) := UpsertDist(c, d, true, x);
      && SettledCloud(after, r.value, shortId) && r.value.group == d.group
      && var me := after.dists[d.group].identity;
      && me == (if d.Exists() then c.dists[d.group].identity else x.born)
      && r.value == Again(d, me).(address := me.address)
      && after.dists[d.group].config.webACL == d.webACL
  {
    var c0, d0 := UpsertIsSync(c, d, true, x);
    SyncSettles(c0, d0, true, x.ids, x.dist, shortId);
    SyncedIdentity(c0, d0, true, x.ids, x.dist);
    var (after, r) := UpsertDist(c, d, true, x);
    SettledIgnoresIdentity(after, d0, r.value, shortId);
  }

  lemma SettledIgnoresIdentity(c: Cf.Cloud, d: Distribution, e: Distribution, shortId: ShortId)
    requires SettledCloud(c, d, shortId) && e == d.(arn := e.arn, address := e.address)
    ensures SettledCloud(c, e, shortId)
  {
    assert Cf.NewConfig(e) == Cf.NewConfig(d);
  }

  /** A synchronisation of what was just created or updated, in any order, changes nothing but that order. */
  lemma SecondUpsert(
    c: Cf.Cloud, d: Distribution, x: Circumstances, e: Distribution, y: Circumstances, shortId: ShortId)
    requires WellBuilt(d, shortId) && DistinctOACs(c.oacs) && FreshIds(c.oacs, x.ids)
    requires UpsertDist(c, d, true, x).1.Some? && (d.Exists() ==> Cf.Present(c, d))
    requires FreshIds(UpsertDist(c, d, true, x).0.oacs, y.ids)
    requires SameButForOrder(d, e) && e.id == UpsertDist(c, d, true, x).1.value.id
    requires !y.dist.getConfig && !y.dist.update && !y.dist.tag && |Cf.DesiredOACs(d.customOrigins)| <= y.dist.oacSyncs
    ensures var (after, r) := UpsertDist(c, d, true, x);
      var (again, s) := Cf.SyncOutcome(after, e, true, y.ids, y.dist);
      && SameCloud(d.group, after, again)
      && s == Some(e.(id := r.value.id, arn := r.value.arn, address := r.value.address))
  {
    UpsertSettlesCloud(c, d, x, shortId);
    var (after, r) := UpsertDist(c, d, true, x);
    SettledInAnyOrder(after, r.value, true, shortId, e, y.ids, y.dist);
  }

  /** Equal but for the order of the origins, and for the behaviors, of the group's distribution. */
  predicate SameCloud(g: string, c: Cf.Cloud, again: Cf.Cloud) {
    && again.oacs == c.oacs && again.dists.Keys == c.dists.Keys
    && (forall h :: h in c.dists && h != g ==> again.dists[h] == c.dists[h])
    && (g in c.dists ==>
        again.dists[g].identity == c.dists[g].identity && SameConfig(c.dists[g].config, again.dists[g].config))
  }

  /** The desired state is computed alike, once the distribution exists: with the same order of origins, for one. */
  lemma DesiredAgain(w: World, after: World, g: string, cfg: Config, d: Distribution)
    requires Desired(w, g, cfg, Ok(d))
    requires DesiredIngresses(after.ingresses, g) == DesiredIngresses(w.ingresses, g)
    requires g in after.cloud.dists && after.cloud.dists[g].identity.arn != ""
    requires after.cloud.dists[g].config.webACL == d.webACL
    ensures Desired(after, g, cfg, Ok(Again(d, after.cloud.dists[g].identity)))
  {
    var ings := DesiredIngresses(w.ingresses, g);
    var shared :| SharedFrom(ings, shared) &&
      if shared.Err? then Ok(d) == Err(shared.error)
      else DistributionFrom(Ok(d), ings, shared.value, SettingOf(w, g, cfg), cfg.shortId);
    var me := after.cloud.dists[g].identity;
    DistributionAgain(d, ings, shared.value, SettingOf(w, g, cfg), me, cfg.shortId);
    assert SettingOf(after, g, cfg) == SettingAgain(SettingOf(w, g, cfg), me, d.webACL);
  }

  /** What is set once a distribution with this identity and web ACL exists. */
  function SettingAgain(s: Setting, identity: Cf.Identity, webACL: string): Setting {
    s.(existingID := identity.id, existingARN := identity.arn, currentWebACL := webACL)
  }

  lemma DistributionAgain(
    d: Distribution, ings: seq<CDNIngress>, shared: Params, s: Setting, identity: Cf.Identity, shortId: ShortId)
    requires DistributionFrom(Ok(d), ings, shared, s, shortId) && identity.arn != ""
    ensures DistributionFrom(Ok(Again(d, identity)), ings, shared, SettingAgain(s, identity, d.webACL), shortId)
  {
    var t, e := SettingAgain(s, identity, d.webACL), Again(d, identity);
    assert !ClashesWithDefault(ings, t);
    var m :| OriginsFrom(m, ings, shared, shortId) && OriginsOf(d.customOrigins, m);
    assert OriginsOf(e.customOrigins, m);
  }

  /** Whatever is computed then differs in the order of the origins at most. */
  lemma DesiredInAnyOrder(w: World, after: World, g: string, cfg: Config, d: Distribution, r: Result<Distribution>)
    requires Desired(w, g, cfg, Ok(d)) && Desired(after, g, cfg, r)
    requires DesiredIngresses(after.ingresses, g) == DesiredIngresses(w.ingresses, g)
    requires g in after.cloud.dists && after.cloud.dists[g].identity.arn != ""
    requires after.cloud.dists[g].config.webACL == d.webACL
    ensures r.Ok? && SameButForOrder(d, r.value)
    ensures r.value.id == after.cloud.dists[g].identity.id && r.value.arn == after.cloud.dists[g].identity.arn
  {
    var ings := DesiredIngresses(w.ingresses, g);
    var shared :| SharedFrom(ings, shared) &&
      if shared.Err? then Ok(d) == Err(shared.error)
      else DistributionFrom(Ok(d), ings, shared.value, SettingOf(w, g, cfg), cfg.shortId);
    var again :| SharedFrom(ings, again) &&
      if again.Err? then r == Err(again.error)
      else DistributionFrom(r, ings, again.value, SettingOf(after, g, cfg), cfg.shortId);
    SameSharedACL(ings, shared.value, again);
    DistributionInAnyOrder(
      d, r, ings, shared.value, again.value, SettingOf(w, g, cfg), after.cloud.dists[g].identity, cfg.shortId);
  }

  lemma SameSharedACL(ings: seq<CDNIngress>, shared: Params, again: Result<Params>)
    requires SharedFrom(ings, Ok(shared)) && SharedFrom(ings, again)
    ensures again.Ok? && again.value.webACL == shared.webACL
  {
    assert again.value.webACL != "" ==> again.value.webACL in ACLs(ings);
    assert shared.webACL != "" ==> shared.webACL in ACLs(ings);
  }

  lemma DistributionInAnyOrder(
    d: Distribution, r: Result<Distribution>, ings: seq<CDNIngress>, shared: Params, again: Params, s: Setting,
    identity: Cf.Identity, shortId: ShortId)
    requires DistributionFrom(Ok(d), ings, shared, s, shortId) && identity.arn != ""
    requires again.webACL == shared.webACL
    requires DistributionFrom(r, ings, again, SettingAgain(s, identity, d.webACL), shortId)
    ensures r.Ok? && SameButForOrder(d, r.value) && r.value.id == identity.id && r.value.arn == identity.arn
  {
    assert !ClashesWithDefault(ings, SettingAgain(s, identity, d.webACL));
    var m :| OriginsFrom(m, ings, shared, shortId) && OriginsOf(d.customOrigins, m);
    var n :| OriginsFrom(n, ings, again, shortId) && OriginsOf(r.value.customOrigins, n);
    OriginsAlike(m, d.customOrigins, n, r.value.customOrigins, ings, shared, again, shortId);
    OriginsAlike(n, r.value.customOrigins, m, d.customOrigins, ings, again, shared, shortId);
  }

  lemma OriginsAlike(
    m: map<string, Origin>, os: seq<Origin>, n: map<string, Origin>, ps: seq<Origin>,
    ings: seq<CDNIngress>, shared: Params, again: Params, shortId: ShortId)
    requires OriginsFrom(m, ings, shared, shortId) && OriginsOf(os, m)
    requires OriginsFrom(n, ings, again, shortId) && OriginsOf(ps, n)
    ensures forall o :: o in os ==> HasLike(ps, o)
  {
    forall o | o in os
      ensures HasLike(ps, o)
    {
      assert OriginFor(m[o.host], LastFor(ings, o.host), PathsFromOrigin(shared, o.host), shortId);
      assert OriginFor(n[o.host], LastFor(ings, o.host), PathsFromOrigin(again, o.host), shortId);
      assert n[o.host] in ps && SameSettings(o, n[o.host]);
    }
  }

  /** Gaining its finalizer does not change what a live Ingress of a group asks for. */
  lemma {:induction false} FinalizerIsNotDesired(ingresses: seq<Ingress>, k: nat, group: string, present: bool)
    requires k < |ingresses| && ingresses[k].HasGroup()
    ensures DesiredIngresses(ingresses[k := ingresses[k].(finalizer := present)], group) ==
      DesiredIngresses(ingresses, group)
    decreases |ingresses|
  {
    var n := |ingresses| - 1;
    var changed := ingresses[k := ingresses[k].(finalizer := present)];
    if k < n {
      assert changed[..n] == ingresses[..n][k := ingresses[k].(finalizer := present)];
      FinalizerIsNotDesired(ingresses[..n], k, group, present);
    } else {
      assert changed[..n] == ingresses[..n];
    }
  }

  /** What a successful reconciliation of a live Ingress leaves behind. */
  lemma AppliedToLive(w: World, k: nat, cls: Class, cfg: Config, d: Distribution, x: Circumstances)
    requires k < |w.ingresses| && Applied(w, k, cls, cfg, d, x).1
    requires !d.IsEmpty() && !w.ingresses[k].deleting && w.ingresses[k].HasGroup()
    ensures var (after, i, dist) := (Applied(w, k, cls, cfg, d, x).0, w.ingresses[k], DistStepOf(w, k, cfg, d, x));
      && UpsertDist(w.cloud, d, cfg.deletionEnabled, x) == (after.cloud, Some(dist.dist))
      && after.ingresses == w.ingresses[k := i.(finalizer := true)]
      && after.statuses == w.statuses[i.group := dist.status.(dns := DnsStepOf(w.zone, dist, cls, cfg, x).dns)]
      && NotedIn(after.statuses[i.group], i.name, dist.dist)
  {
  }

  /** The status has all that a successful distribution step notes, about the distribution and about the Ingress. */
  predicate NotedIn(s: Status, ref: string, dist: Distribution) {
    s == WithIngress(s, ref) && NotedDist(s, dist)
  }

  predicate NotedDist(s: Status, dist: Distribution) {
    s == s.(id := dist.id, arn := dist.arn, address := dist.address, aliases := dist.alternateDomains)
  }

  function WithIngress(s: Status, ref: string): Status {
    s.(ingresses := s.ingresses[ref := SYNCED_INGRESS_STATUS])
  }

  /** The k-th Ingress is noted as synchronised and has its finalizer. */
  function Noted(w: World, k: nat): World
    requires k < |w.ingresses| && w.ingresses[k].group in w.statuses
  {
    var i := w.ingresses[k];
    WithFinalizer(w, k, true).(statuses := w.statuses[i.group := WithIngress(w.statuses[i.group], i.name)])
  }

  /** An alias step, if the class has one, succeeds and changes nothing. */
  predicate AliasesSettled(z: ZoneMap, dns: Option<DNSStatus>, dist: Distribution, cls: Class, y: Circumstances) {
    cls.createAlias ==> SyncAliases(z, dns, dist, cls, true, y) == DnsStep(z, dns, true)
  }

  lemma AliasesSettle(z: ZoneMap, step: DistStep, cls: Class, cfg: Config, x: Circumstances, y: Circumstances)
    requires cfg.deletionEnabled && DnsStepOf(z, step, cls, cfg, x).ok
    requires SingleOwners(z) && AllAbsolute(Tracked(step.status.dns))
    requires AliasBookkeeping.Undisturbed(DnsStepOf(z, step, cls, cfg, x).dns, step.dist, cls, true, y)
    ensures var dns := DnsStepOf(z, step, cls, cfg, x); AliasesSettled(dns.zone, dns.dns, step.dist, cls, y)
  {
    if cls.createAlias {
      SecondSyncChangesNothing(z, step.status.dns, step.dist, cls, x, y);
      var once := SyncAliases(z, step.status.dns, step.dist, cls, true, x);
      assert once == DnsStep(once.zone, once.dns, true);
    }
  }

  lemma SettledAlike(
    z: ZoneMap, dns: Option<DNSStatus>, dist: Distribution, again: Distribution, cls: Class, y: Circumstances)
    requires AliasesSettled(z, dns, dist, cls, y)
    requires again == dist.(customOrigins := again.customOrigins)
    ensures AliasesSettled(z, dns, again, cls, y)
  {
  }

  /** Applying the desired distribution to a world that is already as desired, but for the order of the origins. */
  lemma ApplyToSettled(
    after: World, k: nat, cls: Class, cfg: Config, e: Distribution, dist: Distribution, cloud: Cf.Cloud,
    y: Circumstances)
    requires k < |after.ingresses| && cfg.deletionEnabled
    requires !e.IsEmpty() && e.Exists() && !after.ingresses[k].deleting && after.ingresses[k].HasGroup()
    requires after.ingresses[k].group in after.statuses
    requires !y.updateIngress && !y.updateStatus
    requires Cf.SyncOutcome(after.cloud, e, true, y.ids, y.dist) == (cloud, Some(dist))
    requires NotedDist(after.statuses[after.ingresses[k].group], dist)
    requires AliasesSettled(after.zone, after.statuses[after.ingresses[k].group].dns, dist, cls, y)
    ensures Applied(after, k, cls, cfg, e, y) == (Noted(after, k).(cloud := cloud), true)
  {
    var i := after.ingresses[k];
    var s := after.statuses[i.group];
    assert StatusText(true) == SYNCED_INGRESS_STATUS;
    assert DistStepOf(after, k, cfg, e, y) == DistStep(cloud, dist, WithIngress(s, i.name), true);
  }

  /** A live Ingress was reconciled with success, from a state that AWS and the controller can have got to. */
  ghost predicate Reconciles(w: World, k: nat, cls: Class, cfg: Config, d: Distribution, x: Circumstances) {
    && k < |w.ingresses| && w.ingresses[k].HasGroup() && !w.ingresses[k].deleting && cfg.deletionEnabled
    && Desired(w, w.ingresses[k].group, cfg, Ok(d)) && !d.IsEmpty() && Applied(w, k, cls, cfg, d, x).1
    && WellBuilt(d, cfg.shortId) && DistinctOACs(w.cloud.oacs) && FreshIds(w.cloud.oacs, x.ids)
    && Identified(w.cloud) && BornIdentified(x)
    && SingleOwners(w.zone) && AllAbsolute(Tracked(DnsOf(w, w.ingresses[k].group)))
  }

  /** No call of another reconciliation right after it fails. */
  ghost predicate CalmAfter(
    w: World, k: nat, cls: Class, cfg: Config, d: Distribution, x: Circumstances, y: Circumstances)
    requires k < |w.ingresses|
  {
    var dist := DistStepOf(w, k, cfg, d, x);
    && FreshIds(Applied(w, k, cls, cfg, d, x).0.cloud.oacs, y.ids)
    && Calm(d, dist.dist, DnsStepOf(w.zone, dist, cls, cfg, x).dns, cls, y)
  }

  /** The j-th Ingress belongs to the group and is not being deleted. */
  predicate Live(w: World, j: nat, g: string) {
    j < |w.ingresses| && w.ingresses[j].group == g && !w.ingresses[j].deleting
  }

  /**
   * After a successful reconciliation of a live Ingress, with deletion enabled, every other in which no call fails,
   * of this or another live Ingress of the group, succeeds. It leaves the zone exactly as it is, Kubernetes but for
   * noting the reconciled Ingress, and CloudFront but for the order of the origins of the group's distribution and
   * for its behaviors, which are compiled from the same Ingresses again.
   */
  lemma SecondReconciliationChangesNothing(
    w: World, k: nat, cls: Class, cfg: Config, d: Distribution, x: Circumstances, j: nat, y: Circumstances,
    again: World, ok: bool)
    requires Reconciles(w, k, cls, cfg, d, x) && CalmAfter(w, k, cls, cfg, d, x, y)
    requires Live(w, j, w.ingresses[k].group)
    requires var after := Applied(w, k, cls, cfg, d, x).0;
      j < |after.ingresses| && Step(after, j, cls, cfg, y, again, ok)
    ensures var (g, after) := (w.ingresses[k].group, Applied(w, k, cls, cfg, d, x).0);
      && ok && g in after.statuses && after.ingresses[j].group == g
      && again == Noted(after, j).(cloud := again.cloud) && SameCloud(g, after.cloud, again.cloud)
  {
    var after := Applied(w, k, cls, cfg, d, x).0;
    AfterReconciling(w, k, cls, cfg, d, x);
    var e := CalmStep(w, after, j, cls, cfg, d, y, again, ok);
    var dist := AfterIsSettled(w, k, cls, cfg, d, x, y);
    UpsertSettlesCloud(w.cloud, d, x, cfg.shortId);
    SecondApplication(w.cloud, after, j, cls, cfg, d, dist, x, e, y);
  }

  /** For the same Ingress there is nothing left to note. */
  lemma NothingToNote(w: World, k: nat, cls: Class, cfg: Config, d: Distribution, x: Circumstances)
    requires Reconciles(w, k, cls, cfg, d, x)
    ensures var after := Applied(w, k, cls, cfg, d, x).0;
      k < |after.ingresses| && after.ingresses[k].group in after.statuses && Noted(after, k) == after
  {
    AppliedToLive(w, k, cls, cfg, d, x);
    var after := Applied(w, k, cls, cfg, d, x).0;
    NotedTwice(after, k, DistStepOf(w, k, cfg, d, x).dist);
  }

  lemma NotedTwice(w: World, k: nat, dist: Distribution)
    requires k < |w.ingresses| && w.ingresses[k].finalizer && w.ingresses[k].group in w.statuses
    requires NotedIn(w.statuses[w.ingresses[k].group], w.ingresses[k].name, dist)
    ensures Noted(w, k) == w
  {
    var i := w.ingresses[k];
    assert w.ingresses[k := i.(finalizer := true)] == w.ingresses;
    assert w.statuses[i.group := w.statuses[i.group]] == w.statuses;
  }

  /** And there is such a reconciliation. */
  lemma SecondReconciliationHappens(
    w: World, k: nat, cls: Class, cfg: Config, d: Distribution, x: Circumstances, j: nat, y: Circumstances)
    returns (again: World, ok: bool)
    requires Reconciles(w, k, cls, cfg, d, x) && Live(w, j, w.ingresses[k].group)
    ensures var after := Applied(w, k, cls, cfg, d, x).0;
      j < |after.ingresses| && Step(after, j, cls, cfg, y, again, ok)
  {
    var g, after := w.ingresses[k].group, Applied(w, k, cls, cfg, d, x).0;
    AfterReconciling(w, k, cls, cfg, d, x);
    DesiredAgain(w, after, g, cfg, d);
    var desired := Ok(Again(d, after.cloud.dists[g].identity));
    var r := Reconciled(after, j, cls, cfg, desired, y);
    again, ok := r.0, r.1;
    assert (again, ok) == r;
  }

  /** What a second reconciliation finds. */
  lemma AfterReconciling(w: World, k: nat, cls: Class, cfg: Config, d: Distribution, x: Circumstances)
    requires Reconciles(w, k, cls, cfg, d, x)
    ensures var (g, after) := (w.ingresses[k].group, Applied(w, k, cls, cfg, d, x).0);
      && after.ingresses == w.ingresses[k := w.ingresses[k].(finalizer := true)]
      && DesiredIngresses(after.ingresses, g) == DesiredIngresses(w.ingresses, g)
      && d.group == g && g in after.cloud.dists
      && (d.Exists() ==> Cf.Present(w.cloud, d))
      && after.cloud.dists[g].identity.id != "" && after.cloud.dists[g].identity.arn != ""
      && after.cloud.dists[g].config.webACL == d.webACL
  {
    var g := w.ingresses[k].group;
    DesiredDomains(w, g, cfg, d);
    AppliedToLive(w, k, cls, cfg, d, x);
    UpsertSettlesCloud(w.cloud, d, x, cfg.shortId);
    FinalizerIsNotDesired(w.ingresses, k, g, true);
  }

  lemma CalmStep(
    w: World, after: World, k: nat, cls: Class, cfg: Config, d: Distribution, y: Circumstances, again: World, ok: bool)
    returns (e: Distribution)
    requires k < |after.ingresses| && after.ingresses[k].HasGroup()
    requires Desired(w, after.ingresses[k].group, cfg, Ok(d))
    requires var g := after.ingresses[k].group;
      && DesiredIngresses(after.ingresses, g) == DesiredIngresses(w.ingresses, g)
      && g in after.cloud.dists && after.cloud.dists[g].identity.id != "" && after.cloud.dists[g].identity.arn != ""
      && after.cloud.dists[g].config.webACL == d.webACL
    requires !y.parse && !y.list && !y.findDist && !y.fetchConfig && !y.getStatus
    requires Step(after, k, cls, cfg, y, again, ok)
    ensures SameButForOrder(d, e) && e.Exists()
    ensures e.id == after.cloud.dists[after.ingresses[k].group].identity.id
    ensures (again, ok) == Applied(after, k, cls, cfg, e, y)
  {
    var g := after.ingresses[k].group;
    var desired :|
      && (Computes(after, k, y) ==> Desired(after, g, cfg, desired))
      && (again, ok) == Reconciled(after, k, cls, cfg, desired, y);
    DesiredInAnyOrder(w, after, g, cfg, d, desired);
    e := desired.value;
  }

  /** after is a world in which c was brought to what d asks for, as dist. */
  lemma SecondApplication(
    c: Cf.Cloud, after: World, k: nat, cls: Class, cfg: Config, d: Distribution, dist: Distribution, x: Circumstances,
    e: Distribution, y: Circumstances)
    requires k < |after.ingresses| && cfg.deletionEnabled
    requires WellBuilt(d, cfg.shortId) && DistinctOACs(c.oacs) && FreshIds(c.oacs, x.ids)
    requires (d.Exists() ==> Cf.Present(c, d)) && !d.IsEmpty()
    requires UpsertDist(c, d, true, x) == (after.cloud, Some(dist))
    requires var i := after.ingresses[k];
      && !i.deleting && i.HasGroup() && i.group in after.statuses && NotedDist(after.statuses[i.group], dist)
      && AliasesSettled(after.zone, after.statuses[i.group].dns, dist, cls, y)
    requires SameButForOrder(d, e) && e.Exists() && e.id == dist.id
    requires !y.updateIngress && !y.updateStatus && FreshIds(after.cloud.oacs, y.ids)
    requires !y.dist.getConfig && !y.dist.update && !y.dist.tag && |Cf.DesiredOACs(d.customOrigins)| <= y.dist.oacSyncs
    ensures var (again, ok) := Applied(after, k, cls, cfg, e, y);
      ok && again == Noted(after, k).(cloud := again.cloud) && SameCloud(d.group, after.cloud, again.cloud)
  {
    UpsertSettlesCloud(c, d, x, cfg.shortId);
    SecondUpsert(c, d, x, e, y, cfg.shortId);
    var (cloud, s) := Cf.SyncOutcome(after.cloud, e, true, y.ids, y.dist);
    SettledAlike(after.zone, after.statuses[after.ingresses[k].group].dns, dist, s.value, cls, y);
    NonEmptyInAnyOrder(d, e);
    ApplyToSettled(after, k, cls, cfg, e, s.value, cloud, y);
  }

  lemma NonEmptyInAnyOrder(d: Distribution, e: Distribution)
    requires SameButForOrder(d, e) && !d.IsEmpty()
    ensures !e.IsEmpty()
  {
    assert HasLike(e.customOrigins, d.customOrigins[0]);
  }

  lemma AfterIsSettled(w: World, k: nat, cls: Class, cfg: Config, d: Distribution, x: Circumstances, y: Circumstances)
    returns (dist: Distribution)
    requires Reconciles(w, k, cls, cfg, d, x) && CalmAfter(w, k, cls, cfg, d, x, y)
    ensures var (after, i) := (Applied(w, k, cls, cfg, d, x).0, w.ingresses[k]);
      && UpsertDist(w.cloud, d, true, x) == (after.cloud, Some(dist))
      && after.ingresses == w.ingresses[k := i.(finalizer := true)]
      && i.group in after.statuses && NotedIn(after.statuses[i.group], i.name, dist)
      && AliasesSettled(after.zone, after.statuses[i.group].dns, dist, cls, y)
  {
    var step := DistStepOf(w, k, cfg, d, x);
    dist := step.dist;
    AppliedToLive(w, k, cls, cfg, d, x);
    SuccessfulDist(w, k, cls, cfg, d, x);
    AppliedCloud(w, k, cls, cfg, d, x);
    AliasesSettle(w.zone, step, cls, cfg, x, y);
  }
}
