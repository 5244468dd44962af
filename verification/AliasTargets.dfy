/** Where the names of a distribution point. */
module AliasTargets {
  import opened Model
  import opened Compiler
  import opened Zone
  import opened CdnStatuses
  import opened Ownership
  import opened Reconciler
  import opened AliasBookkeeping
  import opened ReconcilerRuns
  import opened ReconcilerConvergence
  import Dns = AliasRepository
  import Cf = DistRepository

  /** A simple alias record for CloudFront's hosted zone, to the address. */
  predicate PointsTo(z: ZoneMap, name: string, t: string, address: string) {
    Key(name, t) in z &&
    var r := z[Key(name, t)];
    && r.routing.Simple? && r.aliasTarget.Some? && r.values == []
    && r.aliasTarget.value.dnsName == address
    && r.aliasTarget.value.hostedZoneId == "Z2FDTNDATAQYW2"
    && !r.aliasTarget.value.evaluateTargetHealth
  }

  /** The TXT set, written by the controller, says that the class owns the name. */
  predicate SaysOwned(z: ZoneMap, name: string, txtOwnerValue: string) {
    Key(name, "TXT") in z &&
    var r := z[Key(name, "TXT")];
    r.ttl == 300 && r.routing.Simple? && "\"cdn-origin-controller/owner=" + txtOwnerValue + "\"" in r.values
  }

  /** The name has its addresses and its owner. */
  predicate Deployed(z: ZoneMap, name: string, address: string, v6: bool, txtOwnerValue: string) {
    && PointsTo(z, name, "A", address) && (v6 ==> PointsTo(z, name, "AAAA", address))
    && SaysOwned(z, name, txtOwnerValue)
  }

  lemma DeployedAlike(y: ZoneMap, z: ZoneMap, name: string, address: string, v6: bool, txtOwnerValue: string)
    requires Deployed(y, name, address, v6, txtOwnerValue)
    requires forall t :: At(z, Key(name, t)) == At(y, Key(name, t))
    ensures Deployed(z, name, address, v6, txtOwnerValue)
  {
    assert At(z, Key(name, "A")) == At(y, Key(name, "A"));
    assert At(z, Key(name, "AAAA")) == At(y, Key(name, "AAAA"));
    assert At(z, Key(name, "TXT")) == At(y, Key(name, "TXT"));
  }

  // ----- one synchronisation

  lemma UpsertPoints(z: ZoneMap, dist: Distribution, cls: Class, x: Circumstances, name: string)
    requires Upserts(z, dist, cls, x) && name in DesiredNames(dist)
    ensures Deployed(AfterUpsert(z, dist, cls, x), name, dist.address, dist.ipv6Enabled, cls.txtOwnerValue)
  {
    var al := UpsertingAliases(dist, cls);
    UpsertedNames(dist, cls);
    UpsertAchieves(z, al, x.upsert);
    var e :| e in al.entries && e.name == name;
    assert "A" in e.types && (dist.ipv6Enabled ==> "AAAA" in e.types);
    var after := AfterUpsert(z, dist, cls, x);
    assert At(after, Key(e.name, "A")) == Some(Dns.AliasSet(dist.address));
    assert dist.ipv6Enabled ==> At(after, Key(e.name, "AAAA")) == Some(Dns.AliasSet(dist.address));
    assert At(after, Key(e.name, "TXT")).Some?;
    OwnLiteral(cls.txtOwnerValue);
  }

  lemma OwnLiteral(txtOwnerValue: string)
    ensures Dns.OwnershipValue(txtOwnerValue) == "\"cdn-origin-controller/owner=" + txtOwnerValue + "\""
  {
    assert "\"" + "cdn-origin-controller/owner" + "=" == "\"cdn-origin-controller/owner=";
  }

  /** The desired names are not deleted. */
  lemma DesiredStays(
    z: ZoneMap, dns: Option<DNSStatus>, dist: Distribution, cls: Class, enabled: bool, x: Circumstances, name: string)
    requires AllAbsolute(Tracked(dns)) && name in DesiredNames(dist)
    ensures var z1 := AfterUpsert(z, dist, cls, x);
      forall t :: At(SyncAliases(z, dns, dist, cls, enabled, x).zone, Key(name, t)) == At(z1, Key(name, t))
  {
    DeletedNames(dns, dist, cls, enabled);
    UnnamedIsUntouched(
      AfterUpsert(z, dist, cls, x), DeleteOp, DeletingAliases(dns, dist, cls, enabled), x.delete, name);
  }

  lemma SyncPoints(
    z: ZoneMap, dns: Option<DNSStatus>, dist: Distribution, cls: Class, enabled: bool, x: Circumstances, name: string)
    requires AllAbsolute(Tracked(dns)) && name in DesiredNames(dist) && SyncAliases(z, dns, dist, cls, enabled, x).ok
    ensures Deployed(
      SyncAliases(z, dns, dist, cls, enabled, x).zone, name, dist.address, dist.ipv6Enabled, cls.txtOwnerValue)
  {
    UpsertPoints(z, dist, cls, x, name);
    DesiredStays(z, dns, dist, cls, enabled, x, name);
    DeployedAlike(
      AfterUpsert(z, dist, cls, x), SyncAliases(z, dns, dist, cls, enabled, x).zone, name, dist.address,
      dist.ipv6Enabled, cls.txtOwnerValue);
  }

  /** All tracked names point at the address. */
  predicate TrackedPoint(z: ZoneMap, dns: Option<DNSStatus>, address: string) {
    forall name :: name in Tracked(dns) ==> PointsTo(z, name, "A", address)
  }

  /** Whichever calls fail, the names that are tracked afterwards point where they did. */
  lemma SyncKeepsPointing(
    z: ZoneMap, dns: Option<DNSStatus>, dist: Distribution, cls: Class, enabled: bool, x: Circumstances,
    address: string)
    requires AllAbsolute(Tracked(dns)) && TrackedPoint(z, dns, address)
    requires dist.alternateDomains == [] || dist.address == address
    ensures var after := SyncAliases(z, dns, dist, cls, enabled, x); TrackedPoint(after.zone, after.dns, address)
  {
    var after := SyncAliases(z, dns, dist, cls, enabled, x);
    var z1 := AfterUpsert(z, dist, cls, x);
    TrackedAfterSync(z, dns, dist, cls, enabled, x);
    forall name | name in Tracked(after.dns)
      ensures PointsTo(after.zone, name, "A", address)
    {
      PointsAfterUpsert(z, dist, cls, x, address, name);
      DeletedNames(dns, dist, cls, enabled);
      PointsAfterDelete(z1, DeletingAliases(dns, dist, cls, enabled), x.delete, address, name);
    }
  }

  lemma PointsAfterDelete(z: ZoneMap, al: Dns.Aliases, f: Dns.Faults, address: string, name: string)
    requires Dns.ValidEntries(al.entries) && PointsTo(z, name, "A", address)
    requires Dns.DeleteOutcome(z, al, f).1 ==> !Names(al, name)
    ensures PointsTo(Dns.DeleteOutcome(z, al, f).0, name, "A", address)
  {
    if Dns.DeleteOutcome(z, al, f).1 {
      UnnamedIsUntouched(z, DeleteOp, al, f, name);
      assert At(Dns.DeleteOutcome(z, al, f).0, Key(name, "A")) == At(z, Key(name, "A"));
    }
  }

  lemma PointsAfterUpsert(z: ZoneMap, dist: Distribution, cls: Class, x: Circumstances, address: string, name: string)
    requires dist.alternateDomains == [] || dist.address == address
    requires PointsTo(z, name, "A", address) || (Upserts(z, dist, cls, x) && name in DesiredNames(dist))
    ensures PointsTo(AfterUpsert(z, dist, cls, x), name, "A", address)
  {
    if Upserts(z, dist, cls, x) && name in DesiredNames(dist) {
      UpsertPoints(z, dist, cls, x, name);
    } else if Upserts(z, dist, cls, x) {
      UpsertedNames(dist, cls);
      UnnamedIsUntouched(z, UpsertOp, UpsertingAliases(dist, cls), x.upsert, name);
      assert At(AfterUpsert(z, dist, cls, x), Key(name, "A")) == At(z, Key(name, "A"));
    }
  }

  // ----- one reconciliation

  lemma UpsertedAddress(c: Cf.Cloud, d: Distribution, enabled: bool, x: Circumstances)
    requires UpsertDist(c, d, enabled, x).1.Some? && (d.Exists() ==> Cf.Present(c, d))
    ensures var (after, r) := UpsertDist(c, d, enabled, x);
      d.group in after.dists && r.value.address == after.dists[d.group].identity.address
  {
    var c0, d0 := UpsertIsSync(c, d, enabled, x);
    SyncChangesDist(c0, d0, enabled, x);
  }

  /**
   * After a reported success every desired name points, with A and for IPv6 with AAAA, at the address of the group's
   * distribution at CloudFront, and its TXT set says that the class owns it.
   */
  lemma SuccessPointsNames(w: World, e: Event, cfg: Config, after: World, name: string)
    requires e.k < |w.ingresses| && Step(w, e.k, e.cls, cfg, e.x, after, true)
    requires w.ingresses[e.k].HasGroup() && e.cls.createAlias && Identified(w.cloud)
    requires AllAbsolute(Tracked(DnsOf(w, w.ingresses[e.k].group))) && name in NamesOf(w, w.ingresses[e.k].group)
    ensures var g := w.ingresses[e.k].group;
      && g in after.cloud.dists
      && Deployed(
        after.zone, name, after.cloud.dists[g].identity.address, cfg.ipv6Enabled, e.cls.txtOwnerValue)
  {
    var d := SuccessIsApplied(w, e, cfg, after);
    DesiredDomains(w, w.ingresses[e.k].group, cfg, d);
    AppliedPoints(w, e.k, e.cls, cfg, d, e.x, after, name);
  }

  lemma AppliedPoints(
    w: World, k: nat, cls: Class, cfg: Config, d: Distribution, x: Circumstances, after: World, name: string)
    requires k < |w.ingresses| && Applied(w, k, cls, cfg, d, x) == (after, true) && cls.createAlias
    requires d.Exists() ==> Cf.Present(w.cloud, d)
    requires AllAbsolute(Tracked(DnsOf(w, w.ingresses[k].group))) && name in DesiredNames(d)
    requires d.IsEmpty() ==> d.alternateDomains == []
    ensures d.group in after.cloud.dists
    ensures Deployed(after.zone, name, after.cloud.dists[d.group].identity.address, d.ipv6Enabled, cls.txtOwnerValue)
  {
    var i, dist := w.ingresses[k], DistStepOf(w, k, cfg, d, x);
    SuccessfulDist(w, k, cls, cfg, d, x);
    SyncDistResult(w.cloud, d, StatusOf(w, i.group), i.name, cfg.deletionEnabled, x);
    UpsertedAddress(w.cloud, d, cfg.deletionEnabled, x);
    AppliedCloud(w, k, cls, cfg, d, x);
    SyncPoints(w.zone, dist.status.dns, dist.dist, cls, cfg.deletionEnabled, x, name);
  }

  // ----- runs

  /** A distribution that exists keeps its identity while it is there. */
  lemma ExistingKeepsIdentity(c: Cf.Cloud, d: Distribution, s: Status, ref: string, enabled: bool, x: Circumstances)
    requires d.Exists() && Cf.Present(c, d)
    ensures var step := SyncDist(c, d, s, ref, enabled, x);
      && (d.group in step.cloud.dists ==> step.cloud.dists[d.group].identity == c.dists[d.group].identity)
      && (step.ok && !d.IsEmpty() ==> step.dist.address == c.dists[d.group].identity.address)
  {
    if d.IsEmpty() {
      var remote := c.dists[d.group];
      var disabled := c.(dists := c.dists[d.group := remote.(config := remote.config.(enabled := false))]);
      DeleteAllKeepsDists(
        disabled.(dists := disabled.dists - {d.group}), Cf.AllOACs(remote.config.origins), enabled,
        x.dist.oacDeletes);
    } else {
      SyncChangesDist(c, d, enabled, x);
    }
  }

  /** The group's tracked names point at its distribution. */
  predicate GroupPoints(w: World, g: string) {
    g in w.cloud.dists && TrackedPoint(w.zone, DnsOf(w, g), w.cloud.dists[g].identity.address)
  }

  lemma PointsAfterStep(p: Plan, w: World, e: Event, cfg: Config, after: World, g: string)
    requires Separate(p) && AllHeld(p, w) && AsPlanned(p, w, e) && ReconcileStep(w, e, cfg, after)
    requires Identified(w.cloud) && g in p.classOf && GroupPoints(w, g) && g in after.cloud.dists
    ensures GroupPoints(after, g)
  {
    var h := w.ingresses[e.k].group;
    var applied, d := StepCases(w, e, cfg, after);
    if applied {
      DesiredDomains(w, h, cfg, d);
      AppliedCloud(w, e.k, e.cls, cfg, d, e.x);
      AppliedStatuses(w, e.k, e.cls, cfg, d, e.x);
      if h == g {
        OwnGroupPoints(p, w, e, cfg, d, g);
      } else {
        OtherGroupPoints(p, w, e, cfg, d, g);
      }
    }
  }

  lemma OwnGroupPoints(p: Plan, w: World, e: Event, cfg: Config, d: Distribution, g: string)
    requires Separate(p) && AllHeld(p, w) && AsPlanned(p, w, e) && w.ingresses[e.k].group == g
    requires Desired(w, g, cfg, Ok(d)) && Identified(w.cloud) && GroupPoints(w, g)
    ensures var dist := DistStepOf(w, e.k, cfg, d, e.x);
      var dns := DnsStepOf(w.zone, dist, e.cls, cfg, e.x);
      g in dist.cloud.dists ==> TrackedPoint(dns.zone, dns.dns, dist.cloud.dists[g].identity.address)
  {
    var i, dist := w.ingresses[e.k], DistStepOf(w, e.k, cfg, d, e.x);
    DesiredDomains(w, g, cfg, d);
    ExistingKeepsIdentity(w.cloud, d, StatusOf(w, g), i.name, cfg.deletionEnabled, e.x);
    SyncDistResult(w.cloud, d, StatusOf(w, g), i.name, cfg.deletionEnabled, e.x);
    if e.cls.createAlias {
      assert AllAbsolute(Tracked(dist.status.dns));
      SyncKeepsPointing(
        w.zone, dist.status.dns, dist.dist, e.cls, cfg.deletionEnabled, e.x, w.cloud.dists[g].identity.address);
    }
  }

  lemma OtherGroupPoints(p: Plan, w: World, e: Event, cfg: Config, d: Distribution, g: string)
    requires Separate(p) && AllHeld(p, w) && AsPlanned(p, w, e) && w.ingresses[e.k].group != g
    requires Desired(w, w.ingresses[e.k].group, cfg, Ok(d)) && g in p.classOf && GroupPoints(w, g)
    ensures var dist := DistStepOf(w, e.k, cfg, d, e.x);
      var dns := DnsStepOf(w.zone, dist, e.cls, cfg, e.x);
      && g in dist.cloud.dists && dist.cloud.dists[g].identity == w.cloud.dists[g].identity
      && TrackedPoint(dns.zone, DnsOf(w, g), w.cloud.dists[g].identity.address)
  {
    var h, i, dist := w.ingresses[e.k].group, w.ingresses[e.k], DistStepOf(w, e.k, cfg, d, e.x);
    DesiredDomains(w, h, cfg, d);
    DistStepNames(w, e.k, cfg, d, e.x);
    SyncDistChange(w.cloud, d, StatusOf(w, h), i.name, cfg.deletionEnabled, e.x);
    if e.cls.createAlias && g in w.statuses {
      assert GroupHeld(p, w.zone, g, w.statuses[g].dns);
      OtherNamesPoint(
        p, w.zone, h, dist.status.dns, dist.dist, cfg.deletionEnabled, e.x, g, w.statuses[g].dns,
        w.cloud.dists[g].identity.address);
    }
  }

  lemma OtherNamesPoint(
    p: Plan, z: ZoneMap, h: string, dns: Option<DNSStatus>, dist: Distribution, enabled: bool, x: Circumstances,
    g: string, other: Option<DNSStatus>, address: string)
    requires Separate(p) && SingleOwners(z) && g in p.classOf && h in p.classOf && g != h
    requires GroupHeld(p, z, h, dns) && GroupHeld(p, z, g, other) && DesiredNames(dist) <= p.pool[h]
    requires TrackedPoint(z, other, address)
    ensures TrackedPoint(SyncAliases(z, dns, dist, p.classOf[h], enabled, x).zone, other, address)
  {
    OwnershipValueIsOwnership(p.classOf[g].txtOwnerValue);
    forall name | name in Tracked(other)
      ensures PointsTo(SyncAliases(z, dns, dist, p.classOf[h], enabled, x).zone, name, "A", address)
    {
      assert Holds(z, Own(p.classOf[g]), name) && name in p.pool[g] && PointsTo(z, name, "A", address);
      SyncRespectsOthers(z, dns, dist, p.classOf[h], enabled, x, Own(p.classOf[g]), name);
      assert TYPE_A == "A";
    }
  }

  /** A planned step in which CloudFront identifies what it creates. */
  ghost predicate PointingStep(p: Plan, w: World, cfg: Config, after: World) {
    UserStep(w, after) || exists e :: AsPlanned(p, w, e) && BornIdentified(e.x) && ReconcileStep(w, e, cfg, after)
  }

  ghost predicate PointingRun(ws: seq<World>, cfg: Config, p: Plan) {
    ws != [] && forall i :: 0 < i < |ws| ==> PointingStep(p, ws[i - 1], cfg, ws[i])
  }

  lemma {:induction false} PointingRunHolds(ws: seq<World>, cfg: Config, p: Plan, i: nat)
    requires PointingRun(ws, cfg, p) && Separate(p) && AllHeld(p, ws[0]) && Identified(ws[0].cloud) && i < |ws|
    ensures AllHeld(p, ws[i]) && Identified(ws[i].cloud)
    decreases i
  {
    if i > 0 {
      PointingRunHolds(ws, cfg, p, i - 1);
      assert PointingStep(p, ws[i - 1], cfg, ws[i]);
      if !UserStep(ws[i - 1], ws[i]) {
        var e :| AsPlanned(p, ws[i - 1], e) && BornIdentified(e.x) && ReconcileStep(ws[i - 1], e, cfg, ws[i]);
        HeldAfterStep(p, ws[i - 1], e, cfg, ws[i]);
        ACLAfterStep(ws[i - 1], e, cfg, ws[i], "");
      }
    }
  }

  /** No step makes the group's tracked names point elsewhere, while its distribution stays. */
  ghost predicate KeepsPointing(ws: seq<World>, g: string) {
    forall m :: 0 < m < |ws| ==> PointsOn(ws[m - 1], ws[m], g)
  }

  predicate PointsOn(w: World, after: World, g: string) {
    GroupPoints(w, g) && g in after.cloud.dists ==> GroupPoints(after, g)
  }

  lemma RunKeepsPointing(ws: seq<World>, cfg: Config, p: Plan, g: string)
    requires PointingRun(ws, cfg, p) && Separate(p) && AllHeld(p, ws[0]) && Identified(ws[0].cloud) && g in p.classOf
    ensures KeepsPointing(ws, g)
  {
    forall m | 0 < m < |ws|
      ensures PointsOn(ws[m - 1], ws[m], g)
    {
      PointingRunHolds(ws, cfg, p, m - 1);
      StepPointsOn(p, ws[m - 1], cfg, ws[m], g);
    }
  }

  lemma StepPointsOn(p: Plan, w: World, cfg: Config, after: World, g: string)
    requires Separate(p) && AllHeld(p, w) && PointingStep(p, w, cfg, after)
    requires Identified(w.cloud) && g in p.classOf
    ensures PointsOn(w, after, g)
  {
    if GroupPoints(w, g) && g in after.cloud.dists {
      PointsAfterAnyStep(p, w, cfg, after, g);
    }
  }

  lemma {:induction false} PointingSurvives(ws: seq<World>, g: string, i: nat, j: nat)
    requires KeepsPointing(ws, g) && i <= j < |ws| && GroupPoints(ws[i], g)
    requires forall m :: i <= m <= j ==> g in ws[m].cloud.dists
    ensures GroupPoints(ws[j], g)
    decreases j
  {
    if i < j {
      PointingSurvives(ws, g, i, j - 1);
      assert PointsOn(ws[j - 1], ws[j], g);
    }
  }

  /**
   * Once the tracked names of a group point at its distribution, they do so over every planned run in which the
   * distribution stays, whatever distribution or DNS calls fail.
   */
  lemma TrackedNamesPoint(ws: seq<World>, cfg: Config, p: Plan, g: string, i: nat, j: nat)
    requires PointingRun(ws, cfg, p) && Separate(p) && AllHeld(p, ws[0]) && Identified(ws[0].cloud)
    requires i <= j < |ws| && g in p.classOf && GroupPoints(ws[i], g)
    requires forall m :: i <= m <= j ==> g in ws[m].cloud.dists
    ensures GroupPoints(ws[j], g)
  {
    RunKeepsPointing(ws, cfg, p, g);
    PointingSurvives(ws, g, i, j);
  }

  lemma PointsAfterAnyStep(p: Plan, w: World, cfg: Config, after: World, g: string)
    requires Separate(p) && AllHeld(p, w) && PointingStep(p, w, cfg, after)
    requires Identified(w.cloud) && g in p.classOf && GroupPoints(w, g) && g in after.cloud.dists
    ensures GroupPoints(after, g)
  {
    if UserStep(w, after) {
      assert DnsOf(after, g) == DnsOf(w, g);
    } else {
      var e :| AsPlanned(p, w, e) && BornIdentified(e.x) && ReconcileStep(w, e, cfg, after);
      PointsAfterStep(p, w, e, cfg, after, g);
    }
  }

  /** With deletion enabled, every success makes all tracked names of the group point at its distribution. */
  lemma SuccessPointsTracked(w: World, e: Event, cfg: Config, after: World)
    requires e.k < |w.ingresses| && Step(w, e.k, e.cls, cfg, e.x, after, true)
    requires w.ingresses[e.k].HasGroup() && e.cls.createAlias && Identified(w.cloud) && cfg.deletionEnabled
    requires AllAbsolute(Tracked(DnsOf(w, w.ingresses[e.k].group)))
    requires w.ingresses[e.k].group in after.cloud.dists
    ensures GroupPoints(after, w.ingresses[e.k].group)
  {
    var g := w.ingresses[e.k].group;
    SuccessTracksDesiredNames(w, e, cfg, after);
    forall name | name in Tracked(DnsOf(after, g))
      ensures PointsTo(after.zone, name, "A", after.cloud.dists[g].identity.address)
    {
      SuccessPointsNames(w, e, cfg, after, name);
    }
  }
}
