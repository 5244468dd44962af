/**
 * What holds over whole runs: any sequence of reconciliations, of any Ingresses and classes, with any calls
 * failing, between which users change Ingresses as they like.
 */
module ReconcilerRuns {
  import opened Model
  import opened SharedParams
  import opened Compiler
  import opened Zone
  import opened CdnStatuses
  import opened Ownership
  import opened Reconciler
  import opened AliasBookkeeping
  import Dns = AliasRepository
  import Cf = DistRepository

  /** The reconciliation of the k-th Ingress under the given circumstances. */
  datatype Event = Event(k: nat, cls: Class, x: Circumstances)

  /** Users change Ingresses, and nothing else. */
  predicate UserStep(w: World, after: World) {
    after == w.(ingresses := after.ingresses)
  }

  ghost predicate ReconcileStep(w: World, e: Event, cfg: Config, after: World) {
    e.k < |w.ingresses| && exists ok :: Step(w, e.k, e.cls, cfg, e.x, after, ok)
  }

  // ----- what a reconciliation does to CloudFront

  /** The group's distribution is as before, or written with the desired web ACL, or disabled, or gone. */
  ghost predicate DistChange(before: Cf.Cloud, after: Cf.Cloud, d: Distribution, x: Circumstances) {
    var g := d.group;
    && (forall h :: h != g ==> (h in after.dists <==> h in before.dists))
    && (forall h :: h != g && h in before.dists ==> after.dists[h] == before.dists[h])
    && (g in after.dists ==>
        if g in before.dists then
          && after.dists[g].identity in {before.dists[g].identity, x.born}
          && after.dists[g].config.webACL in {before.dists[g].config.webACL, d.webACL}
        else after.dists[g].identity == x.born && after.dists[g].config.webACL == d.webACL)
  }

  lemma {:induction false} DeleteAllKeepsDists(c: Cf.Cloud, ids: seq<string>, enabled: bool, through: nat)
    ensures Cf.DeleteAll(c, ids, enabled, through).0.dists == c.dists
  {
    if ids != [] {
      DeleteAllKeepsDists(c, ids[..|ids| - 1], enabled, through);
    }
  }

  lemma SyncChangesDist(c: Cf.Cloud, d: Distribution, enabled: bool, x: Circumstances)
    ensures var after := Cf.SyncOutcome(c, d, enabled, x.ids, x.dist).0;
      && after.dists.Keys == c.dists.Keys
      && (forall h :: h in c.dists && h != d.group ==> after.dists[h] == c.dists[h])
      && (d.group in c.dists ==>
          && after.dists[d.group].identity == c.dists[d.group].identity
          && after.dists[d.group].config.webACL in {c.dists[d.group].config.webACL, d.webACL})
  {
    if !x.dist.getConfig && Cf.Present(c, d) {
      var desired, remote := Cf.DesiredOACs(d.customOrigins), c.dists[d.group];
      var synced := c.(oacs := Cf.SyncAll(c.oacs, desired, x.ids).0);
      var written := synced.(dists := synced.dists[d.group := remote.(config := Cf.WrittenConfig(c, d, x.ids))]);
      DeleteAllKeepsDists(written, Cf.ObsoleteOACs(remote.config.origins, d), enabled, x.dist.oacDeletes);
    }
  }

  lemma SyncDistChange(c: Cf.Cloud, d: Distribution, s: Status, ref: string, enabled: bool, x: Circumstances)
    ensures DistChange(c, SyncDist(c, d, s, ref, enabled, x).cloud, d, x)
  {
    if d.IsEmpty() {
      if Cf.Present(c, d) {
        var remote := c.dists[d.group];
        var disabled := c.(dists := c.dists[d.group := remote.(config := remote.config.(enabled := false))]);
        DeleteAllKeepsDists(
          disabled.(dists := disabled.dists - {d.group}), Cf.AllOACs(remote.config.origins), enabled,
          x.dist.oacDeletes);
      }
    } else if d.Exists() {
      SyncChangesDist(c, d, enabled, x);
    } else {
      var created := c.(dists := c.dists[d.group := Cf.RemoteDist(x.born, Cf.NewConfig(d))]);
      var e := d.(id := x.born.id, arn := x.born.arn, address := x.born.address);
      assert Cf.NewConfig(d).webACL == d.webACL;
      SyncChangesDist(created, e, enabled, x);
    }
  }

  /** Distributions have an id and an ARN, and so have new ones. */
  predicate Identified(c: Cf.Cloud) {
    forall g :: g in c.dists ==> c.dists[g].identity.id != "" && c.dists[g].identity.arn != ""
  }

  predicate BornIdentified(x: Circumstances) {
    x.born.id != "" && x.born.arn != ""
  }

  // ----- a web ACL is never removed

  predicate HasACL(w: World, g: string) {
    g in w.cloud.dists && w.cloud.dists[g].config.webACL != ""
  }

  function AnnotatedACLs(w: World, g: string): set<string> {
    ACLs(DesiredIngresses(w.ingresses, g))
  }

  /** A reconciliation that computes nothing, or refuses, leaves CloudFront and the zone alone. */
  lemma StepCases(w: World, e: Event, cfg: Config, after: World) returns (applied: bool, d: Distribution)
    requires ReconcileStep(w, e, cfg, after)
    ensures applied ==>
      && Desired(w, w.ingresses[e.k].group, cfg, Ok(d))
      && exists ok :: (after, ok) == Applied(w, e.k, e.cls, cfg, d, e.x)
    ensures !applied ==>
      && after == w.(ingresses := after.ingresses)
      && (after == w || after == WithFinalizer(w, e.k, false))
      && (after != w ==> !w.ingresses[e.k].HasGroup())
  {
    var i := w.ingresses[e.k];
    var ok :| Step(w, e.k, e.cls, cfg, e.x, after, ok);
    var desired :|
      && (Computes(w, e.k, e.x) ==> Desired(w, i.group, cfg, desired))
      && (after, ok) == Reconciled(w, e.k, e.cls, cfg, desired, e.x);
    applied := Computes(w, e.k, e.x) && desired.Ok? && CreationAllowed(desired.value, i, cfg) && !e.x.getStatus;
    d := if applied then desired.value else ZERO_DISTRIBUTION;
  }

  /** The desired web ACL is the one annotated ARN, or else the one that the distribution has. */
  lemma DesiredACL(w: World, g: string, cfg: Config, d: Distribution)
    requires Desired(w, g, cfg, Ok(d))
    ensures |AnnotatedACLs(w, g)| <= 1 && d.group == g
    ensures AnnotatedACLs(w, g) != {} ==> AnnotatedACLs(w, g) == {d.webACL} && d.webACL != ""
    ensures AnnotatedACLs(w, g) == {} && g in w.cloud.dists && w.cloud.dists[g].identity.arn != "" ==>
      d.webACL == w.cloud.dists[g].config.webACL
  {
    var ings := DesiredIngresses(w.ingresses, g);
    var shared :| SharedFrom(ings, shared) &&
      if shared.Err? then Ok(d) == Err(shared.error)
      else DistributionFrom(Ok(d), ings, shared.value, SettingOf(w, g, cfg), cfg.shortId);
    forall a | a in ACLs(ings)
      ensures a != ""
    {
    }
  }

  lemma AppliedCloud(w: World, k: nat, cls: Class, cfg: Config, d: Distribution, x: Circumstances)
    requires k < |w.ingresses|
    ensures Applied(w, k, cls, cfg, d, x).0.cloud == DistStepOf(w, k, cfg, d, x).cloud
    ensures Applied(w, k, cls, cfg, d, x).0.zone == DnsStepOf(w.zone, DistStepOf(w, k, cfg, d, x), cls, cfg, x).zone
  {
    var dist := DistStepOf(w, k, cfg, d, x);
    var dns := DnsStepOf(w.zone, dist, cls, cfg, x);
    var present := FinishTouches(
      w.(cloud := dist.cloud, zone := dns.zone), k, d, dist.status.(dns := dns.dns), dist.ok && dns.ok, x);
  }

  /** Finishing concerns Kubernetes only, and of its Ingresses only one finalizer. */
  lemma FinishTouches(w: World, k: nat, d: Distribution, s: Status, synced: bool, x: Circumstances)
    returns (present: bool)
    requires k < |w.ingresses|
    ensures var after := Finish(w, k, d, s, synced, x).0;
      && after.cloud == w.cloud && after.zone == w.zone
      && after.ingresses in {w.ingresses, WithFinalizer(w, k, present).ingresses}
  {
    present := !synced || !w.ingresses[k].IsBeingRemoved();
  }

  /** What a step may do to the web ACL of a group, given the ARNs annotated in the reconciled group. */
  predicate ACLKept(before: Cf.Cloud, after: Cf.Cloud, acls: set<string>, g: string) {
    g in before.dists && before.dists[g].config.webACL != "" && g in after.dists ==>
      && after.dists[g].config.webACL != ""
      && after.dists[g].config.webACL in {before.dists[g].config.webACL} + acls
  }

  lemma ACLFromChange(
    before: Cf.Cloud, after: Cf.Cloud, d: Distribution, x: Circumstances, acls: set<string>, g: string)
    requires DistChange(before, after, d, x) && Identified(before) && BornIdentified(x)
    requires acls != {} ==> acls == {d.webACL} && d.webACL != ""
    requires acls == {} && d.group in before.dists ==> d.webACL == before.dists[d.group].config.webACL
    ensures Identified(after)
    ensures g == d.group ==> ACLKept(before, after, acls, g)
    ensures g != d.group ==> ACLKept(before, after, {}, g)
  {
  }

  lemma ACLAfterStep(w: World, e: Event, cfg: Config, after: World, g: string)
    requires ReconcileStep(w, e, cfg, after) && Identified(w.cloud) && BornIdentified(e.x)
    ensures Identified(after.cloud)
    ensures ACLKept(w.cloud, after.cloud, AnnotatedACLs(w, g), g)
  {
    var applied, d := StepCases(w, e, cfg, after);
    if applied {
      var i := w.ingresses[e.k];
      DesiredACL(w, i.group, cfg, d);
      AppliedCloud(w, e.k, e.cls, cfg, d, e.x);
      SyncDistChange(w.cloud, d, StatusOf(w, i.group), i.name, cfg.deletionEnabled, e.x);
      ACLFromChange(w.cloud, after.cloud, d, e.x, AnnotatedACLs(w, i.group), g);
    }
  }

  ghost predicate IdentifiedStep(w: World, cfg: Config, after: World) {
    UserStep(w, after) || exists e: Event :: BornIdentified(e.x) && ReconcileStep(w, e, cfg, after)
  }

  ghost predicate Run(ws: seq<World>, cfg: Config) {
    ws != [] && forall i :: 0 < i < |ws| ==> IdentifiedStep(ws[i - 1], cfg, ws[i])
  }

  lemma ACLAfterAnyStep(w: World, cfg: Config, after: World, g: string)
    requires IdentifiedStep(w, cfg, after) && Identified(w.cloud)
    ensures Identified(after.cloud)
    ensures ACLKept(w.cloud, after.cloud, AnnotatedACLs(w, g), g)
  {
    if !UserStep(w, after) {
      var e: Event :| BornIdentified(e.x) && ReconcileStep(w, e, cfg, after);
      ACLAfterStep(w, e, cfg, after, g);
    }
  }

  lemma {:induction false} RunKeepsACL(ws: seq<World>, cfg: Config, g: string, j: nat)
    requires Run(ws, cfg) && Identified(ws[0].cloud) && j < |ws|
    ensures Identified(ws[j].cloud)
    ensures j > 0 ==> ACLKept(ws[j - 1].cloud, ws[j].cloud, AnnotatedACLs(ws[j - 1], g), g)
    decreases j
  {
    if j > 0 {
      RunKeepsACL(ws, cfg, g, j - 1);
      ACLAfterAnyStep(ws[j - 1], cfg, ws[j], g);
    }
  }

  ghost predicate KeepsACLs(ws: seq<World>, g: string) {
    forall j :: 0 < j < |ws| ==> ACLKept(ws[j - 1].cloud, ws[j].cloud, AnnotatedACLs(ws[j - 1], g), g)
  }

  lemma {:induction false} ACLSurvives(ws: seq<World>, g: string, i: nat, j: nat)
    requires KeepsACLs(ws, g) && i <= j < |ws| && HasACL(ws[i], g)
    requires forall m :: i <= m <= j ==> g in ws[m].cloud.dists
    ensures HasACL(ws[j], g)
    decreases j
  {
    if i < j {
      ACLSurvives(ws, g, i, j - 1);
      assert ACLKept(ws[j - 1].cloud, ws[j].cloud, AnnotatedACLs(ws[j - 1], g), g);
    }
  }

  /**
   * Over any run, every step keeps the web ACL that the distribution of a group has or replaces it by an ARN
   * that is annotated in the group at that moment; so while the distribution stays, it is never removed.
   */
  lemma WebACLIsNeverRemoved(ws: seq<World>, cfg: Config, g: string, i: nat, j: nat)
    requires Run(ws, cfg) && Identified(ws[0].cloud)
    requires i <= j < |ws| && HasACL(ws[i], g)
    requires forall m :: i <= m <= j ==> g in ws[m].cloud.dists
    ensures KeepsACLs(ws, g)
    ensures HasACL(ws[j], g)
  {
    forall m | 0 < m < |ws|
      ensures ACLKept(ws[m - 1].cloud, ws[m].cloud, AnnotatedACLs(ws[m - 1], g), g)
    {
      RunKeepsACL(ws, cfg, g, m);
    }
    ACLSurvives(ws, g, i, j);
  }

  /** Conflicting ARNs in a group stop every reconciliation of the group before it writes anything. */
  lemma ConflictingACLsWriteNothing(w: World, e: Event, cfg: Config, after: World)
    requires ReconcileStep(w, e, cfg, after) && w.ingresses[e.k].HasGroup()
    requires |AnnotatedACLs(w, w.ingresses[e.k].group)| > 1
    ensures after == w
  {
    var g := w.ingresses[e.k].group;
    var applied, d := StepCases(w, e, cfg, after);
    if applied {
      DesiredACL(w, g, cfg, d);
    }
  }

  // ----- tracked names are held

  /** How names are shared out: the class of each group, and the absolute names that the group may use. */
  datatype Plan = Plan(classOf: map<string, Class>, pool: map<string, set<string>>)

  /** Groups of one owner have separate names. */
  predicate Separate(p: Plan) {
    && p.classOf.Keys == p.pool.Keys
    && (forall g :: g in p.pool ==> AllAbsolute(p.pool[g]))
    && forall g, h :: g in p.pool && h in p.pool && g != h && Own(p.classOf[g]) == Own(p.classOf[h]) ==>
      p.pool[g] !! p.pool[h]
  }

  /** The reconciliation is of a planned group and its class, within its names, and its status writes succeed. */
  ghost predicate AsPlanned(p: Plan, w: World, e: Event) {
    && e.k < |w.ingresses|
    && var g := w.ingresses[e.k].group;
    && g in p.classOf && g in p.pool && e.cls == p.classOf[g]
    && NamesOf(w, g) <= p.pool[g]
    && !e.x.createStatus && !e.x.updateStatus && !e.x.deleteStatus
  }

  /** The alternate domains of a group's live Ingresses, as they are written to the zone. */
  function NamesOf(w: World, g: string): set<string> {
    Elements(Dns.NormalizedDomains(AlternateDomains(DesiredIngresses(w.ingresses, g))))
  }

  function DnsOf(w: World, g: string): Option<DNSStatus> {
    if g in w.statuses then w.statuses[g].dns else None
  }

  ghost predicate AllHeld(p: Plan, w: World) {
    && SingleOwners(w.zone)
    && forall g :: g in w.statuses ==>
      (g in p.classOf || Tracked(w.statuses[g].dns) == {}) &&
      (g in p.classOf ==> GroupHeld(p, w.zone, g, w.statuses[g].dns))
  }

  ghost predicate GroupHeld(p: Plan, z: ZoneMap, g: string, dns: Option<DNSStatus>)
    requires g in p.classOf
  {
    g in p.pool && Tracked(dns) <= p.pool[g] && TrackedHeld(z, Own(p.classOf[g]), dns)
  }

  lemma UpsertKeepsSettings(c: Cf.Cloud, d: Distribution, enabled: bool, x: Circumstances)
    ensures var r := UpsertDist(c, d, enabled, x).1;
      r.Some? ==> r.value.alternateDomains == d.alternateDomains && r.value.ipv6Enabled == d.ipv6Enabled
  {
  }

  /** After success the distribution has the desired domains; after a failed create or update it has nothing. */
  lemma SyncDistResult(c: Cf.Cloud, d: Distribution, s: Status, ref: string, enabled: bool, x: Circumstances)
    ensures var step := SyncDist(c, d, s, ref, enabled, x);
      && step.status.dns == s.dns
      && (step.ok || d.IsEmpty() ==>
          step.dist.alternateDomains == d.alternateDomains && step.dist.ipv6Enabled == d.ipv6Enabled)
      && (!step.ok && !d.IsEmpty() ==> step.dist == ZERO_DISTRIBUTION)
  {
    UpsertKeepsSettings(c, d, enabled, x);
  }

  /** Whatever the distribution step returns, its domains are the desired ones or none. */
  lemma DistStepNames(w: World, k: nat, cfg: Config, d: Distribution, x: Circumstances)
    requires k < |w.ingresses|
    ensures var step := DistStepOf(w, k, cfg, d, x);
      && step.dist.alternateDomains in {d.alternateDomains, []}
      && (step.dist.ipv6Enabled == d.ipv6Enabled || step.dist.alternateDomains == [])
      && step.status.dns == StatusOf(w, w.ingresses[k].group).dns
  {
    var i := w.ingresses[k];
    SyncDistResult(w.cloud, d, StatusOf(w, i.group), i.name, cfg.deletionEnabled, x);
  }

  lemma DesiredDomains(w: World, g: string, cfg: Config, d: Distribution)
    requires Desired(w, g, cfg, Ok(d))
    ensures d.alternateDomains == AlternateDomains(DesiredIngresses(w.ingresses, g))
    ensures d.IsEmpty() <==> DesiredIngresses(w.ingresses, g) == []
    ensures d.ipv6Enabled == cfg.ipv6Enabled && d.group == g
    ensures d.id ==
      if g in w.cloud.dists && w.cloud.dists[g].identity.arn != "" then w.cloud.dists[g].identity.id else ""
  {
    var ings := DesiredIngresses(w.ingresses, g);
    var shared :| SharedFrom(ings, shared) &&
      if shared.Err? then Ok(d) == Err(shared.error)
      else DistributionFrom(Ok(d), ings, shared.value, SettingOf(w, g, cfg), cfg.shortId);
    var m :| OriginsFrom(m, ings, shared.value, cfg.shortId) && OriginsOf(d.customOrigins, m);
    if ings != [] {
      assert ContributesHost(ings, ings[0].originHost);
      assert m[ings[0].originHost] in d.customOrigins by {
        assert OriginFor(m[ings[0].originHost], LastFor(ings, ings[0].originHost),
                         PathsFromOrigin(shared.value, ings[0].originHost), cfg.shortId);
      }
    } else {
      assert forall h :: !ContributesHost(ings, h);
      NonEmptyHasMember(d.customOrigins);
    }
  }

  lemma NonEmptyHasMember<T>(s: seq<T>)
    ensures s != [] ==> exists x :: x in s
  {
    if s != [] {
      assert s[0] in s;
    }
  }

  lemma AppliedStatuses(w: World, k: nat, cls: Class, cfg: Config, d: Distribution, x: Circumstances)
    requires k < |w.ingresses| && !x.createStatus && !x.updateStatus && !x.deleteStatus
    ensures var (after, g) := (Applied(w, k, cls, cfg, d, x).0, w.ingresses[k].group);
      && (forall h :: h != g ==> (h in after.statuses <==> h in w.statuses) && DnsOf(after, h) == DnsOf(w, h))
      && (g in after.statuses ==>
          after.statuses[g].dns == DnsStepOf(w.zone, DistStepOf(w, k, cfg, d, x), cls, cfg, x).dns)
  {
  }

  lemma HeldAfterStep(p: Plan, w: World, e: Event, cfg: Config, after: World)
    requires Separate(p) && AllHeld(p, w) && AsPlanned(p, w, e) && ReconcileStep(w, e, cfg, after)
    ensures AllHeld(p, after)
  {
    var applied, d := StepCases(w, e, cfg, after);
    if applied {
      AppliedCloud(w, e.k, e.cls, cfg, d, e.x);
      AppliedStatuses(w, e.k, e.cls, cfg, d, e.x);
      DesiredDomains(w, w.ingresses[e.k].group, cfg, d);
      DistStepNames(w, e.k, cfg, d, e.x);
      var dist := DistStepOf(w, e.k, cfg, d, e.x);
      HeldAfterDns(p, w, w.ingresses[e.k].group, dist.status.dns, dist.dist, cfg, e.x, after,
                   DnsStepOf(w.zone, dist, e.cls, cfg, e.x));
    }
  }

  /** The alias step of group g keeps all names held, and after it the statuses say so. */
  lemma HeldAfterDns(
    p: Plan, w: World, g: string, dns: Option<DNSStatus>, dist: Distribution, cfg: Config, x: Circumstances,
    after: World, step: DnsStep)
    requires Separate(p) && AllHeld(p, w) && g in p.classOf && g in p.pool
    requires dns == DnsOf(w, g) && DesiredNames(dist) <= p.pool[g]
    requires step ==
      if p.classOf[g].createAlias then SyncAliases(w.zone, dns, dist, p.classOf[g], cfg.deletionEnabled, x)
      else DnsStep(w.zone, dns, true)
    requires after.zone == step.zone
    requires forall h :: h != g ==> (h in after.statuses <==> h in w.statuses) && DnsOf(after, h) == DnsOf(w, h)
    requires g in after.statuses ==> after.statuses[g].dns == step.dns
    ensures AllHeld(p, after)
  {
    assert GroupHeld(p, w.zone, g, dns);
    if p.classOf[g].createAlias {
      SyncKeepsTrackedHeld(w.zone, dns, dist, p.classOf[g], cfg.deletionEnabled, x);
    }
    assert GroupHeld(p, after.zone, g, step.dns);
    forall h | h in after.statuses && h in p.classOf && h != g
      ensures GroupHeld(p, after.zone, h, after.statuses[h].dns)
    {
      assert DnsOf(after, h) == DnsOf(w, h) && GroupHeld(p, w.zone, h, w.statuses[h].dns);
      if p.classOf[g].createAlias {
        OtherGroupStaysHeld(p, w.zone, g, dns, dist, h, w.statuses[h].dns, cfg, x);
      }
    }
    forall h | h in after.statuses && h !in p.classOf
      ensures Tracked(after.statuses[h].dns) == {}
    {
      assert DnsOf(after, h) == DnsOf(w, h);
    }
  }

  lemma OtherGroupStaysHeld(
    p: Plan, z: ZoneMap, g: string, dns: Option<DNSStatus>, dist: Distribution, h: string, other: Option<DNSStatus>,
    cfg: Config, x: Circumstances)
    requires Separate(p) && SingleOwners(z) && g in p.classOf && h in p.classOf && g != h
    requires GroupHeld(p, z, g, dns) && GroupHeld(p, z, h, other) && DesiredNames(dist) <= p.pool[g]
    ensures GroupHeld(p, SyncAliases(z, dns, dist, p.classOf[g], cfg.deletionEnabled, x).zone, h, other)
  {
    var own := Own(p.classOf[h]);
    OwnershipValueIsOwnership(p.classOf[h].txtOwnerValue);
    forall name | name in Tracked(other)
      ensures Holds(SyncAliases(z, dns, dist, p.classOf[g], cfg.deletionEnabled, x).zone, own, name)
    {
      assert Holds(z, own, name) && name in p.pool[h];
      SyncRespectsOthers(z, dns, dist, p.classOf[g], cfg.deletionEnabled, x, own, name);
    }
  }

  ghost predicate PlannedStep(p: Plan, w: World, cfg: Config, after: World) {
    UserStep(w, after) || exists e :: AsPlanned(p, w, e) && ReconcileStep(w, e, cfg, after)
  }

  ghost predicate PlannedRun(ws: seq<World>, cfg: Config, p: Plan) {
    ws != [] && forall i :: 0 < i < |ws| ==> PlannedStep(p, ws[i - 1], cfg, ws[i])
  }

  /**
   * Over any run of reconciliations by any classes, with whatever distribution or DNS calls failing, every name
   * that a group tracks carries the ownership value of the group's class and has an address.
   */
  lemma {:induction false} TrackedNamesAreHeld(ws: seq<World>, cfg: Config, p: Plan, i: nat)
    requires PlannedRun(ws, cfg, p) && Separate(p) && AllHeld(p, ws[0]) && i < |ws|
    ensures AllHeld(p, ws[i])
    decreases i
  {
    if i > 0 {
      TrackedNamesAreHeld(ws, cfg, p, i - 1);
      assert PlannedStep(p, ws[i - 1], cfg, ws[i]);
      if !UserStep(ws[i - 1], ws[i]) {
        var e :| AsPlanned(p, ws[i - 1], e) && ReconcileStep(ws[i - 1], e, cfg, ws[i]);
        HeldAfterStep(p, ws[i - 1], e, cfg, ws[i]);
      }
    }
  }

  // ----- the finalizer outlives everything it guards

  predicate DistinctIngresses(w: World) {
    forall i, j :: 0 <= i < j < |w.ingresses| ==> w.ingresses[i].name != w.ingresses[j].name
  }

  predicate Guarded(w: World, name: string) {
    exists i :: 0 <= i < |w.ingresses| && w.ingresses[i].name == name && w.ingresses[i].finalizer
  }

  /** The Ingress is being deleted but still belongs to a group. */
  predicate Leaving(w: World, k: nat) {
    k < |w.ingresses| && w.ingresses[k].deleting && w.ingresses[k].HasGroup() && w.ingresses[k].finalizer
  }

  /** An Ingress that is being deleted has no part in the desired state. */
  lemma {:induction false} LeavingIsNotDesired(ingresses: seq<Ingress>, k: nat, group: string)
    requires k < |ingresses| && ingresses[k].deleting
    ensures DesiredIngresses(ingresses, group) == DesiredIngresses(ingresses[..k] + ingresses[k + 1..], group)
    decreases |ingresses|
  {
    var n := |ingresses| - 1;
    var rest := ingresses[..k] + ingresses[k + 1..];
    if k == n {
      assert rest == ingresses[..n];
    } else {
      assert rest[..n - 1] == ingresses[..n][..k] + ingresses[..n][k + 1..];
      LeavingIsNotDesired(ingresses[..n], k, group);
    }
  }

  /** What a reconciliation must have achieved before it releases an Ingress. */
  ghost predicate Released(w: World, e: Event, cfg: Config, after: World, d: Distribution)
    requires e.k < |w.ingresses|
  {
    var g := w.ingresses[e.k].group;
    var dist := DistStepOf(w, e.k, cfg, d, e.x);
    && Desired(w, g, cfg, Ok(d))
    && dist.ok
    && (e.cls.createAlias ==> SyncAliases(w.zone, dist.status.dns, dist.dist, e.cls, cfg.deletionEnabled, e.x).ok)
    && after.cloud == dist.cloud
    && after.zone == DnsStepOf(w.zone, dist, e.cls, cfg, e.x).zone
  }

  /**
   * An Ingress of a group loses its finalizer only when it is being deleted, and only if the distribution step
   * and both DNS steps succeeded.
   */
  lemma FinalizerLossIsEarned(w: World, e: Event, cfg: Config, after: World) returns (d: Distribution)
    requires ReconcileStep(w, e, cfg, after) && w.ingresses[e.k].HasGroup() && w.ingresses[e.k].finalizer
    requires |after.ingresses| == |w.ingresses| && !after.ingresses[e.k].finalizer
    ensures Leaving(w, e.k) && Released(w, e, cfg, after, d)
  {
    var applied;
    applied, d := StepCases(w, e, cfg, after);
    assert applied;
    AppliedCloud(w, e.k, e.cls, cfg, d, e.x);
    AppliedRelease(w, e.k, e.cls, cfg, d, e.x);
  }

  lemma AppliedRelease(w: World, k: nat, cls: Class, cfg: Config, d: Distribution, x: Circumstances)
    requires k < |w.ingresses| && w.ingresses[k].finalizer
    requires var after := Applied(w, k, cls, cfg, d, x).0; k < |after.ingresses| && !after.ingresses[k].finalizer
    ensures var dist := DistStepOf(w, k, cfg, d, x);
      w.ingresses[k].IsBeingRemoved() && dist.ok && DnsStepOf(w.zone, dist, cls, cfg, x).ok
  {
    var dist := DistStepOf(w, k, cfg, d, x);
    var dns := DnsStepOf(w.zone, dist, cls, cfg, x);
    FinishedRelease(
      w.(cloud := dist.cloud, zone := dns.zone), k, d, dist.status.(dns := dns.dns), dist.ok && dns.ok, x);
  }

  /** The finalizer goes only after full success, and only from an Ingress that leaves. */
  lemma FinishedRelease(w: World, k: nat, d: Distribution, s: Status, synced: bool, x: Circumstances)
    requires k < |w.ingresses| && w.ingresses[k].finalizer
    requires var after := Finish(w, k, d, s, synced, x).0; k < |after.ingresses| && !after.ingresses[k].finalizer
    ensures synced && w.ingresses[k].IsBeingRemoved()
  {
  }

  /** A reconciliation changes no other Ingress, and of its own only the finalizer. */
  lemma StepTouchesOneIngress(w: World, e: Event, cfg: Config, after: World)
    requires ReconcileStep(w, e, cfg, after)
    ensures |after.ingresses| == |w.ingresses|
    ensures forall i :: 0 <= i < |w.ingresses| ==>
      after.ingresses[i] == w.ingresses[i].(finalizer := after.ingresses[i].finalizer)
      && (i != e.k ==> after.ingresses[i] == w.ingresses[i])
  {
    var applied, d := StepCases(w, e, cfg, after);
    if applied {
      AppliedIngresses(w, e.k, e.cls, cfg, d, e.x);
    }
  }

  lemma AppliedIngresses(w: World, k: nat, cls: Class, cfg: Config, d: Distribution, x: Circumstances)
    requires k < |w.ingresses|
    ensures var after := Applied(w, k, cls, cfg, d, x).0;
      after.ingresses == w.ingresses || exists present :: after.ingresses == WithFinalizer(w, k, present).ingresses
  {
    var dist := DistStepOf(w, k, cfg, d, x);
    var dns := DnsStepOf(w.zone, dist, cls, cfg, x);
    var before := w.(cloud := dist.cloud, zone := dns.zone);
    var present := FinishTouches(before, k, d, dist.status.(dns := dns.dns), dist.ok && dns.ok, x);
    assert WithFinalizer(before, k, present).ingresses == WithFinalizer(w, k, present).ingresses;
  }

  /** The last live Ingress of its group. */
  predicate LastOfGroup(w: World, k: nat)
    requires k < |w.ingresses|
  {
    DesiredIngresses(w.ingresses, w.ingresses[k].group) == []
  }

  /** Released as the last of its group, an Ingress leaves no distribution and no trace at the tracked names. */
  lemma LastReleaseCleansUp(w: World, e: Event, cfg: Config, after: World, d: Distribution, name: string)
    requires e.k < |w.ingresses| && Released(w, e, cfg, after, d) && LastOfGroup(w, e.k) && cfg.deletionEnabled
    requires Identified(w.cloud) && SingleOwners(w.zone)
    requires AllAbsolute(Tracked(DnsOf(w, w.ingresses[e.k].group)))
    ensures w.ingresses[e.k].group !in after.cloud.dists
    ensures e.cls.createAlias && name in Tracked(DnsOf(w, w.ingresses[e.k].group)) ==>
      && (forall t :: t in Dns.AddressTypes(cfg.ipv6Enabled) ==> Key(name, t) !in after.zone)
      && Owned(TxtValues(after.zone, name)) == []
  {
    var g := w.ingresses[e.k].group;
    DesiredDomains(w, g, cfg, d);
    var dist := DistStepOf(w, e.k, cfg, d, e.x);
    DistStepNames(w, e.k, cfg, d, e.x);
    assert dist.dist == d && d.alternateDomains == [];
    if d.Exists() {
      DeletedDistIsGone(w.cloud, d, cfg.deletionEnabled, e.x.dist);
    }
    if e.cls.createAlias && name in Tracked(DnsOf(w, g)) {
      NoDomainsDeletesAll(w.zone, dist.status.dns, d, e.cls, e.x, name);
    }
  }

  lemma DeletedDistIsGone(c: Cf.Cloud, d: Distribution, enabled: bool, f: Cf.Faults)
    requires Cf.DeleteOutcome(c, d, enabled, f).1
    requires d.group in c.dists ==> Cf.Present(c, d)
    ensures d.group !in Cf.DeleteOutcome(c, d, enabled, f).0.dists
  {
    if Cf.Present(c, d) {
      var remote := c.dists[d.group];
      var disabled := c.(dists := c.dists[d.group := remote.(config := remote.config.(enabled := false))]);
      DeleteAllKeepsDists(
        disabled.(dists := disabled.dists - {d.group}), Cf.AllOACs(remote.config.origins), enabled, f.oacDeletes);
    }
  }

  /** Synchronising a distribution without domains removes address and ownership of every tracked name. */
  lemma NoDomainsDeletesAll(
    z: ZoneMap, dns: Option<DNSStatus>, dist: Distribution, cls: Class, x: Circumstances, name: string)
    requires SingleOwners(z) && AllAbsolute(Tracked(dns)) && dist.alternateDomains == []
    requires Deletes(z, dns, dist, cls, true, x) && name in Tracked(dns)
    ensures var after := SyncAliases(z, dns, dist, cls, true, x).zone;
      && (forall t :: t in Dns.AddressTypes(dist.ipv6Enabled) ==> Key(name, t) !in after)
      && Owned(TxtValues(after, name)) == []
      && (forall t :: t != TYPE_TXT && t !in Dns.AddressTypes(dist.ipv6Enabled) ==>
        At(after, Key(name, t)) == At(z, Key(name, t)))
  {
    var deleting := DeletingAliases(dns, dist, cls, true);
    DeletedNames(dns, dist, cls, true);
    assert UpsertingAliases(dist, cls).entries == [];
    assert AfterUpsert(z, dist, cls, x) == z;
    assert DesiredNames(dist) == {};
    assert Names(deleting, name);
    DeleteDisowns(z, deleting, x.delete, name);
    AddressesGone(z, deleting, x.delete, name, Dns.AddressTypes(dist.ipv6Enabled));
  }

  lemma AddressesGone(z: ZoneMap, al: Dns.Aliases, f: Dns.Faults, name: string, types: seq<string>)
    requires Dns.ValidEntries(al.entries) && Dns.DeleteOutcome(z, al, f).1 && Names(al, name)
    requires forall e :: e in al.entries ==> e.types == types
    ensures var after := Dns.DeleteOutcome(z, al, f).0;
      && (forall t :: t in types ==> Key(name, t) !in after)
      && (forall t :: t != TYPE_TXT && t !in types ==> At(after, Key(name, t)) == At(z, Key(name, t)))
  {
    DeleteAchieves(z, al, f);
    var after := Dns.DeleteOutcome(z, al, f).0;
    var e :| e in al.entries && e.name == name;
    forall t | t in types
      ensures Key(name, t) !in after
    {
      assert At(after, Key(e.name, t)) == None;
    }
    forall t | t != TYPE_TXT && t !in types
      ensures At(after, Key(name, t)) == At(z, Key(name, t))
    {
      assert !Requested(al, Key(name, t));
    }
  }

  /** Users leave finalizers alone. */
  ghost predicate KeepsFinalizers(w: World, after: World) {
    UserStep(w, after) && forall name :: Guarded(w, name) ==> Guarded(after, name)
  }

  ghost predicate GuardedStep(w: World, cfg: Config, after: World) {
    KeepsFinalizers(w, after) || exists e :: ReconcileStep(w, e, cfg, after)
  }

  ghost predicate GuardedRun(ws: seq<World>, cfg: Config) {
    && ws != []
    && (forall i :: 0 <= i < |ws| ==> DistinctIngresses(ws[i]))
    && forall i :: 0 < i < |ws| ==> GuardedStep(ws[i - 1], cfg, ws[i])
  }

  /** The reconciliation e releases the Ingress of that name; if it has a group, it was leaving, and has earned it. */
  ghost predicate Releases(w: World, e: Event, d: Distribution, cfg: Config, name: string, after: World) {
    && ReconcileStep(w, e, cfg, after) && w.ingresses[e.k].name == name
    && (w.ingresses[e.k].HasGroup() ==> Leaving(w, e.k) && Released(w, e, cfg, after, d))
  }

  ghost predicate LosesFinalizer(w: World, cfg: Config, name: string, after: World) {
    Guarded(w, name) && !Guarded(after, name) && exists e, d :: Releases(w, e, d, cfg, name, after)
  }

  lemma {:induction false} FirstLoss(ws: seq<World>, name: string, j: nat) returns (m: nat)
    requires j < |ws| && Guarded(ws[0], name) && !Guarded(ws[j], name)
    ensures 0 < m <= j && Guarded(ws[m - 1], name) && !Guarded(ws[m], name)
    decreases j
  {
    if Guarded(ws[j - 1], name) {
      m := j;
    } else {
      m := FirstLoss(ws, name, j - 1);
    }
  }

  /** Over any run, an Ingress whose finalizer is gone lost it in a step that earned it. */
  lemma FinalizerLossOverRuns(ws: seq<World>, cfg: Config, name: string, j: nat) returns (m: nat)
    requires GuardedRun(ws, cfg) && j < |ws|
    requires Guarded(ws[0], name) && !Guarded(ws[j], name)
    ensures 0 < m <= j && LosesFinalizer(ws[m - 1], cfg, name, ws[m])
  {
    m := FirstLoss(ws, name, j);
    LastStepIsEarned(ws, cfg, name, m);
  }

  lemma LastStepIsEarned(ws: seq<World>, cfg: Config, name: string, j: nat)
    requires GuardedRun(ws, cfg) && 0 < j < |ws|
    requires Guarded(ws[j - 1], name) && !Guarded(ws[j], name)
    ensures LosesFinalizer(ws[j - 1], cfg, name, ws[j])
  {
    assert GuardedStep(ws[j - 1], cfg, ws[j]);
    LossIsEarned(ws[j - 1], cfg, name, ws[j]);
  }

  lemma LossIsEarned(w: World, cfg: Config, name: string, after: World)
    requires GuardedStep(w, cfg, after) && DistinctIngresses(w)
    requires Guarded(w, name) && !Guarded(after, name)
    ensures LosesFinalizer(w, cfg, name, after)
  {
    var e :| ReconcileStep(w, e, cfg, after);
    StepTouchesOneIngress(w, e, cfg, after);
    var i :| 0 <= i < |w.ingresses| && w.ingresses[i].name == name && w.ingresses[i].finalizer;
    assert after.ingresses[i].name == name && !after.ingresses[i].finalizer;
    var d := ZERO_DISTRIBUTION;
    if w.ingresses[e.k].HasGroup() {
      d := FinalizerLossIsEarned(w, e, cfg, after);
    }
    assert Releases(w, e, d, cfg, name, after);
  }
}
