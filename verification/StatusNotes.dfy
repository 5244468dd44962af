/** What the status of a group says, and when it disappears. */
module StatusNotes {
  import opened Model
  import opened SharedParams
  import opened Compiler
  import opened CdnStatuses
  import opened Reconciler
  import opened DesiredState
  import opened ReconcilerRuns
  import opened ReconcilerConvergence
  import opened DeployedRouting
  import opened FailedUpdates
  import opened Zone
  import Cf = DistRepository

  // ----- what a reconciliation notes

  /**
   * The status notes, for the reconciled Ingress alone, whether the distribution step succeeded; after full success an
   * Ingress that is being deleted is forgotten.
   */
  lemma StepIsNoted(w: World, k: nat, cls: Class, cfg: Config, d: Distribution, x: Circumstances)
    requires k < |w.ingresses| && w.ingresses[k].HasGroup() && !d.IsEmpty() && !x.createStatus && !x.updateStatus
    ensures var ((after, ok), i, before) :=
        (Applied(w, k, cls, cfg, d, x), w.ingresses[k], StatusOf(w, w.ingresses[k].group).ingresses);
      && i.group in after.statuses
      && var noted := after.statuses[i.group].ingresses;
      && (i.name in noted <==> !(ok && i.deleting))
      && (i.name in noted ==>
          noted[i.name] == if DistStepOf(w, k, cfg, d, x).ok then "Synced" else "Failed")
      && (forall name :: name != i.name ==> (name in noted <==> name in before))
      && forall name :: name != i.name && name in before ==> noted[name] == before[name]
  {
    var i, dist := w.ingresses[k], DistStepOf(w, k, cfg, d, x);
    var dns := DnsStepOf(w.zone, dist, cls, cfg, x);
    SyncDistNotes(w.cloud, d, StatusOf(w, i.group), i.name, cfg.deletionEnabled, x);
    FinishNotes(
      w.(cloud := dist.cloud, zone := dns.zone), k, d, dist.status.(dns := dns.dns), dist.ok && dns.ok, x);
  }

  predicate LiveNamed(ingresses: seq<Ingress>, g: string, name: string) {
    exists i :: i in ingresses && IsLive(i, g) && i.name == name
  }

  /** A new status lists the group's live Ingresses, all but the reconciled one as failed. */
  lemma FirstStepIsNoted(w: World, k: nat, cls: Class, cfg: Config, d: Distribution, x: Circumstances)
    requires k < |w.ingresses| && w.ingresses[k].HasGroup() && !d.IsEmpty() && !x.createStatus && !x.updateStatus
    requires AllParsed(w.ingresses) && w.ingresses[k].group !in w.statuses
    ensures var (after, i) := (Applied(w, k, cls, cfg, d, x).0, w.ingresses[k]);
      && i.group in after.statuses
      && var noted := after.statuses[i.group].ingresses;
      forall name :: name != i.name ==>
        && (name in noted <==> LiveNamed(w.ingresses, i.group, name))
        && (name in noted ==> noted[name] == "Failed")
  {
    var g := w.ingresses[k].group;
    StepIsNoted(w, k, cls, cfg, d, x);
    forall name
      ensures name in StatusOf(w, g).ingresses <==> LiveNamed(w.ingresses, g, name)
      ensures name in StatusOf(w, g).ingresses ==> StatusOf(w, g).ingresses[name] == "Failed"
    {
      NewRefs(DesiredIngresses(w.ingresses, g), name);
      NamesDesired(w.ingresses, g, name);
    }
  }

  predicate Named(ings: seq<CDNIngress>, name: string) {
    exists c :: c in ings && c.name == name
  }

  lemma {:induction false} NewRefs(ings: seq<CDNIngress>, name: string)
    ensures var refs := NewIngressRefs(ings);
      && (name in refs <==> Named(ings, name)) && (name in refs ==> refs[name] == "Failed")
  {
    if ings != [] {
      var n := |ings| - 1;
      assert ings == ings[..n] + [ings[n]];
      NewRefs(ings[..n], name);
    }
  }

  lemma NamesDesired(ingresses: seq<Ingress>, g: string, name: string)
    requires AllParsed(ingresses)
    ensures Named(DesiredIngresses(ingresses, g), name) <==> LiveNamed(ingresses, g, name)
  {
    if c :| c in DesiredIngresses(ingresses, g) && c.name == name {
      var i := Contributor(ingresses, g, c);
      assert Parsed(i);
      assert i.name == name;
    }
    if i :| i in ingresses && IsLive(i, g) && i.name == name {
      var c := OwnContribution(ingresses, g, i);
    }
  }

  lemma SyncDistNotes(c: Cf.Cloud, d: Distribution, s: Status, ref: string, enabled: bool, x: Circumstances)
    requires !d.IsEmpty()
    ensures var step := SyncDist(c, d, s, ref, enabled, x);
      step.status.ingresses == s.ingresses[ref := if step.ok then "Synced" else "Failed"]
  {
  }

  lemma FinishNotes(w: World, k: nat, d: Distribution, s: Status, synced: bool, x: Circumstances)
    requires k < |w.ingresses| && w.ingresses[k].HasGroup() && !d.IsEmpty() && !x.createStatus && !x.updateStatus
    ensures var ((after, ok), i) := (Finish(w, k, d, s, synced, x), w.ingresses[k]);
      && i.group in after.statuses
      && after.statuses[i.group].ingresses == if ok && i.deleting then s.ingresses - {i.name} else s.ingresses
  {
  }

  /** A status disappears only in a reconciliation of its group that succeeds and finds nothing desired. */
  lemma StatusLossIsEarned(w: World, e: Event, cfg: Config, after: World, ok: bool, g: string)
    requires e.k < |w.ingresses| && Step(w, e.k, e.cls, cfg, e.x, after, ok)
    requires g in w.statuses && g !in after.statuses
    ensures ok && w.ingresses[e.k].group == g && DesiredIngresses(w.ingresses, g) == []
  {
    var i := w.ingresses[e.k];
    var desired :|
      && (Computes(w, e.k, e.x) ==> Desired(w, i.group, cfg, desired))
      && (after, ok) == Reconciled(w, e.k, e.cls, cfg, desired, e.x);
    assert Computes(w, e.k, e.x) && desired.Ok?;
    DesiredDomains(w, i.group, cfg, desired.value);
    AppliedStatusLoss(w, e.k, e.cls, cfg, desired.value, e.x, g);
  }

  lemma AppliedStatusLoss(w: World, k: nat, cls: Class, cfg: Config, d: Distribution, x: Circumstances, g: string)
    requires k < |w.ingresses| && g in w.statuses && g !in Applied(w, k, cls, cfg, d, x).0.statuses
    ensures Applied(w, k, cls, cfg, d, x).1 && w.ingresses[k].group == g && d.IsEmpty()
  {
  }

  /** After a success the status says what CloudFront has: the identity of the distribution and its domains. */
  lemma StatusTellsWhatIsThere(w: World, e: Event, cfg: Config, after: World)
    requires e.k < |w.ingresses| && Step(w, e.k, e.cls, cfg, e.x, after, true) && w.ingresses[e.k].HasGroup()
    requires Identified(w.cloud) && DesiredIngresses(w.ingresses, w.ingresses[e.k].group) != []
    ensures var g := w.ingresses[e.k].group;
      && g in after.cloud.dists && g in after.statuses
      && var (s, there) := (after.statuses[g], after.cloud.dists[g]);
      && s.id == there.identity.id && s.arn == there.identity.arn && s.address == there.identity.address
      && s.aliases == there.config.aliases
  {
    var i := w.ingresses[e.k];
    var d := SuccessIsApplied(w, e, cfg, after);
    DesiredDomains(w, i.group, cfg, d);
    SuccessfulDist(w, e.k, e.cls, cfg, d, e.x);
    AppliedCloud(w, e.k, e.cls, cfg, d, e.x);
    UpsertWrites(w.cloud, d, cfg.deletionEnabled, e.x);
    UpsertTells(w.cloud, d, StatusOf(w, i.group), i.name, cfg.deletionEnabled, e.x);
    var dist := DistStepOf(w, e.k, cfg, d, e.x);
    var dns := DnsStepOf(w.zone, dist, e.cls, cfg, e.x);
    FinishWrites(
      w.(cloud := dist.cloud, zone := dns.zone), e.k, d, dist.status.(dns := dns.dns), dist.ok && dns.ok, e.x);
  }

  lemma UpsertTells(c: Cf.Cloud, d: Distribution, s: Status, ref: string, enabled: bool, x: Circumstances)
    requires !d.IsEmpty() && (d.Exists() ==> Cf.Present(c, d)) && SyncDist(c, d, s, ref, enabled, x).ok
    ensures var (step, g) := (SyncDist(c, d, s, ref, enabled, x), d.group);
      && g in step.cloud.dists && var me := step.cloud.dists[g].identity;
      && step.status.id == me.id && step.status.arn == me.arn && step.status.address == me.address
      && step.status.aliases == d.alternateDomains
  {
    var c0, d0 := UpsertIsSync(c, d, enabled, x);
    SyncTells(c0, d0, enabled, x);
  }

  lemma SyncTells(c: Cf.Cloud, d: Distribution, enabled: bool, x: Circumstances)
    requires Cf.SyncOutcome(c, d, enabled, x.ids, x.dist).1.Some?
    ensures var (after, r) := Cf.SyncOutcome(c, d, enabled, x.ids, x.dist);
      && d.group in after.dists && var me := after.dists[d.group].identity;
      && r.value.id == me.id && r.value.arn == me.arn && r.value.address == me.address
      && r.value.alternateDomains == d.alternateDomains
  {
    var remote := c.dists[d.group];
    var synced := c.(oacs := Cf.SyncAll(c.oacs, Cf.DesiredOACs(d.customOrigins), x.ids).0);
    var written := synced.(dists := synced.dists[d.group := remote.(config := Cf.WrittenConfig(c, d, x.ids))]);
    DeleteAllKeepsDists(written, Cf.ObsoleteOACs(remote.config.origins, d), enabled, x.dist.oacDeletes);
  }

  lemma FinishWrites(w: World, k: nat, d: Distribution, s: Status, synced: bool, x: Circumstances)
    requires k < |w.ingresses| && !d.IsEmpty() && Finish(w, k, d, s, synced, x).1
    ensures var (after, g) := (Finish(w, k, d, s, synced, x).0, w.ingresses[k].group);
      g in after.statuses && after.statuses[g] == s.(ingresses := after.statuses[g].ingresses)
  {
  }

  /**
   * If the status cannot be updated, the reconciliation fails and tracks nothing new, whatever it has written to
   * CloudFront and the zone; a group without a status gets an empty one.
   */
  lemma FailedStatusUpdate(w: World, k: nat, cls: Class, cfg: Config, d: Distribution, x: Circumstances)
    requires k < |w.ingresses| && !d.IsEmpty() && !x.createStatus && x.updateStatus
    ensures var ((after, ok), g) := (Applied(w, k, cls, cfg, d, x), w.ingresses[k].group);
      && !ok && g in after.statuses
      && after.statuses[g] == (if g in w.statuses then w.statuses[g] else Status("", "", "", [], map[], None))
      && Tracked(DnsOf(after, g)) == Tracked(DnsOf(w, g))
      && forall h :: h != g ==> (h in after.statuses <==> h in w.statuses) && DnsOf(after, h) == DnsOf(w, h)
  {
    var dist := DistStepOf(w, k, cfg, d, x);
    var dns := DnsStepOf(w.zone, dist, cls, cfg, x);
    FinishUnwritten(
      w.(cloud := dist.cloud, zone := dns.zone), k, d, dist.status.(dns := dns.dns), dist.ok && dns.ok, x);
  }

  lemma FinishUnwritten(w: World, k: nat, d: Distribution, s: Status, synced: bool, x: Circumstances)
    requires k < |w.ingresses| && !d.IsEmpty() && !x.createStatus && x.updateStatus
    ensures var ((after, ok), g) := (Finish(w, k, d, s, synced, x), w.ingresses[k].group);
      && !ok && after.statuses == if g in w.statuses then w.statuses else
        w.statuses[g := Status("", "", "", [], map[], None)]
  {
  }

  // ----- the flag of the DNS section

  /** The DNS section says that the last synchronisation failed. */
  predicate Flagged(dns: Option<DNSStatus>) {
    dns.Some? && !dns.value.synced
  }

  /** A failure raises the flag, also where nothing is tracked; a success never lowers it, but may end the section. */
  lemma FlagAfterSync(
    z: ZoneMap, dns: Option<DNSStatus>, dist: Distribution, cls: Class, enabled: bool, x: Circumstances)
    ensures var after := SyncAliases(z, dns, dist, cls, enabled, x);
      && (!after.ok ==> Flagged(after.dns))
      && (Flagged(dns) && after.dns.Some? ==> Flagged(after.dns))
      && (!Flagged(dns) && after.ok ==> !Flagged(after.dns))
  {
  }

  lemma FlagAfterStep(w: World, e: Event, cfg: Config, after: World, g: string)
    requires ReconcileStep(w, e, cfg, after) && Flagged(DnsOf(w, g)) && DnsOf(after, g).Some?
    ensures Flagged(DnsOf(after, g))
  {
    var applied, d := StepCases(w, e, cfg, after);
    if applied {
      var i, dist := w.ingresses[e.k], DistStepOf(w, e.k, cfg, d, e.x);
      var dns := DnsStepOf(w.zone, dist, e.cls, cfg, e.x);
      FlagAfterSync(w.zone, dist.status.dns, dist.dist, e.cls, cfg.deletionEnabled, e.x);
      SyncDistKeepsDns(w.cloud, d, StatusOf(w, i.group), i.name, cfg.deletionEnabled, e.x);
      FinishKeepsDns(
        w.(cloud := dist.cloud, zone := dns.zone), e.k, d, dist.status.(dns := dns.dns), dist.ok && dns.ok, e.x, g);
    }
  }

  lemma SyncDistKeepsDns(c: Cf.Cloud, d: Distribution, s: Status, ref: string, enabled: bool, x: Circumstances)
    ensures SyncDist(c, d, s, ref, enabled, x).status.dns == s.dns
  {
  }

  lemma FinishKeepsDns(w: World, k: nat, d: Distribution, s: Status, synced: bool, x: Circumstances, g: string)
    requires k < |w.ingresses| && g in w.statuses
    ensures var after := Finish(w, k, d, s, synced, x).0;
      g in after.statuses ==>
        DnsOf(after, g) == DnsOf(w, g) || (w.ingresses[k].group == g && DnsOf(after, g) == s.dns)
  {
  }

  lemma FlagAfterAnyStep(w: World, cfg: Config, after: World, g: string)
    requires AnyStep(w, cfg, after) && Flagged(DnsOf(w, g)) && DnsOf(after, g).Some?
    ensures Flagged(DnsOf(after, g))
  {
    if !UserStep(w, after) {
      var e :| ReconcileStep(w, e, cfg, after);
      FlagAfterStep(w, e, cfg, after, g);
    }
  }

  /** Over any run the flag stays up as long as the section is there, however often the aliases are synchronised. */
  lemma {:induction false} FlagStaysUp(ws: seq<World>, cfg: Config, g: string, i: nat)
    requires AnyRun(ws, cfg) && Flagged(DnsOf(ws[0], g)) && i < |ws|
    requires forall m :: 0 <= m <= i ==> DnsOf(ws[m], g).Some?
    ensures Flagged(DnsOf(ws[i], g))
    decreases i
  {
    if i > 0 {
      FlagStaysUp(ws, cfg, g, i - 1);
      assert AnyStep(ws[i - 1], cfg, ws[i]);
      FlagAfterAnyStep(ws[i - 1], cfg, ws[i], g);
    }
  }
}
