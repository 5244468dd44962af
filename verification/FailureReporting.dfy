/** No failing call is swallowed, and what has happened before it stays. */
module FailureReporting {
  import opened Model
  import opened Zone
  import opened CdnStatuses
  import opened Compiler
  import opened OriginAccess
  import opened AccessControlSafety
  import opened Reconciler
  import opened ReconcilerRuns
  import opened ReconcilerConvergence
  import Dns = AliasRepository
  import Cf = DistRepository

  // ----- deletions stop at the first failure

  /** The first k deletions have taken place, and no others. */
  ghost predicate DeletedUpTo(c: Cf.Cloud, after: Cf.Cloud, ids: seq<string>, k: nat)
    requires k <= |ids|
  {
    && after.dists == c.dists
    && forall r :: r in after.oacs <==> r in c.oacs && r.id !in ids[..k]
  }

  lemma {:induction false} DeletionsStop(c: Cf.Cloud, ids: seq<string>, through: nat) returns (k: nat)
    requires DistinctOACs(c.oacs) && "" !in ids
    ensures var (after, ok) := Cf.DeleteAll(c, ids, true, through);
      && k <= |ids| && DeletedUpTo(c, after, ids, k) && DistinctOACs(after.oacs)
      && (ok <==> k == |ids|) && k <= through && (k < |ids| ==> k == through || Cf.InUse(after, ids[k]))
  {
    k := 0;
    if ids != [] {
      var n := |ids| - 1;
      var (before, ok) := Cf.DeleteAll(c, ids[..n], true, through);
      LastMember(ids, "");
      k := DeletionsStop(c, ids[..n], through);
      assert ids[..n][..k] == ids[..k];
      if ok && n < through {
        LastDeletion(c, before, ids);
        if Cf.DeleteOne(before, ids[n], true).1 {
          k := n + 1;
        }
      }
    }
  }

  lemma LastDeletion(c: Cf.Cloud, before: Cf.Cloud, ids: seq<string>)
    requires ids != [] && ids[|ids| - 1] != "" && DistinctOACs(before.oacs)
    requires DeletedUpTo(c, before, ids, |ids| - 1)
    ensures var n := |ids| - 1; var (after, ok) := Cf.DeleteOne(before, ids[n], true);
      && DistinctOACs(after.oacs) && DeletedUpTo(c, after, ids, if ok then |ids| else n)
      && (!ok ==> Cf.InUse(after, ids[n]))
  {
    var n := |ids| - 1;
    var (after, ok) := Cf.DeleteOne(before, ids[n], true);
    DeleteOneKeeps(before, ids[n], true);
    DeleteOneSucceeds(before, ids[n]);
    if ok {
      DeleteOneRemoves(before, ids[n]);
      OthersStay(before, ids[n]);
      assert ids[..n + 1] == ids[..n] + [ids[n]];
    }
  }

  lemma OthersStay(c: Cf.Cloud, id: string)
    requires DistinctOACs(c.oacs) && id != ""
    ensures forall r :: r in c.oacs && r.id != id ==> r in Cf.DeleteOne(c, id, true).0.oacs
  {
    var i := Cf.Find(c.oacs, id, "");
    if i < |c.oacs| {
      assert c.oacs[i] in c.oacs;
      assert c.oacs == c.oacs[..i] + [c.oacs[i]] + c.oacs[i + 1..];
    }
  }

  /**
   * A synchronisation that gets as far as writing the configuration leaves it written. Of the obsolete access
   * controls it has deleted those before the first failure, which is a failing call or CloudFront's refusal.
   */
  lemma SyncStopsAtFailure(c: Cf.Cloud, d: Distribution, ids: Cf.IdSource, f: Cf.Faults, shortId: ShortId)
    returns (k: nat)
    requires WellBuilt(d, shortId) && DistinctOACs(c.oacs) && FreshIds(c.oacs, ids) && Cf.Present(c, d)
    requires !f.getConfig && !f.update && |Cf.DesiredOACs(d.customOrigins)| <= f.oacSyncs
    ensures var (after, r) := Cf.SyncOutcome(c, d, true, ids, f);
      var obsolete := Cf.ObsoleteOACs(c.dists[d.group].config.origins, d);
      && d.group in after.dists && after.dists[d.group].config == Cf.WrittenConfig(c, d, ids)
      && k <= |obsolete| && k <= f.oacDeletes && (r.Some? <==> k == |obsolete| && !f.tag)
      && (k < |obsolete| ==> k == f.oacDeletes || Cf.InUse(after, obsolete[k]))
      && (forall m :: 0 <= m < k ==> !Exists(after.oacs, obsolete[m]))
      && forall s :: s in c.oacs && s.id !in obsolete[..k] ==> s in after.oacs
  {
    var remote := c.dists[d.group];
    var obsolete := Cf.ObsoleteOACs(remote.config.origins, d);
    var synced := c.(oacs := Cf.SyncAll(c.oacs, Cf.DesiredOACs(d.customOrigins), ids).0);
    var written := synced.(dists := synced.dists[d.group := remote.(config := Cf.WrittenConfig(c, d, ids))]);
    SyncedCarryNames(c, d, ids, shortId);
    ObsoleteMembers(remote.config.origins, d, "");
    k := DeletionsStop(written, obsolete, f.oacDeletes);
  }

  // ----- no failure is swallowed

  lemma {:induction false} AllDeletionsMade(c: Cf.Cloud, ids: seq<string>, through: nat)
    ensures Cf.DeleteAll(c, ids, true, through).1 ==> |ids| <= through
  {
    if ids != [] {
      AllDeletionsMade(c, ids[..|ids| - 1], through);
    }
  }

  /** Every call that an update makes goes through; creating makes one more, and observes what it has created. */
  predicate UpdateCallsMade(d: Distribution, observed: seq<Cf.AwsOrigin>, f: Cf.Faults, enabled: bool) {
    && !f.getConfig && !f.update && !f.tag && |Cf.DesiredOACs(d.customOrigins)| <= f.oacSyncs
    && (enabled ==> |Cf.ObsoleteOACs(observed, d)| <= f.oacDeletes)
  }

  lemma SyncReportsFailures(c: Cf.Cloud, d: Distribution, enabled: bool, ids: Cf.IdSource, f: Cf.Faults)
    ensures Cf.SyncOutcome(c, d, enabled, ids, f).1.Some? ==>
      Cf.Present(c, d) && UpdateCallsMade(d, c.dists[d.group].config.origins, f, enabled)
  {
    if !f.getConfig && Cf.Present(c, d) {
      var remote := c.dists[d.group];
      var synced := c.(oacs := Cf.SyncAll(c.oacs, Cf.DesiredOACs(d.customOrigins), ids).0);
      var written := synced.(dists := synced.dists[d.group := remote.(config := Cf.WrittenConfig(c, d, ids))]);
      AllDeletionsMade(written, Cf.ObsoleteOACs(remote.config.origins, d), f.oacDeletes);
    }
  }

  /** Every call that deleting a distribution makes goes through. */
  predicate DeleteCallsMade(observed: Cf.DistConfig, f: Cf.Faults) {
    && !f.getConfig && (observed.enabled ==> !f.disable) && !f.wait && !f.remove
    && |Cf.AllOACs(observed.origins)| <= f.oacDeletes
  }

  lemma DeleteReportsFailures(c: Cf.Cloud, d: Distribution, f: Cf.Faults)
    requires Cf.Present(c, d)
    ensures Cf.DeleteOutcome(c, d, true, f).1 ==> DeleteCallsMade(c.dists[d.group].config, f)
  {
    var remote := c.dists[d.group];
    var disabled := c.(dists := c.dists[d.group := remote.(config := remote.config.(enabled := false))]);
    AllDeletionsMade(disabled.(dists := disabled.dists - {d.group}), Cf.AllOACs(remote.config.origins), f.oacDeletes);
  }

  /** All listings for the entries and the submission go through; without entries no call is made. */
  predicate DnsCallsMade(entries: nat, f: Dns.Faults) {
    entries == 0 || (!f.submission && entries <= f.listing)
  }

  predicate KubernetesCallsMade(w: World, g: string, empty: bool, x: Circumstances) {
    && !x.parse && !x.list && !x.findDist && !x.getStatus && !x.updateIngress
    && (if empty then !x.deleteStatus else !x.updateStatus && (g !in w.statuses ==> !x.createStatus))
  }

  /** The calls to CloudFront that bringing about d takes. */
  predicate CloudCallsMade(c: Cf.Cloud, d: Distribution, g: string, enabled: bool, x: Circumstances) {
    if d.IsEmpty() then g in c.dists && enabled ==> DeleteCallsMade(c.dists[g].config, x.dist)
    else if g in c.dists then UpdateCallsMade(d, c.dists[g].config.origins, x.dist, enabled)
    else !x.dist.create && UpdateCallsMade(d, Cf.NewConfig(d).origins, x.dist, enabled)
  }

  lemma DistReportsFailures(
    c: Cf.Cloud, d: Distribution, s: Status, ref: string, enabled: bool, x: Circumstances)
    requires SyncDist(c, d, s, ref, enabled, x).ok && (d.Exists() <==> d.group in c.dists)
    requires d.Exists() ==> Cf.Present(c, d)
    ensures CloudCallsMade(c, d, d.group, enabled, x)
  {
    if d.Exists() {
      SyncReportsFailures(c, d, enabled, x.ids, x.dist);
      if enabled {
        DeleteReportsFailures(c, d, x.dist);
      }
    } else {
      var created := c.(dists := c.dists[d.group := Cf.RemoteDist(x.born, Cf.NewConfig(d))]);
      var e := d.(id := x.born.id, arn := x.born.arn, address := x.born.address);
      SyncReportsFailures(created, e, enabled, x.ids, x.dist);
      ObsoleteAlike(Cf.NewConfig(d).origins, d, e);
    }
  }

  /** What is obsolete does not depend on the identity. */
  lemma {:induction false} ObsoleteAlike(os: seq<Cf.AwsOrigin>, d: Distribution, e: Distribution)
    requires e.customOrigins == d.customOrigins
    ensures Cf.ObsoleteOACs(os, e) == Cf.ObsoleteOACs(os, d)
  {
    if os != [] {
      ObsoleteAlike(os[..|os| - 1], d, e);
      assert e.HasOrigin(os[|os| - 1].id) <==> d.HasOrigin(os[|os| - 1].id);
    }
  }

  /** A reported success means that no call failed that the reconciliation makes. */
  lemma SuccessMeansNoFailure(w: World, e: Event, cfg: Config, after: World) returns (d: Distribution)
    requires e.k < |w.ingresses| && Step(w, e.k, e.cls, cfg, e.x, after, true)
    requires w.ingresses[e.k].HasGroup() && Identified(w.cloud)
    ensures var g := w.ingresses[e.k].group;
      && Desired(w, g, cfg, Ok(d))
      && KubernetesCallsMade(w, g, d.IsEmpty(), e.x) && CloudCallsMade(w.cloud, d, g, cfg.deletionEnabled, e.x)
      && (e.cls.createAlias ==>
          && DnsCallsMade(|d.alternateDomains|, e.x.upsert)
          && DnsCallsMade(|ToDelete(DnsOf(w, g), d, cfg.deletionEnabled)|, e.x.delete))
  {
    d := SuccessIsApplied(w, e, cfg, after);
    var i := w.ingresses[e.k];
    DesiredDomains(w, i.group, cfg, d);
    SuccessfulDist(w, e.k, e.cls, cfg, d, e.x);
    DistReportsFailures(w.cloud, d, StatusOf(w, i.group), i.name, cfg.deletionEnabled, e.x);
    var dist := DistStepOf(w, e.k, cfg, d, e.x);
    SyncDistResult(w.cloud, d, StatusOf(w, i.group), i.name, cfg.deletionEnabled, e.x);
    AliasesReportFailures(w.zone, dist.status.dns, dist.dist, e.cls, cfg.deletionEnabled, e.x);
  }

  lemma AliasesReportFailures(
    z: ZoneMap, dns: Option<DNSStatus>, dist: Distribution, cls: Class, enabled: bool, x: Circumstances)
    ensures SyncAliases(z, dns, dist, cls, enabled, x).ok ==>
      && DnsCallsMade(|dist.alternateDomains|, x.upsert) && DnsCallsMade(|ToDelete(dns, dist, enabled)|, x.delete)
  {
  }
}
