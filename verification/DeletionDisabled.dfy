/** With deletion disabled nothing that exists at CloudFront or in the zone ever disappears. */
module DeletionDisabled {
  import opened Model
  import opened Zone
  import opened CdnStatuses
  import opened Compiler
  import opened Ownership
  import opened Reconciler
  import opened AliasBookkeeping
  import opened ReconcilerRuns
  import opened FailedUpdates
  import Dns = AliasRepository
  import Cf = DistRepository

  predicate HasControl(oacs: seq<Cf.OACRecord>, id: string) {
    exists k :: 0 <= k < |oacs| && oacs[k].id == id
  }

  /** The distributions are still there, and the access controls, by their ids. */
  ghost predicate CloudSurvives(c: Cf.Cloud, after: Cf.Cloud) {
    && (forall g :: g in c.dists ==> g in after.dists)
    && forall id :: HasControl(c.oacs, id) ==> HasControl(after.oacs, id)
  }

  /** Every name still has its record sets, of whatever type. */
  ghost predicate ZoneSurvives(z: ZoneMap, after: ZoneMap) {
    forall k :: k in z ==> k in after
  }

  lemma {:induction false} SyncAllSurvives(oacs: seq<Cf.OACRecord>, ds: seq<OAC>, ids: Cf.IdSource, id: string)
    requires HasControl(oacs, id)
    ensures HasControl(Cf.SyncAll(oacs, ds, ids).0, id)
  {
    if ds != [] {
      var n := |ds| - 1;
      SyncAllSurvives(oacs, ds[..n], ids, id);
      var before := Cf.SyncAll(oacs, ds[..n], ids).0;
      var after := Cf.SyncOne(before, ds[n], ids(n)).0;
      var k :| 0 <= k < |before| && before[k].id == id;
      assert after[k].id == id;
    }
  }

  lemma {:induction false} DeletesNothing(c: Cf.Cloud, ids: seq<string>, through: nat)
    ensures Cf.DeleteAll(c, ids, false, through) == (c, true)
  {
    if ids != [] {
      DeletesNothing(c, ids[..|ids| - 1], through);
    }
  }

  lemma SyncSurvives(c: Cf.Cloud, d: Distribution, ids: Cf.IdSource, f: Cf.Faults)
    ensures CloudSurvives(c, Cf.SyncOutcome(c, d, false, ids, f).0)
  {
    if !f.getConfig && Cf.Present(c, d) {
      var desired, remote := Cf.DesiredOACs(d.customOrigins), c.dists[d.group];
      var through := if f.oacSyncs < |desired| then desired[..f.oacSyncs] else desired;
      forall id | HasControl(c.oacs, id)
        ensures HasControl(Cf.SyncAll(c.oacs, through, ids).0, id)
      {
        SyncAllSurvives(c.oacs, through, ids, id);
      }
      var synced := c.(oacs := Cf.SyncAll(c.oacs, desired, ids).0);
      var written := synced.(dists := synced.dists[d.group := remote.(config := Cf.WrittenConfig(c, d, ids))]);
      DeletesNothing(written, Cf.ObsoleteOACs(remote.config.origins, d), f.oacDeletes);
    }
  }

  lemma SyncDistSurvives(c: Cf.Cloud, d: Distribution, s: Status, ref: string, x: Circumstances)
    ensures CloudSurvives(c, SyncDist(c, d, s, ref, false, x).cloud)
  {
    if !d.IsEmpty() {
      if d.Exists() {
        SyncSurvives(c, d, x.ids, x.dist);
      } else {
        var created := c.(dists := c.dists[d.group := Cf.RemoteDist(x.born, Cf.NewConfig(d))]);
        SyncSurvives(created, d.(id := x.born.id, arn := x.born.arn, address := x.born.address), x.ids, x.dist);
      }
    }
  }

  lemma SyncAliasesSurvives(z: ZoneMap, dns: Option<DNSStatus>, dist: Distribution, cls: Class, x: Circumstances)
    ensures ZoneSurvives(z, SyncAliases(z, dns, dist, cls, false, x).zone)
  {
    var al := UpsertingAliases(dist, cls);
    UpsertedNames(dist, cls);
    assert DeletingAliases(dns, dist, cls, false).entries == [];
    if Upserts(z, dist, cls, x) {
      UpsertAchieves(z, al, x.upsert);
      forall k | k in z
        ensures k in AfterUpsert(z, dist, cls, x)
      {
        if Requested(al, k) {
          assert At(AfterUpsert(z, dist, cls, x), k).Some?;
        } else {
          assert At(AfterUpsert(z, dist, cls, x), k) == At(z, k);
        }
      }
    }
  }

  lemma StepSurvives(w: World, e: Event, cfg: Config, after: World)
    requires ReconcileStep(w, e, cfg, after) && !cfg.deletionEnabled
    ensures CloudSurvives(w.cloud, after.cloud) && ZoneSurvives(w.zone, after.zone)
  {
    var applied, d := StepCases(w, e, cfg, after);
    if applied {
      var i, dist := w.ingresses[e.k], DistStepOf(w, e.k, cfg, d, e.x);
      AppliedCloud(w, e.k, e.cls, cfg, d, e.x);
      SyncDistSurvives(w.cloud, d, StatusOf(w, i.group), i.name, e.x);
      if e.cls.createAlias {
        SyncAliasesSurvives(w.zone, dist.status.dns, dist.dist, e.cls, e.x);
      }
    }
  }

  /** Over any run by any classes, whatever fails, distributions, access controls and record sets stay there. */
  lemma {:induction false} NothingDisappears(ws: seq<World>, cfg: Config, i: nat)
    requires AnyRun(ws, cfg) && !cfg.deletionEnabled && i < |ws|
    ensures CloudSurvives(ws[0].cloud, ws[i].cloud) && ZoneSurvives(ws[0].zone, ws[i].zone)
    decreases i
  {
    if i > 0 {
      NothingDisappears(ws, cfg, i - 1);
      assert AnyStep(ws[i - 1], cfg, ws[i]);
      if !UserStep(ws[i - 1], ws[i]) {
        var e :| ReconcileStep(ws[i - 1], e, cfg, ws[i]);
        StepSurvives(ws[i - 1], e, cfg, ws[i]);
      }
    }
  }
}
