/** Over any run, every origin has the access control that is named after it. */
module AccessControlRuns {
  import opened Model
  import opened SharedParams
  import opened OriginAccess
  import opened Compiler
  import opened CdnStatuses
  import opened DistRepository
  import opened AccessControlSafety
  import opened Reconciler
  import opened ReconcilerRuns

  /** Whatever distribution references an access control references the one named after the group and the host. */
  ghost predicate AllOwn(c: Cloud, shortId: ShortId) {
    DistinctOACs(c.oacs) && forall g :: g in c.dists ==> OwnConfig(c.dists[g].config, g, c.oacs, shortId)
  }

  predicate OwnConfig(config: DistConfig, g: string, oacs: seq<OACRecord>, shortId: ShortId) {
    forall o :: o in config.origins && HasOAC(o) ==>
      OACRecord(o.accessControlId.value, OacName(shortId, g, o.id)) in oacs
  }

  /** This is what the results on single synchronisations assume. */
  lemma OwnIsObserved(c: Cloud, d: Distribution, shortId: ShortId)
    requires AllOwn(c, shortId) && Present(c, d)
    ensures ObservedOwn(c, d, shortId)
  {
    assert OwnConfig(c.dists[d.group].config, d.group, c.oacs, shortId);
  }

  // ----- what the operations keep

  lemma MoreControls(c: Cloud, oacs: seq<OACRecord>, shortId: ShortId)
    requires AllOwn(c, shortId) && DistinctOACs(oacs) && forall r :: r in c.oacs ==> r in oacs
    ensures AllOwn(c.(oacs := oacs), shortId)
  {
    forall g | g in c.dists
      ensures OwnConfig(c.dists[g].config, g, oacs, shortId)
    {
      assert OwnConfig(c.dists[g].config, g, c.oacs, shortId);
    }
  }

  lemma DeletionsKeepOwn(c: Cloud, ids: seq<string>, enabled: bool, through: nat, shortId: ShortId)
    requires AllOwn(c, shortId)
    ensures AllOwn(DeleteAll(c, ids, enabled, through).0, shortId)
  {
    var after := DeleteAll(c, ids, enabled, through).0;
    DeleteAllKeeps(c, ids, enabled, through);
    forall g | g in c.dists
      ensures OwnConfig(after.dists[g].config, g, after.oacs, shortId)
    {
      assert OwnConfig(c.dists[g].config, g, c.oacs, shortId);
      forall o | o in c.dists[g].config.origins && HasOAC(o)
        ensures OACRecord(o.accessControlId.value, OacName(shortId, g, o.id)) in after.oacs
      {
        assert References(c.dists[g].config, o.accessControlId.value);
        assert InUse(c, o.accessControlId.value);
      }
    }
  }

  lemma SyncedKeepsOwn(c: Cloud, d: Distribution, ids: IdSource, n: nat, shortId: ShortId)
    requires AllOwn(c, shortId) && WellBuilt(d, shortId) && FreshIds(c.oacs, ids) && n <= |DesiredOACs(d.customOrigins)|
    ensures AllOwn(c.(oacs := SyncAll(c.oacs, DesiredOACs(d.customOrigins)[..n], ids).0), shortId)
  {
    var ds := DesiredOACs(d.customOrigins)[..n];
    forall oac | oac in ds
      ensures oac.id == "" && oac.name != ""
    {
      DesiredOACsMembers(d.customOrigins, oac);
    }
    SyncAllKeeps(c.oacs, ds, ids);
    MoreControls(c, SyncAll(c.oacs, ds, ids).0, shortId);
  }

  lemma WritingKeepsOwn(c: Cloud, d: Distribution, ids: IdSource, shortId: ShortId)
    requires AllOwn(c, shortId) && WellBuilt(d, shortId) && FreshIds(c.oacs, ids) && d.group in c.dists
    ensures var remote := c.dists[d.group];
      AllOwn(
        Cloud(c.dists[d.group := remote.(config := WrittenConfig(c, d, ids))],
              SyncAll(c.oacs, DesiredOACs(d.customOrigins), ids).0),
        shortId)
  {
    var ds := DesiredOACs(d.customOrigins);
    assert ds[..|ds|] == ds;
    SyncedKeepsOwn(c, d, ids, |ds|, shortId);
    WrittenOriginsCarry(c, d, ids, shortId);
    WrittenIsOwn(WrittenConfig(c, d, ids), d, SyncAll(c.oacs, ds, ids).0, shortId);
  }

  lemma WrittenIsOwn(config: DistConfig, d: Distribution, oacs: seq<OACRecord>, shortId: ShortId)
    requires forall o :: o in config.origins ==> Carries(o, oacs, d, shortId)
    ensures OwnConfig(config, d.group, oacs, shortId)
  {
    forall o | o in config.origins && HasOAC(o)
      ensures OACRecord(o.accessControlId.value, OacName(shortId, d.group, o.id)) in oacs
    {
      assert Carries(o, oacs, d, shortId);
    }
  }

  lemma SyncKeepsOwn(c: Cloud, d: Distribution, enabled: bool, ids: IdSource, f: Faults, shortId: ShortId)
    requires AllOwn(c, shortId) && WellBuilt(d, shortId) && FreshIds(c.oacs, ids)
    ensures AllOwn(SyncOutcome(c, d, enabled, ids, f).0, shortId)
  {
    if !f.getConfig && Present(c, d) {
      var ds, remote := DesiredOACs(d.customOrigins), c.dists[d.group];
      if f.oacSyncs < |ds| {
        SyncedKeepsOwn(c, d, ids, f.oacSyncs, shortId);
      } else {
        assert ds[..|ds|] == ds;
        SyncedKeepsOwn(c, d, ids, |ds|, shortId);
        WritingKeepsOwn(c, d, ids, shortId);
        var written :=
          Cloud(c.dists[d.group := remote.(config := WrittenConfig(c, d, ids))], SyncAll(c.oacs, ds, ids).0);
        DeletionsKeepOwn(written, ObsoleteOACs(remote.config.origins, d), enabled, f.oacDeletes, shortId);
      }
    }
  }

  /** Nothing is attached to the origins of a distribution that has just been created. */
  lemma CreateKeepsOwn(
    c: Cloud, d: Distribution, born: Identity, enabled: bool, ids: IdSource, f: Faults, shortId: ShortId)
    requires AllOwn(c, shortId) && WellBuilt(d, shortId) && FreshIds(c.oacs, ids)
    ensures AllOwn(CreateOutcome(c, d, born, enabled, ids, f).0, shortId)
  {
    var created := c.(dists := c.dists[d.group := RemoteDist(born, NewConfig(d))]);
    var os := NewConfig(d).origins;
    forall k | 0 <= k < |os|
      ensures !HasOAC(os[k])
    {
      if k > 0 {
        var o := d.customOrigins[k - 1];
        assert os[k] == NewAwsOrigin(o) && o in d.customOrigins;
      }
    }
    assert AllOwn(created, shortId);
    SyncKeepsOwn(
      created, d.(id := born.id, arn := born.arn, address := born.address), enabled, ids, f, shortId);
  }

  lemma DeleteKeepsOwn(c: Cloud, d: Distribution, enabled: bool, f: Faults, shortId: ShortId)
    requires AllOwn(c, shortId)
    ensures AllOwn(DeleteOutcome(c, d, enabled, f).0, shortId)
  {
    if Present(c, d) {
      var remote := c.dists[d.group];
      assert OwnConfig(remote.config, d.group, c.oacs, shortId);
      var disabled := c.(dists := c.dists[d.group := remote.(config := remote.config.(enabled := false))]);
      assert AllOwn(disabled, shortId);
      var removed := disabled.(dists := disabled.dists - {d.group});
      DeletionsKeepOwn(removed, AllOACs(remote.config.origins), enabled, f.oacDeletes, shortId);
    }
  }

  lemma SyncDistKeepsOwn(
    c: Cloud, d: Distribution, s: Status, ref: string, enabled: bool, x: Circumstances, shortId: ShortId)
    requires AllOwn(c, shortId) && WellBuilt(d, shortId) && FreshIds(c.oacs, x.ids)
    ensures AllOwn(SyncDist(c, d, s, ref, enabled, x).cloud, shortId)
  {
    if d.IsEmpty() {
      DeleteKeepsOwn(c, d, enabled, x.dist, shortId);
    } else if d.Exists() {
      SyncKeepsOwn(c, d, enabled, x.ids, x.dist, shortId);
    } else {
      CreateKeepsOwn(c, d, x.born, enabled, x.ids, x.dist, shortId);
    }
  }

  // ----- over runs

  lemma {:induction false} DesiredAreParsed(ingresses: seq<Ingress>, g: string)
    requires AllParsed(ingresses)
    ensures forall i :: i in DesiredIngresses(ingresses, g) ==>
      i.group == g && (i.originAccess == ACCESS_PUBLIC || i.originAccess == ACCESS_BUCKET)
  {
    if ingresses != [] {
      var n := |ingresses| - 1;
      assert forall i :: i in ingresses[..n] ==> i in ingresses;
      DesiredAreParsed(ingresses[..n], g);
      assert ingresses[n] in ingresses;
    }
  }

  lemma DesiredIsWellBuilt(w: World, g: string, cfg: Config, d: Distribution)
    requires Desired(w, g, cfg, Ok(d)) && AllParsed(w.ingresses)
    ensures WellBuilt(d, cfg.shortId)
  {
    var ings := DesiredIngresses(w.ingresses, g);
    DesiredAreParsed(w.ingresses, g);
    var shared :| SharedFrom(ings, shared) &&
      if shared.Err? then Ok(d) == Err(shared.error)
      else DistributionFrom(Ok(d), ings, shared.value, SettingOf(w, g, cfg), cfg.shortId);
    CompiledIsWellBuilt(d, ings, shared.value, SettingOf(w, g, cfg), cfg.shortId);
  }

  /** A reconciliation of parsed Ingresses for which CloudFront gives out new ids, or a change of Ingresses. */
  ghost predicate FreshStep(w: World, cfg: Config, after: World) {
    UserStep(w, after) || exists e: Event :: FreshIds(w.cloud.oacs, e.x.ids) && ReconcileStep(w, e, cfg, after)
  }

  ghost predicate FreshRun(ws: seq<World>, cfg: Config) {
    && ws != []
    && (forall i :: 0 <= i < |ws| ==> AllParsed(ws[i].ingresses))
    && forall i :: 0 < i < |ws| ==> FreshStep(ws[i - 1], cfg, ws[i])
  }

  lemma StepKeepsOwn(w: World, e: Event, cfg: Config, after: World)
    requires ReconcileStep(w, e, cfg, after) && AllParsed(w.ingresses)
    requires AllOwn(w.cloud, cfg.shortId) && FreshIds(w.cloud.oacs, e.x.ids)
    ensures AllOwn(after.cloud, cfg.shortId)
  {
    var i := w.ingresses[e.k];
    var applied, d := StepCases(w, e, cfg, after);
    if applied {
      DesiredIsWellBuilt(w, i.group, cfg, d);
      AppliedCloud(w, e.k, e.cls, cfg, d, e.x);
      SyncDistKeepsOwn(w.cloud, d, StatusOf(w, i.group), i.name, cfg.deletionEnabled, e.x, cfg.shortId);
    }
  }

  /**
   * Over any run, with whatever calls failing, access controls stay distinct and every origin that has one has the
   * one named after its group and host.
   */
  lemma {:induction false} OwnOverRuns(ws: seq<World>, cfg: Config, i: nat)
    requires FreshRun(ws, cfg) && AllOwn(ws[0].cloud, cfg.shortId) && i < |ws|
    ensures AllOwn(ws[i].cloud, cfg.shortId)
    decreases i
  {
    if i > 0 {
      OwnOverRuns(ws, cfg, i - 1);
      assert FreshStep(ws[i - 1], cfg, ws[i]);
      if !UserStep(ws[i - 1], ws[i]) {
        var e: Event :| FreshIds(ws[i - 1].cloud.oacs, e.x.ids) && ReconcileStep(ws[i - 1], e, cfg, ws[i]);
        StepKeepsOwn(ws[i - 1], e, cfg, ws[i]);
      }
    }
  }
}
