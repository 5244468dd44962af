/** Exactly when a reconciliation succeeds in which no remote call fails. */
module ReconcilerSuccess {
  import opened Model
  import opened OriginAccess
  import opened Compiler
  import opened Zone
  import opened CdnStatuses
  import opened Ownership
  import opened AliasRoundTrip
  import opened AliasDeletion
  import opened AccessControlSafety
  import opened AccessControlRuns
  import opened Reconciler
  import opened AliasBookkeeping
  import opened ReconcilerRuns
  import opened FailedUpdates
  import Dns = AliasRepository
  import Cf = DistRepository

  // ----- the distribution

  /** No call about the distribution fails. */
  predicate QuietDist(c: Cf.Cloud, d: Distribution, f: Cf.Faults) {
    && !f.getConfig && !f.create && !f.update && !f.tag && !f.disable && !f.wait && !f.remove
    && |Cf.DesiredOACs(d.customOrigins)| <= f.oacSyncs
    && (Cf.Present(c, d) ==>
        && |Cf.ObsoleteOACs(c.dists[d.group].config.origins, d)| <= f.oacDeletes
        && |Cf.AllOACs(c.dists[d.group].config.origins)| <= f.oacDeletes)
  }

  lemma CreateSucceeds(
    c: Cf.Cloud, d: Distribution, born: Cf.Identity, ids: Cf.IdSource, f: Cf.Faults, shortId: ShortId)
    requires AllOwn(c, shortId) && WellBuilt(d, shortId) && FreshIds(c.oacs, ids) && QuietDist(c, d, f)
    ensures Cf.CreateOutcome(c, d, born, true, ids, f).1.Some?
  {
    var created := c.(dists := c.dists[d.group := Cf.RemoteDist(born, Cf.NewConfig(d))]);
    var e := d.(id := born.id, arn := born.arn, address := born.address);
    var os := Cf.NewConfig(d).origins;
    NothingAttached(d, shortId);
    NothingObsolete(os, e);
    SyncSucceedsIffNothingNeededIsDeleted(created, e, ids, f, shortId);
  }

  lemma NothingAttached(d: Distribution, shortId: ShortId)
    requires WellBuilt(d, shortId)
    ensures forall o :: o in Cf.NewConfig(d).origins ==> !Cf.HasOAC(o)
  {
    var os := Cf.NewConfig(d).origins;
    forall k | 0 <= k < |os|
      ensures !Cf.HasOAC(os[k])
    {
      if k > 0 {
        var o := d.customOrigins[k - 1];
        assert os[k] == Cf.NewAwsOrigin(o) && o in d.customOrigins;
      }
    }
  }

  /** No access control of the distribution is used by another group. */
  ghost predicate NoneIsShared(c: Cf.Cloud, d: Distribution)
    requires Cf.Present(c, d)
  {
    forall id :: id in Cf.AllOACs(c.dists[d.group].config.origins) ==> !UsedByOthers(c, d, id)
  }

  lemma DeleteSucceedsIffNoneIsShared(c: Cf.Cloud, d: Distribution, f: Cf.Faults, shortId: ShortId)
    requires AllOwn(c, shortId) && Cf.Present(c, d) && QuietDist(c, d, f)
    ensures Cf.DeleteOutcome(c, d, true, f).1 <==> NoneIsShared(c, d)
  {
    var remote := c.dists[d.group];
    var disabled := c.(dists := c.dists[d.group := remote.(config := remote.config.(enabled := false))]);
    var removed := disabled.(dists := disabled.dists - {d.group});
    var all := Cf.AllOACs(remote.config.origins);
    assert OwnConfig(remote.config, d.group, c.oacs, shortId);
    forall id | id in all
      ensures id != "" && Exists(removed.oacs, id)
      ensures Cf.InUse(removed, id) <==> UsedByOthers(c, d, id)
    {
      AllOACsMembers(remote.config.origins, id);
      InUseAfterRemoval(c, d, removed, id);
    }
    DeleteAllSucceeds(removed, all, f.oacDeletes);
  }

  lemma InUseAfterRemoval(c: Cf.Cloud, d: Distribution, removed: Cf.Cloud, id: string)
    requires removed.dists.Keys == c.dists.Keys - {d.group}
    requires forall g :: g in removed.dists ==> removed.dists[g] == c.dists[g]
    ensures Cf.InUse(removed, id) <==> UsedByOthers(c, d, id)
  {
    if g :| g in c.dists && g != d.group && Cf.References(c.dists[g].config, id) {
      assert Cf.References(removed.dists[g].config, id);
    }
  }

  /** No access control that has to go is still needed. */
  ghost predicate ControlsCanGo(c: Cf.Cloud, d: Distribution, shortId: ShortId)
    requires d.Exists() ==> Cf.Present(c, d)
  {
    d.Exists() ==> if d.IsEmpty() then NoneIsShared(c, d) else NothingNeededIsDeleted(c, d, shortId)
  }

  lemma DistSucceedsIff(
    c: Cf.Cloud, d: Distribution, s: Status, ref: string, x: Circumstances, shortId: ShortId)
    requires AllOwn(c, shortId) && WellBuilt(d, shortId) && FreshIds(c.oacs, x.ids)
    requires QuietDist(c, d, x.dist) && (d.Exists() ==> Cf.Present(c, d))
    ensures SyncDist(c, d, s, ref, true, x).ok <==> ControlsCanGo(c, d, shortId)
  {
    if d.IsEmpty() {
      if d.Exists() {
        DeleteSucceedsIffNoneIsShared(c, d, x.dist, shortId);
      }
    } else if d.Exists() {
      OwnIsObserved(c, d, shortId);
      UpdateIsSync(c, d, s, ref, x);
      SyncSucceedsIffNothingNeededIsDeleted(c, d, x.ids, x.dist, shortId);
    } else {
      CreateSucceeds(c, d, x.born, x.ids, x.dist, shortId);
    }
  }

  // ----- the aliases

  /** All desired names validate, and all tracked names that are not desired can be erased. */
  ghost predicate NamesCanGo(z: ZoneMap, dns: Option<DNSStatus>, d: Distribution, cls: Class) {
    && (forall e :: e in UpsertingAliases(d, cls).entries ==> Dns.Valid(Own(cls), Dns.Existing(z, e)))
    && AllErasable(z, Own(cls), DeletingAliases(dns, d, cls, true).entries)
  }

  lemma ErasableAlike(z: ZoneMap, z1: ZoneMap, own: string, e: Dns.Entry)
    requires forall t :: At(z1, Key(e.name, t)) == At(z, Key(e.name, t))
    ensures Erasable(z1, own, e) <==> Erasable(z, own, e)
  {
    assert At(z1, Key(e.name, TYPE_A)) == At(z, Key(e.name, TYPE_A));
    assert At(z1, Key(e.name, TYPE_AAAA)) == At(z, Key(e.name, TYPE_AAAA));
    assert At(z1, Key(e.name, TYPE_TXT)) == At(z, Key(e.name, TYPE_TXT));
    assert Dns.Existing(z1, e) == Dns.Existing(z, e);
  }

  /** Upserting the desired names leaves alone the names to delete. */
  lemma ErasableAfterUpsert(z: ZoneMap, dns: Option<DNSStatus>, d: Distribution, cls: Class, x: Circumstances)
    requires AllAbsolute(Tracked(dns))
    ensures var es := DeletingAliases(dns, d, cls, true).entries;
      AllErasable(AfterUpsert(z, d, cls, x), Own(cls), es) <==> AllErasable(z, Own(cls), es)
  {
    var upserting, deleting := UpsertingAliases(d, cls), DeletingAliases(dns, d, cls, true);
    UpsertedNames(d, cls);
    DeletedNames(dns, d, cls, true);
    forall e | e in deleting.entries
      ensures Erasable(AfterUpsert(z, d, cls, x), Own(cls), e) <==> Erasable(z, Own(cls), e)
    {
      assert Names(deleting, e.name) && !Names(upserting, e.name);
      UnnamedIsUntouched(z, UpsertOp, upserting, x.upsert, e.name);
      ErasableAlike(z, AfterUpsert(z, d, cls, x), Own(cls), e);
    }
  }

  lemma AliasesSucceedIff(z: ZoneMap, dns: Option<DNSStatus>, d: Distribution, cls: Class, x: Circumstances)
    requires AllAbsolute(Tracked(dns)) && AliasBookkeeping.Undisturbed(dns, d, cls, true, x)
    ensures SyncAliases(z, dns, d, cls, true, x).ok <==> NamesCanGo(z, dns, d, cls)
  {
    UpsertedNames(d, cls);
    DeletedNames(dns, d, cls, true);
    UpsertSucceedsIffValid(z, UpsertingAliases(d, cls), x.upsert);
    ErasableAfterUpsert(z, dns, d, cls, x);
    DeleteSucceedsIffErasable(AfterUpsert(z, d, cls, x), DeletingAliases(dns, d, cls, true), x.delete);
  }

  // ----- the reconciliation

  /** No remote call of the reconciliation fails. */
  predicate Quiet(w: World, k: nat, cls: Class, d: Distribution, x: Circumstances)
    requires k < |w.ingresses|
  {
    && QuietDist(w.cloud, d, x.dist)
    && (cls.createAlias ==> AliasBookkeeping.Undisturbed(DnsOf(w, w.ingresses[k].group), d, cls, true, x))
    && !x.updateIngress && !x.createStatus && !x.updateStatus && !x.deleteStatus
  }

  lemma FinishSucceedsIff(w: World, k: nat, d: Distribution, s: Status, synced: bool, x: Circumstances)
    requires k < |w.ingresses|
    requires !x.updateIngress && !x.createStatus && !x.updateStatus && !x.deleteStatus
    ensures Finish(w, k, d, s, synced, x).1 <==> synced
  {
  }

  /** Aliases depend on the names and address types of the distribution, not on where it is. */
  lemma AliasesOfAlike(dns: Option<DNSStatus>, d: Distribution, e: Distribution, cls: Class)
    requires e.alternateDomains == d.alternateDomains && e.ipv6Enabled == d.ipv6Enabled
    ensures UpsertingAliases(e, cls).entries == UpsertingAliases(d, cls).entries
    ensures DeletingAliases(dns, e, cls, true).entries == DeletingAliases(dns, d, cls, true).entries
  {
  }

  lemma DnsSucceedsIff(
    w: World, k: nat, cls: Class, cfg: Config, d: Distribution, x: Circumstances)
    requires k < |w.ingresses| && cfg.deletionEnabled && Quiet(w, k, cls, d, x)
    requires AllAbsolute(Tracked(DnsOf(w, w.ingresses[k].group))) && DistStepOf(w, k, cfg, d, x).ok
    ensures DnsStepOf(w.zone, DistStepOf(w, k, cfg, d, x), cls, cfg, x).ok <==>
      (cls.createAlias ==> NamesCanGo(w.zone, DnsOf(w, w.ingresses[k].group), d, cls))
  {
    var i, dist := w.ingresses[k], DistStepOf(w, k, cfg, d, x);
    SyncDistResult(w.cloud, d, StatusOf(w, i.group), i.name, true, x);
    if cls.createAlias {
      AliasesOfAlike(dist.status.dns, d, dist.dist, cls);
      AliasesSucceedIff(w.zone, dist.status.dns, dist.dist, cls, x);
    }
  }

  /**
   * With deletion enabled and no remote call failing, bringing the desired distribution about succeeds if and only
   * if no access control that has to go is needed elsewhere, and, where the class manages aliases, every desired
   * name validates and every name to delete can be erased. All of this can be read off the state before.
   */
  lemma ReconciliationSucceedsIff(w: World, k: nat, cls: Class, cfg: Config, d: Distribution, x: Circumstances)
    requires k < |w.ingresses| && cfg.deletionEnabled && Quiet(w, k, cls, d, x)
    requires AllOwn(w.cloud, cfg.shortId) && WellBuilt(d, cfg.shortId) && FreshIds(w.cloud.oacs, x.ids)
    requires d.Exists() ==> Cf.Present(w.cloud, d)
    requires AllAbsolute(Tracked(DnsOf(w, w.ingresses[k].group)))
    ensures Applied(w, k, cls, cfg, d, x).1 <==>
      && ControlsCanGo(w.cloud, d, cfg.shortId)
      && (cls.createAlias ==> NamesCanGo(w.zone, DnsOf(w, w.ingresses[k].group), d, cls))
  {
    var i, dist := w.ingresses[k], DistStepOf(w, k, cfg, d, x);
    DistSucceedsIff(w.cloud, d, StatusOf(w, i.group), i.name, x, cfg.shortId);
    if dist.ok {
      DnsSucceedsIff(w, k, cls, cfg, d, x);
    }
    var dns := DnsStepOf(w.zone, dist, cls, cfg, x);
    FinishSucceedsIff(
      w.(cloud := dist.cloud, zone := dns.zone), k, d, dist.status.(dns := dns.dns), dist.ok && dns.ok, x);
  }
}
