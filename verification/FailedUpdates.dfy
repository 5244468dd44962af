/**
 * What a failed update of a distribution does to its aliases: when it costs them, that it does, and why IPv6 makes
 * the loss permanent.
 */
module FailedUpdates {
  import opened Model
  import opened OriginAccess
  import opened Compiler
  import opened Zone
  import opened CdnStatuses
  import opened Ownership
  import opened AliasDeletion
  import opened Reconciler
  import opened AliasBookkeeping
  import opened ReconcilerRuns
  import opened ReconcilerConvergence
  import opened AccessControlSafety
  import Dns = AliasRepository
  import Cf = DistRepository

  // ----- a failed update gives the aliases up

  /**
   * When creating or updating the distribution fails, the alias step still runs, on a distribution without
   * domains: with deletion enabled, if its calls succeed, no name is tracked any more, and every name that was
   * has lost its A record and its ownership value. Other address records stay, even if IPv6 is enabled.
   */
  lemma FailedUpdateDropsAliases(
    w: World, k: nat, cls: Class, cfg: Config, d: Distribution, x: Circumstances, name: string)
    requires k < |w.ingresses| && cls.createAlias && cfg.deletionEnabled
    requires SingleOwners(w.zone) && AllAbsolute(Tracked(DnsOf(w, w.ingresses[k].group)))
    requires !d.IsEmpty() && !DistStepOf(w, k, cfg, d, x).ok
    requires DnsStepOf(w.zone, DistStepOf(w, k, cfg, d, x), cls, cfg, x).ok
    ensures var step := DnsStepOf(w.zone, DistStepOf(w, k, cfg, d, x), cls, cfg, x);
      && Tracked(step.dns) == {}
      && (name in Tracked(DnsOf(w, w.ingresses[k].group)) ==>
          && Key(name, TYPE_A) !in step.zone && Owned(TxtValues(step.zone, name)) == []
          && At(step.zone, Key(name, TYPE_AAAA)) == At(w.zone, Key(name, TYPE_AAAA)))
  {
    var dist := DistStepOf(w, k, cfg, d, x);
    assert dist.dist == ZERO_DISTRIBUTION && dist.status.dns == DnsOf(w, w.ingresses[k].group);
    NoDomainsDropsTracked(w.zone, dist.status.dns, ZERO_DISTRIBUTION, cls, x, name);
  }

  lemma NoDomainsDropsTracked(
    z: ZoneMap, dns: Option<DNSStatus>, dist: Distribution, cls: Class, x: Circumstances, name: string)
    requires SingleOwners(z) && AllAbsolute(Tracked(dns)) && dist.alternateDomains == [] && !dist.ipv6Enabled
    requires SyncAliases(z, dns, dist, cls, true, x).ok
    ensures var step := SyncAliases(z, dns, dist, cls, true, x);
      && Tracked(step.dns) == {}
      && (name in Tracked(dns) ==>
          && Key(name, TYPE_A) !in step.zone && Owned(TxtValues(step.zone, name)) == []
          && At(step.zone, Key(name, TYPE_AAAA)) == At(z, Key(name, TYPE_AAAA)))
  {
    TrackedConverges(z, dns, dist, cls, x);
    assert DesiredNames(dist) == {};
    if name in Tracked(dns) {
      NoDomainsDeletesAll(z, dns, dist, cls, x, name);
    }
  }

  // ----- exactly when

  /** The tracked names that are still desired. */
  function KeptNames(dns: Option<DNSStatus>, d: Distribution): set<string> {
    Tracked(dns) * DesiredNames(d)
  }

  ghost predicate AllHeldAt(z: ZoneMap, own: string, names: set<string>) {
    forall name :: name in names ==> Holds(z, own, name)
  }

  /**
   * Tracked names that are still desired stay held if and only if the distribution step succeeds, or there are
   * none, or the deletion of all tracked names fails.
   */
  lemma AliasesAreKeptIff(w: World, k: nat, cls: Class, cfg: Config, d: Distribution, x: Circumstances)
    requires k < |w.ingresses| && cls.createAlias && cfg.deletionEnabled && !d.IsEmpty()
    requires var dns := DnsOf(w, w.ingresses[k].group);
      SingleOwners(w.zone) && AllAbsolute(Tracked(dns)) && TrackedHeld(w.zone, Own(cls), dns)
    ensures var (dns, dist) := (DnsOf(w, w.ingresses[k].group), DistStepOf(w, k, cfg, d, x));
      AllHeldAt(DnsStepOf(w.zone, dist, cls, cfg, x).zone, Own(cls), KeptNames(dns, d)) <==>
        dist.ok || KeptNames(dns, d) == {} || !Deletes(w.zone, dns, ZERO_DISTRIBUTION, cls, true, x)
  {
    var dns, dist := DnsOf(w, w.ingresses[k].group), DistStepOf(w, k, cfg, d, x);
    SyncDistResult(w.cloud, d, StatusOf(w, w.ingresses[k].group), w.ingresses[k].name, cfg.deletionEnabled, x);
    if dist.ok {
      KeptAreHeld(w.zone, dns, dist.dist, cls, x);
    } else {
      DroppedUnlessDeletionFails(w.zone, dns, d, cls, x);
    }
  }

  lemma KeptAreHeld(z: ZoneMap, dns: Option<DNSStatus>, dist: Distribution, cls: Class, x: Circumstances)
    requires SingleOwners(z) && AllAbsolute(Tracked(dns)) && TrackedHeld(z, Own(cls), dns)
    ensures AllHeldAt(SyncAliases(z, dns, dist, cls, true, x).zone, Own(cls), KeptNames(dns, dist))
  {
    SyncKeepsTrackedHeld(z, dns, dist, cls, true, x);
    TrackedAfterSync(z, dns, dist, cls, true, x);
  }

  lemma DroppedUnlessDeletionFails(z: ZoneMap, dns: Option<DNSStatus>, d: Distribution, cls: Class, x: Circumstances)
    requires SingleOwners(z) && AllAbsolute(Tracked(dns)) && TrackedHeld(z, Own(cls), dns)
    ensures AllHeldAt(SyncAliases(z, dns, ZERO_DISTRIBUTION, cls, true, x).zone, Own(cls), KeptNames(dns, d)) <==>
      KeptNames(dns, d) == {} || !Deletes(z, dns, ZERO_DISTRIBUTION, cls, true, x)
  {
    var after := SyncAliases(z, dns, ZERO_DISTRIBUTION, cls, true, x).zone;
    if Deletes(z, dns, ZERO_DISTRIBUTION, cls, true, x) {
      forall name | name in KeptNames(dns, d)
        ensures !Holds(after, Own(cls), name)
      {
        NoDomainsDeletesAll(z, dns, ZERO_DISTRIBUTION, cls, x, name);
        assert TYPE_A in Dns.AddressTypes(false);
      }
    } else {
      assert UpsertingAliases(ZERO_DISTRIBUTION, cls).entries == [];
      assert after == z;
    }
  }

  /** No access control of a removed origin is needed, by a bucket that stays or by another group. */
  ghost predicate NothingNeededIsDeleted(c: Cf.Cloud, d: Distribution, shortId: ShortId)
    requires Cf.Present(c, d)
  {
    forall id :: id in Cf.ObsoleteOACs(c.dists[d.group].config.origins, d) ==>
      !NameShared(c, d, shortId, id) && !UsedByOthers(c, d, id)
  }

  /** What the alias step after a failed update deletes: the A records of all tracked names. */
  function DroppedEntries(dns: Option<DNSStatus>, cls: Class): seq<Dns.Entry> {
    DeletingAliases(dns, ZERO_DISTRIBUTION, cls, true).entries
  }

  /**
   * If no remote call fails, updating an existing distribution keeps the aliases that are still desired if and only
   * if no access control that is needed would be deleted, or there are no such aliases, or not all tracked names
   * can be erased. All of this can be read off before the update.
   */
  lemma UpdateKeepsAliasesIff(w: World, k: nat, cls: Class, cfg: Config, d: Distribution, x: Circumstances)
    requires k < |w.ingresses| && cls.createAlias && cfg.deletionEnabled && !d.IsEmpty() && d.Exists()
    requires var dns := DnsOf(w, w.ingresses[k].group);
      && SingleOwners(w.zone) && AllAbsolute(Tracked(dns)) && TrackedHeld(w.zone, Own(cls), dns)
      && AliasRoundTrip.Undisturbed(DeletingAliases(dns, ZERO_DISTRIBUTION, cls, true), x.delete)
    requires WellBuilt(d, cfg.shortId) && DistinctOACs(w.cloud.oacs) && FreshIds(w.cloud.oacs, x.ids)
    requires Cf.Present(w.cloud, d) && ObservedOwn(w.cloud, d, cfg.shortId)
    requires AccessControlSafety.Undisturbed(d, w.cloud.dists[d.group].config, x.dist)
    ensures var (dns, dist) := (DnsOf(w, w.ingresses[k].group), DistStepOf(w, k, cfg, d, x));
      AllHeldAt(DnsStepOf(w.zone, dist, cls, cfg, x).zone, Own(cls), KeptNames(dns, d)) <==>
        || NothingNeededIsDeleted(w.cloud, d, cfg.shortId)
        || KeptNames(dns, d) == {}
        || !AllErasable(w.zone, Own(cls), DroppedEntries(dns, cls))
  {
    var dns := DnsOf(w, w.ingresses[k].group);
    AliasesAreKeptIff(w, k, cls, cfg, d, x);
    SyncSucceedsIffNothingNeededIsDeleted(w.cloud, d, x.ids, x.dist, cfg.shortId);
    UpdateIsSync(w.cloud, d, StatusOf(w, w.ingresses[k].group), w.ingresses[k].name, x);
    DroppedIffErasable(w.zone, dns, cls, x);
  }

  lemma UpdateIsSync(c: Cf.Cloud, d: Distribution, s: Status, ref: string, x: Circumstances)
    requires !d.IsEmpty() && d.Exists()
    ensures SyncDist(c, d, s, ref, true, x).ok <==> Cf.SyncOutcome(c, d, true, x.ids, x.dist).1.Some?
  {
  }

  lemma DroppedIffErasable(z: ZoneMap, dns: Option<DNSStatus>, cls: Class, x: Circumstances)
    requires AllAbsolute(Tracked(dns))
    requires AliasRoundTrip.Undisturbed(DeletingAliases(dns, ZERO_DISTRIBUTION, cls, true), x.delete)
    ensures Deletes(z, dns, ZERO_DISTRIBUTION, cls, true, x) <==> AllErasable(z, Own(cls), DroppedEntries(dns, cls))
  {
    DeletedNames(dns, ZERO_DISTRIBUTION, cls, true);
    assert UpsertingAliases(ZERO_DISTRIBUTION, cls).entries == [];
    DeleteSucceedsIffErasable(z, DeletingAliases(dns, ZERO_DISTRIBUTION, cls, true), x.delete);
  }

  // ----- when a lost name can be had again

  lemma TxtAfterLoss(z: ZoneMap, dns: Option<DNSStatus>, cls: Class, x: Circumstances, name: string)
    requires AllAbsolute(Tracked(dns)) && name in Tracked(dns)
    requires SyncAliases(z, dns, ZERO_DISTRIBUTION, cls, true, x).ok
    ensures var txt := At(SyncAliases(z, dns, ZERO_DISTRIBUTION, cls, true, x).zone, Key(name, TYPE_TXT));
      txt.Some? ==> txt.value.routing.Simple?
  {
    var deleting := DeletingAliases(dns, ZERO_DISTRIBUTION, cls, true);
    DeletedNames(dns, ZERO_DISTRIBUTION, cls, true);
    assert UpsertingAliases(ZERO_DISTRIBUTION, cls).entries == [];
    DeleteAchieves(z, deleting, x.delete);
    assert Names(deleting, name);
    var e :| e in deleting.entries && e.name == name;
    assert At(Dns.DeleteOutcome(z, deleting, x.delete).0, Key(e.name, TYPE_TXT))
      == TxtWithout(Own(cls), TxtValues(z, e.name));
  }

  /** An AAAA record is requested that was there. */
  predicate AsksForOldAAAA(z: ZoneMap, e: Dns.Entry) {
    TYPE_AAAA in e.types && Key(e.name, TYPE_AAAA) in z
  }

  /** A name without an A record and an owner validates exactly if it asks for no AAAA record that is there. */
  lemma FreedNameValidatesIff(z: ZoneMap, own: string, e: Dns.Entry)
    requires Dns.ValidEntry(e) && Key(e.name, TYPE_A) !in z && Owned(TxtValues(z, e.name)) == []
    requires var txt := At(z, Key(e.name, TYPE_TXT)); txt.Some? ==> txt.value.routing.Simple?
    ensures Dns.Valid(own, Dns.Existing(z, e)) <==> !AsksForOldAAAA(z, e)
  {
    forall v | v in TxtValues(z, e.name)
      ensures !Dns.IsOwnershipRecord(v)
    {
      OwnedMembers(TxtValues(z, e.name), v);
    }
    if AsksForOldAAAA(z, e) {
      assert z[Key(e.name, TYPE_AAAA)] in Dns.Existing(z, e).addresses;
    } else {
      assert Dns.Existing(z, e).addresses == [];
    }
  }

  /**
   * After a failed update whose alias step goes through, an undisturbed Upsert of lost names, by whichever class,
   * succeeds if and only if it asks for no AAAA record that was there before the update.
   */
  lemma LostNamesCanBeUpsertedIff(
    w: World, k: nat, cls: Class, cfg: Config, d: Distribution, x: Circumstances, al: Dns.Aliases, f: Dns.Faults)
    requires k < |w.ingresses| && cls.createAlias && cfg.deletionEnabled
    requires SingleOwners(w.zone) && AllAbsolute(Tracked(DnsOf(w, w.ingresses[k].group)))
    requires !d.IsEmpty() && !DistStepOf(w, k, cfg, d, x).ok
    requires DnsStepOf(w.zone, DistStepOf(w, k, cfg, d, x), cls, cfg, x).ok
    requires Dns.ValidEntries(al.entries) && AliasRoundTrip.Undisturbed(al, f)
    requires forall e :: e in al.entries ==> e.name in Tracked(DnsOf(w, w.ingresses[k].group))
    ensures var lost := DnsStepOf(w.zone, DistStepOf(w, k, cfg, d, x), cls, cfg, x).zone;
      Dns.UpsertOutcome(lost, al, f).1 <==> forall e :: e in al.entries ==> !AsksForOldAAAA(w.zone, e)
  {
    var dns, dist := DnsOf(w, w.ingresses[k].group), DistStepOf(w, k, cfg, d, x);
    var lost := DnsStepOf(w.zone, dist, cls, cfg, x).zone;
    SyncDistResult(w.cloud, d, StatusOf(w, w.ingresses[k].group), w.ingresses[k].name, cfg.deletionEnabled, x);
    forall e | e in al.entries
      ensures Dns.Valid(al.ownershipTXTValue, Dns.Existing(lost, e)) <==> !AsksForOldAAAA(w.zone, e)
    {
      FailedUpdateDropsAliases(w, k, cls, cfg, d, x, e.name);
      TxtAfterLoss(w.zone, dns, cls, x, e.name);
      FreedNameValidatesIff(lost, al.ownershipTXTValue, e);
      assert At(lost, Key(e.name, TYPE_AAAA)) == At(w.zone, Key(e.name, TYPE_AAAA));
    }
    AliasRoundTrip.UpsertSucceedsIffValid(lost, al, f);
  }

  // ----- with IPv6 the loss is permanent

  /** An AAAA record that has lost its owner and its A record. */
  predicate Blocked(z: ZoneMap, name: string) {
    Key(name, TYPE_AAAA) in z && Key(name, TYPE_A) !in z && Owned(TxtValues(z, name)) == []
  }

  /** An address without an owner blocks every class that asks for its type, until someone removes it by hand. */
  lemma UnownedAddressBlocksUpsert(z: ZoneMap, al: Dns.Aliases, f: Dns.Faults, e: Dns.Entry)
    requires Dns.ValidEntries(al.entries) && e in al.entries
    requires e.types == [TYPE_A, TYPE_AAAA] && Key(e.name, TYPE_AAAA) in z
    requires Owned(TxtValues(z, e.name)) == []
    ensures Dns.UpsertOutcome(z, al, f) == (z, false)
  {
    var own := al.ownershipTXTValue;
    forall v | v in TxtValues(z, e.name)
      ensures !Dns.IsOwnershipRecord(v)
    {
      OwnedMembers(TxtValues(z, e.name), v);
    }
    assert z[Key(e.name, TYPE_AAAA)] in Dns.Existing(z, e).addresses;
    assert !Dns.Valid(own, Dns.Existing(z, e));
    if Dns.PlanUpsert(z, al.target, own, al.entries).Some? {
      UpsertPlanHolds(z, al.target, own, al.entries, Change(Zone.Delete, Key("", ""), Dns.TxtSet([])));
    }
  }

  lemma BlockedCannotBeDeleted(z: ZoneMap, al: Dns.Aliases, f: Dns.Faults, name: string)
    requires Dns.ValidEntries(al.entries) && Names(al, name) && Blocked(z, name)
    ensures Dns.DeleteOutcome(z, al, f) == (z, false)
  {
    var e :| e in al.entries && e.name == name;
    if AliasRoundTrip.Undisturbed(al, f) {
      DeleteSucceedsIffErasable(z, al, f);
      assert !Addressed(z, e) && !Erasable(z, al.ownershipTXTValue, e);
    }
  }

  lemma BlockedAfterCall(z: ZoneMap, op: Operation, al: Dns.Aliases, f: Dns.Faults, name: string)
    requires Dns.ValidEntries(al.entries) && Blocked(z, name)
    requires op.UpsertOp? ==> forall e :: e in al.entries ==> e.types == [TYPE_A, TYPE_AAAA]
    ensures Blocked(Outcome(z, op, al, f).0, name)
    ensures Names(al, name) ==> !Outcome(z, op, al, f).1
  {
    if e :| e in al.entries && e.name == name {
      if op.UpsertOp? {
        UnownedAddressBlocksUpsert(z, al, f, e);
      } else {
        BlockedCannotBeDeleted(z, al, f, name);
      }
    } else {
      UnnamedIsUntouched(z, op, al, f, name);
      var after := Outcome(z, op, al, f).0;
      assert At(after, Key(name, TYPE_A)) == At(z, Key(name, TYPE_A));
      assert At(after, Key(name, TYPE_AAAA)) == At(z, Key(name, TYPE_AAAA));
    }
  }

  /** A blocked name stays blocked, whoever synchronises, and whoever wants it fails. */
  lemma BlockedAfterSync(
    z: ZoneMap, dns: Option<DNSStatus>, dist: Distribution, cls: Class, enabled: bool, x: Circumstances, name: string)
    requires Blocked(z, name) && (dist.ipv6Enabled || dist.alternateDomains == [])
    ensures var step := SyncAliases(z, dns, dist, cls, enabled, x);
      Blocked(step.zone, name) && (name in DesiredNames(dist) ==> !step.ok)
  {
    UpsertedNames(dist, cls);
    BlockedAfterCall(z, UpsertOp, UpsertingAliases(dist, cls), x.upsert, name);
    BlockedAfterCall(
      AfterUpsert(z, dist, cls, x), DeleteOp, DeletingAliases(dns, dist, cls, enabled), x.delete, name);
  }

  lemma BlockedAfterStep(w: World, e: Event, cfg: Config, after: World, name: string)
    requires ReconcileStep(w, e, cfg, after) && cfg.ipv6Enabled && Blocked(w.zone, name)
    ensures Blocked(after.zone, name)
  {
    var applied, d := StepCases(w, e, cfg, after);
    if applied {
      DesiredDomains(w, w.ingresses[e.k].group, cfg, d);
      DistStepNames(w, e.k, cfg, d, e.x);
      AppliedCloud(w, e.k, e.cls, cfg, d, e.x);
      var dist := DistStepOf(w, e.k, cfg, d, e.x);
      if e.cls.createAlias {
        BlockedAfterSync(w.zone, dist.status.dns, dist.dist, e.cls, cfg.deletionEnabled, e.x, name);
      }
    }
  }

  /** Any reconciliation of any class, or a change of Ingresses. */
  ghost predicate AnyStep(w: World, cfg: Config, after: World) {
    UserStep(w, after) || exists e :: ReconcileStep(w, e, cfg, after)
  }

  ghost predicate AnyRun(ws: seq<World>, cfg: Config) {
    ws != [] && forall i :: 0 < i < |ws| ==> AnyStep(ws[i - 1], cfg, ws[i])
  }

  /** With IPv6, no run ever frees a blocked name. */
  lemma {:induction false} BlockedForGood(ws: seq<World>, cfg: Config, name: string, i: nat)
    requires AnyRun(ws, cfg) && cfg.ipv6Enabled && Blocked(ws[0].zone, name) && i < |ws|
    ensures Blocked(ws[i].zone, name)
    decreases i
  {
    if i > 0 {
      BlockedForGood(ws, cfg, name, i - 1);
      assert AnyStep(ws[i - 1], cfg, ws[i]);
      if !UserStep(ws[i - 1], ws[i]) {
        var e :| ReconcileStep(ws[i - 1], e, cfg, ws[i]);
        BlockedAfterStep(ws[i - 1], e, cfg, ws[i], name);
      }
    }
  }

  /** The reconciliation manages aliases, and the name is one of those that the group desires. */
  ghost predicate WantsName(w: World, e: Event, name: string) {
    && e.k < |w.ingresses| && w.ingresses[e.k].HasGroup() && e.cls.createAlias
    && name in NamesOf(w, w.ingresses[e.k].group)
  }

  /** No reconciliation that manages aliases succeeds while its group desires a blocked name. */
  lemma SuccessNeedsUnblockedNames(w: World, e: Event, cfg: Config, after: World, name: string)
    requires WantsName(w, e, name) && cfg.ipv6Enabled && Step(w, e.k, e.cls, cfg, e.x, after, true)
    ensures !Blocked(w.zone, name)
  {
    var d := SuccessIsApplied(w, e, cfg, after);
    DesiredDomains(w, w.ingresses[e.k].group, cfg, d);
    DistStepNames(w, e.k, cfg, d, e.x);
    SuccessfulDist(w, e.k, e.cls, cfg, d, e.x);
    var dist := DistStepOf(w, e.k, cfg, d, e.x);
    assert name in DesiredNames(dist.dist);
    if Blocked(w.zone, name) {
      BlockedAfterSync(w.zone, dist.status.dns, dist.dist, e.cls, cfg.deletionEnabled, e.x, name);
    }
  }

  /**
   * A failed update whose alias step goes through blocks every tracked name that has an AAAA record: over any run
   * that follows with IPv6 enabled, the name stays blocked, and no reconciliation of a group that desires it and
   * manages aliases succeeds.
   */
  lemma FailedUpdateBlocksNames(
    w: World, k: nat, cls: Class, cfg: Config, d: Distribution, x: Circumstances, name: string,
    ws: seq<World>, i: nat, e: Event, after: World)
    requires k < |w.ingresses| && cls.createAlias && cfg.deletionEnabled && cfg.ipv6Enabled
    requires SingleOwners(w.zone) && AllAbsolute(Tracked(DnsOf(w, w.ingresses[k].group)))
    requires !d.IsEmpty() && !DistStepOf(w, k, cfg, d, x).ok
    requires DnsStepOf(w.zone, DistStepOf(w, k, cfg, d, x), cls, cfg, x).ok
    requires name in Tracked(DnsOf(w, w.ingresses[k].group)) && Key(name, TYPE_AAAA) in w.zone
    requires AnyRun(ws, cfg) && ws[0] == Applied(w, k, cls, cfg, d, x).0 && i < |ws|
    ensures Blocked(ws[i].zone, name)
    ensures WantsName(ws[i], e, name) ==> !Step(ws[i], e.k, e.cls, cfg, e.x, after, true)
  {
    FailedUpdateDropsAliases(w, k, cls, cfg, d, x, name);
    AppliedCloud(w, k, cls, cfg, d, x);
    assert At(ws[0].zone, Key(name, TYPE_AAAA)) == At(w.zone, Key(name, TYPE_AAAA));
    BlockedForGood(ws, cfg, name, i);
    if WantsName(ws[i], e, name) && Step(ws[i], e.k, e.cls, cfg, e.x, after, true) {
      SuccessNeedsUnblockedNames(ws[i], e, cfg, after, name);
    }
  }
}
