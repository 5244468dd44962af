/** Record sets with a routing policy are nobody's business: no call ever changes one. */
module RoutingPolicies {
  import opened Model
  import opened Zone
  import opened CdnStatuses
  import opened Compiler
  import opened Ownership
  import opened Reconciler
  import opened AliasBookkeeping
  import opened ReconcilerRuns
  import opened FailedUpdates
  import Dns = AliasRepository

  /** The record set is weighted, or routed by location or network. */
  predicate Policed(z: ZoneMap, k: Key) {
    k in z && z[k].routing != Simple
  }

  /** A call that names a record set with a routing policy fails and changes nothing, whatever else it names. */
  lemma PolicedStopsCall(z: ZoneMap, op: Operation, al: Dns.Aliases, f: Dns.Faults, e: Dns.Entry, t: string)
    requires Dns.ValidEntries(al.entries) && e in al.entries && (t in e.types || t == "TXT")
    requires Policed(z, Key(e.name, t))
    ensures Outcome(z, op, al, f) == (z, false)
  {
    var own := al.ownershipTXTValue;
    PolicedIsInvalid(z, own, e, t);
    var any := Change(Zone.Delete, Key("", ""), Dns.TxtSet([]));
    if op.UpsertOp? {
      if Dns.PlanUpsert(z, al.target, own, al.entries).Some? {
        UpsertPlanHolds(z, al.target, own, al.entries, any);
      }
    } else if Dns.PlanDelete(z, al.target, own, al.entries).Some? {
      DeletePlanHolds(z, al.target, own, al.entries, any);
    }
  }

  lemma PolicedIsInvalid(z: ZoneMap, own: string, e: Dns.Entry, t: string)
    requires Dns.ValidEntry(e) && (t in e.types || t == "TXT") && Policed(z, Key(e.name, t))
    ensures !Dns.Valid(own, Dns.Existing(z, e))
  {
    if t != "TXT" {
      assert z[Key(e.name, t)] in Dns.Existing(z, e).addresses;
    }
  }

  /** Hence no call changes such a record set, whether it names it or not. */
  lemma PolicedStays(z: ZoneMap, op: Operation, al: Dns.Aliases, f: Dns.Faults, k: Key)
    requires Dns.ValidEntries(al.entries) && Policed(z, k)
    ensures At(Outcome(z, op, al, f).0, k) == At(z, k)
  {
    if e :| e in al.entries && Requests(e, k) {
      PolicedStopsCall(z, op, al, f, e, k.rtype);
    } else if Outcome(z, op, al, f).1 {
      assert !Requested(al, k);
      if op.UpsertOp? {
        UpsertAchieves(z, al, f);
      } else {
        DeleteAchieves(z, al, f);
      }
    }
  }

  lemma PolicedAfterSync(
    z: ZoneMap, dns: Option<DNSStatus>, dist: Distribution, cls: Class, enabled: bool, x: Circumstances, k: Key)
    requires Policed(z, k)
    ensures At(SyncAliases(z, dns, dist, cls, enabled, x).zone, k) == At(z, k)
  {
    UpsertedNames(dist, cls);
    PolicedStays(z, UpsertOp, UpsertingAliases(dist, cls), x.upsert, k);
    PolicedStays(AfterUpsert(z, dist, cls, x), DeleteOp, DeletingAliases(dns, dist, cls, enabled), x.delete, k);
  }

  lemma PolicedAfterStep(w: World, e: Event, cfg: Config, after: World, k: Key)
    requires ReconcileStep(w, e, cfg, after) && Policed(w.zone, k)
    ensures At(after.zone, k) == At(w.zone, k)
  {
    var applied, d := StepCases(w, e, cfg, after);
    if applied {
      AppliedCloud(w, e.k, e.cls, cfg, d, e.x);
      var dist := DistStepOf(w, e.k, cfg, d, e.x);
      if e.cls.createAlias {
        PolicedAfterSync(w.zone, dist.status.dns, dist.dist, e.cls, cfg.deletionEnabled, e.x, k);
      }
    }
  }

  lemma PolicedAfterAnyStep(w: World, cfg: Config, after: World, k: Key)
    requires AnyStep(w, cfg, after) && Policed(w.zone, k)
    ensures At(after.zone, k) == At(w.zone, k)
  {
    if !UserStep(w, after) {
      var e :| ReconcileStep(w, e, cfg, after);
      PolicedAfterStep(w, e, cfg, after, k);
    }
  }

  /** Over any run by any classes, a record set with a routing policy stays as it is. */
  lemma {:induction false} PolicedForGood(ws: seq<World>, cfg: Config, k: Key, i: nat)
    requires AnyRun(ws, cfg) && Policed(ws[0].zone, k) && i < |ws|
    ensures At(ws[i].zone, k) == At(ws[0].zone, k)
    decreases i
  {
    if i > 0 {
      PolicedForGood(ws, cfg, k, i - 1);
      assert AnyStep(ws[i - 1], cfg, ws[i]);
      PolicedAfterAnyStep(ws[i - 1], cfg, ws[i], k);
    }
  }
}
