/** What synchronising the aliases of a distribution keeps about the zone and the tracked names. */
module AliasBookkeeping {
  import opened GoStrings
  import opened Model
  import opened Compiler
  import opened Zone
  import opened CdnStatuses
  import opened Ownership
  import opened AliasRoundTrip
  import opened Reconciler
  import Dns = AliasRepository

  /** The class's ownership value. */
  function Own(cls: Class): string {
    Dns.OwnershipValue(cls.txtOwnerValue)
  }

  function DesiredNames(dist: Distribution): set<string> {
    Elements(Dns.NormalizedDomains(dist.alternateDomains))
  }

  predicate AllAbsolute(names: set<string>) {
    forall n :: n in names ==> HasSuffix(n, ".")
  }

  /** The name is this owner's: its TXT set says so, and it has an address. */
  predicate Holds(z: ZoneMap, own: string, name: string) {
    own in TxtValues(z, name) && Key(name, TYPE_A) in z
  }

  // ----- which names a synchronisation touches

  lemma {:induction false} DeletionsMembers(desired: seq<string>, current: seq<string>, x: string)
    ensures x in Deletions(desired, current) <==> x in current && x !in desired
  {
    if current != [] {
      var n := |current| - 1;
      DeletionsMembers(desired, current[..n], x);
      assert current == current[..n] + [current[n]];
    }
  }

  lemma UpsertedNames(dist: Distribution, cls: Class)
    ensures var al := UpsertingAliases(dist, cls);
      && Dns.ValidEntries(al.entries) && IsOwnership(al)
      && Dns.DomainsOf(al) == Dns.NormalizedDomains(dist.alternateDomains)
      && forall name :: Names(al, name) <==> name in DesiredNames(dist)
  {
    var al := UpsertingAliases(dist, cls);
    OwnershipValueIsOwnership(cls.txtOwnerValue);
    NamesAreDomains(al);
  }

  predicate IsOwnership(al: Dns.Aliases) {
    Dns.IsOwnershipRecord(al.ownershipTXTValue)
  }

  lemma DesiredNamesAreAbsolute(dist: Distribution)
    ensures AllAbsolute(DesiredNames(dist))
  {
    forall n | n in DesiredNames(dist)
      ensures HasSuffix(n, ".")
    {
      var k :| 0 <= k < |dist.alternateDomains| && n == Dns.NormalizeDomain(dist.alternateDomains[k]);
    }
  }

  lemma NamesAreDomains(al: Dns.Aliases)
    ensures forall name :: Names(al, name) <==> name in Dns.DomainsOf(al)
  {
    forall name
      ensures Names(al, name) <==> name in Dns.DomainsOf(al)
    {
      if name in Dns.DomainsOf(al) {
        var k :| 0 <= k < |Dns.DomainsOf(al)| && Dns.DomainsOf(al)[k] == name;
        assert al.entries[k] in al.entries;
      }
      if e :| e in al.entries && e.name == name {
        var k :| 0 <= k < |al.entries| && al.entries[k] == e;
        assert Dns.DomainsOf(al)[k] == name;
      }
    }
  }

  /** Deleted are the tracked names that are not desired; they are written as they are tracked. */
  lemma DeletedNames(dns: Option<DNSStatus>, dist: Distribution, cls: Class, enabled: bool)
    requires AllAbsolute(Tracked(dns))
    ensures var al := DeletingAliases(dns, dist, cls, enabled);
      && Dns.ValidEntries(al.entries) && IsOwnership(al)
      && Elements(Dns.DomainsOf(al)) == (if enabled then Tracked(dns) - DesiredNames(dist) else {})
      && (forall name :: Names(al, name) <==> name in Elements(Dns.DomainsOf(al)))
      && (Elements(Dns.DomainsOf(al)) == {} ==> ToDelete(dns, dist, enabled) == [])
  {
    var al := DeletingAliases(dns, dist, cls, enabled);
    OwnershipValueIsOwnership(cls.txtOwnerValue);
    NamesAreDomains(al);
    var gone := ToDelete(dns, dist, enabled);
    forall x
      ensures x in gone <==> enabled && x in Tracked(dns) && x !in DesiredNames(dist)
    {
      if dns.Some? {
        DeletionsMembers(Dns.NormalizedDomains(dist.alternateDomains), dns.value.records, x);
      }
    }
    assert forall k :: 0 <= k < |gone| ==> gone[k] in gone && Dns.DomainsOf(al)[k] == gone[k];
    assert Elements(Dns.DomainsOf(al)) == Elements(gone);
    assert gone != [] ==> gone[0] in Elements(gone);
  }

  lemma UnnamedIsUnrequested(al: Dns.Aliases, k: Key)
    requires !Names(al, k.name)
    ensures !Requested(al, k)
  {
  }

  /** A call leaves alone every name that it does not list. */
  lemma UnnamedIsUntouched(z: ZoneMap, op: Operation, al: Dns.Aliases, f: Dns.Faults, name: string)
    requires Dns.ValidEntries(al.entries) && !Names(al, name)
    ensures var after := Outcome(z, op, al, f).0;
      TxtValues(after, name) == TxtValues(z, name) && forall t :: At(after, Key(name, t)) == At(z, Key(name, t))
  {
    if Outcome(z, op, al, f).1 {
      if op.UpsertOp? {
        UpsertAchieves(z, al, f);
      } else {
        DeleteAchieves(z, al, f);
      }
    }
    var after := Outcome(z, op, al, f).0;
    forall t
      ensures At(after, Key(name, t)) == At(z, Key(name, t))
    {
      UnnamedIsUnrequested(al, Key(name, t));
    }
    assert At(after, Key(name, TYPE_TXT)) == At(z, Key(name, TYPE_TXT));
  }

  lemma UpsertHolds(z: ZoneMap, al: Dns.Aliases, f: Dns.Faults, name: string)
    requires Dns.ValidEntries(al.entries) && Dns.UpsertOutcome(z, al, f).1 && Names(al, name)
    ensures Holds(Dns.UpsertOutcome(z, al, f).0, al.ownershipTXTValue, name)
  {
    UpsertAchieves(z, al, f);
    var e :| e in al.entries && e.name == name;
    assert At(Dns.UpsertOutcome(z, al, f).0, Key(name, TYPE_A)).Some?;
  }

  // ----- tracked names stay held

  ghost predicate TrackedHeld(z: ZoneMap, own: string, dns: Option<DNSStatus>) {
    forall name :: name in Tracked(dns) ==> Holds(z, own, name)
  }

  /** The zone between the two calls of a synchronisation. */
  function AfterUpsert(z: ZoneMap, dist: Distribution, cls: Class, x: Circumstances): ZoneMap {
    Dns.UpsertOutcome(z, UpsertingAliases(dist, cls), x.upsert).0
  }

  lemma TrackedAfterSyncWith(
    z: ZoneMap, dns: Option<DNSStatus>, upserting: Dns.Aliases, deleting: Dns.Aliases, f: Dns.Faults, g: Dns.Faults)
    ensures var z1 := Dns.UpsertOutcome(z, upserting, f).0;
      Tracked(SyncWith(z, dns, upserting, deleting, f, g).dns)
      == (Tracked(dns) + (if Dns.UpsertOutcome(z, upserting, f).1 then Elements(Dns.DomainsOf(upserting)) else {}))
         - (if Dns.DeleteOutcome(z1, deleting, g).1 then Elements(Dns.DomainsOf(deleting)) else {})
  {
    var (z1, ok1) := Dns.UpsertOutcome(z, upserting, f);
    var (z2, ok2) := Dns.DeleteOutcome(z1, deleting, g);
    TrackedAfterUpsert(dns, Dns.DomainsOf(upserting));
    var dns1 := if ok1 then WithDNSRecords(dns, Dns.DomainsOf(upserting)) else dns;
    TrackedAfterRemoval(dns1, Dns.DomainsOf(deleting));
    var dns2 := if ok2 then WithoutDNSRecords(dns1, Dns.DomainsOf(deleting)) else dns1;
    TrackedIgnoresSync(dns2);
  }

  lemma TrackedAfterSync(
    z: ZoneMap, dns: Option<DNSStatus>, dist: Distribution, cls: Class, enabled: bool, x: Circumstances)
    requires AllAbsolute(Tracked(dns))
    ensures Tracked(SyncAliases(z, dns, dist, cls, enabled, x).dns)
      == (Tracked(dns) + (if Upserts(z, dist, cls, x) then DesiredNames(dist) else {}))
         - (if Deletes(z, dns, dist, cls, enabled, x) && enabled then Tracked(dns) - DesiredNames(dist) else {})
  {
    UpsertedNames(dist, cls);
    DeletedNames(dns, dist, cls, enabled);
    TrackedAfterSyncWith(
      z, dns, UpsertingAliases(dist, cls), DeletingAliases(dns, dist, cls, enabled), x.upsert, x.delete);
  }

  lemma TrackedIgnoresSync(dns: Option<DNSStatus>)
    ensures Tracked(WithDNSSync(dns, false)) == Tracked(dns)
  {
  }

  predicate Upserts(z: ZoneMap, dist: Distribution, cls: Class, x: Circumstances) {
    Dns.UpsertOutcome(z, UpsertingAliases(dist, cls), x.upsert).1
  }

  predicate Deletes(
    z: ZoneMap, dns: Option<DNSStatus>, dist: Distribution, cls: Class, enabled: bool, x: Circumstances)
  {
    Dns.DeleteOutcome(AfterUpsert(z, dist, cls, x), DeletingAliases(dns, dist, cls, enabled), x.delete).1
  }

  lemma HeldAfterUpsert(z: ZoneMap, dist: Distribution, cls: Class, x: Circumstances, name: string)
    requires Holds(z, Own(cls), name) || (Upserts(z, dist, cls, x) && name in DesiredNames(dist))
    ensures Holds(AfterUpsert(z, dist, cls, x), Own(cls), name)
  {
    var upserting := UpsertingAliases(dist, cls);
    UpsertedNames(dist, cls);
    if Upserts(z, dist, cls, x) {
      if name in DesiredNames(dist) {
        UpsertHolds(z, upserting, x.upsert, name);
      } else {
        UnnamedIsUntouched(z, UpsertOp, upserting, x.upsert, name);
        assert At(AfterUpsert(z, dist, cls, x), Key(name, TYPE_A)) == At(z, Key(name, TYPE_A));
      }
    }
  }

  lemma HeldAfterDelete(z: ZoneMap, al: Dns.Aliases, f: Dns.Faults, own: string, name: string)
    requires Holds(z, own, name) && Dns.ValidEntries(al.entries)
    requires Dns.DeleteOutcome(z, al, f).1 ==> !Names(al, name)
    ensures Holds(Dns.DeleteOutcome(z, al, f).0, own, name)
  {
    if Dns.DeleteOutcome(z, al, f).1 {
      UnnamedIsUntouched(z, DeleteOp, al, f, name);
      assert At(Dns.DeleteOutcome(z, al, f).0, Key(name, TYPE_A)) == At(z, Key(name, TYPE_A));
    }
  }

  /** Whichever calls fail, every name that is tracked afterwards is held afterwards, and owners stay single. */
  lemma SyncKeepsTrackedHeld(
    z: ZoneMap, dns: Option<DNSStatus>, dist: Distribution, cls: Class, enabled: bool, x: Circumstances)
    requires SingleOwners(z) && AllAbsolute(Tracked(dns)) && TrackedHeld(z, Own(cls), dns)
    ensures var after := SyncAliases(z, dns, dist, cls, enabled, x);
      && TrackedHeld(after.zone, Own(cls), after.dns)
      && SingleOwners(after.zone)
      && Tracked(after.dns) <= Tracked(dns) + DesiredNames(dist)
      && AllAbsolute(Tracked(after.dns))
  {
    var upserting, deleting := UpsertingAliases(dist, cls), DeletingAliases(dns, dist, cls, enabled);
    UpsertedNames(dist, cls);
    DeletedNames(dns, dist, cls, enabled);
    DesiredNamesAreAbsolute(dist);
    var z1 := AfterUpsert(z, dist, cls, x);
    CallsKeepSingleOwners(z, UpsertOp, upserting, x.upsert);
    CallsKeepSingleOwners(z1, DeleteOp, deleting, x.delete);
    TrackedAfterSync(z, dns, dist, cls, enabled, x);
    var after := SyncAliases(z, dns, dist, cls, enabled, x);
    forall name | name in Tracked(after.dns)
      ensures Holds(after.zone, Own(cls), name)
    {
      HeldAfterUpsert(z, dist, cls, x, name);
      HeldAfterDelete(z1, deleting, x.delete, Own(cls), name);
    }
  }

  /** A name held by another class, or by this class but neither tracked nor desired here, stays held. */
  lemma SyncRespectsOthers(
    z: ZoneMap, dns: Option<DNSStatus>, dist: Distribution, cls: Class, enabled: bool, x: Circumstances,
    own: string, name: string)
    requires SingleOwners(z) && AllAbsolute(Tracked(dns))
    requires Dns.IsOwnershipRecord(own) && Holds(z, own, name)
    requires own != Own(cls) || name !in Tracked(dns) + DesiredNames(dist)
    ensures var after := SyncAliases(z, dns, dist, cls, enabled, x).zone;
      Holds(after, own, name) && At(after, Key(name, TYPE_A)) == At(z, Key(name, TYPE_A))
  {
    var upserting, deleting := UpsertingAliases(dist, cls), DeletingAliases(dns, dist, cls, enabled);
    UpsertedNames(dist, cls);
    DeletedNames(dns, dist, cls, enabled);
    var z1 := Dns.UpsertOutcome(z, upserting, x.upsert).0;
    CallsKeepSingleOwners(z, UpsertOp, upserting, x.upsert);
    OthersAreUntouched(z, UpsertOp, upserting, x.upsert, own, name);
    OthersAreUntouched(z1, DeleteOp, deleting, x.delete, own, name);
  }

  lemma OthersAreUntouched(z: ZoneMap, op: Operation, al: Dns.Aliases, f: Dns.Faults, own: string, name: string)
    requires SingleOwners(z) && Dns.ValidEntries(al.entries) && IsOwnership(al)
    requires Dns.IsOwnershipRecord(own) && Holds(z, own, name)
    requires own != al.ownershipTXTValue || !Names(al, name)
    ensures var after := Outcome(z, op, al, f).0;
      Holds(after, own, name) && At(after, Key(name, TYPE_A)) == At(z, Key(name, TYPE_A))
  {
    var after := Outcome(z, op, al, f).0;
    if own != al.ownershipTXTValue {
      assert OwnedByOther(z, al.ownershipTXTValue, name);
      CallsRespectOwners(z, op, al, f, Key(name, TYPE_TXT));
      CallsRespectOwners(z, op, al, f, Key(name, TYPE_A));
    } else {
      UnnamedIsUntouched(z, op, al, f, name);
    }
    assert At(after, Key(name, TYPE_A)) == At(z, Key(name, TYPE_A));
    assert At(after, Key(name, TYPE_TXT)) == At(z, Key(name, TYPE_TXT));
  }

  // ----- convergence

  /** No DNS call of the synchronisation fails. */
  predicate Undisturbed(dns: Option<DNSStatus>, dist: Distribution, cls: Class, enabled: bool, x: Circumstances) {
    && AliasRoundTrip.Undisturbed(UpsertingAliases(dist, cls), x.upsert)
    && AliasRoundTrip.Undisturbed(DeletingAliases(dns, dist, cls, enabled), x.delete)
  }

  /** With deletion enabled, a successful synchronisation makes the tracked names the desired names. */
  lemma TrackedConverges(z: ZoneMap, dns: Option<DNSStatus>, dist: Distribution, cls: Class, x: Circumstances)
    requires AllAbsolute(Tracked(dns)) && SyncAliases(z, dns, dist, cls, true, x).ok
    ensures Tracked(SyncAliases(z, dns, dist, cls, true, x).dns) == DesiredNames(dist)
  {
    TrackedAfterSync(z, dns, dist, cls, true, x);
  }

  /** With deletion disabled, tracked names are only ever added, the desired ones whenever the upsert succeeds. */
  lemma TrackedOnlyGrowsWithoutDeletion(
    z: ZoneMap, dns: Option<DNSStatus>, dist: Distribution, cls: Class, x: Circumstances)
    requires AllAbsolute(Tracked(dns))
    ensures var after := SyncAliases(z, dns, dist, cls, false, x);
      Tracked(after.dns) == Tracked(dns) + (if after.ok then DesiredNames(dist) else {})
  {
    TrackedAfterSync(z, dns, dist, cls, false, x);
    DeletedNames(dns, dist, cls, false);
  }

  /** A second synchronisation with the same distribution deletes nothing, succeeds, and changes nothing. */
  lemma SecondSyncChangesNothing(
    z: ZoneMap, dns: Option<DNSStatus>, dist: Distribution, cls: Class, x: Circumstances, y: Circumstances)
    requires SingleOwners(z) && AllAbsolute(Tracked(dns)) && SyncAliases(z, dns, dist, cls, true, x).ok
    ensures var once := SyncAliases(z, dns, dist, cls, true, x);
      && ToDelete(once.dns, dist, true) == []
      && (Undisturbed(once.dns, dist, cls, true, y) ==> SyncAliases(once.zone, once.dns, dist, cls, true, y) == once)
  {
    var upserting, deleting := UpsertingAliases(dist, cls), DeletingAliases(dns, dist, cls, true);
    var once := SyncAliases(z, dns, dist, cls, true, x);
    UpsertedNames(dist, cls);
    DeletedNames(dns, dist, cls, true);
    TrackedConverges(z, dns, dist, cls, x);
    DeletedNames(once.dns, dist, cls, true);
    assert ToDelete(once.dns, dist, true) == [];
    UpsertSettles(z, upserting, x.upsert);
    SettledSurvivesDeletion(AfterUpsert(z, dist, cls, x), upserting, deleting, x.delete);
    if Undisturbed(once.dns, dist, cls, true, y) {
      OkHasNoEmptyRecords(z, dns, upserting, deleting, x.upsert, x.delete);
      SettledSyncWith(once, upserting, DeletingAliases(once.dns, dist, cls, true), y.upsert, y.delete);
    }
  }

  lemma SettledSyncWith(
    once: DnsStep, upserting: Dns.Aliases, deleting: Dns.Aliases, f: Dns.Faults, g: Dns.Faults)
    requires once.ok && Dns.ValidEntries(upserting.entries) && IsOwnership(upserting)
    requires Settled(once.zone, upserting) && AliasRoundTrip.Undisturbed(upserting, f)
    requires deleting.entries == [] && Tracked(once.dns) == Elements(Dns.DomainsOf(upserting))
    requires once.dns.Some? ==> once.dns.value.records != []
    ensures SyncWith(once.zone, once.dns, upserting, deleting, f, g) == once
  {
    SettledIsFixed(once.zone, upserting, f);
    NothingToTrack(once.dns, Dns.DomainsOf(upserting));
    NothingToForget(once.dns);
    assert Dns.DomainsOf(deleting) == [];
  }

  /** A DNS section without records does not outlive a successful synchronisation. */
  lemma OkHasNoEmptyRecords(
    z: ZoneMap, dns: Option<DNSStatus>, upserting: Dns.Aliases, deleting: Dns.Aliases, f: Dns.Faults, g: Dns.Faults)
    requires SyncWith(z, dns, upserting, deleting, f, g).ok
    ensures var after := SyncWith(z, dns, upserting, deleting, f, g).dns; after.Some? ==> after.value.records != []
  {
  }

  lemma SettledSurvivesDeletion(z: ZoneMap, al: Dns.Aliases, deleting: Dns.Aliases, f: Dns.Faults)
    requires Settled(z, al) && Dns.ValidEntries(deleting.entries)
    requires forall name :: Names(al, name) ==> !Names(deleting, name)
    ensures Settled(Dns.DeleteOutcome(z, deleting, f).0, al)
  {
    var after := Dns.DeleteOutcome(z, deleting, f).0;
    forall e | e in al.entries
      ensures SettledEntry(after, al, e)
    {
      assert SettledEntry(z, al, e) && Names(al, e.name);
      UnnamedIsUntouched(z, DeleteOp, deleting, f, e.name);
    }
  }

  lemma {:induction false} AddNothingMissing(records: seq<string>, more: seq<string>)
    requires forall x :: x in more ==> x in records
    ensures AddMissing(records, more) == records
  {
    if more != [] {
      AddNothingMissing(records, more[..|more| - 1]);
    }
  }

  lemma NothingToTrack(dns: Option<DNSStatus>, records: seq<string>)
    requires Tracked(dns) == Elements(records)
    ensures WithDNSRecords(dns, records) == dns
  {
    if records != [] {
      assert records[0] in Tracked(dns);
      forall r | r in records
        ensures r in Records(dns)
      {
        assert r in Tracked(dns);
      }
      AddNothingMissing(dns.value.records, records);
    }
  }

  lemma NothingToForget(dns: Option<DNSStatus>)
    requires dns.Some? ==> dns.value.records != []
    ensures WithoutDNSRecords(dns, []) == dns
  {
  }
}
