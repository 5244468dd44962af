/** Upsert and Delete of the alias repository against each other: repeating one, and undoing it by the other. */
module AliasRoundTrip {
  import opened Model
  import opened Zone
  import opened AliasRepository
  import opened Ownership

  /** No remote call fails. */
  predicate Undisturbed(al: Aliases, f: Faults) {
    !f.Hit(|al.entries|)
  }

  lemma {:induction false} PlanUpsertSucceeds(z: ZoneMap, target: string, own: string, es: seq<Entry>)
    requires forall e :: e in es ==> Valid(own, Existing(z, e))
    ensures PlanUpsert(z, target, own, es).Some?
    ensures forall c :: c in PlanUpsert(z, target, own, es).value ==> c.action == Zone.Upsert
  {
    if es != [] {
      var n := |es| - 1;
      assert es == es[..n] + [es[n]];
      PlanUpsertSucceeds(z, target, own, es[..n]);
    }
  }

  /** Undisturbed, Upsert succeeds exactly if all its entries validate. */
  lemma UpsertSucceedsIffValid(z: ZoneMap, al: Aliases, f: Faults)
    requires ValidEntries(al.entries) && Undisturbed(al, f)
    ensures UpsertOutcome(z, al, f).1 <==> forall e :: e in al.entries ==> Valid(al.ownershipTXTValue, Existing(z, e))
  {
    var own := al.ownershipTXTValue;
    if PlanUpsert(z, al.target, own, al.entries).Some? {
      UpsertPlanHolds(z, al.target, own, al.entries, Change(Zone.Delete, Key("", ""), TxtSet([])));
    }
    if forall e :: e in al.entries ==> Valid(own, Existing(z, e)) {
      PlanUpsertSucceeds(z, al.target, own, al.entries);
      UpsertsAlwaysApply(z, PlanUpsert(z, al.target, own, al.entries).value);
    }
  }

  // ----- a second Upsert changes nothing

  lemma {:induction false} AcceptedAfterAppend(values: seq<string>, own: string)
    requires forall v :: v in values ==> !IsOwnershipRecord(v)
    ensures OwnershipAccepted(own, values + [own])
  {
    if values != [] {
      assert (values + [own])[1..] == values[1..] + [own];
      AcceptedAfterAppend(values[1..], own);
    }
  }

  /** All records that Upsert would write are there already, under this class's ownership. */
  predicate Settled(z: ZoneMap, al: Aliases) {
    forall e :: e in al.entries ==> SettledEntry(z, al, e)
  }

  predicate SettledEntry(z: ZoneMap, al: Aliases, e: Entry) {
    var values := TxtValues(z, e.name);
    && (forall t :: t in e.types ==> At(z, Key(e.name, t)) == Some(AliasSet(al.target)))
    && At(z, Key(e.name, TYPE_TXT)) == Some(TxtSet(values))
    && al.ownershipTXTValue in values && OwnershipAccepted(al.ownershipTXTValue, values)
  }

  lemma UpsertSettles(z: ZoneMap, al: Aliases, f: Faults)
    requires ValidEntries(al.entries) && UpsertOutcome(z, al, f).1
    requires IsOwnershipRecord(al.ownershipTXTValue)
    ensures Settled(UpsertOutcome(z, al, f).0, al)
  {
    var own, once := al.ownershipTXTValue, UpsertOutcome(z, al, f).0;
    UpsertAchieves(z, al, f);
    forall e | e in al.entries
      ensures SettledEntry(once, al, e)
    {
      var values := TxtValues(z, e.name);
      UpsertPlanHolds(z, al.target, own, al.entries, TxtChangeForUpsert(own, e.name, values));
      assert Valid(own, Existing(z, e));
      if ContainsOwnershipRecord(values) {
        AcceptedHasOwn(values, own);
      } else {
        AcceptedAfterAppend(values, own);
      }
    }
  }

  lemma SettledIsFixed(z: ZoneMap, al: Aliases, f: Faults)
    requires ValidEntries(al.entries) && Settled(z, al) && Undisturbed(al, f)
    requires IsOwnershipRecord(al.ownershipTXTValue)
    ensures UpsertOutcome(z, al, f) == (z, true)
  {
    var own := al.ownershipTXTValue;
    forall e | e in al.entries
      ensures Valid(own, Existing(z, e))
    {
      assert SettledEntry(z, al, e);
    }
    UpsertSucceedsIffValid(z, al, f);
    UpsertAchieves(z, al, f);
    var after := UpsertOutcome(z, al, f).0;
    forall k
      ensures At(after, k) == At(z, k)
    {
      if e :| e in al.entries && Requests(e, k) {
        assert SettledEntry(z, al, e) && k == Key(e.name, k.rtype);
      }
    }
    SameAtSameZone(after, z);
  }

  /** Upserting what was just upserted succeeds and leaves the zone as it is. */
  lemma UpsertIsIdempotent(z: ZoneMap, al: Aliases, f: Faults, g: Faults)
    requires ValidEntries(al.entries) && UpsertOutcome(z, al, f).1 && Undisturbed(al, g)
    requires IsOwnershipRecord(al.ownershipTXTValue)
    ensures var once := UpsertOutcome(z, al, f).0; UpsertOutcome(once, al, g) == (once, true)
  {
    UpsertSettles(z, al, f);
    SettledIsFixed(UpsertOutcome(z, al, f).0, al, g);
  }

  // ----- Delete undoes Upsert

  predicate DistinctNames(es: seq<Entry>) {
    forall i, j :: 0 <= i < j < |es| ==> es[i].name != es[j].name
  }

  /** A name with none of the requested addresses and no owner; its TXT set, if any, is an ordinary one. */
  predicate Free(z: ZoneMap, e: Entry) {
    && (forall t :: t in e.types ==> Key(e.name, t) !in z)
    && !ContainsOwnershipRecord(TxtValues(z, e.name))
    && (Key(e.name, TYPE_TXT) in z ==>
        var txt := z[Key(e.name, TYPE_TXT)];
        txt.routing.Simple? && txt.aliasTarget.None? && txt.values != [])
  }

  predicate AllFree(z: ZoneMap, es: seq<Entry>) {
    forall e :: e in es ==> Free(z, e)
  }

  /** The record set as Delete leaves it: its values as they were, its TTL the controller's. */
  function Restored(r: Option<RecordSet>): Option<RecordSet> {
    if r.None? then None else Some(TxtSet(r.value.values))
  }

  /** What the zone holds at k after deleting the first n entries of what was upserted. */
  predicate DeletedUpTo(z: ZoneMap, once: ZoneMap, now: ZoneMap, es: seq<Entry>, n: nat, k: Key)
    requires n <= |es|
  {
    if exists i :: 0 <= i < n && Requests(es[i], k)
    then At(now, k) == if k.rtype == TYPE_TXT then Restored(At(z, k)) else None
    else At(now, k) == At(once, k)
  }

  /** The records of one entry right after a successful Upsert on a free name. */
  predicate Upserted(z: ZoneMap, once: ZoneMap, target: string, own: string, e: Entry) {
    && (forall t :: t in e.types ==> At(once, Key(e.name, t)) == Some(AliasSet(target)))
    && At(once, Key(e.name, TYPE_TXT)) == Some(TxtSet(TxtValues(z, e.name) + [own]))
  }

  lemma {:induction false} RemoveFirstUndoesAppend(values: seq<string>, own: string)
    requires own !in values
    ensures RemoveFirst(own, values + [own]) == values
  {
    assert (values + [own])[..|values|] == values;
    RemoveFirstAt(own, values + [own], |values|);
  }

  lemma UpsertedIsDeletable(z: ZoneMap, once: ZoneMap, target: string, own: string, e: Entry, last: string)
    requires ValidEntry(e) && Free(z, e) && IsOwnershipRecord(own) && Upserted(z, once, target, own, e)
    ensures Deletable(once, own, e) && DeleteTarget(once, last, e) == Some(target)
  {
    AcceptedAfterAppend(TxtValues(z, e.name), own);
    assert own in TxtValues(once, e.name);
    assert once[Key(e.name, TYPE_A)] == AliasSet(target);
  }

  lemma ApplyOneMore(z: ZoneMap, cs: seq<Change>, c: Change)
    ensures ApplyBatch(z, cs + [c]) == if ApplyBatch(z, cs).None? then None else Apply(ApplyBatch(z, cs).value, c)
  {
    assert (cs + [c])[..|cs|] == cs;
  }

  /** Deleting the addresses of one entry. */
  lemma DeleteAddresses(now: ZoneMap, target: string, e: Entry)
    requires ValidEntry(e)
    requires forall t :: t in e.types ==> At(now, Key(e.name, t)) == Some(AliasSet(target))
    ensures var r := ApplyBatch(now, AliasChanges(target, Zone.Delete, e.name, e.types));
      r.Some? && forall k :: At(r.value, k) == if k.name == e.name && k.rtype in e.types then None else At(now, k)
  {
    var cs := AliasChanges(target, Zone.Delete, e.name, e.types);
    var a := Change(Zone.Delete, Key(e.name, TYPE_A), AliasSet(target));
    assert ApplyBatch(now, []) == Some(now);
    ApplyOneMore(now, [], a);
    if e.types == [TYPE_A] {
      assert cs == [] + [a];
    } else {
      var b := Change(Zone.Delete, Key(e.name, TYPE_AAAA), AliasSet(target));
      assert cs == ([] + [a]) + [b];
      ApplyOneMore(now, [] + [a], b);
    }
  }

  lemma DeleteOneEntry(z: ZoneMap, once: ZoneMap, now: ZoneMap, target: string, own: string, e: Entry)
    requires ValidEntry(e) && Free(z, e) && IsOwnershipRecord(own) && Upserted(z, once, target, own, e)
    requires forall k: Key :: k.name == e.name ==> At(now, k) == At(once, k)
    ensures var r := ApplyBatch(now, DeleteChanges(once, target, own, e));
      && r.Some?
      && forall k ::
        At(r.value, k) ==
          if !Requests(e, k) then At(now, k) else if k.rtype == TYPE_TXT then Restored(At(z, k)) else None
  {
    var values, txtKey := TxtValues(z, e.name), Key(e.name, TYPE_TXT);
    DeleteAddresses(now, target, e);
    var c := TxtChangeForDelete(own, e.name, values + [own]);
    assert TxtValues(once, e.name) == values + [own];
    RemoveFirstUndoesAppend(values, own);
    ApplyOneMore(now, AliasChanges(target, Zone.Delete, e.name, e.types), c);
    assert At(now, txtKey) == Some(TxtSet(values + [own]));
    if txtKey in z {
      assert Restored(At(z, txtKey)) == Some(TxtSet(values));
    }
  }

  lemma {:induction false} DeletePrefix(z: ZoneMap, once: ZoneMap, al: Aliases, last: string, n: nat)
    requires ValidEntries(al.entries) && DistinctNames(al.entries) && AllFree(z, al.entries)
    requires IsOwnershipRecord(al.ownershipTXTValue) && n <= |al.entries|
    requires forall e :: e in al.entries ==> Upserted(z, once, al.target, al.ownershipTXTValue, e)
    ensures var plan := PlanDelete(once, last, al.ownershipTXTValue, al.entries[..n]);
      && plan.Some? && ApplyBatch(once, plan.value.changes).Some?
      && forall k :: DeletedUpTo(z, once, ApplyBatch(once, plan.value.changes).value, al.entries, n, k)
    decreases n
  {
    if n > 0 {
      var es, own, e := al.entries, al.ownershipTXTValue, al.entries[n - 1];
      DeletePrefix(z, once, al, last, n - 1);
      assert es[..n][..n - 1] == es[..n - 1];
      var before := PlanDelete(once, last, own, es[..n - 1]).value;
      var now := ApplyBatch(once, before.changes).value;
      UpsertedIsDeletable(z, once, al.target, own, e, before.target);
      forall k: Key | k.name == e.name
        ensures At(now, k) == At(once, k)
      {
        assert DeletedUpTo(z, once, now, es, n - 1, k);
      }
      DeleteOneEntry(z, once, now, al.target, own, e);
      ApplyBatchConcat(once, before.changes, DeleteChanges(once, al.target, own, e));
      var plan := PlanDelete(once, last, own, es[..n]).value;
      assert plan.changes == before.changes + DeleteChanges(once, al.target, own, e);
      var after := ApplyBatch(once, plan.changes).value;
      forall k
        ensures DeletedUpTo(z, once, after, es, n, k)
      {
        assert DeletedUpTo(z, once, now, es, n - 1, k);
        DeletedOneMore(z, once, now, after, es, n, k);
      }
    }
  }

  lemma DeletedOneMore(z: ZoneMap, once: ZoneMap, now: ZoneMap, after: ZoneMap, es: seq<Entry>, n: nat, k: Key)
    requires 0 < n <= |es| && DeletedUpTo(z, once, now, es, n - 1, k)
    requires At(after, k) ==
      if !Requests(es[n - 1], k) then At(now, k) else if k.rtype == TYPE_TXT then Restored(At(z, k)) else None
    ensures DeletedUpTo(z, once, after, es, n, k)
  {
  }

  lemma UpsertOnFree(z: ZoneMap, al: Aliases, f: Faults)
    requires ValidEntries(al.entries) && AllFree(z, al.entries) && Undisturbed(al, f)
    requires IsOwnershipRecord(al.ownershipTXTValue)
    ensures UpsertOutcome(z, al, f).1
    ensures forall e :: e in al.entries ==>
      Upserted(z, UpsertOutcome(z, al, f).0, al.target, al.ownershipTXTValue, e)
  {
    forall e | e in al.entries
      ensures Valid(al.ownershipTXTValue, Existing(z, e))
    {
      assert Free(z, e);
    }
    UpsertSucceedsIffValid(z, al, f);
    UpsertAchieves(z, al, f);
  }

  predicate UsesControllerTTL(z: ZoneMap, e: Entry) {
    Key(e.name, TYPE_TXT) in z ==> z[Key(e.name, TYPE_TXT)].ttl == TXT_TTL
  }

  /**
   * On free, distinct names Upsert and then Delete both succeed, whatever target Delete is given. Together they
   * restore the zone, foreign TXT values and their order included, if and only if every TXT set there had the
   * controller's TTL.
   */
  lemma DeleteUndoesUpsert(z: ZoneMap, al: Aliases, f: Faults, last: string, g: Faults)
    requires ValidEntries(al.entries) && DistinctNames(al.entries) && AllFree(z, al.entries)
    requires IsOwnershipRecord(al.ownershipTXTValue)
    requires Undisturbed(al, f) && Undisturbed(al, g)
    ensures UpsertOutcome(z, al, f).1
    ensures var (after, ok) := DeleteOutcome(UpsertOutcome(z, al, f).0, al.(target := last), g);
      ok && (after == z <==> forall e :: e in al.entries ==> UsesControllerTTL(z, e))
  {
    UpsertOnFree(z, al, f);
    if al.entries != [] {
      var es := al.entries;
      var once := UpsertOutcome(z, al, f).0;
      UpsertAchieves(z, al, f);
      DeletePrefix(z, once, al, last, |es|);
      assert es[..|es|] == es;
      var after := DeleteOutcome(once, al.(target := last), g).0;
      forall k
        ensures At(after, k) == if Requested(al, k) && k.rtype == TYPE_TXT then Restored(At(z, k)) else At(z, k)
      {
        assert DeletedUpTo(z, once, after, es, |es|, k);
        assert Requested(al, k) <==> exists i :: 0 <= i < |es| && Requests(es[i], k);
        if e :| e in es && Requests(e, k) && k.rtype != TYPE_TXT {
          assert Free(z, e) && k == Key(e.name, k.rtype);
        }
      }
      RestoredIffTTL(z, after, al);
    }
  }

  lemma RestoredIffTTL(z: ZoneMap, after: ZoneMap, al: Aliases)
    requires AllFree(z, al.entries)
    requires forall k ::
      At(after, k) == if Requested(al, k) && k.rtype == TYPE_TXT then Restored(At(z, k)) else At(z, k)
    ensures after == z <==> forall e :: e in al.entries ==> UsesControllerTTL(z, e)
  {
    forall e | e in al.entries
      ensures UsesControllerTTL(z, e) <==> At(after, Key(e.name, TYPE_TXT)) == At(z, Key(e.name, TYPE_TXT))
    {
      assert Free(z, e) && Requests(e, Key(e.name, TYPE_TXT));
      assert Requested(al, Key(e.name, TYPE_TXT));
    }
    if forall e :: e in al.entries ==> UsesControllerTTL(z, e) {
      forall k
        ensures At(after, k) == At(z, k)
      {
        if e :| e in al.entries && Requests(e, k) && k.rtype == TYPE_TXT {
          assert k == Key(e.name, TYPE_TXT);
        }
      }
      SameAtSameZone(after, z);
    }
  }
}
