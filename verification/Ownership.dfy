/** What the ownership values in TXT record sets protect, for calls that run alone and for calls that interleave. */
module Ownership {
  import opened GoStrings
  import opened Model
  import opened Zone
  import opened AliasRepository

  // ----- ownership values and foreign values

  function Owned(values: seq<string>): seq<string> {
    if values == [] then []
    else (if IsOwnershipRecord(values[0]) then [values[0]] else []) + Owned(values[1..])
  }

  function Foreign(values: seq<string>): seq<string> {
    if values == [] then []
    else (if IsOwnershipRecord(values[0]) then [] else [values[0]]) + Foreign(values[1..])
  }

  predicate AtMostOneOwner(values: seq<string>) {
    |Owned(values)| <= 1
  }

  ghost predicate SingleOwners(z: ZoneMap) {
    forall name :: AtMostOneOwner(TxtValues(z, name))
  }

  lemma OwnershipValueIsOwnership(txtOwnerValue: string)
    ensures IsOwnershipRecord(OwnershipValue(txtOwnerValue))
  {
    assert OccursAt(OwnershipValue(txtOwnerValue), TXT_OWNER_KEY, 1);
  }

  lemma {:induction false} OwnedMembers(values: seq<string>, v: string)
    ensures v in Owned(values) <==> v in values && IsOwnershipRecord(v)
  {
    if values != [] {
      OwnedMembers(values[1..], v);
      assert values == [values[0]] + values[1..];
    }
  }

  lemma {:induction false} AppendOwner(values: seq<string>, own: string)
    requires IsOwnershipRecord(own)
    ensures Owned(values + [own]) == Owned(values) + [own] && Foreign(values + [own]) == Foreign(values)
  {
    if values != [] {
      assert (values + [own])[1..] == values[1..] + [own];
      AppendOwner(values[1..], own);
    }
  }

  lemma {:induction false} RemoveOwner(values: seq<string>, own: string)
    requires IsOwnershipRecord(own)
    ensures Foreign(RemoveFirst(own, values)) == Foreign(values)
    ensures |Owned(RemoveFirst(own, values))| == |Owned(values)| - if own in values then 1 else 0
  {
    if values != [] {
      RemoveOwner(values[1..], own);
      if values[0] != own {
        var r := [values[0]] + RemoveFirst(own, values[1..]);
        assert r[1..] == RemoveFirst(own, values[1..]);
      }
    }
  }

  /** An accepted TXT set with an ownership record has this class's own. */
  lemma {:induction false} AcceptedHasOwn(values: seq<string>, own: string)
    requires OwnershipAccepted(own, values) && ContainsOwnershipRecord(values)
    ensures own in values
  {
    if values[0] != own {
      assert values == [values[0]] + values[1..];
      AcceptedHasOwn(values[1..], own);
    }
  }

  /**
   * Deleting a name gives up one of its values: the set goes, named exactly as it was read, if that was all there
   * was, and otherwise it is written back with the other values in their order.
   */
  lemma DeletionGivesUpOneValue(own: string, name: string, values: seq<string>)
    ensures var c := TxtChangeForDelete(own, name, values);
      && c.key == Key(name, "TXT") && c.records.ttl == 300 && c.records.routing.Simple?
      && (c.action == Zone.Delete <==> values == [] || values == [own])
      && (c.action == Zone.Delete ==> c.records.values == values)
      && (c.action != Zone.Delete && own !in values ==> c.records.values == values)
      && forall k :: 0 <= k < |values| && values[k] == own && own !in values[..k] && c.action != Zone.Delete ==>
           c.records.values == values[..k] + values[k + 1..]
  {
    if own !in values {
      RemoveFirstAbsent(own, values);
    }
    forall k | 0 <= k < |values| && values[k] == own && own !in values[..k]
      ensures RemoveFirst(own, values) == values[..k] + values[k + 1..]
    {
      RemoveFirstAt(own, values, k);
    }
  }

  /** A TXT set is accepted exactly if its first value that names an owner, if there is one, names this class. */
  lemma {:induction false} FirstOwnerDecides(values: seq<string>, own: string)
    ensures OwnershipAccepted(own, values) <==>
      forall k :: 0 <= k < |values| && Contains(values[k], "cdn-origin-controller/owner") && values[k] != own ==>
        own in values[..k]
  {
    if values != [] && values[0] != own {
      var rest := values[1..];
      FirstOwnerDecides(rest, own);
      assert forall k :: 0 <= k < |rest| ==> rest[k] == values[k + 1] && values[..k + 1] == [values[0]] + rest[..k];
      assert forall k :: 0 < k < |values| ==> values[k] == rest[k - 1] && values[..k] == [values[0]] + rest[..k - 1];
    }
  }

  /** A set with at most one owner is accepted only if that owner is this class. */
  lemma AcceptedOwner(values: seq<string>, own: string)
    requires IsOwnershipRecord(own) && AtMostOneOwner(values)
    requires ContainsOwnershipRecord(values) ==> OwnershipAccepted(own, values)
    ensures Owned(values) == [] || Owned(values) == [own]
    ensures forall v :: v in values ==> !OwnedByDifferentClass(own, v)
  {
    if ContainsOwnershipRecord(values) {
      AcceptedHasOwn(values, own);
      OwnedMembers(values, own);
      assert Owned(values) == [own];
    }
    forall v | v in values && OwnedByDifferentClass(own, v)
      ensures false
    {
      OwnedMembers(values, v);
    }
    if Owned(values) != [] {
      OwnedMembers(values, Owned(values)[0]);
    }
  }

  // ----- what a plan holds

  predicate Planned(c: Change, z: ZoneMap, own: string, e: Entry) {
    && Valid(own, Existing(z, e))
    && c.key.name == e.name
    && (c.key.rtype in e.types || c == TxtChangeForUpsert(own, e.name, TxtValues(z, e.name))
        || c == TxtChangeForDelete(own, e.name, TxtValues(z, e.name)))
  }

  lemma {:induction false} UpsertPlanHolds(z: ZoneMap, target: string, own: string, es: seq<Entry>, c: Change)
    requires PlanUpsert(z, target, own, es).Some? && ValidEntries(es)
    ensures c in PlanUpsert(z, target, own, es).value <==> exists e :: e in es && c in UpsertChanges(z, target, own, e)
    ensures forall e :: e in es ==> Valid(own, Existing(z, e))
  {
    if es != [] {
      var n := |es| - 1;
      assert es == es[..n] + [es[n]];
      UpsertPlanHolds(z, target, own, es[..n], c);
    }
  }

  lemma {:induction false} DeletePlanHolds(z: ZoneMap, target: string, own: string, es: seq<Entry>, c: Change)
    requires PlanDelete(z, target, own, es).Some? && ValidEntries(es)
    ensures c in PlanDelete(z, target, own, es).value.changes ==>
      exists e, t :: e in es && c in DeleteChanges(z, t, own, e)
    ensures forall e :: e in es ==> Deletable(z, own, e)
    ensures forall e :: e in es ==>
      exists t :: forall d :: d in DeleteChanges(z, t, own, e) ==> d in PlanDelete(z, target, own, es).value.changes
  {
    if es != [] {
      var n := |es| - 1;
      assert es == es[..n] + [es[n]];
      DeletePlanHolds(z, target, own, es[..n], c);
      var t := PlanDelete(z, target, own, es).value.target;
      assert forall d :: d in DeleteChanges(z, t, own, es[n]) ==> d in PlanDelete(z, target, own, es).value.changes;
    }
  }

  // ----- one call that runs alone

  datatype Operation = UpsertOp | DeleteOp

  function Outcome(z: ZoneMap, op: Operation, al: Aliases, f: Faults): (ZoneMap, bool) {
    if op.UpsertOp? then UpsertOutcome(z, al, f) else DeleteOutcome(z, al, f)
  }

  function PlanOf(z: ZoneMap, op: Operation, al: Aliases): Option<seq<Change>> {
    if op.UpsertOp? then PlanUpsert(z, al.target, al.ownershipTXTValue, al.entries)
    else
      var plan := PlanDelete(z, al.target, al.ownershipTXTValue, al.entries);
      if plan.None? then None else Some(plan.value.changes)
  }

  ghost predicate OwnedByOther(z: ZoneMap, own: string, name: string) {
    exists v :: v in TxtValues(z, name) && OwnedByDifferentClass(own, v)
  }

  lemma UpsertChangeIsPlanned(z: ZoneMap, target: string, own: string, e: Entry, c: Change)
    requires Valid(own, Existing(z, e)) && c in UpsertChanges(z, target, own, e)
    ensures Planned(c, z, own, e)
  {
  }

  lemma DeleteChangeIsPlanned(z: ZoneMap, target: string, own: string, e: Entry, c: Change)
    requires Valid(own, Existing(z, e)) && c in DeleteChanges(z, target, own, e)
    ensures Planned(c, z, own, e)
  {
  }

  lemma PlanHolds(z: ZoneMap, op: Operation, al: Aliases, c: Change)
    requires ValidEntries(al.entries) && PlanOf(z, op, al).Some? && c in PlanOf(z, op, al).value
    ensures exists e :: e in al.entries && Planned(c, z, al.ownershipTXTValue, e)
  {
    var own := al.ownershipTXTValue;
    if op.UpsertOp? {
      UpsertPlanHolds(z, al.target, own, al.entries, c);
      var e :| e in al.entries && c in UpsertChanges(z, al.target, own, e);
      UpsertChangeIsPlanned(z, al.target, own, e, c);
    } else {
      DeletePlanHolds(z, al.target, own, al.entries, c);
      var e, t :| e in al.entries && c in DeleteChanges(z, t, own, e);
      DeleteChangeIsPlanned(z, t, own, e, c);
    }
  }

  /** A planned name is free of other owners, and its existing addresses are this class's. */
  lemma PlannedIsOwn(c: Change, z: ZoneMap, own: string, e: Entry)
    requires SingleOwners(z) && IsOwnershipRecord(own) && ValidEntry(e) && Planned(c, z, own, e)
    ensures !OwnedByOther(z, own, e.name)
    ensures c.key.rtype != TYPE_TXT && c.key in z ==> own in TxtValues(z, e.name)
  {
    var values := TxtValues(z, e.name);
    assert AtMostOneOwner(values);
    AcceptedOwner(values, own);
    if c.key.rtype != TYPE_TXT && c.key in z {
      assert z[c.key] in Existing(z, e).addresses;
      AcceptedHasOwn(values, own);
    }
  }

  /**
   * A call that runs alone changes nothing if it fails, never touches a name owned by another class, and
   * changes an existing address record only where the TXT set already carried its own value.
   */
  lemma CallsRespectOwners(z: ZoneMap, op: Operation, al: Aliases, f: Faults, k: Key)
    requires SingleOwners(z) && IsOwnershipRecord(al.ownershipTXTValue) && ValidEntries(al.entries)
    ensures var (after, ok) := Outcome(z, op, al, f);
      && (!ok ==> after == z)
      && (OwnedByOther(z, al.ownershipTXTValue, k.name) ==> At(after, k) == At(z, k))
      && (k.rtype != TYPE_TXT && k in z && At(after, k) != At(z, k) ==> al.ownershipTXTValue in TxtValues(z, k.name))
  {
    var (after, ok) := Outcome(z, op, al, f);
    if ok && al.entries != [] && At(after, k) != At(z, k) {
      var cs := PlanOf(z, op, al).value;
      if forall c :: c in cs ==> c.key != k {
        BatchFrame(z, cs, k);
      }
      var c :| c in cs && c.key == k;
      PlanHolds(z, op, al, c);
      var e :| e in al.entries && Planned(c, z, al.ownershipTXTValue, e);
      PlannedIsOwn(c, z, al.ownershipTXTValue, e);
    }
  }

  // ----- what a successful call achieves

  predicate Names(al: Aliases, name: string) {
    exists e :: e in al.entries && e.name == name
  }

  /** The records that a call for these aliases may write. */
  predicate Requested(al: Aliases, k: Key) {
    exists e :: e in al.entries && Requests(e, k)
  }

  predicate Requests(e: Entry, k: Key) {
    e.name == k.name && (k.rtype == TYPE_TXT || k.rtype in e.types)
  }

  ghost predicate PlannedFrom(cs: seq<Change>, z: ZoneMap, al: Aliases) {
    forall c :: c in cs <==> exists e :: e in al.entries && c in UpsertChanges(z, al.target, al.ownershipTXTValue, e)
  }

  lemma UpsertAchieves(z: ZoneMap, al: Aliases, f: Faults)
    requires ValidEntries(al.entries) && UpsertOutcome(z, al, f).1
    ensures var (after, own) := (UpsertOutcome(z, al, f).0, al.ownershipTXTValue);
      && (forall e, t :: e in al.entries && t in e.types ==> At(after, Key(e.name, t)) == Some(AliasSet(al.target)))
      && (forall e :: e in al.entries ==>
            At(after, Key(e.name, TYPE_TXT)) == Some(TxtSet(EnsureTXTValue(own, TxtValues(z, e.name)))))
      && (forall k :: !Requested(al, k) ==> At(after, k) == At(z, k))
  {
    if al.entries != [] {
      var own := al.ownershipTXTValue;
      var cs := PlanUpsert(z, al.target, own, al.entries).value;
      forall c
        ensures c in cs <==> exists e :: e in al.entries && c in UpsertChanges(z, al.target, own, e)
      {
        UpsertPlanHolds(z, al.target, own, al.entries, c);
      }
      forall e | e in al.entries
        ensures forall t :: t in e.types ==> At(UpsertOutcome(z, al, f).0, Key(e.name, t)) == Some(AliasSet(al.target))
        ensures At(UpsertOutcome(z, al, f).0, Key(e.name, TYPE_TXT))
                == Some(TxtSet(EnsureTXTValue(own, TxtValues(z, e.name))))
      {
        UpsertedEntry(z, cs, al, e);
      }
      forall k | !Requested(al, k)
        ensures At(UpsertOutcome(z, al, f).0, k) == At(z, k)
      {
        UnrequestedKey(z, cs, al, k);
      }
    }
  }

  lemma UnrequestedKey(z: ZoneMap, cs: seq<Change>, al: Aliases, k: Key)
    requires ApplyBatch(z, cs).Some? && PlannedFrom(cs, z, al) && !Requested(al, k)
    ensures At(ApplyBatch(z, cs).value, k) == At(z, k)
  {
    forall c | c in cs
      ensures c.key != k
    {
      var e :| e in al.entries && c in UpsertChanges(z, al.target, al.ownershipTXTValue, e);
      assert Requests(e, c.key);
    }
    BatchFrame(z, cs, k);
  }

  lemma UpsertChangesByKey(z: ZoneMap, al: Aliases, e: Entry, c: Change)
    requires ValidEntry(e) && c in UpsertChanges(z, al.target, al.ownershipTXTValue, e)
    ensures c == if c.key.rtype == TYPE_TXT
      then TxtChangeForUpsert(al.ownershipTXTValue, c.key.name, TxtValues(z, c.key.name))
      else Change(Zone.Upsert, c.key, AliasSet(al.target))
  {
  }

  lemma UpsertedEntry(z: ZoneMap, cs: seq<Change>, al: Aliases, e: Entry)
    requires ValidEntries(al.entries) && e in al.entries
    requires ApplyBatch(z, cs).Some? && PlannedFrom(cs, z, al)
    ensures forall t :: t in e.types ==> At(ApplyBatch(z, cs).value, Key(e.name, t)) == Some(AliasSet(al.target))
    ensures At(ApplyBatch(z, cs).value, Key(e.name, TYPE_TXT))
            == Some(TxtSet(EnsureTXTValue(al.ownershipTXTValue, TxtValues(z, e.name))))
  {
    var own := al.ownershipTXTValue;
    forall c | c in cs
      ensures c == if c.key.rtype == TYPE_TXT then TxtChangeForUpsert(own, c.key.name, TxtValues(z, c.key.name))
                   else Change(Zone.Upsert, c.key, AliasSet(al.target))
    {
      var x :| x in al.entries && c in UpsertChanges(z, al.target, own, x);
      UpsertChangesByKey(z, al, x, c);
    }
    forall t | t in e.types
      ensures At(ApplyBatch(z, cs).value, Key(e.name, t)) == Some(AliasSet(al.target))
    {
      var c := Change(Zone.Upsert, Key(e.name, t), AliasSet(al.target));
      assert c in AliasChanges(al.target, Zone.Upsert, e.name, e.types);
      assert c in UpsertChanges(z, al.target, own, e);
      BatchEffect(z, cs, c);
    }
    var c := TxtChangeForUpsert(own, e.name, TxtValues(z, e.name));
    assert c in UpsertChanges(z, al.target, own, e);
    BatchEffect(z, cs, c);
  }

  lemma {:induction false} OnlyDeleted(z: ZoneMap, cs: seq<Change>, k: Key)
    requires ApplyBatch(z, cs).Some?
    requires exists c :: c in cs && c.key == k
    requires forall c :: c in cs && c.key == k ==> c.action == Zone.Delete
    ensures At(ApplyBatch(z, cs).value, k) == None
  {
    var n := |cs| - 1;
    assert cs == cs[..n] + [cs[n]];
    if cs[n].key != k {
      OnlyDeleted(z, cs[..n], k);
    }
  }

  /** The TXT set after deleting this class's value from it. */
  function TxtWithout(own: string, values: seq<string>): Option<RecordSet> {
    if RemoveFirst(own, values) == [] then None else Some(TxtSet(RemoveFirst(own, values)))
  }

  lemma DeleteAchieves(z: ZoneMap, al: Aliases, f: Faults)
    requires ValidEntries(al.entries) && DeleteOutcome(z, al, f).1
    ensures var (after, own) := (DeleteOutcome(z, al, f).0, al.ownershipTXTValue);
      && (forall e, t :: e in al.entries && t in e.types ==> At(after, Key(e.name, t)) == None)
      && (forall e :: e in al.entries ==> TxtValues(after, e.name) == RemoveFirst(own, TxtValues(z, e.name)))
      && (forall e :: e in al.entries ==>
            At(after, Key(e.name, TYPE_TXT)) == TxtWithout(own, TxtValues(z, e.name)))
      && (forall k :: !Requested(al, k) ==> At(after, k) == At(z, k))
  {
    if al.entries != [] {
      var own := al.ownershipTXTValue;
      var cs := PlanDelete(z, al.target, own, al.entries).value.changes;
      forall c | c in cs
        ensures exists e, t :: e in al.entries && c in DeleteChanges(z, t, own, e)
      {
        DeletePlanHolds(z, al.target, own, al.entries, c);
      }
      DeletePlanHolds(z, al.target, own, al.entries, Change(Zone.Delete, Key("", ""), TxtSet([])));
      forall e | e in al.entries
        ensures forall t :: t in e.types ==> At(DeleteOutcome(z, al, f).0, Key(e.name, t)) == None
        ensures TxtValues(DeleteOutcome(z, al, f).0, e.name) == RemoveFirst(own, TxtValues(z, e.name))
        ensures At(DeleteOutcome(z, al, f).0, Key(e.name, TYPE_TXT)) == TxtWithout(own, TxtValues(z, e.name))
      {
        DeletedEntry(z, cs, own, al.entries, e);
      }
      forall k | !Requested(al, k)
        ensures At(DeleteOutcome(z, al, f).0, k) == At(z, k)
      {
        BatchFrame(z, cs, k);
      }
    }
  }

  lemma DeleteChangesByKey(z: ZoneMap, target: string, own: string, e: Entry, c: Change)
    requires ValidEntry(e) && c in DeleteChanges(z, target, own, e)
    ensures c.key.rtype == TYPE_TXT ==> c == TxtChangeForDelete(own, c.key.name, TxtValues(z, c.key.name))
    ensures c.key.rtype != TYPE_TXT ==> c.action == Zone.Delete
  {
  }

  lemma DeletedEntry(z: ZoneMap, cs: seq<Change>, own: string, es: seq<Entry>, e: Entry)
    requires ValidEntries(es) && e in es && ApplyBatch(z, cs).Some?
    requires forall c :: c in cs ==> exists x, t :: x in es && c in DeleteChanges(z, t, own, x)
    requires exists t :: forall d :: d in DeleteChanges(z, t, own, e) ==> d in cs
    ensures forall t :: t in e.types ==> At(ApplyBatch(z, cs).value, Key(e.name, t)) == None
    ensures TxtValues(ApplyBatch(z, cs).value, e.name) == RemoveFirst(own, TxtValues(z, e.name))
    ensures At(ApplyBatch(z, cs).value, Key(e.name, TYPE_TXT)) == TxtWithout(own, TxtValues(z, e.name))
  {
    var target :| forall d :: d in DeleteChanges(z, target, own, e) ==> d in cs;
    forall c | c in cs
      ensures c.key.rtype == TYPE_TXT ==> c == TxtChangeForDelete(own, c.key.name, TxtValues(z, c.key.name))
      ensures c.key.rtype != TYPE_TXT ==> c.action == Zone.Delete
    {
      var x, t :| x in es && c in DeleteChanges(z, t, own, x);
      DeleteChangesByKey(z, t, own, x, c);
    }
    forall t | t in e.types
      ensures At(ApplyBatch(z, cs).value, Key(e.name, t)) == None
    {
      var c := Change(Zone.Delete, Key(e.name, t), AliasSet(target));
      assert c in AliasChanges(target, Zone.Delete, e.name, e.types);
      assert c in DeleteChanges(z, target, own, e);
      OnlyDeleted(z, cs, c.key);
    }
    var c := TxtChangeForDelete(own, e.name, TxtValues(z, e.name));
    assert c in DeleteChanges(z, target, own, e);
    BatchEffect(z, cs, c);
  }

  /** After a successful Delete no named TXT set carries this class's value. */
  lemma DeleteDisowns(z: ZoneMap, al: Aliases, f: Faults, name: string)
    requires ValidEntries(al.entries) && DeleteOutcome(z, al, f).1
    requires SingleOwners(z) && IsOwnershipRecord(al.ownershipTXTValue) && Names(al, name)
    ensures Owned(TxtValues(DeleteOutcome(z, al, f).0, name)) == []
  {
    var own := al.ownershipTXTValue;
    DeleteAchieves(z, al, f);
    var e :| e in al.entries && e.name == name;
    var values := TxtValues(z, name);
    assert AtMostOneOwner(values);
    RemoveOwner(values, own);
    DeletePlanHolds(z, al.target, own, al.entries, Change(Zone.Delete, Key("", ""), TxtSet([])));
    AcceptedOwner(values, own);
    OwnedMembers(values, own);
  }

  lemma CallsKeepSingleOwners(z: ZoneMap, op: Operation, al: Aliases, f: Faults)
    requires SingleOwners(z) && IsOwnershipRecord(al.ownershipTXTValue) && ValidEntries(al.entries)
    ensures SingleOwners(Outcome(z, op, al, f).0)
    ensures forall name :: Foreign(TxtValues(Outcome(z, op, al, f).0, name)) == Foreign(TxtValues(z, name))
  {
    var (after, ok) := Outcome(z, op, al, f);
    var own := al.ownershipTXTValue;
    if ok && al.entries != [] {
      forall name
        ensures AtMostOneOwner(TxtValues(after, name)) && Foreign(TxtValues(after, name)) == Foreign(TxtValues(z, name))
      {
        var values := TxtValues(z, name);
        assert AtMostOneOwner(values);
        if op.UpsertOp? {
          UpsertAchieves(z, al, f);
        } else {
          DeleteAchieves(z, al, f);
        }
        if e :| e in al.entries && e.name == name {
          if op.UpsertOp? {
            UpsertPlanHolds(z, al.target, own, al.entries, TxtChangeForUpsert(own, name, values));
            EnsureKeepsValues(values, own);
          } else {
            RemoveOwner(values, own);
          }
        } else {
          assert At(after, Key(name, TYPE_TXT)) == At(z, Key(name, TYPE_TXT));
        }
      }
    }
  }

  lemma EnsureKeepsValues(values: seq<string>, own: string)
    requires IsOwnershipRecord(own) && AtMostOneOwner(values)
    requires ContainsOwnershipRecord(values) ==> OwnershipAccepted(own, values)
    ensures Owned(EnsureTXTValue(own, values)) == [own]
    ensures Foreign(EnsureTXTValue(own, values)) == Foreign(values)
  {
    AcceptedOwner(values, own);
    OwnedMembers(values, own);
    AppendOwner(values, own);
  }
}
