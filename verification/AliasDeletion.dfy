/** When deleting aliases succeeds. */
module AliasDeletion {
  import opened Model
  import opened Zone
  import opened AliasRepository
  import opened Ownership
  import opened AliasRoundTrip

  /** The address records point where the A record does, and are just what the controller writes. */
  predicate Addressed(z: ZoneMap, e: Entry) {
    var a := At(z, Key(e.name, TYPE_A));
    && a.Some? && a.value.aliasTarget.Some?
    && forall t :: t in e.types ==> At(z, Key(e.name, t)) == Some(AliasSet(a.value.aliasTarget.value.dnsName))
  }

  /** The entry validates and has all its records; a TXT set that has to go is just what the controller writes. */
  predicate Erasable(z: ZoneMap, own: string, e: Entry) {
    var values := TxtValues(z, e.name);
    && Deletable(z, own, e) && Addressed(z, e)
    && (RemoveFirst(own, values) == [] ==> At(z, Key(e.name, TYPE_TXT)) == Some(TxtSet(values)))
  }

  /** Deleting e from a zone that holds at its name what was read there. */
  lemma ErasesIffErasable(z: ZoneMap, now: ZoneMap, last: string, own: string, e: Entry)
    requires ValidEntry(e) && forall k: Key :: k.name == e.name ==> At(now, k) == At(z, k)
    ensures var one := DeletionOf(z, last, own, e);
      one.Some? && ApplyBatch(now, one.value.changes).Some? <==> Erasable(z, own, e)
    ensures var one := DeletionOf(z, last, own, e);
      Erasable(z, own, e) ==>
        var after := ApplyBatch(now, one.value.changes).value;
        Key(e.name, TYPE_A) !in after && forall k :: !Requests(e, k) ==> At(after, k) == At(now, k)
  {
    var one := DeletionOf(z, last, own, e);
    var txt := TxtChangeForDelete(own, e.name, TxtValues(z, e.name));
    if one.Some? {
      var cs := AliasChanges(one.value.target, Zone.Delete, e.name, e.types);
      assert one.value.changes == cs + [txt];
      ApplyOneMore(now, cs, txt);
      AppliedAddresses(now, one.value.target, e);
      if forall t :: t in e.types ==> At(now, Key(e.name, t)) == Some(AliasSet(one.value.target)) {
        DeleteAddresses(now, one.value.target, e);
        assert At(ApplyBatch(now, cs).value, txt.key) == At(now, txt.key);
      }
    }
  }

  lemma AppliedAddresses(now: ZoneMap, target: string, e: Entry)
    requires ValidEntry(e)
    ensures ApplyBatch(now, AliasChanges(target, Zone.Delete, e.name, e.types)).Some? ==>
      forall t :: t in e.types ==> At(now, Key(e.name, t)) == Some(AliasSet(target))
  {
    var cs := AliasChanges(target, Zone.Delete, e.name, e.types);
    forall t | ApplyBatch(now, cs).Some? && t in e.types
      ensures At(now, Key(e.name, t)) == Some(AliasSet(target))
    {
      var k :| 0 <= k < |e.types| && e.types[k] == t;
      assert cs[k] in cs;
      BatchEffect(now, cs, cs[k]);
    }
  }

  /** A name whose A record is gone cannot be deleted any more. */
  lemma NothingToErase(z: ZoneMap, now: ZoneMap, last: string, own: string, e: Entry)
    requires ValidEntry(e) && Key(e.name, TYPE_A) !in now
    ensures var one := DeletionOf(z, last, own, e); one.Some? ==> ApplyBatch(now, one.value.changes).None?
  {
    var one := DeletionOf(z, last, own, e);
    assert TYPE_A in e.types;
    if one.Some? {
      ApplyOneMore(
        now, AliasChanges(one.value.target, Zone.Delete, e.name, e.types),
        TxtChangeForDelete(own, e.name, TxtValues(z, e.name)));
      AppliedAddresses(now, one.value.target, e);
    }
  }

  predicate AllErasable(z: ZoneMap, own: string, es: seq<Entry>) {
    DistinctNames(es) && forall e :: e in es ==> Erasable(z, own, e)
  }

  predicate Applies(z: ZoneMap, plan: Option<DeletePlan>) {
    plan.Some? && ApplyBatch(z, plan.value.changes).Some?
  }

  /** What the zone is like after some entries were deleted. */
  ghost predicate ErasedFrom(z: ZoneMap, after: ZoneMap, es: seq<Entry>) {
    && (forall e :: e in es ==> Key(e.name, TYPE_A) !in after)
    && forall k: Key :: (forall e :: e in es ==> e.name != k.name) ==> At(after, k) == At(z, k)
  }

  lemma {:induction false} PlanAppliesIffErasable(z: ZoneMap, last: string, own: string, es: seq<Entry>)
    requires ValidEntries(es)
    ensures var plan := PlanDelete(z, last, own, es);
      && (Applies(z, plan) <==> AllErasable(z, own, es))
      && (Applies(z, plan) ==> ErasedFrom(z, ApplyBatch(z, plan.value.changes).value, es))
  {
    if es != [] {
      var n := |es| - 1;
      var e, before := es[n], PlanDelete(z, last, own, es[..n]);
      assert es == es[..n] + [e];
      PlanAppliesIffErasable(z, last, own, es[..n]);
      if before.Some? {
        var one := DeletionOf(z, before.value.target, own, e);
        if one.Some? {
          ApplyBatchConcat(z, before.value.changes, one.value.changes);
        }
        if Applies(z, before) {
          ErasesNext(z, ApplyBatch(z, before.value.changes).value, before.value.target, own, es);
        }
      }
    }
  }

  lemma ErasesNext(z: ZoneMap, now: ZoneMap, last: string, own: string, es: seq<Entry>)
    requires ValidEntries(es) && es != []
    requires var front := es[..|es| - 1]; ErasedFrom(z, now, front) && AllErasable(z, own, front)
    ensures var one := DeletionOf(z, last, own, es[|es| - 1]);
      && (one.Some? && ApplyBatch(now, one.value.changes).Some? <==> AllErasable(z, own, es))
      && (AllErasable(z, own, es) ==> ErasedFrom(z, ApplyBatch(now, one.value.changes).value, es))
  {
    var front, e := es[..|es| - 1], es[|es| - 1];
    AllErasableOneMore(z, own, es);
    if f :| f in front && f.name == e.name {
      NothingToErase(z, now, last, own, e);
    } else {
      ErasesIffErasable(z, now, last, own, e);
      if Erasable(z, own, e) {
        ErasedOneMore(z, now, ApplyBatch(now, DeletionOf(z, last, own, e).value.changes).value, es);
      }
    }
  }

  lemma AllErasableOneMore(z: ZoneMap, own: string, es: seq<Entry>)
    requires es != []
    ensures var (front, e) := (es[..|es| - 1], es[|es| - 1]);
      AllErasable(z, own, es) <==>
        AllErasable(z, own, front) && Erasable(z, own, e) && forall f :: f in front ==> f.name != e.name
  {
    var n := |es| - 1;
    assert es == es[..n] + [es[n]];
    assert forall i :: 0 <= i < n ==> es[..n][i] == es[i] && es[i] in es[..n];
    assert es[n] in es;
  }

  lemma ErasedOneMore(z: ZoneMap, now: ZoneMap, after: ZoneMap, es: seq<Entry>)
    requires es != [] && ErasedFrom(z, now, es[..|es| - 1])
    requires var e := es[|es| - 1];
      && Key(e.name, TYPE_A) !in after
      && (forall k :: !Requests(e, k) ==> At(after, k) == At(now, k))
      && forall f :: f in es[..|es| - 1] ==> f.name != e.name
    ensures ErasedFrom(z, after, es)
  {
    var n := |es| - 1;
    assert es == es[..n] + [es[n]];
    forall f | f in es[..n]
      ensures Key(f.name, TYPE_A) !in after
    {
      assert At(after, Key(f.name, TYPE_A)) == At(now, Key(f.name, TYPE_A));
    }
    forall k: Key | forall f :: f in es ==> f.name != k.name
      ensures At(after, k) == At(z, k)
    {
      assert es[n] in es && !Requests(es[n], k);
      assert At(now, k) == At(z, k);
    }
  }

  /**
   * Undisturbed, Delete succeeds exactly if no name comes twice, every entry validates and has a TXT set, the
   * requested addresses are there and alike, and no TXT set that has to go was changed by others.
   */
  lemma DeleteSucceedsIffErasable(z: ZoneMap, al: Aliases, f: Faults)
    requires ValidEntries(al.entries) && Undisturbed(al, f)
    ensures DeleteOutcome(z, al, f).1 <==> AllErasable(z, al.ownershipTXTValue, al.entries)
  {
    PlanAppliesIffErasable(z, al.target, al.ownershipTXTValue, al.entries);
  }

  predicate AllAddressed(z: ZoneMap, es: seq<Entry>) {
    forall e :: e in es ==> Existing(z, e).addresses != []
  }

  lemma {:induction false} PlanIgnoresTarget(z: ZoneMap, own: string, es: seq<Entry>, target: string, other: string)
    requires AllAddressed(z, es)
    ensures var (p, q) := (PlanDelete(z, target, own, es), PlanDelete(z, other, own, es));
      && (p.Some? <==> q.Some?)
      && (p.Some? ==> p.value.changes == q.value.changes && (es != [] ==> p == q))
  {
    if es != [] {
      var n := |es| - 1;
      assert es == es[..n] + [es[n]];
      PlanIgnoresTarget(z, own, es[..n], target, other);
      assert Existing(z, es[n]).addresses != [];
    }
  }

  /** The target that Delete is given makes no difference: where it would be used, there is nothing to delete. */
  lemma DeleteIgnoresTarget(z: ZoneMap, al: Aliases, other: string, f: Faults)
    requires ValidEntries(al.entries)
    ensures DeleteOutcome(z, al, f) == DeleteOutcome(z, al.(target := other), f)
  {
    var own, es := al.ownershipTXTValue, al.entries;
    if es != [] && !f.Hit(|es|) {
      if AllErasable(z, own, es) {
        forall e | e in es
          ensures Existing(z, e).addresses != []
        {
          ErasableIsAddressed(z, own, es, e);
        }
        PlanIgnoresTarget(z, own, es, al.target, other);
      } else {
        DeleteSucceedsIffErasable(z, al, f);
        DeleteSucceedsIffErasable(z, al.(target := other), f);
      }
    }
  }

  lemma ErasableIsAddressed(z: ZoneMap, own: string, es: seq<Entry>, e: Entry)
    requires ValidEntries(es) && AllErasable(z, own, es) && e in es
    ensures Existing(z, e).addresses != []
  {
    var k :| 0 <= k < |es| && es[k] == e;
    assert Erasable(z, own, es[k]) && TYPE_A in e.types;
  }
}
