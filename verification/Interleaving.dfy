/**
 * Calls of several classes on one zone, with every listing and every commit a step of its own. A call lists one
 * entry at a time, in two listings, and submits its batch at the end; between its steps other calls may do
 * anything they can.
 */
module Interleaving {
  import opened Model
  import opened Zone
  import opened AliasRepository
  import opened Ownership

  /** A call under way: the entries still to read, the first listing of the next, and the collected changes. */
  datatype Call = Call(
    op: Operation, own: string, target: string, todo: seq<Entry>, listed: Option<seq<Listed>>, changes: seq<Change>)

  datatype State = State(zone: ZoneMap, calls: map<nat, Call>)

  predicate ValidCall(c: Call) {
    IsOwnershipRecord(c.own) && ValidEntries(c.todo)
  }

  function Begun(op: Operation, al: Aliases): Call {
    Call(op, al.ownershipTXTValue, al.target, al.entries, None, [])
  }

  function TxtOf(f: Filtered): seq<string> {
    if f.txt.Some? then f.txt.value.values else []
  }

  /** The target and the changes for an entry, from what was listed; None if validation stops the call. */
  function EntryPlan(f: Filtered, op: Operation, own: string, target: string, e: Entry): Option<DeletePlan> {
    if !Valid(own, f) then None
    else if op.UpsertOp? then
      Some(DeletePlan(
        target, AliasChanges(target, Zone.Upsert, e.name, e.types) + [TxtChangeForUpsert(own, e.name, TxtOf(f))]))
    else if f.txt.None? || (f.addresses != [] && f.addresses[0].aliasTarget.None?) then None
    else
      var t := if f.addresses == [] then target else f.addresses[0].aliasTarget.value.dnsName;
      Some(DeletePlan(t, AliasChanges(t, Zone.Delete, e.name, e.types) + [TxtChangeForDelete(own, e.name, TxtOf(f))]))
  }

  /** Goes on to the next entry, once both listings of this one are there. */
  function ReadEntry(c: Call, sets: seq<Listed>): Option<Call>
    requires c.todo != []
  {
    var plan := EntryPlan(FilteredFrom(c.todo[0], sets), c.op, c.own, c.target, c.todo[0]);
    if plan.None? then None
    else Some(c.(
      todo := c.todo[1..], listed := None, target := plan.value.target, changes := c.changes + plan.value.changes))
  }

  predicate Begins(s: State, t: State, id: nat, op: Operation, al: Aliases) {
    id !in s.calls && ValidCall(Begun(op, al)) && t == s.(calls := s.calls[id := Begun(op, al)])
  }

  /** The first listing of an entry. */
  predicate Lists(s: State, t: State, id: nat) {
    id in s.calls && s.calls[id].todo != [] && s.calls[id].listed.None? &&
    var c := s.calls[id];
    t == s.(calls := s.calls[id := c.(listed := Some(FirstListing(s.zone, c.todo[0].name)))])
  }

  /** The second listing of an entry, and what follows from both. */
  predicate Reads(s: State, t: State, id: nat) {
    id in s.calls && s.calls[id].todo != [] && s.calls[id].listed.Some? &&
    var c := s.calls[id];
    var r := ReadEntry(c, c.listed.value + SecondListing(s.zone, c.todo[0].name));
    t == s.(calls := if r.Some? then s.calls[id := r.value] else s.calls - {id})
  }

  predicate Commits(s: State, t: State, id: nat) {
    id in s.calls && s.calls[id].todo == [] &&
    t == State(Commit(s.zone, Some(s.calls[id].changes)).0, s.calls - {id})
  }

  /** A listing or the submission fails. */
  predicate Fails(s: State, t: State, id: nat) {
    id in s.calls && t == s.(calls := s.calls - {id})
  }

  ghost predicate Step(s: State, t: State) {
    || (exists id, op, al :: Begins(s, t, id, op, al))
    || (exists id :: Lists(s, t, id) || Reads(s, t, id) || Commits(s, t, id) || Fails(s, t, id))
  }

  ghost predicate Run(states: seq<State>) {
    states != [] && states[0].calls == map[] && forall i :: 0 < i < |states| ==> Step(states[i - 1], states[i])
  }

  // ----- steps without interference make up the call of the repository

  function ReadAll(z: ZoneMap, c: Call): Option<Call>
    decreases |c.todo|
  {
    if c.todo == [] then Some(c)
    else
      var r := ReadEntry(c, Listing(z, c.todo[0].name));
      if r.None? then None else ReadAll(z, r.value)
  }

  function ReadUpTo(z: ZoneMap, op: Operation, al: Aliases, k: nat): Option<Call>
    requires k <= |al.entries|
  {
    var es, own := al.entries[..k], al.ownershipTXTValue;
    if op.UpsertOp? then
      var p := PlanUpsert(z, al.target, own, es);
      if p.None? then None else Some(Call(op, own, al.target, al.entries[k..], None, p.value))
    else
      var p := PlanDelete(z, al.target, own, es);
      if p.None? then None else Some(Call(op, own, p.value.target, al.entries[k..], None, p.value.changes))
  }

  lemma EntryPlanOfZone(z: ZoneMap, op: Operation, own: string, target: string, e: Entry)
    requires ValidEntry(e)
    ensures EntryPlan(FilteredFrom(e, Listing(z, e.name)), op, own, target, e) ==
      if op.DeleteOp? then DeletionOf(z, target, own, e)
      else if Valid(own, Existing(z, e)) then Some(DeletePlan(target, UpsertChanges(z, target, own, e)))
      else None
  {
    FilteredListing(z, e);
    assert TxtOf(Existing(z, e)) == TxtValues(z, e.name);
  }

  lemma ReadOneMore(z: ZoneMap, op: Operation, al: Aliases, k: nat)
    requires ValidEntries(al.entries) && k < |al.entries|
    ensures var c := ReadUpTo(z, op, al, k);
      c.Some? ==> ReadUpTo(z, op, al, k + 1) == ReadEntry(c.value, Listing(z, al.entries[k].name))
    ensures ReadUpTo(z, op, al, k).None? ==> ReadUpTo(z, op, al, k + 1).None?
  {
    var c, own, e := ReadUpTo(z, op, al, k), al.ownershipTXTValue, al.entries[k];
    assert al.entries[k..][1..] == al.entries[k + 1..];
    if op.UpsertOp? {
      PlanUpsertOneMore(z, al.target, own, al.entries, k);
    } else if c.Some? {
      PlanOneMore(z, al.target, own, al.entries, k);
    } else {
      assert al.entries[..k + 1][..k] == al.entries[..k];
    }
    if c.Some? {
      EntryPlanOfZone(z, op, own, c.value.target, e);
    }
  }

  lemma {:induction false} ReadingIsPlanning(z: ZoneMap, op: Operation, al: Aliases, k: nat)
    requires ValidEntries(al.entries) && k <= |al.entries|
    ensures var c := ReadUpTo(z, op, al, k);
      (if c.None? then None else ReadAll(z, c.value)) ==
      var all := ReadUpTo(z, op, al, |al.entries|); if all.None? then None else Some(all.value)
    decreases |al.entries| - k
  {
    if k < |al.entries| {
      ReadOneMore(z, op, al, k);
      ReadingIsPlanning(z, op, al, k + 1);
    }
  }

  /** Reading all entries and committing with no step in between is a repository call without faults. */
  lemma UninterruptedCallIsOutcome(z: ZoneMap, op: Operation, al: Aliases)
    requires ValidEntries(al.entries) && al.entries != []
    ensures var c := ReadAll(z, Begun(op, al));
      Outcome(z, op, al, Faults(|al.entries|, false))
      == if c.None? then (z, false) else Commit(z, Some(c.value.changes))
  {
    assert al.entries[..0] == [] && al.entries[0..] == al.entries;
    assert al.entries[..|al.entries|] == al.entries;
    assert ReadUpTo(z, op, al, 0) == Some(Begun(op, al));
    ReadingIsPlanning(z, op, al, 0);
  }

  /** One step after the other, from the first state to the last. */
  ghost predicate Leads(states: seq<State>, s: State, t: State) {
    && states != [] && states[0] == s && states[|states| - 1] == t
    && forall i :: 0 < i < |states| ==> Step(states[i - 1], states[i])
  }

  lemma LeadsConcat(states: seq<State>, s: State, t: State, more: seq<State>, u: State)
    requires Leads(states, s, t) && Leads(more, t, u)
    ensures Leads(states + more[1..], s, u)
  {
    var all := states + more[1..];
    forall i | 0 < i < |all|
      ensures Step(all[i - 1], all[i])
    {
      if i >= |states| {
        assert all[i] == more[i - |states| + 1] && all[i - 1] == more[i - |states|];
      }
    }
  }

  lemma {:induction false} ReadsOn(z: ZoneMap, id: nat, c: Call) returns (states: seq<State>)
    requires c.listed.None?
    ensures var r := ReadAll(z, c);
      Leads(states, State(z, map[id := c]), State(z, if r.Some? then map[id := r.value] else map[]))
    decreases |c.todo|
  {
    var s := State(z, map[id := c]);
    if c.todo == [] {
      return [s];
    }
    var t := State(z, map[id := c.(listed := Some(FirstListing(z, c.todo[0].name)))]);
    var r := ReadEntry(c, Listing(z, c.todo[0].name));
    var u := State(z, if r.Some? then map[id := r.value] else map[]);
    assert t.calls == s.calls[id := t.calls[id]] && Lists(s, t, id);
    assert u.calls == (if r.Some? then t.calls[id := r.value] else t.calls - {id}) && Reads(t, u, id);
    states := [s, t, u];
    if r.Some? {
      var more := ReadsOn(z, id, r.value);
      LeadsConcat([s, t, u], s, u, more, more[|more| - 1]);
      states := states + more[1..];
    }
  }

  /** Every call of the repository without faults is a run of the steps of this module. */
  lemma UninterruptedRun(z: ZoneMap, op: Operation, al: Aliases) returns (states: seq<State>)
    requires IsOwnershipRecord(al.ownershipTXTValue) && ValidEntries(al.entries) && al.entries != []
    ensures Run(states) && states[0].zone == z
    ensures states[|states| - 1] == State(Outcome(z, op, al, Faults(|al.entries|, false)).0, map[])
  {
    var s, c := State(z, map[]), Begun(op, al);
    var t := State(z, map[0 := c]);
    assert Begins(s, t, 0, op, al);
    var r := ReadAll(z, c);
    var more := ReadsOn(z, 0, c);
    UninterruptedCallIsOutcome(z, op, al);
    LeadsConcat([s, t], s, t, more, more[|more| - 1]);
    states := [s, t] + more[1..];
    if r.Some? {
      var u := State(z, map[0 := r.value]);
      var v := State(Commit(z, Some(r.value.changes)).0, map[]);
      AllRead(z, c);
      assert u.calls - {0} == map[] && Commits(u, v, 0);
      LeadsConcat(states, s, u, [u, v], v);
      states := states + [v];
    }
  }

  lemma {:induction false} AllRead(z: ZoneMap, c: Call)
    ensures ReadAll(z, c).Some? ==> ReadAll(z, c).value.todo == []
    decreases |c.todo|
  {
    if c.todo != [] && ReadEntry(c, Listing(z, c.todo[0].name)).Some? {
      AllRead(z, ReadEntry(c, Listing(z, c.todo[0].name)).value);
    }
  }

  // ----- the invariant of all runs

  /** values has the original foreign values and at most one owner. */
  predicate KeepsValues(original: seq<string>, values: seq<string>) {
    Foreign(values) == Foreign(original) && AtMostOneOwner(values)
  }

  /** A collected change to a TXT set is harmless whenever it is committed, and names no other owner. */
  predicate HarmlessChange(original: ZoneMap, own: string, c: Change) {
    c.key.rtype == TYPE_TXT ==>
      && KeepsValues(TxtValues(original, c.key.name), c.records.values)
      && (c.action == Zone.Delete ==> Foreign(TxtValues(original, c.key.name)) == [])
      && (c.action == Zone.Upsert ==> NamesNoOther(own, c.records.values))
  }

  predicate NamesNoOther(own: string, values: seq<string>) {
    forall v :: v in values ==> !OwnedByDifferentClass(own, v)
  }

  /** A batch that changes an address changes the TXT set of its name, too. */
  predicate ChangesText(cs: seq<Change>, name: string) {
    exists c :: c in cs && c.key == Key(name, TYPE_TXT)
  }

  ghost predicate ZoneKept(original: ZoneMap, z: ZoneMap) {
    forall name :: KeepsValues(TxtValues(original, name), TxtValues(z, name))
  }

  ghost predicate ListedKept(original: ZoneMap, sets: seq<Listed>) {
    forall l :: l in sets && l.key.rtype == TYPE_TXT ==> KeepsValues(TxtValues(original, l.key.name), l.records.values)
  }

  ghost predicate CallKept(original: ZoneMap, c: Call) {
    && ValidCall(c)
    && (c.listed.Some? ==> ListedKept(original, c.listed.value))
    && forall d :: d in c.changes ==> HarmlessChange(original, c.own, d) && ChangesText(c.changes, d.key.name)
  }

  ghost predicate Invariant(original: ZoneMap, s: State) {
    ZoneKept(original, s.zone) && forall id :: id in s.calls ==> CallKept(original, s.calls[id])
  }

  // ----- what was listed at two times

  lemma {:induction false} FilteredText(e: Entry, sets: seq<Listed>)
    ensures var txt := FilteredFrom(e, sets).txt; txt.Some? ==> Listed(Key(e.name, TYPE_TXT), txt.value) in sets
  {
    if sets != [] {
      FilteredText(e, sets[..|sets| - 1]);
    }
  }

  /** Whatever the two listings saw, the values read are those of a TXT set that some state of the zone had. */
  lemma ReadValuesAreKept(original: ZoneMap, z: ZoneMap, e: Entry, sets: seq<Listed>)
    requires ZoneKept(original, z) && ListedKept(original, sets)
    ensures KeepsValues(TxtValues(original, e.name), TxtOf(FilteredFrom(e, sets + SecondListing(z, e.name))))
  {
    var second := SecondListing(z, e.name);
    FilteredConcat(e, sets, second);
    FilteredText(e, sets);
    assert KeepsValues(TxtValues(original, e.name), TxtValues(z, e.name));
    if Key(e.name, TYPE_TXT) in z {
      assert second[..0] == [];
      assert FilteredFrom(e, second).txt == Some(z[Key(e.name, TYPE_TXT)]);
    }
  }

  // ----- every step keeps the invariant

  lemma UpsertedTextIsHarmless(original: ZoneMap, own: string, f: Filtered, e: Entry)
    requires IsOwnershipRecord(own) && Valid(own, f) && KeepsValues(TxtValues(original, e.name), TxtOf(f))
    ensures HarmlessChange(original, own, TxtChangeForUpsert(own, e.name, TxtOf(f)))
  {
    EnsureKeepsValues(TxtOf(f), own);
    AcceptedOwner(TxtOf(f), own);
  }

  lemma DeletedTextIsHarmless(original: ZoneMap, own: string, f: Filtered, e: Entry)
    requires IsOwnershipRecord(own) && Valid(own, f) && KeepsValues(TxtValues(original, e.name), TxtOf(f))
    ensures HarmlessChange(original, own, TxtChangeForDelete(own, e.name, TxtOf(f)))
  {
    var values := TxtOf(f);
    RemoveOwner(values, own);
    AcceptedOwner(values, own);
    RemoveFirstMembers(own, values);
    assert RemoveFirst(own, values) == [] ==> Foreign(values) == [];
  }

  lemma {:induction false} RemoveFirstMembers(own: string, values: seq<string>)
    ensures forall v :: v in RemoveFirst(own, values) ==> v in values
  {
    if values != [] {
      RemoveFirstMembers(own, values[1..]);
    }
  }

  lemma AddressChangesAreHarmless(original: ZoneMap, own: string, target: string, action: Action, e: Entry)
    requires ValidEntry(e)
    ensures forall d :: d in AliasChanges(target, action, e.name, e.types) ==>
      HarmlessChange(original, own, d) && d.key.name == e.name
  {
  }

  lemma PlanIsHarmless(original: ZoneMap, op: Operation, own: string, target: string, f: Filtered, e: Entry)
    requires IsOwnershipRecord(own) && ValidEntry(e) && KeepsValues(TxtValues(original, e.name), TxtOf(f))
    requires EntryPlan(f, op, own, target, e).Some?
    ensures var cs := EntryPlan(f, op, own, target, e).value.changes;
      forall d :: d in cs ==> HarmlessChange(original, own, d) && d.key.name == e.name
    ensures ChangesText(EntryPlan(f, op, own, target, e).value.changes, e.name)
  {
    var plan := EntryPlan(f, op, own, target, e).value;
    AddressChangesAreHarmless(original, own, plan.target, if op.UpsertOp? then Zone.Upsert else Zone.Delete, e);
    if op.UpsertOp? {
      UpsertedTextIsHarmless(original, own, f, e);
    } else {
      DeletedTextIsHarmless(original, own, f, e);
    }
    assert plan.changes[|plan.changes| - 1] in plan.changes;
  }

  lemma ReadKeepsInvariant(original: ZoneMap, s: State, t: State, id: nat)
    requires Invariant(original, s) && Reads(s, t, id)
    ensures Invariant(original, t)
  {
    var c := s.calls[id];
    assert CallKept(original, c);
    var e := c.todo[0];
    var sets := c.listed.value + SecondListing(s.zone, e.name);
    var r := ReadEntry(c, sets);
    if r.Some? {
      ReadValuesAreKept(original, s.zone, e, c.listed.value);
      PlanIsHarmless(original, c.op, c.own, c.target, FilteredFrom(e, sets), e);
      var more := EntryPlan(FilteredFrom(e, sets), c.op, c.own, c.target, e).value.changes;
      CollectedMore(original, c.own, c.changes, more, e.name);
      assert CallKept(original, r.value);
    }
  }

  lemma CollectedMore(original: ZoneMap, own: string, cs: seq<Change>, more: seq<Change>, name: string)
    requires forall d :: d in cs ==> HarmlessChange(original, own, d) && ChangesText(cs, d.key.name)
    requires forall d :: d in more ==> HarmlessChange(original, own, d) && d.key.name == name
    requires ChangesText(more, name)
    ensures forall d :: d in cs + more ==> HarmlessChange(original, own, d) && ChangesText(cs + more, d.key.name)
  {
    forall d | d in cs + more
      ensures HarmlessChange(original, own, d) && ChangesText(cs + more, d.key.name)
    {
      TextOfEither(cs, more, d.key.name);
    }
  }

  lemma TextOfEither(cs: seq<Change>, ds: seq<Change>, name: string)
    ensures ChangesText(cs, name) || ChangesText(ds, name) ==> ChangesText(cs + ds, name)
  {
    if ChangesText(cs, name) {
      var c :| c in cs && c.key == Key(name, TYPE_TXT);
      assert c in cs + ds;
    }
    if ChangesText(ds, name) {
      var c :| c in ds && c.key == Key(name, TYPE_TXT);
      assert c in cs + ds;
    }
  }

  lemma ChangeKeepsZone(original: ZoneMap, own: string, z: ZoneMap, c: Change)
    requires ZoneKept(original, z) && HarmlessChange(original, own, c) && Apply(z, c).Some?
    ensures ZoneKept(original, Apply(z, c).value)
  {
    var after := Apply(z, c).value;
    forall name
      ensures KeepsValues(TxtValues(original, name), TxtValues(after, name))
    {
      assert KeepsValues(TxtValues(original, name), TxtValues(z, name));
      if c.key != Key(name, TYPE_TXT) {
        assert TxtValues(after, name) == TxtValues(z, name);
      }
    }
  }

  lemma {:induction false} BatchKeepsZone(original: ZoneMap, own: string, z: ZoneMap, cs: seq<Change>)
    requires ZoneKept(original, z) && forall c :: c in cs ==> HarmlessChange(original, own, c)
    requires ApplyBatch(z, cs).Some?
    ensures ZoneKept(original, ApplyBatch(z, cs).value)
  {
    if cs != [] {
      var n := |cs| - 1;
      assert cs == cs[..n] + [cs[n]];
      BatchKeepsZone(original, own, z, cs[..n]);
      ChangeKeepsZone(original, own, ApplyBatch(z, cs[..n]).value, cs[n]);
    }
  }

  lemma ListKeepsInvariant(original: ZoneMap, s: State, t: State, id: nat)
    requires Invariant(original, s) && Lists(s, t, id)
    ensures Invariant(original, t)
  {
    var name := s.calls[id].todo[0].name;
    assert CallKept(original, s.calls[id]);
    assert KeepsValues(TxtValues(original, name), TxtValues(s.zone, name));
    assert ListedKept(original, FirstListing(s.zone, name));
  }

  lemma StepKeepsInvariant(original: ZoneMap, s: State, t: State)
    requires Invariant(original, s) && Step(s, t)
    ensures Invariant(original, t)
  {
    if id, op, al :| Begins(s, t, id, op, al) {
    } else {
      var id :| Lists(s, t, id) || Reads(s, t, id) || Commits(s, t, id) || Fails(s, t, id);
      assert CallKept(original, s.calls[id]);
      if Lists(s, t, id) {
        ListKeepsInvariant(original, s, t, id);
      } else if Reads(s, t, id) {
        ReadKeepsInvariant(original, s, t, id);
      } else if Commits(s, t, id) && ApplyBatch(s.zone, s.calls[id].changes).Some? {
        BatchKeepsZone(original, s.calls[id].own, s.zone, s.calls[id].changes);
      }
    }
  }

  lemma {:induction false} RunKeepsInvariant(states: seq<State>, i: nat)
    requires Run(states) && SingleOwners(states[0].zone) && i < |states|
    ensures Invariant(states[0].zone, states[i])
    decreases i
  {
    if i > 0 {
      RunKeepsInvariant(states, i - 1);
      StepKeepsInvariant(states[0].zone, states[i - 1], states[i]);
    }
  }

  /**
   * However listings and commits of any classes interleave, every TXT set keeps at most one ownership value and
   * exactly its original foreign values, in their original order.
   */
  lemma InterleavingsKeepValues(states: seq<State>, i: nat, name: string)
    requires Run(states) && SingleOwners(states[0].zone) && i < |states|
    ensures AtMostOneOwner(TxtValues(states[i].zone, name))
    ensures Foreign(TxtValues(states[i].zone, name)) == Foreign(TxtValues(states[0].zone, name))
  {
    RunKeepsInvariant(states, i);
    assert KeepsValues(TxtValues(states[0].zone, name), TxtValues(states[i].zone, name));
  }

  // ----- when a name changes hands

  /** The batch that a call submits takes effect. */
  predicate CommitsBatch(s: State, t: State, id: nat) {
    Commits(s, t, id) && ApplyBatch(s.zone, s.calls[id].changes).Some?
  }

  lemma {:induction false} BatchDropsOthers(z: ZoneMap, cs: seq<Change>, own: string, name: string, v: string)
    requires ApplyBatch(z, cs).Some? && OwnedByDifferentClass(own, v) && ChangesText(cs, name)
    requires forall c :: c in cs && c.key.rtype == TYPE_TXT && c.action == Zone.Upsert ==>
      NamesNoOther(own, c.records.values)
    ensures v !in TxtValues(ApplyBatch(z, cs).value, name)
  {
    var n := |cs| - 1;
    assert cs == cs[..n] + [cs[n]];
    assert cs[n] in cs;
    if cs[n].key != Key(name, TYPE_TXT) {
      var c :| c in cs && c.key == Key(name, TYPE_TXT);
      assert c in cs[..n];
      BatchDropsOthers(z, cs[..n], own, name, v);
    }
  }

  /**
   * Over any run, the commit of a call takes a name from another class if and only if the call had collected a
   * change to the name's TXT set; if it had not, the commit touches no record of the name.
   */
  lemma CommitTakesOverIffCollected(states: seq<State>, i: nat, id: nat, name: string, v: string)
    requires Run(states) && SingleOwners(states[0].zone) && 0 < i < |states|
    requires CommitsBatch(states[i - 1], states[i], id)
    requires v in TxtValues(states[i - 1].zone, name) && OwnedByDifferentClass(states[i - 1].calls[id].own, v)
    ensures v !in TxtValues(states[i].zone, name) <==> ChangesText(states[i - 1].calls[id].changes, name)
    ensures v in TxtValues(states[i].zone, name) ==>
      forall t :: At(states[i].zone, Key(name, t)) == At(states[i - 1].zone, Key(name, t))
  {
    var before, c := states[i - 1].zone, states[i - 1].calls[id];
    RunKeepsInvariant(states, i - 1);
    assert CallKept(states[0].zone, c);
    if ChangesText(c.changes, name) {
      BatchDropsOthers(before, c.changes, c.own, name, v);
    } else {
      BatchKeepsName(before, c.changes, name);
    }
  }

  lemma BatchKeepsName(z: ZoneMap, cs: seq<Change>, name: string)
    requires ApplyBatch(z, cs).Some? && !ChangesText(cs, name)
    requires forall d :: d in cs ==> ChangesText(cs, d.key.name)
    ensures var after := ApplyBatch(z, cs).value;
      TxtValues(after, name) == TxtValues(z, name) && forall t :: At(after, Key(name, t)) == At(z, Key(name, t))
  {
    forall t
      ensures At(ApplyBatch(z, cs).value, Key(name, t)) == At(z, Key(name, t))
    {
      BatchFrame(z, cs, Key(name, t));
    }
    assert At(ApplyBatch(z, cs).value, Key(name, TYPE_TXT)) == At(z, Key(name, TYPE_TXT));
  }

  /**
   * There are such runs: of two classes that read a free name before either commits, the later commit takes the
   * name over, TXT value and address.
   */
  lemma StaleCommitTakesOver(z: ZoneMap, a: Aliases, b: Aliases, name: string) returns (states: seq<State>)
    requires a.entries == b.entries == [Entry(name, [TYPE_A])]
    requires IsOwnershipRecord(a.ownershipTXTValue) && IsOwnershipRecord(b.ownershipTXTValue)
    requires Key(name, TYPE_A) !in z && Key(name, TYPE_TXT) !in z
    ensures Run(states) && |states| == 9 && states[0].zone == z
    ensures At(states[7].zone, Key(name, TYPE_TXT)) == Some(TxtSet([a.ownershipTXTValue]))
    ensures At(states[7].zone, Key(name, TYPE_A)) == Some(AliasSet(a.target))
    ensures At(states[8].zone, Key(name, TYPE_TXT)) == Some(TxtSet([b.ownershipTXTValue]))
    ensures At(states[8].zone, Key(name, TYPE_A)) == Some(AliasSet(b.target))
  {
    states := BothReadFreeName(z, a, b, name);
    var ra, rb := FreeNameRead(a, name), FreeNameRead(b, name);
    var za := CommitFreeName(z, a, name);
    var zb := CommitFreeName(za, b, name);
    var s6, s7, s8 := states[6], State(za, map[1 := rb]), State(zb, map[]);
    assert Step(s6, s7) by { assert s6.calls - {0} == map[1 := rb] && Commits(s6, s7, 0); }
    assert Step(s7, s8) by { assert s7.calls - {1} == map[] && Commits(s7, s8, 1); }
    states := states + [s7, s8];
  }

  lemma BothReadFreeName(z: ZoneMap, a: Aliases, b: Aliases, name: string) returns (states: seq<State>)
    requires a.entries == b.entries == [Entry(name, [TYPE_A])]
    requires IsOwnershipRecord(a.ownershipTXTValue) && IsOwnershipRecord(b.ownershipTXTValue)
    requires Key(name, TYPE_A) !in z && Key(name, TYPE_TXT) !in z
    ensures Run(states) && |states| == 7 && states[0].zone == z
    ensures states[6] == State(z, map[0 := FreeNameRead(a, name), 1 := FreeNameRead(b, name)])
  {
    var ca, cb := Begun(UpsertOp, a), Begun(UpsertOp, b);
    var sets := FirstListing(z, name);
    var la, lb := ca.(listed := Some(sets)), cb.(listed := Some(sets));
    var ra, rb := FreeNameRead(a, name), FreeNameRead(b, name);
    ReadFreeName(z, a, name);
    ReadFreeName(z, b, name);
    var s0, s1, s2 := State(z, map[]), State(z, map[0 := ca]), State(z, map[0 := ca, 1 := cb]);
    var s3, s4 := State(z, map[0 := la, 1 := cb]), State(z, map[0 := ra, 1 := cb]);
    var s5, s6 := State(z, map[0 := ra, 1 := lb]), State(z, map[0 := ra, 1 := rb]);
    assert Begins(s0, s1, 0, UpsertOp, a) && Begins(s1, s2, 1, UpsertOp, b);
    assert Lists(s2, s3, 0) && Reads(s3, s4, 0);
    assert Lists(s4, s5, 1) && Reads(s5, s6, 1);
    states := [s0, s1, s2, s3, s4, s5, s6];
  }

  /** The call on a free name after its only read. */
  function FreeNameRead(a: Aliases, name: string): Call {
    Call(UpsertOp, a.ownershipTXTValue, a.target, [], None, FreeNameChanges(a, name))
  }

  lemma ReadFreeName(z: ZoneMap, a: Aliases, name: string)
    requires a.entries == [Entry(name, [TYPE_A])]
    requires Key(name, TYPE_A) !in z && Key(name, TYPE_TXT) !in z
    ensures ReadEntry(Begun(UpsertOp, a).(listed := Some(FirstListing(z, name))), Listing(z, name)) ==
      Some(FreeNameRead(a, name))
  {
    var own, e := a.ownershipTXTValue, a.entries[0];
    FilteredListing(z, e);
    assert Existing(z, e) == Filtered([], None);
    assert EnsureTXTValue(own, []) == [own];
    assert AliasChanges(a.target, Zone.Upsert, e.name, e.types) == [FreeNameChanges(a, name)[0]];
    assert AliasChanges(a.target, Zone.Upsert, e.name, e.types) + [TxtChangeForUpsert(own, e.name, [])] ==
      FreeNameChanges(a, name);
    assert TxtOf(Existing(z, e)) == [];
    assert [] + FreeNameChanges(a, name) == FreeNameChanges(a, name) && a.entries[1..] == [];
  }

  function FreeNameChanges(a: Aliases, name: string): seq<Change> {
    [Change(Zone.Upsert, Key(name, TYPE_A), AliasSet(a.target)),
     Change(Zone.Upsert, Key(name, TYPE_TXT), TxtSet([a.ownershipTXTValue]))]
  }

  lemma CommitFreeName(z: ZoneMap, a: Aliases, name: string) returns (after: ZoneMap)
    ensures Commit(z, Some(FreeNameChanges(a, name))).0 == after
    ensures At(after, Key(name, TYPE_TXT)) == Some(TxtSet([a.ownershipTXTValue]))
    ensures At(after, Key(name, TYPE_A)) == Some(AliasSet(a.target))
  {
    var cs := FreeNameChanges(a, name);
    UpsertsAlwaysApply(z, cs);
    BatchEffect(z, cs, cs[0]);
    BatchEffect(z, cs, cs[1]);
    after := ApplyBatch(z, cs).value;
  }
}
