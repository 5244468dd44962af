/** Route53 aliases of a distribution: internal/route53/alias.go and internal/route53/repository.go. */
module AliasRepository {
  import opened GoStrings
  import opened Model
  import opened Zone

  const TXT_OWNER_KEY := "cdn-origin-controller/owner"
  const CF_HOSTED_ZONE_ID := "Z2FDTNDATAQYW2"
  const TXT_TTL := 300

  datatype Entry = Entry(name: string, types: seq<string>)

  datatype Aliases = Aliases(target: string, ownershipTXTValue: string, entries: seq<Entry>)

  // ----- alias.go

  function NormalizeDomain(domain: string): string
  {
    if !HasSuffix(domain, ".") then domain + "." else domain
  }

  function NormalizedDomains(domains: seq<string>): (ds: seq<string>)
    ensures |ds| == |domains| && forall k :: 0 <= k < |ds| ==> ds[k] == NormalizeDomain(domains[k])
  {
    seq(|domains|, k requires 0 <= k < |domains| => NormalizeDomain(domains[k]))
  }

  method NormalizeDomains(domains: seq<string>) returns (result: seq<string>)
    ensures result == NormalizedDomains(domains)
  {
    result := [];
    for k := 0 to |domains|
      invariant |result| == k && forall j :: 0 <= j < k ==> result[j] == NormalizeDomain(domains[j])
    {
      result := result + [NormalizeDomain(domains[k])];
    }
    SameElements(result, NormalizedDomains(domains));
  }

  function OwnershipValue(txtOwnerValue: string): string {
    "\"" + TXT_OWNER_KEY + "=" + txtOwnerValue + "\""
  }

  function AddressTypes(ipv6Enabled: bool): seq<string> {
    if ipv6Enabled then [TYPE_A, TYPE_AAAA] else [TYPE_A]
  }

  function EntriesFor(domains: seq<string>, types: seq<string>): (es: seq<Entry>)
    ensures |es| == |domains|
    ensures forall k :: 0 <= k < |domains| ==> es[k] == Entry(NormalizeDomain(domains[k]), types)
  {
    seq(|domains|, k requires 0 <= k < |domains| => Entry(NormalizeDomain(domains[k]), types))
  }

  function AliasesFor(target: string, txtOwnerValue: string, domains: seq<string>, ipv6Enabled: bool): Aliases {
    Aliases(target, OwnershipValue(txtOwnerValue), EntriesFor(domains, AddressTypes(ipv6Enabled)))
  }

  method NewAliases(
    target: string, txtOwnerValue: string, domains: seq<string>, ipv6Enabled: bool)
    returns (al: Aliases)
    ensures al == AliasesFor(target, txtOwnerValue, domains, ipv6Enabled)
  {
    var types := [TYPE_A];
    if ipv6Enabled {
      types := types + [TYPE_AAAA];
    }
    assert types == AddressTypes(ipv6Enabled);
    var entries := [];
    for k := 0 to |domains|
      invariant |entries| == k && forall j :: 0 <= j < k ==> entries[j] == Entry(NormalizeDomain(domains[j]), types)
    {
      entries := entries + [Entry(NormalizeDomain(domains[k]), types)];
    }
    SameElements(entries, EntriesFor(domains, types));
    return Aliases(target, OwnershipValue(txtOwnerValue), entries);
  }

  function DomainsOf(al: Aliases): (ds: seq<string>)
    ensures |ds| == |al.entries| && forall k :: 0 <= k < |ds| ==> ds[k] == al.entries[k].name
  {
    seq(|al.entries|, k requires 0 <= k < |al.entries| => al.entries[k].name)
  }

  // ----- reading and validating

  datatype Listed = Listed(key: Key, records: RecordSet)

  function ListType(z: ZoneMap, name: string, rtype: string): seq<Listed> {
    if Key(name, rtype) in z then [Listed(Key(name, rtype), z[Key(name, rtype)])] else []
  }

  /** The record sets of a name in the order of their types. */
  function FirstListing(z: ZoneMap, name: string): seq<Listed> {
    ListType(z, name, TYPE_A) + ListType(z, name, TYPE_AAAA) + ListType(z, name, TYPE_TXT)
  }

  /** The TXT set of the name once more. */
  function SecondListing(z: ZoneMap, name: string): seq<Listed> {
    ListType(z, name, TYPE_TXT)
  }

  function Listing(z: ZoneMap, name: string): seq<Listed> {
    FirstListing(z, name) + SecondListing(z, name)
  }

  datatype Filtered = Filtered(addresses: seq<RecordSet>, txt: Option<RecordSet>)

  function AddressOf(z: ZoneMap, e: Entry, rtype: string): seq<RecordSet> {
    if rtype in e.types && Key(e.name, rtype) in z then [z[Key(e.name, rtype)]] else []
  }

  function Existing(z: ZoneMap, e: Entry): Filtered {
    Filtered(AddressOf(z, e, TYPE_A) + AddressOf(z, e, TYPE_AAAA), At(z, Key(e.name, TYPE_TXT)))
  }

  /** Entries ask for address types only. */
  predicate ValidEntry(e: Entry) {
    e.types == [TYPE_A] || e.types == [TYPE_A, TYPE_AAAA]
  }

  predicate ValidEntries(es: seq<Entry>) {
    forall e :: e in es ==> ValidEntry(e)
  }

  method FilterRecordSets(e: Entry, sets: seq<Listed>) returns (f: Filtered)
    ensures f == FilteredFrom(e, sets)
  {
    f := Filtered([], None);
    for k := 0 to |sets|
      invariant f == FilteredFrom(e, sets[..k])
    {
      var rs := sets[k];
      if e.name == rs.key.name {
        if rs.key.rtype in e.types {
          f := f.(addresses := f.addresses + [rs.records]);
        }
        if rs.key.rtype == TYPE_TXT {
          f := f.(txt := Some(rs.records));
        }
      }
      assert sets[..k + 1][..k] == sets[..k];
    }
    assert sets[..|sets|] == sets;
  }

  function FilteredFrom(e: Entry, sets: seq<Listed>): Filtered {
    if sets == [] then Filtered([], None)
    else
      var n := |sets| - 1;
      var f := FilteredFrom(e, sets[..n]);
      if sets[n].key.name != e.name then f
      else Filtered(
        f.addresses + (if sets[n].key.rtype in e.types then [sets[n].records] else []),
        if sets[n].key.rtype == TYPE_TXT then Some(sets[n].records) else f.txt)
  }

  lemma {:induction false} FilteredConcat(e: Entry, s: seq<Listed>, t: seq<Listed>)
    ensures FilteredFrom(e, s + t) == Filtered(
      FilteredFrom(e, s).addresses + FilteredFrom(e, t).addresses,
      if FilteredFrom(e, t).txt.Some? then FilteredFrom(e, t).txt else FilteredFrom(e, s).txt)
    decreases |t|
  {
    if t == [] {
      assert s + t == s;
    } else {
      var n := |t| - 1;
      assert (s + t)[..|s| + n] == s + t[..n];
      FilteredConcat(e, s, t[..n]);
    }
  }

  lemma FilteredType(z: ZoneMap, e: Entry, rtype: string)
    ensures FilteredFrom(e, ListType(z, e.name, rtype)) ==
      Filtered(AddressOf(z, e, rtype), if rtype == TYPE_TXT then At(z, Key(e.name, TYPE_TXT)) else None)
  {
    var sets := ListType(z, e.name, rtype);
    if sets != [] {
      assert sets[..0] == [];
    }
  }

  lemma FilteredListing(z: ZoneMap, e: Entry)
    requires ValidEntry(e)
    ensures FilteredFrom(e, Listing(z, e.name)) == Existing(z, e)
  {
    var a, b, c := ListType(z, e.name, TYPE_A), ListType(z, e.name, TYPE_AAAA), ListType(z, e.name, TYPE_TXT);
    FilteredType(z, e, TYPE_A);
    FilteredType(z, e, TYPE_AAAA);
    FilteredType(z, e, TYPE_TXT);
    assert TYPE_TXT !in e.types;
    FilteredConcat(e, a, b);
    FilteredConcat(e, a + b, c);
    FilteredConcat(e, a + b + c, c);
  }

  predicate IsOwnershipRecord(value: string) {
    Contains(value, TXT_OWNER_KEY)
  }

  predicate OwnedByDifferentClass(own: string, value: string) {
    value != own && IsOwnershipRecord(value)
  }

  predicate ContainsOwnershipRecord(values: seq<string>) {
    exists v :: v in values && IsOwnershipRecord(v)
  }

  predicate SimpleRouting(f: Filtered) {
    (forall rs :: rs in f.addresses ==> rs.routing.Simple?) && (f.txt.Some? ==> f.txt.value.routing.Simple?)
  }

  /** The first value that is this class's, or an ownership record at all, decides. */
  predicate OwnershipAccepted(own: string, values: seq<string>) {
    if values == [] || values[0] == own then true
    else if OwnedByDifferentClass(own, values[0]) then false
    else OwnershipAccepted(own, values[1..])
  }

  predicate Valid(own: string, f: Filtered) {
    && SimpleRouting(f)
    && if f.txt.None? || !ContainsOwnershipRecord(f.txt.value.values) then f.addresses == []
       else OwnershipAccepted(own, f.txt.value.values)
  }

  method ValidateOwnership(own: string, values: seq<string>) returns (ok: bool)
    ensures ok == OwnershipAccepted(own, values)
  {
    for k := 0 to |values|
      invariant OwnershipAccepted(own, values) == OwnershipAccepted(own, values[k..])
    {
      assert values[k..][1..] == values[k + 1..];
      if values[k] == own {
        return true;
      }
      if OwnedByDifferentClass(own, values[k]) {
        return false;
      }
    }
    return true;
  }

  method ValidateRecordSets(own: string, f: Filtered) returns (ok: bool)
    ensures ok == Valid(own, f)
  {
    for k := 0 to |f.addresses|
      invariant forall i :: 0 <= i < k ==> f.addresses[i].routing.Simple?
    {
      if !f.addresses[k].routing.Simple? {
        return false;
      }
    }
    if f.txt.Some? && !f.txt.value.routing.Simple? {
      return false;
    }
    if f.txt.None? || !ContainsOwnershipRecord(f.txt.value.values) {
      return |f.addresses| == 0;
    }
    ok := ValidateOwnership(own, f.txt.value.values);
  }

  // ----- changes

  function AliasSet(target: string): RecordSet {
    RecordSet(Some(AliasTarget(target, false, CF_HOSTED_ZONE_ID)), [], 0, Simple)
  }

  function TxtSet(values: seq<string>): RecordSet {
    RecordSet(None, values, TXT_TTL, Simple)
  }

  function AliasChanges(target: string, action: Action, name: string, types: seq<string>): (cs: seq<Change>)
    ensures |cs| == |types|
    ensures forall k :: 0 <= k < |types| ==> cs[k] == Change(action, Key(name, types[k]), AliasSet(target))
  {
    seq(|types|, k requires 0 <= k < |types| => Change(action, Key(name, types[k]), AliasSet(target)))
  }

  method NewAliasChanges(target: string, action: Action, e: Entry) returns (cs: seq<Change>)
    ensures cs == AliasChanges(target, action, e.name, e.types)
  {
    cs := [];
    for k := 0 to |e.types|
      invariant cs == AliasChanges(target, action, e.name, e.types[..k])
    {
      cs := cs + [Change(action, Key(e.name, e.types[k]), AliasSet(target))];
    }
    assert e.types[..|e.types|] == e.types;
  }

  function EnsureTXTValue(own: string, values: seq<string>): seq<string> {
    if own in values then values else values + [own]
  }

  function RemoveFirst(own: string, values: seq<string>): seq<string> {
    if values == [] then []
    else if values[0] == own then values[1..]
    else [values[0]] + RemoveFirst(own, values[1..])
  }

  /** Shifts the values after the first occurrence of `own` to the left, in place; returns the new length. */
  method RemoveOwnershipRecord(own: string, records: array<string>) returns (n: nat)
    modifies records
    ensures n <= records.Length && records[..n] == RemoveFirst(own, old(records[..]))
    ensures n == 0 ==> records[..] == old(records[..])
  {
    ghost var values := records[..];
    for i := 0 to records.Length
      invariant records[..] == values
      invariant own !in values[..i]
    {
      if records[i] == own {
        RemoveFirstAt(own, values, i);
        for k := i + 1 to records.Length
          invariant records[..k - 1] == values[..i] + values[i + 1..k]
          invariant records[k..] == values[k..]
          invariant k == i + 1 ==> records[..] == values
        {
          records[k - 1] := records[k];
        }
        return records.Length - 1;
      }
    }
    RemoveFirstAbsent(own, values);
    return records.Length;
  }

  lemma {:induction false} RemoveFirstAt(own: string, values: seq<string>, i: nat)
    requires i < |values| && values[i] == own && own !in values[..i]
    ensures RemoveFirst(own, values) == values[..i] + values[i + 1..]
  {
    if i > 0 {
      assert own !in values[1..][..i - 1];
      RemoveFirstAt(own, values[1..], i - 1);
    }
  }

  lemma {:induction false} RemoveFirstAbsent(own: string, values: seq<string>)
    requires own !in values
    ensures RemoveFirst(own, values) == values
  {
    if values != [] {
      RemoveFirstAbsent(own, values[1..]);
    }
  }

  function TxtChangeForUpsert(own: string, name: string, values: seq<string>): Change {
    Change(Upsert, Key(name, TYPE_TXT), TxtSet(EnsureTXTValue(own, values)))
  }

  /** What is left after removing the own value is written back; if nothing is left the set is deleted as it is. */
  function TxtChangeForDelete(own: string, name: string, values: seq<string>): Change {
    var left := RemoveFirst(own, values);
    if left == [] then Change(Delete, Key(name, TYPE_TXT), TxtSet(values))
    else Change(Upsert, Key(name, TYPE_TXT), TxtSet(left))
  }

  method NewTXTChangeForDelete(own: string, name: string, existing: array<string>) returns (c: Change)
    modifies existing
    ensures c == TxtChangeForDelete(own, name, old(existing[..]))
  {
    var action := Upsert;
    var n := RemoveOwnershipRecord(own, existing);
    var records := existing[..n];
    if |records| == 0 {
      action := Delete;
      records := existing[..];
    }
    return Change(action, Key(name, TYPE_TXT), TxtSet(records));
  }

  // ----- one call

  function UpsertChanges(z: ZoneMap, target: string, own: string, e: Entry): seq<Change> {
    AliasChanges(target, Upsert, e.name, e.types) + [TxtChangeForUpsert(own, e.name, TxtValues(z, e.name))]
  }

  function PlanUpsert(z: ZoneMap, target: string, own: string, es: seq<Entry>): Option<seq<Change>> {
    if es == [] then Some([])
    else
      var n := |es| - 1;
      var before := PlanUpsert(z, target, own, es[..n]);
      if before.None? || !Valid(own, Existing(z, es[n])) then None
      else Some(before.value + UpsertChanges(z, target, own, es[n]))
  }

  /** The target to delete: where the first existing address record points, or else the last known target. */
  function DeleteTarget(z: ZoneMap, target: string, e: Entry): Option<string> {
    var addresses := Existing(z, e).addresses;
    if addresses == [] then Some(target)
    else if addresses[0].aliasTarget.None? then None
    else Some(addresses[0].aliasTarget.value.dnsName)
  }

  function DeleteChanges(z: ZoneMap, target: string, own: string, e: Entry): seq<Change> {
    AliasChanges(target, Delete, e.name, e.types) + [TxtChangeForDelete(own, e.name, TxtValues(z, e.name))]
  }

  predicate Deletable(z: ZoneMap, own: string, e: Entry) {
    Valid(own, Existing(z, e)) && Existing(z, e).txt.Some?
  }

  datatype DeletePlan = DeletePlan(target: string, changes: seq<Change>)

  /** The changes that delete one entry; None if validation stops the call, or there is no TXT set. */
  function DeletionOf(z: ZoneMap, target: string, own: string, e: Entry): Option<DeletePlan> {
    var t := DeleteTarget(z, target, e);
    if !Deletable(z, own, e) || t.None? then None else Some(DeletePlan(t.value, DeleteChanges(z, t.value, own, e)))
  }

  function PlanDelete(z: ZoneMap, target: string, own: string, es: seq<Entry>): Option<DeletePlan> {
    if es == [] then Some(DeletePlan(target, []))
    else
      var n := |es| - 1;
      var before := PlanDelete(z, target, own, es[..n]);
      if before.None? then None
      else
        var one := DeletionOf(z, before.value.target, own, es[n]);
        if one.None? then None
        else Some(DeletePlan(one.value.target, before.value.changes + one.value.changes))
  }

  /** Which remote calls of one invocation fail: the listing for the entry with that number, or the submission. */
  datatype Faults = Faults(listing: nat, submission: bool) {
    predicate Hit(entries: nat) {
      submission || listing < entries
    }
  }

  function Commit(z: ZoneMap, plan: Option<seq<Change>>): (ZoneMap, bool) {
    if plan.None? || ApplyBatch(z, plan.value).None? then (z, false)
    else (ApplyBatch(z, plan.value).value, true)
  }

  function UpsertOutcome(z: ZoneMap, al: Aliases, f: Faults): (ZoneMap, bool) {
    if al.entries == [] then (z, true)
    else if f.Hit(|al.entries|) then (z, false)
    else Commit(z, PlanUpsert(z, al.target, al.ownershipTXTValue, al.entries))
  }

  function DeleteOutcome(z: ZoneMap, al: Aliases, f: Faults): (ZoneMap, bool) {
    if al.entries == [] then (z, true)
    else if f.Hit(|al.entries|) then (z, false)
    else
      var plan := PlanDelete(z, al.target, al.ownershipTXTValue, al.entries);
      Commit(z, if plan.None? then None else Some(plan.value.changes))
  }

  class Repository {
    /** The hosted zone, which lives at Route53. */
    var zone: ZoneMap

    constructor (zone: ZoneMap)
      ensures this.zone == zone
    {
      this.zone := zone;
    }

    method ExistingRecordSets(own: string, e: Entry, fails: bool) returns (r: Option<Filtered>)
      requires ValidEntry(e)
      ensures r == if fails || !Valid(own, Existing(zone, e)) then None else Some(Existing(zone, e))
    {
      if fails {
        return None;
      }
      var f := FilterRecordSets(e, Listing(zone, e.name));
      FilteredListing(zone, e);
      var ok := ValidateRecordSets(own, f);
      if !ok {
        return None;
      }
      return Some(f);
    }

    method RequestChanges(changes: seq<Change>, fails: bool) returns (ok: bool)
      modifies this
      ensures (zone, ok) == if fails then (old(zone), false) else Commit(old(zone), Some(changes))
    {
      if fails {
        return false;
      }
      var applied := ApplyBatch(zone, changes);
      if applied.None? {
        return false;
      }
      zone := applied.value;
      return true;
    }

    method Upsert(al: Aliases, f: Faults) returns (ok: bool)
      requires ValidEntries(al.entries)
      modifies this
      ensures (zone, ok) == UpsertOutcome(old(zone), al, f)
    {
      if |al.entries| == 0 {
        return true;
      }
      var own := al.ownershipTXTValue;
      var changes := [];
      for k := 0 to |al.entries|
        invariant zone == old(zone)
        invariant k <= f.listing
        invariant PlanUpsert(zone, al.target, own, al.entries[..k]) == Some(changes)
      {
        var e := al.entries[k];
        UpsertPrefixFails(zone, al.target, own, al.entries, k);
        assert al.entries[..k + 1][..k] == al.entries[..k];
        var existing := ExistingRecordSets(own, e, f.listing == k);
        if existing.None? {
          return false;
        }
        var values := if existing.value.txt.Some? then existing.value.txt.value.values else [];
        var aliasChanges := NewAliasChanges(al.target, Zone.Upsert, e);
        changes := changes + (aliasChanges + [TxtChangeForUpsert(own, e.name, values)]);
      }
      assert al.entries[..|al.entries|] == al.entries;
      ok := RequestChanges(changes, f.submission);
    }

    /** What deleting one entry takes, and the target to go on with. */
    method EntryDeletion(own: string, target: string, e: Entry, fails: bool) returns (r: Option<DeletePlan>)
      requires ValidEntry(e)
      ensures r == if fails then None else DeletionOf(zone, target, own, e)
    {
      var existing := ExistingRecordSets(own, e, fails);
      if existing.None? {
        return None;
      }
      if existing.value.txt.None? {
        return None;
      }
      var t := target;
      if |existing.value.addresses| > 0 {
        // dereferencing the alias target of a record that is none stops the call
        if existing.value.addresses[0].aliasTarget.None? {
          return None;
        }
        t := existing.value.addresses[0].aliasTarget.value.dnsName;
      }
      var aliasChanges := NewAliasChanges(t, Zone.Delete, e);
      var values := existing.value.txt.value.values;
      var records := new string[|values|](i requires 0 <= i < |values| => values[i]);
      assert records[..] == values;
      var txtChange := NewTXTChangeForDelete(own, e.name, records);
      return Some(DeletePlan(t, aliasChanges + [txtChange]));
    }

    method Delete(al: Aliases, f: Faults) returns (ok: bool)
      requires ValidEntries(al.entries)
      modifies this
      ensures (zone, ok) == DeleteOutcome(old(zone), al, f)
    {
      if |al.entries| == 0 {
        return true;
      }
      var own := al.ownershipTXTValue;
      var target := al.target;
      var changes := [];
      for k := 0 to |al.entries|
        invariant zone == old(zone)
        invariant k <= f.listing
        invariant PlanDelete(zone, al.target, own, al.entries[..k]) == Some(DeletePlan(target, changes))
      {
        DeletePrefixFails(zone, al.target, own, al.entries, k);
        PlanOneMore(zone, al.target, own, al.entries, k);
        var one := EntryDeletion(own, target, al.entries[k], f.listing == k);
        if one.None? {
          return false;
        }
        target := one.value.target;
        changes := changes + one.value.changes;
      }
      assert al.entries[..|al.entries|] == al.entries;
      ok := RequestChanges(changes, f.submission);
    }
  }

  lemma {:induction false} UpsertPrefixFails(z: ZoneMap, target: string, own: string, es: seq<Entry>, k: nat)
    requires k < |es|
    ensures PlanUpsert(z, target, own, es[..k + 1]).None? ==> PlanUpsert(z, target, own, es).None?
    decreases |es|
  {
    var n := |es| - 1;
    if k < n {
      assert es[..n][..k + 1] == es[..k + 1];
      UpsertPrefixFails(z, target, own, es[..n], k);
    } else {
      assert es[..k + 1] == es;
    }
  }

  lemma PlanUpsertOneMore(z: ZoneMap, target: string, own: string, es: seq<Entry>, k: nat)
    requires k < |es|
    ensures var before := PlanUpsert(z, target, own, es[..k]);
      PlanUpsert(z, target, own, es[..k + 1]) ==
        if before.None? || !Valid(own, Existing(z, es[k])) then None
        else Some(before.value + UpsertChanges(z, target, own, es[k]))
  {
    assert es[..k + 1][..k] == es[..k];
  }

  lemma PlanOneMore(z: ZoneMap, target: string, own: string, es: seq<Entry>, k: nat)
    requires k < |es| && PlanDelete(z, target, own, es[..k]).Some?
    ensures var before := PlanDelete(z, target, own, es[..k]).value;
      var one := DeletionOf(z, before.target, own, es[k]);
      PlanDelete(z, target, own, es[..k + 1]) ==
        if one.None? then None else Some(DeletePlan(one.value.target, before.changes + one.value.changes))
  {
    assert es[..k + 1][..k] == es[..k];
  }

  lemma {:induction false} DeletePrefixFails(z: ZoneMap, target: string, own: string, es: seq<Entry>, k: nat)
    requires k < |es|
    ensures PlanDelete(z, target, own, es[..k + 1]).None? ==> PlanDelete(z, target, own, es).None?
    decreases |es|
  {
    var n := |es| - 1;
    if k < n {
      assert es[..n][..k + 1] == es[..k + 1];
      DeletePrefixFails(z, target, own, es[..n], k);
    } else {
      assert es[..k + 1] == es;
    }
  }
}
