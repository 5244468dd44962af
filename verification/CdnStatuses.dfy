/** The bookkeeping resource of a group: api/v1alpha1/cdnstatus_types.go. */
module CdnStatuses {
  import opened Model

  const FAILED_INGRESS_STATUS := "Failed"
  const SYNCED_INGRESS_STATUS := "Synced"

  datatype DNSStatus = DNSStatus(records: seq<string>, synced: bool)

  datatype Status = Status(
    id: string,
    arn: string,
    address: string,
    aliases: seq<string>,
    ingresses: map<string, string>,
    dns: Option<DNSStatus>)

  const NEW_STATUS := Status("", "", "", [], map[], None)

  function Records(dns: Option<DNSStatus>): seq<string> {
    if dns.Some? then dns.value.records else []
  }

  /** The names that the controller keeps track of. */
  function Tracked(dns: Option<DNSStatus>): set<string> {
    set r | r in Records(dns)
  }

  function Elements(names: seq<string>): set<string> {
    set n | n in names
  }

  function AddMissing(records: seq<string>, more: seq<string>): seq<string> {
    if more == [] then records
    else
      var n := |more| - 1;
      var rs := AddMissing(records, more[..n]);
      if more[n] in rs then rs else rs + [more[n]]
  }

  function Without(records: seq<string>, name: string): seq<string> {
    if records == [] then []
    else
      var n := |records| - 1;
      Without(records[..n], name) + if records[n] != name then [records[n]] else []
  }

  function WithoutAll(records: seq<string>, names: seq<string>): seq<string> {
    if names == [] then records
    else
      var n := |names| - 1;
      Without(WithoutAll(records, names[..n]), names[n])
  }

  function WithDNSRecords(dns: Option<DNSStatus>, records: seq<string>): Option<DNSStatus> {
    if records == [] then dns
    else if dns.None? then Some(DNSStatus(records, true))
    else Some(dns.value.(records := AddMissing(dns.value.records, records)))
  }

  function WithoutDNSRecords(dns: Option<DNSStatus>, records: seq<string>): Option<DNSStatus> {
    if dns.None? then None
    else
      var left := WithoutAll(dns.value.records, records);
      if left == [] then None else Some(dns.value.(records := left))
  }

  function WithDNSSync(dns: Option<DNSStatus>, synced: bool): Option<DNSStatus> {
    if dns.None? then Some(DNSStatus([], synced)) else Some(dns.value.(synced := synced))
  }

  function StatusText(inSync: bool): string {
    if inSync then SYNCED_INGRESS_STATUS else FAILED_INGRESS_STATUS
  }

  class CDNStatus {
    var id: string
    var arn: string
    var address: string
    var aliases: seq<string>
    var ingresses: map<string, string>
    var dns: Option<DNSStatus>

    function Value(): Status
      reads this
    {
      Status(id, arn, address, aliases, ingresses, dns)
    }

    constructor (s: Status)
      ensures Value() == s
    {
      id, arn, address, aliases, ingresses, dns := s.id, s.arn, s.address, s.aliases, s.ingresses, s.dns;
    }

    method SetAliases(aliases: seq<string>)
      modifies this
      ensures Value() == old(Value()).(aliases := aliases)
    {
      this.aliases := aliases;
    }

    method SetInfo(id: string, arn: string, address: string)
      modifies this
      ensures Value() == old(Value()).(id := id, arn := arn, address := address)
    {
      this.id, this.arn, this.address := id, arn, address;
    }

    method SetIngressRef(inSync: bool, ref: string)
      modifies this
      ensures Value() == old(Value()).(ingresses := old(ingresses)[ref := StatusText(inSync)])
    {
      var status := SYNCED_INGRESS_STATUS;
      if !inSync {
        status := FAILED_INGRESS_STATUS;
      }
      ingresses := ingresses[ref := status];
    }

    method RemoveIngressRef(ref: string)
      modifies this
      ensures Value() == old(Value()).(ingresses := old(ingresses) - {ref})
    {
      ingresses := ingresses - {ref};
    }

    method UpsertDNSRecords(records: seq<string>)
      modifies this
      ensures Value() == old(Value()).(dns := WithDNSRecords(old(dns), records))
      ensures Tracked(dns) == old(Tracked(dns)) + Elements(records)
    {
      TrackedAfterUpsert(dns, records);
      if |records| == 0 {
        return;
      }
      if dns.None? {
        dns := Some(DNSStatus(records, true));
        return;
      }
      for k := 0 to |records|
        invariant dns.Some? && Value() == old(Value()).(dns := dns)
        invariant dns == Some(old(dns).value.(records := AddMissing(old(dns).value.records, records[..k])))
      {
        if records[k] !in dns.value.records {
          dns := Some(dns.value.(records := dns.value.records + [records[k]]));
        }
        assert records[..k + 1][..k] == records[..k];
      }
      assert records[..|records|] == records;
    }

    method RemoveDNSRecords(records: seq<string>)
      modifies this
      ensures Value() == old(Value()).(dns := WithoutDNSRecords(old(dns), records))
      ensures Tracked(dns) == old(Tracked(dns)) - Elements(records)
    {
      TrackedAfterRemoval(dns, records);
      if dns.None? {
        return;
      }
      for k := 0 to |records|
        invariant dns.Some? && Value() == old(Value()).(dns := dns)
        invariant dns == Some(old(dns).value.(records := WithoutAll(old(dns).value.records, records[..k])))
      {
        var kept := Filter(dns.value.records, records[k]);
        dns := Some(dns.value.(records := kept));
        assert records[..k + 1][..k] == records[..k];
      }
      assert records[..|records|] == records;
      if |dns.value.records| == 0 {
        dns := None;
      }
    }

    method SetDNSSync(synced: bool)
      modifies this
      ensures Value() == old(Value()).(dns := WithDNSSync(old(dns), synced))
    {
      if dns.None? {
        dns := Some(DNSStatus([], false));
      }
      dns := Some(dns.value.(synced := synced));
    }
  }

  /** `strhelper.Filter` with the predicate that keeps all but one name. */
  method Filter(s: seq<string>, name: string) returns (filtered: seq<string>)
    ensures filtered == Without(s, name)
  {
    filtered := [];
    for k := 0 to |s|
      invariant filtered == Without(s[..k], name)
    {
      if s[k] != name {
        filtered := filtered + [s[k]];
      }
      assert s[..k + 1][..k] == s[..k];
    }
    assert s[..|s|] == s;
  }

  // ----- what the bookkeeping keeps track of

  lemma {:induction false} AddMissingMembers(records: seq<string>, more: seq<string>, x: string)
    ensures x in AddMissing(records, more) <==> x in records || x in more
  {
    if more != [] {
      var n := |more| - 1;
      AddMissingMembers(records, more[..n], x);
      AddMissingMembers(records, more[..n], more[n]);
      LastMember(more, x);
    }
  }

  lemma {:induction false} WithoutMembers(records: seq<string>, name: string, x: string)
    ensures x in Without(records, name) <==> x in records && x != name
  {
    if records != [] {
      var n := |records| - 1;
      WithoutMembers(records[..n], name, x);
      LastMember(records, x);
    }
  }

  lemma {:induction false} WithoutAllMembers(records: seq<string>, names: seq<string>, x: string)
    ensures x in WithoutAll(records, names) <==> x in records && x !in names
  {
    if names != [] {
      var n := |names| - 1;
      WithoutAllMembers(records, names[..n], x);
      WithoutMembers(WithoutAll(records, names[..n]), names[n], x);
      LastMember(names, x);
    }
  }

  lemma TrackedAfterUpsert(dns: Option<DNSStatus>, records: seq<string>)
    ensures Tracked(WithDNSRecords(dns, records)) == Tracked(dns) + Elements(records)
  {
    forall x
      ensures x in Records(WithDNSRecords(dns, records)) <==> x in Records(dns) || x in records
    {
      AddMissingMembers(Records(dns), records, x);
    }
  }

  /** Records that are there keep their place, and new ones come in the order in which they are added. */
  lemma {:induction false} AddMissingOrder(records: seq<string>, more: seq<string>, rest: seq<string>)
    ensures records <= AddMissing(records, more)
    ensures AddMissing(records, more + rest) == AddMissing(AddMissing(records, more), rest)
    decreases |more| + |rest|
  {
    if rest != [] {
      var n := |rest| - 1;
      assert (more + rest)[..|more| + n] == more + rest[..n];
      AddMissingOrder(records, more, rest[..n]);
    } else {
      assert more + rest == more;
      if more != [] {
        AddMissingOrder(records, more[..|more| - 1], []);
      }
    }
  }

  /** The records that stay keep their order, whatever is taken out of either part. */
  lemma {:induction false} WithoutAllOrder(records: seq<string>, rest: seq<string>, names: seq<string>)
    ensures WithoutAll(records + rest, names) == WithoutAll(records, names) + WithoutAll(rest, names)
  {
    if names != [] {
      var n := |names| - 1;
      WithoutAllOrder(records, rest, names[..n]);
      WithoutOrder(WithoutAll(records, names[..n]), WithoutAll(rest, names[..n]), names[n]);
    }
  }

  lemma {:induction false} WithoutOrder(records: seq<string>, rest: seq<string>, name: string)
    ensures Without(records + rest, name) == Without(records, name) + Without(rest, name)
    decreases |rest|
  {
    if rest == [] {
      assert records + rest == records;
    } else {
      var n := |rest| - 1;
      assert (records + rest)[..|records| + n] == records + rest[..n];
      WithoutOrder(records, rest[..n], name);
    }
  }

  lemma TrackedAfterRemoval(dns: Option<DNSStatus>, records: seq<string>)
    ensures Tracked(WithoutDNSRecords(dns, records)) == Tracked(dns) - Elements(records)
  {
    forall x
      ensures x in Records(WithoutDNSRecords(dns, records)) <==> x in Records(dns) && x !in records
    {
      WithoutAllMembers(Records(dns), records, x);
    }
  }
}
