/** A hosted zone as Route53 keeps it: record sets by name and type, changed by all-or-nothing batches. */
module Zone {
  import opened Model

  const TYPE_A := "A"
  const TYPE_AAAA := "AAAA"
  const TYPE_TXT := "TXT"

  datatype Routing = Simple | Weighted | GeoLocation | CidrRouting

  datatype AliasTarget = AliasTarget(dnsName: string, evaluateTargetHealth: bool, hostedZoneId: string)

  datatype RecordSet = RecordSet(aliasTarget: Option<AliasTarget>, values: seq<string>, ttl: int, routing: Routing)

  datatype Key = Key(name: string, rtype: string)

  type ZoneMap = map<Key, RecordSet>

  datatype Action = Upsert | Delete

  datatype Change = Change(action: Action, key: Key, records: RecordSet)

  /** A DELETE must match the record set exactly; an UPSERT creates or replaces. */
  function Apply(z: ZoneMap, c: Change): Option<ZoneMap> {
    match c.action
    case Upsert => Some(z[c.key := c.records])
    case Delete => if c.key in z && z[c.key] == c.records then Some(z - {c.key}) else None
  }

  /** All changes take effect, one after the other, or none does. */
  function ApplyBatch(z: ZoneMap, cs: seq<Change>): Option<ZoneMap> {
    if cs == [] then Some(z)
    else
      var n := |cs| - 1;
      var r := ApplyBatch(z, cs[..n]);
      if r.None? then None else Apply(r.value, cs[n])
  }

  function At(z: ZoneMap, k: Key): Option<RecordSet> {
    if k in z then Some(z[k]) else None
  }

  function TxtValues(z: ZoneMap, name: string): seq<string> {
    if Key(name, TYPE_TXT) in z then z[Key(name, TYPE_TXT)].values else []
  }

  lemma {:induction false} ApplyBatchConcat(z: ZoneMap, cs: seq<Change>, ds: seq<Change>)
    ensures ApplyBatch(z, cs + ds) ==
      if ApplyBatch(z, cs).None? then None else ApplyBatch(ApplyBatch(z, cs).value, ds)
    decreases |ds|
  {
    if ds == [] {
      assert cs + ds == cs;
    } else {
      var n := |ds| - 1;
      assert (cs + ds)[..|cs| + n] == cs + ds[..n];
      ApplyBatchConcat(z, cs, ds[..n]);
    }
  }

  /** A batch leaves alone every key that it does not name. */
  lemma {:induction false} BatchFrame(z: ZoneMap, cs: seq<Change>, k: Key)
    requires ApplyBatch(z, cs).Some?
    requires forall c :: c in cs ==> c.key != k
    ensures At(ApplyBatch(z, cs).value, k) == At(z, k)
  {
    if cs != [] {
      var n := |cs| - 1;
      assert cs == cs[..n] + [cs[n]];
      BatchFrame(z, cs[..n], k);
      assert cs[n].key != k;
    }
  }

  /** If all changes to a key agree, the key ends as they say; a key deleted by two of them fails the batch. */
  lemma {:induction false} BatchEffect(z: ZoneMap, cs: seq<Change>, c: Change)
    requires ApplyBatch(z, cs).Some? && c in cs
    requires forall d :: d in cs && d.key == c.key ==> d == c
    ensures At(ApplyBatch(z, cs).value, c.key) == if c.action == Upsert then Some(c.records) else None
    ensures c.action == Delete ==> At(z, c.key) == Some(c.records)
  {
    var n := |cs| - 1;
    assert cs == cs[..n] + [cs[n]];
    if c in cs[..n] {
      BatchEffect(z, cs[..n], c);
    } else {
      assert cs[n] == c;
      BatchFrame(z, cs[..n], c.key);
    }
  }

  lemma {:induction false} UpsertsAlwaysApply(z: ZoneMap, cs: seq<Change>)
    requires forall c :: c in cs ==> c.action == Upsert
    ensures ApplyBatch(z, cs).Some?
  {
    if cs != [] {
      var n := |cs| - 1;
      assert cs == cs[..n] + [cs[n]];
      UpsertsAlwaysApply(z, cs[..n]);
    }
  }

  lemma SameAtSameZone(y: ZoneMap, z: ZoneMap)
    requires forall k :: At(y, k) == At(z, k)
    ensures y == z
  {
    assert forall k :: k in y <==> At(y, k).Some?;
    assert forall k :: k in z <==> At(z, k).Some?;
    assert forall k :: k in y <==> k in z;
    forall k | k in y
      ensures y[k] == z[k]
    {
      assert At(y, k) == At(z, k);
    }
  }
}
