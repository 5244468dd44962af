/** What a synchronisation keeps about origin access controls. */
module AccessControlSafety {
  import opened Model
  import opened SharedParams
  import opened OriginAccess
  import opened Compiler
  import opened DistRepository

  // ----- hypotheses: what CloudFront guarantees, and what the builders produce

  predicate DistinctOACs(oacs: seq<OACRecord>) {
    && (forall i, j :: 0 <= i < j < |oacs| ==> oacs[i].id != oacs[j].id && oacs[i].name != oacs[j].name)
    && forall r :: r in oacs ==> r.id != "" && r.name != ""
  }

  /** New ids are new: not in use yet, and different from each other. */
  ghost predicate FreshIds(oacs: seq<OACRecord>, ids: IdSource) {
    && (forall k: nat :: ids(k) != "")
    && (forall k: nat, r :: r in oacs ==> r.id != ids(k))
    && (forall k: nat, l: nat :: k != l ==> ids(k) != ids(l))
  }

  function Name(shortId: ShortId, d: Distribution, host: string): string {
    OacName(shortId, d.group, host)
  }

  /** Bucket origins have the access control of their host, hosts differ, and the default origin is no bucket. */
  predicate WellBuilt(d: Distribution, shortId: ShortId) {
    && DistinctHosts(d.customOrigins)
    && (forall o :: o in d.customOrigins && o.IsBucketBased() ==>
        o.oac == NewOAC(shortId, d.group, o.host) && o.oac.name != "" && o.host != d.defaultOrigin.host)
    && (forall o :: o in d.customOrigins ==> o.access == ACCESS_PUBLIC || o.IsBucketBased())
    && d.defaultOrigin.access == ACCESS_PUBLIC
  }

  /** Each observed origin that has an access control has the one named after it. */
  predicate ObservedOwn(c: Cloud, d: Distribution, shortId: ShortId)
    requires Present(c, d)
  {
    forall o :: o in c.dists[d.group].config.origins && HasOAC(o) ==>
      OACRecord(o.accessControlId.value, Name(shortId, d, o.id)) in c.oacs
  }

  predicate IsDesiredBucket(d: Distribution, host: string) {
    exists o :: o in d.customOrigins && o.IsBucketBased() && o.host == host
  }

  // ----- synchronising the desired access controls

  ghost predicate Synced(before: seq<OACRecord>, after: seq<OACRecord>, ds: seq<OAC>, synced: seq<OAC>, ids: IdSource)
  {
    && DistinctOACs(after) && |synced| == |ds|
    && (forall r :: r in before ==> r in after)
    && (forall r :: r in after ==> r in before || exists k: nat :: k < |ds| && r.id == ids(k))
    && (forall k :: 0 <= k < |ds| ==>
        synced[k].originName == ds[k].originName && OACRecord(synced[k].id, ds[k].name) in after)
  }

  lemma SyncOneKeeps(oacs: seq<OACRecord>, desired: OAC, newId: string)
    requires DistinctOACs(oacs) && desired.id == "" && desired.name != ""
    requires newId != "" && forall r :: r in oacs ==> r.id != newId
    ensures var (after, oac) := SyncOne(oacs, desired, newId);
      && DistinctOACs(after)
      && (after == oacs || after == oacs + [OACRecord(newId, desired.name)])
      && OACRecord(oac.id, desired.name) in after && oac.originName == desired.originName
  {
    var i := Find(oacs, desired.id, desired.name);
    if i < |oacs| {
      assert oacs[i] in oacs;
      assert oacs[i := OACRecord(oacs[i].id, desired.name)] == oacs;
    } else {
      assert forall k :: 0 <= k < |oacs| ==> oacs[k] in oacs;
      var r := OACRecord(newId, desired.name);
      assert (oacs + [r])[|oacs|] == r;
    }
  }

  /** What is found by id or name gets the desired name, or else there is a new record; all others stay. */
  lemma SyncOneIsAsDesired(oacs: seq<OACRecord>, desired: OAC, newId: string)
    ensures var (after, oac) := SyncOne(oacs, desired, newId);
      && OACRecord(oac.id, desired.name) in after
      && oac.name == desired.name && oac.originName == desired.originName
      && (oac.id == newId ||
          exists r :: r in oacs && r.id == oac.id && (r.id == desired.id || r.name == desired.name))
      && (forall r :: r in oacs && r.id != oac.id ==> r in after)
      && forall r :: r in after && r.id != oac.id ==> r in oacs
  {
    var (after, oac) := SyncOne(oacs, desired, newId);
    var i := Find(oacs, desired.id, desired.name);
    assert after[i] == OACRecord(oac.id, desired.name);
    if i < |oacs| {
      assert oacs[i] in oacs && IsOAC(oacs[i], desired.id, desired.name);
    }
    forall r | r in oacs && r.id != oac.id
      ensures r in after
    {
      var k :| 0 <= k < |oacs| && oacs[k] == r;
      assert after[k] == r;
    }
  }

  lemma {:induction false} SyncAllKeeps(oacs: seq<OACRecord>, ds: seq<OAC>, ids: IdSource)
    requires DistinctOACs(oacs) && FreshIds(oacs, ids)
    requires forall d :: d in ds ==> d.id == "" && d.name != ""
    ensures var (after, synced) := SyncAll(oacs, ds, ids); Synced(oacs, after, ds, synced, ids)
  {
    if ds != [] {
      var n := |ds| - 1;
      assert ds == ds[..n] + [ds[n]];
      SyncAllKeeps(oacs, ds[..n], ids);
      var (before, synced) := SyncAll(oacs, ds[..n], ids);
      SyncedOneMore(oacs, before, ds, n, synced, ids);
    }
  }

  lemma SyncedOneMore(
    oacs: seq<OACRecord>, before: seq<OACRecord>, ds: seq<OAC>, n: nat, synced: seq<OAC>, ids: IdSource)
    requires |ds| == n + 1 && ds[n].id == "" && ds[n].name != ""
    requires FreshIds(oacs, ids) && Synced(oacs, before, ds[..n], synced, ids)
    ensures var (after, oac) := SyncOne(before, ds[n], ids(n)); Synced(oacs, after, ds, synced + [oac], ids)
  {
    forall r | r in before
      ensures r.id != ids(n)
    {
    }
    SyncOneKeeps(before, ds[n], ids(n));
  }

  lemma {:induction false} DesiredOACsMembers(os: seq<Origin>, oac: OAC)
    ensures oac in DesiredOACs(os) <==> exists o :: o in os && o.IsBucketBased() && o.oac == oac
  {
    if os != [] {
      DesiredOACsMembers(os[..|os| - 1], oac);
      assert os == os[..|os| - 1] + [os[|os| - 1]];
    }
  }

  lemma {:induction false} AttachedMeaning(o: AwsOrigin, synced: seq<OAC>)
    ensures (forall s :: s in synced ==> s.originName != o.id) ==> Attached(o, synced) == o
    ensures (exists s :: s in synced && s.originName == o.id) ==>
      exists s :: s in synced && s.originName == o.id && Attached(o, synced) == o.(accessControlId := Some(s.id))
  {
    if synced != [] {
      AttachedMeaning(o, synced[..|synced| - 1]);
      assert synced == synced[..|synced| - 1] + [synced[|synced| - 1]];
    }
  }

  // ----- the written configuration

  /** o, which the builders made from the origin of a host, has the access control that the host needs. */
  predicate Carries(o: AwsOrigin, oacs: seq<OACRecord>, d: Distribution, shortId: ShortId) {
    if IsDesiredBucket(d, o.id)
    then o.accessControlId.Some? && OACRecord(o.accessControlId.value, Name(shortId, d, o.id)) in oacs
    else o.accessControlId.None?
  }

  lemma SyncedCarryNames(c: Cloud, d: Distribution, ids: IdSource, shortId: ShortId)
    requires WellBuilt(d, shortId) && DistinctOACs(c.oacs) && FreshIds(c.oacs, ids)
    ensures var (after, synced) := SyncAll(c.oacs, DesiredOACs(d.customOrigins), ids);
      && DistinctOACs(after) && (forall r :: r in c.oacs ==> r in after)
      && (forall s :: s in synced ==>
          IsDesiredBucket(d, s.originName) && OACRecord(s.id, Name(shortId, d, s.originName)) in after)
      && forall host :: IsDesiredBucket(d, host) ==> exists s :: s in synced && s.originName == host
  {
    var ds := DesiredOACs(d.customOrigins);
    forall oac
      ensures oac in ds <==> exists o :: o in d.customOrigins && o.IsBucketBased() && o.oac == oac
    {
      DesiredOACsMembers(d.customOrigins, oac);
    }
    SyncAllKeeps(c.oacs, ds, ids);
    var (after, synced) := SyncAll(c.oacs, ds, ids);
    forall s | s in synced
      ensures IsDesiredBucket(d, s.originName) && OACRecord(s.id, Name(shortId, d, s.originName)) in after
    {
      var k :| 0 <= k < |synced| && synced[k] == s;
      assert ds[k] in ds;
      var o :| o in d.customOrigins && o.IsBucketBased() && o.oac == ds[k];
    }
    forall host | IsDesiredBucket(d, host)
      ensures exists s :: s in synced && s.originName == host
    {
      var o :| o in d.customOrigins && o.IsBucketBased() && o.host == host;
      assert o.oac in ds;
      var k :| 0 <= k < |ds| && ds[k] == o.oac;
      assert synced[k] in synced;
    }
  }

  lemma OriginCarries(o: AwsOrigin, d: Distribution, shortId: ShortId, synced: seq<OAC>, after: seq<OACRecord>)
    requires forall s :: s in synced ==>
      IsDesiredBucket(d, s.originName) && OACRecord(s.id, Name(shortId, d, s.originName)) in after
    requires forall host :: IsDesiredBucket(d, host) ==> exists s :: s in synced && s.originName == host
    requires !IsDesiredBucket(d, o.id) ==> o.accessControlId.None?
    ensures Carries(Attached(o, synced), after, d, shortId) && SameButForOAC(o, Attached(o, synced))
  {
    AttachedMeaning(o, synced);
    AttachedIgnoresOld(o, synced);
  }

  lemma BuiltOrigin(d: Distribution, shortId: ShortId, k: nat)
    requires WellBuilt(d, shortId) && k < |NewConfig(d).origins|
    ensures var o := NewConfig(d).origins[k]; !IsDesiredBucket(d, o.id) ==> o.accessControlId.None?
  {
    if k > 0 {
      var o := d.customOrigins[k - 1];
      assert NewConfig(d).origins[k] == NewAwsOrigin(o);
      assert o in d.customOrigins;
    }
  }

  /** Before access controls are attached, exactly the bucket origins ask for one, and none has its id yet. */
  lemma BuiltOriginsAskForControls(d: Distribution, shortId: ShortId, k: nat)
    requires WellBuilt(d, shortId) && k < |d.customOrigins|
    ensures NewConfig(d).origins[k + 1].accessControlId ==
      if d.customOrigins[k].access == "Bucket" then Some("") else None
  {
    assert NewConfig(d).origins[k + 1] == NewAwsOrigin(d.customOrigins[k]);
    assert d.customOrigins[k] in d.customOrigins;
  }

  /** Every bucket origin is written with the access control named after it, and no other origin with any. */
  lemma WrittenOriginsCarry(c: Cloud, d: Distribution, ids: IdSource, shortId: ShortId)
    requires WellBuilt(d, shortId) && DistinctOACs(c.oacs) && FreshIds(c.oacs, ids)
    ensures var after := SyncAll(c.oacs, DesiredOACs(d.customOrigins), ids).0;
      forall o :: o in WrittenConfig(c, d, ids).origins ==> Carries(o, after, d, shortId)
    ensures forall host :: IsDesiredBucket(d, host) ==>
      exists o :: o in WrittenConfig(c, d, ids).origins && o.id == host
  {
    var (after, synced) := SyncAll(c.oacs, DesiredOACs(d.customOrigins), ids);
    SyncedCarryNames(c, d, ids, shortId);
    var built, written := NewConfig(d).origins, WrittenConfig(c, d, ids).origins;
    forall k | 0 <= k < |written|
      ensures Carries(written[k], after, d, shortId) && written[k].id == built[k].id
    {
      BuiltOrigin(d, shortId, k);
      OriginCarries(built[k], d, shortId, synced, after);
    }
    forall host | IsDesiredBucket(d, host)
      ensures exists o :: o in written && o.id == host
    {
      var k := BuiltBucket(d, host);
      assert written[k] in written;
    }
  }

  lemma BuiltBucket(d: Distribution, host: string) returns (k: nat)
    requires IsDesiredBucket(d, host)
    ensures k < |NewConfig(d).origins| && NewConfig(d).origins[k].id == host
  {
    var o :| o in d.customOrigins && o.IsBucketBased() && o.host == host;
    var j :| 0 <= j < |d.customOrigins| && d.customOrigins[j] == o;
    k := j + 1;
    assert NewConfig(d).origins[k] == NewAwsOrigin(o);
  }

  // ----- deletions

  lemma {:induction false} ObsoleteMembers(os: seq<AwsOrigin>, d: Distribution, id: string)
    ensures id in ObsoleteOACs(os, d) <==>
      exists o :: o in os && HasOAC(o) && !d.HasOrigin(o.id) && o.accessControlId == Some(id)
  {
    if os != [] {
      ObsoleteMembers(os[..|os| - 1], d, id);
      assert os == os[..|os| - 1] + [os[|os| - 1]];
    }
  }

  lemma {:induction false} DeleteAllKeeps(c: Cloud, ids: seq<string>, enabled: bool, through: nat)
    ensures var after := DeleteAll(c, ids, enabled, through).0;
      after.dists == c.dists && forall r :: r in after.oacs ==> r in c.oacs
    ensures DistinctOACs(c.oacs) ==> DistinctOACs(DeleteAll(c, ids, enabled, through).0.oacs)
    ensures DistinctOACs(c.oacs) ==>
      forall r :: r in c.oacs && InUse(c, r.id) ==> r in DeleteAll(c, ids, enabled, through).0.oacs
  {
    if ids != [] {
      var n := |ids| - 1;
      DeleteAllKeeps(c, ids[..n], enabled, through);
      DeleteOneKeeps(DeleteAll(c, ids[..n], enabled, through).0, ids[n], enabled);
    }
  }

  lemma DeleteOneKeeps(c: Cloud, id: string, enabled: bool)
    ensures var after := DeleteOne(c, id, enabled).0;
      && after.dists == c.dists
      && (forall r :: r in after.oacs ==> r in c.oacs)
      && (DistinctOACs(c.oacs) ==> DistinctOACs(after.oacs))
      && forall r :: r in c.oacs && InUse(c, r.id) ==> r in after.oacs
  {
    var i := Find(c.oacs, id, "");
    if enabled && i < |c.oacs| && !InUse(c, c.oacs[i].id) {
      var left := c.oacs[..i] + c.oacs[i + 1..];
      assert c.oacs == c.oacs[..i] + [c.oacs[i]] + c.oacs[i + 1..];
      assert forall r :: r in c.oacs <==> r in left || r == c.oacs[i];
    }
  }

  predicate Exists(oacs: seq<OACRecord>, id: string) {
    exists r :: r in oacs && r.id == id
  }

  lemma DeleteOneSucceeds(c: Cloud, id: string)
    requires DistinctOACs(c.oacs) && id != ""
    ensures DeleteOne(c, id, true).1 <==> !(Exists(c.oacs, id) && InUse(c, id))
  {
    var i := Find(c.oacs, id, "");
    if i < |c.oacs| {
      assert c.oacs[i] in c.oacs && c.oacs[i].id == id;
    }
    if r :| r in c.oacs && r.id == id {
      var k :| 0 <= k < |c.oacs| && c.oacs[k] == r;
      assert IsOAC(c.oacs[k], id, "");
    }
  }

  lemma InUseStays(c: Cloud, before: Cloud, id: string)
    requires before.dists == c.dists && Exists(c.oacs, id)
    requires forall r :: r in c.oacs && InUse(c, r.id) ==> r in before.oacs
    ensures InUse(before, id) <==> InUse(c, id)
    ensures InUse(c, id) ==> Exists(before.oacs, id)
  {
    var r :| r in c.oacs && r.id == id;
  }

  predicate AllExist(c: Cloud, ids: seq<string>) {
    forall id :: id in ids ==> id != "" && Exists(c.oacs, id)
  }

  predicate NoneInUse(c: Cloud, ids: seq<string>) {
    forall id :: id in ids ==> !InUse(c, id)
  }

  lemma OneMoreId(c: Cloud, ids: seq<string>)
    requires ids != []
    ensures var (front, id) := (ids[..|ids| - 1], ids[|ids| - 1]);
      && (AllExist(c, ids) <==> AllExist(c, front) && id != "" && Exists(c.oacs, id))
      && (NoneInUse(c, ids) <==> NoneInUse(c, front) && !InUse(c, id))
  {
    var front, last := ids[..|ids| - 1], ids[|ids| - 1];
    forall id | id in ids
      ensures id in front || id == last
    {
      LastMember(ids, id);
    }
    assert last in ids && forall id :: id in front ==> id in ids;
  }

  /** Undisturbed deletions succeed exactly if none of the access controls is in use. */
  lemma {:induction false} DeleteAllSucceeds(c: Cloud, ids: seq<string>, through: nat)
    requires DistinctOACs(c.oacs) && through >= |ids| && AllExist(c, ids)
    ensures DeleteAll(c, ids, true, through).1 <==> NoneInUse(c, ids)
  {
    if ids != [] {
      var n := |ids| - 1;
      var before := DeleteAll(c, ids[..n], true, through).0;
      OneMoreId(c, ids);
      DeleteAllSucceeds(c, ids[..n], through);
      DeleteAllKeeps(c, ids[..n], true, through);
      InUseStays(c, before, ids[n]);
      DeleteOneSucceeds(before, ids[n]);
    }
  }

  lemma {:induction false} AllOACsMembers(os: seq<AwsOrigin>, id: string)
    ensures id in AllOACs(os) <==> exists o :: o in os && HasOAC(o) && o.accessControlId == Some(id)
  {
    if os != [] {
      AllOACsMembers(os[..|os| - 1], id);
      assert os == os[..|os| - 1] + [os[|os| - 1]];
    }
  }

  lemma DeleteOneRemoves(c: Cloud, id: string)
    requires DistinctOACs(c.oacs) && id != "" && DeleteOne(c, id, true).1
    ensures !Exists(DeleteOne(c, id, true).0.oacs, id)
  {
    var i := Find(c.oacs, id, "");
    forall r | r in c.oacs && r.id == id
      ensures i < |c.oacs| && c.oacs[i] == r
    {
      var k :| 0 <= k < |c.oacs| && c.oacs[k] == r;
      assert IsOAC(c.oacs[k], id, "");
      assert c.oacs[i] in c.oacs;
    }
  }

  predicate NoneExists(c: Cloud, ids: seq<string>) {
    forall id :: id in ids ==> !Exists(c.oacs, id)
  }

  lemma OneMoreGone(before: Cloud, after: Cloud, ids: seq<string>)
    requires ids != [] && NoneExists(before, ids[..|ids| - 1]) && !Exists(after.oacs, ids[|ids| - 1])
    requires forall r :: r in after.oacs ==> r in before.oacs
    ensures NoneExists(after, ids)
  {
    forall id | id in ids
      ensures !Exists(after.oacs, id)
    {
      LastMember(ids, id);
    }
  }

  lemma {:induction false} DeleteAllRemoves(c: Cloud, ids: seq<string>, through: nat)
    requires DistinctOACs(c.oacs) && DeleteAll(c, ids, true, through).1 && "" !in ids
    ensures NoneExists(DeleteAll(c, ids, true, through).0, ids)
  {
    if ids != [] {
      var n := |ids| - 1;
      var before := DeleteAll(c, ids[..n], true, through).0;
      LastMember(ids, "");
      DeleteAllRemoves(c, ids[..n], through);
      DeleteAllKeeps(c, ids[..n], true, through);
      DeleteOneRemoves(before, ids[n]);
      DeleteOneKeeps(before, ids[n], true);
      OneMoreGone(before, DeleteAll(c, ids, true, through).0, ids);
    }
  }

  /** Deleting what is gone already succeeds and changes nothing. */
  lemma DeleteIsIdempotent(c: Cloud, d: Distribution, enabled: bool, f: Faults, g: Faults)
    requires DeleteOutcome(c, d, enabled, f).1 && !g.getConfig
    ensures var after := DeleteOutcome(c, d, enabled, f).0; DeleteOutcome(after, d, enabled, g) == (after, true)
  {
    if Present(c, d) {
      var remote := c.dists[d.group];
      var disabled := c.(dists := c.dists[d.group := remote.(config := remote.config.(enabled := false))]);
      DeleteAllKeeps(
        disabled.(dists := disabled.dists - {d.group}), AllOACs(remote.config.origins), enabled, f.oacDeletes);
    }
  }

  /**
   * What a deletion leaves of the distribution: nothing, or all of it with only the switch turned off, or, if the
   * configuration cannot be read or the switch cannot be turned, exactly what was there.
   */
  lemma DeletionTurnsOffFirst(c: Cloud, d: Distribution, enabled: bool, f: Faults)
    requires Present(c, d)
    ensures var after := DeleteOutcome(c, d, enabled, f).0;
      && (forall h :: h in c.dists && h != d.group ==> h in after.dists && after.dists[h] == c.dists[h])
      && (d.group in after.dists ==>
          && after.dists[d.group].identity == c.dists[d.group].identity
          && var (was, now) := (c.dists[d.group].config, after.dists[d.group].config);
          && now == was.(enabled := now.enabled)
          && (now.enabled <==> was.enabled && (f.getConfig || f.disable)))
  {
    var remote := c.dists[d.group];
    var disabled := c.(dists := c.dists[d.group := remote.(config := remote.config.(enabled := false))]);
    DeleteAllKeeps(
      disabled.(dists := disabled.dists - {d.group}), AllOACs(remote.config.origins), enabled, f.oacDeletes);
  }

  /** After a successful deletion the distribution is gone, and so are all access controls that it used. */
  lemma DeletedDistLeavesNoControls(c: Cloud, d: Distribution, f: Faults)
    requires DistinctOACs(c.oacs) && Present(c, d) && DeleteOutcome(c, d, true, f).1
    ensures var after := DeleteOutcome(c, d, true, f).0;
      && d.group !in after.dists
      && forall o :: o in c.dists[d.group].config.origins && HasOAC(o) ==> !Exists(after.oacs, o.accessControlId.value)
  {
    var remote := c.dists[d.group];
    var disabled := c.(dists := c.dists[d.group := remote.(config := remote.config.(enabled := false))]);
    var removed := disabled.(dists := disabled.dists - {d.group});
    var all := AllOACs(remote.config.origins);
    AllOACsMembers(remote.config.origins, "");
    DeleteAllRemoves(removed, all, f.oacDeletes);
    DeleteAllKeeps(removed, all, true, f.oacDeletes);
    forall o | o in remote.config.origins && HasOAC(o)
      ensures o.accessControlId.value in all
    {
      AllOACsMembers(remote.config.origins, o.accessControlId.value);
    }
  }

  // ----- the main results

  /** A host that goes and a bucket host that stays whose access controls have one name. */
  predicate NameShared(c: Cloud, d: Distribution, shortId: ShortId, id: string)
    requires Present(c, d)
  {
    exists o, b :: o in c.dists[d.group].config.origins && HasOAC(o) && !d.HasOrigin(o.id)
      && o.accessControlId == Some(id)
      && b in d.customOrigins && b.IsBucketBased() && Name(shortId, d, b.host) == Name(shortId, d, o.id)
  }

  predicate SameRecord(oacs: seq<OACRecord>, r: OACRecord, s: OACRecord) {
    r in oacs && s in oacs && (r.id == s.id || r.name == s.name)
  }

  lemma RecordsAreKeyed(oacs: seq<OACRecord>, r: OACRecord, s: OACRecord)
    requires DistinctOACs(oacs) && SameRecord(oacs, r, s)
    ensures r == s
  {
    var i :| 0 <= i < |oacs| && oacs[i] == r;
    var j :| 0 <= j < |oacs| && oacs[j] == s;
    assert i == j;
  }

  /** The written configuration references an obsolete access control exactly if a staying bucket shares its name. */
  lemma ReferencedIffNameShared(c: Cloud, d: Distribution, ids: IdSource, shortId: ShortId, id: string)
    requires WellBuilt(d, shortId) && DistinctOACs(c.oacs) && FreshIds(c.oacs, ids)
    requires Present(c, d) && ObservedOwn(c, d, shortId)
    requires id in ObsoleteOACs(c.dists[d.group].config.origins, d)
    ensures References(WrittenConfig(c, d, ids), id) <==> NameShared(c, d, shortId, id)
  {
    var after := SyncAll(c.oacs, DesiredOACs(d.customOrigins), ids).0;
    SyncedCarryNames(c, d, ids, shortId);
    WrittenOriginsCarry(c, d, ids, shortId);
    ObsoleteMembers(c.dists[d.group].config.origins, d, id);
    var written := WrittenConfig(c, d, ids).origins;
    if w :| w in written && w.accessControlId == Some(id) {
      var o :| o in c.dists[d.group].config.origins && HasOAC(o) && !d.HasOrigin(o.id) && o.accessControlId == Some(id);
      ReferenceSharesName(w, after, d, shortId, id, o.id);
    }
    if NameShared(c, d, shortId, id) {
      var o, b :| o in c.dists[d.group].config.origins && HasOAC(o) && !d.HasOrigin(o.id)
        && o.accessControlId == Some(id)
        && b in d.customOrigins && b.IsBucketBased() && Name(shortId, d, b.host) == Name(shortId, d, o.id);
      assert IsDesiredBucket(d, b.host);
      var w :| w in written && w.id == b.host;
      SharedNameIsReferenced(w, after, d, shortId, id, o.id);
    }
  }

  lemma ReferenceSharesName(
    w: AwsOrigin, oacs: seq<OACRecord>, d: Distribution, shortId: ShortId, id: string, host: string)
    requires DistinctOACs(oacs) && Carries(w, oacs, d, shortId) && w.accessControlId == Some(id)
    requires OACRecord(id, Name(shortId, d, host)) in oacs
    ensures exists b :: b in d.customOrigins && b.IsBucketBased() && Name(shortId, d, b.host) == Name(shortId, d, host)
  {
    RecordsAreKeyed(oacs, OACRecord(id, Name(shortId, d, w.id)), OACRecord(id, Name(shortId, d, host)));
    var b :| b in d.customOrigins && b.IsBucketBased() && b.host == w.id;
  }

  lemma SharedNameIsReferenced(
    w: AwsOrigin, oacs: seq<OACRecord>, d: Distribution, shortId: ShortId, id: string, host: string)
    requires DistinctOACs(oacs) && Carries(w, oacs, d, shortId) && IsDesiredBucket(d, w.id)
    requires OACRecord(id, Name(shortId, d, host)) in oacs && Name(shortId, d, w.id) == Name(shortId, d, host)
    ensures w.accessControlId == Some(id)
  {
    RecordsAreKeyed(
      oacs, OACRecord(id, Name(shortId, d, host)), OACRecord(w.accessControlId.value, Name(shortId, d, w.id)));
  }

  /** No call of a synchronisation fails. */
  predicate Undisturbed(d: Distribution, observed: DistConfig, f: Faults) {
    && !f.getConfig && !f.update && !f.tag
    && |DesiredOACs(d.customOrigins)| <= f.oacSyncs && |ObsoleteOACs(observed.origins, d)| <= f.oacDeletes
  }

  /**
   * After a successful synchronisation each bucket origin is configured with the existing access control named
   * after it. Access controls in use survive.
   */
  lemma SyncedOriginsAreControlled(c: Cloud, d: Distribution, enabled: bool, ids: IdSource, f: Faults, shortId: ShortId)
    requires WellBuilt(d, shortId) && DistinctOACs(c.oacs) && FreshIds(c.oacs, ids)
    requires SyncOutcome(c, d, enabled, ids, f).1.Some?
    ensures var after := SyncOutcome(c, d, enabled, ids, f).0;
      && d.group in after.dists && after.dists[d.group].config == WrittenConfig(c, d, ids)
      && (forall o :: o in after.dists[d.group].config.origins ==> Carries(o, after.oacs, d, shortId))
      && forall host :: IsDesiredBucket(d, host) ==>
        exists o :: o in after.dists[d.group].config.origins && o.id == host
  {
    var remote := c.dists[d.group];
    var synced := c.(oacs := SyncAll(c.oacs, DesiredOACs(d.customOrigins), ids).0);
    var written := synced.(dists := synced.dists[d.group := remote.(config := WrittenConfig(c, d, ids))]);
    SyncedCarryNames(c, d, ids, shortId);
    WrittenOriginsCarry(c, d, ids, shortId);
    DeleteAllKeeps(written, ObsoleteOACs(remote.config.origins, d), enabled, f.oacDeletes);
    var after := SyncOutcome(c, d, enabled, ids, f).0;
    assert after == DeleteAll(written, ObsoleteOACs(remote.config.origins, d), enabled, f.oacDeletes).0;
    CarryingSurvives(written, after.oacs, d, shortId);
  }

  /** What the group's configuration carries is in use. */
  lemma CarryingSurvives(written: Cloud, oacs: seq<OACRecord>, d: Distribution, shortId: ShortId)
    requires d.group in written.dists
    requires forall r :: r in written.oacs && InUse(written, r.id) ==> r in oacs
    requires forall o :: o in written.dists[d.group].config.origins ==> Carries(o, written.oacs, d, shortId)
    ensures forall o :: o in written.dists[d.group].config.origins ==> Carries(o, oacs, d, shortId)
  {
    forall o | o in written.dists[d.group].config.origins
      ensures Carries(o, oacs, d, shortId)
    {
      if o.accessControlId.Some? {
        assert References(written.dists[d.group].config, o.accessControlId.value);
        assert InUse(written, o.accessControlId.value);
      }
    }
  }

  /** An access control disappears only in a call that has written the new configuration before. */
  lemma NothingIsDeletedBeforeTheUpdate(
    c: Cloud, d: Distribution, enabled: bool, ids: IdSource, f: Faults, r: OACRecord)
    requires DistinctOACs(c.oacs) && FreshIds(c.oacs, ids)
    requires forall oac :: oac in DesiredOACs(d.customOrigins) ==> oac.id == "" && oac.name != ""
    requires r in c.oacs && r !in SyncOutcome(c, d, enabled, ids, f).0.oacs
    ensures var after := SyncOutcome(c, d, enabled, ids, f).0;
      d.group in after.dists && after.dists[d.group].config == WrittenConfig(c, d, ids)
    ensures !References(WrittenConfig(c, d, ids), r.id)
  {
    var desired, remote := DesiredOACs(d.customOrigins), c.dists[d.group];
    SyncAllKeeps(c.oacs, desired, ids);
    if f.oacSyncs < |desired| {
      SyncAllKeeps(c.oacs, desired[..f.oacSyncs], ids);
    } else {
      var synced := c.(oacs := SyncAll(c.oacs, desired, ids).0);
      var written := synced.(dists := synced.dists[d.group := remote.(config := WrittenConfig(c, d, ids))]);
      assert References(written.dists[d.group].config, r.id) ==> InUse(written, r.id);
      DeleteAllKeeps(written, ObsoleteOACs(remote.config.origins, d), enabled, f.oacDeletes);
    }
  }

  /**
   * With deletion enabled and no call failing, a synchronisation succeeds if and only if none of the access
   * controls of removed origins is needed: by a bucket host that stays and shares the name, or by another group.
   */
  lemma SyncSucceedsIffNothingNeededIsDeleted(c: Cloud, d: Distribution, ids: IdSource, f: Faults, shortId: ShortId)
    requires WellBuilt(d, shortId) && DistinctOACs(c.oacs) && FreshIds(c.oacs, ids)
    requires Present(c, d) && ObservedOwn(c, d, shortId) && Undisturbed(d, c.dists[d.group].config, f)
    ensures SyncOutcome(c, d, true, ids, f).1.Some? <==>
      forall id :: id in ObsoleteOACs(c.dists[d.group].config.origins, d) ==>
        !NameShared(c, d, shortId, id) && !UsedByOthers(c, d, id)
  {
    var remote := c.dists[d.group];
    var obsolete := ObsoleteOACs(remote.config.origins, d);
    var desired := DesiredOACs(d.customOrigins);
    var written :=
      Cloud(c.dists[d.group := remote.(config := WrittenConfig(c, d, ids))], SyncAll(c.oacs, desired, ids).0);
    SyncedCarryNames(c, d, ids, shortId);
    forall id | id in obsolete
      ensures id != "" && Exists(written.oacs, id)
      ensures InUse(written, id) <==> NameShared(c, d, shortId, id) || UsedByOthers(c, d, id)
    {
      ObsoleteMembers(remote.config.origins, d, id);
      var o :| o in remote.config.origins && HasOAC(o) && !d.HasOrigin(o.id) && o.accessControlId == Some(id);
      assert OACRecord(id, Name(shortId, d, o.id)) in c.oacs;
      ReferencedIffNameShared(c, d, ids, shortId, id);
      InUseAfterWriting(c, d, remote.(config := WrittenConfig(c, d, ids)), written, id);
    }
    DeleteAllSucceeds(written, obsolete, f.oacDeletes);
  }

  predicate UsedByOthers(c: Cloud, d: Distribution, id: string) {
    exists g :: g in c.dists && g != d.group && References(c.dists[g].config, id)
  }

  lemma InUseAfterWriting(c: Cloud, d: Distribution, mine: RemoteDist, written: Cloud, id: string)
    requires written.dists == c.dists[d.group := mine]
    ensures InUse(written, id) <==> References(mine.config, id) || UsedByOthers(c, d, id)
  {
    if References(mine.config, id) {
      assert References(written.dists[d.group].config, id);
    }
    if g :| g in c.dists && g != d.group && References(c.dists[g].config, id) {
      assert References(written.dists[g].config, id);
    }
  }

  // ----- convergence

  /** Access controls that exist under the desired names are found, and stay as they are. */
  lemma {:induction false} SyncAllFinds(oacs: seq<OACRecord>, ds: seq<OAC>, ids: IdSource)
    requires DistinctOACs(oacs)
    requires forall d :: d in ds ==> d.id == "" && d.name != "" && exists r :: r in oacs && r.name == d.name
    ensures SyncAll(oacs, ds, ids).0 == oacs
  {
    if ds != [] {
      var n := |ds| - 1;
      assert ds == ds[..n] + [ds[n]];
      SyncAllFinds(oacs, ds[..n], ids);
      FindByName(oacs, ds[n].name);
    }
  }

  lemma FindByName(oacs: seq<OACRecord>, name: string)
    requires DistinctOACs(oacs) && name != "" && exists r :: r in oacs && r.name == name
    ensures var i := Find(oacs, "", name); i < |oacs| && oacs[i] == OACRecord(oacs[i].id, name)
    ensures var i := Find(oacs, "", name); oacs[i := OACRecord(oacs[i].id, name)] == oacs
  {
    var r :| r in oacs && r.name == name;
    var k :| 0 <= k < |oacs| && oacs[k] == r;
    var i := Find(oacs, "", name);
    assert IsOAC(oacs[k], "", name);
    assert oacs[i] in oacs;
  }

  /** The desired access controls exist after a synchronisation. */
  lemma DesiredExist(d: Distribution, shortId: ShortId, after: Cloud, config: DistConfig)
    requires WellBuilt(d, shortId)
    requires forall o :: o in config.origins ==> Carries(o, after.oacs, d, shortId)
    requires forall host :: IsDesiredBucket(d, host) ==> exists o :: o in config.origins && o.id == host
    ensures forall oac :: oac in DesiredOACs(d.customOrigins) ==>
      oac.id == "" && oac.name != "" && exists r :: r in after.oacs && r.name == oac.name
  {
    forall oac | oac in DesiredOACs(d.customOrigins)
      ensures oac.id == "" && oac.name != "" && exists r :: r in after.oacs && r.name == oac.name
    {
      DesiredOACsMembers(d.customOrigins, oac);
      var b :| b in d.customOrigins && b.IsBucketBased() && b.oac == oac;
      assert IsDesiredBucket(d, b.host);
      var o :| o in config.origins && o.id == b.host;
      assert Carries(o, after.oacs, d, shortId);
      assert OACRecord(o.accessControlId.value, oac.name) in after.oacs;
    }
  }

  lemma CarryingIsUnique(o: AwsOrigin, p: AwsOrigin, oacs: seq<OACRecord>, d: Distribution, shortId: ShortId)
    requires DistinctOACs(oacs) && SameButForOAC(o, p)
    requires Carries(o, oacs, d, shortId) && Carries(p, oacs, d, shortId)
    ensures o == p
  {
    if IsDesiredBucket(d, o.id) {
      var name := Name(shortId, d, o.id);
      RecordsAreKeyed(oacs, OACRecord(o.accessControlId.value, name), OACRecord(p.accessControlId.value, name));
    }
  }

  /** With the right access controls in place, the configuration that would be written is the one that is there. */
  lemma SameConfigurationAgain(c: Cloud, d: Distribution, ids: IdSource, shortId: ShortId, config: DistConfig)
    requires WellBuilt(d, shortId) && DistinctOACs(c.oacs)
    requires SyncAll(c.oacs, DesiredOACs(d.customOrigins), ids).0 == c.oacs
    requires forall o :: o in WrittenConfig(c, d, ids).origins ==> Carries(o, c.oacs, d, shortId)
    requires forall o :: o in config.origins ==> Carries(o, c.oacs, d, shortId)
    requires config == NewConfig(d).(origins := config.origins) && |config.origins| == |NewConfig(d).origins|
    requires forall k :: 0 <= k < |config.origins| ==> SameButForOAC(NewConfig(d).origins[k], config.origins[k])
    ensures WrittenConfig(c, d, ids) == config
  {
    var synced := SyncAll(c.oacs, DesiredOACs(d.customOrigins), ids).1;
    var again := WrittenConfig(c, d, ids);
    forall k | 0 <= k < |config.origins|
      ensures again.origins[k] == config.origins[k]
    {
      AttachedIgnoresOld(NewConfig(d).origins[k], synced);
      assert again.origins[k] in again.origins && config.origins[k] in config.origins;
      CarryingIsUnique(again.origins[k], config.origins[k], c.oacs, d, shortId);
    }
    assert again.origins == config.origins;
  }

  lemma {:induction false} NothingObsolete(os: seq<AwsOrigin>, d: Distribution)
    requires forall o :: o in os && HasOAC(o) ==> d.HasOrigin(o.id)
    ensures ObsoleteOACs(os, d) == []
  {
    if os != [] {
      assert os == os[..|os| - 1] + [os[|os| - 1]];
      NothingObsolete(os[..|os| - 1], d);
    }
  }

  lemma CarryingIsNotObsolete(os: seq<AwsOrigin>, oacs: seq<OACRecord>, d: Distribution, shortId: ShortId)
    requires forall o :: o in os ==> Carries(o, oacs, d, shortId)
    ensures ObsoleteOACs(os, d) == []
  {
    forall o | o in os && HasOAC(o)
      ensures d.HasOrigin(o.id)
    {
      var b :| b in d.customOrigins && b.IsBucketBased() && b.host == o.id;
      var k :| 0 <= k < |d.customOrigins| && d.customOrigins[k] == b;
    }
    NothingObsolete(os, d);
  }

  /** Once a synchronisation has succeeded, repeating it succeeds and leaves CloudFront exactly as it is. */
  lemma SyncIsIdempotent(
    c: Cloud, d: Distribution, enabled: bool, ids: IdSource, f: Faults, shortId: ShortId, ids2: IdSource, f2: Faults)
    requires WellBuilt(d, shortId) && DistinctOACs(c.oacs) && FreshIds(c.oacs, ids)
    requires SyncOutcome(c, d, enabled, ids, f).1.Some?
    requires FreshIds(SyncOutcome(c, d, enabled, ids, f).0.oacs, ids2)
    requires !f2.getConfig && !f2.update && !f2.tag && |DesiredOACs(d.customOrigins)| <= f2.oacSyncs
    ensures var (after, r) := SyncOutcome(c, d, enabled, ids, f); SyncOutcome(after, d, enabled, ids2, f2) == (after, r)
  {
    var (after, r) := SyncOutcome(c, d, enabled, ids, f);
    SyncedOriginsAreControlled(c, d, enabled, ids, f, shortId);
    SyncKeepsDistinct(c, d, enabled, ids, f, shortId);
    var config := after.dists[d.group].config;
    DesiredExist(d, shortId, after, config);
    SyncAllFinds(after.oacs, DesiredOACs(d.customOrigins), ids2);
    WrittenOriginsCarry(after, d, ids2, shortId);
    WrittenIds(c, d, ids);
    SameConfigurationAgain(after, d, ids2, shortId, config);
    CarryingIsNotObsolete(config.origins, after.oacs, d, shortId);
    assert after.dists[d.group := after.dists[d.group]] == after.dists;
  }

  // ----- convergence, in whatever order the origins come

  /** Equal but for the behaviors. */
  predicate SameSettings(o: Origin, p: Origin) {
    p == o.(behaviors := p.behaviors)
  }

  predicate HasLike(os: seq<Origin>, o: Origin) {
    exists p :: p in os && SameSettings(o, p)
  }

  /** The same origins in another order, with their behaviors in another order. */
  ghost predicate Rearranged(os: seq<Origin>, ps: seq<Origin>) {
    && DistinctHosts(os) && DistinctHosts(ps)
    && (forall o :: o in os ==> HasLike(ps, o))
    && (forall p :: p in ps ==> HasLike(os, p))
  }

  /** e differs from d in its identity at CloudFront and in the order of its origins and behaviors only. */
  ghost predicate SameButForOrder(d: Distribution, e: Distribution) {
    && Rearranged(d.customOrigins, e.customOrigins)
    && e == d.(id := e.id, arn := e.arn, address := e.address, customOrigins := e.customOrigins)
  }

  lemma RearrangedBuckets(d: Distribution, e: Distribution, shortId: ShortId)
    requires WellBuilt(d, shortId) && SameButForOrder(d, e)
    ensures WellBuilt(e, shortId)
    ensures forall host :: IsDesiredBucket(d, host) <==> IsDesiredBucket(e, host)
  {
    forall p | p in e.customOrigins
      ensures exists o :: o in d.customOrigins && SameSettings(p, o)
    {
      assert HasLike(d.customOrigins, p);
    }
    forall host | IsDesiredBucket(d, host)
      ensures IsDesiredBucket(e, host)
    {
      var o :| o in d.customOrigins && o.IsBucketBased() && o.host == host;
      assert HasLike(e.customOrigins, o);
    }
  }

  lemma {:induction false} DesiredOACsDistinct(os: seq<Origin>)
    requires DistinctHosts(os) && forall o :: o in os && o.IsBucketBased() ==> o.oac.originName == o.host
    ensures var ds := DesiredOACs(os); forall i, j :: 0 <= i < j < |ds| ==> ds[i] != ds[j]
  {
    if os != [] {
      var n := |os| - 1;
      assert forall o :: o in os[..n] ==> o in os && o.host != os[n].host;
      DesiredOACsDistinct(os[..n]);
      DesiredOACsMembers(os[..n], os[n].oac);
    }
  }

  /** As many access controls are desired in either order. */
  lemma RearrangedOACs(d: Distribution, e: Distribution, shortId: ShortId)
    requires WellBuilt(d, shortId) && SameButForOrder(d, e)
    ensures |DesiredOACs(e.customOrigins)| == |DesiredOACs(d.customOrigins)|
  {
    var ds, es := DesiredOACs(d.customOrigins), DesiredOACs(e.customOrigins);
    RearrangedBuckets(d, e, shortId);
    DesiredOACsDistinct(d.customOrigins);
    DesiredOACsDistinct(e.customOrigins);
    forall oac
      ensures oac in ds <==> oac in es
    {
      DesiredOACsMembers(d.customOrigins, oac);
      DesiredOACsMembers(e.customOrigins, oac);
      if o :| o in d.customOrigins && o.IsBucketBased() && o.oac == oac {
        assert HasLike(e.customOrigins, o);
      }
      if p :| p in e.customOrigins && p.IsBucketBased() && p.oac == oac {
        assert HasLike(d.customOrigins, p);
      }
    }
    NoDuplicatesSameElements(ds, es);
    assert |ds| == |multiset(ds)| == |multiset(es)| == |es|;
  }

  /** Equal but for the order of the origins, and for the behaviors. */
  predicate SameConfig(a: DistConfig, b: DistConfig) {
    b == a.(origins := b.origins, behaviors := b.behaviors) && multiset(a.origins) == multiset(b.origins)
  }

  /** os is written for d, and each of its origins carries what it needs. */
  predicate WrittenFor(os: seq<AwsOrigin>, d: Distribution, oacs: seq<OACRecord>, shortId: ShortId) {
    && |os| == |d.customOrigins| + 1 && SameButForOAC(NewAwsOrigin(d.defaultOrigin), os[0])
    && (forall k :: 0 <= k < |d.customOrigins| ==> SameButForOAC(NewAwsOrigin(d.customOrigins[k]), os[k + 1]))
    && forall o :: o in os ==> Carries(o, oacs, d, shortId)
  }

  lemma FindsAlike(
    os: seq<AwsOrigin>, ps: seq<AwsOrigin>, d: Distribution, e: Distribution, oacs: seq<OACRecord>, shortId: ShortId,
    o: AwsOrigin)
    requires WellBuilt(d, shortId) && SameButForOrder(d, e) && DistinctOACs(oacs)
    requires WrittenFor(os, d, oacs, shortId) && WrittenFor(ps, e, oacs, shortId)
    requires o in os[1..]
    ensures o in ps[1..]
  {
    RearrangedBuckets(d, e, shortId);
    var k :| 0 <= k < |d.customOrigins| && os[k + 1] == o;
    assert d.customOrigins[k] in d.customOrigins && HasLike(e.customOrigins, d.customOrigins[k]);
    var p :| p in e.customOrigins && SameSettings(d.customOrigins[k], p);
    var j :| 0 <= j < |e.customOrigins| && e.customOrigins[j] == p;
    assert ps[j + 1] in ps && Carries(ps[j + 1], oacs, d, shortId);
    CarryingIsUnique(o, ps[j + 1], oacs, d, shortId);
    assert ps[1..][j] == o;
  }

  lemma WrittenDistinct(os: seq<AwsOrigin>, d: Distribution, oacs: seq<OACRecord>, shortId: ShortId)
    requires DistinctHosts(d.customOrigins) && WrittenFor(os, d, oacs, shortId)
    ensures forall i, j :: 0 <= i < j < |os[1..]| ==> os[1..][i] != os[1..][j]
  {
    forall i, j | 0 <= i < j < |os[1..]|
      ensures os[1..][i] != os[1..][j]
    {
      assert os[i + 1].id == d.customOrigins[i].host && os[j + 1].id == d.customOrigins[j].host;
    }
  }

  lemma SameOriginsWritten(
    os: seq<AwsOrigin>, ps: seq<AwsOrigin>, d: Distribution, e: Distribution, oacs: seq<OACRecord>, shortId: ShortId)
    requires WellBuilt(d, shortId) && SameButForOrder(d, e) && DistinctOACs(oacs)
    requires WrittenFor(os, d, oacs, shortId) && WrittenFor(ps, e, oacs, shortId)
    ensures multiset(os) == multiset(ps)
  {
    RearrangedBuckets(d, e, shortId);
    forall o
      ensures o in os[1..] <==> o in ps[1..]
    {
      if o in os[1..] {
        FindsAlike(os, ps, d, e, oacs, shortId, o);
      }
      if o in ps[1..] {
        assert SameButForOrder(e, d);
        FindsAlike(ps, os, e, d, oacs, shortId, o);
      }
    }
    WrittenDistinct(os, d, oacs, shortId);
    WrittenDistinct(ps, e, oacs, shortId);
    NoDuplicatesSameElements(os[1..], ps[1..]);
    assert os[0] in os && ps[0] in ps;
    CarryingIsUnique(os[0], ps[0], oacs, d, shortId);
    assert os == [os[0]] + os[1..] && ps == [ps[0]] + ps[1..];
  }

  /** A synchronisation that finds its access controls and has none to delete changes one configuration only. */
  lemma QuietSync(c: Cloud, d: Distribution, enabled: bool, ids: IdSource, f: Faults)
    requires Present(c, d) && !f.getConfig && !f.update && !f.tag && |DesiredOACs(d.customOrigins)| <= f.oacSyncs
    requires SyncAll(c.oacs, DesiredOACs(d.customOrigins), ids).0 == c.oacs
    requires ObsoleteOACs(c.dists[d.group].config.origins, d) == []
    ensures var (remote, config) := (c.dists[d.group], WrittenConfig(c, d, ids));
      SyncOutcome(c, d, enabled, ids, f) == (
        c.(dists := c.dists[d.group := remote.(config := config)]),
        Some(d.(id := remote.identity.id, arn := remote.identity.arn, address := remote.identity.address)))
  {
  }

  lemma SyncedIdentity(c: Cloud, d: Distribution, enabled: bool, ids: IdSource, f: Faults)
    requires SyncOutcome(c, d, enabled, ids, f).1.Some?
    ensures Present(c, d)
    ensures var me := c.dists[d.group].identity;
      SyncOutcome(c, d, enabled, ids, f).1 == Some(d.(id := me.id, arn := me.arn, address := me.address))
  {
  }

  /**
   * Once a synchronisation has succeeded, one of the same distribution with its origins in any order succeeds. It
   * leaves the access controls and the other distributions as they are, and this one but for that order.
   */
  lemma SyncSettlesInAnyOrder(
    c: Cloud, d: Distribution, enabled: bool, ids: IdSource, f: Faults, shortId: ShortId,
    e: Distribution, ids2: IdSource, f2: Faults)
    requires WellBuilt(d, shortId) && DistinctOACs(c.oacs) && FreshIds(c.oacs, ids)
    requires SyncOutcome(c, d, enabled, ids, f).1.Some?
    requires SameButForOrder(d, e) && e.id == d.id
    requires FreshIds(SyncOutcome(c, d, enabled, ids, f).0.oacs, ids2)
    requires !f2.getConfig && !f2.update && !f2.tag && |DesiredOACs(d.customOrigins)| <= f2.oacSyncs
    ensures var (after, r) := SyncOutcome(c, d, enabled, ids, f);
      var (again, s) := SyncOutcome(after, e, enabled, ids2, f2);
      && Present(after, e) && again.oacs == after.oacs
      && s == Some(e.(id := r.value.id, arn := r.value.arn, address := r.value.address))
      && d.group in again.dists && SameConfig(after.dists[d.group].config, again.dists[d.group].config)
      && again.dists == after.dists[d.group := after.dists[d.group].(config := again.dists[d.group].config)]
  {
    SyncSettles(c, d, enabled, ids, f, shortId);
    SyncedIdentity(c, d, enabled, ids, f);
    SettledInAnyOrder(SyncOutcome(c, d, enabled, ids, f).0, d, enabled, shortId, e, ids2, f2);
  }

  /** CloudFront has the distribution as it is desired. */
  ghost predicate SettledCloud(c: Cloud, d: Distribution, shortId: ShortId) {
    && Present(c, d) && DistinctOACs(c.oacs)
    && var config := c.dists[d.group].config;
    && config == NewConfig(d).(origins := config.origins) && WrittenFor(config.origins, d, c.oacs, shortId)
    && forall host :: IsDesiredBucket(d, host) ==> exists o :: o in config.origins && o.id == host
  }

  lemma SyncSettles(c: Cloud, d: Distribution, enabled: bool, ids: IdSource, f: Faults, shortId: ShortId)
    requires WellBuilt(d, shortId) && DistinctOACs(c.oacs) && FreshIds(c.oacs, ids)
    requires SyncOutcome(c, d, enabled, ids, f).1.Some?
    ensures var after := SyncOutcome(c, d, enabled, ids, f).0;
      SettledCloud(after, d, shortId) && after.dists[d.group].identity == c.dists[d.group].identity
  {
    var after := SyncOutcome(c, d, enabled, ids, f).0;
    SyncedOriginsAreControlled(c, d, enabled, ids, f, shortId);
    SyncKeepsDistinct(c, d, enabled, ids, f, shortId);
    WrittenIds(c, d, ids);
    var config := after.dists[d.group].config;
    assert config == WrittenConfig(c, d, ids);
    WrittenIsFor(config, d, after.oacs, shortId);
  }

  lemma WrittenIsFor(config: DistConfig, d: Distribution, oacs: seq<OACRecord>, shortId: ShortId)
    requires |config.origins| == |NewConfig(d).origins|
    requires forall k :: 0 <= k < |config.origins| ==> SameButForOAC(NewConfig(d).origins[k], config.origins[k])
    requires forall o :: o in config.origins ==> Carries(o, oacs, d, shortId)
    ensures WrittenFor(config.origins, d, oacs, shortId)
  {
    forall k | 0 <= k < |d.customOrigins|
      ensures SameButForOAC(NewAwsOrigin(d.customOrigins[k]), config.origins[k + 1])
    {
      assert NewConfig(d).origins[k + 1] == NewAwsOrigin(d.customOrigins[k]);
    }
  }

  lemma SettledInAnyOrder(
    c: Cloud, d: Distribution, enabled: bool, shortId: ShortId, e: Distribution, ids: IdSource, f: Faults)
    requires WellBuilt(d, shortId) && SettledCloud(c, d, shortId) && FreshIds(c.oacs, ids)
    requires SameButForOrder(d, e) && e.id == d.id
    requires !f.getConfig && !f.update && !f.tag && |DesiredOACs(d.customOrigins)| <= f.oacSyncs
    ensures var (again, s) := SyncOutcome(c, e, enabled, ids, f);
      var me := c.dists[d.group].identity;
      && Present(c, e) && again.oacs == c.oacs && s == Some(e.(id := me.id, arn := me.arn, address := me.address))
      && d.group in again.dists && SameConfig(c.dists[d.group].config, again.dists[d.group].config)
      && again.dists == c.dists[d.group := c.dists[d.group].(config := again.dists[d.group].config)]
  {
    var config := c.dists[d.group].config;
    RearrangedBuckets(d, e, shortId);
    RearrangedOACs(d, e, shortId);
    assert forall o :: o in config.origins ==> Carries(o, c.oacs, e, shortId);
    DesiredExist(e, shortId, c, config);
    SyncAllFinds(c.oacs, DesiredOACs(e.customOrigins), ids);
    CarryingIsNotObsolete(config.origins, c.oacs, e, shortId);
    WrittenOriginsCarry(c, e, ids, shortId);
    WrittenIds(c, e, ids);
    QuietSync(c, e, enabled, ids, f);
    WrittenIsFor(WrittenConfig(c, e, ids), e, c.oacs, shortId);
    SameOriginsWritten(config.origins, WrittenConfig(c, e, ids).origins, d, e, c.oacs, shortId);
  }

  lemma WrittenIds(c: Cloud, d: Distribution, ids: IdSource)
    ensures var (config, built) := (WrittenConfig(c, d, ids), NewConfig(d));
      && config == built.(origins := config.origins) && |config.origins| == |built.origins|
      && forall k :: 0 <= k < |built.origins| ==> SameButForOAC(built.origins[k], config.origins[k])
  {
    var synced := SyncAll(c.oacs, DesiredOACs(d.customOrigins), ids).1;
    forall k | 0 <= k < |NewConfig(d).origins|
      ensures SameButForOAC(NewConfig(d).origins[k], WrittenConfig(c, d, ids).origins[k])
    {
      AttachedIgnoresOld(NewConfig(d).origins[k], synced);
    }
  }

  lemma SyncKeepsDistinct(c: Cloud, d: Distribution, enabled: bool, ids: IdSource, f: Faults, shortId: ShortId)
    requires WellBuilt(d, shortId) && DistinctOACs(c.oacs) && FreshIds(c.oacs, ids)
    requires SyncOutcome(c, d, enabled, ids, f).1.Some?
    ensures var (after, r) := SyncOutcome(c, d, enabled, ids, f);
      && DistinctOACs(after.oacs)
      && Present(c, d) && Present(after, d) && after.dists[d.group].identity == c.dists[d.group].identity
  {
    var remote := c.dists[d.group];
    var synced := c.(oacs := SyncAll(c.oacs, DesiredOACs(d.customOrigins), ids).0);
    var written := synced.(dists := synced.dists[d.group := remote.(config := WrittenConfig(c, d, ids))]);
    SyncedCarryNames(c, d, ids, shortId);
    DeleteAllKeeps(written, ObsoleteOACs(remote.config.origins, d), enabled, f.oacDeletes);
  }

  // ----- what the builders produce is what these results ask for

  lemma NamesAreNotEmpty(shortId: ShortId, distribution: string, host: string)
    ensures OacName(shortId, distribution, host) != ""
  {
  }

  /** Distributions compiled from Ingresses of the group with public or bucket origins are well built. */
  lemma CompiledIsWellBuilt(d: Distribution, ings: seq<CDNIngress>, shared: Params, s: Setting, shortId: ShortId)
    requires DistributionFrom(Ok(d), ings, shared, s, shortId)
    requires forall i :: i in ings ==>
      i.group == s.group && (i.originAccess == ACCESS_PUBLIC || i.originAccess == ACCESS_BUCKET)
    ensures WellBuilt(d, shortId)
  {
    var m :| OriginsFrom(m, ings, shared, shortId) && OriginsOf(d.customOrigins, m);
    forall o | o in d.customOrigins
      ensures o.access == ACCESS_PUBLIC || o.IsBucketBased()
      ensures o.IsBucketBased() ==>
        o.oac == NewOAC(shortId, d.group, o.host) && o.oac.name != "" && o.host != d.defaultOrigin.host
    {
      assert OriginFor(m[o.host], LastFor(ings, o.host), PathsFromOrigin(shared, o.host), shortId);
      NamesAreNotEmpty(shortId, d.group, o.host);
    }
  }
}
