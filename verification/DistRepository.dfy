/**
 * Distributions and origin access controls at CloudFront: internal/cloudfront/repository.go,
 * oac_repository.go, and the parts of aws_models.go that the access controls and the web ACL depend on.
 */
module DistRepository {
  import opened Model
  import opened Specificity
  import opened Functions
  import opened Compiler
  import opened CompiledBehaviors

  /** The read timeout is set for public origins only. */
  datatype AwsOrigin = AwsOrigin(id: string, readTimeout: Option<int>, accessControlId: Option<string>)

  datatype DistConfig = DistConfig(
    enabled: bool,
    ipv6Enabled: bool,
    aliases: seq<string>,
    webACL: string,
    origins: seq<AwsOrigin>,
    behaviors: seq<CacheBehavior>)

  datatype Identity = Identity(id: string, arn: string, address: string)

  datatype RemoteDist = RemoteDist(identity: Identity, config: DistConfig)

  datatype OACRecord = OACRecord(id: string, name: string)

  /** CloudFront: distributions by the group in their tags, and access controls in listing order. */
  datatype Cloud = Cloud(dists: map<string, RemoteDist>, oacs: seq<OACRecord>)

  /** The ids that CloudFront gives to access controls created during one call. */
  type IdSource = nat -> string

  /** Which remote calls of one operation fail; the two counters say how many access controls go through. */
  datatype Faults = Faults(
    getConfig: bool, create: bool, oacSyncs: nat, update: bool, oacDeletes: nat, tag: bool,
    disable: bool, wait: bool, remove: bool)

  // ----- access controls one by one

  predicate IsOAC(r: OACRecord, id: string, name: string) {
    r.id == id || r.name == name
  }

  function FindFrom(oacs: seq<OACRecord>, id: string, name: string, k: nat): (i: nat)
    requires k <= |oacs|
    ensures k <= i <= |oacs|
    ensures i < |oacs| ==> IsOAC(oacs[i], id, name)
    ensures forall j :: k <= j < i ==> !IsOAC(oacs[j], id, name)
    decreases |oacs| - k
  {
    if k == |oacs| || IsOAC(oacs[k], id, name) then k else FindFrom(oacs, id, name, k + 1)
  }

  /** The position of the first access control with the id or the name; the length if there is none. */
  function Find(oacs: seq<OACRecord>, id: string, name: string): nat {
    FindFrom(oacs, id, name, 0)
  }

  /** Updates the access control that is found, or creates one. */
  function SyncOne(oacs: seq<OACRecord>, desired: OAC, newId: string): (seq<OACRecord>, OAC) {
    var i := Find(oacs, desired.id, desired.name);
    if i < |oacs| then
      (oacs[i := OACRecord(oacs[i].id, desired.name)], OAC(oacs[i].id, desired.name, desired.originName))
    else
      (oacs + [OACRecord(newId, desired.name)], OAC(newId, desired.name, desired.originName))
  }

  function SyncAll(oacs: seq<OACRecord>, ds: seq<OAC>, ids: IdSource): (r: (seq<OACRecord>, seq<OAC>))
    ensures |r.1| == |ds|
  {
    if ds == [] then (oacs, [])
    else
      var n := |ds| - 1;
      var (before, synced) := SyncAll(oacs, ds[..n], ids);
      var (after, oac) := SyncOne(before, ds[n], ids(n));
      (after, synced + [oac])
  }

  lemma SyncOneMore(oacs: seq<OACRecord>, ds: seq<OAC>, ids: IdSource, n: nat)
    requires n < |ds|
    ensures var (before, synced) := SyncAll(oacs, ds[..n], ids);
      var (after, oac) := SyncOne(before, ds[n], ids(n));
      SyncAll(oacs, ds[..n + 1], ids) == (after, synced + [oac])
  {
    assert ds[..n + 1][..n] == ds[..n];
  }

  predicate References(config: DistConfig, id: string) {
    exists o :: o in config.origins && o.accessControlId == Some(id)
  }

  predicate InUse(c: Cloud, id: string) {
    exists g :: g in c.dists && References(c.dists[g].config, id)
  }

  /** CloudFront refuses to delete an access control that is in use; one that does not exist is ignored. */
  function DeleteOne(c: Cloud, id: string, enabled: bool): (Cloud, bool) {
    if !enabled then (c, true)
    else
      var i := Find(c.oacs, id, "");
      if i == |c.oacs| then (c, true)
      else if InUse(c, c.oacs[i].id) then (c, false)
      else (c.(oacs := c.oacs[..i] + c.oacs[i + 1..]), true)
  }

  /** Deletes in order until one fails, or until the fault, which comes after `through` of them. */
  function DeleteAll(c: Cloud, ids: seq<string>, enabled: bool, through: nat): (Cloud, bool) {
    if ids == [] then (c, true)
    else
      var n := |ids| - 1;
      var (before, ok) := DeleteAll(c, ids[..n], enabled, through);
      if !ok || (enabled && through <= n) then (before, false) else DeleteOne(before, ids[n], enabled)
  }

  // ----- configurations

  function DesiredOACs(os: seq<Origin>): seq<OAC> {
    if os == [] then []
    else
      var n := |os| - 1;
      DesiredOACs(os[..n]) + if os[n].IsBucketBased() then [os[n].oac] else []
  }

  function NewAwsOrigin(o: Origin): AwsOrigin {
    if o.access == ACCESS_PUBLIC then AwsOrigin(o.host, Some(o.responseTimeout), None)
    else AwsOrigin(o.host, None, Some(o.oac.id))
  }

  function NewAwsOrigins(os: seq<Origin>): (s: seq<AwsOrigin>)
    ensures |s| == |os| && forall k :: 0 <= k < |os| ==> s[k] == NewAwsOrigin(os[k])
  {
    seq(|os|, k requires 0 <= k < |os| => NewAwsOrigin(os[k]))
  }

  function NewCacheBehaviors(bs: seq<Behavior>): (cs: seq<CacheBehavior>)
    ensures |cs| == |bs| && forall k :: 0 <= k < |bs| ==> cs[k] == CacheBehaviorOf(bs[k])
  {
    seq(|bs|, k requires 0 <= k < |bs| => CacheBehaviorOf(bs[k]))
  }

  function NewConfig(d: Distribution): DistConfig {
    DistConfig(
      true, d.ipv6Enabled, d.alternateDomains, d.webACL,
      [NewAwsOrigin(d.defaultOrigin)] + NewAwsOrigins(d.customOrigins),
      NewCacheBehaviors(SortedBehaviors(Gathered(d.customOrigins))))
  }

  method NewAWSDistributionConfig(d: Distribution) returns (config: DistConfig)
    ensures config == NewConfig(d)
  {
    ghost var origins := [NewAwsOrigin(d.defaultOrigin)] + NewAwsOrigins(d.customOrigins);
    var allOrigins := [NewAwsOrigin(d.defaultOrigin)];
    for k := 0 to |d.customOrigins|
      invariant |allOrigins| == k + 1
      invariant forall j :: 0 <= j <= k ==> allOrigins[j] == origins[j]
    {
      assert origins[k + 1] == NewAwsOrigin(d.customOrigins[k]);
      allOrigins := allOrigins + [NewAwsOrigin(d.customOrigins[k])];
    }
    SameElements(allOrigins, origins);

    var allCacheBehaviors := [];
    var sorted := SortedCustomBehaviors(d);
    for k := 0 to |sorted|
      invariant |allCacheBehaviors| == k
      invariant forall j :: 0 <= j < k ==> allCacheBehaviors[j] == CacheBehaviorOf(sorted[j])
    {
      var b := NewCacheBehavior(sorted[k]);
      allCacheBehaviors := allCacheBehaviors + [b];
    }
    SameElements(allCacheBehaviors, NewCacheBehaviors(sorted));
    return DistConfig(true, d.ipv6Enabled, d.alternateDomains, d.webACL, allOrigins, allCacheBehaviors);
  }

  /** The origin with the id of the last synced access control that is meant for it, if there is one. */
  function Attached(o: AwsOrigin, synced: seq<OAC>): AwsOrigin {
    if synced == [] then o
    else
      var n := |synced| - 1;
      if synced[n].originName == o.id then o.(accessControlId := Some(synced[n].id)) else Attached(o, synced[..n])
  }

  function AttachAll(os: seq<AwsOrigin>, synced: seq<OAC>): (s: seq<AwsOrigin>)
    ensures |s| == |os| && forall k :: 0 <= k < |os| ==> s[k] == Attached(os[k], synced)
  {
    seq(|os|, k requires 0 <= k < |os| => Attached(os[k], synced))
  }

  predicate HasOAC(o: AwsOrigin) {
    o.accessControlId.Some? && o.accessControlId.value != ""
  }

  function AllOACs(os: seq<AwsOrigin>): seq<string> {
    if os == [] then []
    else
      var n := |os| - 1;
      AllOACs(os[..n]) + if HasOAC(os[n]) then [os[n].accessControlId.value] else []
  }

  /** The access controls of observed origins that are no longer desired. */
  function ObsoleteOACs(os: seq<AwsOrigin>, d: Distribution): seq<string> {
    if os == [] then []
    else
      var n := |os| - 1;
      ObsoleteOACs(os[..n], d)
      + if HasOAC(os[n]) && !d.HasOrigin(os[n].id) then [os[n].accessControlId.value] else []
  }

  // ----- operations

  predicate Present(c: Cloud, d: Distribution) {
    d.group in c.dists && c.dists[d.group].identity.id == d.id
  }

  function WrittenConfig(c: Cloud, d: Distribution, ids: IdSource): DistConfig {
    var synced := SyncAll(c.oacs, DesiredOACs(d.customOrigins), ids).1;
    NewConfig(d).(origins := AttachAll(NewConfig(d).origins, synced))
  }

  function SyncOutcome(
    c: Cloud, d: Distribution, enabled: bool, ids: IdSource, f: Faults): (Cloud, Option<Distribution>)
  {
    if f.getConfig || !Present(c, d) then (c, None)
    else
      var desired, remote := DesiredOACs(d.customOrigins), c.dists[d.group];
      if f.oacSyncs < |desired| then (c.(oacs := SyncAll(c.oacs, desired[..f.oacSyncs], ids).0), None)
      else
        var synced := c.(oacs := SyncAll(c.oacs, desired, ids).0);
        if f.update then (synced, None)
        else
          var written := synced.(dists := synced.dists[d.group := remote.(config := WrittenConfig(c, d, ids))]);
          var (after, ok) := DeleteAll(written, ObsoleteOACs(remote.config.origins, d), enabled, f.oacDeletes);
          if !ok || f.tag then (after, None)
          else
            var me := remote.identity;
            (after, Some(d.(id := me.id, arn := me.arn, address := me.address)))
  }

  function CreateOutcome(c: Cloud, d: Distribution, born: Identity, enabled: bool, ids: IdSource, f: Faults)
    : (Cloud, Option<Distribution>)
  {
    if f.create then (c, None)
    else
      SyncOutcome(c.(dists := c.dists[d.group := RemoteDist(born, NewConfig(d))]),
                  d.(id := born.id, arn := born.arn, address := born.address), enabled, ids, f)
  }

  /** CloudFront refuses to delete a distribution that is switched on. */
  predicate Refuses(c: Cloud, g: string)
    requires g in c.dists
  {
    c.dists[g].config.enabled
  }

  function DeleteOutcome(c: Cloud, d: Distribution, enabled: bool, f: Faults): (Cloud, bool) {
    if f.getConfig then (c, false)
    else if !Present(c, d) then (c, true)
    else
      var remote := c.dists[d.group];
      if remote.config.enabled && f.disable then (c, false)
      else
        var disabled := c.(dists := c.dists[d.group := remote.(config := remote.config.(enabled := false))]);
        if f.wait || f.remove || Refuses(disabled, d.group) then (disabled, false)
        else
          DeleteAll(
            disabled.(dists := disabled.dists - {d.group}), AllOACs(remote.config.origins), enabled, f.oacDeletes)
  }

  class Repository {
    /** What CloudFront holds. */
    var cloud: Cloud
    const deletionEnabled: bool

    constructor (cloud: Cloud, deletionEnabled: bool)
      ensures this.cloud == cloud && this.deletionEnabled == deletionEnabled
    {
      this.cloud, this.deletionEnabled := cloud, deletionEnabled;
    }

    method GetOAC(id: string, name: string) returns (found: bool, position: nat)
      ensures position == Find(cloud.oacs, id, name) && (found <==> position < |cloud.oacs|)
    {
      found, position := false, 0;
      while position < |cloud.oacs| && !found
        invariant position <= |cloud.oacs|
        invariant Find(cloud.oacs, id, name) == FindFrom(cloud.oacs, id, name, position)
        invariant found ==> position < |cloud.oacs| && IsOAC(cloud.oacs[position], id, name)
        decreases |cloud.oacs| - position, !found
      {
        var item := cloud.oacs[position];
        if item.id == id || item.name == name {
          found := true;
        } else {
          position := position + 1;
        }
      }
    }

    method SyncOAC(desired: OAC, newId: string) returns (oac: OAC)
      modifies this
      ensures cloud == old(cloud).(oacs := SyncOne(old(cloud).oacs, desired, newId).0)
      ensures oac == SyncOne(old(cloud).oacs, desired, newId).1
    {
      var found, i := GetOAC(desired.id, desired.name);
      if found {
        oac := OAC(cloud.oacs[i].id, desired.name, desired.originName);
        cloud := cloud.(oacs := cloud.oacs[i := OACRecord(cloud.oacs[i].id, desired.name)]);
      } else {
        oac := OAC(newId, desired.name, desired.originName);
        cloud := cloud.(oacs := cloud.oacs + [OACRecord(newId, desired.name)]);
      }
    }

    method DeleteOAC(id: string) returns (ok: bool)
      modifies this
      ensures (cloud, ok) == DeleteOne(old(cloud), id, deletionEnabled)
    {
      if !deletionEnabled {
        return true;
      }
      var found, i := GetOAC(id, "");
      if !found {
        return true;
      }
      if InUse(cloud, cloud.oacs[i].id) {
        return false;
      }
      cloud := cloud.(oacs := cloud.oacs[..i] + cloud.oacs[i + 1..]);
      return true;
    }

    /** Replaces every element of the slice by its synced form, in place. */
    method SyncOACs(oacs: array<OAC>, ids: IdSource, f: Faults) returns (ok: bool)
      modifies this, oacs
      ensures ok <==> oacs.Length <= f.oacSyncs
      ensures ok ==> cloud == old(cloud).(oacs := SyncAll(old(cloud).oacs, old(oacs[..]), ids).0)
      ensures ok ==> oacs[..] == SyncAll(old(cloud).oacs, old(oacs[..]), ids).1
      ensures !ok ==> cloud == old(cloud).(oacs := SyncAll(old(cloud).oacs, old(oacs[..])[..f.oacSyncs], ids).0)
    {
      ghost var before, desired := cloud, oacs[..];
      for i := 0 to oacs.Length
        invariant i <= f.oacSyncs
        invariant cloud == before.(oacs := SyncAll(before.oacs, desired[..i], ids).0)
        invariant oacs[..i] == SyncAll(before.oacs, desired[..i], ids).1
        invariant oacs[i..] == desired[i..]
      {
        if f.oacSyncs == i {
          return false;
        }
        assert oacs[i] == oacs[i..][0] == desired[i..][0];
        SyncOneMore(before.oacs, desired, ids, i);
        var synced := SyncOAC(oacs[i], ids(i));
        oacs[i] := synced;
      }
      assert desired[..oacs.Length] == desired && oacs[..oacs.Length] == oacs[..];
      return true;
    }

    method DeleteOACs(ids: seq<string>, f: Faults) returns (ok: bool)
      modifies this
      ensures (cloud, ok) == DeleteAll(old(cloud), ids, deletionEnabled, f.oacDeletes)
    {
      for k := 0 to |ids|
        invariant DeleteAll(old(cloud), ids[..k], deletionEnabled, f.oacDeletes) == (cloud, true)
      {
        DeletePrefixFails(old(cloud), ids, deletionEnabled, f.oacDeletes, k);
        assert ids[..k + 1][..k] == ids[..k];
        if deletionEnabled && f.oacDeletes <= k {
          return false;
        }
        ok := DeleteOAC(ids[k]);
        if !ok {
          return false;
        }
      }
      assert ids[..|ids|] == ids;
      return true;
    }

    method OACs(d: Distribution) returns (result: seq<OAC>)
      ensures result == DesiredOACs(d.customOrigins)
    {
      result := [];
      for k := 0 to |d.customOrigins|
        invariant result == DesiredOACs(d.customOrigins[..k])
      {
        if d.customOrigins[k].IsBucketBased() {
          result := result + [d.customOrigins[k].oac];
        }
        assert d.customOrigins[..k + 1][..k] == d.customOrigins[..k];
      }
      assert d.customOrigins[..|d.customOrigins|] == d.customOrigins;
    }

    method Obsolete(observed: DistConfig, d: Distribution) returns (result: seq<string>)
      ensures result == ObsoleteOACs(observed.origins, d)
    {
      result := [];
      for k := 0 to |observed.origins|
        invariant result == ObsoleteOACs(observed.origins[..k], d)
      {
        var o := observed.origins[k];
        if HasOAC(o) && !d.HasOrigin(o.id) {
          result := result + [o.accessControlId.value];
        }
        assert observed.origins[..k + 1][..k] == observed.origins[..k];
      }
      assert observed.origins[..|observed.origins|] == observed.origins;
    }

    method AttachOACs(config: DistConfig, synced: seq<OAC>) returns (attached: DistConfig)
      ensures attached == config.(origins := AttachAll(config.origins, synced))
    {
      var origins := config.origins;
      for k := 0 to |origins|
        invariant |origins| == |config.origins|
        invariant forall j :: 0 <= j < k ==> origins[j] == Attached(config.origins[j], synced)
        invariant forall j :: k <= j < |origins| ==> origins[j] == config.origins[j]
      {
        var o := origins[k];
        for n := 0 to |synced|
          invariant o == Attached(config.origins[k], synced[..n]) && SameButForOAC(config.origins[k], o)
        {
          if o.id == synced[n].originName {
            o := o.(accessControlId := Some(synced[n].id));
          }
          assert synced[..n + 1][..n] == synced[..n];
          AttachedIgnoresOld(config.origins[k], synced[..n + 1]);
        }
        assert synced[..|synced|] == synced;
        origins := origins[k := o];
      }
      attached := config.(origins := origins);
      assert origins == AttachAll(config.origins, synced);
    }

    method Sync(d: Distribution, ids: IdSource, f: Faults) returns (r: Option<Distribution>)
      modifies this
      ensures (cloud, r) == SyncOutcome(old(cloud), d, deletionEnabled, ids, f)
    {
      var config := NewAWSDistributionConfig(d);
      if f.getConfig || !Present(cloud, d) {
        return None;
      }
      var remote := cloud.dists[d.group];
      var toBeSynced := OACs(d);
      var toBeDeleted := Obsolete(remote.config, d);

      var oacs := new OAC[|toBeSynced|](i requires 0 <= i < |toBeSynced| => toBeSynced[i]);
      assert oacs[..] == toBeSynced;
      var synced := SyncOACs(oacs, ids, f);
      if !synced {
        return None;
      }
      config := AttachOACs(config, oacs[..]);

      if f.update {
        return None;
      }
      cloud := cloud.(dists := cloud.dists[d.group := remote.(config := config)]);

      // access controls are deleted only now that the distribution no longer uses them
      var deleted := DeleteOACs(toBeDeleted, f);
      if !deleted || f.tag {
        return None;
      }
      return Some(d.(id := remote.identity.id, arn := remote.identity.arn, address := remote.identity.address));
    }

    method Create(d: Distribution, born: Identity, ids: IdSource, f: Faults) returns (r: Option<Distribution>)
      modifies this
      ensures (cloud, r) == CreateOutcome(old(cloud), d, born, deletionEnabled, ids, f)
    {
      if f.create {
        return None;
      }
      var config := NewAWSDistributionConfig(d);
      cloud := cloud.(dists := cloud.dists[d.group := RemoteDist(born, config)]);
      r := Sync(d.(id := born.id, arn := born.arn, address := born.address), ids, f);
    }

    method Delete(d: Distribution, f: Faults) returns (ok: bool)
      modifies this
      ensures (cloud, ok) == DeleteOutcome(old(cloud), d, deletionEnabled, f)
    {
      if f.getConfig {
        return false;
      }
      if !Present(cloud, d) {
        return true;
      }
      var remote := cloud.dists[d.group];
      if remote.config.enabled {
        if f.disable {
          return false;
        }
        cloud := cloud.(dists := cloud.dists[d.group := remote.(config := remote.config.(enabled := false))]);
      } else {
        assert remote.config.(enabled := false) == remote.config;
        assert cloud.dists[d.group := remote] == cloud.dists;
      }
      if f.wait {
        return false;
      }
      if f.remove || Refuses(cloud, d.group) {
        return false;
      }
      cloud := cloud.(dists := cloud.dists - {d.group});
      var all := AllOf(remote.config.origins);
      ok := DeleteOACs(all, f);
    }

    method AllOf(origins: seq<AwsOrigin>) returns (result: seq<string>)
      ensures result == AllOACs(origins)
    {
      result := [];
      for k := 0 to |origins|
        invariant result == AllOACs(origins[..k])
      {
        if HasOAC(origins[k]) {
          result := result + [origins[k].accessControlId.value];
        }
        assert origins[..k + 1][..k] == origins[..k];
      }
      assert origins[..|origins|] == origins;
    }
  }

  /** The same origin, possibly with another access control. */
  predicate SameButForOAC(o: AwsOrigin, p: AwsOrigin) {
    p == o.(accessControlId := p.accessControlId)
  }

  lemma {:induction false} AttachedIgnoresOld(o: AwsOrigin, synced: seq<OAC>)
    ensures SameButForOAC(o, Attached(o, synced))
  {
    if synced != [] {
      AttachedIgnoresOld(o, synced[..|synced| - 1]);
    }
  }

  lemma {:induction false} DeletePrefixFails(c: Cloud, ids: seq<string>, enabled: bool, through: nat, k: nat)
    requires k < |ids|
    ensures !DeleteAll(c, ids[..k + 1], enabled, through).1 ==>
      DeleteAll(c, ids, enabled, through) == (DeleteAll(c, ids[..k + 1], enabled, through).0, false)
    decreases |ids|
  {
    var n := |ids| - 1;
    if k < n {
      assert ids[..n][..k + 1] == ids[..k + 1];
      DeletePrefixFails(c, ids[..n], enabled, through, k);
    } else {
      assert ids[..k + 1] == ids;
    }
  }
}
