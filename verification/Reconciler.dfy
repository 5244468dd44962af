/** The reconciliation of one Ingress: internal/cloudfront/service.go, with every remote call able to fail. */
module Reconciler {
  import opened Model
  import opened Associations
  import opened SharedParams
  import opened OriginAccess
  import opened Compiler
  import opened Zone
  import opened CdnStatuses
  import Dns = AliasRepository
  import Cf = DistRepository

  datatype Class = Class(txtOwnerValue: string, createAlias: bool)

  datatype Config = Config(
    deletionEnabled: bool,
    defaultOriginDomain: string,
    ipv6Enabled: bool,
    createBlocked: bool,
    createAllowList: set<string>,
    shortId: ShortId)

  /** An Ingress as the API server has it, with its annotations parsed. */
  datatype Ingress = Ingress(
    name: string,
    group: string,
    originHost: string,
    paths: seq<Path>,
    webACL: string,
    alternateDomains: seq<string>,
    responseTimeout: int,
    userOrigins: seq<CDNIngress>,
    deleting: bool,
    finalizer: bool)
  {
    predicate HasGroup() {
      group != ""
    }

    predicate IsBeingRemoved() {
      deleting || (!HasGroup() && finalizer)
    }

    function ToCDN(): CDNIngress {
      CDNIngress(
        name, group, originHost, paths, webACL, alternateDomains, responseTimeout, ACCESS_PUBLIC, IsBeingRemoved())
    }
  }

  /** What the parser lets through as a user-supplied origin of an Ingress (internal/k8s/user_origin.go). */
  predicate ParsedUserOrigin(u: CDNIngress, i: Ingress) {
    && u.name == i.name && u.group == i.group && u.alternateDomains == [] && !u.isBeingRemoved
    && u.originHost != "" && u.unmergedPaths != []
    && (u.originAccess == ACCESS_PUBLIC || u.originAccess == ACCESS_BUCKET)
    && forall p :: p in u.unmergedPaths ==> p.pathType == "" && Validate(p.functions)
  }

  predicate Parsed(i: Ingress) {
    forall u :: u in i.userOrigins ==> ParsedUserOrigin(u, i)
  }

  predicate AllParsed(ingresses: seq<Ingress>) {
    forall i :: i in ingresses ==> Parsed(i)
  }

  /** Everything that reconciliations read and write: Kubernetes, CloudFront and the hosted zone. */
  datatype World = World(ingresses: seq<Ingress>, statuses: map<string, Status>, cloud: Cf.Cloud, zone: ZoneMap)

  function AfterSlash(s: string): Option<string> {
    if s == "" then None else if s[0] == '/' then Some(s[1..]) else AfterSlash(s[1..])
  }

  function UpToSlash(s: string): string {
    if s == "" || s[0] == '/' then "" else [s[0]] + UpToSlash(s[1..])
  }

  /** `strings.Split(arn, "/")[1]`; none where that index is out of range. */
  function ExtractID(arn: string): Option<string> {
    var rest := AfterSlash(arn);
    if rest.None? then None else Some(UpToSlash(rest.value))
  }

  /** The id is what comes between the first two slashes, or after the only one. */
  lemma {:induction false} ExtractedID(prefix: string, id: string, more: string)
    requires '/' !in prefix && '/' !in id
    ensures ExtractID(prefix) == None
    ensures ExtractID(prefix + "/" + id) == ExtractID(prefix + "/" + id + "/" + more) == Some(id)
  {
    if prefix == "" {
      UpToFirstSlash(id, more);
      assert ("" + "/" + id)[1..] == id && ("" + "/" + id + "/" + more)[1..] == id + "/" + more;
    } else {
      ExtractedID(prefix[1..], id, more);
      assert (prefix + "/" + id)[1..] == prefix[1..] + "/" + id;
      assert (prefix + "/" + id + "/" + more)[1..] == prefix[1..] + "/" + id + "/" + more;
    }
  }

  lemma {:induction false} UpToFirstSlash(id: string, more: string)
    requires '/' !in id
    ensures UpToSlash(id) == UpToSlash(id + "/" + more) == id
  {
    if id != "" {
      UpToFirstSlash(id[1..], more);
      assert (id + "/" + more)[1..] == id[1..] + "/" + more;
    }
  }

  /** What the code accepts: parsed user origins, and distributions whose ids can be read off their ARNs. */
  predicate Accepted(w: World) {
    && AllParsed(w.ingresses)
    && forall g :: g in w.cloud.dists ==> ExtractID(w.cloud.dists[g].identity.arn) == Some(w.cloud.dists[g].identity.id)
  }

  /** What the outside decides during one reconciliation: which calls fail, and the ids of what is created. */
  datatype Circumstances = Circumstances(
    parse: bool, list: bool, findDist: bool, fetchConfig: bool, getStatus: bool,
    dist: Cf.Faults, upsert: Dns.Faults, delete: Dns.Faults,
    updateIngress: bool, createStatus: bool, updateStatus: bool, deleteStatus: bool,
    born: Cf.Identity, ids: Cf.IdSource)

  // ----- the desired state

  predicate IsPartOfDesiredState(i: CDNIngress, group: string) {
    !i.isBeingRemoved && i.group == group && i.originHost != ""
  }

  function DesiredIngresses(ingresses: seq<Ingress>, group: string): seq<CDNIngress> {
    if ingresses == [] then []
    else
      var n := |ingresses| - 1;
      var i := ingresses[n];
      DesiredIngresses(ingresses[..n], group)
      + if IsPartOfDesiredState(i.ToCDN(), group) then [i.ToCDN()] + i.userOrigins else []
  }

  function SettingOf(w: World, group: string, cfg: Config): Setting {
    if group in w.cloud.dists then
      var d := w.cloud.dists[group];
      Setting(group, cfg.defaultOriginDomain, cfg.ipv6Enabled, d.identity.id, d.identity.arn, d.config.webACL)
    else Setting(group, cfg.defaultOriginDomain, cfg.ipv6Enabled, "", "", "")
  }

  /** r is a result of computing the desired distribution; the order of its origins is not determined. */
  ghost predicate Desired(w: World, group: string, cfg: Config, r: Result<Distribution>) {
    var ings := DesiredIngresses(w.ingresses, group);
    exists shared ::
      && SharedFrom(ings, shared)
      && if shared.Err? then r == Err(shared.error)
         else DistributionFrom(r, ings, shared.value, SettingOf(w, group, cfg), cfg.shortId)
  }

  predicate NeedsCurrentConfig(w: World, group: string) {
    && ACLs(DesiredIngresses(w.ingresses, group)) == {}
    && group in w.cloud.dists && w.cloud.dists[group].identity.arn != ""
  }

  predicate CreationAllowed(d: Distribution, i: Ingress, cfg: Config) {
    d.Exists() || d.IsEmpty() || i.deleting || !cfg.createBlocked || i.name in cfg.createAllowList
  }

  function NewIngressRefs(ings: seq<CDNIngress>): map<string, string> {
    if ings == [] then map[]
    else NewIngressRefs(ings[..|ings| - 1])[ings[|ings| - 1].name := FAILED_INGRESS_STATUS]
  }

  function StatusOf(w: World, group: string): Status {
    if group in w.statuses then w.statuses[group]
    else NEW_STATUS.(ingresses := NewIngressRefs(DesiredIngresses(w.ingresses, group)))
  }

  // ----- the distribution

  const ZERO_DISTRIBUTION := Distribution("", "", "", [], [], Origin("", [], 0, "", NO_OAC), "", false, "")

  datatype DistStep = DistStep(cloud: Cf.Cloud, dist: Distribution, status: Status, ok: bool)

  function UpsertDist(c: Cf.Cloud, d: Distribution, enabled: bool, x: Circumstances): (Cf.Cloud, Option<Distribution>) {
    if d.Exists() then Cf.SyncOutcome(c, d, enabled, x.ids, x.dist)
    else Cf.CreateOutcome(c, d, x.born, enabled, x.ids, x.dist)
  }

  function SyncDist(c: Cf.Cloud, d: Distribution, s: Status, ref: string, enabled: bool, x: Circumstances): DistStep {
    if d.IsEmpty() then
      if !d.Exists() || !enabled then DistStep(c, d, s, true)
      else
        var (after, ok) := Cf.DeleteOutcome(c, d, enabled, x.dist);
        DistStep(after, d, s, ok)
    else
      var (after, r) := UpsertDist(c, d, enabled, x);
      var noted := s.(ingresses := s.ingresses[ref := StatusText(r.Some?)]);
      if r.None? then DistStep(after, ZERO_DISTRIBUTION, noted, false)
      else
        var e := r.value;
        DistStep(after, e, noted.(id := e.id, arn := e.arn, address := e.address, aliases := e.alternateDomains), true)
  }

  // ----- the aliases

  function Deletions(desired: seq<string>, current: seq<string>): seq<string> {
    if current == [] then []
    else
      var n := |current| - 1;
      Deletions(desired, current[..n]) + if current[n] in desired then [] else [current[n]]
  }

  function ToDelete(dns: Option<DNSStatus>, dist: Distribution, enabled: bool): seq<string> {
    if dns.None? || !enabled then [] else Deletions(Dns.NormalizedDomains(dist.alternateDomains), dns.value.records)
  }

  function UpsertingAliases(dist: Distribution, cls: Class): Dns.Aliases {
    Dns.AliasesFor(dist.address, cls.txtOwnerValue, dist.alternateDomains, dist.ipv6Enabled)
  }

  function DeletingAliases(dns: Option<DNSStatus>, dist: Distribution, cls: Class, enabled: bool): Dns.Aliases {
    Dns.AliasesFor(dist.address, cls.txtOwnerValue, ToDelete(dns, dist, enabled), dist.ipv6Enabled)
  }

  datatype DnsStep = DnsStep(zone: ZoneMap, dns: Option<DNSStatus>, ok: bool)

  function SyncWith(
    z: ZoneMap, dns: Option<DNSStatus>, upserting: Dns.Aliases, deleting: Dns.Aliases,
    f: Dns.Faults, g: Dns.Faults): DnsStep
  {
    var (z1, ok1) := Dns.UpsertOutcome(z, upserting, f);
    var dns1 := if ok1 then WithDNSRecords(dns, Dns.DomainsOf(upserting)) else dns;
    var (z2, ok2) := Dns.DeleteOutcome(z1, deleting, g);
    var dns2 := if ok2 then WithoutDNSRecords(dns1, Dns.DomainsOf(deleting)) else dns1;
    if ok1 && ok2 then DnsStep(z2, dns2, true) else DnsStep(z2, WithDNSSync(dns2, false), false)
  }

  function SyncAliases(
    z: ZoneMap, dns: Option<DNSStatus>, dist: Distribution, cls: Class, enabled: bool, x: Circumstances): DnsStep
  {
    SyncWith(z, dns, UpsertingAliases(dist, cls), DeletingAliases(dns, dist, cls, enabled), x.upsert, x.delete)
  }

  // ----- finalizer and status

  function WithFinalizer(w: World, k: nat, present: bool): World
    requires k < |w.ingresses|
  {
    w.(ingresses := w.ingresses[k := w.ingresses[k].(finalizer := present)])
  }

  function WriteStatus(w: World, group: string, s: Status, x: Circumstances): (World, bool) {
    if group !in w.statuses && x.createStatus then (w, false)
    else if x.updateStatus then
      (if group in w.statuses then w else w.(statuses := w.statuses[group := NEW_STATUS]), false)
    else (w.(statuses := w.statuses[group := s]), true)
  }

  function DeleteStatus(w: World, group: string, x: Circumstances): (World, bool) {
    if x.deleteStatus then (w, false) else (w.(statuses := w.statuses - {group}), true)
  }

  function Finish(w: World, k: nat, d: Distribution, s: Status, synced: bool, x: Circumstances): (World, bool)
    requires k < |w.ingresses|
  {
    var i := w.ingresses[k];
    var present := !synced || !i.IsBeingRemoved();
    var w1 := if x.updateIngress then w else WithFinalizer(w, k, present);
    var ok := synced && !x.updateIngress;
    var s1 := if ok && i.(finalizer := present).IsBeingRemoved() then s.(ingresses := s.ingresses - {i.name}) else s;
    var (w2, written) := if ok && d.IsEmpty() then DeleteStatus(w1, i.group, x) else WriteStatus(w1, i.group, s1, x);
    (w2, ok && written)
  }

  // ----- one reconciliation

  function DistStepOf(w: World, k: nat, cfg: Config, d: Distribution, x: Circumstances): DistStep
    requires k < |w.ingresses|
  {
    var i := w.ingresses[k];
    SyncDist(w.cloud, d, StatusOf(w, i.group), i.name, cfg.deletionEnabled, x)
  }

  function DnsStepOf(z: ZoneMap, dist: DistStep, cls: Class, cfg: Config, x: Circumstances): DnsStep {
    if cls.createAlias then SyncAliases(z, dist.status.dns, dist.dist, cls, cfg.deletionEnabled, x)
    else DnsStep(z, dist.status.dns, true)
  }

  /** Bringing the desired distribution about: CloudFront, then the aliases, then finalizer and status. */
  function Applied(w: World, k: nat, cls: Class, cfg: Config, d: Distribution, x: Circumstances): (World, bool)
    requires k < |w.ingresses|
  {
    var dist := DistStepOf(w, k, cfg, d, x);
    var dns := DnsStepOf(w.zone, dist, cls, cfg, x);
    Finish(w.(cloud := dist.cloud, zone := dns.zone), k, d, dist.status.(dns := dns.dns), dist.ok && dns.ok, x)
  }

  /** Reconciling the k-th Ingress, given the outcome of computing the desired distribution. */
  function Reconciled(w: World, k: nat, cls: Class, cfg: Config, desired: Result<Distribution>, x: Circumstances)
    : (World, bool)
    requires k < |w.ingresses|
  {
    var i := w.ingresses[k];
    if x.parse then (w, false)
    else if i.finalizer && !i.HasGroup() then
      if x.updateIngress then (w, false) else (WithFinalizer(w, k, false), true)
    else if x.list || x.findDist || (x.fetchConfig && NeedsCurrentConfig(w, i.group)) || desired.Err? then (w, false)
    else
      var d := desired.value;
      if !CreationAllowed(d, i, cfg) || x.getStatus then (w, false) else Applied(w, k, cls, cfg, d, x)
  }

  /** The reconciliation gets as far as a desired distribution. */
  predicate Computes(w: World, k: nat, x: Circumstances)
    requires k < |w.ingresses|
  {
    var i := w.ingresses[k];
    && !x.parse && !(i.finalizer && !i.HasGroup())
    && !x.list && !x.findDist && !(x.fetchConfig && NeedsCurrentConfig(w, i.group))
  }

  ghost predicate Step(w: World, k: nat, cls: Class, cfg: Config, x: Circumstances, after: World, ok: bool)
    requires k < |w.ingresses|
  {
    exists desired ::
      && (Computes(w, k, x) ==> Desired(w, w.ingresses[k].group, cfg, desired))
      && (after, ok) == Reconciled(w, k, cls, cfg, desired, x)
  }

  class Service {
    var ingresses: seq<Ingress>
    var statuses: map<string, Status>
    const config: Config
    const distRepo: Cf.Repository
    const aliasRepo: Dns.Repository

    ghost predicate Valid()
    {
      distRepo.deletionEnabled == config.deletionEnabled
    }

    function Now(): World
      reads this, distRepo, aliasRepo
    {
      World(ingresses, statuses, distRepo.cloud, aliasRepo.zone)
    }

    constructor (w: World, config: Config)
      ensures Valid() && Now() == w && this.config == config
      ensures fresh(distRepo) && fresh(aliasRepo)
    {
      this.config := config;
      ingresses, statuses := w.ingresses, w.statuses;
      distRepo := new Cf.Repository(w.cloud, config.deletionEnabled);
      aliasRepo := new Dns.Repository(w.zone);
    }

    method FetchDesiredIngresses(group: string) returns (result: seq<CDNIngress>)
      ensures result == DesiredIngresses(ingresses, group)
    {
      result := [];
      for k := 0 to |ingresses|
        invariant result == DesiredIngresses(ingresses[..k], group)
      {
        var ing := ingresses[k].ToCDN();
        if IsPartOfDesiredState(ing, group) {
          result := result + ([ing] + ingresses[k].userOrigins);
        }
        assert ingresses[..k + 1][..k] == ingresses[..k];
      }
      assert ingresses[..|ingresses|] == ingresses;
    }

    /** Computes the desired distribution from the Ingresses; None stands for a failed remote call. */
    method DesiredState(group: string, x: Circumstances) returns (r: Option<Result<Distribution>>)
      ensures r.None? ==> x.list || x.findDist || (x.fetchConfig && NeedsCurrentConfig(Now(), group))
      ensures r.Some? ==> Desired(Now(), group, config, r.value)
      ensures r.Some? && r.value.Ok? ==> !x.list && !x.findDist && !(x.fetchConfig && NeedsCurrentConfig(Now(), group))
    {
      if x.list {
        return None;
      }
      var ings := FetchDesiredIngresses(group);
      var shared := NewSharedIngressParams(ings);
      if shared.Err? {
        assert SharedFrom(ings, shared);
        return Some(Err(shared.error));
      }
      if x.findDist {
        return None;
      }
      var setting := SettingOf(Now(), group, config);
      if |shared.value.webACL| == 0 && |setting.existingARN| > 0 && x.fetchConfig {
        return None;
      }
      var d := NewDistribution(ings, shared.value, setting, config.shortId);
      return Some(d);
    }

    method SyncDistribution(d: Distribution, status: CDNStatus, ref: string, x: Circumstances)
      returns (existing: Distribution, ok: bool)
      requires Valid()
      modifies distRepo, status
      ensures DistStep(distRepo.cloud, existing, status.Value(), ok)
        == SyncDist(old(distRepo.cloud), d, old(status.Value()), ref, config.deletionEnabled, x)
    {
      if d.IsEmpty() {
        existing, ok := d, true;
        if d.Exists() && config.deletionEnabled {
          ok := distRepo.Delete(d, x.dist);
        }
        return;
      }
      var r: Option<Distribution>;
      if d.Exists() {
        r := distRepo.Sync(d, x.ids, x.dist);
      } else {
        r := distRepo.Create(d, x.born, x.ids, x.dist);
      }
      status.SetIngressRef(r.Some?, ref);
      if r.Some? {
        status.SetInfo(r.value.id, r.value.arn, r.value.address);
        status.SetAliases(r.value.alternateDomains);
        return r.value, true;
      }
      return ZERO_DISTRIBUTION, false;
    }

    method GetDeletions(desired: seq<string>, current: seq<string>) returns (toDelete: seq<string>)
      ensures toDelete == Deletions(desired, current)
    {
      toDelete := [];
      for k := 0 to |current|
        invariant toDelete == Deletions(desired, current[..k])
      {
        if current[k] !in desired {
          toDelete := toDelete + [current[k]];
        }
        assert current[..k + 1][..k] == current[..k];
      }
      assert current[..|current|] == current;
    }

    method NewAliases(dist: Distribution, dns: Option<DNSStatus>, cls: Class)
      returns (toUpsert: Dns.Aliases, toDelete: Dns.Aliases)
      ensures toUpsert == UpsertingAliases(dist, cls)
      ensures toDelete == DeletingAliases(dns, dist, cls, config.deletionEnabled)
      ensures Dns.ValidEntries(toUpsert.entries) && Dns.ValidEntries(toDelete.entries)
    {
      var deleting := [];
      if dns.Some? {
        var desired := Dns.NormalizeDomains(dist.alternateDomains);
        deleting := GetDeletions(desired, dns.value.records);
      }
      if !config.deletionEnabled {
        deleting := [];
      }
      toUpsert := Dns.NewAliases(dist.address, cls.txtOwnerValue, dist.alternateDomains, dist.ipv6Enabled);
      toDelete := Dns.NewAliases(dist.address, cls.txtOwnerValue, deleting, dist.ipv6Enabled);
    }

    method SyncDistAliases(status: CDNStatus, dist: Distribution, cls: Class, x: Circumstances) returns (ok: bool)
      modifies aliasRepo, status
      ensures DnsStep(aliasRepo.zone, status.dns, ok)
        == SyncAliases(old(aliasRepo.zone), old(status.dns), dist, cls, config.deletionEnabled, x)
      ensures status.Value() == old(status.Value()).(dns := status.dns)
    {
      var toUpsert, toDelete := NewAliases(dist, status.dns, cls);
      var upserted := aliasRepo.Upsert(toUpsert, x.upsert);
      if upserted {
        status.UpsertDNSRecords(Dns.DomainsOf(toUpsert));
      }
      var deleted := aliasRepo.Delete(toDelete, x.delete);
      if deleted {
        status.RemoveDNSRecords(Dns.DomainsOf(toDelete));
      }
      if !upserted || !deleted {
        status.SetDNSSync(false);
      }
      return upserted && deleted;
    }

    method ReconcileFinalizer(k: nat, shouldHaveFinalizer: bool, fails: bool) returns (ok: bool)
      requires k < |ingresses|
      modifies this`ingresses
      ensures ok == !fails
      ensures Now() == if fails then old(Now()) else WithFinalizer(old(Now()), k, shouldHaveFinalizer)
    {
      if fails {
        return false;
      }
      ingresses := ingresses[k := ingresses[k].(finalizer := shouldHaveFinalizer)];
      return true;
    }

    method UpsertCDNStatus(group: string, status: CDNStatus, x: Circumstances) returns (ok: bool)
      modifies this`statuses
      ensures (Now(), ok) == WriteStatus(old(Now()), group, status.Value(), x)
    {
      if group !in statuses {
        // creation does not write the status part
        if x.createStatus {
          return false;
        }
        statuses := statuses[group := NEW_STATUS];
      }
      if x.updateStatus {
        return false;
      }
      assert statuses[group := status.Value()] == old(statuses)[group := status.Value()];
      statuses := statuses[group := status.Value()];
      return true;
    }

    method FetchOrGenerateCDNStatus(group: string) returns (status: CDNStatus)
      ensures fresh(status) && status.Value() == StatusOf(Now(), group)
    {
      if group in statuses {
        status := new CDNStatus(statuses[group]);
        return;
      }
      var ings := FetchDesiredIngresses(group);
      status := new CDNStatus(NEW_STATUS);
      for k := 0 to |ings|
        invariant fresh(status) && status.Value() == NEW_STATUS.(ingresses := NewIngressRefs(ings[..k]))
      {
        status.SetIngressRef(false, ings[k].name);
        assert ings[..k + 1][..k] == ings[..k];
      }
      assert ings[..|ings|] == ings;
    }

    method Reconcile(k: nat, cls: Class, x: Circumstances) returns (ok: bool)
      requires Valid() && k < |ingresses|
      modifies this, distRepo, aliasRepo
      ensures Step(old(Now()), k, cls, config, x, Now(), ok)
    {
      ghost var before := Now();
      var ing := ingresses[k];
      if x.parse {
        NothingComputed(before, k, cls, config, x);
        return false;
      }
      if ing.finalizer && !ing.HasGroup() {
        NothingComputed(before, k, cls, config, x);
        ok := ReconcileFinalizer(k, false, x.updateIngress);
        return;
      }
      var desired := DesiredState(ing.group, x);
      if desired.None? {
        NothingComputed(before, k, cls, config, x);
        return false;
      }
      if desired.value.Err? {
        assert Reconciled(before, k, cls, config, desired.value, x) == (before, false);
        return false;
      }
      var d := desired.value.value;
      if !CreationAllowed(d, ing, config) {
        assert Reconciled(before, k, cls, config, desired.value, x) == (before, false);
        return false;
      }
      if x.getStatus {
        return false;
      }
      ok := Apply(k, d, cls, x);
    }

    method Apply(k: nat, d: Distribution, cls: Class, x: Circumstances) returns (ok: bool)
      requires Valid() && k < |ingresses|
      modifies this, distRepo, aliasRepo
      ensures (Now(), ok) == Applied(old(Now()), k, cls, config, d, x)
    {
      var ing := ingresses[k];
      var status := FetchOrGenerateCDNStatus(ing.group);
      var existing, distOk := SyncDistribution(d, status, ing.name, x);
      var dnsOk := true;
      if cls.createAlias {
        dnsOk := SyncDistAliases(status, existing, cls, x);
      }
      ok := Conclude(k, d, status, distOk && dnsOk, x);
    }

    method Conclude(k: nat, d: Distribution, status: CDNStatus, synced: bool, x: Circumstances) returns (ok: bool)
      requires k < |ingresses|
      modifies this, status
      ensures (Now(), ok) == Finish(old(Now()), k, d, old(status.Value()), synced, x)
    {
      var ing := ingresses[k];
      var shouldHaveFinalizer := !synced || !ing.IsBeingRemoved();
      ok := ReconcileFinalizer(k, shouldHaveFinalizer, x.updateIngress);
      ok := ok && synced;
      ing := ing.(finalizer := shouldHaveFinalizer);
      if ok && ing.IsBeingRemoved() {
        status.RemoveIngressRef(ing.name);
      }
      if ok && d.IsEmpty() {
        if x.deleteStatus {
          return false;
        }
        statuses := statuses - {ing.group};
      } else {
        var written := UpsertCDNStatus(ing.group, status, x);
        ok := ok && written;
      }
    }
  }

  /** No fixed result is needed where the desired distribution is not computed. */
  lemma NothingComputed(w: World, k: nat, cls: Class, cfg: Config, x: Circumstances)
    requires k < |w.ingresses| && !Computes(w, k, x)
    ensures var (after, ok) := Reconciled(w, k, cls, cfg, Err(ConflictingOrigins), x);
      Step(w, k, cls, cfg, x, after, ok)
  {
  }
}
