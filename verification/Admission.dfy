/** Which reconciliations get to create a distribution, and which stop before they apply anything. */
module Admission {
  import opened Model
  import opened SharedParams
  import opened Compiler
  import opened Reconciler
  import opened DesiredState
  import opened ReconcilerRuns
  import opened DeployedRouting
  import Cf = DistRepository

  // ----- creation

  /** The group has live Ingresses, but no distribution yet. */
  predicate Starts(w: World, k: nat) {
    && k < |w.ingresses| && w.ingresses[k].HasGroup() && w.ingresses[k].group !in w.cloud.dists
    && DesiredIngresses(w.ingresses, w.ingresses[k].group) != []
  }

  /** Creation is not blocked, or the Ingress is exempt, or it is on its way out anyway. */
  predicate MayCreate(i: Ingress, cfg: Config) {
    !cfg.createBlocked || i.name in cfg.createAllowList || i.deleting
  }

  /** Without permission, nothing is written at all. */
  lemma RefusedCreationWritesNothing(w: World, e: Event, cfg: Config, after: World, ok: bool)
    requires Starts(w, e.k) && !MayCreate(w.ingresses[e.k], cfg) && Step(w, e.k, e.cls, cfg, e.x, after, ok)
    ensures after == w && !ok
  {
    var g := w.ingresses[e.k].group;
    var desired :|
      && (Computes(w, e.k, e.x) ==> Desired(w, g, cfg, desired))
      && (after, ok) == Reconciled(w, e.k, e.cls, cfg, desired, e.x);
    if Computes(w, e.k, e.x) && desired.Ok? {
      DesiredDomains(w, g, cfg, desired.value);
    }
  }

  /** The group's Ingresses conflict neither with each other nor with the default origin. */
  ghost predicate WithoutConflict(w: World, g: string, cfg: Config) {
    var ings := DesiredIngresses(w.ingresses, g);
    |ACLs(ings)| <= 1 && Consistent(Mentions(ings)) && !ClashesWithDefault(ings, SettingOf(w, g, cfg))
  }

  lemma DesiredWithoutConflict(w: World, g: string, cfg: Config, r: Result<Distribution>)
    requires Desired(w, g, cfg, r)
    ensures r.Ok? <==> WithoutConflict(w, g, cfg)
  {
    var ings := DesiredIngresses(w.ingresses, g);
    var shared :| SharedFrom(ings, shared) &&
      if shared.Err? then r == Err(shared.error)
      else DistributionFrom(r, ings, shared.value, SettingOf(w, g, cfg), cfg.shortId);
  }

  /**
   * A reconciliation that reads what it needs and whose creation call goes through creates the distribution, switched
   * on, if and only if it may and the Ingresses do not conflict.
   */
  lemma CreatesIffItMay(w: World, e: Event, cfg: Config, after: World, ok: bool)
    requires Starts(w, e.k) && Step(w, e.k, e.cls, cfg, e.x, after, ok)
    requires Computes(w, e.k, e.x) && !e.x.getStatus && !e.x.dist.create
    ensures var g := w.ingresses[e.k].group;
      && (g in after.cloud.dists <==> MayCreate(w.ingresses[e.k], cfg) && WithoutConflict(w, g, cfg))
      && (g in after.cloud.dists ==>
          after.cloud.dists[g].identity == e.x.born && after.cloud.dists[g].config.enabled)
  {
    var g := w.ingresses[e.k].group;
    var desired :| Desired(w, g, cfg, desired) && (after, ok) == Reconciled(w, e.k, e.cls, cfg, desired, e.x);
    DesiredWithoutConflict(w, g, cfg, desired);
    if desired.Ok? {
      AppliedCreates(w, e.k, e.cls, cfg, desired.value, e.x);
    }
  }

  lemma AppliedCreates(w: World, k: nat, cls: Class, cfg: Config, d: Distribution, x: Circumstances)
    requires Starts(w, k) && Desired(w, w.ingresses[k].group, cfg, Ok(d)) && !x.dist.create
    ensures CreationAllowed(d, w.ingresses[k], cfg) <==> MayCreate(w.ingresses[k], cfg)
    ensures var (g, after) := (w.ingresses[k].group, Applied(w, k, cls, cfg, d, x).0);
      g in after.cloud.dists && after.cloud.dists[g].identity == x.born && after.cloud.dists[g].config.enabled
  {
    DesiredDomains(w, w.ingresses[k].group, cfg, d);
    AppliedCloud(w, k, cls, cfg, d, x);
    CreatedIsOn(w.cloud, d, cfg.deletionEnabled, x);
  }

  lemma CreatedIsOn(c: Cf.Cloud, d: Distribution, enabled: bool, x: Circumstances)
    requires !x.dist.create && d.group !in c.dists
    ensures var after := Cf.CreateOutcome(c, d, x.born, enabled, x.ids, x.dist).0;
      d.group in after.dists && after.dists[d.group].identity == x.born && after.dists[d.group].config.enabled
  {
    var created := c.(dists := c.dists[d.group := Cf.RemoteDist(x.born, Cf.NewConfig(d))]);
    var e := d.(id := x.born.id, arn := x.born.arn, address := x.born.address);
    SyncKeepsOn(created, e, enabled, x);
  }

  lemma SyncKeepsOn(c: Cf.Cloud, d: Distribution, enabled: bool, x: Circumstances)
    requires Cf.Present(c, d) && c.dists[d.group].config.enabled
    ensures var after := Cf.SyncOutcome(c, d, enabled, x.ids, x.dist).0;
      && d.group in after.dists && after.dists[d.group].config.enabled
      && after.dists[d.group].identity == c.dists[d.group].identity
  {
    var remote := c.dists[d.group];
    var synced := c.(oacs := Cf.SyncAll(c.oacs, Cf.DesiredOACs(d.customOrigins), x.ids).0);
    var written := synced.(dists := synced.dists[d.group := remote.(config := Cf.WrittenConfig(c, d, x.ids))]);
    DeleteAllKeepsDists(written, Cf.ObsoleteOACs(remote.config.origins, d), enabled, x.dist.oacDeletes);
  }

  /** Only a refused start, a conflict or a failing call stops a reconciliation before it applies the desired state. */
  lemma AppliesUnlessRefused(w: World, e: Event, cfg: Config, after: World, ok: bool) returns (r: Result<Distribution>)
    requires e.k < |w.ingresses| && w.ingresses[e.k].HasGroup() && Identified(w.cloud)
    requires Step(w, e.k, e.cls, cfg, e.x, after, ok) && Computes(w, e.k, e.x) && !e.x.getStatus
    ensures Desired(w, w.ingresses[e.k].group, cfg, r)
    ensures (after, ok) ==
      if r.Err? || (Starts(w, e.k) && !MayCreate(w.ingresses[e.k], cfg)) then (w, false)
      else Applied(w, e.k, e.cls, cfg, r.value, e.x)
  {
    var g := w.ingresses[e.k].group;
    r :| Desired(w, g, cfg, r) && (after, ok) == Reconciled(w, e.k, e.cls, cfg, r, e.x);
    if r.Ok? {
      DesiredDomains(w, g, cfg, r.value);
    }
  }

  /** The Ingress, itself or by a user-supplied origin, names a web ACL. */
  predicate Annotates(i: Ingress) {
    i.webACL != "" || exists u :: u in i.userOrigins && u.unmergedWebACL != ""
  }

  /** The web ACL of the group's distribution is to be kept, because no live Ingress names one. */
  predicate KeepsWebACL(w: World, g: string) {
    && g in w.cloud.dists && w.cloud.dists[g].identity.arn != ""
    && forall i :: i in w.ingresses && IsLive(i, g) ==> !Annotates(i)
  }

  /** The observed configuration has to be readable only where it decides the web ACL; without it nothing is written. */
  lemma ReadsWhatItNeeds(w: World, e: Event, cfg: Config, after: World, ok: bool)
    requires e.k < |w.ingresses| && w.ingresses[e.k].HasGroup() && Step(w, e.k, e.cls, cfg, e.x, after, ok)
    ensures Computes(w, e.k, e.x) <==>
      !e.x.parse && !e.x.list && !e.x.findDist && !(e.x.fetchConfig && KeepsWebACL(w, w.ingresses[e.k].group))
    ensures !Computes(w, e.k, e.x) ==> after == w && !ok
  {
    var g := w.ingresses[e.k].group;
    var ings := DesiredIngresses(w.ingresses, g);
    if acl :| acl in ACLs(ings) {
      var n :| 0 <= n < |ings| && ings[n].unmergedWebACL == acl;
      var i := Contributor(w.ingresses, g, ings[n]);
      assert Annotates(i);
    }
    if i :| i in w.ingresses && IsLive(i, g) && Annotates(i) {
      var c := OwnContribution(w.ingresses, g, i);
      if i.webACL == "" {
        c :| c in i.userOrigins && c.unmergedWebACL != "";
        UserContribution(w.ingresses, g, i, c);
      }
      var n :| 0 <= n < |ings| && ings[n] == c;
      assert c.unmergedWebACL in ACLs(ings);
    }
  }

  /** An Ingress that has lost its group is released, whatever its deletion would have to clean up, and nothing else. */
  lemma GrouplessIsReleased(w: World, e: Event, cfg: Config, after: World, ok: bool)
    requires e.k < |w.ingresses| && w.ingresses[e.k].group == "" && w.ingresses[e.k].finalizer
    requires Step(w, e.k, e.cls, cfg, e.x, after, ok)
    ensures ok <==> !e.x.parse && !e.x.updateIngress
    ensures after.statuses == w.statuses && after.cloud == w.cloud && after.zone == w.zone
    ensures |after.ingresses| == |w.ingresses|
    ensures forall j :: 0 <= j < |w.ingresses| ==>
      after.ingresses[j] == if ok && j == e.k then w.ingresses[j].(finalizer := false) else w.ingresses[j]
  {
  }
}
