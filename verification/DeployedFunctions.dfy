/** Which functions CloudFront runs after a successful reconciliation, in terms of the fields of Ingresses. */
module DeployedFunctions {
  import opened Model
  import opened PathRules
  import opened Associations
  import opened Functions
  import opened SharedParams
  import opened CompiledBehaviors
  import opened Reconciler
  import opened DesiredState
  import opened ReconcilerRuns
  import opened DeployedRouting

  /** The path is written as the pattern, and asks for the entry. */
  ghost predicate PathAsks(p: Path, pattern: string, a: Association, edge: bool) {
    WrittenAs(p.pathPattern, p.pathType, pattern) && Asks(p.functions, a, edge)
  }

  /** The Ingress, itself or by a user-supplied origin, has a path of the host that asks for the entry. */
  ghost predicate HasEntry(i: Ingress, host: string, pattern: string, a: Association, edge: bool) {
    || (i.originHost == host && exists p :: p in i.paths && PathAsks(p, pattern, a, edge))
    || (exists u :: u in i.userOrigins && UserEntry(u, host, pattern, a, edge))
  }

  ghost predicate UserEntry(u: CDNIngress, host: string, pattern: string, a: Association, edge: bool) {
    u.originHost == host && exists p :: p in u.unmergedPaths && PathAsks(p, pattern, a, edge)
  }

  ghost predicate GroupHasEntry(
    ingresses: seq<Ingress>, g: string, host: string, pattern: string, a: Association, edge: bool)
  {
    exists i :: i in ingresses && IsLive(i, g) && HasEntry(i, host, pattern, a, edge)
  }

  /** The two lists of a cache behavior hold what paths of its host that are written as its pattern ask for. */
  ghost predicate DeploysEntries(c: CacheBehavior, ingresses: seq<Ingress>, g: string) {
    && (forall a :: a in c.lambdas <==> GroupHasEntry(ingresses, g, c.targetOriginId, c.pathPattern, a, true))
    && (forall a :: a in c.functions <==> GroupHasEntry(ingresses, g, c.targetOriginId, c.pathPattern, a, false))
  }

  /** After a success, every cache behavior runs exactly the functions that live Ingresses configure for it. */
  lemma SuccessDeploysFunctions(w: World, e: Event, cfg: Config, after: World)
    requires e.k < |w.ingresses| && Step(w, e.k, e.cls, cfg, e.x, after, true) && w.ingresses[e.k].HasGroup()
    requires Identified(w.cloud) && DesiredIngresses(w.ingresses, w.ingresses[e.k].group) != []
    ensures var g := w.ingresses[e.k].group;
      && g in after.cloud.dists
      && forall c :: c in after.cloud.dists[g].config.behaviors ==> DeploysEntries(c, w.ingresses, g)
  {
    var g := w.ingresses[e.k].group;
    var ings := DesiredIngresses(w.ingresses, g);
    var bs := SuccessDeploysIngresses(w, e, cfg, after);
    var cs := after.cloud.dists[g].config.behaviors;
    forall c | c in cs
      ensures DeploysEntries(c, w.ingresses, g)
    {
      var k :| 0 <= k < |cs| && cs[k] == c;
      BehaviorDeploysEntries(w.ingresses, g, bs, bs[k]);
    }
  }

  lemma BehaviorDeploysEntries(ingresses: seq<Ingress>, g: string, bs: seq<Behavior>, b: Behavior)
    requires CompiledFrom(bs, DesiredIngresses(ingresses, g)) && b in bs
    ensures DeploysEntries(CacheBehaviorOf(b), ingresses, g)
  {
    var ings := DesiredIngresses(ingresses, g);
    var ps: seq<Path> :|
      MergedPathsOf(ps, Mentions(ings), b.originHost, b.pathPattern) && b.functions == AllFunctions(ps);
    forall a, edge
      ensures a in AssociationsOf(b.functions, edge) <==>
        GroupHasEntry(ingresses, g, b.originHost, b.pathPattern, a, edge)
    {
      EntriesOfPaths(ps, a, edge);
      EntriesOfMentions(ps, Mentions(ings), b.originHost, b.pathPattern, a, edge);
      EntriesOfIngresses(ings, b.originHost, b.pathPattern, a, edge);
      EntriesOfGroup(ingresses, g, b.originHost, b.pathPattern, a, edge);
    }
  }

  predicate SomeAsks(ps: seq<Path>, a: Association, edge: bool) {
    exists p :: p in ps && Asks(p.functions, a, edge)
  }

  lemma {:induction false} EntriesOfPaths(ps: seq<Path>, a: Association, edge: bool)
    ensures a in AssociationsOf(AllFunctions(ps), edge) <==> SomeAsks(ps, a, edge)
  {
    if ps != [] {
      var n := |ps| - 1;
      EntriesOfPaths(ps[..n], a, edge);
      AssociationsConcat(AllFunctions(ps[..n]), FunctionsOf(ps[n].functions), edge);
      EntriesOfFunctions(ps[n].functions, a, edge);
      assert ps == ps[..n] + [ps[n]];
    }
  }

  lemma EntriesOfFunctions(fa: FunctionAssociations, a: Association, edge: bool)
    ensures a in AssociationsOf(FunctionsOf(fa), edge) <==> Asks(fa, a, edge)
  {
    AssociationsMembers(FunctionsOf(fa), edge, a);
    SlotFor(fa, a, edge);
  }

  lemma {:induction false} AssociationsConcat(fs: seq<Function>, gs: seq<Function>, edge: bool)
    ensures AssociationsOf(fs + gs, edge) == AssociationsOf(fs, edge) + AssociationsOf(gs, edge)
    decreases |gs|
  {
    if gs == [] {
      assert fs + gs == fs;
    } else {
      var n := |gs| - 1;
      assert (fs + gs)[..|fs| + n] == fs + gs[..n];
      AssociationsConcat(fs, gs[..n], edge);
    }
  }

  /** Some path of the host that expands to the pattern is mentioned with functions that ask for the entry. */
  ghost predicate MentionAsks(mentions: set<Mention>, host: string, pattern: string, a: Association, edge: bool) {
    exists m :: m in mentions && m.host == host && KeyExpandsTo(m.key, pattern) && Asks(m.functions, a, edge)
  }

  lemma EntriesOfMentions(
    ps: seq<Path>, mentions: set<Mention>, host: string, pattern: string, a: Association, edge: bool)
    requires MergedPathsOf(ps, mentions, host, pattern)
    ensures SomeAsks(ps, a, edge) <==> MentionAsks(mentions, host, pattern, a, edge)
  {
    if p :| p in ps && Asks(p.functions, a, edge) {
      assert HasKey(ps, KeyOf(p));
      var m := JoinAsks(p.functions, mentions, host, KeyOf(p), a, edge);
    }
    if m :| m in mentions && m.host == host && KeyExpandsTo(m.key, pattern) && Asks(m.functions, a, edge) {
      assert Mentioned(mentions, host, m.key) && HasKey(ps, m.key);
      var p :| p in ps && KeyOf(p) == m.key;
      assert Below(m.functions, p.functions);
    }
  }

  /** What the merged functions ask for, one of the mentions asks for. */
  lemma JoinAsks(
    fa: FunctionAssociations, mentions: set<Mention>, host: string, key: PathKey, a: Association, edge: bool)
    returns (m: Mention)
    requires JoinOf(fa, mentions, host, key) && Asks(fa, a, edge)
    ensures m in mentions && m.host == host && m.key == key && Asks(m.functions, a, edge)
  {
    if a.eventType == "viewer-request" {
      m :| m in mentions && m.host == host && m.key == key && m.functions.viewerRequest == fa.viewerRequest;
    } else if a.eventType == "viewer-response" {
      m :| m in mentions && m.host == host && m.key == key && m.functions.viewerResponse == fa.viewerResponse;
    } else if a.eventType == "origin-request" {
      m :| m in mentions && m.host == host && m.key == key && m.functions.originRequest == fa.originRequest;
    } else {
      m :| m in mentions && m.host == host && m.key == key && m.functions.originResponse == fa.originResponse;
    }
  }

  ghost predicate EntryBy(ings: seq<CDNIngress>, host: string, pattern: string, a: Association, edge: bool) {
    exists c, p :: PathOf(ings, c, p) && c.originHost == host && PathAsks(p, pattern, a, edge)
  }

  lemma EntriesOfIngresses(ings: seq<CDNIngress>, host: string, pattern: string, a: Association, edge: bool)
    ensures MentionAsks(Mentions(ings), host, pattern, a, edge) <==> EntryBy(ings, host, pattern, a, edge)
  {
    if m :| m in Mentions(ings) && m.host == host && KeyExpandsTo(m.key, pattern) && Asks(m.functions, a, edge) {
      var i, k :|
        0 <= i < |ings| && 0 <= k < |ings[i].unmergedPaths| && m == MentionOf(ings[i], ings[i].unmergedPaths[k]);
      PatternsAreWritten(RuleOf(m), pattern);
      assert PathOf(ings, ings[i], ings[i].unmergedPaths[k]);
    }
    if c, p :| PathOf(ings, c, p) && c.originHost == host && PathAsks(p, pattern, a, edge) {
      var i :| 0 <= i < |ings| && ings[i] == c;
      var k :| 0 <= k < |c.unmergedPaths| && c.unmergedPaths[k] == p;
      var m := MentionOf(ings[i], ings[i].unmergedPaths[k]);
      PatternsAreWritten(RuleOf(m), pattern);
      assert m in Mentions(ings);
    }
  }

  lemma EntriesOfGroup(ingresses: seq<Ingress>, g: string, host: string, pattern: string, a: Association, edge: bool)
    ensures EntryBy(DesiredIngresses(ingresses, g), host, pattern, a, edge) <==>
      GroupHasEntry(ingresses, g, host, pattern, a, edge)
  {
    var ings := DesiredIngresses(ingresses, g);
    if c, p :| PathOf(ings, c, p) && c.originHost == host && PathAsks(p, pattern, a, edge) {
      var i := Contributor(ingresses, g, c);
      assert c in i.userOrigins ==> UserEntry(c, host, pattern, a, edge);
      assert HasEntry(i, host, pattern, a, edge);
    }
    if i :| i in ingresses && IsLive(i, g) && HasEntry(i, host, pattern, a, edge) {
      var c := OwnContribution(ingresses, g, i);
      if u :| u in i.userOrigins && UserEntry(u, host, pattern, a, edge) {
        UserContribution(ingresses, g, i, u);
        c := u;
      }
      var p :| p in c.unmergedPaths && PathAsks(p, pattern, a, edge);
      assert PathOf(ings, c, p);
    }
  }
}
