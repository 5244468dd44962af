/**
 * A group in which a failed update costs all aliases although no remote call fails: of two bucket hosts with one
 * first label, one is removed. Their access control is still needed, so CloudFront refuses to delete it. With IPv6
 * the loss is permanent.
 */
module SharedLabelExample {
  import opened Model
  import opened PathRules
  import opened Associations
  import opened Functions
  import opened SharedParams
  import opened OriginAccess
  import opened Compiler
  import opened Zone
  import opened CdnStatuses
  import opened Ownership
  import opened AliasDeletion
  import opened Reconciler
  import opened AliasBookkeeping
  import opened ReconcilerRuns
  import opened AccessControlSafety
  import opened FailedUpdates
  import Dns = AliasRepository
  import Cf = DistRepository

  const GROUP := "portal"
  const DOMAIN := "www.example.com"
  const NAME := DOMAIN + "."
  const LABEL := "assets"
  const REMOVED := LABEL + "." + "s3.us-east-1.amazonaws.com"
  const STAYING := LABEL + "." + "s3.eu-central-1.amazonaws.com"
  const PUBLIC := "lb.example.net"
  const DEFAULT := "default.example.net"
  const ADDRESS := "d1.cloudfront.net"
  const ID := "E1"
  const ARN_PREFIX := "arn:aws:cloudfront::1:distribution"
  const ARN := ARN_PREFIX + "/" + ID
  const OAC_NAME := GROUP + "-" + LABEL
  const PATTERN := "/static/*"
  const OLD_PATTERN := "/old/*"

  const CLASS := Class("controller", true)
  const PATHS := [Path(PATTERN, "", EMPTY)]
  const BUCKET := CDNIngress("site", GROUP, STAYING, PATHS, "", [], 0, ACCESS_BUCKET, false)
  const INGRESS := Ingress("site", GROUP, PUBLIC, [], "", [DOMAIN], 0, [BUCKET], false, true)

  function Cfg(shortId: ShortId, v6: bool): Config {
    Config(true, DEFAULT, v6, false, {}, shortId)
  }

  // ----- the world before the update

  function Observed(): seq<Cf.AwsOrigin> {
    [Cf.AwsOrigin(DEFAULT, Some(30), None), Cf.AwsOrigin(PUBLIC, Some(30), None),
     Cf.AwsOrigin(REMOVED, None, Some("1")), Cf.AwsOrigin(STAYING, None, Some("1"))]
  }

  function ObservedConfig(v6: bool): Cf.DistConfig {
    Cf.DistConfig(
      true, v6, [DOMAIN], "", Observed(),
      [CacheBehavior(PATTERN, STAYING, [], []), CacheBehavior(OLD_PATTERN, REMOVED, [], [])])
  }

  function CloudBefore(v6: bool): Cf.Cloud {
    Cf.Cloud(
      map[GROUP := Cf.RemoteDist(Cf.Identity(ID, ARN, ADDRESS), ObservedConfig(v6))], [Cf.OACRecord("1", OAC_NAME)])
  }

  function ZoneBefore(v6: bool): ZoneMap {
    var z := map[Key(NAME, TYPE_A) := Dns.AliasSet(ADDRESS), Key(NAME, TYPE_TXT) := Dns.TxtSet([Own(CLASS)])];
    if v6 then z[Key(NAME, TYPE_AAAA) := Dns.AliasSet(ADDRESS)] else z
  }

  const STATUS :=
    Status(ID, ARN, ADDRESS, [DOMAIN], map["site" := SYNCED_INGRESS_STATUS], Some(DNSStatus([NAME], true)))

  function Before(v6: bool): World {
    World([INGRESS], map[GROUP := STATUS], CloudBefore(v6), ZoneBefore(v6))
  }

  /** No remote call fails. */
  function Quiet(ids: Cf.IdSource): Circumstances {
    Circumstances(
      false, false, false, false, false,
      Cf.Faults(false, false, 9, false, 9, false, false, false, false), Dns.Faults(9, false), Dns.Faults(9, false),
      false, false, false, false, Cf.Identity("E2", ARN_PREFIX + "/E2", "d2.cloudfront.net"), ids)
  }

  /** Ids of different lengths, and longer than the one in use. */
  function NewId(k: nat): string {
    seq(k + 2, _ => '1')
  }

  lemma NewIdsAreFresh(v6: bool)
    ensures FreshIds(CloudBefore(v6).oacs, NewId)
  {
    assert forall k: nat :: |NewId(k)| == k + 2;
    assert forall r :: r in CloudBefore(v6).oacs ==> |r.id| == 1;
  }

  // ----- the code accepts this world

  lemma {:induction false} ExtractedID(prefix: string, id: string)
    requires '/' !in prefix && '/' !in id
    ensures ExtractID(prefix + "/" + id) == Some(id)
  {
    var s := prefix + "/" + id;
    if prefix == "" {
      assert s[1..] == id;
      AllUpToSlash(id);
    } else {
      assert s[1..] == prefix[1..] + "/" + id;
      ExtractedID(prefix[1..], id);
    }
  }

  lemma {:induction false} AllUpToSlash(s: string)
    requires '/' !in s
    ensures UpToSlash(s) == s
  {
    if s != "" {
      AllUpToSlash(s[1..]);
    }
  }

  lemma WorldIsAccepted(v6: bool)
    ensures Accepted(Before(v6))
  {
    ExtractedID(ARN_PREFIX, ID);
    assert Parsed(INGRESS);
  }

  // ----- what is desired

  function PublicOrigin(): Origin {
    Origin(PUBLIC, [], DEFAULT_RESPONSE_TIMEOUT, ACCESS_PUBLIC, NO_OAC)
  }

  function BucketOrigin(shortId: ShortId): Origin {
    Origin(
      STAYING, [Behavior(PATTERN, STAYING, [])], DEFAULT_RESPONSE_TIMEOUT, ACCESS_BUCKET,
      NewOAC(shortId, GROUP, STAYING))
  }

  function Dist(shortId: ShortId, v6: bool): Distribution {
    Distribution(
      ID, ARN, "", [DOMAIN], [PublicOrigin(), BucketOrigin(shortId)], DefaultOrigin(DEFAULT), GROUP, v6, "")
  }

  const INGS := [INGRESS.ToCDN(), BUCKET]
  const KEY := PathKey(PATTERN, "")
  const MERGED: MergedPathMap := map[STAYING := map[KEY := EMPTY]]
  const SHARED := Params("", map[STAYING := PATHS])

  lemma Ingresses()
    ensures DesiredIngresses([INGRESS], GROUP) == INGS
  {
    assert DesiredIngresses([], GROUP) == [];
    assert [INGRESS][..0] == [];
  }

  lemma OneMention()
    ensures Mentions(INGS) == {Mention(STAYING, KEY, EMPTY)} && ACLs(INGS) == {}
  {
    assert INGS[0].unmergedPaths == [] && INGS[1].unmergedPaths == PATHS;
    assert MentionOf(INGS[1], INGS[1].unmergedPaths[0]) == Mention(STAYING, KEY, EMPTY);
  }

  lemma PathsAreShared()
    ensures SharedFrom(INGS, Ok(SHARED))
  {
    var mentions := {Mention(STAYING, KEY, EMPTY)};
    OneMention();
    forall host, key
      ensures Has(MERGED, host, key) <==> Mentioned(mentions, host, key)
    {
      if host == STAYING && key == KEY {
        assert Mention(STAYING, KEY, EMPTY) in mentions;
      }
    }
    assert JoinOf(EMPTY, mentions, STAYING, KEY);
    assert MergeOf(MERGED, mentions);
    forall host
      ensures ListsHost(PathsAt(SHARED.paths, host), MERGED, host)
    {
      assert PathsAt(SHARED.paths, host) == if host == STAYING then PATHS else [];
    }
    assert ListsPaths(SHARED.paths, MERGED);
    MergeOfIsConsistent(MERGED, mentions);
  }

  lemma Hosts()
    ensures forall h :: ContributesHost(INGS, h) <==> h == PUBLIC || h == STAYING
    ensures LastFor(INGS, PUBLIC) == INGRESS.ToCDN() && LastFor(INGS, STAYING) == BUCKET
  {
    assert INGS[0].originHost == PUBLIC && INGS[1].originHost == STAYING;
    assert INGS[..1] == [INGS[0]];
    assert ContributesHost(INGS[..1], PUBLIC);
  }

  lemma BucketBehaviors()
    ensures BehaviorMap(PATHS) == map[PATTERN := []]
    ensures BehaviorsFrom([Behavior(PATTERN, STAYING, [])], STAYING, BehaviorMap(PATHS))
  {
    var none: seq<Function> := [];
    assert PATHS[..0] == [] && [PATTERN][..0] == [];
    assert PatternsOfPath(PATHS[0]) == [PATTERN] && FunctionsOf(PATHS[0].functions) == none;
    assert WithPatterns(map[], [], none) == map[];
    assert WithPatterns(map[], [PATTERN], none) == map[PATTERN := none];
    assert BehaviorMap([]) == map[];
  }

  lemma OriginsAre(shortId: ShortId)
    ensures OriginsFrom(map[PUBLIC := PublicOrigin(), STAYING := BucketOrigin(shortId)], INGS, SHARED, shortId)
  {
    Hosts();
    BucketBehaviors();
    assert PathsFromOrigin(SHARED, PUBLIC) == [] && PathsFromOrigin(SHARED, STAYING) == PATHS;
    assert OriginFor(PublicOrigin(), INGRESS.ToCDN(), [], shortId);
    assert OriginFor(BucketOrigin(shortId), BUCKET, PATHS, shortId);
  }

  lemma IsCompiled(s: Setting, shortId: ShortId, v6: bool)
    requires s == Setting(GROUP, DEFAULT, v6, ID, ARN, "")
    ensures DistributionFrom(Ok(Dist(shortId, v6)), INGS, SHARED, s, shortId)
  {
    OriginsAre(shortId);
    OriginsAreListed(shortId, v6);
    DomainsAre();
    NoClash(s);
    CompiledAs(
      Dist(shortId, v6), INGS, SHARED, s, shortId,
      map[PUBLIC := PublicOrigin(), STAYING := BucketOrigin(shortId)]);
  }

  lemma NoClash(s: Setting)
    requires s.defaultOriginDomain == DEFAULT
    ensures !ClashesWithDefault(INGS, s)
  {
    Hosts();
  }

  lemma CompiledAs(
    d: Distribution, ings: seq<CDNIngress>, shared: Params, s: Setting, shortId: ShortId, m: map<string, Origin>)
    requires !ClashesWithDefault(ings, s) && OriginsFrom(m, ings, shared, shortId) && OriginsOf(d.customOrigins, m)
    requires s.existingARN != ""
    requires d == Distribution(
      s.existingID, s.existingARN, "", AlternateDomains(ings), d.customOrigins, DefaultOrigin(s.defaultOriginDomain),
      s.group, s.ipv6Enabled, DesiredWebACL(shared.webACL, s))
    ensures DistributionFrom(Ok(d), ings, shared, s, shortId)
  {
  }

  lemma OriginsAreListed(shortId: ShortId, v6: bool)
    ensures OriginsOf(
      Dist(shortId, v6).customOrigins, map[PUBLIC := PublicOrigin(), STAYING := BucketOrigin(shortId)])
  {
    var os := Dist(shortId, v6).customOrigins;
    assert os[0] == PublicOrigin() && os[1] == BucketOrigin(shortId);
  }

  lemma DomainsAre()
    ensures AlternateDomains(INGS) == [DOMAIN]
  {
    assert INGS[..1] == [INGS[0]] && INGS[..1][..0] == [];
    assert AppendMissing([], [DOMAIN]) == [DOMAIN] by { assert [DOMAIN][..0] == []; }
    assert AlternateDomains(INGS[..1]) == [DOMAIN];
    assert AppendMissing([DOMAIN], []) == [DOMAIN];
  }

  lemma IsDesired(shortId: ShortId, v6: bool)
    ensures Desired(Before(v6), GROUP, Cfg(shortId, v6), Ok(Dist(shortId, v6)))
  {
    Ingresses();
    PathsAreShared();
    IsCompiled(SettingOf(Before(v6), GROUP, Cfg(shortId, v6)), shortId, v6);
  }

  // ----- the update fails

  lemma {:induction false} LabelComesFirst(head: string, rest: string)
    requires '.' !in head
    ensures FirstLabel(head + "." + rest) == head
  {
    var s := head + "." + rest;
    if head != "" {
      assert s[1..] == head[1..] + "." + rest;
      LabelComesFirst(head[1..], rest);
    }
  }

  lemma OneName(shortId: ShortId)
    ensures OacName(shortId, GROUP, REMOVED) == OacName(shortId, GROUP, STAYING) == OAC_NAME
  {
    LabelComesFirst(LABEL, "s3.us-east-1.amazonaws.com");
    LabelComesFirst(LABEL, "s3.eu-central-1.amazonaws.com");
  }

  lemma DistIsWellBuilt(shortId: ShortId, v6: bool)
    ensures WellBuilt(Dist(shortId, v6), shortId)
  {
    OneName(shortId);
  }

  lemma ObservedIsOwn(shortId: ShortId, v6: bool)
    ensures Cf.Present(CloudBefore(v6), Dist(shortId, v6)) && ObservedOwn(CloudBefore(v6), Dist(shortId, v6), shortId)
    ensures DistinctOACs(CloudBefore(v6).oacs)
  {
    OneName(shortId);
    assert CloudBefore(v6).oacs[0] in CloudBefore(v6).oacs;
  }

  /** The removed host and the staying one share the name, and the access control "1" is obsolete. */
  lemma NameIsShared(shortId: ShortId, v6: bool)
    ensures Cf.Present(CloudBefore(v6), Dist(shortId, v6))
    ensures "1" in Cf.ObsoleteOACs(Observed(), Dist(shortId, v6))
    ensures NameShared(CloudBefore(v6), Dist(shortId, v6), shortId, "1")
  {
    var d := Dist(shortId, v6);
    OneName(shortId);
    ObservedIsOwn(shortId, v6);
    assert Observed()[2] in Observed() && d.customOrigins[1] in d.customOrigins;
    assert !d.HasOrigin(REMOVED);
    ObsoleteMembers(Observed(), d, "1");
  }

  lemma UpdateFails(shortId: ShortId, v6: bool, ids: Cf.IdSource)
    requires FreshIds(CloudBefore(v6).oacs, ids)
    ensures Cf.SyncOutcome(CloudBefore(v6), Dist(shortId, v6), true, ids, Quiet(ids).dist).1.None?
  {
    var d := Dist(shortId, v6);
    DistIsWellBuilt(shortId, v6);
    ObservedIsOwn(shortId, v6);
    NameIsShared(shortId, v6);
    DesiredAreNoMore(d.customOrigins);
    ObsoleteAreNoMore(Observed(), d);
    SyncSucceedsIffNothingNeededIsDeleted(CloudBefore(v6), d, ids, Quiet(ids).dist, shortId);
  }

  lemma {:induction false} DesiredAreNoMore(os: seq<Origin>)
    ensures |Cf.DesiredOACs(os)| <= |os|
  {
    if os != [] {
      DesiredAreNoMore(os[..|os| - 1]);
    }
  }

  lemma {:induction false} ObsoleteAreNoMore(os: seq<Cf.AwsOrigin>, d: Distribution)
    ensures |Cf.ObsoleteOACs(os, d)| <= |os|
  {
    if os != [] {
      ObsoleteAreNoMore(os[..|os| - 1], d);
    }
  }

  // ----- and the aliases go

  lemma NameIsTracked(v6: bool)
    ensures DnsOf(Before(v6), GROUP) == Some(DNSStatus([NAME], true)) && Tracked(DnsOf(Before(v6), GROUP)) == {NAME}
    ensures AllAbsolute({NAME}) && Holds(ZoneBefore(v6), Own(CLASS), NAME) && SingleOwners(ZoneBefore(v6))
    ensures TxtValues(ZoneBefore(v6), NAME) == [Own(CLASS)]
  {
    var z := ZoneBefore(v6);
    assert Own(CLASS) in [Own(CLASS)];
    forall name
      ensures AtMostOneOwner(TxtValues(z, name))
    {
      if name == NAME {
        assert [Own(CLASS)][1..] == [];
      }
    }
  }

  lemma NameIsErasable(es: seq<Dns.Entry>, v6: bool)
    requires es == [Dns.Entry(NAME, [TYPE_A])]
    ensures AllErasable(ZoneBefore(v6), Own(CLASS), es)
  {
    var z, own, e := ZoneBefore(v6), Own(CLASS), es[0];
    NameIsTracked(v6);
    OwnershipValueIsOwnership(CLASS.txtOwnerValue);
    assert Dns.Existing(z, e).addresses == [Dns.AliasSet(ADDRESS)];
    assert Dns.Valid(own, Dns.Existing(z, e));
    assert Erasable(z, own, e);
  }

  lemma AliasStepSucceeds(x: Circumstances, v6: bool)
    requires x.upsert == x.delete == Dns.Faults(9, false)
    ensures SyncAliases(ZoneBefore(v6), DnsOf(Before(v6), GROUP), ZERO_DISTRIBUTION, CLASS, true, x).ok
  {
    var dns := DnsOf(Before(v6), GROUP);
    NameIsTracked(v6);
    assert [NAME][..0] == [];
    assert Deletions([], [NAME]) == [NAME];
    assert ToDelete(dns, ZERO_DISTRIBUTION, true) == [NAME];
    var es := DroppedEntries(dns, CLASS);
    assert Dns.NormalizeDomain(NAME) == NAME;
    assert es == [Dns.Entry(NAME, [TYPE_A])];
    NameIsErasable(es, v6);
    DroppedIffErasable(ZoneBefore(v6), dns, CLASS, x);
  }

  lemma NameIsDesired(shortId: ShortId, v6: bool)
    ensures NAME in NamesOf(Before(v6), GROUP)
  {
    IsDesired(shortId, v6);
    DesiredDomains(Before(v6), GROUP, Cfg(shortId, v6), Dist(shortId, v6));
    NormalizesTo([DOMAIN], 0);
    NormalizedName();
  }

  lemma NormalizedName()
    ensures Dns.NormalizeDomain(DOMAIN) == NAME
  {
    assert DOMAIN[|DOMAIN| - 1] == 'm';
  }

  lemma NormalizesTo(domains: seq<string>, k: nat)
    requires k < |domains|
    ensures Dns.NormalizeDomain(domains[k]) in CdnStatuses.Elements(Dns.NormalizedDomains(domains))
  {
    assert Dns.NormalizedDomains(domains)[k] in Dns.NormalizedDomains(domains);
  }

  /**
   * Reconciling this group without any failing call loses the address and the ownership of a name that it desires
   * and held.
   */
  lemma SharedLabelLosesAliases(shortId: ShortId, v6: bool) returns (after: World)
    ensures Accepted(Before(v6))
    ensures Step(Before(v6), 0, CLASS, Cfg(shortId, v6), Quiet(NewId), after, false)
    ensures NAME in NamesOf(Before(v6), GROUP) && Holds(Before(v6).zone, Own(CLASS), NAME)
    ensures Key(NAME, TYPE_A) !in after.zone && Owned(TxtValues(after.zone, NAME)) == []
    ensures v6 ==> Blocked(after.zone, NAME)
  {
    var d := Dist(shortId, v6);
    WorldIsAccepted(v6);
    IsDesired(shortId, v6);
    NameIsTracked(v6);
    NameIsDesired(shortId, v6);
    NewIdsAreFresh(v6);
    AliasesAreLost(shortId, v6, NewId);
    after := Applied(Before(v6), 0, CLASS, Cfg(shortId, v6), d, Quiet(NewId)).0;
    AppliedStep(Before(v6), Cfg(shortId, v6), d, Quiet(NewId), after);
  }

  lemma AppliedStep(w: World, cfg: Config, d: Distribution, x: Circumstances, after: World)
    requires |w.ingresses| > 0 && w.ingresses[0].HasGroup() && d.Exists()
    requires !x.parse && !x.list && !x.findDist && !x.fetchConfig && !x.getStatus
    requires Desired(w, w.ingresses[0].group, cfg, Ok(d)) && Applied(w, 0, CLASS, cfg, d, x) == (after, false)
    ensures Step(w, 0, CLASS, cfg, x, after, false)
  {
    assert Reconciled(w, 0, CLASS, cfg, Ok(d), x) == (after, false);
  }

  lemma AliasesAreLost(shortId: ShortId, v6: bool, ids: Cf.IdSource)
    requires FreshIds(CloudBefore(v6).oacs, ids)
    ensures var (after, ok) := Applied(Before(v6), 0, CLASS, Cfg(shortId, v6), Dist(shortId, v6), Quiet(ids));
      && !ok && Key(NAME, TYPE_A) !in after.zone && Owned(TxtValues(after.zone, NAME)) == []
      && (v6 ==> Blocked(after.zone, NAME))
  {
    var w, cfg, d, x := Before(v6), Cfg(shortId, v6), Dist(shortId, v6), Quiet(ids);
    UpdateFails(shortId, v6, ids);
    NameIsTracked(v6);
    AliasStepSucceeds(x, v6);
    UpdateIsSync(w.cloud, d, StatusOf(w, GROUP), INGRESS.name, x);
    SyncDistResult(w.cloud, d, StatusOf(w, GROUP), INGRESS.name, true, x);
    FailedUpdateDropsAliases(w, 0, CLASS, cfg, d, x, NAME);
    AppliedCloud(w, 0, CLASS, cfg, d, x);
    FailsToFinish(w, cfg, d, x);
    var zone := Applied(w, 0, CLASS, cfg, d, x).0.zone;
    assert At(zone, Key(NAME, TYPE_AAAA)) == At(w.zone, Key(NAME, TYPE_AAAA));
  }

  lemma FailsToFinish(w: World, cfg: Config, d: Distribution, x: Circumstances)
    requires |w.ingresses| > 0 && !DistStepOf(w, 0, cfg, d, x).ok
    ensures !Applied(w, 0, CLASS, cfg, d, x).1
  {
  }

  /** With IPv6, no run from there ever brings the name back, whoever wants it and whatever users change. */
  lemma SharedLabelBlocksForGood(shortId: ShortId, ws: seq<World>, i: nat, e: Event, next: World)
    returns (after: World)
    ensures Step(Before(true), 0, CLASS, Cfg(shortId, true), Quiet(NewId), after, false)
    ensures AnyRun(ws, Cfg(shortId, true)) && ws[0] == after && i < |ws| ==>
      && Blocked(ws[i].zone, NAME)
      && (WantsName(ws[i], e, NAME) ==> !Step(ws[i], e.k, e.cls, Cfg(shortId, true), e.x, next, true))
  {
    var cfg := Cfg(shortId, true);
    after := SharedLabelLosesAliases(shortId, true);
    if AnyRun(ws, cfg) && ws[0] == after && i < |ws| {
      BlockedForGood(ws, cfg, NAME, i);
      if WantsName(ws[i], e, NAME) && Step(ws[i], e.k, e.cls, cfg, e.x, next, true) {
        SuccessNeedsUnblockedNames(ws[i], e, cfg, next, NAME);
      }
    }
  }
}
