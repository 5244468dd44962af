/** What several Ingresses of a group configure together: internal/k8s/ingress.go. */
module SharedParams {
  import opened Model
  import opened Associations

  datatype Path = Path(pathPattern: string, pathType: string, functions: FunctionAssociations)

  /** A `Path` used as a map key, with empty function associations. */
  datatype PathKey = PathKey(pathPattern: string, pathType: string)

  datatype CDNIngress = CDNIngress(
    name: string,
    group: string,
    originHost: string,
    unmergedPaths: seq<Path>,
    unmergedWebACL: string,
    alternateDomains: seq<string>,
    responseTimeout: int,
    originAccess: string,
    isBeingRemoved: bool)

  type MergedPathMap = map<string, map<PathKey, FunctionAssociations>>

  datatype Params = Params(webACL: string, paths: map<string, seq<Path>>)

  function PathsFromOrigin(p: Params, host: string): seq<Path> {
    PathsAt(p.paths, host)
  }

  function PathsAt(paths: map<string, seq<Path>>, host: string): seq<Path> {
    if host in paths then paths[host] else []
  }

  // ----- what the Ingresses say, regardless of how they are listed

  /** A path of an Ingress, with the origin host it is meant for. */
  datatype Mention = Mention(host: string, key: PathKey, functions: FunctionAssociations)

  function MentionOf(ing: CDNIngress, p: Path): Mention {
    Mention(ing.originHost, PathKey(p.pathPattern, p.pathType), p.functions)
  }

  function Mentions(ings: seq<CDNIngress>): set<Mention> {
    set i, k | 0 <= i < |ings| && 0 <= k < |ings[i].unmergedPaths| :: MentionOf(ings[i], ings[i].unmergedPaths[k])
  }

  predicate SameKey(a: Mention, b: Mention) {
    a.host == b.host && a.key == b.key
  }

  /** Whatever is configured for a path of a host is configured in one way. */
  ghost predicate Consistent(mentions: set<Mention>) {
    forall a, b :: a in mentions && b in mentions && SameKey(a, b) ==> Compatible(a.functions, b.functions)
  }

  ghost predicate Has(m: MergedPathMap, host: string, key: PathKey) {
    host in m && key in m[host]
  }

  ghost predicate Mentioned(mentions: set<Mention>, host: string, key: PathKey) {
    exists a :: a in mentions && a.host == host && a.key == key
  }

  /** fa configures what the mentions of the path configure, and each of its slots comes from one of them. */
  ghost predicate JoinOf(fa: FunctionAssociations, mentions: set<Mention>, host: string, key: PathKey) {
    && (forall a :: a in mentions && a.host == host && a.key == key ==> Below(a.functions, fa))
    && (fa.viewerRequest.Some? ==>
        exists a :: a in mentions && a.host == host && a.key == key && a.functions.viewerRequest == fa.viewerRequest)
    && (fa.viewerResponse.Some? ==>
        exists a :: a in mentions && a.host == host && a.key == key && a.functions.viewerResponse == fa.viewerResponse)
    && (fa.originRequest.Some? ==>
        exists a :: a in mentions && a.host == host && a.key == key && a.functions.originRequest == fa.originRequest)
    && (fa.originResponse.Some? ==>
        exists a :: a in mentions && a.host == host && a.key == key && a.functions.originResponse == fa.originResponse)
  }

  ghost predicate MergeOf(m: MergedPathMap, mentions: set<Mention>) {
    && (forall host, key :: Has(m, host, key) <==> Mentioned(mentions, host, key))
    && (forall host, key :: Has(m, host, key) ==> JoinOf(m[host][key], mentions, host, key))
  }

  // ----- merging step by step

  lemma JoinIsUnique(
    fa: FunctionAssociations, fb: FunctionAssociations, mentions: set<Mention>, host: string, key: PathKey)
    requires JoinOf(fa, mentions, host, key) && JoinOf(fb, mentions, host, key)
    ensures fa == fb
  {
  }

  lemma JoinWithNew(fa: FunctionAssociations, mentions: set<Mention>, a: Mention)
    requires JoinOf(fa, mentions, a.host, a.key)
    ensures Compatible(fa, a.functions) ==> JoinOf(Joined(fa, a.functions), mentions + {a}, a.host, a.key)
    ensures !Compatible(fa, a.functions) ==> !Consistent(mentions + {a})
  {
    var all := mentions + {a};
    forall b | b in mentions && SameKey(a, b) && Consistent(all)
      ensures Compatible(a.functions, b.functions)
    {
      assert b in all && a in all;
    }
  }

  lemma MergeOfIsConsistent(m: MergedPathMap, mentions: set<Mention>)
    requires MergeOf(m, mentions)
    ensures Consistent(mentions)
  {
    forall a, b | a in mentions && b in mentions && SameKey(a, b)
      ensures Compatible(a.functions, b.functions)
    {
      assert Mentioned(mentions, a.host, a.key);
      assert JoinOf(m[a.host][a.key], mentions, a.host, a.key);
    }
  }

  function Put(m: MergedPathMap, host: string, key: PathKey, fa: FunctionAssociations): MergedPathMap
    requires host in m
  {
    m[host := m[host][key := fa]]
  }

  lemma MergeOfNewKey(m: MergedPathMap, mentions: set<Mention>, a: Mention)
    requires MergeOf(m, mentions) && a.host in m && !Has(m, a.host, a.key)
    ensures MergeOf(Put(m, a.host, a.key, a.functions), mentions + {a})
  {
    var m', all := Put(m, a.host, a.key, a.functions), mentions + {a};
    assert !Mentioned(mentions, a.host, a.key);
    forall host, key
      ensures Has(m', host, key) <==> Mentioned(all, host, key)
      ensures Has(m', host, key) ==> JoinOf(m'[host][key], all, host, key)
    {
      MentionedWith(mentions, a, host, key);
      if (host, key) != (a.host, a.key) && Has(m', host, key) {
        JoinUnaffected(m[host][key], mentions, a, host, key);
      } else if Has(m', host, key) {
        assert a in all;
      }
    }
  }

  lemma MergeOfKnownKey(m: MergedPathMap, mentions: set<Mention>, a: Mention)
    requires MergeOf(m, mentions) && Has(m, a.host, a.key) && Compatible(m[a.host][a.key], a.functions)
    ensures MergeOf(Put(m, a.host, a.key, Joined(m[a.host][a.key], a.functions)), mentions + {a})
  {
    var m', all := Put(m, a.host, a.key, Joined(m[a.host][a.key], a.functions)), mentions + {a};
    forall host, key
      ensures Has(m', host, key) <==> Mentioned(all, host, key)
      ensures Has(m', host, key) ==> JoinOf(m'[host][key], all, host, key)
    {
      MentionedWith(mentions, a, host, key);
      if (host, key) != (a.host, a.key) && Has(m', host, key) {
        JoinUnaffected(m[host][key], mentions, a, host, key);
      } else if Has(m', host, key) {
        JoinWithNew(m[a.host][a.key], mentions, a);
      }
    }
  }

  lemma MentionedWith(mentions: set<Mention>, a: Mention, host: string, key: PathKey)
    ensures Mentioned(mentions + {a}, host, key) <==> Mentioned(mentions, host, key) || (host, key) == (a.host, a.key)
  {
    if Mentioned(mentions, host, key) {
      var b :| b in mentions && b.host == host && b.key == key;
      assert b in mentions + {a};
    }
    assert a in mentions + {a};
  }

  lemma JoinUnaffected(fa: FunctionAssociations, mentions: set<Mention>, a: Mention, host: string, key: PathKey)
    requires JoinOf(fa, mentions, host, key) && (host, key) != (a.host, a.key)
    ensures JoinOf(fa, mentions + {a}, host, key)
  {
    assert forall b :: b in mentions ==> b in mentions + {a};
  }

  /**
   * If every mention of a path is valid, what they configure together is valid if and only if every mentioned
   * viewer request fits every mentioned viewer response.
   */
  lemma JoinOfValid(fa: FunctionAssociations, mentions: set<Mention>, host: string, key: PathKey)
    requires JoinOf(fa, mentions, host, key)
    requires forall a :: a in mentions && a.host == host && a.key == key ==> Validate(a.functions)
    ensures Validate(fa) <==>
      forall a, b :: a in mentions && b in mentions && a.host == host && b.host == host && a.key == key && b.key == key
        ==> RequestFits(a.functions, b.functions)
  {
  }

  // ----- merging in loops

  method MergedPaths(ings: seq<CDNIngress>) returns (r: Result<MergedPathMap>)
    ensures r.Ok? <==> Consistent(Mentions(ings))
    ensures r.Ok? ==> MergeOf(r.value, Mentions(ings))
    ensures r.Err? ==> r.error == ConflictingAssociations
  {
    var merged: MergedPathMap := map[];
    ghost var seen: set<Mention> := {};
    for i := 0 to |ings|
      invariant MergeOf(merged, seen)
      invariant seen == MentionsUpTo(ings, i, 0)
    {
      var ing := ings[i];
      if ing.originHost !in merged {
        var extended := merged[ing.originHost := map[]];
        assert forall host, key :: Has(extended, host, key) <==> Has(merged, host, key);
        merged := extended;
      }
      for k := 0 to |ing.unmergedPaths|
        invariant ing.originHost in merged
        invariant MergeOf(merged, seen)
        invariant seen == MentionsUpTo(ings, i, k)
      {
        var p := ing.unmergedPaths[k];
        var pKey := PathKey(p.pathPattern, p.pathType);
        ghost var a := MentionOf(ing, p);
        NextMention(ings, i, k);
        if pKey !in merged[ing.originHost] {
          MergeOfNewKey(merged, seen, a);
          merged := merged[ing.originHost := merged[ing.originHost][pKey := p.functions]];
        } else {
          var existing := merged[ing.originHost][pKey];
          var m := Merge(existing, p.functions);
          if m.Err? {
            ConflictIsInconsistent(existing, seen, a, Mentions(ings));
            return Err(ConflictingAssociations);
          }
          MergeOfKnownKey(merged, seen, a);
          merged := merged[ing.originHost := merged[ing.originHost][pKey := m.value]];
        }
        seen := seen + {a};
      }
      NextIngress(ings, i);
    }
    AllMentions(ings);
    MergeOfIsConsistent(merged, seen);
    return Ok(merged);
  }

  /** The mentions of the first i Ingresses and the first k paths of the next. */
  ghost function MentionsUpTo(ings: seq<CDNIngress>, i: nat, k: nat): set<Mention>
    requires i <= |ings| && (if i < |ings| then k <= |ings[i].unmergedPaths| else k == 0)
  {
    set a, b | 0 <= a < |ings| && 0 <= b < |ings[a].unmergedPaths| && (a < i || (a == i && b < k))
      :: MentionOf(ings[a], ings[a].unmergedPaths[b])
  }

  lemma NextMention(ings: seq<CDNIngress>, i: nat, k: nat)
    requires i < |ings| && k < |ings[i].unmergedPaths|
    ensures MentionsUpTo(ings, i, k + 1) == MentionsUpTo(ings, i, k) + {MentionOf(ings[i], ings[i].unmergedPaths[k])}
    ensures MentionsUpTo(ings, i, k + 1) <= Mentions(ings)
  {
  }

  lemma NextIngress(ings: seq<CDNIngress>, i: nat)
    requires i < |ings|
    ensures MentionsUpTo(ings, i + 1, 0) == MentionsUpTo(ings, i, |ings[i].unmergedPaths|)
  {
  }

  lemma AllMentions(ings: seq<CDNIngress>)
    ensures MentionsUpTo(ings, |ings|, 0) == Mentions(ings)
  {
  }

  lemma ConflictIsInconsistent(fa: FunctionAssociations, seen: set<Mention>, a: Mention, all: set<Mention>)
    requires JoinOf(fa, seen, a.host, a.key) && !Compatible(fa, a.functions)
    requires seen + {a} <= all
    ensures !Consistent(all)
  {
    JoinWithNew(fa, seen, a);
  }

  /** The paths of a host are the merged entries of the host, each once. */
  ghost predicate ListsPaths(paths: map<string, seq<Path>>, m: MergedPathMap) {
    forall host :: ListsHost(PathsAt(paths, host), m, host)
  }

  ghost predicate ListsHost(ps: seq<Path>, m: MergedPathMap, host: string) {
    && (forall i, j :: 0 <= i < j < |ps| ==> KeyOf(ps[i]) != KeyOf(ps[j]))
    && (forall p :: p in ps <==> Has(m, host, KeyOf(p)) && m[host][KeyOf(p)] == p.functions)
  }

  function KeyOf(p: Path): PathKey {
    PathKey(p.pathPattern, p.pathType)
  }

  /** The iteration order of both maps is arbitrary. */
  method MapOfOriginHostToPath(m: MergedPathMap) returns (s: map<string, seq<Path>>)
    ensures ListsPaths(s, m)
  {
    s := map[];
    var hosts := m.Keys;
    while hosts != {}
      invariant hosts <= m.Keys && ListsAllBut(s, m, hosts)
      decreases |hosts|
    {
      var host :| host in hosts;
      ghost var before := s;
      var keys := m[host].Keys;
      while keys != {}
        invariant keys <= m[host].Keys
        invariant SameElsewhere(s, before, host) && Listed(PathsAt(s, host), m[host], keys)
        decreases |keys|
      {
        var key :| key in keys;
        var path := Path(key.pathPattern, key.pathType, m[host][key]);
        ListOne(PathsAt(s, host), m[host], keys, key);
        ElsewhereStaysSame(s, before, host, PathsAt(s, host) + [path]);
        s := s[host := (if host in s then s[host] else []) + [path]];
        keys := keys - {key};
      }
      ListsOneMoreHost(s, before, m, hosts, host);
      hosts := hosts - {host};
    }
  }

  /** The hosts that are not in `rest` are listed, and those in it are not there yet. */
  ghost predicate ListsAllBut(s: map<string, seq<Path>>, m: MergedPathMap, rest: set<string>) {
    && (forall host :: host in rest ==> host !in s)
    && forall host :: host !in rest ==> ListsHost(PathsAt(s, host), m, host)
  }

  ghost predicate SameElsewhere(s: map<string, seq<Path>>, before: map<string, seq<Path>>, host: string) {
    forall h :: h != host ==> PathsAt(s, h) == PathsAt(before, h) && (h in s <==> h in before)
  }

  lemma ElsewhereStaysSame(
    s: map<string, seq<Path>>, before: map<string, seq<Path>>, host: string, paths: seq<Path>)
    requires SameElsewhere(s, before, host)
    ensures SameElsewhere(s[host := paths], before, host)
  {
  }

  lemma ListsOneMoreHost(
    s: map<string, seq<Path>>, before: map<string, seq<Path>>, m: MergedPathMap, rest: set<string>, host: string)
    requires ListsAllBut(before, m, rest) && host in rest && host in m
    requires SameElsewhere(s, before, host) && Listed(PathsAt(s, host), m[host], {})
    ensures ListsAllBut(s, m, rest - {host})
  {
  }

  /** ps lists the entries whose keys are not in `rest`. */
  ghost predicate Listed(ps: seq<Path>, entries: map<PathKey, FunctionAssociations>, rest: set<PathKey>) {
    && (forall i, j :: 0 <= i < j < |ps| ==> KeyOf(ps[i]) != KeyOf(ps[j]))
    && (forall p :: p in ps <==> KeyOf(p) in entries && KeyOf(p) !in rest && entries[KeyOf(p)] == p.functions)
  }

  lemma ListOne(ps: seq<Path>, entries: map<PathKey, FunctionAssociations>, rest: set<PathKey>, key: PathKey)
    requires Listed(ps, entries, rest) && key in rest && key in entries
    ensures Listed(ps + [Path(key.pathPattern, key.pathType, entries[key])], entries, rest - {key})
  {
    var path := Path(key.pathPattern, key.pathType, entries[key]);
    assert forall i :: 0 <= i < |ps| ==> ps[i] in ps;
    assert forall p :: p in ps + [path] <==> p in ps || p == path;
  }

  // ----- the web ACL

  function ACLs(ings: seq<CDNIngress>): set<string> {
    set i | 0 <= i < |ings| && ings[i].unmergedWebACL != "" :: ings[i].unmergedWebACL
  }

  method MergedWebACL(ings: seq<CDNIngress>) returns (r: Result<string>)
    ensures r.Ok? <==> |ACLs(ings)| <= 1
    ensures r.Ok? ==> ACLs(ings) == (if r.value == "" then {} else {r.value})
    ensures r.Err? ==> r.error == ConflictingWebACL
  {
    var arns: set<string> := {};
    for i := 0 to |ings|
      invariant arns == set k | 0 <= k < i && ings[k].unmergedWebACL != "" :: ings[k].unmergedWebACL
    {
      if |ings[i].unmergedWebACL| > 0 {
        arns := arns + {ings[i].unmergedWebACL};
      }
    }
    assert arns == ACLs(ings);
    if |arns| > 1 {
      return Err(ConflictingWebACL);
    }
    if arns == {} {
      return Ok("");
    }
    var arn :| arn in arns;
    SingletonOf(arns, arn);
    return Ok(arn);
  }

  lemma SingletonOf<T>(s: set<T>, x: T)
    requires x in s && |s| <= 1
    ensures s == {x}
  {
    assert |s - {x}| == 0;
  }

  method NewSharedIngressParams(ings: seq<CDNIngress>) returns (r: Result<Params>)
    ensures SharedFrom(ings, r)
  {
    var acl := MergedWebACL(ings);
    if acl.Err? {
      return Err(acl.error);
    }
    var merged := MergedPaths(ings);
    if merged.Err? {
      return Err(merged.error);
    }
    var paths := MapOfOriginHostToPath(merged.value);
    return Ok(Params(acl.value, paths));
  }

  ghost predicate SharedFrom(ings: seq<CDNIngress>, r: Result<Params>) {
    if |ACLs(ings)| > 1 then r == Err(ConflictingWebACL)
    else if !Consistent(Mentions(ings)) then r == Err(ConflictingAssociations)
    else
      && r.Ok?
      && ACLs(ings) == (if r.value.webACL == "" then {} else {r.value.webACL})
      && exists m :: MergeOf(m, Mentions(ings)) && ListsPaths(r.value.paths, m)
  }

  // ----- the result does not depend on how the Ingresses and their paths are listed

  ghost predicate SameParams(r: Result<Params>, s: Result<Params>) {
    if r.Err? then s == r
    else
      && s.Ok? && s.value.webACL == r.value.webACL
      && forall host :: SamePaths(PathsFromOrigin(r.value, host), PathsFromOrigin(s.value, host))
  }

  ghost predicate SamePaths(ps: seq<Path>, qs: seq<Path>) {
    multiset(ps) == multiset(qs)
  }

  /** Ingress lists that mention the same paths and ACLs, in any order and any number of times, merge alike. */
  lemma MergingIgnoresOrder(ings: seq<CDNIngress>, others: seq<CDNIngress>, r: Result<Params>, s: Result<Params>)
    requires Mentions(ings) == Mentions(others) && ACLs(ings) == ACLs(others)
    requires SharedFrom(ings, r) && SharedFrom(others, s)
    ensures SameParams(r, s)
  {
    if r.Ok? {
      var m :| MergeOf(m, Mentions(ings)) && ListsPaths(r.value.paths, m);
      var n :| MergeOf(n, Mentions(others)) && ListsPaths(s.value.paths, n);
      forall host
        ensures SamePaths(PathsFromOrigin(r.value, host), PathsFromOrigin(s.value, host))
      {
        SameListing(PathsFromOrigin(r.value, host), m, PathsFromOrigin(s.value, host), n, Mentions(ings), host);
      }
    }
  }

  lemma SameListing(
    ps: seq<Path>, m: MergedPathMap, qs: seq<Path>, n: MergedPathMap, mentions: set<Mention>, host: string)
    requires MergeOf(m, mentions) && MergeOf(n, mentions)
    requires ListsHost(ps, m, host) && ListsHost(qs, n, host)
    ensures SamePaths(ps, qs)
  {
    forall p
      ensures p in ps <==> p in qs
    {
      var key := KeyOf(p);
      assert Has(m, host, key) <==> Mentioned(mentions, host, key);
      assert Has(n, host, key) <==> Mentioned(mentions, host, key);
      if Has(m, host, key) {
        JoinIsUnique(m[host][key], n[host][key], mentions, host, key);
      }
    }
    NoDuplicatesSameElements(ps, qs);
  }

  lemma {:induction false} MultiplicityWithoutDuplicates<T>(s: seq<T>, x: T)
    requires forall i, j :: 0 <= i < j < |s| ==> s[i] != s[j]
    ensures multiset(s)[x] == if x in s then 1 else 0
  {
    if s != [] {
      var n := |s| - 1;
      assert s == s[..n] + [s[n]];
      MultiplicityWithoutDuplicates(s[..n], x);
    }
  }

  lemma NoDuplicatesSameElements<T>(s: seq<T>, t: seq<T>)
    requires forall i, j :: 0 <= i < j < |s| ==> s[i] != s[j]
    requires forall i, j :: 0 <= i < j < |t| ==> t[i] != t[j]
    requires forall x :: x in s <==> x in t
    ensures multiset(s) == multiset(t)
  {
    forall x
      ensures multiset(s)[x] == multiset(t)[x]
    {
      MultiplicityWithoutDuplicates(s, x);
      MultiplicityWithoutDuplicates(t, x);
    }
  }

  /** In particular, permuting the Ingresses changes neither what they mention nor their ACLs. */
  lemma PermutationMentionsTheSame(ings: seq<CDNIngress>, others: seq<CDNIngress>)
    requires multiset(ings) == multiset(others)
    ensures Mentions(ings) == Mentions(others) && ACLs(ings) == ACLs(others)
  {
    forall xs, ys | multiset(xs) == multiset(ys) && xs in [ings, others] && ys in [ings, others]
      ensures Mentions(xs) <= Mentions(ys) && ACLs(xs) <= ACLs(ys)
    {
      forall i | 0 <= i < |xs|
        ensures exists j :: 0 <= j < |ys| && ys[j] == xs[i]
      {
        assert xs[i] in multiset(xs);
        assert xs[i] in ys;
      }
    }
  }

  /** The Ingress says the same, with its paths in another order. */
  predicate ReordersPaths(a: CDNIngress, b: CDNIngress) {
    a == b.(unmergedPaths := a.unmergedPaths) && multiset(a.unmergedPaths) == multiset(b.unmergedPaths)
  }

  /** Permuting the paths within each Ingress changes nothing either. */
  lemma PathOrderMentionsTheSame(ings: seq<CDNIngress>, others: seq<CDNIngress>)
    requires |ings| == |others| && forall i :: 0 <= i < |ings| ==> ReordersPaths(ings[i], others[i])
    ensures Mentions(ings) == Mentions(others) && ACLs(ings) == ACLs(others)
  {
    forall i, k | 0 <= i < |ings| && 0 <= k < |ings[i].unmergedPaths|
      ensures MentionOf(ings[i], ings[i].unmergedPaths[k]) in Mentions(others)
    {
      var p := ings[i].unmergedPaths[k];
      assert ReordersPaths(ings[i], others[i]) && p in multiset(others[i].unmergedPaths);
      var l :| 0 <= l < |others[i].unmergedPaths| && others[i].unmergedPaths[l] == p;
      assert MentionOf(others[i], others[i].unmergedPaths[l]) in Mentions(others);
    }
    forall i, k | 0 <= i < |others| && 0 <= k < |others[i].unmergedPaths|
      ensures MentionOf(others[i], others[i].unmergedPaths[k]) in Mentions(ings)
    {
      var p := others[i].unmergedPaths[k];
      assert ReordersPaths(ings[i], others[i]) && p in multiset(ings[i].unmergedPaths);
      var l :| 0 <= l < |ings[i].unmergedPaths| && ings[i].unmergedPaths[l] == p;
      assert MentionOf(ings[i], ings[i].unmergedPaths[l]) in Mentions(ings);
    }
    assert forall i :: 0 <= i < |ings| ==> ReordersPaths(ings[i], others[i]);
    assert forall i :: 0 <= i < |ings| ==> ings[i].unmergedWebACL == others[i].unmergedWebACL;
  }
}
