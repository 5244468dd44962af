/**
 * From Ingress path rules to path patterns (internal/cloudfront/service_helpers.go), and why first-match
 * over the ordered patterns routes as the Kubernetes Ingress documentation says.
 */
module PathRules {
  import opened GoStrings
  import opened Model
  import opened Specificity
  import opened Glob

  const PREFIX := "Prefix"
  const EXACT := "Exact"

  datatype Rule = Rule(host: string, path: string, pathType: string)

  function BuildPatternsForPrefix(path: string): seq<string> {
    if path == "/" then ["/*"]
    else
      var normalized := TrimSuffix(path, "/");
      [normalized, normalized + "/*"]
  }

  function PathPatternsForPath(path: string, pathType: string): seq<string> {
    if pathType == PREFIX then BuildPatternsForPrefix(path) else [path]
  }

  // ----- Kubernetes' meaning of a path rule ("Path types" and "Multiple matches")

  /** The elements of a path: its parts between slashes. */
  function Elements(s: string): (es: seq<string>)
    ensures es != []
  {
    if s == "" then [""]
    else
      var rest := Elements(s[1..]);
      if s[0] == '/' then [""] + rest else [[s[0]] + rest[0]] + rest[1..]
  }

  /** A rule's path, without the trailing slash that Prefix rules ignore. */
  function Normalized(r: Rule): string {
    if r.pathType == PREFIX then TrimSuffix(r.path, "/") else r.path
  }

  predicate RuleMatches(r: Rule, req: string) {
    if r.pathType == PREFIX then Elements(Normalized(r)) <= Elements(req) else r.path == req
  }

  /** The longer path takes precedence, and Exact over Prefix between equal ones. */
  predicate Outranks(r: Rule, w: Rule) {
    |Normalized(r)| > |Normalized(w)|
    || (|Normalized(r)| == |Normalized(w)| && r.pathType == EXACT && w.pathType != EXACT)
  }

  predicate Best(rules: set<Rule>, w: Rule, req: string) {
    && w in rules && RuleMatches(w, req)
    && forall r :: r in rules && RuleMatches(r, req) ==> !Outranks(r, w)
  }

  /** What the API server accepts as the path of an Exact or Prefix rule, kept to wildcard-free paths. */
  predicate Plain(r: Rule) {
    && (r.pathType == PREFIX || r.pathType == EXACT)
    && HasPrefix(r.path, "/") && WildcardFree(r.path) && ValidUtf8(r.path)
    && (r.pathType == PREFIX ==> !HasSuffix(Normalized(r), "/"))
  }

  // ----- the compiled patterns

  function PatternsOf(r: Rule): seq<string> {
    PathPatternsForPath(r.path, r.pathType)
  }

  predicate Belongs(b: Behavior, r: Rule) {
    b.originHost == r.host && b.pathPattern in PatternsOf(r)
  }

  predicate Serves(b: Behavior, host: string, pattern: string) {
    b.originHost == host && b.pathPattern == pattern
  }

  predicate HasBehavior(bs: seq<Behavior>, host: string, pattern: string) {
    exists b :: b in bs && Serves(b, host, pattern)
  }

  predicate InventsNothing(bs: seq<Behavior>, rules: set<Rule>) {
    forall b :: b in bs ==> exists r :: r in rules && Belongs(b, r)
  }

  predicate LosesNothing(bs: seq<Behavior>, rules: set<Rule>) {
    forall r, q :: r in rules && q in PatternsOf(r) ==> HasBehavior(bs, r.host, q)
  }

  /** The behaviors are the expansions of the rules, nothing lost and nothing invented. */
  predicate Expands(bs: seq<Behavior>, rules: set<Rule>) {
    InventsNothing(bs, rules) && LosesNothing(bs, rules)
  }

  /** CloudFront allows a pattern once: an Exact path may repeat a Prefix path only within one origin. */
  predicate TiedRulesShareHost(rules: set<Rule>) {
    forall e, p :: e in rules && p in rules && e.pathType == EXACT && p.pathType == PREFIX && Normalized(p) == e.path
      ==> e.host == p.host
  }

  /** An Exact rule for the request, whose path is some Prefix rule's path plus a slash. */
  predicate TrailingSlashClash(rules: set<Rule>, req: string) {
    exists e, p :: e in rules && p in rules && ClashOf(e, p, req)
  }

  predicate ClashOf(e: Rule, p: Rule, req: string) {
    e.pathType == EXACT && e.path == req && p.pathType == PREFIX && Normalized(p) + "/" == req
  }

  // ----- element-wise prefixes, as strings

  lemma {:induction false} ElementPrefixIsStringPrefix(p: string, req: string)
    ensures Elements(p) <= Elements(req) <==> p == req || p + "/" <= req
  {
    if req == "" {
      if p != "" {
        ElementsOfNonEmpty(p);
        assert Elements(req) == [""];
      }
    } else if p == "" {
      assert Elements(p) == [""];
      ElementsOfNonEmpty(req);
    } else {
      ElementPrefixIsStringPrefix(p[1..], req[1..]);
      assert p == [p[0]] + p[1..] && req == [req[0]] + req[1..];
      assert p + "/" == [p[0]] + (p[1..] + "/");
      ConsPrefix(p[0], p[1..] + "/", req[0], req[1..]);
      ElementPrefixStep(p, req);
    }
  }

  lemma ElementPrefixStep(p: string, req: string)
    requires p != "" && req != ""
    ensures Elements(p) <= Elements(req) <==> p[0] == req[0] && Elements(p[1..]) <= Elements(req[1..])
  {
    var a, b := Elements(p[1..]), Elements(req[1..]);
    assert a == [a[0]] + a[1..] && b == [b[0]] + b[1..];
    ConsPrefix(a[0], a[1..], b[0], b[1..]);
    if p[0] == '/' && req[0] == '/' {
      ConsPrefix("", a, "", b);
    } else if p[0] == '/' {
      ConsPrefix("", a, [req[0]] + b[0], b[1..]);
    } else if req[0] == '/' {
      ConsPrefix([p[0]] + a[0], a[1..], "", b);
    } else {
      ConsPrefix([p[0]] + a[0], a[1..], [req[0]] + b[0], b[1..]);
      assert ([p[0]] + a[0])[1..] == a[0] && ([req[0]] + b[0])[1..] == b[0];
      assert ([p[0]] + a[0])[0] == p[0] && ([req[0]] + b[0])[0] == req[0];
    }
  }

  lemma ConsPrefix<T>(x: T, a: seq<T>, y: T, b: seq<T>)
    ensures [x] + a <= [y] + b <==> x == y && a <= b
  {
    assert ([x] + a)[0] == x && ([y] + b)[0] == y;
    assert ([x] + a)[1..] == a && ([y] + b)[1..] == b;
    if [x] + a <= [y] + b {
      assert ([x] + a) == ([y] + b)[..|a| + 1];
      assert a == b[..|a|];
    }
  }

  /** Only the empty string, or one that starts with a slash, has an empty first element. */
  lemma ElementsOfNonEmpty(s: string)
    requires s != ""
    ensures Elements(s)[0] == "" <==> s[0] == '/'
    ensures s[0] == '/' ==> Elements(s) == [""] + Elements(s[1..])
  {
  }

  // ----- a rule and its patterns match the same requests

  lemma NormalizedIsPlain(r: Rule)
    requires Plain(r)
    ensures WildcardFree(Normalized(r)) && WildcardFree(Normalized(r) + "/") && ValidUtf8(Normalized(r))
    ensures r.pathType == PREFIX && r.path != "/" ==> Normalized(r) != ""
  {
    var n := Normalized(r);
    if HasSuffix(r.path, "/") && r.pathType == PREFIX {
      assert r.path == n + "/";
      ValidPrefix(n, "/");
    }
  }

  /** Dropping a trailing ASCII string keeps UTF-8 valid. */
  lemma {:induction false} ValidPrefix(a: string, b: string)
    requires ValidUtf8(a + b) && b != "" && Ascii(b)
    ensures ValidUtf8(a)
  {
    if a != "" {
      var c := a + b;
      var w := RuneWidth(c);
      assert forall k :: 0 <= k < |a| ==> c[k] == a[k];
      assert c[|a|] == b[0] && !Continuation(b[0]);
      assert w <= |a|;
      assert w == RuneWidth(a) && c[w..] == a[w..] + b;
      ValidPrefix(a[w..], b);
    }
  }

  lemma PatternsOfPlain(r: Rule)
    requires Plain(r)
    ensures var n := Normalized(r);
      PatternsOf(r) == if r.pathType == EXACT then [n] else if r.path == "/" then [n + "/*"] else [n, n + "/*"]
    ensures r.pathType == PREFIX && r.path == "/" ==> Normalized(r) == ""
  {
    assert "" + "/*" == "/*";
  }

  /** Which pattern of a plain rule matches, and when. */
  lemma PlainPatternMatches(r: Rule, q: string, req: string)
    requires Plain(r) && q in PatternsOf(r) && HasPrefix(req, "/")
    ensures var n := Normalized(r);
      q == n || (r.pathType == PREFIX && q == n + "/*")
    ensures var n := Normalized(r);
      Matches(q, req) <==> if q == n then n == req else n + "/" <= req
  {
    var n := Normalized(r);
    NormalizedIsPlain(r);
    assert r.pathType == PREFIX && r.path == "/" ==> n == "";
    if q == n {
      LiteralMatches(n, req);
    } else {
      assert n + "/" + "*" == n + "/*";
      TrailingStarMatches(n + "/", req);
    }
  }

  lemma PatternsMatchWhatTheRuleMatches(r: Rule, req: string)
    requires Plain(r) && HasPrefix(req, "/")
    ensures RuleMatches(r, req) <==> exists q :: q in PatternsOf(r) && Matches(q, req)
    ensures RuleMatches(r, req) ==> MatchingPattern(r, req) in PatternsOf(r) && Matches(MatchingPattern(r, req), req)
  {
    var n := Normalized(r);
    NormalizedIsPlain(r);
    ElementPrefixIsStringPrefix(n, req);
    forall q | q in PatternsOf(r)
      ensures Matches(q, req) ==> RuleMatches(r, req)
    {
      PlainPatternMatches(r, q, req);
    }
    if RuleMatches(r, req) {
      var q := MatchingPattern(r, req);
      PatternsOfPlain(r);
      PlainPatternMatches(r, q, req);
      assert Matches(q, req);
    }
  }

  /** The pattern through which a matching plain rule serves the request. */
  function MatchingPattern(r: Rule, req: string): string {
    if Normalized(r) == req then req else Normalized(r) + "/*"
  }

  // ----- precedence: the first match belongs to the rule Kubernetes prefers

  /** After a valid common part, the comparison depends on what follows it. */
  lemma {:induction false} CommonPartIsSkipped(a: string, t: string, u: string)
    requires ValidUtf8(a) && |t| == |u|
    ensures InOrderFrom(a + t, a + u) == InOrderFrom(t, u)
  {
    if a == "" {
      assert a + t == t && a + u == u;
    } else {
      HeadOfConcat(a, t);
      HeadOfConcat(a, u);
      CommonPartIsSkipped(a[RuneWidth(a)..], t, u);
    }
  }

  /** A wildcard-free pattern comes strictly before `a*` of its own length, if it starts with a. */
  lemma LiteralBeforeTrailingStar(a: string, p: string)
    requires ValidUtf8(a) && WildcardFree(p) && a <= p && |p| == |a| + 1
    ensures !InOrder(a + "*", p)
  {
    assert p == a + [p[|a|]];
    CommonPartIsSkipped(a, "*", [p[|a|]]);
  }

  /** A slash and a star after m come strictly after the literal they match, unless that is m and a slash. */
  lemma TrailingStarAfterLiteral(m: string, n: string)
    requires ValidUtf8(m) && WildcardFree(n) && m + "/" <= n && n != m + "/"
    ensures !InOrder(m + "/*", n)
  {
    if |n| == |m| + 2 {
      ValidConcat(m, AsciiSlash());
      assert m + "/" + "*" == m + "/*";
      LiteralBeforeTrailingStar(m + "/", n);
    }
  }

  /** Without a clash, only the best rule's own pattern can come before it among the matching ones. */
  lemma BestPatternComesFirst(rules: set<Rule>, w: Rule, r: Rule, q: string, req: string)
    requires forall x :: x in rules ==> Plain(x)
    requires HasPrefix(req, "/") && !TrailingSlashClash(rules, req)
    requires Best(rules, w, req) && r in rules
    requires q in PatternsOf(r) && Matches(q, req)
    requires InOrder(q, MatchingPattern(w, req))
    ensures q == MatchingPattern(w, req)
  {
    NormalizedIsPlain(w);
    NormalizedIsPlain(r);
    PlainPatternMatches(r, q, req);
    PatternsMatchWhatTheRuleMatches(r, req);
    BestIsLongestPrefix(rules, w, r, req);
    if q != Normalized(r) && Normalized(w) == req {
      NoSlashAtTheEnd(rules, w, r, req);
    }
    LongestComesFirst(Normalized(w), Normalized(r), q, req);
  }

  /** n and m are prefixes of the request, n the longer; q is the pattern through which m matches. */
  lemma LongestComesFirst(n: string, m: string, q: string, req: string)
    requires m <= n <= req && ValidUtf8(m) && WildcardFree(n)
    requires q == m == req || (q == m + "/*" && m + "/" <= req)
    requires q != m && n == req ==> n != m + "/"
    requires InOrder(q, if n == req then req else n + "/*")
    ensures q == if n == req then req else n + "/*"
  {
    if q != m && n == req {
      TrailingStarAfterLiteral(m, n);
    }
  }

  lemma BestIsLongestPrefix(rules: set<Rule>, w: Rule, r: Rule, req: string)
    requires Best(rules, w, req) && r in rules && RuleMatches(r, req)
    ensures Normalized(r) <= Normalized(w) <= req
    ensures Normalized(w) == req || Normalized(w) + "/" <= req
  {
    var n, m := Normalized(w), Normalized(r);
    ElementPrefixIsStringPrefix(n, req);
    ElementPrefixIsStringPrefix(m, req);
    assert n <= n + "/" && m <= m + "/";
    assert n == req[..|n|] && m == req[..|m|];
    assert !Outranks(r, w);
    assert m == n[..|m|];
  }

  lemma NoSlashAtTheEnd(rules: set<Rule>, w: Rule, r: Rule, req: string)
    requires w in rules && r in rules && Plain(w) && Plain(r)
    requires !TrailingSlashClash(rules, req)
    requires Normalized(w) == req && r.pathType == PREFIX
    ensures Normalized(r) + "/" != req
  {
    assert HasSuffix(Normalized(r) + "/", "/");
    assert w.pathType == EXACT ==> !ClashOf(w, r, req);
  }

  function AsciiSlash(): (s: string)
    ensures s == "/" && ValidUtf8(s)
  {
    AsciiIsItsLeadBytes("/");
    "/"
  }

  lemma {:induction false} BestExists(rules: set<Rule>, r: Rule, req: string)
    requires r in rules && RuleMatches(r, req)
    ensures exists w :: Best(rules, w, req)
    decreases |rules|
  {
    var rest := rules - {r};
    if s :| s in rest && RuleMatches(s, req) {
      BestExists(rest, s, req);
      var w :| Best(rest, w, req);
      assert rules == rest + {r};
      if Outranks(r, w) {
        assert Best(rules, r, req);
      } else {
        assert Best(rules, w, req);
      }
    } else {
      assert forall x :: x in rules && x != r ==> x in rest;
      assert Best(rules, r, req);
    }
  }

  /** All best rules agree on type and normalized path, so with distinct paths there is one. */
  lemma BestIsUniqueUpToHost(rules: set<Rule>, v: Rule, w: Rule, req: string)
    requires forall x :: x in rules ==> Plain(x)
    requires Best(rules, v, req) && Best(rules, w, req)
    ensures v.pathType == w.pathType && Normalized(v) == Normalized(w)
  {
    BestIsLongestPrefix(rules, v, w, req);
    BestIsLongestPrefix(rules, w, v, req);
  }

  ghost predicate ServedByBest(rules: set<Rule>, b: Behavior, req: string) {
    exists w :: Best(rules, w, req) && Belongs(b, w)
  }

  lemma NoMatchWithoutRule(rules: set<Rule>, bs: seq<Behavior>, req: string)
    requires forall x :: x in rules ==> Plain(x)
    requires Expands(bs, rules) && HasPrefix(req, "/")
    ensures FirstMatch(bs, req).None? <==> forall r :: r in rules ==> !RuleMatches(r, req)
  {
    FirstMatchMeaning(bs, req);
    forall r | r in rules
      ensures RuleMatches(r, req) ==> FirstMatch(bs, req).Some?
    {
      PatternsMatchWhatTheRuleMatches(r, req);
      if RuleMatches(r, req) {
        var q := MatchingPattern(r, req);
        assert HasBehavior(bs, r.host, q);
        var b :| b in bs && Serves(b, r.host, q);
      }
    }
    if FirstMatch(bs, req).Some? {
      var b := FirstMatch(bs, req).value;
      var r :| r in rules && Belongs(b, r);
      PatternsMatchWhatTheRuleMatches(r, req);
    }
  }

  /** The first match is at or before the behavior that a given rule contributes for the request. */
  lemma FirstMatchIsAtOrBefore(rules: set<Rule>, bs: seq<Behavior>, w: Rule, req: string)
    requires Plain(w) && w in rules && RuleMatches(w, req)
    requires LosesNothing(bs, rules) && Ordered(bs) && HasPrefix(req, "/")
    ensures FirstMatch(bs, req).Some?
    ensures var q := FirstMatch(bs, req).value.pathPattern;
      q == MatchingPattern(w, req) || InOrder(q, MatchingPattern(w, req))
  {
    FirstMatchMeaning(bs, req);
    PatternsMatchWhatTheRuleMatches(w, req);
    assert HasBehavior(bs, w.host, MatchingPattern(w, req));
    var b :| b in bs && Serves(b, w.host, MatchingPattern(w, req));
  }

  /**
   * Compiling, ordering and matching first routes every request as Kubernetes does, except for a request
   * that an Exact rule names with a trailing slash and a Prefix rule names without it.
   */
  lemma RoutingMeetsKubernetes(rules: set<Rule>, bs: seq<Behavior>, req: string)
    requires forall r :: r in rules ==> Plain(r)
    requires TiedRulesShareHost(rules)
    requires Expands(bs, rules) && Ordered(bs)
    requires HasPrefix(req, "/")
    ensures FirstMatch(bs, req).None? <==> forall r :: r in rules ==> !RuleMatches(r, req)
    ensures FirstMatch(bs, req).Some? ==>
      (ServedByBest(rules, FirstMatch(bs, req).value, req) <==> !TrailingSlashClash(rules, req))
  {
    NoMatchWithoutRule(rules, bs, req);
    if FirstMatch(bs, req).Some? {
      if TrailingSlashClash(rules, req) {
        ClashIsLost(rules, bs, req);
      } else {
        NoClashIsWon(rules, bs, req);
      }
    }
  }

  lemma NoClashIsWon(rules: set<Rule>, bs: seq<Behavior>, req: string)
    requires forall r :: r in rules ==> Plain(r)
    requires TiedRulesShareHost(rules)
    requires Expands(bs, rules) && Ordered(bs)
    requires HasPrefix(req, "/") && !TrailingSlashClash(rules, req)
    requires FirstMatch(bs, req).Some?
    ensures ServedByBest(rules, FirstMatch(bs, req).value, req)
    ensures forall w :: Best(rules, w, req) ==> FirstMatch(bs, req).value.pathPattern == MatchingPattern(w, req)
  {
    FirstMatchMeaning(bs, req);
    var b := FirstMatch(bs, req).value;
    var r :| r in rules && Belongs(b, r);
    PatternsMatchWhatTheRuleMatches(r, req);
    BestExists(rules, r, req);
    forall w | Best(rules, w, req)
      ensures b.pathPattern == MatchingPattern(w, req)
    {
      BestServes(rules, bs, w, r, req);
    }
    var w :| Best(rules, w, req);
    SharedPatternIsBest(rules, w, r, req);
    if !Best(rules, r, req) {
      PatternsMatchWhatTheRuleMatches(w, req);
      assert Belongs(b, w);
    }
  }

  lemma BestServes(rules: set<Rule>, bs: seq<Behavior>, w: Rule, r: Rule, req: string)
    requires forall x :: x in rules ==> Plain(x)
    requires LosesNothing(bs, rules) && Ordered(bs)
    requires HasPrefix(req, "/") && !TrailingSlashClash(rules, req)
    requires FirstMatch(bs, req).Some? && r in rules && Belongs(FirstMatch(bs, req).value, r)
    requires Best(rules, w, req)
    ensures FirstMatch(bs, req).value.pathPattern == MatchingPattern(w, req)
  {
    var q := FirstMatch(bs, req).value.pathPattern;
    FirstMatchMeaning(bs, req);
    FirstMatchIsAtOrBefore(rules, bs, w, req);
    if q != MatchingPattern(w, req) {
      BestPatternComesFirst(rules, w, r, q, req);
    }
  }

  /** A rule with the best rule's pattern is best itself, or an equal Prefix rule of the same host. */
  lemma SharedPatternIsBest(rules: set<Rule>, w: Rule, r: Rule, req: string)
    requires forall x :: x in rules ==> Plain(x)
    requires TiedRulesShareHost(rules) && HasPrefix(req, "/")
    requires Best(rules, w, req) && r in rules
    requires MatchingPattern(w, req) in PatternsOf(r)
    ensures Best(rules, r, req) || r.host == w.host
  {
    var q := MatchingPattern(w, req);
    NormalizedIsPlain(w);
    NormalizedIsPlain(r);
    PatternsMatchWhatTheRuleMatches(w, req);
    PatternsMatchWhatTheRuleMatches(r, req);
    PlainPatternMatches(r, q, req);
    ElementPrefixIsStringPrefix(Normalized(w), req);
    if q == Normalized(r) {
      assert q == req;
      assert Normalized(w) == req;
    } else {
      assert q[..|q| - 2] == Normalized(r);
      assert IsWildcard(q[|q| - 1]);
      assert q[..|q| - 2] == Normalized(w);
    }
  }

  lemma ClashIsLost(rules: set<Rule>, bs: seq<Behavior>, req: string)
    requires forall r :: r in rules ==> Plain(r)
    requires Expands(bs, rules) && Ordered(bs)
    requires HasPrefix(req, "/") && TrailingSlashClash(rules, req)
    ensures FirstMatch(bs, req).Some? && !ServedByBest(rules, FirstMatch(bs, req).value, req)
  {
    var e, p :| e in rules && p in rules && ClashOf(e, p, req);
    ElementPrefixIsStringPrefix(Normalized(p), req);
    FirstMatchIsAtOrBefore(rules, bs, p, req);
    var b := FirstMatch(bs, req).value;
    assert |b.pathPattern| > |req|;
    forall w | Best(rules, w, req)
      ensures !Belongs(b, w)
    {
      assert !Outranks(e, w);
      ElementPrefixIsStringPrefix(Normalized(w), req);
      assert Normalized(w) == req;
    }
  }

  /** Of two clashing rules alone, Kubernetes prefers the Exact one, and the request goes to the other. */
  lemma ClashGoesToPrefix(rules: set<Rule>, e: Rule, p: Rule, bs: seq<Behavior>, req: string)
    requires rules == {e, p} && Plain(e) && Plain(p) && ClashOf(e, p, req)
    requires Expands(bs, rules) && Ordered(bs)
    ensures Best(rules, e, req)
    ensures FirstMatch(bs, req).Some? && Belongs(FirstMatch(bs, req).value, p)
  {
    assert |Normalized(p)| < |req| == |Normalized(e)|;
    ClashIsLost(rules, bs, req);
    FirstMatchMeaning(bs, req);
    var b := FirstMatch(bs, req).value;
    var r :| r in rules && Belongs(b, r);
    OnlyLoserIsLeft(rules, e, p, b, r, req);
  }

  lemma OnlyLoserIsLeft(rules: set<Rule>, e: Rule, p: Rule, b: Behavior, r: Rule, req: string)
    requires rules == {e, p} && r in rules && Belongs(b, r)
    requires RuleMatches(e, req) && !Outranks(p, e) && !ServedByBest(rules, b, req)
    ensures Best(rules, e, req) && Belongs(b, p)
  {
    assert Best(rules, e, req);
    assert !Belongs(b, e);
  }

  /** There are such rules: Exact "/" and Prefix "/" clash over the request "/". */
  lemma RootRulesClash(e: Rule, p: Rule)
    requires e.path == p.path == "/" && e.pathType == EXACT && p.pathType == PREFIX
    ensures Plain(e) && Plain(p) && ClashOf(e, p, "/")
  {
    RootIsPlain(e);
    RootIsPlain(p);
  }

  lemma RootIsPlain(r: Rule)
    requires r.path == "/" && (r.pathType == EXACT || r.pathType == PREFIX)
    ensures Plain(r) && Normalized(r) == if r.pathType == EXACT then "/" else ""
  {
    AsciiIsItsLeadBytes(r.path);
  }

  // ----- Exact rules leave all other requests alone

  function PrefixRules(rules: set<Rule>): set<Rule> {
    set r | r in rules && r.pathType == PREFIX
  }

  /** No two rules of one normalized path route to different hosts. */
  predicate OneHostPerPath(rules: set<Rule>) {
    forall p, q :: p in rules && q in rules && Normalized(p) == Normalized(q) ==> p.host == q.host
  }

  /**
   * A request equal to no Exact path is served by the same pattern with and without the Exact rules; and by the same
   * host, unless two hosts share a Prefix path.
   */
  lemma ExactRulesAffectOnlyTheirPath(rules: set<Rule>, bs: seq<Behavior>, cs: seq<Behavior>, req: string)
    requires forall r :: r in rules ==> Plain(r)
    requires TiedRulesShareHost(rules)
    requires Expands(bs, rules) && Ordered(bs)
    requires Expands(cs, PrefixRules(rules)) && Ordered(cs)
    requires HasPrefix(req, "/")
    requires forall r :: r in rules && r.pathType == EXACT ==> r.path != req
    ensures FirstMatch(bs, req).None? <==> FirstMatch(cs, req).None?
    ensures FirstMatch(bs, req).Some? ==>
      FirstMatch(bs, req).value.pathPattern == FirstMatch(cs, req).value.pathPattern
    ensures FirstMatch(bs, req).Some? && OneHostPerPath(PrefixRules(rules)) ==>
      FirstMatch(bs, req).value.originHost == FirstMatch(cs, req).value.originHost
  {
    var ps := PrefixRules(rules);
    forall r | r in rules && RuleMatches(r, req)
      ensures r in ps
    {
    }
    NoMatchWithoutRule(rules, bs, req);
    NoMatchWithoutRule(ps, cs, req);
    if FirstMatch(bs, req).Some? {
      var r :| r in rules && RuleMatches(r, req);
      BestExists(rules, r, req);
      var w :| Best(rules, w, req);
      assert Best(ps, w, req);
      NoClashIsWon(rules, bs, req);
      NoClashIsWon(ps, cs, req);
      FirstMatchMeaning(bs, req);
      FirstMatchMeaning(cs, req);
      SamePrefixPattern(rules, FirstMatch(bs, req).value, FirstMatch(cs, req).value, req);
    }
  }

  lemma SamePrefixPattern(rules: set<Rule>, b: Behavior, c: Behavior, req: string)
    requires forall r :: r in rules ==> Plain(r)
    requires forall r :: r in rules && r.pathType == EXACT ==> r.path != req
    requires b.pathPattern == c.pathPattern && Matches(b.pathPattern, req) && HasPrefix(req, "/")
    requires exists r :: r in rules && Belongs(b, r)
    requires exists p :: p in PrefixRules(rules) && Belongs(c, p)
    ensures OneHostPerPath(PrefixRules(rules)) ==> b.originHost == c.originHost
  {
    var r :| r in rules && Belongs(b, r);
    var p :| p in PrefixRules(rules) && Belongs(c, p);
    PlainPatternMatches(r, b.pathPattern, req);
    PlainPatternMatches(p, c.pathPattern, req);
    PatternsOfPlain(r);
    NormalizedIsPlain(r);
    NormalizedIsPlain(p);
    assert r in PrefixRules(rules);
    SamePatternSamePath(Normalized(r), Normalized(p), b.pathPattern);
  }

  /** Paths without wildcards whose patterns agree are equal. */
  lemma SamePatternSamePath(m: string, n: string, q: string)
    requires WildcardFree(m) && WildcardFree(n)
    requires (q == m || q == m + "/*") && (q == n || q == n + "/*")
    ensures m == n
  {
    if q == m + "/*" {
      assert IsWildcard(q[|q| - 1]);
      assert m == q[..|q| - 2];
    }
    if q == n + "/*" {
      assert IsWildcard(q[|q| - 1]);
      assert n == q[..|q| - 2];
    }
  }

  // ----- paths of other types stand beside

  predicate OfKubernetes(r: Rule) {
    r.pathType == PREFIX || r.pathType == EXACT
  }

  function KubernetesRules(rules: set<Rule>): set<Rule> {
    set r | r in rules && OfKubernetes(r)
  }

  predicate BelongsToSome(b: Behavior, rules: set<Rule>) {
    exists r :: r in rules && Belongs(b, r)
  }

  /** The behaviors that stem from the rules, in their order. */
  function StemmingFrom(bs: seq<Behavior>, rules: set<Rule>): seq<Behavior> {
    if bs == [] then []
    else (if BelongsToSome(bs[0], rules) then [bs[0]] else []) + StemmingFrom(bs[1..], rules)
  }

  lemma {:induction false} StemmingMembers(bs: seq<Behavior>, rules: set<Rule>)
    ensures forall b :: b in StemmingFrom(bs, rules) <==> b in bs && BelongsToSome(b, rules)
  {
    if bs != [] {
      StemmingMembers(bs[1..], rules);
      assert bs == [bs[0]] + bs[1..];
    }
  }

  lemma {:induction false} StemmingOrdered(bs: seq<Behavior>, rules: set<Rule>)
    requires Ordered(bs)
    ensures Ordered(StemmingFrom(bs, rules))
  {
    if bs != [] {
      StemmingOrdered(bs[1..], rules);
      var rest := StemmingFrom(bs[1..], rules);
      forall j | 0 <= j < |rest|
        ensures InOrder(bs[0].pathPattern, rest[j].pathPattern)
      {
        StemmingMembers(bs[1..], rules);
        assert rest[j] in bs[1..];
      }
    }
  }

  lemma {:induction false} StemmingServes(bs: seq<Behavior>, rules: set<Rule>, req: string)
    requires forall b :: b in bs && Matches(b.pathPattern, req) ==> BelongsToSome(b, rules)
    ensures FirstMatch(StemmingFrom(bs, rules), req) == FirstMatch(bs, req)
  {
    if bs != [] {
      StemmingServes(bs[1..], rules, req);
      var rest := StemmingFrom(bs[1..], rules);
      assert [] + rest == rest && ([bs[0]] + rest)[1..] == rest;
    }
  }

  /** Rules of other types leave alone every request that their patterns do not match. */
  lemma RoutingBesidePatterns(rules: set<Rule>, bs: seq<Behavior>, req: string)
    requires forall r :: r in KubernetesRules(rules) ==> Plain(r)
    requires forall r :: r in rules && !OfKubernetes(r) ==> !Matches(r.path, req)
    requires TiedRulesShareHost(KubernetesRules(rules))
    requires Expands(bs, rules) && Ordered(bs) && HasPrefix(req, "/")
    ensures FirstMatch(bs, req).None? <==> forall r :: r in KubernetesRules(rules) ==> !RuleMatches(r, req)
    ensures FirstMatch(bs, req).Some? ==>
      (ServedByBest(KubernetesRules(rules), FirstMatch(bs, req).value, req)
       <==> !TrailingSlashClash(KubernetesRules(rules), req))
  {
    var ks := KubernetesRules(rules);
    var cs := StemmingFrom(bs, ks);
    forall b | b in bs && Matches(b.pathPattern, req)
      ensures BelongsToSome(b, ks)
    {
      var r :| r in rules && Belongs(b, r);
      assert r in ks;
    }
    StemmingMembers(bs, ks);
    StemmingOrdered(bs, ks);
    StemmingServes(bs, ks, req);
    assert InventsNothing(cs, ks) by {
      assert forall b :: b in cs ==> BelongsToSome(b, ks);
    }
    forall r, q | r in ks && q in PatternsOf(r)
      ensures HasBehavior(cs, r.host, q)
    {
      assert HasBehavior(bs, r.host, q);
      var b :| b in bs && Serves(b, r.host, q);
      assert Belongs(b, r) && b in cs;
    }
    RoutingMeetsKubernetes(ks, cs, req);
  }

  /** None serves a request exactly if no Exact or Prefix rule matches it and no other path, as a pattern, does. */
  lemma RoutingOfAllTypes(rules: set<Rule>, bs: seq<Behavior>, req: string)
    requires forall r :: r in KubernetesRules(rules) ==> Plain(r)
    requires Expands(bs, rules) && HasPrefix(req, "/")
    ensures FirstMatch(bs, req).None? <==>
      forall r :: r in rules ==> if OfKubernetes(r) then !RuleMatches(r, req) else !Matches(r.path, req)
  {
    FirstMatchMeaning(bs, req);
    forall r | r in rules && (if OfKubernetes(r) then RuleMatches(r, req) else Matches(r.path, req))
      ensures FirstMatch(bs, req).Some?
    {
      var q := if OfKubernetes(r) then MatchingPattern(r, req) else r.path;
      if OfKubernetes(r) {
        assert r in KubernetesRules(rules);
        PatternsMatchWhatTheRuleMatches(r, req);
      }
      assert q in PatternsOf(r) && Matches(q, req);
      assert HasBehavior(bs, r.host, q);
    }
    if FirstMatch(bs, req).Some? {
      var b := FirstMatch(bs, req).value;
      var r :| r in rules && Belongs(b, r);
      if OfKubernetes(r) {
        assert r in KubernetesRules(rules);
        PatternsMatchWhatTheRuleMatches(r, req);
      }
    }
  }

  /** A path of another type that matches serves, if nothing else that matches sorts at or before it. */
  lemma OtherPathServes(rules: set<Rule>, bs: seq<Behavior>, r: Rule, req: string)
    requires r in rules && r.pathType != PREFIX && Matches(r.path, req)
    requires LosesNothing(bs, rules) && Ordered(bs)
    requires forall b :: b in bs && Matches(b.pathPattern, req) && InOrder(b.pathPattern, r.path) ==>
      Serves(b, r.host, r.path)
    ensures FirstMatch(bs, req).Some? && Serves(FirstMatch(bs, req).value, r.host, r.path)
  {
    FirstMatchMeaning(bs, req);
    assert r.path in PatternsOf(r);
    assert HasBehavior(bs, r.host, r.path);
    var b :| b in bs && Serves(b, r.host, r.path);
    if FirstMatch(bs, req).value != b {
      assert InOrder(FirstMatch(bs, req).value.pathPattern, b.pathPattern);
    }
  }

  // ----- which patterns there are, in terms of the paths

  /** A Prefix path is written twice, without its trailing slash; every other path is a pattern already. */
  ghost predicate WrittenAs(path: string, pathType: string, pattern: string) {
    if pathType != "Prefix" then pattern == path
    else if path == "/" then pattern == "/*"
    else exists n :: WithoutSlash(path, n) && (pattern == n || pattern == n + "/*")
  }

  predicate WithoutSlash(path: string, n: string) {
    path == n + "/" || (path == n && !HasSuffix(n, "/"))
  }

  lemma PatternsAreWritten(r: Rule, q: string)
    ensures q in PatternsOf(r) <==> WrittenAs(r.path, r.pathType, q)
  {
    var n := TrimSuffix(r.path, "/");
    assert HasSuffix(r.path, "/") ==> r.path == n + "/";
    assert WithoutSlash(r.path, n);
    forall m | WithoutSlash(r.path, m)
      ensures m == n
    {
      if r.path == m + "/" {
        assert (m + "/")[|m|..] == "/" && (m + "/")[..|m|] == m;
      }
    }
  }
}
