/** Path patterns as CloudFront reads them: `*` stands for zero or more characters, `?` for exactly one. */
module Glob {
  import opened GoStrings
  import opened Model
  import opened Specificity

  predicate Matches(p: string, s: string)
    decreases |p| + |s|
  {
    if p == "" then s == ""
    else if p[0] == '*' then Matches(p[1..], s) || (s != "" && Matches(p, s[1..]))
    else s != "" && (p[0] == '?' || p[0] == s[0]) && Matches(p[1..], s[1..])
  }

  predicate IsWildcard(c: char) {
    c == '*' || c == '?'
  }

  predicate WildcardFree(p: string) {
    forall k :: 0 <= k < |p| ==> !IsWildcard(p[k])
  }

  /** CloudFront serves a request by the first behavior whose pattern matches it. */
  function FirstMatch(bs: seq<Behavior>, req: string): Option<Behavior> {
    if bs == [] then None
    else if Matches(bs[0].pathPattern, req) then Some(bs[0])
    else FirstMatch(bs[1..], req)
  }

  lemma {:induction false} FirstMatchMeaning(bs: seq<Behavior>, req: string)
    ensures var m := FirstMatch(bs, req);
      && (m.None? <==> forall b :: b in bs ==> !Matches(b.pathPattern, req))
      && (m.Some? ==> m.value in bs && Matches(m.value.pathPattern, req))
    ensures var m := FirstMatch(bs, req);
      m.Some? && Ordered(bs) ==>
        forall b :: b in bs && Matches(b.pathPattern, req) && b != m.value
          ==> InOrder(m.value.pathPattern, b.pathPattern)
  {
    if bs != [] {
      FirstMatchMeaning(bs[1..], req);
      assert bs == [bs[0]] + bs[1..];
    }
  }

  lemma {:induction false} LiteralMatches(p: string, s: string)
    requires WildcardFree(p)
    ensures Matches(p, s) <==> p == s
  {
    if p != "" && s != "" {
      LiteralMatches(p[1..], s[1..]);
      assert p == [p[0]] + p[1..] && s == [s[0]] + s[1..];
    }
  }

  lemma {:induction false} StarMatchesAll(s: string)
    ensures Matches("*", s)
  {
    if s == "" {
      assert Matches("*"[1..], s);
    } else {
      StarMatchesAll(s[1..]);
    }
  }

  lemma {:induction false} TrailingStarMatches(p: string, s: string)
    requires WildcardFree(p)
    ensures Matches(p + "*", s) <==> p <= s
  {
    if p == "" {
      assert p + "*" == "*";
      StarMatchesAll(s);
    } else {
      assert (p + "*")[0] == p[0] && (p + "*")[1..] == p[1..] + "*";
      if s != "" {
        TrailingStarMatches(p[1..], s[1..]);
        assert p == [p[0]] + p[1..] && s == [s[0]] + s[1..];
      }
    }
  }

  // ----- in-place generalization

  /** q is p with some literals replaced by a wildcard, or `?` by `*`, position by position. */
  predicate Generalizes(p: string, q: string) {
    |p| == |q| && forall k :: 0 <= k < |p| ==> p[k] == q[k] || q[k] == '*' || (q[k] == '?' && p[k] != '*')
  }

  lemma {:induction false} GeneralizationMatches(p: string, q: string, s: string)
    requires Generalizes(p, q) && Matches(p, s)
    ensures Matches(q, s)
    decreases |p| + |s|
  {
    if p != "" {
      if p[0] == '*' {
        if Matches(p[1..], s) {
          GeneralizationMatches(p[1..], q[1..], s);
        } else {
          GeneralizationMatches(p, q, s[1..]);
        }
      } else {
        GeneralizationMatches(p[1..], q[1..], s[1..]);
        if q[0] == '*' {
          assert Matches(q[1..], s[1..]);
          assert Matches(q, s[1..]);
        }
      }
    }
  }

  lemma {:induction false} GeneralizationSortsLater(p: string, q: string)
    requires Generalizes(p, q)
    ensures InOrderFrom(p, q)
    decreases |p|
  {
    if p != "" && p[0] == q[0] {
      var w := RuneWidth(p);
      GeneralizationSortsLater(p[w..], q[w..]);
    }
  }

  lemma {:induction false} ProperGeneralizationSortsStrictlyLater(p: string, q: string)
    requires Generalizes(p, q) && p != q && ValidUtf8(p) && ValidUtf8(q)
    ensures !InOrderFrom(q, p)
    decreases |p|
  {
    if p[0] == q[0] {
      SameFirstRune(p, q);
      var w := RuneWidth(q);
      ProperGeneralizationSortsStrictlyLater(p[w..], q[w..]);
    }
  }

  /** Wildcards are single bytes, so a rune whose lead byte is kept is kept as a whole. */
  lemma SameFirstRune(p: string, q: string)
    requires Generalizes(p, q) && p != "" && p[0] == q[0] && ValidUtf8(p) && ValidUtf8(q)
    ensures RuneWidth(p) == RuneWidth(q)
    ensures p != q ==> p[RuneWidth(p)..] != q[RuneWidth(p)..]
  {
    var w := RuneWidth(q);
    RuneContinues(q);
    assert forall k :: 0 < k < w ==> Continuation(q[k]) && p[k] == q[k];
    assert p[..w] == q[..w];
    assert p == p[..w] + p[w..] && q == q[..w] + q[w..];
  }

  /** A generalization matches more and never sorts before the pattern it generalizes. */
  lemma GeneralizationNeverShadows(p: string, q: string)
    requires Generalizes(p, q)
    ensures forall s :: Matches(p, s) ==> Matches(q, s)
    ensures InOrder(p, q)
    ensures ValidUtf8(p) && ValidUtf8(q) && p != q ==> !InOrder(q, p)
  {
    forall s | Matches(p, s)
      ensures Matches(q, s)
    {
      GeneralizationMatches(p, q, s);
    }
    GeneralizationSortsLater(p, q);
    if ValidUtf8(p) && ValidUtf8(q) && p != q {
      ProperGeneralizationSortsStrictlyLater(p, q);
    }
  }

  /** So a request that some behavior matches is never served by a proper generalization of that behavior. */
  lemma NoRequestIsShadowed(bs: seq<Behavior>, b: Behavior, req: string)
    requires Ordered(bs) && AllValid(bs)
    requires b in bs && Matches(b.pathPattern, req)
    ensures FirstMatch(bs, req).Some?
    ensures var winner := FirstMatch(bs, req).value.pathPattern;
      Generalizes(b.pathPattern, winner) ==> winner == b.pathPattern
  {
    FirstMatchMeaning(bs, req);
    var winner := FirstMatch(bs, req).value.pathPattern;
    if Generalizes(b.pathPattern, winner) {
      GeneralizationNeverShadows(b.pathPattern, winner);
    }
  }
}
