/** The order of cache behaviors: internal/cloudfront/sort.go. */
module Specificity {
  import opened GoStrings
  import opened Model

  /** Literals come before `?`, and `?` before `*`. */
  function Rank(c: char): int {
    if c == '*' then 0x11_0001 else if c == '?' then 0x11_0000 else c as int
  }

  /** The reference order on strings of one length: lexicographic by rank. */
  predicate LexLeq(a: string, b: string) {
    a == "" || (b != "" && (Rank(a[0]) < Rank(b[0]) || (a[0] == b[0] && LexLeq(a[1..], b[1..]))))
  }

  /** The reference order on patterns: longer first, then lexicographic by rank of the runes' first bytes. */
  predicate Leq(i: string, j: string) {
    |i| > |j| || (|i| == |j| && LexLeq(LeadBytes(i), LeadBytes(j)))
  }

  /** What the `switch` of the comparison loop answers for two different bytes. */
  predicate Before(iChar: char, jChar: char) {
    if iChar == '*' then false
    else if iChar == '?' then jChar == '*'
    else if jChar == '*' || jChar == '?' then true
    else iChar < jChar
  }

  /** The loop over `range i`, for two strings of one length: it steps by rune and compares single bytes. */
  predicate InOrderFrom(i: string, j: string)
    requires |i| == |j|
  {
    if i == "" then true
    else if i[0] == j[0] then InOrderFrom(i[RuneWidth(i)..], j[RuneWidth(i)..])
    else Before(i[0], j[0])
  }

  predicate InOrder(i: string, j: string) {
    if |i| != |j| then |i| > |j| else InOrderFrom(i, j)
  }

  /** What the loop still has to decide at index idx. */
  predicate InOrderAt(i: string, j: string, idx: nat)
    requires idx <= |i| == |j|
  {
    InOrderFrom(i[idx..], j[idx..])
  }

  /** The width of the rune at index idx. */
  function WidthAt(s: string, idx: nat): (w: nat)
    requires idx < |s|
    ensures 1 <= w <= |s| - idx
  {
    RuneWidth(s[idx..])
  }

  lemma InOrderStep(i: string, j: string, idx: nat)
    requires idx < |i| == |j|
    ensures InOrderAt(i, j, idx) ==
      if i[idx] == j[idx] then InOrderAt(i, j, idx + WidthAt(i, idx)) else Before(i[idx], j[idx])
  {
    var w := WidthAt(i, idx);
    DropDrop(i, idx, w);
    DropDrop(j, idx, w);
    assert i[idx..][0] == i[idx] && j[idx..][0] == j[idx];
  }

  lemma DropDrop<T>(s: seq<T>, m: nat, n: nat)
    requires m + n <= |s|
    ensures s[m..][n..] == s[m + n..]
  {
  }

  lemma InOrderAtEnds(i: string, j: string)
    requires |i| == |j|
    ensures InOrderAt(i, j, 0) == InOrder(i, j) && InOrderAt(i, j, |i|)
  {
    assert i[0..] == i && j[0..] == j;
  }

  method IsInMostSpecificOrder(i: string, j: string) returns (r: bool)
    ensures r == InOrder(i, j)
    ensures ValidUtf8(i) && ValidUtf8(j) ==> r == Leq(i, j)
  {
    if ValidUtf8(i) && ValidUtf8(j) {
      InOrderIsLeq(i, j);
    }
    if |i| != |j| {
      return |i| > |j|;
    }
    var idx := 0;
    InOrderAtEnds(i, j);
    while idx < |i|
      invariant 0 <= idx <= |i|
      invariant InOrder(i, j) == InOrderAt(i, j, idx)
    {
      InOrderStep(i, j, idx);
      var iChar, jChar := i[idx], j[idx];
      if iChar == jChar {
        idx := idx + WidthAt(i, idx);
      } else if iChar == '*' {
        return false;
      } else if iChar == '?' {
        return jChar == '*';
      } else {
        if jChar == '*' || jChar == '?' {
          return true;
        }
        return iChar < jChar;
      }
    }
    return true;
  }

  // ----- the order that the code computes is the reference order

  lemma {:induction false} InOrderFromIsLex(i: string, j: string)
    requires |i| == |j| && ValidUtf8(i) && ValidUtf8(j)
    ensures InOrderFrom(i, j) == LexLeq(LeadBytes(i), LeadBytes(j))
  {
    if i != "" {
      if i[0] == j[0] {
        var w := RuneWidth(i);
        assert w == RuneWidth(j);
        InOrderFromIsLex(i[w..], j[w..]);
      }
    }
  }

  lemma InOrderIsLeq(i: string, j: string)
    requires ValidUtf8(i) && ValidUtf8(j)
    ensures InOrder(i, j) == Leq(i, j)
  {
    if |i| == |j| {
      InOrderFromIsLex(i, j);
    }
  }

  // ----- the reference order is total; its ties are known exactly

  lemma {:induction false} LexTotal(a: string, b: string)
    ensures LexLeq(a, b) || LexLeq(b, a)
    ensures LexLeq(a, b) && LexLeq(b, a) <==> a == b
  {
    if a != "" && b != "" {
      LexTotal(a[1..], b[1..]);
      if a[0] == b[0] && a[1..] == b[1..] {
        assert a == [a[0]] + a[1..] && b == [b[0]] + b[1..];
      }
    }
  }

  lemma {:induction false} LexTransitive(a: string, b: string, c: string)
    requires LexLeq(a, b) && LexLeq(b, c)
    ensures LexLeq(a, c)
  {
    if a != "" && a[0] == b[0] && b[0] == c[0] {
      LexTransitive(a[1..], b[1..], c[1..]);
    }
  }

  /** On valid UTF-8 the code's order is reflexive, transitive and total, and so is its negation transitive. */
  lemma InOrderIsTotalPreorder(i: string, j: string, k: string)
    requires ValidUtf8(i) && ValidUtf8(j) && ValidUtf8(k)
    ensures InOrder(i, i)
    ensures InOrder(i, j) || InOrder(j, i)
    ensures InOrder(i, j) && InOrder(j, k) ==> InOrder(i, k)
    ensures !InOrder(i, j) && !InOrder(j, k) ==> !InOrder(i, k)
  {
    forall a, b | a in {i, j, k} && b in {i, j, k}
      ensures InOrder(a, b) == Leq(a, b)
    {
      InOrderIsLeq(a, b);
    }
    LexTotal(LeadBytes(i), LeadBytes(i));
    LexTotal(LeadBytes(i), LeadBytes(j));
    LexTotal(LeadBytes(j), LeadBytes(k));
    LeqTransitive(i, j, k);
    LeqTransitive(k, j, i);
  }

  lemma LeqTransitive(i: string, j: string, k: string)
    ensures Leq(i, j) && Leq(j, k) ==> Leq(i, k)
    ensures !Leq(i, j) && !Leq(j, k) ==> !Leq(i, k)
  {
    var a, b, c := LeadBytes(i), LeadBytes(j), LeadBytes(k);
    if LexLeq(a, b) && LexLeq(b, c) {
      LexTransitive(a, b, c);
    }
    LexTotal(a, b);
    LexTotal(b, c);
    LexTotal(a, c);
    if LexLeq(c, b) && LexLeq(b, a) {
      LexTransitive(c, b, a);
    }
  }

  /** Two patterns tie exactly when they have one length and one sequence of lead bytes. */
  lemma TiesExactly(i: string, j: string)
    requires ValidUtf8(i) && ValidUtf8(j)
    ensures InOrder(i, j) && InOrder(j, i) <==> |i| == |j| && LeadBytes(i) == LeadBytes(j)
  {
    InOrderIsLeq(i, j);
    InOrderIsLeq(j, i);
    LexTotal(LeadBytes(i), LeadBytes(j));
  }

  /** On ASCII the order is antisymmetric. */
  lemma AsciiAntisymmetric(i: string, j: string)
    requires Ascii(i) && Ascii(j)
    requires InOrder(i, j) && InOrder(j, i)
    ensures i == j
  {
    AsciiIsItsLeadBytes(i);
    AsciiIsItsLeadBytes(j);
    TiesExactly(i, j);
  }

  /** Beyond ASCII it is not: U+00E9 and U+00E8 share their lead byte 0xC3. */
  lemma NotAntisymmetric()
    ensures var i, j := "\U{C3}\U{A9}", "\U{C3}\U{A8}";
      ValidUtf8(i) && ValidUtf8(j) && i != j && InOrder(i, j) && InOrder(j, i)
  {
    var i, j := "\U{C3}\U{A9}", "\U{C3}\U{A8}";
    assert RuneWidth(i) == 2 && RuneWidth(j) == 2;
    assert i[2..] == "" && j[2..] == "";
    assert i[1] != j[1];
  }

  // ----- the in-place sort

  predicate Ordered(bs: seq<Behavior>) {
    forall i, j :: 0 <= i < j < |bs| ==> InOrder(bs[i].pathPattern, bs[j].pathPattern)
  }

  predicate AllValid(bs: seq<Behavior>) {
    forall b :: b in bs ==> ValidUtf8(b.pathPattern)
  }

  method Less(s: array<Behavior>, i: nat, j: nat) returns (r: bool)
    requires i < s.Length && j < s.Length
    ensures r == InOrder(s[i].pathPattern, s[j].pathPattern)
  {
    r := IsInMostSpecificOrder(s[i].pathPattern, s[j].pathPattern);
  }

  method Swap(s: array<Behavior>, i: nat, j: nat)
    requires i < s.Length && j < s.Length
    modifies s
    ensures s[..] == old(s[..])[i := old(s[j])][j := old(s[i])]
    ensures multiset(s[..]) == multiset(old(s[..]))
  {
    s[i], s[j] := s[j], s[i];
  }

  /** Inserts b from the right: it moves past every behavior that it may precede. */
  function Inserted(bs: seq<Behavior>, b: Behavior): seq<Behavior> {
    if bs == [] then [b]
    else
      var n := |bs| - 1;
      if InOrder(b.pathPattern, bs[n].pathPattern) then Inserted(bs[..n], b) + [bs[n]] else bs + [b]
  }

  function SortedBehaviors(bs: seq<Behavior>): seq<Behavior> {
    if bs == [] then []
    else
      var n := |bs| - 1;
      Inserted(SortedBehaviors(bs[..n]), bs[n])
  }

  /** `sort.Sort` as insertion sort, reaching the slice through Less and Swap alone. */
  method Sort(s: array<Behavior>)
    modifies s
    ensures s[..] == SortedBehaviors(old(s[..]))
    ensures multiset(s[..]) == multiset(old(s[..]))
    ensures AllValid(old(s[..])) ==> Ordered(s[..])
  {
    ghost var was := s[..];
    for i := 0 to s.Length
      invariant s[..i] == SortedBehaviors(was[..i])
      invariant s[i..] == was[i..]
    {
      assert was[..i + 1][..i] == was[..i] && s[i] == s[i..][0] == was[i];
      ghost var goal := SortedBehaviors(was[..i + 1]);
      assert s[i + 1..i + 1] == [];
      var j := i;
      while j > 0
        invariant 0 <= j <= i
        invariant Inserted(s[..j], s[j]) + s[j + 1..i + 1] == goal
        invariant s[i + 1..] == was[i + 1..]
      {
        var misplaced := Less(s, j, j - 1);
        if !misplaced {
          break;
        }
        ghost var before := s[..];
        Swap(s, j, j - 1);
        InsertingStep(before, s[..], j, i);
        assert s[i + 1..] == before[i + 1..];
        j := j - 1;
      }
      InsertingDone(s[..], j, i);
    }
    assert s[..s.Length] == s[..] && was[..s.Length] == was;
    SortedIsPermutation(was);
    if AllValid(was) {
      SortedIsOrdered(was);
    }
  }

  lemma InsertingStep(bs: seq<Behavior>, cs: seq<Behavior>, j: nat, i: nat)
    requires 0 < j <= i < |bs| && cs == bs[j := bs[j - 1]][j - 1 := bs[j]]
    requires InOrder(bs[j].pathPattern, bs[j - 1].pathPattern)
    ensures Inserted(cs[..j - 1], cs[j - 1]) + cs[j..i + 1] == Inserted(bs[..j], bs[j]) + bs[j + 1..i + 1]
  {
    assert bs[..j][..j - 1] == bs[..j - 1] == cs[..j - 1];
    assert cs[j..i + 1] == [bs[j - 1]] + bs[j + 1..i + 1];
  }

  lemma InsertingDone(bs: seq<Behavior>, j: nat, i: nat)
    requires j <= i < |bs|
    requires j > 0 ==> !InOrder(bs[j].pathPattern, bs[j - 1].pathPattern)
    ensures Inserted(bs[..j], bs[j]) + bs[j + 1..i + 1] == bs[..i + 1]
  {
  }

  lemma {:induction false} InsertedIsPermutation(bs: seq<Behavior>, b: Behavior)
    ensures multiset(Inserted(bs, b)) == multiset(bs) + multiset{b}
  {
    if bs != [] {
      var n := |bs| - 1;
      assert bs == bs[..n] + [bs[n]];
      InsertedIsPermutation(bs[..n], b);
    }
  }

  lemma {:induction false} SortedIsPermutation(bs: seq<Behavior>)
    ensures multiset(SortedBehaviors(bs)) == multiset(bs)
  {
    if bs != [] {
      var n := |bs| - 1;
      assert bs == bs[..n] + [bs[n]];
      SortedIsPermutation(bs[..n]);
      InsertedIsPermutation(SortedBehaviors(bs[..n]), bs[n]);
    }
  }

  lemma {:induction false} InsertedIsOrdered(bs: seq<Behavior>, b: Behavior)
    requires AllValid(bs) && ValidUtf8(b.pathPattern) && Ordered(bs)
    ensures Ordered(Inserted(bs, b))
  {
    if bs != [] {
      var n := |bs| - 1;
      InOrderIsTotalPreorder(b.pathPattern, bs[n].pathPattern, b.pathPattern);
      if InOrder(b.pathPattern, bs[n].pathPattern) {
        InsertedIsOrdered(bs[..n], b);
        InsertedIsPermutation(bs[..n], b);
        forall c | c in Inserted(bs[..n], b)
          ensures InOrder(c.pathPattern, bs[n].pathPattern)
        {
          assert c in multiset(bs[..n]) + multiset{b};
        }
      } else {
        forall c | c in bs
          ensures InOrder(c.pathPattern, b.pathPattern)
        {
          InOrderIsTotalPreorder(c.pathPattern, bs[n].pathPattern, b.pathPattern);
          InOrderIsTotalPreorder(c.pathPattern, c.pathPattern, c.pathPattern);
        }
      }
    }
  }

  lemma {:induction false} SortedIsOrdered(bs: seq<Behavior>)
    requires AllValid(bs)
    ensures Ordered(SortedBehaviors(bs))
  {
    if bs != [] {
      var n := |bs| - 1;
      SortedIsOrdered(bs[..n]);
      SortedIsPermutation(bs[..n]);
      PermutationStaysValid(bs[..n], SortedBehaviors(bs[..n]));
      InsertedIsOrdered(SortedBehaviors(bs[..n]), bs[n]);
    }
  }

  lemma PermutationStaysValid(original: seq<Behavior>, bs: seq<Behavior>)
    requires multiset(bs) == multiset(original) && AllValid(original)
    ensures AllValid(bs)
  {
    forall b | b in bs
      ensures ValidUtf8(b.pathPattern)
    {
      assert b in multiset(bs);
    }
  }

  // ----- any correct sort gives the same patterns

  function Patterns(bs: seq<Behavior>): (ps: seq<string>)
    ensures |ps| == |bs| && forall k :: 0 <= k < |bs| ==> ps[k] == bs[k].pathPattern
  {
    seq(|bs|, k requires 0 <= k < |bs| => bs[k].pathPattern)
  }

  predicate InOrderThroughout(ps: seq<string>) {
    forall i, j :: 0 <= i < j < |ps| ==> InOrder(ps[i], ps[j])
  }

  lemma FirstIsLeast(ps: seq<string>, p: string)
    requires InOrderThroughout(ps) && p in ps && Ascii(p)
    ensures InOrder(ps[0], p)
  {
    AsciiIsItsLeadBytes(p);
    InOrderIsTotalPreorder(p, p, p);
  }

  lemma SameFirst(ps: seq<string>, qs: seq<string>)
    requires multiset(ps) == multiset(qs) && ps != [] && qs != []
    requires InOrderThroughout(ps) && InOrderThroughout(qs)
    requires forall p :: p in ps ==> Ascii(p)
    ensures ps[0] == qs[0]
  {
    assert ps[0] in multiset(ps) && qs[0] in multiset(qs);
    FirstIsLeast(ps, qs[0]);
    FirstIsLeast(qs, ps[0]);
    AsciiAntisymmetric(ps[0], qs[0]);
  }

  /** Ordered ASCII patterns are determined by the multiset of patterns. */
  lemma {:induction false} OrderedArrangementIsUnique(ps: seq<string>, qs: seq<string>)
    requires multiset(ps) == multiset(qs)
    requires InOrderThroughout(ps) && InOrderThroughout(qs)
    requires forall p :: p in ps ==> Ascii(p)
    ensures ps == qs
  {
    assert |ps| == |multiset(ps)| == |multiset(qs)| == |qs|;
    if ps != [] {
      SameFirst(ps, qs);
      FirstAndRest(ps);
      FirstAndRest(qs);
      OrderedArrangementIsUnique(ps[1..], qs[1..]);
    }
  }

  lemma FirstAndRest<T>(s: seq<T>)
    requires s != []
    ensures s == [s[0]] + s[1..] && multiset(s[1..]) == multiset(s) - multiset{s[0]}
  {
    assert s == [s[0]] + s[1..];
    assert multiset(s) == multiset{s[0]} + multiset(s[1..]);
  }
}
