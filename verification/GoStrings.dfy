/** Go strings: sequences of bytes, written here with one `char` per byte. */
module GoStrings {

  predicate HasPrefix(s: string, prefix: string) {
    prefix <= s
  }

  predicate HasSuffix(s: string, suffix: string) {
    |suffix| <= |s| && s[|s| - |suffix|..] == suffix
  }

  /** `strings.TrimSuffix`: removes one occurrence at most. */
  function TrimSuffix(s: string, suffix: string): string {
    if HasSuffix(s, suffix) then s[..|s| - |suffix|] else s
  }

  /** `strings.Contains` */
  predicate Contains(s: string, sub: string) {
    exists k :: 0 <= k <= |s| - |sub| && OccursAt(s, sub, k)
  }

  predicate OccursAt(s: string, sub: string, k: nat) {
    k + |sub| <= |s| && s[k..k + |sub|] == sub
  }

  /** Bytes that a multi-byte rune starting with `b` occupies (section 4 of RFC 3629); 0 if `b` starts none. */
  function MultiByteWidth(b: char): nat {
    var n := b as int;
    if 0xC2 <= n <= 0xDF then 2 else if 0xE0 <= n <= 0xEF then 3 else if 0xF0 <= n <= 0xF4 then 4 else 0
  }

  predicate Continuation(b: char) {
    0x80 <= b as int <= 0xBF
  }

  /** The second byte is restricted further for four lead bytes (overlong forms, surrogates, above U+10FFFF). */
  predicate SecondByte(lead: char, b: char) {
    && Continuation(b)
    && (lead as int == 0xE0 ==> b as int >= 0xA0)
    && (lead as int == 0xED ==> b as int <= 0x9F)
    && (lead as int == 0xF0 ==> b as int >= 0x90)
    && (lead as int == 0xF4 ==> b as int <= 0x8F)
  }

  predicate StartsMultiByte(s: string) {
    && s != ""
    && var w := MultiByteWidth(s[0]);
    && 2 <= w <= |s|
    && SecondByte(s[0], s[1])
    && (w >= 3 ==> Continuation(s[2]))
    && (w >= 4 ==> Continuation(s[3]))
  }

  /** How far `range` advances over `s`: the first rune's width, or 1 where the bytes are not UTF-8. */
  function RuneWidth(s: string): (w: nat)
    requires s != ""
    ensures 1 <= w <= |s|
  {
    if StartsMultiByte(s) then MultiByteWidth(s[0]) else 1
  }

  predicate ValidUtf8(s: string) {
    s == "" || ((s[0] as int < 0x80 || StartsMultiByte(s)) && ValidUtf8(s[RuneWidth(s)..]))
  }

  predicate Ascii(s: string) {
    forall k :: 0 <= k < |s| ==> s[k] as int < 0x80
  }

  /** The first byte of every rune. */
  function LeadBytes(s: string): string {
    if s == "" then "" else [s[0]] + LeadBytes(s[RuneWidth(s)..])
  }

  lemma {:induction false} AsciiIsItsLeadBytes(s: string)
    requires Ascii(s)
    ensures ValidUtf8(s) && LeadBytes(s) == s
  {
    if s != "" {
      AsciiIsItsLeadBytes(s[1..]);
    }
  }

  /** The bytes of a rune after its first are continuation bytes. */
  lemma RuneContinues(s: string)
    requires s != "" && ValidUtf8(s)
    ensures forall k :: 0 < k < RuneWidth(s) ==> Continuation(s[k])
  {
    if StartsMultiByte(s) {
      assert RuneWidth(s) <= 4;
    }
  }

  /** The head of a valid string reads the same whatever follows the string. */
  lemma HeadOfConcat(a: string, b: string)
    requires a != "" && (a[0] as int < 0x80 || StartsMultiByte(a))
    ensures RuneWidth(a + b) == RuneWidth(a)
    ensures (a + b)[0] == a[0] && (a + b)[RuneWidth(a)..] == a[RuneWidth(a)..] + b
    ensures (a + b)[0] as int < 0x80 || StartsMultiByte(a + b)
  {
    var c := a + b;
    assert forall k :: 0 <= k < |a| ==> c[k] == a[k];
    assert StartsMultiByte(a) ==> StartsMultiByte(c);
  }

  lemma {:induction false} ValidConcat(a: string, b: string)
    requires ValidUtf8(a) && ValidUtf8(b)
    ensures ValidUtf8(a + b)
  {
    if a == "" {
      assert a + b == b;
    } else {
      HeadOfConcat(a, b);
      ValidConcat(a[RuneWidth(a)..], b);
    }
  }
}
