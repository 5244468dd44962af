/** Names of origin access controls: internal/cloudfront/oac.go. */
module OriginAccess {
  import opened Model

  /** The first eight hexadecimal digits of an MD5 sum over both names; left uninterpreted. */
  type ShortId = (string, string) -> string

  const OAC_NAME_CHAR_LIMIT := 63

  /** `strings.Split(s, ".")[0]` */
  function FirstLabel(s: string): string {
    if s == "" || s[0] == '.' then "" else [s[0]] + FirstLabel(s[1..])
  }

  function OacName(shortId: ShortId, distribution: string, host: string): string {
    var s3Name := FirstLabel(host);
    var plain := distribution + "-" + s3Name;
    if |plain| <= OAC_NAME_CHAR_LIMIT then plain
    else FirstLabel(distribution) + "-" + shortId(distribution, s3Name)
  }

  function NewOAC(shortId: ShortId, distribution: string, host: string): OAC {
    OAC("", OacName(shortId, distribution, host), host)
  }

  /** Hosts that share their first label share their name, whatever the digest does. */
  lemma SameLabelSameName(shortId: ShortId, distribution: string, h: string, g: string)
    requires FirstLabel(h) == FirstLabel(g)
    ensures OacName(shortId, distribution, h) == OacName(shortId, distribution, g)
  {
  }

  /** The name that every host has whose name fits. */
  lemma ShortName(shortId: ShortId, distribution: string, host: string)
    requires |distribution| + 1 + |FirstLabel(host)| <= 63
    ensures OacName(shortId, distribution, host) == distribution + "-" + FirstLabel(host)
  {
  }

  /** Longer names are those of one digest: they are equal exactly when the digests are. */
  lemma LongNamesDifferByDigest(shortId: ShortId, distribution: string, h: string, g: string)
    requires |distribution| + 1 + |FirstLabel(h)| > 63 && |distribution| + 1 + |FirstLabel(g)| > 63
    ensures OacName(shortId, distribution, h) == OacName(shortId, distribution, g) <==>
      shortId(distribution, FirstLabel(h)) == shortId(distribution, FirstLabel(g))
  {
    var a, b := OacName(shortId, distribution, h), OacName(shortId, distribution, g);
    var n := |FirstLabel(distribution)| + 1;
    assert a[n..] == shortId(distribution, FirstLabel(h)) && b[n..] == shortId(distribution, FirstLabel(g));
  }

  /** With eight digits, every name starts with the group's first label, and fits if that leaves room for them. */
  lemma NamesFit(shortId: ShortId, distribution: string, host: string)
    requires |shortId(distribution, FirstLabel(host))| == 8 && |FirstLabel(distribution)| <= 54
    ensures |OacName(shortId, distribution, host)| <= 63
    ensures FirstLabel(distribution) <= OacName(shortId, distribution, host)
  {
    LabelIsPrefix(distribution);
  }

  lemma {:induction false} LabelIsPrefix(s: string)
    ensures FirstLabel(s) <= s && '.' !in FirstLabel(s) && (FirstLabel(s) == s || s[|FirstLabel(s)|] == '.')
  {
    if s != "" && s[0] != '.' {
      LabelIsPrefix(s[1..]);
    }
  }

  /** Short names differ exactly when the first labels do. */
  lemma ShortNamesDifferByLabel(shortId: ShortId, distribution: string, h: string, g: string)
    requires |distribution| + 1 + |FirstLabel(h)| <= OAC_NAME_CHAR_LIMIT
    requires |distribution| + 1 + |FirstLabel(g)| <= OAC_NAME_CHAR_LIMIT
    ensures OacName(shortId, distribution, h) == OacName(shortId, distribution, g) <==> FirstLabel(h) == FirstLabel(g)
  {
    var a, b := OacName(shortId, distribution, h), OacName(shortId, distribution, g);
    assert a[|distribution| + 1..] == FirstLabel(h);
    assert b[|distribution| + 1..] == FirstLabel(g);
  }
}
