/**
  * Email and social-profile extraction from page text
  * (`is_hex_like_local_part`, `extract_emails_from_text`,
  * `extract_social_links_from_text`, and the `mailto:` scan of
  * `process_single_url`). The regular-expression engine is not modelled:
  * what `findall` returns is given as a sequence of matches.
  */
module Extraction {
  import opened Wrappers
  import opened Text

  /** Address suffixes that are really file names (`logo@2x.png`). */
  const InvalidTlds: set<string> := {
    "png", "jpg", "jpeg", "gif", "svg", "webp", "bmp", "ico", "tiff",
    "css", "js", "pdf", "doc", "docx", "xls", "xlsx", "ppt", "pptx", "zip"
  }

  /** Membership in `"0123456789abcdefABCDEF"`. */
  predicate IsHexDigit(c: char)
  {
    '0' <= c <= '9' || 'a' <= c <= 'f' || 'A' <= c <= 'F'
  }

  /** The default `min_length` of `is_hex_like_local_part`. */
  const HexTokenMinLength: int := 16

  /** `email.split('@')[0]`. */
  function LocalPart(email: string): string
  {
    BeforeFirst(email, '@')
  }

  /** `email.split('@')[-1].split('.')[-1].lower()`. */
  function TopLabel(email: string): string
  {
    Lower(AfterLast(AfterLast(email, '@'), '.'))
  }

  /**
    * `is_hex_like_local_part`: the local part is at least `minLength`
    * characters, all of them hexadecimal digits.
    */
  predicate IsHexLikeLocalPart(email: string, minLength: int)
  {
    |LocalPart(email)| >= minLength && forall k :: 0 <= k < |LocalPart(email)| ==> IsHexDigit(LocalPart(email)[k])
  }

  /** Only the text before the first `@` is inspected: the domain never matters. */
  lemma HexLikeIgnoresDomain(local: string, d1: string, d2: string, minLength: int)
    requires '@' !in local
    ensures IsHexLikeLocalPart(local + "@" + d1, minLength) == IsHexLikeLocalPart(local + "@" + d2, minLength)
    ensures LocalPart(local + "@" + d1) == local
  {
    BeforeFirstOf(local, '@', d1);
    BeforeFirstOf(local, '@', d2);
  }

  /** The two filters of `extract_emails_from_text`. */
  predicate KeepsAddress(email: string)
  {
    TopLabel(email) !in InvalidTlds && !IsHexLikeLocalPart(email, HexTokenMinLength)
  }

  /**
    * `extract_emails_from_text`: the plain matches and the quoted matches,
    * less those whose last domain label names a file type or whose local
    * part is a long hexadecimal token. Empty text yields nothing.
    */
  function ExtractEmails(text: string, plainMatches: seq<string>, quotedMatches: seq<string>): (r: set<string>)
    ensures text == "" ==> r == {}
    ensures text != "" ==> forall e :: e in r <==> (e in plainMatches || e in quotedMatches) && KeepsAddress(e)
    ensures forall e :: e in r ==> TopLabel(e) !in InvalidTlds
    ensures forall e :: e in r ==> !IsHexLikeLocalPart(e, 16)
  {
    if text == "" then {}
    else set e | e in plainMatches + quotedMatches && KeepsAddress(e)
  }

  /** The file-type filter ignores letter case: `logo@site.PNG` is dropped like `logo@site.png`. */
  lemma FileSuffixRejectedInAnyCase(name: string, host: string)
    requires '@' !in host && '.' !in host
    ensures !KeepsAddress(name + "@" + host + ".PNG")
  {
    var domain := host + ".PNG";
    var e := name + "@" + host + ".PNG";
    assert e == name + ['@'] + domain;
    assert '@' !in domain by {
      assert domain == host + ['.', 'P', 'N', 'G'];
    }
    AfterLastOf(name, '@', domain);
    assert domain == host + ['.'] + "PNG";
    AfterLastOf(host, '.', "PNG");
    UpperPng();
    assert TopLabel(e) == "png";
  }

  lemma UpperPng()
    ensures Lower("PNG") == "png"
  {
    var l := Lower("PNG");
    assert l[0] == LowerChar('P') == 'p';
    assert l[1] == LowerChar('N') == 'n';
    assert l[2] == LowerChar('G') == 'g';
  }

  /** The four platforms of `SOCIAL_REGEX`. */
  datatype Platform = Facebook | Instagram | LinkedIn | TwitterX

  const AllPlatforms: set<Platform> := {Facebook, Instagram, LinkedIn, TwitterX}

  lemma EveryPlatformListed(p: Platform)
    ensures p in AllPlatforms
  {
  }

  /** Links found per platform; every platform has an entry. */
  type SocialLinks = m: map<Platform, set<string>> | m.Keys == AllPlatforms
    witness map p | p in AllPlatforms :: {}

  function NoSocialLinks(): (r: SocialLinks)
    ensures forall p :: p in r ==> r[p] == {}
  {
    map p | p in AllPlatforms :: {}
  }

  /**
    * `extract_social_links_from_text`: for every platform the set of its
    * pattern's matches; empty text gives every platform the empty set.
    */
  function ExtractSocialLinks(text: string, matches: Platform -> seq<string>): (r: SocialLinks)
    ensures forall p :: p in r ==> (text == "" ==> r[p] == {})
    ensures text != "" ==> forall p, u :: p in r ==> (u in r[p] <==> u in matches(p))
  {
    if text == "" then NoSocialLinks()
    else map p | p in AllPlatforms :: Elements(matches(p))
  }

  /**
    * The addresses of the `mailto:` anchors of a page: the href after its
    * seven-character scheme, cut at the first `?`. They are kept without
    * the filters `ExtractEmails` applies.
    */
  function MailtoAddresses(hrefs: seq<string>): (r: set<string>)
    ensures forall h :: h in hrefs && StartsWith(Lower(h), "mailto:") ==> BeforeFirst(h[7..], '?') in r
    ensures forall e :: e in r ==> exists h :: h in hrefs && StartsWith(Lower(h), "mailto:") && e == BeforeFirst(h[7..], '?')
  {
    set h | h in hrefs && StartsWith(Lower(h), "mailto:") :: BeforeFirst(h[7..], '?')
  }

  /**
    * Any `mailto:` target without a `?` is collected as it is: no file-type
    * or hex-token filter applies to it (compare `FileSuffixRejected`).
    */
  lemma MailtoTargetOf(address: string, query: string)
    requires '?' !in address
    ensures address in MailtoAddresses(["mailto:" + address + "?" + query])
  {
    var h := "mailto:" + address + "?" + query;
    var l := Lower(h);
    assert l[0] == 'm' && l[1] == 'a' && l[2] == 'i' && l[3] == 'l' && l[4] == 't' && l[5] == 'o' && l[6] == ':';
    assert l[..7] == "mailto:";
    assert h[7..] == address + ['?'] + query;
    BeforeFirstOf(address, '?', query);
  }

  /** The address `ab@x.png` is one `ExtractEmails` drops. */
  lemma FileSuffixRejected()
    ensures !KeepsAddress("ab@x.png")
  {
    assert "ab@x.png" == "ab" + ['@'] + "x.png";
    AfterLastOf("ab", '@', "x.png");
    assert "x.png" == "x" + ['.'] + "png";
    AfterLastOf("x", '.', "png");
    var l := Lower("png");
    assert l[0] == 'p' && l[1] == 'n' && l[2] == 'g';
    assert TopLabel("ab@x.png") == "png";
  }
}
