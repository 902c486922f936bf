/** The URL of the page's JSON representation. */
module Url {

  const JsonQuery: string := "?format=json"

  /** s.split(c)[0]: the part of s before its first c, or all of s. */
  function PrefixBefore(s: string, c: char): (r: string)
    ensures r <= s
    ensures c !in r
    ensures |r| < |s| ==> s[|r|] == c
  {
    if s == [] then [] else if s[0] == c then [] else [s[0]] + PrefixBefore(s[1..], c)
  }

  /** The three properties of PrefixBefore determine its result. */
  lemma PrefixBeforeUnique(s: string, c: char, r: string)
    requires r <= s && c !in r && (|r| < |s| ==> s[|r|] == c)
    ensures PrefixBefore(s, c) == r
  {
    var q := PrefixBefore(s, c);
    assert q == s[..|q|] && r == s[..|r|];
  }

  /** Everything before the first '?' or '#' of href. */
  function PageBase(href: string): (r: string)
    ensures r <= href && '?' !in r && '#' !in r
    ensures |r| < |href| ==> href[|r|] == '?' || href[|r|] == '#'
  {
    PrefixBefore(PrefixBefore(href, '?'), '#')
  }

  /** getCleanUrl with window.location.href passed in. */
  function CleanUrl(href: string): (r: string)
    ensures |r| == |PageBase(href)| + |JsonQuery|
    ensures r[..|PageBase(href)|] == PageBase(href) && r[|PageBase(href)|..] == JsonQuery
  {
    var withoutQuery := PrefixBefore(href, '?');
    var withoutHash := PrefixBefore(withoutQuery, '#');
    withoutHash + JsonQuery
  }

  /** The clean URL is the part of href before its first '?' or '#', whichever comes first, plus the JSON query. */
  lemma CleanUrlIsBase(href: string, k: nat)
    requires k <= |href| && '?' !in href[..k] && '#' !in href[..k]
    requires k < |href| ==> href[k] == '?' || href[k] == '#'
    ensures CleanUrl(href) == href[..k] + JsonQuery
  {
    var b := PageBase(href);
    assert b == href[..|b|];
  }

  /** Cleaning a clean URL changes nothing. */
  lemma CleanUrlIdempotent(href: string)
    ensures CleanUrl(CleanUrl(href)) == CleanUrl(href)
  {
    var b := PageBase(href);
    var u := CleanUrl(href);
    assert u == b + JsonQuery;
    PrefixBeforeUnique(u, '?', b);
    PrefixBeforeUnique(b, '#', b);
  }
}
