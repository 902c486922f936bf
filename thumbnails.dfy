/**
 * getThumbnail: the ordered fallback chain that picks an adjacent item's
 * image, and the scan for the first `data-src="..."` or `src="..."` in its
 * body, written out as a left-to-right search instead of a regular expression.
 */
module Thumbnails {
  import opened Wrappers
  import opened Js
  import opened Settings

  /** The literal parts of the two alternatives of /data-src="([^"]+)"|src="([^"]+)"/. */
  const DataSrc: string := "data-src=\""
  const Src: string := "src=\""

  /** Index of the first '"' at or after j, or |s| when there is none. */
  function QuoteFrom(s: string, j: nat): (k: nat)
    requires j <= |s|
    ensures j <= k <= |s|
    ensures forall m :: j <= m < k ==> s[m] != '"'
    ensures k < |s| ==> s[k] == '"'
    decreases |s| - j
  {
    if j == |s| || s[j] == '"' then j else QuoteFrom(s, j + 1)
  }

  /** The pattern p([^"]+)" matches s at position i and captures u. */
  ghost predicate Captures(s: string, i: nat, p: string, u: string)
  {
    && u != []
    && '"' !in u
    && i + |p| + |u| < |s|
    && s[i..i + |p|] == p
    && s[i + |p|..i + |p| + |u|] == u
    && s[i + |p| + |u|] == '"'
  }

  /** Try p([^"]+)" at position i: the greedy run of non-quotes must be non-empty and closed by a quote. */
  function CaptureAt(s: string, i: nat, p: string): Option<string>
  {
    if i + |p| <= |s| && s[i..i + |p|] == p then
      var j := i + |p|;
      var k := QuoteFrom(s, j);
      if j < k < |s| then Some(s[j..k]) else None
    else None
  }

  lemma CaptureAtCorrect(s: string, i: nat, p: string, u: string)
    ensures CaptureAt(s, i, p) == Some(u) <==> Captures(s, i, p, u)
  {
    if Captures(s, i, p, u) {
      var j := i + |p|;
      var k := QuoteFrom(s, j);
      forall m | j <= m < j + |u| ensures s[m] != '"' {
        assert s[m] == u[m - j];
      }
      assert k == j + |u|;
    }
    if CaptureAt(s, i, p) == Some(u) {
      var j := i + |p|;
      var k := QuoteFrom(s, j);
      assert u == s[j..k];
      forall m | 0 <= m < |u| ensures u[m] != '"' {
        assert u[m] == s[j + m];
      }
    }
  }

  /** The two alternatives begin with different characters, so at most one matches at a position. */
  lemma AlternativesExclusive(s: string, i: nat, u: string, v: string)
    ensures !(Captures(s, i, DataSrc, u) && Captures(s, i, Src, v))
  {
    StartsWithFirst(s, i, DataSrc, u);
    StartsWithFirst(s, i, Src, v);
  }

  /** A match of p([^"]+)" starts with the first character of p. */
  lemma StartsWithFirst(s: string, i: nat, p: string, u: string)
    requires p != []
    ensures Captures(s, i, p, u) ==> s[i] == p[0]
  {
    if Captures(s, i, p, u) {
      assert s[i] == s[i..i + |p|][0];
    }
  }

  /** A match of the pattern begins at i with capture u, through either alternative. */
  ghost predicate MatchesAt(s: string, i: nat, u: string)
  {
    Captures(s, i, DataSrc, u) || Captures(s, i, Src, u)
  }

  /** The alternation at one position: the first alternative, then the second. */
  function MatchAt(s: string, i: nat): Option<string>
  {
    var first := CaptureAt(s, i, DataSrc);
    if first.Some? then first else CaptureAt(s, i, Src)
  }

  lemma MatchAtCorrect(s: string, i: nat, u: string)
    ensures MatchAt(s, i) == Some(u) <==> MatchesAt(s, i, u)
  {
    CaptureAtCorrect(s, i, DataSrc, u);
    CaptureAtCorrect(s, i, Src, u);
    var first := CaptureAt(s, i, DataSrc);
    if first.Some? {
      CaptureAtCorrect(s, i, DataSrc, first.value);
      AlternativesExclusive(s, i, first.value, u);
    }
  }

  /** The match String.prototype.match reports: where it starts and the captured URL. */
  datatype ImageMatch = ImageMatch(index: nat, url: string)

  /** Try every position from `from` on, left to right, and stop at the first match. */
  function FindImage(s: string, from: nat): Option<ImageMatch>
    decreases |s| - from
  {
    if from >= |s| then None
    else match MatchAt(s, from)
      case Some(u) => Some(ImageMatch(from, u))
      case None => FindImage(s, from + 1)
  }

  /** The match at i with capture u is the leftmost one in s. */
  ghost predicate Leftmost(s: string, i: nat, u: string)
  {
    MatchesAt(s, i, u) && forall j: nat, v :: j < i ==> !MatchesAt(s, j, v)
  }

  /** What the scan reports is a match, and no position between `from` and it matches. */
  lemma {:induction false} FindImageSound(s: string, from: nat)
    ensures var r := FindImage(s, from);
      r.Some? ==>
        && from <= r.value.index
        && MatchAt(s, r.value.index) == Some(r.value.url)
        && forall j: nat :: from <= j < r.value.index ==> MatchAt(s, j).None?
    decreases |s| - from
  {
    if from < |s| && MatchAt(s, from).None? {
      FindImageSound(s, from + 1);
    }
  }

  /** When the scan reports nothing, no position from `from` on matches. */
  lemma {:induction false} FindImageComplete(s: string, from: nat)
    ensures FindImage(s, from).None? ==> forall j: nat :: from <= j ==> MatchAt(s, j).None?
    decreases |s| - from
  {
    if from < |s| {
      FindImageComplete(s, from + 1);
    } else {
      forall j: nat | from <= j ensures MatchAt(s, j).None? {
        assert CaptureAt(s, j, DataSrc).None? && CaptureAt(s, j, Src).None?;
      }
    }
  }

  /** The scan finds exactly the leftmost match of the pattern. */
  lemma FindImageLeftmost(s: string, i: nat, u: string)
    ensures FindImage(s, 0) == Some(ImageMatch(i, u)) <==> Leftmost(s, i, u)
  {
    FindImageSound(s, 0);
    FindImageComplete(s, 0);
    MatchAtCorrect(s, i, u);
    var r := FindImage(s, 0);
    if r.Some? {
      MatchAtCorrect(s, r.value.index, r.value.url);
      forall j: nat, v | j < r.value.index ensures !MatchesAt(s, j, v) {
        MatchAtCorrect(s, j, v);
      }
    }
  }

  /** The format query parameter, joined with '&' when the URL already has a query and with '?' otherwise. */
  function WithFormat(url: string, format: string): (r: string)
    ensures r == url + [if '?' in url then '&' else '?'] + "format=" + format
    ensures '?' in r
  {
    if '?' in url then url + "&format=" + format else url + "?format=" + format
  }

  /** getThumbnail: None plays the part of null; a non-string body makes `.match` throw. */
  function GetThumbnail(settings: Settings, item: Object): (r: Outcome<Option<string>>)
    ensures !Truthy(Get(settings, "showThumbnails")) ==> r == Ok(None)
    ensures Truthy(Get(settings, "showThumbnails")) && Truthy(Get(item, "assetUrl")) ==>
      r == Ok(Some(Concat(Get(item, "assetUrl"), Get(settings, "thumbnailFilename"))))
    ensures r.Thrown? <==>
      Truthy(Get(settings, "showThumbnails")) && !Truthy(Get(item, "assetUrl")) &&
      Truthy(Get(item, "body")) && !Get(item, "body").VStr?
    ensures r.Ok? && r.value.Some? ==> r.value.value != ""
  {
    if !Truthy(Get(settings, "showThumbnails")) then Ok(None)
    else
      var asset := Get(item, "assetUrl");
      if Truthy(asset) then Ok(Some(Concat(asset, Get(settings, "thumbnailFilename"))))
      else
        var body := Get(item, "body");
        if !Truthy(body) then Ok(None)
        else if !body.VStr? then Thrown(TypeError("item.body.match is not a function"))
        else match FindImage(body.str, 0)
          case None => Ok(None)
          case Some(m) => Ok(Some(WithFormat(m.url, ToStr(Get(settings, "thumbnailFormat")))))
  }

  /** Without an asset URL, the leftmost image reference in the body gives the thumbnail. */
  lemma ThumbnailFromBody(settings: Settings, item: Object, i: nat, u: string)
    requires Truthy(Get(settings, "showThumbnails")) && !Truthy(Get(item, "assetUrl"))
    requires Get(item, "body").VStr? && Leftmost(Get(item, "body").str, i, u)
    ensures GetThumbnail(settings, item) == Ok(Some(WithFormat(u, ToStr(Get(settings, "thumbnailFormat")))))
  {
    FindImageLeftmost(Get(item, "body").str, i, u);
  }

  /**
   * Without an asset URL, a missing or falsy body, or a body without any
   * image reference, gives no thumbnail.
   */
  lemma NoThumbnailWithoutImage(settings: Settings, item: Object)
    requires !Truthy(Get(item, "assetUrl"))
    requires !Truthy(Get(item, "body")) ||
      (Get(item, "body").VStr? && forall j: nat, v :: !MatchesAt(Get(item, "body").str, j, v))
    ensures GetThumbnail(settings, item) == Ok(None)
  {
    if !Truthy(Get(item, "body")) {
      return;
    }
    var s := Get(item, "body").str;
    FindImageSound(s, 0);
    var r := FindImage(s, 0);
    if r.Some? {
      MatchAtCorrect(s, r.value.index, r.value.url);
    }
  }

  /** The asset URL, when there is one, is joined with the thumbnail filename. */
  lemma AssetUrlExample()
    ensures GetThumbnail(Merge(None), map["assetUrl" := VStr("https://x/img/")]) == Ok(Some("https://x/img/thumbnail.jpg"))
  {
    assert Get(Merge(None), "showThumbnails") == VBool(true);
    assert Get(Merge(None), "thumbnailFilename") == VStr("thumbnail.jpg");
    assert "https://x/img/" + "thumbnail.jpg" == "https://x/img/thumbnail.jpg";
  }

  /** In `<img data-src="https://y/a.jpg">` the leftmost match starts at 5 and captures the URL. */
  lemma DataSrcLeftmost()
    ensures Leftmost("<img data-src=\"https://y/a.jpg\">", 5, "https://y/a.jpg")
  {
    var s := "<img data-src=\"https://y/a.jpg\">";
    DataSrcCaptured(s);
    forall j: nat, v | j < 5 ensures !MatchesAt(s, j, v) {
      StartsWithFirst(s, j, DataSrc, v);
      StartsWithFirst(s, j, Src, v);
    }
  }

  lemma DataSrcCaptured(s: string)
    requires s == "<img " + DataSrc + "https://y/a.jpg" + "\">"
    ensures Captures(s, 5, DataSrc, "https://y/a.jpg")
  {
  }

  /** A lazy-load source in the body, with no query of its own, gets "?format=300w". */
  lemma DataSrcExample(settings: Settings, item: Object)
    requires settings == Merge(None) && item == map["body" := VStr("<img data-src=\"https://y/a.jpg\">")]
    ensures GetThumbnail(settings, item) == Ok(Some("https://y/a.jpg?format=300w"))
  {
    DataSrcLeftmost();
    assert Get(settings, "showThumbnails") == VBool(true);
    assert Get(settings, "thumbnailFormat") == VStr("300w");
    assert Get(item, "assetUrl") == VUndefined;
    ThumbnailFromBody(settings, item, 5, "https://y/a.jpg");
    QueryFreeUrlExample();
  }

  lemma QueryFreeUrlExample()
    ensures WithFormat("https://y/a.jpg", "300w") == "https://y/a.jpg?format=300w"
  {
  }

  /** A URL that already has a query gets the format joined with '&'. */
  lemma QueryUrlExample()
    ensures WithFormat("https://y/a.jpg?w=1", "300w") == "https://y/a.jpg?w=1&format=300w"
  {
  }
}
