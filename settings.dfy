/** The default settings record and the shallow merge of caller overrides onto it. */
module Settings {
  import opened Wrappers
  import opened Js

  /** A settings object: every recognised key maps to some value after merging. */
  type Settings = map<string, Value>

  /** The chevron icons, reduced to their path data; the other SVG attributes are presentational. */
  const PrevIcon: string := "<svg><path d=\"m15 18-6-6 6-6\"/></svg>"
  const NextIcon: string := "<svg><path d=\"m9 18 6-6-6-6\"/></svg>"

  /**
   * The defaults. The label element's tag is read from the key "lableTag"
   * (spelled so in the script); no key "labelTag" exists.
   */
  const Defaults: Settings := map[
    "prevLabel" := VStr("Previous"),
    "nextLabel" := VStr("Next"),
    "showThumbnails" := VBool(true),
    "thumbnailFormat" := VStr("300w"),
    "thumbnailFilename" := VStr("thumbnail.jpg"),
    "prevIcon" := VStr(PrevIcon),
    "nextIcon" := VStr(NextIcon),
    "containerClass" := VStr("blog-nav-container"),
    "arrowClass" := VStr("blog-nav-arrow"),
    "linkClass" := VStr("blog-nav-link"),
    "iconClass" := VStr("blog-nav-arrow-icon"),
    "contentClass" := VStr("blog-nav-content"),
    "thumbnailClass" := VStr("blog-nav-thumbnail"),
    "textClass" := VStr("blog-nav-text"),
    "labelClass" := VStr("blog-nav-label"),
    "lableTag" := VStr("p"),
    "titleClass" := VStr("blog-nav-title"),
    "titleTag" := VStr("h3"),
    "appendTo" := VStr("#sections"),
    "insertPosition" := VStr("append"),
    "sectionTheme" := VNull
  ]

  /**
   * Object.assign({}, defaults, user || {}): a falsy user value (None) adds
   * nothing; otherwise each of the user's own keys replaces the default.
   */
  function Merge(user: Option<Object>): (r: Settings)
    ensures user.None? ==> r == Defaults
    ensures user.Some? ==> r.Keys == Defaults.Keys + user.value.Keys
    ensures forall k :: user.Some? && k in user.value ==> k in r && r[k] == user.value[k]
    ensures forall k :: k in Defaults && (user.None? || k !in user.value) ==> k in r && r[k] == Defaults[k]
  {
    match user
    case None => Defaults
    case Some(u) => Defaults + u
  }

  /** Reading any key of the merged settings: the user's value when given, the default's otherwise. */
  lemma MergeGet(user: Option<Object>, key: string)
    ensures Get(Merge(user), key) == if user.Some? && key in user.value then user.value[key] else Get(Defaults, key)
  {
  }
}
