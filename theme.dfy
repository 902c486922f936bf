/** The theme token written to the container's data-section-theme attribute. */
module Theme {
  import opened Wrappers
  import opened Js
  import opened Settings

  const FallbackTheme: string := "white"

  /**
   * A truthy sectionTheme setting wins; otherwise a non-empty
   * data-section-theme on the first `#sections > section` (the annotation,
   * None when there is no such section or no such attribute); otherwise
   * "white". The result is given as the attribute stores it, in string form.
   */
  function SectionTheme(settings: Settings, annotation: Option<string>): (r: string)
    ensures r != ""
    ensures Truthy(Get(settings, "sectionTheme")) ==> r == ToStr(Get(settings, "sectionTheme"))
    ensures !Truthy(Get(settings, "sectionTheme")) && annotation.Some? && annotation.value != "" ==> r == annotation.value
    ensures !Truthy(Get(settings, "sectionTheme")) && (annotation.None? || annotation.value == "") ==> r == FallbackTheme
  {
    var configured := Get(settings, "sectionTheme");
    if Truthy(configured) then ToStr(configured)
    else if annotation.Some? && annotation.value != "" then annotation.value
    else FallbackTheme
  }

  /** A non-empty string override is returned whatever the page says. */
  lemma OverrideWins(user: Object, theme: string, a1: Option<string>, a2: Option<string>)
    requires "sectionTheme" in user && user["sectionTheme"] == VStr(theme) && theme != ""
    ensures SectionTheme(Merge(Some(user)), a1) == theme
    ensures SectionTheme(Merge(Some(user)), a1) == SectionTheme(Merge(Some(user)), a2)
  {
  }

  /** With the default settings the page's annotation decides, and "white" stands in for a missing one. */
  lemma DefaultsFollowPage(annotation: Option<string>)
    ensures SectionTheme(Merge(None), annotation) == if annotation.Some? && annotation.value != "" then annotation.value else "white"
  {
    assert Get(Merge(None), "sectionTheme") == VNull;
  }
}
