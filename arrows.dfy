/** createNavArrow as a record builder, and which sides of the pagination get an arrow. */
module Arrows {
  import opened Wrappers
  import opened Dom
  import opened Js
  import opened Settings
  import opened Thumbnails

  datatype Direction = Prev | Next

  /** The direction string the script passes to createNavArrow. */
  function DirectionName(d: Direction): string
  {
    match d
    case Prev => "prev"
    case Next => "next"
  }

  const Untitled: string := "Untitled"

  /** `${arrowClass} ${arrowClass}-${direction}`: the base class, then the base class suffixed with the direction. */
  function ArrowClassName(settings: Settings, d: Direction): (r: string)
    ensures var c := ToStr(Get(settings, "arrowClass"));
      |r| > |c| && r[..|c| + 1] == c + " " && r[|c| + 1..] == c + "-" + DirectionName(d)
  {
    var c := ToStr(Get(settings, "arrowClass"));
    c + " " + c + "-" + DirectionName(d)
  }

  /** The two arrows of a page are told apart by their class. */
  lemma ArrowClassesDiffer(settings: Settings)
    ensures ArrowClassName(settings, Prev) != ArrowClassName(settings, Next)
  {
    var c := ToStr(Get(settings, "arrowClass"));
    var p := ArrowClassName(settings, Prev)[|c| + 1..];
    var n := ArrowClassName(settings, Next)[|c| + 1..];
    assert p[|c| + 1..] == "prev" && n[|c| + 1..] == "next";
    assert p[|c| + 4] == 'v' && n[|c| + 4] == 't';
  }

  /** `item.title || 'Untitled'`, in string form. */
  function ArrowTitle(item: Object): (r: string)
    ensures r != ""
    ensures Truthy(Get(item, "title")) ==> r == ToStr(Get(item, "title"))
    ensures !Truthy(Get(item, "title")) ==> r == Untitled
  {
    var t := Get(item, "title");
    if Truthy(t) then ToStr(t) else Untitled
  }

  /** The settings key of the icon and of the label for each direction. */
  function IconKey(d: Direction): string
  {
    if d == Prev then "prevIcon" else "nextIcon"
  }

  function LabelKey(d: Direction): string
  {
    if d == Prev then "prevLabel" else "nextLabel"
  }

  /**
   * createNavArrow(item, direction). The label tag is read from "lableTag",
   * as the script does. Throws when getThumbnail does.
   */
  function CreateNavArrow(settings: Settings, item: Object, direction: Direction): (r: Outcome<Arrow>)
    ensures r.Thrown? <==> GetThumbnail(settings, item).Thrown?
    ensures r.Ok? ==> r.value.className == ArrowClassName(settings, direction)
    ensures r.Ok? ==> r.value.href == ToStr(Get(item, "fullUrl"))
    ensures r.Ok? ==> r.value.linkClass == ToStr(Get(settings, "linkClass"))
    ensures r.Ok? ==> r.value.iconClass == ToStr(Get(settings, "iconClass"))
    ensures r.Ok? ==> r.value.contentClass == ToStr(Get(settings, "contentClass"))
    ensures r.Ok? ==> r.value.textClass == ToStr(Get(settings, "textClass"))
    ensures r.Ok? ==> r.value.labelClass == ToStr(Get(settings, "labelClass"))
    ensures r.Ok? ==> r.value.titleClass == ToStr(Get(settings, "titleClass"))
    ensures r.Ok? ==> r.value.icon == ToStr(Get(settings, if direction == Prev then "prevIcon" else "nextIcon"))
    ensures r.Ok? ==> r.value.labelText == ToStr(Get(settings, if direction == Prev then "prevLabel" else "nextLabel"))
    ensures r.Ok? ==> r.value.title == ArrowTitle(item)
    ensures r.Ok? ==> r.value.labelTag == ToStr(Get(settings, "lableTag"))
    ensures r.Ok? ==> r.value.titleTag == ToStr(Get(settings, "titleTag"))
    ensures r.Ok? ==> (r.value.thumbnail.Some? <==> GetThumbnail(settings, item).value.Some?)
    ensures r.Ok? && r.value.thumbnail.Some? ==>
      r.value.thumbnail.value == Thumbnail(ToStr(Get(settings, "thumbnailClass")), GetThumbnail(settings, item).value.value, ArrowTitle(item))
  {
    match GetThumbnail(settings, item)
    case Thrown(e) => Thrown(e)
    case Ok(thumbnail) =>
      var title := ArrowTitle(item);
      Ok(Arrow(
        className := ArrowClassName(settings, direction),
        href := ToStr(Get(item, "fullUrl")),
        linkClass := ToStr(Get(settings, "linkClass")),
        iconClass := ToStr(Get(settings, "iconClass")),
        icon := ToStr(Get(settings, IconKey(direction))),
        contentClass := ToStr(Get(settings, "contentClass")),
        thumbnail := if thumbnail.Some? && thumbnail.value != "" then Some(Thumbnail(ToStr(Get(settings, "thumbnailClass")), thumbnail.value, title)) else None,
        textClass := ToStr(Get(settings, "textClass")),
        labelTag := ToStr(Get(settings, "lableTag")),
        labelClass := ToStr(Get(settings, "labelClass")),
        labelText := ToStr(Get(settings, LabelKey(direction))),
        titleTag := ToStr(Get(settings, "titleTag")),
        titleClass := ToStr(Get(settings, "titleClass")),
        title := title))
  }

  /**
   * A caller's "labelTag" has no effect on the label element: unless
   * "lableTag" itself is overridden the label stays a `<p>`.
   */
  lemma LabelTagOverrideIgnored(user: Object, item: Object, d: Direction)
    ensures "lableTag" !in user && CreateNavArrow(Merge(Some(user)), item, d).Ok? ==>
              CreateNavArrow(Merge(Some(user)), item, d).value.labelTag == "p"
  {
    if "lableTag" !in user {
      MergeGet(Some(user), "lableTag");
    }
  }

  /** An item gets an arrow when it exists, has a key, and has a truthy fullUrl. */
  predicate Eligible(item: Option<Object>)
  {
    item.Some? && |item.value.Keys| > 0 && Truthy(Get(item.value, "fullUrl"))
  }

  /** The key count test is implied by the URL test: eligibility is exactly "has a non-empty fullUrl". */
  lemma EligibleIffUrl(item: Option<Object>)
    ensures Eligible(item) <==> item.Some? && Truthy(Get(item.value, "fullUrl"))
    ensures !Eligible(Some(map[]))
  {
    if item.Some? && Truthy(Get(item.value, "fullUrl")) {
      assert "fullUrl" in item.value.Keys;
    }
  }

  /** The arrows one side contributes: none, or the one createNavArrow builds. */
  function SideArrows(settings: Settings, item: Option<Object>, d: Direction): (r: Outcome<seq<Arrow>>)
    ensures !Eligible(item) ==> r == Ok([])
    ensures Eligible(item) ==> r.Thrown? == CreateNavArrow(settings, item.value, d).Thrown?
    ensures Eligible(item) && r.Ok? ==> |r.value| == 1 && CreateNavArrow(settings, item.value, d) == Ok(r.value[0])
  {
    if !Eligible(item) then Ok([])
    else match CreateNavArrow(settings, item.value, d)
      case Thrown(e) => Thrown(e)
      case Ok(a) => Ok([a])
  }

  /** The arrows appended to the container: prev (if eligible), then next (if eligible). */
  function BuildArrows(settings: Settings, prev: Option<Object>, next: Option<Object>): (r: Outcome<seq<Arrow>>)
    ensures r.Thrown? <==>
      (Eligible(prev) && CreateNavArrow(settings, prev.value, Prev).Thrown?) ||
      (Eligible(next) && CreateNavArrow(settings, next.value, Next).Thrown?)
    ensures r.Ok? ==> |r.value| == (if Eligible(prev) then 1 else 0) + (if Eligible(next) then 1 else 0)
    ensures r.Ok? && Eligible(prev) ==> CreateNavArrow(settings, prev.value, Prev) == Ok(r.value[0])
    ensures r.Ok? && Eligible(next) ==> CreateNavArrow(settings, next.value, Next) == Ok(r.value[|r.value| - 1])
  {
    match SideArrows(settings, prev, Prev)
    case Thrown(e) => Thrown(e)
    case Ok(before) =>
      match SideArrows(settings, next, Next)
      case Thrown(e) => Thrown(e)
      case Ok(after) => Ok(before + after)
  }

  /** At most two arrows, and when there are two the prev arrow comes first. */
  lemma PrevBeforeNext(settings: Settings, prev: Option<Object>, next: Option<Object>)
    requires BuildArrows(settings, prev, next).Ok?
    ensures var arrows := BuildArrows(settings, prev, next).value;
      |arrows| <= 2 &&
      (|arrows| == 2 ==> arrows[0].className == ArrowClassName(settings, Prev) && arrows[1].className == ArrowClassName(settings, Next))
  {
    var arrows := BuildArrows(settings, prev, next).value;
    if |arrows| == 2 {
      assert Eligible(prev) && Eligible(next);
    }
  }

  /** Empty or URL-less items never contribute an arrow, on either side. */
  lemma IneligibleSidesBuildNothing(settings: Settings, prev: Option<Object>, next: Option<Object>)
    requires prev.None? || !Truthy(Get(prev.value, "fullUrl"))
    requires next.None? || !Truthy(Get(next.value, "fullUrl"))
    ensures BuildArrows(settings, prev, next) == Ok([])
  {
    EligibleIffUrl(prev);
    EligibleIffUrl(next);
  }
}
