/**
 * initBlogNavigation: fetch the page's JSON, build the container from the
 * pagination's two adjacent items, and place it in the document. The fetch,
 * the page's theme annotation and the selector lookup are passed in.
 */
module Navigation {
  import opened Wrappers
  import opened Dom
  import opened Js
  import opened Settings
  import opened Theme
  import opened Url
  import opened Arrows

  /** The `pagination` object of the page's JSON; a missing or non-object side is None. */
  datatype Pagination = Pagination(prevItem: Option<Object>, nextItem: Option<Object>)

  /**
   * What fetching the JSON URL gives: a non-ok response; a request or body
   * parse that threw; or the parsed data's `pagination` (None when falsy).
   */
  datatype Response = NotOk | Rejected | Parsed(pagination: Option<Pagination>)

  /** How a run ends. Every exception is caught, so none escapes to the page. */
  datatype Status = FetchFailed | Aborted | NoPagination | NothingToRender | Inserted

  /** The insertPosition policy: strict comparison with "prepend" and "before"; anything else appends. */
  datatype Mode = Prepend | Before | Append

  function InsertMode(settings: Settings): (m: Mode)
    ensures m == Prepend <==> Get(settings, "insertPosition") == VStr("prepend")
    ensures m == Before <==> Get(settings, "insertPosition") == VStr("before")
  {
    var position := Get(settings, "insertPosition");
    if position == VStr("prepend") then Prepend
    else if position == VStr("before") then Before
    else Append
  }

  /**
   * The insertion target: appendTo itself when it is an element; else what
   * the selector lookup finds for its string form; else the body.
   */
  function ResolveTarget(settings: Settings, lookup: string -> Option<Element>, body: Element): (t: Element)
    ensures Get(settings, "appendTo").VElement? ==> t == Get(settings, "appendTo").element
    ensures !Get(settings, "appendTo").VElement? && lookup(ToStr(Get(settings, "appendTo"))).Some? ==>
      t == lookup(ToStr(Get(settings, "appendTo"))).value
    ensures !Get(settings, "appendTo").VElement? && lookup(ToStr(Get(settings, "appendTo"))).None? ==> t == body
  {
    var appendTo := Get(settings, "appendTo");
    if appendTo.VElement? then appendTo.element
    else match lookup(ToStr(appendTo))
      case Some(e) => e
      case None => body
  }

  /** What the run decides before it touches the document. */
  datatype Decision = Stop(status: Status) | Insert(className: string, theme: string, arrows: seq<Arrow>)

  function Decide(settings: Settings, response: Response, annotation: Option<string>): (d: Decision)
    ensures d == Stop(FetchFailed) <==> response.NotOk?
    ensures d == Stop(NoPagination) <==> response == Parsed(None)
    ensures d.Insert? <==>
      response.Parsed? && response.pagination.Some? &&
      BuildArrows(settings, response.pagination.value.prevItem, response.pagination.value.nextItem).Ok? &&
      (Eligible(response.pagination.value.prevItem) || Eligible(response.pagination.value.nextItem))
    ensures d.Insert? ==>
      && 1 <= |d.arrows| <= 2
      && d.arrows == BuildArrows(settings, response.pagination.value.prevItem, response.pagination.value.nextItem).value
      && d.className == ToStr(Get(settings, "containerClass"))
      && d.theme == SectionTheme(settings, annotation)
  {
    match response
    case NotOk => Stop(FetchFailed)
    case Rejected => Stop(Aborted)
    case Parsed(None) => Stop(NoPagination)
    case Parsed(Some(p)) =>
      match BuildArrows(settings, p.prevItem, p.nextItem)
      case Thrown(_) => Stop(Aborted)
      case Ok(arrows) =>
        if |arrows| > 0 then Insert(ToStr(Get(settings, "containerClass")), SectionTheme(settings, annotation), arrows)
        else Stop(NothingToRender)
  }

  /** When neither side is eligible nothing is inserted. */
  lemma NoEligibleSideNoInsertion(settings: Settings, p: Pagination, annotation: Option<string>)
    requires !Eligible(p.prevItem) && !Eligible(p.nextItem)
    ensures Decide(settings, Parsed(Some(p)), annotation) == Stop(NothingToRender)
  {
  }

  /** Two eligible sides whose arrows can be built give the prev arrow, then the next arrow. */
  lemma BothSidesOrdered(settings: Settings, p: Pagination, annotation: Option<string>)
    requires Eligible(p.prevItem) && Eligible(p.nextItem)
    requires Decide(settings, Parsed(Some(p)), annotation).Insert?
    ensures Decide(settings, Parsed(Some(p)), annotation).arrows ==
      [CreateNavArrow(settings, p.prevItem.value, Prev).value, CreateNavArrow(settings, p.nextItem.value, Next).value]
  {
  }

  /**
   * Create the container div with its class and theme and append the
   * eligible arrows, prev first. Null when building an arrow threw.
   */
  method BuildContainer(settings: Settings, p: Pagination, annotation: Option<string>) returns (container: NavContainer?)
    ensures container == null <==> BuildArrows(settings, p.prevItem, p.nextItem).Thrown?
    ensures container != null ==>
      && fresh(container)
      && container.className == ToStr(Get(settings, "containerClass"))
      && container.theme == SectionTheme(settings, annotation)
      && container.arrows == BuildArrows(settings, p.prevItem, p.nextItem).value
  {
    container := new NavContainer(ToStr(Get(settings, "containerClass")), SectionTheme(settings, annotation));
    if Eligible(p.prevItem) {
      var arrow := CreateNavArrow(settings, p.prevItem.value, Prev);
      if arrow.Thrown? {
        return null;
      }
      container.AppendChild(arrow.value);
    }
    if Eligible(p.nextItem) {
      var arrow := CreateNavArrow(settings, p.nextItem.value, Next);
      if arrow.Thrown? {
        return null;
      }
      container.AppendChild(arrow.value);
    }
  }

  /**
   * Place the container by mode. "before" needs the target's parent: with
   * none, `parentNode.insertBefore` throws and nothing changes.
   */
  method Place(nav: NavContainer, target: Element, mode: Mode) returns (placed: bool)
    requires WellLinked(target)
    modifies target, target.parentNode
    ensures target.parentNode == old(target.parentNode)
    ensures target.parentNode != null ==> target.parentNode.parentNode == old(target.parentNode.parentNode)
    ensures placed <==> mode != Before || target.parentNode != null
    ensures !placed ==> target.children == old(target.children)
    ensures mode == Prepend ==> target.children == [NavNode(nav)] + old(target.children)
    ensures mode == Append ==> target.children == old(target.children) + [NavNode(nav)]
    ensures mode == Before ==> target.children == old(target.children)
    ensures mode == Before && placed ==>
      target.parentNode.children ==
        InsertAt(old(target.parentNode.children), IndexOf(old(target.parentNode.children), ElementNode(target)), NavNode(nav))
    ensures mode != Before && target.parentNode != null ==> target.parentNode.children == old(target.parentNode.children)
  {
    match mode
    case Prepend =>
      target.InsertBefore(NavNode(nav), target.FirstChild());
      placed := true;
    case Before =>
      var parent := target.parentNode;
      if parent == null {
        return false;
      }
      parent.InsertBefore(NavNode(nav), Some(ElementNode(target)));
      placed := true;
    case Append =>
      target.AppendChild(NavNode(nav));
      placed := true;
  }

  /**
   * One run of initBlogNavigation with the merged settings, the page's href,
   * the fetch, the first section's theme annotation, the selector lookup and
   * the body. Only the target's children, or its parent's children for
   * "before", can change.
   */
  method InitBlogNavigation(
    settings: Settings,
    href: string,
    fetch: string -> Response,
    annotation: Option<string>,
    lookup: string -> Option<Element>,
    body: Element)
    returns (status: Status, nav: NavContainer?)
    requires WellLinked(ResolveTarget(settings, lookup, body))
    modifies ResolveTarget(settings, lookup, body), ResolveTarget(settings, lookup, body).parentNode
    ensures ResolveTarget(settings, lookup, body).parentNode == old(ResolveTarget(settings, lookup, body).parentNode)
    ensures var parent := ResolveTarget(settings, lookup, body).parentNode;
      parent != null ==> parent.parentNode == old(parent.parentNode)
    ensures var parent := ResolveTarget(settings, lookup, body).parentNode;
      InsertMode(settings) != Before && parent != null ==> parent.children == old(parent.children)
    ensures Decide(settings, fetch(CleanUrl(href)), annotation).Stop? ==>
      status == Decide(settings, fetch(CleanUrl(href)), annotation).status
    ensures Decide(settings, fetch(CleanUrl(href)), annotation).Insert? ==>
      status == if InsertMode(settings) == Before && ResolveTarget(settings, lookup, body).parentNode == null then Aborted else Inserted
    ensures var target := ResolveTarget(settings, lookup, body);
      status != Inserted ==>
        && nav == null
        && target.children == old(target.children)
        && (target.parentNode != null ==> target.parentNode.children == old(target.parentNode.children))
    ensures var d := Decide(settings, fetch(CleanUrl(href)), annotation);
      status == Inserted ==>
        && d.Insert?
        && nav != null && fresh(nav)
        && nav.className == d.className && nav.theme == d.theme && nav.arrows == d.arrows
    ensures var target := ResolveTarget(settings, lookup, body);
      status == Inserted && InsertMode(settings) == Prepend ==>
        nav != null && target.children == [NavNode(nav)] + old(target.children)
    ensures var target := ResolveTarget(settings, lookup, body);
      status == Inserted && InsertMode(settings) == Append ==>
        nav != null && target.children == old(target.children) + [NavNode(nav)]
    ensures var target := ResolveTarget(settings, lookup, body);
      var parent := target.parentNode;
      status == Inserted && InsertMode(settings) == Before ==>
        && nav != null && parent != null
        && target.children == old(target.children)
        && parent.children == InsertAt(old(parent.children), IndexOf(old(parent.children), ElementNode(target)), NavNode(nav))
  {
    var response := fetch(CleanUrl(href));
    ghost var d := Decide(settings, response, annotation);
    if response.NotOk? {
      return FetchFailed, null;
    }
    if response.Rejected? {
      assert d == Stop(Aborted);
      return Aborted, null;
    }
    if response.pagination.None? {
      return NoPagination, null;
    }
    var p := response.pagination.value;
    var target := ResolveTarget(settings, lookup, body);
    var container := BuildContainer(settings, p, annotation);
    assert target.parentNode == old(target.parentNode) && target.children == old(target.children);
    assert target.parentNode != null ==>
      target.parentNode.parentNode == old(target.parentNode.parentNode) && target.parentNode.children == old(target.parentNode.children);
    if container == null {
      assert d == Stop(Aborted);
      return Aborted, null;
    }
    if |container.arrows| == 0 {
      assert d == Stop(NothingToRender);
      return NothingToRender, null;
    }
    assert d == Insert(container.className, container.theme, container.arrows);
    var mode := InsertMode(settings);
    var placed := Place(container, target, mode);
    if !placed {
      return Aborted, null;
    }
    status, nav := Inserted, container;
  }

  /**
   * A failed or rejected fetch stops the run before any container exists;
   * InitBlogNavigation's contract then keeps the document unchanged.
   */
  lemma FailedFetchStops(settings: Settings, annotation: Option<string>)
    ensures Decide(settings, NotOk, annotation) == Stop(FetchFailed)
    ensures Decide(settings, Rejected, annotation) == Stop(Aborted)
  {
  }
}
