# blog-pagination, modelled in Dafny

The script adds "previous / next" navigation to a blog post page. It merges
caller settings over fixed defaults, fetches the page's JSON form
(`<page>?format=json`), reads `pagination.prevItem` / `pagination.nextItem`,
builds one arrow per usable adjacent post (link, icon, optional thumbnail,
label, title), puts them in a container carrying the section theme, and
inserts the container into the document by the configured mode.

The model keeps that pipeline's decisions and states them as contracts:

- `Wrappers`: `Option`, and `Outcome` for a computation that may throw a JavaScript `TypeError`.
- `Js`: the JavaScript values settings and fetched items hold (`Value`), truthiness, `String()` conversion, property reads.
- `Settings`: the defaults record and `Object.assign`-style merge.
- `Theme`: the three-step theme precedence.
- `Url`: the JSON URL derived from the page address.
- `Thumbnails`: the thumbnail fallback chain and the regular expression `data-src="([^"]+)"|src="([^"]+)"` written as an explicit leftmost scan, proved equal to a declarative description of a leftmost match.
- `Arrows`: `createNavArrow` as a record builder, per-side eligibility and arrow order.
- `Dom`: elements with an ordered child list, the navigation container class whose arrows are appended one at a time, and the three insertion primitives.
- `Navigation`: `initBlogNavigation` as a spec function (`Decide`) plus methods that build the container and change the document in place, proved against it.

These points of the script follow from its code rather than from its comments or names:

- The label element's tag is read from the key `lableTag` (blog-pagination.js:29, :121). A caller setting named `labelTag` has no effect on it (`Arrows.LabelTagOverrideIgnored`).
- A page annotation is used only when it is non-empty. The annotation is the `data-section-theme` of the first `#sections > section`.
- An item is "non-empty" when it has at least one key. That test is implied by the `fullUrl` test (`Arrows.EligibleIffUrl`).
- A thrown `TypeError` is caught by the pipeline's `try`, so nothing is inserted. Two inputs throw: a truthy non-string `body`, and mode `before` on a target without a parent.

## Model

| member | source | states |
|---|---|---|
| Settings.Merge | blog-pagination.js:42-44 | a falsy user object yields exactly the defaults; otherwise the keys are the union, every user key has the user's value and every other default key its default |
| Settings.MergeGet | blog-pagination.js:42-44 | reading any key of the merged settings gives the user's value when the user has the key and the default's (or undefined) otherwise |
| Theme.SectionTheme | blog-pagination.js:50-64 | the result is never empty; a truthy sectionTheme setting wins, then a non-empty page annotation, then "white" |
| Theme.OverrideWins | blog-pagination.js:50-54 | a non-empty string override given by the caller is the theme whatever the page's annotation |
| Theme.DefaultsFollowPage | blog-pagination.js:38 | with default settings the theme is the page annotation when non-empty, else "white" |
| Url.PrefixBefore | blog-pagination.js:70-72 | `split(c)[0]` is a prefix of the input without c, followed in the input by c or by nothing |
| Url.PrefixBeforeUnique | blog-pagination.js:70-72 | those three properties determine the prefix uniquely |
| Url.PageBase | blog-pagination.js:68-72 | the address with query and hash removed is the prefix before the first '?' or '#' |
| Url.CleanUrl | blog-pagination.js:67-75 | the JSON URL is the page base followed by "?format=json", so it always ends in "?format=json" |
| Url.CleanUrlIsBase | blog-pagination.js:67-75 | for any cut point k before which href has no '?' or '#' and at which one follows (or href ends), the JSON URL is href[..k] + "?format=json" |
| Url.CleanUrlIdempotent | blog-pagination.js:67-75 | cleaning a clean URL returns it unchanged |
| Thumbnails.QuoteFrom | blog-pagination.js:90 | the first '"' at or after a position (or the end): no quote before it |
| Thumbnails.CaptureAtCorrect | blog-pagination.js:90 | one alternative `p([^"]+)"` tried at a position captures u exactly when the text there is p, then u (non-empty, quote-free), then a quote |
| Thumbnails.AlternativesExclusive | blog-pagination.js:90 | the data-src and src alternatives never both match at one position |
| Thumbnails.StartsWithFirst | blog-pagination.js:90 | a match of an alternative starts with its literal's first character |
| Thumbnails.MatchAtCorrect | blog-pagination.js:90 | the alternation at a position captures u exactly when either alternative matches there with capture u |
| Thumbnails.FindImageSound | blog-pagination.js:90 | a reported match is a match, and no earlier position (from the start point) matches |
| Thumbnails.FindImageComplete | blog-pagination.js:90-91 | when nothing is reported, no position matches |
| Thumbnails.FindImageLeftmost | blog-pagination.js:90-92 | the scan reports (i, u) exactly when the leftmost match of the regular expression starts at i and captures u |
| Thumbnails.WithFormat | blog-pagination.js:94 | the URL, then '&' if it already contains '?' and '?' otherwise, then "format=" and the format; the result always has a query |
| Thumbnails.GetThumbnail | blog-pagination.js:78-100 | thumbnails off gives none; a truthy assetUrl gives assetUrl + filename; a truthy non-string body throws and nothing else does; a thumbnail is never empty |
| Thumbnails.ThumbnailFromBody | blog-pagination.js:89-95 | without an asset URL, the thumbnail is the leftmost data-src/src capture with the format parameter added |
| Thumbnails.NoThumbnailWithoutImage | blog-pagination.js:89-99 | without an asset URL, a missing or falsy body, or a string body with no match, gives null |
| Thumbnails.AssetUrlExample | blog-pagination.js:84-86 | assetUrl "https://x/img/" with default settings gives "https://x/img/thumbnail.jpg" |
| Thumbnails.DataSrcLeftmost | blog-pagination.js:90 | in `<img data-src="https://y/a.jpg">` the leftmost match is at 5 and captures the URL |
| Thumbnails.DataSrcCaptured | blog-pagination.js:90 | the data-src alternative matches that body at position 5 |
| Thumbnails.DataSrcExample | blog-pagination.js:89-95 | that body with default settings gives "https://y/a.jpg?format=300w" |
| Thumbnails.QueryFreeUrlExample | blog-pagination.js:94 | a URL without a query gets "?format=300w" |
| Thumbnails.QueryUrlExample | blog-pagination.js:94 | a URL with a query gets "&format=300w" |
| Arrows.ArrowClassName | blog-pagination.js:105 | the class is the arrow class, a space, then the arrow class suffixed with "-" and the direction |
| Arrows.ArrowClassesDiffer | blog-pagination.js:105 | the prev and next arrows always have different classes |
| Arrows.ArrowTitle | blog-pagination.js:108 | the title is never empty: item.title when truthy, else "Untitled" |
| Arrows.CreateNavArrow | blog-pagination.js:103-129 | throws exactly when the thumbnail does; class, href = fullUrl, the link, icon, content, text, label and title classes from their settings, prev icon and label exactly for "prev", title, tags (label tag from "lableTag"), and a thumbnail block exactly when there is a thumbnail |
| Arrows.LabelTagOverrideIgnored | blog-pagination.js:29 | unless "lableTag" itself is overridden, the label tag stays "p" whatever else (e.g. "labelTag") the caller sets |
| Arrows.EligibleIffUrl | blog-pagination.js:157 | an item gets an arrow exactly when it exists and has a truthy fullUrl; the empty object never does |
| Arrows.SideArrows | blog-pagination.js:157-166 | an ineligible side adds no arrow; an eligible side adds the one arrow createNavArrow builds, or throws with it |
| Arrows.BuildArrows | blog-pagination.js:156-166 | one arrow per eligible side, the prev one first and the next one last; throws exactly when building an eligible side's arrow throws |
| Arrows.PrevBeforeNext | blog-pagination.js:156-166 | at most two arrows, and with two the first has the prev class and the second the next class |
| Arrows.IneligibleSidesBuildNothing | blog-pagination.js:156-166 | missing items and items without a URL produce no arrows on either side |
| Dom.IndexOf | blog-pagination.js:175 | the position of the first occurrence of the reference child |
| Dom.InsertAt | blog-pagination.js:175 | inserting at k puts the node at k, keeps what was before k and shifts the rest by one |
| Dom.InsertAtKeepsOthers | blog-pagination.js:175 | removing the inserted node gives back the original children in order |
| Dom.Element.FirstChild | blog-pagination.js:173 | null exactly for an element without children, else the first child |
| Dom.Element.AppendChild | blog-pagination.js:178 | the node becomes the last child; the others are kept in order |
| Dom.Element.InsertBefore | blog-pagination.js:173-175 | before a reference child the node lands just before it; with a null reference it is appended |
| Dom.NavContainer.constructor | blog-pagination.js:152-154 | a new container has the given class and theme and no arrows |
| Dom.NavContainer.AppendChild | blog-pagination.js:159 | the arrow is added after the existing ones |
| Navigation.InsertMode | blog-pagination.js:172-179 | "prepend" and "before" (strictly equal strings) select their modes; any other value appends |
| Navigation.ResolveTarget | blog-pagination.js:170 | an element appendTo is used as is; otherwise the lookup's element for its string form; otherwise the body |
| Navigation.Decide | blog-pagination.js:132-180 | a non-ok response, a missing pagination, a throw or no eligible side stop the run; an insertion carries one or two arrows, the container class and the resolved theme |
| Navigation.NoEligibleSideNoInsertion | blog-pagination.js:169 | with neither side eligible nothing is inserted |
| Navigation.BothSidesOrdered | blog-pagination.js:156-166 | with both sides eligible the container holds the prev arrow then the next arrow |
| Navigation.FailedFetchStops | blog-pagination.js:137-140 | a non-ok response ends the run as a fetch failure; a thrown fetch or parse ends it as aborted |
| Navigation.BuildContainer | blog-pagination.js:151-166 | the fresh container has the configured class, the resolved theme and exactly the arrows BuildArrows gives; null when an arrow's building threw |
| Navigation.Place | blog-pagination.js:172-179 | prepend makes the container the first child and append the last; before puts it just ahead of the target in the parent's children; before without a parent changes nothing; other children keep their order; the target's and its parent's parentNode are unchanged |
| Navigation.InitBlogNavigation | blog-pagination.js:132-185 | the run ends as Decide says; when it does not insert, the target's and its parent's children are unchanged; when it inserts, the fresh container holds Decide's arrows, class and theme and sits where the mode says; the target's and its parent's parentNode are always unchanged, and outside "before" mode so are the parent's children |

## Left out

- The network request, the response's `ok` flag and the JSON parse are not modelled. The run takes a `fetch` function from the JSON URL to a `Response`: not ok, rejected (any throw while fetching or parsing, including a JSON body of `null`, whose `data.pagination` read throws; any other non-object body such as `5`, `"x"` or `true` has an undefined `pagination` and is `Parsed(None)`), or the parsed `pagination`.
- Console diagnostics are left out, and so are the `try`/`catch` plumbing and the `DOMContentLoaded` scheduling. A caught exception appears as the status `Aborted`.
- `window.blogNavSettings` and `window.location.href` are globals; the model passes them in as parameters. The merged settings are computed once at load; the model takes them as a parameter.
- `document.querySelector` is an abstract `lookup` function. The `SyntaxError` it throws for an invalid selector is not modelled.
- `instanceof Element` is modelled by the `VElement` alternative of `Value`. The first section's `dataset.sectionTheme` is an `Option<string>` input.
- The innerHTML template is modelled as the `Arrow` record. Three things of the markup are not kept: its whitespace, the absence of HTML escaping (a title containing markup is injected as markup), and the `loading="lazy"` attribute.
- The default SVG icons are reduced to their path data. Their other attributes are presentational.
- `Js.Value` has strings, booleans, null, undefined and elements. Numbers, arrays and nested objects are not modelled. A pagination side that is not an object is `None`; the source never makes an arrow for it either.
- Js.ToStr: an element converts to "[object HTMLElement]", whereas a browser names the concrete element class.
- Js.Concat: when neither operand is a string (for example assetUrl `true` with a boolean thumbnailFilename), JavaScript adds numerically; the model joins the string forms.
- Theme.SectionTheme: returns the theme in the string form the container's `data-section-theme` stores, not the raw setting value that `getSectionTheme` returns. Its only use is that assignment.
- The container's own `parentNode` link after insertion is not tracked. The arrow elements inside it are records, not elements.
- The document is assumed consistent around the target (`WellLinked`, required by Navigation.Place and Navigation.InitBlogNavigation): it is listed among its parent's children and is not its own parent. Dom.Element.InsertBefore requires its reference child to be among its children, which the browser would reject with a `NotFoundError`.
