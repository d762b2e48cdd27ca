# ZanjanLUG site generator: a Dafny model

This project models the content and site-assembly core of `generate.py`, the
static-site generator of the Zanjan Linux User Group, and proves properties
of that model. The model covers:

- how `load_content` turns the `.md` files of a content directory into items.
  This takes in the resource-link rewrite, the front-matter normalisation,
  the slug, the `**meta` spread, the `date_obj` of events and news, and the
  date sort;
- the selection of the featured event (`find_main_page_event`);
- the URL join (`get_full_url`);
- the status labels (`display_status_filter`);
- what `render_site` produces:
  - every output page with its path, its template and its Open Graph record;
  - the featured event;
  - the `presenter_details` written into events.

The modules, one per concern:

| file | module | models |
|---|---|---|
| `wrappers.dfy` | `Wrappers` | `Option` (Python's `None`) and `Result` (an aborting exception) |
| `content.dfy` | `Content` | front-matter values, instants, items, `item.get` |
| `status.dfy` | `Status` | `display_status_filter` |
| `urls.dfy` | `Urls` | `get_full_url`, `str.rstrip('/')`, `str.lstrip('/')` |
| `dates.dfy` | `Dates` | `datetime.strptime(text, '%Y-%m-%d')` and the order of its results |
| `links.dfy` | `Links` | the two `re.sub` rewrites of image targets |
| `meta.dfy` | `Meta` | the meta comprehension, the slug, the item dictionary, `date_obj` |
| `sorting.dfy` | `Sorting` | `items.sort(key=..., reverse=True)` |
| `loader.dfy` | `Loader` | `load_content` |
| `selector.dfy` | `Selector` | `find_main_page_event` |
| `presenters.dfy` | `Presenters` | `people_map` and `presenter_details` |
| `render.dfy` | `Render` | `render_site` and the `data` dictionary of `main` |

An item is a record.

- `fields` holds the textual keys exactly as the dictionary holds them after
  the spread.
- A value is `Scalar(line)` or `Multi(lines)`: a one-element front-matter
  list becomes its element.
- `date_obj` is an `Option<Instant>`. An instant counts microseconds since
  `datetime.min`.
- `presenter_details` is an `Option<seq<Item>>`.

The parts that change state are imperative:

- `Loader.LoadContent` appends items in a loop.
- `Render.RenderPages` and `Render.RenderCollection` are the loops of
  `render_site`.
- `Render.SiteGraph` is the `data` dictionary. Its `RenderSite` method
  replaces the `events` field with the events carrying their
  `presenter_details`.

Each method is proved equal to a specification function. The properties
are proved about those functions.

### Behaviour worth knowing

- **Featured-event ties.** Among equally soon upcoming events, the code's
  `min` returns the first one in list order, and so does the model
  (`Selector.MainEventIndex`). The docstring says only "Finds the next
  upcoming event" (generate.py:110).
- **Date errors.** The code catches only `ValueError` (generate.py:98), for
  which it warns "Use YYYY-MM-DD." and takes the current time. A `date`
  with several lines (or none) reaches `strptime` as a list. That raises
  `TypeError`, which aborts the run (`Loader.BuildItemsFails`).
- **Sort order.** Equal dates are possible. The code keeps them in listing
  order, so the order is non-increasing and stable, not strictly
  decreasing.
- **Invalid dates.** An event or news file whose `date` `strptime` rejects
  gets `datetime.now()` as its `date_obj`, read afresh for each such file
  while the directory is loaded. Two such files are therefore not tied: the
  file converted later usually has the later instant and is sorted first
  (`Loader.InvalidDatesByClock`).
- **Slugs.** `os.path.splitext` leaves a name whole when only dots come
  before its last `.`, so the file `.md` has the slug `.md`.
- **`html` and `slug` keys.** Front-matter keys named `html` or `slug`
  replace the generated ones, because `**meta` is spread last.
- **Absolute slugs.** `os.path.join` drops the directories before a part
  that starts with `/`. A front-matter `slug: /about` therefore writes the
  page to `/about.html`, outside the output directory
  (`Render.AbsoluteSlugExample`).
- **Rewrites past a rooted image.** The image patterns can reach past an
  image whose target is rooted, up to a later target on the same line. So
  `![a](/x.png) see [doc](guide.md)` becomes
  `![a](/x.png) see [doc](/resources/guide.md)`, and
  `<img src="https://h/a.png"> <script src="app.js">` becomes
  `<img src="https://h/a.png"> <script src="/resources/app.js">`. The model
  does not capture this: see `Links.RewriteLinks` under "Left out".
- **Accepted dates.** `strptime` accepts more than `YYYY-MM-DD`: a one-digit
  month, and a day with or without its leading zero or with a leading space
  (`Dates.ParseDateSpellings`).

## Model

| member | source | states |
|---|---|---|
| `Status.DisplayStatus` | generate.py:19-26 | a status is shown unchanged exactly when it is not `held`, `upcoming` or `cancelled` |
| `Status.DisplayStatusKnownLabels` | generate.py:21-25 | the three known statuses get three distinct labels, none of which is itself a status |
| `Status.DisplayStatusIdempotent` | generate.py:26 | labelling a label again changes nothing |
| `Urls.RStripSlash` | generate.py:121 | `base_url.rstrip('/')`; its properties are stated in `Urls.RStripSlashShape` and `Urls.RStripAppendSlashes` |
| `Urls.LStripSlash` | generate.py:121 | `path.lstrip('/')`; its properties are stated in `Urls.LStripSlashShape` and `Urls.LStripPrependSlashes` |
| `Urls.FullUrl` | generate.py:119-121 | `get_full_url`; its properties are stated in `Urls.FullUrlShape`, `Urls.JoinedAtIsFullUrl`, `Urls.FullUrlIgnoresSeamSlashes` and `Urls.FullUrlSingleSeparator` |
| `Urls.RStripSlashShape` | generate.py:121 | `rstrip('/')` keeps the longest prefix not ending in `/`, and only slashes are removed |
| `Urls.LStripSlashShape` | generate.py:121 | `lstrip('/')` keeps the longest suffix not starting with `/`, and only slashes are removed |
| `Urls.FullUrlShape` | generate.py:119-121 | the joined URL is the base, then one `/`, then the path, with only the slashes at the seam dropped |
| `Urls.JoinedAtIsFullUrl` | generate.py:119-121 | conversely, any such split of the inputs gives exactly the joined URL: the cut points are forced |
| `Urls.RStripAppendSlashes` | generate.py:121 | slashes appended to a string do not change its `rstrip('/')` |
| `Urls.LStripPrependSlashes` | generate.py:121 | slashes prepended to a string do not change its `lstrip('/')` |
| `Urls.FullUrlIgnoresSeamSlashes` | generate.py:119-121 | adding slashes to the end of the base or the start of the path never changes the URL |
| `Urls.FullUrlSingleSeparator` | generate.py:121 | the separator follows the stripped base and is never next to another `/` |
| `Urls.FullUrlExample` | generate.py:121 | a base with a trailing slash joined to a path with a leading one gives one slash |
| `Dates.ParseDate` | generate.py:97 | every date `strptime` returns is a real calendar date of years 1 to 9999 |
| `Dates.ParseDateSpellings` | generate.py:97 | `strptime` accepts a text for a date exactly when it is a four-digit year, `-`, an accepted month spelling, `-` and an accepted day spelling |
| `Dates.ParseFormatRoundTrip` | generate.py:97 | the `YYYY-MM-DD` form of any valid date parses back to that date |
| `Dates.ToInstant` | generate.py:97 | the `datetime` `strptime` returns is a midnight: a whole number of days after `datetime.min`; its order is stated in `Dates.ToInstantOrder` |
| `Dates.ToInstantOrder` | generate.py:103-104 | parsed dates compare as instants exactly as they compare in the calendar, and equal instants mean equal dates |
| `Links.RewriteTarget` | generate.py:78-87 | a target starting with `http://`, `https://` or `/` is kept; any other becomes `/resources/` followed by the target; the result is always rooted |
| `Links.RewriteTargetIdempotent` | generate.py:78-87 | rewriting a rewritten target changes nothing |
| `Links.RewriteTargetInjectiveOnRelative` | generate.py:78-87 | two different relative targets stay different |
| `Links.RewriteTargetMerges` | generate.py:78-87 | a relative target and `/resources/` followed by it end up as the same link |
| `Links.RewriteLinks` | generate.py:78-87 | each segment of the text is rewritten on its own, in place; text between links is untouched |
| `Links.RewrittenTargetsRooted` | generate.py:78-87 | after the rewrite every image target is rooted, and the links are where they were |
| `Links.RewriteLinksIdempotent` | generate.py:78-87 | rewriting a rewritten text changes nothing |
| `Links.RootedTextUnchanged` | generate.py:78-87 | a segmented text whose recognised image targets are all rooted comes out exactly as it went in; a line where a pattern reaches past a rooted image to a later target is not covered (see "Left out") |
| `Links.RewriteRelativeExample` | generate.py:78-82 | the relative target `img/x.png` becomes `/resources/img/x.png` |
| `Links.RewriteRootedExamples` | generate.py:79 | an `https://` target and an absolute path are kept |
| `Meta.NormalizeValue` | generate.py:89 | a one-line list becomes that line; any other list, empty ones included, stays a list; the lines are kept |
| `Meta.NormalizeMeta` | generate.py:89 | the keys are unchanged, and every value keeps its lines, as a scalar exactly when it had one line |
| `Meta.NormalizeMetaRoundTrip` | generate.py:89 | the original lines of every key are recovered, and no one-line list remains |
| `Meta.DenormalizeRoundTrip` | generate.py:89 | every front-matter without one-line lists is the normal form of its own lines |
| `Meta.LastDot` | generate.py:92 | the index found holds the last `.` of the name; none means the name has no `.` |
| `Meta.Stem` | generate.py:92 | `os.path.splitext(filename)[0]`: the slug is a prefix of the file name; its exact value is stated in `Meta.StemOfMarkdownName` |
| `Meta.StemOfMarkdownName` | generate.py:92 | the slug of a `.md` file is its name without the final `.md`, unless only dots precede that `.md`, as in `.md` or `..md` |
| `Meta.SpreadFields` | generate.py:90-94 | the item has the front-matter keys plus `html` and `slug`; front-matter values win, and generated ones fill in the rest |
| `Meta.DateObj` | generate.py:96-100 | `date_obj` is the parsed date as an instant, or the clock reading `now` taken for the file when `strptime` raises `ValueError` |
| `Meta.MakeItem` | generate.py:89-100 | building fails exactly for an event or news file whose `date` is not one line, and the error names the file; otherwise the fields are the spread, there are no presenter details, and `date_obj` exists exactly for events and news with a `date` |
| `Loader.MarkdownFiles` | generate.py:73-74 | only files of the listing whose names end in `.md` are read |
| `Loader.MarkdownFilesComplete` | generate.py:73-74 | a listed file is read exactly when its name ends in `.md` |
| `Loader.MarkdownFilesAppend` | generate.py:73-74 | the files are read in listing order: the `.md` files of two listings one after the other are those of the first, then those of the second |
| `Loader.ItemOf` | generate.py:77-100 | one `.md` file: its text is rewritten and converted, then `Meta.MakeItem` builds the item with the clock reading it is given; its properties are those of `Meta.MakeItem` |
| `Loader.BuildItems` | generate.py:73-101 | the loop of `load_content`, the `j`-th `.md` file reading the clock as `clock(j)`; its properties are stated in `Loader.BuildItemsPerFile`, `Loader.BuildItemsStep` and `Loader.BuildItemsFails` |
| `Loader.Load` | generate.py:65-107 | `load_content`; its properties are stated in `Loader.LoadResult`, `Loader.LoadCount` and `Loader.InvalidDatesByClock`, and `Loader.LoadContent` is proved equal to it |
| `Loader.BuildItemsPerFile` | generate.py:73-101 | a successful loop gives one item per `.md` file, in listing order, each the item of its own file |
| `Loader.BuildItemsErrorStays` | generate.py:96-100 | an error part-way through the listing is the error of the whole listing |
| `Loader.BuildItemsStep` | generate.py:73-101 | one more file adds its item, adds nothing for a non-`.md` name, or aborts with that file's error |
| `Loader.LoadContent` | generate.py:65-107 | the loop and the sort return what `Load` specifies for the listing |
| `Loader.BuildItemsOkNoAbort` | generate.py:95-100 | no `.md` file of a successful load has a `date` that is not one line |
| `Loader.BuildItemsFirstAbort` | generate.py:95-100 | a failed load names the first `.md` file, in listing order, whose `date` is not one line |
| `Loader.BuildItemsFails` | generate.py:95-100 | loading fails exactly when some `.md` file of events or news has a `date` that is not one line, and the error names the first such file |
| `Loader.BuiltWellFormed` | generate.py:90-101 | every loaded item has `html` and `slug`, no presenter details, and a `date_obj` exactly when it is dated with a `date` |
| `Loader.LoadResult` | generate.py:65-107 | a missing directory gives no items; pages, people and projects keep listing order; events and news hold the same items sorted by non-increasing date, equal dates in listing order; every item is well formed |
| `Loader.LoadCount` | generate.py:73-104 | a successful load has one item per listed `.md` file |
| `Loader.InvalidDateItem` | generate.py:96-100 | an event or news file whose one-line `date` `strptime` rejects is keyed by the clock reading it got |
| `Loader.BuildTwo` | generate.py:73-101 | two `.md` files that both load give their two items in listing order, each with its own clock reading |
| `Loader.InvalidDatesByClock` | generate.py:96-104 | two files with rejected dates are keyed by their own readings: the second is sorted first when its reading is later, and listing order is kept only when the readings are equal |
| `Content.Get` | generate.py:144-147 | `x.get(key, default)`: the item's value for the key when present, else the default; the same call at generate.py:186-193 |
| `Content.SortKey` | generate.py:104 | `x.get('date_obj', datetime.min)`: the item's `date_obj`, else the least instant |
| `Sorting.Insert` | generate.py:104 | insertion adds exactly the new item to the items |
| `Sorting.SortByDateDesc` | generate.py:103-104 | the sort returns a permutation of the items, ordered by non-increasing `date_obj` |
| `Sorting.InsertAtLeast` | generate.py:104 | insertion keeps a lower bound on the keys that the new item also meets |
| `Sorting.InsertSorted` | generate.py:104 | insertion into a sorted list keeps it sorted |
| `Sorting.InsertWithKey` | generate.py:104 | an inserted item goes after every item with its own key |
| `Sorting.SortByDateDescStable` | generate.py:104 | the sort is stable: for each date, the items with that date keep their listing order |
| `Sorting.DatelessSortLast` | generate.py:104 | after an item without `date_obj` only items keyed `datetime.min` follow |
| `Sorting.SameGroupsSortedEqual` | generate.py:104 | two sorted lists that agree on the order of the items of each date are equal |
| `Sorting.SortTwo` | generate.py:104 | two items are sorted later-keyed first, and kept in order when their keys are equal |
| `Sorting.StableSortUnique` | generate.py:104 | every stable sort by non-increasing date gives this result, so the model stands for the library sort |
| `Selector.IsCandidate` | generate.py:112 | the filter of the comprehension: `status` is `upcoming` and `date_obj` is later than `now`; stated in `Selector.Soonest` and `Selector.MainPageEvent` |
| `Selector.Soonest` | generate.py:112-114 | among the first `n` events, the earliest-dated upcoming event after `now`, the first in the list on ties, or none when there is no such event |
| `Selector.MainEventIndex` | generate.py:109-117 | the position of the first soonest candidate if any; else the first event; none exactly for no events |
| `Selector.MainPageEvent` | generate.py:109-117 | none exactly when there are no events; with a candidate, a candidate dated no later than any other; otherwise the first event |
| `Selector.MainEventExample` | generate.py:111-116 | an upcoming event before `now` is not featured; the upcoming one after it is |
| `Presenters.PeopleBySlug` | generate.py:125 | `people_map`; its properties are stated in `Presenters.PeopleBySlugLastWins` |
| `Presenters.PeopleBySlugLastWins` | generate.py:125 | every person's slug is a key, and each key maps to the last person with that slug |
| `Presenters.LastWinsStep` | generate.py:125 | adding one more person keeps every key mapped to the last person with it |
| `Presenters.Resolve` | generate.py:189 | there are never more presenter details than presenter slugs |
| `Presenters.ResolvedArePeople` | generate.py:189 | every presenter detail is the person of one of the listed, known slugs |
| `Presenters.ResolveAppend` | generate.py:189 | slugs resolve one by one, in order, repetitions included |
| `Presenters.ResolveAllKnown` | generate.py:189 | when every slug is known, detail `i` is the person of slug `i` |
| `Presenters.ResolveEvent` | generate.py:187-189 | an event with `presenters` gets `presenter_details` resolved from its slugs; other fields and `date_obj` are kept; an event without `presenters` is unchanged |
| `Presenters.ScalarPresenterAsList` | generate.py:188 | a single presenter slug resolves as the list holding just that slug |
| `Content.PyStr` | generate.py:146 | `str(v)` of a front-matter value inside an f-string: a line is itself, a list is printed as Python prints a list of strings, within the limit listed under "Left out" |
| `Render.IndexOg` | generate.py:130-136 | `index_og_data`; its properties are stated in `Render.IndexOgImage` |
| `Render.PageOg` | generate.py:142-151 | `page_og_data`; its properties are stated in `Render.OgTitleFallback`, `Render.OgFallbacks` and `Render.DetailUrlsMatchPaths` |
| `Render.ItemOg` | generate.py:183-197 | `item_og_data`; its properties are stated in `Render.OgTitleFallback`, `Render.OgFallbacks` and `Render.DetailUrlsMatchPaths` |
| `Render.OgTitle` | generate.py:146 | `f"{x.get('title', fallback)} | {site title}"`, the same f-string as generate.py:192; stated in `Render.OgTitleFallback` |
| `Render.ImagePath` | generate.py:144 | the Open Graph image is the item's `image`, else the site image |
| `Render.OgTitleFallback` | generate.py:146 | the title is the item's title, or the fallback word when it has none, followed by the separator and the site title |
| `Render.OgFallbacks` | generate.py:186-197 | the description is the `summary`, else the site description; the image is the `image`, else the site image, made absolute; items are `article`s and pages `website`s |
| `Render.Written` | generate.py:187-189 | writing `presenter_details` keeps an item's fields and `date_obj` |
| `Render.PagesUpTo` | generate.py:142-153 | one page per item of `pages` |
| `Render.DetailsUpTo` | generate.py:182-200 | one detail page per item of a collection |
| `Render.WrittenUpTo` | generate.py:182-189 | the detail loop keeps the number of items of a collection |
| `Render.ResolveEvents` | generate.py:187-189 | every event, in place, gets its presenters resolved |
| `Render.PagesUpToAt` | generate.py:142-153 | page `i` of `pages` is the page of item `i` |
| `Render.DetailsUpToAt` | generate.py:182-200 | detail page `i` is that of the collection's item `i`, as the loop has written it |
| `Render.WrittenUpToAt` | generate.py:182-189 | after `n` items exactly the first `n` are written, and the rest are as loaded |
| `Render.WrittenAll` | generate.py:182-189 | the detail loop resolves the presenters of every event and leaves every other collection as it was |
| `Render.FileName` | generate.py:199 | `f"{item['slug']}.html"`, the file name of a page or item; its use is stated in `Render.DetailUrlsMatchPaths` |
| `Render.PagePath` | generate.py:143 | the site path `f"{page['slug']}.html"` a page announces; stated in `Render.DetailUrlsMatchPaths` |
| `Render.ItemPath` | generate.py:190 | the site path `f"{content_type}/{item['slug']}.html"` an item announces; stated in `Render.DetailUrlsMatchPaths` and `Render.AbsoluteSlugExample` |
| `Render.Page.Path` | generate.py:138-199 | the file `os.path.join` builds for each page: `index.html`, a page's file, a list page's `index.html` and an item's file; stated in `Render.DetailUrlsMatchPaths` and `Render.AbsoluteSlugExample` |
| `Render.DetailTemplate` | generate.py:176-181 | the detail template of each collection; stated in `Render.DetailUrlsMatchPaths` |
| `Render.Page.Template` | generate.py:137-181 | the template each page is rendered with: `index.html`, `page_detail.html`, `list_page.html` or the collection's detail template; stated in `Render.DetailUrlsMatchPaths` |
| `Render.Page.Og` | generate.py:130-197 | the `og_data` each render receives: the home, page and item records, and none for list pages (generate.py:168-173); stated in `Render.SiteAddressable`, `Render.OgFallbacks` and `Render.IndexOgImage` |
| `Render.JoinPath` | generate.py:152 | POSIX `os.path.join`: the joined path ends with the second part and is at most one `/` longer than the two parts; its cases are stated in `Render.JoinRelative` and `Render.DetailUrlsMatchPaths` |
| `Render.JoinRelative` | generate.py:152 | `os.path.join` puts one `/` between a directory not ending in `/` and a name not starting with one |
| `Render.DetailUrlsMatchPaths` | generate.py:143-199 | a detail page uses its collection's template and announces the site URL `<type>/<slug>.html`, a page announces `<slug>.html`; the file is `output/<type>/<slug>.html` (or `output/<slug>.html`), but a slug starting with `/` is written to `<slug>.html` itself, outside the output directory; the item keeps its front matter |
| `Render.AbsoluteSlugExample` | generate.py:190-199 | with `slug: /about`, an event page is written to `/about.html` and announces the site path `events//about.html` |
| `Render.IndexOgImage` | generate.py:130-136 | the home page announces the base URL as a `website`; its image is the base followed by the site image when the base has no trailing `/` and the image one leading `/` |
| `Render.IndexOgOfMain` | generate.py:218-223 | for the configuration of `main`, the home-page image is the logo path under `https://zanjanlug.ir` |
| `Render.ListHeading` | generate.py:156-170 | `f"فهرست {content_type_persian[content_type]}"`; stated in `Render.ListHeadingsDistinct` and `Render.Page.Title` |
| `Render.Page.Title` | generate.py:170 | the `title` argument of a template: exactly list pages receive one, the list heading of their collection |
| `Render.ListHeadingsDistinct` | generate.py:156-170 | the list pages of different collections get different titles |
| `Render.ListPages` | generate.py:162-172 | the four list pages, over the collections as loaded; their use is stated in `Render.SiteGraph.RenderSite` |
| `Render.Site` | generate.py:123-200 | the write order of `render_site`: home page, pages, list pages, then the detail pages of events, people, projects and news; stated in `Render.SiteAddressable` and `Render.SiteGraph.RenderSite` |
| `Render.SitePages` | generate.py:123-200 | the pages `render_site` writes, in order; its properties are stated in `Render.SiteAddressable` and `Render.SiteGraph.RenderSite` |
| `Render.RenderPages` | generate.py:142-153 | the page loop writes the page of every item of `pages`, in order |
| `Render.RenderCollection` | generate.py:182-200 | the detail loop writes one page per item, in order, with the item as written, and leaves the collection as `WrittenUpTo` says |
| `Render.PagesAddressable` | generate.py:142-153 | every page of `pages` has a path and a record when its items have a slug and no list as `image` |
| `Render.DetailsAddressable` | generate.py:182-200 | every detail page has a path and a record when its items have a slug and no list as `image` |
| `Render.SiteAddressable` | generate.py:123-200 | every page of the site has its path and Open Graph record |
| `Render.SiteGraph.constructor` | generate.py:212-229 | the site data holds the five collections and the configuration it is given |
| `Render.SiteGraph.RenderSite` | generate.py:123-200 | `render_site` writes: the home page with the featured event; the pages; the list pages over the collections as loaded; the detail pages of events, people, projects and news. The events end up with their `presenter_details`, and the other collections do not change |

## Left out

- Filesystem work is not modelled: clearing the output directory, copying
  static and resource files, reading files and writing pages. A directory
  listing is an `Option<seq<SourceFile>>`, where `None` is a missing
  directory, and a page is its path, template and data.
- The `print` messages are not modelled, including the warning for an
  invalid date.
- Markdown conversion and front-matter parsing are foreign library calls:
  - the conversion to HTML is the parameter `convert`, applied to the
    rewritten text;
  - the front-matter is an input map from each key to its lines.
- `Loader.SourceFile`: the front-matter is an input of its own, not derived
  from the file's text. The code parses it from the text after the two
  link rewrites, so a link inside the front-matter would be rewritten
  there too. And one `Markdown` instance serves every file, so `md.Meta`
  is whatever the library leaves after each conversion. The instance is
  never reset, and Python-Markdown keeps some state between `convert`
  calls, such as reference-link definitions. A file's `html` can therefore
  depend on the files converted before it, while `convert` here depends
  only on the file's own text. Since the inputs are unconstrained and no
  proved property reads `html`, no property depends on these points.
- Jinja2 is not modelled: the environment, the filters and template
  rendering. A page records its template and the data the template
  receives. The `site` argument is not recorded. It is the `data`
  dictionary itself, so the events it holds gain their
  `presenter_details` during the detail loop. Templates rendered after
  that write can see them through `site`: later event pages and all
  people, projects and news pages. The home page, the pages and the list
  pages cannot.
- `to_jalali_filter` is not modelled. It depends on `jdatetime` and
  `datetime.fromisoformat`, which are not part of this model.
- `main` is modelled only as the constant `Render.SiteConfigOfMain`, used
  by `Render.IndexOgOfMain`, and the `Render.SiteGraph` constructor. `social_links` is not used by any
  modelled operation.
- `datetime.now()` is a parameter. `load_content` reads the clock once per
  invalid date, and the model gives the `j`-th `.md` file of a listing the
  reading `clock(j)`. The readings are not required to increase, since
  nothing the model proves depends on that. `find_main_page_event` reads
  the clock once more, as the parameter `now` of `Selector.MainPageEvent`.
- `Dates.ParseDate`: does not model `strptime`'s acceptance of non-ASCII
  Unicode digits, because the date texts are read as ASCII digits.
- `Links.RewriteLinks`: the two regular expressions are applied per
  recognised link target. The text is a sequence of segments in which links
  are already found. Neither pattern can span a line, since `.` does not
  match a newline there, and `re.sub` matches never overlap. What is not
  modelled happens within one line. When the lookahead rejects a rooted
  target, the lazy group before it grows to the next `](` (or the next
  `src="`) on the same line, and the target found there is rewritten even
  if it belongs to a plain link or another tag. The model rewrites only
  the targets of recognised image links.
- Front-matter keys literally named `date_obj` or `presenter_details` are
  not modelled. The model keeps those two keys in typed fields, so such a
  front-matter value is stored in `fields` only.
- `Content.PyStr`: a list value in an f-string is rendered as Python prints
  a list of strings, but no character inside the lines is escaped. `repr`
  escapes quotes, backslashes and non-printable characters, such as the
  U+200C (zero-width non-joiner) common in Persian words.
- Crashes other than a bad `date` are preconditions, not error results:
  - an upcoming event without `date_obj` (`Selector.UpcomingDated`): the
    comparison with `now` raises `TypeError`;
  - a person whose `slug` is a list (`Presenters.SlugsAreText`): it cannot
    be a dictionary key;
  - an item whose `image` is a list (`Render.Printable`): `lstrip` raises.
- `Sorting.SortByDateDesc` is an insertion sort, not CPython's Timsort.
  `Sorting.StableSortUnique` proves that every stable sort by non-increasing
  date gives the same list.
- `Render.ListPages` is a function, not a loop. The list-page loop only
  writes files, and it renders each of the four collections as loaded,
  before the detail loop writes `presenter_details`.
