/**
 * `render_site` and the site graph of `main`: the Open Graph records and
 * output files of every page, the featured event, and the
 * `presenter_details` written into the events.  Template rendering itself
 * and the writing of files are not modelled: a page is its output path,
 * its template and the data handed to the template besides the site.
 */
module Render {
  import opened Wrappers
  import opened Content
  import opened Urls
  import opened Selector
  import opened Presenters

  /** The output directory, and the template and output file names. */
  const OutputDir: string := "output"
  const IndexFile: string := "index.html"
  const PageTemplate: string := "page_detail.html"
  const ListTemplate: string := "list_page.html"
  const EventTemplate: string := "event_detail.html"
  const PersonTemplate: string := "person_detail.html"
  const ProjectTemplate: string := "project_detail.html"
  const NewsTemplate: string := "news_detail.html"
  const HtmlSuffix: string := ".html"

  /** The Open Graph `type`s and the words that stand in for a missing title. */
  const WebsiteKind: string := "website"
  const ArticleKind: string := "article"
  const PageWord: string := "صفحه"
  const ItemWord: string := "مورد"
  const TitleSeparator: string := " | "
  const ListWord: string := "فهرست "

  datatype SiteConfig = SiteConfig(title: string, baseUrl: string, description: string, ogImage: string)

  /** The configuration `main` builds. */
  const SiteConfigOfMain := SiteConfig(
    "زنجان‌لاگ",
    "https://zanjanlug.ir",
    "گروه کاربران لینوکس زنجان (زنجان‌لاگ)، جامعه‌ای برای علاقه‌مندان به نرم‌افزار آزاد و متن‌باز در زنجان.",
    "/static/images/zanjanlug_logo_square.png")

  /** The `og_data` dictionary handed to a template. */
  datatype OgRecord = OgRecord(title: string, description: Value, url: string, image: string, kind: string)

  /**
   * The four collections with list and detail pages, in the order `main`
   * puts them in `data`.
   */
  datatype Collection = Events | People | Projects | News

  /** The collection's key in `data`, which is also its output directory. */
  function Dir(c: Collection): string {
    match c
    case Events => "events"
    case People => "people"
    case Projects => "projects"
    case News => "news"
  }

  /**
   * One output file, given by what its template receives besides the site:
   * the home page with the featured event, a page of `pages`, the detail
   * page of a collection item, or the list page of a collection.  Its path,
   * template and Open Graph record follow from that.
   */
  datatype Page =
    | HomePage(featured: Option<Item>)
    | StaticPage(page: Item)
    | DetailPage(collection: Collection, item: Item)
    | ListPage(collection: Collection, items: seq<Item>)
  {
    /** The page's path and record can be built: its item has a slug and no list as `image`. */
    predicate Addressable() {
      match this
      case StaticPage(page) => Printable(page)
      case DetailPage(_, item) => Printable(item)
      case _ => true
    }

    /** The file written, as `os.path.join` builds it from the output directory. */
    function Path(): string
      requires Addressable()
    {
      match this
      case HomePage(_) => JoinPath(OutputDir, IndexFile)
      case StaticPage(page) => JoinPath(OutputDir, PagePath(page))
      case DetailPage(c, item) => JoinPath(JoinPath(OutputDir, Dir(c)), FileName(item))
      case ListPage(c, _) => JoinPath(JoinPath(OutputDir, Dir(c)), IndexFile)
    }

    function Template(): string {
      match this
      case HomePage(_) => IndexFile
      case StaticPage(_) => PageTemplate
      case DetailPage(c, _) => DetailTemplate(c)
      case ListPage(_, _) => ListTemplate
    }

    /** The `og_data` the template receives; list pages receive none. */
    function Og(cfg: SiteConfig): Option<OgRecord>
      requires Addressable()
    {
      match this
      case HomePage(_) => Some(IndexOg(cfg))
      case StaticPage(page) => Some(PageOg(cfg, page))
      case DetailPage(c, item) => Some(ItemOg(cfg, c, item))
      case ListPage(_, _) => None
    }

    /** The `title` argument the template receives; only list pages receive one. */
    function Title(): (t: Option<string>)
      ensures t.Some? <==> ListPage?
      ensures ListPage? ==> t.value == ListHeading(collection)
    {
      match this
      case ListPage(c, _) => Some(ListHeading(c))
      case _ => None
    }
  }

  /** An item a page can be rendered for: a slug, and no list as `image`. */
  predicate Printable(it: Item) {
    "slug" in it.fields && TextOrAbsent(it, "image")
  }

  /** `x.get('image', og_image)`, which must be a single line (`lstrip` of a list raises). */
  function ImagePath(cfg: SiteConfig, it: Item): (p: string)
    requires TextOrAbsent(it, "image")
    ensures "image" in it.fields ==> p == it.fields["image"].text
    ensures "image" !in it.fields ==> p == cfg.ogImage
  {
    if "image" in it.fields then it.fields["image"].text else cfg.ogImage
  }

  /** `f"{x.get('title', fallback)} | {site title}"`. */
  function OgTitle(cfg: SiteConfig, it: Item, fallback: string): string {
    PyStr(Get(it, "title", Scalar(fallback))) + TitleSeparator + cfg.title
  }

  /** The record of the home page. */
  function IndexOg(cfg: SiteConfig): OgRecord {
    OgRecord(cfg.title, Scalar(cfg.description), cfg.baseUrl, FullUrl(cfg.baseUrl, cfg.ogImage), WebsiteKind)
  }

  /**
   * The home page announces the base URL; its image is the base followed
   * by the site image when the base has no trailing `/` and the image one
   * leading `/`.
   */
  lemma IndexOgImage(cfg: SiteConfig)
    requires cfg.baseUrl != [] && cfg.baseUrl[|cfg.baseUrl| - 1] != '/'
    requires |cfg.ogImage| >= 2 && cfg.ogImage[0] == '/' && cfg.ogImage[1] != '/'
    ensures IndexOg(cfg).url == cfg.baseUrl && IndexOg(cfg).kind == WebsiteKind
    ensures IndexOg(cfg).image == cfg.baseUrl + cfg.ogImage
  {
    var rest := cfg.ogImage[1..];
    assert LStripSlash(cfg.ogImage) == rest;
    assert cfg.ogImage == "/" + rest;
  }

  /** The home-page image of the site `main` configures is the logo under the base URL. */
  lemma IndexOgOfMain()
    ensures IndexOg(SiteConfigOfMain).image == SiteConfigOfMain.baseUrl + SiteConfigOfMain.ogImage
  {
    var base, image := SiteConfigOfMain.baseUrl, SiteConfigOfMain.ogImage;
    assert base[|base| - 1] == 'r';
    assert image[0] == '/' && image[1] == 's';
    IndexOgImage(SiteConfigOfMain);
  }

  /** The record of a page of the `pages` collection, published at `<slug>.html`. */
  function PageOg(cfg: SiteConfig, page: Item): OgRecord
    requires Printable(page)
  {
    OgRecord(
      OgTitle(cfg, page, PageWord),
      Get(page, "summary", Scalar(cfg.description)),
      FullUrl(cfg.baseUrl, PagePath(page)),
      FullUrl(cfg.baseUrl, ImagePath(cfg, page)),
      WebsiteKind)
  }

  /** The record of an item of a collection, published at `<type>/<slug>.html`. */
  function ItemOg(cfg: SiteConfig, c: Collection, it: Item): OgRecord
    requires Printable(it)
  {
    OgRecord(
      OgTitle(cfg, it, ItemWord),
      Get(it, "summary", Scalar(cfg.description)),
      FullUrl(cfg.baseUrl, ItemPath(c, it)),
      FullUrl(cfg.baseUrl, ImagePath(cfg, it)),
      ArticleKind)
  }

  /**
   * `os.path.join(a, b)` on POSIX: an absolute `b` replaces `a`; otherwise
   * `b` is appended, after a `/` unless `a` is empty or already ends in one.
   */
  function JoinPath(a: string, b: string): (p: string)
    ensures |p| >= |b| && p[|p| - |b|..] == b
    ensures |p| <= |a| + 1 + |b|
  {
    if |b| > 0 && b[0] == '/' then b
    else if a == [] || a[|a| - 1] == '/' then a + b
    else a + "/" + b
  }

  /** `f"{x['slug']}.html"`. */
  function FileName(it: Item): string
    requires "slug" in it.fields
  {
    PyStr(it.fields["slug"]) + HtmlSuffix
  }

  /** The site path of a page of `pages`, announced in its record. */
  function PagePath(page: Item): string
    requires "slug" in page.fields
  {
    FileName(page)
  }

  /** The site path of an item of a collection, announced in its record. */
  function ItemPath(c: Collection, it: Item): string
    requires "slug" in it.fields
  {
    Dir(c) + "/" + FileName(it)
  }

  /** A slug that does not start with `/` keeps its file inside its directory. */
  lemma JoinRelative(a: string, b: string)
    requires a != [] && a[|a| - 1] != '/'
    requires b == [] || b[0] != '/'
    ensures JoinPath(a, b) == a + "/" + b
  {
  }

  /**
   * The title an Open Graph record carries: the item's own title, or the
   * fallback word when it has none, then the site title.
   */
  lemma OgTitleFallback(cfg: SiteConfig, it: Item, fallback: string)
    ensures "title" !in it.fields ==> OgTitle(cfg, it, fallback) == fallback + TitleSeparator + cfg.title
    ensures "title" in it.fields ==> OgTitle(cfg, it, fallback) == PyStr(it.fields["title"]) + TitleSeparator + cfg.title
    ensures var t := OgTitle(cfg, it, fallback); var suffix := TitleSeparator + cfg.title;
      |suffix| <= |t| && t[|t| - |suffix|..] == suffix
  {
  }

  /**
   * The fallbacks of a record: the item's `summary`, else the site
   * description; the item's `image`, else the site image, made absolute;
   * `website` for pages and `article` for collection items.
   */
  lemma OgFallbacks(cfg: SiteConfig, c: Collection, it: Item)
    requires Printable(it)
    ensures var og, pog := ItemOg(cfg, c, it), PageOg(cfg, it);
      && og.description == pog.description
      && og.image == pog.image
      && ("summary" in it.fields ==> og.description == it.fields["summary"])
      && ("summary" !in it.fields ==> og.description == Scalar(cfg.description))
      && ("image" in it.fields ==> og.image == FullUrl(cfg.baseUrl, it.fields["image"].text))
      && ("image" !in it.fields ==> og.image == FullUrl(cfg.baseUrl, cfg.ogImage))
      && og.kind == ArticleKind && pog.kind == WebsiteKind
  {
  }

  /** `detail_templates`. */
  function DetailTemplate(c: Collection): string {
    match c
    case Events => EventTemplate
    case People => PersonTemplate
    case Projects => ProjectTemplate
    case News => NewsTemplate
  }

  /** `f"فهرست {content_type_persian[content_type]}"`, the title of a list page. */
  function ListHeading(c: Collection): string {
    ListWord + (
      match c
      case Events => "رویدادها"
      case People => "افراد"
      case Projects => "پروژه‌ها"
      case News => "اخبار")
  }

  /** Different collections get different list-page titles. */
  lemma ListHeadingsDistinct(c: Collection, d: Collection)
    requires c != d
    ensures ListHeading(c) != ListHeading(d)
  {
    var tc, td := ListHeading(c)[|ListWord|..], ListHeading(d)[|ListWord|..];
    assert tc != td by {
      if |tc| == |td| {
        assert tc[0] != td[0] || tc[1] != td[1];
      }
    }
  }

  /** The four list pages, in collection order, over the collections as loaded. */
  function ListPages(events: seq<Item>, people: seq<Item>, projects: seq<Item>, news: seq<Item>): seq<Page> {
    [ListPage(Events, events), ListPage(People, people), ListPage(Projects, projects), ListPage(News, news)]
  }

  /** Items every page can be rendered for. */
  predicate Publishable(items: seq<Item>) {
    forall i | 0 <= i < |items| :: Printable(items[i])
  }

  /** An item of a collection as the detail loop leaves it: events get `presenter_details`. */
  function Written(c: Collection, it: Item, byslug: map<string, Item>): (w: Item)
    ensures w.fields == it.fields && w.dateObj == it.dateObj
  {
    if c == Events then ResolveEvent(it, byslug) else it
  }

  /** The pages of the first `n` items of `pages`. */
  function PagesUpTo(pages: seq<Item>, n: int): (r: seq<Page>)
    requires 0 <= n <= |pages|
    ensures |r| == n
  {
    if n == 0 then [] else PagesUpTo(pages, n - 1) + [StaticPage(pages[n - 1])]
  }

  /**
   * The detail pages of the first `n` items of a collection: the template
   * of each receives the item as the loop has written it.
   */
  function DetailsUpTo(c: Collection, items: seq<Item>, n: int, byslug: map<string, Item>): (r: seq<Page>)
    requires 0 <= n <= |items|
    ensures |r| == n
  {
    if n == 0 then [] else DetailsUpTo(c, items, n - 1, byslug) + [DetailPage(c, Written(c, items[n - 1], byslug))]
  }

  /** A collection once the detail loop has written its first `n` items. */
  function WrittenUpTo(c: Collection, items: seq<Item>, n: int, byslug: map<string, Item>): (r: seq<Item>)
    requires 0 <= n <= |items|
    ensures |r| == |items|
  {
    if n == 0 then items
    else
      var w := WrittenUpTo(c, items, n - 1, byslug);
      if c == Events then w[n - 1 := ResolveEvent(items[n - 1], byslug)] else w
  }

  /** `presenter_details` written into every event that has `presenters`. */
  function ResolveEvents(events: seq<Item>, byslug: map<string, Item>): (r: seq<Item>)
    ensures |r| == |events|
    ensures forall i | 0 <= i < |events| :: r[i] == ResolveEvent(events[i], byslug)
  {
    seq(|events|, i requires 0 <= i < |events| => ResolveEvent(events[i], byslug))
  }

  /** The page of `pages` at position `i` is the one of its `i`-th item. */
  lemma {:induction false} PagesUpToAt(pages: seq<Item>, n: int, i: int)
    requires 0 <= i < n <= |pages|
    ensures PagesUpTo(pages, n)[i] == StaticPage(pages[i])
  {
    if i < n - 1 {
      PagesUpToAt(pages, n - 1, i);
    }
  }

  /** The detail page at position `i` is the one of the collection's `i`-th item, as written. */
  lemma {:induction false} DetailsUpToAt(c: Collection, items: seq<Item>, n: int, byslug: map<string, Item>, i: int)
    requires 0 <= i < n <= |items|
    ensures DetailsUpTo(c, items, n, byslug)[i] == DetailPage(c, Written(c, items[i], byslug))
  {
    if i < n - 1 {
      DetailsUpToAt(c, items, n - 1, byslug, i);
    }
  }

  /** After `n` items, exactly the first `n` events are written; nothing else changes. */
  lemma {:induction false} WrittenUpToAt(c: Collection, items: seq<Item>, n: int, byslug: map<string, Item>, i: int)
    requires 0 <= n <= |items| && 0 <= i < |items|
    ensures WrittenUpTo(c, items, n, byslug)[i] == if i < n then Written(c, items[i], byslug) else items[i]
  {
    if n > 0 {
      WrittenUpToAt(c, items, n - 1, byslug, i);
    }
  }

  /**
   * The whole detail loop writes `presenter_details` into every event
   * and leaves the items of the other collections as they were.
   */
  lemma WrittenAll(c: Collection, items: seq<Item>, byslug: map<string, Item>)
    ensures c == Events ==> WrittenUpTo(c, items, |items|, byslug) == ResolveEvents(items, byslug)
    ensures c != Events ==> WrittenUpTo(c, items, |items|, byslug) == items
  {
    var w := WrittenUpTo(c, items, |items|, byslug);
    forall i | 0 <= i < |items|
      ensures w[i] == if c == Events then ResolveEvents(items, byslug)[i] else items[i]
    {
      WrittenUpToAt(c, items, |items|, byslug, i);
    }
  }

  /**
   * The detail page of an item is its collection's template; it announces
   * the site URL `<type>/<slug>.html` and hands the template the item with
   * its front matter intact.  The file is `output/<type>/<slug>.html`,
   * unless the slug starts with `/`: then `os.path.join` drops the
   * directories and the file is `<slug>.html` itself, outside the output
   * directory.  A page of `pages` likewise announces `<slug>.html` and is
   * written to `output/<slug>.html` or, for a slug starting with `/`,
   * to `<slug>.html`.
   */
  lemma DetailUrlsMatchPaths(cfg: SiteConfig, c: Collection, items: seq<Item>, byslug: map<string, Item>, i: int)
    requires Publishable(items) && 0 <= i < |items|
    ensures var p, name := DetailsUpTo(c, items, |items|, byslug)[i], PyStr(items[i].fields["slug"]) + HtmlSuffix;
      && p.Addressable() && p.Template() == DetailTemplate(c)
      && p.Og(cfg).Some? && p.Og(cfg).value.url == FullUrl(cfg.baseUrl, Dir(c) + "/" + name)
      && (name[0] != '/' ==> p.Path() == OutputDir + "/" + Dir(c) + "/" + name)
      && (name[0] == '/' ==> p.Path() == name)
      && p.item.fields == items[i].fields
    ensures var p, name := PagesUpTo(items, |items|)[i], PyStr(items[i].fields["slug"]) + HtmlSuffix;
      && p.Addressable() && p.Template() == PageTemplate
      && p.Og(cfg).Some? && p.Og(cfg).value.url == FullUrl(cfg.baseUrl, name)
      && (name[0] != '/' ==> p.Path() == OutputDir + "/" + name)
      && (name[0] == '/' ==> p.Path() == name)
  {
    DetailsUpToAt(c, items, |items|, byslug, i);
    PagesUpToAt(items, |items|, i);
    var name := PyStr(items[i].fields["slug"]) + HtmlSuffix;
    var dir := JoinPath(OutputDir, Dir(c));
    JoinRelative(OutputDir, Dir(c));
    assert dir[|dir| - 1] != '/' by {
      assert dir == OutputDir + "/" + Dir(c);
    }
    if name[0] != '/' {
      JoinRelative(dir, name);
      JoinRelative(OutputDir, name);
    }
  }

  /** The example of a front-matter `slug: /about`: the event page is written to `/about.html`. */
  lemma AbsoluteSlugExample(it: Item)
    requires it.fields == map["slug" := Scalar("/about")]
    ensures DetailPage(Events, it).Path() == "/about.html"
    ensures ItemPath(Events, it) == "events//about.html"
  {
    assert FileName(it) == "/about" + HtmlSuffix;
  }

  /** The `for page in data['pages']` loop: one page per item, in order. */
  method RenderPages(pages: seq<Item>) returns (out: seq<Page>)
    requires Publishable(pages)
    ensures out == PagesUpTo(pages, |pages|)
  {
    out := [];
    var i := 0;
    while i < |pages|
      invariant 0 <= i <= |pages|
      invariant out == PagesUpTo(pages, i)
    {
      out := out + [StaticPage(pages[i])];
      i := i + 1;
    }
  }

  /**
   * The detail loop over the items of one collection: for events,
   * `presenter_details` written into the item, then a page per item.
   * `updated` is the collection after the loop.
   */
  method RenderCollection(c: Collection, items: seq<Item>, byslug: map<string, Item>)
    returns (out: seq<Page>, updated: seq<Item>)
    requires Publishable(items)
    ensures out == DetailsUpTo(c, items, |items|, byslug)
    ensures updated == WrittenUpTo(c, items, |items|, byslug)
  {
    out := [];
    updated := items;
    var j := 0;
    while j < |items|
      invariant 0 <= j <= |items|
      invariant out == DetailsUpTo(c, items, j, byslug)
      invariant updated == WrittenUpTo(c, items, j, byslug)
    {
      var item := items[j];
      if c == Events {
        // `ResolveEvent` leaves an event without `presenters` as it is.
        item := ResolveEvent(item, byslug);
        updated := updated[j := item];
      }
      out := out + [DetailPage(c, item)];
      j := j + 1;
    }
  }

  /** The inputs `render_site` runs to completion on. */
  predicate RenderableSite(events: seq<Item>, people: seq<Item>, projects: seq<Item>, pages: seq<Item>, news: seq<Item>) {
    && SlugsAreText(people)
    && UpcomingDated(events)
    && Publishable(events) && Publishable(people) && Publishable(projects)
    && Publishable(pages) && Publishable(news)
  }

  /**
   * The pages `render_site` writes, in order, given the featured event and
   * the people by slug: the home page, the pages, the list pages (over the
   * collections as loaded) and the detail pages.
   */
  function Site(featured: Option<Item>, byslug: map<string, Item>, events: seq<Item>, people: seq<Item>,
                projects: seq<Item>, pages: seq<Item>, news: seq<Item>): seq<Page> {
    [HomePage(featured)]
      + PagesUpTo(pages, |pages|)
      + ListPages(events, people, projects, news)
      + DetailsUpTo(Events, events, |events|, byslug)
      + DetailsUpTo(People, people, |people|, byslug)
      + DetailsUpTo(Projects, projects, |projects|, byslug)
      + DetailsUpTo(News, news, |news|, byslug)
  }

  /** What `render_site` renders for the collections it is given. */
  function SitePages(events: seq<Item>, people: seq<Item>, projects: seq<Item>,
                     pages: seq<Item>, news: seq<Item>, now: Instant): seq<Page>
    requires RenderableSite(events, people, projects, pages, news)
  {
    Site(MainPageEvent(events, now), PeopleBySlug(people), events, people, projects, pages, news)
  }

  /** Every page of `pages` can be addressed when its items can. */
  lemma {:induction false} PagesAddressable(pages: seq<Item>, n: int)
    requires Publishable(pages) && 0 <= n <= |pages|
    ensures forall p | p in PagesUpTo(pages, n) :: p.Addressable()
  {
    if n > 0 {
      PagesAddressable(pages, n - 1);
    }
  }

  /** Every detail page of a collection can be addressed when its items can. */
  lemma {:induction false} DetailsAddressable(c: Collection, items: seq<Item>, n: int, byslug: map<string, Item>)
    requires Publishable(items) && 0 <= n <= |items|
    ensures forall p | p in DetailsUpTo(c, items, n, byslug) :: p.Addressable()
  {
    if n > 0 {
      DetailsAddressable(c, items, n - 1, byslug);
    }
  }

  /** Every page of a site over publishable collections has its path and Open Graph record. */
  lemma SiteAddressable(featured: Option<Item>, byslug: map<string, Item>, events: seq<Item>, people: seq<Item>,
                        projects: seq<Item>, pages: seq<Item>, news: seq<Item>)
    requires Publishable(events) && Publishable(people) && Publishable(projects)
    requires Publishable(pages) && Publishable(news)
    ensures forall p | p in Site(featured, byslug, events, people, projects, pages, news) :: p.Addressable()
  {
    PagesAddressable(pages, |pages|);
    DetailsAddressable(Events, events, |events|, byslug);
    DetailsAddressable(People, people, |people|, byslug);
    DetailsAddressable(Projects, projects, |projects|, byslug);
    DetailsAddressable(News, news, |news|, byslug);
  }

  /** The `data` dictionary of `main`: the five collections and the site configuration. */
  class SiteGraph {
    var events: seq<Item>
    var people: seq<Item>
    var projects: seq<Item>
    var pages: seq<Item>
    var news: seq<Item>
    const config: SiteConfig

    constructor (events: seq<Item>, people: seq<Item>, projects: seq<Item>, pages: seq<Item>,
                 news: seq<Item>, config: SiteConfig)
      ensures this.events == events && this.people == people && this.projects == projects
      ensures this.pages == pages && this.news == news && this.config == config
    {
      this.events, this.people, this.projects := events, people, projects;
      this.pages, this.news, this.config := pages, news, config;
    }

    /**
     * People keyed by text slugs, every upcoming event dated, every
     * rendered item with a slug and no list as `image`.
     */
    predicate Renderable()
      reads this
    {
      RenderableSite(events, people, projects, pages, news)
    }

    /**
     * `render_site`: the home page with the featured event, the pages, the
     * list pages and the detail pages; the events get their
     * `presenter_details` and nothing else changes.
     */
    method RenderSite(now: Instant) returns (out: seq<Page>)
      requires Renderable()
      modifies this
      ensures people == old(people) && projects == old(projects)
      ensures pages == old(pages) && news == old(news)
      ensures out == SitePages(old(events), people, projects, pages, news, now)
      ensures events == WrittenUpTo(Events, old(events), |old(events)|, PeopleBySlug(people))
    {
      var byslug := PeopleBySlug(people);
      var home := HomePage(MainPageEvent(events, now));
      var pageOut := RenderPages(pages);
      var lists := ListPages(events, people, projects, news);
      // The detail loop over `data.items()`, one collection after another.
      var eventOut, written := RenderCollection(Events, events, byslug);
      var peopleOut, _ := RenderCollection(People, people, byslug);
      var projectOut, _ := RenderCollection(Projects, projects, byslug);
      var newsOut, _ := RenderCollection(News, news, byslug);
      out := [home] + pageOut + lists + eventOut + peopleOut + projectOut + newsOut;
      events := written;
    }
  }
}
