/**
 * `load_content(content_type)`: every `.md` file of the content type's
 * directory, in listing order, becomes an item; events and news are then
 * sorted by descending date.
 *
 * The directory listing and the files are inputs: `None` stands for a
 * directory that does not exist.  Each file comes with its whole text, as
 * segments in which the image links are recognised, and with the
 * front-matter `md.Meta` holds after the file is converted.  `md.convert`,
 * which turns the rewritten text into HTML, is the parameter `convert`.
 *
 * The code calls `datetime.now()` afresh for every invalid date, inside the
 * file loop, so each file has its own reading of the clock.  The parameter
 * `clock` gives them: `clock(j)` is the instant the `j`-th `.md` file of
 * the listing would get.  Files converted later may get later instants.
 */
module Loader {
  import opened Wrappers
  import opened Content
  import opened Dates
  import opened Links
  import opened Meta
  import opened Sorting

  /** One entry of a content-type directory. */
  datatype SourceFile = SourceFile(name: string, meta: RawMeta, text: seq<Segment>)

  predicate IsMarkdown(f: SourceFile) {
    EndsWith(f.name, ".md")
  }

  /**
   * The item one markdown file gives: its text is rewritten, then converted.
   * `now` is the clock reading taken if its date is invalid.
   */
  function ItemOf(contentType: string, f: SourceFile, convert: string -> string, now: Instant)
    : Result<Item, LoadError>
  {
    MakeItem(contentType, f.name, convert(Render(RewriteLinks(f.text))), f.meta, now)
  }

  /** The facts every loaded item satisfies. */
  predicate WellFormed(contentType: string, it: Item) {
    && "html" in it.fields && "slug" in it.fields
    && (it.dateObj.Some? <==> IsDated(contentType) && "date" in it.fields)
    && it.presenterDetails.None?
  }

  /** The files of the listing that the loop turns into items. */
  function MarkdownFiles(files: seq<SourceFile>): (r: seq<SourceFile>)
    ensures |r| <= |files|
    ensures forall f | f in r :: f in files && IsMarkdown(f)
    decreases |files|
  {
    if files == [] then []
    else MarkdownFiles(files[..|files| - 1]) + (if IsMarkdown(files[|files| - 1]) then [files[|files| - 1]] else [])
  }

  /** The `.md` files of two listings one after the other are those of each, in order. */
  lemma {:induction false} MarkdownFilesAppend(a: seq<SourceFile>, b: seq<SourceFile>)
    ensures MarkdownFiles(a + b) == MarkdownFiles(a) + MarkdownFiles(b)
    decreases |b|
  {
    if b == [] {
      assert a + b == a;
    } else {
      var init := b[..|b| - 1];
      assert (a + b)[..|a + b| - 1] == a + init;
      MarkdownFilesAppend(a, init);
    }
  }

  /** Every `.md` file of the listing is read; no other file is. */
  lemma {:induction false} MarkdownFilesComplete(files: seq<SourceFile>)
    ensures forall f | f in files :: f in MarkdownFiles(files) <==> IsMarkdown(f)
    decreases |files|
  {
    if files != [] {
      var init := files[..|files| - 1];
      MarkdownFilesComplete(init);
      assert files == init + [files[|files| - 1]];
    }
  }

  /**
   * The loop of `load_content` over a listing: the items in listing order,
   * or the first error.  The `j`-th `.md` file reads the clock as `clock(j)`.
   */
  function BuildItems(contentType: string, files: seq<SourceFile>, convert: string -> string, clock: nat -> Instant)
    : Result<seq<Item>, LoadError>
    decreases |files|
  {
    if files == [] then Ok([])
    else
      var init, f := files[..|files| - 1], files[|files| - 1];
      match BuildItems(contentType, init, convert, clock)
      case Err(e) => Err(e)
      case Ok(items) =>
        if !IsMarkdown(f) then Ok(items)
        else
          match ItemOf(contentType, f, convert, clock(|items|))
          case Err(e) => Err(e)
          case Ok(it) => Ok(items + [it])
  }

  /** A successful loop gives one item per `.md` file, each the item of its file. */
  lemma {:induction false} BuildItemsPerFile(
    contentType: string, files: seq<SourceFile>, convert: string -> string, clock: nat -> Instant)
    ensures var r, md := BuildItems(contentType, files, convert, clock), MarkdownFiles(files);
      r.Ok? ==> |r.value| == |md| && forall j | 0 <= j < |md| :: ItemOf(contentType, md[j], convert, clock(j)) == Ok(r.value[j])
    decreases |files|
  {
    if files != [] {
      var init, f := files[..|files| - 1], files[|files| - 1];
      BuildItemsPerFile(contentType, init, convert, clock);
      var r, md, mdInit := BuildItems(contentType, files, convert, clock), MarkdownFiles(files), MarkdownFiles(init);
      if r.Ok? && IsMarkdown(f) {
        var items := BuildItems(contentType, init, convert, clock).value;
        assert md == mdInit + [f];
        assert r.value == items + [ItemOf(contentType, f, convert, clock(|items|)).value];
      }
    }
  }

  /** What `load_content` returns for a listing. */
  function Load(contentType: string, listing: Option<seq<SourceFile>>, convert: string -> string, clock: nat -> Instant)
    : Result<seq<Item>, LoadError>
  {
    match listing
    case None => Ok([])
    case Some(files) =>
      match BuildItems(contentType, files, convert, clock)
      case Err(e) => Err(e)
      case Ok(items) => Ok(if IsDated(contentType) then SortByDateDesc(items) else items)
  }

  /** An error part-way through the listing is the error of the whole listing. */
  lemma {:induction false} BuildItemsErrorStays(
    contentType: string, files: seq<SourceFile>, i: int, convert: string -> string, clock: nat -> Instant)
    requires 0 <= i <= |files|
    requires BuildItems(contentType, files[..i], convert, clock).Err?
    ensures BuildItems(contentType, files, convert, clock) == BuildItems(contentType, files[..i], convert, clock)
    decreases |files| - i
  {
    if i < |files| {
      assert files[..i + 1][..i] == files[..i];
      BuildItemsErrorStays(contentType, files, i + 1, convert, clock);
    } else {
      assert files[..i] == files;
    }
  }

  /** One more file through the loop of `load_content`. */
  lemma BuildItemsStep(contentType: string, files: seq<SourceFile>, i: int, items: seq<Item>,
                       convert: string -> string, clock: nat -> Instant)
    requires 0 <= i < |files| && BuildItems(contentType, files[..i], convert, clock) == Ok(items)
    ensures var next, made := BuildItems(contentType, files[..i + 1], convert, clock), ItemOf(contentType, files[i], convert, clock(|items|));
      && (!IsMarkdown(files[i]) ==> next == Ok(items))
      && (IsMarkdown(files[i]) && made.Ok? ==> next == Ok(items + [made.value]))
      && (IsMarkdown(files[i]) && made.Err? ==> next == Err(made.error))
  {
    assert files[..i + 1][..i] == files[..i];
  }

  method LoadContent(contentType: string, listing: Option<seq<SourceFile>>, convert: string -> string, clock: nat -> Instant)
    returns (r: Result<seq<Item>, LoadError>)
    ensures r == Load(contentType, listing, convert, clock)
  {
    if listing.None? {
      return Ok([]);
    }
    var files := listing.value;
    var items: seq<Item> := [];
    var i := 0;
    while i < |files|
      invariant 0 <= i <= |files|
      invariant BuildItems(contentType, files[..i], convert, clock) == Ok(items)
    {
      var f := files[i];
      BuildItemsStep(contentType, files, i, items, convert, clock);
      if IsMarkdown(f) {
        var html := convert(Render(RewriteLinks(f.text)));
        var made := MakeItem(contentType, f.name, html, f.meta, clock(|items|));
        if made.Err? {
          BuildItemsErrorStays(contentType, files, i + 1, convert, clock);
          return Err(made.error);
        }
        items := items + [made.value];
      }
      i := i + 1;
    }
    assert files[..i] == files;
    if IsDated(contentType) {
      items := SortByDateDesc(items);
    }
    r := Ok(items);
  }

  /** The file whose `date` front-matter has several lines (or none), on which `strptime` raises `TypeError`. */
  predicate AbortsOn(contentType: string, f: SourceFile) {
    IsDated(contentType) && "date" in f.meta && |f.meta["date"]| != 1
  }

  /** No `.md` file of a successful loop aborts it. */
  lemma BuildItemsOkNoAbort(contentType: string, files: seq<SourceFile>, convert: string -> string, clock: nat -> Instant)
    ensures var r, md := BuildItems(contentType, files, convert, clock), MarkdownFiles(files);
      r.Ok? ==> forall j | 0 <= j < |md| :: !AbortsOn(contentType, md[j])
  {
    BuildItemsPerFile(contentType, files, convert, clock);
  }

  /** `md[j]` is the first file of `md` that aborts the loop. */
  predicate FirstAbortAt(contentType: string, md: seq<SourceFile>, j: int) {
    && 0 <= j < |md|
    && AbortsOn(contentType, md[j])
    && forall j' | 0 <= j' < j :: !AbortsOn(contentType, md[j'])
  }

  /** A failed loop stopped at the first aborting `.md` file, and its error names that file. */
  lemma {:induction false} BuildItemsFirstAbort(
    contentType: string, files: seq<SourceFile>, convert: string -> string, clock: nat -> Instant)
    ensures BuildItems(contentType, files, convert, clock).Err? ==>
      exists j :: FirstAbortAt(contentType, MarkdownFiles(files), j)
        && BuildItems(contentType, files, convert, clock).error == DateNotText(MarkdownFiles(files)[j].name)
    decreases |files|
  {
    if files != [] {
      var init, f := files[..|files| - 1], files[|files| - 1];
      var r, rInit := BuildItems(contentType, files, convert, clock), BuildItems(contentType, init, convert, clock);
      var mdInit, md := MarkdownFiles(init), MarkdownFiles(files);
      assert md == mdInit + (if IsMarkdown(f) then [f] else []);
      if rInit.Err? {
        BuildItemsFirstAbort(contentType, init, convert, clock);
        var j :| FirstAbortAt(contentType, mdInit, j) && rInit.error == DateNotText(mdInit[j].name);
        assert r == rInit;
        assert forall j' | 0 <= j' <= j :: md[j'] == mdInit[j'];
        assert FirstAbortAt(contentType, md, j);
      } else if r.Err? {
        BuildItemsOkNoAbort(contentType, init, convert, clock);
        var made := ItemOf(contentType, f, convert, clock(|rInit.value|));
        assert IsMarkdown(f) && r == Err(made.error);
        assert AbortsOn(contentType, f) && made.error == DateNotText(f.name);
        assert forall j' | 0 <= j' < |mdInit| :: md[j'] == mdInit[j'];
        assert md[|mdInit|] == f;
        assert FirstAbortAt(contentType, md, |mdInit|);
      }
    }
  }

  /**
   * Loading fails exactly when some listed `.md` file of events or news
   * has a multi-line `date`, and the error names the first such file.
   */
  lemma BuildItemsFails(contentType: string, files: seq<SourceFile>, convert: string -> string, clock: nat -> Instant)
    ensures var r, md := BuildItems(contentType, files, convert, clock), MarkdownFiles(files);
      && (r.Err? <==> exists j | 0 <= j < |md| :: AbortsOn(contentType, md[j]))
      && (r.Err? ==> exists j :: FirstAbortAt(contentType, md, j) && r.error == DateNotText(md[j].name))
  {
    BuildItemsOkNoAbort(contentType, files, convert, clock);
    BuildItemsFirstAbort(contentType, files, convert, clock);
  }

  /** Every item the loop builds satisfies `WellFormed`. */
  lemma BuiltWellFormed(contentType: string, files: seq<SourceFile>, convert: string -> string, clock: nat -> Instant)
    requires BuildItems(contentType, files, convert, clock).Ok?
    ensures forall it | it in BuildItems(contentType, files, convert, clock).value :: WellFormed(contentType, it)
  {
    var items := BuildItems(contentType, files, convert, clock).value;
    BuildItemsPerFile(contentType, files, convert, clock);
    forall it | it in items
      ensures WellFormed(contentType, it)
    {
      var j :| 0 <= j < |items| && items[j] == it;
      var f := MarkdownFiles(files)[j];
      assert ItemOf(contentType, f, convert, clock(j)) == Ok(it);
    }
  }

  /**
   * What a successful load returns: no items for a missing directory;
   * otherwise the items of the `.md` files, in listing order for pages,
   * people and projects, and for events and news the same items sorted by
   * non-increasing date, items of one date in listing order.  Every item
   * has `html` and `slug`, and has a `date_obj` exactly when it is an
   * event or news item with a `date`.
   */
  lemma LoadResult(contentType: string, listing: Option<seq<SourceFile>>, convert: string -> string, clock: nat -> Instant)
    requires Load(contentType, listing, convert, clock).Ok?
    ensures var items := Load(contentType, listing, convert, clock).value;
      && (listing.None? ==> items == [])
      && (forall it | it in items :: WellFormed(contentType, it))
      && (listing.Some? ==>
            var built := BuildItems(contentType, listing.value, convert, clock).value;
            && (!IsDated(contentType) ==> items == built)
            && (IsDated(contentType) ==>
                  && SortedDesc(items)
                  && multiset(items) == multiset(built)
                  && forall k :: WithKey(items, k) == WithKey(built, k)))
  {
    if listing.Some? {
      var built := BuildItems(contentType, listing.value, convert, clock).value;
      BuiltWellFormed(contentType, listing.value, convert, clock);
      if IsDated(contentType) {
        var items := SortByDateDesc(built);
        forall it | it in items
          ensures WellFormed(contentType, it)
        {
          assert it in multiset(items);
        }
        forall k
          ensures WithKey(items, k) == WithKey(built, k)
        {
          SortByDateDescStable(built, k);
        }
      }
    }
  }

  /** A load that succeeds has one item per listed `.md` file. */
  lemma LoadCount(contentType: string, files: seq<SourceFile>, convert: string -> string, clock: nat -> Instant)
    requires Load(contentType, Some(files), convert, clock).Ok?
    ensures |Load(contentType, Some(files), convert, clock).value| == |MarkdownFiles(files)|
  {
    var built := BuildItems(contentType, files, convert, clock).value;
    BuildItemsPerFile(contentType, files, convert, clock);
    if IsDated(contentType) {
      assert |multiset(SortByDateDesc(built))| == |multiset(built)|;
    }
  }

  /** A dated file whose one-line `date` `strptime` rejects is keyed by the clock reading it got. */
  lemma InvalidDateItem(contentType: string, f: SourceFile, convert: string -> string, now: Instant)
    requires IsDated(contentType)
    requires "date" in f.meta && |f.meta["date"]| == 1 && ParseDate(f.meta["date"][0]).None?
    ensures ItemOf(contentType, f, convert, now).Ok?
    ensures ItemOf(contentType, f, convert, now).value.dateObj == Some(now)
  {
  }

  /** A listing of two `.md` files that both load gives their two items in listing order. */
  lemma BuildTwo(contentType: string, a: SourceFile, b: SourceFile, convert: string -> string, clock: nat -> Instant)
    requires IsMarkdown(a) && IsMarkdown(b)
    requires ItemOf(contentType, a, convert, clock(0)).Ok? && ItemOf(contentType, b, convert, clock(1)).Ok?
    ensures BuildItems(contentType, [a, b], convert, clock)
      == Ok([ItemOf(contentType, a, convert, clock(0)).value, ItemOf(contentType, b, convert, clock(1)).value])
  {
    var files, ia := [a, b], ItemOf(contentType, a, convert, clock(0)).value;
    assert files[..0] == [];
    BuildItemsStep(contentType, files, 0, [], convert, clock);
    assert [] + [ia] == [ia];
    assert files[..1] == [a];
    assert BuildItems(contentType, files[..1], convert, clock) == Ok([ia]);
    BuildItemsStep(contentType, files, 1, [ia], convert, clock);
    var ib := ItemOf(contentType, b, convert, clock(1)).value;
    assert files[1] == b && |[ia]| == 1;
    assert [ia] + [ib] == [ia, ib];
    assert files[..2] == files;
    assert BuildItems(contentType, files[..2], convert, clock) == Ok([ia, ib]);
  }

  /**
   * Two events or news files listed one after the other, both with a
   * one-line `date` that `strptime` rejects: each is keyed by its own clock
   * reading.  When the second file's reading is later, it is sorted first;
   * only equal readings keep listing order.
   */
  lemma InvalidDatesByClock(
    contentType: string, a: SourceFile, b: SourceFile, convert: string -> string, clock: nat -> Instant)
    requires IsDated(contentType) && IsMarkdown(a) && IsMarkdown(b)
    requires "date" in a.meta && |a.meta["date"]| == 1 && ParseDate(a.meta["date"][0]).None?
    requires "date" in b.meta && |b.meta["date"]| == 1 && ParseDate(b.meta["date"][0]).None?
    ensures ItemOf(contentType, a, convert, clock(0)).Ok? && ItemOf(contentType, b, convert, clock(1)).Ok?
    ensures var ia, ib := ItemOf(contentType, a, convert, clock(0)).value, ItemOf(contentType, b, convert, clock(1)).value;
      Load(contentType, Some([a, b]), convert, clock) == Ok(if clock(0) < clock(1) then [ib, ia] else [ia, ib])
  {
    InvalidDateItem(contentType, a, convert, clock(0));
    InvalidDateItem(contentType, b, convert, clock(1));
    BuildTwo(contentType, a, b, convert, clock);
    var ia, ib := ItemOf(contentType, a, convert, clock(0)).value, ItemOf(contentType, b, convert, clock(1)).value;
    SortTwo(ia, ib);
  }
}
