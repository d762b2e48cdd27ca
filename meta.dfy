/**
 * Building one content item from a markdown file in `load_content`: the
 * front-matter dictionary comprehension, the slug, the `**meta` spread and
 * the `date_obj` of events and news.
 */
module Meta {
  import opened Wrappers
  import opened Content
  import opened Dates

  /** Front-matter as the markdown `meta` extension returns it: every key has a list of lines. */
  type RawMeta = map<string, seq<string>>

  /** `v[0] if len(v) == 1 else v`. */
  function NormalizeValue(lines: seq<string>): (v: Value)
    ensures Lines(v) == lines
    ensures v.Scalar? <==> |lines| == 1
  {
    if |lines| == 1 then Scalar(lines[0]) else Multi(lines)
  }

  /** The dictionary comprehension over `md.Meta`. */
  function NormalizeMeta(raw: RawMeta): (meta: map<string, Value>)
    ensures meta.Keys == raw.Keys
    ensures forall k | k in raw :: Lines(meta[k]) == raw[k] && (meta[k].Scalar? <==> |raw[k]| == 1)
  {
    map k | k in raw :: NormalizeValue(raw[k])
  }

  /** Turning every value back into its list of lines. */
  function Denormalize(meta: map<string, Value>): (raw: RawMeta)
    ensures raw.Keys == meta.Keys
  {
    map k | k in meta :: Lines(meta[k])
  }

  /** No list of one line: the form every normalised front-matter has. */
  predicate Canonical(meta: map<string, Value>) {
    forall k | k in meta :: !(meta[k].Multi? && |meta[k].lines| == 1)
  }

  /** Normalising loses nothing: the original lines are recovered. */
  lemma NormalizeMetaRoundTrip(raw: RawMeta)
    ensures Denormalize(NormalizeMeta(raw)) == raw
    ensures Canonical(NormalizeMeta(raw))
  {
    var back := Denormalize(NormalizeMeta(raw));
    assert forall k | k in raw :: back[k] == raw[k];
  }

  /** And every canonical front-matter is the normal form of its own lines. */
  lemma DenormalizeRoundTrip(meta: map<string, Value>)
    requires Canonical(meta)
    ensures NormalizeMeta(Denormalize(meta)) == meta
  {
    var again := NormalizeMeta(Denormalize(meta));
    forall k | k in meta
      ensures again[k] == meta[k]
    {
      if meta[k].Multi? {
        assert |meta[k].lines| != 1;
      }
    }
  }

  predicate AllDots(s: string) {
    forall i | 0 <= i < |s| :: s[i] == '.'
  }

  predicate EndsWith(s: string, suffix: string) {
    |suffix| <= |s| && s[|s| - |suffix|..] == suffix
  }

  /** The index of the last `.` in `s`, if any. */
  function LastDot(s: string): (r: Option<nat>)
    ensures r.Some? ==> r.value < |s| && s[r.value] == '.'
    ensures r.Some? ==> forall i | r.value < i < |s| :: s[i] != '.'
    ensures r.None? ==> forall i | 0 <= i < |s| :: s[i] != '.'
    decreases |s|
  {
    if s == [] then None
    else if s[|s| - 1] == '.' then Some(|s| - 1)
    else LastDot(s[..|s| - 1])
  }

  /**
   * `os.path.splitext(name)[0]` for a name with no directory part: the text
   * before the last `.`, unless only dots precede it (a name such as `.md`
   * has no extension).
   */
  function Stem(name: string): (stem: string)
    ensures stem <= name
  {
    match LastDot(name)
    case None => name
    case Some(i) => if AllDots(name[..i]) then name else name[..i]
  }

  /**
   * The slug of a listed `.md` file: its name without the final `.md`,
   * unless only dots precede that `.md` (as in `.md` or `..md`).
   */
  lemma StemOfMarkdownName(name: string)
    requires EndsWith(name, ".md")
    ensures var base := name[..|name| - 3];
      Stem(name) == if AllDots(base) then name else base
  {
    assert name[|name| - 3] == '.' && name[|name| - 2] == 'm' && name[|name| - 1] == 'd' by {
      assert name[|name| - 3..] == ".md";
    }
  }

  /** `{'html': html, 'slug': slug, **meta}`: the front-matter is spread last. */
  function SpreadFields(html: string, slug: string, meta: map<string, Value>): (fields: map<string, Value>)
    ensures fields.Keys == meta.Keys + {"html", "slug"}
    ensures forall k | k in meta :: fields[k] == meta[k]
    ensures "html" !in meta ==> fields["html"] == Scalar(html)
    ensures "slug" !in meta ==> fields["slug"] == Scalar(slug)
  {
    map["html" := Scalar(html), "slug" := Scalar(slug)] + meta
  }

  /** The two content types whose items get a `date_obj` and are sorted by it. */
  predicate IsDated(contentType: string) {
    contentType == "events" || contentType == "news"
  }

  /** The run aborts: `strptime` was given a list (several `date` lines), a `TypeError`. */
  datatype LoadError = DateNotText(file: string)

  /** `strptime(text, '%Y-%m-%d')`, or `now` where it raises `ValueError`. */
  function DateObj(text: string, now: Instant): (t: Instant)
    ensures ParseDate(text).Some? ==> t == ToInstant(ParseDate(text).value)
    ensures ParseDate(text).None? ==> t == now
  {
    match ParseDate(text)
    case Some(d) => ToInstant(d)
    case None => now
  }

  /** The item built from one `.md` file of a content type, or the error that aborts the run. */
  function MakeItem(contentType: string, name: string, html: string, raw: RawMeta, now: Instant)
    : (r: Result<Item, LoadError>)
    ensures r.Err? <==> IsDated(contentType) && "date" in raw && |raw["date"]| != 1
    ensures r.Err? ==> r.error == DateNotText(name)
    ensures r.Ok? ==> r.value.fields == SpreadFields(html, Stem(name), NormalizeMeta(raw))
    ensures r.Ok? ==> r.value.presenterDetails.None?
    ensures r.Ok? ==> (r.value.dateObj.Some? <==> IsDated(contentType) && "date" in raw)
    ensures r.Ok? && r.value.dateObj.Some? ==> r.value.dateObj.value == DateObj(raw["date"][0], now)
  {
    var fields := SpreadFields(html, Stem(name), NormalizeMeta(raw));
    if IsDated(contentType) && "date" in fields then
      match fields["date"]
      case Scalar(text) => Ok(Item(fields, Some(DateObj(text, now)), None))
      case Multi(_) => Err(DateNotText(name))
    else
      Ok(Item(fields, None, None))
  }
}
