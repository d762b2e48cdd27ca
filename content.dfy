/**
 * The content model of the generator: front-matter values, instants and
 * content items.
 *
 * In the source an item is a dictionary built from the front-matter of a
 * markdown file plus the generated keys `html`, `slug`, `date_obj` and
 * `presenter_details`.  Here the textual keys live in `fields` (exactly as
 * the dictionary holds them after `**meta` is spread) and the two keys whose
 * values are not text, `date_obj` (a datetime) and `presenter_details`
 * (a list of person dictionaries), are typed fields of their own.
 */
module Content {
  import opened Wrappers

  /** A normalised front-matter value: a single line, or a list of lines. */
  datatype Value = Scalar(text: string) | Multi(lines: seq<string>)

  /**
   * The lines a value stands for; also `x if isinstance(x, list) else [x]`,
   * which turns a single `presenters` slug into a list of one.
   */
  function Lines(v: Value): seq<string> {
    match v
    case Scalar(s) => [s]
    case Multi(lines) => lines
  }

  /**
   * A point in time, in microseconds since `datetime.min`
   * (0001-01-01 00:00:00), the resolution of Python's `datetime`.
   */
  type Instant = nat

  /** `datetime.min`, the key given to items that have no `date_obj`. */
  const MinInstant: Instant := 0

  datatype Item = Item(
    fields: map<string, Value>,
    dateObj: Option<Instant>,
    presenterDetails: Option<seq<Item>>)

  /** The sort key `x.get('date_obj', datetime.min)`. */
  function SortKey(it: Item): (k: Instant)
    ensures it.dateObj.None? ==> k == MinInstant
    ensures it.dateObj.Some? ==> k == it.dateObj.value
  {
    it.dateObj.GetOr(MinInstant)
  }

  /** `item.get(key, default)` on the textual keys of an item. */
  function Get(it: Item, key: string, default: Value): (v: Value)
    ensures key in it.fields ==> v == it.fields[key]
    ensures key !in it.fields ==> v == default
  {
    if key in it.fields then it.fields[key] else default
  }

  /** True when `key` is absent or holds a single line (so Python sees a `str`). */
  predicate TextOrAbsent(it: Item, key: string) {
    key !in it.fields || it.fields[key].Scalar?
  }

  /** The item has a single-line `slug`. */
  predicate HasTextSlug(it: Item) {
    "slug" in it.fields && it.fields["slug"].Scalar?
  }

  /**
   * `str(v)`, as an f-string renders a front-matter value: a single line
   * is itself, a list is rendered the way Python prints a list of strings.
   */
  function PyStr(v: Value): string {
    match v
    case Scalar(s) => s
    case Multi(lines) => "[" + QuotedList(lines) + "]"
  }

  /** `', '.join(repr(s) for s in lines)`, for lines without quotes or backslashes. */
  function QuotedList(lines: seq<string>): string
    decreases |lines|
  {
    if lines == [] then ""
    else if |lines| == 1 then "'" + lines[0] + "'"
    else "'" + lines[0] + "', " + QuotedList(lines[1..])
  }
}
