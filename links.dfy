/**
 * Resource-link rewriting in `load_content`: the target of a Markdown image
 * `![alt](target)` or of an HTML `<img ... src="target"` is rooted under
 * `/resources/` unless it already starts with `http://`, `https://` or `/`.
 *
 * The text is modelled as a sequence of segments in which the links have
 * already been recognised; each rewrite is applied per link target.
 */
module Links {

  const ResourcePrefix := "/resources/"

  predicate StartsWith(s: string, prefix: string) {
    |prefix| <= |s| && s[..|prefix|] == prefix
  }

  /** The negative look-ahead `(?!https?://|/)` fails on these targets. */
  predicate IsRooted(target: string) {
    StartsWith(target, "http://") || StartsWith(target, "https://") || StartsWith(target, "/")
  }

  /** The rewrite of one link target. */
  function RewriteTarget(target: string): (r: string)
    ensures IsRooted(r)
    ensures IsRooted(target) ==> r == target
    ensures !IsRooted(target) ==> StartsWith(r, ResourcePrefix) && r[|ResourcePrefix|..] == target
  {
    if IsRooted(target) then target else ResourcePrefix + target
  }

  /** Rewriting a rewritten target changes nothing. */
  lemma RewriteTargetIdempotent(target: string)
    ensures RewriteTarget(RewriteTarget(target)) == RewriteTarget(target)
  {
  }

  /** Two different relative targets stay different. */
  lemma RewriteTargetInjectiveOnRelative(s: string, t: string)
    requires !IsRooted(s) && !IsRooted(t) && s != t
    ensures RewriteTarget(s) != RewriteTarget(t)
  {
    assert RewriteTarget(s)[|ResourcePrefix|..] == s;
  }

  /**
   * A relative target and the already-rooted target it becomes cannot be
   * told apart afterwards: both `img/x.png` and `/resources/img/x.png`
   * end up as `/resources/img/x.png`.
   */
  lemma RewriteTargetMerges(target: string)
    requires !IsRooted(target)
    ensures RewriteTarget(target) == RewriteTarget(ResourcePrefix + target)
  {
    assert (ResourcePrefix + target)[..1] == "/";
  }

  /** A piece of the text of a markdown file. */
  datatype Segment =
    | Text(text: string)
    | MarkdownImage(alt: string, target: string)   // ![alt](target)
    | HtmlImage(attributes: string, target: string) // <img{attributes}src="target"

  function RenderSegment(seg: Segment): string {
    match seg
    case Text(t) => t
    case MarkdownImage(alt, target) => "![" + alt + "](" + target + ")"
    case HtmlImage(attributes, target) => "<img" + attributes + "src=\"" + target + "\""
  }

  /** The text a sequence of segments stands for. */
  function Render(doc: seq<Segment>): string
    decreases |doc|
  {
    if doc == [] then "" else RenderSegment(doc[0]) + Render(doc[1..])
  }

  function RewriteSegment(seg: Segment): Segment {
    match seg
    case Text(t) => Text(t)
    case MarkdownImage(alt, target) => MarkdownImage(alt, RewriteTarget(target))
    case HtmlImage(attributes, target) => HtmlImage(attributes, RewriteTarget(target))
  }

  /** Both `re.sub` passes over a text: every image target rewritten, nothing else touched. */
  function RewriteLinks(doc: seq<Segment>): (r: seq<Segment>)
    ensures |r| == |doc|
    ensures forall i | 0 <= i < |doc| :: r[i] == RewriteSegment(doc[i])
    decreases |doc|
  {
    if doc == [] then [] else [RewriteSegment(doc[0])] + RewriteLinks(doc[1..])
  }

  /** After the rewrite every image target is rooted. */
  lemma RewrittenTargetsRooted(doc: seq<Segment>, i: int)
    requires 0 <= i < |doc|
    ensures !RewriteLinks(doc)[i].Text? ==> IsRooted(RewriteLinks(doc)[i].target)
    ensures RewriteLinks(doc)[i].Text? <==> doc[i].Text?
  {
    match doc[i]
    case Text(_) =>
    case MarkdownImage(_, t) =>
    case HtmlImage(_, t) =>
  }

  /** Running the rewrite over already-rewritten text changes nothing. */
  lemma RewriteLinksIdempotent(doc: seq<Segment>)
    ensures RewriteLinks(RewriteLinks(doc)) == RewriteLinks(doc)
  {
    var once := RewriteLinks(doc);
    forall i | 0 <= i < |doc|
      ensures RewriteLinks(once)[i] == once[i]
    {
      if !doc[i].Text? {
        RewriteTargetIdempotent(doc[i].target);
      }
    }
  }

  /** A text with every image target already rooted is left exactly as it is. */
  lemma {:induction false} RootedTextUnchanged(doc: seq<Segment>)
    requires forall i | 0 <= i < |doc| :: !doc[i].Text? ==> IsRooted(doc[i].target)
    ensures Render(RewriteLinks(doc)) == Render(doc)
    decreases |doc|
  {
    if doc != [] {
      RootedTextUnchanged(doc[1..]);
      assert RewriteLinks(doc)[1..] == RewriteLinks(doc[1..]);
    }
  }

  lemma PrefixStartsWith(p: string, t: string)
    ensures StartsWith(p + t, p)
  {
    assert (p + t)[..|p|] == p;
  }

  lemma FirstCharDiffers(s: string, p: string)
    requires |s| > 0 && |p| > 0 && s[0] != p[0]
    ensures !StartsWith(s, p)
  {
  }

  /** A relative image target is rooted under the resource path. */
  lemma RewriteRelativeExample()
    ensures RewriteTarget("img/x.png") == "/resources/img/x.png"
  {
    FirstCharDiffers("img/x.png", "/");
    FirstCharDiffers("img/x.png", "http://");
    FirstCharDiffers("img/x.png", "https://");
  }

  /** Qualified and absolute Markdown image targets are kept. */
  lemma RewriteRootedExamples()
    ensures RewriteTarget("https://ex.com/x.png") == "https://ex.com/x.png"
    ensures RewriteTarget("/already/absolute.png") == "/already/absolute.png"
  {
    var q, a := "https://ex.com/x.png", "/already/absolute.png";
    assert q == "https://" + "ex.com/x.png";
    PrefixStartsWith("https://", "ex.com/x.png");
    assert IsRooted(q);
    assert a == "/" + "already/absolute.png";
    PrefixStartsWith("/", "already/absolute.png");
    assert IsRooted(a);
  }
}
