/**
 * `get_full_url`: joins the site's base URL and a path with exactly one
 * `/` between them, whatever slashes the two ends carry.
 */
module Urls {

  /** A run of `k` slashes. */
  function Slashes(k: nat): (r: string)
    ensures |r| == k && forall i | 0 <= i < k :: r[i] == '/'
  {
    seq(k, _ => '/')
  }

  predicate AllSlashes(s: string) {
    forall i | 0 <= i < |s| :: s[i] == '/'
  }

  /** `s.rstrip('/')`. */
  function RStripSlash(s: string): string
    decreases |s|
  {
    if |s| > 0 && s[|s| - 1] == '/' then RStripSlash(s[..|s| - 1]) else s
  }

  /** `s.lstrip('/')`. */
  function LStripSlash(s: string): string
    decreases |s|
  {
    if |s| > 0 && s[0] == '/' then LStripSlash(s[1..]) else s
  }

  /** `rstrip('/')` keeps the longest prefix of `s` that does not end in `/`. */
  lemma {:induction false} RStripSlashShape(s: string)
    ensures var r := RStripSlash(s);
      && |r| <= |s| && r == s[..|r|]
      && (r == [] || r[|r| - 1] != '/')
      && AllSlashes(s[|r|..])
    decreases |s|
  {
    if |s| > 0 && s[|s| - 1] == '/' {
      var init := s[..|s| - 1];
      RStripSlashShape(init);
      var r := RStripSlash(init);
      assert init[..|r|] == s[..|r|];
      assert s[|r|..] == init[|r|..] + "/";
    }
  }

  /** `lstrip('/')` keeps the longest suffix of `s` that does not start with `/`. */
  lemma {:induction false} LStripSlashShape(s: string)
    ensures var r := LStripSlash(s);
      && |r| <= |s| && r == s[|s| - |r|..]
      && (r == [] || r[0] != '/')
      && AllSlashes(s[..|s| - |r|])
    decreases |s|
  {
    if |s| > 0 && s[0] == '/' {
      var tail := s[1..];
      LStripSlashShape(tail);
      var r := LStripSlash(tail);
      assert tail[|tail| - |r|..] == s[|s| - |r|..];
      assert s[..|s| - |r|] == "/" + tail[..|tail| - |r|];
    }
  }

  /** `get_full_url(base_url, path)`. */
  function FullUrl(base: string, path: string): string {
    RStripSlash(base) + "/" + LStripSlash(path)
  }

  /**
   * `url` is the first `i` characters of `base`, one slash, and `path`
   * from index `j` on, where only slashes are dropped and neither kept
   * part has a slash at the seam.
   */
  predicate JoinedAt(base: string, path: string, url: string, i: int, j: int) {
    && 0 <= i <= |base| && 0 <= j <= |path|
    && url == base[..i] + "/" + path[j..]
    && AllSlashes(base[i..]) && AllSlashes(path[..j])
    && (i == 0 || base[i - 1] != '/')
    && (j == |path| || path[j] != '/')
  }

  /** The joined URL keeps everything of both inputs except the slashes at the seam. */
  lemma FullUrlShape(base: string, path: string)
    ensures exists i, j :: JoinedAt(base, path, FullUrl(base, path), i, j)
  {
    RStripSlashShape(base);
    LStripSlashShape(path);
    var b, p := RStripSlash(base), LStripSlash(path);
    assert JoinedAt(base, path, FullUrl(base, path), |b|, |path| - |p|);
  }

  /**
   * Conversely, any such split of the inputs gives exactly `get_full_url`'s
   * result: the cut points are forced.
   */
  lemma JoinedAtIsFullUrl(base: string, path: string, url: string, i: int, j: int)
    requires JoinedAt(base, path, url, i, j)
    ensures url == FullUrl(base, path)
  {
    RStripSlashShape(base);
    LStripSlashShape(path);
    var b, p := RStripSlash(base), LStripSlash(path);
    assert i == |b|;
    assert j == |path| - |p|;
  }

  /** Stripping is a fixed point once there is nothing to strip. */
  lemma {:induction false} RStripAppendSlashes(s: string, k: nat)
    ensures RStripSlash(s + Slashes(k)) == RStripSlash(s)
    decreases k
  {
    if k > 0 {
      var t := s + Slashes(k);
      assert t[..|t| - 1] == s + Slashes(k - 1);
      RStripAppendSlashes(s, k - 1);
    } else {
      assert s + Slashes(0) == s;
    }
  }

  lemma {:induction false} LStripPrependSlashes(s: string, k: nat)
    ensures LStripSlash(Slashes(k) + s) == LStripSlash(s)
    decreases k
  {
    if k > 0 {
      var t := Slashes(k) + s;
      assert t[1..] == Slashes(k - 1) + s;
      LStripPrependSlashes(s, k - 1);
    } else {
      assert Slashes(0) + s == s;
    }
  }

  /**
   * Adding slashes to the end of the base or to the start of the path
   * never changes the joined URL.
   */
  lemma FullUrlIgnoresSeamSlashes(base: string, path: string, k: nat, l: nat)
    ensures FullUrl(base + Slashes(k), Slashes(l) + path) == FullUrl(base, path)
  {
    RStripAppendSlashes(base, k);
    LStripPrependSlashes(path, l);
  }

  /** The separator sits right after the stripped base and is never doubled. */
  lemma FullUrlSingleSeparator(base: string, path: string)
    ensures var u, n := FullUrl(base, path), |RStripSlash(base)|;
      && n < |u| && u[n] == '/'
      && (n == 0 || u[n - 1] != '/')
      && (n + 1 == |u| || u[n + 1] != '/')
  {
    RStripSlashShape(base);
    LStripSlashShape(path);
  }

  /** The example of a base with a trailing slash and a path with a leading one. */
  lemma FullUrlExample()
    ensures FullUrl("https://site.ir/", "/events/1.html") == "https://site.ir/events/1.html"
  {
    var base, host := "https://site.ir/", "https://site.ir";
    assert base[..|base| - 1] == host;
    assert RStripSlash(base) == RStripSlash(host);
    assert host[|host| - 1] == 'r';
    var path, rest := "/events/1.html", "events/1.html";
    assert path[1..] == rest;
    assert LStripSlash(path) == LStripSlash(rest);
    assert rest[0] == 'e';
  }
}
