/**
  The URL and path decompositions the scraper relies on: `urllib.parse.urlsplit`
  (scheme, network location and path), `os.path.splitext` and `os.path.basename` on
  POSIX, and the `suffix`/`stem`/`with_suffix` members of `pathlib.Path`.
*/
module Paths {
  import opened Strings

  /** `_WHATWG_C0_CONTROL_OR_SPACE`, stripped from the front of every URL. */
  predicate IsC0OrSpace(c: char) { c <= ' ' }

  /** `_UNSAFE_URL_BYTES_TO_REMOVE`, removed from anywhere in a URL. */
  predicate IsTabOrNewline(c: char) { c == '\t' || c == '\r' || c == '\n' }

  /** `scheme_chars`. */
  predicate IsSchemeChar(c: char) { IsAsciiLetter(c) || IsDigit(c) || c == '+' || c == '-' || c == '.' }

  predicate AllSchemeChars(s: string) { forall i :: 0 <= i < |s| ==> IsSchemeChar(s[i]) }

  predicate IsNetlocEnd(c: char) { c == '/' || c == '?' || c == '#' }
  predicate IsPathEnd(c: char) { c == '?' || c == '#' }

  /** The length of the longest prefix of `s` without a character satisfying `stop`. */
  function SpanUntil(s: string, stop: char -> bool): (n: nat)
    ensures n <= |s|
    ensures forall i :: 0 <= i < n ==> !stop(s[i])
    ensures n < |s| ==> stop(s[n])
    decreases |s|
  {
    if s == [] || stop(s[0]) then 0 else 1 + SpanUntil(s[1..], stop)
  }

  datatype SplitUrl = SplitUrl(scheme: string, netloc: string, path: string)

  /** Everything after the scheme separator, or the whole URL when it has no scheme. */
  function AfterScheme(url: string): string
  {
    var i := FindChar(url, ':');
    if i > 0 && IsAsciiLetter(url[0]) && AllSchemeChars(url[..i]) then url[i + 1..] else url
  }

  function SchemeOf(url: string): string
  {
    var i := FindChar(url, ':');
    if i > 0 && IsAsciiLetter(url[0]) && AllSchemeChars(url[..i]) then Lower(url[..i]) else ""
  }

  /** The URL after the input clean-up `urlsplit` performs first. */
  function CleanUrl(url: string): string
  {
    Filter(TrimLeft(url, IsC0OrSpace), c => !IsTabOrNewline(c))
  }

  /** The clean-up leaves no tab or newline and adds no character the URL lacks. */
  lemma CleanUrlClean(url: string)
    ensures forall i :: 0 <= i < |CleanUrl(url)| ==> !IsTabOrNewline(CleanUrl(url)[i]) && CleanUrl(url)[i] in url
  {
  }

  /** The network location and path of what follows the scheme. */
  function NetlocAndPath(rest: string): (r: (string, string))
    ensures forall i :: 0 <= i < |r.0| ==> !IsNetlocEnd(r.0[i])
    ensures forall i :: 0 <= i < |r.1| ==> !IsPathEnd(r.1[i])
  {
    var hasNetloc := StartsWith(rest, "//");
    var n := if hasNetloc then SpanUntil(rest[2..], IsNetlocEnd) else 0;
    var netloc := if hasNetloc then rest[2..][..n] else "";
    var tail := if hasNetloc then rest[2..][n..] else rest;
    (netloc, tail[..SpanUntil(tail, IsPathEnd)])
  }

  /** `urlsplit(url)`, keeping the components the scraper reads. */
  function UrlSplit(url: string): (r: SplitUrl)
    ensures forall i :: 0 <= i < |r.netloc| ==> !IsNetlocEnd(r.netloc[i])
    ensures forall i :: 0 <= i < |r.path| ==> !IsPathEnd(r.path[i])
  {
    var clean := CleanUrl(url);
    var parts := NetlocAndPath(AfterScheme(clean));
    SplitUrl(SchemeOf(clean), parts.0, parts.1)
  }

  predicate Printable(s: string) { forall i :: 0 <= i < |s| ==> s[i] > ' ' }

  lemma PrintableConcat(a: string, b: string)
    requires Printable(a) && Printable(b)
    ensures Printable(a + b)
  {
    forall i | 0 <= i < |a + b| ensures (a + b)[i] > ' ' {
      if i >= |a| { assert (a + b)[i] == b[i - |a|]; }
    }
  }

  /** A URL made only of printable characters is left alone by the clean-up. */
  lemma CleanUrlPrintable(url: string)
    requires Printable(url)
    ensures CleanUrl(url) == url
  {
    assert TrimLeft(url, IsC0OrSpace) == url;
  }

  /** A scheme followed by `:` is split off. */
  lemma AfterSchemeShape(scheme: string, rest: string)
    requires |scheme| > 0 && IsAsciiLetter(scheme[0]) && AllSchemeChars(scheme)
    ensures AfterScheme(scheme + ":" + rest) == rest
    ensures SchemeOf(scheme + ":" + rest) == Lower(scheme)
  {
    var url := scheme + ":" + rest;
    assert url[..|scheme|] == scheme;
    assert ':' !in scheme by {
      forall i | 0 <= i < |scheme| ensures scheme[i] != ':' { assert IsSchemeChar(scheme[i]); }
    }
    assert url[|scheme|] == ':';
    assert FindChar(url, ':') == |scheme|;
    assert url[|scheme| + 1..] == rest;
  }

  /** A URL of the shape `scheme://netloc/path?query` splits into exactly those parts. */
  lemma UrlSplitShape(scheme: string, netloc: string, path: string, query: string)
    requires |scheme| > 0 && IsAsciiLetter(scheme[0]) && AllSchemeChars(scheme)
    requires forall i :: 0 <= i < |netloc| ==> !IsNetlocEnd(netloc[i])
    requires |path| > 0 && path[0] == '/'
    requires forall i :: 0 <= i < |path| ==> !IsPathEnd(path[i])
    requires Printable(netloc) && Printable(path) && Printable(query)
    ensures UrlSplit(scheme + "://" + netloc + path + "?" + query) == SplitUrl(Lower(scheme), netloc, path)
  {
    var rest := "//" + netloc + path + "?" + query;
    var url := scheme + ":" + rest;
    assert url == scheme + "://" + netloc + path + "?" + query;
    assert Printable(scheme) by {
      forall i | 0 <= i < |scheme| ensures scheme[i] > ' ' { assert IsSchemeChar(scheme[i]); }
    }
    PrintableConcat(scheme, ":");
    PrintableConcat(scheme + ":", "//");
    PrintableConcat(scheme + ":" + "//", netloc);
    PrintableConcat(scheme + ":" + "//" + netloc, path);
    PrintableConcat(scheme + ":" + "//" + netloc + path, "?");
    PrintableConcat(scheme + ":" + "//" + netloc + path + "?", query);
    assert url == scheme + ":" + "//" + netloc + path + "?" + query;
    CleanUrlPrintable(url);
    AfterSchemeShape(scheme, rest);
    NetlocAndPathShape(netloc, path, query);
  }

  lemma NetlocAndPathShape(netloc: string, path: string, query: string)
    requires forall i :: 0 <= i < |netloc| ==> !IsNetlocEnd(netloc[i])
    requires |path| > 0 && path[0] == '/'
    requires forall i :: 0 <= i < |path| ==> !IsPathEnd(path[i])
    ensures NetlocAndPath("//" + netloc + path + "?" + query) == (netloc, path)
  {
    var rest := "//" + netloc + path + "?" + query;
    assert StartsWith(rest, "//");
    var body := rest[2..];
    assert body == netloc + (path + "?" + query);
    assert body[|netloc|] == '/';
    SpanAt(body, IsNetlocEnd, |netloc|);
    assert body[..|netloc|] == netloc;
    var tail := body[|netloc|..];
    assert tail == path + "?" + query;
    SpanAt(tail, IsPathEnd, |path|);
    assert tail[..|path|] == path;
  }

  /** `SpanUntil` stops at the first character satisfying `stop`. */
  lemma {:induction false} SpanAt(s: string, stop: char -> bool, n: nat)
    requires n <= |s|
    requires forall i :: 0 <= i < n ==> !stop(s[i])
    requires n < |s| ==> stop(s[n])
    ensures SpanUntil(s, stop) == n
    decreases n
  {
    if n > 0 {
      SpanAt(s[1..], stop, n - 1);
    }
  }

  /** `os.path.basename` on POSIX. */
  function Basename(p: string): (r: string)
    ensures '/' !in r
    ensures '/' !in p ==> r == p
  {
    var i := RFindChar(p, '/');
    p[i + 1..]
  }

  /**
    `os.path.splitext(p)[1]` on POSIX: from the last `.` of the last component, unless
    every character before that `.` in the component is a `.` as well.
  */
  function SplitExt(p: string): (ext: string)
    ensures ext == [] || (ext[0] == '.' && EndsWith(p, ext) && '/' !in ext)
  {
    var sep := RFindChar(p, '/');
    var dot := RFindChar(p, '.');
    if dot > sep && exists i :: sep + 1 <= i < dot && p[i] != '.' then p[dot..] else ""
  }

  /** `PurePath.suffix` of a single name (Python 3.12). */
  function PathSuffix(name: string): (r: string)
    ensures r == [] || (r[0] == '.' && |r| >= 2 && EndsWith(name, r))
  {
    var i := RFindChar(name, '.');
    if 0 < i && i < |name| - 1 then name[i..] else ""
  }

  /** `PurePath.stem` of a single name (Python 3.12). */
  function PathStem(name: string): (r: string)
    ensures r + PathSuffix(name) == name
  {
    var i := RFindChar(name, '.');
    if 0 < i && i < |name| - 1 then name[..i] else name
  }

  /** A last `.` that is neither the first nor the last character splits stem from suffix. */
  lemma SuffixAt(name: string, i: int)
    requires RFindChar(name, '.') == i && 0 < i < |name| - 1
    ensures PathSuffix(name) == name[i..] && PathStem(name) == name[..i]
  {
  }

  /** `PurePath.with_suffix(suffix)` of a single name. */
  function WithSuffix(name: string, suffix: string): string { PathStem(name) + suffix }

  lemma LastDotOfSimplePath(stem: string, ext: string)
    requires stem != [] && stem[0] != '.'
    requires '/' !in stem && '.' !in ext && '/' !in ext
    ensures RFindChar("/" + stem + "." + ext, '.') == |stem| + 1
  {
    var p := "/" + stem + "." + ext;
    assert p == ("/" + stem) + ['.'] + ext;
    RFindCharAt("/" + stem, '.', ext);
  }
  lemma LastSlashOfSimplePath(stem: string, ext: string)
    requires stem != [] && stem[0] != '.'
    requires '/' !in stem && '.' !in ext && '/' !in ext
    ensures RFindChar("/" + stem + "." + ext, '/') == 0
  {
    var p := "/" + stem + "." + ext;
    var q := stem + "." + ext;
    assert p == [] + ['/'] + q;
    assert '/' !in q by { assert q == stem + ['.'] + ext; }
    RFindCharAt([], '/', q);
  }
  /** A last `.` after the last `/`, with a non-dot between them, starts the extension. */
  lemma SplitExtAt(p: string, sep: int, dot: int)
    requires RFindChar(p, '/') == sep && RFindChar(p, '.') == dot
    requires 0 <= sep + 1 < dot && p[sep + 1] != '.'
    ensures SplitExt(p) == p[dot..]
  {
    assert sep + 1 <= sep + 1 < dot && p[sep + 1] != '.';
  }

  /** A path without a `.` has no extension. */
  lemma SplitExtNoDot(p: string)
    requires '.' !in p
    ensures SplitExt(p) == ""
  {
  }

  /** A URL without a scheme separator, slashes, query or fragment is all path. */
  lemma UrlSplitPlain(url: string)
    requires Printable(url)
    requires ':' !in url && '/' !in url && '?' !in url && '#' !in url
    ensures UrlSplit(url).path == url
  {
    CleanUrlPrintable(url);
    assert AfterScheme(url) == url;
    assert !StartsWith(url, "//") by { assert url == [] || url[0] != '/'; }
    SpanAt(url, IsPathEnd, |url|);
    assert url[..|url|] == url;
  }

  /** The extension of `/stem.ext` is `.ext`. */
  lemma SplitExtSimple(stem: string, ext: string)
    requires stem != [] && stem[0] != '.'
    requires '/' !in stem && '.' !in ext && '/' !in ext
    ensures SplitExt("/" + stem + "." + ext) == "." + ext
  {
    LastDotOfSimplePath(stem, ext);
    LastSlashOfSimplePath(stem, ext);
    var p := "/" + stem + "." + ext;
    assert p[1] == stem[0];
    SplitExtAt(p, 0, |stem| + 1);
    assert p[|stem| + 1..] == "." + ext;
  }
}
