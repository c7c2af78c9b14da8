/**
  How the scraper names what it saves: file-name sanitising, the query slug, the
  extension chosen from several hints, the generated `<engine>_<index>` names, the
  numeric suffix that avoids overwriting an existing file, and the name a `.webp`
  file gets when it is converted to `.jpg`.
*/
module Naming {
  import opened Wrappers
  import opened Strings
  import opened Paths

  function Min(a: int, b: int): int { if a <= b then a else b }

  // ---------------------------------------------------------------------------
  // sanitize_filename
  // ---------------------------------------------------------------------------

  /** The characters `[\w.\-]` a file name may keep. */
  predicate IsSafe(c: char) { IsWordChar(c) || c == '.' || c == '-' }

  predicate IsUnsafe(c: char) { !IsSafe(c) }

  predicate AllSafe(s: string) { forall i :: 0 <= i < |s| ==> IsSafe(s[i]) }

  /**
    `sanitize_filename`: strip, turn every run of unsafe characters into one `_`,
    fall back to `image`, and keep at most 255 characters.
  */
  function Sanitize(candidate: string): (r: string)
    ensures 0 < |r| <= 255
    ensures AllSafe(r)
    ensures Strip(candidate) == "" ==> r == "image"
    ensures AllSafe(candidate) && 0 < |candidate| <= 255 ==> r == candidate
  {
    var stripped := Strip(candidate);
    var collapsed := CollapseRuns(stripped, IsUnsafe, '_', false);
    SanitizeSafeInput(candidate, stripped, collapsed);
    if collapsed == [] then
      ImageIsSafe();
      "image"
    else
      CollapsedSafe(stripped, collapsed, Min(|collapsed|, 255));
      collapsed[..Min(|collapsed|, 255)]
  }

  lemma ImageIsSafe()
    ensures AllSafe("image")
  {
    assert "image"[0] == 'i' && "image"[1] == 'm' && "image"[2] == 'a' && "image"[3] == 'g' && "image"[4] == 'e';
  }

  /** Every prefix of a collapsed name is made of safe characters. */
  lemma CollapsedSafe(stripped: string, collapsed: string, n: nat)
    requires collapsed == CollapseRuns(stripped, IsUnsafe, '_', false) && n <= |collapsed|
    ensures AllSafe(collapsed[..n])
  {
    forall i | 0 <= i < n
      ensures IsSafe(collapsed[..n][i])
    {
      assert collapsed[..n][i] == collapsed[i];
    }
  }

  lemma SanitizeSafeInput(candidate: string, stripped: string, collapsed: string)
    requires stripped == Strip(candidate)
    requires collapsed == CollapseRuns(stripped, IsUnsafe, '_', false)
    ensures AllSafe(candidate) ==> collapsed == candidate
  {
    if AllSafe(candidate) {
      if candidate != [] {
        SafeIsNotSpace(candidate[0]);
        SafeIsNotSpace(candidate[|candidate| - 1]);
      }
      var left := TrimLeft(candidate, IsSpace);
      assert left == candidate;
      assert stripped == TrimRight(left, IsSpace);
      assert stripped == candidate;
      assert forall i :: 0 <= i < |stripped| ==> !IsUnsafe(stripped[i]);
    }
  }

  lemma SafeIsNotSpace(c: char)
    requires IsSafe(c)
    ensures !IsSpace(c)
  {
  }

  /** Sanitising a sanitised name changes nothing. */
  lemma SanitizeIdempotent(candidate: string)
    ensures Sanitize(Sanitize(candidate)) == Sanitize(candidate)
  {
  }

  // ---------------------------------------------------------------------------
  // slugify
  // ---------------------------------------------------------------------------

  /** The characters `[\w\s-]` that survive the first substitution. */
  predicate IsSlugKept(c: char) { IsWordChar(c) || IsSpace(c) || c == '-' }

  /** The class `[\s-]` whose runs become a single `-`. */
  predicate IsDashOrSpace(c: char) { IsSpace(c) || c == '-' }

  /** The characters a slug is made of. */
  predicate IsSlugChar(c: char) { IsLower(c) || IsDigit(c) || c == '_' || c == '-' }

  /** A well-formed slug: non-empty, slug characters only, no `-` at either end, no `--`. */
  predicate IsSlug(s: string)
  {
    && s != []
    && (forall i :: 0 <= i < |s| ==> IsSlugChar(s[i]))
    && s[0] != '-' && s[|s| - 1] != '-'
    && NoDoubled(s, '-')
  }

  predicate IsDash(c: char) { c == '-' }

  /**
    `slugify`: lower-case, drop other characters, one `-` per run of blanks and dashes.
    The word characters of the slug are those of the lower-cased input, in order, and
    `query` stands in when the input has none.
  */
  function Slugify(value: string): (r: string)
    ensures IsSlug(r)
    ensures Filter(Lower(value), IsWordChar) == [] ==> r == "query"
    ensures Filter(Lower(value), IsWordChar) != [] ==> Filter(r, IsWordChar) == Filter(Lower(value), IsWordChar)
  {
    var lowered := Lower(value);
    var kept := Filter(lowered, IsSlugKept);
    var dashed := CollapseRuns(kept, IsDashOrSpace, '-', false);
    var left := TrimLeft(dashed, IsDash);
    var trimmed := TrimRight(left, IsDash);
    SlugChars(lowered, kept, dashed);
    TrimmedSlug(dashed, left, trimmed);
    SlugWords(lowered, kept, dashed, left, trimmed);
    if trimmed == [] then
      QueryIsSlug();
      "query"
    else trimmed
  }

  /** The stages of `slugify` keep exactly the word characters of the lower-cased input. */
  lemma SlugWords(lowered: string, kept: string, dashed: string, left: string, trimmed: string)
    requires kept == Filter(lowered, IsSlugKept)
    requires dashed == CollapseRuns(kept, IsDashOrSpace, '-', false)
    requires left == TrimLeft(dashed, IsDash) && trimmed == TrimRight(left, IsDash)
    ensures Filter(trimmed, IsWordChar) == Filter(lowered, IsWordChar)
    ensures trimmed == [] <==> Filter(lowered, IsWordChar) == []
  {
    FilterFilter(lowered, IsSlugKept, IsWordChar);
    CollapseStageWords(kept, dashed);
    TrimStageWords(dashed, left, trimmed);
    if trimmed != [] {
      SlugStartsWithWord(kept, dashed, left, trimmed);
    }
  }

  /** Collapsing blanks and dashes keeps the word characters. */
  lemma CollapseStageWords(kept: string, dashed: string)
    requires dashed == CollapseRuns(kept, IsDashOrSpace, '-', false)
    ensures Filter(dashed, IsWordChar) == Filter(kept, IsWordChar)
  {
    BlanksAreNotWords(kept);
    CollapseFilter(kept, IsDashOrSpace, '-', false, IsWordChar);
  }

  /** Trimming dashes keeps the word characters. */
  lemma TrimStageWords(dashed: string, left: string, trimmed: string)
    requires left == TrimLeft(dashed, IsDash) && trimmed == TrimRight(left, IsDash)
    ensures Filter(trimmed, IsWordChar) == Filter(dashed, IsWordChar)
  {
    DashesAreNotWords(dashed);
    TrimLeftFilter(dashed, IsDash, IsWordChar);
    DashesAreNotWords(left);
    TrimRightFilter(left, IsDash, IsWordChar);
  }

  /** What is left after the trims starts with a word character, so it has one. */
  lemma SlugStartsWithWord(kept: string, dashed: string, left: string, trimmed: string)
    requires forall i :: 0 <= i < |kept| ==> IsSlugKept(kept[i])
    requires forall i :: 0 <= i < |dashed| ==> dashed[i] == '-' || (!IsDashOrSpace(dashed[i]) && dashed[i] in kept)
    requires left == TrimLeft(dashed, IsDash) && trimmed == TrimRight(left, IsDash) && trimmed != []
    ensures Filter(trimmed, IsWordChar) != []
  {
    var c := trimmed[0];
    assert c == left[0] == dashed[|dashed| - |left|];
    assert IsWordChar(c);
    assert trimmed == [c] + trimmed[1..];
    FilterAppend([c], trimmed[1..], IsWordChar);
    assert [c][1..] == [];
  }

  lemma BlanksAreNotWords(s: string)
    ensures forall i :: 0 <= i < |s| && IsDashOrSpace(s[i]) ==> !IsWordChar(s[i])
  {
  }

  lemma DashesAreNotWords(s: string)
    ensures forall i :: 0 <= i < |s| && IsDash(s[i]) ==> !IsWordChar(s[i])
  {
  }

  lemma QueryIsSlug()
    ensures IsSlug("query")
  {
    assert "query"[0] == 'q' && "query"[1] == 'u' && "query"[2] == 'e' && "query"[3] == 'r' && "query"[4] == 'y';
  }

  /** Trimming dashes off dash-collapsed slug characters leaves a slug, or nothing. */
  lemma TrimmedSlug(dashed: string, left: string, trimmed: string)
    requires forall i :: 0 <= i < |dashed| ==> IsSlugChar(dashed[i])
    requires NoDoubled(dashed, '-')
    requires left == TrimLeft(dashed, IsDash) && trimmed == TrimRight(left, IsDash)
    ensures trimmed == [] || IsSlug(trimmed)
  {
    var a := |dashed| - |left|;
    assert trimmed == dashed[a..a + |trimmed|];
    forall i, j | 0 <= i < j < |trimmed| && j == i + 1 ensures !(trimmed[i] == '-' && trimmed[j] == '-') {
      assert trimmed[i] == dashed[a + i] && trimmed[j] == dashed[a + j];
    }
    if trimmed != [] {
      assert trimmed[0] == left[0];
    }
  }

  /** Every character that reaches the dash-collapsing stage is a lower-case slug character. */
  lemma SlugChars(lowered: string, kept: string, dashed: string)
    requires lowered == Lower(lowered)
    requires forall i :: 0 <= i < |kept| ==> IsSlugKept(kept[i]) && kept[i] in lowered
    requires forall i :: 0 <= i < |dashed| ==> dashed[i] == '-' || (!IsDashOrSpace(dashed[i]) && dashed[i] in kept)
    ensures forall i :: 0 <= i < |dashed| ==> IsSlugChar(dashed[i])
  {
    forall i | 0 <= i < |dashed| ensures IsSlugChar(dashed[i]) {
      if dashed[i] != '-' {
        var k :| 0 <= k < |kept| && kept[k] == dashed[i];
        var j :| 0 <= j < |lowered| && lowered[j] == kept[k];
        assert lowered[j] == LowerChar(lowered[j]) by { assert Lower(lowered)[j] == LowerChar(lowered[j]); }
      }
    }
  }

  /** Lower-casing text without upper-case letters changes nothing. */
  lemma LowerIdentity(s: string)
    requires forall i :: 0 <= i < |s| ==> !IsUpper(s[i])
    ensures Lower(s) == s
  {
    assert forall i :: 0 <= i < |s| ==> Lower(s)[i] == s[i];
  }

  /** A slug is its own slug. */
  lemma SlugIsFixedPoint(s: string)
    requires IsSlug(s)
    ensures Slugify(s) == s
  {
    SlugLowerKept(s);
    SlugCollapsed(s);
    assert TrimLeft(s, IsDash) == s && TrimRight(s, IsDash) == s;
  }

  /** A slug has no upper-case letters and only characters `slugify` keeps. */
  lemma SlugLowerKept(s: string)
    requires IsSlug(s)
    ensures Lower(s) == s && Filter(s, IsSlugKept) == s
  {
    assert forall i :: 0 <= i < |s| ==> !IsUpper(s[i]) && IsSlugKept(s[i]);
    LowerIdentity(s);
  }

  /** A slug has no blanks and no doubled dash, so collapsing leaves it alone. */
  lemma SlugCollapsed(s: string)
    requires IsSlug(s)
    ensures CollapseRuns(s, IsDashOrSpace, '-', false) == s
  {
    assert forall i :: 0 <= i < |s| ==> IsDashOrSpace(s[i]) ==> s[i] == '-';
    assert forall i, j :: 0 <= i < |s| && 0 <= j < |s| && j == i + 1 ==> !(IsDashOrSpace(s[i]) && IsDashOrSpace(s[j]));
    CollapseIdentity(s, IsDashOrSpace, '-', false);
  }

  /** `slugify` is idempotent. */
  lemma SlugifyIdempotent(value: string)
    ensures Slugify(Slugify(value)) == Slugify(value)
  {
    SlugIsFixedPoint(Slugify(value));
  }

  /** Collapsing runs that are already single copies of `r` changes nothing. */
  lemma {:induction false} CollapseIdentity(s: string, inClass: char -> bool, r: char, inRun: bool)
    requires forall i :: 0 <= i < |s| ==> inClass(s[i]) ==> s[i] == r
    requires forall i, j :: 0 <= i < j < |s| && j == i + 1 ==> !(inClass(s[i]) && inClass(s[j]))
    requires inRun ==> s == [] || !inClass(s[0])
    ensures CollapseRuns(s, inClass, r, inRun) == s
    decreases |s|
  {
    if s != [] {
      CollapseIdentity(s[1..], inClass, r, inClass(s[0]));
    }
  }

  // ---------------------------------------------------------------------------
  // best_extension
  // ---------------------------------------------------------------------------

  /** `ALLOWED_IMAGE_EXTENSIONS`. */
  const Allowed: set<string> := {".jpg", ".jpeg", ".png", ".gif", ".bmp", ".webp", ".tiff", ".tif"}

  /** The lower-cased extension of the path of `source`, when it has one. */
  function PathHint(source: string): (r: Option<string>)
    ensures r.Some? ==> r.value != [] && r.value[0] == '.'
  {
    if source == "" then None
    else
      var ext := SplitExt(UrlSplit(source).path);
      if ext == "" then None else Some(Lower(ext))
  }

  /** `content_type.split(";", 1)[0].strip()`. */
  function MediaType(contentType: string): string
  {
    var semi := FindChar(contentType, ';');
    Strip(if semi < 0 then contentType else contentType[..semi])
  }

  /** The lower-cased guess of `mimetypes.guess_extension` for the content type, if any. */
  function TypeHint(contentType: string, guess: string -> Option<string>): Option<string>
  {
    if contentType == "" then None
    else match guess(MediaType(contentType))
      case None => None
      case Some(g) => if g == "" then None else Some(Lower(g))
  }

  function OptionList(o: Option<string>): seq<string> { if o.Some? then [o.value] else [] }

  /** The hints in the order they are tried: name, URL path, content type. */
  function Hints(originalName: string, fallbackUrl: string, contentType: string,
                 guess: string -> Option<string>): seq<string>
  {
    OptionList(PathHint(originalName)) + OptionList(PathHint(fallbackUrl)) + OptionList(TypeHint(contentType, guess))
  }

  /** `.jpe` is read as `.jpg`. */
  function Normalize(ext: string): string { if ext == ".jpe" then ".jpg" else ext }

  /** The first hint that is allowed once normalised, or `.jpg`. */
  function FirstAllowed(hints: seq<string>): (r: string)
    ensures r in Allowed
    ensures (forall i :: 0 <= i < |hints| ==> Normalize(hints[i]) !in Allowed) ==> r == ".jpg"
    ensures forall i :: (0 <= i < |hints| && Normalize(hints[i]) in Allowed &&
              (forall j :: 0 <= j < i ==> Normalize(hints[j]) !in Allowed)) ==> r == Normalize(hints[i])
    decreases |hints|
  {
    if hints == [] then ".jpg"
    else if Normalize(hints[0]) in Allowed then Normalize(hints[0])
    else
      var r := FirstAllowed(hints[1..]);
      assert forall i :: 1 <= i < |hints| ==> hints[i] == hints[1..][i - 1];
      r
  }

  /** `best_extension`. */
  function BestExtension(originalName: string, fallbackUrl: string, contentType: string,
                         guess: string -> Option<string>): (r: string)
    ensures r in Allowed
  {
    FirstAllowed(Hints(originalName, fallbackUrl, contentType, guess))
  }

  predicate AllowedHint(o: Option<string>) { o.Some? && Normalize(o.value) in Allowed }

  /** The precedence of the hints: name, then URL path, then content type, then `.jpg`. */
  lemma BestExtensionPrecedence(originalName: string, fallbackUrl: string, contentType: string,
                                guess: string -> Option<string>)
    ensures var r := BestExtension(originalName, fallbackUrl, contentType, guess);
      var n := PathHint(originalName);
      var u := PathHint(fallbackUrl);
      var t := TypeHint(contentType, guess);
      && (AllowedHint(n) ==> r == Normalize(n.value))
      && (!AllowedHint(n) && AllowedHint(u) ==> r == Normalize(u.value))
      && (!AllowedHint(n) && !AllowedHint(u) && AllowedHint(t) ==> r == Normalize(t.value))
      && (!AllowedHint(n) && !AllowedHint(u) && !AllowedHint(t) ==> r == ".jpg")
  {
    FirstOfThree(PathHint(originalName), PathHint(fallbackUrl), TypeHint(contentType, guess));
  }

  lemma FirstOfThree(n: Option<string>, u: Option<string>, t: Option<string>)
    ensures var r := FirstAllowed(OptionList(n) + OptionList(u) + OptionList(t));
      && (AllowedHint(n) ==> r == Normalize(n.value))
      && (!AllowedHint(n) && AllowedHint(u) ==> r == Normalize(u.value))
      && (!AllowedHint(n) && !AllowedHint(u) && AllowedHint(t) ==> r == Normalize(t.value))
      && (!AllowedHint(n) && !AllowedHint(u) && !AllowedHint(t) ==> r == ".jpg")
  {
    var a, b, c := OptionList(n), OptionList(u), OptionList(t);
    var hints := a + b + c;
    if AllowedHint(n) {
      assert hints[0] == n.value;
    } else if AllowedHint(u) {
      assert hints[|a|] == u.value;
      assert forall j :: 0 <= j < |a| ==> hints[j] == a[j];
    } else if AllowedHint(t) {
      assert hints[|a| + |b|] == t.value;
      assert forall j :: 0 <= j < |a| + |b| ==> hints[j] == (a + b)[j];
    } else {
      assert forall j :: 0 <= j < |hints| ==> hints[j] in a || hints[j] in b || hints[j] in c;
    }
  }

  /** A path hint read from a bare word without a dot, colon or slash is absent. */
  lemma NoPathHint(word: string)
    requires word != []
    requires forall i :: 0 <= i < |word| ==> IsAsciiLetter(word[i])
    ensures PathHint(word) == None
  {
    assert Printable(word) by {
      forall i | 0 <= i < |word| ensures word[i] > ' ' { assert IsAsciiLetter(word[i]); }
    }
    assert ':' !in word && '/' !in word && '.' !in word && '?' !in word && '#' !in word by {
      forall i | 0 <= i < |word| ensures word[i] !in ":/.?#" { assert IsAsciiLetter(word[i]); }
    }
    UrlSplitPlain(word);
    SplitExtNoDot(word);
  }

  /**
    The documented example: a name without an extension, a URL whose path ends in
    `.PNG` and a JPEG content type give `.png`, the URL path hint coming first.
  */
  lemma BestExtensionExample(name: string, url: string, contentType: string, guess: string -> Option<string>)
    requires name == "photo" && url == "https://example.com/pic.PNG?x=1" && contentType == "image/jpeg"
    ensures BestExtension(name, url, contentType, guess) == ".png"
  {
    PhotoIsWord();
    NoPathHint(name);
    ExampleUrlHint(url, UrlSplit(url).path);
    FirstOfThree(None, Some(".png"), TypeHint(contentType, guess));
  }

  lemma PhotoIsWord()
    ensures "photo" != [] && forall i :: 0 <= i < |"photo"| ==> IsAsciiLetter("photo"[i])
  {
  }

  lemma ExampleUrlHint(url: string, path: string)
    requires url == "https://example.com/pic.PNG?x=1" && path == UrlSplit(url).path
    ensures PathHint(url) == Some(".png")
  {
    ExampleUrlSplit(url);
    ExampleExtension(path);
  }

  lemma ExampleExtension(path: string)
    requires path == "/pic.PNG"
    ensures Lower(SplitExt(path)) == ".png"
  {
    ExampleExtensionParts(path, "pic", "PNG");
  }

  lemma ExampleExtensionParts(path: string, stem: string, ext: string)
    requires path == "/pic.PNG" && stem == "pic" && ext == "PNG"
    ensures Lower(SplitExt(path)) == ".png"
  {
    assert path == "/" + stem + "." + ext;
    assert stem != [] && stem[0] != '.' && '/' !in stem && '.' !in ext && '/' !in ext;
    SplitExtSimple(stem, ext);
    LowerPng("." + ext);
  }

  lemma LowerPng(e: string)
    requires e == ".PNG"
    ensures Lower(e) == ".png"
  {
    assert Lower(e)[1] == LowerChar('P');
  }

  lemma ExampleUrlSplit(url: string)
    requires url == "https://example.com/pic.PNG?x=1"
    ensures UrlSplit(url).path == "/pic.PNG"
  {
    ExampleUrlParts();
    UrlSplitShape("https", "example.com", "/pic.PNG", "x=1");
  }

  lemma ExampleUrlParts()
    ensures AllSchemeChars("https") && IsAsciiLetter("https"[0])
    ensures forall i :: 0 <= i < |"example.com"| ==> !IsNetlocEnd("example.com"[i])
    ensures forall i :: 0 <= i < |"/pic.PNG"| ==> !IsPathEnd("/pic.PNG"[i])
    ensures Printable("example.com") && Printable("/pic.PNG") && Printable("x=1")
    ensures "https" + "://" + "example.com" + "/pic.PNG" + "?" + "x=1" == "https://example.com/pic.PNG?x=1"
  {
  }

  // ---------------------------------------------------------------------------
  // Generated names
  // ---------------------------------------------------------------------------

  /**
    The file name before collision avoidance: the sanitised original name (given the
    suggested suffix when it has no extension) if names are kept and it is at least
    `minLength` long, else `<prefix>_<index:04d><suffix>`.
  */
  function ChooseName(keepFilenames: bool, originalName: string, minLength: nat,
                      suffix: string, prefix: string, index: nat): (r: string)
    ensures keepFilenames && |originalName| >= minLength && originalName != "" ==>
              (SplitExt(originalName) == "" ==> r == originalName + suffix) &&
              (SplitExt(originalName) != "" ==> r == originalName)
    ensures !(keepFilenames && |originalName| >= minLength && originalName != "") ==>
              r == GeneratedName(prefix, index, suffix)
  {
    if keepFilenames && originalName != "" && |originalName| >= minLength then
      (if SplitExt(originalName) == "" then originalName + suffix else originalName)
    else GeneratedName(prefix, index, suffix)
  }

  function GeneratedName(prefix: string, index: nat, suffix: string): string
  {
    prefix + "_" + ZeroPad4(index) + suffix
  }

  /** A generated name is the prefix and `_`, at least four digits, then the suffix. */
  lemma GeneratedNameShape(prefix: string, index: nat, suffix: string)
    ensures StartsWith(GeneratedName(prefix, index, suffix), prefix + "_")
    ensures EndsWith(GeneratedName(prefix, index, suffix), suffix)
    ensures |GeneratedName(prefix, index, suffix)| >= |prefix| + 5 + |suffix|
  {
  }

  /** Different indices give different generated names. */
  lemma GeneratedNameInjective(prefix: string, i: nat, j: nat, suffix: string)
    requires GeneratedName(prefix, i, suffix) == GeneratedName(prefix, j, suffix)
    ensures i == j
  {
    var a, b := ZeroPad4(i), ZeroPad4(j);
    var n := |prefix| + 1;
    assert |a| == |b|;
    assert GeneratedName(prefix, i, suffix)[n..n + |a|] == a;
    assert GeneratedName(prefix, j, suffix)[n..n + |b|] == b;
  }

  // ---------------------------------------------------------------------------
  // Collision avoidance
  // ---------------------------------------------------------------------------

  /** The next candidate: `<stem>_<k><suffix>` of the current candidate. */
  function Bumped(name: string, k: nat): (r: string)
    ensures |r| > |name|
  {
    PathStem(name) + "_" + NatToString(k) + PathSuffix(name)
  }

  /** The existing names at least as long as `name`; they shrink as the candidate grows. */
  ghost function NotShorter(existing: set<string>, name: string): set<string>
  {
    set x | x in existing && |x| >= |name|
  }

  /**
    The name the collision loop settles on: the candidate itself when it is free, else
    the same search from the candidate bumped with counter `k`.
  */
  function Probe(existing: set<string>, name: string, k: nat): (r: string)
    ensures r !in existing
    ensures name !in existing ==> r == name
    ensures |r| >= |name|
    decreases NotShorter(existing, name)
  {
    if name !in existing then name
    else
      var next := Bumped(name, k);
      assert name in NotShorter(existing, name) && name !in NotShorter(existing, next);
      Probe(existing, next, k + 1)
  }

  /** The collision loop itself. */
  method FreeName(existing: set<string>, filename: string) returns (name: string)
    ensures name == Probe(existing, filename, 1)
    ensures name !in existing
    ensures filename !in existing ==> name == filename
  {
    name := filename;
    var duplicateIndex := 1;
    while name in existing
      invariant Probe(existing, name, duplicateIndex) == Probe(existing, filename, 1)
      decreases NotShorter(existing, name)
    {
      var next := Bumped(name, duplicateIndex);
      assert name in NotShorter(existing, name) && name !in NotShorter(existing, next);
      name := next;
      duplicateIndex := duplicateIndex + 1;
    }
  }

  /** The stem and suffix of `stem.ext`. */
  lemma StemAndSuffix(stem: string, ext: string)
    requires stem != [] && ext != [] && '.' !in ext
    ensures PathSuffix(stem + "." + ext) == "." + ext
    ensures PathStem(stem + "." + ext) == stem
  {
    var name := stem + "." + ext;
    assert name == stem + ['.'] + ext;
    RFindCharAt(stem, '.', ext);
    SuffixAt(name, |stem|);
    assert name[|stem|..] == "." + ext;
    assert name[..|stem|] == stem;
  }

  /** The first collision on `stem.ext` gives `stem_1.ext`. */
  lemma FirstCollision(existing: set<string>, stem: string, ext: string)
    requires stem != [] && ext != [] && '.' !in ext
    requires stem + "." + ext in existing && stem + "_1." + ext !in existing
    ensures Probe(existing, stem + "." + ext, 1) == stem + "_1." + ext
  {
    FirstBump(stem, ext);
  }

  /**
    Suffixes accumulate: with `stem.ext` and `stem_1.ext` taken, `stem.ext` becomes
    `stem_1_2.ext`, because each bump is applied to the previous candidate.
  */
  lemma CollisionSuffixesAccumulate(existing: set<string>, stem: string, ext: string)
    requires stem != [] && ext != [] && '.' !in ext
    requires existing == {stem + "." + ext, stem + "_1." + ext}
    ensures Probe(existing, stem + "." + ext, 1) == stem + "_1_2." + ext
  {
    var n0, n1, n2 := stem + "." + ext, stem + "_1." + ext, stem + "_1_2." + ext;
    FirstBump(stem, ext);
    SecondBump(stem, ext);
    assert |n2| > |n1| > |n0|;
    assert n2 !in existing;
    assert Probe(existing, n2, 3) == n2;
    assert n1 in existing;
    assert Probe(existing, n1, 2) == Probe(existing, n2, 3);
    assert n0 in existing;
    assert Probe(existing, n0, 1) == Probe(existing, n1, 2);
  }

  lemma BumpedOnce(stem: string, ext: string, k: nat, digits: string)
    requires stem != [] && ext != [] && '.' !in ext && digits == NatToString(k)
    ensures Bumped(stem + "." + ext, k) == stem + "_" + digits + "." + ext
  {
    StemAndSuffix(stem, ext);
  }

  lemma SmallNumbers()
    ensures NatToString(1) == "1" && NatToString(2) == "2"
  {
  }

  lemma FirstBump(stem: string, ext: string)
    requires stem != [] && ext != [] && '.' !in ext
    ensures Bumped(stem + "." + ext, 1) == stem + "_1." + ext
  {
    SmallNumbers();
    BumpedOnce(stem, ext, 1, "1");
    assert stem + "_" + "1" + "." == stem + "_1.";
  }

  lemma SecondBump(stem: string, ext: string)
    requires stem != [] && ext != [] && '.' !in ext
    ensures Bumped(stem + "_1." + ext, 2) == stem + "_1_2." + ext
  {
    var s1 := stem + "_1";
    SmallNumbers();
    BumpedOnce(s1, ext, 2, "2");
    SecondBumpNames(stem, s1, ext);
  }

  lemma SecondBumpNames(stem: string, s1: string, ext: string)
    requires s1 == stem + "_1"
    ensures s1 + "." + ext == stem + "_1." + ext
    ensures s1 + "_" + "2" + "." + ext == stem + "_1_2." + ext
  {
    assert s1 + "." == stem + "_1.";
    assert s1 + "_" + "2" + "." == stem + "_1_2.";
  }

  // ---------------------------------------------------------------------------
  // The .webp -> .jpg target
  // ---------------------------------------------------------------------------

  /** `<stem>_<k>.jpg`. */
  function Numbered(stem: string, k: nat): string { stem + "_" + NatToString(k) + ".jpg" }

  lemma NumberedInjective(stem: string, j: nat, k: nat)
    requires Numbered(stem, j) == Numbered(stem, k)
    ensures j == k
  {
    var a, b := NatToString(j), NatToString(k);
    var n := |stem| + 1;
    assert |a| == |b|;
    assert Numbered(stem, j)[n..n + |a|] == a;
    assert Numbered(stem, k)[n..n + |b|] == b;
    NatToStringInjective(j, k);
  }

  /** The existing names `<stem>_<j>.jpg` with `j >= from`. */
  ghost function NumberedFrom(existing: set<string>, stem: string, from: nat): set<string>
  {
    set x | x in existing && exists j: nat :: j >= from && x == Numbered(stem, j)
  }

  lemma NumberedFromShrinks(existing: set<string>, stem: string, from: nat)
    ensures NumberedFrom(existing, stem, from + 1) <= NumberedFrom(existing, stem, from)
    ensures Numbered(stem, from) in existing ==>
              NumberedFrom(existing, stem, from + 1) < NumberedFrom(existing, stem, from)
  {
    if Numbered(stem, from) in existing {
      assert Numbered(stem, from) in NumberedFrom(existing, stem, from);
      if Numbered(stem, from) in NumberedFrom(existing, stem, from + 1) {
        var j: nat :| j >= from + 1 && Numbered(stem, from) == Numbered(stem, j);
        NumberedInjective(stem, from, j);
      }
    }
  }

  /** The first `<stem>_<k>.jpg` with `k >= from` that does not exist. */
  function FreeNumbered(existing: set<string>, stem: string, from: nat): (r: string)
    ensures r !in existing
    ensures exists k: nat :: k >= from && r == Numbered(stem, k)
              && forall j :: from <= j < k ==> Numbered(stem, j) in existing
    decreases NumberedFrom(existing, stem, from)
  {
    if Numbered(stem, from) !in existing then
      Numbered(stem, from)
    else
      NumberedFromShrinks(existing, stem, from);
      FreeNumbered(existing, stem, from + 1)
  }

  /**
    The name a converted `.webp` file gets: `<stem>.jpg` when free, else the first free
    `<stem>_<k>.jpg` with a fresh counter from 1 on the original stem.
  */
  function WebpTarget(existing: set<string>, name: string): (r: string)
    ensures r !in existing
    ensures EndsWith(r, ".jpg")
  {
    var first := WithSuffix(name, ".jpg");
    if first !in existing then first else FreeNumbered(existing, PathStem(name), 1)
  }

  /** `while target_path.exists()` in the conversion. */
  method FindWebpTarget(existing: set<string>, name: string) returns (target: string)
    ensures target == WebpTarget(existing, name)
  {
    var stem := PathStem(name);
    target := WithSuffix(name, ".jpg");
    var counter: nat := 1;
    while target in existing
      invariant counter >= 1
      invariant counter == 1 ==> target == WithSuffix(name, ".jpg")
      invariant counter > 1 ==> target == Numbered(stem, counter - 1)
      invariant counter > 1 ==> WithSuffix(name, ".jpg") in existing
      invariant counter > 1 ==> FreeNumbered(existing, stem, counter - 1) == WebpTarget(existing, name)
      decreases NumberedFrom(existing, stem, counter - 1), if counter == 1 then 1 else 0
    {
      NumberedFromShrinks(existing, stem, counter - 1);
      target := Numbered(stem, counter);
      counter := counter + 1;
    }
  }

  /**
    The conversion counts afresh on the original stem: with `stem.jpg` and `stem_1.jpg`
    taken, the target is `stem_2.jpg`.
  */
  lemma WebpTargetFreshCounter(existing: set<string>, stem: string, ext: string)
    requires stem != [] && ext != [] && '.' !in ext
    requires stem + ".jpg" in existing && stem + "_1.jpg" in existing && stem + "_2.jpg" !in existing
    ensures WebpTarget(existing, stem + "." + ext) == stem + "_2.jpg"
  {
    StemAndSuffix(stem, ext);
    NumberedSmall(stem);
    assert WithSuffix(stem + "." + ext, ".jpg") == stem + ".jpg";
    FreeNumberedNext(existing, stem, 1);
    FreeNumberedHere(existing, stem, 2);
  }

  lemma NumberedSmall(stem: string)
    ensures Numbered(stem, 1) == stem + "_1.jpg" && Numbered(stem, 2) == stem + "_2.jpg"
  {
    SmallNumbers();
    assert stem + "_" + "1" + ".jpg" == stem + "_1.jpg";
    assert stem + "_" + "2" + ".jpg" == stem + "_2.jpg";
  }

  lemma FreeNumberedHere(existing: set<string>, stem: string, k: nat)
    requires Numbered(stem, k) !in existing
    ensures FreeNumbered(existing, stem, k) == Numbered(stem, k)
  {
  }

  lemma FreeNumberedNext(existing: set<string>, stem: string, k: nat)
    requires Numbered(stem, k) in existing
    ensures FreeNumbered(existing, stem, k) == FreeNumbered(existing, stem, k + 1)
  {
  }

  /** What the conversion step can report. */
  datatype Conversion = Converts | DecodeFails(cause: string) | PillowMissing

  datatype Converted = Converted(dir: set<string>, path: string, error: Option<string>)

  const PillowMessage := "Pillow is required to convert .webp images. Install it with 'pip install Pillow'."

  /**
    `maybe_convert_webp_to_jpg` on the directory: a file whose suffix is `.webp` in any
    case is replaced by its `.jpg` target; any other file is left alone.
  */
  function ConvertWebp(dir: set<string>, name: string, how: Conversion): (r: Converted)
    ensures Lower(PathSuffix(name)) != ".webp" ==> r == Converted(dir, name, None)
    ensures r.error.Some? ==> r.dir == dir && r.path == name
    ensures r.path != name ==> r.path !in dir && r.dir == (dir - {name}) + {r.path} && EndsWith(r.path, ".jpg")
    ensures r.error.None? && Lower(PathSuffix(name)) == ".webp" ==> r.path != name
  {
    if Lower(PathSuffix(name)) != ".webp" then Converted(dir, name, None)
    else match how
      case PillowMissing => Converted(dir, name, Some(PillowMessage))
      case DecodeFails(cause) =>
        Converted(dir, name, Some("Failed to convert " + name + " from .webp to .jpg: " + cause))
      case Converts =>
        var target := WebpTarget(dir, name);
        assert target != name;
        Converted((dir - {name}) + {target}, target, None)
  }
}
