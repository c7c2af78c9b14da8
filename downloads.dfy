/**
  One item of the three download loops, as a step on the run's bookkeeping: the
  directory's file names, the ledger lines appended to `_downloaded_urls.txt`, the
  `seen_urls` set, the `saved`/`skipped` counters and the `errors` list.

  The network, the file system and the imaging library are replaced by an `Outcome`
  per item: whether the fetch succeeds (and with which `Content-Type`), whether the
  base64 payload decodes, whether the file can be opened and written, whether the
  `.webp` decoder fails, and whether the ledger append succeeds.
*/
module Downloads {
  import opened Wrappers
  import opened Strings
  import opened Paths
  import opened Naming

  const ManifestName := "_downloaded_urls.txt"

  /** `compress_image` raises only when Pillow cannot be imported. */
  const CompressMessage := "Pillow is required for image compression. Install it with 'pip install Pillow'."

  /** The `ValueError` of unpacking `url.split("base64,", 1)` when there is no `base64,`. */
  const UnpackMessage := "not enough values to unpack (expected 2, got 1)"

  datatype Store = Store(dir: set<string>, ledger: seq<string>, seen: set<string>,
                         saved: nat, skipped: nat, errors: seq<string>)

  /** The options every loop reads, and whether the imaging library can be imported. */
  datatype Settings = Settings(keepFilenames: bool, convertWebp: bool, quality: int,
                               resizeWidth: int, resizeHeight: int, pillow: bool,
                               guess: string -> Option<string>)

  datatype Fetch = FetchFails(cause: string) | Fetched(contentType: string)
  datatype Write = Written | OpenFails(cause: string) | WriteFails(cause: string)

  datatype Outcome = Outcome(fetch: Fetch, decodeError: Option<string>, write: Write,
                             convertFailure: Option<string>, ledgerOk: bool)

  predicate CompressionRequested(st: Settings) { st.quality > 0 || st.resizeWidth > 0 || st.resizeHeight > 0 }

  /** Post-processing raises: compression was asked for and Pillow is missing. */
  predicate CompressFault(st: Settings) { CompressionRequested(st) && !st.pillow }

  function HowConvert(st: Settings, o: Outcome): Conversion
  {
    if !st.pillow then PillowMissing
    else if o.convertFailure.Some? then DecodeFails(o.convertFailure.value)
    else Converts
  }

  function WriteCause(w: Write): string
  {
    match w
    case Written => ""
    case OpenFails(c) => c
    case WriteFails(c) => c
  }

  // ---------------------------------------------------------------------------
  // The ledger
  // ---------------------------------------------------------------------------

  /** The line boundaries of `str.splitlines`. */
  predicate IsLineBreak(c: char)
  {
    c == '\n' || c == '\r' || c == '\U{0b}' || c == '\U{0c}' || ('\U{1c}' <= c <= '\U{1e}')
    || c == '\U{85}' || c == '\U{2028}' || c == '\U{2029}'
  }

  predicate NotLineBreak(c: char) { !IsLineBreak(c) }

  /** `str.splitlines()`: the text between boundaries, `\r\n` counting as one, no empty last line. */
  function SplitLines(text: string): (r: seq<string>)
    ensures forall i, j :: 0 <= i < |r| && 0 <= j < |r[i]| ==> !IsLineBreak(r[i][j])
    decreases |text|
  {
    if text == [] then []
    else
      var n := LeadingCount(text, NotLineBreak);
      if n == |text| then [text]
      else
        var skip := if text[n] == '\r' && n + 1 < |text| && text[n + 1] == '\n' then 2 else 1;
        [text[..n]] + SplitLines(text[n + skip..])
  }

  /** The ledger file holding `lines`, each written as `line + "\n"`. */
  function LedgerText(lines: seq<string>): string
    decreases |lines|
  {
    if lines == [] then "" else lines[0] + "\n" + LedgerText(lines[1..])
  }

  /** A line without boundaries, written with its newline, is read back first. */
  lemma LineThenRest(line: string, rest: string)
    requires forall j :: 0 <= j < |line| ==> !IsLineBreak(line[j])
    ensures SplitLines(line + "\n" + rest) == [line] + SplitLines(rest)
  {
    var text := line + "\n" + rest;
    var n := LeadingCount(text, NotLineBreak);
    assert text[|line|] == '\n';
    assert forall j :: 0 <= j < |line| ==> text[j] == line[j];
    assert n == |line|;
    assert text[..n] == line && text[n + 1..] == rest;
  }

  /** Every line without a boundary is read back from the ledger file exactly as written. */
  lemma {:induction false} LedgerTextRoundTrip(lines: seq<string>)
    requires forall i, j :: 0 <= i < |lines| && 0 <= j < |lines[i]| ==> !IsLineBreak(lines[i][j])
    ensures SplitLines(LedgerText(lines)) == lines
    decreases |lines|
  {
    if lines != [] {
      LineThenRest(lines[0], LedgerText(lines[1..]));
      LedgerTextRoundTrip(lines[1..]);
    }
  }

  /** `set(u.strip() for u in lines if u.strip())`. */
  function LoadLedger(lines: seq<string>): (r: set<string>)
    ensures forall l :: l in lines && Strip(l) != "" ==> Strip(l) in r
    ensures forall u :: u in r ==> u != "" && exists l :: l in lines && Strip(l) == u
    decreases |lines|
  {
    if lines == [] then {}
    else
      var init, last := lines[..|lines| - 1], lines[|lines| - 1];
      assert lines == init + [last];
      LoadLedger(init) + (if Strip(last) != "" then {Strip(last)} else {})
  }

  /** The ledger line of a data URI: `url[:50] + "..."`. */
  function Truncated(url: string): string
  {
    url[..Min(50, |url|)] + "..."
  }

  /** The truncated line equals the URL only for a 53-character URL ending in `...`. */
  lemma TruncatedIsUrl(url: string)
    ensures Truncated(url) == url <==> |url| == 53 && url[50..] == "..."
  {
    if |url| <= 50 {
      assert |Truncated(url)| == |url| + 3;
    } else if |url| == 53 && url[50..] == "..." {
      assert url == url[..50] + url[50..];
    } else {
      assert Truncated(url)[50..] == "...";
    }
  }

  /**
    Reading back the line written for a data URI recovers the URL only in the rare case
    above, so a data URI saved by one run is downloaded again by the next.
  */
  lemma DataUriNotReloaded(url: string)
    requires url != [] && !IsSpace(url[0])
    ensures url in LoadLedger([Truncated(url)]) <==> |url| == 53 && url[50..] == "..."
  {
    var line := Truncated(url);
    assert line[0] == url[0];
    assert line[|line| - 1] == '.';
    StripUnpadded(line);
    LedgerOfOne(line);
    TruncatedIsUrl(url);
  }

  /** The line written for an ordinary URL, one without a line boundary, reads back as that URL. */
  lemma UrlReloaded(url: string)
    requires url != [] && !IsSpace(url[0]) && !IsSpace(url[|url| - 1])
    requires forall j :: 0 <= j < |url| ==> !IsLineBreak(url[j])
    ensures LoadLedger(SplitLines(LedgerText([url]))) == {url}
  {
    assert LedgerText([url]) == url + "\n" + LedgerText([]);
    LineThenRest(url, "");
    StripUnpadded(url);
    LedgerOfOne(url);
  }

  /** A URL holding a line boundary is split on reading back, so a later run does not see it. */
  lemma BrokenUrlNotReloaded(url: string, k: nat)
    requires k < |url| && IsLineBreak(url[k])
    ensures url !in LoadLedger(SplitLines(LedgerText([url])))
  {
    var lines := SplitLines(LedgerText([url]));
    forall i | 0 <= i < |lines| ensures Strip(lines[i]) != url {
      assert url[k] !in lines[i] by {
        forall j | 0 <= j < |lines[i]| ensures lines[i][j] != url[k] { assert !IsLineBreak(lines[i][j]); }
      }
      NotInStrip(lines[i], url[k]);
    }
  }

  /** Lines that are already stripped and non-blank are reloaded as they are. */
  lemma LedgerOfStripped(lines: seq<string>)
    requires forall i :: 0 <= i < |lines| ==> lines[i] != "" && Strip(lines[i]) == lines[i]
    ensures LoadLedger(lines) == set u | u in lines
  {
    var r := LoadLedger(lines);
    forall u | u in r ensures u in lines {
      var l :| l in lines && Strip(l) == u;
      var i :| 0 <= i < |lines| && lines[i] == l;
      assert Strip(lines[i]) == lines[i];
    }
    forall i | 0 <= i < |lines| ensures lines[i] in r {
      assert lines[i] in lines && Strip(lines[i]) != "";
    }
  }

  lemma LedgerOfOne(line: string)
    ensures LoadLedger([line]) == (if Strip(line) != "" then {Strip(line)} else {})
  {
    assert [line][..0] == [];
  }

  // ---------------------------------------------------------------------------
  // Shared bookkeeping
  // ---------------------------------------------------------------------------

  function Skip(s: Store): Store { s.(skipped := s.skipped + 1) }

  function Fail(s: Store, message: string): Store
  {
    s.(skipped := s.skipped + 1, errors := s.errors + [message])
  }

  /** The ledger append and `seen_urls.add`, both skipped when the append raises. */
  function Record(s: Store, line: string, url: string, ok: bool): Store
  {
    if ok then s.(ledger := s.ledger + [line], seen := s.seen + {url}, dir := s.dir + {ManifestName})
    else s
  }

  /** The error entry of a failed conversion, if any. */
  function ConversionErrors(url: string, c: Converted): seq<string>
  {
    if c.error.Some? then [url + " (" + c.error.value + ")"] else []
  }

  /** The original name the search engines pass on: sanitised when non-empty. */
  function SearchName(name: string): string
  {
    if name != "" then Sanitize(name) else ""
  }

  /** The outcome of a download that leaves the URL recorded. */
  predicate CleanSave(st: Settings, o: Outcome)
  {
    o.fetch.Fetched? && o.write.Written? && !CompressFault(st) && o.ledgerOk
  }

  // ---------------------------------------------------------------------------
  // Bing `download_images` and the http half of Google's `save_found_image`
  // ---------------------------------------------------------------------------

  /** The file name the search engines write to before any conversion. */
  function SearchTarget(s: Store, st: Settings, prefix: string, index: nat, url: string,
                        name: string, contentType: string): (r: string)
    ensures r !in s.dir
  {
    var original := SearchName(name);
    var suffix := BestExtension(original, url, contentType, st.guess);
    Probe(s.dir, ChooseName(st.keepFilenames, original, 1, suffix, prefix, index), 1)
  }

  /** The file just written to the fresh name `target`, converted when asked to. */
  function SearchConverted(s: Store, st: Settings, url: string, target: string, o: Outcome): (r: Store)
    requires target !in s.dir
    ensures r.saved == s.saved + 1 && r.skipped == s.skipped && r.ledger == s.ledger && r.seen == s.seen
    ensures s.dir < r.dir
    ensures !st.pillow ==> r.dir == s.dir + {target}
  {
    var written := s.(dir := s.dir + {target}, saved := s.saved + 1);
    var conv := if st.convertWebp then ConvertWebp(written.dir, target, HowConvert(st, o))
                else Converted(written.dir, target, None);
    written.(dir := conv.dir, errors := written.errors + ConversionErrors(url, conv))
  }

  /** Convert, compress and record a file just written to the fresh name `target`. */
  function SearchAfterWrite(s: Store, st: Settings, url: string, target: string, o: Outcome): (r: Store)
    requires target !in s.dir
    ensures r.saved == s.saved + 1
    ensures r.skipped == s.skipped + (if CompressFault(st) then 1 else 0)
    ensures r.ledger == s.ledger || r.ledger == s.ledger + [url]
    ensures r.ledger != s.ledger <==> !CompressFault(st) && o.ledgerOk
    ensures s.seen <= r.seen <= s.seen + {url}
    ensures !CompressFault(st) && o.ledgerOk ==> url in r.seen
    ensures CompressFault(st) ==> r.dir == s.dir
    ensures !CompressFault(st) ==> s.dir < r.dir
  {
    var converted := SearchConverted(s, st, url, target, o);
    if CompressFault(st) then
      Fail(converted.(dir := converted.dir - {target}), url + " (" + CompressMessage + ")")
    else Record(converted, url, url, o.ledgerOk)
  }

  /**
    Fetch, name, write, convert, compress and record one URL that is not in the ledger.
    `saved` is counted as soon as the file is written, so a compression failure
    afterwards counts the item as skipped as well.
  */
  function SearchFetch(s: Store, st: Settings, prefix: string, index: nat, url: string,
                       name: string, o: Outcome): (r: Store)
    ensures r.saved + r.skipped == s.saved + s.skipped + 1 ||
            (CompressFault(st) && r.saved + r.skipped == s.saved + s.skipped + 2)
    ensures r.saved == s.saved + 1 <==> o.fetch.Fetched? && o.write.Written?
    ensures s.saved <= r.saved <= s.saved + 1
    ensures r.ledger == s.ledger || r.ledger == s.ledger + [url]
    ensures r.ledger != s.ledger <==> CleanSave(st, o)
    ensures s.seen <= r.seen <= s.seen + {url}
    ensures CleanSave(st, o) ==> url in r.seen
    ensures o.fetch.FetchFails? ==> r == Fail(s, url + " (" + o.fetch.cause + ")")
    ensures o.fetch.Fetched? && !o.write.Written? ==>
              r == Fail(s, url + " (" + WriteCause(o.write) + ")")
    ensures o.fetch.Fetched? && o.write.Written? && !CompressFault(st) ==> s.dir < r.dir
    ensures !(o.fetch.Fetched? && o.write.Written? && !CompressFault(st)) ==> r.dir == s.dir
  {
    match o.fetch
    case FetchFails(cause) => Fail(s, url + " (" + cause + ")")
    case Fetched(contentType) =>
      var target := SearchTarget(s, st, prefix, index, url, name, contentType);
      if !o.write.Written? then Fail(s, url + " (" + WriteCause(o.write) + ")")
      else SearchAfterWrite(s, st, url, target, o)
  }

  /** One Bing item, or one http URL handed to Google's `save_found_image`. */
  function SearchSave(s: Store, st: Settings, prefix: string, index: nat, url: string,
                      name: string, o: Outcome): (r: Store)
    ensures url in s.seen ==> r == Skip(s)
    ensures url !in s.seen ==> r == SearchFetch(s, st, prefix, index, url, name, o)
  {
    if url in s.seen then Skip(s) else SearchFetch(s, st, prefix, index, url, name, o)
  }

  // ---------------------------------------------------------------------------
  // Data URIs
  // ---------------------------------------------------------------------------

  /** Google's extension of a data URI: the `elif` chain, so the first match wins. */
  function FirstWinsExt(header: string): (r: string)
    ensures r in Allowed
    ensures Contains(header, "image/png") ==> r == ".png"
    ensures !Contains(header, "image/png") && Contains(header, "image/gif") ==> r == ".gif"
    ensures !Contains(header, "image/png") && !Contains(header, "image/gif") && Contains(header, "image/webp") ==> r == ".webp"
    ensures !Contains(header, "image/png") && !Contains(header, "image/gif") && !Contains(header, "image/webp") ==> r == ".jpg"
  {
    if Contains(header, "image/png") then ".png"
    else if Contains(header, "image/gif") then ".gif"
    else if Contains(header, "image/webp") then ".webp"
    else ".jpg"
  }

  /** The crawl's extension of a data URI: three independent `if`s, so the last match wins. */
  function LastWinsExt(header: string): (r: string)
    ensures r in Allowed
    ensures Contains(header, "image/webp") ==> r == ".webp"
    ensures !Contains(header, "image/webp") && Contains(header, "image/gif") ==> r == ".gif"
    ensures !Contains(header, "image/webp") && !Contains(header, "image/gif") && Contains(header, "image/png") ==> r == ".png"
    ensures !Contains(header, "image/png") && !Contains(header, "image/gif") && !Contains(header, "image/webp") ==> r == ".jpg"
  {
    var ext := ".jpg";
    var ext := if Contains(header, "image/png") then ".png" else ext;
    var ext := if Contains(header, "image/gif") then ".gif" else ext;
    if Contains(header, "image/webp") then ".webp" else ext
  }

  /** The two chains agree when the header names at most one of the three types. */
  lemma ExtChainsAgree(header: string)
    requires (Contains(header, "image/png") ==> !Contains(header, "image/gif") && !Contains(header, "image/webp"))
    requires !(Contains(header, "image/gif") && Contains(header, "image/webp"))
    ensures FirstWinsExt(header) == LastWinsExt(header)
  {
  }

  /** ... and differ when it names both PNG and GIF. */
  lemma ExtChainsDiffer(a: string, b: string, c: string)
    requires !Contains(a + "image/png" + b + "image/gif" + c, "image/webp")
    ensures FirstWinsExt(a + "image/png" + b + "image/gif" + c) == ".png"
    ensures LastWinsExt(a + "image/png" + b + "image/gif" + c) == ".gif"
  {
    var h := a + "image/png" + b + "image/gif" + c;
    ContainsInside(a, "image/png", b + "image/gif" + c);
    assert h == a + "image/png" + (b + "image/gif" + c);
    ContainsInside(a + "image/png" + b, "image/gif", c);
  }

  /** The header of a data URI: everything before the first `base64,`. */
  function DataHeader(url: string): Option<string>
  {
    match IndexOf(url, "base64,")
    case None => None
    case Some(i) => Some(url[..i])
  }

  /** A file written to `target`, then converted when `convert` holds; conversion errors are dropped. */
  function WriteQuietly(s: Store, st: Settings, target: string, convert: bool, o: Outcome): (r: Store)
    ensures r == s.(dir := r.dir)
    ensures target !in s.dir ==> s.dir < r.dir
    ensures !convert || !st.pillow ==> r.dir == s.dir + {target}
  {
    var dir := s.dir + {target};
    s.(dir := if convert then ConvertWebp(dir, target, HowConvert(st, o)).dir else dir)
  }

  /** The name Google's data path writes to; it is not checked against existing files. */
  function GoogleDataName(name: string, ext: string): string
  {
    if EndsWith(name, ext) then name else PathStem(Basename(name)) + ext
  }

  /**
    The data-URI half of Google's `save_found_image`. Every failure only counts as
    skipped; a write that fails after opening leaves the partial file behind.
  */
  function GoogleData(s: Store, st: Settings, url: string, name: string, o: Outcome): (r: Store)
    ensures r.saved + r.skipped == s.saved + s.skipped + 1 ||
            (CompressFault(st) && r.saved + r.skipped == s.saved + s.skipped + 2)
    ensures r.errors == s.errors
    ensures r.ledger == s.ledger || r.ledger == s.ledger + [Truncated(url)]
    ensures r.ledger != s.ledger <==> DataHeader(url).Some? && o.decodeError.None? && CleanSave(st, o.(fetch := Fetched("")))
    ensures s.seen <= r.seen <= s.seen + {url}
    ensures DataHeader(url).None? || o.decodeError.Some? ==> r == Skip(s)
    ensures DataHeader(url).Some? && o.decodeError.None? && o.write.Written? && !(st.convertWebp && FirstWinsExt(DataHeader(url).value) == ".webp") ==>
              GoogleDataName(name, FirstWinsExt(DataHeader(url).value)) in r.dir && r.saved == s.saved + 1
  {
    match DataHeader(url)
    case None => Skip(s)
    case Some(header) =>
      if o.decodeError.Some? then Skip(s)
      else
        var ext := FirstWinsExt(header);
        var finalName := GoogleDataName(name, ext);
        match o.write
        case OpenFails(_) => Skip(s)
        case WriteFails(_) => Skip(s.(dir := s.dir + {finalName}))
        case Written => GoogleDataWritten(s, st, url, finalName, ext, o)
  }

  /** A decoded data URI written to `finalName`: counted, converted, then recorded unless post-processing raises. */
  function GoogleDataWritten(s: Store, st: Settings, url: string, finalName: string, ext: string, o: Outcome): Store
  {
    var written := WriteQuietly(s.(saved := s.saved + 1), st, finalName, st.convertWebp && ext == ".webp", o);
    if CompressFault(st) then Skip(written)
    else Record(written, Truncated(url), url, o.ledgerOk)
  }

  /** A data URI whose name already exists overwrites it: no new name, one more saved. */
  lemma GoogleDataOverwrites(s: Store, st: Settings, url: string, name: string, o: Outcome)
    requires DataHeader(url).Some? && o.decodeError.None? && o.write.Written?
    requires FirstWinsExt(DataHeader(url).value) != ".webp"
    requires EndsWith(name, FirstWinsExt(DataHeader(url).value)) && name in s.dir
    requires url !in s.seen && !o.ledgerOk && !CompressFault(st)
    ensures GoogleData(s, st, url, name, o) == s.(saved := s.saved + 1)
  {
    assert s.dir + {name} == s.dir;
  }

  /** Google's `save_found_image`. */
  function GoogleSave(s: Store, st: Settings, index: nat, url: string, name: string, o: Outcome): (r: Store)
    ensures url in s.seen ==> r == Skip(s)
    ensures s.saved <= r.saved <= s.saved + 1
    ensures s.saved + s.skipped + 1 <= r.saved + r.skipped <= s.saved + s.skipped + 2
    ensures url !in s.seen && StartsWith(url, "data:image") ==> r == GoogleData(s, st, url, name, o)
    ensures url !in s.seen && !StartsWith(url, "data:image") ==> r == SearchFetch(s, st, "google", index, url, name, o)
  {
    if url in s.seen then Skip(s)
    else if StartsWith(url, "data:image") then GoogleData(s, st, url, name, o)
    else SearchFetch(s, st, "google", index, url, name, o)
  }

  /**
    The data-URI half of the crawl download. Failures are reported as
    `Data URI error: ...`; `saved` is counted before post-processing.
  */
  function CrawlData(s: Store, st: Settings, index: nat, url: string, o: Outcome): (r: Store)
    ensures r.saved + r.skipped == s.saved + s.skipped + 1 ||
            (CompressFault(st) && r.saved + r.skipped == s.saved + s.skipped + 2)
    ensures r.ledger == s.ledger || r.ledger == s.ledger + [Truncated(url)]
    ensures s.seen <= r.seen <= s.seen + {url}
    ensures r.saved == s.saved + 1 <==> Decoded(url, o) && o.write.Written?
    ensures r.saved <= s.saved + 1
    ensures r.ledger != s.ledger <==> Decoded(url, o) && o.write.Written? && !CompressFault(st) && o.ledgerOk
    ensures Decoded(url, o) && o.write.Written? && !CompressFault(st) && o.ledgerOk ==> url in r.seen
    ensures DataHeader(url).None? ==> r == Fail(s, "Data URI error: " + UnpackMessage)
    ensures DataHeader(url).Some? && o.decodeError.Some? ==> r == Fail(s, "Data URI error: " + o.decodeError.value)
    ensures Decoded(url, o) && o.write.OpenFails? ==> r == Fail(s, "Data URI error: " + o.write.cause)
    ensures Decoded(url, o) && o.write.WriteFails? ==>
              r == Fail(s.(dir := s.dir + {CrawlDataTarget(s, index, url)}), "Data URI error: " + o.write.cause)
    ensures Decoded(url, o) && o.write.Written? && !CompressFault(st) ==>
              s.dir < r.dir && r.errors == s.errors && r.skipped == s.skipped
    ensures r.errors == s.errors || (r.skipped == s.skipped + 1 && |r.errors| == |s.errors| + 1)
  {
    match DataHeader(url)
    case None => Fail(s, "Data URI error: " + UnpackMessage)
    case Some(header) =>
      if o.decodeError.Some? then Fail(s, "Data URI error: " + o.decodeError.value)
      else
        var ext := LastWinsExt(header);
        CrawlDataWrite(s, st, url, CrawlDataTarget(s, index, url), ext, o)
  }

  /** The separator is found and the payload decodes. */
  predicate Decoded(url: string, o: Outcome)
  {
    DataHeader(url).Some? && o.decodeError.None?
  }

  /** `custom_<index:04d><ext>`, renamed while it collides. */
  function CrawlDataTarget(s: Store, index: nat, url: string): (r: string)
    requires DataHeader(url).Some?
    ensures r !in s.dir
  {
    Probe(s.dir, GeneratedName("custom", index, LastWinsExt(DataHeader(url).value)), 1)
  }

  /** Write, convert, compress and record a decoded crawl data URI at `target`. */
  function CrawlDataWrite(s: Store, st: Settings, url: string, target: string, ext: string, o: Outcome): (r: Store)
    ensures r.saved + r.skipped == s.saved + s.skipped + 1 ||
            (CompressFault(st) && r.saved + r.skipped == s.saved + s.skipped + 2)
    ensures r.ledger == s.ledger || r.ledger == s.ledger + [Truncated(url)]
    ensures s.seen <= r.seen <= s.seen + {url}
    ensures r.saved == s.saved + 1 <==> o.write.Written?
    ensures r.saved <= s.saved + 1
    ensures r.ledger != s.ledger <==> o.write.Written? && !CompressFault(st) && o.ledgerOk
    ensures o.write.Written? && !CompressFault(st) && o.ledgerOk ==> url in r.seen
    ensures o.write.OpenFails? ==> r == Fail(s, "Data URI error: " + o.write.cause)
    ensures o.write.WriteFails? ==> r == Fail(s.(dir := s.dir + {target}), "Data URI error: " + o.write.cause)
    ensures o.write.Written? && CompressFault(st) ==>
              r.saved == s.saved + 1 && r.skipped == s.skipped + 1 && r.ledger == s.ledger &&
              r.seen == s.seen && r.errors == s.errors + ["Data URI error: " + CompressMessage]
    ensures o.write.Written? && !CompressFault(st) ==> r.errors == s.errors && r.skipped == s.skipped
    ensures target !in s.dir && o.write.Written? && !CompressFault(st) ==> s.dir < r.dir
    ensures r.errors == s.errors || (r.skipped == s.skipped + 1 && |r.errors| == |s.errors| + 1)
  {
    match o.write
    case OpenFails(cause) => Fail(s, "Data URI error: " + cause)
    case WriteFails(cause) => Fail(s.(dir := s.dir + {target}), "Data URI error: " + cause)
    case Written =>
      var written := WriteQuietly(s.(saved := s.saved + 1), st, target, st.convertWebp && ext == ".webp", o);
      if CompressFault(st) then Fail(written, "Data URI error: " + CompressMessage)
      else Record(written, Truncated(url), url, o.ledgerOk)
  }

  /** The name the crawl writes an http image to before any conversion. */
  function CrawlTarget(s: Store, st: Settings, index: nat, url: string, contentType: string): (r: string)
    ensures r !in s.dir
  {
    var original := Sanitize(Basename(UrlSplit(url).path));
    var suffix := BestExtension(original, url, contentType, st.guess);
    Probe(s.dir, ChooseName(st.keepFilenames, original, 2, suffix, "custom", index), 1)
  }

  /** Convert, compress, count and record a crawled file just written to the fresh name `target`. */
  function CrawlAfterWrite(s: Store, st: Settings, url: string, target: string, o: Outcome): (r: Store)
    requires target !in s.dir
    ensures CompressFault(st) ==> r == Fail(s, url + " (" + CompressMessage + ")")
    ensures !CompressFault(st) ==> s.dir < r.dir && r.errors == s.errors && r.saved == s.saved + 1 && r.skipped == s.skipped
    ensures r.ledger == s.ledger || r.ledger == s.ledger + [url]
    ensures r.ledger != s.ledger <==> !CompressFault(st) && o.ledgerOk
    ensures s.seen <= r.seen <= s.seen + {url}
    ensures !CompressFault(st) && o.ledgerOk ==> url in r.seen
  {
    var written := WriteQuietly(s, st, target, st.convertWebp, o);
    if CompressFault(st) then
      assert written.dir - {target} == s.dir;
      Fail(written.(dir := written.dir - {target}), url + " (" + CompressMessage + ")")
    else Record(written.(saved := s.saved + 1), url, url, o.ledgerOk)
  }

  /**
    The http half of the crawl download. `saved` is counted only after post-processing,
    so a compression failure counts the item as skipped alone; conversion failures are
    silent.
  */
  function CrawlHttp(s: Store, st: Settings, index: nat, url: string, o: Outcome): (r: Store)
    ensures r.saved + r.skipped == s.saved + s.skipped + 1
    ensures r.saved == s.saved + 1 <==> o.fetch.Fetched? && o.write.Written? && !CompressFault(st)
    ensures r.ledger == s.ledger || r.ledger == s.ledger + [url]
    ensures r.ledger != s.ledger <==> CleanSave(st, o)
    ensures s.seen <= r.seen <= s.seen + {url}
    ensures CleanSave(st, o) ==> url in r.seen
    ensures o.fetch.FetchFails? ==> r == Fail(s, url + ": " + o.fetch.cause)
    ensures o.fetch.Fetched? && !o.write.Written? ==> r == Fail(s, url + " (" + WriteCause(o.write) + ")")
    ensures o.fetch.Fetched? && o.write.Written? && CompressFault(st) ==> r == Fail(s, url + " (" + CompressMessage + ")")
    ensures o.fetch.Fetched? && o.write.Written? && !CompressFault(st) ==> s.dir < r.dir && r.errors == s.errors
  {
    match o.fetch
    case FetchFails(cause) => Fail(s, url + ": " + cause)
    case Fetched(contentType) =>
      var target := CrawlTarget(s, st, index, url, contentType);
      if !o.write.Written? then Fail(s, url + " (" + WriteCause(o.write) + ")")
      else CrawlAfterWrite(s, st, url, target, o)
  }

  /** One item of the crawl download. */
  function CrawlSave(s: Store, st: Settings, index: nat, url: string, o: Outcome): (r: Store)
    ensures r.saved <= s.saved + 1
    ensures url in s.seen ==> r == Skip(s)
    ensures url !in s.seen && StartsWith(url, "data:image") ==> r == CrawlData(s, st, index, url, o)
    ensures url !in s.seen && !StartsWith(url, "data:image") ==> r == CrawlHttp(s, st, index, url, o)
  {
    if url in s.seen then Skip(s)
    else if StartsWith(url, "data:image") then CrawlData(s, st, index, url, o)
    else CrawlHttp(s, st, index, url, o)
  }

  /** With compression failing, the search engines count the item saved, the crawl does not. */
  lemma SavedCountedAtDifferentPoints(s: Store, st: Settings, index: nat, url: string, name: string, o: Outcome)
    requires url !in s.seen && o.fetch.Fetched? && o.write.Written? && CompressFault(st)
    ensures SearchFetch(s, st, "bing", index, url, name, o).saved == s.saved + 1
    ensures SearchFetch(s, st, "bing", index, url, name, o).skipped == s.skipped + 1
    ensures CrawlHttp(s, st, index, url, o).saved == s.saved
    ensures CrawlHttp(s, st, index, url, o).skipped == s.skipped + 1
  {
  }

  // ---------------------------------------------------------------------------
  // Whole runs
  // ---------------------------------------------------------------------------

  /** A Bing result as `collect_image_metadata` returns it. */
  datatype Candidate = Candidate(url: string, thumbnail: string, name: string)

  /** The number of the first poll of the stop flag that finds it set, or `n`. */
  function FirstStop(stop: nat -> bool, n: nat): (k: nat)
    ensures k <= n
    ensures forall i :: 0 <= i < k ==> !stop(i)
    ensures k < n ==> stop(k)
  {
    FirstStopFrom(stop, 0, n)
  }

  function FirstStopFrom(stop: nat -> bool, from: nat, n: nat): (k: nat)
    requires from <= n
    ensures from <= k <= n
    ensures forall i :: from <= i < k ==> !stop(i)
    ensures k < n ==> stop(k)
    decreases n - from
  {
    if from == n || stop(from) then from else FirstStopFrom(stop, from + 1, n)
  }

  /** The state after the first `n` Bing items, item `i` being number `i + 1`. */
  function BingProcessed(s: Store, st: Settings, items: seq<Candidate>, outcome: nat -> Outcome, n: nat): Store
    requires n <= |items|
  {
    if n == 0 then s
    else SearchSave(BingProcessed(s, st, items, outcome, n - 1), st, "bing", n, items[n - 1].url, items[n - 1].name, outcome(n - 1))
  }

  /**
   * After `n` Bing items the seen set has grown, the ledger is extended by at most `n`
   * lines, and each item is counted once, or twice on a post-processing fault.
   */
  lemma {:induction false} BingProcessedBounds(s: Store, st: Settings, items: seq<Candidate>, outcome: nat -> Outcome, n: nat)
    requires n <= |items|
    ensures var r := BingProcessed(s, st, items, outcome, n);
      && s.seen <= r.seen
      && |s.ledger| <= |r.ledger| <= |s.ledger| + n && r.ledger[..|s.ledger|] == s.ledger
      && s.saved + s.skipped + n <= r.saved + r.skipped <= s.saved + s.skipped + 2 * n
      && (!CompressFault(st) ==> r.saved + r.skipped == s.saved + s.skipped + n)
  {
    if n > 0 {
      BingProcessedBounds(s, st, items, outcome, n - 1);
      var before := BingProcessed(s, st, items, outcome, n - 1);
      var r := BingProcessed(s, st, items, outcome, n);
      assert r.ledger[..|before.ledger|] == before.ledger;
      assert r.ledger[..|s.ledger|] == before.ledger[..|s.ledger|];
    }
  }

  /** Item `n` of the Bing loop, number `n + 1`, taken from the state after the first `n`. */
  lemma BingStep(s: Store, st: Settings, items: seq<Candidate>, outcome: nat -> Outcome, n: nat)
    requires n < |items|
    ensures BingProcessed(s, st, items, outcome, n + 1) ==
              SearchSave(BingProcessed(s, st, items, outcome, n), st, "bing", n + 1, items[n].url, items[n].name, outcome(n))
  {
  }

  /** `download_images`: the items up to the first poll that finds the stop flag set. */
  function BingRun(s: Store, st: Settings, items: seq<Candidate>, outcome: nat -> Outcome, stop: nat -> bool): Store
  {
    BingProcessed(s, st, items, outcome, FirstStop(stop, |items|))
  }

  /**
   * A Bing run only adds to what was seen and to the ledger; without a stop every item is
   * counted, and a stop found before item `j` leaves at most the first `j` items counted.
   */
  lemma BingRunCounts(s: Store, st: Settings, items: seq<Candidate>, outcome: nat -> Outcome, stop: nat -> bool, j: nat)
    ensures s.seen <= BingRun(s, st, items, outcome, stop).seen
    ensures |s.ledger| <= |BingRun(s, st, items, outcome, stop).ledger|
    ensures BingRun(s, st, items, outcome, stop).ledger[..|s.ledger|] == s.ledger
    ensures (forall i :: 0 <= i < |items| ==> !stop(i)) ==>
              BingRun(s, st, items, outcome, stop).saved + BingRun(s, st, items, outcome, stop).skipped
              >= s.saved + s.skipped + |items|
    ensures j < |items| && stop(j) ==>
              BingRun(s, st, items, outcome, stop).saved + BingRun(s, st, items, outcome, stop).skipped
              <= s.saved + s.skipped + 2 * j
  {
    BingProcessedBounds(s, st, items, outcome, FirstStop(stop, |items|));
  }

  /** What the Bing loop has seen only grows. */
  lemma {:induction false} BingSeenGrows(s: Store, st: Settings, items: seq<Candidate>, outcome: nat -> Outcome, n: nat, m: nat)
    requires n <= m <= |items|
    ensures BingProcessed(s, st, items, outcome, n).seen <= BingProcessed(s, st, items, outcome, m).seen
    decreases m - n
  {
    if n < m {
      BingSeenGrows(s, st, items, outcome, n, m - 1);
    }
  }

  /** A URL saved cleanly earlier in the batch is skipped when it comes again. */
  lemma BingRepeatSkipped(s: Store, st: Settings, items: seq<Candidate>, outcome: nat -> Outcome, i: nat, j: nat)
    requires i < j < |items| && items[i].url == items[j].url
    requires CleanSave(st, outcome(i))
    ensures BingProcessed(s, st, items, outcome, j + 1) == Skip(BingProcessed(s, st, items, outcome, j))
  {
    var url := items[i].url;
    assert url in BingProcessed(s, st, items, outcome, i + 1).seen;
    BingSeenGrows(s, st, items, outcome, i + 1, j);
  }

  /** The ledger line of a data URI: up to 50 characters of the URL, then `...`. */
  lemma TruncatedShape(url: string)
    ensures |url| <= 50 ==> Truncated(url) == url + "..."
    ensures |url| > 50 ==> |Truncated(url)| == 53 && StartsWith(url, Truncated(url)[..50])
    ensures EndsWith(Truncated(url), "...")
  {
  }

  /** A data URI's file name ends with its extension, and a name that already does is kept. */
  lemma GoogleDataNameEnds(name: string, ext: string)
    ensures EndsWith(GoogleDataName(name, ext), ext)
    ensures EndsWith(name, ext) ==> GoogleDataName(name, ext) == name
  {
  }

  /** The whole crawl download keeps its limit and, below it, counts every pair. */
  lemma CrawlRunCounts(s: Store, st: Settings, images: seq<(string, string)>, outcome: nat -> Outcome, limit: int)
    ensures s.saved <= CrawlRun(s, st, images, outcome, limit).saved
    ensures s.seen <= CrawlRun(s, st, images, outcome, limit).seen
    ensures limit > 0 && s.saved <= limit ==> CrawlRun(s, st, images, outcome, limit).saved <= limit
    ensures limit <= 0 || CrawlRun(s, st, images, outcome, limit).saved < limit ==>
              CrawlRun(s, st, images, outcome, limit).saved + CrawlRun(s, st, images, outcome, limit).skipped
              >= s.saved + s.skipped + |images|
  {
  }

  /** Once the stop flag is found set before item `k`, the items from `k` on are never reached. */
  lemma BingStopsAt(s: Store, st: Settings, items: seq<Candidate>, outcome: nat -> Outcome, stop: nat -> bool, k: nat)
    requires k <= |items| && stop(k) && forall i :: 0 <= i < k ==> !stop(i)
    ensures BingRun(s, st, items, outcome, stop) == BingProcessed(s, st, items, outcome, k)
  {
  }

  /** The crawl download from image number `i + 1` on, ending once `limit > 0` images are saved. */
  function CrawlFrom(s: Store, st: Settings, images: seq<(string, string)>, outcome: nat -> Outcome,
                     limit: int, i: nat): (r: Store)
    requires i <= |images|
    ensures s.saved <= r.saved
    ensures limit > 0 && s.saved <= limit ==> r.saved <= limit
    ensures s.seen <= r.seen
    ensures limit <= 0 || r.saved < limit ==> r.saved + r.skipped >= s.saved + s.skipped + (|images| - i)
    decreases |images| - i
  {
    if i == |images| || (limit > 0 && s.saved >= limit) then s
    else
      CrawlSaveCounts(s, st, i + 1, images[i].0, outcome(i));
      CrawlFrom(CrawlSave(s, st, i + 1, images[i].0, outcome(i)), st, images, outcome, limit, i + 1)
  }

  /** One crawl download grows the seen set, counts the pair, and saves at most one image. */
  lemma CrawlSaveCounts(s: Store, st: Settings, index: nat, url: string, o: Outcome)
    ensures var r := CrawlSave(s, st, index, url, o);
      s.saved <= r.saved <= s.saved + 1 && s.seen <= r.seen && r.saved + r.skipped >= s.saved + s.skipped + 1
  {
  }

  /** The download half of `GenericPageScraper.scrape` over the sorted `(src, page)` pairs. */
  function CrawlRun(s: Store, st: Settings, images: seq<(string, string)>, outcome: nat -> Outcome, limit: int): Store
  {
    CrawlFrom(s, st, images, outcome, limit, 0)
  }
}
