/**
  The state the three download loops update in place (`saved`, `skipped`, `errors`,
  `seen_urls`, the manifest file and the destination directory) as one object whose
  methods are proved to follow the step functions of `Downloads`.
*/
module Downloaders {
  import opened Wrappers
  import opened Strings
  import opened Paths
  import opened Naming
  import opened Downloads

  /** The bookkeeping a run starts from: the files present and the manifest, if readable. */
  function Opened(files: set<string>, manifest: Option<string>): (r: Store)
    ensures manifest.Some? && ManifestName in files ==> r.seen == LoadLedger(SplitLines(manifest.value))
    ensures manifest.None? || ManifestName !in files ==> r.seen == {}
    ensures r.dir == files && r.ledger == [] && r.saved == 0 && r.skipped == 0 && r.errors == []
  {
    Store(files, [], if manifest.Some? && ManifestName in files then LoadLedger(SplitLines(manifest.value)) else {}, 0, 0, [])
  }

  /**
    A later run opening the ledger file an earlier run wrote sees exactly the URLs it
    recorded, when none of them has surrounding blanks or a line boundary.
  */
  lemma ReopenedSeesLedger(files: set<string>, recorded: seq<string>)
    requires ManifestName in files
    requires forall i :: 0 <= i < |recorded| ==>
               recorded[i] != [] && !IsSpace(recorded[i][0]) && !IsSpace(recorded[i][|recorded[i]| - 1])
    requires forall i, j :: 0 <= i < |recorded| && 0 <= j < |recorded[i]| ==> !IsLineBreak(recorded[i][j])
    ensures Opened(files, Some(LedgerText(recorded))).seen == set u | u in recorded
  {
    LedgerTextRoundTrip(recorded);
    forall i | 0 <= i < |recorded| ensures recorded[i] != "" && Strip(recorded[i]) == recorded[i] {
      StripUnpadded(recorded[i]);
    }
    LedgerOfStripped(recorded);
  }

  class Downloader {
    var dir: set<string>
    var ledger: seq<string>
    var seen: set<string>
    var saved: nat
    var skipped: nat
    var errors: seq<string>
    const settings: Settings

    function State(): Store
      reads this
    {
      Store(dir, ledger, seen, saved, skipped, errors)
    }

    /** The start of a loop: the manifest is read when it exists; a failed read means no URLs. */
    constructor (files: set<string>, manifest: Option<string>, settings: Settings)
      ensures State() == Opened(files, manifest) && this.settings == settings
    {
      dir := files;
      ledger := [];
      seen := if manifest.Some? && ManifestName in files then LoadLedger(SplitLines(manifest.value)) else {};
      saved := 0;
      skipped := 0;
      errors := [];
      this.settings := settings;
    }

    /** `maybe_convert_webp_to_jpg` on the directory. */
    method Convert(name: string, how: Conversion) returns (path: string, error: Option<string>)
      modifies this
      ensures Converted(dir, path, error) == ConvertWebp(old(dir), name, how)
      ensures ledger == old(ledger) && seen == old(seen) && saved == old(saved)
      ensures skipped == old(skipped) && errors == old(errors)
    {
      if Lower(PathSuffix(name)) != ".webp" {
        return name, None;
      }
      if how.PillowMissing? {
        return name, Some(PillowMessage);
      }
      var target := FindWebpTarget(dir, name);
      if how.DecodeFails? {
        return name, Some("Failed to convert " + name + " from .webp to .jpg: " + how.cause);
      }
      dir := (dir - {name}) + {target};
      return target, None;
    }

    /** An item given up on: one more skip and one more error entry. */
    method Fail(message: string)
      modifies this
      ensures State() == Downloads.Fail(old(State()), message)
    {
      errors := errors + [message];
      skipped := skipped + 1;
    }

    /** The ledger append and `seen_urls.add`, skipped together when the append raises. */
    method Record(line: string, url: string, ok: bool)
      modifies this
      ensures State() == Downloads.Record(old(State()), line, url, ok)
    {
      if ok {
        ledger := ledger + [line];
        seen := seen + {url};
        dir := dir + {ManifestName};
      }
    }

    /** Write `target`, then convert it when `convert` holds, dropping any conversion error. */
    method WriteQuietly(target: string, convert: bool, o: Outcome)
      modifies this
      ensures State() == Downloads.WriteQuietly(old(State()), settings, target, convert, o)
    {
      dir := dir + {target};
      if convert {
        var _, _ := Convert(target, HowConvert(settings, o));
      }
    }

    /** `Convert`, with a conversion error appended to `errors` against `url`. */
    method ConvertLogged(url: string, name: string, how: Conversion)
      modifies this
      ensures var c := ConvertWebp(old(dir), name, how);
        State() == old(State()).(dir := c.dir, errors := old(errors) + ConversionErrors(url, c))
    {
      var path, error := Convert(name, how);
      if error.Some? {
        errors := errors + [url + " (" + error.value + ")"];
      }
    }

    /** The file just written to the fresh name `target`, converted when asked to. */
    method SearchConverted(url: string, target: string, o: Outcome)
      requires target !in dir
      modifies this
      ensures State() == Downloads.SearchConverted(old(State()), settings, url, target, o)
    {
      dir := dir + {target};
      saved := saved + 1;
      if settings.convertWebp {
        ConvertLogged(url, target, HowConvert(settings, o));
      }
    }

    /** Convert, compress and record a file just written to the fresh name `target`. */
    method SearchAfterWrite(url: string, target: string, o: Outcome)
      requires target !in dir
      modifies this
      ensures State() == Downloads.SearchAfterWrite(old(State()), settings, url, target, o)
    {
      SearchConverted(url, target, o);
      if CompressFault(settings) {
        Fail(url + " (" + CompressMessage + ")");
        dir := dir - {target};
        return;
      }
      Record(url, url, o.ledgerOk);
    }

    /** The name a Bing or Google http image is written to before any conversion. */
    method SearchTarget(prefix: string, index: nat, url: string, name: string, contentType: string)
      returns (target: string)
      ensures target == Downloads.SearchTarget(State(), settings, prefix, index, url, name, contentType)
    {
      var original := SearchName(name);
      var suffix := BestExtension(original, url, contentType, settings.guess);
      target := FreeName(dir, ChooseName(settings.keepFilenames, original, 1, suffix, prefix, index));
    }

    /** Fetch, name and write one URL that is not in the ledger. */
    method SearchFetch(prefix: string, index: nat, url: string, name: string, o: Outcome)
      modifies this
      ensures State() == Downloads.SearchFetch(old(State()), settings, prefix, index, url, name, o)
    {
      if o.fetch.FetchFails? {
        Fail(url + " (" + o.fetch.cause + ")");
        return;
      }
      var target := SearchTarget(prefix, index, url, name, o.fetch.contentType);
      if !o.write.Written? {
        Fail(url + " (" + WriteCause(o.write) + ")");
        return;
      }
      SearchAfterWrite(url, target, o);
    }

    /** One Bing item, or one http URL of Google's `save_found_image`. */
    method SaveSearch(prefix: string, index: nat, url: string, name: string, o: Outcome)
      modifies this
      ensures State() == SearchSave(old(State()), settings, prefix, index, url, name, o)
    {
      if url in seen {
        skipped := skipped + 1;
      } else {
        SearchFetch(prefix, index, url, name, o);
      }
    }

    /** Item number `i + 1` of the Bing loop. */
    method BingItem(ghost start: Store, items: seq<Candidate>, outcome: nat -> Outcome, i: nat)
      requires i < |items| && State() == BingProcessed(start, settings, items, outcome, i)
      modifies this
      ensures State() == BingProcessed(start, settings, items, outcome, i + 1)
    {
      SaveSearch("bing", i + 1, items[i].url, items[i].name, outcome(i));
      BingStep(start, settings, items, outcome, i);
    }

    /** `BingImageScraper.download_images`. */
    method DownloadBing(items: seq<Candidate>, outcome: nat -> Outcome, stop: nat -> bool)
      modifies this
      ensures State() == BingRun(old(State()), settings, items, outcome, stop)
    {
      ghost var start := State();
      var i := 0;
      while i < |items| && !stop(i)
        invariant i <= FirstStop(stop, |items|)
        invariant State() == BingProcessed(start, settings, items, outcome, i)
      {
        BingItem(start, items, outcome, i);
        i := i + 1;
      }
      assert FirstStop(stop, |items|) == i;
    }

    /** The data-URI half of Google's `save_found_image`. */
    method SaveGoogleData(url: string, name: string, o: Outcome)
      modifies this
      ensures State() == GoogleData(old(State()), settings, url, name, o)
    {
      var header := DataHeader(url);
      if header.None? || o.decodeError.Some? {
        skipped := skipped + 1;
        return;
      }
      var ext := FirstWinsExt(header.value);
      var finalName := GoogleDataName(name, ext);
      if o.write.OpenFails? {
        skipped := skipped + 1;
        return;
      }
      if o.write.WriteFails? {
        dir := dir + {finalName};
        skipped := skipped + 1;
        return;
      }
      GoogleDataWritten(url, finalName, ext, o);
    }

    /** A decoded Google data URI written to `finalName`, then converted, compressed and recorded. */
    method GoogleDataWritten(url: string, finalName: string, ext: string, o: Outcome)
      modifies this
      ensures State() == Downloads.GoogleDataWritten(old(State()), settings, url, finalName, ext, o)
    {
      saved := saved + 1;
      WriteQuietly(finalName, settings.convertWebp && ext == ".webp", o);
      if CompressFault(settings) {
        skipped := skipped + 1;
        return;
      }
      Record(Truncated(url), url, o.ledgerOk);
    }

    /** Google's `save_found_image`. */
    method SaveGoogle(index: nat, url: string, name: string, o: Outcome)
      modifies this
      ensures State() == GoogleSave(old(State()), settings, index, url, name, o)
    {
      if url in seen {
        skipped := skipped + 1;
      } else if StartsWith(url, "data:image") {
        SaveGoogleData(url, name, o);
      } else {
        SaveSearch("google", index, url, name, o);
      }
    }

    /** The data-URI half of one crawl download. */
    method SaveCrawlData(index: nat, url: string, o: Outcome)
      modifies this
      ensures State() == CrawlData(old(State()), settings, index, url, o)
    {
      var header := DataHeader(url);
      if header.None? {
        Fail("Data URI error: " + UnpackMessage);
        return;
      }
      if o.decodeError.Some? {
        Fail("Data URI error: " + o.decodeError.value);
        return;
      }
      var ext := LastWinsExt(header.value);
      var target := FreeName(dir, GeneratedName("custom", index, ext));
      CrawlDataWrite(url, target, ext, o);
    }

    /** Write, convert, compress and record a decoded crawl data URI at `target`. */
    method CrawlDataWrite(url: string, target: string, ext: string, o: Outcome)
      modifies this
      ensures State() == Downloads.CrawlDataWrite(old(State()), settings, url, target, ext, o)
    {
      if o.write.OpenFails? {
        Fail("Data URI error: " + o.write.cause);
        return;
      }
      if o.write.WriteFails? {
        dir := dir + {target};
        Fail("Data URI error: " + o.write.cause);
        return;
      }
      saved := saved + 1;
      WriteQuietly(target, settings.convertWebp && ext == ".webp", o);
      if CompressFault(settings) {
        Fail("Data URI error: " + CompressMessage);
        return;
      }
      Record(Truncated(url), url, o.ledgerOk);
    }

    /** The name a crawled http image is written to before any conversion. */
    method CrawlTarget(index: nat, url: string, contentType: string) returns (target: string)
      ensures target == Downloads.CrawlTarget(State(), settings, index, url, contentType)
    {
      var original := Sanitize(Basename(UrlSplit(url).path));
      var suffix := BestExtension(original, url, contentType, settings.guess);
      target := FreeName(dir, ChooseName(settings.keepFilenames, original, 2, suffix, "custom", index));
    }

    /** The http half of one crawl download. */
    method SaveCrawlHttp(index: nat, url: string, o: Outcome)
      modifies this
      ensures State() == CrawlHttp(old(State()), settings, index, url, o)
    {
      ghost var s0 := State();
      if o.fetch.FetchFails? {
        Fail(url + ": " + o.fetch.cause);
        return;
      }
      // The file name does not matter to a write that fails: nothing is left behind.
      if !o.write.Written? {
        Fail(url + " (" + WriteCause(o.write) + ")");
        return;
      }
      var target := CrawlTarget(index, url, o.fetch.contentType);
      CrawlAfterWrite(url, target, o);
      assert State() == Downloads.CrawlAfterWrite(s0, settings, url, target, o);
    }

    /** Convert, compress, count and record a crawled file just written to the fresh name `target`. */
    method CrawlAfterWrite(url: string, target: string, o: Outcome)
      requires target !in dir
      modifies this
      ensures State() == Downloads.CrawlAfterWrite(old(State()), settings, url, target, o)
    {
      WriteQuietly(target, settings.convertWebp, o);
      if CompressFault(settings) {
        Fail(url + " (" + CompressMessage + ")");
        dir := dir - {target};
        return;
      }
      saved := saved + 1;
      Record(url, url, o.ledgerOk);
    }

    /** One item of the crawl download. */
    method SaveCustom(index: nat, url: string, o: Outcome)
      modifies this
      ensures State() == CrawlSave(old(State()), settings, index, url, o)
    {
      if url in seen {
        skipped := skipped + 1;
      } else if StartsWith(url, "data:image") {
        SaveCrawlData(index, url, o);
      } else {
        SaveCrawlHttp(index, url, o);
      }
    }

    /** The download half of `GenericPageScraper.scrape`. */
    method DownloadCustom(images: seq<(string, string)>, outcome: nat -> Outcome, limit: int)
      modifies this
      ensures State() == CrawlRun(old(State()), settings, images, outcome, limit)
    {
      var i := 0;
      while i < |images|
        invariant i <= |images|
        invariant CrawlFrom(State(), settings, images, outcome, limit, i) == CrawlRun(old(State()), settings, images, outcome, limit)
      {
        if limit > 0 && saved >= limit {
          break;
        }
        SaveCustom(i + 1, images[i].0, outcome(i));
        i := i + 1;
      }
    }
  }
}
