/**
  The Tk front end's run logic: `ScraperApp._compile_options` turns the form into
  checked options, and `ScraperApp._run_scraper` runs the engines one after another.
*/
module Gui {
  import opened Wrappers
  import opened Strings
  import opened Naming
  import opened Cli

  /**
    The form variables as read. `numImages` is `None` when its `IntVar` does not hold an
    integer and `bingTimeout` when its `DoubleVar` does not hold a number; there `.get()`
    raises `TclError`, which `_compile_options` does not catch, so `None` stands for that raise.
  */
  datatype Form = Form(
    query: string, bing: bool, google: bool, searchMode: string,
    numImages: Option<int>, bingTimeout: Option<real>,
    outputDir: string, chromedriver: string,
    keepFilenames: bool, convertWebp: bool, showBrowser: bool,
    minWidth: int, minHeight: int, maxWidth: int, maxHeight: int,
    maxMissed: int, compressionQuality: int,
    resizeWidth: int, resizeHeight: int, recursionDepth: int)

  /** `GuiOptions`. */
  datatype Options = Options(
    query: string, numImages: int, engines: seq<string>,
    keepFilenames: bool, convertWebp: bool, outputDir: string,
    bingTimeout: real, chromedriver: string, headless: bool,
    minResolution: (int, int), maxResolution: (int, int),
    maxMissed: int, compressionQuality: int,
    resizeWidth: int, resizeHeight: int, recursionDepth: int)

  function Max(a: int, b: int): int { if a >= b then a else b }

  /** The ranges every compiled record keeps. */
  predicate Clamped(o: Options)
  {
    && 0 <= o.compressionQuality <= 100
    && o.maxMissed >= 1
    && o.resizeWidth >= 0 && o.resizeHeight >= 0 && o.recursionDepth >= 0
    && o.minResolution.0 >= 0 && o.minResolution.1 >= 0
    && o.maxResolution.0 >= 0 && o.maxResolution.1 >= 0
  }

  /** The engines ticked in search mode, Bing first. */
  function Ticked(bing: bool, google: bool): (r: seq<string>)
    ensures "bing" in r <==> bing
    ensures "google" in r <==> google
    ensures r == [] <==> !bing && !google
    ensures r in {[], ["bing"], ["google"], ["bing", "google"]}
  {
    if bing && google then ["bing", "google"]
    else if bing then ["bing"]
    else if google then ["google"]
    else []
  }

  /** `_compile_options`: `None` where the form shows a warning, else the checked record. */
  function CompileOptions(f: Form): (r: Option<Options>)
    ensures r.None? <==>
              || Strip(f.query) == ""
              || (f.searchMode != "url" && !f.bing && !f.google)
              || f.numImages.None? || f.numImages.value <= 0
              || f.bingTimeout.None? || f.bingTimeout.value <= 0.0
    ensures r.Some? ==> Clamped(r.value)
    ensures r.Some? ==> r.value.query == Strip(f.query) && r.value.query != ""
    ensures r.Some? ==> r.value.numImages == f.numImages.value > 0 && r.value.bingTimeout == f.bingTimeout.value > 0.0
    ensures r.Some? && f.searchMode == "url" ==> r.value.engines == ["custom"]
    ensures r.Some? && f.searchMode != "url" ==>
              && r.value.engines in {["bing"], ["google"], ["bing", "google"]}
              && ("bing" in r.value.engines <==> f.bing)
              && ("google" in r.value.engines <==> f.google)
    ensures r.Some? ==> r.value.headless == !f.showBrowser
    ensures r.Some? ==> r.value.keepFilenames == f.keepFilenames && r.value.convertWebp == f.convertWebp
    ensures r.Some? ==> r.value.outputDir == f.outputDir && r.value.chromedriver == f.chromedriver
    ensures r.Some? && 0 <= f.compressionQuality <= 100 ==> r.value.compressionQuality == f.compressionQuality
    ensures r.Some? && f.compressionQuality > 100 ==> r.value.compressionQuality == 100
    ensures r.Some? && f.compressionQuality < 0 ==> r.value.compressionQuality == 0
    ensures r.Some? && f.maxMissed >= 1 ==> r.value.maxMissed == f.maxMissed
    ensures r.Some? && f.maxMissed < 1 ==> r.value.maxMissed == 1
    ensures r.Some? && f.recursionDepth >= 0 ==> r.value.recursionDepth == f.recursionDepth
    ensures r.Some? && f.recursionDepth < 0 ==> r.value.recursionDepth == 0
    ensures r.Some? && f.resizeWidth >= 0 ==> r.value.resizeWidth == f.resizeWidth
    ensures r.Some? && f.resizeWidth < 0 ==> r.value.resizeWidth == 0
    ensures r.Some? && f.resizeHeight >= 0 ==> r.value.resizeHeight == f.resizeHeight
    ensures r.Some? && f.resizeHeight < 0 ==> r.value.resizeHeight == 0
    ensures r.Some? ==> r.value.minResolution.0 == (if f.minWidth >= 0 then f.minWidth else 0)
    ensures r.Some? ==> r.value.minResolution.1 == (if f.minHeight >= 0 then f.minHeight else 0)
    ensures r.Some? ==> r.value.maxResolution.0 == (if f.maxWidth >= 0 then f.maxWidth else 0)
    ensures r.Some? ==> r.value.maxResolution.1 == (if f.maxHeight >= 0 then f.maxHeight else 0)
  {
    var query := Strip(f.query);
    if query == "" then None
    else
      var engines := if f.searchMode == "url" then ["custom"] else Ticked(f.bing, f.google);
      if engines == [] then None
      else if f.numImages.None? || f.numImages.value <= 0 then None
      else if f.bingTimeout.None? || f.bingTimeout.value <= 0.0 then None
      else
        Some(Options(
          query, f.numImages.value, engines, f.keepFilenames, f.convertWebp, f.outputDir,
          f.bingTimeout.value, f.chromedriver, !f.showBrowser,
          (Max(f.minWidth, 0), Max(f.minHeight, 0)), (Max(f.maxWidth, 0), Max(f.maxHeight, 0)),
          Max(f.maxMissed, 1), Max(0, Min(f.compressionQuality, 100)),
          Max(0, f.resizeWidth), Max(0, f.resizeHeight), Max(0, f.recursionDepth)))
  }

  /** The form that shows a record: the fields it was compiled from, read back. */
  function FormOf(o: Options): Form
  {
    Form(o.query, "bing" in o.engines, "google" in o.engines, if o.engines == ["custom"] then "url" else "search",
         Some(o.numImages), Some(o.bingTimeout), o.outputDir, o.chromedriver,
         o.keepFilenames, o.convertWebp, !o.headless,
         o.minResolution.0, o.minResolution.1, o.maxResolution.0, o.maxResolution.1,
         o.maxMissed, o.compressionQuality, o.resizeWidth, o.resizeHeight, o.recursionDepth)
  }

  /** Every record the form can produce is reproduced from its own read-back form. */
  lemma CompileFormOf(o: Options)
    requires Clamped(o) && o.query != "" && Strip(o.query) == o.query
    requires o.numImages > 0 && o.bingTimeout > 0.0
    requires o.engines in {["custom"], ["bing"], ["google"], ["bing", "google"]}
    ensures CompileOptions(FormOf(o)) == Some(o)
  {
  }

  /** Compiling is idempotent: a compiled record survives being shown and compiled again. */
  lemma CompileIdempotent(f: Form)
    requires CompileOptions(f).Some?
    ensures CompileOptions(FormOf(CompileOptions(f).value)) == CompileOptions(f)
  {
    var o := CompileOptions(f).value;
    StripIdempotent(f.query);
    assert Strip(o.query) == o.query;
    assert o.engines in {["custom"], ["bing"], ["google"], ["bing", "google"]};
    CompileFormOf(o);
  }

  /** The folder under the output directory that each engine writes to. */
  function Folder(engine: string): (r: string)
    ensures engine == "custom" ==> r == "custom_url"
    ensures engine != "custom" ==> r == engine
  {
    if engine == "custom" then "custom_url" else engine
  }

  predicate Supported(engine: string) { engine == "bing" || engine == "google" || engine == "custom" }

  /** The text of the exception engine `k` ends with, if it raises. */
  function Failure(engine: string, run: Run): string
  {
    if !Supported(engine) then "Unsupported engine: " + engine
    else if run.Raised? then run.message
    else ""
  }

  /** The error `_run_scraper` records when engine `engine` raises. */
  function ErrorText(engine: string, run: Run): (r: string)
    ensures !Supported(engine) ==> r == Title(engine) + " run failed: " + "Unsupported engine: " + engine
    ensures Supported(engine) && run.Raised? ==> r == Title(engine) + " run failed: " + run.message
  {
    Title(engine) + " run failed: " + Failure(engine, run)
  }

  /** The engine's `ScrapeResult` when it returns; `slug` is the query's folder name. */
  function ResultOf(o: Options, slug: string, engine: string, run: Run): ScrapeResult
    requires run.Finished?
  {
    ScrapeResult(engine, o.numImages, run.saved, run.skipped, run.errors, (o.outputDir, Folder(engine), slug))
  }

  /**
    The engine loop from engine `i` on, given the results so far. The stop flag is
    read as `stop(i)` before engine `i` starts; `slug` is `slugify(query)`.
  */
  function RunFrom(o: Options, slug: string, stop: nat -> bool, run: nat -> Run, i: nat, results: seq<ScrapeResult>)
    : (r: (seq<ScrapeResult>, seq<string>))
    requires i <= |o.engines|
    ensures |r.1| <= 1
    ensures |results| <= |r.0| <= |results| + (|o.engines| - i) && r.0[..|results|] == results
    decreases |o.engines| - i
  {
    if i == |o.engines| || stop(i) then (results, [])
    else
      var engine := o.engines[i];
      if !Supported(engine) || run(i).Raised? then (results, [ErrorText(engine, run(i))])
      else
        var r := RunFrom(o, slug, stop, run, i + 1, results + [ResultOf(o, slug, engine, run(i))]);
        assert r.0[..|results|] == r.0[..|results| + 1][..|results|];
        r
  }

  /** Each result belongs to the engine at its position, which was not stopped and returned. */
  lemma {:induction false} RunFromResults(o: Options, slug: string, stop: nat -> bool, run: nat -> Run, i: nat,
                                          results: seq<ScrapeResult>, k: nat)
    requires i <= |o.engines|
    requires i <= k < i + (|RunFrom(o, slug, stop, run, i, results).0| - |results|)
    ensures var r := RunFrom(o, slug, stop, run, i, results);
            && k < |o.engines| && !stop(k) && Supported(o.engines[k]) && run(k).Finished?
            && r.0[|results| + (k - i)] == ResultOf(o, slug, o.engines[k], run(k))
    decreases |o.engines| - i
  {
    var r := RunFrom(o, slug, stop, run, i, results);
    var n := |results|;
    assert i < |o.engines| && !stop(i) && Supported(o.engines[i]) && run(i).Finished?;
    var next := results + [ResultOf(o, slug, o.engines[i], run(i))];
    assert RunFrom(o, slug, stop, run, i + 1, next) == r;
    if k == i {
      assert r.0[n] == r.0[..n + 1][n];
    } else {
      RunFromResults(o, slug, stop, run, i + 1, next, k);
      assert |next| + (k - (i + 1)) == n + (k - i);
    }
  }

  /**
    How a run that stopped before engine `k` ends, in exactly one of three ways: all
    engines done, the stop flag set, or one error naming that engine.
  */
  predicate EndsAt(o: Options, stop: nat -> bool, run: nat -> Run, k: nat, errors: seq<string>)
  {
    && (errors == [] <==> k == |o.engines| || stop(k))
    && (errors != [] ==> k < |o.engines| && !stop(k) && (!Supported(o.engines[k]) || run(k).Raised?)
                         && errors == [ErrorText(o.engines[k], run(k))])
  }

  /** The run ends at the engine after the last result, as `EndsAt` says. */
  lemma {:induction false} RunFromEnd(o: Options, slug: string, stop: nat -> bool, run: nat -> Run, i: nat, results: seq<ScrapeResult>)
    requires i <= |o.engines|
    ensures var r := RunFrom(o, slug, stop, run, i, results);
            EndsAt(o, stop, run, i + (|r.0| - |results|), r.1)
    decreases |o.engines| - i
  {
    var r := RunFrom(o, slug, stop, run, i, results);
    if i < |o.engines| && !stop(i) && Supported(o.engines[i]) && run(i).Finished? {
      var next := results + [ResultOf(o, slug, o.engines[i], run(i))];
      RunFromEnd(o, slug, stop, run, i + 1, next);
      assert RunFrom(o, slug, stop, run, i + 1, next) == r;
      assert (i + 1) + (|r.0| - |next|) == i + (|r.0| - |results|);
    } else {
      assert r.0 == results;
    }
  }

  /** A run with no error that was not stopped after its last result went through every engine. */
  lemma RunCompletes(o: Options, slug: string, stop: nat -> bool, run: nat -> Run)
    ensures var r := RunFrom(o, slug, stop, run, 0, []);
            r.1 == [] && !stop(|r.0|) ==> |r.0| == |o.engines|
  {
    RunFromEnd(o, slug, stop, run, 0, []);
  }

  /** `_run_scraper`: the results and errors handed to `_on_run_complete`. */
  method RunScraper(o: Options, stop: nat -> bool, run: nat -> Run) returns (results: seq<ScrapeResult>, errors: seq<string>)
    ensures (results, errors) == RunFrom(o, Slugify(o.query), stop, run, 0, [])
    ensures |errors| <= 1 && |results| <= |o.engines|
    ensures errors == [] && !stop(|results|) ==> |results| == |o.engines|
  {
    var slug := Slugify(o.query);
    results := [];
    errors := [];
    var i := 0;
    while i < |o.engines|
      invariant i <= |o.engines| && |results| == i && errors == []
      invariant RunFrom(o, slug, stop, run, i, results) == RunFrom(o, slug, stop, run, 0, [])
      decreases |o.engines| - i
    {
      if stop(i) {
        break;
      }
      var engine := o.engines[i];
      var outcome := run(i);
      if !Supported(engine) || outcome.Raised? {
        errors := [ErrorText(engine, outcome)];
        break;
      }
      results := results + [ResultOf(o, slug, engine, outcome)];
      i := i + 1;
    }
    RunCompletes(o, slug, stop, run);
  }

  /** Once the flag is set before engine `k`, no engine from `k` on produces anything. */
  lemma StopFlagHalts(o: Options, slug: string, stop: nat -> bool, run: nat -> Run, k: nat)
    requires k <= |o.engines| && stop(k)
    ensures |RunFrom(o, slug, stop, run, 0, []).0| <= k
  {
    var r := RunFrom(o, slug, stop, run, 0, []);
    forall m | 0 <= m < |r.0|
      ensures !stop(m)
    {
      RunFromResults(o, slug, stop, run, 0, [], m);
    }
  }
}
