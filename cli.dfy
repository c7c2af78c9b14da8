/**
  The engine handling of the command-line `main`: the default engines, the
  order-preserving de-duplication, and the run loop with its exit codes.
*/
module Cli {
  import opened Strings
  import opened Naming

  predicate Distinct(xs: seq<string>)
  {
    forall i, j :: 0 <= i < j < |xs| ==> xs[i] != xs[j]
  }

  /** The index of the first occurrence of `x`. */
  function FirstIndex(xs: seq<string>, x: string): (r: nat)
    requires x in xs
    ensures r < |xs| && xs[r] == x && x !in xs[..r]
    decreases |xs|
  {
    if xs[0] == x then 0
    else
      var r := 1 + FirstIndex(xs[1..], x);
      assert xs[..r] == [xs[0]] + xs[1..][..r - 1];
      r
  }

  /** `list(dict.fromkeys(xs))`. */
  function Dedup(xs: seq<string>): (r: seq<string>)
    ensures Distinct(r)
    ensures forall x :: x in r <==> x in xs
    ensures |r| <= |xs|
    decreases |xs|
  {
    if xs == [] then []
    else
      var init := Dedup(xs[..|xs| - 1]);
      var last := xs[|xs| - 1];
      assert xs == xs[..|xs| - 1] + [last];
      if last in init then init else init + [last]
  }

  lemma {:induction false} FirstIndexAppend(xs: seq<string>, y: string, x: string)
    requires x in xs
    ensures FirstIndex(xs + [y], x) == FirstIndex(xs, x)
    decreases |xs|
  {
    if xs[0] != x {
      assert (xs + [y])[1..] == xs[1..] + [y];
      FirstIndexAppend(xs[1..], y, x);
    }
  }

  lemma {:induction false} FirstIndexOfNew(xs: seq<string>, y: string)
    requires y !in xs
    ensures FirstIndex(xs + [y], y) == |xs|
    decreases |xs|
  {
    if xs != [] {
      assert (xs + [y])[1..] == xs[1..] + [y];
      FirstIndexOfNew(xs[1..], y);
    }
  }

  /** The engines keep the order of their first mention. */
  lemma {:induction false} DedupOrder(xs: seq<string>)
    ensures forall i, j :: 0 <= i < j < |Dedup(xs)| ==> FirstIndex(xs, Dedup(xs)[i]) < FirstIndex(xs, Dedup(xs)[j])
    decreases |xs|
  {
    if xs != [] {
      var init := xs[..|xs| - 1];
      var last := xs[|xs| - 1];
      assert xs == init + [last];
      DedupOrder(init);
      var d := Dedup(init);
      forall x | x in d
        ensures FirstIndex(xs, x) == FirstIndex(init, x)
      {
        FirstIndexAppend(init, last, x);
      }
      if last !in d {
        FirstIndexOfNew(init, last);
        forall i | 0 <= i < |d|
          ensures FirstIndex(init, d[i]) < |init|
        {
        }
      }
    }
  }

  /** Already distinct engines are left as they are. */
  lemma {:induction false} DedupDistinct(xs: seq<string>)
    requires Distinct(xs)
    ensures Dedup(xs) == xs
    decreases |xs|
  {
    if xs != [] {
      var init := xs[..|xs| - 1];
      assert Distinct(init);
      DedupDistinct(init);
      assert xs[|xs| - 1] !in init;
      assert xs == init + [xs[|xs| - 1]];
    }
  }

  /** De-duplication changes exactly the lists with a repeat. */
  lemma DedupIdentityIff(xs: seq<string>)
    ensures Dedup(xs) == xs <==> Distinct(xs)
  {
    if Distinct(xs) {
      DedupDistinct(xs);
    }
  }

  lemma DedupIdempotent(xs: seq<string>)
    ensures Dedup(Dedup(xs)) == Dedup(xs)
  {
    DedupDistinct(Dedup(xs));
  }

  /** `args.engines or ["bing", "google"]`, then de-duplicated. */
  function Engines(requested: seq<string>): (r: seq<string>)
    ensures requested == [] ==> r == ["bing", "google"]
    ensures requested != [] ==> r == Dedup(requested)
    ensures r != [] && Distinct(r)
  {
    if requested == [] then
      assert Distinct(["bing", "google"]);
      DedupDistinct(["bing", "google"]);
      ["bing", "google"]
    else
      assert requested[0] in Dedup(requested);
      Dedup(requested)
  }

  /** What one engine run did: returned its counts, or raised. */
  datatype Run = Finished(saved: nat, skipped: nat, errors: seq<string>) | Raised(message: string)

  /** A `ScrapeResult`, with the destination as base directory, engine folder and query slug. */
  datatype ScrapeResult = ScrapeResult(engine: string, requested: int, saved: nat, skipped: nat,
                             errors: seq<string>, destination: (string, string, string))

  /** The engine loop of `main`: 1 on the first exception, 2 on an unknown engine, else 0. */
  function MainFrom(engines: seq<string>, folder: string, numImages: int, outputDir: string,
                    run: nat -> Run, i: nat, results: seq<ScrapeResult>): (r: (int, seq<ScrapeResult>))
    requires i <= |engines|
    ensures r.0 in {0, 1, 2}
    ensures |results| <= |r.1| <= |results| + (|engines| - i) && r.1[..|results|] == results
    ensures r.0 == 0 <==> |r.1| == |results| + (|engines| - i)
    decreases |engines| - i
  {
    if i == |engines| then (0, results)
    else
      var engine := engines[i];
      if engine != "bing" && engine != "google" then (2, results)
      else
        match run(i)
        case Raised(_) => (1, results)
        case Finished(_, _, _) =>
          var result := ResultOf(engine, folder, numImages, outputDir, run(i));
          var r := MainFrom(engines, folder, numImages, outputDir, run, i + 1, results + [result]);
          assert r.1[..|results|] == r.1[..|results| + 1][..|results|];
          r
  }

  /** The `ScrapeResult` of an engine run that returned. */
  function ResultOf(engine: string, folder: string, numImages: int, outputDir: string, ran: Run): (r: ScrapeResult)
    requires ran.Finished?
    ensures r.engine == engine && r.requested == numImages && r.destination == (outputDir, engine, folder)
    ensures r.saved == ran.saved && r.skipped == ran.skipped && r.errors == ran.errors
  {
    ScrapeResult(engine, numImages, ran.saved, ran.skipped, ran.errors, (outputDir, engine, folder))
  }

  /**
    The loop stops at engine `k`, the first one not reported: with 2 exactly when it is
    unsupported, and with 1 only when its run raised.
  */
  lemma {:induction false} MainFromCode(engines: seq<string>, folder: string, numImages: int, outputDir: string,
                                        run: nat -> Run, i: nat, results: seq<ScrapeResult>)
    requires i <= |engines|
    ensures var r := MainFrom(engines, folder, numImages, outputDir, run, i, results);
            var k := i + |r.1| - |results|;
            && (r.0 != 0 ==> k < |engines| && (r.0 == 2 <==> engines[k] != "bing" && engines[k] != "google"))
            && (r.0 == 1 ==> run(k).Raised?)
    decreases |engines| - i
  {
    if i < |engines| && (engines[i] == "bing" || engines[i] == "google") && run(i).Finished? {
      var result := ResultOf(engines[i], folder, numImages, outputDir, run(i));
      MainFromCode(engines, folder, numImages, outputDir, run, i + 1, results + [result]);
    }
  }

  /**
    Each entry of `out` past `results` belongs to the engine at the same offset from `i`:
    a supported engine whose run returned, with that run's result.
  */
  predicate ReportsFrom(engines: seq<string>, folder: string, numImages: int, outputDir: string,
                        run: nat -> Run, i: nat, results: seq<ScrapeResult>, out: seq<ScrapeResult>)
  {
    forall j :: |results| <= j < |out| ==> ReportedAt(engines, folder, numImages, outputDir, run, i + j - |results|, out[j])
  }

  /** `res` is the result of engine `m`: supported, and its run returned. */
  predicate ReportedAt(engines: seq<string>, folder: string, numImages: int, outputDir: string,
                       run: nat -> Run, m: int, res: ScrapeResult)
  {
    && 0 <= m < |engines| && (engines[m] == "bing" || engines[m] == "google") && run(m).Finished?
    && res == ResultOf(engines[m], folder, numImages, outputDir, run(m))
  }

  /** Every engine reported is supported, its run returned, and its result is appended in order. */
  lemma {:induction false} MainFromResults(engines: seq<string>, folder: string, numImages: int, outputDir: string,
                                           run: nat -> Run, i: nat, results: seq<ScrapeResult>)
    requires i <= |engines|
    ensures ReportsFrom(engines, folder, numImages, outputDir, run, i, results,
                        MainFrom(engines, folder, numImages, outputDir, run, i, results).1)
    decreases |engines| - i
  {
    var r := MainFrom(engines, folder, numImages, outputDir, run, i, results);
    if i < |engines| && (engines[i] == "bing" || engines[i] == "google") && run(i).Finished? {
      var result := ResultOf(engines[i], folder, numImages, outputDir, run(i));
      var more := results + [result];
      MainFromResults(engines, folder, numImages, outputDir, run, i + 1, more);
      assert r == MainFrom(engines, folder, numImages, outputDir, run, i + 1, more);
      assert r.1[..|more|] == more;
      forall j | |results| <= j < |r.1|
        ensures ReportedAt(engines, folder, numImages, outputDir, run, i + j - |results|, r.1[j])
      {
        var m := i + j - |results|;
        if j == |results| {
          assert m == i;
          assert r.1[j] == r.1[..|more|][j] == result;
        } else {
          assert |more| <= j < |r.1| && (i + 1) + j - |more| == m;
          var r2 := MainFrom(engines, folder, numImages, outputDir, run, i + 1, more);
          assert r2.1[j] == r.1[j];
        }
      }
      assert ReportsFrom(engines, folder, numImages, outputDir, run, i, results, r.1);
    } else {
      assert r.1 == results;
    }
  }

  /** `main`: each requested engine once, in order of first mention. */
  method RunEngines(requested: seq<string>, query: string, numImages: int, outputDir: string, run: nat -> Run)
    returns (code: int, results: seq<ScrapeResult>)
    ensures (code, results) == MainFrom(Engines(requested), Slugify(query), numImages, outputDir, run, 0, [])
    ensures code == 0 ==> |results| == |Engines(requested)|
  {
    var engines := Engines(requested);
    var folder := Slugify(query);
    code, results := EngineLoop(engines, folder, numImages, outputDir, run);
  }

  /** The `for engine in engines` loop of `main`, into the query folder `folder`. */
  method EngineLoop(engines: seq<string>, folder: string, numImages: int, outputDir: string, run: nat -> Run)
    returns (code: int, results: seq<ScrapeResult>)
    ensures (code, results) == MainFrom(engines, folder, numImages, outputDir, run, 0, [])
  {
    results := [];
    var i := 0;
    while i < |engines|
      invariant i <= |engines|
      invariant MainFrom(engines, folder, numImages, outputDir, run, i, results) ==
                MainFrom(engines, folder, numImages, outputDir, run, 0, [])
      decreases |engines| - i
    {
      var engine := engines[i];
      if engine != "bing" && engine != "google" {
        return 2, results;
      }
      var outcome := run(i);
      if outcome.Raised? {
        return 1, results;
      }
      results := results + [ResultOf(engine, folder, numImages, outputDir, outcome)];
      i := i + 1;
    }
    code := 0;
  }
}
