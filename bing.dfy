/**
  `BingImageScraper.collect_image_metadata` over already parsed `a.iusc` anchors: the
  JSON of the `m` and `mad` attributes arrives decoded (or marked malformed).
*/
module Bing {
  import opened Wrappers
  import opened Strings
  import opened Paths
  import opened Downloads
  import opened Downloaders

  /** The two keys read from a decoded attribute; `""` stands for a missing or empty value. */
  datatype Meta = Meta(murl: string, turl: string)

  /** An attribute: missing or empty, not valid JSON, or decoded. */
  datatype Attr = Absent | Malformed | Parsed(meta: Meta)

  datatype Anchor = Anchor(m: Attr, mad: Attr)

  /** The candidate an anchor yields, if any. */
  function CandidateOf(a: Anchor): (r: Option<Candidate>)
    ensures r.Some? <==> a.m.Parsed? && a.m.meta.murl != ""
    ensures r.Some? ==> r.value.url == a.m.meta.murl && '/' !in r.value.name
    ensures r.Some? && a.m.meta.turl != "" ==> r.value.thumbnail == a.m.meta.turl
  {
    if !a.m.Parsed? || a.m.meta.murl == "" then None
    else
      var mad := if a.mad.Parsed? then a.mad.meta else Meta("", "");
      var thumbnail := if a.m.meta.turl != "" then a.m.meta.turl else mad.turl;
      Some(Candidate(a.m.meta.murl, thumbnail, Basename(UrlSplit(a.m.meta.murl).path)))
  }

  /** The candidate's name is the base name of the `murl` path; its thumbnail falls back to `mad`'s. */
  lemma CandidateOfFields(a: Anchor)
    requires CandidateOf(a).Some?
    ensures CandidateOf(a).value.name == Basename(UrlSplit(a.m.meta.murl).path)
    ensures a.m.meta.turl == "" && a.mad.Parsed? ==> CandidateOf(a).value.thumbnail == a.mad.meta.turl
    ensures a.m.meta.turl == "" && !a.mad.Parsed? ==> CandidateOf(a).value.thumbnail == ""
  {
  }

  /** Every candidate of the anchors, in document order. */
  function Candidates(anchors: seq<Anchor>): (r: seq<Candidate>)
    ensures |r| <= |anchors|
    ensures forall i :: 0 <= i < |r| ==> r[i].url != ""
    decreases |anchors|
  {
    if anchors == [] then []
    else
      var init := Candidates(anchors[..|anchors| - 1]);
      match CandidateOf(anchors[|anchors| - 1])
      case None => init
      case Some(c) => init + [c]
  }

  /** One more anchor adds its own candidate, if any, at the end. */
  lemma CandidatesStep(anchors: seq<Anchor>, i: nat)
    requires i < |anchors|
    ensures Candidates(anchors[..i + 1]) ==
              Candidates(anchors[..i]) + (match CandidateOf(anchors[i]) case None => [] case Some(c) => [c])
  {
    assert anchors[..i + 1][..i] == anchors[..i];
  }

  /** The candidates of a prefix are a prefix of the candidates. */
  lemma {:induction false} CandidatesPrefix(anchors: seq<Anchor>, n: nat)
    requires n <= |anchors|
    ensures |Candidates(anchors[..n])| <= |Candidates(anchors)|
    ensures Candidates(anchors)[..|Candidates(anchors[..n])|] == Candidates(anchors[..n])
    decreases |anchors| - n
  {
    if n < |anchors| {
      var m := |anchors| - 1;
      assert anchors[..m][..n] == anchors[..n];
      CandidatesPrefix(anchors[..m], n);
      assert anchors[..m] == anchors[..|anchors| - 1];
    } else {
      assert anchors[..n] == anchors;
    }
  }

  function Max(a: int, b: int): int { if a >= b then a else b }

  /** How many candidates are kept: the loop breaks once it holds `limit`, checked after each append. */
  function Kept(anchors: seq<Anchor>, limit: int): (r: seq<Candidate>)
    ensures |r| <= Max(limit, 1)
    ensures |r| == Max(limit, 1) || r == Candidates(anchors)
    ensures |r| <= |Candidates(anchors)| && r == Candidates(anchors)[..|r|]
  {
    var all := Candidates(anchors);
    if |all| <= Max(limit, 1) then all else all[..Max(limit, 1)]
  }

  /** A non-positive limit still lets the first candidate through. */
  lemma NonPositiveLimitKeepsOne(anchors: seq<Anchor>, limit: int)
    requires limit <= 0 && Candidates(anchors) != []
    ensures Kept(anchors, limit) == [Candidates(anchors)[0]]
  {
  }

  /** The anchor loop of `collect_image_metadata`. */
  method CollectMetadata(anchors: seq<Anchor>, limit: int) returns (results: seq<Candidate>)
    ensures results == Kept(anchors, limit)
  {
    results := [];
    var i := 0;
    while i < |anchors|
      invariant i <= |anchors|
      invariant results == Candidates(anchors[..i])
      invariant |results| < Max(limit, 1)
    {
      CandidatesStep(anchors, i);
      var candidate := CandidateOf(anchors[i]);
      i := i + 1;
      if candidate.Some? {
        results := results + [candidate.value];
        if |results| >= limit {
          CandidatesPrefix(anchors, i);
          return;
        }
      }
    }
    assert anchors[..i] == anchors;
  }

  /**
    `scrape_with_bing` from the parsed result page and the destination's files and
    manifest to the counts of its `ScrapeResult`. Any `settings` are accepted, although
    the source raises before scraping when `convert_webp` is asked for without Pillow
    (image_scraper_multitool.py:440-441); that early raise is not part of this method.
  */
  method ScrapeBing(anchors: seq<Anchor>, limit: int, files: set<string>, manifest: Option<string>,
                    settings: Settings, outcome: nat -> Outcome, stop: nat -> bool)
    returns (saved: nat, skipped: nat, errors: seq<string>)
    ensures var r := BingRun(Opened(files, manifest), settings, Kept(anchors, limit), outcome, stop);
      saved == r.saved && skipped == r.skipped && errors == r.errors
  {
    var items := CollectMetadata(anchors, limit);
    var downloads := new Downloader(files, manifest, settings);
    downloads.DownloadBing(items, outcome, stop);
    saved, skipped, errors := downloads.saved, downloads.skipped, downloads.errors;
  }
}
