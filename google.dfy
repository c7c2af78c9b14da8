/**
  The card loop of `scrape_with_google` over abstract browser data. Each round of the
  `while` loop sees the cards the five card selectors find, and the page height after
  scrolling. Each card carries its key attributes, its thumbnail, what the preview
  pane shows after the click, the URLs the page-source scan finds, whether handling
  the card raises, and the outcome of the download it may trigger.
*/
module Google {
  import opened Wrappers
  import opened Strings
  import opened Paths
  import opened Downloads
  import opened Downloaders

  /** A preview image: its `src` and its natural size (0 when unknown or unreadable). */
  datatype Img = Img(src: string, width: nat, height: nat)

  /** The high-resolution selectors matched, or the wait timed out and every `<img>` is scanned. */
  datatype Preview = Located(imgs: seq<Img>) | TimedOut(imgs: seq<Img>)

  /**
    A result card: `data-id`, `data-ri`, `jsname`, `data-ved` of the card (`""` when
    missing), the element id, the same four attributes of the enclosing anchor if there
    is one, the object id `str(id(card))` falls back to, the thumbnail `src`, the preview,
    the URLs the page-source pattern matches, an exception raised while handling the
    card, and the outcome of the download of whatever the card yields.
  */
  datatype Card = Card(own: seq<string>, elementId: string, anchor: Option<seq<string>>,
                       objectId: nat, thumb: string, preview: Preview, pageUrls: seq<string>,
                       fault: Option<string>, outcome: Outcome)

  /** One round: the cards of each card selector in order, and the height after scrolling. */
  datatype Round = Round(hits: seq<seq<Card>>, height: int)

  /** `min_resolution` and `max_resolution`; 0 means no bound. */
  datatype Bounds = Bounds(minWidth: int, minHeight: int, maxWidth: int, maxHeight: int)

  /** The loop's inputs: `limit`, `max_missed`, the bounds, the stop flag per poll and the MD5 prefix. */
  datatype Env = Env(limit: int, maxMissed: int, bounds: Bounds, stop: nat -> bool, digest: string -> string)

  /** The loop's state; `polls` counts the reads of the stop flag. */
  datatype Scan = Scan(store: Store, collected: seq<(string, string)>, queued: set<string>,
                       processed: set<string>, misses: nat, lastHeight: int, polls: nat)

  datatype Exit = Filled | Missed | Stopped | Exhausted

  // ---------------------------------------------------------------------------
  // Card keys
  // ---------------------------------------------------------------------------

  /** `a or b or ...` over strings. */
  function FirstNonEmpty(xs: seq<string>): (r: string)
    ensures r != "" ==> r in xs
    ensures r == "" <==> forall i :: 0 <= i < |xs| ==> xs[i] == ""
    decreases |xs|
  {
    if xs == [] then ""
    else if xs[0] != "" then xs[0]
    else
      var r := FirstNonEmpty(xs[1..]);
      assert forall i :: 1 <= i < |xs| ==> xs[i] == xs[1..][i - 1];
      r
  }

  /** The key of a card: its own attributes, else its anchor's, else its object id. */
  function CardKey(c: Card): (r: string)
    ensures r != ""
    ensures FirstNonEmpty(c.own + [c.elementId]) != "" ==> r == FirstNonEmpty(c.own + [c.elementId])
  {
    var own := FirstNonEmpty(c.own + [c.elementId]);
    if own != "" then own
    else
      var fromAnchor := if c.anchor.Some? then FirstNonEmpty(c.anchor.value) else "";
      if fromAnchor != "" then fromAnchor else NatToString(c.objectId)
  }

  /** Selenium element ids are never empty, so the anchor's attributes are never consulted. */
  lemma ElementIdDecides(c: Card)
    requires c.elementId != ""
    ensures CardKey(c) == FirstNonEmpty(c.own + [c.elementId])
  {
    var xs := c.own + [c.elementId];
    assert xs[|xs| - 1] != "";
  }

  // ---------------------------------------------------------------------------
  // Filters
  // ---------------------------------------------------------------------------

  /** The size filter: a non-zero minimum binds always, a non-zero maximum only a known size. */
  function DimensionsAccepted(b: Bounds, width: nat, height: nat): (r: bool)
    ensures b.minWidth != 0 && width < b.minWidth ==> !r
    ensures b.minHeight != 0 && height < b.minHeight ==> !r
    ensures b.maxWidth != 0 && width != 0 && width > b.maxWidth ==> !r
    ensures b.maxHeight != 0 && height != 0 && height > b.maxHeight ==> !r
    ensures width == 0 && height == 0 ==> (r <==> b.minWidth <= 0 && b.minHeight <= 0)
    ensures (b.minWidth <= width && b.minHeight <= height &&
             (b.maxWidth == 0 || width <= b.maxWidth) && (b.maxHeight == 0 || height <= b.maxHeight)) ==> r
  {
    !((b.minWidth != 0 && width < b.minWidth) || (b.minHeight != 0 && height < b.minHeight)) &&
    !((b.maxWidth != 0 && width != 0 && width > b.maxWidth) || (b.maxHeight != 0 && height != 0 && height > b.maxHeight))
  }

  predicate IsImageSource(src: string) { StartsWith(src, "http") || StartsWith(src, "data:image") }

  /** What the smart fallback keeps of every `<img>` after a timed-out wait. */
  predicate FallbackKeeps(src: string, thumb: string)
  {
    src != "" && !Contains(src, "google.com") && !Contains(src, "gstatic.com") &&
    !StartsWith(src, "data:") && src != thumb && StartsWith(src, "http")
  }

  function FallbackImgs(imgs: seq<Img>, thumb: string): (r: seq<Img>)
    ensures forall i :: 0 <= i < |r| ==> r[i] in imgs && FallbackKeeps(r[i].src, thumb)
    ensures forall i :: 0 <= i < |imgs| && FallbackKeeps(imgs[i].src, thumb) ==> imgs[i] in r
    decreases |imgs|
  {
    if imgs == [] then []
    else
      var rest := FallbackImgs(imgs[1..], thumb);
      assert forall i :: 1 <= i < |imgs| ==> imgs[i] == imgs[1..][i - 1];
      if FallbackKeeps(imgs[0].src, thumb) then [imgs[0]] + rest else rest
  }

  function PreviewImgs(c: Card): seq<Img>
  {
    match c.preview
    case Located(imgs) => imgs
    case TimedOut(imgs) => FallbackImgs(imgs, c.thumb)
  }

  predicate ExternalUrl(u: string)
  {
    !Contains(u, "google.com") && !Contains(u, "gstatic.com") && !Contains(u, "googleusercontent.com")
  }

  /** A URL on one of Google's own hosts is never taken from the page source. */
  lemma ExternalUrlRejects(a: string, host: string, b: string)
    requires host == "google.com" || host == "gstatic.com" || host == "googleusercontent.com"
    ensures !ExternalUrl(a + host + b)
  {
    ContainsInside(a, host, b);
  }

  /** The page-source URLs worth taking: external, neither seen nor queued, in order. */
  function FreshPageUrls(urls: seq<string>, seen: set<string>, queued: set<string>): (r: seq<string>)
    ensures forall i :: 0 <= i < |r| ==> r[i] in urls && ExternalUrl(r[i]) && r[i] !in seen && r[i] !in queued
    ensures forall i :: 0 <= i < |urls| && ExternalUrl(urls[i]) && urls[i] !in seen && urls[i] !in queued ==> urls[i] in r
    decreases |urls|
  {
    if urls == [] then []
    else
      var rest := FreshPageUrls(urls[1..], seen, queued);
      assert forall i :: 1 <= i < |urls| ==> urls[i] == urls[1..][i - 1];
      if ExternalUrl(urls[0]) && urls[0] !in seen && urls[0] !in queued then [urls[0]] + rest else rest
  }

  /** The cards of the first selector that finds any. */
  function FirstCards(hits: seq<seq<Card>>): (r: seq<Card>)
    ensures r != [] ==> r in hits
    ensures r == [] <==> forall i :: 0 <= i < |hits| ==> hits[i] == []
    decreases |hits|
  {
    if hits == [] then []
    else if hits[0] != [] then hits[0]
    else
      var r := FirstCards(hits[1..]);
      assert forall i :: 1 <= i < |hits| ==> hits[i] == hits[1..][i - 1];
      r
  }

  // ---------------------------------------------------------------------------
  // Steps
  // ---------------------------------------------------------------------------

  function Polled(sc: Scan): Scan { sc.(polls := sc.polls + 1) }

  /**
    From `sc` to `r` every newly collected image went through one `save_found_image`:
    `saved` grew by at most their number, `saved + skipped` by at least.
  */
  predicate Accounted(sc: Scan, r: Scan)
  {
    |sc.collected| <= |r.collected| && sc.store.saved <= r.store.saved &&
    r.store.saved - sc.store.saved <= |r.collected| - |sc.collected| <=
      (r.store.saved + r.store.skipped) - (sc.store.saved + sc.store.skipped)
  }

  /** The name of a high-resolution image: hashed for data URIs, else the path's last part. */
  function ImgName(env: Env, src: string): string
  {
    if StartsWith(src, "data:image") then "data_image_" + env.digest(src) + ".jpg"
    else Basename(UrlSplit(src).path)
  }

  /** A data URI is named from its digest; any other source by a base name without `/`. */
  lemma ImgNameShape(env: Env, src: string)
    ensures StartsWith(src, "data:image") ==> StartsWith(ImgName(env, src), "data_image_") && EndsWith(ImgName(env, src), ".jpg")
    ensures !StartsWith(src, "data:image") ==> '/' !in ImgName(env, src)
  {
  }

  /** Append to `collected` (and `queued_urls` when asked) and call `save_found_image`. */
  function Collect(sc: Scan, st: Settings, url: string, name: string, o: Outcome, queue: bool): (r: Scan)
    ensures r.collected == sc.collected + [(url, name)]
    ensures r.queued == (if queue then sc.queued + {url} else sc.queued)
    ensures r.processed == sc.processed && r.misses == sc.misses && r.lastHeight == sc.lastHeight && r.polls == sc.polls
    ensures r.store == GoogleSave(sc.store, st, |sc.collected| + 1, url, name, o)
  {
    var collected := sc.collected + [(url, name)];
    sc.(collected := collected, queued := if queue then sc.queued + {url} else sc.queued,
        store := GoogleSave(sc.store, st, |collected|, url, name, o))
  }

  /** A preview image the loop accepts: an `http` or `data:image` source of acceptable size. */
  predicate Acceptable(env: Env, img: Img)
  {
    IsImageSource(img.src) && DimensionsAccepted(env.bounds, img.width, img.height)
  }

  /** The `n` stop polls from poll `p` on all find the flag clear. */
  predicate NoStopFor(env: Env, p: nat, n: nat)
  {
    forall m :: p <= m < p + n ==> !env.stop(m)
  }

  /**
    The image loop from number `i` accepts an image when some image is acceptable and no
    stop poll up to and including its own finds the flag set (the first poll is `p`).
  */
  predicate PreviewAccepts(env: Env, imgs: seq<Img>, i: nat, p: nat)
  {
    exists k :: i <= k < |imgs| && Acceptable(env, imgs[k]) && NoStopFor(env, p, k - i + 1)
  }

  /** Whether a card, handled without a fault from state `sc`, is accepted: a preview image, a page-source URL or its thumbnail. */
  predicate CardAccepts(sc: Scan, env: Env, c: Card)
  {
    PreviewAccepts(env, PreviewImgs(c), 0, sc.polls) || FreshPageUrls(c.pageUrls, sc.store.seen, sc.queued) != [] ||
    c.thumb != ""
  }

  /** The preview images from number `i` on; the flag says whether one was accepted. */
  function ImgsFrom(sc: Scan, st: Settings, env: Env, imgs: seq<Img>, i: nat, o: Outcome): (r: (Scan, bool))
    requires i <= |imgs|
    ensures Accounted(sc, r.0)
    ensures r.0.processed == sc.processed && r.0.misses == sc.misses && r.0.lastHeight == sc.lastHeight
    ensures sc.polls <= r.0.polls
    ensures r.0.collected == sc.collected || (r.1 && |r.0.collected| == |sc.collected| + 1)
    ensures !r.1 ==> r.0 == sc.(polls := r.0.polls)
    decreases |imgs| - i
  {
    if i == |imgs| then (sc, false)
    else if env.stop(sc.polls) then (Polled(sc), false)
    else
      var img := imgs[i];
      if !IsImageSource(img.src) || !DimensionsAccepted(env.bounds, img.width, img.height) then
        ImgsFrom(Polled(sc), st, env, imgs, i + 1, o)
      else if img.src in sc.store.seen || img.src in sc.queued then (Polled(sc), true)
      else (Collect(Polled(sc), st, img.src, ImgName(env, img.src), o, true), true)
  }

  /** The flag of the image loop is exactly `PreviewAccepts`. */
  lemma {:induction false} ImgsFromAccepts(sc: Scan, st: Settings, env: Env, imgs: seq<Img>, i: nat, o: Outcome)
    requires i <= |imgs|
    ensures ImgsFrom(sc, st, env, imgs, i, o).1 <==> PreviewAccepts(env, imgs, i, sc.polls)
    decreases |imgs| - i
  {
    if i < |imgs| {
      if env.stop(sc.polls) {
        StopRejects(env, imgs, i, sc.polls);
      } else if !Acceptable(env, imgs[i]) {
        ImgsFromAccepts(Polled(sc), st, env, imgs, i + 1, o);
        SkipKeepsAcceptance(env, imgs, i, sc.polls);
      } else {
        AcceptsHere(env, imgs, i, sc.polls);
      }
    }
  }

  /** A stop found by the first poll leaves nothing accepted. */
  lemma StopRejects(env: Env, imgs: seq<Img>, i: nat, p: nat)
    requires env.stop(p)
    ensures !PreviewAccepts(env, imgs, i, p)
  {
    forall k | i <= k < |imgs| && Acceptable(env, imgs[k])
      ensures !NoStopFor(env, p, k - i + 1)
    {
      assert p <= p < p + (k - i + 1);
    }
  }

  /** An image that is not acceptable, polled without a stop, hands acceptance on to the next. */
  lemma SkipKeepsAcceptance(env: Env, imgs: seq<Img>, i: nat, p: nat)
    requires i < |imgs| && !env.stop(p) && !Acceptable(env, imgs[i])
    ensures PreviewAccepts(env, imgs, i, p) <==> PreviewAccepts(env, imgs, i + 1, p + 1)
  {
    if PreviewAccepts(env, imgs, i, p) {
      var k :| i <= k < |imgs| && Acceptable(env, imgs[k]) && NoStopFor(env, p, k - i + 1);
      assert k != i;
      assert NoStopFor(env, p + 1, k - (i + 1) + 1);
    }
    if PreviewAccepts(env, imgs, i + 1, p + 1) {
      var k :| i + 1 <= k < |imgs| && Acceptable(env, imgs[k]) && NoStopFor(env, p + 1, k - (i + 1) + 1);
      assert NoStopFor(env, p, k - i + 1);
    }
  }

  /** An acceptable image polled without a stop is accepted. */
  lemma AcceptsHere(env: Env, imgs: seq<Img>, i: nat, p: nat)
    requires i < |imgs| && !env.stop(p) && Acceptable(env, imgs[i])
    ensures PreviewAccepts(env, imgs, i, p)
  {
    assert NoStopFor(env, p, i - i + 1);
  }

  /** The page-source fallback. */
  function PageData(sc: Scan, st: Settings, c: Card): (r: (Scan, bool))
    ensures Accounted(sc, r.0)
    ensures r.1 <==> FreshPageUrls(c.pageUrls, sc.store.seen, sc.queued) != []
    ensures !r.1 ==> r.0 == sc
    ensures r.1 ==> |r.0.collected| == |sc.collected| + 1 && r.0.collected[..|sc.collected|] == sc.collected
    ensures r.1 ==> var url := r.0.collected[|sc.collected|].0;
              url in c.pageUrls && ExternalUrl(url) && url !in sc.store.seen && url !in sc.queued
  {
    var urls := FreshPageUrls(c.pageUrls, sc.store.seen, sc.queued);
    if urls == [] then (sc, false)
    else
      var src := urls[0];
      var base := Basename(UrlSplit(src).path);
      var name := if base != "" then base else "google_img_" + NatToString(|sc.collected|) + ".jpg";
      (Collect(sc, st, src, name, c.outcome, true), true)
  }

  /** The thumbnail fallback; the thumbnail is not queued. */
  function Thumbnail(sc: Scan, st: Settings, key: string, c: Card): (r: (Scan, bool))
    ensures Accounted(sc, r.0)
    ensures r.1 <==> c.thumb != ""
    ensures !r.1 ==> r.0 == sc
    ensures r.1 ==> r.0 == Collect(sc, st, c.thumb, "thumbnail_" + key + ".jpg", c.outcome, false)
  {
    if c.thumb == "" then (sc, false)
    else (Collect(sc, st, c.thumb, "thumbnail_" + key + ".jpg", c.outcome, false), true)
  }

  /** One card past the stop and limit checks. */
  function CardBody(sc: Scan, st: Settings, env: Env, c: Card): (r: Scan)
    ensures Accounted(sc, r)
    ensures CardKey(c) in sc.processed ==> r == sc
    ensures CardKey(c) !in sc.processed ==> r.processed == sc.processed + {CardKey(c)}
    ensures r.collected == sc.collected || (CardKey(c) !in sc.processed && |r.collected| == |sc.collected| + 1)
    ensures r.collected != sc.collected ==> r.misses == 0
    ensures CardKey(c) !in sc.processed && c.fault.Some? ==>
              r == sc.(processed := r.processed, store := sc.store.(errors := sc.store.errors + [c.fault.value]))
    ensures CardKey(c) !in sc.processed && c.fault.None? ==>
              r.misses == if CardAccepts(sc, env, c) then 0 else sc.misses + 1
    ensures r.lastHeight == sc.lastHeight && sc.polls <= r.polls
  {
    var key := CardKey(c);
    if key in sc.processed then sc
    else
      var sc1 := sc.(processed := sc.processed + {key});
      match c.fault
      case Some(message) => sc1.(store := sc1.store.(errors := sc1.store.errors + [message]))
      case None =>
        ImgsFromAccepts(sc1, st, env, PreviewImgs(c), 0, c.outcome);
        var (sc2, a1) := ImgsFrom(sc1, st, env, PreviewImgs(c), 0, c.outcome);
        var (sc3, a2) := if a1 then (sc2, true) else PageData(sc2, st, c);
        var (sc4, a3) := if a2 then (sc3, true) else Thumbnail(sc3, st, key, c);
        sc4.(misses := if a3 then 0 else sc4.misses + 1)
  }

  /** The card loop from card `j` on: a stop poll and the limit check before each card. */
  function CardsFrom(sc: Scan, st: Settings, env: Env, cards: seq<Card>, j: nat): (r: Scan)
    requires j <= |cards|
    ensures Accounted(sc, r)
    ensures |sc.collected| <= |sc.processed| ==> |r.collected| <= |r.processed|
    ensures |sc.collected| <= Max0(env.limit) ==> |r.collected| <= Max0(env.limit)
    ensures sc.processed <= r.processed && |sc.collected| <= |r.collected|
    ensures r.lastHeight == sc.lastHeight && sc.polls <= r.polls
    decreases |cards| - j
  {
    if j == |cards| then sc
    else if env.stop(sc.polls) || |sc.collected| >= env.limit then Polled(sc)
    else
      var next := CardBody(Polled(sc), st, env, cards[j]);
      CardsFrom(next, st, env, cards, j + 1)
  }

  function Max0(n: int): nat { if n > 0 then n else 0 }

  /** One round of the `while` loop past its guard and stop poll. */
  function RoundBody(sc: Scan, st: Settings, env: Env, round: Round): (r: Scan)
    ensures Accounted(sc, r)
    ensures FirstCards(round.hits) == [] ==> r == sc.(misses := sc.misses + 1)
    ensures FirstCards(round.hits) != [] && round.height == sc.lastHeight ==>
              var after := CardsFrom(sc, st, env, FirstCards(round.hits), 0);
              r == after.(misses := after.misses + 1) && r.lastHeight == sc.lastHeight
    ensures FirstCards(round.hits) != [] && round.height != sc.lastHeight ==>
              r == CardsFrom(sc, st, env, FirstCards(round.hits), 0).(lastHeight := round.height)
    ensures sc.processed <= r.processed && |sc.collected| <= |r.collected|
    ensures |sc.collected| <= |sc.processed| ==> |r.collected| <= |r.processed|
    ensures |sc.collected| <= Max0(env.limit) ==> |r.collected| <= Max0(env.limit)
  {
    var cards := FirstCards(round.hits);
    if cards == [] then sc.(misses := sc.misses + 1)
    else
      var sc1 := CardsFrom(sc, st, env, cards, 0);
      if round.height == sc1.lastHeight then sc1.(misses := sc1.misses + 1)
      else sc1.(lastHeight := round.height)
  }

  /** The `while` loop from round `k` on, and why it ended. */
  function RoundsFrom(sc: Scan, st: Settings, env: Env, rounds: seq<Round>, k: nat): (r: (Scan, Exit))
    requires k <= |rounds|
    ensures Accounted(sc, r.0)
    ensures r.1 == Filled ==> |r.0.collected| >= env.limit
    ensures r.1 == Missed ==> r.0.misses >= env.maxMissed && |r.0.collected| < env.limit
    ensures r.1 == Stopped ==> r.0.polls > 0 && env.stop(r.0.polls - 1)
    ensures r.1 in {Stopped, Exhausted} ==> |r.0.collected| < env.limit && r.0.misses < env.maxMissed
    ensures |sc.collected| <= |sc.processed| ==> |r.0.collected| <= |r.0.processed|
    ensures |sc.collected| <= Max0(env.limit) ==> |r.0.collected| <= Max0(env.limit)
    decreases |rounds| - k
  {
    if |sc.collected| >= env.limit then (sc, Filled)
    else if sc.misses >= env.maxMissed then (sc, Missed)
    else if env.stop(sc.polls) then (Polled(sc), Stopped)
    else if k == |rounds| then (Polled(sc), Exhausted)
    else RoundsFrom(RoundBody(Polled(sc), st, env, rounds[k]), st, env, rounds, k + 1)
  }

  /** The card loop of `scrape_with_google` from its initial state. */
  function CardLoop(store: Store, st: Settings, env: Env, rounds: seq<Round>): (r: (Scan, Exit))
    ensures |r.0.collected| <= Max0(env.limit)
    ensures |r.0.collected| <= |r.0.processed|
    ensures r.0.store.saved <= store.saved + Max0(env.limit)
    ensures r.0.store.saved + r.0.store.skipped >= store.saved + store.skipped + |r.0.collected|
  {
    RoundsFrom(Scan(store, [], {}, {}, 0, 0, 0), st, env, rounds, 0)
  }

  /** A run of rounds without cards ends the loop through `max_missed`, collecting nothing. */
  lemma {:induction false} EmptyRoundsEndInMisses(sc: Scan, st: Settings, env: Env, rounds: seq<Round>, k: nat)
    requires k <= |rounds|
    requires forall i :: k <= i < |rounds| ==> FirstCards(rounds[i].hits) == []
    requires forall p :: sc.polls <= p ==> !env.stop(p)
    requires |sc.collected| < env.limit
    requires sc.misses + (|rounds| - k) >= env.maxMissed
    ensures RoundsFrom(sc, st, env, rounds, k).1 == Missed
    ensures RoundsFrom(sc, st, env, rounds, k).0.collected == sc.collected
    decreases |rounds| - k
  {
    if sc.misses < env.maxMissed {
      var next := RoundBody(Polled(sc), st, env, rounds[k]);
      assert next == Polled(sc).(misses := sc.misses + 1);
      EmptyRoundsEndInMisses(next, st, env, rounds, k + 1);
    }
  }

  /**
    The locals of the card loop (`collected`, `queued_urls`, `processed_cards`, `misses`,
    `last_height`) around the download state `save_found_image` updates.
  */
  class CardScan {
    const downloads: Downloader
    var collected: seq<(string, string)>
    var queued: set<string>
    var processed: set<string>
    var misses: nat
    var lastHeight: int
    var polls: nat

    function State(): Scan
      reads this, downloads
    {
      Scan(downloads.State(), collected, queued, processed, misses, lastHeight, polls)
    }

    constructor (downloads: Downloader)
      ensures this.downloads == downloads
      ensures State() == Scan(downloads.State(), [], {}, {}, 0, 0, 0)
    {
      this.downloads := downloads;
      collected := [];
      queued := {};
      processed := {};
      misses := 0;
      lastHeight := 0;
      polls := 0;
    }

    /** Read the stop flag once. */
    method Poll(env: Env) returns (stopped: bool)
      modifies this
      ensures stopped == env.stop(old(polls))
      ensures State() == Polled(old(State()))
    {
      stopped := env.stop(polls);
      polls := polls + 1;
    }

    /** Queue one image and hand it to `save_found_image`. */
    method Save(url: string, name: string, o: Outcome, queue: bool)
      modifies this, downloads
      ensures State() == Collect(old(State()), downloads.settings, url, name, o, queue)
    {
      collected := collected + [(url, name)];
      if queue {
        queued := queued + {url};
      }
      downloads.SaveGoogle(|collected|, url, name, o);
    }

    /** The loop over the preview images. */
    method ScanImgs(env: Env, imgs: seq<Img>, o: Outcome) returns (accepted: bool)
      modifies this, downloads
      ensures (State(), accepted) == ImgsFrom(old(State()), downloads.settings, env, imgs, 0, o)
    {
      var i := 0;
      while i < |imgs|
        invariant i <= |imgs|
        invariant ImgsFrom(State(), downloads.settings, env, imgs, i, o) == ImgsFrom(old(State()), downloads.settings, env, imgs, 0, o)
        decreases |imgs| - i
      {
        var stopped := Poll(env);
        if stopped {
          return false;
        }
        var img := imgs[i];
        if IsImageSource(img.src) && DimensionsAccepted(env.bounds, img.width, img.height) {
          if img.src in downloads.seen || img.src in queued {
            return true;
          }
          Save(img.src, ImgName(env, img.src), o, true);
          return true;
        }
        i := i + 1;
      }
      return false;
    }

    /** The page-source fallback. */
    method TryPageData(c: Card) returns (accepted: bool)
      modifies this, downloads
      ensures (State(), accepted) == PageData(old(State()), downloads.settings, c)
    {
      var urls := FreshPageUrls(c.pageUrls, downloads.seen, queued);
      if urls == [] {
        return false;
      }
      var src := urls[0];
      var base := Basename(UrlSplit(src).path);
      var name := if base != "" then base else "google_img_" + NatToString(|collected|) + ".jpg";
      Save(src, name, c.outcome, true);
      return true;
    }

    /** The thumbnail fallback. */
    method TryThumbnail(key: string, c: Card) returns (accepted: bool)
      modifies this, downloads
      ensures (State(), accepted) == Thumbnail(old(State()), downloads.settings, key, c)
    {
      if c.thumb == "" {
        return false;
      }
      Save(c.thumb, "thumbnail_" + key + ".jpg", c.outcome, false);
      return true;
    }

    /** One card past the stop and limit checks. */
    method ScanCard(env: Env, c: Card)
      modifies this, downloads
      ensures State() == CardBody(old(State()), downloads.settings, env, c)
    {
      var key := CardKey(c);
      if key in processed {
        return;
      }
      processed := processed + {key};
      if c.fault.Some? {
        downloads.errors := downloads.errors + [c.fault.value];
        return;
      }
      var accepted := ScanImgs(env, PreviewImgs(c), c.outcome);
      if !accepted {
        accepted := TryPageData(c);
      }
      if !accepted {
        accepted := TryThumbnail(key, c);
      }
      misses := if accepted then 0 else misses + 1;
    }

    /** The loop over the cards of one round. */
    method ScanCards(env: Env, cards: seq<Card>)
      modifies this, downloads
      ensures State() == CardsFrom(old(State()), downloads.settings, env, cards, 0)
    {
      var j := 0;
      while j < |cards|
        invariant j <= |cards|
        invariant CardsFrom(State(), downloads.settings, env, cards, j) == CardsFrom(old(State()), downloads.settings, env, cards, 0)
        decreases |cards| - j
      {
        var stopped := Poll(env);
        if stopped || |collected| >= env.limit {
          return;
        }
        ScanCard(env, cards[j]);
        j := j + 1;
      }
    }

    /** One round: the cards, then the scroll and the height check. */
    method ScanRound(env: Env, round: Round)
      modifies this, downloads
      ensures State() == RoundBody(old(State()), downloads.settings, env, round)
    {
      var cards := FirstCards(round.hits);
      if cards == [] {
        misses := misses + 1;
        return;
      }
      ScanCards(env, cards);
      if round.height == lastHeight {
        misses := misses + 1;
      } else {
        lastHeight := round.height;
      }
    }

    /** The `while` loop of the card phase; `rounds` is what the page offers, in order. */
    method Run(env: Env, rounds: seq<Round>) returns (exit: Exit)
      modifies this, downloads
      ensures (State(), exit) == RoundsFrom(old(State()), downloads.settings, env, rounds, 0)
    {
      var k := 0;
      while |collected| < env.limit && misses < env.maxMissed
        invariant k <= |rounds|
        invariant RoundsFrom(State(), downloads.settings, env, rounds, k) == RoundsFrom(old(State()), downloads.settings, env, rounds, 0)
        decreases |rounds| - k
      {
        var stopped := Poll(env);
        if stopped {
          return Stopped;
        }
        if k == |rounds| {
          return Exhausted;
        }
        ScanRound(env, rounds[k]);
        k := k + 1;
      }
      exit := if |collected| >= env.limit then Filled else Missed;
    }
  }

  /**
    The card phase of `scrape_with_google` from the destination's files and manifest to
    the counts of its `ScrapeResult`: never more images saved than requested. Any
    `settings` are accepted, although the source raises before scraping when
    `convert_webp` is asked for without Pillow (image_scraper_multitool.py:482-483);
    that early raise is not part of this method.
  */
  method ScrapeGoogle(files: set<string>, manifest: Option<string>, settings: Settings,
                      env: Env, rounds: seq<Round>)
    returns (saved: nat, skipped: nat, errors: seq<string>, exit: Exit)
    ensures var r := CardLoop(Opened(files, manifest), settings, env, rounds);
      saved == r.0.store.saved && skipped == r.0.store.skipped && errors == r.0.store.errors && exit == r.1
    ensures saved <= Max0(env.limit)
  {
    var downloads := new Downloader(files, manifest, settings);
    var scan := new CardScan(downloads);
    exit := scan.Run(env, rounds);
    saved, skipped, errors := downloads.saved, downloads.skipped, downloads.errors;
  }
}
