/**
  `GenericPageScraper.scrape`: the breadth-first crawl of one site from a seed URL,
  collecting `(src, page)` pairs, then the download of the pairs sorted by `src`.
  The site is a finite map from page URLs to what the browser finds there.
*/
module Crawl {
  import opened Wrappers
  import opened Strings
  import opened Paths
  import opened Downloads
  import opened Downloaders

  /** A seed without an `http://` or `https://` scheme gets `https://`. */
  function NormalizeSeed(url: string): (r: string)
    ensures StartsWith(r, "http://") || StartsWith(r, "https://")
    ensures StartsWith(url, "http://") || StartsWith(url, "https://") ==> r == url
    ensures !(StartsWith(url, "http://") || StartsWith(url, "https://")) ==> r == "https://" + url
  {
    if StartsWith(url, "http://") || StartsWith(url, "https://") then url
    else
      assert ("https://" + url)[..8] == "https://";
      "https://" + url
  }

  lemma NormalizeSeedIdempotent(url: string)
    ensures NormalizeSeed(NormalizeSeed(url)) == NormalizeSeed(url)
  {
  }

  // ---------------------------------------------------------------------------
  // Image sources
  // ---------------------------------------------------------------------------

  /** An `<img>`: `src`, `data-src`, `data-original` and `srcset`; `""` when missing. */
  datatype ImgTag = ImgTag(src: string, dataSrc: string, dataOriginal: string, srcset: string)

  /** The text before the first space. */
  function FirstWord(s: string): (r: string)
    ensures ' ' !in r
    ensures ' ' !in s ==> r == s
    ensures StartsWith(s, r)
  {
    var i := FindChar(s, ' ');
    if i < 0 then s else s[..i]
  }

  /** The URL of the last `srcset` candidate: after the last comma, stripped, before the first space. */
  function SrcsetLast(srcset: string): (r: string)
    ensures ' ' !in r && ',' !in r
  {
    var part := srcset[RFindChar(srcset, ',') + 1..];
    NotInStrip(part, ',');
    var stripped := Strip(part);
    var r := FirstWord(stripped);
    NotInSlice(stripped, ',', 0, |r|);
    assert r == stripped[0..|r|];
    r
  }

  /** `src`, else `data-src`, else `data-original`, else the last `srcset` candidate. */
  function ImageSource(t: ImgTag): (r: string)
    ensures t.src != "" ==> r == t.src
    ensures t.src == "" && t.dataSrc != "" ==> r == t.dataSrc
    ensures t.src == "" && t.dataSrc == "" && t.dataOriginal != "" ==> r == t.dataOriginal
    ensures t.src == "" && t.dataSrc == "" && t.dataOriginal == "" ==> r == (if t.srcset == "" then "" else SrcsetLast(t.srcset))
  {
    var first := if t.src != "" then t.src else if t.dataSrc != "" then t.dataSrc else t.dataOriginal;
    if first == "" && t.srcset != "" then SrcsetLast(t.srcset) else first
  }

  predicate Harvestable(src: string) { src != "" && (StartsWith(src, "http") || StartsWith(src, "data:image")) }

  function Sources(tags: seq<ImgTag>): (r: seq<string>)
    ensures |r| == |tags| && forall k :: 0 <= k < |tags| ==> r[k] == ImageSource(tags[k])
  {
    seq(|tags|, k requires 0 <= k < |tags| => ImageSource(tags[k]))
  }

  // ---------------------------------------------------------------------------
  // Links
  // ---------------------------------------------------------------------------

  const IgnoredWords: seq<string> := ["login", "signup", "signin", "register", "help", "about", "policy"]

  /** Whether `s` contains one of `words`. */
  predicate MentionsAny(s: string, words: seq<string>)
    decreases |words|
  {
    words != [] && (Contains(s, words[0]) || MentionsAny(s, words[1..]))
  }

  /** Containing any one of the words is enough. */
  lemma {:induction false} MentionsAnyMember(s: string, words: seq<string>, w: string)
    requires w in words && Contains(s, w)
    ensures MentionsAny(s, words)
    decreases |words|
  {
    if words[0] != w {
      assert w in words[1..];
      MentionsAnyMember(s, words[1..], w);
    }
  }

  /** And it is necessary. */
  lemma {:induction false} MentionsAnyWitness(s: string, words: seq<string>) returns (w: string)
    requires MentionsAny(s, words)
    ensures w in words && Contains(s, w)
    decreases |words|
  {
    if Contains(s, words[0]) {
      w := words[0];
    } else {
      w := MentionsAnyWitness(s, words[1..]);
    }
  }

  /** A link is followed when it is on the seed's host and mentions none of the `ignored` words. */
  predicate LinkAllowed(href: string, base: string, ignored: seq<string>)
  {
    href != "" && UrlSplit(href).netloc == base && !MentionsAny(Lower(href), ignored)
  }

  /** A link whose lower-cased text contains an ignored word is never followed. */
  lemma IgnoredWordRejects(href: string, base: string, w: string)
    requires w in IgnoredWords && Contains(Lower(href), w)
    ensures !LinkAllowed(href, base, IgnoredWords)
  {
    MentionsAnyMember(Lower(href), IgnoredWords, w);
  }

  /** The link filter, word by word: on the seed's host, non-empty, and free of every ignored word. */
  lemma LinkAllowedExactly(href: string, base: string, ignored: seq<string>)
    ensures LinkAllowed(href, base, ignored) <==>
              href != "" && UrlSplit(href).netloc == base && forall w :: w in ignored ==> !Contains(Lower(href), w)
  {
    if MentionsAny(Lower(href), ignored) {
      var w := MentionsAnyWitness(Lower(href), ignored);
    }
    forall w | w in ignored && Contains(Lower(href), w)
      ensures MentionsAny(Lower(href), ignored)
    {
      MentionsAnyMember(Lower(href), ignored, w);
    }
  }

  // ---------------------------------------------------------------------------
  // The crawl
  // ---------------------------------------------------------------------------

  /** A page: the exception `driver.get` or the harvest raises, or its images and links. */
  datatype Page = Page(fault: Option<string>, imgs: seq<ImgTag>, links: seq<string>)

  /** The pages of the site, and the error a URL outside them fails with. */
  datatype Site = Site(pages: map<string, Page>, unreachable: string -> string)

  /**
    The crawl's inputs: the normalized seed, `recursion_depth`, the site, the stop flag
    per poll, and the link filter (`LinkAllowed` for the seed's host, see `Env`).
  */
  datatype CrawlEnv = CrawlEnv(seed: string, depth: int, site: Site, stop: nat -> bool, follows: string -> bool)

  /** The loop state; `loads` lists the pages handed to the browser, in order. */
  datatype Crawl = Crawl(queue: seq<(string, int)>, visited: set<string>,
                         images: set<(string, string)>, errors: seq<string>, polls: nat, loads: seq<string>)

  function Max0(n: int): nat { if n > 0 then n else 0 }

  /** Every URL the crawl can ever queue: the seed and the links of the known pages. */
  function Reach(env: CrawlEnv): set<string>
  {
    {env.seed} + set u, l | u in env.site.pages && l in env.site.pages[u].links :: l
  }

  /** Only the seed and followed links are ever queued or visited. */
  predicate Admitted(env: CrawlEnv, u: string) { u == env.seed || env.follows(u) }

  predicate Pending(env: CrawlEnv, e: (string, int))
  {
    e.0 in Reach(env) && Admitted(env, e.0) && 0 <= e.1 <= Max0(env.depth)
  }

  /** A collected pair comes from a visited, known page, and is a harvestable source of it. */
  predicate Found(env: CrawlEnv, visited: set<string>, x: (string, string))
  {
    x.1 in visited && x.1 in env.site.pages && Harvestable(x.0) && x.0 in Sources(env.site.pages[x.1].imgs)
  }

  predicate Good(env: CrawlEnv, c: Crawl)
  {
    (forall k :: 0 <= k < |c.queue| ==> Pending(env, c.queue[k])) &&
    (forall u :: u in c.visited ==> Admitted(env, u)) &&
    (forall x :: x in c.images ==> Found(env, c.visited, x)) &&
    (forall k :: 0 <= k < |c.errors| ==> StartsWith(c.errors[k], "Crawl error "))
  }

  function Polled(c: Crawl): Crawl { c.(polls := c.polls + 1) }

  /** The image loop of one page from tag `i` on, with a stop poll before each tag. */
  function HarvestImgs(c: Crawl, env: CrawlEnv, tags: seq<ImgTag>, i: nat, page: string): (r: Crawl)
    requires i <= |tags|
    ensures r.queue == c.queue && r.visited == c.visited && r.errors == c.errors && r.loads == c.loads
    ensures c.images <= r.images && c.polls <= r.polls
    ensures forall x :: x in r.images && x !in c.images ==> x.1 == page && Harvestable(x.0) && x.0 in Sources(tags)
    ensures (forall p :: c.polls <= p < c.polls + (|tags| - i) ==> !env.stop(p)) ==>
              forall k :: i <= k < |tags| && Harvestable(ImageSource(tags[k])) ==> (ImageSource(tags[k]), page) in r.images
    decreases |tags| - i
  {
    if i == |tags| then c
    else if env.stop(c.polls) then Polled(c)
    else
      var src := ImageSource(tags[i]);
      var next := if Harvestable(src) then Polled(c).(images := c.images + {(src, page)}) else Polled(c);
      HarvestImgs(next, env, tags, i + 1, page)
  }

  /** What the link loop may queue: a followed link of the page, one level deeper, not yet visited. */
  predicate Enqueued(env: CrawlEnv, links: seq<string>, depth: int, visited: set<string>, e: (string, int))
  {
    e.1 == depth + 1 && e.0 in links && env.follows(e.0) && e.0 !in visited
  }

  /** The link loop of one page from link `i` on, with a stop poll before each link. */
  function HarvestLinks(c: Crawl, env: CrawlEnv, links: seq<string>, i: nat, depth: int): (r: Crawl)
    requires i <= |links|
    ensures r.visited == c.visited && r.images == c.images && r.errors == c.errors && c.polls <= r.polls
    ensures r.loads == c.loads
    ensures |c.queue| <= |r.queue| && r.queue[..|c.queue|] == c.queue
    ensures forall k :: |c.queue| <= k < |r.queue| ==> Enqueued(env, links, depth, c.visited, r.queue[k])
    decreases |links| - i
  {
    if i == |links| then c
    else if env.stop(c.polls) then Polled(c)
    else if env.follows(links[i]) && links[i] !in c.visited then
      var next := Polled(c).(queue := c.queue + [(links[i], depth + 1)]);
      var r := HarvestLinks(next, env, links, i + 1, depth);
      assert r.queue[..|c.queue|] == r.queue[..|next.queue|][..|c.queue|];
      assert r.queue[|c.queue|] == r.queue[..|next.queue|][|c.queue|] == (links[i], depth + 1);
      assert Enqueued(env, links, depth, c.visited, r.queue[|c.queue|]);
      r
    else HarvestLinks(Polled(c), env, links, i + 1, depth)
  }

  lemma ErrorKeepsGood(env: CrawlEnv, c: Crawl, url: string, e: string)
    requires Good(env, c)
    ensures Good(env, c.(errors := c.errors + ["Crawl error " + url + ": " + e]))
  {
    var message := "Crawl error " + url + ": " + e;
    assert message[..12] == "Crawl error ";
    var r := c.(errors := c.errors + [message]);
    assert forall k :: 0 <= k < |r.errors| ==> r.errors[k] == if k < |c.errors| then c.errors[k] else message;
  }

  lemma ImgsKeepGood(env: CrawlEnv, c: Crawl, url: string)
    requires Good(env, c) && url in c.visited && url in env.site.pages
    ensures Good(env, HarvestImgs(c, env, env.site.pages[url].imgs, 0, url))
  {
    var r := HarvestImgs(c, env, env.site.pages[url].imgs, 0, url);
    forall x | x in r.images
      ensures Found(env, r.visited, x)
    {
      if x !in c.images {
        assert x.1 == url;
      }
    }
  }

  lemma LinksKeepGood(env: CrawlEnv, c: Crawl, url: string, depth: int)
    requires Good(env, c) && url in env.site.pages && 0 <= depth < env.depth
    ensures Good(env, HarvestLinks(c, env, env.site.pages[url].links, 0, depth))
  {
    var links := env.site.pages[url].links;
    var r := HarvestLinks(c, env, links, 0, depth);
    forall k | 0 <= k < |r.queue|
      ensures Pending(env, r.queue[k])
    {
      if k < |c.queue| {
        assert r.queue[k] == r.queue[..|c.queue|][k] == c.queue[k];
      } else {
        assert Enqueued(env, links, depth, c.visited, r.queue[k]);
        var l := r.queue[k].0;
        assert url in env.site.pages && l in env.site.pages[url].links;
        assert l in Reach(env);
      }
    }
  }

  /** One popped, not yet visited page: load it, harvest its images, then its links if shallow enough. */
  function Visit(c: Crawl, env: CrawlEnv, url: string, depth: int): (r: Crawl)
    requires Good(env, c) && url in c.visited && 0 <= depth <= Max0(env.depth)
    ensures Good(env, r) && r.visited == c.visited && r.loads == c.loads && c.images <= r.images
    ensures |c.errors| <= |r.errors| && r.errors[..|c.errors|] == c.errors
    ensures url !in env.site.pages ==> r == c.(errors := c.errors + ["Crawl error " + url + ": " + env.site.unreachable(url)])
    ensures url in env.site.pages && env.site.pages[url].fault.Some? ==>
              r == c.(errors := c.errors + ["Crawl error " + url + ": " + env.site.pages[url].fault.value])
    ensures depth >= env.depth ==> r.queue == c.queue
    ensures url in env.site.pages && env.site.pages[url].fault.None? ==>
              r.images == HarvestImgs(c, env, env.site.pages[url].imgs, 0, url).images
  {
    if url !in env.site.pages then
      ErrorKeepsGood(env, c, url, env.site.unreachable(url));
      c.(errors := c.errors + ["Crawl error " + url + ": " + env.site.unreachable(url)])
    else
      var page := env.site.pages[url];
      match page.fault
      case Some(e) =>
        ErrorKeepsGood(env, c, url, e);
        c.(errors := c.errors + ["Crawl error " + url + ": " + e])
      case None =>
        ImgsKeepGood(env, c, url);
        var c1 := HarvestImgs(c, env, page.imgs, 0, url);
        if depth < env.depth then
          LinksKeepGood(env, c1, url, depth);
          HarvestLinks(c1, env, page.links, 0, depth)
        else c1
  }

  /** `queue_list.pop(0)`, counting the stop poll before it. */
  function Popped(c: Crawl): Crawl
    requires c.queue != []
  {
    c.(queue := c.queue[1..], polls := c.polls + 1)
  }

  lemma PopKeepsGood(env: CrawlEnv, c: Crawl)
    requires Good(env, c) && c.queue != []
    ensures Good(env, Popped(c))
    ensures Good(env, Popped(c).(visited := c.visited + {c.queue[0].0}))
  {
    assert Pending(env, c.queue[0]);
    var r := Popped(c);
    assert forall k :: 0 <= k < |r.queue| ==> r.queue[k] == c.queue[k + 1];
    var v := r.(visited := c.visited + {c.queue[0].0});
    forall x | x in v.images
      ensures Found(env, v.visited, x)
    {
      assert Found(env, c.visited, x);
    }
  }

  /** Every page was loaded at most once, and the loaded pages are exactly the visited ones. */
  predicate LoadedOnce(c: Crawl)
  {
    (forall i, j :: 0 <= i < j < |c.loads| ==> c.loads[i] != c.loads[j]) &&
    (forall u :: u in c.visited ==> u in c.loads) &&
    (forall i :: 0 <= i < |c.loads| ==> c.loads[i] in c.visited)
  }

  /** The `while queue_list` loop: pop the front, skip visited pages, visit the rest. */
  function CrawlLoop(c: Crawl, env: CrawlEnv): (r: Crawl)
    requires Good(env, c)
    ensures Good(env, r)
    ensures LoadedOnce(c) ==> LoadedOnce(r)
    ensures |c.loads| <= |r.loads| && r.loads[..|c.loads|] == c.loads
    ensures c.visited <= r.visited && c.images <= r.images
    ensures |c.errors| <= |r.errors| && r.errors[..|c.errors|] == c.errors
    ensures r.queue == [] || (r.polls > 0 && env.stop(r.polls - 1))
    decreases Reach(env) - c.visited, |c.queue|
  {
    if c.queue == [] then c
    else if env.stop(c.polls) then Polled(c)
    else
      var url := c.queue[0].0;
      PopKeepsGood(env, c);
      if url in c.visited then CrawlLoop(Popped(c), env)
      else
        var c2 := Popped(c).(visited := c.visited + {url}, loads := c.loads + [url]);
        assert Pending(env, c.queue[0]);
        assert Reach(env) - c2.visited < Reach(env) - c.visited;
        LoadKeepsOnce(c, url);
        var c3 := Visit(c2, env, url, c.queue[0].1);
        var r := CrawlLoop(c3, env);
        assert r.loads[..|c.loads|] == r.loads[..|c2.loads|][..|c.loads|];
        r
  }

  /** Loading a page not yet visited keeps the log free of repeats. */
  lemma LoadKeepsOnce(c: Crawl, url: string)
    requires url !in c.visited
    ensures LoadedOnce(c) ==> LoadedOnce(c.(visited := c.visited + {url}, loads := c.loads + [url]))
  {
  }

  function Start(seed: string): Crawl { Crawl([(seed, 0)], {}, {}, [], 0, []) }

  /** The crawl starts well formed: only the seed queued, nothing visited, found or logged. */
  lemma StartGood(env: CrawlEnv)
    requires Pending(env, (env.seed, 0))
    ensures Good(env, Start(env.seed)) && LoadedOnce(Start(env.seed))
  {
  }

  /** The environment `scrape` crawls in: links must stay on the seed's host. */
  function Env(url: string, depth: int, site: Site, stop: nat -> bool): (env: CrawlEnv)
    ensures env.seed == NormalizeSeed(url)
    ensures forall href :: env.follows(href) == LinkAllowed(href, UrlSplit(env.seed).netloc, IgnoredWords)
  {
    var seed := NormalizeSeed(url);
    var base := UrlSplit(seed).netloc;
    CrawlEnv(seed, depth, site, stop, href => LinkAllowed(href, base, IgnoredWords))
  }

  /** The crawl phase from a raw seed URL. */
  function CrawlSite(url: string, depth: int, site: Site, stop: nat -> bool): (r: Crawl)
    ensures Good(Env(url, depth, site, stop), r)
    ensures LoadedOnce(r)
    ensures r.queue == [] || (r.polls > 0 && stop(r.polls - 1))
  {
    var env := Env(url, depth, site, stop);
    assert Pending(env, (env.seed, 0));
    StartGood(env);
    CrawlLoop(Start(env.seed), env)
  }

  /** A crawl whose queue holds only the seed, with a depth limit of zero or less, never leaves the seed. */
  lemma {:induction false} ShallowStaysAtSeed(c: Crawl, env: CrawlEnv)
    requires Good(env, c) && env.depth <= 0
    requires forall k :: 0 <= k < |c.queue| ==> c.queue[k].0 == env.seed
    requires c.visited <= {env.seed}
    ensures CrawlLoop(c, env).visited <= {env.seed}
    decreases Reach(env) - c.visited, |c.queue|
  {
    if c.queue != [] && !env.stop(c.polls) {
      var url := c.queue[0].0;
      PopKeepsGood(env, c);
      assert forall k :: 0 <= k < |Popped(c).queue| ==> Popped(c).queue[k] == c.queue[k + 1];
      if url in c.visited {
        ShallowStaysAtSeed(Popped(c), env);
      } else {
        var c2 := Popped(c).(visited := c.visited + {url}, loads := c.loads + [url]);
        assert Pending(env, c.queue[0]);
        assert Reach(env) - c2.visited < Reach(env) - c.visited;
        var c3 := Visit(c2, env, url, c.queue[0].1);
        assert c3.queue == c2.queue && c3.visited == c2.visited;
        assert CrawlLoop(c, env) == CrawlLoop(c3, env);
        ShallowStaysAtSeed(c3, env);
      }
    }
  }

  /** `recursion_depth` of zero or less: only the seed page is loaded. */
  lemma DepthZeroVisitsOnlySeed(url: string, depth: int, site: Site, stop: nat -> bool)
    requires depth <= 0
    ensures CrawlSite(url, depth, site, stop).visited <= {NormalizeSeed(url)}
  {
    var env := Env(url, depth, site, stop);
    assert Pending(env, (env.seed, 0));
    ShallowStaysAtSeed(Start(env.seed), env);
  }

  /** The state after the seed page's visit, the first step of every crawl that is not stopped at once. */
  function SeedVisited(env: CrawlEnv): (r: Crawl)
    requires Pending(env, (env.seed, 0))
    ensures Good(env, r) && env.seed in r.visited
  {
    var c := Start(env.seed);
    PopKeepsGood(env, c);
    Visit(Popped(c).(visited := {env.seed}, loads := [env.seed]), env, env.seed, 0)
  }

  lemma SeedVisitedFirst(env: CrawlEnv)
    requires Pending(env, (env.seed, 0)) && !env.stop(0)
    ensures CrawlLoop(Start(env.seed), env) == CrawlLoop(SeedVisited(env), env)
  {
    var c := Start(env.seed);
    assert c.queue != [] && !env.stop(c.polls) && c.queue[0] == (env.seed, 0) && env.seed !in c.visited;
    assert Popped(c).(visited := c.visited + {env.seed}, loads := c.loads + [env.seed]) ==
           Popped(c).(visited := {env.seed}, loads := [env.seed]);
  }

  /** The seed's visit finds each harvestable image of the seed page, when the page loads. */
  lemma SeedImagesFound(env: CrawlEnv)
    requires Pending(env, (env.seed, 0)) && forall p :: !env.stop(p)
    requires env.seed in env.site.pages && env.site.pages[env.seed].fault.None?
    ensures forall src :: src in Sources(env.site.pages[env.seed].imgs) && Harvestable(src) ==>
              (src, env.seed) in SeedVisited(env).images
  {
    var c2 := Popped(Start(env.seed)).(visited := {env.seed}, loads := [env.seed]);
    var tags := env.site.pages[env.seed].imgs;
    assert SeedVisited(env).images == HarvestImgs(c2, env, tags, 0, env.seed).images;
    HarvestFindsAll(c2, env, tags, env.seed);
  }

  /** Without a stop, harvesting a page's tags finds every harvestable source among them. */
  lemma HarvestFindsAll(c: Crawl, env: CrawlEnv, tags: seq<ImgTag>, page: string)
    requires forall p :: !env.stop(p)
    ensures forall src :: src in Sources(tags) && Harvestable(src) ==> (src, page) in HarvestImgs(c, env, tags, 0, page).images
  {
    var c1 := HarvestImgs(c, env, tags, 0, page);
    forall src | src in Sources(tags) && Harvestable(src)
      ensures (src, page) in c1.images
    {
      var k :| 0 <= k < |tags| && Sources(tags)[k] == src;
      assert (ImageSource(tags[k]), page) in c1.images;
    }
  }

  /** With no stop, the seed page is visited and, if it loads, every harvestable image on it is found. */
  lemma SeedPageHarvested(url: string, depth: int, site: Site, stop: nat -> bool)
    requires forall p :: !stop(p)
    requires NormalizeSeed(url) in site.pages && site.pages[NormalizeSeed(url)].fault.None?
    ensures var r := CrawlSite(url, depth, site, stop);
      NormalizeSeed(url) in r.visited &&
      forall src :: src in Sources(site.pages[NormalizeSeed(url)].imgs) && Harvestable(src) ==>
        (src, NormalizeSeed(url)) in r.images
  {
    var env := Env(url, depth, site, stop);
    assert Pending(env, (env.seed, 0));
    SeedVisitedFirst(env);
    SeedImagesFound(env);
    assert CrawlSite(url, depth, site, stop) == CrawlLoop(SeedVisited(env), env);
  }

  // ---------------------------------------------------------------------------
  // sorted(all_images, key=lambda x: x[0])
  // ---------------------------------------------------------------------------

  /** Python's string order: code point by code point, a proper prefix first. */
  predicate LexLeq(a: string, b: string)
    decreases |a|
  {
    a == [] || (b != [] && (a[0] < b[0] || (a[0] == b[0] && LexLeq(a[1..], b[1..]))))
  }

  lemma {:induction false} LexLeqTotal(a: string, b: string)
    ensures LexLeq(a, b) || LexLeq(b, a)
    decreases |a|
  {
    if a != [] && b != [] && a[0] == b[0] {
      LexLeqTotal(a[1..], b[1..]);
    }
  }

  lemma {:induction false} LexLeqAntisymmetric(a: string, b: string)
    requires LexLeq(a, b) && LexLeq(b, a)
    ensures a == b
    decreases |a|
  {
    if a != [] {
      LexLeqAntisymmetric(a[1..], b[1..]);
      assert a == [a[0]] + a[1..] && b == [b[0]] + b[1..];
    }
  }

  function Keys(xs: seq<(string, string)>): (r: seq<string>)
    ensures |r| == |xs|
  {
    seq(|xs|, k requires 0 <= k < |xs| => xs[k].0)
  }

  predicate SortedKeys(ks: seq<string>)
  {
    forall i, j :: 0 <= i < j < |ks| ==> LexLeq(ks[i], ks[j])
  }

  /** Insert `x` after every element whose key is not greater: what keeps the sort stable. */
  function Insert(s: seq<(string, string)>, x: (string, string)): (r: seq<(string, string)>)
    requires SortedKeys(Keys(s))
    ensures SortedKeys(Keys(r))
    ensures multiset(r) == multiset(s) + multiset{x}
    decreases |s|
  {
    if s == [] then [x]
    else
      var last := s[|s| - 1];
      var init := s[..|s| - 1];
      assert s == init + [last];
      if LexLeq(last.0, x.0) then
        AllBelow(s, x);
        SortedSnoc(s, x);
        s + [x]
      else
        LexLeqTotal(last.0, x.0);
        SortedInit(s);
        var front := Insert(init, x);
        BelowLast(s, x, front);
        SortedSnoc(front, last);
        front + [last]
  }

  /** Appending an element whose key bounds every key keeps the keys sorted. */
  lemma SortedSnoc(s: seq<(string, string)>, y: (string, string))
    requires SortedKeys(Keys(s))
    requires forall i :: 0 <= i < |s| ==> LexLeq(s[i].0, y.0)
    ensures SortedKeys(Keys(s + [y]))
  {
    var r := s + [y];
    forall i, j | 0 <= i < j < |r|
      ensures LexLeq(Keys(r)[i], Keys(r)[j])
    {
      assert Keys(r)[i] == s[i].0;
      if j < |s| {
        assert Keys(s)[i] == s[i].0 && Keys(s)[j] == s[j].0;
      }
    }
  }

  /** Dropping the last element keeps the keys sorted. */
  lemma SortedInit(s: seq<(string, string)>)
    requires s != [] && SortedKeys(Keys(s))
    ensures SortedKeys(Keys(s[..|s| - 1]))
  {
    assert Keys(s[..|s| - 1]) == Keys(s)[..|s| - 1];
  }

  /** In sorted keys, every key is at most the last, so at most anything above the last. */
  lemma AllBelow(s: seq<(string, string)>, x: (string, string))
    requires s != [] && SortedKeys(Keys(s)) && LexLeq(s[|s| - 1].0, x.0)
    ensures forall i :: 0 <= i < |s| ==> LexLeq(s[i].0, x.0)
  {
    forall i | 0 <= i < |s|
      ensures LexLeq(s[i].0, x.0)
    {
      if i < |s| - 1 {
        assert Keys(s)[i] == s[i].0 && Keys(s)[|s| - 1] == s[|s| - 1].0;
        Transitive(s[i].0, s[|s| - 1].0, x.0);
      }
    }
  }

  /** What `x` was inserted into, all but the last of sorted `s`, stays below that last key. */
  lemma BelowLast(s: seq<(string, string)>, x: (string, string), front: seq<(string, string)>)
    requires s != [] && SortedKeys(Keys(s)) && LexLeq(x.0, s[|s| - 1].0)
    requires multiset(front) == multiset(s[..|s| - 1]) + multiset{x}
    ensures forall i :: 0 <= i < |front| ==> LexLeq(front[i].0, s[|s| - 1].0)
  {
    var init := s[..|s| - 1];
    forall i | 0 <= i < |front|
      ensures LexLeq(front[i].0, s[|s| - 1].0)
    {
      var y := front[i];
      assert y in multiset(front);
      if y != x {
        assert y in multiset(init);
        var k :| 0 <= k < |init| && init[k] == y;
        assert Keys(s)[k] == y.0 && Keys(s)[|s| - 1] == s[|s| - 1].0;
      }
    }
  }

  lemma {:induction false} Transitive(a: string, b: string, c: string)
    requires LexLeq(a, b) && LexLeq(b, c)
    ensures LexLeq(a, c)
    decreases |a|
  {
    if a != [] && a[0] == b[0] && b[0] == c[0] {
      Transitive(a[1..], b[1..], c[1..]);
    }
  }

  /** `sorted(xs, key=lambda x: x[0])`: a stable insertion sort. */
  function SortBySrc(xs: seq<(string, string)>): (r: seq<(string, string)>)
    ensures SortedKeys(Keys(r))
    ensures multiset(r) == multiset(xs)
    decreases |xs|
  {
    if xs == [] then []
    else
      assert xs == xs[..|xs| - 1] + [xs[|xs| - 1]];
      Insert(SortBySrc(xs[..|xs| - 1]), xs[|xs| - 1])
  }

  /** Two sorted arrangements of the same keys are the same sequence. */
  lemma {:induction false} SortedKeysUnique(a: seq<string>, b: seq<string>)
    requires SortedKeys(a) && SortedKeys(b) && multiset(a) == multiset(b)
    ensures a == b
    decreases |a|
  {
    assert |a| == |multiset(a)| == |multiset(b)| == |b|;
    if a != [] {
      assert b[0] in multiset(a) && a[0] in multiset(b);
      SortedHeadLeq(a, b[0]);
      SortedHeadLeq(b, a[0]);
      LexLeqAntisymmetric(a[0], b[0]);
      MultisetTail(a);
      MultisetTail(b);
      SortedTail(a);
      SortedTail(b);
      SortedKeysUnique(a[1..], b[1..]);
      assert a == [a[0]] + a[1..] && b == [b[0]] + b[1..];
    }
  }

  /** The first key of a sorted sequence is at most each of its keys. */
  lemma SortedHeadLeq(a: seq<string>, x: string)
    requires SortedKeys(a) && x in a
    ensures LexLeq(a[0], x)
  {
    var i :| 0 <= i < |a| && a[i] == x;
    if i == 0 {
      LexLeqTotal(x, x);
    }
  }

  lemma SortedTail(a: seq<string>)
    requires SortedKeys(a) && a != []
    ensures SortedKeys(a[1..])
  {
    forall i, j | 0 <= i < j < |a| - 1
      ensures LexLeq(a[1..][i], a[1..][j])
    {
      assert a[1..][i] == a[i + 1] && a[1..][j] == a[j + 1];
    }
  }

  lemma MultisetTail<T>(a: seq<T>)
    requires a != []
    ensures multiset(a[1..]) == multiset(a) - multiset{a[0]}
  {
    assert a == [a[0]] + a[1..];
  }

  /** Taking out the element at `j` takes one copy of it out of the multiset. */
  lemma RemoveAt<T>(ys: seq<T>, j: nat)
    requires j < |ys|
    ensures multiset(ys[..j] + ys[j + 1..]) == multiset(ys) - multiset{ys[j]}
  {
    assert ys == ys[..j] + [ys[j]] + ys[j + 1..];
  }

  lemma KeysConcat(a: seq<(string, string)>, b: seq<(string, string)>)
    ensures Keys(a + b) == Keys(a) + Keys(b)
  {
    assert |Keys(a + b)| == |Keys(a) + Keys(b)|;
    forall k | 0 <= k < |a| + |b|
      ensures Keys(a + b)[k] == (Keys(a) + Keys(b))[k]
    {
      if k < |a| { assert (a + b)[k] == a[k]; } else { assert (a + b)[k] == b[k - |a|]; }
    }
  }

  /** Taking out the pair at `j` takes one copy of its key out of the keys. */
  lemma KeysRemoveAt(ys: seq<(string, string)>, j: nat)
    requires j < |ys|
    ensures multiset(Keys(ys)) == multiset(Keys(ys[..j] + ys[j + 1..])) + multiset{ys[j].0}
  {
    var before, after := ys[..j], ys[j + 1..];
    assert ys == before + [ys[j]] + after;
    KeysConcat(before + [ys[j]], after);
    KeysConcat(before, [ys[j]]);
    KeysConcat(before, after);
    assert Keys([ys[j]]) == [ys[j].0];
  }

  /** Permuting the pairs permutes their keys. */
  lemma {:induction false} KeysMultiset(xs: seq<(string, string)>, ys: seq<(string, string)>)
    requires multiset(xs) == multiset(ys)
    ensures multiset(Keys(xs)) == multiset(Keys(ys))
    decreases |xs|
  {
    if xs == [] {
      assert |ys| == |multiset(ys)| == 0;
    } else {
      var x := xs[0];
      assert x in multiset(ys);
      var j :| 0 <= j < |ys| && ys[j] == x;
      var rest := ys[..j] + ys[j + 1..];
      assert multiset(xs[1..]) == multiset(rest) by {
        RemoveAt(ys, j);
        MultisetTail(xs);
      }
      KeysMultiset(xs[1..], rest);
      KeysMultisetStep(xs, ys, j);
    }
  }

  lemma UnionOneCongruence(a: multiset<string>, b: multiset<string>, x: string, y: string)
    requires a == b && x == y
    ensures a + multiset{x} == b + multiset{y}
  {
  }

  /** The step of `KeysMultiset`: the first pair of `xs` matched with the pair at `j` in `ys`. */
  lemma KeysMultisetStep(xs: seq<(string, string)>, ys: seq<(string, string)>, j: nat)
    requires xs != [] && j < |ys| && ys[j] == xs[0]
    requires multiset(Keys(xs[1..])) == multiset(Keys(ys[..j] + ys[j + 1..]))
    ensures multiset(Keys(xs)) == multiset(Keys(ys))
  {
    calc {
      multiset(Keys(xs));
    == { KeysRemoveAt(xs, 0); assert xs[..0] + xs[1..] == xs[1..]; }
      multiset(Keys(xs[1..])) + multiset{xs[0].0};
    == { UnionOneCongruence(multiset(Keys(xs[1..])), multiset(Keys(ys[..j] + ys[j + 1..])), xs[0].0, ys[j].0); }
      multiset(Keys(ys[..j] + ys[j + 1..])) + multiset{ys[j].0};
    == { KeysRemoveAt(ys, j); }
      multiset(Keys(ys));
    }
  }

  /** The iteration order of the set does not change the URLs downloaded, nor their order. */
  lemma OrderIrrelevant(xs: seq<(string, string)>, ys: seq<(string, string)>)
    requires multiset(xs) == multiset(ys)
    ensures Keys(SortBySrc(xs)) == Keys(SortBySrc(ys))
  {
    KeysMultiset(SortBySrc(xs), SortBySrc(ys));
    SortedKeysUnique(Keys(SortBySrc(xs)), Keys(SortBySrc(ys)));
  }

  // ---------------------------------------------------------------------------
  // The imperative crawl
  // ---------------------------------------------------------------------------

  /** The image loop of one page. */
  method CollectImages(c: Crawl, env: CrawlEnv, tags: seq<ImgTag>, page: string) returns (r: Crawl)
    ensures r == HarvestImgs(c, env, tags, 0, page)
  {
    r := c;
    var i := 0;
    while i < |tags|
      invariant i <= |tags|
      invariant HarvestImgs(r, env, tags, i, page) == HarvestImgs(c, env, tags, 0, page)
      decreases |tags| - i
    {
      if env.stop(r.polls) {
        return Polled(r);
      }
      var src := ImageSource(tags[i]);
      if Harvestable(src) {
        r := Polled(r).(images := r.images + {(src, page)});
      } else {
        r := Polled(r);
      }
      i := i + 1;
    }
  }

  /** The link loop of one page. */
  method CollectLinks(c: Crawl, env: CrawlEnv, links: seq<string>, depth: int) returns (r: Crawl)
    ensures r == HarvestLinks(c, env, links, 0, depth)
  {
    r := c;
    var i := 0;
    while i < |links|
      invariant i <= |links|
      invariant HarvestLinks(r, env, links, i, depth) == HarvestLinks(c, env, links, 0, depth)
      decreases |links| - i
    {
      if env.stop(r.polls) {
        return Polled(r);
      }
      var href := links[i];
      if env.follows(href) && href !in r.visited {
        r := Polled(r).(queue := r.queue + [(href, depth + 1)]);
      } else {
        r := Polled(r);
      }
      i := i + 1;
    }
  }

  /** Load one page and harvest it. */
  method VisitPage(c: Crawl, env: CrawlEnv, url: string, depth: int) returns (r: Crawl)
    requires Good(env, c) && url in c.visited && 0 <= depth <= Max0(env.depth)
    ensures r == Visit(c, env, url, depth)
  {
    if url !in env.site.pages {
      return c.(errors := c.errors + ["Crawl error " + url + ": " + env.site.unreachable(url)]);
    }
    var page := env.site.pages[url];
    if page.fault.Some? {
      return c.(errors := c.errors + ["Crawl error " + url + ": " + page.fault.value]);
    }
    r := CollectImages(c, env, page.imgs, url);
    if depth < env.depth {
      r := CollectLinks(r, env, page.links, depth);
    }
  }

  /** The `while queue_list` loop. */
  method CrawlQueue(c0: Crawl, env: CrawlEnv) returns (c: Crawl)
    requires Good(env, c0)
    ensures c == CrawlLoop(c0, env)
  {
    c := c0;
    while c.queue != []
      invariant Good(env, c)
      invariant CrawlLoop(c, env) == CrawlLoop(c0, env)
      decreases Reach(env) - c.visited, |c.queue|
    {
      if env.stop(c.polls) {
        return Polled(c);
      }
      var url := c.queue[0].0;
      var depth := c.queue[0].1;
      PopKeepsGood(env, c);
      assert Pending(env, c.queue[0]);
      if url in c.visited {
        c := Popped(c);
      } else {
        ghost var before := c.visited;
        c := Popped(c).(visited := c.visited + {url}, loads := c.loads + [url]);
        assert Reach(env) - c.visited < Reach(env) - before;
        c := VisitPage(c, env, url, depth);
      }
    }
  }

  /** `list(all_images)`: some order of the set. */
  method Enumerate(s: set<(string, string)>) returns (xs: seq<(string, string)>)
    ensures multiset(xs) == multiset(s)
  {
    xs := [];
    var rest := s;
    while rest != {}
      invariant rest <= s
      invariant multiset(xs) + multiset(rest) == multiset(s)
      decreases |rest|
    {
      var x :| x in rest;
      assert multiset(rest) == multiset(rest - {x}) + multiset{x};
      xs := xs + [x];
      rest := rest - {x};
    }
  }

  /** How far the browser set-up gets. */
  datatype Setup = Ready | InstallFails(message: string) | SetupFails(message: string)

  /**
    `GenericPageScraper.scrape`: crawl, then download the pairs sorted by URL. `listed`
    is the order in which the set of pairs was listed before sorting.
  */
  method Scrape(url: string, depth: int, site: Site, stop: nat -> bool, setup: Setup,
                files: set<string>, manifest: Option<string>, settings: Settings,
                outcome: nat -> Outcome, limit: int)
    returns (saved: nat, skipped: nat, errors: seq<string>, listed: seq<(string, string)>)
    ensures setup.InstallFails? ==> saved == 0 && skipped == 0 && errors == ["Failed to install ChromeDriver: " + setup.message]
    ensures setup.SetupFails? ==> saved == 0 && skipped == 0 && errors == ["Selenium setup failed: " + setup.message]
    ensures setup.Ready? ==>
      var crawl := CrawlSite(url, depth, site, stop);
      var store := CrawlRun(Opened(files, manifest).(errors := crawl.errors), settings, SortBySrc(listed), outcome, limit);
      multiset(listed) == multiset(crawl.images) &&
      saved == store.saved && skipped == store.skipped && errors == store.errors
    ensures limit > 0 ==> saved <= limit
  {
    if setup.InstallFails? {
      return 0, 0, ["Failed to install ChromeDriver: " + setup.message], [];
    }
    var crawlErrors: seq<string>;
    if setup.SetupFails? {
      crawlErrors, listed := ["Selenium setup failed: " + setup.message], [];
    } else {
      crawlErrors, listed := CrawlPairs(url, depth, site, stop);
    }
    var items := SortBySrc(listed);
    saved, skipped, errors := DownloadPairs(files, manifest, settings, crawlErrors, items, outcome, limit);
    if setup.SetupFails? {
      NothingToDownload(Opened(files, manifest).(errors := crawlErrors), settings, outcome, limit);
    }
  }

  /** The crawl half of `scrape`: its errors and the pairs it found, listed in some order. */
  method CrawlPairs(url: string, depth: int, site: Site, stop: nat -> bool)
    returns (errors: seq<string>, listed: seq<(string, string)>)
    ensures var crawl := CrawlSite(url, depth, site, stop);
      errors == crawl.errors && multiset(listed) == multiset(crawl.images)
  {
    var env := Env(url, depth, site, stop);
    assert Pending(env, (env.seed, 0));
    var crawl := CrawlQueue(Start(env.seed), env);
    errors := crawl.errors;
    listed := Enumerate(crawl.images);
  }

  /** The download half of `scrape`, on a fresh `ImageDownloader` that starts with the crawl's errors. */
  method DownloadPairs(files: set<string>, manifest: Option<string>, settings: Settings,
                       crawlErrors: seq<string>, items: seq<(string, string)>, outcome: nat -> Outcome, limit: int)
    returns (saved: nat, skipped: nat, errors: seq<string>)
    ensures var store := CrawlRun(Opened(files, manifest).(errors := crawlErrors), settings, items, outcome, limit);
      saved == store.saved && skipped == store.skipped && errors == store.errors
    ensures limit > 0 ==> saved <= limit
  {
    var downloads := new Downloader(files, manifest, settings);
    downloads.errors := crawlErrors;
    downloads.DownloadCustom(items, outcome, limit);
    saved, skipped, errors := downloads.saved, downloads.skipped, downloads.errors;
  }

  /** With nothing to download the bookkeeping is left as it was. */
  lemma NothingToDownload(s: Store, st: Settings, outcome: nat -> Outcome, limit: int)
    ensures CrawlRun(s, st, [], outcome, limit) == s
  {
  }
}
