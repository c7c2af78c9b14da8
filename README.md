# Image scraper multitool, modelled in Dafny

The image scraper multitool downloads images for a search query. It has three sources:

- Bing, by parsing the result page's `a.iusc` anchors;
- Google Images, by driving a browser through the result cards;
- any web page, by crawling it breadth-first and collecting its `<img>` sources ("custom URL" mode).

A command-line `main` and a Tk front end drive the sources. They run each requested engine in turn into
`<output>/<engine folder>/<query slug>`.

Every download loop behaves the same way around a destination directory:

- It numbers the files it writes.
- It never overwrites a file, except on the Google data-URI path.
- It records each downloaded URL in the ledger `_downloaded_urls.txt`, so later runs skip it.
- It can convert `.webp` files to `.jpg`, and compress or resize the result.
- It reports `saved` and `skipped` counts and a list of error messages.

This project models that behaviour and proves properties of the model:

- File naming (`Naming`, `Paths`, `Strings`): `sanitize_filename`, `slugify`, `best_extension`, the collision
  suffixes, and the `.webp` target search.
- The resize and quality arithmetic of `compress_image` (`Imaging`).
- One step of each download loop, as functions over a `Store` (`Downloads`). Each step is a function of the
  directory's file names, the ledger, the seen set, the counters and the errors.
- The class `Downloaders.Downloader`. It holds those fields and its methods are proved against the step
  functions.
- `collect_image_metadata` and `scrape_with_bing` (`Bing`).
- The card loop of `scrape_with_google` (`Google`). It is written as spec functions, plus the class `CardScan`
  whose methods keep the loop's locals.
- The crawl, sort and download of `GenericPageScraper.scrape` (`Crawl`).
- The engine handling and the exit codes of `main` (`Cli`).
- `_compile_options` and `_run_scraper` of the GUI (`Gui`).

Whatever lies outside the program becomes a parameter. That covers the network, the browser, Pillow and the
filesystem's failures. Each item to download carries an `Outcome`, which says:

- whether the fetch fails;
- whether the base64 decode fails;
- whether the write fails;
- whether the conversion fails;
- whether the ledger append succeeds.

The user's stop button is a function `stop: nat -> bool` from the number of the poll to the flag's value.
Documents arrive as already parsed values: anchors, cards, pages.

The crawl's invariant `Crawl.Good` says four things:

- Every queued page is reachable from the seed, admitted by the link filter, and within the depth.
- Every visited page is admitted.
- Every collected pair is a harvestable source of a visited page.
- Every error is a `Crawl error`.

`compress_image` bounds the width first and the height only afterwards, so 4000×1000 fitted into 2000×800
becomes 2000×500: the height is left alone because 500 ≤ 800. `Imaging.FitWithinExample` proves this.

## Model

| member | source | states |
|---|---|---|
| Strings.FindChar | image_scraper_multitool.py:1214 | the index of the first occurrence of a character, with none before it; -1 exactly when the character is absent |
| Strings.RFindChar | image_scraper_multitool.py:99 | the index of the last occurrence of a character, with none after it; -1 exactly when the character is absent |
| Strings.IndexOf | image_scraper_multitool.py:1288 | the first occurrence of the separator `base64,`, where `split(sub, 1)` cuts: it occurs at the returned position and starts at no earlier one; None exactly when the separator is absent |
| Strings.TrimLeft | image_scraper_multitool.py:80 | `strip` on the left: a suffix of the input that does not start with a trimmed character; the input itself when nothing is to be trimmed |
| Strings.TrimRight | image_scraper_multitool.py:80 | `strip` on the right: a prefix of the input that does not end with a trimmed character; the input itself when nothing is to be trimmed |
| Strings.StripUnpadded | image_scraper_multitool.py:71 | `strip()` leaves a string unchanged when neither end is white space |
| Strings.StripTrimmed | image_scraper_multitool.py:71 | `str.strip()`: neither end of the result is white space, and it is no longer than the input |
| Strings.StripIdempotent | image_scraper_gui.py:638 | stripping the stripped query again changes nothing |
| Strings.Filter | image_scraper_multitool.py:79 | deleting a character class keeps only characters of the input outside the class, and changes nothing when no character is in the class |
| Strings.FilterFilter | image_scraper_multitool.py:79 | deleting a class and then keeping a narrower one is keeping the narrower one |
| Strings.TrimLeftFilter | image_scraper_multitool.py:80 | trimming a class from the left keeps every character outside it, in order |
| Strings.TrimRightFilter | image_scraper_multitool.py:80 | trimming a class from the right keeps every character outside it, in order |
| Strings.CollapseFilter | image_scraper_multitool.py:80 | collapsing runs into a replacement keeps every character outside the class and the replacement, in order |
| Strings.CollapseRuns | image_scraper_multitool.py:71 | a `+` substitution: every character is the replacement or an input character outside the class; empty exactly when the input is empty (or all in the class while inside a run); the replacement never appears twice in a row; the input is kept when nothing is in the class |
| Strings.NatToString | image_scraper_multitool.py:376 | a non-empty string of decimal digits |
| Strings.ParseNatToString | image_scraper_multitool.py:376 | reading the digits back gives the number (round trip) |
| Strings.NatToStringInjective | image_scraper_multitool.py:135 | different numbers are written differently |
| Strings.ZeroPad4 | image_scraper_multitool.py:376 | `{index:04d}`: at least four digits that read back as the number, exactly four below 10000, and no padding from 1000 on |
| Strings.AtMostFourDigits | image_scraper_multitool.py:376 | a number below 10000 is written with at most four digits |
| Paths.UrlSplit | image_scraper_multitool.py:99 | `urlsplit`: the network location holds no `/`, `?` or `#`, the path no `?` or `#` |
| Paths.UrlSplitShape | image_scraper_multitool.py:99 | `scheme://netloc/path?query` splits into the lower-cased scheme, the network location and the path |
| Paths.AfterSchemeShape | image_scraper_multitool.py:99 | a valid scheme and its colon are split off, the scheme lower-cased |
| Paths.CleanUrlPrintable | image_scraper_multitool.py:99 | a URL without control characters or spaces passes the cleaning unchanged |
| Paths.CleanUrlClean | image_scraper_multitool.py:99 | the clean-up `urlsplit` applies first leaves no tab or newline and adds no character the URL lacks |
| Paths.Basename | image_scraper_multitool.py:293 | `os.path.basename`: no `/` in the result, and a name without `/` is its own base name |
| Paths.SplitExt | image_scraper_multitool.py:99 | `os.path.splitext`: the extension is empty, or starts with `.`, ends the path and holds no `/` |
| Paths.SplitExtSimple | image_scraper_multitool.py:99 | the extension of `/stem.ext` is `.ext` |
| Paths.PathSuffix | image_scraper_multitool.py:122 | `Path.suffix`: empty, or a `.` followed by at least one character that ends the name |
| Paths.PathStem | image_scraper_multitool.py:382 | `Path.stem`: stem followed by suffix is the name |
| Naming.Sanitize | image_scraper_multitool.py:69-74 | 1 to 255 safe characters (`[\w.\-]`); `image` for a blank candidate; a safe name of at most 255 characters is kept as it is |
| Naming.SanitizeSafeInput | image_scraper_multitool.py:71 | a candidate of safe characters passes the strip and the substitution unchanged |
| Naming.SanitizeIdempotent | image_scraper_multitool.py:69-74 | sanitizing a sanitized name changes nothing |
| Naming.Slugify | image_scraper_multitool.py:77-81 | a slug: non-empty, lower-case letters, digits, `_` and `-` only, no `-` at either end, no `--`; `query` when the lower-cased input has no word character; otherwise the slug's word characters are those of the lower-cased input, in order |
| Naming.SlugWords | image_scraper_multitool.py:79-81 | the three stages keep the lower-cased input's word characters in order, and the trimmed slug is empty exactly when there are none |
| Naming.QueryIsSlug | image_scraper_multitool.py:81 | the fallback `query` is a slug |
| Naming.SlugIsFixedPoint | image_scraper_multitool.py:77-81 | a slug is its own slug |
| Naming.SlugifyIdempotent | image_scraper_multitool.py:77-81 | slugifying a slug changes nothing |
| Naming.PathHint | image_scraper_multitool.py:96-101 | an extension hint from a name or URL path is non-empty and starts with `.` |
| Naming.FirstAllowed | image_scraper_multitool.py:107-113 | the first hint that is allowed once `.jpe` becomes `.jpg`, or `.jpg` when none is; always an allowed extension |
| Naming.BestExtension | image_scraper_multitool.py:91-113 | always one of `ALLOWED_IMAGE_EXTENSIONS` |
| Naming.BestExtensionPrecedence | image_scraper_multitool.py:91-113 | the name's extension wins over the URL path's, which wins over the content type's guess, which wins over `.jpg` |
| Naming.NoPathHint | image_scraper_multitool.py:96-101 | a name made of letters gives no extension hint |
| Naming.BestExtensionExample | image_scraper_multitool.py:91-113 | name `photo`, URL `https://example.com/pic.PNG?x=1` and type `image/jpeg` give `.png` |
| Naming.ChooseName | image_scraper_multitool.py:371-376 | when names are kept and the name is long enough: the name plus the suffix if `splitext` finds no extension, the name itself if it does; otherwise `<prefix>_<index:04d><suffix>` |
| Naming.GeneratedNameShape | image_scraper_multitool.py:376 | the generated name begins with the prefix and `_`, ends with the suffix, and has room for the four digits between |
| Naming.GeneratedNameInjective | image_scraper_multitool.py:376 | different indices give different generated names |
| Naming.Bumped | image_scraper_multitool.py:382 | a renamed candidate is longer than the one it replaces |
| Naming.Probe | image_scraper_multitool.py:378-383 | the name finally used is not in the directory, is the wanted name when that one is free, and is never shorter |
| Naming.FreeName | image_scraper_multitool.py:378-383 | the `while target_path.exists()` loop ends on the name `Probe` describes: free, and the wanted name when that is free |
| Naming.StemAndSuffix | image_scraper_multitool.py:382 | `stem.ext` has suffix `.ext` and stem `stem` |
| Naming.FirstCollision | image_scraper_multitool.py:378-383 | with `a.ext` taken and `a_1.ext` free the file becomes `a_1.ext` |
| Naming.CollisionSuffixesAccumulate | image_scraper_multitool.py:378-383 | with `a.ext` and `a_1.ext` taken the file becomes `a_1_2.ext`: each counter is appended to the previous candidate's stem |
| Naming.NumberedInjective | image_scraper_multitool.py:135 | different counters give different `.jpg` names |
| Naming.FreeNumbered | image_scraper_multitool.py:133-136 | a free `<stem>_<k>.jpg`, where every counter from the start up to `k` was taken |
| Naming.WebpTarget | image_scraper_multitool.py:132-136 | the conversion target is not in the directory and ends in `.jpg` |
| Naming.FindWebpTarget | image_scraper_multitool.py:132-136 | the target search loop returns `WebpTarget` |
| Naming.WebpTargetFreshCounter | image_scraper_multitool.py:132-136 | with `a.jpg` and `a_1.jpg` taken the target is `a_2.jpg`: here the counter goes onto the original stem |
| Naming.ConvertWebp | image_scraper_multitool.py:116-155 | a file whose suffix is not `.webp` in any case is left alone; on an error the directory is unchanged; otherwise the `.webp` file is replaced by a new `.jpg` name not in the directory before |
| Imaging.BoundWidth | image_scraper_multitool.py:186-189 | never larger, width within a positive bound, and unchanged exactly when there is no bound or the width fits |
| Imaging.BoundHeight | image_scraper_multitool.py:191-194 | never larger, height within a positive bound, and unchanged exactly when there is no bound or the height fits |
| Imaging.FitWithin | image_scraper_multitool.py:183-197 | within both positive bounds, never larger, and unchanged exactly when the image already fits |
| Imaging.FitWithinIdempotent | image_scraper_multitool.py:183-197 | fitting a fitted size changes nothing |
| Imaging.BoundWidthKeepsRatio | image_scraper_multitool.py:186-189 | a width-bound image gets the bound as its width and the height that keeps the aspect ratio, rounded down |
| Imaging.FitWithinExample | image_scraper_multitool.py:183-197 | 4000×1000 fitted into 2000×800 becomes 2000×500 |
| Imaging.JpegQuality | image_scraper_multitool.py:202 | 1 to 100: the quality itself inside that range, 100 above it, 85 when it is not positive |
| Imaging.CompressPlan | image_scraper_multitool.py:170-211 | nothing happens exactly when no quality and no bound is given; otherwise the image gets the fitted size (resized exactly when that differs) and a quality setting exactly for `.jpg`/`.jpeg` names |
| Imaging.InBoundsNotResized | image_scraper_multitool.py:186-197 | an image that fits is rewritten at its own size |
| Downloads.LoadLedger | image_scraper_multitool.py:325-332 | the seen set is exactly the stripped non-blank lines of the ledger |
| Downloads.TruncatedIsUrl | image_scraper_multitool.py:584 | the ledger line `url[:50] + "..."` equals the URL exactly when the URL has 53 characters ending in `...` |
| Downloads.DataUriNotReloaded | image_scraper_multitool.py:584 | a data URI recorded truncated is reloaded as seen only in that 53-character case |
| Downloads.SplitLines | image_scraper_multitool.py:330 | `splitlines()`: no line holds a boundary (`\n`, `\r`, `\x0b`, `\x0c`, `\x1c`-`\x1e`, `\x85`, `\u2028`, `\u2029`) |
| Downloads.LineThenRest | image_scraper_multitool.py:408 | a line without a boundary written with `\n` is read back as the first line, before the rest of the file |
| Downloads.LedgerTextRoundTrip | image_scraper_multitool.py:1381 | the ledger file written line by line splits back into the same lines when none holds a boundary |
| Downloads.LedgerOfStripped | image_scraper_multitool.py:330 | stripped non-blank lines reload as exactly their set |
| Downloads.UrlReloaded | image_scraper_multitool.py:408 | a URL without surrounding blanks or line boundaries, written with its newline, is reloaded as exactly itself |
| Downloads.BrokenUrlNotReloaded | image_scraper_multitool.py:642 | a URL holding a line boundary is not reloaded as itself |
| Downloads.LedgerOfOne | image_scraper_multitool.py:330 | a one-line ledger gives its stripped line, or nothing for a blank line |
| Downloads.SearchTarget | image_scraper_multitool.py:364-383 | the Bing/Google target file is not in the directory |
| Downloads.SearchConverted | image_scraper_multitool.py:389-397 | after a write: one more saved, the directory grows, and without Pillow it gains just the target |
| Downloads.SearchAfterWrite | image_scraper_multitool.py:385-411 | one more saved; a post-processing fault also counts a skip and leaves the directory alone; the ledger and seen set gain the URL exactly on a clean append |
| Downloads.SearchFetch | image_scraper_multitool.py:345-418 | one more saved exactly when fetch and write succeed; a failed fetch or write is one error and one skip; the ledger grows exactly on a clean save; a fault counts the item twice |
| Downloads.SearchSave | image_scraper_multitool.py:340-418 | a seen URL is a skip and nothing else; otherwise the fetch path |
| Downloads.FirstWinsExt | image_scraper_multitool.py:557-562 | the Google data-URI chain: `image/png` wins, then `image/gif`, then `image/webp`, and `.jpg` when no known type is mentioned |
| Downloads.LastWinsExt | image_scraper_multitool.py:1290-1293 | the crawl data-URI chain: `image/webp` wins, then `image/gif`, then `image/png`, and `.jpg` when no known type is mentioned |
| Downloads.ExtChainsAgree | image_scraper_multitool.py:1290-1293 | the two chains agree when at most one type is mentioned |
| Downloads.ExtChainsDiffer | image_scraper_multitool.py:1290-1293 | a header naming png before gif gives `.png` on the Google path and `.gif` on the crawl path |
| Downloads.WriteQuietly | image_scraper_multitool.py:1303-1312 | writing a file (conversion errors swallowed) changes only the directory and adds the target when no conversion runs |
| Downloads.GoogleData | image_scraper_multitool.py:549-592 | no error is recorded; a missing separator or failed decode is a skip; the item is counted once (twice on a fault); the truncated URL is appended exactly on a clean save; a written non-webp file is present and counted |
| Downloads.GoogleDataOverwrites | image_scraper_multitool.py:564-569 | an existing file of that name is overwritten: only `saved` changes |
| Downloads.GoogleDataNameEnds | image_scraper_multitool.py:564 | the data-URI file name ends with the extension the header picked, and a name already ending with it is kept |
| Downloads.TruncatedShape | image_scraper_multitool.py:584 | the ledger line of a data URI: a URL of at most 50 characters followed by `...`, a longer one cut to its first 50 |
| Downloads.GoogleSave | image_scraper_multitool.py:542-650 | a seen URL is a skip; data URIs take the data path, other URLs the fetch path; at most one more saved |
| Downloads.CrawlData | image_scraper_multitool.py:1286-1330 | a missing separator or failed decode is a `Data URI error` and a skip; one more saved exactly when the URI decodes and its file is written; the truncated URL is recorded and the URL seen exactly on a clean append after a save without a compression fault; an open failure is the error alone, a write failure also leaves the partial `custom_<index:04d><ext>` file; a clean save adds to the directory without error or skip |
| Downloads.CrawlDataWrite | image_scraper_multitool.py:1295-1323 | the item is counted once (twice on a fault); one more saved exactly when the file is written; the ledger gains the truncated URL exactly on a clean append without a compression fault, and the URL is then seen; open and write failures as whole states, the partial file kept; a compression fault keeps the save and adds the error and a skip; a clean save to a fresh name adds to the directory |
| Downloads.CrawlTarget | image_scraper_multitool.py:1341-1362 | the crawl's target file is not in the directory |
| Downloads.CrawlAfterWrite | image_scraper_multitool.py:1364-1390 | a post-processing fault is an error and a skip; otherwise one more saved, a larger directory, and the URL recorded exactly on a clean append |
| Downloads.CrawlHttp | image_scraper_multitool.py:1333-1390 | counted exactly once; saved exactly when fetch, write and post-processing succeed; each failure gives its own message |
| Downloads.CrawlSave | image_scraper_multitool.py:1277-1390 | a seen URL is a skip; data URIs take the data path, other URLs the HTTP path |
| Downloads.SavedCountedAtDifferentPoints | image_scraper_multitool.py:389 | with a post-processing fault Bing counts the item saved and skipped, while the crawl (line 1377) counts it skipped only |
| Downloads.FirstStop | image_scraper_multitool.py:336-338 | the first poll that finds the stop flag set, with none before it |
| Downloads.BingProcessedBounds | image_scraper_multitool.py:334-418 | after `n` items the seen set has grown, the ledger is extended by at most `n` lines, and each item is counted once (twice on a fault) |
| Downloads.BingSeenGrows | image_scraper_multitool.py:409 | the seen set only grows along the loop |
| Downloads.BingRepeatSkipped | image_scraper_multitool.py:341-344 | a URL saved cleanly earlier in the run is skipped when it recurs |
| Downloads.BingStopsAt | image_scraper_multitool.py:336-338 | the loop ends at the first poll that finds the stop flag set |
| Downloads.BingRunCounts | image_scraper_multitool.py:334-418 | a Bing run only adds to the seen set and extends the ledger; without a stop every item is counted; a stop found before item `j` leaves at most the first `j` items counted |
| Downloads.CrawlSaveCounts | image_scraper_multitool.py:1277-1390 | one crawl download grows the seen set, counts the pair at least once, and saves at most one image |
| Downloads.CrawlFrom | image_scraper_multitool.py:1273-1390 | `saved` never passes a positive limit, the seen set grows, and below the limit every pair is counted |
| Downloads.CrawlRunCounts | image_scraper_multitool.py:1273-1390 | the whole crawl download: `saved` never passes a positive limit, the seen set grows, and unless the limit is reached every pair is counted |
| Downloaders.Opened | image_scraper_multitool.py:325-332 | a run starts from the directory's files and zero counters, with the seen set read from the lines of a readable ledger file or empty |
| Downloaders.ReopenedSeesLedger | image_scraper_multitool.py:325-332 | a later run reopening the ledger file a run wrote sees exactly the recorded URLs, when none has surrounding blanks or a line boundary |
| Downloaders.Downloader.constructor | image_scraper_multitool.py:321-332 | the state is `Opened` of the files and the ledger |
| Downloaders.Downloader.Convert | image_scraper_multitool.py:116-155 | the directory and the returned path follow `ConvertWebp`; nothing else changes |
| Downloaders.Downloader.Record | image_scraper_multitool.py:405-411 | the state follows the ledger append step |
| Downloaders.Downloader.WriteQuietly | image_scraper_multitool.py:1303-1312 | the state follows `Downloads.WriteQuietly` |
| Downloaders.Downloader.SearchConverted | image_scraper_multitool.py:389-397 | the state follows `Downloads.SearchConverted` |
| Downloaders.Downloader.SearchAfterWrite | image_scraper_multitool.py:385-411 | the state follows `Downloads.SearchAfterWrite` |
| Downloaders.Downloader.SearchTarget | image_scraper_multitool.py:363-383 | the file name chosen for an item, kept or numbered and bumped past existing files, is `Downloads.SearchTarget` |
| Downloaders.Downloader.SearchFetch | image_scraper_multitool.py:345-418 | the state follows `Downloads.SearchFetch` |
| Downloaders.Downloader.SaveSearch | image_scraper_multitool.py:340-418 | the state follows `Downloads.SearchSave` |
| Downloaders.Downloader.DownloadBing | image_scraper_multitool.py:307-420 | the loop of `download_images` leaves the state `BingRun` describes |
| Downloaders.Downloader.SaveGoogleData | image_scraper_multitool.py:549-592 | the state follows `Downloads.GoogleData` |
| Downloaders.Downloader.SaveGoogle | image_scraper_multitool.py:542-650 | `save_found_image` leaves the state `GoogleSave` describes |
| Downloaders.Downloader.SaveCrawlData | image_scraper_multitool.py:1286-1330 | the state follows `Downloads.CrawlData` |
| Downloaders.Downloader.CrawlDataWrite | image_scraper_multitool.py:1295-1323 | the state follows `Downloads.CrawlDataWrite` |
| Downloaders.Downloader.CrawlTarget | image_scraper_multitool.py:1341-1362 | the target is `Downloads.CrawlTarget` |
| Downloaders.Downloader.SaveCrawlHttp | image_scraper_multitool.py:1333-1390 | the state follows `Downloads.CrawlHttp` |
| Downloaders.Downloader.CrawlAfterWrite | image_scraper_multitool.py:1364-1390 | the state follows `Downloads.CrawlAfterWrite` |
| Downloaders.Downloader.SaveCustom | image_scraper_multitool.py:1277-1390 | the state follows `Downloads.CrawlSave` |
| Downloaders.Downloader.DownloadCustom | image_scraper_multitool.py:1273-1390 | the crawl's download loop leaves the state `CrawlRun` describes |
| Bing.CandidateOf | image_scraper_multitool.py:275-299 | an anchor yields a candidate exactly when its `m` decodes and has a `murl`; the URL is the `murl`, the name holds no `/`, and a non-empty `m` thumbnail is kept |
| Bing.CandidateOfFields | image_scraper_multitool.py:290-293 | the name is `basename(urlsplit(murl).path)`; without an `m` thumbnail the thumbnail is `mad`'s when `mad` decodes, else empty |
| Bing.CandidatesStep | image_scraper_multitool.py:274-300 | each further anchor appends its own candidate, if any, at the end |
| Bing.Candidates | image_scraper_multitool.py:274-300 | at most one candidate per anchor, each with a URL |
| Bing.CandidatesPrefix | image_scraper_multitool.py:274-300 | the candidates of the first anchors begin the candidates of all of them |
| Bing.Kept | image_scraper_multitool.py:274-302 | a prefix of the candidates: all of them, or exactly `max(limit, 1)` |
| Bing.NonPositiveLimitKeepsOne | image_scraper_multitool.py:301-302 | a limit of 0 or less still keeps the first candidate |
| Bing.CollectMetadata | image_scraper_multitool.py:261-305 | the anchor loop with its break returns `Kept` |
| Bing.ScrapeBing | image_scraper_multitool.py:427-462 | the counts of the result are those of `BingRun` over the kept candidates from the opened destination |
| Google.FirstNonEmpty | image_scraper_multitool.py:705-711 | `a or b or ...`: a non-empty result is one of the values, and the result is empty exactly when all are |
| Google.CardKey | image_scraper_multitool.py:705-729 | never empty, and the card's own attributes decide whenever one is set |
| Google.ElementIdDecides | image_scraper_multitool.py:705-729 | as element ids are non-empty, the anchor's attributes and `id(card)` are never consulted |
| Google.DimensionsAccepted | image_scraper_multitool.py:824-827 | a set minimum rejects smaller images; a set maximum rejects larger known sizes; an unknown size passes exactly when no minimum is set; sizes within all bounds pass |
| Google.FallbackImgs | image_scraper_multitool.py:771-799 | the smart fallback keeps exactly the `http` images that are not Google's, not data URIs and not the thumbnail |
| Google.FreshPageUrls | image_scraper_multitool.py:858-861 | exactly the external page-source URLs neither seen nor queued |
| Google.ExternalUrlRejects | image_scraper_multitool.py:859 | a page-source URL that contains `google.com`, `gstatic.com` or `googleusercontent.com` is never taken |
| Google.ImgNameShape | image_scraper_multitool.py:833-836 | a data URI is named `data_image_<digest>.jpg`; any other source gets a base name with no `/` |
| Google.FirstCards | image_scraper_multitool.py:685-688 | the cards of the first selector that finds any; empty exactly when none does |
| Google.Collect | image_scraper_multitool.py:839 | an image is appended to `collected` (and queued when asked) and saved with its position as index |
| Google.ImgsFrom | image_scraper_multitool.py:806-843 | at most one image is accepted; without acceptance only the polls change; the download counts are accounted |
| Google.PageData | image_scraper_multitool.py:845-874 | accepted exactly when a fresh external URL exists; the URL collected is one of those |
| Google.Thumbnail | image_scraper_multitool.py:876-885 | accepted exactly when the card has a thumbnail, which is collected unqueued under `thumbnail_<key>.jpg` |
| Google.CardBody | image_scraper_multitool.py:703-894 | a processed card changes nothing; a new one is marked processed and collects at most one image; without a fault `misses` is reset to 0 exactly when `CardAccepts` holds (an acceptable preview image reached before a stop, a fresh page-source URL, or a thumbnail) and otherwise counted up by one; a raising card adds just its error |
| Google.ImgsFromAccepts | image_scraper_multitool.py:806-843 | the image loop's `accepted` flag is set exactly when some preview image has an `http`/`data:image` source and acceptable size and no stop poll up to it finds the flag set |
| Google.StopRejects | image_scraper_multitool.py:806-809 | a stop found by the first poll of the image loop leaves nothing accepted |
| Google.SkipKeepsAcceptance | image_scraper_multitool.py:806-827 | skipping an unacceptable image without a stop leaves acceptance to the images after it |
| Google.AcceptsHere | image_scraper_multitool.py:829-843 | an acceptable image reached without a stop is accepted |
| Google.CardsFrom | image_scraper_multitool.py:696-702 | `collected` stays within the limit and within the processed cards |
| Google.RoundBody | image_scraper_multitool.py:685-906 | no cards is one more miss with nothing else changed; otherwise the state the cards leave, with one more miss when the page height is unchanged and with the new height remembered when it changed |
| Google.RoundsFrom | image_scraper_multitool.py:678-906 | the loop ends full, after `max_missed` misses, on the stop flag, or when the rounds run out, each with its condition |
| Google.CardLoop | image_scraper_multitool.py:666-906 | at most `limit` images collected, no more than the processed cards, at most `limit` more saved, and every collected image counted |
| Google.EmptyRoundsEndInMisses | image_scraper_multitool.py:690-694 | rounds without cards end the loop through `max_missed` with nothing collected |
| Google.CardScan.constructor | image_scraper_multitool.py:666-667 | the loop's locals start empty around the download state |
| Google.CardScan.Poll | image_scraper_multitool.py:680 | one read of the stop flag |
| Google.CardScan.Save | image_scraper_multitool.py:839 | the state follows `Collect` |
| Google.CardScan.ScanImgs | image_scraper_multitool.py:806-843 | the state and the flag follow `ImgsFrom` |
| Google.CardScan.TryPageData | image_scraper_multitool.py:845-874 | the state and the flag follow `PageData` |
| Google.CardScan.TryThumbnail | image_scraper_multitool.py:876-885 | the state and the flag follow `Thumbnail` |
| Google.CardScan.ScanCard | image_scraper_multitool.py:703-894 | the state follows `CardBody` |
| Google.CardScan.ScanCards | image_scraper_multitool.py:696-894 | the state follows `CardsFrom` |
| Google.CardScan.ScanRound | image_scraper_multitool.py:685-906 | the state follows `RoundBody` |
| Google.CardScan.Run | image_scraper_multitool.py:678-906 | the state and the exit follow `RoundsFrom` |
| Google.ScrapeGoogle | image_scraper_multitool.py:465-919 | the result's counts and errors are those of `CardLoop` from the opened destination, and at most `limit` images are saved |
| Crawl.NormalizeSeed | image_scraper_multitool.py:1126-1127 | the seed starts with `http://` or `https://`; one that does is kept, another gets `https://` |
| Crawl.NormalizeSeedIdempotent | image_scraper_multitool.py:1126-1127 | normalizing twice changes nothing |
| Crawl.FirstWord | image_scraper_multitool.py:1214 | a prefix without spaces, the whole text when it has none |
| Crawl.SrcsetLast | image_scraper_multitool.py:1212-1214 | the `srcset` candidate holds no space and no comma |
| Crawl.ImageSource | image_scraper_multitool.py:1205-1216 | `src`, else `data-src`, else `data-original`, else the last `srcset` entry |
| Crawl.Sources | image_scraper_multitool.py:1199-1216 | one source per `<img>`, in order (a definition; what the harvest promises of it is in `Crawl.HarvestImgs`) |
| Crawl.MentionsAnyMember | image_scraper_multitool.py:1242 | a link containing any listed word mentions one |
| Crawl.MentionsAnyWitness | image_scraper_multitool.py:1242 | a link that mentions the list contains one of its words |
| Crawl.IgnoredWordRejects | image_scraper_multitool.py:1240-1243 | a link whose lower-cased text holds `login`, `signup`, `signin`, `register`, `help`, `about` or `policy` is not followed |
| Crawl.LinkAllowedExactly | image_scraper_multitool.py:1230-1243 | a link is followed exactly when it is non-empty, on the seed's host, and its lower-cased text contains none of the ignored words |
| Crawl.HarvestImgs | image_scraper_multitool.py:1200-1219 | only harvestable sources of this page are added; without a stop every harvestable source is |
| Crawl.HarvestLinks | image_scraper_multitool.py:1222-1246 | the queue is extended only by allowed links one level deeper that were not visited |
| Crawl.ErrorKeepsGood | image_scraper_multitool.py:1248-1250 | recording a crawl error keeps the crawl invariant |
| Crawl.ImgsKeepGood | image_scraper_multitool.py:1199-1219 | harvesting images keeps the crawl invariant |
| Crawl.LinksKeepGood | image_scraper_multitool.py:1222-1246 | harvesting links below the depth keeps the crawl invariant |
| Crawl.PopKeepsGood | image_scraper_multitool.py:1173-1177 | popping the queue and marking the page visited keep the crawl invariant |
| Crawl.Visit | image_scraper_multitool.py:1181-1250 | an unreachable or failing page adds `Crawl error <url>: <e>` and nothing else; a good page adds its images; links only below the depth |
| Crawl.CrawlLoop | image_scraper_multitool.py:1167-1250 | the invariant holds, each page is loaded at most once, visited pages, images and errors only grow, and the queue is empty unless the stop flag ended the loop |
| Crawl.LoadKeepsOnce | image_scraper_multitool.py:1175-1182 | loading a page not yet visited keeps every page loaded at most once |
| Crawl.Env | image_scraper_multitool.py:1224-1237 | the crawl follows a link exactly when `LinkAllowed` holds for the seed's host (a definition; `Crawl.IgnoredWordRejects` proves what the filter rejects) |
| Crawl.CrawlSite | image_scraper_multitool.py:1126-1250 | the crawl from the normalized seed keeps the invariant, loads each page at most once, and ends with an empty queue unless stopped |
| Crawl.ShallowStaysAtSeed | image_scraper_multitool.py:1222 | with depth 0 a crawl that has seen only the seed visits nothing else |
| Crawl.DepthZeroVisitsOnlySeed | image_scraper_multitool.py:1222 | `recursion_depth` 0 visits the seed alone |
| Crawl.SeedVisited | image_scraper_multitool.py:1173-1177 | the state after the seed is popped and marked visited keeps the invariant |
| Crawl.SeedVisitedFirst | image_scraper_multitool.py:1167-1177 | without an early stop the crawl continues from that state |
| Crawl.SeedPageHarvested | image_scraper_multitool.py:1167-1219 | without a stop, a reachable seed is visited and all its harvestable images are collected |
| Crawl.SeedImagesFound | image_scraper_multitool.py:1200-1219 | without a stop, the seed's visit collects every harvestable image of the loaded seed page |
| Crawl.HarvestFindsAll | image_scraper_multitool.py:1200-1219 | with no stop, harvesting a page finds every harvestable `<img>` source on it |
| Crawl.SortBySrc | image_scraper_multitool.py:1271 | sorted by URL, and a permutation of the pairs |
| Crawl.Insert | image_scraper_multitool.py:1271 | inserting one pair into URL-sorted pairs keeps them sorted and adds exactly that pair |
| Crawl.SortedKeysUnique | image_scraper_multitool.py:1271 | two sorted lists with the same URLs are equal |
| Crawl.OrderIrrelevant | image_scraper_multitool.py:1271 | the order in which the set is listed does not change the sorted URLs |
| Crawl.CollectImages | image_scraper_multitool.py:1200-1219 | the `<img>` loop computes `HarvestImgs` |
| Crawl.CollectLinks | image_scraper_multitool.py:1226-1246 | the `<a>` loop computes `HarvestLinks` |
| Crawl.VisitPage | image_scraper_multitool.py:1181-1250 | one visit computes `Visit` |
| Crawl.CrawlQueue | image_scraper_multitool.py:1167-1250 | the `while queue_list` loop computes `CrawlLoop` |
| Crawl.Enumerate | image_scraper_multitool.py:1271 | `list(all_images)` holds every pair once |
| Crawl.CrawlPairs | image_scraper_multitool.py:1126-1271 | the crawl half: its errors are the crawl's, and the pairs listed are the crawl's set, each once |
| Crawl.DownloadPairs | image_scraper_multitool.py:1262-1392 | the download half: the counts follow `CrawlRun` from the opened directory holding the crawl's errors, and `saved` is within a positive limit |
| Crawl.Scrape | image_scraper_multitool.py:1106-1392 | an install failure returns only its message; a setup failure leaves only its message; otherwise the counts are the download of the sorted crawl result, and `saved` is within a positive limit |
| Cli.Dedup | image_scraper_multitool.py:1034 | `dict.fromkeys`: distinct, the same engines, no longer |
| Cli.DedupOrder | image_scraper_multitool.py:1034 | the engines keep the order of their first mention |
| Cli.DedupDistinct | image_scraper_multitool.py:1034 | distinct engines are left as they are |
| Cli.DedupIdentityIff | image_scraper_multitool.py:1034 | de-duplication changes a list exactly when it has a repeat |
| Cli.DedupIdempotent | image_scraper_multitool.py:1034 | de-duplicating twice changes nothing |
| Cli.Engines | image_scraper_multitool.py:1033-1034 | no engines means Bing then Google; otherwise the de-duplicated request; never empty, always distinct |
| Cli.MainFrom | image_scraper_multitool.py:1041-1079 | the exit code is 0, 1 or 2, results only accumulate, and the code is 0 exactly when every engine produced a result |
| Cli.MainFromCode | image_scraper_multitool.py:1073-1079 | a non-zero code stops at the first unreported engine: 2 exactly when it is unsupported, 1 only when its run raised |
| Cli.MainFromResults | image_scraper_multitool.py:1041-1076 | each appended result belongs, in order, to a supported engine whose run returned, with that run's counts and the destination `<output>/<engine>/<query folder>` |
| Cli.EngineLoop | image_scraper_multitool.py:1041-1079 | the engine loop returns what `MainFrom` gives for the engines and the query folder |
| Cli.RunEngines | image_scraper_multitool.py:1027-1094 | `main` follows `MainFrom` over the engines and the query folder slugified once, and exit code 0 means one result per engine |
| Gui.Ticked | image_scraper_gui.py:643-647 | Bing is listed iff ticked, Google iff ticked, in that order, and nothing iff neither |
| Gui.CompileOptions | image_scraper_gui.py:637-696 | no options exactly for a blank query, no engine outside URL mode, a missing or non-positive count, or a missing or non-positive timeout; otherwise the stripped query, `["custom"]` in URL mode or the ticked engines, `headless` the opposite of show-browser, and `keep_filenames`, `convert_webp`, the output directory and the chromedriver path passed through, and every numeric field (quality, `max_missed`, depth, resize width and height, each resolution component) kept when inside its range and clamped to the bound it crosses otherwise |
| Gui.CompileFormOf | image_scraper_gui.py:679-696 | a well-formed options record survives a round trip through the form |
| Gui.CompileIdempotent | image_scraper_gui.py:637-696 | compiling the form of compiled options gives the same options |
| Gui.RunFrom | image_scraper_gui.py:701-762 | at most one error; results only accumulate, at most one per engine |
| Gui.Folder | image_scraper_gui.py:707-740 | Bing writes under `bing`, Google under `google`, a URL crawl under `custom_url` |
| Gui.ErrorText | image_scraper_gui.py:755-761 | an unsupported engine is reported as `<Engine> run failed: Unsupported engine: <engine>`; a raising engine as `<Engine> run failed: <message>` |
| Gui.RunFromResults | image_scraper_gui.py:706-758 | each result belongs to a supported engine that was not stopped and did not raise, in engine order, with its counts and `<output>/<folder>/<slug>` |
| Gui.RunFromEnd | image_scraper_gui.py:754-762 | no error exactly when every engine ran or the stop flag was set; an error is `<Engine> run failed: <e>` for the engine that raised or is unsupported |
| Gui.RunCompletes | image_scraper_gui.py:701-762 | a run with no error whose stop flag was not set after its last result has a result for every engine |
| Gui.RunScraper | image_scraper_gui.py:698-764 | the loop follows `RunFrom`; without an error or a stop every engine has a result |
| Gui.StopFlagHalts | image_scraper_gui.py:701-704 | a stop flag set before engine `k` leaves at most `k` results |

## Left out

- Network, browser and imaging library: HTTP sessions, Selenium, ChromeDriver and Pillow are replaced by each
  item's `Outcome` and by parsed documents (anchors, cards, pages). Image decoding, chunked writes and
  pixel work are not modelled.
- Timing: `time.sleep`, scroll waits, `WebDriverWait` timeouts and the three scroll attempts per crawled page
  are left out. A timed-out preview wait is the `TimedOut` case of a card.
- Logging: all logging, the GUI log queue, `after()` callbacks and `main`'s printing of results are left out.
- Tk variables: the form arrives as plain values. `num_images` is an `IntVar` and `bing_timeout` a `DoubleVar`;
  on text that is not a number their `.get()` raises `TclError`, which the `except ValueError` of
  `_compile_options` does not catch. The model's `None` for those two fields stands for that raise, and the
  same raise from the other integer spin boxes is not modelled (they arrive as integers).
- Gui.CompileOptions: a `nan` timeout passes `timeout <= 0` in Python, but reals have no NaN, so the model
  cannot express that case.
- Paths: `expanduser()`/`resolve()` are left out. A destination is the triple (output directory, engine
  folder, query slug).
- Text: `\w`, `lower()` and `title()` are ASCII only. `\s` and `strip()` use Python's full whitespace list.
- Imaging.BoundWidth: the resize computes `int(h * (max_w / w))` in floating point; the model uses the integer
  `h * max_w / w`, which can differ by one after rounding.
- Imaging.BoundHeight: likewise `int(w * (max_h / h))` in floating point is modelled as the integer
  `w * max_h / h`, which can differ by one after rounding.
- Paths.UrlSplit: total. CPython's `urlsplit` raises `ValueError` on an invalid bracketed netloc (such as
  `http://[x/`); that raise is not modelled. In the program it would abort `collect_image_metadata` or
  `download_images` for Bing, reach the card's `except` in the Google loop, and reach the crawl download's outer
  `except`; since `target_path` is only assigned later in that iteration, that handler (1385-1390) would then
  unlink the previous item's target, or raise `NameError` on the first HTTP item.
- Google.CardBody: a card's fault is raised after its key joins `processed_cards` and before any image is
  collected. Two other raise points caught by the same `except` (703-894) are not modelled: before
  `processed_cards.add` (a stale element in the `get_attribute` calls), where the card stays unmarked and is
  retried, and inside `save_found_image` after `collected.append` (a `urlsplit` `ValueError` or an `OSError` from
  `target_path.exists()`, 603-622), where the image is collected but counted neither saved nor skipped.
- Google.CardLoop: its promise that every collected image is counted holds for the modelled fault position
  only; a raise inside `save_found_image` after `collected.append` would break it (see Google.CardBody).
- Google: the card loop can run forever against an endless page, so the model takes a finite sequence of
  rounds and has an `Exhausted` exit when they run out.
- Crawl: a site is a finite map from URLs to pages. A page either fails before any harvest or yields all of its
  images and links; a failure halfway through a page is not modelled.
- Crawl: the `loads` log records the pages handed to `driver.get`, in order; it stands for the browser.
- ChromeDriver install and Selenium import failures in `scrape_with_google`, and
  `ensure_webp_conversion_support` failures in `scrape_with_bing` and `scrape_with_google`, raise out of the engine functions. They
  reach the front ends as `Run.Raised` and are not modelled inside those functions.
- `scrape_custom_url` only wraps `GenericPageScraper.scrape` into a `ScrapeResult`. The GUI runner takes each
  engine's outcome as the `run` parameter instead of calling the engine models.
- Cli.RunEngines: `argparse` choices make an unsupported engine unreachable from the command line. The model still
  covers the exit code 2 branch.
- Ledger: the ledger file is modelled as the lines the run appends, each one entry of `Store.ledger`; a URL
  holding a line boundary is read back by a later run as several lines (Downloads.BrokenUrlNotReloaded), and a
  ledger file whose old content lacks a final newline is not modelled.
- Ledger: I/O errors on reading the ledger give an empty seen set, and append errors are flags in the `Outcome`.
  A partly written ledger line or a half-converted `.webp` file is not modelled.
- Bing: the JSON of `m`/`mad` arrives decoded. A decoded value that is not an object would raise in
  `collect_image_metadata`; the `Attr` type cannot express it.
- `iter_chunks`, `build_parser`, `configure_logging` and the Tk layout code are not part of this model.
