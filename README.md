# GPU price scraper, modelled in Dafny

The scraper asks for a GPU model number (digits only) and for whether
refurbished and open-box cards from Newegg are wanted. It then runs in two
halves joined by a page channel.

* The **fetcher** (`fetcher.py`) builds one search URL each for PC-Canada,
  Memory Express and Newegg, in that order. It starts one browser worker per
  URL. Each worker reads the rendered page, pushes every non-empty page source
  with its current URL on the channel, and clicks the site's "next" button
  until the final page. A shared counter of active workers is raised on entry
  and lowered on every exit path. Once the counter is seen at zero, a single
  `"END"` sentinel is pushed.
* The **parser** (`parser.py`) reads the channel up to the first `"END"` and
  runs one worker per page. A worker recognises the site from the page URL,
  picks that site's CSS classes, and turns every relevant item into a tuple
  `(price, url, gddr, ti_status, stock_status, newness)`. The coordinator
  then splits the tuples into an in-stock list and a list of all cards. It
  sorts each list by the price string and shows the first ten of each.

`main.py` feeds the first half's channel to the second.

The model has one module per concern:

| module | file | content |
|---|---|---|
| `Wrappers`, `Text` | text.dfy | `Option`; substring tests, the ASCII character classes, `str.strip` |
| `Listing` | listing.dfy | item, page, snapshot, channel message and record values; the three retailer base URLs |
| `Patterns` | patterns.dfy | the price regex `\$?\d+\.\d+` and the memory-size regex `\b\d{1,2}\s?GB?\b` (ignoring case), each written as a leftmost-first matcher that follows the backtracking order of Python's `re.search` |
| `Extractor` | extractor.dfy | `Parser.Worker`: site recognition, link, price, memory size, Ti flag, stock and condition of one item, and the item loop of one page; class `Worker` |
| `Aggregator` | aggregator.dfy | `Parser`: draining the channel, the stock partition, the stable price sort, the top ten; class `Parser` |
| `Fetching` | fetcher.dfy | `Fetcher`: the frontier, the pagination decision, scripted browser sessions, the active-worker counter and the sentinel; class `Fetcher` |
| `Pipeline` | pipeline.dfy | `main.py` end to end, and the properties that span both halves |

The model makes these choices:

* **Browser.** The browser is a parameter `browser: string -> Session`. For
  each URL it gives what `Driver(...)` does: raise, return a falsy driver, or
  return a working one. It also gives whether `open` succeeds, and a script of
  *turns*. Each turn holds the page source (or `None` when
  `get_page_source` raises), `current_url`, whether the "next" button is
  present, and whether looking for it or clicking it raises. A script that
  runs out counts as `get_page_source` raising: the loop then makes one more
  attempt to read a source, which ends it and is not counted as a turn.
* **HTML.** The HTML library is replaced by what it finds. A page is the list
  of item containers for the site's item class. For each item the model keeps
  the `href`s, texts and flags the extractor looks up, with `None` for a
  lookup that finds nothing. Dereferencing such a lookup raises, which the
  model writes as `Missing`.
* **Channel.** The channel is a sequence of `Page(snapshot)` entries and
  `End`.
* **Threads and processes.** Fetch workers run one after the other;
  parse workers run in submission order.

## Model

| member | source | states |
|---|---|---|
| `Fetching.Fetcher.constructor` | fetcher.py:18-28 | the query and the answer are stored; the counter starts at zero |
| `Fetching.Fetcher.Run` | fetcher.py:30-32 | after `main`, the channel holds the pages of the three frontier URLs, worker after worker in frontier order, then exactly one `End`. The frontier is drained, the three URLs were launched in order, the counter is back at zero, one quit happened per started driver, and the counter went 1, 0 once per worker |
| `Fetching.Fetcher.FrontierInitializer` | fetcher.py:34-46 | the frontier is exactly the three search URLs, PC-Canada, Memory Express, Newegg |
| `Fetching.FrontierShape` | fetcher.py:34-46 | the three URLs start with the PC-Canada, Memory Express and Newegg home pages, in that order, and each one embeds the query |
| `Fetching.NeweggUsedCardsFilter` | fetcher.py:39-42 | for a digit query, the Newegg URL carries the new-only filter code `%204814` exactly when the answer is not "y" |
| `Fetching.Fetcher.Fetch` | fetcher.py:48-61 | starts a fresh channel. Launches one worker per frontier URL in order until the frontier is empty, then runs the completion check. The channel ends up as every worker's pages in order, then `End` |
| `Fetching.Fetcher.DriverInitialization` | fetcher.py:63-87 | the counter is raised, then restored on every path. The worker's pages are appended to the channel. The driver is quit exactly when it started. The frontier is untouched |
| `Fetching.CounterTraceReadings` | fetcher.py:63-87 | during a fetch the counter reads 1 on each worker's entry and 0 on its exit |
| `Fetching.Fetcher.Request` | fetcher.py:92-110 | the channel gains exactly the non-empty page sources of the turns up to the first final page or the first raising `get_page_source`, with their URLs. The count returned is `Consumed(turns)`, the number of scripted turns read |
| `Fetching.RequestPushes` | fetcher.py:92-110 | the loop pushes at most one page per turn it reads |
| `Fetching.Consumed` | fetcher.py:92-110 | the loop reads no more turns than the script has, and at least one of a non-empty script |
| `Fetching.PaginationLength` | fetcher.py:92-110 | when turn `k` is the first that does not go on, the loop reads `k + 1` turns and pushes their non-empty sources, in order. When every source is non-empty, that is `k + 1` pages |
| `Fetching.OnlyConsumedTurnsMatter` | fetcher.py:96-110 | turns after the loop stops change neither the pages pushed nor the number of turns read |
| `Fetching.PushedSourcesNonEmpty` | fetcher.py:101-104 | every pushed page has a non-empty source, and no more pages are pushed than turns are read |
| `Fetching.FetchedSourcesNonEmpty` | fetcher.py:101-104 | no worker of a whole fetch pushes an empty page source |
| `Fetching.NextSelector` | fetcher.py:116-121 | a pagination selector exists exactly when the URL names "canada", "memory" or "newegg" |
| `Fetching.NextPageMeaning` | fetcher.py:114-131 | a page is not final exactly when the URL names a known host, the button is present, and neither looking for it nor clicking it raises. An unknown host always gives a final page |
| `Fetching.GotoNextPage` | fetcher.py:114-131 | the page is not final exactly when the host has a "next" selector, the button is present, and neither looking for it nor clicking it raises |
| `Fetching.Fetcher.CheckCompletion` | fetcher.py:136-144 | polls until the first zero reading of the counter, then appends one `End` |
| `Fetching.FirstZero` | fetcher.py:137-141 | the poll that ends the wait is the first one that reads zero |
| `Fetching.SentinelOnce` | fetcher.py:136-141 | the channel a fetch leaves has `End` last, exactly once, after page entries only |
| `Listing.AsPagesEntries` | fetcher.py:104 | entry `i` of the pushed pages is snapshot `i`, and none of them is the sentinel |
| `Listing.AsPagesAppend` | fetcher.py:104 | pushing two batches of pages one after the other gives the channel of their concatenation |
| `Aggregator.Parser.constructor` | parser.py:7-12 | the channel and the query are stored; both lists start empty |
| `Aggregator.Parser.Run` | parser.py:20-40 | one result per snapshot read before the first `End`, in order. The channel keeps only what follows that `End`. When some card was collected, the lists become the sorted partition and the first ten of each are shown; otherwise nothing is sorted or shown |
| `Aggregator.FirstEnd` | parser.py:23-26 | the read loop stops at the first `End`; every earlier entry is a page |
| `Aggregator.Submitted` | parser.py:23-29 | the snapshots submitted are exactly the channel entries before the first `End` |
| `Aggregator.Parser.FilterByStockStatus` | parser.py:43-58 | the list of all cards gains every record of every result that is not empty, in order. The in-stock list gains the same records, less those whose status is exactly "Out of Stock" |
| `Aggregator.PartitionIsExact` | parser.py:52-55 | the in-stock list holds only in-stock records, the other part only "Out of Stock" ones, and together they are all the records |
| `Aggregator.InStockIsSubsequence` | parser.py:52-55 | the in-stock list keeps the order of the list of all cards |
| `Aggregator.StrLeTotal` | parser.py:62-63 | the price comparison (Python's string order) relates any two prices |
| `Aggregator.StrLeTransitive` | parser.py:62-63 | the price comparison is transitive |
| `Aggregator.StrLeAntisymmetric` | parser.py:62-63 | two prices that compare both ways are equal |
| `Aggregator.StrLeReflexive` | parser.py:62-63 | every price compares to itself |
| `Aggregator.SortByPrice` | parser.py:62-63 | sorting keeps the number of records |
| `Aggregator.SortByPriceSorts` | parser.py:62-63 | `sort(key=price)` leaves the list ordered by price and a permutation of its old contents |
| `Aggregator.SortIsStable` | parser.py:62-63 | records with the same price keep their relative order (Python's sort is stable) |
| `Aggregator.Parser.SortByPriceAndShow` | parser.py:60-71 | both lists are sorted in place, and the shown rows are the first ten of each |
| `Aggregator.Top10` | parser.py:71 | the shown rows are the first `min(10, n)` records of the list |
| `Aggregator.ShownAreCheapest` | parser.py:60-71 | of a sorted list, every shown record costs no more than any record left out, and the shown rows are sorted |
| `Aggregator.ShownInStockAreInStock` | parser.py:53-71 | the in-stock rows are at most ten, sorted, in stock, and among the collected records |
| `Extractor.Worker.Run` | parser.py:88-110 | the worker's result on a snapshot is `PageRecords`: nothing for an unknown host, for a page without items or when an element is missing, else the page's records. The worker's website is the site's home page, or nothing for an unknown host; the open-box filter is set; the site's classes are stored, or left as they were for an unknown host |
| `Extractor.PageFailsIff` | parser.py:88-110 | a page yields nothing exactly when its host is unknown, it has no items, or one of its items misses an element it needs |
| `Extractor.PageRecordsRelevant` | parser.py:88-106 | every record of a page passes the relevance test, and its link is the resolved link of one of the page's items |
| `Extractor.ParseItemsFails` | parser.py:100-108 | the item loop aborts exactly when some item misses an element |
| `Extractor.ParseItemsOrigin` | parser.py:100-104 | every record of the loop is the parse of one of the items |
| `Extractor.ParseItemsKeepsOrder` | parser.py:100-106 | the page's records are the items' records in item order, one or none per item |
| `Extractor.ParseItems` | parser.py:100-106 | the item loop keeps at most one record per item |
| `Extractor.PageRecordsOk` | parser.py:88-106 | a page yields records only for a known host and a non-empty item list, and they are the item loop's records; such a page yields records whenever the loop does not abort |
| `Extractor.Worker.DetermineFilters` | parser.py:112-136 | sets the open-box filter every time. When the URL names "canada", "memory" or "newegg" (checked in that order), it sets that site's classes and returns its home page. Otherwise it returns nothing and leaves the classes as they were |
| `Extractor.SiteFiltersByHost` | parser.py:112-136 | a URL naming "canada" gets PC-Canada's classes; one naming "memory" but not "canada" gets Memory Express's; one naming "newegg" but neither of the others gets Newegg's; no classes exactly when it names none of the three |
| `Extractor.SiteFragments` | parser.py:114-136 | each home page names exactly its own site among "canada", "memory" and "newegg" |
| `Extractor.ClassifyBaseUrl` | parser.py:114-136 | each site's returned website is its home page, and that home page is recognised as the same site |
| `Extractor.ResolveLink` | parser.py:141-145 | on Newegg the link fails exactly when the first anchor has no `href`. Elsewhere it fails exactly when the classed anchor has no `href`, and a resolved link starts with the home page |
| `Extractor.LinkRules` | parser.py:141-145 | the value of the link per site: on Newegg the first anchor's `href` unchanged, elsewhere the home page followed by the classed anchor's `href` |
| `Extractor.MemoryExpressAlwaysRelevant` | parser.py:147-149 | every resolved Memory Express link passes the relevance test, whatever the query |
| `Extractor.Parsing` | parser.py:140-152 | a kept record carries the item's resolved link, which passes the relevance test, and has non-empty memory size and condition. An item whose link fails the test yields nothing |
| `Extractor.ParsingYields` | parser.py:140-152 | an item fails exactly when its link is missing or, for a relevant link, its description, price element or stock element is. It yields a record exactly when its link resolves and is relevant, its attributes parse and a price was found; the record then holds the price, the link, the memory size, Ti flag, stock status and condition |
| `Extractor.Complete` | parser.py:151-152 | a tuple becomes a record exactly when its price is not `None` |
| `Extractor.UnpricedItemDropped` | parser.py:150-168 | off Newegg, an item whose price text has no `\d\.\d` yields no record |
| `Extractor.ParseGpuAttributes` | parser.py:154-164 | raises exactly when the description, the price element (or Newegg's `<strong>`) or PC-Canada's stock label is missing. Otherwise the tuple carries the link and a non-empty memory size and condition |
| `Extractor.AttributeFields` | parser.py:154-164 | the tuple is the price attribute, the link, the memory size and Ti flag of the description, the stock status and the condition |
| `Extractor.TiFlagIsCaseInsensitive` | parser.py:157 | the Ti flag is set exactly when "ti" occurs in the ASCII-lowercased description |
| `Extractor.PriceAttribute` | parser.py:166-172 | raises exactly when the price element is missing, or the `<strong>` on Newegg. Off Newegg, a price exists exactly when the price text holds a digit, a dot and a digit, and it is price-shaped text that occurs in the price text. On Newegg there is always a price |
| `Extractor.PriceInStrippedText` | parser.py:167 | a price found in the stripped text occurs in the original text |
| `Extractor.StripKeepsDecimal` | parser.py:167 | stripping the price text neither adds nor removes a digit-dot-digit |
| `Extractor.PriceIsLeftmost` | parser.py:167-168 | off Newegg the price is the leftmost match of `\$?\d+\.\d+` in the stripped text, and the longest one starting there |
| `Extractor.NeweggPriceReassembly` | parser.py:169-170 | a Newegg price is `"$" + strong + ".99"`, which has the price shape when `strong` is digits |
| `Extractor.NeweggPriceExample` | parser.py:169-170 | a Newegg item whose `<strong>` reads "249" is priced "$249.99" |
| `Extractor.GddrAttribute` | parser.py:174-178 | the memory size is never empty. It is either "No GDDR information available" or text of the description of the shape `\d{1,2}\s?GB?` |
| `Extractor.GddrFallback` | parser.py:175-176 | the fallback message is given exactly when no part of the description matches `\b\d{1,2}\s?GB?\b`; otherwise the memory size is the leftmost match |
| `Extractor.StockRules` | parser.py:180-189 | PC-Canada takes the label text and raises when it is missing. Newegg is "Out of Stock" exactly when the promo element is there and never raises. Memory Express is always "In stock" |
| `Extractor.StockAttribute` | parser.py:180-189 | raises exactly when the website names "canada" and the label is missing, and then takes the label text. Otherwise, for a website naming "newegg", the status is "Out of Stock" exactly when the promo element is there and "In stock" else. Any other website gives "In stock" |
| `Extractor.NewnessAttribute` | parser.py:191-195 | the condition is never empty. It is the open-box tag's text when the tag is there with non-empty text, and "New" exactly when there is no tag or its text is empty or "New" |
| `Patterns.FindPrice` | parser.py:167 | `re.search(r"\$?\d+\.\d+", s)` matches exactly when `s` holds a digit, a dot and a digit. The match has the price shape and occurs in `s` |
| `Patterns.PriceMatchAtExact` | parser.py:167 | any match of `\$?\d+\.\d+` that starts at a position is found there, and ends no later than the one found |
| `Patterns.SearchPriceLeftmost` | parser.py:167 | the search finds nothing exactly when no part of the text matches; otherwise it finds the leftmost match, and the longest one there |
| `Patterns.SearchGddr` | parser.py:175 | a match of `\b\d{1,2}\s?GB?\b` has that shape and occurs in the text |
| `Patterns.GddrMatchAtExact` | parser.py:175 | a match of `\b\d{1,2}\s?GB?\b` that starts at a position is the one found there: one start admits a single match |
| `Patterns.SearchGddrLeftmost` | parser.py:175 | the search finds nothing exactly when no part of the text matches, word boundaries included; otherwise it finds the leftmost match |
| `Text.Strip` | parser.py:167 | `str.strip()` returns the part of its input that has only whitespace before and after it, and neither starts nor ends with whitespace |
| `Pipeline.Scrape` | main.py:15-22 | for a digit query and a "y"/"n" answer, the two lists shown are those of the pure pipeline: every record parsed from the pages of the three search URLs, partitioned, sorted, cut at ten |
| `Pipeline.ChannelRoundTrip` | main.py:18-22 | the parser reads back exactly the snapshots the fetcher pushed before its sentinel |
| `Pipeline.ShownRecordsRelevant` | main.py:15-22 | both shown lists have at most ten rows, are sorted by price, and hold only records that pass the relevance test. The in-stock list holds only in-stock records |
| `Pipeline.ShownAll` | parser.py:35-71 | the "All GPUs" rows are at most ten, and there are none exactly when no record was collected |
| `Pipeline.ShownInStock` | parser.py:35-71 | the in-stock rows are at most ten |
| `Pipeline.FrontierClassifies` | fetcher.py:35-42 | for a digit query, the parser recognises the three search URLs as PC-Canada, Memory Express and Newegg, in that order |

## Left out

- Selenium and BeautifulSoup. The browser and the HTML library become
  parameters, as described above; CSS-class matching inside the HTML
  library is not modelled.
- Threads, the lock, the process pool and the inter-process queue.
  - The fetch workers run one after the other, and the parse workers run
    in submission order.
  - So the race where `check_completion` can see zero before every worker
    has counted itself in is not modelled.
  - Nor are the interleavings of pages from concurrent workers on the
    channel.
  - `Fetching.Fetcher.Fetch` calls `CheckCompletion` with the single
    reading zero, which is what a sequential run gives.
- `time.sleep`, the timeouts of `result.get(timeout=10)`, and the
  exceptions they raise.
- Every message written with `print` or `console.print`. The display
  formatting of `sort_by_price` (the "Ti",
  website and "GB" decorations, parser.py:72-80) is not modelled. The
  model returns the rows that are shown. parser.py:75 calls `re.search("\d+",
  gddr)[0]` on the fallback "No GDDR information available", which raises;
  this display step is not part of this model.
- `get_user_input`'s prompting loop. Its two checks become the preconditions
  `Pipeline.ValidQuery` and `Pipeline.ValidAnswer`.
- Unicode. `str.isdigit`, `\d`, `\s`, `\b`, `str.strip` and `re.IGNORECASE`
  are taken on their ASCII meaning.
- Fetching.Fetcher.DriverInitialization: a `Driver(...)` that raises leaves
  `driver` unbound, so the `finally` block raises after lowering the counter.
  The model keeps the decrement and has no quit, but does not model the
  escaping exception.
- Fetching.Fetcher.Request: `driver.current_url` and `BeautifulSoup(...)`
  are taken never to raise.
- Extractor.Worker.Run: a page of an unknown host reaches `find_all` with an
  unset class attribute, which raises. The model gives it the same outcome
  as any caught exception, `None`.
- Aggregator.Parser.FilterByStockStatus: `result_object.get` is taken never
  to raise, so its error message path is not modelled.
- The methods called `main` are named `Run` in the model.
