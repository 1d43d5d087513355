/**
 * The fetch side of the scraper (fetcher.py, class `Fetcher`): it builds
 * the three search URLs, starts one browser worker per URL, lets each
 * worker page through its site's results and push every rendered page on
 * the page channel, and finally pushes the `"END"` sentinel once the count
 * of active workers is observed at zero.
 *
 * The browser is replaced by a scripted session: what `Driver(...)` gives,
 * whether `driver.open(url)` succeeds, and for each turn of the pagination
 * loop the page source, the current URL, whether the "next" button is
 * present and whether pagination raises. Workers run one after the other.
 */
module Fetching {
  import opened Wrappers
  import opened Text
  import opened Listing

  // ---------------------------------------------------------------------
  // The frontier
  // ---------------------------------------------------------------------

  const PcCanadaSearch := PcCanadaBase + "s/?query="
  const PcCanadaTail := "&productType=Graphic%20Card"
  const MemoryExpressSearch := MemoryExpressBase + MemoryExpressQuery
  const MemoryExpressQuery := "Category/VideoCards?FilterID=" + "b9021f59-29a3-73a7-59b5-125edab939f2"
    + "&InventoryType=In" + "Stock&Inventory=OnlineStore&" + "Search="
  const MemoryExpressTail := "&ViewMode=List"
  /** Newegg's search with the graphics-card category code. */
  const NeweggSearch := NeweggBase + "p/pl?N=100007708"
  /** The extra filter code that restricts Newegg to new cards. */
  const NewOnlyFilter := "%204814"
  const NeweggTail := "&SrchInDesc="

  /** `frontier_initializer`: the three search URLs, in the order they are queued. */
  function FrontierUrls(gpu: string, allowUsedCards: string): (urls: seq<string>)
    ensures |urls| == 3
  {
    [ PcCanadaSearch + gpu + PcCanadaTail,
      MemoryExpressSearch + gpu + MemoryExpressTail,
      NeweggSearch + (if allowUsedCards == "y" then "" else NewOnlyFilter) + NeweggTail + gpu ]
  }

  /** The frontier is pc-canada, memoryexpress, newegg, in that order, and every URL embeds the query. */
  lemma {:induction false} FrontierShape(gpu: string, allowUsedCards: string)
    ensures var urls := FrontierUrls(gpu, allowUsedCards);
            && StartsWith(urls[0], PcCanadaBase)
            && StartsWith(urls[1], MemoryExpressBase)
            && StartsWith(urls[2], NeweggBase)
            && forall i :: 0 <= i < |urls| ==> Contains(urls[i], gpu)
  {
    var urls := FrontierUrls(gpu, allowUsedCards);
    SearchUrlShape(PcCanadaBase, "s/?query=", gpu, PcCanadaTail);
    SearchUrlShape(MemoryExpressBase, MemoryExpressQuery, gpu, MemoryExpressTail);
    NeweggUrlShape(gpu, allowUsedCards);
    assert urls[0] == PcCanadaBase + "s/?query=" + gpu + PcCanadaTail;
    assert urls[1] == MemoryExpressBase + MemoryExpressQuery + gpu + MemoryExpressTail;
  }

  lemma {:induction false} NeweggUrlShape(gpu: string, allowUsedCards: string)
    ensures StartsWith(FrontierUrls(gpu, allowUsedCards)[2], NeweggBase)
    ensures Contains(FrontierUrls(gpu, allowUsedCards)[2], gpu)
  {
    var flag := if allowUsedCards == "y" then "" else NewOnlyFilter;
    SearchUrlShape(NeweggBase, "p/pl?N=100007708" + flag + NeweggTail, gpu, "");
    assert NeweggBase + ("p/pl?N=100007708" + flag + NeweggTail) + gpu + "" == FrontierUrls(gpu, allowUsedCards)[2];
  }

  /** A search URL `base + query + gpu + tail` starts with the base and embeds the query. */
  lemma {:induction false} SearchUrlShape(base: string, query: string, gpu: string, tail: string)
    ensures StartsWith(base + query + gpu + tail, base)
    ensures Contains(base + query + gpu + tail, gpu)
  {
    StartsWithConcat(base, query + gpu + tail);
    assert base + query + gpu + tail == base + (query + gpu + tail);
    ContainsInfix(base + query, gpu, tail);
  }

  /** No character of a string of digits is `c` unless `c` is a digit. */
  lemma {:induction false} DigitsLack(gpu: string, c: char)
    requires AllDigits(gpu) && !IsDigit(c)
    ensures c !in gpu
  {
    forall k | 0 <= k < |gpu| ensures gpu[k] != c {
      assert IsDigit(gpu[k]);
    }
  }

  /**
   * Refurbished and open-box cards: the Newegg URL carries the new-only
   * filter code exactly when the answer was not "y".
   */
  lemma {:induction false} NeweggUsedCardsFilter(gpu: string, allowUsedCards: string)
    requires AllDigits(gpu)
    ensures Contains(FrontierUrls(gpu, allowUsedCards)[2], NewOnlyFilter) <==> allowUsedCards != "y"
  {
    var url := FrontierUrls(gpu, allowUsedCards)[2];
    if allowUsedCards == "y" {
      assert '%' !in NeweggBase;
      assert '%' !in "p/pl?N=100007708";
      assert '%' !in NeweggTail;
      DigitsLack(gpu, '%');
      assert url == NeweggBase + "p/pl?N=100007708" + NeweggTail + gpu;
      AbsentCharExcludes(url, NewOnlyFilter, 0);
    } else {
      ContainsInfix(NeweggSearch, NewOnlyFilter, NeweggTail + gpu);
      assert url == NeweggSearch + NewOnlyFilter + (NeweggTail + gpu);
    }
  }

  // ---------------------------------------------------------------------
  // Pagination
  // ---------------------------------------------------------------------

  /** The CSS selector of the "next page" button, chosen by host the same way the parser chooses its filters. */
  function NextSelector(url: string): (r: Option<string>)
    ensures r.Some? <==> Contains(url, "canada") || Contains(url, "memory") || Contains(url, "newegg")
  {
    if Contains(url, "canada") then Some(".ais-Pagination-item--nextPage a")
    else if Contains(url, "memory") then Some(".AJAX_List_Pager_Next a")
    else if Contains(url, "newegg") then Some("button[title='Next']:not([disabled])")
    else None
  }

  /**
   * `goto_next_page`: `final_page_reached`. It is false only when the host
   * is known, the button is present and clicking it does not raise; an
   * unknown host leaves the selector unbound, which raises and is caught.
   */
  function GotoNextPage(url: string, nextPresent: bool, paginationFails: bool): (final: bool)
    ensures !final <==> NextSelector(url).Some? && nextPresent && !paginationFails
  {
    match NextSelector(url)
    case None => true
    case Some(_) => if paginationFails then true else !nextPresent
  }

  /** The meaning of `goto_next_page`'s result: not final iff the button of a known host was present and clicked. */
  lemma {:induction false} NextPageMeaning(url: string, nextPresent: bool, paginationFails: bool)
    ensures !GotoNextPage(url, nextPresent, paginationFails) <==>
            (Contains(url, "canada") || Contains(url, "memory") || Contains(url, "newegg")) && nextPresent && !paginationFails
    ensures !Contains(url, "canada") && !Contains(url, "memory") && !Contains(url, "newegg") ==>
            GotoNextPage(url, nextPresent, paginationFails)
  {
  }

  // ---------------------------------------------------------------------
  // Scripted sessions
  // ---------------------------------------------------------------------

  /**
   * One turn of the pagination loop: `None` for a `get_page_source` that
   * raises, otherwise the page (whose `source` may be empty), then
   * `driver.current_url`, whether the "next" button is present and
   * whether looking for or clicking it raises.
   */
  datatype Rendering = Rendering(source: Option<Markup>, url: string, nextPresent: bool, paginationFails: bool)

  /** What `Driver(uc=True, headless=True)` does: raise, give a falsy driver, or give a working one. */
  datatype DriverStart = DriverRaises | DriverFalsy | DriverReady

  /** A browser session for one URL: how the driver starts, whether `open` succeeds, and the turns of the loop. */
  datatype Session = Session(start: DriverStart, opens: bool, turns: seq<Rendering>)

  /** The loop goes on after this turn: the source was read and the page was not final. */
  predicate Advances(t: Rendering)
  {
    t.source.Some? && !GotoNextPage(t.url, t.nextPresent, t.paginationFails)
  }

  /** What one turn whose source was read pushes: its page and URL, when the source is non-empty. */
  function Emitted(t: Rendering): seq<Snapshot>
    requires t.source.Some?
  {
    if t.source.value.source != "" then [Snapshot(t.source.value, t.url)] else []
  }

  /**
   * The snapshots pushed by `request` for a script, at most one per turn
   * read; running out of script counts as `get_page_source` raising.
   */
  function RequestPushes(turns: seq<Rendering>): (r: seq<Snapshot>)
    ensures |r| <= Consumed(turns)
  {
    if turns == [] || turns[0].source.None? then []
    else
      var t := turns[0];
      Emitted(t) + (if Advances(t) then RequestPushes(turns[1..]) else [])
  }

  /**
   * Where the `request` loop stands after `i` turns having pushed `pushed`:
   * while it goes on, what it still pushes and reads completes the whole;
   * once over, it has pushed and read exactly that.
   */
  predicate RequestProgress(turns: seq<Rendering>, i: nat, pushed: seq<Snapshot>, over: bool)
  {
    i <= |turns| &&
    if over then pushed == RequestPushes(turns) && i == Consumed(turns)
    else pushed + RequestPushes(turns[i..]) == RequestPushes(turns) && i + Consumed(turns[i..]) == Consumed(turns)
  }

  /** One turn whose source was read keeps the loop's progress. */
  lemma {:induction false} TurnStep(turns: seq<Rendering>, i: nat, pushed: seq<Snapshot>)
    requires RequestProgress(turns, i, pushed, false)
    requires i < |turns| && turns[i].source.Some?
    ensures var t := turns[i];
            RequestProgress(turns, i + 1, pushed + Emitted(t), GotoNextPage(t.url, t.nextPresent, t.paginationFails))
  {
    TurnPushes(turns, i, pushed);
    TurnCounts(turns, i);
  }

  lemma {:induction false} TurnPushes(turns: seq<Rendering>, i: nat, pushed: seq<Snapshot>)
    requires i < |turns| && turns[i].source.Some?
    requires pushed + RequestPushes(turns[i..]) == RequestPushes(turns)
    ensures Advances(turns[i]) ==> (pushed + Emitted(turns[i])) + RequestPushes(turns[i + 1..]) == RequestPushes(turns)
    ensures !Advances(turns[i]) ==> pushed + Emitted(turns[i]) == RequestPushes(turns)
  {
    var rest := turns[i..];
    assert rest[0] == turns[i];
    assert rest[1..] == turns[i + 1..];
    var e := Emitted(turns[i]);
    var later := if Advances(turns[i]) then RequestPushes(turns[i + 1..]) else [];
    assert RequestPushes(rest) == e + later;
    assert (pushed + e) + later == pushed + (e + later);
    if !Advances(turns[i]) {
      assert e + later == e;
    }
  }

  lemma {:induction false} TurnCounts(turns: seq<Rendering>, i: nat)
    requires i < |turns| && turns[i].source.Some?
    requires i + Consumed(turns[i..]) == Consumed(turns)
    ensures Advances(turns[i]) ==> i + 1 + Consumed(turns[i + 1..]) == Consumed(turns)
    ensures !Advances(turns[i]) ==> i + 1 == Consumed(turns)
  {
    var rest := turns[i..];
    assert rest[0] == turns[i];
    assert rest[1..] == turns[i + 1..];
  }

  /** A turn past the end of the script, or one whose source raises, ends the loop. */
  lemma {:induction false} TurnEnds(turns: seq<Rendering>, i: nat, pushed: seq<Snapshot>)
    requires RequestProgress(turns, i, pushed, false)
    requires i == |turns| || turns[i].source.None?
    ensures pushed == RequestPushes(turns)
    ensures (if i == |turns| then i else i + 1) == Consumed(turns)
  {
    if i < |turns| {
      assert turns[i..][0] == turns[i];
    }
  }

  /**
   * The number of turns of the script the `request` loop reads: up to and
   * including the first that does not advance. When every turn advances the
   * script runs out, and the next attempt to read a page source is taken to
   * raise; it ends the loop and is not a turn of the script.
   */
  function Consumed(turns: seq<Rendering>): (n: nat)
    ensures n <= |turns|
    ensures n == 0 <==> turns == []
  {
    if turns == [] then 0
    else if Advances(turns[0]) then 1 + Consumed(turns[1..])
    else 1
  }

  /** The snapshots of the turns whose page source is non-empty, in order. */
  function NonEmptySnapshots(turns: seq<Rendering>): seq<Snapshot>
  {
    if turns == [] then []
    else
      var t := turns[0];
      (if t.source.Some? && t.source.value.source != "" then [Snapshot(t.source.value, t.url)] else [])
      + NonEmptySnapshots(turns[1..])
  }

  lemma {:induction false} NonEmptySnapshotsLength(turns: seq<Rendering>)
    requires forall j :: 0 <= j < |turns| ==> turns[j].source.Some? && turns[j].source.value.source != ""
    ensures |NonEmptySnapshots(turns)| == |turns|
  {
    if turns != [] {
      NonEmptySnapshotsLength(turns[1..]);
    }
  }

  /**
   * A script whose first `k` turns have a "next" button to click and whose
   * turn `k` is final gets `k + 1` turns of the loop and pushes the
   * non-empty pages among them: `k + 1` pushes when every source is
   * non-empty.
   */
  lemma {:induction false} PaginationLength(turns: seq<Rendering>, k: nat)
    requires k < |turns|
    requires forall j :: 0 <= j < k ==> Advances(turns[j])
    requires turns[k].source.Some? && !Advances(turns[k])
    ensures Consumed(turns) == k + 1
    ensures RequestPushes(turns) == NonEmptySnapshots(turns[..k + 1])
    ensures (forall j :: 0 <= j <= k ==> turns[j].source.Some? && turns[j].source.value.source != "") ==> |RequestPushes(turns)| == k + 1
  {
    if k == 0 {
      assert turns[..1][1..] == [];
    } else {
      assert forall j :: 0 <= j < k - 1 ==> turns[1..][j] == turns[j + 1];
      PaginationLength(turns[1..], k - 1);
      assert turns[..k + 1][1..] == turns[1..][..k];
    }
    if forall j :: 0 <= j <= k ==> turns[j].source.Some? && turns[j].source.value.source != "" {
      NonEmptySnapshotsLength(turns[..k + 1]);
    }
  }

  /** The loop stops at the first final turn: the turns after it are never read. */
  lemma {:induction false} OnlyConsumedTurnsMatter(turns: seq<Rendering>, more: seq<Rendering>)
    requires Consumed(turns) < |turns|
    ensures RequestPushes(turns + more) == RequestPushes(turns)
    ensures Consumed(turns + more) == Consumed(turns)
  {
    assert (turns + more)[0] == turns[0];
    if Advances(turns[0]) {
      assert (turns + more)[1..] == turns[1..] + more;
      OnlyConsumedTurnsMatter(turns[1..], more);
    }
  }

  /** The pages one worker pushes: none when the driver did not start or the site could not be opened. */
  function WorkerSnapshots(session: Session): seq<Snapshot>
  {
    if session.start == DriverReady && session.opens then RequestPushes(session.turns) else []
  }

  /**
   * Only non-empty page sources are pushed, at most one per turn read, and
   * a worker whose driver did not start or whose site did not open pushes
   * nothing.
   */
  lemma {:induction false} PushedSourcesNonEmpty(turns: seq<Rendering>)
    ensures forall s :: s in RequestPushes(turns) ==> s.markup.source != ""
    ensures |RequestPushes(turns)| <= Consumed(turns)
  {
    if turns != [] && turns[0].source.Some? && Advances(turns[0]) {
      PushedSourcesNonEmpty(turns[1..]);
    }
  }

  /** Every page that reaches the channel has a non-empty source. */
  lemma {:induction false} FetchedSourcesNonEmpty(urls: seq<string>, browser: string -> Session)
    ensures forall s :: s in FetchedSnapshots(urls, browser) ==> s.markup.source != ""
  {
    if urls != [] {
      FetchedSourcesNonEmpty(urls[..|urls| - 1], browser);
      PushedSourcesNonEmpty(browser(urls[|urls| - 1]).turns);
    }
  }

  /** The pages the workers push for `urls`, one worker after the other in frontier order. */
  function FetchedSnapshots(urls: seq<string>, browser: string -> Session): seq<Snapshot>
  {
    if urls == [] then []
    else FetchedSnapshots(urls[..|urls| - 1], browser) + WorkerSnapshots(browser(urls[|urls| - 1]))
  }

  /** The number of workers whose driver started and is therefore quit. */
  function ReadyCount(urls: seq<string>, browser: string -> Session): (n: nat)
    ensures n <= |urls|
  {
    if urls == [] then 0
    else ReadyCount(urls[..|urls| - 1], browser) + (if browser(urls[|urls| - 1]).start == DriverReady then 1 else 0)
  }

  /** The counter readings of `n` workers in a row: up to one, back to zero, each time. */
  function CounterTrace(n: nat): (r: seq<int>)
    ensures |r| == 2 * n
  {
    if n == 0 then [] else CounterTrace(n - 1) + [1, 0]
  }

  /** Each worker's readings: one on entry, zero again on exit. */
  lemma {:induction false} CounterTraceReadings(n: nat)
    ensures forall j :: 0 <= j < n ==> CounterTrace(n)[2 * j] == 1 && CounterTrace(n)[2 * j + 1] == 0
  {
    if n > 0 {
      CounterTraceReadings(n - 1);
    }
  }

  /** Position of the first zero among the poller's readings of the counter. */
  function FirstZero(polls: seq<int>): (k: nat)
    requires 0 in polls
    ensures k < |polls| && polls[k] == 0
    ensures forall j :: 0 <= j < k ==> polls[j] != 0
  {
    if polls[0] == 0 then 0 else 1 + FirstZero(polls[1..])
  }

  /** The channel a fetch leaves: the pushed pages, then exactly one `"END"`, last. */
  lemma {:induction false} SentinelOnce(snaps: seq<Snapshot>)
    ensures var channel := AsPages(snaps) + [End];
            && channel[|channel| - 1] == End
            && multiset(channel)[End] == 1
            && forall j :: 0 <= j < |channel| - 1 ==> channel[j].Page?
  {
    var pages := AsPages(snaps);
    AsPagesEntries(snaps);
    assert multiset(pages)[End] == 0;
  }

  /** One more worker appends its pages, its quit and its two counter readings. */
  lemma {:induction false} FetchedStep(frontier: seq<string>, n: nat, browser: string -> Session,
                                       launched: seq<string>, history: seq<int>)
    requires n < |frontier|
    ensures launched + frontier[..n] + [frontier[n]] == launched + frontier[..n + 1]
    ensures history + CounterTrace(n) + [1, 0] == history + CounterTrace(n + 1)
    ensures var url := frontier[n];
            var fetched := FetchedSnapshots(frontier[..n], browser);
            && FetchedSnapshots(frontier[..n + 1], browser) == fetched + WorkerSnapshots(browser(url))
            && AsPages(FetchedSnapshots(frontier[..n + 1], browser)) == AsPages(fetched) + AsPages(WorkerSnapshots(browser(url)))
            && ReadyCount(frontier[..n + 1], browser) == ReadyCount(frontier[..n], browser) + (if browser(url).start == DriverReady then 1 else 0)
            && CounterTrace(n + 1) == CounterTrace(n) + [1, 0]
  {
    assert frontier[..n + 1][..n] == frontier[..n];
    assert frontier[..n + 1] == frontier[..n] + [frontier[n]];
    AsPagesAppend(FetchedSnapshots(frontier[..n], browser), WorkerSnapshots(browser(frontier[n])));
  }

  /** Pushing one more snapshot appends its channel entry. */
  lemma {:induction false} PushPage(start: seq<Message>, pushed: seq<Snapshot>, s: Snapshot)
    ensures start + AsPages(pushed + [s]) == (start + AsPages(pushed)) + [Page(s)]
  {
    AsPagesAppend(pushed, [s]);
    assert AsPages([s]) == [Page(s)];
  }

  /** Where `fetch` stands after `n` workers: their launches, pages, quits and counter readings. */
  ghost predicate FetchProgress(frontier: seq<string>, n: nat, browser: string -> Session,
                                launched0: seq<string>, quits0: nat, history0: seq<int>,
                                launched: seq<string>, pages: seq<Message>, quits: nat, history: seq<int>)
  {
    n <= |frontier|
    && launched == launched0 + frontier[..n]
    && pages == AsPages(FetchedSnapshots(frontier[..n], browser))
    && quits == quits0 + ReadyCount(frontier[..n], browser)
    && history == history0 + CounterTrace(n)
  }

  /** The worker for `frontier[n]` moves `fetch` one step on. */
  lemma {:induction false} FetchWorkerStep(frontier: seq<string>, n: nat, browser: string -> Session,
                                           launched0: seq<string>, quits0: nat, history0: seq<int>,
                                           launched1: seq<string>, launched: seq<string>, pages1: seq<Message>, quits1: nat, history1: seq<int>,
                                           pages2: seq<Message>, quits2: nat, history2: seq<int>)
    requires n < |frontier|
    requires FetchProgress(frontier, n, browser, launched0, quits0, history0, launched1, pages1, quits1, history1)
    requires launched == launched1 + [frontier[n]]
    requires pages2 == pages1 + AsPages(WorkerSnapshots(browser(frontier[n])))
    requires quits2 == quits1 + (if browser(frontier[n]).start == DriverReady then 1 else 0)
    requires history2 == history1 + [1, 0]
    ensures FetchProgress(frontier, n + 1, browser, launched0, quits0, history0, launched, pages2, quits2, history2)
  {
    FetchedStep(frontier, n, browser, launched0, history0);
  }

  /** Before any worker, `fetch` has launched nothing and pushed nothing. */
  lemma {:induction false} FetchStart(frontier: seq<string>, browser: string -> Session,
                                      launched0: seq<string>, quits0: nat, history0: seq<int>)
    ensures FetchProgress(frontier, 0, browser, launched0, quits0, history0, launched0, [], quits0, history0)
  {
    assert frontier[..0] == [];
    assert launched0 + [] == launched0 && history0 + [] == history0;
  }

  /** Once every worker ran, `fetch` has launched the whole frontier and pushed all its pages. */
  lemma {:induction false} FetchDone(frontier: seq<string>, browser: string -> Session,
                                     launched0: seq<string>, quits0: nat, history0: seq<int>,
                                     launched: seq<string>, pages: seq<Message>, quits: nat, history: seq<int>)
    requires FetchProgress(frontier, |frontier|, browser, launched0, quits0, history0, launched, pages, quits, history)
    ensures launched == launched0 + frontier
    ensures pages == AsPages(FetchedSnapshots(frontier, browser))
    ensures quits == quits0 + ReadyCount(frontier, browser)
    ensures history == history0 + CounterTrace(|frontier|)
  {
    assert frontier[..|frontier|] == frontier;
  }

  // ---------------------------------------------------------------------
  // The fetcher object
  // ---------------------------------------------------------------------

  /** `Fetcher`: the frontier, the count of active workers and the page channel. */
  class Fetcher {
    const gpu: string
    const allowUsedCards: string
    var activeThreads: int
    var urlFrontier: seq<string>
    var pages: seq<Message>
    /** The URLs a worker was started for, in order. */
    var launched: seq<string>
    /** How many drivers were quit. */
    var quits: nat
    /** Every value the counter takes, in order. */
    ghost var counterHistory: seq<int>

    constructor (gpu: string, allowUsedCards: string)
      ensures this.gpu == gpu && this.allowUsedCards == allowUsedCards
      ensures activeThreads == 0 && urlFrontier == [] && pages == [] && launched == [] && quits == 0
      ensures counterHistory == []
    {
      this.gpu := gpu;
      this.allowUsedCards := allowUsedCards;
      activeThreads := 0;
      urlFrontier, pages, launched := [], [], [];
      quits := 0;
      counterHistory := [];
    }

    /** `main`: build the frontier, then fetch. */
    method Run(browser: string -> Session)
      requires activeThreads == 0
      modifies this
      ensures pages == AsPages(FetchedSnapshots(FrontierUrls(gpu, allowUsedCards), browser)) + [End]
      ensures urlFrontier == [] && launched == old(launched) + FrontierUrls(gpu, allowUsedCards)
      ensures activeThreads == 0
      ensures quits == old(quits) + ReadyCount(FrontierUrls(gpu, allowUsedCards), browser)
      ensures counterHistory == old(counterHistory) + CounterTrace(3)
    {
      FrontierInitializer();
      Fetch(browser);
    }

    /** `frontier_initializer`: queues the three search URLs. */
    method FrontierInitializer()
      modifies this`urlFrontier
      ensures urlFrontier == FrontierUrls(gpu, allowUsedCards)
    {
      var pccanada := PcCanadaSearch + gpu + PcCanadaTail;
      var memoryexpress := MemoryExpressSearch + gpu + MemoryExpressTail;
      var newegg;
      if allowUsedCards == "y" {
        newegg := NeweggSearch + NeweggTail + gpu;
        assert newegg == NeweggSearch + "" + NeweggTail + gpu;
      } else {
        newegg := NeweggSearch + NewOnlyFilter + NeweggTail + gpu;
      }
      urlFrontier := [];
      urlFrontier := urlFrontier + [pccanada];
      urlFrontier := urlFrontier + [memoryexpress];
      urlFrontier := urlFrontier + [newegg];
    }

    /**
     * `fetch`: starts a new channel, launches one worker per frontier URL
     * in frontier order until the frontier is empty, then the completion
     * check.
     */
    method Fetch(browser: string -> Session)
      requires activeThreads == 0
      modifies this
      ensures pages == AsPages(FetchedSnapshots(old(urlFrontier), browser)) + [End]
      ensures urlFrontier == [] && launched == old(launched) + old(urlFrontier)
      ensures activeThreads == 0
      ensures quits == old(quits) + ReadyCount(old(urlFrontier), browser)
      ensures counterHistory == old(counterHistory) + CounterTrace(|old(urlFrontier)|)
    {
      ghost var frontier := urlFrontier;
      ghost var launched0, quits0, history0 := launched, quits, counterHistory;
      ghost var n := 0;
      pages := [];
      FetchStart(frontier, browser, launched0, quits0, history0);
      while urlFrontier != []
        invariant n <= |frontier| && urlFrontier == frontier[n..]
        invariant FetchProgress(frontier, n, browser, launched0, quits0, history0, launched, pages, quits, counterHistory)
        invariant activeThreads == 0
        decreases |urlFrontier|
      {
        var url := urlFrontier[0];
        assert url == frontier[n];
        urlFrontier := urlFrontier[1..];
        ghost var launched1, pages1, quits1, history1 := launched, pages, quits, counterHistory;
        launched := launched + [url];
        DriverInitialization(url, browser(url));
        FetchWorkerStep(frontier, n, browser, launched0, quits0, history0, launched1, launched, pages1, quits1, history1, pages, quits, counterHistory);
        n := n + 1;
      }
      FetchDone(frontier, browser, launched0, quits0, history0, launched, pages, quits, counterHistory);
      var _ := CheckCompletion([activeThreads]);
    }

    /**
     * `driver_initialization`: counts the worker in, lets it request its
     * pages when the driver started and the site opened, counts it out on
     * every path, and quits the driver when there is one.
     */
    method DriverInitialization(url: string, session: Session)
      modifies this
      ensures urlFrontier == old(urlFrontier) && launched == old(launched)
      ensures activeThreads == old(activeThreads)
      ensures counterHistory == old(counterHistory) + [old(activeThreads) + 1, old(activeThreads)]
      ensures pages == old(pages) + AsPages(WorkerSnapshots(session))
      ensures quits == old(quits) + (if session.start == DriverReady then 1 else 0)
    {
      activeThreads := activeThreads + 1;
      counterHistory := counterHistory + [activeThreads];
      if session.start == DriverReady && session.opens {
        var _ := Request(session.turns);
      }
      activeThreads := activeThreads - 1;
      counterHistory := counterHistory + [activeThreads];
      if session.start == DriverReady {
        quits := quits + 1;
      }
    }

    /**
     * `request`: one turn per rendered page; a non-empty source is pushed
     * with the current URL; the loop stops after the first final turn or
     * at the first `get_page_source` that raises.
     */
    method Request(turns: seq<Rendering>) returns (iterations: nat)
      modifies this`pages
      ensures pages == old(pages) + AsPages(RequestPushes(turns))
      ensures iterations == Consumed(turns)
    {
      ghost var start := pages;
      var paginationOver := false;
      ghost var pushed: seq<Snapshot> := [];
      iterations := 0;
      while !paginationOver
        invariant pages == start + AsPages(pushed)
        invariant RequestProgress(turns, iterations, pushed, paginationOver)
        decreases |turns| - iterations
      {
        if iterations == |turns| {
          TurnEnds(turns, iterations, pushed);
          break;
        }
        var t := turns[iterations];
        if t.source.None? {
          TurnEnds(turns, iterations, pushed);
          iterations := iterations + 1;
          break;
        }
        var page := t.source.value;
        TurnStep(turns, iterations, pushed);
        ghost var emitted := Emitted(t);
        if page.source != "" {
          assert emitted == [Snapshot(page, t.url)];
          PushPage(start, pushed, Snapshot(page, t.url));
          pages := pages + [Page(Snapshot(page, t.url))];
        } else {
          assert emitted == [];
          assert pushed + emitted == pushed;
        }
        pushed := pushed + emitted;
        paginationOver := GotoNextPage(t.url, t.nextPresent, t.paginationFails);
        iterations := iterations + 1;
      }
    }

    /**
     * `check_completion`: polls the counter until a reading is zero, then
     * pushes `"END"` once and stops. `polls` are the successive readings.
     */
    method CheckCompletion(polls: seq<int>) returns (observations: nat)
      requires 0 in polls
      modifies this`pages
      ensures pages == old(pages) + [End]
      ensures observations == FirstZero(polls) + 1
    {
      var i := 0;
      while true
        invariant 0 <= i <= FirstZero(polls)
        invariant pages == old(pages)
        decreases FirstZero(polls) - i
      {
        if polls[i] == 0 {
          pages := pages + [End];
          observations := i + 1;
          break;
        }
        i := i + 1;
      }
    }
  }
}
