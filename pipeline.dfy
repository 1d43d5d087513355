/**
 * The whole run of main.py: read a query and the used-card answer, fetch
 * every page for the three search URLs onto one channel, then parse the
 * channel and show the two lists. The browser is a parameter: the session
 * it gives for each URL.
 */
module Pipeline {
  import opened Wrappers
  import opened Text
  import opened Listing
  import opened Extractor
  import opened Aggregator
  import opened Fetching

  /** `get_user_input` accepts a query of digits only (`str.isdigit()`, false on ""). */
  predicate ValidQuery(gpu: string) { gpu != [] && AllDigits(gpu) }

  /** `get_user_input` accepts only "y" or "n" for the used-card question. */
  predicate ValidAnswer(allowUsedCards: string) { allowUsedCards == "y" || allowUsedCards == "n" }

  /** Every record collected from the fetched pages, in channel order. */
  function Collected(gpu: string, allowUsedCards: string, browser: string -> Session): seq<Record>
  {
    Flatten(Extracted(gpu, FetchedSnapshots(FrontierUrls(gpu, allowUsedCards), browser)))
  }

  /** The "All GPUs" list as shown: the ten cheapest collected records, or nothing at all. */
  function ShownAll(gpu: string, allowUsedCards: string, browser: string -> Session): (r: seq<Record>)
    ensures |r| <= 10
    ensures r == [] <==> Collected(gpu, allowUsedCards, browser) == []
  {
    var all := Collected(gpu, allowUsedCards, browser);
    if all != [] then Top10(SortByPrice(all)) else []
  }

  /** The "In stock GPUs" list as shown: the ten cheapest in-stock records, or nothing when nothing was collected. */
  function ShownInStock(gpu: string, allowUsedCards: string, browser: string -> Session): (r: seq<Record>)
    ensures |r| <= 10
  {
    var all := Collected(gpu, allowUsedCards, browser);
    if all != [] then Top10(SortByPrice(InStockOnly(all))) else []
  }

  /** The parser reads back exactly the snapshots the fetcher pushed before its sentinel. */
  lemma {:induction false} ChannelRoundTrip(snaps: seq<Snapshot>)
    ensures End in AsPages(snaps) + [End]
    ensures Submitted(AsPages(snaps) + [End]) == snaps
    ensures FirstEnd(AsPages(snaps) + [End]) == |snaps|
  {
    var channel := AsPages(snaps) + [End];
    AsPagesEntries(snaps);
    assert channel[|snaps|] == End;
    assert forall j :: 0 <= j < |snaps| ==> channel[j] == Page(snaps[j]);
    assert FirstEnd(channel) == |snaps|;
    forall j | 0 <= j < |snaps| ensures Submitted(channel)[j] == snaps[j] {
      assert channel[j] == Page(snaps[j]);
    }
  }

  /**
   * `main`: fetch, then parse the channel the fetcher filled. What is
   * shown is the top of the sorted lists of every record parsed from the
   * pages of the three search URLs.
   */
  method Scrape(gpu: string, allowUsedCards: string, browser: string -> Session)
    returns (shownInStock: seq<Record>, shownAll: seq<Record>)
    requires ValidQuery(gpu) && ValidAnswer(allowUsedCards)
    ensures shownAll == ShownAll(gpu, allowUsedCards, browser)
    ensures shownInStock == ShownInStock(gpu, allowUsedCards, browser)
  {
    var fetch := new Fetcher(gpu, allowUsedCards);
    fetch.Run(browser);
    ghost var snaps := FetchedSnapshots(FrontierUrls(gpu, allowUsedCards), browser);
    ChannelRoundTrip(snaps);
    assert fetch.pages == AsPages(snaps) + [End];
    var parse := new Parser(fetch.pages, gpu);
    shownInStock, shownAll := parse.Run();
    assert parse.resultObjects == Extracted(gpu, snaps);
    ghost var collected := Flatten(Extracted(gpu, snaps));
    assert [] + collected == collected && [] + InStockOnly(collected) == InStockOnly(collected);
  }

  /** A record of a flattened result comes from one of the results. */
  lemma {:induction false} FlattenOrigin(results: seq<Option<seq<Record>>>, r: Record)
    requires r in Flatten(results)
    ensures exists j :: 0 <= j < |results| && results[j].Some? && r in results[j].value
  {
    var front := results[..|results| - 1];
    var last := results[|results| - 1];
    if last.Some? && r in last.value {
    } else {
      FlattenOrigin(front, r);
      var j :| 0 <= j < |front| && front[j].Some? && r in front[j].value;
      assert results[j] == front[j];
    }
  }

  /**
   * Every record shown in either list is relevant to the query: the query
   * digits or "memory" occur in its link. The in-stock list shows only
   * in-stock records, and neither list shows more than ten.
   */
  lemma {:induction false} ShownRecordsRelevant(gpu: string, allowUsedCards: string, browser: string -> Session)
    ensures var all := ShownAll(gpu, allowUsedCards, browser);
            var ins := ShownInStock(gpu, allowUsedCards, browser);
            && |all| <= 10 && |ins| <= 10
            && SortedByPrice(all) && SortedByPrice(ins)
            && (forall r :: r in all ==> Relevant(gpu, r.url))
            && (forall r :: r in ins ==> Relevant(gpu, r.url) && IsInStock(r))
  {
    var snaps := FetchedSnapshots(FrontierUrls(gpu, allowUsedCards), browser);
    var results := Extracted(gpu, snaps);
    var collected := Flatten(results);
    forall r | r in collected ensures Relevant(gpu, r.url) {
      FlattenOrigin(results, r);
      var j :| 0 <= j < |results| && results[j].Some? && r in results[j].value;
      PageRecordsRelevant(gpu, snaps[j], r);
    }
    if collected != [] {
      SortByPriceSorts(collected);
      ShownAreCheapest(SortByPrice(collected));
      ShownInStockAreInStock(collected);
      forall r | r in ShownAll(gpu, allowUsedCards, browser) ensures Relevant(gpu, r.url) {
        assert r in multiset(SortByPrice(collected));
      }
    }
  }

  /** The parser recognises each search URL as the site it was built for. */
  lemma {:induction false} FrontierClassifies(gpu: string, allowUsedCards: string)
    requires ValidQuery(gpu)
    ensures var urls := FrontierUrls(gpu, allowUsedCards);
            && Classify(urls[0]) == Some(PcCanada)
            && Classify(urls[1]) == Some(MemoryExpress)
            && Classify(urls[2]) == Some(Newegg)
  {
    PcCanadaUrlClassifies(gpu);
    MemoryExpressUrlClassifies(gpu);
    NeweggUrlClassifies(gpu, allowUsedCards);
  }

  lemma PcCanadaUrlClassifies(gpu: string)
    ensures Classify(FrontierUrls(gpu, "y")[0]) == Some(PcCanada)
  {
    var url := FrontierUrls(gpu, "y")[0];
    assert url == "https://www.pc-" + "canada" + (".com/" + "s/?query=" + gpu + PcCanadaTail);
    ContainsInfix("https://www.pc-", "canada", ".com/" + "s/?query=" + gpu + PcCanadaTail);
  }

  /** A Memory Express URL stays Memory Express when nothing after the host spells "canada". */
  lemma MemoryExpressHostClassifies(rest: string)
    requires rest != [] && rest[0] !in "canada" && !Contains(rest, "canada")
    ensures Classify(MemoryExpressBase + rest) == Some(MemoryExpress)
  {
    MemoryExpressFragments();
    ContainsSplit(MemoryExpressBase, rest, "canada");
    ContainsExtend([], MemoryExpressBase, rest, "memory");
    assert [] + MemoryExpressBase + rest == MemoryExpressBase + rest;
  }

  /** A Newegg URL stays Newegg when nothing after the host holds a 'd' or an 'm'. */
  lemma NeweggHostClassifies(rest: string)
    requires 'd' !in rest && 'm' !in rest
    ensures Classify(NeweggBase + rest) == Some(Newegg)
  {
    NeweggFragments();
    assert 'd' !in NeweggBase && 'm' !in NeweggBase;
    AbsentCharExcludes(NeweggBase + rest, "canada", 4);
    AbsentCharExcludes(NeweggBase + rest, "memory", 0);
    ContainsExtend([], NeweggBase, rest, "newegg");
    assert [] + NeweggBase + rest == NeweggBase + rest;
  }

  /** Two texts without "canada" stay without it when joined before a character that is not in "canada". */
  lemma {:induction false} NoCanadaJoin(a: string, b: string)
    requires !Contains(a, "canada") && !Contains(b, "canada") && b != [] && b[0] !in "canada"
    ensures !Contains(a + b, "canada")
  {
    ContainsSplit(a, b, "canada");
  }

  lemma MemoryExpressFilterLacksCanada()
    ensures !Contains("Category/VideoCards?FilterID=" + "b9021f59-29a3-73a7-59b5-125edab939f2" + "&InventoryType=In", "canada")
  {
    assert 'c' !in "Category/VideoCards?FilterID=" && 'c' !in "b9021f59-29a3-73a7-59b5-125edab939f2" && 'c' !in "&InventoryType=In";
    AbsentCharExcludes("Category/VideoCards?FilterID=" + "b9021f59-29a3-73a7-59b5-125edab939f2" + "&InventoryType=In", "canada", 0);
  }

  lemma MemoryExpressStockLacksCanada()
    ensures !Contains("Stock&Inventory=OnlineStore&", "canada")
  {
    assert 'd' !in "Stock&Inventory=OnlineStore&";
    AbsentCharExcludes("Stock&Inventory=OnlineStore&", "canada", 4);
  }

  lemma {:induction false} MemoryExpressSearchLacksCanada(gpu: string)
    requires AllDigits(gpu)
    ensures !Contains("Search=" + gpu + MemoryExpressTail, "canada")
  {
    DigitsLack(gpu, 'n');
    assert 'n' !in "Search=" && 'n' !in MemoryExpressTail;
    AbsentCharExcludes("Search=" + gpu + MemoryExpressTail, "canada", 2);
  }

  /** No occurrence of "canada" in the query part of the Memory Express URL. */
  lemma {:induction false} MemoryExpressQueryLacksCanada(gpu: string)
    requires AllDigits(gpu)
    ensures var q := MemoryExpressQuery + gpu + MemoryExpressTail;
            q != [] && q[0] !in "canada" && !Contains(q, "canada")
  {
    var head := "Category/VideoCards?FilterID=" + "b9021f59-29a3-73a7-59b5-125edab939f2" + "&InventoryType=In";
    var middle := "Stock&Inventory=OnlineStore&";
    var tail := "Search=" + gpu + MemoryExpressTail;
    assert MemoryExpressQuery + gpu + MemoryExpressTail == head + middle + tail;
    MemoryExpressFilterLacksCanada();
    MemoryExpressStockLacksCanada();
    MemoryExpressSearchLacksCanada(gpu);
    assert middle[0] == 'S' && tail[0] == 'S' && head[0] == 'C';
    NoCanadaJoin(head, middle);
    NoCanadaJoin(head + middle, tail);
  }

  lemma {:induction false} MemoryExpressUrlClassifies(gpu: string)
    requires AllDigits(gpu)
    ensures Classify(FrontierUrls(gpu, "y")[1]) == Some(MemoryExpress)
  {
    var rest := MemoryExpressQuery + gpu + MemoryExpressTail;
    assert FrontierUrls(gpu, "y")[1] == MemoryExpressBase + rest;
    MemoryExpressQueryLacksCanada(gpu);
    MemoryExpressHostClassifies(rest);
  }

  /** The path and query of the Newegg URL hold no 'd' and no 'm'. */
  lemma {:induction false} NeweggQueryLacks(gpu: string, flag: string)
    requires AllDigits(gpu) && (flag == "" || flag == NewOnlyFilter)
    ensures var rest := "p/pl?N=100007708" + flag + NeweggTail + gpu;
            'd' !in rest && 'm' !in rest
  {
    DigitsLack(gpu, 'd');
    DigitsLack(gpu, 'm');
    assert 'd' !in "p/pl?N=100007708" && 'd' !in flag && 'd' !in NeweggTail;
    assert 'm' !in "p/pl?N=100007708" && 'm' !in flag && 'm' !in NeweggTail;
  }

  lemma {:induction false} NeweggUrlClassifies(gpu: string, allowUsedCards: string)
    requires AllDigits(gpu)
    ensures Classify(FrontierUrls(gpu, allowUsedCards)[2]) == Some(Newegg)
  {
    var flag := if allowUsedCards == "y" then "" else NewOnlyFilter;
    var rest := "p/pl?N=100007708" + flag + NeweggTail + gpu;
    assert FrontierUrls(gpu, allowUsedCards)[2] == NeweggBase + rest;
    NeweggQueryLacks(gpu, flag);
    NeweggHostClassifies(rest);
  }
}
