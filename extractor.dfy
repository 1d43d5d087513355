/**
 * The site-adaptive record extractor of parser.py (class `Parser.Worker`):
 * it classifies a page by its URL, resolves each item's link, drops items
 * that are not about the queried card, and builds the 6-tuple
 *   (price, url, gddr, ti_status, stock_status, newness)
 * for the rest. An element lookup that finds nothing (`Missing`) aborts the
 * whole page.
 */
module Extractor {
  import opened Wrappers
  import opened Text
  import opened Listing
  import opened Patterns

  /** The three retail sites the scraper knows. */
  datatype Site = PcCanada | MemoryExpress | Newegg

  /** The selectors `determine_filters` stores on the worker for a known site. */
  datatype Filters = Filters(
    website: string,                // the base URL `determine_filters` returns
    itemsFilter: string,
    urlFilter: string,
    priceFilter: string,
    descriptionFilter: string,
    inStockFilter: Option<string>)  // memoryexpress sets none

  /** The result of a step that may dereference a lookup that found nothing (which raises). */
  datatype Fallible<T> = Ok(value: T) | Missing

  /** The tuple `parse_gpu_attributes` returns; only the price can be `None`. */
  datatype Attributes = Attributes(price: Option<string>, url: string, gddr: string, ti: bool, stock: string, newness: string)

  const NewnessFilter := "item-open-box-italic"
  const OutOfStock := "Out of Stock"
  const InStock := "In stock"
  const NoGddr := "No GDDR information available"
  const DefaultNewness := "New"

  function BaseUrl(site: Site): string
  {
    match site
    case PcCanada => PcCanadaBase
    case MemoryExpress => MemoryExpressBase
    case Newegg => NeweggBase
  }

  /** The host tests of `determine_filters`, in their order: "canada", then "memory", then "newegg". */
  function Classify(url: string): Option<Site>
  {
    if Contains(url, "canada") then Some(PcCanada)
    else if Contains(url, "memory") then Some(MemoryExpress)
    else if Contains(url, "newegg") then Some(Newegg)
    else None
  }

  // The selectors `determine_filters` sets, by site.
  const PcCanadaItems := "position-relative d-flex flex-column h-full p-1rem border"
  const PcCanadaLink := "d-flex justify-content-center"
  const PcCanadaPrice := "mb-0 mt-0.5rem text-red-500 fw-bolder fs-2xl text-center"
  const PcCanadaDescription := "GridDescription-Clamped mb-0 fs-xs"
  const PcCanadaStock := "position-relative mt-0.875rem"
  const MemoryExpressItems := "c-shca-list-item"
  const MemoryExpressBody := "c-shca-list-item__body-main"
  const MemoryExpressPrice := "c-shca-list-item__price-listed"
  const NeweggItems := "item-cell"
  const NeweggPrice := "price-current"
  const NeweggDescription := "item-title"
  const NeweggPromo := "item-promo"

  /** The selectors `determine_filters` sets for each site. */
  function FiltersFor(site: Site): Filters
  {
    match site
    case PcCanada =>
      Filters(PcCanadaBase, PcCanadaItems, PcCanadaLink, PcCanadaPrice, PcCanadaDescription, Some(PcCanadaStock))
    case MemoryExpress =>
      Filters(MemoryExpressBase, MemoryExpressItems, MemoryExpressBody, MemoryExpressPrice, MemoryExpressBody, None)
    case Newegg =>
      Filters(NeweggBase, NeweggItems, "a", NeweggPrice, NeweggDescription, Some(NeweggPromo))
  }

  /** What `determine_filters` leaves on the worker for a page URL; `None` for an unknown host. */
  function SiteFilters(url: string): Option<Filters>
  {
    match Classify(url)
    case Some(site) => Some(FiltersFor(site))
    case None => None
  }

  /**
   * The host tests of `determine_filters`, in their order: a URL naming
   * "canada" gets pc-canada's selectors, then "memory" memoryexpress's, then
   * "newegg" Newegg's; a URL naming none of them gets none.
   */
  lemma {:induction false} SiteFiltersByHost(url: string)
    ensures Contains(url, "canada") ==> SiteFilters(url) == Some(FiltersFor(PcCanada))
    ensures !Contains(url, "canada") && Contains(url, "memory") ==> SiteFilters(url) == Some(FiltersFor(MemoryExpress))
    ensures !Contains(url, "canada") && !Contains(url, "memory") && Contains(url, "newegg") ==>
              SiteFilters(url) == Some(FiltersFor(Newegg))
    ensures SiteFilters(url).None? <==> !Contains(url, "canada") && !Contains(url, "memory") && !Contains(url, "newegg")
  {
  }

  // ---------------------------------------------------------------------
  // Per-item rules
  // ---------------------------------------------------------------------

  /**
   * The item's link: Newegg pages carry full links, so the first anchor's
   * `href` is used as it is; the other sites' links are relative to the
   * site's base URL.
   */
  function ResolveLink(f: Filters, item: Item): (r: Fallible<string>)
    ensures Contains(f.website, "newegg") ==> (r.Ok? <==> item.anchorHref.Some?)
    ensures !Contains(f.website, "newegg") ==> (r.Ok? <==> item.classedAnchorHref.Some?)
    ensures r.Ok? && !Contains(f.website, "newegg") ==> StartsWith(r.value, f.website)
  {
    if Contains(f.website, "newegg") then
      (match item.anchorHref
       case Some(href) => Ok(href)
       case None => Missing)
    else
      match item.classedAnchorHref
      case Some(href) =>
        assert (f.website + href)[..|f.website|] == f.website;
        Ok(f.website + href)
      case None => Missing
  }

  /** The relevance test: the query is in the link, or the link is memoryexpress's. */
  predicate Relevant(gpu: string, url: string)
  {
    Contains(url, gpu) || Contains(url, "memory")
  }

  predicate IsT(c: char) { c == 't' || c == 'T' }

  predicate IsI(c: char) { c == 'i' || c == 'I' }

  predicate TiAt(s: string, i: int) { 0 <= i < |s| - 1 && IsT(s[i]) && IsI(s[i + 1]) }

  /** `re.search("TI", description, re.IGNORECASE)` succeeds. */
  predicate HasTi(description: string)
  {
    exists i | 0 <= i < |description| - 1 :: TiAt(description, i)
  }

  /**
   * The price: the first `\$?\d+\.\d+` in the stripped price text, except
   * that a link containing "newegg" always gets `"$" + <strong> + ".99"`.
   * A missing price element, or a missing `<strong>` on Newegg, raises.
   */
  function PriceAttribute(item: Item, url: string): (r: Fallible<Option<string>>)
    ensures r.Missing? <==> item.priceText.None? || (Contains(url, "newegg") && item.priceStrong.None?)
    ensures r.Ok? && !Contains(url, "newegg") ==> (r.value.Some? <==> HasDecimal(item.priceText.value))
    ensures r.Ok? && r.value.Some? && !Contains(url, "newegg") ==>
              PriceShaped(r.value.value) && Contains(item.priceText.value, r.value.value)
    ensures r.Ok? && Contains(url, "newegg") ==> r.value.Some?
  {
    match item.priceText
    case None => Missing
    case Some(text) =>
      var found := FindPrice(Strip(text));
      StripKeepsDecimal(text);
      if Contains(url, "newegg") then
        (match item.priceStrong
         case Some(strong) => Ok(Some("$" + strong + ".99"))
         case None => Missing)
      else
        if found.Some? then
          PriceInStrippedText(text, found.value);
          Ok(found)
        else Ok(found)
  }

  /** Text found in the stripped string is text found in the string. */
  lemma {:induction false} PriceInStrippedText(text: string, p: string)
    requires Contains(Strip(text), p)
    ensures Contains(text, p)
  {
    var st := Strip(text);
    var i :| 0 <= i <= |text| - |st| && StrippedAt(text, st, i);
    var j :| 0 <= j <= |st| - |p| && OccursAt(st, p, j);
    OccursWithin(text, st, i, p, j);
    ContainsWitness(text, p, i + j);
  }

  /** Stripping keeps a `\d\.\d`: whitespace is neither a digit nor a dot. */
  lemma {:induction false} StripKeepsDecimal(text: string)
    ensures HasDecimal(Strip(text)) <==> HasDecimal(text)
  {
    var st := Strip(text);
    var i :| 0 <= i <= |text| - |st| && StrippedAt(text, st, i);
    assert st == text[i..i + |st|];
    if HasDecimal(st) {
      var k :| 0 < k < |st| - 1 && DotBetweenDigits(st, k);
      assert st[k - 1] == text[i + k - 1] && st[k] == text[i + k] && st[k + 1] == text[i + k + 1];
      assert DotBetweenDigits(text, i + k);
    }
    if HasDecimal(text) {
      var k :| 0 < k < |text| - 1 && DotBetweenDigits(text, k);
      assert !IsSpace(text[k - 1]) && !IsSpace(text[k + 1]);
      assert i <= k - 1 && k + 1 < i + |st|;
      assert st[k - i - 1] == text[k - 1] && st[k - i] == text[k] && st[k - i + 1] == text[k + 1];
      assert DotBetweenDigits(st, k - i);
    }
  }

  /**
   * Off Newegg the price found is what `re.search` reports on the stripped
   * text: the leftmost match, and the longest one there.
   */
  lemma {:induction false} PriceIsLeftmost(item: Item, url: string)
    requires !Contains(url, "newegg") && PriceAttribute(item, url).Ok? && PriceAttribute(item, url).value.Some?
    ensures var st := Strip(item.priceText.value);
            exists j, e :: LeftmostPrice(st, 0, j, e) && PriceAttribute(item, url).value.value == st[j..e]
  {
    SearchPriceLeftmost(Strip(item.priceText.value), 0);
  }

  /** The memory size: the first `\b\d{1,2}\s?GB?\b` of the description, else a fixed message. */
  function GddrAttribute(description: string): (r: string)
    ensures r != ""
    ensures r == NoGddr || (GddrShaped(r) && Contains(description, r))
  {
    match SearchGddr(description, 0)
    case Some(g) => g
    case None => NoGddr
  }

  /**
   * The fallback message is given exactly when no text of the description
   * matches the pattern; otherwise the memory size is the leftmost match.
   */
  lemma {:induction false} GddrFallback(description: string)
    ensures GddrAttribute(description) == NoGddr <==> forall j, e :: 0 <= j ==> !GddrMatch(description, j, e)
    ensures GddrAttribute(description) != NoGddr ==>
              exists j, e :: LeftmostGddr(description, 0, j, e) && GddrAttribute(description) == description[j..e]
  {
    SearchGddrLeftmost(description, 0);
    if SearchGddr(description, 0).Some? {
      assert !IsDigit(NoGddr[0]);
    }
  }

  /**
   * The stock status: pc-canada's label text (a missing label raises);
   * on Newegg, out of stock exactly when the promo element is there;
   * memoryexpress only lists its online store, which is always in stock.
   */
  function StockAttribute(f: Filters, item: Item): (r: Fallible<string>)
    ensures r.Missing? <==> Contains(f.website, "canada") && item.stockLabel.None?
    ensures Contains(f.website, "canada") && r.Ok? ==> r.value == item.stockLabel.value
    ensures !Contains(f.website, "canada") && Contains(f.website, "newegg") ==>
              r.Ok? && (r.value == OutOfStock <==> item.promoPresent) && (r.value == OutOfStock || r.value == InStock)
    ensures !Contains(f.website, "canada") && !Contains(f.website, "newegg") ==> r == Ok(InStock)
  {
    if Contains(f.website, "canada") then
      (match item.stockLabel
       case Some(text) => Ok(text)
       case None => Missing)
    else if Contains(f.website, "newegg") then
      Ok(if item.promoPresent then OutOfStock else InStock)
    else
      Ok(InStock)
  }

  /** The condition: the open-box tag's text when there is a tag with non-empty text, else "New". */
  function NewnessAttribute(item: Item): (r: string)
    ensures r != ""
    ensures r == DefaultNewness <==> item.newnessText.None? || item.newnessText.value in {"", DefaultNewness}
    ensures item.newnessText.Some? && item.newnessText.value != "" ==> r == item.newnessText.value
  {
    match item.newnessText
    case Some(text) => if text != "" then text else DefaultNewness
    case None => DefaultNewness
  }

  /** `parse_gpu_attributes`: any missing element raises; a price without a match stays `None`. */
  function ParseGpuAttributes(f: Filters, item: Item, url: string): (r: Fallible<Attributes>)
    ensures r.Missing? <==>
              item.description.None? || PriceAttribute(item, url).Missing? || StockAttribute(f, item).Missing?
    ensures r.Ok? ==> r.value.url == url && r.value.gddr != "" && r.value.newness != ""
  {
    match item.description
    case None => Missing
    case Some(description) =>
      var ti := HasTi(description);
      match PriceAttribute(item, url)
      case Missing => Missing
      case Ok(price) =>
        var gddr := GddrAttribute(description);
        match StockAttribute(f, item)
        case Missing => Missing
        case Ok(stock) => Ok(Attributes(price, url, gddr, ti, stock, NewnessAttribute(item)))
  }

  /**
   * The fields of the tuple `parse_gpu_attributes` builds: the price
   * attribute, the link, the memory size and Ti flag of the description,
   * the stock status and the condition.
   */
  lemma {:induction false} AttributeFields(f: Filters, item: Item, url: string)
    ensures ParseGpuAttributes(f, item, url).Ok? ==>
              && item.description.Some?
              && ParseGpuAttributes(f, item, url).value == Attributes(PriceAttribute(item, url).value, url,
                                       GddrAttribute(item.description.value), HasTi(item.description.value),
                                       StockAttribute(f, item).value, NewnessAttribute(item))
  {
  }

  /** The `None not in attributes` test: a tuple without a price yields no record. */
  function Complete(a: Attributes): (r: Option<Record>)
    ensures r.Some? <==> a.price.Some?
  {
    match a.price
    case Some(price) => Some(Record(price, a.url, a.gddr, a.ti, a.stock, a.newness))
    case None => None
  }

  /**
   * `parsing`: the record of one item, `Ok(None)` for an item that is not
   * relevant or has no price, `Missing` when a lookup it needs found nothing.
   */
  function Parsing(f: Filters, gpu: string, item: Item): (r: Fallible<Option<Record>>)
    ensures r.Ok? && r.value.Some? ==>
              var rec := r.value.value;
              && ResolveLink(f, item) == Ok(rec.url)
              && Relevant(gpu, rec.url)
              && rec.gddr != "" && rec.newness != ""
    ensures ResolveLink(f, item).Ok? && !Relevant(gpu, ResolveLink(f, item).value) ==> r == Ok(None)
  {
    match ResolveLink(f, item)
    case Missing => Missing
    case Ok(url) =>
      if Relevant(gpu, url) then
        (match ParseGpuAttributes(f, item, url)
         case Missing => Missing
         case Ok(a) => Ok(Complete(a)))
      else Ok(None)
  }

  /**
   * When an item yields a record, and which: it fails exactly when its link
   * or, for a relevant link, its description, price or stock element is
   * missing; it yields a record exactly when its relevant link's attributes
   * parse and a price was found, and the record holds those attributes.
   */
  lemma {:induction false} ParsingYields(f: Filters, gpu: string, item: Item)
    ensures Parsing(f, gpu, item).Missing? <==>
              || ResolveLink(f, item).Missing?
              || (&& Relevant(gpu, ResolveLink(f, item).value)
                  && (|| item.description.None?
                      || PriceAttribute(item, ResolveLink(f, item).value).Missing?
                      || StockAttribute(f, item).Missing?))
    ensures (Parsing(f, gpu, item).Ok? && Parsing(f, gpu, item).value.Some?) <==>
              && ResolveLink(f, item).Ok?
              && Relevant(gpu, ResolveLink(f, item).value)
              && ParseGpuAttributes(f, item, ResolveLink(f, item).value).Ok?
              && PriceAttribute(item, ResolveLink(f, item).value).value.Some?
    ensures Parsing(f, gpu, item).Ok? && Parsing(f, gpu, item).value.Some? ==>
              var url := ResolveLink(f, item).value;
              var description := item.description.value;
              Parsing(f, gpu, item).value.value == Record(PriceAttribute(item, url).value.value, url, GddrAttribute(description),
                                      HasTi(description), StockAttribute(f, item).value, NewnessAttribute(item))
  {
  }

  /** One turn of the item loop of `Worker.main`: keep the record, skip the item, or abort the page. */
  function Step(acc: Fallible<seq<Record>>, parsed: Fallible<Option<Record>>): (r: Fallible<seq<Record>>)
    ensures r.Missing? <==> acc.Missing? || parsed.Missing?
    ensures r.Ok? ==> r.value == acc.value + Kept(parsed)
  {
    match acc
    case Missing => Missing
    case Ok(rs) =>
      match parsed
      case Missing => Missing
      case Ok(None) => Ok(rs)
      case Ok(Some(rec)) => Ok(rs + [rec])
  }

  /** The records of a page's items, in item order; `Missing` as soon as one item is. */
  function ParseItems(f: Filters, gpu: string, items: seq<Item>): (r: Fallible<seq<Record>>)
    ensures r.Ok? ==> |r.value| <= |items|
  {
    if items == [] then Ok([])
    else Step(ParseItems(f, gpu, items[..|items| - 1]), Parsing(f, gpu, items[|items| - 1]))
  }

  /** One more item of the loop: the records so far, stepped by that item's parse. */
  lemma {:induction false} ParseItemsStep(f: Filters, gpu: string, items: seq<Item>, i: nat)
    requires i < |items|
    ensures ParseItems(f, gpu, items[..i + 1]) == Step(ParseItems(f, gpu, items[..i]), Parsing(f, gpu, items[i]))
  {
    assert items[..i + 1][..i] == items[..i];
    assert items[..i + 1][i] == items[i];
  }

  /** A page fails exactly when some item fails: one missing element aborts the whole page. */
  lemma {:induction false} ParseItemsFails(f: Filters, gpu: string, items: seq<Item>)
    ensures ParseItems(f, gpu, items).Missing? <==> exists j :: 0 <= j < |items| && Parsing(f, gpu, items[j]).Missing?
  {
    if items != [] {
      var front := items[..|items| - 1];
      ParseItemsFails(f, gpu, front);
      assert forall j :: 0 <= j < |front| ==> front[j] == items[j];
    }
  }

  /** Every record of a page that parses comes from one of its items. */
  lemma {:induction false} ParseItemsOrigin(f: Filters, gpu: string, items: seq<Item>, rec: Record)
    requires ParseItems(f, gpu, items).Ok? && rec in ParseItems(f, gpu, items).value
    ensures exists j :: 0 <= j < |items| && Parsing(f, gpu, items[j]) == Ok(Some(rec))
  {
    var front := items[..|items| - 1];
    var last := items[|items| - 1];
    var parsed := Parsing(f, gpu, last);
    if rec in Kept(parsed) {
      assert parsed == Ok(Some(rec));
    } else {
      ParseItemsOrigin(f, gpu, front, rec);
      var j :| 0 <= j < |front| && Parsing(f, gpu, front[j]) == Ok(Some(rec));
      assert front[j] == items[j];
    }
  }

  /** `Worker.main` on one snapshot: `None` (nothing) for an unknown host, a page without items, or a missing element. */
  function PageRecords(gpu: string, snap: Snapshot): Option<seq<Record>>
  {
    match SiteFilters(snap.url)
    case None => None
    case Some(f) =>
      if snap.markup.items == [] then None
      else
        match ParseItems(f, gpu, snap.markup.items)
        case Missing => None
        case Ok(rs) => Some(rs)
  }

  /**
   * A page yields records only for a known host and a non-empty item list,
   * and they are the item loop's records; such a page yields records
   * whenever the loop does not abort.
   */
  lemma {:induction false} PageRecordsOk(gpu: string, snap: Snapshot)
    ensures PageRecords(gpu, snap).Some? ==> SiteFilters(snap.url).Some? && snap.markup.items != []
    ensures PageRecords(gpu, snap).Some? ==>
              ParseItems(SiteFilters(snap.url).value, gpu, snap.markup.items) == Ok(PageRecords(gpu, snap).value)
    ensures (SiteFilters(snap.url).Some? && snap.markup.items != [] &&
             ParseItems(SiteFilters(snap.url).value, gpu, snap.markup.items).Ok?) ==> PageRecords(gpu, snap).Some?
  {
  }

  // ---------------------------------------------------------------------
  // The worker object
  // ---------------------------------------------------------------------

  /** `Parser.Worker`: one per page; `determine_filters` stores the site's selectors on it. */
  class Worker {
    const gpu: string
    var website: Option<string>
    var filters: Option<Filters>
    var newnessFilter: Option<string>

    constructor (gpu: string)
      ensures this.gpu == gpu && website == None && filters == None && newnessFilter == None
    {
      this.gpu := gpu;
      website, filters, newnessFilter := None, None, None;
    }

    /** Stores the selectors of the site `pageUrl` belongs to and returns the site's base URL. */
    method DetermineFilters(pageUrl: string) returns (site: Option<string>)
      modifies this`filters, this`newnessFilter
      ensures newnessFilter == Some(NewnessFilter)
      ensures filters == if SiteFilters(pageUrl).Some? then SiteFilters(pageUrl) else old(filters)
      ensures site.Some? <==> SiteFilters(pageUrl).Some?
      ensures site.Some? ==> site.value == SiteFilters(pageUrl).value.website
    {
      newnessFilter := Some(NewnessFilter);
      if Contains(pageUrl, "canada") {
        filters := Some(FiltersFor(PcCanada));
        return Some(PcCanadaBase);
      } else if Contains(pageUrl, "memory") {
        filters := Some(FiltersFor(MemoryExpress));
        return Some(MemoryExpressBase);
      } else if Contains(pageUrl, "newegg") {
        filters := Some(FiltersFor(Newegg));
        return Some(NeweggBase);
      }
      return None;
    }

    /**
     * `Worker.main`. For an unknown host `items_filter` was never set (or
     * `"newegg" in None` raises on the first item), so the page yields nothing.
     */
    method Run(snap: Snapshot) returns (result: Option<seq<Record>>)
      modifies this
      ensures result == PageRecords(gpu, snap)
      ensures website == if SiteFilters(snap.url).Some? then Some(SiteFilters(snap.url).value.website) else None
      ensures newnessFilter == Some(NewnessFilter)
      ensures filters == if SiteFilters(snap.url).Some? then SiteFilters(snap.url) else old(filters)
    {
      website := DetermineFilters(snap.url);
      ghost var w, fs := website, filters;
      ghost var known := SiteFilters(snap.url);
      assert w == if known.Some? then Some(known.value.website) else None;
      assert fs == if known.Some? then known else old(filters);
      if website.None? {
        return None;
      }
      var f := filters.value;
      var items := snap.markup.items;
      if items == [] {
        return None;
      }
      var pageAttributes: seq<Record> := [];
      var i := 0;
      while i < |items|
        invariant 0 <= i <= |items|
        invariant ParseItems(f, gpu, items[..i]) == Ok(pageAttributes)
        invariant website == w && filters == fs && newnessFilter == Some(NewnessFilter)
      {
        ParseItemsStep(f, gpu, items, i);
        match Parsing(f, gpu, items[i]) {
          case Missing =>
            ParseItemsFails(f, gpu, items);
            return None;
          case Ok(None) =>
          case Ok(Some(attributes)) =>
            pageAttributes := pageAttributes + [attributes];
        }
        i := i + 1;
      }
      assert items[..i] == items;
      return Some(pageAttributes);
    }
  }

  // ---------------------------------------------------------------------
  // Properties
  // ---------------------------------------------------------------------

  /**
   * Each base URL contains exactly its own host fragment, so the tests on
   * `self.website` ("newegg" in parsing, "canada"/"newegg" in
   * stock_attribute) pick out exactly the site the page was classified as.
   */
  lemma {:induction false} SiteFragments(site: Site)
    ensures Contains(BaseUrl(site), "canada") <==> site == PcCanada
    ensures Contains(BaseUrl(site), "memory") <==> site == MemoryExpress
    ensures Contains(BaseUrl(site), "newegg") <==> site == Newegg
  {
    match site
    case PcCanada => PcCanadaFragments();
    case MemoryExpress => MemoryExpressFragments();
    case Newegg => NeweggFragments();
  }

  lemma PcCanadaFragments()
    ensures Contains(PcCanadaBase, "canada") && !Contains(PcCanadaBase, "memory") && !Contains(PcCanadaBase, "newegg")
  {
    assert PcCanadaBase == "https://www.pc-" + "canada" + ".com/";
    ContainsInfix("https://www.pc-", "canada", ".com/");
    AbsentCharExcludes(PcCanadaBase, "memory", 5);
    AbsentCharExcludes(PcCanadaBase, "newegg", 4);
  }

  lemma MemoryExpressFragments()
    ensures !Contains(MemoryExpressBase, "canada") && Contains(MemoryExpressBase, "memory") && !Contains(MemoryExpressBase, "newegg")
  {
    var head, tail := "https://www.", "express.com/";
    assert MemoryExpressBase == head + "memory" + tail;
    assert 'a' !in head && 'a' !in "memory" && 'a' !in tail;
    assert 'g' !in head && 'g' !in "memory" && 'g' !in tail;
    AbsentCharExcludes(MemoryExpressBase, "canada", 1);
    ContainsInfix(head, "memory", tail);
    AbsentCharExcludes(MemoryExpressBase, "newegg", 4);
  }

  lemma NeweggFragments()
    ensures !Contains(NeweggBase, "canada") && !Contains(NeweggBase, "memory") && Contains(NeweggBase, "newegg")
  {
    AbsentCharExcludes(NeweggBase, "canada", 4);
    AbsentCharExcludes(NeweggBase, "memory", 0);
    assert NeweggBase == "https://www." + "newegg" + ".ca/";
    ContainsInfix("https://www.", "newegg", ".ca/");
  }

  /** Classifying a site's own base URL gives back that site. */
  lemma {:induction false} ClassifyBaseUrl(site: Site)
    ensures Classify(BaseUrl(site)) == Some(site)
    ensures FiltersFor(site).website == BaseUrl(site)
  {
    SiteFragments(site);
  }

  /**
   * Link resolution: on Newegg the first anchor's `href` unchanged; on the
   * other sites the base URL followed by the classed anchor's `href`, so
   * such a link always starts with the base URL.
   */
  lemma {:induction false} LinkRules(site: Site, item: Item)
    ensures site == Newegg ==>
              ResolveLink(FiltersFor(site), item) ==
                (if item.anchorHref.Some? then Ok(item.anchorHref.value) else Missing)
    ensures site != Newegg ==>
              ResolveLink(FiltersFor(site), item) ==
                (if item.classedAnchorHref.Some? then Ok(BaseUrl(site) + item.classedAnchorHref.value) else Missing)
    ensures site != Newegg && ResolveLink(FiltersFor(site), item).Ok? ==>
              StartsWith(ResolveLink(FiltersFor(site), item).value, BaseUrl(site))
  {
    SiteFragments(site);
  }

  /** memoryexpress items are exempt from the query test: every resolved link is relevant. */
  lemma {:induction false} MemoryExpressAlwaysRelevant(gpu: string, item: Item)
    requires ResolveLink(FiltersFor(MemoryExpress), item).Ok?
    ensures Relevant(gpu, ResolveLink(FiltersFor(MemoryExpress), item).value)
  {
    MemoryExpressFragments();
    var href := item.classedAnchorHref.value;
    ContainsExtend([], MemoryExpressBase, href, "memory");
    assert [] + MemoryExpressBase + href == MemoryExpressBase + href;
  }

  /**
   * Stock rules by site: pc-canada reports its label (and a missing label
   * raises), Newegg is "Out of Stock" exactly when the promo element is
   * present, memoryexpress is always "In stock".
   */
  lemma {:induction false} StockRules(site: Site, item: Item)
    ensures site == PcCanada ==>
              StockAttribute(FiltersFor(site), item) ==
                (if item.stockLabel.Some? then Ok(item.stockLabel.value) else Missing)
    ensures site == Newegg ==>
              (StockAttribute(FiltersFor(site), item) == Ok(OutOfStock) <==> item.promoPresent)
    ensures site == Newegg ==> StockAttribute(FiltersFor(site), item).Ok?
    ensures site == MemoryExpress ==> StockAttribute(FiltersFor(site), item) == Ok(InStock)
  {
    SiteFragments(site);
  }

  /**
   * Newegg's price reassembly: for a "newegg" link the price is
   * `"$" + strong + ".99"` whatever the regular expression found, and for a
   * digit string it has the shape of a price.
   */
  lemma {:induction false} NeweggPriceReassembly(item: Item, url: string, strong: string)
    requires Contains(url, "newegg") && item.priceText.Some? && item.priceStrong == Some(strong)
    ensures PriceAttribute(item, url) == Ok(Some("$" + strong + ".99"))
    ensures strong != "" && AllDigits(strong) ==> PriceShaped("$" + strong + ".99")
  {
    var p := "$" + strong + ".99";
    if strong != "" && AllDigits(strong) {
      var q := p[1..];
      assert q == strong + ".99";
      assert q[..|strong|] == strong && q[|strong| + 1..] == "99";
      assert q[|strong|] == '.';
    }
  }

  lemma NeweggPriceExample(item: Item)
    requires item.priceText.Some? && item.priceStrong == Some("249")
    ensures PriceAttribute(item, "https://www.newegg.ca/p/N82E16814126566") == Ok(Some("$249.99"))
  {
    assert "https://www.newegg.ca/p/N82E16814126566" == "https://www." + "newegg" + ".ca/p/N82E16814126566";
    ContainsInfix("https://www.", "newegg", ".ca/p/N82E16814126566");
    assert "$" + "249" + ".99" == "$249.99";
  }

  /** An item whose price text has no `\d\.\d` yields no record on a non-Newegg link. */
  lemma {:induction false} UnpricedItemDropped(f: Filters, gpu: string, item: Item)
    requires ResolveLink(f, item).Ok? && !Contains(ResolveLink(f, item).value, "newegg")
    requires item.priceText.Some? && !HasDecimal(item.priceText.value)
    ensures Parsing(f, gpu, item).Ok? ==> Parsing(f, gpu, item) == Ok(None)
  {
  }

  /** The ASCII lower-case form of a string, as `re.IGNORECASE` compares letters. */
  function LowerAscii(s: string): (r: string)
    ensures |r| == |s|
    ensures forall i :: 0 <= i < |s| ==> r[i] == if 'A' <= s[i] <= 'Z' then s[i] - 'A' + 'a' else s[i]
  {
    if s == [] then []
    else [if 'A' <= s[0] <= 'Z' then s[0] - 'A' + 'a' else s[0]] + LowerAscii(s[1..])
  }

  /** The Ti flag is set exactly when the lower-cased description contains "ti". */
  lemma {:induction false} TiFlagIsCaseInsensitive(description: string)
    ensures HasTi(description) <==> Contains(LowerAscii(description), "ti")
  {
    var low := LowerAscii(description);
    if HasTi(description) {
      var i :| 0 <= i < |description| - 1 && TiAt(description, i);
      TiLowered(description, i);
      ContainsWitness(low, "ti", i);
    }
    if Contains(low, "ti") {
      var i :| 0 <= i <= |low| - 2 && OccursAt(low, "ti", i);
      TiRaised(description, i);
    }
  }

  lemma {:induction false} TiLowered(description: string, i: int)
    requires TiAt(description, i)
    ensures OccursAt(LowerAscii(description), "ti", i)
  {
    var low := LowerAscii(description);
    assert low[i] == 't' && low[i + 1] == 'i';
    assert low[i..i + 2] == "ti";
  }

  lemma {:induction false} TiRaised(description: string, i: int)
    requires OccursAt(LowerAscii(description), "ti", i)
    ensures TiAt(description, i)
  {
    var low := LowerAscii(description);
    assert low[i..i + 2][0] == low[i] && low[i..i + 2][1] == low[i + 1];
  }

  /**
   * A page yields nothing exactly when its host is unknown, it has no item
   * containers, or some item misses an element it needs.
   */
  lemma {:induction false} PageFailsIff(gpu: string, snap: Snapshot)
    ensures PageRecords(gpu, snap).None? <==>
              || SiteFilters(snap.url).None?
              || snap.markup.items == []
              || exists j :: 0 <= j < |snap.markup.items| &&
                   Parsing(SiteFilters(snap.url).value, gpu, snap.markup.items[j]).Missing?
  {
    if SiteFilters(snap.url).Some? {
      ParseItemsFails(SiteFilters(snap.url).value, gpu, snap.markup.items);
    }
  }

  /** A record of a page that parsed is relevant, and comes from one of its items. */
  lemma {:induction false} PageRecordsRelevant(gpu: string, snap: Snapshot, rec: Record)
    requires PageRecords(gpu, snap).Some? && rec in PageRecords(gpu, snap).value
    ensures Relevant(gpu, rec.url)
    ensures exists j :: 0 <= j < |snap.markup.items| &&
              ResolveLink(SiteFilters(snap.url).value, snap.markup.items[j]) == Ok(rec.url)
  {
    var f := SiteFilters(snap.url).value;
    ParseItemsOrigin(f, gpu, snap.markup.items, rec);
    var j :| 0 <= j < |snap.markup.items| && Parsing(f, gpu, snap.markup.items[j]) == Ok(Some(rec));
  }

  /** The record an item contributes when the page parses: none, or one. */
  function Contribution(f: Filters, gpu: string, item: Item): seq<Record>
  {
    Kept(Parsing(f, gpu, item))
  }

  function Kept(parsed: Fallible<Option<Record>>): seq<Record>
  {
    match parsed
    case Ok(Some(rec)) => [rec]
    case _ => []
  }

  /** The records of the items in item order, read front to back. */
  function KeptInOrder(f: Filters, gpu: string, items: seq<Item>): seq<Record>
  {
    if items == [] then [] else Contribution(f, gpu, items[0]) + KeptInOrder(f, gpu, items[1..])
  }

  lemma {:induction false} KeptInOrderAppend(f: Filters, gpu: string, items: seq<Item>, x: Item)
    ensures KeptInOrder(f, gpu, items + [x]) == KeptInOrder(f, gpu, items) + Contribution(f, gpu, x)
  {
    if items == [] {
      assert KeptInOrder(f, gpu, [x]) == Contribution(f, gpu, x) + KeptInOrder(f, gpu, []);
    } else {
      assert (items + [x])[1..] == items[1..] + [x];
      KeptInOrderAppend(f, gpu, items[1..], x);
    }
  }

  /** When a page parses, its records are those of its relevant, priced items, in item order. */
  lemma {:induction false} ParseItemsKeepsOrder(f: Filters, gpu: string, items: seq<Item>)
    requires ParseItems(f, gpu, items).Ok?
    ensures ParseItems(f, gpu, items).value == KeptInOrder(f, gpu, items)
  {
    if items != [] {
      var front := items[..|items| - 1];
      var last := items[|items| - 1];
      assert front + [last] == items;
      assert ParseItems(f, gpu, items) == Step(ParseItems(f, gpu, front), Parsing(f, gpu, last));
      ParseItemsKeepsOrder(f, gpu, front);
      KeptInOrderAppend(f, gpu, front, last);
    }
  }
}
