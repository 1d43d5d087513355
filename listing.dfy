/**
 * The values that flow between the fetch side and the parse side of the
 * scraper: the parts of one search-result item the extractor looks up, a
 * rendered page, the messages on the page channel and the 6-tuple the
 * extractor builds for one graphics card.
 */
module Listing {
  import opened Wrappers

  /** The home pages of the three retailers: the parser joins relative links to them and the search URLs start with them. */
  const PcCanadaBase := "https://www.pc-canada.com/"
  const MemoryExpressBase := "https://www.memoryexpress.com/"
  const NeweggBase := "https://www.newegg.ca/"

  /**
   * One item container of a search-result page, reduced to what the
   * extractor asks of it. A `None` stands for a lookup that found no
   * element (or no `href` attribute): dereferencing it raises.
   */
  datatype Item = Item(
    anchorHref: Option<string>,        // `href` of the item's first `<a>`
    classedAnchorHref: Option<string>, // `href` of the `<a>` carrying the site's link class
    priceText: Option<string>,         // text of the element with the site's price class
    priceStrong: Option<string>,       // text of the `<strong>` inside that price element
    description: Option<string>,       // text of the element with the site's description class
    stockLabel: Option<string>,        // text of the `<p>` inside the site's stock `<div>`
    promoPresent: bool,                // an element with the site's stock (promo) class exists
    newnessText: Option<string>)       // text of the open-box element, when there is one

  /**
   * A rendered page: its HTML source and the item containers that the
   * HTML library finds in it for the site's item class.
   */
  datatype Markup = Markup(source: string, items: seq<Item>)

  /** What a fetch worker pushes for one rendered page: the page and `driver.current_url`. */
  datatype Snapshot = Snapshot(markup: Markup, url: string)

  /** An entry of the page channel: a snapshot, or the `"END"` sentinel. */
  datatype Message = Page(snapshot: Snapshot) | End

  /** The tuple `(price, url, gddr, ti_status, stock_status, newness)` of one card. */
  datatype Record = Record(price: string, url: string, gddr: string, ti: bool, stock: string, newness: string)

  /** The channel entries for a sequence of snapshots, in order. */
  function AsPages(snaps: seq<Snapshot>): (r: seq<Message>)
    ensures |r| == |snaps|
  {
    if snaps == [] then [] else AsPages(snaps[..|snaps| - 1]) + [Page(snaps[|snaps| - 1])]
  }

  /** Entry `i` of the channel is snapshot `i`, and the sentinel is not among them. */
  lemma {:induction false} AsPagesEntries(snaps: seq<Snapshot>)
    ensures forall i :: 0 <= i < |snaps| ==> AsPages(snaps)[i] == Page(snaps[i])
    ensures End !in AsPages(snaps)
  {
    if snaps != [] {
      AsPagesEntries(snaps[..|snaps| - 1]);
    }
  }

  lemma {:induction false} AsPagesAppend(a: seq<Snapshot>, b: seq<Snapshot>)
    ensures AsPages(a + b) == AsPages(a) + AsPages(b)
  {
    AsPagesEntries(a + b);
    AsPagesEntries(a);
    AsPagesEntries(b);
    assert |AsPages(a + b)| == |AsPages(a) + AsPages(b)|;
  }
}
