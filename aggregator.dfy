/**
 * The parse coordinator and aggregator of parser.py (class `Parser`): it
 * drains the page channel up to `"END"`, runs one worker per page, puts
 * every record in `all_gpus` and the ones not out of stock also in
 * `in_stock_gpus`, sorts both by the price STRING and shows the first ten
 * of each.
 */
module Aggregator {
  import opened Wrappers
  import opened Listing
  import opened Extractor

  // ---------------------------------------------------------------------
  // Partition by stock status
  // ---------------------------------------------------------------------

  /** The test of `filter_by_stock_status`: element 4 is not "Out of Stock". */
  predicate IsInStock(r: Record) { r.stock != OutOfStock }

  /** Every record of every result that is present, in result order (`if not result: continue`). */
  function Flatten(results: seq<Option<seq<Record>>>): seq<Record>
  {
    if results == [] then []
    else
      var last := results[|results| - 1];
      Flatten(results[..|results| - 1]) + (if last.Some? then last.value else [])
  }

  lemma {:induction false} FlattenStep(results: seq<Option<seq<Record>>>, i: nat)
    requires i < |results|
    ensures Flatten(results[..i + 1]) == Flatten(results[..i]) + (if results[i].Some? then results[i].value else [])
  {
    assert results[..i + 1][..i] == results[..i];
  }

  /** Appending record `j` to both lists, the in-stock one only when it is in stock. */
  lemma {:induction false} RecordStep(all0: seq<Record>, in0: seq<Record>, done: seq<Record>, records: seq<Record>, j: nat)
    requires j < |records|
    ensures all0 + (done + records[..j]) + [records[j]] == all0 + (done + records[..j + 1])
    ensures in0 + InStockOnly(done + records[..j]) + (if IsInStock(records[j]) then [records[j]] else [])
            == in0 + InStockOnly(done + records[..j + 1])
  {
    assert records[..j + 1] == records[..j] + [records[j]];
    assert done + records[..j + 1] == (done + records[..j]) + [records[j]];
    InStockOnlySnoc(done + records[..j], records[j]);
  }

  /** The records that go to `in_stock_gpus`, in order. */
  function InStockOnly(rs: seq<Record>): seq<Record>
  {
    if rs == [] then []
    else InStockOnly(rs[..|rs| - 1]) + (if IsInStock(rs[|rs| - 1]) then [rs[|rs| - 1]] else [])
  }

  /** The records that go to `all_gpus` only. */
  function OutOfStockOnly(rs: seq<Record>): seq<Record>
  {
    if rs == [] then []
    else OutOfStockOnly(rs[..|rs| - 1]) + (if IsInStock(rs[|rs| - 1]) then [] else [rs[|rs| - 1]])
  }

  /** `a` is `b` with some elements left out. */
  predicate IsSubsequence(a: seq<Record>, b: seq<Record>)
  {
    if a == [] then true
    else if b == [] then false
    else if a[|a| - 1] == b[|b| - 1] then IsSubsequence(a[..|a| - 1], b[..|b| - 1])
    else IsSubsequence(a, b[..|b| - 1])
  }

  lemma {:induction false} InStockOnlySnoc(rs: seq<Record>, x: Record)
    ensures InStockOnly(rs + [x]) == InStockOnly(rs) + (if IsInStock(x) then [x] else [])
  {
    assert (rs + [x])[..|rs|] == rs;
  }

  lemma {:induction false} OutOfStockOnlySnoc(rs: seq<Record>, x: Record)
    ensures OutOfStockOnly(rs + [x]) == OutOfStockOnly(rs) + (if IsInStock(x) then [] else [x])
  {
    assert (rs + [x])[..|rs|] == rs;
  }

  /** Only in-stock records go to the in-stock list. */
  lemma {:induction false} InStockOnlyKeepsInStock(rs: seq<Record>)
    ensures forall r :: r in InStockOnly(rs) ==> IsInStock(r)
  {
    if rs != [] {
      InStockOnlyKeepsInStock(rs[..|rs| - 1]);
    }
  }

  /** Only out-of-stock records are left out of it. */
  lemma {:induction false} OutOfStockOnlyKeepsOutOfStock(rs: seq<Record>)
    ensures forall r :: r in OutOfStockOnly(rs) ==> !IsInStock(r)
  {
    if rs != [] {
      OutOfStockOnlyKeepsOutOfStock(rs[..|rs| - 1]);
    }
  }

  /**
   * The in-stock list keeps exactly the in-stock records and the rest are
   * exactly the out-of-stock ones: together they are the whole input.
   */
  lemma {:induction false} PartitionIsExact(rs: seq<Record>)
    ensures forall r :: r in InStockOnly(rs) ==> IsInStock(r)
    ensures forall r :: r in OutOfStockOnly(rs) ==> !IsInStock(r)
    ensures multiset(InStockOnly(rs)) + multiset(OutOfStockOnly(rs)) == multiset(rs)
  {
    InStockOnlyKeepsInStock(rs);
    OutOfStockOnlyKeepsOutOfStock(rs);
    PartitionMultiset(rs);
  }

  lemma {:induction false} PartitionMultiset(rs: seq<Record>)
    ensures multiset(InStockOnly(rs)) + multiset(OutOfStockOnly(rs)) == multiset(rs)
  {
    if rs != [] {
      var front := rs[..|rs| - 1];
      var last := rs[|rs| - 1];
      PartitionMultiset(front);
      assert rs == front + [last];
      InStockOnlySnoc(front, last);
      OutOfStockOnlySnoc(front, last);
    }
  }

  /** The in-stock list is a subsequence of the whole list, in the same order. */
  lemma {:induction false} InStockIsSubsequence(rs: seq<Record>)
    ensures IsSubsequence(InStockOnly(rs), rs)
  {
    if rs != [] {
      var front := rs[..|rs| - 1];
      var last := rs[|rs| - 1];
      InStockIsSubsequence(front);
      assert rs == front + [last];
      InStockOnlySnoc(front, last);
      if IsInStock(last) {
        assert InStockOnly(rs)[..|InStockOnly(rs)| - 1] == InStockOnly(front);
      } else {
        InStockOnlyKeepsInStock(front);
        assert InStockOnly(rs) == InStockOnly(front);
        SubsequenceLastDiffers(InStockOnly(front), rs);
      }
    }
  }

  /** A list of in-stock records stays a subsequence once an out-of-stock element is appended. */
  lemma {:induction false} SubsequenceLastDiffers(a: seq<Record>, b: seq<Record>)
    requires b != [] && !IsInStock(b[|b| - 1])
    requires IsSubsequence(a, b[..|b| - 1])
    requires forall r :: r in a ==> IsInStock(r)
    ensures IsSubsequence(a, b)
  {
    if a != [] {
      assert a[|a| - 1] in a;
    }
  }

  // ---------------------------------------------------------------------
  // Ordering by price string
  // ---------------------------------------------------------------------

  /** Python's `a <= b` on strings: lexicographic by code point, a prefix first. */
  predicate StrLe(a: string, b: string)
  {
    if a == [] then true
    else if b == [] then false
    else if a[0] != b[0] then a[0] < b[0]
    else StrLe(a[1..], b[1..])
  }

  lemma {:induction false} StrLeReflexive(a: string)
    ensures StrLe(a, a)
  {
    if a != [] { StrLeReflexive(a[1..]); }
  }

  lemma {:induction false} StrLeTotal(a: string, b: string)
    ensures StrLe(a, b) || StrLe(b, a)
  {
    if a != [] && b != [] && a[0] == b[0] { StrLeTotal(a[1..], b[1..]); }
  }

  lemma {:induction false} StrLeTransitive(a: string, b: string, c: string)
    requires StrLe(a, b) && StrLe(b, c)
    ensures StrLe(a, c)
  {
    if a != [] && b != [] && c != [] && a[0] == b[0] && b[0] == c[0] {
      StrLeTransitive(a[1..], b[1..], c[1..]);
    }
  }

  lemma {:induction false} StrLeAntisymmetric(a: string, b: string)
    requires StrLe(a, b) && StrLe(b, a)
    ensures a == b
  {
    if a != [] && b != [] {
      StrLeAntisymmetric(a[1..], b[1..]);
      assert a == [a[0]] + a[1..] && b == [b[0]] + b[1..];
    }
  }

  predicate PriceLe(x: Record, y: Record) { StrLe(x.price, y.price) }

  /** Non-decreasing by element 0, the price string. */
  predicate SortedByPrice(rs: seq<Record>)
  {
    forall i, j :: 0 <= i < j < |rs| ==> PriceLe(rs[i], rs[j])
  }

  /** Places `x` before the first element whose price is not below its own. */
  function Insert(x: Record, rs: seq<Record>): (r: seq<Record>)
    ensures |r| == |rs| + 1
  {
    if rs == [] then [x]
    else if PriceLe(x, rs[0]) then [x] + rs
    else [rs[0]] + Insert(x, rs[1..])
  }

  lemma {:induction false} InsertPermutes(x: Record, rs: seq<Record>)
    ensures multiset(Insert(x, rs)) == multiset(rs) + multiset{x}
  {
    if rs != [] && !PriceLe(x, rs[0]) {
      InsertPermutes(x, rs[1..]);
      assert rs == [rs[0]] + rs[1..];
    }
  }

  /** Inserting into a sorted list keeps it sorted. */
  lemma {:induction false} InsertSorted(x: Record, rs: seq<Record>)
    requires SortedByPrice(rs)
    ensures SortedByPrice(Insert(x, rs))
  {
    if rs == [] {
    } else if PriceLe(x, rs[0]) {
      forall k | 0 < k < |rs| ensures PriceLe(x, rs[k]) {
        StrLeTransitive(x.price, rs[0].price, rs[k].price);
      }
    } else {
      var tail := Insert(x, rs[1..]);
      InsertSorted(x, rs[1..]);
      InsertPermutes(x, rs[1..]);
      StrLeTotal(x.price, rs[0].price);
      forall k | 0 <= k < |tail| ensures PriceLe(rs[0], tail[k]) {
        assert tail[k] in multiset(tail);
        if tail[k] != x {
          assert tail[k] in multiset(rs[1..]);
          var m :| 0 <= m < |rs[1..]| && rs[1..][m] == tail[k];
          assert rs[m + 1] == tail[k];
        }
      }
      assert Insert(x, rs) == [rs[0]] + tail;
    }
  }

  /** `list.sort(key=lambda x: x[0])`: a stable sort by the price string. */
  function SortByPrice(rs: seq<Record>): (r: seq<Record>)
    ensures |r| == |rs|
  {
    if rs == [] then [] else Insert(rs[0], SortByPrice(rs[1..]))
  }

  /** The sorted list is ordered by price and is a permutation of the input. */
  lemma {:induction false} SortByPriceSorts(rs: seq<Record>)
    ensures SortedByPrice(SortByPrice(rs))
    ensures multiset(SortByPrice(rs)) == multiset(rs)
  {
    if rs != [] {
      SortByPriceSorts(rs[1..]);
      InsertSorted(rs[0], SortByPrice(rs[1..]));
      InsertPermutes(rs[0], SortByPrice(rs[1..]));
      assert rs == [rs[0]] + rs[1..];
    }
  }

  /** The records of `rs` whose price is `p`, in order. */
  function WithPrice(rs: seq<Record>, p: string): seq<Record>
  {
    if rs == [] then [] else (if rs[0].price == p then [rs[0]] else []) + WithPrice(rs[1..], p)
  }

  lemma {:induction false} InsertIsStable(x: Record, rs: seq<Record>, p: string)
    ensures WithPrice(Insert(x, rs), p) == (if x.price == p then [x] else []) + WithPrice(rs, p)
  {
    var mine := if x.price == p then [x] else [];
    if rs == [] {
      assert WithPrice([x], p) == mine + WithPrice([], p);
    } else if PriceLe(x, rs[0]) {
      assert ([x] + rs)[1..] == rs;
    } else {
      var tail := Insert(x, rs[1..]);
      var head := if rs[0].price == p then [rs[0]] else [];
      InsertIsStable(x, rs[1..], p);
      assert ([rs[0]] + tail)[1..] == tail;
      assert WithPrice([rs[0]] + tail, p) == head + mine + WithPrice(rs[1..], p);
      StrLeReflexive(x.price);
      assert mine == [] || head == [];
      assert head + mine == mine + head;
    }
  }

  /** The sort is stable: records with the same price keep their relative order. */
  lemma {:induction false} SortIsStable(rs: seq<Record>, p: string)
    ensures WithPrice(SortByPrice(rs), p) == WithPrice(rs, p)
  {
    if rs != [] {
      SortIsStable(rs[1..], p);
      InsertIsStable(rs[0], SortByPrice(rs[1..]), p);
    }
  }

  /** `gpu_list[:10]`. */
  function Top10(rs: seq<Record>): (r: seq<Record>)
    ensures |r| == if |rs| < 10 then |rs| else 10
    ensures r == rs[..|r|]
  {
    if |rs| < 10 then rs else rs[..10]
  }

  /** On a sorted list the ten shown are the cheapest: none hidden is priced below one shown. */
  lemma {:induction false} ShownAreCheapest(rs: seq<Record>)
    requires SortedByPrice(rs)
    ensures forall i, j :: 0 <= i < |Top10(rs)| <= j < |rs| ==> PriceLe(rs[i], rs[j])
    ensures SortedByPrice(Top10(rs))
  {
  }

  /**
   * The in-stock display list holds only in-stock records, each one of
   * the collected records, and at most ten of them, cheapest first.
   */
  lemma {:induction false} ShownInStockAreInStock(rs: seq<Record>)
    ensures var shown := Top10(SortByPrice(InStockOnly(rs)));
            && |shown| <= 10
            && SortedByPrice(shown)
            && forall r :: r in shown ==> IsInStock(r) && r in rs
  {
    var ins := InStockOnly(rs);
    var shown := Top10(SortByPrice(ins));
    PartitionIsExact(rs);
    SortByPriceSorts(ins);
    ShownAreCheapest(SortByPrice(ins));
    forall r | r in shown ensures IsInStock(r) && r in rs {
      assert r in multiset(SortByPrice(ins));
      assert r in multiset(ins);
      assert r in multiset(rs);
    }
  }

  // ---------------------------------------------------------------------
  // The channel up to the sentinel
  // ---------------------------------------------------------------------

  /** Position of the first `"END"` on the channel. */
  function FirstEnd(channel: seq<Message>): (k: nat)
    requires End in channel
    ensures k < |channel| && channel[k] == End
    ensures forall j :: 0 <= j < k ==> channel[j].Page?
  {
    if channel[0] == End then 0 else 1 + FirstEnd(channel[1..])
  }

  /** The snapshots read before the first `"END"`: one pool job is submitted for each. */
  function Submitted(channel: seq<Message>): (snaps: seq<Snapshot>)
    requires End in channel
    ensures |snaps| == FirstEnd(channel)
    ensures forall j :: 0 <= j < |snaps| ==> channel[j] == Page(snaps[j])
  {
    var k := FirstEnd(channel);
    seq(k, j requires 0 <= j < k => channel[j].snapshot)
  }

  /** The results of the pool jobs for `snaps`, in submission order. */
  function Extracted(gpu: string, snaps: seq<Snapshot>): (results: seq<Option<seq<Record>>>)
    ensures |results| == |snaps|
    ensures forall j :: 0 <= j < |snaps| ==> results[j] == PageRecords(gpu, snaps[j])
  {
    seq(|snaps|, j requires 0 <= j < |snaps| => PageRecords(gpu, snaps[j]))
  }

  // ---------------------------------------------------------------------
  // The coordinator object
  // ---------------------------------------------------------------------

  /** `Parser`: reads the page channel, runs the workers and aggregates their records. */
  class Parser {
    var pages: seq<Message>
    const gpu: string
    var resultObjects: seq<Option<seq<Record>>>
    var inStockGpus: seq<Record>
    var allGpus: seq<Record>

    constructor (pages: seq<Message>, gpu: string)
      ensures this.pages == pages && this.gpu == gpu
      ensures resultObjects == [] && inStockGpus == [] && allGpus == []
    {
      this.pages := pages;
      this.gpu := gpu;
      resultObjects, inStockGpus, allGpus := [], [], [];
    }

    /**
     * `Parser.main`: one worker per snapshot before the first `"END"`, then
     * the partition, and the sort and display only when `all_gpus` is
     * non-empty. Returns the two lists as shown (at most ten each).
     */
    method Run() returns (shownInStock: seq<Record>, shownAll: seq<Record>)
      requires End in pages
      modifies this
      ensures resultObjects == Extracted(gpu, Submitted(old(pages)))
      ensures pages == old(pages)[FirstEnd(old(pages)) + 1..]
      ensures var all := old(allGpus) + Flatten(resultObjects);
              var ins := old(inStockGpus) + InStockOnly(Flatten(resultObjects));
              && allGpus == (if all != [] then SortByPrice(all) else all)
              && inStockGpus == (if all != [] then SortByPrice(ins) else ins)
              && shownAll == (if all != [] then Top10(allGpus) else [])
              && shownInStock == (if all != [] then Top10(inStockGpus) else [])
    {
      ghost var channel := pages;
      ghost var k := FirstEnd(channel);
      resultObjects := [];
      var page := pages[0];
      pages := pages[1..];
      while page != End
        invariant |resultObjects| <= k
        invariant page == channel[|resultObjects|]
        invariant pages == channel[|resultObjects| + 1..]
        invariant forall j :: 0 <= j < |resultObjects| ==> resultObjects[j] == PageRecords(gpu, channel[j].snapshot)
        invariant allGpus == old(allGpus) && inStockGpus == old(inStockGpus)
        decreases |pages|
      {
        assert |resultObjects| < k;
        var worker := new Worker(gpu);
        var result := worker.Run(page.snapshot);
        resultObjects := resultObjects + [result];
        page := pages[0];
        pages := pages[1..];
      }
      assert |resultObjects| == k;
      assert resultObjects == Extracted(gpu, Submitted(channel));
      FilterByStockStatus();
      if allGpus != [] {
        shownInStock, shownAll := SortByPriceAndShow();
      } else {
        shownInStock, shownAll := [], [];
      }
    }

    /** `filter_by_stock_status`: appends every present result's records to the lists. */
    method FilterByStockStatus()
      modifies this`inStockGpus, this`allGpus
      ensures allGpus == old(allGpus) + Flatten(resultObjects)
      ensures inStockGpus == old(inStockGpus) + InStockOnly(Flatten(resultObjects))
    {
      ghost var all0, in0 := allGpus, inStockGpus;
      var i := 0;
      while i < |resultObjects|
        invariant 0 <= i <= |resultObjects|
        invariant allGpus == all0 + Flatten(resultObjects[..i])
        invariant inStockGpus == in0 + InStockOnly(Flatten(resultObjects[..i]))
      {
        ghost var done := Flatten(resultObjects[..i]);
        FlattenStep(resultObjects, i);
        var result := resultObjects[i];
        if result.Some? {
          var records := result.value;
          var j := 0;
          assert records[..0] == [];
          assert done + records[..0] == done;
          while j < |records|
            invariant 0 <= j <= |records|
            invariant allGpus == all0 + (done + records[..j])
            invariant inStockGpus == in0 + InStockOnly(done + records[..j])
          {
            var attributes := records[j];
            RecordStep(all0, in0, done, records, j);
            if attributes.stock != OutOfStock {
              inStockGpus := inStockGpus + [attributes];
            }
            allGpus := allGpus + [attributes];
            j := j + 1;
          }
          assert records[..j] == records;
        } else {
          assert done + [] == done;
        }
        i := i + 1;
      }
      assert resultObjects[..i] == resultObjects;
    }

    /** `sort_by_price`: sorts both lists by price in place and shows the first ten of each. */
    method SortByPriceAndShow() returns (shownInStock: seq<Record>, shownAll: seq<Record>)
      modifies this`inStockGpus, this`allGpus
      ensures inStockGpus == SortByPrice(old(inStockGpus)) && allGpus == SortByPrice(old(allGpus))
      ensures shownInStock == Top10(inStockGpus) && shownAll == Top10(allGpus)
    {
      inStockGpus := SortByPrice(inStockGpus);
      allGpus := SortByPrice(allGpus);
      shownInStock := Top10(inStockGpus);
      shownAll := Top10(allGpus);
    }
  }
}
