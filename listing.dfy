/** The auction list component: its state, the snapshot fetch and the rendered list. */
module Listing {
  import opened Common
  import opened Ledger
  import opened Views

  class AuctionList {
    var auctions: seq<Auction>
    var loading: bool
    var filter: string
    var sort: string
    var searchTerm: string

    constructor ()
      ensures auctions == [] && loading && filter == "all" && sort == "newest" && searchTerm == ""
    {
      auctions, loading, filter, sort, searchTerm := [], true, "all", "newest", "";
    }

    /** `fetchAuctions`. `blockNumber` and `counter` are the outcomes of `getBlockNumber()`
        and `auctionCounter()` (None when the call throws); `read` answers `getAuction`.
        Returns the item reads issued, in order. */
    method FetchAuctions(blockNumber: Option<nat>, counter: Option<nat>, read: Reader)
      returns (calls: seq<ReadCall>)
      modifies this`auctions, this`loading
      ensures !loading
      ensures blockNumber.None? || counter.None? ==> auctions == [] && calls == []
      ensures blockNumber.Some? && counter.Some? ==>
        && auctions == Snapshot(read, blockNumber.value, counter.value)
        && |calls| == counter.value
        && forall k :: 0 <= k < |calls| ==> calls[k] == ReadCall(k, blockNumber.value)
    {
      loading := true;
      calls := [];
      if blockNumber.None? || counter.None? {
        auctions := [];
        loading := false;
        return;
      }
      var block, count := blockNumber.value, counter.value;
      if count == 0 {
        auctions := [];
        loading := false;
        return;
      }
      var fetched: seq<Auction> := [];
      var i := 0;
      while i < count
        invariant 0 <= i <= count
        invariant fetched == Fetched(read, block, Range(i))
        invariant |calls| == i && forall k :: 0 <= k < i ==> calls[k] == ReadCall(k, block)
      {
        calls := calls + [ReadCall(i, block)];
        assert Range(i + 1)[..i] == Range(i);
        var result := read(i, block);
        if result.Some? {
          fetched := fetched + [ToClient(i, result.value)];
        }
        i := i + 1;
      }
      auctions := fetched;
      loading := false;
    }

    /** The auctions the page renders at `Date.now() == nowMs`: the auctions held that pass
        the search and the status filter, ordered by the chosen sort key. */
    function Rendered(nowMs: int): (r: seq<Auction>)
      reads this
      ensures multiset(r) == multiset(FilterAuctions(auctions, searchTerm, filter, nowMs))
      ensures Sorted(ParseSort(sort), r)
      ensures forall a :: a in r ==> a in auctions
    {
      DisplayedExactlyTheFiltered(auctions, searchTerm, filter, sort, nowMs);
      Displayed(auctions, searchTerm, filter, sort, nowMs)
    }

    method SetSearchTerm(term: string)
      modifies this`searchTerm
      ensures searchTerm == term
    {
      searchTerm := term;
    }

    method SetFilter(value: string)
      modifies this`filter
      ensures filter == value
    {
      filter := value;
    }

    method SetSort(value: string)
      modifies this`sort
      ensures sort == value
    {
      sort := value;
    }
  }

  /** After a fetch, under the default `'newest'` order and no filter or search, the page shows
      every auction of the snapshot, newest first. */
  lemma DefaultViewAfterFetch(read: Reader, block: nat, count: nat, nowMs: int)
    ensures var shown := Displayed(Snapshot(read, block, count), "", "all", "newest", nowMs);
      multiset(shown) == multiset(Snapshot(read, block, count)) && IdsOrdered(false, shown)
  {
    SnapshotSpec(read, block, count);
    NewestStrictlyDescending(Snapshot(read, block, count), "", "all", nowMs);
  }
}
