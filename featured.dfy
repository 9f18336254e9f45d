/** The featured carousel: the newest three auctions read at one block, guarded by the
    effect's `mounted` flag, and the slide index. */
module Featured {
  import opened Common
  import opened Clock
  import opened Ledger

  const MaxFeatured := 3
  const LoadError := "Falha ao carregar leilões"

  /** A slide: the fields the carousel keeps, with the end time in milliseconds. */
  datatype FeaturedAuction = FeaturedAuction(id: nat, title: string, imageUrl: string, currentBid: nat, endTimeMs: int)

  function ToFeatured(a: Auction): (f: FeaturedAuction)
    ensures f.id == a.id && f.title == a.title && f.imageUrl == a.imageUrl
    ensures f.currentBid == a.currentHighestBid && f.endTimeMs == a.endTime * 1000
  {
    FeaturedAuction(a.id, a.title, a.imageUrl, a.currentHighestBid, a.endTime * 1000)
  }

  function Min(a: nat, b: nat): nat {
    if a < b then a else b
  }

  /** The ids the carousel requests: `count - 1`, `count - 2`, … for `min(count, 3)` steps. */
  function NewestIds(count: nat): (ids: seq<nat>)
    ensures |ids| == Min(count, MaxFeatured)
    ensures forall k :: 0 <= k < |ids| ==> ids[k] == count - 1 - k
  {
    seq(Min(count, MaxFeatured), k requires 0 <= k < Min(count, MaxFeatured) => count - 1 - k)
  }

  function Slides(s: seq<Auction>): (r: seq<FeaturedAuction>)
    ensures |r| == |s| && forall k :: 0 <= k < |s| ==> r[k] == ToFeatured(s[k])
  {
    if s == [] then [] else Slides(s[..|s| - 1]) + [ToFeatured(s[|s| - 1])]
  }

  /** The slides one pass produces. */
  function FeaturedList(read: Reader, block: nat, count: nat): (r: seq<FeaturedAuction>)
    ensures |r| <= Min(count, MaxFeatured)
    ensures forall k :: 0 <= k < |r| ==> read(r[k].id, block).Some? && r[k].id < count
  {
    Slides(Fetched(read, block, NewestIds(count)))
  }

  /** At most `min(count, 3)` slides, none without auctions, ids strictly decreasing and all
      below `count`, each read at `block` and kept as the ledger returned it. */
  lemma FeaturedListSpec(read: Reader, block: nat, count: nat)
    ensures |FeaturedList(read, block, count)| <= Min(count, MaxFeatured)
    ensures count == 0 ==> FeaturedList(read, block, count) == []
    ensures forall i, j :: 0 <= i < j < |FeaturedList(read, block, count)| ==>
      FeaturedList(read, block, count)[i].id > FeaturedList(read, block, count)[j].id
    ensures forall f :: f in FeaturedList(read, block, count) ==>
      count - MaxFeatured <= f.id < count && read(f.id, block).Some?
      && f == ToFeatured(ToClient(f.id, read(f.id, block).value))
  {
    var ids := NewestIds(count);
    var s := Fetched(read, block, ids);
    var r := FeaturedList(read, block, count);
    FetchedOrdered(read, block, ids, false);
    forall i, j | 0 <= i < j < |r| ensures r[i].id > r[j].id {
      assert Before(false, s[i].id, s[j].id);
    }
    forall f | f in r
      ensures count - MaxFeatured <= f.id < count && read(f.id, block).Some?
      ensures f == ToFeatured(ToClient(f.id, read(f.id, block).value))
    {
      var k :| 0 <= k < |r| && r[k] == f;
      assert f == ToFeatured(s[k]);
      var m :| 0 <= m < |ids| && ids[m] == s[k].id;
    }
  }

  /** A featured read that throws costs only that slide. */
  lemma FeaturedFailureDropsOnlyThatSlide(read: Reader, failing: Reader, block: nat, count: nat, j: nat)
    requires failing(j, block).None?
    requires forall i :: i != j ==> failing(i, block) == read(i, block)
    ensures FeaturedList(failing, block, count) == Slides(WithoutId(Fetched(read, block, NewestIds(count)), j))
  {
    FailureDropsOnlyThatItem(read, failing, block, NewestIds(count), j);
  }

  /** `(i + 1) % n`. */
  function Next(i: nat, n: nat): (r: nat)
    requires n > 0
    ensures r < n
    ensures i < n ==> r == if i + 1 == n then 0 else i + 1
  {
    (i + 1) % n
  }

  /** `(i - 1 + n) % n`. */
  function Prev(i: nat, n: nat): (r: nat)
    requires n > 0
    ensures r < n
    ensures i < n ==> r == if i == 0 then n - 1 else i - 1
  {
    (i - 1 + n) % n
  }

  /** Going back undoes going forward and the other way round. */
  lemma PrevUndoesNext(i: nat, n: nat)
    requires i < n
    ensures Prev(Next(i, n), n) == i
    ensures Next(Prev(i, n), n) == i
  {
  }

  /** The carousel's component state. */
  class FeaturedAuctions {
    var featured: seq<FeaturedAuction>
    var currentIndex: nat
    var loading: bool
    var error: Option<string>

    constructor ()
      ensures featured == [] && currentIndex == 0 && !loading && error == None
    {
      featured, currentIndex, loading, error := [], 0, false, None;
    }

    method NextSlide()
      modifies this`currentIndex
      ensures |featured| <= 1 ==> currentIndex == old(currentIndex)
      ensures |featured| > 1 ==> currentIndex == Next(old(currentIndex), |featured|)
    {
      if |featured| <= 1 {
        return;
      }
      currentIndex := (currentIndex + 1) % |featured|;
    }

    method PrevSlide()
      modifies this`currentIndex
      ensures |featured| <= 1 ==> currentIndex == old(currentIndex)
      ensures |featured| > 1 ==> currentIndex == Prev(old(currentIndex), |featured|)
    {
      if |featured| <= 1 {
        return;
      }
      currentIndex := (currentIndex - 1 + |featured|) % |featured|;
    }

    /** The retry button: clears the error. */
    method ClearError()
      modifies this`error
      ensures error == None
    {
      error := None;
    }
  }

  /** One more read extends the slides by the auction it returns, if any, and the reads by one. */
  lemma ReadStep(read: Reader, block: nat, ids: seq<nat>, i: nat)
    requires i < |ids|
    ensures Requests(ids[..i + 1], block) == Requests(ids[..i], block) + [ReadCall(ids[i], block)]
    ensures Slides(Fetched(read, block, ids[..i + 1])) == Slides(Fetched(read, block, ids[..i])) +
      (match read(ids[i], block) case Some(t) => [ToFeatured(ToClient(ids[i], t))] case None => [])
  {
    assert ids[..i + 1][..i] == ids[..i];
    var s := Fetched(read, block, ids[..i]);
    match read(ids[i], block)
    case Some(t) =>
      assert Fetched(read, block, ids[..i + 1]) == s + [ToClient(ids[i], t)];
      assert (s + [ToClient(ids[i], t)])[..|s|] == s;
    case None =>
  }

  /** The loop of the fetch: reads ids `count - 1`, `count - 2`, … at `block`, at most three,
      skipping any read that throws. Returns the slides and the reads issued. */
  method ReadNewest(read: Reader, block: nat, count: nat) returns (slides: seq<FeaturedAuction>, calls: seq<ReadCall>)
    ensures slides == FeaturedList(read, block, count)
    ensures |calls| == Min(count, MaxFeatured)
    ensures forall k :: 0 <= k < |calls| ==> calls[k] == ReadCall(count - 1 - k, block)
  {
    slides, calls := [], [];
    var ids := NewestIds(count);
    var n := Min(count, MaxFeatured);
    var i := 0;
    while i < n
      invariant 0 <= i <= n
      invariant slides == Slides(Fetched(read, block, ids[..i]))
      invariant calls == Requests(ids[..i], block)
    {
      var index := ids[i];
      ReadStep(read, block, ids, i);
      calls := calls + [ReadCall(index, block)];
      var result := read(index, block);
      if result.Some? {
        slides := slides + [ToFeatured(ToClient(index, result.value))];
      }
      i := i + 1;
    }
    assert ids[..n] == ids;
  }

  /** One run of the fetch effect. `mounted` is the run's own flag; the cleanup of the run
      clears it, and the fetch of that run then leaves the component alone. */
  class FetchEffect {
    const view: FeaturedAuctions
    var mounted: bool

    constructor (view: FeaturedAuctions)
      ensures this.view == view && mounted
    {
      this.view := view;
      mounted := true;
    }

    /** The synchronous start of `fetchFeaturedAuctions` (only run with a signer). */
    method Start()
      modifies view`loading, view`error
      ensures view.loading && view.error == None
    {
      view.loading := true;
      view.error := None;
    }

    /** The rest of the fetch once its reads have settled. `blockNumber` and `counter` are the
        outcomes of `getBlockNumber()` and `auctionCounter()`, `read` answers `getAuction`.
        Returns the item reads issued. */
    method Finish(blockNumber: Option<nat>, counter: Option<nat>, read: Reader)
      returns (calls: seq<ReadCall>)
      modifies view`featured, view`loading, view`error
      ensures !mounted ==> unchanged(view)
      ensures mounted && (blockNumber.None? || counter.None?) ==>
        view.error == Some(LoadError) && !view.loading && view.featured == old(view.featured)
      ensures mounted && blockNumber.Some? && counter.Some? ==>
        && view.featured == FeaturedList(read, blockNumber.value, counter.value)
        && !view.loading && view.error == old(view.error)
        && |calls| == Min(counter.value, MaxFeatured)
        && forall k :: 0 <= k < |calls| ==> calls[k] == ReadCall(counter.value - 1 - k, blockNumber.value)
    {
      calls := [];
      if blockNumber.None? || counter.None? {
        if mounted {
          view.error := Some(LoadError);
          view.loading := false;
        }
        return;
      }
      var block, count := blockNumber.value, counter.value;
      if !mounted {
        return;
      }
      if count == 0 {
        view.featured := [];
        view.loading := false;
        return;
      }
      var slides;
      slides, calls := ReadNewest(read, block, count);
      if mounted {
        view.featured := slides;
      }
      if mounted {
        view.loading := false;
      }
    }

    /** The effect's cleanup. */
    method Cleanup()
      modifies this
      ensures !mounted
    {
      mounted := false;
    }
  }

  /** The text a slide shows for its end time at `Date.now() == nowMs`. */
  function SlideTimeLeft(slide: FeaturedAuction, nowMs: int): (r: string)
    ensures r == "Finalizado" <==> slide.endTimeMs <= nowMs
  {
    RenderShort(FormatTimeLeft(slide.endTimeMs, nowMs))
  }

  /** A slide shows `'Finalizado'` exactly when the auction card's countdown shows `'Ended'`. */
  lemma SlideFinalizedIffCardEnded(a: Auction, nowMs: nat)
    requires a.endTime >= 0
    ensures SlideTimeLeft(ToFeatured(a), nowMs) == "Finalizado" <==> Render(TimeLeft(a.endTime, nowMs / 1000)) == "Ended"
  {
    EndedAgreesWithFinalized(a.endTime, nowMs);
  }
}
