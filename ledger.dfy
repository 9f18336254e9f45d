/** The auction records read from the contract and the per-id collection pass shared by
    the auction list and the featured carousel. */
module Ledger {
  import opened Common

  /** The tuple `getAuction(id)` returns. */
  datatype LedgerAuction = LedgerAuction(
    id: nat, title: string, description: string, imageUrl: string,
    startingPrice: nat, currentHighestBid: nat, highestBidder: string,
    endTime: nat, ended: bool, owner: string)

  /** A contract read `getAuction(id, { blockTag })`: the tuple, or None when the call throws. */
  type Reader = (nat, nat) -> Option<LedgerAuction>

  /** A `getAuction(id, { blockTag })` call as issued. */
  datatype ReadCall = ReadCall(id: nat, blockTag: nat)

  /** The reads issued when `ids` are requested one by one at `block`. */
  function Requests(ids: seq<nat>, block: nat): (r: seq<ReadCall>)
    ensures |r| == |ids| && forall k :: 0 <= k < |ids| ==> r[k] == ReadCall(ids[k], block)
  {
    seq(|ids|, k requires 0 <= k < |ids| => ReadCall(ids[k], block))
  }

  /** The record the client keeps for an auction. Its id is the loop index the auction was
      requested under, not the id field of the tuple. */
  datatype Auction = Auction(
    id: nat, title: string, description: string, imageUrl: string,
    startingPrice: nat, currentHighestBid: nat, highestBidder: string,
    endTime: int, ended: bool, owner: string)

  function ToClient(id: nat, t: LedgerAuction): (a: Auction)
    ensures a.id == id && a.title == t.title && a.description == t.description
    ensures a.imageUrl == t.imageUrl && a.startingPrice == t.startingPrice
    ensures a.currentHighestBid == t.currentHighestBid && a.endTime == t.endTime
    ensures a.ended == t.ended && a.owner == t.owner && a.highestBidder == t.highestBidder
  {
    Auction(id, t.title, t.description, t.imageUrl, t.startingPrice, t.currentHighestBid,
            t.highestBidder, t.endTime, t.ended, t.owner)
  }

  /** The auctions read, in request order, when `ids` are requested one by one at `block`;
      a request that throws contributes nothing. */
  function Fetched(read: Reader, block: nat, ids: seq<nat>): (r: seq<Auction>)
    ensures |r| <= |ids|
    ensures forall k :: 0 <= k < |r| ==>
      r[k].id in ids && read(r[k].id, block).Some? && r[k] == ToClient(r[k].id, read(r[k].id, block).value)
  {
    if ids == [] then []
    else
      var last := ids[|ids| - 1];
      Fetched(read, block, ids[..|ids| - 1]) + (match read(last, block)
        case Some(t) => [ToClient(last, t)]
        case None => [])
  }

  predicate HasId(s: seq<Auction>, i: nat) {
    exists k :: 0 <= k < |s| && s[k].id == i
  }

  /** An id is in the result exactly when it was requested and its read succeeded. */
  lemma {:induction false} FetchedComplete(read: Reader, block: nat, ids: seq<nat>, i: nat)
    ensures HasId(Fetched(read, block, ids), i) <==> i in ids && read(i, block).Some?
  {
    if i in ids && read(i, block).Some? {
      var last := ids[|ids| - 1];
      var r := Fetched(read, block, ids);
      if i == last {
        assert r[|r| - 1].id == i;
      } else {
        assert i in ids[..|ids| - 1] by {
          var j :| 0 <= j < |ids| && ids[j] == i;
          assert ids[..|ids| - 1][j] == i;
        }
        FetchedComplete(read, block, ids[..|ids| - 1], i);
        var p := Fetched(read, block, ids[..|ids| - 1]);
        var k :| 0 <= k < |p| && p[k].id == i;
        assert r[k].id == i;
      }
    }
  }

  /** `x` comes strictly before `y` in increasing (or, when not `ascending`, decreasing) order. */
  predicate Before(ascending: bool, x: nat, y: nat) {
    if ascending then x < y else x > y
  }

  predicate IdsOrdered(ascending: bool, s: seq<Auction>) {
    forall i, j :: 0 <= i < j < |s| ==> Before(ascending, s[i].id, s[j].id)
  }

  /** Ids strictly ordered in the request give ids ordered the same way in the result. */
  lemma {:induction false} FetchedOrdered(read: Reader, block: nat, ids: seq<nat>, ascending: bool)
    requires forall i, j :: 0 <= i < j < |ids| ==> Before(ascending, ids[i], ids[j])
    ensures IdsOrdered(ascending, Fetched(read, block, ids))
  {
    if ids != [] {
      var front := ids[..|ids| - 1];
      var last := ids[|ids| - 1];
      FetchedOrdered(read, block, front, ascending);
      var p := Fetched(read, block, front);
      var r := Fetched(read, block, ids);
      forall i, j | 0 <= i < j < |r| ensures Before(ascending, r[i].id, r[j].id) {
        if j < |p| {
          assert r[i] == p[i] && r[j] == p[j];
        } else {
          assert r == p + [r[|r| - 1]];
          assert r[i] == p[i] && r[j].id == last;
          var m :| 0 <= m < |front| && front[m] == p[i].id;
          assert ids[m] == p[i].id;
        }
      }
    }
  }

  /** The auctions of `s` other than the one with id `j`. */
  function WithoutId(s: seq<Auction>, j: nat): (r: seq<Auction>)
    ensures forall a :: a in r <==> a in s && a.id != j
  {
    if s == [] then [] else WithoutId(s[..|s| - 1], j) + (if s[|s| - 1].id == j then [] else [s[|s| - 1]])
  }

  /** A read that throws for id `j` costs exactly the auction with that id: every other
      auction is still there, unchanged and in the same order. */
  lemma {:induction false} FailureDropsOnlyThatItem(read: Reader, failing: Reader, block: nat, ids: seq<nat>, j: nat)
    requires failing(j, block).None?
    requires forall i :: i != j ==> failing(i, block) == read(i, block)
    ensures Fetched(failing, block, ids) == WithoutId(Fetched(read, block, ids), j)
  {
    if ids != [] {
      var front := ids[..|ids| - 1];
      var last := ids[|ids| - 1];
      FailureDropsOnlyThatItem(read, failing, block, front, j);
      var tail := match read(last, block) case Some(t) => [ToClient(last, t)] case None => [];
      WithoutIdAppend(Fetched(read, block, front), tail, j);
    }
  }

  lemma {:induction false} WithoutIdAppend(a: seq<Auction>, b: seq<Auction>, j: nat)
    requires |b| <= 1
    ensures WithoutId(a + b, j) == WithoutId(a, j) + WithoutId(b, j)
  {
    if b == [] {
      assert a + b == a;
    } else {
      assert (a + b)[..|a + b| - 1] == a;
      assert WithoutId(b, j) == (if b[0].id == j then [] else b) by {
        assert b[..0] == [];
      }
    }
  }

  /** The ids `0, 1, …, count - 1` the auction list requests. */
  function Range(count: nat): (ids: seq<nat>)
    ensures |ids| == count && forall k :: 0 <= k < count ==> ids[k] == k
  {
    seq(count, k requires 0 <= k < count => k)
  }

  /** The full snapshot of the auction list: ids in [0, count) read at one block. */
  function Snapshot(read: Reader, block: nat, count: nat): (r: seq<Auction>)
    ensures |r| <= count
    ensures forall k :: 0 <= k < |r| ==> r[k].id < count
  {
    Fetched(read, block, Range(count))
  }

  /** The snapshot holds, in increasing id order, exactly the auctions below `count` whose
      read at `block` succeeded, each as the ledger returned it. */
  lemma SnapshotSpec(read: Reader, block: nat, count: nat)
    ensures forall a :: a in Snapshot(read, block, count) ==>
      a.id < count && read(a.id, block).Some? && a == ToClient(a.id, read(a.id, block).value)
    ensures IdsOrdered(true, Snapshot(read, block, count))
    ensures forall i :: 0 <= i < count && read(i, block).Some? ==> HasId(Snapshot(read, block, count), i)
  {
    var r := Snapshot(read, block, count);
    FetchedOrdered(read, block, Range(count), true);
    forall i | 0 <= i < count && read(i, block).Some? ensures HasId(r, i) {
      assert Range(count)[i] == i;
      FetchedComplete(read, block, Range(count), i);
    }
  }

  /** With nothing to read the snapshot is empty. */
  lemma EmptyCountEmptySnapshot(read: Reader, block: nat)
    ensures Snapshot(read, block, 0) == []
  {
  }

  /** Three auctions, the read of id 1 throws: the snapshot holds ids 0 and 2, in that order. */
  lemma ThreeWithMiddleFailing(read: Reader, block: nat)
    requires read(0, block).Some? && read(1, block).None? && read(2, block).Some?
    ensures |Snapshot(read, block, 3)| == 2
    ensures Snapshot(read, block, 3)[0].id == 0 && Snapshot(read, block, 3)[1].id == 2
  {
    var ids := Range(3);
    assert ids == [0, 1, 2];
    assert ids[..2] == [0, 1] && [0, 1][..1] == [0] && [0][..0] == [];
    var f0 := Fetched(read, block, [0]);
    assert f0 == [ToClient(0, read(0, block).value)];
    assert Fetched(read, block, [0, 1]) == f0;
    assert Fetched(read, block, [0, 1, 2]) == f0 + [ToClient(2, read(2, block).value)];
  }
}
