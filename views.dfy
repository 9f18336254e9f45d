/** The views the auction list derives from its snapshot: text search, status filter and
    sort. None of them changes the snapshot; each returns a new sequence. */
module Views {
  import opened Common
  import opened Text
  import opened Ledger

  /** Title or description contains the term, ignoring case. */
  predicate Matches(a: Auction, term: string): (r: bool)
    ensures term == "" ==> r
    ensures r ==> |term| <= |a.title| || |term| <= |a.description|
  {
    assert term == "" ==> Contains(Lower(a.title), Lower(term));
    Contains(Lower(a.title), Lower(term)) || Contains(Lower(a.description), Lower(term))
  }

  /** The search step of `filterAuctions`: an empty term keeps everything. */
  function Search(list: seq<Auction>, term: string): (r: seq<Auction>)
    ensures term == "" ==> r == list
    ensures forall a :: a in r <==> a in list && (term == "" || Matches(a, term))
  {
    if term == "" then list
    else
      FilterMembers(list, a => Matches(a, term));
      Filter(list, a => Matches(a, term))
  }

  /** Skipping the search for an empty term changes nothing: every auction matches it. */
  lemma EmptyTermMatchesAll(list: seq<Auction>)
    ensures Filter(list, a => Matches(a, "")) == list
  {
    forall a: Auction ensures Matches(a, "") {
      ContainsEmpty(Lower(a.title));
    }
    FilterAll(list, a => Matches(a, ""));
  }

  /** An auction is active while it is not ended and its end lies after `Date.now() / 1000`;
      with `now` in milliseconds that is `endTime * 1000 > nowMs`. */
  predicate IsActive(a: Auction, nowMs: int): (r: bool)
    ensures r <==> !a.ended && a.endTime as real > nowMs as real / 1000.0
  {
    !a.ended && a.endTime * 1000 > nowMs
  }

  predicate IsOver(a: Auction, nowMs: int): (r: bool)
    ensures r <==> a.ended || a.endTime as real <= nowMs as real / 1000.0
    ensures r <==> !IsActive(a, nowMs)
  {
    a.ended || a.endTime * 1000 <= nowMs
  }

  /** The status step of `filterAuctions`; any value but `'active'` or `'ended'` keeps all. */
  function StatusFilter(list: seq<Auction>, filter: string, nowMs: int): (r: seq<Auction>)
    ensures filter != "active" && filter != "ended" ==> r == list
    ensures filter == "active" ==> forall a :: a in r <==> a in list && IsActive(a, nowMs)
    ensures filter == "ended" ==> forall a :: a in r <==> a in list && IsOver(a, nowMs)
  {
    if filter == "active" then
      FilterMembers(list, a => IsActive(a, nowMs));
      Filter(list, a => IsActive(a, nowMs))
    else if filter == "ended" then
      FilterMembers(list, a => IsOver(a, nowMs));
      Filter(list, a => IsOver(a, nowMs))
    else list
  }

  /** The `'active'` and `'ended'` views split the list: no auction is in both, and together
      they hold every auction of the list exactly as often as the list does. */
  lemma ActiveEndedPartition(list: seq<Auction>, nowMs: int)
    ensures multiset(StatusFilter(list, "active", nowMs)) + multiset(StatusFilter(list, "ended", nowMs)) == multiset(list)
    ensures forall a :: a in StatusFilter(list, "active", nowMs) ==> a !in StatusFilter(list, "ended", nowMs)
  {
    FilterComplement(list, a => IsActive(a, nowMs), a => IsOver(a, nowMs));
  }

  /** `filterAuctions`: search first, then status. */
  function FilterAuctions(list: seq<Auction>, term: string, filter: string, nowMs: int): (r: seq<Auction>)
    ensures forall a :: a in r <==>
      a in list && (term == "" || Matches(a, term))
      && (filter == "active" ==> IsActive(a, nowMs)) && (filter == "ended" ==> IsOver(a, nowMs))
  {
    StatusFilter(Search(list, term), filter, nowMs)
  }

  /** The sort orders offered by the list. Unknown keys fall back to `'newest'`. */
  datatype SortOrder = Newest | EndingSoon | PriceHigh | PriceLow

  function ParseSort(key: string): (o: SortOrder)
    ensures key == "ending-soon" <==> o == EndingSoon
    ensures key == "price-high" <==> o == PriceHigh
    ensures key == "price-low" <==> o == PriceLow
  {
    if key == "ending-soon" then EndingSoon
    else if key == "price-high" then PriceHigh
    else if key == "price-low" then PriceLow
    else Newest
  }

  /** The number each order ranks an auction by, smallest first. */
  function SortKey(o: SortOrder, a: Auction): int {
    match o
    case Newest => -(a.id as int)
    case EndingSoon => a.endTime
    case PriceHigh => -(a.currentHighestBid as int)
    case PriceLow => a.currentHighestBid
  }

  /** `a` may stand before `b` under the order's comparator (comparator result <= 0). Every
      comparator compares one key, so any two auctions can be put in order. */
  predicate InOrder(o: SortOrder, a: Auction, b: Auction): (r: bool)
    ensures r <==> SortKey(o, a) <= SortKey(o, b)
  {
    match o
    case Newest => b.id - a.id <= 0
    case EndingSoon => a.endTime - b.endTime <= 0
    case PriceHigh => b.currentHighestBid - a.currentHighestBid <= 0
    case PriceLow => a.currentHighestBid - b.currentHighestBid <= 0
  }

  predicate Sorted(o: SortOrder, s: seq<Auction>) {
    forall i, j :: 0 <= i < j < |s| ==> InOrder(o, s[i], s[j])
  }

  /** Places `x` before the first element it may precede. */
  function Insert(o: SortOrder, x: Auction, s: seq<Auction>): (r: seq<Auction>)
    requires Sorted(o, s)
    ensures multiset(r) == multiset(s) + multiset{x}
    ensures Sorted(o, r)
  {
    if s == [] then [x]
    else if InOrder(o, x, s[0]) then
      HeadFirst(o, x, s);
      [x] + s
    else
      var rest := Insert(o, x, s[1..]);
      InsertBehindHead(o, x, s, rest);
      [s[0]] + rest
  }

  /** An element that may precede the head of a sorted list may precede all of it. */
  lemma HeadFirst(o: SortOrder, x: Auction, s: seq<Auction>)
    requires Sorted(o, s) && s != [] && InOrder(o, x, s[0])
    ensures Sorted(o, [x] + s)
  {
    var r := [x] + s;
    forall i, j | 0 <= i < j < |r| ensures InOrder(o, r[i], r[j]) {
      if i == 0 {
        assert r[j] == s[j - 1];
        if j > 1 {
          assert InOrder(o, s[0], s[j - 1]);
        }
      } else {
        assert r[i] == s[i - 1] && r[j] == s[j - 1];
      }
    }
  }

  /** The head of a sorted list stays in front when `x` is inserted behind it. */
  lemma InsertBehindHead(o: SortOrder, x: Auction, s: seq<Auction>, rest: seq<Auction>)
    requires Sorted(o, s) && s != [] && !InOrder(o, x, s[0])
    requires Sorted(o, rest) && multiset(rest) == multiset(s[1..]) + multiset{x}
    ensures Sorted(o, [s[0]] + rest)
    ensures multiset([s[0]] + rest) == multiset(s) + multiset{x}
  {
    assert s == [s[0]] + s[1..];
    var r := [s[0]] + rest;
    forall k | 0 <= k < |rest| ensures InOrder(o, s[0], rest[k]) {
      assert rest[k] in multiset(rest);
      if rest[k] != x {
        assert rest[k] in multiset(s[1..]);
        var m :| 0 <= m < |s[1..]| && s[1..][m] == rest[k];
        assert s[m + 1] == rest[k];
      }
    }
    forall i, j | 0 <= i < j < |r| ensures InOrder(o, r[i], r[j]) {
      if i == 0 {
        assert r[j] == rest[j - 1];
      } else {
        assert r[i] == rest[i - 1] && r[j] == rest[j - 1];
      }
    }
  }

  /** The list ordered by the comparator (insertion sort): a permutation of it, in order. */
  function SortBy(o: SortOrder, s: seq<Auction>): (r: seq<Auction>)
    ensures multiset(r) == multiset(s)
    ensures |r| == |s|
    ensures Sorted(o, r)
  {
    if s == [] then []
    else
      assert s == [s[0]] + s[1..];
      Insert(o, s[0], SortBy(o, s[1..]))
  }

  /** `sortAuctions`: a sorted copy, by the order the key names. */
  function SortAuctions(list: seq<Auction>, key: string): (r: seq<Auction>)
    ensures multiset(r) == multiset(list)
    ensures key == "ending-soon" ==> forall i, j :: 0 <= i < j < |r| ==> r[i].endTime <= r[j].endTime
    ensures key == "price-high" ==> forall i, j :: 0 <= i < j < |r| ==> r[i].currentHighestBid >= r[j].currentHighestBid
    ensures key == "price-low" ==> forall i, j :: 0 <= i < j < |r| ==> r[i].currentHighestBid <= r[j].currentHighestBid
    ensures key !in {"ending-soon", "price-high", "price-low"} ==> forall i, j :: 0 <= i < j < |r| ==> r[i].id >= r[j].id
  {
    SortBy(ParseSort(key), list)
  }

  /** The list the page renders (line 113 of the list component). */
  function Displayed(auctions: seq<Auction>, term: string, filter: string, sort: string, nowMs: int): (r: seq<Auction>)
    ensures multiset(r) == multiset(FilterAuctions(auctions, term, filter, nowMs))
    ensures Sorted(ParseSort(sort), r)
  {
    SortAuctions(FilterAuctions(auctions, term, filter, nowMs), sort)
  }

  /** Everything rendered comes from the snapshot and passes the search and status filter,
      and everything that passes them is rendered. */
  lemma DisplayedExactlyTheFiltered(auctions: seq<Auction>, term: string, filter: string, sort: string, nowMs: int)
    ensures multiset(Displayed(auctions, term, filter, sort, nowMs)) == multiset(FilterAuctions(auctions, term, filter, nowMs))
    ensures forall a :: a in Displayed(auctions, term, filter, sort, nowMs) <==>
      a in auctions && (term == "" || Matches(a, term))
      && (filter == "active" ==> IsActive(a, nowMs)) && (filter == "ended" ==> IsOver(a, nowMs))
  {
    var f := FilterAuctions(auctions, term, filter, nowMs);
    var d := Displayed(auctions, term, filter, sort, nowMs);
    forall a ensures a in d <==> a in f {
      assert a in d <==> a in multiset(d);
    }
  }

  /** Snapshot ids are distinct, so under `'newest'` the rendered ids strictly decrease. */
  lemma NewestStrictlyDescending(auctions: seq<Auction>, term: string, filter: string, nowMs: int)
    requires IdsOrdered(true, auctions)
    ensures IdsOrdered(false, Displayed(auctions, term, filter, "newest", nowMs))
  {
    var f := FilterAuctions(auctions, term, filter, nowMs);
    var d := SortBy(Newest, f);
    assert d == Displayed(auctions, term, filter, "newest", nowMs);
    forall x ensures multiset(d)[x] <= 1 {
      FilterAtMostOnce(auctions, x, term, filter, nowMs);
    }
    forall a, b | a in d && b in d && a.id == b.id ensures a == b {
      assert a in multiset(d) && b in multiset(d);
      DistinctIdsSameAuction(auctions, a, b);
    }
    SortedWithoutRepeatsIsStrict(d);
  }

  lemma SortedWithoutRepeatsIsStrict(d: seq<Auction>)
    requires Sorted(Newest, d)
    requires forall x :: multiset(d)[x] <= 1
    requires forall a, b :: a in d && b in d && a.id == b.id ==> a == b
    ensures IdsOrdered(false, d)
  {
    forall i, j | 0 <= i < j < |d| ensures Before(false, d[i].id, d[j].id) {
      assert InOrder(Newest, d[i], d[j]);
      RepeatCounted(d, i, j);
    }
  }

  lemma RepeatCounted(d: seq<Auction>, i: nat, j: nat)
    requires i < j < |d|
    ensures d[i] == d[j] ==> multiset(d)[d[i]] >= 2
  {
    if d[i] == d[j] {
      var x := d[i];
      assert d == d[..j] + d[j..];
      assert x in d[..j] && x in d[j..];
      assert multiset(d) == multiset(d[..j]) + multiset(d[j..]);
    }
  }

  /** Two auctions of a list with strictly increasing ids that share an id are the same. */
  lemma DistinctIdsSameAuction(auctions: seq<Auction>, a: Auction, b: Auction)
    requires IdsOrdered(true, auctions)
    requires a in auctions && b in auctions && a.id == b.id
    ensures a == b
  {
    var i :| 0 <= i < |auctions| && auctions[i] == a;
    var j :| 0 <= j < |auctions| && auctions[j] == b;
    assert Before(true, auctions[i].id, auctions[j].id) || i >= j;
    assert Before(true, auctions[j].id, auctions[i].id) || j >= i;
  }

  /** In a list with strictly increasing ids each auction occurs once, and filtering keeps that. */
  lemma FilterAtMostOnce(auctions: seq<Auction>, a: Auction, term: string, filter: string, nowMs: int)
    requires IdsOrdered(true, auctions)
    ensures multiset(FilterAuctions(auctions, term, filter, nowMs))[a] <= 1
  {
    OrderedOnce(auctions, a);
    var s := Search(auctions, term);
    FilterCountBound(auctions, a => Matches(a, term), a);
    FilterCountBound(s, a => IsActive(a, nowMs), a);
    FilterCountBound(s, a => IsOver(a, nowMs), a);
  }

  lemma {:induction false} OrderedOnce(auctions: seq<Auction>, a: Auction)
    requires IdsOrdered(true, auctions)
    ensures multiset(auctions)[a] <= 1
  {
    if auctions != [] {
      var rest := auctions[1..];
      assert auctions == [auctions[0]] + rest;
      assert IdsOrdered(true, rest) by {
        forall i, j | 0 <= i < j < |rest| ensures Before(true, rest[i].id, rest[j].id) {
          assert rest[i] == auctions[i + 1] && rest[j] == auctions[j + 1];
        }
      }
      OrderedOnce(rest, a);
      if auctions[0] == a {
        forall k | 0 <= k < |rest| ensures rest[k] != a {
          assert Before(true, auctions[0].id, auctions[k + 1].id);
        }
      }
    }
  }

  lemma {:induction false} FilterCountBound(s: seq<Auction>, p: Auction -> bool, a: Auction)
    ensures multiset(Filter(s, p))[a] <= multiset(s)[a]
  {
    if s != [] {
      FilterCountBound(s[1..], p, a);
      assert s == [s[0]] + s[1..];
    }
  }
}
