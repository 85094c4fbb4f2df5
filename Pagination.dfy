/** The page arithmetic of GET `/all-halls` (routes/listAllHalls.js, nine
    halls a page) and GET `/my-halls` (backend/routes/allHalls.js, three of
    the caller's halls a page). The collection is a sequence in the order the
    store returns it without a sort. */
module Pagination {
  import opened Common

  const AllHallsLimit: nat := 9
  const MyHallsLimit: nat := 3

  /** `parseInt(req.query.page) || 1`: a missing or non-numeric value
      (`NaN`) and `0` fall back to 1; a negative number is kept. */
  function PageNumber(parsed: Option<int>): (page: int)
    ensures page != 0
    ensures parsed.Some? && parsed.value != 0 ==> page == parsed.value
    ensures parsed.None? || parsed.value == 0 ==> page == 1
  {
    if parsed.None? || parsed.value == 0 then 1 else parsed.value
  }

  /** `(page - 1) * limit`, the number of items skipped. */
  function Skip(page: int, limit: nat): int
  {
    (page - 1) * limit
  }

  datatype PageAnswer<T> =
    | PageOk(items: seq<T>, totalItems: nat, currentPage: int, totalPages: nat)
    | NoneFound
    | SkipRejected

  function StatusCode<T>(a: PageAnswer<T>): int
  {
    match a
    case PageOk(_, _, _, _) => 200
    case NoneFound => 404
    case SkipRejected => 500
  }

  /** `find().skip((page - 1) * limit).limit(limit)`, the count, and the 404
      for an empty page. A negative skip is refused by the store, which ends
      in the 500 branch. */
  function Paginate<T>(all: seq<T>, parsed: Option<int>, limit: nat): (a: PageAnswer<T>)
    requires limit > 0
    ensures PageNumber(parsed) < 0 <==> a == SkipRejected
    ensures a.PageOk? ==> a.totalItems == |all| && a.currentPage == PageNumber(parsed)
                          && a.totalPages == CeilDiv(|all|, limit)
    ensures a.PageOk? ==> 0 < |a.items| <= limit
    ensures a.PageOk? ==> 0 <= Skip(a.currentPage, limit) < Skip(a.currentPage, limit) + |a.items| <= |all|
                          && a.items == all[Skip(a.currentPage, limit) .. Skip(a.currentPage, limit) + |a.items|]
  {
    var page := PageNumber(parsed);
    var start := Skip(page, limit);
    ProductSign(page - 1, limit);
    if start < 0 then SkipRejected
    else if start >= |all| then NoneFound
    else
      var stop := if start + limit <= |all| then start + limit else |all|;
      PageOk(all[start..stop], |all|, page, CeilDiv(|all|, limit))
  }

  /** A page is found exactly when its number lies between 1 and the
      reported number of pages; in particular a page past the end answers
      404 although the collection is not empty. */
  lemma {:induction false} PageFoundIffInRange<T>(all: seq<T>, parsed: Option<int>, limit: nat)
    requires limit > 0
    ensures Paginate(all, parsed, limit).PageOk?
            <==> 1 <= PageNumber(parsed) <= CeilDiv(|all|, limit)
    ensures Paginate(all, parsed, limit) == NoneFound
            <==> PageNumber(parsed) > CeilDiv(|all|, limit)
  {
    var page := PageNumber(parsed);
    var pages := CeilDiv(|all|, limit);
    if page >= 1 {
      if page <= pages {
        LessMultiplies(page - 1, pages - 1, limit);
        assert (page - 1) * limit <= (pages - 1) * limit < |all|;
      } else {
        LessMultiplies(pages, page - 1, limit);
        assert |all| <= pages * limit <= (page - 1) * limit;
      }
    }
  }

  lemma ProductSign(x: int, y: nat)
    requires y > 0
    ensures x < 0 <==> x * y < 0
  {
  }

  lemma LessMultiplies(a: nat, b: nat, c: nat)
    requires a <= b
    ensures a * c <= b * c
  {
  }

  /** The items of pages 1 to `p`, one page after the other. */
  function PagesUpTo<T>(all: seq<T>, limit: nat, p: nat): seq<T>
    requires limit > 0
  {
    if p == 0 then []
    else
      var a := Paginate(all, Some(p), limit);
      PagesUpTo(all, limit, p - 1) + (if a.PageOk? then a.items else [])
  }

  /** Walking the pages from 1 to the reported number of pages lists every
      item exactly once, in order. */
  lemma {:induction false} PagesCoverCollection<T>(all: seq<T>, limit: nat)
    requires limit > 0
    ensures PagesUpTo(all, limit, CeilDiv(|all|, limit)) == all
  {
    var pages := CeilDiv(|all|, limit);
    PagesUpToPrefix(all, limit, pages);
    assert pages * limit >= |all|;
    assert all[..|all|] == all;
  }

  lemma {:induction false} PagesUpToPrefix<T>(all: seq<T>, limit: nat, p: nat)
    requires limit > 0
    ensures p * limit <= |all| ==> PagesUpTo(all, limit, p) == all[..p * limit]
    ensures p * limit > |all| && p <= CeilDiv(|all|, limit) ==> PagesUpTo(all, limit, p) == all
  {
    if p > 0 {
      PagesUpToPrefix(all, limit, p - 1);
      var start := (p - 1) * limit;
      assert start == p * limit - limit;
      var a := Paginate(all, Some(p), limit);
      PageFoundIffInRange(all, Some(p), limit);
      if p * limit <= |all| {
        assert a.PageOk? && a.items == all[start..p * limit];
        assert all[..p * limit] == all[..start] + all[start..p * limit];
      } else if p <= CeilDiv(|all|, limit) {
        assert start < |all|;
        assert a.PageOk? && a.items == all[start..];
        assert all == all[..start] + all[start..];
      }
    }
  }

  /** GET `/all-halls`. */
  function AllHalls<T>(halls: seq<T>, parsed: Option<int>): (a: PageAnswer<T>)
    ensures a == Paginate(halls, parsed, AllHallsLimit)
    ensures a.PageOk? ==> |a.items| <= 9 && a.totalPages == CeilDiv(|halls|, 9)
  {
    Paginate(halls, parsed, AllHallsLimit)
  }

  /** A hall as the listing sees it: its identifier and its owner. */
  datatype HallEntry = HallEntry(id: string, owner: string)

  /** `Hall.find({ owner: ownerId })`, in store order. */
  function OwnedBy(halls: seq<HallEntry>, ownerId: string): (r: seq<HallEntry>)
    ensures forall k :: 0 <= k < |r| ==> r[k].owner == ownerId
    ensures forall h :: multiset(r)[h] == (if h.owner == ownerId then multiset(halls)[h] else 0)
  {
    if halls == [] then []
    else
      assert halls == [halls[0]] + halls[1..];
      var rest := OwnedBy(halls[1..], ownerId);
      if halls[0].owner == ownerId then [halls[0]] + rest else rest
  }

  /** GET `/my-halls` for the owner `ownerId`: the pages of the caller's halls
      only, three a page, and the count of the caller's halls. */
  function MyHalls(halls: seq<HallEntry>, ownerId: string, parsed: Option<int>): (a: PageAnswer<HallEntry>)
    ensures a == Paginate(OwnedBy(halls, ownerId), parsed, MyHallsLimit)
    ensures a.PageOk? ==> |a.items| <= 3 && forall k :: 0 <= k < |a.items| ==> a.items[k].owner == ownerId
    ensures a.PageOk? ==> a.totalItems == |OwnedBy(halls, ownerId)|
                          && a.totalPages == CeilDiv(|OwnedBy(halls, ownerId)|, 3)
  {
    var mine := OwnedBy(halls, ownerId);
    var a := Paginate(mine, parsed, MyHallsLimit);
    if a.PageOk? then
      assert forall k :: 0 <= k < |a.items| ==> a.items[k] == mine[(a.currentPage - 1) * 3 + k];
      a
    else a
  }
}
