/** The artifact registry's paged listing. Artifacts come and go between the
    requests of one walk through the pages; a page resumes after the last item of
    the page before it. */
module ArtifactListing {
  import opened Options

  /** What orders a listing. Session and artifact ids are fixed-length hexadecimal
      strings, so comparing them is comparing numbers. */
  datatype Item = Item(createdAt: int, session: nat, id: nat)

  const MAXIMUM_LIMIT := 100

  /** Newest first, then by descending session and artifact id. */
  predicate Before(a: Item, b: Item) {
    if a.createdAt != b.createdAt then a.createdAt > b.createdAt
    else if a.session != b.session then a.session > b.session
    else a.id > b.id
  }

  predicate Distinct(items: seq<Item>) {
    forall i, j :: 0 <= i < j < |items| ==> items[i] != items[j]
  }

  predicate Ordered(items: seq<Item>) {
    forall i, j :: 0 <= i < j < |items| ==> Before(items[i], items[j])
  }

  /** Creation times do not increase; ties go by descending session, then by descending
      id, and no item comes twice. */
  predicate Descending(items: seq<Item>) {
    forall i, j :: 0 <= i < j < |items| ==>
      || items[i].createdAt > items[j].createdAt
      || (items[i].createdAt == items[j].createdAt && items[i].session > items[j].session)
      || (items[i].createdAt == items[j].createdAt && items[i].session == items[j].session && items[i].id > items[j].id)
  }

  function Insert(x: Item, items: seq<Item>): seq<Item> {
    if items == [] || Before(x, items[0]) then [x] + items else [items[0]] + Insert(x, items[1..])
  }

  function Sorted(items: seq<Item>): seq<Item> {
    if items == [] then [] else Insert(items[0], Sorted(items[1..]))
  }

  lemma {:induction false} InsertFacts(x: Item, items: seq<Item>)
    requires Ordered(items) && x !in items
    ensures Ordered(Insert(x, items)) && |Insert(x, items)| == |items| + 1
    ensures forall y :: y in Insert(x, items) <==> y == x || y in items
  {
    if items == [] {
    } else if Before(x, items[0]) {
    } else {
      InsertFacts(x, items[1..]);
      var rest := Insert(x, items[1..]);
      forall j | 0 <= j < |rest| ensures Before(items[0], rest[j]) {
        assert rest[j] in rest;
      }
      assert forall y :: y in items <==> y == items[0] || y in items[1..];
    }
  }

  /** The order is strict and total, so sorting loses and repeats nothing. */
  lemma {:induction false} SortedFacts(items: seq<Item>)
    requires Distinct(items)
    ensures Ordered(Sorted(items)) && |Sorted(items)| == |items|
    ensures forall x :: x in Sorted(items) <==> x in items
  {
    if items == [] {
    } else {
      SortedFacts(items[1..]);
      InsertFacts(items[0], Sorted(items[1..]));
      assert forall x :: x in items <==> x == items[0] || x in items[1..];
    }
  }

  predicate Beyond(cursor: Option<Item>, x: Item) {
    cursor.Some? ==> Before(cursor.value, x)
  }

  /** What a walk standing at `cursor` has not seen of a listing. */
  function Rest(listing: seq<Item>, cursor: Option<Item>): seq<Item> {
    if listing == [] then []
    else if Beyond(cursor, listing[0]) then [listing[0]] + Rest(listing[1..], cursor)
    else Rest(listing[1..], cursor)
  }

  lemma {:induction false} RestFacts(listing: seq<Item>, cursor: Option<Item>)
    requires Ordered(listing)
    ensures Ordered(Rest(listing, cursor))
    ensures forall x :: x in Rest(listing, cursor) <==> x in listing && Beyond(cursor, x)
  {
    if listing == [] {
    } else {
      var tail := listing[1..];
      RestFacts(tail, cursor);
      assert forall x :: x in listing <==> x == listing[0] || x in tail;
      var rest := Rest(tail, cursor);
      forall j | 0 <= j < |rest| ensures Before(listing[0], rest[j]) {
        assert rest[j] in tail;
      }
    }
  }

  /** After a cursor found at position `p - 1`, the rest is the suffix from `p`. */
  lemma {:induction false} RestIsSuffix(listing: seq<Item>, cursor: Option<Item>, p: nat)
    requires Ordered(listing) && p <= |listing|
    requires if p == 0 then cursor == None else cursor == Some(listing[p - 1])
    ensures Rest(listing, cursor) == listing[p..]
  {
    if p == 0 {
      RestOfNone(listing);
    } else {
      SuffixBeyond(listing, listing[p - 1], p);
    }
  }

  lemma {:induction false} RestOfNone(listing: seq<Item>)
    ensures Rest(listing, None) == listing
  {
    if listing == [] {
    } else {
      RestOfNone(listing[1..]);
    }
  }

  lemma {:induction false} SuffixBeyond(listing: seq<Item>, x: Item, p: nat)
    requires Ordered(listing) && p <= |listing|
    requires forall i :: 0 <= i < |listing| ==> (Before(x, listing[i]) <==> p <= i)
    ensures Rest(listing, Some(x)) == listing[p..]
  {
    if listing == [] {
    } else if p == 0 {
      SuffixBeyond(listing[1..], x, 0);
      assert listing == [listing[0]] + listing[1..];
    } else {
      SuffixBeyond(listing[1..], x, p - 1);
      assert listing[1..][p - 1..] == listing[p..];
    }
  }

  datatype Page = Page(items: seq<Item>, next: Option<Item>)

  function Cut(rest: seq<Item>, limit: nat): Page
    requires limit > 0
  {
    if |rest| <= limit then Page(rest, None) else Page(rest[..limit], Some(rest[limit - 1]))
  }

  /** The answer to one request; none if it is refused. */
  function PageOf(items: seq<Item>, cursor: Option<Item>, limit: int): Option<Page> {
    if limit < 1 || limit > MAXIMUM_LIMIT || (cursor.Some? && cursor.value !in items) then None
    else Some(Cut(Rest(Sorted(items), cursor), limit))
  }

  function Min(a: int, b: int): int {
    if a < b then a else b
  }

  /** What a page starting at position `p` holds, and the cursor after it. */
  function Slice(all: seq<Item>, p: nat, limit: nat): Page
    requires p <= |all| && limit > 0
  {
    Page(all[p..Min(|all|, p + limit)], if p + limit < |all| then Some(all[p + limit - 1]) else None)
  }

  lemma SliceJoins(all: seq<Item>, p: nat, limit: nat)
    requires p <= |all| && limit > 0
    ensures Slice(all, p, limit).items + (if p + limit < |all| then all[p + limit..] else []) == all[p..]
  {
  }

  lemma CutAt(all: seq<Item>, p: nat, limit: nat)
    requires p <= |all| && limit > 0
    ensures Cut(all[p..], limit) == Slice(all, p, limit)
  {
    if p + limit < |all| {
      assert all[p..][..limit] == all[p..p + limit];
    } else {
      assert all[p..] == all[p..|all|];
    }
  }

  /** A page after position `p - 1` is the next `limit` items, and the last of them
      is the next cursor unless the listing ends there. */
  lemma PageAt(items: seq<Item>, all: seq<Item>, cursor: Option<Item>, limit: nat, p: nat)
    requires Distinct(items) && all == Sorted(items) && 1 <= limit <= MAXIMUM_LIMIT && p <= |all|
    requires if p == 0 then cursor == None else cursor == Some(all[p - 1])
    ensures PageOf(items, cursor, limit) == Some(Slice(all, p, limit))
  {
    SortedFacts(items);
    if p > 0 {
      assert all[p - 1] in all;
    }
    RestIsSuffix(all, cursor, p);
    CutAt(all, p, limit);
  }

  lemma PageDescends(items: seq<Item>, cursor: Option<Item>, limit: int)
    requires Distinct(items)
    ensures
      var page := PageOf(items, cursor, limit);
      && (page.None? <==> limit < 1 || limit > 100 || (cursor.Some? && cursor.value !in items))
      && (page.Some? ==> Descending(page.value.items) && |page.value.items| <= limit)
      && (page.Some? ==> forall x :: x in page.value.items ==> x in items)
  {
    if PageOf(items, cursor, limit).Some? {
      PageFacts(items, cursor, limit);
    }
  }

  /** One request: sorts, finds the cursor, and slices. */
  method List(items: seq<Item>, cursor: Option<Item>, limit: int) returns (page: Option<Page>)
    requires Distinct(items)
    ensures page == PageOf(items, cursor, limit)
    ensures page.None? <==> limit < 1 || limit > 100 || (cursor.Some? && cursor.value !in items)
    ensures page.Some? ==> Descending(page.value.items) && |page.value.items| <= limit
    ensures page.Some? ==> forall x :: x in page.value.items ==> x in items
  {
    PageDescends(items, cursor, limit);
    if limit < 1 || limit > MAXIMUM_LIMIT {
      return None;
    }
    SortedFacts(items);
    var filtered := Sorted(items);
    var start := 0;
    if cursor.Some? {
      start := -1;
      var index := 0;
      while index < |filtered|
        invariant 0 <= index <= |filtered|
        invariant start == -1 && cursor.value !in filtered[..index]
      {
        if filtered[index] == cursor.value {
          start := index + 1;
          break;
        }
        index := index + 1;
      }
      if start < 0 {
        assert filtered == filtered[..|filtered|];
        return None;
      }
      assert cursor.value in filtered;
    }
    PageAt(items, filtered, cursor, limit, start);
    var end := Min(|filtered|, start + limit);
    var shown := filtered[start..end];
    var next := None;
    if end < |filtered| && |shown| > 0 {
      next := Some(shown[|shown| - 1]);
    }
    return Some(Page(shown, next));
  }

  /** How a walk through the pages ends: on a last page, on a refused request, or
      not yet when there are no more requests. */
  datatype Ending = Finished | Refused | Unfinished

  datatype Walked = Walked(items: seq<Item>, requests: nat, ending: Ending)

  /** A walk whose requests find the artifacts of `views`, one after the other. */
  function Walk(views: seq<seq<Item>>, cursor: Option<Item>, limit: int): Walked {
    if views == [] then Walked([], 0, Unfinished)
    else match PageOf(views[0], cursor, limit)
      case None => Walked([], 1, Refused)
      case Some(page) =>
        if page.next.None? then Walked(page.items, 1, Finished)
        else
          var more := Walk(views[1..], page.next, limit);
          Walked(page.items + more.items, 1 + more.requests, more.ending)
  }

  predicate AllDistinct(views: seq<seq<Item>>) {
    forall i :: 0 <= i < |views| ==> Distinct(views[i])
  }

  lemma PageFacts(items: seq<Item>, cursor: Option<Item>, limit: int)
    requires Distinct(items) && PageOf(items, cursor, limit).Some?
    ensures
      var page := PageOf(items, cursor, limit).value;
      && Ordered(page.items)
      && (forall x :: x in page.items ==> x in items && Beyond(cursor, x))
      && (page.next.Some? ==> |page.items| > 0 && page.next.value == page.items[|page.items| - 1])
      && (forall x :: x in items && Beyond(cursor, x) && x !in page.items ==>
        page.next.Some? && Before(page.next.value, x))
  {
    SortedFacts(items);
    var rest := Rest(Sorted(items), cursor);
    RestFacts(Sorted(items), cursor);
    var page := PageOf(items, cursor, limit).value;
    assert page.items <= rest;
    forall x | x in rest && x !in page.items ensures page.next.Some? && Before(page.next.value, x) {
      var i :| 0 <= i < |rest| && rest[i] == x;
      assert forall j :: 0 <= j < |page.items| ==> page.items[j] == rest[j] && page.items[j] in page.items;
    }
  }

  /** Whatever is inserted or removed between the requests, a walk shows its items
      in strictly descending order, so none twice; and one that reaches the last
      page has shown every item that was there at each request. */
  lemma {:induction false} WalkIsComplete(views: seq<seq<Item>>, cursor: Option<Item>, limit: int)
    requires AllDistinct(views)
    ensures
      var walked := Walk(views, cursor, limit);
      && Ordered(walked.items) && Descending(walked.items)
      && (forall x :: x in walked.items ==> Beyond(cursor, x) && exists i :: 0 <= i < |views| && x in views[i])
      && (walked.ending.Finished? ==>
           forall x :: Beyond(cursor, x) && (forall i :: 0 <= i < |views| ==> x in views[i]) ==> x in walked.items)
  {
    if views != [] && PageOf(views[0], cursor, limit).Some? {
      var page := PageOf(views[0], cursor, limit).value;
      PageFacts(views[0], cursor, limit);
      if page.next.Some? {
        var rest := views[1..];
        WalkIsComplete(rest, page.next, limit);
        var more := Walk(rest, page.next, limit);
        OrderedJoin(page.items, more.items);
        forall x | x in more.items ensures Beyond(cursor, x) && exists i :: 0 <= i < |views| && x in views[i] {
          var i :| 0 <= i < |rest| && x in rest[i];
          assert views[i + 1] == rest[i];
          assert page.next.value in page.items;
        }
        forall x | Beyond(cursor, x) && (forall i :: 0 <= i < |views| ==> x in views[i]) && x !in page.items
          ensures more.ending.Finished? ==> x in more.items
        {
          assert Beyond(page.next, x);
          assert forall i :: 0 <= i < |rest| ==> x in rest[i];
        }
      }
    }
  }

  lemma OrderedJoin(a: seq<Item>, b: seq<Item>)
    requires Ordered(a) && Ordered(b) && |a| > 0
    requires forall x :: x in b ==> Before(a[|a| - 1], x)
    ensures Ordered(a + b)
  {
    forall i, j | 0 <= i < j < |a + b| ensures Before((a + b)[i], (a + b)[j]) {
      if i < |a| <= j {
        assert b[j - |a|] in b;
      }
    }
  }

  /** A walk is refused only if the item it stands on has gone. */
  lemma {:induction false} NeverRefusedWithoutRemovals(views: seq<seq<Item>>, cursor: Option<Item>, limit: int)
    requires AllDistinct(views) && 1 <= limit <= MAXIMUM_LIMIT
    requires forall i, j, x :: 0 <= i < j < |views| && x in views[i] ==> x in views[j]
    requires cursor.Some? && |views| > 0 ==> cursor.value in views[0]
    ensures !Walk(views, cursor, limit).ending.Refused?
  {
    if views != [] {
      var page := PageOf(views[0], cursor, limit).value;
      PageFacts(views[0], cursor, limit);
      if page.next.Some? {
        var rest := views[1..];
        assert page.next.value in page.items;
        if rest != [] {
          assert page.next.value in views[1];
        }
        NeverRefusedWithoutRemovals(rest, page.next, limit);
      }
    }
  }

  /** The number of requests a walk needs for `n` items. */
  function Pages(n: nat, limit: nat): (r: nat)
    requires limit > 0
  {
    if n <= limit then 1 else 1 + Pages(n - limit, limit)
  }

  /** It is the quotient rounded up, and one request for an empty listing. */
  lemma {:induction false} PagesIsCeiling(n: nat, limit: nat)
    requires limit > 0
    ensures (Pages(n, limit) - 1) * limit < n || (n == 0 && Pages(n, limit) == 1)
    ensures n <= Pages(n, limit) * limit
  {
    if n > limit {
      PagesIsCeiling(n - limit, limit);
      assert Pages(n, limit) * limit == (Pages(n, limit) - 1) * limit + limit;
      assert (Pages(n, limit) - 1) * limit == (Pages(n - limit, limit) - 1) * limit + limit;
    }
  }

  lemma WalkStep(views: seq<seq<Item>>, cursor: Option<Item>, limit: int, page: Page)
    requires views != [] && PageOf(views[0], cursor, limit) == Some(page)
    ensures Walk(views, cursor, limit) ==
      if page.next.None? then Walked(page.items, 1, Finished)
      else
        var more := Walk(views[1..], page.next, limit);
        Walked(page.items + more.items, 1 + more.requests, more.ending)
  {
  }

  /** When nothing changes, enough requests show the whole listing in order, and
      the walk stops after exactly as many as the items need. */
  lemma {:induction false} QuietWalk(views: seq<seq<Item>>, items: seq<Item>, all: seq<Item>, limit: nat, p: nat,
          cursor: Option<Item>)
    requires Distinct(items) && all == Sorted(items) && 1 <= limit <= MAXIMUM_LIMIT
    requires forall i :: 0 <= i < |views| ==> views[i] == items
    requires p <= |all| && |views| >= Pages(|all| - p, limit)
    requires if p == 0 then cursor == None else cursor == Some(all[p - 1])
    ensures Walk(views, cursor, limit) == Walked(all[p..], Pages(|all| - p, limit), Finished)
  {
    PageAt(items, all, cursor, limit, p);
    var page := Slice(all, p, limit);
    WalkStep(views, cursor, limit, page);
    SliceJoins(all, p, limit);
    if page.next.Some? {
      assert Pages(|all| - p, limit) == 1 + Pages(|all| - (p + limit), limit);
      QuietWalk(views[1..], items, all, limit, p + limit, page.next);
    } else {
      assert Pages(|all| - p, limit) == 1 && page.items == all[p..];
    }
  }
}
