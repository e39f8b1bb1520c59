/** Keyset pagination: `buildCursorPage` of apps/api/src/common/util/cursor.util.ts and the `where` clause
    every list endpoint builds from a cursor.

    A table is the list of the rows that meet the endpoint's filter, newest first, ties by id. `createdAt`
    counts microseconds, as the column does; a cursor carries a JavaScript date, which keeps milliseconds.
  */
module Keyset {
  import opened Numerals
  import opened Options

  datatype Row = Row(id: nat, createdAt: int)

  datatype Cursor = Cursor(ms: int, id: nat)

  datatype Page = Page(items: seq<Row>, nextCursor: Option<Cursor>)

  /** `r` comes after `b` in the order (createdAt desc, id desc). */
  predicate Below(r: Row, b: Row) {
    r.createdAt < b.createdAt || (r.createdAt == b.createdAt && r.id < b.id)
  }

  predicate Ordered(rows: seq<Row>) {
    forall i, j :: 0 <= i < j < |rows| ==> Below(rows[j], rows[i])
  }

  function CursorOf(b: Row): Cursor {
    Cursor(b.createdAt / 1000, b.id)
  }

  /** The `where` clause: rows after the cursor. */
  predicate Past(r: Row, cursor: Option<Cursor>) {
    || cursor.None?
    || r.createdAt < cursor.value.ms * 1000
    || (r.createdAt == cursor.value.ms * 1000 && r.id < cursor.value.id)
  }

  function Select(rows: seq<Row>, cursor: Option<Cursor>): seq<Row> {
    if rows == [] then []
    else (if Past(rows[0], cursor) then [rows[0]] else []) + Select(rows[1..], cursor)
  }

  function FindMany(rows: seq<Row>, cursor: Option<Cursor>, take: nat): seq<Row> {
    var selected := Select(rows, cursor);
    if |selected| <= take then selected else selected[..take]
  }

  /** The caller asks for one row more than the page holds. */
  function BuildCursorPage(rows: seq<Row>, limit: nat): Page
    requires limit >= 1
  {
    if |rows| <= limit then Page(rows, None)
    else Page(rows[..limit], Some(CursorOf(rows[limit - 1])))
  }

  function List(rows: seq<Row>, cursor: Option<Cursor>, limit: nat): Page
    requires limit >= 1
  {
    BuildCursorPage(FindMany(rows, cursor, limit + 1), limit)
  }

  // ----- one page ---------------------------------------------------------------------------

  /** How many rows at the top of the table are not past the cursor. */
  function From(rows: seq<Row>, cursor: Option<Cursor>): (p: nat)
    ensures p <= |rows|
  {
    if rows == [] || Past(rows[0], cursor) then 0 else 1 + From(rows[1..], cursor)
  }

  lemma {:induction false} SelectAll(rows: seq<Row>, cursor: Option<Cursor>)
    requires forall i :: 0 <= i < |rows| ==> Past(rows[i], cursor)
    ensures Select(rows, cursor) == rows
    decreases |rows|
  {
    if rows != [] {
      SelectAll(rows[1..], cursor);
    }
  }

  /** What a cursor selects is a tail of the table. */
  lemma {:induction false} SelectIsTail(rows: seq<Row>, cursor: Option<Cursor>)
    requires Ordered(rows)
    ensures Select(rows, cursor) == rows[From(rows, cursor)..]
    ensures forall i :: 0 <= i < |rows| ==> (Past(rows[i], cursor) <==> From(rows, cursor) <= i)
    decreases |rows|
  {
    if rows != [] {
      if Past(rows[0], cursor) {
        assert forall i :: 0 < i < |rows| ==> Below(rows[i], rows[0]);
        SelectAll(rows, cursor);
      } else {
        SelectIsTail(rows[1..], cursor);
        assert forall i :: 0 < i < |rows| ==> rows[i] == rows[1..][i - 1];
      }
    }
  }

  /** A row that the cursor taken from `b` misses although it comes after `b`. */
  predicate Lost(b: Row, r: Row) {
    Below(r, b) && !Past(r, Some(CursorOf(b)))
  }

  /** Only rows of the same millisecond are missed; none if the page ends on a full millisecond. */
  lemma LostMeans(b: Row, r: Row)
    ensures Lost(b, r) <==>
      Below(r, b) && r.createdAt / 1000 == b.createdAt / 1000 && (r.createdAt % 1000 != 0 || r.id >= b.id)
    ensures b.createdAt % 1000 == 0 ==> !Lost(b, r)
  {
  }

  /** A cursor never goes back: it selects only rows after the last one returned. */
  lemma PastIsBelow(b: Row, r: Row)
    requires Past(r, Some(CursorOf(b)))
    ensures Below(r, b)
  {
  }

  /** The next page starts after the last row of this one, and right after it unless that row is missed. */
  lemma NextStart(rows: seq<Row>, i: nat)
    requires Ordered(rows) && 0 < i < |rows|
    ensures var q := From(rows, Some(CursorOf(rows[i - 1])));
      i <= q && (q == i <==> !Lost(rows[i - 1], rows[i]))
  {
    var cursor := Some(CursorOf(rows[i - 1]));
    SelectIsTail(rows, cursor);
    assert !Past(rows[i - 1], cursor);
    assert Below(rows[i], rows[i - 1]);
  }

  /** Asking for one row more than the page holds is enough to build it. */
  lemma PageOfSelection(selected: seq<Row>, limit: nat)
    requires limit >= 1
    ensures BuildCursorPage(if |selected| <= limit + 1 then selected else selected[..limit + 1], limit)
         == if |selected| <= limit then Page(selected, None)
            else Page(selected[..limit], Some(CursorOf(selected[limit - 1])))
  {
    if |selected| > limit + 1 {
      assert selected[..limit + 1][..limit] == selected[..limit];
    }
  }

  /** One request returns the next `limit` rows from the start, and a cursor exactly if there are more. */
  lemma ListIsSlice(rows: seq<Row>, cursor: Option<Cursor>, limit: nat)
    requires Ordered(rows) && limit >= 1
    ensures var p := From(rows, cursor);
      List(rows, cursor, limit)
      == if |rows| - p <= limit then Page(rows[p..], None)
         else Page(rows[p..p + limit], Some(CursorOf(rows[p + limit - 1])))
  {
    SelectIsTail(rows, cursor);
    var p := From(rows, cursor);
    PageOfSelection(rows[p..], limit);
    assert |rows| - p > limit ==> rows[p..][..limit] == rows[p..p + limit];
  }

  // ----- following the cursors over a table that does not change ---------------------------------

  /** The rows a client has been given in the end, and the number of requests it took. */
  datatype Harvest = Harvest(rows: seq<Row>, requests: nat)

  function Then(page: seq<Row>, rest: Harvest): Harvest {
    Harvest(page + rest.rows, 1 + rest.requests)
  }

  function Walk(rows: seq<Row>, cursor: Option<Cursor>, limit: nat): Harvest
    requires Ordered(rows) && limit >= 1
    decreases |rows| - From(rows, cursor)
  {
    var page := List(rows, cursor, limit);
    if page.nextCursor.None? then Harvest(page.items, 1)
    else
      ListIsSlice(rows, cursor, limit);
      NextStart(rows, From(rows, cursor) + limit);
      Then(page.items, Walk(rows, page.nextCursor, limit))
  }

  /** Where the page starts that follows a page ending just before `i`. */
  function StartAfter(rows: seq<Row>, i: nat): nat
    requires i < |rows|
  {
    if i == 0 then 0 else From(rows, Some(CursorOf(rows[i - 1])))
  }

  /** Pages never start before the end of the page before. */
  predicate Forward(next: seq<nat>) {
    forall i :: 0 <= i < |next| ==> i <= next[i] <= |next|
  }

  function Starts(rows: seq<Row>): (next: seq<nat>)
    ensures |next| == |rows|
    ensures forall i :: 0 <= i < |rows| ==> next[i] == StartAfter(rows, i)
  {
    seq(|rows|, i requires 0 <= i < |rows| => StartAfter(rows, i))
  }

  /** Row `i` is not missed by the cursor taken from the row before it. */
  predicate KeptAt(rows: seq<Row>, i: nat) {
    0 < i < |rows| ==> !Lost(rows[i - 1], rows[i])
  }

  lemma StartsForward(rows: seq<Row>)
    requires Ordered(rows)
    ensures Forward(Starts(rows))
    ensures forall i :: 0 < i < |rows| ==> (Starts(rows)[i] == i <==> KeptAt(rows, i))
  {
    forall i | 0 < i < |rows|
      ensures i <= Starts(rows)[i] <= |rows|
      ensures Starts(rows)[i] == i <==> KeptAt(rows, i)
    {
      NextStart(rows, i);
    }
  }

  /** What pages of `limit` rows from position `p` on give, when the next starts at `next[p + limit]`. */
  function Reached(rows: seq<Row>, next: seq<nat>, p: nat, limit: nat): (reached: Harvest)
    requires |next| == |rows| && Forward(next) && limit >= 1 && p <= |rows|
    ensures |reached.rows| <= |rows| - p
    decreases |rows| - p
  {
    if |rows| - p <= limit then Harvest(rows[p..], 1)
    else Then(rows[p..p + limit], Reached(rows, next, next[p + limit], limit))
  }

  lemma WalkEnds(rows: seq<Row>, cursor: Option<Cursor>, limit: nat)
    requires Ordered(rows) && limit >= 1 && |rows| - From(rows, cursor) <= limit
    ensures Walk(rows, cursor, limit) == Harvest(rows[From(rows, cursor)..], 1)
  {
    ListIsSlice(rows, cursor, limit);
  }

  lemma WalkGoesOn(rows: seq<Row>, cursor: Option<Cursor>, limit: nat, p: nat)
    requires Ordered(rows) && limit >= 1 && p == From(rows, cursor) && p + limit < |rows|
    ensures Walk(rows, cursor, limit)
         == Then(rows[p..p + limit], Walk(rows, Some(CursorOf(rows[p + limit - 1])), limit))
  {
    ListIsSlice(rows, cursor, limit);
    assert List(rows, cursor, limit) == Page(rows[p..p + limit], Some(CursorOf(rows[p + limit - 1])));
  }

  lemma ReachedGoesOn(rows: seq<Row>, starts: seq<nat>, p: nat, limit: nat)
    requires |starts| == |rows| && Forward(starts) && limit >= 1 && p + limit < |rows|
    ensures Reached(rows, starts, p, limit)
         == Then(rows[p..p + limit], Reached(rows, starts, starts[p + limit], limit))
  {
  }

  lemma {:induction false} WalkReaches(rows: seq<Row>, cursor: Option<Cursor>, limit: nat, p: nat)
    requires Ordered(rows) && limit >= 1 && Forward(Starts(rows)) && p == From(rows, cursor)
    ensures Walk(rows, cursor, limit) == Reached(rows, Starts(rows), p, limit)
    decreases |rows| - p
  {
    if |rows| - p > limit {
      var next, q := Some(CursorOf(rows[p + limit - 1])), StartAfter(rows, p + limit);
      assert q == Starts(rows)[p + limit];
      WalkReaches(rows, next, limit, q);
      calc {
        Walk(rows, cursor, limit);
        { WalkGoesOn(rows, cursor, limit, p); }
        Then(rows[p..p + limit], Walk(rows, next, limit));
        Then(rows[p..p + limit], Reached(rows, Starts(rows), q, limit));
        { ReachedGoesOn(rows, Starts(rows), p, limit); }
        Reached(rows, Starts(rows), p, limit);
      }
    } else {
      WalkEnds(rows, cursor, limit);
    }
  }

  /** No page that starts at `p`, `p + limit`, `p + 2 * limit`, ... makes the next one skip. */
  predicate KeptFrom(next: seq<nat>, p: nat, limit: nat)
    requires limit >= 1
    decreases |next| - p
  {
    p + limit < |next| ==> next[p + limit] == p + limit && KeptFrom(next, p + limit, limit)
  }

  function PageCount(n: nat, limit: nat): nat
    requires limit >= 1
  {
    if n <= limit then 1 else 1 + PageCount(n - limit, limit)
  }

  lemma SameRest<T>(head: seq<T>, x: seq<T>, y: seq<T>)
    ensures head + x == head + y <==> x == y
  {
    assert (head + x)[|head|..] == x && (head + y)[|head|..] == y;
  }

  lemma {:induction false} CompleteFrom(rows: seq<Row>, next: seq<nat>, p: nat, limit: nat)
    requires |next| == |rows| && Forward(next) && limit >= 1 && p <= |rows|
    ensures Reached(rows, next, p, limit).rows == rows[p..] <==> KeptFrom(next, p, limit)
    decreases |rows| - p
  {
    if p + limit < |rows| {
      var q := next[p + limit];
      var rest, tail := Reached(rows, next, q, limit).rows, rows[p + limit..];
      assert rows[p..] == rows[p..p + limit] + tail;
      SameRest(rows[p..p + limit], rest, tail);
      if q == p + limit {
        CompleteFrom(rows, next, q, limit);
      } else {
        assert |rest| < |tail|;
      }
    }
  }

  lemma {:induction false} PagesFrom(rows: seq<Row>, next: seq<nat>, p: nat, limit: nat)
    requires |next| == |rows| && Forward(next) && limit >= 1 && p <= |next| && KeptFrom(next, p, limit)
    ensures Reached(rows, next, p, limit).requests == PageCount(|next| - p, limit)
    decreases |next| - p
  {
    if p + limit < |next| {
      PagesFrom(rows, next, p + limit, limit);
    }
  }

  lemma {:induction false} PageCountIs(n: nat, limit: nat)
    requires limit >= 1
    ensures PageCount(n, limit) == if n == 0 then 1 else (n + limit - 1) / limit
  {
    if n > limit {
      PageCountIs(n - limit, limit);
      Shift(n - 1, limit);
    } else if n > 0 {
      assert (n - 1 + limit) / limit == 1 by {
        QuotientUnique(n - 1 + limit, limit, 1, n - 1);
      }
    }
  }

  lemma Shift(a: nat, m: nat)
    requires m >= 1
    ensures (a + m) / m == a / m + 1 && (a + m) % m == a % m
  {
    assert (a / m + 1) * m == m * (a / m) + m;
    QuotientUnique(a + m, m, a / m + 1, a % m);
  }

  /** Every `limit`-th row of the table is not missed by a cursor taken from the row before it. */
  predicate BoundariesKept(rows: seq<Row>, limit: nat)
    requires limit >= 1
  {
    forall i :: 0 < i < |rows| && i % limit == 0 ==> KeptAt(rows, i)
  }

  lemma {:induction false} KeptFromMeans(next: seq<nat>, p: nat, limit: nat)
    requires limit >= 1 && p % limit == 0
    ensures KeptFrom(next, p, limit) <==> forall i :: p < i < |next| && i % limit == 0 ==> next[i] == i
    decreases |next| - p
  {
    Shift(p, limit);
    forall i | p < i < |next| && i % limit == 0
      ensures p + limit <= i
    {
      if i < p + limit {
        assert p == (p / limit) * limit + 0;
        QuotientUnique(i, limit, p / limit, i - p);
      }
    }
    if p + limit < |next| {
      KeptFromMeans(next, p + limit, limit);
    }
  }

  lemma BoundariesAreStarts(rows: seq<Row>, limit: nat)
    requires Ordered(rows) && limit >= 1
    ensures Forward(Starts(rows))
    ensures BoundariesKept(rows, limit) <==> KeptFrom(Starts(rows), 0, limit)
  {
    QuotientUnique(0, limit, 0, 0);
    StartsForward(rows);
    KeptFromMeans(Starts(rows), 0, limit);
  }

  lemma CompleteFromTop(rows: seq<Row>, next: seq<nat>, limit: nat)
    requires |next| == |rows| && Forward(next) && limit >= 1
    ensures Reached(rows, next, 0, limit).rows == rows <==> KeptFrom(next, 0, limit)
    ensures KeptFrom(next, 0, limit) ==>
      Reached(rows, next, 0, limit).requests == if rows == [] then 1 else (|rows| + limit - 1) / limit
  {
    CompleteFrom(rows, next, 0, limit);
    assert rows[0..] == rows;
    if KeptFrom(next, 0, limit) {
      PagesFrom(rows, next, 0, limit);
      PageCountIs(|rows|, limit);
    }
  }

  /** Following the cursors over an unchanged table returns exactly the table, in order and in
      max(1, ceil(n / limit)) pages, if and only if no page ends just before a row its cursor misses. */
  lemma CompleteIff(rows: seq<Row>, limit: nat)
    requires Ordered(rows) && limit >= 1
    ensures Walk(rows, None, limit).rows == rows <==> BoundariesKept(rows, limit)
    ensures BoundariesKept(rows, limit) ==>
      Walk(rows, None, limit).requests == if rows == [] then 1 else (|rows| + limit - 1) / limit
  {
    BoundariesAreStarts(rows, limit);
    WalkReaches(rows, None, limit, 0);
    CompleteFromTop(rows, Starts(rows), limit);
  }

  predicate FullMilliseconds(rows: seq<Row>) {
    forall i :: 0 <= i < |rows| ==> rows[i].createdAt % 1000 == 0
  }

  /** With timestamps in full milliseconds the walk is complete, whatever the page size. */
  lemma CompleteInMilliseconds(rows: seq<Row>, limit: nat)
    requires Ordered(rows) && limit >= 1 && FullMilliseconds(rows)
    ensures Walk(rows, None, limit).rows == rows
    ensures Walk(rows, None, limit).requests == if rows == [] then 1 else (|rows| + limit - 1) / limit
  {
    forall i | 0 < i < |rows|
      ensures KeptAt(rows, i)
    {
      LostMeans(rows[i - 1], rows[i]);
    }
    CompleteIff(rows, limit);
  }

  /** Two rows created within one millisecond: a page of one returns the first and never the second. */
  lemma SameMillisecondMissed()
    ensures var rows := [Row(2, 1_500_700), Row(1, 1_500_300)];
      Ordered(rows) && Walk(rows, None, 1).rows == [rows[0]]
  {
    var rows := [Row(2, 1_500_700), Row(1, 1_500_300)];
    var next := Some(CursorOf(rows[0]));
    assert !Past(rows[1], next) && !Past(rows[0], next);
    SelectIsTail(rows, next);
    assert From(rows, next) == 2 && From(rows, None) == 0;
    WalkGoesOn(rows, None, 1, 0);
    WalkEnds(rows, next, 1);
    assert rows[0..1] == [rows[0]] && rows[2..] == [];
  }

  // ----- rows come and go between the pages ----------------------------------------------------

  /** The row that the cursor after a page is taken from. */
  function Boundary(page: Page): Row
    requires page.items != []
  {
    page.items[|page.items| - 1]
  }

  /** A page holds rows past its cursor, leaves out only rows after its last one, and has a cursor for those. */
  predicate GoodPage(rows: seq<Row>, cursor: Option<Cursor>, page: Page) {
    && (forall r :: r in page.items ==> r in rows && Past(r, cursor))
    && (page.nextCursor.Some? ==> page.items != [] && page.nextCursor == Some(CursorOf(Boundary(page))))
    && (page.nextCursor.Some? ==> forall r :: r in page.items ==> r == Boundary(page) || Below(Boundary(page), r))
    && (forall r :: r in rows && Past(r, cursor) && r !in page.items ==>
          page.nextCursor.Some? && Below(r, Boundary(page)))
  }

  lemma InSlice<T>(rows: seq<T>, lo: nat, hi: nat, r: T)
    requires lo <= hi <= |rows|
    ensures r in rows[lo..hi] <==> exists i :: lo <= i < hi && rows[i] == r
  {
    if i :| lo <= i < hi && rows[i] == r {
      assert rows[lo..hi][i - lo] == r;
    }
  }

  /** The last page. */
  lemma TailIsGood(rows: seq<Row>, cursor: Option<Cursor>, p: nat)
    requires p <= |rows| && forall i :: 0 <= i < |rows| ==> (Past(rows[i], cursor) <==> p <= i)
    ensures GoodPage(rows, cursor, Page(rows[p..], None))
  {
    assert rows[p..|rows|] == rows[p..];
    forall r
      ensures r in rows[p..] <==> r in rows && Past(r, cursor)
    {
      InSlice(rows, p, |rows|, r);
    }
  }

  /** A page with others to come. */
  lemma SliceIsGood(rows: seq<Row>, cursor: Option<Cursor>, p: nat, q: nat)
    requires Ordered(rows) && p < q < |rows|
    requires forall i :: 0 <= i < |rows| ==> (Past(rows[i], cursor) <==> p <= i)
    ensures GoodPage(rows, cursor, Page(rows[p..q], Some(CursorOf(rows[q - 1]))))
  {
    var page, b := Page(rows[p..q], Some(CursorOf(rows[q - 1]))), rows[q - 1];
    assert page.items[q - 1 - p] == b && Boundary(page) == b;
    forall r
      ensures r in page.items ==> r in rows && Past(r, cursor) && (r == b || Below(b, r))
      ensures r in rows && Past(r, cursor) && r !in page.items ==> Below(r, b)
    {
      InSlice(rows, p, q, r);
      if r in rows {
        var i :| 0 <= i < |rows| && rows[i] == r;
        assert if i < q - 1 then Below(b, r) else i == q - 1 || Below(r, b);
      }
    }
  }

  lemma PageAtIsGood(rows: seq<Row>, cursor: Option<Cursor>, p: nat, page: Page, limit: nat)
    requires Ordered(rows) && limit >= 1 && p <= |rows|
    requires forall i :: 0 <= i < |rows| ==> (Past(rows[i], cursor) <==> p <= i)
    requires page == if |rows| - p <= limit then Page(rows[p..], None)
                     else Page(rows[p..p + limit], Some(CursorOf(rows[p + limit - 1])))
    ensures GoodPage(rows, cursor, page)
  {
    if |rows| - p <= limit {
      TailIsGood(rows, cursor, p);
    } else {
      SliceIsGood(rows, cursor, p, p + limit);
    }
  }

  lemma PageFromIsGood(rows: seq<Row>, cursor: Option<Cursor>, p: nat, page: Page, limit: nat)
    requires Ordered(rows) && limit >= 1 && p == From(rows, cursor)
    requires page == if |rows| - p <= limit then Page(rows[p..], None)
                     else Page(rows[p..p + limit], Some(CursorOf(rows[p + limit - 1])))
    ensures GoodPage(rows, cursor, page)
  {
    SelectIsTail(rows, cursor);
    PageAtIsGood(rows, cursor, p, page, limit);
  }

  lemma ListIsGood(rows: seq<Row>, cursor: Option<Cursor>, limit: nat)
    requires Ordered(rows) && limit >= 1
    ensures GoodPage(rows, cursor, List(rows, cursor, limit))
  {
    ListIsSlice(rows, cursor, limit);
    PageFromIsGood(rows, cursor, From(rows, cursor), List(rows, cursor, limit), limit);
  }

  /** A request, the table it finds, and its answer. */
  datatype Request = Request(rows: seq<Row>, cursor: Option<Cursor>, page: Page)

  /** The cursor of the next request is the one this page came with. */
  predicate Follows(a: Request, b: Request) {
    a.page.nextCursor.Some? && b.cursor == a.page.nextCursor
  }

  predicate Linked(walk: seq<Request>) {
    && walk != [] && walk[0].cursor.None?
    && forall j, k :: 0 <= j && k == j + 1 < |walk| ==> Follows(walk[j], walk[k])
  }

  predicate Finished(walk: seq<Request>) {
    walk != [] && walk[|walk| - 1].page.nextCursor.None?
  }

  /** Each table may differ from the one before in any way. */
  predicate IsWalk(walk: seq<Request>, limit: nat)
    requires limit >= 1
  {
    && Linked(walk)
    && forall k :: 0 <= k < |walk| ==>
         Ordered(walk[k].rows) && walk[k].page == List(walk[k].rows, walk[k].cursor, limit)
  }

  predicate GoodWalk(walk: seq<Request>) {
    && Linked(walk)
    && forall k :: 0 <= k < |walk| ==> GoodPage(walk[k].rows, walk[k].cursor, walk[k].page)
  }

  lemma WalkIsGood(walk: seq<Request>, limit: nat)
    requires limit >= 1 && IsWalk(walk, limit)
    ensures GoodWalk(walk)
  {
    forall k | 0 <= k < |walk|
      ensures GoodPage(walk[k].rows, walk[k].cursor, walk[k].page)
    {
      ListIsGood(walk[k].rows, walk[k].cursor, limit);
    }
  }

  /** From one request back to the one before. */
  lemma OnePageBack(a: Request, b: Request, r: Row)
    requires GoodPage(a.rows, a.cursor, a.page) && Follows(a, b) && Past(r, b.cursor)
    ensures a.page.items != [] && Below(r, Boundary(a.page)) && Past(r, a.cursor)
  {
    PastIsBelow(Boundary(a.page), r);
    assert Boundary(a.page) in a.page.items;
  }

  lemma {:induction false} CursorsOnlyDescend(walk: seq<Request>, j: nat, k: nat, r: Row)
    requires GoodWalk(walk) && j < k < |walk| && Past(r, walk[k].cursor)
    ensures walk[j].page.items != [] && Below(r, Boundary(walk[j].page)) && Past(r, walk[j + 1].cursor)
    decreases k
  {
    OnePageBack(walk[k - 1], walk[k], r);
    if j < k - 1 {
      CursorsOnlyDescend(walk, j, k - 1, r);
    }
  }

  /** Whatever is inserted or deleted between the pages, every row of a later page comes after every row of an
      earlier one; so no row is returned twice. */
  lemma PagesDescend(walk: seq<Request>, limit: nat, j: nat, k: nat, early: Row, late: Row)
    requires limit >= 1 && IsWalk(walk, limit) && j < k < |walk|
    requires early in walk[j].page.items && late in walk[k].page.items
    ensures Below(late, early)
  {
    WalkIsGood(walk, limit);
    GoodPagesDescend(walk, j, k, early, late);
  }

  lemma GoodPagesDescend(walk: seq<Request>, j: nat, k: nat, early: Row, late: Row)
    requires GoodWalk(walk) && j < k < |walk|
    requires early in walk[j].page.items && late in walk[k].page.items
    ensures Below(late, early)
  {
    CursorsOnlyDescend(walk, j, k, late);
    assert Follows(walk[j], walk[j + 1]);
  }

  predicate Returned(walk: seq<Request>, r: Row) {
    exists k :: 0 <= k < |walk| && r in walk[k].page.items
  }

  /** The page ended before `r` with a cursor that misses it. */
  predicate Misses(request: Request, r: Row) {
    request.page.nextCursor.Some? && request.page.items != [] && Lost(Boundary(request.page), r)
  }

  predicate Missed(walk: seq<Request>, r: Row) {
    exists k :: 0 <= k < |walk| && Misses(walk[k], r)
  }

  lemma StillPending(a: Request, b: Request, r: Row)
    requires GoodPage(a.rows, a.cursor, a.page) && Follows(a, b)
    requires r in a.rows && r !in a.page.items && !Misses(a, r) && Past(r, a.cursor)
    ensures Past(r, b.cursor)
  {
  }

  lemma {:induction false} PendingUntil(walk: seq<Request>, r: Row, k: nat)
    requires GoodWalk(walk) && k < |walk|
    requires forall j :: 0 <= j < k ==> r in walk[j].rows && r !in walk[j].page.items && !Misses(walk[j], r)
    ensures Past(r, walk[k].cursor)
    decreases k
  {
    if k > 0 {
      PendingUntil(walk, r, k - 1);
      StillPending(walk[k - 1], walk[k], r);
    }
  }

  lemma ReturnedUnlessMissed(walk: seq<Request>, r: Row)
    requires GoodWalk(walk) && Finished(walk) && forall k :: 0 <= k < |walk| ==> r in walk[k].rows
    ensures Returned(walk, r) || Missed(walk, r)
  {
    var last := |walk| - 1;
    if !Missed(walk, r) && forall k :: 0 <= k < last ==> r !in walk[k].page.items {
      PendingUntil(walk, r, last);
      assert r in walk[last].page.items;
    }
  }

  lemma NotMissedWhenReturned(walk: seq<Request>, r: Row, k: nat, j: nat)
    requires GoodWalk(walk) && k < |walk| && r in walk[k].page.items && j < |walk|
    ensures !Misses(walk[j], r)
  {
    if j < k {
      CursorsOnlyDescend(walk, j, k, r);
      assert Follows(walk[j], walk[j + 1]);
    } else if k < j && walk[j].page.items != [] {
      GoodPagesDescend(walk, k, j, r, Boundary(walk[j].page));
    }
  }

  /** A finished walk returns a row that was there throughout if and only if no page ended before it with a
      cursor that misses it. */
  lemma ReturnedIffNotMissed(walk: seq<Request>, limit: nat, r: Row)
    requires limit >= 1 && IsWalk(walk, limit) && Finished(walk)
    requires forall k :: 0 <= k < |walk| ==> r in walk[k].rows
    ensures Returned(walk, r) <==> !Missed(walk, r)
  {
    WalkIsGood(walk, limit);
    ReturnedUnlessMissed(walk, r);
    if Returned(walk, r) {
      var k :| 0 <= k < |walk| && r in walk[k].page.items;
      forall j | 0 <= j < |walk|
        ensures !Misses(walk[j], r)
      {
        NotMissedWhenReturned(walk, r, k, j);
      }
    }
  }

  lemma NothingMissed(walk: seq<Request>, r: Row)
    requires GoodWalk(walk) && forall k :: 0 <= k < |walk| ==> FullMilliseconds(walk[k].rows)
    ensures !Missed(walk, r)
  {
    forall k | 0 <= k < |walk| && walk[k].page.items != []
      ensures !Misses(walk[k], r)
    {
      var b := Boundary(walk[k].page);
      assert b in walk[k].page.items;
      LostMeans(b, r);
    }
  }

  /** With timestamps in full milliseconds, a finished walk returns every row that was there throughout, and
      returns it once. */
  lemma FinishedWalkIsComplete(walk: seq<Request>, limit: nat, r: Row)
    requires limit >= 1 && IsWalk(walk, limit) && Finished(walk)
    requires forall k :: 0 <= k < |walk| ==> r in walk[k].rows && FullMilliseconds(walk[k].rows)
    ensures Returned(walk, r)
    ensures forall j, k :: 0 <= j < k < |walk| ==> !(r in walk[j].page.items && r in walk[k].page.items)
  {
    WalkIsGood(walk, limit);
    NothingMissed(walk, r);
    ReturnedIffNotMissed(walk, limit, r);
    forall j, k | 0 <= j < k < |walk| && r in walk[j].page.items && r in walk[k].page.items
      ensures false
    {
      PagesDescend(walk, limit, j, k, r, r);
    }
  }
}
