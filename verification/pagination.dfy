/** Listing boards page by page: keyset queries, newest first, whose pages are filtered afterwards. */
module Pagination {
  import opened Wrappers
  import opened BoardTx
  import Cursor
  import ResourceId
  import opened Utf8

  datatype Position = Position(updatedAt: int, id: string)

  datatype Row = Row(key: Position, name: string, status: Status)

  datatype Page = Page(items: seq<Row>, next: Option<Position>)

  const DEFAULT_LIMIT := 50
  const MAX_LIMIT := 100

  // No limit asked for is the default.
  function Normalize(limit: int): Option<nat> {
    var l := if limit == 0 then DEFAULT_LIMIT else limit;
    if 1 <= l <= MAX_LIMIT then Some(l) else None
  }

  // ---------------------------------------------------------------- order

  // Texts compare by their code points.
  predicate TextLess(s: string, t: string) {
    if t == "" then false
    else if s == "" then true
    else s[0] < t[0] || (s[0] == t[0] && TextLess(s[1..], t[1..]))
  }

  predicate Less(p: Position, q: Position) {
    p.updatedAt < q.updatedAt || (p.updatedAt == q.updatedAt && TextLess(p.id, q.id))
  }

  lemma {:induction false} TextLessOrder(s: string, t: string, u: string)
    ensures !TextLess(s, s)
    ensures TextLess(s, t) && TextLess(t, u) ==> TextLess(s, u)
    decreases |s|
  {
    if s != "" {
      TextLessOrder(s[1..], if t == "" then "" else t[1..], if u == "" then "" else u[1..]);
    }
  }

  lemma LessOrder(p: Position, q: Position, r: Position)
    ensures !Less(p, p)
    ensures Less(p, q) && Less(q, r) ==> Less(p, r)
  {
    TextLessOrder(p.id, q.id, r.id);
  }

  // Newest first, no key twice.
  predicate Descending(rows: seq<Row>) {
    forall i, j :: 0 <= i < j < |rows| ==> Less(rows[j].key, rows[i].key)
  }

  predicate Follows(after: Option<Position>, r: Row) {
    after.Some? ==> Less(r.key, after.value)
  }

  // ---------------------------------------------------------------- the query

  // Up to n rows of the table behind a position: the first ones in order.
  ghost predicate Answers(table: set<Row>, after: Option<Position>, n: nat, rows: seq<Row>) {
    && Descending(rows) && |rows| <= n
    && (forall r :: r in rows ==> r in table && Follows(after, r))
    && (forall r :: r in table && Follows(after, r) && r !in rows ==> |rows| == n && forall q :: q in rows ==> Less(r.key, q.key))
  }

  // The whole table in order.
  ghost predicate Lists(order: seq<Row>, table: set<Row>) {
    Descending(order) && forall r :: r in order <==> r in table
  }

  function Behind(order: seq<Row>, after: Option<Position>): seq<Row> {
    if order == [] then []
    else (if Follows(after, order[0]) then [order[0]] else []) + Behind(order[1..], after)
  }

  lemma {:induction false} BehindHas(order: seq<Row>, after: Option<Position>)
    ensures forall r :: r in Behind(order, after) <==> r in order && Follows(after, r)
  {
    if order != [] { BehindHas(order[1..], after); }
  }

  lemma {:induction false} BehindDescends(order: seq<Row>, after: Option<Position>)
    requires Descending(order)
    ensures Descending(Behind(order, after))
  {
    hide Less;
    if order != [] {
      BehindDescends(order[1..], after);
      BehindHas(order[1..], after);
      forall r | r in Behind(order[1..], after) ensures Less(r.key, order[0].key) {
        var i :| 0 < i < |order| && order[i] == r;
      }
    }
  }

  // What answers a query is the beginning of what is behind the position, whoever computes it.
  lemma {:induction false} AnswerIsPrefix(rows: seq<Row>, rest: seq<Row>, n: nat)
    requires Descending(rows) && Descending(rest) && |rows| <= n
    requires forall r :: r in rows ==> r in rest
    requires forall r :: r in rest && r !in rows ==> |rows| == n && forall q :: q in rows ==> Less(r.key, q.key)
    ensures rows <= rest && (|rows| < n ==> rows == rest) && |rows| == if n < |rest| then n else |rest|
    decreases |rows|
  {
    if rows == [] {
      if rest != [] { assert rest[0] in rest && rest[0] !in rows; }
    } else {
      assert rows[0] in rest;
      LessOrder(rest[0].key, rows[0].key, rest[0].key);
      assert rest[0] == rows[0] by { FirstIsFirst(rows, rest, n); }
      TailAnswers(rows, rest, n);
      AnswerIsPrefix(rows[1..], rest[1..], n - 1);
    }
  }

  lemma FirstIsFirst(rows: seq<Row>, rest: seq<Row>, n: nat)
    requires Descending(rows) && Descending(rest) && rows != [] && rows[0] in rest
    requires forall r :: r in rest && r !in rows ==> |rows| == n && forall q :: q in rows ==> Less(r.key, q.key)
    ensures rest != [] && rest[0] == rows[0]
  {
    hide Less;
    var i :| 0 <= i < |rest| && rest[i] == rows[0];
    LessOrder(rest[0].key, rows[0].key, rest[0].key);
    LessOrder(rest[0].key, rest[0].key, rest[0].key);
    assert rest[0] in rest && rows[0] in rows;
  }

  lemma TailAnswers(rows: seq<Row>, rest: seq<Row>, n: nat)
    requires Descending(rows) && Descending(rest) && rows != [] && rest != [] && rows[0] == rest[0]
    requires forall r :: r in rows ==> r in rest
    requires forall r :: r in rest && r !in rows ==> |rows| == n && forall q :: q in rows ==> Less(r.key, q.key)
    ensures forall r :: r in rows[1..] ==> r in rest[1..]
    ensures forall r :: r in rest[1..] && r !in rows[1..] ==> |rows[1..]| == n - 1 && forall q :: q in rows[1..] ==> Less(r.key, q.key)
  {
    hide Less;
    forall r | r in rows[1..] ensures r in rest[1..] {
      var i :| 0 < i < |rows| && rows[i] == r;
      LessOrder(r.key, r.key, r.key);
      assert Less(r.key, rows[0].key) && r != rest[0];
      var j :| 0 <= j < |rest| && rest[j] == r;
      assert rest[1..][j - 1] == r;
    }
    forall r | r in rest[1..] && r !in rows[1..] ensures r in rest && r !in rows {
      var i :| 0 < i < |rest| && rest[i] == r;
      LessOrder(r.key, r.key, r.key);
      assert Less(r.key, rest[0].key);
    }
  }

  // ---------------------------------------------------------------- pages

  function PageOf(order: seq<Row>, after: Option<Position>, limit: nat): Page
    requires limit >= 1
  {
    var rest := Behind(order, after);
    if |rest| > limit then Page(rest[..limit], Some(rest[limit - 1].key)) else Page(rest, None)
  }

  lemma AnswerIsPage(table: set<Row>, order: seq<Row>, after: Option<Position>, n: nat, rows: seq<Row>)
    requires Lists(order, table) && Answers(table, after, n, rows)
    ensures rows <= Behind(order, after) && |rows| == if n < |Behind(order, after)| then n else |Behind(order, after)|
  {
    hide Less, Behind;
    BehindHas(order, after);
    BehindDescends(order, after);
    AnswerIsPrefix(rows, Behind(order, after), n);
  }

  // One row more than the page is asked for, to see whether another page follows; a limit out of range
  // is refused before the query.
  method List(ghost table: set<Row>, ghost order: seq<Row>, after: Option<Position>, limit: int, rows: seq<Row>) returns (page: Option<Page>)
    requires Lists(order, table) && (Normalize(limit).Some? ==> Answers(table, after, Normalize(limit).value + 1, rows))
    ensures page == if limit < 0 || limit > MAX_LIMIT then None else Some(PageOf(order, after, if limit == 0 then DEFAULT_LIMIT else limit))
  {
    hide Lists, Answers, Behind;
    var normal := Normalize(limit);
    if normal == None { return None; }
    AnswerIsPage(table, order, after, normal.value + 1, rows);
    var kept := rows;
    var next := None;
    if |rows| > normal.value {
      kept := rows[..normal.value];
      next := Some(kept[|kept| - 1].key);
    }
    var items := [];
    for i := 0 to |kept|
      invariant items == kept[..i]
    {
      items := items + [kept[i]];
    }
    page := Some(Page(items, next));
    assert page.value == PageOf(order, after, normal.value);
  }

  function ActiveOf(rows: seq<Row>): seq<Row> {
    if rows == [] then []
    else (if rows[0].status == Active then [rows[0]] else []) + ActiveOf(rows[1..])
  }

  // The views of the rows, if all of them can be loaded.
  predicate ViewsOf<V(==)>(rows: seq<Row>, get: string -> Option<V>, views: seq<V>) {
    |views| == |rows| && forall i :: 0 <= i < |rows| ==> get(rows[i].key.id) == Some(views[i])
  }

  // The workflow shows the active boards of a page only, and loads each with its capabilities; one that
  // cannot be loaded fails the whole page.
  method ListActive<V(==)>(page: Page, get: string -> Option<V>) returns (result: Option<seq<V>>, next: Option<Position>)
    ensures match result
      case Some(views) => ViewsOf(ActiveOf(page.items), get, views) && next == page.next
      case None => exists r :: r in ActiveOf(page.items) && get(r.key.id) == None
  {
    var items: seq<V> := [];
    ghost var rows: seq<Row> := [];
    for i := 0 to |page.items|
      invariant rows + ActiveOf(page.items[i..]) == ActiveOf(page.items) && ViewsOf(rows, get, items)
    {
      assert page.items[i..][1..] == page.items[i + 1..];
      if page.items[i].status != Active { continue; }
      var view := get(page.items[i].key.id);
      rows := rows + [page.items[i]];
      if view == None {
        assert page.items[i] == ActiveOf(page.items)[|rows| - 1];
        return None, None;
      }
      items := items + [view.value];
    }
    assert page.items[|page.items|..] == [];
    return Some(items), page.next;
  }

  // ---------------------------------------------------------------- the walk

  lemma {:induction false} BehindSplits(order: seq<Row>, i: nat)
    requires Descending(order) && i < |order|
    ensures Behind(order, Some(order[i].key)) == order[i + 1..]
    decreases |order|
  {
    hide Less;
    LessOrder(order[0].key, order[i].key, order[0].key);
    if i > 0 {
      BehindSplits(order[1..], i - 1);
      assert !Follows(Some(order[i].key), order[0]);
    } else {
      AllBehind(order[1..], order[0].key);
      assert !Follows(Some(order[0].key), order[0]);
    }
  }

  lemma {:induction false} AllBehind(order: seq<Row>, p: Position)
    requires forall i :: 0 <= i < |order| ==> Less(order[i].key, p)
    ensures Behind(order, Some(p)) == order
  {
    hide Less;
    if order != [] { AllBehind(order[1..], p); }
  }

  lemma {:induction false} AllFromStart(order: seq<Row>)
    ensures Behind(order, None) == order
  {
    if order != [] { AllFromStart(order[1..]); }
  }

  // A next position is the key of a row, further back than the one the page was asked for.
  lemma NextIsFurther(order: seq<Row>, after: Option<Position>, limit: nat)
    requires Descending(order) && limit >= 1 && PageOf(order, after, limit).next.Some?
    ensures Behind(order, PageOf(order, after, limit).next) == Behind(order, after)[limit..]
    ensures |Behind(order, after)| > limit
  {
    hide Less;
    var rest := Behind(order, after);
    BehindDescends(order, after);
    BehindKept(order, after, limit);
    BehindSplits(rest, limit - 1);
    BehindTwice(order, after, rest[limit - 1]);
  }

  lemma {:induction false} BehindTwice(order: seq<Row>, after: Option<Position>, r: Row)
    requires Follows(after, r)
    ensures Behind(Behind(order, after), Some(r.key)) == Behind(order, Some(r.key))
  {
    if order != [] {
      BehindTwice(order[1..], after, r);
      if after.Some? { LessOrder(order[0].key, r.key, after.value); }
      BehindAppend(if Follows(after, order[0]) then [order[0]] else [], Behind(order[1..], after), Some(r.key));
    }
  }

  lemma BehindFirst(order: seq<Row>, after: Option<Position>)
    requires order != []
    ensures Behind(order, after) == (if Follows(after, order[0]) then [order[0]] else []) + Behind(order[1..], after)
  {
  }

  lemma Joined<T>(a: seq<T>, b: seq<T>, c: seq<T>)
    ensures a + (b + c) == (a + b) + c
  {
  }

  lemma {:induction false} BehindAppend(a: seq<Row>, b: seq<Row>, after: Option<Position>)
    ensures Behind(a + b, after) == Behind(a, after) + Behind(b, after)
  {
    hide Follows, Behind;
    if a == [] {
      assert a + b == b;
      BehindNothing(after);
    } else {
      assert (a + b)[0] == a[0] && (a + b)[1..] == a[1..] + b;
      BehindFirst(a, after);
      BehindFirst(a + b, after);
      BehindAppend(a[1..], b, after);
      Joined(if Follows(after, a[0]) then [a[0]] else [], Behind(a[1..], after), Behind(b, after));
    }
  }

  lemma BehindNothing(after: Option<Position>)
    ensures Behind([], after) == []
  {
  }

  lemma BehindKept(order: seq<Row>, after: Option<Position>, limit: nat)
    requires limit >= 1 && |Behind(order, after)| > limit
    ensures Follows(after, Behind(order, after)[limit - 1])
  {
    BehindHas(order, after);
    assert Behind(order, after)[limit - 1] in Behind(order, after);
  }

  // Following the next positions from `after` until a page has none.
  function Walk(order: seq<Row>, after: Option<Position>, limit: nat): seq<Page>
    requires Descending(order) && limit >= 1
    decreases |Behind(order, after)|
  {
    var page := PageOf(order, after, limit);
    if page.next == None then [page]
    else
      NextIsFurther(order, after, limit);
      [page] + Walk(order, page.next, limit)
  }

  function Shown(pages: seq<Page>): seq<Row> {
    if pages == [] then [] else ActiveOf(pages[0].items) + Shown(pages[1..])
  }

  lemma ActiveFirst(rows: seq<Row>)
    requires rows != []
    ensures ActiveOf(rows) == (if rows[0].status == Active then [rows[0]] else []) + ActiveOf(rows[1..])
  {
  }

  lemma ActiveNothing()
    ensures ActiveOf([]) == []
  {
  }

  lemma {:induction false} ActiveAppend(a: seq<Row>, b: seq<Row>)
    ensures ActiveOf(a + b) == ActiveOf(a) + ActiveOf(b)
  {
    hide ActiveOf;
    if a == [] {
      assert a + b == b;
      ActiveNothing();
    } else {
      assert (a + b)[0] == a[0] && (a + b)[1..] == a[1..] + b;
      ActiveFirst(a);
      ActiveFirst(a + b);
      ActiveAppend(a[1..], b);
      Joined(if a[0].status == Active then [a[0]] else [], ActiveOf(a[1..]), ActiveOf(b));
    }
  }

  lemma {:induction false} WalkFrom(order: seq<Row>, after: Option<Position>, limit: nat)
    requires Descending(order) && limit >= 1
    ensures Shown(Walk(order, after, limit)) == ActiveOf(Behind(order, after))
    decreases |Behind(order, after)|
  {
    hide Behind, ActiveOf, Descending;
    var page := PageOf(order, after, limit);
    var rest := Behind(order, after);
    if page.next.Some? {
      NextIsFurther(order, after, limit);
      WalkFrom(order, page.next, limit);
      ActiveAppend(rest[..limit], rest[limit..]);
      assert rest[..limit] + rest[limit..] == rest;
      var tail := Walk(order, page.next, limit);
      assert ([page] + tail)[0] == page && ([page] + tail)[1..] == tail;
    } else {
      assert [page][1..] == [];
    }
  }

  lemma {:induction false} WalkCount(order: seq<Row>, after: Option<Position>, limit: nat)
    requires Descending(order) && limit >= 1
    ensures var n := |Behind(order, after)|; limit * (|Walk(order, after, limit)| - 1) <= n <= limit * |Walk(order, after, limit)|
    decreases |Behind(order, after)|
  {
    hide Behind, Descending;
    var page := PageOf(order, after, limit);
    if page.next.Some? {
      NextIsFurther(order, after, limit);
      WalkCount(order, page.next, limit);
      var n := |Walk(order, page.next, limit)|;
      assert limit * n + limit == limit * (n + 1) && limit * (n - 1) + limit == limit * n;
    }
  }

  // On a table that does not change, for every page size, the pages shown are together exactly the
  // active boards, each once and in order; the walk ends after as many pages as the rows need.
  lemma WalkShowsEveryBoard(table: set<Row>, order: seq<Row>, limit: nat)
    requires Lists(order, table) && 1 <= limit <= MAX_LIMIT
    ensures Shown(Walk(order, None, limit)) == ActiveOf(order)
    ensures limit * (|Walk(order, None, limit)| - 1) <= |order| <= limit * |Walk(order, None, limit)|
  {
    AllFromStart(order);
    WalkFrom(order, None, limit);
    WalkCount(order, None, limit);
  }

  // A page of which nothing is shown, although a later one has boards to show.
  predicate Misleads(order: seq<Row>, limit: nat) {
    limit >= 1 && ActiveOf(PageOf(order, None, limit).items) == [] && PageOf(order, None, limit).next.Some? && ActiveOf(order) != []
  }

  // So an empty page is not the last one, and only a missing next position ends a listing.
  lemma EmptyPageIsNotTheLast()
    ensures exists order :: Descending(order) && Misleads(order, 1)
  {
    var newer, older := Row(Position(2, "b"), "draft", Initializing), Row(Position(1, "a"), "plan", Active);
    var order := [newer, older];
    AllFromStart(order);
    assert order[..1] == [newer] && order[1..] == [older];
    assert PageOf(order, None, 1) == Page([newer], Some(newer.key));
    assert ActiveOf([newer]) == [] by { assert [newer][1..] == []; }
    assert ActiveOf([older]) == [older] by { assert [older][1..] == []; }
    assert ActiveOf(order) == [older];
    assert Descending(order) && Misleads(order, 1);
  }

  // ---------------------------------------------------------------- through cursors

  function ToCursor(p: Position): Cursor.Position {
    Cursor.Position(p.updatedAt, p.id)
  }

  // The client's walk: each request carries the token of the page before. It stops where a token
  // cannot be made or is refused.
  function TokenWalk(c: Cursor.Codec, scope: Cursor.Scope, order: seq<Row>, after: Option<Position>, limit: nat): seq<Page>
    requires Descending(order) && limit >= 1
    decreases |Behind(order, after)|
  {
    var page := PageOf(order, after, limit);
    if page.next == None then [page]
    else
      NextIsFurther(order, after, limit);
      var token := Cursor.EncodeToken(c, scope, ToCursor(page.next.value));
      if token.Some? && Cursor.DecodeToken(c, token.value, scope) == Some(ToCursor(page.next.value))
      then [page] + TokenWalk(c, scope, order, page.next, limit)
      else [page]
  }

  // Every row's cursor is made and read back.
  ghost predicate Fits(c: Cursor.Codec, scope: Cursor.Scope, order: seq<Row>) {
    forall r :: r in order ==> Returns(c, scope, ToCursor(r.key))
  }

  predicate Returns(c: Cursor.Codec, scope: Cursor.Scope, position: Cursor.Position) {
    Cursor.EncodeToken(c, scope, position).Some? &&
    Cursor.DecodeToken(c, Cursor.EncodeToken(c, scope, position).value, scope) == Some(position)
  }

  // The listing of a workspace's boards: all, those without a project, or those of one.
  predicate BoardListing(scope: Cursor.Scope, project: string) {
    && ResourceId.Valid(scope.actor, "usr") && ResourceId.Valid(scope.workspace, "ws")
    && scope.resource == "brd" && scope.order == "updated_at_desc_id_desc"
    && (project in {"", "ungrouped"} || ResourceId.Valid(project, "prj"))
    && Ascii(project) && scope.filter == Bytes(project)
  }

  // Keys as the database has them: board identifiers, and instants of years of at most four digits.
  ghost predicate KeysDated(order: seq<Row>) {
    forall r :: r in order ==>
      ResourceId.Valid(r.key.id, "brd") && Cursor.Writable(r.key.updatedAt) && r.key.updatedAt != Cursor.ZERO_TIME
  }

  lemma BoardFilterIsShort(scope: Cursor.Scope, project: string)
    requires BoardListing(scope, project)
    ensures Clean(scope.filter) && |scope.filter| <= 31
  {
    hide Clean, Quoted, ResourceId.Valid;
    if project !in {"", "ungrouped"} { Cursor.PlainId(project, "prj"); }
    PlainIsClean(scope.filter);
  }

  // Every cursor of this listing is made and read back.
  lemma BoardTokensReturn(c: Cursor.Codec, scope: Cursor.Scope, project: string, order: seq<Row>)
    requires Cursor.Sane(c) && |c.key| >= Cursor.MIN_KEY && BoardListing(scope, project) && KeysDated(order)
    ensures Fits(c, scope, order)
  {
    hide Cursor.Sane, Cursor.EncodeToken, Cursor.DecodeToken, Cursor.Writable, Clean, ResourceId.Valid, Cursor.PayloadLength;
    BoardFilterIsShort(scope, project);
    forall r | r in order ensures Returns(c, scope, ToCursor(r.key)) {
      Cursor.CursorIssued(c, scope, ToCursor(r.key));
      Cursor.ShortFiltersAreRead(c, scope, ToCursor(r.key));
    }
  }

  lemma {:induction false} TokenWalkFrom(c: Cursor.Codec, scope: Cursor.Scope, order: seq<Row>, after: Option<Position>, limit: nat)
    requires Fits(c, scope, order) && Descending(order) && limit >= 1
    ensures TokenWalk(c, scope, order, after, limit) == Walk(order, after, limit)
    decreases |Behind(order, after)|
  {
    hide Cursor.EncodeToken, Cursor.DecodeToken, Less;
    var page := PageOf(order, after, limit);
    if page.next.Some? {
      NextIsFurther(order, after, limit);
      BehindHas(order, after);
      var last := Behind(order, after)[limit - 1];
      assert last in Behind(order, after) && last in order;
      assert Returns(c, scope, ToCursor(last.key));
      TokenWalkFrom(c, scope, order, page.next, limit);
    }
  }

  // So a client that follows the tokens of a board listing sees every active board.
  lemma ClientSeesEveryBoard(c: Cursor.Codec, scope: Cursor.Scope, project: string, table: set<Row>, order: seq<Row>, limit: nat)
    requires Cursor.Sane(c) && |c.key| >= Cursor.MIN_KEY && BoardListing(scope, project) && KeysDated(order)
    requires Lists(order, table) && 1 <= limit <= MAX_LIMIT
    ensures Shown(TokenWalk(c, scope, order, None, limit)) == ActiveOf(order)
  {
    hide Cursor.Sane, Fits, KeysDated, BoardListing;
    BoardTokensReturn(c, scope, project, order);
    TokenWalkFrom(c, scope, order, None, limit);
    WalkShowsEveryBoard(table, order, limit);
  }
}
