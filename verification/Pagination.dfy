/** Keyset pagination, also while other writers change the table between pages. */
module Pagination {
  import opened Wrappers
  import opened Text
  import opened Lifecycle

  /** Missing deadlines sort after every stated one. */
  const FAR_FUTURE: real := 253402214400.0

  const NO_SCORE: real := -1.0

  datatype SortKey = ByScore | ByDeadline | ByRecent

  /** One row of the joined query; `score` is the joined overall score, NULL when there is none. */
  datatype Row = Row(
    id: nat, category: int, status: Status, country: Option<string>, remote: int,
    deadline: Option<real>, createdAt: real, score: Option<real>, text: string)

  datatype Filters = Filters(
    category: Option<int>, status: Option<Status>, includeExpired: bool, country: Option<string>,
    remote: Option<int>, deadlineBefore: Option<real>, minScore: Option<real>, q: Option<string>)

  /** Position of a row in the declared order; also the content of a cursor. */
  datatype Key = Key(value: real, id: nat)

  /** The conditions a statement can carry. */
  datatype Clause =
    | CategoryIs(category: int)
    | StatusIs(status: Status)
    | StatusActive
    | CountryIs(country: string)
    | RemoteIs(remote: int)
    | DeadlineKnown
    | DeadlineAtMost(deadline: real)
    | ScoreAtLeast(score: real)
    | TextLike(pattern: string)
    | Beyond(boundary: Key, sort: SortKey)

  type Statement = seq<Clause>

  /** Country codes are compared in upper case and the text pattern case-insensitively, by the database. */
  datatype Db = Db(upper: string -> string, like: (string, string) -> bool)

  function SortValue(row: Row, sort: SortKey): real {
    match sort
    case ByScore => if row.score.Some? then row.score.value else NO_SCORE
    case ByDeadline => if row.deadline.Some? then row.deadline.value else FAR_FUTURE
    case ByRecent => row.createdAt
  }

  predicate Descending(sort: SortKey) {
    sort != ByDeadline
  }

  function KeyOf(row: Row, sort: SortKey): Key {
    Key(SortValue(row, sort), row.id)
  }

  /** `a` comes strictly before `b` in the listing. */
  predicate Before(a: Key, b: Key, sort: SortKey) {
    if Descending(sort) then b.value < a.value || (b.value == a.value && b.id < a.id)
    else a.value < b.value || (a.value == b.value && a.id < b.id)
  }

  /** SQL semantics: a comparison with NULL does not hold. */
  predicate Holds(c: Clause, row: Row, db: Db) {
    match c
    case CategoryIs(x) => row.category == x
    case StatusIs(s) => row.status == s
    case StatusActive => row.status !in INACTIVE
    case CountryIs(x) => row.country == Some(x)
    case RemoteIs(x) => row.remote == x
    case DeadlineKnown => row.deadline.Some?
    case DeadlineAtMost(d) => row.deadline.Some? && row.deadline.value <= d
    case ScoreAtLeast(x) => row.score.Some? && row.score.value >= x
    case TextLike(p) => db.like(row.text, p)
    case Beyond(k, sort) => Before(k, KeyOf(row, sort), sort)
  }

  predicate HoldsAll(stmt: Statement, row: Row, db: Db) {
    forall c :: c in stmt ==> Holds(c, row, db)
  }

  /** The rows the filters ask for. */
  predicate Matches(f: Filters, row: Row, db: Db) {
    && (f.category.Some? ==> row.category == f.category.value)
    && (f.status.Some? ==> row.status == f.status.value)
    && (f.status.None? && !f.includeExpired ==> row.status !in INACTIVE)
    && (f.country.Some? ==> row.country == Some(db.upper(f.country.value)))
    && (f.remote.Some? ==> row.remote == f.remote.value)
    && MatchesBounds(f, row, db)
  }

  predicate MatchesBounds(f: Filters, row: Row, db: Db) {
    && (f.deadlineBefore.Some? ==> row.deadline.Some? && row.deadline.value <= f.deadlineBefore.value)
    && (f.minScore.Some? ==> row.score.Some? && row.score.value >= f.minScore.value)
    && (f.q.Some? && f.q.value != "" ==> db.like(row.text, "%" + Strip(f.q.value) + "%"))
  }

  /** Builds the conditions one `where` at a time. */
  method ApplyFilters(stmt: Statement, f: Filters, db: Db) returns (r: Statement)
    ensures forall row :: HoldsAll(r, row, db) <==> HoldsAll(stmt, row, db) && Matches(f, row, db)
  {
    r := stmt;
    if f.category.Some? {
      r := Where(r, CategoryIs(f.category.value), db);
    }
    ghost var r1 := r;
    if f.status.Some? {
      r := Where(r, StatusIs(f.status.value), db);
    } else if !f.includeExpired {
      r := Where(r, StatusActive, db);
    }
    ghost var r2 := r;
    if f.country.Some? {
      r := Where(r, CountryIs(db.upper(f.country.value)), db);
    }
    ghost var r3 := r;
    if f.remote.Some? {
      r := Where(r, RemoteIs(f.remote.value), db);
    }
    ghost var r4 := r;
    r := ApplyBounds(r, f, db);
    forall row
      ensures HoldsAll(r, row, db) <==> HoldsAll(stmt, row, db) && Matches(f, row, db)
    {
      assert HoldsAll(r1, row, db) <==>
        HoldsAll(stmt, row, db) && (f.category.Some? ==> row.category == f.category.value);
      assert HoldsAll(r3, row, db) <==>
        HoldsAll(r2, row, db) && (f.country.Some? ==> row.country == Some(db.upper(f.country.value)));
      assert HoldsAll(r4, row, db) <==> HoldsAll(r3, row, db) && (f.remote.Some? ==> row.remote == f.remote.value);
    }
  }

  /** The deadline, score and text conditions. */
  method ApplyBounds(stmt: Statement, f: Filters, db: Db) returns (r: Statement)
    ensures forall row :: HoldsAll(r, row, db) <==> HoldsAll(stmt, row, db) && MatchesBounds(f, row, db)
  {
    r := stmt;
    if f.deadlineBefore.Some? {
      r := Where(r, DeadlineKnown, db);
      r := Where(r, DeadlineAtMost(f.deadlineBefore.value), db);
    }
    if f.minScore.Some? {
      r := Where(r, ScoreAtLeast(f.minScore.value), db);
    }
    if f.q.Some? && f.q.value != "" {
      r := Where(r, TextLike("%" + Strip(f.q.value) + "%"), db);
    }
  }

  function Where(stmt: Statement, c: Clause, ghost db: Db): (r: Statement)
    ensures forall row :: HoldsAll(r, row, db) <==> HoldsAll(stmt, row, db) && Holds(c, row, db)
  {
    assert forall d :: d in stmt + [c] <==> d in stmt || d == c;
    stmt + [c]
  }

  // ---- Executing a statement ---------------------------------------------

  type Table = t: seq<Row> | UniqueIds(t) witness []

  predicate UniqueIds(t: seq<Row>) {
    forall i, j :: 0 <= i < j < |t| ==> t[i].id != t[j].id
  }

  /** Insert into a list sorted by the listing order. */
  function Insert(row: Row, rows: seq<Row>, sort: SortKey): (r: seq<Row>)
    ensures multiset(r) == multiset{row} + multiset(rows)
  {
    if rows == [] || Before(KeyOf(row, sort), KeyOf(rows[0], sort), sort) then [row] + rows
    else
      assert rows == [rows[0]] + rows[1..];
      [rows[0]] + Insert(row, rows[1..], sort)
  }

  /** SELECT ... WHERE ... ORDER BY: the selected rows in listing order. */
  function Select(t: seq<Row>, stmt: Statement, db: Db, sort: SortKey): seq<Row> {
    if t == [] then []
    else if HoldsAll(stmt, t[0], db) then Insert(t[0], Select(t[1..], stmt, db, sort), sort)
    else Select(t[1..], stmt, db, sort)
  }

  predicate Ordered(rows: seq<Row>, sort: SortKey) {
    forall i, j :: 0 <= i < j < |rows| ==> Before(KeyOf(rows[i], sort), KeyOf(rows[j], sort), sort)
  }

  /** Everything a request parameterises a listing by. */
  datatype Query = Query(filters: Filters, sort: SortKey, db: Db)

  predicate AfterCursor(cursor: Option<Key>, row: Row, q: Query) {
    cursor.Some? ==> Before(cursor.value, KeyOf(row, q.sort), q.sort)
  }

  predicate Wanted(row: Row, cursor: Option<Key>, q: Query) {
    Matches(q.filters, row, q.db) && AfterCursor(cursor, row, q)
  }

  /** The complete listing behind a cursor. */
  function Listing(t: seq<Row>, cursor: Option<Key>, q: Query): seq<Row> {
    if t == [] then []
    else if Wanted(t[0], cursor, q) then Insert(t[0], Listing(t[1..], cursor, q), q.sort)
    else Listing(t[1..], cursor, q)
  }

  lemma {:induction false} SelectIsListing(t: seq<Row>, stmt: Statement, cursor: Option<Key>, q: Query)
    requires forall row :: HoldsAll(stmt, row, q.db) <==> Wanted(row, cursor, q)
    ensures Select(t, stmt, q.db, q.sort) == Listing(t, cursor, q)
  {
    if t != [] {
      SelectIsListing(t[1..], stmt, cursor, q);
    }
  }

  lemma {:induction false} ListingMembers(t: seq<Row>, cursor: Option<Key>, q: Query)
    ensures forall row :: row in Listing(t, cursor, q) <==> row in t && Wanted(row, cursor, q)
  {
    if t != [] {
      ListingMembers(t[1..], cursor, q);
      var rest := Listing(t[1..], cursor, q);
      assert t == [t[0]] + t[1..];
      if Wanted(t[0], cursor, q) {
        InsertMembers(t[0], rest, q.sort);
      }
    }
  }

  lemma InsertMembers(row: Row, rows: seq<Row>, sort: SortKey)
    ensures forall r :: r in Insert(row, rows, sort) <==> r == row || r in rows
  {
    var m := multiset(Insert(row, rows, sort));
    assert forall r :: r in Insert(row, rows, sort) <==> r in m;
    assert forall r :: r in rows <==> r in multiset(rows);
  }

  lemma {:induction false} InsertOrdered(row: Row, rows: seq<Row>, sort: SortKey)
    requires Ordered(rows, sort) && forall r :: r in rows ==> r.id != row.id
    ensures Ordered(Insert(row, rows, sort), sort)
  {
    if rows != [] && !Before(KeyOf(row, sort), KeyOf(rows[0], sort), sort) {
      InsertOrdered(row, rows[1..], sort);
      InsertMembers(row, rows[1..], sort);
      var rest := Insert(row, rows[1..], sort);
      assert rows[0] in rows;
      forall j | 0 <= j < |rest|
        ensures Before(KeyOf(rows[0], sort), KeyOf(rest[j], sort), sort)
      {
        assert rest[j] in rest;
      }
    }
  }

  lemma {:induction false} ListingOrdered(t: Table, cursor: Option<Key>, q: Query)
    ensures Ordered(Listing(t, cursor, q), q.sort)
    decreases |t|
  {
    if |t| > 0 {
      ListingOrdered(t[1..], cursor, q);
      ListingMembers(t[1..], cursor, q);
      if Wanted(t[0], cursor, q) {
        InsertOrdered(t[0], Listing(t[1..], cursor, q), q.sort);
      }
    }
  }

  lemma InTail(a: seq<Row>, r: Row, sort: SortKey)
    requires a != [] && Ordered(a, sort)
    ensures r in a[1..] <==> r in a && r != a[0]
  {
    assert forall i :: 1 <= i < |a| ==> Before(KeyOf(a[0], sort), KeyOf(a[i], sort), sort);
    assert a == [a[0]] + a[1..];
  }

  lemma HasMember(rows: seq<Row>)
    ensures rows != [] ==> exists r :: r in rows
  {
    if rows != [] {
      assert rows[0] in rows;
    }
  }

  /** The listing order determines the list: two ordered lists with the same rows are equal. */
  lemma {:induction false} OrderedUnique(a: seq<Row>, b: seq<Row>, sort: SortKey)
    requires Ordered(a, sort) && Ordered(b, sort)
    requires forall r :: r in a <==> r in b
    ensures a == b
  {
    if a == [] {
      HasMember(b);
    } else {
      assert a[0] in b && b[0] in a;
      assert a[0] == b[0];
      forall r
        ensures r in a[1..] <==> r in b[1..]
      {
        InTail(a, r, sort);
        InTail(b, r, sort);
      }
      OrderedUnique(a[1..], b[1..], sort);
    }
  }

  // ---- One page ----------------------------------------------------------

  datatype Page = Page(rows: seq<Row>, next: Option<Key>, hasMore: bool)

  function Min(a: nat, b: nat): nat {
    if a <= b then a else b
  }

  /** The first `limit` rows of the listing, and a cursor at the last of them when more rows follow. */
  function PageOf(all: seq<Row>, limit: nat, sort: SortKey): Page {
    var rows := all[..Min(limit, |all|)];
    var hasMore := |all| > limit;
    Page(rows, if hasMore && rows != [] then Some(KeyOf(rows[|rows| - 1], sort)) else None, hasMore)
  }

  function ListPage(t: Table, limit: nat, cursor: Option<Key>, q: Query): Page {
    PageOf(Listing(t, cursor, q), limit, q.sort)
  }

  /** One request: build the statement, fetch one row more than asked for, cut and set the cursor. */
  method ListOpportunities(t: Table, limit: nat, cursor: Option<Key>, q: Query) returns (page: Page)
    ensures page == ListPage(t, limit, cursor, q)
  {
    var stmt: Statement := [];
    stmt := ApplyFilters(stmt, q.filters, q.db);
    if cursor.Some? {
      stmt := Where(stmt, Beyond(cursor.value, q.sort), q.db);
    }
    SelectIsListing(t, stmt, cursor, q);
    var all := Select(t, stmt, q.db, q.sort);
    var rows := all[..Min(limit + 1, |all|)];
    var hasMore := |rows| > limit;
    rows := rows[..Min(limit, |rows|)];
    assert rows == all[..Min(limit, |all|)];
    var next := None;
    if hasMore && rows != [] {
      next := Some(KeyOf(rows[|rows| - 1], q.sort));
    }
    page := Page(rows, next, hasMore);
  }

  // ---- Traversals --------------------------------------------------------

  /** Page after page, each request finding the table as other writers have left it. */
  function Traverse(tables: seq<Table>, limit: nat, cursor: Option<Key>, q: Query): seq<Page> {
    if tables == [] then []
    else
      var page := ListPage(tables[0], limit, cursor, q);
      if page.next.None? then [page] else [page] + Traverse(tables[1..], limit, page.next, q)
  }

  function Returned(pages: seq<Page>): seq<Row> {
    if pages == [] then [] else pages[0].rows + Returned(pages[1..])
  }

  predicate Finished(pages: seq<Page>) {
    pages != [] && pages[|pages| - 1].next.None?
  }

  /** A page is ordered, lies behind the cursor, and ends at the next cursor. */
  lemma PageOrdered(t: Table, limit: nat, cursor: Option<Key>, q: Query)
    ensures var page := ListPage(t, limit, cursor, q);
      && Ordered(page.rows, q.sort)
      && (forall r :: r in page.rows ==> r in t && Wanted(r, cursor, q))
      && (page.next.Some? ==> page.rows != [] && page.next.value == KeyOf(page.rows[|page.rows| - 1], q.sort))
  {
    ListingOrdered(t, cursor, q);
    ListingMembers(t, cursor, q);
    var all := Listing(t, cursor, q);
    assert forall r :: r in all[..Min(limit, |all|)] ==> r in all;
  }

  /** Rows come back in strictly increasing listing order, across page boundaries and interfering writes. */
  lemma {:induction false} TraverseOrdered(tables: seq<Table>, limit: nat, cursor: Option<Key>, q: Query)
    ensures var rows := Returned(Traverse(tables, limit, cursor, q));
      Ordered(rows, q.sort) && forall i :: 0 <= i < |rows| ==> AfterCursor(cursor, rows[i], q)
  {
    if tables != [] {
      PageOrdered(tables[0], limit, cursor, q);
      var page := ListPage(tables[0], limit, cursor, q);
      if page.next.Some? {
        TraverseOrdered(tables[1..], limit, page.next, q);
        var rest := Returned(Traverse(tables[1..], limit, page.next, q));
        assert Traverse(tables, limit, cursor, q)[1..] == Traverse(tables[1..], limit, page.next, q);
        var rows := page.rows + rest;
        var last := |page.rows| - 1;
        forall i | 0 <= i < |rest|
          ensures Before(KeyOf(page.rows[last], q.sort), KeyOf(rest[i], q.sort), q.sort)
        {
          assert AfterCursor(page.next, rest[i], q);
        }
        assert Ordered(rows, q.sort);
        assert page.rows[last] in page.rows;
        forall i | 0 <= i < |rows|
          ensures AfterCursor(cursor, rows[i], q)
        {
          if i < |page.rows| {
            assert rows[i] in page.rows;
          } else if cursor.Some? {
            BeforeTransitive(cursor.value, KeyOf(page.rows[last], q.sort), KeyOf(rows[i], q.sort), q.sort);
          }
        }
      } else {
        assert Returned([page]) == page.rows;
        assert forall i :: 0 <= i < |page.rows| ==> page.rows[i] in page.rows;
      }
    }
  }

  /** A matching row with this key is in the table. */
  predicate Present(t: seq<Row>, k: Key, q: Query) {
    exists i :: 0 <= i < |t| && KeyOf(t[i], q.sort) == k && Matches(q.filters, t[i], q.db)
  }

  predicate PresentThroughout(tables: seq<Table>, n: nat, k: Key, q: Query)
    requires n <= |tables|
  {
    forall m :: 0 <= m < n ==> Present(tables[m], k, q)
  }

  predicate HasKey(rows: seq<Row>, k: Key, sort: SortKey) {
    exists i :: 0 <= i < |rows| && KeyOf(rows[i], sort) == k
  }

  /** The key occurs at position `i` and nowhere else. */
  predicate ReturnedOnceAt(rows: seq<Row>, k: Key, sort: SortKey, i: int) {
    0 <= i < |rows| && KeyOf(rows[i], sort) == k &&
    forall j :: 0 <= j < |rows| && KeyOf(rows[j], sort) == k ==> j == i
  }

  lemma {:induction false} TraverseLength(tables: seq<Table>, limit: nat, cursor: Option<Key>, q: Query)
    ensures |Traverse(tables, limit, cursor, q)| <= |tables|
  {
    if tables != [] {
      TraverseLength(tables[1..], limit, ListPage(tables[0], limit, cursor, q).next, q);
    }
  }

  /** A row that stays put is either on this page or behind its cursor. */
  lemma PageOrBeyond(t: Table, limit: nat, cursor: Option<Key>, k: Key, q: Query)
    requires limit >= 1 && Present(t, k, q) && (cursor.Some? ==> Before(cursor.value, k, q.sort))
    ensures var page := ListPage(t, limit, cursor, q);
      HasKey(page.rows, k, q.sort) || (page.next.Some? && Before(page.next.value, k, q.sort))
  {
    ListingOrdered(t, cursor, q);
    ListingMembers(t, cursor, q);
    var all := Listing(t, cursor, q);
    var i :| 0 <= i < |t| && KeyOf(t[i], q.sort) == k && Matches(q.filters, t[i], q.db);
    assert t[i] in all;
    var j :| 0 <= j < |all| && all[j] == t[i];
    var page := ListPage(t, limit, cursor, q);
    if j < |page.rows| {
      assert KeyOf(page.rows[j], q.sort) == k;
    }
  }

  lemma {:induction false} TraverseComplete(tables: seq<Table>, limit: nat, cursor: Option<Key>, k: Key, q: Query)
    requires limit >= 1 && (cursor.Some? ==> Before(cursor.value, k, q.sort))
    requires Finished(Traverse(tables, limit, cursor, q))
    requires |Traverse(tables, limit, cursor, q)| <= |tables|
    requires PresentThroughout(tables, |Traverse(tables, limit, cursor, q)|, k, q)
    ensures HasKey(Returned(Traverse(tables, limit, cursor, q)), k, q.sort)
  {
    var pages := Traverse(tables, limit, cursor, q);
    var page := ListPage(tables[0], limit, cursor, q);
    PageOrBeyond(tables[0], limit, cursor, k, q);
    var rows := Returned(pages);
    assert pages[0] == page && rows == page.rows + Returned(pages[1..]);
    if HasKey(page.rows, k, q.sort) {
      var i :| 0 <= i < |page.rows| && KeyOf(page.rows[i], q.sort) == k;
      assert rows[i] == page.rows[i];
    } else {
      var rest := Traverse(tables[1..], limit, page.next, q);
      assert pages[1..] == rest;
      assert PresentThroughout(tables[1..], |rest|, k, q) by {
        assert forall m :: 0 <= m < |rest| ==> tables[1..][m] == tables[m + 1];
      }
      TraverseComplete(tables[1..], limit, page.next, k, q);
      var i :| 0 <= i < |Returned(rest)| && KeyOf(Returned(rest)[i], q.sort) == k;
      assert rows[|page.rows| + i] == Returned(rest)[i];
    }
  }

  /**
   Traversal under interference. However the table changes between pages, nothing is returned
   twice under the same sort key, everything comes in listing order, and a finished traversal has
   returned exactly once each matching row that was present with an unchanged key throughout.
   */
  lemma TraversalUnderInterference(tables: seq<Table>, limit: nat, q: Query)
    requires limit >= 1
    ensures var pages := Traverse(tables, limit, None, q);
      var rows := Returned(pages);
      && |pages| <= |tables|
      && Ordered(rows, q.sort)
      && (forall i, j :: 0 <= i < j < |rows| ==> KeyOf(rows[i], q.sort) != KeyOf(rows[j], q.sort))
      && (Finished(pages) ==>
        forall k :: PresentThroughout(tables, |pages|, k, q) ==>
          exists i :: ReturnedOnceAt(rows, k, q.sort, i))
  {
    var pages := Traverse(tables, limit, None, q);
    var rows := Returned(pages);
    TraverseLength(tables, limit, None, q);
    TraverseOrdered(tables, limit, None, q);
    if Finished(pages) {
      forall k | PresentThroughout(tables, |pages|, k, q)
        ensures exists i :: ReturnedOnceAt(rows, k, q.sort, i)
      {
        TraverseComplete(tables, limit, None, k, q);
        var i :| 0 <= i < |rows| && KeyOf(rows[i], q.sort) == k;
        assert ReturnedOnceAt(rows, k, q.sort, i);
      }
    }
  }

  /** Every returned row was in the table its page was read from, and matched. */
  lemma {:induction false} PagesAreSound(tables: seq<Table>, limit: nat, cursor: Option<Key>, q: Query, m: nat)
    requires m < |Traverse(tables, limit, cursor, q)| <= |tables|
    ensures forall r :: r in Traverse(tables, limit, cursor, q)[m].rows ==>
      r in tables[m] && Matches(q.filters, r, q.db)
  {
    PageOrdered(tables[0], limit, cursor, q);
    if m > 0 {
      PagesAreSound(tables[1..], limit, ListPage(tables[0], limit, cursor, q).next, q, m - 1);
    }
  }

  // ---- The order in the rows' own columns ---------------------------------

  /** Earlier deadlines first, rows without one last, ties by rising id. */
  predicate ByDeadlineThenId(a: Row, b: Row) {
    match (a.deadline, b.deadline)
    case (Some(x), Some(y)) => x < y || (x == y && a.id < b.id)
    case (Some(_), None) => true
    case (None, Some(_)) => false
    case (None, None) => a.id < b.id
  }

  /** Higher scores first, rows without one last, ties by falling id. */
  predicate ByScoreThenId(a: Row, b: Row) {
    match (a.score, b.score)
    case (Some(x), Some(y)) => x > y || (x == y && a.id > b.id)
    case (Some(_), None) => true
    case (None, Some(_)) => false
    case (None, None) => a.id > b.id
  }

  /** Newer rows first, ties by falling id. */
  predicate ByAgeThenId(a: Row, b: Row) {
    a.createdAt > b.createdAt || (a.createdAt == b.createdAt && a.id > b.id)
  }

  predicate InOrder(a: Row, b: Row, sort: SortKey) {
    match sort
    case ByScore => ByScoreThenId(a, b)
    case ByDeadline => ByDeadlineThenId(a, b)
    case ByRecent => ByAgeThenId(a, b)
  }

  /** Deadlines lie before the end of the year 9999 and scores are not negative. */
  predicate Ordinary(r: Row) {
    && (r.deadline.Some? ==> r.deadline.value < FAR_FUTURE)
    && (r.score.Some? ==> r.score.value >= 0.0)
  }

  lemma BeforeInColumns(a: Row, b: Row, sort: SortKey)
    requires Ordinary(a) && Ordinary(b)
    ensures Before(KeyOf(a, sort), KeyOf(b, sort), sort) <==> InOrder(a, b, sort)
  {}

  /** The rows of a page come in the order of their own columns. */
  lemma PageColumns(t: Table, limit: nat, cursor: Option<Key>, q: Query)
    requires forall r :: r in t ==> Ordinary(r)
    ensures var rows := ListPage(t, limit, cursor, q).rows;
      forall i, j :: 0 <= i < j < |rows| ==> InOrder(rows[i], rows[j], q.sort)
  {
    ListingOrdered(t, cursor, q);
    ListingMembers(t, cursor, q);
    var all, rows := Listing(t, cursor, q), ListPage(t, limit, cursor, q).rows;
    forall i, j | 0 <= i < j < |rows|
      ensures InOrder(rows[i], rows[j], q.sort)
    {
      assert all[i] in all && all[j] in all;
      BeforeInColumns(rows[i], rows[j], q.sort);
    }
  }

  /** A page starts with the very first of the matching rows: no other one belongs before it. */
  lemma PageStartsAtTheTop(t: Table, limit: nat, q: Query, r: Row)
    requires (forall x :: x in t ==> Ordinary(x)) && limit >= 1 && r in t && Matches(q.filters, r, q.db)
    ensures var rows := ListPage(t, limit, None, q).rows;
      rows != [] && (r == rows[0] || InOrder(rows[0], r, q.sort))
  {
    ListingOrdered(t, None, q);
    ListingMembers(t, None, q);
    var all := Listing(t, None, q);
    var j :| 0 <= j < |all| && all[j] == r;
    assert all[0] in all;
    if j > 0 {
      BeforeInColumns(all[0], r, q.sort);
    }
  }

  // ---- Unchanged tables --------------------------------------------------

  /** The number of pages for `n` rows: one, or as many as it takes. */
  function PageCount(n: nat, limit: nat): nat
    requires limit >= 1
  {
    if n <= limit then 1 else 1 + PageCount(n - limit, limit)
  }

  /** `PageCount` is max(1, ceil(n / limit)). */
  lemma {:induction false} PageCountIsCeiling(n: nat, limit: nat)
    requires limit >= 1
    ensures var c := PageCount(n, limit); c >= 1 && n <= c * limit && (c > 1 ==> (c - 1) * limit < n)
  {
    if n > limit {
      PageCountIsCeiling(n - limit, limit);
      var c := PageCount(n - limit, limit);
      assert (c + 1) * limit == c * limit + limit;
      assert c > 1 ==> c * limit == (c - 1) * limit + limit;
    }
  }

  predicate Unchanged(tables: seq<Table>, t: Table) {
    forall i :: 0 <= i < |tables| ==> tables[i] == t
  }

  /** In an ordered list, the rows strictly behind the n-th are those after it. */
  lemma BehindInOrdered(all: seq<Row>, n: nat, r: Row, sort: SortKey)
    requires Ordered(all, sort) && 0 < n <= |all|
    ensures r in all && Before(KeyOf(all[n - 1], sort), KeyOf(r, sort), sort) <==> r in all[n..]
  {
    if r in all && Before(KeyOf(all[n - 1], sort), KeyOf(r, sort), sort) {
      var j :| 0 <= j < |all| && all[j] == r;
      assert j >= n;
      assert all[n..][j - n] == r;
    }
    if r in all[n..] {
      var j :| n <= j < |all| && all[j] == r;
    }
  }

  lemma BeforeTransitive(a: Key, b: Key, c: Key, sort: SortKey)
    requires Before(a, b, sort) && Before(b, c, sort)
    ensures Before(a, c, sort)
  {}

  /** Asking again behind the cursor of a full page gives the rest of the listing. */
  lemma ListingBehind(t: Table, cursor: Option<Key>, limit: nat, q: Query)
    requires limit >= 1 && |Listing(t, cursor, q)| > limit
    ensures Listing(t, ListPage(t, limit, cursor, q).next, q) == Listing(t, cursor, q)[limit..]
  {
    var all := Listing(t, cursor, q);
    var boundary := KeyOf(all[limit - 1], q.sort);
    ListingOrdered(t, cursor, q);
    ListingMembers(t, cursor, q);
    ListingOrdered(t, Some(boundary), q);
    ListingMembers(t, Some(boundary), q);
    assert all[limit - 1] in all;
    forall r
      ensures r in Listing(t, Some(boundary), q) <==> r in all[limit..]
    {
      BehindInOrdered(all, limit, r, q.sort);
      if r in Listing(t, Some(boundary), q) && cursor.Some? {
        BeforeTransitive(cursor.value, boundary, KeyOf(r, q.sort), q.sort);
      }
    }
    OrderedUnique(Listing(t, Some(boundary), q), all[limit..], q.sort);
  }

  /** A traversal that needs one page only. */
  lemma LastPage(tables: seq<Table>, limit: nat, cursor: Option<Key>, q: Query)
    requires limit >= 1 && |tables| >= 1 && |Listing(tables[0], cursor, q)| <= limit
    ensures var pages := Traverse(tables, limit, cursor, q);
      Finished(pages) && |pages| == 1 && Returned(pages) == Listing(tables[0], cursor, q)
  {
    var page := ListPage(tables[0], limit, cursor, q);
    assert Traverse(tables, limit, cursor, q) == [page];
    assert Returned([page]) == page.rows + Returned([]);
  }

  /** A traversal that goes on to another page. */
  lemma FullPage(tables: seq<Table>, limit: nat, cursor: Option<Key>, q: Query, rest: seq<Page>)
    requires limit >= 1 && |tables| >= 1 && |Listing(tables[0], cursor, q)| > limit
    requires rest == Traverse(tables[1..], limit, ListPage(tables[0], limit, cursor, q).next, q)
    requires Finished(rest)
    ensures var pages := Traverse(tables, limit, cursor, q);
      && Finished(pages)
      && |pages| == 1 + |rest|
      && Returned(pages) == Listing(tables[0], cursor, q)[..limit] + Returned(rest)
  {
    var page := ListPage(tables[0], limit, cursor, q);
    var pages := Traverse(tables, limit, cursor, q);
    assert pages == [page] + rest && pages[1..] == rest;
  }

  /** On an unchanged table the pages concatenate to the listing, in the least possible number of pages. */
  lemma {:induction false} StaticTraversal(tables: seq<Table>, t: Table, limit: nat, cursor: Option<Key>, q: Query)
    requires limit >= 1 && Unchanged(tables, t)
    requires |tables| >= PageCount(|Listing(t, cursor, q)|, limit)
    ensures var pages := Traverse(tables, limit, cursor, q);
      && Finished(pages)
      && |pages| == PageCount(|Listing(t, cursor, q)|, limit)
      && Returned(pages) == Listing(t, cursor, q)
  {
    var all := Listing(t, cursor, q);
    assert tables[0] == t;
    if |all| <= limit {
      LastPage(tables, limit, cursor, q);
    } else {
      var next := ListPage(t, limit, cursor, q).next;
      ListingBehind(t, cursor, limit, q);
      StaticTraversal(tables[1..], t, limit, next, q);
      FullPage(tables, limit, cursor, q, Traverse(tables[1..], limit, next, q));
      assert all == all[..limit] + all[limit..];
    }
  }
}
