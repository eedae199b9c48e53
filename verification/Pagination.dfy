/**
 Keyset pagination. A row is named by its sort key, a tuple that is unique and never changes; a table
 is the set of rows that meet the query's conditions when a page is fetched. Traversals are followed
 while the table changes between pages.
 */
module Pagination {
  import opened Options

  /** The key columns of a row, each value given by its rank in its column's order. */
  type Key = seq<int>

  datatype Direction = Asc | Desc

  /** A cursor string is opaque: all that matters is what it decodes to. */
  datatype Item = Scalar(rank: int) | NotScalar
  datatype Cursor = NotJson | NotArray | Items(items: seq<Item>)
  datatype CursorError = InvalidCursor

  datatype Page<T> = Page(items: seq<T>, nextCursor: Option<Cursor>)

  function EncodeCursor(values: Key): Cursor {
    Items(seq(|values|, i requires 0 <= i < |values| => Scalar(values[i])))
  }

  function DecodeCursor(cursor: Cursor, arity: nat): Result<Key, CursorError> {
    if cursor.Items? && |cursor.items| == arity && forall x :: x in cursor.items ==> x.Scalar? then
      Ok(seq(arity, i requires 0 <= i < arity => cursor.items[i].rank))
    else Err(InvalidCursor)
  }

  /** Comparison of row values: the first column that differs decides. */
  predicate Less(a: Key, b: Key)
    requires |a| == |b|
  {
    a != [] && (a[0] < b[0] || (a[0] == b[0] && Less(a[1..], b[1..])))
  }

  predicate Precedes(dir: Direction, a: Key, b: Key) {
    |a| == |b| && if dir.Asc? then Less(a, b) else Less(b, a)
  }

  /** The rows a cursor's condition selects. */
  ghost function AfterCursor(arity: nat, table: set<Key>, values: Key, dir: Direction): Result<set<Key>, CursorError> {
    if |values| != arity then Err(InvalidCursor)
    else Ok(set k | k in table && Precedes(dir, values, k))
  }

  function First<T>(s: seq<T>, n: nat): seq<T> {
    if |s| <= n then s else s[..n]
  }

  function ToPage<T>(rows: seq<T>, limit: nat, cursorOf: T -> Key): Page<T> {
    var items := First(rows, limit);
    Page(items, if |rows| > limit && items != [] then Some(EncodeCursor(cursorOf(items[|items| - 1]))) else None)
  }

  // ---- the order --------------------------------------------------------------------------------

  ghost predicate Keyed(arity: nat, table: set<Key>) {
    forall k :: k in table ==> |k| == arity
  }

  ghost predicate Ascends(dir: Direction, s: seq<Key>) {
    forall i, j :: 0 <= i < j < |s| ==> Precedes(dir, s[i], s[j])
  }

  lemma {:induction false} LessIsTotal(a: Key, b: Key)
    requires |a| == |b|
    ensures a == b || Less(a, b) || Less(b, a)
    ensures !(Less(a, b) && Less(b, a)) && !Less(a, a)
  {
    if a != [] {
      LessIsTotal(a[1..], b[1..]);
      assert a == [a[0]] + a[1..] && b == [b[0]] + b[1..];
    }
  }

  lemma {:induction false} LessIsTransitive(a: Key, b: Key, c: Key)
    requires |a| == |b| == |c| && Less(a, b) && Less(b, c)
    ensures Less(a, c)
  {
    if a[0] == b[0] == c[0] {
      LessIsTransitive(a[1..], b[1..], c[1..]);
    }
  }

  /** Up to column i the keys are equal, and there b is larger, or under desc smaller. */
  predicate BeyondAt(dir: Direction, a: Key, b: Key, i: nat)
    requires i < |a| == |b|
  {
    a[..i] == b[..i] && match dir case Asc => b[i] > a[i] case Desc => b[i] < a[i]
  }

  ghost predicate Beyond(dir: Direction, a: Key, b: Key) {
    |a| == |b| && exists i :: 0 <= i < |a| && BeyondAt(dir, a, b, i)
  }

  lemma {:induction false} LessIff(a: Key, b: Key)
    requires |a| == |b|
    ensures Less(a, b) <==> Beyond(Asc, a, b)
    ensures Less(b, a) <==> Beyond(Desc, a, b)
  {
    if a != [] {
      LessIff(a[1..], b[1..]);
      if a[0] == b[0] {
        forall dir, i | 0 <= i < |a| - 1 ensures BeyondAt(dir, a[1..], b[1..], i) <==> BeyondAt(dir, a, b, i + 1) {
          assert a[..i + 1] == [a[0]] + a[1..][..i] && b[..i + 1] == [b[0]] + b[1..][..i];
        }
        forall dir | Beyond(dir, a[1..], b[1..]) ensures Beyond(dir, a, b) {
          var i :| 0 <= i < |a| - 1 && BeyondAt(dir, a[1..], b[1..], i);
          assert BeyondAt(dir, a, b, i + 1);
        }
        forall dir | Beyond(dir, a, b) ensures Beyond(dir, a[1..], b[1..]) {
          var i :| 0 <= i < |a| && BeyondAt(dir, a, b, i);
          assert i > 0 && BeyondAt(dir, a[1..], b[1..], i - 1);
        }
      } else {
        forall dir, i | 0 < i < |a| ensures !BeyondAt(dir, a, b, i) {
          assert a[..i][0] == a[0] && b[..i][0] == b[0];
        }
        assert a[..0] == b[..0];
        assert BeyondAt(Asc, a, b, 0) <==> a[0] < b[0];
        assert BeyondAt(Desc, a, b, 0) <==> b[0] < a[0];
      }
    }
  }

  /** Main result: the rows after a cursor are those whose first column that differs is larger, or under desc smaller. */
  lemma AfterCursorIff(arity: nat, table: set<Key>, values: Key, dir: Direction, k: Key)
    requires |values| == arity
    ensures AfterCursor(arity, table, values, dir).Ok?
    ensures k in AfterCursor(arity, table, values, dir).value <==> k in table && Beyond(dir, values, k)
  {
    if |k| == arity {
      LessIff(values, k);
    }
  }

  /** A listing rises, or under desc falls, by the first column that differs; so its first column never turns back. */
  lemma OrderedRises(arity: nat, dir: Direction, rows: set<Key>, i: nat, j: nat)
    requires Keyed(arity, rows) && i < j < |rows|
    ensures var s := Ordered(arity, dir, rows);
      Beyond(dir, s[i], s[j]) && (arity >= 1 ==> if dir.Asc? then s[i][0] <= s[j][0] else s[i][0] >= s[j][0])
  {
    var s := Ordered(arity, dir, rows);
    assert Precedes(dir, s[i], s[j]);
    LessIff(s[i], s[j]);
    assert s[i] in s && s[j] in s;
    var c :| 0 <= c < |s[i]| && BeyondAt(dir, s[i], s[j], c);
    assert c > 0 ==> s[i][..c][0] == s[i][0] && s[j][..c][0] == s[j][0];
  }

  lemma PrecedesIsTotal(dir: Direction, a: Key, b: Key)
    requires |a| == |b|
    ensures a == b || Precedes(dir, a, b) || Precedes(dir, b, a)
    ensures !(Precedes(dir, a, b) && Precedes(dir, b, a)) && !Precedes(dir, a, a)
  {
    LessIsTotal(a, b);
  }

  lemma PrecedesIsTransitive(dir: Direction, a: Key, b: Key, c: Key)
    requires Precedes(dir, a, b) && Precedes(dir, b, c)
    ensures Precedes(dir, a, c)
  {
    if dir.Asc? {
      LessIsTransitive(a, b, c);
    } else {
      LessIsTransitive(c, b, a);
    }
  }

  lemma {:induction false} FirstRow(arity: nat, dir: Direction, rows: set<Key>) returns (least: Key)
    requires rows != {} && Keyed(arity, rows)
    ensures least in rows && forall k :: k in rows ==> k == least || Precedes(dir, least, k)
    decreases |rows|
  {
    var x :| x in rows;
    least := x;
    if rows != {x} {
      var y := FirstRow(arity, dir, rows - {x});
      PrecedesIsTotal(dir, x, y);
      least := if Precedes(dir, x, y) then x else y;
      forall k | k in rows ensures k == least || Precedes(dir, least, k) {
        if k != x && k != y && least == x {
          PrecedesIsTransitive(dir, x, y, k);
        }
      }
    }
  }

  /** ORDER BY: the rows in the query's order. */
  ghost function Ordered(arity: nat, dir: Direction, rows: set<Key>): (s: seq<Key>)
    requires Keyed(arity, rows)
    ensures Ascends(dir, s) && |s| == |rows|
    ensures forall k :: k in s <==> k in rows
    decreases |rows|
  {
    if rows == {} then []
    else
      assert exists x :: x in rows && forall k :: k in rows ==> k == x || Precedes(dir, x, k) by {
        var x := FirstRow(arity, dir, rows);
      }
      var x :| x in rows && forall k :: k in rows ==> k == x || Precedes(dir, x, k);
      var rest := Ordered(arity, dir, rows - {x});
      assert forall k :: k in rest ==> Precedes(dir, x, k);
      [x] + rest
  }

  lemma HasFirst(s: seq<Key>)
    requires s != []
    ensures s[0] in s
  {
  }

  /** A set of rows has one order. */
  lemma {:induction false} OrderIsUnique(dir: Direction, s: seq<Key>, t: seq<Key>)
    requires Ascends(dir, s) && Ascends(dir, t) && forall k :: k in s <==> k in t
    ensures s == t
  {
    if s == [] {
      if t != [] {
        HasFirst(t);
      }
    } else {
      assert s[0] in t && t[0] in s;
      PrecedesIsTotal(dir, s[0], t[0]);
      forall k | k in s[1..] ensures k in t[1..] {
        PrecedesIsTotal(dir, s[0], s[0]);
        assert k in s && k != s[0];
      }
      forall k | k in t[1..] ensures k in s[1..] {
        PrecedesIsTotal(dir, s[0], s[0]);
        assert k in t && k != t[0];
      }
      OrderIsUnique(dir, s[1..], t[1..]);
    }
  }

  // ---- fetching a page --------------------------------------------------------------------------

  datatype Query = Query(arity: nat, dir: Direction, limit: nat, cursorOf: Key -> Key)

  /** Continuing after the cursor of a row is continuing after the row, for every row but the last. */
  ghost predicate Faithful(q: Query, rows: set<Key>) {
    && q.limit >= 1 && Keyed(q.arity, rows)
    && (forall a :: a in rows ==> |q.cursorOf(a)| == q.arity)
    && forall a, b :: a in rows && b in rows && HasNext(q.dir, rows, a) ==>
      (Precedes(q.dir, q.cursorOf(a), b) <==> Precedes(q.dir, a, b))
  }

  ghost predicate HasNext(dir: Direction, rows: set<Key>, a: Key) {
    exists c :: c in rows && Precedes(dir, a, c)
  }

  /** One request: decode the cursor, select limit + 1 rows after it in order, make a page. */
  ghost function Fetch(q: Query, table: set<Key>, cursor: Option<Cursor>): Result<Page<Key>, CursorError>
    requires Keyed(q.arity, table)
  {
    if cursor.None? then Ok(ToPage(First(Ordered(q.arity, q.dir, table), q.limit + 1), q.limit, q.cursorOf))
    else
      var values := DecodeCursor(cursor.value, q.arity);
      if values.Err? then Err(values.error)
      else
        var rows := AfterCursor(q.arity, table, values.value, q.dir);
        if rows.Err? then Err(rows.error)
        else Ok(ToPage(First(Ordered(q.arity, q.dir, rows.value), q.limit + 1), q.limit, q.cursorOf))
  }

  /** A request is refused exactly when its cursor is no list of as many scalars as there are columns. */
  lemma RefusedIff(q: Query, table: set<Key>, cursor: Option<Cursor>)
    requires Keyed(q.arity, table)
    ensures Fetch(q, table, cursor).Err? <==>
      cursor.Some? && forall values: Key | |values| == q.arity :: cursor.value != EncodeCursor(values)
  {
    if cursor.Some? {
      var decoded := DecodeCursor(cursor.value, q.arity);
      if decoded.Ok? {
        var given, items := EncodeCursor(decoded.value).items, cursor.value.items;
        forall i | 0 <= i < |items| ensures given[i] == items[i] {
          assert items[i] in items;
        }
        assert EncodeCursor(decoded.value) == cursor.value;
      } else if values: Key :| |values| == q.arity && cursor.value == EncodeCursor(values) {
        DecodeEncode(values);
      }
    }
  }

  lemma DecodeEncode(values: Key)
    ensures DecodeCursor(EncodeCursor(values), |values|) == Ok(values)
  {
    var items := EncodeCursor(values).items;
    forall x | x in items ensures x.Scalar? {}
    assert DecodeCursor(Items(items), |values|).value == values;
  }

  /** The rows a page is taken from. */
  ghost function Matching(q: Query, table: set<Key>, after: Option<Key>): (rows: set<Key>)
    requires Keyed(q.arity, table)
    ensures rows <= table && Keyed(q.arity, rows)
  {
    if after.None? then table else set k | k in table && Precedes(q.dir, after.value, k)
  }

  ghost function Encoded(after: Option<Key>): Option<Cursor> {
    if after.None? then None else Some(EncodeCursor(after.value))
  }

  /** The first rows, as many as asked for if there are as many. */
  lemma FirstIsFront<T>(rows: seq<T>, n: nat)
    ensures First(rows, n) <= rows && |First(rows, n)| == if |rows| < n then |rows| else n
  {
  }

  /** A page is the first rows; it has a cursor, made from its last item, exactly when a row is left. */
  lemma PageOfRows<T>(rows: seq<T>, limit: nat, cursorOf: T -> Key)
    requires limit >= 1
    ensures var page := ToPage(First(rows, limit + 1), limit, cursorOf);
      && page.items == First(rows, limit)
      && page.nextCursor == if |rows| > limit then Some(EncodeCursor(cursorOf(rows[limit - 1]))) else None
  {
    if |rows| > limit {
      assert rows[..limit + 1][..limit] == rows[..limit];
    }
  }

  /** Pages are fetched with the cursor of the rows' own key columns, so the request is never refused. */
  lemma FetchedPage(q: Query, table: set<Key>, after: Option<Key>)
    requires Keyed(q.arity, table) && (after.Some? ==> |after.value| == q.arity)
    ensures Fetch(q, table, Encoded(after)) ==
      Ok(ToPage(First(Ordered(q.arity, q.dir, Matching(q, table, after)), q.limit + 1), q.limit, q.cursorOf))
  {
    if after.Some? {
      DecodeEncode(after.value);
      assert AfterCursor(q.arity, table, after.value, q.dir) == Ok(Matching(q, table, after));
    }
  }

  // ---- traversals -------------------------------------------------------------------------------

  ghost predicate PageAt(q: Query, tables: seq<set<Key>>, pages: seq<Page<Key>>, i: nat)
    requires |tables| == |pages| && i < |pages|
  {
    Keyed(q.arity, tables[i]) && (i > 0 ==> pages[i - 1].nextCursor.Some?)
    && Fetch(q, tables[i], if i == 0 then None else pages[i - 1].nextCursor) == Ok(pages[i])
  }

  /** Pages fetched one after the other by following nextCursor, page i from the table as it then is. */
  ghost predicate Traversal(q: Query, tables: seq<set<Key>>, pages: seq<Page<Key>>) {
    |tables| == |pages| > 0 && forall i :: 0 <= i < |pages| ==> PageAt(q, tables, pages, i)
  }

  ghost predicate Complete(pages: seq<Page<Key>>) {
    pages != [] && pages[|pages| - 1].nextCursor.None?
  }

  function Visited(pages: seq<Page<Key>>): seq<Key> {
    if pages == [] then [] else Visited(pages[..|pages| - 1]) + pages[|pages| - 1].items
  }

  ghost predicate InOrder(q: Query, seen: set<Key>, visited: seq<Key>) {
    Ascends(q.dir, visited) && forall k :: k in visited ==> |k| == q.arity && k in seen
  }

  /** A cursor stands at the last row visited, after full pages only, and some row is still to come. */
  ghost predicate Stands(q: Query, seen: set<Key>, visited: seq<Key>, cursor: Option<Cursor>, count: nat) {
    cursor.Some? ==>
      && |visited| == count * q.limit
      && visited != []
      && cursor == Some(EncodeCursor(q.cursorOf(visited[|visited| - 1])))
      && HasNext(q.dir, seen, visited[|visited| - 1])
  }

  /** Rows that were never deleted are visited or come after the cursor. */
  ghost predicate Covered(q: Query, kept: set<Key>, visited: seq<Key>, cursor: Option<Cursor>) {
    forall k :: k in kept ==> k in visited || (cursor.Some? && visited != [] && Precedes(q.dir, visited[|visited| - 1], k))
  }

  ghost predicate Progress(q: Query, kept: set<Key>, seen: set<Key>, visited: seq<Key>, cursor: Option<Cursor>, count: nat) {
    InOrder(q, seen, visited) && Stands(q, seen, visited, cursor, count) && Covered(q, kept, visited, cursor)
  }

  lemma {:induction false} AppendAscends(dir: Direction, a: seq<Key>, b: seq<Key>)
    requires Ascends(dir, a) && Ascends(dir, b)
    requires a != [] ==> forall k :: k in b ==> Precedes(dir, a[|a| - 1], k)
    ensures Ascends(dir, a + b)
  {
    var s := a + b;
    forall i, j | 0 <= i < j < |s| ensures Precedes(dir, s[i], s[j]) {
      if i < |a| - 1 && j >= |a| {
        assert s[j] in b;
        PrecedesIsTransitive(dir, s[i], a[|a| - 1], s[j]);
      } else if i < |a| <= j {
        assert s[j] in b;
      }
    }
  }

  function Last(visited: seq<Key>): Option<Key> {
    if visited == [] then None else Some(visited[|visited| - 1])
  }

  lemma PageInOrder(q: Query, table: set<Key>, seen: set<Key>, visited: seq<Key>)
    requires Keyed(q.arity, table) && table <= seen && InOrder(q, seen, visited)
    ensures InOrder(q, seen, visited + First(Ordered(q.arity, q.dir, Matching(q, table, Last(visited))), q.limit))
  {
    var items := First(Ordered(q.arity, q.dir, Matching(q, table, Last(visited))), q.limit);
    AppendAscends(q.dir, visited, items);
  }

  /** A row that is kept and not visited yet matches the next query. */
  lemma KeptIsMatching(q: Query, kept: set<Key>, table: set<Key>, visited: seq<Key>)
    requires Keyed(q.arity, table) && kept <= table
    requires visited != [] ==> Covered(q, kept, visited, Some(EncodeCursor(visited[|visited| - 1])))
    ensures forall k :: k in kept && k !in visited ==> k in Ordered(q.arity, q.dir, Matching(q, table, Last(visited)))
  {
  }

  lemma PageCovers(q: Query, kept: set<Key>, rows: seq<Key>, visited: seq<Key>)
    requires q.limit >= 1 && Ascends(q.dir, rows) && forall k :: k in kept && k !in visited ==> k in rows
    ensures Covered(q, kept, visited + First(rows, q.limit), ToPage(First(rows, q.limit + 1), q.limit, q.cursorOf).nextCursor)
  {
    PageOfRows(rows, q.limit, q.cursorOf);
    var now := visited + First(rows, q.limit);
    forall k | k in kept && k !in now ensures |rows| > q.limit && Precedes(q.dir, now[|now| - 1], k) {
      var i := IndexOf(rows, k);
      FirstHas(rows, q.limit, i);
      assert now[|now| - 1] == rows[q.limit - 1];
    }
  }

  lemma FirstHas(rows: seq<Key>, n: nat, i: nat)
    requires i < |rows|
    ensures i < n ==> rows[i] in First(rows, n)
  {
    if i < n {
      assert First(rows, n)[i] == rows[i];
    }
  }

  lemma IndexOf(rows: seq<Key>, k: Key) returns (i: nat)
    requires k in rows
    ensures i < |rows| && rows[i] == k
  {
    i :| i < |rows| && rows[i] == k;
  }

  lemma PageStands(q: Query, rows: seq<Key>, seen: set<Key>, visited: seq<Key>, count: nat)
    requires q.limit >= 1 && Ascends(q.dir, rows) && forall k :: k in rows ==> k in seen
    requires |visited| == count * q.limit
    ensures Stands(q, seen, visited + First(rows, q.limit), ToPage(First(rows, q.limit + 1), q.limit, q.cursorOf).nextCursor, count + 1)
  {
    PageOfRows(rows, q.limit, q.cursorOf);
    if |rows| > q.limit {
      var now := visited + rows[..q.limit];
      assert rows[q.limit] in rows;
      assert now[|now| - 1] == rows[q.limit - 1];
      assert |now| == count * q.limit + q.limit == (count + 1) * q.limit;
    }
  }

  /** The cursor given after the last row visited selects what comes after that row. */
  lemma FetchedAfterLast(q: Query, table: set<Key>, seen: set<Key>, visited: seq<Key>, cursor: Option<Cursor>)
    requires Faithful(q, seen) && table <= seen
    requires if visited == [] then cursor.None? else
      && cursor == Some(EncodeCursor(q.cursorOf(visited[|visited| - 1])))
      && visited[|visited| - 1] in seen && HasNext(q.dir, seen, visited[|visited| - 1])
    ensures Fetch(q, table, cursor) ==
      Ok(ToPage(First(Ordered(q.arity, q.dir, Matching(q, table, Last(visited))), q.limit + 1), q.limit, q.cursorOf))
  {
    if visited == [] {
      FetchedPage(q, table, None);
    } else {
      var a := visited[|visited| - 1];
      FetchedPage(q, table, Some(q.cursorOf(a)));
      assert Matching(q, table, Some(q.cursorOf(a))) == Matching(q, table, Last(visited));
    }
  }

  /** One page further: the items of the page fetched after the last row visited. */
  lemma PageKeepsProgress(q: Query, kept: set<Key>, table: set<Key>, seen: set<Key>, visited: seq<Key>, cursor: Option<Cursor>,
                          count: nat, page: Page<Key>)
    requires Faithful(q, seen) && kept <= table <= seen
    requires if visited == [] then cursor.None? && count == 0 else Progress(q, kept, seen, visited, cursor, count) && cursor.Some?
    requires Fetch(q, table, cursor) == Ok(page)
    ensures Progress(q, kept, seen, visited + page.items, page.nextCursor, count + 1)
  {
    var rows := Ordered(q.arity, q.dir, Matching(q, table, Last(visited)));
    FetchedAfterLast(q, table, seen, visited, cursor);
    PageOfRows(rows, q.limit, q.cursorOf);
    PageInOrder(q, table, seen, visited);
    KeptIsMatching(q, kept, table, visited);
    PageCovers(q, kept, rows, visited);
    PageStands(q, rows, seen, visited, count);
  }

  /** All rows that were in the table at some page. */
  ghost function Seen(tables: seq<set<Key>>): (seen: set<Key>)
    ensures forall table :: table in tables ==> table <= seen
  {
    set table, k | table in tables && k in table :: k
  }

  lemma VisitedNext(pages: seq<Page<Key>>, n: nat)
    requires n < |pages|
    ensures Visited(pages[..n + 1]) == Visited(pages[..n]) + pages[n].items
  {
    assert pages[..n + 1][..n] == pages[..n];
  }

  /** What holds after each page of a traversal. */
  lemma {:induction false} ProgressAfter(q: Query, kept: set<Key>, seen: set<Key>, tables: seq<set<Key>>, pages: seq<Page<Key>>, n: nat)
    requires Faithful(q, seen) && Traversal(q, tables, pages) && n < |pages|
    requires forall i :: 0 <= i < |tables| ==> kept <= tables[i] <= seen
    ensures Progress(q, kept, seen, Visited(pages[..n + 1]), pages[n].nextCursor, n + 1)
  {
    VisitedNext(pages, n);
    assert PageAt(q, tables, pages, n);
    if n == 0 {
      PageKeepsProgress(q, kept, tables[0], seen, [], None, 0, pages[0]);
    } else {
      ProgressAfter(q, kept, seen, tables, pages, n - 1);
      PageKeepsProgress(q, kept, tables[n], seen, Visited(pages[..n]), pages[n - 1].nextCursor, n, pages[n]);
    }
  }

  lemma TraversalProgress(q: Query, kept: set<Key>, seen: set<Key>, tables: seq<set<Key>>, pages: seq<Page<Key>>)
    requires Faithful(q, seen) && Traversal(q, tables, pages)
    requires forall table :: table in tables ==> kept <= table <= seen
    ensures Progress(q, kept, seen, Visited(pages), pages[|pages| - 1].nextCursor, |pages|)
  {
    ProgressAfter(q, kept, seen, tables, pages, |pages| - 1);
    assert pages[..|pages|] == pages;
  }

  // ---- main results -----------------------------------------------------------------------------

  /** Cursors that name the whole sort key are faithful, whatever the rows. */
  lemma WholeKeyIsFaithful(q: Query, rows: set<Key>)
    requires q.limit >= 1 && Keyed(q.arity, rows) && forall k :: k in rows ==> q.cursorOf(k) == k
    ensures Faithful(q, rows)
  {
  }

  /** However the table changes between pages, no row is returned twice, and rows come in order. */
  lemma NothingTwice(q: Query, tables: seq<set<Key>>, pages: seq<Page<Key>>)
    requires Faithful(q, Seen(tables)) && Traversal(q, tables, pages)
    ensures Ascends(q.dir, Visited(pages))
    ensures forall i, j :: 0 <= i < j < |Visited(pages)| ==> Visited(pages)[i] != Visited(pages)[j]
  {
    TraversalProgress(q, {}, Seen(tables), tables, pages);
    forall i, j | 0 <= i < j < |Visited(pages)| ensures Visited(pages)[i] != Visited(pages)[j] {
      PrecedesIsTotal(q.dir, Visited(pages)[i], Visited(pages)[j]);
    }
  }

  /** Main result: a row present at every page of a complete traversal is returned exactly once. */
  lemma KeptRowsOnce(q: Query, tables: seq<set<Key>>, pages: seq<Page<Key>>, k: Key)
    requires Faithful(q, Seen(tables)) && Traversal(q, tables, pages) && Complete(pages)
    requires forall table :: table in tables ==> k in table
    ensures multiset(Visited(pages))[k] == 1
  {
    TraversalProgress(q, {k}, Seen(tables), tables, pages);
    NothingTwice(q, tables, pages);
    OnceInDistinct(Visited(pages), k);
  }

  lemma {:induction false} OnceInDistinct(s: seq<Key>, k: Key)
    requires k in s && forall i, j :: 0 <= i < j < |s| ==> s[i] != s[j]
    ensures multiset(s)[k] == 1
  {
    assert s == [s[0]] + s[1..];
    if s[0] != k {
      OnceInDistinct(s[1..], k);
    } else {
      assert k !in s[1..];
    }
  }

  ghost function Same(table: set<Key>, n: nat): (tables: seq<set<Key>>)
    ensures |tables| == n && forall t :: t in tables ==> t == table
  {
    seq(n, _ => table)
  }

  /** A traversal lists the table: what it returned is a prefix of the ordered rows, and all of them at the end. */
  ghost predicate Lists(q: Query, table: set<Key>, pages: seq<Page<Key>>)
    requires Keyed(q.arity, table)
  {
    && Visited(pages) <= Ordered(q.arity, q.dir, table)
    && (Complete(pages) ==> Visited(pages) == Ordered(q.arity, q.dir, table))
  }

  /** On a table that does not change the pages join to its ordered listing, and they are finitely many. */
  lemma FixedTable(q: Query, table: set<Key>, pages: seq<Page<Key>>)
    requires Faithful(q, table) && Traversal(q, Same(table, |pages|), pages)
    ensures Lists(q, table, pages)
    ensures !Complete(pages) ==> |pages| * q.limit < |table|
  {
    TraversalProgress(q, table, table, Same(table, |pages|), pages);
    PrefixOfListing(q, table, Visited(pages), pages[|pages| - 1].nextCursor, |pages|);
  }

  lemma PrefixOfListing(q: Query, table: set<Key>, visited: seq<Key>, cursor: Option<Cursor>, count: nat)
    requires Keyed(q.arity, table) && Progress(q, table, table, visited, cursor, count)
    ensures visited <= Ordered(q.arity, q.dir, table)
    ensures cursor.None? ==> visited == Ordered(q.arity, q.dir, table)
    ensures cursor.Some? ==> count * q.limit < |table|
  {
    var left := set k | k in table && k !in visited;
    var rest := Ordered(q.arity, q.dir, left);
    forall k | k in rest && visited != [] ensures Precedes(q.dir, visited[|visited| - 1], k) {
      assert k in left;
    }
    AppendAscends(q.dir, visited, rest);
    OrderIsUnique(q.dir, visited + rest, Ordered(q.arity, q.dir, table));
    if cursor.Some? {
      var k :| k in table && Precedes(q.dir, visited[|visited| - 1], k);
      NotVisited(q.dir, visited, k);
      assert k in left && k in rest;
    }
  }

  lemma NotVisited(dir: Direction, visited: seq<Key>, k: Key)
    requires Ascends(dir, visited) && visited != [] && Precedes(dir, visited[|visited| - 1], k)
    ensures k !in visited
  {
    forall i | 0 <= i < |visited| ensures visited[i] != k {
      PrecedesIsTotal(dir, visited[|visited| - 1], k);
      if i < |visited| - 1 && visited[i] == k {
        PrecedesIsTotal(dir, visited[i], visited[|visited| - 1]);
      }
    }
  }

  /** Every traversal of a fixed table can be followed to its end: no cursor it gives is refused. */
  lemma {:induction false} FollowToTheEnd(q: Query, table: set<Key>, begun: seq<Page<Key>>) returns (pages: seq<Page<Key>>)
    requires Faithful(q, table) && (begun == [] || Traversal(q, Same(table, |begun|), begun))
    ensures begun <= pages && Traversal(q, Same(table, |pages|), pages) && Complete(pages)
    decreases |table| - |begun| * q.limit + q.limit
  {
    if begun != [] {
      FixedTable(q, table, begun);
    }
    if Complete(begun) {
      pages := begun;
    } else {
      var page := NextPage(q, table, begun);
      assert (|begun| + 1) * q.limit == |begun| * q.limit + q.limit;
      if |table| < |begun| * q.limit + q.limit && page.nextCursor.Some? {
        FixedTable(q, table, begun + [page]);
        assert false;
      }
      if page.nextCursor.None? {
        pages := begun + [page];
      } else {
        pages := FollowToTheEnd(q, table, begun + [page]);
      }
    }
  }

  lemma AddPage(q: Query, table: set<Key>, begun: seq<Page<Key>>, page: Page<Key>)
    requires Keyed(q.arity, table) && !Complete(begun) && (begun == [] || Traversal(q, Same(table, |begun|), begun))
    requires Fetch(q, table, if begun == [] then None else begun[|begun| - 1].nextCursor) == Ok(page)
    ensures Traversal(q, Same(table, |begun| + 1), begun + [page])
  {
    var pages, tables := begun + [page], Same(table, |begun| + 1);
    forall i | 0 <= i < |pages| ensures PageAt(q, tables, pages, i) {
      if i < |begun| {
        assert PageAt(q, Same(table, |begun|), begun, i);
      }
    }
  }

  lemma NextPage(q: Query, table: set<Key>, begun: seq<Page<Key>>) returns (page: Page<Key>)
    requires Faithful(q, table) && !Complete(begun) && (begun == [] || Traversal(q, Same(table, |begun|), begun))
    ensures Traversal(q, Same(table, |begun| + 1), begun + [page])
  {
    var cursor := if begun == [] then None else begun[|begun| - 1].nextCursor;
    if begun == [] {
      FetchedAfterLast(q, table, table, [], None);
    } else {
      TraversalProgress(q, table, table, Same(table, |begun|), begun);
      FetchedAfterLast(q, table, table, Visited(begun), cursor);
    }
    page := Fetch(q, table, cursor).value;
    AddPage(q, table, begun, page);
  }

  // ---- which cursors are good enough ------------------------------------------------------------

  function WithLimit(q: Query, limit: nat): Query {
    q.(limit := limit)
  }

  /** The rows the cursor of a row selects, in order. */
  ghost function Rest(q: Query, table: set<Key>, a: Key): seq<Key>
    requires Keyed(q.arity, table)
  {
    Ordered(q.arity, q.dir, Matching(q, table, Some(q.cursorOf(a))))
  }

  lemma VisitedPair(first: Page<Key>, second: Page<Key>)
    ensures Visited([first, second]) == first.items + second.items
  {
    assert [first, second][..1] == [first] && [first][..0] == [];
    assert Visited([first]) == first.items;
  }

  lemma TwoPages(q: Query, table: set<Key>, first: Page<Key>, second: Page<Key>, a: Key)
    requires Keyed(q.arity, table) && |q.cursorOf(a)| == q.arity
    requires first == ToPage(First(Ordered(q.arity, q.dir, table), q.limit + 1), q.limit, q.cursorOf)
    requires first.nextCursor == Some(EncodeCursor(q.cursorOf(a)))
    requires second == ToPage(First(Rest(q, table, a), q.limit + 1), q.limit, q.cursorOf)
    ensures Traversal(q, Same(table, 2), [first, second])
  {
    FetchedPage(q, table, None);
    FetchedPage(q, table, Some(q.cursorOf(a)));
    AddPage(q, table, [], first);
    AddPage(q, table, [first], second);
    assert [] + [first] == [first] && [first] + [second] == [first, second];
  }

  lemma ListedNext(q: Query, table: set<Key>, pages: seq<Page<Key>>, front: seq<Key>, rest: seq<Key>)
    requires Keyed(q.arity, table) && Lists(q, table, pages)
    requires Visited(pages) == front + First(rest, q.limit) && q.limit >= 1
    requires |front| < |Ordered(q.arity, q.dir, table)| && (rest == [] ==> Complete(pages))
    ensures rest != [] && rest[0] == Ordered(q.arity, q.dir, table)[|front|]
  {
    if rest != [] {
      assert (front + First(rest, q.limit))[|front|] == rest[0];
    }
  }

  /** If the two pages list the table, the cursor of row i selects the rows from row i + 1 on. */
  lemma TwoPagesContinue(q: Query, table: set<Key>, i: nat)
    requires Keyed(q.arity, table) && q.limit == i + 1 < |Ordered(q.arity, q.dir, table)|
    requires |q.cursorOf(Ordered(q.arity, q.dir, table)[i])| == q.arity
    requires forall pages | Traversal(q, Same(table, |pages|), pages) :: Lists(q, table, pages)
    ensures var s := Ordered(q.arity, q.dir, table);
      Rest(q, table, s[i]) != [] && Rest(q, table, s[i])[0] == s[i + 1]
  {
    var s := Ordered(q.arity, q.dir, table);
    var rest := Rest(q, table, s[i]);
    PageOfRows(s, q.limit, q.cursorOf);
    PageOfRows(rest, q.limit, q.cursorOf);
    var first := ToPage(First(s, q.limit + 1), q.limit, q.cursorOf);
    var second := ToPage(First(rest, q.limit + 1), q.limit, q.cursorOf);
    TwoPages(q, table, first, second, s[i]);
    VisitedPair(first, second);
    ListedNext(q, table, [first, second], s[..i + 1], rest);
  }

  lemma ListingContinues(dir: Direction, s: seq<Key>, cursor: Key, rest: seq<Key>, i: nat, b: Key)
    requires Ascends(dir, s) && Ascends(dir, rest) && i + 1 < |s| && b in s
    requires forall k :: k in rest <==> k in s && Precedes(dir, cursor, k)
    requires rest != [] && rest[0] == s[i + 1]
    ensures Precedes(dir, cursor, b) <==> Precedes(dir, s[i], b)
  {
    assert rest[0] in rest;
    var j :| 0 <= j < |s| && s[j] == b;
    if j > i + 1 {
      PrecedesIsTransitive(dir, cursor, s[i + 1], b);
    } else if j <= i {
      assert j < i + 1 && Precedes(dir, s[j], s[i + 1]);
      PrecedesIsTotal(dir, b, s[i + 1]);
      PrecedesIsTotal(dir, b, s[i]);
      assert b !in rest;
    }
  }

  lemma ListsMakesFaithful(q: Query, table: set<Key>, a: Key)
    requires Keyed(q.arity, table) && a in table && |q.cursorOf(a)| == q.arity && HasNext(q.dir, table, a)
    requires forall limit: nat, pages | limit >= 1 && Traversal(WithLimit(q, limit), Same(table, |pages|), pages) ::
      Lists(WithLimit(q, limit), table, pages)
    ensures forall b :: b in table ==> (Precedes(q.dir, q.cursorOf(a), b) <==> Precedes(q.dir, a, b))
  {
    var s := Ordered(q.arity, q.dir, table);
    var i := IndexWithNext(q, table, a);
    TwoPagesContinue(WithLimit(q, i + 1), table, i);
    forall b | b in table ensures Precedes(q.dir, q.cursorOf(a), b) <==> Precedes(q.dir, a, b) {
      ListingContinues(q.dir, s, q.cursorOf(a), Rest(q, table, a), i, b);
    }
  }

  /** Main result: traversals of a table list it, at every page size, exactly when its cursors are faithful. */
  lemma TraversalsListIff(q: Query, table: set<Key>)
    requires Keyed(q.arity, table) && forall a :: a in table ==> |q.cursorOf(a)| == q.arity
    ensures Faithful(WithLimit(q, 1), table) <==>
      forall limit: nat, pages | limit >= 1 && Traversal(WithLimit(q, limit), Same(table, |pages|), pages) ::
        Lists(WithLimit(q, limit), table, pages)
  {
    if Faithful(WithLimit(q, 1), table) {
      forall limit: nat, pages | limit >= 1 && Traversal(WithLimit(q, limit), Same(table, |pages|), pages)
        ensures Lists(WithLimit(q, limit), table, pages)
      {
        FixedTable(WithLimit(q, limit), table, pages);
      }
    }
    if forall limit: nat, pages | limit >= 1 && Traversal(WithLimit(q, limit), Same(table, |pages|), pages) ::
        Lists(WithLimit(q, limit), table, pages) {
      forall a | a in table && HasNext(q.dir, table, a)
        ensures forall b :: b in table ==> (Precedes(q.dir, q.cursorOf(a), b) <==> Precedes(q.dir, a, b))
      {
        ListsMakesFaithful(q, table, a);
      }
    }
  }

  lemma IndexWithNext(q: Query, table: set<Key>, a: Key) returns (i: nat)
    requires Keyed(q.arity, table) && a in table && HasNext(q.dir, table, a)
    ensures i + 1 < |Ordered(q.arity, q.dir, table)| && Ordered(q.arity, q.dir, table)[i] == a
  {
    var s := Ordered(q.arity, q.dir, table);
    var c :| c in table && Precedes(q.dir, a, c);
    i := IndexOf(s, a);
    var j := IndexOf(s, c);
    NotBothWays(q.dir, s, i, j);
  }

  lemma NotBothWays(dir: Direction, s: seq<Key>, i: nat, j: nat)
    requires Ascends(dir, s) && i < |s| && j < |s| && Precedes(dir, s[i], s[j])
    ensures i < j
  {
    PrecedesIsTotal(dir, s[i], s[j]);
  }

  // ---- cursors made from dates ------------------------------------------------------------------

  /** (created_at, id), newest first: the column holds microseconds, toISOString writes milliseconds. */
  function ByCreation(limit: nat): Query {
    Query(2, Desc, limit, (k: Key) => if |k| == 2 then [k[0] - k[0] % 1000, k[1]] else k)
  }

  /**
   Rows of one millisecond are only continued correctly when the later ones in the listing have a time in
   whole milliseconds and a smaller id.
   */
  ghost predicate MillisecondsApart(table: set<Key>) {
    forall a, b :: a in table && b in table && |a| == 2 && Precedes(Desc, a, b) && a[0] / 1000 == b[0] / 1000 ==>
      b[0] % 1000 == 0 && b[1] < a[1]
  }

  lemma PairOrder(a: Key, b: Key)
    requires |a| == |b| == 2
    ensures Less(a, b) <==> a[0] < b[0] || (a[0] == b[0] && a[1] < b[1])
  {
    assert Less(a[1..], b[1..]) <==> a[1] < b[1];
  }

  lemma CreationCursor(a: Key, b: Key)
    requires |a| == |b| == 2
    ensures var cursor := [a[0] - a[0] % 1000, a[1]];
      && (Precedes(Desc, cursor, b) ==> Precedes(Desc, a, b))
      && (Precedes(Desc, a, b) ==>
        (Precedes(Desc, cursor, b) <==> a[0] / 1000 != b[0] / 1000 || (b[0] % 1000 == 0 && b[1] < a[1])))
  {
    PairOrder(b, a);
    PairOrder(b, [a[0] - a[0] % 1000, a[1]]);
  }

  /** Main result: listings by creation time return every row once, at every page size, exactly then. */
  lemma ByCreationListsIff(table: set<Key>)
    requires Keyed(2, table)
    ensures MillisecondsApart(table) <==>
      forall limit: nat, pages | limit >= 1 && Traversal(ByCreation(limit), Same(table, |pages|), pages) ::
        Lists(ByCreation(limit), table, pages)
  {
    var q := ByCreation(1);
    forall limit: nat ensures WithLimit(q, limit) == ByCreation(limit) {}
    forall a, b | a in table && b in table
      ensures HasNext(Desc, table, a) ==> ((Precedes(Desc, q.cursorOf(a), b) <==> Precedes(Desc, a, b)) <==>
        (Precedes(Desc, a, b) && a[0] / 1000 == b[0] / 1000 ==> b[0] % 1000 == 0 && b[1] < a[1]))
    {
      CreationCursor(a, b);
    }
    assert Faithful(q, table) <==> MillisecondsApart(table) by {
      forall a, b | a in table && b in table && Precedes(Desc, a, b) ensures HasNext(Desc, table, a) {}
    }
    TraversalsListIff(q, table);
  }

  /** Two rows saved in one millisecond, one row a page: the second page is the last and is empty. */
  lemma RowOfTheSameMillisecondSkipped()
    ensures var newer, older := [1002, 2], [1001, 1];
      exists pages :: Traversal(ByCreation(1), Same({newer, older}, |pages|), pages) && Complete(pages)
        && Visited(pages) == [newer]
  {
    var newer: Key, older: Key := [1002, 2], [1001, 1];
    var q, table := ByCreation(1), {newer, older};
    PairOrder(older, newer);
    OrderIsUnique(Desc, Ordered(2, Desc, table), [newer, older]);
    PairOrder(older, [1000, 2]);
    PairOrder(newer, [1000, 2]);
    assert Matching(q, table, Some(q.cursorOf(newer))) == {};
    PageOfRows([newer, older], 1, q.cursorOf);
    var first, second := ToPage(First([newer, older], 2), 1, q.cursorOf), ToPage([], 1, q.cursorOf);
    TwoPages(q, table, first, second, newer);
    VisitedPair(first, second);
    assert Same(table, |[first, second]|) == Same(table, 2);
  }
}
