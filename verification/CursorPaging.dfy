/** The administrator's list of recording libraries, a page at a time: each page starts
    after the row that the cursor names. */
module CursorPaging {
  import opened Options

  datatype Row = Row(
    libraryId: string, createdAt: string, displayName: Option<string>, recordingTitles: seq<string>, recordingCount: nat)

  datatype Cursor = Cursor(createdAt: string, libraryId: string)

  /** How the platform compares texts, and how it lowers their case. */
  type Collation = (string, string) -> int

  type Lower = string -> string

  // ---- the filter ----

  predicate Includes(text: string, part: string) {
    part <= text || (|text| > 0 && Includes(text[1..], part))
  }

  predicate AnyTitle(titles: seq<string>, lower: Lower, query: string) {
    exists i :: 0 <= i < |titles| && Includes(lower(titles[i]), query)
  }

  predicate Matches(row: Row, lower: Lower, query: string) {
    || query == ""
    || Includes(lower(row.libraryId), query)
    || (row.displayName.Some? && Includes(lower(row.displayName.value), query))
    || AnyTitle(row.recordingTitles, lower, query)
  }

  function Filtered(rows: seq<Row>, lower: Lower, query: string): seq<Row> {
    if |rows| == 0 then []
    else (if Matches(rows[0], lower, query) then [rows[0]] else []) + Filtered(rows[1..], lower, query)
  }

  // ---- one page ----

  predicate After(cmp: Collation, row: Row, c: Cursor) {
    cmp(row.createdAt, c.createdAt) < 0 || (row.createdAt == c.createdAt && cmp(row.libraryId, c.libraryId) > 0)
  }

  function AfterCursor(cmp: Collation, rows: seq<Row>, cursor: Option<Cursor>): seq<Row> {
    if |rows| == 0 then []
    else
      (if cursor.None? || After(cmp, rows[0], cursor.value) then [rows[0]] else [])
      + AfterCursor(cmp, rows[1..], cursor)
  }

  function Take(rows: seq<Row>, n: nat): seq<Row> { if |rows| <= n then rows else rows[..n] }

  function CursorOf(row: Row): Cursor { Cursor(row.createdAt, row.libraryId) }

  function RecordingCount(rows: seq<Row>): nat {
    if |rows| == 0 then 0 else rows[0].recordingCount + RecordingCount(rows[1..])
  }

  datatype Page = Page(visible: seq<Row>, nextCursor: Option<Cursor>, hasMore: bool, totalCount: nat, totalRecordingCount: nat)

  function PageOf(cmp: Collation, filtered: seq<Row>, cursor: Option<Cursor>, limit: nat): Page
    requires limit >= 1
  {
    var page := Take(AfterCursor(cmp, filtered, cursor), limit + 1);
    var hasMore := |page| > limit;
    var visible := Take(page, limit);
    Page(visible, if hasMore && |visible| > 0 then Some(CursorOf(visible[|visible| - 1])) else None,
         hasMore, |filtered|, RecordingCount(filtered))
  }

  /** The limit parameter: cut to a whole number, kept within 1 to 200, and 50 if it is no
      finite number. */
  function ResolveLimit(parsed: Option<real>): (limit: nat)
    ensures 1 <= limit <= 200
    ensures parsed.None? ==> limit == 50
    ensures parsed.Some? && 1.0 <= parsed.value < 201.0 ==> limit as real <= parsed.value < (limit + 1) as real
    ensures parsed.Some? && parsed.value < 1.0 ==> limit == 1
    ensures parsed.Some? && parsed.value >= 201.0 ==> limit == 200
  {
    match parsed
    case None => 50
    case Some(x) =>
      var whole := if x < 0.0 then -((-x).Floor) else x.Floor;
      var most := if whole < 200 then whole else 200;
      if most > 1 then most else 1
  }

  // ---- cursors in and out ----

  datatype Json = JNumber(n: int) | JText(text: string) | JOther

  /** A cursor parameter: absent or empty, not a text, or a text with what it decodes to. */
  datatype Param =
    | Absent
    | NotText
    | Unreadable
    | Decoded(v: Json, query: Json, createdAt: Json, libraryId: Json)

  datatype CursorResult = NoCursor | Ok(cursor: Cursor) | Invalid

  function Encode(query: string, c: Cursor): Param {
    Decoded(JNumber(1), JText(query), JText(c.createdAt), JText(c.libraryId))
  }

  function Decode(p: Param, query: string): CursorResult {
    match p
    case Absent => NoCursor
    case NotText => Invalid
    case Unreadable => Invalid
    case Decoded(v, q, createdAt, libraryId) =>
      if v != JNumber(1) || q != JText(query) || !createdAt.JText? || !libraryId.JText? then Invalid
      else Ok(Cursor(createdAt.text, libraryId.text))
  }

  /** A cursor that the list gave out comes back as itself, for the query it was made for
      and no other; nothing else is taken for a cursor, and only a missing parameter for
      none. */
  lemma CursorRoundTrip(query: string, asked: string, c: Cursor, p: Param)
    ensures Decode(Encode(query, c), asked) == if query == asked then Ok(c) else Invalid
    ensures Decode(p, asked) == Ok(c) <==> p == Encode(asked, c)
    ensures Decode(p, asked) == NoCursor <==> p == Absent
  {}

  // ---- the filter in words ----

  predicate OccursAt(text: string, part: string, k: nat) {
    k + |part| <= |text| && text[k..k + |part|] == part
  }

  lemma {:induction false} IncludesIff(text: string, part: string)
    ensures Includes(text, part) <==> exists k :: OccursAt(text, part, k)
  {
    if part <= text {
      assert OccursAt(text, part, 0);
    } else if |text| > 0 {
      var tail := text[1..];
      IncludesIff(tail, part);
      forall k: nat | OccursAt(tail, part, k) ensures OccursAt(text, part, k + 1) {
        assert text[k + 1..k + 1 + |part|] == tail[k..k + |part|];
      }
      forall k: nat | OccursAt(text, part, k) ensures k > 0 && OccursAt(tail, part, k - 1) {
        assert text[k..k + |part|] == part;
        assert k > 0 ==> tail[k - 1..k - 1 + |part|] == text[k..k + |part|];
      }
    } else {
      assert forall k: nat :: !OccursAt(text, part, k);
    }
  }

  /** The texts of a row that a query looks into. */
  function Texts(row: Row): seq<string> {
    [row.libraryId] + (if row.displayName.Some? then [row.displayName.value] else []) + row.recordingTitles
  }

  predicate Mentions(row: Row, lower: Lower, query: string, i: nat, k: nat) {
    i < |Texts(row)| && OccursAt(lower(Texts(row)[i]), query, k)
  }

  /** A row matches exactly if the query is empty or occurs somewhere in one of its texts. */
  lemma MatchesIff(row: Row, lower: Lower, query: string)
    ensures Matches(row, lower, query) <==> query == "" || exists i, k :: Mentions(row, lower, query, i, k)
  {
    hide Includes;
    var texts := Texts(row);
    var names := [row.libraryId] + (if row.displayName.Some? then [row.displayName.value] else []);
    forall i | 0 <= i < |texts|
      ensures Includes(lower(texts[i]), query) <==> exists k :: OccursAt(lower(texts[i]), query, k)
    {
      IncludesIff(lower(texts[i]), query);
    }
    forall i: nat | i < |texts| && Includes(lower(texts[i]), query) ensures exists k :: Mentions(row, lower, query, i, k) {
      var k :| OccursAt(lower(texts[i]), query, k);
      assert Mentions(row, lower, query, i, k);
    }
    assert forall i :: 0 <= i < |row.recordingTitles| ==> texts[|names| + i] == row.recordingTitles[i];
    assert texts[0] == row.libraryId && (row.displayName.Some? ==> texts[1] == row.displayName.value);
    forall i: nat, k: nat | Mentions(row, lower, query, i, k) ensures Matches(row, lower, query) {
      assert i >= |names| ==> texts[i] == row.recordingTitles[i - |names|];
    }
  }

  // ---- following the cursors ----

  /** The rows are in the list's order, newest first, as the cursor test sees it. */
  ghost predicate Ordered(cmp: Collation, rows: seq<Row>) {
    forall i, j :: 0 <= i < |rows| && 0 <= j < |rows| ==> (After(cmp, rows[j], CursorOf(rows[i])) <==> i < j)
  }

  /** A comparison of texts that is a total order. */
  ghost predicate Lawful(cmp: Collation) {
    && (forall a, b :: cmp(a, b) == 0 <==> a == b)
    && (forall a, b :: cmp(a, b) < 0 <==> cmp(b, a) > 0)
    && (forall a, b, c :: cmp(a, b) < 0 && cmp(b, c) < 0 ==> cmp(a, c) < 0)
  }

  predicate Newer(cmp: Collation, a: Row, b: Row) {
    || cmp(a.createdAt, b.createdAt) > 0
    || (a.createdAt == b.createdAt && cmp(a.libraryId, b.libraryId) < 0)
  }

  /** The rows are newest first, and those of one moment by their names. */
  ghost predicate NewestFirst(cmp: Collation, rows: seq<Row>) {
    forall i, j :: 0 <= i < j < |rows| ==> Newer(cmp, rows[i], rows[j])
  }

  lemma AfterIffNewer(cmp: Collation, a: Row, b: Row)
    requires Lawful(cmp)
    ensures After(cmp, b, CursorOf(a)) <==> Newer(cmp, a, b)
    ensures !(Newer(cmp, a, b) && Newer(cmp, b, a))
    ensures !Newer(cmp, a, a)
  {
  }

  /** Under a total order the cursor test sees the rows in order exactly if they are newest
      first. */
  lemma OrderedIffNewestFirst(cmp: Collation, rows: seq<Row>)
    requires Lawful(cmp)
    ensures Ordered(cmp, rows) <==> NewestFirst(cmp, rows)
  {
    hide Newer, After, Lawful;
    forall i, j | 0 <= i < |rows| && 0 <= j < |rows|
      ensures After(cmp, rows[j], CursorOf(rows[i])) <==> Newer(cmp, rows[i], rows[j])
      ensures !(Newer(cmp, rows[i], rows[j]) && Newer(cmp, rows[j], rows[i]))
      ensures !Newer(cmp, rows[i], rows[i])
    {
      AfterIffNewer(cmp, rows[i], rows[j]);
    }
  }

  lemma AfterIsTransitive(cmp: Collation, a: Cursor, b: Row, c: Row)
    requires Lawful(cmp) && After(cmp, b, a) && After(cmp, c, CursorOf(b))
    ensures After(cmp, c, a)
  {
    assert cmp(b.libraryId, a.libraryId) > 0 ==> cmp(a.libraryId, b.libraryId) < 0;
    assert cmp(c.libraryId, b.libraryId) > 0 ==> cmp(b.libraryId, c.libraryId) < 0;
  }

  lemma {:induction false} FilterKeepsOrder(cmp: Collation, rows: seq<Row>, lower: Lower, query: string)
    requires Ordered(cmp, rows)
    ensures Ordered(cmp, Filtered(rows, lower, query))
    ensures forall x :: x in Filtered(rows, lower, query) <==> x in rows && Matches(x, lower, query)
  {
    if |rows| > 0 {
      var tail, rest := rows[1..], Filtered(rows[1..], lower, query);
      assert forall i :: 0 <= i < |tail| ==> tail[i] == rows[i + 1];
      FilterKeepsOrder(cmp, tail, lower, query);
      assert rows == [rows[0]] + tail;
      if Matches(rows[0], lower, query) {
        forall x | x in rest ensures After(cmp, x, CursorOf(rows[0])) && !After(cmp, rows[0], CursorOf(x)) {
          var i :| 0 <= i < |tail| && tail[i] == x;
          assert rows[i + 1] == x;
        }
        OrderedAfterHead(cmp, rows[0], rest);
      }
    }
  }

  lemma OrderedAfterHead(cmp: Collation, head: Row, rest: seq<Row>)
    requires Ordered(cmp, rest) && !After(cmp, head, CursorOf(head))
    requires forall x :: x in rest ==> After(cmp, x, CursorOf(head)) && !After(cmp, head, CursorOf(x))
    ensures Ordered(cmp, [head] + rest)
  {
    var all := [head] + rest;
    forall i, j | 0 <= i < |all| && 0 <= j < |all| ensures After(cmp, all[j], CursorOf(all[i])) <==> i < j {
      if i > 0 {
        assert all[i] == rest[i - 1] && all[i] in rest;
      }
      if j > 0 {
        assert all[j] == rest[j - 1] && all[j] in rest;
      }
    }
  }

  /** In an ordered list the cursor of row `k` cuts off exactly the first `k + 1` rows. */
  lemma {:induction false} CursorCutsHere(cmp: Collation, rows: seq<Row>, k: nat, from: nat)
    requires Ordered(cmp, rows) && k < |rows| && from <= |rows|
    ensures AfterCursor(cmp, rows[from..], Some(CursorOf(rows[k]))) == rows[if from > k then from else k + 1..]
    decreases |rows| - from
  {
    if from < |rows| {
      CursorCutsHere(cmp, rows, k, from + 1);
      assert rows[from..][1..] == rows[from + 1..];
      assert rows[from..] == [rows[from]] + rows[from + 1..];
      assert After(cmp, rows[from], CursorOf(rows[k])) <==> k < from;
    }
  }

  lemma {:induction false} NoCursorCutsNothing(cmp: Collation, rows: seq<Row>)
    ensures AfterCursor(cmp, rows, None) == rows
  {
    if |rows| > 0 {
      NoCursorCutsNothing(cmp, rows[1..]);
      assert rows == [rows[0]] + rows[1..];
    }
  }

  /** The rows that are left after the first `done`, and the cursor to ask for them. */
  function CursorAt(rows: seq<Row>, done: nat): Option<Cursor>
    requires done <= |rows|
  {
    if done == 0 then None else Some(CursorOf(rows[done - 1]))
  }

  lemma PageAt(cmp: Collation, rows: seq<Row>, done: nat, limit: nat)
    requires Ordered(cmp, rows) && done <= |rows| && limit >= 1
    ensures var p := PageOf(cmp, rows, CursorAt(rows, done), limit);
            var end := if done + limit < |rows| then done + limit else |rows|;
            && p.visible == rows[done..end]
            && p.nextCursor == (if end < |rows| then Some(CursorOf(rows[end - 1])) else None)
            && (p.hasMore <==> end < |rows|)
  {
    hide AfterCursor, Ordered, RecordingCount;
    if done == 0 {
      NoCursorCutsNothing(cmp, rows);
      assert rows[0..] == rows;
    } else {
      CursorCutsHere(cmp, rows, done - 1, 0);
      assert rows[0..] == rows;
    }
    var left := AfterCursor(cmp, rows, CursorAt(rows, done));
    assert left == rows[done..];
    var page := Take(left, limit + 1);
    assert Take(page, limit) == Take(left, limit);
    var end := if done + limit < |rows| then done + limit else |rows|;
    assert Take(left, limit) == rows[done..end];
    assert end > done ==> rows[done..end][end - done - 1] == rows[end - 1];
  }

  /** Ask for a page, follow its cursor, and so on until there is none. */
  function Follow(cmp: Collation, rows: seq<Row>, cursor: Option<Cursor>, limit: nat, pages: nat): seq<Row>
    requires limit >= 1
    decreases pages
  {
    if pages == 0 then []
    else
      var p := PageOf(cmp, rows, cursor, limit);
      p.visible + (if p.nextCursor.None? then [] else Follow(cmp, rows, p.nextCursor, limit, pages - 1))
  }

  lemma {:induction false} FollowYieldsTheRest(cmp: Collation, rows: seq<Row>, done: nat, limit: nat, pages: nat)
    requires Ordered(cmp, rows) && done <= |rows| && limit >= 1 && pages > |rows| - done
    ensures Follow(cmp, rows, CursorAt(rows, done), limit, pages) == rows[done..]
    decreases pages
  {
    hide PageOf, Ordered;
    PageAt(cmp, rows, done, limit);
    var end := if done + limit < |rows| then done + limit else |rows|;
    if end < |rows| {
      assert CursorAt(rows, end) == Some(CursorOf(rows[end - 1]));
      FollowYieldsTheRest(cmp, rows, end, limit, pages - 1);
      assert rows[done..end] + rows[end..] == rows[done..];
    }
  }

  /** Following the cursors from the first page yields every matching row exactly once, in
      order: the filtered list itself. */
  lemma FollowingYieldsTheFilteredList(cmp: Collation, rows: seq<Row>, lower: Lower, query: string, limit: nat, pages: nat)
    requires Ordered(cmp, rows) && limit >= 1 && pages > |rows|
    ensures Follow(cmp, Filtered(rows, lower, query), None, limit, pages) == Filtered(rows, lower, query)
  {
    FilterKeepsOrder(cmp, rows, lower, query);
    FilterIsShorter(rows, lower, query);
    var f := Filtered(rows, lower, query);
    FollowYieldsTheRest(cmp, f, 0, limit, pages);
    assert f[0..] == f;
  }

  lemma {:induction false} CountOfRow(rows: seq<Row>, k: nat)
    requires k < |rows|
    ensures RecordingCount(rows) == RecordingCount(rows[..k]) + rows[k].recordingCount + RecordingCount(rows[k + 1..])
  {
    if k > 0 {
      CountOfRow(rows[1..], k - 1);
      assert rows[..k][1..] == rows[1..][..k - 1] && rows[1..][k..] == rows[k + 1..];
    }
  }

  /** The totals on every page, whatever its cursor, are those of all that following the
      cursors yields. */
  lemma TotalsCountWhatFollows(cmp: Collation, rows: seq<Row>, lower: Lower, query: string, limit: nat, pages: nat,
                               cursor: Option<Cursor>)
    requires Ordered(cmp, rows) && limit >= 1 && pages > |rows|
    ensures var f := Filtered(rows, lower, query);
            var all := Follow(cmp, f, None, limit, pages);
            var p := PageOf(cmp, f, cursor, limit);
            p.totalCount == |all| && p.totalRecordingCount == RecordingCount(all)
  {
    FollowingYieldsTheFilteredList(cmp, rows, lower, query, limit, pages);
  }

  lemma {:induction false} FilterIsShorter(rows: seq<Row>, lower: Lower, query: string)
    ensures |Filtered(rows, lower, query)| <= |rows|
  {
    if |rows| > 0 {
      FilterIsShorter(rows[1..], lower, query);
    }
  }

  // ---- a list that changes between the pages ----

  /** One page from each list in turn, while there is a cursor. */
  function Walk(cmp: Collation, lists: seq<seq<Row>>, cursor: Option<Cursor>, limit: nat): seq<Page>
    requires limit >= 1
  {
    if |lists| == 0 then []
    else
      var p := PageOf(cmp, lists[0], cursor, limit);
      [p] + (if p.nextCursor.None? then [] else Walk(cmp, lists[1..], p.nextCursor, limit))
  }

  predicate Past(cmp: Collation, row: Row, cursor: Option<Cursor>) {
    cursor.None? || After(cmp, row, cursor.value)
  }

  lemma {:induction false} AfterCursorRows(cmp: Collation, rows: seq<Row>, cursor: Option<Cursor>)
    requires Ordered(cmp, rows)
    ensures Ordered(cmp, AfterCursor(cmp, rows, cursor))
    ensures forall x :: x in AfterCursor(cmp, rows, cursor) <==> x in rows && Past(cmp, x, cursor)
  {
    if |rows| > 0 {
      var tail, rest := rows[1..], AfterCursor(cmp, rows[1..], cursor);
      assert forall i :: 0 <= i < |tail| ==> tail[i] == rows[i + 1];
      AfterCursorRows(cmp, tail, cursor);
      assert rows == [rows[0]] + tail;
      if Past(cmp, rows[0], cursor) {
        forall x | x in rest ensures After(cmp, x, CursorOf(rows[0])) && !After(cmp, rows[0], CursorOf(x)) {
          var i :| 0 <= i < |tail| && tail[i] == x;
          assert rows[i + 1] == x;
        }
        OrderedAfterHead(cmp, rows[0], rest);
      }
    }
  }

  lemma PrefixHolds(cmp: Collation, rows: seq<Row>, i: nat, n: nat)
    requires Ordered(cmp, rows) && i < |rows| && n <= |rows|
    ensures rows[i] in rows[..n] <==> i < n
  {
    if i < n {
      assert rows[..n][i] == rows[i];
    } else {
      forall k | 0 <= k < n ensures rows[k] != rows[i] {
        assert After(cmp, rows[i], CursorOf(rows[k]));
        assert !After(cmp, rows[k], CursorOf(rows[k]));
      }
    }
  }

  lemma PageTakes(cmp: Collation, rows: seq<Row>, cursor: Option<Cursor>, limit: nat)
    requires limit >= 1
    ensures var left, p := AfterCursor(cmp, rows, cursor), PageOf(cmp, rows, cursor, limit);
            && p.visible == Take(left, limit)
            && p.nextCursor == if |left| > limit then Some(CursorOf(left[limit - 1])) else None
  {
    hide AfterCursor, RecordingCount;
    var left := AfterCursor(cmp, rows, cursor);
    assert Take(Take(left, limit + 1), limit) == Take(left, limit);
    assert |left| > limit ==> Take(left, limit)[limit - 1] == left[limit - 1];
  }

  /** What a page shows: the rows past its cursor that the next cursor does not leave over. */
  lemma PageShows(cmp: Collation, rows: seq<Row>, cursor: Option<Cursor>, limit: nat, x: Row)
    requires Ordered(cmp, rows) && limit >= 1 && x in rows
    ensures var p := PageOf(cmp, rows, cursor, limit);
            x in p.visible <==> Past(cmp, x, cursor) && !(p.nextCursor.Some? && Past(cmp, x, p.nextCursor))
  {
    AfterCursorRows(cmp, rows, cursor);
    PageTakes(cmp, rows, cursor, limit);
    var left := AfterCursor(cmp, rows, cursor);
    if x in left && |left| > limit {
      var i :| 0 <= i < |left| && left[i] == x;
      assert After(cmp, left[i], CursorOf(left[limit - 1])) <==> limit - 1 < i;
      PrefixHolds(cmp, left, i, limit);
    }
  }

  /** A row that the cursor has left behind stays behind. */
  lemma BehindStaysBehind(cmp: Collation, rows: seq<Row>, cursor: Option<Cursor>, limit: nat, x: Row)
    requires Lawful(cmp) && Ordered(cmp, rows) && limit >= 1 && !Past(cmp, x, cursor)
    ensures var next := PageOf(cmp, rows, cursor, limit).nextCursor;
            next.Some? ==> !Past(cmp, x, next)
  {
    AfterCursorRows(cmp, rows, cursor);
    PageTakes(cmp, rows, cursor, limit);
    var left := AfterCursor(cmp, rows, cursor);
    if |left| > limit {
      assert left[limit - 1] in left;
      if After(cmp, x, CursorOf(left[limit - 1])) {
        AfterIsTransitive(cmp, cursor.value, left[limit - 1], x);
      }
    }
  }

  function PagesShowing(pages: seq<Page>, x: Row): nat {
    if |pages| == 0 then 0 else (if x in pages[0].visible then 1 else 0) + PagesShowing(pages[1..], x)
  }

  ghost predicate AllOrdered(cmp: Collation, lists: seq<seq<Row>>) {
    forall i :: 0 <= i < |lists| ==> Ordered(cmp, lists[i])
  }

  lemma {:induction false} BehindIsNotShown(cmp: Collation, lists: seq<seq<Row>>, cursor: Option<Cursor>, limit: nat, x: Row)
    requires Lawful(cmp) && AllOrdered(cmp, lists) && limit >= 1 && !Past(cmp, x, cursor)
    ensures PagesShowing(Walk(cmp, lists, cursor, limit), x) == 0
    decreases |lists|
  {
    hide RecordingCount, Ordered, After, AfterCursor;
    if |lists| > 0 {
      var p := PageOf(cmp, lists[0], cursor, limit);
      PageTakes(cmp, lists[0], cursor, limit);
      AfterCursorRows(cmp, lists[0], cursor);
      assert x !in p.visible;
      if p.nextCursor.Some? {
        BehindStaysBehind(cmp, lists[0], cursor, limit, x);
        BehindIsNotShown(cmp, lists[1..], p.nextCursor, limit, x);
        assert Walk(cmp, lists, cursor, limit)[1..] == Walk(cmp, lists[1..], p.nextCursor, limit);
      }
    }
  }

  lemma PageFacts(cmp: Collation, rows: seq<Row>, cursor: Option<Cursor>, limit: nat, x: Row)
    requires Ordered(cmp, rows) && limit >= 1
    ensures var p := PageOf(cmp, rows, cursor, limit);
            && (x in p.visible ==> x in rows && Past(cmp, x, cursor))
            && (x in p.visible && p.nextCursor.Some? ==> !Past(cmp, x, p.nextCursor))
            && (x in rows && Past(cmp, x, cursor) && !(p.nextCursor.Some? && Past(cmp, x, p.nextCursor)) ==> x in p.visible)
  {
    PageTakes(cmp, rows, cursor, limit);
    AfterCursorRows(cmp, rows, cursor);
    if x in rows {
      PageShows(cmp, rows, cursor, limit, x);
    }
  }

  lemma WalkStep(cmp: Collation, lists: seq<seq<Row>>, cursor: Option<Cursor>, limit: nat, x: Row)
    requires |lists| > 0 && limit >= 1
    ensures var p, pages := PageOf(cmp, lists[0], cursor, limit), Walk(cmp, lists, cursor, limit);
            var rest := if p.nextCursor.None? then [] else Walk(cmp, lists[1..], p.nextCursor, limit);
            && pages == [p] + rest
            && PagesShowing(pages, x) == (if x in p.visible then 1 else 0) + PagesShowing(rest, x)
  {
    assert Walk(cmp, lists, cursor, limit)[1..]
        == if PageOf(cmp, lists[0], cursor, limit).nextCursor.None? then []
           else Walk(cmp, lists[1..], PageOf(cmp, lists[0], cursor, limit).nextCursor, limit);
  }

  /** However the list changes between the pages, no row is shown on two of them. */
  lemma {:induction false} ShownAtMostOnce(cmp: Collation, lists: seq<seq<Row>>, cursor: Option<Cursor>, limit: nat, x: Row)
    requires Lawful(cmp) && AllOrdered(cmp, lists) && limit >= 1
    ensures PagesShowing(Walk(cmp, lists, cursor, limit), x) <= 1
    decreases |lists|
  {
    hide PageOf, Ordered, After;
    if |lists| > 0 {
      WalkStep(cmp, lists, cursor, limit, x);
      PageFacts(cmp, lists[0], cursor, limit, x);
      var next := PageOf(cmp, lists[0], cursor, limit).nextCursor;
      if next.Some? {
        if Past(cmp, x, next) {
          ShownAtMostOnce(cmp, lists[1..], next, limit, x);
        } else {
          BehindIsNotShown(cmp, lists[1..], next, limit, x);
        }
      }
    }
  }

  /** And a row that is in the list each time is shown, once the pages have come to an end. */
  lemma {:induction false} LastingRowIsShown(cmp: Collation, lists: seq<seq<Row>>, cursor: Option<Cursor>, limit: nat, x: Row)
    requires AllOrdered(cmp, lists) && limit >= 1
    requires Past(cmp, x, cursor) && forall i :: 0 <= i < |lists| ==> x in lists[i]
    requires var pages := Walk(cmp, lists, cursor, limit); |pages| > 0 && pages[|pages| - 1].nextCursor.None?
    ensures PagesShowing(Walk(cmp, lists, cursor, limit), x) >= 1
    decreases |lists|
  {
    hide PageOf, Ordered, After;
    WalkStep(cmp, lists, cursor, limit, x);
    PageFacts(cmp, lists[0], cursor, limit, x);
    var pages, next := Walk(cmp, lists, cursor, limit), PageOf(cmp, lists[0], cursor, limit).nextCursor;
    if next.Some? && Past(cmp, x, next) {
      var rest := Walk(cmp, lists[1..], next, limit);
      assert |rest| > 0 ==> pages[|pages| - 1] == rest[|rest| - 1];
      LastingRowIsShown(cmp, lists[1..], next, limit, x);
    }
  }
}
