/** Cursor paging over the durable deliveries (`list_pending_for_caller` of
    routes/outputs.py). A device asks for what it missed, in pages; each reply
    carries a cursor to send back. Instants stand for the texts the query compares;
    `Timestamps.TextOrderIsTimeOrder` says that this is the same comparison. */
module Paging {
  import opened Common

  datatype Row = Row(outputId: string, channel: string, delivered: bool, deliveredAt: int)

  datatype Principal = Device(id: string) | Master

  datatype Event = Event(outputId: string, deviceId: string, deliveredAt: int)

  function ChannelOf(deviceId: string): string {
    "device:" + deviceId
  }

  // ---------------------------------------------------------------------------
  // The query
  // ---------------------------------------------------------------------------

  /** WHERE channel = ? AND delivered = 1. */
  function Missed(table: seq<Row>, deviceId: string): seq<Row> {
    Filter(table, (r: Row) => r.channel == ChannelOf(deviceId) && r.delivered)
  }

  ghost predicate Ordered(rows: seq<Row>) {
    forall i, j :: 0 <= i < j < |rows| ==> rows[i].deliveredAt <= rows[j].deliveredAt
  }

  /** `rows` is what ORDER BY delivered_at makes of the table; SQL leaves the order
      of rows with the same instant open. */
  ghost predicate IsInOrder(table: seq<Row>, deviceId: string, rows: seq<Row>) {
    Ordered(rows) && multiset(rows) == multiset(Missed(table, deviceId))
  }

  /** AND delivered_at > ?. */
  function Later(rows: seq<Row>, since: int): seq<Row> {
    if rows == [] then []
    else (if rows[0].deliveredAt > since then [rows[0]] else []) + Later(rows[1..], since)
  }

  /** Without a cursor, every row. */
  function After(rows: seq<Row>, since: Option<int>): seq<Row> {
    if since.None? then rows else Later(rows, since.value)
  }

  /** LIMIT ?; a negative limit is none. */
  function Page(rows: seq<Row>, since: Option<int>, limit: int): (page: seq<Row>)
    ensures limit < 0 || |page| <= limit
  {
    var rest := After(rows, since);
    if limit < 0 || |rest| <= limit then rest else rest[..limit]
  }

  function EventOf(row: Row, deviceId: string): Event {
    Event(row.outputId, deviceId, row.deliveredAt)
  }

  function Events(rows: seq<Row>, deviceId: string): (events: seq<Event>)
    ensures |events| == |rows| && forall i :: 0 <= i < |rows| ==> events[i] == EventOf(rows[i], deviceId)
  {
    seq(|rows|, i requires 0 <= i < |rows| => EventOf(rows[i], deviceId))
  }

  /** The cursor a reply carries. */
  function Cursor(page: seq<Row>, since: Option<int>): Option<int> {
    if page == [] then since else Some(page[|page| - 1].deliveredAt)
  }

  /** `list_pending_for_caller`. */
  method ListPending(rows: seq<Row>, principal: Principal, since: Option<int>, limit: int)
    returns (events: seq<Event>, cursor: Option<int>)
    ensures principal.Master? ==> events == [] && cursor == since
    ensures principal.Device? ==>
      events == Events(Page(rows, since, limit), principal.id) && cursor == Cursor(Page(rows, since, limit), since)
  {
    events, cursor := [], since;
    if principal.Master? {
      return;
    }
    var page := Page(rows, since, limit);
    for i := 0 to |page|
      invariant events == Events(page[..i], principal.id)
      invariant cursor == Cursor(page[..i], since)
    {
      events := events + [Event(page[i].outputId, principal.id, page[i].deliveredAt)];
      cursor := Some(page[i].deliveredAt);
      assert page[..i + 1] == page[..i] + [page[i]];
    }
    assert page[..|page|] == page;
  }

  // ---------------------------------------------------------------------------
  // Following the cursor
  // ---------------------------------------------------------------------------

  lemma {:induction false} LaterIsNoLonger(rows: seq<Row>, since: int)
    ensures |Later(rows, since)| <= |rows|
  {
    if rows != [] {
      LaterIsNoLonger(rows[1..], since);
    }
  }

  lemma {:induction false} LaterShrinks(rows: seq<Row>, since: int, k: nat)
    requires k < |rows| && rows[k].deliveredAt <= since
    ensures |Later(rows, since)| < |rows|
  {
    LaterIsNoLonger(rows[1..], since);
    if k > 0 {
      LaterShrinks(rows[1..], since, k - 1);
    }
  }

  /** Rows at the front that are not after the cursor do not matter. */
  lemma {:induction false} LaterSkips(rows: seq<Row>, since: int, n: nat)
    requires n <= |rows| && forall i :: 0 <= i < n ==> rows[i].deliveredAt <= since
    ensures Later(rows, since) == Later(rows[n..], since)
  {
    if n == 0 {
      assert rows[0..] == rows;
    } else {
      assert rows[1..][n - 1..] == rows[n..];
      LaterSkips(rows[1..], since, n - 1);
    }
  }

  lemma {:induction false} LaterKeepsAll(rows: seq<Row>, since: int)
    requires forall i :: 0 <= i < |rows| ==> rows[i].deliveredAt > since
    ensures Later(rows, since) == rows
  {
    if rows != [] {
      LaterKeepsAll(rows[1..], since);
    }
  }

  lemma {:induction false} LaterTwice(rows: seq<Row>, first: int, second: int)
    requires first <= second
    ensures Later(Later(rows, first), second) == Later(rows, second)
  {
    if rows != [] {
      LaterTwice(rows[1..], first, second);
      var kept := Later(rows[1..], first);
      if rows[0].deliveredAt > first {
        assert ([rows[0]] + kept)[1..] == kept;
      } else {
        assert [] + kept == kept && Later(rows, first) == kept;
        assert [] + Later(rows[1..], second) == Later(rows[1..], second);
      }
    }
  }

  lemma {:induction false} LaterMember(rows: seq<Row>, since: int, row: Row)
    ensures row in Later(rows, since) <==> row in rows && row.deliveredAt > since
  {
    if rows != [] {
      LaterMember(rows[1..], since, row);
      assert rows == [rows[0]] + rows[1..];
    }
  }

  lemma {:induction false} LaterKeepsOrder(rows: seq<Row>, since: int)
    requires Ordered(rows)
    ensures Ordered(Later(rows, since))
  {
    if rows != [] {
      LaterKeepsOrder(rows[1..], since);
      forall r <- Later(rows[1..], since) ensures rows[0].deliveredAt <= r.deliveredAt {
        LaterMember(rows[1..], since, r);
      }
    }
  }

  /** A non-empty page moves the cursor past at least one row, so fewer remain. */
  lemma FewerRemain(rows: seq<Row>, limit: int)
    requires Page(rows, None, limit) != []
    ensures |After(rows, Cursor(Page(rows, None, limit), None))| < |rows|
  {
    var page := Page(rows, None, limit);
    LaterShrinks(rows, page[|page| - 1].deliveredAt, |page| - 1);
  }

  /** The cursor moves strictly forward, and strictly fewer rows are left. */
  lemma CursorAdvances(rows: seq<Row>, since: Option<int>, limit: int)
    requires Page(rows, since, limit) != []
    ensures var cursor := Cursor(Page(rows, since, limit), since);
      && cursor.Some? && (since.Some? ==> since.value < cursor.value)
      && After(rows, cursor) == After(After(rows, since), cursor)
      && |After(rows, cursor)| < |After(rows, since)|
  {
    var page := Page(rows, since, limit);
    var last := page[|page| - 1];
    assert last == After(rows, since)[|page| - 1];
    if since.Some? {
      LaterMember(rows, since.value, last);
      LaterTwice(rows, since.value, last.deliveredAt);
    }
    LaterShrinks(After(rows, since), last.deliveredAt, |page| - 1);
  }

  /** Everything a device gets from `since` on when it sends each returned cursor
      back until a page is empty. Every request is answered from the whole table;
      the rows after the cursor are the measure that ends it. */
  function Visited(rows: seq<Row>, since: Option<int>, limit: int): seq<Row>
    requires limit != 0
    decreases |After(rows, since)|
  {
    var page := Page(rows, since, limit);
    if page == [] then []
    else
      CursorAdvances(rows, since, limit);
      page + Visited(rows, Cursor(page, since), limit)
  }

  /** The same rows, cut off from the front of what is left. */
  function Walk(rows: seq<Row>, limit: int): seq<Row>
    requires limit != 0
    decreases |rows|
  {
    var page := Page(rows, None, limit);
    if page == [] then []
    else
      FewerRemain(rows, limit);
      page + Walk(After(rows, Cursor(page, None)), limit)
  }

  lemma {:induction false} VisitedIsWalk(rows: seq<Row>, since: Option<int>, limit: int)
    requires limit != 0
    ensures Visited(rows, since, limit) == Walk(After(rows, since), limit)
    decreases |After(rows, since)|
  {
    var page := Page(rows, since, limit);
    assert page == Page(After(rows, since), None, limit);
    if page != [] {
      CursorAdvances(rows, since, limit);
      VisitedIsWalk(rows, Cursor(page, since), limit);
    }
  }

  /** After the first page, what follows its last instant. */
  lemma WalkUnfolds(rows: seq<Row>, limit: int)
    requires 0 < limit < |rows| && Ordered(rows)
    ensures Walk(rows, limit) == rows[..limit] + Walk(Later(rows[limit..], rows[limit - 1].deliveredAt), limit)
  {
    var page := Page(rows, None, limit);
    assert page == rows[..limit] && page[|page| - 1] == rows[limit - 1];
    LaterSkips(rows, rows[limit - 1].deliveredAt, limit);
    assert After(rows, Cursor(page, None)) == Later(rows[limit..], rows[limit - 1].deliveredAt);
  }

  lemma {:induction false} WalkInOnePage(rows: seq<Row>, limit: int)
    requires limit != 0 && Ordered(rows) && (limit < 0 || |rows| <= limit)
    ensures Walk(rows, limit) == rows
  {
    if rows != [] {
      NothingAfterLast(rows);
      assert Walk([], limit) == [];
    }
  }

  lemma {:induction false} NothingAfterLast(rows: seq<Row>)
    requires rows != [] && Ordered(rows)
    ensures Later(rows, rows[|rows| - 1].deliveredAt) == []
  {
    LaterSkips(rows, rows[|rows| - 1].deliveredAt, |rows|);
    assert rows[|rows|..] == [];
  }

  lemma {:induction false} WalkIsNoLonger(rows: seq<Row>, limit: int)
    requires limit != 0 && Ordered(rows)
    ensures |Walk(rows, limit)| <= |rows|
    decreases |rows|
  {
    if limit < 0 || |rows| <= limit {
      WalkInOnePage(rows, limit);
    } else {
      var c := rows[limit - 1].deliveredAt;
      WalkUnfolds(rows, limit);
      LaterIsNoLonger(rows[limit..], c);
      LaterKeepsOrder(rows[limit..], c);
      WalkIsNoLonger(Later(rows[limit..], c), limit);
    }
  }

  // ---------------------------------------------------------------------------
  // When paging is complete
  // ---------------------------------------------------------------------------

  /** Cut into pages of `limit` rows, no page ends on a tie with the next one. */
  predicate CleanBoundaries(rows: seq<Row>, limit: int)
    requires limit != 0
  {
    0 < limit < |rows| ==>
      rows[limit - 1].deliveredAt != rows[limit].deliveredAt && CleanBoundaries(rows[limit..], limit)
  }

  lemma {:induction false} WalkCompleteIffClean(rows: seq<Row>, limit: int)
    requires limit != 0 && Ordered(rows)
    ensures Walk(rows, limit) == rows <==> CleanBoundaries(rows, limit)
    decreases |rows|
  {
    if limit < 0 || |rows| <= limit {
      WalkInOnePage(rows, limit);
    } else if rows[limit - 1].deliveredAt == rows[limit].deliveredAt {
      TieIsSkipped(rows, limit);
    } else {
      WalkCompleteIffClean(rows[limit..], limit);
      NoTieNoLoss(rows, limit);
    }
  }

  lemma TieIsSkipped(rows: seq<Row>, limit: int)
    requires 0 < limit < |rows| && Ordered(rows) && rows[limit - 1].deliveredAt == rows[limit].deliveredAt
    ensures |Walk(rows, limit)| < |rows|
  {
    var c, rest := rows[limit - 1].deliveredAt, rows[limit..];
    WalkUnfolds(rows, limit);
    LaterShrinks(rest, c, 0);
    LaterKeepsOrder(rest, c);
    WalkIsNoLonger(Later(rest, c), limit);
  }

  lemma NoTieNoLoss(rows: seq<Row>, limit: int)
    requires 0 < limit < |rows| && Ordered(rows) && rows[limit - 1].deliveredAt != rows[limit].deliveredAt
    ensures Walk(rows, limit) == rows <==> Walk(rows[limit..], limit) == rows[limit..]
  {
    WalkUnfolds(rows, limit);
    LaterKeepsAll(rows[limit..], rows[limit - 1].deliveredAt);
    SameTail(rows, limit, Walk(rows[limit..], limit));
  }

  lemma SameTail(rows: seq<Row>, n: nat, more: seq<Row>)
    requires n <= |rows|
    ensures rows[..n] + more == rows <==> more == rows[n..]
  {
    assert rows == rows[..n] + rows[n..];
    assert (rows[..n] + more)[n..] == more;
  }

  /** Paging shows every row of an ordered list, once and in order, exactly when no
      tie straddles a page boundary: a page whose last row ties with the next one
      makes the cursor skip that next row for good. */
  lemma CompleteIffBoundariesClean(rows: seq<Row>, limit: int)
    requires limit != 0 && Ordered(rows)
    ensures Visited(rows, None, limit) == rows <==> CleanBoundaries(rows, limit)
  {
    VisitedIsWalk(rows, None, limit);
    WalkCompleteIffClean(rows, limit);
  }

  /** The instants are pairwise distinct. */
  ghost predicate Distinct(rows: seq<Row>) {
    forall i, j :: 0 <= i < j < |rows| ==> rows[i].deliveredAt != rows[j].deliveredAt
  }

  lemma {:induction false} DistinctIsClean(rows: seq<Row>, limit: int)
    requires limit != 0 && Distinct(rows)
    ensures CleanBoundaries(rows, limit)
    decreases |rows|
  {
    if 0 < limit < |rows| {
      DistinctIsClean(rows[limit..], limit);
    }
  }

  lemma {:induction false} CleanByOneIsDistinct(rows: seq<Row>)
    requires Ordered(rows) && CleanBoundaries(rows, 1)
    ensures Distinct(rows)
  {
    if |rows| > 1 {
      CleanByOneIsDistinct(rows[1..]);
      forall i, j | 0 <= i < j < |rows| ensures rows[i].deliveredAt != rows[j].deliveredAt {
        if i > 0 { assert rows[i] == rows[1..][i - 1] && rows[j] == rows[1..][j - 1]; }
      }
    }
  }

  ghost predicate CompleteForEveryLimit(rows: seq<Row>) {
    forall limit :: limit != 0 ==> Visited(rows, None, limit) == rows
  }

  /** This row is for the device, and was delivered. */
  predicate IsFor(row: Row, deviceId: string) {
    row.channel == "device:" + deviceId && row.delivered
  }

  lemma MissedIsOwn(table: seq<Row>, deviceId: string, row: Row)
    ensures row in Missed(table, deviceId) <==> row in table && IsFor(row, deviceId)
  {
    FilterMember(table, (r: Row) => r.channel == ChannelOf(deviceId) && r.delivered, row);
  }

  lemma {:induction false} VisitedIsAmong(rows: seq<Row>, since: Option<int>, limit: int, row: Row)
    requires limit != 0 && row in Visited(rows, since, limit)
    ensures row in rows && (since.Some? ==> row.deliveredAt > since.value)
    decreases |After(rows, since)|
  {
    var page := Page(rows, since, limit);
    if row in page {
      assert row in After(rows, since);
      if since.Some? {
        LaterMember(rows, since.value, row);
      }
    } else {
      CursorAdvances(rows, since, limit);
      VisitedIsAmong(rows, Cursor(page, since), limit, row);
    }
  }

  /** Whatever the page size and the cursor it starts from, a device sees rows of its own
      channel only, delivered ones, and later than the cursor; and if the instants are
      distinct, from the beginning it sees all of those. */
  lemma DeviceSeesItsOwn(table: seq<Row>, deviceId: string, rows: seq<Row>, since: Option<int>, limit: int)
    requires IsInOrder(table, deviceId, rows) && limit != 0
    ensures forall row <- Visited(rows, since, limit) ::
      row in table && row.channel == "device:" + deviceId && row.delivered && (since.Some? ==> row.deliveredAt > since.value)
    ensures Distinct(rows) ==> forall row ::
      (row in Visited(rows, None, limit) <==> row in table && row.channel == "device:" + deviceId && row.delivered)
  {
    forall row: Row
      ensures row in rows <==> row in table && IsFor(row, deviceId)
    {
      assert row in rows <==> row in multiset(rows);
      assert row in Missed(table, deviceId) <==> row in multiset(Missed(table, deviceId));
      MissedIsOwn(table, deviceId, row);
    }
    forall row <- Visited(rows, since, limit)
      ensures row in table && IsFor(row, deviceId) && (since.Some? ==> row.deliveredAt > since.value)
    {
      VisitedIsAmong(rows, since, limit, row);
    }
    if Distinct(rows) {
      DistinctIsClean(rows, limit);
      CompleteIffBoundariesClean(rows, limit);
    }
  }

  /** The documented promise: over a fixed table, whatever order SQL gives to ties,
      a device that follows the cursors sees every delivered row of its own exactly
      once, in order, for every page size, exactly when the instants of those rows
      are pairwise distinct. */
  lemma PagingIsCompleteIffDistinct(table: seq<Row>, deviceId: string, rows: seq<Row>)
    requires IsInOrder(table, deviceId, rows)
    ensures CompleteForEveryLimit(rows) <==> Distinct(rows)
    ensures Distinct(rows) ==>
      forall limit :: limit != 0 ==> multiset(Visited(rows, None, limit)) == multiset(Missed(table, deviceId))
  {
    if Distinct(rows) {
      forall limit | limit != 0 ensures Visited(rows, None, limit) == rows {
        DistinctIsClean(rows, limit);
        CompleteIffBoundariesClean(rows, limit);
      }
    }
    if CompleteForEveryLimit(rows) {
      assert Visited(rows, None, 1) == rows;
      CompleteIffBoundariesClean(rows, 1);
      CleanByOneIsDistinct(rows);
    }
  }
}
