/** Page walks over a table that is written between the pages: newer messages arrive, and some are soft-deleted. */
module MessageWalks {
  import opened Messages
  import opened Prelude
  import opened Uuids

  /** The same messages row by row, some perhaps deleted since. */
  ghost predicate SameRows(a: seq<Row>, b: seq<Row>) {
    |a| == |b| && forall i | 0 <= i < |a| :: SameRow(a[i], b[i])
  }

  ghost predicate SameRow(a: Row, b: Row) {
    b.id == a.id && b.author == a.author && b.content == a.content && (a.deletedAt.Some? ==> b.deletedAt.Some?)
  }

  /** Newer rows in front, and soft deletes. */
  ghost predicate Written(a: seq<Row>, b: seq<Row>) {
    exists k: nat :: k <= |b| && SameRows(a, b[k..])
  }

  ghost predicate Evolves(tables: nat -> seq<Row>) {
    forall t: nat :: Descending(tables(t)) && Written(tables(t), tables(t + 1))
  }

  lemma {:induction false} SameOlder(a: seq<Row>, b: seq<Row>, before: Option<Uuid>)
    requires SameRows(a, b)
    ensures SameRows(Older(a, before), Older(b, before))
    decreases |a|
  {
    if a != [] && before.Some? && !Precedes(a[0].id, before.value) {
      assert SameRow(a[0], b[0]);
      var a', b' := a[1..], b[1..];
      assert forall i | 0 <= i < |a'| :: a'[i] == a[i + 1] && b'[i] == b[i + 1];
      SameOlder(a', b', before);
    }
  }

  /** What is older than a cursor taken from a page is the same rows in the next state, some perhaps deleted. */
  lemma CursorKeepsRows(tables: nat -> seq<Row>, t: nat, before: Option<Uuid>, limit: nat)
    requires Evolves(tables) && limit > 0
    requires ListPage(tables(t), before, limit).nextCursor.Some?
    ensures var cursor := ListPage(tables(t), before, limit).nextCursor;
      && SameRows(Older(tables(t), cursor), Older(tables(t + 1), cursor))
      && Older(tables(t), cursor) == Older(tables(t), before)[limit..]
      && |Older(tables(t), before)| > limit
  {
    hide ListPage, Live, FullWindow;
    var rest := Older(tables(t), before);
    var cursor := ListPage(tables(t), before, limit).nextCursor.value;
    assert Descending(tables(t)) && Descending(tables(t + 1)) && Written(tables(t), tables(t + 1));
    OlderDescends(tables(t), before);
    PageParts(tables(t), before, limit);
    OlderTwice(tables(t), before, cursor);
    OlderBelowFirst(tables(t), before);
    var k: nat :| k <= |tables(t + 1)| && SameRows(tables(t), tables(t + 1)[k..]);
    assert SameRow(tables(t)[0], tables(t + 1)[k..][0]);
    NewerRowsInvisible(tables(t + 1)[k..], tables(t + 1), cursor);
    SameOlder(tables(t), tables(t + 1)[k..], Some(cursor));
  }

  /** A page of a walk: what it shows, and for a page that continues, that it shows its first rows in full. */
  lemma PageParts(rows: seq<Row>, before: Option<Uuid>, limit: nat)
    requires Descending(rows) && limit > 0
    ensures var rest, page := Older(rows, before), ListPage(rows, before, limit);
      && (page.nextCursor.None? ==> page.messages == Live(Take(rest, limit + 1)))
      && (page.nextCursor.Some? ==>
            && |rest| > limit && page.messages == Live(rest[..limit]) && |Live(rest[..limit])| == limit
            && page.nextCursor.value == rest[limit - 1].id && Older(rest, page.nextCursor) == rest[limit..]
            && (before.Some? ==> Precedes(page.nextCursor.value, before.value)))
  {
    hide Older, Live;
    var rest := Older(rows, before);
    OlderDescends(rows, before);
    PageOf(rest, limit);
    if FullWindow(rest, limit) {
      FullPage(rest, limit);
      assert rest[limit - 1] in rest;
      assert Take(rest, limit + 1) == rest[..limit + 1];
    }
  }

  /** Following next_cursor while the table is written to: the k-th page is read in the k-th state. */
  function WalkThrough(tables: nat -> seq<Row>, t: nat, before: Option<Uuid>, limit: nat): seq<Message>
    requires Evolves(tables) && limit > 0
    decreases |Older(tables(t), before)|
  {
    var page := ListPage(tables(t), before, limit);
    if page.nextCursor.Some? then
      CursorKeepsRows(tables, t, before, limit);
      page.messages + WalkThrough(tables, t + 1, page.nextCursor, limit)
    else page.messages
  }

  lemma WalkStep(tables: nat -> seq<Row>, t: nat, before: Option<Uuid>, limit: nat)
    requires Evolves(tables) && limit > 0
    ensures var page := ListPage(tables(t), before, limit);
      WalkThrough(tables, t, before, limit) ==
        page.messages + if page.nextCursor.Some? then WalkThrough(tables, t + 1, page.nextCursor, limit) else []
  {
    hide ListPage, Evolves;
  }

  /** The ids of the live rows are those of the rows, in order. */
  lemma LiveIds(rows: seq<Row>)
    requires Descending(rows)
    ensures forall i, j | 0 <= i < j < |Live(rows)| :: Live(rows)[i].id > Live(rows)[j].id
    ensures forall j | 0 <= j < |Live(rows)| :: HasId(rows, Live(rows)[j].id)
  {
    hide Live;
    LiveDescends(rows);
    forall j | 0 <= j < |Live(rows)|
      ensures HasId(rows, Live(rows)[j].id)
    {
      var m := Live(rows)[j];
      assert m in Live(rows);
      var k :| 0 <= k < |rows| && rows[k].deletedAt.None? && rows[k].id == m.id;
    }
  }

  ghost predicate HasId(rows: seq<Row>, id: Uuid7) {
    exists k :: 0 <= k < |rows| && rows[k].id == id
  }

  ghost predicate IdsDescend(ms: seq<Message>) {
    forall i, j | 0 <= i < j < |ms| :: ms[i].id > ms[j].id
  }

  ghost predicate AllBefore(ms: seq<Message>, before: Option<Uuid>) {
    before.Some? ==> forall j | 0 <= j < |ms| :: Precedes(ms[j].id, before.value)
  }

  lemma PageDescends(rows: seq<Row>, before: Option<Uuid>, limit: nat)
    requires Descending(rows) && limit > 0
    ensures var page := ListPage(rows, before, limit);
      && IdsDescend(page.messages) && AllBefore(page.messages, before)
      && (page.nextCursor.Some? ==> forall j | 0 <= j < |page.messages| :: page.messages[j].id >= page.nextCursor.value)
  {
    hide Older, Live, ListPage, Precedes, IdsDescend;
    var n := ShownRows(rows, before, limit);
    OlderDescends(rows, before);
    PageParts(rows, before, limit);
    LiveIdsDescend(Older(rows, before)[..n]);
    forall j | 0 <= j < |ListPage(rows, before, limit).messages|
      ensures before.Some? ==> Precedes(ListPage(rows, before, limit).messages[j].id, before.value)
      ensures var cursor := ListPage(rows, before, limit).nextCursor;
        cursor.Some? ==> ListPage(rows, before, limit).messages[j].id >= cursor.value
    {
      AmongShown(Older(rows, before), n, ListPage(rows, before, limit).messages[j].id);
    }
  }

  /** How many rows a page is made from. */
  lemma ShownRows(rows: seq<Row>, before: Option<Uuid>, limit: nat) returns (n: nat)
    requires Descending(rows) && limit > 0
    ensures var rest, page := Older(rows, before), ListPage(rows, before, limit);
      n <= |rest| && page.messages == Live(rest[..n]) && (page.nextCursor.Some? ==> n == limit)
  {
    hide Older, Live, ListPage;
    var rest, page := Older(rows, before), ListPage(rows, before, limit);
    PageParts(rows, before, limit);
    n := if page.nextCursor.Some? then limit else if |rest| <= limit + 1 then |rest| else limit + 1;
    assert rest[..|rest|] == rest;
  }

  lemma AmongShown(rest: seq<Row>, n: nat, id: Uuid7)
    requires Descending(rest) && n <= |rest| && HasId(rest[..n], id)
    ensures n > 0 && id >= rest[n - 1].id && exists r :: r in rest && r.id == id
  {
    var k :| 0 <= k < n && rest[..n][k].id == id;
    assert rest[..n][k] == rest[k] && rest[k] in rest;
  }

  lemma LiveIdsDescend(rows: seq<Row>)
    requires Descending(rows)
    ensures IdsDescend(Live(rows)) && forall j | 0 <= j < |Live(rows)| :: HasId(rows, Live(rows)[j].id)
  {
    hide Live, HasId;
    LiveIds(rows);
  }

  /** No message is returned twice, and ids strictly descend. */
  lemma {:induction false} WalkThroughDescends(tables: nat -> seq<Row>, t: nat, before: Option<Uuid>, limit: nat)
    requires Evolves(tables) && limit > 0
    ensures IdsDescend(WalkThrough(tables, t, before, limit)) && AllBefore(WalkThrough(tables, t, before, limit), before)
    decreases |Older(tables(t), before)|
  {
    hide ListPage, Older;
    var page := ListPage(tables(t), before, limit);
    assert Descending(tables(t));
    PageDescends(tables(t), before, limit);
    WalkStep(tables, t, before, limit);
    if page.nextCursor.Some? {
      CursorKeepsRows(tables, t, before, limit);
      PageParts(tables(t), before, limit);
      hide WalkThrough;
      WalkThroughDescends(tables, t + 1, page.nextCursor, limit);
      Joined(page.messages, WalkThrough(tables, t + 1, page.nextCursor, limit), page.nextCursor.value, before);
    } else {
      assert page.messages + [] == page.messages;
    }
  }

  lemma Joined(a: seq<Message>, b: seq<Message>, cursor: Uuid7, before: Option<Uuid>)
    requires IdsDescend(a) && IdsDescend(b) && AllBefore(a, before) && AllBefore(b, Some(cursor))
    requires forall j | 0 <= j < |a| :: a[j].id >= cursor
    requires before.Some? ==> Precedes(cursor, before.value)
    ensures IdsDescend(a + b) && AllBefore(a + b, before)
  {
  }

  lemma PageIsLive(rows: seq<Row>, before: Option<Uuid>, limit: nat, m: Message)
    requires Descending(rows) && limit > 0 && m in ListPage(rows, before, limit).messages
    ensures m in Live(rows)
  {
    hide Older, Live, ListPage;
    var rest := Older(rows, before);
    var n := ShownRows(rows, before, limit);
    LiveSplit(rest, n);
    var k := OlderIsSuffix(rows, before);
    LiveSplit(rows, k);
  }

  /** Every message returned was live when its page was read. */
  lemma {:induction false} WalkThroughLive(tables: nat -> seq<Row>, t: nat, before: Option<Uuid>, limit: nat, m: Message)
    returns (u: nat)
    requires Evolves(tables) && limit > 0 && m in WalkThrough(tables, t, before, limit)
    ensures u >= t && m in Live(tables(u))
    decreases |Older(tables(t), before)|
  {
    hide ListPage, Older, Live;
    var page := ListPage(tables(t), before, limit);
    assert Descending(tables(t));
    WalkStep(tables, t, before, limit);
    if m in page.messages {
      u := t;
      PageIsLive(tables(t), before, limit, m);
    } else {
      CursorKeepsRows(tables, t, before, limit);
      u := WalkThroughLive(tables, t + 1, page.nextCursor, limit, m);
    }
  }

  /** Not deleted in this state. */
  ghost predicate LiveAt(rows: seq<Row>, id: Uuid7) {
    exists k :: 0 <= k < |rows| && rows[k].id == id && rows[k].deletedAt.None?
  }

  ghost predicate Returned(ms: seq<Message>, id: Uuid7) {
    exists j :: 0 <= j < |ms| && ms[j].id == id
  }

  lemma {:induction false} LiveReturned(rows: seq<Row>, i: nat)
    requires i < |rows| && rows[i].deletedAt.None?
    ensures Returned(Live(rows), rows[i].id)
    decreases |rows|
  {
    if i == 0 {
      assert Live(rows)[0].id == rows[0].id;
    } else {
      LiveReturned(rows[1..], i - 1);
      var j :| 0 <= j < |Live(rows[1..])| && Live(rows[1..])[j].id == rows[i].id;
      var skip := |Live(rows)| - |Live(rows[1..])|;
      assert Live(rows)[j + skip] == Live(rows[1..])[j];
    }
  }

  /** A live row that is older than the cursor is not deleted where Older finds it. */
  lemma LiveInOlder(rows: seq<Row>, before: Option<Uuid>, i: nat)
    requires Descending(rows) && i < |Older(rows, before)| && LiveAt(rows, Older(rows, before)[i].id)
    ensures Older(rows, before)[i].deletedAt.None?
  {
    hide Older;
    var k :| 0 <= k < |rows| && rows[k].id == Older(rows, before)[i].id && rows[k].deletedAt.None?;
    var n := OlderIsSuffix(rows, before);
    assert Older(rows, before)[i] == rows[n + i];
    SamePlace(rows, k, n + i);
  }

  lemma SamePlace(rows: seq<Row>, j: nat, k: nat)
    requires Descending(rows) && j < |rows| && k < |rows| && rows[j].id == rows[k].id
    ensures j == k
  {
  }

  lemma {:induction false} OlderIsSuffix(rows: seq<Row>, before: Option<Uuid>) returns (n: nat)
    ensures n <= |rows| && Older(rows, before) == rows[n..]
    decreases |rows|
  {
    n := 0;
    if before.Some? && rows != [] && !Precedes(rows[0].id, before.value) {
      n := OlderIsSuffix(rows[1..], before);
      n := n + 1;
    }
  }

  /** A live row among those a page shows is on the page. */
  lemma ShownIsReturned(rows: seq<Row>, before: Option<Uuid>, limit: nat, i: nat)
    requires Descending(rows) && limit > 0 && i < |Older(rows, before)| && LiveAt(rows, Older(rows, before)[i].id)
    requires i < if ListPage(rows, before, limit).nextCursor.Some? then limit else limit + 1
    ensures Returned(ListPage(rows, before, limit).messages, Older(rows, before)[i].id)
  {
    hide Older, Live, ListPage, LiveAt, Returned;
    var rest, page := Older(rows, before), ListPage(rows, before, limit);
    LiveInOlder(rows, before, i);
    PageParts(rows, before, limit);
    var shown := if page.nextCursor.Some? then rest[..limit] else Take(rest, limit + 1);
    assert shown[i] == rest[i];
    LiveReturned(shown, i);
  }

  /**
   Nothing in between is skipped: a message older than the starting cursor, at or above the last id
   returned, that is live in every state from the start of the walk on, is returned.
   */
  lemma {:induction false} WalkThroughSkipsNone(tables: nat -> seq<Row>, t: nat, before: Option<Uuid>, limit: nat, i: nat)
    requires Evolves(tables) && limit > 0 && i < |Older(tables(t), before)|
    requires forall u: nat | u >= t :: LiveAt(tables(u), Older(tables(t), before)[i].id)
    requires var ms := WalkThrough(tables, t, before, limit);
             ms != [] && Older(tables(t), before)[i].id >= ms[|ms| - 1].id
    ensures Returned(WalkThrough(tables, t, before, limit), Older(tables(t), before)[i].id)
    decreases |Older(tables(t), before)|
  {
    hide ListPage, LiveAt, Older, Returned, IdsDescend, AllBefore;
    var rest, page := Older(tables(t), before), ListPage(tables(t), before, limit);
    var id := rest[i].id;
    assert Descending(tables(t));
    assert LiveAt(tables(t), id);
    WalkStep(tables, t, before, limit);
    OlderDescends(tables(t), before);
    PageParts(tables(t), before, limit);
    if page.nextCursor.None? {
      if i <= limit {
        ShownIsReturned(tables(t), before, limit, i);
      } else {
        BelowThePage(tables(t), before, limit, i);
      }
      assert page.messages + [] == page.messages;
    } else {
      CursorKeepsRows(tables, t, before, limit);
      var more := WalkThrough(tables, t + 1, page.nextCursor, limit);
      if i < limit {
        ShownIsReturned(tables(t), before, limit, i);
        ReturnedByEither(page.messages, more, id);
      } else {
        RowCarriesOn(tables, t, before, limit, i);
        PageDescends(tables(t), before, limit);
        WalkThroughSkipsNone(tables, t + 1, page.nextCursor, limit, i - limit);
        ReturnedByEither(page.messages, more, id);
      }
    }
  }

  /** A row below a page is among the rows the next page starts from, and below the cursor. */
  lemma RowCarriesOn(tables: nat -> seq<Row>, t: nat, before: Option<Uuid>, limit: nat, i: nat)
    requires Evolves(tables) && 0 < limit <= i < |Older(tables(t), before)|
    requires ListPage(tables(t), before, limit).nextCursor.Some?
    ensures var rest, cursor := Older(tables(t), before), ListPage(tables(t), before, limit).nextCursor;
            var next := Older(tables(t + 1), cursor);
      i - limit < |next| && next[i - limit].id == rest[i].id && cursor.value > rest[i].id
  {
    hide ListPage, Older;
    var rest, cursor := Older(tables(t), before), ListPage(tables(t), before, limit).nextCursor;
    assert Descending(tables(t));
    OlderDescends(tables(t), before);
    PageParts(tables(t), before, limit);
    CursorKeepsRows(tables, t, before, limit);
    assert SameRow(rest[limit..][i - limit], Older(tables(t + 1), cursor)[i - limit]);
  }

  lemma ReturnedByEither(a: seq<Message>, b: seq<Message>, id: Uuid7)
    requires Returned(a, id) || Returned(b, id)
    ensures Returned(a + b, id)
  {
    if Returned(a, id) {
      var j :| 0 <= j < |a| && a[j].id == id;
      assert (a + b)[j] == a[j];
    } else {
      var j :| 0 <= j < |b| && b[j].id == id;
      assert (a + b)[|a| + j] == b[j];
    }
  }

  /** A row beyond the window of a last page is below everything the page shows. */
  lemma BelowThePage(rows: seq<Row>, before: Option<Uuid>, limit: nat, i: nat)
    requires Descending(rows) && limit > 0 && limit < i < |Older(rows, before)|
    requires ListPage(rows, before, limit).nextCursor.None?
    ensures forall j | 0 <= j < |ListPage(rows, before, limit).messages| ::
      ListPage(rows, before, limit).messages[j].id > Older(rows, before)[i].id
  {
    hide Older, Live, ListPage;
    var rest, page := Older(rows, before), ListPage(rows, before, limit);
    OlderDescends(rows, before);
    PageParts(rows, before, limit);
    var shown := Take(rest, limit + 1);
    LiveIds(shown);
    forall j | 0 <= j < |page.messages|
      ensures page.messages[j].id > rest[i].id
    {
      assert HasId(shown, page.messages[j].id);
      var k :| 0 <= k < |shown| && shown[k].id == page.messages[j].id;
      assert shown[k] == rest[k];
    }
  }

  // ---------------------------------------------------------------- where a walk ends

  function Ids(rows: seq<Row>): (ids: seq<Uuid7>)
    ensures |ids| == |rows| && forall i | 0 <= i < |rows| :: ids[i] == rows[i].id
  {
    seq(|rows|, i requires 0 <= i < |rows| => rows[i].id)
  }

  function MessageIds(ms: seq<Message>): (ids: seq<Uuid7>)
    ensures |ids| == |ms| && forall i | 0 <= i < |ms| :: ids[i] == ms[i].id
  {
    seq(|ms|, i requires 0 <= i < |ms| => ms[i].id)
  }

  /** The cursor of page j of a walk over these ids: the last id of the page before. */
  function CursorAt(ids: seq<Uuid7>, before: Option<Uuid>, limit: nat, j: nat): Option<Uuid> {
    if 0 < j * limit <= |ids| then Some(ids[j * limit - 1]) else before
  }

  /** What page j is made from, read in state t + j. */
  function WindowAt(tables: nat -> seq<Row>, t: nat, ids: seq<Uuid7>, before: Option<Uuid>, limit: nat, j: nat): seq<Row> {
    Older(tables(t + j), CursorAt(ids, before, limit, j))
  }

  ghost predicate FullPages(tables: nat -> seq<Row>, t: nat, ids: seq<Uuid7>, before: Option<Uuid>, limit: nat, k: nat) {
    forall j: nat | j < k :: FullWindow(WindowAt(tables, t, ids, before, limit, j), limit)
  }

  /** The k-th page is the first whose window is short or holds a row deleted by then. */
  ghost predicate EndsAt(tables: nat -> seq<Row>, t: nat, ids: seq<Uuid7>, before: Option<Uuid>, limit: nat, k: nat) {
    && k * limit <= |ids| && FullPages(tables, t, ids, before, limit, k)
    && !FullWindow(WindowAt(tables, t, ids, before, limit, k), limit)
    && Ids(WindowAt(tables, t, ids, before, limit, k)) == ids[k * limit..]
  }

  /** Every row of the full pages, then what is live in the window of the page that ends it. */
  function IdsUpTo(tables: nat -> seq<Row>, t: nat, ids: seq<Uuid7>, before: Option<Uuid>, limit: nat, k: nat): seq<Uuid7>
    requires k * limit <= |ids|
  {
    ids[..k * limit] + MessageIds(Live(Take(WindowAt(tables, t, ids, before, limit, k), limit + 1)))
  }

  /** The ids and the cursor of one page, by its window. */
  lemma PageIds(rows: seq<Row>, before: Option<Uuid>, limit: nat)
    requires Descending(rows) && limit > 0
    ensures var rest, page := Older(rows, before), ListPage(rows, before, limit);
      && (page.nextCursor.Some? <==> FullWindow(rest, limit)) && (page.nextCursor.Some? <==> page.hasMore)
      && (page.nextCursor.Some? ==>
            |rest| > limit && page.nextCursor == Some(Ids(rest)[limit - 1]) && MessageIds(page.messages) == Ids(rest)[..limit])
      && (page.nextCursor.None? ==> page.messages == Live(Take(rest, limit + 1)))
  {
    hide Older, Live, FullWindow;
    var rest, page := Older(rows, before), ListPage(rows, before, limit);
    PageParts(rows, before, limit);
    OlderDescends(rows, before);
    PageOf(rest, limit);
    if page.nextCursor.Some? {
      LiveFull(rest[..limit]);
    }
  }

  lemma CursorShifts(ids: seq<Uuid7>, before: Option<Uuid>, limit: nat, j: nat)
    requires 0 < limit <= |ids| && j * limit <= |ids| - limit
    ensures (j + 1) * limit <= |ids| && ids[limit..][j * limit..] == ids[(j + 1) * limit..]
    ensures ids[..limit] + ids[limit..][..j * limit] == ids[..(j + 1) * limit]
    ensures CursorAt(ids[limit..], Some(ids[limit - 1]), limit, j) == CursorAt(ids, before, limit, j + 1)
  {
    assert (j + 1) * limit == limit + j * limit;
  }

  /** Page j of the walk that goes on after the first page is page j + 1 of the whole walk. */
  lemma WindowShifts(tables: nat -> seq<Row>, t: nat, ids: seq<Uuid7>, before: Option<Uuid>, limit: nat, j: nat)
    requires 0 < limit <= |ids| && j * limit <= |ids| - limit
    ensures WindowAt(tables, t + 1, ids[limit..], Some(ids[limit - 1]), limit, j) == WindowAt(tables, t, ids, before, limit, j + 1)
  {
    hide Older, CursorAt;
    CursorShifts(ids, before, limit, j);
    assert t + 1 + j == t + (j + 1);
  }

  lemma FullPagesShift(tables: nat -> seq<Row>, t: nat, ids: seq<Uuid7>, before: Option<Uuid>, limit: nat, k: nat)
    requires 0 < limit <= |ids| && k * limit <= |ids| - limit
    requires FullWindow(WindowAt(tables, t, ids, before, limit, 0), limit)
    requires FullPages(tables, t + 1, ids[limit..], Some(ids[limit - 1]), limit, k)
    ensures FullPages(tables, t, ids, before, limit, k + 1)
  {
    hide FullWindow, WindowAt;
    forall j: nat | j < k + 1
      ensures FullWindow(WindowAt(tables, t, ids, before, limit, j), limit)
    {
      if j > 0 {
        LessRows(j - 1, k, limit);
        WindowShifts(tables, t, ids, before, limit, j - 1);
      }
    }
  }

  lemma LessRows(j: nat, k: nat, limit: nat)
    requires j <= k
    ensures j * limit <= k * limit
  {
  }

  lemma StopShifts(tables: nat -> seq<Row>, t: nat, ids: seq<Uuid7>, before: Option<Uuid>, limit: nat, k: nat)
    requires 0 < limit <= |ids| && FullWindow(WindowAt(tables, t, ids, before, limit, 0), limit)
    requires EndsAt(tables, t + 1, ids[limit..], Some(ids[limit - 1]), limit, k)
    ensures EndsAt(tables, t, ids, before, limit, k + 1)
    ensures IdsUpTo(tables, t, ids, before, limit, k + 1)
         == ids[..limit] + IdsUpTo(tables, t + 1, ids[limit..], Some(ids[limit - 1]), limit, k)
  {
    hide FullWindow, WindowAt, Live, FullPages, Ids, MessageIds;
    FullPagesShift(tables, t, ids, before, limit, k);
    WindowShifts(tables, t, ids, before, limit, k);
    CursorShifts(ids, before, limit, k);
  }

  /**
   Exactly how far a walk over a changing table gets: with R the rows older than its starting cursor
   when it starts, it shows R page by page, up to the first page whose window of limit + 1 rows of R,
   as they are when that page is read, is short or holds a deleted row; that page shows what is live in it.
   */
  lemma {:induction false} WalkThroughStops(tables: nat -> seq<Row>, t: nat, before: Option<Uuid>, limit: nat) returns (k: nat)
    requires Evolves(tables) && limit > 0
    ensures var ids := Ids(Older(tables(t), before));
      && EndsAt(tables, t, ids, before, limit, k)
      && MessageIds(WalkThrough(tables, t, before, limit)) == IdsUpTo(tables, t, ids, before, limit, k)
    decreases |Older(tables(t), before)|
  {
    hide ListPage, Older, Live, FullWindow, FullPages, WindowAt, WalkThrough, Ids, EndsAt, IdsUpTo;
    var page, ids := ListPage(tables(t), before, limit), Ids(Older(tables(t), before));
    assert Descending(tables(t));
    WalkStep(tables, t, before, limit);
    PageIds(tables(t), before, limit);
    NoPages(tables, t, ids, before, limit);
    if page.nextCursor.None? {
      k := 0;
      StopsHere(tables, t, before, limit);
      assert page.messages + [] == page.messages;
    } else {
      CursorKeepsRows(tables, t, before, limit);
      SameIds(Older(tables(t), page.nextCursor), Older(tables(t + 1), page.nextCursor));
      IdsFrom(Older(tables(t), before), limit);
      var l := WalkThroughStops(tables, t + 1, page.nextCursor, limit);
      k := l + 1;
      StopShifts(tables, t, ids, before, limit, l);
      IdsConcat(page.messages, WalkThrough(tables, t + 1, page.nextCursor, limit));
    }
  }

  lemma SameIds(a: seq<Row>, b: seq<Row>)
    requires SameRows(a, b)
    ensures Ids(a) == Ids(b)
  {
    assert forall i | 0 <= i < |a| :: SameRow(a[i], b[i]);
  }

  lemma IdsFrom(rows: seq<Row>, n: nat)
    requires n <= |rows|
    ensures Ids(rows[n..]) == Ids(rows)[n..] && Ids(rows[..n]) == Ids(rows)[..n]
  {
  }

  lemma IdsConcat(a: seq<Message>, b: seq<Message>)
    ensures MessageIds(a + b) == MessageIds(a) + MessageIds(b)
  {
  }

  lemma StopsHere(tables: nat -> seq<Row>, t: nat, before: Option<Uuid>, limit: nat)
    requires !FullWindow(Older(tables(t), before), limit)
    ensures var ids := Ids(Older(tables(t), before));
      && EndsAt(tables, t, ids, before, limit, 0)
      && IdsUpTo(tables, t, ids, before, limit, 0) == MessageIds(Live(Take(Older(tables(t), before), limit + 1)))
  {
    hide FullWindow, Older, Live, Ids;
    NoPages(tables, t, Ids(Older(tables(t), before)), before, limit);
  }

  lemma NoPages(tables: nat -> seq<Row>, t: nat, ids: seq<Uuid7>, before: Option<Uuid>, limit: nat)
    ensures FullPages(tables, t, ids, before, limit, 0) && WindowAt(tables, t, ids, before, limit, 0) == Older(tables(t), before)
  {
  }
}
