/** UUIDs as 128-bit numbers; UUIDv7 order (section 5.7 of RFC 9562) is numeric order. */
module Uuids {

  function Pow16(k: nat): (p: nat)
    ensures p > 0
  {
    if k == 0 then 1 else 16 * Pow16(k - 1)
  }

  type Uuid = n: nat | n < 0x1_0000_0000_0000_0000_0000_0000_0000_0000 witness 0

  lemma {:induction false} Pow16Add(j: nat, k: nat)
    ensures Pow16(j + k) == Pow16(j) * Pow16(k)
    decreases k
  {
    if k > 0 {
      Pow16Add(j, k - 1);
      Sixteenfold(Pow16(j), Pow16(k - 1));
    }
  }

  lemma Sixteenfold(p: nat, q: nat)
    ensures 16 * (p * q) == p * (16 * q)
  {
  }

  lemma UuidRange()
    ensures Pow16(32) == 0x1_0000_0000_0000_0000_0000_0000_0000_0000
  {
    assert Pow16(1) == 16 * Pow16(0) == 16;
    Pow16Add(1, 1);
    Pow16Add(2, 2);
    Pow16Add(4, 4);
    Pow16Add(8, 8);
    Pow16Add(16, 16);
  }

  /** The version is the thirteenth hexadecimal digit. */
  function Version(u: Uuid): nat {
    u / 0x1000_0000_0000_0000_0000 % 16
  }

  /** What Uuid::now_v7 gives: among these, the order in time is numeric order. */
  type Uuid7 = u: Uuid | Version(u) == 7 witness 0x7000_0000_0000_0000_0000

  /**
   The order of a Cassandra uuid column, of a version 7 id against any id: versions are compared first.
   */
  predicate Precedes(id: Uuid7, cursor: Uuid) {
    if Version(cursor) == 7 then id < cursor else Version(cursor) > 7
  }

  function HexDigit(d: nat): char
    requires d < 16
  {
    if d < 10 then '0' + d as char else 'a' + (d - 10) as char
  }

  /** The last k hexadecimal digits of a number. */
  function Hex(n: nat, k: nat): (s: string)
    ensures |s| == k
    ensures forall c <- s :: '0' <= c <= '9' || 'a' <= c <= 'f'
    decreases k
  {
    if k == 0 then "" else Hex(n / 16, k - 1) + [HexDigit(n % 16)]
  }

  /** 8-4-4-4-12. */
  function Dashed(h: string): string
    requires |h| == 32
  {
    h[..8] + "-" + h[8..12] + "-" + h[12..16] + "-" + h[16..20] + "-" + h[20..]
  }

  /** The canonical text of a UUID. */
  function Text(u: Uuid): string {
    Dashed(Hex(u, 32))
  }

  lemma {:induction false} HexInjective(m: nat, n: nat, k: nat)
    requires m < Pow16(k) && n < Pow16(k) && Hex(m, k) == Hex(n, k)
    ensures m == n
    decreases k
  {
    if k > 0 {
      var a, b := Hex(m, k), Hex(n, k);
      assert Hex(m / 16, k - 1) == a[..k - 1] == b[..k - 1] == Hex(n / 16, k - 1);
      assert HexDigit(m % 16) == a[k - 1] == b[k - 1] == HexDigit(n % 16);
      HexInjective(m / 16, n / 16, k - 1);
    }
  }

  lemma DashedInjective(g: string, h: string)
    requires |g| == |h| == 32 && Dashed(g) == Dashed(h)
    ensures g == h
  {
    var a := Dashed(g);
    assert g[..8] == a[..8] == h[..8];
    assert g[8..12] == a[9..13] == h[8..12];
    assert g[12..16] == a[14..18] == h[12..16];
    assert g[16..20] == a[19..23] == h[16..20];
    assert g[20..] == a[24..] == h[20..];
    assert g == g[..8] + g[8..12] + g[12..16] + g[16..20] + g[20..];
    assert h == h[..8] + h[8..12] + h[12..16] + h[16..20] + h[20..];
  }

  lemma TextInjective(u: Uuid, v: Uuid)
    requires Text(u) == Text(v)
    ensures u == v
  {
    hide Hex, Dashed, Pow16;
    UuidRange();
    DashedInjective(Hex(u, 32), Hex(v, 32));
    HexInjective(u, v, 32);
  }

  /** Hexadecimal digits and dashes: no colon in it, and never just an underscore. */
  lemma TextShape(u: Uuid)
    ensures |Text(u)| == 36 && ':' !in Text(u)
  {
    hide Hex;
    var h := Hex(u, 32);
    assert ':' !in h;
  }

  ghost predicate NoColon(s: string) {
    forall i | 0 <= i < |s| :: s[i] != ':'
  }

  /** The parts before and after the first colon are determined by the whole. */
  lemma {:induction false} ColonSplit(a: string, x: string, b: string, y: string)
    requires NoColon(a) && NoColon(b) && a + (":" + x) == b + (":" + y)
    ensures a == b && x == y
    decreases |a|
  {
    var s, t := a + (":" + x), b + (":" + y);
    assert s[|a|] == ':' && t[|b|] == ':';
    assert forall i | 0 <= i < |a| :: s[i] == a[i];
    assert forall i | 0 <= i < |b| :: t[i] == b[i];
    assert |a| == |b|;
    assert a == s[..|a|] && b == t[..|b|];
    assert x == s[|a| + 1..] && y == t[|b| + 1..];
  }
}

/** Keyset pagination over a channel's history, newest first, with soft-deleted rows filtered out. */
module Messages {
  import opened Prelude
  import opened Uuids

  const DEFAULT_LIMIT: int := 50
  const MAX_LIMIT: int := 100

  datatype Row = Row(id: Uuid7, author: string, content: string, deletedAt: Option<int>)
  datatype Message = Message(id: Uuid7, author: string, content: string)
  datatype Page = Page(messages: seq<Message>, nextCursor: Option<Uuid7>, hasMore: bool)

  /** The rows of one channel in clustering order. */
  ghost predicate Descending(rows: seq<Row>) {
    forall i, j | 0 <= i < j < |rows| :: rows[i].id > rows[j].id
  }

  function Clamp(requested: Option<int>): (limit: nat)
    ensures limit == (match requested
                      case None => 50
                      case Some(n) => if n < 1 then 1 else if n > 100 then 100 else n)
  {
    var n := if requested.None? then DEFAULT_LIMIT else requested.value;
    if n < 1 then 1 else if n > MAX_LIMIT then MAX_LIMIT else n
  }

  /** WHERE message_id < before, for a cursor of any version; rows are in descending order. */
  function Older(rows: seq<Row>, before: Option<Uuid>): (r: seq<Row>)
    ensures |r| <= |rows|
  {
    if before.None? || rows == [] || Precedes(rows[0].id, before.value) then rows else Older(rows[1..], before)
  }

  function Take<T>(s: seq<T>, n: nat): seq<T> {
    if |s| <= n then s else s[..n]
  }

  /** The rows that are not soft-deleted. */
  function Live(rows: seq<Row>): (ms: seq<Message>)
    ensures |ms| <= |rows|
  {
    if rows == [] then []
    else (if rows[0].deletedAt.Some? then [] else [Message(rows[0].id, rows[0].author, rows[0].content)]) + Live(rows[1..])
  }

  /** What list_messages makes of the fetched rows: filter, then look for one message too many. */
  function MakePage(fetched: seq<Row>, limit: nat): Page
    requires limit > 0
  {
    var live := Live(fetched);
    if |live| > limit then Page(live[..limit], Some(live[limit - 1].id), true) else Page(live, None, false)
  }

  /** LIMIT limit + 1, to see whether there is more. */
  function ListPage(rows: seq<Row>, before: Option<Uuid>, limit: nat): Page
    requires limit > 0
  {
    MakePage(Take(Older(rows, before), limit + 1), limit)
  }

  /** The first rows that come after the cursor, as many as these. */
  ghost predicate FirstOlder(rows: seq<Row>, before: Option<Uuid>, n: nat, window: seq<Row>) {
    exists k: nat :: WindowFrom(rows, before, n, window, k)
  }

  /** The window starts at row k: no row before it is older than the cursor, and those in it are. */
  ghost predicate WindowFrom(rows: seq<Row>, before: Option<Uuid>, n: nat, window: seq<Row>, k: nat) {
    && k + |window| <= |rows| && rows[k..k + |window|] == window
    && (|window| == n || (|window| < n && k + |window| == |rows|))
    && (before.None? ==> k == 0)
    && (before.Some? ==> forall i | 0 <= i < k :: !Precedes(rows[i].id, before.value))
    && (before.Some? && window != [] ==> Precedes(window[0].id, before.value))
  }

  lemma {:induction false} OlderIsFirst(rows: seq<Row>, before: Option<Uuid>, n: nat)
    ensures FirstOlder(rows, before, n, Take(Older(rows, before), n))
    decreases |rows|
  {
    hide Precedes;
    var window := Take(Older(rows, before), n);
    if before.None? || rows == [] || Precedes(rows[0].id, before.value) {
      assert WindowFrom(rows, before, n, window, 0);
    } else {
      OlderIsFirst(rows[1..], before, n);
      var k: nat :| WindowFrom(rows[1..], before, n, window, k);
      LaterWindow(rows, before, n, window, k);
    }
  }

  lemma LaterWindow(rows: seq<Row>, before: Option<Uuid>, n: nat, window: seq<Row>, k: nat)
    requires rows != [] && before.Some? && !Precedes(rows[0].id, before.value) && WindowFrom(rows[1..], before, n, window, k)
    ensures WindowFrom(rows, before, n, window, k + 1)
  {
    hide Precedes;
    var rest := rows[1..];
    assert rest[k..k + |window|] == rows[k + 1..k + 1 + |window|];
    assert forall i | 0 < i < k + 1 :: rows[i] == rest[i - 1];
  }

  /**
   The row loop of list_messages: 50 messages unless the request says otherwise, at least 1 and at
   most 100.  The page is made from the first rows after the cursor, one more than that; it continues
   exactly if all of those are there and live.
   */
  method ListMessages(rows: seq<Row>, before: Option<Uuid>, requested: Option<int>) returns (page: Page)
    ensures page == ListPage(rows, before, Clamp(requested))
    ensures var n: nat := match requested
                          case None => 50
                          case Some(r) => if r < 1 then 1 else if r > 100 then 100 else r;
      && FirstOlder(rows, before, n + 1, Take(Older(rows, before), n + 1))
      && (page.hasMore ==> |page.messages| == n && page.messages < Live(Take(Older(rows, before), n + 1)))
      && (!page.hasMore ==> page.messages == Live(Take(Older(rows, before), n + 1)) && |page.messages| <= n)
      && page.nextCursor == if page.hasMore then Some(page.messages[n - 1].id) else None
  {
    hide Older, Live, FirstOlder, Take;
    var limit := Clamp(requested);
    OlderIsFirst(rows, before, limit + 1);
    NoneLive();
    var fetched := Take(Older(rows, before), limit + 1);
    var messages: seq<Message> := [];
    for i := 0 to |fetched|
      invariant messages == Live(fetched[..i])
    {
      LiveStep(fetched, i);
      if fetched[i].deletedAt.Some? {
        continue;
      }
      messages := messages + [Message(fetched[i].id, fetched[i].author, fetched[i].content)];
    }
    assert fetched[..|fetched|] == fetched;
    var hasMore := |messages| > limit;
    if hasMore {
      messages := messages[..limit];
    }
    page := Page(messages, if hasMore then Some(messages[|messages| - 1].id) else None, hasMore);
  }

  lemma {:induction false} LiveConcat(a: seq<Row>, b: seq<Row>)
    ensures Live(a + b) == Live(a) + Live(b)
    decreases |a|
  {
    if a == [] {
      assert a + b == b;
    } else {
      var first := if a[0].deletedAt.Some? then [] else [Message(a[0].id, a[0].author, a[0].content)];
      assert (a + b)[0] == a[0] && (a + b)[1..] == a[1..] + b;
      LiveConcat(a[1..], b);
      assert first + (Live(a[1..]) + Live(b)) == (first + Live(a[1..])) + Live(b);
    }
  }

  lemma NoneLive()
    ensures Live([]) == []
  {
  }

  lemma LiveStep(rows: seq<Row>, i: nat)
    requires i < |rows|
    ensures Live(rows[..i + 1])
         == Live(rows[..i]) + (if rows[i].deletedAt.Some? then [] else [Message(rows[i].id, rows[i].author, rows[i].content)])
  {
    assert rows[..i + 1] == rows[..i] + [rows[i]];
    LiveConcat(rows[..i], [rows[i]]);
  }

  /** A cursor that is no version 7 id: everything is older than one of a later version, nothing than one of an earlier. */
  lemma {:induction false} ForeignCursor(rows: seq<Row>, cursor: Uuid)
    ensures Version(cursor) > 7 ==> Older(rows, Some(cursor)) == rows
    ensures Version(cursor) < 7 ==> Older(rows, Some(cursor)) == []
    decreases |rows|
  {
    hide Version;
    if rows != [] {
      ForeignCursor(rows[1..], cursor);
    }
  }

  // ---------------------------------------------------------------- walking the pages

  /** A window of limit + 1 rows, all there and none of them deleted: the only kind a walk continues from. */
  predicate FullWindow(rows: seq<Row>, limit: nat) {
    |rows| > limit && |Live(rows[..limit + 1])| == limit + 1
  }

  lemma {:induction false} LiveFull(rows: seq<Row>)
    requires |Live(rows)| == |rows|
    ensures forall i | 0 <= i < |rows| :: rows[i].deletedAt.None?
    ensures forall i | 0 <= i < |rows| :: Live(rows)[i] == Message(rows[i].id, rows[i].author, rows[i].content)
    decreases |rows|
  {
    if rows != [] {
      LiveFull(rows[1..]);
    }
  }

  lemma {:induction false} OlderSuffix(rows: seq<Row>, k: nat)
    requires Descending(rows) && k < |rows|
    ensures Older(rows, Some(rows[k].id)) == rows[k + 1..]
    decreases k
  {
    if k > 0 {
      OlderSuffix(rows[1..], k - 1);
      assert rows[1..][k..] == rows[k + 1..];
    } else if |rows| > 1 {
      assert rows[0].id > rows[1].id;
      assert Older(rows[1..], Some(rows[0].id)) == rows[1..];
    }
  }

  /** The page fetched when the cursor leaves exactly these rows: when it continues, and from where. */
  lemma {:induction false} PageOf(rows: seq<Row>, limit: nat)
    requires Descending(rows) && limit > 0
    ensures var page := MakePage(Take(rows, limit + 1), limit);
      && (page.hasMore <==> FullWindow(rows, limit))
      && (page.hasMore <==> page.nextCursor.Some?)
      && (page.hasMore ==> page.messages == Live(rows[..limit]) && Older(rows, page.nextCursor) == rows[limit..])
      && (!page.hasMore ==> page.messages == Live(Take(rows, limit + 1)))
  {
    hide Live, Older;
    assert |rows| > limit ==> Take(rows, limit + 1) == rows[..limit + 1];
    if FullWindow(rows, limit) {
      FullPage(rows, limit);
      OlderSuffix(rows, limit - 1);
    }
  }

  lemma FullPage(rows: seq<Row>, limit: nat)
    requires limit > 0 && FullWindow(rows, limit)
    ensures |Live(rows[..limit])| == limit && Live(rows[..limit + 1])[..limit] == Live(rows[..limit])
    ensures Live(rows[..limit + 1])[limit - 1].id == rows[limit - 1].id
  {
    hide Live;
    var window := rows[..limit + 1];
    LiveFull(window);
    LiveStep(rows, limit);
    assert window[limit - 1] == rows[limit - 1] && window[limit] == rows[limit];
  }

  /** Following next_cursor from the given cursor to the end. */
  function Walk(rows: seq<Row>, before: Option<Uuid>, limit: nat): (ms: seq<Message>)
    requires Descending(rows) && limit > 0
    decreases |Older(rows, before)|
  {
    var page := ListPage(rows, before, limit);
    OlderDescends(rows, before);
    PageOf(Older(rows, before), limit);
    if page.nextCursor.Some? then
      OlderTwice(rows, before, page.nextCursor.value);
      page.messages + Walk(rows, page.nextCursor, limit)
    else page.messages
  }

  lemma {:induction false} OlderDescends(rows: seq<Row>, before: Option<Uuid>)
    requires Descending(rows)
    ensures Descending(Older(rows, before))
    ensures before.Some? ==> forall r <- Older(rows, before) :: Precedes(r.id, before.value)
    decreases |rows|
  {
    if rows != [] && before.Some? {
      if Precedes(rows[0].id, before.value) {
        forall r <- rows
          ensures Precedes(r.id, before.value)
        {
          var i :| 0 <= i < |rows| && rows[i] == r;
        }
      } else {
        OlderDescends(rows[1..], before);
      }
    }
  }

  /** A cursor below another one sees the same rows from the table as from the other's page. */
  lemma {:induction false} OlderTwice(rows: seq<Row>, before: Option<Uuid>, cursor: Uuid7)
    requires Descending(rows)
    requires before.Some? ==> Precedes(cursor, before.value)
    ensures Older(Older(rows, before), Some(cursor)) == Older(rows, Some(cursor))
    decreases |rows|
  {
    if before.Some? && rows != [] && !Precedes(rows[0].id, before.value) {
      OlderTwice(rows[1..], before, cursor);
    }
  }

  /** How many rows of the history a walk gets to see. */
  function Stop(rows: seq<Row>, limit: nat): (e: nat)
    requires limit > 0
    ensures e <= |rows|
    decreases |rows|
  {
    if FullWindow(rows, limit) then limit + Stop(rows[limit..], limit)
    else if |rows| <= limit then |rows| else limit + 1
  }

  /** Where the k-th page of a walk starts: every window before it was full. */
  ghost predicate Reaches(rows: seq<Row>, limit: nat, k: nat) {
    k * limit <= |rows| && forall j: nat | j < k :: j * limit <= |rows| && FullWindow(rows[j * limit..], limit)
  }

  lemma ReachesNext(rows: seq<Row>, limit: nat, k: nat)
    requires |rows| > limit > 0 && FullWindow(rows, limit) && Reaches(rows[limit..], limit, k)
    ensures Reaches(rows, limit, k + 1)
    ensures (k + 1) * limit <= |rows| && rows[limit..][k * limit..] == rows[(k + 1) * limit..]
  {
    hide FullWindow;
    assert (k + 1) * limit == limit + k * limit;
    forall j: nat | j < k + 1
      ensures j * limit <= |rows| && FullWindow(rows[j * limit..], limit)
    {
      if j == 0 {
        assert rows[0..] == rows;
      } else {
        assert j * limit == limit + (j - 1) * limit;
        assert (j - 1) * limit <= |rows[limit..]|;
        assert rows[limit..][(j - 1) * limit..] == rows[j * limit..];
      }
    }
  }

  /** The walk ends at the first window that is short or holds a deleted row. */
  lemma {:induction false} StopsAtFirstGap(rows: seq<Row>, limit: nat) returns (k: nat)
    requires limit > 0
    ensures Reaches(rows, limit, k) && !FullWindow(rows[k * limit..], limit)
    ensures Stop(rows, limit) == if |rows| <= k * limit + limit then |rows| else k * limit + limit + 1
    decreases |rows|
  {
    if FullWindow(rows, limit) {
      var k' := StopsAtFirstGap(rows[limit..], limit);
      k := k' + 1;
      ReachesNext(rows, limit, k');
    } else {
      k := 0;
      assert rows[0..] == rows;
    }
  }

  /** One page of a walk. */
  lemma WalkPage(rows: seq<Row>, before: Option<Uuid>, limit: nat)
    requires Descending(rows) && limit > 0
    ensures var rest, cursor := Older(rows, before), ListPage(rows, before, limit).nextCursor;
      && (FullWindow(rest, limit) <==> cursor.Some?)
      && (cursor.Some? ==>
            && Walk(rows, before, limit) == Live(rest[..limit]) + Walk(rows, cursor, limit)
            && Older(rows, cursor) == rest[limit..])
      && (cursor.None? ==> Walk(rows, before, limit) == Live(rest[..Stop(rest, limit)]))
  {
    hide Older, Live, FullWindow;
    var rest := Older(rows, before);
    OlderDescends(rows, before);
    PageOf(rest, limit);
    var cursor := ListPage(rows, before, limit).nextCursor;
    if cursor.Some? {
      CursorInPage(rest, limit);
      OlderTwice(rows, before, cursor.value);
    } else {
      assert Take(rest, limit + 1) == rest[..Stop(rest, limit)];
    }
  }

  lemma {:induction false} WalkFrom(rows: seq<Row>, before: Option<Uuid>, limit: nat)
    requires Descending(rows) && limit > 0
    ensures var rest := Older(rows, before);
      Walk(rows, before, limit) == Live(rest[..Stop(rest, limit)])
    decreases |Older(rows, before)|
  {
    hide Live, Older, ListPage, Walk;
    var rest, cursor := Older(rows, before), ListPage(rows, before, limit).nextCursor;
    WalkPage(rows, before, limit);
    if cursor.Some? {
      assert |rest[limit..]| < |rest|;
      WalkFrom(rows, cursor, limit);
      var more := Stop(rest[limit..], limit);
      LiveConcat(rest[..limit], rest[limit..][..more]);
      assert rest[..limit] + rest[limit..][..more] == rest[..limit + more];
    }
  }

  lemma {:induction false} LiveDescends(rows: seq<Row>)
    requires Descending(rows)
    ensures forall i, j | 0 <= i < j < |Live(rows)| :: Live(rows)[i].id > Live(rows)[j].id
    ensures forall m <- Live(rows) :: exists k :: 0 <= k < |rows| && rows[k].deletedAt.None? && rows[k].id == m.id
    decreases |rows|
  {
    if rows != [] {
      LiveDescends(rows[1..]);
      forall m <- Live(rows[1..])
        ensures exists k :: 0 <= k < |rows| && rows[k].deletedAt.None? && rows[k].id == m.id
        ensures m.id < rows[0].id
      {
        var k :| 0 <= k < |rows[1..]| && rows[1..][k].deletedAt.None? && rows[1..][k].id == m.id;
        assert rows[k + 1] == rows[1..][k];
      }
      forall j | 0 <= j < |Live(rows[1..])|
        ensures Live(rows[1..])[j].id < rows[0].id
      {
        assert Live(rows[1..])[j] in Live(rows[1..]);
      }
    }
  }

  lemma {:induction false} NothingDeleted(rows: seq<Row>)
    requires forall i | 0 <= i < |rows| :: rows[i].deletedAt.None?
    ensures |Live(rows)| == |rows|
    decreases |rows|
  {
    if rows != [] {
      NothingDeleted(rows[1..]);
    }
  }

  /**
   A page walk over a table terminates and returns strictly descending ids and a prefix of the live
   history, exactly that of the rows up to Stop; it is the whole live history if and only if every
   row after Stop is deleted, so in particular when no row is deleted.
   */
  lemma WalkIsPrefix(rows: seq<Row>, limit: nat)
    requires Descending(rows) && limit > 0
    ensures var walk, stop := Walk(rows, None, limit), Stop(rows, limit);
      && walk == Live(rows[..stop])
      && Live(rows) == walk + Live(rows[stop..])
      && (forall i, j | 0 <= i < j < |walk| :: walk[i].id > walk[j].id)
      && (walk == Live(rows) <==> forall i | stop <= i < |rows| :: rows[i].deletedAt.Some?)
      && ((forall i | 0 <= i < |rows| :: rows[i].deletedAt.None?) ==> walk == Live(rows))
  {
    hide Walk, Live, Stop;
    var stop := Stop(rows, limit);
    WalkFrom(rows, None, limit);
    assert Older(rows, None) == rows;
    LiveSplit(rows, stop);
    LiveDescends(rows[..stop]);
    if forall i | 0 <= i < |rows| :: rows[i].deletedAt.None? {
      CleanStop(rows, limit);
    }
  }

  lemma LiveSplit(rows: seq<Row>, n: nat)
    requires n <= |rows|
    ensures Live(rows) == Live(rows[..n]) + Live(rows[n..])
    ensures Live(rows[..n]) == Live(rows) <==> forall i | n <= i < |rows| :: rows[i].deletedAt.Some?
  {
    hide Live;
    var seen, unseen := rows[..n], rows[n..];
    assert rows == seen + unseen;
    LiveConcat(seen, unseen);
    assert |Live(rows)| == |Live(seen)| + |Live(unseen)|;
    NoneLeft(unseen);
    assert forall i | 0 <= i < |unseen| :: unseen[i] == rows[i + n];
    assert forall i | n <= i < |rows| :: rows[i] == unseen[i - n];
  }

  lemma {:induction false} NoneLeft(rows: seq<Row>)
    ensures Live(rows) == [] <==> forall i | 0 <= i < |rows| :: rows[i].deletedAt.Some?
    decreases |rows|
  {
    if rows != [] {
      NoneLeft(rows[1..]);
      assert forall i | 0 < i < |rows| :: rows[i] == rows[1..][i - 1];
      assert forall i | 0 <= i < |rows[1..]| :: rows[1..][i] == rows[i + 1];
    }
  }

  lemma {:induction false} CleanStop(rows: seq<Row>, limit: nat)
    requires limit > 0 && forall i | 0 <= i < |rows| :: rows[i].deletedAt.None?
    ensures Stop(rows, limit) == |rows|
    decreases |rows|
  {
    if |rows| > limit {
      NothingDeleted(rows[..limit + 1]);
      CleanStop(rows[limit..], limit);
    }
  }

  /** A short walk: one deleted row in the first window hides everything older. */
  lemma ShortWalk(a: Uuid7, b: Uuid7, c: Uuid7)
    requires a > b > c
    ensures var rows := [Row(a, "x", "new", None), Row(b, "x", "gone", Some(9)), Row(c, "x", "old", None)];
      Descending(rows) && Walk(rows, None, 1) == [Message(a, "x", "new")] && |Live(rows)| == 2
  {
    var rows := [Row(a, "x", "new", None), Row(b, "x", "gone", Some(9)), Row(c, "x", "old", None)];
    assert rows[..2] == [rows[0], rows[1]] && rows[1..] == [rows[1], rows[2]] && rows[2..] == [rows[2]];
    assert Live([rows[2]]) == [Message(c, "x", "old")];
    assert Live(rows[1..]) == [Message(c, "x", "old")];
    assert rows[..2][1..] == [rows[1]] && Live([rows[1]]) == [];
    assert Live(rows[..2]) == [Message(a, "x", "new")];
    WalkFrom(rows, None, 1);
  }

  // ---------------------------------------------------------------- walking while messages arrive

  /** Every state of the table is the one before with newer rows, if any, in front. */
  ghost predicate OnlyInserts(tables: nat -> seq<Row>) {
    forall t: nat :: Descending(tables(t)) && Extends(tables(t), tables(t + 1))
  }

  ghost predicate Extends(older: seq<Row>, newer: seq<Row>) {
    exists k: nat :: k <= |newer| && newer[k..] == older
  }

  /** Rows in front of a table are newer than any cursor taken from it. */
  lemma {:induction false} NewerRowsInvisible(older: seq<Row>, newer: seq<Row>, cursor: Uuid7)
    requires Descending(newer) && Extends(older, newer)
    requires older != [] && cursor <= older[0].id
    ensures Older(newer, Some(cursor)) == Older(older, Some(cursor))
    decreases |newer|
  {
    var k: nat :| k <= |newer| && newer[k..] == older;
    if k > 0 {
      assert newer[0].id > newer[k].id;
      assert newer[1..][k - 1..] == older;
      NewerRowsInvisible(older, newer[1..], cursor);
    }
  }

  /** The page returned at time t to the walk's request, followed by the rest of the walk. */
  function WalkOver(tables: nat -> seq<Row>, t: nat, before: Option<Uuid>, limit: nat): seq<Message>
    requires OnlyInserts(tables) && limit > 0
    decreases |Older(tables(t), before)|
  {
    var page := ListPage(tables(t), before, limit);
    if page.nextCursor.Some? then
      CursorStable(tables, t, before, limit);
      page.messages + WalkOver(tables, t + 1, page.nextCursor, limit)
    else page.messages
  }

  lemma {:induction false} OlderBelowFirst(rows: seq<Row>, before: Option<Uuid>)
    requires Descending(rows) && Older(rows, before) != []
    ensures rows != [] && Older(rows, before)[0].id <= rows[0].id
    decreases |rows|
  {
    if before.Some? && !Precedes(rows[0].id, before.value) {
      OlderBelowFirst(rows[1..], before);
    }
  }

  lemma CursorStable(tables: nat -> seq<Row>, t: nat, before: Option<Uuid>, limit: nat)
    requires OnlyInserts(tables) && limit > 0
    requires ListPage(tables(t), before, limit).nextCursor.Some?
    ensures var cursor := ListPage(tables(t), before, limit).nextCursor;
      && Older(tables(t + 1), cursor) == Older(tables(t), cursor)
      && |Older(tables(t), cursor)| < |Older(tables(t), before)|
  {
    var rest := Older(tables(t), before);
    var cursor := ListPage(tables(t), before, limit).nextCursor.value;
    OlderDescends(tables(t), before);
    PageOf(rest, limit);
    LiveDescends(Take(rest, limit + 1));
    CursorInPage(rest, limit);
    OlderBelowFirst(tables(t), before);
    OlderTwice(tables(t), before, cursor);
    assert Descending(tables(t + 1)) && Extends(tables(t), tables(t + 1));
    NewerRowsInvisible(tables(t), tables(t + 1), cursor);
  }

  /** A page's cursor is the id of one of the rows it was made from. */
  lemma CursorInPage(rows: seq<Row>, limit: nat)
    requires Descending(rows) && limit > 0 && MakePage(Take(rows, limit + 1), limit).nextCursor.Some?
    ensures rows != [] && MakePage(Take(rows, limit + 1), limit).nextCursor.value <= rows[0].id
    ensures exists r :: r in rows && r.id == MakePage(Take(rows, limit + 1), limit).nextCursor.value
  {
    var window := Take(rows, limit + 1);
    PageOf(rows, limit);
    LiveFull(window);
    assert window[limit - 1] == rows[limit - 1] && rows[limit - 1] in rows;
    if limit > 1 {
      assert rows[0].id > rows[limit - 1].id;
    }
  }

  /** Messages that arrive during a walk do not change what it returns. */
  lemma {:induction false} InsertsDoNotDisturb(tables: nat -> seq<Row>, t: nat, before: Option<Uuid>, limit: nat)
    requires OnlyInserts(tables) && limit > 0
    ensures WalkOver(tables, t, before, limit) == Walk(tables(t), before, limit)
    decreases |Older(tables(t), before)|
  {
    var page := ListPage(tables(t), before, limit);
    if page.nextCursor.Some? {
      CursorStable(tables, t, before, limit);
      InsertsDoNotDisturb(tables, t + 1, page.nextCursor, limit);
      WalkFrom(tables(t), page.nextCursor, limit);
      WalkFrom(tables(t + 1), page.nextCursor, limit);
    }
  }
}
