/**
 Message history behind the cache-aside of list_messages.  A request that misses reads the table,
 and stores the page under a TTL some time later; creates, deletes, other requests, evictions and
 the clock interleave freely.
 */
module MessageCache {
  import opened Prelude
  import opened Uuids
  import opened Messages
  import opened Decimals

  /** A channel id is a UUID, so its text holds no colon. */
  type Channel = Uuid

  type Tables = map<Channel, seq<Row>>

  /** The pagination of a request, after clamping. */
  datatype Query = Query(channel: Channel, limit: nat, before: Option<Uuid>)

  function CacheKey(q: Query): string {
    "msg:" + (Text(q.channel) + (":" + (Decimal(q.limit) + (":" + (if q.before.Some? then Text(q.before.value) else "_")))))
  }

  lemma NumberHasNoColon(n: nat)
    ensures NoColon(Decimal(n))
  {
    DigitsOnly(n);
    forall i | 0 <= i < |Decimal(n)|
      ensures Decimal(n)[i] != ':'
    {
      assert Decimal(n)[i] in Decimal(n);
    }
  }

  /** Different channels, limits or cursors never share a cache entry. */
  lemma CacheKeyInjective(p: Query, q: Query)
    requires CacheKey(p) == CacheKey(q)
    ensures p == q
  {
    hide Text, Decimal;
    var bp := if p.before.Some? then Text(p.before.value) else "_";
    var bq := if q.before.Some? then Text(q.before.value) else "_";
    var rp, rq := Decimal(p.limit) + (":" + bp), Decimal(q.limit) + (":" + bq);
    assert CacheKey(p)[4..] == Text(p.channel) + (":" + rp);
    assert CacheKey(q)[4..] == Text(q.channel) + (":" + rq);
    TextShape(p.channel);
    TextShape(q.channel);
    assert NoColon(Text(p.channel)) && NoColon(Text(q.channel));
    ColonSplit(Text(p.channel), rp, Text(q.channel), rq);
    TextInjective(p.channel, q.channel);
    NumberHasNoColon(p.limit);
    NumberHasNoColon(q.limit);
    ColonSplit(Decimal(p.limit), bp, Decimal(q.limit), bq);
    DecimalInjective(p.limit, q.limit);
    if p.before.Some? {
      TextShape(p.before.value);
    }
    if q.before.Some? {
      TextShape(q.before.value);
    }
    if p.before.Some? && q.before.Some? {
      TextInjective(p.before.value, q.before.value);
    }
  }

  function RowsOf(tables: Tables, ch: Channel): seq<Row> {
    if ch in tables then tables[ch] else []
  }

  function PageFor(tables: Tables, q: Query): Page
    requires q.limit > 0
  {
    ListPage(RowsOf(tables, q.channel), q.before, q.limit)
  }

  /** INSERT into the partition, at the place the clustering order gives it. */
  function InsertRow(rows: seq<Row>, row: Row): seq<Row> {
    if rows == [] || row.id > rows[0].id then [row] + rows
    else if row.id == rows[0].id then [row] + rows[1..]
    else [rows[0]] + InsertRow(rows[1..], row)
  }

  /** UPDATE ... SET deleted_at. */
  function MarkDeleted(rows: seq<Row>, id: Uuid, at: int): seq<Row> {
    if rows == [] then []
    else [if rows[0].id == id then rows[0].(deletedAt := Some(at)) else rows[0]] + MarkDeleted(rows[1..], id, at)
  }

  // ---------------------------------------------------------------- the machine

  datatype Entry = Entry(query: Query, page: Page, readAt: nat, setAt: nat)

  /** A fill between its table read and its SET. */
  datatype Fill = Fill(query: Query, page: Page, readAt: nat)

  /** A page given to a client; setAt is when it was stored, for a hit, and the serving time otherwise. */
  datatype Served = Served(query: Query, page: Page, at: nat, readAt: nat, setAt: nat)

  /** A state of the tables and when it began. */
  datatype Version = Version(since: nat, tables: Tables)

  datatype Cache = Cache(now: nat, history: seq<Version>, entries: map<string, Entry>, fills: map<nat, Fill>, served: seq<Served>)

  datatype Event =
    | Create(channel: Channel, row: Row)
    | Delete(channel: Channel, id: Uuid, at: int)
    | Hit(query: Query)
    | Read(request: nat, query: Query)
    | Store(request: nat, setOk: bool)
    | Evict(key: string)
    | Tick(seconds: nat)

  const EMPTY: Cache := Cache(0, [Version(0, map[])], map[], map[], [])

  function Current(c: Cache): Tables {
    if c.history == [] then map[] else c.history[|c.history| - 1].tables
  }

  function Write(c: Cache, ch: Channel, rows: seq<Row>): Cache {
    c.(history := c.history + [Version(c.now, Current(c)[ch := rows])])
  }

  /** One event; ttl is CHAT_CACHE_TTL_SECONDS.  An event that is not enabled changes nothing. */
  function Apply(c: Cache, ttl: nat, e: Event): Cache {
    match e
    case Create(ch, row) => Write(c, ch, InsertRow(RowsOf(Current(c), ch), row))
    case Delete(ch, id, at) => Write(c, ch, MarkDeleted(RowsOf(Current(c), ch), id, at))
    case Hit(q) =>
      var k := CacheKey(q);
      if k !in c.entries then c
      else c.(served := c.served + [Served(q, c.entries[k].page, c.now, c.entries[k].readAt, c.entries[k].setAt)])
    case Read(r, q) =>
      if q.limit == 0 || r in c.fills then c
      else c.(fills := c.fills[r := Fill(q, PageFor(Current(c), q), c.now)])
    case Store(r, setOk) =>
      if r !in c.fills then c
      else
        var f := c.fills[r];
        c.(fills := c.fills - {r},
           entries := if setOk then c.entries[CacheKey(f.query) := Entry(f.query, f.page, f.readAt, c.now)] else c.entries,
           served := c.served + [Served(f.query, f.page, c.now, f.readAt, c.now)])
    case Evict(k) => c.(entries := c.entries - {k})
    case Tick(d) =>
      c.(now := c.now + d, entries := map k | k in c.entries && c.now + d < c.entries[k].setAt + ttl :: c.entries[k])
  }

  function RunFrom(c: Cache, ttl: nat, es: seq<Event>): Cache
    decreases |es|
  {
    if es == [] then c else RunFrom(Apply(c, ttl, es[0]), ttl, es[1..])
  }

  // ---------------------------------------------------------------- bounded staleness

  /** The page is what the query gave in a state the tables were in at the given time. */
  ghost predicate WasTrue(history: seq<Version>, q: Query, page: Page, at: nat) {
    q.limit > 0 && exists v :: TrueIn(history, q, page, at, v)
  }

  ghost predicate TrueIn(history: seq<Version>, q: Query, page: Page, at: nat, v: nat)
    requires q.limit > 0
  {
    && v < |history| && history[v].since <= at && (v + 1 < |history| ==> at <= history[v + 1].since)
    && page == PageFor(history[v].tables, q)
  }

  ghost predicate Fresh(history: seq<Version>, ttl: nat, s: Served) {
    && WasTrue(history, s.query, s.page, s.readAt)
    && s.readAt <= s.setAt <= s.at
    && s.at <= s.setAt + ttl
  }

  ghost predicate EntryOk(c: Cache, ttl: nat, k: string)
    requires k in c.entries
  {
    var e := c.entries[k];
    && k == CacheKey(e.query) && WasTrue(c.history, e.query, e.page, e.readAt)
    && e.readAt <= e.setAt <= c.now && c.now <= e.setAt + ttl
  }

  ghost predicate FillOk(c: Cache, r: nat)
    requires r in c.fills
  {
    WasTrue(c.history, c.fills[r].query, c.fills[r].page, c.fills[r].readAt) && c.fills[r].readAt <= c.now
  }

  ghost predicate Invariant(c: Cache, ttl: nat) {
    && c.history != [] && c.history[|c.history| - 1].since <= c.now
    && (forall k <- c.entries :: EntryOk(c, ttl, k))
    && (forall r <- c.fills :: FillOk(c, r))
    && (forall i | 0 <= i < |c.served| :: Fresh(c.history, ttl, c.served[i]))
  }

  lemma HistoryGrows(history: seq<Version>, next: Version, q: Query, page: Page, at: nat)
    requires WasTrue(history, q, page, at) && at <= next.since
    ensures WasTrue(history + [next], q, page, at)
  {
    var v :| TrueIn(history, q, page, at, v);
    assert TrueIn(history + [next], q, page, at, v);
  }

  lemma WritePreserves(c: Cache, ttl: nat, ch: Channel, rows: seq<Row>)
    requires Invariant(c, ttl)
    requires forall i | 0 <= i < |c.served| :: c.served[i].readAt <= c.now
    ensures Invariant(Write(c, ch, rows), ttl)
  {
    var c' := Write(c, ch, rows);
    var next := c'.history[|c.history|];
    forall k <- c'.entries
      ensures EntryOk(c', ttl, k)
    {
      var e := c.entries[k];
      assert EntryOk(c, ttl, k);
      HistoryGrows(c.history, next, e.query, e.page, e.readAt);
    }
    forall r <- c'.fills
      ensures FillOk(c', r)
    {
      assert FillOk(c, r);
      HistoryGrows(c.history, next, c.fills[r].query, c.fills[r].page, c.fills[r].readAt);
    }
    forall i | 0 <= i < |c'.served|
      ensures Fresh(c'.history, ttl, c'.served[i])
    {
      var s := c.served[i];
      assert Fresh(c.history, ttl, s);
      HistoryGrows(c.history, next, s.query, s.page, s.readAt);
    }
  }

  ghost predicate Past(c: Cache) {
    forall i | 0 <= i < |c.served| :: c.served[i].readAt <= c.now
  }

  lemma ApplyPreserves(c: Cache, ttl: nat, e: Event)
    requires Invariant(c, ttl) && Past(c)
    ensures Invariant(Apply(c, ttl, e), ttl) && Past(Apply(c, ttl, e))
  {
    hide CacheKey, PageFor, ListPage, InsertRow, MarkDeleted;
    match e
    case Create(ch, row) => WritePreserves(c, ttl, ch, InsertRow(RowsOf(Current(c), ch), row));
    case Delete(ch, id, at) => WritePreserves(c, ttl, ch, MarkDeleted(RowsOf(Current(c), ch), id, at));
    case Hit(q) => HitPreserves(c, ttl, q);
    case Read(r, q) => ReadPreserves(c, ttl, r, q);
    case Store(r, setOk) => StorePreserves(c, ttl, r, setOk);
    case Evict(k) => EvictPreserves(c, ttl, k);
    case Tick(d) => TickPreserves(c, ttl, d);
  }

  lemma HitPreserves(c: Cache, ttl: nat, q: Query)
    requires Invariant(c, ttl) && Past(c)
    ensures Invariant(Apply(c, ttl, Hit(q)), ttl) && Past(Apply(c, ttl, Hit(q)))
  {
    hide CacheKey, WasTrue;
    var k := CacheKey(q);
    if k in c.entries {
      assert EntryOk(c, ttl, k);
      CacheKeyInjective(q, c.entries[k].query);
      var c' := Apply(c, ttl, Hit(q));
      assert forall j <- c'.entries :: EntryOk(c, ttl, j) ==> EntryOk(c', ttl, j);
      assert forall r <- c'.fills :: FillOk(c, r) ==> FillOk(c', r);
    }
  }

  lemma ReadPreserves(c: Cache, ttl: nat, r: nat, q: Query)
    requires Invariant(c, ttl) && Past(c)
    ensures Invariant(Apply(c, ttl, Read(r, q)), ttl) && Past(Apply(c, ttl, Read(r, q)))
  {
    hide CacheKey, PageFor;
    var c' := Apply(c, ttl, Read(r, q));
    if q.limit > 0 {
      assert TrueIn(c.history, q, PageFor(Current(c), q), c.now, |c.history| - 1);
    }
    assert forall j <- c'.entries :: EntryOk(c, ttl, j) ==> EntryOk(c', ttl, j);
    forall x <- c'.fills
      ensures FillOk(c', x)
    {
      assert x in c.fills ==> FillOk(c, x);
    }
  }

  lemma StorePreserves(c: Cache, ttl: nat, r: nat, setOk: bool)
    requires Invariant(c, ttl) && Past(c)
    ensures Invariant(Apply(c, ttl, Store(r, setOk)), ttl) && Past(Apply(c, ttl, Store(r, setOk)))
  {
    hide CacheKey, WasTrue;
    if r in c.fills {
      var c' := Apply(c, ttl, Store(r, setOk));
      assert FillOk(c, r);
      forall k <- c'.entries
        ensures EntryOk(c', ttl, k)
      {
        assert k in c.entries ==> EntryOk(c, ttl, k);
      }
      forall x <- c'.fills
        ensures FillOk(c', x)
      {
        assert FillOk(c, x);
      }
    }
  }

  lemma EvictPreserves(c: Cache, ttl: nat, k: string)
    requires Invariant(c, ttl) && Past(c)
    ensures Invariant(Apply(c, ttl, Evict(k)), ttl) && Past(Apply(c, ttl, Evict(k)))
  {
    hide CacheKey, WasTrue;
    var c' := Apply(c, ttl, Evict(k));
    assert forall j <- c'.entries :: EntryOk(c, ttl, j) ==> EntryOk(c', ttl, j);
    assert forall r <- c'.fills :: FillOk(c, r) ==> FillOk(c', r);
  }

  lemma TickPreserves(c: Cache, ttl: nat, d: nat)
    requires Invariant(c, ttl) && Past(c)
    ensures Invariant(Apply(c, ttl, Tick(d)), ttl) && Past(Apply(c, ttl, Tick(d)))
  {
    hide CacheKey, WasTrue;
    var c' := Apply(c, ttl, Tick(d));
    assert forall j <- c'.entries :: EntryOk(c, ttl, j) ==> EntryOk(c', ttl, j);
    assert forall r <- c'.fills :: FillOk(c, r) ==> FillOk(c', r);
  }

  lemma {:induction false} RunPreserves(c: Cache, ttl: nat, es: seq<Event>)
    requires Invariant(c, ttl) && Past(c)
    ensures Invariant(RunFrom(c, ttl, es), ttl)
    decreases |es|
  {
    hide Apply, Invariant, Past;
    if es != [] {
      ApplyPreserves(c, ttl, es[0]);
      RunPreserves(Apply(c, ttl, es[0]), ttl, es[1..]);
    }
  }

  /**
   Every page served on any run is the page of some state the database was in at a time no further
   back than the TTL plus the delay between that fill's read and its SET.
   */
  lemma BoundedStaleness(ttl: nat, es: seq<Event>, i: nat)
    requires i < |RunFrom(EMPTY, ttl, es).served|
    ensures var c := RunFrom(EMPTY, ttl, es);
            var s := c.served[i];
      && s.query.limit > 0
      && (exists v :: TrueIn(c.history, s.query, s.page, s.readAt, v))
      && s.at - s.readAt <= ttl + (s.setAt - s.readAt)
      && s.readAt <= s.setAt <= s.at
  {
    hide CacheKey, PageFor;
    RunPreserves(EMPTY, ttl, es);
    assert Fresh(RunFrom(EMPTY, ttl, es).history, ttl, RunFrom(EMPTY, ttl, es).served[i]);
  }

  /** A stored page is served until the TTL has passed since its SET, unless evicted or replaced, and not after. */
  lemma ServedWithinTtl(c: Cache, ttl: nat, r: nat, d: nat)
    requires r in c.fills
    ensures var f := c.fills[r];
            var aged := Apply(Apply(c, ttl, Store(r, true)), ttl, Tick(d));
            var asked := Apply(aged, ttl, Hit(f.query));
      && (d < ttl ==> asked == aged.(served := aged.served + [Served(f.query, f.page, c.now + d, f.readAt, c.now)]))
      && (d >= ttl ==> asked == aged)
  {
    hide CacheKey;
  }

  /** A miss reads the table as it is and serves that page, whether or not the SET works. */
  lemma FillServes(c: Cache, ttl: nat, r: nat, q: Query, setOk: bool)
    requires r !in c.fills && q.limit > 0
    ensures var w := Apply(Apply(c, ttl, Read(r, q)), ttl, Store(r, setOk));
            var page := ListPage(RowsOf(Current(c), q.channel), q.before, q.limit);
      && w.served == c.served + [Served(q, page, c.now, c.now, c.now)]
      && w.entries == (if setOk then c.entries[CacheKey(q) := Entry(q, page, c.now, c.now)] else c.entries)
      && w.history == c.history && w.fills == c.fills
  {
    hide CacheKey, ListPage;
  }

  // ---------------------------------------------------------------- the handlers, undisturbed

  class MessageService {
    const ttl: nat
    var tables: Tables
    var entries: map<string, Entry>
    var now: nat

    constructor (ttl: nat)
      ensures this.ttl == ttl && tables == map[] && entries == map[] && now == 0
    {
      this.ttl := ttl;
      tables, entries, now := map[], map[], 0;
    }

    /**
     list_messages.  perm is the permission service's answer, if it gives one; getOk, dbOk and setOk say
     whether Redis and Cassandra answer.  500 if the check or the table fails, 403 without READ; else a
     hit gives the stored page, and a miss, or a failed GET, the table's, which is stored if the SET works.
     */
    method List(channel: Channel, requested: Option<int>, before: Option<Uuid>, perm: Option<bool>,
                getOk: bool, dbOk: bool, setOk: bool)
      returns (status: int, page: Option<Page>)
      modifies this`entries
      ensures var n: nat := match requested
                            case None => 50
                            case Some(r) => if r < 1 then 1 else if r > 100 then 100 else r;
              var q := Query(channel, n, before);
              var hit := getOk && CacheKey(q) in old(entries);
        && (status == 403 <==> perm == Some(false))
        && (status == 500 <==> perm == None || (perm == Some(true) && !hit && !dbOk))
        && status in {200, 403, 500}
        && (status == 200 ==> page == Some(if hit then old(entries)[CacheKey(q)].page else ListPage(RowsOf(tables, channel), before, n)))
        && (status != 200 ==> page == None)
        && entries == if status == 200 && !hit && setOk
                      then old(entries)[CacheKey(q) := Entry(q, PageFor(tables, q), now, now)] else old(entries)
    {
      if perm.None? {
        return 500, None;
      }
      if !perm.value {
        return 403, None;
      }
      var q := Query(channel, Clamp(requested), before);
      var key := CacheKey(q);
      if getOk && key in entries {
        return 200, Some(entries[key].page);
      }
      if !dbOk {
        return 500, None;
      }
      var p := ListMessages(RowsOf(tables, channel), before, requested);
      if setOk {
        entries := entries[key := Entry(q, p, now, now)];
      }
      return 200, Some(p);
    }

    /** create_message: 500 if the check or the INSERT fails, 403 without WRITE, else the row is in its place. */
    method Create(channel: Channel, row: Row, perm: Option<bool>, dbOk: bool) returns (status: int)
      requires Descending(RowsOf(tables, channel))
      modifies this`tables
      ensures status == if perm.None? then 500 else if !perm.value then 403 else if !dbOk then 500 else 201
      ensures status != 201 ==> tables == old(tables)
      ensures Descending(RowsOf(tables, channel))
      ensures status == 201 ==>
        forall r :: r in RowsOf(tables, channel) <==> r == row || (r in RowsOf(old(tables), channel) && r.id != row.id)
      ensures forall ch :: ch != channel ==> RowsOf(tables, ch) == RowsOf(old(tables), ch)
    {
      if perm.None? {
        return 500;
      }
      if !perm.value {
        return 403;
      }
      if !dbOk {
        return 500;
      }
      hide InsertRow;
      var rows := RowsOf(tables, channel);
      InsertInOrder(rows, row);
      forall r
        ensures r in InsertRow(rows, row) <==> r == row || (r in rows && r.id != row.id)
      {
        InsertedRows(rows, row, r);
      }
      tables := tables[channel := InsertRow(RowsOf(tables, channel), row)];
      return 201;
    }

    /**
     delete_message: only the author, or someone with MANAGE, whose permission is asked for only then;
     and only once.  readOk and writeOk say whether Cassandra answers the SELECT and the UPDATE.
     */
    method Delete(channel: Channel, id: Uuid, user: string, manages: Option<bool>, readOk: bool, writeOk: bool)
      returns (status: int)
      modifies this`tables
      ensures var row := Find(RowsOf(old(tables), channel), id);
              var there := readOk && row.Some? && row.value.deletedAt.None?;
        && (status == 404 <==> readOk && !there)
        && (status == 403 <==> there && row.value.author != user && manages == Some(false))
        && (status == 500 <==> !readOk || (there && row.value.author != user && manages.None?)
                               || (there && (row.value.author == user || manages == Some(true)) && !writeOk))
        && status in {204, 403, 404, 500}
      ensures status != 204 ==> tables == old(tables)
      ensures status == 204 ==> var was, rows := RowsOf(old(tables), channel), RowsOf(tables, channel);
        && |rows| == |was|
        && (forall i | 0 <= i < |was| :: rows[i] == if was[i].id == id then was[i].(deletedAt := Some(now)) else was[i])
        && Live(rows) == Without(Live(was), id) && (forall m :: m in Live(rows) <==> m in Live(was) && m.id != id)
        && forall ch :: ch != channel ==> RowsOf(tables, ch) == RowsOf(old(tables), ch)
    {
      hide MarkDeleted, Live, Find, Without;
      if !readOk {
        return 500;
      }
      var row := Find(RowsOf(tables, channel), id);
      if row.None? || row.value.deletedAt.Some? {
        return 404;
      }
      if row.value.author != user {
        if manages.None? {
          return 500;
        }
        if !manages.value {
          return 403;
        }
      }
      if !writeOk {
        return 500;
      }
      DeletionHides(RowsOf(tables, channel), id, now);
      tables := tables[channel := MarkDeleted(RowsOf(tables, channel), id, now)];
      return 204;
    }
  }

  function Without(ms: seq<Message>, id: Uuid): (r: seq<Message>)
    ensures forall m :: m in r <==> m in ms && m.id != id
  {
    if ms == [] then [] else (if ms[0].id == id then [] else [ms[0]]) + Without(ms[1..], id)
  }

  /** A soft delete marks the rows with that id and touches no other; the live history loses that message only. */
  lemma {:induction false} DeletionHides(rows: seq<Row>, id: Uuid, at: int)
    ensures var marked := MarkDeleted(rows, id, at);
      && |marked| == |rows|
      && (forall i | 0 <= i < |rows| :: marked[i] == if rows[i].id == id then rows[i].(deletedAt := Some(at)) else rows[i])
      && Live(marked) == Without(Live(rows), id)
    decreases |rows|
  {
    if rows != [] {
      DeletionHides(rows[1..], id, at);
      var marked := MarkDeleted(rows, id, at);
      assert marked[1..] == MarkDeleted(rows[1..], id, at);
      LiveHead(rows);
      LiveHead(marked);
      if rows[0].deletedAt.None? {
        assert Live(rows)[1..] == Live(rows[1..]);
      }
    }
  }

  lemma LiveHead(rows: seq<Row>)
    requires rows != []
    ensures Live(rows) == if rows[0].deletedAt.Some? then Live(rows[1..])
                          else [Message(rows[0].id, rows[0].author, rows[0].content)] + Live(rows[1..])
  {
    assert [] + Live(rows[1..]) == Live(rows[1..]);
  }

  function Find(rows: seq<Row>, id: Uuid): (r: Option<Row>)
    ensures r.Some? ==> r.value in rows && r.value.id == id
    ensures r.None? <==> forall x <- rows :: x.id != id
  {
    if rows == [] then None else if rows[0].id == id then Some(rows[0]) else Find(rows[1..], id)
  }

  lemma {:induction false} InsertedRows(rows: seq<Row>, row: Row, r: Row)
    requires Descending(rows)
    ensures r in InsertRow(rows, row) <==> r == row || (r in rows && r.id != row.id)
    decreases |rows|
  {
    if rows != [] {
      var tail := rows[1..];
      assert rows == [rows[0]] + tail;
      assert forall i | 0 <= i < |tail| :: tail[i] == rows[i + 1];
      assert forall i | 0 <= i < |tail| :: tail[i].id < rows[0].id;
      if row.id < rows[0].id {
        InsertedRows(tail, row, r);
      }
    }
  }

  lemma AboveAll(top: Row, rest: seq<Row>)
    requires Descending(rest) && forall j | 0 <= j < |rest| :: rest[j].id < top.id
    ensures Descending([top] + rest)
  {
    var all := [top] + rest;
    assert forall j | 0 < j < |all| :: all[j] == rest[j - 1];
  }

  lemma {:induction false} InsertInOrder(rows: seq<Row>, row: Row)
    requires Descending(rows)
    ensures Descending(InsertRow(rows, row))
    decreases |rows|
  {
    if rows == [] {
    } else if row.id > rows[0].id {
      AboveAll(row, rows);
    } else {
      var tail := rows[1..];
      assert forall i | 0 <= i < |tail| :: tail[i] == rows[i + 1];
      if row.id == rows[0].id {
        AboveAll(row, tail);
      } else {
        InsertInOrder(tail, row);
        var rest := InsertRow(tail, row);
        forall j | 0 <= j < |rest|
          ensures rest[j].id < rows[0].id
        {
          InsertedRows(tail, row, rest[j]);
        }
        AboveAll(rows[0], rest);
      }
    }
  }
}
