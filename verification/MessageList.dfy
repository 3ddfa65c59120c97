/** The client's scrolled-back history: an initial page, older pages put in front, and the merged list. */
module MessageList {
  import opened Prelude
  import opened Uuids
  import opened Messages
  import opened MessageWalks
  import ChannelView

  /** What the component holds: the fetched messages, oldest first, and whether there are more. */
  datatype History = History(messages: seq<Message>, hasMore: bool)

  /** The client asks for pages of 50. */
  const PAGE: nat := 50

  function Reverse<T>(s: seq<T>): (r: seq<T>)
    ensures |r| == |s| && forall i | 0 <= i < |s| :: r[i] == s[|s| - 1 - i]
  {
    if s == [] then [] else Reverse(s[1..]) + [s[0]]
  }

  function InitialLoad(page: Page): History {
    History(Reverse(page.messages), page.hasMore)
  }

  function Prepend(h: History, page: Page): History {
    History(Reverse(page.messages) + h.messages, page.hasMore)
  }

  /** Reaching the top asks for what is older than the oldest message shown, unless there is none. */
  function LoadMore(rows: seq<Row>, h: History): History {
    if !h.hasMore || h.messages == [] then h
    else Prepend(h, ListPage(rows, Some(h.messages[0].id), PAGE))
  }

  /** The initial load from the table at time 0, and the k-th load-more from the table at time k. */
  function Scrolled(tables: nat -> seq<Row>, k: nat): History {
    if k == 0 then InitialLoad(ListPage(tables(0), None, PAGE)) else LoadMore(tables(k), Scrolled(tables, k - 1))
  }

  lemma ReverseConcat<T>(a: seq<T>, b: seq<T>)
    ensures Reverse(a + b) == Reverse(b) + Reverse(a)
  {
  }

  lemma ReverseTwice<T>(s: seq<T>)
    ensures Reverse(Reverse(s)) == s
  {
  }

  /** A page says there is more exactly when it has a cursor, and the cursor is its last message. */
  lemma CursorIsLast(rows: seq<Row>, before: Option<Uuid>)
    ensures var page := ListPage(rows, before, PAGE);
      && (page.hasMore <==> page.nextCursor.Some?)
      && (page.hasMore ==> page.messages != [] && page.nextCursor == Some(page.messages[|page.messages| - 1].id))
  {
    hide Older, Live;
  }

  /** The walk still to be done from a history. */
  function Rest(tables: nat -> seq<Row>, k: nat, h: History): seq<Message>
    requires OnlyInserts(tables)
  {
    if h.hasMore && h.messages != [] then WalkOver(tables, k + 1, Some(h.messages[0].id), PAGE) else []
  }

  /** Putting a reversed page in front is appending the page to what was read newest first. */
  lemma ReadsOn<T>(page: seq<T>, shown: seq<T>)
    ensures Reverse(Reverse(page) + shown) == Reverse(shown) + page
  {
    hide Reverse;
    ReverseConcat(Reverse(page), shown);
    ReverseTwice(page);
  }

  lemma WalkOverStep(tables: nat -> seq<Row>, t: nat, before: Option<Uuid>)
    requires OnlyInserts(tables)
    ensures var page := ListPage(tables(t), before, PAGE);
      WalkOver(tables, t, before, PAGE)
        == page.messages + (if page.nextCursor.Some? then WalkOver(tables, t + 1, page.nextCursor, PAGE) else [])
  {
    hide ListPage, OnlyInserts;
  }

  lemma PageAndRest(tables: nat -> seq<Row>, t: nat, before: Option<Uuid>, shown: seq<Message>)
    requires OnlyInserts(tables)
    ensures var h := Prepend(History(shown, true), ListPage(tables(t), before, PAGE));
      && (h.hasMore ==> h.messages != [])
      && Reverse(h.messages) + Rest(tables, t, h) == Reverse(shown) + WalkOver(tables, t, before, PAGE)
  {
    hide ListPage, OnlyInserts, Reverse, WalkOver;
    var page := ListPage(tables(t), before, PAGE);
    CursorIsLast(tables(t), before);
    ReadsOn(page.messages, shown);
    WalkOverStep(tables, t, before);
    if page.hasMore {
      assert Reverse(page.messages)[0] == page.messages[|page.messages| - 1];
    }
  }

  lemma {:induction false} ScrollWalks(tables: nat -> seq<Row>, k: nat)
    requires OnlyInserts(tables)
    ensures var h := Scrolled(tables, k);
      && (h.hasMore ==> h.messages != [])
      && WalkOver(tables, 0, None, PAGE) == Reverse(h.messages) + Rest(tables, k, h)
    decreases k
  {
    hide OnlyInserts, ListPage, WalkOver;
    if k == 0 {
      PageAndRest(tables, 0, None, []);
      assert Scrolled(tables, 0).messages == Prepend(History([], true), ListPage(tables(0), None, PAGE)).messages;
    } else {
      var h := Scrolled(tables, k - 1);
      ScrollWalks(tables, k - 1);
      if h.hasMore {
        PageAndRest(tables, k, Some(h.messages[0].id), h.messages);
      }
    }
  }

  /**
   However far the client scrolls back, and whatever is posted meanwhile: what it holds, read newest
   first, is a prefix of the live history of the table at the initial load, ids strictly ascending on
   screen; and once the server says there is no more, it is the whole page walk of that table.
   */
  lemma ScrollIsPrefix(tables: nat -> seq<Row>, k: nat)
    requires OnlyInserts(tables)
    ensures var h, history := Scrolled(tables, k), Live(tables(0));
      && |h.messages| <= |history| && Reverse(h.messages) == history[..|h.messages|]
      && (forall i, j | 0 <= i < j < |h.messages| :: h.messages[i].id < h.messages[j].id)
      && (!h.hasMore ==> Reverse(h.messages) == Walk(tables(0), None, PAGE))
  {
    hide Walk, WalkOver, Live, Stop, Scrolled, Reverse;
    var h := Scrolled(tables, k);
    var newestFirst := Reverse(h.messages);
    ScrollWalks(tables, k);
    InsertsDoNotDisturb(tables, 0, None, PAGE);
    assert Descending(tables(0)) && Extends(tables(0), tables(0 + 1));
    WalkIsPrefix(tables(0), PAGE);
    var walk := Walk(tables(0), None, PAGE);
    assert walk == newestFirst + Rest(tables, k, h);
    assert newestFirst == walk[..|h.messages|];
    assert forall i | 0 <= i < |h.messages| :: h.messages[i] == walk[|h.messages| - 1 - i];
  }

  // ---------------------------------------------------------------- deletes, and pages from the cache

  /** The k-th load is answered from some state of the table: the current one, or one a cached page was read in. */
  function Served(tables: nat -> seq<Row>, state: nat -> nat): nat -> seq<Row> {
    (k: nat) => tables(state(k))
  }

  /** The state the k-th load is answered from holds the row whose id is its cursor. */
  ghost predicate CursorKnown(views: nat -> seq<Row>, k: nat) {
    k > 0 && Scrolled(views, k - 1).hasMore ==>
      Scrolled(views, k - 1).messages != [] && HasId(views(k), Scrolled(views, k - 1).messages[0].id)
  }

  /** Two states of a partition that share a row hold the same rows below it, whatever was deleted. */
  ghost predicate Agree(a: seq<Row>, b: seq<Row>) {
    forall i, j | 0 <= i < |a| && 0 <= j < |b| && a[i].id == b[j].id :: Ids(a)[i..] == Ids(b)[j..]
  }

  lemma {:induction false} WrittenSince(tables: nat -> seq<Row>, s: nat, t: nat)
    requires Evolves(tables) && s <= t
    ensures Written(tables(s), tables(t))
    decreases t
  {
    hide SameRow;
    if s < t {
      WrittenSince(tables, s, t - 1);
      assert Written(tables(t - 1), tables(t - 1 + 1));
      WrittenTwice(tables(s), tables(t - 1), tables(t));
    } else {
      Unwritten(tables(s));
    }
  }

  lemma Unwritten(rows: seq<Row>)
    ensures Written(rows, rows)
  {
    assert rows[0..] == rows;
    assert SameRows(rows, rows[0..]);
  }

  lemma WrittenTwice(a: seq<Row>, b: seq<Row>, c: seq<Row>)
    requires Written(a, b) && Written(b, c)
    ensures Written(a, c)
  {
    hide SameRow;
    var k: nat :| k <= |b| && SameRows(a, b[k..]);
    var l: nat :| l <= |c| && SameRows(b, c[l..]);
    DropTwice(c, l, k);
    SameTwice(a, b, c[l..], k);
    assert k + l <= |c| && SameRows(a, c[k + l..]);
  }

  lemma DropTwice<T>(s: seq<T>, l: nat, k: nat)
    requires l + k <= |s|
    ensures s[l..][k..] == s[k + l..]
  {
  }

  lemma SameTwice(a: seq<Row>, b: seq<Row>, c: seq<Row>, k: nat)
    requires k <= |b| && SameRows(a, b[k..]) && SameRows(b, c)
    ensures SameRows(a, c[k..])
  {
    forall i | 0 <= i < |a|
      ensures SameRow(a[i], c[k..][i])
    {
      assert SameRow(a[i], b[k..][i]) && SameRow(b[k + i], c[k + i]);
    }
  }

  lemma WrittenAgree(a: seq<Row>, b: seq<Row>)
    requires Descending(b) && Written(a, b)
    ensures Agree(a, b) && Agree(b, a)
  {
    hide Descending, Ids;
    var k: nat :| k <= |b| && SameRows(a, b[k..]);
    forall i, j | 0 <= i < |a| && 0 <= j < |b| && a[i].id == b[j].id
      ensures Ids(a)[i..] == Ids(b)[j..]
    {
      AgreeAt(a, b, k, i, j);
    }
  }

  lemma AgreeAt(a: seq<Row>, b: seq<Row>, k: nat, i: nat, j: nat)
    requires Descending(b) && k <= |b| && SameRows(a, b[k..]) && i < |a| && j < |b| && a[i].id == b[j].id
    ensures Ids(a)[i..] == Ids(b)[j..]
  {
    hide Descending, SameRow;
    SameIds(a, b[k..]);
    IdsFrom(b, k);
    assert a[i].id == Ids(a)[i] == Ids(b)[k..][i] == b[k + i].id;
    SamePlace(b, k + i, j);
    assert Ids(b)[k..][i..] == Ids(b)[k + i..];
  }

  lemma StatesAgree(tables: nat -> seq<Row>, s: nat, t: nat)
    requires Evolves(tables)
    ensures Agree(tables(s), tables(t)) && Descending(tables(t))
  {
    hide Agree, Written;
    assert Descending(tables(s)) && Descending(tables(t));
    if s <= t {
      WrittenSince(tables, s, t);
      WrittenAgree(tables(s), tables(t));
    } else {
      WrittenSince(tables, t, s);
      WrittenAgree(tables(t), tables(s));
    }
  }

  /** What is older than a known cursor is, in every state, what the first state has below it. */
  lemma BelowCursor(base: seq<Row>, view: seq<Row>, i: nat)
    requires Descending(view) && Agree(base, view) && i < |base| && HasId(view, base[i].id)
    ensures Ids(Older(view, Some(base[i].id))) == Ids(base)[i + 1..]
  {
    var j :| 0 <= j < |view| && view[j].id == base[i].id;
    OlderSuffix(view, j);
    IdsFrom(view, j + 1);
    assert Ids(base)[i..] == Ids(view)[j..];
    assert Ids(base)[i..][1..] == Ids(base)[i + 1..] && Ids(view)[j..][1..] == Ids(view)[j + 1..];
  }

  /** Read newest first, the ids the component holds. */
  function NewestFirst(h: History): seq<Uuid7> {
    MessageIds(Reverse(h.messages))
  }

  /** After k load-mores that all continue: every row of the first k + 1 pages, in order, none skipped. */
  ghost predicate GoesOn(views: nat -> seq<Row>, k: nat) {
    var h, ids := Scrolled(views, k), Ids(views(0));
    && h.hasMore && h.messages != [] && (k + 1) * 50 <= |ids|
    && FullPages(views, 0, ids, None, 50, k + 1)
    && NewestFirst(h) == ids[..(k + 1) * 50] && h.messages[0].id == ids[(k + 1) * 50 - 1]
  }

  /** The n-th load found a short window or a deleted row in it, and ended the history. */
  ghost predicate Ended(views: nat -> seq<Row>, k: nat, n: nat) {
    var h, ids := Scrolled(views, k), Ids(views(0));
    && !h.hasMore && n <= k && EndsAt(views, 0, ids, None, 50, n)
    && NewestFirst(h) == IdsUpTo(views, 0, ids, None, 50, n)
  }

  /** One load: from this many full pages to one more, or to the end. */
  lemma LoadPage(views: nat -> seq<Row>, n: nat, shown: seq<Message>)
    requires var ids := Ids(views(0)); var before := CursorAt(ids, None, PAGE, n);
      && Descending(views(n)) && n * PAGE <= |ids| && Ids(Older(views(n), before)) == ids[n * PAGE..]
      && FullPages(views, 0, ids, None, PAGE, n)
      && MessageIds(Reverse(shown)) == ids[..n * PAGE]
    ensures var ids := Ids(views(0)); var before := CursorAt(ids, None, PAGE, n);
      var h := Prepend(History(shown, true), ListPage(views(n), before, PAGE));
      if h.hasMore then
        && h.messages != [] && (n + 1) * PAGE <= |ids| && FullPages(views, 0, ids, None, PAGE, n + 1)
        && NewestFirst(h) == ids[..(n + 1) * PAGE] && h.messages[0].id == ids[(n + 1) * PAGE - 1]
      else EndsAt(views, 0, ids, None, PAGE, n) && NewestFirst(h) == IdsUpTo(views, 0, ids, None, PAGE, n)
  {
    hide Older, ListPage, Live, Ids, MessageIds, FullWindow, Reverse;
    var ids := Ids(views(0));
    var before := CursorAt(ids, None, PAGE, n);
    var page := ListPage(views(n), before, PAGE);
    assert WindowAt(views, 0, ids, None, PAGE, n) == Older(views(n), before);
    PageIds(views(n), before, PAGE);
    ReadsOn(page.messages, shown);
    IdsConcat(Reverse(shown), page.messages);
    if page.hasMore {
      assert ids[n * PAGE..][..PAGE] == ids[n * PAGE..(n + 1) * PAGE];
      assert ids[..n * PAGE] + ids[n * PAGE..(n + 1) * PAGE] == ids[..(n + 1) * PAGE];
      CursorIsLast(views(n), before);
      assert Reverse(page.messages)[0] == page.messages[|page.messages| - 1];
    }
  }

  /**
   However far the client scrolls, with messages posted and deleted meanwhile and any of the pages
   served stale from the cache, as long as each load is answered from a state that holds the row of
   its cursor: while there is more, it has shown exactly the first rows of the first state, page by
   page; and it ends at the first load whose window is short or holds a row deleted by then.
   */
  lemma {:induction false} ScrollShowsPages(tables: nat -> seq<Row>, state: nat -> nat, k: nat)
    requires Evolves(tables)
    requires forall j | 0 <= j <= k :: CursorKnown(Served(tables, state), j)
    ensures var views := Served(tables, state);
      if Scrolled(views, k).hasMore then GoesOn(views, k) else exists n :: Ended(views, k, n)
    decreases k
  {
    hide Older, ListPage, Live, Ids, MessageIds, FullPages, EndsAt, IdsUpTo, Reverse, Agree, HasId, Scrolled, Evolves;
    var views := Served(tables, state);
    assert forall j: nat :: views(j) == tables(state(j));
    var ids := Ids(views(0));
    StatesAgree(tables, state(0), state(k));
    if k == 0 {
      FirstLoad(views);
    } else {
      ScrollShowsPages(tables, state, k - 1);
      var h := Scrolled(views, k - 1);
      ScrolledStep(views, k);
      if h.hasMore {
        assert CursorKnown(views, k);
        FullRows(views, k);
        BelowCursor(views(0), views(k), k * PAGE - 1);
        LoadPage(views, k, h.messages);
        if !Scrolled(views, k).hasMore { assert Ended(views, k, k); }
      } else {
        var n: nat :| Ended(views, k - 1, n);
        assert Ended(views, k, n);
      }
    }
  }

  lemma ScrolledStep(views: nat -> seq<Row>, k: nat)
    requires k > 0
    ensures var h := Scrolled(views, k - 1);
      && (h.hasMore && h.messages != [] ==> Scrolled(views, k) == Prepend(h, ListPage(views(k), Some(h.messages[0].id), PAGE)))
      && (!h.hasMore ==> Scrolled(views, k) == h)
  {
    hide ListPage;
  }

  lemma FullRows(views: nat -> seq<Row>, k: nat)
    requires k > 0 && k * PAGE <= |Ids(views(0))|
    ensures CursorAt(Ids(views(0)), None, PAGE, k) == Some(views(0)[k * PAGE - 1].id)
  {
  }

  lemma FirstLoad(views: nat -> seq<Row>)
    requires Descending(views(0))
    ensures if Scrolled(views, 0).hasMore then GoesOn(views, 0) else Ended(views, 0, 0)
  {
    hide ListPage, Live, Ids, MessageIds, FullWindow, Reverse, EndsAt, IdsUpTo;
    NoPages(views, 0, Ids(views(0)), None, PAGE);
    assert Reverse<Message>([]) == [];
    assert MessageIds([]) == [];
    LoadPage(views, 0, []);
    assert Scrolled(views, 0) == Prepend(History([], true), ListPage(views(0), None, PAGE));
  }

  /** While there is more, the oldest message shown is a row of the state it was read from. */
  lemma {:induction false} OldestIsRow(views: nat -> seq<Row>, k: nat)
    requires forall t: nat :: Descending(views(t))
    requires Scrolled(views, k).hasMore
    ensures Scrolled(views, k).messages != [] && HasId(views(k), Scrolled(views, k).messages[0].id)
    decreases k
  {
    hide ListPage, Descending, Reverse, Older, Ids, HasId, Scrolled;
    var before: Option<Uuid> := None;
    if k == 0 {
      FirstStep(views);
    } else {
      ScrolledStep(views, k);
      OldestIsRow(views, k - 1);
      before := Some(Scrolled(views, k - 1).messages[0].id);
    }
    var page := ListPage(views(k), before, PAGE);
    assert Descending(views(k));
    CursorIsRow(views(k), before);
    assert Reverse(page.messages)[0] == page.messages[|page.messages| - 1];
  }

  lemma FirstStep(views: nat -> seq<Row>)
    ensures Scrolled(views, 0) == InitialLoad(ListPage(views(0), None, PAGE))
  {
    hide ListPage;
  }

  lemma CursorIsRow(rows: seq<Row>, before: Option<Uuid>)
    requires Descending(rows)
    ensures var page := ListPage(rows, before, PAGE);
      page.hasMore ==> page.messages != [] && HasId(rows, page.messages[|page.messages| - 1].id)
  {
    hide ListPage, Older, Descending;
    CursorIsLast(rows, before);
    PageIds(rows, before, PAGE);
    var n := OlderIsSuffix(rows, before);
    if ListPage(rows, before, PAGE).hasMore {
      assert Older(rows, before)[PAGE - 1] == rows[n + PAGE - 1];
    }
  }

  /** A load answered from a state no older than that of the load before knows its cursor. */
  lemma FreshPagesKnowCursors(tables: nat -> seq<Row>, state: nat -> nat, k: nat)
    requires Evolves(tables) && (k > 0 ==> state(k - 1) <= state(k))
    ensures CursorKnown(Served(tables, state), k)
  {
    hide Scrolled, Written, HasId, Descending;
    var views := Served(tables, state);
    if k > 0 && Scrolled(views, k - 1).hasMore {
      assert forall t: nat :: views(t) == tables(state(t));
      OldestIsRow(views, k - 1);
      WrittenSince(tables, state(k - 1), state(k));
      StillThere(tables(state(k - 1)), tables(state(k)), Scrolled(views, k - 1).messages[0].id);
    }
  }

  lemma StillThere(a: seq<Row>, b: seq<Row>, id: Uuid7)
    requires Written(a, b) && HasId(a, id)
    ensures HasId(b, id)
  {
    var k: nat :| k <= |b| && SameRows(a, b[k..]);
    var i :| 0 <= i < |a| && a[i].id == id;
    assert SameRow(a[i], b[k..][i]);
    assert b[k + i].id == id;
  }

  // ---------------------------------------------------------------- what is on screen

  function Show(ms: seq<Message>): (list: seq<ChannelView.Shown>)
    ensures |list| == |ms|
    ensures forall i | 0 <= i < |ms| :: list[i] == ChannelView.Shown(Text(ms[i].id), ms[i].content)
  {
    if ms == [] then [] else [ChannelView.Shown(Text(ms[0].id), ms[0].content)] + Show(ms[1..])
  }

  lemma TextDiffers(u: Uuid, v: Uuid)
    requires u != v
    ensures Text(u) != Text(v)
  {
    hide Text;
    if Text(u) == Text(v) {
      TextInjective(u, v);
    }
  }

  lemma ShownDiffers(ms: seq<Message>, i: nat, j: nat)
    requires i < |ms| && j < |ms| && ms[i].id != ms[j].id
    ensures Show(ms)[i].id != Show(ms)[j].id
  {
    hide Text, Show;
    TextDiffers(ms[i].id, ms[j].id);
  }

  ghost predicate Ascending(ms: seq<Message>) {
    forall i, j | 0 <= i < j < |ms| :: ms[i].id < ms[j].id
  }

  lemma {:induction false} ShowDistinct(ms: seq<Message>)
    requires Ascending(ms)
    ensures ChannelView.DistinctIds(Show(ms))
  {
    hide Text;
    forall i, j | 0 <= i < j < |ms|
      ensures Show(ms)[i].id != Show(ms)[j].id
    {
      assert ms[i].id < ms[j].id;
      ShownDiffers(ms, i, j);
    }
  }

  /** The component with a load-more on its way: the page that will arrive. */
  datatype Component = Component(history: History, pending: Option<Page>)

  /** A load-more answered from some state of the table, its arrival, and the user deleting a message. */
  datatype Happening =
    | Ask(rows: seq<Row>)
    | Arrive
    | Drop(id: Uuid7)

  function Dropped(ms: seq<Message>, id: Uuid7): (r: seq<Message>)
    ensures forall m :: m in r <==> m in ms && m.id != id
  {
    if ms == [] then [] else (if ms[0].id == id then [] else [ms[0]]) + Dropped(ms[1..], id)
  }

  function Next(c: Component, e: Happening): Component {
    match e
    case Ask(rows) =>
      var h := c.history;
      if c.pending.Some? || !h.hasMore || h.messages == [] then c
      else c.(pending := Some(ListPage(rows, Some(h.messages[0].id), PAGE)))
    case Arrive => if c.pending.None? then c else Component(Prepend(c.history, c.pending.value), None)
    case Drop(id) => c.(history := c.history.(messages := Dropped(c.history.messages, id)))
  }

  function Happened(c: Component, es: seq<Happening>): Component
    decreases |es|
  {
    if es == [] then c else Happened(Next(c, es[0]), es[1..])
  }

  function Opened(rows: seq<Row>): Component {
    Component(InitialLoad(ListPage(rows, None, PAGE)), None)
  }

  lemma AskedAndArrived(rows: seq<Row>, h: History)
    ensures Happened(Component(h, None), [Ask(rows), Arrive]) == Component(LoadMore(rows, h), None)
  {
    hide ListPage;
    assert [Ask(rows), Arrive][1..] == [Arrive] && [Arrive][1..] == [];
    var c := Next(Component(h, None), Ask(rows));
    assert Happened(c, [Arrive]) == Happened(Next(c, Arrive), []);
  }

  ghost predicate FromTables(es: seq<Happening>) {
    forall i | 0 <= i < |es| && es[i].Ask? :: Descending(es[i].rows)
  }

  ghost predicate AllOlder(page: seq<Message>, shown: seq<Message>) {
    forall m, n | m in page && n in shown :: m.id < n.id
  }

  /** Ids ascend in the list, and a page on its way lies below all of it. */
  ghost predicate InOrder(c: Component) {
    && Ascending(c.history.messages)
    && (c.pending.Some? ==> IdsDescend(c.pending.value.messages) && AllOlder(c.pending.value.messages, c.history.messages))
  }

  lemma {:induction false} DroppedAscends(ms: seq<Message>, id: Uuid7)
    requires Ascending(ms)
    ensures Ascending(Dropped(ms, id))
    decreases |ms|
  {
    if ms != [] {
      DroppedAscends(ms[1..], id);
      var rest := Dropped(ms[1..], id);
      forall j | 0 <= j < |rest|
        ensures ms[0].id < rest[j].id
      {
        assert rest[j] in rest;
      }
    }
  }

  lemma AskedInOrder(rows: seq<Row>, shown: seq<Message>)
    requires Descending(rows) && Ascending(shown) && shown != []
    ensures var page := ListPage(rows, Some(shown[0].id), PAGE); IdsDescend(page.messages) && AllOlder(page.messages, shown)
  {
    hide ListPage, Descending, IdsDescend;
    var page := ListPage(rows, Some(shown[0].id), PAGE);
    PageDescends(rows, Some(shown[0].id), PAGE);
    forall m, n | m in page.messages && n in shown
      ensures m.id < n.id
    {
      var j :| 0 <= j < |page.messages| && page.messages[j] == m;
      var k :| 0 <= k < |shown| && shown[k] == n;
    }
  }

  lemma InFront(page: seq<Message>, shown: seq<Message>)
    requires IdsDescend(page) && Ascending(shown) && AllOlder(page, shown)
    ensures Ascending(Reverse(page) + shown)
  {
    hide Reverse;
    var front := Reverse(page);
    forall i, j | 0 <= i < j < |front + shown|
      ensures (front + shown)[i].id < (front + shown)[j].id
    {
      if i < |front| <= j {
        assert page[|page| - 1 - i] in page && shown[j - |front|] in shown;
      }
    }
  }

  lemma NextInOrder(c: Component, e: Happening)
    requires InOrder(c) && (e.Ask? ==> Descending(e.rows))
    ensures InOrder(Next(c, e))
  {
    hide ListPage, Descending, Ascending, IdsDescend, Reverse, Dropped;
    var ms := c.history.messages;
    match e
    case Ask(rows) => if c.pending.None? && ms != [] { AskedInOrder(rows, ms); }
    case Arrive => if c.pending.Some? { InFront(c.pending.value.messages, ms); }
    case Drop(id) => DroppedAscends(ms, id);
  }

  /**
   Whatever states of the table its pages are read in, and whatever the user deletes meanwhile: each
   page lies below the cursor it was asked for, so the ids of the list strictly ascend.
   */
  lemma {:induction false} ListAscends(c: Component, es: seq<Happening>)
    requires InOrder(c) && FromTables(es)
    ensures Ascending(Happened(c, es).history.messages)
    decreases |es|
  {
    hide Next, Descending;
    if es == [] {
      assert Happened(c, es) == c;
    } else {
      NextInOrder(c, es[0]);
      ListAscends(Next(c, es[0]), es[1..]);
    }
  }

  lemma OpensInOrder(rows: seq<Row>)
    requires Descending(rows)
    ensures InOrder(Opened(rows))
  {
    hide ListPage, Descending, Reverse;
    PageDescends(rows, None, PAGE);
    var page := ListPage(rows, None, PAGE).messages;
    InFront(page, []);
    assert Reverse(page) + [] == Reverse(page);
  }

  /**
   History scrolled back, from whatever states of the table its pages are read in and with messages
   deleted by the user meanwhile, merged with the optimistic messages of any orderly run: no id is ever
   on screen twice, and none that is held, placed, echoed or confirmed is missing.
   */
  lemma ScreenHasNoDuplicates(rows: seq<Row>, happenings: seq<Happening>, body: Uuid -> string, es: seq<ChannelView.Event>)
    requires Descending(rows) && FromTables(happenings) && ChannelView.Orderly(es)
    ensures var fetched, extra := Show(Happened(Opened(rows), happenings).history.messages), ChannelView.Run(body, es).extra;
      && ChannelView.DistinctIds(ChannelView.Merge(fetched, extra))
      && forall id :: ChannelView.Has(ChannelView.Merge(fetched, extra), id) <==>
                        ChannelView.Has(fetched, id) || ChannelView.Has(extra, id)
  {
    hide Happened, Opened, Show, ChannelView.Run, ChannelView.Merge, Descending, ChannelView.Orderly, InOrder;
    OpensInOrder(rows);
    ListAscends(Opened(rows), happenings);
    var ms := Happened(Opened(rows), happenings).history.messages;
    ShowDistinct(ms);
    ChannelView.ListOfRun(body, es);
    ChannelView.MergeKeeps(Show(ms), ChannelView.Run(body, es).extra);
  }
}
