/** Queries whose reads are spread over time: SMEMBERS first, then one read per member, each at its own moment. */
module PresenceQueries {
  import opened Prelude
  import opened Presence

  /** The state after the first k of the events that follow. */
  function After(w: World, fs: seq<Event>, k: nat): World {
    RunFrom(w, if k < |fs| then fs[..k] else fs)
  }

  /** queryByChannel: the members of the index at the start whose hash is there when it is their turn. */
  function ChannelAnswer(w: World, fs: seq<Event>, at: Conn -> nat, ch: Channel): set<Conn> {
    set p | p in w.db.byChannel && p.0 == ch && p.1 in After(w, fs, at(p.1)).db.sessions :: p.1
  }

  function UserAnswer(w: World, fs: seq<Event>, at: Conn -> nat, u: User): set<Conn> {
    set p | p in w.db.byUser && p.0 == u && p.1 in After(w, fs, at(p.1)).db.sessions :: p.1
  }

  lemma Answers(w: World, fs: seq<Event>, at: Conn -> nat, c: Conn)
    ensures forall ch :: c in ChannelAnswer(w, fs, at, ch) <==> (ch, c) in w.db.byChannel && c in After(w, fs, at(c)).db.sessions
    ensures forall u :: c in UserAnswer(w, fs, at, u) <==> (u, c) in w.db.byUser && c in After(w, fs, at(c)).db.sessions
  {
    hide After;
    forall ch
      ensures c in ChannelAnswer(w, fs, at, ch) <==> (ch, c) in w.db.byChannel && c in After(w, fs, at(c)).db.sessions
    {
      assert c in ChannelAnswer(w, fs, at, ch) ==> exists p :: p in w.db.byChannel && p == (ch, c);
    }
    forall u
      ensures c in UserAnswer(w, fs, at, u) <==> (u, c) in w.db.byUser && c in After(w, fs, at(c)).db.sessions
    {
      assert c in UserAnswer(w, fs, at, u) ==> exists p :: p in w.db.byUser && p == (u, c);
    }
  }

  /**
   Whatever happens between a query's reads: a connection with nothing in flight at the start, which a
   scan then finds, is in the answer if its session is still there when it is read.
   */
  lemma SpreadQueriesNeverMiss(es: seq<Event>, fs: seq<Event>, at: Conn -> nat, c: Conn)
    requires c !in RunFrom(EMPTY, es).ops
    ensures var w := RunFrom(EMPTY, es);
            var live := c in After(w, fs, at(c)).db.sessions;
      && (forall ch :: c in ScanByChannel(w.db, ch) && live ==> c in ChannelAnswer(w, fs, at, ch))
      && (forall u :: c in ScanByUser(w.db, u) && live ==> c in UserAnswer(w, fs, at, u))
  {
    hide After, RunFrom, ChannelAnswer, UserAnswer;
    var w := RunFrom(EMPTY, es);
    RunComplete(EMPTY, es);
    Answers(w, fs, at, c);
    assert Complete(w.db, c, OpOf(w, c));
  }

  /** Expired, and with nothing under way that could make it a session again. */
  ghost predicate Dead(w: World, c: Conn) {
    && c in w.lapsed && c !in w.db.sessions
    && (c in w.ops ==> w.ops[c].RegRead? || w.ops[c].DelRead? || w.ops[c].DelKey? || w.ops[c].DelUser? || w.ops[c].DelChannels?)
  }

  lemma DeadStaysDead(w: World, e: Event, c: Conn)
    requires Dead(w, c) && Orderly(w, e)
    ensures Dead(Apply(w, e), c)
  {
    if e.Step? && e.conn in w.ops && e.conn != c {
      hide Advance;
      AdvanceFrame(w.db, w.now, e.conn, w.ops[e.conn], c);
    }
  }

  lemma {:induction false} DeadForever(w: World, es: seq<Event>, c: Conn)
    requires Dead(w, c) && OrderlyRun(w, es)
    ensures Dead(RunFrom(w, es), c)
    decreases |es|
  {
    hide Apply, Dead, Orderly;
    if es != [] {
      DeadStaysDead(w, es[0], c);
      DeadForever(Apply(w, es[0]), es[1..], c);
    }
  }

  lemma {:induction false} OrderlySplits(w: World, a: seq<Event>, b: seq<Event>)
    requires OrderlyRun(w, a + b)
    ensures OrderlyRun(w, a) && OrderlyRun(RunFrom(w, a), b)
    decreases |a|
  {
    hide Apply, Orderly;
    if a == [] {
      assert a + b == b;
    } else {
      assert (a + b)[0] == a[0] && (a + b)[1..] == a[1..] + b;
      OrderlySplits(Apply(w, a[0]), a[1..], b);
    }
  }

  lemma OrderlyUpTo(w: World, fs: seq<Event>, k: nat)
    requires OrderlyRun(w, fs)
    ensures OrderlyRun(w, if k < |fs| then fs[..k] else fs)
  {
    if k < |fs| {
      assert fs == fs[..k] + fs[k..];
      OrderlySplits(w, fs[..k], fs[k..]);
    }
  }

  ghost predicate NoUser(db: Db, c: Conn) {
    forall u :: (u, c) !in db.byUser
  }

  /** A connection that is not registered has no user entry, unless its session expired. */
  ghost predicate UserClean(db: Db, c: Conn, op: Option<Op>, lapsed: bool, users: map<Conn, User>) {
    match op
    case Some(DelKey(u, _)) => c in users && users[c] == u
    case Some(DelUser(u, _)) => c in users && users[c] == u
    case Some(DelChannels(_)) => NoUser(db, c)
    case None => c in db.sessions || lapsed || NoUser(db, c)
    case Some(RegRead(_, _)) => c in db.sessions || lapsed || NoUser(db, c)
    case Some(DelRead) => c in db.sessions || lapsed || NoUser(db, c)
    case _ => true
  }

  ghost predicate Clean(w: World, c: Conn) {
    UserClean(w.db, c, OpOf(w, c), c in w.lapsed, w.users)
  }

  lemma AdvanceClean(db: Db, now: nat, c: Conn, op: Op, lapsed: bool, users: map<Conn, User>)
    requires ChannelsExact(db, c, Some(op), lapsed) && UserExact(db, c, Some(op), users)
    requires UserClean(db, c, Some(op), lapsed, users)
    ensures var (db', rest) := Advance(db, now, c, op); UserClean(db', c, rest, lapsed, users)
  {
    hide Within;
  }

  lemma StepClean(w: World, x: Conn, c: Conn)
    requires Exact(w, c) && Clean(w, c)
    ensures Clean(Apply(w, Step(x)), c)
  {
    hide Complete, ChannelsExact, UserExact, Advance, NoUser;
    if x == c && c in w.ops {
      AdvanceClean(w.db, w.now, c, w.ops[c], c in w.lapsed, w.users);
      assert OpOf(Apply(w, Step(c)), c) == Advance(w.db, w.now, c, w.ops[c]).1;
    } else if x in w.ops {
      AdvanceFrame(w.db, w.now, x, w.ops[x], c);
      SameEntries(w.db, Apply(w, Step(x)).db, c);
    }
  }

  lemma SameEntries(db: Db, e: Db, c: Conn)
    requires forall u :: (u, c) in e.byUser <==> (u, c) in db.byUser
    ensures NoUser(e, c) <==> NoUser(db, c)
  {
  }

  lemma OtherClean(w: World, e: Event, c: Conn)
    requires Clean(w, c) && !e.Step?
    ensures Clean(Apply(w, e), c)
  {
    hide Advance, NoUser;
    SameEntries(w.db, Apply(w, e).db, c);
  }

  lemma ApplyClean(w: World, e: Event, c: Conn)
    requires Exact(w, c) && Clean(w, c)
    ensures Clean(Apply(w, e), c)
  {
    hide Exact, Clean, Apply;
    if e.Step? {
      StepClean(w, e.conn, c);
    } else {
      OtherClean(w, e, c);
    }
  }

  lemma {:induction false} RunClean(w: World, es: seq<Event>, c: Conn)
    requires IndexExact(w) && Clean(w, c) && OrderlyRun(w, es)
    ensures Clean(RunFrom(w, es), c)
    decreases |es|
  {
    hide Apply, Exact, Clean, Orderly;
    if es != [] {
      assert Exact(w, c);
      ApplyExact(w, es[0]);
      ApplyClean(w, es[0], c);
      RunClean(Apply(w, es[0]), es[1..], c);
    }
  }

  /**
   On orderly runs the answers are exact: a connection with nothing in flight at the start is in the
   channel's answer, or the user's, if and only if a scan at the start finds it there and its session
   is still there when it is read.
   */
  lemma SpreadQueriesExact(es: seq<Event>, fs: seq<Event>, at: Conn -> nat, c: Conn)
    requires OrderlyRun(EMPTY, es + fs) && c !in RunFrom(EMPTY, es).ops
    ensures var w := RunFrom(EMPTY, es);
            var live := c in After(w, fs, at(c)).db.sessions;
      && (forall ch :: c in ChannelAnswer(w, fs, at, ch) <==> c in ScanByChannel(w.db, ch) && live)
      && (forall u :: c in UserAnswer(w, fs, at, u) <==> c in ScanByUser(w.db, u) && live)
  {
    hide RunFrom, ChannelAnswer, UserAnswer, OrderlyRun;
    var w := RunFrom(EMPTY, es);
    OrderlySplits(EMPTY, es, fs);
    RunExact(EMPTY, es);
    RunClean(EMPTY, es, c);
    assert Exact(w, c) && Clean(w, c);
    Answers(w, fs, at, c);
    ExactAgrees(w, c);
    if c in w.lapsed && c !in w.db.sessions {
      OrderlyUpTo(w, fs, at(c));
      DeadForever(w, if at(c) < |fs| then fs[..at(c)] else fs, c);
    }
    forall ch
      ensures c in w.db.sessions ==> ((ch, c) in w.db.byChannel <==> c in ScanByChannel(w.db, ch))
      ensures c !in w.db.sessions && (ch, c) in w.db.byChannel ==> c in w.lapsed
    {
      assert c in QueryByChannel(w.db, ch) <==> (ch, c) in w.db.byChannel && c in w.db.sessions;
    }
    forall u
      ensures c in w.db.sessions ==> ((u, c) in w.db.byUser <==> c in ScanByUser(w.db, u))
      ensures c !in w.db.sessions && (u, c) in w.db.byUser ==> c in w.lapsed
    {
      assert c in QueryByUser(w.db, u) <==> (u, c) in w.db.byUser && c in w.db.sessions;
    }
  }
}

/** The gateway's heartbeats keep a registered session from expiring, on the registry's own runs. */
module KeepAlive {
  import opened Prelude
  import opened Presence

  /** The event runs an EXPIRE that finds the connection's hash. */
  predicate Touches(w: World, e: Event, c: Conn) {
    && c in w.db.sessions
    && ((e == Step(c) && c in w.ops && w.ops[c].RegExpire?) || (e == BeatExpire(c) && c in w.beats))
  }

  function Touched(w: World, e: Event, c: Conn, past: set<nat>): set<nat> {
    past + if Touches(w, e, c) then {w.now} else {}
  }

  /** One of the 14 heartbeats after the k-th has run its EXPIRE. */
  ghost predicate OneBeat(past: set<nat>, start: nat, k: nat) {
    exists j, t :: BeatAt(past, start, k, j, t)
  }

  ghost predicate BeatAt(past: set<nat>, start: nat, k: nat, j: nat, t: nat) {
    k < j <= k + 14 && t in past && start + 120 * j <= t
  }

  /**
   The connection's ticker started at most 5 seconds after its register's EXPIRE, and of any 14
   consecutive two-minute heartbeats that were due by now, the 5-second timeout included, not all have failed.
   */
  ghost predicate OnSchedule(past: set<nat>, start: nat, now: nat) {
    && (exists r <- past :: start <= r + 5)
    && forall k: nat | start + 120 * (k + 14) + 5 <= now :: OneBeat(past, start, k)
  }

  /** Whenever the clock moves on while the connection has a session, its heartbeats are on schedule. */
  ghost predicate KeptAlive(w: World, past: set<nat>, es: seq<Event>, c: Conn, start: nat)
    decreases |es|
  {
    es == [] ||
    ((es[0].Tick? && c in w.db.sessions && w.db.sessions[c].deadline.Some? ==> OnSchedule(past, start, w.now + es[0].seconds))
     && KeptAlive(Apply(w, es[0]), Touched(w, es[0], c, past), es[1..], c, start))
  }

  /** The deadline is at least a TTL after every EXPIRE so far. */
  ghost predicate Renewed(w: World, c: Conn, past: set<nat>) {
    && (forall t <- past :: t <= w.now)
    && (c in w.db.sessions && w.db.sessions[c].deadline.Some? ==>
          forall t <- past :: t + SESSION_TTL <= w.db.sessions[c].deadline.value)
  }

  /** On schedule, some EXPIRE is less than a TTL ago. */
  lemma RecentBeat(past: set<nat>, start: nat, now: nat) returns (t: nat)
    requires OnSchedule(past, start, now)
    ensures t in past && now < t + SESSION_TTL
  {
    if now < start + 120 * 14 + 5 {
      t :| t in past && start <= t + 5;
    } else {
      var k := (now - 5 - start) / 120 - 14;
      assert start + 120 * (k + 14) + 5 <= now < start + 120 * (k + 15) + 5;
      assert OneBeat(past, start, k);
      var j: nat;
      j, t :| BeatAt(past, start, k, j, t);
    }
  }

  lemma TickRenews(w: World, d: nat, c: Conn, past: set<nat>, start: nat)
    requires Renewed(w, c, past) && c !in w.lapsed
    requires c in w.db.sessions && w.db.sessions[c].deadline.Some? ==> OnSchedule(past, start, w.now + d)
    ensures Renewed(Apply(w, Tick(d)), c, past) && c !in Apply(w, Tick(d)).lapsed
  {
    hide OnSchedule;
    if c in w.db.sessions && w.db.sessions[c].deadline.Some? {
      var t := RecentBeat(past, start, w.now + d);
      assert c !in Overdue(w.db, w.now + d);
    }
  }

  lemma OtherRenews(w: World, e: Event, c: Conn, past: set<nat>)
    requires Renewed(w, c, past) && c !in w.lapsed && !e.Tick?
    ensures Renewed(Apply(w, e), c, Touched(w, e, c, past)) && c !in Apply(w, e).lapsed
  {
    if e.Step? && e.conn in w.ops {
      if e.conn != c {
        hide Advance;
        AdvanceFrame(w.db, w.now, e.conn, w.ops[e.conn], c);
      }
    }
  }

  lemma {:induction false} NeverLapses(w: World, past: set<nat>, es: seq<Event>, c: Conn, start: nat)
    requires Renewed(w, c, past) && c !in w.lapsed && KeptAlive(w, past, es, c, start)
    ensures c !in RunFrom(w, es).lapsed
    decreases |es|
  {
    hide Apply, Renewed, OnSchedule, Touched;
    if es != [] {
      if es[0].Tick? {
        TickRenews(w, es[0].seconds, c, past, start);
        assert Touched(w, es[0], c, past) == past by { TickTouchesNothing(w, es[0], c, past); }
      } else {
        OtherRenews(w, es[0], c, past);
      }
      NeverLapses(Apply(w, es[0]), Touched(w, es[0], c, past), es[1..], c, start);
    }
  }

  lemma TickTouchesNothing(w: World, e: Event, c: Conn, past: set<nat>)
    requires e.Tick?
    ensures Touched(w, e, c, past) == past
  {
  }

  lemma {:induction false} KeptAliveSoFar(w: World, past: set<nat>, es: seq<Event>, n: nat, c: Conn, start: nat)
    requires KeptAlive(w, past, es, c, start) && n <= |es|
    ensures KeptAlive(w, past, es[..n], c, start)
    decreases n
  {
    hide Apply, OnSchedule, Touched;
    if n > 0 {
      assert es[..n][1..] == es[1..][..n - 1];
      KeptAliveSoFar(Apply(w, es[0]), Touched(w, es[0], c, past), es[1..], n - 1, c, start);
    }
  }

  /** A session whose heartbeats stay on schedule never expires, at any moment of the run. */
  lemma HeartbeatsKeepAlive(es: seq<Event>, n: nat, c: Conn, start: nat)
    requires KeptAlive(EMPTY, {}, es, c, start) && n <= |es|
    ensures c !in RunFrom(EMPTY, es[..n]).lapsed
  {
    hide KeptAlive, RunFrom;
    KeptAliveSoFar(EMPTY, {}, es, n, c, start);
    NeverLapses(EMPTY, {}, es[..n], c, start);
  }

  // ---------------------------------------------------------------- so the queries are exact

  lemma {:induction false} OrderlyPointwise(w: World, es: seq<Event>)
    requires forall n | 0 <= n < |es| :: Orderly(RunFrom(w, es[..n]), es[n])
    ensures OrderlyRun(w, es)
    decreases |es|
  {
    hide Apply, Orderly;
    if es != [] {
      assert es[..0] == [] && RunFrom(w, []) == w;
      var rest := es[1..];
      forall n | 0 <= n < |rest|
        ensures Orderly(RunFrom(Apply(w, es[0]), rest[..n]), rest[n])
      {
        assert es[..n + 1][0] == es[0] && es[..n + 1][1..] == rest[..n];
        assert RunFrom(w, es[..n + 1]) == RunFrom(Apply(w, es[0]), rest[..n]);
      }
      OrderlyPointwise(Apply(w, es[0]), rest);
    }
  }

  /** Every register is for the user the connection had. */
  ghost predicate SameUsers(es: seq<Event>) {
    forall n | 0 <= n < |es| && es[n].StartRegister? ::
      es[n].conn in RunFrom(EMPTY, es[..n]).users ==> RunFrom(EMPTY, es[..n]).users[es[n].conn] == es[n].user
  }

  /**
   If connections keep their users and every connection's heartbeats stay on schedule, with fewer than
   14 consecutive failures, the two indexed queries return exactly what a scan returns.
   */
  lemma HeartbeatsKeepQueriesExact(es: seq<Event>, start: Conn -> nat)
    requires SameUsers(es) && forall c :: KeptAlive(EMPTY, {}, es, c, start(c))
    ensures OrderlyRun(EMPTY, es)
    ensures var w := RunFrom(EMPTY, es);
      && (forall ch, c | c !in w.ops :: c in QueryByChannel(w.db, ch) <==> c in ScanByChannel(w.db, ch))
      && (forall u, c | c !in w.ops :: c in QueryByUser(w.db, u) <==> c in ScanByUser(w.db, u))
  {
    hide RunFrom, KeptAlive, QueryByChannel, QueryByUser, ScanByChannel, ScanByUser, OrderlyRun;
    forall n | 0 <= n < |es|
      ensures Orderly(RunFrom(EMPTY, es[..n]), es[n])
    {
      if es[n].Step? {
        HeartbeatsKeepAlive(es, n, es[n].conn, start(es[n].conn));
      }
    }
    OrderlyPointwise(EMPTY, es);
    QueriesAgreeWithScan(es);
  }
}
