/**
 The session registry: a Redis hash per connection with a 30-minute TTL, and two secondary
 indexes, by user and by channel.  The HTTP handlers are split at every single Redis command,
 so that the commands of different connections interleave freely.
 */
module Presence {
  import opened Prelude

  type Conn = string
  type User = string
  type Channel = string

  const SESSION_TTL: nat := 30 * 60

  /** deadline is None between the HSET that creates the hash and the EXPIRE that follows it. */
  datatype Session = Session(user: User, channels: seq<Channel>, deadline: Option<nat>)

  /** What Redis holds: the live session hashes and the two index families, as pairs. */
  datatype Db = Db(sessions: map<Conn, Session>, byUser: set<(User, Conn)>, byChannel: set<(Channel, Conn)>)

  // ---------------------------------------------------------------- Redis commands

  /** HSET keeps the TTL of a hash that is still there. */
  function HSet(db: Db, c: Conn, u: User, chs: seq<Channel>): Db {
    var deadline := if c in db.sessions then db.sessions[c].deadline else None;
    db.(sessions := db.sessions[c := Session(u, chs, deadline)])
  }

  /** EXPIRE does nothing to a key that does not exist. */
  function Expire(db: Db, now: nat, c: Conn): Db {
    if c in db.sessions
    then db.(sessions := db.sessions[c := db.sessions[c].(deadline := Some(now + SESSION_TTL))])
    else db
  }

  function Del(db: Db, c: Conn): Db {
    db.(sessions := db.sessions - {c})
  }

  /** The connections whose deadline has passed at the given time. */
  function Overdue(db: Db, now: nat): set<Conn> {
    set c | c in db.sessions && db.sessions[c].deadline.Some? && db.sessions[c].deadline.value <= now
  }

  // ---------------------------------------------------------------- handlers, one command at a time

  /** Where a register or deregister request stands: the command it issues next. */
  datatype Op =
    | RegRead(user: User, channels: seq<Channel>)                          // HGETALL
    | RegClean(left: seq<Channel>, user: User, channels: seq<Channel>)     // SREM of each old channel, then HSET
    | RegExpire(user: User, channels: seq<Channel>)                        // EXPIRE
    | RegAddUser(user: User, channels: seq<Channel>)                       // SADD to the user index
    | RegAddChannels(left: seq<Channel>, user: User, channels: seq<Channel>) // SADD to each channel index
    | DelRead                                                              // HGETALL
    | DelKey(user: User, channels: seq<Channel>)                           // DEL
    | DelUser(user: User, channels: seq<Channel>)                          // SREM from the user index
    | DelChannels(left: seq<Channel>)                                      // SREM from each channel index

  /** Runs the next command of an operation: the new database and what is left to do. */
  function Advance(db: Db, now: nat, c: Conn, op: Op): (Db, Option<Op>) {
    match op
    case RegRead(u, chs) =>
      (db, Some(RegClean(if c in db.sessions then db.sessions[c].channels else [], u, chs)))
    case RegClean(left, u, chs) =>
      if left == [] then (HSet(db, c, u, chs), Some(RegExpire(u, chs)))
      else (db.(byChannel := db.byChannel - {(left[0], c)}), Some(RegClean(left[1..], u, chs)))
    case RegExpire(u, chs) =>
      (Expire(db, now, c), Some(RegAddUser(u, chs)))
    case RegAddUser(u, chs) =>
      (db.(byUser := db.byUser + {(u, c)}), if chs == [] then None else Some(RegAddChannels(chs, u, chs)))
    case RegAddChannels(left, u, chs) =>
      if left == [] then (db, None)
      else (db.(byChannel := db.byChannel + {(left[0], c)}),
            if left[1..] == [] then None else Some(RegAddChannels(left[1..], u, chs)))
    case DelRead =>
      (db, if c in db.sessions then Some(DelKey(db.sessions[c].user, db.sessions[c].channels)) else None)
    case DelKey(u, chs) =>
      (Del(db, c), Some(DelUser(u, chs)))
    case DelUser(u, chs) =>
      (db.(byUser := db.byUser - {(u, c)}), if chs == [] then None else Some(DelChannels(chs)))
    case DelChannels(left) =>
      if left == [] then (db, None)
      else (db.(byChannel := db.byChannel - {(left[0], c)}),
            if left[1..] == [] then None else Some(DelChannels(left[1..])))
  }

  // ---------------------------------------------------------------- interleaved runs

  /**
   The registry and everything in flight.  At most one register or deregister per connection is
   in flight (the gateway issues them from one goroutine); heartbeats that have passed their
   EXISTS wait in beats.  lapsed and users are history: the connections whose hash has ever
   expired, and the user each connection was last registered for.
   */
  datatype World = World(db: Db, now: nat, ops: map<Conn, Op>, beats: multiset<Conn>,
                         lapsed: set<Conn>, users: map<Conn, User>)

  datatype Event =
    | StartRegister(conn: Conn, user: User, channels: seq<Channel>)
    | StartDeregister(conn: Conn)
    | Step(conn: Conn)
    | BeatExists(conn: Conn)
    | BeatExpire(conn: Conn)
    | Tick(seconds: nat)

  const EMPTY: World := World(Db(map[], {}, {}), 0, map[], multiset{}, {}, map[])

  /** One event; an event that is not enabled changes nothing. */
  function Apply(w: World, e: Event): World {
    match e
    case StartRegister(c, u, chs) =>
      if c in w.ops then w else w.(ops := w.ops[c := RegRead(u, chs)], users := w.users[c := u])
    case StartDeregister(c) =>
      if c in w.ops then w else w.(ops := w.ops[c := DelRead])
    case Step(c) =>
      if c !in w.ops then w
      else
        var (db, rest) := Advance(w.db, w.now, c, w.ops[c]);
        w.(db := db, ops := if rest.Some? then w.ops[c := rest.value] else w.ops - {c})
    case BeatExists(c) =>
      if c in w.db.sessions then w.(beats := w.beats + multiset{c}) else w
    case BeatExpire(c) =>
      if c in w.beats then w.(db := Expire(w.db, w.now, c), beats := w.beats - multiset{c}) else w
    case Tick(d) =>
      var gone := Overdue(w.db, w.now + d);
      w.(now := w.now + d, db := w.db.(sessions := w.db.sessions - gone), lapsed := w.lapsed + gone)
  }

  function RunFrom(w: World, es: seq<Event>): World
    decreases |es|
  {
    if es == [] then w else RunFrom(Apply(w, es[0]), es[1..])
  }

  // ---------------------------------------------------------------- queries

  /** queryByChannel: the members of the channel index whose hash is still there. */
  function QueryByChannel(db: Db, ch: Channel): set<Conn> {
    set p | p in db.byChannel && p.0 == ch && p.1 in db.sessions :: p.1
  }

  function QueryByUser(db: Db, u: User): set<Conn> {
    set p | p in db.byUser && p.0 == u && p.1 in db.sessions :: p.1
  }

  /** The reference answers: a full scan of the live hashes. */
  function ScanByChannel(db: Db, ch: Channel): set<Conn> {
    set c | c in db.sessions && ch in db.sessions[c].channels
  }

  function ScanByUser(db: Db, u: User): set<Conn> {
    set c | c in db.sessions && db.sessions[c].user == u
  }

  // ---------------------------------------------------------------- the index is complete

  ghost predicate Listed(db: Db, c: Conn) {
    c in db.sessions ==>
      && (db.sessions[c].user, c) in db.byUser
      && forall ch <- db.sessions[c].channels :: (ch, c) in db.byChannel
  }

  /** What the database promises about one connection, given where its operation stands. */
  ghost predicate Complete(db: Db, c: Conn, op: Option<Op>) {
    match op
    case None => Listed(db, c)
    case Some(RegRead(_, _)) => Listed(db, c)
    case Some(RegClean(_, _, _)) => true
    case Some(RegExpire(u, chs)) => Holds(db, c, u, chs)
    case Some(RegAddUser(u, chs)) => Holds(db, c, u, chs)
    case Some(RegAddChannels(left, u, chs)) =>
      && Holds(db, c, u, chs)
      && (u, c) in db.byUser
      && forall ch <- chs :: (ch, c) in db.byChannel || ch in left
    case Some(DelRead) => Listed(db, c)
    case Some(DelKey(u, chs)) => Listed(db, c) && Holds(db, c, u, chs)
    case Some(DelUser(_, _)) => c !in db.sessions
    case Some(DelChannels(_)) => c !in db.sessions
  }

  ghost predicate Holds(db: Db, c: Conn, u: User, chs: seq<Channel>) {
    c in db.sessions ==> db.sessions[c].user == u && db.sessions[c].channels == chs
  }

  function OpOf(w: World, c: Conn): Option<Op> {
    if c in w.ops then Some(w.ops[c]) else None
  }

  ghost predicate IndexComplete(w: World) {
    forall c :: Complete(w.db, c, OpOf(w, c))
  }

  lemma AdvanceComplete(db: Db, now: nat, c: Conn, op: Op)
    requires Complete(db, c, Some(op))
    ensures var (db', rest) := Advance(db, now, c, op); Complete(db', c, rest)
  {
  }

  /** A command of one connection leaves what is promised about another one alone. */
  lemma AdvanceFrame(db: Db, now: nat, c: Conn, op: Op, other: Conn)
    requires other != c
    ensures var db' := Advance(db, now, c, op).0;
      && (other in db'.sessions <==> other in db.sessions)
      && (other in db.sessions ==> db'.sessions[other] == db.sessions[other])
      && (forall u :: (u, other) in db'.byUser <==> (u, other) in db.byUser)
      && (forall ch :: (ch, other) in db'.byChannel <==> (ch, other) in db.byChannel)
  {
  }

  lemma StepCompleteAt(w: World, x: Conn, c: Conn)
    requires Complete(w.db, c, OpOf(w, c))
    ensures var w' := Apply(w, Step(x)); Complete(w'.db, c, OpOf(w', c))
  {
    hide Advance, Listed, Holds;
    var w' := Apply(w, Step(x));
    if x in w.ops {
      if x == c {
        assert OpOf(w', c) == Advance(w.db, w.now, c, w.ops[c]).1;
        AdvanceComplete(w.db, w.now, c, w.ops[c]);
      } else {
        AdvanceFrame(w.db, w.now, x, w.ops[x], c);
        FrameComplete(w.db, w'.db, c, OpOf(w, c));
      }
    }
  }

  lemma FrameComplete(db: Db, e: Db, c: Conn, op: Option<Op>)
    requires Complete(db, c, op)
    requires (c in e.sessions <==> c in db.sessions) && (c in db.sessions ==> e.sessions[c] == db.sessions[c])
    requires forall u :: (u, c) in e.byUser <==> (u, c) in db.byUser
    requires forall ch :: (ch, c) in e.byChannel <==> (ch, c) in db.byChannel
    ensures Complete(e, c, op)
  {
  }

  lemma OtherCompleteAt(w: World, e: Event, c: Conn)
    requires Complete(w.db, c, OpOf(w, c)) && !e.Step?
    ensures var w' := Apply(w, e); Complete(w'.db, c, OpOf(w', c))
  {
    hide Advance;
  }

  lemma ApplyCompleteAt(w: World, e: Event, c: Conn)
    requires Complete(w.db, c, OpOf(w, c))
    ensures var w' := Apply(w, e); Complete(w'.db, c, OpOf(w', c))
  {
    hide Apply, Complete;
    if e.Step? {
      StepCompleteAt(w, e.conn, c);
    } else {
      OtherCompleteAt(w, e, c);
    }
  }

  lemma ApplyComplete(w: World, e: Event)
    requires IndexComplete(w)
    ensures IndexComplete(Apply(w, e))
  {
    hide Apply, Complete, OpOf;
    var w' := Apply(w, e);
    forall c
      ensures Complete(w'.db, c, OpOf(w', c))
    {
      ApplyCompleteAt(w, e, c);
    }
  }

  lemma {:induction false} RunComplete(w: World, es: seq<Event>)
    requires IndexComplete(w)
    ensures IndexComplete(RunFrom(w, es))
    decreases |es|
  {
    if es != [] {
      ApplyComplete(w, es[0]);
      RunComplete(Apply(w, es[0]), es[1..]);
    }
  }

  /**
   On every run, a live session with nothing in flight is in its user's index and in the index of
   every channel it lists, so the indexed queries never miss a session that a scan would find.
   */
  lemma QueriesNeverMiss(es: seq<Event>, c: Conn)
    ensures var w := RunFrom(EMPTY, es);
      c !in w.ops ==>
        && (forall ch :: c in ScanByChannel(w.db, ch) ==> c in QueryByChannel(w.db, ch))
        && (forall u :: c in ScanByUser(w.db, u) ==> c in QueryByUser(w.db, u))
  {
    var w := RunFrom(EMPTY, es);
    RunComplete(EMPTY, es);
    assert Complete(w.db, c, OpOf(w, c));
    if c !in w.ops && c in w.db.sessions {
      forall ch | c in ScanByChannel(w.db, ch)
        ensures c in QueryByChannel(w.db, ch)
      {
        assert (ch, c) in w.db.byChannel;
      }
      forall u | c in ScanByUser(w.db, u)
        ensures c in QueryByUser(w.db, u)
      {
        assert (u, c) in w.db.byUser;
      }
    }
  }

  // ---------------------------------------------------------------- the index is exact on orderly runs

  /**
   A connection keeps its user, and a register that finds no hash is not coming back after an
   expiry, which would have left index entries behind that nobody cleans.
   */
  ghost predicate Orderly(w: World, e: Event) {
    match e
    case StartRegister(c, u, _) => c in w.users ==> w.users[c] == u
    case Step(c) => c in w.ops && w.ops[c].RegRead? && c !in w.db.sessions ==> c !in w.lapsed
    case _ => true
  }

  ghost predicate OrderlyRun(w: World, es: seq<Event>)
    decreases |es|
  {
    es == [] || (Orderly(w, es[0]) && OrderlyRun(Apply(w, es[0]), es[1..]))
  }

  /** The channel index has this connection under no other channels than these. */
  ghost predicate Within(db: Db, c: Conn, chs: seq<Channel>) {
    forall ch :: (ch, c) in db.byChannel ==> ch in chs
  }

  ghost predicate ChannelsExact(db: Db, c: Conn, op: Option<Op>, lapsed: bool) {
    match op
    case Some(RegClean(left, _, _)) => Within(db, c, left)
    case Some(RegExpire(_, chs)) => Within(db, c, chs) && (c in db.sessions || lapsed)
    case Some(RegAddUser(_, chs)) => Within(db, c, chs) && (c in db.sessions || lapsed)
    case Some(RegAddChannels(left, _, chs)) =>
      Within(db, c, chs) && (c in db.sessions || lapsed) && forall ch <- left :: ch in chs
    case Some(DelKey(_, chs)) => Within(db, c, chs)
    case Some(DelUser(_, chs)) => Within(db, c, chs)
    case Some(DelChannels(left)) => Within(db, c, left)
    case _ => if c in db.sessions then Within(db, c, db.sessions[c].channels) else lapsed || Within(db, c, [])
  }

  function OpUser(op: Op): Option<User> {
    match op
    case RegRead(u, _) => Some(u)
    case RegClean(_, u, _) => Some(u)
    case RegExpire(u, _) => Some(u)
    case RegAddUser(u, _) => Some(u)
    case RegAddChannels(_, u, _) => Some(u)
    case _ => None
  }

  ghost predicate UserExact(db: Db, c: Conn, op: Option<Op>, users: map<Conn, User>) {
    && (forall u :: (u, c) in db.byUser ==> c in users && users[c] == u)
    && (c in db.sessions ==> c in users && db.sessions[c].user == users[c])
    && (op.Some? && OpUser(op.value).Some? ==> c in users && OpUser(op.value).value == users[c])
  }

  ghost predicate Exact(w: World, c: Conn) {
    && Complete(w.db, c, OpOf(w, c))
    && ChannelsExact(w.db, c, OpOf(w, c), c in w.lapsed)
    && UserExact(w.db, c, OpOf(w, c), w.users)
  }

  ghost predicate IndexExact(w: World) {
    forall c :: Exact(w, c)
  }

  lemma AdvanceExact(db: Db, now: nat, c: Conn, op: Op, lapsed: bool, users: map<Conn, User>)
    requires Complete(db, c, Some(op))
    requires ChannelsExact(db, c, Some(op), lapsed) && UserExact(db, c, Some(op), users)
    requires op.RegRead? && c !in db.sessions ==> !lapsed
    ensures var (db', rest) := Advance(db, now, c, op);
      ChannelsExact(db', c, rest, lapsed) && UserExact(db', c, rest, users)
  {
    if (op.DelChannels? || op.RegClean?) && op.left != [] {
      assert op.left == [op.left[0]] + op.left[1..];
    }
  }

  lemma OwnStepExact(w: World, c: Conn)
    requires Exact(w, c) && Orderly(w, Step(c)) && c in w.ops
    ensures Exact(Apply(w, Step(c)), c)
  {
    hide Complete, ChannelsExact, UserExact, Advance;
    AdvanceComplete(w.db, w.now, c, w.ops[c]);
    AdvanceExact(w.db, w.now, c, w.ops[c], c in w.lapsed, w.users);
    assert OpOf(Apply(w, Step(c)), c) == Advance(w.db, w.now, c, w.ops[c]).1;
  }

  lemma ForeignStepExact(w: World, other: Conn, c: Conn)
    requires Exact(w, c) && other in w.ops && other != c
    ensures Exact(Apply(w, Step(other)), c)
  {
    hide Advance;
    AdvanceFrame(w.db, w.now, other, w.ops[other], c);
  }

  lemma ApplyExactAt(w: World, e: Event, c: Conn)
    requires Exact(w, c) && Orderly(w, e)
    ensures Exact(Apply(w, e), c)
  {
    hide Exact, Apply, Orderly;
    if !e.Step? {
      OtherExact(w, e, c);
    } else if e.conn !in w.ops {
      NoStep(w, e.conn);
    } else if e.conn == c {
      OwnStepExact(w, c);
    } else {
      ForeignStepExact(w, e.conn, c);
    }
  }

  lemma NoStep(w: World, c: Conn)
    requires c !in w.ops
    ensures Apply(w, Step(c)) == w
  {
  }

  lemma OtherExact(w: World, e: Event, c: Conn)
    requires Exact(w, c) && Orderly(w, e) && !e.Step?
    ensures Exact(Apply(w, e), c)
  {
    hide Exact, Apply, Orderly;
    match e
    case StartRegister(x, u, chs) => StartRegisterExact(w, x, u, chs, c);
    case StartDeregister(x) => StartDeregisterExact(w, x, c);
    case BeatExists(x) => BeatExistsExact(w, x, c);
    case BeatExpire(x) => BeatExpireExact(w, x, c);
    case Tick(d) => TickExact(w, d, c);
    case Step(_) =>
  }

  lemma StartRegisterExact(w: World, x: Conn, u: User, chs: seq<Channel>, c: Conn)
    requires Exact(w, c) && Orderly(w, StartRegister(x, u, chs))
    ensures Exact(Apply(w, StartRegister(x, u, chs)), c)
  {
    hide Listed, Holds, Within;
  }

  lemma StartDeregisterExact(w: World, x: Conn, c: Conn)
    requires Exact(w, c)
    ensures Exact(Apply(w, StartDeregister(x)), c)
  {
    hide Listed, Holds, Within;
  }

  lemma BeatExistsExact(w: World, x: Conn, c: Conn)
    requires Exact(w, c)
    ensures Exact(Apply(w, BeatExists(x)), c)
  {
    hide Complete, ChannelsExact, UserExact;
    assert OpOf(Apply(w, BeatExists(x)), c) == OpOf(w, c);
  }

  /** What is promised about a connection does not depend on deadlines. */
  lemma ExpireExact(db: Db, now: nat, x: Conn, c: Conn, op: Option<Op>, lapsed: bool, users: map<Conn, User>)
    requires Complete(db, c, op) && ChannelsExact(db, c, op, lapsed) && UserExact(db, c, op, users)
    ensures var e := Expire(db, now, x); Complete(e, c, op) && ChannelsExact(e, c, op, lapsed) && UserExact(e, c, op, users)
  {
  }

  lemma BeatExpireExact(w: World, x: Conn, c: Conn)
    requires Exact(w, c)
    ensures Exact(Apply(w, BeatExpire(x)), c)
  {
    hide Complete, ChannelsExact, UserExact, Expire;
    ExpireExact(w.db, w.now, x, c, OpOf(w, c), c in w.lapsed, w.users);
    assert OpOf(Apply(w, BeatExpire(x)), c) == OpOf(w, c);
  }

  lemma TickExact(w: World, d: nat, c: Conn)
    requires Exact(w, c)
    ensures Exact(Apply(w, Tick(d)), c)
  {
  }

  lemma ApplyExact(w: World, e: Event)
    requires IndexExact(w) && Orderly(w, e)
    ensures IndexExact(Apply(w, e))
  {
    hide Apply, Exact, Orderly;
    forall c
      ensures Exact(Apply(w, e), c)
    {
      ApplyExactAt(w, e, c);
    }
  }

  lemma {:induction false} RunExact(w: World, es: seq<Event>)
    requires IndexExact(w) && OrderlyRun(w, es)
    ensures IndexExact(RunFrom(w, es))
    decreases |es|
  {
    if es != [] {
      ApplyExact(w, es[0]);
      RunExact(Apply(w, es[0]), es[1..]);
    }
  }

  /** For a connection with nothing in flight, an exact index answers like a scan. */
  lemma ExactAgrees(w: World, c: Conn)
    requires Exact(w, c) && c !in w.ops
    ensures forall ch :: c in QueryByChannel(w.db, ch) <==> c in ScanByChannel(w.db, ch)
    ensures forall u :: c in QueryByUser(w.db, u) <==> c in ScanByUser(w.db, u)
  {
    forall ch
      ensures c in QueryByChannel(w.db, ch) <==> c in ScanByChannel(w.db, ch)
    {
      assert c in QueryByChannel(w.db, ch) <==> (ch, c) in w.db.byChannel && c in w.db.sessions;
    }
    forall u
      ensures c in QueryByUser(w.db, u) <==> c in ScanByUser(w.db, u)
    {
      assert c in QueryByUser(w.db, u) <==> (u, c) in w.db.byUser && c in w.db.sessions;
    }
  }

  /** On every orderly run the two indexed queries return exactly what a full scan returns. */
  lemma QueriesAgreeWithScan(es: seq<Event>)
    requires OrderlyRun(EMPTY, es)
    ensures var w := RunFrom(EMPTY, es);
      && (forall ch, c | c !in w.ops :: c in QueryByChannel(w.db, ch) <==> c in ScanByChannel(w.db, ch))
      && (forall u, c | c !in w.ops :: c in QueryByUser(w.db, u) <==> c in ScanByUser(w.db, u))
      && (w.ops == map[] ==> forall ch :: QueryByChannel(w.db, ch) == ScanByChannel(w.db, ch))
      && (w.ops == map[] ==> forall u :: QueryByUser(w.db, u) == ScanByUser(w.db, u))
  {
    hide QueryByChannel, QueryByUser, ScanByChannel, ScanByUser;
    var w := RunFrom(EMPTY, es);
    RunExact(EMPTY, es);
    forall c | c !in w.ops
      ensures forall ch :: c in QueryByChannel(w.db, ch) <==> c in ScanByChannel(w.db, ch)
      ensures forall u :: c in QueryByUser(w.db, u) <==> c in ScanByUser(w.db, u)
    {
      assert Exact(w, c);
      ExactAgrees(w, c);
    }
    if w.ops == map[] {
      forall ch
        ensures QueryByChannel(w.db, ch) == ScanByChannel(w.db, ch)
      {
        forall c
          ensures c in QueryByChannel(w.db, ch) <==> c in ScanByChannel(w.db, ch)
        {
          assert c !in w.ops;
        }
      }
      forall u
        ensures QueryByUser(w.db, u) == ScanByUser(w.db, u)
      {
        forall c
          ensures c in QueryByUser(w.db, u) <==> c in ScanByUser(w.db, u)
        {
          assert c !in w.ops;
        }
      }
    }
  }

  // ---------------------------------------------------------------- deleted sessions stay deleted

  /** The only event that brings a hash into existence is the HSET of a register. */
  lemma OnlyRegisterCreates(w: World, e: Event, c: Conn)
    requires c !in w.db.sessions && c in Apply(w, e).db.sessions
    ensures e == Step(c) && c in w.ops && w.ops[c].RegClean? && w.ops[c].left == []
  {
  }

  /** The connection has no session and nothing in flight that could create one. */
  ghost predicate Gone(w: World, c: Conn) {
    && c !in w.db.sessions
    && (c in w.ops ==> w.ops[c].DelRead? || w.ops[c].DelKey? || w.ops[c].DelUser? || w.ops[c].DelChannels?)
  }

  lemma GoneStaysGone(w: World, e: Event, c: Conn)
    requires Gone(w, c) && (e.StartRegister? ==> e.conn != c)
    ensures Gone(Apply(w, e), c)
  {
    if e.Step? && e.conn in w.ops && e.conn != c {
      AdvanceFrame(w.db, w.now, e.conn, w.ops[e.conn], c);
    }
  }

  /**
   Once a session is gone (deregistered or expired) and nothing is in flight for its connection,
   no run without a new register brings it back, however many heartbeats are still on their way.
   */
  lemma {:induction false} HeartbeatsNeverResurrect(w: World, es: seq<Event>, c: Conn)
    requires Gone(w, c)
    requires forall i | 0 <= i < |es| :: es[i].StartRegister? ==> es[i].conn != c
    ensures c !in RunFrom(w, es).db.sessions
    decreases |es|
  {
    hide Apply;
    if es != [] {
      GoneStaysGone(w, es[0], c);
      HeartbeatsNeverResurrect(Apply(w, es[0]), es[1..], c);
    }
  }

  // ---------------------------------------------------------------- whole operations

  function Remaining(op: Op): nat {
    match op
    case RegRead(_, chs) => 0
    case RegClean(left, _, chs) => |left| + |chs| + 5
    case RegExpire(_, chs) => |chs| + 4
    case RegAddUser(_, chs) => |chs| + 3
    case RegAddChannels(left, _, _) => |left| + 1
    case DelRead => 0
    case DelKey(_, chs) => |chs| + 4
    case DelUser(_, chs) => |chs| + 3
    case DelChannels(left) => |left| + 1
  }

  /** The database once the operation has run to its end with nothing else in between. */
  function Finish(db: Db, now: nat, c: Conn, op: Op): Db
    decreases op.RegRead? || op.DelRead?, Remaining(op)
  {
    var (db', rest) := Advance(db, now, c, op);
    if rest.Some? then Finish(db', now, c, rest.value) else db'
  }

  function Pairs(chs: seq<Channel>, c: Conn): set<(Channel, Conn)> {
    set ch | ch in chs :: (ch, c)
  }

  /** What a register does to the database as a whole. */
  function Registered(db: Db, now: nat, c: Conn, u: User, chs: seq<Channel>): Db {
    var prev := if c in db.sessions then db.sessions[c].channels else [];
    Db(db.sessions[c := Session(u, chs, Some(now + SESSION_TTL))],
       db.byUser + {(u, c)},
       db.byChannel - Pairs(prev, c) + Pairs(chs, c))
  }

  /** What a deregister does to the database as a whole. */
  function Deregistered(db: Db, c: Conn): Db {
    if c !in db.sessions then db
    else Db(db.sessions - {c}, db.byUser - {(db.sessions[c].user, c)}, db.byChannel - Pairs(db.sessions[c].channels, c))
  }

  lemma {:induction false} FinishAdds(db: Db, now: nat, c: Conn, left: seq<Channel>, u: User, chs: seq<Channel>)
    ensures Finish(db, now, c, RegAddChannels(left, u, chs)) == db.(byChannel := db.byChannel + Pairs(left, c))
    decreases |left|
  {
    if left != [] {
      assert left == [left[0]] + left[1..];
      assert Pairs(left, c) == {(left[0], c)} + Pairs(left[1..], c);
      FinishAdds(db.(byChannel := db.byChannel + {(left[0], c)}), now, c, left[1..], u, chs);
    }
  }

  lemma {:induction false} FinishCleans(db: Db, now: nat, c: Conn, left: seq<Channel>, u: User, chs: seq<Channel>)
    ensures Finish(db, now, c, RegClean(left, u, chs))
         == Finish(db.(byChannel := db.byChannel - Pairs(left, c)), now, c, RegClean([], u, chs))
    decreases |left|
  {
    if left == [] {
      assert db.byChannel - Pairs(left, c) == db.byChannel;
    } else {
      assert left == [left[0]] + left[1..];
      assert Pairs(left, c) == {(left[0], c)} + Pairs(left[1..], c);
      var db' := db.(byChannel := db.byChannel - {(left[0], c)});
      assert db'.byChannel - Pairs(left[1..], c) == db.byChannel - Pairs(left, c);
      FinishCleans(db', now, c, left[1..], u, chs);
    }
  }

  lemma {:induction false} FinishDrops(db: Db, now: nat, c: Conn, left: seq<Channel>)
    ensures Finish(db, now, c, DelChannels(left)) == db.(byChannel := db.byChannel - Pairs(left, c))
    decreases |left|
  {
    if left != [] {
      assert left == [left[0]] + left[1..];
      assert Pairs(left, c) == {(left[0], c)} + Pairs(left[1..], c);
      FinishDrops(db.(byChannel := db.byChannel - {(left[0], c)}), now, c, left[1..]);
    }
  }

  /** The command sequence of a register, run through, has the intended effect on the three structures. */
  lemma RegisterEffect(db: Db, now: nat, c: Conn, u: User, chs: seq<Channel>)
    ensures Finish(db, now, c, RegRead(u, chs)) == Registered(db, now, c, u, chs)
  {
    var prev := if c in db.sessions then db.sessions[c].channels else [];
    var cleaned := db.(byChannel := db.byChannel - Pairs(prev, c));
    FinishCleans(db, now, c, prev, u, chs);
    var written := Expire(HSet(cleaned, c, u, chs), now, c);
    var indexed := written.(byUser := written.byUser + {(u, c)});
    assert Finish(cleaned, now, c, RegClean([], u, chs)) == Finish(written, now, c, RegAddUser(u, chs));
    FinishAdds(indexed, now, c, chs, u, chs);
    assert chs == [] ==> indexed.byChannel + Pairs(chs, c) == indexed.byChannel;
    assert written.sessions == db.sessions[c := Session(u, chs, Some(now + SESSION_TTL))];
  }

  lemma DeregisterEffect(db: Db, now: nat, c: Conn)
    ensures Finish(db, now, c, DelRead) == Deregistered(db, c)
  {
    if c in db.sessions {
      var s := db.sessions[c];
      var dropped := Del(db, c).(byUser := db.byUser - {(s.user, c)});
      assert Finish(Del(db, c), now, c, DelUser(s.user, s.channels))
          == if s.channels == [] then dropped else Finish(dropped, now, c, DelChannels(s.channels));
      FinishDrops(dropped, now, c, s.channels);
      assert s.channels == [] ==> dropped.byChannel - Pairs(s.channels, c) == dropped.byChannel;
    }
  }

  /** Left alone, an operation in flight reaches its end and has the effect of Finish. */
  lemma {:induction false} RunsAlone(w: World, c: Conn) returns (steps: nat)
    requires c in w.ops
    ensures RunFrom(w, seq(steps, _ => Step(c)))
         == w.(db := Finish(w.db, w.now, c, w.ops[c]), ops := w.ops - {c})
    decreases w.ops[c].RegRead? || w.ops[c].DelRead?, Remaining(w.ops[c])
  {
    var w' := Apply(w, Step(c));
    assert Finish(w.db, w.now, c, w.ops[c])
        == if c in w'.ops then Finish(w'.db, w.now, c, w'.ops[c]) else w'.db;
    assert w'.ops - {c} == w.ops - {c};
    var more := 0;
    if c in w'.ops {
      more := RunsAlone(w', c);
    } else {
      assert w'.ops == w'.ops - {c};
      assert seq(0, _ => Step(c)) == [];
    }
    steps := more + 1;
    assert seq(steps, _ => Step(c))[1..] == seq(more, _ => Step(c));
  }

  /**
   After a register the channel index answers exactly for its connection if and only if every
   entry it already had was for a channel of the hash being replaced or of the new list.
   */
  lemma RegisterExactIff(db: Db, now: nat, c: Conn, u: User, chs: seq<Channel>)
    ensures var db' := Registered(db, now, c, u, chs);
      (forall ch :: c in QueryByChannel(db', ch) <==> c in ScanByChannel(db', ch))
      <==>
      (forall ch :: (ch, c) in db.byChannel ==> ch in chs || (c in db.sessions && ch in db.sessions[c].channels))
  {
    var db' := Registered(db, now, c, u, chs);
    var prev := if c in db.sessions then db.sessions[c].channels else [];
    forall ch
      ensures c in QueryByChannel(db', ch) <==> ch in chs || ((ch, c) in db.byChannel && ch !in prev)
      ensures c in ScanByChannel(db', ch) <==> ch in chs
    {
      assert (ch, c) in db'.byChannel <==> ch in chs || ((ch, c) in db.byChannel && ch !in prev);
      assert c in QueryByChannel(db', ch) <==> (ch, c) in db'.byChannel;
    }
    if forall ch :: c in QueryByChannel(db', ch) <==> c in ScanByChannel(db', ch) {
      forall ch | (ch, c) in db.byChannel
        ensures ch in chs || (c in db.sessions && ch in db.sessions[c].channels)
      {
        assert c in QueryByChannel(db', ch) <==> c in ScanByChannel(db', ch);
      }
    }
  }

  /**
   And the user index answers exactly for the connection if and only if every entry it already had
   was for the user now registered: a register never takes a connection away from another user.
   */
  lemma RegisterUserExactIff(db: Db, now: nat, c: Conn, u: User, chs: seq<Channel>)
    ensures var db' := Registered(db, now, c, u, chs);
      (forall v :: c in QueryByUser(db', v) <==> c in ScanByUser(db', v)) <==> (forall v :: (v, c) in db.byUser ==> v == u)
  {
    var db' := Registered(db, now, c, u, chs);
    forall v
      ensures c in QueryByUser(db', v) <==> v == u || (v, c) in db.byUser
      ensures c in ScanByUser(db', v) <==> v == u
    {
      assert c in QueryByUser(db', v) <==> (v, c) in db'.byUser;
    }
    if forall v :: c in QueryByUser(db', v) <==> c in ScanByUser(db', v) {
      forall v | (v, c) in db.byUser
        ensures v == u
      {
        assert c in QueryByUser(db', v) <==> c in ScanByUser(db', v);
      }
    }
  }

  /** Registering again for the same user replaces the first registration altogether. */
  lemma LastRegisterWins(db: Db, now: nat, c: Conn, u: User, first: seq<Channel>, second: seq<Channel>)
    requires c in db.sessions ==> Within(db, c, db.sessions[c].channels)
    requires c !in db.sessions ==> Within(db, c, [])
    ensures Registered(Registered(db, now, c, u, first), now, c, u, second) == Registered(db, now, c, u, second)
  {
    var a := Registered(Registered(db, now, c, u, first), now, c, u, second);
    var b := Registered(db, now, c, u, second);
    forall p
      ensures p in a.byChannel <==> p in b.byChannel
    {
      if p.1 == c {
        assert p == (p.0, c);
      }
    }
  }

  /** Deregistering undoes the registration of a connection the registry knew nothing about. */
  lemma DeregisterUndoesRegister(db: Db, now: nat, c: Conn, u: User, chs: seq<Channel>)
    requires c !in db.sessions && (u, c) !in db.byUser && Within(db, c, [])
    ensures Deregistered(Registered(db, now, c, u, chs), c) == db
  {
    var back := Deregistered(Registered(db, now, c, u, chs), c);
    assert back.sessions == db.sessions;
    forall p
      ensures p in back.byChannel <==> p in db.byChannel
    {
      if p.1 == c {
        assert p == (p.0, c);
      }
    }
    assert back.byUser == db.byUser;
  }

  lemma {:induction false} RunConcat(w: World, a: seq<Event>, b: seq<Event>)
    ensures RunFrom(w, a + b) == RunFrom(RunFrom(w, a), b)
    decreases |a|
  {
    if a == [] {
      assert a + b == b;
    } else {
      assert (a + b)[1..] == a[1..] + b;
      RunConcat(Apply(w, a[0]), a[1..], b);
    }
  }

  /** The events of one register request with nothing else in between. */
  lemma RegisterRun(w: World, c: Conn, u: User, chs: seq<Channel>) returns (es: seq<Event>)
    requires c !in w.ops
    ensures RunFrom(w, es) == w.(db := Registered(w.db, w.now, c, u, chs), users := w.users[c := u])
  {
    var w' := Apply(w, StartRegister(c, u, chs));
    var steps := RunsAlone(w', c);
    es := [StartRegister(c, u, chs)] + seq(steps, _ => Step(c));
    RegisterEffect(w.db, w.now, c, u, chs);
    assert es[1..] == seq(steps, _ => Step(c));
    assert w'.ops - {c} == w.ops;
  }

  /** After a register the hash, its user and its channels are there and nothing of another connection has changed. */
  lemma RegisteredHolds(db: Db, now: nat, c: Conn, u: User, chs: seq<Channel>)
    ensures var e := Registered(db, now, c, u, chs);
      && c in e.sessions && e.sessions[c] == Session(u, chs, Some(now + 1800))
      && (forall v :: (v, c) in e.byUser <==> v == u || (v, c) in db.byUser)
      && (forall ch :: (ch, c) in e.byChannel <==>
            ch in chs || ((ch, c) in db.byChannel && !(c in db.sessions && ch in db.sessions[c].channels)))
      && Elsewhere(db, e, c)
  {
    forall ch
      ensures (ch, c) in Pairs(chs, c) <==> ch in chs
      ensures c in db.sessions ==> ((ch, c) in Pairs(db.sessions[c].channels, c) <==> ch in db.sessions[c].channels)
    {
    }
  }

  /** After a deregister the hash and what it listed are gone and nothing of another connection has changed. */
  lemma DeregisteredHolds(db: Db, c: Conn)
    ensures var e := Deregistered(db, c);
      && c !in e.sessions
      && (forall v :: (v, c) in e.byUser <==> (v, c) in db.byUser && !(c in db.sessions && v == db.sessions[c].user))
      && (forall ch :: (ch, c) in e.byChannel <==>
            (ch, c) in db.byChannel && !(c in db.sessions && ch in db.sessions[c].channels))
      && Elsewhere(db, e, c)
  {
    if c in db.sessions {
      forall ch
        ensures (ch, c) in Pairs(db.sessions[c].channels, c) <==> ch in db.sessions[c].channels
      {
      }
    }
  }

  /** Two states that differ in what they hold of one connection only. */
  ghost predicate Elsewhere(db: Db, e: Db, c: Conn) {
    && (forall d | d != c :: d in e.sessions <==> d in db.sessions)
    && (forall d | d != c && d in db.sessions :: e.sessions[d] == db.sessions[d])
    && (forall v, d | d != c :: (v, d) in e.byUser <==> (v, d) in db.byUser)
    && (forall ch, d | d != c :: (ch, d) in e.byChannel <==> (ch, d) in db.byChannel)
  }

  /** A session that nobody renews lasts 1800 seconds from its register, and not a second longer. */
  lemma LastsHalfAnHour(w: World, c: Conn, u: User, chs: seq<Channel>, seconds: nat)
    ensures var registered := w.(db := Registered(w.db, w.now, c, u, chs));
      c in Apply(registered, Tick(seconds)).db.sessions <==> seconds < 1800
  {
  }

  /** A concrete disorderly run: expiry leaves an index entry that the next register does not clean. */
  lemma StaleAfterExpiry() returns (es: seq<Event>)
    ensures var w := RunFrom(EMPTY, es);
      w.ops == map[] && "c" in QueryByChannel(w.db, "a") && "c" !in ScanByChannel(w.db, "a")
  {
    var first := RegisterRun(EMPTY, "c", "u", ["a"]);
    var w1 := RunFrom(EMPTY, first);
    assert ("a", "c") in Pairs(["a"], "c");
    var w2 := Apply(w1, Tick(SESSION_TTL));
    assert "c" in Overdue(w1.db, w1.now + SESSION_TTL);
    assert RunFrom(w1, [Tick(SESSION_TTL)]) == RunFrom(w2, []) == w2;
    var second := RegisterRun(w2, "c", "u", []);
    es := first + ([Tick(SESSION_TTL)] + second);
    RunConcat(EMPTY, first, [Tick(SESSION_TTL)] + second);
    RunConcat(w1, [Tick(SESSION_TTL)], second);
    assert ("a", "c") in RunFrom(w2, second).db.byChannel;
  }
}
