/**
 checkPerm over the servers tables: a live membership test, then the user's permissions from a cache
 whose entries last a minute.  The membership test, the cache lookup, the role query and the cache
 put are separate steps; transactions, other checks, evictions and the clock come between them.
 */
module PermissionCache {
  import opened Prelude
  import opened Uuids
  import opened Servers

  const TTL: nat := 60

  /** The cache key: the server's UUID, a colon, the user id. */
  function Key(s: ServerId, u: User): string {
    Text(s) + (":" + u)
  }

  lemma KeyInjective(s: ServerId, u: User, t: ServerId, v: User)
    requires Key(s, u) == Key(t, v)
    ensures s == t && u == v
  {
    hide Text;
    TextShape(s);
    TextShape(t);
    ColonSplit(Text(s), u, Text(t), v);
    TextInjective(s, t);
  }

  /** A state of the tables and when it began. */
  datatype Version = Version(since: nat, db: Db)

  /** Where a set of permissions comes from: the state the role query saw, and when. */
  datatype Source = Source(read: nat, readAt: nat)

  datatype Entry = Entry(server: ServerId, user: User, permissions: set<Permission>, source: Source, storedAt: nat)

  datatype Question = Question(server: ServerId, user: User, permission: Permission, asked: nat)

  /** A check past its membership test: before the lookup, after a miss, and after the role query. */
  datatype Check =
    | Asked(question: Question)
    | Missed(question: Question)
    | Loaded(question: Question, permissions: set<Permission>, source: Source)

  /** An answer; one without a source is "not a member". */
  datatype Answer = Answer(question: Question, allowed: bool, source: Option<Source>, storedAt: nat, at: nat)

  datatype World = World(now: nat, history: seq<Version>, cache: map<string, Entry>, checks: map<nat, Check>, answers: seq<Answer>)

  datatype Event =
    | Transaction(op: Op)
    | Ask(request: nat, server: ServerId, user: User, permission: Permission)
    | Look(request: nat)
    | Query(request: nat)
    | Put(request: nat)
    | Evict(key: string)
    | Tick(seconds: nat)

  const START: World := World(0, [Version(0, EMPTY)], map[], map[], [])

  function Current(w: World): Db {
    if w.history == [] then EMPTY else w.history[|w.history| - 1].db
  }

  function Latest(w: World): nat {
    if w.history == [] then 0 else |w.history| - 1
  }

  function Answered(w: World, r: nat, q: Question, ps: set<Permission>, source: Source, storedAt: nat): World {
    w.(checks := w.checks - {r}, answers := w.answers + [Answer(q, q.permission in ps, Some(source), storedAt, w.now)])
  }

  /** One step; a step of no check in the right stage does not happen. */
  function Apply(w: World, e: Event): World {
    match e
    case Transaction(op) => w.(history := w.history + [Version(w.now, Do(Current(w), op))])
    case Ask(r, s, u, p) =>
      if r in w.checks then w
      else
        var q := Question(s, u, p, Latest(w));
        if IsMember(Current(w), s, u) then w.(checks := w.checks[r := Asked(q)])
        else w.(answers := w.answers + [Answer(q, false, None, w.now, w.now)])
    case Look(r) =>
      if r !in w.checks || !w.checks[r].Asked? then w
      else
        var q := w.checks[r].question;
        var k := Key(q.server, q.user);
        if k in w.cache then Answered(w, r, q, w.cache[k].permissions, w.cache[k].source, w.cache[k].storedAt)
        else w.(checks := w.checks[r := Missed(q)])
    case Query(r) =>
      if r !in w.checks || !w.checks[r].Missed? then w
      else
        var q := w.checks[r].question;
        w.(checks := w.checks[r := Loaded(q, Permissions(Current(w), q.server, q.user), Source(Latest(w), w.now))])
    case Put(r) =>
      if r !in w.checks || !w.checks[r].Loaded? then w
      else
        var c := w.checks[r];
        var q := c.question;
        Answered(w.(cache := w.cache[Key(q.server, q.user) := Entry(q.server, q.user, c.permissions, c.source, w.now)]),
                 r, q, c.permissions, c.source, w.now)
    case Evict(k) => w.(cache := w.cache - {k})
    case Tick(d) =>
      w.(now := w.now + d, cache := map k | k in w.cache && w.now + d < w.cache[k].storedAt + TTL :: w.cache[k])
  }

  function RunFrom(w: World, es: seq<Event>): World
    decreases |es|
  {
    if es == [] then w else RunFrom(Apply(w, es[0]), es[1..])
  }

  // ---------------------------------------------------------------- what every run keeps

  ghost predicate Follows(d: Db, e: Db) {
    exists op :: e == Do(d, op)
  }

  /** Consistent tables, each state the work of a transaction on the one before. */
  ghost predicate HistoryOk(h: seq<Version>) {
    && h != []
    && (forall i | 0 <= i < |h| :: Ok(h[i].db))
    && (forall i | 0 < i < |h| :: Follows(h[i - 1].db, h[i].db) && Grows(h[i - 1].db, h[i].db) && h[i - 1].since <= h[i].since)
  }

  /** The permissions are what the tables gave in a state they were in at the time. */
  ghost predicate SourceOk(h: seq<Version>, s: ServerId, u: User, ps: set<Permission>, source: Source) {
    && source.read < |h| && s in h[source.read].db.servers
    && ps == Permissions(h[source.read].db, s, u)
    && h[source.read].since <= source.readAt
    && (source.read + 1 < |h| ==> source.readAt <= h[source.read + 1].since)
  }

  ghost predicate EntryOk(h: seq<Version>, now: nat, k: string, e: Entry) {
    && k == Key(e.server, e.user) && SourceOk(h, e.server, e.user, e.permissions, e.source)
    && e.source.readAt <= e.storedAt <= now <= e.storedAt + TTL
  }

  ghost predicate MemberWhenAsked(h: seq<Version>, q: Question) {
    q.asked < |h| && IsMember(h[q.asked].db, q.server, q.user)
  }

  ghost predicate CheckOk(h: seq<Version>, now: nat, c: Check) {
    && MemberWhenAsked(h, c.question)
    && (c.Loaded? ==> SourceOk(h, c.question.server, c.question.user, c.permissions, c.source) && c.source.readAt <= now)
  }

  /** What an answer means: see AnswersAreRecent. */
  ghost predicate AnswerOk(h: seq<Version>, now: nat, a: Answer) {
    && a.question.asked < |h| && a.at <= now
    && (a.source.Some? <==> MemberWhenAsked(h, a.question))
    && (a.source.None? ==> !a.allowed)
    && (a.source.Some? ==> exists ps ::
          && SourceOk(h, a.question.server, a.question.user, ps, a.source.value)
          && a.allowed == (a.question.permission in ps)
          && a.source.value.readAt <= a.storedAt <= a.at <= a.storedAt + TTL)
  }

  ghost predicate Good(w: World) {
    && HistoryOk(w.history) && w.history[|w.history| - 1].since <= w.now
    && (forall k <- w.cache :: EntryOk(w.history, w.now, k, w.cache[k]))
    && (forall r <- w.checks :: CheckOk(w.history, w.now, w.checks[r]))
    && (forall i | 0 <= i < |w.answers| :: AnswerOk(w.history, w.now, w.answers[i]))
  }

  /** A later version leaves every source as good as it was. */
  lemma SourceStays(h: seq<Version>, next: Version, s: ServerId, u: User, ps: set<Permission>, source: Source)
    requires SourceOk(h, s, u, ps, source) && source.readAt <= next.since
    ensures SourceOk(h + [next], s, u, ps, source)
  {
    hide Permissions;
    assert (h + [next])[source.read] == h[source.read];
  }

  lemma AnswerStays(h: seq<Version>, next: Version, now: nat, a: Answer)
    requires AnswerOk(h, now, a) && now <= next.since
    ensures AnswerOk(h + [next], now, a)
  {
    hide Permissions, SourceOk, IsMember;
    assert (h + [next])[a.question.asked] == h[a.question.asked];
    if a.source.Some? {
      var ps :| SourceOk(h, a.question.server, a.question.user, ps, a.source.value)
        && a.allowed == (a.question.permission in ps)
        && a.source.value.readAt <= a.storedAt <= a.at <= a.storedAt + TTL;
      SourceStays(h, next, a.question.server, a.question.user, ps, a.source.value);
    }
  }

  lemma HistoryStays(h: seq<Version>, now: nat, op: Op)
    requires HistoryOk(h) && h[|h| - 1].since <= now
    ensures HistoryOk(h + [Version(now, Do(h[|h| - 1].db, op))])
  {
    hide Ok, Grows, Do;
    DoKeeps(h[|h| - 1].db, op);
    assert Follows(h[|h| - 1].db, Do(h[|h| - 1].db, op));
  }

  lemma EntryStays(h: seq<Version>, next: Version, now: nat, k: string, e: Entry)
    requires EntryOk(h, now, k, e) && now <= next.since
    ensures EntryOk(h + [next], now, k, e)
  {
    hide SourceOk, Key;
    SourceStays(h, next, e.server, e.user, e.permissions, e.source);
  }

  lemma CheckStays(h: seq<Version>, next: Version, now: nat, c: Check)
    requires CheckOk(h, now, c) && now <= next.since
    ensures CheckOk(h + [next], now, c)
  {
    hide SourceOk, IsMember;
    assert (h + [next])[c.question.asked] == h[c.question.asked];
    if c.Loaded? {
      SourceStays(h, next, c.question.server, c.question.user, c.permissions, c.source);
    }
  }

  lemma TransactionKeeps(w: World, op: Op)
    requires Good(w)
    ensures Good(Apply(w, Transaction(op)))
  {
    hide HistoryOk, EntryOk, CheckOk, AnswerOk, Do;
    var next := Version(w.now, Do(Current(w), op));
    var w' := Apply(w, Transaction(op));
    NotEmpty(w.history);
    HistoryStays(w.history, w.now, op);
    forall k <- w'.cache
      ensures EntryOk(w'.history, w'.now, k, w'.cache[k])
    {
      EntryStays(w.history, next, w.now, k, w.cache[k]);
    }
    forall r <- w'.checks
      ensures CheckOk(w'.history, w'.now, w'.checks[r])
    {
      CheckStays(w.history, next, w.now, w.checks[r]);
    }
    forall i | 0 <= i < |w'.answers|
      ensures AnswerOk(w'.history, w'.now, w'.answers[i])
    {
      AnswerStays(w.history, next, w.now, w.answers[i]);
    }
  }

  lemma NotEmpty(h: seq<Version>)
    requires HistoryOk(h)
    ensures h != []
  {
  }

  lemma {:induction false} ServersStay(h: seq<Version>, i: nat, j: nat, s: ServerId)
    requires HistoryOk(h) && i <= j < |h| && s in h[i].db.servers
    ensures s in h[j].db.servers && h[j].db.servers[s].owner == h[i].db.servers[s].owner
    decreases j
  {
    hide Ok;
    if i < j {
      ServersStay(h, i, j - 1, s);
      assert Grows(h[j - 1].db, h[j].db);
    }
  }

  lemma MembersAreOfServers(d: Db, s: ServerId, u: User)
    requires Ok(d) && IsMember(d, s, u)
    ensures s in d.servers
  {
    assert MemberOk(d, Member(s, u));
  }

  lemma NewQuestion(w: World, s: ServerId, u: User, p: Permission)
    requires w.history != []
    ensures var q := Question(s, u, p, Latest(w));
      && (IsMember(Current(w), s, u) ==> CheckOk(w.history, w.now, Asked(q)))
      && (!IsMember(Current(w), s, u) ==> AnswerOk(w.history, w.now, Answer(q, false, None, w.now, w.now)))
  {
    hide SourceOk, IsMember;
  }

  lemma AskKeeps(w: World, e: Event)
    requires Good(w) && e.Ask?
    ensures Good(Apply(w, e))
  {
    hide HistoryOk, IsMember, EntryOk, CheckOk, AnswerOk;
    NotEmpty(w.history);
    NewQuestion(w, e.server, e.user, e.permission);
  }

  /** An answer out of permissions with a good source. */
  lemma AnsweredKeeps(w: World, r: nat, q: Question, ps: set<Permission>, source: Source, storedAt: nat)
    requires Good(w) && MemberWhenAsked(w.history, q)
    requires SourceOk(w.history, q.server, q.user, ps, source)
    requires source.readAt <= storedAt <= w.now <= storedAt + TTL
    ensures Good(Answered(w, r, q, ps, source, storedAt))
  {
    hide HistoryOk, SourceOk, Key, MemberWhenAsked;
    var w' := Answered(w, r, q, ps, source, storedAt);
    var n := |w.answers|;
    assert AnswerOk(w'.history, w'.now, w'.answers[n]) by {
      assert q.asked < |w.history| by { AskedInHistory(w.history, q); }
    }
    forall i | 0 <= i < n
      ensures AnswerOk(w'.history, w'.now, w'.answers[i])
    {
      assert AnswerOk(w.history, w.now, w.answers[i]);
    }
  }

  lemma AskedInHistory(h: seq<Version>, q: Question)
    requires MemberWhenAsked(h, q)
    ensures q.asked < |h|
  {
  }

  lemma LookKeeps(w: World, r: nat)
    requires Good(w)
    ensures Good(Apply(w, Look(r)))
  {
    hide HistoryOk, SourceOk, Key, MemberWhenAsked, AnswerOk, Answered;
    if r in w.checks && w.checks[r].Asked? {
      var q := w.checks[r].question;
      var k := Key(q.server, q.user);
      assert CheckOk(w.history, w.now, w.checks[r]);
      if k in w.cache {
        var e := w.cache[k];
        assert EntryOk(w.history, w.now, k, e);
        KeyInjective(q.server, q.user, e.server, e.user);
        AnsweredKeeps(w, r, q, e.permissions, e.source, e.storedAt);
      }
    }
  }

  lemma QueryKeeps(w: World, r: nat)
    requires Good(w)
    ensures Good(Apply(w, Query(r)))
  {
    hide HistoryOk, Key, AnswerOk, Permissions, EntryOk;
    if r in w.checks && w.checks[r].Missed? {
      var q := w.checks[r].question;
      assert CheckOk(w.history, w.now, w.checks[r]);
      NotEmpty(w.history);
      AskedServerExists(w.history, q);
    }
  }

  /** Who was a member when asking is asking about a server that is there ever after. */
  lemma AskedServerExists(h: seq<Version>, q: Question)
    requires HistoryOk(h) && MemberWhenAsked(h, q)
    ensures q.server in h[|h| - 1].db.servers
  {
    hide Ok, Grows;
    assert Ok(h[q.asked].db);
    MembersAreOfServers(h[q.asked].db, q.server, q.user);
    ServersStay(h, q.asked, |h| - 1, q.server);
  }

  lemma PutKeeps(w: World, r: nat)
    requires Good(w)
    ensures Good(Apply(w, Put(r)))
  {
    hide HistoryOk, SourceOk, Key, MemberWhenAsked, AnswerOk, Answered;
    if r in w.checks && w.checks[r].Loaded? {
      var c := w.checks[r];
      var q := c.question;
      assert CheckOk(w.history, w.now, c);
      var stored := w.(cache := w.cache[Key(q.server, q.user) := Entry(q.server, q.user, c.permissions, c.source, w.now)]);
      assert Good(stored);
      AnsweredKeeps(stored, r, q, c.permissions, c.source, w.now);
    }
  }

  lemma TickKeeps(w: World, d: nat)
    requires Good(w)
    ensures Good(Apply(w, Tick(d)))
  {
    hide HistoryOk, SourceOk, Key, MemberWhenAsked;
    var w' := Apply(w, Tick(d));
    forall k <- w'.cache
      ensures EntryOk(w'.history, w'.now, k, w'.cache[k])
    {
      assert EntryOk(w.history, w.now, k, w.cache[k]);
    }
    forall r <- w'.checks
      ensures CheckOk(w'.history, w'.now, w'.checks[r])
    {
      assert CheckOk(w.history, w.now, w.checks[r]);
    }
    forall i | 0 <= i < |w'.answers|
      ensures AnswerOk(w'.history, w'.now, w'.answers[i])
    {
      assert AnswerOk(w.history, w.now, w.answers[i]);
    }
  }

  /** An entry is dropped by the clock exactly a minute after it was stored. */
  lemma DroppedAfterAMinute(w: World, d: nat, k: string)
    requires k in w.cache
    ensures k in Apply(w, Tick(d)).cache <==> w.now + d - w.cache[k].storedAt < 60
    ensures k in Apply(w, Tick(d)).cache ==> Apply(w, Tick(d)).cache[k] == w.cache[k]
  {
  }

  lemma EvictKeeps(w: World, k: string)
    requires Good(w)
    ensures Good(Apply(w, Evict(k)))
  {
    hide HistoryOk, EntryOk, CheckOk, AnswerOk;
  }

  lemma ApplyKeeps(w: World, e: Event)
    requires Good(w)
    ensures Good(Apply(w, e))
  {
    hide Good, Apply;
    match e
    case Transaction(op) => TransactionKeeps(w, op);
    case Ask(_, _, _, _) => AskKeeps(w, e);
    case Look(r) => LookKeeps(w, r);
    case Query(r) => QueryKeeps(w, r);
    case Put(r) => PutKeeps(w, r);
    case Evict(k) => EvictKeeps(w, k);
    case Tick(d) => TickKeeps(w, d);
  }

  lemma {:induction false} RunKeeps(w: World, es: seq<Event>)
    requires Good(w)
    ensures Good(RunFrom(w, es))
    decreases |es|
  {
    hide Good, Apply;
    if es != [] {
      ApplyKeeps(w, es[0]);
      RunKeeps(Apply(w, es[0]), es[1..]);
    }
  }

  lemma StartIsGood()
    ensures Good(START)
  {
  }

  lemma RunIsGood(es: seq<Event>)
    ensures Good(RunFrom(START, es))
  {
    hide Good, RunFrom;
    StartIsGood();
    RunKeeps(START, es);
  }

  // ---------------------------------------------------------------- what the answers mean

  /**
   Every answer on every run.  Without a membership at the time of the test it is a refusal.
   Otherwise it is what the roles gave in a state the tables were in, at a moment no longer ago than
   a minute plus the time that fill took from its query to its put.
   */
  lemma AnswersAreRecent(es: seq<Event>, i: nat)
    requires i < |RunFrom(START, es).answers|
    ensures var w := RunFrom(START, es);
            var a := w.answers[i];
            var q := a.question;
      && q.asked < |w.history|
      && (!IsMember(w.history[q.asked].db, q.server, q.user) ==> !a.allowed)
      && (a.source.Some? <==> IsMember(w.history[q.asked].db, q.server, q.user))
      && (a.source.Some? ==>
            && a.source.value.read < |w.history|
            && (a.allowed <==> q.permission in Permissions(w.history[a.source.value.read].db, q.server, q.user))
            && w.history[a.source.value.read].since <= a.source.value.readAt
            && (a.source.value.read + 1 < |w.history| ==>
                  a.source.value.readAt <= w.history[a.source.value.read + 1].since)
            && a.at - a.source.value.readAt <= 60 + (a.storedAt - a.source.value.readAt)
            && a.source.value.readAt <= a.storedAt <= a.at)
  {
    hide RunFrom, Permissions, HistoryOk, EntryOk, CheckOk;
    RunIsGood(es);
    assert AnswerOk(RunFrom(START, es).history, RunFrom(START, es).now, RunFrom(START, es).answers[i]);
  }

  /**
   READ, WRITE and VOICE_JOIN are refused to someone who passed the membership test exactly when the
   role query behind the answer ran at a moment they were not a member.
   */
  lemma BasicRefusedIff(es: seq<Event>, i: nat)
    requires i < |RunFrom(START, es).answers|
    requires RunFrom(START, es).answers[i].source.Some?
    requires RunFrom(START, es).answers[i].question.permission in BASIC
    ensures var w := RunFrom(START, es);
            var a := w.answers[i];
      && a.source.value.read < |w.history|
      && (!a.allowed <==> !IsMember(w.history[a.source.value.read].db, a.question.server, a.question.user))
  {
    hide RunFrom, Permissions, Ok, EntryOk, CheckOk;
    AnswersAreRecent(es, i);
    RunIsGood(es);
    var w := RunFrom(START, es);
    var a := w.answers[i];
    assert Ok(w.history[a.source.value.read].db);
    BasicIffMember(w.history[a.source.value.read].db, a.question.server, a.question.user, a.question.permission);
  }

  /** The user is a member in every state from one version to another. */
  ghost predicate StaysMember(h: seq<Version>, i: nat, j: nat, s: ServerId, u: User) {
    j < |h| && forall k | i <= k <= j :: IsMember(h[k].db, s, u)
  }

  lemma {:induction false} GrantsStay(h: seq<Version>, i: nat, j: nat, s: ServerId, u: User)
    requires HistoryOk(h) && i <= j && StaysMember(h, i, j, s, u)
    ensures Permissions(h[i].db, s, u) <= Permissions(h[j].db, s, u)
    decreases j
  {
    hide Ok, Permissions;
    if i < j {
      GrantsStay(h, i, j - 1, s, u);
      assert Grows(h[j - 1].db, h[j].db);
      assert Member(s, u) in h[j - 1].db.members && Member(s, u) in h[j].db.members;
    }
  }

  /** A permission once granted, even by a stale entry, is one the roles still grant, unless the user left since it was read. */
  lemma AllowedIsGranted(es: seq<Event>, i: nat, v: nat)
    requires i < |RunFrom(START, es).answers| && RunFrom(START, es).answers[i].allowed
    requires var w := RunFrom(START, es);
             var a := w.answers[i];
             && a.source.Some? && a.source.value.read <= v
             && StaysMember(w.history, a.source.value.read, v, a.question.server, a.question.user)
    ensures var w := RunFrom(START, es);
            var q := w.answers[i].question;
      q.permission in Permissions(w.history[v].db, q.server, q.user)
  {
    hide RunFrom, Permissions, Ok, EntryOk, CheckOk;
    AnswersAreRecent(es, i);
    RunIsGood(es);
    var w := RunFrom(START, es);
    var a := w.answers[i];
    GrantsStay(w.history, a.source.value.read, v, a.question.server, a.question.user);
  }

  ghost predicate EveryoneGives(d: Db, s: ServerId, r: RoleId, p: Permission) {
    r in d.roles && d.roles[r].server == s && d.roles[r].name == EVERYONE && p in d.roles[r].permissions
  }

  /** The transaction gives the user the permission: by joining, through @everyone, or by an assignment. */
  ghost predicate Gives(d: Db, op: Op, s: ServerId, u: User, p: Permission) {
    && Enabled(d, op)
    && match op
       case Join(t, v) => t == s && v == u && exists r :: EveryoneGives(d, s, r, p)
       case AssignRole(t, v, r, _) => t == s && v == u && p in d.roles[r].permissions
       case _ => false
  }

  ghost predicate Gave(d: Db, e: Db, s: ServerId, u: User, p: Permission) {
    exists op :: e == Do(d, op) && Gives(d, op, s, u, p)
  }

  /** The k-th state is the work of a transaction that gave the user the permission. */
  ghost predicate GivenAt(h: seq<Version>, k: nat, s: ServerId, u: User, p: Permission) {
    0 < k < |h| && Gave(h[k - 1].db, h[k].db, s, u, p)
  }

  lemma GivesGrants(d: Db, op: Op, s: ServerId, u: User, p: Permission)
    requires Gives(d, op, s, u, p)
    ensures p in Permissions(Do(d, op), s, u)
  {
    hide Permissions, MayAssign;
    var e := Do(d, op);
    if op.Join? {
      var r :| EveryoneGives(d, s, r, p);
      assert Assignment(s, u, r) in EveryoneRows(d, s, u);
      OfRole(e, s, u, r);
    } else {
      OfRole(e, s, u, op.role);
    }
  }

  lemma GrantedRow(d: Db, s: ServerId, u: User, p: Permission) returns (a: Assignment)
    requires p in Permissions(d, s, u)
    ensures a in d.grants && a == Assignment(s, u, a.role) && a.role in d.roles && p in d.roles[a.role].permissions
  {
    a :| a in d.grants && a.server == s && a.user == u && a.role in d.roles && p in d.roles[a.role].permissions;
  }

  lemma GrantedIsMember(d: Db, s: ServerId, u: User, p: Permission)
    requires Ok(d) && p in Permissions(d, s, u)
    ensures IsMember(d, s, u)
  {
    hide Permissions, RolesOk, NamesUnique, MembersOk, OwnersOk;
    var a := GrantedRow(d, s, u, p);
    assert GrantOk(d, a);
  }

  /** Nothing but a join or an assignment gives a permission on a server that is there. */
  lemma OnlyGives(d: Db, op: Op, s: ServerId, u: User, p: Permission)
    requires Ok(d) && s in d.servers && p !in Permissions(d, s, u) && p in Permissions(Do(d, op), s, u)
    ensures Gives(d, op, s, u, p)
  {
    hide Permissions, RolesOk, NamesUnique, MembersOk, OwnersOk, MayAssign, Blank;
    var e := Do(d, op);
    var a := GrantedRow(e, s, u, p);
    if a in d.grants {
      assert GrantOk(d, a);
      assert e.roles[a.role] == d.roles[a.role];
      OfRole(d, s, u, a.role);
    } else if op.Join? {
      assert a in EveryoneRows(d, op.server, op.user);
      assert EveryoneGives(d, s, a.role, p);
    }
  }

  lemma {:induction false} GrantedSince(h: seq<Version>, i: nat, j: nat, s: ServerId, u: User, p: Permission)
    requires HistoryOk(h) && i <= j < |h| && s in h[i].db.servers && p in Permissions(h[j].db, s, u)
    ensures StaysMember(h, i, j, s, u) || exists k :: i < k <= j && GivenAt(h, k, s, u, p) && StaysMember(h, k, j, s, u)
    decreases j
  {
    hide Permissions, Ok, Grows, Gives, Do, IsMember, Follows;
    assert Ok(h[j].db);
    GrantedIsMember(h[j].db, s, u, p);
    if i < j {
      if p in Permissions(h[j - 1].db, s, u) {
        GrantedSince(h, i, j - 1, s, u, p);
        if !StaysMember(h, i, j - 1, s, u) {
          var k :| i < k <= j - 1 && GivenAt(h, k, s, u, p) && StaysMember(h, k, j - 1, s, u);
          assert StaysMember(h, k, j, s, u);
        }
      } else {
        GivenNow(h, i, j, s, u, p);
        assert StaysMember(h, j, j, s, u);
      }
    }
  }

  lemma GivenNow(h: seq<Version>, i: nat, j: nat, s: ServerId, u: User, p: Permission)
    requires HistoryOk(h) && i < j < |h| && s in h[i].db.servers
    requires p !in Permissions(h[j - 1].db, s, u) && p in Permissions(h[j].db, s, u)
    ensures GivenAt(h, j, s, u, p)
  {
    hide Permissions, Ok, Grows, Gives, Do;
    assert Follows(h[j - 1].db, h[j].db) && Ok(h[j - 1].db);
    var op :| h[j].db == Do(h[j - 1].db, op);
    ServersStay(h, i, j - 1, s);
    OnlyGives(h[j - 1].db, op, s, u, p);
  }

  /**
   When an allowed permission is still granted: in a later state the roles grant it if and only if the
   user has been a member ever since the role query, or some transaction since then, a join or an
   assignment, gave it and the user has been a member from then on.
   */
  lemma AllowedIsGrantedIff(es: seq<Event>, i: nat, v: nat)
    requires i < |RunFrom(START, es).answers| && RunFrom(START, es).answers[i].allowed
    requires var w := RunFrom(START, es);
             w.answers[i].source.Some? && w.answers[i].source.value.read <= v < |w.history|
    ensures var w := RunFrom(START, es);
            var q, read := w.answers[i].question, w.answers[i].source.value.read;
      q.permission in Permissions(w.history[v].db, q.server, q.user)
      <==> (|| StaysMember(w.history, read, v, q.server, q.user)
            || exists k :: read < k <= v && GivenAt(w.history, k, q.server, q.user, q.permission) && StaysMember(w.history, k, v, q.server, q.user))
  {
    hide RunFrom, Permissions, Ok, EntryOk, CheckOk, StaysMember, GivenAt;
    RunIsGood(es);
    var w := RunFrom(START, es);
    var a := w.answers[i];
    var q, read := a.question, a.source.value.read;
    assert AnswerOk(w.history, w.now, a);
    if StaysMember(w.history, read, v, q.server, q.user) {
      AllowedIsGranted(es, i, v);
    }
    if k :| read < k <= v && GivenAt(w.history, k, q.server, q.user, q.permission) && StaysMember(w.history, k, v, q.server, q.user) {
      GivenStays(w.history, k, v, q.server, q.user, q.permission);
    }
    if q.permission in Permissions(w.history[v].db, q.server, q.user) {
      GrantedSince(w.history, read, v, q.server, q.user, q.permission);
    }
  }

  lemma GivenStays(h: seq<Version>, k: nat, v: nat, s: ServerId, u: User, p: Permission)
    requires HistoryOk(h) && k <= v && GivenAt(h, k, s, u, p) && StaysMember(h, k, v, s, u)
    ensures p in Permissions(h[v].db, s, u)
  {
    hide Permissions, Ok, Grows, Gives, Do, IsMember, HistoryOk;
    var op :| h[k].db == Do(h[k - 1].db, op) && Gives(h[k - 1].db, op, s, u, p);
    GivesGrants(h[k - 1].db, op, s, u, p);
    GrantsStay(h, k, v, s, u);
  }

  /** Once a server exists its owner is refused nothing. */
  lemma OwnerNeverRefused(es: seq<Event>, i: nat)
    requires i < |RunFrom(START, es).answers|
    requires var w := RunFrom(START, es);
             var q := w.answers[i].question;
             q.asked < |w.history| && q.server in w.history[q.asked].db.servers
             && w.history[q.asked].db.servers[q.server].owner == q.user
    ensures RunFrom(START, es).answers[i].allowed
  {
    hide RunFrom, Permissions, EntryOk, CheckOk;
    RunIsGood(es);
    var w := RunFrom(START, es);
    var a := w.answers[i];
    assert AnswerOk(w.history, w.now, a);
    OwnerHolds(w.history[a.question.asked].db, a.question.server);
    var ps :| SourceOk(w.history, a.question.server, a.question.user, ps, a.source.value)
      && a.allowed == (a.question.permission in ps);
    OwnerThroughout(w.history, a.question.asked, a.source.value.read, a.question.server);
    OwnerHolds(w.history[a.source.value.read].db, a.question.server);
  }

  lemma OwnerHolds(d: Db, s: ServerId)
    requires Ok(d) && s in d.servers
    ensures IsMember(d, s, d.servers[s].owner)
    ensures forall p: Permission :: p in Permissions(d, s, d.servers[s].owner)
  {
    hide Permissions;
    assert OwnerOk(d, s);
    AllOfThem();
  }

  lemma OwnerThroughout(h: seq<Version>, i: nat, j: nat, s: ServerId)
    requires HistoryOk(h) && i < |h| && j < |h| && s in h[i].db.servers && s in h[j].db.servers
    ensures h[i].db.servers[s].owner == h[j].db.servers[s].owner
  {
    if i <= j {
      ServersStay(h, i, j, s);
    } else {
      ServersStay(h, j, i, s);
    }
  }

  // ---------------------------------------------------------------- where stale answers come from

  /** One more check of the same question, answered from the cache. */
  function CheckAgain(s: ServerId, u: User, p: Permission): seq<Event> {
    [Ask(1, s, u, p), Look(1)]
  }

  /** Leaving and joining again: the rows of membership_roles go with the membership and only @everyone's come back. */
  function LeaveAndRejoin(s: ServerId, u: User): seq<Event> {
    [Transaction(Leave(s, u)), Transaction(Join(s, u))]
  }

  lemma RunTwo(w: World, es: seq<Event>)
    requires |es| == 2
    ensures RunFrom(w, es) == Apply(Apply(w, es[0]), es[1])
  {
    hide Apply;
    assert es[1..] == [es[1]] && es[1..][1..] == [];
    assert RunFrom(Apply(w, es[0]), es[1..]) == RunFrom(Apply(Apply(w, es[0]), es[1]), []);
  }

  lemma {:induction false} RunConcat(w: World, a: seq<Event>, b: seq<Event>)
    ensures RunFrom(w, a + b) == RunFrom(RunFrom(w, a), b)
    decreases |a|
  {
    hide Apply;
    if a == [] {
      assert a + b == b;
    } else {
      assert (a + b)[1..] == a[1..] + b;
      RunConcat(Apply(w, a[0]), a[1..], b);
    }
  }

  /** Rejoining gives what the @everyone role gives and nothing else. */
  lemma RejoinGivesEveryone(d: Db, s: ServerId, u: User, p: Permission)
    requires Ok(d) && Enabled(d, Leave(s, u))
    requires forall r <- d.roles | d.roles[r].server == s && d.roles[r].name == EVERYONE :: p !in d.roles[r].permissions
    ensures var e := Do(Do(d, Leave(s, u)), Join(s, u));
      IsMember(e, s, u) && p !in Permissions(e, s, u)
  {
    hide Ok;
    var left := Do(d, Leave(s, u));
    var e := Do(left, Join(s, u));
    assert e.grants == left.grants + EveryoneRows(left, s, u);
    forall a <- e.grants | a.server == s && a.user == u
      ensures a in EveryoneRows(left, s, u) && e.roles == d.roles
    {
      assert a !in left.grants;
    }
  }

  /**
   From any state in which the cache holds a permission of a member that @everyone does not give:
   after leaving and rejoining, the check still answers yes although no current role grants it.
   */
  lemma StaleGrant(w: World, s: ServerId, u: User, p: Permission)
    requires Good(w) && 1 !in w.checks
    requires Key(s, u) in w.cache && p in w.cache[Key(s, u)].permissions
    requires Enabled(Current(w), Leave(s, u))
    requires var d := Current(w);
             forall r <- d.roles | d.roles[r].server == s && d.roles[r].name == EVERYONE :: p !in d.roles[r].permissions
    ensures var w' := RunFrom(w, LeaveAndRejoin(s, u) + CheckAgain(s, u, p));
      && w'.answers != [] && w'.answers[|w'.answers| - 1].allowed
      && IsMember(Current(w'), s, u) && p !in Permissions(Current(w'), s, u)
  {
    hide Good, Do, Enabled, Key, Permissions, IsMember;
    var d := Current(w);
    CurrentIsOk(w);
    RejoinGivesEveryone(d, s, u, p);
    var left := Apply(w, Transaction(Leave(s, u)));
    var back := Apply(left, Transaction(Join(s, u)));
    assert Current(back) == Do(Do(d, Leave(s, u)), Join(s, u));
    var asked := Apply(back, Ask(1, s, u, p));
    assert asked.checks[1] == Asked(Question(s, u, p, Latest(back)));
    RunTwo(w, LeaveAndRejoin(s, u));
    RunTwo(back, CheckAgain(s, u, p));
    RunConcat(w, LeaveAndRejoin(s, u), CheckAgain(s, u, p));
  }

  lemma CurrentIsOk(w: World)
    requires Good(w)
    ensures w.history != [] && Ok(Current(w))
  {
    hide Ok, Permissions;
  }

  /** A member's check whose role query runs between their leaving and rejoining stores an empty set. */
  function Interleaved(s: ServerId, u: User): seq<Event> {
    [Ask(0, s, u, Read), Transaction(Leave(s, u)), Look(0), Query(0), Put(0), Transaction(Join(s, u))]
  }

  lemma RunSix(w: World, es: seq<Event>)
    requires |es| == 6
    ensures RunFrom(w, es) == Apply(Apply(Apply(Apply(Apply(Apply(w, es[0]), es[1]), es[2]), es[3]), es[4]), es[5])
  {
    hide Apply;
    var first, second, third := es[..2], es[2..4], es[4..];
    assert es == first + (second + third);
    RunConcat(w, first, second + third);
    RunConcat(RunFrom(w, first), second, third);
    RunTwo(w, first);
    RunTwo(RunFrom(w, first), second);
    RunTwo(RunFrom(RunFrom(w, first), second), third);
  }

  /** The interleaved check, from its lookup on, in a state where the user has left. */
  lemma FillWhileAway(w: World, q: Question)
    requires 0 in w.checks && w.checks[0] == Asked(q) && w.history != []
    requires Key(q.server, q.user) !in w.cache && Permissions(Current(w), q.server, q.user) == {}
    ensures var w' := Apply(Apply(Apply(w, Look(0)), Query(0)), Put(0));
      && w'.history == w.history && w'.now == w.now && w'.checks == w.checks - {0}
      && Key(q.server, q.user) in w'.cache && w'.cache[Key(q.server, q.user)].permissions == {}
  {
    hide Key, Permissions;
    var w3 := Apply(w, Look(0));
    assert w3.checks[0] == Missed(q);
    var w4 := Apply(w3, Query(0));
    assert w4.checks[0].Loaded? && w4.checks[0].permissions == {} && w4.checks[0].question == q;
  }

  /** A member whose cached set is empty is refused. */
  lemma RefusedFromCache(w: World, s: ServerId, u: User, p: Permission)
    requires 1 !in w.checks && IsMember(Current(w), s, u)
    requires Key(s, u) in w.cache && w.cache[Key(s, u)].permissions == {}
    ensures var w' := RunFrom(w, CheckAgain(s, u, p));
      w'.answers != [] && !w'.answers[|w'.answers| - 1].allowed && w'.history == w.history
  {
    hide Key, IsMember;
    var asked := Apply(w, Ask(1, s, u, p));
    assert asked.checks[1] == Asked(Question(s, u, p, Latest(w)));
    RunTwo(w, CheckAgain(s, u, p));
  }

  lemma AskedThenLeft(w: World, s: ServerId, u: User)
    requires 0 !in w.checks && 1 !in w.checks && IsMember(Current(w), s, u) && w.history != []
    ensures var w' := Apply(Apply(w, Ask(0, s, u, Read)), Transaction(Leave(s, u)));
      && w'.checks == w.checks[0 := Asked(Question(s, u, Read, Latest(w)))] && w'.cache == w.cache
      && w'.history != [] && Current(w') == Do(Current(w), Leave(s, u))
  {
    hide Do, IsMember;
  }

  /** From any state: such a check, and then a member in good standing is refused READ. */
  lemma MemberRefusedRead(w: World, s: ServerId, u: User)
    requires Good(w) && 0 !in w.checks && 1 !in w.checks && Key(s, u) !in w.cache
    requires Enabled(Current(w), Leave(s, u))
    ensures var w' := RunFrom(w, Interleaved(s, u) + CheckAgain(s, u, Read));
      && w'.answers != [] && !w'.answers[|w'.answers| - 1].allowed
      && IsMember(Current(w'), s, u) && Read in Permissions(Current(w'), s, u)
  {
    hide Good, Ok, Do, Enabled, Key, Permissions, IsMember;
    var d := Current(w);
    CurrentIsOk(w);
    LeftAndBack(d, s, u);
    var q := Question(s, u, Read, Latest(w));
    var w2 := Apply(Apply(w, Ask(0, s, u, Read)), Transaction(Leave(s, u)));
    AskedThenLeft(w, s, u);
    FillWhileAway(w2, q);
    var w5 := Apply(Apply(Apply(w2, Look(0)), Query(0)), Put(0));
    var w6 := Apply(w5, Transaction(Join(s, u)));
    assert Current(w6) == Do(Do(d, Leave(s, u)), Join(s, u));
    RefusedFromCache(w6, s, u, Read);
    RunSix(w, Interleaved(s, u));
    RunConcat(w, Interleaved(s, u), CheckAgain(s, u, Read));
  }

  lemma LeftAndBack(d: Db, s: ServerId, u: User)
    requires Ok(d) && Enabled(d, Leave(s, u))
    ensures IsMember(d, s, u)
    ensures Permissions(Do(d, Leave(s, u)), s, u) == {}
    ensures var e := Do(Do(d, Leave(s, u)), Join(s, u));
      IsMember(e, s, u) && Read in Permissions(e, s, u)
  {
    hide Permissions, Ok;
    Left(d, s, u);
    DoKeeps(d, Leave(s, u));
    Joined(Do(d, Leave(s, u)), s, u);
  }

  // ---------------------------------------------------------------- both, from the beginning

  /** A server with its owner, and one more member. */
  function Founding(s: ServerId, everyone: RoleId, ownerRole: RoleId, owner: User, u: User): seq<Event> {
    [Transaction(CreateServer(s, "guild", owner, everyone, ownerRole)), Transaction(Join(s, u))]
  }

  function Founded(s: ServerId, everyone: RoleId, ownerRole: RoleId, owner: User, u: User): Db {
    Db(map[s := Server("guild", owner, false)],
       map[everyone := Role(s, EVERYONE, BASIC), ownerRole := Role(s, OWNER, ALL)],
       {Member(s, owner), Member(s, u)},
       {Assignment(s, owner, ownerRole), Assignment(s, u, everyone)})
  }

  lemma FoundingDb(s: ServerId, everyone: RoleId, ownerRole: RoleId, owner: User, u: User)
    requires everyone != ownerRole && owner != u
    ensures Do(Do(EMPTY, CreateServer(s, "guild", owner, everyone, ownerRole)), Join(s, u))
         == Founded(s, everyone, ownerRole, owner, u)
  {
    assert "guild"[0] > ' ';
    assert 'g' in "guild";
    var d := Do(EMPTY, CreateServer(s, "guild", owner, everyone, ownerRole));
    assert d.servers == map[s := Server("guild", owner, false)];
    assert EveryoneRows(d, s, u) == {Assignment(s, u, everyone)};
  }

  lemma FoundingRun(s: ServerId, everyone: RoleId, ownerRole: RoleId, owner: User, u: User)
    requires everyone != ownerRole && owner != u
    ensures var w := RunFrom(START, Founding(s, everyone, ownerRole, owner, u));
      && Good(w) && w.checks == map[] && w.cache == map[] && w.history != []
      && Current(w) == Founded(s, everyone, ownerRole, owner, u)
      && Enabled(Current(w), Leave(s, u))
  {
    hide Do, Good;
    var es := Founding(s, everyone, ownerRole, owner, u);
    FoundingDb(s, everyone, ownerRole, owner, u);
    RunTwo(START, es);
    RunIsGood(es);
  }

  /** A whole run after which a member who holds READ is refused it. */
  lemma MemberRefusedReadRun(s: ServerId, everyone: RoleId, ownerRole: RoleId, owner: User, u: User)
    requires everyone != ownerRole && owner != u
    ensures var w := RunFrom(START, Founding(s, everyone, ownerRole, owner, u) + (Interleaved(s, u) + CheckAgain(s, u, Read)));
      && w.answers != [] && !w.answers[|w.answers| - 1].allowed
      && IsMember(Current(w), s, u) && Read in Permissions(Current(w), s, u)
  {
    hide Good, Permissions, IsMember, Enabled, Founding, Interleaved, CheckAgain, RunFrom;
    FoundingRun(s, everyone, ownerRole, owner, u);
    RunConcat(START, Founding(s, everyone, ownerRole, owner, u), Interleaved(s, u) + CheckAgain(s, u, Read));
    MemberRefusedRead(RunFrom(START, Founding(s, everyone, ownerRole, owner, u)), s, u);
  }

  /** The owner gives the member the owner's role, and a check stores what that grants. */
  function Promotion(s: ServerId, ownerRole: RoleId, owner: User, u: User): seq<Event> {
    [Transaction(AssignRole(s, u, ownerRole, owner)), Ask(0, s, u, Manage), Look(0), Query(0), Put(0), Tick(1)]
  }

  lemma FillOnMiss(w: World, q: Question)
    requires 0 in w.checks && w.checks[0] == Asked(q) && w.history != [] && Key(q.server, q.user) !in w.cache
    ensures var w' := Apply(Apply(Apply(w, Look(0)), Query(0)), Put(0));
      && w'.history == w.history && w'.checks == w.checks - {0} && w'.now == w.now
      && w'.cache == w.cache[Key(q.server, q.user) :=
           Entry(q.server, q.user, Permissions(Current(w), q.server, q.user), Source(Latest(w), w.now), w.now)]
  {
    hide Key, Permissions;
    var w3 := Apply(w, Look(0));
    assert w3.checks[0] == Missed(q);
    var w4 := Apply(w3, Query(0));
    assert w4.checks[0] == Loaded(q, Permissions(Current(w), q.server, q.user), Source(Latest(w), w.now));
  }

  lemma Promoted(s: ServerId, everyone: RoleId, ownerRole: RoleId, owner: User, u: User)
    requires everyone != ownerRole && owner != u
    ensures var d := Founded(s, everyone, ownerRole, owner, u);
            var e := Do(d, AssignRole(s, u, ownerRole, owner));
      && e == d.(grants := d.grants + {Assignment(s, u, ownerRole)})
      && Manage in Permissions(e, s, u) && IsMember(e, s, u) && Enabled(e, Leave(s, u))
      && forall r <- e.roles | e.roles[r].server == s && e.roles[r].name == EVERYONE :: Manage !in e.roles[r].permissions
  {
    var e := Do(Founded(s, everyone, ownerRole, owner, u), AssignRole(s, u, ownerRole, owner));
    OfRole(e, s, u, ownerRole);
    assert EVERYONE[1] != OWNER[1];
  }

  lemma PromotionRun(w: World, s: ServerId, everyone: RoleId, ownerRole: RoleId, owner: User, u: User)
    requires Good(w) && w.checks == map[] && w.cache == map[] && w.history != []
    requires everyone != ownerRole && owner != u && Current(w) == Founded(s, everyone, ownerRole, owner, u)
    ensures var w' := RunFrom(w, Promotion(s, ownerRole, owner, u));
      && Good(w') && w'.checks == map[] && Current(w') == Do(Current(w), AssignRole(s, u, ownerRole, owner))
      && Key(s, u) in w'.cache && Manage in w'.cache[Key(s, u)].permissions
  {
    hide Good, Do, Permissions, IsMember, Enabled, Key;
    var es := Promotion(s, ownerRole, owner, u);
    Promoted(s, everyone, ownerRole, owner, u);
    var w1 := Apply(w, es[0]);
    var w2 := Apply(w1, es[1]);
    var q := Question(s, u, Manage, Latest(w1));
    assert w2.checks == map[0 := Asked(q)];
    FillOnMiss(w2, q);
    RunSix(w, es);
    RunKeeps(w, es);
  }

  /** A whole run after which MANAGE is granted to a member whose roles do not grant it. */
  lemma StaleGrantRun(s: ServerId, everyone: RoleId, ownerRole: RoleId, owner: User, u: User)
    requires everyone != ownerRole && owner != u
    ensures var w := RunFrom(START, Founding(s, everyone, ownerRole, owner, u)
                                    + (Promotion(s, ownerRole, owner, u) + (LeaveAndRejoin(s, u) + CheckAgain(s, u, Manage))));
      && w.answers != [] && w.answers[|w.answers| - 1].allowed
      && IsMember(Current(w), s, u) && Manage !in Permissions(Current(w), s, u)
  {
    hide Good, Do, Permissions, IsMember, Enabled, Founding, Promotion, LeaveAndRejoin, CheckAgain, RunFrom, Key;
    var first, second, third :=
      Founding(s, everyone, ownerRole, owner, u), Promotion(s, ownerRole, owner, u), LeaveAndRejoin(s, u) + CheckAgain(s, u, Manage);
    FoundingRun(s, everyone, ownerRole, owner, u);
    var w := RunFrom(START, first);
    PromotionRun(w, s, everyone, ownerRole, owner, u);
    Promoted(s, everyone, ownerRole, owner, u);
    StaleGrant(RunFrom(w, second), s, u, Manage);
    RunConcat(START, first, second + third);
    RunConcat(w, second, third);
  }
}

/** PermissionService and PermCacheService: one check with nothing in between. */
module PermissionService {
  import opened Servers
  import opened PermissionCache
  import opened ServersApi

  class PermissionService {
    const tables: ServersService
    var cache: map<string, (set<Permission>, nat)>
    var now: nat

    constructor (tables: ServersService)
      ensures this.tables == tables && cache == map[] && now == 0
    {
      this.tables := tables;
      cache, now := map[], 0;
    }

    /** getPermissionsForUser: the cached set for a minute after it was stored, else the roles' union, stored. */
    method GetPermissionsForUser(s: ServerId, u: User) returns (ps: set<Permission>)
      modifies this`cache
      ensures var k := Key(s, u);
              var hit := k in old(cache) && now - old(cache)[k].1 < 60;
        && ps == (if hit then old(cache)[k].0 else Permissions(tables.State(), s, u))
        && cache == if hit then old(cache) else old(cache)[k := (ps, now)]
    {
      var k := Key(s, u);
      if k in cache && now < cache[k].1 + TTL {
        return cache[k].0;
      }
      ps := Permissions(tables.State(), s, u);
      cache := cache[k := (ps, now)];
    }

    /** checkPerm: the membership test is always live, and comes before the cache. */
    method CheckPerm(u: User, s: ServerId, p: Permission) returns (allowed: bool, reason: string)
      modifies this`cache
      ensures Member(s, u) !in tables.members ==> !allowed && reason == "not a member" && cache == old(cache)
      ensures Member(s, u) in tables.members ==>
        var k := Key(s, u);
        && (allowed <==> p in if k in old(cache) && now - old(cache)[k].1 < 60 then old(cache)[k].0
                              else Permissions(tables.State(), s, u))
        && reason == if allowed then "" else "insufficient permissions"
      ensures forall k :: k != Key(s, u) ==> (k in cache <==> k in old(cache)) && (k in cache ==> cache[k] == old(cache)[k])
    {
      if !IsMember(tables.State(), s, u) {
        return false, "not a member";
      }
      var ps := GetPermissionsForUser(s, u);
      if p in ps {
        return true, "";
      }
      return false, "insufficient permissions";
    }
  }
}
