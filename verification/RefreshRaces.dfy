/**
 Refreshes whose find, delete and save are three steps, and logouts whose read and commit are two, as
 they run on the server: other requests and the clock come between them.  A row is deleted through the
 object that was read, so a DELETE that finds its row gone fails the request with 500 and nothing more
 of it is done; a logout commits all of its DELETEs or none.
 */
module RefreshRaces {
  import opened Prelude
  import opened Tokens

  /**
   A request under way: a refresh that found a token it will rotate, or an expired one it will only
   delete; a refresh past its delete; a logout that has read its user's tokens, `read` entries into the log.
   */
  datatype Stage =
    | Found(token: Hash, user: User)
    | Stale(token: Hash)
    | Removed(token: Hash, user: User)
    | Leaving(user: User, hashes: set<Hash>, read: nat)

  datatype Step =
    | Find(request: nat, token: Hash, user: User, at: nat)
    | Remove(request: nat, token: Hash)
    | Save(request: nat, user: User, issued: Hash, used: Option<Hash>, expiresAt: nat)
    | LogOut(user: User, hashes: set<Hash>, read: nat)

  datatype State = State(now: nat, tokens: map<Hash, Token>, requests: map<nat, Stage>, log: seq<Step>)

  datatype Action =
    | SignIn(request: nat, user: User, issued: Hash)
    | BeginRefresh(request: nat, token: Hash)
    | Delete(request: nat)
    | Finish(request: nat, issued: Hash)
    | BeginSignOut(request: nat, user: User)
    | CommitSignOut(request: nat)
    | Wait(millis: nat)

  const NOTHING: State := State(0, map[], map[], [])

  predicate Saved(log: seq<Step>, h: Hash) {
    exists i | 0 <= i < |log| :: log[i].Save? && log[i].issued == h
  }

  predicate Started(log: seq<Step>, r: nat) {
    exists i | 0 <= i < |log| :: log[i].Find? && log[i].request == r
  }

  function HashesOf(tokens: map<Hash, Token>, u: User): set<Hash> {
    set h | h in tokens && tokens[h].user == u
  }

  /** One step; a step of no request in that stage does not happen. */
  function Act(s: State, a: Action): State {
    match a
    case SignIn(r, u, h) =>
      if Saved(s.log, h) then s
      else s.(tokens := s.tokens[h := Token(u, s.now + LIFETIME)], log := s.log + [Save(r, u, h, None, s.now + LIFETIME)])
    case BeginRefresh(r, h) =>
      if r in s.requests || Started(s.log, r) || h !in s.tokens then s
      else if Expired(s.tokens[h], s.now) then s.(requests := s.requests[r := Stale(h)])
      else s.(requests := s.requests[r := Found(h, s.tokens[h].user)], log := s.log + [Find(r, h, s.tokens[h].user, s.now)])
    case Delete(r) =>
      if r !in s.requests || s.requests[r].Removed? || s.requests[r].Leaving? then s
      else
        var h := s.requests[r].token;
        if h !in s.tokens then s.(requests := s.requests - {r})
        else s.(tokens := s.tokens - {h}, log := s.log + [Remove(r, h)],
                requests := if s.requests[r].Found? then s.requests[r := Removed(h, s.requests[r].user)] else s.requests - {r})
    case Finish(r, h) =>
      if r !in s.requests || !s.requests[r].Removed? || Saved(s.log, h) then s
      else
        var u := s.requests[r].user;
        s.(tokens := s.tokens[h := Token(u, s.now + LIFETIME)], requests := s.requests - {r},
           log := s.log + [Save(r, u, h, Some(s.requests[r].token), s.now + LIFETIME)])
    case BeginSignOut(r, u) =>
      if r in s.requests then s
      else s.(requests := s.requests[r := Leaving(u, HashesOf(s.tokens, u), |s.log|)])
    case CommitSignOut(r) =>
      if r !in s.requests || !s.requests[r].Leaving? then s
      else
        var hs := s.requests[r].hashes;
        if hs <= s.tokens.Keys
        then s.(tokens := s.tokens - hs, requests := s.requests - {r}, log := s.log + [LogOut(s.requests[r].user, hs, s.requests[r].read)])
        else s.(requests := s.requests - {r})
    case Wait(d) => s.(now := s.now + d)
  }

  function Run(s: State, acts: seq<Action>): State
    decreases |acts|
  {
    if acts == [] then s else Run(Act(s, acts[0]), acts[1..])
  }

  // ---------------------------------------------------------------- what every run keeps

  predicate TakesAway(e: Step, h: Hash) {
    (e.Remove? && e.token == h) || (e.LogOut? && h in e.hashes)
  }

  ghost predicate StandsSince(log: seq<Step>, i: nat, h: Hash, t: Token) {
    && i < |log| && log[i].Save? && log[i].issued == h && log[i].user == t.user && log[i].expiresAt == t.expiresAt
    && forall k | i < k < |log| :: !TakesAway(log[k], h)
  }

  ghost predicate Stands(log: seq<Step>, h: Hash, t: Token) {
    exists i :: StandsSince(log, i, h, t)
  }

  ghost predicate Standing(log: seq<Step>, h: Hash) {
    exists t :: Stands(log, h, t)
  }

  ghost predicate StandsFor(log: seq<Step>, h: Hash, u: User) {
    exists t :: Stands(log, h, t) && t.user == u
  }

  ghost predicate TableIsLog(s: State) {
    forall h, t :: (h in s.tokens && s.tokens[h] == t) <==> Stands(s.log, h, t)
  }

  ghost predicate SavedOnce(log: seq<Step>) {
    forall i, j | 0 <= i < j < |log| && log[i].Save? && log[j].Save? :: log[i].issued != log[j].issued
  }

  /**
   A find saw a token that stood and had not expired; what is taken away stood until then; a refresh
   that saves has found and removed; a logout takes what its user had when it read.
   */
  ghost predicate StepOk(log: seq<Step>, k: nat)
    requires k < |log|
  {
    match log[k]
    case Find(_, h, u, at) => exists t :: Stands(log[..k], h, t) && t.user == u && at <= t.expiresAt
    case Remove(_, h) => Standing(log[..k], h)
    case Save(r, u, _, Some(h), _) => exists f, d :: RotatedAt(log[..k], f, d, r, h, u)
    case Save(_, _, _, None, _) => true
    case LogOut(u, hs, b) => ReadAt(log[..k], b, u, hs) && forall h <- hs :: Standing(log[..k], h)
  }

  ghost predicate FoundAt(log: seq<Step>, f: nat, r: nat, h: Hash, u: User) {
    f < |log| && log[f].Find? && log[f].request == r && log[f].token == h && log[f].user == u
  }

  /** The request found the token at f and removed it at d. */
  ghost predicate RotatedAt(log: seq<Step>, f: nat, d: nat, r: nat, h: Hash, u: User) {
    FoundAt(log, f, r, h, u) && f < d < |log| && log[d] == Remove(r, h)
  }

  /** After the first b entries of the log, these were the user's tokens. */
  ghost predicate ReadAt(log: seq<Step>, b: nat, u: User, hs: set<Hash>) {
    b <= |log| && forall h :: h in hs <==> StandsFor(log[..b], h, u)
  }

  predicate SavesFor(e: Step, r: nat) {
    e.Save? && e.used.Some? && e.request == r
  }

  predicate Answered(log: seq<Step>, r: nat) {
    exists k | 0 <= k < |log| :: SavesFor(log[k], r)
  }

  ghost predicate AnsweredOnce(log: seq<Step>) {
    forall k, l | 0 <= k < l < |log| && log[k].Save? && SavesFor(log[l], log[k].request) :: log[k].used.None?
  }

  ghost predicate StageOk(log: seq<Step>, r: nat, stage: Stage) {
    match stage
    case Found(h, u) => !Answered(log, r) && exists f :: FoundAt(log, f, r, h, u)
    case Removed(h, u) => !Answered(log, r) && exists f, d :: RotatedAt(log, f, d, r, h, u)
    case Stale(_) => true
    case Leaving(u, hs, b) => ReadAt(log, b, u, hs)
  }

  ghost predicate LogOk(log: seq<Step>) {
    && SavedOnce(log) && AnsweredOnce(log)
    && forall k | 0 <= k < |log| :: StepOk(log, k)
  }

  ghost predicate Sound(s: State) {
    && TableIsLog(s) && LogOk(s.log)
    && (forall r <- s.requests :: StageOk(s.log, r, s.requests[r]))
  }

  lemma StandsStep(log: seq<Step>, e: Step, h: Hash, t: Token)
    ensures Stands(log + [e], h, t) <==>
      || (Stands(log, h, t) && !TakesAway(e, h))
      || (e.Save? && e.issued == h && e.user == t.user && e.expiresAt == t.expiresAt)
  {
    hide TakesAway;
    var n, longer := |log|, log + [e];
    assert forall i | 0 <= i < n :: longer[i] == log[i];
    if Stands(longer, h, t) {
      var i: nat :| StandsSince(longer, i, h, t);
      if i < n {
        assert longer[n] == e;
        assert StandsSince(log, i, h, t);
      }
    }
    if Stands(log, h, t) && !TakesAway(e, h) {
      var i :| StandsSince(log, i, h, t);
      assert StandsSince(longer, i, h, t);
    }
    if e.Save? && e.issued == h && e.user == t.user && e.expiresAt == t.expiresAt {
      assert StandsSince(longer, n, h, t);
    }
  }

  lemma StandingWasSaved(log: seq<Step>, h: Hash, t: Token)
    requires Stands(log, h, t)
    ensures Saved(log, h)
  {
  }

  lemma ReadStays(log: seq<Step>, e: Step, b: nat, u: User, hs: set<Hash>)
    requires ReadAt(log, b, u, hs)
    ensures ReadAt(log + [e], b, u, hs)
  {
    hide StandsFor;
    assert (log + [e])[..b] == log[..b];
  }

  lemma StageStays(log: seq<Step>, e: Step, r: nat, stage: Stage)
    requires StageOk(log, r, stage) && !SavesFor(e, r)
    ensures StageOk(log + [e], r, stage)
  {
    hide ReadAt, SavesFor;
    match stage
    case Found(h, u) =>
      var f: nat :| FoundAt(log, f, r, h, u);
      assert FoundAt(log + [e], f, r, h, u);
    case Removed(h, u) =>
      var f: nat, d: nat :| RotatedAt(log, f, d, r, h, u);
      assert RotatedAt(log + [e], f, d, r, h, u);
    case Stale(_) =>
    case Leaving(u, hs, b) => ReadStays(log, e, b, u, hs);
  }

  lemma RemovalRotates(log: seq<Step>, r: nat, h: Hash, u: User)
    requires StageOk(log, r, Found(h, u))
    ensures StageOk(log + [Remove(r, h)], r, Removed(h, u))
  {
    var f: nat :| FoundAt(log, f, r, h, u);
    assert RotatedAt(log + [Remove(r, h)], f, |log|, r, h, u);
  }

  lemma LogGrows(log: seq<Step>, e: Step)
    requires LogOk(log) && (e.Save? ==> !Saved(log, e.issued) && (e.used.Some? ==> !Answered(log, e.request)))
    requires StepOk(log + [e], |log|)
    ensures LogOk(log + [e])
  {
    hide Stands, FoundAt, RotatedAt, ReadAt, Standing;
    var longer := log + [e];
    forall k | 0 <= k < |longer|
      ensures StepOk(longer, k)
    {
      if k < |log| {
        assert StepOk(log, k);
        assert longer[..k] == log[..k] && longer[k] == log[k];
      }
    }
    assert AnsweredOnce(longer) by {
      hide StepOk;
      forall k | 0 <= k < |log| && log[k].Save? && SavesFor(e, log[k].request)
        ensures !SavesFor(log[k], e.request)
      {
      }
    }
  }

  /** A step that writes one entry to the log and changes the table accordingly. */
  lemma EntryKeeps(s: State, w: State, e: Step)
    requires Sound(s) && w.log == s.log + [e]
    requires e.Save? ==> !Saved(s.log, e.issued) && (e.used.Some? ==> !Answered(s.log, e.request))
    requires StepOk(w.log, |s.log|)
    requires forall h, t :: (h in w.tokens && w.tokens[h] == t) <==>
      || (h in s.tokens && s.tokens[h] == t && !TakesAway(e, h))
      || (e.Save? && e.issued == h && e.user == t.user && e.expiresAt == t.expiresAt)
    requires forall r <- w.requests ::
      (r in s.requests && w.requests[r] == s.requests[r] && !SavesFor(e, r)) || StageOk(w.log, r, w.requests[r])
    ensures Sound(w)
  {
    hide Stands, StepOk, StageOk, TakesAway, Saved, SavedOnce, AnsweredOnce, LogOk;
    LogGrows(s.log, e);
    forall h, t
      ensures (h in w.tokens && w.tokens[h] == t) <==> Stands(w.log, h, t)
    {
      StandsStep(s.log, e, h, t);
    }
    forall r <- w.requests
      ensures StageOk(w.log, r, w.requests[r])
    {
      if r in s.requests && w.requests[r] == s.requests[r] && !SavesFor(e, r) {
        StageStays(s.log, e, r, s.requests[r]);
      }
    }
  }

  lemma NeverInTable(s: State, h: Hash)
    requires TableIsLog(s)
    ensures Saved(s.log, h) || h !in s.tokens
  {
    if h in s.tokens {
      assert Stands(s.log, h, s.tokens[h]);
      StandingWasSaved(s.log, h, s.tokens[h]);
    }
  }

  lemma InTable(s: State, h: Hash)
    requires TableIsLog(s)
    ensures h in s.tokens <==> Standing(s.log, h)
  {
    hide Stands;
    if h in s.tokens {
      assert Stands(s.log, h, s.tokens[h]);
    }
  }

  lemma LoginKeeps(s: State, r: nat, u: User, h: Hash)
    requires Sound(s) && !Saved(s.log, h)
    ensures Sound(Act(s, SignIn(r, u, h)))
  {
    hide Stands, StageOk, FoundAt, RotatedAt, LogOk;
    NeverInTable(s, h);
    EntryKeeps(s, Act(s, SignIn(r, u, h)), Save(r, u, h, None, s.now + LIFETIME));
  }

  lemma BeginKeeps(s: State, r: nat, h: Hash)
    requires Sound(s)
    ensures Sound(Act(s, BeginRefresh(r, h)))
  {
    hide Stands, StepOk, FoundAt, RotatedAt, Started, Answered, LogOk, ReadAt;
    var w := Act(s, BeginRefresh(r, h));
    if w.log != s.log {
      var t := s.tokens[h];
      var e := Find(r, h, t.user, s.now);
      assert Stands(s.log, h, t);
      NotAnsweredYet(s.log, r);
      FindIsOk(s.log, e, t);
      EntryKeeps(s, w, e);
    }
  }

  lemma NotAnsweredYet(log: seq<Step>, r: nat)
    requires LogOk(log) && !Started(log, r)
    ensures !Answered(log, r)
  {
    hide SavedOnce, AnsweredOnce, StandsFor, Standing, Stands;
    if Answered(log, r) {
      var k :| 0 <= k < |log| && SavesFor(log[k], r);
      var f, d := RotatedBefore(log, k);
    }
  }

  lemma FindIsOk(log: seq<Step>, e: Step, t: Token)
    requires e.Find? && Stands(log, e.token, t) && t.user == e.user && e.at <= t.expiresAt && !Answered(log, e.request)
    ensures StepOk(log + [e], |log|) && StageOk(log + [e], e.request, Found(e.token, e.user))
  {
    hide Stands;
    assert (log + [e])[..|log|] == log;
    assert FoundAt(log + [e], |log|, e.request, e.token, e.user);
  }

  lemma DeleteKeeps(s: State, r: nat)
    requires Sound(s)
    ensures Sound(Act(s, Delete(r)))
  {
    hide Stands, Standing, FoundAt, RotatedAt, LogOk, Answered, ReadAt;
    var w := Act(s, Delete(r));
    if w.log != s.log {
      var stage := s.requests[r];
      assert StageOk(s.log, r, stage);
      if stage.Found? {
        RemovalRotates(s.log, r, stage.token, stage.user);
      }
      InTable(s, stage.token);
      assert w.log[..|s.log|] == s.log;
      EntryKeeps(s, w, Remove(r, stage.token));
    }
  }

  lemma FinishKeeps(s: State, r: nat, h: Hash)
    requires Sound(s)
    ensures Sound(Act(s, Finish(r, h)))
  {
    hide Stands, FoundAt, RotatedAt, LogOk, ReadAt, Answered;
    var w := Act(s, Finish(r, h));
    if w.log != s.log {
      var stage := s.requests[r];
      var e := Save(r, stage.user, h, Some(stage.token), s.now + LIFETIME);
      assert StageOk(s.log, r, stage);
      assert w.log[..|s.log|] == s.log;
      NeverInTable(s, h);
      EntryKeeps(s, w, e);
    }
  }

  lemma ReadIsOk(s: State, u: User)
    requires TableIsLog(s)
    ensures ReadAt(s.log, |s.log|, u, HashesOf(s.tokens, u))
  {
    hide Stands;
    assert s.log[..|s.log|] == s.log;
    forall h
      ensures h in HashesOf(s.tokens, u) <==> StandsFor(s.log, h, u)
    {
      if h in HashesOf(s.tokens, u) {
        assert Stands(s.log, h, s.tokens[h]);
      }
    }
  }

  lemma BeginOutKeeps(s: State, r: nat, u: User)
    requires Sound(s)
    ensures Sound(Act(s, BeginSignOut(r, u)))
  {
    hide Stands, FoundAt, RotatedAt, LogOk, ReadAt, Answered;
    ReadIsOk(s, u);
  }

  lemma CommitKeeps(s: State, r: nat)
    requires Sound(s)
    ensures Sound(Act(s, CommitSignOut(r)))
  {
    hide Stands, Standing, FoundAt, RotatedAt, LogOk, Answered, ReadAt;
    var w := Act(s, CommitSignOut(r));
    if w.log != s.log {
      var stage := s.requests[r];
      assert StageOk(s.log, r, stage);
      forall h <- stage.hashes
        ensures Standing(s.log, h)
      {
        InTable(s, h);
      }
      assert w.log[..|s.log|] == s.log;
      EntryKeeps(s, w, LogOut(stage.user, stage.hashes, stage.read));
    }
  }

  lemma ActKeeps(s: State, a: Action)
    requires Sound(s)
    ensures Sound(Act(s, a))
  {
    hide Sound, Act;
    match a
    case SignIn(r, u, h) => if Saved(s.log, h) { Nothing(s, a); } else { LoginKeeps(s, r, u, h); }
    case BeginRefresh(r, h) => BeginKeeps(s, r, h);
    case Delete(r) => DeleteKeeps(s, r);
    case Finish(r, h) => FinishKeeps(s, r, h);
    case BeginSignOut(r, u) => BeginOutKeeps(s, r, u);
    case CommitSignOut(r) => CommitKeeps(s, r);
    case Wait(_) => Nothing(s, a);
  }

  lemma Nothing(s: State, a: Action)
    requires Sound(s) && (a.Wait? || (a.SignIn? && Saved(s.log, a.issued)))
    ensures Sound(Act(s, a))
  {
  }

  lemma {:induction false} RunKeeps(s: State, acts: seq<Action>)
    requires Sound(s)
    ensures Sound(Run(s, acts))
    decreases |acts|
  {
    hide Act, Sound;
    if acts != [] {
      ActKeeps(s, acts[0]);
      RunKeeps(Act(s, acts[0]), acts[1..]);
    }
  }

  lemma RunIsSound(acts: seq<Action>)
    ensures Sound(Run(NOTHING, acts))
  {
    hide Run;
    RunKeeps(NOTHING, acts);
  }

  // ---------------------------------------------------------------- the life of one token

  lemma TakenStood(log: seq<Step>, d: nat, h: Hash)
    requires d < |log| && StepOk(log, d) && TakesAway(log[d], h)
    ensures Standing(log[..d], h)
  {
  }

  lemma SavedWhere(log: seq<Step>, d: nat, h: Hash, i: nat) returns (t: Token)
    requires d <= |log| && SavedOnce(log) && Standing(log[..d], h)
    requires i < |log| && log[i].Save? && log[i].issued == h
    ensures i < d && StandsSince(log[..d], i, h, t)
  {
    t :| Stands(log[..d], h, t);
    var j: nat :| StandsSince(log[..d], j, h, t);
    assert log[j].Save? && log[j].issued == h;
    assert i == j;
  }

  /** A token that was taken away never stands again. */
  lemma GoneForGood(log: seq<Step>, d: nat, k: nat, h: Hash)
    requires SavedOnce(log) && d < k <= |log| && StepOk(log, d) && TakesAway(log[d], h)
    ensures !Standing(log[..k], h)
  {
    hide StepOk, TakesAway;
    assert log[..k][d] == log[d];
    if Standing(log[..k], h) {
      TakenStood(log, d, h);
      var i := SaveOf(log, k, h);
      var t := SavedWhere(log, d, h, i);
      var v := SavedWhere(log, k, h, i);
    }
  }

  lemma SaveOf(log: seq<Step>, k: nat, h: Hash) returns (i: nat)
    requires k <= |log| && Standing(log[..k], h)
    ensures i < k && log[i].Save? && log[i].issued == h
  {
    var t :| Stands(log[..k], h, t);
    i :| StandsSince(log[..k], i, h, t);
  }

  /** Until it is taken away, a token stands at every moment after its save. */
  lemma StoodBetween(log: seq<Step>, i: nat, b: nat, k: nat, h: Hash)
    requires i < b <= k <= |log| && SavedOnce(log) && log[i].Save? && log[i].issued == h && Standing(log[..k], h)
    ensures StandsFor(log[..b], h, log[i].user)
  {
    hide TakesAway;
    var t := SavedWhere(log, k, h, i);
    forall m | i < m < b
      ensures !TakesAway(log[..b][m], h)
    {
      assert log[..b][m] == log[..k][m];
    }
    assert StandsSince(log[..b], i, h, Token(log[i].user, log[i].expiresAt));
    assert Stands(log[..b], h, Token(log[i].user, log[i].expiresAt));
  }

  /** Where the token of a find was saved: to the same user, and in time. */
  lemma SavedBefore(log: seq<Step>, f: nat) returns (i: nat)
    requires f < |log| && StepOk(log, f) && log[f].Find?
    ensures i < f && log[i].Save? && log[i].issued == log[f].token && log[i].user == log[f].user
    ensures log[f].at <= log[i].expiresAt && Standing(log[..f], log[f].token)
  {
    var t :| Stands(log[..f], log[f].token, t) && t.user == log[f].user && log[f].at <= t.expiresAt;
    i :| StandsSince(log[..f], i, log[f].token, t);
  }

  lemma RotatedBefore(log: seq<Step>, k: nat) returns (f: nat, d: nat)
    requires k < |log| && StepOk(log, k) && log[k].Save? && log[k].used.Some?
    ensures d < k && RotatedAt(log, f, d, log[k].request, log[k].used.value, log[k].user)
  {
    f, d :| RotatedAt(log[..k], f, d, log[k].request, log[k].used.value, log[k].user);
  }

  // ---------------------------------------------------------------- one use of a token

  /** On every interleaving a token leaves the table at most once, by one request's DELETE, and no refresh finds it afterwards. */
  lemma TakenAwayOnce(acts: seq<Action>, d: nat, k: nat, h: Hash)
    requires var log := Run(NOTHING, acts).log;
             && d < |log| && k < |log| && TakesAway(log[d], h)
             && (TakesAway(log[k], h) || (log[k].Find? && log[k].token == h))
    ensures k <= d
  {
    hide Run, TakesAway, LogOk, TableIsLog, StageOk;
    RunIsSound(acts);
    NothingAfter(Run(NOTHING, acts).log, d, k, h);
  }

  lemma NothingAfter(log: seq<Step>, d: nat, k: nat, h: Hash)
    requires LogOk(log) && d < |log| && k < |log| && TakesAway(log[d], h)
    requires TakesAway(log[k], h) || (log[k].Find? && log[k].token == h)
    ensures k <= d
  {
    hide StepOk, TakesAway, Standing, AnsweredOnce;
    if d < k {
      GoneForGood(log, d, k, h);
      if log[k].Find? && log[k].token == h {
        var i := SavedBefore(log, k);
      } else {
        TakenStood(log, k, h);
      }
    }
  }

  /** On every interleaving at most one refresh is given a new token for an old one, however many find it. */
  lemma AcceptedOnce(acts: seq<Action>, k: nat, l: nat)
    requires var log := Run(NOTHING, acts).log;
             && k < |log| && l < |log| && log[k].Save? && log[l].Save?
             && log[k].used.Some? && log[k].used == log[l].used
    ensures k == l
  {
    hide Run, LogOk, TableIsLog, StageOk;
    RunIsSound(acts);
    UsedOnce(Run(NOTHING, acts).log, k, l);
  }

  lemma UsedOnce(log: seq<Step>, k: nat, l: nat)
    requires LogOk(log) && k < |log| && l < |log| && log[k].Save? && log[l].Save?
    requires log[k].used.Some? && log[k].used == log[l].used
    ensures k == l
  {
    hide StepOk, FoundAt;
    var f, d := RotatedBefore(log, k);
    var g, e := RotatedBefore(log, l);
    NothingAfter(log, d, e, log[k].used.value);
    NothingAfter(log, e, d, log[k].used.value);
    assert SavesFor(log[k], log[l].request) && SavesFor(log[l], log[k].request);
  }

  /** A refresh that found its token goes on if and only if nobody has taken that token away since. */
  lemma DeletesIff(acts: seq<Action>, r: nat)
    requires var s := Run(NOTHING, acts); r in s.requests && s.requests[r].Found?
    ensures var s := Run(NOTHING, acts); var h, w := s.requests[r].token, Act(s, Delete(r));
      (r in w.requests && w.requests[r] == Removed(h, s.requests[r].user)) <==> (forall k | 0 <= k < |s.log| :: !TakesAway(s.log[k], h))
  {
    hide Run, Stands, Standing, StepOk, TakesAway, AnsweredOnce, RotatedAt, Answered, ReadAt;
    RunIsSound(acts);
    var s := Run(NOTHING, acts);
    var h, u := s.requests[r].token, s.requests[r].user;
    assert StageOk(s.log, r, s.requests[r]);
    var f: nat :| FoundAt(s.log, f, r, h, u);
    InTable(s, h);
    StillStands(s.log, f);
  }

  /** A token that was found stands exactly as long as nothing takes it away. */
  lemma StillStands(log: seq<Step>, f: nat)
    requires LogOk(log) && f < |log| && log[f].Find?
    ensures Standing(log, log[f].token) <==> forall k | 0 <= k < |log| :: !TakesAway(log[k], log[f].token)
  {
    hide StepOk, TakesAway, AnsweredOnce;
    var h := log[f].token;
    assert log[..|log|] == log;
    if k :| 0 <= k < |log| && TakesAway(log[k], h) {
      GoneForGood(log, k, |log|, h);
    } else {
      var i := SavedBefore(log, f);
      assert StandsSince(log, i, h, Token(log[i].user, log[i].expiresAt));
      assert Stands(log, h, Token(log[i].user, log[i].expiresAt));
    }
  }

  // ---------------------------------------------------------------- what a logout ends

  /** A token saved for a user before a logout reads them is not found after its commit, nor left in the table. */
  lemma LogoutEndsOldTokens(acts: seq<Action>, i: nat, out: nat)
    requires var log := Run(NOTHING, acts).log;
             && out < |log| && log[out].LogOut? && i < log[out].read <= |log|
             && log[i].Save? && log[i].user == log[out].user
    ensures var s := Run(NOTHING, acts); var log, h := s.log, s.log[i].issued;
      h !in s.tokens && forall f | out < f < |log| && log[f].Find? :: log[f].token != h
  {
    hide Run, Stands, Standing, StepOk, AnsweredOnce, StageOk, TakesAway, StandsFor;
    RunIsSound(acts);
    var s := Run(NOTHING, acts);
    var log, h := s.log, s.log[i].issued;
    InTable(s, h);
    assert log[..|log|] == log;
    NotAfter(log, i, out, |log|);
    forall f | out < f < |log| && log[f].Find?
      ensures log[f].token != h
    {
      if log[f].token == h {
        var j := SavedBefore(log, f);
        NotAfter(log, i, out, f);
      }
    }
  }

  lemma NotAfter(log: seq<Step>, i: nat, out: nat, k: nat)
    requires LogOk(log) && out < k <= |log| && log[out].LogOut? && i < log[out].read <= |log|
    requires log[i].Save? && log[i].user == log[out].user
    ensures !Standing(log[..k], log[i].issued)
  {
    hide Standing, StandsFor, AnsweredOnce, Stands;
    var h, b := log[i].issued, log[out].read;
    assert StepOk(log, out);
    if Standing(log[..k], h) {
      StoodBetween(log, i, b, k, h);
      assert log[..out][..b] == log[..b];
      assert TakesAway(log[out], h);
      GoneForGood(log, out, k, h);
    }
  }

  /** Where the token that a refresh used up was saved. */
  ghost predicate Parent(log: seq<Step>, k: nat, i: nat) {
    && i < k < |log| && log[k].Save? && log[k].used.Some? && log[i].Save? && log[i].issued == log[k].used.value
  }

  /** From refresh to refresh back to the first save of that session. */
  ghost function Root(log: seq<Step>, k: nat): nat
    decreases k
  {
    if i: nat :| Parent(log, k, i) then Root(log, i) else k
  }

  lemma ParentIs(log: seq<Step>, k: nat) returns (f: nat, d: nat, i: nat)
    requires LogOk(log) && k < |log| && log[k].Save? && log[k].used.Some?
    ensures d < k && RotatedAt(log, f, d, log[k].request, log[k].used.value, log[k].user)
    ensures i < f && Parent(log, k, i) && log[i].user == log[k].user && Root(log, k) == Root(log, i)
  {
    hide StepOk, AnsweredOnce, Standing;
    f, d := RotatedBefore(log, k);
    i := SavedBefore(log, f);
    assert Parent(log, k, i);
    forall j: nat | Parent(log, k, j)
      ensures i == j
    {
    }
  }

  /** Every token goes back, refresh by refresh, to a login of its user. */
  lemma {:induction false} RootIsLogin(log: seq<Step>, k: nat)
    requires LogOk(log) && k < |log| && log[k].Save?
    ensures var r := Root(log, k); r <= k && log[r].Save? && log[r].used.None? && log[r].user == log[k].user
    decreases k
  {
    hide LogOk, RotatedAt;
    if log[k].used.Some? {
      var f, d, i := ParentIs(log, k);
      RootIsLogin(log, i);
    }
  }

  // ---------------------------------------------------------------- one token for each login

  /** Save k goes back, refresh by refresh, to save p. */
  ghost predicate Descends(log: seq<Step>, k: nat, p: nat)
    decreases k
  {
    k == p || exists i: nat :: Parent(log, k, i) && Descends(log, i, p)
  }

  lemma {:induction false} ChildToward(log: seq<Step>, k: nat, p: nat) returns (c: nat)
    requires Descends(log, k, p) && k != p
    ensures c <= k && Parent(log, c, p) && Descends(log, k, c)
    decreases k
  {
    hide Parent;
    var i: nat :| Parent(log, k, i) && Descends(log, i, p);
    c := k;
    if i != p {
      ParentBefore(log, k, i);
      c := ChildToward(log, i, p);
    }
  }

  lemma ParentBefore(log: seq<Step>, k: nat, i: nat)
    requires Parent(log, k, i)
    ensures i < k
  {
  }

  /** Of two saves of one session the later one goes back to the earlier: sessions do not branch. */
  lemma {:induction false} OneLine(log: seq<Step>, k: nat, l: nat)
    requires LogOk(log) && k <= l < |log| && log[k].Save? && log[l].Save? && Root(log, k) == Root(log, l)
    ensures Descends(log, l, k)
    decreases l
  {
    hide LogOk, RotatedAt, Descends;
    if k < l {
      RootIsLogin(log, k);
      RootIsLogin(log, l);
      if log[l].used.Some? {
        var f, d, i := ParentIs(log, l);
        if k <= i {
          OneLine(log, k, i);
          DescendsOn(log, l, i, k);
        } else {
          OneLine(log, i, k);
          var c := ChildToward(log, k, i);
          UsedOnce(log, c, l);
        }
      }
    } else {
      DescendsSelf(log, k);
    }
  }

  lemma DescendsSelf(log: seq<Step>, k: nat)
    ensures Descends(log, k, k)
  {
  }

  lemma DescendsOn(log: seq<Step>, l: nat, i: nat, k: nat)
    requires Parent(log, l, i) && Descends(log, i, k)
    ensures Descends(log, l, k)
  {
  }

  /** On every run a login accounts for at most one token in the table, whatever refreshes of it overlapped. */
  lemma OneTokenPerLogin(acts: seq<Action>, i: nat, j: nat)
    requires var s := Run(NOTHING, acts);
             && i <= j < |s.log| && s.log[i].Save? && s.log[j].Save? && Root(s.log, i) == Root(s.log, j)
             && s.log[i].issued in s.tokens
    ensures i == j
  {
    hide Run, Stands, Standing, StageOk, Descends, LogOk;
    RunIsSound(acts);
    var s := Run(NOTHING, acts);
    OneLine(s.log, i, j);
    if i != j {
      var c := ChildToward(s.log, j, i);
      InTable(s, s.log[i].issued);
      UsedIsGone(s.log, i, c);
    }
  }

  lemma UsedIsGone(log: seq<Step>, i: nat, c: nat)
    requires LogOk(log) && Parent(log, c, i)
    ensures !Standing(log, log[i].issued)
  {
    hide Standing, AnsweredOnce, StepOk;
    var f, d := RotatedBefore(log, c);
    assert log[..|log|] == log;
    GoneForGood(log, d, |log|, log[i].issued);
  }

  // ---------------------------------------------------------------- what a logout does not end

  /** The save of a refresh that had found its token within the first b entries. */
  ghost predicate Straddles(log: seq<Step>, b: nat, k: nat)
    requires k < |log|
  {
    log[k].Save? && log[k].used.Some? && exists f: nat :: f < b && FoundAt(log, f, log[k].request, log[k].used.value, log[k].user)
  }

  predicate SavedFor(log: seq<Step>, b: nat, k: nat, u: User) {
    b <= k < |log| && log[k].Save? && log[k].user == u
  }

  /** All tokens the user is given from position b on go back to logins from b on. */
  ghost predicate RootedAfter(log: seq<Step>, b: nat, u: User) {
    forall k :: SavedFor(log, b, k, u) ==> Root(log, k) >= b
  }

  ghost predicate NoneStraddles(log: seq<Step>, b: nat, u: User) {
    forall k :: SavedFor(log, b, k, u) ==> !Straddles(log, b, k)
  }

  /** A token saved before a logout's read is not rotated after that read. */
  lemma NotRotated(log: seq<Step>, out: nat, i: nat, d: nat)
    requires LogOk(log) && out < |log| && log[out].LogOut? && log[out].read <= d < |log|
    requires i < |log| && log[i].Save? && log[i].user == log[out].user
    requires log[d].Remove? && log[d].token == log[i].issued
    ensures log[out].read <= i
  {
    hide Standing, StandsFor, AnsweredOnce, Stands;
    var h, b := log[i].issued, log[out].read;
    assert StepOk(log, out) && StepOk(log, d);
    assert b <= out && log[..out][..b] == log[..b];
    assert TakesAway(log[d], h);
    if i < b {
      StoodBetween(log, i, b, d, h);
      if d < out {
        GoneForGood(log, d, out, h);
      } else {
        GoneForGood(log, out, d, h);
      }
    }
  }

  lemma {:induction false} RootedLater(log: seq<Step>, out: nat, k: nat)
    requires LogOk(log) && out < |log| && log[out].LogOut? && SavedFor(log, log[out].read, k, log[out].user)
    requires NoneStraddles(log, log[out].read, log[out].user)
    ensures Root(log, k) >= log[out].read
    decreases k
  {
    hide LogOk;
    if log[k].used.Some? {
      var f, d, i := ParentIs(log, k);
      NotRotated(log, out, i, d);
      RootedLater(log, out, i);
    }
  }

  /**
   On every run, for every logout: all tokens its user is given after its read go back to logins after
   that read if and only if none of them is the work of a refresh that had found its token before it.
   */
  lemma LogoutHoldsIff(acts: seq<Action>, out: nat)
    requires out < |Run(NOTHING, acts).log| && Run(NOTHING, acts).log[out].LogOut?
    ensures var log := Run(NOTHING, acts).log; var b, u := log[out].read, log[out].user;
      RootedAfter(log, b, u) <==> NoneStraddles(log, b, u)
  {
    hide Run, LogOk, TableIsLog, StageOk, Straddles;
    RunIsSound(acts);
    var log := Run(NOTHING, acts).log;
    var b, u := log[out].read, log[out].user;
    if NoneStraddles(log, b, u) {
      forall k | SavedFor(log, b, k, u)
        ensures Root(log, k) >= b
      {
        RootedLater(log, out, k);
      }
    }
    forall k: nat | SavedFor(log, b, k, u) && Straddles(log, b, k)
      ensures Root(log, k) < b
    {
      StraddlerIsRootedEarlier(log, b, k);
    }
  }

  lemma StraddlerIsRootedEarlier(log: seq<Step>, b: nat, k: nat)
    requires LogOk(log) && k < |log| && Straddles(log, b, k)
    ensures Root(log, k) < b
  {
    hide LogOk;
    var f, d, i := ParentIs(log, k);
    var g: nat :| g < b && FoundAt(log, g, log[k].request, log[k].used.value, log[k].user);
    FoundAfterSave(log, i, g);
    RootIsLogin(log, i);
  }

  lemma FoundAfterSave(log: seq<Step>, i: nat, g: nat)
    requires LogOk(log) && i < |log| && g < |log| && log[g].Find? && log[i].Save? && log[i].issued == log[g].token
    ensures i < g
  {
    hide AnsweredOnce, StepOk;
    var j := SavedBefore(log, g);
  }

  /** A logout commits if and only if no token it read has been taken away since. */
  lemma CommitsIff(acts: seq<Action>, r: nat)
    requires var s := Run(NOTHING, acts); r in s.requests && s.requests[r].Leaving?
    ensures var s := Run(NOTHING, acts); var g := s.requests[r];
      (Act(s, CommitSignOut(r)).log == s.log + [LogOut(g.user, g.hashes, g.read)])
      <==> (forall h, k | h in g.hashes && g.read <= k < |s.log| :: !TakesAway(s.log[k], h))
  {
    hide Run, Stands, Standing, LogOk, TakesAway, TableIsLog, RotatedAt, Answered;
    RunIsSound(acts);
    var s := Run(NOTHING, acts);
    var g := s.requests[r];
    assert StageOk(s.log, r, g);
    assert ReadAt(s.log, g.read, g.user, g.hashes);
    forall h <- g.hashes
      ensures h in s.tokens <==> forall k | g.read <= k < |s.log| :: !TakesAway(s.log[k], h)
    {
      InTable(s, h);
      StandsOn(s.log, g.read, h, g.user);
    }
  }

  lemma StandsOn(log: seq<Step>, b: nat, h: Hash, u: User)
    requires LogOk(log) && b <= |log| && StandsFor(log[..b], h, u)
    ensures Standing(log, h) <==> forall k | b <= k < |log| :: !TakesAway(log[k], h)
  {
    hide StepOk, TakesAway, AnsweredOnce;
    assert log[..|log|] == log;
    if k: nat :| b <= k < |log| && TakesAway(log[k], h) {
      GoneForGood(log, k, |log|, h);
    } else {
      var t :| Stands(log[..b], h, t) && t.user == u;
      var i: nat :| StandsSince(log[..b], i, h, t);
      forall m | i < m < |log|
        ensures !TakesAway(log[m], h)
      {
        assert m < b ==> log[..b][m] == log[m];
      }
      assert StandsSince(log, i, h, t);
      assert Stands(log, h, t);
    }
  }

  // ---------------------------------------------------------------- what may survive a logout

  lemma RunThree(s: State, a: Action, b: Action, c: Action)
    ensures Run(s, [a, b, c]) == Act(Act(Act(s, a), b), c)
  {
    hide Act;
    assert [a, b, c][1..] == [b, c] && [b, c][1..] == [c] && [c][1..] == [];
    assert Run(Act(s, a), [b, c]) == Run(Act(Act(s, a), b), [c]) == Run(Act(Act(Act(s, a), b), c), []);
  }

  lemma {:induction false} RunSplits(s: State, a: seq<Action>, b: seq<Action>)
    ensures Run(s, a + b) == Run(Run(s, a), b)
    decreases |a|
  {
    hide Act;
    if a == [] {
      assert a + b == b;
    } else {
      assert (a + b)[1..] == a[1..] + b;
      RunSplits(Act(s, a[0]), a[1..], b);
    }
  }

  /** A refresh past its delete when the logout reads saves its new token after it: the session goes on. */
  lemma SurvivesLogout(u: User, h: Hash, a: Hash)
    requires h != a
    ensures var s := Run(NOTHING, [SignIn(0, u, h), BeginRefresh(1, h), Delete(1)] + [BeginSignOut(2, u), CommitSignOut(2), Finish(1, a)]);
      |s.log| == 5 && s.log[3] == LogOut(u, {}, 3) && a in s.tokens && s.tokens[a].user == u && Root(s.log, 4) == 0
  {
    hide Act, Run;
    var s := Halfway(u, h);
    var w := SignedOut(s, u, h, a);
    RunSplits(NOTHING, [SignIn(0, u, h), BeginRefresh(1, h), Delete(1)], [BeginSignOut(2, u), CommitSignOut(2), Finish(1, a)]);
    SessionOf(w.log);
  }

  lemma Halfway(u: User, h: Hash) returns (s: State)
    ensures s == Run(NOTHING, [SignIn(0, u, h), BeginRefresh(1, h), Delete(1)])
    ensures s == State(0, map[], map[1 := Removed(h, u)], [Save(0, u, h, None, LIFETIME), Find(1, h, u, 0), Remove(1, h)])
  {
    var e := Save(0, u, h, None, LIFETIME);
    var s1 := Act(NOTHING, SignIn(0, u, h));
    assert s1 == State(0, map[h := Token(u, LIFETIME)], map[], [e]);
    var s2 := Act(s1, BeginRefresh(1, h));
    assert s2 == State(0, map[h := Token(u, LIFETIME)], map[1 := Found(h, u)], [e, Find(1, h, u, 0)]);
    s := Act(s2, Delete(1));
    assert s.tokens == map[] && s.requests == map[1 := Removed(h, u)];
    RunThree(NOTHING, SignIn(0, u, h), BeginRefresh(1, h), Delete(1));
  }

  lemma SignedOut(s: State, u: User, h: Hash, a: Hash) returns (w: State)
    requires s == State(0, map[], map[1 := Removed(h, u)], [Save(0, u, h, None, LIFETIME), Find(1, h, u, 0), Remove(1, h)]) && h != a
    ensures w == Run(s, [BeginSignOut(2, u), CommitSignOut(2), Finish(1, a)])
    ensures w.log == s.log + [LogOut(u, {}, 3), Save(1, u, a, Some(h), LIFETIME)] && w.tokens == map[a := Token(u, LIFETIME)]
  {
    assert HashesOf(s.tokens, u) == {};
    var s1 := Act(s, BeginSignOut(2, u));
    assert s1 == State(0, map[], map[1 := Removed(h, u), 2 := Leaving(u, {}, 3)], s.log);
    var s2 := Act(s1, CommitSignOut(2));
    assert s2 == State(0, map[], map[1 := Removed(h, u)], s.log + [LogOut(u, {}, 3)]);
    assert !Saved(s2.log, a);
    w := Act(s2, Finish(1, a));
    RunThree(s, BeginSignOut(2, u), CommitSignOut(2), Finish(1, a));
  }

  lemma SessionOf(log: seq<Step>)
    requires |log| == 5 && Parent(log, 4, 0) && log[0].used.None?
    requires log[1].Find? && log[2].Remove? && log[3].LogOut?
    ensures Root(log, 4) == 0
  {
    assert forall i: nat :: Parent(log, 4, i) ==> i == 0;
    assert forall i: nat :: !Parent(log, 0, i);
  }

  /** With nothing in between, a refresh and a logout do to the table what the whole requests of module Tokens do. */
  lemma UndisturbedRefresh(s: State, r: nat, h: Hash, issued: Hash)
    requires r !in s.requests && !Started(s.log, r) && !Saved(s.log, issued)
    ensures var w := Run(s, [BeginRefresh(r, h), Delete(r), Finish(r, issued)]);
      && w.tokens == Apply(World(s.now, s.tokens, []), Refresh(h, issued)).tokens
      && w.requests == s.requests && w.now == s.now
  {
    var s1 := Act(s, BeginRefresh(r, h));
    var s2 := Act(s1, Delete(r));
    RunThree(s, BeginRefresh(r, h), Delete(r), Finish(r, issued));
    if h in s.tokens {
      assert s2.tokens == s.tokens - {h};
      StillUnsaved(s, s2, r, h, issued);
      if Expired(s.tokens[h], s.now) {
        assert s2.requests == s.requests;
      } else {
        assert s2.requests == s.requests[r := Removed(h, s.tokens[h].user)];
      }
    }
  }

  lemma StillUnsaved(s: State, w: State, r: nat, h: Hash, issued: Hash)
    requires h in s.tokens && !Saved(s.log, issued)
    requires w.log == s.log + [Remove(r, h)] || w.log == s.log + [Find(r, h, s.tokens[h].user, s.now)] + [Remove(r, h)]
    ensures !Saved(w.log, issued)
  {
  }

  lemma UndisturbedLogout(s: State, r: nat, u: User)
    requires r !in s.requests
    ensures var w := Run(s, [BeginSignOut(r, u), CommitSignOut(r), Wait(0)]);
      && w.tokens == Apply(World(s.now, s.tokens, []), Logout(u)).tokens
      && w.requests == s.requests && w.now == s.now
  {
    RunThree(s, BeginSignOut(r, u), CommitSignOut(r), Wait(0));
    assert s.tokens - HashesOf(s.tokens, u) == Without(s.tokens, u);
  }

  /** A login between a logout's read and its commit keeps its token. */
  lemma LoginSurvivesLogout(u: User, h: Hash)
    ensures var s := Run(NOTHING, [BeginSignOut(1, u), SignIn(0, u, h), CommitSignOut(1)]);
      s.log == [Save(0, u, h, None, LIFETIME), LogOut(u, {}, 0)] && h in s.tokens && s.tokens[h].user == u
  {
    var s1 := Act(NOTHING, BeginSignOut(1, u));
    assert HashesOf(NOTHING.tokens, u) == {};
    assert s1 == State(0, map[], map[1 := Leaving(u, {}, 0)], []);
    var s2 := Act(s1, SignIn(0, u, h));
    assert s2 == State(0, map[h := Token(u, LIFETIME)], map[1 := Leaving(u, {}, 0)], [Save(0, u, h, None, LIFETIME)]);
    RunThree(NOTHING, BeginSignOut(1, u), SignIn(0, u, h), CommitSignOut(1));
  }
}
