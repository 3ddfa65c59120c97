/**
 Refresh tokens: issued at login, replaced at every refresh, all removed at logout.  The table holds
 token hashes; a new token's hash is one never issued before.  Times are in milliseconds.
 */
module Tokens {
  import opened Prelude

  type User = string
  type Hash = string

  const LIFETIME: nat := 7 * 24 * 60 * 60 * 1000

  datatype Token = Token(user: User, expiresAt: nat)

  /** What a request did; a rejected one that changed nothing is not recorded. */
  datatype Entry =
    | LoggedIn(user: User, issued: Hash, at: nat)
    | Refreshed(user: User, used: Hash, issued: Hash, at: nat)
    | Lapsed(user: User, used: Hash, at: nat)
    | LoggedOut(user: User, at: nat)

  datatype World = World(now: nat, tokens: map<Hash, Token>, log: seq<Entry>)

  datatype Event =
    | Login(user: User, issued: Hash)
    | Refresh(token: Hash, issued: Hash)
    | Logout(user: User)
    | Tick(millis: nat)

  const START: World := World(0, map[], [])

  predicate Issues(e: Entry, h: Hash) {
    (e.LoggedIn? || e.Refreshed?) && e.issued == h
  }

  predicate Uses(e: Entry, h: Hash) {
    (e.Refreshed? || e.Lapsed?) && e.used == h
  }

  predicate EverIssued(log: seq<Entry>, h: Hash) {
    exists i | 0 <= i < |log| :: Issues(log[i], h)
  }

  predicate Expired(t: Token, now: nat) {
    t.expiresAt < now
  }

  function Without(tokens: map<Hash, Token>, user: User): map<Hash, Token> {
    map h | h in tokens && tokens[h].user != user :: tokens[h]
  }

  /** One request, run whole.  An unknown token changes nothing, an expired one is only deleted. */
  function Apply(w: World, e: Event): World {
    match e
    case Login(u, issued) =>
      if EverIssued(w.log, issued) then w
      else w.(tokens := w.tokens[issued := Token(u, w.now + LIFETIME)], log := w.log + [LoggedIn(u, issued, w.now)])
    case Refresh(h, issued) =>
      if EverIssued(w.log, issued) || h !in w.tokens then w
      else
        var u := w.tokens[h].user;
        if Expired(w.tokens[h], w.now) then w.(tokens := w.tokens - {h}, log := w.log + [Lapsed(u, h, w.now)])
        else w.(tokens := (w.tokens - {h})[issued := Token(u, w.now + LIFETIME)],
                log := w.log + [Refreshed(u, h, issued, w.now)])
    case Logout(u) => w.(tokens := Without(w.tokens, u), log := w.log + [LoggedOut(u, w.now)])
    case Tick(d) => w.(now := w.now + d)
  }

  function RunFrom(w: World, es: seq<Event>): World
    decreases |es|
  {
    if es == [] then w else RunFrom(Apply(w, es[0]), es[1..])
  }

  // ---------------------------------------------------------------- the table is the history

  /** Entry k takes the token away: it is used, or its user logs out. */
  predicate Ends(e: Entry, h: Hash, u: User) {
    Uses(e, h) || (e.LoggedOut? && e.user == u)
  }

  /** Entry i issued the token to this user at this time, and nothing since has taken it away. */
  ghost predicate LiveSince(log: seq<Entry>, i: nat, h: Hash, t: Token) {
    && i < |log| && Issues(log[i], h) && log[i].user == t.user && log[i].at + LIFETIME == t.expiresAt
    && forall k | i < k < |log| :: !Ends(log[k], h, t.user)
  }

  ghost predicate Live(log: seq<Entry>, h: Hash, t: Token) {
    exists i :: LiveSince(log, i, h, t)
  }

  ghost predicate TableIsHistory(w: World) {
    forall h, t :: (h in w.tokens && w.tokens[h] == t) <==> Live(w.log, h, t)
  }

  /** No hash is issued twice. */
  ghost predicate IssuedOnce(log: seq<Entry>) {
    forall i, j, h | 0 <= i < j < |log| && Issues(log[i], h) :: !Issues(log[j], h)
  }

  /** A token is used only while it was in the table, at most at its expiry if it was accepted. */
  ghost predicate UseOk(log: seq<Entry>, k: nat)
    requires k < |log|
  {
    log[k].Refreshed? || log[k].Lapsed? ==>
      exists t :: Live(log[..k], log[k].used, t) && t.user == log[k].user && (log[k].Refreshed? <==> log[k].at <= t.expiresAt)
  }

  ghost predicate Good(w: World) {
    && TableIsHistory(w) && IssuedOnce(w.log)
    && forall k | 0 <= k < |w.log| :: UseOk(w.log, k)
  }

  lemma LiveStep(log: seq<Entry>, e: Entry, h: Hash, t: Token)
    ensures Live(log + [e], h, t) <==>
      (Live(log, h, t) && !Ends(e, h, t.user)) || (Issues(e, h) && e.user == t.user && e.at + LIFETIME == t.expiresAt)
  {
    hide Ends, Issues, Live, LiveSince;
    var n, longer := |log|, log + [e];
    forall i: nat
      ensures i < n ==> (LiveSince(longer, i, h, t) <==> LiveSince(log, i, h, t) && !Ends(e, h, t.user))
      ensures LiveSince(longer, n, h, t) <==> Issues(e, h) && e.user == t.user && e.at + LIFETIME == t.expiresAt
      ensures LiveSince(longer, i, h, t) ==> i <= n
      ensures LiveSince(log, i, h, t) ==> i < n
    {
      LiveSinceStep(log, e, i, h, t);
    }
    LiveIs(log, h, t);
    LiveIs(longer, h, t);
    if LiveSince(longer, n, h, t) {
      assert Live(longer, h, t);
    }
  }

  lemma LiveIs(log: seq<Entry>, h: Hash, t: Token)
    ensures Live(log, h, t) <==> exists i: nat :: LiveSince(log, i, h, t)
  {
    hide LiveSince;
  }

  lemma LiveSinceStep(log: seq<Entry>, e: Entry, i: nat, h: Hash, t: Token)
    ensures i < |log| ==> (LiveSince(log + [e], i, h, t) <==> LiveSince(log, i, h, t) && !Ends(e, h, t.user))
    ensures LiveSince(log + [e], |log|, h, t) <==> Issues(e, h) && e.user == t.user && e.at + LIFETIME == t.expiresAt
    ensures LiveSince(log + [e], i, h, t) ==> i <= |log|
    ensures LiveSince(log, i, h, t) ==> i < |log|
  {
    hide Ends, Issues;
    var n, longer := |log|, log + [e];
    assert longer[n] == e && forall k | 0 <= k < n :: longer[k] == log[k];
    if i < n && LiveSince(longer, i, h, t) {
      assert !Ends(longer[n], h, t.user);
      forall k | i < k < n
        ensures !Ends(log[k], h, t.user)
      {
        assert !Ends(longer[k], h, t.user);
      }
    }
  }

  lemma LiveWasIssued(log: seq<Entry>, h: Hash, t: Token)
    requires Live(log, h, t)
    ensures EverIssued(log, h)
  {
  }

  lemma LogStays(log: seq<Entry>, e: Entry)
    requires IssuedOnce(log) && (e.LoggedIn? || e.Refreshed? ==> !EverIssued(log, e.issued))
    requires forall k | 0 <= k < |log| :: UseOk(log, k)
    requires e.Refreshed? || e.Lapsed? ==>
               exists t :: Live(log, e.used, t) && t.user == e.user && (e.Refreshed? <==> e.at <= t.expiresAt)
    ensures IssuedOnce(log + [e])
    ensures forall k | 0 <= k < |log + [e]| :: UseOk(log + [e], k)
  {
    hide Live;
    var longer := log + [e];
    forall k | 0 <= k < |longer|
      ensures UseOk(longer, k)
    {
      if k < |log| {
        assert UseOk(log, k);
        assert longer[..k] == log[..k] && longer[k] == log[k];
      } else {
        assert longer[..k] == log;
      }
    }
  }

  lemma LoginKeeps(w: World, u: User, issued: Hash)
    requires Good(w) && !EverIssued(w.log, issued)
    ensures Good(Apply(w, Login(u, issued)))
  {
    hide Live, IssuedOnce, UseOk;
    var w', e := Apply(w, Login(u, issued)), LoggedIn(u, issued, w.now);
    LogStays(w.log, e);
    forall h, t
      ensures (h in w'.tokens && w'.tokens[h] == t) <==> Live(w'.log, h, t)
    {
      LiveStep(w.log, e, h, t);
      if Live(w.log, h, t) {
        LiveWasIssued(w.log, h, t);
      }
    }
  }

  lemma RefreshKeeps(w: World, h: Hash, issued: Hash)
    requires Good(w) && !EverIssued(w.log, issued) && h in w.tokens
    ensures Good(Apply(w, Refresh(h, issued)))
  {
    hide Live, IssuedOnce, UseOk;
    var w', held := Apply(w, Refresh(h, issued)), w.tokens[h];
    var e := if Expired(held, w.now) then Lapsed(held.user, h, w.now) else Refreshed(held.user, h, issued, w.now);
    assert Live(w.log, h, held);
    LogStays(w.log, e);
    LiveWasIssued(w.log, h, held);
    forall g, t
      ensures (g in w'.tokens && w'.tokens[g] == t) <==> Live(w'.log, g, t)
    {
      LiveStep(w.log, e, g, t);
      if Live(w.log, g, t) {
        LiveWasIssued(w.log, g, t);
      }
    }
  }

  lemma LogoutKeeps(w: World, u: User)
    requires Good(w)
    ensures Good(Apply(w, Logout(u)))
  {
    hide Live, IssuedOnce, UseOk;
    var w', e := Apply(w, Logout(u)), LoggedOut(u, w.now);
    LogStays(w.log, e);
    forall h, t
      ensures (h in w'.tokens && w'.tokens[h] == t) <==> Live(w'.log, h, t)
    {
      LiveStep(w.log, e, h, t);
    }
  }

  lemma ApplyKeeps(w: World, e: Event)
    requires Good(w)
    ensures Good(Apply(w, e))
  {
    match e
    case Login(u, issued) => if !EverIssued(w.log, issued) { LoginKeeps(w, u, issued); }
    case Refresh(h, issued) => if !EverIssued(w.log, issued) && h in w.tokens { RefreshKeeps(w, h, issued); }
    case Logout(u) => LogoutKeeps(w, u);
    case Tick(d) =>
  }

  lemma StartIsGood()
    ensures Good(START)
  {
  }

  lemma {:induction false} RunKeeps(w: World, es: seq<Event>)
    requires Good(w)
    ensures Good(RunFrom(w, es))
    decreases |es|
  {
    hide Good, Apply;
    if es != [] {
      ApplyKeeps(w, es[0]);
      RunKeeps(Apply(w, es[0]), es[1..]);
    }
  }

  // ---------------------------------------------------------------- what it means for a token

  /**
   After any run, a refresh is accepted exactly when its token was issued before, to a user who has
   not logged out since, not longer than seven days ago, and has not been used since.
   */
  lemma AcceptedIff(es: seq<Event>, h: Hash, issued: Hash)
    requires !EverIssued(RunFrom(START, es).log, issued)
    ensures var w := RunFrom(START, es);
            var w' := Apply(w, Refresh(h, issued));
      && ((issued in w'.tokens) <==> exists i :: Usable(w.log, i, h, w.now))
      && (issued in w'.tokens ==> h in w.tokens && w'.log == w.log + [Refreshed(w.tokens[h].user, h, issued, w.now)])
  {
    hide RunFrom, IssuedOnce, UseOk, TableIsHistory, EverIssued, Live;
    AcceptedIfLive(es, h, issued);
    UsableIsLive(RunFrom(START, es), h);
  }

  /** Issued by entry i at most seven days ago; not used, and its user not logged out, since. */
  ghost predicate Usable(log: seq<Entry>, i: nat, h: Hash, now: nat) {
    && i < |log| && (log[i].LoggedIn? || log[i].Refreshed?) && log[i].issued == h
    && now - log[i].at <= 7 * 24 * 60 * 60 * 1000
    && (forall k | i < k < |log| :: !((log[k].Refreshed? || log[k].Lapsed?) && log[k].used == h))
    && (forall k | i < k < |log| :: !(log[k].LoggedOut? && log[k].user == log[i].user))
  }

  lemma UsableIsLive(w: World, h: Hash)
    ensures (exists t :: Live(w.log, h, t) && w.now <= t.expiresAt) <==> exists i :: Usable(w.log, i, h, w.now)
  {
    if t :| Live(w.log, h, t) && w.now <= t.expiresAt {
      var i: nat :| LiveSince(w.log, i, h, t);
      assert forall k | i < k < |w.log| :: !Ends(w.log[k], h, t.user);
      assert Usable(w.log, i, h, w.now);
    }
    if i: nat :| Usable(w.log, i, h, w.now) {
      assert LiveSince(w.log, i, h, Token(w.log[i].user, w.log[i].at + LIFETIME));
      assert Live(w.log, h, Token(w.log[i].user, w.log[i].at + LIFETIME));
    }
  }

  lemma AcceptedIfLive(es: seq<Event>, h: Hash, issued: Hash)
    requires !EverIssued(RunFrom(START, es).log, issued)
    ensures var w := RunFrom(START, es);
            var w' := Apply(w, Refresh(h, issued));
      && ((issued in w'.tokens) <==> exists t :: Live(w.log, h, t) && w.now <= t.expiresAt)
      && (issued in w'.tokens ==> h in w.tokens && w'.log == w.log + [Refreshed(w.tokens[h].user, h, issued, w.now)])
  {
    hide RunFrom, Live, IssuedOnce, UseOk;
    StartIsGood();
    RunKeeps(START, es);
    var w := RunFrom(START, es);
    if issued in w.tokens {
      assert Live(w.log, issued, w.tokens[issued]);
      LiveWasIssued(w.log, issued, w.tokens[issued]);
    }
    if h in w.tokens {
      assert Live(w.log, h, w.tokens[h]);
    }
  }

  lemma SameIssue(log: seq<Entry>, i: nat, j: nat, h: Hash)
    requires IssuedOnce(log) && i < |log| && j < |log| && Issues(log[i], h) && Issues(log[j], h)
    ensures i == j
  {
  }

  lemma UsedAfterIssue(log: seq<Entry>, k: nat) returns (i: nat)
    requires k < |log| && UseOk(log, k) && (log[k].Refreshed? || log[k].Lapsed?)
    ensures i < k && Issues(log[i], log[k].used) && log[i].user == log[k].user
    ensures forall m | i < m < k :: !Ends(log[m], log[k].used, log[k].user)
    ensures log[k].Refreshed? <==> log[k].at <= log[i].at + LIFETIME
  {
    var t :| Live(log[..k], log[k].used, t) && t.user == log[k].user && (log[k].Refreshed? <==> log[k].at <= t.expiresAt);
    i :| LiveSince(log[..k], i, log[k].used, t);
    forall m | i < m < k
      ensures !Ends(log[m], log[k].used, log[k].user)
    {
      assert log[m] == log[..k][m];
    }
  }

  /** On no run is a token used twice, whether both uses are accepted or not. */
  lemma UsedAtMostOnce(es: seq<Event>, j: nat, k: nat)
    requires var log := RunFrom(START, es).log;
             j < k < |log| && (log[j].Refreshed? || log[j].Lapsed?) && (log[k].Refreshed? || log[k].Lapsed?)
    ensures RunFrom(START, es).log[j].used != RunFrom(START, es).log[k].used
  {
    hide RunFrom, Live, TableIsHistory;
    StartIsGood();
    RunKeeps(START, es);
    var log := RunFrom(START, es).log;
    assert UseOk(log, j) && UseOk(log, k);
    var a := UsedAfterIssue(log, j);
    var b := UsedAfterIssue(log, k);
    if log[j].used == log[k].used {
      SameIssue(log, a, b, log[k].used);
    }
  }

  /** Whatever comes after a logout, no token issued to the user before it is ever accepted again. */
  lemma NoneAfterLogout(es: seq<Event>, i: nat, out: nat, k: nat)
    requires var log := RunFrom(START, es).log;
             && i < out < k < |log| && log[out].LoggedOut? && log[k].Refreshed?
             && (log[i].LoggedIn? || log[i].Refreshed?) && log[i].user == log[out].user
    ensures RunFrom(START, es).log[k].used != RunFrom(START, es).log[i].issued
  {
    hide RunFrom, Live, TableIsHistory;
    StartIsGood();
    RunKeeps(START, es);
    var log := RunFrom(START, es).log;
    assert UseOk(log, k);
    var b := UsedAfterIssue(log, k);
    if log[k].used == log[i].issued {
      SameIssue(log, i, b, log[k].used);
    }
  }

  // ---------------------------------------------------------------- how many

  /** The tokens a user holds. */
  function Held(tokens: map<Hash, Token>, u: User): set<Hash> {
    set h | h in tokens && tokens[h].user == u
  }

  /** Logins since the last logout, less tokens removed as expired. */
  function Balance(log: seq<Entry>, u: User): int {
    if log == [] then 0
    else
      var e, before := log[|log| - 1], Balance(log[..|log| - 1], u);
      if e.user != u then before
      else match e
        case LoggedIn(_, _, _) => before + 1
        case Refreshed(_, _, _, _) => before
        case Lapsed(_, _, _) => before - 1
        case LoggedOut(_, _) => 0
  }

  lemma BalanceStep(log: seq<Entry>, e: Entry, u: User)
    ensures Balance(log + [e], u) ==
      if e.user != u then Balance(log, u)
      else match e
        case LoggedIn(_, _, _) => Balance(log, u) + 1
        case Refreshed(_, _, _, _) => Balance(log, u)
        case Lapsed(_, _, _) => Balance(log, u) - 1
        case LoggedOut(_, _) => 0
  {
    assert (log + [e])[..|log + [e]| - 1] == log;
  }

  lemma HeldAdds(tokens: map<Hash, Token>, h: Hash, t: Token, u: User)
    requires h !in tokens
    ensures |Held(tokens[h := t], u)| == |Held(tokens, u)| + if t.user == u then 1 else 0
  {
    assert Held(tokens[h := t], u) == Held(tokens, u) + if t.user == u then {h} else {};
  }

  lemma HeldDrops(tokens: map<Hash, Token>, h: Hash, u: User)
    requires h in tokens
    ensures |Held(tokens - {h}, u)| == |Held(tokens, u)| - if tokens[h].user == u then 1 else 0
  {
    assert Held(tokens - {h}, u) == Held(tokens, u) - if tokens[h].user == u then {h} else {};
  }

  lemma HeldWithout(tokens: map<Hash, Token>, v: User, u: User)
    ensures Held(Without(tokens, v), u) == if u == v then {} else Held(tokens, u)
  {
  }

  lemma HeldStep(w: World, e: Event, u: User)
    requires TableIsHistory(w) && |Held(w.tokens, u)| == Balance(w.log, u)
    ensures |Held(Apply(w, e).tokens, u)| == Balance(Apply(w, e).log, u)
  {
    hide TableIsHistory, EverIssued, Balance, Held, Without;
    match e
    case Login(v, issued) =>
      if !EverIssued(w.log, issued) {
        NeverHeld(w, issued);
        HeldAdds(w.tokens, issued, Token(v, w.now + LIFETIME), u);
        BalanceStep(w.log, LoggedIn(v, issued, w.now), u);
      }
    case Refresh(h, issued) =>
      if !EverIssued(w.log, issued) && h in w.tokens {
        var v := w.tokens[h].user;
        NeverHeld(w, issued);
        HeldDrops(w.tokens, h, u);
        if Expired(w.tokens[h], w.now) {
          BalanceStep(w.log, Lapsed(v, h, w.now), u);
        } else {
          HeldAdds(w.tokens - {h}, issued, Token(v, w.now + LIFETIME), u);
          BalanceStep(w.log, Refreshed(v, h, issued, w.now), u);
        }
      }
    case Logout(v) =>
      HeldWithout(w.tokens, v, u);
      BalanceStep(w.log, LoggedOut(v, w.now), u);
    case Tick(d) =>
  }

  lemma NeverHeld(w: World, issued: Hash)
    requires TableIsHistory(w)
    ensures EverIssued(w.log, issued) || issued !in w.tokens
  {
    if issued in w.tokens {
      assert Live(w.log, issued, w.tokens[issued]);
      LiveWasIssued(w.log, issued, w.tokens[issued]);
    }
  }

  lemma GoodTable(w: World)
    requires Good(w)
    ensures TableIsHistory(w)
  {
  }

  lemma {:induction false} HeldFrom(w: World, es: seq<Event>, u: User)
    requires Good(w) && |Held(w.tokens, u)| == Balance(w.log, u)
    ensures |Held(RunFrom(w, es).tokens, u)| == Balance(RunFrom(w, es).log, u)
    decreases |es|
  {
    hide Good, Apply, Held, Balance;
    if es != [] {
      ApplyKeeps(w, es[0]);
      GoodTable(w);
      HeldStep(w, es[0], u);
      HeldFrom(Apply(w, es[0]), es[1..], u);
    }
  }

  /** On every run a user holds as many tokens as logins since the last logout, less those removed as expired. */
  lemma HeldIsBalance(es: seq<Event>, u: User)
    ensures |Held(RunFrom(START, es).tokens, u)| == Balance(RunFrom(START, es).log, u)
  {
    hide RunFrom, Good;
    StartIsGood();
    assert Held(START.tokens, u) == {};
    HeldFrom(START, es, u);
  }
}

/** AuthService's refresh-token operations, with the history kept beside the table. */
module Auth {
  import opened Prelude
  import opened Tokens

  datatype Account = Account(id: User, password: string)

  class AuthService {
    var now: nat
    var tokens: map<Hash, Token>
    ghost var log: seq<Entry>

    constructor ()
      ensures State() == START
    {
      now, tokens, log := 0, map[], [];
    }

    ghost function State(): World
      reads this
    {
      World(now, tokens, log)
    }

    /** Unknown email and wrong password are refused alike. */
    method Login(accounts: map<string, Account>, email: string, password: string, issued: Hash) returns (ok: bool)
      requires Good(State()) && !EverIssued(log, issued)
      modifies this`tokens, this`log
      ensures ok <==> email in accounts && accounts[email].password == password
      ensures tokens == if ok then old(tokens)[issued := Token(accounts[email].id, now + 7 * 24 * 60 * 60 * 1000)] else old(tokens)
      ensures Good(State()) && State() == if ok then Apply(old(State()), Event.Login(accounts[email].id, issued)) else old(State())
    {
      if email !in accounts || accounts[email].password != password {
        return false;
      }
      var user := accounts[email].id;
      ApplyKeeps(State(), Event.Login(user, issued));
      tokens := tokens[issued := Token(user, now + LIFETIME)];
      log := log + [LoggedIn(user, issued, now)];
      return true;
    }

    /** The old token is deleted whether or not it has expired; a new one is stored only if it has not. */
    method Refresh(token: Hash, issued: Hash) returns (ok: bool)
      requires Good(State()) && !EverIssued(log, issued)
      modifies this`tokens, this`log
      ensures Good(State()) && State() == Apply(old(State()), Event.Refresh(token, issued))
      ensures ok <==> token in old(tokens) && now <= old(tokens)[token].expiresAt
      ensures tokens == if ok then (old(tokens) - {token})[issued := Token(old(tokens)[token].user, now + 7 * 24 * 60 * 60 * 1000)]
                        else old(tokens) - {token}
      ensures token !in tokens || token == issued
    {
      ApplyKeeps(State(), Event.Refresh(token, issued));
      if token !in tokens {
        return false;
      }
      var held := tokens[token];
      if Expired(held, now) {
        tokens := tokens - {token};
        log := log + [Lapsed(held.user, token, now)];
        return false;
      }
      tokens := tokens - {token};
      tokens := tokens[issued := Token(held.user, now + LIFETIME)];
      log := log + [Refreshed(held.user, token, issued, now)];
      return true;
    }

    /** Without a valid access token nothing happens; with one, all the user's refresh tokens go. */
    method Logout(user: Option<User>) returns (ok: bool)
      requires Good(State())
      modifies this`tokens, this`log
      ensures ok == user.Some?
      ensures Good(State()) && State() == if ok then Apply(old(State()), Event.Logout(user.value)) else old(State())
      ensures !ok ==> tokens == old(tokens)
      ensures ok ==> forall h :: h in tokens <==> h in old(tokens) && old(tokens)[h].user != user.value
      ensures forall h <- tokens :: h in old(tokens) && tokens[h] == old(tokens)[h]
    {
      if user.None? {
        return false;
      }
      ApplyKeeps(State(), Event.Logout(user.value));
      tokens := Without(tokens, user.value);
      log := log + [LoggedOut(user.value, now)];
      return true;
    }
  }
}
