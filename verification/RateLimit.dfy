/**
 The gateway's fixed-window limiter: a Redis counter per user, incremented by every request and
 given its expiry by whichever request created it.  INCR and EXPIRE are separate commands; other
 requests come between them, and the EXPIRE may be late or lost.  Times are in milliseconds.
 */
module RateLimit {
  import opened Prelude

  const LIMIT: nat := 100
  const WINDOW: nat := 60_000

  /** dueAt is the moment Redis drops the key; None while the key has no expiry. */
  datatype Counter = Counter(count: nat, dueAt: Option<nat>)

  /** A request as the limiter saw it: when its INCR ran, and the reply. */
  datatype Served = Served(at: nat, count: nat)

  /** One user's key, the requests that still owe it an EXPIRE, and every INCR so far. */
  datatype Window = Window(key: Option<Counter>, waiting: set<nat>, log: seq<Served>)

  datatype World = World(now: nat, windows: map<string, Window>)

  datatype Event =
    | Incr(user: string, request: nat)
    | Expire(user: string, request: nat, reaches: bool)
    | Tick(millis: nat)

  const START: World := World(0, map[])

  predicate Passed(s: Served) {
    s.count <= LIMIT
  }

  function WindowOf(w: World, user: string): Window {
    if user in w.windows then w.windows[user] else Window(None, {}, [])
  }

  /** The key is there: created, and not past its expiry. */
  predicate Alive(v: Window, now: nat) {
    v.key.Some? && (v.key.value.dueAt.None? || now < v.key.value.dueAt.value)
  }

  /** INCR, whose reply is the new count; the request that reads 1 goes on to send the EXPIRE. */
  function Increment(v: Window, now: nat, request: nat): Window {
    if Alive(v, now) then
      var n := v.key.value.count + 1;
      Window(Some(Counter(n, v.key.value.dueAt)), v.waiting, v.log + [Served(now, n)])
    else
      Window(Some(Counter(1, None)), v.waiting + {request}, v.log + [Served(now, 1)])
  }

  /** EXPIRE, which a missing key ignores. */
  function SetExpiry(v: Window, now: nat, request: nat, reaches: bool): Window {
    if request !in v.waiting then v
    else if reaches && Alive(v, now) then
      Window(Some(Counter(v.key.value.count, Some(now + WINDOW))), v.waiting - {request}, v.log)
    else v.(waiting := v.waiting - {request})
  }

  function Apply(w: World, e: Event): World {
    match e
    case Incr(u, r) => w.(windows := w.windows[u := Increment(WindowOf(w, u), w.now, r)])
    case Expire(u, r, reaches) => w.(windows := w.windows[u := SetExpiry(WindowOf(w, u), w.now, r, reaches)])
    case Tick(d) => w.(now := w.now + d)
  }

  function RunFrom(w: World, es: seq<Event>): World
    decreases |es|
  {
    if es == [] then w else RunFrom(Apply(w, es[0]), es[1..])
  }

  function Passes(log: seq<Served>): (n: nat)
    ensures n <= |log|
  {
    if log == [] then 0 else Passes(log[..|log| - 1]) + if Passed(log[|log| - 1]) then 1 else 0
  }

  // ---------------------------------------------------------------- what every run keeps

  /** Replies count up from 1, starting again when a new key is created. */
  ghost predicate Counted(log: seq<Served>) {
    && (log != [] ==> log[0].count == 1)
    && forall k | 0 < k < |log| :: log[k].count == 1 || log[k].count == log[k - 1].count + 1
  }

  ghost predicate Ordered(log: seq<Served>) {
    forall i, j | 0 <= i < j < |log| :: log[i].at <= log[j].at
  }

  /** Keys are created at least a window apart. */
  ghost predicate Spaced(log: seq<Served>) {
    forall i, j | 0 <= i < j < |log| && log[i].count == 1 && log[j].count == 1 :: log[i].at + WINDOW <= log[j].at
  }

  ghost predicate Good(v: Window, now: nat) {
    && Counted(v.log) && Ordered(v.log) && Spaced(v.log)
    && (forall i | 0 <= i < |v.log| :: v.log[i].at <= now)
    && (v.key.None? <==> v.log == [])
    && (v.key.Some? ==> v.key.value.count == v.log[|v.log| - 1].count)
    && (v.key.Some? && v.key.value.dueAt.Some? ==>
          forall i | 0 <= i < |v.log| && v.log[i].count == 1 :: v.log[i].at + WINDOW <= v.key.value.dueAt.value)
    && (v.key.Some? && v.key.value.dueAt.Some? ==> v.key.value.dueAt.value <= now + WINDOW)
  }

  lemma LogExtends(log: seq<Served>, s: Served)
    requires Counted(log) && Ordered(log) && Spaced(log)
    requires forall i | 0 <= i < |log| :: log[i].at <= s.at
    requires s.count == 1 || (log != [] && s.count == log[|log| - 1].count + 1)
    requires s.count == 1 ==> forall i | 0 <= i < |log| && log[i].count == 1 :: log[i].at + WINDOW <= s.at
    ensures Counted(log + [s]) && Ordered(log + [s]) && Spaced(log + [s])
  {
  }

  lemma IncrementKeeps(v: Window, now: nat, request: nat)
    requires Good(v, now)
    ensures Good(Increment(v, now, request), now)
  {
    hide Counted, Ordered, Spaced;
    var w := Increment(v, now, request);
    if Alive(v, now) {
      CountsArePositive(v.log, |v.log| - 1);
    }
    LogExtends(v.log, w.log[|v.log|]);
    assert w.log == v.log + [w.log[|v.log|]];
  }

  lemma {:induction false} CountsArePositive(log: seq<Served>, k: nat)
    requires Counted(log) && k < |log|
    ensures 1 <= log[k].count <= k + 1
  {
    if k > 0 {
      CountsArePositive(log, k - 1);
    }
  }

  lemma SetExpiryKeeps(v: Window, now: nat, request: nat, reaches: bool)
    requires Good(v, now)
    ensures Good(SetExpiry(v, now, request, reaches), now)
  {
  }

  ghost predicate AllGood(w: World) {
    forall u <- w.windows :: Good(w.windows[u], w.now)
  }

  lemma GoodStart(now: nat)
    ensures Good(Window(None, {}, []), now)
  {
  }

  lemma LaterIsGood(v: Window, now: nat, d: nat)
    requires Good(v, now)
    ensures Good(v, now + d)
  {
  }

  lemma ApplyKeeps(w: World, e: Event)
    requires AllGood(w)
    ensures AllGood(Apply(w, e))
  {
    hide Increment, SetExpiry, Good;
    GoodStart(w.now);
    match e
    case Incr(u, r) =>
      IncrementKeeps(WindowOf(w, u), w.now, r);
    case Expire(u, r, reaches) =>
      SetExpiryKeeps(WindowOf(w, u), w.now, r, reaches);
    case Tick(d) =>
      forall u <- w.windows
        ensures Good(w.windows[u], w.now + d)
      {
        LaterIsGood(w.windows[u], w.now, d);
      }
  }

  lemma {:induction false} RunKeeps(w: World, es: seq<Event>)
    requires AllGood(w)
    ensures AllGood(RunFrom(w, es))
    decreases |es|
  {
    hide Apply, AllGood;
    if es != [] {
      ApplyKeeps(w, es[0]);
      RunKeeps(Apply(w, es[0]), es[1..]);
    }
  }

  // ---------------------------------------------------------------- how many pass

  /** No key is created strictly inside the stretch, so the replies in it are consecutive. */
  ghost predicate OneKey(log: seq<Served>, i: nat, j: nat)
    requires i <= j <= |log|
  {
    forall k | i < k < j :: log[k].count != 1
  }

  lemma {:induction false} OneKeyPasses(log: seq<Served>, i: nat, j: nat)
    requires Counted(log) && i < j <= |log| && OneKey(log, i, j)
    ensures log[j - 1].count == log[i].count + (j - 1 - i)
    ensures var room := LIMIT + 1 - log[i].count;
            Passes(log[i..j]) == if room < 0 then 0 else if room < j - i then room else j - i
    decreases j - i
  {
    var s := log[i..j];
    assert s[..|s| - 1] == log[i..j - 1];
    assert s[|s| - 1] == log[j - 1];
    if i + 1 < j {
      OneKeyPasses(log, i, j - 1);
    } else {
      assert log[i..j - 1] == [];
    }
  }

  lemma {:induction false} PassesAdd(a: seq<Served>, b: seq<Served>)
    ensures Passes(a + b) == Passes(a) + Passes(b)
    decreases |b|
  {
    if b == [] {
      assert a + b == a;
    } else {
      assert (a + b)[..|a + b| - 1] == a + b[..|b| - 1];
      PassesAdd(a, b[..|b| - 1]);
    }
  }

  /**
   The life of one key, from the request that creates it to the last before the next creation:
   exactly the first hundred requests pass.
   */
  lemma LifetimePasses(es: seq<Event>, user: string, i: nat, j: nat)
    requires var log := WindowOf(RunFrom(START, es), user).log;
             i < j <= |log| && log[i].count == 1 && OneKey(log, i, j)
    ensures var log := WindowOf(RunFrom(START, es), user).log;
            && Passes(log[i..j]) == (if j - i < 100 then j - i else 100)
            && forall k | i <= k < j :: Passed(log[k]) <==> k - i < 100
  {
    RunKeeps(START, es);
    var log := WindowOf(RunFrom(START, es), user).log;
    OneKeyPasses(log, i, j);
    forall k | i <= k < j
      ensures Passed(log[k]) <==> k - i < LIMIT
    {
      OneKeyPasses(log, i, k + 1);
    }
  }

  lemma {:induction false} FirstCreation(log: seq<Served>, i: nat, j: nat) returns (b: nat)
    requires i <= j <= |log|
    ensures i <= b <= j
    ensures forall k | i <= k < b :: log[k].count != 1
    ensures b < j ==> log[b].count == 1
    decreases j - i
  {
    b := i;
    if i < j && log[i].count != 1 {
      b := FirstCreation(log, i + 1, j);
    }
  }

  /** From a creation on, a stretch shorter than the window sees that one key only. */
  lemma PassesAfterCreation(log: seq<Served>, b: nat, j: nat)
    requires Counted(log) && Spaced(log) && Ordered(log)
    requires b < j <= |log| && log[b].count == 1 && log[j - 1].at < log[b].at + WINDOW
    ensures Passes(log[b..j]) <= LIMIT
  {
    forall k | b < k < j
      ensures log[k].count != 1
    {
      assert log[k].at <= log[j - 1].at;
    }
    OneKeyPasses(log, b, j);
  }

  /** Before the next creation, a key already in use has at most 99 places left. */
  lemma PassesBeforeCreation(log: seq<Served>, i: nat, b: nat)
    requires Counted(log) && i < b <= |log| && log[i].count != 1 && OneKey(log, i, b)
    ensures Passes(log[i..b]) <= LIMIT - 1
  {
    CountsArePositive(log, i);
    OneKeyPasses(log, i, b);
  }

  /** A stretch shorter than the window meets at most one creation, and what came before has used one place. */
  lemma StretchBound(log: seq<Served>, i: nat, j: nat)
    requires Counted(log) && Spaced(log) && Ordered(log) && i < j <= |log|
    requires log[j - 1].at < log[i].at + WINDOW
    ensures Passes(log[i..j]) <= 2 * LIMIT - 1
  {
    hide Counted, Spaced, Passes;
    var b := FirstCreation(log, i, j);
    if b == j {
      PassesBeforeCreation(log, i, j);
    } else if b == i {
      PassesAfterCreation(log, i, j);
    } else {
      assert log[i].at <= log[b].at;
      PassesBeforeCreation(log, i, b);
      PassesAfterCreation(log, b, j);
      PassesAdd(log[i..b], log[b..j]);
      assert log[i..j] == log[i..b] + log[b..j];
    }
  }

  /**
   Whatever the interleaving, and even when an EXPIRE is late or lost: the requests of one user whose
   INCR falls in a half-open minute [t, t + 60 s) include at most 199 that pass.
   */
  lemma AtMost199(es: seq<Event>, user: string, t: nat, i: nat, j: nat)
    requires i <= j <= |WindowOf(RunFrom(START, es), user).log|
    requires var log := WindowOf(RunFrom(START, es), user).log;
             forall k | i <= k < j :: t <= log[k].at < t + 60_000
    ensures Passes(WindowOf(RunFrom(START, es), user).log[i..j]) <= 199
  {
    RunKeeps(START, es);
    var log := WindowOf(RunFrom(START, es), user).log;
    if i < j {
      StretchBound(log, i, j);
    }
  }

  // ---------------------------------------------------------------- the bound is reached

  function Burst(user: string, n: nat): seq<Event>
    ensures |Burst(user, n)| == n
  {
    if n == 0 then [] else [Incr(user, n)] + Burst(user, n - 1)
  }

  lemma {:induction false} RunConcat(w: World, a: seq<Event>, b: seq<Event>)
    ensures RunFrom(w, a + b) == RunFrom(RunFrom(w, a), b)
    decreases |a|
  {
    if a == [] {
      assert a + b == b;
    } else {
      assert (a + b)[1..] == a[1..] + b;
      RunConcat(Apply(w, a[0]), a[1..], b);
    }
  }

  /** A burst on a living key: time stands still, and the replies go up by one. */
  lemma {:induction false} BurstRuns(w: World, user: string, n: nat)
    requires Alive(WindowOf(w, user), w.now)
    ensures var v, after := WindowOf(w, user), RunFrom(w, Burst(user, n));
            var v' := WindowOf(after, user);
      && after.now == w.now
      && v'.key == Some(Counter(v.key.value.count + n, v.key.value.dueAt))
      && |v'.log| == |v.log| + n && v'.log[..|v.log|] == v.log
      && forall k | |v.log| <= k < |v'.log| :: v'.log[k] == Served(w.now, v.key.value.count + (k - |v.log|) + 1)
    decreases n
  {
    if n > 0 {
      var e := Incr(user, n);
      var next := Apply(w, e);
      assert Burst(user, n)[0] == e && Burst(user, n)[1..] == Burst(user, n - 1);
      BurstRuns(next, user, n - 1);
      var v, v1, v' := WindowOf(w, user), WindowOf(next, user), WindowOf(RunFrom(w, Burst(user, n)), user);
      assert v1.log == v.log + [Served(w.now, v.key.value.count + 1)];
      assert v'.log[..|v.log|] == v'.log[..|v1.log|][..|v.log|];
      assert v'.log[|v.log|] == v'.log[..|v1.log|][|v.log|];
    }
  }

  function Opening(user: string): seq<Event> {
    [Incr(user, 0), Expire(user, 0, true), Tick(WINDOW - 1)]
  }

  function Crowd(user: string): seq<Event> {
    (Opening(user) + Burst(user, 99)) + ([Tick(1), Incr(user, 0)] + Burst(user, 99))
  }

  lemma OpeningRuns(user: string)
    ensures RunFrom(START, Opening(user)) ==
      World(WINDOW - 1, map[user := Window(Some(Counter(1, Some(WINDOW))), {}, [Served(0, 1)])])
  {
    var w1 := Apply(START, Incr(user, 0));
    assert Increment(Window(None, {}, []), 0, 0) == Window(Some(Counter(1, None)), {0}, [Served(0, 1)]);
    assert w1.windows == map[user := Window(Some(Counter(1, None)), {0}, [Served(0, 1)])];
    var w2 := Apply(w1, Expire(user, 0, true));
    assert w2.windows == map[user := Window(Some(Counter(1, Some(WINDOW))), {}, [Served(0, 1)])];
    RunThree(START, Opening(user));
  }

  /** The log of the crowd, with the time and the reply of each request. */
  lemma CrowdLog(user: string)
    ensures var log := WindowOf(RunFrom(START, Crowd(user)), user).log;
      && |log| == 200 && log[0] == Served(0, 1)
      && (forall k | 1 <= k < 100 :: log[k] == Served(WINDOW - 1, k + 1))
      && (forall k | 100 <= k < 200 :: log[k] == Served(WINDOW, k - 99))
  {
    var w0 := RunFrom(START, Opening(user));
    OpeningRuns(user);
    BurstRuns(w0, user, 99);
    var w1 := RunFrom(w0, Burst(user, 99));
    var w2 := Apply(Apply(w1, Tick(1)), Incr(user, 0));
    assert WindowOf(w2, user).log == WindowOf(w1, user).log + [Served(WINDOW, 1)];
    BurstRuns(w2, user, 99);
    hide Apply, Burst, Opening;
    RunTwo(w1, Tick(1), Incr(user, 0));
    RunConcat(START, Opening(user), Burst(user, 99));
    RunConcat(w1, [Tick(1), Incr(user, 0)], Burst(user, 99));
    RunConcat(START, Opening(user) + Burst(user, 99), [Tick(1), Incr(user, 0)] + Burst(user, 99));
    var l1, l2 := WindowOf(w1, user).log, WindowOf(w2, user).log;
    var log := WindowOf(RunFrom(START, Crowd(user)), user).log;
    assert log[..101] == l2 && l2[..100] == l1;
    assert forall k | 0 <= k < 100 :: log[k] == log[..101][k] == l1[k];
    assert log[100] == log[..101][100];
  }

  /** One request opens the key; 99 arrive just before it goes, and 100 just after: 199 in two milliseconds. */
  lemma BoundReached(user: string)
    ensures var log := WindowOf(RunFrom(START, Crowd(user)), user).log;
      && |log| == 200
      && (forall k | 1 <= k < 200 :: 59_999 <= log[k].at <= 60_000)
      && Passes(log[1..200]) == 199
  {
    hide Crowd, Apply;
    var log := WindowOf(RunFrom(START, Crowd(user)), user).log;
    CrowdLog(user);
    OneKeyPasses(log, 1, 100);
    OneKeyPasses(log, 100, 200);
    PassesAdd(log[1..100], log[100..200]);
    assert log[1..200] == log[1..100] + log[100..200];
  }

  lemma RunTwo(w: World, a: Event, b: Event)
    ensures RunFrom(w, [a, b]) == Apply(Apply(w, a), b)
  {
    hide Apply;
    assert [a, b][1..] == [b];
    assert RunFrom(Apply(w, a), [b]) == RunFrom(Apply(Apply(w, a), b), [b][1..]);
  }

  lemma RunThree(w: World, es: seq<Event>)
    requires |es| == 3
    ensures RunFrom(w, es) == Apply(Apply(Apply(w, es[0]), es[1]), es[2])
  {
    hide Apply;
    assert es[1..] == [es[1], es[2]];
    RunTwo(Apply(w, es[0]), es[1], es[2]);
  }

  // ---------------------------------------------------------------- the middleware

  /** Redis TTL in whole seconds: -2 without the key, -1 without an expiry. */
  function SecondsLeft(v: Window, now: nat): int {
    if !Alive(v, now) then -2
    else if v.key.value.dueAt.None? then -1
    else (v.key.value.dueAt.value - now + 500) / 1000
  }

  class RateLimiter {
    const enabled: bool
    var now: nat
    var windows: map<string, Window>

    constructor (enabled: bool)
      ensures this.enabled == enabled && State() == START
    {
      this.enabled := enabled;
      now, windows := 0, map[];
    }

    ghost function State(): World
      reads this
    {
      World(now, windows)
    }

    /**
     One undisturbed request.  Without claims, with Redis unavailable or with the limiter off it
     passes uncounted; otherwise it is counted, and refused beyond the hundredth with a Retry-After
     of one second to one minute.
     */
    method Limit(user: Option<string>, request: nat, redisUp: bool, reaches: bool)
      returns (pass: bool, retryAfter: nat)
      requires AllGood(State())
      modifies this
      ensures AllGood(State()) && now == old(now)
      ensures !enabled || user.None? || !redisUp ==> pass && windows == old(windows)
      ensures enabled && user.Some? && redisUp ==>
        && State() == RunFrom(old(State()), [Incr(user.value, request)] + Follow(old(State()), user.value, request, reaches))
        && Counts(WindowOf(old(State()), user.value), WindowOf(State(), user.value), now, reaches)
        && (pass <==> WindowOf(State(), user.value).key.value.count <= 100)
        && retryAfter == (if pass then 0 else Wait(WindowOf(State(), user.value).key.value.dueAt, now))
        && forall u | u != user.value :: WindowOf(State(), u) == WindowOf(old(State()), u)
      ensures pass <==> retryAfter == 0
      ensures retryAfter <= 60
    {
      hide Increment, SetExpiry, Good;
      pass, retryAfter := true, 0;
      if !enabled || user.None? || !redisUp {
        return;
      }
      var u := user.value;
      ghost var before := State();
      assert AllGood(before);
      GoodStart(now);
      Replies(WindowOf(before, u), now, request, reaches);
      ApplyKeeps(before, Incr(u, request));
      windows := windows[u := Increment(WindowOf(World(now, windows), u), now, request)];
      assert State() == Apply(before, Incr(u, request));
      var count := windows[u].key.value.count;
      if count == 1 {
        ghost var counted := State();
        ApplyKeeps(counted, Expire(u, request, reaches));
        windows := windows[u := SetExpiry(windows[u], now, request, reaches)];
        assert State() == Apply(counted, Expire(u, request, reaches));
        RunTwo(before, Incr(u, request), Expire(u, request, reaches));
        assert [Incr(u, request), Expire(u, request, reaches)] == [Incr(u, request)] + [Expire(u, request, reaches)];
      } else {
        RunOne(before, Incr(u, request));
        assert [Incr(u, request)] + [] == [Incr(u, request)];
      }
      if count > LIMIT {
        var left := SecondsLeft(windows[u], now);
        assert Good(State().windows[u], now);
        LastingSeconds(windows[u], now);
        return false, if left <= 0 then WINDOW / 1000 else left;
      }
    }
  }

  /**
   A living key is counted up; one that is gone, or past its minute, starts again at 1 and is given a
   minute if the EXPIRE reaches Redis.
   */
  ghost predicate Counts(v: Window, w: Window, now: nat, reaches: bool) {
    w.key == if v.key.Some? && (v.key.value.dueAt.None? || now < v.key.value.dueAt.value)
             then Some(Counter(v.key.value.count + 1, v.key.value.dueAt))
             else Some(Counter(1, if reaches then Some(now + 60_000) else None))
  }

  /** The TTL in whole seconds, rounded; a minute if there is none or less than half a second is left. */
  function Wait(dueAt: Option<nat>, now: nat): (seconds: int)
  {
    if dueAt.None? || dueAt.value - now < 500 then 60 else (dueAt.value - now + 500) / 1000
  }

  lemma Replies(v: Window, now: nat, request: nat, reaches: bool)
    requires Good(v, now)
    ensures var w := Increment(v, now, request);
      && Counts(v, if w.key.value.count == 1 then SetExpiry(w, now, request, reaches) else w, now, reaches)
    ensures var w := Increment(v, now, request);
      && w.key.Some? && w.key.value.count == Last(w.log).count
      && (w.key.value.count == 1 <==> !Alive(v, now))
      && SetExpiry(w, now, request, reaches).key.Some?
      && SetExpiry(w, now, request, reaches).log == w.log
  {
    if Alive(v, now) {
      CountsArePositive(v.log, |v.log| - 1);
    }
  }

  lemma LastingSeconds(v: Window, now: nat)
    requires Good(v, now)
    ensures SecondsLeft(v, now) <= 60
  {
  }

  function Last(log: seq<Served>): Served {
    if log == [] then Served(0, 0) else log[|log| - 1]
  }

  /** The EXPIRE goes out exactly when this request created the key. */
  function Follow(w: World, user: string, request: nat, reaches: bool): seq<Event> {
    if Alive(WindowOf(w, user), w.now) then [] else [Expire(user, request, reaches)]
  }

  lemma RunOne(w: World, e: Event)
    ensures RunFrom(w, [e]) == Apply(w, e)
  {
    hide Apply;
    assert [e][1..] == [];
  }
}
