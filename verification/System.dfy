/**
 Gateways, Presence and fan-out together.  Every WebSocket connection is served by one goroutine,
 which issues its Presence calls one after the other; the goroutines of different connections, the
 single Redis commands of their calls, heartbeats and the clock interleave freely.
 */
module FanOut {
  import opened Prelude
  import opened ConnIds
  import opened Backplane
  import KeepAlive
  import P = Presence

  /** A connection from its insertion into the tables to the deferred cleanup. */
  datatype Phase = Phase(host: Host, user: string, closing: bool)

  datatype System = System(gateways: map<Host, Tables>, phases: map<Conn, Phase>, registry: P.World)

  datatype Event =
    | Connect(host: Host, user: string)
    | Subscribe(conn: Conn, channel: string, subscribe: bool, order: seq<string>)
    | Hangup(conn: Conn)
    | Cleanup(conn: Conn)
    | Registry(event: P.Event)

  function Start(hosts: set<Host>): System {
    System(map h | h in hosts :: Tables(0, {}, map[]), map[], P.EMPTY)
  }

  /** The connection's goroutine is running and not waiting for a Presence call. */
  predicate Idle(s: System, c: Conn) {
    c in s.phases && !s.phases[c].closing && c !in s.registry.ops && s.phases[c].host in s.gateways
  }

  /** One event; an event that is not enabled changes nothing.  order is the map iteration order of the channel set. */
  function Apply(s: System, e: Event): System {
    match e
    case Connect(h, u) =>
      if h !in s.gateways then s
      else
        var t := Opened(s.gateways[h], h);
        var id := ConnId(h, t.counter);
        System(s.gateways[h := t], s.phases[id := Phase(h, u, false)],
               P.Apply(s.registry, P.StartRegister(id, u, [])))
    case Subscribe(c, ch, on, order) =>
      if !Idle(s, c) then s
      else
        var h := s.phases[c].host;
        var t := Subscribed(s.gateways[h], c, ch, on);
        if c !in t.subs || (set x <- order) != t.subs[c] then s
        else
          s.(gateways := s.gateways[h := t],
             registry := P.Apply(s.registry, P.StartRegister(c, s.phases[c].user, order)))
    case Hangup(c) =>
      if !Idle(s, c) then s
      else
        s.(phases := s.phases[c := s.phases[c].(closing := true)],
           registry := P.Apply(s.registry, P.StartDeregister(c)))
    case Cleanup(c) =>
      if c in s.phases && s.phases[c].closing && c !in s.registry.ops && s.phases[c].host in s.gateways then
        var h := s.phases[c].host;
        s.(gateways := s.gateways[h := Closed(s.gateways[h], c)], phases := s.phases - {c})
      else s
    case Registry(pe) =>
      if pe.StartRegister? || pe.StartDeregister? then s else s.(registry := P.Apply(s.registry, pe))
  }

  function RunFrom(s: System, es: seq<Event>): System
    decreases |es|
  {
    if es == [] then s else RunFrom(Apply(s, es[0]), es[1..])
  }

  // ---------------------------------------------------------------- invariant

  ghost predicate Issued(s: System, c: Conn) {
    exists h, k: nat :: h in s.gateways && k <= s.gateways[h].counter && c == ConnId(h, k)
  }

  /** One gateway: conns and subs have the same keys, all issued here and all with a running goroutine. */
  ghost predicate GatewayOk(s: System, h: Host)
    requires h in s.gateways
  {
    var t := s.gateways[h];
    && t.conns == t.subs.Keys
    && forall c <- t.conns ::
         c in s.phases && s.phases[c].host == h && exists k: nat :: k <= t.counter && c == ConnId(h, k)
  }

  /** The channels the gateway keeps for an open connection. */
  function Subs(s: System, c: Conn): set<string> {
    if c in s.phases && s.phases[c].host in s.gateways && c in s.gateways[s.phases[c].host].subs
    then s.gateways[s.phases[c].host].subs[c] else {}
  }

  ghost predicate Same(chs: seq<string>, channels: set<string>) {
    (set ch <- chs) == channels
  }

  /** Presence and the gateway agree about one connection, up to the call that is in flight. */
  ghost predicate ConnOk(s: System, c: Conn) {
    var live := c in s.registry.db.sessions;
    if c !in s.phases then
      !live && c !in s.registry.ops && (c in s.registry.users ==> Issued(s, c))
    else
      var p := s.phases[c];
      && p.host in s.gateways && c in s.gateways[p.host].conns
      && c in s.registry.users && s.registry.users[c] == p.user
      && if c !in s.registry.ops then
           if p.closing then !live else live ==> Same(s.registry.db.sessions[c].channels, Subs(s, c))
         else
           match s.registry.ops[c]
           case RegRead(_, chs) => !p.closing && Same(chs, Subs(s, c))
           case RegClean(_, _, chs) => !p.closing && Same(chs, Subs(s, c))
           case RegExpire(_, chs) => !p.closing && Same(chs, Subs(s, c))
           case RegAddUser(_, chs) => !p.closing && Same(chs, Subs(s, c))
           case RegAddChannels(_, _, chs) => !p.closing && Same(chs, Subs(s, c))
           case _ => p.closing
  }

  ghost predicate Invariant(s: System) {
    && P.IndexComplete(s.registry)
    && (forall h <- s.gateways :: GatewayOk(s, h))
    && forall c :: ConnOk(s, c)
  }

  lemma StartInvariant(hosts: set<Host>)
    ensures Invariant(Start(hosts))
  {
  }

  /** The id a new connection gets has never been used. */
  lemma NextIdFresh(s: System, h: Host)
    requires Invariant(s) && h in s.gateways
    ensures ConnId(h, s.gateways[h].counter + 1) !in s.registry.users
    ensures ConnId(h, s.gateways[h].counter + 1) !in s.phases
  {
    var id := ConnId(h, s.gateways[h].counter + 1);
    assert ConnOk(s, id);
    if id in s.registry.users || id in s.phases {
      assert id in s.phases ==> GatewayOk(s, s.phases[id].host);
      assert Issued(s, id);
      var h', k: nat :| h' in s.gateways && k <= s.gateways[h'].counter && id == ConnId(h', k);
      ConnIdInjective(h, s.gateways[h].counter + 1, h', k);
    }
  }

  lemma ConnectPreserves(s: System, h: Host, u: string)
    requires Invariant(s) && h in s.gateways
    ensures Invariant(Apply(s, Connect(h, u)))
  {
    var s' := Apply(s, Connect(h, u));
    var id := ConnId(h, s.gateways[h].counter + 1);
    NextIdFresh(s, h);
    P.ApplyComplete(s.registry, P.StartRegister(id, u, []));
    assert ConnOk(s, id);
    forall g <- s'.gateways
      ensures GatewayOk(s', g)
    {
      assert GatewayOk(s, g);
    }
    forall c
      ensures ConnOk(s', c)
    {
      ConnectKeepsConn(s, h, u, c);
    }
  }

  lemma ConnectKeepsConn(s: System, h: Host, u: string, c: Conn)
    requires h in s.gateways && ConnOk(s, c)
    requires c == ConnId(h, s.gateways[h].counter + 1) ==> c !in s.registry.users && c !in s.phases
    ensures ConnOk(Apply(s, Connect(h, u)), c)
  {
    var s' := Apply(s, Connect(h, u));
    if c !in s'.phases && c in s'.registry.users {
      IssuedStays(s, s', c);
    }
  }

  lemma IssuedStays(s: System, s': System, c: Conn)
    requires Issued(s, c)
    requires forall h <- s.gateways :: h in s'.gateways && s.gateways[h].counter <= s'.gateways[h].counter
    ensures Issued(s', c)
  {
  }

  lemma SubscribeKeepsConn(s: System, c: Conn, ch: string, on: bool, order: seq<string>, d: Conn)
    requires ConnOk(s, d)
    requires forall h <- s.gateways :: GatewayOk(s, h)
    ensures ConnOk(Apply(s, Subscribe(c, ch, on, order)), d)
  {
    var s' := Apply(s, Subscribe(c, ch, on, order));
    if d !in s'.phases && d in s'.registry.users {
      IssuedStays(s, s', d);
    }
  }

  lemma SubscribePreserves(s: System, c: Conn, ch: string, on: bool, order: seq<string>)
    requires Invariant(s)
    ensures Invariant(Apply(s, Subscribe(c, ch, on, order)))
  {
    hide ConnOk;
    var s' := Apply(s, Subscribe(c, ch, on, order));
    if s' != s {
      var h := s.phases[c].host;
      P.ApplyComplete(s.registry, P.StartRegister(c, s.phases[c].user, order));
      forall g <- s'.gateways
        ensures GatewayOk(s', g)
      {
        assert GatewayOk(s, g);
      }
      forall d
        ensures ConnOk(s', d)
      {
        SubscribeKeepsConn(s, c, ch, on, order, d);
      }
    }
  }

  lemma HangupPreserves(s: System, c: Conn)
    requires Invariant(s)
    ensures Invariant(Apply(s, Hangup(c)))
  {
    var s' := Apply(s, Hangup(c));
    if Idle(s, c) {
      P.ApplyComplete(s.registry, P.StartDeregister(c));
      forall g <- s'.gateways
        ensures GatewayOk(s', g)
      {
        assert GatewayOk(s, g);
      }
      forall d
        ensures ConnOk(s', d)
      {
        assert ConnOk(s, d);
        if d !in s'.phases && d in s'.registry.users {
          IssuedStays(s, s', d);
        }
      }
    }
  }

  lemma CleanupPreserves(s: System, c: Conn)
    requires Invariant(s)
    ensures Invariant(Apply(s, Cleanup(c)))
  {
    var s' := Apply(s, Cleanup(c));
    if s' != s {
      var h := s.phases[c].host;
      forall g <- s'.gateways
        ensures GatewayOk(s', g)
      {
        assert GatewayOk(s, g);
      }
      forall d
        ensures ConnOk(s', d)
      {
        assert ConnOk(s, d);
        assert GatewayOk(s, h);
        if d !in s'.phases && d in s'.registry.users {
          IssuedStays(s, s', d);
        }
      }
    }
  }

  lemma RegistryKeepsConn(s: System, pe: P.Event, d: Conn)
    requires ConnOk(s, d) && P.Complete(s.registry.db, d, P.OpOf(s.registry, d))
    requires !pe.StartRegister? && !pe.StartDeregister?
    ensures ConnOk(Apply(s, Registry(pe)), d)
  {
    var s' := Apply(s, Registry(pe));
    if pe.Step? && pe.conn in s.registry.ops && pe.conn != d {
      P.AdvanceFrame(s.registry.db, s.registry.now, pe.conn, s.registry.ops[pe.conn], d);
    }
    if d !in s'.phases && d in s'.registry.users {
      IssuedStays(s, s', d);
    }
  }

  lemma RegistryPreserves(s: System, pe: P.Event)
    requires Invariant(s)
    ensures Invariant(Apply(s, Registry(pe)))
  {
    hide ConnOk, P.Apply;
    var s' := Apply(s, Registry(pe));
    if !pe.StartRegister? && !pe.StartDeregister? {
      P.ApplyComplete(s.registry, pe);
      forall g <- s'.gateways
        ensures GatewayOk(s', g)
      {
        assert GatewayOk(s, g);
      }
      forall d
        ensures ConnOk(s', d)
      {
        RegistryKeepsConn(s, pe, d);
      }
    }
  }

  lemma ApplyPreserves(s: System, e: Event)
    requires Invariant(s)
    ensures Invariant(Apply(s, e))
  {
    match e
    case Connect(h, u) =>
      if h in s.gateways {
        ConnectPreserves(s, h, u);
      }
    case Subscribe(c, ch, on, order) => SubscribePreserves(s, c, ch, on, order);
    case Hangup(c) => HangupPreserves(s, c);
    case Cleanup(c) => CleanupPreserves(s, c);
    case Registry(pe) => RegistryPreserves(s, pe);
  }

  lemma {:induction false} RunPreserves(s: System, es: seq<Event>)
    requires Invariant(s)
    ensures Invariant(RunFrom(s, es))
    decreases |es|
  {
    if es != [] {
      ApplyPreserves(s, es[0]);
      RunPreserves(Apply(s, es[0]), es[1..]);
    }
  }

  // ---------------------------------------------------------------- theorems over whole runs

  /** In every reachable state each Presence session is held by exactly one gateway, whose two tables have the same keys. */
  lemma SessionsAreHeld(hosts: set<Host>, es: seq<Event>)
    ensures var s := RunFrom(Start(hosts), es);
      && (forall h <- s.gateways :: s.gateways[h].conns == s.gateways[h].subs.Keys)
      && (forall c <- s.registry.db.sessions ::
            exists h :: h in s.gateways && c in s.gateways[h].conns
                     && forall g :: g in s.gateways && c in s.gateways[g].conns ==> g == h)
  {
    var s := RunFrom(Start(hosts), es);
    StartInvariant(hosts);
    RunPreserves(Start(hosts), es);
    forall h <- s.gateways
      ensures s.gateways[h].conns == s.gateways[h].subs.Keys
    {
      assert GatewayOk(s, h);
    }
    forall c <- s.registry.db.sessions
      ensures exists h :: h in s.gateways && c in s.gateways[h].conns
                     && forall g :: g in s.gateways && c in s.gateways[g].conns ==> g == h
    {
      assert ConnOk(s, c);
      var h := s.phases[c].host;
      assert h in s.gateways && c in s.gateways[h].conns;
      forall g | g in s.gateways && c in s.gateways[g].conns
        ensures g == h
      {
        assert GatewayOk(s, g);
      }
    }
  }

  // ---------------------------------------------------------------- who subscribes, by what was sent

  /** The event happens. */
  ghost predicate Taken(s: System, e: Event) {
    Apply(s, e) != s
  }

  /** The n-th event turns the channel on, or off, for the connection. */
  ghost predicate AskedAt(s: System, es: seq<Event>, n: nat, c: Conn, ch: string, on: bool) {
    && n < |es| && es[n].Subscribe? && es[n].conn == c && es[n].channel == ch && es[n].subscribe == on
    && Taken(RunFrom(s, es[..n]), es[n])
  }

  /** Of what the connection sent about the channel and was acted on, the last was a subscribe. */
  ghost predicate SubscribedTo(s: System, es: seq<Event>, c: Conn, ch: string) {
    exists n :: LastAsked(s, es, n, c, ch)
  }

  ghost predicate LastAsked(s: System, es: seq<Event>, n: nat, c: Conn, ch: string) {
    AskedAt(s, es, n, c, ch, true) && forall m: nat | n < m :: !AskedAt(s, es, m, c, ch, false)
  }

  predicate About(e: Event, c: Conn, ch: string) {
    e.Subscribe? && e.conn == c && e.channel == ch
  }

  lemma {:induction false} RunExtends(s: System, es: seq<Event>, e: Event)
    ensures RunFrom(s, es + [e]) == Apply(RunFrom(s, es), e)
    decreases |es|
  {
    hide Apply;
    if es == [] {
      assert ([] + [e])[1..] == [];
    } else {
      assert (es + [e])[1..] == es[1..] + [e];
      RunExtends(Apply(s, es[0]), es[1..], e);
    }
  }

  lemma AskedBefore(s: System, es: seq<Event>, e: Event, n: nat, c: Conn, ch: string, on: bool)
    ensures n < |es| ==> (AskedAt(s, es + [e], n, c, ch, on) <==> AskedAt(s, es, n, c, ch, on))
    ensures AskedAt(s, es + [e], |es|, c, ch, on) <==> About(e, c, ch) && e.subscribe == on && Taken(RunFrom(s, es), e)
  {
    hide Taken, RunFrom;
    assert (es + [e])[..|es|] == es;
    if n < |es| {
      assert (es + [e])[..n] == es[..n];
    }
  }

  lemma SubscribedStep(s: System, es: seq<Event>, e: Event, c: Conn, ch: string)
    ensures SubscribedTo(s, es + [e], c, ch) <==>
      if About(e, c, ch) && Taken(RunFrom(s, es), e) then e.subscribe else SubscribedTo(s, es, c, ch)
  {
    hide AskedAt, Taken, RunFrom;
    forall n: nat, on
      ensures n < |es| ==> (AskedAt(s, es + [e], n, c, ch, on) <==> AskedAt(s, es, n, c, ch, on))
      ensures AskedAt(s, es + [e], |es|, c, ch, on) <==> About(e, c, ch) && e.subscribe == on && Taken(RunFrom(s, es), e)
      ensures AskedAt(s, es, n, c, ch, on) ==> n < |es|
      ensures AskedAt(s, es + [e], n, c, ch, on) ==> n <= |es|
    {
      AskedBefore(s, es, e, n, c, ch, on);
      AskedInRange(s, es, n, c, ch, on);
      AskedInRange(s, es + [e], n, c, ch, on);
    }
    if About(e, c, ch) && Taken(RunFrom(s, es), e) {
      if e.subscribe {
        assert LastAsked(s, es + [e], |es|, c, ch);
      } else {
        forall n: nat
          ensures !LastAsked(s, es + [e], n, c, ch)
        {
          assert AskedAt(s, es + [e], |es|, c, ch, false);
          assert n < |es| || !AskedAt(s, es + [e], n, c, ch, true);
        }
      }
    } else {
      forall n: nat
        ensures LastAsked(s, es + [e], n, c, ch) <==> LastAsked(s, es, n, c, ch)
      {
        assert n < |es| || !AskedAt(s, es + [e], n, c, ch, true);
      }
    }
  }

  lemma AskedInRange(s: System, es: seq<Event>, n: nat, c: Conn, ch: string, on: bool)
    ensures AskedAt(s, es, n, c, ch, on) ==> n < |es|
  {
  }

  /** The table holds what was asked for; an id that was never registered has asked for nothing. */
  ghost predicate Faithful(s: System, c: Conn, ch: string, asked: bool) {
    && (c in s.phases ==> (ch in Subs(s, c) <==> asked))
    && (c !in s.registry.users ==> !asked)
  }

  lemma ListedBy(s: System, c: Conn)
    requires Invariant(s)
    ensures c in s.phases ==> s.phases[c].host in s.gateways && c in s.gateways[s.phases[c].host].subs && c in s.registry.users
  {
    hide P.Complete;
    assert ConnOk(s, c);
    if c in s.phases {
      OneGatewayOk(s, s.phases[c].host);
    }
  }

  lemma SubscribeIsFaithful(s: System, e: Event, c: Conn, ch: string, asked: bool)
    requires Invariant(s) && e.Subscribe? && Faithful(s, c, ch, asked)
    ensures Faithful(Apply(s, e), c, ch, if About(e, c, ch) && Taken(s, e) then e.subscribe else asked)
  {
    hide Invariant;
    ListedBy(s, e.conn);
    ListedBy(s, c);
  }

  lemma OtherIsFaithful(s: System, e: Event, c: Conn, ch: string, asked: bool)
    requires Invariant(s) && !e.Subscribe? && Faithful(s, c, ch, asked)
    ensures Faithful(Apply(s, e), c, ch, asked)
  {
    hide P.Complete, P.Advance;
    assert ConnOk(s, c);
    if e.Connect? && e.host in s.gateways {
      NextIdFresh(s, e.host);
    }
    if e.Cleanup? && e.conn in s.phases && s.phases[e.conn].host in s.gateways {
      OneGatewayOk(s, s.phases[e.conn].host);
    }
  }

  /**
   On every run an open connection's entry in its gateway's table holds exactly the channels whose last
   subscribe or unsubscribe from that connection was a subscribe.
   */
  lemma {:induction false} TableHoldsWhatWasAsked(hosts: set<Host>, es: seq<Event>, c: Conn, ch: string)
    ensures var s := RunFrom(Start(hosts), es); Faithful(s, c, ch, SubscribedTo(Start(hosts), es, c, ch))
    decreases |es|
  {
    hide Invariant, Faithful, RunFrom, Apply, SubscribedTo, Taken;
    if es == [] {
      NothingAsked(hosts, c, ch);
    } else {
      var n := |es| - 1;
      var before, e := es[..n], es[n];
      assert es == before + [e];
      TableHoldsWhatWasAsked(hosts, before, c, ch);
      StartInvariant(hosts);
      RunPreserves(Start(hosts), before);
      RunExtends(Start(hosts), before, e);
      SubscribedStep(Start(hosts), before, e, c, ch);
      var s := RunFrom(Start(hosts), before);
      if e.Subscribe? {
        SubscribeIsFaithful(s, e, c, ch, SubscribedTo(Start(hosts), before, c, ch));
      } else {
        OtherIsFaithful(s, e, c, ch, SubscribedTo(Start(hosts), before, c, ch));
      }
    }
  }

  lemma NothingAsked(hosts: set<Host>, c: Conn, ch: string)
    ensures Faithful(RunFrom(Start(hosts), []), c, ch, SubscribedTo(Start(hosts), [], c, ch))
  {
  }

  /**
   A subscribe or unsubscribe is acted on, on every run, if and only if the connection is open, is not
   waiting for Presence, and the list sent to Presence is what it has subscribed to with this change.
   */
  lemma SubscribeTakenIff(hosts: set<Host>, es: seq<Event>, c: Conn, ch: string, on: bool, order: seq<string>)
    ensures var s := RunFrom(Start(hosts), es);
      Taken(s, Subscribe(c, ch, on, order)) <==>
        && c in s.phases && !s.phases[c].closing && c !in s.registry.ops
        && forall x :: x in order <==> if x == ch then on else SubscribedTo(Start(hosts), es, c, x)
  {
    hide RunFrom, SubscribedTo, Invariant, Apply, Taken;
    var s := RunFrom(Start(hosts), es);
    StartInvariant(hosts);
    RunPreserves(Start(hosts), es);
    TakenByTable(s, c, ch, on, order);
    forall x
      ensures c in s.phases ==> (x in Subs(s, c) <==> SubscribedTo(Start(hosts), es, c, x))
    {
      TableHoldsWhatWasAsked(hosts, es, c, x);
    }
  }

  lemma TakenByTable(s: System, c: Conn, ch: string, on: bool, order: seq<string>)
    requires Invariant(s)
    ensures Taken(s, Subscribe(c, ch, on, order)) <==>
      && c in s.phases && !s.phases[c].closing && c !in s.registry.ops
      && forall x :: x in order <==> if x == ch then on else x in Subs(s, c)
  {
    hide Invariant;
    ListedBy(s, c);
    if Idle(s, c) {
      var want := Subscribed(s.gateways[s.phases[c].host], c, ch, on).subs[c];
      assert forall x :: x in want <==> if x == ch then on else x in Subs(s, c);
      assert forall x :: x in (set y <- order) <==> x in order;
      assert (set y <- order) == want <==> forall x :: x in order <==> x in want;
    }
  }

  // ---------------------------------------------------------------- whose connections there are

  /** How often a replica has been connected to. */
  function Connects(es: seq<Event>, h: Host): nat {
    if es == [] then 0
    else Connects(es[..|es| - 1], h) + if es[|es| - 1].Connect? && es[|es| - 1].host == h then 1 else 0
  }

  /** The n-th event opened the connection: the k-th of that replica, for that user. */
  ghost predicate OpenedAt(es: seq<Event>, n: nat, c: Conn, h: Host, u: string) {
    n < |es| && es[n] == Connect(h, u) && c == ConnId(h, Connects(es[..n], h) + 1)
  }

  /** Counters count connects; an open connection was opened by its replica for its user. */
  ghost predicate Traced(s: System, hosts: set<Host>, es: seq<Event>) {
    && s.gateways.Keys == hosts && (forall h <- hosts :: s.gateways[h].counter == Connects(es, h))
    && forall c <- s.phases :: exists n :: OpenedAt(es, n, c, s.phases[c].host, s.phases[c].user)
  }

  lemma OpenedBefore(es: seq<Event>, e: Event, n: nat, c: Conn, h: Host, u: string)
    ensures OpenedAt(es, n, c, h, u) ==> OpenedAt(es + [e], n, c, h, u)
    ensures e == Connect(h, u) && c == ConnId(h, Connects(es, h) + 1) ==> OpenedAt(es + [e], |es|, c, h, u)
    ensures Connects(es + [e], h) == Connects(es, h) + if e.Connect? && e.host == h then 1 else 0
  {
    assert (es + [e])[..|es|] == es;
    if n < |es| {
      assert (es + [e])[..n] == es[..n];
    }
  }

  lemma StepTraced(s: System, hosts: set<Host>, es: seq<Event>, e: Event)
    requires Traced(s, hosts, es)
    ensures Traced(Apply(s, e), hosts, es + [e])
  {
    hide P.Apply, OpenedAt, Connects, ConnId;
    var w := Apply(s, e);
    forall h <- hosts
      ensures w.gateways[h].counter == Connects(es + [e], h)
    {
      OpenedBefore(es, e, 0, "", h, "");
    }
    forall c <- w.phases
      ensures exists n :: OpenedAt(es + [e], n, c, w.phases[c].host, w.phases[c].user)
    {
      var h, u := w.phases[c].host, w.phases[c].user;
      if c in s.phases && s.phases[c].host == h && s.phases[c].user == u {
        var n :| OpenedAt(es, n, c, h, u);
        OpenedBefore(es, e, n, c, h, u);
      } else {
        OpenedBefore(es, e, |es|, c, h, u);
      }
    }
  }

  lemma {:induction false} RunTraced(hosts: set<Host>, es: seq<Event>)
    ensures Traced(RunFrom(Start(hosts), es), hosts, es)
    decreases |es|
  {
    hide Apply, RunFrom, Traced;
    if es == [] {
      StartTraced(hosts);
    } else {
      var n := |es| - 1;
      assert es == es[..n] + [es[n]];
      RunTraced(hosts, es[..n]);
      RunExtends(Start(hosts), es[..n], es[n]);
      StepTraced(RunFrom(Start(hosts), es[..n]), hosts, es[..n], es[n]);
    }
  }

  lemma StartTraced(hosts: set<Host>)
    ensures Traced(RunFrom(Start(hosts), []), hosts, [])
  {
  }

  /**
   On every run a session in Presence belongs to a connection that is open and was opened for that
   user; its id is its replica's name and the number of that replica's connects.
   */
  lemma SessionsBelongToConnects(hosts: set<Host>, es: seq<Event>, c: Conn)
    ensures var s := RunFrom(Start(hosts), es);
      c in s.registry.db.sessions && c !in s.registry.ops ==>
        && c in s.phases && !s.phases[c].closing && c in s.registry.users
        && exists n, h :: OpenedAt(es, n, c, h, s.registry.users[c])
  {
    hide RunFrom, Traced, OpenedAt;
    var s := RunFrom(Start(hosts), es);
    StartInvariant(hosts);
    RunPreserves(Start(hosts), es);
    RunTraced(hosts, es);
    assert ConnOk(s, c);
    if c in s.phases {
      OpenedFor(s, hosts, es, c);
    }
  }

  lemma OpenedFor(s: System, hosts: set<Host>, es: seq<Event>, c: Conn)
    requires Traced(s, hosts, es) && c in s.phases
    ensures exists n :: OpenedAt(es, n, c, s.phases[c].host, s.phases[c].user)
  {
  }

  /** The cleanup runs, on every run, exactly for a connection that has hung up and whose deregister is over; then nothing of it is left. */
  lemma CleanupTakenIff(hosts: set<Host>, es: seq<Event>, c: Conn)
    ensures var s := RunFrom(Start(hosts), es);
      && (Taken(s, Hangup(c)) <==> c in s.phases && !s.phases[c].closing && c !in s.registry.ops)
      && (Taken(s, Cleanup(c)) <==> c in s.phases && s.phases[c].closing && c !in s.registry.ops)
      && (Taken(s, Cleanup(c)) ==>
            var w := Apply(s, Cleanup(c));
            c !in w.phases && c !in w.registry.db.sessions && forall h <- w.gateways :: c !in w.gateways[h].conns && c !in w.gateways[h].subs)
  {
    hide RunFrom, Invariant;
    var s := RunFrom(Start(hosts), es);
    StartInvariant(hosts);
    RunPreserves(Start(hosts), es);
    ListedBy(s, c);
    GoneBeforeCleanup(s, c);
    if c in s.phases {
      forall h <- s.gateways
        ensures c in s.gateways[h].conns || c in s.gateways[h].subs ==> h == s.phases[c].host
      {
        OneGatewayOk(s, h);
      }
    }
  }

  lemma GoneBeforeCleanup(s: System, c: Conn)
    requires Invariant(s)
    ensures c in s.phases && s.phases[c].closing && c !in s.registry.ops ==> c !in s.registry.db.sessions
  {
    assert ConnOk(s, c);
  }

  // ---------------------------------------------------------------- the channel query

  /** No register finds its session hash missing because it had expired. */
  ghost predicate Steady(s: System, e: Event) {
    e.Registry? && e.event.Step? && e.event.conn in s.registry.ops && s.registry.ops[e.event.conn].RegRead?
      && e.event.conn !in s.registry.db.sessions
    ==> e.event.conn !in s.registry.lapsed
  }

  ghost predicate SteadyRun(s: System, es: seq<Event>)
    decreases |es|
  {
    es == [] || (Steady(s, es[0]) && SteadyRun(Apply(s, es[0]), es[1..]))
  }

  /** The gateways never hand a connection id to a second user, so steady runs keep the index exact. */
  lemma ApplyKeepsExact(s: System, e: Event)
    requires Invariant(s) && P.IndexExact(s.registry) && Steady(s, e)
    ensures P.IndexExact(Apply(s, e).registry)
  {
    match e
    case Connect(h, u) =>
      if h in s.gateways {
        NextIdFresh(s, h);
        P.ApplyExact(s.registry, P.StartRegister(ConnId(h, s.gateways[h].counter + 1), u, []));
      }
    case Subscribe(c, ch, on, order) =>
      if Idle(s, c) {
        assert ConnOk(s, c);
        P.ApplyExact(s.registry, P.StartRegister(c, s.phases[c].user, order));
      }
    case Hangup(c) =>
      P.ApplyExact(s.registry, P.StartDeregister(c));
    case Cleanup(c) =>
    case Registry(pe) =>
      if !pe.StartRegister? && !pe.StartDeregister? {
        P.ApplyExact(s.registry, pe);
      }
  }

  lemma {:induction false} RunKeepsExact(s: System, es: seq<Event>)
    requires Invariant(s) && P.IndexExact(s.registry) && SteadyRun(s, es)
    ensures P.IndexExact(RunFrom(s, es).registry)
    decreases |es|
  {
    if es != [] {
      ApplyPreserves(s, es[0]);
      ApplyKeepsExact(s, es[0]);
      RunKeepsExact(Apply(s, es[0]), es[1..]);
    }
  }

  /** An open connection that is not waiting for a Presence call and whose session has not expired. */
  ghost predicate Settled(s: System, c: Conn) {
    Idle(s, c) && c in s.registry.db.sessions
  }

  /**
   The channel query behind a fan-out never misses a settled connection whose last word about the
   channel was a subscribe, and on steady runs it returns a settled connection only if it was.
   */
  lemma QueryFindsSubscribers(hosts: set<Host>, es: seq<Event>, c: Conn)
    ensures var start, s := Start(hosts), RunFrom(Start(hosts), es);
      Settled(s, c) ==>
        && (forall ch :: SubscribedTo(start, es, c, ch) ==> c in P.QueryByChannel(s.registry.db, ch))
        && (SteadyRun(start, es) ==> forall ch :: c in P.QueryByChannel(s.registry.db, ch) <==> SubscribedTo(start, es, c, ch))
  {
    hide RunFrom, SubscribedTo, SteadyRun, P.QueryByChannel, Subs;
    QueryFindsListed(hosts, es, c);
    forall ch
      ensures var s := RunFrom(Start(hosts), es); Settled(s, c) ==> (ch in Subs(s, c) <==> SubscribedTo(Start(hosts), es, c, ch))
    {
      TableHoldsWhatWasAsked(hosts, es, c, ch);
    }
  }

  /** What the gateway's table lists for a settled connection is what the query finds. */
  lemma QueryFindsListed(hosts: set<Host>, es: seq<Event>, c: Conn)
    ensures var s := RunFrom(Start(hosts), es);
      Settled(s, c) ==>
        && (forall ch :: ch in Subs(s, c) ==> c in P.QueryByChannel(s.registry.db, ch))
        && (SteadyRun(Start(hosts), es) ==> forall ch :: c in P.QueryByChannel(s.registry.db, ch) <==> ch in Subs(s, c))
  {
    var s := RunFrom(Start(hosts), es);
    var db := s.registry.db;
    StartInvariant(hosts);
    RunPreserves(Start(hosts), es);
    if Settled(s, c) {
      assert ConnOk(s, c);
      assert P.Complete(db, c, P.OpOf(s.registry, c));
      forall ch
        ensures ch in Subs(s, c) ==> c in P.QueryByChannel(db, ch)
      {
        assert ch in Subs(s, c) <==> ch in db.sessions[c].channels;
        if ch in Subs(s, c) {
          assert (ch, c) in db.byChannel;
        }
      }
      if SteadyRun(Start(hosts), es) {
        RunKeepsExact(Start(hosts), es);
        assert P.Exact(s.registry, c);
        P.ExactAgrees(s.registry, c);
        forall ch
          ensures c in P.QueryByChannel(db, ch) <==> ch in Subs(s, c)
        {
          assert c in P.QueryByChannel(db, ch) <==> c in P.ScanByChannel(db, ch);
          assert ch in Subs(s, c) <==> ch in db.sessions[c].channels;
        }
      }
    }
  }

  function ConnTables(s: System): map<Host, set<Conn>> {
    map h | h in s.gateways :: s.gateways[h].conns
  }

  /**
   The connection is listed once, at i, and of all replicas exactly the one serving it writes that
   occurrence, if the socket write works.
   */
  ghost predicate WrittenAt(s: System, c: Conn, ids: seq<Conn>, ok: seq<bool>, i: nat)
    requires |ok| == |ids| && c in s.phases
  {
    && i < |ids| && ids[i] == c
    && (forall j | 0 <= j < |ids| && ids[j] == c :: j == i)
    && forall h <- s.gateways :: i in Writes(s.gateways[h].conns, ids, ok) <==> h == s.phases[c].host && ok[i]
  }

  lemma GatewaysOwnTheirIds(s: System)
    requires Invariant(s)
    ensures OwnIds(ConnTables(s))
  {
    var tables := ConnTables(s);
    forall h, c | h in tables && c in tables[h]
      ensures exists k :: c == ConnId(h, k)
    {
      assert GatewayOk(s, h);
    }
  }

  lemma QueriedAreHeld(s: System, ch: string)
    requires Invariant(s)
    ensures P.QueryByChannel(s.registry.db, ch) <= Held(s.gateways.Keys, ConnTables(s))
  {
    forall c <- P.QueryByChannel(s.registry.db, ch)
      ensures c in Held(s.gateways.Keys, ConnTables(s))
    {
      assert ConnOk(s, c);
      assert c in ConnTables(s)[s.phases[c].host];
    }
  }

  lemma ListedIsWritten(s: System, c: Conn, ids: seq<Conn>, ok: seq<bool>)
    requires Invariant(s) && c in s.phases && c in ids && Distinct(ids) && |ok| == |ids|
    ensures exists i: nat :: WrittenAt(s, c, ids, ok, i)
  {
    var i: nat :| i < |ids| && ids[i] == c;
    assert ConnOk(s, c);
    forall h <- s.gateways
      ensures i in Writes(s.gateways[h].conns, ids, ok) <==> h == s.phases[c].host && ok[i]
    {
      assert GatewayOk(s, h);
    }
    assert WrittenAt(s, c, ids, ok, i);
  }

  lemma AllDelivered(s: System, ids: seq<Conn>, ok: seq<bool>)
    requires Invariant(s) && |ok| == |ids|
    requires (set c <- ids) <= Held(s.gateways.Keys, ConnTables(s))
    ensures TotalDelivered(s.gateways.Keys, ConnTables(s), ids, ok) == |set i: nat | i < |ids| && ok[i]|
  {
    var held := Held(s.gateways.Keys, ConnTables(s));
    GatewaysOwnTheirIds(s);
    BackplaneRefinesSingleTable(s.gateways.Keys, ConnTables(s), ids, ok);
    forall i: nat | i < |ids|
      ensures ids[i] in held
    {
      assert ids[i] in (set c <- ids);
    }
    assert Writes(held, ids, ok) == set i: nat | i < |ids| && ok[i];
  }

  /**
   A new message reaches its channel.  In every reachable state, pushing over the backplane to the
   ids the channel query returned writes to every settled subscriber exactly once if its socket
   works, and the replicas' delivered counts add up to the number of socket writes that work.
   */
  lemma MessageReachesSubscribers(hosts: set<Host>, es: seq<Event>, ch: string, ids: seq<Conn>, ok: seq<bool>)
    requires (set c <- ids) == P.QueryByChannel(RunFrom(Start(hosts), es).registry.db, ch)
    requires Distinct(ids) && |ok| == |ids|
    ensures var s := RunFrom(Start(hosts), es);
      && TotalDelivered(s.gateways.Keys, ConnTables(s), ids, ok) == |set i: nat | i < |ids| && ok[i]|
      && forall c | Settled(s, c) && SubscribedTo(Start(hosts), es, c, ch) :: exists i: nat :: WrittenAt(s, c, ids, ok, i)
  {
    hide RunFrom, SubscribedTo, Invariant, WrittenAt, P.QueryByChannel;
    var s := RunFrom(Start(hosts), es);
    StartInvariant(hosts);
    RunPreserves(Start(hosts), es);
    QueriedAreHeld(s, ch);
    AllDelivered(s, ids, ok);
    forall c | Settled(s, c) && SubscribedTo(Start(hosts), es, c, ch)
      ensures exists i: nat :: WrittenAt(s, c, ids, ok, i)
    {
      QueryFindsSubscribers(hosts, es, c);
      assert c in (set x <- ids);
      ListedIsWritten(s, c, ids, ok);
    }
  }

  // ---------------------------------------------------------------- heartbeats on schedule

  /** What an event does to the registry, if anything. */
  function RegistryEvent(s: System, e: Event): seq<P.Event> {
    match e
    case Connect(h, u) => if h in s.gateways then [P.StartRegister(ConnId(h, s.gateways[h].counter + 1), u, [])] else []
    case Subscribe(c, ch, on, order) =>
      if !Idle(s, c) then []
      else
        var t := Subscribed(s.gateways[s.phases[c].host], c, ch, on);
        if c !in t.subs || (set x <- order) != t.subs[c] then []
        else [P.StartRegister(c, s.phases[c].user, order)]
    case Hangup(c) => if Idle(s, c) then [P.StartDeregister(c)] else []
    case Cleanup(_) => []
    case Registry(pe) => if pe.StartRegister? || pe.StartDeregister? then [] else [pe]
  }

  /** The registry's own run inside a run of the system. */
  function Trace(s: System, es: seq<Event>): seq<P.Event>
    decreases |es|
  {
    if es == [] then [] else RegistryEvent(s, es[0]) + Trace(Apply(s, es[0]), es[1..])
  }

  lemma OneRegistryStep(w: P.World, es: seq<P.Event>)
    requires |es| <= 1
    ensures P.RunFrom(w, es) == if es == [] then w else P.Apply(w, es[0])
  {
    hide P.Apply;
    if es != [] {
      assert es[1..] == [];
    }
  }

  lemma RegistryFollows(s: System, e: Event)
    ensures Apply(s, e).registry == P.RunFrom(s.registry, RegistryEvent(s, e))
  {
    hide P.Apply, P.RunFrom;
    OneRegistryStep(s.registry, RegistryEvent(s, e));
  }

  lemma {:induction false} TraceRuns(s: System, es: seq<Event>)
    ensures RunFrom(s, es).registry == P.RunFrom(s.registry, Trace(s, es))
    decreases |es|
  {
    hide Apply, RegistryEvent, P.Apply;
    if es != [] {
      RegistryFollows(s, es[0]);
      TraceRuns(Apply(s, es[0]), es[1..]);
      P.RunConcat(s.registry, RegistryEvent(s, es[0]), Trace(Apply(s, es[0]), es[1..]));
    }
  }

  lemma {:induction false} TraceSplits(s: System, es: seq<Event>, n: nat)
    requires n <= |es|
    ensures Trace(s, es[..n]) <= Trace(s, es)
    decreases n
  {
    hide Apply, RegistryEvent;
    if n > 0 {
      assert es[..n][1..] == es[1..][..n - 1];
      TraceSplits(Apply(s, es[0]), es[1..], n - 1);
    }
  }

  lemma {:induction false} SteadyPointwise(s: System, es: seq<Event>)
    requires forall n | 0 <= n < |es| :: Steady(RunFrom(s, es[..n]), es[n])
    ensures SteadyRun(s, es)
    decreases |es|
  {
    hide Apply, Steady;
    if es != [] {
      assert es[..0] == [] && RunFrom(s, []) == s;
      var rest := es[1..];
      forall n | 0 <= n < |rest|
        ensures Steady(RunFrom(Apply(s, es[0]), rest[..n]), rest[n])
      {
        assert es[..n + 1][0] == es[0] && es[..n + 1][1..] == rest[..n];
        assert RunFrom(s, es[..n + 1]) == RunFrom(Apply(s, es[0]), rest[..n]);
      }
      SteadyPointwise(Apply(s, es[0]), rest);
    }
  }

  /** Every connection's heartbeats stay on schedule: fewer than 14 failures in a row. */
  ghost predicate HeartbeatsOnTime(hosts: set<Host>, es: seq<Event>, start: Conn -> nat) {
    forall c :: KeepAlive.KeptAlive(P.EMPTY, {}, Trace(Start(hosts), es), c, start(c))
  }

  /** With the gateways' heartbeats on schedule no session expires, so no register finds one gone. */
  lemma HeartbeatsMakeSteady(hosts: set<Host>, es: seq<Event>, start: Conn -> nat)
    requires HeartbeatsOnTime(hosts, es, start)
    ensures SteadyRun(Start(hosts), es)
  {
    hide RunFrom, Trace, KeepAlive.KeptAlive, P.RunFrom;
    var whole := Trace(Start(hosts), es);
    forall n | 0 <= n < |es|
      ensures Steady(RunFrom(Start(hosts), es[..n]), es[n])
    {
      var part := Trace(Start(hosts), es[..n]);
      TraceSplits(Start(hosts), es, n);
      assert whole[..|part|] == part;
      TraceRuns(Start(hosts), es[..n]);
      if es[n].Registry? && es[n].event.Step? {
        var c := es[n].event.conn;
        KeepAlive.HeartbeatsKeepAlive(whole, |part|, c, start(c));
      }
    }
    SteadyPointwise(Start(hosts), es);
  }

  /** So the channel query returns a settled connection exactly if its last word about the channel was a subscribe. */
  lemma HeartbeatsKeepFanOutExact(hosts: set<Host>, es: seq<Event>, start: Conn -> nat, c: Conn)
    requires HeartbeatsOnTime(hosts, es, start)
    ensures var s := RunFrom(Start(hosts), es);
      Settled(s, c) ==> forall ch :: c in P.QueryByChannel(s.registry.db, ch) <==> SubscribedTo(Start(hosts), es, c, ch)
  {
    hide RunFrom, HeartbeatsOnTime, SteadyRun, Settled, P.QueryByChannel, SubscribedTo;
    HeartbeatsMakeSteady(hosts, es, start);
    QueryFindsSubscribers(hosts, es, c);
  }

  // ---------------------------------------------------------------- query, reads and push at different moments

  /** The state after the first k of the events that follow. */
  function After(s: System, fs: seq<Event>, k: nat): System {
    RunFrom(s, if k < |fs| then fs[..k] else fs)
  }

  /**
   The ids of a fan-out that starts in a state: the members of the channel index then, less those
   whose session is gone when it is their turn to be read.
   */
  ghost predicate Queried(s: System, fs: seq<Event>, read: Conn -> nat, ch: string, ids: seq<Conn>) {
    && Distinct(ids)
    && forall c :: c in ids <==> (ch, c) in s.registry.db.byChannel && c in After(s, fs, read(c)).registry.db.sessions
  }

  /** The replicas' tables, each at the moment the push reaches that replica. */
  function TablesAt(s: System, fs: seq<Event>, reach: Host -> nat): map<Host, set<Conn>> {
    map h | h in s.gateways && h in After(s, fs, reach(h)).gateways :: After(s, fs, reach(h)).gateways[h].conns
  }

  /** The connection is listed once, and of all replicas only the one serving it writes to it, if its socket works. */
  ghost predicate WrittenOnceAt(tables: map<Host, set<Conn>>, home: Host, c: Conn, ids: seq<Conn>, ok: seq<bool>, i: nat)
    requires |ok| == |ids|
  {
    && i < |ids| && ids[i] == c
    && (forall j | 0 <= j < |ids| && ids[j] == c :: j == i)
    && forall h <- tables :: i in Writes(tables[h], ids, ok) <==> h == home && ok[i]
  }

  lemma HostStays(s: System, e: Event)
    ensures Apply(s, e).gateways.Keys == s.gateways.Keys
  {
    hide P.Apply;
  }

  lemma {:induction false} HostsStay(s: System, es: seq<Event>)
    ensures RunFrom(s, es).gateways.Keys == s.gateways.Keys
    decreases |es|
  {
    hide Apply;
    if es != [] {
      HostStays(s, es[0]);
      HostsStay(Apply(s, es[0]), es[1..]);
    }
  }

  lemma AfterKeeps(s: System, fs: seq<Event>, k: nat)
    requires Invariant(s)
    ensures Invariant(After(s, fs, k)) && After(s, fs, k).gateways.Keys == s.gateways.Keys
  {
    hide Invariant, RunFrom;
    var es := if k < |fs| then fs[..k] else fs;
    RunPreserves(s, es);
    HostsStay(s, es);
  }

  lemma TablesAreOwn(s: System, fs: seq<Event>, reach: Host -> nat)
    requires Invariant(s)
    ensures TablesAt(s, fs, reach).Keys == s.gateways.Keys && OwnIds(TablesAt(s, fs, reach))
  {
    hide After, Invariant;
    var tables := TablesAt(s, fs, reach);
    forall h <- s.gateways
      ensures h in tables
    {
      AfterKeeps(s, fs, reach(h));
    }
    forall h, c | h in tables && c in tables[h]
      ensures exists k :: c == ConnId(h, k)
    {
      AfterKeeps(s, fs, reach(h));
      assert GatewayOk(After(s, fs, reach(h)), h) by { OneGatewayOk(After(s, fs, reach(h)), h); }
    }
  }

  lemma OneGatewayOk(s: System, h: Host)
    requires Invariant(s) && h in s.gateways
    ensures GatewayOk(s, h)
  {
  }

  lemma IndexedAndHeld(s: System, c: Conn, ch: string)
    requires Invariant(s) && Settled(s, c) && ch in Subs(s, c)
    ensures (ch, c) in s.registry.db.byChannel
    ensures s.phases[c].host in s.gateways && exists k :: c == ConnId(s.phases[c].host, k)
  {
    assert ConnOk(s, c);
    assert P.Complete(s.registry.db, c, P.OpOf(s.registry, c));
    assert ch in s.registry.db.sessions[c].channels;
    assert GatewayOk(s, s.phases[c].host);
  }

  /** A settled connection whose session outlives its read, and which its replica holds when the push gets there. */
  ghost predicate Reachable(s: System, fs: seq<Event>, read: Conn -> nat, reach: Host -> nat, c: Conn) {
    && Settled(s, c)
    && c in After(s, fs, read(c)).registry.db.sessions
    && s.phases[c].host in TablesAt(s, fs, reach) && c in TablesAt(s, fs, reach)[s.phases[c].host]
  }

  ghost predicate WrittenToOnce(s: System, tables: map<Host, set<Conn>>, c: Conn, ids: seq<Conn>, ok: seq<bool>)
    requires |ok| == |ids|
  {
    c in s.phases && exists i: nat :: WrittenOnceAt(tables, s.phases[c].host, c, ids, ok, i)
  }

  lemma ReachableIsWritten(s: System, fs: seq<Event>, read: Conn -> nat, reach: Host -> nat, ch: string,
                           ids: seq<Conn>, ok: seq<bool>, c: Conn)
    requires Invariant(s) && Queried(s, fs, read, ch, ids) && |ok| == |ids| && Reachable(s, fs, read, reach, c) && ch in Subs(s, c)
    ensures WrittenToOnce(s, TablesAt(s, fs, reach), c, ids, ok)
  {
    hide After, TablesAt, Invariant, Subs;
    TablesAreOwn(s, fs, reach);
    IndexedAndHeld(s, c, ch);
    ListedOnce(TablesAt(s, fs, reach), s.phases[c].host, c, ids, ok);
  }

  /**
   A new message reaches its channel although nothing stands still: the index is read in one state,
   each session later, and the push reaches each replica at a moment of its own.  A settled subscriber
   whose session is still there when it is read, and which its replica still holds when the push gets
   there, is written to exactly once, if its socket works; and the replicas' counts add up to the
   occurrences that are held where the push arrives and whose write works.
   */
  lemma MessageReachesLater(hosts: set<Host>, es: seq<Event>, fs: seq<Event>, read: Conn -> nat, reach: Host -> nat,
                            ch: string, ids: seq<Conn>, ok: seq<bool>)
    requires Queried(RunFrom(Start(hosts), es), fs, read, ch, ids) && |ok| == |ids|
    ensures var s := RunFrom(Start(hosts), es);
            var tables := TablesAt(s, fs, reach);
      && tables.Keys == s.gateways.Keys
      && TotalDelivered(tables.Keys, tables, ids, ok) == |Writes(Held(tables.Keys, tables), ids, ok)|
      && forall c | Reachable(s, fs, read, reach, c) && SubscribedTo(Start(hosts), es, c, ch) :: WrittenToOnce(s, tables, c, ids, ok)
  {
    hide RunFrom, TablesAt, Invariant, OwnIds, WrittenToOnce, Queried, Writes, Held, SubscribedTo, After;
    var s := RunFrom(Start(hosts), es);
    var tables := TablesAt(s, fs, reach);
    StartInvariant(hosts);
    RunPreserves(Start(hosts), es);
    TablesAreOwn(s, fs, reach);
    BackplaneRefinesSingleTable(tables.Keys, tables, ids, ok);
    forall c | Reachable(s, fs, read, reach, c) && SubscribedTo(Start(hosts), es, c, ch)
      ensures WrittenToOnce(s, tables, c, ids, ok)
    {
      TableHoldsWhatWasAsked(hosts, es, c, ch);
      ReachableIsWritten(s, fs, read, reach, ch, ids, ok, c);
    }
  }

  lemma ListedOnce(tables: map<Host, set<Conn>>, home: Host, c: Conn, ids: seq<Conn>, ok: seq<bool>)
    requires OwnIds(tables) && Distinct(ids) && c in ids && |ok| == |ids|
    requires home in tables && c in tables[home]
    ensures exists i: nat :: WrittenOnceAt(tables, home, c, ids, ok, i)
  {
    hide OwnIds;
    var i: nat :| i < |ids| && ids[i] == c;
    forall h <- tables
      ensures i in Writes(tables[h], ids, ok) <==> h == home && ok[i]
    {
      if c in tables[h] {
        HolderUnique(tables, h, home, c);
      }
    }
    assert WrittenOnceAt(tables, home, c, ids, ok, i);
  }
}
