/**
 The Presence HTTP handlers over the Redis structures they update in place, command by command.
 Each handler, run with no other request in between, is proved against the step machine of
 module Presence.
 */
module PresenceService {
  import opened Prelude
  import opened Presence

  datatype SessionEntry = SessionEntry(connection: Conn, user: User)

  function Prefix<T>(s: seq<T>, n: nat): seq<T> {
    if n < |s| then s[..n] else s
  }

  /** The channels a register cleans up: none if HGETALL fails, which is taken for no session. */
  function OldChannels(db: Db, c: Conn, readOk: bool): seq<Channel> {
    if readOk && c in db.sessions then db.sessions[c].channels else []
  }

  /** The first k commands of the pipeline HSET, EXPIRE, SADD of the user, SADD of each channel. */
  function Written(db: Db, now: nat, c: Conn, u: User, chs: seq<Channel>, k: nat): Db {
    if k == 0 then db
    else if k == 1 then HSet(db, c, u, chs)
    else
      var hash := Expire(HSet(db, c, u, chs), now, c);
      if k == 2 then hash
      else hash.(byUser := hash.byUser + {(u, c)}, byChannel := hash.byChannel + Pairs(Prefix(chs, k - 3), c))
  }

  /** A register of which the first pipeline runs up to its cleaned-th SREM and the second up to its k-th command. */
  function PartlyRegistered(db: Db, now: nat, c: Conn, u: User, chs: seq<Channel>, readOk: bool, cleaned: nat, k: nat): Db {
    Written(db.(byChannel := db.byChannel - Pairs(Prefix(OldChannels(db, c, readOk), cleaned), c)), now, c, u, chs, k)
  }

  /** A deregister whose pipeline DEL, SREM of the user, SREM of each channel runs up to its k-th command. */
  function PartlyDeregistered(db: Db, c: Conn, k: nat): Db {
    if k == 0 || c !in db.sessions then db
    else
      var s := db.sessions[c];
      Db(db.sessions - {c}, if k == 1 then db.byUser else db.byUser - {(s.user, c)},
         if k <= 2 then db.byChannel else db.byChannel - Pairs(Prefix(s.channels, k - 2), c))
  }

  /** With Redis answering, a register has its whole effect. */
  lemma WhollyRegistered(db: Db, now: nat, c: Conn, u: User, chs: seq<Channel>, cleaned: nat, k: nat)
    requires cleaned >= |OldChannels(db, c, true)| && k >= |chs| + 3
    ensures PartlyRegistered(db, now, c, u, chs, true, cleaned, k) == Registered(db, now, c, u, chs)
  {
  }

  lemma InPairs(chs: seq<Channel>, c: Conn, ch: Channel)
    ensures (ch, c) in Pairs(chs, c) <==> ch in chs
  {
  }

  lemma PairsAre(chs: seq<Channel>, c: Conn, p: (Channel, Conn))
    ensures p in Pairs(chs, c) <==> p.1 == c && p.0 in chs
  {
    InPairs(chs, c, p.0);
    if p.1 == c {
      assert p == (p.0, c);
    }
  }

  /**
   After a register that got only some way, one that succeeds leaves what it would have left without
   the first, if and only if the first had not yet overwritten the hash or had cleaned every old entry
   that is not wanted again.
   */
  lemma RetryHealsIff(db: Db, now: nat, c: Conn, u: User, chs: seq<Channel>, readOk: bool, cleaned: nat, k: nat)
    ensures var was, done := OldChannels(db, c, true), Prefix(OldChannels(db, c, readOk), cleaned);
      Registered(PartlyRegistered(db, now, c, u, chs, readOk, cleaned, k), now, c, u, chs) == Registered(db, now, c, u, chs)
      <==> k == 0 || forall ch <- was | (ch, c) in db.byChannel :: ch in done || ch in chs
  {
    hide Pairs;
    var was, done := OldChannels(db, c, true), Prefix(OldChannels(db, c, readOk), cleaned);
    var part := PartlyRegistered(db, now, c, u, chs, readOk, cleaned, k);
    var a, b := Registered(part, now, c, u, chs), Registered(db, now, c, u, chs);
    var added := if k < 3 then [] else Prefix(chs, k - 3);
    var dropped := if k == 0 then was else chs;
    assert OldChannels(part, c, true) == dropped;
    assert forall ch <- done :: ch in was;
    assert forall ch <- added :: ch in chs;
    PairsAre([], c, ("", c));
    forall p
      ensures p in part.byChannel <==> (p in db.byChannel && !(p.1 == c && p.0 in done)) || (p.1 == c && p.0 in added)
      ensures p in a.byChannel <==> (p in part.byChannel && !(p.1 == c && p.0 in dropped)) || (p.1 == c && p.0 in chs)
      ensures p in b.byChannel <==> (p in db.byChannel && !(p.1 == c && p.0 in was)) || (p.1 == c && p.0 in chs)
    {
      PairsAre(done, c, p);
      PairsAre(added, c, p);
      PairsAre(dropped, c, p);
      PairsAre(was, c, p);
      PairsAre(chs, c, p);
    }
    assert a.sessions == b.sessions && a.byUser == b.byUser;
    if k > 0 && !(forall ch <- was | (ch, c) in db.byChannel :: ch in done || ch in chs) {
      var ch :| ch in was && (ch, c) in db.byChannel && ch !in done && ch !in chs;
      assert (ch, c) in a.byChannel && (ch, c) !in b.byChannel;
    }
  }

  class PresenceHandler {
    var sessions: map<Conn, Session>
    var byUser: set<(User, Conn)>
    var byChannel: set<(Channel, Conn)>
    var now: nat

    function Contents(): Db
      reads this
    {
      Db(sessions, byUser, byChannel)
    }

    /** One SREM per channel. */
    method RemoveFromChannels(conn: Conn, channels: seq<Channel>)
      modifies this`byChannel
      ensures byChannel == old(byChannel) - Pairs(channels, conn)
    {
      for i := 0 to |channels|
        invariant byChannel == old(byChannel) - Pairs(channels[..i], conn)
      {
        assert channels[..i + 1] == channels[..i] + [channels[i]];
        byChannel := byChannel - {(channels[i], conn)};
      }
      assert channels[..|channels|] == channels;
    }

    /** One SADD per channel. */
    method AddToChannels(conn: Conn, channels: seq<Channel>)
      modifies this`byChannel
      ensures byChannel == old(byChannel) + Pairs(channels, conn)
    {
      for i := 0 to |channels|
        invariant byChannel == old(byChannel) + Pairs(channels[..i], conn)
      {
        assert channels[..i + 1] == channels[..i] + [channels[i]];
        byChannel := byChannel + {(channels[i], conn)};
      }
      assert channels[..|channels|] == channels;
    }

    /**
     POST /sessions.  readOk: HGETALL is answered; cleaned and written: how many commands of each pipeline
     Redis runs; acked: the reply of the second one arrives.
     */
    method Register(conn: Conn, user: User, channels: seq<Channel>, readOk: bool, cleaned: nat, written: nat, acked: bool)
      returns (status: int)
      modifies this`sessions, this`byUser, this`byChannel
      ensures conn == "" || user == "" ==> status == 400 && Contents() == old(Contents())
      ensures conn != "" && user != "" ==>
        && status == (if acked && written >= |channels| + 3 then 200 else 500)
        && Contents() == PartlyRegistered(old(Contents()), now, conn, user, channels, readOk, cleaned, written)
        && (readOk && cleaned >= |OldChannels(old(Contents()), conn, true)| && written >= |channels| + 3 ==>
              Contents() == Registered(old(Contents()), now, conn, user, channels))
    {
      if conn == "" || user == "" {
        return 400;
      }
      ghost var before := Contents();
      ghost var gone := Prefix(OldChannels(before, conn, readOk), cleaned);
      if readOk && conn in sessions {
        RemoveFromChannels(conn, Prefix(sessions[conn].channels, cleaned));
      }
      assert Pairs([], conn) == {};
      assert Contents() == before.(byChannel := before.byChannel - Pairs(gone, conn));
      if written >= 1 {
        var deadline := if conn in sessions then sessions[conn].deadline else None;
        sessions := sessions[conn := Session(user, channels, deadline)];
      }
      if written >= 2 {
        sessions := sessions[conn := sessions[conn].(deadline := Some(now + SESSION_TTL))];
      }
      if written >= 3 {
        byUser := byUser + {(user, conn)};
        AddToChannels(conn, Prefix(channels, written - 3));
      }
      status := if acked && written >= |channels| + 3 then 200 else 500;
      if readOk && cleaned >= |OldChannels(before, conn, true)| && written >= |channels| + 3 {
        WhollyRegistered(before, now, conn, user, channels, cleaned, written);
      }
    }

    /** DELETE /sessions/{conn}: 204 whether or not the session exists and whatever Redis runs of it. */
    method Deregister(conn: Conn, readOk: bool, executed: nat) returns (status: int)
      modifies this`sessions, this`byUser, this`byChannel
      ensures status == 204
      ensures Contents() == if readOk then PartlyDeregistered(old(Contents()), conn, executed) else old(Contents())
      ensures readOk && executed >= |OldChannels(old(Contents()), conn, true)| + 2 ==>
        Contents() == Deregistered(old(Contents()), conn)
    {
      if readOk && conn in sessions {
        var user, channels := sessions[conn].user, sessions[conn].channels;
        if executed >= 1 {
          sessions := sessions - {conn};
        }
        if executed >= 2 {
          byUser := byUser - {(user, conn)};
          RemoveFromChannels(conn, Prefix(channels, executed - 2));
        }
        assert Pairs([], conn) == {};
      }
      status := 204;
    }

    /** PUT /sessions/{conn}/heartbeat.  existsOk and expireOk say whether Redis answers each command. */
    method Heartbeat(conn: Conn, existsOk: bool, expireOk: bool) returns (status: int)
      modifies this`sessions
      ensures status == if !existsOk then 500 else if conn in old(sessions) then 200 else 404
      ensures sessions.Keys == old(sessions).Keys
      ensures forall c <- sessions :: c != conn ==> sessions[c] == old(sessions)[c]
      ensures conn in sessions ==>
        sessions[conn] == if existsOk && expireOk then old(sessions)[conn].(deadline := Some(now + 1800))
                          else old(sessions)[conn]
    {
      if !existsOk {
        return 500;
      }
      if conn !in sessions {
        return 404;
      }
      if !expireOk {
        return 200;
      }
      sessions := sessions[conn := sessions[conn].(deadline := Some(now + SESSION_TTL))];
      status := 200;
    }

    /**
     GET /sessions?channel_id=...: one entry per indexed connection that is still there.  membersOk says
     whether SMEMBERS is answered; a read in failed is not, and its connection is left out.
     */
    method QueryByChannelId(channel: Channel, membersOk: bool, failed: set<Conn>)
      returns (status: int, entries: seq<SessionEntry>)
      ensures status == if membersOk then 200 else 500
      ensures (set e <- entries :: e.connection) == if membersOk then QueryByChannel(Contents(), channel) - failed else {}
      ensures forall c :: c in (set e <- entries :: e.connection) <==>
        membersOk && (channel, c) in byChannel && c in sessions && c !in failed
      ensures forall e <- entries :: e.connection in sessions && e.user == sessions[e.connection].user
      ensures forall i, j :: 0 <= i < j < |entries| ==> entries[i].connection != entries[j].connection
    {
      if !membersOk {
        return 500, [];
      }
      status := 200;
      var members := set p | p in byChannel && p.0 == channel :: p.1;
      assert forall c :: c in members <==> (channel, c) in byChannel;
      assert forall c :: c in QueryByChannel(Contents(), channel) <==> (channel, c) in byChannel && c in sessions;
      var rest := members;
      entries := [];
      while rest != {}
        invariant rest <= members
        invariant forall e <- entries :: e.connection in members - rest && e.connection in sessions && e.connection !in failed
        invariant forall e <- entries :: e.connection in sessions && e.user == sessions[e.connection].user
        invariant forall c :: c in members - rest && c in sessions && c !in failed ==> SessionEntry(c, sessions[c].user) in entries
        invariant forall i, j :: 0 <= i < j < |entries| ==> entries[i].connection != entries[j].connection
        decreases rest
      {
        var id :| id in rest;
        rest := rest - {id};
        if id in sessions && id !in failed {
          entries := entries + [SessionEntry(id, sessions[id].user)];
        }
      }
      forall c
        ensures c in (set e <- entries :: e.connection) <==> c in QueryByChannel(Contents(), channel) - failed
      {
        if c in QueryByChannel(Contents(), channel) - failed {
          assert SessionEntry(c, sessions[c].user) in entries;
        }
      }
    }

    /** GET /sessions?user_id=...: online means at least one live session that could be read. */
    method QueryByUserId(user: User, membersOk: bool, failed: set<Conn>)
      returns (status: int, online: bool, connections: seq<Conn>)
      ensures status == if membersOk then 200 else 500
      ensures (set c <- connections) == if membersOk then QueryByUser(Contents(), user) - failed else {}
      ensures forall c :: c in connections <==> membersOk && (user, c) in byUser && c in sessions && c !in failed
      ensures Distinct(connections)
      ensures online <==> connections != []
    {
      if !membersOk {
        return 500, false, [];
      }
      status := 200;
      var members := set p | p in byUser && p.0 == user :: p.1;
      assert forall c :: c in members <==> (user, c) in byUser;
      assert forall c :: c in QueryByUser(Contents(), user) <==> (user, c) in byUser && c in sessions;
      var rest := members;
      connections := [];
      while rest != {}
        invariant rest <= members
        invariant forall c :: c in connections <==> c in members - rest && c in sessions && c !in failed
        invariant Distinct(connections)
        decreases rest
      {
        var id :| id in rest;
        rest := rest - {id};
        if id in sessions && id !in failed {
          connections := connections + [id];
        }
      }
      online := |connections| > 0;
    }
  }
}

/** The 2-minute heartbeats of a connection against the 30-minute TTL, in seconds. */
module Heartbeats {
  import opened Prelude
  import Presence

  const INTERVAL: nat := 2 * 60
  const TIMEOUT: nat := 5

  /**
   registered: when the EXPIRE of the register ran; start: when the ticker started;
   ok(k): the k-th heartbeat reached Presence; lag(k): how long after its tick its EXPIRE ran.
   */
  datatype Schedule = Schedule(registered: nat, start: nat, ok: nat -> bool, lag: nat -> nat)

  /** Both the register call and every heartbeat give up after 5 seconds. */
  ghost predicate Timely(s: Schedule) {
    s.registered <= s.start <= s.registered + TIMEOUT && forall k :: s.lag(k) <= TIMEOUT
  }

  function Time(s: Schedule, k: nat): nat {
    s.start + INTERVAL * k + s.lag(k)
  }

  /** The deadline of the session hash after n heartbeats; None once it has expired. */
  function Deadline(s: Schedule, n: nat): Option<nat> {
    if n == 0 then Some(s.registered + Presence.SESSION_TTL)
    else
      match Deadline(s, n - 1)
      case None => None
      case Some(d) =>
        if !s.ok(n) then Some(d)
        else if Time(s, n) < d then Some(Time(s, n) + Presence.SESSION_TTL) else None
  }

  /** No 14 heartbeats in a row fail. */
  ghost predicate Responsive(s: Schedule) {
    forall k: nat :: OneOf14(s, k)
  }

  ghost predicate OneOf14(s: Schedule, k: nat) {
    exists j :: k < j <= k + 14 && s.ok(j)
  }

  /** The last heartbeat up to n that got through; 0 stands for the register. */
  function LastOk(s: Schedule, n: nat): (k: nat)
    ensures k <= n && (k > 0 ==> s.ok(k))
    ensures forall j :: k < j <= n ==> !s.ok(j)
  {
    if n == 0 || s.ok(n) then n else LastOk(s, n - 1)
  }

  /** With fewer than 14 failures in a row the hash outlives every heartbeat, late ones included. */
  lemma {:induction false} NeverExpires(s: Schedule, n: nat)
    requires Timely(s) && Responsive(s)
    ensures Deadline(s, n).Some? && Deadline(s, n).value > s.start + 120 * (n + 1) + 5
    ensures Deadline(s, n).value >= s.start + 120 * LastOk(s, n) + 1800 - 5
  {
    var k := LastOk(s, n);
    assert n < k + 14 by {
      assert OneOf14(s, k);
    }
    if n > 0 {
      NeverExpires(s, n - 1);
    }
  }

  /** Fourteen failures in a row are one too many, even with no delays at all. */
  lemma FourteenFailuresExpire()
    ensures var s := Schedule(0, 0, k => k > 14, k => 0);
      Timely(s) && Deadline(s, 14) == Some(1800) && Deadline(s, 15) == None && Time(s, 15) == 1800
  {
    FourteenStep(Schedule(0, 0, k => k > 14, k => 0), 14);
  }

  lemma {:induction false} FourteenStep(s: Schedule, n: nat)
    requires n <= 14 && s.registered == 0 && forall k | k <= 14 :: !s.ok(k)
    ensures Deadline(s, n) == Some(Presence.SESSION_TTL)
  {
    if n > 0 {
      FourteenStep(s, n - 1);
    }
  }
}
