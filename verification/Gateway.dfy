/** Connection ids of the form host-seq, which must stay unique across gateway replicas. */
module ConnIds {
  import opened Decimals

  function ConnId(host: string, k: nat): string {
    host + "-" + Decimal(k)
  }

  /** The dash the format puts in is the last one, whatever the hostname contains. */
  lemma LastDash(host: string, k: nat)
    ensures ConnId(host, k)[|host|] == '-'
    ensures forall j :: |host| < j < |ConnId(host, k)| ==> ConnId(host, k)[j] != '-'
  {
    DigitsOnly(k);
    forall j | |host| < j < |ConnId(host, k)|
      ensures ConnId(host, k)[j] != '-'
    {
      assert ConnId(host, k)[j] == Decimal(k)[j - |host| - 1];
      assert Decimal(k)[j - |host| - 1] in Decimal(k);
    }
  }

  lemma ConnIdInjective(h1: string, k1: nat, h2: string, k2: nat)
    requires ConnId(h1, k1) == ConnId(h2, k2)
    ensures h1 == h2 && k1 == k2
  {
    var id := ConnId(h1, k1);
    LastDash(h1, k1);
    LastDash(h2, k2);
    assert |h1| == |h2|;
    assert h1 == id[..|h1|] == h2;
    assert Decimal(k1) == id[|h1| + 1..] == Decimal(k2);
    DecimalInjective(k1, k2);
  }
}

/** Fan-out pushes: one replica's delivery, and the backplane over all of them. */
module Backplane {
  import opened ConnIds
  import Decimals

  type Conn = string
  type Host = string

  /**
   The occurrences in a pushed id list that a connection table writes.  ok[i] says whether the
   socket write for occurrence i goes through on the replica that holds it.
   */
  function Writes(conns: set<Conn>, ids: seq<Conn>, ok: seq<bool>): set<nat>
    requires |ok| == |ids|
  {
    WritesBefore(conns, ids, ok, |ids|)
  }

  function WritesBefore(conns: set<Conn>, ids: seq<Conn>, ok: seq<bool>, n: nat): set<nat>
    requires |ok| == |ids| && n <= |ids|
  {
    set i: nat | i < n && ids[i] in conns && ok[i]
  }

  lemma WritesAre(conns: set<Conn>, ids: seq<Conn>, ok: seq<bool>, i: nat)
    requires |ok| == |ids|
    ensures i in Writes(conns, ids, ok) <==> i < |ids| && ids[i] in conns && ok[i]
  {
  }

  lemma NothingBefore(conns: set<Conn>, ids: seq<Conn>, ok: seq<bool>)
    requires |ok| == |ids|
    ensures WritesBefore(conns, ids, ok, 0) == {}
  {
  }

  lemma WritesStep(conns: set<Conn>, ids: seq<Conn>, ok: seq<bool>, n: nat)
    requires |ok| == |ids| && n < |ids|
    ensures var before, after := WritesBefore(conns, ids, ok, n), WritesBefore(conns, ids, ok, n + 1);
      && n !in before
      && after == (if ids[n] in conns && ok[n] then before + {n} else before)
  {
  }

  /** The union of the given replicas' tables. */
  function Held(hosts: set<Host>, tables: map<Host, set<Conn>>): set<Conn> {
    set h, c | h in hosts && h in tables && c in tables[h] :: c
  }

  /** Every replica only holds ids it issued itself. */
  ghost predicate OwnIds(tables: map<Host, set<Conn>>) {
    forall h, c :: h in tables && c in tables[h] ==> exists k :: c == ConnId(h, k)
  }

  ghost function Pick(hosts: set<Host>): (h: Host)
    requires hosts != {}
    ensures h in hosts
  {
    var h :| h in hosts; h
  }

  /** The sum of what the given replicas report as delivered. */
  ghost function TotalDelivered(hosts: set<Host>, tables: map<Host, set<Conn>>, ids: seq<Conn>, ok: seq<bool>): nat
    requires |ok| == |ids| && hosts <= tables.Keys
  {
    if hosts == {} then 0
    else
      var h := Pick(hosts);
      |Writes(tables[h], ids, ok)| + TotalDelivered(hosts - {h}, tables, ids, ok)
  }

  lemma HolderUnique(tables: map<Host, set<Conn>>, h1: Host, h2: Host, c: Conn)
    requires OwnIds(tables) && h1 in tables && h2 in tables && c in tables[h1] && c in tables[h2]
    ensures h1 == h2
  {
    var k1 :| c == ConnId(h1, k1);
    var k2 :| c == ConnId(h2, k2);
    ConnIdInjective(h1, k1, h2, k2);
  }

  /** Each occurrence is written by at most one replica, and by one exactly if one holds it and the write works. */
  lemma WrittenOnce(tables: map<Host, set<Conn>>, ids: seq<Conn>, ok: seq<bool>, i: nat)
    requires OwnIds(tables) && |ok| == |ids| && i < |ids|
    ensures forall h1, h2 | h1 in tables && h2 in tables ::
      i in Writes(tables[h1], ids, ok) && i in Writes(tables[h2], ids, ok) ==> h1 == h2
    ensures (exists h :: h in tables && i in Writes(tables[h], ids, ok)) <==> ids[i] in Held(tables.Keys, tables) && ok[i]
  {
    forall h1, h2 | h1 in tables && h2 in tables && i in Writes(tables[h1], ids, ok) && i in Writes(tables[h2], ids, ok)
      ensures h1 == h2
    {
      HolderUnique(tables, h1, h2, ids[i]);
    }
  }

  lemma HeldSplits(hosts: set<Host>, tables: map<Host, set<Conn>>, h: Host)
    requires OwnIds(tables) && hosts <= tables.Keys && h in hosts
    ensures Held(hosts, tables) == tables[h] + Held(hosts - {h}, tables)
    ensures tables[h] !! Held(hosts - {h}, tables)
  {
    forall c | c in tables[h] && c in Held(hosts - {h}, tables)
      ensures false
    {
      var h' :| h' in hosts - {h} && c in tables[h'];
      HolderUnique(tables, h, h', c);
    }
  }

  /** Disjoint tables write disjoint occurrences. */
  lemma WritesAdd(a: set<Conn>, b: set<Conn>, ids: seq<Conn>, ok: seq<bool>)
    requires a !! b && |ok| == |ids|
    ensures |Writes(a + b, ids, ok)| == |Writes(a, ids, ok)| + |Writes(b, ids, ok)|
  {
    assert Writes(a + b, ids, ok) == Writes(a, ids, ok) + Writes(b, ids, ok);
    assert Writes(a, ids, ok) !! Writes(b, ids, ok);
  }

  /** All replicas together deliver what one table holding the union of their sockets would. */
  lemma {:induction false} BackplaneRefinesSingleTable(hosts: set<Host>, tables: map<Host, set<Conn>>, ids: seq<Conn>, ok: seq<bool>)
    requires OwnIds(tables) && |ok| == |ids| && hosts <= tables.Keys
    ensures TotalDelivered(hosts, tables, ids, ok)
         == |Writes(Held(hosts, tables), ids, ok)|
  {
    var union := Held(hosts, tables);
    if hosts == {} {
      assert Writes(union, ids, ok) == {};
    } else {
      var h := Pick(hosts);
      var rest := hosts - {h};
      BackplaneRefinesSingleTable(rest, tables, ids, ok);
      var others := Held(rest, tables);
      HeldSplits(hosts, tables, h);
      WritesAdd(tables[h], others, ids, ok);
    }
  }

  /** What one gateway process keeps: the id counter, the connection table and the subscriptions. */
  datatype Tables = Tables(counter: nat, conns: set<Conn>, subs: map<Conn, set<string>>)

  function Opened(t: Tables, host: Host): Tables {
    var id := ConnId(host, t.counter + 1);
    Tables(t.counter + 1, t.conns + {id}, t.subs[id := {}])
  }

  function Closed(t: Tables, id: Conn): Tables {
    t.(conns := t.conns - {id}, subs := t.subs - {id})
  }

  function Subscribed(t: Tables, id: Conn, channel: string, subscribe: bool): Tables {
    if id !in t.subs then t
    else t.(subs := t.subs[id := if subscribe then t.subs[id] + {channel} else t.subs[id] - {channel}])
  }

  /** Ranging over a Go map used as a set: every key once, in no particular order. */
  method Enumerate(keys: set<string>) returns (listed: seq<string>)
    ensures (set k <- listed) == keys && |listed| == |keys|
  {
    var rest := keys;
    listed := [];
    while rest != {}
      invariant rest <= keys
      invariant (set k <- listed) == keys - rest
      invariant |listed| == |keys - rest|
      decreases rest
    {
      var k :| k in rest;
      assert keys - (rest - {k}) == (keys - rest) + {k};
      rest := rest - {k};
      listed := listed + [k];
    }
    assert keys - rest == keys;
  }

  /** One gateway process: its connection table, subscriptions and id counter. */
  class Gateway {
    const instanceId: Host
    var counter: nat
    var conns: set<Conn>
    var subs: map<Conn, set<string>>

    constructor (hostname: string)
      ensures instanceId == (if hostname == "" then "gateway" else hostname)
      ensures counter == 0 && conns == {} && subs == map[]
    {
      instanceId := if hostname == "" then "gateway" else hostname;
      counter, conns, subs := 0, {}, map[];
    }

    function State(): Tables
      reads this
    {
      Tables(counter, conns, subs)
    }

    /** The start of ServeHTTP: a new id, entered in both tables. */
    method Open() returns (id: Conn)
      modifies this
      ensures State() == Opened(old(State()), instanceId)
      ensures counter == old(counter) + 1 && id == instanceId + "-" + Decimals.Decimal(counter)
      ensures conns == old(conns) + {id} && subs == old(subs)[id := {}]
    {
      counter := counter + 1;
      id := ConnId(instanceId, counter);
      assert id == instanceId + "-" + Decimals.Decimal(counter);
      conns := conns + {id};
      subs := subs[id := {}];
    }

    /** The deferred cleanup of ServeHTTP. */
    method Close(id: Conn)
      modifies this`conns, this`subs
      ensures State() == Closed(old(State()), id)
      ensures conns == old(conns) - {id} && subs == old(subs) - {id}
    {
      conns := conns - {id};
      subs := subs - {id};
    }

    /** updateSubscription up to the re-register: the channel list to send, none once torn down. */
    method UpdateSubscription(id: Conn, channel: string, subscribe: bool) returns (channels: seq<string>)
      modifies this`subs
      ensures State() == Subscribed(old(State()), id, channel, subscribe)
      ensures id !in old(subs) ==> channels == [] && subs == old(subs)
      ensures subs.Keys == old(subs).Keys && forall c <- subs | c != id :: subs[c] == old(subs)[c]
      ensures id in subs ==> (channel in subs[id] <==> subscribe)
      ensures id in subs ==> forall x | x != channel :: x in subs[id] <==> x in old(subs)[id]
      ensures id in subs ==> (set c <- channels) == subs[id] && |channels| == |subs[id]|
    {
      channels := [];
      if id !in subs {
        return;
      }
      var mine := if subscribe then subs[id] + {channel} else subs[id] - {channel};
      subs := subs[id := mine];
      channels := Enumerate(mine);
    }

    /** deliverLocal: writes the event to every listed session this instance holds. */
    method DeliverLocal(ids: seq<Conn>, ok: seq<bool>) returns (delivered: nat, missing: nat, written: seq<nat>)
      requires |ok| == |ids|
      ensures delivered == |Writes(conns, ids, ok)| && delivered + missing == |ids|
      ensures |written| == delivered && forall i :: i in written <==> i in Writes(conns, ids, ok)
      ensures forall a, b :: 0 <= a < b < |written| ==> written[a] < written[b]
    {
      hide WritesBefore;
      delivered, missing, written := 0, 0, [];
      NothingBefore(conns, ids, ok);
      for i := 0 to |ids|
        invariant delivered + missing == i && |written| == delivered
        invariant forall j :: j in written <==> j in WritesBefore(conns, ids, ok, i)
        invariant delivered == |WritesBefore(conns, ids, ok, i)|
        invariant forall j | 0 <= j < |written| :: written[j] < i
        invariant forall a, b :: 0 <= a < b < |written| ==> written[a] < written[b]
      {
        WritesStep(conns, ids, ok, i);
        if ids[i] !in conns {
          missing := missing + 1;
          continue;
        }
        if !ok[i] {
          missing := missing + 1;
          continue;
        }
        delivered := delivered + 1;
        written := written + [i];
      }
    }
  }
}
