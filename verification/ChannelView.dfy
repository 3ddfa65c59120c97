/**
 The web client's optimistic messages.  A send puts up a placeholder; the POST response confirms or
 removes it; the WebSocket echoes the stored message before or after, once or many times.
 */
module ChannelView {
  import opened Uuids
  import opened Decimals

  /** A message in extraMessages: a placeholder's id is opt-<milliseconds>, a stored one's is its UUID. */
  datatype Shown = Shown(id: string, content: string)

  function TempId(stamp: nat): string {
    "opt-" + Decimal(stamp)
  }

  ghost predicate DistinctIds(list: seq<Shown>) {
    forall i, j | 0 <= i < j < |list| :: list[i].id != list[j].id
  }

  predicate Has(list: seq<Shown>, id: string) {
    exists m <- list :: m.id == id
  }

  // ---------------------------------------------------------------- the updaters

  function Place(prev: seq<Shown>, m: Shown): seq<Shown> {
    prev + [m]
  }

  function Echoed(prev: seq<Shown>, m: Shown): seq<Shown> {
    if Has(prev, m.id) then prev else prev + [m]
  }

  function Drop(prev: seq<Shown>, id: string): seq<Shown> {
    if prev == [] then [] else (if prev[0].id == id then [] else [prev[0]]) + Drop(prev[1..], id)
  }

  function Swap(prev: seq<Shown>, id: string, stored: Shown): (list: seq<Shown>)
    ensures |list| == |prev|
    ensures forall i | 0 <= i < |prev| :: list[i] == if prev[i].id == id then stored else prev[i]
  {
    if prev == [] then [] else [if prev[0].id == id then stored else prev[0]] + Swap(prev[1..], id, stored)
  }

  /** The POST response: only drop the placeholder when the echo was faster, else swap it in place. */
  function Confirm(prev: seq<Shown>, id: string, stored: Shown): seq<Shown> {
    if Has(prev, stored.id) then Drop(prev, id) else Swap(prev, id, stored)
  }

  // ---------------------------------------------------------------- the machine

  datatype Event =
    | Send(stamp: nat, content: string)
    | Echo(id: Uuid)
    | Posted(stamp: nat, id: Uuid)
    | Failed(stamp: nat)

  /** The list, the sends without a response, and the stored messages the view has been told of. */
  datatype View = View(extra: seq<Shown>, pending: map<nat, string>, known: set<Uuid>)

  /** What the server stored under an id. */
  function Stored(body: Uuid -> string, u: Uuid): Shown {
    Shown(Text(u), body(u))
  }

  /** One event; a response to no send in flight does not happen. */
  function Apply(v: View, body: Uuid -> string, e: Event): View {
    match e
    case Send(s, c) => View(Place(v.extra, Shown(TempId(s), c)), v.pending[s := c], v.known)
    case Echo(u) => View(Echoed(v.extra, Stored(body, u)), v.pending, v.known + {u})
    case Posted(s, u) =>
      if s !in v.pending then v
      else View(Confirm(v.extra, TempId(s), Stored(body, u)), v.pending - {s}, v.known + {u})
    case Failed(s) =>
      if s !in v.pending then v
      else View(Drop(v.extra, TempId(s)), v.pending - {s}, v.known)
  }

  function Run(body: Uuid -> string, es: seq<Event>): View
    decreases |es|
  {
    if es == [] then View([], map[], {})
    else Apply(Run(body, es[..|es| - 1]), body, es[|es| - 1])
  }

  // ---------------------------------------------------------------- the updaters on distinct ids

  lemma {:induction false} DropMember(prev: seq<Shown>, id: string, m: Shown)
    ensures m in Drop(prev, id) <==> m in prev && m.id != id
    decreases |prev|
  {
    if prev != [] {
      assert prev == [prev[0]] + prev[1..];
      DropMember(prev[1..], id, m);
    }
  }

  lemma {:induction false} DropKeeps(prev: seq<Shown>, id: string)
    requires DistinctIds(prev)
    ensures DistinctIds(Drop(prev, id))
    decreases |prev|
  {
    if prev != [] {
      var rest := prev[1..];
      assert forall i | 0 <= i < |rest| :: rest[i] == prev[i + 1];
      DropKeeps(rest, id);
      var tail := Drop(rest, id);
      forall j | 0 <= j < |tail|
        ensures tail[j].id != prev[0].id
      {
        DropMember(rest, id, tail[j]);
      }
    }
  }

  lemma SwapMember(prev: seq<Shown>, id: string, stored: Shown, m: Shown)
    requires Has(prev, id)
    ensures m in Swap(prev, id, stored) <==> m == stored || (m in prev && m.id != id)
  {
    var list := Swap(prev, id, stored);
    if m == stored {
      var p :| p in prev && p.id == id;
      var k :| 0 <= k < |prev| && prev[k] == p;
      assert list[k] == stored;
    } else if m in prev && m.id != id {
      var i :| 0 <= i < |prev| && prev[i] == m;
      assert list[i] == m;
    }
  }

  lemma SwapKeeps(prev: seq<Shown>, id: string, stored: Shown)
    requires DistinctIds(prev) && !Has(prev, stored.id)
    ensures DistinctIds(Swap(prev, id, stored))
  {
    hide Has;
    var list := Swap(prev, id, stored);
    forall i, j | 0 <= i < j < |list|
      ensures list[i].id != list[j].id
    {
      NotHere(prev, stored.id, i);
      NotHere(prev, stored.id, j);
    }
  }

  lemma NotHere(list: seq<Shown>, id: string, i: nat)
    requires !Has(list, id) && i < |list|
    ensures list[i].id != id
  {
    assert list[i] in list;
  }

  lemma TempIsNotReal(s: nat, u: Uuid)
    ensures TempId(s) != Text(u)
  {
    var h := Hex(u, 32);
    assert h[0] in h;
    assert Text(u)[0] == h[0] && TempId(s)[0] == 'o';
  }

  lemma TempInjective(s: nat, t: nat)
    requires TempId(s) == TempId(t)
    ensures s == t
  {
    hide Decimal;
    assert TempId(s)[4..] == Decimal(s) && TempId(t)[4..] == Decimal(t);
    DecimalInjective(s, t);
  }

  // ---------------------------------------------------------------- what every run keeps

  ghost predicate Belongs(v: View, body: Uuid -> string, m: Shown) {
    || (exists s <- v.pending :: m == Shown(TempId(s), v.pending[s]))
    || (exists u <- v.known :: m == Stored(body, u))
  }

  /** Distinct ids, and exactly one entry per send in flight and per stored message heard of. */
  ghost predicate Good(v: View, body: Uuid -> string) {
    DistinctIds(v.extra) && forall m :: m in v.extra <==> Belongs(v, body, m)
  }

  lemma HasPending(v: View, body: Uuid -> string, s: nat)
    requires Good(v, body)
    ensures Has(v.extra, TempId(s)) <==> s in v.pending
  {
    hide TempId, Text;
    if s in v.pending {
      assert Belongs(v, body, Shown(TempId(s), v.pending[s]));
    }
    if Has(v.extra, TempId(s)) {
      var m :| m in v.extra && m.id == TempId(s);
      assert Belongs(v, body, m);
      if u :| u in v.known && m == Stored(body, u) {
        TempIsNotReal(s, u);
      } else {
        var t :| t in v.pending && m == Shown(TempId(t), v.pending[t]);
        TempInjective(s, t);
      }
    }
  }

  lemma HasKnown(v: View, body: Uuid -> string, u: Uuid)
    requires Good(v, body)
    ensures Has(v.extra, Text(u)) <==> u in v.known
  {
    hide TempId, Text;
    if u in v.known {
      assert Belongs(v, body, Stored(body, u));
    }
    if Has(v.extra, Text(u)) {
      var m :| m in v.extra && m.id == Text(u);
      assert Belongs(v, body, m);
      if t :| t in v.pending && m == Shown(TempId(t), v.pending[t]) {
        TempIsNotReal(t, u);
      } else {
        var w :| w in v.known && m == Stored(body, w);
        TextInjective(u, w);
      }
    }
  }

  /** A send is harmless exactly when its stamp is not one of a send still in flight. */
  lemma SendKeeps(v: View, body: Uuid -> string, s: nat, c: string)
    requires Good(v, body)
    ensures DistinctIds(Apply(v, body, Send(s, c)).extra) <==> s !in v.pending
    ensures s !in v.pending ==> Good(Apply(v, body, Send(s, c)), body)
  {
    hide TempId, Text;
    var temp, v' := Shown(TempId(s), c), Apply(v, body, Send(s, c));
    HasPending(v, body, s);
    if s in v.pending {
      var m :| m in v.extra && m.id == TempId(s);
      var i :| 0 <= i < |v.extra| && v.extra[i] == m;
      assert v'.extra[i].id == v'.extra[|v.extra|].id;
    } else {
      AppendKeeps(v.extra, temp);
      forall m
        ensures m in v'.extra <==> Belongs(v', body, m)
      {
        assert m in v.extra <==> Belongs(v, body, m);
        assert v'.pending[s] == c;
        assert forall t <- v.pending :: v'.pending[t] == v.pending[t];
      }
    }
  }

  lemma AppendKeeps(list: seq<Shown>, m: Shown)
    requires DistinctIds(list) && !Has(list, m.id)
    ensures DistinctIds(list + [m])
  {
    forall i | 0 <= i < |list|
      ensures list[i].id != m.id
    {
      assert list[i] in list;
    }
  }

  lemma EchoKeeps(v: View, body: Uuid -> string, u: Uuid)
    requires Good(v, body)
    ensures Good(Apply(v, body, Echo(u)), body)
  {
    hide TempId, Text;
    var v' := Apply(v, body, Echo(u));
    HasKnown(v, body, u);
    if u in v.known {
      assert v'.known == v.known;
    } else {
      AppendKeeps(v.extra, Stored(body, u));
      forall m
        ensures m in v'.extra <==> Belongs(v', body, m)
      {
        assert m in v.extra <==> Belongs(v, body, m);
        assert u in v'.known;
      }
    }
  }

  /** Taking a stamp out of the pending sends takes out exactly the entry with its placeholder id. */
  lemma OthersBelong(v: View, body: Uuid -> string, s: nat, m: Shown)
    ensures Belongs(View(v.extra, v.pending - {s}, v.known), body, m) <==> Belongs(v, body, m) && m.id != TempId(s)
  {
    hide TempId, Text;
    var w := View(v.extra, v.pending - {s}, v.known);
    if t :| t in w.pending && m == Shown(TempId(t), w.pending[t]) {
      if TempId(t) == TempId(s) {
        TempInjective(s, t);
      }
      assert t in v.pending;
    }
    if u :| u in v.known && m == Stored(body, u) {
      TempIsNotReal(s, u);
    }
    if Belongs(v, body, m) && m.id != TempId(s) {
      if t :| t in v.pending && m == Shown(TempId(t), v.pending[t]) {
        assert t in w.pending;
      }
    }
  }

  lemma FailedKeeps(v: View, body: Uuid -> string, s: nat)
    requires Good(v, body)
    ensures Good(Apply(v, body, Failed(s)), body)
  {
    hide TempId, Text, Belongs;
    if s in v.pending {
      var v' := Apply(v, body, Failed(s));
      DropKeeps(v.extra, TempId(s));
      forall m
        ensures m in v'.extra <==> Belongs(v', body, m)
      {
        DropMember(v.extra, TempId(s), m);
        OthersBelong(v, body, s, m);
        SameBelongs(v', View(v.extra, v.pending - {s}, v.known), body, m);
      }
    }
  }

  lemma SameBelongs(v: View, w: View, body: Uuid -> string, m: Shown)
    requires v.pending == w.pending && v.known == w.known
    ensures Belongs(v, body, m) <==> Belongs(w, body, m)
  {
  }

  lemma MoreBelongs(v: View, w: View, body: Uuid -> string, u: Uuid, m: Shown)
    requires v.pending == w.pending && w.known == v.known + {u}
    ensures Belongs(w, body, m) <==> Belongs(v, body, m) || m == Stored(body, u)
  {
    hide TempId, Stored;
  }

  lemma PostedKeeps(v: View, body: Uuid -> string, s: nat, u: Uuid)
    requires Good(v, body)
    ensures Good(Apply(v, body, Posted(s, u)), body)
  {
    hide TempId, Text, Belongs;
    if s in v.pending {
      var v', w := Apply(v, body, Posted(s, u)), View(v.extra, v.pending - {s}, v.known);
      HasPending(v, body, s);
      HasKnown(v, body, u);
      TempIsNotReal(s, u);
      if u in v.known {
        DropKeeps(v.extra, TempId(s));
      } else {
        SwapKeeps(v.extra, TempId(s), Stored(body, u));
      }
      forall m
        ensures m in v'.extra <==> Belongs(v', body, m)
      {
        OthersBelong(v, body, s, m);
        MoreBelongs(w, v', body, u, m);
        if u in v.known {
          DropMember(v.extra, TempId(s), m);
          KnownBelongs(v, body, u);
        } else {
          SwapMember(v.extra, TempId(s), Stored(body, u), m);
        }
      }
    }
  }

  lemma KnownBelongs(v: View, body: Uuid -> string, u: Uuid)
    requires u in v.known
    ensures Belongs(v, body, Stored(body, u))
  {
  }

  /** No send reuses the stamp of one still in flight. */
  ghost predicate Clean(body: Uuid -> string, es: seq<Event>) {
    forall k | 0 <= k < |es| && es[k].Send? :: es[k].stamp !in Run(body, es[..k]).pending
  }

  lemma CleanPrefix(body: Uuid -> string, es: seq<Event>, n: nat)
    requires Clean(body, es) && n <= |es|
    ensures Clean(body, es[..n])
  {
    hide Run;
    assert forall k | 0 <= k < n :: es[..n][..k] == es[..k];
  }

  lemma {:induction false} CleanRuns(body: Uuid -> string, es: seq<Event>)
    requires Clean(body, es)
    ensures Good(Run(body, es), body)
    decreases |es|
  {
    hide Apply, Good, Text, TempId;
    if es == [] {
      EmptyIsGood(body);
    } else {
      var n := |es| - 1;
      CleanPrefix(body, es, n);
      CleanRuns(body, es[..n]);
      var v := Run(body, es[..n]);
      match es[n]
      case Send(s, c) => SendKeeps(v, body, s, c);
      case Echo(u) => EchoKeeps(v, body, u);
      case Posted(s, u) => PostedKeeps(v, body, s, u);
      case Failed(s) => FailedKeeps(v, body, s);
    }
  }

  lemma EmptyIsGood(body: Uuid -> string)
    ensures Good(View([], map[], {}), body)
  {
  }

  /**
   On any interleaving of sends, repeated echoes, confirmations and failures, the ids stay distinct
   at every moment if and only if no send reuses the millisecond of one still in flight.
   */
  lemma DistinctIffClean(body: Uuid -> string, es: seq<Event>)
    ensures Clean(body, es) <==> forall n | 0 <= n <= |es| :: DistinctIds(Run(body, es[..n]).extra)
  {
    hide Good, Apply, Run, DistinctIds;
    if Clean(body, es) {
      forall n | 0 <= n <= |es|
        ensures DistinctIds(Run(body, es[..n]).extra)
      {
        CleanPrefix(body, es, n);
        CleanRuns(body, es[..n]);
        GoodIsDistinct(Run(body, es[..n]), body);
      }
    } else {
      assert es[..|es|] == es;
      var k := FirstClash(body, es, |es|);
      CleanRuns(body, es[..k]);
      SendKeeps(Run(body, es[..k]), body, es[k].stamp, es[k].content);
      LastStep(body, es, k);
    }
  }

  lemma GoodIsDistinct(v: View, body: Uuid -> string)
    requires Good(v, body)
    ensures DistinctIds(v.extra)
  {
  }

  lemma LastStep(body: Uuid -> string, es: seq<Event>, k: nat)
    requires k < |es|
    ensures Run(body, es[..k + 1]) == Apply(Run(body, es[..k]), body, es[k])
  {
    hide Apply;
    assert es[..k + 1][..k] == es[..k];
  }

  lemma {:induction false} FirstClash(body: Uuid -> string, es: seq<Event>, n: nat) returns (k: nat)
    requires 0 < n <= |es| && !Clean(body, es[..n])
    ensures k < n && es[k].Send? && es[k].stamp in Run(body, es[..k]).pending && Clean(body, es[..k])
    decreases n
  {
    hide Run;
    if n > 1 && !Clean(body, es[..n - 1]) {
      k := FirstClash(body, es, n - 1);
    } else {
      k := n - 1;
      assert forall j | 0 <= j < k :: es[..k][..j] == es[..n][..j] && es[..k][j] == es[..n][j];
      assert es[..n][..k] == es[..k];
    }
  }

  /** Two sends in one millisecond: the first answer takes both placeholders, and the second message is lost. */
  lemma SameMillisecond(body: Uuid -> string, s: nat, a: Uuid, b: Uuid)
    requires a != b
    ensures var placed := Place(Place([], Shown(TempId(s), "first")), Shown(TempId(s), "second"));
            var answered := Confirm(placed, TempId(s), Stored(body, a));
            var list := Confirm(answered, TempId(s), Stored(body, b));
      list == [Shown(Text(a), body(a)), Shown(Text(a), body(a))] && !Has(list, Text(b))
  {
    hide Text, TempId;
    TempIsNotReal(s, a);
    TempIsNotReal(s, b);
    if Text(a) == Text(b) {
      TextInjective(a, b);
    }
    var placed := Place(Place([], Shown(TempId(s), "first")), Shown(TempId(s), "second"));
    var answered := Confirm(placed, TempId(s), Stored(body, a));
    assert answered == [Stored(body, a), Stored(body, a)];
  }

  // ---------------------------------------------------------------- confluence

  predicate Answers(e: Event, s: nat) {
    (e.Posted? || e.Failed?) && e.stamp == s
  }

  /** Every stamp is sent once, and every response answers, once, a send made before it. */
  ghost predicate Orderly(es: seq<Event>) {
    && (forall i, j | 0 <= i < j < |es| && es[i].Send? && es[j].Send? :: es[i].stamp != es[j].stamp)
    && (forall j | 0 <= j < |es| && (es[j].Posted? || es[j].Failed?) ::
          && (exists i :: 0 <= i < j && es[i].Send? && es[i].stamp == es[j].stamp)
          && (forall i | 0 <= i < j :: !Answers(es[i], es[j].stamp)))
  }

  /** Sent with this content, and not answered. */
  ghost predicate Waiting(es: seq<Event>, s: nat, c: string) {
    Send(s, c) in es && forall e <- es :: !Answers(e, s)
  }

  ghost predicate HeardOf(es: seq<Event>, u: Uuid) {
    exists e <- es :: e == Echo(u) || (e.Posted? && e.id == u)
  }

  /** What the view owes to the events alone, whatever their order. */
  ghost predicate Accounts(v: View, es: seq<Event>) {
    && (forall s, c :: (s in v.pending && v.pending[s] == c) <==> Waiting(es, s, c))
    && (forall u :: u in v.known <==> HeardOf(es, u))
  }

  lemma OrderlyPrefix(es: seq<Event>)
    requires Orderly(es) && es != []
    ensures Orderly(es[..|es| - 1])
  {
    var was := es[..|es| - 1];
    forall j | 0 <= j < |was| && (was[j].Posted? || was[j].Failed?)
      ensures exists i :: 0 <= i < j && was[i].Send? && was[i].stamp == was[j].stamp
    {
      var i :| 0 <= i < j && es[i].Send? && es[i].stamp == es[j].stamp;
      assert was[i] == es[i];
    }
  }

  lemma WaitingStep(was: seq<Event>, e: Event, s: nat, c: string)
    ensures Waiting(was + [e], s, c) <==> (Waiting(was, s, c) || (e == Send(s, c) && forall x <- was :: !Answers(x, s))) && !Answers(e, s)
  {
    var es := was + [e];
    assert forall x :: x in es <==> x in was || x == e;
  }

  lemma HeardStep(was: seq<Event>, e: Event, u: Uuid)
    ensures HeardOf(was + [e], u) <==> HeardOf(was, u) || e == Echo(u) || (e.Posted? && e.id == u)
  {
    var es := was + [e];
    assert forall x :: x in es <==> x in was || x == e;
  }

  /** The last event of an orderly run: a new stamp, or the first answer to an earlier send. */
  lemma LastIsOrderly(was: seq<Event>, e: Event)
    requires Orderly(was + [e])
    ensures e.Send? ==> forall x <- was :: !(x.Send? && x.stamp == e.stamp) && !Answers(x, e.stamp)
    ensures e.Posted? || e.Failed? ==> exists c :: Waiting(was, e.stamp, c)
  {
    var es, n := was + [e], |was|;
    assert es[n] == e;
    forall x <- was
      ensures e.Send? ==> !(x.Send? && x.stamp == e.stamp) && !Answers(x, e.stamp)
      ensures e.Posted? || e.Failed? ==> !Answers(x, e.stamp)
    {
      var i :| 0 <= i < n && was[i] == x;
      assert es[i] == x;
      if e.Send? && (x.Posted? || x.Failed?) {
        var k :| 0 <= k < i && es[k].Send? && es[k].stamp == es[i].stamp;
        assert es[k].stamp != es[n].stamp;
      }
    }
    if e.Posted? || e.Failed? {
      var i :| 0 <= i < n && es[i].Send? && es[i].stamp == es[n].stamp;
      assert was[i] == Send(e.stamp, was[i].content);
      assert Waiting(was, e.stamp, was[i].content);
    }
  }

  lemma {:induction false} OrderlyAccounts(body: Uuid -> string, es: seq<Event>)
    requires Orderly(es)
    ensures Accounts(Run(body, es), es) && Clean(body, es)
    decreases |es|
  {
    hide Apply, Accounts, Clean, Orderly;
    if es == [] {
      NothingAccounted(body);
    } else {
      var n := |es| - 1;
      var was, e := es[..n], es[n];
      var v, v' := Run(body, was), Run(body, es);
      assert es == was + [e];
      OrderlyPrefix(es);
      OrderlyAccounts(body, was);
      AccountsStep(v, body, was, e);
      CleanStep(body, was, e);
    }
  }

  lemma NothingAccounted(body: Uuid -> string)
    ensures Accounts(View([], map[], {}), []) && Clean(body, [])
  {
  }

  lemma CleanStep(body: Uuid -> string, was: seq<Event>, e: Event)
    requires Clean(body, was)
    requires e.Send? ==> e.stamp !in Run(body, was).pending
    ensures Clean(body, was + [e])
  {
    hide Run;
    var es := was + [e];
    assert forall k | 0 <= k <= |was| :: es[..k] == was[..k];
    assert was[..|was|] == was;
  }

  lemma AccountsStep(v: View, body: Uuid -> string, was: seq<Event>, e: Event)
    requires Accounts(v, was) && Orderly(was + [e])
    ensures Accounts(Apply(v, body, e), was + [e])
    ensures e.Send? ==> e.stamp !in v.pending
  {
    hide Place, Echoed, Drop, Confirm, TempId, Stored, Waiting, HeardOf, Orderly;
    LastIsOrderly(was, e);
    var v' := Apply(v, body, e);
    if e.Send? && e.stamp in v.pending {
      assert Waiting(was, e.stamp, v.pending[e.stamp]);
      WaitingWasSent(was, e.stamp, v.pending[e.stamp]);
    }
    forall s, c
      ensures (s in v'.pending && v'.pending[s] == c) <==> Waiting(was + [e], s, c)
    {
      assert (s in v.pending && v.pending[s] == c) <==> Waiting(was, s, c);
      WaitingStep(was, e, s, c);
    }
    forall u
      ensures u in v'.known <==> HeardOf(was + [e], u)
    {
      HeardStep(was, e, u);
    }
  }

  lemma WaitingWasSent(es: seq<Event>, s: nat, c: string)
    requires Waiting(es, s, c)
    ensures Send(s, c) in es
  {
  }

  /** The entry an orderly history of events calls for. */
  ghost predicate CalledFor(body: Uuid -> string, es: seq<Event>, m: Shown) {
    || (exists s, c :: Waiting(es, s, c) && m == Shown("opt-" + Decimal(s), c))
    || (exists u :: HeardOf(es, u) && m == Shown(Text(u), body(u)))
  }

  lemma InModelTerms(body: Uuid -> string, es: seq<Event>, m: Shown)
    ensures CalledFor(body, es, m) <==>
      || (exists s, c :: Waiting(es, s, c) && m == Shown(TempId(s), c))
      || (exists u :: HeardOf(es, u) && m == Stored(body, u))
  {
    hide Waiting, HeardOf, Decimal, Text;
  }

  /**
   The list of an orderly run: no id twice, and exactly one entry for every send still unanswered
   and for every message echoed or confirmed, with the content sent or stored.  In particular no
   placeholder outlives its response.
   */
  lemma ListOfRun(body: Uuid -> string, es: seq<Event>)
    requires Orderly(es)
    ensures DistinctIds(Run(body, es).extra)
    ensures forall m :: m in Run(body, es).extra <==> CalledFor(body, es, m)
  {
    hide Run, TempId, Stored, Waiting, HeardOf, Orderly, Clean, CalledFor;
    OrderlyAccounts(body, es);
    CleanRuns(body, es);
    var v := Run(body, es);
    forall m
      ensures Belongs(v, body, m) <==> CalledFor(body, es, m)
    {
      InModelTerms(body, es, m);
      if s :| s in v.pending && m == Shown(TempId(s), v.pending[s]) {
        assert Waiting(es, s, v.pending[s]);
      }
      if s, c :| Waiting(es, s, c) && m == Shown(TempId(s), c) {
        assert s in v.pending;
      }
      if u :| HeardOf(es, u) && m == Stored(body, u) {
        assert u in v.known;
      }
    }
  }

  lemma {:induction false} OnceEach(list: seq<Shown>, m: Shown)
    requires DistinctIds(list)
    ensures multiset(list)[m] == if m in list then 1 else 0
    decreases |list|
  {
    if list != [] {
      var rest := list[1..];
      assert list == [list[0]] + rest;
      assert forall i | 0 <= i < |rest| :: rest[i] == list[i + 1];
      OnceEach(rest, m);
    }
  }

  /** Two orderly runs over the same events, in any two orders, leave the same messages. */
  lemma Confluent(body: Uuid -> string, es: seq<Event>, fs: seq<Event>)
    requires Orderly(es) && Orderly(fs) && forall e :: e in es <==> e in fs
    ensures multiset(Run(body, es).extra) == multiset(Run(body, fs).extra)
  {
    hide Run, Orderly, TempId, Stored;
    ListOfRun(body, es);
    ListOfRun(body, fs);
    forall m
      ensures multiset(Run(body, es).extra)[m] == multiset(Run(body, fs).extra)[m]
    {
      OnceEach(Run(body, es).extra, m);
      OnceEach(Run(body, fs).extra, m);
      SameCalls(body, es, fs, m);
    }
  }

  lemma SameCalls(body: Uuid -> string, es: seq<Event>, fs: seq<Event>, m: Shown)
    requires forall e :: e in es <==> e in fs
    ensures CalledFor(body, es, m) <==> CalledFor(body, fs, m)
  {
    hide TempId, Stored;
    assert forall s, c :: Waiting(es, s, c) <==> Waiting(fs, s, c);
    assert forall u :: HeardOf(es, u) <==> HeardOf(fs, u);
  }

  /** A confirmation whose echo has not come yet keeps the message at the placeholder's place. */
  lemma ConfirmKeepsPlace(prev: seq<Shown>, i: nat, stored: Shown)
    requires DistinctIds(prev) && i < |prev| && !Has(prev, stored.id)
    ensures Confirm(prev, prev[i].id, stored) == prev[i := stored]
  {
    assert forall j | 0 <= j < |prev| && j != i :: prev[j].id != prev[i].id;
  }

  // ---------------------------------------------------------------- the merged list

  function Fresh(fetched: seq<Shown>, extra: seq<Shown>): seq<Shown> {
    if extra == [] then []
    else (if Has(fetched, extra[0].id) then [] else [extra[0]]) + Fresh(fetched, extra[1..])
  }

  /** allMessages. */
  function Merge(fetched: seq<Shown>, extra: seq<Shown>): seq<Shown> {
    fetched + Fresh(fetched, extra)
  }

  lemma {:induction false} FreshMember(fetched: seq<Shown>, extra: seq<Shown>, m: Shown)
    ensures m in Fresh(fetched, extra) <==> m in extra && !Has(fetched, m.id)
    decreases |extra|
  {
    hide Has;
    if extra != [] {
      assert extra == [extra[0]] + extra[1..];
      FreshMember(fetched, extra[1..], m);
    }
  }

  lemma {:induction false} FreshKeeps(fetched: seq<Shown>, extra: seq<Shown>)
    requires DistinctIds(extra)
    ensures DistinctIds(Fresh(fetched, extra))
    decreases |extra|
  {
    hide Has;
    if extra != [] {
      var rest := extra[1..];
      assert forall i | 0 <= i < |rest| :: rest[i] == extra[i + 1];
      FreshKeeps(fetched, rest);
      var tail := Fresh(fetched, rest);
      forall j | 0 <= j < |tail|
        ensures tail[j].id != extra[0].id
      {
        FreshMember(fetched, rest, tail[j]);
      }
    }
  }

  /** Merging loses no id and repeats none. */
  lemma MergeKeeps(fetched: seq<Shown>, extra: seq<Shown>)
    requires DistinctIds(fetched) && DistinctIds(extra)
    ensures DistinctIds(Merge(fetched, extra))
    ensures forall id :: Has(Merge(fetched, extra), id) <==> Has(fetched, id) || Has(extra, id)
    ensures Merge(fetched, extra)[..|fetched|] == fetched
    ensures forall m :: m in Merge(fetched, extra) <==> m in fetched || (m in extra && !Has(fetched, m.id))
  {
    FreshKeeps(fetched, extra);
    var added := Fresh(fetched, extra);
    var all := fetched + added;
    forall i, j | 0 <= i < j < |all|
      ensures all[i].id != all[j].id
    {
      if i < |fetched| <= j {
        FreshMember(fetched, extra, added[j - |fetched|]);
        assert fetched[i] in fetched;
      }
    }
    forall id
      ensures Has(all, id) <==> Has(fetched, id) || Has(extra, id)
    {
      MergedHas(fetched, extra, id);
    }
    forall m
      ensures m in all <==> m in fetched || (m in extra && !Has(fetched, m.id))
    {
      FreshMember(fetched, extra, m);
    }
  }

  lemma MergedHas(fetched: seq<Shown>, extra: seq<Shown>, id: string)
    ensures Has(Merge(fetched, extra), id) <==> Has(fetched, id) || Has(extra, id)
  {
    if Has(Merge(fetched, extra), id) {
      var m :| m in Merge(fetched, extra) && m.id == id;
      FreshMember(fetched, extra, m);
    }
    if Has(extra, id) && !Has(fetched, id) {
      var m :| m in extra && m.id == id;
      FreshMember(fetched, extra, m);
      assert m in Merge(fetched, extra);
    }
    if Has(fetched, id) {
      var m :| m in fetched && m.id == id;
      assert m in Merge(fetched, extra);
    }
  }
}
