/**
 ICE candidates in the web client's voice channel.  Handlers run up to an await and go on later; the
 steps here are the stretches between awaits, and any other step may come between two of them.
 */
module IceBuffering {
  import opened Prelude

  type User = string
  type Candidate = string
  type Peer = nat

  /** A handler of an offer or an answer, at an await. */
  datatype Task =
    | Setting(user: User, pc: Peer)
    | Applied(user: User, pc: Peer)
    | Flushing(user: User, pc: Peer, rest: seq<Candidate>)
    | Done

  /** A call of addIceCandidate; ready says whether the remote description was set at that moment. */
  datatype Handover = Handover(user: User, pc: Peer, candidate: Candidate, ready: bool)

  /**
   peers and pending are the component's two maps; described and closed say what became of each peer
   connection; received and discarded count candidates for the theorems.
   */
  datatype View = View(
    peers: map<User, Peer>,
    pending: map<User, seq<Candidate>>,
    made: nat,
    described: set<Peer>,
    closed: set<Peer>,
    tasks: seq<Task>,
    handed: seq<Handover>,
    received: map<User, multiset<Candidate>>,
    discarded: map<User, multiset<Candidate>>)

  datatype Event =
    | Open(user: User)
    | Offer(from: User)
    | Answer(from: User)
    | DescriptionSet(task: nat)
    | DescriptionFailed(task: nat)
    | Resume(task: nat)
    | HandNext(task: nat)
    | Arrive(from: User, candidate: Candidate)
    | Leave(user: User)
    | Cleanup

  const START: View := View(map[], map[], 0, {}, {}, [], [], map[], map[])

  function Buffer(pending: map<User, seq<Candidate>>, u: User): seq<Candidate> {
    if u in pending then pending[u] else []
  }

  function Tally(m: map<User, multiset<Candidate>>, u: User): multiset<Candidate> {
    if u in m then m[u] else multiset{}
  }

  /** makePeer. */
  function MakePeer(v: View, u: User): View {
    v.(peers := v.peers[u := v.made], made := v.made + 1)
  }

  function StartTask(v: View, u: User): View
    requires u in v.peers
  {
    v.(tasks := v.tasks + [Setting(u, v.peers[u])])
  }

  function Hand(v: View, u: User, pc: Peer, c: Candidate): View {
    v.(handed := v.handed + [Handover(u, pc, c, pc in v.described)])
  }

  /** addRemoteCandidate, up to its await. */
  function AddRemoteCandidate(v: View, u: User, c: Candidate): View {
    if u in v.peers && v.peers[u] in v.described then Hand(v, u, v.peers[u], c)
    else v.(pending := v.pending[u := Buffer(v.pending, u) + [c]])
  }

  /** removePeer. */
  function RemovePeer(v: View, u: User): View {
    v.(peers := v.peers - {u}, pending := v.pending - {u},
       closed := v.closed + (if u in v.peers then {v.peers[u]} else {}),
       discarded := v.discarded[u := Tally(v.discarded, u) + multiset(Buffer(v.pending, u))])
  }

  /** doCleanup. */
  function CleanUp(v: View): View {
    v.(peers := map[], pending := map[],
       closed := v.closed + (set u | u in v.peers :: v.peers[u]),
       discarded := map u | u in v.discarded.Keys + v.pending.Keys ::
                      Tally(v.discarded, u) + multiset(Buffer(v.pending, u)))
  }

  /** flushCandidates, up to its first await: the buffer becomes the handler's own. */
  function TakeBuffer(v: View, t: nat): View
    requires t < |v.tasks| && v.tasks[t].Applied?
  {
    var u, pc := v.tasks[t].user, v.tasks[t].pc;
    v.(pending := v.pending - {u}, tasks := v.tasks[t := Flushing(u, pc, Buffer(v.pending, u))])
  }

  /** One step; a step of no handler at that await does not happen. */
  function Apply(v: View, e: Event): View {
    match e
    case Open(u) => MakePeer(v, u)
    case Offer(u) => StartTask(if u in v.peers then v else MakePeer(v, u), u)
    case Answer(u) => if u in v.peers then StartTask(v, u) else v
    case DescriptionSet(t) =>
      if t < |v.tasks| && v.tasks[t].Setting? && v.tasks[t].pc !in v.closed then
        v.(described := v.described + {v.tasks[t].pc}, tasks := v.tasks[t := Applied(v.tasks[t].user, v.tasks[t].pc)])
      else v
    case DescriptionFailed(t) =>
      if t < |v.tasks| && v.tasks[t].Setting? then v.(tasks := v.tasks[t := Done]) else v
    case Resume(t) =>
      if t < |v.tasks| && v.tasks[t].Applied? then TakeBuffer(v, t) else v
    case HandNext(t) =>
      if t < |v.tasks| && v.tasks[t].Flushing? then
        var f := v.tasks[t];
        if f.rest == [] then v.(tasks := v.tasks[t := Done])
        else Hand(v.(tasks := v.tasks[t := f.(rest := f.rest[1..])]), f.user, f.pc, f.rest[0])
      else v
    case Arrive(u, c) =>
      AddRemoteCandidate(v.(received := v.received[u := Tally(v.received, u) + multiset{c}]), u, c)
    case Leave(u) => RemovePeer(v, u)
    case Cleanup => CleanUp(v)
  }

  function RunFrom(v: View, es: seq<Event>): View
    decreases |es|
  {
    if es == [] then v else RunFrom(Apply(v, es[0]), es[1..])
  }

  // ---------------------------------------------------------------- conservation

  /** How often a candidate was handed over as one of the user's. */
  function HandedOver(handed: seq<Handover>, u: User, c: Candidate): nat {
    if handed == [] then 0
    else
      var last := handed[|handed| - 1];
      HandedOver(handed[..|handed| - 1], u, c) + if last.user == u && last.candidate == c then 1 else 0
  }

  function Carried(t: Task, u: User, c: Candidate): nat {
    if t.Flushing? && t.user == u then multiset(t.rest)[c] else 0
  }

  /** How often handlers carry it between two hand-overs. */
  function MidFlush(tasks: seq<Task>, u: User, c: Candidate): nat {
    if tasks == [] then 0 else MidFlush(tasks[..|tasks| - 1], u, c) + Carried(tasks[|tasks| - 1], u, c)
  }

  function Buffered(pending: map<User, seq<Candidate>>, u: User, c: Candidate): nat {
    multiset(Buffer(pending, u))[c]
  }

  /** Every candidate received is handed over, buffered, carried by a handler, or discarded: once. */
  ghost predicate Conserved(v: View, u: User, c: Candidate) {
    Tally(v.received, u)[c]
      == HandedOver(v.handed, u, c) + Buffered(v.pending, u, c) + MidFlush(v.tasks, u, c) + Tally(v.discarded, u)[c]
  }

  lemma HandedAppend(handed: seq<Handover>, h: Handover, u: User, c: Candidate)
    ensures HandedOver(handed + [h], u, c)
         == HandedOver(handed, u, c) + if h.user == u && h.candidate == c then 1 else 0
  {
    assert (handed + [h])[..|handed + [h]| - 1] == handed;
  }

  lemma MidFlushAppend(tasks: seq<Task>, t: Task, u: User, c: Candidate)
    ensures MidFlush(tasks + [t], u, c) == MidFlush(tasks, u, c) + Carried(t, u, c)
  {
    assert (tasks + [t])[..|tasks + [t]| - 1] == tasks;
  }

  lemma {:induction false} MidFlushReplace(tasks: seq<Task>, i: nat, t: Task, u: User, c: Candidate)
    requires i < |tasks|
    ensures MidFlush(tasks[i := t], u, c) == MidFlush(tasks, u, c) + Carried(t, u, c) - Carried(tasks[i], u, c)
    decreases |tasks|
  {
    hide Carried;
    var n, changed := |tasks| - 1, tasks[i := t];
    if i == n {
      assert changed[..n] == tasks[..n];
    } else {
      assert changed[..n] == tasks[..n][i := t];
      MidFlushReplace(tasks[..n], i, t, u, c);
    }
  }

  lemma BufferGrows(pending: map<User, seq<Candidate>>, from: User, d: Candidate, u: User, c: Candidate)
    ensures Buffered(pending[from := Buffer(pending, from) + [d]], u, c)
         == Buffered(pending, u, c) + if u == from && c == d then 1 else 0
  {
  }

  lemma TallyGrows(m: map<User, multiset<Candidate>>, from: User, more: multiset<Candidate>, u: User, c: Candidate)
    ensures Tally(m[from := Tally(m, from) + more], u)[c] == Tally(m, u)[c] + if u == from then more[c] else 0
  {
  }

  lemma StartConserves(v: View, from: User, u: User, c: Candidate)
    requires Conserved(v, u, c) && from in v.peers
    ensures Conserved(StartTask(v, from), u, c)
  {
    hide Buffered, HandedOver, Tally, MidFlush;
    MidFlushAppend(v.tasks, Setting(from, v.peers[from]), u, c);
  }

  lemma TaskConserves(v: View, t: nat, task: Task, u: User, c: Candidate)
    requires Conserved(v, u, c) && t < |v.tasks|
    requires !task.Flushing? && (v.tasks[t].Flushing? ==> v.tasks[t].rest == [])
    ensures Conserved(v.(tasks := v.tasks[t := task]), u, c)
  {
    hide Buffered, HandedOver, Tally, MidFlush;
    MidFlushReplace(v.tasks, t, task, u, c);
  }

  lemma TakeConserves(v: View, t: nat, u: User, c: Candidate)
    requires Conserved(v, u, c) && t < |v.tasks| && v.tasks[t].Applied?
    ensures Conserved(TakeBuffer(v, t), u, c)
  {
    hide HandedOver, Tally, MidFlush;
    MidFlushReplace(v.tasks, t, TakeBuffer(v, t).tasks[t], u, c);
  }

  lemma HandNextConserves(v: View, t: nat, u: User, c: Candidate)
    requires Conserved(v, u, c) && t < |v.tasks| && v.tasks[t].Flushing? && v.tasks[t].rest != []
    ensures Conserved(Apply(v, HandNext(t)), u, c)
  {
    hide HandedOver, Tally, MidFlush, Buffered;
    var f := v.tasks[t];
    assert f.rest == [f.rest[0]] + f.rest[1..];
    MidFlushReplace(v.tasks, t, f.(rest := f.rest[1..]), u, c);
    HandedAppend(v.handed, Handover(f.user, f.pc, f.rest[0], f.pc in v.described), u, c);
  }

  lemma ArriveConserves(v: View, from: User, d: Candidate, u: User, c: Candidate)
    requires Conserved(v, u, c)
    ensures Conserved(Apply(v, Arrive(from, d)), u, c)
  {
    hide HandedOver, Tally, MidFlush, Buffered;
    TallyGrows(v.received, from, multiset{d}, u, c);
    BufferGrows(v.pending, from, d, u, c);
    if from in v.peers && v.peers[from] in v.described {
      HandedAppend(v.handed, Handover(from, v.peers[from], d, true), u, c);
    }
  }

  lemma LeaveConserves(v: View, gone: User, u: User, c: Candidate)
    requires Conserved(v, u, c)
    ensures Conserved(RemovePeer(v, gone), u, c)
  {
    hide HandedOver, Tally, MidFlush;
    TallyGrows(v.discarded, gone, multiset(Buffer(v.pending, gone)), u, c);
  }

  lemma CleanupConserves(v: View, u: User, c: Candidate)
    requires Conserved(v, u, c)
    ensures Conserved(CleanUp(v), u, c)
  {
    hide HandedOver, MidFlush;
    var w := CleanUp(v);
    assert Tally(w.discarded, u) == Tally(v.discarded, u) + multiset(Buffer(v.pending, u));
  }

  lemma ApplyConserves(v: View, e: Event, u: User, c: Candidate)
    requires Conserved(v, u, c)
    ensures Conserved(Apply(v, e), u, c)
  {
    hide HandedOver, MidFlush, Buffered, Tally, StartTask, TakeBuffer, RemovePeer, CleanUp, AddRemoteCandidate;
    match e
    case Open(_) =>
    case Offer(from) => StartConserves(if from in v.peers then v else MakePeer(v, from), from, u, c);
    case Answer(from) => if from in v.peers { StartConserves(v, from, u, c); }
    case DescriptionSet(t) =>
      if t < |v.tasks| && v.tasks[t].Setting? {
        TaskConserves(v, t, Applied(v.tasks[t].user, v.tasks[t].pc), u, c);
      }
    case DescriptionFailed(t) =>
      if t < |v.tasks| && v.tasks[t].Setting? { TaskConserves(v, t, Done, u, c); }
    case Resume(t) =>
      if t < |v.tasks| && v.tasks[t].Applied? { TakeConserves(v, t, u, c); }
    case HandNext(t) =>
      if t < |v.tasks| && v.tasks[t].Flushing? {
        if v.tasks[t].rest == [] { TaskConserves(v, t, Done, u, c); } else { HandNextConserves(v, t, u, c); }
      }
    case Arrive(from, d) => ArriveConserves(v, from, d, u, c);
    case Leave(gone) => LeaveConserves(v, gone, u, c);
    case Cleanup => CleanupConserves(v, u, c);
  }

  lemma {:induction false} RunConserves(v: View, es: seq<Event>, u: User, c: Candidate)
    requires Conserved(v, u, c)
    ensures Conserved(RunFrom(v, es), u, c)
    decreases |es|
  {
    hide Apply, Conserved;
    if es != [] {
      ApplyConserves(v, es[0], u, c);
      RunConserves(Apply(v, es[0]), es[1..], u, c);
    }
  }

  /** On every run, for every user, no candidate is lost and none is handed over twice. */
  lemma NothingLost(es: seq<Event>, u: User, c: Candidate)
    ensures var v := RunFrom(START, es);
      Tally(v.received, u)[c]
        == HandedOver(v.handed, u, c) + Buffered(v.pending, u, c) + MidFlush(v.tasks, u, c) + Tally(v.discarded, u)[c]
  {
    hide RunFrom;
    RunConserves(START, es, u, c);
  }

  // ---------------------------------------------------------------- never too early, never stranded

  /** A handler past its first await holds a peer connection whose description is set. */
  ghost predicate TaskOk(made: nat, described: set<Peer>, t: Task) {
    && (t.Done? || t.pc < made)
    && (t.Applied? || t.Flushing? ==> t.pc in described)
  }

  ghost predicate TasksOk(v: View) {
    forall t | 0 <= t < |v.tasks| :: TaskOk(v.made, v.described, v.tasks[t])
  }

  ghost predicate PeersOk(v: View) {
    && (forall pc <- v.described :: pc < v.made)
    && (forall u <- v.peers :: v.peers[u] < v.made)
  }

  ghost predicate AllReady(handed: seq<Handover>) {
    forall i | 0 <= i < |handed| :: handed[i].ready
  }

  /** A handler works for the user its peer connection was made for. */
  ghost predicate Owned(peers: map<User, Peer>, t: Task, u: User)
    requires u in peers
  {
    !t.Done? && peers[u] == t.pc ==> t.user == u
  }

  ghost predicate TasksOwned(v: View, u: User) {
    u in v.peers ==> forall t | 0 <= t < |v.tasks| :: Owned(v.peers, v.tasks[t], u)
  }

  /** Each peer connection was made for one user. */
  ghost predicate PeersDiffer(v: View) {
    forall u, w | u in v.peers && w in v.peers && v.peers[u] == v.peers[w] :: u == w
  }

  /** A buffer kept for a peer that is ready is about to be taken by the handler that made it ready. */
  ghost predicate NotStranded(v: View, u: User) {
    u in v.peers && v.peers[u] in v.described && Buffer(v.pending, u) != [] ==>
      exists t :: 0 <= t < |v.tasks| && v.tasks[t] == Applied(u, v.peers[u])
  }

  ghost predicate Sound(v: View) {
    TasksOk(v) && PeersOk(v) && AllReady(v.handed) && PeersDiffer(v) && forall u <- v.peers :: TasksOwned(v, u)
  }

  lemma MakeKeeps(v: View, x: User, u: User)
    requires Sound(v) && NotStranded(v, u)
    ensures Sound(MakePeer(v, x)) && NotStranded(MakePeer(v, x), u)
  {
    var w := MakePeer(v, x);
    forall y <- w.peers, t: nat | t < |w.tasks|
      ensures TaskOk(w.made, w.described, w.tasks[t]) && Owned(w.peers, w.tasks[t], y)
    {
      assert TaskOk(v.made, v.described, v.tasks[t]);
      if y in v.peers {
        assert TasksOwned(v, y);
        assert Owned(v.peers, v.tasks[t], y);
      }
    }
    assert x in w.peers;
  }

  lemma StartKeeps(v: View, x: User, u: User)
    requires Sound(v) && NotStranded(v, u) && x in v.peers
    ensures Sound(StartTask(v, x)) && NotStranded(StartTask(v, x), u)
  {
    var w, n := StartTask(v, x), |v.tasks|;
    forall t | 0 <= t < |w.tasks|
      ensures TaskOk(w.made, w.described, w.tasks[t])
    {
      assert t < n ==> TaskOk(v.made, v.described, v.tasks[t]);
    }
    forall y <- w.peers, t: nat | t < |w.tasks|
      ensures Owned(w.peers, w.tasks[t], y)
    {
      assert TasksOwned(v, y);
      assert t < n ==> Owned(v.peers, v.tasks[t], y);
    }
    if t :| 0 <= t < n && u in v.peers && v.tasks[t] == Applied(u, v.peers[u]) {
      assert w.tasks[t] == v.tasks[t];
    }
  }

  /** Moving one handler on, within its user and its peer connection. */
  lemma TaskKeeps(v: View, w: View, i: nat)
    requires Sound(v) && i < |v.tasks| && !v.tasks[i].Done?
    requires w.peers == v.peers && w.made == v.made && v.described <= w.described && w.described <= v.described + {v.tasks[i].pc}
    requires |w.tasks| == |v.tasks| && w.tasks == v.tasks[i := w.tasks[i]] && TaskOk(w.made, w.described, w.tasks[i])
    requires w.tasks[i].Done? || (w.tasks[i].user == v.tasks[i].user && w.tasks[i].pc == v.tasks[i].pc)
    requires AllReady(w.handed)
    ensures Sound(w)
  {
    forall t | 0 <= t < |w.tasks|
      ensures TaskOk(w.made, w.described, w.tasks[t])
    {
      assert TaskOk(v.made, v.described, v.tasks[t]);
    }
    assert TaskOk(v.made, v.described, v.tasks[i]);
    forall y <- w.peers, t: nat | t < |w.tasks|
      ensures Owned(w.peers, w.tasks[t], y)
    {
      assert TasksOwned(v, y);
      assert Owned(v.peers, v.tasks[t], y);
    }
  }

  lemma DescriptionKeeps(v: View, i: nat, u: User)
    requires Sound(v) && NotStranded(v, u) && i < |v.tasks| && v.tasks[i].Setting?
    ensures var w := v.(described := v.described + {v.tasks[i].pc}, tasks := v.tasks[i := Applied(v.tasks[i].user, v.tasks[i].pc)]);
      Sound(w) && NotStranded(w, u)
  {
    hide Sound;
    var w := v.(described := v.described + {v.tasks[i].pc}, tasks := v.tasks[i := Applied(v.tasks[i].user, v.tasks[i].pc)]);
    TaskFacts(v, i, u);
    TaskKeeps(v, w, i);
    if u in v.peers && v.peers[u] == v.tasks[i].pc {
      assert w.tasks[i] == Applied(u, v.peers[u]);
    }
    if t :| 0 <= t < |v.tasks| && u in v.peers && v.tasks[t] == Applied(u, v.peers[u]) {
      assert w.tasks[t] == v.tasks[t];
    }
  }

  lemma TaskFacts(v: View, i: nat, u: User)
    requires Sound(v) && i < |v.tasks|
    ensures TaskOk(v.made, v.described, v.tasks[i]) && AllReady(v.handed)
    ensures u in v.peers ==> Owned(v.peers, v.tasks[i], u)
  {
    if u in v.peers {
      assert TasksOwned(v, u);
    }
  }

  lemma DoneKeeps(v: View, i: nat, u: User)
    requires Sound(v) && NotStranded(v, u) && i < |v.tasks| && (v.tasks[i].Setting? || v.tasks[i].Flushing?)
    ensures Sound(v.(tasks := v.tasks[i := Done])) && NotStranded(v.(tasks := v.tasks[i := Done]), u)
  {
    hide Sound;
    var w := v.(tasks := v.tasks[i := Done]);
    TaskFacts(v, i, u);
    TaskKeeps(v, w, i);
    if t :| 0 <= t < |v.tasks| && u in v.peers && v.tasks[t] == Applied(u, v.peers[u]) {
      assert w.tasks[t] == v.tasks[t];
    }
  }

  lemma TakeKeeps(v: View, i: nat, u: User)
    requires Sound(v) && NotStranded(v, u) && i < |v.tasks| && v.tasks[i].Applied?
    ensures Sound(TakeBuffer(v, i)) && NotStranded(TakeBuffer(v, i), u)
  {
    hide Sound;
    var w := TakeBuffer(v, i);
    TaskFacts(v, i, u);
    TaskKeeps(v, w, i);
    if t :| 0 <= t < |v.tasks| && u in v.peers && v.tasks[t] == Applied(u, v.peers[u]) {
      assert t == i || w.tasks[t] == v.tasks[t];
    }
  }

  lemma HandNextKeeps(v: View, i: nat, u: User)
    requires Sound(v) && NotStranded(v, u) && i < |v.tasks| && v.tasks[i].Flushing? && v.tasks[i].rest != []
    ensures Sound(Apply(v, HandNext(i))) && NotStranded(Apply(v, HandNext(i)), u)
  {
    hide Sound;
    var w := Apply(v, HandNext(i));
    TaskFacts(v, i, u);
    TaskKeeps(v, w, i);
    if t :| 0 <= t < |v.tasks| && u in v.peers && v.tasks[t] == Applied(u, v.peers[u]) {
      assert w.tasks[t] == v.tasks[t];
    }
  }

  /** A step that starts no handler, makes no peer connection and describes none. */
  lemma FewerPeersKeep(v: View, w: View)
    requires Sound(v) && w.tasks == v.tasks && w.made == v.made && w.described == v.described
    requires forall x <- w.peers :: x in v.peers && w.peers[x] == v.peers[x]
    requires AllReady(w.handed)
    ensures Sound(w)
  {
    forall y <- w.peers, t: nat | t < |w.tasks|
      ensures Owned(w.peers, w.tasks[t], y)
    {
      assert TasksOwned(v, y);
      assert Owned(v.peers, v.tasks[t], y);
    }
  }

  lemma HandedAreReady(v: View)
    requires Sound(v)
    ensures AllReady(v.handed)
  {
  }

  lemma ApplyKeeps(v: View, e: Event, u: User)
    requires Sound(v) && NotStranded(v, u)
    ensures Sound(Apply(v, e)) && NotStranded(Apply(v, e), u)
  {
    hide Sound, NotStranded, StartTask, TakeBuffer, MakePeer, AddRemoteCandidate, RemovePeer, CleanUp;
    match e
    case Open(x) => MakeKeeps(v, x, u);
    case Offer(x) =>
      MakeKeeps(v, x, u);
      MadeIsThere(v, x);
      StartKeeps(if x in v.peers then v else MakePeer(v, x), x, u);
    case Answer(x) => if x in v.peers { StartKeeps(v, x, u); }
    case DescriptionSet(t) => if t < |v.tasks| && v.tasks[t].Setting? { DescriptionKeeps(v, t, u); }
    case DescriptionFailed(t) => if t < |v.tasks| && v.tasks[t].Setting? { DoneKeeps(v, t, u); }
    case Resume(t) => if t < |v.tasks| && v.tasks[t].Applied? { TakeKeeps(v, t, u); }
    case HandNext(t) =>
      if t < |v.tasks| && v.tasks[t].Flushing? {
        if v.tasks[t].rest == [] { DoneKeeps(v, t, u); } else { HandNextKeeps(v, t, u); }
      }
    case Arrive(x, c) => ArriveKeeps(v, x, c, u);
    case Leave(x) => LeaveKeeps(v, x, u);
    case Cleanup => CleanupKeeps(v, u);
  }

  lemma MadeIsThere(v: View, x: User)
    ensures x in MakePeer(v, x).peers
  {
  }

  lemma ArriveKeeps(v: View, x: User, c: Candidate, u: User)
    requires Sound(v) && NotStranded(v, u)
    ensures Sound(Apply(v, Arrive(x, c))) && NotStranded(Apply(v, Arrive(x, c)), u)
  {
    hide Sound, Tally;
    HandedAreReady(v);
    FewerPeersKeep(v, Apply(v, Arrive(x, c)));
  }

  lemma LeaveKeeps(v: View, x: User, u: User)
    requires Sound(v) && NotStranded(v, u)
    ensures Sound(RemovePeer(v, x)) && NotStranded(RemovePeer(v, x), u)
  {
    hide Sound, Tally;
    HandedAreReady(v);
    FewerPeersKeep(v, RemovePeer(v, x));
  }

  lemma CleanupKeeps(v: View, u: User)
    requires Sound(v)
    ensures Sound(CleanUp(v)) && NotStranded(CleanUp(v), u)
  {
    hide Sound, Tally;
    HandedAreReady(v);
    FewerPeersKeep(v, CleanUp(v));
  }

  lemma {:induction false} RunKeeps(v: View, es: seq<Event>, u: User)
    requires Sound(v) && NotStranded(v, u)
    ensures Sound(RunFrom(v, es)) && NotStranded(RunFrom(v, es), u)
    decreases |es|
  {
    hide Apply, Sound, NotStranded;
    if es != [] {
      ApplyKeeps(v, es[0], u);
      RunKeeps(Apply(v, es[0]), es[1..], u);
    }
  }

  /**
   On every run no candidate is handed to a peer connection before its remote description is set, and
   none stays buffered for a connection that is ready, except until the handler that made it ready
   goes on.
   */
  lemma NeverTooEarlyNorStranded(es: seq<Event>, u: User)
    ensures var v := RunFrom(START, es);
      && (forall i | 0 <= i < |v.handed| :: v.handed[i].ready)
      && (u in v.peers && v.peers[u] in v.described && Buffer(v.pending, u) != [] ==>
            exists t :: 0 <= t < |v.tasks| && v.tasks[t] == Applied(u, v.peers[u]))
  {
    hide RunFrom;
    RunKeeps(START, es, u);
  }

  /** The hand-overs of a buffer, in its order. */
  function HandoversOf(u: User, pc: Peer, buf: seq<Candidate>, ready: bool): seq<Handover> {
    if buf == [] then [] else [Handover(u, pc, buf[0], ready)] + HandoversOf(u, pc, buf[1..], ready)
  }

  lemma {:induction false} HandsOn(v: View, t: nat)
    requires t < |v.tasks| && v.tasks[t].Flushing?
    ensures var f := v.tasks[t]; var w := RunFrom(v, seq(|f.rest| + 1, _ => HandNext(t)));
      && w.handed == v.handed + HandoversOf(f.user, f.pc, f.rest, f.pc in v.described)
      && w.tasks == v.tasks[t := Done] && w.peers == v.peers && w.pending == v.pending && w.described == v.described
    decreases |v.tasks[t].rest|
  {
    var f := v.tasks[t];
    var es := seq(|f.rest| + 1, _ => HandNext(t));
    var w := Apply(v, HandNext(t));
    assert es[1..] == seq(|f.rest|, _ => HandNext(t));
    if f.rest == [] {
      assert es[1..] == [] && RunFrom(w, []) == w;
      assert v.handed + [] == v.handed;
    } else {
      HandsOn(w, t);
      assert w.tasks[t := Done] == v.tasks[t := Done];
      assert v.handed + HandoversOf(f.user, f.pc, f.rest, f.pc in v.described)
          == w.handed + HandoversOf(f.user, f.pc, f.rest[1..], f.pc in v.described);
    }
  }

  /** A handler that goes on undisturbed takes the whole buffer, hands it over in order, and ends. */
  lemma FlushesAll(v: View, t: nat)
    requires t < |v.tasks| && v.tasks[t].Applied?
    ensures var u, pc := v.tasks[t].user, v.tasks[t].pc;
            var buf := Buffer(v.pending, u);
            var w := RunFrom(v, [Resume(t)] + seq(|buf| + 1, _ => HandNext(t)));
      && w.handed == v.handed + HandoversOf(u, pc, buf, pc in v.described)
      && w.tasks == v.tasks[t := Done] && w.peers == v.peers && w.pending == v.pending - {u} && w.described == v.described
  {
    var buf := Buffer(v.pending, v.tasks[t].user);
    var w := Apply(v, Resume(t));
    HandsOn(w, t);
    assert ([Resume(t)] + seq(|buf| + 1, _ => HandNext(t)))[1..] == seq(|buf| + 1, _ => HandNext(t));
  }

  /**
   An offer or an answer whose description is set on an open connection: the connection is ready, and a
   handler that goes on undisturbed hands it the user's whole buffer, in order, each candidate once.
   */
  lemma SignalFlushes(v: View, u: User, offer: bool)
    requires offer || u in v.peers
    requires u in v.peers ==> v.peers[u] !in v.closed
    requires u !in v.peers ==> v.made !in v.closed
    ensures var t, buf := |v.tasks|, Buffer(v.pending, u);
            var pc := if u in v.peers then v.peers[u] else v.made;
            var first := if offer then Offer(u) else Answer(u);
            var w := RunFrom(v, [first, DescriptionSet(t)] + ([Resume(t)] + seq(|buf| + 1, _ => HandNext(t))));
      && u in w.peers && w.peers[u] == pc && pc in w.described
      && w.handed == v.handed + HandoversOf(u, pc, buf, true) && w.pending == v.pending - {u}
      && w.tasks == v.tasks + [Done]
  {
    hide TakeBuffer;
    var t, buf := |v.tasks|, Buffer(v.pending, u);
    var first := if offer then Offer(u) else Answer(u);
    var rest := [Resume(t)] + seq(|buf| + 1, _ => HandNext(t));
    var v1 := Apply(v, first);
    var v2 := Apply(v1, DescriptionSet(t));
    assert v2.tasks[t].Applied? && v2.tasks[t].user == u;
    hide HandoversOf;
    FlushesAll(v2, t);
    assert ([first, DescriptionSet(t)] + rest)[1..] == [DescriptionSet(t)] + rest;
    assert ([DescriptionSet(t)] + rest)[1..] == rest;
    assert RunFrom(v, [first, DescriptionSet(t)] + rest) == RunFrom(v1, [DescriptionSet(t)] + rest) == RunFrom(v2, rest);
    assert v2.tasks[t := Done] == v.tasks + [Done];
  }

  /** A call opens a new connection for a user; a description that is refused ends its handler and nothing else. */
  lemma OpensAndFails(v: View, u: User, t: nat)
    ensures Apply(v, Open(u)) == v.(peers := v.peers[u := v.made], made := v.made + 1)
    ensures Apply(v, DescriptionFailed(t)) == if t < |v.tasks| && v.tasks[t].Setting? then v.(tasks := v.tasks[t := Done]) else v
  {
  }

  /** A connection closed before its description was set never gets one. */
  lemma {:induction false} ClosedIsFinal(v: View, es: seq<Event>, pc: Peer)
    requires pc in v.closed && pc !in v.described
    ensures pc in RunFrom(v, es).closed && pc !in RunFrom(v, es).described
    decreases |es|
  {
    hide Tally, Buffer;
    if es != [] {
      ClosedIsFinal(Apply(v, es[0]), es[1..], pc);
    }
  }
}

/** The component's handlers over its two maps, one stretch between awaits at a time. */
module VoiceChannel {
  import opened IceBuffering

  class VoiceChannelView {
    var peers: map<User, Peer>
    var pending: map<User, seq<Candidate>>
    var made: nat
    var described: set<Peer>
    var closed: set<Peer>
    ghost var tasks: seq<Task>
    ghost var handed: seq<Handover>
    ghost var received: map<User, multiset<Candidate>>
    ghost var discarded: map<User, multiset<Candidate>>

    constructor ()
      ensures State() == START
    {
      peers, pending, made, described, closed := map[], map[], 0, {}, {};
      tasks, handed, received, discarded := [], [], map[], map[];
    }

    ghost function State(): View
      reads this
    {
      View(peers, pending, made, described, closed, tasks, handed, received, discarded)
    }

    /** A second connection for the same user takes the first one's place in the map, unclosed. */
    method MakePeer(user: User) returns (pc: Peer)
      modifies this`peers, this`made
      ensures State() == IceBuffering.MakePeer(old(State()), user)
      ensures pc == old(made) && made == old(made) + 1 && peers == old(peers)[user := pc]
    {
      pc := made;
      peers := peers[user := pc];
      made := made + 1;
    }

    /** An incoming candidate: straight on if the peer is ready, else to the end of the buffer. */
    method AddRemoteCandidate(user: User, candidate: Candidate)
      modifies this`pending, this`handed, this`received
      ensures State() == Apply(old(State()), Arrive(user, candidate))
      ensures user in peers && peers[user] in described ==>
        pending == old(pending) && handed == old(handed) + [Handover(user, peers[user], candidate, true)]
      ensures user !in peers || peers[user] !in described ==>
        && handed == old(handed)
        && pending == old(pending)[user := (if user in old(pending) then old(pending)[user] else []) + [candidate]]
    {
      hide Tally;
      received := received[user := Tally(received, user) + multiset{candidate}];
      if user in peers && peers[user] in described {
        handed := handed + [Handover(user, peers[user], candidate, true)];
      } else {
        var buf := if user in pending then pending[user] else [];
        buf := buf + [candidate];
        pending := pending[user := buf];
      }
    }

    method RemovePeer(user: User)
      modifies this`peers, this`pending, this`closed, this`discarded
      ensures State() == IceBuffering.RemovePeer(old(State()), user)
      ensures peers == old(peers) - {user} && pending == old(pending) - {user}
      ensures closed == old(closed) + if user in old(peers) then {old(peers)[user]} else {}
    {
      hide Tally, Buffer;
      discarded := discarded[user := Tally(discarded, user) + multiset(Buffer(pending, user))];
      closed := closed + if user in peers then {peers[user]} else {};
      peers := peers - {user};
      pending := pending - {user};
    }

    /** flushCandidates with nothing between its awaits: the buffer, in order, to the given connection. */
    method FlushCandidates(user: User, pc: Peer)
      modifies this`pending, this`handed
      ensures user !in pending && forall u :: u != user ==> Buffer(pending, u) == Buffer(old(pending), u)
      ensures |handed| == |old(handed)| + |Buffer(old(pending), user)| && handed[..|old(handed)|] == old(handed)
      ensures forall k | |old(handed)| <= k < |handed| ::
                handed[k] == Handover(user, pc, Buffer(old(pending), user)[k - |old(handed)|], pc in described)
    {
      if user !in pending {
        return;
      }
      var buf := pending[user];
      pending := pending - {user};
      for i := 0 to |buf|
        invariant pending == old(pending) - {user} && |handed| == |old(handed)| + i
        invariant handed[..|old(handed)|] == old(handed)
        invariant forall k | |old(handed)| <= k < |handed| ::
                    handed[k] == Handover(user, pc, buf[k - |old(handed)|], pc in described)
      {
        handed := handed + [Handover(user, pc, buf[i], pc in described)];
      }
    }

    method DoCleanup()
      modifies this`peers, this`pending, this`closed, this`discarded
      ensures State() == CleanUp(old(State()))
      ensures peers == map[] && pending == map[]
      ensures closed == old(closed) + set u | u in old(peers) :: old(peers)[u]
    {
      hide Tally, Buffer;
      discarded := map u | u in discarded.Keys + pending.Keys ::
        Tally(discarded, u) + multiset(Buffer(pending, u));
      closed := closed + (set u | u in peers :: peers[u]);
      peers := map[];
      pending := map[];
    }
  }
}
