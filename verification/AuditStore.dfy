/** The audit store: append, seed, verify and the consumer loop, over the table they write. */
module AuditStore {
  import opened AuditChain
  import opened AuditEvents
  import opened GoValues
  import opened HashChain
  import opened Json
  import opened Numbers
  import opened Prelude
  import UuidColumn

  /** What the store relies on: reading a number as a float64, and the hash. */
  datatype Setup = Setup(round: Rounding, hash: HashFn)

  datatype State = State(table: seq<Row>, nextSeq: nat, lastHash: string)

  function TableHash(table: seq<Row>): string {
    if table == [] then "" else table[|table| - 1].hash
  }

  /** seed: the head of the chain is read back from the table. */
  function Seeded(st: State): State {
    st.(lastHash := TableHash(st.table))
  }

  /** The row an append tries to insert. */
  function NewRow(su: Setup, st: State, ev: Event): Option<Row> {
    MakeRow(st.nextSeq, ev, st.lastHash, su.hash(CanonicalText(ev, st.lastHash)))
  }

  /** The INSERT goes through: every column accepts its value, the id is new, the database answers. */
  predicate Inserts(su: Setup, st: State, ev: Event, dbOk: bool) {
    var row := NewRow(su, st, ev);
    dbOk && row.Some? && forall r <- st.table :: r.eventId != row.value.eventId
  }

  /** append: a failed INSERT leaves no row but uses up a sequence number. */
  function Appended(su: Setup, st: State, ev: Event, dbOk: bool): State {
    if Inserts(su, st, ev, dbOk)
    then State(st.table + [NewRow(su, st, ev).value], st.nextSeq + 1, su.hash(CanonicalText(ev, st.lastHash)))
    else st.(nextSeq := st.nextSeq + 1)
  }

  /** A Kafka message that does not parse, or the event it carries, with its numbers as they were sent. */
  datatype Message = Malformed | Carries(event: Event)

  predicate ValidEvent(ev: Event) {
    ev.eventId != "" && ev.eventType != "" && ev.timestamp != "" && ev.outcome != ""
  }

  /** A consumed message, with whether the database answers, or a restart of the service. */
  datatype Step = Consume(message: Message, dbOk: bool) | Restart

  function Apply(su: Setup, st: State, s: Step): State {
    match s
    case Restart => Seeded(st)
    case Consume(Malformed, _) => st
    case Consume(Carries(ev), dbOk) => if ValidEvent(ev) then Appended(su, st, Decoded(ev, su.round), dbOk) else st
  }

  function RunFrom(su: Setup, st: State, steps: seq<Step>): State
    decreases |steps|
  {
    if steps == [] then st else RunFrom(su, Apply(su, st, steps[0]), steps[1..])
  }

  const EMPTY: State := State([], 1, "")

  // ---------------------------------------------------------------- what a run leaves behind

  /** The valid event a step offers to the store, if any. */
  function Offer(s: Step): seq<Event> {
    match s
    case Consume(Carries(ev), _) => if ValidEvent(ev) then [ev] else []
    case _ => []
  }

  /** The event a step adds to the table, if any, as it was sent. */
  function TakenIn(su: Setup, st: State, s: Step): seq<Event> {
    if Offer(s) != [] && Inserts(su, st, Decoded(Offer(s)[0], su.round), s.dbOk) then Offer(s) else []
  }

  /** The valid events in the messages consumed, in order. */
  function Offered(steps: seq<Step>): seq<Event> {
    if steps == [] then [] else Offer(steps[0]) + Offered(steps[1..])
  }

  /** Events as json.Unmarshal reads them. */
  function AllDecoded(events: seq<Event>, round: Rounding): (r: seq<Event>)
    ensures |r| == |events| && forall i | 0 <= i < |events| :: r[i] == Decoded(events[i], round)
  {
    seq(|events|, i requires 0 <= i < |events| => Decoded(events[i], round))
  }

  /** The consumed events that made it into the table, in order, as they were sent. */
  function Persisted(su: Setup, st: State, steps: seq<Step>): seq<Event>
    decreases |steps|
  {
    if steps == [] then [] else TakenIn(su, st, steps[0]) + Persisted(su, Apply(su, st, steps[0]), steps[1..])
  }

  /** An INSERT goes through for a new id that is a UUID, if no string holds a NUL and the database answers. */
  lemma InsertsIff(su: Setup, st: State, ev: Event, dbOk: bool)
    ensures Inserts(su, st, ev, dbOk) <==>
      && dbOk && (forall s <- EventStrings(ev) :: '\0' !in s) && UuidColumn.Normalized(ev.eventId).Some?
      && forall r <- st.table :: Some(r.eventId) != UuidColumn.Normalized(ev.eventId)
  {
    hide CanonicalText, NulFreeEvent, UuidColumn.Normalized, ScanRow, MakeRow, EventStrings;
    NulFreeEventIff(ev);
    var hash := su.hash(CanonicalText(ev, st.lastHash));
    ScanUndoesInsert(st.nextSeq, ev, st.lastHash, hash, su.round);
    RowFields(st.nextSeq, ev, st.lastHash, hash);
  }

  lemma RowFields(seqNo: nat, ev: Event, prev: string, hash: string)
    ensures var row := MakeRow(seqNo, ev, prev, hash);
      row.Some? ==>
        && Some(row.value.eventId) == UuidColumn.Normalized(ev.eventId)
        && row.value.seqNo == seqNo && row.value.hash == hash
  {
    hide Jsonb, UuidColumn.Normalized;
  }

  ghost predicate Subsequence<T>(a: seq<T>, b: seq<T>) {
    a == [] || (b != [] && (Subsequence(a, b[1..]) || (a[0] == b[0] && Subsequence(a[1..], b[1..]))))
  }

  lemma SubsequenceExtends<T>(x: seq<T>, a: seq<T>, y: seq<T>, b: seq<T>)
    requires Subsequence(a, b) && |y| <= 1 && (x == [] || x == y)
    ensures Subsequence(x + a, y + b)
  {
    if y == [] {
      assert x + a == a && y + b == b;
    } else {
      assert (y + b)[1..] == b;
      if x == [] {
        assert x + a == a;
      } else {
        assert (x + a)[1..] == a;
      }
    }
  }

  lemma {:induction false} PersistedInOrder(su: Setup, st: State, steps: seq<Step>)
    ensures Subsequence(Persisted(su, st, steps), Offered(steps))
    decreases |steps|
  {
    if steps != [] {
      var st' := Apply(su, st, steps[0]);
      PersistedInOrder(su, st', steps[1..]);
      SubsequenceExtends(TakenIn(su, st, steps[0]), Persisted(su, st', steps[1..]), Offer(steps[0]), Offered(steps[1..]));
    }
  }

  /** Row i is what inserting event i wrote, chained to the row before it. */
  ghost predicate RowOk(su: Setup, table: seq<Row>, events: seq<Event>, i: nat)
    requires i < |table| && i < |events|
  {
    var prev := TableHash(table[..i]);
    && MakeRow(table[i].seqNo, events[i], prev, su.hash(CanonicalText(events[i], prev))) == Some(table[i])
  }

  ghost predicate Written(su: Setup, st: State, events: seq<Event>) {
    && |st.table| == |events|
    && (forall i | 0 <= i < |events| :: Floats(events[i], su.round))
    && st.lastHash == TableHash(st.table)
    && (forall i | 0 <= i < |events| :: RowOk(su, st.table, events, i))
    && (forall i | 0 <= i < |events| :: st.table[i].seqNo < st.nextSeq)
    && (forall i, j | 0 <= i < j < |events| :: st.table[i].seqNo < st.table[j].seqNo)
    && (forall i, j | 0 <= i < j < |events| :: st.table[i].eventId != st.table[j].eventId)
  }

  lemma AppendedWritten(su: Setup, st: State, events: seq<Event>, ev: Event, dbOk: bool)
    requires Written(su, st, events) && Floats(ev, su.round)
    ensures Written(su, Appended(su, st, ev, dbOk), if Inserts(su, st, ev, dbOk) then events + [ev] else events)
  {
    hide CanonicalText, Jsonb, Floats, MakeRow, UuidColumn.Normalized;
    RowFields(st.nextSeq, ev, st.lastHash, su.hash(CanonicalText(ev, st.lastHash)));
    if Inserts(su, st, ev, dbOk) {
      var row := NewRow(su, st, ev).value;
      var table := st.table + [row];
      forall i | 0 <= i < |table|
        ensures RowOk(su, table, events + [ev], i)
      {
        if i < |events| {
          assert RowOk(su, st.table, events, i);
          assert table[..i] == st.table[..i];
        } else {
          assert table[..i] == st.table;
        }
      }
    }
  }

  lemma ApplyWritten(su: Setup, st: State, events: seq<Event>, s: Step)
    requires Written(su, st, events) && Rounds(su.round)
    ensures Written(su, Apply(su, st, s), events + AllDecoded(TakenIn(su, st, s), su.round))
  {
    hide Appended, Inserts, Decoded, AllDecoded, Floats;
    if Offer(s) != [] {
      var ev := Decoded(s.message.event, su.round);
      DecodedFloats(s.message.event, su.round);
      AppendedWritten(su, st, events, ev, s.dbOk);
      assert AllDecoded([s.message.event], su.round) == [ev];
    }
    assert AllDecoded([], su.round) == [] && events + [] == events;
  }

  lemma {:induction false} RunWritten(su: Setup, st: State, events: seq<Event>, steps: seq<Step>)
    requires Written(su, st, events) && Rounds(su.round)
    ensures Written(su, RunFrom(su, st, steps), events + AllDecoded(Persisted(su, st, steps), su.round))
    decreases |steps|
  {
    hide Apply, TakenIn, Written, Decoded;
    if steps == [] {
      assert AllDecoded([], su.round) == [] && events + [] == events;
    } else {
      var st' := Apply(su, st, steps[0]);
      var added, more := AllDecoded(TakenIn(su, st, steps[0]), su.round), AllDecoded(Persisted(su, st', steps[1..]), su.round);
      ApplyWritten(su, st, events, steps[0]);
      RunWritten(su, st', events + added, steps[1..]);
      assert AllDecoded(Persisted(su, st, steps), su.round) == added + more;
      assert events + added + more == events + (added + more);
    }
  }

  /** The log as verify reads it. */
  function Log(table: seq<Row>, round: Rounding): (log: seq<Stored>)
    ensures |log| == |table| && forall i | 0 <= i < |table| :: log[i] == ScanRow(table[i], round)
  {
    seq(|table|, i requires 0 <= i < |table| => ScanRow(table[i], round))
  }

  /** The texts append hashed for the rows of a table. */
  ghost function AppendTexts(table: seq<Row>, events: seq<Event>): set<string>
    requires |events| == |table|
  {
    set i | 0 <= i < |table| :: CanonicalText(events[i], TableHash(table[..i]))
  }

  lemma RowScans(su: Setup, table: seq<Row>, events: seq<Event>, i: nat)
    requires i < |table| && |events| == |table| && RowOk(su, table, events, i)
    ensures var prev := TableHash(table[..i]);
      && UuidColumn.Normalized(events[i].eventId).Some?
      && ScanRow(table[i], su.round) == Stored(table[i].seqNo, Settled(events[i], su.round), prev, su.hash(CanonicalText(events[i], prev)))
  {
    var prev := TableHash(table[..i]);
    ScanUndoesInsert(table[i].seqNo, events[i], prev, su.hash(CanonicalText(events[i], prev)), su.round);
  }

  lemma LinkText(s: Stored)
    ensures LinkOf(s) == Link(CanonicalText(s.event, s.prevHash), s.prevHash, s.hash)
  {
  }

  /** A row verifies if and only if its event survived the columns, or its old and new texts collide. */
  lemma RowVerifies(su: Setup, table: seq<Row>, events: seq<Event>, i: nat)
    requires |events| == |table| && i < |table| && Rounds(su.round) && Floats(events[i], su.round)
    requires forall k | 0 <= k < |table| :: RowOk(su, table, events, k)
    ensures (LinkOk(su.hash, Links(Log(table, su.round)), i) <==> Survives(events[i]))
         || Collides(su.hash, Hashed(Log(table, su.round)) + AppendTexts(table, events))
  {
    hide CanonicalText, ScanRow, Settled, Survives, MakeRow, RowOk, LinkOf, Floats, UuidColumn.Normalized;
    var prev := TableHash(table[..i]);
    var links := Links(Log(table, su.round));
    RowScans(su, table, events, i);
    var se := Log(table, su.round)[i];
    LinkText(se);
    assert links[i] == LinkOf(se);
    assert links[i].text == CanonicalText(Settled(events[i], su.round), prev);
    if i > 0 {
      LinkText(Log(table, su.round)[i - 1]);
      assert links[i - 1] == LinkOf(Log(table, su.round)[i - 1]);
    }
    assert links[i].prevHash == Head(links, i);
    CanonicalTextSurvives(events[i], prev, su.round);
    assert links[i].text in Hashed(Log(table, su.round));
    assert CanonicalText(events[i], prev) in AppendTexts(table, events);
  }

  /** A written table verifies if and only if every event survived the columns. */
  lemma TableVerifies(su: Setup, table: seq<Row>, events: seq<Event>)
    requires |events| == |table| && Rounds(su.round)
    requires forall k | 0 <= k < |table| :: RowOk(su, table, events, k) && Floats(events[k], su.round)
    ensures (ChainOk(su.hash, Log(table, su.round)) <==> forall i | 0 <= i < |events| :: Survives(events[i]))
         || Collides(su.hash, Hashed(Log(table, su.round)) + AppendTexts(table, events))
  {
    hide CanonicalText, ScanRow, Survives, RowOk, Collides, Hashed, AppendTexts, LinkOk, Floats;
    if !Collides(su.hash, Hashed(Log(table, su.round)) + AppendTexts(table, events)) {
      forall i | 0 <= i < |events|
        ensures LinkOk(su.hash, Links(Log(table, su.round)), i) <==> Survives(events[i])
      {
        RowVerifies(su, table, events, i);
      }
      assert |Links(Log(table, su.round))| == |events|;
    }
  }

  lemma TableHolds(su: Setup, st: State, events: seq<Event>)
    requires Written(su, st, events)
    ensures forall i | 0 <= i < |events| :: UuidColumn.Normalized(events[i].eventId).Some?
    ensures forall i | 0 <= i < |events| :: Log(st.table, su.round)[i].event == Settled(events[i], su.round)
    ensures forall i, j | 0 <= i < j < |events| :: Log(st.table, su.round)[i].event.eventId != Log(st.table, su.round)[j].event.eventId
  {
    hide CanonicalText, ScanActor, ScanResource, ScanMetadata, MakeRow, Floats, UuidColumn.Normalized;
    forall i | 0 <= i < |events|
      ensures UuidColumn.Normalized(events[i].eventId).Some? && Log(st.table, su.round)[i].event == Settled(events[i], su.round)
    {
      RowScans(su, st.table, events, i);
    }
  }

  /**
   Every run of appends, failed inserts, duplicates and restarts: lastHash is the head of the table; the
   table holds, in order, the events of some of the valid messages, each read back with the type, time,
   actor, resource, outcome and metadata it was sent with and a normalized id, no id twice; and verify
   accepts it if and only if each of their ids is written in lower case as 8-4-4-4-12 and no number in
   their metadata is a negative zero.
   */
  lemma RunVerifies(su: Setup, steps: seq<Step>)
    requires Rounds(su.round)
    ensures var st := RunFrom(su, EMPTY, steps);
            var sent := Persisted(su, EMPTY, steps);
            var log, read := Log(st.table, su.round), AllDecoded(sent, su.round);
      && st.lastHash == TableHash(st.table)
      && |log| == |sent|
      && Subsequence(sent, Offered(steps))
      && (forall i | 0 <= i < |sent| :: SentAs(sent[i], log[i].event, su.round))
      && (forall i, j | 0 <= i < j < |sent| :: log[i].event.eventId != log[j].event.eventId)
      && ((ChainOk(su.hash, log) <==> forall i | 0 <= i < |sent| :: Survives(read[i]))
          || Collides(su.hash, Hashed(log) + AppendTexts(st.table, read)))
  {
    hide CanonicalText, ScanRow, Settled, Written, Survives, RunFrom, Persisted, Offered, Collides, Hashed, AppendTexts, ChainOk,
      UuidColumn.Normalized, Decoded, SentAs, Subsequence;
    NothingWritten(su);
    var st := RunFrom(su, EMPTY, steps);
    var sent := Persisted(su, EMPTY, steps);
    var read := AllDecoded(sent, su.round);
    assert [] + read == read;
    RunWritten(su, EMPTY, [], steps);
    PersistedInOrder(su, EMPTY, steps);
    RowsAsSent(su, st, sent);
    WrittenVerifies(su, st, read);
  }

  lemma RowsAsSent(su: Setup, st: State, sent: seq<Event>)
    requires Written(su, st, AllDecoded(sent, su.round)) && Rounds(su.round)
    ensures |Log(st.table, su.round)| == |sent|
    ensures forall i | 0 <= i < |sent| :: SentAs(sent[i], Log(st.table, su.round)[i].event, su.round)
  {
    hide CanonicalText, ScanRow, Settled, RowOk, Floats, UuidColumn.Normalized, Decoded, SentAs;
    TableHolds(su, st, AllDecoded(sent, su.round));
    forall i | 0 <= i < |sent|
      ensures SentAs(sent[i], Log(st.table, su.round)[i].event, su.round)
    {
      SameId(sent[i], su.round);
      SettledIsSent(sent[i], su.round);
    }
  }

  lemma WrittenVerifies(su: Setup, st: State, read: seq<Event>)
    requires Written(su, st, read) && Rounds(su.round)
    ensures st.lastHash == TableHash(st.table) && |st.table| == |read|
    ensures var log := Log(st.table, su.round);
      && (forall i, j | 0 <= i < j < |log| :: log[i].event.eventId != log[j].event.eventId)
      && ((ChainOk(su.hash, log) <==> forall i | 0 <= i < |read| :: Survives(read[i]))
          || Collides(su.hash, Hashed(log) + AppendTexts(st.table, read)))
  {
    hide CanonicalText, ScanRow, Settled, RowOk, Survives, Collides, Hashed, AppendTexts, ChainOk, Floats, UuidColumn.Normalized;
    TableHolds(su, st, read);
    TableVerifies(su, st.table, read);
  }

  lemma NothingWritten(su: Setup)
    ensures Written(su, EMPTY, [])
  {
  }

  lemma SameId(ev: Event, round: Rounding)
    ensures Decoded(ev, round).eventId == ev.eventId
  {
  }

  /**
   When a message ends up in the table: exactly if it carries an event with an id, a type, a time and an
   outcome, the database answers, the id is a UUID that no row has, and no text in the event holds a NUL.
   Otherwise the table and the head of the chain stay as they are.
   */
  lemma ConsumeStoresIff(su: Setup, st: State, message: Message, dbOk: bool)
    ensures var after := Apply(su, st, Step.Consume(message, dbOk));
            var stores :=
              && message.Carries? && dbOk
              && message.event.eventId != "" && message.event.eventType != "" && message.event.timestamp != "" && message.event.outcome != ""
              && UuidColumn.Normalized(message.event.eventId).Some?
              && (forall r <- st.table :: Some(r.eventId) != UuidColumn.Normalized(message.event.eventId))
              && forall s <- EventStrings(message.event) :: '\0' !in s;
      && |after.table| == |st.table| + (if stores then 1 else 0) && after.table[..|st.table|] == st.table
      && (!stores ==> after.lastHash == st.lastHash)
  {
    hide CanonicalText, UuidColumn.Normalized, Decoded, EventStrings, Inserts, NewRow;
    if message.Carries? {
      var ev := message.event;
      SameTexts(ev, su.round);
      SameId(ev, su.round);
      InsertsIff(su, st, Decoded(ev, su.round), dbOk);
    }
  }

  /** From any state, the row a message adds reads back as the event in the message, linked to the head before it, and is the new head. */
  lemma StoredAsSent(su: Setup, st: State, message: Message, dbOk: bool)
    requires Rounds(su.round) && |Apply(su, st, Step.Consume(message, dbOk)).table| > |st.table|
    ensures var after := Apply(su, st, Step.Consume(message, dbOk));
      && message.Carries? && |after.table| == |st.table| + 1
      && var se := ScanRow(after.table[|st.table|], su.round);
         && SentAs(message.event, se.event, su.round)
         && se.prevHash == st.lastHash && se.hash == after.lastHash
         && after.lastHash == su.hash(CanonicalText(Decoded(message.event, su.round), st.lastHash))
  {
    hide CanonicalText, UuidColumn.Normalized, Decoded, SentAs, ScanRow, MakeRow, Settled, EventStrings;
    ConsumeStoresIff(su, st, message, dbOk);
    var ev := Decoded(message.event, su.round);
    ScanUndoesInsert(st.nextSeq, ev, st.lastHash, su.hash(CanonicalText(ev, st.lastHash)), su.round);
    SameId(message.event, su.round);
    SettledIsSent(message.event, su.round);
    SettledAre(ev, su.round, st.nextSeq, st.lastHash, su.hash(CanonicalText(ev, st.lastHash)));
  }

  lemma SettledAre(ev: Event, round: Rounding, seqNo: nat, prev: string, hash: string)
    requires UuidColumn.Normalized(ev.eventId).Some?
    ensures var se := AuditEvents.Stored(seqNo, Settled(ev, round), prev, hash);
      se.event == Settled(ev, round) && se.prevHash == prev && se.hash == hash
  {
  }

  lemma SameTexts(ev: Event, round: Rounding)
    ensures EventStrings(Decoded(ev, round)) == EventStrings(ev)
  {
    hide Strings, Renumber;
    if ev.metadata.Some? {
      StringsStay(VObj(ev.metadata.value), round);
      RenumberedObject(VObj(ev.metadata.value), round);
    }
  }

  // ---------------------------------------------------------------- events that break the chain

  /** One consumed event with these fields and nothing else. */
  function Bare(id: string, metadata: Option<map<string, Value>>): Event {
    Event(id, "login", "2026", Actor("", "", ""), None, "ok", metadata)
  }

  lemma BareIsClean(id: string, metadata: Option<map<string, Value>>)
    requires id != "" && (metadata.Some? ==> NulFreeValue(VObj(metadata.value)))
    ensures ValidEvent(Bare(id, metadata)) && NulFreeEvent(Bare(id, metadata))
  {
    hide NulFreeValue;
    assert NulFreeText("") && NulFreeText("login") && NulFreeText("2026") && NulFreeText("ok");
  }

  /** A single event that is stored but does not survive its columns leaves a log that verify rejects. */
  lemma OneEventBreaks(su: Setup, ev: Event)
    requires Rounds(su.round) && ValidEvent(ev) && NulFreeEvent(Decoded(ev, su.round))
    requires UuidColumn.Normalized(ev.eventId).Some? && !Survives(Decoded(ev, su.round))
    ensures var st := RunFrom(su, EMPTY, [Step.Consume(Carries(ev), true)]);
      && |st.table| == 1
      && (!ChainOk(su.hash, Log(st.table, su.round))
          || Collides(su.hash, Hashed(Log(st.table, su.round)) + AppendTexts(st.table, [Decoded(ev, su.round)])))
  {
    hide CanonicalText, ScanRow, MakeRow, NulFreeEvent, UuidColumn.Normalized, Survives, Collides, Hashed, AppendTexts,
      ChainOk, Settled, Inserts, Appended;
    var steps := [Step.Consume(Carries(ev), true)];
    var d := Decoded(ev, su.round);
    NulFreeEventIff(d);
    InsertsIff(su, EMPTY, d, true);
    assert steps[1..] == [];
    assert Persisted(su, Apply(su, EMPTY, steps[0]), []) == [];
    assert Persisted(su, EMPTY, steps) == [ev] + [] == [ev];
    assert AllDecoded([ev], su.round) == [d];
    RunVerifies(su, steps);
  }

  /** An id in upper case: the column lowers it, so the hash of the row is no longer that of its text. */
  lemma UpperCaseIdBreaks(su: Setup)
    requires Rounds(su.round)
    ensures var st := RunFrom(su, EMPTY, [Step.Consume(Carries(Bare(UuidColumn.SHOUTED, None)), true)]);
      && |st.table| == 1
      && (!ChainOk(su.hash, Log(st.table, su.round))
          || Collides(su.hash, Hashed(Log(st.table, su.round)) + AppendTexts(st.table, [Bare(UuidColumn.SHOUTED, None)])))
  {
    hide UuidColumn.Normalized, UuidColumn.Canonical, RunFrom, ChainOk, Collides, Hashed, AppendTexts, Log,
      NulFreeEvent;
    UuidColumn.Shouted();
    BareIsClean(UuidColumn.SHOUTED, None);
    OneEventBreaks(su, Bare(UuidColumn.SHOUTED, None));
  }

  /** A negative zero in the metadata: the numeric drops its sign. */
  lemma NegativeZeroBreaks(su: Setup)
    requires Rounds(su.round)
    ensures var ev := Bare(UuidColumn.SPOKEN, Some(map["x" := VNum(NEGATIVE_ZERO)]));
            var st := RunFrom(su, EMPTY, [Step.Consume(Carries(ev), true)]);
      && |st.table| == 1
      && (!ChainOk(su.hash, Log(st.table, su.round))
          || Collides(su.hash, Hashed(Log(st.table, su.round)) + AppendTexts(st.table, [ev])))
  {
    hide UuidColumn.Normalized, UuidColumn.Canonical, RunFrom, ChainOk, Collides, Hashed, AppendTexts, Log,
      NulFreeEvent, NulFreeValue, NoNegativeZero, Renumber;
    var m := map["x" := VNum(NEGATIVE_ZERO)];
    var ev := Bare(UuidColumn.SPOKEN, Some(m));
    UuidColumn.Shouted();
    UuidColumn.NormalizedIff(UuidColumn.SPOKEN);
    NegativeZeroValue(m, su.round);
    BareIsClean(UuidColumn.SPOKEN, Some(m));
    OneEventBreaks(su, ev);
  }

  lemma NegativeZeroValue(m: map<string, Value>, round: Rounding)
    requires Rounds(round) && m == map["x" := VNum(NEGATIVE_ZERO)]
    ensures Renumber(VObj(m), round) == VObj(m)
    ensures !NoNegativeZero(VObj(m)) && NulFreeValue(VObj(m))
  {
    assert Renumber(VObj(m), round).members == m;
    assert "x" in m && !NoNegativeZero(m["x"]);
    assert NulFreeText("x");
  }

  // ---------------------------------------------------------------- tampering with the table

  /**
   An UPDATE of one row of a table that verifies.  Before the newest row it is accepted if and only if
   scanRow reads the same event, up to nil against empty metadata, and the same hashes, or two texts
   collide; in the newest row, if and only if it links back as before and its hash is recomputed.
   */
  lemma UpdateCaught(su: Setup, table: seq<Row>, i: nat, row: Row)
    requires ChainOk(su.hash, Log(table, su.round)) && i < |table|
    ensures var was, now := ScanRow(table[i], su.round), ScanRow(row, su.round);
            var accepted := ChainOk(su.hash, Log(table[i := row], su.round));
      && (i + 1 < |table| ==>
            (accepted <==> Plain(now.event) == Plain(was.event) && now.prevHash == was.prevHash && now.hash == was.hash)
            || Collides(su.hash, Hashed(Log(table, su.round)) + {CanonicalText(now.event, now.prevHash)}))
      && (i + 1 == |table| ==>
            (accepted <==> now.prevHash == was.prevHash && now.hash == su.hash(CanonicalText(now.event, now.prevHash))))
  {
    hide CanonicalText, Plain, Collides, Hashed, ChainOk, ScanRow;
    assert Log(table[i := row], su.round) == Log(table, su.round)[i := ScanRow(row, su.round)];
    EditCaught(su.hash, Log(table, su.round), i, ScanRow(row, su.round));
  }

  /** Actor columns with one more member, which scanRow ignores. */
  function WithRole(row: Row, m: map<string, Value>, role: Value): Row {
    row.(actor := Emit(ToJson(VObj(m["role" := role]), LengthFirst), Postgres))
  }

  /** An UPDATE that verify cannot see: it writes a role into the actor of any row, and the log still verifies. */
  lemma InvisibleUpdate(su: Setup, table: seq<Row>, i: nat, m: map<string, Value>, role: Value)
    requires ChainOk(su.hash, Log(table, su.round)) && i < |table|
    requires table[i].actor == Emit(ToJson(VObj(m), LengthFirst), Postgres) && "role" !in m
    ensures var tampered := table[i := WithRole(table[i], m, role)];
      tampered != table && ChainOk(su.hash, Log(tampered, su.round))
  {
    hide CanonicalText, ChainOk, Emit, ToJson, ScanResource, ScanMetadata, Renumber, Unmarshal, ScanRow, ScanActor;
    var row := WithRole(table[i], m, role);
    RoleUnseen(m, role);
    SameScan(table[i], row, su.round);
    assert Log(table[i := row], su.round) == Log(table, su.round);
    assert table[i := row][i] == row;
  }

  lemma SameScan(a: Row, b: Row, round: Rounding)
    requires ScanActor(a.actor) == ScanActor(b.actor) && b == a.(actor := b.actor)
    ensures ScanRow(a, round) == ScanRow(b, round)
  {
    hide ScanActor, ScanResource, ScanMetadata;
  }

  lemma RoleUnseen(m: map<string, Value>, role: Value)
    requires "role" !in m
    ensures var before, after := Emit(ToJson(VObj(m), LengthFirst), Postgres), Emit(ToJson(VObj(m["role" := role]), LengthFirst), Postgres);
      before != after && ScanActor(before) == ScanActor(after)
  {
    hide Emit, ToJson, Unmarshal, Reread;
    var f := Reread(LengthFirst, EXACT);
    var n := m["role" := role];
    UnmarshalEmitted(VObj(m), LengthFirst, Postgres, EXACT);
    UnmarshalEmitted(VObj(n), LengthFirst, Postgres, EXACT);
    var a, b := Renumber(VObj(m), f).members, Renumber(VObj(n), f).members;
    assert "role" in b && "role" !in a;
    assert "role" != "user_id" && "role" != "ip" && "role" != "user_agent";
    assert forall k | k != "role" :: StringAt(a, k) == StringAt(b, k);
  }

  /**
   Deleting the newest rows is not caught by itself, but the store still holds the old head: the next
   event it appends, if it is not restarted in between, does not link to what is left.
   */
  lemma AppendAfterTailDelete(su: Setup, st: State, n: nat, ev: Event)
    requires NonEmpty(su.hash) && ChainOk(su.hash, Log(st.table, su.round))
    requires n < |st.table| && st.lastHash == TableHash(st.table)
    requires Inserts(su, st.(table := st.table[..n]), ev, true)
    ensures var after := Appended(su, st.(table := st.table[..n]), ev, true);
      && |after.table| == n + 1
      && (!ChainOk(su.hash, Log(after.table, su.round)) || Collides(su.hash, Hashed(Log(st.table, su.round))))
  {
    hide CanonicalText, Collides, Texts, MakeRow, ScanRow, TextsFixPrev, Inserts, NewRow, Appended, LinkOf;
    var cut := st.(table := st.table[..n]);
    var after := Appended(su, cut, ev, true);
    InsertedRow(su, cut, ev);
    var row := NewRow(su, cut, ev).value;
    var links, broken := Links(Log(st.table, su.round)), Links(Log(after.table, su.round));
    LinkText(ScanRow(row, su.round));
    assert broken[n].prevHash == st.lastHash;
    LastLink(su, st.table);
    if n > 0 {
      assert after.table[n - 1] == st.table[n - 1];
    }
    assert Head(broken, n) == Head(links, n);
    LinksFixPrev(Log(st.table, su.round), Log(st.table, su.round));
    HeadsDiffer(su.hash, links, n);
    assert ChainOk(su.hash, Log(after.table, su.round)) ==> LinkOk(su.hash, broken, n);
  }

  lemma LastLink(su: Setup, table: seq<Row>)
    requires table != []
    ensures var links := Links(Log(table, su.round)); links[|links| - 1].hash == TableHash(table)
  {
    hide CanonicalText;
  }

  lemma InsertedRow(su: Setup, st: State, ev: Event)
    requires Inserts(su, st, ev, true)
    ensures NewRow(su, st, ev).Some? && ScanRow(NewRow(su, st, ev).value, su.round).prevHash == st.lastHash
    ensures Appended(su, st, ev, true).table == st.table + [NewRow(su, st, ev).value]
  {
    hide CanonicalText, Jsonb, ScanActor, ScanResource, ScanMetadata;
  }

  /** In a valid chain an earlier head is not the last one. */
  lemma HeadsDiffer(h: HashFn, links: seq<Link>, n: nat)
    requires NonEmpty(h) && Valid(h, links) && TextsFixPrev(links, links) && n < |links|
    ensures Head(links, n) != links[|links| - 1].hash || Collides(h, Texts(links))
  {
    hide Collides, Texts, TextsFixPrev;
    assert LinkOk(h, links, |links| - 1);
    if n > 0 && n < |links| {
      HashesDistinct(h, links, n - 1, |links| - 1);
    }
  }

  // ---------------------------------------------------------------- the store itself

  datatype Reason = PrevMismatch | HashMismatch

  datatype VerifyResult = VerifyResult(ok: bool, count: nat, brokenSeq: nat, reason: Option<Reason>)

  class Store {
    const round: Rounding
    const hash: HashFn
    var table: seq<Row>
    var nextSeq: nat
    var lastHash: string

    constructor (round: Rounding, hash: HashFn)
      ensures this.round == round && this.hash == hash && Contents() == EMPTY
    {
      this.round := round;
      this.hash := hash;
      table, nextSeq, lastHash := [], 1, "";
    }

    function Contents(): State
      reads this
    {
      State(table, nextSeq, lastHash)
    }

    /** Thirty attempts to read the newest hash; answers(k) is whether the database answers the k-th. */
    method Seed(answers: nat -> bool) returns (ok: bool)
      modifies this`lastHash
      ensures ok <==> exists k: nat | k < 30 :: answers(k)
      ensures Contents() == if ok then Seeded(old(Contents())) else old(Contents())
    {
      for attempt := 0 to 30
        invariant Contents() == old(Contents())
        invariant forall k: nat | k < attempt :: !answers(k)
      {
        if answers(attempt) {
          lastHash := if table == [] then "" else table[|table| - 1].hash;
          return true;
        }
      }
      return false;
    }

    /** dbOk is whether the database answers; a failed INSERT is taken to have left no row. */
    method Append(ev: Event, dbOk: bool) returns (stored: bool)
      modifies this`table, this`nextSeq, this`lastHash
      ensures Contents() == Appended(Setup(round, hash), old(Contents()), ev, dbOk)
      ensures stored <==>
        && dbOk && (forall s <- EventStrings(ev) :: '\0' !in s) && UuidColumn.Normalized(ev.eventId).Some?
        && forall r <- old(table) :: Some(r.eventId) != UuidColumn.Normalized(ev.eventId)
    {
      hide CanonicalText, MakeRow, EventStrings, UuidColumn.Normalized;
      InsertsIff(Setup(round, hash), Contents(), ev, dbOk);
      var h := hash(CanonicalText(ev, lastHash));
      var row := MakeRow(nextSeq, ev, lastHash, h);
      nextSeq := nextSeq + 1;
      if !dbOk || row.None? || exists r <- table :: r.eventId == row.value.eventId {
        return false;
      }
      table := table + [row.value];
      lastHash := h;
      stored := true;
    }

    /** The consumer loop: malformed and invalid messages are dropped, failed appends are lost. */
    method Consume(messages: seq<(Message, bool)>)
      modifies this`table, this`nextSeq, this`lastHash
      ensures Contents() == RunFrom(Setup(round, hash), old(Contents()), ConsumeSteps(messages))
    {
      ghost var su := Setup(round, hash);
      ghost var goal := RunFrom(su, Contents(), ConsumeSteps(messages));
      for i := 0 to |messages|
        invariant goal == RunFrom(su, Contents(), ConsumeSteps(messages[i..]))
      {
        assert messages[i..][1..] == messages[i + 1..];
        assert ConsumeSteps(messages[i..])[1..] == ConsumeSteps(messages[i + 1..]);
        if messages[i].0.Carries? && ValidEvent(messages[i].0.event) {
          var _ := Append(Decoded(messages[i].0.event, round), messages[i].1);
        }
      }
    }

    /**
     verify, whose read fails after some rows or goes through (failsAfter is None): OK with the number of
     rows if and only if the read goes through and the whole chain holds; an error if and only if the read
     fails with all rows before it in order; otherwise Count is the one-based position of the first broken
     row, BrokenSeq its seq, and the rows before it verify.
     */
    method Verify(failsAfter: Option<nat>) returns (answer: Option<VerifyResult>)
      ensures answer.None? <==> failsAfter.Some? && ChainOk(hash, Log(FirstRows(table, failsAfter.value), round))
      ensures answer.Some? && answer.value.ok <==> failsAfter.None? && ChainOk(hash, Log(table, round))
      ensures answer.Some? && answer.value.ok ==> answer.value == VerifyResult(true, |table|, 0, None)
      ensures answer.Some? && !answer.value.ok ==>
        var r := answer.value;
        && 1 <= r.count <= |table| && (failsAfter.Some? ==> r.count <= failsAfter.value)
        && r.brokenSeq == table[r.count - 1].seqNo
        && ChainOk(hash, Log(table[..r.count - 1], round))
        && !LinkOk(hash, Links(Log(table, round)), r.count - 1)
        && r.reason == Some(if ScanRow(table[r.count - 1], round).prevHash != TableHash(table[..r.count - 1])
                            then PrevMismatch else HashMismatch)
    {
      hide CanonicalText, ScanRow, ChainOk, Log, Links;
      ghost var links := Links(Log(table, round));
      var expectedPrev := "";
      var count := 0;
      for i := 0 to |table|
        invariant count == i && expectedPrev == TableHash(table[..i]) == Head(links, i)
        invariant forall k | 0 <= k < i :: LinkOk(hash, links, k)
        invariant failsAfter.Some? ==> i <= failsAfter.value
      {
        if failsAfter == Some(i) {
          PrefixOfLog(hash, round, table, i);
          return None;
        }
        var se := ScanRow(table[i], round);
        assert links[i] == LinkOf(se);
        count := count + 1;
        if se.prevHash != expectedPrev {
          assert !LinkOk(hash, links, i);
          BrokenRow(hash, round, table, i);
          return Some(VerifyResult(false, count, se.seqNo, Some(PrevMismatch)));
        }
        if hash(CanonicalText(se.event, se.prevHash)) != se.hash {
          assert !LinkOk(hash, links, i);
          BrokenRow(hash, round, table, i);
          return Some(VerifyResult(false, count, se.seqNo, Some(HashMismatch)));
        }
        expectedPrev := se.hash;
        assert table[..i + 1][|table[..i + 1]| - 1] == table[i];
      }
      PrefixOfLog(hash, round, table, |table|);
      assert table[..|table|] == table;
      answer := if failsAfter.Some? then None else Some(VerifyResult(true, count, 0, None));
    }
  }

  function FirstRows(table: seq<Row>, n: nat): seq<Row> {
    if n < |table| then table[..n] else table
  }

  /** A broken row breaks every log that reaches it; the rows before the first one form a chain of their own. */
  lemma BrokenRow(h: HashFn, round: Rounding, table: seq<Row>, i: nat)
    requires i < |table| && !LinkOk(h, Links(Log(table, round)), i)
    requires forall k | 0 <= k < i :: LinkOk(h, Links(Log(table, round)), k)
    ensures ChainOk(h, Log(table[..i], round)) && !ChainOk(h, Log(table, round))
    ensures forall n: nat | n > i :: !ChainOk(h, Log(FirstRows(table, n), round))
  {
    hide CanonicalText, ScanRow, LinkOk, Log, Links;
    PrefixOfLog(h, round, table, i);
    forall n: nat | n > i
      ensures !ChainOk(h, Log(FirstRows(table, n), round))
    {
      BrokenPrefix(h, round, table, i, n);
    }
  }

  lemma BrokenPrefix(h: HashFn, round: Rounding, table: seq<Row>, i: nat, n: nat)
    requires i < |table| && i < n && !LinkOk(h, Links(Log(table, round)), i)
    ensures !ChainOk(h, Log(FirstRows(table, n), round))
  {
    hide CanonicalText, ScanRow, Log, Links;
    var part := Links(Log(FirstRows(table, n), round));
    var all := Links(Log(table, round));
    assert forall k | 0 <= k <= i :: part[k] == all[k];
    assert !LinkOk(h, part, i);
  }

  function ConsumeSteps(messages: seq<(Message, bool)>): seq<Step> {
    seq(|messages|, i requires 0 <= i < |messages| => Step.Consume(messages[i].0, messages[i].1))
  }

  /** The rows before the first broken one form a chain of their own. */
  lemma PrefixOfLog(h: HashFn, round: Rounding, table: seq<Row>, n: nat)
    requires n <= |table| && forall k | 0 <= k < n :: LinkOk(h, Links(Log(table, round)), k)
    ensures ChainOk(h, Log(table[..n], round))
  {
    forall k | 0 <= k < n
      ensures LinkOk(h, Links(Log(table[..n], round)), k)
    {
      assert LinkOk(h, Links(Log(table, round)), k);
    }
  }
}
