/** Audit events: the canonical text that is hashed, and the trip through the columns of audit_events. */
module AuditEvents {
  import opened GoValues
  import opened Json
  import opened Numbers
  import opened Prelude
  import UuidColumn

  datatype Actor = Actor(userId: string, ip: string, userAgent: string)
  datatype Resource = Resource(kind: string, id: string)

  /** metadata is None for a nil map, which Go tells apart from an empty one. */
  datatype Event = Event(eventId: string, eventType: string, timestamp: string, actor: Actor,
                         resource: Option<Resource>, outcome: string, metadata: Option<map<string, Value>>)

  // ---------------------------------------------------------------- the canonical text

  /** A string field marked omitempty. */
  function OmitEmpty(key: string, s: string, rest: Fields): Fields {
    if s == "" then rest else Field(key, Str(s), rest)
  }

  function ActorJson(a: Actor): Json {
    Obj(OmitEmpty("user_id", a.userId, OmitEmpty("ip", a.ip, OmitEmpty("user_agent", a.userAgent, NoFields))))
  }

  function ResourceJson(r: Resource): Json {
    Obj(OmitEmpty("type", r.kind, OmitEmpty("id", r.id, NoFields)))
  }

  /** hashInput: the fields in declaration order, resource and metadata marked omitempty. */
  function HashInput(ev: Event, prevHash: string): Json {
    Obj(HashFields(ev, TailFields(ev, prevHash)))
  }

  function HashFields(ev: Event, rest: Fields): Fields {
    Field("event_id", Str(ev.eventId), Field("event_type", Str(ev.eventType),
      Field("timestamp", Str(ev.timestamp), Field("actor", ActorJson(ev.actor), rest))))
  }

  /** The fields after actor. */
  function TailFields(ev: Event, prevHash: string): Fields {
    var tail := Field("prev_hash", Str(prevHash), NoFields);
    var withMetadata :=
      if ev.metadata.None? || ev.metadata.value == map[] then tail
      else Field("metadata", ToJson(VObj(ev.metadata.value), Bytewise), tail);
    var withOutcome := Field("outcome", Str(ev.outcome), withMetadata);
    if ev.resource.None? then withOutcome else Field("resource", ResourceJson(ev.resource.value), withOutcome)
  }

  function CanonicalText(ev: Event, prevHash: string): string {
    Emit(HashInput(ev, prevHash), Go)
  }

  /** Nil and empty metadata are written alike. */
  function Plain(ev: Event): Event {
    if ev.metadata == Some(map[]) then ev.(metadata := None) else ev
  }

  lemma EmitInjective(a: Json, b: Json, style: Style)
    requires Emit(a, style) == Emit(b, style)
    ensures a == b
  {
    ValueRoundTrip(a, style, "");
    ValueRoundTrip(b, style, "");
    assert Emit(a, style) + "" == Emit(b, style) + "";
  }

  lemma ToJsonInjective(a: Value, b: Value)
    requires ToJson(a, Bytewise) == ToJson(b, Bytewise)
    ensures a == b
  {
    MarshalInjective(a, b);
  }

  lemma ActorJsonInjective(a: Actor, b: Actor)
    ensures ActorJson(a) == ActorJson(b) <==> a == b
  {
  }

  lemma ResourceJsonInjective(a: Resource, b: Resource)
    ensures ResourceJson(a) == ResourceJson(b) <==> a == b
  {
  }

  /** The canonical text determines the event and the previous hash, except for nil against empty metadata. */
  lemma CanonicalTextInjective(a: Event, p: string, b: Event, q: string)
    ensures CanonicalText(a, p) == CanonicalText(b, q) <==> Plain(a) == Plain(b) && p == q
  {
    if CanonicalText(a, p) == CanonicalText(b, q) {
      EmitInjective(HashInput(a, p), HashInput(b, q), Go);
      ActorJsonInjective(a.actor, b.actor);
      if a.resource.Some? && b.resource.Some? {
        ResourceJsonInjective(a.resource.value, b.resource.value);
      }
      if Plain(a).metadata.Some? && Plain(b).metadata.Some? {
        var m, n := a.metadata.value, b.metadata.value;
        assert ToJson(VObj(m), Bytewise) == ToJson(VObj(n), Bytewise);
        ToJsonInjective(VObj(m), VObj(n));
      }
    }
  }

  // ---------------------------------------------------------------- what the text says, member by member

  function Quoted(s: string): string {
    EmitString(s, Go)
  }

  /** The members whose text is not empty, quoted. */
  function Present(members: seq<(string, string)>): seq<(string, string)> {
    if members == [] then []
    else (if members[0].1 == "" then [] else [(members[0].0, Quoted(members[0].1))]) + Present(members[1..])
  }

  function ActorText(a: Actor): string {
    ObjectText(Present([("user_id", a.userId), ("ip", a.ip), ("user_agent", a.userAgent)]))
  }

  function ResourceText(r: Resource): string {
    ObjectText(Present([("type", r.kind), ("id", r.id)]))
  }

  lemma {:induction false} PresentFields(key: string, s: string, rest: Fields, members: seq<(string, string)>)
    requires MembersOf(rest) == Present(members)
    ensures MembersOf(OmitEmpty(key, s, rest)) == Present([(key, s)] + members)
  {
    hide EmitString;
    var all := [(key, s)] + members;
    assert all[0] == (key, s) && all[1..] == members;
    assert [] + Present(members) == Present(members);
  }

  lemma ActorIsText(a: Actor)
    ensures Emit(ActorJson(a), Go) == ActorText(a)
  {
    hide EmitString, ObjectText, Emit, Present, OmitEmpty;
    var third := OmitEmpty("user_agent", a.userAgent, NoFields);
    var second := OmitEmpty("ip", a.ip, third);
    var first := OmitEmpty("user_id", a.userId, second);
    NoneOf();
    assert [("user_agent", a.userAgent)] + [] == [("user_agent", a.userAgent)];
    assert [("ip", a.ip)] + [("user_agent", a.userAgent)] == [("ip", a.ip), ("user_agent", a.userAgent)];
    assert [("user_id", a.userId)] + [("ip", a.ip), ("user_agent", a.userAgent)] == [("user_id", a.userId), ("ip", a.ip), ("user_agent", a.userAgent)];
    PresentFields("user_agent", a.userAgent, NoFields, []);
    PresentFields("ip", a.ip, third, [("user_agent", a.userAgent)]);
    PresentFields("user_id", a.userId, second, [("ip", a.ip), ("user_agent", a.userAgent)]);
    ObjectIsText(first);
  }

  lemma NoneOf()
    ensures MembersOf(NoFields) == [] == Present([])
  {
  }

  lemma ResourceIsText(r: Resource)
    ensures Emit(ResourceJson(r), Go) == ResourceText(r)
  {
    hide EmitString, ObjectText, Emit, Present, OmitEmpty;
    var second := OmitEmpty("id", r.id, NoFields);
    NoneOf();
    assert [("id", r.id)] + [] == [("id", r.id)];
    assert [("type", r.kind)] + [("id", r.id)] == [("type", r.kind), ("id", r.id)];
    PresentFields("id", r.id, NoFields, []);
    PresentFields("type", r.kind, second, [("id", r.id)]);
    ObjectIsText(OmitEmpty("type", r.kind, second));
  }

  /** The members of the hashed text: their names, their order, and what stands under each name. */
  function HashedMembers(ev: Event, prevHash: string): seq<(string, string)> {
    [("event_id", Quoted(ev.eventId)), ("event_type", Quoted(ev.eventType)), ("timestamp", Quoted(ev.timestamp)),
     ("actor", ActorText(ev.actor))]
    + ((if ev.resource.None? then [] else [("resource", ResourceText(ev.resource.value))])
       + ([("outcome", Quoted(ev.outcome))]
          + ((if ev.metadata.None? || ev.metadata.value == map[] then [] else [("metadata", Marshal(VObj(ev.metadata.value)))])
             + [("prev_hash", Quoted(prevHash))])))
  }

  lemma OneMember(k: string, v: Json, r: Fields)
    ensures MembersOf(Field(k, v, r)) == [(k, Emit(v, Go))] + MembersOf(r)
  {
  }

  /**
   What is hashed, for every event: an object with event_id, event_type, timestamp, actor, resource if
   there is one, outcome, metadata if it is not empty, and prev_hash, in this order, each with its own
   value; actor and resource hold their non-empty texts.
   */
  lemma CanonicalTextIs(ev: Event, prevHash: string)
    ensures CanonicalText(ev, prevHash) == ObjectText(HashedMembers(ev, prevHash))
  {
    hide Emit, EmitString, ObjectText, ActorJson, ResourceJson, ActorText, ResourceText, ToJson, MembersOf, Quoted, Marshal;
    TailIs(ev, prevHash);
    HeadIs(ev, TailFields(ev, prevHash));
    ObjectIsText(HashFields(ev, TailFields(ev, prevHash)));
  }

  lemma MetadataTail(ev: Event, prevHash: string) returns (fs: Fields)
    ensures fs == (var tail := Field("prev_hash", Str(prevHash), NoFields);
                   if ev.metadata.None? || ev.metadata.value == map[] then tail
                   else Field("metadata", ToJson(VObj(ev.metadata.value), Bytewise), tail))
    ensures MembersOf(fs) ==
      (if ev.metadata.None? || ev.metadata.value == map[] then [] else [("metadata", Marshal(VObj(ev.metadata.value)))])
      + [("prev_hash", Quoted(prevHash))]
  {
    hide Emit, EmitString, ToJson, MembersOf, Quoted;
    NoneOf();
    QuotedIs(prevHash);
    var last := [("prev_hash", Quoted(prevHash))];
    assert last + [] == last == [] + last;
    OneMember("prev_hash", Str(prevHash), NoFields);
    fs := Field("prev_hash", Str(prevHash), NoFields);
    if ev.metadata.Some? && ev.metadata.value != map[] {
      OneMember("metadata", ToJson(VObj(ev.metadata.value), Bytewise), fs);
      fs := Field("metadata", ToJson(VObj(ev.metadata.value), Bytewise), fs);
    }
  }

  lemma TailIs(ev: Event, prevHash: string)
    ensures HashedMembers(ev, prevHash) ==
      [("event_id", Quoted(ev.eventId)), ("event_type", Quoted(ev.eventType)), ("timestamp", Quoted(ev.timestamp)),
       ("actor", ActorText(ev.actor))] + MembersOf(TailFields(ev, prevHash))
  {
    hide Emit, EmitString, ResourceJson, ResourceText, ActorText, ToJson, MembersOf, Quoted, Marshal;
    QuotedIs(ev.outcome);
    var fs := MetadataTail(ev, prevHash);
    OneMember("outcome", Str(ev.outcome), fs);
    var withOutcome := Field("outcome", Str(ev.outcome), fs);
    if ev.resource.Some? {
      ResourceIsText(ev.resource.value);
      OneMember("resource", ResourceJson(ev.resource.value), withOutcome);
    } else {
      assert [] + MembersOf(withOutcome) == MembersOf(withOutcome);
    }
  }

  lemma QuotedIs(s: string)
    ensures Emit(Str(s), Go) == Quoted(s)
  {
  }

  lemma HeadIs(ev: Event, rest: Fields)
    ensures MembersOf(HashFields(ev, rest)) ==
      [("event_id", Quoted(ev.eventId)), ("event_type", Quoted(ev.eventType)), ("timestamp", Quoted(ev.timestamp)),
       ("actor", ActorText(ev.actor))] + MembersOf(rest)
  {
    hide Emit, EmitString, ActorJson, ActorText, MembersOf;
    var f1 := Field("actor", ActorJson(ev.actor), rest);
    var f2 := Field("timestamp", Str(ev.timestamp), f1);
    var f3 := Field("event_type", Str(ev.eventType), f2);
    ActorIsText(ev.actor);
    QuotedIs(ev.eventId);
    QuotedIs(ev.eventType);
    QuotedIs(ev.timestamp);
    OneMember("actor", ActorJson(ev.actor), rest);
    OneMember("timestamp", Str(ev.timestamp), f1);
    OneMember("event_type", Str(ev.eventType), f2);
    OneMember("event_id", Str(ev.eventId), f3);
  }

  /** A literal text: sorted members, an array, an escape and an exponent. */
  lemma SampleMetadata()
    ensures Marshal(VObj(map["b" := VStr("<"), "a" := VArr(VCons(VBool(true), VCons(VNum(Scaled(false, 1, 21)), VNil)))]))
         == "{\"a\":[true,1e+21],\"b\":\"\\u003c\"}"
  {
    var list := VArr(VCons(VBool(true), VCons(VNum(Scaled(false, 1, 21)), VNil)));
    var m := map["b" := VStr("<"), "a" := list];
    hide ToJson, Emit, ObjectText, MembersOf;
    var fields := TwoFields(m);
    ObjectIsText(fields);
    SampleList(list);
    SampleString();
    var last := Field("b", ToJson(VStr("<"), Bytewise), NoFields);
    OneMember("a", ToJson(list, Bytewise), last);
    OneMember("b", ToJson(VStr("<"), Bytewise), NoFields);
    NoneOf();
    assert MembersOf(last) == [("b", "\"\\u003c\"")];
    SampleJoined();
  }

  lemma TwoFields(m: map<string, Value>) returns (fields: Fields)
    requires m.Keys == {"a", "b"}
    ensures fields == Field("a", ToJson(m["a"], Bytewise), Field("b", ToJson(m["b"], Bytewise), NoFields))
    ensures ToJson(VObj(m), Bytewise) == Obj(fields)
  {
    hide First, LexLeq, Leq;
    FirstOfTwo();
    var v := VObj(m);
    assert m.Keys - {"a"} == {"b"} && {"b"} - {"b"} == {};
    assert ToFields(v, {}, Bytewise) == NoFields;
    assert ToFields(v, {"b"}, Bytewise) == Field("b", ToJson(m["b"], Bytewise), NoFields);
    fields := ToFields(v, m.Keys, Bytewise);
  }

  lemma FirstOfTwo()
    ensures First({"a", "b"}, Bytewise) == "a" && First({"b"}, Bytewise) == "b"
  {
    assert !LexLeq("b", "a") && LexLeq("a", "b");
    var k := First({"a", "b"}, Bytewise);
    assert IsFirst(k, {"a", "b"}, Bytewise) && Leq(k, "a", Bytewise);
  }

  lemma SampleList(list: Value)
    requires list == VArr(VCons(VBool(true), VCons(VNum(Scaled(false, 1, 21)), VNil)))
    ensures Emit(ToJson(list, Bytewise), Go) == "[true,1e+21]"
  {
    hide Emit, NumberText, ArrayText;
    var items := ToItems(list.elems, Bytewise);
    SampleTexts(items);
    ArrayIsText(items);
    SampleArray();
  }

  lemma SampleTexts(items: Items)
    requires items == ToItems(VCons(VBool(true), VCons(VNum(Scaled(false, 1, 21)), VNil)), Bytewise)
    ensures TextsOf(items) == ["true"] + ["1e+21"]
  {
    hide GoText;
    NumberTexts();
    var last := Item(Num(NumberText(Scaled(false, 1, 21), Bytewise)), NoItems);
    assert TextsOf(last) == ["1e+21"] + [];
  }

  lemma SampleArray()
    ensures ArrayText(["true"] + ["1e+21"]) == "[true,1e+21]"
  {
    assert MoreText(["1e+21"]) == "," + ("1e+21" + "]") by { assert ["1e+21"][1..] == []; }
    assert (["true"] + ["1e+21"])[1..] == ["1e+21"];
  }

  lemma SampleString()
    ensures Emit(ToJson(VStr("<"), Bytewise), Go) == "\"\\u003c\""
  {
    HtmlEscapes();
  }

  lemma SampleMembers()
    ensures MemberText(("a", "[true,1e+21]")) == "\"a\":[true,1e+21]"
    ensures MemberText(("b", "\"\\u003c\"")) == "\"b\":\"\\u003c\""
  {
    hide EmitString;
    PlainEscaped("a");
    PlainEscaped("b");
  }

  lemma SampleEnd()
    ensures RestText([("b", "\"\\u003c\"")]) == ",\"b\":\"\\u003c\"}"
  {
    hide MemberText;
    SampleMembers();
    assert [("b", "\"\\u003c\"")][1..] == [];
    assert RestText([]) == "}";
  }

  lemma SampleJoined()
    ensures ObjectText([("a", "[true,1e+21]")] + [("b", "\"\\u003c\"")]) == "{\"a\":[true,1e+21],\"b\":\"\\u003c\"}"
  {
    hide MemberText, RestText, ObjectText;
    SampleMembers();
    SampleEnd();
    FromFirst(("a", "[true,1e+21]"), [("b", "\"\\u003c\"")]);
    SampleWhole();
  }

  lemma FromFirst(m: (string, string), rest: seq<(string, string)>)
    ensures ObjectText([m] + rest) == "{" + (MemberText(m) + RestText(rest))
  {
    hide MemberText, RestText;
    assert ([m] + rest)[1..] == rest;
  }

  lemma SampleWhole()
    ensures "{" + ("\"a\":[true,1e+21]" + ",\"b\":\"\\u003c\"}") == "{\"a\":[true,1e+21],\"b\":\"\\u003c\"}"
  {
  }

  // ---------------------------------------------------------------- the columns

  const NUMERIC: Rounding := n => Numeric(n)

  /**
   A text cast to jsonb and read back as text: other blanks, other member order, other escapes, numbers
   in full.  A NUL anywhere in it is refused.
   */
  function Jsonb(text: string): Option<string> {
    var j := ReadText(text);
    if j.None? || !NulFree(j.value) then None
    else Some(Emit(ToJson(ToValue(j.value, NUMERIC), LengthFirst), Postgres))
  }

  /** One row of audit_events; None is NULL. */
  datatype Row = Row(seqNo: nat, eventId: string, eventType: string, timestamp: string, actor: string,
                     resource: Option<string>, outcome: string, metadata: Option<string>,
                     prevHash: Option<string>, hash: string)

  /** The row an INSERT of the event produces, or None if a column rejects its value. */
  function MakeRow(seqNo: nat, ev: Event, prev: string, hash: string): Option<Row> {
    var actor := Jsonb(Emit(ActorJson(ev.actor), Go));
    var resource := if ev.resource.None? then Some("") else Jsonb(Emit(ResourceJson(ev.resource.value), Go));
    var metadata := if ev.metadata.None? then Some("") else Jsonb(Marshal(VObj(ev.metadata.value)));
    var id := UuidColumn.Normalized(ev.eventId);
    if actor.None? || resource.None? || metadata.None? || id.None? || !NulFreeTexts(ev) then None
    else Some(Row(seqNo, id.value, ev.eventType, ev.timestamp, actor.value,
                  if ev.resource.None? then None else resource, ev.outcome,
                  if ev.metadata.None? then None else metadata,
                  if prev == "" then None else Some(prev), hash))
  }

  predicate NulFreeTexts(ev: Event) {
    NulFreeText(ev.eventType) && NulFreeText(ev.timestamp) && NulFreeText(ev.outcome)
  }

  /** No string of the event, at any depth, holds a NUL. */
  predicate NulFreeEvent(ev: Event) {
    && NulFreeTexts(ev)
    && NulFreeText(ev.actor.userId) && NulFreeText(ev.actor.ip) && NulFreeText(ev.actor.userAgent)
    && (ev.resource.Some? ==> NulFreeText(ev.resource.value.kind) && NulFreeText(ev.resource.value.id))
    && (ev.metadata.Some? ==> NulFreeValue(VObj(ev.metadata.value)))
  }

  function EventStrings(ev: Event): set<string> {
    {ev.eventType, ev.timestamp, ev.outcome, ev.actor.userId, ev.actor.ip, ev.actor.userAgent}
    + (if ev.resource.Some? then {ev.resource.value.kind, ev.resource.value.id} else {})
    + (if ev.metadata.Some? then Strings(VObj(ev.metadata.value)) else {})
  }

  lemma NulFreeEventIff(ev: Event)
    ensures NulFreeEvent(ev) <==> forall s <- EventStrings(ev) :: '\0' !in s
  {
    hide NulFreeValue, Strings;
    if ev.metadata.Some? {
      NulFreeStrings(VObj(ev.metadata.value));
    }
  }

  /** What stands in which column: texts as they are, objects as jsonb with their non-empty members, NULL for what is not there. */
  lemma ColumnsHold(seqNo: nat, ev: Event, prev: string, hash: string)
    requires MakeRow(seqNo, ev, prev, hash).Some?
    ensures var row := MakeRow(seqNo, ev, prev, hash).value;
      && row.seqNo == seqNo && Some(row.eventId) == UuidColumn.Normalized(ev.eventId) && row.hash == hash
      && row.eventType == ev.eventType && row.timestamp == ev.timestamp && row.outcome == ev.outcome
      && row.prevHash == (if prev == "" then None else Some(prev))
      && Some(row.actor) == Jsonb(ActorText(ev.actor))
      && row.resource == (if ev.resource.None? then None else Jsonb(ResourceText(ev.resource.value)))
      && row.metadata == (if ev.metadata.None? then None else Jsonb(Marshal(VObj(ev.metadata.value))))
  {
    hide Jsonb, UuidColumn.Normalized, ActorText, ResourceText, ActorJson, ResourceJson, Marshal, NulFreeTexts, Emit;
    ActorIsText(ev.actor);
    if ev.resource.Some? {
      ResourceIsText(ev.resource.value);
    }
  }

  /** A row as scanRow rebuilds it. */
  datatype Stored = Stored(seqNo: nat, event: Event, prevHash: string, hash: string)

  function StringAt(m: map<string, Value>, key: string): string {
    if key in m && m[key].VStr? then m[key].s else ""
  }

  predicate Decodable(m: map<string, Value>, key: string) {
    key in m ==> m[key].VStr? || m[key].VNull?
  }

  function ScanActor(text: string): Actor {
    match Unmarshal(text, EXACT)
    case Some(VObj(m)) => Actor(StringAt(m, "user_id"), StringAt(m, "ip"), StringAt(m, "user_agent"))
    case _ => Actor("", "", "")
  }

  function ScanResource(text: string): Option<Resource> {
    match Unmarshal(text, EXACT)
    case Some(VObj(m)) =>
      if Decodable(m, "type") && Decodable(m, "id") then Some(Resource(StringAt(m, "type"), StringAt(m, "id"))) else None
    case Some(VNull) => Some(Resource("", ""))
    case _ => None
  }

  function ScanMetadata(text: string, round: Rounding): Option<map<string, Value>> {
    match Unmarshal(text, round)
    case Some(VObj(m)) => Some(m)
    case _ => None
  }

  function ScanRow(row: Row, round: Rounding): (s: Stored)
    ensures s.seqNo == row.seqNo && s.hash == row.hash
  {
    Stored(row.seqNo,
           Event(row.eventId, row.eventType, row.timestamp, ScanActor(row.actor),
                 if row.resource.None? then None else ScanResource(row.resource.value), row.outcome,
                 if row.metadata.None? then None else ScanMetadata(row.metadata.value, round)),
           if row.prevHash.None? then "" else row.prevHash.value, row.hash)
  }

  /** The event the columns hold after an INSERT, as Go reads it. */
  function Settled(ev: Event, round: Rounding): Event
    requires UuidColumn.Normalized(ev.eventId).Some?
  {
    ev.(eventId := UuidColumn.Normalized(ev.eventId).value,
        metadata := if ev.metadata.None? then None
                    else Some(Renumber(VObj(ev.metadata.value), ThroughNumeric(round)).members))
  }

  lemma JsonbKeeps(j: Json, style: Style, read: Rounding)
    ensures Jsonb(Emit(j, style)).Some? <==> NulFree(j)
    ensures NulFree(j) ==>
      Unmarshal(Jsonb(Emit(j, style)).value, read) == Some(Renumber(ToValue(j, NUMERIC), Reread(LengthFirst, read)))
  {
    hide Emit, Renumber, ToValue, Reread, Unmarshal;
    TextBack(j, style);
    UnmarshalEmitted(ToValue(j, NUMERIC), LengthFirst, Postgres, read);
  }

  lemma RenumberStrings(m: map<string, Value>, f: Rounding)
    requires forall k <- m :: m[k].VStr?
    ensures Renumber(VObj(m), f) == VObj(m)
  {
    assert (map k | k in m :: Renumber(m[k], f)) == m;
  }

  /** The members a list of omitempty fields is read back as. */
  lemma OmitEmptyMembers(key: string, s: string, rest: Fields, read: Rounding)
    requires forall k <- ToMembers(rest, read) :: ToMembers(rest, read)[k].VStr?
    requires key !in ToMembers(rest, read)
    ensures var m := ToMembers(OmitEmpty(key, s, rest), read);
      && m.Keys == ToMembers(rest, read).Keys + (if s == "" then {} else {key})
      && (forall k <- m :: m[k].VStr?)
      && StringAt(m, key) == s
      && forall k :: k != key ==> StringAt(m, k) == StringAt(ToMembers(rest, read), k)
  {
  }

  lemma OmitEmptyNulFree(key: string, s: string, rest: Fields)
    requires NulFreeText(key)
    ensures NulFreeFields(OmitEmpty(key, s, rest)) <==> NulFreeText(s) && NulFreeFields(rest)
  {
  }

  lemma ActorNulFree(a: Actor)
    ensures NulFree(ActorJson(a)) <==> NulFreeText(a.userId) && NulFreeText(a.ip) && NulFreeText(a.userAgent)
  {
    var third := OmitEmpty("user_agent", a.userAgent, NoFields);
    OmitEmptyNulFree("user_agent", a.userAgent, NoFields);
    OmitEmptyNulFree("ip", a.ip, third);
    OmitEmptyNulFree("user_id", a.userId, OmitEmpty("ip", a.ip, third));
  }

  lemma ResourceNulFree(r: Resource)
    ensures NulFree(ResourceJson(r)) <==> NulFreeText(r.kind) && NulFreeText(r.id)
  {
    OmitEmptyNulFree("id", r.id, NoFields);
    OmitEmptyNulFree("type", r.kind, OmitEmpty("id", r.id, NoFields));
  }

  lemma ActorMembers(a: Actor, read: Rounding)
    ensures ActorJson(a).Obj?
    ensures var m := ToMembers(ActorJson(a).fields, read);
      && (forall k <- m :: m[k].VStr?)
      && Actor(StringAt(m, "user_id"), StringAt(m, "ip"), StringAt(m, "user_agent")) == a
  {
    hide StringAt;
    var third := OmitEmpty("user_agent", a.userAgent, NoFields);
    var second := OmitEmpty("ip", a.ip, third);
    assert "ip" != "user_agent" && "user_id" != "ip" && "user_id" != "user_agent";
    NoMembers("user_agent", read);
    OmitEmptyMembers("user_agent", a.userAgent, NoFields, read);
    OmitEmptyMembers("ip", a.ip, third, read);
    OmitEmptyMembers("user_id", a.userId, second, read);
  }

  lemma NoMembers(key: string, read: Rounding)
    ensures ToMembers(NoFields, read) == map[] && StringAt(map[], key) == ""
  {
  }

  lemma ActorBack(a: Actor)
    ensures var t := Jsonb(Emit(ActorJson(a), Go));
      && (t.Some? <==> NulFreeText(a.userId) && NulFreeText(a.ip) && NulFreeText(a.userAgent))
      && (t.Some? ==> ScanActor(t.value) == a)
  {
    hide StringAt, OmitEmpty, ActorJson, ToMembers, Emit, Jsonb, Renumber, Unmarshal, NulFree, NulFreeText;
    ActorMembers(a, NUMERIC);
    ActorNulFree(a);
    JsonbKeeps(ActorJson(a), Go, EXACT);
    RenumberStrings(ToMembers(ActorJson(a).fields, NUMERIC), Reread(LengthFirst, EXACT));
  }

  lemma ResourceMembers(r: Resource, read: Rounding)
    ensures ResourceJson(r).Obj?
    ensures var m := ToMembers(ResourceJson(r).fields, read);
      && (forall k <- m :: m[k].VStr?)
      && Resource(StringAt(m, "type"), StringAt(m, "id")) == r
  {
    hide StringAt;
    assert "type" != "id";
    NoMembers("id", read);
    OmitEmptyMembers("id", r.id, NoFields, read);
    OmitEmptyMembers("type", r.kind, OmitEmpty("id", r.id, NoFields), read);
  }

  lemma ResourceBack(r: Resource)
    ensures var t := Jsonb(Emit(ResourceJson(r), Go));
      && (t.Some? <==> NulFreeText(r.kind) && NulFreeText(r.id))
      && (t.Some? ==> ScanResource(t.value) == Some(r))
  {
    hide StringAt, OmitEmpty, ResourceJson, ToMembers, Emit, Jsonb, Renumber, Unmarshal, NulFree, NulFreeText;
    ResourceMembers(r, NUMERIC);
    ResourceNulFree(r);
    JsonbKeeps(ResourceJson(r), Go, EXACT);
    RenumberStrings(ToMembers(ResourceJson(r).fields, NUMERIC), Reread(LengthFirst, EXACT));
  }

  lemma NumericTwice(round: Rounding)
    ensures forall n :: ThroughNumeric(round)(n) == Reread(LengthFirst, round)(Reread(Bytewise, NUMERIC)(n))
  {
    forall n: Number
      ensures ThroughNumeric(round)(n) == Reread(LengthFirst, round)(Reread(Bytewise, NUMERIC)(n))
    {
      assert NUMERIC(n) == Numeric(n) && Numeric(Numeric(n)) == Numeric(n);
      assert Reread(Bytewise, NUMERIC)(n) == NUMERIC(Written(n, Bytewise));
      assert Reread(LengthFirst, round)(Numeric(n)) == round(Written(Numeric(n), LengthFirst));
    }
  }

  lemma MetadataBack(m: map<string, Value>, round: Rounding)
    ensures var t := Jsonb(Marshal(VObj(m)));
      && (t.Some? <==> NulFreeValue(VObj(m)))
      && (t.Some? ==> ScanMetadata(t.value, round) == Some(Renumber(VObj(m), ThroughNumeric(round)).members))
  {
    hide Emit, Jsonb, Unmarshal, ToJson, ToValue, NulFree, NulFreeValue, Reread, ThroughNumeric, RenumberAll;
    var v := VObj(m);
    JsonbKeeps(ToJson(v, Bytewise), Go, round);
    NulFreeIff(v, Bytewise);
    ValueBack(v, Bytewise, NUMERIC);
    NumericTwice(round);
    RenumberTwice(v, Reread(Bytewise, NUMERIC), Reread(LengthFirst, round), ThroughNumeric(round));
  }

  /**
   An INSERT goes through exactly if the id is a spelling of a UUID and no string holds a NUL; then
   scanRow rebuilds the settled event, the previous hash and the hash from the stored columns.
   */
  lemma ScanUndoesInsert(seqNo: nat, ev: Event, prev: string, hash: string, round: Rounding)
    ensures var row := MakeRow(seqNo, ev, prev, hash);
      && (row.Some? <==> UuidColumn.Normalized(ev.eventId).Some? && NulFreeEvent(ev))
      && (row.Some? ==> ScanRow(row.value, round) == Stored(seqNo, Settled(ev, round), prev, hash))
  {
    hide Jsonb, ScanActor, ScanResource, ScanMetadata, ActorJson, ResourceJson, Marshal, Emit, Renumber,
      NulFreeText, NulFreeValue, UuidColumn.Normalized;
    ActorBack(ev.actor);
    if ev.resource.Some? {
      ResourceBack(ev.resource.value);
    }
    if ev.metadata.Some? {
      MetadataBack(ev.metadata.value, round);
    }
  }

  // ---------------------------------------------------------------- what survives the columns

  /** Every number of the metadata is a float64, as it is once json.Unmarshal has read it. */
  ghost predicate Floats(ev: Event, round: Rounding) {
    ev.metadata.Some? ==> Renumber(VObj(ev.metadata.value), round) == VObj(ev.metadata.value)
  }

  /** An event as it was sent, with its numbers read as float64. */
  function Decoded(ev: Event, round: Rounding): Event {
    if ev.metadata.None? then ev
    else ev.(metadata := Some(Renumber(VObj(ev.metadata.value), round).members))
  }

  /** Reading a message changes nothing of its event but the numbers of its metadata, each to its float64. */
  lemma DecodedKeeps(ev: Event, round: Rounding)
    ensures var d := Decoded(ev, round);
      && d.eventId == ev.eventId && d.eventType == ev.eventType && d.timestamp == ev.timestamp
      && d.actor == ev.actor && d.resource == ev.resource && d.outcome == ev.outcome
      && (d.metadata.None? <==> ev.metadata.None?)
      && (ev.metadata.Some? ==> ReadAs(VObj(ev.metadata.value), VObj(d.metadata.value), round))
  {
    hide ReadAs;
    if ev.metadata.Some? {
      RenumberIs(VObj(ev.metadata.value), round);
    }
  }

  /** What a number of a message has become when it is read back from the metadata column: its float64, without the sign of a zero. */
  function Kept(round: Rounding): Rounding {
    n => if round(n) == Scaled(true, 0, 0) then Scaled(false, 0, 0) else round(n)
  }

  /** The stored event is the one that was sent: the id normalized, every other text as it was, numbers as float64. */
  ghost predicate SentAs(sent: Event, stored: Event, round: Rounding) {
    && UuidColumn.Normalized(sent.eventId) == Some(stored.eventId)
    && stored.eventType == sent.eventType && stored.timestamp == sent.timestamp && stored.outcome == sent.outcome
    && stored.actor == sent.actor && stored.resource == sent.resource
    && (stored.metadata.None? <==> sent.metadata.None?)
    && (sent.metadata.Some? ==> ReadAs(VObj(sent.metadata.value), VObj(stored.metadata.value), Kept(round)))
  }

  lemma SettledIsSent(sent: Event, round: Rounding)
    requires UuidColumn.Normalized(sent.eventId).Some? && Rounds(round)
    ensures SentAs(sent, Settled(Decoded(sent, round), round), round)
  {
    hide ReadAs, Renumber, UuidColumn.Normalized;
    if sent.metadata.Some? {
      var v := VObj(sent.metadata.value);
      KeptIs(round);
      RenumberTwice(v, round, ThroughNumeric(round), Kept(round));
      RenumberIs(v, Kept(round));
      RenumberedObject(v, round);
    }
  }

  lemma RenumberedObject(v: Value, f: Rounding)
    requires v.VObj?
    ensures Renumber(v, f).VObj?
  {
  }

  lemma KeptIs(round: Rounding)
    requires Rounds(round)
    ensures forall n :: Kept(round)(n) == ThroughNumeric(round)(round(n))
  {
    forall n: Number
      ensures Kept(round)(n) == ThroughNumeric(round)(round(n))
    {
      KeptNumber(n, round);
      assert ThroughNumeric(round)(round(n)) == round(Numeric(round(n)));
      assert Kept(round)(n) == if round(n) == NEGATIVE_ZERO then ZERO else round(n);
    }
  }

  lemma KeptNumber(n: Number, round: Rounding)
    requires Rounds(round)
    ensures round(Numeric(round(n))) == if round(n) == NEGATIVE_ZERO then ZERO else round(n)
  {
  }

  lemma DecodedFloats(ev: Event, round: Rounding)
    requires Rounds(round)
    ensures Floats(Decoded(ev, round), round)
  {
    if ev.metadata.Some? {
      RenumberTwice(VObj(ev.metadata.value), round, round, round);
    }
  }

  /** The columns give back what was put in: a canonical event id, and no negative zero. */
  predicate Survives(ev: Event) {
    && UuidColumn.Canonical(ev.eventId)
    && (ev.metadata.Some? ==> NoNegativeZero(VObj(ev.metadata.value)))
  }

  /** Hashing what scanRow rebuilds hashes the original text if and only if the event survives the columns. */
  lemma CanonicalTextSurvives(ev: Event, prev: string, round: Rounding)
    requires UuidColumn.Normalized(ev.eventId).Some? && Rounds(round) && Floats(ev, round)
    ensures CanonicalText(Settled(ev, round), prev) == CanonicalText(ev, prev) <==> Survives(ev)
  {
    hide CanonicalText, UuidColumn.Normalized, UuidColumn.Canonical, NoNegativeZero;
    CanonicalTextInjective(Settled(ev, round), prev, ev, prev);
    UuidColumn.NormalizedIff(ev.eventId);
    if ev.metadata.Some? {
      var m, n := ev.metadata.value, Renumber(VObj(ev.metadata.value), ThroughNumeric(round)).members;
      NumericKeepsIff(VObj(m), round);
      assert n.Keys == m.Keys;
      assert n == map[] <==> m == map[];
    }
  }
}
