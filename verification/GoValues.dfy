/** Values as Go's encoding/json keeps them in an any: objects are maps and forget their field order. */
module GoValues {
  import opened Json
  import opened Numbers
  import opened Prelude

  datatype Value =
    | VNull
    | VBool(b: bool)
    | VNum(number: Number)
    | VStr(s: string)
    | VArr(elems: Values)
    | VObj(members: map<string, Value>)
  datatype Values = VNil | VCons(head: Value, tail: Values)

  /** The two writers: Go sorts an object's members bytewise, jsonb by length first; they write numbers differently. */
  datatype Order = Bytewise | LengthFirst

  predicate LexLeq(a: string, b: string) {
    a == "" || (b != "" && (a[0] < b[0] || (a[0] == b[0] && LexLeq(a[1..], b[1..]))))
  }

  predicate Leq(a: string, b: string, order: Order) {
    if order.LengthFirst? && |a| != |b| then |a| < |b| else LexLeq(a, b)
  }

  lemma {:induction false} LexOrder(a: string, b: string, c: string)
    ensures LexLeq(a, b) || LexLeq(b, a)
    ensures LexLeq(a, b) && LexLeq(b, a) ==> a == b
    ensures LexLeq(a, b) && LexLeq(b, c) ==> LexLeq(a, c)
    decreases |a|
  {
    if a != "" && b != "" {
      LexOrder(a[1..], b[1..], if c == "" then "" else c[1..]);
      assert a == [a[0]] + a[1..] && b == [b[0]] + b[1..];
    }
  }

  lemma LeqOrder(a: string, b: string, c: string, order: Order)
    ensures Leq(a, b, order) || Leq(b, a, order)
    ensures Leq(a, b, order) && Leq(b, a, order) ==> a == b
    ensures Leq(a, b, order) && Leq(b, c, order) ==> Leq(a, c, order)
  {
    LexOrder(a, b, c);
  }

  /** One text is the start of the other, or smaller where they first differ. */
  ghost predicate Precedes(a: string, b: string) {
    a <= b || exists i :: DiffersAt(a, b, i)
  }

  ghost predicate DiffersAt(a: string, b: string, i: nat) {
    i < |a| && i < |b| && a[..i] == b[..i] && a[i] < b[i]
  }

  lemma {:induction false} LexLeqIff(a: string, b: string)
    ensures LexLeq(a, b) <==> Precedes(a, b)
    decreases |a|
  {
    if a != "" && b != "" && a[0] == b[0] {
      var c, d := a[1..], b[1..];
      LexLeqIff(c, d);
      assert a == [a[0]] + c && b == [a[0]] + d;
      forall i: nat
        ensures DiffersAt(c, d, i) <==> DiffersAt(a, b, i + 1)
      {
        assert i < |c| ==> a[..i + 1] == [a[0]] + c[..i];
        assert i < |d| ==> b[..i + 1] == [a[0]] + d[..i];
        assert i < |c| && i < |d| && a[..i + 1] == b[..i + 1] ==> c[..i] == a[..i + 1][1..] == d[..i];
      }
      assert !DiffersAt(a, b, 0);
      if i: nat :| DiffersAt(a, b, i) {
        assert DiffersAt(c, d, i - 1);
      }
      if i: nat :| DiffersAt(c, d, i) {
        assert DiffersAt(a, b, i + 1);
      }
      assert a <= b <==> c <= d;
    } else if a != "" && b != "" {
      assert a[0] < b[0] ==> DiffersAt(a, b, 0);
      forall i: nat | DiffersAt(a, b, i)
        ensures i == 0
      {
        SameStart(a, b, i);
      }
    }
  }

  lemma SameStart(a: string, b: string, i: nat)
    requires DiffersAt(a, b, i)
    ensures i > 0 ==> a[0] == b[0]
  {
    if i > 0 {
      assert a[0] == a[..i][0] && b[0] == b[..i][0];
    }
  }

  ghost predicate IsFirst(k: string, keys: set<string>, order: Order) {
    k in keys && forall other <- keys :: Leq(k, other, order)
  }

  lemma {:induction false} FirstExists(keys: set<string>, order: Order)
    requires keys != {}
    ensures exists k :: IsFirst(k, keys, order)
    decreases |keys|
  {
    var x :| x in keys;
    if keys == {x} {
      LeqOrder(x, x, x, order);
      assert IsFirst(x, keys, order);
    } else {
      var rest := keys - {x};
      assert rest != {};
      FirstExists(rest, order);
      var y :| IsFirst(y, rest, order);
      LeqOrder(x, y, x, order);
      LeqOrder(x, x, x, order);
      if Leq(y, x, order) {
        assert IsFirst(y, keys, order);
      } else {
        forall other <- keys
          ensures Leq(x, other, order)
        {
          LeqOrder(x, y, other, order);
        }
        assert IsFirst(x, keys, order);
      }
    }
  }

  function First(keys: set<string>, order: Order): (k: string)
    requires keys != {}
    ensures IsFirst(k, keys, order)
  {
    FirstExists(keys, order);
    assert forall a, b | a in keys && b in keys && Leq(a, b, order) && Leq(b, a, order) :: a == b by {
      forall a, b | Leq(a, b, order) && Leq(b, a, order)
        ensures a == b
      {
        LeqOrder(a, b, a, order);
      }
    }
    var k :| k in keys && forall other <- keys :: Leq(k, other, order);
    k
  }

  // ---------------------------------------------------------------- between values and JSON structure

  /** The number a writer's text stands for. */
  function Written(n: Number, order: Order): Number {
    if order.Bytewise? then n else Numeric(n)
  }

  function NumberText(n: Number, order: Order): (t: Lexeme)
    ensures ParseNumber(t) == Some(Written(n, order))
  {
    NumberBack(n);
    if order.Bytewise? then GoText(n) else NumericText(n)
  }

  function ToJson(v: Value, order: Order): Json
    decreases v, 1, 0
  {
    match v
    case VNull => Null
    case VBool(b) => Bool(b)
    case VNum(n) => Num(NumberText(n, order))
    case VStr(s) => Str(s)
    case VArr(elems) => Arr(ToItems(elems, order))
    case VObj(m) => Obj(ToFields(v, m.Keys, order))
  }

  function ToItems(vs: Values, order: Order): Items
    decreases vs, 0, 0
  {
    match vs
    case VNil => NoItems
    case VCons(h, t) => Item(ToJson(h, order), ToItems(t, order))
  }

  /** The members of an object that have the given keys, in order. */
  function ToFields(v: Value, keys: set<string>, order: Order): Fields
    requires v.VObj? && keys <= v.members.Keys
    decreases v, 0, |keys|
  {
    if keys == {} then NoFields
    else
      var k := First(keys, order);
      Field(k, ToJson(v.members[k], order), ToFields(v, keys - {k}, order))
  }

  /** Reading into an any, each number read by the given function; of repeated keys the last one wins. */
  function ToValue(j: Json, read: Rounding): Value {
    match j
    case Null => VNull
    case Bool(b) => VBool(b)
    case Num(n) => VNum(read(ParseNumber(n).value))
    case Str(s) => VStr(s)
    case Arr(items) => VArr(ToValues(items, read))
    case Obj(fields) => VObj(ToMembers(fields, read))
  }

  function ToValues(items: Items, read: Rounding): Values {
    match items
    case NoItems => VNil
    case Item(h, t) => VCons(ToValue(h, read), ToValues(t, read))
  }

  function ToMembers(fields: Fields, read: Rounding): map<string, Value> {
    match fields
    case NoFields => map[]
    case Field(k, v, r) => map[k := ToValue(v, read)] + ToMembers(r, read)
  }

  // ---------------------------------------------------------------- changing the numbers of a value

  function Renumber(v: Value, f: Rounding): Value {
    match v
    case VNum(n) => VNum(f(n))
    case VArr(elems) => VArr(RenumberAll(elems, f))
    case VObj(m) => VObj(map k | k in m :: Renumber(m[k], f))
    case _ => v
  }

  function RenumberAll(vs: Values, f: Rounding): Values {
    match vs
    case VNil => VNil
    case VCons(h, t) => VCons(Renumber(h, f), RenumberAll(t, f))
  }

  /** The same structure, keys and texts, with each number as the function gives it. */
  ghost predicate ReadAs(v: Value, w: Value, f: Rounding)
    decreases v
  {
    match v
    case VNull => w == VNull
    case VBool(b) => w == VBool(b)
    case VStr(s) => w == VStr(s)
    case VNum(n) => w == VNum(f(n))
    case VArr(vs) => w.VArr? && AllReadAs(vs, w.elems, f)
    case VObj(m) => w.VObj? && w.members.Keys == m.Keys && forall k <- m :: ReadAs(m[k], w.members[k], f)
  }

  ghost predicate AllReadAs(vs: Values, ws: Values, f: Rounding)
    decreases vs
  {
    match vs
    case VNil => ws == VNil
    case VCons(h, t) => ws.VCons? && ReadAs(h, ws.head, f) && AllReadAs(t, ws.tail, f)
  }

  lemma {:induction false} RenumberIs(v: Value, f: Rounding)
    ensures ReadAs(v, Renumber(v, f), f)
    decreases v
  {
    match v
    case VArr(elems) => RenumberAllIs(elems, f);
    case VObj(m) =>
      forall k <- m
        ensures ReadAs(m[k], Renumber(v, f).members[k], f)
      {
        RenumberIs(m[k], f);
      }
    case _ =>
  }

  lemma {:induction false} RenumberAllIs(vs: Values, f: Rounding)
    ensures AllReadAs(vs, RenumberAll(vs, f), f)
    decreases vs
  {
    match vs
    case VNil =>
    case VCons(h, t) =>
      RenumberIs(h, f);
      RenumberAllIs(t, f);
  }

  /** The texts in a value, keys included. */
  function Strings(v: Value): set<string> {
    match v
    case VStr(s) => {s}
    case VArr(vs) => AllStrings(vs)
    case VObj(m) => m.Keys + (set k, s | k in m && s in Strings(m[k]) :: s)
    case _ => {}
  }

  function AllStrings(vs: Values): set<string> {
    match vs
    case VNil => {}
    case VCons(h, t) => Strings(h) + AllStrings(t)
  }

  lemma {:induction false} StringsStay(v: Value, f: Rounding)
    ensures Strings(Renumber(v, f)) == Strings(v)
    decreases v
  {
    match v
    case VArr(elems) => AllStringsStay(elems, f);
    case VObj(m) =>
      var n := Renumber(v, f).members;
      forall k <- m
        ensures Strings(n[k]) == Strings(m[k])
      {
        StringsStay(m[k], f);
      }
      assert n.Keys == m.Keys;
    case _ =>
  }

  lemma {:induction false} AllStringsStay(vs: Values, f: Rounding)
    ensures AllStrings(RenumberAll(vs, f)) == AllStrings(vs)
    decreases vs
  {
    match vs
    case VNil =>
    case VCons(h, t) =>
      StringsStay(h, f);
      AllStringsStay(t, f);
  }

  lemma {:induction false} RenumberTwice(v: Value, f: Rounding, g: Rounding, both: Rounding)
    requires forall n :: both(n) == g(f(n))
    ensures Renumber(Renumber(v, f), g) == Renumber(v, both)
    decreases v
  {
    match v
    case VArr(elems) => RenumberAllTwice(elems, f, g, both);
    case VObj(m) =>
      forall k <- m
        ensures Renumber(Renumber(m[k], f), g) == Renumber(m[k], both)
      {
        RenumberTwice(m[k], f, g, both);
      }
    case _ =>
  }

  lemma {:induction false} RenumberAllTwice(vs: Values, f: Rounding, g: Rounding, both: Rounding)
    requires forall n :: both(n) == g(f(n))
    ensures RenumberAll(RenumberAll(vs, f), g) == RenumberAll(vs, both)
    decreases vs
  {
    match vs
    case VNil =>
    case VCons(h, t) =>
      RenumberTwice(h, f, g, both);
      RenumberAllTwice(t, f, g, both);
  }

  lemma {:induction false} RenumberSame(v: Value, f: Rounding)
    requires forall n :: f(n) == n
    ensures Renumber(v, f) == v
    decreases v
  {
    match v
    case VArr(elems) => RenumberAllSame(elems, f);
    case VObj(m) =>
      forall k <- m
        ensures Renumber(m[k], f) == m[k]
      {
        RenumberSame(m[k], f);
      }
    case _ =>
  }

  lemma {:induction false} RenumberAllSame(vs: Values, f: Rounding)
    requires forall n :: f(n) == n
    ensures RenumberAll(vs, f) == vs
    decreases vs
  {
    match vs
    case VNil =>
    case VCons(h, t) =>
      RenumberSame(h, f);
      RenumberAllSame(t, f);
  }

  /** No negative zero at any depth. */
  predicate NoNegativeZero(v: Value) {
    match v
    case VNum(n) => n != NEGATIVE_ZERO
    case VArr(elems) => NoneNegativeZero(elems)
    case VObj(m) => forall k <- m :: NoNegativeZero(m[k])
    case _ => true
  }

  predicate NoneNegativeZero(vs: Values) {
    match vs
    case VNil => true
    case VCons(h, t) => NoNegativeZero(h) && NoneNegativeZero(t)
  }

  /** A number that has been through a numeric, read as a float64. */
  function ThroughNumeric(round: Rounding): Rounding {
    n => round(Numeric(n))
  }

  /** Of a value made of float64 numbers, a numeric changes exactly the negative zeros. */
  lemma {:induction false} NumericKeepsIff(v: Value, round: Rounding)
    requires Rounds(round) && Renumber(v, round) == v
    ensures Renumber(v, ThroughNumeric(round)) == v <==> NoNegativeZero(v)
    decreases v
  {
    match v
    case VArr(elems) => NumericKeepsAllIff(elems, round);
    case VObj(m) =>
      forall k <- m
        ensures Renumber(m[k], ThroughNumeric(round)) == m[k] <==> NoNegativeZero(m[k])
      {
        assert Renumber(v, round).members[k] == m[k];
        NumericKeepsIff(m[k], round);
      }
      KeptPointwise(m, ThroughNumeric(round));
    case VNum(n) =>
      assert round(n) == n && ThroughNumeric(round)(n) == round(Numeric(n));
    case _ =>
  }

  lemma KeptPointwise(m: map<string, Value>, f: Rounding)
    ensures Renumber(VObj(m), f) == VObj(m) <==> forall k <- m :: Renumber(m[k], f) == m[k]
  {
    var changed := Renumber(VObj(m), f).members;
    assert forall k <- m :: changed[k] == Renumber(m[k], f);
    assert changed.Keys == m.Keys;
    if forall k <- m :: Renumber(m[k], f) == m[k] {
      assert changed == m;
    }
  }

  lemma {:induction false} NumericKeepsAllIff(vs: Values, round: Rounding)
    requires Rounds(round) && RenumberAll(vs, round) == vs
    ensures RenumberAll(vs, ThroughNumeric(round)) == vs <==> NoneNegativeZero(vs)
    decreases vs
  {
    match vs
    case VNil =>
    case VCons(h, t) =>
      NumericKeepsIff(h, round);
      NumericKeepsAllIff(t, round);
  }

  // ---------------------------------------------------------------- reading undoes writing

  /** The number that comes back when a writer's text is read by the given function. */
  function Reread(order: Order, read: Rounding): Rounding {
    n => read(Written(n, order))
  }

  lemma {:induction false} ValueBack(v: Value, order: Order, read: Rounding)
    ensures ToValue(ToJson(v, order), read) == Renumber(v, Reread(order, read))
    decreases v, 1, 0
  {
    match v
    case VNull =>
    case VBool(_) =>
    case VNum(_) =>
    case VStr(_) =>
    case VArr(elems) => ValuesBack(elems, order, read);
    case VObj(m) => MembersBack(v, m.Keys, order, read);
  }

  lemma {:induction false} ValuesBack(vs: Values, order: Order, read: Rounding)
    ensures ToValues(ToItems(vs, order), read) == RenumberAll(vs, Reread(order, read))
    decreases vs, 0, 0
  {
    match vs
    case VNil =>
    case VCons(h, t) =>
      ValueBack(h, order, read);
      ValuesBack(t, order, read);
  }

  lemma {:induction false} MembersBack(v: Value, keys: set<string>, order: Order, read: Rounding)
    requires v.VObj? && keys <= v.members.Keys
    ensures ToMembers(ToFields(v, keys, order), read) == map k | k in keys :: Renumber(v.members[k], Reread(order, read))
    decreases v, 0, |keys|
  {
    if keys != {} {
      var k := First(keys, order);
      ValueBack(v.members[k], order, read);
      MembersBack(v, keys - {k}, order, read);
    }
  }

  // ---------------------------------------------------------------- texts

  function Marshal(v: Value): string {
    Emit(ToJson(v, Bytewise), Go)
  }

  /** The structure of a whole JSON text. */
  function ReadText(t: string): Option<Json> {
    match ReadValue(t)
    case Got(j, rest) => if Skip(rest) == "" then Some(j) else None
    case Fail => None
  }

  lemma TextBack(j: Json, style: Style)
    ensures ReadText(Emit(j, style)) == Some(j)
  {
    ValueRoundTrip(j, style, "");
    assert Emit(j, style) + "" == Emit(j, style);
  }

  /** json.Unmarshal into an any. */
  function Unmarshal(t: string, round: Rounding): Option<Value> {
    var j := ReadText(t);
    if j.Some? then Some(ToValue(j.value, round)) else None
  }

  /**
   Whatever the order of the members, the writing of the numbers and the style of the text, reading
   gives the value back, but for what the writer or the reader does to a number.
   */
  lemma UnmarshalEmitted(v: Value, order: Order, style: Style, round: Rounding)
    ensures Unmarshal(Emit(ToJson(v, order), style), round) == Some(Renumber(v, Reread(order, round)))
  {
    TextBack(ToJson(v, order), style);
    ValueBack(v, order, round);
  }

  const EXACT: Rounding := n => n

  lemma ExactRead()
    ensures forall n :: Reread(Bytewise, EXACT)(n) == n
  {
    hide Numeric;
    forall n: Number
      ensures Reread(Bytewise, EXACT)(n) == n
    {
      assert Reread(Bytewise, EXACT)(n) == EXACT(Written(n, Bytewise));
    }
  }

  lemma MarshalBack(v: Value)
    ensures Unmarshal(Marshal(v), EXACT) == Some(v)
  {
    hide Unmarshal, Emit, Renumber, ToJson, Reread;
    UnmarshalEmitted(v, Bytewise, Go, EXACT);
    ExactRead();
    RenumberSame(v, Reread(Bytewise, EXACT));
  }

  /** Two values have the same text if and only if they are the same value. */
  lemma MarshalInjective(a: Value, b: Value)
    ensures Marshal(a) == Marshal(b) <==> a == b
  {
    hide Unmarshal, Marshal;
    MarshalBack(a);
    MarshalBack(b);
  }

  // ---------------------------------------------------------------- the order of members

  function Names(fields: Fields): seq<string> {
    match fields
    case NoFields => []
    case Field(k, _, r) => [k] + Names(r)
  }

  function Elements(ks: seq<string>): (s: set<string>)
    ensures forall k :: k in s <==> k in ks
  {
    set k <- ks
  }

  ghost predicate Ascending(ks: seq<string>) {
    forall i, j | 0 <= i < j < |ks| :: Precedes(ks[i], ks[j]) && ks[i] != ks[j]
  }

  /** Exactly these members, by name, each with its own value. */
  ghost predicate Holds(fs: Fields, v: Value, keys: set<string>)
    requires v.VObj? && keys <= v.members.Keys
  {
    Keys(fs) == keys && DistinctKeys(fs) && forall k <- keys :: At(fs, k) == ToJson(v.members[k], Bytewise)
  }

  /** Go writes a map's members in ascending order of their keys, each once, with its own value. */
  lemma {:induction false} WrittenInOrder(v: Value, keys: set<string>)
    requires v.VObj? && keys <= v.members.Keys
    ensures var fs := ToFields(v, keys, Bytewise);
      Ascending(Names(fs)) && Elements(Names(fs)) == keys && Holds(fs, v, keys)
    decreases |keys|
  {
    hide ToJson, First, Ascending, Holds, Names;
    if keys == {} {
      NoneWritten(v);
    } else {
      var k := First(keys, Bytewise);
      WrittenInOrder(v, keys - {k});
      FirstWritten(v, keys, k, ToFields(v, keys - {k}, Bytewise));
    }
  }

  lemma NoneWritten(v: Value)
    requires v.VObj?
    ensures Ascending(Names(NoFields)) && Elements(Names(NoFields)) == {} && Holds(NoFields, v, {})
  {
  }

  lemma FirstWritten(v: Value, keys: set<string>, k: string, r: Fields)
    requires v.VObj? && keys <= v.members.Keys && IsFirst(k, keys, Bytewise)
    requires Ascending(Names(r)) && Elements(Names(r)) == keys - {k} && Holds(r, v, keys - {k})
    ensures var fs := Field(k, ToJson(v.members[k], Bytewise), r);
      Ascending(Names(fs)) && Elements(Names(fs)) == keys && Holds(fs, v, keys)
  {
    hide ToJson, Precedes, Names, Keys, DistinctKeys, At, LexLeq;
    var ks := Names(r);
    OneMore(k, ToJson(v.members[k], Bytewise), r);
    forall j | 0 <= j < |ks|
      ensures Precedes(k, ks[j]) && k != ks[j]
    {
      assert ks[j] in Elements(ks);
      assert ks[j] in keys && Leq(k, ks[j], Bytewise) && LexLeq(k, ks[j]);
      LexLeqIff(k, ks[j]);
    }
  }

  lemma OneMore(k: string, j: Json, r: Fields)
    ensures var fs := Field(k, j, r);
      && Names(fs) == [k] + Names(r) && Elements(Names(fs)) == {k} + Elements(Names(r)) && Keys(fs) == {k} + Keys(r)
      && (k !in Keys(r) && DistinctKeys(r) ==> DistinctKeys(fs))
      && At(fs, k) == j && forall x <- Keys(r) | x != k :: At(fs, x) == At(r, x)
  {
    assert forall x :: x in [k] + Names(r) <==> x == k || x in Names(r);
  }

  function Keys(fields: Fields): set<string> {
    match fields
    case NoFields => {}
    case Field(k, _, r) => {k} + Keys(r)
  }

  predicate DistinctKeys(fields: Fields) {
    match fields
    case NoFields => true
    case Field(k, _, r) => k !in Keys(r) && DistinctKeys(r)
  }

  function At(fields: Fields, key: string): Json
    requires key in Keys(fields)
  {
    match fields
    case Field(k, v, r) => if k == key then v else At(r, key)
  }

  lemma {:induction false} MemberAt(fields: Fields, read: Rounding)
    requires DistinctKeys(fields)
    ensures ToMembers(fields, read).Keys == Keys(fields)
    ensures forall k <- Keys(fields) :: ToMembers(fields, read)[k] == ToValue(At(fields, k), read)
    decreases fields
  {
    match fields
    case NoFields =>
    case Field(k, v, r) => MemberAt(r, read);
  }

  /**
   Objects are read alike if and only if they have the same members, in any order, and each member is
   read alike; so members may be permuted at any depth.
   */
  lemma FieldOrderForgotten(a: Fields, b: Fields, read: Rounding)
    requires DistinctKeys(a) && DistinctKeys(b)
    ensures ToValue(Obj(a), read) == ToValue(Obj(b), read)
      <==> Keys(a) == Keys(b) && forall k <- Keys(a) :: ToValue(At(a, k), read) == ToValue(At(b, k), read)
  {
    hide ToMembers, At, Keys, DistinctKeys;
    MemberAt(a, read);
    MemberAt(b, read);
    SameMembers(ToMembers(a, read), ToMembers(b, read));
  }

  lemma SameMembers(m: map<string, Value>, n: map<string, Value>)
    ensures m == n <==> m.Keys == n.Keys && forall k <- m.Keys :: m[k] == n[k]
  {
  }

  // ---------------------------------------------------------------- NUL characters

  predicate NulFreeText(s: string) {
    '\0' !in s
  }

  /** A jsonb column rejects a NUL in any string or key. */
  predicate NulFree(j: Json) {
    match j
    case Str(s) => NulFreeText(s)
    case Arr(items) => NulFreeItems(items)
    case Obj(fields) => NulFreeFields(fields)
    case _ => true
  }

  predicate NulFreeItems(items: Items) {
    match items
    case NoItems => true
    case Item(h, t) => NulFree(h) && NulFreeItems(t)
  }

  predicate NulFreeFields(fields: Fields) {
    match fields
    case NoFields => true
    case Field(k, v, r) => NulFreeText(k) && NulFree(v) && NulFreeFields(r)
  }

  predicate NulFreeValue(v: Value) {
    match v
    case VStr(s) => NulFreeText(s)
    case VArr(elems) => NulFreeValues(elems)
    case VObj(m) => forall k <- m :: NulFreeText(k) && NulFreeValue(m[k])
    case _ => true
  }

  predicate NulFreeValues(vs: Values) {
    match vs
    case VNil => true
    case VCons(h, t) => NulFreeValue(h) && NulFreeValues(t)
  }

  lemma {:induction false} NulFreeStrings(v: Value)
    ensures NulFreeValue(v) <==> forall s <- Strings(v) :: '\0' !in s
    decreases v
  {
    match v
    case VArr(elems) => NulFreeAllStrings(elems);
    case VObj(m) =>
      forall k <- m
        ensures NulFreeValue(m[k]) <==> forall s <- Strings(m[k]) :: '\0' !in s
      {
        NulFreeStrings(m[k]);
      }
      forall k, s | k in m && s in Strings(m[k])
        ensures s in Strings(v)
      {
      }
    case _ =>
  }

  lemma {:induction false} NulFreeAllStrings(vs: Values)
    ensures NulFreeValues(vs) <==> forall s <- AllStrings(vs) :: '\0' !in s
    decreases vs
  {
    match vs
    case VNil =>
    case VCons(h, t) =>
      NulFreeStrings(h);
      NulFreeAllStrings(t);
  }

  lemma {:induction false} NulFreeIff(v: Value, order: Order)
    ensures NulFree(ToJson(v, order)) <==> NulFreeValue(v)
    decreases v, 1, 0
  {
    match v
    case VArr(elems) => NulFreeItemsIff(elems, order);
    case VObj(m) => NulFreeFieldsIff(v, m.Keys, order);
    case _ =>
  }

  lemma {:induction false} NulFreeItemsIff(vs: Values, order: Order)
    ensures NulFreeItems(ToItems(vs, order)) <==> NulFreeValues(vs)
    decreases vs, 0, 0
  {
    match vs
    case VNil =>
    case VCons(h, t) =>
      NulFreeIff(h, order);
      NulFreeItemsIff(t, order);
  }

  lemma {:induction false} NulFreeFieldsIff(v: Value, keys: set<string>, order: Order)
    requires v.VObj? && keys <= v.members.Keys
    ensures NulFreeFields(ToFields(v, keys, order)) <==> forall k <- keys :: NulFreeText(k) && NulFreeValue(v.members[k])
    decreases v, 0, |keys|
  {
    if keys != {} {
      var k := First(keys, order);
      NulFreeIff(v.members[k], order);
      NulFreeFieldsIff(v, keys - {k}, order);
      assert keys == keys - {k} + {k};
    }
  }
}
