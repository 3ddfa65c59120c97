/**
 JSON texts as Go's json.Marshal and a Postgres jsonb column write them, a reader for both, and the
 proof that reading undoes writing.  String escapes follow section 7 of RFC 8259.
 */
module Json {
  import opened Numbers
  import opened Prelude

  /** A number is kept as its text. */
  type Lexeme = s: string | ParseNumber(s).Some? witness "0"

  /** A JSON text's structure: fields in the order they are written. */
  datatype Json =
    | Null
    | Bool(b: bool)
    | Num(lexeme: Lexeme)
    | Str(s: string)
    | Arr(items: Items)
    | Obj(fields: Fields)
  datatype Items = NoItems | Item(head: Json, tail: Items)
  datatype Fields = NoFields | Field(key: string, value: Json, rest: Fields)

  /** Go: compact, with HTML-sensitive characters escaped.  Postgres: a blank after commas and colons. */
  datatype Style = Go | Postgres

  // ---------------------------------------------------------------- writing

  function HexDigit(d: nat): char
    requires d < 16
  {
    if d < 10 then '0' + d as char else 'a' + (d - 10) as char
  }

  function Hex4(n: nat): string
    requires n < 0x10000
  {
    [HexDigit(n / 0x1000), HexDigit(n / 0x100 % 16), HexDigit(n / 16 % 16), HexDigit(n % 16)]
  }

  predicate HexEscaped(c: char, style: Style) {
    c < ' ' || (style.Go? && c in {'<', '>', '&', '\U{2028}', '\U{2029}'})
  }

  function Escape(c: char, style: Style): string {
    if c == '"' then "\\\""
    else if c == '\\' then "\\\\"
    else if c == '\U{0008}' then "\\b"
    else if c == '\U{000C}' then "\\f"
    else if c == '\n' then "\\n"
    else if c == '\r' then "\\r"
    else if c == '\t' then "\\t"
    else if HexEscaped(c, style) then "\\u" + Hex4(c as nat)
    else [c]
  }

  function Escaped(s: string, style: Style): string {
    if s == "" then "" else Escape(s[0], style) + Escaped(s[1..], style)
  }

  function EmitString(s: string, style: Style): string {
    "\"" + (Escaped(s, style) + "\"")
  }

  function Blank(style: Style): string { if style.Go? then "" else " " }

  function Emit(j: Json, style: Style): string
    decreases j, 0
  {
    match j
    case Null => "null"
    case Bool(b) => if b then "true" else "false"
    case Num(n) => n
    case Str(s) => EmitString(s, style)
    case Arr(items) => "[" + EmitArr(items, style)
    case Obj(fields) => "{" + EmitObj(fields, style)
  }

  function EmitArr(items: Items, style: Style): string
    decreases items, 0
  {
    match items
    case NoItems => "]"
    case Item(h, t) => Emit(h, style) + EmitItems(t, style)
  }

  function EmitItems(items: Items, style: Style): string
    decreases items, 0
  {
    match items
    case NoItems => "]"
    case Item(h, t) => "," + (Blank(style) + (Emit(h, style) + EmitItems(t, style)))
  }

  function EmitObj(fields: Fields, style: Style): string
    decreases fields, 0
  {
    match fields
    case NoFields => "}"
    case Field(k, v, r) => EmitField(k, v, style) + EmitFields(r, style)
  }

  function EmitFields(fields: Fields, style: Style): string
    decreases fields, 0
  {
    match fields
    case NoFields => "}"
    case Field(k, v, r) => "," + (Blank(style) + (EmitField(k, v, style) + EmitFields(r, style)))
  }

  function EmitField(k: string, v: Json, style: Style): string
    decreases v, 1
  {
    EmitString(k, style) + (":" + (Blank(style) + Emit(v, style)))
  }

  // ---------------------------------------------------------------- reading

  /** A successful read: the value and the text that follows it. */
  datatype Read<+T> = Fail | Got(value: T, rest: string)

  function Skip(t: string): (r: string)
    ensures |r| <= |t|
    ensures r != "" ==> r[0] !in {' ', '\n', '\r', '\t'}
  {
    if t != "" && t[0] in {' ', '\n', '\r', '\t'} then Skip(t[1..]) else t
  }

  function HexValue(c: char): Option<nat> {
    if '0' <= c <= '9' then Some(c as nat - '0' as nat)
    else if 'a' <= c <= 'f' then Some(c as nat - 'a' as nat + 10)
    else if 'A' <= c <= 'F' then Some(c as nat - 'A' as nat + 10)
    else None
  }

  function ReadHex4(t: string): (r: Read<char>)
    ensures r.Got? ==> |r.rest| < |t|
  {
    if |t| < 4 then Fail
    else
      match (HexValue(t[0]), HexValue(t[1]), HexValue(t[2]), HexValue(t[3]))
      case (Some(a), Some(b), Some(c), Some(d)) =>
        var n := a * 0x1000 + b * 0x100 + c * 16 + d;
        if n < 0xD800 || 0xE000 <= n < 0x10000 then Got(n as char, t[4..]) else Fail
      case _ => Fail
  }

  /** One character of a string, escaped or not. */
  function ReadChar(t: string): (r: Read<char>)
    ensures r.Got? ==> |r.rest| < |t|
  {
    if t == "" || t[0] == '"' || t[0] < ' ' then Fail
    else if t[0] != '\\' then Got(t[0], t[1..])
    else if |t| == 1 then Fail
    else
      var e, rest := t[1], t[2..];
      if e in {'"', '\\', '/'} then Got(e, rest)
      else if e == 'b' then Got('\U{0008}', rest)
      else if e == 'f' then Got('\U{000C}', rest)
      else if e == 'n' then Got('\n', rest)
      else if e == 'r' then Got('\r', rest)
      else if e == 't' then Got('\t', rest)
      else if e == 'u' then ReadHex4(rest)
      else Fail
  }

  /** The rest of a string after its opening quote. */
  function ReadChars(t: string): (r: Read<string>)
    ensures r.Got? ==> |r.rest| < |t|
    decreases |t|
  {
    if t == "" then Fail
    else if t[0] == '"' then Got("", t[1..])
    else
      match ReadChar(t)
      case Fail => Fail
      case Got(c, rest) =>
        match ReadChars(rest)
        case Fail => Fail
        case Got(s, rest') => Got([c] + s, rest')
  }

  /** The reader takes the longest run of number characters. */
  function NumberRun(t: string): (n: nat)
    ensures n <= |t| && forall c <- t[..n] :: NumChar(c)
    ensures n < |t| ==> !NumChar(t[n])
  {
    if t == "" || !NumChar(t[0]) then 0
    else
      var n := 1 + NumberRun(t[1..]);
      assert t[..n] == [t[0]] + t[1..][..n - 1];
      n
  }

  function ReadLiteral(t: string): (r: Read<Json>)
    ensures r.Got? ==> |r.rest| < |t|
  {
    if "null" <= t then Got(Null, t[4..])
    else if "true" <= t then Got(Bool(true), t[4..])
    else if "false" <= t then Got(Bool(false), t[5..])
    else Fail
  }

  function ReadNumber(t: string): (r: Read<Json>)
    ensures r.Got? ==> |r.rest| < |t|
  {
    if ParseNumber(t[..NumberRun(t)]).Some? then Got(Num(t[..NumberRun(t)]), t[NumberRun(t)..]) else Fail
  }

  function ReadValue(text: string): (r: Read<Json>)
    ensures r.Got? ==> |r.rest| < |text|
    decreases |text|, 2
  {
    var t := Skip(text);
    if t == "" then Fail
    else if t[0] in {'n', 't', 'f'} then ReadLiteral(t)
    else if t[0] == '"' then
      match ReadChars(t[1..])
      case Fail => Fail
      case Got(s, rest) => Got(Str(s), rest)
    else if t[0] == '[' then
      match ReadArr(t[1..])
      case Fail => Fail
      case Got(vs, rest) => Got(Arr(vs), rest)
    else if t[0] == '{' then
      match ReadObj(t[1..])
      case Fail => Fail
      case Got(fs, rest) => Got(Obj(fs), rest)
    else ReadNumber(t)
  }

  /** The rest of an array after its opening bracket. */
  function ReadArr(text: string): (r: Read<Items>)
    ensures r.Got? ==> |r.rest| < |text|
    decreases |text|, 3
  {
    var t := Skip(text);
    if t != "" && t[0] == ']' then Got(NoItems, t[1..])
    else
      match ReadValue(t)
      case Fail => Fail
      case Got(v, rest) =>
        match ReadItems(rest)
        case Fail => Fail
        case Got(vs, rest') => Got(Item(v, vs), rest')
  }

  /** The rest of an object after its opening brace. */
  function ReadObj(text: string): (r: Read<Fields>)
    ensures r.Got? ==> |r.rest| < |text|
    decreases |text|, 3
  {
    var t := Skip(text);
    if t != "" && t[0] == '}' then Got(NoFields, t[1..])
    else
      match ReadField(t)
      case Fail => Fail
      case Got((k, v), rest) =>
        match ReadFields(rest)
        case Fail => Fail
        case Got(fs, rest') => Got(Field(k, v, fs), rest')
  }

  function ReadItems(text: string): (r: Read<Items>)
    ensures r.Got? ==> |r.rest| < |text|
    decreases |text|, 0
  {
    var t := Skip(text);
    if t == "" then Fail
    else if t[0] == ']' then Got(NoItems, t[1..])
    else if t[0] != ',' then Fail
    else
      match ReadValue(t[1..])
      case Fail => Fail
      case Got(v, rest) =>
        match ReadItems(rest)
        case Fail => Fail
        case Got(vs, rest') => Got(Item(v, vs), rest')
  }

  function ReadField(text: string): (r: Read<(string, Json)>)
    ensures r.Got? ==> |r.rest| < |text|
    decreases |text|, 0
  {
    var t := Skip(text);
    if t == "" || t[0] != '"' then Fail
    else
      match ReadChars(t[1..])
      case Fail => Fail
      case Got(k, rest) =>
        var u := Skip(rest);
        if u == "" || u[0] != ':' then Fail
        else
          match ReadValue(u[1..])
          case Fail => Fail
          case Got(v, rest') => Got((k, v), rest')
  }

  function ReadFields(text: string): (r: Read<Fields>)
    ensures r.Got? ==> |r.rest| < |text|
    decreases |text|, 1
  {
    var t := Skip(text);
    if t == "" then Fail
    else if t[0] == '}' then Got(NoFields, t[1..])
    else if t[0] != ',' then Fail
    else
      match ReadField(t[1..])
      case Fail => Fail
      case Got((k, v), rest) =>
        match ReadFields(rest)
        case Fail => Fail
        case Got(fs, rest') => Got(Field(k, v, fs), rest')
  }

  // ---------------------------------------------------------------- how strings are written

  /** Characters Go writes as they are. */
  predicate PlainChar(c: char) {
    c >= ' ' && c !in {'"', '\\', '<', '>', '&', '\U{2028}', '\U{2029}'}
  }

  lemma PlainEscape(c: char)
    requires PlainChar(c)
    ensures Escape(c, Go) == [c]
  {
  }

  /** Two characters for quotes, backslashes and these controls. */
  lemma ShortEscapes()
    ensures Escape('"', Go) == "\\\"" && Escape('\\', Go) == "\\\\"
    ensures Escape('\n', Go) == "\\n" && Escape('\r', Go) == "\\r" && Escape('\t', Go) == "\\t"
    ensures Escape('\U{0008}', Go) == "\\b" && Escape('\U{000C}', Go) == "\\f"
  {
  }

  /** Four hexadecimal digits for what HTML or JavaScript might trip over. */
  lemma HtmlEscapes()
    ensures Escape('<', Go) == "\\u003c" && Escape('>', Go) == "\\u003e" && Escape('&', Go) == "\\u0026"
    ensures Escape('\U{2028}', Go) == "\\u2028" && Escape('\U{2029}', Go) == "\\u2029"
  {
    hide Escape;
    HexEscape('<');
    HexEscape('>');
    HexEscape('&');
    HexEscape('\U{2028}');
    HexEscape('\U{2029}');
    assert Hex4(0x3c) == "003c";
    assert Hex4(0x3e) == "003e";
    assert Hex4(0x26) == "0026";
    assert Hex4(0x2028) == "2028";
    assert Hex4(0x2029) == "2029";
  }

  lemma HexEscape(c: char)
    requires c in {'<', '>', '&', '\U{2028}', '\U{2029}'} || (c < ' ' && c !in {'\n', '\r', '\t', '\U{0008}', '\U{000C}'})
    ensures c as nat < 0x10000 && Escape(c, Go) == "\\u" + Hex4(c as nat)
  {
    hide Hex4;
  }

  /** And for the other controls. */
  lemma ControlEscapes(c: char)
    requires c < ' ' && c !in {'\n', '\r', '\t', '\U{0008}', '\U{000C}'}
    ensures Escape(c, Go) == "\\u00" + [if c as nat < 16 then '0' else '1', HexDigit(c as nat % 16)]
  {
    hide Escape;
    HexEscape(c);
    var n := c as nat;
    assert Hex4(n)[0] == '0' && Hex4(n)[1] == '0' && Hex4(n)[2] == (if n < 16 then '0' else '1') && Hex4(n)[3] == HexDigit(n % 16);
  }

  lemma {:induction false} PlainEscaped(s: string)
    requires forall c <- s :: PlainChar(c)
    ensures EmitString(s, Go) == "\"" + s + "\""
    decreases |s|
  {
    if s != "" {
      PlainEscaped(s[1..]);
      PlainEscape(s[0]);
      PlainTail(s);
      assert s == [s[0]] + s[1..];
    }
  }

  lemma PlainTail(s: string)
    requires s != "" && EmitString(s[1..], Go) == "\"" + s[1..] + "\""
    ensures Escaped(s[1..], Go) == s[1..]
  {
    var e := EmitString(s[1..], Go);
    assert e == "\"" + Escaped(s[1..], Go) + "\"";
    assert e[1..|e| - 1] == Escaped(s[1..], Go) && e[1..|e| - 1] == s[1..];
  }

  // ---------------------------------------------------------------- how objects and arrays are written

  /** The text of an object with these names and these texts of values. */
  function ObjectText(members: seq<(string, string)>): string {
    if members == [] then "{}" else "{" + (MemberText(members[0]) + RestText(members[1..]))
  }

  function MemberText(m: (string, string)): string {
    EmitString(m.0, Go) + (":" + m.1)
  }

  function RestText(members: seq<(string, string)>): string {
    if members == [] then "}" else "," + (MemberText(members[0]) + RestText(members[1..]))
  }

  function MembersOf(fields: Fields): seq<(string, string)> {
    match fields
    case NoFields => []
    case Field(k, v, r) => [(k, Emit(v, Go))] + MembersOf(r)
  }

  lemma FieldText(k: string, v: Json)
    ensures EmitField(k, v, Go) == MemberText((k, Emit(v, Go)))
  {
    hide Emit, EmitString;
    assert "" + Emit(v, Go) == Emit(v, Go);
  }

  lemma {:induction false} FieldsText(fields: Fields)
    ensures EmitFields(fields, Go) == RestText(MembersOf(fields))
    decreases fields
  {
    hide Emit, EmitField, MemberText;
    match fields
    case NoFields =>
    case Field(k, v, r) =>
      FieldText(k, v);
      FieldsText(r);
      assert MembersOf(fields)[1..] == MembersOf(r);
      assert "" + (EmitField(k, v, Go) + EmitFields(r, Go)) == EmitField(k, v, Go) + EmitFields(r, Go);
  }

  /** Go writes an object's members in their order, with nothing but commas and colons between. */
  lemma ObjectIsText(fields: Fields)
    ensures Emit(Obj(fields), Go) == ObjectText(MembersOf(fields))
  {
    hide EmitField, MemberText;
    match fields
    case NoFields =>
    case Field(k, v, r) =>
      FieldText(k, v);
      FieldsText(r);
      assert MembersOf(fields)[1..] == MembersOf(r);
  }

  function ArrayText(texts: seq<string>): string {
    if texts == [] then "[]" else "[" + (texts[0] + MoreText(texts[1..]))
  }

  function MoreText(texts: seq<string>): string {
    if texts == [] then "]" else "," + (texts[0] + MoreText(texts[1..]))
  }

  function TextsOf(items: Items): seq<string> {
    match items
    case NoItems => []
    case Item(h, t) => [Emit(h, Go)] + TextsOf(t)
  }

  lemma {:induction false} ItemsText(items: Items)
    ensures EmitItems(items, Go) == MoreText(TextsOf(items))
    decreases items
  {
    hide Emit;
    match items
    case NoItems =>
    case Item(h, t) =>
      ItemsText(t);
      assert TextsOf(items)[1..] == TextsOf(t);
      assert "" + (Emit(h, Go) + EmitItems(t, Go)) == Emit(h, Go) + EmitItems(t, Go);
  }

  /** And an array's elements in their order, with nothing but commas between. */
  lemma ArrayIsText(items: Items)
    ensures Emit(Arr(items), Go) == ArrayText(TextsOf(items))
  {
    match items
    case NoItems =>
    case Item(h, t) =>
      ItemsText(t);
      assert TextsOf(items)[1..] == TextsOf(t);
  }

  // ---------------------------------------------------------------- reading undoes writing

  lemma HexDigitBack(d: nat)
    requires d < 16
    ensures HexValue(HexDigit(d)) == Some(d)
  {
  }

  lemma HexArithmetic(n: nat)
    requires n < 0x10000
    ensures n / 0x1000 < 16
    ensures n / 0x1000 * 0x1000 + n / 0x100 % 16 * 0x100 + n / 16 % 16 * 16 + n % 16 == n
  {
    var x := n / 16;
    var y := x / 16;
    assert y == n / 0x100 && y / 16 == n / 0x1000;
  }

  lemma HexRoundTrip(n: nat, rest: string)
    requires n < 0xD800
    ensures ReadHex4(Hex4(n) + rest) == Got(n as char, rest)
  {
    var t := Hex4(n) + rest;
    HexArithmetic(n);
    var a, b, c, d := n / 0x1000, n / 0x100 % 16, n / 16 % 16, n % 16;
    HexDigitBack(a);
    HexDigitBack(b);
    HexDigitBack(c);
    HexDigitBack(d);
    assert t[4..] == rest;
    assert t[0] == HexDigit(a) && t[1] == HexDigit(b) && t[2] == HexDigit(c) && t[3] == HexDigit(d);
  }

  /** The one-letter escapes. */
  function Short(c: char): Option<char> {
    if c == '"' then Some('"')
    else if c == '\\' then Some('\\')
    else if c == '\U{0008}' then Some('b')
    else if c == '\U{000C}' then Some('f')
    else if c == '\n' then Some('n')
    else if c == '\r' then Some('r')
    else if c == '\t' then Some('t')
    else None
  }

  lemma ReadShort(c: char, rest: string)
    requires Short(c).Some?
    ensures ReadChar(['\\', Short(c).value] + rest) == Got(c, rest)
  {
    var t := ['\\', Short(c).value] + rest;
    assert t[0] == '\\' && t[1] == Short(c).value && t[2..] == rest;
  }

  lemma ReadHex(c: char, rest: string)
    requires c as nat < 0xD800
    ensures ReadChar(("\\u" + Hex4(c as nat)) + rest) == Got(c, rest)
  {
    var t := ("\\u" + Hex4(c as nat)) + rest;
    assert t[0] == '\\' && t[1] == 'u' && t[2..] == Hex4(c as nat) + rest;
    HexRoundTrip(c as nat, rest);
  }

  lemma ReadPlain(c: char, rest: string)
    requires c != '"' && c != '\\' && c >= ' '
    ensures ReadChar([c] + rest) == Got(c, rest)
  {
    assert ([c] + rest)[0] == c && ([c] + rest)[1..] == rest;
  }

  lemma EscapeRoundTrip(c: char, style: Style, rest: string)
    ensures ReadChar(Escape(c, style) + rest) == Got(c, rest)
    ensures Escape(c, style) != "" && Escape(c, style)[0] != '"'
  {
    hide ReadChar, Hex4, ReadHex4;
    if Short(c).Some? {
      ReadShort(c, rest);
      assert Escape(c, style) == ['\\', Short(c).value];
    } else if HexEscaped(c, style) {
      ReadHex(c, rest);
      assert Escape(c, style) == "\\u" + Hex4(c as nat);
    } else {
      ReadPlain(c, rest);
    }
  }

  lemma {:induction false} CharsRoundTrip(s: string, style: Style, rest: string)
    ensures ReadChars(Escaped(s, style) + "\"" + rest) == Got(s, rest)
    decreases |s|
  {
    var t := Escaped(s, style) + "\"" + rest;
    if s == "" {
      assert t == "\"" + rest;
      assert t[1..] == rest;
    } else {
      var more := Escaped(s[1..], style) + "\"" + rest;
      assert t == Escape(s[0], style) + more;
      EscapeRoundTrip(s[0], style, more);
      CharsRoundTrip(s[1..], style, rest);
      assert t[0] == Escape(s[0], style)[0];
      assert [s[0]] + s[1..] == s;
    }
  }

  /** The text after a prefix of one character. */
  lemma DropFirst(c: char, x: string, rest: string)
    ensures (([c] + x) + rest)[0] == c && (([c] + x) + rest)[1..] == x + rest
  {
  }

  lemma {:induction false} StringRoundTrip(s: string, style: Style, rest: string)
    ensures var t := EmitString(s, style) + rest;
      t[0] == '"' && Skip(t) == t && ReadChars(t[1..]) == Got(s, rest)
  {
    CharsRoundTrip(s, style, rest);
    DropFirst('"', Escaped(s, style) + "\"", rest);
  }

  lemma RunRoundTrip(n: string, rest: string)
    requires forall c <- n :: NumChar(c)
    requires rest == "" || !NumChar(rest[0])
    ensures NumberRun(n + rest) == |n|
  {
    if n == "" {
      assert n + rest == rest;
    } else {
      assert (n + rest)[1..] == n[1..] + rest;
      RunRoundTrip(n[1..], rest);
    }
  }

  /** The first character of a value is neither a blank nor a closing bracket. */
  predicate Opens(t: string) {
    t != "" && t[0] !in {' ', '\n', '\r', '\t', ']', '}'}
  }

  lemma EmitOpens(j: Json, style: Style)
    ensures Opens(Emit(j, style))
  {
  }

  /** A blank in front of a value or a field makes no difference. */
  lemma BlankIgnored(style: Style, t: string)
    ensures ReadValue(Blank(style) + t) == ReadValue(t)
    ensures ReadField(Blank(style) + t) == ReadField(t)
  {
    if style.Go? {
      assert Blank(style) + t == t;
    } else {
      assert (Blank(style) + t)[1..] == t;
      assert Skip(Blank(style) + t) == Skip(t);
    }
  }

  lemma LiteralRoundTrip(j: Json, style: Style, rest: string)
    requires j.Null? || j.Bool?
    ensures ReadValue(Emit(j, style) + rest) == Got(j, rest)
  {
    var t := Emit(j, style) + rest;
    assert t[|Emit(j, style)|..] == rest && t[..|Emit(j, style)|] == Emit(j, style);
  }

  lemma NumberRoundTrip(n: Lexeme, style: Style, rest: string)
    requires rest == "" || !NumChar(rest[0])
    ensures ReadValue(Emit(Num(n), style) + rest) == Got(Num(n), rest)
  {
    hide ParseNumber;
    var t := n + rest;
    ParsedChars(n);
    RunRoundTrip(n, rest);
    assert t[0] == n[0] && t[..|n|] == n && t[|n|..] == rest;
    assert Skip(t) == t;
  }

  lemma DropSeparator(c: char, style: Style, x: string, y: string, rest: string)
    ensures var t := [c] + (Blank(style) + (x + y)) + rest;
      t[0] == c && t[1..] == Blank(style) + (x + (y + rest))
  {
    DropFirst(c, Blank(style) + (x + y), rest);
    assert Blank(style) + (x + y) + rest == Blank(style) + (x + (y + rest));
  }

  lemma {:induction false} ValueRoundTrip(j: Json, style: Style, rest: string)
    requires rest == "" || !NumChar(rest[0])
    ensures ReadValue(Emit(j, style) + rest) == Got(j, rest)
    decreases j, 2
  {
    hide ReadArr, ReadObj, EmitArr, EmitObj, ReadChars, ParseNumber;
    match j
    case Null => LiteralRoundTrip(j, style, rest);
    case Bool(_) => LiteralRoundTrip(j, style, rest);
    case Num(n) => NumberRoundTrip(n, style, rest);
    case Str(s) => StringRoundTrip(s, style, rest);
    case Arr(items) =>
      ArrRoundTrip(items, style, rest);
      DropFirst('[', EmitArr(items, style), rest);
    case Obj(fields) =>
      ObjRoundTrip(fields, style, rest);
      DropFirst('{', EmitObj(fields, style), rest);
  }

  lemma {:induction false} ArrRoundTrip(items: Items, style: Style, rest: string)
    ensures ReadArr(EmitArr(items, style) + rest) == Got(items, rest)
    decreases items, 3
  {
    hide ReadItems, EmitItems, Emit, ReadValue;
    var t := EmitArr(items, style) + rest;
    match items
    case NoItems => assert t[1..] == rest;
    case Item(h, tl) =>
      var after := EmitItems(tl, style) + rest;
      assert t == Emit(h, style) + after;
      EmitOpens(h, style);
      assert Skip(t) == t;
      ItemsRoundTrip(tl, style, rest);
      ValueRoundTrip(h, style, after);
  }

  lemma {:induction false} ItemsRoundTrip(items: Items, style: Style, rest: string)
    ensures ReadItems(EmitItems(items, style) + rest) == Got(items, rest)
    ensures !NumChar((EmitItems(items, style) + rest)[0])
    decreases items, 0
  {
    var t := EmitItems(items, style) + rest;
    match items
    case NoItems => assert t[1..] == rest;
    case Item(h, tl) =>
      var after := EmitItems(tl, style) + rest;
      ItemsRoundTrip(tl, style, rest);
      ValueRoundTrip(h, style, after);
      BlankIgnored(style, Emit(h, style) + after);
      DropSeparator(',', style, Emit(h, style), EmitItems(tl, style), rest);
  }

  lemma FieldOpens(k: string, v: Json, style: Style, rest: string)
    ensures var t := EmitField(k, v, style) + rest; t[0] == '"' && Skip(t) == t
  {
    assert EmitField(k, v, style)[0] == '"';
  }

  lemma {:induction false} ObjRoundTrip(fields: Fields, style: Style, rest: string)
    ensures ReadObj(EmitObj(fields, style) + rest) == Got(fields, rest)
    decreases fields, 3
  {
    hide ReadField, ReadFields, EmitField, EmitFields, ReadValue;
    var t := EmitObj(fields, style) + rest;
    match fields
    case NoFields => assert t[1..] == rest;
    case Field(k, v, r) =>
      var after := EmitFields(r, style) + rest;
      assert t == EmitField(k, v, style) + after;
      FieldOpens(k, v, style, after);
      FieldsRoundTrip(r, style, rest);
      FieldRoundTrip(k, v, style, after);
  }

  lemma AfterColon(style: Style, x: string, rest: string)
    ensures var u := ":" + (Blank(style) + x) + rest;
      u[0] == ':' && Skip(u) == u && u[1..] == Blank(style) + (x + rest)
  {
    DropFirst(':', Blank(style) + x, rest);
    assert Blank(style) + x + rest == Blank(style) + (x + rest);
  }

  lemma {:induction false} FieldRoundTrip(k: string, v: Json, style: Style, rest: string)
    requires rest == "" || !NumChar(rest[0])
    ensures ReadField(EmitField(k, v, style) + rest) == Got((k, v), rest)
    decreases v, 3
  {
    hide Emit, EmitString, ReadValue, Skip;
    var u := ":" + (Blank(style) + Emit(v, style)) + rest;
    assert EmitField(k, v, style) + rest == EmitString(k, style) + u;
    StringRoundTrip(k, style, u);
    AfterColon(style, Emit(v, style), rest);
    BlankIgnored(style, Emit(v, style) + rest);
    ValueRoundTrip(v, style, rest);
  }

  lemma {:induction false} FieldsRoundTrip(fields: Fields, style: Style, rest: string)
    ensures ReadFields(EmitFields(fields, style) + rest) == Got(fields, rest)
    ensures !NumChar((EmitFields(fields, style) + rest)[0])
    decreases fields, 1
  {
    hide ReadField, EmitField, ReadValue;
    var t := EmitFields(fields, style) + rest;
    match fields
    case NoFields => assert t[1..] == rest;
    case Field(k, v, r) =>
      var after := EmitFields(r, style) + rest;
      FieldsRoundTrip(r, style, rest);
      FieldRoundTrip(k, v, style, after);
      BlankIgnored(style, EmitField(k, v, style) + after);
      DropSeparator(',', style, EmitField(k, v, style), EmitFields(r, style), rest);
  }
}
