/** A Postgres uuid column: the spellings it accepts, and the one it gives back. */
module UuidColumn {
  import opened Prelude
  import opened Uuids

  predicate LowerHex(c: char) {
    '0' <= c <= '9' || 'a' <= c <= 'f'
  }

  predicate HexDigits(s: string) {
    forall i | 0 <= i < |s| :: LowerHex(s[i])
  }

  function Lower(c: char): char {
    if 'A' <= c <= 'F' then 'a' + (c - 'A') else c
  }

  function LowerCase(s: string): (t: string)
    ensures |t| == |s| && forall i | 0 <= i < |s| :: t[i] == Lower(s[i])
  {
    if s == "" then "" else [Lower(s[0])] + LowerCase(s[1..])
  }

  /** k groups of four digits, with a dash allowed after any but the last; and what follows them. */
  function ReadGroups(t: string, k: nat): (r: Option<(string, string)>)
    ensures r.Some? ==> |r.value.0| == 4 * k && HexDigits(r.value.0)
    decreases k
  {
    if k == 0 then Some(("", t))
    else if |t| < 4 || !HexDigits(LowerCase(t[..4])) then None
    else
      var rest := if k > 1 && |t| > 4 && t[4] == '-' then t[5..] else t[4..];
      match ReadGroups(rest, k - 1)
      case None => None
      case Some((digits, after)) => Some((LowerCase(t[..4]) + digits, after))
  }

  /** The 32 digits of an accepted spelling; braces must come in a pair. */
  function ReadId(s: string): (h: Option<string>)
    ensures h.Some? ==> |h.value| == 32 && HexDigits(h.value)
  {
    var braced := s != "" && s[0] == '{';
    var r := ReadGroups(if braced then s[1..] else s, 8);
    if r.Some? && r.value.1 == (if braced then "}" else "") then Some(r.value.0) else None
  }

  /** What the column gives back for an accepted spelling. */
  function Normalized(s: string): Option<string> {
    var h := ReadId(s);
    if h.Some? then Some(Dashed(h.value)) else None
  }

  /** Lower case, 8-4-4-4-12. */
  predicate Canonical(s: string) {
    |s| == 36 && forall i | 0 <= i < 36 :: if i in {8, 13, 18, 23} then s[i] == '-' else LowerHex(s[i])
  }

  lemma DashedIsCanonical(h: string)
    requires |h| == 32 && HexDigits(h)
    ensures Canonical(Dashed(h))
  {
  }

  /** One group of four lower-case digits, with or without a dash behind it. */
  lemma OneGroup(g: string, dash: bool, t: string, k: nat)
    requires |g| == 4 && HexDigits(g) && (dash ==> k > 0)
    requires !dash ==> t == "" || t[0] != '-'
    ensures var r := ReadGroups(t, k);
      ReadGroups(g + ((if dash then "-" else "") + t), k + 1)
        == if r.Some? then Some((g + r.value.0, r.value.1)) else None
  {
    var s := g + ((if dash then "-" else "") + t);
    assert s[..4] == g && LowerCase(s[..4]) == g;
    if dash {
      assert s[4] == '-' && s[5..] == t;
    } else {
      assert s[4..] == t;
    }
  }

  lemma NoGroups(t: string)
    ensures ReadGroups(t, 0) == Some(("", t))
  {
  }

  lemma Prepend(g: string, dash: bool, t: string, k: nat, digits: string)
    requires |g| == 4 && HexDigits(g) && (dash ==> k > 0)
    requires !dash ==> t == "" || t[0] != '-'
    requires ReadGroups(t, k) == Some((digits, ""))
    ensures ReadGroups(g + ((if dash then "-" else "") + t), k + 1) == Some((g + digits, ""))
  {
    hide ReadGroups;
    OneGroup(g, dash, t, k);
  }

  /** The last three groups. */
  lemma Node(h: string)
    requires |h| == 12 && HexDigits(h)
    ensures ReadGroups(h, 3) == Some((h, ""))
  {
    hide ReadGroups;
    NoGroups("");
    Prepend(h[8..], false, "", 0, "");
    Undashed(h[8..], "");
    Prepend(h[4..8], false, h[8..], 1, h[8..]);
    Undashed(h[4..8], h[8..]);
    assert h[4..8] + h[8..] == h[4..];
    Prepend(h[..4], false, h[4..], 2, h[4..]);
    Undashed(h[..4], h[4..]);
    assert h[..4] + h[4..] == h;
  }

  lemma Undashed(g: string, t: string)
    ensures g + ((if false then "-" else "") + t) == g + t && g + "" == g
  {
    assert "" + t == t;
  }

  lemma ReadsDashed(h: string)
    requires |h| == 32 && HexDigits(h)
    ensures ReadGroups(Dashed(h), 8) == Some((h, ""))
  {
    hide ReadGroups;
    Node(h[20..]);
    Prepend(h[16..20], true, h[20..], 3, h[20..]);
    var t4 := h[16..20] + ("-" + h[20..]);
    Prepend(h[12..16], true, t4, 4, h[16..20] + h[20..]);
    var t3 := h[12..16] + ("-" + t4);
    Prepend(h[8..12], true, t3, 5, h[12..16] + (h[16..20] + h[20..]));
    var t2 := h[8..12] + ("-" + t3);
    Prepend(h[4..8], true, t2, 6, h[8..12] + (h[12..16] + (h[16..20] + h[20..])));
    var t1 := h[4..8] + ("-" + t2);
    Prepend(h[..4], false, t1, 7, h[4..8] + (h[8..12] + (h[12..16] + (h[16..20] + h[20..]))));
    assert h[..4] + ("" + t1) == Dashed(h);
    assert h[..4] + (h[4..8] + (h[8..12] + (h[12..16] + (h[16..20] + h[20..])))) == h;
  }

  lemma CanonicalIsDashed(s: string) returns (h: string)
    requires Canonical(s)
    ensures |h| == 32 && HexDigits(h) && Dashed(h) == s
  {
    h := s[..8] + s[9..13] + s[14..18] + s[19..23] + s[24..];
    assert h[..8] == s[..8] && h[8..12] == s[9..13] && h[12..16] == s[14..18] && h[16..20] == s[19..23] && h[20..] == s[24..];
    assert s[8..9] == "-" && s[13..14] == "-" && s[18..19] == "-" && s[23..24] == "-";
    assert s == s[..8] + s[8..9] + s[9..13] + s[13..14] + s[14..18] + s[18..19] + s[19..23] + s[23..24] + s[24..];
  }

  /** The column gives back what was put in exactly for canonical spellings, all of which it accepts. */
  lemma NormalizedIff(s: string)
    ensures Normalized(s) == Some(s) <==> Canonical(s)
  {
    hide ReadGroups, Dashed;
    if Normalized(s) == Some(s) {
      DashedIsCanonical(ReadId(s).value);
    }
    if Canonical(s) {
      var h := CanonicalIsDashed(s);
      ReadsDashed(h);
      assert LowerHex(s[0]);
    }
  }

  /** What the column gives back is canonical, and is given back unchanged from then on. */
  lemma NormalizedIsCanonical(s: string)
    requires Normalized(s).Some?
    ensures Canonical(Normalized(s).value) && Normalized(Normalized(s).value) == Normalized(s)
  {
    hide ReadGroups, Dashed;
    DashedIsCanonical(ReadId(s).value);
    NormalizedIff(Normalized(s).value);
  }

  /** Letter case makes no difference to the digits. */
  lemma {:induction false} CaseForgotten(t: string, k: nat)
    ensures var r, l := ReadGroups(t, k), ReadGroups(LowerCase(t), k);
      && (r.Some? <==> l.Some?)
      && (r.Some? ==> l.value == (r.value.0, LowerCase(r.value.1)))
    decreases k
  {
    var u := LowerCase(t);
    if k > 0 && |t| >= 4 {
      assert LowerCase(u[..4]) == LowerCase(t[..4]);
      var dash := k > 1 && |t| > 4 && t[4] == '-';
      assert dash <==> k > 1 && |u| > 4 && u[4] == '-';
      var rest := if dash then t[5..] else t[4..];
      assert LowerCase(rest) == if dash then u[5..] else u[4..];
      CaseForgotten(rest, k - 1);
    }
  }

  /** An id that is canonical but for upper-case letters is accepted, and comes back in lower case. */
  lemma UpperCaseAccepted(s: string)
    requires Canonical(LowerCase(s))
    ensures Normalized(s) == Some(LowerCase(s))
  {
    hide ReadGroups, Dashed, LowerCase;
    CaseForgotten(s, 8);
    NormalizedIff(LowerCase(s));
    assert LowerHex(LowerCase(s)[0]) && LowerCase(s)[0] == Lower(s[0]);
  }

  /** What follows the digits is left over. */
  lemma {:induction false} LeftOver(t: string, k: nat, tail: string)
    requires ReadGroups(t, k).Some? && ReadGroups(t, k).value.1 == "" && (tail == "" || tail[0] != '-')
    ensures ReadGroups(t + tail, k) == Some((ReadGroups(t, k).value.0, tail))
    decreases k
  {
    var u := t + tail;
    if k == 0 {
      assert u == tail;
    } else {
      assert u[..4] == t[..4];
      var dash := k > 1 && |t| > 4 && t[4] == '-';
      var rest := if dash then t[5..] else t[4..];
      assert k == 1 ==> rest == "";
      assert (k > 1 && |u| > 4 && u[4] == '-') == dash;
      assert (if dash then u[5..] else u[4..]) == rest + tail;
      LeftOver(rest, k - 1, tail);
    }
  }

  /** Braces around a canonical id are taken off. */
  lemma BracesAccepted(s: string)
    requires Canonical(s)
    ensures Normalized("{" + s + "}") == Some(s)
  {
    hide ReadGroups, Dashed;
    var h := CanonicalIsDashed(s);
    ReadsDashed(h);
    LeftOver(s, 8, "}");
    var b := "{" + s + "}";
    assert b[1..] == s + "}";
  }

  /** The dashes of a canonical id may be left out. */
  lemma DashesOptional(h: string)
    requires |h| == 32 && HexDigits(h)
    ensures Normalized(h) == Some(Dashed(h))
  {
    hide ReadGroups, Dashed;
    DigitsRead(h, 8);
    assert LowerHex(h[0]);
  }

  lemma {:induction false} DigitsRead(h: string, k: nat)
    requires |h| == 4 * k && HexDigits(h)
    ensures ReadGroups(h, k) == Some((h, ""))
    decreases k
  {
    hide ReadGroups;
    if k == 0 {
      NoGroups(h);
    } else {
      DigitsRead(h[4..], k - 1);
      assert h[4..] != "" ==> LowerHex(h[4..][0]);
      Prepend(h[..4], false, h[4..], k - 1, h[4..]);
      Undashed(h[..4], h[4..]);
      assert h[..4] + h[4..] == h;
    }
  }

  const SHOUTED: string := "ABCDEFAB-CDEF-7BCD-9FAB-CDEFABCDEFAB"
  const SPOKEN: string := "abcdefab-cdef-7bcd-9fab-cdefabcdefab"

  /** An upper-case id is accepted but not given back; the same id in lower case is given back. */
  lemma Shouted()
    ensures !Canonical(SHOUTED) && Normalized(SHOUTED) == Some(SPOKEN) && Canonical(SPOKEN)
  {
    hide Normalized, LowerCase;
    assert !LowerHex(SHOUTED[0]);
    var low := LowerCase(SHOUTED);
    forall i | 0 <= i < 36
      ensures low[i] == SPOKEN[i]
    {
      assert low[i] == Lower(SHOUTED[i]);
    }
    assert low == SPOKEN;
    SpokenIsCanonical();
    UpperCaseAccepted(SHOUTED);
  }

  lemma SpokenIsCanonical()
    ensures Canonical(SPOKEN)
  {
  }
}
