/** Distinguished names told without the grammar: which texts are names, by what they are put together
    from (section 3 of RFC 4514), and that the grammar of the recogniser describes exactly these. */
module DnText {
  import opened Prelude
  import opened Regex
  import opened Rules
  import opened Utf8
  import opened DirectoryString
  import D = Dn

  /* ---- Lists ---- */

  function Tail(parts: seq<seq<byte>>, separator: byte): seq<byte> {
    if parts == [] then [] else [separator] + parts[0] + Tail(parts[1..], separator)
  }

  function Joined(parts: seq<seq<byte>>, separator: byte): seq<byte>
    requires parts != []
  {
    parts[0] + Tail(parts[1..], separator)
  }

  /** At least `least` texts of the kind, with the separator between them. */
  ghost predicate ListOf(text: seq<byte> -> bool, separator: byte, least: nat, s: seq<byte>) {
    exists parts :: parts != [] && |parts| >= least && s == Joined(parts, separator) && forall p | p in parts :: text(p)
  }

  ghost predicate Describes(text: seq<byte> -> bool, r: Regex) { forall x :: Matches(r, x) <==> text(x) }

  lemma {:induction false} TailOut(item: Regex, text: seq<byte> -> bool, separator: byte, s: seq<byte>)
    returns (parts: seq<seq<byte>>)
    requires Describes(text, item) && Matches(Star(Cat(Byte(separator), item)), s)
    ensures s == Tail(parts, separator) && forall p | p in parts :: text(p)
    decreases |s|
  {
    if s == [] {
      parts := [];
    } else {
      var x, y := StarElim(Cat(Byte(separator), item), s);
      var c, p := CatElim(Byte(separator), item, x);
      var rest := TailOut(item, text, separator, y);
      parts := [p] + rest;
      assert c == [separator] && Matches(item, p) && parts[1..] == rest;
    }
  }

  lemma {:induction false} TailIn(item: Regex, text: seq<byte> -> bool, separator: byte, parts: seq<seq<byte>>)
    requires Describes(text, item) && forall p | p in parts :: text(p)
    ensures Matches(Star(Cat(Byte(separator), item)), Tail(parts, separator))
    decreases |parts|
  {
    if parts != [] {
      TailIn(item, text, separator, parts[1..]);
      assert text(parts[0]) && Matches(item, parts[0]);
      CatIntro(Byte(separator), item, [separator], parts[0]);
      StarIntro(Cat(Byte(separator), item), [separator] + parts[0], Tail(parts[1..], separator));
    }
  }

  lemma ListText(item: Regex, text: seq<byte> -> bool, separator: byte, s: seq<byte>)
    requires Describes(text, item)
    ensures Matches(Cat(item, Star(Cat(Byte(separator), item))), s) <==> ListOf(text, separator, 1, s)
  {
    var more := Star(Cat(Byte(separator), item));
    if Matches(Cat(item, more), s) {
      var x, y := CatElim(item, more, s);
      var rest := TailOut(item, text, separator, y);
      var parts := [x] + rest;
      assert parts[1..] == rest && Matches(item, x);
    }
    if parts :| parts != [] && s == Joined(parts, separator) && forall p | p in parts :: text(p) {
      assert text(parts[0]) && Matches(item, parts[0]);
      TailIn(item, text, separator, parts[1..]);
      CatIntro(item, more, parts[0], Tail(parts[1..], separator));
    }
  }

  /* ---- Numbers, keywords and object identifiers ---- */

  predicate IsDigit(b: byte) { 0x30 <= b <= 0x39 }

  predicate IsLetter(b: byte) { 0x41 <= b <= 0x5a || 0x61 <= b <= 0x7a }

  predicate IsHex(b: byte) { IsDigit(b) || 0x41 <= b <= 0x46 || 0x61 <= b <= 0x66 }

  predicate IsKeyChar(b: byte) { IsLetter(b) || IsDigit(b) || b == 0x2d }

  /** Digits without a leading zero. */
  predicate NumberText(s: seq<byte>) { s != [] && (forall b | b in s :: IsDigit(b)) && (s[0] == 0x30 ==> |s| == 1) }

  predicate KeyText(s: seq<byte>) { s != [] && IsLetter(s[0]) && forall b | b in s :: IsKeyChar(b) }

  ghost predicate OidText(s: seq<byte>) { ListOf(NumberText, 0x2e, 2, s) }

  ghost predicate TypeText(s: seq<byte>) { KeyText(s) || OidText(s) }

  ghost predicate OneOf(r: Regex, ok: byte -> bool) { forall x :: Matches(r, x) <==> |x| == 1 && ok(x[0]) }

  lemma {:induction false} StarOfChars(r: Regex, ok: byte -> bool, s: seq<byte>)
    requires OneOf(r, ok)
    ensures Matches(Star(r), s) <==> forall b | b in s :: ok(b)
    decreases |s|
  {
    if s != [] {
      StarOfChars(r, ok, s[1..]);
      if Matches(Star(r), s) {
        var x, y := StarElim(r, s);
        assert y == s[1..] && forall b | b in s :: b == x[0] || b in y;
      }
      if forall b | b in s :: ok(b) {
        assert Matches(r, [s[0]]);
        StarIntro(r, [s[0]], s[1..]);
        assert [s[0]] + s[1..] == s;
      }
    }
  }

  lemma FirstAndMore(first: Regex, more: Regex, isFirst: byte -> bool, isMore: byte -> bool, s: seq<byte>)
    requires OneOf(first, isFirst) && OneOf(more, isMore)
    ensures Matches(Cat(first, Star(more)), s) <==> s != [] && isFirst(s[0]) && forall b | b in s[1..] :: isMore(b)
  {
    if Matches(Cat(first, Star(more)), s) {
      var x, y := CatElim(first, Star(more), s);
      assert y == s[1..];
      StarOfChars(more, isMore, y);
    }
    if s != [] && isFirst(s[0]) && forall b | b in s[1..] :: isMore(b) {
      StarOfChars(more, isMore, s[1..]);
      assert Matches(first, [s[0]]);
      CatIntro(first, Star(more), [s[0]], s[1..]);
      assert [s[0]] + s[1..] == s;
    }
  }

  predicate IsLeadingDigit(b: byte) { IsDigit(b) && b != 0x30 }

  lemma CharsAreRanges()
    ensures OneOf(DIGIT, IsDigit) && OneOf(LDIGIT, IsLeadingDigit) && OneOf(ALPHA, IsLetter) && OneOf(KEYCHAR, IsKeyChar)
    ensures OneOf(D.HEX, IsHex)
  {
    forall x ensures Matches(KEYCHAR, x) <==> |x| == 1 && IsKeyChar(x[0]) {
      AltIff(DIGIT, HYPHEN, x);
      AltIff(ALPHA, Alt(DIGIT, HYPHEN), x);
    }
    forall x ensures Matches(D.HEX, x) <==> |x| == 1 && IsHex(x[0]) {
      AltIff(Range(0x41, 0x46), Range(0x61, 0x66), x);
      AltIff(DIGIT, Alt(Range(0x41, 0x46), Range(0x61, 0x66)), x);
    }
  }

  lemma InTail(s: seq<byte>)
    requires s != []
    ensures forall b :: b in s <==> b == s[0] || b in s[1..]
  {
  }

  lemma NumberIff(s: seq<byte>)
    ensures Matches(NUMBER, s) <==> NumberText(s)
  {
    D.NumberSame();
    CharsAreRanges();
    FirstAndMore(LDIGIT, DIGIT, IsLeadingDigit, IsDigit, s);
    assert Matches(D.NUMBER', s) <==> Matches(Byte(0x30), s) || Matches(Cat(LDIGIT, Star(DIGIT)), s);
    if s != [] { InTail(s); }
  }

  lemma KeyIff(s: seq<byte>)
    ensures Matches(KEYSTRING, s) <==> KeyText(s)
  {
    CharsAreRanges();
    FirstAndMore(ALPHA, KEYCHAR, IsLetter, IsKeyChar, s);
    if s != [] { InTail(s); }
  }

  lemma TwoOrMore(item: Regex, text: seq<byte> -> bool, separator: byte, s: seq<byte>)
    requires Describes(text, item)
    ensures Matches(Cat(item, Plus(Cat(Byte(separator), item))), s) <==> ListOf(text, separator, 2, s)
  {
    var more := Cat(Byte(separator), item);
    if Matches(Cat(item, Plus(more)), s) {
      var x, y := CatElim(item, Plus(more), s);
      var u, v := CatElim(more, Star(more), y);
      var c, n := CatElim(Byte(separator), item, u);
      StarIntro(more, u, v);
      var rest := TailOut(item, text, separator, y);
      var parts := [x] + rest;
      assert rest != [] && parts[1..] == rest && Matches(item, x);
    }
    if parts :| parts != [] && |parts| >= 2 && s == Joined(parts, separator) && forall p | p in parts :: text(p) {
      var rest := parts[1..];
      assert text(parts[0]) && text(rest[0]) && Matches(item, parts[0]) && Matches(item, rest[0]);
      TailIn(item, text, separator, rest[1..]);
      CatIntro(Byte(separator), item, [separator], rest[0]);
      CatIntro(more, Star(more), [separator] + rest[0], Tail(rest[1..], separator));
      CatIntro(item, Plus(more), parts[0], Tail(rest, separator));
    }
  }

  lemma OidIff(s: seq<byte>)
    ensures Matches(NumericOid(NUMBER), s) <==> OidText(s)
  {
    forall x ensures Matches(NUMBER, x) <==> NumberText(x) { NumberIff(x); }
    TwoOrMore(NUMBER, NumberText, 0x2e, s);
  }

  lemma TypeIff(s: seq<byte>)
    ensures Matches(Alt(KEYSTRING, NumericOid(NUMBER)), s) <==> TypeText(s)
  {
    KeyIff(s);
    OidIff(s);
  }

  /* ---- Values ---- */

  /** What RFC 4514 does not allow unescaped anywhere in a value. */
  predicate Reserved(b: byte) { b in {0x00, 0x22, 0x2b, 0x2c, 0x3b, 0x3c, 0x3e, 0x5c} }

  ghost predicate MultiByte(u: seq<byte>) { exists c: scalar :: c >= 0x80 && u == Encode(c) }

  ghost predicate Plain(u: seq<byte>) { (|u| == 1 && u[0] < 0x80 && !Reserved(u[0])) || MultiByte(u) }

  /** A backslash and the character itself, or two hexadecimal digits. */
  predicate Escaped(u: seq<byte>) {
    u != [] && u[0] == 0x5c &&
    ((|u| == 2 && u[1] in {0x5c, 0x22, 0x2b, 0x2c, 0x3b, 0x3c, 0x3e, 0x20, 0x23, 0x3d})
      || (|u| == 3 && IsHex(u[1]) && IsHex(u[2])))
  }

  ghost predicate Unit(u: seq<byte>) { Plain(u) || Escaped(u) }

  function Concat(units: seq<seq<byte>>): seq<byte> { if units == [] then [] else units[0] + Concat(units[1..]) }

  /** Characters and escapes; neither a space at either end nor a number sign in front is left bare. */
  ghost predicate StringText(s: seq<byte>) {
    exists units :: s == Concat(units) && StringUnits(units)
  }

  ghost predicate StringUnits(units: seq<seq<byte>>) {
    && (forall u | u in units :: Unit(u))
    && (units != [] ==> units[0] != [0x20] && units[0] != [0x23] && units[|units| - 1] != [0x20])
  }

  predicate HexText(s: seq<byte>) { |s| >= 3 && |s| % 2 == 1 && s[0] == 0x23 && forall b | b in s[1..] :: IsHex(b) }

  ghost predicate ValueText(s: seq<byte>) { StringText(s) || HexText(s) }

  lemma MultiByteIff(u: seq<byte>)
    ensures Matches(UTFMB, u) <==> MultiByte(u)
  {
    MultiByteBytes(u);
    if Matches(UTFMB, u) {
      AltIff(UTF1, UTFMB, u);
      var c := Decoded(u);
    }
    if c: scalar :| c >= 0x80 && u == Encode(c) {
      Encoded(c);
      Utf8Iff(u);
    }
  }

  lemma MultiByteBytes(u: seq<byte>)
    ensures Matches(UTFMB, u) <==> Two(u) || Three(u) || Four(u)
  {
    TwoIff(Range(0xc2, 0xdf), UTF0, u);
    Utf3Iff(u);
    Utf4Iff(u);
    AltIff(UTF3, UTF4, u);
    AltIff(UTF2, Alt(UTF3, UTF4), u);
  }

  lemma LeadBytes(b: byte)
    ensures InRanges(D.LUTF1_RANGES, b) <==> b < 0x80 && !Reserved(b) && b != 0x20 && b != 0x23
  {
    var rs := D.LUTF1_RANGES;
    if b < 0x80 && !Reserved(b) && b != 0x20 && b != 0x23 {
      var i := if b < 0x20 then 0 else if b == 0x21 then 1 else if b < 0x2b then 2 else if b < 0x3b then 3
        else if b == 0x3d then 4 else if b < 0x5c then 5 else 6;
      assert rs[i].0 <= b <= rs[i].1;
    }
  }

  lemma StringBytes(b: byte)
    ensures InRanges(D.SUTF1_RANGES, b) <==> b < 0x80 && !Reserved(b)
  {
    var rs := D.SUTF1_RANGES;
    if b < 0x80 && !Reserved(b) {
      var i := if b < 0x22 then 0 else if b < 0x2b then 1 else if b < 0x3b then 2 else if b == 0x3d then 3
        else if b < 0x5c then 4 else 5;
      assert rs[i].0 <= b <= rs[i].1;
    }
  }

  lemma TrailBytes(b: byte)
    ensures InRanges(D.TUTF1_RANGES, b) <==> b < 0x80 && !Reserved(b) && b != 0x20
  {
    D.InSutf1(b);
    StringBytes(b);
  }

  lemma SpecialIff(u: seq<byte>)
    ensures Matches(D.SPECIAL, u) <==> |u| == 1 && u[0] in {0x22, 0x2b, 0x2c, 0x3b, 0x3c, 0x3e, 0x20, 0x23, 0x3d}
  {
    AltIff(D.LANGLE, D.RANGLE, u);
    AltIff(D.SEMI, Alt(D.LANGLE, D.RANGLE), u);
    AltIff(D.COMMA, Alt(D.SEMI, Alt(D.LANGLE, D.RANGLE)), u);
    AltIff(D.PLUS, Alt(D.COMMA, Alt(D.SEMI, Alt(D.LANGLE, D.RANGLE))), u);
    AltIff(D.DQUOTE, Alt(D.PLUS, Alt(D.COMMA, Alt(D.SEMI, Alt(D.LANGLE, D.RANGLE)))), u);
    AltIff(D.SHARP, D.EQUALS, u);
    AltIff(SPACE, Alt(D.SHARP, D.EQUALS), u);
    AltIff(D.ESCAPED, Alt(SPACE, Alt(D.SHARP, D.EQUALS)), u);
  }

  lemma HexPairIff(u: seq<byte>)
    ensures Matches(D.HEXPAIR, u) <==> |u| == 2 && IsHex(u[0]) && IsHex(u[1])
  {
    CharsAreRanges();
    if Matches(D.HEXPAIR, u) { var x, y := CatElim(D.HEX, D.HEX, u); }
    if |u| == 2 && IsHex(u[0]) && IsHex(u[1]) {
      assert Matches(D.HEX, [u[0]]) && Matches(D.HEX, [u[1]]);
      CatIntro(D.HEX, D.HEX, [u[0]], [u[1]]);
      assert [u[0]] + [u[1]] == u;
    }
  }

  lemma PairIff(u: seq<byte>)
    ensures Matches(D.PAIR, u) <==> Escaped(u)
  {
    LeadIff(D.ESC, Alt(D.ESC, Alt(D.SPECIAL, D.HEXPAIR)), u);
    if u != [] {
      SpecialIff(u[1..]);
      HexPairIff(u[1..]);
      AltIff(D.SPECIAL, D.HEXPAIR, u[1..]);
      AltIff(D.ESC, Alt(D.SPECIAL, D.HEXPAIR), u[1..]);
    }
  }

  /** A choice of byte ranges, multi-byte characters and escapes, by which single bytes it takes. */
  lemma CharOf(rs: seq<(int, int)>, ok: byte -> bool, u: seq<byte>)
    requires rs != [] && forall b: byte :: InRanges(rs, b) <==> ok(b)
    ensures Matches(Alt(Alt(Ranges(rs), UTFMB), D.PAIR), u) <==> (|u| == 1 && ok(u[0])) || MultiByte(u) || Escaped(u)
  {
    D.CharIff(rs, UTFMB, D.PAIR, u);
    MultiByteIff(u);
    PairIff(u);
  }

  predicate LeadByte(b: byte) { b < 0x80 && !Reserved(b) && b != 0x20 && b != 0x23 }

  predicate StringByte(b: byte) { b < 0x80 && !Reserved(b) }

  predicate TrailByte(b: byte) { b < 0x80 && !Reserved(b) && b != 0x20 }

  lemma ByteKinds()
    ensures forall b: byte :: InRanges(D.LUTF1_RANGES, b) <==> LeadByte(b)
    ensures forall b: byte :: InRanges(D.SUTF1_RANGES, b) <==> StringByte(b)
    ensures forall b: byte :: InRanges(D.TUTF1_RANGES, b) <==> TrailByte(b)
  {
    forall b: byte ensures InRanges(D.LUTF1_RANGES, b) <==> LeadByte(b) { LeadBytes(b); }
    forall b: byte ensures InRanges(D.SUTF1_RANGES, b) <==> StringByte(b) { StringBytes(b); }
    forall b: byte ensures InRanges(D.TUTF1_RANGES, b) <==> TrailByte(b) { TrailBytes(b); }
  }

  lemma LongUnit(u: seq<byte>)
    requires MultiByte(u) || Escaped(u)
    ensures |u| > 1
  {
  }

  lemma UnitIff(u: seq<byte>)
    ensures Matches(Alt(D.STRINGCHAR, D.PAIR), u) <==> Unit(u)
    ensures Matches(Alt(D.LEADCHAR, D.PAIR), u) <==> Unit(u) && u != [0x20] && u != [0x23]
    ensures Matches(Alt(D.TRAILCHAR, D.PAIR), u) <==> Unit(u) && u != [0x20]
  {
    ByteKinds();
    CharOf(D.LUTF1_RANGES, LeadByte, u);
    CharOf(D.SUTF1_RANGES, StringByte, u);
    CharOf(D.TUTF1_RANGES, TrailByte, u);
    if MultiByte(u) || Escaped(u) { LongUnit(u); }
    if |u| == 1 { assert u == [u[0]]; }
  }

  /* ---- A list of units, from the expression and back ---- */

  lemma {:induction false} UnitsOut(chars: Regex, s: seq<byte>) returns (units: seq<seq<byte>>)
    requires Matches(Star(chars), s) && forall x :: Matches(chars, x) <==> Unit(x)
    ensures s == Concat(units) && forall u | u in units :: Unit(u)
    decreases |s|
  {
    if s == [] {
      units := [];
    } else {
      var x, y := StarElim(chars, s);
      var rest := UnitsOut(chars, y);
      units := [x] + rest;
      assert units[1..] == rest;
    }
  }

  lemma {:induction false} UnitsIn(chars: Regex, units: seq<seq<byte>>)
    requires (forall x :: Matches(chars, x) <==> Unit(x)) && forall u | u in units :: Unit(u)
    ensures Matches(Star(chars), Concat(units))
    decreases |units|
  {
    if units != [] {
      UnitsIn(chars, units[1..]);
      StarIntro(chars, units[0], Concat(units[1..]));
    }
  }

  lemma {:induction false} ConcatEnds(units: seq<seq<byte>>, u: seq<byte>)
    ensures Concat(units + [u]) == Concat(units) + u
    decreases |units|
  {
    if units == [] {
      assert [u][1..] == [] && [] + u == u + [] == u;
    } else {
      ConcatEnds(units[1..], u);
      assert (units + [u])[1..] == units[1..] + [u];
    }
  }

  /** The expressions for the first, a middle and the last character. */
  ghost predicate UnitsOf(lead: Regex, chars: Regex, trail: Regex) {
    && (forall u :: Matches(chars, u) <==> Unit(u))
    && (forall u :: Matches(lead, u) <==> Unit(u) && u != [0x20] && u != [0x23])
    && (forall u :: Matches(trail, u) <==> Unit(u) && u != [0x20])
  }

  lemma StringOut(lead: Regex, chars: Regex, trail: Regex, s: seq<byte>) returns (units: seq<seq<byte>>)
    requires UnitsOf(lead, chars, trail) && Matches(Opt(Cat(lead, Opt(Cat(Star(chars), trail)))), s)
    ensures s == Concat(units) && StringUnits(units)
  {
    if s == [] {
      units := [];
    } else {
      var x, y := CatElim(lead, Opt(Cat(Star(chars), trail)), s);
      if y == [] {
        units := [x];
        assert x + [] == x;
      } else {
        var m, z := CatElim(Star(chars), trail, y);
        var middle := UnitsOut(chars, m);
        ConcatEnds(middle, z);
        units := [x] + (middle + [z]);
        assert units[1..] == middle + [z];
      }
    }
  }

  lemma StringIn(lead: Regex, chars: Regex, trail: Regex, units: seq<seq<byte>>)
    requires UnitsOf(lead, chars, trail) && StringUnits(units)
    ensures Matches(Opt(Cat(lead, Opt(Cat(Star(chars), trail)))), Concat(units))
  {
    if units != [] {
      var x, rest := units[0], units[1..];
      assert x in units;
      if rest != [] {
        var z, middle := rest[|rest| - 1], rest[..|rest| - 1];
        assert z in units && rest == middle + [z];
        UnitsIn(chars, middle);
        ConcatEnds(middle, z);
        CatIntro(Star(chars), trail, Concat(middle), z);
      }
      CatIntro(lead, Opt(Cat(Star(chars), trail)), x, Concat(rest));
    }
  }

  lemma UnitsDescribed()
    ensures UnitsOf(Alt(D.LEADCHAR, D.PAIR), Alt(D.STRINGCHAR, D.PAIR), Alt(D.TRAILCHAR, D.PAIR))
  {
    forall u
      ensures Matches(Alt(D.STRINGCHAR, D.PAIR), u) <==> Unit(u)
      ensures Matches(Alt(D.LEADCHAR, D.PAIR), u) <==> Unit(u) && u != [0x20] && u != [0x23]
      ensures Matches(Alt(D.TRAILCHAR, D.PAIR), u) <==> Unit(u) && u != [0x20]
    {
      UnitIff(u);
    }
  }

  lemma StringIff(s: seq<byte>)
    ensures Matches(D.STRING, s) <==> StringText(s)
  {
    UnitsDescribed();
    var lead, chars, trail := Alt(D.LEADCHAR, D.PAIR), Alt(D.STRINGCHAR, D.PAIR), Alt(D.TRAILCHAR, D.PAIR);
    if Matches(D.STRING, s) { var units := StringOut(lead, chars, trail, s); }
    if units :| s == Concat(units) && StringUnits(units) { StringIn(lead, chars, trail, units); }
  }

  lemma {:induction false} HexPairsIff(s: seq<byte>)
    ensures Matches(Star(D.HEXPAIR), s) <==> |s| % 2 == 0 && forall b | b in s :: IsHex(b)
    decreases |s|
  {
    if Matches(Star(D.HEXPAIR), s) && s != [] {
      var x, y := StarElim(D.HEXPAIR, s);
      HexPairIff(x);
      HexPairsIff(y);
      assert forall b | b in s :: b == x[0] || b == x[1] || b in y;
    }
    if s != [] && |s| % 2 == 0 && forall b | b in s :: IsHex(b) {
      var x, y := s[..2], s[2..];
      HexPairIff(x);
      HexPairsIff(y);
      StarIntro(D.HEXPAIR, x, y);
      assert x + y == s;
    }
  }

  lemma HexStringIff(s: seq<byte>)
    ensures Matches(D.HEXSTRING, s) <==> HexText(s)
  {
    LeadIff(D.SHARP, Plus(D.HEXPAIR), s);
    if s != [] { PlusOfHexPairs(s[1..]); }
  }

  lemma PlusOfHexPairs(s: seq<byte>)
    ensures Matches(Plus(D.HEXPAIR), s) <==> |s| >= 2 && |s| % 2 == 0 && forall b | b in s :: IsHex(b)
  {
    HexPairsIff(s);
    if Matches(Plus(D.HEXPAIR), s) {
      var x, y := CatElim(D.HEXPAIR, Star(D.HEXPAIR), s);
      HexPairIff(x);
      StarIntro(D.HEXPAIR, x, y);
    }
    if |s| >= 2 && Matches(Star(D.HEXPAIR), s) {
      var x, y := StarElim(D.HEXPAIR, s);
      CatIntro(D.HEXPAIR, Star(D.HEXPAIR), x, y);
    }
  }

  lemma ValueIff(s: seq<byte>)
    ensures Matches(Alt(D.STRING, D.HEXSTRING), s) <==> ValueText(s)
  {
    AltIff(D.STRING, D.HEXSTRING, s);
    StringIff(s);
    HexStringIff(s);
  }

  /* ---- Names ---- */

  ghost predicate PairText(s: seq<byte>) {
    exists key, value :: s == key + [0x3d] + value && TypeText(key) && ValueText(value)
  }

  ghost predicate RdnText(s: seq<byte>) { ListOf(PairText, 0x2b, 1, s) }

  /** Nothing, or relative names with commas between them, each of them types and values with plus
      signs between them. */
  ghost predicate NameText(s: seq<byte>) { s == [] || ListOf(RdnText, 0x2c, 1, s) }

  lemma PairOf(key: Regex, value: Regex, isKey: seq<byte> -> bool, isValue: seq<byte> -> bool, s: seq<byte>)
    requires Describes(isKey, key) && Describes(isValue, value)
    ensures Matches(Cat(key, Cat(Byte(0x3d), value)), s) <==> exists x, z :: s == x + [0x3d] + z && isKey(x) && isValue(z)
  {
    if Matches(Cat(key, Cat(Byte(0x3d), value)), s) {
      var x, y := CatElim(key, Cat(Byte(0x3d), value), s);
      var c, z := CatElim(Byte(0x3d), value, y);
      assert c == [0x3d] && x + ([0x3d] + z) == x + [0x3d] + z && Matches(key, x) && Matches(value, z);
    }
    if x, z :| s == x + [0x3d] + z && isKey(x) && isValue(z) {
      assert Matches(key, x) && Matches(value, z);
      CatIntro(Byte(0x3d), value, [0x3d], z);
      CatIntro(key, Cat(Byte(0x3d), value), x, [0x3d] + z);
      assert x + ([0x3d] + z) == x + [0x3d] + z;
    }
  }

  lemma TypesAndValues()
    ensures Describes(TypeText, Alt(KEYSTRING, NumericOid(NUMBER))) && Describes(ValueText, Alt(D.STRING, D.HEXSTRING))
  {
    forall x ensures Matches(Alt(KEYSTRING, NumericOid(NUMBER)), x) <==> TypeText(x) { TypeIff(x); }
    forall x ensures Matches(Alt(D.STRING, D.HEXSTRING), x) <==> ValueText(x) { ValueIff(x); }
  }

  lemma PairTextIff(s: seq<byte>)
    ensures Matches(D.TypeAndValue(NUMBER, D.STRING), s) <==> PairText(s)
  {
    TypesAndValues();
    PairOf(Alt(KEYSTRING, NumericOid(NUMBER)), Alt(D.STRING, D.HEXSTRING), TypeText, ValueText, s);
  }

  lemma PairsDescribed()
    ensures Describes(PairText, D.TypeAndValue(NUMBER, D.STRING))
  {
    forall x ensures Matches(D.TypeAndValue(NUMBER, D.STRING), x) <==> PairText(x) { PairTextIff(x); }
  }

  lemma RdnIff(s: seq<byte>)
    ensures Matches(D.RELATIVE_DISTINGUISHED_NAME, s) <==> RdnText(s)
  {
    PairsDescribed();
    ListText(D.TypeAndValue(NUMBER, D.STRING), PairText, 0x2b, s);
  }

  lemma RdnsDescribed()
    ensures Describes(RdnText, D.RELATIVE_DISTINGUISHED_NAME)
  {
    forall x ensures Matches(D.RELATIVE_DISTINGUISHED_NAME, x) <==> RdnText(x) { RdnIff(x); }
  }

  lemma OptListText(item: Regex, text: seq<byte> -> bool, separator: byte, s: seq<byte>)
    requires Describes(text, item)
    ensures Matches(Opt(Cat(item, Star(Cat(Byte(separator), item)))), s) <==> s == [] || ListOf(text, separator, 1, s)
  {
    ListText(item, text, separator, s);
    AltIff(Cat(item, Star(Cat(Byte(separator), item))), Empty, s);
  }

  /** The grammar describes exactly the texts so put together. */
  lemma NameIff(s: seq<byte>)
    ensures Matches(D.DISTINGUISHED_NAME, s) <==> NameText(s)
  {
    RdnsDescribed();
    OptListText(D.RELATIVE_DISTINGUISHED_NAME, RdnText, 0x2c, s);
  }

  /** So the validator accepts exactly the texts that at most three more bytes make a name. */
  lemma ValidatedIff(value: Option<seq<byte>>)
    ensures D.ValidateDn(value) <==> value.Some? && value.value != [] && exists t :: |t| <= 3 && NameText(value.value + t)
  {
    D.ValidateDnIff(value);
    if value.Some? {
      if t :| |t| <= 3 && Matches(D.DISTINGUISHED_NAME, value.value + t) { NameIff(value.value + t); }
      if t :| |t| <= 3 && NameText(value.value + t) { NameIff(value.value + t); }
    }
  }
}
