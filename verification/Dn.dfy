/** The distinguished-name recogniser (section 3 of RFC 4514). */
module Dn {
  import opened Prelude
  import opened Regex
  import opened Rules
  import opened Utf8

  const HEX := Alt(DIGIT, Alt(Range(0x41, 0x46), Range(0x61, 0x66)))
  const DQUOTE := Byte(0x22)
  const SHARP := Byte(0x23)
  const PLUS := Byte(0x2b)
  const COMMA := Byte(0x2c)
  const SEMI := Byte(0x3b)
  const LANGLE := Byte(0x3c)
  const EQUALS := Byte(0x3d)
  const RANGLE := Byte(0x3e)
  const ESC := Byte(0x5c)

  const LUTF1_RANGES := [(0x01, 0x1f), (0x21, 0x21), (0x24, 0x2a), (0x2d, 0x3a), (0x3d, 0x3d), (0x3f, 0x5b), (0x5d, 0x7f)]
  const SUTF1_RANGES := [(0x01, 0x21), (0x23, 0x2a), (0x2d, 0x3a), (0x3d, 0x3d), (0x3f, 0x5b), (0x5d, 0x7f)]
  const TUTF1_RANGES := [(0x01, 0x1f), (0x21, 0x21), (0x23, 0x2a), (0x2d, 0x3a), (0x3d, 0x3d), (0x3f, 0x5b), (0x5d, 0x7f)]

  const LEADCHAR := Alt(Ranges(LUTF1_RANGES), UTFMB)
  const STRINGCHAR := Alt(Ranges(SUTF1_RANGES), UTFMB)
  const TRAILCHAR := Alt(Ranges(TUTF1_RANGES), UTFMB)
  const ESCAPED := Alt(DQUOTE, Alt(PLUS, Alt(COMMA, Alt(SEMI, Alt(LANGLE, RANGLE)))))
  const SPECIAL := Alt(ESCAPED, Alt(SPACE, Alt(SHARP, EQUALS)))
  const HEXPAIR := Cat(HEX, HEX)
  const PAIR := Cat(ESC, Alt(ESC, Alt(SPECIAL, HEXPAIR)))
  const STRING :=
    Opt(Cat(Alt(LEADCHAR, PAIR), Opt(Cat(Star(Alt(STRINGCHAR, PAIR)), Alt(TRAILCHAR, PAIR)))))
  const HEXSTRING := Cat(SHARP, Plus(HEXPAIR))

  /* The rules above NUMBER and STRING, as functions of those two, so that a different
     expression of the same language can be put in their place. */

  function TypeAndValue(number: Regex, string_: Regex): Regex {
    Cat(Alt(KEYSTRING, NumericOid(number)), Cat(EQUALS, Alt(string_, HEXSTRING)))
  }

  function Rdn(number: Regex, string_: Regex): Regex {
    Cat(TypeAndValue(number, string_), Star(Cat(PLUS, TypeAndValue(number, string_))))
  }

  function Names(number: Regex, string_: Regex): Regex {
    Opt(Cat(Rdn(number, string_), Star(Cat(COMMA, Rdn(number, string_)))))
  }

  const RELATIVE_DISTINGUISHED_NAME := Rdn(NUMBER, STRING)
  const DISTINGUISHED_NAME := Names(NUMBER, STRING)

  predicate IsDn(input: seq<byte>) { Accepts(DISTINGUISHED_NAME, input) }

  /** NULL is None; a C string has no other way to be absent. */
  predicate ValidateDn(value: Option<seq<byte>>) {
    value.Some? && value.value != [] && IsDn(value.value)
  }

  /* ---- Two rules rewritten so that an unfinished word needs few more bytes ---- */

  function Word(trail: Regex): Regex { Cat(Star(SPACE), trail) }

  function Words(lead: Regex, trail: Regex): Regex { Opt(Cat(lead, Opt(Plus(Word(trail))))) }

  const NUMBER' := Alt(Byte(0x30), Cat(LDIGIT, Star(DIGIT)))
  const STRING' := Words(Alt(LEADCHAR, PAIR), Alt(TRAILCHAR, PAIR))

  lemma NumberSame()
    ensures Same(NUMBER, NUMBER')
  {
    forall s ensures Matches(NUMBER, s) <==> Matches(NUMBER', s) {
      if Matches(NUMBER, s) {
        if Matches(LDIGIT, s) {
          CatIntro(LDIGIT, Star(DIGIT), s, []);
          assert s + [] == s;
        } else if Matches(Cat(LDIGIT, Plus(DIGIT)), s) {
          var x, y := CatElim(LDIGIT, Plus(DIGIT), s);
          var u, v := CatElim(DIGIT, Star(DIGIT), y);
          StarIntro(DIGIT, u, v);
          CatIntro(LDIGIT, Star(DIGIT), x, y);
        } else {
          assert Matches(DIGIT, s);
        }
      }
      if Matches(NUMBER', s) {
        if Matches(Cat(LDIGIT, Star(DIGIT)), s) {
          var x, y := CatElim(LDIGIT, Star(DIGIT), s);
          if y == [] {
            assert s == x;
            assert Matches(DIGIT, s);
          } else {
            var u, v := StarElim(DIGIT, y);
            CatIntro(DIGIT, Star(DIGIT), u, v);
            CatIntro(LDIGIT, Plus(DIGIT), x, y);
          }
        } else {
          assert Matches(DIGIT, s);
        }
      }
    }
  }

  /** A string character is a trailing character or a space. */
  lemma StringCharIff(s: seq<byte>)
    ensures Matches(Alt(STRINGCHAR, PAIR), s) <==> Matches(Alt(TRAILCHAR, PAIR), s) || Matches(SPACE, s)
  {
    CharIff(SUTF1_RANGES, UTFMB, PAIR, s);
    CharIff(TUTF1_RANGES, UTFMB, PAIR, s);
    if |s| == 1 { InSutf1(s[0]); }
  }

  lemma CharIff(rs: seq<(int, int)>, multibyte: Regex, pair: Regex, s: seq<byte>)
    requires rs != []
    ensures Matches(Alt(Alt(Ranges(rs), multibyte), pair), s)
       <==> (|s| == 1 && InRanges(rs, s[0])) || Matches(multibyte, s) || Matches(pair, s)
  {
    RangesIff(rs, s);
  }

  lemma InSutf1(b: byte)
    ensures InRanges(SUTF1_RANGES, b) <==> InRanges(TUTF1_RANGES, b) || b == 0x20
  {
    var ss, ts := SUTF1_RANGES, TUTF1_RANGES;
    if b == 0x20 { assert ss[0].0 <= b <= ss[0].1; }
    if InRanges(ss, b) && b != 0x20 {
      var i :| 0 <= i < |ss| && ss[i].0 <= b <= ss[i].1;
      var j := if i > 0 then i + 1 else if b < 0x20 then 0 else 1;
      assert ts[j].0 <= b <= ts[j].1;
    }
    if InRanges(ts, b) {
      var i :| 0 <= i < |ts| && ts[i].0 <= b <= ts[i].1;
      var j := if i > 0 then i - 1 else 0;
      assert ss[j].0 <= b <= ss[j].1;
    }
  }

  /* string = ((leadchar | pair) body?)?, where body is any string characters and then a trailing
     one; equally, body is one or more words of spaces and a trailing character. */

  ghost predicate OrSpace(chars: Regex, trail: Regex) {
    forall s :: Matches(chars, s) <==> Matches(trail, s) || Matches(SPACE, s)
  }

  lemma {:induction false} BodyToWords(chars: Regex, trail: Regex, x: seq<byte>, y: seq<byte>)
    requires OrSpace(chars, trail) && Matches(Star(chars), x) && Matches(trail, y)
    ensures Matches(Plus(Word(trail)), x + y)
    decreases |x|
  {
    if x == [] {
      CatIntro(Star(SPACE), trail, [], y);
      CatIntro(Word(trail), Star(Word(trail)), [] + y, []);
      assert [] + y + [] == x + y;
    } else {
      var a, b := StarElim(chars, x);
      BodyToWords(chars, trail, b, y);
      PrependToWords(chars, trail, a, b + y);
      assert a + (b + y) == x + y;
    }
  }

  lemma PrependToWords(chars: Regex, trail: Regex, a: seq<byte>, w: seq<byte>)
    requires OrSpace(chars, trail) && Matches(chars, a) && Matches(Plus(Word(trail)), w)
    ensures Matches(Plus(Word(trail)), a + w)
  {
    var z, zs := CatElim(Word(trail), Star(Word(trail)), w);
    if Matches(SPACE, a) {
      var p, y := CatElim(Star(SPACE), trail, z);
      StarIntro(SPACE, a, p);
      CatIntro(Star(SPACE), trail, a + p, y);
      assert a + p + y == a + z;
      CatIntro(Word(trail), Star(Word(trail)), a + z, zs);
      assert a + z + zs == a + w;
    } else {
      CatIntro(Star(SPACE), trail, [], a);
      assert [] + a == a;
      StarIntro(Word(trail), z, zs);
      CatIntro(Word(trail), Star(Word(trail)), a, w);
    }
  }

  lemma {:induction false} WordsToBody(chars: Regex, trail: Regex, z: seq<byte>, zs: seq<byte>)
    returns (x: seq<byte>, y: seq<byte>)
    requires OrSpace(chars, trail) && Matches(Word(trail), z) && Matches(Star(Word(trail)), zs)
    ensures z + zs == x + y && Matches(Star(chars), x) && Matches(trail, y)
    decreases |zs|
  {
    var p, t := CatElim(Star(SPACE), trail, z);
    SpacesAreChars(chars, trail, p);
    if zs == [] {
      x, y := p, t;
    } else {
      var u, us := StarElim(Word(trail), zs);
      var x', y' := WordsToBody(chars, trail, u, us);
      StarIntro(chars, t, x');
      StarAppend(chars, p, t + x');
      x, y := p + (t + x'), y';
      Regroup(p, t, x', y');
    }
  }

  lemma Regroup(a: seq<byte>, b: seq<byte>, c: seq<byte>, d: seq<byte>)
    ensures a + (b + c) + d == a + b + (c + d)
  {
  }

  lemma {:induction false} SpacesAreChars(chars: Regex, trail: Regex, p: seq<byte>)
    requires OrSpace(chars, trail) && Matches(Star(SPACE), p)
    ensures Matches(Star(chars), p)
    decreases |p|
  {
    if p != [] {
      var a, b := StarElim(SPACE, p);
      SpacesAreChars(chars, trail, b);
      StarIntro(chars, a, b);
    }
  }

  lemma BodySame(chars: Regex, trail: Regex)
    requires OrSpace(chars, trail)
    ensures Same(Cat(Star(chars), trail), Plus(Word(trail)))
  {
    forall w ensures Matches(Cat(Star(chars), trail), w) <==> Matches(Plus(Word(trail)), w) {
      if Matches(Cat(Star(chars), trail), w) {
        var x, y := CatElim(Star(chars), trail, w);
        BodyToWords(chars, trail, x, y);
      }
      if Matches(Plus(Word(trail)), w) {
        var z, zs := CatElim(Word(trail), Star(Word(trail)), w);
        var x, y := WordsToBody(chars, trail, z, zs);
        CatIntro(Star(chars), trail, x, y);
      }
    }
  }

  lemma OptAfterSame(lead: Regex, body: Regex, body': Regex)
    requires Same(body, body')
    ensures Same(Opt(Cat(lead, Opt(body))), Opt(Cat(lead, Opt(body'))))
  {
    SameAlt(body, Empty, body', Empty);
    SameCat(lead, Opt(body), lead, Opt(body'));
    SameAlt(Cat(lead, Opt(body)), Empty, Cat(lead, Opt(body')), Empty);
  }

  lemma StringSame()
    ensures Same(STRING, STRING')
  {
    var chars, trail := Alt(STRINGCHAR, PAIR), Alt(TRAILCHAR, PAIR);
    forall s ensures Matches(chars, s) <==> Matches(trail, s) || Matches(SPACE, s) { StringCharIff(s); }
    BodySame(chars, trail);
    OptAfterSame(Alt(LEADCHAR, PAIR), Cat(Star(chars), trail), Plus(Word(trail)));
  }

  lemma NamesSame(n: Regex, s: Regex, n': Regex, s': Regex)
    requires Same(n, n') && Same(s, s')
    ensures Same(Names(n, s), Names(n', s'))
  {
    NumericOidSame(n, n');
    SameAlt(KEYSTRING, NumericOid(n), KEYSTRING, NumericOid(n'));
    SameAlt(s, HEXSTRING, s', HEXSTRING);
    SameCat(EQUALS, Alt(s, HEXSTRING), EQUALS, Alt(s', HEXSTRING));
    SameCat(Alt(KEYSTRING, NumericOid(n)), Cat(EQUALS, Alt(s, HEXSTRING)),
            Alt(KEYSTRING, NumericOid(n')), Cat(EQUALS, Alt(s', HEXSTRING)));
    SameList(TypeAndValue(n, s), TypeAndValue(n', s'), PLUS);
    SameList(Rdn(n, s), Rdn(n', s'), COMMA);
    SameAlt(Cat(Rdn(n, s), Star(Cat(COMMA, Rdn(n, s)))), Empty,
            Cat(Rdn(n', s'), Star(Cat(COMMA, Rdn(n', s')))), Empty);
  }

  lemma NumericOidSame(n: Regex, n': Regex)
    requires Same(n, n')
    ensures Same(NumericOid(n), NumericOid(n'))
  {
    SameCat(DOT, n, DOT, n');
    SameStar(Cat(DOT, n), Cat(DOT, n'));
    SameCat(Cat(DOT, n), Star(Cat(DOT, n)), Cat(DOT, n'), Star(Cat(DOT, n')));
    SameCat(n, Plus(Cat(DOT, n)), n', Plus(Cat(DOT, n')));
  }

  lemma SameList(r: Regex, r': Regex, separator: Regex)
    requires Same(r, r')
    ensures Same(Cat(r, Star(Cat(separator, r))), Cat(r', Star(Cat(separator, r'))))
  {
    SameCat(separator, r, separator, r');
    SameStar(Cat(separator, r), Cat(separator, r'));
    SameCat(r, Star(Cat(separator, r)), r', Star(Cat(separator, r')));
  }

  /* ---- Measures of the rewritten grammar ---- */

  ghost predicate Measured(r: Regex, shortest: nat, missing: nat) {
    Proper(r) && Shortest(r) == shortest && Missing(r) == missing
  }

  lemma AltMeasure(a: Regex, b: Regex, n: nat, m: nat, n': nat, m': nat)
    requires Measured(a, n, m) && Measured(b, n', m')
    ensures Measured(Alt(a, b), Min(n, n'), Max(m, m'))
  {
  }

  lemma CatMeasure(a: Regex, b: Regex, n: nat, m: nat, n': nat, m': nat)
    requires Measured(a, n, m) && Measured(b, n', m')
    ensures Measured(Cat(a, b), n + n', Max(m + n', m'))
  {
  }

  lemma PlusMeasure(r: Regex, n: nat, m: nat)
    requires Measured(r, n, m)
    ensures Measured(Plus(r), n, m)
  {
  }

  lemma EscapedMeasure()
    ensures Measured(ESCAPED, 1, 0)
  {
    var last := Alt(SEMI, Alt(LANGLE, RANGLE));
    AltMeasure(SEMI, Alt(LANGLE, RANGLE), 1, 0, 1, 0);
    AltMeasure(COMMA, last, 1, 0, 1, 0);
    AltMeasure(PLUS, Alt(COMMA, last), 1, 0, 1, 0);
    AltMeasure(DQUOTE, Alt(PLUS, Alt(COMMA, last)), 1, 0, 1, 0);
  }

  lemma PairMeasure()
    ensures Measured(HEXPAIR, 2, 1) && Measured(PAIR, 2, 1)
  {
    AltMeasure(Range(0x41, 0x46), Range(0x61, 0x66), 1, 0, 1, 0);
    AltMeasure(DIGIT, Alt(Range(0x41, 0x46), Range(0x61, 0x66)), 1, 0, 1, 0);
    CatMeasure(HEX, HEX, 1, 0, 1, 0);
    EscapedMeasure();
    AltMeasure(ESCAPED, Alt(SPACE, Alt(SHARP, EQUALS)), 1, 0, 1, 0);
    AltMeasure(SPECIAL, HEXPAIR, 1, 0, 2, 1);
    AltMeasure(ESC, Alt(SPECIAL, HEXPAIR), 1, 0, 1, 1);
    CatMeasure(ESC, Alt(ESC, Alt(SPECIAL, HEXPAIR)), 1, 0, 1, 1);
  }

  lemma StringMeasure(lead: Regex, trail: Regex)
    requires Measured(lead, 1, 3) && Measured(trail, 1, 3)
    ensures Measured(Words(lead, trail), 0, 3)
  {
    CatMeasure(Star(SPACE), trail, 0, 0, 1, 3);
    PlusMeasure(Word(trail), 1, 3);
    AltMeasure(Plus(Word(trail)), Empty, 1, 3, 0, 0);
    CatMeasure(lead, Opt(Plus(Word(trail))), 1, 3, 0, 3);
    AltMeasure(Cat(lead, Opt(Plus(Word(trail)))), Empty, 1, 3, 0, 0);
  }

  lemma CharMeasure(rs: seq<(int, int)>)
    requires Bytes(rs)
    ensures Measured(Alt(Alt(Ranges(rs), UTFMB), PAIR), 1, 3)
  {
    Measure();
    RangesMeasure(rs);
    PairMeasure();
    AltMeasure(Ranges(rs), UTFMB, 1, 0, 2, 3);
    AltMeasure(Alt(Ranges(rs), UTFMB), PAIR, 1, 3, 2, 1);
  }

  predicate Bytes(rs: seq<(int, int)>) {
    rs != [] && forall i | 0 <= i < |rs| :: 0 <= rs[i].0 <= rs[i].1 <= 255
  }

  lemma RangesAreBytes()
    ensures Bytes(LUTF1_RANGES) && Bytes(TUTF1_RANGES)
  {
  }

  lemma StringOfRangesMeasure(ls: seq<(int, int)>, ts: seq<(int, int)>)
    requires Bytes(ls) && Bytes(ts)
    ensures Measured(Words(Alt(Alt(Ranges(ls), UTFMB), PAIR), Alt(Alt(Ranges(ts), UTFMB), PAIR)), 0, 3)
  {
    CharMeasure(ls);
    CharMeasure(ts);
    StringMeasure(Alt(Alt(Ranges(ls), UTFMB), PAIR), Alt(Alt(Ranges(ts), UTFMB), PAIR));
  }

  lemma HexMeasure()
    ensures Measured(HEXSTRING, 3, 2)
  {
    PairMeasure();
    PlusMeasure(HEXPAIR, 2, 1);
    CatMeasure(SHARP, Plus(HEXPAIR), 1, 0, 2, 1);
  }

  lemma ValueMeasure()
    ensures Measured(STRING', 0, 3)
  {
    RangesAreBytes();
    StringOfRangesMeasure(LUTF1_RANGES, TUTF1_RANGES);
  }

  lemma KeystringMeasure()
    ensures Measured(KEYSTRING, 1, 0)
  {
    AltMeasure(DIGIT, HYPHEN, 1, 0, 1, 0);
    AltMeasure(ALPHA, Alt(DIGIT, HYPHEN), 1, 0, 1, 0);
    CatMeasure(ALPHA, Star(KEYCHAR), 1, 0, 0, 0);
  }

  lemma TypeMeasure()
    ensures Measured(Alt(KEYSTRING, NumericOid(NUMBER')), 1, 2)
  {
    CatMeasure(LDIGIT, Star(DIGIT), 1, 0, 0, 0);
    AltMeasure(Byte(0x30), Cat(LDIGIT, Star(DIGIT)), 1, 0, 1, 0);
    CatMeasure(DOT, NUMBER', 1, 0, 1, 0);
    PlusMeasure(Cat(DOT, NUMBER'), 2, 1);
    CatMeasure(NUMBER', Plus(Cat(DOT, NUMBER')), 1, 0, 2, 1);
    KeystringMeasure();
    AltMeasure(KEYSTRING, NumericOid(NUMBER'), 1, 0, 3, 2);
  }

  lemma NamesMeasure(n: Regex, s: Regex)
    requires Measured(Alt(KEYSTRING, NumericOid(n)), 1, 2) && Measured(s, 0, 3)
    ensures Measured(Names(n, s), 0, 3)
  {
    var item := TypeAndValue(n, s);
    HexMeasure();
    AltMeasure(s, HEXSTRING, 0, 3, 3, 2);
    CatMeasure(EQUALS, Alt(s, HEXSTRING), 1, 0, 0, 3);
    CatMeasure(Alt(KEYSTRING, NumericOid(n)), Cat(EQUALS, Alt(s, HEXSTRING)), 1, 2, 1, 3);
    ListMeasure(item, PLUS);
    ListMeasure(Rdn(n, s), COMMA);
    AltMeasure(Cat(Rdn(n, s), Star(Cat(COMMA, Rdn(n, s)))), Empty, 2, 3, 0, 0);
  }

  lemma ListMeasure(r: Regex, separator: Regex)
    requires Measured(r, 2, 3) && Measured(separator, 1, 0)
    ensures Measured(Cat(r, Star(Cat(separator, r))), 2, 3)
  {
    CatMeasure(separator, r, 1, 0, 2, 3);
    CatMeasure(r, Star(Cat(separator, r)), 2, 3, 0, 3);
  }

  /* ---- What the recogniser accepts ---- */

  lemma CompletionBound(r: Regex, r': Regex, s: seq<byte>)
    requires Same(r, r') && Proper(r') && s != [] && Viable(r, s)
    ensures exists t :: |t| <= Missing(r') && Matches(r, s + t)
  {
    var t :| Matches(r, s + t);
    var u := Complete(r', s, t);
  }

  /** Accepted is: at most three more bytes make it a distinguished name. */
  lemma AcceptedIffThreeBytesShort(s: seq<byte>)
    ensures IsDn(s) <==> exists t :: |t| <= 3 && Matches(DISTINGUISHED_NAME, s + t)
  {
    AcceptsIffViable(DISTINGUISHED_NAME, s);
    if IsDn(s) && s != [] {
      NumberSame();
      StringSame();
      NamesSame(NUMBER, STRING, NUMBER', STRING');
      TypeMeasure();
      ValueMeasure();
      NamesMeasure(NUMBER', STRING');
      CompletionBound(DISTINGUISHED_NAME, Names(NUMBER', STRING'), s);
    }
    if s == [] {
      EmptyOpt(Cat(RELATIVE_DISTINGUISHED_NAME, Star(Cat(COMMA, RELATIVE_DISTINGUISHED_NAME))));
      assert s + [] == s;
    }
  }

  /** What callers of the validator get: a name is there, is not empty, and lacks at most three bytes. */
  lemma ValidateDnIff(value: Option<seq<byte>>)
    ensures ValidateDn(value) <==>
      value.Some? && value.value != [] && exists t :: |t| <= 3 && Matches(DISTINGUISHED_NAME, value.value + t)
  {
    if value.Some? { AcceptedIffThreeBytesShort(value.value); }
  }

  lemma EmptyOpt(r: Regex)
    ensures Matches(Opt(r), [])
  {
  }

  /** One list of items, a separator, another list: again a list. */
  lemma JoinLists(item: Regex, separator: Regex, s: seq<byte>, c: seq<byte>, w: seq<byte>)
    requires Matches(Cat(item, Star(Cat(separator, item))), s) && Matches(separator, c)
    requires Matches(Cat(item, Star(Cat(separator, item))), w)
    ensures Matches(Cat(item, Star(Cat(separator, item))), s + c + w)
  {
    var more := Star(Cat(separator, item));
    var a, b := CatElim(item, more, s);
    var p, q := CatElim(item, more, w);
    CatIntro(separator, item, c, p);
    StarIntro(Cat(separator, item), c + p, q);
    StarAppend(Cat(separator, item), b, c + p + q);
    CatIntro(item, more, a, b + (c + p + q));
    RegroupLists(a, b, c, p, q);
  }

  lemma RegroupLists(a: seq<byte>, b: seq<byte>, c: seq<byte>, p: seq<byte>, q: seq<byte>)
    ensures a + (b + (c + p + q)) == a + b + c + (p + q)
  {
  }

  lemma NonEmptyOpt(r: Regex, s: seq<byte>)
    requires Matches(Opt(r), s) && s != []
    ensures Matches(r, s)
  {
  }

  lemma OptIntro(r: Regex, s: seq<byte>)
    requires Matches(r, s)
    ensures Matches(Opt(r), s)
  {
  }

  /** A complete, non-empty name followed by a comma and anything accepted is accepted. */
  lemma AcceptedAfterComma(s: seq<byte>, t: seq<byte>)
    requires s != [] && Matches(DISTINGUISHED_NAME, s) && IsDn(t)
    ensures IsDn(s + [0x2c] + t)
  {
    var rdn := RELATIVE_DISTINGUISHED_NAME;
    var list := Cat(rdn, Star(Cat(COMMA, rdn)));
    AcceptsIffViable(DISTINGUISHED_NAME, t);
    var u :| Matches(DISTINGUISHED_NAME, t + u);
    if t + u == [] {
      u := SomeName();
      assert t + u == u;
    } else {
      NonEmptyOpt(list, t + u);
    }
    NonEmptyOpt(list, s);
    JoinLists(rdn, COMMA, s, [0x2c], t + u);
    OptIntro(list, s + [0x2c] + (t + u));
    PrefixIsViable(DISTINGUISHED_NAME, s + [0x2c], t, u);
    AcceptsIffViable(DISTINGUISHED_NAME, s + [0x2c] + t);
  }

  lemma PrefixIsViable(r: Regex, s: seq<byte>, t: seq<byte>, u: seq<byte>)
    requires Matches(r, s + (t + u))
    ensures Viable(r, s + t)
  {
    assert s + t + u == s + (t + u);
  }

  /** The shortest name, "a=". */
  lemma SomeName() returns (w: seq<byte>)
    ensures w != []
    ensures Matches(Cat(RELATIVE_DISTINGUISHED_NAME, Star(Cat(COMMA, RELATIVE_DISTINGUISHED_NAME))), w)
  {
    var value := Alt(STRING, HEXSTRING);
    CatIntro(ALPHA, Star(KEYCHAR), [0x61], []);
    EmptyOpt(Cat(Alt(LEADCHAR, PAIR), Opt(Cat(Star(Alt(STRINGCHAR, PAIR)), Alt(TRAILCHAR, PAIR)))));
    CatIntro(EQUALS, value, [0x3d], []);
    CatIntro(Alt(KEYSTRING, NumericOid(NUMBER)), Cat(EQUALS, value), [0x61] + [], [0x3d] + []);
    w := [0x61] + [] + ([0x3d] + []);
    SingletonList(TypeAndValue(NUMBER, STRING), PLUS, w);
    SingletonList(RELATIVE_DISTINGUISHED_NAME, COMMA, w);
  }

  lemma SingletonList(item: Regex, separator: Regex, w: seq<byte>)
    requires Matches(item, w)
    ensures Matches(Cat(item, Star(Cat(separator, item))), w)
  {
    CatIntro(item, Star(Cat(separator, item)), w, []);
    assert w + [] == w;
  }
}
