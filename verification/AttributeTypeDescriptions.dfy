/** The words of the grammar are exactly the printed descriptions, so the parser is right about
    every complete description. */
module AttributeTypeDescriptions {
  import opened Prelude
  import opened Regex
  import opened IntegerSyntax
  import opened AttributeTypeParser
  import opened CaselessWords
  import opened AttributeTypeGrammar
  import opened AttributeTypeRoundTrip

  /* ---- The words of the rules ---- */

  lemma {:induction false} AllSpaces(s: text)
    requires forall i | 0 <= i < |s| :: s[i] == SPACE
    ensures s == Spaces(|s|)
    decreases |s|
  {
    if s != [] {
      AllSpaces(s[..|s| - 1]);
      assert s == s[..|s| - 1] + [s[|s| - 1]];
    }
  }

  lemma {:induction false} SpacesOnly(s: text)
    requires Matches(WHSP, s)
    ensures forall i | 0 <= i < |s| :: s[i] == SPACE
    decreases |s|
  {
    if s != [] {
      var x, y := StarElim(Byte(SPACE), s);
      SpacesOnly(y);
    }
  }

  lemma GapWord(s: text) returns (n: nat)
    requires Matches(WHSP, s)
    ensures s == Spaces(n)
  {
    SpacesOnly(s);
    AllSpaces(s);
    n := |s|;
  }

  lemma {:induction false} LiteralWord(word: text, s: text)
    requires Capitals(word) && Matches(Literal(word), s)
    ensures Spells(s, word)
    decreases |word|
  {
    if word != [] {
      var x, y := CatElim(Letter(word[0]), Literal(word[1..]), s);
      LiteralWord(word[1..], y);
      assert forall i | 1 <= i < |s| :: s[i] == y[i - 1] && word[i] == word[1..][i - 1];
    }
  }

  /** `word` is the literal `literal`. */
  predicate Stands(word: text, literal: text) {
    Capitals(word) && |word| == |literal| && forall i | 0 <= i < |word| :: word[i] == literal[i]
  }

  predicate StandardWords(g: Words) {
    && Stands(g.attributeTypes, LABEL) && Stands(g.name, NAME) && Stands(g.syntax, SYNTAX)
    && Stands(g.octetString, OCTET_STRING) && Stands(g.singleValue, SINGLE_VALUE)
    && Stands(g.noUserModification, NO_USER_MODIFICATION)
  }

  lemma SpellsItself(word: text)
    requires Capitals(word)
    ensures Spells(word, word)
  {
  }

  lemma NumberWord(s: text) returns (n: nat)
    requires Matches(R.NUMBER, s)
    ensures s == Decimal(n)
  {
    NumberIff(s);
    CanonicalIsDecimal(s);
    n := Value(s);
  }

  lemma OidGrows(a: seq<nat>, n: nat)
    requires a != []
    ensures OidText(a + [n]) == OidText(a) + [DOT] + Decimal(n)
  {
    assert (a + [n])[..|a|] == a;
  }

  lemma {:induction false} OidMore(a: seq<nat>, s: text) returns (b: seq<nat>)
    requires a != [] && Matches(Star(DOTTED), s)
    ensures |b| >= |a| && OidText(b) == OidText(a) + s && (s != [] ==> |b| > |a|)
    decreases |s|
  {
    if s == [] {
      b := a;
      assert OidText(a) + s == OidText(a);
    } else {
      var x, y := StarElim(DOTTED, s);
      var d, m := CatElim(R.DOT, R.NUMBER, x);
      var n := NumberWord(m);
      OidGrows(a, n);
      b := OidMore(a + [n], y);
      assert d == [DOT] && OidText(a) + [DOT] + Decimal(n) + y == OidText(a) + s;
    }
  }

  lemma OidWord(s: text) returns (a: arcs)
    requires Matches(NUMERIC_OID, s)
    ensures s == OidText(a)
  {
    var x, y := CatElim(R.NUMBER, Plus(DOTTED), s);
    var u, v := CatElim(DOTTED, Star(DOTTED), y);
    var d, m := CatElim(R.DOT, R.NUMBER, u);
    StarIntro(DOTTED, u, v);
    var n := NumberWord(x);
    a := OidMore([n], y);
  }

  lemma AlphaWord(s: text)
    requires Matches(R.ALPHA, s)
    ensures |s| == 1 && IsAlpha(s[0])
  {
    assert Matches(Range(0x41, 0x5a), s) || Matches(Range(0x61, 0x7a), s);
  }

  lemma KeyCharWord(s: text)
    requires Matches(R.KEYCHAR, s)
    ensures |s| == 1 && IsKeyChar(s[0])
  {
    if Matches(R.ALPHA, s) {
      AlphaWord(s);
    } else {
      assert Matches(R.DIGIT, s) || Matches(R.HYPHEN, s);
      DigitIff(s);
      assert Matches(R.HYPHEN, s) ==> |s| == 1 && s[0] == HYPHEN_SIGN;
    }
  }

  lemma {:induction false} KeyChars(s: text)
    requires Matches(Star(R.KEYCHAR), s)
    ensures forall c | c in s :: IsKeyChar(c)
    decreases |s|
  {
    if s != [] {
      var x, y := StarElim(R.KEYCHAR, s);
      KeyChars(y);
      KeyCharWord(x);
    }
  }

  lemma KeyWord(s: text) returns (k: keystring)
    requires Matches(R.KEYSTRING, s)
    ensures s == k
  {
    var x, y := CatElim(R.ALPHA, Star(R.KEYCHAR), s);
    KeyChars(y);
    AlphaWord(x);
    k := s;
  }

  lemma FourParts(a: text, b: text, c: text, d: text)
    ensures a + (b + (c + d)) == a + b + c + d
  {
  }

  lemma SixParts(a: text, b: text, c: text, d: text, e: text, f: text)
    ensures a + (b + (c + (d + (e + f)))) == a + b + (c + d + e) + f
    ensures a == [] ==> b + (c + (d + (e + f))) == b + (c + d + e) + f
  {
  }

  lemma QdescrWord(s: text) returns (before: nat, name: keystring, after: nat)
    requires Matches(QDESCR, s)
    ensures s == Spaces(before) + Quoted(name) + Spaces(after)
  {
    var a, b := CatElim(WHSP, Cat(SQUOTE, Cat(R.KEYSTRING, Cat(SQUOTE, WHSP))), s);
    var q, c := CatElim(SQUOTE, Cat(R.KEYSTRING, Cat(SQUOTE, WHSP)), b);
    var k, d := CatElim(R.KEYSTRING, Cat(SQUOTE, WHSP), c);
    var q', e := CatElim(SQUOTE, WHSP, d);
    before := GapWord(a);
    name := KeyWord(k);
    after := GapWord(e);
    assert q == [QUOTE] && q' == [QUOTE];
    SixParts([], a, q, k, q', e);
  }

  lemma ItemsGrow(names: seq<keystring>, around: seq<(nat, nat)>, name: keystring, gaps: (nat, nat))
    requires |names| == |around|
    ensures QuotedAll(names + [name], around + [gaps])
         == QuotedAll(names, around) + (Spaces(gaps.0) + Quoted(name) + Spaces(gaps.1))
  {
    assert (names + [name])[..|names|] == names && (around + [gaps])[..|around|] == around;
  }

  lemma {:induction false} ItemsMore(names: seq<keystring>, around: seq<(nat, nat)>, s: text)
    returns (allNames: seq<keystring>, allAround: seq<(nat, nat)>)
    requires |names| == |around| && Matches(Star(QDESCR), s)
    ensures |allNames| == |allAround| && QuotedAll(allNames, allAround) == QuotedAll(names, around) + s
    decreases |s|
  {
    if s == [] {
      allNames, allAround := names, around;
      assert QuotedAll(names, around) + s == QuotedAll(names, around);
    } else {
      var x, y := StarElim(QDESCR, s);
      var a, name, b := QdescrWord(x);
      ItemsGrow(names, around, name, (a, b));
      allNames, allAround := ItemsMore(names + [name], around + [(a, b)], y);
      assert QuotedAll(names, around) + x + y == QuotedAll(names, around) + s;
    }
  }

  lemma ListWord(s: text) returns (names: seq<keystring>, around: seq<(nat, nat)>)
    requires Matches(QDESCR_LIST, s)
    ensures |names| == |around| && s == QuotedAll(names, around)
  {
    if s != [] {
      var x, y := CatElim(QDESCR, Star(QDESCR), s);
      StarIntro(QDESCR, x, y);
    }
    names, around := ItemsMore([], [], s);
    assert [] + s == s;
  }

  /* ---- The clauses ---- */

  /** What a name clause says, and how it is laid out. */
  datatype Names = Names(
    word: text, gap: nat, list: bool, names: seq<keystring>, around: seq<(nat, nat)>, after: nat)

  predicate GoodNames(n: Names) {
    Spells(n.word, NAME) && |n.around| == |n.names| && (!n.list ==> |n.names| == 1)
  }

  function NamesClauseText(n: Names): text
    requires GoodNames(n)
  {
    n.word + Spaces(n.gap)
      + (if n.list then [OPEN] + QuotedAll(n.names, n.around) + [CLOSE] else Quoted(n.names[0])) + Spaces(n.after)
  }

  lemma ParenthesisedWord(word: text, s: text) returns (n: Names)
    requires Spells(word, NAME) && Matches(Cat(WHSP, Cat(Byte(OPEN), Cat(QDESCR_LIST, Cat(Byte(CLOSE), WHSP)))), s)
    ensures GoodNames(n) && word + s == NamesClauseText(n)
  {
    var a, b := CatElim(WHSP, Cat(Byte(OPEN), Cat(QDESCR_LIST, Cat(Byte(CLOSE), WHSP))), s);
    var open, c := CatElim(Byte(OPEN), Cat(QDESCR_LIST, Cat(Byte(CLOSE), WHSP)), b);
    var items, d := CatElim(QDESCR_LIST, Cat(Byte(CLOSE), WHSP), c);
    var close, e := CatElim(Byte(CLOSE), WHSP, d);
    var gap := GapWord(a);
    var names, around := ListWord(items);
    var after := GapWord(e);
    n := Names(word, gap, true, names, around, after);
    assert open == [OPEN] && close == [CLOSE];
    SixParts(word, a, open, items, close, e);
  }

  lemma SingleNameWord(word: text, s: text) returns (n: Names)
    requires Spells(word, NAME) && Matches(QDESCR, s)
    ensures GoodNames(n) && word + s == NamesClauseText(n)
  {
    var a, name, b := QdescrWord(s);
    n := Names(word, a, false, [name], [(0, 0)], b);
    assert word + s == word + Spaces(a) + Quoted(name) + Spaces(b);
  }

  lemma NameClauseWord(name: text, s: text) returns (n: Names)
    requires Stands(name, NAME) && Matches(Cat(Literal(name), QDESCRS), s)
    ensures GoodNames(n) && s == NamesClauseText(n)
  {
    var word, x := CatElim(Literal(name), QDESCRS, s);
    LiteralWord(name, word);
    if Matches(QDESCR, x) {
      n := SingleNameWord(word, x);
    } else {
      n := ParenthesisedWord(word, x);
    }
  }

  datatype SyntaxPart = SyntaxPart(word: text, gap: nat, syntax: Syntax, octetString: text, after: nat)

  predicate GoodSyntax(x: SyntaxPart) { Spells(x.word, SYNTAX) && Spells(x.octetString, OCTET_STRING) }

  function SyntaxClauseText(x: SyntaxPart): text {
    x.word + Spaces(x.gap)
      + Quoted(match x.syntax case NumericSyntax(oid) => OidText(oid) case OctetStringSyntax => x.octetString)
      + Spaces(x.after)
  }

  lemma SyntaxOidWord(octets: text, s: text) returns (syntax: Syntax, octetString: text)
    requires Stands(octets, OCTET_STRING) && Matches(Cat(SQUOTE, Cat(Alt(NUMERIC_OID, Literal(octets)), SQUOTE)), s)
    ensures Spells(octetString, OCTET_STRING)
    ensures s == Quoted(match syntax case NumericSyntax(oid) => OidText(oid) case OctetStringSyntax => octetString)
  {
    var q, a := CatElim(SQUOTE, Cat(Alt(NUMERIC_OID, Literal(octets)), SQUOTE), s);
    var x, q' := CatElim(Alt(NUMERIC_OID, Literal(octets)), SQUOTE, a);
    assert q == [QUOTE] && q' == [QUOTE];
    assert s == Quoted(x);
    if Matches(NUMERIC_OID, x) {
      var oid := OidWord(x);
      SpellsItself(octets);
      syntax, octetString := NumericSyntax(oid), octets;
    } else {
      LiteralWord(octets, x);
      syntax, octetString := OctetStringSyntax, x;
    }
  }

  lemma SyntaxClauseWord(keyword: text, octets: text, s: text) returns (x: SyntaxPart)
    requires Stands(keyword, SYNTAX) && Stands(octets, OCTET_STRING)
    requires var rule := Cat(SQUOTE, Cat(Alt(NUMERIC_OID, Literal(octets)), SQUOTE));
      Matches(Cat(Literal(keyword), Cat(WHSP, Cat(rule, WHSP))), s)
    ensures GoodSyntax(x) && s == SyntaxClauseText(x)
  {
    var rule := Cat(SQUOTE, Cat(Alt(NUMERIC_OID, Literal(octets)), SQUOTE));
    var word, a := CatElim(Literal(keyword), Cat(WHSP, Cat(rule, WHSP)), s);
    var b, c := CatElim(WHSP, Cat(rule, WHSP), a);
    var d, e := CatElim(rule, WHSP, c);
    LiteralWord(keyword, word);
    var gap := GapWord(b);
    var syntax, octetString := SyntaxOidWord(octets, d);
    var after := GapWord(e);
    x := SyntaxPart(word, gap, syntax, octetString, after);
    FourParts(word, b, d, e);
  }

  lemma FlagClauseWord(keyword: text, s: text) returns (word: text, after: nat)
    requires Capitals(keyword) && Matches(FlagClause(keyword), s)
    ensures Spells(word, keyword) && s == word + Spaces(after)
  {
    var x, y := CatElim(Literal(keyword), WHSP, s);
    LiteralWord(keyword, x);
    after := GapWord(y);
    word := x;
  }

  /* ---- Whole descriptions ---- */

  /** The optional clauses of a description and its end. */
  datatype Parts = Parts(
    names: Option<Names>, syntax: Option<SyntaxPart>, single: Option<(text, nat)>, noUser: Option<(text, nat)>, last: nat)

  predicate GoodParts(p: Parts) {
    && (p.names.Some? ==> GoodNames(p.names.value)) && (p.syntax.Some? ==> GoodSyntax(p.syntax.value))
    && (p.single.Some? ==> Spells(p.single.value.0, SINGLE_VALUE))
    && (p.noUser.Some? ==> Spells(p.noUser.value.0, NO_USER_MODIFICATION))
  }

  function FlagPart(flag: Option<(text, nat)>): text {
    if flag.None? then [] else flag.value.0 + Spaces(flag.value.1)
  }

  function PartsText(p: Parts): text
    requires GoodParts(p)
  {
    (if p.names.None? then [] else NamesClauseText(p.names.value))
      + (if p.syntax.None? then [] else SyntaxClauseText(p.syntax.value))
      + (FlagPart(p.single) + FlagPart(p.noUser)) + (Spaces(p.last) + [CLOSE])
  }

  lemma OptionalFlag(keyword: text, literal: text, more: Regex, s: text) returns (flag: Option<(text, nat)>, rest: text)
    requires Stands(keyword, literal) && Matches(Cat(Opt(FlagClause(keyword)), more), s)
    ensures s == FlagPart(flag) + rest && Matches(more, rest) && (flag.Some? ==> Spells(flag.value.0, literal))
  {
    var x, y := CatElim(Opt(FlagClause(keyword)), more, s);
    rest := y;
    if Matches(FlagClause(keyword), x) {
      var word, after := FlagClauseWord(keyword, x);
      flag := Some((word, after));
    } else {
      flag := None;
      assert x == [];
    }
  }

  lemma EndWord(s: text) returns (last: nat)
    requires Matches(Cat(WHSP, Byte(CLOSE)), s)
    ensures s == Spaces(last) + [CLOSE]
  {
    var e, close := CatElim(WHSP, Byte(CLOSE), s);
    last := GapWord(e);
  }

  lemma FlagsWord(a: text, b: text, s: text) returns (single: Option<(text, nat)>, noUser: Option<(text, nat)>, last: nat)
    requires Stands(a, SINGLE_VALUE) && Stands(b, NO_USER_MODIFICATION)
    requires Matches(Cat(Opt(FlagClause(a)), Cat(Opt(FlagClause(b)), Cat(WHSP, Byte(CLOSE)))), s)
    ensures single.Some? ==> Spells(single.value.0, SINGLE_VALUE)
    ensures noUser.Some? ==> Spells(noUser.value.0, NO_USER_MODIFICATION)
    ensures s == FlagPart(single) + FlagPart(noUser) + (Spaces(last) + [CLOSE])
  {
    var end := Cat(WHSP, Byte(CLOSE));
    var s1, s2;
    single, s1 := OptionalFlag(a, SINGLE_VALUE, Cat(Opt(FlagClause(b)), end), s);
    noUser, s2 := OptionalFlag(b, NO_USER_MODIFICATION, end, s1);
    last := EndWord(s2);
    ThreeParts(FlagPart(single), FlagPart(noUser), s2);
  }

  lemma ThreeParts(a: text, b: text, c: text)
    ensures a + (b + c) == a + b + c
  {
  }

  lemma ClausesWord(g: Words, s: text) returns (p: Parts)
    requires StandardWords(g) && Matches(Clauses(g), s)
    ensures GoodParts(p) && s == PartsText(p)
  {
    var flags := Cat(Opt(FlagClause(g.singleValue)), Cat(Opt(FlagClause(g.noUserModification)), Cat(WHSP, Byte(CLOSE))));
    var a, s1 := CatElim(Opt(NameClause(g)), Cat(Opt(SyntaxClause(g)), flags), s);
    var b, s2 := CatElim(Opt(SyntaxClause(g)), flags, s1);
    p := PartsWord(g, a, b, s2);
    ThreeParts(a, b, s2);
    assert s == a + b + s2;
  }

  lemma PartsWord(g: Words, a: text, b: text, c: text) returns (p: Parts)
    requires StandardWords(g) && Matches(Opt(NameClause(g)), a) && Matches(Opt(SyntaxClause(g)), b)
    requires Matches(
      Cat(Opt(FlagClause(g.singleValue)), Cat(Opt(FlagClause(g.noUserModification)), Cat(WHSP, Byte(CLOSE)))), c)
    ensures GoodParts(p) && a + b + c == PartsText(p)
  {
    var names := OptionalNames(g.name, a);
    var syntax := OptionalSyntax(g.syntax, g.octetString, b);
    var single, noUser, last := FlagsWord(g.singleValue, g.noUserModification, c);
    p := Parts(names, syntax, single, noUser, last);
    FourPartsLeft(a, b, FlagPart(single) + FlagPart(noUser), Spaces(last) + [CLOSE]);
  }

  lemma FourPartsLeft(a: text, b: text, c: text, d: text)
    ensures a + b + (c + d) == a + b + c + d
  {
  }

  lemma OptionalNames(name: text, s: text) returns (names: Option<Names>)
    requires Stands(name, NAME) && Matches(Opt(Cat(Literal(name), QDESCRS)), s)
    ensures names.Some? ==> GoodNames(names.value)
    ensures s == if names.None? then [] else NamesClauseText(names.value)
  {
    if Matches(Cat(Literal(name), QDESCRS), s) {
      var n := NameClauseWord(name, s);
      names := Some(n);
    } else {
      names := None;
    }
  }

  lemma OptionalSyntax(keyword: text, octets: text, s: text) returns (syntax: Option<SyntaxPart>)
    requires Stands(keyword, SYNTAX) && Stands(octets, OCTET_STRING)
    requires var rule := Cat(SQUOTE, Cat(Alt(NUMERIC_OID, Literal(octets)), SQUOTE));
      Matches(Opt(Cat(Literal(keyword), Cat(WHSP, Cat(rule, WHSP)))), s)
    ensures syntax.Some? ==> GoodSyntax(syntax.value)
    ensures s == if syntax.None? then [] else SyntaxClauseText(syntax.value)
  {
    var rule := Cat(SQUOTE, Cat(Alt(NUMERIC_OID, Literal(octets)), SQUOTE));
    if Matches(Cat(Literal(keyword), Cat(WHSP, Cat(rule, WHSP))), s) {
      var x := SyntaxClauseWord(keyword, octets, s);
      syntax := Some(x);
    } else {
      syntax := None;
    }
  }

  lemma DescriptionWord(g: Words, s: text) returns (afterOpen: nat, oid: arcs, afterOid: nat, p: Parts)
    requires StandardWords(g) && Matches(Description(g), s)
    ensures GoodParts(p) && s == [OPEN] + Spaces(afterOpen) + OidText(oid) + Spaces(afterOid) + PartsText(p)
  {
    var open, a := CatElim(Byte(OPEN), Cat(WHSP, Cat(NUMERIC_OID, Cat(WHSP, Clauses(g)))), s);
    var b, c := CatElim(WHSP, Cat(NUMERIC_OID, Cat(WHSP, Clauses(g))), a);
    var d, e := CatElim(NUMERIC_OID, Cat(WHSP, Clauses(g)), c);
    var f, h := CatElim(WHSP, Clauses(g), e);
    afterOpen := GapWord(b);
    oid := OidWord(d);
    afterOid := GapWord(f);
    p := ClausesWord(g, h);
    assert open == [OPEN];
    FourParts(b, d, f, h);
    FiveInOrder(open, b, d, f, h);
  }

  lemma FiveInOrder(a: text, b: text, c: text, d: text, e: text)
    ensures a + (b + c + d + e) == a + b + c + d + e
  {
  }

  lemma LabelPart(word: text, s: text) returns (labelWord: Option<text>, after: nat)
    requires Stands(word, LABEL) && Matches(Opt(Cat(Literal(word), Cat(Byte(COLON), WHSP))), s)
    ensures labelWord.Some? ==> Spells(labelWord.value, LABEL)
    ensures s == if labelWord.None? then [] else labelWord.value + [COLON] + Spaces(after)
  {
    labelWord, after := None, 0;
    if Matches(Cat(Literal(word), Cat(Byte(COLON), WHSP)), s) {
      var x, y := CatElim(Literal(word), Cat(Byte(COLON), WHSP), s);
      var colon, z := CatElim(Byte(COLON), WHSP, y);
      LiteralWord(word, x);
      after := GapWord(z);
      labelWord := Some(x);
      assert colon == [COLON];
      ThreeParts(x, colon, z);
    }
  }

  function TypeOf(oid: arcs, p: Parts): AttributeType {
    AttributeType(
      oid,
      if p.names.None? then [] else p.names.value.names,
      if p.syntax.None? then None else Some(p.syntax.value.syntax),
      p.single.Some?, p.noUser.Some?)
  }

  /** Clauses that are absent get any layout. */
  function LayoutOf(labelWord: Option<text>, afterLabel: nat, afterOpen: nat, afterOid: nat, p: Parts): Layout {
    var n := if p.names.Some? then p.names.value else Names(NAME, 0, false, [], [], 0);
    var x := if p.syntax.Some? then p.syntax.value else SyntaxPart(SYNTAX, 0, OctetStringSyntax, OCTET_STRING, 0);
    var single := if p.single.Some? then p.single.value else (SINGLE_VALUE, 0);
    var noUser := if p.noUser.Some? then p.noUser.value else (NO_USER_MODIFICATION, 0);
    Layout(labelWord, afterLabel, afterOpen, afterOid,
           n.word, n.gap, n.list, n.around, n.after,
           x.word, x.gap, x.octetString, x.after,
           single.0, single.1, noUser.0, noUser.1, p.last)
  }

  lemma KeywordsSpellThemselves()
    ensures Spells(NAME, NAME) && Spells(SYNTAX, SYNTAX) && Spells(OCTET_STRING, OCTET_STRING)
    ensures Spells(SINGLE_VALUE, SINGLE_VALUE) && Spells(NO_USER_MODIFICATION, NO_USER_MODIFICATION)
  {
  }

  lemma PartsPrinted(t: AttributeType, l: Layout, p: Parts)
    requires GoodParts(p) && t == TypeOf(t.oid, p) && l == LayoutOf(l.labelWord, l.afterLabel, l.afterOpen, l.afterOid, p)
    requires l.labelWord.Some? ==> Spells(l.labelWord.value, LABEL)
    ensures Allowed(t, l)
    ensures ClausesText(t, l) + (Spaces(l.beforeClose) + [CLOSE]) == PartsText(p)
  {
    KeywordsSpellThemselves();
    assert NamesText(t, l) == if p.names.None? then [] else NamesClauseText(p.names.value);
    assert SyntaxText(t, l) == if p.syntax.None? then [] else SyntaxClauseText(p.syntax.value);
    assert FlagsText(t, l) == FlagPart(p.single) + FlagPart(p.noUser);
  }

  lemma WordOf(g: Words, w: text) returns (t: AttributeType, l: Layout)
    requires StandardWords(g) && Matches(Labelled(g), w)
    ensures Allowed(t, l) && Print(t, l) == w
  {
    var a, b := CatElim(Opt(Cat(Literal(g.attributeTypes), Cat(Byte(COLON), WHSP))), Description(g), w);
    var labelWord, afterLabel := LabelPart(g.attributeTypes, a);
    var afterOpen, oid, afterOid, p := DescriptionWord(g, b);
    t, l := TypeOf(oid, p), LayoutOf(labelWord, afterLabel, afterOpen, afterOid, p);
    PartsPrinted(t, l, p);
    assert a == LabelText(l);
    PrintedInOrder(LabelText(l), [OPEN], Spaces(afterOpen), OidText(oid), Spaces(afterOid),
                   ClausesText(t, l), Spaces(p.last) + [CLOSE]);
  }

  lemma PrintedInOrder(a: text, b: text, c: text, d: text, e: text, f: text, h: text)
    ensures a + (b + c + d + e + (f + h)) == a + b + c + d + e + f + h
  {
  }

  /* ---- The parser on complete descriptions ---- */

  lemma WordsStand()
    ensures StandardWords(WORDS)
  {
  }

  /** A complete description, of whatever content and layout, is parsed to exactly its fields. */
  lemma DescriptionParses(w: text) returns (t: AttributeType, l: Layout)
    requires Matches(GRAMMAR, w)
    ensures Allowed(t, l) && w == Print(t, l) && Parsed(w) == Some(FieldsOf(t, l))
  {
    WordsStand();
    t, l := WordOf(WORDS, w);
    ParsePrinted(t, l);
  }

  /** Printing reaches every word of the grammar, and nothing else. */
  lemma GrammarIsPrinted(w: text)
    ensures Matches(GRAMMAR, w) <==> exists t, l :: Allowed(t, l) && Print(t, l) == w
  {
    if Matches(GRAMMAR, w) {
      var t, l := DescriptionParses(w);
    }
    if t, l :| Allowed(t, l) && Print(t, l) == w {
      ParsePrinted(t, l);
      CompleteIffClosed(w);
    }
  }
}
