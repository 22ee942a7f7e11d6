/** Printing an attribute type description in any layout the grammar allows and parsing it back. */
module AttributeTypeRoundTrip {
  import opened Prelude
  import opened Regex
  import opened IntegerSyntax
  import opened AttributeTypeParser

  /* ---- Descriptions and their layouts ---- */

  type keystring = s: text | s != [] && IsAlpha(s[0]) && forall c | c in s :: IsKeyChar(c) witness [0x41]

  type arcs = a: seq<nat> | |a| >= 2 witness [0, 0]

  datatype Syntax = NumericSyntax(oid: arcs) | OctetStringSyntax

  datatype AttributeType = AttributeType(
    oid: arcs, names: seq<keystring>, syntax: Option<Syntax>, singleValue: bool, noUserModification: bool)

  /** The free choices: spaces, letter case of the keywords, the optional label, and whether the
      names stand in a parenthesised list. */
  datatype Layout = Layout(
    labelWord: Option<text>, afterLabel: nat, afterOpen: nat, afterOid: nat,
    nameWord: text, afterNameWord: nat, list: bool, around: seq<(nat, nat)>, afterNames: nat,
    syntaxWord: text, afterSyntaxWord: nat, octetString: text, afterSyntax: nat,
    singleWord: text, afterSingle: nat, noUserWord: text, afterNoUser: nat, beforeClose: nat)

  predicate Spells(word: text, keyword: text) {
    |word| == |keyword| && forall i | 0 <= i < |word| :: Upper(word[i]) == keyword[i]
  }

  /** A single name may do without the list; several, or an explicit empty list, need it. */
  predicate Allowed(t: AttributeType, l: Layout) {
    && (l.labelWord.Some? ==> Spells(l.labelWord.value, LABEL))
    && Spells(l.nameWord, NAME) && Spells(l.syntaxWord, SYNTAX) && Spells(l.octetString, OCTET_STRING)
    && Spells(l.singleWord, SINGLE_VALUE) && Spells(l.noUserWord, NO_USER_MODIFICATION)
    && |l.around| == |t.names| && (|t.names| > 1 ==> l.list)
  }

  function Spaces(n: nat): text { if n == 0 then [] else Spaces(n - 1) + [SPACE] }

  function OidText(a: seq<nat>): text
    requires a != []
  {
    if |a| == 1 then Decimal(a[0]) else OidText(a[..|a| - 1]) + [DOT] + Decimal(a[|a| - 1])
  }

  function Quoted(t: text): text { [QUOTE] + t + [QUOTE] }

  function QuotedAll(names: seq<keystring>, around: seq<(nat, nat)>): text
    requires |names| == |around|
  {
    if names == [] then []
    else
      var n := |names| - 1;
      QuotedAll(names[..n], around[..n]) + (Spaces(around[n].0) + Quoted(names[n]) + Spaces(around[n].1))
  }

  function LabelText(l: Layout): text {
    if l.labelWord.None? then [] else l.labelWord.value + [COLON] + Spaces(l.afterLabel)
  }

  function NamesText(t: AttributeType, l: Layout): text
    requires Allowed(t, l)
  {
    if l.list then l.nameWord + Spaces(l.afterNameWord) + ([OPEN] + QuotedAll(t.names, l.around) + [CLOSE]) + Spaces(l.afterNames)
    else if t.names != [] then l.nameWord + Spaces(l.afterNameWord) + Quoted(t.names[0]) + Spaces(l.afterNames)
    else []
  }

  function SyntaxOidText(s: Syntax, l: Layout): text {
    match s
    case NumericSyntax(oid) => OidText(oid)
    case OctetStringSyntax => l.octetString
  }

  function SyntaxText(t: AttributeType, l: Layout): text {
    if t.syntax.None? then []
    else l.syntaxWord + Spaces(l.afterSyntaxWord) + Quoted(SyntaxOidText(t.syntax.value, l)) + Spaces(l.afterSyntax)
  }

  function FlagText(present: bool, word: text, after: nat): text {
    if present then word + Spaces(after) else []
  }

  function FlagsText(t: AttributeType, l: Layout): text {
    FlagText(t.singleValue, l.singleWord, l.afterSingle) + FlagText(t.noUserModification, l.noUserWord, l.afterNoUser)
  }

  function ClausesText(t: AttributeType, l: Layout): text
    requires Allowed(t, l)
  {
    NamesText(t, l) + SyntaxText(t, l) + FlagsText(t, l)
  }

  function OpeningText(t: AttributeType, l: Layout): text {
    LabelText(l) + [OPEN] + Spaces(l.afterOpen) + OidText(t.oid) + Spaces(l.afterOid)
  }

  function Print(t: AttributeType, l: Layout): text
    requires Allowed(t, l)
  {
    OpeningText(t, l) + ClausesText(t, l) + (Spaces(l.beforeClose) + [CLOSE])
  }

  function FieldsOf(t: AttributeType, l: Layout): Fields {
    Fields(Some(OidText(t.oid)), t.names,
           SyntaxField(t, l),
           t.singleValue, t.noUserModification)
  }

  /* ---- Dotted numbers ---- */

  /** What a run of characters does to the position in a dotted number. */
  function MoveAllDigits(d: Digits, dotted: bool, t: text): Option<(Digits, bool)> {
    if t == [] then Some((d, dotted))
    else
      match MoveAllDigits(d, dotted, t[..|t| - 1])
      case None => None
      case Some(m) => MoveDigits(m.0, m.1, t[|t| - 1])
  }

  lemma {:induction false} DecimalMoves(n: nat, dotted: bool)
    ensures MoveAllDigits(Due, dotted, Decimal(n)) == Some((if n == 0 then Zero else Growing, dotted))
  {
    if n >= 10 {
      DecimalMoves(n / 10, dotted);
      assert Decimal(n)[..|Decimal(n)| - 1] == Decimal(n / 10);
    } else {
      assert Decimal(n)[..0] == [];
    }
  }

  lemma {:induction false} MovesAppend(d: Digits, dotted: bool, a: text, b: text)
    ensures MoveAllDigits(d, dotted, a + b) ==
      match MoveAllDigits(d, dotted, a) case None => None case Some(m) => MoveAllDigits(m.0, m.1, b)
    decreases |b|
  {
    if b == [] {
      assert a + b == a;
    } else {
      MovesAppend(d, dotted, a, b[..|b| - 1]);
      assert (a + b)[..|a + b| - 1] == a + b[..|b| - 1];
    }
  }

  lemma {:induction false} OidMoves(a: seq<nat>) returns (d: Digits)
    requires a != []
    ensures MoveAllDigits(Due, false, OidText(a)) == Some((d, |a| > 1)) && d != Due && OidText(a) != []
    decreases |a|
  {
    var n := |a| - 1;
    DecimalIsCanonical(a[n]);
    if n == 0 {
      DecimalMoves(a[0], false);
      d := if a[0] == 0 then Zero else Growing;
    } else {
      var front := OidMoves(a[..n]);
      DecimalMoves(a[n], true);
      MovesAppend(Due, false, OidText(a[..n]), [DOT]);
      assert [DOT][..0] == [];
      MovesAppend(Due, false, OidText(a[..n]) + [DOT], Decimal(a[n]));
      d := if a[n] == 0 then Zero else Growing;
    }
  }

  /* ---- Runs of the machine ---- */

  /** Reading `t` takes the scanner from `s` to `r`, by the states listed in `run`. */
  ghost predicate RunOf(run: seq<Scanner>, s: Scanner, t: text, r: Scanner) {
    && |run| == |t| + 1 && run[0] == s && run[|t|] == r
    && forall i | 0 <= i < |t| :: run[i + 1] == Read(run[i], t[i])
  }

  ghost predicate Leads(s: Scanner, t: text, r: Scanner) {
    exists run: seq<Scanner> :: RunOf(run, s, t, r)
  }

  lemma LeadsNowhere(s: Scanner)
    ensures Leads(s, [], s)
  {
    assert RunOf([s], s, [], s);
  }

  lemma LeadsOne(s: Scanner, c: byte, r: Scanner)
    requires Read(s, c) == r
    ensures Leads(s, [c], r)
  {
    assert RunOf([s, r], s, [c], r);
  }

  lemma LeadsOn(s: Scanner, a: text, r: Scanner, b: text, q: Scanner)
    requires Leads(s, a, r) && Leads(r, b, q)
    ensures Leads(s, a + b, q)
  {
    var x: seq<Scanner> :| RunOf(x, s, a, r);
    var y: seq<Scanner> :| RunOf(y, r, b, q);
    var run := x + y[1..];
    JoinedRun(x, y, run, s, a, r, b, q);
    assert RunOf(run, s, a + b, q);
  }

  lemma JoinedRun(x: seq<Scanner>, y: seq<Scanner>, run: seq<Scanner>,
                  s: Scanner, a: text, r: Scanner, b: text, q: Scanner)
    requires RunOf(x, s, a, r) && RunOf(y, r, b, q) && run == x + y[1..]
    ensures forall i | 0 <= i < |a + b| :: run[i + 1] == Read(run[i], (a + b)[i])
  {
    forall i | 0 <= i < |a + b| ensures run[i + 1] == Read(run[i], (a + b)[i]) {
      if i < |a| {
        assert run[i] == x[i] && run[i + 1] == x[i + 1];
      } else {
        assert run[i] == y[i - |a|] && run[i + 1] == y[i - |a| + 1];
      }
    }
  }

  lemma LeadsStep(s: Scanner, a: text, r: Scanner, c: byte, q: Scanner)
    requires Leads(s, a, r) && Read(r, c) == q
    ensures Leads(s, a + [c], q)
  {
    LeadsOne(r, c, q);
    LeadsOn(s, a, r, [c], q);
  }

  lemma {:induction false} RunReadsAll(run: seq<Scanner>, s: Scanner, t: text, r: Scanner, n: nat)
    requires RunOf(run, s, t, r) && n <= |t|
    ensures ReadAll(s, t[..n]) == run[n]
    decreases n
  {
    if n > 0 {
      RunReadsAll(run, s, t, r, n - 1);
      assert t[..n][..n - 1] == t[..n - 1];
    }
  }

  lemma LeadsIsReadAll(s: Scanner, t: text, r: Scanner)
    requires Leads(s, t, r)
    ensures ReadAll(s, t) == r
  {
    var run: seq<Scanner> :| RunOf(run, s, t, r);
    RunReadsAll(run, s, t, r, |t|);
    assert t[..|t|] == t;
  }

  /* ---- OIDs ---- */

  /** The two places where the grammar has an OID. */
  function OidPlace(syntax: bool, m: (Digits, bool)): Place {
    if syntax then SyntaxOid(m.0, m.1) else Place.Oid(m.0, m.1)
  }

  lemma ReadDigit(syntax: bool, since: text, f: Fields, m: (Digits, bool), c: byte, q: (Digits, bool))
    requires MoveDigits(m.0, m.1, c) == Some(q)
    ensures Read(At(OidPlace(syntax, m), since, f), c) == At(OidPlace(syntax, q), since + [c], f)
  {
  }

  lemma FrontAndLast(before: text, t: text)
    requires t != []
    ensures t[..|t| - 1] + [t[|t| - 1]] == t && before + t[..|t| - 1] + [t[|t| - 1]] == before + t
  {
  }

  lemma {:induction false} ReadDigits(
    syntax: bool, since: text, f: Fields, m: (Digits, bool), t: text, q: (Digits, bool))
    requires MoveAllDigits(m.0, m.1, t) == Some(q)
    ensures Leads(At(OidPlace(syntax, m), since, f), t, At(OidPlace(syntax, q), since + t, f))
    decreases |t|
  {
    var s := At(OidPlace(syntax, m), since, f);
    if t == [] {
      assert since + t == since;
      LeadsNowhere(s);
    } else {
      var n := |t| - 1;
      var front, c := t[..n], t[n];
      var k := MoveAllDigits(m.0, m.1, front).value;
      ReadDigits(syntax, since, f, m, front, k);
      ReadDigit(syntax, since + front, f, k, c, q);
      LeadsStep(s, front, At(OidPlace(syntax, k), since + front, f), c, At(OidPlace(syntax, q), since + front + [c], f));
      FrontAndLast(since, t);
    }
  }

  lemma ReadFirst(syntax: bool, since: text, f: Fields, c: byte, m: (Digits, bool))
    requires IsDigit(c) && MoveDigits(Due, false, c) == Some(m)
    ensures Read(At(if syntax then SyntaxQuote else BeforeOid, since, f), c) == At(OidPlace(syntax, m), [c], f)
  {
  }

  lemma FirstDigit(t: text, d: Digits) returns (m: (Digits, bool))
    requires t != [] && MoveAllDigits(Due, false, t) == Some((d, true))
    ensures IsDigit(t[0]) && MoveDigits(Due, false, t[0]) == Some(m) && MoveAllDigits(m.0, m.1, t[1..]) == Some((d, true))
  {
    MovesAppend(Due, false, [t[0]], t[1..]);
    assert [t[0]] + t[1..] == t && [t[0]][..0] == [];
    m := MoveDigits(Due, false, t[0]).value;
  }

  lemma ReadOid(syntax: bool, since: text, f: Fields, a: arcs) returns (d: Digits)
    ensures d != Due && OidText(a) != []
    ensures Leads(At(if syntax then SyntaxQuote else BeforeOid, since, f), OidText(a), At(OidPlace(syntax, (d, true)), OidText(a), f))
  {
    var t := OidText(a);
    d := OidMoves(a);
    var m := FirstDigit(t, d);
    var s := At(if syntax then SyntaxQuote else BeforeOid, since, f);
    ReadFirst(syntax, since, f, t[0], m);
    LeadsOne(s, t[0], At(OidPlace(syntax, m), [t[0]], f));
    ReadDigits(syntax, [t[0]], f, m, t[1..], (d, true));
    LeadsOn(s, [t[0]], At(OidPlace(syntax, m), [t[0]], f), t[1..], At(OidPlace(syntax, (d, true)), [t[0]] + t[1..], f));
    assert [t[0]] + t[1..] == t;
  }

  /* ---- Between clauses ---- */

  /** Between clauses, with the fields as they will be once an action still due has run: an OID
      ends, and a flag is set, only on the next character. */
  predicate Ready(s: Scanner, next: nat, f: Fields) {
    s.At? &&
    match s.place
    case Gap(n) => n == next && s.fields == f
    case Oid(d, dotted) => CompleteOid(d, dotted) && next == 0 && s.since != [] && f == s.fields.(oid := Some(s.since))
    case FlagRead(clause) => next == clause + 1 && f == Flagged(s.fields, clause)
    case _ => false
  }

  function Flagged(f: Fields, clause: nat): Fields {
    if clause == 2 then f.(singleValue := true) else f.(noUserModification := true)
  }

  /** From a ready scanner, a space, a closing parenthesis or a letter is read as from the gap. */
  lemma ReadyReads(s: Scanner, next: nat, f: Fields, c: byte) returns (r: Scanner)
    requires Ready(s, next, f) && !IsDigit(c) && c != DOT && MoveGap(next, c).Some?
    ensures r == Read(s, c) && r.At? && r.place == MoveGap(next, c).value && r.fields == f
  {
    r := Read(s, c);
  }

  lemma {:induction false} ReadySpaces(s: Scanner, next: nat, f: Fields, n: nat) returns (r: Scanner)
    requires Ready(s, next, f)
    ensures Leads(s, Spaces(n), r) && Ready(r, next, f)
    decreases n
  {
    if n == 0 {
      r := s;
      LeadsNowhere(s);
    } else {
      var q := ReadySpaces(s, next, f, n - 1);
      r := ReadyReads(q, next, f, SPACE);
      LeadsStep(s, Spaces(n - 1), q, SPACE, r);
    }
  }

  /* ---- Keywords ---- */

  lemma KeywordLetters(clause: nat)
    requires clause < 4
    ensures forall c | c in Keyword(clause) :: 0x41 <= c <= 0x5a || c == HYPHEN_SIGN
  {
  }

  /** No keyword begins with another. */
  lemma KeywordsDiffer(next: nat, clause: nat, n: nat)
    requires clause < 4 && 0 < n < |Keyword(clause)|
    ensures AfterKeyword(next, Keyword(clause)[..n]) == Word(next, Keyword(clause)[..n])
  {
    var t := Keyword(clause)[..n];
    assert t[0] == Keyword(clause)[0];
    if n > 1 { assert t[1] == Keyword(clause)[1]; }
  }

  lemma KeywordPrefix(next: nat, clause: nat, word: text, n: nat)
    requires next <= clause < 4 && Spells(word, Keyword(clause)) && 0 < n <= |word|
    ensures Keyword(clause)[..n] == Keyword(clause)[..n - 1] + [Upper(word[n - 1])] && Starts(next, Keyword(clause)[..n])
    ensures !IsDigit(word[n - 1]) && word[n - 1] != DOT && word[n - 1] != SPACE && word[n - 1] != CLOSE
  {
    KeywordLetters(clause);
    Prefix(Keyword(clause), n);
    assert Upper(word[n - 1]) == Keyword(clause)[n - 1];
  }

  lemma Prefix(t: text, n: nat)
    requires 0 < n <= |t|
    ensures t[..n] == t[..n - 1] + [t[n - 1]] && t[..n] <= t && t[n - 1] in t
  {
  }

  lemma ReadFirstLetter(s: Scanner, next: nat, f: Fields, c: byte) returns (r: Scanner)
    requires Ready(s, next, f) && !IsDigit(c) && c != DOT && c != SPACE && c != CLOSE && Starts(next, [Upper(c)])
    ensures Leads(s, [c], r) && r.At? && r.fields == f && r.place == AfterKeyword(next, [Upper(c)])
  {
    r := ReadyReads(s, next, f, c);
    LeadsOne(s, c, r);
  }

  lemma ReadNextLetter(next: nat, typed: text, since: text, f: Fields, c: byte)
    requires Starts(next, typed + [Upper(c)])
    ensures Read(At(Word(next, typed), since, f), c) == At(AfterKeyword(next, typed + [Upper(c)]), since + [c], f)
  {
  }

  lemma {:induction false} ReadKeyword(s: Scanner, next: nat, f: Fields, clause: nat, word: text, n: nat) returns (r: Scanner)
    requires Ready(s, next, f) && next <= clause < 4 && Spells(word, Keyword(clause)) && 0 < n <= |word|
    ensures Leads(s, word[..n], r) && r.At? && r.fields == f && r.place == AfterKeyword(next, Keyword(clause)[..n])
    decreases n
  {
    var c := word[n - 1];
    KeywordPrefix(next, clause, word, n);
    if n == 1 {
      assert Keyword(clause)[..1] == [Upper(c)] && word[..1] == [c];
      r := ReadFirstLetter(s, next, f, c);
    } else {
      var q := ReadKeyword(s, next, f, clause, word, n - 1);
      KeywordsDiffer(next, clause, n - 1);
      ReadNextLetter(next, Keyword(clause)[..n - 1], q.since, f, c);
      r := At(AfterKeyword(next, Keyword(clause)[..n]), q.since + [c], f);
      LeadsStep(s, word[..n - 1], q, c, r);
      Prefix(word, n);
    }
  }

  lemma ReadWord(s: Scanner, next: nat, f: Fields, clause: nat, word: text) returns (r: Scanner)
    requires Ready(s, next, f) && next <= clause < 4 && Spells(word, Keyword(clause))
    ensures Leads(s, word, r) && r.At? && r.fields == f && r.place == AfterKeyword(next, Keyword(clause))
  {
    r := ReadKeyword(s, next, f, clause, word, |word|);
    assert word[..|word|] == word && Keyword(clause)[..|word|] == Keyword(clause);
  }

  /* ---- Names ---- */

  predicate Idle(p: Place) { p in {BeforeOpen, BeforeOid, NameStart, ListGap, ListNext, SyntaxStart} }

  lemma ReadIdleSpace(p: Place, since: text, f: Fields)
    requires Idle(p)
    ensures Read(At(p, since, f), SPACE) == At(p, since + [SPACE], f)
  {
  }

  /** Spaces do not leave an idle place. */
  lemma {:induction false} ReadIdleSpaces(p: Place, since: text, f: Fields, n: nat)
    requires Idle(p)
    ensures Leads(At(p, since, f), Spaces(n), At(p, since + Spaces(n), f))
    decreases n
  {
    if n == 0 {
      assert since + [] == since;
      LeadsNowhere(At(p, since, f));
    } else {
      ReadIdleSpaces(p, since, f, n - 1);
      ReadIdleSpace(p, since + Spaces(n - 1), f);
      LeadsStep(At(p, since, f), Spaces(n - 1), At(p, since + Spaces(n - 1), f), SPACE, At(p, since + Spaces(n - 1) + [SPACE], f));
      assert since + Spaces(n - 1) + [SPACE] == since + Spaces(n);
    }
  }

  lemma ReadNameFirst(list: bool, since: text, f: Fields, c: byte)
    requires IsAlpha(c)
    ensures Read(At(NameQuote(list), since, f), c) == At(Name(list), [c], f)
  {
  }

  lemma ReadNameLetter(list: bool, since: text, f: Fields, c: byte)
    requires IsKeyChar(c)
    ensures Read(At(Name(list), since, f), c) == At(Name(list), since + [c], f)
  {
  }

  lemma {:induction false} ReadNameLetters(list: bool, since: text, f: Fields, name: keystring, n: nat)
    requires 0 < n <= |name|
    ensures Leads(At(NameQuote(list), since, f), name[..n], At(Name(list), name[..n], f))
    decreases n
  {
    var s := At(NameQuote(list), since, f);
    assert name[..n] == name[..n - 1] + [name[n - 1]];
    if n == 1 {
      assert name[..1] == [name[0]];
      ReadNameFirst(list, since, f, name[0]);
      LeadsOne(s, name[0], At(Name(list), [name[0]], f));
    } else {
      ReadNameLetters(list, since, f, name, n - 1);
      assert name[n - 1] in name;
      ReadNameLetter(list, name[..n - 1], f, name[n - 1]);
      LeadsStep(s, name[..n - 1], At(Name(list), name[..n - 1], f), name[n - 1], At(Name(list), name[..n], f));
    }
  }

  lemma ReadNameEnd(list: bool, name: text, f: Fields)
    requires name != []
    ensures Read(At(Name(list), name, f), QUOTE)
      == At(if list then ListNext else Gap(1), [QUOTE], f.(names := f.names + [name]))
  {
  }

  /** A quoted name, from any place that takes its opening quote. */
  lemma ReadQuotedName(s: Scanner, name: keystring, list: bool) returns (r: Scanner)
    requires s.At? && Read(s, QUOTE) == At(NameQuote(list), s.since + [QUOTE], s.fields)
    ensures Leads(s, Quoted(name), r)
    ensures r == At(if list then ListNext else Gap(1), [QUOTE], s.fields.(names := s.fields.names + [name]))
  {
    var open, read := At(NameQuote(list), s.since + [QUOTE], s.fields), At(Name(list), name, s.fields);
    LeadsOne(s, QUOTE, open);
    ReadNameLetters(list, s.since + [QUOTE], s.fields, name, |name|);
    assert name[..|name|] == name;
    LeadsOn(s, [QUOTE], open, name, read);
    ReadNameEnd(list, name, s.fields);
    r := At(if list then ListNext else Gap(1), [QUOTE], s.fields.(names := s.fields.names + [name]));
    LeadsStep(s, [QUOTE] + name, read, QUOTE, r);
  }

  lemma {:induction false} SpacesFromFront(n: nat)
    requires n > 0
    ensures Spaces(n) == [SPACE] + Spaces(n - 1)
    decreases n
  {
    if n > 1 { SpacesFromFront(n - 1); }
  }

  lemma QuoteInList(p: Place, since: text, f: Fields)
    requires p == ListStart || p == ListGap || p == ListNext
    ensures Read(At(p, since, f), QUOTE) == At(NameQuote(true), since + [QUOTE], f)
  {
  }

  lemma SpaceInListStart(since: text, f: Fields)
    ensures Read(At(ListStart, since, f), SPACE) == At(ListGap, since + [SPACE], f)
  {
  }

  /** Spaces before an item of the list. */
  lemma ReadListSpaces(p: Place, since: text, f: Fields, n: nat) returns (r: Scanner)
    requires p == ListStart || p == ListNext
    ensures Leads(At(p, since, f), Spaces(n), r) && r.At? && r.fields == f
    ensures Read(r, QUOTE) == At(NameQuote(true), r.since + [QUOTE], r.fields)
  {
    if p == ListStart && n > 0 {
      SpacesFromFront(n);
      SpaceInListStart(since, f);
      LeadsOne(At(p, since, f), SPACE, At(ListGap, since + [SPACE], f));
      ReadIdleSpaces(ListGap, since + [SPACE], f, n - 1);
      r := At(ListGap, since + [SPACE] + Spaces(n - 1), f);
      LeadsOn(At(p, since, f), [SPACE], At(ListGap, since + [SPACE], f), Spaces(n - 1), r);
      QuoteInList(ListGap, r.since, f);
    } else if n > 0 {
      ReadIdleSpaces(p, since, f, n);
      r := At(p, since + Spaces(n), f);
      QuoteInList(p, r.since, f);
    } else {
      r := At(p, since, f);
      LeadsNowhere(r);
      QuoteInList(p, since, f);
    }
  }

  lemma ReadItem(p: Place, since: text, f: Fields, name: keystring, around: (nat, nat)) returns (r: Scanner)
    requires p == ListStart || p == ListNext
    ensures Leads(At(p, since, f), Spaces(around.0) + Quoted(name) + Spaces(around.1), r)
    ensures r.At? && r.place == ListNext && r.fields == f.(names := f.names + [name])
  {
    var s := At(p, since, f);
    var q := ReadListSpaces(p, since, f, around.0);
    var u := ReadQuotedName(q, name, true);
    LeadsOn(s, Spaces(around.0), q, Quoted(name), u);
    ReadIdleSpaces(ListNext, u.since, u.fields, around.1);
    r := At(ListNext, u.since + Spaces(around.1), u.fields);
    LeadsOn(s, Spaces(around.0) + Quoted(name), u, Spaces(around.1), r);
  }

  lemma {:induction false} ReadItems(since: text, f: Fields, names: seq<keystring>, around: seq<(nat, nat)>) returns (r: Scanner)
    requires |names| == |around|
    ensures Leads(At(ListStart, since, f), QuotedAll(names, around), r)
    ensures r.At? && r.place == (if names == [] then ListStart else ListNext) && r.fields == f.(names := f.names + names)
    decreases |names|
  {
    var s := At(ListStart, since, f);
    if names == [] {
      r := s;
      LeadsNowhere(s);
      assert f.names + names == f.names;
    } else {
      var n := |names| - 1;
      var q := ReadItems(since, f, names[..n], around[..n]);
      r := ReadItem(q.place, q.since, q.fields, names[n], around[n]);
      LeadsOn(s, QuotedAll(names[..n], around[..n]), q, Spaces(around[n].0) + Quoted(names[n]) + Spaces(around[n].1), r);
      assert f.names + names[..n] + [names[n]] == f.names + names;
    }
  }

  lemma OpenList(since: text, f: Fields)
    ensures Read(At(NameStart, since, f), OPEN) == At(ListStart, since + [OPEN], f)
  {
  }

  lemma CloseList(p: Place, since: text, f: Fields)
    requires p == ListStart || p == ListNext
    ensures Read(At(p, since, f), CLOSE) == At(Gap(1), since + [CLOSE], f)
  {
  }

  lemma ReadList(since: text, f: Fields, names: seq<keystring>, around: seq<(nat, nat)>) returns (r: Scanner)
    requires |names| == |around|
    ensures Leads(At(NameStart, since, f), [OPEN] + QuotedAll(names, around) + [CLOSE], r)
    ensures Ready(r, 1, f.(names := f.names + names))
  {
    var s := At(NameStart, since, f);
    OpenList(since, f);
    LeadsOne(s, OPEN, At(ListStart, since + [OPEN], f));
    var q := ReadItems(since + [OPEN], f, names, around);
    LeadsOn(s, [OPEN], At(ListStart, since + [OPEN], f), QuotedAll(names, around), q);
    CloseList(q.place, q.since, q.fields);
    r := At(Gap(1), q.since + [CLOSE], q.fields);
    LeadsStep(s, [OPEN] + QuotedAll(names, around), q, CLOSE, r);
  }

  lemma SingleQuote(since: text, f: Fields)
    ensures Read(At(NameStart, since, f), QUOTE) == At(NameQuote(false), since + [QUOTE], f)
  {
  }

  /** The names themselves, as a list or a single quoted name. */
  function NameItems(t: AttributeType, l: Layout): text
    requires Allowed(t, l) && (l.list || t.names != [])
  {
    if l.list then [OPEN] + QuotedAll(t.names, l.around) + [CLOSE] else Quoted(t.names[0])
  }

  lemma ReadNameItems(since: text, f: Fields, t: AttributeType, l: Layout) returns (r: Scanner)
    requires Allowed(t, l) && (l.list || t.names != []) && f.names == []
    ensures Leads(At(NameStart, since, f), NameItems(t, l), r) && Ready(r, 1, f.(names := t.names))
  {
    assert f.names + t.names == t.names;
    if l.list {
      r := ReadList(since, f, t.names, l.around);
    } else {
      SingleQuote(since, f);
      r := ReadQuotedName(At(NameStart, since, f), t.names[0], false);
      assert f.names + [t.names[0]] == t.names;
    }
  }

  lemma ReadNames(s: Scanner, t: AttributeType, l: Layout, f: Fields) returns (r: Scanner, next: nat)
    requires Allowed(t, l) && Ready(s, 0, f) && f.names == []
    ensures Leads(s, NamesText(t, l), r) && next <= 1 && Ready(r, next, f.(names := t.names))
  {
    if !l.list && t.names == [] {
      LeadsNowhere(s);
      r, next := s, 0;
      assert f.(names := t.names) == f;
    } else {
      var w := ReadWord(s, 0, f, 0, l.nameWord);
      ReadIdleSpaces(NameStart, w.since, f, l.afterNameWord);
      var u := At(NameStart, w.since + Spaces(l.afterNameWord), f);
      LeadsOn(s, l.nameWord, w, Spaces(l.afterNameWord), u);
      var v := ReadNameItems(u.since, f, t, l);
      LeadsOn(s, l.nameWord + Spaces(l.afterNameWord), u, NameItems(t, l), v);
      r := ReadySpaces(v, 1, f.(names := t.names), l.afterNames);
      LeadsOn(s, l.nameWord + Spaces(l.afterNameWord) + NameItems(t, l), v, Spaces(l.afterNames), r);
      next := 1;
    }
  }

  /* ---- The syntax clause ---- */

  lemma ReadOctetFirst(since: text, f: Fields, c: byte)
    requires Upper(c) == OCTET_STRING[0]
    ensures Read(At(SyntaxQuote, since, f), c) == At(SyntaxOctets(1), [c], f)
  {
  }

  lemma ReadOctet(n: nat, since: text, f: Fields, c: byte)
    requires n < |OCTET_STRING| && Upper(c) == OCTET_STRING[n]
    ensures Read(At(SyntaxOctets(n), since, f), c) == At(SyntaxOctets(n + 1), since + [c], f)
  {
  }

  lemma {:induction false} ReadOctets(since: text, f: Fields, word: text, n: nat)
    requires Spells(word, OCTET_STRING) && 0 < n <= |word|
    ensures Leads(At(SyntaxQuote, since, f), word[..n], At(SyntaxOctets(n), word[..n], f))
    decreases n
  {
    var s := At(SyntaxQuote, since, f);
    assert word[..n] == word[..n - 1] + [word[n - 1]];
    if n == 1 {
      assert word[..1] == [word[0]];
      ReadOctetFirst(since, f, word[0]);
      LeadsOne(s, word[0], At(SyntaxOctets(1), [word[0]], f));
    } else {
      ReadOctets(since, f, word, n - 1);
      ReadOctet(n - 1, word[..n - 1], f, word[n - 1]);
      LeadsStep(s, word[..n - 1], At(SyntaxOctets(n - 1), word[..n - 1], f), word[n - 1], At(SyntaxOctets(n), word[..n], f));
    }
  }

  lemma EndSyntax(p: Place, since: text, f: Fields)
    requires since != [] && (p == SyntaxOctets(|OCTET_STRING|) || (p.SyntaxOid? && CompleteOid(p.digits, p.dotted)))
    ensures Read(At(p, since, f), QUOTE) == At(Gap(2), [QUOTE], f.(syntaxOid := Some(since)))
  {
  }

  lemma ReadSyntaxOid(since: text, f: Fields, x: Syntax, l: Layout) returns (r: Scanner)
    requires Spells(l.octetString, OCTET_STRING)
    ensures Leads(At(SyntaxQuote, since, f), SyntaxOidText(x, l) + [QUOTE], r)
    ensures Ready(r, 2, f.(syntaxOid := Some(SyntaxOidText(x, l))))
  {
    var t := SyntaxOidText(x, l);
    var p: Place;
    match x {
      case NumericSyntax(oid) =>
        var d := ReadOid(true, since, f, oid);
        p := SyntaxOid(d, true);
      case OctetStringSyntax =>
        ReadOctets(since, f, t, |t|);
        assert t[..|t|] == t;
        p := SyntaxOctets(|OCTET_STRING|);
    }
    EndSyntax(p, t, f);
    r := At(Gap(2), [QUOTE], f.(syntaxOid := Some(t)));
    LeadsStep(At(SyntaxQuote, since, f), t, At(p, t, f), QUOTE, r);
  }

  lemma OpenSyntax(since: text, f: Fields)
    ensures Read(At(SyntaxStart, since, f), QUOTE) == At(SyntaxQuote, since + [QUOTE], f)
  {
  }

  lemma ReadQuotedSyntax(since: text, f: Fields, x: Syntax, l: Layout) returns (r: Scanner)
    requires Spells(l.octetString, OCTET_STRING)
    ensures Leads(At(SyntaxStart, since, f), Quoted(SyntaxOidText(x, l)), r)
    ensures Ready(r, 2, f.(syntaxOid := Some(SyntaxOidText(x, l))))
  {
    var s, open := At(SyntaxStart, since, f), At(SyntaxQuote, since + [QUOTE], f);
    OpenSyntax(since, f);
    LeadsOne(s, QUOTE, open);
    r := ReadSyntaxOid(since + [QUOTE], f, x, l);
    LeadsOn(s, [QUOTE], open, SyntaxOidText(x, l) + [QUOTE], r);
    assert [QUOTE] + (SyntaxOidText(x, l) + [QUOTE]) == Quoted(SyntaxOidText(x, l));
  }

  function SyntaxField(t: AttributeType, l: Layout): Option<text> {
    if t.syntax.None? then None else Some(SyntaxOidText(t.syntax.value, l))
  }

  lemma ReadSyntax(s: Scanner, t: AttributeType, l: Layout, next: nat, f: Fields) returns (r: Scanner, after: nat)
    requires Allowed(t, l) && Ready(s, next, f) && next <= 1 && f.syntaxOid == None
    ensures Leads(s, SyntaxText(t, l), r) && after <= 2 && Ready(r, after, f.(syntaxOid := SyntaxField(t, l)))
  {
    if t.syntax.None? {
      LeadsNowhere(s);
      r, after := s, next;
      assert f.(syntaxOid := None) == f;
    } else {
      var x := t.syntax.value;
      var w := ReadWord(s, next, f, 1, l.syntaxWord);
      ReadIdleSpaces(SyntaxStart, w.since, f, l.afterSyntaxWord);
      var u := At(SyntaxStart, w.since + Spaces(l.afterSyntaxWord), f);
      LeadsOn(s, l.syntaxWord, w, Spaces(l.afterSyntaxWord), u);
      var v := ReadQuotedSyntax(u.since, f, x, l);
      LeadsOn(s, l.syntaxWord + Spaces(l.afterSyntaxWord), u, Quoted(SyntaxOidText(x, l)), v);
      r := ReadySpaces(v, 2, f.(syntaxOid := SyntaxField(t, l)), l.afterSyntax);
      LeadsOn(s, l.syntaxWord + Spaces(l.afterSyntaxWord) + Quoted(SyntaxOidText(x, l)), v, Spaces(l.afterSyntax), r);
      after := 2;
    }
  }

  /* ---- The flags ---- */

  lemma ReadFlag(s: Scanner, clause: nat, word: text, gap: nat, next: nat, f: Fields) returns (r: Scanner)
    requires Ready(s, next, f) && next <= clause && (clause == 2 || clause == 3) && Spells(word, Keyword(clause))
    ensures Leads(s, word + Spaces(gap), r) && Ready(r, clause + 1, Flagged(f, clause))
  {
    var w := ReadWord(s, next, f, clause, word);
    r := ReadySpaces(w, clause + 1, Flagged(f, clause), gap);
    LeadsOn(s, word, w, Spaces(gap), r);
  }

  lemma ReadOptionalFlag(s: Scanner, present: bool, clause: nat, word: text, gap: nat, next: nat, f: Fields)
    returns (r: Scanner, after: nat)
    requires Ready(s, next, f) && next <= clause && (clause == 2 || clause == 3) && Spells(word, Keyword(clause))
    ensures Leads(s, FlagText(present, word, gap), r) && after <= clause + 1
    ensures Ready(r, after, if present then Flagged(f, clause) else f)
  {
    if present {
      r := ReadFlag(s, clause, word, gap, next, f);
      after := clause + 1;
    } else {
      LeadsNowhere(s);
      r, after := s, next;
    }
  }

  lemma ReadFlags(s: Scanner, t: AttributeType, l: Layout, next: nat, f: Fields) returns (r: Scanner, after: nat)
    requires Allowed(t, l) && Ready(s, next, f) && next <= 2 && !f.singleValue && !f.noUserModification
    ensures Leads(s, FlagsText(t, l), r)
    ensures Ready(r, after, f.(singleValue := t.singleValue, noUserModification := t.noUserModification))
  {
    var q, n := ReadOptionalFlag(s, t.singleValue, 2, l.singleWord, l.afterSingle, next, f);
    var g := if t.singleValue then Flagged(f, 2) else f;
    r, after := ReadOptionalFlag(q, t.noUserModification, 3, l.noUserWord, l.afterNoUser, n, g);
    LeadsOn(s, FlagText(t.singleValue, l.singleWord, l.afterSingle), q,
            FlagText(t.noUserModification, l.noUserWord, l.afterNoUser), r);
  }

  lemma ReadClauses(s: Scanner, t: AttributeType, l: Layout) returns (r: Scanner, next: nat)
    requires Allowed(t, l) && Ready(s, 0, NO_FIELDS.(oid := Some(OidText(t.oid))))
    ensures Leads(s, ClausesText(t, l), r) && Ready(r, next, FieldsOf(t, l))
  {
    var f := NO_FIELDS.(oid := Some(OidText(t.oid)));
    var q, n := ReadNames(s, t, l, f);
    var u, m := ReadSyntax(q, t, l, n, f.(names := t.names));
    LeadsOn(s, NamesText(t, l), q, SyntaxText(t, l), u);
    r, next := ReadFlags(u, t, l, m, f.(names := t.names, syntaxOid := SyntaxField(t, l)));
    LeadsOn(s, NamesText(t, l) + SyntaxText(t, l), u, FlagsText(t, l), r);
  }

  /* ---- The whole description ---- */

  lemma ReadLabelLetter(n: nat, since: text, c: byte)
    requires n < |LABEL| && Upper(c) == LABEL[n]
    ensures Read(At(Label(n), since, NO_FIELDS), c) == At(Label(n + 1), since + [c], NO_FIELDS)
  {
  }

  lemma {:induction false} ReadLabelLetters(word: text, n: nat)
    requires Spells(word, LABEL) && n <= |word|
    ensures Leads(INITIAL, word[..n], At(Label(n), word[..n], NO_FIELDS))
    decreases n
  {
    if n == 0 {
      assert word[..0] == [];
      LeadsNowhere(INITIAL);
    } else {
      assert word[..n] == word[..n - 1] + [word[n - 1]];
      ReadLabelLetters(word, n - 1);
      ReadLabelLetter(n - 1, word[..n - 1], word[n - 1]);
      LeadsStep(INITIAL, word[..n - 1], At(Label(n - 1), word[..n - 1], NO_FIELDS), word[n - 1], At(Label(n), word[..n], NO_FIELDS));
    }
  }

  lemma OpenDescription(p: Place, since: text)
    requires p == Label(0) || p == BeforeOpen
    ensures Read(At(p, since, NO_FIELDS), OPEN) == At(BeforeOid, since + [OPEN], NO_FIELDS)
  {
  }

  lemma EndLabel(since: text)
    ensures Read(At(Label(|LABEL|), since, NO_FIELDS), COLON) == At(BeforeOpen, since + [COLON], NO_FIELDS)
  {
  }

  lemma ReadLabel(l: Layout) returns (r: Scanner)
    requires l.labelWord.Some? ==> Spells(l.labelWord.value, LABEL)
    ensures Leads(INITIAL, LabelText(l), r) && r.At? && r.fields == NO_FIELDS && (r.place == Label(0) || r.place == BeforeOpen)
  {
    if l.labelWord.None? {
      r := INITIAL;
      LeadsNowhere(INITIAL);
    } else {
      var w := l.labelWord.value;
      ReadLabelLetters(w, |w|);
      assert w[..|w|] == w;
      EndLabel(w);
      LeadsStep(INITIAL, w, At(Label(|LABEL|), w, NO_FIELDS), COLON, At(BeforeOpen, w + [COLON], NO_FIELDS));
      ReadIdleSpaces(BeforeOpen, w + [COLON], NO_FIELDS, l.afterLabel);
      r := At(BeforeOpen, w + [COLON] + Spaces(l.afterLabel), NO_FIELDS);
      LeadsOn(INITIAL, w + [COLON], At(BeforeOpen, w + [COLON], NO_FIELDS), Spaces(l.afterLabel), r);
    }
  }

  lemma ReadOpening(t: AttributeType, l: Layout) returns (r: Scanner)
    requires Allowed(t, l)
    ensures Leads(INITIAL, OpeningText(t, l), r) && Ready(r, 0, NO_FIELDS.(oid := Some(OidText(t.oid))))
  {
    var q := ReadLabel(l);
    OpenDescription(q.place, q.since);
    var open := At(BeforeOid, q.since + [OPEN], NO_FIELDS);
    LeadsStep(INITIAL, LabelText(l), q, OPEN, open);
    ReadIdleSpaces(BeforeOid, open.since, NO_FIELDS, l.afterOpen);
    var u := At(BeforeOid, open.since + Spaces(l.afterOpen), NO_FIELDS);
    LeadsOn(INITIAL, LabelText(l) + [OPEN], open, Spaces(l.afterOpen), u);
    var d := ReadOid(false, u.since, NO_FIELDS, t.oid);
    var v := At(Place.Oid(d, true), OidText(t.oid), NO_FIELDS);
    LeadsOn(INITIAL, LabelText(l) + [OPEN] + Spaces(l.afterOpen), u, OidText(t.oid), v);
    r := ReadySpaces(v, 0, NO_FIELDS.(oid := Some(OidText(t.oid))), l.afterOid);
    LeadsOn(INITIAL, LabelText(l) + [OPEN] + Spaces(l.afterOpen) + OidText(t.oid), v, Spaces(l.afterOid), r);
  }

  /** Whatever the layout, parsing a printed description gives back exactly its fields. */
  lemma ParsePrinted(t: AttributeType, l: Layout)
    requires Allowed(t, l)
    ensures Parsed(Print(t, l)) == Some(FieldsOf(t, l)) && ReadAll(INITIAL, Print(t, l)).place == Closed
  {
    var q := ReadOpening(t, l);
    var u, next := ReadClauses(q, t, l);
    LeadsOn(INITIAL, OpeningText(t, l), q, ClausesText(t, l), u);
    var v := ReadySpaces(u, next, FieldsOf(t, l), l.beforeClose);
    var w := ReadyReads(v, next, FieldsOf(t, l), CLOSE);
    LeadsStep(u, Spaces(l.beforeClose), v, CLOSE, w);
    LeadsOn(INITIAL, OpeningText(t, l) + ClausesText(t, l), u, Spaces(l.beforeClose) + [CLOSE], w);
    LeadsIsReadAll(INITIAL, Print(t, l), w);
  }
}
