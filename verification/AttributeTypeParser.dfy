/** The parser of attribute type descriptions (section 4.1.2 of RFC 4512, with the quoted syntax OID
    that Active Directory writes).  Like the recognisers it reports failure only when no
    continuation could succeed, so it also returns what a truncated description has told so far. */
module AttributeTypeParser {
  import opened Prelude
  import opened Regex
  import opened IntegerSyntax

  type text = seq<byte>

  const SPACE := 0x20
  const QUOTE := 0x27
  const OPEN := 0x28
  const CLOSE := 0x29
  const HYPHEN_SIGN := 0x2d
  const DOT := 0x2e
  const COLON := 0x3a

  predicate IsAlpha(c: byte) { 0x41 <= c <= 0x5a || 0x61 <= c <= 0x7a }

  predicate IsKeyChar(c: byte) { IsAlpha(c) || IsDigit(c) || c == HYPHEN_SIGN }

  function Upper(c: byte): byte { if 0x61 <= c <= 0x7a then c - 0x20 else c }

  /* Keywords, in upper case. */

  const LABEL: text := [0x41, 0x54, 0x54, 0x52, 0x49, 0x42, 0x55, 0x54, 0x45, 0x54, 0x59, 0x50, 0x45, 0x53]
  const NAME: text := [0x4e, 0x41, 0x4d, 0x45]
  const SYNTAX: text := [0x53, 0x59, 0x4e, 0x54, 0x41, 0x58]
  const SINGLE_VALUE: text := [0x53, 0x49, 0x4e, 0x47, 0x4c, 0x45, 0x2d, 0x56, 0x41, 0x4c, 0x55, 0x45]
  const NO_USER_MODIFICATION: text := [
    0x4e, 0x4f, 0x2d, 0x55, 0x53, 0x45, 0x52, 0x2d, 0x4d, 0x4f, 0x44, 0x49, 0x46, 0x49, 0x43, 0x41, 0x54, 0x49, 0x4f, 0x4e]
  const OCTET_STRING: text := [0x4f, 0x43, 0x54, 0x45, 0x54, 0x53, 0x54, 0x52, 0x49, 0x4e, 0x47]

  /** The optional clauses, in the order they must come. */
  function Keyword(clause: nat): text
    requires clause < 4
  {
    if clause == 0 then NAME else if clause == 1 then SYNTAX else if clause == 2 then SINGLE_VALUE else NO_USER_MODIFICATION
  }

  /* ---- The machine ---- */

  /** Where in a number: a digit is due, a lone zero has been read, or a number that may grow. */
  datatype Digits = Due | Zero | Growing

  datatype Place =
    | Label(n: nat)                          // n characters of the optional label; 0 is the start
    | BeforeOpen
    | BeforeOid
    | Oid(digits: Digits, dotted: bool)
    | Gap(next: nat)                         // between clauses; those from `next` on may follow
    | Word(next: nat, typed: text)           // part of a keyword
    | FlagRead(clause: nat)                  // a flag's keyword is complete
    | NameStart | ListStart | ListGap | ListNext
    | NameQuote(list: bool)
    | Name(list: bool)
    | SyntaxStart | SyntaxQuote
    | SyntaxOid(digits: Digits, dotted: bool)
    | SyntaxOctets(n: nat)
    | Closed

  datatype Action = NoAction | Start | OidEnd | NameEnd | SyntaxEnd | SetFlag(clause: nat)

  function MoveDigits(d: Digits, dotted: bool, c: byte): Option<(Digits, bool)> {
    if IsDigit(c) then
      if d == Due then Some((if c == 0x30 then Zero else Growing, dotted))
      else if d == Growing then Some((Growing, dotted))
      else None
    else if c == DOT && d != Due then Some((Due, true))
    else None
  }

  predicate CompleteOid(d: Digits, dotted: bool) { d != Due && dotted }

  /** Some clause from `next` on whose keyword starts as typed. */
  predicate Starts(next: nat, typed: text) {
    exists clause | next <= clause < 4 :: typed <= Keyword(clause)
  }

  function AfterKeyword(next: nat, typed: text): Place {
    if typed == NAME then NameStart
    else if typed == SYNTAX then SyntaxStart
    else if typed == SINGLE_VALUE then FlagRead(2)
    else if typed == NO_USER_MODIFICATION then FlagRead(3)
    else Word(next, typed)
  }

  function MoveWord(next: nat, typed: text): Option<Place> {
    if Starts(next, typed) then Some(AfterKeyword(next, typed)) else None
  }

  function MoveGap(next: nat, c: byte): Option<Place> {
    if c == SPACE then Some(Gap(next))
    else if c == CLOSE then Some(Closed)
    else MoveWord(next, [Upper(c)])
  }

  function Then(place: Option<Place>, action: Action): Option<(Place, Action)> {
    if place.Some? then Some((place.value, action)) else None
  }

  /** One transition: the next place, and the action its edge carries. */
  function Move(place: Place, c: byte): Option<(Place, Action)> {
    match place
    case Label(n) =>
      if n == 0 && c == OPEN then Some((BeforeOid, NoAction))
      else if n < |LABEL| && Upper(c) == LABEL[n] then Some((Label(n + 1), NoAction))
      else if n == |LABEL| && c == COLON then Some((BeforeOpen, NoAction))
      else None
    case BeforeOpen =>
      if c == SPACE then Some((BeforeOpen, NoAction)) else if c == OPEN then Some((BeforeOid, NoAction)) else None
    case BeforeOid =>
      if c == SPACE then Some((BeforeOid, NoAction))
      else
        (match MoveDigits(Due, false, c)
         case None => None
         case Some(m) => Some((Oid(m.0, m.1), Start)))
    case Oid(d, dotted) =>
      (match MoveDigits(d, dotted, c)
       case Some(m) => Some((Oid(m.0, m.1), NoAction))
       case None => if CompleteOid(d, dotted) then Then(MoveGap(0, c), OidEnd) else None)
    case Gap(next) => Then(MoveGap(next, c), NoAction)
    case Word(next, typed) => Then(MoveWord(next, typed + [Upper(c)]), NoAction)
    case FlagRead(clause) => Then(MoveGap(clause + 1, c), SetFlag(clause))
    case NameStart =>
      if c == SPACE then Some((NameStart, NoAction))
      else if c == QUOTE then Some((NameQuote(false), NoAction))
      else if c == OPEN then Some((ListStart, NoAction))
      else None
    case ListStart =>
      if c == SPACE then Some((ListGap, NoAction))
      else if c == QUOTE then Some((NameQuote(true), NoAction))
      else if c == CLOSE then Some((Gap(1), NoAction))
      else None
    case ListGap =>
      if c == SPACE then Some((ListGap, NoAction)) else if c == QUOTE then Some((NameQuote(true), NoAction)) else None
    case ListNext =>
      if c == SPACE then Some((ListNext, NoAction))
      else if c == QUOTE then Some((NameQuote(true), NoAction))
      else if c == CLOSE then Some((Gap(1), NoAction))
      else None
    case NameQuote(list) => if IsAlpha(c) then Some((Name(list), Start)) else None
    case Name(list) =>
      if IsKeyChar(c) then Some((Name(list), NoAction))
      else if c == QUOTE then Some((if list then ListNext else Gap(1), NameEnd))
      else None
    case SyntaxStart =>
      if c == SPACE then Some((SyntaxStart, NoAction)) else if c == QUOTE then Some((SyntaxQuote, NoAction)) else None
    case SyntaxQuote =>
      if Upper(c) == OCTET_STRING[0] then Some((SyntaxOctets(1), Start))
      else
        (match MoveDigits(Due, false, c)
         case None => None
         case Some(m) => Some((SyntaxOid(m.0, m.1), Start)))
    case SyntaxOid(d, dotted) =>
      (match MoveDigits(d, dotted, c)
       case Some(m) => Some((SyntaxOid(m.0, m.1), NoAction))
       case None => if CompleteOid(d, dotted) && c == QUOTE then Some((Gap(2), SyntaxEnd)) else None)
    case SyntaxOctets(n) =>
      if n < |OCTET_STRING| && Upper(c) == OCTET_STRING[n] then Some((SyntaxOctets(n + 1), NoAction))
      else if n == |OCTET_STRING| && c == QUOTE then Some((Gap(2), SyntaxEnd))
      else None
    case Closed => None
  }

  /* ---- The actions ---- */

  /** The fields of the parsed structure that the actions set; None and [] are NULL. */
  datatype Fields = Fields(
    oid: Option<text>, names: seq<text>, syntaxOid: Option<text>, singleValue: bool, noUserModification: bool)

  const NO_FIELDS := Fields(None, [], None, false, false)

  /** `since` is the text from the last symbol start up to the current character. */
  function Perform(f: Fields, action: Action, since: text): Fields {
    match action
    case NoAction => f
    case Start => f
    case OidEnd => if since != [] then f.(oid := Some(since)) else f
    case NameEnd => if since != [] then f.(names := f.names + [since]) else f
    case SyntaxEnd => if since != [] then f.(syntaxOid := Some(since)) else f
    case SetFlag(clause) => if clause == 2 then f.(singleValue := true) else f.(noUserModification := true)
  }

  predicate MovesStart(action: Action) { action != NoAction && !action.SetFlag? }

  /** The scanner between two characters. */
  datatype Scanner = Failed | At(place: Place, since: text, fields: Fields)

  const INITIAL := At(Label(0), [], NO_FIELDS)

  function Take(s: Scanner, move: Option<(Place, Action)>, c: byte): Scanner
    requires s.At?
  {
    match move
    case None => Failed
    case Some(m) =>
      At(m.0, (if MovesStart(m.1) then [] else s.since) + [c], Perform(s.fields, m.1, s.since))
  }

  function Read(s: Scanner, c: byte): Scanner {
    if s.Failed? then Failed else Take(s, Move(s.place, c), c)
  }

  function ReadAll(s: Scanner, input: text): Scanner
    decreases |input|
  {
    if input == [] then s else Read(ReadAll(s, input[..|input| - 1]), input[|input| - 1])
  }

  function Parsed(input: text): Option<Fields> {
    var s := ReadAll(INITIAL, input);
    if s.Failed? then None else Some(s.fields)
  }

  lemma {:induction false} FailedStays(input: text, n: nat)
    requires n <= |input| && ReadAll(INITIAL, input[..n]).Failed?
    ensures ReadAll(INITIAL, input).Failed?
    decreases |input|
  {
    if n < |input| {
      assert input[..|input| - 1][..n] == input[..n];
      FailedStays(input[..|input| - 1], n);
    } else {
      assert input[..n] == input;
    }
  }

  ghost predicate Between(source: text, from: nat, to: nat, since: text)
    requires from <= to <= |source|
  {
    |since| == to - from && forall k | 0 <= k < |since| :: since[k] == source[from + k]
  }

  lemma BetweenGrows(source: text, from: nat, to: nat, since: text)
    requires from <= to < |source| && Between(source, from, to, since)
    ensures Between(source, from, to + 1, since + [source[to]])
  {
  }

  lemma BetweenIsSlice(source: text, from: nat, to: nat, since: text)
    requires from <= to <= |source| && Between(source, from, to, since)
    ensures source[from..to] == since
  {
  }

  /** One turn of the scanner's loop. */
  method Advance(source: text, p: nat, place: Place, symbolStart: nat, fields: Fields, ghost since: text)
    returns (ok: bool, newPlace: Place, newStart: nat, newFields: Fields, ghost newSince: text)
    requires symbolStart <= p < |source| && Between(source, symbolStart, p, since)
    requires ReadAll(INITIAL, source[..p]) == At(place, since, fields)
    ensures ok ==> newStart <= p + 1 && Between(source, newStart, p + 1, newSince)
    ensures ReadAll(INITIAL, source[..p + 1]) == if ok then At(newPlace, newSince, newFields) else Failed
  {
    assert source[..p + 1][..p] == source[..p];
    var move := Move(place, source[p]);
    if move.None? {
      return false, place, symbolStart, fields, since;
    }
    var action := move.value.1;
    BetweenIsSlice(source, symbolStart, p, since);
    newFields := Perform(fields, action, source[symbolStart..p]);
    newStart, newSince := symbolStart, since;
    if MovesStart(action) {
      newStart, newSince := p, [];
    }
    BetweenGrows(source, newStart, p, newSince);
    newSince := newSince + [source[p]];
    ok, newPlace := true, move.value.0;
  }

  method Parse(haveContext: bool, input: Option<text>) returns (result: Option<Fields>)
    ensures result == if haveContext && input.Some? then Parsed(input.value) else None
  {
    if !haveContext || input.None? {
      return None;
    }
    var source := input.value;
    var p: nat, symbolStart: nat, place, fields := 0, 0, Label(0), NO_FIELDS;
    ghost var since: text := [];
    while p < |source|
      invariant symbolStart <= p <= |source| && Between(source, symbolStart, p, since)
      invariant ReadAll(INITIAL, source[..p]) == At(place, since, fields)
    {
      var ok;
      ok, place, symbolStart, fields, since := Advance(source, p, place, symbolStart, fields, since);
      p := p + 1;
      if !ok {
        FailedStays(source, p);
        return None;
      }
    }
    assert source[..p] == source;
    return Some(fields);
  }
}
