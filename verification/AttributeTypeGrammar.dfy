/** The grammar of attribute type descriptions, rule by rule, and the proof that the places of the
    parser are its residuals: the parser accepts exactly the beginnings of its words. */
module AttributeTypeGrammar {
  import opened Prelude
  import opened Regex
  import opened RegexJoin
  import opened IntegerSyntax
  import opened AttributeTypeParser
  import opened CaselessWords
  import R = Rules

  /* ---- The rules ---- */

  const WHSP := Star(Byte(SPACE))
  const SQUOTE := Byte(QUOTE)

  /** The literals of the grammar. */
  datatype Words = Words(
    attributeTypes: text, name: text, syntax: text, octetString: text, singleValue: text, noUserModification: text)

  const WORDS := Words(LABEL, NAME, SYNTAX, OCTET_STRING, SINGLE_VALUE, NO_USER_MODIFICATION)

  const NUMERIC_OID := R.NumericOid(R.NUMBER)
  const QDESCR := Cat(WHSP, Cat(SQUOTE, Cat(R.KEYSTRING, Cat(SQUOTE, WHSP))))
  const QDESCR_LIST := Opt(Cat(QDESCR, Star(QDESCR)))
  const QDESCRS := Alt(QDESCR, Cat(WHSP, Cat(Byte(OPEN), Cat(QDESCR_LIST, Cat(Byte(CLOSE), WHSP)))))

  function SyntaxOidRule(g: Words): Regex { Cat(SQUOTE, Cat(Alt(NUMERIC_OID, Literal(g.octetString)), SQUOTE)) }

  function NameClause(g: Words): Regex { Cat(Literal(g.name), QDESCRS) }

  function SyntaxClause(g: Words): Regex { Cat(Literal(g.syntax), Cat(WHSP, Cat(SyntaxOidRule(g), WHSP))) }

  function FlagClause(word: text): Regex { Cat(Literal(word), WHSP) }

  function Clauses(g: Words): Regex {
    Cat(Opt(NameClause(g)),
    Cat(Opt(SyntaxClause(g)),
    Cat(Opt(FlagClause(g.singleValue)),
    Cat(Opt(FlagClause(g.noUserModification)), Cat(WHSP, Byte(CLOSE))))))
  }

  function Description(g: Words): Regex { Cat(Byte(OPEN), Cat(WHSP, Cat(NUMERIC_OID, Cat(WHSP, Clauses(g))))) }

  function Labelled(g: Words): Regex { Cat(Opt(Cat(Literal(g.attributeTypes), Cat(Byte(COLON), WHSP))), Description(g)) }

  const GRAMMAR := Labelled(WORDS)

  /* ---- The residual of each place ---- */

  const END := Cat(WHSP, Cat(Byte(CLOSE), Empty))
  const DOTTED := Cat(R.DOT, R.NUMBER)

  /** What may follow a number of an OID. */
  function MoreNumbers(dotted: bool, rest: Regex): Regex {
    var more := Cat(Star(DOTTED), rest);
    if dotted then more else Cat(R.DOT, Join(R.NUMBER, more))
  }

  function OidRest(d: Digits, dotted: bool, rest: Regex): Regex {
    match d
    case Due => Join(R.NUMBER, MoreNumbers(dotted, rest))
    case Zero => MoreNumbers(dotted, rest)
    case Growing => Cat(Star(R.DIGIT), MoreNumbers(dotted, rest))
  }

  /** From inside a name to what comes after it. */
  function NameRest(after: Regex): Regex { Cat(Star(R.KEYCHAR), Cat(SQUOTE, after)) }

  function QuotedRest(after: Regex): Regex { Join(R.ALPHA, NameRest(after)) }

  function ItemRest(after: Regex): Regex { Cat(WHSP, Cat(SQUOTE, QuotedRest(after))) }

  /** From behind a name of the list. */
  function ListNextRest(after: Regex): Regex { Cat(WHSP, Cat(Star(QDESCR), Cat(Byte(CLOSE), after))) }

  function ListRest(after: Regex): Regex { Alt(ItemRest(ListNextRest(after)), Cat(Byte(CLOSE), after)) }

  function NamesRest(after: Regex): Regex { Alt(ItemRest(after), Cat(WHSP, Cat(Byte(OPEN), ListRest(after)))) }

  function SyntaxOidRest(octetString: text, after: Regex): Regex {
    Alt(OidRest(Due, false, Cat(SQUOTE, after)), Spelled(octetString, Cat(SQUOTE, after)))
  }

  function SyntaxRest(octetString: text, after: Regex): Regex { Cat(WHSP, Cat(SQUOTE, SyntaxOidRest(octetString, after))) }

  /** Between clauses, those from `next` on to come. */
  function GapRest(g: Words, next: nat): Regex { Cat(WHSP, Tail(g, next)) }

  function Tail(g: Words, next: nat): Regex
    decreases 4 - next, 1
  {
    if next >= 4 then END else Alt(Spelled(KeywordOf(g, next), Follower(g, next)), Tail(g, next + 1))
  }

  function KeywordOf(g: Words, clause: nat): text {
    if clause == 0 then g.name else if clause == 1 then g.syntax else if clause == 2 then g.singleValue else g.noUserModification
  }

  /** What follows a clause's keyword. */
  function Follower(g: Words, clause: nat): Regex
    requires clause < 4
    decreases 4 - clause, 0
  {
    var after := Cat(WHSP, Tail(g, clause + 1));
    if clause == 0 then NamesRest(after) else if clause == 1 then SyntaxRest(g.octetString, after) else after
  }

  function Keywords(g: Words): seq<text> { [g.name, g.syntax, g.singleValue, g.noUserModification] }

  function Followers(g: Words): seq<Regex> { [Follower(g, 0), Follower(g, 1), Follower(g, 2), Follower(g, 3)] }

  function OpenedRest(g: Words): Regex { Cat(WHSP, OidRest(Due, false, GapRest(g, 0))) }

  function LabelRest(g: Words, n: nat): Regex {
    Spelled(g.attributeTypes[if n <= |g.attributeTypes| then n else |g.attributeTypes|..], Cat(Byte(COLON), Cat(WHSP, Cat(Byte(OPEN), OpenedRest(g)))))
  }

  function OctetsRest(g: Words, n: nat): Regex {
    Spelled(g.octetString[if n <= |g.octetString| then n else |g.octetString|..], Cat(SQUOTE, GapRest(g, 2)))
  }

  function Rest(g: Words, p: Place): Regex {
    match p
    case Label(n) => if n == 0 then Alt(LabelRest(g, 0), Cat(Byte(OPEN), OpenedRest(g))) else LabelRest(g, n)
    case BeforeOpen => Cat(WHSP, Cat(Byte(OPEN), OpenedRest(g)))
    case BeforeOid => OpenedRest(g)
    case Oid(d, dotted) => OidRest(d, dotted, GapRest(g, 0))
    case Gap(next) => GapRest(g, next)
    case Word(next, typed) => Choice(Keywords(g), Followers(g), next, typed)
    case FlagRead(clause) => GapRest(g, clause + 1)
    case NameStart => NamesRest(GapRest(g, 1))
    case ListStart => ListRest(GapRest(g, 1))
    case ListGap => ItemRest(ListNextRest(GapRest(g, 1)))
    case ListNext => ListNextRest(GapRest(g, 1))
    case NameQuote(list) => QuotedRest(if list then ListNextRest(GapRest(g, 1)) else GapRest(g, 1))
    case Name(list) => NameRest(if list then ListNextRest(GapRest(g, 1)) else GapRest(g, 1))
    case SyntaxStart => SyntaxRest(g.octetString, GapRest(g, 2))
    case SyntaxQuote => SyntaxOidRest(g.octetString, GapRest(g, 2))
    case SyntaxOid(d, dotted) => OidRest(d, dotted, Cat(SQUOTE, GapRest(g, 2)))
    case SyntaxOctets(n) => OctetsRest(g, n)
    case Closed => Empty
  }

  /* ---- Keywords and gaps ---- */

  lemma SpacesFirst(rest: Regex, c: byte, w: text)
    ensures Matches(Cat(WHSP, rest), [c] + w)
       <==> (c == SPACE && Matches(Cat(WHSP, rest), w)) || Matches(rest, [c] + w)
  {
    StarUnfolds(Byte(SPACE), rest, [c] + w);
    RangeFirst(SPACE, SPACE, Cat(WHSP, rest), c, w);
  }

  /** Keywords in capitals, none of which begins with another. */
  ghost predicate Unambiguous(words: seq<text>) {
    && |words| == 4
    && (forall i | 0 <= i < 4 :: words[i] != [] && Capitals(words[i]))
    && (forall i, j | 0 <= i < 4 && 0 <= j < 4 && words[i] <= words[j] :: i == j)
  }

  predicate StartsOne(words: seq<text>, next: nat, typed: text) {
    exists i | next <= i < |words| :: typed <= words[i]
  }

  /** As in the parser, for any keywords. */
  function MoveAnyWord(words: seq<text>, next: nat, typed: text): Option<Place>
    requires |words| == 4
  {
    if !StartsOne(words, next, typed) then None
    else if typed == words[0] then Some(NameStart)
    else if typed == words[1] then Some(SyntaxStart)
    else if typed == words[2] then Some(FlagRead(2))
    else if typed == words[3] then Some(FlagRead(3))
    else Some(Word(next, typed))
  }

  lemma FollowerRest(g: Words, clause: nat)
    requires clause < 4
    ensures Follower(g, clause) == Rest(g, if clause == 0 then NameStart else if clause == 1 then SyntaxStart else FlagRead(clause))
  {
  }

  lemma WholeWord(g: Words, words: seq<text>, followers: seq<Regex>, next: nat, clause: nat, w: text)
    requires Unambiguous(words) && |followers| == 4 && clause < 4 && followers[clause] == Follower(g, clause)
    requires StartsOne(words, next, words[clause])
    ensures Matches(Choice(words, followers, next, words[clause]), w)
       <==> Matches(Rest(g, MoveAnyWord(words, next, words[clause]).value), w)
  {
    ChoiceMade(words, followers, next, clause, w);
    FollowerRest(g, clause);
  }

  lemma WordBecomes(g: Words, words: seq<text>, followers: seq<Regex>, next: nat, t: text, w: text)
    requires Unambiguous(words) && words == Keywords(g) && followers == Followers(g)
    requires forall clause | 0 <= clause < 4 :: followers[clause] == Follower(g, clause)
    ensures Matches(Choice(words, followers, next, t), w)
       <==> MoveAnyWord(words, next, t).Some? && Matches(Rest(g, MoveAnyWord(words, next, t).value), w)
  {
    if !StartsOne(words, next, t) {
      NoChoice(words, followers, next, t, w);
    } else if clause :| 0 <= clause < 4 && words[clause] == t {
      WholeWord(g, words, followers, next, clause, w);
    } else {
      assert MoveAnyWord(words, next, t) == Some(Word(next, t));
    }
  }

  lemma WordFirst(g: Words, words: seq<text>, followers: seq<Regex>, next: nat, typed: text, c: byte, w: text)
    requires Unambiguous(words) && words == Keywords(g) && followers == Followers(g) && typed !in words
    ensures var move := MoveAnyWord(words, next, typed + [Upper(c)]);
      Matches(Choice(words, followers, next, typed), [c] + w) <==> move.Some? && Matches(Rest(g, move.value), w)
  {
    ChoiceFirst(words, followers, next, typed, c, w);
    WordBecomes(g, words, followers, next, typed + [Upper(c)], w);
  }

  lemma {:induction false} TailIsOptions(g: Words, next: nat)
    ensures Tail(g, next) == Options(Keywords(g), Followers(g), END, next)
    decreases 4 - next
  {
    if next < 4 { TailIsOptions(g, next + 1); }
  }

  lemma TailIsChoice(g: Words, next: nat, w: text)
    ensures Matches(Tail(g, next), w) <==> Matches(Choice(Keywords(g), Followers(g), next, []), w) || Matches(END, w)
  {
    TailIsOptions(g, next);
    OptionsAreChoice(Keywords(g), Followers(g), END, next, w);
  }

  lemma EndFirst(c: byte, w: text)
    ensures Matches(END, [c] + w) <==> (c == SPACE && Matches(END, w)) || (c == CLOSE && w == [])
  {
    SpacesFirst(Cat(Byte(CLOSE), Empty), c, w);
    RangeFirst(CLOSE, CLOSE, Empty, c, w);
  }

  lemma EndInGap(g: Words, next: nat, w: text)
    requires Matches(END, w)
    ensures Matches(GapRest(g, next), w)
  {
    TailIsChoice(g, next, w);
    StarUnfolds(Byte(SPACE), Tail(g, next), w);
  }

  function MoveAnyGap(words: seq<text>, next: nat, c: byte): Option<Place>
    requires |words| == 4
  {
    if c == SPACE then Some(Gap(next)) else if c == CLOSE then Some(Closed) else MoveAnyWord(words, next, [Upper(c)])
  }

  lemma NotALetter(words: seq<text>, next: nat, c: byte)
    requires Unambiguous(words) && !IsCapital(Upper(c))
    ensures !StartsOne(words, next, [Upper(c)])
  {
    forall i | next <= i < 4 ensures !([Upper(c)] <= words[i]) {
      assert IsCapital(words[i][0]) && [Upper(c)][0] == Upper(c);
    }
  }

  lemma GapFirst(g: Words, words: seq<text>, next: nat, c: byte, w: text)
    requires Unambiguous(words) && words == Keywords(g)
    ensures Matches(GapRest(g, next), [c] + w)
       <==> MoveAnyGap(words, next, c).Some? && Matches(Rest(g, MoveAnyGap(words, next, c).value), w)
  {
    SpacesFirst(Tail(g, next), c, w);
    TailIsChoice(g, next, [c] + w);
    EndFirst(c, w);
    WordFirst(g, words, Followers(g), next, [], c, w);
    assert [] + [Upper(c)] == [Upper(c)];
    if c == SPACE || c == CLOSE { NotALetter(words, next, c); }
    if c == SPACE && Matches(END, w) { EndInGap(g, next, w); }
  }

  /* ---- Numbers ---- */

  lemma DigitFirst(rest: Regex, c: byte, w: text)
    ensures Matches(Join(R.DIGIT, rest), [c] + w) <==> IsDigit(c) && Matches(rest, w)
  {
    JoinAlt(Byte(0x30), R.LDIGIT, rest);
    RangeFirst(0x30, 0x30, rest, c, w);
    RangeFirst(0x31, 0x39, rest, c, w);
  }

  lemma DigitsFirst(rest: Regex, c: byte, w: text)
    ensures Matches(Cat(Star(R.DIGIT), rest), [c] + w)
       <==> (IsDigit(c) && Matches(Cat(Star(R.DIGIT), rest), w)) || Matches(rest, [c] + w)
  {
    StarUnfolds(R.DIGIT, rest, [c] + w);
    DigitFirst(Cat(Star(R.DIGIT), rest), c, w);
  }

  lemma NumberFirst(rest: Regex, c: byte, w: text)
    ensures Matches(Join(R.NUMBER, rest), [c] + w)
       <==> (c == 0x30 && Matches(rest, w)) || (0x31 <= c <= 0x39 && Matches(Cat(Star(R.DIGIT), rest), w))
  {
    var more := Join(R.DIGIT, Cat(Star(R.DIGIT), rest));
    NumberJoined(R.DIGIT, R.LDIGIT, rest);
    DigitFirst(rest, c, w);
    RangeFirst(0x31, 0x39, more, c, w);
    StarUnfolds(R.DIGIT, rest, w);
  }

  lemma NumberJoined(digit: Regex, ldigit: Regex, rest: Regex)
    requires ldigit.Range?
    ensures Join(Alt(digit, Cat(ldigit, Plus(digit))), rest)
         == Alt(Join(digit, rest), Cat(ldigit, Join(digit, Cat(Star(digit), rest))))
  {
    assert Join(Star(digit), rest) == Cat(Star(digit), rest);
    assert Join(Plus(digit), rest) == Join(digit, Join(Star(digit), rest));
    assert Join(Cat(ldigit, Plus(digit)), rest) == Join(ldigit, Join(Plus(digit), rest));
  }

  lemma MoreFirst(dotted: bool, rest: Regex, c: byte, w: text)
    ensures Matches(MoreNumbers(dotted, rest), [c] + w)
       <==> (c == DOT && Matches(OidRest(Due, true, rest), w)) || (dotted && Matches(rest, [c] + w))
  {
    var next := Join(R.NUMBER, Cat(Star(DOTTED), rest));
    DottedJoined(R.DOT, R.NUMBER, Cat(Star(DOTTED), rest));
    RangeFirst(DOT, DOT, next, c, w);
    StarUnfolds(DOTTED, rest, [c] + w);
  }

  lemma OidFirst(d: Digits, dotted: bool, rest: Regex, c: byte, w: text)
    requires IsDigit(c) || c == DOT ==> !Matches(rest, [c] + w)
    ensures Matches(OidRest(d, dotted, rest), [c] + w)
       <==> match MoveDigits(d, dotted, c)
            case Some(m) => Matches(OidRest(m.0, m.1, rest), w)
            case None => CompleteOid(d, dotted) && Matches(rest, [c] + w)
  {
    var more := MoreNumbers(dotted, rest);
    match d
    case Due => NumberFirst(more, c, w);
    case Zero => MoreFirst(dotted, rest, c, w);
    case Growing =>
      DigitsFirst(more, c, w);
      MoreFirst(dotted, rest, c, w);
  }

  lemma DottedJoined(dot: Regex, number: Regex, rest: Regex)
    requires dot.Range?
    ensures Join(Cat(dot, number), rest) == Cat(dot, Join(number, rest))
  {
  }

  /* ---- Names ---- */

  lemma AlphaFirst(rest: Regex, c: byte, w: text)
    ensures Matches(Join(R.ALPHA, rest), [c] + w) <==> IsAlpha(c) && Matches(rest, w)
  {
    JoinAlt(Range(0x41, 0x5a), Range(0x61, 0x7a), rest);
    RangeFirst(0x41, 0x5a, rest, c, w);
    RangeFirst(0x61, 0x7a, rest, c, w);
  }

  lemma KeyCharFirst(rest: Regex, c: byte, w: text)
    ensures Matches(Join(R.KEYCHAR, rest), [c] + w) <==> IsKeyChar(c) && Matches(rest, w)
  {
    JoinAlt(R.ALPHA, Alt(R.DIGIT, R.HYPHEN), rest);
    JoinAlt(R.DIGIT, R.HYPHEN, rest);
    AlphaFirst(rest, c, w);
    DigitFirst(rest, c, w);
    RangeFirst(HYPHEN_SIGN, HYPHEN_SIGN, rest, c, w);
  }

  lemma NameFirst(after: Regex, c: byte, w: text)
    ensures Matches(NameRest(after), [c] + w)
       <==> (IsKeyChar(c) && Matches(NameRest(after), w)) || (c == QUOTE && Matches(after, w))
  {
    StarUnfolds(R.KEYCHAR, Cat(SQUOTE, after), [c] + w);
    KeyCharFirst(NameRest(after), c, w);
    RangeFirst(QUOTE, QUOTE, after, c, w);
  }

  lemma ItemFirst(after: Regex, c: byte, w: text)
    ensures Matches(ItemRest(after), [c] + w)
       <==> (c == SPACE && Matches(ItemRest(after), w)) || (c == QUOTE && Matches(QuotedRest(after), w))
  {
    SpacesFirst(Cat(SQUOTE, QuotedRest(after)), c, w);
    RangeFirst(QUOTE, QUOTE, QuotedRest(after), c, w);
  }

  lemma QdescrJoined(quote: Regex, alpha: Regex, chars: Regex, space: Regex, after: Regex)
    requires quote.Range? && chars.Star? && space.Star?
    ensures Join(Cat(space, Cat(quote, Cat(Cat(alpha, chars), Cat(quote, space)))), after)
         == Cat(space, Cat(quote, Join(alpha, Cat(chars, Cat(quote, Cat(space, after))))))
  {
    var tail := Cat(quote, Cat(space, after));
    assert Join(Cat(quote, space), after) == tail;
    assert Join(Cat(alpha, chars), tail) == Join(alpha, Cat(chars, tail));
    var name := Cat(Cat(alpha, chars), Cat(quote, space));
    assert Join(name, after) == Join(alpha, Cat(chars, tail));
    assert Join(Cat(quote, name), after) == Cat(quote, Join(name, after));
  }

  lemma ListItems(after: Regex, w: text)
    ensures Matches(Cat(Star(QDESCR), Cat(Byte(CLOSE), after)), w)
       <==> Matches(Cat(Byte(CLOSE), after), w) || Matches(ItemRest(ListNextRest(after)), w)
  {
    StarUnfolds(QDESCR, Cat(Byte(CLOSE), after), w);
    QdescrJoined(SQUOTE, R.ALPHA, Star(R.KEYCHAR), WHSP, Cat(Star(QDESCR), Cat(Byte(CLOSE), after)));
  }

  lemma ListNextFirst(after: Regex, c: byte, w: text)
    ensures Matches(ListNextRest(after), [c] + w)
       <==> || (c == SPACE && Matches(ListNextRest(after), w))
            || (c == QUOTE && Matches(QuotedRest(ListNextRest(after)), w))
            || (c == CLOSE && Matches(after, w))
  {
    var items := Cat(Star(QDESCR), Cat(Byte(CLOSE), after));
    SpacesFirst(items, c, w);
    ListItems(after, [c] + w);
    ItemFirst(ListNextRest(after), c, w);
    RangeFirst(CLOSE, CLOSE, after, c, w);
    ListItems(after, w);
    StarUnfolds(Byte(SPACE), items, w);
  }

  lemma ListFirst(after: Regex, c: byte, w: text)
    ensures Matches(ListRest(after), [c] + w)
       <==> || (c == SPACE && Matches(ItemRest(ListNextRest(after)), w))
            || (c == QUOTE && Matches(QuotedRest(ListNextRest(after)), w))
            || (c == CLOSE && Matches(after, w))
  {
    ItemFirst(ListNextRest(after), c, w);
    RangeFirst(CLOSE, CLOSE, after, c, w);
  }

  lemma NamesFirst(after: Regex, c: byte, w: text)
    ensures Matches(NamesRest(after), [c] + w)
       <==> || (c == SPACE && Matches(NamesRest(after), w))
            || (c == QUOTE && Matches(QuotedRest(after), w))
            || (c == OPEN && Matches(ListRest(after), w))
  {
    ItemFirst(after, c, w);
    SpacesFirst(Cat(Byte(OPEN), ListRest(after)), c, w);
    RangeFirst(OPEN, OPEN, ListRest(after), c, w);
  }

  /* ---- The syntax clause ---- */

  lemma SyntaxFirst(octetString: text, after: Regex, c: byte, w: text)
    ensures Matches(SyntaxRest(octetString, after), [c] + w)
       <==> || (c == SPACE && Matches(SyntaxRest(octetString, after), w))
            || (c == QUOTE && Matches(SyntaxOidRest(octetString, after), w))
  {
    SpacesFirst(Cat(SQUOTE, SyntaxOidRest(octetString, after)), c, w);
    RangeFirst(QUOTE, QUOTE, SyntaxOidRest(octetString, after), c, w);
  }

  lemma SyntaxOidFirst(octetString: text, after: Regex, c: byte, w: text)
    requires Capitals(octetString) && octetString != []
    ensures Matches(SyntaxOidRest(octetString, after), [c] + w)
       <==> || (Upper(c) == octetString[0] && Matches(Spelled(octetString[1..], Cat(SQUOTE, after)), w))
            || (MoveDigits(Due, false, c).Some?
                && var m := MoveDigits(Due, false, c).value; Matches(OidRest(m.0, m.1, Cat(SQUOTE, after)), w))
  {
    RangeFirst(QUOTE, QUOTE, after, c, w);
    OidFirst(Due, false, Cat(SQUOTE, after), c, w);
    SpelledFirst(octetString, Cat(SQUOTE, after), c, w);
  }

  lemma LiteralGoesOn(word: text, n: nat, rest: Regex, c: byte, w: text)
    requires Capitals(word) && n < |word|
    ensures Matches(Spelled(word[n..], rest), [c] + w) <==> Upper(c) == word[n] && Matches(Spelled(word[n + 1..], rest), w)
  {
    assert word[n..][0] == word[n] && word[n..][1..] == word[n + 1..];
    SpelledFirst(word[n..], rest, c, w);
  }

  lemma LiteralEnds(word: text, b: byte, rest: Regex, c: byte, w: text)
    ensures Matches(Spelled(word[|word|..], Cat(Byte(b), rest)), [c] + w) <==> c == b && Matches(rest, w)
  {
    RangeFirst(b, b, rest, c, w);
  }

  /* ---- One transition ---- */

  ghost predicate IsLabel(word: text) {
    Capitals(word) && |word| == |LABEL| && forall n | 0 <= n < |word| :: word[n] == LABEL[n]
  }

  ghost predicate IsOctetString(word: text) {
    Capitals(word) && |word| == |OCTET_STRING| && forall n | 0 <= n < |word| :: word[n] == OCTET_STRING[n]
  }

  /** The literals are those the parser compares with. */
  ghost predicate Standard(g: Words) {
    && IsLabel(g.attributeTypes) && IsOctetString(g.octetString)
    && Unambiguous(Keywords(g)) && forall clause | 0 <= clause < 4 :: Keywords(g)[clause] == Keyword(clause)
  }

  predicate Placed(p: Place) {
    match p
    case Label(n) => n <= |LABEL|
    case Word(next, typed) => Starts(next, typed) && forall clause | 0 <= clause < 4 :: typed != Keyword(clause)
    case SyntaxOctets(n) => n <= |OCTET_STRING|
    case _ => true
  }

  ghost predicate Steps(g: Words, p: Place, c: byte, w: text) {
    Matches(Rest(g, p), [c] + w) <==> Move(p, c).Some? && Matches(Rest(g, Move(p, c).value.0), w)
  }

  lemma SameMoves(words: seq<text>, next: nat, typed: text)
    requires |words| == 4 && forall clause | 0 <= clause < 4 :: words[clause] == Keyword(clause)
    ensures MoveWord(next, typed) == MoveAnyWord(words, next, typed)
  {
    assert words[0] == Keyword(0) && words[1] == Keyword(1) && words[2] == Keyword(2) && words[3] == Keyword(3);
    assert Starts(next, typed) <==> StartsOne(words, next, typed);
  }

  lemma SameGaps(words: seq<text>, next: nat, c: byte)
    requires Unambiguous(words) && forall clause | 0 <= clause < 4 :: words[clause] == Keyword(clause)
    ensures MoveGap(next, c) == MoveAnyGap(words, next, c)
    ensures IsDigit(c) || c == DOT ==> MoveGap(next, c) == None
  {
    SameMoves(words, next, [Upper(c)]);
    if IsDigit(c) || c == DOT { NotALetter(words, next, c); }
  }

  lemma GapSteps(g: Words, next: nat, c: byte, w: text)
    requires Standard(g)
    ensures Matches(GapRest(g, next), [c] + w) <==> MoveGap(next, c).Some? && Matches(Rest(g, MoveGap(next, c).value), w)
    ensures IsDigit(c) || c == DOT ==> MoveGap(next, c) == None
  {
    var words := Keywords(g);
    GapFirst(g, words, next, c, w);
    SameGaps(words, next, c);
  }

  lemma WordSteps(g: Words, next: nat, typed: text, c: byte, w: text)
    requires Standard(g) && Placed(Word(next, typed))
    ensures Steps(g, Word(next, typed), c, w)
  {
    WordFirst(g, Keywords(g), Followers(g), next, typed, c, w);
    SameMoves(Keywords(g), next, typed + [Upper(c)]);
  }

  lemma OidSteps(g: Words, d: Digits, dotted: bool, c: byte, w: text)
    requires Standard(g)
    ensures Steps(g, Place.Oid(d, dotted), c, w)
  {
    GapSteps(g, 0, c, w);
    OidFirst(d, dotted, GapRest(g, 0), c, w);
  }

  lemma SyntaxOidSteps(g: Words, d: Digits, dotted: bool, c: byte, w: text)
    ensures Steps(g, SyntaxOid(d, dotted), c, w)
  {
    RangeFirst(QUOTE, QUOTE, GapRest(g, 2), c, w);
    OidFirst(d, dotted, Cat(SQUOTE, GapRest(g, 2)), c, w);
  }

  lemma BeforeOpenSteps(g: Words, c: byte, w: text)
    ensures Steps(g, BeforeOpen, c, w)
  {
    SpacesFirst(Cat(Byte(OPEN), OpenedRest(g)), c, w);
    RangeFirst(OPEN, OPEN, OpenedRest(g), c, w);
  }

  lemma BeforeOidSteps(g: Words, c: byte, w: text)
    requires Standard(g)
    ensures Steps(g, BeforeOid, c, w)
  {
    SpacesFirst(OidRest(Due, false, GapRest(g, 0)), c, w);
    GapSteps(g, 0, c, w);
    OidFirst(Due, false, GapRest(g, 0), c, w);
  }

  lemma LabelFirst(g: Words, n: nat, c: byte, w: text)
    requires Capitals(g.attributeTypes) && n <= |g.attributeTypes|
    ensures Matches(LabelRest(g, n), [c] + w) <==>
      if n < |g.attributeTypes| then Upper(c) == g.attributeTypes[n] && Matches(LabelRest(g, n + 1), w)
      else c == COLON && Matches(Rest(g, BeforeOpen), w)
  {
    var after := Cat(WHSP, Cat(Byte(OPEN), OpenedRest(g)));
    if n < |g.attributeTypes| {
      LiteralGoesOn(g.attributeTypes, n, Cat(Byte(COLON), after), c, w);
    } else {
      LiteralEnds(g.attributeTypes, COLON, after, c, w);
    }
  }

  lemma LabelSteps(g: Words, n: nat, c: byte, w: text)
    requires IsLabel(g.attributeTypes) && n <= |LABEL|
    ensures Steps(g, Label(n), c, w)
  {
    LabelFirst(g, n, c, w);
    RangeFirst(OPEN, OPEN, OpenedRest(g), c, w);
  }

  lemma OctetsFirst(g: Words, n: nat, c: byte, w: text)
    requires Capitals(g.octetString) && n <= |g.octetString|
    ensures Matches(OctetsRest(g, n), [c] + w) <==>
      if n < |g.octetString| then Upper(c) == g.octetString[n] && Matches(OctetsRest(g, n + 1), w)
      else c == QUOTE && Matches(GapRest(g, 2), w)
  {
    if n < |g.octetString| {
      LiteralGoesOn(g.octetString, n, Cat(SQUOTE, GapRest(g, 2)), c, w);
    } else {
      LiteralEnds(g.octetString, QUOTE, GapRest(g, 2), c, w);
    }
  }

  lemma OctetsSteps(g: Words, n: nat, c: byte, w: text)
    requires IsOctetString(g.octetString) && n <= |OCTET_STRING|
    ensures Steps(g, SyntaxOctets(n), c, w)
  {
    OctetsFirst(g, n, c, w);
  }

  lemma SyntaxQuoteSteps(g: Words, c: byte, w: text)
    requires IsOctetString(g.octetString)
    ensures Steps(g, SyntaxQuote, c, w)
  {
    SyntaxOidFirst(g.octetString, GapRest(g, 2), c, w);
  }

  lemma NameSteps(g: Words, list: bool, c: byte, w: text)
    ensures Steps(g, NameQuote(list), c, w) && Steps(g, Name(list), c, w)
  {
    var after := if list then ListNextRest(GapRest(g, 1)) else GapRest(g, 1);
    AlphaFirst(NameRest(after), c, w);
    NameFirst(after, c, w);
  }

  lemma NamesSteps(g: Words, c: byte, w: text)
    ensures Steps(g, NameStart, c, w)
  {
    NamesFirst(GapRest(g, 1), c, w);
  }

  lemma ListStartSteps(g: Words, c: byte, w: text)
    ensures Steps(g, ListStart, c, w)
  {
    ListFirst(GapRest(g, 1), c, w);
  }

  lemma ListSteps(g: Words, c: byte, w: text)
    ensures Steps(g, ListGap, c, w) && Steps(g, ListNext, c, w)
  {
    ItemFirst(ListNextRest(GapRest(g, 1)), c, w);
    ListNextFirst(GapRest(g, 1), c, w);
  }

  lemma SyntaxSteps(g: Words, c: byte, w: text)
    ensures Steps(g, SyntaxStart, c, w)
  {
    SyntaxFirst(g.octetString, GapRest(g, 2), c, w);
  }

  /** The transition from a place leads to the residual of what its residual can still be. */
  lemma EveryStep(g: Words, p: Place, c: byte, w: text)
    requires Standard(g) && Placed(p)
    ensures Steps(g, p, c, w)
  {
    match p
    case Label(n) => LabelSteps(g, n, c, w);
    case BeforeOpen => BeforeOpenSteps(g, c, w);
    case BeforeOid => BeforeOidSteps(g, c, w);
    case Oid(d, dotted) => OidSteps(g, d, dotted, c, w);
    case Gap(next) => GapSteps(g, next, c, w);
    case Word(next, typed) => WordSteps(g, next, typed, c, w);
    case FlagRead(clause) => GapSteps(g, clause + 1, c, w);
    case SyntaxQuote => SyntaxQuoteSteps(g, c, w);
    case SyntaxOid(d, dotted) => SyntaxOidSteps(g, d, dotted, c, w);
    case SyntaxOctets(n) => OctetsSteps(g, n, c, w);
    case SyntaxStart => SyntaxSteps(g, c, w);
    case NameStart => NamesSteps(g, c, w);
    case ListStart => ListStartSteps(g, c, w);
    case ListGap | ListNext => ListSteps(g, c, w);
    case NameQuote(list) => NameSteps(g, list, c, w);
    case Name(list) => NameSteps(g, list, c, w);
    case Closed =>
  }

  lemma PlacedStays(p: Place, c: byte)
    requires Placed(p) && Move(p, c).Some?
    ensures Placed(Move(p, c).value.0)
  {
    match p
    case Word(next, typed) => WordPlaced(next, typed + [Upper(c)]);
    case Gap(next) => WordPlaced(next, [Upper(c)]);
    case FlagRead(clause) => WordPlaced(clause + 1, [Upper(c)]);
    case Oid(_, _) => WordPlaced(0, [Upper(c)]);
    case _ =>
  }

  lemma WordPlaced(next: nat, typed: text)
    ensures Starts(next, typed) ==> Placed(AfterKeyword(next, typed))
  {
  }

  /* ---- Residuals are never used up before the end, and never without a word ---- */

  lemma BehindIsNotEmpty(front: Regex, r: Regex, rest: Regex)
    requires r.Range?
    ensures !Nullable(Cat(r, rest)) && !Nullable(Cat(front, Cat(r, rest)))
  {
  }

  lemma {:induction false} TailIsNotEmpty(g: Words, next: nat)
    requires forall clause | 0 <= clause < 4 :: KeywordOf(g, clause) != []
    ensures !Nullable(Tail(g, next)) && !Nullable(GapRest(g, next))
    decreases 4 - next
  {
    if next < 4 {
      TailIsNotEmpty(g, next + 1);
      SpelledIsNotEmpty(KeywordOf(g, next), 0, Follower(g, next));
      assert KeywordOf(g, next)[0..] == KeywordOf(g, next);
    } else {
      BehindIsNotEmpty(WHSP, Byte(CLOSE), Empty);
    }
  }

  lemma OidIsNotEmpty(d: Digits, dotted: bool, rest: Regex)
    requires !Nullable(rest)
    ensures !Nullable(OidRest(d, dotted, rest))
  {
    BehindIsNotEmpty(R.DOT, R.DOT, Join(R.NUMBER, Cat(Star(DOTTED), rest)));
    JoinNullable(R.NUMBER, MoreNumbers(dotted, rest));
  }

  lemma NamesAreNotEmpty(after: Regex)
    ensures !Nullable(NameRest(after)) && !Nullable(QuotedRest(after)) && !Nullable(ItemRest(after)) && !Nullable(NamesRest(after))
    ensures !Nullable(ListNextRest(after)) && !Nullable(ListRest(after))
  {
    BehindIsNotEmpty(Star(R.KEYCHAR), SQUOTE, after);
    JoinNullable(R.ALPHA, NameRest(after));
    BehindIsNotEmpty(WHSP, SQUOTE, QuotedRest(after));
    BehindIsNotEmpty(WHSP, Byte(OPEN), ListRest(after));
    BehindIsNotEmpty(Star(QDESCR), Byte(CLOSE), after);
    BehindIsNotEmpty(WHSP, SQUOTE, QuotedRest(ListNextRest(after)));
  }

  lemma SyntaxIsNotEmpty(octetString: text, n: nat, after: Regex)
    requires n <= |octetString|
    ensures !Nullable(SyntaxOidRest(octetString, after)) && !Nullable(SyntaxRest(octetString, after))
    ensures !Nullable(Spelled(octetString[n..], Cat(SQUOTE, after)))
  {
    BehindIsNotEmpty(WHSP, SQUOTE, SyntaxOidRest(octetString, after));
    BehindIsNotEmpty(WHSP, SQUOTE, after);
    OidIsNotEmpty(Due, false, Cat(SQUOTE, after));
    SpelledIsNotEmpty(octetString, 0, Cat(SQUOTE, after));
    assert octetString[0..] == octetString;
    SpelledIsNotEmpty(octetString, n, Cat(SQUOTE, after));
  }

  lemma LabelIsNotEmpty(g: Words, n: nat)
    ensures !Nullable(Rest(g, Label(n))) && !Nullable(Rest(g, BeforeOpen))
  {
    var opening := Cat(WHSP, Cat(Byte(OPEN), OpenedRest(g)));
    BehindIsNotEmpty(WHSP, Byte(OPEN), OpenedRest(g));
    BehindIsNotEmpty(WHSP, Byte(COLON), opening);
    SpelledIsNotEmpty(g.attributeTypes, if n <= |g.attributeTypes| then n else |g.attributeTypes|, Cat(Byte(COLON), opening));
  }

  lemma NamesPlaceIsNotEmpty(g: Words, p: Place)
    requires p.NameStart? || p.ListStart? || p.ListNext? || p.ListGap? || p.NameQuote? || p.Name?
    ensures !Nullable(Rest(g, p))
  {
    NamesAreNotEmpty(GapRest(g, 1));
    NamesAreNotEmpty(ListNextRest(GapRest(g, 1)));
  }

  lemma SyntaxPlaceIsNotEmpty(g: Words, p: Place)
    requires p.SyntaxStart? || p.SyntaxQuote? || p.SyntaxOid? || p.SyntaxOctets?
    ensures !Nullable(Rest(g, p))
  {
    var after := Cat(SQUOTE, GapRest(g, 2));
    SyntaxIsNotEmpty(g.octetString, if p.SyntaxOctets? && p.n <= |g.octetString| then p.n else |g.octetString|, GapRest(g, 2));
    BehindIsNotEmpty(WHSP, SQUOTE, GapRest(g, 2));
    if p.SyntaxOid? { OidIsNotEmpty(p.digits, p.dotted, after); }
  }

  lemma GapPlaceIsNotEmpty(g: Words, p: Place)
    requires p.Gap? || p.FlagRead? || p.BeforeOid? || p.Oid?
    requires forall clause | 0 <= clause < 4 :: KeywordOf(g, clause) != []
    ensures !Nullable(Rest(g, p))
  {
    match p
    case Gap(next) => TailIsNotEmpty(g, next);
    case FlagRead(clause) => TailIsNotEmpty(g, clause + 1);
    case BeforeOid => TailIsNotEmpty(g, 0); OidIsNotEmpty(Due, false, GapRest(g, 0));
    case Oid(d, dotted) => TailIsNotEmpty(g, 0); OidIsNotEmpty(d, dotted, GapRest(g, 0));
  }

  lemma HasKeywords(g: Words)
    requires Standard(g)
    ensures forall clause | 0 <= clause < 4 :: KeywordOf(g, clause) != []
    ensures forall clause | 0 <= clause < 4 :: Keywords(g)[clause] == Keyword(clause)
  {
    forall clause | 0 <= clause < 4 ensures KeywordOf(g, clause) != [] { assert Keywords(g)[clause] != []; }
  }

  /** Only at the end is nothing left to read. */
  lemma RestIsNotEmpty(g: Words, p: Place)
    requires Standard(g) && Placed(p) && p != Closed
    ensures !Nullable(Rest(g, p))
  {
    HasKeywords(g);
    match p
    case Label(n) => LabelIsNotEmpty(g, n);
    case BeforeOpen => LabelIsNotEmpty(g, 0);
    case BeforeOid | Gap(_) | FlagRead(_) | Oid(_, _) => GapPlaceIsNotEmpty(g, p);
    case Word(next, typed) => ChoiceIsNotEmpty(Keywords(g), Followers(g), next, typed);
    case NameStart | ListStart | ListGap | ListNext | NameQuote(_) | Name(_) => NamesPlaceIsNotEmpty(g, p);
    case SyntaxStart | SyntaxQuote | SyntaxOid(_, _) | SyntaxOctets(_) => SyntaxPlaceIsNotEmpty(g, p);
  }

  lemma {:induction false} TailLives(g: Words, next: nat)
    ensures !IsError(Tail(g, next)) && !IsError(GapRest(g, next))
    decreases 4 - next
  {
    if next < 4 { TailLives(g, next + 1); }
  }

  lemma OidLives(d: Digits, dotted: bool, rest: Regex)
    requires !IsError(rest)
    ensures !IsError(OidRest(d, dotted, rest))
  {
    var more := Cat(Star(DOTTED), rest);
    StarLives(DOTTED, rest);
    NumberLives();
    JoinLives(R.NUMBER, more);
    ByteLives(DOT, Join(R.NUMBER, more));
    StarLives(R.DIGIT, MoreNumbers(dotted, rest));
    JoinLives(R.NUMBER, MoreNumbers(dotted, rest));
  }

  lemma NumberLives()
    ensures !IsError(R.NUMBER) && !IsError(R.ALPHA)
  {
    assert !IsError(R.LDIGIT) && !IsError(R.DIGIT);
  }

  lemma ItemLives(after: Regex)
    requires !IsError(after)
    ensures !IsError(NameRest(after)) && !IsError(QuotedRest(after)) && !IsError(ItemRest(after))
  {
    ByteLives(QUOTE, after);
    NumberLives();
    JoinLives(R.ALPHA, NameRest(after));
    ByteLives(QUOTE, QuotedRest(after));
  }

  lemma NamesLive(after: Regex)
    requires !IsError(after)
    ensures !IsError(NamesRest(after)) && !IsError(ListNextRest(after)) && !IsError(ListRest(after))
  {
    ItemLives(after);
    ByteLives(CLOSE, after);
    StarLives(QDESCR, Cat(Byte(CLOSE), after));
    StarLives(Byte(SPACE), Cat(Star(QDESCR), Cat(Byte(CLOSE), after)));
    ItemLives(ListNextRest(after));
    ByteLives(OPEN, ListRest(after));
    StarLives(Byte(SPACE), Cat(Byte(OPEN), ListRest(after)));
  }

  lemma SyntaxLives(octetString: text, after: Regex)
    requires !IsError(after)
    ensures !IsError(SyntaxOidRest(octetString, after)) && !IsError(SyntaxRest(octetString, after))
  {
    ByteLives(QUOTE, after);
    SpelledLives(octetString, Cat(SQUOTE, after));
    ByteLives(QUOTE, SyntaxOidRest(octetString, after));
  }

  lemma FollowerLives(g: Words, clause: nat)
    requires clause < 4
    ensures !IsError(Follower(g, clause))
  {
    TailLives(g, clause + 1);
    NamesLive(GapRest(g, clause + 1));
    SyntaxLives(g.octetString, GapRest(g, clause + 1));
  }

  lemma WordLives(g: Words, words: seq<text>, followers: seq<Regex>, next: nat, typed: text, clause: nat)
    requires |words| == |followers| == 4 && next <= clause < 4 && typed <= words[clause]
    requires followers[clause] == Follower(g, clause)
    ensures !IsError(Choice(words, followers, next, typed))
  {
    FollowerLives(g, clause);
    ChoiceLives(words, followers, next, typed, clause);
  }

  lemma WordPlaceLives(g: Words, words: seq<text>, followers: seq<Regex>, next: nat, typed: text)
    requires Starts(next, typed) && |words| == 4 && followers == Followers(g)
    requires forall clause | 0 <= clause < 4 :: words[clause] == Keyword(clause)
    ensures !IsError(Choice(words, followers, next, typed))
  {
    var clause :| next <= clause < 4 && typed <= Keyword(clause);
    WordLives(g, words, followers, next, typed, clause);
  }

  lemma OpeningLives(g: Words)
    ensures !IsError(OpenedRest(g)) && !IsError(Rest(g, BeforeOpen)) && !IsError(Cat(Byte(COLON), Rest(g, BeforeOpen)))
  {
    TailLives(g, 0);
    OidLives(Due, false, GapRest(g, 0));
    assert !IsError(Cat(Byte(OPEN), OpenedRest(g)));
  }

  lemma LabelLives(g: Words, n: nat)
    requires n <= |g.attributeTypes|
    ensures !IsError(Rest(g, Label(n)))
  {
    OpeningLives(g);
    SpelledLives(g.attributeTypes[n..], Cat(Byte(COLON), Rest(g, BeforeOpen)));
  }

  lemma NamesPlaceLives(g: Words, p: Place)
    requires p.NameStart? || p.ListStart? || p.ListNext? || p.ListGap? || p.NameQuote? || p.Name?
    ensures !IsError(Rest(g, p))
  {
    var after := GapRest(g, 1);
    TailLives(g, 1);
    NamesLive(after);
    match p
    case NameStart | ListStart | ListNext =>
    case ListGap => ItemLives(ListNextRest(after));
    case NameQuote(list) => ItemLives(if list then ListNextRest(after) else after);
    case Name(list) => ItemLives(if list then ListNextRest(after) else after);
  }

  lemma SyntaxPlaceLives(g: Words, p: Place)
    requires p.SyntaxStart? || p.SyntaxQuote? || p.SyntaxOid? || p.SyntaxOctets?
    ensures !IsError(Rest(g, p))
  {
    TailLives(g, 2);
    match p
    case SyntaxStart => SyntaxLives(g.octetString, GapRest(g, 2));
    case SyntaxQuote => SyntaxLives(g.octetString, GapRest(g, 2));
    case SyntaxOid(d, dotted) => ByteLives(QUOTE, GapRest(g, 2)); OidLives(d, dotted, Cat(SQUOTE, GapRest(g, 2)));
    case SyntaxOctets(n) =>
      ByteLives(QUOTE, GapRest(g, 2));
      SpelledLives(g.octetString[if n <= |g.octetString| then n else |g.octetString|..], Cat(SQUOTE, GapRest(g, 2)));
  }

  lemma GapPlaceLives(g: Words, p: Place)
    requires p.Gap? || p.FlagRead? || p.BeforeOpen? || p.BeforeOid? || p.Oid?
    ensures !IsError(Rest(g, p))
  {
    match p
    case Gap(next) => TailLives(g, next);
    case FlagRead(clause) => TailLives(g, clause + 1);
    case BeforeOpen | BeforeOid => OpeningLives(g);
    case Oid(d, dotted) => TailLives(g, 0); OidLives(d, dotted, GapRest(g, 0));
  }

  /** From every place some text leads to the end. */
  lemma RestLives(g: Words, p: Place)
    requires Standard(g) && Placed(p)
    ensures !IsError(Rest(g, p))
  {
    HasKeywords(g);
    match p
    case Label(n) => LabelLives(g, n);
    case BeforeOpen | BeforeOid | Gap(_) | FlagRead(_) | Oid(_, _) => GapPlaceLives(g, p);
    case Word(next, typed) => WordPlaceLives(g, Keywords(g), Followers(g), next, typed);
    case NameStart | ListStart | ListGap | ListNext | NameQuote(_) | Name(_) => NamesPlaceLives(g, p);
    case SyntaxStart | SyntaxQuote | SyntaxOid(_, _) | SyntaxOctets(_) => SyntaxPlaceLives(g, p);
    case Closed =>
  }

  /* ---- The whole grammar is the residual of the start ---- */

  lemma NumericOidJoined(dot: Regex, number: Regex, rest: Regex)
    requires dot.Range?
    ensures Join(R.NumericOid(number), rest)
         == Join(number, Join(Cat(R.DOT, number), Cat(Star(Cat(R.DOT, number)), rest)))
  {
    var dotted := Cat(R.DOT, number);
    assert Join(Star(dotted), rest) == Cat(Star(dotted), rest);
    assert Join(Plus(dotted), rest) == Join(dotted, Cat(Star(dotted), rest));
  }

  lemma OidJoined(rest: Regex)
    ensures Join(NUMERIC_OID, rest) == OidRest(Due, false, rest)
  {
    NumericOidJoined(R.DOT, R.NUMBER, rest);
    DottedJoined(R.DOT, R.NUMBER, Cat(Star(DOTTED), rest));
  }

  lemma NamesJoined(rest: Regex)
    ensures Join(QDESCRS, rest) == NamesRest(Cat(WHSP, rest))
  {
    var after := Cat(WHSP, rest);
    var close := Cat(Byte(CLOSE), after);
    QdescrJoined(SQUOTE, R.ALPHA, Star(R.KEYCHAR), WHSP, rest);
    QdescrJoined(SQUOTE, R.ALPHA, Star(R.KEYCHAR), WHSP, Cat(Star(QDESCR), close));
    ListJoined(QDESCR, close);
    QdescrsJoined(QDESCR, QDESCR_LIST, Byte(OPEN), Byte(CLOSE), WHSP, rest);
  }

  lemma ListJoined(item: Regex, rest: Regex)
    ensures Join(Opt(Cat(item, Star(item))), rest) == Alt(Join(item, Cat(Star(item), rest)), rest)
  {
    assert Join(Cat(item, Star(item)), rest) == Join(item, Join(Star(item), rest));
  }

  lemma QdescrsJoined(item: Regex, list: Regex, open: Regex, close: Regex, space: Regex, rest: Regex)
    requires open.Range? && close.Range? && space.Star?
    ensures Join(Alt(item, Cat(space, Cat(open, Cat(list, Cat(close, space))))), rest)
         == Alt(Join(item, rest), Cat(space, Cat(open, Join(list, Cat(close, Cat(space, rest))))))
  {
    assert Join(Cat(close, space), rest) == Cat(close, Cat(space, rest));
    assert Join(Cat(list, Cat(close, space)), rest) == Join(list, Cat(close, Cat(space, rest)));
    var parens := Cat(open, Cat(list, Cat(close, space)));
    assert Join(parens, rest) == Cat(open, Join(list, Cat(close, Cat(space, rest))));
    assert Join(Cat(space, parens), rest) == Cat(space, Join(parens, rest));
  }

  lemma SyntaxOidJoined(quote: Regex, oid: Regex, literal: Regex, space: Regex, rest: Regex)
    requires quote.Range? && space.Star?
    ensures var after := Cat(quote, Cat(space, rest));
      Join(Cat(space, Cat(Cat(quote, Cat(Alt(oid, literal), quote)), space)), rest)
        == Cat(space, Cat(quote, Alt(Join(oid, after), Join(literal, after))))
  {
    var after := Cat(space, rest);
    assert Join(space, rest) == after && Join(quote, after) == Cat(quote, after);
    assert Join(Cat(Alt(oid, literal), quote), after) == Join(Alt(oid, literal), Cat(quote, after));
    assert Join(Cat(quote, Cat(Alt(oid, literal), quote)), after) == Cat(quote, Join(Alt(oid, literal), Cat(quote, after)));
    assert Join(Cat(Cat(quote, Cat(Alt(oid, literal), quote)), space), rest)
        == Join(Cat(quote, Cat(Alt(oid, literal), quote)), after);
  }

  lemma SyntaxJoined(g: Words, rest: Regex)
    ensures Join(Cat(WHSP, Cat(SyntaxOidRule(g), WHSP)), rest) == SyntaxRest(g.octetString, Cat(WHSP, rest))
  {
    var after := Cat(SQUOTE, Cat(WHSP, rest));
    SyntaxOidJoined(SQUOTE, NUMERIC_OID, Literal(g.octetString), WHSP, rest);
    OidJoined(after);
    JoinLiteral(g.octetString, after);
  }

  lemma ClauseJoined(word: text, body: Regex, more: Regex, rest: Regex)
    ensures Join(Cat(Opt(Cat(Literal(word), body)), more), rest)
         == Alt(Spelled(word, Join(body, Join(more, rest))), Join(more, rest))
  {
    var tail := Join(more, rest);
    JoinLiteral(word, Join(body, tail));
    assert Join(Cat(Literal(word), body), tail) == Join(Literal(word), Join(body, tail));
    assert Join(Opt(Cat(Literal(word), body)), tail) == Alt(Join(Cat(Literal(word), body), tail), tail);
  }

  lemma ClausesJoined(g: Words)
    ensures Join(Clauses(g), Empty) == Tail(g, 0)
  {
    var r4 := Cat(WHSP, Byte(CLOSE));
    var r3 := Cat(Opt(FlagClause(g.noUserModification)), r4);
    var r2 := Cat(Opt(FlagClause(g.singleValue)), r3);
    var r1 := Cat(Opt(SyntaxClause(g)), r2);
    assert Join(r4, Empty) == Tail(g, 4);
    ClauseJoined(g.noUserModification, WHSP, r4, Empty);
    assert Join(r3, Empty) == Tail(g, 3);
    ClauseJoined(g.singleValue, WHSP, r3, Empty);
    assert Join(r2, Empty) == Tail(g, 2);
    ClauseJoined(g.syntax, Cat(WHSP, Cat(SyntaxOidRule(g), WHSP)), r2, Empty);
    SyntaxJoined(g, Tail(g, 2));
    assert Join(r1, Empty) == Tail(g, 1);
    ClauseJoined(g.name, QDESCRS, r1, Empty);
    NamesJoined(Tail(g, 1));
  }

  lemma StartIsGrammar(g: Words)
    ensures Same(Labelled(g), Rest(g, Label(0)))
  {
    JoinSame(Labelled(g), Empty);
    NothingAdded(Labelled(g));
    DescriptionJoined(g);
    LabelledJoined(g.attributeTypes, Byte(COLON), WHSP, Description(g));
    assert g.attributeTypes[0..] == g.attributeTypes;
  }

  lemma DescriptionJoined(g: Words)
    ensures Join(Description(g), Empty) == Cat(Byte(OPEN), OpenedRest(g))
  {
    ClausesJoined(g);
    OidJoined(GapRest(g, 0));
    PartsJoined(Byte(OPEN), WHSP, NUMERIC_OID, Clauses(g), Empty);
  }

  lemma PartsJoined(open: Regex, space: Regex, oid: Regex, clauses: Regex, rest: Regex)
    requires open.Range? && space.Star?
    ensures Join(Cat(open, Cat(space, Cat(oid, Cat(space, clauses)))), rest)
         == Cat(open, Cat(space, Join(oid, Cat(space, Join(clauses, rest)))))
  {
    assert Join(Cat(space, clauses), rest) == Cat(space, Join(clauses, rest));
    assert Join(Cat(oid, Cat(space, clauses)), rest) == Join(oid, Cat(space, Join(clauses, rest)));
    assert Join(Cat(space, Cat(oid, Cat(space, clauses))), rest) == Cat(space, Join(oid, Cat(space, Join(clauses, rest))));
  }

  lemma LabelledJoined(word: text, colon: Regex, space: Regex, description: Regex)
    requires colon.Range? && space.Star?
    ensures var rest := Join(description, Empty);
      Join(Cat(Opt(Cat(Literal(word), Cat(colon, space))), description), Empty)
        == Alt(Spelled(word, Cat(colon, Cat(space, rest))), rest)
  {
    var rest := Join(description, Empty);
    JoinLiteral(word, Cat(colon, Cat(space, rest)));
    assert Join(Cat(colon, space), rest) == Cat(colon, Cat(space, rest));
    assert Join(Cat(Literal(word), Cat(colon, space)), rest) == Join(Literal(word), Cat(colon, Cat(space, rest)));
    assert Join(Opt(Cat(Literal(word), Cat(colon, space))), rest) == Alt(Join(Cat(Literal(word), Cat(colon, space)), rest), rest);
  }

  /* ---- What the parser accepts ---- */

  lemma KeywordsAreUnambiguous(words: seq<text>)
    requires words == [NAME, SYNTAX, SINGLE_VALUE, NO_USER_MODIFICATION]
    ensures Unambiguous(words)
  {
    assert Capitals(NAME) && Capitals(SYNTAX) && Capitals(SINGLE_VALUE) && Capitals(NO_USER_MODIFICATION);
    forall i, j | 0 <= i < 4 && 0 <= j < 4 && words[i] <= words[j] ensures i == j {
      assert words[i][0] == words[j][0] && words[i][1] == words[j][1];
    }
  }

  lemma ParserWords() returns (g: Words)
    ensures Standard(g) && Labelled(g) == GRAMMAR
  {
    g := WORDS;
    KeywordsAreUnambiguous(Keywords(WORDS));
    assert Capitals(LABEL) && Capitals(OCTET_STRING);
  }

  /** Having read some text the scanner is at the place whose residual is what may still come. */
  lemma {:induction false} ReadLeavesRest(g: Words, input: text, w: text)
    requires Standard(g)
    ensures var s := ReadAll(INITIAL, input);
      && (s.At? ==> Placed(s.place))
      && (Matches(Labelled(g), input + w) <==> s.At? && Matches(Rest(g, s.place), w))
    decreases |input|
  {
    if input == [] {
      StartIsGrammar(g);
      assert input + w == w;
    } else {
      var front, c := input[..|input| - 1], input[|input| - 1];
      ReadLeavesRest(g, front, [c] + w);
      assert front + ([c] + w) == input + w;
      var s := ReadAll(INITIAL, front);
      if s.At? {
        EveryStep(g, s.place, c, w);
        if Move(s.place, c).Some? { PlacedStays(s.place, c); }
      }
    }
  }

  lemma ReadIffViable(g: Words, input: text)
    requires Standard(g)
    ensures ReadAll(INITIAL, input).At? <==> Viable(Labelled(g), input)
    ensures ReadAll(INITIAL, input).At? <==> Accepts(Labelled(g), input)
  {
    AcceptsIffViable(Labelled(g), input);
    var s := ReadAll(INITIAL, input);
    if s.At? {
      ReadLeavesRest(g, input, []);
      RestLives(g, s.place);
      var w := SomeWord(Rest(g, s.place));
      ReadLeavesRest(g, input, w);
    }
    if w :| Matches(Labelled(g), input + w) {
      ReadLeavesRest(g, input, w);
    }
  }

  lemma ClosedIffMatches(g: Words, input: text)
    requires Standard(g)
    ensures Matches(Labelled(g), input) <==> var s := ReadAll(INITIAL, input); s.At? && s.place == Closed
  {
    var s := ReadAll(INITIAL, input);
    ReadLeavesRest(g, input, []);
    assert input + [] == input;
    if s.At? {
      NullableIff(Rest(g, s.place));
      if s.place != Closed { RestIsNotEmpty(g, s.place); }
    }
  }

  /** The parser returns a structure exactly for the beginnings of the words of the grammar. */
  lemma ParsedIffViable(input: text)
    ensures Parsed(input).Some? <==> Viable(GRAMMAR, input)
  {
    var g := ParserWords();
    ReadIffViable(g, input);
  }

  /** So it does what a scanner compiled from the grammar decides by `cs != ..._error`. */
  lemma ParsedIffAccepted(input: text)
    ensures Parsed(input).Some? <==> Accepts(GRAMMAR, input)
  {
    var g := ParserWords();
    ReadIffViable(g, input);
  }

  /** The text is a whole description exactly when its closing parenthesis has just been read. */
  lemma CompleteIffClosed(input: text)
    ensures Matches(GRAMMAR, input) <==> var s := ReadAll(INITIAL, input); s.At? && s.place == Closed
  {
    var g := ParserWords();
    ClosedIffMatches(g, input);
  }
}
