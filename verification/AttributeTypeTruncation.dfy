/** What the parser returns for a description that has been cut short. */
module AttributeTypeTruncation {
  import opened Prelude
  import opened Regex
  import opened AttributeTypeParser

  /** Every field of `f` is unset or as in `g`, and its names are the first names of `g`. */
  predicate InitialPart(f: Fields, g: Fields) {
    && (f.oid == None || f.oid == g.oid) && f.names <= g.names && (f.syntaxOid == None || f.syntaxOid == g.syntaxOid)
    && (f.singleValue ==> g.singleValue) && (f.noUserModification ==> g.noUserModification)
  }

  predicate BeforeOidEnd(p: Place) { p.Label? || p == BeforeOpen || p == BeforeOid || p.Oid? }

  /** Once the syntax clause is read no earlier clause can follow. */
  predicate AfterSyntax(p: Place) {
    p == Closed || (p.Gap? && p.next >= 2) || (p.Word? && p.next >= 2) || (p.FlagRead? && p.clause >= 2)
  }

  /** A field already set is not going to be set again. */
  predicate SetOnce(s: Scanner) {
    s.At? ==> (BeforeOidEnd(s.place) ==> s.fields.oid == None) && (!AfterSyntax(s.place) ==> s.fields.syntaxOid == None)
  }

  lemma KeywordsAfter(next: nat, typed: text)
    requires Starts(next, typed) && next >= 2
    ensures AfterSyntax(AfterKeyword(next, typed))
  {
    var clause :| next <= clause < 4 && typed <= Keyword(clause);
    if typed != [] && |typed| > 1 { assert typed[1] == Keyword(clause)[1]; }
  }

  lemma MoveWordKeeps(next: nat, typed: text)
    ensures MoveWord(next, typed).Some? ==>
      !BeforeOidEnd(MoveWord(next, typed).value) && (next >= 2 ==> AfterSyntax(MoveWord(next, typed).value))
  {
    if Starts(next, typed) && next >= 2 { KeywordsAfter(next, typed); }
  }

  lemma MoveGapKeeps(next: nat, c: byte)
    ensures MoveGap(next, c).Some? ==>
      !BeforeOidEnd(MoveGap(next, c).value) && (next >= 2 ==> AfterSyntax(MoveGap(next, c).value))
  {
    MoveWordKeeps(next, [Upper(c)]);
  }

  /** Which places the actions lead from and to. */
  lemma MoveKeeps(p: Place, c: byte)
    requires Move(p, c).Some?
    ensures var (q, action) := Move(p, c).value;
      && (BeforeOidEnd(q) ==> BeforeOidEnd(p)) && (AfterSyntax(p) ==> AfterSyntax(q))
      && (action == OidEnd ==> BeforeOidEnd(p) && !BeforeOidEnd(q))
      && (action == SyntaxEnd ==> !AfterSyntax(p) && AfterSyntax(q))
  {
    match p
    case Oid(_, _) => MoveGapKeeps(0, c);
    case Gap(next) => MoveGapKeeps(next, c);
    case FlagRead(clause) => MoveGapKeeps(clause + 1, c);
    case Word(next, typed) => MoveWordKeeps(next, typed + [Upper(c)]);
    case _ =>
  }

  lemma TakeKeeps(s: Scanner, move: Option<(Place, Action)>, c: byte)
    requires s.At? && SetOnce(s)
    requires move.Some? ==>
      var (q, action) := move.value;
      && (BeforeOidEnd(q) ==> BeforeOidEnd(s.place)) && (AfterSyntax(s.place) ==> AfterSyntax(q))
      && (action == OidEnd ==> BeforeOidEnd(s.place) && !BeforeOidEnd(q))
      && (action == SyntaxEnd ==> !AfterSyntax(s.place) && AfterSyntax(q))
    ensures SetOnce(Take(s, move, c)) && (Take(s, move, c).At? ==> InitialPart(s.fields, Take(s, move, c).fields))
  {
  }

  lemma InitialPartTransitive(f: Fields, g: Fields, h: Fields)
    requires InitialPart(f, g) && InitialPart(g, h)
    ensures InitialPart(f, h)
  {
  }

  lemma {:induction false} ReadKeeps(input: text)
    ensures SetOnce(ReadAll(INITIAL, input))
    ensures input != [] && ReadAll(INITIAL, input).At? ==>
      var s := ReadAll(INITIAL, input[..|input| - 1]);
      s.At? && InitialPart(s.fields, ReadAll(INITIAL, input).fields)
    decreases |input|
  {
    if input != [] {
      var s := ReadAll(INITIAL, input[..|input| - 1]);
      var c := input[|input| - 1];
      ReadKeeps(input[..|input| - 1]);
      if s.At? {
        if Move(s.place, c).Some? { MoveKeeps(s.place, c); }
        TakeKeeps(s, Move(s.place, c), c);
      }
    }
  }

  /** Any beginning of an accepted text is accepted, and gives an initial part of its fields. */
  lemma {:induction false} TruncatedIsInitialPart(input: text, n: nat)
    requires n <= |input| && Parsed(input).Some?
    ensures Parsed(input[..n]).Some? && InitialPart(Parsed(input[..n]).value, Parsed(input).value)
    decreases |input|
  {
    if n == |input| {
      assert input[..n] == input;
    } else {
      var front := input[..|input| - 1];
      ReadKeeps(input);
      TruncatedIsInitialPart(front, n);
      assert front[..n] == input[..n];
      InitialPartTransitive(Parsed(input[..n]).value, Parsed(front).value, Parsed(input).value);
    }
  }
}
