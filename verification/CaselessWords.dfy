/** Literals that ignore case, and choices between several of them. */
module CaselessWords {
  import opened Regex
  import opened RegexJoin
  import opened AttributeTypeParser

  /** A character of a literal that ignores case. */
  function Letter(c: byte): Regex {
    if 0x41 <= c <= 0x5a then Alt(Byte(c), Byte(c + 0x20)) else Byte(c)
  }

  /** A literal that ignores case, given in upper case. */
  function Literal(word: text): Regex {
    if word == [] then Empty else Cat(Letter(word[0]), Literal(word[1..]))
  }

  predicate IsCapital(c: byte) { 0x41 <= c <= 0x5a || c == HYPHEN_SIGN }

  lemma LetterFirst(l: byte, rest: Regex, c: byte, w: text)
    requires IsCapital(l)
    ensures Matches(Join(Letter(l), rest), [c] + w) <==> Upper(c) == l && Matches(rest, w)
  {
    RangeFirst(l, l, rest, c, w);
    if l != HYPHEN_SIGN { RangeFirst(l + 0x20, l + 0x20, rest, c, w); }
  }

  /** The rest of a literal, and then what follows it. */
  function Spelled(word: text, rest: Regex): Regex {
    if word == [] then rest else Join(Letter(word[0]), Spelled(word[1..], rest))
  }

  lemma {:induction false} JoinLiteral(word: text, rest: Regex)
    ensures Join(Literal(word), rest) == Spelled(word, rest)
    decreases |word|
  {
    if word != [] { JoinLiteral(word[1..], rest); }
  }

  lemma SpelledFirst(word: text, rest: Regex, c: byte, w: text)
    requires word != [] && IsCapital(word[0])
    ensures Matches(Spelled(word, rest), [c] + w) <==> Upper(c) == word[0] && Matches(Spelled(word[1..], rest), w)
  {
    LetterFirst(word[0], Spelled(word[1..], rest), c, w);
  }

  lemma {:induction false} SpelledLives(word: text, rest: Regex)
    requires !IsError(rest)
    ensures !IsError(Spelled(word, rest))
    decreases |word|
  {
    if word != [] {
      SpelledLives(word[1..], rest);
      assert !IsError(Letter(word[0]));
      JoinLives(Letter(word[0]), Spelled(word[1..], rest));
    }
  }

  /* ---- A choice between literals, each with what follows it ---- */

  function Begun(word: text, follower: Regex, typed: text): Regex {
    if typed <= word then Spelled(word[|typed|..], follower) else Never
  }

  /** One of the words from `next` on, of which `typed` has been read. */
  function Choice(words: seq<text>, followers: seq<Regex>, next: nat, typed: text): Regex
    requires |followers| == |words|
    decreases |words| - next
  {
    if next >= |words| then Never
    else Alt(Begun(words[next], followers[next], typed), Choice(words, followers, next + 1, typed))
  }

  predicate Capitals(word: text) { forall i | 0 <= i < |word| :: IsCapital(word[i]) }

  lemma OneLetterMore(word: text, typed: text, u: byte)
    requires typed != word
    ensures typed + [u] <= word <==> typed <= word && word[|typed|] == u
  {
    if typed + [u] <= word {
      assert word[|typed|] == (typed + [u])[|typed|];
      assert typed == (typed + [u])[..|typed|] <= word;
    }
  }

  lemma BegunFirst(word: text, follower: Regex, typed: text, c: byte, w: text)
    requires typed != word && Capitals(word)
    ensures Matches(Begun(word, follower, typed), [c] + w) <==> Matches(Begun(word, follower, typed + [Upper(c)]), w)
  {
    OneLetterMore(word, typed, Upper(c));
    if typed <= word {
      var left := word[|typed|..];
      assert left[0] == word[|typed|] && left[1..] == word[|typed| + 1..];
      SpelledFirst(left, follower, c, w);
    }
  }

  lemma {:induction false} ChoiceFirst(words: seq<text>, followers: seq<Regex>, next: nat, typed: text, c: byte, w: text)
    requires |followers| == |words| && typed !in words && forall word | word in words :: Capitals(word)
    ensures Matches(Choice(words, followers, next, typed), [c] + w)
       <==> Matches(Choice(words, followers, next, typed + [Upper(c)]), w)
    decreases |words| - next
  {
    if next < |words| {
      ChoiceFirst(words, followers, next + 1, typed, c, w);
      BegunFirst(words[next], followers[next], typed, c, w);
    }
  }

  lemma {:induction false} NoChoice(words: seq<text>, followers: seq<Regex>, next: nat, typed: text, w: text)
    requires |followers| == |words| && forall i | next <= i < |words| :: !(typed <= words[i])
    ensures !Matches(Choice(words, followers, next, typed), w)
    decreases |words| - next
  {
    if next < |words| { NoChoice(words, followers, next + 1, typed, w); }
  }

  lemma {:induction false} ChoiceMade(words: seq<text>, followers: seq<Regex>, next: nat, k: nat, w: text)
    requires |followers| == |words| && k < |words|
    requires forall i | 0 <= i < |words| :: words[k] <= words[i] ==> i == k
    ensures Matches(Choice(words, followers, next, words[k]), w) <==> next <= k && Matches(followers[k], w)
    decreases |words| - next
  {
    if next < |words| {
      ChoiceMade(words, followers, next + 1, k, w);
      assert words[k][|words[k]|..] == [];
    }
  }

  lemma {:induction false} ChoiceLives(words: seq<text>, followers: seq<Regex>, next: nat, typed: text, k: nat)
    requires |followers| == |words| && next <= k < |words| && typed <= words[k] && !IsError(followers[k])
    ensures !IsError(Choice(words, followers, next, typed))
    decreases |words| - next
  {
    if next == k { SpelledLives(words[k][|typed|..], followers[k]); } else { ChoiceLives(words, followers, next + 1, typed, k); }
  }

  /** Optional words, in order, and then the end. */
  function Options(words: seq<text>, followers: seq<Regex>, end: Regex, next: nat): Regex
    requires |followers| == |words|
    decreases |words| - next
  {
    if next >= |words| then end
    else Alt(Spelled(words[next], followers[next]), Options(words, followers, end, next + 1))
  }

  lemma {:induction false} OptionsAreChoice(words: seq<text>, followers: seq<Regex>, end: Regex, next: nat, w: text)
    requires |followers| == |words|
    ensures Matches(Options(words, followers, end, next), w)
       <==> Matches(Choice(words, followers, next, []), w) || Matches(end, w)
    decreases |words| - next
  {
    if next < |words| {
      OptionsAreChoice(words, followers, end, next + 1, w);
      assert words[next][0..] == words[next];
    }
  }

  /* ---- Something is left to read ---- */

  lemma SpelledIsNotEmpty(word: text, n: nat, rest: Regex)
    requires n <= |word| && (n < |word| || !Nullable(rest))
    ensures !Nullable(Spelled(word[n..], rest))
  {
    var left := word[n..];
    if left != [] {
      assert !Nullable(Letter(left[0]));
      JoinNullable(Letter(left[0]), Spelled(left[1..], rest));
    }
  }

  lemma ProperPrefix(typed: text, word: text)
    requires typed <= word && typed != word
    ensures |typed| < |word|
  {
    assert word[..|word|] == word;
  }

  lemma {:induction false} ChoiceIsNotEmpty(words: seq<text>, followers: seq<Regex>, next: nat, typed: text)
    requires |followers| == |words| && typed !in words
    ensures !Nullable(Choice(words, followers, next, typed))
    decreases |words| - next
  {
    if next < |words| {
      ChoiceIsNotEmpty(words, followers, next + 1, typed);
      var word := words[next];
      if typed <= word {
        ProperPrefix(typed, word);
        SpelledIsNotEmpty(word, |typed|, followers[next]);
      }
    }
  }
}
