/** Regular expressions over bytes, as the .rl files write them, and the scanner a state-machine
    compiler makes of one: it moves from state to state on each byte and ends in the error state
    exactly when no continuation of what it has read is a word.  A state is represented by the
    residual expression still to be matched. */
module Regex {

  type byte = b: int | 0 <= b < 256

  datatype Regex =
    | Never
    | Empty
    | Range(lo: int, hi: int)
    | Alt(left: Regex, right: Regex)
    | Cat(first: Regex, second: Regex)
    | Star(body: Regex)

  function Byte(b: int): Regex { Range(b, b) }

  function Opt(r: Regex): Regex { Alt(r, Empty) }

  /** A choice between byte ranges. */
  function Ranges(rs: seq<(int, int)>): Regex
    requires rs != []
  {
    if |rs| == 1 then Range(rs[0].0, rs[0].1) else Alt(Range(rs[0].0, rs[0].1), Ranges(rs[1..]))
  }

  function Plus(r: Regex): Regex { Cat(r, Star(r)) }

  /** Two ways of cutting one word: the shorter first part is a prefix of the longer. */
  lemma Overlap<T>(s: seq<T>, t: seq<T>, x: seq<T>, y: seq<T>)
    requires s + t == x + y && |s| <= |x|
    ensures x == s + x[|s|..] && t == x[|s|..] + y
  {
    assert s == (s + t)[..|s|] == x[..|s|];
    assert t == (s + t)[|s|..] == (x + y)[|s|..];
  }

  /* ---- The language of an expression ---- */

  ghost predicate Matches(r: Regex, s: seq<byte>)
    decreases r, |s|, 1
  {
    match r
    case Never => false
    case Empty => s == []
    case Range(lo, hi) => |s| == 1 && lo <= s[0] <= hi
    case Alt(a, b) => Matches(a, s) || Matches(b, s)
    case Cat(a, b) => exists k: nat :: CatAt(a, b, s, k)
    case Star(a) => s == [] || exists k: nat :: StarAt(a, s, k)
  }

  ghost predicate CatAt(a: Regex, b: Regex, s: seq<byte>, k: nat)
    decreases Cat(a, b), |s|, 0
  {
    k <= |s| && Matches(a, s[..k]) && Matches(b, s[k..])
  }

  ghost predicate StarAt(a: Regex, s: seq<byte>, k: nat)
    decreases Star(a), |s|, 0
  {
    0 < k <= |s| && Matches(a, s[..k]) && Matches(Star(a), s[k..])
  }

  ghost predicate Viable(r: Regex, s: seq<byte>) {
    exists t :: Matches(r, s + t)
  }

  ghost predicate Same(r: Regex, q: Regex) {
    forall s :: Matches(r, s) <==> Matches(q, s)
  }

  ghost predicate InRanges(rs: seq<(int, int)>, b: byte) {
    exists i | 0 <= i < |rs| :: rs[i].0 <= b <= rs[i].1
  }

  lemma {:induction false} RangesIff(rs: seq<(int, int)>, s: seq<byte>)
    requires rs != []
    ensures Matches(Ranges(rs), s) <==> |s| == 1 && InRanges(rs, s[0])
    decreases |rs|
  {
    if |rs| > 1 {
      RangesIff(rs[1..], s);
      forall i | 0 <= i < |rs| ensures rs[i] == if i == 0 then rs[0] else rs[1..][i - 1] {}
      if Matches(Ranges(rs), s) && !Matches(Range(rs[0].0, rs[0].1), s) {
        var i :| 0 <= i < |rs[1..]| && rs[1..][i].0 <= s[0] <= rs[1..][i].1;
        assert rs[i + 1].0 <= s[0] <= rs[i + 1].1;
      }
    }
  }

  lemma CatIntro(a: Regex, b: Regex, s: seq<byte>, t: seq<byte>)
    requires Matches(a, s) && Matches(b, t)
    ensures Matches(Cat(a, b), s + t)
  {
    assert (s + t)[..|s|] == s && (s + t)[|s|..] == t;
    assert CatAt(a, b, s + t, |s|);
  }

  lemma CatElim(a: Regex, b: Regex, w: seq<byte>) returns (s: seq<byte>, t: seq<byte>)
    requires Matches(Cat(a, b), w)
    ensures w == s + t && Matches(a, s) && Matches(b, t)
  {
    var k: nat :| CatAt(a, b, w, k);
    s, t := w[..k], w[k..];
  }

  lemma StarIntro(a: Regex, s: seq<byte>, t: seq<byte>)
    requires Matches(a, s) && Matches(Star(a), t)
    ensures Matches(Star(a), s + t)
  {
    if s == [] {
      assert s + t == t;
    } else {
      assert (s + t)[..|s|] == s && (s + t)[|s|..] == t;
      assert StarAt(a, s + t, |s|);
    }
  }

  lemma StarOne(a: Regex, s: seq<byte>)
    requires Matches(a, s)
    ensures Matches(Star(a), s)
  {
    StarIntro(a, s, []);
    assert s + [] == s;
  }

  lemma StarElim(a: Regex, w: seq<byte>) returns (s: seq<byte>, t: seq<byte>)
    requires Matches(Star(a), w) && w != []
    ensures s != [] && w == s + t && Matches(a, s) && Matches(Star(a), t)
  {
    var k: nat :| StarAt(a, w, k);
    s, t := w[..k], w[k..];
  }

  lemma {:induction false} StarAppend(a: Regex, s: seq<byte>, t: seq<byte>)
    requires Matches(Star(a), s) && Matches(Star(a), t)
    ensures Matches(Star(a), s + t)
    decreases |s|
  {
    if s == [] {
      assert s + t == t;
    } else {
      var x, y := StarElim(a, s);
      StarAppend(a, y, t);
      StarIntro(a, x, y + t);
      assert x + (y + t) == s + t;
    }
  }

  /* ---- The scanner ---- */

  predicate Nullable(r: Regex) {
    match r
    case Never => false
    case Empty => true
    case Range(_, _) => false
    case Alt(a, b) => Nullable(a) || Nullable(b)
    case Cat(a, b) => Nullable(a) && Nullable(b)
    case Star(_) => true
  }

  /** One transition of the scanner. */
  function Next(r: Regex, c: byte): Regex {
    match r
    case Never => Never
    case Empty => Never
    case Range(lo, hi) => if lo <= c <= hi then Empty else Never
    case Alt(a, b) => Alt(Next(a, c), Next(b, c))
    case Cat(a, b) =>
      if Nullable(a) then Alt(Cat(Next(a, c), b), Next(b, c)) else Cat(Next(a, c), b)
    case Star(a) => Cat(Next(a, c), r)
  }

  /** The error state: nothing can follow. */
  predicate IsError(r: Regex) {
    match r
    case Never => true
    case Empty => false
    case Range(lo, hi) => hi < lo || hi < 0 || 255 < lo
    case Alt(a, b) => IsError(a) && IsError(b)
    case Cat(a, b) => IsError(a) || IsError(b)
    case Star(_) => false
  }

  function Run(r: Regex, s: seq<byte>): Regex
    decreases |s|
  {
    if s == [] then r else Run(Next(r, s[0]), s[1..])
  }

  /** The value of `cs != ..._error` after the scanner has read all of `s`. */
  predicate Accepts(r: Regex, s: seq<byte>) {
    !IsError(Run(r, s))
  }

  lemma NullableIff(r: Regex)
    ensures Nullable(r) <==> Matches(r, [])
  {
    var none: seq<byte> := [];
    match r
    case Cat(a, b) =>
      assert none[..0] == none && none[0..] == none;
      if Nullable(r) { assert CatAt(a, b, none, 0); }
    case _ =>
  }

  lemma {:induction false} NextIff(r: Regex, c: byte, s: seq<byte>)
    ensures Matches(Next(r, c), s) <==> Matches(r, [c] + s)
    decreases r, |s|, 1
  {
    match r
    case Never =>
    case Empty =>
    case Range(_, _) =>
    case Alt(a, b) => NextIff(a, c, s); NextIff(b, c, s);
    case Cat(a, b) =>
      if Matches(Next(r, c), s) { NextCatSound(a, b, c, s); }
      if Matches(r, [c] + s) { NextCatComplete(a, b, c, s); }
    case Star(a) =>
      if Matches(Next(r, c), s) {
        var x, y := CatElim(Next(a, c), r, s);
        NextIff(a, c, x);
        StarIntro(a, [c] + x, y);
        assert [c] + x + y == [c] + s;
      }
      if Matches(r, [c] + s) {
        var x, y := StarElim(a, [c] + s);
        Overlap([c], s, x, y);
        NextIff(a, c, x[1..]);
        CatIntro(Next(a, c), r, x[1..], y);
      }
  }

  lemma {:induction false} NextCatSound(a: Regex, b: Regex, c: byte, s: seq<byte>)
    requires Matches(Next(Cat(a, b), c), s)
    ensures Matches(Cat(a, b), [c] + s)
    decreases Cat(a, b), |s|, 0
  {
    if Nullable(a) && Matches(Next(b, c), s) {
      NullableIff(a);
      NextIff(b, c, s);
      CatIntro(a, b, [], [c] + s);
      assert [] + ([c] + s) == [c] + s;
    } else {
      var x, y := CatElim(Next(a, c), b, s);
      NextIff(a, c, x);
      CatIntro(a, b, [c] + x, y);
      assert [c] + x + y == [c] + s;
    }
  }

  lemma {:induction false} NextCatComplete(a: Regex, b: Regex, c: byte, s: seq<byte>)
    requires Matches(Cat(a, b), [c] + s)
    ensures Matches(Next(Cat(a, b), c), s)
    decreases Cat(a, b), |s|, 0
  {
    var x, y := CatElim(a, b, [c] + s);
    if x == [] {
      NullableIff(a);
      assert y == [c] + s;
      NextIff(b, c, s);
    } else {
      Overlap([c], s, x, y);
      NextIff(a, c, x[1..]);
      CatIntro(Next(a, c), b, x[1..], y);
    }
  }

  lemma ErrorIff(r: Regex)
    ensures IsError(r) <==> !exists s :: Matches(r, s)
  {
    if IsError(r) {
      forall s ensures !Matches(r, s) { ErrorMatchesNothing(r, s); }
    } else {
      var s := SomeWord(r);
      assert Matches(r, s);
    }
  }

  lemma {:induction false} ErrorMatchesNothing(r: Regex, s: seq<byte>)
    requires IsError(r)
    ensures !Matches(r, s)
    decreases r
  {
    match r
    case Alt(a, b) => ErrorMatchesNothing(a, s); ErrorMatchesNothing(b, s);
    case Cat(a, b) =>
      if Matches(r, s) {
        var x, y := CatElim(a, b, s);
        if IsError(a) { ErrorMatchesNothing(a, x); } else { ErrorMatchesNothing(b, y); }
      }
    case _ =>
  }

  lemma {:induction false} SomeWord(r: Regex) returns (s: seq<byte>)
    requires !IsError(r)
    ensures Matches(r, s)
  {
    match r
    case Empty => s := [];
    case Range(lo, hi) => s := [if lo < 0 then 0 else lo];
    case Alt(a, b) => if IsError(a) { s := SomeWord(b); } else { s := SomeWord(a); }
    case Cat(a, b) =>
      var x := SomeWord(a);
      var y := SomeWord(b);
      CatIntro(a, b, x, y);
      s := x + y;
    case Star(_) => s := [];
  }

  lemma {:induction false} RunIff(r: Regex, s: seq<byte>, t: seq<byte>)
    ensures Matches(Run(r, s), t) <==> Matches(r, s + t)
    decreases |s|
  {
    if s == [] {
      assert s + t == t;
    } else {
      RunIff(Next(r, s[0]), s[1..], t);
      NextIff(r, s[0], s[1..] + t);
      assert [s[0]] + (s[1..] + t) == s + t;
    }
  }

  /** What `cs != ..._error` decides: `s` is a prefix of a word, not that it is one. */
  lemma AcceptsIffViable(r: Regex, s: seq<byte>)
    ensures Accepts(r, s) <==> Viable(r, s)
  {
    ErrorIff(Run(r, s));
    if Accepts(r, s) {
      var t :| Matches(Run(r, s), t);
      RunIff(r, s, t);
    }
    if Viable(r, s) {
      var t :| Matches(r, s + t);
      RunIff(r, s, t);
    }
  }

  /* ---- How many bytes complete a viable prefix ---- */

  predicate Proper(r: Regex) {
    match r
    case Never => false
    case Empty => true
    case Range(lo, hi) => 0 <= lo <= hi <= 255
    case Alt(a, b) => Proper(a) && Proper(b)
    case Cat(a, b) => Proper(a) && Proper(b)
    case Star(a) => Proper(a)
  }

  function Max(a: nat, b: nat): nat { if a < b then b else a }

  function Min(a: nat, b: nat): nat { if a < b then a else b }

  /** Length of a shortest word. */
  function Shortest(r: Regex): nat {
    match r
    case Never => 0
    case Empty => 0
    case Range(_, _) => 1
    case Alt(a, b) => Min(Shortest(a), Shortest(b))
    case Cat(a, b) => Shortest(a) + Shortest(b)
    case Star(_) => 0
  }

  /** Enough bytes to complete any non-empty viable prefix. */
  function Missing(r: Regex): nat {
    match r
    case Never => 0
    case Empty => 0
    case Range(_, _) => 0
    case Alt(a, b) => Max(Missing(a), Missing(b))
    case Cat(a, b) => Max(Missing(a) + Shortest(b), Missing(b))
    case Star(a) => Missing(a)
  }

  lemma {:induction false} RangesMeasure(rs: seq<(int, int)>)
    requires rs != [] && forall i | 0 <= i < |rs| :: 0 <= rs[i].0 <= rs[i].1 <= 255
    ensures Proper(Ranges(rs)) && Shortest(Ranges(rs)) == 1 && Missing(Ranges(rs)) == 0
    decreases |rs|
  {
    if |rs| > 1 { RangesMeasure(rs[1..]); }
  }

  lemma {:induction false} ShortestWord(r: Regex) returns (s: seq<byte>)
    requires Proper(r)
    ensures Matches(r, s) && |s| == Shortest(r)
  {
    match r
    case Empty => s := [];
    case Range(lo, _) => s := [lo];
    case Alt(a, b) => if Shortest(a) < Shortest(b) { s := ShortestWord(a); } else { s := ShortestWord(b); }
    case Cat(a, b) =>
      var x := ShortestWord(a);
      var y := ShortestWord(b);
      CatIntro(a, b, x, y);
      s := x + y;
    case Star(_) => s := [];
  }

  lemma {:induction false} Complete(r: Regex, s: seq<byte>, t: seq<byte>) returns (u: seq<byte>)
    requires Proper(r) && s != [] && Matches(r, s + t)
    ensures Matches(r, s + u) && |u| <= Missing(r)
    decreases r, |s|, 1
  {
    match r
    case Range(_, _) => u := [];
    case Alt(a, b) => if Matches(a, s + t) { u := Complete(a, s, t); } else { u := Complete(b, s, t); }
    case Cat(a, b) => u := CompleteCat(a, b, s, t);
    case Star(a) => u := CompleteStar(a, s, t);
  }

  lemma {:induction false} CompleteCat(a: Regex, b: Regex, s: seq<byte>, t: seq<byte>) returns (u: seq<byte>)
    requires Proper(Cat(a, b)) && s != [] && Matches(Cat(a, b), s + t)
    ensures Matches(Cat(a, b), s + u) && |u| <= Missing(Cat(a, b))
    decreases Cat(a, b), |s|, 0
  {
    var x, y := CatElim(a, b, s + t);
    if |s| <= |x| {
      Overlap(s, t, x, y);
      var v := Complete(a, s, x[|s|..]);
      var w := ShortestWord(b);
      CatIntro(a, b, s + v, w);
      assert s + v + w == s + (v + w);
      u := v + w;
    } else {
      Overlap(x, y, s, t);
      u := Complete(b, s[|x|..], t);
      CatIntro(a, b, x, s[|x|..] + u);
      assert x + (s[|x|..] + u) == s + u;
    }
  }

  lemma {:induction false} CompleteStar(a: Regex, s: seq<byte>, t: seq<byte>) returns (u: seq<byte>)
    requires Proper(a) && s != [] && Matches(Star(a), s + t)
    ensures Matches(Star(a), s + u) && |u| <= Missing(a)
    decreases Star(a), |s|, 0
  {
    var x, y := StarElim(a, s + t);
    if |s| <= |x| {
      Overlap(s, t, x, y);
      u := Complete(a, s, x[|s|..]);
      StarOne(a, s + u);
    } else {
      Overlap(x, y, s, t);
      u := CompleteStar(a, s[|x|..], t);
      StarIntro(a, x, s[|x|..] + u);
      assert x + (s[|x|..] + u) == s + u;
    }
  }

  /* ---- Rewriting an expression without changing its language ---- */

  lemma SameAlt(a: Regex, b: Regex, a': Regex, b': Regex)
    requires Same(a, a') && Same(b, b')
    ensures Same(Alt(a, b), Alt(a', b'))
  {
  }

  lemma SameCat(a: Regex, b: Regex, a': Regex, b': Regex)
    requires Same(a, a') && Same(b, b')
    ensures Same(Cat(a, b), Cat(a', b'))
  {
    forall s ensures Matches(Cat(a, b), s) <==> Matches(Cat(a', b'), s) {
      if Matches(Cat(a, b), s) {
        var x, y := CatElim(a, b, s);
        CatIntro(a', b', x, y);
      }
      if Matches(Cat(a', b'), s) {
        var x, y := CatElim(a', b', s);
        CatIntro(a, b, x, y);
      }
    }
  }

  lemma SameStar(a: Regex, a': Regex)
    requires Same(a, a')
    ensures Same(Star(a), Star(a'))
  {
    forall s ensures Matches(Star(a), s) <==> Matches(Star(a'), s) {
      if Matches(Star(a), s) { StarMonotone(a, a', s); }
      if Matches(Star(a'), s) { StarMonotone(a', a, s); }
    }
  }

  lemma {:induction false} StarMonotone(a: Regex, a': Regex, s: seq<byte>)
    requires Same(a, a') && Matches(Star(a), s)
    ensures Matches(Star(a'), s)
    decreases |s|
  {
    if s != [] {
      var x, y := StarElim(a, s);
      StarMonotone(a, a', y);
      StarIntro(a', x, y);
    }
  }
}
