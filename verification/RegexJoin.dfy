/** Concatenation with what follows pushed to the leaves of an expression, so that its first
    characters stand in front. */
module RegexJoin {
  import opened Regex

  function Join(r: Regex, rest: Regex): Regex {
    match r
    case Never => Never
    case Empty => rest
    case Range(_, _) => Cat(r, rest)
    case Alt(a, b) => Alt(Join(a, rest), Join(b, rest))
    case Cat(a, b) => Join(a, Join(b, rest))
    case Star(_) => Cat(r, rest)
  }

  lemma AppendAssociates(x: seq<byte>, y: seq<byte>, z: seq<byte>)
    ensures x + y + z == x + (y + z)
  {
  }

  lemma CatToRight(a: Regex, b: Regex, c: Regex, w: seq<byte>)
    requires Matches(Cat(Cat(a, b), c), w)
    ensures Matches(Cat(a, Cat(b, c)), w)
  {
    var xy, z := CatElim(Cat(a, b), c, w);
    var x, y := CatElim(a, b, xy);
    AppendAssociates(x, y, z);
    CatIntro(b, c, y, z);
    CatIntro(a, Cat(b, c), x, y + z);
  }

  lemma CatToLeft(a: Regex, b: Regex, c: Regex, w: seq<byte>)
    requires Matches(Cat(a, Cat(b, c)), w)
    ensures Matches(Cat(Cat(a, b), c), w)
  {
    var x, yz := CatElim(a, Cat(b, c), w);
    var y, z := CatElim(b, c, yz);
    AppendAssociates(x, y, z);
    CatIntro(a, b, x, y);
    CatIntro(Cat(a, b), c, x + y, z);
  }

  lemma CatAssociates(a: Regex, b: Regex, c: Regex)
    ensures Same(Cat(Cat(a, b), c), Cat(a, Cat(b, c)))
  {
    forall w ensures Matches(Cat(Cat(a, b), c), w) <==> Matches(Cat(a, Cat(b, c)), w) {
      if Matches(Cat(Cat(a, b), c), w) { CatToRight(a, b, c, w); }
      if Matches(Cat(a, Cat(b, c)), w) { CatToLeft(a, b, c, w); }
    }
  }

  lemma AltDistributes(a: Regex, b: Regex, c: Regex)
    ensures Same(Cat(Alt(a, b), c), Alt(Cat(a, c), Cat(b, c)))
  {
    forall w ensures Matches(Cat(Alt(a, b), c), w) <==> Matches(Alt(Cat(a, c), Cat(b, c)), w) {
      if Matches(Cat(Alt(a, b), c), w) {
        var x, y := CatElim(Alt(a, b), c, w);
        if Matches(a, x) { CatIntro(a, c, x, y); } else { CatIntro(b, c, x, y); }
      }
      if Matches(Cat(a, c), w) {
        var x, y := CatElim(a, c, w);
        CatIntro(Alt(a, b), c, x, y);
      }
      if Matches(Cat(b, c), w) {
        var x, y := CatElim(b, c, w);
        CatIntro(Alt(a, b), c, x, y);
      }
    }
  }

  lemma NothingAdded(r: Regex)
    ensures Same(Cat(Empty, r), r) && Same(Cat(Never, r), Never) && Same(Cat(r, Empty), r)
  {
    forall w ensures Matches(Cat(Empty, r), w) <==> Matches(r, w) {
      if Matches(Cat(Empty, r), w) { var x, y := CatElim(Empty, r, w); assert y == w; }
      if Matches(r, w) { CatIntro(Empty, r, [], w); assert [] + w == w; }
    }
    forall w ensures Matches(Cat(r, Empty), w) <==> Matches(r, w) {
      if Matches(Cat(r, Empty), w) { var x, y := CatElim(r, Empty, w); assert x == w; }
      if Matches(r, w) { CatIntro(r, Empty, w, []); assert w + [] == w; }
    }
    forall w ensures !Matches(Cat(Never, r), w) {
      if Matches(Cat(Never, r), w) { var x, y := CatElim(Never, r, w); }
    }
  }

  lemma {:induction false} JoinSame(r: Regex, rest: Regex)
    ensures Same(Cat(r, rest), Join(r, rest))
  {
    match r
    case Never => NothingAdded(rest);
    case Empty => NothingAdded(rest);
    case Range(_, _) =>
    case Alt(a, b) =>
      AltDistributes(a, b, rest);
      JoinSame(a, rest);
      JoinSame(b, rest);
    case Cat(a, b) =>
      CatAssociates(a, b, rest);
      JoinSame(b, rest);
      SameCat(a, Cat(b, rest), a, Join(b, rest));
      JoinSame(a, Join(b, rest));
    case Star(_) =>
  }

  lemma ByteLives(b: byte, rest: Regex)
    ensures !IsError(Byte(b)) && (!IsError(rest) ==> !IsError(Cat(Byte(b), rest)))
  {
  }

  lemma StarLives(a: Regex, rest: Regex)
    requires !IsError(rest)
    ensures !IsError(Cat(Star(a), rest))
  {
  }

  lemma {:induction false} JoinLives(r: Regex, rest: Regex)
    ensures !IsError(r) && !IsError(rest) ==> !IsError(Join(r, rest))
  {
    match r
    case Alt(a, b) =>
      JoinLives(a, rest);
      JoinLives(b, rest);
    case Cat(a, b) =>
      JoinLives(b, rest);
      JoinLives(a, Join(b, rest));
    case _ =>
  }

  lemma {:induction false} JoinNullable(r: Regex, rest: Regex)
    ensures Nullable(Join(r, rest)) <==> Nullable(r) && Nullable(rest)
  {
    match r
    case Alt(a, b) =>
      JoinNullable(a, rest);
      JoinNullable(b, rest);
    case Cat(a, b) =>
      JoinNullable(b, rest);
      JoinNullable(a, Join(b, rest));
    case _ =>
  }

  /* ---- First characters ---- */

  lemma RangeFirst(lo: int, hi: int, rest: Regex, c: byte, w: seq<byte>)
    ensures Matches(Cat(Range(lo, hi), rest), [c] + w) <==> lo <= c <= hi && Matches(rest, w)
  {
    if Matches(Cat(Range(lo, hi), rest), [c] + w) {
      var x, y := CatElim(Range(lo, hi), rest, [c] + w);
      Overlap([c], w, x, y);
      assert x[1..] == [] && y == w;
    }
    if lo <= c <= hi && Matches(rest, w) { CatIntro(Range(lo, hi), rest, [c], w); }
  }

  lemma StarSplits(a: Regex, rest: Regex, w: seq<byte>)
    requires Matches(Cat(Star(a), rest), w)
    ensures Matches(rest, w) || Matches(Cat(a, Cat(Star(a), rest)), w)
  {
    var x, y := CatElim(Star(a), rest, w);
    if x == [] {
      assert y == w;
    } else {
      var u, v := StarElim(a, x);
      CatIntro(Star(a), rest, v, y);
      CatIntro(a, Cat(Star(a), rest), u, v + y);
      AppendAssociates(u, v, y);
    }
  }

  lemma StarGathers(a: Regex, rest: Regex, w: seq<byte>)
    requires Matches(Cat(a, Cat(Star(a), rest)), w)
    ensures Matches(Cat(Star(a), rest), w)
  {
    var u, vy := CatElim(a, Cat(Star(a), rest), w);
    var v, y := CatElim(Star(a), rest, vy);
    StarIntro(a, u, v);
    CatIntro(Star(a), rest, u + v, y);
    AppendAssociates(u, v, y);
  }

  lemma StarUnfolds(a: Regex, rest: Regex, w: seq<byte>)
    ensures Matches(Cat(Star(a), rest), w) <==> Matches(rest, w) || Matches(Join(a, Cat(Star(a), rest)), w)
  {
    JoinSame(a, Cat(Star(a), rest));
    if Matches(Cat(Star(a), rest), w) { StarSplits(a, rest, w); }
    if Matches(Cat(a, Cat(Star(a), rest)), w) { StarGathers(a, rest, w); }
    if Matches(rest, w) {
      CatIntro(Star(a), rest, [], w);
      assert [] + w == w;
    }
  }

  lemma JoinAlt(a: Regex, b: Regex, rest: Regex)
    ensures Join(Alt(a, b), rest) == Alt(Join(a, rest), Join(b, rest))
  {
  }
}
