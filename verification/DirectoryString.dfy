/** The DirectoryString recogniser: UTF-8 text (section 3.3.6 of RFC 4517, section 4 of RFC 3629). */
module DirectoryString {
  import opened Prelude
  import opened Regex
  import opened Utf8

  const DIRECTORY_STRING := Plus(UTF8)

  predicate IsDirectoryString(input: seq<byte>) { Accepts(DIRECTORY_STRING, input) }

  predicate ValidateDirectoryString(value: Option<seq<byte>>) {
    value.Some? && value.value != [] && IsDirectoryString(value.value)
  }

  /* ---- The reference encoder ---- */

  type scalar = c: int | 0 <= c < 0xd800 || 0xe000 <= c < 0x110000

  function Encode(c: scalar): seq<byte> {
    if c < 0x80 then [c]
    else if c < 0x800 then [0xc0 + c / 0x40, 0x80 + c % 0x40]
    else if c < 0x10000 then [0xe0 + c / 0x1000, 0x80 + c / 0x40 % 0x40, 0x80 + c % 0x40]
    else [0xf0 + c / 0x40000, 0x80 + c / 0x1000 % 0x40, 0x80 + c / 0x40 % 0x40, 0x80 + c % 0x40]
  }

  function EncodeAll(text: seq<scalar>): seq<byte> {
    if text == [] then [] else Encode(text[0]) + EncodeAll(text[1..])
  }

  /** A character cut short: nothing, or a proper beginning of some character's encoding. */
  ghost predicate CutShort(tail: seq<byte>) {
    exists c: scalar :: tail < Encode(c)
  }

  /* ---- One character ---- */

  ghost predicate In(r: Regex, b: byte) { r.Range? && r.lo <= b <= r.hi }

  lemma LeadIff(lead: Regex, tail: Regex, s: seq<byte>)
    requires lead.Range?
    ensures Matches(Cat(lead, tail), s) <==> s != [] && In(lead, s[0]) && Matches(tail, s[1..])
  {
    if Matches(Cat(lead, tail), s) {
      var x, y := CatElim(lead, tail, s);
    }
    if s != [] && In(lead, s[0]) && Matches(tail, s[1..]) {
      CatIntro(lead, tail, [s[0]], s[1..]);
      assert [s[0]] + s[1..] == s;
    }
  }

  lemma TwoIff(a: Regex, b: Regex, s: seq<byte>)
    requires a.Range? && b.Range?
    ensures Matches(Cat(a, b), s) <==> |s| == 2 && In(a, s[0]) && In(b, s[1])
  {
    LeadIff(a, b, s);
  }

  lemma ThreeIff(a: Regex, b: Regex, c: Regex, s: seq<byte>)
    requires a.Range? && b.Range? && c.Range?
    ensures Matches(Cat(a, Cat(b, c)), s) <==> |s| == 3 && In(a, s[0]) && In(b, s[1]) && In(c, s[2])
  {
    LeadIff(a, Cat(b, c), s);
    if s != [] { TwoIff(b, c, s[1..]); }
  }

  lemma FourIff(a: Regex, b: Regex, c: Regex, d: Regex, s: seq<byte>)
    requires a.Range? && b.Range? && c.Range? && d.Range?
    ensures Matches(Cat(a, Cat(b, Cat(c, d))), s)
       <==> |s| == 4 && In(a, s[0]) && In(b, s[1]) && In(c, s[2]) && In(d, s[3])
  {
    LeadIff(a, Cat(b, Cat(c, d)), s);
    if s != [] { ThreeIff(b, c, d, s[1..]); }
  }

  predicate Follows(b: byte) { 0x80 <= b <= 0xbf }

  predicate Two(s: seq<byte>) { |s| == 2 && 0xc2 <= s[0] <= 0xdf && Follows(s[1]) }

  predicate Three(s: seq<byte>) {
    && |s| == 3 && 0xe0 <= s[0] <= 0xef && Follows(s[1]) && Follows(s[2])
    && (s[0] == 0xe0 ==> 0xa0 <= s[1]) && (s[0] == 0xed ==> s[1] <= 0x9f)
  }

  predicate Four(s: seq<byte>) {
    && |s| == 4 && 0xf0 <= s[0] <= 0xf4 && Follows(s[1]) && Follows(s[2]) && Follows(s[3])
    && (s[0] == 0xf0 ==> 0x90 <= s[1]) && (s[0] == 0xf4 ==> s[1] <= 0x8f)
  }

  lemma AltIff(a: Regex, b: Regex, s: seq<byte>)
    ensures Matches(Alt(a, b), s) <==> Matches(a, s) || Matches(b, s)
  {
  }

  lemma Utf3Iff(s: seq<byte>)
    ensures Matches(UTF3, s) <==> Three(s)
  {
    var c := Cat(Byte(0xed), Cat(Range(0x80, 0x9f), UTF0));
    var d := Cat(Range(0xee, 0xef), Cat(UTF0, UTF0));
    ThreeIff(Byte(0xe0), Range(0xa0, 0xbf), UTF0, s);
    ThreeIff(Range(0xe1, 0xec), UTF0, UTF0, s);
    ThreeIff(Byte(0xed), Range(0x80, 0x9f), UTF0, s);
    ThreeIff(Range(0xee, 0xef), UTF0, UTF0, s);
    AltIff(c, d, s);
    AltIff(Cat(Range(0xe1, 0xec), Cat(UTF0, UTF0)), Alt(c, d), s);
  }

  lemma Utf4Iff(s: seq<byte>)
    ensures Matches(UTF4, s) <==> Four(s)
  {
    FourIff(Byte(0xf0), Range(0x90, 0xbf), UTF0, UTF0, s);
    FourIff(Range(0xf1, 0xf3), UTF0, UTF0, UTF0, s);
    FourIff(Byte(0xf4), Range(0x80, 0x8f), UTF0, UTF0, s);
  }

  lemma Utf8Iff(s: seq<byte>)
    ensures Matches(UTF8, s) <==> (|s| == 1 && s[0] <= 0x7f) || Two(s) || Three(s) || Four(s)
  {
    TwoIff(Range(0xc2, 0xdf), UTF0, s);
    Utf3Iff(s);
    Utf4Iff(s);
    AltIff(UTF3, UTF4, s);
    AltIff(UTF2, Alt(UTF3, UTF4), s);
    AltIff(UTF1, UTFMB, s);
  }

  /** The number the payload bits spell. */
  function Payload(s: seq<byte>): int {
    if |s| == 1 then s[0]
    else if |s| == 2 then (s[0] as int - 0xc0) * 0x40 + (s[1] as int - 0x80)
    else if |s| == 3 then (s[0] as int - 0xe0) * 0x1000 + (s[1] as int - 0x80) * 0x40 + (s[2] as int - 0x80)
    else if |s| == 4 then
      (s[0] as int - 0xf0) * 0x40000 + (s[1] as int - 0x80) * 0x1000 + (s[2] as int - 0x80) * 0x40 + (s[3] as int - 0x80)
    else 0
  }

  lemma DivideTwice(n: nat)
    ensures n / 0x1000 == n / 0x40 / 0x40 && n / 0x40000 == n / 0x40 / 0x40 / 0x40
  {
  }

  lemma PayloadOfEncoding(c: scalar)
    ensures Payload(Encode(c)) == c
  {
    var high, higher, highest := c / 0x40, c / 0x1000, c / 0x40000;
    DivideTwice(c);
    assert c == high * 0x40 + c % 0x40;
    assert high == higher * 0x40 + high % 0x40;
    assert higher == highest * 0x40 + higher % 0x40;
  }

  lemma Digits(high: nat, low: nat)
    requires low < 0x40
    ensures (high * 0x40 + low) / 0x40 == high && (high * 0x40 + low) % 0x40 == low
  {
  }

  lemma EncodeThree(s: seq<byte>)
    requires Three(s)
    ensures var c := Payload(s); 0x800 <= c < 0x10000 && !(0xd800 <= c < 0xe000) && s == Encode(c)
  {
    var a, b, d := s[0] as int - 0xe0, s[1] as int - 0x80, s[2] as int - 0x80;
    Digits(a, b);
    Digits(a * 0x40 + b, d);
    DivideTwice(Payload(s));
  }

  lemma EncodeFour(s: seq<byte>)
    requires Four(s)
    ensures var c := Payload(s); 0x10000 <= c < 0x110000 && s == Encode(c)
  {
    var a, b, d, e := s[0] as int - 0xf0, s[1] as int - 0x80, s[2] as int - 0x80, s[3] as int - 0x80;
    Digits(a, b);
    Digits(a * 0x40 + b, d);
    Digits((a * 0x40 + b) * 0x40 + d, e);
    DivideTwice(Payload(s));
  }

  lemma Decoded(s: seq<byte>) returns (c: scalar)
    requires Matches(UTF8, s)
    ensures s == Encode(c)
  {
    Utf8Iff(s);
    if Three(s) { EncodeThree(s); }
    if Four(s) { EncodeFour(s); }
    c := Payload(s);
  }

  lemma Encoded(c: scalar)
    ensures Matches(UTF8, Encode(c))
  {
    Utf8Iff(Encode(c));
  }

  /** The machine's character rule is exactly the encodings of scalar values. */
  lemma CharacterIff(s: seq<byte>)
    ensures Matches(UTF8, s) <==> exists c: scalar :: s == Encode(c)
  {
    if Matches(UTF8, s) { var c := Decoded(s); }
    if c: scalar :| s == Encode(c) { Encoded(c); }
  }

  /* ---- Whole texts ---- */

  lemma {:induction false} TextDecoded(s: seq<byte>) returns (text: seq<scalar>)
    requires Matches(Star(UTF8), s)
    ensures s == EncodeAll(text)
    decreases |s|
  {
    if s == [] {
      text := [];
    } else {
      var x, y := StarElim(UTF8, s);
      var c := Decoded(x);
      var rest := TextDecoded(y);
      text := [c] + rest;
    }
  }

  lemma {:induction false} TextEncoded(text: seq<scalar>)
    ensures Matches(Star(UTF8), EncodeAll(text))
  {
    if text != [] {
      Encoded(text[0]);
      TextEncoded(text[1..]);
      StarIntro(UTF8, Encode(text[0]), EncodeAll(text[1..]));
    }
  }

  /** No encoding is a beginning of another character's encoding. */
  lemma PrefixFree(c: scalar, d: scalar)
    requires Encode(c) <= Encode(d)
    ensures c == d
  {
    var s, t := Encode(c), Encode(d);
    assert s[0] == t[0];
    assert |s| == |t|;
    assert s == t;
    PayloadOfEncoding(c);
    PayloadOfEncoding(d);
  }

  lemma {:induction false} Split(s: seq<byte>, t: seq<byte>, text: seq<scalar>)
    returns (done: seq<scalar>, tail: seq<byte>)
    requires s + t == EncodeAll(text)
    ensures s == EncodeAll(done) + tail && CutShort(tail)
    decreases |text|
  {
    if text == [] {
      done, tail := [], [];
      assert tail < Encode(0);
    } else {
      var c := Encode(text[0]);
      if |s| < |c| {
        Overlap(s, t, c, EncodeAll(text[1..]));
        done, tail := [], s;
      } else {
        Overlap(c, EncodeAll(text[1..]), s, t);
        done, tail := Split(s[|c|..], t, text[1..]);
        done := [text[0]] + done;
        assert done[1..] + [] == done[1..];
      }
    }
  }

  lemma {:induction false} EncodeAllAppend(a: seq<scalar>, c: scalar)
    ensures EncodeAll(a + [c]) == EncodeAll(a) + Encode(c)
  {
    if a == [] {
    } else {
      EncodeAllAppend(a[1..], c);
      assert (a + [c])[1..] == a[1..] + [c];
    }
  }

  lemma TailCompletes(text: seq<scalar>, tail: seq<byte>)
    requires CutShort(tail)
    ensures Viable(DIRECTORY_STRING, EncodeAll(text) + tail)
  {
    var c: scalar :| tail < Encode(c);
    var t := Encode(c)[|tail|..];
    EncodeAllAppend(text, c);
    var w := EncodeAll(text) + tail + t;
    assert w == EncodeAll(text + [c]);
    TextEncoded(text + [c]);
    var x, y := StarElim(UTF8, w);
    CatIntro(UTF8, Star(UTF8), x, y);
  }

  /** Exactly what is accepted: whole characters, then possibly one cut short. */
  lemma AcceptedIffTextAndTail(s: seq<byte>)
    ensures IsDirectoryString(s) <==>
      exists text, tail :: s == EncodeAll(text) + tail && CutShort(tail)
  {
    AcceptsIffViable(DIRECTORY_STRING, s);
    if IsDirectoryString(s) {
      var t :| Matches(DIRECTORY_STRING, s + t);
      var x, y := CatElim(UTF8, Star(UTF8), s + t);
      StarIntro(UTF8, x, y);
      var text := TextDecoded(s + t);
      var done, tail := Split(s, t, text);
    }
    if text, tail :| s == EncodeAll(text) + tail && CutShort(tail) {
      TailCompletes(text, tail);
    }
  }

  /** What callers of the validator get: a text is there, is not empty, and is cut nowhere but in its
      last character. */
  lemma ValidateDirectoryStringIff(value: Option<seq<byte>>)
    ensures ValidateDirectoryString(value) <==>
      value.Some? && value.value != [] && exists text, tail :: value.value == EncodeAll(text) + tail && CutShort(tail)
  {
    if value.Some? { AcceptedIffTextAndTail(value.value); }
  }

  lemma WholeCharacterIsNotCut(b: seq<scalar>, y: seq<byte>)
    requires b != []
    ensures !CutShort(EncodeAll(b) + y)
  {
    if CutShort(EncodeAll(b) + y) {
      var c: scalar :| EncodeAll(b) + y < Encode(c);
      assert Encode(b[0]) <= EncodeAll(b) <= EncodeAll(b) + y;
      PrefixFree(b[0], c);
    }
  }

  /** The split is unique, and the cut character has at most three bytes. */
  lemma {:induction false} SplitIsUnique(a: seq<scalar>, x: seq<byte>, b: seq<scalar>, y: seq<byte>)
    requires EncodeAll(a) + x == EncodeAll(b) + y && CutShort(x) && CutShort(y)
    ensures a == b && x == y && |x| <= 3
    decreases |a| + |b|
  {
    if a == [] || b == [] {
      if b != [] { assert EncodeAll(a) + x == x; WholeCharacterIsNotCut(b, y); }
      if a != [] { assert EncodeAll(b) + y == y; WholeCharacterIsNotCut(a, x); }
    } else {
      SameFirst(a, x, b, y);
      SplitIsUnique(a[1..], x, b[1..], y);
    }
  }

  lemma TakeFirst(a: seq<scalar>, x: seq<byte>)
    requires a != []
    ensures EncodeAll(a) + x == Encode(a[0]) + (EncodeAll(a[1..]) + x)
  {
    SeqAssociates(Encode(a[0]), EncodeAll(a[1..]), x);
  }

  lemma SeqAssociates(p: seq<byte>, q: seq<byte>, r: seq<byte>)
    ensures p + q + r == p + (q + r)
  {
  }

  lemma SameFirst(a: seq<scalar>, x: seq<byte>, b: seq<scalar>, y: seq<byte>)
    requires a != [] && b != [] && EncodeAll(a) + x == EncodeAll(b) + y
    ensures a[0] == b[0] && EncodeAll(a[1..]) + x == EncodeAll(b[1..]) + y
  {
    TakeFirst(a, x);
    TakeFirst(b, y);
    SameFirstCharacter(a[0], EncodeAll(a[1..]) + x, b[0], EncodeAll(b[1..]) + y);
  }

  lemma SameFirstCharacter(c: scalar, restC: seq<byte>, d: scalar, restD: seq<byte>)
    requires Encode(c) + restC == Encode(d) + restD
    ensures c == d && restC == restD
  {
    Align(Encode(c), restC, Encode(d), restD);
    if Encode(c) <= Encode(d) { PrefixFree(c, d); } else { PrefixFree(d, c); }
  }

  lemma Align(c: seq<byte>, restC: seq<byte>, d: seq<byte>, restD: seq<byte>)
    requires c + restC == d + restD
    ensures c <= d || d <= c
    ensures |c| == |d| ==> restC == restD
  {
    if |c| <= |d| { Overlap(c, restC, d, restD); } else { Overlap(d, restD, c, restC); }
  }
}
