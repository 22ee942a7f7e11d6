/** The UTF-8 fragments shared by the recognisers (section 4 of RFC 3629). */
module Utf8 {
  import opened Regex

  const UTF0 := Range(0x80, 0xbf)
  const UTF1 := Range(0x00, 0x7f)
  const UTF2 := Cat(Range(0xc2, 0xdf), UTF0)
  const UTF3 :=
    Alt(Cat(Byte(0xe0), Cat(Range(0xa0, 0xbf), UTF0)),
    Alt(Cat(Range(0xe1, 0xec), Cat(UTF0, UTF0)),
    Alt(Cat(Byte(0xed), Cat(Range(0x80, 0x9f), UTF0)),
        Cat(Range(0xee, 0xef), Cat(UTF0, UTF0)))))
  const UTF4 :=
    Alt(Cat(Byte(0xf0), Cat(Range(0x90, 0xbf), Cat(UTF0, UTF0))),
    Alt(Cat(Range(0xf1, 0xf3), Cat(UTF0, Cat(UTF0, UTF0))),
        Cat(Byte(0xf4), Cat(Range(0x80, 0x8f), Cat(UTF0, UTF0)))))
  const UTFMB := Alt(UTF2, Alt(UTF3, UTF4))
  const UTF8 := Alt(UTF1, UTFMB)

  lemma Measure3()
    ensures Proper(UTF3) && Shortest(UTF3) == 3 && Missing(UTF3) == 2
  {
    var tail := Cat(UTF0, UTF0);
    assert Proper(tail) && Shortest(tail) == 2 && Missing(tail) == 1;
    MeasureLead(Byte(0xe0), Cat(Range(0xa0, 0xbf), UTF0), 2);
    MeasureLead(Range(0xe1, 0xec), tail, 2);
    MeasureLead(Byte(0xed), Cat(Range(0x80, 0x9f), UTF0), 2);
    MeasureLead(Range(0xee, 0xef), tail, 2);
  }

  lemma Measure4()
    ensures Proper(UTF4) && Shortest(UTF4) == 4 && Missing(UTF4) == 3
  {
    var tail := Cat(UTF0, UTF0);
    assert Proper(tail) && Shortest(tail) == 2 && Missing(tail) == 1;
    MeasureLead(Range(0x90, 0xbf), tail, 2);
    MeasureLead(UTF0, tail, 2);
    MeasureLead(Range(0x80, 0x8f), tail, 2);
    MeasureLead(Byte(0xf0), Cat(Range(0x90, 0xbf), tail), 3);
    MeasureLead(Range(0xf1, 0xf3), Cat(UTF0, tail), 3);
    MeasureLead(Byte(0xf4), Cat(Range(0x80, 0x8f), tail), 3);
  }

  lemma MeasureLead(lead: Regex, tail: Regex, n: nat)
    requires lead.Range? && Proper(lead) && Proper(tail) && Shortest(tail) == n && Missing(tail) < n
    ensures Proper(Cat(lead, tail)) && Shortest(Cat(lead, tail)) == n + 1 && Missing(Cat(lead, tail)) == n
  {
  }

  lemma MeasureAlt(a: Regex, b: Regex, n: nat, m: nat)
    requires Proper(a) && Proper(b) && Min(Shortest(a), Shortest(b)) == n && Max(Missing(a), Missing(b)) == m
    ensures Proper(Alt(a, b)) && Shortest(Alt(a, b)) == n && Missing(Alt(a, b)) == m
  {
  }

  lemma Measure()
    ensures Proper(UTFMB) && Shortest(UTFMB) == 2 && Missing(UTFMB) == 3
  {
    MeasureLead(Range(0xc2, 0xdf), UTF0, 1);
    Measure3();
    Measure4();
    MeasureAlt(UTF3, UTF4, 3, 3);
    MeasureAlt(UTF2, Alt(UTF3, UTF4), 2, 3);
  }
}
