/** Rules that several grammars have in common. */
module Rules {
  import opened Regex

  const ALPHA := Alt(Range(0x41, 0x5a), Range(0x61, 0x7a))
  const LDIGIT := Range(0x31, 0x39)
  const DIGIT := Alt(Byte(0x30), LDIGIT)
  const SPACE := Byte(0x20)
  const HYPHEN := Byte(0x2d)
  const DOT := Byte(0x2e)
  const KEYCHAR := Alt(ALPHA, Alt(DIGIT, HYPHEN))
  const KEYSTRING := Cat(ALPHA, Star(KEYCHAR))
  const NUMBER := Alt(DIGIT, Cat(LDIGIT, Plus(DIGIT)))

  function NumericOid(number: Regex): Regex { Cat(number, Plus(Cat(DOT, number))) }
}
