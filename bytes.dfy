/** Machine types of the ATmega firmware: `unsigned char` counters, 16-bit
    little-endian words, and the conversion of a 16-bit `int` to `unsigned char`. */
module Bytes {

  /** An `unsigned char` used as a number (a counter or a length). */
  type uint8 = x: int | 0 <= x < 256

  /** The 16-bit word whose low byte is `lo` and whose high byte is `hi`. */
  function Word(lo: bv8, hi: bv8): (w: bv16)
    ensures w as int == lo as int + 256 * hi as int
  {
    (hi as bv16 << 8) | lo as bv16
  }

  function HighByte(w: bv16): bv8 { (w >> 8) as bv8 }

  /** Converting a 16-bit `int` to `unsigned char` keeps its low byte: with the
      dropped high byte it rebuilds the word. */
  function ToUnsignedChar(w: bv16): (r: bv8)
    ensures Word(r, HighByte(w)) == w
  {
    (w & 0xFF) as bv8
  }

  /** A word is rebuilt from its two bytes. */
  lemma WordHalves(w: bv16)
    ensures Word(ToUnsignedChar(w), HighByte(w)) == w
  {
  }

  /** The two bytes are recovered from the word they build. */
  lemma HalvesOfWord(lo: bv8, hi: bv8)
    ensures ToUnsignedChar(Word(lo, hi)) == lo && HighByte(Word(lo, hi)) == hi
  {
  }

  lemma SplitMod(x: int, lo: int, hi: int)
    requires 0 <= lo < 256 && x == lo + 256 * hi
    ensures x % 256 == lo
  {
  }

  /** The conversion to `unsigned char` is reduction modulo 256. */
  lemma ToUnsignedCharIsMod(w: bv16)
    ensures ToUnsignedChar(w) as int == w as int % 256
  {
    WordHalves(w);
    SplitMod(w as int, ToUnsignedChar(w) as int, HighByte(w) as int);
  }
}
