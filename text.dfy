/**
 * The parts of Go's `strings` and `unicode` packages the engine relies on,
 * over Dafny characters (one character per decoded rune).
 *
 * Case conversion is restricted to ASCII. For the lexer this is exact.
 * lexField compares a slice of as many bytes as the field name has
 * (lex.go:130, 134), and every field name is ASCII. A non-ASCII rune takes
 * at least two bytes, so a slice holding one has fewer runes than the name,
 * and strings.EqualFold rejects it even where the rune would fold to an
 * ASCII letter (as U+017F folds to `s`).
 */
module Text {

  /** ASCII lower-casing of one character. */
  function LowerChar(c: char): char {
    if 'A' <= c <= 'Z' then (c as int + 32) as char else c
  }

  /** strings.ToLower, restricted to ASCII. */
  function Lower(s: string): (r: string)
    ensures |r| == |s|
    ensures forall i :: 0 <= i < |s| ==> r[i] == LowerChar(s[i])
  {
    if |s| == 0 then [] else [LowerChar(s[0])] + Lower(s[1..])
  }

  /** strings.EqualFold, restricted to ASCII. */
  predicate EqualFold(a: string, b: string) {
    |a| == |b| && forall i :: 0 <= i < |a| ==> LowerChar(a[i]) == LowerChar(b[i])
  }

  /**
   * unicode.IsSpace on a rune given as its code (-1 stands for end of
   * input and is not a space): the Latin-1 spaces and the other Unicode
   * White_Space code points.
   */
  predicate IsSpace(r: int) {
    r == 0x09 || r == 0x0A || r == 0x0B || r == 0x0C || r == 0x0D || r == 0x20 ||
    r == 0x85 || r == 0xA0 || r == 0x1680 || (0x2000 <= r <= 0x200A) ||
    r == 0x2028 || r == 0x2029 || r == 0x202F || r == 0x205F || r == 0x3000
  }
}
