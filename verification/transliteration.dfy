/**
 * The transliteration `unidecode` performs, restricted to the Latin-1 word
 * characters and the ligatures French text uses: accented Latin letters
 * become their ASCII base letter, the ligatures and thorns become two
 * letters, the superscript digits become digits, the vulgar fractions
 * become a blank and a slashed fraction, the no-break space becomes a
 * space, and every other character is kept.
 */
module Transliteration {
  import opened Text

  function TranslitChar(c: char): (r: string)
    ensures |r| >= 1
    ensures c as int < 128 ==> r == [c]
    ensures r == [c] || IsAscii(r)
  {
    if c as int < 128 then [c]
    else if c as int > 0xFF && c != 'œ' && c != 'Œ' then [c]
    else if c in "àáâãäå" then "a" else if c in "ÀÁÂÃÄÅ" then "A"
    else if c == 'æ' then "ae" else if c == 'Æ' then "AE"
    else if c == 'ç' then "c" else if c == 'Ç' then "C"
    else if c in "èéêë" then "e" else if c in "ÈÉÊË" then "E"
    else if c in "ìíîï" then "i" else if c in "ÌÍÎÏ" then "I"
    else if c == 'ñ' then "n" else if c == 'Ñ' then "N"
    else if c in "òóôõöø" then "o" else if c in "ÒÓÔÕÖØ" then "O"
    else if c in "ùúûü" then "u" else if c in "ÙÚÛÜ" then "U"
    else if c in "ýÿ" then "y" else if c == 'Ý' then "Y"
    else if c == 'œ' then "oe" else if c == 'Œ' then "OE"
    else if c == 'ß' then "ss"
    else if c == 'ð' then "d" else if c == 'Ð' then "D"
    else if c == 'þ' then "th" else if c == 'Þ' then "Th"
    else if c == '\U{AA}' then "a" else if c == '\U{BA}' then "o" else if c == '\U{B5}' then "u"
    else if c == '\U{B9}' then "1" else if c == '\U{B2}' then "2" else if c == '\U{B3}' then "3"
    else if c == '\U{BC}' then " 1/4" else if c == '\U{BD}' then " 1/2" else if c == '\U{BE}' then " 3/4"
    else if c == '\U{A0}' then " "
    else [c]
  }

  /** `unidecode(s)`: the transliterations of the characters, concatenated. */
  function Unidecode(s: string): (r: string)
    ensures |r| >= |s|
  {
    if |s| == 0 then "" else TranslitChar(s[0]) + Unidecode(s[1..])
  }

  predicate IsAscii(s: string)
  {
    forall i :: 0 <= i < |s| ==> s[i] as int < 128
  }

  /** ASCII text is left unchanged. */
  lemma {:induction false} UnidecodeAscii(s: string)
    requires IsAscii(s)
    ensures Unidecode(s) == s
  {
    if |s| > 0 {
      UnidecodeAscii(s[1..]);
      assert s == [s[0]] + s[1..];
    }
  }
}
