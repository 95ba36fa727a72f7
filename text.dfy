/**
 * Character classes and string helpers shared by the server (.NET) and the client (JavaScript).
 */
module Text {

  // ---------------------------------------------------------------------------
  // .NET character classification (char.IsUpper, char.IsLower, char.IsDigit,
  // char.IsLetterOrDigit), exact on U+0000..U+00FF.
  // ---------------------------------------------------------------------------

  /** Unicode category Lu within Latin-1: A-Z, U+00C0..U+00D6, U+00D8..U+00DE. */
  predicate IsUpper(c: char) {
    ('A' <= c <= 'Z') || (0xC0 <= c as int <= 0xD6) || (0xD8 <= c as int <= 0xDE)
  }

  /** Unicode category Ll within Latin-1: a-z, U+00B5, U+00DF..U+00F6, U+00F8..U+00FF. */
  predicate IsLower(c: char) {
    ('a' <= c <= 'z') || c as int == 0xB5 || (0xDF <= c as int <= 0xF6) || (0xF8 <= c as int <= 0xFF)
  }

  /** Unicode category Nd within Latin-1: only 0-9 (superscript digits are No, not Nd). */
  predicate IsDigit(c: char) {
    '0' <= c <= '9'
  }

  /** Any letter (Lu, Ll, and the Lo letters U+00AA and U+00BA) or decimal digit. */
  predicate IsLetterOrDigit(c: char) {
    IsUpper(c) || IsLower(c) || c as int == 0xAA || c as int == 0xBA || IsDigit(c)
  }

  /** char.IsWhiteSpace: the Unicode White_Space property. */
  predicate IsNetWhiteSpace(c: char) {
    var n := c as int;
    (0x09 <= n <= 0x0D) || n == 0x20 || n == 0x85 || n == 0xA0 || n == 0x1680
    || (0x2000 <= n <= 0x200A) || n == 0x2028 || n == 0x2029 || n == 0x202F
    || n == 0x205F || n == 0x3000
  }

  /** string.IsNullOrWhiteSpace on a non-null string. */
  predicate IsNetBlank(s: string) {
    forall i | 0 <= i < |s| :: IsNetWhiteSpace(s[i])
  }

  // ---------------------------------------------------------------------------
  // JavaScript: the characters matched by \s and removed by String.prototype.trim
  // (WhiteSpace and LineTerminator of ECMAScript).
  // ---------------------------------------------------------------------------

  predicate IsJsWhiteSpace(c: char) {
    var n := c as int;
    (0x09 <= n <= 0x0D) || n == 0x20 || n == 0xA0 || n == 0x1680
    || (0x2000 <= n <= 0x200A) || n == 0x2028 || n == 0x2029 || n == 0x202F
    || n == 0x205F || n == 0x3000 || n == 0xFEFF
  }

  function TrimStart(s: string): (r: string)
    ensures |r| <= |s| && r == s[|s| - |r|..]
    ensures r != [] ==> !IsJsWhiteSpace(r[0])
  {
    if s != [] && IsJsWhiteSpace(s[0]) then TrimStart(s[1..]) else s
  }

  function TrimEnd(s: string): (r: string)
    ensures |r| <= |s| && r == s[..|r|]
    ensures r != [] ==> !IsJsWhiteSpace(r[|r| - 1])
  {
    if s != [] && IsJsWhiteSpace(s[|s| - 1]) then TrimEnd(s[..|s| - 1]) else s
  }

  /** String.prototype.trim: leading and trailing white space removed. */
  function Trim(s: string): string {
    TrimEnd(TrimStart(s))
  }

  /** TrimStart removes exactly a prefix of white space. */
  lemma {:induction false} TrimStartDrops(s: string)
    ensures forall i | 0 <= i < |s| - |TrimStart(s)| :: IsJsWhiteSpace(s[i])
  {
    if s != [] && IsJsWhiteSpace(s[0]) {
      TrimStartDrops(s[1..]);
      forall i | 0 <= i < |s| - |TrimStart(s)|
        ensures IsJsWhiteSpace(s[i])
      {
        if i > 0 {
          assert s[i] == s[1..][i - 1];
        }
      }
    }
  }

  /** The trimmed string is empty exactly when every character is white space. */
  lemma TrimEmptyIff(s: string)
    ensures Trim(s) == [] <==> IsJsBlank(s)
  {
    var t := TrimStart(s);
    if Trim(s) == [] {
      // t would start with a non-white-space character, yet TrimEnd removes all of it
      TrimEndEmpty(t);
      assert t == [];
      TrimStartDrops(s);
    }
    if forall i | 0 <= i < |s| :: IsJsWhiteSpace(s[i]) {
      TrimStartAllWhite(s);
    }
  }

  /** Every character is white space: `!s.trim()` holds exactly then (TrimEmptyIff). */
  predicate IsJsBlank(s: string) {
    forall i | 0 <= i < |s| :: IsJsWhiteSpace(s[i])
  }

  /** An all-white-space string is trimmed away entirely. */
  lemma {:induction false} TrimStartAllWhite(s: string)
    requires forall i | 0 <= i < |s| :: IsJsWhiteSpace(s[i])
    ensures TrimStart(s) == []
  {
    if s != [] {
      assert IsJsWhiteSpace(s[0]);
      TrimStartAllWhite(s[1..]);
    }
  }

  /** TrimEnd yields the empty string only on all-white-space input. */
  lemma {:induction false} TrimEndEmpty(s: string)
    requires TrimEnd(s) == []
    ensures forall i | 0 <= i < |s| :: IsJsWhiteSpace(s[i])
  {
    if s != [] {
      var p := s[..|s| - 1];
      TrimEndEmpty(p);
      forall i | 0 <= i < |s|
        ensures IsJsWhiteSpace(s[i])
      {
        if i < |s| - 1 {
          assert s[i] == p[i];
        }
      }
    }
  }

  // ---------------------------------------------------------------------------
  // string.Join and number formatting
  // ---------------------------------------------------------------------------

  /** string.Join(sep, xs). */
  function Join(sep: string, xs: seq<string>): string {
    if |xs| == 0 then ""
    else if |xs| == 1 then xs[0]
    else xs[0] + sep + Join(sep, xs[1..])
  }

  /** `part` occurs in `s` at position `k`. */
  predicate OccursAt(s: string, part: string, k: int) {
    0 <= k <= |s| - |part| && s[k..k + |part|] == part
  }

  /** `part` occurs somewhere in `s`. */
  ghost predicate Contains(s: string, part: string) {
    exists k :: OccursAt(s, part, k)
  }

  /** Every joined element occurs in the joined string. */
  lemma {:induction false} JoinContainsEach(sep: string, xs: seq<string>, j: nat)
    requires j < |xs|
    ensures Contains(Join(sep, xs), xs[j])
  {
    var s := Join(sep, xs);
    if |xs| == 1 {
      assert OccursAt(s, xs[0], 0);
    } else if j == 0 {
      assert OccursAt(s, xs[0], 0);
    } else {
      JoinContainsEach(sep, xs[1..], j - 1);
      var rest := Join(sep, xs[1..]);
      var k :| OccursAt(rest, xs[j], k);
      var off := |xs[0]| + |sep|;
      assert s == (xs[0] + sep) + rest;
      assert s[off + k..off + k + |xs[j]|] == rest[k..k + |xs[j]|];
      assert OccursAt(s, xs[j], off + k);
    }
  }

  function DigitChar(d: nat): (c: char)
    requires d < 10
    ensures IsDigit(c)
  {
    ('0' as int + d) as char
  }

  /** Decimal rendering of a natural number, as `${n}` does in a template literal. */
  function NatToString(n: nat): (s: string)
    ensures |s| > 0 && forall i | 0 <= i < |s| :: IsDigit(s[i])
  {
    if n < 10 then [DigitChar(n)] else NatToString(n / 10) + [DigitChar(n % 10)]
  }

  /** Decimal rendering of an integer, with a leading '-' when negative. */
  function IntToString(i: int): string {
    if i < 0 then "-" + NatToString(-i) else NatToString(i)
  }
}
