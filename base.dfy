/** Bytes, C strings and the small pieces of the C library that the highlighter relies on. */
module Base {

  datatype Option<T> = None | Some(value: T)

  /** An `unsigned char`. */
  type Byte = x: int | 0 <= x < 256

  /** The bytes of a C string up to (not including) its terminating NUL. */
  type Str = seq<Byte>

  const NUL: Byte := 0
  const TAB: Byte := 9
  const LF: Byte := 10
  const VT: Byte := 11
  const FF: Byte := 12
  const CR: Byte := 13
  const BS: Byte := 8
  const SPACE: Byte := 32
  const QUOTE: Byte := 34     // '"'
  const HASH: Byte := 35      // '#'
  const STAR: Byte := 42      // '*'
  const PLUS: Byte := 43      // '+'
  const MINUS: Byte := 45     // '-'
  const COLON: Byte := 58     // ':'
  const EQUALS: Byte := 61    // '='
  const BACKSLASH: Byte := 92 // '\\'
  const UNDERSCORE: Byte := 95
  const DIGIT0: Byte := 48

  /** s[i] as C reads it: past the end of the string it sees the terminating NUL. */
  function At(s: Str, i: nat): Byte
  {
    if i < |s| then s[i] else NUL
  }

  predicate NoNul(s: Str)
  {
    forall i :: 0 <= i < |s| ==> s[i] != NUL
  }

  /** What a C string function sees of a buffer: everything before the first NUL. */
  function CString(s: Str): (r: Str)
    ensures r <= s && NoNul(r)
    ensures |r| < |s| ==> s[|r|] == NUL
  {
    if s == [] || s[0] == NUL then [] else [s[0]] + CString(s[1..])
  }

  /** The two characters the parser skips between words. */
  predicate IsBlank(b: Byte)
  {
    b == SPACE || b == TAB
  }

  /** `isspace` in the C locale, which `strtol` and `atoi` skip. */
  predicate IsCSpace(b: Byte)
  {
    b == SPACE || b == TAB || b == LF || b == VT || b == FF || b == CR
  }

  /** `tolower` in the C locale. */
  function ToLower(b: Byte): (r: Byte)
    ensures (r == NUL) == (b == NUL)
  {
    if 65 <= b <= 90 then b + 32 else b
  }

  function Lower(s: Str): (r: Str)
    ensures |r| == |s|
    ensures forall i :: 0 <= i < |s| ==> r[i] == ToLower(s[i])
  {
    seq(|s|, i requires 0 <= i < |s| => ToLower(s[i]))
  }

  /** `(unsigned char)(a ^ b)` */
  function Xor(a: Byte, b: Byte): Byte
  {
    ((a as bv8) ^ (b as bv8)) as int
  }

  /** The index of the first byte at or after i that is neither space nor tab. */
  function SkipBlanks(s: Str, i: nat): (k: nat)
    ensures i <= k && (i <= |s| ==> k <= |s|)
    ensures k < |s| ==> !IsBlank(s[k])
    ensures forall j :: i <= j < k ==> j < |s| && IsBlank(s[j])
    decreases |s| - i
  {
    if i < |s| && IsBlank(s[i]) then SkipBlanks(s, i + 1) else i
  }

  /** The index of the first space, tab or end of string at or after i. */
  function WordEnd(s: Str, i: nat): (k: nat)
    ensures i <= k && (i <= |s| ==> k <= |s|)
    ensures k < |s| ==> IsBlank(s[k])
    ensures forall j :: i <= j < k ==> j < |s| && !IsBlank(s[j])
    decreases |s| - i
  {
    if i < |s| && !IsBlank(s[i]) then WordEnd(s, i + 1) else i
  }

  /** The value of `b` as a digit in `base`, or -1. */
  function DigitValue(b: Byte, base: nat): (d: int)
    ensures -1 <= d < base
  {
    var v := if 48 <= b <= 57 then b - 48
             else if 97 <= b <= 122 then b - 97 + 10
             else if 65 <= b <= 90 then b - 65 + 10
             else 99;
    if v < base then v else -1
  }

  /** The end of the run of digits of `base` starting at i. */
  function DigitsEnd(s: Str, i: nat, base: nat): (k: nat)
    ensures i <= k && (i <= |s| ==> k <= |s|)
    ensures k < |s| ==> DigitValue(s[k], base) < 0
    decreases |s| - i
  {
    if i < |s| && DigitValue(s[i], base) >= 0 then DigitsEnd(s, i + 1, base) else i
  }

  /** The value of the digits s[i..k] in `base`. */
  function DigitsValue(s: Str, i: nat, k: nat, base: nat): (v: nat)
    requires i <= k <= |s|
    decreases k - i
  {
    if k == i then 0
    else
      var d := DigitValue(s[k - 1], base);
      DigitsValue(s, i, k - 1, base) * base + (if d < 0 then 0 else d)
  }

  datatype Conversion = Conversion(end: nat, value: int)

  /**
   * `strtol(s + i, &end, base)` for base 6, 10 or 16: leading white space, an
   * optional sign, for base 16 an optional `0x`, then digits. With no digits
   * nothing is converted and `end` is `i`. Overflow to LONG_MAX is not modelled.
   */
  function Strtol(s: Str, i: nat, base: nat): (r: Conversion)
    requires base == 6 || base == 10 || base == 16
    requires i <= |s|
    ensures r.end == i || i < r.end <= |s|
  {
    var j := SkipSpaces(s, i);
    var neg := At(s, j) == MINUS;
    var j1 := if At(s, j) == MINUS || At(s, j) == PLUS then j + 1 else j;
    var j2 := if base == 16 && At(s, j1) == DIGIT0 && (At(s, j1 + 1) == 120 || At(s, j1 + 1) == 88)
                 && j1 + 2 < |s| && DigitValue(s[j1 + 2], 16) >= 0
              then j1 + 2 else j1;
    if j2 >= |s| then Conversion(i, 0)
    else
      var k := DigitsEnd(s, j2, base);
      if k == j2 then Conversion(i, 0)
      else
        var v: int := DigitsValue(s, j2, k, base);
        Conversion(k, if neg then -v else v)
  }

  /** `atoi(s + i)`: white space, an optional sign, decimal digits; past the end it reads 0. */
  function Atoi(s: Str, i: nat): int
  {
    if i > |s| then 0
    else
      var j := SkipSpaces(s, i);
      var neg := At(s, j) == MINUS;
      var j1 := if At(s, j) == MINUS || At(s, j) == PLUS then j + 1 else j;
      if j1 > |s| then 0
      else
        var k := DigitsEnd(s, j1, 10);
        var v: int := DigitsValue(s, j1, k, 10);
        if neg then -v else v
  }

  function SkipSpaces(s: Str, i: nat): (k: nat)
    requires i <= |s|
    ensures i <= k <= |s|
    decreases |s| - i
  {
    if i < |s| && IsCSpace(s[i]) then SkipSpaces(s, i + 1) else i
  }
}
