/**
 * The colour-expression evaluator of jsf.hh (`ParseColorDeclaration(char*)`,
 * jsf.hh:226-282) and the colour declaration that feeds the colour table
 * (jsf.hh:283-295).
 */
module Color {
  import opened Base
  import opened Table

  /** Foreground and background palette indexes and style flags, as the evaluator accumulates them. */
  datatype Fields = Fields(fg: Byte, bg: Byte, flags: bv8)

  /**
   * The action table for attribute codes in ANSI order (jsf.hh:268): 0-15 set the
   * foreground, 16-31 the background, 32-37 a style flag. Its -1 entries are
   * written as 255, the `unsigned char` the switch reads; they do nothing.
   */
  const Actions: seq<Byte> := [10, 29, 2, 4, 31, 22, 27, 23, 11, 36, 15, 28, 7, 6, 25, 255, 17, 255, 24, 12, 16, 30, 255, 8]
                            + [35, 0, 9, 19, 255, 3, 14, 20, 21, 33, 32, 34, 1, 13, 255, 255, 5, 26, 255, 255, 18, 37]

  /**
   * The rolling word hash: for each byte up to the next space, tab or end,
   * `c += 90*byte + i; i += 28`, both `unsigned short`.
   */
  function HashFrom(s: Str, j: nat, c: nat, i: nat): nat
    decreases |s| - j
  {
    if j < |s| && !IsBlank(s[j]) then HashFrom(s, j + 1, (c + 90 * (s[j] as int) + i) % 65536, (i + 28) % 65536)
    else c
  }

  /** The table entry a hash selects: `actions[((c + 22) / 26) % 46]`. */
  function ActionOf(hash: nat): (code: Byte)
  {
    Actions[((hash + 22) / 26) % 46]
  }

  /** The action code of the word starting at the beginning of `w`. */
  function WordCode(w: Str): Byte
  {
    ActionOf(HashFrom(w, 0, 0, 0))
  }

  /** What an action code does to the fields (jsf.hh:274-276); the flag shift is truncated to 8 bits. */
  function ApplyCode(f: Fields, code: Byte): Fields
  {
    if code / 16 == 0 then f.(fg := code % 16)
    else if code / 16 == 1 then f.(bg := code % 16)
    else if code % 16 < 8 then f.(flags := f.flags | Bit(code % 16))
    else f
  }

  /** `1u << n` truncated to the 8 bits of `flags`. */
  function Bit(n: nat): bv8
    requires n < 8
  {
    (1 as bv8) << n
  }

  function IsDigitByte(b: Byte): bool
  {
    48 <= b <= 57
  }

  /**
   * One token at k (a byte that is not blank): a hex number of two or more
   * characters; else `?g_NNN` with a digit after the underscore; else a word.
   * Yields where the scan resumes and the updated fields.
   */
  function TokenStep(line: Str, k: nat, f: Fields): (r: (nat, Fields))
    requires k < |line| && !IsBlank(line[k])
    ensures k < r.0 <= |line|
  {
    var h := Strtol(line, k, 16);
    if h.end >= k + 2 then
      var val := h.value % 256;
      (h.end, f.(fg := val % 16, bg := val / 16))
    else if At(line, k + 1) == 103 && At(line, k + 2) == UNDERSCORE && IsDigitByte(At(line, k + 3)) then
      var cube := 48 <= At(line, k + 5) <= 53;
      var d := Strtol(line, k + 3, if cube then 6 else 10);
      var val := ((if cube then 16 else 232) + d.value) % 256;
      var g := if line[k] == 98 then f.(bg := val) else if line[k] == 102 then f.(fg := val) else f;
      (d.end, g)
    else
      (WordEnd(line, k), ApplyCode(f, ActionOf(HashFrom(line, k, 0, 0))))
  }

  /** The fields after evaluating every token from i on, starting from f. */
  function FieldsFrom(line: Str, i: nat, f: Fields): Fields
    requires i <= |line|
    decreases |line| - i
  {
    var k := SkipBlanks(line, i);
    if k >= |line| then f
    else
      var step := TokenStep(line, k, f);
      FieldsFrom(line, step.0, step.1)
  }

  function ColorFields(line: Str): Fields
  {
    FieldsFrom(line, 0, Fields(0, 0, 0))
  }

  /**
   * The packed attribute: `ComposeEditorChar` (passed in, it belongs to the
   * host) of the fields, with bit 31 set when that is zero.
   */
  function Pack(f: Fields, compose: (Byte, Byte, bv8) -> nat): (attr: nat)
    ensures attr != 0
    ensures compose(f.fg, f.bg, f.flags) != 0 ==> attr == compose(f.fg, f.bg, f.flags)
  {
    var a := compose(f.fg, f.bg, f.flags);
    if a == 0 then 0x8000_0000 else a
  }


  /** A hexadecimal token of exactly two digits sets fg to its low and bg to its high digit. */
  lemma {:induction false} HexPairSetsNibbles(line: Str, k: nat, f: Fields)
    requires k + 2 <= |line|
    requires DigitValue(line[k], 16) >= 0 && DigitValue(line[k + 1], 16) >= 0
    requires k + 2 == |line| || IsBlank(line[k + 2])
    ensures TokenStep(line, k, f) == (k + 2, f.(fg := DigitValue(line[k + 1], 16), bg := DigitValue(line[k], 16)))
  {
    assert SkipSpaces(line, k) == k;
    assert DigitsEnd(line, k + 2, 16) == k + 2;
    assert DigitsEnd(line, k, 16) == k + 2;
    var hi, lo := DigitValue(line[k], 16), DigitValue(line[k + 1], 16);
    var v := DigitsValue(line, k, k + 2, 16);
    assert DigitsValue(line, k, k, 16) == 0;
    assert DigitsValue(line, k, k + 1, 16) == hi;
    assert v == hi * 16 + lo;
    assert Strtol(line, k, 16) == Conversion(k + 2, v);
    assert v % 256 == v && v % 16 == lo && v / 16 == hi;
  }

  /**
   * Later tokens override fg and bg: when the next token is a two-digit hex
   * number, the fg and bg accumulated so far make no difference to the result.
   */
  lemma HexTokenOverrides(line: Str, i: nat, f1: Fields, f2: Fields)
    requires i <= |line| && f1.flags == f2.flags
    requires var k := SkipBlanks(line, i);
             k + 2 <= |line| && DigitValue(line[k], 16) >= 0 && DigitValue(line[k + 1], 16) >= 0 &&
             (k + 2 == |line| || IsBlank(line[k + 2]))
    ensures FieldsFrom(line, i, f1) == FieldsFrom(line, i, f2)
  {
    var k := SkipBlanks(line, i);
    HexPairSetsNibbles(line, k, f1);
    HexPairSetsNibbles(line, k, f2);
  }

  lemma OrAbsorbs(x: bv8, b: bv8)
    ensures x | (x | b) == x | b
  {
  }

  lemma OrIncluded(x: bv8, y: bv8, z: bv8)
    requires x | y == y && y | z == z
    ensures x | z == z
  {
  }

  /** An action code only ever adds a flag. */
  lemma ApplyCodeKeepsFlags(f: Fields, code: Byte)
    ensures f.flags | ApplyCode(f, code).flags == ApplyCode(f, code).flags
  {
    if code / 16 >= 2 && code % 16 < 8 {
      OrAbsorbs(f.flags, Bit(code % 16));
    } else {
      OrAbsorbs(f.flags, f.flags);
    }
  }

  /** One token keeps every flag that was set before it. */
  lemma TokenKeepsFlags(line: Str, k: nat, f: Fields)
    requires k < |line| && !IsBlank(line[k])
    ensures f.flags | TokenStep(line, k, f).1.flags == TokenStep(line, k, f).1.flags
  {
    var g := TokenStep(line, k, f).1;
    if g.flags != f.flags {
      ApplyCodeKeepsFlags(f, ActionOf(HashFrom(line, k, 0, 0)));
    }
  }

  /** Flags are only ever OR-ed in: every flag set before the scan is set after it. */
  lemma {:induction false} FlagsOnlyAccumulate(line: Str, i: nat, f: Fields)
    requires i <= |line|
    ensures f.flags | FieldsFrom(line, i, f).flags == FieldsFrom(line, i, f).flags
    decreases |line| - i
  {
    var k := SkipBlanks(line, i);
    if k < |line| {
      var step := TokenStep(line, k, f);
      TokenKeepsFlags(line, k, f);
      FlagsOnlyAccumulate(line, step.0, step.1);
      var x, y, z := f.flags, step.1.flags, FieldsFrom(line, step.0, step.1).flags;
      OrIncluded(x, y, z);
    }
  }

  /** `bg_123`: a sixth character 0-5 selects the cube, read in base 6 from offset 16. */
  lemma CubeToken(line: Str)
    requires line == [98, 103, 95, 49, 50, 51]
    ensures ColorFields(line) == Fields(0, 67, 0)
  {
    assert SkipSpaces(line, 0) == 0 && DigitsEnd(line, 1, 16) == 1 && DigitsEnd(line, 0, 16) == 1;
    assert Strtol(line, 0, 16).end == 1;
    assert SkipSpaces(line, 3) == 3 && DigitsEnd(line, 3, 6) == 6;
    assert DigitsValue(line, 3, 4, 6) == 1;
    assert DigitsValue(line, 3, 5, 6) == 8;
    assert DigitsValue(line, 3, 6, 6) == 51;
    assert Strtol(line, 3, 6) == Conversion(6, 51);
    assert SkipBlanks(line, 6) == 6;
    assert TokenStep(line, 0, Fields(0, 0, 0)) == (6, Fields(0, 67, 0));
    assert SkipBlanks(line, 0) == 0;
    assert FieldsFrom(line, 6, Fields(0, 67, 0)) == Fields(0, 67, 0);
  }

  /** `fg_239`: otherwise the digits are decimal from offset 232, wrapping at 256. */
  lemma GreyToken(line: Str)
    requires line == [102, 103, 95, 50, 51, 57]
    ensures ColorFields(line) == Fields(215, 0, 0)
  {
    assert SkipSpaces(line, 0) == 0 && DigitsEnd(line, 1, 16) == 1 && DigitsEnd(line, 0, 16) == 1;
    assert Strtol(line, 0, 16).end == 1;
    assert SkipSpaces(line, 3) == 3 && DigitsEnd(line, 3, 10) == 6;
    assert DigitsValue(line, 3, 4, 10) == 2;
    assert DigitsValue(line, 3, 5, 10) == 23;
    assert DigitsValue(line, 3, 6, 10) == 239;
    assert Strtol(line, 3, 10) == Conversion(6, 239);
    assert SkipBlanks(line, 6) == 6;
    assert TokenStep(line, 0, Fields(0, 0, 0)) == (6, Fields(215, 0, 0));
    assert SkipBlanks(line, 0) == 0;
    assert FieldsFrom(line, 6, Fields(215, 0, 0)) == Fields(215, 0, 0);
  }

  /**
   * `ParseColorDeclaration(char*)` applied at `line + from`: the token loop over
   * local fields. The result is never zero, so a colour can never be mistaken
   * for "not found".
   */
  method EvalColor(line: Str, from: nat, compose: (Byte, Byte, bv8) -> nat) returns (attr: nat)
    requires from <= |line|
    ensures attr != 0
    ensures attr == Pack(FieldsFrom(line, from, Fields(0, 0, 0)), compose)
  {
    var f := Fields(0, 0, 0);
    var i := from;
    while i < |line|
      invariant i <= |line|
      invariant FieldsFrom(line, i, f) == FieldsFrom(line, from, Fields(0, 0, 0))
      decreases |line| - i
    {
      while i < |line| && IsBlank(line[i])
        invariant i <= |line|
        invariant FieldsFrom(line, i, f) == FieldsFrom(line, from, Fields(0, 0, 0))
      {
        i := i + 1;
      }
      if i >= |line| {
        break;
      }
      i, f := ScanToken(line, i, f);
    }
    attr := compose(f.fg, f.bg, f.flags);
    if attr == 0 {
      attr := 0x8000_0000;
    }
  }

  /** The body of the token loop for the token at k. */
  method ScanToken(line: Str, k: nat, f: Fields) returns (i: nat, g: Fields)
    requires k < |line| && !IsBlank(line[k])
    ensures (i, g) == TokenStep(line, k, f)
  {
    g := f;
    var h := Strtol(line, k, 16);
    if h.end >= k + 2 {
      var val := h.value % 256;
      g := g.(fg := val % 16, bg := val / 16);
      i := h.end;
    } else if At(line, k + 1) == 103 && At(line, k + 2) == UNDERSCORE && IsDigitByte(At(line, k + 3)) {
      var cube := 48 <= At(line, k + 5) <= 53;
      var d := Strtol(line, k + 3, if cube then 6 else 10);
      var val := ((if cube then 16 else 232) + d.value) % 256;
      if line[k] == 98 {
        g := g.(bg := val);
      } else if line[k] == 102 {
        g := g.(fg := val);
      }
      i := d.end;
    } else {
      var c: nat, n: nat := 0, 0;
      i := k;
      while i < |line| && !IsBlank(line[i])
        invariant k <= i <= |line|
        invariant HashFrom(line, i, c, n) == HashFrom(line, k, 0, 0)
        invariant WordEnd(line, i) == WordEnd(line, k)
      {
        c := (c + 90 * (line[i] as int) + n) % 65536;
        n := (n + 28) % 65536;
        i := i + 1;
      }
      g := ApplyCode(g, ActionOf(c));
    }
  }

  /** The colour-table entry a declaration line yields: its first word, and the attribute of the rest. */
  function DeclaredColor(line: Str, compose: (Byte, Byte, bv8) -> nat): Item<nat>
  {
    var b := SkipBlanks(line, 0);
    var e := WordEnd(line, b);
    Item(line[b..e], Pack(FieldsFrom(line, e, Fields(0, 0, 0)), compose))
  }

  /**
   * `ParseColorDeclaration(line, colortable)`: the first word is the colour's
   * name, the rest of the line its expression; the pair is appended to the table.
   */
  method ParseColorDeclaration(line: Str, table: seq<Item<nat>>, compose: (Byte, Byte, bv8) -> nat)
    returns (table': seq<Item<nat>>)
    ensures var b := SkipBlanks(line, 0);
            var e := WordEnd(line, b);
            table' == table + [Item(line[b..e], Pack(FieldsFrom(line, e, Fields(0, 0, 0)), compose))]
    ensures table' == table + [DeclaredColor(line, compose)] && table'[|table|].payload != 0
  {
    var b := 0;
    while b < |line| && IsBlank(line[b])
      invariant b <= |line| && SkipBlanks(line, b) == SkipBlanks(line, 0)
    {
      b := b + 1;
    }
    var e := b;
    while e < |line| && !IsBlank(line[e])
      invariant b <= e <= |line| && WordEnd(line, e) == WordEnd(line, b)
    {
      e := e + 1;
    }
    var attr := EvalColor(line, e, compose);
    table' := table + [Item(line[b..e], attr)];
  }
}
