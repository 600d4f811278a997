/**
 * The parts of an option line of a definition file (`ParseStateLine`,
 * jsf.hh:331-459): the byte selector, the target name, the modifier keywords
 * and the keyword table that follows a `strings`/`istrings` option.
 * Positions past the end of a line read as NUL (see `At`).
 */
module Directives {
  import opened Base
  import opened Table
  import opened LineCleanup
  import opened Automaton

  // ---------------------------------------------------------------- selectors

  /** The escapes of a quoted class: `\t`, `\n`, `\v`, `\b`; any other byte stands for itself. */
  function Unescape(b: Byte): Byte
  {
    if b == 116 then TAB else if b == 110 then LF else if b == 118 then VT else if b == 98 then BS else b
  }

  /**
   * The bytes the `do ... while(first++ != last)` loop of a range visits
   * (jsf.hh:366-367): from `first` upwards, wrapping from 255 to 0, through `last`.
   */
  function Walk(first: Byte, last: Byte): set<Byte>
    decreases (last - first) % 256
  {
    if first == last then {first} else {first} + Walk((first + 1) % 256, last)
  }

  /** Each step of the range walk brings it closer to `last`. */
  lemma StepCloser(f: Byte, last: Byte)
    requires f != last
    ensures (last - (f + 1) % 256) % 256 < (last - f) % 256
  {
  }

  /** A range `x-y` holds x through y; when x > y it wraps through 255 and 0. */
  lemma {:induction false} WalkMembers(first: Byte, last: Byte, b: Byte)
    ensures b in Walk(first, last) <==>
              (first <= last && first <= b <= last) || (first > last && (first <= b || b <= last))
    decreases (last - first) % 256
  {
    if first != last {
      StepCloser(first, last);
      WalkMembers((first + 1) % 256, last, b);
    }
  }

  /**
   * One entry of a quoted class at i: a byte (or escape), or a range of two.
   * Yields the bytes it selects and where the scan resumes.
   */
  function ClassEntry(line: Str, i: nat): (r: (set<Byte>, nat))
    ensures i < r.1
  {
    var j := if At(line, i) == BACKSLASH then i + 1 else i;
    var first := if At(line, i) == BACKSLASH then Unescape(At(line, j)) else At(line, j);
    if At(line, j + 1) == MINUS && At(line, j + 2) != QUOTE then
      var k := if At(line, j + 2) == BACKSLASH then j + 3 else j + 2;
      var last := if At(line, j + 2) == BACKSLASH then Unescape(At(line, k)) else At(line, k);
      (Walk(first, last), k + 1)
    else
      ({first}, j + 1)
  }

  /** The entries of a quoted class from i up to its closing quote or the end of the line. */
  function ClassFrom(line: Str, i: nat): (r: (set<Byte>, nat))
    ensures i <= r.1
    ensures At(line, r.1) == NUL || At(line, r.1) == QUOTE
    decreases |line| - i
  {
    if At(line, i) == NUL || At(line, i) == QUOTE then ({}, i)
    else
      var e := ClassEntry(line, i);
      var rest := ClassFrom(line, e.1);
      (e.0 + rest.0, rest.1)
  }

  datatype Selection = All | Bytes(bytes: set<Byte>)

  predicate Selects(sel: Selection, b: Byte)
  {
    sel.All? || b in sel.bytes
  }

  /** Whether the selector writes any slot, which is when it dereferences `states`. */
  predicate Writes(sel: Selection)
  {
    sel.All? || sel.bytes != {}
  }

  /**
   * The selector at the start of an option line (jsf.hh:335-373): `*`, a quoted
   * class, or nothing (the line then selects no slot). Yields the selection and
   * the position after it.
   */
  function SelectorOf(line: Str): (r: (Selection, nat))
  {
    var i := SkipBlanks(line, 0);
    if At(line, i) == STAR then (All, i + 1)
    else if At(line, i) == QUOTE then
      var c := ClassFrom(line, i + 1);
      (Bytes(c.0), if At(line, c.1) == QUOTE then c.1 + 1 else c.1)
    else (Bytes({}), i)
  }

  /** The slots after the selector points the selected ones at option o. */
  function Select(slots: seq<Option<nat>>, sel: Selection, o: nat): (r: seq<Option<nat>>)
    requires |slots| == SlotCount
    ensures |r| == SlotCount
  {
    seq(SlotCount, b requires 0 <= b < SlotCount => if Selects(sel, b) then Some(o) else slots[b])
  }

  /**
   * The range loop of a class entry: points every slot of the walk from
   * `first` to `last` at o, and leaves the others alone.
   */
  method PointRange(slots: seq<Option<nat>>, first: Byte, last: Byte, o: nat) returns (r: seq<Option<nat>>)
    requires |slots| == SlotCount
    ensures |r| == SlotCount
    ensures forall b :: 0 <= b < SlotCount ==> r[b] == if b in Walk(first, last) then Some(o) else slots[b]
  {
    r := slots;
    var f: Byte := first;
    ghost var visited: set<Byte> := {};
    while true
      invariant |r| == SlotCount
      invariant Walk(first, last) == visited + Walk(f, last)
      invariant forall b :: 0 <= b < SlotCount ==> r[b] == if b in visited then Some(o) else slots[b]
      decreases (last - f) % 256
    {
      r := r[f := Some(o)];
      visited := visited + {f};
      if f == last {
        break;
      }
      StepCloser(f, last);
      f := (f + 1) % 256;
    }
  }

  /**
   * The selector loop: reads the selector, points the selected slots at o, and
   * returns whether it wrote any slot (with `states` null, the first write
   * faults) and where the line continues.
   */
  method ApplySelector(line: Str, slots: seq<Option<nat>>, o: nat) returns (r: seq<Option<nat>>, wrote: bool, next: nat)
    requires |slots| == SlotCount
    ensures r == Select(slots, SelectorOf(line).0, o)
    ensures wrote == Writes(SelectorOf(line).0)
    ensures next == SelectorOf(line).1
  {
    var i := 0;
    while i < |line| && IsBlank(line[i])
      invariant i <= |line| && SkipBlanks(line, i) == SkipBlanks(line, 0)
    {
      i := i + 1;
    }
    if At(line, i) == STAR {
      r := SelectAll(slots, o);
      wrote := true;
      next := i + 1;
    } else if At(line, i) == QUOTE {
      var sel, k;
      r, sel, k := SelectClass(line, i + 1, slots, o);
      wrote := sel != {};
      next := if At(line, k) == QUOTE then k + 1 else k;
    } else {
      r := SelectNone(slots, o);
      wrote := false;
      next := i;
    }
  }

  /** `*`: every slot points at o. */
  method SelectAll(slots: seq<Option<nat>>, o: nat) returns (r: seq<Option<nat>>)
    requires |slots| == SlotCount
    ensures r == Select(slots, All, o)
    ensures forall b :: 0 <= b < SlotCount ==> r[b] == Some(o)
  {
    r := slots;
    var a := 0;
    while a < SlotCount
      invariant a <= SlotCount && |r| == SlotCount
      invariant forall b :: 0 <= b < SlotCount ==> r[b] == if b < a then Some(o) else slots[b]
    {
      r := r[a := Some(o)];
      a := a + 1;
    }
  }

  /** No selector: nothing is written. */
  method SelectNone(slots: seq<Option<nat>>, o: nat) returns (r: seq<Option<nat>>)
    requires |slots| == SlotCount
    ensures r == Select(slots, Bytes({}), o) && r == slots
  {
    r := slots;
  }

  /**
   * The quoted-class loop from i (after the opening quote) to the closing quote
   * or the end of the line: the bytes selected and where the scan stopped;
   * the slots written are those of `Select`.
   */
  method SelectClass(line: Str, i: nat, slots: seq<Option<nat>>, o: nat)
    returns (r: seq<Option<nat>>, sel: set<Byte>, k: nat)
    requires |slots| == SlotCount
    ensures (sel, k) == ClassFrom(line, i)
    ensures r == Select(slots, Bytes(sel), o)
  {
    sel := {};
    k := i;
    r := slots;
    assert {} + ClassFrom(line, k).0 == ClassFrom(line, k).0;
    while At(line, k) != NUL && At(line, k) != QUOTE
      invariant ClassFrom(line, i) == (sel + ClassFrom(line, k).0, ClassFrom(line, k).1)
      invariant |r| == SlotCount
      invariant forall b :: 0 <= b < SlotCount ==> r[b] == if b in sel then Some(o) else slots[b]
      decreases |line| - k
    {
      var e := ClassEntry(line, k);
      var rest := ClassFrom(line, e.1);
      assert ClassFrom(line, k) == (e.0 + rest.0, rest.1);
      assert sel + (e.0 + rest.0) == (sel + e.0) + rest.0;
      r := PointRangeOrByte(r, line, k, o);
      sel := sel + e.0;
      k := e.1;
    }
    assert sel + {} == sel;
    assert forall b :: 0 <= b < SlotCount ==> r[b] == Select(slots, Bytes(sel), o)[b];
  }

  /** One class entry written into the slots, byte or range. */
  method PointRangeOrByte(slots: seq<Option<nat>>, line: Str, k: nat, o: nat) returns (r: seq<Option<nat>>)
    requires |slots| == SlotCount
    ensures |r| == SlotCount
    ensures forall b :: 0 <= b < SlotCount ==> r[b] == if b in ClassEntry(line, k).0 then Some(o) else slots[b]
  {
    var j := if At(line, k) == BACKSLASH then k + 1 else k;
    var first := if At(line, k) == BACKSLASH then Unescape(At(line, j)) else At(line, j);
    if At(line, j + 1) == MINUS && At(line, j + 2) != QUOTE {
      var m := if At(line, j + 2) == BACKSLASH then j + 3 else j + 2;
      var last := if At(line, j + 2) == BACKSLASH then Unescape(At(line, m)) else At(line, m);
      r := PointRange(slots, first, last, o);
    } else {
      r := slots[first := Some(o)];
    }
  }

  // ------------------------------------------------------------ target name

  /** The word at i, empty when i is past the end. */
  function WordAt(line: Str, i: nat): (w: Str)
    ensures NoNul(line) ==> NoNul(w)
  {
    if i <= |line| then line[i..WordEnd(line, i)] else []
  }

  /** The target name after the selector, and where the modifiers start (jsf.hh:374-382). */
  function TargetOf(line: Str, i: nat): (r: (Str, nat))
  {
    var nb := SkipBlanks(line, i);
    (WordAt(line, nb), SkipBlanks(line, WordEnd(line, nb)))
  }

  // ---------------------------------------------------------------- keywords

  /**
   * The keyword hash of jsf.hh:400-406 over the bytes of w from j and the
   * terminating NUL: `n += (c ^ v) + 6; v += 2` in `unsigned char`, stopping
   * after a `=` or the NUL. Yields n and the index after the stopping byte.
   */
  function KeywordHash(w: Str, j: nat, n: Byte, v: Byte): (r: (Byte, nat))
    ensures j < r.1
    decreases |w| - j
  {
    var b := At(w, j);
    var n' := (n + Xor(b, v) + 6) % 256;
    if b == EQUALS || b == NUL then (n', j + 1) else KeywordHash(w, j + 1, n', (v + 2) % 256)
  }

  /** The case of the keyword switch for the hash n: `(n >> 3) & 7`. */
  function BucketOf(n: Byte): (k: nat)
    ensures k < 8
  {
    (n / 8) % 8
  }

  /** The case of the keyword switch a word falls into. */
  function Bucket(w: Str): (k: nat)
    ensures k < 8
  {
    BucketOf(KeywordHash(w, 0, 2, 0).0)
  }

  function Abs(x: int): nat
  {
    if x < 0 then -x else x
  }

  /**
   * The argument `atoi(opt_begin)` of `recolor=`: after the `=` inside the word
   * (which ends at oe); with no `=`, from just past the word's end in the line.
   */
  function RecolorArgument(line: Str, ob: nat, oe: nat): int
    requires ob <= oe <= |line|
  {
    var w := line[ob..oe];
    var after := KeywordHash(w, 0, 2, 0).1;
    if after <= |w| then Atoi(w, after) else Atoi(line, oe + 1)
  }

  /** The modifier word line[ob..oe] applied to option o (jsf.hh:408-421). */
  function ApplyKeyword(o: Opt, line: Str, ob: nat, oe: nat): (r: Opt)
    requires ob <= oe <= |line|
    ensures r.target == o.target && r.table == o.table && (o.buffer ==> r.buffer)
    ensures r.strings == o.strings || r.strings in {1, 2}
  {
    var k := Bucket(line[ob..oe]);
    if k == 0 then o.(recolormark := true)
    else if k == 1 then o.(noeat := true)
    else if k == 2 then o.(recolor := Abs(RecolorArgument(line, ob, oe)) % 256)
    else if k == 3 then o.(mark := true)
    else if k == 4 then o.(strings := 1)
    else if k == 5 then o.(markend := true)
    else if k == 6 then o.(strings := 2)
    else o.(buffer := true)
  }

  /** Every modifier word from i to the end of the line, in order. */
  function ApplyModifiers(o: Opt, line: Str, i: nat): (r: Opt)
    ensures r.target == o.target && r.table == o.table
    ensures r.strings <= 2 || r.strings == o.strings
    decreases |line| - i
  {
    if i >= |line| then o
    else
      var oe := WordEnd(line, i);
      ApplyModifiers(ApplyKeyword(o, line, i, oe), line, SkipBlanks(line, oe))
  }

  /** The hash loop of jsf.hh:401-406 for the word w. */
  method HashKeyword(w: Str) returns (n: Byte, after: nat)
    ensures (n, after) == KeywordHash(w, 0, 2, 0)
  {
    n := 2;
    var v: Byte := 0;
    var j := 0;
    while true
      invariant KeywordHash(w, j, n, v) == KeywordHash(w, 0, 2, 0)
      decreases |w| - j
    {
      var b := At(w, j);
      n := (n + Xor(b, v) + 6) % 256;
      v := (v + 2) % 256;
      j := j + 1;
      if b == EQUALS || b == NUL {
        break;
      }
    }
    after := j;
  }

  /** The modifier loop of jsf.hh:389-423 over the words from i. */
  method ParseModifiers(o: Opt, line: Str, i: nat) returns (r: Opt)
    ensures r == ApplyModifiers(o, line, i)
  {
    r := o;
    var k := i;
    while k < |line|
      invariant ApplyModifiers(r, line, k) == ApplyModifiers(o, line, i)
      decreases |line| - k
    {
      var oe := k;
      while oe < |line| && !IsBlank(line[oe])
        invariant k <= oe <= |line| && WordEnd(line, oe) == WordEnd(line, k)
      {
        oe := oe + 1;
      }
      r := ParseKeyword(r, line, k, oe);
      k := oe;
      while k < |line| && IsBlank(line[k])
        invariant oe <= k <= |line| && SkipBlanks(line, k) == SkipBlanks(line, oe)
      {
        k := k + 1;
      }
    }
  }

  /** One modifier word: its hash, then the switch on its bucket. */
  method ParseKeyword(o: Opt, line: Str, ob: nat, oe: nat) returns (r: Opt)
    requires ob <= oe <= |line|
    ensures r == ApplyKeyword(o, line, ob, oe)
  {
    var n, after := HashKeyword(line[ob..oe]);
    var bucket := (n / 8) % 8;
    if bucket == 0 {
      r := o.(recolormark := true);
    } else if bucket == 1 {
      r := o.(noeat := true);
    } else if bucket == 2 {
      var arg := if after <= oe - ob then Atoi(line[ob..oe], after) else Atoi(line, oe + 1);
      r := o.(recolor := Abs(arg) % 256);
    } else if bucket == 3 {
      r := o.(mark := true);
    } else if bucket == 4 {
      r := o.(strings := 1);
    } else if bucket == 5 {
      r := o.(markend := true);
    } else if bucket == 6 {
      r := o.(strings := 2);
    } else {
      r := o.(buffer := true);
    }
  }

  /**
   * `recolor=N` sets the recolor count to |N| truncated to 8 bits, whatever
   * follows the `=` in the word.
   */
  lemma {:induction false} RecolorSetsAbs(o: Opt, line: Str, ob: nat, oe: nat)
    requires ob + 8 <= oe <= |line|
    requires line[ob] == 114 && line[ob + 1] == 101 && line[ob + 2] == 99 && line[ob + 3] == 111
    requires line[ob + 4] == 108 && line[ob + 5] == 111 && line[ob + 6] == 114 && line[ob + 7] == 61
    ensures ApplyKeyword(o, line, ob, oe) == o.(recolor := Abs(Atoi(line[ob..oe], 8)) % 256)
  {
    var w := line[ob..oe];
    assert w[0] == 114 && w[1] == 101 && w[2] == 99 && w[3] == 111;
    assert w[4] == 108 && w[5] == 111 && w[6] == 114 && w[7] == 61;
    RecolorHash(w);
    assert RecolorArgument(line, ob, oe) == Atoi(w, 8);
  }

  /** A word starting `recolor=` hashes to 85 (bucket 2) and stops after the `=`. */
  lemma RecolorHash(w: Str)
    requires 8 <= |w| && w[0] == 114 && w[1] == 101 && w[2] == 99 && w[3] == 111
    requires w[4] == 108 && w[5] == 111 && w[6] == 114 && w[7] == 61
    ensures KeywordHash(w, 0, 2, 0) == (85, 8) && Bucket(w) == 2
  {
    RecolorHashHead(w);
    RecolorHashTail(w);
  }

  /** `reco`, the first half of the hash of `recolor=`. */
  lemma RecolorHashHead(w: Str)
    requires 8 <= |w| && w[0] == 114 && w[1] == 101 && w[2] == 99 && w[3] == 111
    ensures KeywordHash(w, 0, 2, 0) == KeywordHash(w, 4, 195, 8)
  {
    RecolorXorsHead();
    LiteralStep(w, 0, 2, 0, 114, 122);
    LiteralStep(w, 1, 122, 2, 101, 231);
    LiteralStep(w, 2, 231, 4, 99, 84);
    LiteralStep(w, 3, 84, 6, 111, 195);
  }

  /** The byte xors of `reco` against the running multiplier, worked out apart. */
  lemma RecolorXorsHead()
    ensures Xor(114, 0) == 114 && Xor(101, 2) == 103 && Xor(99, 4) == 103 && Xor(111, 6) == 105
  {
  }

  /** `lor=`, the second half, ending at the `=`. */
  lemma RecolorHashTail(w: Str)
    requires 8 <= |w| && w[4] == 108 && w[5] == 111 && w[6] == 114 && w[7] == 61
    ensures KeywordHash(w, 4, 195, 8) == (85, 8)
  {
    RecolorXorsTail();
    LiteralStep(w, 4, 195, 8, 108, 45);
    LiteralStep(w, 5, 45, 10, 111, 152);
    LiteralStep(w, 6, 152, 12, 114, 28);
  }

  /** The byte xors of `lor=`. */
  lemma RecolorXorsTail()
    ensures Xor(108, 8) == 100 && Xor(111, 10) == 101 && Xor(114, 12) == 126 && Xor(61, 14) == 51
  {
  }

  /** One step of the hash over a known byte c, with its outcome m worked out. */
  lemma LiteralStep(w: Str, j: nat, n: Byte, v: Byte, c: Byte, m: Byte)
    requires j < |w| && w[j] == c && c != EQUALS && c != NUL && m == (n + Xor(c, v) + 6) % 256
    ensures KeywordHash(w, j, n, v) == KeywordHash(w, j + 1, m, (v + 2) % 256)
  {
  }

  /** One byte of the keyword hash that neither is `=` nor ends the word. */
  lemma HashStep(w: Str, j: nat, n: Byte, v: Byte)
    requires j < |w| && w[j] != EQUALS && w[j] != NUL
    ensures KeywordHash(w, j, n, v) == KeywordHash(w, j + 1, (n + Xor(w[j], v) + 6) % 256, (v + 2) % 256)
  {
  }

  /** The effect of the switch for a word of known bucket, other than `recolor=`. */
  lemma BucketEffect(o: Opt, line: Str, ob: nat, oe: nat, k: nat)
    requires ob <= oe <= |line| && Bucket(line[ob..oe]) == k && k != 2
    ensures ApplyKeyword(o, line, ob, oe) ==
              if k == 0 then o.(recolormark := true)
              else if k == 1 then o.(noeat := true)
              else if k == 3 then o.(mark := true)
              else if k == 4 then o.(strings := 1)
              else if k == 5 then o.(markend := true)
              else if k == 6 then o.(strings := 2)
              else o.(buffer := true)
  {
  }

  /** `recolormark` marks the option to recolor the marked region. */
  lemma RecolormarkKeyword(o: Opt, line: Str, ob: nat, oe: nat)
    requires ob + 11 == oe <= |line|
    requires line[ob] == 114 && line[ob + 1] == 101 && line[ob + 2] == 99 && line[ob + 3] == 111
    requires line[ob + 4] == 108 && line[ob + 5] == 111 && line[ob + 6] == 114 && line[ob + 7] == 109
    requires line[ob + 8] == 97 && line[ob + 9] == 114 && line[ob + 10] == 107
    ensures ApplyKeyword(o, line, ob, oe) == o.(recolormark := true)
  {
    var w := line[ob..oe];
    assert |w| == 11 && w[0] == 114 && w[1] == 101 && w[2] == 99 && w[3] == 111 && w[4] == 108 && w[5] == 111 && w[6] == 114 && w[7] == 109 && w[8] == 97 && w[9] == 114 && w[10] == 107;
    RecolormarkBucket(w);
    BucketEffect(o, line, ob, oe, 0);
  }

  lemma RecolormarkBucket(w: Str)
    requires |w| == 11 && w[0] == 114 && w[1] == 101 && w[2] == 99 && w[3] == 111 && w[4] == 108 && w[5] == 111 && w[6] == 114 && w[7] == 109 && w[8] == 97 && w[9] == 114 && w[10] == 107
    ensures Bucket(w) == 0
  {
    RecolormarkHashHead(w);
    RecolormarkHashTail(w);
  }

  lemma RecolormarkHashHead(w: Str)
    requires 11 <= |w| && w[0] == 114 && w[1] == 101 && w[2] == 99 && w[3] == 111 && w[4] == 108
    ensures KeywordHash(w, 0, 2, 0) == KeywordHash(w, 5, 45, 10)
  {
    RecolorHashHead(w);
    RecolorXorsTail();
    LiteralStep(w, 4, 195, 8, 108, 45);
  }

  lemma RecolormarkHashTail(w: Str)
    requires |w| == 11 && w[5] == 111 && w[6] == 114 && w[7] == 109 && w[8] == 97 && w[9] == 114 && w[10] == 107
    ensures KeywordHash(w, 5, 45, 10) == (3, 12)
  {
    assert Xor(0, 22) == 22;
    assert KeywordHash(w, 11, 231, 22) == (3, 12);
    assert Xor(107, 20) == 127;
    HashStep(w, 10, 98, 20);
    assert KeywordHash(w, 10, 98, 20) == (3, 12);
    assert Xor(114, 18) == 96;
    HashStep(w, 9, 252, 18);
    assert KeywordHash(w, 9, 252, 18) == (3, 12);
    assert Xor(97, 16) == 113;
    HashStep(w, 8, 133, 16);
    assert KeywordHash(w, 8, 133, 16) == (3, 12);
    assert Xor(109, 14) == 99;
    HashStep(w, 7, 28, 14);
    assert KeywordHash(w, 7, 28, 14) == (3, 12);
    assert Xor(114, 12) == 126;
    HashStep(w, 6, 152, 12);
    assert KeywordHash(w, 6, 152, 12) == (3, 12);
    assert Xor(111, 10) == 101;
    HashStep(w, 5, 45, 10);
  }

  /** `noeat` makes the option leave its byte unread. */
  lemma NoeatKeyword(o: Opt, line: Str, ob: nat, oe: nat)
    requires ob + 5 == oe <= |line|
    requires line[ob] == 110 && line[ob + 1] == 111 && line[ob + 2] == 101 && line[ob + 3] == 97
    requires line[ob + 4] == 116
    ensures ApplyKeyword(o, line, ob, oe) == o.(noeat := true)
  {
    var w := line[ob..oe];
    assert |w| == 5 && w[0] == 110 && w[1] == 111 && w[2] == 101 && w[3] == 97 && w[4] == 116;
    NoeatBucket(w);
    BucketEffect(o, line, ob, oe, 1);
  }

  lemma NoeatBucket(w: Str)
    requires |w| == 5 && w[0] == 110 && w[1] == 111 && w[2] == 101 && w[3] == 97 && w[4] == 116
    ensures Bucket(w) == 1
  {
    NoeatHashHead(w);
    NoeatHashTail(w);
  }

  lemma NoeatHashHead(w: Str)
    requires 5 <= |w| && w[0] == 110 && w[1] == 111
    ensures KeywordHash(w, 0, 2, 0) == KeywordHash(w, 2, 233, 4)
  {
    assert Xor(111, 2) == 109;
    HashStep(w, 1, 118, 2);
    assert KeywordHash(w, 1, 118, 2) == KeywordHash(w, 2, 233, 4);
    assert Xor(110, 0) == 110;
    HashStep(w, 0, 2, 0);
  }

  lemma NoeatHashTail(w: Str)
    requires |w| == 5 && w[2] == 101 && w[3] == 97 && w[4] == 116
    ensures KeywordHash(w, 2, 233, 4) == (79, 6)
  {
    assert Xor(0, 10) == 10;
    assert KeywordHash(w, 5, 63, 10) == (79, 6);
    assert Xor(116, 8) == 124;
    HashStep(w, 4, 189, 8);
    assert KeywordHash(w, 4, 189, 8) == (79, 6);
    assert Xor(97, 6) == 103;
    HashStep(w, 3, 80, 6);
    assert KeywordHash(w, 3, 80, 6) == (79, 6);
    assert Xor(101, 4) == 97;
    HashStep(w, 2, 233, 4);
  }

  /** `mark` starts the marked region. */
  lemma MarkKeyword(o: Opt, line: Str, ob: nat, oe: nat)
    requires ob + 4 == oe <= |line|
    requires line[ob] == 109 && line[ob + 1] == 97 && line[ob + 2] == 114 && line[ob + 3] == 107
    ensures ApplyKeyword(o, line, ob, oe) == o.(mark := true)
  {
    var w := line[ob..oe];
    assert |w| == 4 && w[0] == 109 && w[1] == 97 && w[2] == 114 && w[3] == 107;
    MarkBucket(w);
    BucketEffect(o, line, ob, oe, 3);
  }

  lemma MarkBucket(w: Str)
    requires |w| == 4 && w[0] == 109 && w[1] == 97 && w[2] == 114 && w[3] == 107
    ensures Bucket(w) == 3
  {
    MarkHashHead(w);
    MarkHashTail(w);
  }

  lemma MarkHashHead(w: Str)
    requires 4 <= |w| && w[0] == 109 && w[1] == 97
    ensures KeywordHash(w, 0, 2, 0) == KeywordHash(w, 2, 222, 4)
  {
    assert Xor(97, 2) == 99;
    HashStep(w, 1, 117, 2);
    assert KeywordHash(w, 1, 117, 2) == KeywordHash(w, 2, 222, 4);
    assert Xor(109, 0) == 109;
    HashStep(w, 0, 2, 0);
  }

  lemma MarkHashTail(w: Str)
    requires |w| == 4 && w[2] == 114 && w[3] == 107
    ensures KeywordHash(w, 2, 222, 4) == (219, 5)
  {
    assert Xor(0, 8) == 8;
    assert KeywordHash(w, 4, 205, 8) == (219, 5);
    assert Xor(107, 6) == 109;
    HashStep(w, 3, 90, 6);
    assert KeywordHash(w, 3, 90, 6) == (219, 5);
    assert Xor(114, 4) == 118;
    HashStep(w, 2, 222, 4);
  }

  /** `strings` makes the option look its buffer up case-sensitively. */
  lemma StringsKeyword(o: Opt, line: Str, ob: nat, oe: nat)
    requires ob + 7 == oe <= |line|
    requires line[ob] == 115 && line[ob + 1] == 116 && line[ob + 2] == 114 && line[ob + 3] == 105
    requires line[ob + 4] == 110 && line[ob + 5] == 103 && line[ob + 6] == 115
    ensures ApplyKeyword(o, line, ob, oe) == o.(strings := 1)
  {
    var w := line[ob..oe];
    assert |w| == 7 && w[0] == 115 && w[1] == 116 && w[2] == 114 && w[3] == 105 && w[4] == 110 && w[5] == 103 && w[6] == 115;
    StringsBucket(w);
    BucketEffect(o, line, ob, oe, 4);
  }

  lemma StringsBucket(w: Str)
    requires |w| == 7 && w[0] == 115 && w[1] == 116 && w[2] == 114 && w[3] == 105 && w[4] == 110 && w[5] == 103 && w[6] == 115
    ensures Bucket(w) == 4
  {
    StringsHashHead(w);
    StringsHashTail(w);
  }

  lemma StringsHashHead(w: Str)
    requires 7 <= |w| && w[0] == 115 && w[1] == 116 && w[2] == 114
    ensures KeywordHash(w, 0, 2, 0) == KeywordHash(w, 3, 115, 6)
  {
    assert Xor(114, 4) == 118;
    HashStep(w, 2, 247, 4);
    assert KeywordHash(w, 2, 247, 4) == KeywordHash(w, 3, 115, 6);
    assert Xor(116, 2) == 118;
    HashStep(w, 1, 123, 2);
    assert KeywordHash(w, 1, 123, 2) == KeywordHash(w, 3, 115, 6);
    assert Xor(115, 0) == 115;
    HashStep(w, 0, 2, 0);
  }

  lemma StringsHashTail(w: Str)
    requires |w| == 7 && w[3] == 105 && w[4] == 110 && w[5] == 103 && w[6] == 115
    ensures KeywordHash(w, 3, 115, 6) == (96, 8)
  {
    assert Xor(0, 14) == 14;
    assert KeywordHash(w, 7, 76, 14) == (96, 8);
    assert Xor(115, 12) == 127;
    HashStep(w, 6, 199, 12);
    assert KeywordHash(w, 6, 199, 12) == (96, 8);
    assert Xor(103, 10) == 109;
    HashStep(w, 5, 84, 10);
    assert KeywordHash(w, 5, 84, 10) == (96, 8);
    assert Xor(110, 8) == 102;
    HashStep(w, 4, 232, 8);
    assert KeywordHash(w, 4, 232, 8) == (96, 8);
    assert Xor(105, 6) == 111;
    HashStep(w, 3, 115, 6);
  }

  /** `markend` ends the marked region. */
  lemma MarkendKeyword(o: Opt, line: Str, ob: nat, oe: nat)
    requires ob + 7 == oe <= |line|
    requires line[ob] == 109 && line[ob + 1] == 97 && line[ob + 2] == 114 && line[ob + 3] == 107
    requires line[ob + 4] == 101 && line[ob + 5] == 110 && line[ob + 6] == 100
    ensures ApplyKeyword(o, line, ob, oe) == o.(markend := true)
  {
    var w := line[ob..oe];
    assert |w| == 7 && w[0] == 109 && w[1] == 97 && w[2] == 114 && w[3] == 107 && w[4] == 101 && w[5] == 110 && w[6] == 100;
    MarkendBucket(w);
    BucketEffect(o, line, ob, oe, 5);
  }

  lemma MarkendBucket(w: Str)
    requires |w| == 7 && w[0] == 109 && w[1] == 97 && w[2] == 114 && w[3] == 107 && w[4] == 101 && w[5] == 110 && w[6] == 100
    ensures Bucket(w) == 5
  {
    MarkendHashHead(w);
    MarkendHashTail(w);
  }

  lemma MarkendHashHead(w: Str)
    requires 7 <= |w| && w[0] == 109 && w[1] == 97 && w[2] == 114
    ensures KeywordHash(w, 0, 2, 0) == KeywordHash(w, 3, 90, 6)
  {
    assert Xor(114, 4) == 118;
    HashStep(w, 2, 222, 4);
    assert KeywordHash(w, 2, 222, 4) == KeywordHash(w, 3, 90, 6);
    assert Xor(97, 2) == 99;
    HashStep(w, 1, 117, 2);
    assert KeywordHash(w, 1, 117, 2) == KeywordHash(w, 3, 90, 6);
    assert Xor(109, 0) == 109;
    HashStep(w, 0, 2, 0);
  }

  lemma MarkendHashTail(w: Str)
    requires |w| == 7 && w[3] == 107 && w[4] == 101 && w[5] == 110 && w[6] == 100
    ensures KeywordHash(w, 3, 90, 6) == (44, 8)
  {
    assert Xor(0, 14) == 14;
    assert KeywordHash(w, 7, 24, 14) == (44, 8);
    assert Xor(100, 12) == 104;
    HashStep(w, 6, 170, 12);
    assert KeywordHash(w, 6, 170, 12) == (44, 8);
    assert Xor(110, 10) == 100;
    HashStep(w, 5, 64, 10);
    assert KeywordHash(w, 5, 64, 10) == (44, 8);
    assert Xor(101, 8) == 109;
    HashStep(w, 4, 205, 8);
    assert KeywordHash(w, 4, 205, 8) == (44, 8);
    assert Xor(107, 6) == 109;
    HashStep(w, 3, 90, 6);
  }

  /** `istrings` makes the option look its buffer up folding case. */
  lemma IstringsKeyword(o: Opt, line: Str, ob: nat, oe: nat)
    requires ob + 8 == oe <= |line|
    requires line[ob] == 105 && line[ob + 1] == 115 && line[ob + 2] == 116 && line[ob + 3] == 114
    requires line[ob + 4] == 105 && line[ob + 5] == 110 && line[ob + 6] == 103 && line[ob + 7] == 115
    ensures ApplyKeyword(o, line, ob, oe) == o.(strings := 2)
  {
    var w := line[ob..oe];
    assert |w| == 8 && w[0] == 105 && w[1] == 115 && w[2] == 116 && w[3] == 114 && w[4] == 105 && w[5] == 110 && w[6] == 103 && w[7] == 115;
    IstringsBucket(w);
    BucketEffect(o, line, ob, oe, 6);
  }

  lemma IstringsBucket(w: Str)
    requires |w| == 8 && w[0] == 105 && w[1] == 115 && w[2] == 116 && w[3] == 114 && w[4] == 105 && w[5] == 110 && w[6] == 103 && w[7] == 115
    ensures Bucket(w) == 6
  {
    IstringsHashHead(w);
    IstringsHashTail(w);
  }

  lemma IstringsHashHead(w: Str)
    requires 8 <= |w| && w[0] == 105 && w[1] == 115 && w[2] == 116 && w[3] == 114
    ensures KeywordHash(w, 0, 2, 0) == KeywordHash(w, 4, 216, 8)
  {
    IstringsHashIs(w);
    IstringsHashTr(w);
  }

  /** `is`, the first two bytes of `istrings`. */
  lemma IstringsHashIs(w: Str)
    requires 2 <= |w| && w[0] == 105 && w[1] == 115
    ensures KeywordHash(w, 0, 2, 0) == KeywordHash(w, 2, 232, 4)
  {
    IstringsXorsHead();
    LiteralStep(w, 0, 2, 0, 105, 113);
    LiteralStep(w, 1, 113, 2, 115, 232);
  }

  /** `tr`, the next two. */
  lemma IstringsHashTr(w: Str)
    requires 4 <= |w| && w[2] == 116 && w[3] == 114
    ensures KeywordHash(w, 2, 232, 4) == KeywordHash(w, 4, 216, 8)
  {
    IstringsXorsHead();
    LiteralStep(w, 2, 232, 4, 116, 94);
    LiteralStep(w, 3, 94, 6, 114, 216);
  }

  /** The byte xors of `istr`. */
  lemma IstringsXorsHead()
    ensures Xor(105, 0) == 105 && Xor(115, 2) == 113 && Xor(116, 4) == 112 && Xor(114, 6) == 116
  {
  }

  lemma IstringsHashTail(w: Str)
    requires |w| == 8 && w[4] == 105 && w[5] == 110 && w[6] == 103 && w[7] == 115
    ensures KeywordHash(w, 4, 216, 8) == (179, 9)
  {
    assert Xor(0, 16) == 16;
    assert KeywordHash(w, 8, 157, 16) == (179, 9);
    assert Xor(115, 14) == 125;
    HashStep(w, 7, 26, 14);
    assert KeywordHash(w, 7, 26, 14) == (179, 9);
    assert Xor(103, 12) == 107;
    HashStep(w, 6, 169, 12);
    assert KeywordHash(w, 6, 169, 12) == (179, 9);
    assert Xor(110, 10) == 100;
    HashStep(w, 5, 63, 10);
    assert KeywordHash(w, 5, 63, 10) == (179, 9);
    assert Xor(105, 8) == 97;
    HashStep(w, 4, 216, 8);
  }

  /** `buffer` starts buffering. */
  lemma BufferKeyword(o: Opt, line: Str, ob: nat, oe: nat)
    requires ob + 6 == oe <= |line|
    requires line[ob] == 98 && line[ob + 1] == 117 && line[ob + 2] == 102 && line[ob + 3] == 102
    requires line[ob + 4] == 101 && line[ob + 5] == 114
    ensures ApplyKeyword(o, line, ob, oe) == o.(buffer := true)
  {
    var w := line[ob..oe];
    assert |w| == 6 && w[0] == 98 && w[1] == 117 && w[2] == 102 && w[3] == 102 && w[4] == 101 && w[5] == 114;
    BufferBucket(w);
    BucketEffect(o, line, ob, oe, 7);
  }

  lemma BufferBucket(w: Str)
    requires |w| == 6 && w[0] == 98 && w[1] == 117 && w[2] == 102 && w[3] == 102 && w[4] == 101 && w[5] == 114
    ensures Bucket(w) == 7
  {
    BufferHashHead(w);
    BufferHashTail(w);
  }

  lemma BufferHashHead(w: Str)
    requires 6 <= |w| && w[0] == 98 && w[1] == 117 && w[2] == 102
    ensures KeywordHash(w, 0, 2, 0) == KeywordHash(w, 3, 79, 6)
  {
    assert Xor(102, 4) == 98;
    HashStep(w, 2, 231, 4);
    assert KeywordHash(w, 2, 231, 4) == KeywordHash(w, 3, 79, 6);
    assert Xor(117, 2) == 119;
    HashStep(w, 1, 106, 2);
    assert KeywordHash(w, 1, 106, 2) == KeywordHash(w, 3, 79, 6);
    assert Xor(98, 0) == 98;
    HashStep(w, 0, 2, 0);
  }

  lemma BufferHashTail(w: Str)
    requires |w| == 6 && w[3] == 102 && w[4] == 101 && w[5] == 114
    ensures KeywordHash(w, 3, 79, 6) == (184, 7)
  {
    assert Xor(0, 12) == 12;
    assert KeywordHash(w, 6, 166, 12) == (184, 7);
    assert Xor(114, 10) == 120;
    HashStep(w, 5, 40, 10);
    assert KeywordHash(w, 5, 40, 10) == (184, 7);
    assert Xor(101, 8) == 109;
    HashStep(w, 4, 181, 8);
    assert KeywordHash(w, 4, 181, 8) == (184, 7);
    assert Xor(102, 6) == 96;
    HashStep(w, 3, 79, 6);
  }

  /** `recolor` without `=` falls into the bucket of `istrings`. */
  lemma BareRecolorKeyword(o: Opt, line: Str, ob: nat, oe: nat)
    requires ob + 7 == oe <= |line|
    requires line[ob] == 114 && line[ob + 1] == 101 && line[ob + 2] == 99 && line[ob + 3] == 111
    requires line[ob + 4] == 108 && line[ob + 5] == 111 && line[ob + 6] == 114
    ensures ApplyKeyword(o, line, ob, oe) == o.(strings := 2)
  {
    var w := line[ob..oe];
    assert |w| == 7 && w[0] == 114 && w[1] == 101 && w[2] == 99 && w[3] == 111 && w[4] == 108 && w[5] == 111 && w[6] == 114;
    BareRecolorBucket(w);
    BucketEffect(o, line, ob, oe, 6);
  }

  lemma BareRecolorBucket(w: Str)
    requires |w| == 7 && w[0] == 114 && w[1] == 101 && w[2] == 99 && w[3] == 111 && w[4] == 108 && w[5] == 111 && w[6] == 114
    ensures Bucket(w) == 6
  {
    BareRecolorHashHead(w);
    BareRecolorHashTail(w);
  }

  lemma BareRecolorHashHead(w: Str)
    requires 7 <= |w| && w[0] == 114 && w[1] == 101 && w[2] == 99
    ensures KeywordHash(w, 0, 2, 0) == KeywordHash(w, 3, 84, 6)
  {
    assert Xor(99, 4) == 103;
    HashStep(w, 2, 231, 4);
    assert KeywordHash(w, 2, 231, 4) == KeywordHash(w, 3, 84, 6);
    assert Xor(101, 2) == 103;
    HashStep(w, 1, 122, 2);
    assert KeywordHash(w, 1, 122, 2) == KeywordHash(w, 3, 84, 6);
    assert Xor(114, 0) == 114;
    HashStep(w, 0, 2, 0);
  }

  lemma BareRecolorHashTail(w: Str)
    requires |w| == 7 && w[3] == 111 && w[4] == 108 && w[5] == 111 && w[6] == 114
    ensures KeywordHash(w, 3, 84, 6) == (48, 8)
  {
    assert Xor(0, 14) == 14;
    assert KeywordHash(w, 7, 28, 14) == (48, 8);
    assert Xor(114, 12) == 126;
    HashStep(w, 6, 152, 12);
    assert KeywordHash(w, 6, 152, 12) == (48, 8);
    assert Xor(111, 10) == 101;
    HashStep(w, 5, 45, 10);
    assert KeywordHash(w, 5, 45, 10) == (48, 8);
    assert Xor(108, 8) == 100;
    HashStep(w, 4, 195, 8);
    assert KeywordHash(w, 4, 195, 8) == (48, 8);
    assert Xor(111, 6) == 105;
    HashStep(w, 3, 84, 6);
  }

  // ----------------------------------------------------------- keyword table

  /** What one line after a `strings`/`istrings` option says (jsf.hh:429-455). */
  datatype TableLine = Done | Entry(key: Str, value: Str) | Skipped

  const DONE: Str := [100, 111, 110, 101]

  /** The first `"` at or after i, or the end. */
  function QuoteEnd(l: Str, i: nat): (k: nat)
    requires i <= |l|
    ensures i <= k <= |l| && (k < |l| ==> l[k] == QUOTE)
    ensures forall j :: i <= j < k ==> l[j] != QUOTE
    decreases |l| - i
  {
    if i < |l| && l[i] != QUOTE then QuoteEnd(l, i + 1) else i
  }

  /**
   * A raw input line as the keyword-table loop reads it: cleaned; `done` (after
   * blanks) ends the table; otherwise an optional opening quote, the key up to
   * the next quote, blanks, and the rest of the line as the target name. An
   * entry with an empty key or an empty name is skipped.
   */
  function TableLineOf(raw: Str): TableLine
  {
    LineEntry(Cleaned(CString(raw)))
  }

  lemma TableLineWellFormed(raw: Str)
    ensures var r := TableLineOf(raw);
            r.Entry? ==> r.key != [] && r.value != [] && NoNul(r.key) && NoNul(r.value)
  {
    CleanedNoNul(CString(raw));
  }

  /** `TableLineOf` for the cleaned line l. */
  function LineEntry(l: Str): (r: TableLine)
    ensures r.Entry? ==> r.key != [] && r.value != [] && (NoNul(l) ==> NoNul(r.key) && NoNul(r.value))
  {
    var i := SkipBlanks(l, 0);
    if l[i..] == DONE then Done
    else
      var k0 := if At(l, i) == QUOTE then i + 1 else i;
      var ke := QuoteEnd(l, k0);
      var v0 := SkipBlanks(l, if ke < |l| then ke + 1 else ke);
      var key := l[k0..ke];
      var value := l[v0..];
      if key != [] && value != [] then Entry(key, value) else Skipped
  }

  /** How each input line would read as a keyword-table line. */
  function Kinds(lines: seq<Str>): (k: seq<TableLine>)
    ensures |k| == |lines|
  {
    seq(|lines|, q requires 0 <= q < |lines| => TableLineOf(lines[q]))
  }

  lemma KindAt(lines: seq<Str>, q: nat)
    requires q < |lines|
    ensures Kinds(lines)[q] == TableLineOf(lines[q])
  {
  }

  predicate EntriesOk(kinds: seq<TableLine>)
  {
    forall q :: 0 <= q < |kinds| && kinds[q].Entry? ==>
      kinds[q].key != [] && kinds[q].value != [] && NoNul(kinds[q].key) && NoNul(kinds[q].value)
  }

  lemma KindsOk(lines: seq<Str>)
    ensures EntriesOk(Kinds(lines))
  {
    var kinds := Kinds(lines);
    forall q | 0 <= q < |lines| && kinds[q].Entry?
      ensures kinds[q].key != [] && kinds[q].value != [] && NoNul(kinds[q].key) && NoNul(kinds[q].value)
    {
      KindAt(lines, q);
      TableLineWellFormed(lines[q]);
    }
  }

  /**
   * The keyword table read from the lines from p on (given as their kinds): the
   * entries in input order, and the index of the first line not consumed
   * (after `done`, or the end of input).
   */
  function TableFrom(kinds: seq<TableLine>, p: nat): (r: (seq<Item<Target>>, nat))
    requires p <= |kinds|
    ensures p <= r.1 <= |kinds|
    decreases |kinds| - p
  {
    if p == |kinds| then ([], p)
    else match kinds[p]
      case Done => ([], p + 1)
      case Skipped => TableFrom(kinds, p + 1)
      case Entry(k, v) =>
        var rest := TableFrom(kinds, p + 1);
        ([Item(k, Name(v))] + rest.0, rest.1)
  }

  /** Every entry has a non-empty key and a non-empty target name, neither holding a NUL. */
  predicate EntriesWellFormed(t: seq<Item<Target>>)
  {
    forall j :: 0 <= j < |t| ==>
      t[j].token != [] && NoNul(t[j].token) && t[j].payload.Name? &&
      t[j].payload.name != [] && NoNul(t[j].payload.name)
  }

  /** The table read has well-formed entries only. */
  lemma {:induction false} TableEntriesWellFormed(kinds: seq<TableLine>, p: nat)
    requires p <= |kinds| && EntriesOk(kinds)
    ensures EntriesWellFormed(TableFrom(kinds, p).0)
    decreases |kinds| - p
  {
    if p < |kinds| && !kinds[p].Done? {
      TableEntriesWellFormed(kinds, p + 1);
      var rest := TableFrom(kinds, p + 1).0;
      if kinds[p].Entry? {
        assert kinds[p].key != [] && kinds[p].value != [] && NoNul(kinds[p].key) && NoNul(kinds[p].value);
        var head := Item(kinds[p].key, Name(kinds[p].value));
        assert TableFrom(kinds, p).0 == [head] + rest;
      } else {
        assert TableFrom(kinds, p).0 == rest;
      }
    }
  }

  /**
   * The table ends at the first `done` line, consuming it, or at the end of the
   * input; every line before that is read as an entry or skipped.
   */
  lemma {:induction false} TableEndsAtDone(kinds: seq<TableLine>, p: nat)
    requires p <= |kinds|
    ensures var r := TableFrom(kinds, p);
            (forall q :: p <= q < r.1 - 1 ==> !kinds[q].Done?) &&
            (r.1 == |kinds| || (r.1 > p && kinds[r.1 - 1].Done?))
    ensures |TableFrom(kinds, p).0| <= TableFrom(kinds, p).1 - p
    decreases |kinds| - p
  {
    if p == |kinds| {
    } else if kinds[p].Done? {
      assert TableFrom(kinds, p) == ([], p + 1);
    } else {
      TableEndsAtDone(kinds, p + 1);
    }
  }

  /** The keyword-table loop of jsf.hh:426-456, before the sort. */
  method ReadTable(lines: seq<Str>, p: nat) returns (entries: seq<Item<Target>>, next: nat)
    requires p <= |lines|
    ensures (entries, next) == TableFrom(Kinds(lines), p)
  {
    ghost var kinds := Kinds(lines);
    ghost var whole := TableFrom(kinds, p);
    entries := [];
    next := p;
    var done := false;
    assert [] + TableFrom(kinds, p).0 == TableFrom(kinds, p).0;
    while next < |lines| && !done
      invariant p <= next <= |lines|
      invariant !done ==> entries + TableFrom(kinds, next).0 == whole.0 && TableFrom(kinds, next).1 == whole.1
      invariant done ==> entries == whole.0 && next == whole.1
      decreases |lines| - next
    {
      var t := ReadTableLine(lines, next);
      TableAdvance(kinds, next, entries, whole);
      if t.Done? {
        done := true;
      } else if t.Entry? {
        entries := entries + [Item(t.key, Name(t.value))];
      }
      next := next + 1;
    }
    if !done {
      assert TableFrom(kinds, next).0 == [];
      assert entries + [] == entries;
    }
  }

  /** Reads line q of the table. */
  method ReadTableLine(lines: seq<Str>, q: nat) returns (t: TableLine)
    requires q < |lines|
    ensures t == Kinds(lines)[q]
  {
    t := TableLineOf(lines[q]);
    KindAt(lines, q);
  }

  /** The loop invariant of the table loop carried over one line. */
  lemma TableAdvance(kinds: seq<TableLine>, p: nat, entries: seq<Item<Target>>, whole: (seq<Item<Target>>, nat))
    requires p < |kinds| && entries + TableFrom(kinds, p).0 == whole.0 && TableFrom(kinds, p).1 == whole.1
    ensures kinds[p].Done? ==> entries == whole.0 && p + 1 == whole.1
    ensures kinds[p].Skipped? ==> entries + TableFrom(kinds, p + 1).0 == whole.0 && TableFrom(kinds, p + 1).1 == whole.1
    ensures kinds[p].Entry? ==>
              var item := Item(kinds[p].key, Name(kinds[p].value));
              (entries + [item]) + TableFrom(kinds, p + 1).0 == whole.0 && TableFrom(kinds, p + 1).1 == whole.1
  {
    var t := kinds[p];
    TableStep(kinds, p, t);
    if t.Done? {
      assert entries + [] == entries;
    } else if t.Entry? {
      var item := Item(t.key, Name(t.value));
      assert entries + ([item] + TableFrom(kinds, p + 1).0) == (entries + [item]) + TableFrom(kinds, p + 1).0;
    }
  }

  /** One line of the table loop, read from its kind. */
  lemma TableStep(kinds: seq<TableLine>, p: nat, t: TableLine)
    requires p < |kinds| && kinds[p] == t
    ensures t.Done? ==> TableFrom(kinds, p) == ([], p + 1)
    ensures t.Skipped? ==> TableFrom(kinds, p) == TableFrom(kinds, p + 1)
    ensures t.Entry? ==> TableFrom(kinds, p).1 == TableFrom(kinds, p + 1).1
    ensures t.Entry? ==> TableFrom(kinds, p).0 == [Item(t.key, Name(t.value))] + TableFrom(kinds, p + 1).0
  {
  }
}
