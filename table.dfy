/**
 * The sorted lookup table of jsf.hh (`TabType` of `table_item`): colour names,
 * state names and keyword tables are arrays of (token, payload) pairs, sorted by
 * `strcmp` and searched by binary search (`findstate`, `findstate_i`).
 */
module Table {
  import opened Base

  datatype Item<P> = Item(token: Str, payload: P)

  /** `strcmp(a, b) <= 0` on NUL-free strings: byte-wise, unsigned, a proper prefix first. */
  predicate LexLeq(a: Str, b: Str)
    decreases |a|
  {
    |a| == 0 || (|b| > 0 && (a[0] < b[0] || (a[0] == b[0] && LexLeq(a[1..], b[1..]))))
  }

  predicate LexLt(a: Str, b: Str)
  {
    LexLeq(a, b) && a != b
  }

  lemma LexTotal(a: Str, b: Str)
    ensures LexLeq(a, b) || LexLeq(b, a)
  {
  }

  lemma LexAntisymmetric(a: Str, b: Str)
    requires LexLeq(a, b) && LexLeq(b, a)
    ensures a == b
  {
    if |a| > 0 && |b| > 0 && a[0] == b[0] {
      LexAntisymmetric(a[1..], b[1..]);
      assert a == [a[0]] + a[1..];
      assert b == [b[0]] + b[1..];
    }
  }

  lemma LexTransitive(a: Str, b: Str, c: Str)
    requires LexLeq(a, b) && LexLeq(b, c)
    ensures LexLeq(a, c)
  {
    if |a| > 0 && |b| > 0 && |c| > 0 && a[0] == b[0] == c[0] {
      LexTransitive(a[1..], b[1..], c[1..]);
    }
  }

  /** The comparison view of a token: itself, or its lower-cased form for `istrings`. */
  function View(s: Str, fold: bool): Str
  {
    if fold then Lower(s) else s
  }

  predicate Sorted<P>(t: seq<Item<P>>)
  {
    forall i, j :: 0 <= i < j < |t| ==> LexLeq(t[i].token, t[j].token)
  }

  /** The table's order agrees with the order the search compares in. */
  predicate SortedBy<P>(t: seq<Item<P>>, fold: bool)
  {
    forall i, j :: 0 <= i < j < |t| ==> LexLeq(View(t[i].token, fold), View(t[j].token, fold))
  }

  predicate TokensNoNul<P>(t: seq<Item<P>>)
  {
    forall i :: 0 <= i < |t| ==> NoNul(t[i].token)
  }

  /** `x` inserted into a sorted table after every entry that sorts strictly before it. */
  function Insert<P>(x: Item<P>, s: seq<Item<P>>): (r: seq<Item<P>>)
    requires Sorted(s)
    ensures Sorted(r)
    ensures multiset(r) == multiset(s) + multiset{x}
    ensures |r| == |s| + 1
  {
    if s == [] then [x]
    else if LexLeq(x.token, s[0].token) then
      assert forall j :: 0 < j < |s| ==> LexLeq(s[0].token, s[j].token);
      forall j | 0 < j < |s| ensures LexLeq(x.token, s[j].token) {
        LexTransitive(x.token, s[0].token, s[j].token);
      }
      [x] + s
    else
      var rest := Insert(x, s[1..]);
      LexTotal(x.token, s[0].token);
      InsertAfterHead(x, s, rest);
      [s[0]] + rest
  }

  /** The head of a sorted table stays in front of x inserted into its tail. */
  lemma InsertAfterHead<P>(x: Item<P>, s: seq<Item<P>>, rest: seq<Item<P>>)
    requires Sorted(s) && |s| > 0 && LexLeq(s[0].token, x.token)
    requires Sorted(rest) && multiset(rest) == multiset(s[1..]) + multiset{x}
    ensures Sorted([s[0]] + rest) && multiset([s[0]] + rest) == multiset(s) + multiset{x}
  {
    assert s == [s[0]] + s[1..];
    forall j | 0 <= j < |rest| ensures LexLeq(s[0].token, rest[j].token) {
      assert rest[j] in multiset(rest);
      if rest[j] != x {
        assert rest[j] in multiset(s[1..]);
        var k :| 0 <= k < |s[1..]| && s[1..][k] == rest[j];
        assert s[k + 1] == rest[j];
      }
    }
  }

  /**
   * `sort` (jsf.hh:608-627): the table's entries rearranged into `strcmp` order of
   * their tokens. The source hands this to `std::sort` or `qsort`; only the result
   * is modelled, here built by insertion.
   */
  method Sort<P>(t: seq<Item<P>>) returns (r: seq<Item<P>>)
    ensures Sorted(r)
    ensures multiset(r) == multiset(t)
  {
    r := [];
    var i := 0;
    while i < |t|
      invariant 0 <= i <= |t|
      invariant Sorted(r)
      invariant multiset(r) == multiset(t[..i])
    {
      r := Insert(t[i], r);
      assert t[..i + 1] == t[..i] + [t[i]];
      i := i + 1;
    }
    assert t[..|t|] == t;
  }

  /** The byte `m.token[n]` as the `int c` of the search sees it: a `char`, signed or not. */
  function Tail(b: Byte, signedChar: bool): int
  {
    if signedChar && b >= 128 then b - 256 else b
  }

  function Fold(b: Byte, fold: bool): Byte
  {
    if fold then ToLower(b) else b
  }

  /**
   * The value `c` one probe of `findstate` (fold false) or `findstate_i` (fold
   * true) computes for table token `token` and the n-byte key `key`: `strncmp`
   * (or `strnicmp`) over the key's bytes, and when they agree, `token[n]` (zero
   * means the token ends there, a match). Negative sends the search right.
   */
  function Probe(token: Str, key: Str, fold: bool, signedChar: bool): int
    decreases |key|
  {
    if |key| == 0 then Tail(At(token, 0), signedChar)
    else
      var a := Fold(At(token, 0), fold);
      var b := Fold(key[0], fold);
      if a != b then a - b
      else if a == NUL then Tail(At(token, |key|), signedChar)
      else Probe(token[1..], key[1..], fold, signedChar)
  }

  lemma LowerTail(s: Str)
    requires |s| > 0
    ensures Lower(s)[1..] == Lower(s[1..])
  {
  }

  /** With unsigned bytes, a probe agrees with `strcmp` order on the compared views. */
  lemma {:induction false} ProbeSign(token: Str, key: Str, fold: bool)
    requires NoNul(token) && NoNul(key)
    ensures var c := Probe(token, key, fold, false);
            var t, k := View(token, fold), View(key, fold);
            && (c == 0 <==> t == k)
            && (c < 0 <==> LexLt(t, k))
            && (c > 0 <==> LexLt(k, t))
    decreases |key|
  {
    var t, k := View(token, fold), View(key, fold);
    if |key| == 0 {
      assert |k| == 0;
      assert LexLeq(k, t);
    } else if |token| == 0 {
      assert |t| == 0 && |k| > 0;
      assert LexLeq(t, k);
    } else {
      var a := Fold(token[0], fold);
      var b := Fold(key[0], fold);
      assert t[0] == a && k[0] == b;
      if a == b {
        ProbeSign(token[1..], key[1..], fold);
        if fold {
          LowerTail(token);
          LowerTail(key);
        }
        assert t[1..] == View(token[1..], fold) && k[1..] == View(key[1..], fold);
        assert t == [t[0]] + t[1..] && k == [k[0]] + k[1..];
      }
    }
  }

  /**
   * The binary search of `findstate` (fold false) and `findstate_i` (fold true)
   * over table[begin..end], as a function of the table.
   */
  function Lookup<P>(table: seq<Item<P>>, key: Str, fold: bool, signedChar: bool, begin: nat, end: nat): Option<P>
    requires begin <= end <= |table|
    decreases end - begin
  {
    if begin >= end then None
    else
      var half := (end - begin) / 2;
      var c := Probe(table[begin + half].token, key, fold, signedChar);
      if c == 0 then Some(table[begin + half].payload)
      else if c < 0 then Lookup(table, key, fold, signedChar, begin + half + 1, end)
      else Lookup(table, key, fold, signedChar, begin, begin + half)
  }

  predicate Matches<P>(table: seq<Item<P>>, i: int, key: Str, fold: bool)
  {
    0 <= i < |table| && View(table[i].token, fold) == View(key, fold)
  }

  lemma {:induction false} LookupBetween<P>(table: seq<Item<P>>, key: Str, fold: bool, begin: nat, end: nat)
    requires NoNul(key) && TokensNoNul(table) && SortedBy(table, fold)
    requires begin <= end <= |table|
    requires forall i :: 0 <= i < begin ==> LexLt(View(table[i].token, fold), View(key, fold))
    requires forall i :: end <= i < |table| ==> LexLt(View(key, fold), View(table[i].token, fold))
    ensures var r := Lookup(table, key, fold, false, begin, end);
            && (r.Some? ==> exists i :: Matches(table, i, key, fold) && table[i].payload == r.value)
            && (r.None? ==> forall i :: !Matches(table, i, key, fold))
    decreases end - begin
  {
    if begin < end {
      var mid := begin + (end - begin) / 2;
      var after := mid + 1;
      LookupStep(table, key, fold, begin, mid, after, end);
      ProbeSign(table[mid].token, key, fold);
      var c := Probe(table[mid].token, key, fold, false);
      if c == 0 {
        assert Matches(table, mid, key, fold);
      } else if c < 0 {
        BelowProbe(table, key, fold, mid);
        LookupBetween(table, key, fold, after, end);
      } else {
        AboveProbe(table, key, fold, mid, end);
        LookupBetween(table, key, fold, begin, mid);
      }
    } else {
      NoMatchOutside(table, key, fold, begin);
    }
  }

  /** One probe of the search, at mid, the middle of table[begin..end]. */
  lemma LookupStep<P>(table: seq<Item<P>>, key: Str, fold: bool, begin: nat, mid: nat, after: nat, end: nat)
    requires begin < end <= |table| && mid == begin + (end - begin) / 2 && after == mid + 1
    ensures var c := Probe(table[mid].token, key, fold, false);
            var r := Lookup(table, key, fold, false, begin, end);
            && (c == 0 ==> r == Some(table[mid].payload))
            && (c < 0 ==> r == Lookup(table, key, fold, false, after, end))
            && (c > 0 ==> r == Lookup(table, key, fold, false, begin, mid))
  {
  }

  /** A probe that sorts before the key puts every entry up to it before the key too. */
  lemma BelowProbe<P>(table: seq<Item<P>>, key: Str, fold: bool, mid: nat)
    requires SortedBy(table, fold) && mid < |table|
    requires LexLt(View(table[mid].token, fold), View(key, fold))
    ensures forall i :: 0 <= i <= mid ==> LexLt(View(table[i].token, fold), View(key, fold))
  {
    var k, tm := View(key, fold), View(table[mid].token, fold);
    forall i | 0 <= i < mid ensures LexLt(View(table[i].token, fold), k) {
      var ti := View(table[i].token, fold);
      LexTransitive(ti, tm, k);
      if ti == k { LexAntisymmetric(tm, k); }
    }
  }

  /** A probe that sorts after the key puts every entry from it to `end` after the key too. */
  lemma AboveProbe<P>(table: seq<Item<P>>, key: Str, fold: bool, mid: nat, end: nat)
    requires SortedBy(table, fold) && mid < end <= |table|
    requires LexLt(View(key, fold), View(table[mid].token, fold))
    ensures forall i :: mid <= i < end ==> LexLt(View(key, fold), View(table[i].token, fold))
  {
    var k, tm := View(key, fold), View(table[mid].token, fold);
    forall i | mid < i < end ensures LexLt(k, View(table[i].token, fold)) {
      var ti := View(table[i].token, fold);
      LexTransitive(k, tm, ti);
      if ti == k { LexAntisymmetric(tm, k); }
    }
  }

  /** With every entry before or after the key, none matches it. */
  lemma NoMatchOutside<P>(table: seq<Item<P>>, key: Str, fold: bool, begin: nat)
    requires begin <= |table|
    requires forall i :: 0 <= i < begin ==> LexLt(View(table[i].token, fold), View(key, fold))
    requires forall i :: begin <= i < |table| ==> LexLt(View(key, fold), View(table[i].token, fold))
    ensures forall i :: !Matches(table, i, key, fold)
  {
  }

  /**
   * On a table sorted in the order it is searched in, with unsigned bytes, the
   * search finds the payload of an entry whose token equals the key (ignoring
   * ASCII case when `fold`), and finds nothing exactly when no entry does. This
   * covers the empty table.
   */
  lemma LookupCorrect<P>(table: seq<Item<P>>, key: Str, fold: bool)
    requires NoNul(key) && TokensNoNul(table) && SortedBy(table, fold)
    ensures var r := Lookup(table, key, fold, false, 0, |table|);
            && (r.Some? ==> exists i :: Matches(table, i, key, fold) && table[i].payload == r.value)
            && (r.None? <==> forall i :: !Matches(table, i, key, fold))
  {
    LookupBetween(table, key, fold, 0, |table|);
  }

  /**
   * The search loop of `findstate`/`findstate_i` (jsf.hh:482-520). `key` holds
   * the n bytes compared; a caller passing n == 0 passes `strlen(s)` bytes.
   */
  method Search<P>(table: seq<Item<P>>, key: Str, fold: bool) returns (r: Option<P>)
    ensures r == Lookup(table, key, fold, false, 0, |table|)
    ensures r.Some? ==> exists i :: 0 <= i < |table| && table[i].payload == r.value
                                  && Probe(table[i].token, key, fold, false) == 0
    ensures NoNul(key) && TokensNoNul(table) && SortedBy(table, fold) ==>
              (r.None? <==> forall i :: !Matches(table, i, key, fold))
  {
    var begin, end := 0, |table|;
    r := None;
    while begin < end
      invariant 0 <= begin <= end <= |table|
      invariant Lookup(table, key, fold, false, begin, end) == Lookup(table, key, fold, false, 0, |table|)
    {
      var half := (end - begin) / 2;
      var mid := begin + half;
      var after := mid + 1;
      LookupStep(table, key, fold, begin, mid, after, end);
      var c := Probe(table[mid].token, key, fold, false);
      if c == 0 {
        r := Some(table[mid].payload);
        break;
      }
      if c < 0 {
        begin := after;
      } else {
        end := mid;
      }
    }
    LookupFound(table, key, fold, 0, |table|);
    if NoNul(key) && TokensNoNul(table) && SortedBy(table, fold) {
      LookupCorrect(table, key, fold);
    }
  }

  /** Whatever the search returns is the payload of an entry the probe called equal. */
  lemma {:induction false} LookupFound<P>(table: seq<Item<P>>, key: Str, fold: bool, begin: nat, end: nat)
    requires begin <= end <= |table|
    ensures var r := Lookup(table, key, fold, false, begin, end);
            r.Some? ==> exists i :: begin <= i < end && table[i].payload == r.value
                                  && Probe(table[i].token, key, fold, false) == 0
    decreases end - begin
  {
    if begin < end {
      var half := (end - begin) / 2;
      LookupFound(table, key, fold, begin + half + 1, end);
      LookupFound(table, key, fold, begin, begin + half);
    }
  }
}

/** Worked cases of the lookup. */
module TableCases {
  import opened Base
  import opened Table

  /**
   * With `char` signed, `c = m.token[n]` is negative for a token byte of 0x80 or
   * more, and the search turns right past a smaller entry: in the sorted table
   * ("ab", "ab\xE9") the key "ab" is not found, though the first entry equals it.
   */
  lemma SignedCharMissesEntry()
    ensures var t := [Item([97, 98], 0), Item([97, 98, 233], 1)];
            && Sorted(t) && Matches(t, 0, [97, 98], false)
            && Lookup(t, [97, 98], false, true, 0, 2) == None
            && Lookup(t, [97, 98], false, false, 0, 2) == Some(0)
  {
    var t := [Item([97, 98], 0), Item([97, 98, 233], 1)];
    assert LexLeq(t[0].token, t[1].token) by {
      assert t[0].token[1..] == [98] && t[1].token[1..] == [98, 233];
      assert LexLeq([98], [98, 233]) by { assert [98][1..] == []; }
    }
    assert Probe([97, 98, 233], [97, 98], false, true) == -23 by {
      assert [97, 98, 233][1..] == [98, 233] && [97, 98][1..] == [98];
      assert [98, 233][1..] == [233] && [98][1..] == [];
    }
    assert Probe([97, 98, 233], [97, 98], false, false) == 233 by {
      assert [97, 98, 233][1..] == [98, 233] && [97, 98][1..] == [98];
      assert [98, 233][1..] == [233] && [98][1..] == [];
    }
    assert Probe([97, 98], [97, 98], false, false) == 0 by {
      assert [97, 98][1..] == [98] && [98][1..] == [];
    }
  }

  /**
   * `findstate_i` searches a table sorted case-sensitively: in ("Z", "_"), sorted
   * because 'Z' < '_', the key "z" is not found although "Z" equals it ignoring case.
   */
  lemma CaseSensitiveOrderMissesFoldedKey()
    ensures var t := [Item([90], 0), Item([95], 1)];
            && Sorted(t) && Matches(t, 0, [122], true)
            && Lookup(t, [122], true, false, 0, 2) == None
  {
    var t := [Item([90], 0), Item([95], 1)];
    assert LexLeq([90], [95]);
    assert Lower([90]) == [122] == Lower([122]);
  }

  /**
   * Keyword classification on the table ("for", "if"): "IF" is not in it as an
   * exact key, and is found (as "if") when case is ignored.
   */
  lemma KeywordCase()
    ensures var t := [Item([102, 111, 114], 2), Item([105, 102], 1)];
            && Lookup(t, [73, 70], false, false, 0, 2) == None
            && Lookup(t, [73, 70], true, false, 0, 2) == Some(1)
  {
    var t := [Item([102, 111, 114], 2), Item([105, 102], 1)];
    KeywordTableSorted(t);
    assert NoNul([73, 70]);
    LookupCorrect(t, [73, 70], false);
    LookupCorrect(t, [73, 70], true);
    assert Lower([73, 70]) == [105, 102];
    assert !Matches(t, 0, [73, 70], true) by { assert Lower(t[0].token) == [102, 111, 114]; }
    assert Matches(t, 1, [73, 70], true);
    assert !Matches(t, 0, [73, 70], false) && !Matches(t, 1, [73, 70], false);
  }

  /** The table of the keyword example is in order both exactly and ignoring case. */
  lemma KeywordTableSorted(t: seq<Item<nat>>)
    requires t == [Item([102, 111, 114], 2), Item([105, 102], 1)]
    ensures SortedBy(t, false) && SortedBy(t, true) && TokensNoNul(t)
  {
    assert LexLeq(t[0].token, t[1].token);
    assert Lower(t[0].token) == [102, 111, 114];
    assert Lower(t[1].token) == [105, 102];
  }
}
