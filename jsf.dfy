/**
 * The `JSF` class of jsf.hh: a highlighter built from a definition file. The
 * state chain is an arena in declaration order (state i's `next` is state
 * i - 1) with `head` standing for the `states` pointer; the options the slots
 * point at live in an arena of their own.
 */
module Jsf {
  import opened Base
  import opened Table
  import opened LineCleanup
  import opened Color
  import opened Automaton
  import opened Directives
  import opened Engine

  /**
   * Where parsing and binding dereference a null pointer or never stop: an
   * option line writing slots before any state exists, binding with no state,
   * a compressed chain reaching a null target or a null slot, or a chain of
   * zero-width options longer than the step bound.
   */
  datatype ParseFault = NoStateForOption | NoStates | NullTarget | NullSlot | ChainTooLong

  datatype ParseOutcome = Parsed | Failed(fault: ParseFault)

  /** `ApplyState` (jsf.hh:68-77): the position of a highlighting run between calls of `Apply`. */
  class ApplyState {
    var buffer: seq<Byte>
    var buffering: bool
    var recolor: int
    var markbegin: int
    var markend: int
    var recolormark: bool
    var noeat: bool
    var c: Byte
    var s: Option<nat>

    function Cursor(): Engine.Cursor
      reads this
    {
      Engine.Cursor(buffer, buffering, recolor, markbegin, markend, recolormark, noeat, c, s)
    }

    /** A state nobody has initialised yet; `ApplyInit` prepares it. */
    constructor ()
      ensures Cursor() == InitCursor(false, None)
    {
      buffer, buffering, recolor, markbegin, markend := [], false, 0, 0, 0;
      recolormark, noeat, c, s := false, false, 63, None;
    }
  }

  /**
   * The option that the part of an option line from i yields, with lines[p..]
   * the rest of the file: its target name and modifiers, and for `strings`
   * and `istrings` the keyword table read from the following lines, sorted,
   * with `next` the first line after it; otherwise no table and `next == p`.
   */
  ghost predicate OptionRead(line: Str, i: nat, lines: seq<Str>, p: nat, next: nat, o: Opt)
    requires p <= |lines|
  {
    var tgt := TargetOf(line, i);
    var plain := ApplyModifiers(NewOpt(tgt.0), line, tgt.1);
    var table := TableFrom(Kinds(lines), p);
    o.(table := plain.table) == plain &&
    (plain.strings == 0 ==> o.table == [] && next == p) &&
    (plain.strings != 0 ==> Sorted(o.table) && multiset(o.table) == multiset(table.0) && next == table.1)
  }

  /**
   * The part of `ParseStateLine` after the selector, which ended at i: the
   * target name, the modifier words and the keyword table that a `strings` or
   * `istrings` option reads from `lines[p..]`, sorted.
   */
  method ReadOption(line: Str, i: nat, lines: seq<Str>, p: nat) returns (next: nat, o: Opt)
    requires p <= |lines|
    ensures OptionRead(line, i, lines, p, next, o)
    ensures o.target.Name? && forall j :: 0 <= j < |o.table| ==> o.table[j].payload.Name?
    ensures p <= next <= |lines|
  {
    var name, m := ReadTarget(line, i);
    o := ParseModifiers(NewOpt(name), line, m);
    next := p;
    if o.strings != 0 {
      var sorted;
      sorted, next := ReadKeywords(lines, p);
      o := o.(table := sorted);
    }
  }

  /** The target name after the selector and where the modifiers start (jsf.hh:374-382). */
  method ReadTarget(line: Str, i: nat) returns (name: Str, m: nat)
    ensures TargetOf(line, i) == (name, m)
  {
    var nb := i;
    while nb < |line| && IsBlank(line[nb])
      invariant i <= nb && (nb <= |line| || nb == i) && SkipBlanks(line, nb) == SkipBlanks(line, i)
    {
      nb := nb + 1;
    }
    var ne := nb;
    while ne < |line| && !IsBlank(line[ne])
      invariant nb <= ne && (ne <= |line| || ne == nb) && WordEnd(line, ne) == WordEnd(line, nb)
    {
      ne := ne + 1;
    }
    m := ne;
    while m < |line| && IsBlank(line[m])
      invariant ne <= m && (m <= |line| || m == ne) && SkipBlanks(line, m) == SkipBlanks(line, ne)
    {
      m := m + 1;
    }
    name := WordAt(line, nb);
  }

  /**
   * The keyword table of a `strings`/`istrings` option (jsf.hh:424-457): the
   * entries read from lines[p..] up to `done`, sorted, with the first line
   * after them; every entry names a state still to be looked up.
   */
  method ReadKeywords(lines: seq<Str>, p: nat) returns (sorted: seq<Item<Target>>, next: nat)
    requires p <= |lines|
    ensures var table := TableFrom(Kinds(lines), p);
            Sorted(sorted) && multiset(sorted) == multiset(table.0) && next == table.1
    ensures forall j :: 0 <= j < |sorted| ==> sorted[j].payload.Name?
    ensures p <= next <= |lines|
  {
    var entries;
    entries, next := ReadTable(lines, p);
    sorted := Sort(entries);
    KindsOk(lines);
    TableEntriesWellFormed(Kinds(lines), p);
    forall j | 0 <= j < |sorted| ensures sorted[j].payload.Name? {
      assert sorted[j] in multiset(sorted);
      assert sorted[j] in multiset(entries);
    }
  }

  /** The first word of a state line, and the rest of the line after the blanks that follow it. */
  method StateHeader(line: Str) returns (name: Str, key: Str)
    requires NoNul(line)
    ensures var b := SkipBlanks(line, 0);
            var e := WordEnd(line, b);
            name == line[b..e] && key == line[SkipBlanks(line, e)..]
    ensures NoNul(name)
  {
    var b := 0;
    while b < |line| && IsBlank(line[b])
      invariant b <= |line| && SkipBlanks(line, b) == SkipBlanks(line, 0)
    {
      b := b + 1;
    }
    var e := b;
    while e < |line| && !IsBlank(line[e])
      invariant b <= e <= |line| && WordEnd(line, e) == WordEnd(line, b)
    {
      e := e + 1;
    }
    var k := e;
    while k < |line| && IsBlank(line[k])
      invariant e <= k <= |line| && SkipBlanks(line, k) == SkipBlanks(line, e)
    {
      k := k + 1;
    }
    name, key := line[b..e], line[k..];
  }

  /**
   * What `ParseStateLine` does with the option line `line` when it does not
   * fault, from states s0 with head h0 and options o0 to states s1 and options
   * o1: one option is added, built from the line's target name and modifiers,
   * holding the sorted keyword table read from lines[p..] for `strings` and
   * `istrings`; the slots the selector picks in the head state now point at
   * it; `next` is the first line not consumed.
   */
  ghost predicate OptionLineDone(s0: seq<State>, h0: Option<nat>, o0: seq<Opt>, s1: seq<State>, o1: seq<Opt>,
                                 line: Str, lines: seq<Str>, p: nat, next: nat)
    requires p <= |lines| && (h0.Some? ==> h0.value < |s0| && |s0[h0.value].slots| == SlotCount)
  {
    var sel := SelectorOf(line);
    |o1| == |o0| + 1 && o1[..|o0|] == o0 &&
    OptionRead(line, sel.1, lines, p, next, o1[|o0|]) &&
    s1 == (if h0.Some? then s0[h0.value := s0[h0.value].(slots := Select(s0[h0.value].slots, sel.0, |o0|))] else s0)
  }

  /** An option line that does not fault adds no state, keeps every name and colour, and reads on to `OptionEnd`. */
  lemma OptionLineHeaders(s0: seq<State>, h0: Option<nat>, o0: seq<Opt>, s1: seq<State>, o1: seq<Opt>,
                          line: Str, lines: seq<Str>, p: nat, next: nat)
    requires p <= |lines| && (h0.Some? ==> h0.value < |s0| && |s0[h0.value].slots| == SlotCount)
    requires OptionLineDone(s0, h0, o0, s1, o1, line, lines, p, next)
    ensures |s1| == |s0| && HeadersKept(s0, s1) && next == OptionEnd(line, lines, p)
  {
  }

  /** The name a state line (the part after its ':') gives its state: its first word. */
  function StateNameOf(line: Str): Str
  {
    var b := SkipBlanks(line, 0);
    line[b..WordEnd(line, b)]
  }

  /** The colour name a state line asks for: the rest of the line after its first word and the blanks after that. */
  function StateKeyOf(line: Str): Str
  {
    line[SkipBlanks(line, WordEnd(line, SkipBlanks(line, 0)))..]
  }

  /**
   * The state a state line starts: named by its first word, coloured by the
   * colour the rest of the line names in `colortable`, or `errorAttr`.
   */
  function StartedState(line: Str, colortable: seq<Item<nat>>, errorAttr: nat): State
  {
    var found := Lookup<nat>(colortable, StateKeyOf(line), false, false, 0, |colortable|);
    NewState(StateNameOf(line), if found.Some? then found.value else errorAttr)
  }

  /** What a ':' line declares: the state's name, the colour name it asks for, and the colours declared before it. */
  datatype Declared = Declared(name: Str, key: Str, colours: multiset<Item<nat>>)

  /** The colours declared under the name key. */
  function ColoursFor(colours: multiset<Item<nat>>, key: Str): set<nat>
  {
    set c | c in colours && c.token == key :: c.payload
  }

  /**
   * st is the state d declares: it has d's name, and its colour is one of
   * those declared under d's key, or `errorAttr` when there is none. Which
   * one of several is not fixed, since the table is sorted by an unstable sort.
   */
  predicate ColouredAs(st: State, d: Declared, errorAttr: nat)
  {
    var found := ColoursFor(d.colours, d.key);
    st.name == d.name && (if found == {} then st.attr == errorAttr else st.attr in found)
  }

  /** The states from n on are exactly those that ds declares, in order. */
  predicate DeclaredFrom(states: seq<State>, n: nat, ds: seq<Declared>, errorAttr: nat)
  {
    |states| == n + |ds| && forall i :: 0 <= i < |ds| ==> ColouredAs(states[n + i], ds[i], errorAttr)
  }

  /** The colour name of a C-string state line is a C string. */
  lemma StateKeyNoNul(line: Str)
    requires NoNul(line)
    ensures NoNul(StateKeyOf(line))
  {
    var b := SkipBlanks(line, WordEnd(line, SkipBlanks(line, 0)));
    assert StateKeyOf(line) == line[b..|line|];
    SliceNoNul(line, b, |line|);
  }

  /** The colours declared under key are the payloads of the entries of the table whose token is key. */
  lemma ColoursForMatches(table: seq<Item<nat>>, key: Str)
    ensures forall i :: Matches(table, i, key, false) ==> table[i].payload in ColoursFor(multiset(table), key)
    ensures ColoursFor(multiset(table), key) != {} ==> exists i :: Matches(table, i, key, false)
  {
    forall i | Matches(table, i, key, false) ensures table[i].payload in ColoursFor(multiset(table), key) {
      assert table[i] in multiset(table);
    }
    var found := ColoursFor(multiset(table), key);
    if found != {} {
      var x :| x in found;
      var c :| c in multiset(table) && c.token == key && c.payload == x;
      var i :| 0 <= i < |table| && table[i] == c;
      assert Matches(table, i, key, false);
    }
  }

  /** Looking a state line's colour up in a sorted table finds one declared under its name, or the error colour when there is none. */
  lemma StartedColoured(line: Str, colortable: seq<Item<nat>>, errorAttr: nat)
    requires NoNul(line) && Sorted(colortable) && TokensNoNul(colortable)
    ensures ColouredAs(StartedState(line, colortable, errorAttr),
                       Declared(StateNameOf(line), StateKeyOf(line), multiset(colortable)), errorAttr)
  {
    var key := StateKeyOf(line);
    StateKeyNoNul(line);
    assert SortedBy(colortable, false);
    LookupCorrect(colortable, key, false);
    ColoursForMatches(colortable, key);
  }

  /** The first line after an option line, with lines[p..] after it: past its keyword table, if it reads one. */
  function OptionEnd(line: Str, lines: seq<Str>, p: nat): (next: nat)
    requires p <= |lines|
    ensures p <= next <= |lines|
  {
    var tgt := TargetOf(line, SelectorOf(line).1);
    if ApplyModifiers(NewOpt(tgt.0), line, tgt.1).strings != 0 then TableFrom(Kinds(lines), p).1 else p
  }

  /**
   * What one line of `Parse` does: the states it declares, the first line
   * after it, whether it faults, the colours declared after it and whether
   * the colour table is then sorted.
   */
  datatype Effect = Effect(declared: seq<Declared>, next: nat, fault: bool, colours: multiset<Item<nat>>, sorted: bool)

  /**
   * What the cleaned line l does, with lines[p..] after it, `started` telling
   * whether a state exists, `colours` declared so far and `sorted` telling
   * whether the table is sorted. A '=' line declares a colour and leaves the
   * table unsorted; a ':' line sorts the table and declares one state; an
   * option line writing slots faults when no state exists and otherwise reads
   * on past its keyword table; other lines do nothing.
   */
  function LineEffect(l: Str, lines: seq<Str>, p: nat, started: bool, colours: multiset<Item<nat>>, sorted: bool,
                      compose: (Byte, Byte, bv8) -> nat): (r: Effect)
    requires p <= |lines|
    ensures p <= r.next <= |lines|
  {
    if l != [] && l[0] == EQUALS then Effect([], p, false, colours + multiset{DeclaredColor(l[1..], compose)}, false)
    else if l != [] && l[0] == COLON then Effect([Declared(StateNameOf(l[1..]), StateKeyOf(l[1..]), colours)], p, false, colours, true)
    else if l != [] && (l[0] == SPACE || l[0] == TAB) then
      if !started && Writes(SelectorOf(l).0) then Effect([], p, true, colours, sorted)
      else Effect([], OptionEnd(l, lines, p), false, colours, sorted)
    else Effect([], p, false, colours, sorted)
  }

  /** What the lines from some point on do: the states they declare, whether they fault, the colours declared and whether the table is sorted. */
  datatype Walk = Walk(declared: seq<Declared>, fault: bool, colours: multiset<Item<nat>>, sorted: bool)

  /**
   * The lines from p on, each cut at its first NUL and cleaned, handled in
   * turn until one faults; a fault ends the walk with what was declared before.
   */
  function LineWalk(lines: seq<Str>, p: nat, started: bool, colours: multiset<Item<nat>>, sorted: bool,
                    compose: (Byte, Byte, bv8) -> nat): (r: Walk)
    decreases |lines| - p
  {
    if p >= |lines| then Walk([], false, colours, sorted)
    else
      var e := LineEffect(Cleaned(CString(lines[p])), lines, p + 1, started, colours, sorted, compose);
      if e.fault then Walk([], true, e.colours, e.sorted)
      else
        var rest := LineWalk(lines, e.next, started || e.declared != [], e.colours, e.sorted, compose);
        Walk(e.declared + rest.declared, rest.fault, rest.colours, rest.sorted)
  }

  /** States declared earlier keep their declaration while states are added and slots rewritten. */
  lemma DeclaredKept(s0: seq<State>, s1: seq<State>, n: nat, ds: seq<Declared>, added: seq<Declared>, errorAttr: nat)
    requires DeclaredFrom(s0, n, ds, errorAttr) && HeadersKept(s0, s1) && DeclaredFrom(s1, |s0|, added, errorAttr)
    ensures DeclaredFrom(s1, n, ds + added, errorAttr)
  {
    forall i | 0 <= i < |ds + added| ensures ColouredAs(s1[n + i], (ds + added)[i], errorAttr) {
      if i < |ds| {
        assert ColouredAs(s0[n + i], ds[i], errorAttr);
      } else {
        assert ColouredAs(s1[|s0| + (i - |ds|)], added[i - |ds|], errorAttr);
      }
    }
  }

  /**
   * What the body of the loop of `Parse` (jsf.hh:41-59) does with the cleaned
   * line l, taking states s0 (head h0), options o0, the colour table and
   * whether it is sorted, and the lines from p on, to s1, o1, the new table
   * and flag, and the first line not consumed. A '=' line appends
   * `DeclaredColor` and marks the table unsorted; a ':' line sorts the table
   * unless it is sorted and appends `StartedState`; a blank or tab line
   * faults exactly when it writes slots with no state, and otherwise adds
   * its option (`OptionLineDone`); any other line changes nothing.
   */
  ghost predicate LineHandled(l: Str, lines: seq<Str>, p: nat, s0: seq<State>, h0: Option<nat>, o0: seq<Opt>,
                              s1: seq<State>, o1: seq<Opt>, table: seq<Item<nat>>, sorted: bool,
                              p': nat, table': seq<Item<nat>>, sorted': bool, fault: bool,
                              errorAttr: nat, compose: (Byte, Byte, bv8) -> nat)
    requires p <= |lines| && (h0.Some? ==> h0.value < |s0| && |s0[h0.value].slots| == SlotCount)
  {
    (l != [] && l[0] == EQUALS ==>
       table' == table + [DeclaredColor(l[1..], compose)] && !sorted' && p' == p && !fault && s1 == s0 && o1 == o0) &&
    (l != [] && l[0] == COLON ==>
       sorted' && Sorted(table') && multiset(table') == multiset(table) && (sorted ==> table' == table) &&
       p' == p && !fault && s1 == s0 + [StartedState(l[1..], table', errorAttr)] && o1 == o0) &&
    (l != [] && (l[0] == SPACE || l[0] == TAB) ==>
       table' == table && sorted' == sorted && (fault <==> h0.None? && Writes(SelectorOf(l).0)) &&
       (fault ==> s1 == s0 && o1 == o0) && (!fault ==> OptionLineDone(s0, h0, o0, s1, o1, l, lines, p, p'))) &&
    (l == [] || (l[0] != EQUALS && l[0] != COLON && l[0] != SPACE && l[0] != TAB) ==>
       p' == p && table' == table && sorted' == sorted && !fault && s1 == s0 && o1 == o0)
  }

  /**
   * A handled line has the effect `LineEffect` predicts: the same fault, the
   * same next line, the colours and sorted flag it threads on, and the states
   * it declares, each coloured as its declaration says.
   */
  lemma HandledEffect(l: Str, lines: seq<Str>, p: nat, s0: seq<State>, h0: Option<nat>, o0: seq<Opt>,
                      s1: seq<State>, o1: seq<Opt>, table: seq<Item<nat>>, sorted: bool,
                      p': nat, table': seq<Item<nat>>, sorted': bool, fault: bool,
                      errorAttr: nat, compose: (Byte, Byte, bv8) -> nat)
    requires p <= |lines| && (h0.Some? ==> h0.value < |s0| && |s0[h0.value].slots| == SlotCount)
    requires NoNul(l) && TokensNoNul(table) && (h0.None? <==> s0 == [])
    requires LineHandled(l, lines, p, s0, h0, o0, s1, o1, table, sorted, p', table', sorted', fault, errorAttr, compose)
    ensures TokensNoNul(table')
    ensures var e := LineEffect(l, lines, p, s0 != [], multiset(table), sorted, compose);
            fault == e.fault &&
            (!fault ==> p' == e.next && multiset(table') == e.colours && sorted' == e.sorted &&
                        DeclaredFrom(s1, |s0|, e.declared, errorAttr))
  {
    if l != [] && l[0] == EQUALS {
      DeclaredColorNoNul(l[1..], compose);
    } else if l != [] && l[0] == COLON {
      TokensNoNulPerm(table, table');
      StartedColoured(l[1..], table', errorAttr);
      assert s1[|s0|] == StartedState(l[1..], table', errorAttr);
    } else if l != [] && (l[0] == SPACE || l[0] == TAB) && !fault {
      OptionLineHeaders(s0, h0, o0, s1, o1, l, lines, p, p');
    }
  }

  lemma ConcatAssoc<T>(a: seq<T>, b: seq<T>, c: seq<T>)
    ensures a + (b + c) == (a + b) + c
  {
  }

  /** The colour of a declared colour line is a C string when the line is. */
  lemma DeclaredColorNoNul(line: Str, compose: (Byte, Byte, bv8) -> nat)
    requires NoNul(line)
    ensures NoNul(DeclaredColor(line, compose).token)
  {
    var b := SkipBlanks(line, 0);
    var e := WordEnd(line, b);
    assert DeclaredColor(line, compose).token == line[b..e];
    SliceNoNul(line, b, e);
  }

  /** A piece of a C string is a C string. */
  lemma SliceNoNul(s: Str, i: nat, j: nat)
    requires NoNul(s) && i <= j <= |s|
    ensures NoNul(s[i..j])
  {
    forall k | 0 <= k < j - i ensures s[i..j][k] != NUL {
      assert s[i..j][k] == s[i + k];
    }
  }

  /** Tokens without NUL stay so under a rearrangement. */
  lemma TokensNoNulPerm(t: seq<Item<nat>>, u: seq<Item<nat>>)
    requires TokensNoNul(t) && multiset(u) == multiset(t)
    ensures TokensNoNul(u)
  {
    forall i | 0 <= i < |u| ensures NoNul(u[i].token) {
      assert u[i] in multiset(t);
      var j :| 0 <= j < |t| && t[j] == u[i];
    }
  }

  /**
   * The remap and recolor bump that end one hop of the compression
   * (jsf.hh:586-590), on the arenas: option o, now in slot a, is remapped;
   * a null target, or a null slot a in the target, is a fault; otherwise the
   * option that slot holds (`HopOf`) gets recolor 1 when its recolor is 0 and
   * `changed` (the hop skipped a recolor or changed colour). An o outside the
   * arena does not occur in a well-formed arena and counts as a null target.
   */
  function SettleOf(states: seq<State>, options: seq<Opt>, cache: seq<Item<nat>>, a: nat, o: nat, changed: bool)
    : (Option<ParseFault>, seq<Opt>)
  {
    if o >= |options| then (Some(NullTarget), options)
    else
      var mid := options[o := Remapped(options[o], cache)];
      match HopOf(states, options, cache, a, o)
      case None => (Some(if mid[o].target.Null? then NullTarget else NullSlot), mid)
      case Some(f) =>
        if f < |mid| && mid[f].recolor < 1 && changed then (None, mid[f := mid[f].(recolor := 1)]) else (None, mid)
  }

  /** Remapping one option keeps the arenas well formed. */
  lemma RemappedArenaOk(states: seq<State>, options: seq<Opt>, cache: seq<Item<nat>>, o: nat)
    requires WellFormed(states, options) && IsCache(cache, states, |states|) && o < |options|
    ensures WellFormed(states, options[o := Remapped(options[o], cache)])
    ensures TargetOk(Remapped(options[o], cache).target, |states|)
  {
    RemappedOk(options[o], cache, states);
  }

  /** Changing one option's recolor keeps the arenas well formed. */
  lemma RecolorOk(states: seq<State>, options: seq<Opt>, f: nat, v: Byte)
    requires WellFormed(states, options) && f < |options|
    ensures WellFormed(states, options[f := options[f].(recolor := v)])
  {
  }

  /** `SettleOf` keeps the arenas well formed, leaves o mapped, and faults exactly when the hop finds nothing. */
  lemma SettleOk(states: seq<State>, options: seq<Opt>, cache: seq<Item<nat>>, a: nat, o: nat, changed: bool)
    requires WellFormed(states, options) && IsCache(cache, states, |states|) && a < SlotCount && o < |options|
    ensures var r := SettleOf(states, options, cache, a, o, changed);
            && |r.1| == |options| && WellFormed(states, r.1) && Mapped(r.1[o])
            && (r.0.None? <==> HopOf(states, options, cache, a, o).Some?)
  {
    RemappedArenaOk(states, options, cache, o);
    var mid := options[o := Remapped(options[o], cache)];
    if HopOf(states, options, cache, a, o).Some? {
      RecolorOk(states, mid, HopOf(states, options, cache, a, o).value, 1);
    }
  }

  /**
   * What `SettleOf` does to the option arena: it is a binding step for every
   * option; option o is remapped; the option one hop further on (`HopOf`)
   * ends with recolor at least 1 exactly when it had it or `changed`, and
   * its recolor changes only from 0 to 1; every other option is unchanged,
   * and o keeps its recolor unless it is that option itself. A fault is a
   * null target or a null slot.
   */
  lemma SettleBumps(states: seq<State>, options: seq<Opt>, cache: seq<Item<nat>>, a: nat, o: nat, changed: bool)
    requires WellFormed(states, options) && IsCache(cache, states, |states|) && a < SlotCount && o < |options|
    ensures var r := SettleOf(states, options, cache, a, o, changed);
            && |r.1| == |options|
            && (r.0.Some? ==> r.0.value in {NullTarget, NullSlot})
            && (forall k :: 0 <= k < |options| ==> Evolved(options[k], r.1[k], cache))
            && r.1[o].target == Remapped(options[o], cache).target
            && r.1[o].table == Remapped(options[o], cache).table
            && (forall k :: 0 <= k < |options| && k != o && HopOf(states, options, cache, a, o) != Some(k) ==>
                  r.1[k] == options[k])
            && (r.1[o].recolor == options[o].recolor || HopOf(states, options, cache, a, o) == Some(o))
            && (HopOf(states, options, cache, a, o).Some? ==>
                  var f := HopOf(states, options, cache, a, o).value;
                  f < |options| &&
                  (r.1[f].recolor >= 1 <==> options[f].recolor >= 1 || changed) &&
                  (r.1[f].recolor == options[f].recolor || (options[f].recolor == 0 && r.1[f].recolor == 1)))
  {
    var r := SettleOf(states, options, cache, a, o, changed);
    SettleOk(states, options, cache, a, o, changed);
    var mid := options[o := Remapped(options[o], cache)];
    forall k | 0 <= k < |options| ensures Evolved(options[k], r.1[k], cache) {
      assert Evolved(options[k], options[k], cache);
      if k == o {
        EvolvedRemap(options[k], options[k], cache);
      }
      assert Evolved(options[k], mid[k], cache);
      if r.1[k] != mid[k] {
        EvolvedBump(options[k], mid[k], cache);
      }
    }
  }

  /**
   * One hop of the compression (jsf.hh:581-591) from the option o in slot a
   * of state s: the slot takes the same slot of o's target (a null target or
   * slot is a fault first), and `SettleOf` that option, with `changed` when o
   * had a recolor or the target's colour differs from s's. Yields the fault,
   * the arenas and the option now in the slot.
   */
  function CompressOf(states: seq<State>, options: seq<Opt>, cache: seq<Item<nat>>, s: nat, a: nat, o: nat)
    : (r: (Option<ParseFault>, seq<State>, seq<Opt>, nat))
    requires s < |states| && a < |states[s].slots|
    ensures |r.1| == |states| && |r.1[s].slots| == |states[s].slots|
  {
    match HopOf(states, options, cache, a, o)
    case None =>
      (Some(if o < |options| && Remapped(options[o], cache).target.Ref? then NullSlot else NullTarget), states, options, o)
    case Some(h) =>
      var s1 := states[s := states[s].(slots := states[s].slots[a := Some(h)])];
      var t := Remapped(options[o], cache).target;
      var changed := options[o].recolor > 0 || states[t.index].attr != states[s].attr;
      var settled := SettleOf(s1, options, cache, a, h, changed);
      (settled.0, s1, settled.1, h)
  }

  /** Pointing a populated slot at an existing option keeps the arenas well formed, their shape and the cache. */
  lemma SetSlotKeeps(states: seq<State>, options: seq<Opt>, cache: seq<Item<nat>>, s: nat, a: nat, v: nat)
    requires WellFormed(states, options) && IsCache(cache, states, |states|) && s < |states| && a < SlotCount
    requires states[s].slots[a].Some? && v < |options|
    ensures var s1 := states[s := states[s].(slots := states[s].slots[a := Some(v)])];
            WellFormed(s1, options) && SameShape(states, s1) && IsCache(cache, s1, |s1|) && s1[s].slots[a] == Some(v)
  {
    var s1 := states[s := states[s].(slots := states[s].slots[a := Some(v)])];
    SetSlotsOk(states, options, s, states[s].slots[a := Some(v)]);
    CacheSameShape(states, s1, |states|);
  }

  /**
   * A hop from a mapped option keeps the arenas well formed, their shape and
   * the cache; the slot ends holding o or the option `HopOf` finds, and the
   * latter, mapped, when the hop does not fault.
   */
  lemma CompressOk(states: seq<State>, options: seq<Opt>, cache: seq<Item<nat>>, s: nat, a: nat, o: nat)
    requires WellFormed(states, options) && IsCache(cache, states, |states|) && s < |states| && a < SlotCount
    requires o < |options| && states[s].slots[a] == Some(o) && Mapped(options[o])
    ensures var r := CompressOf(states, options, cache, s, a, o);
            && WellFormed(r.1, r.2) && SameShape(states, r.1) && IsCache(cache, r.1, |r.1|) && |r.2| == |options|
            && r.3 < |r.2| && r.1[s].slots[a] == Some(r.3)
            && (r.0.None? ==> Mapped(r.2[r.3]) && HopOf(states, options, cache, a, o) == Some(r.3))
            && (r.3 == o || HopOf(states, options, cache, a, o) == Some(r.3))
  {
    var hop := HopOf(states, options, cache, a, o);
    if hop.Some? {
      SetSlotKeeps(states, options, cache, s, a, hop.value);
      var s1 := states[s := states[s].(slots := states[s].slots[a := hop])];
      var t := Remapped(options[o], cache).target;
      var changed := options[o].recolor > 0 || states[t.index].attr != states[s].attr;
      SettleOk(s1, options, cache, a, hop.value, changed);
    }
  }

  /**
   * The compression loop (jsf.hh:582-591) for slot a of state s holding
   * option o, with `left` hops allowed: while the option in the slot is zero
   * width, one `CompressOf` hop. Yields the outcome, the arenas and the hops
   * left. An o outside the arena does not occur in a well-formed arena.
   */
  function ChainOf(states: seq<State>, options: seq<Opt>, cache: seq<Item<nat>>, s: nat, a: nat, o: nat, left: nat)
    : (r: (ParseOutcome, seq<State>, seq<Opt>, nat))
    requires s < |states| && a < |states[s].slots|
    ensures |r.1| == |states| && |r.1[s].slots| == |states[s].slots|
    decreases left
  {
    if o >= |options| || !ZeroWidth(options[o]) then (Parsed, states, options, left)
    else if left == 0 then (Failed(ChainTooLong), states, options, 0)
    else
      var c := CompressOf(states, options, cache, s, a, o);
      if c.0.Some? then (Failed(c.0.value), c.1, c.2, left - 1)
      else ChainOf(c.1, c.2, cache, s, a, c.3, left - 1)
  }

  /** A zero-width option with hops left takes one `CompressOf` hop, which yields `fault`, `s2`, `o2` and `next`. */
  lemma ChainOfHop(states: seq<State>, options: seq<Opt>, cache: seq<Item<nat>>, s: nat, a: nat, o: nat, left: nat,
                   rest: nat, fault: Option<ParseFault>, s2: seq<State>, o2: seq<Opt>, next: nat)
    requires WellFormed(states, options) && IsCache(cache, states, |states|) && s < |states| && a < SlotCount
    requires o < |options| && states[s].slots[a] == Some(o) && Mapped(options[o])
    requires ZeroWidth(options[o]) && left == rest + 1
    requires (fault, s2, o2, next) == CompressOf(states, options, cache, s, a, o)
    ensures s < |s2| && a < |s2[s].slots|
    ensures fault.Some? ==> ChainOf(states, options, cache, s, a, o, left) == (Failed(fault.value), s2, o2, rest)
    ensures fault.None? ==> ChainOf(states, options, cache, s, a, o, left) == ChainOf(s2, o2, cache, s, a, next, rest)
  {
  }

  /**
   * The inner loop of `BindStates` (jsf.hh:576-591) for the populated slot a
   * of state s: the option there is remapped, then its chain compressed.
   */
  function SlotBound(states: seq<State>, options: seq<Opt>, cache: seq<Item<nat>>, s: nat, a: nat, fuel: nat)
    : (r: (ParseOutcome, seq<State>, seq<Opt>, nat))
    requires s < |states| && a < |states[s].slots| && states[s].slots[a].Some?
    ensures |r.1| == |states| && |r.1[s].slots| == |states[s].slots|
  {
    var o := states[s].slots[a].value;
    var remapped := if o < |options| then options[o := Remapped(options[o], cache)] else options;
    ChainOf(states, remapped, cache, s, a, o, fuel)
  }

  /**
   * The slot loop of `BindStates` (jsf.hh:569-593) for state s from slot a on:
   * null slots are skipped, every other one is bound by `SlotBound`, and the
   * first failure ends the loop. The fuel left over passes from slot to slot.
   */
  function SlotsBound(states: seq<State>, options: seq<Opt>, cache: seq<Item<nat>>, s: nat, a: nat, fuel: nat)
    : (r: (ParseOutcome, seq<State>, seq<Opt>, nat))
    requires s < |states| && a <= |states[s].slots|
    ensures |r.1| == |states|
    decreases |states[s].slots| - a
  {
    if a == |states[s].slots| then (Parsed, states, options, fuel)
    else if states[s].slots[a].None? then SlotsBound(states, options, cache, s, a + 1, fuel)
    else
      var r := SlotBound(states, options, cache, s, a, fuel);
      if r.0 != Parsed then r else SlotsBound(r.1, r.2, cache, s, a + 1, r.3)
  }

  /** Slot a, then the slots after it, which start at `next`. */
  lemma SlotsBoundStep(states: seq<State>, options: seq<Opt>, cache: seq<Item<nat>>, s: nat, a: nat, next: nat, fuel: nat)
    requires s < |states| && a < |states[s].slots| && next == a + 1
    ensures states[s].slots[a].None? ==>
              SlotsBound(states, options, cache, s, a, fuel) == SlotsBound(states, options, cache, s, next, fuel)
    ensures states[s].slots[a].Some? ==>
              var r := SlotBound(states, options, cache, s, a, fuel);
              SlotsBound(states, options, cache, s, a, fuel) ==
                (if r.0 != Parsed then r else SlotsBound(r.1, r.2, cache, s, next, r.3))
  {
  }

  /**
   * The state loop of `BindStates` (jsf.hh:566-597) from state s down to the
   * first state declared, each bound by `SlotsBound`; the first failure ends
   * the loop.
   */
  function DownBound(states: seq<State>, options: seq<Opt>, cache: seq<Item<nat>>, s: nat, fuel: nat)
    : (ParseOutcome, seq<State>, seq<Opt>, nat)
    requires s < |states|
    decreases s
  {
    var r := SlotsBound(states, options, cache, s, 0, fuel);
    if r.0 != Parsed || s == 0 then r else DownBound(r.1, r.2, cache, s - 1, r.3)
  }

  /** State s, then the states below it, which start at `below`. */
  lemma DownBoundStep(states: seq<State>, options: seq<Opt>, cache: seq<Item<nat>>, s: nat, below: nat, fuel: nat)
    requires s < |states| && below + 1 == s
    ensures var r := SlotsBound(states, options, cache, s, 0, fuel);
            DownBound(states, options, cache, s, fuel) == (if r.0 != Parsed then r else DownBound(r.1, r.2, cache, below, r.3))
  {
  }

  class Highlighter {
    var states: seq<State>
    var head: Option<nat>
    var options: seq<Opt>
    /** `ComposeEditorChar` of the editor, which is not part of this model. */
    const compose: (Byte, Byte, bv8) -> nat
    /** `MakeJSFerrorColor('\0')`, the colour of a state whose colour is unknown. */
    const errorAttr: nat

    /** Every pointer leads into the arenas, state names are C strings, and `head` is a state or null. */
    ghost predicate Valid()
      reads this
    {
      WellFormed(states, options) && NamesNoNul(states) && (head.Some? ==> head.value < |states|)
    }

    /** While parsing, `states` is the last state declared, whose chain reaches every state. */
    predicate Chained()
      reads this
    {
      head == (if states == [] then None else Some(|states| - 1))
    }

    /** `JSF()`: no states. */
    constructor (compose: (Byte, Byte, bv8) -> nat, errorAttr: nat)
      ensures states == [] && head == None && options == []
      ensures this.compose == compose && this.errorAttr == errorAttr
      ensures Valid() && Chained()
    {
      states, head, options := [], None, [];
      this.compose, this.errorAttr := compose, errorAttr;
    }

    /**
     * `ParseStateStart` (jsf.hh:297-330): a new state named by the first word,
     * coloured by the colour named by the rest of the line (or the error
     * colour), pushed onto the front of the chain.
     */
    method ParseStateStart(line: Str, colortable: seq<Item<nat>>)
      requires Valid() && Chained() && NoNul(line)
      modifies this
      ensures states == old(states) + [StartedState(line, colortable, errorAttr)]
      ensures head == Some(|old(states)|) && options == old(options) && HeadersKept(old(states), states)
      ensures Valid() && Chained()
    {
      var name, key := StateHeader(line);
      var found := Search(colortable, key, false);
      var attr := if found.Some? then found.value else errorAttr;
      var st := NewState(name, attr);
      AppendStateKeeps(states, options, st);
      states := states + [st];
      head := Some(|states| - 1);
    }

    /**
     * `ParseStateLine` (jsf.hh:331-459) for the cleaned option line `line`,
     * with `lines[p..]` the rest of the file: a new option, its selected slots
     * of the state at the head of the chain pointed at it, its target name,
     * its modifiers and, for `strings`/`istrings`, the sorted keyword table
     * read from the following lines. Yields the first line not consumed, or
     * a fault when slots are written before any state exists.
     */
    method ParseStateLine(line: Str, lines: seq<Str>, p: nat) returns (next: nat, fault: bool)
      requires Valid() && p <= |lines|
      modifies this
      ensures var sel := SelectorOf(line).0;
              fault <==> old(head).None? && Writes(sel)
      ensures !fault ==> OptionLineDone(old(states), old(head), old(options), states, options, line, lines, p, next)
      ensures head == old(head) && (fault ==> states == old(states) && options == old(options))
      ensures p <= next <= |lines| && |states| == |old(states)| && HeadersKept(old(states), states)
      ensures Valid()
    {
      var index := |options|;
      var slots := if head.Some? then states[head.value].slots else seq(SlotCount, _ => None);
      var newSlots, wrote, i := ApplySelector(line, slots, index);
      if head.None? && wrote {
        return p, true;
      }
      fault := false;
      next := AddOption(line, i, lines, p, newSlots);
    }

    /**
     * The rest of `ParseStateLine` (jsf.hh:374-458) once the selector has
     * ended at i and picked the slots `newSlots` of the head state: the option
     * read from the line is appended and the head state, if any, takes the
     * new slots.
     */
    method AddOption(line: Str, i: nat, lines: seq<Str>, p: nat, newSlots: seq<Option<nat>>) returns (next: nat)
      requires Valid() && p <= |lines| && |newSlots| == SlotCount
      requires head.Some? ==> forall a :: 0 <= a < SlotCount && newSlots[a].Some? ==>
                 newSlots[a] == Some(|options|) || newSlots[a] == states[head.value].slots[a]
      modifies this
      ensures head == old(head) && p <= next <= |lines|
      ensures |options| == |old(options)| + 1 && options[..|old(options)|] == old(options)
      ensures OptionRead(line, i, lines, p, next, options[|old(options)|])
      ensures var h := old(head);
              states == if h.Some? then old(states)[h.value := old(states)[h.value].(slots := newSlots)] else old(states)
      ensures HeadersKept(old(states), states) && Valid()
    {
      var index := |options|;
      var o;
      next, o := ReadOption(line, i, lines, p);
      AppendOptionOk(states, options, o);
      options := options + [o];
      if head.Some? {
        forall a | 0 <= a < SlotCount && newSlots[a].Some? ensures newSlots[a].value < |options| {
          assert newSlots[a] == Some(index) || newSlots[a] == states[head.value].slots[a];
        }
        SetSlotsOk(states, options, head.value, newSlots);
        states := states[head.value := states[head.value].(slots := newSlots)];
      }
    }

    /**
     * `Remap` (jsf.hh:523-553) on option o: an unmapped option gets its target
     * and each keyword-table entry looked up in the state cache, and is marked
     * mapped; nothing else changes.
     */
    method Remap(o: nat, cache: seq<Item<nat>>)
      requires Valid() && o < |options| && IsCache(cache, states, |states|)
      modifies this
      ensures options == old(options)[o := Remapped(old(options)[o], cache)]
      ensures states == old(states) && head == old(head)
      ensures Valid()
    {
      var opt := options[o];
      if !Mapped(opt) {
        var mapped := RemapOption(opt, cache);
        RemappedOk(opt, cache, states);
        options := options[o := mapped];
      }
    }

    /** The lookups of `Remap` (jsf.hh:527-551) on an option not yet mapped. */
    static method RemapOption(opt: Opt, cache: seq<Item<nat>>) returns (r: Opt)
      requires !Mapped(opt)
      ensures r == Remapped(opt, cache)
    {
      var found := Search(cache, opt.target.name, false);
      var target := if found.Some? then Ref(found.value) else Null;
      var table: seq<Item<Target>> := [];
      var j := 0;
      while j < |opt.table|
        invariant j <= |opt.table| && |table| == j
        invariant forall q :: 0 <= q < j ==> table[q] == ResolveItem(cache, opt.table[q])
      {
        var it := opt.table[j];
        if it.payload.Name? {
          var hit := Search(cache, it.payload.name, false);
          it := Item(it.token, if hit.Some? then Ref(hit.value) else Null);
        }
        table := table + [it];
        j := j + 1;
      }
      assert table == Remapped(opt, cache).table;
      r := opt.(target := target, table := table);
    }

    /**
     * The inner loop of `BindStates` (jsf.hh:572-592) for slot a of state s:
     * the option there is remapped, and while it is zero width the slot is
     * replaced by the same slot of the option's target, which is remapped in
     * turn; the option one hop further on is made to recolor at least one byte
     * when the hop skipped a recolor or changed colour. Each hop costs one unit
     * of `fuel`; `left` is what remains.
     */
    method BindSlot(s: nat, a: nat, cache: seq<Item<nat>>, fuel: nat, ghost s0: seq<State>, ghost o0: seq<Opt>)
      returns (outcome: ParseOutcome, left: nat)
      requires Valid() && s < |states| && a < SlotCount && states[s].slots[a].Some?
      requires IsCache(cache, states, |states|)
      requires BoundFrom(s0, o0, states, options, cache) && Traced(s0, o0, cache, states)
      modifies this
      ensures Valid() && head == old(head)
      ensures Kept(old(states), old(options), states, options, s, a, cache)
      ensures Traced(s0, o0, cache, states)
      ensures left <= fuel
      ensures outcome == Parsed ==> Settled(options[states[s].slots[a].value])
      ensures outcome != Parsed ==> outcome in {Failed(NullTarget), Failed(NullSlot), Failed(ChainTooLong)}
      ensures (outcome, states, options, left) == SlotBound(old(states), old(options), cache, s, a, fuel)
    {
      left := fuel;
      var o := states[s].slots[a].value;
      KeptRemap(states, options, o, s, a, cache);
      Remap(o, cache);
      BoundFromTrans(s0, o0, old(states), old(options), states, options, cache);
      ghost var goal := SlotBound(old(states), old(options), cache, s, a, fuel);
      assert ChainOf(states, options, cache, s, a, o, left) == goal;
      while ZeroWidth(options[o])
        invariant Valid() && head == old(head) && s < |states| && a < |states[s].slots|
        invariant Kept(old(states), old(options), states, options, s, a, cache)
        invariant BoundFrom(s0, o0, states, options, cache) && Traced(s0, o0, cache, states)
        invariant IsCache(cache, states, |states|)
        invariant o < |options| && states[s].slots[a] == Some(o) && Mapped(options[o])
        invariant ChainOf(states, options, cache, s, a, o, left) == goal
        invariant left <= fuel
        decreases left
      {
        if left == 0 {
          return Failed(ChainTooLong), 0;
        }
        ghost var s1, o1 := states, options;
        var fault;
        fault, o, left := ChainStep(s, a, o, cache, left, s0, o0);
        KeptTrans(old(states), old(options), s1, o1, states, options, s, a, cache);
        if fault.Some? {
          return Failed(fault.value), left;
        }
      }
      outcome := Parsed;
    }

    /** One turn of the compression loop of `BindSlot` (jsf.hh:582-591): a `Compress` hop that costs one unit of fuel. */
    method ChainStep(s: nat, a: nat, o: nat, cache: seq<Item<nat>>, left: nat, ghost s0: seq<State>, ghost o0: seq<Opt>)
      returns (fault: Option<ParseFault>, o': nat, left': nat)
      requires Valid() && s < |states| && a < SlotCount && IsCache(cache, states, |states|)
      requires o < |options| && states[s].slots[a] == Some(o) && Mapped(options[o]) && ZeroWidth(options[o]) && left > 0
      requires BoundFrom(s0, o0, states, options, cache) && Traced(s0, o0, cache, states)
      modifies this
      ensures Valid() && head == old(head) && left' == left - 1
      ensures Kept(old(states), old(options), states, options, s, a, cache)
      ensures BoundFrom(s0, o0, states, options, cache) && Traced(s0, o0, cache, states)
      ensures IsCache(cache, states, |states|)
      ensures fault.None? ==> o' < |options| && states[s].slots[a] == Some(o') && Mapped(options[o'])
      ensures fault.Some? ==> fault.value in {NullTarget, NullSlot}
      ensures fault.Some? ==> ChainOf(old(states), old(options), cache, s, a, o, left) == (Failed(fault.value), states, options, left')
      ensures fault.None? ==> ChainOf(old(states), old(options), cache, s, a, o, left) == ChainOf(states, options, cache, s, a, o', left')
    {
      left' := left - 1;
      fault, o' := Compress(s, a, o, cache);
      ChainOfHop(old(states), old(options), cache, s, a, o, left, left', fault, states, options, o');
      CacheSameShape(old(states), states, |states|);
      CompressTraced(s0, o0, cache, old(states), old(options), states, options, s, a, o);
      BoundFromTrans(s0, o0, old(states), old(options), states, options, cache);
    }

    /**
     * One hop of the compression (jsf.hh:581-591) from the zero-width option o
     * in slot a of state s: the slot takes the same slot of o's target, that
     * option is remapped, and the option one hop further on gets recolor 1 when
     * its recolor is 0 and the hop skipped a recolor or changed colour. Yields
     * the fault of a null target or a null slot met on the way, or the option
     * now in the slot.
     */
    method Compress(s: nat, a: nat, o: nat, cache: seq<Item<nat>>) returns (fault: Option<ParseFault>, o': nat)
      requires Valid() && s < |states| && a < SlotCount && IsCache(cache, states, |states|)
      requires o < |options| && states[s].slots[a] == Some(o) && Mapped(options[o])
      modifies this
      ensures Valid() && head == old(head)
      ensures Kept(old(states), old(options), states, options, s, a, cache)
      ensures fault.Some? ==> fault.value in {NullTarget, NullSlot}
      ensures fault.None? ==> o' < |options| && states[s].slots[a] == Some(o') && Mapped(options[o'])
      ensures fault.None? ==> (old(options)[o].target.Ref? &&
                               old(states)[old(options)[o].target.index].slots[a] == Some(o'))
      ensures states[s].slots[a] == Some(o) ||
              (old(options)[o].target.Ref? && states[s].slots[a] == old(states)[old(options)[o].target.index].slots[a])
      ensures (fault, states, options, o') == CompressOf(old(states), old(options), cache, s, a, o)
    {
      o' := o;
      KeptRefl(states, options, s, a, cache);
      var origAttr := states[s].attr;
      var t := options[o].target;
      if t.Null? {
        return Some(NullTarget), o';
      }
      var newAttr := states[t.index].attr;
      var hadRecolor := options[o].recolor > 0;
      var hop := states[t.index].slots[a];
      if hop.None? {
        return Some(NullSlot), o';
      }
      ghost var s0, p0 := states, options;
      KeptSetSlot(states, options, s, a, hop.value, cache);
      o' := Hop(s, a, hop.value);
      CacheSameShape(s0, states, |states|);
      ghost var s1, p1 := states, options;
      fault := Settle(s, a, o', hadRecolor || newAttr != origAttr, cache);
      KeptTrans(s0, p0, s1, p1, states, options, s, a, cache);
    }

    /**
     * The rest of a hop (jsf.hh:586-591): the option o now in slot a of state
     * s is remapped, and when `changed` (the hop skipped a recolor or changed
     * colour) the option in slot a of o's target gets recolor 1 if its
     * recolor is 0.
     */
    method Settle(s: nat, a: nat, o: nat, changed: bool, cache: seq<Item<nat>>) returns (fault: Option<ParseFault>)
      requires Valid() && s < |states| && a < SlotCount && IsCache(cache, states, |states|)
      requires o < |options| && states[s].slots[a] == Some(o)
      modifies this
      ensures Valid() && head == old(head) && states == old(states)
      ensures Kept(old(states), old(options), states, options, s, a, cache)
      ensures fault.Some? ==> fault.value in {NullTarget, NullSlot}
      ensures fault.None? ==> Mapped(options[o])
      ensures (fault, options) == SettleOf(old(states), old(options), cache, a, o, changed)
    {
      KeptRefl(states, options, s, a, cache);
      if Mapped(options[o]) && options[o].target.Null? {
        assert options[o := Remapped(options[o], cache)] == options;
        return Some(NullTarget);
      }
      ghost var s1, p1 := states, options;
      KeptRemap(states, options, o, s, a, cache);
      Remap(o, cache);
      var t2 := options[o].target;
      if t2.Null? {
        return Some(NullTarget);
      }
      var further := states[t2.index].slots[a];
      if further.None? {
        return Some(NullSlot);
      }
      if options[further.value].recolor < 1 && changed {
        ghost var s2, p2 := states, options;
        KeptBump(states, options, further.value, s, a, cache);
        Bump(further.value, cache);
        KeptTrans(s1, p1, s2, p2, states, options, s, a, cache);
      }
      fault := None;
    }

    /** `o = o->state->options[a]`: slot a of state s takes the option o2. */
    method Hop(s: nat, a: nat, o2: nat) returns (o: nat)
      requires Valid() && s < |states| && a < SlotCount && states[s].slots[a].Some? && o2 < |options|
      modifies this
      ensures o == o2 && states == old(states)[s := old(states)[s].(slots := old(states)[s].slots[a := Some(o2)])]
      ensures options == old(options) && head == old(head)
      ensures SameShape(old(states), states)
      ensures Valid()
    {
      SetSlotsOk(states, options, s, states[s].slots[a := Some(o2)]);
      states := states[s := states[s].(slots := states[s].slots[a := Some(o2)])];
      o := o2;
    }

    /** `o->state->options[a]->recolor = 1` on an option whose recolor is 0. */
    method Bump(k: nat, ghost cache: seq<Item<nat>>)
      requires Valid() && k < |options| && options[k].recolor == 0
      modifies this
      ensures options == old(options)[k := old(options)[k].(recolor := 1)]
      ensures states == old(states) && head == old(head)
      ensures Valid()
    {
      options := options[k := options[k].(recolor := 1)];
    }

    /**
     * `BindStates` (jsf.hh:554-598): the state cache (every state's name, from
     * the head of the chain down) is sorted; then every populated slot of every
     * state, from the head down to the first state declared, is bound and
     * compressed. Binding leaves `states` at the first state declared.
     */
    method BindStates(fuel: nat) returns (outcome: ParseOutcome, ghost cache: seq<Item<nat>>)
      requires Valid() && Chained()
      modifies this
      ensures Valid() && BoundFrom(old(states), old(options), states, options, cache)
      ensures IsCache(cache, states, |states|) && Traced(old(states), old(options), cache, states)
      ensures old(states) == [] <==> outcome == Failed(NoStates)
      ensures outcome == Parsed ==> head == Some(0) && SettledFrom(states, options, 0)
      ensures outcome.Failed? ==> outcome.fault in {NoStates, NullTarget, NullSlot, ChainTooLong}
      ensures old(states) != [] ==>
                var r := DownBound(old(states), old(options), cache, |old(states)| - 1, fuel);
                outcome == r.0 && states == r.1 && options == r.2
    {
      if head.None? {
        TracedRefl(states, options, []);
        return Failed(NoStates), [];
      }
      var entries := CacheOf();
      var sorted := Sort(entries);
      cache := sorted;
      TracedRefl(states, options, cache);
      outcome := BindDown(sorted, fuel, states, options);
    }

    /**
     * The outer loop of `BindStates` (jsf.hh:566-597): state after state from the
     * head of the chain down, moving `states` along; it stops at the first
     * failure, or after the first state declared.
     */
    method BindDown(cache: seq<Item<nat>>, fuel: nat, ghost s0: seq<State>, ghost o0: seq<Opt>)
      returns (outcome: ParseOutcome)
      requires Valid() && Chained() && head.Some? && IsCache(cache, states, |states|)
      requires BoundFrom(s0, o0, states, options, cache) && Traced(s0, o0, cache, states)
      modifies this
      ensures Valid() && BoundFrom(s0, o0, states, options, cache)
      ensures IsCache(cache, states, |states|) && Traced(s0, o0, cache, states)
      ensures outcome == Parsed ==> head == Some(0) && SettledFrom(states, options, 0)
      ensures outcome.Failed? ==> outcome.fault in {NullTarget, NullSlot, ChainTooLong}
      ensures var r := DownBound(old(states), old(options), cache, old(head).value, fuel);
              outcome == r.0 && states == r.1 && options == r.2
    {
      var left := fuel;
      var s := head.value;
      ghost var settled := s + 1;
      ghost var goal := DownBound(states, options, cache, s, fuel);
      while true
        invariant Valid() && s < |states| && head == Some(s) && settled == s + 1
        invariant BoundFrom(s0, o0, states, options, cache) && Traced(s0, o0, cache, states)
        invariant IsCache(cache, states, |states|)
        invariant SettledFrom(states, options, settled)
        invariant DownBound(states, options, cache, s, left) == goal
        decreases s
      {
        ghost var s1, o1, left1 := states, options, left;
        var r;
        r, left := BindState(s, cache, left, s0, o0);
        if r.Failed? {
          return r;
        }
        if s == 0 {
          break;
        }
        settled := s;
        var below := s - 1;
        DownBoundStep(s1, o1, cache, s, below, left1);
        s := below;
        head := Some(s);
      }
      outcome := Parsed;
    }

    /** The state cache before sorting: (name, state) from the head of the chain down (jsf.hh:557-564). */
    method CacheOf() returns (entries: seq<Item<nat>>)
      requires Chained()
      ensures entries == CacheEntries(states, |states|)
    {
      entries := [];
      var n: nat := |states|;
      var k: nat := n;
      while k > 0
        invariant k <= n && n == |states| && |entries| == n - k
        invariant forall j :: 0 <= j < |entries| ==> entries[j] == Item(states[n - 1 - j].name, n - 1 - j)
      {
        k := k - 1;
        entries := entries + [Item(states[k].name, k)];
      }
      ghost var want := CacheEntries(states, n);
      assert forall j :: 0 <= j < n ==> entries[j] == want[j];
    }

    /** The loop over the 256 slots of state s (jsf.hh:569-593); a null slot is skipped. */
    method BindState(s: nat, cache: seq<Item<nat>>, fuel: nat, ghost s0: seq<State>, ghost o0: seq<Opt>)
      returns (outcome: ParseOutcome, left: nat)
      requires Valid() && s < |states| && IsCache(cache, states, |states|)
      requires SettledFrom(states, options, s + 1) && BoundFrom(s0, o0, states, options, cache)
      requires Traced(s0, o0, cache, states)
      modifies this
      ensures Valid() && head == old(head) && BoundFrom(s0, o0, states, options, cache)
      ensures Traced(s0, o0, cache, states)
      ensures IsCache(cache, states, |states|)
      ensures outcome == Parsed ==> SettledFrom(states, options, s)
      ensures outcome != Parsed ==> outcome.Failed? && outcome.fault in {NullTarget, NullSlot, ChainTooLong}
      ensures SlotsBound(old(states), old(options), cache, s, 0, fuel) == (outcome, states, options, left)
    {
      left := fuel;
      var a := 0;
      ghost var goal := SlotsBound(states, options, cache, s, 0, fuel);
      while a < SlotCount
        invariant a <= SlotCount && s < |states|
        invariant Valid() && head == old(head) && BoundFrom(s0, o0, states, options, cache)
        invariant IsCache(cache, states, |states|) && Traced(s0, o0, cache, states)
        invariant SettledFrom(states, options, s + 1) && SlotsSettled(states, options, s, a)
        invariant SlotsBound(states, options, cache, s, a, left) == goal
      {
        var next := a + 1;
        var r;
        r, left := BindSlotAt(s, a, next, cache, left, s0, o0);
        if r.Failed? {
          return r, left;
        }
        a := next;
      }
      assert a == SlotCount;
      SettledExtend(states, options, s);
      outcome := Parsed;
    }

    /** One turn of the slot loop of `BindState` (jsf.hh:570-592): slot a of state s, when it is populated. */
    method BindSlotAt(s: nat, a: nat, next: nat, cache: seq<Item<nat>>, fuel: nat,
                      ghost s0: seq<State>, ghost o0: seq<Opt>) returns (outcome: ParseOutcome, left: nat)
      requires Valid() && s < |states| && a < SlotCount && next == a + 1 && IsCache(cache, states, |states|)
      requires SettledFrom(states, options, s + 1) && SlotsSettled(states, options, s, a)
      requires BoundFrom(s0, o0, states, options, cache) && Traced(s0, o0, cache, states)
      modifies this
      ensures Valid() && head == old(head) && s < |states| && BoundFrom(s0, o0, states, options, cache)
      ensures Traced(s0, o0, cache, states)
      ensures IsCache(cache, states, |states|)
      ensures outcome == Parsed ==> SettledFrom(states, options, s + 1) && SlotsSettled(states, options, s, next)
      ensures outcome != Parsed ==> outcome.Failed? && outcome.fault in {NullTarget, NullSlot, ChainTooLong}
      ensures SlotsBound(old(states), old(options), cache, s, a, fuel) ==
                (if outcome == Parsed then SlotsBound(states, options, cache, s, next, left) else (outcome, states, options, left))
    {
      SlotsBoundStep(states, options, cache, s, a, next, fuel);
      if states[s].slots[a].None? {
        SlotsSettledSkip(states, options, s, a, next);
        return Parsed, fuel;
      }
      ghost var s1, o1 := states, options;
      outcome, left := BindSlot(s, a, cache, fuel, s0, o0);
      CacheSameShape(s1, states, |states|);
      BoundFromTrans(s0, o0, s1, o1, states, options, cache);
      if outcome == Parsed {
        KeptSettled(s1, o1, states, options, s, a, next, cache);
      }
    }

    /**
     * `Parse` (jsf.hh:34-65) over the lines `fgets` hands it: each line is cut
     * at its first NUL and cleaned; '=' declares a colour, ':' starts a state
     * (the colour table is sorted before the first state after a colour
     * declaration), a blank or a tab starts an option line, which may read a
     * keyword table from the following lines; any other line is ignored. The
     * states are bound at the end, with `fuel` bounding each compressed chain.
     */
    method Parse(lines: seq<Str>, fuel: nat) returns (outcome: ParseOutcome)
      requires Valid() && Chained()
      modifies this
      ensures Valid() && HeadersKept(old(states), states)
      ensures outcome == Parsed ==> head == Some(0) && SettledFrom(states, options, 0)
      ensures outcome != Failed(NoStateForOption) ==> (states == [] <==> outcome == Failed(NoStates))
      ensures outcome.Failed? ==> outcome.fault in {NoStateForOption, NoStates, NullTarget, NullSlot, ChainTooLong}
      ensures var walk := LineWalk(lines, 0, old(states) != [], multiset{}, false, compose);
              (outcome == Failed(NoStateForOption) <==> walk.fault) && DeclaredFrom(states, |old(states)|, walk.declared, errorAttr)
    {
      var fault, colortable, colorsSorted := ReadLines(lines);
      if fault {
        return Failed(NoStateForOption);
      }
      ghost var s0, cache := states, [];
      ghost var walk := LineWalk(lines, 0, old(states) != [], multiset{}, false, compose);
      outcome, cache := BindStates(fuel);
      assert HeadersKept(s0, states);
      HeadersKeptTrans(old(states), s0, states);
      DeclaredKept(s0, states, |old(states)|, walk.declared, [], errorAttr);
      assert walk.declared + [] == walk.declared;
    }

    /**
     * The loop of `Parse` (jsf.hh:38-60): every line is cut at its first NUL,
     * cleaned and handled in turn, until the lines run out or an option line
     * writes slots before any state exists. The states declared are those of
     * the ':' lines, in order, each coloured by a colour declared under the
     * name it asks for before it; the colour table ends holding every colour
     * declared, sorted unless a colour was declared after the last state.
     */
    method ReadLines(lines: seq<Str>) returns (fault: bool, colortable: seq<Item<nat>>, colorsSorted: bool)
      requires Valid() && Chained()
      modifies this
      ensures Valid() && Chained() && HeadersKept(old(states), states)
      ensures TokensNoNul(colortable) && (colorsSorted ==> Sorted(colortable))
      ensures var walk := LineWalk(lines, 0, old(states) != [], multiset{}, false, compose);
              fault == walk.fault && DeclaredFrom(states, |old(states)|, walk.declared, errorAttr) &&
              multiset(colortable) == walk.colours && colorsSorted == walk.sorted
    {
      colortable, colorsSorted := [], false;
      var p := 0;
      ghost var walk := LineWalk(lines, 0, states != [], multiset{}, false, compose);
      ghost var decls: seq<Declared>, rest := [], walk;
      while p < |lines|
        invariant p <= |lines| && Valid() && Chained() && HeadersKept(old(states), states)
        invariant TokensNoNul(colortable) && (colorsSorted ==> Sorted(colortable))
        invariant rest == LineWalk(lines, p, states != [], multiset(colortable), colorsSorted, compose)
        invariant DeclaredFrom(states, |old(states)|, decls, errorAttr)
        invariant walk == Walk(decls + rest.declared, rest.fault, rest.colours, rest.sorted)
        decreases |lines| - p
      {
        ghost var s0, added := states, [];
        p, colortable, colorsSorted, fault, added := NextLine(lines, p, colortable, colorsSorted);
        if fault {
          return;
        }
        ghost var rest' := LineWalk(lines, p, states != [], multiset(colortable), colorsSorted, compose);
        DeclaredKept(s0, states, |old(states)|, decls, added, errorAttr);
        HeadersKeptTrans(old(states), s0, states);
        ConcatAssoc(decls, added, rest'.declared);
        decls, rest := decls + added, rest';
      }
      fault := false;
      assert decls + [] == decls;
    }

    /** One turn of the loop of `Parse` (jsf.hh:38-59): line p is cut at its first NUL, cleaned and handled. */
    method NextLine(lines: seq<Str>, p: nat, colortable: seq<Item<nat>>, colorsSorted: bool)
      returns (p': nat, colortable': seq<Item<nat>>, colorsSorted': bool, fault: bool, ghost added: seq<Declared>)
      requires Valid() && Chained() && p < |lines| && TokensNoNul(colortable) && (colorsSorted ==> Sorted(colortable))
      modifies this
      ensures Valid() && Chained() && p < p' <= |lines| && TokensNoNul(colortable') && (colorsSorted' ==> Sorted(colortable'))
      ensures HeadersKept(old(states), states)
      ensures var e := LineEffect(Cleaned(CString(lines[p])), lines, p + 1, old(states) != [], multiset(colortable), colorsSorted, compose);
              fault == e.fault && added == e.declared &&
              (fault ==> states == old(states) && colortable' == colortable && colorsSorted' == colorsSorted)
      ensures var walk := LineWalk(lines, p, old(states) != [], multiset(colortable), colorsSorted, compose);
              var rest := LineWalk(lines, p', states != [], multiset(colortable'), colorsSorted', compose);
              (fault ==> walk == Walk([], true, multiset(colortable), colorsSorted)) &&
              (!fault ==> DeclaredFrom(states, |old(states)|, added, errorAttr) &&
                          walk == Walk(added + rest.declared, rest.fault, rest.colours, rest.sorted))
    {
      var l := Cleanup(CString(lines[p]));
      CleanedNoNul(CString(lines[p]));
      p', colortable', colorsSorted', fault := ParseLine(l, lines, p + 1, colortable, colorsSorted);
      HandledEffect(l, lines, p + 1, old(states), old(head), old(options), states, options,
                    colortable, colorsSorted, p', colortable', colorsSorted', fault, errorAttr, compose);
      added := LineEffect(l, lines, p + 1, old(states) != [], multiset(colortable), colorsSorted, compose).declared;
    }

    /**
     * The body of the loop of `Parse` (jsf.hh:41-59) for the cleaned line l,
     * with the lines from p on still to read: the colour table and whether it
     * is sorted go in and out, as does the position in `lines`.
     */
    method ParseLine(l: Str, lines: seq<Str>, p: nat, colortable: seq<Item<nat>>, colorsSorted: bool)
      returns (p': nat, colortable': seq<Item<nat>>, colorsSorted': bool, fault: bool)
      requires Valid() && Chained() && NoNul(l) && p <= |lines| && (colorsSorted ==> Sorted(colortable))
      modifies this
      ensures Valid() && Chained() && p <= p' <= |lines| && (colorsSorted' ==> Sorted(colortable'))
      ensures HeadersKept(old(states), states)
      ensures LineHandled(l, lines, p, old(states), old(head), old(options), states, options,
                          colortable, colorsSorted, p', colortable', colorsSorted', fault, errorAttr, compose)
    {
      p', colortable', colorsSorted', fault := p, colortable, colorsSorted, false;
      if l != [] && l[0] == EQUALS {
        colorsSorted' := false;
        colortable' := ParseColorDeclaration(l[1..], colortable, compose);
      } else if l != [] && l[0] == COLON {
        colortable', colorsSorted' := StateLine(l[1..], colortable, colorsSorted);
      } else if l != [] && (l[0] == SPACE || l[0] == TAB) {
        p', fault := ParseStateLine(l, lines, p);
      }
    }

    /**
     * A ':' line of `Parse` (jsf.hh:48-56): the colour table is sorted unless
     * it already is, then the state is started.
     */
    method StateLine(line: Str, colortable: seq<Item<nat>>, colorsSorted: bool)
      returns (colortable': seq<Item<nat>>, colorsSorted': bool)
      requires Valid() && Chained() && NoNul(line) && (colorsSorted ==> Sorted(colortable))
      modifies this
      ensures Valid() && Chained() && HeadersKept(old(states), states)
      ensures colorsSorted' && Sorted(colortable') && multiset(colortable') == multiset(colortable)
      ensures colorsSorted ==> colortable' == colortable
      ensures states == old(states) + [StartedState(line, colortable', errorAttr)] && options == old(options)
    {
      colortable', colorsSorted' := colortable, colorsSorted;
      if !colorsSorted {
        colortable' := Sort(colortable);
        colorsSorted' := true;
      }
      ParseStateStart(line, colortable');
    }

    /** `ApplyInit` (jsf.hh:78-84): st is reset to start a run at the head of the chain; its `recolormark` is kept. */
    method ApplyInit(st: ApplyState)
      modifies st
      ensures st.Cursor() == InitCursor(old(st.recolormark), head)
      ensures Valid() ==> CursorOk(st.Cursor(), |states|)
    {
      st.buffer := [];
      st.buffering, st.noeat := false, false;
      st.recolor, st.markbegin, st.markend := 0, 0, 0;
      st.c := 63;
      st.s := head;
    }

    /**
     * One iteration of the loop of `Apply` (jsf.hh:100-156) on st, reading
     * input[pos] when it eats a byte. When the step moves, st is where it moved
     * to; when the input is exhausted st is as it was.
     */
    method ApplyStep(st: ApplyState, input: seq<Byte>, pos: nat) returns (r: Outcome)
      requires Valid() && CursorOk(st.Cursor(), |states|) && pos <= |input|
      modifies st
      ensures r == Step(states, options, old(st.Cursor()), input, pos)
      ensures r.Moved? ==> st.Cursor() == r.next
      ensures r.Ended? ==> st.Cursor() == old(st.Cursor())
    {
      var pos' := ApplyAdvance(st, input, pos);
      if pos'.None? {
        return Ended;
      }
      if st.s.None? {
        return Faulted(NullState, []);
      }
      var attr := states[st.s.value].attr;
      var events: seq<Event> := [];
      if st.recolor != 0 {
        events := events + [Recolor(0, st.recolor, attr)];
      }
      if st.recolormark {
        events := events + [Recolor(st.markend + 1, st.markbegin - st.markend, attr)];
      }
      assert events == Emitted(st.Cursor(), attr);
      var slot := states[st.s.value].slots[st.c];
      if slot.None? {
        return Faulted(NullOption, events);
      }
      var o := options[slot.value];
      if o.strings != 0 && st.buffer == [] {
        return Faulted(EmptyLookup, events);
      }
      var ok := ApplyOption(st, o);
      if !ok {
        return Faulted(Unbound, events);
      }
      r := Moved(st.Cursor(), pos'.value, events);
    }

    /**
     * `ApplyStep` inside the run `whole` that `Apply` is making, after the
     * recolours `events`: the run either stops here or goes on from where the
     * step moved st.
     */
    method ApplyRunStep(st: ApplyState, input: seq<Byte>, pos: nat, fuel: nat, rest: nat, events: seq<Event>,
                        ghost whole: (Engine.Cursor, nat, seq<Event>, Halt)) returns (r: Outcome)
      requires Valid() && CursorOk(st.Cursor(), |states|) && pos <= |input| && fuel == rest + 1
      requires whole == After(events, Run(states, options, st.Cursor(), input, pos, fuel))
      modifies st
      ensures r.Ended? ==> whole == (st.Cursor(), pos, events, Finished)
      ensures r.Faulted? ==> whole == (old(st.Cursor()), pos, events + r.emitted, Crashed(r.fault))
      ensures r.Moved? ==> st.Cursor() == r.next && CursorOk(r.next, |states|) && r.pos <= |input| &&
                           whole == After(events + r.events, Run(states, options, r.next, input, r.pos, rest))
    {
      RunStep(states, options, st.Cursor(), input, pos, fuel, events);
      r := ApplyStep(st, input, pos);
    }

    /**
     * The first half of a step (jsf.hh:103-116): a pending `noeat` is cleared,
     * otherwise input[pos] is read. `None` when the input is exhausted, which
     * leaves st as it was; otherwise the position after the step.
     */
    method ApplyAdvance(st: ApplyState, input: seq<Byte>, pos: nat) returns (pos': Option<nat>)
      requires pos <= |input|
      modifies st
      ensures var a := Advance(old(st.Cursor()), input, pos);
              (a.None? <==> pos'.None?) &&
              (a.None? ==> st.Cursor() == old(st.Cursor())) &&
              (a.Some? ==> st.Cursor() == a.value.0 && pos'.value == a.value.1)
    {
      if st.noeat {
        st.noeat := false;
        if st.recolor == 0 {
          st.recolor := 1;
        }
        return Some(pos);
      }
      if pos == |input| {
        return None;
      }
      st.c := input[pos];
      st.recolor := st.recolor + 1;
      st.markbegin := st.markbegin + 1;
      st.markend := st.markend + 1;
      pos' := Some(pos + 1);
    }

    /**
     * The second half of a step (jsf.hh:127-155) with the option o: false when
     * o's target or the keyword found names a state never bound.
     */
    method ApplyOption(st: ApplyState, o: Opt) returns (ok: bool)
      modifies st
      ensures var t := TakeOption(old(st.Cursor()), o);
              ok == t.Some? && (ok ==> st.Cursor() == t.value)
    {
      if o.target.Name? {
        return false;
      }
      ghost var cur := st.Cursor();
      var c := st.c;
      st.recolor := o.recolor;
      st.recolormark := o.recolormark;
      st.noeat := o.noeat;
      st.s := if o.target.Ref? then Some(o.target.index) else None;
      assert st.Cursor() == Copied(cur, o, Follow(o.target).value);
      ok := ApplyLookup(st, o);
      if ok {
        ApplyMarks(st, o, c);
      }
    }

    /** The keyword lookup or the buffering of jsf.hh:132-150, after the option's flags are copied. */
    method ApplyLookup(st: ApplyState, o: Opt) returns (ok: bool)
      modifies st
      ensures var looked := LookedUp(old(st.Cursor()), o);
              ok == looked.Some? && (ok ==> st.Cursor() == looked.value)
    {
      ok := true;
      if o.strings != 0 {
        var hit := Search(o.table, st.buffer, o.strings != 1);
        if hit.Some? && hit.value.Name? {
          return false;
        }
        if hit.Some? && hit.value.Ref? {
          st.s := Some(hit.value.index);
          st.recolor := |st.buffer| + 1;
        }
        st.buffer := [];
        st.buffering := false;
      } else if st.buffering && !st.noeat {
        st.buffer := st.buffer + [st.c];
      }
    }

    /** The end of a step (jsf.hh:151-155): `buffer` restarts the buffer with the byte c just read, `mark` and `markend` reset the marks. */
    method ApplyMarks(st: ApplyState, o: Opt, c: Byte)
      modifies st
      ensures st.Cursor() == Marked(old(st.Cursor()), o, c)
    {
      if o.buffer {
        st.buffering := true;
        st.buffer := [c];
      }
      if o.mark {
        st.markbegin := 0;
      }
      if o.markend {
        st.markend := 0;
      }
    }

    /**
     * `Apply` (jsf.hh:85-157): steps st through input from its start until the
     * input is exhausted with no `noeat` pending, a step dereferences a null
     * pointer, or `fuel` steps are taken. Yields the recolour calls made, the
     * number of bytes read and why the run stopped; after a crash st is left
     * as the fault left it.
     */
    method Apply(st: ApplyState, input: seq<Byte>, fuel: nat) returns (events: seq<Event>, pos: nat, halt: Halt)
      requires Valid() && CursorOk(st.Cursor(), |states|)
      modifies st
      ensures var r := Run(states, options, old(st.Cursor()), input, 0, fuel);
              events == r.2 && pos == r.1 && halt == r.3 && (!halt.Crashed? ==> st.Cursor() == r.0)
    {
      events, pos := [], 0;
      var left := fuel;
      ghost var whole := Run(states, options, st.Cursor(), input, 0, fuel);
      ghost var none: seq<Event> := [];
      assert none + whole.2 == whole.2;
      assert After(none, whole) == whole;
      while true
        invariant pos <= |input| && CursorOk(st.Cursor(), |states|)
        invariant whole == After(events, Run(states, options, st.Cursor(), input, pos, left))
        decreases left
      {
        if left == 0 {
          assert events + [] == events;
          return events, pos, OutOfFuel;
        }
        var rest := left - 1;
        var r := ApplyRunStep(st, input, pos, left, rest, events, whole);
        match r
        case Ended =>
          return events, pos, Finished;
        case Faulted(f, e) =>
          return events + e, pos, Crashed(f);
        case Moved(next, pos', e) =>
          events, pos, left := events + e, pos', rest;
      }
    }
  }
}
