/**
 * What `Apply` (jsf.hh:85-157) does with one byte of input: the state of a
 * highlighting run (`ApplyState`, jsf.hh:68-77), the recolour calls it makes,
 * and the ways it can fault on a bound automaton. The input stream `Get` is
 * a sequence of bytes and a read position; `Recolor` calls are returned as
 * events in call order.
 */
module Engine {
  import opened Base
  import opened Table
  import opened Automaton

  /** The fields of `ApplyState`; `s` is the current state, `None` for null. */
  datatype Cursor = Cursor(buffer: seq<Byte>, buffering: bool, recolor: int, markbegin: int, markend: int,
                           recolormark: bool, noeat: bool, c: Byte, s: Option<nat>)

  /** One call `Recolor(distance, n, attr)`, with its arguments before the conversion to unsigned. */
  datatype Event = Recolor(distance: int, n: int, attr: nat)

  /**
   * Where a step dereferences something that is not there: a null current
   * state, a null option slot, a target still holding a name (an option that
   * binding never reached), or an empty buffer handed to the keyword lookup.
   */
  datatype Fault = NullState | NullOption | Unbound | EmptyLookup

  /** A step ends the run (no more input), faults after the events it made, or moves on. */
  datatype Outcome = Ended | Faulted(fault: Fault, emitted: seq<Event>) | Moved(next: Cursor, pos: nat, events: seq<Event>)

  /**
   * What holds of the cursor between steps: the state is null or a state of the
   * automaton, the buffer is non-empty exactly while buffering, and the counts
   * are never negative.
   */
  predicate CursorOk(cur: Cursor, n: nat)
  {
    (cur.s.Some? ==> cur.s.value < n) &&
    (cur.buffering <==> cur.buffer != []) &&
    cur.recolor >= 0 && cur.markbegin >= 0 && cur.markend >= 0
  }

  /** `ApplyInit` (jsf.hh:78-84): everything reset and the run starting at `head`; `recolormark` is left as it was. */
  function InitCursor(recolormark: bool, head: Option<nat>): (cur: Cursor)
    ensures cur.buffer == [] && !cur.buffering && !cur.noeat && cur.recolormark == recolormark
    ensures cur.recolor == 0 && cur.markbegin == 0 && cur.markend == 0 && cur.c == 63 && cur.s == head
  {
    Cursor([], false, 0, 0, 0, recolormark, false, 63, head)
  }

  /** The state an option's target sends the run to, or a fault for a name never bound. */
  function Follow(t: Target): Option<Option<nat>>
  {
    match t
    case Name(_) => None
    case Ref(i) => Some(Some(i))
    case Null => Some(None)
  }

  /**
   * The first half of a step (jsf.hh:103-116): a pending `noeat` is cleared and
   * makes recolor at least 1 without reading; otherwise the next byte is read
   * and the three counts advance. `None` when the input is exhausted.
   */
  function Advance(cur: Cursor, input: seq<Byte>, pos: nat): (r: Option<(Cursor, nat)>)
    requires pos <= |input|
    ensures r.None? <==> !cur.noeat && pos == |input|
    ensures r.Some? ==> r.value.1 <= |input|
  {
    if cur.noeat then Some((cur.(noeat := false, recolor := if cur.recolor == 0 then 1 else cur.recolor), pos))
    else if pos == |input| then None
    else Some((cur.(c := input[pos], recolor := cur.recolor + 1, markbegin := cur.markbegin + 1,
                    markend := cur.markend + 1), pos + 1))
  }

  /** The recolour calls of jsf.hh:117-125, made in the current state's colour. */
  function Emitted(cur: Cursor, attr: nat): seq<Event>
  {
    (if cur.recolor != 0 then [Recolor(0, cur.recolor, attr)] else []) +
    (if cur.recolormark then [Recolor(cur.markend + 1, cur.markbegin - cur.markend, attr)] else [])
  }

  /**
   * The keyword lookup of jsf.hh:132-148 for an option with `strings`: the
   * buffer is looked up in the option's table (folding case unless `strings` is
   * 1); a hit moves to its state and recolours the buffered bytes plus the
   * current one; the buffer is dropped either way.
   */
  function KeywordJump(cur: Cursor, o: Opt): Option<Cursor>
  {
    var hit := Lookup(o.table, cur.buffer, o.strings != 1, false, 0, |o.table|);
    if hit.Some? && hit.value.Name? then None
    else
      var jumped := if hit.Some? && hit.value.Ref? then cur.(s := Some(hit.value.index), recolor := |cur.buffer| + 1)
                    else cur;
      Some(jumped.(buffer := [], buffering := false))
  }

  /** The option's flags and target copied into the cursor (jsf.hh:127-131). */
  function Copied(cur: Cursor, o: Opt, s: Option<nat>): Cursor
  {
    cur.(recolor := o.recolor, recolormark := o.recolormark, noeat := o.noeat, s := s)
  }

  /** The keyword lookup of a `strings` option, or else the buffering of the byte read (jsf.hh:132-150). */
  function LookedUp(moved: Cursor, o: Opt): Option<Cursor>
  {
    if o.strings != 0 then KeywordJump(moved, o)
    else if moved.buffering && !moved.noeat then Some(moved.(buffer := moved.buffer + [moved.c]))
    else Some(moved)
  }

  /** `buffer` restarts the buffer with the byte c just read; `mark` and `markend` reset the marks (jsf.hh:151-155). */
  function Marked(looked: Cursor, o: Opt, c: Byte): Cursor
  {
    var buffered := if o.buffer then looked.(buffering := true, buffer := [c]) else looked;
    var marked := if o.mark then buffered.(markbegin := 0) else buffered;
    if o.markend then marked.(markend := 0) else marked
  }

  /**
   * The second half of a step (jsf.hh:127-155), from the option o taken: its
   * flags and target are copied, then the keyword lookup or the buffering, then
   * the marks.
   */
  function TakeOption(cur: Cursor, o: Opt): Option<Cursor>
  {
    var target := Follow(o.target);
    if target.None? then None
    else
      var looked := LookedUp(Copied(cur, o, target.value), o);
      if looked.None? then None
      else Some(Marked(looked.value, o, cur.c))
  }

  /** One iteration of the loop of `Apply`. */
  function Step(states: seq<State>, options: seq<Opt>, cur: Cursor, input: seq<Byte>, pos: nat): (r: Outcome)
    requires WellFormed(states, options) && CursorOk(cur, |states|) && pos <= |input|
  {
    var adv := Advance(cur, input, pos);
    if adv.None? then Ended
    else
      var (c1, pos1) := adv.value;
      if c1.s.None? then Faulted(NullState, [])
      else
        var st := states[c1.s.value];
        var events := Emitted(c1, st.attr);
        var slot := st.slots[c1.c];
        if slot.None? then Faulted(NullOption, events)
        else
          var o := options[slot.value];
          if o.strings != 0 && c1.buffer == [] then Faulted(EmptyLookup, events)
          else
            var next := TakeOption(c1, o);
            if next.None? then Faulted(Unbound, events)
            else Moved(next.value, pos1, events)
  }

  /** A step keeps the cursor invariant and never moves the read position back or past the end. */
  lemma StepKeepsCursorOk(states: seq<State>, options: seq<Opt>, cur: Cursor, input: seq<Byte>, pos: nat)
    requires WellFormed(states, options) && CursorOk(cur, |states|) && pos <= |input|
    ensures var r := Step(states, options, cur, input, pos);
            r.Moved? ==> CursorOk(r.next, |states|) && pos <= r.pos <= |input|
  {
    var r := Step(states, options, cur, input, pos);
    if r.Moved? {
      var (c1, pos1) := Advance(cur, input, pos).value;
      AdvanceOk(cur, input, pos, |states|);
      var o := options[states[c1.s.value].slots[c1.c].value];
      TakeOptionOk(c1, o, |states|);
    }
  }

  lemma AdvanceOk(cur: Cursor, input: seq<Byte>, pos: nat, n: nat)
    requires CursorOk(cur, n) && pos <= |input|
    ensures var a := Advance(cur, input, pos);
            a.Some? ==> CursorOk(a.value.0, n) && pos <= a.value.1 <= |input|
  {
  }

  /** Taking an option whose pointers lead into the arena keeps the cursor invariant. */
  lemma TakeOptionOk(cur: Cursor, o: Opt, n: nat)
    requires CursorOk(cur, n) && TargetOk(o.target, n)
    requires forall j :: 0 <= j < |o.table| ==> TargetOk(o.table[j].payload, n)
    ensures TakeOption(cur, o).Some? ==> CursorOk(TakeOption(cur, o).value, n)
  {
    if o.strings != 0 {
      LookupFound(o.table, cur.buffer, o.strings != 1, 0, |o.table|);
    }
  }

  /** A run ends where the input ends and not before, unless a `noeat` is pending. */
  lemma EndsOnlyAtEndOfInput(states: seq<State>, options: seq<Opt>, cur: Cursor, input: seq<Byte>, pos: nat)
    requires WellFormed(states, options) && CursorOk(cur, |states|) && pos <= |input|
    ensures Step(states, options, cur, input, pos).Ended? <==> !cur.noeat && pos == |input|
  {
  }

  /**
   * A pending `noeat` step reads nothing, and recolours at least the current
   * byte in the current state's colour (jsf.hh:103-107, 117-120).
   */
  lemma NoeatReadsNothing(states: seq<State>, options: seq<Opt>, cur: Cursor, input: seq<Byte>, pos: nat)
    requires WellFormed(states, options) && CursorOk(cur, |states|) && pos <= |input|
    requires cur.noeat && cur.s.Some?
    ensures var r := Step(states, options, cur, input, pos);
            (r.Moved? ==> r.pos == pos && r.events != [] &&
                          r.events[0] == Recolor(0, if cur.recolor == 0 then 1 else cur.recolor, states[cur.s.value].attr))
  {
  }

  /**
   * Any other step reads the next byte and selects the slot of that byte. It
   * recolours the bytes owed plus this one and, under `recolormark`, the marked
   * span, which now lies one byte further back (jsf.hh:108-125, 127). Both
   * marks move on by the byte read unless the option resets them
   * (jsf.hh:151-155).
   */
  lemma EatReadsOneByte(states: seq<State>, options: seq<Opt>, cur: Cursor, input: seq<Byte>, pos: nat)
    requires WellFormed(states, options) && CursorOk(cur, |states|) && pos < |input|
    requires !cur.noeat && cur.s.Some?
    ensures var r := Step(states, options, cur, input, pos);
            var attr := states[cur.s.value].attr;
            var slot := states[cur.s.value].slots[input[pos]];
            var events := [Recolor(0, cur.recolor + 1, attr)] +
                          (if cur.recolormark then [Recolor(cur.markend + 2, cur.markbegin - cur.markend, attr)] else []);
            (slot.None? ==> r.Faulted? && r.fault == NullOption) &&
            (r.Faulted? ==> r.emitted == events) &&
            (r.Moved? ==> r.pos == pos + 1 && r.next.c == input[pos] && slot.Some? && r.events == events &&
                          var o := options[slot.value];
                          r.next.markbegin == (if o.mark then 0 else cur.markbegin + 1) &&
                          r.next.markend == (if o.markend then 0 else cur.markend + 1))
  {
    var c1 := Advance(cur, input, pos).value.0;
    assert c1 == cur.(c := input[pos], recolor := cur.recolor + 1, markbegin := cur.markbegin + 1,
                      markend := cur.markend + 1);
  }

  /**
   * The step takes the option in the slot of the byte: its recolor count, its
   * `noeat` and `recolormark`, and its target, unless a keyword lookup hits.
   */
  lemma StepTakesOption(states: seq<State>, options: seq<Opt>, cur: Cursor, input: seq<Byte>, pos: nat)
    requires WellFormed(states, options) && CursorOk(cur, |states|) && pos <= |input|
    ensures var r := Step(states, options, cur, input, pos);
            r.Moved? ==>
              var c1 := Advance(cur, input, pos).value.0;
              var o := options[states[c1.s.value].slots[c1.c].value];
              r.next.noeat == o.noeat && r.next.recolormark == o.recolormark && o.target.Name? == false &&
              (o.strings == 0 ==> r.next.recolor == o.recolor && r.next.s == Follow(o.target).value) &&
              (o.mark ==> r.next.markbegin == 0) && (o.markend ==> r.next.markend == 0) &&
              (o.buffer ==> r.next.buffering && r.next.buffer == [c1.c])
  {
  }

  /**
   * A `strings` option whose buffer is found in its table moves to the state of
   * the entry and recolours the whole word (jsf.hh:132-148); the buffer is dropped.
   */
  lemma KeywordHitJumps(cur: Cursor, o: Opt, i: nat)
    requires o.strings != 0 && !o.buffer && !o.mark && !o.markend && !o.target.Name?
    requires Lookup(o.table, cur.buffer, o.strings != 1, false, 0, |o.table|) == Some(Ref(i))
    ensures TakeOption(cur, o).Some?
    ensures var n := TakeOption(cur, o).value;
            n.s == Some(i) && n.recolor == |cur.buffer| + 1 && n.buffer == [] && !n.buffering
  {
  }

  /**
   * A `strings` option whose buffer is not found keeps the option's own target
   * and recolor count; the buffer is dropped.
   */
  lemma KeywordMissStays(cur: Cursor, o: Opt)
    requires o.strings != 0 && !o.buffer && !o.mark && !o.markend && !o.target.Name?
    requires Lookup(o.table, cur.buffer, o.strings != 1, false, 0, |o.table|).None?
    ensures TakeOption(cur, o).Some?
    ensures var n := TakeOption(cur, o).value;
            n.s == Follow(o.target).value && n.recolor == o.recolor && n.buffer == [] && !n.buffering
  {
  }

  /**
   * While buffering, a step that eats its byte and takes an option without
   * `strings` or `buffer` appends the byte it read (jsf.hh:149-150).
   */
  lemma BufferingAppends(cur: Cursor, o: Opt)
    requires cur.buffering && o.strings == 0 && !o.buffer && !o.noeat && !o.target.Name?
    ensures TakeOption(cur, o).Some? && TakeOption(cur, o).value.buffer == cur.buffer + [cur.c]
  {
  }

  /** The end of a run: the input consumed, a fault, or the step bound reached. */
  datatype Halt = Finished | Crashed(fault: Fault) | OutOfFuel

  /**
   * At most `fuel` steps of `Apply` from cur at input position pos: the cursor
   * and position it stops at, every recolour made, and why it stopped.
   */
  function Run(states: seq<State>, options: seq<Opt>, cur: Cursor, input: seq<Byte>, pos: nat, fuel: nat)
    : (r: (Cursor, nat, seq<Event>, Halt))
    requires WellFormed(states, options) && CursorOk(cur, |states|) && pos <= |input|
    decreases fuel
  {
    if fuel == 0 then (cur, pos, [], OutOfFuel)
    else
      match Step(states, options, cur, input, pos)
      case Ended => (cur, pos, [], Finished)
      case Faulted(f, events) => (cur, pos, events, Crashed(f))
      case Moved(next, pos', events) =>
        StepKeepsCursorOk(states, options, cur, input, pos);
        var rest := Run(states, options, next, input, pos', fuel - 1);
        (rest.0, rest.1, events + rest.2, rest.3)
  }

  /** A run r with the recolours `events` made before it. */
  function After(events: seq<Event>, r: (Cursor, nat, seq<Event>, Halt)): (Cursor, nat, seq<Event>, Halt)
  {
    (r.0, r.1, events + r.2, r.3)
  }

  /** One step of a run, as `Apply` takes it: the run from the step's result, after the step's recolours. */
  lemma RunStep(states: seq<State>, options: seq<Opt>, cur: Cursor, input: seq<Byte>, pos: nat, fuel: nat,
                events: seq<Event>)
    requires WellFormed(states, options) && CursorOk(cur, |states|) && pos <= |input| && fuel > 0
    ensures var r := Step(states, options, cur, input, pos);
            var whole := After(events, Run(states, options, cur, input, pos, fuel));
            (r.Ended? ==> whole == (cur, pos, events, Finished)) &&
            (r.Faulted? ==> whole == (cur, pos, events + r.emitted, Crashed(r.fault))) &&
            (r.Moved? ==> CursorOk(r.next, |states|) && r.pos <= |input| &&
                          whole == After(events + r.events, Run(states, options, r.next, input, r.pos, fuel - 1)))
  {
    StepKeepsCursorOk(states, options, cur, input, pos);
    var r := Step(states, options, cur, input, pos);
    if r.Ended? {
      assert events + [] == events;
    } else if r.Moved? {
      var rest := Run(states, options, r.next, input, r.pos, fuel - 1);
      assert events + (r.events + rest.2) == (events + r.events) + rest.2;
    }
  }

  /**
   * A run keeps the cursor invariant, reads forward only, and finishes exactly
   * when it has consumed the whole input with no `noeat` pending.
   */
  lemma {:induction false} RunProperties(states: seq<State>, options: seq<Opt>, cur: Cursor, input: seq<Byte>,
                                         pos: nat, fuel: nat)
    requires WellFormed(states, options) && CursorOk(cur, |states|) && pos <= |input|
    ensures var r := Run(states, options, cur, input, pos, fuel);
            CursorOk(r.0, |states|) && pos <= r.1 <= |input| &&
            (r.3 == Finished ==> r.1 == |input| && !r.0.noeat)
    decreases fuel
  {
    if fuel > 0 {
      var r := Step(states, options, cur, input, pos);
      StepKeepsCursorOk(states, options, cur, input, pos);
      if r.Moved? {
        var rest := fuel - 1;
        RunMoved(states, options, cur, input, pos, fuel, rest);
        RunProperties(states, options, r.next, input, r.pos, rest);
      }
    }
  }

  /** A run whose first step moves ends where the run from that step ends. */
  lemma RunMoved(states: seq<State>, options: seq<Opt>, cur: Cursor, input: seq<Byte>, pos: nat, fuel: nat, rest: nat)
    requires WellFormed(states, options) && CursorOk(cur, |states|) && pos <= |input|
    requires fuel == rest + 1 && Step(states, options, cur, input, pos).Moved?
    ensures var r := Step(states, options, cur, input, pos);
            CursorOk(r.next, |states|) && r.pos <= |input| &&
            var whole := Run(states, options, cur, input, pos, fuel);
            var tail := Run(states, options, r.next, input, r.pos, rest);
            whole.0 == tail.0 && whole.1 == tail.1 && whole.3 == tail.3
  {
    StepKeepsCursorOk(states, options, cur, input, pos);
  }

  /** More fuel never changes a run that finished or faulted. */
  lemma {:induction false} RunFuelMonotone(states: seq<State>, options: seq<Opt>, cur: Cursor, input: seq<Byte>,
                                           pos: nat, fuel: nat, more: nat)
    requires WellFormed(states, options) && CursorOk(cur, |states|) && pos <= |input|
    requires fuel <= more
    requires Run(states, options, cur, input, pos, fuel).3 != OutOfFuel
    ensures Run(states, options, cur, input, pos, more) == Run(states, options, cur, input, pos, fuel)
    decreases fuel
  {
    var r := Step(states, options, cur, input, pos);
    if r.Moved? {
      StepKeepsCursorOk(states, options, cur, input, pos);
      RunFuelMonotone(states, options, r.next, input, r.pos, fuel - 1, more - 1);
    }
  }

  /**
   * `Recolor(markend + 1, markbegin - markend, attr)` gets a negative count,
   * which the call converts to a huge unsigned value, when `mark` came after
   * `markend`: with markbegin 0 and markend 2 after one more byte, n is -2.
   */
  lemma MarkSpanCanBeNegative(states: seq<State>, options: seq<Opt>, input: seq<Byte>)
    requires WellFormed(states, options) && |states| == 1 && |input| == 1
    requires states[0].slots[input[0]].Some?
    requires options[states[0].slots[input[0]].value].strings == 0
    requires options[states[0].slots[input[0]].value].target.Ref?
    ensures var cur := Cursor([], false, 0, 0, 2, true, false, 63, Some(0));
            var r := Step(states, options, cur, input, 0);
            r.Moved? && Recolor(4, -2, states[0].attr) in r.events
  {
    var cur := Cursor([], false, 0, 0, 2, true, false, 63, Some(0));
    assert CursorOk(cur, 1);
    var c1 := Advance(cur, input, 0).value.0;
    assert Emitted(c1, states[0].attr)[1] == Recolor(4, -2, states[0].attr);
  }
}
