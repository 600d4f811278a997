/**
 * The compiled automaton of jsf.hh: states with 256 transition slots, the
 * options the slots point at, and what binding does to an option (`Remap`,
 * jsf.hh:523-553). States live in an arena in declaration order, so the
 * `next` of state i is state i - 1; options live in an arena of their own and
 * one option may sit in many slots.
 */
module Automaton {
  import opened Base
  import opened Table

  /**
   * The `state`/`state_name` union of an option or a keyword-table entry:
   * `Name` while `name_mapped` is false, then the pointer that `findstate`
   * produced, `Ref` to a state or `Null`.
   */
  datatype Target = Name(name: Str) | Ref(index: nat) | Null

  /** `struct option` (jsf.hh:207-225); `strings` is 0 (none), 1 (strings) or 2 (istrings). */
  datatype Opt = Opt(target: Target, recolor: Byte, noeat: bool, buffer: bool, strings: nat,
                     mark: bool, markend: bool, recolormark: bool, table: seq<Item<Target>>)

  /** `struct state` (jsf.hh:160-167); a null slot is `None`. */
  datatype State = State(name: Str, attr: nat, slots: seq<Option<nat>>)

  const SlotCount := 256

  /** A freshly constructed option naming its target (jsf.hh:222-224, 380-382). */
  function NewOpt(name: Str): (o: Opt)
    ensures !o.noeat && !o.buffer && o.strings == 0 && !o.mark && !o.markend && !o.recolormark
    ensures o.recolor == 0 && o.table == [] && o.target == Name(name)
  {
    Opt(Name(name), 0, false, false, 0, false, false, false, [])
  }

  /** A new state after the `memset`: every slot null. */
  function NewState(name: Str, attr: nat): (s: State)
    ensures |s.slots| == SlotCount && forall a :: 0 <= a < SlotCount ==> s.slots[a].None?
  {
    State(name, attr, seq(SlotCount, _ => None))
  }

  /** `name_mapped` */
  predicate Mapped(o: Opt)
  {
    !o.target.Name?
  }

  /**
   * The test of the chain compression (jsf.hh:579): an option that eats no
   * byte and does nothing else is followed through to its target's slot.
   */
  predicate ZeroWidth(o: Opt)
  {
    o.noeat && o.recolor <= 1 && !o.buffer && o.strings == 0 && !o.mark && !o.markend && !o.recolormark
  }

  /** What binding leaves in every populated slot. */
  predicate Settled(o: Opt)
  {
    Mapped(o) && !ZeroWidth(o)
  }

  /**
   * The state cache of `BindStates` before sorting (jsf.hh:557-564): one
   * (name, state) entry per state reached from state k - 1 down to state 0.
   */
  function CacheEntries(states: seq<State>, k: nat): (r: seq<Item<nat>>)
    requires k <= |states|
    ensures |r| == k
    ensures forall j :: 0 <= j < k ==> r[j] == Item(states[k - 1 - j].name, k - 1 - j)
  {
    if k == 0 then [] else [Item(states[k - 1].name, k - 1)] + CacheEntries(states, k - 1)
  }

  /** A sorted arrangement of the cache of the states below k, as `sort` leaves it. */
  predicate IsCache(cache: seq<Item<nat>>, states: seq<State>, k: nat)
    requires k <= |states|
  {
    Sorted(cache) && multiset(cache) == multiset(CacheEntries(states, k))
  }

  /** `findstate(state_cache, name)`: a state pointer or null. */
  function Resolve(cache: seq<Item<nat>>, name: Str): (t: Target)
    ensures !t.Name?
  {
    match Lookup(cache, name, false, false, 0, |cache|)
    case Some(i) => Ref(i)
    case None => Null
  }

  predicate NamesNoNul(states: seq<State>)
  {
    forall i :: 0 <= i < |states| ==> NoNul(states[i].name)
  }

  /**
   * A name resolves to a state carrying exactly that name, and to null exactly
   * when no state among those cached is called so.
   */
  lemma ResolveCorrect(cache: seq<Item<nat>>, states: seq<State>, k: nat, name: Str)
    requires k <= |states| && IsCache(cache, states, k)
    requires NamesNoNul(states) && NoNul(name)
    ensures Resolve(cache, name).Ref? ==>
              Resolve(cache, name).index < k && states[Resolve(cache, name).index].name == name
    ensures Resolve(cache, name).Null? <==> forall i :: 0 <= i < k ==> states[i].name != name
  {
    forall j | 0 <= j < |cache| ensures NoNul(cache[j].token) && cache[j].payload < k {
      var m := CacheItem(cache, states, k, j);
    }
    assert SortedBy(cache, false);
    LookupCorrect(cache, name, false);
    var r := Lookup(cache, name, false, false, 0, |cache|);
    if r.Some? {
      var j :| Matches(cache, j, name, false) && cache[j].payload == r.value;
      var m := CacheItem(cache, states, k, j);
    } else {
      forall i | 0 <= i < k ensures states[i].name != name {
        var j := CacheHas(cache, states, k, i);
        assert !Matches(cache, j, name, false);
      }
    }
  }

  /** Every entry of the cache names a state below k by its own name. */
  lemma CacheItem(cache: seq<Item<nat>>, states: seq<State>, k: nat, j: nat) returns (m: nat)
    requires k <= |states| && IsCache(cache, states, k) && j < |cache|
    ensures m < k && cache[j] == Item(states[m].name, m)
  {
    var entries := CacheEntries(states, k);
    assert cache[j] in multiset(cache);
    assert cache[j] in multiset(entries);
    var e :| 0 <= e < |entries| && entries[e] == cache[j];
    m := k - 1 - e;
  }

  /** Every state below k has its entry in the cache. */
  lemma CacheHas(cache: seq<Item<nat>>, states: seq<State>, k: nat, i: nat) returns (j: nat)
    requires k <= |states| && IsCache(cache, states, k) && i < k
    ensures j < |cache| && cache[j] == Item(states[i].name, i)
  {
    var entries := CacheEntries(states, k);
    var e := entries[k - 1 - i];
    assert e in multiset(entries);
    assert e in multiset(cache);
    j :| 0 <= j < |cache| && cache[j] == e;
  }

  /** A keyword-table entry as `Remap` leaves it: its state name looked up. */
  function ResolveItem(cache: seq<Item<nat>>, it: Item<Target>): Item<Target>
  {
    if it.payload.Name? then Item(it.token, Resolve(cache, it.payload.name)) else it
  }

  /**
   * `Remap` (jsf.hh:523-553) on one option: an option whose name is not yet
   * mapped gets its target and every keyword-table entry looked up, and is
   * marked mapped even when the lookup fails; a mapped option is left alone.
   */
  function Remapped(o: Opt, cache: seq<Item<nat>>): (r: Opt)
    ensures Mapped(r)
    ensures Mapped(o) ==> r == o
    ensures !Mapped(o) ==> r.target == Resolve(cache, o.target.name)
    ensures |r.table| == |o.table|
    ensures forall j :: 0 <= j < |o.table| ==> r.table[j].token == o.table[j].token
    ensures !Mapped(o) ==> forall j :: 0 <= j < |o.table| && o.table[j].payload.Name? ==>
              r.table[j].payload == Resolve(cache, o.table[j].payload.name)
    ensures ZeroWidth(r) == ZeroWidth(o)
  {
    if Mapped(o) then o
    else o.(target := Resolve(cache, o.target.name),
            table := seq(|o.table|, j requires 0 <= j < |o.table| => ResolveItem(cache, o.table[j])))
  }

  /** Mapping is done at most once: a second `Remap` changes nothing. */
  lemma RemapOnce(o: Opt, cache: seq<Item<nat>>, cache': seq<Item<nat>>)
    ensures Remapped(Remapped(o, cache), cache') == Remapped(o, cache)
  {
  }

  /**
   * How binding may change an option: it is remapped or not, and its recolor
   * is raised from 0 to 1 or not (jsf.hh:588-590); nothing else changes.
   */
  predicate Evolved(before: Opt, after: Opt, cache: seq<Item<nat>>)
  {
    var same := after.(recolor := before.recolor);
    (same == before || same == Remapped(before, cache)) &&
    (after.recolor == before.recolor || (before.recolor == 0 && after.recolor == 1))
  }

  /** What evolution keeps: the zero-width test, and every mapped target and table. */
  lemma EvolvedKeeps(before: Opt, after: Opt, cache: seq<Item<nat>>)
    requires Evolved(before, after, cache)
    ensures ZeroWidth(after) == ZeroWidth(before)
    ensures Mapped(before) ==> after.target == before.target && after.table == before.table
    ensures Settled(before) ==> Settled(after)
  {
  }

  lemma {:induction false} EvolvedTrans(a: Opt, b: Opt, c: Opt, cache: seq<Item<nat>>)
    requires Evolved(a, b, cache) && Evolved(b, c, cache)
    ensures Evolved(a, c, cache)
  {
    var sb := b.(recolor := a.recolor);
    var sc := c.(recolor := b.recolor);
    if sb == a {
      assert c.(recolor := a.recolor) == sc.(recolor := a.recolor);
      if sc == b {
        assert sc.(recolor := a.recolor) == a;
      } else {
        assert Remapped(b, cache).(recolor := a.recolor) == Remapped(a, cache);
      }
    } else {
      assert Mapped(b);
      assert c.(recolor := a.recolor) == Remapped(a, cache);
    }
  }

  /** A target that is null or names an existing state. */
  predicate TargetOk(t: Target, n: nat)
  {
    t.Ref? ==> t.index < n
  }

  /** Every pointer in the arenas points into them, and every slot array has 256 slots. */
  predicate WellFormed(states: seq<State>, options: seq<Opt>)
  {
    (forall i :: 0 <= i < |states| ==> |states[i].slots| == SlotCount) &&
    (forall i, a :: 0 <= i < |states| && 0 <= a < |states[i].slots| && states[i].slots[a].Some? ==>
       states[i].slots[a].value < |options|) &&
    (forall o :: 0 <= o < |options| ==> TargetOk(options[o].target, |states|)) &&
    (forall o, j :: 0 <= o < |options| && 0 <= j < |options[o].table| ==>
       TargetOk(options[o].table[j].payload, |states|))
  }

  /** A resolved name points below k: the cache holds only the states below k. */
  lemma ResolveInRange(cache: seq<Item<nat>>, states: seq<State>, k: nat, name: Str)
    requires k <= |states| && IsCache(cache, states, k)
    ensures TargetOk(Resolve(cache, name), k)
  {
    LookupFound(cache, name, false, 0, |cache|);
    var r := Lookup(cache, name, false, false, 0, |cache|);
    if r.Some? {
      var i :| 0 <= i < |cache| && cache[i].payload == r.value && Probe(cache[i].token, name, false, false) == 0;
      var entries := CacheEntries(states, k);
      assert cache[i] in multiset(cache);
      assert cache[i] in multiset(entries);
      var m :| 0 <= m < |entries| && entries[m] == cache[i];
    }
  }

  /** Remapping with the cache of all states keeps every pointer inside the arena. */
  lemma RemappedOk(o: Opt, cache: seq<Item<nat>>, states: seq<State>)
    requires IsCache(cache, states, |states|)
    requires TargetOk(o.target, |states|)
    requires forall j :: 0 <= j < |o.table| ==> TargetOk(o.table[j].payload, |states|)
    ensures TargetOk(Remapped(o, cache).target, |states|)
    ensures forall j :: 0 <= j < |o.table| ==> TargetOk(Remapped(o, cache).table[j].payload, |states|)
  {
    if !Mapped(o) {
      ResolveInRange(cache, states, |states|, o.target.name);
      forall j | 0 <= j < |o.table|
        ensures TargetOk(Remapped(o, cache).table[j].payload, |states|)
      {
        if o.table[j].payload.Name? {
          ResolveInRange(cache, states, |states|, o.table[j].payload.name);
        }
      }
    }
  }

  /** Remapping an evolved option is still an evolution of the original. */
  lemma EvolvedRemap(orig: Opt, cur: Opt, cache: seq<Item<nat>>)
    requires Evolved(orig, cur, cache)
    ensures Evolved(orig, Remapped(cur, cache), cache)
  {
    if !Mapped(cur) {
      assert cur.(recolor := orig.recolor) == orig;
      assert Remapped(cur, cache).(recolor := orig.recolor) == Remapped(orig, cache);
    }
  }

  /** Raising a recolor of 0 to 1 is still an evolution of the original. */
  lemma EvolvedBump(orig: Opt, cur: Opt, cache: seq<Item<nat>>)
    requires Evolved(orig, cur, cache) && cur.recolor == 0
    ensures Evolved(orig, cur.(recolor := 1), cache)
  {
    assert cur.(recolor := 1).(recolor := orig.recolor) == cur.(recolor := orig.recolor);
  }

  /** Binding changes no state's name or colour, and fills or empties no slot. */
  predicate SameShape(before: seq<State>, after: seq<State>)
  {
    |after| == |before| &&
    (forall i :: 0 <= i < |before| ==>
       after[i].name == before[i].name && after[i].attr == before[i].attr &&
       |after[i].slots| == |before[i].slots|) &&
    (forall i, a :: 0 <= i < |before| && 0 <= a < |before[i].slots| ==>
       after[i].slots[a].Some? == before[i].slots[a].Some?)
  }

  /** The populated slots of state i below `upto` point at settled options. */
  predicate SlotsSettled(states: seq<State>, options: seq<Opt>, i: nat, upto: nat)
    requires WellFormed(states, options) && i < |states|
  {
    forall a :: 0 <= a < upto && a < |states[i].slots| && states[i].slots[a].Some? ==>
      Settled(options[states[i].slots[a].value])
  }

  /** Every populated slot of the states from `from` on points at a settled option. */
  predicate SettledFrom(states: seq<State>, options: seq<Opt>, from: nat)
    requires WellFormed(states, options)
  {
    forall i :: from <= i < |states| ==> SlotsSettled(states, options, i, SlotCount)
  }

  /**
   * Settled slots stay settled while their contents stay put and the options
   * only evolve.
   */
  lemma SlotsSettledKept(s1: seq<State>, o1: seq<Opt>, s2: seq<State>, o2: seq<Opt>, i: nat, upto: nat,
                         cache: seq<Item<nat>>)
    requires WellFormed(s1, o1) && WellFormed(s2, o2) && i < |s1| == |s2| && |o1| == |o2|
    requires SlotsSettled(s1, o1, i, upto)
    requires |s2[i].slots| == |s1[i].slots|
    requires forall a :: 0 <= a < upto && a < |s1[i].slots| ==> s2[i].slots[a] == s1[i].slots[a]
    requires forall k :: 0 <= k < |o1| ==> Evolved(o1[k], o2[k], cache)
    ensures SlotsSettled(s2, o2, i, upto)
  {
    forall a | 0 <= a < upto && a < |s2[i].slots| && s2[i].slots[a].Some?
      ensures Settled(o2[s2[i].slots[a].value])
    {
      var k := s1[i].slots[a].value;
      EvolvedKeeps(o1[k], o2[k], cache);
    }
  }

  /**
   * Binding slot a of state s keeps the later states settled and the slots of
   * s below a settled, and settles slot a itself when its option is settled.
   */
  lemma KeptSettled(s1: seq<State>, o1: seq<Opt>, s2: seq<State>, o2: seq<Opt>, s: nat, a: nat, next: nat,
                    cache: seq<Item<nat>>)
    requires WellFormed(s1, o1) && WellFormed(s2, o2) && s < |s1| && a < SlotCount && next == a + 1
    requires Kept(s1, o1, s2, o2, s, a, cache)
    requires SettledFrom(s1, o1, s + 1) && SlotsSettled(s1, o1, s, a)
    requires s2[s].slots[a].Some? ==> Settled(o2[s2[s].slots[a].value])
    ensures SettledFrom(s2, o2, s + 1) && SlotsSettled(s2, o2, s, next)
  {
    forall i | s < i < |s2| ensures SlotsSettled(s2, o2, i, SlotCount) {
      SlotsSettledKept(s1, o1, s2, o2, i, SlotCount, cache);
    }
    SlotsSettledKept(s1, o1, s2, o2, s, a, cache);
  }

  /** An empty slot needs no settling. */
  lemma SlotsSettledSkip(states: seq<State>, options: seq<Opt>, i: nat, a: nat, next: nat)
    requires WellFormed(states, options) && i < |states| && a < |states[i].slots| && next == a + 1
    requires SlotsSettled(states, options, i, a) && states[i].slots[a].None?
    ensures SlotsSettled(states, options, i, next)
  {
  }

  /** Settling every slot of state s extends the settled states down to s. */
  lemma SettledExtend(states: seq<State>, options: seq<Opt>, s: nat)
    requires WellFormed(states, options) && s < |states|
    requires SettledFrom(states, options, s + 1) && SlotsSettled(states, options, s, SlotCount)
    ensures SettledFrom(states, options, s)
  {
  }

  /** The state cache depends on the names only. */
  lemma CacheSameShape(s1: seq<State>, s2: seq<State>, k: nat)
    requires SameShape(s1, s2) && k <= |s1|
    ensures CacheEntries(s1, k) == CacheEntries(s2, k)
  {
    var c1, c2 := CacheEntries(s1, k), CacheEntries(s2, k);
    assert forall j :: 0 <= j < k ==> c1[j] == c2[j];
  }

  /** What binding does to the arenas: the states keep their shape and every option only evolves. */
  predicate BoundFrom(s1: seq<State>, o1: seq<Opt>, s2: seq<State>, o2: seq<Opt>, cache: seq<Item<nat>>)
  {
    SameShape(s1, s2) && |o2| == |o1| &&
    (forall k :: 0 <= k < |o1| ==> Evolved(o1[k], o2[k], cache))
  }

  lemma BoundFromTrans(s1: seq<State>, o1: seq<Opt>, s2: seq<State>, o2: seq<Opt>, s3: seq<State>, o3: seq<Opt>,
                   cache: seq<Item<nat>>)
    requires BoundFrom(s1, o1, s2, o2, cache) && BoundFrom(s2, o2, s3, o3, cache)
    ensures BoundFrom(s1, o1, s3, o3, cache)
  {
    forall k | 0 <= k < |o1| ensures Evolved(o1[k], o3[k], cache) {
      EvolvedTrans(o1[k], o2[k], o3[k], cache);
    }
  }

  /** What binding slot a of state s has done so far: `BoundFrom`, with every other slot untouched. */
  predicate Kept(s1: seq<State>, o1: seq<Opt>, s2: seq<State>, o2: seq<Opt>, s: nat, a: nat, cache: seq<Item<nat>>)
  {
    BoundFrom(s1, o1, s2, o2, cache) &&
    (forall i, b :: 0 <= i < |s1| && 0 <= b < |s1[i].slots| && (i != s || b != a) ==>
       s2[i].slots[b] == s1[i].slots[b])
  }

  lemma KeptRefl(s1: seq<State>, o1: seq<Opt>, s: nat, a: nat, cache: seq<Item<nat>>)
    ensures Kept(s1, o1, s1, o1, s, a, cache)
  {
  }

  lemma KeptTrans(s1: seq<State>, o1: seq<Opt>, s2: seq<State>, o2: seq<Opt>, s3: seq<State>, o3: seq<Opt>,
                  s: nat, a: nat, cache: seq<Item<nat>>)
    requires Kept(s1, o1, s2, o2, s, a, cache) && Kept(s2, o2, s3, o3, s, a, cache)
    ensures Kept(s1, o1, s3, o3, s, a, cache)
  {
    BoundFromTrans(s1, o1, s2, o2, s3, o3, cache);
  }

  /** Writing another option into the populated slot a of state s. */
  lemma KeptSetSlot(s1: seq<State>, o1: seq<Opt>, s: nat, a: nat, v: nat, cache: seq<Item<nat>>)
    requires s < |s1| && a < |s1[s].slots| && s1[s].slots[a].Some?
    ensures Kept(s1, o1, s1[s := s1[s].(slots := s1[s].slots[a := Some(v)])], o1, s, a, cache)
  {
  }

  /** Remapping an option. */
  lemma KeptRemap(s1: seq<State>, o1: seq<Opt>, k: nat, s: nat, a: nat, cache: seq<Item<nat>>)
    requires k < |o1|
    ensures Kept(s1, o1, s1, o1[k := Remapped(o1[k], cache)], s, a, cache)
  {
    EvolvedRemap(o1[k], o1[k], cache);
  }

  /** Raising a recolor of 0 to 1. */
  lemma KeptBump(s1: seq<State>, o1: seq<Opt>, k: nat, s: nat, a: nat, cache: seq<Item<nat>>)
    requires k < |o1| && o1[k].recolor == 0
    ensures Kept(s1, o1, s1, o1[k := o1[k].(recolor := 1)], s, a, cache)
  {
    EvolvedBump(o1[k], o1[k], cache);
  }

  /** A mapped evolution of an option has the target the remapping of the original gives. */
  lemma EvolvedTarget(before: Opt, after: Opt, cache: seq<Item<nat>>)
    requires Evolved(before, after, cache) && Mapped(after)
    ensures after.target == Remapped(before, cache).target
  {
  }

  /**
   * One hop of the chain compression in the arenas `states`/`options` as they
   * were before binding: from option o along slot a, the option in slot a of
   * the state that o, remapped, targets; `None` at a null target or slot.
   */
  function HopOf(states: seq<State>, options: seq<Opt>, cache: seq<Item<nat>>, a: nat, o: nat): Option<nat>
  {
    if o >= |options| then None
    else
      var t := Remapped(options[o], cache).target;
      if t.Ref? && t.index < |states| && a < |states[t.index].slots| then states[t.index].slots[a] else None
  }

  /** The option n hops from `from` along slot a, or `None` when a hop finds nothing. */
  function ChainAfter(states: seq<State>, options: seq<Opt>, cache: seq<Item<nat>>, a: nat, from: nat, n: nat)
    : Option<nat>
    decreases n
  {
    if n == 0 then Some(from)
    else
      match HopOf(states, options, cache, a, from)
      case None => None
      case Some(m) => ChainAfter(states, options, cache, a, m, n - 1)
  }

  /** `to` is `from` or lies some hops further along slot a. */
  ghost predicate Reaches(states: seq<State>, options: seq<Opt>, cache: seq<Item<nat>>, a: nat, from: nat, to: nat)
  {
    exists n: nat :: ChainAfter(states, options, cache, a, from, n) == Some(to)
  }

  /** Chains join: n hops to `mid`, then k hops to `to`, are n + k hops. */
  lemma {:induction false} ChainJoin(states: seq<State>, options: seq<Opt>, cache: seq<Item<nat>>, a: nat,
                                     from: nat, mid: nat, to: nat, n: nat, k: nat)
    requires ChainAfter(states, options, cache, a, from, n) == Some(mid)
    requires ChainAfter(states, options, cache, a, mid, k) == Some(to)
    ensures ChainAfter(states, options, cache, a, from, n + k) == Some(to)
    decreases n
  {
    if n > 0 {
      var m := HopOf(states, options, cache, a, from).value;
      ChainJoin(states, options, cache, a, m, mid, to, n - 1, k);
    }
  }

  /** Reaching o, hopping once to m and reaching `to` from m reaches `to`. */
  lemma ReachesHop(states: seq<State>, options: seq<Opt>, cache: seq<Item<nat>>, a: nat,
                   from: nat, o: nat, m: nat, to: nat)
    requires Reaches(states, options, cache, a, from, o)
    requires HopOf(states, options, cache, a, o) == Some(m)
    requires Reaches(states, options, cache, a, m, to)
    ensures Reaches(states, options, cache, a, from, to)
  {
    var n: nat :| ChainAfter(states, options, cache, a, from, n) == Some(o);
    var k: nat :| ChainAfter(states, options, cache, a, m, k) == Some(to);
    assert ChainAfter(states, options, cache, a, o, k + 1) == Some(to);
    ChainJoin(states, options, cache, a, from, o, to, n, k + 1);
  }

  /**
   * Every populated slot of `states` holds an option that the same slot of
   * `s0`, the states before binding, reaches along that slot.
   */
  ghost predicate Traced(s0: seq<State>, o0: seq<Opt>, cache: seq<Item<nat>>, states: seq<State>)
  {
    forall i, b :: 0 <= i < |states| && 0 <= b < |states[i].slots| && states[i].slots[b].Some? ==>
      i < |s0| && b < |s0[i].slots| && s0[i].slots[b].Some? &&
      Reaches(s0, o0, cache, b, s0[i].slots[b].value, states[i].slots[b].value)
  }

  /** Before binding, every slot holds what it holds. */
  lemma TracedRefl(s0: seq<State>, o0: seq<Opt>, cache: seq<Item<nat>>)
    ensures Traced(s0, o0, cache, s0)
  {
    forall i, b | 0 <= i < |s0| && 0 <= b < |s0[i].slots| && s0[i].slots[b].Some?
      ensures Reaches(s0, o0, cache, b, s0[i].slots[b].value, s0[i].slots[b].value)
    {
      assert ChainAfter(s0, o0, cache, b, s0[i].slots[b].value, 0) == Some(s0[i].slots[b].value);
    }
  }

  /**
   * A hop of the compression keeps every slot traced: slot a of state s, which
   * held the mapped option o, now holds what slot a of o's target held, or
   * still holds o.
   */
  lemma CompressTraced(s0: seq<State>, o0: seq<Opt>, cache: seq<Item<nat>>, s1: seq<State>, o1: seq<Opt>,
                       s2: seq<State>, o2: seq<Opt>, s: nat, a: nat, o: nat)
    requires BoundFrom(s0, o0, s1, o1, cache) && Traced(s0, o0, cache, s1) && Kept(s1, o1, s2, o2, s, a, cache)
    requires WellFormed(s1, o1) && s < |s1| && a < |s1[s].slots| && s1[s].slots[a] == Some(o) && Mapped(o1[o])
    requires s2[s].slots[a] == Some(o) ||
             (o1[o].target.Ref? && s2[s].slots[a] == s1[o1[o].target.index].slots[a])
    ensures Traced(s0, o0, cache, s2)
  {
    if s2[s].slots[a] != Some(o) {
      var t := o1[o].target.index;
      var next := s2[s].slots[a].value;
      EvolvedTarget(o0[o], o1[o], cache);
      assert HopOf(s0, o0, cache, a, o) == s0[t].slots[a];
      ReachesHop(s0, o0, cache, a, s0[s].slots[a].value, o, s0[t].slots[a].value, next);
    }
    forall i, b | 0 <= i < |s2| && 0 <= b < |s2[i].slots| && s2[i].slots[b].Some?
      ensures i < |s0| && b < |s0[i].slots| && s0[i].slots[b].Some? &&
              Reaches(s0, o0, cache, b, s0[i].slots[b].value, s2[i].slots[b].value)
    {
      if i != s || b != a {
        assert s2[i].slots[b] == s1[i].slots[b];
      }
    }
  }

  /** Parsing only ever adds states and rewrites slots: every state keeps its name and its colour. */
  predicate HeadersKept(s1: seq<State>, s2: seq<State>)
  {
    |s2| >= |s1| && forall i :: 0 <= i < |s1| ==> s2[i].name == s1[i].name && s2[i].attr == s1[i].attr
  }

  lemma HeadersKeptTrans(s1: seq<State>, s2: seq<State>, s3: seq<State>)
    requires HeadersKept(s1, s2) && HeadersKept(s2, s3)
    ensures HeadersKept(s1, s3)
  {
  }

  /** A new state with a C-string name and null slots keeps the arenas well formed and every earlier name and colour. */
  lemma AppendStateKeeps(states: seq<State>, options: seq<Opt>, st: State)
    requires WellFormed(states, options) && NamesNoNul(states) && NoNul(st.name) && |st.slots| == SlotCount
    requires forall a :: 0 <= a < SlotCount ==> st.slots[a].None?
    ensures WellFormed(states + [st], options) && NamesNoNul(states + [st]) && HeadersKept(states, states + [st])
  {
    AppendStateOk(states, options, st);
    assert forall i :: 0 <= i < |states| ==> (states + [st])[i] == states[i];
  }

  lemma AppendStateOk(states: seq<State>, options: seq<Opt>, st: State)
    requires WellFormed(states, options) && |st.slots| == SlotCount
    requires forall a :: 0 <= a < SlotCount ==> st.slots[a].None?
    ensures WellFormed(states + [st], options)
  {
    var s' := states + [st];
    forall i, a | 0 <= i < |s'| && 0 <= a < |s'[i].slots| && s'[i].slots[a].Some?
      ensures s'[i].slots[a].value < |options|
    {
      assert i < |states|;
      assert s'[i] == states[i];
    }
  }

  /** A new option whose target and table entries are names keeps the arenas well formed. */
  lemma AppendOptionOk(states: seq<State>, options: seq<Opt>, o: Opt)
    requires WellFormed(states, options) && TargetOk(o.target, |states|)
    requires forall j :: 0 <= j < |o.table| ==> TargetOk(o.table[j].payload, |states|)
    ensures WellFormed(states, options + [o])
  {
    var o' := options + [o];
    forall k | 0 <= k < |o'| ensures TargetOk(o'[k].target, |states|) {
      if k < |options| { assert o'[k] == options[k]; }
    }
    forall k, j | 0 <= k < |o'| && 0 <= j < |o'[k].table| ensures TargetOk(o'[k].table[j].payload, |states|) {
      if k < |options| { assert o'[k] == options[k]; }
    }
  }

  /** New slots for state h that point into the option arena keep it well formed. */
  lemma SetSlotsOk(states: seq<State>, options: seq<Opt>, h: nat, slots: seq<Option<nat>>)
    requires WellFormed(states, options) && h < |states| && |slots| == SlotCount
    requires forall a :: 0 <= a < SlotCount && slots[a].Some? ==> slots[a].value < |options|
    ensures WellFormed(states[h := states[h].(slots := slots)], options)
  {
  }
}
