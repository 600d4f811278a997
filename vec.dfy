/**
 * `VecType` of vecbase.hh: the growable array the editor uses where the
 * compiler has no `std::vector`. Its buffer is an `array` of capacity `cap`
 * whose first `len` elements are the contents; elements have value semantics.
 */
module Vector {

  /** `default_size()` (vecbase.hh:657-660): the capacity of the first allocation. */
  const DefaultSize: nat := 1

  /** The capacity `push_back` and `insert` grow to: double, or the default size when there is none (vecbase.hh:203, 235). */
  function Grown(cap: nat): (r: nat)
    ensures r > cap && r >= DefaultSize
  {
    if cap == 0 then DefaultSize else cap * 2
  }

  /** The contents s with r inserted before position p. */
  function Inserted<T>(s: seq<T>, p: nat, r: seq<T>): (t: seq<T>)
    requires p <= |s|
    ensures |t| == |s| + |r|
  {
    s[..p] + r + s[p..]
  }

  /** The contents s without the `count` elements from position p on. */
  function Erased<T>(s: seq<T>, p: nat, count: nat): (t: seq<T>)
    requires p + count <= |s|
    ensures |t| == |s| - count
  {
    s[..p] + s[p + count..]
  }

  /** The contents s cut or padded with v to length n. */
  function Resized<T>(s: seq<T>, n: nat, v: T): (t: seq<T>)
    ensures |t| == n
  {
    if n <= |s| then s[..n] else s + seq(n - |s|, _ => v)
  }

  /** Inserting and then erasing the same elements gives back the contents. */
  lemma EraseUndoesInsert<T>(s: seq<T>, p: nat, r: seq<T>)
    requires p <= |s|
    ensures Erased(Inserted(s, p, r), p, |r|) == s
  {
    var t := Inserted(s, p, r);
    assert t[..p] == s[..p];
    assert t[p + |r|..] == s[p..];
    assert s[..p] + s[p..] == s;
  }

  /** Erasing and then inserting the erased elements back gives back the contents. */
  lemma InsertUndoesErase<T>(s: seq<T>, p: nat, count: nat)
    requires p + count <= |s|
    ensures Inserted(Erased(s, p, count), p, s[p..p + count]) == s
  {
    var t := Erased(s, p, count);
    assert t[..p] == s[..p];
    assert t[p..] == s[p + count..];
    assert s[..p] + s[p..p + count] + s[p + count..] == s;
  }

  /** Where each element of an insertion comes from. */
  lemma InsertedAt<T>(s: seq<T>, p: nat, r: seq<T>, i: nat)
    requires p <= |s| && i < |s| + |r|
    ensures Inserted(s, p, r)[i] == if i < p then s[i] else if i < p + |r| then r[i - p] else s[i - |r|]
  {
  }

  /** Where each element of an erasure comes from. */
  lemma ErasedAt<T>(s: seq<T>, p: nat, count: nat, i: nat)
    requires p + count <= |s| && i < |s| - count
    ensures Erased(s, p, count)[i] == if i < p then s[i] else s[i + count]
  {
  }

  /** Resizing keeps the first min(n, |s|) elements and pads with v; resizing to the length changes nothing. */
  lemma ResizedKeeps<T>(s: seq<T>, n: nat, v: T)
    ensures forall i :: 0 <= i < n && i < |s| ==> Resized(s, n, v)[i] == s[i]
    ensures forall i :: |s| <= i < n ==> Resized(s, n, v)[i] == v
    ensures Resized(s, |s|, v) == s
  {
  }

  /** Shrinking and growing back with v gives the prefix padded with v. */
  lemma ResizeTwice<T>(s: seq<T>, m: nat, n: nat, v: T)
    requires m <= n
    ensures Resized(Resized(s, m, v), n, v) == Resized(s[..if m <= |s| then m else |s|], n, v)
  {
  }

  /**
   * The contents `operator=` leaves as written (vecbase.hh:103-114): b's when
   * the lengths differ, but the old contents when they are equal, for
   * neither copying branch is taken then.
   */
  function AssignedAsWritten<T>(a: seq<T>, b: seq<T>): (r: seq<T>)
    ensures |r| == |b|
    ensures |a| != |b| ==> r == b
  {
    if |a| == |b| then a else b
  }

  /** Assigning [1] to a vector holding [0] leaves it holding [0]. */
  lemma AssignEqualLengthKeepsOld()
    ensures AssignedAsWritten([0], [1]) == [0] != [1]
  {
  }

  /** `copy_construct`/`copy_assign` (vecbase.hh:627-655): src written into dst from index `at`. */
  method CopyIn<T>(dst: array<T>, at: nat, src: seq<T>)
    requires at + |src| <= dst.Length
    modifies dst
    ensures forall i :: 0 <= i < dst.Length ==> dst[i] == if at <= i < at + |src| then src[i - at] else old(dst[i])
  {
    var a := 0;
    while a < |src|
      invariant a <= |src|
      invariant forall i :: 0 <= i < dst.Length ==> dst[i] == if at <= i < at + a then src[i - at] else old(dst[i])
    {
      dst[at + a] := src[a];
      a := a + 1;
    }
  }

  /**
   * `move_assign` and `move_construct` (vecbase.hh:588-599, 612-626) within
   * one buffer: `count` elements copied from index `source` to index
   * `target`, front to back, so the target lies below the source or past it.
   */
  method MoveForward<T>(buf: array<T>, target: nat, source: nat, count: nat)
    requires target <= source || source + count <= target
    requires source + count <= buf.Length && target + count <= buf.Length
    modifies buf
    ensures forall i :: 0 <= i < buf.Length ==>
              buf[i] == if target <= i < target + count then old(buf[i - target + source]) else old(buf[i])
  {
    var a := 0;
    while a < count
      invariant a <= count
      invariant forall i :: 0 <= i < buf.Length ==>
                  buf[i] == if target <= i < target + a then old(buf[i - target + source]) else old(buf[i])
    {
      buf[target + a] := buf[source + a];
      a := a + 1;
    }
  }

  /**
   * `move_assign_backwards` (vecbase.hh:600-611, 634-640): `count` elements
   * copied from index `source` up to index `target`, back to front, within one
   * buffer.
   */
  method MoveUp<T>(buf: array<T>, target: nat, source: nat, count: nat)
    requires source <= target && target + count <= buf.Length
    modifies buf
    ensures forall i :: 0 <= i < buf.Length ==>
              buf[i] == if target <= i < target + count then old(buf[i - target + source]) else old(buf[i])
  {
    var a: nat := count;
    while a > 0
      invariant a <= count
      invariant forall i :: 0 <= i < buf.Length ==>
                  buf[i] == if target + a <= i < target + count then old(buf[i - target + source]) else old(buf[i])
    {
      a := a - 1;
      buf[target + a] := buf[source + a];
    }
  }

  /** `construct` (vecbase.hh:549-574): `count` copies of v from index `at`. */
  method Fill<T>(buf: array<T>, at: nat, count: nat, v: T)
    requires at + count <= buf.Length
    modifies buf
    ensures forall i :: 0 <= i < buf.Length ==> buf[i] == if at <= i < at + count then v else old(buf[i])
  {
    var a := 0;
    while a < count
      invariant a <= count
      invariant forall i :: 0 <= i < buf.Length ==> buf[i] == if at <= i < at + a then v else old(buf[i])
    {
      buf[at + a] := v;
      a := a + 1;
    }
  }

  /** A fresh buffer of capacity `cap` holding s at its front (`allocate` followed by `move_construct`). */
  method Reallocated<T(0)>(s: seq<T>, cap: nat) returns (buf: array<T>)
    requires |s| <= cap
    ensures fresh(buf) && buf.Length == cap && buf[..|s|] == s
  {
    buf := new T[cap];
    CopyIn(buf, 0, s);
  }

  class Vec<T(0)> {
    var data: array<T>
    var len: nat
    var cap: nat
    /** The value `T()` (or `(T)0`) that `resize` without a value fills with. */
    const zero: T

    ghost predicate Valid()
      reads this
    {
      len <= cap && cap == data.Length
    }

    /** The elements, `data[0..len)`. */
    function Contents(): seq<T>
      reads this, data
      requires Valid()
    {
      data[..len]
    }

    /** The empty vector (vecbase.hh:69): no buffer, no elements. */
    constructor (zero: T)
      ensures Valid() && fresh(data) && Contents() == [] && cap == 0 && this.zero == zero
    {
      data := new T[0];
      len, cap := 0, 0;
      this.zero := zero;
    }

    /** `reserve` (vecbase.hh:445-457): the capacity becomes `newcap` when it is smaller; the contents stay. */
    method Reserve(newcap: nat)
      requires Valid()
      modifies this
      ensures Valid() && Contents() == old(Contents()) && len == old(len)
      ensures cap == if old(cap) < newcap then newcap else old(cap)
      ensures data == old(data) || fresh(data)
    {
      if cap < newcap {
        data := Reallocated(data[..len], newcap);
        cap := newcap;
      }
    }

    /** `push_back` (vecbase.hh:200-209): value appended, growing the buffer when it is full. */
    method PushBack(value: T)
      requires Valid()
      modifies this, data
      ensures Valid() && Contents() == old(Contents()) + [value]
      ensures cap == if old(len) >= old(cap) then Grown(old(cap)) else old(cap)
      ensures data == old(data) || fresh(data)
    {
      if len >= cap {
        Reserve(Grown(cap));
      }
      data[len] := value;
      len := len + 1;
    }

    /**
     * `insert(pos, value)` (vecbase.hh:211-266): value inserted before
     * position p, which is returned. With room, the tail is shifted up in
     * place; a full buffer is replaced by one of the grown capacity, by
     * `reserve` when inserting at the end and by a fresh copy otherwise.
     */
    method Insert(p: nat, value: T) returns (r: nat)
      requires Valid() && p <= len
      modifies this, data
      ensures Valid() && Contents() == Inserted(old(Contents()), p, [value]) && r == p
      ensures cap == if old(len) < old(cap) then old(cap) else Grown(old(cap))
      ensures data == old(data) || fresh(data)
    {
      if len < cap {
        InsertShift(p, value);
        return p;
      }
      ghost var s := Contents();
      var newcap := Grown(cap);
      if p == len {
        Reserve(newcap);
        data[p] := value;
        len := len + 1;
        assert forall i :: 0 <= i < len ==> data[i] == Inserted(s, p, [value])[i];
        return p;
      }
      Relocate(p, [value], newcap);
      r := p;
    }

    /**
     * The in-place path of `insert(pos, value)` (vecbase.hh:214-233): the
     * last element is copied one place up, the rest of the tail moved up
     * backwards, and value written into the gap.
     */
    method InsertShift(p: nat, value: T)
      requires Valid() && p <= len < cap
      modifies this, data
      ensures Valid() && Contents() == Inserted(old(Contents()), p, [value])
      ensures data == old(data) && cap == old(cap)
    {
      ghost var s := Contents();
      if p < len {
        ShiftUpOne(p);
      }
      data[p] := value;
      len := len + 1;
      forall i | 0 <= i < len ensures data[i] == Inserted(s, p, [value])[i] {
        InsertedAt(s, p, [value], i);
      }
    }

    /** The two moves of the in-place `insert(pos, value)` (vecbase.hh:227-228): data[p..len) moves up one place. */
    method ShiftUpOne(p: nat)
      requires Valid() && p < len < cap
      modifies data
      ensures forall i :: 0 <= i < data.Length ==> data[i] == if p < i <= len then old(data[i - 1]) else old(data[i])
    {
      ghost var d0 := data[..];
      MoveForward(data, len, len - 1, 1);
      ghost var d1 := data[..];
      MoveUp(data, p + 1, p, len - p);
      forall i | 0 <= i < data.Length ensures data[i] == if p < i <= len then d0[i - 1] else d0[i] {
        if p < i <= len {
          assert data[i] == d1[i - 1] == d0[i - 1];
        } else {
          assert data[i] == d1[i] == d0[i];
        }
      }
    }

    /**
     * `insert(pos, first, last)` (vecbase.hh:268-427): the range inserted
     * before position p. With room for it the tail is moved up in place, in
     * the four steps of the source; otherwise a fresh buffer of capacity
     * `(cap + count) * 2` receives head, range and tail.
     */
    method InsertRange(p: nat, range: seq<T>)
      requires Valid() && p <= len
      modifies this, data
      ensures Valid() && Contents() == Inserted(old(Contents()), p, range)
      ensures cap == if old(len) + |range| <= old(cap) then old(cap) else (old(cap) + |range|) * 2
      ensures data == old(data) || fresh(data)
    {
      ghost var s := Contents();
      var count := |range|;
      if len + count <= cap {
        if p == len {
          CopyIn(data, p, range);
        } else {
          InsertShuffle(p, range);
        }
        len := len + count;
        assert forall i :: 0 <= i < len ==> data[i] == Inserted(s, p, range)[i];
        return;
      }
      Relocate(p, range, (cap + count) * 2);
    }

    /**
     * The path of both `insert`s without room (vecbase.hh:249-264 and
     * 409-421): a fresh buffer of capacity newcap receives the elements
     * before p, the range, then the rest.
     */
    method Relocate(p: nat, range: seq<T>, newcap: nat)
      requires Valid() && p <= len && len + |range| <= newcap
      modifies this
      ensures Valid() && Contents() == Inserted(old(Contents()), p, range)
      ensures cap == newcap && fresh(data)
    {
      ghost var s := Contents();
      var newdata := new T[newcap];
      CopyIn(newdata, 0, data[..p]);
      CopyIn(newdata, p, range);
      CopyIn(newdata, p + |range|, data[p..len]);
      len := len + |range|;
      data := newdata;
      cap := newcap;
      assert forall i :: 0 <= i < len ==> data[i] == Inserted(s, p, range)[i];
    }

    /**
     * The in-place path of `insert(pos, first, last)` (vecbase.hh:281-395)
     * for p < len: the part of the tail that lands past the end is moved
     * there, the rest of the tail is moved up backwards, and the range is
     * written over the gap and past the old end.
     */
    method InsertShuffle(p: nat, range: seq<T>)
      requires Valid() && p < len && len + |range| <= cap
      modifies data
      ensures forall i :: 0 <= i < len + |range| ==> data[i] == Inserted(old(Contents()), p, range)[i]
    {
      ghost var s := Contents();
      MoveTailUp(p, |range|);
      CopyRangeIn(p, range);
      forall i | 0 <= i < len + |range| ensures data[i] == Inserted(s, p, range)[i] {
        InsertedAt(s, p, range, i);
      }
    }

    /**
     * The first half of the in-place `insert` (vecbase.hh:292-351): the tail
     * data[p..len) moves up by count, the part that lands past the end first,
     * then the rest backwards.
     */
    method MoveTailUp(p: nat, count: nat)
      requires Valid() && p < len && len + count <= cap
      modifies data
      ensures forall i :: 0 <= i < data.Length ==>
                data[i] == if p + count <= i < len + count then old(data[i - count]) else old(data[i])
    {
      ghost var d0 := data[..];
      var tailLength := len - p;
      var afterArea := if count < tailLength then count else tailLength;
      var toMove := tailLength - afterArea;
      MoveForward(data, p + count + toMove, p + toMove, afterArea);
      ghost var d1 := data[..];
      if toMove > 0 {
        MoveUp(data, p + count, p, toMove);
      }
      forall i | 0 <= i < data.Length
        ensures data[i] == if p + count <= i < len + count then d0[i - count] else d0[i]
      {
        if p + count <= i < p + count + toMove {
          assert data[i] == d1[i - count] == d0[i - count];
        } else {
          assert data[i] == d1[i];
        }
      }
    }

    /**
     * The second half (vecbase.hh:352-395): the range is written over the gap
     * left at p, the part that reaches past the old end copied there.
     */
    method CopyRangeIn(p: nat, range: seq<T>)
      requires Valid() && p < len && p + |range| <= cap
      modifies data
      ensures forall i :: 0 <= i < data.Length ==> data[i] == if p <= i < p + |range| then range[i - p] else old(data[i])
    {
      var count := |range|;
      var pieceAfter := if p + count > len then p + count - len else 0;
      var toCopy := count - pieceAfter;
      if toCopy > 0 {
        CopyIn(data, p, range[..toCopy]);
      }
      if pieceAfter > 0 {
        CopyIn(data, len, range[toCopy..]);
      }
    }

    /** `erase(pos)` (vecbase.hh:429-434): the element at p removed, the rest moved down. */
    method Erase(p: nat)
      requires Valid() && p < len
      modifies this, data
      ensures Valid() && Contents() == Erased(old(Contents()), p, 1) && cap == old(cap) && data == old(data)
    {
      ghost var s := Contents();
      MoveForward(data, p, p + 1, len - p - 1);
      len := len - 1;
      assert forall i :: 0 <= i < len ==> data[i] == Erased(s, p, 1)[i];
    }

    /** `erase(first, last)` (vecbase.hh:435-443): `count` elements from p removed; none is a no-op. */
    method EraseRange(p: nat, count: nat)
      requires Valid() && p + count <= len
      modifies this, data
      ensures Valid() && Contents() == Erased(old(Contents()), p, count) && cap == old(cap) && data == old(data)
    {
      ghost var s := Contents();
      if count == 0 {
        assert s[..p] + s[p..] == s;
        return;
      }
      MoveForward(data, p, p + count, len - p - count);
      len := len - count;
      assert forall i :: 0 <= i < len ==> data[i] == Erased(s, p, count)[i];
    }

    /** `pop_back` (vecbase.hh:459-462): the last element dropped. */
    method PopBack()
      requires Valid() && len > 0
      modifies this
      ensures Valid() && Contents() == old(Contents())[..old(len) - 1] && cap == old(cap) && data == old(data)
    {
      len := len - 1;
    }

    /** `clear` (vecbase.hh:536-544): the buffer released; nothing happens without one. */
    method Clear()
      requires Valid()
      modifies this
      ensures Valid() && Contents() == [] && cap == 0
      ensures old(cap) == 0 ==> len == old(len) && data == old(data)
    {
      if cap == 0 {
        return;
      }
      len := 0;
      data := new T[0];
      cap := 0;
    }

    /**
     * `resize(newlen, value)` (vecbase.hh:494-522): cut to n elements, or
     * padded with `value`, in place while the capacity allows and in a fresh
     * buffer of capacity n otherwise.
     */
    method ResizeWith(n: nat, value: T)
      requires Valid()
      modifies this, data
      ensures Valid() && Contents() == Resized(old(Contents()), n, value)
      ensures cap == if n <= old(cap) then old(cap) else n
      ensures data == old(data) || fresh(data)
    {
      ghost var s := Contents();
      if n < len {
        len := n;
      } else if n == len {
        return;
      } else if n <= cap {
        Fill(data, len, n - len, value);
        len := n;
        assert forall i :: 0 <= i < n ==> data[i] == Resized(s, n, value)[i];
      } else {
        var newdata := Reallocated(data[..len], n);
        Fill(newdata, len, n - len, value);
        data := newdata;
        len := n;
        cap := n;
        assert forall i :: 0 <= i < n ==> data[i] == Resized(s, n, value)[i];
      }
    }

    /** `resize(newlen)` (vecbase.hh:464-492): as `ResizeWith`, padding with `T()`. */
    method Resize(n: nat)
      requires Valid()
      modifies this, data
      ensures Valid() && Contents() == Resized(old(Contents()), n, zero)
      ensures cap == if n <= old(cap) then old(cap) else n
      ensures data == old(data) || fresh(data)
    {
      ResizeWith(n, zero);
    }

    /**
     * `assign(first, last)` (vecbase.hh:125-148): the contents become the
     * range, in a fresh buffer of exactly its size when it does not fit.
     */
    method Assign(range: seq<T>)
      requires Valid()
      modifies this, data
      ensures Valid() && Contents() == range
      ensures cap == if old(cap) < |range| then |range| else old(cap)
      ensures data == old(data) || fresh(data)
    {
      var newlen := |range|;
      if cap < newlen {
        data := Reallocated(range, newlen);
        cap := newlen;
      } else if len < newlen {
        CopyIn(data, 0, range[..len]);
        CopyIn(data, len, range[len..]);
      } else {
        CopyIn(data, 0, range);
      }
      len := newlen;
      assert forall i :: 0 <= i < len ==> data[i] == range[i];
    }

    /** `assign(n, value)` (vecbase.hh:150-178): the contents become n copies of `value`. */
    method AssignFill(n: nat, value: T)
      requires Valid()
      modifies this, data
      ensures Valid() && Contents() == seq(n, _ => value)
      ensures cap == if old(cap) < n then n else old(cap)
      ensures data == old(data) || fresh(data)
    {
      if cap < n {
        data := new T[n];
        Fill(data, 0, n, value);
        cap := n;
      } else if len < n {
        Fill(data, 0, len, value);
        Fill(data, len, n - len, value);
      } else {
        Fill(data, 0, n, value);
      }
      len := n;
      assert forall i :: 0 <= i < len ==> data[i] == value;
    }

    /** `swap` (vecbase.hh:524-533): the two vectors exchange buffers, lengths and capacities. */
    method Swap(b: Vec<T>)
      requires Valid() && b.Valid()
      modifies this, b
      ensures Valid() && b.Valid()
      ensures data == old(b.data) && len == old(b.len) && cap == old(b.cap)
      ensures b.data == old(data) && b.len == old(len) && b.cap == old(cap)
      ensures Contents() == old(b.Contents()) && b.Contents() == old(Contents())
    {
      var l := b.len;
      b.len := len;
      len := l;
      l := b.cap;
      b.cap := cap;
      cap := l;
      var d := b.data;
      b.data := data;
      data := d;
    }

    /**
     * `operator=` (vecbase.hh:100-116) as written: the buffer is grown by
     * `reserve` when b is longer and never shrunk, and b's elements are copied
     * only when the lengths differ. Distinct vectors own distinct buffers.
     */
    method CopyFromAsWritten(b: Vec<T>)
      requires Valid() && b.Valid() && (b != this ==> b.data != data)
      modifies this, data
      ensures Valid() && b.Valid() && b.Contents() == old(b.Contents())
      ensures Contents() == if b == this then old(Contents()) else AssignedAsWritten(old(Contents()), old(b.Contents()))
      ensures cap == if old(len) < old(b.len) && old(cap) < old(b.len) then old(b.len) else old(cap)
      ensures data == old(data) || fresh(data)
    {
      if b == this {
        return;
      }
      ghost var s := Contents();
      if len < b.len {
        Reserve(b.len);
        CopyIn(data, 0, b.data[..len]);
        CopyIn(data, len, b.data[len..b.len]);
      } else if len > b.len {
        CopyIn(data, 0, b.data[..b.len]);
      }
      len := b.len;
      assert forall i :: 0 <= i < len ==> data[i] == AssignedAsWritten(s, b.Contents())[i];
    }

    /**
     * `operator=` as evidently intended: as `CopyFromAsWritten`, but the
     * elements are copied when the lengths are equal too, so the contents
     * always become b's.
     */
    method CopyFrom(b: Vec<T>)
      requires Valid() && b.Valid() && (b != this ==> b.data != data)
      modifies this, data
      ensures Valid() && b.Valid() && Contents() == old(b.Contents()) && b.Contents() == old(b.Contents())
      ensures cap == if old(len) < old(b.len) && old(cap) < old(b.len) then old(b.len) else old(cap)
      ensures data == old(data) || fresh(data)
    {
      if b == this {
        return;
      }
      if len < b.len {
        Reserve(b.len);
        CopyIn(data, 0, b.data[..len]);
        CopyIn(data, len, b.data[len..b.len]);
      } else {
        CopyIn(data, 0, b.data[..b.len]);
      }
      len := b.len;
      assert forall i :: 0 <= i < len ==> data[i] == b.data[i];
    }
  }
}
