/**
 * The ABI-stable growable array of `xlang_abi` (`xlang/xlang_abi/src/vec.rs`).
 *
 * A `Vec` owns a buffer of `cap` slots of which the first `len` hold its
 * elements.  The buffer is an `array` whose length is the capacity; the ghost
 * `Contents` is the sequence of live elements.  Capacities are always powers
 * of two once anything was allocated, and growth reallocates to the next one.
 */
module AbiVec {
  import opened Wrappers
  import opened Prim

  // --------------------------------------------------------- capacities

  /** Powers of two: 1, 2, 4, ... */
  predicate IsPow2(p: nat)
    decreases p
  {
    p == 1 || (p > 1 && p % 2 == 0 && IsPow2(p / 2))
  }

  function NextPow2From(n: nat, p: nat): (q: nat)
    requires IsPow2(p)
    ensures IsPow2(q) && q >= n && q >= p
    decreases n - p
  {
    if p >= n then p else NextPow2From(n, 2 * p)
  }

  /**
   * `usize::checked_next_power_of_two` without its overflow case: the
   * least power of two that is at least `n` (so 0 and 1 both give 1).
   */
  function NextPow2(n: nat): (p: nat)
    ensures IsPow2(p) && p >= n && p >= 1
  {
    NextPow2From(n, 1)
  }

  lemma {:induction false} Pow2Doubles(p: nat, q: nat)
    requires IsPow2(p) && IsPow2(q) && p < q
    ensures 2 * p <= q
    decreases q
  {
    if p != 1 {
      Pow2Doubles(p / 2, q / 2);
    }
  }

  lemma {:induction false} NextPow2FromLeast(n: nat, p: nat, q: nat)
    requires IsPow2(p) && IsPow2(q) && q >= n && p <= q
    ensures NextPow2From(n, p) <= q
    decreases n - p
  {
    if p < n {
      Pow2Doubles(p, q);
      NextPow2FromLeast(n, 2 * p, q);
    }
  }

  /** `NextPow2(n)` is the least power of two at or above `n`. */
  lemma NextPow2Least(n: nat, q: nat)
    requires IsPow2(q) && q >= n
    ensures NextPow2(n) <= q
  {
    NextPow2FromLeast(n, 1, q);
  }

  /** A power of two is its own next power of two. */
  lemma NextPow2OfPow2(p: nat)
    requires IsPow2(p)
    ensures NextPow2(p) == p
  {
    NextPow2Least(p, p);
  }

  // ----------------------------------------------------------------- Vec

  class Vec<T(0)> {
    ghost var Contents: seq<T>
    ghost var Repr: set<object>

    var buf: array<T>
    var len: nat
    var cap: nat

    ghost predicate Valid()
      reads this, Repr
      ensures Valid() ==> this in Repr
    {
      Repr == {this, buf} &&
      buf.Length == cap && len <= cap &&
      Contents == buf[..len]
    }

    /** `new_in`: an empty vector that has not allocated. */
    constructor NewIn()
      ensures Valid() && fresh(Repr)
      ensures Contents == [] && cap == 0
    {
      buf := new T[0];
      len, cap := 0, 0;
      Contents := [];
      Repr := {this, buf};
    }

    /** `with_capacity_in`: an empty vector whose capacity is the next power of two above `n`. */
    constructor WithCapacityIn(n: nat)
      ensures Valid() && fresh(Repr)
      ensures Contents == [] && cap == NextPow2(n) && cap >= n
    {
      var c := NextPow2(n);
      buf := new T[c];
      len, cap := 0, c;
      Contents := [];
      Repr := {this, buf};
    }

    /** `reallocate`: grows the buffer to `ncap` slots when that is larger; never shrinks. */
    method Reallocate(ncap: nat)
      requires Valid()
      modifies Repr
      ensures Valid() && fresh(Repr - old(Repr))
      ensures Contents == old(Contents)
      ensures cap == if ncap > old(cap) then ncap else old(cap)
    {
      if ncap > cap {
        var nb := new T[ncap];
        forall i | 0 <= i < len {
          nb[i] := buf[i];
        }
        buf, cap := nb, ncap;
        Repr := {this, buf};
      }
    }

    /** `push`: appends `v`, first growing to the next power of two when full. */
    method Push(v: T)
      requires Valid()
      modifies Repr
      ensures Valid() && fresh(Repr - old(Repr))
      ensures Contents == old(Contents) + [v]
      ensures cap == if old(len) == old(cap) then NextPow2(old(cap) + 1) else old(cap)
    {
      if len == cap {
        Reallocate(NextPow2(cap + 1));
      }
      buf[len] := v;
      len := len + 1;
      Contents := buf[..len];
    }

    /** `pop`: removes and returns the last element, `None` when empty; the capacity is kept. */
    method Pop() returns (r: Option<T>)
      requires Valid()
      modifies Repr
      ensures Valid() && fresh(Repr - old(Repr))
      ensures old(Contents) == [] ==> r.None? && Contents == []
      ensures old(Contents) != [] ==>
        r == Some(old(Contents)[|old(Contents)| - 1]) && Contents == old(Contents)[..|old(Contents)| - 1]
      ensures cap == old(cap)
    {
      if len == 0 {
        r := None;
      } else {
        len := len - 1;
        r := Some(buf[len]);
        Contents := buf[..len];
      }
    }

    /** `reserve`: afterwards at least `additional` more elements fit without reallocating. */
    method Reserve(additional: nat)
      requires Valid()
      modifies Repr
      ensures Valid() && fresh(Repr - old(Repr))
      ensures Contents == old(Contents)
      ensures cap >= |Contents| + additional
      ensures cap == if old(cap) < NextPow2(old(len) + additional) then NextPow2(old(len) + additional) else old(cap)
    {
      var ncap := NextPow2(len + additional);
      if cap < ncap {
        Reallocate(ncap);
      }
    }

    /** `clear`: drops every element and keeps the capacity. */
    method Clear()
      requires Valid()
      modifies Repr
      ensures Valid() && fresh(Repr - old(Repr))
      ensures Contents == [] && cap == old(cap)
    {
      len := 0;
      Contents := [];
    }

    /** `extend_from_slice`: appends `xs`, reallocating at most once (in the up-front reserve). */
    method ExtendFromSlice(xs: seq<T>)
      requires Valid()
      modifies Repr
      ensures Valid() && fresh(Repr - old(Repr))
      ensures Contents == old(Contents) + xs
      ensures cap == if old(cap) < NextPow2(old(len) + |xs|) then NextPow2(old(len) + |xs|) else old(cap)
    {
      Reserve(|xs|);
      ghost var reserved := cap;
      var i := 0;
      while i < |xs|
        invariant 0 <= i <= |xs|
        invariant Valid() && fresh(Repr - old(Repr))
        invariant Contents == old(Contents) + xs[..i]
        invariant cap == reserved && cap >= |old(Contents)| + |xs|
      {
        Push(xs[i]);
        i := i + 1;
      }
    }

    /** `extend`: reserves the iterator's lower size hint, then pushes every item. */
    method Extend(items: seq<T>, lowerHint: nat)
      requires Valid()
      modifies Repr
      ensures Valid() && fresh(Repr - old(Repr))
      ensures Contents == old(Contents) + items
      ensures cap >= old(len) + lowerHint
    {
      Reserve(lowerHint);
      var i := 0;
      while i < |items|
        invariant 0 <= i <= |items|
        invariant Valid() && fresh(Repr - old(Repr))
        invariant Contents == old(Contents) + items[..i]
        invariant cap >= old(len) + lowerHint
      {
        Push(items[i]);
        i := i + 1;
      }
    }

    /**
     * `split_off`: keeps the first `n` elements and returns the rest in a new
     * vector of capacity `NextPow2(len - n)`.  Panics when `n > len`.
     */
    method SplitOff(n: nat) returns (tail: Vec<T>)
      requires Valid() && n <= |Contents|
      modifies Repr
      ensures Valid() && fresh(Repr - old(Repr)) && cap == old(cap)
      ensures tail.Valid() && fresh(tail.Repr)
      ensures Contents == old(Contents)[..n] && tail.Contents == old(Contents)[n..]
      ensures tail.cap == NextPow2(|old(Contents)| - n)
    {
      var nlen := len - n;
      tail := new Vec.WithCapacityIn(nlen);
      forall i | 0 <= i < nlen {
        tail.buf[i] := buf[n + i];
      }
      tail.len := nlen;
      tail.Contents := tail.buf[..nlen];
      len := n;
      Contents := buf[..len];
    }

    /**
     * `split_off_back`: removes the last `n` elements and returns them in a new
     * vector of capacity `NextPow2(n)`.  Panics when `n > len`.
     */
    method SplitOffBack(n: nat) returns (back: Vec<T>)
      requires Valid() && n <= |Contents|
      modifies Repr
      ensures Valid() && fresh(Repr - old(Repr)) && cap == old(cap)
      ensures back.Valid() && fresh(back.Repr)
      ensures Contents == old(Contents)[..|old(Contents)| - n]
      ensures back.Contents == old(Contents)[|old(Contents)| - n..]
      ensures back.cap == NextPow2(n)
    {
      var nlen := len - n;
      back := new Vec.WithCapacityIn(n);
      forall i | 0 <= i < n {
        back.buf[i] := buf[nlen + i];
      }
      back.len := n;
      back.Contents := back.buf[..n];
      len := nlen;
      Contents := buf[..len];
    }

    /** `shrink`: truncates to `newLen` elements.  Panics when `newLen > len`. */
    method Shrink(newLen: nat)
      requires Valid() && newLen <= |Contents|
      modifies Repr
      ensures Valid() && fresh(Repr - old(Repr))
      ensures Contents == old(Contents)[..newLen] && cap == old(cap)
    {
      len := newLen;
      Contents := buf[..len];
    }

    /** `clone`: a new vector with the same elements and capacity `NextPow2(len)`. */
    method Clone() returns (c: Vec<T>)
      requires Valid()
      ensures Valid() && c.Valid() && fresh(c.Repr)
      ensures c.Contents == Contents && c.cap == NextPow2(|Contents|)
    {
      c := new Vec.WithCapacityIn(len);
      var i := 0;
      while i < len
        invariant 0 <= i <= len <= c.cap == c.buf.Length
        invariant c.Repr == {c, c.buf} && fresh(c.Repr)
        invariant c.buf[..i] == buf[..i]
        invariant c.len == 0 && c.Contents == [] && c.cap == NextPow2(len)
      {
        c.buf[i] := buf[i];
        i := i + 1;
      }
      c.len := len;
      c.Contents := c.buf[..len];
    }
  }

  /** `PartialEq::eq`: equal lengths and pairwise-equal elements. */
  method Equals<T(0,==)>(a: Vec<T>, b: Vec<T>) returns (r: bool)
    requires a.Valid() && b.Valid()
    ensures r <==> a.Contents == b.Contents
  {
    if a.len != b.len {
      return false;
    }
    var i := 0;
    while i < a.len
      invariant 0 <= i <= a.len
      invariant a.buf[..i] == b.buf[..i]
    {
      if a.buf[i] != b.buf[i] {
        assert a.Contents[i] != b.Contents[i];
        return false;
      }
      i := i + 1;
    }
    assert a.Contents == a.buf[..i];
    return true;
  }

  /**
   * `Write::write` for `Vec<u8>` as written: reserves room, copies `data`
   * into the slots just past the live elements and reports `|data|` bytes
   * written, but never advances the length, so the bytes stay invisible.
   */
  method WriteAsWritten(v: Vec<u8>, data: seq<u8>) returns (written: nat)
    requires v.Valid()
    modifies v.Repr
    ensures v.Valid() && fresh(v.Repr - old(v.Repr))
    ensures written == |data|
    ensures v.Contents == old(v.Contents)
    ensures v.cap >= v.len + |data| && v.buf[v.len..v.len + |data|] == data
  {
    v.Reserve(|data|);
    forall i | 0 <= i < |data| {
      v.buf[v.len + i] := data[i];
    }
    written := |data|;
  }

  /** `Write::write` as intended: the written bytes become the vector's new tail. */
  method Write(v: Vec<u8>, data: seq<u8>) returns (written: nat)
    requires v.Valid()
    modifies v.Repr
    ensures v.Valid() && fresh(v.Repr - old(v.Repr))
    ensures written == |data|
    ensures v.Contents == old(v.Contents) + data
  {
    v.Reserve(|data|);
    forall i | 0 <= i < |data| {
      v.buf[v.len + i] := data[i];
    }
    v.len := v.len + |data|;
    v.Contents := v.buf[..v.len];
    written := |data|;
  }

  /** A write of a non-empty buffer into an empty vector leaves it empty as written. */
  method WriteLosesBytes() returns (v: Vec<u8>)
    ensures v.Valid() && v.Contents == [] && v.cap >= 2
  {
    v := new Vec.NewIn();
    var n := WriteAsWritten(v, [0x61, 0x62]);
    assert n == 2;
  }

  // ------------------------------------------------------------- IntoIter

  /**
   * The by-value iterator: it takes over the vector's buffer; elements
   * `[consumed, len)` have not been yielded yet.
   */
  class IntoIter<T(0)> {
    ghost var Remaining: seq<T>
    ghost var Repr: set<object>

    var buf: array<T>
    var len: nat
    var cap: nat
    var consumed: nat

    ghost predicate Valid()
      reads this, Repr
      ensures Valid() ==> this in Repr
    {
      Repr == {this, buf} &&
      buf.Length == cap && consumed <= len <= cap &&
      Remaining == buf[consumed..len]
    }

    /** `into_iter`: the iterator yields exactly the vector's elements. */
    constructor FromVec(v: Vec<T>)
      requires v.Valid()
      ensures Valid() && Remaining == v.Contents && cap == v.cap
      ensures Repr == {this, v.buf}
    {
      buf, len, cap, consumed := v.buf, v.len, v.cap, 0;
      Remaining := v.buf[0..v.len];
      Repr := {this, v.buf};
    }

    /** `next`: yields the front element, `None` when exhausted. */
    method Next() returns (r: Option<T>)
      requires Valid()
      modifies this
      ensures Valid() && Repr == old(Repr)
      ensures old(Remaining) == [] ==> r.None? && Remaining == []
      ensures old(Remaining) != [] ==> r == Some(old(Remaining)[0]) && Remaining == old(Remaining)[1..]
    {
      if consumed == len {
        r := None;
      } else {
        r := Some(buf[consumed]);
        consumed := consumed + 1;
        Remaining := buf[consumed..len];
      }
    }

    /** `next_back`: yields the back element, `None` when exhausted. */
    method NextBack() returns (r: Option<T>)
      requires Valid()
      modifies this
      ensures Valid() && Repr == old(Repr)
      ensures old(Remaining) == [] ==> r.None? && Remaining == []
      ensures old(Remaining) != [] ==>
        r == Some(old(Remaining)[|old(Remaining)| - 1]) && Remaining == old(Remaining)[..|old(Remaining)| - 1]
    {
      if consumed == len {
        r := None;
      } else {
        len := len - 1;
        r := Some(buf[len]);
        Remaining := buf[consumed..len];
      }
    }

    /** `size_hint`: exact, both bounds are the number of elements left. */
    function SizeHint(): (r: (nat, Option<nat>))
      requires Valid()
      reads this, Repr
      ensures r.0 == |Remaining| && r.1 == Some(|Remaining|)
    {
      (len - consumed, Some(len - consumed))
    }
  }
}
