/**
  The virtual machine's dynamic array: a buffer that doubles when it is about to be full,
  with elements moved up and down in place.
 */
module DynamicArrays {
  import opened Options
  import opened Values

  const FIRST_CAPACITY := 8

  // ----- what the operations do to the contents -----

  function Inserted<T>(s: seq<T>, idx: nat, x: T): seq<T>
    requires idx <= |s|
  {
    s[..idx] + [x] + s[idx..]
  }

  function Removed<T>(s: seq<T>, idx: nat): seq<T>
    requires idx < |s|
  {
    s[..idx] + s[idx + 1..]
  }

  /** Removing undoes inserting, and inserting what was removed undoes removing. */
  lemma InsertRemove<T>(s: seq<T>, idx: nat, x: T)
    requires idx <= |s|
    ensures Removed(Inserted(s, idx, x), idx) == s
    ensures idx < |s| ==> Inserted(Removed(s, idx), idx, s[idx]) == s
  {
    if idx < |s| {
      assert Inserted(Removed(s, idx), idx, s[idx]) == s[..idx] + [s[idx]] + s[idx + 1..];
    }
  }

  // ----- growing -----

  function Doubled(capacity: nat): nat {
    if capacity == 0 then FIRST_CAPACITY else capacity * 2 % TWO_32
  }

  function Max(a: nat, b: nat): nat {
    if a < b then b else a
  }

  /** The byte count handed to the memory manager is a 32-bit product. */
  function BytesAsked(capacity: nat, elemSize: nat): nat {
    capacity * elemSize % TWO_32
  }

  /**
    The growth check only looks at the number of elements. The buffer it asks for holds them
    all exactly when their size in bytes fits 32 bits: a buffer that holds its 2^28 elements
    of 8 bytes is grown to one of no bytes.
   */
  lemma BufferHoldsCapacity(capacity: nat, elemSize: nat)
    requires capacity < TWO_32 && 0 < elemSize < TWO_32
    ensures BytesAsked(capacity, elemSize) >= capacity * elemSize <==> capacity * elemSize < TWO_32
    ensures 0x1000_0000 * 8 < TWO_32 && Doubled(0x1000_0000) > 0x1000_0000 && BytesAsked(Doubled(0x1000_0000), 8) == 0
  {
    assert 0 <= capacity * elemSize;
  }

  class DynamicArray<T(0)> {
    const elemSize: nat
    var size: nat
    var capacity: nat
    var data: array<T>
    /** The largest size so far. */
    ghost var peak: nat

    ghost predicate Valid()
      reads this
    {
      && data.Length == capacity < TWO_32
      && 0 < elemSize < TWO_32
      && (if capacity == 0 then size == 0 else FIRST_CAPACITY <= capacity && size < capacity)
      && size <= peak
      && capacity <= Max(FIRST_CAPACITY, 2 * peak)
    }

    ghost function Contents(): seq<T>
      reads this, data
      requires Valid()
    {
      data[..size]
    }

    /** One more element fits, or fits after a growth whose bytes can be counted in 32 bits. */
    predicate Countable()
      reads this
    {
      size + 1 >= capacity ==> Doubled(capacity) * elemSize < TWO_32
    }

    constructor (elemSize: nat)
      requires 0 < elemSize < TWO_32
      ensures Valid() && Contents() == [] && capacity == 0 && peak == 0 && this.elemSize == elemSize && fresh(data)
    {
      this.elemSize := elemSize;
      size, capacity, peak := 0, 0, 0;
      data := new T[0];
    }

    /** Room for one more element. `granted` is the memory manager's answer. */
    method Grow(granted: bool) returns (ok: bool)
      requires Valid() && Countable()
      modifies this`capacity, this`data
      ensures ok == (size + 1 < old(capacity) || (granted && old(capacity) <= Doubled(old(capacity))))
      ensures !ok ==> capacity == old(capacity) && data == old(data)
      ensures ok ==> size + 1 < capacity == data.Length && capacity < TWO_32 && FIRST_CAPACITY <= capacity
      ensures ok ==> capacity <= Max(old(capacity), Max(FIRST_CAPACITY, 2 * (size + 1)))
      ensures ok ==> data[..size] == old(data[..size])
      ensures data == old(data) || fresh(data)
    {
      var newSize := (size + 1) % TWO_32;
      if newSize < size {
        return false;
      }
      if newSize >= capacity {
        var newCapacity := Doubled(capacity);
        if newCapacity < capacity {
          return false;
        }
        if !granted {
          return false;
        }
        var buffer := new T[newCapacity];
        forall i | 0 <= i < size {
          buffer[i] := data[i];
        }
        capacity := newCapacity;
        data := buffer;
      }
      return true;
    }

    method Get(idx: nat) returns (x: Option<T>)
      requires Valid()
      ensures x == if idx < |Contents()| then Some(Contents()[idx]) else None
    {
      x := if idx < size then Some(data[idx]) else None;
    }

    method Replace(idx: nat, x: T) returns (ok: bool)
      requires Valid()
      modifies data
      ensures Valid() && ok == (idx < |old(Contents())|)
      ensures Contents() == if ok then old(Contents())[idx := x] else old(Contents())
    {
      if idx < size {
        data[idx] := x;
        return true;
      }
      return false;
    }

    /** The elements from `idx` on move up by one before the new one is written. */
    method Insert(idx: nat, x: T, granted: bool) returns (ok: bool)
      requires Valid() && Countable()
      modifies this, data
      ensures Valid() && (data == old(data) || fresh(data))
      ensures ok == (idx <= |old(Contents())| && old(HasRoom(granted)))
      ensures Contents() == if ok then Inserted(old(Contents()), idx, x) else old(Contents())
      ensures peak == Max(old(peak), |Contents()|) && (!ok ==> capacity == old(capacity))
    {
      hide Doubled, Inserted;
      if idx > size {
        return false;
      }
      ok := Grow(granted);
      if !ok {
        return;
      }
      PutBetween(idx, x);
      size := size + 1;
      peak := Max(peak, size);
    }

    method PutBetween(idx: nat, x: T)
      requires idx <= size < data.Length
      modifies data
      ensures data[..size + 1] == Inserted(old(data[..size]), idx, x)
    {
      if idx < size {
        forall i | idx <= i < size {
          data[i + 1] := data[i];
        }
      }
      data[idx] := x;
    }

    /** Whether one more element can be taken in. */
    predicate HasRoom(granted: bool)
      reads this
    {
      size + 1 < capacity || (granted && capacity <= Doubled(capacity))
    }

    method Append(x: T, granted: bool) returns (ok: bool)
      requires Valid() && Countable()
      modifies this, data
      ensures Valid() && (data == old(data) || fresh(data))
      ensures ok == old(HasRoom(granted))
      ensures Contents() == if ok then old(Contents()) + [x] else old(Contents())
      ensures peak == Max(old(peak), |Contents()|) && (!ok ==> capacity == old(capacity))
    {
      hide Doubled;
      ok := Grow(granted);
      if !ok {
        return;
      }
      data[size] := x;
      size := size + 1;
      peak := Max(peak, size);
    }

    /** The elements after `idx` move down by one. */
    method Remove(idx: nat) returns (ok: bool)
      requires Valid()
      modifies this`size, data
      ensures Valid() && ok == (idx < |old(Contents())|)
      ensures Contents() == if ok then Removed(old(Contents()), idx) else old(Contents())
    {
      if idx >= size {
        return false;
      }
      ghost var was := data[..size];
      if idx != size - 1 {
        forall i | idx <= i < size - 1 {
          data[i] := data[i + 1];
        }
      }
      size := size - 1;
      assert data[..size] == Removed(was, idx);
      return true;
    }
  }
}
