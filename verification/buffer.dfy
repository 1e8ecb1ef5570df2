/**
 * The output buffer of src/json_format.c: an append-only byte array with a
 * fill level, whose capacity starts at JSON_BUFFER_SIZE and doubles as
 * often as an append needs.
 */
module Buffers {
  import opened JsonTypes

  /** The capacity c doubled k times. */
  function Doubled(c: nat, k: nat): nat
  {
    if k == 0 then c else 2 * Doubled(c, k - 1)
  }

  /** Doubling first and then k times is doubling k + 1 times. */
  lemma {:induction false} DoubledShift(c: nat, k: nat)
    ensures Doubled(2 * c, k) == Doubled(c, k + 1)
  {
    if k > 0 {
      DoubledShift(c, k - 1);
    }
  }

  /**
   * The capacity buffer_append settles on when `need` bytes must fit into
   * a buffer of the given capacity: unchanged when they fit, otherwise the
   * capacity doubled at least once and as often as it takes.
   */
  function GrownCapacity(capacity: nat, need: nat): nat
    requires 0 < capacity
    decreases if need <= capacity then 0 else need - capacity
  {
    if need <= capacity then capacity else GrownCapacity(2 * capacity, need)
  }

  /**
   * The grown capacity holds `need` bytes, is never smaller than before,
   * is the old capacity doubled some number of times, and is the smallest
   * such: when it grew, half of it was too small.
   */
  lemma {:induction false} GrownCapacityMeaning(capacity: nat, need: nat)
    requires 0 < capacity
    ensures var r := GrownCapacity(capacity, need);
      && capacity <= r && need <= r
      && (exists k: nat :: r == Doubled(capacity, k))
      && (r == capacity || r < 2 * need)
    decreases if need <= capacity then 0 else need - capacity
  {
    var r := GrownCapacity(capacity, need);
    if need <= capacity {
      assert r == Doubled(capacity, 0);
    } else {
      GrownCapacityMeaning(2 * capacity, need);
      var k: nat :| r == Doubled(2 * capacity, k);
      DoubledShift(capacity, k);
      assert r == Doubled(capacity, k + 1);
    }
  }

  /**
   * Buffer: data[..size] is the text appended so far, kept as the ghost
   * field Contents; capacity is the length of data.
   */
  class Buffer {
    var data: array<char>
    var size: nat
    var capacity: nat
    ghost var Contents: string
    ghost var Repr: set<object>

    ghost predicate Valid()
      reads this, Repr
    {
      && this in Repr && data in Repr
      && data.Length == capacity && size <= capacity && 0 < capacity
      && data[..size] == Contents
    }

    /** buffer_create: empty, with room for JSON_BUFFER_SIZE bytes. */
    constructor ()
      ensures Valid() && fresh(Repr)
      ensures Contents == [] && size == 0 && capacity == BufferSize
    {
      data := new char[BufferSize];
      size := 0;
      capacity := BufferSize;
      Contents := [];
      Repr := {this, data};
    }

    /**
     * buffer_append: when the text does not fit, double the capacity until
     * it does and move the bytes to an array that large; then copy the
     * text in after the old contents.
     */
    method Append(str: string)
      requires Valid()
      modifies Repr
      ensures Valid() && fresh(Repr - old(Repr))
      ensures Contents == old(Contents) + str && size == old(size) + |str|
      ensures capacity == GrownCapacity(old(capacity), old(size) + |str|)
    {
      var newSize := size + |str|;
      if newSize > capacity {
        var newCapacity := capacity * 2;
        while newSize > newCapacity
          invariant capacity < newCapacity
          invariant GrownCapacity(newCapacity, newSize) == GrownCapacity(capacity, newSize)
          decreases newSize - newCapacity
        {
          newCapacity := newCapacity * 2;
        }
        // realloc: a larger array holding the same first `size` bytes
        var newData := new char[newCapacity];
        forall i | 0 <= i < size {
          newData[i] := data[i];
        }
        data, capacity := newData, newCapacity;
        Repr := Repr + {newData};
      }
      // memcpy of the text after the old contents
      forall i | 0 <= i < |str| {
        data[size + i] := str[i];
      }
      size := newSize;
      Contents := Contents + str;
    }
  }
}
