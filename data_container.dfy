/**
 * The growable, append-only container of `Datum` records
 * (`DataContainerImpl` in src/data_container.cpp, reached through the
 * forwarding wrapper `DataContainer`).
 *
 * It starts with room for one record and doubles its capacity whenever a
 * push finds it full. While the capacity is at most 1024 records the records
 * live in an in-memory vector; the growth from 1024 to 2048 moves them once
 * into a memory-mapped file named "<id>.bin", where they stay.
 */
module DataContainers {
  import Decimal

  /** Largest capacity, in records, kept in memory. */
  const MaxInMemoryDataSize: nat := 1024

  /** A record: an identifier and three coordinates. The coordinates are IEEE
      doubles that the container only copies, so they are kept as their raw
      64-bit patterns. */
  datatype Datum = Datum(id: nat, x: bv64, y: bv64, z: bv64)

  /** Which alternative of the storage variant is active. */
  datatype Storage = InMemory | FileBacked

  // ---------------------------------------------------------------------
  // Specification of the growth policy
  // ---------------------------------------------------------------------

  /** The capacity a push leaves behind: doubled when the record does not fit. */
  function GrownCapacity(capacity: nat, size: nat): nat {
    if size + 1 > capacity then capacity * 2 else capacity
  }

  /** The capacity of a container after `n` pushes. */
  function CapacityAfter(n: nat): nat {
    if n == 0 then 1 else GrownCapacity(CapacityAfter(n - 1), n - 1)
  }

  /** The storage that holds a given capacity. */
  function StorageFor(capacity: nat): Storage {
    if capacity > MaxInMemoryDataSize then FileBacked else InMemory
  }

  /** The storage of a container after `n` pushes. */
  function StorageAfter(n: nat): Storage {
    StorageFor(CapacityAfter(n))
  }

  predicate IsPowerOfTwo(c: nat)
    decreases c
  {
    c == 1 || (c > 1 && c % 2 == 0 && IsPowerOfTwo(c / 2))
  }

  /** Powers of two are spaced by doubling: none lies strictly between `t` and `2 * t`. */
  lemma {:induction false} PowerOfTwoGap(c: nat, t: nat)
    requires IsPowerOfTwo(c) && IsPowerOfTwo(t) && c > t
    ensures c >= 2 * t
    decreases t
  {
    if t > 1 {
      PowerOfTwoGap(c / 2, t / 2);
    }
  }

  /** After `n` pushes the capacity is the least power of two that holds `n`
      records (and 1 for an empty container). */
  lemma {:induction false} CapacityAfterIsLeastPowerOfTwo(n: nat)
    ensures IsPowerOfTwo(CapacityAfter(n))
    ensures n <= CapacityAfter(n)
    ensures n > 0 ==> CapacityAfter(n) < 2 * n
  {
    if n > 0 {
      CapacityAfterIsLeastPowerOfTwo(n - 1);
      var c := CapacityAfter(n - 1);
      if n > c {
        assert CapacityAfter(n) == 2 * c;
        assert IsPowerOfTwo(2 * c) by { assert (2 * c) / 2 == c; }
      }
    }
  }

  /** The records are file-backed exactly when more than 1024 have been pushed. */
  lemma StorageAfterIsFileBacked(n: nat)
    ensures StorageAfter(n) == FileBacked <==> n > MaxInMemoryDataSize
  {
    CapacityAfterIsLeastPowerOfTwo(n);
    var c := CapacityAfter(n);
    if n <= MaxInMemoryDataSize && c > MaxInMemoryDataSize {
      assert IsPowerOfTwo(MaxInMemoryDataSize);
      PowerOfTwoGap(c, MaxInMemoryDataSize);
    }
  }

  /** The storage changes on exactly one push, the 1025th, where the capacity
      goes from 1024 to 2048; it never changes back. */
  lemma StorageSwitchesOnce(n: nat)
    ensures StorageAfter(n) != StorageAfter(n + 1) <==> n == MaxInMemoryDataSize
    ensures n == MaxInMemoryDataSize ==>
              CapacityAfter(n) == 1024 && CapacityAfter(n + 1) == 2048
    ensures StorageAfter(n) == FileBacked ==> StorageAfter(n + 1) == FileBacked
  {
    StorageAfterIsFileBacked(n);
    StorageAfterIsFileBacked(n + 1);
    CapacityAfterIsLeastPowerOfTwo(n);
  }

  /** The name of the file that backs the container with identifier `id`. */
  function FileName(id: nat): string {
    Decimal.Render(id) + ".bin"
  }

  /** Containers with different identifiers never share a backing file. */
  lemma DistinctIdsDistinctFileNames(a: nat, b: nat)
    requires a != b
    ensures FileName(a) != FileName(b)
  {
    if FileName(a) == FileName(b) {
      var ra, rb := Decimal.Render(a), Decimal.Render(b);
      assert ra == FileName(a)[..|FileName(a)| - 4];
      assert rb == FileName(b)[..|FileName(b)| - 4];
      Decimal.RenderInjective(a, b);
    }
  }

  // ---------------------------------------------------------------------
  // The container
  // ---------------------------------------------------------------------

  /** A fresh array of `capacity` slots whose first `old.Length` slots are a
      copy of `a`: the vector's `resize`, the mapped file's `resize` and the
      `memcpy` of the vector into the newly opened file all do this. */
  method Reallocate(a: array<Datum>, capacity: nat) returns (b: array<Datum>)
    requires a.Length <= capacity
    ensures fresh(b)
    ensures b.Length == capacity
    ensures b[..a.Length] == a[..]
  {
    b := new Datum[capacity];
    var i := 0;
    while i < a.Length
      invariant 0 <= i <= a.Length
      invariant b[..i] == a[..i]
    {
      b[i] := a[i];
      i := i + 1;
    }
  }

  class DataContainer {
    /** Name of the backing file: the decimal id followed by ".bin". */
    const fileName: string
    /** The active storage, `m_data_ptr` with `m_capacity` slots. */
    var data: array<Datum>
    var capacity: nat
    var size: nat
    /** Which alternative of `m_data` is live. */
    var storage: Storage

    /** The records pushed so far, in push order. */
    ghost var Contents: seq<Datum>

    ghost predicate Valid()
      reads this, data
    {
      && data.Length == capacity
      && size <= capacity
      && capacity == CapacityAfter(size)
      && storage == StorageFor(capacity)
      && Contents == data[..size]
    }

    /** `DataContainerImpl(id)`: empty, one in-memory slot. */
    constructor (id: nat)
      ensures Valid() && fresh(data)
      ensures fileName == FileName(id)
      ensures size == 0 && capacity == 1 && storage == InMemory
      ensures Contents == []
    {
      fileName := FileName(id);
      data := new Datum[1];
      capacity := 1;
      size := 0;
      storage := InMemory;
      Contents := [];
    }

    /** `at(index)`: the record at position `index`; the index must be in use. */
    method At(index: nat) returns (d: Datum)
      requires Valid()
      requires index < size
      ensures d == Contents[index]
    {
      d := data[index];
    }

    /** `size()`: the number of records pushed so far. */
    method Size() returns (n: nat)
      requires Valid()
      ensures n == |Contents|
    {
      n := size;
    }

    /** `push_back(datum)`: appends one record, first doubling the capacity
        when the container is full. */
    method PushBack(datum: Datum)
      requires Valid()
      modifies this, data
      ensures Valid()
      ensures Contents == old(Contents) + [datum]
      ensures size == old(size) + 1
      ensures capacity == if old(size) + 1 > old(capacity) then 2 * old(capacity) else old(capacity)
      ensures storage == if old(capacity) == MaxInMemoryDataSize && old(size) + 1 > old(capacity)
                         then FileBacked else old(storage)
      ensures capacity == old(capacity) ==> data == old(data)
      ensures capacity != old(capacity) ==> fresh(data)
    {
      if size + 1 > capacity {
        CapacityAfterIsLeastPowerOfTwo(size);
        if capacity <= MaxInMemoryDataSize && capacity * 2 > MaxInMemoryDataSize {
          // Switch from vector to file-based storage: the new file has room
          // for the doubled capacity and receives a copy of the whole vector.
          // Capacities are powers of two, so this is the growth from 1024.
          assert IsPowerOfTwo(512);
          PowerOfTwoGap(capacity, 512);
          capacity := capacity * 2;
          data := Reallocate(data, capacity);
          storage := FileBacked;
        } else {
          // Same storage, resized in place (vector or mapped file alike).
          capacity := capacity * 2;
          data := Reallocate(data, capacity);
        }
      }
      data[size] := datum;
      size := size + 1;
      Contents := Contents + [datum];
    }
  }

  /** The loop of `read_data` (src/main.cpp) without the file: pushes `items`
      into a new container one by one and reads them all back with `at`. */
  method PushAll(id: nat, items: seq<Datum>) returns (n: nat, stored: seq<Datum>)
    ensures n == |items|
    ensures stored == items
  {
    var c := new DataContainer(id);
    var i := 0;
    while i < |items|
      invariant 0 <= i <= |items|
      invariant c.Valid()
      invariant fresh(c) && fresh(c.data)
      invariant c.Contents == items[..i]
    {
      c.PushBack(items[i]);
      i := i + 1;
    }
    n := c.Size();
    stored := [];
    var j := 0;
    while j < n
      invariant 0 <= j <= n
      invariant c.Valid() && c.Contents == items && n == c.size
      invariant stored == items[..j]
    {
      var d := c.At(j);
      stored := stored + [d];
      j := j + 1;
    }
  }
}
