/**
 * The growable pointer list of library/list.c.
 *
 * Elements are opaque pointers, modelled as natural numbers with NULL = 0.
 * The buffer is an array whose length is the capacity; the first `size`
 * slots hold the elements. The free function is reduced to whether it is
 * present, and releasing the elements is reported as the sequence of
 * pointers it is called on.
 */
module Lists {

  type Ptr = nat

  const NULL: Ptr := 0

  /** RESIZE_MULTIPLIER */
  const ResizeMultiplier: nat := 2

  class List {
    var data: array<Ptr>
    var size: nat
    var capacity: nat
    /** Whether the list was created with a non-NULL free function. */
    const hasFreer: bool
    /** Set once list_free has released the list. */
    ghost var freed: bool

    ghost predicate Valid()
      reads this
    {
      data.Length == capacity && size <= capacity
    }

    /** The elements, in order. */
    ghost function Contents(): seq<Ptr>
      reads this, data
      requires Valid()
    {
      data[..size]
    }

    /** list_init */
    constructor Init(initialCapacity: nat, freer: bool)
      ensures Valid() && fresh(data) && !freed
      ensures Contents() == [] && size == 0 && capacity == initialCapacity && hasFreer == freer
    {
      data := new Ptr[initialCapacity];
      size := 0;
      capacity := initialCapacity;
      hasFreer := freer;
      freed := false;
    }

    /** list_resize: a fresh buffer of capacity * 2 + 1 slots holding the old ones. */
    method Resize()
      requires Valid()
      modifies this
      ensures Valid() && fresh(data)
      ensures capacity == old(capacity) * ResizeMultiplier + 1
      ensures data[..old(capacity)] == old(data[..])
      ensures size == old(size) && Contents() == old(Contents()) && freed == old(freed)
    {
      var newCapacity := capacity * ResizeMultiplier + 1;
      var newData := new Ptr[newCapacity];
      forall i | 0 <= i < capacity {
        newData[i] := data[i];
      }
      assert newData[..size] == data[..size];
      data := newData;
      capacity := newCapacity;
    }

    /**
     * list_add: appends a non-NULL element, growing the buffer first when
     * it is full.
     */
    method Add(element: Ptr)
      requires Valid() && element != NULL
      modifies this, data
      ensures Valid() && size == old(size) + 1
      ensures Contents() == old(Contents()) + [element]
      ensures old(size) == old(capacity) ==> capacity == old(capacity) * ResizeMultiplier + 1 && fresh(data)
      ensures old(size) < old(capacity) ==> capacity == old(capacity) && data == old(data)
      ensures freed == old(freed)
    {
      if size == capacity {
        Resize();
      }
      data[size] := element;
      size := size + 1;
    }

    /** list_remove: takes out the element at `index` and shifts the rest left. */
    method Remove(index: nat) returns (removed: Ptr)
      requires Valid() && index < size
      modifies this, data
      ensures Valid() && size == old(size) - 1 && capacity == old(capacity) && data == old(data)
      ensures removed == old(Contents())[index]
      ensures Contents() == old(Contents()[..index] + Contents()[index + 1..])
      ensures freed == old(freed)
    {
      removed := data[index];
      var n := size;
      for idx := index to size - 1
        invariant data == old(data) && size == old(size) && capacity == old(capacity) && freed == old(freed)
        invariant data[..index] == old(data[..index])
        invariant forall j :: index <= j < idx ==> data[j] == old(data[j + 1])
        invariant forall j :: idx <= j < size ==> data[j] == old(data[j])
      {
        data[idx] := data[idx + 1];
      }
      size := size - 1;
      assert data[..size] == old(data[..index]) + old(data[index + 1..n]);
    }

    /** list_get */
    method Get(index: nat) returns (element: Ptr)
      requires Valid() && index < size
      ensures element == Contents()[index]
    {
      element := data[index];
    }

    /** list_size */
    function Size(): (n: nat)
      reads this, data
      requires Valid()
      ensures n == |Contents()|
    {
      size
    }

    /**
     * list_free: the free function, when present, is called once on each
     * element in order; then the buffer and the record are released.
     */
    method Free() returns (released: seq<Ptr>)
      requires Valid() && !freed
      modifies this
      ensures released == if hasFreer then old(Contents()) else []
      ensures freed
    {
      released := [];
      if hasFreer {
        for i := 0 to size
          invariant data == old(data) && size == old(size) && capacity == old(capacity)
          invariant released == data[..i]
        {
          var element := Get(i);
          released := released + [element];
        }
        assert data[..size] == Contents();
      }
      freed := true;
    }
  }
}
