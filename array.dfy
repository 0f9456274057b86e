/**
 * `util::Array<T>`: a size and a buffer, the shape in which compiled code and
 * the string arena are handed to the VM.
 */
module Arrays {

  class Array<T> {
    /** `size`, a `uint32_t`. */
    const size: nat
    /** `t`, NULL in a default-constructed array. */
    const t: array?<T>

    ghost predicate Valid()
      reads this
    {
      size < 0x1_0000_0000 && (t == null ==> size == 0) && (t != null ==> size <= t.Length)
    }

    /** The elements the array exposes: the first `size` of the buffer. */
    ghost function Elements(): (r: seq<T>)
      reads this, t
      requires Valid()
      ensures |r| == size
    {
      if t == null then [] else t[..size]
    }

    /** `Array()`: size 0 and a NULL buffer. */
    constructor Empty()
      ensures Valid() && size == 0 && t == null && Elements() == []
    {
      size := 0;
      t := null;
    }

    /** `Array(t, s)`: the buffer must be non-NULL and the size positive. */
    constructor (buffer: array<T>, s: nat)
      requires 0 < s <= buffer.Length && s < 0x1_0000_0000
      ensures Valid() && size == s && t == buffer
      ensures Elements() == buffer[..s]
    {
      size := s;
      t := buffer;
    }

    /** `operator[](i)`: element i, for i below the size. */
    function Get(i: nat): (x: T)
      reads this, t
      requires Valid() && i < size
      ensures x == Elements()[i]
    {
      t[i]
    }

    /** `operator+(u)`: the elements from position u on (the pointer `t + u`). */
    function Plus(u: nat): (r: seq<T>)
      reads this, t
      requires Valid() && u <= size
      ensures |r| == size - u
      ensures forall k :: 0 <= k < |r| ==> r[k] == Elements()[u + k]
    {
      if t == null then [] else t[u..size]
    }
  }

  /**
   * `Copy`: a fresh buffer with the same elements (the `malloc` and `memcpy`).
   * The source array must be non-empty, since the two-argument constructor
   * refuses size 0.
   */
  method Copy<T(0)>(a: Array<T>) returns (r: Array<T>)
    requires a.Valid() && a.size > 0
    ensures fresh(r) && fresh(r.t) && r.Valid()
    ensures r.size == a.size && r.Elements() == a.Elements()
  {
    var s := a.size;
    var buffer := new T[s];
    var i := 0;
    while i < s
      invariant 0 <= i <= s
      invariant forall k :: 0 <= k < i ==> buffer[k] == a.Elements()[k]
    {
      buffer[i] := a.t[i];
      i := i + 1;
    }
    r := new Array(buffer, s);
  }
}
