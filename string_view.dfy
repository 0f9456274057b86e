/**
 * `util::StringView`: a pointer and a length, the key and value type of every
 * request dictionary, and `StringViewLess`, the order those dictionaries are
 * sorted by.
 *
 * The pointer is modelled by the C string it points at (None is NULL); the
 * view's characters are the first `length` of them.
 */
module StringViews {
  import opened Wrappers
  import opened CStrings

  datatype StringView = StringView(pointer: Option<seq<char>>, length: nat)

  /** A view whose length does not run past the string its pointer points at. */
  predicate Valid(v: StringView) {
    v.pointer.Some? ==> v.length <= |v.pointer.value|
  }

  /** A view `memcmp` may read: a real pointer, or nothing to read. */
  predicate Readable(v: StringView) {
    Valid(v) && (v.pointer.Some? || v.length == 0)
  }

  /** The default constructor: a NULL pointer with length 1, the "absent" view. */
  function Default(): (v: StringView)
    ensures Valid(v) && !Exists(v) && !Readable(v)
  {
    StringView(None, 1)
  }

  /**
   * The two-argument constructor: a NULL pointer gives length 0; otherwise the
   * string at `p` must be at least `l` long.
   */
  function Make(p: Option<seq<char>>, l: nat): (v: StringView)
    requires p.None? || |p.value| >= l
    ensures Readable(v) && Exists(v)
    ensures p.None? ==> Str(v) == [] && v.length == 0
    ensures p.Some? ==> Str(v) == p.value[..l] && v.length == l
  {
    StringView(p, if p.None? then 0 else l)
  }

  /** `str()`: the empty string for a NULL pointer, else the first `length` characters. */
  function Str(v: StringView): (s: seq<char>)
    requires Valid(v)
    ensures v.pointer.None? ==> s == []
    ensures v.pointer.Some? ==> |s| == v.length && s == v.pointer.value[..v.length]
  {
    if v.pointer.None? then [] else v.pointer.value[..v.length]
  }

  /** `exists()`: a real pointer, or a NULL one with length 0. */
  predicate Exists(v: StringView) {
    v.pointer.Some? || v.length == 0
  }

  /** The sign of `memcmp` over two equally long character sequences. */
  function Memcmp(x: seq<char>, y: seq<char>): (c: int)
    requires |x| == |y|
    ensures -1 <= c <= 1
    ensures c == 0 <==> x == y
    ensures c < 0 <==> StrLess(x, y)
    decreases |x|
  {
    if |x| == 0 then 0
    else if x[0] < y[0] then -1
    else if x[0] > y[0] then 1
    else
      assert x == [x[0]] + x[1..] && y == [y[0]] + y[1..];
      Memcmp(x[1..], y[1..])
  }

  /** `operator==` as written: equal lengths and a NONZERO `memcmp`. */
  predicate EqAsWritten(a: StringView, b: StringView)
    requires a.length == b.length ==> Readable(a) && Readable(b)
  {
    a.length == b.length && Memcmp(Str(a), Str(b)) != 0
  }

  /** As written, `==` holds exactly when the two views have the same length and differ. */
  lemma EqAsWrittenMeansDifferent(a: StringView, b: StringView)
    requires Readable(a) && Readable(b)
    ensures EqAsWritten(a, b) <==> a.length == b.length && Str(a) != Str(b)
  {
  }

  /** The counterexample: a one-character view is not equal to itself. */
  lemma EqAsWrittenIrreflexive()
    ensures var v := Make(Some("a"), 1); !EqAsWritten(v, v)
  {
  }

  /** `operator==` as evidently intended: equal lengths and a zero `memcmp`. */
  predicate Eq(a: StringView, b: StringView)
    requires a.length == b.length ==> Readable(a) && Readable(b)
  {
    a.length == b.length && Memcmp(Str(a), Str(b)) == 0
  }

  /** The intended equality is content equality, and agrees with the map's equivalence. */
  lemma EqIsContentEquality(a: StringView, b: StringView)
    requires Readable(a) && Readable(b)
    ensures Eq(a, b) <==> Str(a) == Str(b)
    ensures Eq(a, b) <==> !Less(a, b) && !Less(b, a)
  {
    if a.length == b.length && Str(a) != Str(b) {
      StrLessTotal(Str(a), Str(b));
    }
    if a.length == b.length && Str(a) == Str(b) {
      StrLessIrreflexive(Str(a));
    }
  }

  /** `StringViewLess`: shorter first, then `memcmp` order. */
  predicate Less(a: StringView, b: StringView)
    requires a.length == b.length ==> Readable(a) && Readable(b)
  {
    a.length < b.length || (a.length == b.length && Memcmp(Str(a), Str(b)) < 0)
  }

  lemma LessIrreflexive(a: StringView)
    requires Readable(a)
    ensures !Less(a, a)
  {
    StrLessIrreflexive(Str(a));
  }

  lemma LessTransitive(a: StringView, b: StringView, c: StringView)
    requires Readable(a) && Readable(b) && Readable(c)
    requires Less(a, b) && Less(b, c)
    ensures Less(a, c)
  {
    if a.length == b.length == c.length {
      StrLessTransitive(Str(a), Str(b), Str(c));
    }
  }

  /**
   * The equivalence the order induces ("neither is less") is equality of
   * contents, so a dictionary sorted by `StringViewLess` is a dictionary keyed
   * by the views' characters.
   */
  lemma LessEquivalenceIsContentEquality(a: StringView, b: StringView)
    requires Readable(a) && Readable(b)
    ensures !Less(a, b) && !Less(b, a) <==> Str(a) == Str(b)
  {
    EqIsContentEquality(a, b);
  }
}
