/**
 * C-string conventions shared by the assembler, the VM and the request
 * backend: NUL-terminated strings stored in a byte arena, `strcmp` order, and
 * the two decimal parsers the source relies on (`atoi` in the compiler's
 * adapters, `std::istringstream >> int64_t` in the numeric matchers).
 */
module CStrings {
  import opened Wrappers

  /** A string a `const char *` can carry: it has no NUL inside it. */
  predicate NoNul(s: seq<char>) {
    '\0' !in s
  }

  /**
   * The string a `const char *` pointing at `off` inside the arena `mem`
   * denotes: the characters up to (not including) the first NUL at or after
   * `off`. None when no NUL follows inside the arena, i.e. reading it would
   * run past the buffer.
   */
  function CStringAt(mem: seq<char>, off: nat): (r: Option<seq<char>>)
    ensures r.Some? ==> off + |r.value| < |mem| && mem[off..off + |r.value|] == r.value
                        && mem[off + |r.value|] == '\0' && NoNul(r.value)
    decreases |mem| - off
  {
    if off >= |mem| then None
    else if mem[off] == '\0' then Some([])
    else match CStringAt(mem, off + 1)
      case None => None
      case Some(t) => Some([mem[off]] + t)
  }

  /** There is no string at `off` exactly when no NUL follows it inside the arena. */
  lemma {:induction false} CStringAtMissing(mem: seq<char>, off: nat)
    ensures CStringAt(mem, off).None? <==> forall k :: off <= k < |mem| ==> mem[k] != '\0'
    decreases |mem| - off
  {
    if off < |mem| && mem[off] != '\0' {
      CStringAtMissing(mem, off + 1);
    }
  }

  /** Appending a NUL-free string and its terminator makes it readable at the old end of the arena. */
  lemma {:induction false} CStringAtAppended(mem: seq<char>, s: seq<char>)
    requires NoNul(s)
    ensures CStringAt(mem + s + ['\0'], |mem|) == Some(s)
  {
    var m := mem + s + ['\0'];
    var r := CStringAt(m, |mem|);
    CStringAtMissing(m, |mem|);
    assert m[|mem| + |s|] == '\0';
    assert r.Some?;
    assert r.value == m[|mem|..|mem| + |s|] == s;
  }

  /** Growing the arena never changes a string that was already terminated inside it. */
  lemma {:induction false} CStringAtExtended(mem: seq<char>, more: seq<char>, off: nat)
    requires CStringAt(mem, off).Some?
    ensures CStringAt(mem + more, off) == CStringAt(mem, off)
    decreases |mem| - off
  {
    var m := mem + more;
    assert m[off] == mem[off];
    if mem[off] != '\0' {
      CStringAtExtended(mem, more, off + 1);
    }
  }

  /** `strlen` of a NUL-free string is its length; `strcmp(a, b) < 0` is this order on unsigned chars. */
  predicate StrLess(a: seq<char>, b: seq<char>)
    decreases |a|
  {
    if |a| == 0 then |b| > 0
    else if |b| == 0 then false
    else a[0] < b[0] || (a[0] == b[0] && StrLess(a[1..], b[1..]))
  }

  lemma {:induction false} StrLessIrreflexive(a: seq<char>)
    ensures !StrLess(a, a)
    decreases |a|
  {
    if |a| > 0 {
      StrLessIrreflexive(a[1..]);
    }
  }

  lemma {:induction false} StrLessTransitive(a: seq<char>, b: seq<char>, c: seq<char>)
    requires StrLess(a, b) && StrLess(b, c)
    ensures StrLess(a, c)
    decreases |a|
  {
    if |a| > 0 && |b| > 0 && |c| > 0 && a[0] == b[0] == c[0] {
      StrLessTransitive(a[1..], b[1..], c[1..]);
    }
  }

  /** `strcmp` order is total: two different strings are ordered one way or the other. */
  lemma {:induction false} StrLessTotal(a: seq<char>, b: seq<char>)
    requires a != b
    ensures StrLess(a, b) || StrLess(b, a)
    decreases |a|
  {
    if |a| > 0 && |b| > 0 && a[0] == b[0] {
      assert a == [a[0]] + a[1..] && b == [b[0]] + b[1..];
      StrLessTotal(a[1..], b[1..]);
    }
  }

  /** The characters `isspace` accepts in the C locale. */
  predicate IsSpace(c: char) {
    c == ' ' || c == '\t' || c == '\n' || c as int == 11 || c as int == 12 || c == '\r'
  }

  predicate IsDigit(c: char) {
    '0' <= c <= '9'
  }

  /** Leading white space removed. */
  function SkipSpaces(s: seq<char>): (r: seq<char>)
    ensures |r| <= |s|
  {
    if |s| > 0 && IsSpace(s[0]) then SkipSpaces(s[1..]) else s
  }

  /** What `SkipSpaces` leaves is a suffix of its input that does not start with white space. */
  lemma {:induction false} SkipSpacesSuffix(s: seq<char>)
    ensures var r := SkipSpaces(s); r == s[|s| - |r|..] && (|r| > 0 ==> !IsSpace(r[0]))
    decreases |s|
  {
    if |s| > 0 && IsSpace(s[0]) {
      SkipSpacesSuffix(s[1..]);
    }
  }

  /** Length of the run of decimal digits at the front of `s`. */
  function DigitRun(s: seq<char>): (n: nat)
    ensures n <= |s|
  {
    if |s| > 0 && IsDigit(s[0]) then 1 + DigitRun(s[1..]) else 0
  }

  /** The run is all digits and is followed by a non-digit or the end. */
  lemma {:induction false} DigitRunDigits(s: seq<char>)
    ensures forall k :: 0 <= k < DigitRun(s) ==> IsDigit(s[k])
    ensures DigitRun(s) < |s| ==> !IsDigit(s[DigitRun(s)])
    decreases |s|
  {
    if |s| > 0 && IsDigit(s[0]) {
      DigitRunDigits(s[1..]);
      forall k | 0 < k < DigitRun(s) ensures IsDigit(s[k]) {
        assert s[k] == s[1..][k - 1];
      }
    }
  }

  function DigitValue(c: char): (d: nat)
    requires IsDigit(c)
    ensures d < 10
  {
    c as int - '0' as int
  }

  /** The value of a run of decimal digits, most significant first. */
  function Decimal(ds: seq<char>): (v: nat)
    requires forall k :: 0 <= k < |ds| ==> IsDigit(ds[k])
  {
    if |ds| == 0 then 0 else 10 * Decimal(ds[..|ds| - 1]) + DigitValue(ds[|ds| - 1])
  }

  /** `n` with the sign written at the front of `s`: negated after a '-'. */
  function Signed(s: seq<char>, n: nat): int {
    if |s| > 0 && s[0] == '-' then -(n as int) else n
  }

  function AfterSign(s: seq<char>): (r: seq<char>)
    ensures |r| <= |s|
  {
    if |s| > 0 && (s[0] == '-' || s[0] == '+') then s[1..] else s
  }

  /**
   * `atoi`: white space, an optional sign, then as many digits as follow; text
   * without digits reads as 0. Values outside `int` are undefined behaviour in
   * C; the model keeps the mathematical value.
   */
  function Atoi(s: seq<char>): int {
    var t := SkipSpaces(s);
    var d := AfterSign(t);
    DigitRunDigits(d);
    Signed(t, Decimal(d[..DigitRun(d)]))
  }

  /** The 32-bit unsigned value an `int` becomes when passed as `uint32_t`. */
  function ToWord(v: int): (w: int)
    ensures 0 <= w < 0x1_0000_0000
    ensures 0 <= v < 0x1_0000_0000 ==> w == v
  {
    v % 0x1_0000_0000
  }

  const Int64Min: int := -0x8000_0000_0000_0000
  const Int64Max: int := 0x7FFF_FFFF_FFFF_FFFF

  /**
   * `std::istringstream(s) >> int64_t`: white space, an optional sign, at least
   * one digit; fails when there is no digit or the value leaves `int64_t`.
   * Text after the digits is ignored.
   */
  function ParseInt64(s: seq<char>): (r: Option<int>)
    ensures r.Some? ==> Int64Min <= r.value <= Int64Max
  {
    var t := SkipSpaces(s);
    var d := AfterSign(t);
    var n := DigitRun(d);
    DigitRunDigits(d);
    if n == 0 then None
    else
      var v := Signed(t, Decimal(d[..n]));
      if Int64Min <= v <= Int64Max then Some(v) else None
  }

  /** Decimal text of a natural number, without leading zeros (0 is "0"). */
  function Digits(v: nat): (s: seq<char>)
    ensures |s| > 0 && forall k :: 0 <= k < |s| ==> IsDigit(s[k])
    decreases v
  {
    if v < 10 then [('0' as int + v) as char]
    else Digits(v / 10) + [('0' as int + v % 10) as char]
  }

  lemma {:induction false} DecimalOfDigits(v: nat)
    ensures Decimal(Digits(v)) == v
    decreases v
  {
    var s := Digits(v);
    if v >= 10 {
      assert s[..|s| - 1] == Digits(v / 10);
      DecimalOfDigits(v / 10);
    }
  }

  /** Decimal text of an integer: a '-' before the digits of a negative value. */
  function ToDecimal(v: int): seq<char> {
    if v < 0 then ['-'] + Digits(-v) else Digits(v)
  }

  /** The stream parser reads back every `int64_t` written in decimal. */
  lemma ParseInt64OfDecimal(v: int)
    requires Int64Min <= v <= Int64Max
    ensures ParseInt64(ToDecimal(v)) == Some(v)
  {
    var s := ToDecimal(v);
    var d := if v < 0 then Digits(-v) else Digits(v);
    assert SkipSpaces(s) == s;
    assert AfterSign(s) == d;
    DigitRunAll(d);
    assert d[..|d|] == d;
    DecimalOfDigits(if v < 0 then -v else v);
  }

  /** `atoi` also reads back decimal text. */
  lemma AtoiOfDecimal(v: int)
    ensures Atoi(ToDecimal(v)) == v
  {
    var s := ToDecimal(v);
    var d := if v < 0 then Digits(-v) else Digits(v);
    assert SkipSpaces(s) == s;
    assert AfterSign(s) == d;
    DigitRunAll(d);
    assert d[..|d|] == d;
    DecimalOfDigits(if v < 0 then -v else v);
  }

  lemma {:induction false} DigitRunAll(d: seq<char>)
    requires forall k :: 0 <= k < |d| ==> IsDigit(d[k])
    ensures DigitRun(d) == |d|
  {
    if |d| > 0 {
      DigitRunAll(d[1..]);
    }
  }

  /** Keys in non-decreasing `strcmp` order, as `std::lower_bound` needs them. */
  predicate Sorted(keys: seq<seq<char>>) {
    forall m, n :: 0 <= m < n < |keys| ==> !StrLess(keys[n], keys[m])
  }

  /**
   * `std::lower_bound` under `strcmp` order: the first position whose key is
   * not below `k` (|keys| when there is none), found by binary search.
   */
  method LowerBound(keys: seq<seq<char>>, k: seq<char>) returns (i: nat)
    requires Sorted(keys)
    ensures i <= |keys|
    ensures forall m :: 0 <= m < i ==> StrLess(keys[m], k)
    ensures forall m :: i <= m < |keys| ==> !StrLess(keys[m], k)
    ensures i == LowerBoundOf(keys, k)
  {
    var lo, hi := 0, |keys|;
    while lo < hi
      invariant 0 <= lo <= hi <= |keys|
      invariant forall m :: 0 <= m < lo ==> StrLess(keys[m], k)
      invariant forall m :: hi <= m < |keys| ==> !StrLess(keys[m], k)
    {
      var mid := lo + (hi - lo) / 2;
      if StrLess(keys[mid], k) {
        forall m | 0 <= m <= mid ensures StrLess(keys[m], k) {
          if m < mid {
            StrLessOrEqualTransitive(keys[m], keys[mid], k);
          }
        }
        lo := mid + 1;
      } else {
        forall m | mid <= m < |keys| ensures !StrLess(keys[m], k) {
          if m > mid && StrLess(keys[m], k) {
            StrLessOrEqualTransitive(keys[mid], keys[m], k);
          }
        }
        hi := mid;
      }
    }
    i := lo;
    LowerBoundOfUnique(keys, k, i);
  }

  /** The reference lower bound: a scan for the first key not below k. */
  function LowerBoundOf(keys: seq<seq<char>>, k: seq<char>): (i: nat)
    ensures i <= |keys|
    ensures forall m :: 0 <= m < i ==> StrLess(keys[m], k)
    ensures i < |keys| ==> !StrLess(keys[i], k)
  {
    if |keys| == 0 || !StrLess(keys[0], k) then 0
    else 1 + LowerBoundOf(keys[1..], k)
  }

  /** Any position with every key before it below k and its own key not below k is the scan's answer. */
  lemma LowerBoundOfUnique(keys: seq<seq<char>>, k: seq<char>, i: nat)
    requires i <= |keys|
    requires forall m :: 0 <= m < i ==> StrLess(keys[m], k)
    requires i < |keys| ==> !StrLess(keys[i], k)
    ensures i == LowerBoundOf(keys, k)
  {
  }

  /** On sorted keys no key from the lower bound on is below k. */
  lemma LowerBoundOfSorted(keys: seq<seq<char>>, k: seq<char>)
    requires Sorted(keys)
    ensures forall m :: LowerBoundOf(keys, k) <= m < |keys| ==> !StrLess(keys[m], k)
  {
    var i := LowerBoundOf(keys, k);
    forall m | i < m < |keys| ensures !StrLess(keys[m], k) {
      if StrLess(keys[m], k) {
        StrLessOrEqualTransitive(keys[i], keys[m], k);
      }
    }
  }

  /** a <= b and b < c give a < c under `strcmp` order. */
  lemma StrLessOrEqualTransitive(a: seq<char>, b: seq<char>, c: seq<char>)
    requires !StrLess(b, a) && StrLess(b, c)
    ensures StrLess(a, c)
  {
    if a == b {
    } else {
      StrLessTotal(a, b);
      StrLessTransitive(a, b, c);
    }
  }

  /** The key at the lower bound equals k exactly when k is one of the keys. */
  lemma LowerBoundFinds(keys: seq<seq<char>>, k: seq<char>, i: nat)
    requires Sorted(keys)
    requires i <= |keys|
    requires forall m :: 0 <= m < i ==> StrLess(keys[m], k)
    requires forall m :: i <= m < |keys| ==> !StrLess(keys[m], k)
    ensures (i < |keys| && keys[i] == k) <==> k in keys
  {
    if k in keys {
      var m :| 0 <= m < |keys| && keys[m] == k;
      StrLessIrreflexive(k);
      if m > i && keys[i] != k {
        StrLessTotal(keys[i], k);
      }
    }
  }

  /** Two strings that agree before position d and differ at d are ordered by the characters at d. */
  lemma {:induction false} StrLessAt(a: seq<char>, b: seq<char>, d: nat)
    requires d < |a| && d < |b| && a[..d] == b[..d] && a[d] < b[d]
    ensures StrLess(a, b)
    decreases d
  {
    if d > 0 {
      assert a[0] == a[..d][0] == b[..d][0] == b[0];
      assert a[1..][..d - 1] == a[..d][1..] == b[..d][1..] == b[1..][..d - 1];
      StrLessAt(a[1..], b[1..], d - 1);
    }
  }

  /** Every key is below the next one. */
  predicate Ascending(keys: seq<seq<char>>) {
    forall k | 0 <= k < |keys| - 1 :: StrLess(keys[k], keys[k + 1])
  }

  /** In ascending keys every key is below every later one. */
  lemma {:induction false} AscendingBelow(keys: seq<seq<char>>, m: nat, n: nat)
    requires Ascending(keys) && m < n < |keys|
    ensures StrLess(keys[m], keys[n])
    decreases n - m
  {
    if m + 1 < n {
      AscendingBelow(keys, m + 1, n);
      StrLessTransitive(keys[m], keys[m + 1], keys[n]);
    }
  }

  /** Ascending keys are sorted for `std::lower_bound`, and no key occurs twice. */
  lemma AscendingSorted(keys: seq<seq<char>>)
    requires Ascending(keys)
    ensures Sorted(keys)
    ensures forall m, n | 0 <= m < n < |keys| :: keys[m] != keys[n]
  {
    forall m, n | 0 <= m < n < |keys|
      ensures !StrLess(keys[n], keys[m]) && keys[m] != keys[n]
    {
      AscendingBelow(keys, m, n);
      StrLessIrreflexive(keys[m]);
      if StrLess(keys[n], keys[m]) {
        StrLessTransitive(keys[m], keys[n], keys[m]);
      }
    }
  }
}
