/**
 * The request predicates of `TSImplementation`: the matchers applied to each
 * value of a header, query parameter or cookie, the `Loop` over those values,
 * and the comparisons on the method, scheme, host and path once they have
 * been fetched.
 *
 * Fetching from the request belongs to the host server and is not part of
 * this model: a `Request` holds the fetched strings and the three
 * dictionaries. A call that never gives an answer, because an assertion
 * fails or the loop spins, is None.
 */
module TsImpl {
  import opened Wrappers
  import opened CStrings
  import opened StringViews
  import opened Ts

  // ---------------------------------------------------------------------
  // std::search.
  // ---------------------------------------------------------------------

  /** `p` occurs in `h` starting at `m`. */
  predicate OccursAt(h: seq<char>, p: seq<char>, m: nat) {
    m + |p| <= |h| && h[m..m + |p|] == p
  }

  /** `std::search(h + from, h + |h|, p, p + |p|)` as an index: the first occurrence at or after `from`, else `|h|`. */
  function Search(h: seq<char>, p: seq<char>, from: nat): (r: nat)
    requires from <= |h|
    ensures from <= r <= |h|
    ensures r < |h| ==> OccursAt(h, p, r)
    ensures forall m :: from <= m < r ==> !OccursAt(h, p, m)
    decreases |h| - from
  {
    if from + |p| > |h| then |h|
    else if h[from..from + |p|] == p then from
    else Search(h, p, from + 1)
  }

  /** An empty pattern is found wherever the search starts. */
  lemma {:induction false} SearchEmpty(h: seq<char>, from: nat)
    requires from <= |h|
    ensures Search(h, [], from) == from
  {
    assert h[from..from] == [];
  }

  /** An occurrence at `from` is the one found. */
  lemma {:induction false} SearchHere(h: seq<char>, p: seq<char>, from: nat)
    requires from <= |h| && OccursAt(h, p, from)
    ensures Search(h, p, from) == from
  {
  }

  // ---------------------------------------------------------------------
  // The matchers.
  // ---------------------------------------------------------------------

  /** `Contains`: the pattern occurs in the value, found before its end. */
  function ContainsText(v: seq<char>, p: seq<char>): (r: bool)
    ensures r <==> exists m :: 0 <= m < |v| && OccursAt(v, p, m)
  {
    Search(v, p, 0) != |v|
  }

  /** `Equal`: same length and a zero `memcmp`. */
  function EqualText(v: seq<char>, p: seq<char>): (r: bool)
    ensures r <==> v == p
  {
    |p| == |v| && Memcmp(p, v) == 0
  }

  datatype Comparison = Greater | Less

  predicate Compares(cmp: Comparison, c: int, t: int) {
    match cmp
    case Greater => c > t
    case Less => c < t
  }

  /** `GreaterThan` and `LessThan`: the text reads as an `int64_t` that compares with `t`. */
  function NumberHolds(cmp: Comparison, text: seq<char>, t: int): bool
  {
    match ParseInt64(text)
    case None => false
    case Some(c) => Compares(cmp, c, t)
  }

  /** A number written in decimal compares as the number itself. */
  lemma NumberOfDecimal(cmp: Comparison, x: int, t: int)
    requires Int64Min <= x <= Int64Max
    ensures NumberHolds(cmp, ToDecimal(x), t) <==> Compares(cmp, x, t)
  {
    ParseInt64OfDecimal(x);
  }

  /** No text is both greater and less than the same bound. */
  lemma NumberExclusive(text: seq<char>, t: int)
    ensures !(NumberHolds(Greater, text, t) && NumberHolds(Less, text, t))
  {
  }

  /**
   * The loop of `GreaterThanAfter` / `LessThanAfter` from a found marker at
   * `it` (or the end): the number after the marker is tried, then the search
   * resumes after the marker. An empty marker is found again at the same
   * place, so the loop spins for ever once the number fails.
   */
  function AfterFrom(cmp: Comparison, v: seq<char>, p: seq<char>, t: int, it: nat): Option<bool>
    requires it == |v| || (it < |v| && OccursAt(v, p, it))
    decreases |v| - it
  {
    if it == |v| then Some(false)
    else if NumberHolds(cmp, v[it + |p|..], t) then Some(true)
    else if |p| == 0 then None
    else AfterFrom(cmp, v, p, t, Search(v, p, it + |p|))
  }

  /** What `GreaterThanAfter` / `LessThanAfter` answer for a value, or None if they spin. */
  function AfterOf(cmp: Comparison, v: seq<char>, p: seq<char>, t: int): Option<bool> {
    AfterFrom(cmp, v, p, t, Search(v, p, 0))
  }

  /** The loop of `GreaterThanAfter` / `LessThanAfter`. */
  method CompareAfter(cmp: Comparison, v: seq<char>, p: seq<char>, t: int) returns (r: Option<bool>)
    ensures r == AfterOf(cmp, v, p, t)
  {
    var it := Search(v, p, 0);
    while it != |v|
      invariant it <= |v| && (it < |v| ==> OccursAt(v, p, it))
      invariant AfterFrom(cmp, v, p, t, it) == AfterOf(cmp, v, p, t)
      decreases |v| - it
    {
      if NumberHolds(cmp, v[it + |p|..], t) {
        AfterHit(cmp, v, p, t, it);
        return Some(true);
      }
      if |p| == 0 {
        // the next search finds the empty marker at `it` again
        return None;
      }
      AfterMiss(cmp, v, p, t, it);
      it := Search(v, p, it + |p|);
    }
    return Some(false);
  }

  /** A non-empty marker always moves the search forward: the loop ends with an answer. */
  lemma {:induction false} AfterAnswers(cmp: Comparison, v: seq<char>, p: seq<char>, t: int, it: nat)
    requires 0 < |p| && (it == |v| || (it < |v| && OccursAt(v, p, it)))
    ensures AfterFrom(cmp, v, p, t, it).Some?
    decreases |v| - it
  {
    if it < |v| && !NumberHolds(cmp, v[it + |p|..], t) {
      AfterAnswers(cmp, v, p, t, Search(v, p, it + |p|));
    }
  }

  /** A true answer names a marker followed by a number that compares. */
  lemma {:induction false} AfterSound(cmp: Comparison, v: seq<char>, p: seq<char>, t: int, it: nat)
    requires it == |v| || (it < |v| && OccursAt(v, p, it))
    requires AfterFrom(cmp, v, p, t, it) == Some(true)
    ensures exists m :: it <= m < |v| && OccursAt(v, p, m) && NumberHolds(cmp, v[m + |p|..], t)
    decreases |v| - it
  {
    if !NumberHolds(cmp, v[it + |p|..], t) {
      AfterSound(cmp, v, p, t, Search(v, p, it + |p|));
    }
  }

  /** The first marker in the value is followed by a number that compares: the answer is true. */
  lemma AfterFirstMarker(cmp: Comparison, v: seq<char>, p: seq<char>, t: int, it: nat)
    requires it < |v| && OccursAt(v, p, it) && forall m :: 0 <= m < it ==> !OccursAt(v, p, m)
    requires NumberHolds(cmp, v[it + |p|..], t)
    ensures AfterOf(cmp, v, p, t) == Some(true)
  {
    AfterHit(cmp, v, p, t, it);
  }

  /** A non-empty marker followed by text that does not compare: the loop resumes after the marker. */
  lemma AfterMiss(cmp: Comparison, v: seq<char>, p: seq<char>, t: int, it: nat)
    requires 0 < |p| && it < |v| && OccursAt(v, p, it) && !NumberHolds(cmp, v[it + |p|..], t)
    ensures AfterFrom(cmp, v, p, t, it) == AfterFrom(cmp, v, p, t, Search(v, p, it + |p|))
  {
  }

  /** A marker followed by a number that compares ends the loop with true. */
  lemma AfterHit(cmp: Comparison, v: seq<char>, p: seq<char>, t: int, it: nat)
    requires it < |v| && OccursAt(v, p, it) && NumberHolds(cmp, v[it + |p|..], t)
    ensures AfterFrom(cmp, v, p, t, it) == Some(true)
  {
  }

  /** No marker anywhere in the value: the answer is false. */
  lemma {:induction false} AfterNoMarker(cmp: Comparison, v: seq<char>, p: seq<char>, t: int)
    requires forall m :: 0 <= m < |v| ==> !OccursAt(v, p, m)
    ensures AfterOf(cmp, v, p, t) == Some(false)
  {
  }

  /** A marker that cannot start inside a number, then the decimal text of `x`: the answer is the comparison of `x`. */
  lemma {:induction false} AfterOfMarkedNumber(cmp: Comparison, p: seq<char>, x: int, t: int)
    requires 0 < |p| && !IsDigit(p[0]) && p[0] != '-' && Int64Min <= x <= Int64Max
    ensures AfterOf(cmp, p + ToDecimal(x), p, t) == Some(Compares(cmp, x, t))
  {
    var v := p + ToDecimal(x);
    assert v[0..|p|] == p;
    SearchHere(v, p, 0);
    assert v[|p|..] == ToDecimal(x);
    NumberOfDecimal(cmp, x, t);
    if !Compares(cmp, x, t) {
      // the digits and the sign cannot start the marker again
      assert Search(v, p, |p|) == |v|;
      assert AfterFrom(cmp, v, p, t, 0) == AfterFrom(cmp, v, p, t, |v|);
    }
  }

  /**
   * Markers are taken greedily and never overlap: in "aaa5" the search finds
   * "aa" at 0, fails to read "a5", resumes at 2 and misses the "aa" at 1 that
   * is followed by 5.
   */
  lemma {:induction false} OverlappingMarkerMissed()
    ensures OccursAt("aaa5", "aa", 1) && NumberHolds(Greater, "5", 0)
    ensures AfterOf(Greater, "aaa5", "aa", 0) == Some(false)
  {
    var v := "aaa5";
    assert v[1..3] == "aa";
    assert v[3..] == "5";
    ParseInt64OfDecimal(5);
    assert ToDecimal(5) == "5";
    MarkersOfAaa();
    assert v[2..] == "a5";
    NoLeadingNumber("a5");
  }

  /** In "aaa5", "aa" is found at 0, and after 2 it is found no more. */
  lemma {:induction false} MarkersOfAaa()
    ensures Search("aaa5", "aa", 0) == 0 && Search("aaa5", "aa", 2) == 4
  {
    var v := "aaa5";
    assert v[0..2] == "aa";
    assert v[2..4][1] == '5';
    assert Search(v, "aa", 3) == 4;
  }

  /** Text that starts with neither white space, a sign nor a digit does not read as a number. */
  lemma {:induction false} NoLeadingNumber(s: seq<char>)
    requires 0 < |s| && !IsSpace(s[0]) && !IsDigit(s[0]) && s[0] != '-' && s[0] != '+'
    ensures ParseInt64(s) == None
  {
    assert SkipSpaces(s) == s;
  }

  /** An empty marker is found at every place: the loop spins unless the whole value compares. */
  lemma {:induction false} AfterEmptyMarker(cmp: Comparison, v: seq<char>, t: int)
    requires 0 < |v|
    ensures AfterOf(cmp, v, [], t) == if NumberHolds(cmp, v, t) then Some(true) else None
  {
    SearchEmpty(v, 0);
    assert v[0..] == v;
  }

  // ---------------------------------------------------------------------
  // StartsWith.
  // ---------------------------------------------------------------------

  /** `StartsWith` and `StartsWithDomain` as written: the first occurrence is NOT at offset `o`. */
  function StartsWithAsWritten(v: seq<char>, p: seq<char>, o: nat): (r: bool)
    ensures r <==> Search(v, p, 0) != o
  {
    Search(v, p, 0) != o
  }

  /** `StartsWithPath`, and what the others evidently intend: the first occurrence is at `o` (or nothing is found and `o` is the length). */
  function StartsWithAt(v: seq<char>, p: seq<char>, o: nat): (r: bool)
    ensures o < |v| ==> (r <==> OccursAt(v, p, o) && forall m :: 0 <= m < o ==> !OccursAt(v, p, m))
  {
    Search(v, p, 0) == o
  }

  /** At offset 0 the corrected matcher is the prefix test. */
  lemma StartsWithAtZero(v: seq<char>, p: seq<char>)
    requires 0 < |v|
    ensures StartsWithAt(v, p, 0) <==> |p| <= |v| && v[..|p|] == p
  {
  }

  /** The matcher as written answers the opposite of the intended one, on every input. */
  lemma StartsWithInverted(v: seq<char>, p: seq<char>, o: nat)
    ensures StartsWithAsWritten(v, p, o) == !StartsWithAt(v, p, o)
  {
  }

  /** "abc" starts with "ab", yet the matcher as written says it does not. */
  lemma StartsWithAsWrittenRejectsPrefix()
    ensures !StartsWithAsWritten("abc", "ab", 0) && StartsWithAt("abc", "ab", 0)
  {
    assert "abc"[0..2] == "ab";
  }

  // ---------------------------------------------------------------------
  // One matcher on one value; Loop over a key's values.
  // ---------------------------------------------------------------------

  /** The functors of ts-impl.cc with their constructor arguments. */
  datatype Matcher =
    | Contains(p: seq<char>)
    | Equal(p: seq<char>)
    | Compare(cmp: Comparison, t: int)
    | CompareAfterMarker(cmp: Comparison, p: seq<char>, t: int)
    | StartsWith(p: seq<char>, o: nat)

  /** `u(it)`: the matcher's answer for one value, or None if it spins. */
  function Matches(u: Matcher, v: seq<char>): (r: Option<bool>)
    ensures r.None? ==> u.CompareAfterMarker? && |u.p| == 0
  {
    match u
    case Contains(p) => Some(ContainsText(v, p))
    case Equal(p) => Some(EqualText(v, p))
    case Compare(cmp, t) => Some(NumberHolds(cmp, v, t))
    case CompareAfterMarker(cmp, p, t) =>
      if |p| > 0 then AfterAnswers(cmp, v, p, t, Search(v, p, 0)); AfterOf(cmp, v, p, t)
      else AfterOf(cmp, v, p, t)
    case StartsWith(p, o) => Some(StartsWithAt(v, p, o))
  }

  method Evaluate(u: Matcher, v: seq<char>) returns (r: Option<bool>)
    ensures r == Matches(u, v)
  {
    match u
    case CompareAfterMarker(cmp, p, t) =>
      r := CompareAfter(cmp, v, p, t);
    case _ =>
      r := Matches(u, v);
  }

  /** `Loop` from the `k`-th value: each must be non-empty, and the first that matches ends it. */
  function LoopFrom(vs: Values, u: Matcher, k: nat): Option<bool>
    requires k <= |vs|
    decreases |vs| - k
  {
    if k == |vs| then Some(false)
    else if |vs[k]| == 0 then None
    else match Matches(u, vs[k])
      case None => None
      case Some(true) => Some(true)
      case Some(false) => LoopFrom(vs, u, k + 1)
  }

  /** `Loop(r, u)`: false for a missing key, else whether some value matches; None if an assertion fails. */
  function LoopOf(r: Option<Values>, u: Matcher): Option<bool> {
    match r
    case None => Some(false)
    case Some(vs) => LoopFrom(vs, u, 0)
  }

  method Loop(r: Option<Values>, u: Matcher) returns (b: Option<bool>)
    ensures b == LoopOf(r, u)
  {
    if r.None? {
      return Some(false);
    }
    var vs := r.value;
    var k := 0;
    while k < |vs|
      invariant k <= |vs| && LoopFrom(vs, u, k) == LoopOf(r, u)
    {
      if |vs[k]| == 0 {
        return None;
      }
      var m := Evaluate(u, vs[k]);
      if m.None? {
        return None;
      }
      if m.value {
        return Some(true);
      }
      k := k + 1;
    }
    return Some(false);
  }

  /** Values on which the matcher gives an answer and the assertions hold. */
  predicate Answers(vs: Values, u: Matcher) {
    forall k :: 0 <= k < |vs| ==> |vs[k]| > 0 && Matches(u, vs[k]).Some?
  }

  /** With an answer for every value, `Loop` says whether SOME value matches. */
  lemma {:induction false} LoopFindsAny(vs: Values, u: Matcher, k: nat)
    requires k <= |vs| && Answers(vs, u)
    ensures LoopFrom(vs, u, k) == Some(exists n :: k <= n < |vs| && Matches(u, vs[n]) == Some(true))
    decreases |vs| - k
  {
    if k < |vs| {
      LoopFromStep(vs, u, k);
      if Matches(u, vs[k]) == Some(true) {
        assert k <= k < |vs| && Matches(u, vs[k]) == Some(true);
      } else {
        LoopFindsAny(vs, u, k + 1);
      }
    }
  }

  /** One value of `Loop` that answers: true ends it, false goes on with the next. */
  lemma LoopFromStep(vs: Values, u: Matcher, k: nat)
    requires k < |vs| && |vs[k]| > 0 && Matches(u, vs[k]).Some?
    ensures LoopFrom(vs, u, k) == if Matches(u, vs[k]).value then Some(true) else LoopFrom(vs, u, k + 1)
  {
  }

  /** An empty value before any match fails the assertion in `Loop`. */
  lemma {:induction false} LoopFaultsOnEmpty(vs: Values, u: Matcher, k: nat)
    requires k < |vs| && |vs[k]| == 0
    requires forall n :: 0 <= n < k ==> |vs[n]| > 0 && Matches(u, vs[n]) == Some(false)
    ensures LoopOf(Some(vs), u) == None
  {
    LoopFaultsFrom(vs, u, 0, k);
  }

  lemma {:induction false} LoopFaultsFrom(vs: Values, u: Matcher, i: nat, k: nat)
    requires i <= k < |vs| && |vs[k]| == 0
    requires forall n :: i <= n < k ==> |vs[n]| > 0 && Matches(u, vs[n]) == Some(false)
    ensures LoopFrom(vs, u, i) == None
    decreases k - i
  {
    if i < k {
      LoopFaultsFrom(vs, u, i + 1, k);
    }
  }

  // ---------------------------------------------------------------------
  // The request.
  // ---------------------------------------------------------------------

  /** What the host server hands over: the fetched URL parts and the three dictionaries. */
  datatype Request = Request(
    verb: seq<char>, scheme: seq<char>, host: seq<char>, path: seq<char>,
    headers: Dictionary, queryParameters: Dictionary, cookies: Dictionary)

  datatype Field = Header | QueryParameter | Cookie

  function Table(req: Request, f: Field): Dictionary {
    match f
    case Header => req.headers
    case QueryParameter => req.queryParameters
    case Cookie => req.cookies
  }

  /** `operator[]` of the three dictionaries. */
  function Lookup(d: Dictionary, key: seq<char>): (r: Option<Values>)
    ensures r.Some? <==> key in d
    ensures r.Some? ==> r.value == d[key]
  {
    if key in d then Some(d[key]) else None
  }

  /** `ContainsHeader`, `EqualQueryParameter`, `LessThanAfterCookie` and the rest: `Loop` over the key's values. */
  function Ask(req: Request, f: Field, key: seq<char>, u: Matcher): Option<bool> {
    LoopOf(Lookup(Table(req, f), key), u)
  }

  /** A missing key is false; otherwise, when every value answers, whether some value matches. */
  lemma AskMeans(req: Request, f: Field, key: seq<char>, u: Matcher)
    ensures key !in Table(req, f) ==> Ask(req, f, key, u) == Some(false)
    ensures key in Table(req, f) && Answers(Table(req, f)[key], u) ==>
      Ask(req, f, key, u) == Some(exists n :: 0 <= n < |Table(req, f)[key]| && Matches(u, Table(req, f)[key][n]) == Some(true))
  {
    if key in Table(req, f) && Answers(Table(req, f)[key], u) {
      LoopFindsAny(Table(req, f)[key], u, 0);
    }
  }

  /** `ExistsHeader`, `ExistsQueryParameter`, `ExistsCookie`: `operator[]` found the key. */
  function Exists(req: Request, f: Field, key: seq<char>): (r: bool)
    ensures r <==> key in Table(req, f)
  {
    Lookup(Table(req, f), key).Some?
  }

  /** `NotEqualHeader`, `NotEqualQueryParameter`, `NotEqualCookie`: the key exists and `Equal` is false. */
  function NotEqual(req: Request, f: Field, key: seq<char>, b: seq<char>): (r: Option<bool>)
    ensures !Exists(req, f, key) ==> r == Some(false)
  {
    if !Exists(req, f, key) then Some(false)
    else match Ask(req, f, key, Equal(b))
      case None => None
      case Some(x) => Some(!x)
  }

  /** With non-empty values, `NotEqual` holds exactly when the key exists and none of its values is `b`. */
  lemma NotEqualMeans(req: Request, f: Field, key: seq<char>, b: seq<char>)
    requires key in Table(req, f) ==> forall n :: 0 <= n < |Table(req, f)[key]| ==> |Table(req, f)[key][n]| > 0
    ensures NotEqual(req, f, key, b) == Some(key in Table(req, f) && b !in Table(req, f)[key])
  {
    if key in Table(req, f) {
      var vs := Table(req, f)[key];
      AskMeans(req, f, key, Equal(b));
      if b in vs {
        var n :| 0 <= n < |vs| && vs[n] == b;
        assert Matches(Equal(b), vs[n]) == Some(true);
      }
    }
  }

  /** Every value the query parser stores is non-empty. */
  predicate NonEmptyValues(d: Dictionary) {
    forall key :: key in d ==> forall n :: 0 <= n < |d[key]| ==> |d[key][n]| > 0
  }

  lemma {:induction false} CollectNonEmpty(m: Dictionary, segs: seq<seq<char>>)
    requires NonEmptyValues(m)
    ensures NonEmptyValues(Collect(m, segs))
    decreases |segs|
  {
    if |segs| > 0 {
      var d := Collect(m, segs[..|segs| - 1]);
      CollectNonEmpty(m, segs[..|segs| - 1]);
      var seg := segs[|segs| - 1];
      if |seg| > 0 {
        var vs := Value(seg);
        var r := Append(d, Key(seg), vs);
        forall key | key in r ensures forall n :: 0 <= n < |r[key]| ==> |r[key][n]| > 0 {
          if key == Key(seg) {
            assert r[key] == ValuesAt(d, key) + vs;
            forall n | 0 <= n < |r[key]| ensures |r[key][n]| > 0 {
              if n >= |ValuesAt(d, key)| {
                assert r[key][n] in vs;
              }
            }
          } else {
            AppendElsewhere(d, Key(seg), vs, key);
            assert r[key] == ValuesAt(d, key);
          }
        }
      }
    }
  }

  /** A parsed query never trips `Loop`'s assertion: with a terminating matcher every query-parameter predicate answers. */
  lemma QueryPredicatesAnswer(req: Request, s: seq<char>, key: seq<char>, u: Matcher)
    requires req.queryParameters == QueryInto(map[], s)
    requires !(u.CompareAfterMarker? && |u.p| == 0)
    ensures Ask(req, QueryParameter, key, u).Some?
  {
    CollectNonEmpty(map[], Fields(s, '&'));
    if key in req.queryParameters {
      LoopFindsAny(req.queryParameters[key], u, 0);
    }
  }

  /** A cookie with an empty value (`a=`) is stored, and asking about it fails the assertion. */
  lemma EmptyCookieValueIsFatal(req: Request, u: Matcher)
    requires req.cookies == map["a" := [""]]
    ensures CookiesInto(map[], "a=") == Some(req.cookies)
    ensures Ask(req, Cookie, "a", u) == None
  {
    var s := "a=";
    var empty: Dictionary := map[];
    assert Scan(empty, s, 1) == Some(Cursor(0, 0, false, empty));
    assert Scan(empty, s, 2) == Some(Cursor(0, 1, false, empty));
    assert s[0..1] == "a" && s[2..] == "";
    assert ValuesAt(empty, "a") + [""] == [""];
    assert Append(empty, "a", [""]).Keys == {"a"};
  }

  // ---------------------------------------------------------------------
  // The URL parts.
  // ---------------------------------------------------------------------

  /** Same length and a zero `memcmp` against the first `b` characters of `a`. */
  function SameText(x: seq<char>, a: seq<char>, b: nat): (r: bool)
    requires b <= |a|
    ensures r <==> x == a[..b]
  {
    b == |x| && Memcmp(x, a[..b]) == 0
  }

  /** `IsMethod`: `b` must be the length of `a`. */
  function IsMethod(req: Request, a: seq<char>, b: nat): (r: bool)
    requires b == |a|
    ensures r <==> req.verb == a
  {
    assert a[..b] == a;
    SameText(req.verb, a, b)
  }

  /** `IsScheme`: `b` must be the length of `a`. */
  function IsScheme(req: Request, a: seq<char>, b: nat): (r: bool)
    requires b == |a|
    ensures r <==> req.scheme == a
  {
    assert a[..b] == a;
    SameText(req.scheme, a, b)
  }

  /** `EqualDomain`: the host is the first `b` characters of `a`. */
  function EqualDomain(req: Request, a: seq<char>, b: nat): (r: bool)
    requires b <= |a|
    ensures r <==> req.host == a[..b]
  {
    SameText(req.host, a, b)
  }

  /** `NotEqualDomain`: the negation of `EqualDomain`. */
  function NotEqualDomain(req: Request, a: seq<char>, b: nat): (r: bool)
    requires b <= |a|
    ensures r <==> req.host != a[..b]
  {
    !EqualDomain(req, a, b)
  }

  /** `EqualPath`. */
  function EqualPath(req: Request, a: seq<char>, b: nat): (r: bool)
    requires b <= |a|
    ensures r <==> req.path == a[..b]
  {
    SameText(req.path, a, b)
  }

  /** `NotEqualPath`: the negation of `EqualPath`. */
  function NotEqualPath(req: Request, a: seq<char>, b: nat): (r: bool)
    requires b <= |a|
    ensures r <==> req.path != a[..b]
  {
    !EqualPath(req, a, b)
  }

  /** `ContainsDomain`. */
  function ContainsDomain(req: Request, a: seq<char>, b: nat): (r: bool)
    requires b <= |a|
    ensures r <==> exists m :: 0 <= m < |req.host| && OccursAt(req.host, a[..b], m)
  {
    ContainsText(req.host, a[..b])
  }

  /** `ContainsPath`. */
  function ContainsPath(req: Request, a: seq<char>, b: nat): (r: bool)
    requires b <= |a|
    ensures r <==> exists m :: 0 <= m < |req.path| && OccursAt(req.path, a[..b], m)
  {
    ContainsText(req.path, a[..b])
  }

  /** `StartsWithDomain`, with the comparison of `StartsWithPath`. */
  function StartsWithDomain(req: Request, a: seq<char>, b: nat, c: nat): (r: bool)
    requires b <= |a|
    ensures c < |req.host| ==>
      (r <==> OccursAt(req.host, a[..b], c) && forall m :: 0 <= m < c ==> !OccursAt(req.host, a[..b], m))
  {
    StartsWithAt(req.host, a[..b], c)
  }

  /** `StartsWithPath`. */
  function StartsWithPath(req: Request, a: seq<char>, b: nat, c: nat): (r: bool)
    requires b <= |a|
    ensures c < |req.path| ==>
      (r <==> OccursAt(req.path, a[..b], c) && forall m :: 0 <= m < c ==> !OccursAt(req.path, a[..b], m))
  {
    StartsWithAt(req.path, a[..b], c)
  }
}
