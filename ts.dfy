/**
 * The request dictionaries the Traffic Server backend answers from: the
 * query-string parser (`QueryParameters`) and the cookie-string parser
 * (`Cookies`). Both fill a `std::map<StringView, std::vector<StringView>,
 * StringViewLess>`; since that order's equivalence is equality of contents
 * (`StringViews.LessEquivalenceIsContentEquality`), the model keys the map
 * by the views' characters.
 */
module Ts {
  import opened Wrappers
  import opened StringViews

  /** The values of one key, in the order they were pushed. */
  type Values = seq<seq<char>>

  type Dictionary = map<seq<char>, Values>

  /** `map_[key]`: the key's values, or none when the key is missing. */
  function ValuesAt(m: Dictionary, key: seq<char>): Values {
    if key in m then m[key] else []
  }

  /**
   * `Values & v = map_[key]` followed by `v.push_back` of each of `vs`: the
   * key is created even when `vs` is empty.
   */
  function Append(m: Dictionary, key: seq<char>, vs: Values): (r: Dictionary)
    ensures ValuesAt(r, key) == ValuesAt(m, key) + vs
  {
    m[key := ValuesAt(m, key) + vs]
  }

  /** `Append` adds the key to the map's keys and no other. */
  lemma AppendKeys(m: Dictionary, key: seq<char>, vs: Values)
    ensures Append(m, key, vs).Keys == m.Keys + {key}
  {
  }

  /** `Append` leaves every other key's values as they were. */
  lemma {:induction false} AppendElsewhere(m: Dictionary, key: seq<char>, vs: Values, other: seq<char>)
    requires other != key
    ensures ValuesAt(Append(m, key, vs), other) == ValuesAt(m, other)
  {
  }

  predicate Lacks(s: seq<char>, c: char) {
    forall x :: 0 <= x < |s| ==> s[x] != c
  }

  // ---------------------------------------------------------------------
  // Name/value pairs: what a well-formed query or cookie string denotes.
  // ---------------------------------------------------------------------

  /** Each pair pushed in turn: the dictionary a list of name/value pairs denotes. */
  function PairsInto(m: Dictionary, pairs: seq<(seq<char>, seq<char>)>): Dictionary
    decreases |pairs|
  {
    if |pairs| == 0 then m
    else
      var last := pairs[|pairs| - 1];
      Append(PairsInto(m, pairs[..|pairs| - 1]), last.0, [last.1])
  }

  /** The values paired with `key`, in input order. */
  function Matching(pairs: seq<(seq<char>, seq<char>)>, key: seq<char>): (vs: Values)
    ensures |vs| <= |pairs|
  {
    if |pairs| == 0 then []
    else if pairs[0].0 == key then [pairs[0].1] + Matching(pairs[1..], key)
    else Matching(pairs[1..], key)
  }

  lemma {:induction false} MatchingAppend(pairs: seq<(seq<char>, seq<char>)>, p: (seq<char>, seq<char>), key: seq<char>)
    ensures Matching(pairs + [p], key) == Matching(pairs, key) + (if p.0 == key then [p.1] else [])
    decreases |pairs|
  {
    if |pairs| > 0 {
      assert (pairs + [p])[1..] == pairs[1..] + [p];
      MatchingAppend(pairs[1..], p, key);
    }
  }

  /** A repeated key accumulates its values in input order. */
  lemma {:induction false} PairsAccumulate(m: Dictionary, pairs: seq<(seq<char>, seq<char>)>, key: seq<char>)
    ensures ValuesAt(PairsInto(m, pairs), key) == ValuesAt(m, key) + Matching(pairs, key)
    decreases |pairs|
  {
    if |pairs| > 0 {
      var pre := pairs[..|pairs| - 1];
      var last := pairs[|pairs| - 1];
      assert pairs == pre + [last];
      PairsAccumulate(m, pre, key);
      MatchingAppend(pre, last, key);
      if last.0 != key {
        AppendElsewhere(PairsInto(m, pre), last.0, [last.1], key);
      }
    }
  }

  /** A key is present exactly when it was already present or some pair names it. */
  lemma {:induction false} PairsKeys(m: Dictionary, pairs: seq<(seq<char>, seq<char>)>, key: seq<char>)
    ensures key in PairsInto(m, pairs) <==> key in m || exists x :: 0 <= x < |pairs| && pairs[x].0 == key
    decreases |pairs|
  {
    if |pairs| > 0 {
      var pre := pairs[..|pairs| - 1];
      PairsKeys(m, pre, key);
      if key in PairsInto(m, pre) && key !in m {
        var x :| 0 <= x < |pre| && pre[x].0 == key;
        assert pairs[x].0 == key;
      }
      if exists x :: 0 <= x < |pairs| && pairs[x].0 == key {
        var x :| 0 <= x < |pairs| && pairs[x].0 == key;
        if x < |pre| {
          assert pre[x].0 == key;
        }
      }
    }
  }

  // ---------------------------------------------------------------------
  // Splitting on a separator.
  // ---------------------------------------------------------------------

  /** The pieces of `s` between separators, read from the left: one more piece than separators. */
  function Fields(s: seq<char>, sep: char): (fs: seq<seq<char>>)
    ensures |fs| > 0
    decreases |s|
  {
    if |s| == 0 then [[]] else Grow(Fields(s[..|s| - 1], sep), s[|s| - 1], sep)
  }

  /** One more character: a separator opens a new piece, anything else extends the last one. */
  function Grow(fs: seq<seq<char>>, c: char, sep: char): (r: seq<seq<char>>)
    requires |fs| > 0
    ensures |r| > 0
  {
    if c == sep then fs + [[]] else fs[..|fs| - 1] + [fs[|fs| - 1] + [c]]
  }

  lemma {:induction false} FieldsStep(s: seq<char>, c: char, sep: char)
    ensures Fields(s + [c], sep) == Grow(Fields(s, sep), c, sep)
  {
    assert (s + [c])[..|s|] == s;
  }

  /** The pieces glued back together with `sep` between them. */
  function Join(fs: seq<seq<char>>, sep: seq<char>): seq<char>
    requires |fs| > 0
    decreases |fs|
  {
    if |fs| == 1 then fs[0] else Join(fs[..|fs| - 1], sep) + sep + fs[|fs| - 1]
  }

  /** Text without a separator only lengthens the last piece. */
  lemma {:induction false} FieldsPlain(s: seq<char>, y: seq<char>, sep: char)
    requires Lacks(y, sep)
    ensures var fs := Fields(s, sep);
      Fields(s + y, sep) == fs[..|fs| - 1] + [fs[|fs| - 1] + y]
    decreases |y|
  {
    var fs := Fields(s, sep);
    if |y| == 0 {
      assert s + y == s;
      assert fs[|fs| - 1] + y == fs[|fs| - 1];
      assert fs[..|fs| - 1] + [fs[|fs| - 1]] == fs;
    } else {
      var y' := y[..|y| - 1];
      var c := y[|y| - 1];
      assert s + y == (s + y') + [c];
      FieldsStep(s + y', c, sep);
      FieldsPlain(s, y', sep);
      var g := fs[..|fs| - 1] + [fs[|fs| - 1] + y'];
      assert g[..|g| - 1] == fs[..|fs| - 1];
      assert fs[|fs| - 1] + y' + [c] == fs[|fs| - 1] + y;
    }
  }

  /** Splitting at a separator splits the pieces. */
  lemma {:induction false} FieldsConcat(x: seq<char>, y: seq<char>, sep: char)
    ensures Fields(x + [sep] + y, sep) == Fields(x, sep) + Fields(y, sep)
    decreases |y|
  {
    var fx := Fields(x, sep);
    if |y| == 0 {
      assert x + [sep] + y == x + [sep];
      FieldsStep(x, sep, sep);
    } else {
      var y' := y[..|y| - 1];
      var c := y[|y| - 1];
      assert x + [sep] + y == (x + [sep] + y') + [c];
      assert y == y' + [c];
      FieldsStep(x + [sep] + y', c, sep);
      FieldsStep(y', c, sep);
      FieldsConcat(x, y', sep);
      GrowAfter(fx, Fields(y', sep), c, sep);
    }
  }

  lemma {:induction false} GrowAfter(fx: seq<seq<char>>, fy: seq<seq<char>>, c: char, sep: char)
    requires |fy| > 0
    ensures Grow(fx + fy, c, sep) == fx + Grow(fy, c, sep)
  {
    if c != sep {
      assert (fx + fy)[..|fx + fy| - 1] == fx + fy[..|fy| - 1];
    }
  }

  /** Splitting undoes joining, when no piece holds the separator. */
  lemma {:induction false} FieldsOfJoin(fs: seq<seq<char>>, sep: char)
    requires |fs| > 0 && forall x :: 0 <= x < |fs| ==> Lacks(fs[x], sep)
    ensures Fields(Join(fs, [sep]), sep) == fs
    decreases |fs|
  {
    var last := fs[|fs| - 1];
    FieldsOfPlain(last, sep);
    if |fs| > 1 {
      var pre := fs[..|fs| - 1];
      assert forall x :: 0 <= x < |pre| ==> pre[x] == fs[x];
      FieldsOfJoin(pre, sep);
      assert Join(fs, [sep]) == Join(pre, [sep]) + [sep] + last;
      FieldsConcat(Join(pre, [sep]), last, sep);
      assert fs == pre + [last];
    }
  }

  /** Text without a separator is a single piece. */
  lemma {:induction false} FieldsOfPlain(y: seq<char>, sep: char)
    requires Lacks(y, sep)
    ensures Fields(y, sep) == [y]
  {
    FieldsPlain([], y, sep);
    assert [] + y == y;
  }

  /** Joining undoes splitting. */
  lemma {:induction false} JoinOfFields(s: seq<char>, sep: char)
    ensures Join(Fields(s, sep), [sep]) == s
    decreases |s|
  {
    if |s| > 0 {
      var s' := s[..|s| - 1];
      var c := s[|s| - 1];
      var fs := Fields(s', sep);
      assert s == s' + [c];
      FieldsStep(s', c, sep);
      JoinOfFields(s', sep);
      var fs2 := Grow(fs, c, sep);
      if c == sep {
        assert fs2[..|fs2| - 1] == fs;
      } else if |fs| > 1 {
        assert fs2[..|fs2| - 1] == fs[..|fs| - 1];
        assert Join(fs, [sep]) == Join(fs[..|fs| - 1], [sep]) + [sep] + fs[|fs| - 1];
      }
    }
  }

  // ---------------------------------------------------------------------
  // Query strings (`QueryParameters`).
  // ---------------------------------------------------------------------

  /**
   * Where a query segment's key ends: at the first '=' after the segment's
   * first character, or at the segment's end. A '=' in first position is
   * part of the key.
   */
  function KeyEnd(seg: seq<char>): (n: nat)
    ensures n <= |seg|
    ensures n < |seg| ==> 1 <= n && seg[n] == '='
    decreases |seg|
  {
    if |seg| <= 1 then |seg|
    else
      var e := KeyEnd(seg[..|seg| - 1]);
      if e < |seg| - 1 then e
      else if seg[|seg| - 1] == '=' then |seg| - 1
      else |seg|
  }

  /** No '=' after the first character comes before the key's end. */
  lemma {:induction false} KeyEndIsFirst(seg: seq<char>)
    ensures forall m :: 1 <= m < KeyEnd(seg) ==> seg[m] != '='
    decreases |seg|
  {
    if |seg| > 1 {
      var pre := seg[..|seg| - 1];
      KeyEndIsFirst(pre);
      forall m | 1 <= m < KeyEnd(seg)
        ensures seg[m] != '='
      {
        if m < |pre| {
          assert seg[m] == pre[m];
        }
      }
    }
  }

  function Key(seg: seq<char>): seq<char> {
    seg[..KeyEnd(seg)]
  }

  /** The value after the key's '=', pushed only when it is not empty. */
  function Value(seg: seq<char>): (vs: Values)
    ensures |vs| <= 1
  {
    var e := KeyEnd(seg);
    if e + 1 < |seg| then [seg[e + 1..]] else []
  }

  /** Each non-empty segment pushes its value (if any) under its key; empty segments are skipped. */
  function Collect(m: Dictionary, segs: seq<seq<char>>): Dictionary
    decreases |segs|
  {
    if |segs| == 0 then m
    else
      var d := Collect(m, segs[..|segs| - 1]);
      var seg := segs[|segs| - 1];
      if |seg| == 0 then d else Append(d, Key(seg), Value(seg))
  }

  /** What `QueryParameters::parse(s)` leaves in a map that held `m`. */
  function QueryInto(m: Dictionary, s: seq<char>): Dictionary {
    Collect(m, Fields(s, '&'))
  }

  /** A segment `key=value` with a key free of '=' and a non-empty value. */
  lemma {:induction false} SegmentOfPair(k: seq<char>, v: seq<char>)
    requires |k| > 0 && Lacks(k, '=') && |v| > 0
    ensures Key(k + ['='] + v) == k && Value(k + ['='] + v) == [v]
  {
    var seg := k + ['='] + v;
    KeyEndIsFirst(seg);
    assert seg[|k|] == '=';
    assert seg[..|k|] == k && seg[|k| + 1..] == v;
  }

  /** A segment with no '=' after its first character is all key and pushes no value. */
  lemma {:induction false} SegmentWithoutValue(seg: seq<char>)
    requires forall m :: 1 <= m < |seg| ==> seg[m] != '='
    ensures Key(seg) == seg && Value(seg) == []
  {
  }

  /** So is a key followed by a bare '=': the empty value is not pushed. */
  lemma {:induction false} SegmentWithEmptyValue(k: seq<char>)
    requires |k| > 0 && Lacks(k, '=')
    ensures Key(k + ['=']) == k && Value(k + ['=']) == []
  {
    var seg := k + ['='];
    assert seg[..|k|] == k;
  }

  lemma {:induction false} CollectConcat(m: Dictionary, a: seq<seq<char>>, b: seq<seq<char>>)
    ensures Collect(m, a + b) == Collect(Collect(m, a), b)
    decreases |b|
  {
    if |b| == 0 {
      assert a + b == a;
    } else {
      assert (a + b)[..|a + b| - 1] == a + b[..|b| - 1];
      CollectConcat(m, a, b[..|b| - 1]);
    }
  }

  /** Parsing `x&y` is parsing `x`, then parsing `y` into the result. */
  lemma {:induction false} QuerySplits(m: Dictionary, x: seq<char>, y: seq<char>)
    ensures QueryInto(m, x + ['&'] + y) == QueryInto(QueryInto(m, x), y)
  {
    FieldsConcat(x, y, '&');
    CollectConcat(m, Fields(x, '&'), Fields(y, '&'));
  }

  lemma {:induction false} QueryOfNothing(m: Dictionary)
    ensures QueryInto(m, []) == m
  {
    var none: seq<seq<char>> := [];
    assert Fields([], '&')[..0] == none;
  }

  /** Empty segments change nothing: a leading '&' and a doubled "&&" are skipped. */
  lemma {:induction false} QuerySkipsEmptySegments(m: Dictionary, x: seq<char>, y: seq<char>)
    ensures QueryInto(m, ['&'] + y) == QueryInto(m, y)
    ensures QueryInto(m, x + ['&', '&'] + y) == QueryInto(QueryInto(m, x), y)
  {
    assert ['&'] + y == [] + ['&'] + y;
    QueryOfNothing(m);
    QueryOfNothing(QueryInto(m, x));
    QuerySplits(m, [], y);
    assert x + ['&', '&'] + y == x + ['&'] + (['&'] + y);
    QuerySplits(m, x, ['&'] + y);
    QuerySplits(QueryInto(m, x), [], y);
  }

  /** The segments `key=value` of a list of pairs. */
  function Segments(pairs: seq<(seq<char>, seq<char>)>): (segs: seq<seq<char>>)
    ensures |segs| == |pairs|
    ensures forall x :: 0 <= x < |pairs| ==> segs[x] == pairs[x].0 + ['='] + pairs[x].1
    decreases |pairs|
  {
    if |pairs| == 0 then []
    else
      var last := pairs[|pairs| - 1];
      Segments(pairs[..|pairs| - 1]) + [last.0 + ['='] + last.1]
  }

  /** `k1=v1&k2=v2&...`, the form of the query component of section 3.4 of RFC 3986 that HTML forms produce. */
  function QueryString(pairs: seq<(seq<char>, seq<char>)>): seq<char>
    requires |pairs| > 0
  {
    Join(Segments(pairs), ['&'])
  }

  /** Keys non-empty and free of '=' and '&', values non-empty and free of '&'. */
  predicate QueryPairs(pairs: seq<(seq<char>, seq<char>)>) {
    forall x :: 0 <= x < |pairs| ==>
      |pairs[x].0| > 0 && Lacks(pairs[x].0, '=') && Lacks(pairs[x].0, '&')
      && |pairs[x].1| > 0 && Lacks(pairs[x].1, '&')
  }

  lemma {:induction false} CollectSegments(m: Dictionary, pairs: seq<(seq<char>, seq<char>)>)
    requires QueryPairs(pairs)
    ensures Collect(m, Segments(pairs)) == PairsInto(m, pairs)
    decreases |pairs|
  {
    if |pairs| > 0 {
      var last := pairs[|pairs| - 1];
      var segs := Segments(pairs);
      assert segs[..|segs| - 1] == Segments(pairs[..|pairs| - 1]);
      CollectSegments(m, pairs[..|pairs| - 1]);
      SegmentOfPair(last.0, last.1);
    }
  }

  /** A well-formed query string parses to exactly its pairs. */
  lemma {:induction false} QueryRoundTrip(m: Dictionary, pairs: seq<(seq<char>, seq<char>)>)
    requires |pairs| > 0 && QueryPairs(pairs)
    ensures QueryInto(m, QueryString(pairs)) == PairsInto(m, pairs)
  {
    var segs := Segments(pairs);
    forall x | 0 <= x < |segs| ensures Lacks(segs[x], '&') {
      assert segs[x] == pairs[x].0 + ['='] + pairs[x].1;
    }
    FieldsOfJoin(segs, '&');
    CollectSegments(m, pairs);
  }

  /**
   * The key state `parse` keeps in `j` for the open segment `s[i..k]`: past
   * `i` exactly when a '=' after the segment's first character was seen,
   * and then at the first such '='.
   */
  ghost predicate KeyState(s: seq<char>, i: nat, j: nat, k: nat)
    requires i <= k <= |s|
  {
    (i < j ==> j < k && s[j] == '=' && forall x :: i < x < j ==> s[x] != '=')
    && (j <= i ==> forall x :: i < x < k ==> s[x] != '=')
  }

  /** `KeyEnd` is the first '=' after the first character, or the end. */
  lemma {:induction false} KeyEndAt(seg: seq<char>, n: nat)
    requires n <= |seg| && (n < |seg| ==> 1 <= n && seg[n] == '=')
    requires forall x :: 1 <= x < n ==> seg[x] != '='
    ensures KeyEnd(seg) == n
    decreases |seg|
  {
    if |seg| > 1 {
      var pre := seg[..|seg| - 1];
      if n < |pre| {
        KeyEndAt(pre, n);
      } else {
        KeyEndAt(pre, |pre|);
      }
    }
  }

  /** `push(i, j, k)` pushes exactly the key and value of the segment `s[i..k]`. */
  lemma {:induction false} PushIsSegment(s: seq<char>, i: nat, j: nat, k: nat)
    requires i < k <= |s| && j <= k && KeyState(s, i, j, k)
    ensures var j' := if j <= i then k else j;
      i <= j' <= k
      && s[i..j'] == Key(s[i..k])
      && (if j' + 1 < k then [s[j' + 1..k]] else []) == Value(s[i..k])
  {
    var seg := s[i..k];
    if i < j {
      KeyEndAt(seg, j - i);
      assert seg[..j - i] == s[i..j];
      assert seg[j - i + 1..] == s[j + 1..k];
    } else {
      KeyEndAt(seg, k - i);
      assert seg[..k - i] == seg;
    }
  }

  lemma {:induction false} KeyStateAdvances(s: seq<char>, i: nat, j: nat, k: nat)
    requires i <= k < |s| && j <= k && KeyState(s, i, j, k)
    ensures KeyState(s, i, if s[k] == '=' && j <= i then k else j, k + 1)
  {
  }

  /** The pointers and the dictionary of `QueryParameters::parse` after some characters. */
  datatype QueryCursor = QueryCursor(i: nat, j: nat, entries: Dictionary)

  /** `push(i, j, k)` on a cursor: the key ends at `j`, or at `k` when no '=' was seen. */
  function Pushed(s: seq<char>, c: QueryCursor, k: nat): (r: QueryCursor)
    requires c.i <= k <= |s| && c.j <= k
    ensures r.i == c.i && r.j <= k
  {
    var j := if c.j <= c.i then k else c.j;
    QueryCursor(c.i, j, Append(c.entries, s[c.i..j], if j + 1 < k then [s[j + 1..k]] else []))
  }

  /** What `push(i, j, k)` does to the dictionary is collecting the segment `s[i..k]`. */
  lemma {:induction false} PushCollects(s: seq<char>, c: QueryCursor, k: nat)
    requires c.i < k <= |s| && c.j <= k && KeyState(s, c.i, c.j, k)
    ensures Pushed(s, c, k).entries == Collected(c.entries, s[c.i..k])
  {
    PushIsSegment(s, c.i, c.j, k);
  }

  /** One character of `QueryParameters::parse`. */
  function QueryAdvance(s: seq<char>, k: nat, c: QueryCursor): (r: QueryCursor)
    requires k < |s| && c.i <= k && c.j <= k
    ensures r.i <= k + 1 && r.j <= k + 1
  {
    if s[k] == '&' then
      var d := if c.i < k then Pushed(s, c, k) else c;
      QueryCursor(k + 1, d.j, d.entries)
    else if s[k] == '=' && c.j <= c.i then QueryCursor(c.i, k, c.entries)
    else c
  }

  /** The cursor after the first `k` characters. */
  function QueryScan(m: Dictionary, s: seq<char>, k: nat): (r: QueryCursor)
    requires k <= |s|
    ensures r.i <= k && r.j <= k
  {
    if k == 0 then QueryCursor(0, 0, m) else QueryAdvance(s, k - 1, QueryScan(m, s, k - 1))
  }

  /** The scan keeps the loop's invariant: the segments before `i` are collected, the key state is right. */
  lemma {:induction false} QueryScanKeepsLoop(m: Dictionary, s: seq<char>, k: nat)
    requires k <= |s|
    ensures QueryLoop(m, s, QueryScan(m, s, k).i, QueryScan(m, s, k).j, k, QueryScan(m, s, k).entries)
  {
    if k == 0 {
      QueryLoopStarts(m, s);
    } else {
      var c := QueryScan(m, s, k - 1);
      assert QueryScan(m, s, k) == QueryAdvance(s, k - 1, c);
      QueryScanKeepsLoop(m, s, k - 1);
      QueryAdvanceKeepsLoop(m, s, k - 1, c);
    }
  }

  /** One character keeps the loop's invariant. */
  lemma {:induction false} QueryAdvanceKeepsLoop(m: Dictionary, s: seq<char>, k: nat, c: QueryCursor)
    requires k < |s| && QueryLoop(m, s, c.i, c.j, k, c.entries)
    ensures var d := QueryAdvance(s, k, c); QueryLoop(m, s, d.i, d.j, k + 1, d.entries)
  {
    if s[k] != '&' {
      QueryAtOther(m, s, c.i, c.j, k, c.entries);
    } else if c.i < k {
      QueryPushKeepsLoop(m, s, k, c);
    } else {
      QueryAtSeparator(m, s, c.i, c.j, k, c.entries, c.j);
    }
  }

  /** A '&' after a non-empty segment: `push` collects it. */
  lemma {:induction false} QueryPushKeepsLoop(m: Dictionary, s: seq<char>, k: nat, c: QueryCursor)
    requires k < |s| && s[k] == '&' && c.i < k && QueryLoop(m, s, c.i, c.j, k, c.entries)
    ensures var d := Pushed(s, c, k); QueryLoop(m, s, k + 1, d.j, k + 1, d.entries)
  {
    PushCollects(s, c, k);
    QueryAtSeparator(m, s, c.i, c.j, k, c.entries, Pushed(s, c, k).j);
  }

  /** The loop and the final `push` of `QueryParameters::parse`, applied to `m`. */
  function QueryParse(m: Dictionary, s: seq<char>): Dictionary {
    var c := QueryScan(m, s, |s|);
    if c.i < |s| then Pushed(s, c, |s|).entries else c.entries
  }

  /** The parser collects exactly the '&'-separated segments: it computes `QueryInto`. */
  lemma {:induction false} QueryParseCollects(m: Dictionary, s: seq<char>)
    ensures QueryParse(m, s) == QueryInto(m, s)
  {
    QueryScanKeepsLoop(m, s, |s|);
    QueryFinishes(m, s, QueryScan(m, s, |s|));
  }

  /** At the end of the string, the final `push` collects the last segment. */
  lemma {:induction false} QueryFinishes(m: Dictionary, s: seq<char>, c: QueryCursor)
    requires QueryLoop(m, s, c.i, c.j, |s|, c.entries)
    ensures QueryInto(m, s) == if c.i < |s| then Pushed(s, c, |s|).entries else c.entries
  {
    QueryAtEnd(m, s, c.i, c.j, c.entries);
    if c.i < |s| {
      PushCollects(s, c, |s|);
    }
  }

  /** What the parse loop of `QueryParameters::parse` keeps after `k` characters. */
  ghost predicate QueryLoop(m: Dictionary, s: seq<char>, i: nat, j: nat, k: nat, e: Dictionary) {
    i <= k <= |s| && j <= k && KeyState(s, i, j, k)
    && var fs := Fields(s[..k], '&');
       fs[|fs| - 1] == s[i..k] && e == Collect(m, fs[..|fs| - 1])
  }

  /** The dictionary after a segment is collected. */
  function Collected(e: Dictionary, seg: seq<char>): Dictionary {
    if |seg| == 0 then e else Append(e, Key(seg), Value(seg))
  }

  lemma {:induction false} QueryLoopStarts(m: Dictionary, s: seq<char>)
    ensures QueryLoop(m, s, 0, 0, 0, m)
  {
    assert s[..0] == [] && s[0..0] == [];
    var none: seq<seq<char>> := [];
    assert Fields([], '&')[..0] == none;
  }

  lemma {:induction false} QueryAtSeparator(m: Dictionary, s: seq<char>, i: nat, j: nat, k: nat, e: Dictionary, j': nat)
    requires QueryLoop(m, s, i, j, k, e) && k < |s| && s[k] == '&' && j' <= k
    ensures QueryLoop(m, s, k + 1, j', k + 1, Collected(e, s[i..k]))
  {
    FieldsAdvance(s, k, '&');
    var fs := Fields(s[..k], '&');
    assert (fs + [[]])[..|fs|] == fs;
    assert fs == fs[..|fs| - 1] + [fs[|fs| - 1]];
    assert s[k + 1..k + 1] == [];
  }

  lemma {:induction false} QueryAtOther(m: Dictionary, s: seq<char>, i: nat, j: nat, k: nat, e: Dictionary)
    requires QueryLoop(m, s, i, j, k, e) && k < |s| && s[k] != '&'
    ensures QueryLoop(m, s, i, if s[k] == '=' && j <= i then k else j, k + 1, e)
  {
    KeyStateAdvances(s, i, j, k);
    FieldsGrowLast(s, i, k, '&');
  }

  /** A character other than the separator extends the last field. */
  lemma {:induction false} FieldsGrowLast(s: seq<char>, i: nat, k: nat, sep: char)
    requires i <= k < |s| && s[k] != sep
    requires var fs := Fields(s[..k], sep); fs[|fs| - 1] == s[i..k]
    ensures var fs, fs' := Fields(s[..k], sep), Fields(s[..k + 1], sep);
      fs'[|fs'| - 1] == s[i..k + 1] && fs'[..|fs'| - 1] == fs[..|fs| - 1]
  {
    FieldsAdvance(s, k, sep);
    var fs := Fields(s[..k], sep);
    var fs' := fs[..|fs| - 1] + [fs[|fs| - 1] + [s[k]]];
    assert fs'[..|fs'| - 1] == fs[..|fs| - 1];
    assert s[i..k + 1] == s[i..k] + [s[k]];
  }

  lemma {:induction false} QueryAtEnd(m: Dictionary, s: seq<char>, i: nat, j: nat, e: Dictionary)
    requires QueryLoop(m, s, i, j, |s|, e)
    ensures QueryInto(m, s) == Collected(e, s[i..|s|])
  {
    var fs := Fields(s, '&');
    assert s[..|s|] == s;
    assert fs == fs[..|fs| - 1] + [fs[|fs| - 1]];
    assert fs[..|fs|][..|fs| - 1] == fs[..|fs| - 1];
  }

  lemma {:induction false} FieldsAdvance(s: seq<char>, k: nat, sep: char)
    requires k < |s|
    ensures var fs := Fields(s[..k], sep);
      Fields(s[..k + 1], sep) ==
        if s[k] == sep then fs + [[]] else fs[..|fs| - 1] + [fs[|fs| - 1] + [s[k]]]
  {
    assert s[..k + 1][..k] == s[..k];
  }

  // ---------------------------------------------------------------------
  // Cookie strings (`Cookies`).
  // ---------------------------------------------------------------------

  /**
   * The cookie parser's pointers after a prefix: the name starts at `i`,
   * `j` is at the name's '=' once one was seen (or at or before `i`
   * otherwise), and `skip` is set after a ';' until a non-space.
   */
  datatype Cursor = Cursor(i: nat, j: nat, skip: bool, entries: Dictionary)

  /** The cursor's positions make sense after `k` characters. */
  ghost predicate Placed(s: seq<char>, c: Cursor, k: nat) {
    k <= |s| && c.i <= k && c.j <= k && (c.i < c.j ==> c.j < k && s[c.j] == '=')
  }

  /**
   * One character of `Cookies::parse`. None is a failed assertion: a ';'
   * whose name would have negative length (no '=' since the name started)
   * or whose value would (a ';' before anything else).
   */
  function Advance(s: seq<char>, k: nat, c: Cursor): (r: Option<Cursor>)
    requires k < |s| && Placed(s, c, k)
    ensures r.Some? ==> Placed(s, r.value, k + 1)
    ensures r.None? <==> s[k] == ';' && !(c.skip && s[k] == ' ')
                         && (c.j < (if c.skip then k else c.i) || c.j == k)
  {
    if c.skip && s[k] == ' ' then Some(c)
    else
      var i := if c.skip then k else c.i;
      if s[k] == '=' then Some(Cursor(i, if c.j <= i then k else c.j, false, c.entries))
      else if s[k] == ';' then
        if c.j < i || c.j == k then None
        else Some(Cursor(i, c.j, true, Append(c.entries, s[i..c.j], [s[c.j + 1..k]])))
      else Some(Cursor(i, c.j, false, c.entries))
  }

  /** The parser's state after the first `k` characters, or None once an assertion failed. */
  function Scan(m: Dictionary, s: seq<char>, k: nat): (r: Option<Cursor>)
    requires k <= |s|
    ensures r.Some? ==> Placed(s, r.value, k)
    decreases k
  {
    if k == 0 then Some(Cursor(0, 0, false, m))
    else
      match Scan(m, s, k - 1)
      case None => None
      case Some(c) => Advance(s, k - 1, c)
  }

  /** One more character of a scan that has not failed is one `Advance`. */
  lemma {:induction false} ScanStep(m: Dictionary, s: seq<char>, k: nat, c: Cursor)
    requires k < |s| && Scan(m, s, k) == Some(c)
    ensures Scan(m, s, k + 1) == Advance(s, k, c)
  {
  }

  /** A failed assertion ends the parse: no later prefix scans. */
  lemma {:induction false} ScanStaysFailed(m: Dictionary, s: seq<char>, k: nat, n: nat)
    requires k <= n <= |s| && Scan(m, s, k).None?
    ensures Scan(m, s, n).None?
    decreases n - k
  {
    if k < n {
      ScanStaysFailed(m, s, k + 1, n);
    }
  }

  /** After the loop: a pending `name=` pushes the rest of the input as its value. */
  function Finish(s: seq<char>, c: Cursor): Dictionary
    requires Placed(s, c, |s|)
  {
    if c.i < c.j then Append(c.entries, s[c.i..c.j], [s[c.j + 1..]]) else c.entries
  }

  /** What `Cookies::parse(s)` leaves in a map that held `m`, or None if it fails an assertion. */
  function CookiesInto(m: Dictionary, s: seq<char>): Option<Dictionary> {
    match Scan(m, s, |s|)
    case None => None
    case Some(c) => Some(Finish(s, c))
  }

  /** A failed assertion at any point fails the whole parse. */
  lemma {:induction false} CookiesFail(m: Dictionary, s: seq<char>, k: nat)
    requires k <= |s| && Scan(m, s, k).None?
    ensures CookiesInto(m, s).None?
  {
    ScanStaysFailed(m, s, k, |s|);
  }

  /** A scan that reaches the end finishes with the last pair. */
  lemma {:induction false} CookiesFinish(m: Dictionary, s: seq<char>, c: Cursor)
    requires Scan(m, s, |s|) == Some(c)
    ensures CookiesInto(m, s) == Some(Finish(s, c))
    ensures Finish(s, c) == if c.i < c.j then Append(c.entries, s[c.i..c.j], [s[c.j + 1..|s|]]) else c.entries
  {
    if c.i < c.j {
      assert s[c.j + 1..|s|] == s[c.j + 1..];
    }
  }

  /** `n1=v1; n2=v2; ...`, the cookie-string of section 4.2.1 of RFC 6265. */
  function CookieString(pairs: seq<(seq<char>, seq<char>)>): seq<char>
    requires |pairs| > 0
    decreases |pairs|
  {
    var last := pairs[|pairs| - 1];
    var pair := last.0 + ['='] + last.1;
    if |pairs| == 1 then pair else CookieString(pairs[..|pairs| - 1]) + [';', ' '] + pair
  }

  /**
   * Names non-empty, not starting with a space and free of '=' and ';';
   * values free of ';' (they may be empty and may hold '=').
   */
  predicate CookiePairs(pairs: seq<(seq<char>, seq<char>)>) {
    forall x :: 0 <= x < |pairs| ==>
      |pairs[x].0| > 0 && pairs[x].0[0] != ' ' && Lacks(pairs[x].0, '=') && Lacks(pairs[x].0, ';')
      && Lacks(pairs[x].1, ';')
  }

  /** Scanning a prefix of `s + t` does not look at `t`. */
  lemma {:induction false} ScanPrefix(m: Dictionary, s: seq<char>, t: seq<char>, k: nat)
    requires k <= |s|
    ensures Scan(m, s + t, k) == Scan(m, s, k)
  {
    assert (s + t)[..k] == s[..k];
    ScanLocal(m, s, s + t, k);
  }

  /** The scan of the first `k` characters depends on those characters only. */
  lemma {:induction false} ScanLocal(m: Dictionary, s: seq<char>, u: seq<char>, k: nat)
    requires k <= |s| && k <= |u| && s[..k] == u[..k]
    ensures Scan(m, u, k) == Scan(m, s, k)
    decreases k
  {
    if k > 0 {
      assert s[..k - 1] == s[..k][..k - 1] && u[..k - 1] == u[..k][..k - 1];
      ScanLocal(m, s, u, k - 1);
      match Scan(m, s, k - 1)
      case None =>
      case Some(c) => AdvanceLocal(s, u, k - 1, c);
    }
  }

  /** One step of the scan depends on the characters up to the current one only. */
  lemma {:induction false} AdvanceLocal(s: seq<char>, u: seq<char>, k: nat, c: Cursor)
    requires k < |s| && k < |u| && s[..k + 1] == u[..k + 1] && Placed(s, c, k)
    ensures Placed(u, c, k) && Advance(u, k, c) == Advance(s, k, c)
  {
    forall x | 0 <= x <= k ensures s[x] == u[x] {
      assert s[x] == s[..k + 1][x] && u[x] == u[..k + 1][x];
    }
    var i := if c.skip then k else c.i;
    if i <= c.j {
      assert s[i..c.j] == u[i..c.j];
    }
    if c.j + 1 <= k {
      assert s[c.j + 1..k] == u[c.j + 1..k];
    }
  }

  /** Characters other than ';' (and '=' only once the name's '=' was seen) leave a settled cursor alone. */
  lemma {:induction false} ScanRun(m: Dictionary, s: seq<char>, a: nat, b: nat, c: Cursor)
    requires a <= b <= |s| && Scan(m, s, a) == Some(c) && !c.skip
    requires forall x :: a <= x < b ==> s[x] != ';' && (s[x] == '=' ==> c.i < c.j)
    ensures Scan(m, s, b) == Some(c)
    decreases b
  {
    if a < b {
      ScanRun(m, s, a, b - 1, c);
    }
  }

  /** The name of a pair after `pos` and its '=', read from a cursor before the name. */
  lemma ScanName(m: Dictionary, s: seq<char>, pos: nat, n: seq<char>, c: Cursor)
    requires pos + |n| < |s| && |n| > 0 && n[0] != ' '
    requires s[pos..pos + |n|] == n && s[pos + |n|] == '='
    requires Lacks(n, '=') && Lacks(n, ';')
    requires Scan(m, s, pos) == Some(c) && c.j <= pos
    requires c.skip || (c.i == pos && c.j == pos)
    ensures Scan(m, s, pos + |n| + 1) == Some(Cursor(pos, pos + |n|, false, c.entries))
  {
    var c1 := Cursor(pos, c.j, false, c.entries);
    assert s[pos] == s[pos..pos + |n|][0];
    assert Scan(m, s, pos + 1) == Some(c1);
    forall x | pos + 1 <= x < pos + |n|
      ensures s[x] != ';' && s[x] != '='
    {
      assert s[x] == s[pos..pos + |n|][x - pos];
    }
    ScanRun(m, s, pos + 1, pos + |n|, c1);
  }

  /** The name and value of a pair after `pos`, read from a cursor before the name. */
  lemma ScanPair(m: Dictionary, s: seq<char>, pos: nat, n: seq<char>, v: seq<char>, c: Cursor)
    requires pos + |n| + 1 + |v| == |s| && |n| > 0 && n[0] != ' '
    requires s[pos..pos + |n|] == n && s[pos + |n|] == '=' && s[pos + |n| + 1..] == v
    requires Lacks(n, '=') && Lacks(n, ';') && Lacks(v, ';')
    requires Scan(m, s, pos) == Some(c) && c.j <= pos
    requires c.skip || (c.i == pos && c.j == pos)
    ensures Scan(m, s, |s|) == Some(Cursor(pos, pos + |n|, false, c.entries))
  {
    ScanName(m, s, pos, n, c);
    var c2 := Cursor(pos, pos + |n|, false, c.entries);
    forall x | pos + |n| + 1 <= x < |s|
      ensures s[x] != ';'
    {
      assert s[x] == v[x - pos - |n| - 1];
    }
    ScanRun(m, s, pos + |n| + 1, |s|, c2);
  }

  /** After `s` the pair `pair` is open: its name read up to the '=', its value the rest of `s`. */
  ghost predicate OpenAtEnd(m: Dictionary, s: seq<char>, c: Cursor, pair: (seq<char>, seq<char>)) {
    Scan(m, s, |s|) == Some(c) && !c.skip && c.i < c.j < |s| && s[c.i..c.j] == pair.0 && s[c.j + 1..] == pair.1
  }

  /**
   * After a well-formed cookie string the last pair is still open, with
   * every earlier pair pushed.
   */
  lemma {:induction false} ScanCookieString(m: Dictionary, pairs: seq<(seq<char>, seq<char>)>) returns (c: Cursor)
    requires |pairs| > 0 && CookiePairs(pairs)
    ensures OpenAtEnd(m, CookieString(pairs), c, pairs[|pairs| - 1])
    ensures c.entries == PairsInto(m, pairs[..|pairs| - 1])
    decreases |pairs|
  {
    var pre := pairs[..|pairs| - 1];
    if |pairs| == 1 {
      c := ScanOnePair(m, pairs);
    } else {
      assert CookiePairs(pre) by {
        forall x | 0 <= x < |pre| ensures pre[x] == pairs[x] { }
      }
      var c0 := ScanCookieString(m, pre);
      assert pre[..|pre| - 1] == pairs[..|pairs| - 2] && pre[|pre| - 1] == pairs[|pairs| - 2];
      c := ScanCookieStringStep(m, pairs, c0);
    }
  }

  lemma {:induction false} ScanOnePair(m: Dictionary, pairs: seq<(seq<char>, seq<char>)>) returns (c: Cursor)
    requires |pairs| == 1 && CookiePairs(pairs)
    ensures OpenAtEnd(m, CookieString(pairs), c, pairs[0]) && c.entries == m
  {
    var s := CookieString(pairs);
    var last := pairs[0];
    assert s[0..|last.0|] == last.0 && s[|last.0|] == '=' && s[|last.0| + 1..] == last.1;
    ScanPair(m, s, 0, last.0, last.1, Cursor(0, 0, false, m));
    c := Cursor(0, |last.0|, false, m);
    assert s[c.i..c.j] == last.0 && s[c.j + 1..] == last.1;
  }

  /** The inductive step of `ScanCookieString`, from its statement for all but the last pair. */
  lemma {:induction false} ScanCookieStringStep(m: Dictionary, pairs: seq<(seq<char>, seq<char>)>, c0: Cursor) returns (c: Cursor)
    requires |pairs| > 1 && CookiePairs(pairs)
    requires OpenAtEnd(m, CookieString(pairs[..|pairs| - 1]), c0, pairs[|pairs| - 2])
    requires c0.entries == PairsInto(m, pairs[..|pairs| - 2])
    ensures OpenAtEnd(m, CookieString(pairs), c, pairs[|pairs| - 1])
    ensures c.entries == PairsInto(m, pairs[..|pairs| - 1])
  {
    var pre := pairs[..|pairs| - 1];
    var ps := CookieString(pre);
    var last := pairs[|pairs| - 1];
    LastPairAppended(pairs);
    Separated(ps, last.0, last.1);
    c := OpenNext(m, ps, CookieString(pairs), c0, pairs[|pairs| - 2], last.0, last.1);
    assert pre[..|pre| - 1] == pairs[..|pairs| - 2] && pre[|pre| - 1] == pairs[|pairs| - 2];
  }

  /** From one open pair, through "; name=value", to the next: the first is pushed. */
  lemma {:induction false} OpenNext(m: Dictionary, ps: seq<char>, s: seq<char>, c0: Cursor,
                                    prev: (seq<char>, seq<char>), n: seq<char>, v: seq<char>) returns (c: Cursor)
    requires OpenAtEnd(m, ps, c0, prev)
    requires |n| > 0 && n[0] != ' ' && Lacks(n, '=') && Lacks(n, ';') && Lacks(v, ';')
    requires SeparatedAt(ps, s, n, v)
    ensures OpenAtEnd(m, s, c, (n, v)) && c.entries == Append(c0.entries, prev.0, [prev.1])
  {
    ScanExtend(m, ps, s, c0, n, v);
    c := Cursor(|ps| + 2, |ps| + 2 + |n|, false, Append(c0.entries, ps[c0.i..c0.j], [ps[c0.j + 1..]]));
  }

  /** A cookie string is the one before it, "; " and the last pair, which is well-formed. */
  lemma {:induction false} LastPairAppended(pairs: seq<(seq<char>, seq<char>)>)
    requires |pairs| > 1 && CookiePairs(pairs)
    ensures var last := pairs[|pairs| - 1];
      CookieString(pairs) == CookieString(pairs[..|pairs| - 1]) + [';', ' '] + last.0 + ['='] + last.1
      && |last.0| > 0 && last.0[0] != ' ' && Lacks(last.0, '=') && Lacks(last.0, ';') && Lacks(last.1, ';')
  {
  }

  /** Scanning on through "; name=value" after a scanned string with a pair open. */
  lemma {:induction false} ScanExtend(m: Dictionary, ps: seq<char>, s: seq<char>, c: Cursor, n: seq<char>, v: seq<char>)
    requires Scan(m, ps, |ps|) == Some(c) && !c.skip && c.i < c.j
    requires |n| > 0 && n[0] != ' ' && Lacks(n, '=') && Lacks(n, ';') && Lacks(v, ';')
    requires SeparatedAt(ps, s, n, v)
    ensures Scan(m, s, |s|) == Some(Cursor(|ps| + 2, |ps| + 2 + |n|, false,
                                           Append(c.entries, ps[c.i..c.j], [ps[c.j + 1..]])))
  {
    ScanThroughSeparator(m, ps, s, c);
    ScanPair(m, s, |ps| + 2, n, v, Cursor(c.i, c.j, true, Append(c.entries, ps[c.i..c.j], [ps[c.j + 1..]])));
  }

  /** `s` is `ps`, "; ", `n`, '=' and `v`, told position by position. */
  predicate SeparatedAt(ps: seq<char>, s: seq<char>, n: seq<char>, v: seq<char>) {
    |s| == |ps| + 2 + |n| + 1 + |v| && s[..|ps|] == ps && s[|ps|] == ';' && s[|ps| + 1] == ' '
    && s[|ps| + 2..|ps| + 2 + |n|] == n && s[|ps| + 2 + |n|] == '=' && s[|ps| + 2 + |n| + 1..] == v
  }

  lemma {:induction false} Separated(ps: seq<char>, n: seq<char>, v: seq<char>)
    ensures SeparatedAt(ps, ps + [';', ' '] + n + ['='] + v, n, v)
  {
  }

  /** A scanned string with a pair open, then "; ": the pair is pushed. */
  lemma {:induction false} ScanThroughSeparator(m: Dictionary, ps: seq<char>, s: seq<char>, c: Cursor)
    requires Scan(m, ps, |ps|) == Some(c) && !c.skip && c.i < c.j
    requires |ps| + 2 <= |s| && s[..|ps|] == ps && s[|ps|] == ';' && s[|ps| + 1] == ' '
    ensures Scan(m, s, |ps| + 2) == Some(Cursor(c.i, c.j, true, Append(c.entries, ps[c.i..c.j], [ps[c.j + 1..]])))
  {
    assert ps[..|ps|] == ps;
    ScanLocal(m, ps, s, |ps|);
    ScanSeparator(m, s, |ps|, c);
    SliceOfPrefix(s, ps, c.i, c.j);
    SliceOfPrefix(s, ps, c.j + 1, |ps|);
    assert ps[c.j + 1..|ps|] == ps[c.j + 1..];
  }

  /** Positions inside a prefix read the same in the whole string. */
  lemma {:induction false} SliceOfPrefix(s: seq<char>, ps: seq<char>, a: nat, b: nat)
    requires a <= b <= |ps| <= |s| && s[..|ps|] == ps
    ensures s[a..b] == ps[a..b]
  {
    assert forall x :: a <= x < b ==> s[x] == s[..|ps|][x];
  }

  /** The "; " between two pairs pushes the pair before it and waits for the next name. */
  lemma {:induction false} ScanSeparator(m: Dictionary, s: seq<char>, pos: nat, c: Cursor)
    requires pos + 2 <= |s| && s[pos] == ';' && s[pos + 1] == ' '
    requires Scan(m, s, pos) == Some(c) && !c.skip && c.i < c.j
    ensures Scan(m, s, pos + 2) == Some(Cursor(c.i, c.j, true, Append(c.entries, s[c.i..c.j], [s[c.j + 1..pos]])))
  {
  }

  /** A well-formed cookie string parses to exactly its pairs: each name maps to its values in order. */
  lemma {:induction false} CookieRoundTrip(m: Dictionary, pairs: seq<(seq<char>, seq<char>)>)
    requires |pairs| > 0 && CookiePairs(pairs)
    ensures CookiesInto(m, CookieString(pairs)) == Some(PairsInto(m, pairs))
  {
    var last := pairs[|pairs| - 1];
    var c := ScanCookieString(m, pairs);
    FinishOpen(m, CookieString(pairs), c, last.0, last.1);
  }

  lemma {:induction false} FinishOpen(m: Dictionary, s: seq<char>, c: Cursor, n: seq<char>, v: seq<char>)
    requires Scan(m, s, |s|) == Some(c) && c.i < c.j && c.j < |s|
    requires s[c.i..c.j] == n && s[c.j + 1..] == v
    ensures CookiesInto(m, s) == Some(Append(c.entries, n, [v]))
  {
  }

  /** As written, a trailing ';' pushes the last value twice, the second time with the ';'. */
  lemma {:induction false} TrailingSemicolonRepeatsValue()
    ensures CookiesInto(map[], "a=b;") == Some(map["a" := ["b", "b;"]])
  {
    var s := "a=b;";
    var empty: Dictionary := map[];
    assert Scan(empty, s, 1) == Some(Cursor(0, 0, false, empty));
    assert Scan(empty, s, 2) == Some(Cursor(0, 1, false, empty));
    assert Scan(empty, s, 3) == Some(Cursor(0, 1, false, empty));
    assert s[0..1] == "a" && s[2..3] == "b" && s[2..] == "b;";
    var one := Append(empty, "a", ["b"]);
    assert Scan(empty, s, 4) == Some(Cursor(0, 1, true, one));
    assert ValuesAt(empty, "a") + ["b"] == ["b"];
    assert one.Keys == {"a"} && one["a"] == ["b"];
    assert ["b"] + ["b;"] == ["b", "b;"];
    assert Append(one, "a", ["b;"]) == map["a" := ["b", "b;"]];
  }

  /** A lone ';', or a later segment without '=', fails an assertion. */
  lemma {:induction false} MalformedCookiesFail()
    ensures CookiesInto(map[], ";") == None
    ensures CookiesInto(map[], "a=b;c;") == None
  {
    var s := "a=b;c;";
    var empty: Dictionary := map[];
    assert Scan(empty, ";", 1) == None;
    assert Scan(empty, s, 1) == Some(Cursor(0, 0, false, empty));
    assert Scan(empty, s, 2) == Some(Cursor(0, 1, false, empty));
    assert Scan(empty, s, 3) == Some(Cursor(0, 1, false, empty));
    assert s[0..1] == "a" && s[2..3] == "b";
    var one := Append(empty, "a", ["b"]);
    assert Scan(empty, s, 4) == Some(Cursor(0, 1, true, one));
    assert Scan(empty, s, 5) == Some(Cursor(4, 1, false, one));
    assert Scan(empty, s, 6) == None;
  }

  // ---------------------------------------------------------------------
  // The two dictionaries.
  // ---------------------------------------------------------------------

  class QueryParameters {
    var entries: Dictionary

    /** `QueryParameters(void)`. */
    constructor Empty()
      ensures entries == map[]
    {
      entries := map[];
    }

    /** `QueryParameters(s)`: nothing for a NULL view, otherwise the parse of its text. */
    constructor (v: StringView)
      requires Valid(v) && (v.pointer.Some? ==> v.length > 0)
      ensures entries == if v.pointer.None? then map[] else QueryInto(map[], Str(v))
    {
      entries := map[];
      new;
      if v.pointer.Some? {
        Parse(Str(v));
        QueryParseCollects(map[], Str(v));
      }
    }

    /** `operator[]`: the key's values and true when it is present, NULL and false otherwise. */
    function Get(key: seq<char>): (r: Option<Values>)
      reads this
      ensures r.Some? <==> key in entries
      ensures r.Some? ==> r.value == entries[key]
    {
      if key in entries then Some(entries[key]) else None
    }

    /**
     * `push(i, j, k)`: the key ends at `j`, or at `k` when no '=' was seen;
     * the key is created and the value after '=' pushed when not empty.
     */
    method Push(s: seq<char>, i: nat, j: nat, k: nat) returns (j': nat)
      requires i <= k <= |s| && j <= k
      modifies this
      ensures QueryCursor(i, j', entries) == Pushed(s, QueryCursor(i, j, old(entries)), k)
    {
      j' := j;
      if j' <= i {
        j' := k;
      }
      var vs := if j' + 1 < k then [s[j' + 1..k]] else [];
      entries := Append(entries, s[i..j'], vs);
    }

    /** `parse(s)`: split on '&', key up to the first '=', empty segments skipped. */
    method Parse(s: seq<char>)
      modifies this
      ensures entries == QueryParse(old(entries), s)
    {
      ghost var m := entries;
      var i: nat, j: nat, k: nat := 0, 0, 0;
      while k < |s|
        invariant k <= |s|
        invariant QueryScan(m, s, k).i == i && QueryScan(m, s, k).j == j
        invariant QueryScan(m, s, k).entries == entries
      {
        ghost var c := QueryCursor(i, j, entries);
        assert QueryScan(m, s, k + 1) == QueryAdvance(s, k, c);
        if s[k] == '&' {
          if i < k {
            j := Push(s, i, j, k);
          }
          i := k + 1;
        } else if s[k] == '=' && j <= i {
          j := k;
        }
        k := k + 1;
      }
      if i < k {
        j := Push(s, i, j, k);
      }
    }
  }

  class Cookies {
    var entries: Dictionary
    /** Set when parsing failed an assertion, which ends the process. */
    var faulted: bool

    /** `Cookies(void)`. */
    constructor Empty()
      ensures entries == map[] && !faulted
    {
      entries := map[];
      faulted := false;
    }

    /** `Cookies(s)`: nothing for a NULL view, otherwise the parse of its text. */
    constructor (v: StringView)
      requires Valid(v) && (v.pointer.Some? ==> v.length > 0)
      ensures v.pointer.None? ==> entries == map[] && !faulted
      ensures v.pointer.Some? ==> faulted == CookiesInto(map[], Str(v)).None?
      ensures v.pointer.Some? && !faulted ==> entries == CookiesInto(map[], Str(v)).value
    {
      entries := map[];
      faulted := false;
      new;
      if v.pointer.Some? {
        Parse(Str(v));
      }
    }

    function Get(key: seq<char>): (r: Option<Values>)
      reads this
      ensures r.Some? <==> key in entries
      ensures r.Some? ==> r.value == entries[key]
    {
      if key in entries then Some(entries[key]) else None
    }

    /**
     * `map_[StringView(i, j - i)].push_back(StringView(j + 1, k - j - 1))`:
     * a negative length becomes a huge `size_t`, which fails the view
     * constructor's length assertion, and the map is then left as it was.
     */
    method PushPair(s: seq<char>, i: nat, j: nat, k: nat)
      requires !faulted && i <= k <= |s| && j <= k
      modifies this
      ensures faulted <==> j < i || j == k
      ensures faulted ==> entries == old(entries)
      ensures !faulted ==> entries == Append(old(entries), s[i..j], [s[j + 1..k]])
    {
      if j < i || j == k {
        faulted := true;
        return;
      }
      entries := Append(entries, s[i..j], [s[j + 1..k]]);
    }

    /**
     * The body of the loop of `parse` for the character at k: the cursor
     * (i, j, skip) and the map move as `Advance` describes, and `faulted`
     * is set exactly when `Advance` fails.
     */
    method Step(s: seq<char>, k: nat, i: nat, j: nat, skip: bool) returns (i': nat, j': nat, skip': bool)
      requires !faulted && k < |s| && Placed(s, Cursor(i, j, skip, entries), k)
      modifies this
      ensures faulted <==> Advance(s, k, Cursor(i, j, skip, old(entries))).None?
      ensures !faulted ==> Advance(s, k, Cursor(i, j, skip, old(entries))) == Some(Cursor(i', j', skip', entries))
    {
      i', j', skip' := i, j, skip;
      if skip && s[k] == ' ' {
        return;
      }
      if skip {
        skip' := false;
        i' := k;
      }
      if s[k] == '=' {
        if j <= i' {
          j' := k;
        }
      } else if s[k] == ';' {
        PushPair(s, i', j, k);
        skip' := true;
      }
    }

    /**
     * `parse(s)`: spaces after each ';' skipped, name up to the first '=',
     * value up to the next ';' or the end. A failed assertion stops the
     * parse with `faulted` set; the entries pushed so far are then left as
     * they are.
     */
    method Parse(s: seq<char>)
      requires !faulted
      modifies this
      ensures faulted == CookiesInto(old(entries), s).None?
      ensures !faulted ==> entries == CookiesInto(old(entries), s).value
    {
      ghost var m := entries;
      var i: nat, j: nat, k: nat := 0, 0, 0;
      var skip := false;
      while k < |s|
        invariant k <= |s|
        invariant Scan(m, s, k) == Some(Cursor(i, j, skip, entries))
        invariant !faulted
      {
        ScanStep(m, s, k, Cursor(i, j, skip, entries));
        i, j, skip := Step(s, k, i, j, skip);
        if faulted {
          CookiesFail(m, s, k + 1);
          return;
        }
        k := k + 1;
      }
      CookiesFinish(m, s, Cursor(i, j, skip, entries));
      if i < j {
        PushPair(s, i, j, k);
      }
    }
  }
}
