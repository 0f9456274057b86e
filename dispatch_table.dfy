/**
 * The name table of `dispatch` in compiler.cc and the proof that it is
 * strictly ascending under `strcmp`, which `std::lower_bound` relies on.
 *
 * Each adjacent pair is ordered by its own lemma, which gives the first
 * position where the two names differ; `Ordered` gathers them by a case split,
 * so no proof compares more than one pair of names.
 */
module DispatchTable {
  import opened CStrings

  /** The names `dispatch` knows, in the table's order. */
  function Name(k: nat): seq<char>
    requires k < 36
  {
    match k
    case 0 => "containsCookie"
    case 1 => "containsDomain"
    case 2 => "containsHeader"
    case 3 => "containsPath"
    case 4 => "containsQueryParameter"
    case 5 => "equalCookie"
    case 6 => "equalDomain"
    case 7 => "equalHeader"
    case 8 => "equalPath"
    case 9 => "equalQueryParameter"
    case 10 => "existsCookie"
    case 11 => "existsHeader"
    case 12 => "existsQueryParameter"
    case 13 => "false"
    case 14 => "greaterThanAfterCookie"
    case 15 => "greaterThanAfterHeader"
    case 16 => "greaterThanAfterQueryParameter"
    case 17 => "greaterThanCookie"
    case 18 => "greaterThanHeader"
    case 19 => "greaterThanQueryParameter"
    case 20 => "isMethod"
    case 21 => "isScheme"
    case 22 => "lessThanAfterCookie"
    case 23 => "lessThanAfterHeader"
    case 24 => "lessThanAfterQueryParameter"
    case 25 => "lessThanCookie"
    case 26 => "lessThanHeader"
    case 27 => "lessThanQueryParameter"
    case 28 => "notEqualCookie"
    case 29 => "notEqualDomain"
    case 30 => "notEqualHeader"
    case 31 => "notEqualPath"
    case 32 => "notEqualQueryParameter"
    case 33 => "printDebug"
    case 34 => "printError"
    case _ => "true"
  }

  /** The table as a sequence. */
  const Names: seq<seq<char>> := [
    Name(0), Name(1), Name(2), Name(3), Name(4), Name(5), Name(6), Name(7),
    Name(8), Name(9), Name(10), Name(11), Name(12), Name(13), Name(14),
    Name(15), Name(16), Name(17), Name(18), Name(19), Name(20), Name(21),
    Name(22), Name(23), Name(24), Name(25), Name(26), Name(27), Name(28),
    Name(29), Name(30), Name(31), Name(32), Name(33), Name(34), Name(35)
  ]

  /** The name is in the table. */
  predicate Known(name: seq<char>) {
    exists k | 0 <= k < 36 :: Name(k) == name
  }

  /** The sequence holds the names in order. */
  lemma NameAt(k: nat)
    requires k < 36
    ensures |Names| == 36 && Names[k] == Name(k)
  {
  }

  /** The position of a known name, found by a linear search from k on. */
  function IndexFrom(name: seq<char>, k: nat): (i: nat)
    requires k <= 36 && exists j | k <= j < 36 :: Name(j) == name
    ensures k <= i < 36 && Name(i) == name
    ensures forall j | k <= j < i :: Name(j) != name
    decreases 36 - k
  {
    if Name(k) == name then k else IndexFrom(name, k + 1)
  }

  /** The position of a known name in the table. */
  function Index(name: seq<char>): (i: nat)
    requires Known(name)
    ensures i < 36 && Name(i) == name
  {
    IndexFrom(name, 0)
  }

  // One lemma per adjacent pair. Each names the pair by a variable, not a
  // literal index, so that the case split in `Ordered` finds its goal as is.

  lemma Ordered0(k: nat)
    requires k == 0
    ensures StrLess(Name(k), Name(k + 1))
  {
    // "containsCookie" < "containsDomain": they differ first at 8
    StrLessAt(Name(k), Name(k + 1), 8);
  }

  lemma Ordered1(k: nat)
    requires k == 1
    ensures StrLess(Name(k), Name(k + 1))
  {
    // "containsDomain" < "containsHeader": they differ first at 8
    StrLessAt(Name(k), Name(k + 1), 8);
  }

  lemma Ordered2(k: nat)
    requires k == 2
    ensures StrLess(Name(k), Name(k + 1))
  {
    // "containsHeader" < "containsPath": they differ first at 8
    StrLessAt(Name(k), Name(k + 1), 8);
  }

  lemma Ordered3(k: nat)
    requires k == 3
    ensures StrLess(Name(k), Name(k + 1))
  {
    // "containsPath" < "containsQueryParameter": they differ first at 8
    StrLessAt(Name(k), Name(k + 1), 8);
  }

  lemma Ordered4(k: nat)
    requires k == 4
    ensures StrLess(Name(k), Name(k + 1))
  {
    // "containsQueryParameter" < "equalCookie": they differ first at 0
    StrLessAt(Name(k), Name(k + 1), 0);
  }

  lemma Ordered5(k: nat)
    requires k == 5
    ensures StrLess(Name(k), Name(k + 1))
  {
    // "equalCookie" < "equalDomain": they differ first at 5
    StrLessAt(Name(k), Name(k + 1), 5);
  }

  lemma Ordered6(k: nat)
    requires k == 6
    ensures StrLess(Name(k), Name(k + 1))
  {
    // "equalDomain" < "equalHeader": they differ first at 5
    StrLessAt(Name(k), Name(k + 1), 5);
  }

  lemma Ordered7(k: nat)
    requires k == 7
    ensures StrLess(Name(k), Name(k + 1))
  {
    // "equalHeader" < "equalPath": they differ first at 5
    StrLessAt(Name(k), Name(k + 1), 5);
  }

  lemma Ordered8(k: nat)
    requires k == 8
    ensures StrLess(Name(k), Name(k + 1))
  {
    // "equalPath" < "equalQueryParameter": they differ first at 5
    StrLessAt(Name(k), Name(k + 1), 5);
  }

  lemma Ordered9(k: nat)
    requires k == 9
    ensures StrLess(Name(k), Name(k + 1))
  {
    // "equalQueryParameter" < "existsCookie": they differ first at 1
    StrLessAt(Name(k), Name(k + 1), 1);
  }

  lemma Ordered10(k: nat)
    requires k == 10
    ensures StrLess(Name(k), Name(k + 1))
  {
    // "existsCookie" < "existsHeader": they differ first at 6
    StrLessAt(Name(k), Name(k + 1), 6);
  }

  lemma Ordered11(k: nat)
    requires k == 11
    ensures StrLess(Name(k), Name(k + 1))
  {
    // "existsHeader" < "existsQueryParameter": they differ first at 6
    StrLessAt(Name(k), Name(k + 1), 6);
  }

  lemma Ordered12(k: nat)
    requires k == 12
    ensures StrLess(Name(k), Name(k + 1))
  {
    // "existsQueryParameter" < "false": they differ first at 0
    StrLessAt(Name(k), Name(k + 1), 0);
  }

  lemma Ordered13(k: nat)
    requires k == 13
    ensures StrLess(Name(k), Name(k + 1))
  {
    // "false" < "greaterThanAfterCookie": they differ first at 0
    StrLessAt(Name(k), Name(k + 1), 0);
  }

  lemma Ordered14(k: nat)
    requires k == 14
    ensures StrLess(Name(k), Name(k + 1))
  {
    // "greaterThanAfterCookie" < "greaterThanAfterHeader": they differ first at 16
    StrLessAt(Name(k), Name(k + 1), 16);
  }

  lemma Ordered15(k: nat)
    requires k == 15
    ensures StrLess(Name(k), Name(k + 1))
  {
    // "greaterThanAfterHeader" < "greaterThanAfterQueryParameter": they differ first at 16
    StrLessAt(Name(k), Name(k + 1), 16);
  }

  lemma Ordered16(k: nat)
    requires k == 16
    ensures StrLess(Name(k), Name(k + 1))
  {
    // "greaterThanAfterQueryParameter" < "greaterThanCookie": they differ first at 11
    StrLessAt(Name(k), Name(k + 1), 11);
  }

  lemma Ordered17(k: nat)
    requires k == 17
    ensures StrLess(Name(k), Name(k + 1))
  {
    // "greaterThanCookie" < "greaterThanHeader": they differ first at 11
    StrLessAt(Name(k), Name(k + 1), 11);
  }

  lemma Ordered18(k: nat)
    requires k == 18
    ensures StrLess(Name(k), Name(k + 1))
  {
    // "greaterThanHeader" < "greaterThanQueryParameter": they differ first at 11
    StrLessAt(Name(k), Name(k + 1), 11);
  }

  lemma Ordered19(k: nat)
    requires k == 19
    ensures StrLess(Name(k), Name(k + 1))
  {
    // "greaterThanQueryParameter" < "isMethod": they differ first at 0
    StrLessAt(Name(k), Name(k + 1), 0);
  }

  lemma Ordered20(k: nat)
    requires k == 20
    ensures StrLess(Name(k), Name(k + 1))
  {
    // "isMethod" < "isScheme": they differ first at 2
    StrLessAt(Name(k), Name(k + 1), 2);
  }

  lemma Ordered21(k: nat)
    requires k == 21
    ensures StrLess(Name(k), Name(k + 1))
  {
    // "isScheme" < "lessThanAfterCookie": they differ first at 0
    StrLessAt(Name(k), Name(k + 1), 0);
  }

  lemma Ordered22(k: nat)
    requires k == 22
    ensures StrLess(Name(k), Name(k + 1))
  {
    // "lessThanAfterCookie" < "lessThanAfterHeader": they differ first at 13
    StrLessAt(Name(k), Name(k + 1), 13);
  }

  lemma Ordered23(k: nat)
    requires k == 23
    ensures StrLess(Name(k), Name(k + 1))
  {
    // "lessThanAfterHeader" < "lessThanAfterQueryParameter": they differ first at 13
    StrLessAt(Name(k), Name(k + 1), 13);
  }

  lemma Ordered24(k: nat)
    requires k == 24
    ensures StrLess(Name(k), Name(k + 1))
  {
    // "lessThanAfterQueryParameter" < "lessThanCookie": they differ first at 8
    StrLessAt(Name(k), Name(k + 1), 8);
  }

  lemma Ordered25(k: nat)
    requires k == 25
    ensures StrLess(Name(k), Name(k + 1))
  {
    // "lessThanCookie" < "lessThanHeader": they differ first at 8
    StrLessAt(Name(k), Name(k + 1), 8);
  }

  lemma Ordered26(k: nat)
    requires k == 26
    ensures StrLess(Name(k), Name(k + 1))
  {
    // "lessThanHeader" < "lessThanQueryParameter": they differ first at 8
    StrLessAt(Name(k), Name(k + 1), 8);
  }

  lemma Ordered27(k: nat)
    requires k == 27
    ensures StrLess(Name(k), Name(k + 1))
  {
    // "lessThanQueryParameter" < "notEqualCookie": they differ first at 0
    StrLessAt(Name(k), Name(k + 1), 0);
  }

  lemma Ordered28(k: nat)
    requires k == 28
    ensures StrLess(Name(k), Name(k + 1))
  {
    // "notEqualCookie" < "notEqualDomain": they differ first at 8
    StrLessAt(Name(k), Name(k + 1), 8);
  }

  lemma Ordered29(k: nat)
    requires k == 29
    ensures StrLess(Name(k), Name(k + 1))
  {
    // "notEqualDomain" < "notEqualHeader": they differ first at 8
    StrLessAt(Name(k), Name(k + 1), 8);
  }

  lemma Ordered30(k: nat)
    requires k == 30
    ensures StrLess(Name(k), Name(k + 1))
  {
    // "notEqualHeader" < "notEqualPath": they differ first at 8
    StrLessAt(Name(k), Name(k + 1), 8);
  }

  lemma Ordered31(k: nat)
    requires k == 31
    ensures StrLess(Name(k), Name(k + 1))
  {
    // "notEqualPath" < "notEqualQueryParameter": they differ first at 8
    StrLessAt(Name(k), Name(k + 1), 8);
  }

  lemma Ordered32(k: nat)
    requires k == 32
    ensures StrLess(Name(k), Name(k + 1))
  {
    // "notEqualQueryParameter" < "printDebug": they differ first at 0
    StrLessAt(Name(k), Name(k + 1), 0);
  }

  lemma Ordered33(k: nat)
    requires k == 33
    ensures StrLess(Name(k), Name(k + 1))
  {
    // "printDebug" < "printError": they differ first at 5
    StrLessAt(Name(k), Name(k + 1), 5);
  }

  lemma Ordered34(k: nat)
    requires k == 34
    ensures StrLess(Name(k), Name(k + 1))
  {
    // "printError" < "true": they differ first at 0
    StrLessAt(Name(k), Name(k + 1), 0);
  }

  /** Every name in the table is below the next one. */
  lemma Ordered(k: nat)
    requires k < 35
    ensures StrLess(Name(k), Name(k + 1))
  {
    if k == 0 {
      Ordered0(k);
    } else if k == 1 {
      Ordered1(k);
    } else if k == 2 {
      Ordered2(k);
    } else if k == 3 {
      Ordered3(k);
    } else if k == 4 {
      Ordered4(k);
    } else if k == 5 {
      Ordered5(k);
    } else if k == 6 {
      Ordered6(k);
    } else if k == 7 {
      Ordered7(k);
    } else if k == 8 {
      Ordered8(k);
    } else if k == 9 {
      Ordered9(k);
    } else if k == 10 {
      Ordered10(k);
    } else if k == 11 {
      Ordered11(k);
    } else if k == 12 {
      Ordered12(k);
    } else if k == 13 {
      Ordered13(k);
    } else if k == 14 {
      Ordered14(k);
    } else if k == 15 {
      Ordered15(k);
    } else if k == 16 {
      Ordered16(k);
    } else if k == 17 {
      Ordered17(k);
    } else if k == 18 {
      Ordered18(k);
    } else if k == 19 {
      Ordered19(k);
    } else if k == 20 {
      Ordered20(k);
    } else if k == 21 {
      Ordered21(k);
    } else if k == 22 {
      Ordered22(k);
    } else if k == 23 {
      Ordered23(k);
    } else if k == 24 {
      Ordered24(k);
    } else if k == 25 {
      Ordered25(k);
    } else if k == 26 {
      Ordered26(k);
    } else if k == 27 {
      Ordered27(k);
    } else if k == 28 {
      Ordered28(k);
    } else if k == 29 {
      Ordered29(k);
    } else if k == 30 {
      Ordered30(k);
    } else if k == 31 {
      Ordered31(k);
    } else if k == 32 {
      Ordered32(k);
    } else if k == 33 {
      Ordered33(k);
    } else {
      Ordered34(k);
    }
  }

  /**
   * The table is strictly ascending under `strcmp`, which is what
   * `std::lower_bound` needs, and it names no predicate twice.
   */
  lemma NamesAscending()
    ensures |Names| == 36
    ensures Ascending(Names) && Sorted(Names)
    ensures forall m, n | 0 <= m < n < 36 :: Name(m) != Name(n)
  {
    forall k | 0 <= k < |Names| - 1
      ensures StrLess(Names[k], Names[k + 1])
    {
      Ordered(k);
      NameAt(k);
      NameAt(k + 1);
    }
    AscendingSorted(Names);
    forall m, n | 0 <= m < n < 36
      ensures Name(m) != Name(n)
    {
      NameAt(m);
      NameAt(n);
    }
  }
}
