/**
 * The structural document comparison the delta-sync tests use to check that a document read
 * from Sync Gateway matches the one Couchbase Lite holds (`compare_generic_types`,
 * `deep_list_compare` and `deep_dict_compare` in
 * testsuites/CBLTester/CBL_Functional_tests/TestSetup_FunctionalTests/test_delta_sync.py).
 *
 * The comparison is permissive on purpose: values of kinds it does not know how to compare
 * count as equal, and lists are sorted and then compared only as far as the first one goes.
 * Lists are sorted by Python 2's `sorted`, which is not modelled: every function here takes the
 * sorting function as a parameter and only assumes that it permutes its input.
 */
module DocCompare {
  import opened Results

  /** A document value as json decoding gives it (floats are not modelled). */
  datatype Doc =
    | DNull
    | DStr(s: string)                     // str
    | DUnicode(u: string)                 // unicode
    | DBool(b: bool)
    | DInt(i: int)                        // int; Python 2 makes bool a subclass of it
    | DLong(l: int)                       // long, which is not an int to isinstance
    | DList(items: seq<Doc>)
    | DDict(fields: seq<(string, Doc)>)   // a dictionary's entries, in its iteration order

  /** What a comparison returns, or the exception it raises. */
  datatype Outcome =
    | Returned(value: bool)
    | KeyError(key: string)   // object2[k] for a key k that object2 does not have
    | IndexError(index: nat)  // object2[x] past the end of the (shorter) second list

  type Sorter = seq<Doc> -> seq<Doc>

  /** `sorted` returns a rearrangement of its argument. */
  ghost predicate Sorts(sorted: Sorter) {
    forall s :: multiset(sorted(s)) == multiset(s)
  }

  /** A Python dictionary holds each key once, at every depth. */
  predicate WellFormed(d: Doc)
    decreases d
  {
    match d
    case DList(items) => forall i | 0 <= i < |items| :: WellFormed(items[i])
    case DDict(fields) =>
      && (forall i, j | 0 <= i < j < |fields| :: fields[i].0 != fields[j].0)
      && (forall i | 0 <= i < |fields| :: WellFormed(fields[i].1))
    case _ => true
  }

  /** `object2[k]`: the value stored under `k`, if there is one. */
  function Lookup(fields: seq<(string, Doc)>, k: string): (r: Option<Doc>)
    ensures r.Some? <==> exists i | 0 <= i < |fields| :: fields[i].0 == k
  {
    if fields == [] then None
    else if fields[0].0 == k then Some(fields[0].1)
    else Lookup(fields[1..], k)
  }

  /** isinstance(d, int): true of ints and, in Python 2, of booleans. */
  predicate IsInt(d: Doc) {
    d.DInt? || d.DBool?
  }

  /** The number an int or a bool stands for (True == 1, False == 0). */
  function IntValue(d: Doc): int
    requires IsInt(d)
  {
    if d.DBool? then (if d.b then 1 else 0) else d.i
  }

  /** Whether the comparison knows how to compare the two (non-float) values at all. */
  predicate ComparableKinds(o1: Doc, o2: Doc) {
    (o1.DStr? && o2.DStr?) || (o1.DUnicode? && o2.DUnicode?) || (IsInt(o1) && IsInt(o2))
  }

  /** `compare_generic_types`, without its float branches. */
  function CompareGenericTypes(o1: Doc, o2: Doc): (r: bool)
    ensures !ComparableKinds(o1, o2) ==> r
    ensures o1.DStr? && o2.DStr? ==> (r <==> o1.s == o2.s)
    ensures o1.DUnicode? && o2.DUnicode? ==> (r <==> o1.u == o2.u)
    ensures IsInt(o1) && IsInt(o2) ==> (r <==> IntValue(o1) == IntValue(o2))
    ensures o1 == o2 ==> r
  {
    if o1.DStr? && o2.DStr? then o1.s == o2.s
    else if o1.DUnicode? && o2.DUnicode? then o1.u == o2.u
    else if o1.DBool? && o2.DBool? then o1.b == o2.b
    else if IsInt(o1) && IsInt(o2) then IntValue(o1) == IntValue(o2)
    else true
  }

  /** The branch both loops take for one pair of values: recurse into two lists or two dicts. */
  function CompareValues(sorted: Sorter, o1: Doc, o2: Doc): Outcome
    requires Sorts(sorted)
    decreases o1, 2, 0
  {
    if o1.DDict? && o2.DDict? then DictCompare(sorted, o1, o2)
    else if o1.DList? && o2.DList? then ListCompare(sorted, o1, o2)
    else Returned(CompareGenericTypes(o1, o2))
  }

  /** `deep_list_compare(o1.items, o2.items)`. */
  function ListCompare(sorted: Sorter, o1: Doc, o2: Doc): Outcome
    requires Sorts(sorted) && o1.DList? && o2.DList?
    decreases o1, 1, 0
  {
    Positions(sorted, o1, sorted(o1.items), sorted(o2.items), 0)
  }

  /** The loop of `deep_list_compare` from position `x` on, over the sorted lists `xs`, `ys`. */
  function Positions(sorted: Sorter, p: Doc, xs: seq<Doc>, ys: seq<Doc>, x: nat): Outcome
    requires Sorts(sorted) && p.DList? && xs == sorted(p.items) && x <= |xs|
    decreases p, 0, |xs| - x
  {
    if x == |xs| then Returned(true)
    else if x >= |ys| then IndexError(x)
    else
      assert xs[x] in multiset(p.items);
      var c := CompareValues(sorted, xs[x], ys[x]);
      if c == Returned(true) then Positions(sorted, p, xs, ys, x + 1) else c
  }

  /** `deep_dict_compare(o1.fields, o2.fields)`. */
  function DictCompare(sorted: Sorter, o1: Doc, o2: Doc): Outcome
    requires Sorts(sorted) && o1.DDict? && o2.DDict?
    decreases o1, 1, 0
  {
    if |o1.fields| != |o2.fields| then Returned(false)
    else Entries(sorted, o1, o2.fields, 0)
  }

  /** The loop of `deep_dict_compare` from the `i`-th key of the first dictionary on. */
  function Entries(sorted: Sorter, p: Doc, other: seq<(string, Doc)>, i: nat): Outcome
    requires Sorts(sorted) && p.DDict? && i <= |p.fields|
    decreases p, 0, |p.fields| - i
  {
    if i == |p.fields| then Returned(true)
    else
      match Lookup(other, p.fields[i].0)
      case None => KeyError(p.fields[i].0)
      case Some(v) =>
        var c := CompareValues(sorted, p.fields[i].1, v);
        if c == Returned(true) then Entries(sorted, p, other, i + 1) else c
  }

  /** `deep_list_compare`: sorts both lists, then walks the positions of the first one. */
  method DeepListCompare(sorted: Sorter, object1: seq<Doc>, object2: seq<Doc>) returns (r: Outcome)
    requires Sorts(sorted)
    ensures r == ListCompare(sorted, DList(object1), DList(object2))
    ensures object1 == [] ==> r == Returned(true)
    decreases DList(object1)
  {
    var count := |object1|;
    var s1 := sorted(object1);
    var s2 := sorted(object2);
    assert |s1| == |multiset(s1)| == count;
    for x := 0 to count
      invariant Positions(sorted, DList(object1), s1, s2, 0) == Positions(sorted, DList(object1), s1, s2, x)
    {
      if x >= |s2| {
        return IndexError(x);
      }
      assert s1[x] in multiset(object1);
      var retval: Outcome;
      if s1[x].DDict? && s2[x].DDict? {
        retval := DeepDictCompare(sorted, s1[x].fields, s2[x].fields);
      } else if s1[x].DList? && s2[x].DList? {
        retval := DeepListCompare(sorted, s1[x].items, s2[x].items);
      } else {
        retval := Returned(CompareGenericTypes(s1[x], s2[x]));
      }
      if retval != Returned(true) {
        return retval;
      }
    }
    return Returned(true);
  }

  /** `deep_dict_compare`: sizes first, then every key of the first dictionary in turn. */
  method DeepDictCompare(sorted: Sorter, object1: seq<(string, Doc)>, object2: seq<(string, Doc)>)
    returns (r: Outcome)
    requires Sorts(sorted)
    ensures r == DictCompare(sorted, DDict(object1), DDict(object2))
    ensures |object1| != |object2| ==> r == Returned(false)
    decreases DDict(object1)
  {
    if |object1| != |object2| {
      return Returned(false);
    }
    for i := 0 to |object1|
      invariant Entries(sorted, DDict(object1), object2, 0) == Entries(sorted, DDict(object1), object2, i)
    {
      var k := object1[i].0;
      var obj1 := object1[i].1;
      var found := Lookup(object2, k);
      if found.None? {
        return KeyError(k);
      }
      var obj2 := found.value;
      var retval: Outcome;
      if obj1.DList? && obj2.DList? {
        retval := DeepListCompare(sorted, obj1.items, obj2.items);
      } else if obj1.DDict? && obj2.DDict? {
        retval := DeepDictCompare(sorted, obj1.fields, obj2.fields);
      } else {
        retval := Returned(CompareGenericTypes(obj1, obj2));
      }
      if retval != Returned(true) {
        return retval;
      }
    }
    return Returned(true);
  }

  // ---------------------------------------------------------------------------------------
  // Properties of the comparison

  /** The loop of `deep_dict_compare` returns True exactly when every key is found and matches. */
  lemma {:induction false} EntriesTrueIff(sorted: Sorter, p: Doc, other: seq<(string, Doc)>, i: nat)
    requires Sorts(sorted) && p.DDict? && i <= |p.fields|
    ensures Entries(sorted, p, other, i) == Returned(true) <==>
      forall j | i <= j < |p.fields| ::
        Lookup(other, p.fields[j].0).Some? &&
        CompareValues(sorted, p.fields[j].1, Lookup(other, p.fields[j].0).value) == Returned(true)
    decreases |p.fields| - i
  {
    if i < |p.fields| {
      EntriesTrueIff(sorted, p, other, i + 1);
    }
  }

  /** Once the keys before `j` all match, the loop's outcome is decided from key `j` on. */
  lemma {:induction false} EntriesSkipMatched(sorted: Sorter, p: Doc, other: seq<(string, Doc)>, i: nat, j: nat)
    requires Sorts(sorted) && p.DDict? && i <= j <= |p.fields|
    requires forall m | i <= m < j ::
      Lookup(other, p.fields[m].0).Some? &&
      CompareValues(sorted, p.fields[m].1, Lookup(other, p.fields[m].0).value) == Returned(true)
    ensures Entries(sorted, p, other, i) == Entries(sorted, p, other, j)
    decreases j - i
  {
    if i < j {
      EntriesSkipMatched(sorted, p, other, i + 1, j);
    }
  }

  /**
   * deep_dict_compare on dictionaries of the same size: True iff every key of the first is in
   * the second with a matching value; the first key (in iteration order) that is missing raises
   * KeyError, and the first key whose values do not match makes it return False.
   */
  lemma DictCompareCases(sorted: Sorter, a: seq<(string, Doc)>, b: seq<(string, Doc)>, j: nat)
    requires Sorts(sorted) && |a| == |b| && j <= |a|
    requires forall m | 0 <= m < j ::
      Lookup(b, a[m].0).Some? && CompareValues(sorted, a[m].1, Lookup(b, a[m].0).value) == Returned(true)
    ensures j == |a| ==> DictCompare(sorted, DDict(a), DDict(b)) == Returned(true)
    ensures j < |a| && Lookup(b, a[j].0).None? ==> DictCompare(sorted, DDict(a), DDict(b)) == KeyError(a[j].0)
    ensures (j < |a| && Lookup(b, a[j].0).Some? &&
             CompareValues(sorted, a[j].1, Lookup(b, a[j].0).value) == Returned(false)) ==>
              DictCompare(sorted, DDict(a), DDict(b)) == Returned(false)
  {
    EntriesSkipMatched(sorted, DDict(a), b, 0, j);
  }

  /** deep_dict_compare returns True exactly when sizes agree and every key is found and matches. */
  lemma DictCompareTrueIff(sorted: Sorter, a: seq<(string, Doc)>, b: seq<(string, Doc)>)
    requires Sorts(sorted)
    ensures DictCompare(sorted, DDict(a), DDict(b)) == Returned(true) <==>
      && |a| == |b|
      && forall j | 0 <= j < |a| ::
        Lookup(b, a[j].0).Some? && CompareValues(sorted, a[j].1, Lookup(b, a[j].0).value) == Returned(true)
  {
    EntriesTrueIff(sorted, DDict(a), b, 0);
  }

  /** The loop of `deep_list_compare` returns True exactly when every position up to |xs| matches. */
  lemma {:induction false} PositionsTrueIff(sorted: Sorter, p: Doc, xs: seq<Doc>, ys: seq<Doc>, x: nat)
    requires Sorts(sorted) && p.DList? && xs == sorted(p.items) && x <= |xs| && x <= |ys|
    ensures Positions(sorted, p, xs, ys, x) == Returned(true) <==>
      |xs| <= |ys| && forall y | x <= y < |xs| :: CompareValues(sorted, xs[y], ys[y]) == Returned(true)
    decreases |xs| - x
  {
    if x < |xs| && x < |ys| {
      PositionsTrueIff(sorted, p, xs, ys, x + 1);
    }
  }

  /** Once the positions before `j` all match, the loop's outcome is decided from position `j` on. */
  lemma {:induction false} PositionsSkipMatched(sorted: Sorter, p: Doc, xs: seq<Doc>, ys: seq<Doc>, x: nat, j: nat)
    requires Sorts(sorted) && p.DList? && xs == sorted(p.items) && x <= j <= |xs| && j <= |ys|
    requires forall y | x <= y < j :: CompareValues(sorted, xs[y], ys[y]) == Returned(true)
    ensures Positions(sorted, p, xs, ys, x) == Positions(sorted, p, xs, ys, j)
    decreases j - x
  {
    if x < j {
      PositionsSkipMatched(sorted, p, xs, ys, x + 1, j);
    }
  }

  /**
   * deep_list_compare after sorting both lists: when the positions before `j` match, the first
   * position whose comparison does not give True decides the outcome (False, or the error raised
   * inside it), and matching all of the first list gives True.
   */
  lemma ListCompareFirstMismatch(sorted: Sorter, a: seq<Doc>, b: seq<Doc>, j: nat)
    requires Sorts(sorted) && j <= |sorted(a)| && j <= |sorted(b)|
    requires forall y | 0 <= y < j :: CompareValues(sorted, sorted(a)[y], sorted(b)[y]) == Returned(true)
    ensures j == |sorted(a)| ==> ListCompare(sorted, DList(a), DList(b)) == Returned(true)
    ensures (j < |sorted(a)| && j < |sorted(b)| &&
             CompareValues(sorted, sorted(a)[j], sorted(b)[j]) != Returned(true)) ==>
              ListCompare(sorted, DList(a), DList(b)) == CompareValues(sorted, sorted(a)[j], sorted(b)[j])
  {
    PositionsSkipMatched(sorted, DList(a), sorted(a), sorted(b), 0, j);
  }

  /** Elements the second sorted list has past the length of the first are never looked at. */
  lemma {:induction false} ExtraElementsIgnored(sorted: Sorter, p: Doc, xs: seq<Doc>, ys: seq<Doc>, extra: seq<Doc>, x: nat)
    requires Sorts(sorted) && p.DList? && xs == sorted(p.items) && x <= |xs| <= |ys|
    ensures Positions(sorted, p, xs, ys + extra, x) == Positions(sorted, p, xs, ys, x)
    decreases |xs| - x
  {
    if x < |xs| {
      assert (ys + extra)[x] == ys[x];
      ExtraElementsIgnored(sorted, p, xs, ys, extra, x + 1);
    }
  }

  /** A shorter second sorted list raises IndexError at its length, unless a mismatch comes first. */
  lemma {:induction false} ShortSecondListRaises(sorted: Sorter, p: Doc, xs: seq<Doc>, ys: seq<Doc>, x: nat)
    requires Sorts(sorted) && p.DList? && xs == sorted(p.items) && x <= |ys| < |xs|
    requires forall y | x <= y < |ys| :: CompareValues(sorted, xs[y], ys[y]) == Returned(true)
    ensures Positions(sorted, p, xs, ys, x) == IndexError(|ys|)
    decreases |ys| - x
  {
    if x < |ys| {
      ShortSecondListRaises(sorted, p, xs, ys, x + 1);
    }
  }

  /** Sorting a list whose elements are all the same value leaves it as it is. */
  lemma SortedUniform(sorted: Sorter, s: seq<Doc>, d: Doc)
    requires Sorts(sorted) && forall i | 0 <= i < |s| :: s[i] == d
    ensures sorted(s) == s
  {
    var t := sorted(s);
    assert |t| == |multiset(t)| == |multiset(s)| == |s|;
    forall i | 0 <= i < |t| ensures t[i] == s[i] {
      assert t[i] in multiset(s);
    }
  }

  /** The list comparison is not symmetric: [1] matches [1, 1], but [1, 1] against [1] raises. */
  lemma {:induction false} ListCompareIsAsymmetric(sorted: Sorter)
    requires Sorts(sorted)
    ensures ListCompare(sorted, DList([DInt(1)]), DList([DInt(1), DInt(1)])) == Returned(true)
    ensures ListCompare(sorted, DList([DInt(1), DInt(1)]), DList([DInt(1)])) == IndexError(1)
  {
    var one, two := [DInt(1)], [DInt(1), DInt(1)];
    SortedUniform(sorted, one, DInt(1));
    SortedUniform(sorted, two, DInt(1));
    PositionsTrueIff(sorted, DList(one), one, two, 0);
    ShortSecondListRaises(sorted, DList(two), two, one, 0);
  }

  /** Values of kinds the comparison does not pair up count as equal: 1 matches "x". */
  lemma DifferentKindsMatch(sorted: Sorter)
    requires Sorts(sorted)
    ensures DictCompare(sorted, DDict([("a", DInt(1))]), DDict([("a", DStr("x"))])) == Returned(true)
    ensures DictCompare(sorted, DDict([("a", DLong(1))]), DDict([("a", DInt(2))])) == Returned(true)
  {
  }

  /** In a dictionary with distinct keys, looking up the key of an entry finds that entry's value. */
  lemma {:induction false} LookupDistinct(fields: seq<(string, Doc)>, i: nat)
    requires i < |fields| && forall m, n | 0 <= m < n < |fields| :: fields[m].0 != fields[n].0
    ensures Lookup(fields, fields[i].0) == Some(fields[i].1)
  {
    if i > 0 {
      LookupDistinct(fields[1..], i - 1);
    }
  }

  /** Every well-formed document compares equal to itself. */
  lemma {:induction false} CompareReflexive(sorted: Sorter, d: Doc)
    requires Sorts(sorted) && WellFormed(d)
    ensures CompareValues(sorted, d, d) == Returned(true)
    decreases d, 2, 0
  {
    match d {
      case DDict(fields) =>
        EntriesReflexive(sorted, d, 0);
      case DList(items) =>
        PositionsReflexive(sorted, d, sorted(items), 0);
      case _ =>
    }
  }

  lemma {:induction false} PositionsReflexive(sorted: Sorter, p: Doc, xs: seq<Doc>, x: nat)
    requires Sorts(sorted) && p.DList? && WellFormed(p) && xs == sorted(p.items) && x <= |xs|
    ensures Positions(sorted, p, xs, xs, x) == Returned(true)
    decreases p, 0, |xs| - x
  {
    if x < |xs| {
      assert xs[x] in multiset(p.items);
      CompareReflexive(sorted, xs[x]);
      PositionsReflexive(sorted, p, xs, x + 1);
    }
  }

  lemma {:induction false} EntriesReflexive(sorted: Sorter, p: Doc, i: nat)
    requires Sorts(sorted) && p.DDict? && WellFormed(p) && i <= |p.fields|
    ensures Entries(sorted, p, p.fields, i) == Returned(true)
    decreases p, 0, |p.fields| - i
  {
    if i < |p.fields| {
      LookupDistinct(p.fields, i);
      CompareReflexive(sorted, p.fields[i].1);
      EntriesReflexive(sorted, p, i + 1);
    }
  }
}
