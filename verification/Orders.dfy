/** Three-way comparisons, their laws, lexicographic order and sorting. */
module Orders {
  // The laws of a comparison that answers -1, 0 or 1: a total preorder.
  ghost predicate Lawful<T(!new)>(cmp: (T, T) -> int) {
    && (forall x, y :: -1 <= cmp(x, y) <= 1)
    && (forall x, y :: cmp(x, y) == -cmp(y, x))
    && (forall x, y, z :: cmp(x, y) <= 0 && cmp(y, z) <= 0 ==> cmp(x, z) <= 0)
  }

  lemma StrictOnEitherSide<T(!new)>(cmp: (T, T) -> int, x: T, y: T, z: T)
    requires Lawful(cmp) && cmp(x, y) <= 0 && cmp(y, z) <= 0
    ensures cmp(x, z) == if cmp(x, y) == 0 then cmp(y, z) else -1
  {
  }

  function CompareInt(a: int, b: int): int {
    if a < b then -1 else if a > b then 1 else 0
  }

  function CompareChar(a: char, b: char): int {
    if a < b then -1 else if a > b then 1 else 0
  }

  /** First difference decides; a proper prefix comes first. */
  function LexCompare<T>(cmp: (T, T) -> int, a: seq<T>, b: seq<T>): int {
    if a == [] then (if b == [] then 0 else -1)
    else if b == [] then 1
    else if cmp(a[0], b[0]) != 0 then cmp(a[0], b[0])
    else LexCompare(cmp, a[1..], b[1..])
  }

  lemma {:induction false} LexAntisymmetric<T(!new)>(cmp: (T, T) -> int, a: seq<T>, b: seq<T>)
    requires Lawful(cmp)
    ensures -1 <= LexCompare(cmp, a, b) <= 1
    ensures LexCompare(cmp, a, b) == -LexCompare(cmp, b, a)
  {
    if a != [] && b != [] {
      assert cmp(a[0], b[0]) == -cmp(b[0], a[0]);
      LexAntisymmetric(cmp, a[1..], b[1..]);
    }
  }

  lemma {:induction false} LexTransitive<T(!new)>(cmp: (T, T) -> int, a: seq<T>, b: seq<T>, c: seq<T>)
    requires Lawful(cmp)
    requires LexCompare(cmp, a, b) <= 0 && LexCompare(cmp, b, c) <= 0
    ensures LexCompare(cmp, a, c) <= 0
  {
    if a != [] && b != [] && c != [] {
      StrictOnEitherSide(cmp, a[0], b[0], c[0]);
      if cmp(a[0], b[0]) == 0 && cmp(b[0], c[0]) == 0 {
        LexTransitive(cmp, a[1..], b[1..], c[1..]);
      }
    }
  }

  // A lexicographic comparison answers 0 only for elementwise equivalent sequences.
  lemma {:induction false} LexZero<T(!new)>(cmp: (T, T) -> int, a: seq<T>, b: seq<T>)
    ensures LexCompare(cmp, a, b) == 0 <==>
              |a| == |b| && forall i :: 0 <= i < |a| ==> cmp(a[i], b[i]) == 0
  {
    if a != [] && b != [] {
      LexZero(cmp, a[1..], b[1..]);
      assert forall i :: 0 < i < |a| ==> a[i] == a[1..][i - 1];
      assert forall i :: 0 < i < |b| ==> b[i] == b[1..][i - 1];
    }
  }

  /** Comparison of two Go strings with < and >. */
  function CompareText(a: string, b: string): int {
    LexCompare(CompareChar, a, b)
  }

  // ----- Sorting -----

  ghost predicate SortedBy<T>(cmp: (T, T) -> int, s: seq<T>) {
    forall i, j :: 0 <= i < j < |s| ==> cmp(s[i], s[j]) <= 0
  }

  function Insert<T>(cmp: (T, T) -> int, x: T, s: seq<T>): (t: seq<T>)
    ensures multiset(t) == multiset([x] + s)
    ensures forall y :: y in t ==> y == x || y in s
  {
    if s == [] || cmp(x, s[0]) <= 0 then [x] + s
    else
      assert s == [s[0]] + s[1..];
      [s[0]] + Insert(cmp, x, s[1..])
  }

  function Sort<T>(cmp: (T, T) -> int, s: seq<T>): (t: seq<T>)
    ensures multiset(t) == multiset(s)
  {
    if s == [] then []
    else
      assert s == [s[0]] + s[1..];
      Insert(cmp, s[0], Sort(cmp, s[1..]))
  }

  lemma {:induction false} InsertSorted<T(!new)>(cmp: (T, T) -> int, x: T, s: seq<T>)
    requires Lawful(cmp) && SortedBy(cmp, s)
    ensures SortedBy(cmp, Insert(cmp, x, s))
  {
    if s == [] {
    } else if cmp(x, s[0]) <= 0 {
      forall j | 0 <= j < |s| ensures cmp(x, s[j]) <= 0 {
        assert j > 0 ==> cmp(s[0], s[j]) <= 0;
      }
    } else {
      InsertSorted(cmp, x, s[1..]);
      var rest := Insert(cmp, x, s[1..]);
      forall j | 0 <= j < |rest| ensures cmp(s[0], rest[j]) <= 0 {
        assert rest[j] in rest;
        assert cmp(s[0], x) <= 0;
      }
    }
  }

  lemma {:induction false} SortSorts<T(!new)>(cmp: (T, T) -> int, s: seq<T>)
    requires Lawful(cmp)
    ensures SortedBy(cmp, Sort(cmp, s)) && multiset(Sort(cmp, s)) == multiset(s)
  {
    if s != [] {
      SortSorts(cmp, s[1..]);
      InsertSorted(cmp, s[0], Sort(cmp, s[1..]));
    }
  }

  lemma {:induction false} SortOfSorted<T>(cmp: (T, T) -> int, s: seq<T>)
    requires SortedBy(cmp, s)
    ensures Sort(cmp, s) == s
  {
    if s != [] {
      SortOfSorted(cmp, s[1..]);
    }
  }
}
