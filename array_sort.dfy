/**
 * `Array.prototype.sort(compare)` as the listing handler uses it: a sort
 * that only looks at the sign of the comparator. `above(a, b)` stands for
 * `compare(a, b) > 0`, i.e. `b` belongs before `a`. The sort is an insertion
 * sort: for a consistent comparator it permutes its input into order, and it
 * leaves an input already in order as it is.
 */
module ArraySort {

  /** A comparator whose sign comes from a total preorder: asymmetric and transitive in "not above". */
  ghost predicate Consistent<T(!new)>(above: (T, T) -> bool) {
    && (forall a, b :: above(a, b) ==> !above(b, a))
    && (forall a, b, c :: !above(a, b) && !above(b, c) ==> !above(a, c))
  }

  /** No pair of `s` is out of order. */
  ghost predicate Ordered<T>(above: (T, T) -> bool, s: seq<T>) {
    forall i, j :: 0 <= i < j < |s| ==> !above(s[i], s[j])
  }

  /** Put `x` after every element of `s` that is not above it, scanning from the right. */
  function Insert<T>(above: (T, T) -> bool, x: T, s: seq<T>): (r: seq<T>)
    ensures |r| == |s| + 1
  {
    if s == [] || !above(s[|s| - 1], x) then s + [x]
    else Insert(above, x, s[..|s| - 1]) + [s[|s| - 1]]
  }

  /** The result of sorting `s`: insert each element, left to right, into the sorted prefix. */
  function SortedBy<T>(above: (T, T) -> bool, s: seq<T>): (r: seq<T>)
    ensures |r| == |s|
  {
    if s == [] then [] else Insert(above, s[|s| - 1], SortedBy(above, s[..|s| - 1]))
  }

  lemma {:induction false} InsertPermutes<T>(above: (T, T) -> bool, x: T, s: seq<T>)
    ensures multiset(Insert(above, x, s)) == multiset(s) + multiset{x}
    decreases |s|
  {
    if s != [] && above(s[|s| - 1], x) {
      var init := s[..|s| - 1];
      assert s == init + [s[|s| - 1]];
      InsertPermutes(above, x, init);
    }
  }

  /** Inserting into an ordered sequence keeps it ordered. */
  lemma {:induction false} InsertOrders<T(!new)>(above: (T, T) -> bool, x: T, s: seq<T>)
    requires Consistent(above) && Ordered(above, s)
    ensures Ordered(above, Insert(above, x, s))
    decreases |s|
  {
    if s == [] || !above(s[|s| - 1], x) {
      var r := s + [x];
      forall i, j | 0 <= i < j < |r|
        ensures !above(r[i], r[j])
      {
        if j == |s| && i < |s| - 1 {
          assert !above(s[i], s[|s| - 1]);
        }
      }
    } else {
      var init, last := s[..|s| - 1], s[|s| - 1];
      assert Ordered(above, init);
      InsertOrders(above, x, init);
      InsertPermutes(above, x, init);
      var r0 := Insert(above, x, init);
      forall i | 0 <= i < |r0|
        ensures !above(r0[i], last)
      {
        assert r0[i] in multiset(r0);
        if r0[i] != x {
          assert r0[i] in multiset(init);
          var k :| 0 <= k < |init| && init[k] == r0[i];
          assert !above(s[k], s[|s| - 1]);
        }
      }
      var r := r0 + [last];
      forall i, j | 0 <= i < j < |r|
        ensures !above(r[i], r[j])
      {
        if j < |r0| {
          assert r[i] == r0[i] && r[j] == r0[j];
        }
      }
    }
  }

  /** Sorting rearranges the elements and leaves no pair out of order. */
  lemma {:induction false} SortPermutesAndOrders<T(!new)>(above: (T, T) -> bool, s: seq<T>)
    requires Consistent(above)
    ensures multiset(SortedBy(above, s)) == multiset(s)
    ensures Ordered(above, SortedBy(above, s))
  {
    if s != [] {
      var init := s[..|s| - 1];
      assert s == init + [s[|s| - 1]];
      SortPermutesAndOrders(above, init);
      InsertPermutes(above, s[|s| - 1], SortedBy(above, init));
      InsertOrders(above, s[|s| - 1], SortedBy(above, init));
    }
  }

  /** A sequence already in order is its own sort: nothing is moved that need not be. */
  lemma {:induction false} SortKeepsOrdered<T>(above: (T, T) -> bool, s: seq<T>)
    requires Ordered(above, s)
    ensures SortedBy(above, s) == s
  {
    if s != [] {
      var init := s[..|s| - 1];
      assert Ordered(above, init);
      SortKeepsOrdered(above, init);
      assert s == init + [s[|s| - 1]];
    }
  }

  lemma SortedBySnoc<T>(above: (T, T) -> bool, s: seq<T>, x: T)
    ensures SortedBy(above, s + [x]) == Insert(above, x, SortedBy(above, s))
  {
    assert (s + [x])[..|s|] == s;
  }

  lemma InsertPastLarger<T>(above: (T, T) -> bool, x: T, prefix: seq<T>, y: T)
    requires above(y, x)
    ensures Insert(above, x, prefix + [y]) == Insert(above, x, prefix) + [y]
  {
    assert (prefix + [y])[..|prefix|] == prefix;
  }

  /** `a.sort(compare)` in place. */
  method SortInPlace<T>(a: array<T>, above: (T, T) -> bool)
    modifies a
    ensures a[..] == SortedBy(above, old(a[..]))
  {
    ghost var input := a[..];
    var i := 0;
    while i < a.Length
      invariant 0 <= i <= a.Length
      invariant a[..i] == SortedBy(above, input[..i])
      invariant a[i..] == input[i..]
    {
      assert input[..i + 1] == input[..i] + [input[i]];
      SortedBySnoc(above, input[..i], input[i]);
      InsertInPlace(a, i, above);
      i := i + 1;
    }
    assert input[..a.Length] == input;
  }

  /** One pass of the sort: move `a[i]` left past every entry that is above it. */
  method InsertInPlace<T>(a: array<T>, i: nat, above: (T, T) -> bool)
    requires i < a.Length
    modifies a
    ensures a[..i + 1] == Insert(above, old(a[i]), old(a[..i]))
    ensures a[i + 1..] == old(a[i + 1..])
  {
    var x := a[i];
    ghost var sorted := a[..i];
    var j := ShiftRight(a, i, x, sorted, above);
    InsertStops(above, x, sorted, j);
    ghost var shifted := a[..];
    a[j] := x;
    Place(shifted, j, i, x);
    assert a[..] == shifted[j := x];
  }

  /** Writing `x` into the gap at `j` of a pass that reaches up to `i`. */
  lemma Place<T>(s: seq<T>, j: nat, i: nat, x: T)
    requires j <= i < |s|
    ensures s[j := x][..i + 1] == s[..j] + [x] + s[j + 1..i + 1]
    ensures s[j := x][i + 1..] == s[i + 1..]
  {
  }

  /**
   * The loop of one pass: shift the entries of `sorted == a[..i]` that are above
   * `x` one place right and return the gap they leave, where `x` belongs.
   */
  method ShiftRight<T>(a: array<T>, i: nat, x: T, ghost sorted: seq<T>, above: (T, T) -> bool) returns (j: nat)
    requires i < a.Length && a[..i] == sorted
    modifies a
    ensures j <= i
    ensures a[..j] == sorted[..j]
    ensures a[j + 1..i + 1] == sorted[j..]
    ensures a[i + 1..] == old(a[i + 1..])
    ensures j > 0 ==> !above(sorted[j - 1], x)
    ensures Insert(above, x, sorted) == Insert(above, x, sorted[..j]) + sorted[j..]
  {
    j := i;
    while j > 0 && above(a[j - 1], x)
      invariant 0 <= j <= i
      invariant a[..j] == sorted[..j]
      invariant a[j + 1..i + 1] == sorted[j..]
      invariant Insert(above, x, sorted) == Insert(above, x, sorted[..j]) + sorted[j..]
      invariant a[i + 1..] == old(a[i + 1..])
    {
      assert sorted[..j] == sorted[..j - 1] + [sorted[j - 1]];
      InsertPastLarger(above, x, sorted[..j - 1], sorted[j - 1]);
      assert sorted[j - 1..] == [sorted[j - 1]] + sorted[j..];
      ghost var before := a[..];
      a[j] := a[j - 1];
      assert a[..] == before[j := before[j - 1]];
      Shift(before, sorted, j, i);
      j := j - 1;
    }
    assert j > 0 ==> a[j - 1] == sorted[j - 1];
  }

  /** Copying entry `j - 1` into `j` moves the gap one place left. */
  lemma Shift<T>(s: seq<T>, sorted: seq<T>, j: nat, i: nat)
    requires 0 < j <= i < |s| && |sorted| == i
    requires s[..j] == sorted[..j] && s[j + 1..i + 1] == sorted[j..]
    ensures s[j := s[j - 1]][..j - 1] == sorted[..j - 1]
    ensures s[j := s[j - 1]][j..i + 1] == sorted[j - 1..]
    ensures s[j := s[j - 1]][i + 1..] == s[i + 1..]
  {
    var t := s[j := s[j - 1]];
    assert t[j..i + 1] == [s[j - 1]] + s[j + 1..i + 1];
    assert s[j - 1] == sorted[j - 1];
  }

  /** Insertion stops at the first entry from the right that is not above `x`. */
  lemma InsertStops<T>(above: (T, T) -> bool, x: T, s: seq<T>, j: nat)
    requires j <= |s|
    requires j > 0 ==> !above(s[j - 1], x)
    ensures Insert(above, x, s[..j]) == s[..j] + [x]
  {
  }
}
