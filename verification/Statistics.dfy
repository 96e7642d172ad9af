/** Average and median of an array of values
    (src/rqcoresrv/src/webapps/withdrawal_simulator/withdrawal_simulator.ts, sqAverage and sqMedian). */
module Statistics {
  import opened RealArithmetic

  function Sum(s: seq<real>): real {
    if s == [] then 0.0 else Sum(s[..|s| - 1]) + s[|s| - 1]
  }

  function Average(s: seq<real>): real
    requires s != []
  {
    Sum(s) / |s| as real
  }

  function Insert(x: real, s: seq<real>): (r: seq<real>)
    ensures |r| == |s| + 1
  {
    if s == [] || x < s[0] then [x] + s else [s[0]] + Insert(x, s[1..])
  }

  function Sorted(s: seq<real>): (r: seq<real>)
    ensures |r| == |s|
  {
    if s == [] then [] else Insert(s[|s| - 1], Sorted(s[..|s| - 1]))
  }

  function Median(s: seq<real>): real
    requires s != []
  {
    var sorted, i := Sorted(s), |s| / 2;
    if |s| % 2 == 0 then (sorted[i - 1] + sorted[i]) / 2.0 else sorted[i]
  }

  method SqAverage(a: array<real>) returns (avg: real)
    requires a.Length > 0
    ensures avg == Average(a[..])
  {
    var total := 0.0;
    for i := 0 to a.Length
      invariant total == Sum(a[..i])
    {
      assert a[..i + 1][..i] == a[..i];
      total := total + a[i];
    }
    assert a[..a.Length] == a[..];
    avg := total / a.Length as real;
  }

  /** Sorts its argument in place, as the source's Array.sort does, and reads the middle. */
  method SqMedian(a: array<real>) returns (med: real)
    requires a.Length > 0
    modifies a
    ensures a[..] == Sorted(old(a[..]))
    ensures med == Median(old(a[..]))
    ensures 2.0 * med == a[(a.Length - 1) / 2] + a[a.Length / 2]
  {
    SortInPlace(a);
    var i := a.Length / 2;
    if a.Length % 2 == 0 {
      med := (a[i - 1] + a[i]) / 2.0;
    } else {
      med := a[i];
    }
  }

  method SortInPlace(a: array<real>)
    modifies a
    ensures a[..] == Sorted(old(a[..]))
  {
    ghost var original := a[..];
    for i := 0 to a.Length
      invariant a[..i] == Sorted(original[..i])
      invariant a[i..] == original[i..]
    {
      SortedIsOrdered(original[..i]);
      assert original[..i + 1][..i] == original[..i];
      assert a[i] == a[i..][0] == original[i];
      ghost var tail := a[i + 1..];
      assert tail == a[i..][1..];
      InsertAt(a, i);
      assert a[..i + 1] == Insert(original[i], Sorted(original[..i]));
    }
    assert a[..a.Length] == a[..] && original[..a.Length] == original;
  }

  /** Move a[i] down to its place among the ordered elements before it. */
  method InsertAt(a: array<real>, i: nat)
    requires i < a.Length && Ordered(a[..i])
    modifies a
    ensures a[..i + 1] == Insert(old(a[i]), old(a[..i]))
    ensures a[i + 1..] == old(a[i + 1..])
  {
    ghost var s, x := a[..i], a[i];
    var j := i;
    while j > 0 && a[j] < a[j - 1]
      invariant 0 <= j <= i
      invariant a[..i + 1] == s[..j] + [x] + s[j..]
      invariant j < i ==> x < s[j]
      invariant a[i + 1..] == old(a[i + 1..])
    {
      OneDown(s, x, j);
      ghost var before := a[..i + 1];
      assert before[j] == a[j] && before[j - 1] == a[j - 1];
      a[j - 1], a[j] := a[j], a[j - 1];
      assert a[..i + 1] == before[j - 1 := before[j]][j := before[j - 1]];
      j := j - 1;
    }
    assert a[..i + 1][j] == a[j];
    if j > 0 { assert s[j - 1] == a[..i + 1][j - 1] == a[j - 1]; }
    InsertPlace(x, s, j);
  }

  /** Swapping x with the element before it. */
  lemma OneDown(s: seq<real>, x: real, j: nat)
    requires 0 < j <= |s|
    ensures var before := s[..j] + [x] + s[j..];
      && before[j] == x && before[j - 1] == s[j - 1]
      && before[j - 1 := x][j := s[j - 1]] == s[..j - 1] + [x] + s[j - 1..]
  {
  }

  // ---------- Sorting ----------

  ghost predicate Ordered(s: seq<real>) {
    forall i, j :: 0 <= i < j < |s| ==> s[i] <= s[j]
  }

  lemma {:induction false} InsertPlace(x: real, s: seq<real>, j: nat)
    requires j <= |s| && Ordered(s)
    requires j > 0 ==> s[j - 1] <= x
    requires j < |s| ==> x < s[j]
    ensures Insert(x, s) == s[..j] + [x] + s[j..]
  {
    if j > 0 {
      assert s[0] <= s[j - 1];
      InsertPlace(x, s[1..], j - 1);
      PlaceBehindHead(x, s, j);
    }
  }

  lemma PlaceBehindHead(x: real, s: seq<real>, j: nat)
    requires 0 < j <= |s|
    ensures [s[0]] + (s[1..][..j - 1] + [x] + s[1..][j - 1..]) == s[..j] + [x] + s[j..]
  {
  }

  lemma {:induction false} InsertAdds(x: real, s: seq<real>)
    ensures multiset(Insert(x, s)) == multiset(s) + multiset{x}
  {
    if s != [] && s[0] <= x {
      InsertAdds(x, s[1..]);
      assert s == [s[0]] + s[1..];
    }
  }

  lemma {:induction false} InsertKeepsOrder(x: real, s: seq<real>)
    requires Ordered(s)
    ensures Ordered(Insert(x, s))
  {
    if s != [] && s[0] <= x {
      var rest := Insert(x, s[1..]);
      InsertKeepsOrder(x, s[1..]);
      InsertAdds(x, s[1..]);
      forall k | 0 <= k < |rest| ensures s[0] <= rest[k] {
        assert rest[k] in multiset(rest);
      }
      ConsKeepsOrder(s[0], rest);
    } else {
      ConsKeepsOrder(x, s);
    }
  }

  lemma ConsKeepsOrder(x: real, s: seq<real>)
    requires Ordered(s) && forall k :: 0 <= k < |s| ==> x <= s[k]
    ensures Ordered([x] + s)
  {
  }

  /** Sorted gives an ordered permutation. */
  lemma {:induction false} SortedIsOrdered(s: seq<real>)
    ensures Ordered(Sorted(s)) && multiset(Sorted(s)) == multiset(s)
  {
    if s != [] {
      SortedIsOrdered(s[..|s| - 1]);
      InsertKeepsOrder(s[|s| - 1], Sorted(s[..|s| - 1]));
      InsertAdds(s[|s| - 1], Sorted(s[..|s| - 1]));
      assert s == s[..|s| - 1] + [s[|s| - 1]];
    }
  }

  lemma HeadIsLeast(s: seq<real>, x: real)
    requires Ordered(s) && s != []
    ensures x in multiset(s) ==> s[0] <= x
    ensures s[0] in multiset(s)
  {
    if x in multiset(s) {
      var i :| 0 <= i < |s| && s[i] == x;
    }
  }

  lemma RestOf(s: seq<real>)
    requires s != []
    ensures multiset(s[1..]) == multiset(s) - multiset{s[0]}
  {
    assert s == [s[0]] + s[1..];
  }

  lemma {:induction false} OrderedUnique(s: seq<real>, t: seq<real>)
    requires Ordered(s) && Ordered(t) && multiset(s) == multiset(t)
    ensures s == t
  {
    assert |s| == |multiset(s)| == |multiset(t)| == |t|;
    if s != [] {
      SameHeadAndRest(s, t);
      OrderedUnique(s[1..], t[1..]);
      assert s == [s[0]] + s[1..] && t == [t[0]] + t[1..];
    }
  }

  lemma SameHeadAndRest(s: seq<real>, t: seq<real>)
    requires Ordered(s) && Ordered(t) && multiset(s) == multiset(t) && s != [] && t != []
    ensures s[0] == t[0] && multiset(s[1..]) == multiset(t[1..])
  {
    HeadIsLeast(s, t[0]);
    HeadIsLeast(t, s[0]);
    RestOf(s);
    RestOf(t);
  }

  /** Any ordered permutation of s is Sorted(s), whatever sorting algorithm produced it. */
  lemma SortedIsTheOrderedPermutation(s: seq<real>, t: seq<real>)
    ensures t == Sorted(s) <==> Ordered(t) && multiset(t) == multiset(s)
  {
    SortedIsOrdered(s);
    if Ordered(t) && multiset(t) == multiset(s) { OrderedUnique(t, Sorted(s)); }
  }

  /** The median lies halfway between the two middle values, which are one for an odd number of values. */
  lemma MedianIsMiddle(s: seq<real>, t: seq<real>)
    requires s != [] && Ordered(t) && multiset(t) == multiset(s)
    ensures |t| == |s| && 2.0 * Median(s) == t[(|s| - 1) / 2] + t[|s| / 2]
  {
    SortedIsTheOrderedPermutation(s, t);
  }

  /** Sums may be taken piece by piece, and a single value is its own sum. */
  lemma {:induction false} SumConcatenates(s: seq<real>, t: seq<real>, x: real)
    ensures Sum(s + t) == Sum(s) + Sum(t) && Sum([x]) == x
  {
    assert [x][..0] == [];
    if t == [] {
      assert s + t == s;
    } else {
      SumConcatenates(s, t[..|t| - 1], x);
      assert (s + t)[..|s + t| - 1] == s + t[..|t| - 1];
    }
  }

  function Deviations(s: seq<real>, center: real): seq<real> {
    seq(|s|, i requires 0 <= i < |s| => s[i] - center)
  }

  /** The average is the one value from which the deviations cancel out. */
  lemma AverageBalances(s: seq<real>, center: real)
    requires s != []
    ensures Sum(Deviations(s, center)) == 0.0 <==> center == Average(s)
  {
    SumOfDeviations(s, center);
    BalancePoint(Sum(s), |s| as real, center);
  }

  lemma BalancePoint(sum: real, n: real, center: real)
    requires 0.0 < n
    ensures sum - n * center == 0.0 <==> center == sum / n
  {
    var average := sum / n;
    assert average * n == sum;
    if center < average { ProductStrictlyMonotone(center, average, n); }
    if average < center { ProductStrictlyMonotone(average, center, n); }
  }

  lemma {:induction false} SumOfDeviations(s: seq<real>, center: real)
    ensures Sum(Deviations(s, center)) == Sum(s) - |s| as real * center
  {
    if s != [] {
      var n := |s| - 1;
      SumOfDeviations(s[..n], center);
      assert Deviations(s, center)[..n] == Deviations(s[..n], center);
      assert |s| as real * center == n as real * center + center;
    }
  }

  // ---------- Comparison element by element ----------

  ghost predicate AtMost(s: seq<real>, t: seq<real>) {
    |s| == |t| && forall i :: 0 <= i < |s| ==> s[i] <= t[i]
  }

  lemma {:induction false} InsertMonotone(x: real, s: seq<real>, y: real, t: seq<real>)
    requires x <= y && AtMost(s, t) && Ordered(s) && Ordered(t)
    ensures AtMost(Insert(x, s), Insert(y, t))
    decreases |s|
  {
    if s == [] || (x < s[0] && y < t[0]) {
      ConsMonotone(x, s, y, t);
    } else {
      var a, b := s[1..], t[1..];
      if x < s[0] {
        InsertMonotone(s[0], a, y, b);
        InsertHead(s);
        ConsMonotone(x, s, t[0], Insert(y, b));
      } else if y < t[0] {
        InsertMonotone(x, a, t[0], b);
        InsertHead(t);
        ConsMonotone(s[0], Insert(x, a), y, t);
      } else {
        InsertMonotone(x, a, y, b);
        ConsMonotone(s[0], Insert(x, a), t[0], Insert(y, b));
      }
    }
  }

  lemma ConsMonotone(x: real, s: seq<real>, y: real, t: seq<real>)
    requires x <= y && AtMost(s, t)
    ensures AtMost([x] + s, [y] + t)
  {
  }

  /** The head of an ordered sequence, inserted into the rest, gives the sequence back. */
  lemma {:induction false} InsertHead(s: seq<real>)
    requires Ordered(s) && s != []
    ensures Insert(s[0], s[1..]) == s
  {
    assert s == [s[0]] + s[1..];
    if |s| > 1 && s[1] <= s[0] { InsertHead(s[1..]); }
  }

  lemma {:induction false} SortedMonotone(s: seq<real>, t: seq<real>)
    requires AtMost(s, t)
    ensures AtMost(Sorted(s), Sorted(t))
  {
    if s != [] {
      var i := |s| - 1;
      SortedMonotone(s[..i], t[..i]);
      SortedIsOrdered(s[..i]);
      SortedIsOrdered(t[..i]);
      InsertMonotone(s[i], Sorted(s[..i]), t[i], Sorted(t[..i]));
    }
  }

  lemma {:induction false} SumMonotone(s: seq<real>, t: seq<real>)
    requires AtMost(s, t)
    ensures Sum(s) <= Sum(t)
  {
    if s != [] { SumMonotone(s[..|s| - 1], t[..|t| - 1]); }
  }

  /** What is at most another element by element has at most its average and at most its median. */
  lemma AverageAndMedianMonotone(s: seq<real>, t: seq<real>)
    requires AtMost(s, t) && s != []
    ensures Average(s) <= Average(t)
    ensures Median(s) <= Median(t)
  {
    SumMonotone(s, t);
    QuotientMonotone(Sum(s), Sum(t), |s| as real);
    SortedMonotone(s, t);
  }

  lemma QuotientMonotone(x: real, y: real, d: real)
    requires x <= y && 0.0 < d
    ensures x / d <= y / d
  {
  }
}
