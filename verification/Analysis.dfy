/** The arithmetic of the experiment analysis: percentiles and the scan of the sequence column. */
module Analysis {
  import opened Basics

  // -------- percentile --------

  ghost predicate Sorted(s: seq<real>) { forall i, j :: 0 <= i < j < |s| ==> s[i] <= s[j] }

  /** Insertion into a sorted list, and sorting. */
  function Insert(x: real, s: seq<real>): (r: seq<real>)
    ensures multiset(r) == multiset(s) + multiset{x}
  {
    if s == [] || x <= s[0] then [x] + s
    else
      assert s == [s[0]] + s[1..];
      [s[0]] + Insert(x, s[1..])
  }

  function Sort(s: seq<real>): (r: seq<real>)
    ensures multiset(r) == multiset(s) && |r| == |s|
  {
    if s == [] then [] else
    assert s == [s[0]] + s[1..];
    Insert(s[0], Sort(s[1..]))
  }

  lemma SortedBehind(x: real, s: seq<real>)
    requires Sorted(s) && forall j :: 0 <= j < |s| ==> x <= s[j]
    ensures Sorted([x] + s)
  {
  }

  lemma InsertedOrOld(x: real, s: seq<real>, j: nat)
    requires j < |Insert(x, s)|
    ensures Insert(x, s)[j] == x || Insert(x, s)[j] in s
  {
    var r := Insert(x, s);
    assert r[j] in multiset(r);
  }

  lemma {:induction false} InsertSorted(x: real, s: seq<real>)
    requires Sorted(s)
    ensures Sorted(Insert(x, s))
  {
    if s != [] && x > s[0] {
      InsertSorted(x, s[1..]);
      var r := Insert(x, s[1..]);
      forall j | 0 <= j < |r| ensures s[0] <= r[j] {
        InsertedOrOld(x, s[1..], j);
      }
      SortedBehind(s[0], r);
    }
  }

  lemma {:induction false} SortSorted(s: seq<real>)
    ensures Sorted(Sort(s))
  {
    if s != [] {
      SortSorted(s[1..]);
      InsertSorted(s[0], Sort(s[1..]));
    }
  }

  /** The values that are neither None nor NaN. */
  function Proper(values: seq<Option<real>>): (r: seq<real>) {
    if values == [] then [] else (if values[0].Some? then [values[0].value] else []) + Proper(values[1..])
  }

  function Ceil(x: real): int { if x == x.Floor as real then x.Floor else x.Floor + 1 }

  /** The value at rank k of a sorted list: an element, or the interpolation between its neighbours. */
  function AtRank(s: seq<real>, k: real): real
    requires 0.0 <= k <= (|s| - 1) as real
  {
    var lo, hi := k.Floor, Ceil(k);
    if lo == hi then s[lo] else s[lo] * (hi as real - k) + s[hi] * (k - lo as real)
  }

  function Rank(n: nat, p: real): real { (n - 1) as real * p / 100.0 }

  /** percentile over exact numbers; None where the source returns a NaN. */
  function Percentile(values: seq<Option<real>>, p: real): Option<real>
    requires 0.0 <= p <= 100.0
  {
    var s := Sort(Proper(values));
    if s == [] then None
    else if |s| == 1 then Some(s[0])
    else
      RankInRange(|s|, p);
      Some(AtRank(s, Rank(|s|, p)))
  }

  lemma RankInRange(n: nat, p: real)
    requires n > 0 && 0.0 <= p <= 100.0
    ensures 0.0 <= Rank(n, p) <= (n - 1) as real
  {
    assert 0.0 <= (n - 1) as real * p <= (n - 1) as real * 100.0;
  }

  lemma RankMonotone(n: nat, p: real, q: real)
    requires n > 0 && p <= q
    ensures Rank(n, p) <= Rank(n, q)
  {
    assert (n - 1) as real * p <= (n - 1) as real * q;
  }

  lemma Scale(c: real, t: real, u: real)
    requires 0.0 <= c && 0.0 <= t <= u <= 1.0
    ensures 0.0 <= c * t <= c * u <= c
  {
    assert 0.0 <= c * t;
    assert 0.0 <= c * (u - t) == c * u - c * t;
    assert 0.0 <= c * (1.0 - u) == c - c * u;
  }

  function Times(x: real, y: real): real { x * y }

  lemma Weighted(a: real, b: real, t: real)
    ensures a * (1.0 - t) + b * t == a + Times(b - a, t)
  {
    assert a * (1.0 - t) == a - a * t;
    assert (b - a) * t == b * t - a * t;
  }

  lemma Scaled(c: real, t: real, u: real)
    requires 0.0 <= c && 0.0 <= t <= u <= 1.0
    ensures 0.0 <= Times(c, t) <= Times(c, u) <= c
  {
    Scale(c, t, u);
  }

  lemma Ordered(a: real, b: real, x: real, y: real, p: real, q: real)
    requires p == a + x && q == a + y && 0.0 <= x <= y <= b - a
    ensures a <= p <= q <= b
  {
  }

  /** Between two neighbouring elements the interpolation stays between them and grows with the rank. */
  lemma Interpolate(a: real, b: real, t: real, u: real)
    requires a <= b && 0.0 <= t <= u <= 1.0
    ensures a <= a * (1.0 - t) + b * t <= a * (1.0 - u) + b * u <= b
  {
    hide Times;
    Weighted(a, b, t);
    Weighted(a, b, u);
    Scaled(b - a, t, u);
    Ordered(a, b, Times(b - a, t), Times(b - a, u), a * (1.0 - t) + b * t, a * (1.0 - u) + b * u);
  }

  /** One formula for both branches. */
  lemma AtRankForm(s: seq<real>, k: real)
    requires 0.0 <= k <= (|s| - 1) as real
    ensures var lo := k.Floor; var t := k - lo as real;
            && 0 <= lo < |s| && 0.0 <= t < 1.0
            && (t > 0.0 ==> lo + 1 < |s|)
            && AtRank(s, k) == if t == 0.0 then s[lo] else s[lo] * (1.0 - t) + s[lo + 1] * t
  {
  }

  lemma AtRankBetween(s: seq<real>, k: real)
    requires Sorted(s) && 0.0 <= k <= (|s| - 1) as real
    ensures s[k.Floor] <= AtRank(s, k) && (k.Floor + 1 < |s| ==> AtRank(s, k) <= s[k.Floor + 1])
  {
    AtRankForm(s, k);
    var lo := k.Floor;
    var t := k - lo as real;
    if t > 0.0 { Interpolate(s[lo], s[lo + 1], t, t); }
  }

  lemma AtRankMonotone(s: seq<real>, k: real, l: real)
    requires Sorted(s) && 0.0 <= k <= l <= (|s| - 1) as real
    ensures AtRank(s, k) <= AtRank(s, l)
  {
    AtRankBetween(s, k);
    AtRankBetween(s, l);
    AtRankForm(s, k);
    AtRankForm(s, l);
    var lo := k.Floor;
    if l.Floor == lo {
      var t, u := k - lo as real, l - lo as real;
      if u > 0.0 { Interpolate(s[lo], s[lo + 1], t, u); }
    } else {
      assert s[lo + 1] <= s[l.Floor];
    }
  }

  lemma RanksMonotone(s: seq<real>, p: real, q: real)
    requires Sorted(s) && |s| > 1 && 0.0 <= p <= q <= 100.0
    ensures 0.0 <= Rank(|s|, p) <= Rank(|s|, q) <= (|s| - 1) as real
    ensures s[0] <= AtRank(s, Rank(|s|, p)) <= AtRank(s, Rank(|s|, q)) <= s[|s| - 1]
  {
    hide AtRank;
    RankInRange(|s|, p);
    RankInRange(|s|, q);
    RankMonotone(|s|, p, q);
    hide Rank;
    AtRankMonotone(s, Rank(|s|, p), Rank(|s|, q));
    AtRankMonotone(s, 0.0, Rank(|s|, p));
    AtRankMonotone(s, Rank(|s|, q), (|s| - 1) as real);
    Ends(s);
  }

  lemma LeastAndGreatest(values: seq<real>, x: real)
    requires x in values
    ensures var s := Sort(values); s[0] <= x <= s[|s| - 1]
  {
    hide Sort;
    SortSorted(values);
    var s := Sort(values);
    SameElement(values, x);
    var i :| 0 <= i < |s| && s[i] == x;
  }

  lemma SameElement(values: seq<real>, x: real)
    requires x in values
    ensures x in Sort(values)
  {
    hide Sorted;
    assert x in multiset(Sort(values));
  }

  /** Percentiles grow with p, across the exact and the interpolating branch. */
  lemma PercentileMonotone(values: seq<Option<real>>, p: real, q: real)
    requires 0.0 <= p <= q <= 100.0 && Proper(values) != []
    ensures Percentile(values, p).Some? && Percentile(values, q).Some?
    ensures Percentile(values, p).value <= Percentile(values, q).value
  {
    hide AtRank, Rank, Sort, Sorted;
    var s := Sort(Proper(values));
    SortSorted(Proper(values));
    if |s| > 1 { RanksMonotone(s, p, q); }
  }

  /** They run from the least of the values at 0 to the greatest at 100. */
  lemma PercentileBounds(values: seq<Option<real>>, x: real)
    requires x in Proper(values)
    ensures Percentile(values, 0.0).Some? && Percentile(values, 0.0).value in Proper(values)
    ensures Percentile(values, 100.0).Some? && Percentile(values, 100.0).value in Proper(values)
    ensures Percentile(values, 0.0).value <= x <= Percentile(values, 100.0).value
  {
    hide AtRank, Rank, Sort;
    var s := Sort(Proper(values));
    LeastAndGreatest(Proper(values), x);
    assert s[0] in multiset(Proper(values)) && s[|s| - 1] in multiset(Proper(values));
    if |s| > 1 { Ends(s); }
  }

  lemma Ends(s: seq<real>)
    requires |s| > 1
    ensures Rank(|s|, 0.0) == 0.0 && Rank(|s|, 100.0) == (|s| - 1) as real
    ensures 0.0 <= (|s| - 1) as real && AtRank(s, 0.0) == s[0] && AtRank(s, (|s| - 1) as real) == s[|s| - 1]
  {
  }

  lemma {:induction false} ProperCounts(values: seq<Option<real>>, x: real)
    ensures multiset(Proper(values))[x] == multiset(values)[Some(x)]
  {
    if values != [] {
      ProperCounts(values[1..], x);
      assert values == [values[0]] + values[1..];
    }
  }

  /** Two sorted lists of the same elements are the same. */
  lemma {:induction false} SortedUnique(s: seq<real>, t: seq<real>)
    requires Sorted(s) && Sorted(t) && multiset(s) == multiset(t)
    ensures s == t
  {
    SameLength(s, t);
    if s != [] {
      SameFirst(s, t);
      TailsAgree(s, t);
      SortedUnique(s[1..], t[1..]);
      assert s == [s[0]] + s[1..] && t == [t[0]] + t[1..];
    }
  }

  lemma SameFirst(s: seq<real>, t: seq<real>)
    requires Sorted(s) && Sorted(t) && multiset(s) == multiset(t) && s != [] && t != []
    ensures s[0] == t[0]
  {
    assert s[0] in multiset(t) && t[0] in multiset(s);
  }

  lemma TailsAgree(s: seq<real>, t: seq<real>)
    requires multiset(s) == multiset(t) && s != [] && t != [] && s[0] == t[0]
    ensures multiset(s[1..]) == multiset(t[1..])
  {
    assert s == [s[0]] + s[1..] && t == [s[0]] + t[1..];
    forall x ensures multiset(s[1..])[x] == multiset(t[1..])[x] {
      assert multiset(s)[x] == multiset{s[0]}[x] + multiset(s[1..])[x];
      assert multiset(t)[x] == multiset{s[0]}[x] + multiset(t[1..])[x];
    }
  }

  lemma SameLength(s: seq<real>, t: seq<real>)
    requires multiset(s) == multiset(t)
    ensures |s| == |t|
  {
    assert |multiset(s)| == |s| && |multiset(t)| == |t|;
  }

  /** The percentile by linear interpolation: whatever sorted list s of the proper values is taken, with p percent of
      the way from its first to its last index ending between the indices i and i + 1, at the fraction t. */
  lemma PercentileInterpolates(values: seq<Option<real>>, p: real, s: seq<real>, i: nat, t: real)
    requires 0.0 <= p <= 100.0 && 0.0 <= t <= 1.0 && i + 1 < |s|
    requires Sorted(s) && forall x :: multiset(s)[x] == multiset(values)[Some(x)]
    requires 100.0 * (i as real + t) == (|s| - 1) as real * p
    ensures Percentile(values, p) == Some(s[i] * (1.0 - t) + s[i + 1] * t)
  {
    hide Sort, Proper, Sorted;
    SameList(values, s);
    var k := Rank(|s|, p);
    RankInRange(|s|, p);
    assert k == i as real + t;
    hide Rank;
    Interpolated(s, i, t);
    hide AtRank;
  }

  lemma SameList(values: seq<Option<real>>, s: seq<real>)
    requires Sorted(s) && forall x :: multiset(s)[x] == multiset(values)[Some(x)]
    ensures Sort(Proper(values)) == s
  {
    hide Sort, Proper, Sorted;
    SortSorted(Proper(values));
    forall x: real ensures multiset(s)[x] == multiset(Proper(values))[x] { ProperCounts(values, x); }
    assert multiset(s) == multiset(Sort(Proper(values)));
    SortedUnique(Sort(Proper(values)), s);
  }

  lemma Interpolated(s: seq<real>, i: nat, t: real)
    requires i + 1 < |s| && 0.0 <= t <= 1.0
    ensures var k := i as real + t; k <= (|s| - 1) as real && AtRank(s, k) == s[i] * (1.0 - t) + s[i + 1] * t
  {
    if t < 1.0 {
      assert (i as real + t).Floor == i;
    } else {
      assert (i as real + t).Floor == i + 1;
    }
  }

  /** Without proper values there is no percentile, and a single one is every percentile. */
  lemma PercentileOfFew(values: seq<Option<real>>, p: real, x: real)
    requires 0.0 <= p <= 100.0
    ensures Percentile(values, p) == None <==> forall y :: Some(y) !in values
    ensures (forall y :: multiset(values)[Some(y)] == multiset{x}[y]) ==> Percentile(values, p) == Some(x)
  {
    var s := Proper(values);
    assert |Sort(s)| == |s|;
    hide Sort, Proper, Sorted, AtRank, Rank;
    forall y ensures Some(y) in values <==> y in s {
      ProperCounts(values, y);
      assert y in multiset(s) <==> Some(y) in multiset(values);
    }
    assert s != [] ==> Some(s[0]) in values;
    if forall y :: multiset(values)[Some(y)] == multiset{x}[y] { SingleValue(values, x); }
  }

  lemma SingleValue(values: seq<Option<real>>, x: real)
    requires forall y :: multiset(values)[Some(y)] == multiset{x}[y]
    ensures Sort(Proper(values)) == [x]
  {
    hide Sort, Proper;
    assert multiset([x]) == multiset{x};
    SameList(values, [x]);
  }

  /** The median of two values is their mean, and what is not a value does not count. */
  lemma MedianOfTwo()
    ensures Percentile([Some(1.0), None, Some(2.0)], 50.0) == Some(1.5)
  {
    ProperOfThree([Some(1.0), None, Some(2.0)], 1.0, 2.0);
    hide Percentile, Proper;
    MeanOfTwo([Some(1.0), None, Some(2.0)], [1.0, 2.0]);
  }

  lemma MeanOfTwo(values: seq<Option<real>>, s: seq<real>)
    requires Proper(values) == s && |s| == 2 && s[0] <= s[1]
    ensures Percentile(values, 50.0).Some? && Percentile(values, 50.0).value == s[0] * (1.0 - 0.5) + s[1] * 0.5
  {
    hide Proper, Percentile;
    CountsOfProper(values, s);
    assert Sorted(s) && 100.0 * (0.0 + 0.5) == 1.0 * 50.0;
    hide Sorted;
    PercentileInterpolates(values, 50.0, s, 0, 0.5);
  }

  lemma CountsOfProper(values: seq<Option<real>>, s: seq<real>)
    requires Proper(values) == s
    ensures forall x :: multiset(s)[x] == multiset(values)[Some(x)]
  {
    hide Proper;
    forall x: real ensures multiset(s)[x] == multiset(values)[Some(x)] { ProperCounts(values, x); }
  }

  lemma ProperOfThree(values: seq<Option<real>>, a: real, b: real)
    requires values == [Some(a), None, Some(b)]
    ensures Proper(values) == [a, b]
  {
    assert values[1..] == [None, Some(b)] && values[1..][1..] == [Some(b)] && values[1..][1..][1..] == [];
    assert Proper([Some(b)]) == [b] && Proper([None, Some(b)]) == [b];
  }

  // -------- the sequence column --------

  /** The distinct values of the column, as COUNT(DISTINCT seq) sees them. */
  function Distinct(col: seq<Option<int>>): (r: set<int>) {
    set i | 0 <= i < |col| && col[i].Some? :: col[i].value
  }

  function Values(col: seq<Option<int>>): (r: seq<int>)
    ensures |r| <= |col|
  {
    if col == [] then []
    else Values(col[..|col| - 1]) + if col[|col| - 1].Some? then [col[|col| - 1].value] else []
  }

  /** The neighbours that are equal, and those that decrease. */
  function Equals(s: seq<int>): nat {
    if |s| < 2 then 0 else Equals(s[..|s| - 1]) + if s[|s| - 1] == s[|s| - 2] then 1 else 0
  }

  function Decreases(s: seq<int>): nat {
    if |s| < 2 then 0 else Decreases(s[..|s| - 1]) + if s[|s| - 1] < s[|s| - 2] then 1 else 0
  }

  lemma Snoc(s: seq<int>, x: int)
    ensures Decreases(s + [x]) == Decreases(s) + if s != [] && x < s[|s| - 1] then 1 else 0
    ensures Equals(s + [x]) == Equals(s) + if s != [] && x == s[|s| - 1] then 1 else 0
  {
    assert (s + [x])[..|s|] == s;
  }

  /** The values of a column in pieces. */
  lemma {:induction false} ValuesJoin(a: seq<Option<int>>, b: seq<Option<int>>)
    ensures Values(a + b) == Values(a) + Values(b)
  {
    if b == [] {
      assert a + b == a;
    } else {
      var n := |b| - 1;
      ValuesJoin(a, b[..n]);
      InitOfSum(a, b);
      ValuesInit(a + b);
      ValuesInit(b);
      hide Values;
      SumsAssociate(Values(a), Values(b[..n]), if b[n].Some? then [b[n].value] else []);
    }
  }

  lemma ValuesInit(col: seq<Option<int>>)
    requires col != []
    ensures var n := |col| - 1; Values(col) == Values(col[..n]) + if col[n].Some? then [col[n].value] else []
  {
  }

  /** One value is itself, and a null is none. */
  lemma OneValue(x: Option<int>)
    ensures Values([x]) == if x.Some? then [x.value] else []
  {
    assert [x][..0] == [];
  }

  /** The places whose value equals the one before, and those where it is smaller. */
  function EqualPlaces(s: seq<int>): set<nat> { set i: nat | i < |s| && EqualAt(s, i) }

  function SmallerPlaces(s: seq<int>): set<nat> { set i: nat | i < |s| && SmallerAt(s, i) }

  predicate EqualAt(s: seq<int>, i: nat) { 1 <= i < |s| && s[i] == s[i - 1] }

  predicate SmallerAt(s: seq<int>, i: nat) { 1 <= i < |s| && s[i] < s[i - 1] }

  lemma EqualPlacesNext(s: seq<int>)
    ensures |s| < 2 ==> EqualPlaces(s) == {}
    ensures |s| >= 2 ==>
      EqualPlaces(s) == EqualPlaces(s[..|s| - 1]) + if EqualAt(s, |s| - 1) then {|s| - 1} else {}
  {
    if |s| >= 2 {
      assert forall i: nat :: i < |s| - 1 ==> EqualAt(s[..|s| - 1], i) == EqualAt(s, i);
      hide EqualAt;
    }
  }

  /** The first counter counts the places with equal neighbours. */
  lemma {:induction false} EqualsCountsPlaces(s: seq<int>)
    ensures Equals(s) == |EqualPlaces(s)|
  {
    EqualPlacesNext(s);
    if |s| >= 2 {
      EqualsCountsPlaces(s[..|s| - 1]);
      assert |s| - 1 !in EqualPlaces(s[..|s| - 1]);
      hide EqualPlaces;
    }
  }

  lemma SmallerPlacesNext(s: seq<int>)
    ensures |s| < 2 ==> SmallerPlaces(s) == {}
    ensures |s| >= 2 ==>
      SmallerPlaces(s) == SmallerPlaces(s[..|s| - 1]) + if SmallerAt(s, |s| - 1) then {|s| - 1} else {}
  {
    if |s| >= 2 {
      assert forall i: nat :: i < |s| - 1 ==> SmallerAt(s[..|s| - 1], i) == SmallerAt(s, i);
      hide SmallerAt;
    }
  }

  /** The second one counts those with a decrease. */
  lemma {:induction false} DecreasesCountsPlaces(s: seq<int>)
    ensures Decreases(s) == |SmallerPlaces(s)|
  {
    SmallerPlacesNext(s);
    if |s| >= 2 {
      DecreasesCountsPlaces(s[..|s| - 1]);
      assert |s| - 1 !in SmallerPlaces(s[..|s| - 1]);
      hide SmallerPlaces;
    }
  }

  lemma ValuesNext(col: seq<Option<int>>, i: nat)
    requires i < |col|
    ensures Values(col[..i + 1]) == if col[i].Some? then Values(col[..i]) + [col[i].value] else Values(col[..i])
  {
    assert col[..i + 1][..i] == col[..i];
  }

  /** What the loop has computed from the values vs. */
  ghost predicate Scanned(vs: seq<int>, decrease: nat, equal: nat, prev: Option<int>) {
    && decrease == Decreases(vs) && equal == Equals(vs)
    && prev == if vs == [] then None else Some(vs[|vs| - 1])
  }

  lemma ScannedNext(vs: seq<int>, x: int, decrease: nat, equal: nat, prev: Option<int>)
    requires Scanned(vs, decrease, equal, prev)
    ensures Scanned(vs + [x], if prev.Some? && x < prev.value then decrease + 1 else decrease,
                    if prev.Some? && x == prev.value then equal + 1 else equal, Some(x))
  {
    hide Decreases, Equals;
    Snoc(vs, x);
  }

  lemma NothingScanned()
    ensures Values([]) == [] && Scanned([], 0, 0, None)
  {
  }

  /** The loop of analyze_db over the rows in order of reception; nulls are skipped. */
  method Scan(col: seq<Option<int>>) returns (decrease: nat, equal: nat)
    ensures decrease == Decreases(Values(col)) && equal == Equals(Values(col))
  {
    NothingScanned();
    hide Values, Decreases, Equals;
    decrease, equal := 0, 0;
    var prev: Option<int> := None;
    for i := 0 to |col|
      invariant Scanned(Values(col[..i]), decrease, equal, prev)
    {
      hide Scanned;
      ValuesNext(col, i);
      if col[i].None? { continue; }
      var seqNo := col[i].value;
      ScannedNext(Values(col[..i]), seqNo, decrease, equal, prev);
      if prev.Some? {
        if seqNo < prev.value { decrease := decrease + 1; }
        if seqNo == prev.value { equal := equal + 1; }
      }
      prev := Some(seqNo);
    }
    assert col[..|col|] == col;
  }

  /** seq_duplicate_rows, from the row count and the distinct count. */
  function DuplicateRows(col: seq<Option<int>>): int {
    var d := |col| - |Distinct(col)|;
    if d > 0 then d else 0
  }

  function Nulls(col: seq<Option<int>>): nat { |col| - |Values(col)| }

  /** The places at which a value comes back after another one. */
  function Returns(s: seq<int>): nat {
    if |s| < 2 then 0
    else Returns(s[..|s| - 1]) + if s[|s| - 1] != s[|s| - 2] && s[|s| - 1] in s[..|s| - 1] then 1 else 0
  }

  function Elements(s: seq<int>): set<int> { set x | x in s }

  lemma {:induction false} CountedOnce(s: seq<int>)
    ensures |s| == |Elements(s)| + Equals(s) + Returns(s)
  {
    if |s| == 1 {
      assert Elements(s) == {s[0]};
    } else if |s| > 1 {
      var t, x := s[..|s| - 1], s[|s| - 1];
      CountedOnce(t);
      assert s == t + [x];
      assert Elements(s) == Elements(t) + {x};
      assert x in t <==> x in Elements(t);
      assert s[|s| - 2] == t[|t| - 1];
    }
  }

  lemma SnocDistinct(col: seq<Option<int>>, x: Option<int>)
    ensures Distinct(col + [x]) == Distinct(col) + if x.Some? then {x.value} else {}
  {
    var all := col + [x];
    forall v | v in Distinct(col) ensures v in Distinct(all) {
      var i :| 0 <= i < |col| && col[i].Some? && col[i].value == v;
      assert all[i] == col[i];
    }
    assert all[|col|] == x;
  }

  lemma {:induction false} SameElements(col: seq<Option<int>>)
    ensures Distinct(col) == Elements(Values(col))
  {
    if col != [] {
      var init, x := col[..|col| - 1], col[|col| - 1];
      SameElements(init);
      assert col == init + [x];
      SnocDistinct(init, x);
      assert Elements(Values(col)) == Elements(Values(init)) + if x.Some? then {x.value} else {};
    }
  }

  /** The scan accounts for the distinct count: the duplicate rows are the null rows, the equal neighbours and the
      values that come back. */
  lemma DuplicatesExplained(col: seq<Option<int>>)
    ensures DuplicateRows(col) == Nulls(col) + Equals(Values(col)) + Returns(Values(col))
  {
    hide Distinct, Elements, Values;
    SameElements(col);
    CountedOnce(Values(col));
  }

  lemma {:induction false} NoDecreaseNoReturn(s: seq<int>)
    requires Decreases(s) == 0
    ensures Returns(s) == 0 && forall i :: 0 <= i < |s| ==> s[i] <= s[|s| - 1]
  {
    if |s| > 1 {
      NoDecreaseNoReturn(s[..|s| - 1]);
      assert s[..|s| - 1][|s| - 2] == s[|s| - 2];
      assert forall i :: 0 <= i < |s| - 1 ==> s[i] == s[..|s| - 1][i] <= s[|s| - 2];
    }
  }

  /** For a column without nulls the duplicate rows are never fewer than the equal neighbours; both agree exactly when
      no value comes back after another one, in particular when the scan found no decrease. */
  lemma ScanAgreesWithDistinctCount(col: seq<Option<int>>)
    requires forall i :: 0 <= i < |col| ==> col[i].Some?
    ensures DuplicateRows(col) >= Equals(Values(col))
    ensures DuplicateRows(col) == Equals(Values(col)) <==> Returns(Values(col)) == 0
    ensures Decreases(Values(col)) == 0 ==> DuplicateRows(col) == Equals(Values(col))
  {
    hide DuplicateRows, Equals, Returns, Decreases;
    DuplicatesExplained(col);
    NoNulls(col);
    if Decreases(Values(col)) == 0 { NoDecreaseNoReturn(Values(col)); }
  }

  lemma {:induction false} NoNulls(col: seq<Option<int>>)
    requires forall i :: 0 <= i < |col| ==> col[i].Some?
    ensures |Values(col)| == |col|
  {
    if col != [] { NoNulls(col[..|col| - 1]); }
  }

  /** The two row counts may agree although the scan found a decrease. */
  lemma DecreaseIsNotNecessary() returns (col: seq<Option<int>>)
    ensures forall i :: 0 <= i < |col| ==> col[i].Some?
    ensures Decreases(Values(col)) > 0 && DuplicateRows(col) == Equals(Values(col))
  {
    col := [Some(2), Some(1)];
    ValuesNext(col, 0);
    ValuesNext(col, 1);
    assert col[..2] == col && Values(col) == [2, 1];
    assert Returns([2, 1]) == 0;
    ScanAgreesWithDistinctCount(col);
  }
}
