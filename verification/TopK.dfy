/** Top-k selection that agrees with a full stable sort (dmn/backend.py:32-42). */
module TopK {
  import opened Wrappers

  /** The order of a stable sort by descending score: higher scores first, equal scores by position. */
  predicate Before(s: seq<real>, i: nat, j: nat)
    requires i < |s| && j < |s|
  {
    s[i] > s[j] || (s[i] == s[j] && i < j)
  }

  predicate Valid(s: seq<real>, xs: seq<nat>) {
    forall a :: 0 <= a < |xs| ==> xs[a] < |s|
  }

  /** Positions below `n` whose score is above the cutoff, or equal to it, ascending. */
  function Where(s: seq<real>, n: nat, cutoff: real, tied: bool): (r: seq<nat>)
    requires n <= |s|
    ensures Valid(s, r)
  {
    if n == 0 then []
    else
      var rest := Where(s, n - 1, cutoff, tied);
      if (if tied then s[n - 1] == cutoff else s[n - 1] > cutoff) then rest + [n - 1] else rest
  }

  /** Stable insertion: after everything that scores at least as high. */
  function Insert(s: seq<real>, sorted: seq<nat>, x: nat): (r: seq<nat>)
    requires Valid(s, sorted) && x < |s|
    ensures Valid(s, r)
    decreases |sorted|
  {
    if sorted == [] || s[sorted[|sorted| - 1]] >= s[x] then sorted + [x]
    else Insert(s, sorted[..|sorted| - 1], x) + [sorted[|sorted| - 1]]
  }

  /** Candidates in stable descending order. */
  function StableSort(s: seq<real>, xs: seq<nat>): (r: seq<nat>)
    requires Valid(s, xs)
    ensures Valid(s, r)
  {
    if xs == [] then [] else Insert(s, StableSort(s, xs[..|xs| - 1]), xs[|xs| - 1])
  }

  function All(s: seq<real>): (r: seq<nat>)
    ensures Valid(s, r) && |r| == |s|
  {
    seq(|s|, i => i)
  }

  /** What a partition around position `m` of the ascending order puts there. */
  predicate IsNthSmallest(s: seq<real>, m: int, v: real) {
    |s| - |Where(s, |s|, v, false)| - |Where(s, |s|, v, true)| <= m < |s| - |Where(s, |s|, v, false)|
  }

  /** Strict winners, then the earliest ties at the boundary, sorted among themselves. */
  function TopCandidates(s: seq<real>, k: nat, cutoff: real): seq<nat>
    requires 0 < k < |s| ==> IsNthSmallest(s, |s| - k, cutoff)
  {
    if k == 0 || k >= |s| then StableSort(s, All(s))
    else
      var greater := Where(s, |s|, cutoff, false);
      var tied := Where(s, |s|, cutoff, true)[..k - |greater|];
      StableSort(s, greater + tied)
  }

  /*------------------------------------------------------------------ sorting */

  ghost predicate SortedBy(s: seq<real>, xs: seq<nat>)
    requires Valid(s, xs)
  {
    forall a, b :: 0 <= a < b < |xs| ==> Before(s, xs[a], xs[b])
  }

  /** Equal scores appear in position order, and nothing twice. */
  ghost predicate TiesAscend(s: seq<real>, xs: seq<nat>)
    requires Valid(s, xs)
  {
    forall a, b :: 0 <= a < b < |xs| ==> xs[a] != xs[b] && (s[xs[a]] == s[xs[b]] ==> xs[a] < xs[b])
  }

  function Elements(xs: seq<nat>): set<nat> {
    set a | 0 <= a < |xs| :: xs[a]
  }

  lemma ElementsSnoc(xs: seq<nat>, x: nat)
    ensures Elements(xs + [x]) == Elements(xs) + {x}
  {
    forall y ensures y in Elements(xs + [x]) <==> y in Elements(xs) + {x} {
      if y in Elements(xs) {
        var a :| 0 <= a < |xs| && xs[a] == y;
        assert (xs + [x])[a] == y;
      }
      if y == x { assert (xs + [x])[|xs|] == y; }
    }
  }

  lemma {:induction false} InsertElements(s: seq<real>, sorted: seq<nat>, x: nat)
    requires Valid(s, sorted) && x < |s|
    ensures Elements(Insert(s, sorted, x)) == Elements(sorted) + {x} && |Insert(s, sorted, x)| == |sorted| + 1
    decreases |sorted|
  {
    if sorted == [] || s[sorted[|sorted| - 1]] >= s[x] {
      ElementsSnoc(sorted, x);
    } else {
      var front, last := sorted[..|sorted| - 1], sorted[|sorted| - 1];
      InsertElements(s, front, x);
      ElementsSnoc(Insert(s, front, x), last);
      ElementsSnoc(front, last);
      assert front + [last] == sorted;
    }
  }

  lemma {:induction false} InsertSorts(s: seq<real>, sorted: seq<nat>, x: nat)
    requires Valid(s, sorted) && x < |s| && SortedBy(s, sorted)
    requires forall a :: 0 <= a < |sorted| ==> sorted[a] != x && (s[sorted[a]] == s[x] ==> sorted[a] < x)
    ensures SortedBy(s, Insert(s, sorted, x))
    decreases |sorted|
  {
    if sorted == [] {
    } else if s[sorted[|sorted| - 1]] >= s[x] {
      var r, last := Insert(s, sorted, x), sorted[|sorted| - 1];
      forall a, b | 0 <= a < b < |r| ensures Before(s, r[a], r[b]) {
        if b == |sorted| && a < |sorted| - 1 { assert Before(s, sorted[a], last); }
      }
    } else {
      var front, last := sorted[..|sorted| - 1], sorted[|sorted| - 1];
      InsertSorts(s, front, x);
      InsertElements(s, front, x);
      var r := Insert(s, front, x);
      forall a | 0 <= a < |r| ensures Before(s, r[a], last) {
        assert r[a] in Elements(r);
        if r[a] != x {
          var b :| 0 <= b < |front| && front[b] == r[a];
          assert Before(s, sorted[b], sorted[|sorted| - 1]);
        }
      }
    }
  }

  lemma {:induction false} SortElements(s: seq<real>, xs: seq<nat>)
    requires Valid(s, xs)
    ensures Elements(StableSort(s, xs)) == Elements(xs) && |StableSort(s, xs)| == |xs|
  {
    if xs != [] {
      var front, last := xs[..|xs| - 1], xs[|xs| - 1];
      SortElements(s, front);
      InsertElements(s, StableSort(s, front), last);
      ElementsSnoc(front, last);
      assert front + [last] == xs;
    }
  }

  lemma {:induction false} SortSorts(s: seq<real>, xs: seq<nat>)
    requires Valid(s, xs) && TiesAscend(s, xs)
    ensures SortedBy(s, StableSort(s, xs))
  {
    if xs != [] {
      var front, last := xs[..|xs| - 1], xs[|xs| - 1];
      SortSorts(s, front);
      SortElements(s, front);
      var sorted := StableSort(s, front);
      forall a | 0 <= a < |sorted| ensures sorted[a] != last && (s[sorted[a]] == s[last] ==> sorted[a] < last) {
        assert sorted[a] in Elements(sorted);
        var b :| 0 <= b < |front| && front[b] == sorted[a];
        assert xs[b] == sorted[a];
      }
      InsertSorts(s, sorted, last);
    }
  }

  lemma LastIsLast(s: seq<real>, xs: seq<nat>, x: nat)
    requires Valid(s, xs) && SortedBy(s, xs) && x in Elements(xs)
    ensures x < |s| && (x == xs[|xs| - 1] || Before(s, x, xs[|xs| - 1]))
  {
    var a :| 0 <= a < |xs| && xs[a] == x;
  }

  /** A sorted sequence is determined by its elements. */
  lemma {:induction false} SortedIsUnique(s: seq<real>, xs: seq<nat>, ys: seq<nat>)
    requires Valid(s, xs) && Valid(s, ys) && SortedBy(s, xs) && SortedBy(s, ys) && Elements(xs) == Elements(ys) && |xs| == |ys|
    ensures xs == ys
    decreases |xs|
  {
    if xs != [] {
      var n := |xs| - 1;
      var x, y := xs[n], ys[n];
      assert x in Elements(ys) && y in Elements(xs);
      LastIsLast(s, ys, x);
      LastIsLast(s, xs, y);
      FrontElements(s, xs);
      FrontElements(s, ys);
      SortedIsUnique(s, xs[..n], ys[..n]);
    }
  }

  lemma FrontElements(s: seq<real>, xs: seq<nat>)
    requires Valid(s, xs) && SortedBy(s, xs) && xs != []
    ensures Elements(xs[..|xs| - 1]) == Elements(xs) - {xs[|xs| - 1]}
  {
    var front, last := xs[..|xs| - 1], xs[|xs| - 1];
    assert xs == front + [last];
    ElementsSnoc(front, last);
    assert forall a :: 0 <= a < |front| ==> front[a] == xs[a] && Before(s, xs[a], xs[|xs| - 1]);
    assert last !in Elements(front);
  }

  /*------------------------------------------------------------------ the selection */

  /** `Where` lists exactly the positions that qualify, ascending. */
  lemma {:induction false} WhereIs(s: seq<real>, n: nat, cutoff: real, tied: bool)
    requires n <= |s|
    ensures var r := Where(s, n, cutoff, tied);
      && (forall a :: 0 <= a < |r| ==> r[a] < n && if tied then s[r[a]] == cutoff else s[r[a]] > cutoff)
      && (forall i :: 0 <= i < n && (if tied then s[i] == cutoff else s[i] > cutoff) ==> i in r)
  {
    if n > 0 {
      WhereIs(s, n - 1, cutoff, tied);
      var rest, r := Where(s, n - 1, cutoff, tied), Where(s, n, cutoff, tied);
      forall i | 0 <= i < n && (if tied then s[i] == cutoff else s[i] > cutoff) ensures i in r {
        if i < n - 1 { assert i in rest; } else { assert r[|r| - 1] == i; }
      }
    }
  }

  predicate Ascending(xs: seq<nat>) {
    forall a, b :: 0 <= a < b < |xs| ==> xs[a] < xs[b]
  }

  lemma {:induction false} WhereAscends(s: seq<real>, n: nat, cutoff: real, tied: bool)
    requires n <= |s|
    ensures Ascending(Where(s, n, cutoff, tied))
  {
    if n > 0 {
      WhereAscends(s, n - 1, cutoff, tied);
      WhereIs(s, n - 1, cutoff, tied);
    }
  }

  lemma CountAscending(xs: seq<nat>)
    requires Ascending(xs)
    ensures |Elements(xs)| == |xs|
  {
    forall a, b | 0 <= a < b < |xs| ensures xs[a] != xs[b] {
      assert xs[a] < xs[b];
    }
    CountElements(xs);
  }

  /** Everything in `chosen` comes before everything else. */
  ghost predicate Foremost(s: seq<real>, chosen: set<nat>) {
    && (forall i :: i in chosen ==> i < |s|)
    && forall i, j: nat :: i in chosen && j < |s| && j !in chosen ==> Before(s, i, j)
  }

  lemma ForemostIsUnique(s: seq<real>, a: set<nat>, b: set<nat>)
    requires Foremost(s, a) && Foremost(s, b) && |a| == |b|
    ensures a == b
  {
    if a - b == {} {
      forall i | i in a ensures i in b {
        assert i !in b ==> i in a - b;
      }
    } else {
      var i := Member(a - b);
      forall j | j in b ensures j in a {
        assert j !in a ==> Before(s, i, j);
        assert j !in a ==> Before(s, j, i);
      }
    }
    SameSize(a, b);
  }

  lemma SameSize(a: set<nat>, b: set<nat>)
    requires |a| == |b| && (a <= b || b <= a)
    ensures a == b
  {
    assert a <= b ==> b == a + (b - a);
    assert b <= a ==> a == b + (a - b);
  }

  lemma {:induction false} CountElements(xs: seq<nat>)
    requires forall a, b :: 0 <= a < b < |xs| ==> xs[a] != xs[b]
    ensures |Elements(xs)| == |xs|
  {
    if xs == [] {
      assert Elements(xs) == {};
    } else {
      var front, last := xs[..|xs| - 1], xs[|xs| - 1];
      CountElements(front);
      assert xs == front + [last];
      ElementsSnoc(front, last);
      assert last !in Elements(front);
    }
  }

  /** The first `k` of the full order are foremost. */
  lemma PrefixIsForemost(s: seq<real>, full: seq<nat>, k: nat)
    requires Valid(s, full) && SortedBy(s, full) && k <= |full| && Elements(full) == Elements(All(s))
    ensures Foremost(s, Elements(full[..k])) && |Elements(full[..k])| == k
  {
    var chosen := full[..k];
    assert forall a :: 0 <= a < k ==> chosen[a] == full[a] && full[a] in Elements(chosen);
    forall i, j: nat | i in Elements(chosen) && j < |s| && j !in Elements(chosen) ensures Before(s, i, j) {
      assert All(s)[j] == j;
      assert j in Elements(full);
      var a :| 0 <= a < k && chosen[a] == i;
      var b :| 0 <= b < |full| && full[b] == j;
    }
    forall a, b | 0 <= a < b < |chosen| ensures chosen[a] != chosen[b] {
      assert Before(s, full[a], full[b]);
    }
    CountElements(chosen);
  }

  predicate Score(s: seq<real>, xs: seq<nat>, cutoff: real, tied: bool)
    requires Valid(s, xs)
  {
    forall a :: 0 <= a < |xs| ==> if tied then s[xs[a]] == cutoff else s[xs[a]] > cutoff
  }

  lemma {:induction false} WhereScores(s: seq<real>, n: nat, cutoff: real, tied: bool)
    requires n <= |s|
    ensures Score(s, Where(s, n, cutoff, tied), cutoff, tied)
  {
    if n > 0 { WhereScores(s, n - 1, cutoff, tied); }
  }

  lemma JoinTies(s: seq<real>, cutoff: real, g: seq<nat>, t: seq<nat>)
    requires Valid(s, g) && Valid(s, t) && Ascending(g) && Ascending(t)
    requires Score(s, g, cutoff, false) && Score(s, t, cutoff, true)
    ensures Valid(s, g + t) && TiesAscend(s, g + t)
  {
    var xs := g + t;
    forall a, b | 0 <= a < b < |xs| ensures xs[a] != xs[b] && (s[xs[a]] == s[xs[b]] ==> xs[a] < xs[b]) {
      if b < |g| {
        assert g[a] < g[b];
      } else if a >= |g| {
        assert t[a - |g|] < t[b - |g|];
      } else {
        assert s[g[a]] > cutoff && s[t[b - |g|]] == cutoff;
      }
    }
  }

  /** All winners and the earliest ties come before everything else. */
  lemma EarliestAreForemost(s: seq<real>, cutoff: real, g: seq<nat>, t: seq<nat>, m: nat)
    requires Valid(s, g) && Valid(s, t) && Score(s, g, cutoff, false) && Score(s, t, cutoff, true) && Ascending(t) && m <= |t|
    requires forall i: nat :: i < |s| && s[i] > cutoff ==> i in g
    requires forall i: nat :: i < |s| && s[i] == cutoff ==> i in t
    ensures Foremost(s, Elements(g + t[..m]))
  {
    var xs := g + t[..m];
    forall a | 0 <= a < |g| ensures g[a] in Elements(xs) {
      assert xs[a] == g[a];
    }
    forall a | 0 <= a < m ensures t[a] in Elements(xs) {
      assert xs[|g| + a] == t[a];
    }
    forall i, j: nat | i in Elements(xs) && j < |s| && j !in Elements(xs) ensures Before(s, i, j) {
      var a :| 0 <= a < |xs| && xs[a] == i;
      assert s[j] <= cutoff;
      if s[j] == cutoff {
        var b :| 0 <= b < |t| && t[b] == j;
        if a >= |g| { assert t[a - |g|] < t[b]; }
      }
    }
  }

  lemma ChosenIsForemost(s: seq<real>, k: nat, cutoff: real)
    requires 0 < k < |s| && IsNthSmallest(s, |s| - k, cutoff)
    ensures var g, t := Where(s, |s|, cutoff, false), Where(s, |s|, cutoff, true);
      && |g| < k <= |g| + |t|
      && TiesAscend(s, g + t[..k - |g|]) && Foremost(s, Elements(g + t[..k - |g|])) && |Elements(g + t[..k - |g|])| == k
  {
    hide Where, Score, Ascending, TiesAscend, Foremost, Elements;
    var g, t := Where(s, |s|, cutoff, false), Where(s, |s|, cutoff, true);
    WhereIs(s, |s|, cutoff, false);
    WhereIs(s, |s|, cutoff, true);
    WhereAscends(s, |s|, cutoff, false);
    WhereAscends(s, |s|, cutoff, true);
    WhereScores(s, |s|, cutoff, false);
    WhereScores(s, |s|, cutoff, true);
    EarliestAreForemost(s, cutoff, g, t, k - |g|);
    FrontOfTies(s, cutoff, t, k - |g|);
    JoinTies(s, cutoff, g, t[..k - |g|]);
    CountTies(s, g + t[..k - |g|]);
  }

  lemma FrontOfTies(s: seq<real>, cutoff: real, t: seq<nat>, m: nat)
    requires Valid(s, t) && Score(s, t, cutoff, true) && Ascending(t) && m <= |t|
    ensures Valid(s, t[..m]) && Score(s, t[..m], cutoff, true) && Ascending(t[..m])
  {
  }

  lemma CountTies(s: seq<real>, xs: seq<nat>)
    requires Valid(s, xs) && TiesAscend(s, xs)
    ensures |Elements(xs)| == |xs|
  {
    CountElements(xs);
  }

  lemma AllIsAll(s: seq<real>)
    ensures TiesAscend(s, All(s)) && |StableSort(s, All(s))| == |s|
    ensures SortedBy(s, StableSort(s, All(s))) && Elements(StableSort(s, All(s))) == Elements(All(s))
  {
    SortSorts(s, All(s));
    SortElements(s, All(s));
  }

  lemma SortedStaysValid(s: seq<real>, xs: seq<nat>)
    requires Valid(s, xs)
    ensures Valid(s, StableSort(s, xs))
  {
    SortElements(s, xs);
    hide StableSort;
    forall a | 0 <= a < |StableSort(s, xs)| ensures StableSort(s, xs)[a] < |s| {
      assert StableSort(s, xs)[a] in Elements(xs);
    }
  }

  /** A sorted foremost list is the stable sort of any list of the same size of foremost elements. */
  lemma ForemostSorted(s: seq<real>, prefix: seq<nat>, xs: seq<nat>)
    requires Valid(s, prefix) && Valid(s, xs) && SortedBy(s, prefix) && TiesAscend(s, xs) && |prefix| == |xs|
    requires Foremost(s, Elements(prefix)) && Foremost(s, Elements(xs)) && |Elements(prefix)| == |Elements(xs)|
    ensures prefix == StableSort(s, xs)
  {
    hide Foremost, SortedBy, TiesAscend, Elements, Valid, StableSort;
    SortedStaysValid(s, xs);
    SortSorts(s, xs);
    SortElements(s, xs);
    ForemostIsUnique(s, Elements(prefix), Elements(xs));
    SortedIsUnique(s, prefix, StableSort(s, xs));
  }

  /** For every k, ties at the boundary included, the selection is the first k of the full stable sort. */
  lemma TopIsPrefix(s: seq<real>, k: nat, cutoff: real)
    requires 0 < k < |s| ==> IsNthSmallest(s, |s| - k, cutoff)
    ensures |StableSort(s, All(s))| == |s|
    ensures TopCandidates(s, k, cutoff) == if 0 < k <= |s| then StableSort(s, All(s))[..k] else StableSort(s, All(s))
  {
    AllIsAll(s);
    var full := StableSort(s, All(s));
    hide SortedBy, TiesAscend, StableSort, Where, All;
    if 0 < k < |s| {
      var g, t := Where(s, |s|, cutoff, false), Where(s, |s|, cutoff, true);
      ChosenIsForemost(s, k, cutoff);
      PrefixIsForemost(s, full, k);
      ForemostSorted(s, full[..k], g + t[..k - |g|]);
    } else if k == |s| {
      assert full[..k] == full;
    }
  }

  /** Such a cutoff always exists: it is the score of the k-th position of the full order. */
  lemma CutoffExists(s: seq<real>, k: nat)
    requires 0 < k <= |s|
    ensures |StableSort(s, All(s))| == |s|
    ensures IsNthSmallest(s, |s| - k, s[StableSort(s, All(s))[k - 1]])
  {
    hide Where, StableSort, All;
    AllIsAll(s);
    CutoffCounts(s, k, StableSort(s, All(s)));
  }

  lemma CutoffCounts(s: seq<real>, k: nat, full: seq<nat>)
    requires 0 < k <= |s| == |full| && Valid(s, full) && SortedBy(s, full) && Elements(full) == Elements(All(s))
    ensures IsNthSmallest(s, |s| - k, s[full[k - 1]])
  {
    hide Where, SortedBy, All, Elements, Foremost;
    assert full[k - 1] < |s|;
    hide Valid;
    var cutoff := s[full[k - 1]];
    var g, t := Where(s, |s|, cutoff, false), Where(s, |s|, cutoff, true);
    WhereCounts(s, cutoff, false);
    WhereCounts(s, cutoff, true);
    PrefixIsForemost(s, full, k);
    PrefixIsForemost(s, full, k - 1);
    WinnersAreEarlier(s, full, k, g);
    PrefixIsCovered(s, full, k, g, t);
    SubsetSize(Elements(g), Elements(full[..k - 1]));
    SubsetSize(Elements(full[..k]), Elements(g) + Elements(t));
  }

  lemma WhereCounts(s: seq<real>, cutoff: real, tied: bool)
    ensures |Elements(Where(s, |s|, cutoff, tied))| == |Where(s, |s|, cutoff, tied)|
  {
    hide Where;
    WhereAscends(s, |s|, cutoff, tied);
    CountAscending(Where(s, |s|, cutoff, tied));
  }

  lemma NotLater(s: seq<real>, full: seq<nat>, p: nat, a: nat)
    requires Valid(s, full) && SortedBy(s, full) && p < |full| && a < |full|
    ensures a >= p ==> s[full[p]] >= s[full[a]]
    ensures a < p ==> s[full[a]] >= s[full[p]]
  {
    if a > p {
      assert Before(s, full[p], full[a]);
    } else if a < p {
      assert Before(s, full[a], full[p]);
    }
  }

  lemma WinnersAreEarlier(s: seq<real>, full: seq<nat>, k: nat, g: seq<nat>)
    requires Valid(s, full) && SortedBy(s, full) && Elements(full) == Elements(All(s)) && 0 < k <= |full|
    requires g == Where(s, |s|, s[full[k - 1]], false)
    ensures Elements(g) <= Elements(full[..k - 1])
  {
    hide Where, SortedBy, Before;
    WhereIs(s, |s|, s[full[k - 1]], false);
    var cutoff, front := s[full[k - 1]], full[..k - 1];
    assert forall a :: 0 <= a < k - 1 ==> full[a] == front[a] && front[a] in Elements(front);
    forall i | i in Elements(g) ensures i in Elements(front) {
      var b :| 0 <= b < |g| && g[b] == i;
      assert All(s)[i] == i;
      assert i in Elements(full);
      var a :| 0 <= a < |full| && full[a] == i;
      NotLater(s, full, k - 1, a);
    }
  }

  lemma PrefixIsCovered(s: seq<real>, full: seq<nat>, k: nat, g: seq<nat>, t: seq<nat>)
    requires Valid(s, full) && SortedBy(s, full) && 0 < k <= |full|
    requires g == Where(s, |s|, s[full[k - 1]], false) && t == Where(s, |s|, s[full[k - 1]], true)
    ensures Elements(full[..k]) <= Elements(g) + Elements(t)
  {
    hide Where, SortedBy, Elements, Valid;
    forall i | i in Elements(full[..k]) ensures i in Elements(g) + Elements(t) {
      PlacedEarly(full, k, i);
      var a :| 0 <= a < k && full[a] == i;
      EarlyIsChosen(s, full, k, a, g, t);
    }
  }

  lemma PlacedEarly(full: seq<nat>, k: nat, i: nat)
    requires k <= |full| && i in Elements(full[..k])
    ensures exists a :: 0 <= a < k && full[a] == i
  {
    var a :| 0 <= a < k && full[..k][a] == i;
    assert full[a] == i;
  }

  lemma EarlyIsChosen(s: seq<real>, full: seq<nat>, k: nat, a: nat, g: seq<nat>, t: seq<nat>)
    requires Valid(s, full) && SortedBy(s, full) && a < k <= |full|
    requires g == Where(s, |s|, s[full[k - 1]], false) && t == Where(s, |s|, s[full[k - 1]], true)
    ensures full[a] in Elements(g) + Elements(t)
  {
    hide Where, SortedBy;
    WhereIs(s, |s|, s[full[k - 1]], false);
    WhereIs(s, |s|, s[full[k - 1]], true);
    NotLater(s, full, k - 1, a);
    if s[full[a]] > s[full[k - 1]] { assert full[a] in g; } else { assert full[a] in t; }
  }
}
