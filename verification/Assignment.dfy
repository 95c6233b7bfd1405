/** Minimum-cost assignment on a rectangular cost matrix, as used by the tracker and by the
    rider associator, and what padding forbidden pairs with one large cost buys.

    The solver itself is a library call in the program.  Here it is a function value, and
    `Solves` is all that is known about it: it returns a cheapest one-to-one assignment that
    covers the smaller side of the matrix. */
module Assignment {

  type Matrix = seq<seq<real>>

  datatype Pair = Pair(row: nat, col: nat)

  type Solver = Matrix -> seq<Pair>

  ghost predicate Rectangular(c: Matrix) {
    && |c| > 0
    && forall i | 0 <= i < |c| :: |c[i]| == |c[0]|
  }

  function Smaller(a: nat, b: nat): nat {
    if a <= b then a else b
  }

  /** A one-to-one sequence of in-range pairs. */
  ghost predicate Matching(m: seq<Pair>, rows: nat, cols: nat) {
    && (forall k | 0 <= k < |m| :: m[k].row < rows && m[k].col < cols)
    && (forall i, j | 0 <= i < j < |m| :: m[i].row != m[j].row && m[i].col != m[j].col)
  }

  ghost predicate MatchingIn(m: seq<Pair>, c: Matrix) {
    Rectangular(c) && Matching(m, |c|, |c[0]|)
  }

  /** The entry a pair selects. */
  function At(c: Matrix, p: Pair): real {
    if p.row < |c| && p.col < |c[p.row]| then c[p.row][p.col] else 0.0
  }

  function Total(m: seq<Pair>, c: Matrix): real {
    if m == [] then 0.0 else Total(m[..|m| - 1], c) + At(c, m[|m| - 1])
  }

  /** A full assignment covers the smaller side. */
  ghost predicate FullIn(m: seq<Pair>, c: Matrix) {
    MatchingIn(m, c) && |m| == Smaller(|c|, |c[0]|)
  }

  ghost predicate Optimal(m: seq<Pair>, c: Matrix) {
    FullIn(m, c) && forall b | FullIn(b, c) :: Total(m, c) <= Total(b, c)
  }

  ghost predicate Solves(solve: Solver) {
    forall c | Rectangular(c) :: Optimal(solve(c), c)
  }

  /** k copies of x, added up. */
  function Times(k: nat, x: real): real {
    if k == 0 then 0.0 else Times(k - 1, x) + x
  }

  lemma {:induction false} TimesIsProduct(k: nat, x: real)
    ensures Times(k, x) == k as real * x
  {
    if k > 0 {
      TimesIsProduct(k - 1, x);
      assert k as real * x == (k - 1) as real * x + x;
    }
  }

  // ---------------------------------------------------------------- padded matrices

  /** Every entry is either the padding cost or a genuine cost between 0 and `worst`. */
  ghost predicate Padded(c: Matrix, padding: real, worst: real) {
    && Rectangular(c)
    && 0.0 <= worst < padding
    && forall i, j | 0 <= i < |c| && 0 <= j < |c[0]| :: 0.0 <= c[i][j] <= worst || c[i][j] == padding
  }

  /** Only genuine pairs. */
  ghost predicate Genuine(m: seq<Pair>, c: Matrix, padding: real) {
    MatchingIn(m, c) && forall k | 0 <= k < |m| :: At(c, m[k]) < padding
  }

  /** What the program keeps of a solution: the pairs below the padding cost, in order. */
  function Kept(m: seq<Pair>, c: Matrix, padding: real): seq<Pair> {
    if m == [] then []
    else
      var last := m[|m| - 1];
      var front := Kept(m[..|m| - 1], c, padding);
      if At(c, last) < padding then front + [last] else front
  }

  lemma {:induction false} KeptMembers(m: seq<Pair>, c: Matrix, padding: real)
    ensures forall p :: p in Kept(m, c, padding) <==> p in m && At(c, p) < padding
  {
    if m != [] {
      KeptMembers(m[..|m| - 1], c, padding);
      assert m == m[..|m| - 1] + [m[|m| - 1]];
    }
  }

  ghost predicate LargestAndCheapest(m: seq<Pair>, c: Matrix, padding: real) {
    && Genuine(m, c, padding)
    && forall b | Genuine(b, c, padding) :: |b| <= |m| && (|b| == |m| ==> Total(m, c) <= Total(b, c))
  }

  /** The theorem behind the big padding cost: if the whole smaller side at the worst genuine
      cost is still cheaper than one padded pair, the genuine part of an optimal solution is a
      largest genuine matching, and a cheapest one among the largest. */
  lemma PaddingGivesLargestAndCheapest(a: seq<Pair>, c: Matrix, padding: real, worst: real)
    requires Padded(c, padding, worst)
    requires Smaller(|c|, |c[0]|) as real * worst < padding
    requires Optimal(a, c)
    ensures LargestAndCheapest(Kept(a, c, padding), c, padding)
  {
    TimesIsProduct(Smaller(|c|, |c[0]|), worst);
    KeptBeatsAll(a, c, padding, worst);
  }

  lemma KeptBeatsAll(a: seq<Pair>, c: Matrix, padding: real, worst: real)
    requires Padded(c, padding, worst)
    requires Times(Smaller(|c|, |c[0]|), worst) < padding
    requires Optimal(a, c)
    ensures LargestAndCheapest(Kept(a, c, padding), c, padding)
  {
    KeptMatching(a, c, padding, worst);
    var kept := Kept(a, c, padding);
    forall b | Genuine(b, c, padding)
      ensures |b| <= |kept| && (|b| == |kept| ==> Total(kept, c) <= Total(b, c))
    {
      KeptBeats(a, b, c, padding, worst);
    }
  }

  lemma KeptBeats(a: seq<Pair>, b: seq<Pair>, c: Matrix, padding: real, worst: real)
    requires Padded(c, padding, worst)
    requires Times(Smaller(|c|, |c[0]|), worst) < padding
    requires Optimal(a, c)
    requires Genuine(b, c, padding)
    ensures |b| <= |Kept(a, c, padding)|
    ensures |b| == |Kept(a, c, padding)| ==> Total(Kept(a, c, padding), c) <= Total(b, c)
  {
    var kept := Kept(a, c, padding);
    KeptMatching(a, c, padding, worst);
    MatchingFits(b, |c|, |c[0]|);
    var full := Complete(b, c, padding, worst);
    GenuineTotal(b, c, padding, worst);
    GenuineTotal(kept, c, padding, worst);
    Tradeoff(Smaller(|c|, |c[0]|), |kept|, |b|, Total(kept, c), Total(b, c), padding, worst);
  }

  /** The arithmetic of trading pairs for padding. */
  lemma Tradeoff(n: nat, k: nat, l: nat, costK: real, costL: real, padding: real, worst: real)
    requires k <= n && l <= n && 0.0 <= worst < padding && Times(n, worst) < padding
    requires 0.0 <= costK && costL <= Times(l, worst)
    requires costK + Times(n - k, padding) <= costL + Times(n - l, padding)
    ensures l <= k && (l == k ==> costK <= costL)
  {
    if l > k {
      TimesGrows(n - l, n - k - 1, padding);
      TimesGrows(l, n, worst);
    }
  }

  lemma {:induction false} TimesGrows(k: nat, l: nat, x: real)
    requires k <= l && 0.0 <= x
    ensures Times(k, x) <= Times(l, x)
  {
    if k < l { TimesGrows(k, l - 1, x); }
  }

  /** p shares neither row nor column with m. */
  ghost predicate Fresh(p: Pair, m: seq<Pair>) {
    forall k | 0 <= k < |m| :: m[k].row != p.row && m[k].col != p.col
  }

  lemma {:induction false} KeptFresh(m: seq<Pair>, c: Matrix, padding: real, p: Pair)
    requires Fresh(p, m)
    ensures Fresh(p, Kept(m, c, padding))
  {
    if m != [] { KeptFresh(m[..|m| - 1], c, padding, p); }
  }

  /** The genuine part of a matching is a matching, and the rest is pure padding. */
  lemma KeptMatching(a: seq<Pair>, c: Matrix, padding: real, worst: real)
    requires Padded(c, padding, worst) && MatchingIn(a, c)
    ensures |Kept(a, c, padding)| <= |a| && Genuine(Kept(a, c, padding), c, padding)
    ensures Total(a, c) == Total(Kept(a, c, padding), c) + Times(|a| - |Kept(a, c, padding)|, padding)
  {
    KeptGenuine(a, c, padding);
    KeptTotal(a, c, padding, worst);
  }

  lemma {:induction false} KeptGenuine(a: seq<Pair>, c: Matrix, padding: real)
    requires MatchingIn(a, c)
    ensures Genuine(Kept(a, c, padding), c, padding)
  {
    if a != [] {
      var front, last := a[..|a| - 1], a[|a| - 1];
      KeptGenuine(front, c, padding);
      KeptFresh(front, c, padding, last);
      if At(c, last) < padding {
        Snoc(Kept(front, c, padding), last, c);
      }
    }
  }

  lemma {:induction false} KeptTotal(a: seq<Pair>, c: Matrix, padding: real, worst: real)
    requires Padded(c, padding, worst)
    requires forall k | 0 <= k < |a| :: a[k].row < |c| && a[k].col < |c[0]|
    ensures |Kept(a, c, padding)| <= |a|
    ensures Total(a, c) == Total(Kept(a, c, padding), c) + Times(|a| - |Kept(a, c, padding)|, padding)
  {
    if a != [] {
      var front, last := a[..|a| - 1], a[|a| - 1];
      KeptTotal(front, c, padding, worst);
      var kept := Kept(front, c, padding);
      if At(c, last) < padding {
        assert (kept + [last])[..|kept|] == kept;
      }
    }
  }

  /** Appending a fresh pair. */
  lemma Snoc(m: seq<Pair>, last: Pair, c: Matrix)
    requires MatchingIn(m, c) && last.row < |c| && last.col < |c[0]| && Fresh(last, m)
    ensures MatchingIn(m + [last], c)
    ensures Total(m + [last], c) == Total(m, c) + At(c, last)
  {
    assert (m + [last])[..|m|] == m;
  }

  lemma {:induction false} GenuineTotal(m: seq<Pair>, c: Matrix, padding: real, worst: real)
    requires Padded(c, padding, worst) && Genuine(m, c, padding)
    ensures 0.0 <= Total(m, c) <= Times(|m|, worst)
  {
    if m != [] {
      GenuineTotal(m[..|m| - 1], c, padding, worst);
    }
  }

  /** A matching cannot be larger than either side. */
  lemma MatchingFits(m: seq<Pair>, rows: nat, cols: nat)
    requires Matching(m, rows, cols)
    ensures |m| <= rows && |m| <= cols
  {
    DistinctFit(Rows(m), rows);
    DistinctFit(Cols(m), cols);
  }

  ghost function Rows(m: seq<Pair>): seq<nat> {
    seq(|m|, k requires 0 <= k < |m| => m[k].row)
  }

  ghost function Cols(m: seq<Pair>): seq<nat> {
    seq(|m|, k requires 0 <= k < |m| => m[k].col)
  }

  /** Pairwise different naturals below n are at most n many. */
  lemma DistinctFit(s: seq<nat>, n: nat)
    requires forall k | 0 <= k < |s| :: s[k] < n
    requires forall i, j | 0 <= i < j < |s| :: s[i] != s[j]
    ensures |s| <= n
  {
    DistinctSize(s);
    SubsetSize(Elements(s), Below(n));
  }

  ghost function Below(n: nat): (r: set<nat>)
    ensures |r| == n && forall k: nat :: k in r <==> k < n
  {
    if n == 0 then {} else Below(n - 1) + {n - 1}
  }

  ghost function Elements(s: seq<nat>): (r: set<nat>)
    ensures |r| <= |s| && forall x :: x in r <==> x in s
  {
    if s == [] then {} else Elements(s[..|s| - 1]) + {s[|s| - 1]}
  }

  lemma {:induction false} DistinctSize(s: seq<nat>)
    requires forall i, j | 0 <= i < j < |s| :: s[i] != s[j]
    ensures |Elements(s)| == |s|
  {
    if s != [] {
      DistinctSize(s[..|s| - 1]);
    }
  }

  lemma {:induction false} SubsetSize<T>(a: set<T>, b: set<T>)
    requires a <= b
    ensures |a| <= |b|
  {
    if a != {} {
      var x :| x in a;
      SubsetSize(a - {x}, b - {x});
    }
  }

  /** Below n there is a natural that a shorter sequence does not mention. */
  lemma FreeIndex(s: seq<nat>, n: nat) returns (free: nat)
    requires |s| < n
    ensures free < n && free !in s
  {
    if Below(n) <= Elements(s) {
      SubsetSize(Below(n), Elements(s));
      assert false;
    }
    free :| free in Below(n) && free !in Elements(s);
  }

  /** A matching that is not full can take one more pair, at no more than the padding cost. */
  lemma Widen(m: seq<Pair>, c: Matrix, padding: real, worst: real) returns (wider: seq<Pair>)
    requires Padded(c, padding, worst) && MatchingIn(m, c)
    requires |m| < Smaller(|c|, |c[0]|)
    ensures MatchingIn(wider, c) && |wider| == |m| + 1
    ensures Total(wider, c) <= Total(m, c) + padding
  {
    var row := FreeIndex(Rows(m), |c|);
    var col := FreeIndex(Cols(m), |c[0]|);
    forall k | 0 <= k < |m|
      ensures m[k].row != row && m[k].col != col
    {
      assert Rows(m)[k] in Rows(m) && Cols(m)[k] in Cols(m);
    }
    Snoc(m, Pair(row, col), c);
    wider := m + [Pair(row, col)];
  }

  /** Any matching extends to a full assignment at no more than one padding cost a pair. */
  lemma {:induction false} Complete(m: seq<Pair>, c: Matrix, padding: real, worst: real) returns (full: seq<Pair>)
    requires Padded(c, padding, worst) && MatchingIn(m, c)
    requires |m| <= Smaller(|c|, |c[0]|)
    ensures FullIn(full, c)
    ensures Total(full, c) <= Total(m, c) + Times(Smaller(|c|, |c[0]|) - |m|, padding)
    decreases Smaller(|c|, |c[0]|) - |m|
  {
    if |m| == Smaller(|c|, |c[0]|) {
      return m;
    }
    var wider := Widen(m, c, padding, worst);
    full := Complete(wider, c, padding, worst);
  }

  // ---------------------------------------------------------------- the bound is tight

  /** A square matrix with the worst genuine cost on its diagonal, nothing to pay right of it, and
      only padding below it. */
  ghost predicate Staircase(c: Matrix, padding: real, worst: real) {
    && Padded(c, padding, worst) && |c| == |c[0]|
    && forall i, j | 0 <= i < |c| && 0 <= j < |c| ::
         (i == j ==> c[i][j] == worst) && (j == i + 1 ==> c[i][j] == 0.0) && (j < i ==> c[i][j] == padding)
  }

  /** As soon as all of its rows at the worst genuine cost reach the padding cost, an optimal
      assignment on a staircase gives up a pair that it could have made. */
  lemma StaircaseLosesPair(c: Matrix, padding: real, worst: real) returns (a: seq<Pair>, b: seq<Pair>)
    requires Staircase(c, padding, worst) && worst > 0.0
    requires |c| as real * worst >= padding
    ensures Optimal(a, c)
    ensures Genuine(b, c, padding) && |b| == |c| && |Kept(a, c, padding)| < |b|
  {
    var n := |c|;
    TimesIsProduct(n, worst);
    assert Times(1, worst) == worst && n > 1;
    b := seq(n, i requires 0 <= i < n => Pair(i, i));
    a := Steps(n - 1) + [Pair(n - 1, 0)];
    StepsOptimal(c, a, padding, worst);
    StepsLosesOne(c, a, padding, worst);
  }

  /** Such matrices exist in every size, so the bound above cannot be relaxed for matrices in general. */
  lemma PaddingTooSmall(n: nat, padding: real, worst: real) returns (c: Matrix, a: seq<Pair>, b: seq<Pair>)
    requires n > 0 && 0.0 < worst < padding
    requires n as real * worst >= padding
    ensures Padded(c, padding, worst) && Smaller(|c|, |c[0]|) == n
    ensures Optimal(a, c)
    ensures Genuine(b, c, padding)
    ensures |b| == n && |Kept(a, c, padding)| < |b|
  {
    c := seq(n, i requires 0 <= i < n => seq(n, j requires 0 <= j < n =>
      if i == j then worst else if j == i + 1 then 0.0 else padding));
    a, b := StaircaseLosesPair(c, padding, worst);
  }

  lemma StepsOptimal(c: Matrix, a: seq<Pair>, padding: real, worst: real)
    requires Staircase(c, padding, worst) && worst > 0.0 && |c| > 1
    requires Times(|c|, worst) >= padding
    requires a == Steps(|c| - 1) + [Pair(|c| - 1, 0)]
    ensures Optimal(a, c)
  {
    StepsTotal(c, |c| - 1, padding, worst);
    Snoc(Steps(|c| - 1), Pair(|c| - 1, 0), c);
    forall other | FullIn(other, c)
      ensures Total(a, c) <= Total(other, c)
    {
      NothingBelowPadding(c, other, padding, worst);
    }
  }

  lemma StepsLosesOne(c: Matrix, a: seq<Pair>, padding: real, worst: real)
    requires Staircase(c, padding, worst) && |c| > 1
    requires a == Steps(|c| - 1) + [Pair(|c| - 1, 0)]
    ensures |Kept(a, c, padding)| < |c|
  {
    assert a[..|c| - 1] == Steps(|c| - 1) && At(c, a[|c| - 1]) == padding;
    KeptShorter(Steps(|c| - 1), c, padding);
  }

  lemma {:induction false} KeptShorter(m: seq<Pair>, c: Matrix, padding: real)
    ensures |Kept(m, c, padding)| <= |m|
  {
    if m != [] { KeptShorter(m[..|m| - 1], c, padding); }
  }

  ghost function Steps(k: nat): seq<Pair> {
    seq(k, i requires 0 <= i < k => Pair(i, i + 1))
  }

  lemma {:induction false} StepsTotal(c: Matrix, k: nat, padding: real, worst: real)
    requires Staircase(c, padding, worst) && k < |c|
    ensures MatchingIn(Steps(k), c) && Total(Steps(k), c) == 0.0
  {
    if k > 0 {
      StepsTotal(c, k - 1, padding, worst);
      assert Steps(k)[..k - 1] == Steps(k - 1);
    }
  }

  lemma NothingBelowPadding(c: Matrix, other: seq<Pair>, padding: real, worst: real)
    requires Staircase(c, padding, worst) && Times(|c|, worst) >= padding
    requires FullIn(other, c)
    ensures padding <= Total(other, c)
  {
    KeptMatching(other, c, padding, worst);
    var kept := Kept(other, c, padding);
    GenuineTotal(kept, c, padding, worst);
    if |kept| < |c| {
      assert Times(1, padding) == padding;
      TimesGrows(1, |c| - |kept|, padding);
    } else {
      GenuineIsDiagonal(c, kept, padding, worst);
      DiagonalTotal(kept, c, worst);
    }
  }

  lemma {:induction false} DiagonalTotal(m: seq<Pair>, c: Matrix, worst: real)
    requires forall k | 0 <= k < |m| :: At(c, m[k]) == worst
    ensures Total(m, c) == Times(|m|, worst)
  {
    if m != [] {
      DiagonalTotal(m[..|m| - 1], c, worst);
    }
  }

  /** The only perfect genuine matching of a staircase is its diagonal. */
  lemma GenuineIsDiagonal(c: Matrix, m: seq<Pair>, padding: real, worst: real)
    requires Staircase(c, padding, worst) && Genuine(m, c, padding) && |m| == |c|
    ensures forall k | 0 <= k < |m| :: m[k].row == m[k].col && At(c, m[k]) == worst
  {
    forall k | 0 <= k < |m|
      ensures m[k].row == m[k].col
    {
      RowOnDiagonal(c, m, padding, worst, m[k].row);
      var j :| 0 <= j < |m| && m[j] == Pair(m[k].row, m[k].row);
      assert !(j < k) && !(k < j);
    }
  }

  lemma {:induction false} RowOnDiagonal(c: Matrix, m: seq<Pair>, padding: real, worst: real, r: nat)
    requires Staircase(c, padding, worst) && Genuine(m, c, padding) && |m| == |c|
    requires r < |c|
    ensures Pair(r, r) in m
    decreases |c| - r
  {
    AllHit(Rows(m), |c|, r);
    var k :| 0 <= k < |m| && Rows(m)[k] == r;
    var col := m[k].col;
    assert At(c, m[k]) < padding && col >= r;
    SameColumn(m, c, Pair(col, col), k);
    if col > r {
      RowOnDiagonal(c, m, padding, worst, col);
    }
    assert m[k] == Pair(r, r);
  }

  lemma SameColumn(m: seq<Pair>, c: Matrix, p: Pair, k: nat)
    requires MatchingIn(m, c) && k < |m|
    ensures p in m && m[k].col == p.col ==> m[k] == p
  {
    forall j | 0 <= j < |m| && m[j].col == m[k].col
      ensures m[j] == m[k]
    {
      assert !(j < k) && !(k < j);
    }
  }

  /** n pairwise different naturals below n hit every one of them. */
  lemma AllHit(s: seq<nat>, n: nat, r: nat)
    requires |s| == n && r < n
    requires forall k | 0 <= k < n :: s[k] < n
    requires forall i, j | 0 <= i < j < n :: s[i] != s[j]
    ensures r in s
  {
    if r !in s {
      DistinctFit(s + [r], n);
      assert false;
    }
  }

  // ---------------------------------------------------------------- groups need no bound

  /** A pair is genuine exactly when its row and its column are of the same group. */
  ghost predicate Grouped(c: Matrix, padding: real, rows: seq<int>, cols: seq<int>) {
    && Rectangular(c) && |rows| == |c| && |cols| == |c[0]|
    && forall i, j | 0 <= i < |c| && 0 <= j < |c[0]| :: c[i][j] < padding <==> rows[i] == cols[j]
  }

  ghost predicate HasRow(m: seq<Pair>, row: nat) {
    exists k :: 0 <= k < |m| && m[k].row == row
  }

  ghost predicate HasCol(m: seq<Pair>, col: nat) {
    exists k :: 0 <= k < |m| && m[k].col == col
  }

  lemma {:induction false} TotalSwap(m: seq<Pair>, k: nat, p: Pair, c: Matrix)
    requires k < |m|
    ensures Total(m[k := p], c) == Total(m, c) - At(c, m[k]) + At(c, p)
  {
    var n := |m| - 1;
    if k < n {
      TotalSwap(m[..n], k, p, c);
      assert m[k := p][..n] == m[..n][k := p];
    } else {
      assert m[k := p][..n] == m[..n];
    }
  }

  /** Moving one pair to a column, or a row, that nothing else uses. */
  lemma MoveOne(a: seq<Pair>, c: Matrix, k: nat, p: Pair)
    requires FullIn(a, c) && k < |a| && p.row < |c| && p.col < |c[0]|
    requires forall l | 0 <= l < |a| && l != k :: a[l].row != p.row && a[l].col != p.col
    ensures FullIn(a[k := p], c) && Total(a[k := p], c) == Total(a, c) - At(c, a[k]) + At(c, p)
  {
    TotalSwap(a, k, p, c);
  }

  /** Exchanging the columns of two pairs. */
  lemma Exchange(a: seq<Pair>, c: Matrix, i: nat, j: nat) returns (b: seq<Pair>)
    requires FullIn(a, c) && i < |a| && j < |a| && i != j
    ensures FullIn(b, c)
    ensures Total(b, c)
         == Total(a, c) - At(c, a[i]) - At(c, a[j]) + At(c, Pair(a[i].row, a[j].col)) + At(c, Pair(a[j].row, a[i].col))
  {
    var p, q := Pair(a[i].row, a[j].col), Pair(a[j].row, a[i].col);
    TotalSwap(a, i, p, c);
    TotalSwap(a[i := p], j, q, c);
    b := a[i := p][j := q];
    forall k, l | 0 <= k < l < |b|
      ensures b[k].row != b[l].row && b[k].col != b[l].col
    {
      assert a[k].row != a[l].row && a[k].col != a[l].col;
      ColumnOfOther(a, c, i, j, k);
      ColumnOfOther(a, c, i, j, l);
    }
  }

  lemma ColumnOfOther(a: seq<Pair>, c: Matrix, i: nat, j: nat, k: nat)
    requires MatchingIn(a, c) && i < |a| && j < |a| && k < |a|
    ensures k != i ==> a[k].col != a[i].col
    ensures k != j ==> a[k].col != a[j].col
  {
  }

  /** What a padded pair is: not kept. */
  lemma NotKept(a: seq<Pair>, c: Matrix, padding: real, worst: real, k: nat)
    requires Padded(c, padding, worst) && MatchingIn(a, c) && k < |a|
    requires !HasRow(Kept(a, c, padding), a[k].row) || !HasCol(Kept(a, c, padding), a[k].col)
    ensures At(c, a[k]) == padding
  {
    KeptMembers(a, c, padding);
    MemberHits(Kept(a, c, padding), a[k]);
  }

  lemma MemberHits(m: seq<Pair>, p: Pair)
    ensures p in m ==> HasRow(m, p.row) && HasCol(m, p.col)
  {
  }

  /** An optimal assignment leaves no row and column of one group unmatched at the same time. */
  lemma NoFreePair(a: seq<Pair>, c: Matrix, padding: real, worst: real, row: nat, col: nat)
    requires Padded(c, padding, worst) && Optimal(a, c)
    requires row < |c| && col < |c[0]| && c[row][col] < padding
    ensures HasRow(Kept(a, c, padding), row) || HasCol(Kept(a, c, padding), col)
  {
    if !HasRow(Kept(a, c, padding), row) && !HasCol(Kept(a, c, padding), col) {
      var better := Improve(a, c, padding, worst, row, col);
      assert false;
    }
  }

  lemma Improve(a: seq<Pair>, c: Matrix, padding: real, worst: real, row: nat, col: nat) returns (b: seq<Pair>)
    requires Padded(c, padding, worst) && FullIn(a, c)
    requires row < |c| && col < |c[0]| && c[row][col] < padding
    requires !HasRow(Kept(a, c, padding), row) && !HasCol(Kept(a, c, padding), col)
    ensures FullIn(b, c) && Total(b, c) < Total(a, c)
  {
    if !HasRow(a, row) && !HasCol(a, col) {
      FullHits(a, c, row, col);
      b := a;
    } else if !HasCol(a, col) {
      var i :| 0 <= i < |a| && a[i].row == row;
      NotKept(a, c, padding, worst, i);
      OtherRows(a, c, i);
      MoveOne(a, c, i, Pair(row, col));
      b := a[i := Pair(row, col)];
    } else if !HasRow(a, row) {
      var j :| 0 <= j < |a| && a[j].col == col;
      NotKept(a, c, padding, worst, j);
      OtherRows(a, c, j);
      MoveOne(a, c, j, Pair(row, col));
      b := a[j := Pair(row, col)];
    } else {
      var i :| 0 <= i < |a| && a[i].row == row;
      var j :| 0 <= j < |a| && a[j].col == col;
      NotKept(a, c, padding, worst, i);
      NotKept(a, c, padding, worst, j);
      b := Exchange(a, c, i, j);
    }
  }

  lemma OtherRows(a: seq<Pair>, c: Matrix, i: nat)
    requires MatchingIn(a, c) && i < |a|
    ensures forall l | 0 <= l < |a| && l != i :: a[l].row != a[i].row && a[l].col != a[i].col
  {
  }

  /** A full assignment uses every row or every column. */
  lemma FullHits(a: seq<Pair>, c: Matrix, row: nat, col: nat)
    requires FullIn(a, c) && row < |c| && col < |c[0]|
    ensures HasRow(a, row) || HasCol(a, col)
  {
    if |a| == |c| {
      AllHit(Rows(a), |c|, row);
      var k :| 0 <= k < |a| && Rows(a)[k] == row;
      assert a[k].row == row;
    } else {
      AllHit(Cols(a), |c[0]|, col);
      var k :| 0 <= k < |a| && Cols(a)[k] == col;
      assert a[k].col == col;
    }
  }

  /** Nothing can be added. */
  ghost predicate Maximal(m: seq<Pair>, c: Matrix, padding: real) {
    forall row: nat, col: nat | Rectangular(c) && row < |c| && col < |c[0]| && c[row][col] < padding ::
      HasRow(m, row) || HasCol(m, col)
  }

  ghost predicate AllRows(m: seq<Pair>, rows: seq<int>, group: int) {
    forall row: nat | row < |rows| && rows[row] == group :: HasRow(m, row)
  }

  /** Pair l of m shares the row of p, or its column if m misses some row of its group. */
  ghost predicate Charged(m: seq<Pair>, l: nat, p: Pair, rows: seq<int>) {
    && l < |m| && p.row < |rows|
    && if AllRows(m, rows, rows[p.row]) then m[l].row == p.row else m[l].col == p.col
  }

  lemma ChargeFor(m: seq<Pair>, p: Pair, c: Matrix, padding: real, rows: seq<int>, cols: seq<int>) returns (l: nat)
    requires Grouped(c, padding, rows, cols) && Maximal(m, c, padding)
    requires p.row < |c| && p.col < |c[0]| && At(c, p) < padding
    ensures Charged(m, l, p, rows)
  {
    if AllRows(m, rows, rows[p.row]) {
      assert HasRow(m, p.row);
      l :| 0 <= l < |m| && m[l].row == p.row;
    } else {
      var row: nat :| row < |rows| && rows[row] == rows[p.row] && !HasRow(m, row);
      assert c[p.row][p.col] < padding && rows[row] == cols[p.col];
      assert c[row][p.col] < padding;
      assert HasCol(m, p.col);
      l :| 0 <= l < |m| && m[l].col == p.col;
    }
  }

  lemma {:induction false} Charges(m: seq<Pair>, b: seq<Pair>, c: Matrix, padding: real, rows: seq<int>, cols: seq<int>)
    returns (f: seq<nat>)
    requires Grouped(c, padding, rows, cols) && Maximal(m, c, padding)
    requires forall k | 0 <= k < |b| :: b[k].row < |c| && b[k].col < |c[0]| && At(c, b[k]) < padding
    ensures |f| == |b| && forall k | 0 <= k < |b| :: Charged(m, f[k], b[k], rows)
  {
    if b == [] {
      f := [];
    } else {
      f := Charges(m, b[..|b| - 1], c, padding, rows, cols);
      var l := ChargeFor(m, b[|b| - 1], c, padding, rows, cols);
      f := f + [l];
    }
  }

  /** Where pairs are genuine by groups, whatever cannot be extended is largest. */
  lemma MaximalIsLargest(m: seq<Pair>, b: seq<Pair>, c: Matrix, padding: real, rows: seq<int>, cols: seq<int>)
    requires Grouped(c, padding, rows, cols) && Maximal(m, c, padding)
    requires Genuine(m, c, padding) && Genuine(b, c, padding)
    ensures |b| <= |m|
  {
    var f := Charges(m, b, c, padding, rows, cols);
    forall k, l | 0 <= k < l < |f|
      ensures f[k] != f[l]
    {
      ChargedTwice(m, f[k], f[l], b[k], b[l], c, padding, rows, cols);
    }
    DistinctFit(f, |m|);
  }

  lemma ChargedTwice(m: seq<Pair>, k: nat, l: nat, p: Pair, q: Pair, c: Matrix, padding: real, rows: seq<int>,
                     cols: seq<int>)
    requires Grouped(c, padding, rows, cols) && Genuine(m, c, padding)
    requires Charged(m, k, p, rows) && Charged(m, l, q, rows)
    requires p.row < |c| && p.col < |c[0]| && At(c, p) < padding
    requires q.row < |c| && q.col < |c[0]| && At(c, q) < padding
    ensures k == l ==> p.row == q.row || p.col == q.col
  {
    SameGroup(m, k, p, c, padding, rows, cols);
    SameGroup(m, l, q, c, padding, rows, cols);
  }

  lemma SameGroup(m: seq<Pair>, l: nat, p: Pair, c: Matrix, padding: real, rows: seq<int>, cols: seq<int>)
    requires Grouped(c, padding, rows, cols) && Genuine(m, c, padding) && Charged(m, l, p, rows)
    requires p.row < |c| && p.col < |c[0]| && At(c, p) < padding
    ensures rows[p.row] == rows[m[l].row]
  {
    assert At(c, m[l]) < padding;
    assert c[m[l].row][m[l].col] < padding && c[p.row][p.col] < padding;
    assert rows[m[l].row] == cols[m[l].col] && rows[p.row] == cols[p.col];
  }

  /** Where pairs are genuine by groups, the padding cost need only exceed each genuine cost: on a
      matrix of any size the genuine part of an optimal solution is largest, and cheapest among
      the largest. */
  lemma GroupsNeedNoBound(a: seq<Pair>, c: Matrix, padding: real, worst: real, rows: seq<int>, cols: seq<int>)
    requires Padded(c, padding, worst) && Optimal(a, c) && Grouped(c, padding, rows, cols)
    ensures LargestAndCheapest(Kept(a, c, padding), c, padding)
  {
    var kept := Kept(a, c, padding);
    KeptMatching(a, c, padding, worst);
    forall row: nat, col: nat | row < |c| && col < |c[0]| && c[row][col] < padding
      ensures HasRow(kept, row) || HasCol(kept, col)
    {
      NoFreePair(a, c, padding, worst, row, col);
    }
    forall b | Genuine(b, c, padding)
      ensures |b| <= |kept| && (|b| == |kept| ==> Total(kept, c) <= Total(b, c))
    {
      MaximalIsLargest(kept, b, c, padding, rows, cols);
      if |b| == |kept| { CheapestOfSize(a, b, c, padding, worst); }
    }
  }

  lemma CheapestOfSize(a: seq<Pair>, b: seq<Pair>, c: Matrix, padding: real, worst: real)
    requires Padded(c, padding, worst) && Optimal(a, c)
    requires Genuine(b, c, padding) && |b| == |Kept(a, c, padding)|
    ensures Total(Kept(a, c, padding), c) <= Total(b, c)
  {
    KeptMatching(a, c, padding, worst);
    MatchingFits(b, |c|, |c[0]|);
    var full := Complete(b, c, padding, worst);
    var n := Smaller(|c|, |c[0]|);
    assert |a| == n && Total(a, c) <= Total(full, c);
    assert Total(full, c) <= Total(b, c) + Times(n - |b|, padding);
    assert Total(a, c) == Total(Kept(a, c, padding), c) + Times(n - |b|, padding);
  }

  // ---------------------------------------------------------------- a solution always exists

  ghost function Grid(rows: nat, cols: nat): set<Pair> {
    set i: nat, j: nat | i in Below(rows) && j in Below(cols) :: Pair(i, j)
  }

  /** All sequences of k in-range pairs. */
  ghost function Lists(k: nat, rows: nat, cols: nat): set<seq<Pair>> {
    if k == 0 then {[]} else set s, p | s in Lists(k - 1, rows, cols) && p in Grid(rows, cols) :: s + [p]
  }

  lemma {:induction false} ListsComplete(m: seq<Pair>, rows: nat, cols: nat)
    requires forall k | 0 <= k < |m| :: m[k].row < rows && m[k].col < cols
    ensures m in Lists(|m|, rows, cols)
  {
    if m != [] {
      var front, last := m[..|m| - 1], m[|m| - 1];
      ListsComplete(front, rows, cols);
      assert last in Grid(rows, cols) && m == front + [last];
    }
  }

  /** What is asked of the solver can always be met. */
  lemma OptimalExists(c: Matrix) returns (best: seq<Pair>)
    requires Rectangular(c)
    ensures Optimal(best, c)
  {
    var n := Smaller(|c|, |c[0]|);
    var all := set m | m in Lists(n, |c|, |c[0]|) && FullIn(m, c);
    var diagonal := seq(n, i requires 0 <= i < n => Pair(i, i));
    ListsComplete(diagonal, |c|, |c[0]|);
    assert diagonal in all;
    best := Cheapest(all, c);
    forall b | FullIn(b, c)
      ensures Total(best, c) <= Total(b, c)
    {
      ListsComplete(b, |c|, |c[0]|);
      assert b in all;
    }
  }

  lemma {:induction false} Cheapest(all: set<seq<Pair>>, c: Matrix) returns (best: seq<Pair>)
    requires all != {}
    ensures best in all && forall m | m in all :: Total(best, c) <= Total(m, c)
  {
    best :| best in all;
    if all != {best} {
      var rest := Cheapest(all - {best}, c);
      if Total(rest, c) < Total(best, c) {
        best := rest;
      }
    }
  }
}
