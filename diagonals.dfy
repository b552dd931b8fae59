/** Which vertex pairs the finish step treats as diagonals, and in what
    order. The source enumerates pairs (i, j) with an outer loop over i and
    an inner loop over j starting at i + 2, keeping a pair when the vertices
    are not adjacent and the pair is not the closing edge (0, n - 1). The
    pairs depend only on the vertex count n, not on where the vertices are. */
module PolygonDiagonals {

  function AbsDiff(i: int, j: int): nat
  {
    if i >= j then i - j else j - i
  }

  /** The filter the inner loop applies, as written. */
  predicate Keep(n: nat, i: nat, j: nat)
  {
    AbsDiff(i, j) > 1 && !(i == 0 && j == n - 1)
  }

  /** The diagonals of an n-gon, each written with its smaller index
      first: the pairs with i + 2 <= j < n other than the closing edge
      (0, n - 1). `IsDiagonalIsNonAdjacent` shows these are exactly the
      pairs of vertices that are not neighbours around the polygon. */
  predicate IsDiagonal(n: nat, i: nat, j: nat)
  {
    i + 2 <= j < n && !(i == 0 && j == n - 1)
  }

  /** Vertices i and j are neighbours around an n-gon when they are
      consecutive, or when they are the last and the first vertex. */
  predicate Adjacent(n: nat, i: nat, j: nat)
  {
    AbsDiff(i, j) == 1 || (i == 0 && j == n - 1) || (j == 0 && i == n - 1)
  }

  /** For two distinct vertices listed in increasing order, being a
      diagonal is exactly not being neighbours around the polygon. */
  lemma IsDiagonalIsNonAdjacent(n: nat, i: nat, j: nat)
    requires i < j < n
    ensures IsDiagonal(n, i, j) <==> !Adjacent(n, i, j)
  {
  }

  /** Lexicographic order on index pairs: the order of the nested loops. */
  predicate LexLess(p: (nat, nat), q: (nat, nat))
  {
    p.0 < q.0 || (p.0 == q.0 && p.1 < q.1)
  }

  predicate StrictlyIncreasing(s: seq<(nat, nat)>)
  {
    forall a, b :: 0 <= a < b < |s| ==> LexLess(s[a], s[b])
  }

  /** The pairs the inner loop for row i has emitted once j reaches hi. */
  function Row(n: nat, i: nat, hi: nat): seq<(nat, nat)>
    decreases hi
  {
    if hi <= i + 2 then []
    else Row(n, i, hi - 1) + (if Keep(n, i, hi - 1) then [(i, hi - 1)] else [])
  }

  /** The pairs emitted by the first k rows of the outer loop. */
  function Rows(n: nat, k: nat): seq<(nat, nat)>
  {
    if k == 0 then [] else Rows(n, k - 1) + Row(n, k - 1, n)
  }

  /** All pairs the enumeration emits for n vertices, in emission order. */
  function Diagonals(n: nat): seq<(nat, nat)>
  {
    Rows(n, n)
  }

  /** The nested loops that collect the diagonals. */
  method EnumerateDiagonals(n: nat) returns (d: seq<(nat, nat)>)
    ensures d == Diagonals(n)
    ensures forall p :: p in d <==> IsDiagonal(n, p.0, p.1)
    ensures StrictlyIncreasing(d)
    ensures n >= 3 ==> 2 * |d| == n * (n - 3)
  {
    d := [];
    var i := 0;
    while i < n
      invariant 0 <= i <= n
      invariant d == Rows(n, i)
    {
      var j := i + 2;
      while j < n
        invariant i + 2 <= j
        invariant j <= n || j == i + 2
        invariant d == Rows(n, i) + Row(n, i, j)
      {
        if AbsDiff(i, j) > 1 && !(i == 0 && j == n - 1) {
          d := d + [(i, j)];
        }
        j := j + 1;
      }
      assert Row(n, i, j) == Row(n, i, n);
      i := i + 1;
    }
    DiagonalsMembers(n);
    DiagonalsIncreasing(n);
    if n >= 3 {
      DiagonalsCount(n);
    }
  }

  /** The adjacency test `|i - j| > 1` never rejects a pair the inner loop
      visits, so only the closing-edge test filters anything. */
  lemma KeepIsDiagonal(n: nat, i: nat, j: nat)
    requires i + 2 <= j < n
    ensures Keep(n, i, j) <==> IsDiagonal(n, i, j)
  {
  }

  lemma {:induction false} RowMembers(n: nat, i: nat, hi: nat, p: (nat, nat))
    ensures p in Row(n, i, hi) <==> p.0 == i && i + 2 <= p.1 < hi && Keep(n, i, p.1)
    decreases hi
  {
    if hi > i + 2 {
      RowMembers(n, i, hi - 1, p);
    }
  }

  lemma {:induction false} RowsMembers(n: nat, k: nat, p: (nat, nat))
    ensures p in Rows(n, k) <==> p.0 < k && p.0 + 2 <= p.1 < n && Keep(n, p.0, p.1)
  {
    if k > 0 {
      RowsMembers(n, k - 1, p);
      RowMembers(n, k - 1, n, p);
    }
  }

  /** Exactly the diagonals are emitted. */
  lemma DiagonalsMembers(n: nat)
    ensures forall p :: p in Diagonals(n) <==> IsDiagonal(n, p.0, p.1)
  {
    forall p: (nat, nat)
      ensures p in Diagonals(n) <==> IsDiagonal(n, p.0, p.1)
    {
      RowsMembers(n, n, p);
      if p.0 + 2 <= p.1 < n {
        KeepIsDiagonal(n, p.0, p.1);
      }
    }
  }

  lemma {:induction false} RowIncreasing(n: nat, i: nat, hi: nat)
    ensures StrictlyIncreasing(Row(n, i, hi))
    decreases hi
  {
    if hi > i + 2 {
      RowIncreasing(n, i, hi - 1);
      var r := Row(n, i, hi - 1);
      forall a | 0 <= a < |r|
        ensures r[a].0 == i && r[a].1 < hi - 1
      {
        RowMembers(n, i, hi - 1, r[a]);
      }
    }
  }

  lemma {:induction false} RowsIncreasing(n: nat, k: nat)
    ensures StrictlyIncreasing(Rows(n, k))
  {
    if k > 0 {
      RowsIncreasing(n, k - 1);
      RowIncreasing(n, k - 1, n);
      var left, right := Rows(n, k - 1), Row(n, k - 1, n);
      forall a | 0 <= a < |left|
        ensures left[a].0 < k - 1
      {
        RowsMembers(n, k - 1, left[a]);
      }
      forall b | 0 <= b < |right|
        ensures right[b].0 == k - 1
      {
        RowMembers(n, k - 1, n, right[b]);
      }
      var s := left + right;
      forall a, b | 0 <= a < b < |s|
        ensures LexLess(s[a], s[b])
      {
        if b < |left| {
          assert s[a] == left[a] && s[b] == left[b];
        } else if a >= |left| {
          assert s[a] == right[a - |left|] && s[b] == right[b - |left|];
        } else {
          assert s[a] == left[a] && s[b] == right[b - |left|];
        }
      }
    }
  }

  /** The diagonals come out in lexicographic order of (i, j), without repeats. */
  lemma DiagonalsIncreasing(n: nat)
    ensures StrictlyIncreasing(Diagonals(n))
  {
    RowsIncreasing(n, n);
  }

  /** How many pairs the inner loop for row i has emitted once j reaches hi. */
  lemma {:induction false} RowCount(n: nat, i: nat, hi: nat)
    requires hi <= n
    ensures |Row(n, i, hi)| ==
      if hi <= i + 2 then 0 else hi - i - 2 - (if i == 0 && hi == n then 1 else 0)
    decreases hi
  {
    if hi > i + 2 {
      RowCount(n, i, hi - 1);
    }
  }

  lemma {:induction false} RowsCount(n: nat, k: nat)
    requires n >= 3 && 1 <= k <= n - 1
    ensures 2 * |Rows(n, k)| == 2 * k * (n - 2) - k * (k - 1) - 2
  {
    RowCount(n, k - 1, n);
    if k == 1 {
      assert Rows(n, 0) == [];
    } else {
      RowsCount(n, k - 1);
      assert |Row(n, k - 1, n)| == n - k - 1;
      assert 2 * k * (n - 2) == 2 * (k - 1) * (n - 2) + 2 * (n - 2);
      assert k * (k - 1) == (k - 1) * (k - 2) + 2 * (k - 1);
    }
  }

  /** An n-gon has n(n-3)/2 diagonals. */
  lemma DiagonalsCount(n: nat)
    requires n >= 3
    ensures 2 * |Diagonals(n)| == n * (n - 3)
  {
    RowsCount(n, n - 1);
    RowCount(n, n - 1, n);
    assert Rows(n, n) == Rows(n, n - 1) + Row(n, n - 1, n);
    var m := n - 1;
    assert 2 * m * (n - 2) - m * (m - 1) - 2 == (n - 1) * (n - 2) - 2;
    assert (n - 1) * (n - 2) == n * n - 3 * n + 2;
    assert n * (n - 3) == n * n - 3 * n;
  }

  /** The two diagonals the intersection step uses: for a quadrilateral
      they are (0,2) and (1,3); with five or more vertices they are (0,2)
      and (0,3), which share vertex 0. */
  lemma FirstTwoDiagonals(n: nat)
    requires n >= 4
    ensures |Diagonals(n)| >= 2
    ensures Diagonals(n)[0] == (0, 2)
    ensures Diagonals(n)[1] == if n == 4 then (1, 3) else (0, 3)
  {
    var d := Diagonals(n);
    DiagonalsMembers(n);
    DiagonalsIncreasing(n);
    var second: (nat, nat) := if n == 4 then (1, 3) else (0, 3);
    assert (0, 2) in d && second in d;
    var k0 :| 0 <= k0 < |d| && d[k0] == (0, 2);
    var k1 :| 0 <= k1 < |d| && d[k1] == second;
    assert IsDiagonal(n, d[0].0, d[0].1);
    assert d[0] == (0, 2);
    assert IsDiagonal(n, d[1].0, d[1].1);
    assert d[1] == second;
  }
}
