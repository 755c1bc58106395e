/** Greedy first-fit matching of the rows of a boolean grid with its columns: the combinatorial
    core of the order-insensitive comparison, kept apart from what the grid's entries mean. */
module Matching {

  // Entry [i][j] says whether row i may be paired with column j.
  type Grid = seq<seq<bool>>

  predicate Square(g: Grid) {
    forall i | 0 <= i < |g| :: |g[i]| == |g|
  }

  predicate Allowed(g: Grid, i: nat, j: nat) {
    i < |g| && j < |g[i]| && g[i][j]
  }

  function NoneUsed(n: nat): (used: seq<bool>)
    ensures |used| == n && forall j | 0 <= j < n :: !used[j]
  {
    seq(n, _ => false)
  }

  /** The first column at or after `from` that is unused and allowed by `row`; `|row|` if none is. */
  function FirstFit(row: seq<bool>, used: seq<bool>, from: nat): (j: nat)
    requires from <= |row| == |used|
    ensures from <= j <= |row|
    ensures j < |row| ==> row[j] && !used[j]
    ensures forall c | from <= c < j :: used[c] || !row[c]
    decreases |row| - from
  {
    if from == |row| || (!used[from] && row[from]) then from else FirstFit(row, used, from + 1)
  }

  /** Pairs the rows from `k` on, in order, each with its first unused allowed column. */
  predicate Greedy(g: Grid, k: nat, used: seq<bool>)
    requires Square(g) && k <= |g| == |used|
    decreases |g| - k
  {
    k == |g| ||
    var j := FirstFit(g[k], used, 0);
    j < |g| && Greedy(g, k + 1, used[j := true])
  }

  lemma GreedyStep(g: Grid, k: nat, used: seq<bool>, j: nat)
    requires Square(g) && k < |g| == |used|
    requires j < |g| && j == FirstFit(g[k], used, 0)
    ensures Greedy(g, k, used) <==> Greedy(g, k + 1, used[j := true])
  {
  }

  ghost predicate Injective<T>(p: seq<T>) {
    forall i, j | 0 <= i < j < |p| :: p[i] != p[j]
  }

  /** `p` maps the indices below `n` one-to-one onto the indices below `n`. */
  ghost predicate Bijection(p: seq<nat>, n: nat) {
    && |p| == n
    && (forall i | 0 <= i < n :: p[i] < n)
    && Injective(p)
    && (forall j: nat | j < n :: j in p)
  }

  /** A way to pair every row with an allowed column of its own, and every column with a row. */
  ghost predicate Pairing(g: Grid, p: seq<nat>)
    requires Square(g)
  {
    Bijection(p, |g|) && forall i | 0 <= i < |g| :: Allowed(g, i, p[i])
  }

  /** Column `j` belongs to one of the rows before row `i`. */
  ghost predicate Taken(p: seq<nat>, i: nat, j: nat) {
    exists r: nat :: r < i && r < |p| && p[r] == j
  }

  /** No row prefers an earlier column that would also prefer it: such a column went to an earlier row. */
  ghost predicate Stable(g: Grid, p: seq<nat>) {
    forall i: nat, j: nat | i < |p| && Allowed(g, i, j) && j < p[i] :: Taken(p, i, j)
  }

  ghost predicate HasStablePairing(g: Grid)
    requires Square(g)
  {
    exists p :: Pairing(g, p) && Stable(g, p)
  }

  // -- counting ---------------------------------------------------------------------------------

  ghost function Below(n: nat): (s: set<nat>)
    ensures |s| == n
    ensures forall j: nat :: j in s <==> j < n
  {
    if n == 0 then {} else
      var s := Below(n - 1);
      s + {n - 1}
  }

  ghost function Elements<T>(p: seq<T>): set<T> {
    set x | x in p
  }

  lemma {:induction false} DistinctElements<T>(p: seq<T>)
    requires Injective(p)
    ensures |Elements(p)| == |p|
  {
    if p == [] {
    } else {
      var front, last := p[..|p| - 1], p[|p| - 1];
      DistinctElements(front);
      assert p == front + [last];
      assert Elements(p) == Elements(front) + {last};
    }
  }

  lemma {:induction false} SubsetSize<T>(a: set<T>, b: set<T>)
    requires a <= b
    ensures |a| <= |b|
  {
    if a == {} {
    } else {
      var x :| x in a;
      SubsetSize(a - {x}, b - {x});
    }
  }

  /** Pigeonhole: as many distinct numbers below `n` as there are leave none out. */
  lemma InjectionIsOnto(p: seq<nat>, n: nat)
    requires |p| == n && Injective(p)
    requires forall i | 0 <= i < n :: p[i] < n
    ensures Bijection(p, n)
  {
    DistinctElements(p);
    forall j: nat | j < n ensures j in p {
      if j !in Elements(p) {
        SubsetSize(Elements(p), Below(n) - {j});
        assert false;
      }
    }
  }

  // -- what greedy computes -----------------------------------------------------------------------

  /** The columns chosen for the rows below `k` are the used ones, are allowed, and block nothing. */
  ghost predicate Chosen(g: Grid, k: nat, used: seq<bool>, p: seq<nat>)
    requires Square(g) && k <= |g| == |used|
  {
    && |p| == k && Injective(p)
    && (forall i | 0 <= i < k :: p[i] < |g| && Allowed(g, i, p[i]))
    && (forall j: nat | j < |g| :: used[j] <==> Taken(p, k, j))
    && Stable(g, p)
  }

  lemma TakenAfter(p: seq<nat>, i: nat, j: nat, c: nat)
    requires i <= |p|
    ensures Taken(p + [c], i, j) <==> Taken(p, i, j)
    ensures Taken(p + [c], |p| + 1, j) <==> Taken(p, |p|, j) || j == c
  {
    var q := p + [c];
    assert q[|p|] == c && forall r | 0 <= r < |p| :: q[r] == p[r];
  }

  lemma ExtendChosen(g: Grid, k: nat, used: seq<bool>, chosen: seq<nat>, j: nat)
    requires Square(g) && k < |g| == |used| && Chosen(g, k, used, chosen)
    requires j < |g| && j == FirstFit(g[k], used, 0)
    ensures Chosen(g, k + 1, used[j := true], chosen + [j])
  {
    var next := chosen + [j];
    forall c: nat | c < |g| ensures Taken(next, k + 1, c) <==> used[c] || c == j {
      TakenAfter(chosen, k, c, j);
    }
    assert !Taken(chosen, k, j);
    StableAfter(g, chosen, j);
  }

  lemma StableAfter(g: Grid, p: seq<nat>, c: nat)
    requires Stable(g, p)
    requires forall j: nat | j < c && Allowed(g, |p|, j) :: Taken(p, |p|, j)
    ensures Stable(g, p + [c])
  {
    var next := p + [c];
    forall i: nat, j: nat | i < |next| && Allowed(g, i, j) && j < next[i] ensures Taken(next, i, j) {
      TakenAfter(p, i, j, c);
      assert i < |p| ==> next[i] == p[i];
    }
  }

  lemma {:induction false} GreedyIsSound(g: Grid, k: nat, used: seq<bool>, chosen: seq<nat>) returns (p: seq<nat>)
    requires Square(g) && k <= |g| == |used|
    requires Chosen(g, k, used, chosen) && Greedy(g, k, used)
    ensures Pairing(g, p) && Stable(g, p)
    decreases |g| - k
  {
    if k == |g| {
      p := chosen;
      InjectionIsOnto(p, |g|);
    } else {
      var j := FirstFit(g[k], used, 0);
      ExtendChosen(g, k, used, chosen, j);
      p := GreedyIsSound(g, k + 1, used[j := true], chosen + [j]);
    }
  }

  lemma {:induction false} StableIsFound(g: Grid, k: nat, used: seq<bool>, p: seq<nat>)
    requires Square(g) && k <= |g| == |used|
    requires Pairing(g, p) && Stable(g, p)
    requires forall j: nat | j < |g| :: used[j] <==> Taken(p, k, j)
    ensures Greedy(g, k, used)
    decreases |g| - k
  {
    if k == |g| {
    } else {
      assert Allowed(g, k, p[k]);
      var j := FirstFit(g[k], used, 0);
      assert Allowed(g, k, j);
      assert j == p[k];
      StableIsFound(g, k + 1, used[p[k] := true], p);
    }
  }

  /** Greedy succeeds exactly when a stable pairing exists, whatever the grid. */
  lemma GreedyIffStable(g: Grid)
    requires Square(g)
    ensures Greedy(g, 0, NoneUsed(|g|)) <==> HasStablePairing(g)
  {
    if Greedy(g, 0, NoneUsed(|g|)) {
      var p := GreedyIsSound(g, 0, NoneUsed(|g|), []);
    }
    if p :| Pairing(g, p) && Stable(g, p) {
      StableIsFound(g, 0, NoneUsed(|g|), p);
    }
  }

  /** A grid whose diagonal is allowed: pairing equal positions is stable, so greedy succeeds. */
  lemma DiagonalIsFound(g: Grid)
    requires Square(g) && forall i | 0 <= i < |g| :: Allowed(g, i, i)
    ensures Greedy(g, 0, NoneUsed(|g|))
  {
    var p: seq<nat> := seq(|g|, i => i);
    InjectionIsOnto(p, |g|);
    forall i: nat, j: nat | i < |g| && Allowed(g, i, j) && j < p[i] ensures Taken(p, i, j) {
      assert p[j] == j;
    }
    StableIsFound(g, 0, NoneUsed(|g|), p);
  }

  // -- transposition ------------------------------------------------------------------------------

  ghost predicate Transposed(g: Grid, h: Grid)
    requires Square(g) && Square(h)
  {
    |g| == |h| && forall i: nat, j: nat :: Allowed(g, i, j) == Allowed(h, j, i)
  }

  ghost function IndexOf(p: seq<nat>, j: nat): (i: nat)
    requires j in p
    ensures i < |p| && p[i] == j
  {
    var i: nat :| i < |p| && p[i] == j;
    i
  }

  ghost function Inverse(p: seq<nat>): (q: seq<nat>)
    requires Bijection(p, |p|)
    ensures Bijection(q, |p|)
    ensures forall i | 0 <= i < |p| :: q[p[i]] == i && p[q[i]] == i
  {
    var q: seq<nat> := seq(|p|, (j: nat) requires j < |p| => IndexOf(p, j));
    assert forall i | 0 <= i < |p| :: p[q[p[i]]] == p[i];
    assert forall i, j | 0 <= i < j < |q| :: p[q[i]] != p[q[j]];
    InjectionIsOnto(q, |p|);
    q
  }

  /** The stable pairing reads the same from both sides, so greedy does not care which list leads. */
  lemma GreedyIsSymmetric(g: Grid, h: Grid)
    requires Square(g) && Square(h) && Transposed(g, h)
    requires Greedy(g, 0, NoneUsed(|g|))
    ensures Greedy(h, 0, NoneUsed(|h|))
  {
    GreedyIffStable(g);
    var p :| Pairing(g, p) && Stable(g, p);
    var q := Inverse(p);
    forall j: nat, i: nat | j < |h| && Allowed(h, j, i) && i < q[j] ensures Taken(q, j, i) {
      assert Allowed(g, i, j);
      assert p[q[j]] == j;
      assert !Taken(p, i, j);
      assert q[p[i]] == i;
    }
    assert forall j | 0 <= j < |h| :: Allowed(g, q[j], p[q[j]]);
    StableIsFound(h, 0, NoneUsed(|h|), q);
  }

  // -- completeness ---------------------------------------------------------------------------------

  /** Two rows that share an allowed column allow the same columns, as rows of an equivalence do. */
  ghost predicate Difunctional(g: Grid)
    requires Square(g)
  {
    forall i: nat, r: nat, j: nat, c: nat | Allowed(g, i, j) && Allowed(g, i, c) && Allowed(g, r, j) :: Allowed(g, r, c)
  }

  ghost predicate CanFinish(g: Grid, k: nat, used: seq<bool>, p: seq<nat>)
    requires Square(g) && k <= |g| == |used|
  {
    && |p| == |g|
    && (forall i | k <= i < |g| :: p[i] < |g| && !used[p[i]] && Allowed(g, i, p[i]))
    && (forall i, j | k <= i < j < |g| :: p[i] != p[j])
  }

  /** Exchange argument: whatever pairing could finish the job can be rearranged to agree with the
      greedy choice, so greedy never takes a column that a later row cannot do without. */
  lemma {:induction false} GreedyIsComplete(g: Grid, k: nat, used: seq<bool>, p: seq<nat>)
    requires Square(g) && k <= |g| == |used|
    requires Difunctional(g) && CanFinish(g, k, used, p)
    ensures Greedy(g, k, used)
    decreases |g| - k
  {
    if k == |g| {
    } else {
      var j := FirstFit(g[k], used, 0);
      assert j <= p[k];
      var q := p[k := j];
      if r :| k < r < |g| && p[r] == j {
        assert Allowed(g, k, j) && Allowed(g, k, p[k]) && Allowed(g, r, j);
        q := q[r := p[k]];
      }
      GreedyIsComplete(g, k + 1, used[j := true], q);
    }
  }

  lemma GreedyIffPairing(g: Grid)
    requires Square(g) && Difunctional(g)
    ensures Greedy(g, 0, NoneUsed(|g|)) <==> exists p :: Pairing(g, p)
  {
    GreedyIffStable(g);
    if p :| Pairing(g, p) {
      GreedyIsComplete(g, 0, NoneUsed(|g|), p);
    }
  }
}
