/** The structural comparator that decides test verdicts. `Matches` is the comparison the code
    computes; `Same` says, without any algorithm, when two values should count as equal. */
module Comparator {
  import opened Matching

  datatype Json =
    | Null
    | Bool(b: bool)
    | Num(n: real)
    | Str(s: string)
    | List(items: seq<Json>)
    | Obj(fields: map<string, Json>)

  /** `mode` is part of the configuration but no comparison reads it. */
  datatype Config = Config(mode: string, floatTolerance: real, orderInsensitive: bool)

  function Tolerance(cfg: Config): (t: real)
    ensures t >= 0.0
  {
    if cfg.floatTolerance < 0.0 then 0.0 else cfg.floatTolerance
  }

  function Abs(x: real): real {
    if x < 0.0 then -x else x
  }

  predicate NumbersMatch(expected: real, actual: real, tolerance: real) {
    if tolerance > 0.0 then Abs(expected - actual) <= tolerance else expected == actual
  }

  predicate IsEmpty(v: Json) {
    v.Null? || (v.List? && v.items == [])
  }

  // -- the comparison as computed -------------------------------------------------------------------

  predicate Matches(expected: Json, actual: Json, tolerance: real, unordered: bool)
    decreases expected, 1
  {
    if expected.Null? || actual.Null? then
      IsEmpty(expected) && IsEmpty(actual)
    else if expected.Num? then
      actual.Num? && NumbersMatch(expected.n, actual.n, tolerance)
    else if expected.Obj? then
      && actual.Obj? && |expected.fields| == |actual.fields|
      && forall k | k in expected.fields ::
           k in actual.fields && Matches(expected.fields[k], actual.fields[k], tolerance, unordered)
    else if expected.List? then
      && actual.List? && |expected.items| == |actual.items|
      && if unordered then
           var g := Cells(expected.items, actual.items, tolerance);
           Greedy(g, 0, NoneUsed(|g|))
         else
           forall i | 0 <= i < |expected.items| :: Matches(expected.items[i], actual.items[i], tolerance, false)
    else
      expected == actual
  }

  /** Which expected element matches which actual one, order ignored. */
  function Cells(expected: seq<Json>, actual: seq<Json>, tolerance: real): (g: Grid)
    requires |expected| == |actual|
    ensures Square(g) && |g| == |expected|
    decreases expected, 0
  {
    seq(|expected|, i requires 0 <= i < |expected| =>
      seq(|actual|, j requires 0 <= j < |actual| => Matches(expected[i], actual[j], tolerance, true)))
  }

  // -- what it should compute -----------------------------------------------------------------------

  ghost predicate Same(x: Json, y: Json, tolerance: real, unordered: bool)
    decreases x, 1
  {
    match x
    case Null => IsEmpty(y)
    case Bool(_) => x == y
    case Str(_) => x == y
    case Num(n) => y.Num? && Abs(n - y.n) <= tolerance
    case Obj(fs) =>
      y.Obj? && fs.Keys == y.fields.Keys && forall k | k in fs :: Same(fs[k], y.fields[k], tolerance, unordered)
    case List(xs) =>
      if y.Null? then xs == []
      else
        && y.List? && |xs| == |y.items|
        && if unordered then exists p :: PairsSame(xs, y.items, p, tolerance)
           else forall i | 0 <= i < |xs| :: Same(xs[i], y.items[i], tolerance, false)
  }

  /** `p` is a bijection between the two lists that pairs elements that are the same. */
  ghost predicate PairsSame(xs: seq<Json>, ys: seq<Json>, p: seq<nat>, tolerance: real)
    decreases xs, 0
  {
    && |xs| == |ys| && Bijection(p, |xs|)
    && forall i | 0 <= i < |xs| :: Same(xs[i], ys[p[i]], tolerance, true)
  }

  // -- Same is an equivalence -----------------------------------------------------------------------

  function Identity(n: nat): (p: seq<nat>)
    ensures |p| == n && forall i | 0 <= i < n :: p[i] == i
  {
    seq(n, i => i)
  }

  lemma {:induction false} SameIsReflexive(x: Json, tolerance: real, unordered: bool)
    requires tolerance >= 0.0
    ensures Same(x, x, tolerance, unordered)
  {
    match x
    case Obj(fs) =>
      forall k | k in fs ensures Same(fs[k], fs[k], tolerance, unordered) {
        SameIsReflexive(fs[k], tolerance, unordered);
      }
    case List(xs) =>
      forall i | 0 <= i < |xs| ensures Same(xs[i], xs[i], tolerance, unordered) {
        SameIsReflexive(xs[i], tolerance, unordered);
      }
      InjectionIsOnto(Identity(|xs|), |xs|);
      assert unordered ==> PairsSame(xs, xs, Identity(|xs|), tolerance);
    case _ =>
  }

  lemma {:induction false} SameIsSymmetric(x: Json, y: Json, tolerance: real, unordered: bool)
    requires Same(x, y, tolerance, unordered)
    ensures Same(y, x, tolerance, unordered)
    decreases x
  {
    match x
    case Obj(fs) =>
      forall k | k in fs ensures Same(y.fields[k], fs[k], tolerance, unordered) {
        SameIsSymmetric(fs[k], y.fields[k], tolerance, unordered);
      }
    case List(xs) =>
      if y.List? && unordered {
        var p :| PairsSame(xs, y.items, p, tolerance);
        var q := Inverse(p);
        forall j | 0 <= j < |xs| ensures Same(y.items[j], xs[q[j]], tolerance, true) {
          assert p[q[j]] == j;
          SameIsSymmetric(xs[q[j]], y.items[j], tolerance, true);
        }
        assert PairsSame(y.items, xs, q, tolerance);
      } else if y.List? {
        forall i | 0 <= i < |xs| ensures Same(y.items[i], xs[i], tolerance, false) {
          SameIsSymmetric(xs[i], y.items[i], tolerance, false);
        }
      }
    case _ =>
  }

  lemma {:induction false} SameIsTransitive(x: Json, y: Json, z: Json, unordered: bool)
    requires Same(x, y, 0.0, unordered) && Same(y, z, 0.0, unordered)
    ensures Same(x, z, 0.0, unordered)
    decreases x
  {
    match x
    case Obj(fs) =>
      forall k | k in fs ensures Same(fs[k], z.fields[k], 0.0, unordered) {
        SameIsTransitive(fs[k], y.fields[k], z.fields[k], unordered);
      }
    case List(xs) =>
      if y.List? && z.List? && unordered {
        var p :| PairsSame(xs, y.items, p, 0.0);
        var q :| PairsSame(y.items, z.items, q, 0.0);
        var r := seq(|p|, i requires 0 <= i < |p| => q[p[i]]);
        InjectionIsOnto(r, |xs|);
        forall i | 0 <= i < |xs| ensures Same(xs[i], z.items[r[i]], 0.0, true) {
          SameIsTransitive(xs[i], y.items[p[i]], z.items[r[i]], true);
        }
        assert PairsSame(xs, z.items, r, 0.0);
      } else if z.List? && unordered {
        assert PairsSame(xs, z.items, [], 0.0);
      } else if y.List? && z.List? {
        forall i | 0 <= i < |xs| ensures Same(xs[i], z.items[i], 0.0, false) {
          SameIsTransitive(xs[i], y.items[i], z.items[i], false);
        }
      }
    case _ =>
  }

  // -- facts at every tolerance ---------------------------------------------------------------------

  lemma SameKeys(m: map<string, Json>, n: map<string, Json>)
    requires |m| == |n| && forall k | k in m :: k in n
    ensures m.Keys == n.Keys
  {
    assert |m.Keys| == |m| && |n.Keys| == |n|;
    if k :| k in n.Keys && k !in m.Keys {
      SubsetSize(m.Keys, n.Keys - {k});
      assert false;
    }
  }

  /** A value always matches itself. */
  lemma {:induction false} MatchesIsReflexive(x: Json, tolerance: real, unordered: bool)
    requires tolerance >= 0.0
    ensures Matches(x, x, tolerance, unordered)
  {
    match x
    case Obj(fs) =>
      forall k | k in fs ensures Matches(fs[k], fs[k], tolerance, unordered) {
        MatchesIsReflexive(fs[k], tolerance, unordered);
      }
    case List(xs) =>
      forall i | 0 <= i < |xs| ensures Matches(xs[i], xs[i], tolerance, unordered) {
        MatchesIsReflexive(xs[i], tolerance, unordered);
      }
      if unordered {
        DiagonalIsFound(Cells(xs, xs, tolerance));
      }
    case _ =>
  }

  /** The verdict does not depend on which value is called expected, at any tolerance: greedy computes
      the one stable pairing, and that is the same seen from either list. */
  lemma {:induction false} MatchesIsSymmetric(x: Json, y: Json, tolerance: real, unordered: bool)
    requires Matches(x, y, tolerance, unordered)
    ensures Matches(y, x, tolerance, unordered)
    decreases x
  {
    if x.Obj? && y.Obj? {
      SameKeys(x.fields, y.fields);
      forall k | k in x.fields ensures Matches(y.fields[k], x.fields[k], tolerance, unordered) {
        MatchesIsSymmetric(x.fields[k], y.fields[k], tolerance, unordered);
      }
    } else if x.List? && y.List? && unordered {
      CellsTranspose(x.items, y.items, tolerance);
      GreedyIsSymmetric(Cells(x.items, y.items, tolerance), Cells(y.items, x.items, tolerance));
    } else if x.List? && y.List? {
      forall i | 0 <= i < |x.items| ensures Matches(y.items[i], x.items[i], tolerance, false) {
        MatchesIsSymmetric(x.items[i], y.items[i], tolerance, false);
      }
    }
  }

  lemma {:induction false} CellsTranspose(xs: seq<Json>, ys: seq<Json>, tolerance: real)
    requires |xs| == |ys|
    ensures Transposed(Cells(xs, ys, tolerance), Cells(ys, xs, tolerance))
    decreases xs
  {
    forall i: nat, j: nat | i < |xs| && j < |ys|
      ensures Matches(xs[i], ys[j], tolerance, true) == Matches(ys[j], xs[i], tolerance, true)
    {
      if Matches(xs[i], ys[j], tolerance, true) {
        MatchesIsSymmetric(xs[i], ys[j], tolerance, true);
      }
      if Matches(ys[j], xs[i], tolerance, true) {
        MatchesBackwards(ys[j], xs[i], tolerance);
      }
    }
  }

  /** The converse of symmetry, by induction on the second value. */
  lemma {:induction false} MatchesBackwards(y: Json, x: Json, tolerance: real)
    requires Matches(y, x, tolerance, true)
    ensures Matches(x, y, tolerance, true)
    decreases x
  {
    if x.Obj? && y.Obj? {
      SameKeys(y.fields, x.fields);
      forall k | k in x.fields ensures Matches(x.fields[k], y.fields[k], tolerance, true) {
        MatchesBackwards(y.fields[k], x.fields[k], tolerance);
      }
    } else if x.List? && y.List? {
      CellsTranspose(x.items, y.items, tolerance);
      GreedyIsSymmetric(Cells(y.items, x.items, tolerance), Cells(x.items, y.items, tolerance));
    }
  }

  /** What passes in order passes when order is ignored: greedy then pairs equal positions. */
  lemma {:induction false} OrderedImpliesUnordered(x: Json, y: Json, tolerance: real)
    requires Matches(x, y, tolerance, false)
    ensures Matches(x, y, tolerance, true)
  {
    if x.Obj? && y.Obj? {
      forall k | k in x.fields ensures Matches(x.fields[k], y.fields[k], tolerance, true) {
        OrderedImpliesUnordered(x.fields[k], y.fields[k], tolerance);
      }
    } else if x.List? && y.List? {
      forall i | 0 <= i < |x.items| ensures Matches(x.items[i], y.items[i], tolerance, true) {
        OrderedImpliesUnordered(x.items[i], y.items[i], tolerance);
      }
      DiagonalIsFound(Cells(x.items, y.items, tolerance));
    }
  }

  /** Acceptance is always justified: at every tolerance and depth, there is a pairing behind it. */
  lemma {:induction false} MatchesIsSound(x: Json, y: Json, tolerance: real, unordered: bool)
    requires tolerance >= 0.0 && Matches(x, y, tolerance, unordered)
    ensures Same(x, y, tolerance, unordered)
  {
    if x.Obj? && y.Obj? {
      SameKeys(x.fields, y.fields);
      forall k | k in x.fields ensures Same(x.fields[k], y.fields[k], tolerance, unordered) {
        MatchesIsSound(x.fields[k], y.fields[k], tolerance, unordered);
      }
    } else if x.List? && y.List? && unordered {
      var g := Cells(x.items, y.items, tolerance);
      GreedyIffStable(g);
      var p :| Pairing(g, p) && Stable(g, p);
      forall i | 0 <= i < |x.items| ensures Same(x.items[i], y.items[p[i]], tolerance, true) {
        assert Allowed(g, i, p[i]);
        MatchesIsSound(x.items[i], y.items[p[i]], tolerance, true);
      }
      assert PairsSame(x.items, y.items, p, tolerance);
    } else if x.List? && y.List? {
      forall i | 0 <= i < |x.items| ensures Same(x.items[i], y.items[i], tolerance, false) {
        MatchesIsSound(x.items[i], y.items[i], tolerance, false);
      }
    }
  }

  /** In order-insensitive mode, acceptance of two lists means exactly that a stable pairing of
      matching elements exists. This is all that can be said at a positive tolerance. */
  lemma UnorderedMeansStablePairing(xs: seq<Json>, ys: seq<Json>, tolerance: real)
    ensures Matches(List(xs), List(ys), tolerance, true) <==>
            |xs| == |ys| && HasStablePairing(Cells(xs, ys, tolerance))
  {
    if |xs| == |ys| {
      var g := Cells(xs, ys, tolerance);
      GreedyIffStable(g);
      assert Matches(List(xs), List(ys), tolerance, true) == Greedy(g, 0, NoneUsed(|g|));
    }
  }

  // -- exactness --------------------------------------------------------------------------------------

  /** Whenever values that are the same are never told apart: exact comparison, or comparison in order. */
  lemma {:induction false} MatchesIsComplete(x: Json, y: Json, tolerance: real, unordered: bool)
    requires tolerance == 0.0 || (tolerance > 0.0 && !unordered)
    requires Same(x, y, tolerance, unordered)
    ensures Matches(x, y, tolerance, unordered)
  {
    if x.Obj? && y.Obj? {
      assert |x.fields.Keys| == |x.fields| && |y.fields.Keys| == |y.fields|;
      forall k | k in x.fields ensures Matches(x.fields[k], y.fields[k], tolerance, unordered) {
        MatchesIsComplete(x.fields[k], y.fields[k], tolerance, unordered);
      }
    } else if x.List? && y.List? && unordered {
      var g := Cells(x.items, y.items, 0.0);
      forall i: nat, j: nat | i < |g| && j < |g| ensures Allowed(g, i, j) == Same(x.items[i], y.items[j], 0.0, true) {
        if Same(x.items[i], y.items[j], 0.0, true) {
          MatchesIsComplete(x.items[i], y.items[j], 0.0, true);
        }
        if Allowed(g, i, j) {
          MatchesIsSound(x.items[i], y.items[j], 0.0, true);
        }
      }
      forall i: nat, r: nat, j: nat, c: nat | Allowed(g, i, j) && Allowed(g, i, c) && Allowed(g, r, j)
        ensures Allowed(g, r, c)
      {
        SameIsSymmetric(x.items[i], y.items[j], 0.0, true);
        SameIsTransitive(x.items[r], y.items[j], x.items[i], true);
        SameIsTransitive(x.items[r], x.items[i], y.items[c], true);
      }
      GreedyIffPairing(g);
      var p :| PairsSame(x.items, y.items, p, 0.0);
      assert Pairing(g, p);
    } else if x.List? && y.List? {
      forall i | 0 <= i < |x.items| ensures Matches(x.items[i], y.items[i], tolerance, false) {
        MatchesIsComplete(x.items[i], y.items[i], tolerance, false);
      }
    }
  }

  /** At tolerance 0, and in order at any tolerance, the comparator accepts exactly the pairs that are the same. */
  lemma MatchesIffSame(x: Json, y: Json, tolerance: real, unordered: bool)
    requires tolerance == 0.0 || (tolerance > 0.0 && !unordered)
    ensures Matches(x, y, tolerance, unordered) <==> Same(x, y, tolerance, unordered)
  {
    if Matches(x, y, tolerance, unordered) {
      MatchesIsSound(x, y, tolerance, unordered);
    }
    if Same(x, y, tolerance, unordered) {
      MatchesIsComplete(x, y, tolerance, unordered);
    }
  }

  lemma ExactMatchesIsTransitive(x: Json, y: Json, z: Json, unordered: bool)
    requires Matches(x, y, 0.0, unordered) && Matches(y, z, 0.0, unordered)
    ensures Matches(x, z, 0.0, unordered)
  {
    MatchesIffSame(x, y, 0.0, unordered);
    MatchesIffSame(y, z, 0.0, unordered);
    SameIsTransitive(x, y, z, unordered);
    MatchesIffSame(x, z, 0.0, unordered);
  }

  /** The exact verdict only depends on what the two values are the same as: lists may be permuted,
      and null swapped for the empty list, at any depth of either value. */
  lemma VerdictSurvivesRearranging(x: Json, x': Json, y: Json, y': Json, unordered: bool)
    requires Same(x, x', 0.0, unordered) && Same(y, y', 0.0, unordered)
    ensures Matches(x, y, 0.0, unordered) <==> Matches(x', y', 0.0, unordered)
  {
    MatchesIffSame(x, y, 0.0, unordered);
    MatchesIffSame(x', y', 0.0, unordered);
    SameIsSymmetric(x, x', 0.0, unordered);
    SameIsSymmetric(y, y', 0.0, unordered);
    if Same(x, y, 0.0, unordered) {
      SameIsTransitive(x', x, y, unordered);
      SameIsTransitive(x', y, y', unordered);
    }
    if Same(x', y', 0.0, unordered) {
      SameIsTransitive(x, x', y', unordered);
      SameIsTransitive(x, y', y, unordered);
    }
  }

  function Permuted(xs: seq<Json>, p: seq<nat>): (ys: seq<Json>)
    requires |p| == |xs| && forall i | 0 <= i < |p| :: p[i] < |xs|
    ensures |ys| == |xs|
  {
    seq(|xs|, i requires 0 <= i < |xs| => xs[p[i]])
  }

  lemma VerdictSurvivesPermuting(xs: seq<Json>, ys: seq<Json>, p: seq<nat>)
    requires Bijection(p, |ys|)
    ensures Matches(List(xs), List(Permuted(ys, p)), 0.0, true) <==> Matches(List(xs), List(ys), 0.0, true)
    ensures Matches(List(Permuted(ys, p)), List(xs), 0.0, true) <==> Matches(List(ys), List(xs), 0.0, true)
  {
    forall i | 0 <= i < |ys| ensures Same(Permuted(ys, p)[i], ys[p[i]], 0.0, true) {
      SameIsReflexive(ys[p[i]], 0.0, true);
    }
    assert PairsSame(Permuted(ys, p), ys, p, 0.0);
    SameIsReflexive(List(xs), 0.0, true);
    VerdictSurvivesRearranging(List(xs), List(xs), List(Permuted(ys, p)), List(ys), true);
    VerdictSurvivesRearranging(List(Permuted(ys, p)), List(ys), List(xs), List(xs), true);
  }

  // -- every configuration -----------------------------------------------------------------------------

  /** What the comparison amounts to at every tolerance and in both modes, without the matching that computes
      it: the two sides of null, numbers, objects and lists, and without order a pairing in which no element
      passes over an earlier one that it could have had. */
  ghost predicate Related(x: Json, y: Json, tolerance: real, unordered: bool)
    decreases x, 1
  {
    match x
    case Null => y == Null || y == List([])
    case Bool(_) => x == y
    case Str(_) => x == y
    case Num(n) =>
      y.Num? && if tolerance > 0.0 then y.n - tolerance <= n <= y.n + tolerance else n == y.n
    case Obj(fs) =>
      y.Obj? && fs.Keys == y.fields.Keys && forall k | k in fs :: Related(fs[k], y.fields[k], tolerance, unordered)
    case List(xs) =>
      if y.Null? then xs == []
      else
        && y.List? && |xs| == |y.items|
        && if unordered then Pairable(xs, y.items, tolerance)
           else forall i | 0 <= i < |xs| :: Related(xs[i], y.items[i], tolerance, false)
  }

  ghost predicate Pairable(xs: seq<Json>, ys: seq<Json>, tolerance: real)
    decreases xs, 1
  {
    exists p :: Paired(xs, ys, p, tolerance)
  }

  /** `p` pairs the two lists one-to-one, each element with a related one; and whatever earlier element an
      element is related to has gone to one before it. */
  ghost predicate Paired(xs: seq<Json>, ys: seq<Json>, p: seq<nat>, tolerance: real)
    decreases xs, 0
  {
    && |xs| == |ys| && Bijection(p, |xs|)
    && (forall i | 0 <= i < |xs| :: Related(xs[i], ys[p[i]], tolerance, true))
    && (forall i: nat, j: nat | i < |xs| && j < p[i] && Related(xs[i], ys[j], tolerance, true) :: Taken(p, i, j))
  }

  lemma {:induction false} MatchesIffRelated(x: Json, y: Json, tolerance: real, unordered: bool)
    ensures Matches(x, y, tolerance, unordered) <==> Related(x, y, tolerance, unordered)
    decreases x
  {
    match (x, y)
    case (List(xs), List(ys)) =>
      if |xs| == |ys| {
        ListsMatchIffRelated(xs, ys, tolerance, unordered);
      }
    case (Obj(m), Obj(n)) =>
      forall k | k in m && k in n
        ensures Matches(m[k], n[k], tolerance, unordered) <==> Related(m[k], n[k], tolerance, unordered)
      {
        MatchesIffRelated(m[k], n[k], tolerance, unordered);
      }
      FieldsMatchIffRelated(m, n, tolerance, unordered);
    case _ =>
  }

  lemma FieldsMatchIffRelated(m: map<string, Json>, n: map<string, Json>, tolerance: real, unordered: bool)
    requires forall k | k in m && k in n ::
      Matches(m[k], n[k], tolerance, unordered) <==> Related(m[k], n[k], tolerance, unordered)
    ensures Matches(Obj(m), Obj(n), tolerance, unordered) <==> Related(Obj(m), Obj(n), tolerance, unordered)
  {
    if |m| == |n| && forall k | k in m :: k in n {
      SameKeys(m, n);
    }
    if m.Keys == n.Keys {
      assert |m.Keys| == |m| && |n.Keys| == |n|;
    }
  }

  lemma {:induction false} ListsMatchIffRelated(xs: seq<Json>, ys: seq<Json>, tolerance: real, unordered: bool)
    requires |xs| == |ys|
    ensures Matches(List(xs), List(ys), tolerance, unordered) <==> Related(List(xs), List(ys), tolerance, unordered)
    decreases xs
  {
    if unordered {
      forall i, j | 0 <= i < |xs| && 0 <= j < |ys|
        ensures Matches(xs[i], ys[j], tolerance, true) <==> Related(xs[i], ys[j], tolerance, true)
      {
        MatchesIffRelated(xs[i], ys[j], tolerance, true);
      }
      GreedyIffPaired(xs, ys, tolerance);
    } else {
      forall i | 0 <= i < |xs| ensures Matches(xs[i], ys[i], tolerance, false) <==> Related(xs[i], ys[i], tolerance, false) {
        MatchesIffRelated(xs[i], ys[i], tolerance, false);
      }
    }
  }

  lemma GreedyIffPaired(xs: seq<Json>, ys: seq<Json>, tolerance: real)
    requires |xs| == |ys|
    requires forall i, j | 0 <= i < |xs| && 0 <= j < |ys| ::
      Matches(xs[i], ys[j], tolerance, true) <==> Related(xs[i], ys[j], tolerance, true)
    ensures var g := Cells(xs, ys, tolerance); Greedy(g, 0, NoneUsed(|g|)) <==> Pairable(xs, ys, tolerance)
  {
    var g := Cells(xs, ys, tolerance);
    GreedyIffStable(g);
    if HasStablePairing(g) {
      var p :| Pairing(g, p) && Stable(g, p);
      PairedIffPairing(xs, ys, tolerance, p);
    }
    if p :| Paired(xs, ys, p, tolerance) {
      PairedIffPairing(xs, ys, tolerance, p);
    }
  }

  lemma PairedIffPairing(xs: seq<Json>, ys: seq<Json>, tolerance: real, p: seq<nat>)
    requires |xs| == |ys|
    requires forall i, j | 0 <= i < |xs| && 0 <= j < |ys| ::
      Matches(xs[i], ys[j], tolerance, true) <==> Related(xs[i], ys[j], tolerance, true)
    ensures var g := Cells(xs, ys, tolerance); Pairing(g, p) && Stable(g, p) <==> Paired(xs, ys, p, tolerance)
  {
    var g := Cells(xs, ys, tolerance);
    forall i: nat, j: nat | i < |xs| && j < |ys|
      ensures Allowed(g, i, j) <==> Related(xs[i], ys[j], tolerance, true)
    {
      assert g[i][j] == Matches(xs[i], ys[j], tolerance, true);
    }
  }

  // -- where first-fit falls short ---------------------------------------------------------------------

  function Scaled(t: real, ns: seq<int>): (v: Json)
    ensures v.List? && |v.items| == |ns|
  {
    List(seq(|ns|, i requires 0 <= i < |ns| => Num(t * ns[i] as real)))
  }

  /** At any positive tolerance `t`, the expected list [t, 2t, 0, 3t] is refused against its own
      rearrangement [2t, 3t, 0, t], which exact comparison accepts: first fit gives 2t to t, then 3t to
      2t, then 0 to 0, and nothing near 3t is left. */
  lemma FirstFitRefusesARearrangement(t: real)
    requires t > 0.0
    ensures var e, a := Scaled(t, [1, 2, 0, 3]), Scaled(t, [2, 3, 0, 1]);
            && Same(e, a, t, true) && !Matches(e, a, t, true)
            && Same(e, a, 0.0, true) && Matches(e, a, 0.0, true)
  {
    var e, a := Scaled(t, [1, 2, 0, 3]), Scaled(t, [2, 3, 0, 1]);
    assert e.items == [Num(t), Num(2.0 * t), Num(0.0), Num(3.0 * t)];
    assert a.items == [Num(2.0 * t), Num(3.0 * t), Num(0.0), Num(t)];
    var p := [3, 0, 2, 1];
    assert Bijection(p, 4) by {
      InjectionIsOnto(p, 4);
    }
    assert PairsSame(e.items, a.items, p, 0.0) && PairsSame(e.items, a.items, p, t);
    MatchesIsComplete(e, a, 0.0, true);
    FirstFitRuns(e, a, t);
  }

  lemma FirstFitRuns(e: Json, a: Json, t: real)
    requires t > 0.0 && e.List? && a.List?
    requires e.items == [Num(t), Num(2.0 * t), Num(0.0), Num(3.0 * t)]
    requires a.items == [Num(2.0 * t), Num(3.0 * t), Num(0.0), Num(t)]
    ensures !Matches(e, a, t, true)
  {
    var g := Cells(e.items, a.items, t);
    forall i, j | 0 <= i < 4 && 0 <= j < 4 ensures g[i][j] == NumbersMatch(e.items[i].n, a.items[j].n, t) {
      assert g[i][j] == Matches(e.items[i], a.items[j], t, true);
    }
    assert g[0][0] && !g[1][2] && g[1][1] && !g[2][0] && !g[2][1] && g[2][2] && !g[3][2] && !g[3][3];
    assert g[1][0];
    var u := NoneUsed(4);
    var u1, u2 := u[0 := true], u[0 := true][1 := true];
    var u3 := u2[2 := true];
    assert FirstFit(g[0], u, 0) == 0;
    assert FirstFit(g[1], u1, 0) == 1;
    assert FirstFit(g[2], u2, 0) == 2;
    assert FirstFit(g[3], u3, 0) == 4;
    assert !Greedy(g, 3, u3);
    assert !Greedy(g, 2, u2);
    assert !Greedy(g, 1, u1);
  }

  /** A configuration recognises every pair of values that are the same exactly when it compares
      exactly or in order. */
  lemma ExactConfigurations(tolerance: real, unordered: bool)
    requires tolerance >= 0.0
    ensures (forall x, y :: Matches(x, y, tolerance, unordered) <==> Same(x, y, tolerance, unordered)) <==>
            (tolerance == 0.0 || !unordered)
  {
    if tolerance == 0.0 || !unordered {
      forall x, y ensures Matches(x, y, tolerance, unordered) <==> Same(x, y, tolerance, unordered) {
        MatchesIffSame(x, y, tolerance, unordered);
      }
    } else {
      FirstFitRefusesARearrangement(tolerance);
    }
  }

  /** In order, a wider tolerance accepts all that a narrower one does. */
  lemma {:induction false} WideningKeepsOrdered(x: Json, y: Json, t: real, u: real)
    requires 0.0 <= t <= u && Matches(x, y, t, false)
    ensures Matches(x, y, u, false)
  {
    match (x, y)
    case (List(xs), List(ys)) =>
      forall i | 0 <= i < |xs| ensures Matches(xs[i], ys[i], u, false) {
        WideningKeepsOrdered(xs[i], ys[i], t, u);
      }
    case (Obj(m), Obj(n)) =>
      forall k | k in m ensures Matches(m[k], n[k], u, false) {
        WideningKeepsOrdered(m[k], n[k], t, u);
      }
    case _ =>
  }

  // The multiples of `u` in a list stay apart at every tolerance below `u`.
  lemma NarrowCellsAreExact(xs: seq<Json>, ys: seq<Json>, ms: seq<int>, ns: seq<int>, t: real, u: real)
    requires 0.0 <= t < u && |ms| == |ns|
    requires xs == Scaled(u, ms).items && ys == Scaled(u, ns).items
    ensures Cells(xs, ys, t) == Cells(xs, ys, 0.0)
  {
    var g, h := Cells(xs, ys, t), Cells(xs, ys, 0.0);
    forall i, j | 0 <= i < |ms| && 0 <= j < |ms| ensures g[i][j] == h[i][j] {
      MultiplesStayApart(ms[i], ns[j], t, u);
      assert g[i][j] == Matches(xs[i], ys[j], t, true) && h[i][j] == Matches(xs[i], ys[j], 0.0, true);
    }
    forall i | 0 <= i < |ms| ensures g[i] == h[i] {
    }
  }

  lemma MultiplesStayApart(m: int, n: int, t: real, u: real)
    requires 0.0 <= t < u
    ensures NumbersMatch(u * m as real, u * n as real, t) <==> m == n
    ensures NumbersMatch(u * m as real, u * n as real, 0.0) <==> m == n
  {
    var p, q := u * m as real, u * n as real;
    if m > n {
      OneApart(u, n as real, m as real, q, p, t);
    } else if m < n {
      OneApart(u, m as real, n as real, p, q, t);
    }
    assert NumbersMatch(p, q, t) <==> m == n;
  }

  lemma OneApart(u: real, x: real, y: real, p: real, q: real, t: real)
    requires 0.0 <= t < u && x + 1.0 <= y && p == u * x && q == u * y
    ensures !NumbersMatch(p, q, t) && !NumbersMatch(q, p, t)
    ensures !NumbersMatch(p, q, 0.0) && !NumbersMatch(q, p, 0.0)
  {
    var rest := y - x - 1.0;
    assert u * rest >= 0.0;
    assert q == p + u + u * rest;
  }

  /** The same two lists, accepted at every tolerance below `u` and refused at `u`. */
  lemma WideningLosesARearrangement(t: real, u: real)
    requires 0.0 <= t < u
    ensures var e, a := Scaled(u, [1, 2, 0, 3]), Scaled(u, [2, 3, 0, 1]); Matches(e, a, t, true) && !Matches(e, a, u, true)
  {
    var ms, ns := [1, 2, 0, 3], [2, 3, 0, 1];
    var e, a := Scaled(u, ms), Scaled(u, ns);
    FirstFitRefusesARearrangement(u);
    NarrowCellsAreExact(e.items, a.items, ms, ns, t, u);
    UnorderedMeansStablePairing(e.items, a.items, t);
    UnorderedMeansStablePairing(e.items, a.items, 0.0);
  }

  /** Widening a tolerance never loses an acceptance exactly when order is kept, whichever two tolerances
      they are. */
  lemma WideningIsSafeIff(t: real, u: real, unordered: bool)
    requires 0.0 <= t < u
    ensures (forall x, y | Matches(x, y, t, unordered) :: Matches(x, y, u, unordered)) <==> !unordered
  {
    if unordered {
      WideningLosesARearrangement(t, u);
    } else {
      forall x, y | Matches(x, y, t, false) ensures Matches(x, y, u, false) {
        WideningKeepsOrdered(x, y, t, u);
      }
    }
  }

  // -- the code ------------------------------------------------------------------------------------------

  /** Negative tolerances count as zero. Acceptance is always justified; a refusal is too unless the
      order is ignored at a positive tolerance. */
  method Compare(expected: Json, actual: Json, cfg: Config) returns (ok: bool)
    ensures ok <==> Matches(expected, actual, Tolerance(cfg), cfg.orderInsensitive)
    ensures ok <==> Related(expected, actual, if cfg.floatTolerance < 0.0 then 0.0 else cfg.floatTolerance, cfg.orderInsensitive)
    ensures ok ==> Same(expected, actual, Tolerance(cfg), cfg.orderInsensitive)
    ensures cfg.floatTolerance <= 0.0 || !cfg.orderInsensitive ==>
              (ok <==> Same(expected, actual, Tolerance(cfg), cfg.orderInsensitive))
  {
    var tolerance := cfg.floatTolerance;
    if tolerance < 0.0 {
      tolerance := 0.0;
    }
    ok := CompareValue(expected, actual, tolerance, cfg.orderInsensitive);
    MatchesIffRelated(expected, actual, tolerance, cfg.orderInsensitive);
    if ok {
      MatchesIsSound(expected, actual, tolerance, cfg.orderInsensitive);
    } else if tolerance == 0.0 || !cfg.orderInsensitive {
      MatchesIffSame(expected, actual, tolerance, cfg.orderInsensitive);
    }
  }

  method CompareValue(expected: Json, actual: Json, tolerance: real, unordered: bool) returns (ok: bool)
    ensures ok <==> Matches(expected, actual, tolerance, unordered)
    ensures ok <==> Related(expected, actual, tolerance, unordered)
    decreases expected, 1
  {
    MatchesIffRelated(expected, actual, tolerance, unordered);
    if expected.Null? || actual.Null? {
      return IsEmpty(expected) && IsEmpty(actual);
    }
    if expected.Num? {
      return actual.Num? && NumbersMatch(expected.n, actual.n, tolerance);
    }
    if expected.Obj? {
      if !actual.Obj? || |expected.fields| != |actual.fields| {
        return false;
      }
      var keys := expected.fields.Keys;
      while keys != {}
        invariant keys <= expected.fields.Keys
        invariant forall k | k in expected.fields.Keys - keys ::
          k in actual.fields && Matches(expected.fields[k], actual.fields[k], tolerance, unordered)
      {
        var k :| k in keys;
        if k !in actual.fields {
          return false;
        }
        var same := CompareValue(expected.fields[k], actual.fields[k], tolerance, unordered);
        if !same {
          return false;
        }
        keys := keys - {k};
      }
      return true;
    }
    if expected.List? {
      if !actual.List? || |expected.items| != |actual.items| {
        return false;
      }
      if unordered {
        ok := CompareSlicesUnordered(expected.items, actual.items, tolerance);
        return;
      }
      for i := 0 to |expected.items|
        invariant forall c | 0 <= c < i :: Matches(expected.items[c], actual.items[c], tolerance, false)
      {
        var same := CompareValue(expected.items[i], actual.items[i], tolerance, false);
        if !same {
          return false;
        }
      }
      return true;
    }
    return expected == actual;
  }

  method CompareSlicesUnordered(expected: seq<Json>, actual: seq<Json>, tolerance: real) returns (ok: bool)
    requires |expected| == |actual|
    ensures ok <==> var g := Cells(expected, actual, tolerance); Greedy(g, 0, NoneUsed(|g|))
    decreases expected, 0
  {
    ghost var g := Cells(expected, actual, tolerance);
    ghost var verdict := Greedy(g, 0, NoneUsed(|g|));
    ghost var taken := NoneUsed(|g|);
    var used := new bool[|actual|](_ => false);
    for k := 0 to |expected|
      invariant |taken| == |g| && used[..] == taken
      invariant verdict <==> Greedy(g, k, taken)
    {
      var match_ := -1;
      var i := 0;
      while i < |actual|
        invariant 0 <= i <= |actual| && match_ == -1
        invariant used[..] == taken
        invariant FirstFit(g[k], taken, 0) == FirstFit(g[k], taken, i)
      {
        if !used[i] {
          var same := CompareValue(expected[k], actual[i], tolerance, true);
          assert same <==> g[k][i];
          if same {
            match_ := i;
            break;
          }
        }
        i := i + 1;
      }
      if match_ == -1 {
        return false;
      }
      GreedyStep(g, k, taken, match_);
      used[match_] := true;
      taken := taken[match_ := true];
      assert used[..] == taken;
    }
    return true;
  }
}
