/** The clock harness's Frobenius sums in exact real arithmetic: the compressed form sums over clock-energy
    differences with their multiplicities, the dense form over every entry of the explicit matrix. */
module ClockSums {
  import opened ClockEntries

  // ---- Finite sums ----

  /** The sum of f(i) for lo <= i < hi. */
  function Sum(lo: int, hi: int, f: int -> real): real
    decreases hi - lo
  {
    if hi <= lo then 0.0 else Sum(lo, hi - 1, f) + f(hi - 1)
  }

  lemma {:induction false} SumSame(lo: int, hi: int, f: int -> real, g: int -> real)
    requires forall i :: lo <= i < hi ==> f(i) == g(i)
    ensures Sum(lo, hi, f) == Sum(lo, hi, g)
    decreases hi - lo
  {
    if lo >= hi {
    } else {
      SumSame(lo, hi - 1, f, g);
    }
  }

  lemma {:induction false} SumAdd(lo: int, hi: int, f: int -> real, g: int -> real, h: int -> real)
    requires forall i :: lo <= i < hi ==> h(i) == f(i) + g(i)
    ensures Sum(lo, hi, h) == Sum(lo, hi, f) + Sum(lo, hi, g)
    decreases hi - lo
  {
    if lo >= hi {
    } else {
      SumAdd(lo, hi - 1, f, g, h);
    }
  }

  lemma {:induction false} SumScale(lo: int, hi: int, c: real, f: int -> real, h: int -> real)
    requires forall i :: lo <= i < hi ==> h(i) == c * f(i)
    ensures Sum(lo, hi, h) == c * Sum(lo, hi, f)
    decreases hi - lo
  {
    if lo >= hi {
    } else {
      SumScale(lo, hi - 1, c, f, h);
    }
  }

  lemma {:induction false} SumZero(lo: int, hi: int, f: int -> real)
    requires forall i :: lo <= i < hi ==> f(i) == 0.0
    ensures Sum(lo, hi, f) == 0.0
    decreases hi - lo
  {
    if lo >= hi {
    } else {
      SumZero(lo, hi - 1, f);
    }
  }

  lemma {:induction false} SumSplit(lo: int, mid: int, hi: int, f: int -> real)
    requires lo <= mid <= hi
    ensures Sum(lo, hi, f) == Sum(lo, mid, f) + Sum(mid, hi, f)
    decreases hi - mid
  {
    if mid >= hi {
    } else {
      SumSplit(lo, mid, hi - 1, f);
    }
  }

  /** Shifting the index range. */
  lemma {:induction false} SumShift(lo: int, hi: int, shift: int, f: int -> real, g: int -> real)
    requires forall i :: lo <= i < hi ==> f(i) == g(i + shift)
    ensures Sum(lo, hi, f) == Sum(lo + shift, hi + shift, g)
    decreases hi - lo
  {
    if lo >= hi {
    } else {
      SumShift(lo, hi - 1, shift, f, g);
    }
  }

  /** Summing backwards. */
  lemma {:induction false} SumReverse(n: nat, f: int -> real, g: int -> real)
    requires forall i :: 0 <= i < n ==> f(i) == g(n - 1 - i)
    ensures Sum(0, n, f) == Sum(0, n, g)
    decreases n
  {
    if n == 0 {
    } else {
      var h := (i: int) => g(i + 1);
      SumReverse(n - 1, f, h);
      SumShift(0, n - 1, 1, h, g);
      SumSplit(0, 1, n, g);
    }
  }

  function RowSum(n: nat, f: (int, int) -> real, i: int): real {
    Sum(0, n, (j: int) => f(i, j))
  }

  function ColumnSum(m: nat, f: (int, int) -> real, j: int): real {
    Sum(0, m, (i: int) => f(i, j))
  }

  /** Exchanging the order of a double sum. */
  lemma {:induction false} SumSwap(m: nat, n: nat, f: (int, int) -> real)
    ensures Sum(0, m, (i: int) => RowSum(n, f, i)) == Sum(0, n, (j: int) => ColumnSum(m, f, j))
    decreases m
  {
    if m == 0 {
      SumZero(0, n, (j: int) => ColumnSum(0, f, j));
    } else {
      SumSwap(m - 1, n, f);
      SumAdd(0, n, (j: int) => ColumnSum(m - 1, f, j), (j: int) => f(m - 1, j), (j: int) => ColumnSum(m, f, j));
    }
  }

  // ---- The compression ----

  function Abs(d: int): int {
    if d < 0 then -d else d
  }

  /** How many index pairs (j, k) of the grid 0..n have difference d. */
  function Multiplicity(n: nat, d: int): real {
    (n + 1 - Abs(d)) as real
  }

  /** The sum over column k of row j. */
  function DifferenceRow(n: int, f: int -> real, j: int): real {
    Sum(0, n + 1, (k: int) => f(j - k))
  }

  function DoubleSum(n: nat, f: int -> real): real {
    Sum(0, n + 1, (j: int) => DifferenceRow(n, f, j))
  }

  function CompressedTerm(n: nat, f: int -> real, d: int): real {
    Multiplicity(n, d) * f(d)
  }

  function CompressedTerms(n: nat, f: int -> real): int -> real {
    (d: int) => CompressedTerm(n, f, d)
  }

  function CompressedSum(n: nat, f: int -> real): real {
    Sum(0 - n, n + 1, CompressedTerms(n, f))
  }

  /** One more grid point adds one row, one column and one corner: every difference once more. */
  lemma DoubleSumGrows(n: nat, f: int -> real)
    requires n > 0
    ensures DoubleSum(n, f) == DoubleSum(n - 1, f) + Sum(0 - n, n + 1, f)
  {
    var row := (j: int) => DifferenceRow(n, f, j);
    var shorter := (j: int) => DifferenceRow(n - 1, f, j);
    var column := (j: int) => f(j - n);
    SumAdd(0, n, shorter, column, row);
    SumShift(0, n, 0 - n, column, f);
    assert Sum(0, n, column) == Sum(0 - n, 0, f);
    var corner := (k: int) => f(n - k);
    assert row(n) == Sum(0, n + 1, corner);
    SumReverse(n + 1, corner, f);
    SumSplit(0 - n, 0, n + 1, f);
    assert DoubleSum(n, f) == Sum(0, n, row) + row(n);
  }

  lemma CompressedSumGrows(n: nat, f: int -> real)
    requires n > 0
    ensures CompressedSum(n, f) == CompressedSum(n - 1, f) + Sum(0 - n, n + 1, f)
  {
    var wide := CompressedTerms(n, f);
    var narrow := CompressedTerms(n - 1, f);
    SumAdd(0 - n, n + 1, narrow, f, wide);
    assert narrow(0 - n) == 0.0 && narrow(n) == 0.0;
    SumSplit(0 - n, 1 - n, n + 1, narrow);
    assert Sum(0 - n, 1 - n, narrow) == Sum(0 - n, 0 - n, narrow) + narrow(0 - n);
    assert Sum(1 - n, n + 1, narrow) == Sum(1 - n, n, narrow) + narrow(n);
  }

  /** For every grid size and every function of the index difference, the double sum over grid points is the
      sum over differences weighted by their multiplicity. */
  lemma {:induction false} CompressionExact(n: nat, f: int -> real)
    ensures DoubleSum(n, f) == CompressedSum(n, f)
  {
    if n == 0 {
      SinglePoint(f);
    } else {
      CompressionExact(n - 1, f);
      DoubleSumGrows(n, f);
      CompressedSumGrows(n, f);
    }
  }

  lemma SumOne(i: int, f: int -> real)
    ensures Sum(i, i + 1, f) == f(i)
  {
    assert Sum(i, i, f) == 0.0;
  }

  lemma SinglePoint(f: int -> real)
    ensures DoubleSum(0, f) == f(0) && CompressedSum(0, f) == f(0)
  {
    var inner := (k: int) => f(0 - k);
    SumOne(0, (j: int) => DifferenceRow(0, f, j));
    SumOne(0, inner);
    SumOne(0, CompressedTerms(0, f));
  }

  // ---- The four norms ----

  /** What all norms share: the grid spacing and the squared entry as a function of the two differences. */
  datatype Kernel = Kernel(delta: real, entry: (real, real) -> real)

  function KernelOf(m: Model, norm: Norm): Kernel {
    Kernel(m.delta, (total: real, clockDiff: real) => Entry(m, norm, total, clockDiff))
  }

  function GridPoint(e: Kernel, j: int): real {
    GridStep(e.delta, j)
  }

  function TransitionEntry(e: Kernel, gap: real, d: int): real {
    e.entry(gap + GridPoint(e, d), GridPoint(e, d))
  }

  /** The entries of one matter transition, as a function of the clock index difference. */
  function Transition(e: Kernel, gap: real): int -> real {
    (d: int) => TransitionEntry(e, gap, d)
  }

  /** A matter transition: its Liouvillian gap and squared matrix element. */
  datatype Pair = Pair(gap: real, weight: real)

  function Contribution(e: Kernel, n: nat, p: Pair): real {
    Times(p.weight, CompressedSum(n, Transition(e, p.gap)))
  }

  function PairSum(e: Kernel, n: nat, pairs: seq<Pair>): real {
    if pairs == [] then 0.0
    else
      PairSum(e, n, pairs[..|pairs| - 1]) + Contribution(e, n, pairs[|pairs| - 1])
  }

  /** The summand the loop uses: matter weight times clock multiplicity times entry. */
  function WeightedTerm(e: Kernel, n: nat, p: Pair): int -> real {
    var t := Transition(e, p.gap);
    (d: int) => Times(p.weight, CompressedTerm(n, t, d))
  }

  lemma WeightedTermSum(e: Kernel, n: nat, p: Pair)
    ensures Sum(0 - n, n + 1, WeightedTerm(e, n, p)) == Contribution(e, n, p)
  {
    var t := Transition(e, p.gap);
    var f, h := CompressedTerms(n, t), WeightedTerm(e, n, p);
    forall d ensures h(d) == p.weight * f(d) { }
    SumScale(0 - n, n + 1, p.weight, f, h);
  }

  lemma WeightedSum(e: Kernel, n: nat, pairs: seq<Pair>, i: nat)
    requires i < |pairs|
    ensures PairSum(e, n, pairs[..i + 1]) == PairSum(e, n, pairs[..i]) + Sum(0 - n, n + 1, WeightedTerm(e, n, pairs[i]))
  {
    assert pairs[..i + 1][..i] == pairs[..i];
    WeightedTermSum(e, n, pairs[i]);
  }

  /** The loop over transitions: each norm accumulates the weighted sum over clock differences. */
  method RelationalNorms(m: Model, n: nat, pairs: seq<Pair>)
    returns (filtered: real, input: real, commutator: real, intertwining: real)
    ensures filtered == PairSum(KernelOf(m, Filtered), n, pairs) && input == PairSum(KernelOf(m, Input), n, pairs)
    ensures commutator == PairSum(KernelOf(m, Commutator), n, pairs)
    ensures intertwining == PairSum(KernelOf(m, Intertwining), n, pairs)
  {
    var f, x, c, w := KernelOf(m, Filtered), KernelOf(m, Input), KernelOf(m, Commutator), KernelOf(m, Intertwining);
    filtered, input, commutator, intertwining := 0.0, 0.0, 0.0, 0.0;
    for i := 0 to |pairs|
      invariant filtered == PairSum(f, n, pairs[..i]) && input == PairSum(x, n, pairs[..i])
      invariant commutator == PairSum(c, n, pairs[..i]) && intertwining == PairSum(w, n, pairs[..i])
    {
      var p := pairs[i];
      WeightedSum(f, n, pairs, i);
      WeightedSum(x, n, pairs, i);
      WeightedSum(c, n, pairs, i);
      WeightedSum(w, n, pairs, i);
      filtered := filtered + Sum(0 - n, n + 1, WeightedTerm(f, n, p));
      input := input + Sum(0 - n, n + 1, WeightedTerm(x, n, p));
      commutator := commutator + Sum(0 - n, n + 1, WeightedTerm(c, n, p));
      intertwining := intertwining + Sum(0 - n, n + 1, WeightedTerm(w, n, p));
    }
    assert pairs[..|pairs|] == pairs;
  }

  // ---- The dense form ----

  /** `levels` energies and the squared matrix elements of the observable in their basis. */
  datatype Matter = Matter(levels: nat, energy: int -> real, weight: (int, int) -> real)

  /** The squared entry at row (a, j) and column (b, k): matter levels a and b, grid points j and k. */
  function SquaredEntry(e: Kernel, x: Matter, a: int, j: int, b: int, k: int): real {
    x.weight(a, b) * e.entry((x.energy(a) + GridPoint(e, j)) - (x.energy(b) + GridPoint(e, k)),
                             GridPoint(e, j) - GridPoint(e, k))
  }

  function DenseRow(e: Kernel, x: Matter, points: int, r: int): int -> real
    requires points > 0
  {
    (c: int) => SquaredEntry(e, x, r / points, r % points, c / points, c % points)
  }

  function DenseRowSum(e: Kernel, x: Matter, points: nat, r: int): real
    requires points > 0
  {
    Sum(0, x.levels * points, DenseRow(e, x, points, r))
  }

  /** The squared Frobenius norm over the explicit matrix: row r stands for level r / points, grid point
      r % points, and so do the columns. */
  function DenseNorm(e: Kernel, x: Matter, n: nat): real {
    Sum(0, x.levels * (n + 1), (r: int) => DenseRowSum(e, x, n + 1, r))
  }

  lemma OnlyZeroMultiple(q: int, p: int)
    requires -p < q * p < p
    ensures q == 0
  {
    assert q >= 1 ==> q * p >= p;
    assert q <= -1 ==> q * p <= -p;
  }

  lemma BlockIndex(a: int, p: int, j: int)
    requires p > 0 && 0 <= j < p
    ensures (a * p + j) / p == a && (a * p + j) % p == j
  {
    var q, r := (a * p + j) / p, (a * p + j) % p;
    assert a * p + j == q * p + r;
    assert (a - q) * p == r - j;
    OnlyZeroMultiple(a - q, p);
  }

  /** Summing a flattened index block by block. */
  lemma {:induction false} SumBlocks(levels: nat, p: nat, g: int -> real, blocks: int -> real)
    requires forall a :: 0 <= a < levels ==> blocks(a) == Sum(0, p, (j: int) => g(a * p + j))
    ensures Sum(0, levels * p, g) == Sum(0, levels, blocks)
    decreases levels
  {
    if levels > 0 {
      var a := levels - 1;
      SumBlocks(a, p, g, blocks);
      assert levels * p == a * p + p;
      SumSplit(0, a * p, levels * p, g);
      SumShift(0, p, a * p, (j: int) => g(a * p + j), g);
    } else {
      assert levels * p == 0;
    }
  }

  function PairOf(x: Matter, a: int, b: int): Pair {
    Pair(x.energy(a) - x.energy(b), x.weight(a, b))
  }

  /** The entries of one matter transition over the whole clock grid. */
  function Block(e: Kernel, x: Matter, n: nat, a: int, b: int): real {
    Contribution(e, n, PairOf(x, a, b))
  }

  /** The part of row (a, j) in the columns of level b. */
  function RowBlock(e: Kernel, x: Matter, n: nat, a: int, b: int, j: int): real {
    Sum(0, n + 1, (k: int) => SquaredEntry(e, x, a, j, b, k))
  }

  lemma GridDifference(e: Kernel, j: int, k: int)
    ensures GridPoint(e, j) - GridPoint(e, k) == GridPoint(e, j - k)
  {
    assert (j - k) as real == j as real - k as real;
  }

  lemma EntryAtDifference(e: Kernel, x: Matter, a: int, j: int, b: int, k: int)
    ensures SquaredEntry(e, x, a, j, b, k) == x.weight(a, b) * TransitionEntry(e, x.energy(a) - x.energy(b), j - k)
  {
    GridDifference(e, j, k);
    SameEntry(e, (x.energy(a) + GridPoint(e, j)) - (x.energy(b) + GridPoint(e, k)), GridPoint(e, j) - GridPoint(e, k),
              x.energy(a) - x.energy(b) + GridPoint(e, j - k), GridPoint(e, j - k));
  }

  lemma SameEntry(e: Kernel, t: real, c: real, t': real, c': real)
    requires t == t' && c == c'
    ensures e.entry(t, c) == e.entry(t', c')
  {
  }

  lemma RowBlockScaled(e: Kernel, x: Matter, n: nat, a: int, b: int, j: int, t: int -> real)
    requires t == Transition(e, x.energy(a) - x.energy(b))
    ensures RowBlock(e, x, n, a, b, j) == x.weight(a, b) * DifferenceRow(n, t, j)
  {
    forall k ensures SquaredEntry(e, x, a, j, b, k) == x.weight(a, b) * t(j - k) {
      EntryAtDifference(e, x, a, j, b, k);
    }
    SumScale(0, n + 1, x.weight(a, b), (k: int) => t(j - k), (k: int) => SquaredEntry(e, x, a, j, b, k));
  }

  lemma ScaledDoubleSum(n: nat, w: real, t: int -> real, rows: int -> real)
    requires forall j :: 0 <= j < n + 1 ==> rows(j) == w * DifferenceRow(n, t, j)
    ensures Sum(0, n + 1, rows) == w * CompressedSum(n, t)
  {
    SumScale(0, n + 1, w, (j: int) => DifferenceRow(n, t, j), rows);
    CompressionExact(n, t);
  }

  /** One block of the dense matrix is its matter weight times the compressed sum. */
  lemma BlockCompressed(e: Kernel, x: Matter, n: nat, a: int, b: int)
    ensures Sum(0, n + 1, (j: int) => RowBlock(e, x, n, a, b, j)) == Block(e, x, n, a, b)
  {
    var t := Transition(e, x.energy(a) - x.energy(b));
    var rows := (j: int) => RowBlock(e, x, n, a, b, j);
    forall j | 0 <= j < n + 1 ensures rows(j) == x.weight(a, b) * DifferenceRow(n, t, j) {
      RowBlockScaled(e, x, n, a, b, j, t);
    }
    ScaledDoubleSum(n, x.weight(a, b), t, rows);
  }

  /** The entries of one dense row that fall into block b. */
  lemma RowOfBlock(e: Kernel, x: Matter, n: nat, a: int, b: int, j: int)
    requires 0 <= j <= n
    ensures var row := DenseRow(e, x, n + 1, a * (n + 1) + j);
            RowBlock(e, x, n, a, b, j) == Sum(0, n + 1, (k: int) => row(b * (n + 1) + k))
  {
    var p := n + 1;
    var row := DenseRow(e, x, p, a * p + j);
    forall k | 0 <= k < p ensures row(b * p + k) == SquaredEntry(e, x, a, j, b, k) {
      BlockIndex(a, p, j);
      BlockIndex(b, p, k);
    }
    SumSame(0, p, (k: int) => row(b * p + k), (k: int) => SquaredEntry(e, x, a, j, b, k));
  }

  lemma DenseRowBlocks(e: Kernel, x: Matter, n: nat, a: int, j: int)
    requires 0 <= j <= n
    ensures DenseRowSum(e, x, n + 1, a * (n + 1) + j) == Sum(0, x.levels, (b: int) => RowBlock(e, x, n, a, b, j))
  {
    var row := DenseRow(e, x, n + 1, a * (n + 1) + j);
    var blocks := (b: int) => RowBlock(e, x, n, a, b, j);
    forall b | 0 <= b < x.levels ensures blocks(b) == Sum(0, n + 1, (k: int) => row(b * (n + 1) + k)) {
      RowOfBlock(e, x, n, a, b, j);
    }
    SumBlocks(x.levels, n + 1, row, blocks);
  }

  function Blocks(e: Kernel, x: Matter, n: nat, a: int): int -> real {
    (b: int) => Block(e, x, n, a, b)
  }

  function LevelSum(e: Kernel, x: Matter, n: nat, a: int): real {
    Sum(0, x.levels, Blocks(e, x, n, a))
  }

  /** All rows of one matter level. */
  lemma LevelRows(e: Kernel, x: Matter, n: nat, a: int, rows: int -> real)
    requires forall j :: 0 <= j <= n ==> rows(j) == DenseRowSum(e, x, n + 1, a * (n + 1) + j)
    ensures Sum(0, n + 1, rows) == LevelSum(e, x, n, a)
  {
    var f := (j: int, b: int) => RowBlock(e, x, n, a, b, j);
    forall j | 0 <= j < n + 1 ensures rows(j) == RowSum(x.levels, f, j) {
      DenseRowBlocks(e, x, n, a, j);
      SumSame(0, x.levels, (b: int) => f(j, b), (b: int) => RowBlock(e, x, n, a, b, j));
    }
    SumSame(0, n + 1, rows, (j: int) => RowSum(x.levels, f, j));
    SumSwap(n + 1, x.levels, f);
    forall b ensures ColumnSum(n + 1, f, b) == Block(e, x, n, a, b) {
      BlockCompressed(e, x, n, a, b);
      SumSame(0, n + 1, (j: int) => f(j, b), (j: int) => RowBlock(e, x, n, a, b, j));
    }
    SumSame(0, x.levels, (b: int) => ColumnSum(n + 1, f, b), Blocks(e, x, n, a));
  }

  /** The dense norm, regrouped by matter transition. */
  lemma DenseByLevel(e: Kernel, x: Matter, n: nat)
    ensures DenseNorm(e, x, n) == Sum(0, x.levels, (a: int) => LevelSum(e, x, n, a))
  {
    var p := n + 1;
    var g := (r: int) => DenseRowSum(e, x, p, r);
    forall a | 0 <= a < x.levels ensures LevelSum(e, x, n, a) == Sum(0, p, (j: int) => g(a * p + j)) {
      LevelRows(e, x, n, a, (j: int) => g(a * p + j));
    }
    SumBlocks(x.levels, p, g, (a: int) => LevelSum(e, x, n, a));
  }

  // ---- The list of transitions ----

  /** The nonzero transitions from level a to the first `upTo` levels. */
  function RowPairs(x: Matter, a: int, upTo: nat): seq<Pair> {
    if upTo == 0 then []
    else
      var b := upTo - 1;
      RowPairs(x, a, b) + if x.weight(a, b) != 0.0 then [PairOf(x, a, b)] else []
  }

  function AllPairs(x: Matter, levels: nat): seq<Pair> {
    if levels == 0 then [] else AllPairs(x, levels - 1) + RowPairs(x, levels - 1, x.levels)
  }

  lemma {:induction false} PairSumConcat(e: Kernel, n: nat, p: seq<Pair>, q: seq<Pair>)
    ensures PairSum(e, n, p + q) == PairSum(e, n, p) + PairSum(e, n, q)
    decreases |q|
  {
    if q == [] {
      assert p + q == p;
    } else {
      assert (p + q)[..|p + q| - 1] == p + q[..|q| - 1];
      PairSumConcat(e, n, p, q[..|q| - 1]);
    }
  }

  lemma PairSumSnoc(e: Kernel, n: nat, ps: seq<Pair>, p: Pair)
    ensures PairSum(e, n, ps + [p]) == PairSum(e, n, ps) + Contribution(e, n, p)
  {
    assert (ps + [p])[..|ps + [p]| - 1] == ps;
  }

  lemma SumSnoc(n: nat, f: int -> real)
    requires n > 0
    ensures Sum(0, n, f) == Sum(0, n - 1, f) + f(n - 1)
  {
  }

  /** One more level adds its block; a zero element has a zero block and no pair. */
  lemma RowPairsStep(e: Kernel, x: Matter, n: nat, a: int, b: nat)
    ensures PairSum(e, n, RowPairs(x, a, b + 1)) == PairSum(e, n, RowPairs(x, a, b)) + Block(e, x, n, a, b)
  {
    var before := RowPairs(x, a, b);
    if x.weight(a, b) != 0.0 {
      PairSumSnoc(e, n, before, PairOf(x, a, b));
    } else {
      assert before + [] == before;
    }
  }

  lemma {:induction false} RowPairsSum(e: Kernel, x: Matter, n: nat, a: int, upTo: nat)
    ensures PairSum(e, n, RowPairs(x, a, upTo)) == Sum(0, upTo, Blocks(e, x, n, a))
  {
    if upTo == 0 {
    } else {
      RowPairsSum(e, x, n, a, upTo - 1);
      RowPairsStep(e, x, n, a, upTo - 1);
      SumSnoc(upTo, Blocks(e, x, n, a));
    }
  }

  lemma {:induction false} AllPairsSum(e: Kernel, x: Matter, n: nat, levels: nat)
    ensures PairSum(e, n, AllPairs(x, levels)) == Sum(0, levels, (a: int) => LevelSum(e, x, n, a))
  {
    if levels == 0 {
    } else {
      AllPairsSum(e, x, n, levels - 1);
      PairSumConcat(e, n, AllPairs(x, levels - 1), RowPairs(x, levels - 1, x.levels));
      RowPairsSum(e, x, n, levels - 1, x.levels);
    }
  }

  // ---- The explicit complex matrices ----

  /** The matrix elements themselves. */
  datatype Observable = Observable(levels: nat, energy: int -> real, element: (int, int) -> Complex)

  function MatterOf(x: Observable): Matter {
    Matter(x.levels, x.energy, (a: int, b: int) => Norm2(x.element(a, b)))
  }

  /** The explicit entry at row (a, j) and column (b, k). */
  function ExplicitEntry(m: Model, t: Readout, norm: Norm, x: Observable, a: int, j: int, b: int, k: int): Complex {
    DenseEntry(m, t, norm, x.element(a, b), x.energy(a), x.energy(b), GridStep(m.delta, j) - GridStep(m.delta, k))
  }

  /** The squared magnitudes of the explicit entries. */
  function ExplicitSquares(m: Model, t: Readout, norm: Norm, x: Observable): (int, int, int, int) -> real {
    (a: int, j: int, b: int, k: int) => Norm2(ExplicitEntry(m, t, norm, x, a, j, b, k))
  }

  function FlatRow(points: int, g: (int, int, int, int) -> real, r: int): int -> real
    requires points > 0
  {
    (c: int) => g(r / points, r % points, c / points, c % points)
  }

  function FlatRowSum(levels: nat, points: nat, g: (int, int, int, int) -> real, r: int): real
    requires points > 0
  {
    Sum(0, levels * points, FlatRow(points, g, r))
  }

  /** The sum of g over a matrix whose rows and columns are numbered level by level. */
  function FlatSum(levels: nat, points: nat, g: (int, int, int, int) -> real): real
    requires points > 0
  {
    Sum(0, levels * points, (r: int) => FlatRowSum(levels, points, g, r))
  }

  /** The squared Frobenius norm of the explicit matrix. */
  function FrobeniusSquared(m: Model, t: Readout, norm: Norm, x: Observable, n: nat): real {
    FlatSum(x.levels, n + 1, ExplicitSquares(m, t, norm, x))
  }

  function SquaredEntries(e: Kernel, x: Matter): (int, int, int, int) -> real {
    (a: int, j: int, b: int, k: int) => SquaredEntry(e, x, a, j, b, k)
  }

  lemma FlatIsDense(e: Kernel, x: Matter, n: nat)
    ensures FlatSum(x.levels, n + 1, SquaredEntries(e, x)) == DenseNorm(e, x, n)
  {
    var g, p := SquaredEntries(e, x), n + 1;
    forall r ensures FlatRowSum(x.levels, p, g, r) == DenseRowSum(e, x, p, r) {
      SumSame(0, x.levels * p, FlatRow(p, g, r), DenseRow(e, x, p, r));
    }
    SumSame(0, x.levels * p, (r: int) => FlatRowSum(x.levels, p, g, r), (r: int) => DenseRowSum(e, x, p, r));
  }

  lemma FlatRowScaled(levels: nat, points: nat,
                      h: (int, int, int, int) -> real, g: (int, int, int, int) -> real, s: real,
                      r: int)
    requires points > 0 && forall a, j, b, k :: h(a, j, b, k) == Times(s, g(a, j, b, k))
    ensures FlatRowSum(levels, points, h, r) == Times(s, FlatRowSum(levels, points, g, r))
  {
    SumScale(0, levels * points, s, FlatRow(points, g, r), FlatRow(points, h, r));
  }

  lemma FlatScaled(levels: nat, points: nat, h: (int, int, int, int) -> real, g: (int, int, int, int) -> real, s: real)
    requires points > 0 && forall a, j, b, k :: h(a, j, b, k) == Times(s, g(a, j, b, k))
    ensures FlatSum(levels, points, h) == Times(s, FlatSum(levels, points, g))
  {
    forall r ensures FlatRowSum(levels, points, h, r) == Times(s, FlatRowSum(levels, points, g, r)) {
      FlatRowScaled(levels, points, h, g, s, r);
    }
    SumScale(0, levels * points, s, (r: int) => FlatRowSum(levels, points, g, r),
             (r: int) => FlatRowSum(levels, points, h, r));
  }

  lemma SameDense(m: Model, t: Readout, norm: Norm, x: Complex, ea: real, eb: real, d: real, d': real)
    requires d == d'
    ensures DenseEntry(m, t, norm, x, ea, eb, d) == DenseEntry(m, t, norm, x, ea, eb, d')
  {
  }

  lemma SameCompressed(m: Model, norm: Norm, t: real, d: real, t': real, d': real)
    requires t == t' && d == d'
    ensures Entry(m, norm, t, d) == Entry(m, norm, t', d')
  {
  }

  lemma KernelEntry(m: Model, norm: Norm, gap: real, d: int)
    ensures TransitionEntry(KernelOf(m, norm), gap, d)
              == Entry(m, norm, gap + GridStep(m.delta, d), GridStep(m.delta, d))
  {
    var e := KernelOf(m, norm);
    SameCompressed(m, norm, gap + GridPoint(e, d), GridPoint(e, d), gap + GridStep(m.delta, d), GridStep(m.delta, d));
  }

  lemma SameTransition(e: Kernel, gap: real, gap': real, d: int)
    requires gap == gap'
    ensures TransitionEntry(e, gap, d) == TransitionEntry(e, gap', d)
  {
  }

  lemma SquaredAtDifference(e: Kernel, x: Matter, a: int, j: int, b: int, k: int, gap: real)
    requires gap == x.energy(a) - x.energy(b)
    ensures SquaredEntry(e, x, a, j, b, k) == Times(x.weight(a, b), TransitionEntry(e, gap, j - k))
  {
    EntryAtDifference(e, x, a, j, b, k);
    SameTransition(e, x.energy(a) - x.energy(b), gap, j - k);
  }

  lemma GridSteps(delta: real, j: int, k: int)
    ensures GridStep(delta, j) - GridStep(delta, k) == GridStep(delta, j - k)
  {
    assert (j - k) as real == j as real - k as real;
  }

  lemma ExplicitSquared(m: Model, t: Readout, norm: Norm, x: Observable, a: int, j: int, b: int, k: int)
    requires Lawful(m.fns) && Recurs(m, t)
    ensures ExplicitSquares(m, t, norm, x)(a, j, b, k)
            == Times(Square(t.scale), SquaredEntries(KernelOf(m, norm), MatterOf(x))(a, j, b, k))
  {
    GridSteps(m.delta, j, k);
    SameDense(m, t, norm, x.element(a, b), x.energy(a), x.energy(b), GridStep(m.delta, j) - GridStep(m.delta, k),
              GridStep(m.delta, j - k));
    EntrySquared(m, t, norm, x.element(a, b), x.energy(a), x.energy(b), j - k);
    CompressedSquared(m, norm, x, a, j, b, k);
  }

  lemma CompressedSquared(m: Model, norm: Norm, x: Observable, a: int, j: int, b: int, k: int)
    ensures var diff := GridStep(m.delta, j - k);
            SquaredEntries(KernelOf(m, norm), MatterOf(x))(a, j, b, k)
            == Times(Norm2(x.element(a, b)), Entry(m, norm, x.energy(a) - x.energy(b) + diff, diff))
  {
    var w, gap := MatterOf(x), x.energy(a) - x.energy(b);
    assert w.energy(a) == x.energy(a) && w.energy(b) == x.energy(b);
    SquaredAtDifference(KernelOf(m, norm), w, a, j, b, k, gap);
    KernelEntry(m, norm, gap, j - k);
    SameProduct(w.weight(a, b), TransitionEntry(KernelOf(m, norm), gap, j - k), Norm2(x.element(a, b)),
                Entry(m, norm, gap + GridStep(m.delta, j - k), GridStep(m.delta, j - k)));
  }

  lemma SameProduct(x: real, y: real, x': real, y': real)
    requires x == x' && y == y'
    ensures Times(x, y) == Times(x', y')
  {
  }

  /** What the loop of the compressed form accumulates over the nonzero transitions. */
  function Compressed(m: Model, norm: Norm, x: Observable, n: nat): real {
    PairSum(KernelOf(m, norm), n, AllPairs(MatterOf(x), x.levels))
  }

  lemma ExplicitScaled(m: Model, t: Readout, norm: Norm, x: Observable, n: nat)
    requires Lawful(m.fns) && Recurs(m, t)
    ensures FrobeniusSquared(m, t, norm, x, n)
            == Times(Square(t.scale), FlatSum(x.levels, n + 1, SquaredEntries(KernelOf(m, norm), MatterOf(x))))
  {
    var h, g := ExplicitSquares(m, t, norm, x), SquaredEntries(KernelOf(m, norm), MatterOf(x));
    forall a, j, b, k ensures h(a, j, b, k) == Times(Square(t.scale), g(a, j, b, k)) {
      ExplicitSquared(m, t, norm, x, a, j, b, k);
    }
    FlatScaled(x.levels, n + 1, h, g, Square(t.scale));
  }

  /** Each compressed norm, accumulated over the nonzero transitions, is the squared Frobenius norm of its explicit
      complex matrix, up to the squared normalisation of the clock effect. */
  lemma CompressedEqualsDense(m: Model, t: Readout, norm: Norm, x: Observable, n: nat)
    requires Lawful(m.fns) && Recurs(m, t)
    ensures FrobeniusSquared(m, t, norm, x, n) == Times(Square(t.scale), Compressed(m, norm, x, n))
  {
    AllPairsSum(KernelOf(m, norm), MatterOf(x), n, x.levels);
    DenseByLevel(KernelOf(m, norm), MatterOf(x), n);
    FlatIsDense(KernelOf(m, norm), MatterOf(x), n);
    ExplicitScaled(m, t, norm, x, n);
  }

  lemma {:induction false} SameContributions(d: Kernel, e: Kernel, n: nat, pairs: seq<Pair>)
    requires forall gap, k :: TransitionEntry(d, gap, k) == TransitionEntry(e, gap, k)
    ensures PairSum(d, n, pairs) == PairSum(e, n, pairs)
  {
    if pairs == [] {
    } else {
      var p := pairs[|pairs| - 1];
      SameContributions(d, e, n, pairs[..|pairs| - 1]);
      SumSame(0 - n, n + 1, CompressedTerms(n, Transition(d, p.gap)), CompressedTerms(n, Transition(e, p.gap)));
    }
  }

  /** The modular flow does not change what the compressed form accumulates: the norm of the explicit left readout
      is compressed to the filtered norm. */
  lemma LeftIsFiltered(m: Model, x: Observable, n: nat)
    ensures Compressed(m, Left, x, n) == Compressed(m, Filtered, x, n)
  {
    SameContributions(KernelOf(m, Left), KernelOf(m, Filtered), n, AllPairs(MatterOf(x), x.levels));
  }

  /** The reported intertwining ratio: explicitly |left - right| over |left|, in the compressed form over the
      filtered norm. Both are defined alike and agree. */
  lemma IntertwiningRatio(m: Model, t: Readout, x: Observable, n: nat)
    requires Lawful(m.fns) && Recurs(m, t) && t.scale > 0.0
    ensures FrobeniusSquared(m, t, Left, x, n) == 0.0 <==> Compressed(m, Filtered, x, n) == 0.0
    ensures Compressed(m, Filtered, x, n) != 0.0 ==>
              FrobeniusSquared(m, t, Intertwining, x, n) / FrobeniusSquared(m, t, Left, x, n)
              == Compressed(m, Intertwining, x, n) / Compressed(m, Filtered, x, n)
  {
    RatiosAgree(m, t, Intertwining, Left, x, n);
    LeftIsFiltered(m, x, n);
  }

  /** The normalisation cancels: the ratios of explicit norms are the ratios of compressed ones. */
  lemma RatiosAgree(m: Model, t: Readout, top: Norm, bottom: Norm, x: Observable, n: nat)
    requires Lawful(m.fns) && Recurs(m, t) && t.scale > 0.0
    ensures FrobeniusSquared(m, t, bottom, x, n) == 0.0 <==> Compressed(m, bottom, x, n) == 0.0
    ensures Compressed(m, bottom, x, n) != 0.0 ==>
              FrobeniusSquared(m, t, top, x, n) / FrobeniusSquared(m, t, bottom, x, n)
              == Compressed(m, top, x, n) / Compressed(m, bottom, x, n)
  {
    CompressedEqualsDense(m, t, top, x, n);
    CompressedEqualsDense(m, t, bottom, x, n);
    PositiveProduct(t.scale, t.scale);
    Cancels(Square(t.scale), Compressed(m, top, x, n), Compressed(m, bottom, x, n),
            FrobeniusSquared(m, t, top, x, n), FrobeniusSquared(m, t, bottom, x, n));
  }

  lemma PositiveProduct(x: real, y: real)
    requires x > 0.0 && y > 0.0
    ensures Times(x, y) > 0.0
  {
  }

  lemma Cancels(s: real, c: real, d: real, sc: real, sd: real)
    requires s != 0.0 && sc == Times(s, c) && sd == Times(s, d)
    ensures sd == 0.0 <==> d == 0.0
    ensures d != 0.0 ==> sc / sd == c / d
  {
    if d != 0.0 {
      var q := c / d;
      assert q * d == c;
      assert q * (s * d) == s * c;
    }
  }
}
