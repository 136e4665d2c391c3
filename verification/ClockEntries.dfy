/** Single matrix entries of the clock harness. The explicit matrices have complex entries with phases; the
    compressed form only knows their squared magnitudes. The exponential, the cosine and the sine are any
    functions with the identities that the derivation uses. */
module ClockEntries {

  // ---- Real arithmetic ----

  function Times(x: real, y: real): real {
    x * y
  }

  function Square(x: real): real {
    Times(x, x)
  }

  function Negated(x: real): real {
    0.0 - x
  }

  function Half(x: real): real {
    0.5 * x
  }

  lemma FourSquares(a: real, b: real, c: real, d: real)
    ensures (a * c - b * d) * (a * c - b * d) + (a * d + b * c) * (a * d + b * c) == (a * a + b * b) * (c * c + d * d)
  {
  }

  lemma ScaledSquares(r: real, a: real, b: real)
    ensures (r * a) * (r * a) + (r * b) * (r * b) == (r * r) * (a * a + b * b)
  {
  }

  lemma ChordSquared(ca: real, sa: real, cb: real, sb: real)
    requires ca * ca + sa * sa == 1.0 && cb * cb + sb * sb == 1.0
    ensures (ca - cb) * (ca - cb) + (sa - sb) * (sa - sb) == 2.0 - 2.0 * (ca * cb + sa * sb)
  {
    assert (ca - cb) * (ca - cb) == ca * ca - 2.0 * (ca * cb) + cb * cb;
    assert (sa - sb) * (sa - sb) == sa * sa - 2.0 * (sa * sb) + sb * sb;
  }

  lemma SquareProduct(x: real, y: real)
    ensures (x * y) * (x * y) == (x * x) * (y * y)
  {
  }

  /** Four factors in another order. */
  lemma Reorder(w: real, c: real, k: real, s: real, q: real)
    ensures (k * (w * (c * q))) * s == q * (w * (c * k * s))
  {
  }

  // ---- Elementary functions ----

  /** `turn` is the period of the angle, two pi. */
  datatype Functions = Functions(exp: real -> real, cos: real -> real, sin: real -> real, turn: real)

  /** The identities at the arguments x and y. */
  predicate Law(f: Functions, x: real, y: real) {
    && f.exp(x) * f.exp(y) == f.exp(x + y)
    && f.cos(x) * f.cos(x) + f.sin(x) * f.sin(x) == 1.0
    && f.cos(x + y) == f.cos(x) * f.cos(y) - f.sin(x) * f.sin(y)
    && f.sin(x + y) == f.sin(x) * f.cos(y) + f.cos(x) * f.sin(y)
    && f.cos(Negated(x)) == f.cos(x) && f.sin(Negated(x)) == 0.0 - f.sin(x)
    && f.cos(x + f.turn) == f.cos(x)
  }

  ghost predicate Lawful(f: Functions) {
    forall x, y :: Law(f, x, y)
  }

  lemma SameArgument(f: Functions, x: real, y: real)
    requires x == y
    ensures f.exp(x) == f.exp(y) && f.cos(x) == f.cos(y) && f.sin(x) == f.sin(y)
  {
  }

  lemma HalfExponent(f: Functions, x: real)
    requires Lawful(f)
    ensures Square(f.exp(Negated(Half(x)))) == f.exp(Negated(x))
  {
    var h := Negated(Half(x));
    assert Law(f, h, h);
    SameArgument(f, h + h, Negated(x));
  }

  /** The half-angle identity. */
  lemma HalfAngle(f: Functions, x: real)
    requires Lawful(f)
    ensures 2.0 - 2.0 * f.cos(x) == 4.0 * Square(f.sin(Half(x)))
  {
    var h := Half(x);
    assert Law(f, h, h);
    SameArgument(f, h + h, x);
  }

  function Turned(f: Functions, x: real, laps: int): real {
    x + laps as real * f.turn
  }

  /** The cosine does not see whole turns. */
  lemma {:induction false} WholeTurns(f: Functions, x: real, laps: int)
    requires Lawful(f)
    ensures f.cos(Turned(f, x, laps)) == f.cos(x)
    decreases if laps < 0 then -laps else laps
  {
    if laps == 0 {
      SameArgument(f, Turned(f, x, 0), x);
    } else if laps > 0 {
      WholeTurns(f, x, laps - 1);
      NextTurn(f, x, laps - 1);
    } else {
      WholeTurns(f, x, laps + 1);
      NextTurn(f, x, laps);
    }
  }

  lemma NextTurn(f: Functions, x: real, laps: int)
    requires Lawful(f)
    ensures f.cos(Turned(f, x, laps + 1)) == f.cos(Turned(f, x, laps))
  {
    var y := Turned(f, x, laps);
    assert Law(f, y, y);
    OneMore(laps as real, f.turn);
    assert (laps + 1) as real == laps as real + 1.0;
    SameArgument(f, Turned(f, x, laps + 1), y + f.turn);
  }

  lemma OneMore(l: real, t: real)
    ensures (l + 1.0) * t == l * t + t
  {
  }

  // ---- Complex numbers ----

  datatype Complex = Complex(re: real, im: real)

  function Mul(x: Complex, y: Complex): Complex {
    Complex(x.re * y.re - x.im * y.im, x.re * y.im + x.im * y.re)
  }

  function Minus(x: Complex, y: Complex): Complex {
    Complex(x.re - y.re, x.im - y.im)
  }

  function Scaled(r: real, x: Complex): Complex {
    Complex(r * x.re, r * x.im)
  }

  function Conj(x: Complex): Complex {
    Complex(x.re, 0.0 - x.im)
  }

  function Norm2(x: Complex): real {
    x.re * x.re + x.im * x.im
  }

  /** e^{i angle}. */
  function Unit(f: Functions, angle: real): Complex {
    Complex(f.cos(angle), f.sin(angle))
  }

  lemma NormMul(x: Complex, y: Complex)
    ensures Norm2(Mul(x, y)) == Times(Norm2(x), Norm2(y))
  {
    FourSquares(x.re, x.im, y.re, y.im);
  }

  lemma NormScaled(r: real, x: Complex)
    ensures Norm2(Scaled(r, x)) == Times(Square(r), Norm2(x))
  {
    ScaledSquares(r, x.re, x.im);
  }

  lemma MulAssoc(x: Complex, y: Complex, z: Complex)
    ensures Mul(Mul(x, y), z) == Mul(x, Mul(y, z))
  {
  }

  lemma MulComm(x: Complex, y: Complex)
    ensures Mul(x, y) == Mul(y, x)
  {
  }

  lemma MulScaled(r: real, x: Complex, y: Complex)
    ensures Mul(x, Scaled(r, y)) == Scaled(r, Mul(x, y))
  {
  }

  lemma ScaledTwice(r: real, q: real, x: Complex)
    ensures Scaled(r, Scaled(q, x)) == Scaled(Times(r, q), x)
  {
  }

  /** A common factor comes out of a difference. */
  lemma FactorOut(r: real, x: Complex, u: Complex, v: Complex)
    ensures Minus(Scaled(r, Mul(x, u)), Scaled(r, Mul(x, v))) == Scaled(r, Mul(x, Minus(u, v)))
  {
  }

  lemma Regroup(u: Complex, x: Complex, v: Complex, w: Complex)
    ensures Mul(Mul(Mul(u, x), v), w) == Mul(x, Mul(u, Mul(v, w)))
  {
    MulComm(u, x);
    MulAssoc(Mul(x, u), v, w);
    MulAssoc(x, u, Mul(v, w));
  }

  lemma UnitMul(f: Functions, a: real, b: real)
    requires Lawful(f)
    ensures Mul(Unit(f, a), Unit(f, b)) == Unit(f, a + b)
  {
    assert Law(f, a, b);
  }

  lemma UnitConj(f: Functions, a: real)
    requires Lawful(f)
    ensures Conj(Unit(f, Negated(a))) == Unit(f, a)
  {
    assert Law(f, a, a);
  }

  lemma UnitNorm(f: Functions, a: real)
    requires Lawful(f)
    ensures Norm2(Unit(f, a)) == 1.0
  {
    assert Law(f, a, a);
  }

  /** The squared distance of two phases is a function of the angle between them. */
  lemma PhaseDistance(f: Functions, a: real, b: real)
    requires Lawful(f)
    ensures Norm2(Minus(Unit(f, a), Unit(f, b))) == 2.0 - 2.0 * f.cos(a + Negated(b))
  {
    assert Law(f, a, a) && Law(f, b, b) && Law(f, a, Negated(b));
    ChordSquared(f.cos(a), f.sin(a), f.cos(b), f.sin(b));
  }

  // ---- The compressed entries ----

  /** `sigma` is the width of the clock effect, `width` the averaging width, `shift` the modular shift
      beta times the modular parameter. */
  datatype Model = Model(fns: Functions, delta: real, sigma: real, width: real, shift: real)

  /** `Left` is the norm that the explicit intertwining ratio is taken against; the compressed form takes the
      filtered norm for it. */
  datatype Norm = Filtered | Input | Commutator | Intertwining | Left

  function ClockWeight(m: Model, diff: real): real {
    m.fns.exp(Negated(Square(Times(m.sigma, diff))))
  }

  function KernelSquared(m: Model, total: real): real {
    m.fns.exp(Negated(Square(Times(m.width, total))))
  }

  function PhaseSquared(m: Model, total: real): real {
    4.0 * Square(m.fns.sin(Half(Times(m.shift, total))))
  }

  /** What `relational_metrics` accumulates for one clock difference, without the matter weight and the
      multiplicity: `total` is the difference of the constraint values, `diff` that of the clock energies. */
  function Entry(m: Model, norm: Norm, total: real, diff: real): real {
    match norm
    case Input => ClockWeight(m, diff)
    case Filtered => ClockWeight(m, diff) * KernelSquared(m, total)
    case Left => ClockWeight(m, diff) * KernelSquared(m, total)
    case Commutator => ClockWeight(m, diff) * KernelSquared(m, total) * Square(total)
    case Intertwining => ClockWeight(m, diff) * KernelSquared(m, total) * PhaseSquared(m, total)
  }

  // ---- The dense entries ----

  /** The readout time, the recurrence period of the clock, the number of whole periods that the shifted time has
      been reduced by, and the normalisation of the effect, one over the period. */
  datatype Readout = Readout(tau: real, period: real, laps: int, scale: real)

  /** The clock recurs after one whole turn per grid step. */
  predicate Recurs(m: Model, t: Readout) {
    m.delta * t.period == m.fns.turn
  }

  /** The clock energy of j grid steps. */
  function GridStep(delta: real, j: int): real {
    j as real * delta
  }

  function ShiftedTau(m: Model, t: Readout): real {
    t.tau - m.shift - t.laps as real * t.period
  }

  function Envelope(m: Model, t: Readout, diff: real): real {
    Times(m.fns.exp(Negated(Half(Square(Times(m.sigma, diff))))), t.scale)
  }

  /** `e_tau`: an entry of the clock effect. */
  function Effect(m: Model, t: Readout, tau: real, diff: real): Complex {
    Scaled(Envelope(m, t, diff), Unit(m.fns, Negated(Times(diff, tau))))
  }

  function Amplitude(m: Model, total: real): real {
    m.fns.exp(Negated(Half(Square(Times(m.width, total)))))
  }

  /** `flowed`: the observable's element between levels of energies ea and eb, in the modular flow. */
  function Flowed(m: Model, x: Complex, ea: real, eb: real): Complex {
    Mul(Mul(Unit(m.fns, Negated(Times(m.shift, ea))), x), Conj(Unit(m.fns, Negated(Times(m.shift, eb)))))
  }

  /** One entry of the explicit matrix whose Frobenius norm is taken. */
  function DenseEntry(m: Model, t: Readout, norm: Norm, x: Complex, ea: real, eb: real, diff: real): Complex {
    var total := ea - eb + diff;
    match norm
    case Input => Mul(x, Effect(m, t, t.tau, diff))
    case Filtered => Scaled(Amplitude(m, total), Mul(x, Effect(m, t, t.tau, diff)))
    case Left => Scaled(Amplitude(m, total), Mul(Flowed(m, x, ea, eb), Effect(m, t, t.tau, diff)))
    case Commutator => Scaled(total, Scaled(Amplitude(m, total), Mul(x, Effect(m, t, t.tau, diff))))
    case Intertwining =>
      Minus(Scaled(Amplitude(m, total), Mul(Flowed(m, x, ea, eb), Effect(m, t, t.tau, diff))),
            Scaled(Amplitude(m, total), Mul(x, Effect(m, t, ShiftedTau(m, t), diff))))
  }

  lemma EnvelopeSquared(m: Model, t: Readout, diff: real)
    requires Lawful(m.fns)
    ensures Square(Envelope(m, t, diff)) == Times(ClockWeight(m, diff), Square(t.scale))
  {
    HalfExponent(m.fns, Square(Times(m.sigma, diff)));
    SquareProduct(m.fns.exp(Negated(Half(Square(Times(m.sigma, diff))))), t.scale);
  }

  lemma AmplitudeSquared(m: Model, total: real)
    requires Lawful(m.fns)
    ensures Square(Amplitude(m, total)) == KernelSquared(m, total)
  {
    HalfExponent(m.fns, Square(Times(m.width, total)));
  }

  lemma EffectNorm(m: Model, t: Readout, tau: real, diff: real)
    requires Lawful(m.fns)
    ensures Norm2(Effect(m, t, tau, diff)) == Times(ClockWeight(m, diff), Square(t.scale))
  {
    var angle := Negated(Times(diff, tau));
    NormScaled(Envelope(m, t, diff), Unit(m.fns, angle));
    UnitNorm(m.fns, angle);
    EnvelopeSquared(m, t, diff);
  }

  lemma InputNorm(m: Model, t: Readout, x: Complex, tau: real, diff: real)
    requires Lawful(m.fns)
    ensures Norm2(Mul(x, Effect(m, t, tau, diff))) == Times(Norm2(x), Times(ClockWeight(m, diff), Square(t.scale)))
  {
    NormMul(x, Effect(m, t, tau, diff));
    EffectNorm(m, t, tau, diff);
  }

  lemma FilteredNorm(m: Model, t: Readout, x: Complex, tau: real, total: real, diff: real)
    requires Lawful(m.fns)
    ensures Norm2(Scaled(Amplitude(m, total), Mul(x, Effect(m, t, tau, diff))))
            == Times(KernelSquared(m, total), Times(Norm2(x), Times(ClockWeight(m, diff), Square(t.scale))))
  {
    NormScaled(Amplitude(m, total), Mul(x, Effect(m, t, tau, diff)));
    InputNorm(m, t, x, tau, diff);
    AmplitudeSquared(m, total);
  }

  /** The modular flow only turns the observable's elements. */
  lemma FlowKeepsSize(m: Model, x: Complex, ea: real, eb: real)
    requires Lawful(m.fns)
    ensures Norm2(Flowed(m, x, ea, eb)) == Norm2(x)
  {
    var u, v := Unit(m.fns, Negated(Times(m.shift, ea))), Conj(Unit(m.fns, Negated(Times(m.shift, eb))));
    NormMul(Mul(u, x), v);
    NormMul(u, x);
    UnitNorm(m.fns, Negated(Times(m.shift, ea)));
    UnitConj(m.fns, Times(m.shift, eb));
    UnitNorm(m.fns, Times(m.shift, eb));
  }

  /** The angle of the flowed readout. */
  function FlowAngle(m: Model, t: Readout, ea: real, eb: real, diff: real): real {
    Negated(Times(m.shift, ea)) + (Times(m.shift, eb) + Negated(Times(diff, t.tau)))
  }

  /** Both readouts of the intertwining test are the plain observable at some phase. */
  lemma FlowedReadout(m: Model, t: Readout, x: Complex, ea: real, eb: real, diff: real)
    requires Lawful(m.fns)
    ensures Mul(Flowed(m, x, ea, eb), Effect(m, t, t.tau, diff))
            == Scaled(Envelope(m, t, diff), Mul(x, Unit(m.fns, FlowAngle(m, t, ea, eb, diff))))
  {
    var f := m.fns;
    var a, b, c := Negated(Times(m.shift, ea)), Times(m.shift, eb), Negated(Times(diff, t.tau));
    UnitConj(f, b);
    MulScaled(Envelope(m, t, diff), Flowed(m, x, ea, eb), Unit(f, c));
    Regroup(Unit(f, a), x, Unit(f, b), Unit(f, c));
    UnitMul(f, b, c);
    UnitMul(f, a, b + c);
  }

  /** The two phases differ by the modular shift times the constraint difference, up to whole turns. */
  lemma AngleBetween(m: Model, t: Readout, ea: real, eb: real, j: int)
    requires Recurs(m, t)
    ensures var diff := GridStep(m.delta, j);
            FlowAngle(m, t, ea, eb, diff) + Negated(Negated(Times(diff, ShiftedTau(m, t))))
            == Turned(m.fns, Negated(Times(m.shift, ea - eb + diff)), 0 - j * t.laps)
  {
    IntProduct(j, t.laps);
    Angles(m.shift, ea, eb, j as real, m.delta, t.tau, t.laps as real, t.period, m.fns.turn);
  }

  lemma Angles(s: real, ea: real, eb: real, j: real, delta: real, tau: real, laps: real, period: real, turn: real)
    requires delta * period == turn
    ensures var d := j * delta;
            (0.0 - s * ea) + (s * eb + (0.0 - d * tau)) + (0.0 - (0.0 - d * (tau - s - laps * period)))
            == (0.0 - s * (ea - eb + d)) + (0.0 - j * laps) * turn
  {
    var d := j * delta;
    assert d * (tau - s - laps * period) == d * tau - d * s - d * (laps * period);
    assert d * (laps * period) == (j * laps) * (delta * period);
    assert s * (ea - eb + d) == s * ea - s * eb + d * s;
    assert (0.0 - j * laps) * turn == 0.0 - (j * laps) * turn;
  }

  lemma {:induction false} IntProduct(a: int, b: int)
    ensures (a * b) as real == a as real * b as real
    decreases if a < 0 then -a else a
  {
    if a == 0 {
      assert a * b == 0;
    } else if a > 0 {
      IntProduct(a - 1, b);
      assert a * b == (a - 1) * b + b;
      OneMore((a - 1) as real, b as real);
    } else {
      IntProduct(a + 1, b);
      assert (a + 1) * b == a * b + b;
      OneMore(a as real, b as real);
      assert (a + 1) as real == a as real + 1.0;
    }
  }

  lemma DifferenceNorm(r: real, x: Complex, u: Complex, v: Complex)
    ensures Norm2(Scaled(r, Mul(x, Minus(u, v)))) == Times(Square(r), Times(Norm2(x), Norm2(Minus(u, v))))
  {
    NormScaled(r, Mul(x, Minus(u, v)));
    NormMul(x, Minus(u, v));
  }

  /** The phase factor of the compressed form is the squared distance of the two explicit phases. */
  lemma PhaseFactor(m: Model, t: Readout, ea: real, eb: real, j: int)
    requires Lawful(m.fns) && Recurs(m, t)
    ensures var diff := GridStep(m.delta, j);
            Norm2(Minus(Unit(m.fns, FlowAngle(m, t, ea, eb, diff)),
                Unit(m.fns, Negated(Times(diff, ShiftedTau(m, t))))))
            == PhaseSquared(m, ea - eb + diff)
  {
    var f, diff := m.fns, GridStep(m.delta, j);
    var a, b := FlowAngle(m, t, ea, eb, diff), Negated(Times(diff, ShiftedTau(m, t)));
    var y := Times(m.shift, ea - eb + diff);
    PhaseDistance(f, a, b);
    AngleBetween(m, t, ea, eb, j);
    SameArgument(f, a + Negated(b), Turned(f, Negated(y), 0 - j * t.laps));
    WholeTurns(f, Negated(y), 0 - j * t.laps);
    assert Law(f, y, y);
    HalfAngle(f, y);
  }

  /** The explicit difference of the two readouts is the plain observable times a difference of phases. */
  lemma IntertwiningFactors(m: Model, t: Readout, x: Complex, ea: real, eb: real, diff: real)
    requires Lawful(m.fns)
    ensures DenseEntry(m, t, Intertwining, x, ea, eb, diff)
            == Scaled(Times(Amplitude(m, ea - eb + diff), Envelope(m, t, diff)),
                      Mul(x, Minus(Unit(m.fns, FlowAngle(m, t, ea, eb, diff)),
                                   Unit(m.fns, Negated(Times(diff, ShiftedTau(m, t)))))))
  {
    var k, r := Amplitude(m, ea - eb + diff), Envelope(m, t, diff);
    var u := Unit(m.fns, FlowAngle(m, t, ea, eb, diff));
    var v := Unit(m.fns, Negated(Times(diff, ShiftedTau(m, t))));
    FlowedReadout(m, t, x, ea, eb, diff);
    MulScaled(r, x, v);
    ScaledTwice(k, r, Mul(x, u));
    ScaledTwice(k, r, Mul(x, v));
    FactorOut(Times(k, r), x, u, v);
  }

  lemma IntertwiningNorm(m: Model, t: Readout, x: Complex, ea: real, eb: real, j: int)
    requires Lawful(m.fns) && Recurs(m, t)
    ensures var diff := GridStep(m.delta, j);
            var total := ea - eb + diff;
            Norm2(DenseEntry(m, t, Intertwining, x, ea, eb, diff))
            == Times(Times(KernelSquared(m, total), Times(ClockWeight(m, diff), Square(t.scale))),
                     Times(Norm2(x), PhaseSquared(m, total)))
  {
    var diff := GridStep(m.delta, j);
    var total := ea - eb + diff;
    var k, r := Amplitude(m, total), Envelope(m, t, diff);
    IntertwiningFactors(m, t, x, ea, eb, diff);
    DifferenceNorm(Times(k, r), x, Unit(m.fns, FlowAngle(m, t, ea, eb, diff)),
                   Unit(m.fns, Negated(Times(diff, ShiftedTau(m, t)))));
    PhaseFactor(m, t, ea, eb, j);
    FactorsSquared(m, t, total, diff);
  }

  lemma FactorsSquared(m: Model, t: Readout, total: real, diff: real)
    requires Lawful(m.fns)
    ensures Square(Times(Amplitude(m, total), Envelope(m, t, diff)))
            == Times(KernelSquared(m, total), Times(ClockWeight(m, diff), Square(t.scale)))
  {
    AmplitudeSquared(m, total);
    EnvelopeSquared(m, t, diff);
    SquareTimes(Amplitude(m, total), Envelope(m, t, diff));
  }

  lemma SquareTimes(x: real, y: real)
    ensures Square(Times(x, y)) == Times(Square(x), Square(y))
  {
    SquareProduct(x, y);
  }

  /** The squared magnitude of every explicit entry is the matter weight times the compressed entry, up to the
      common factor that cancels in the ratios. */
  lemma EntrySquared(m: Model, t: Readout, norm: Norm, x: Complex, ea: real, eb: real, j: int)
    requires Lawful(m.fns) && Recurs(m, t)
    ensures var diff := GridStep(m.delta, j);
            Norm2(DenseEntry(m, t, norm, x, ea, eb, diff))
            == Times(Square(t.scale), Times(Norm2(x), Entry(m, norm, ea - eb + diff, diff)))
  {
    var diff := GridStep(m.delta, j);
    var total := ea - eb + diff;
    var w, c, k, q := Norm2(x), ClockWeight(m, diff), KernelSquared(m, total), Square(t.scale);
    match norm
    case Input =>
      InputNorm(m, t, x, t.tau, diff);
      Reorder(w, c, 1.0, 1.0, q);
    case Filtered =>
      FilteredNorm(m, t, x, t.tau, total, diff);
      Reorder(w, c, k, 1.0, q);
    case Left =>
      FilteredNorm(m, t, Flowed(m, x, ea, eb), t.tau, total, diff);
      FlowKeepsSize(m, x, ea, eb);
      Reorder(w, c, k, 1.0, q);
    case Commutator =>
      FilteredNorm(m, t, x, t.tau, total, diff);
      NormScaled(total, Scaled(Amplitude(m, total), Mul(x, Effect(m, t, t.tau, diff))));
      Reorder(w, c, k, Square(total), q);
    case Intertwining =>
      IntertwiningNorm(m, t, x, ea, eb, j);
      Reorder(w, c, k, PhaseSquared(m, total), q);
  }
}
