/** src/analysis/line_fit.cpp over exact reals: the quadratic least-squares fit of one scan line. */
module LineFitModel {
  import opened Samples

  /** The sums s0..s4 of powers of s and t0..t2 of powers of s times z. */
  datatype Moments = Moments(s0: real, s1: real, s2: real, s3: real, s4: real,
                             t0: real, t1: real, t2: real)

  const NO_MOMENTS := Moments(0.0, 0.0, 0.0, 0.0, 0.0, 0.0, 0.0, 0.0)

  function Add(m: Moments, s: real, z: real): Moments {
    var q := s * s;
    Moments(m.s0 + 1.0, m.s1 + s, m.s2 + q, m.s3 + q * s, m.s4 + q * q,
            m.t0 + z, m.t1 + s * z, m.t2 + q * z)
  }

  function MomentsOf(line: seq<Sample>): Moments {
    if line == [] then NO_MOMENTS
    else
      var m, x := MomentsOf(line[..|line| - 1]), line[|line| - 1];
      if x.flag.Kept? then Add(m, x.s, x.z) else m
  }

  function KeptCount(line: seq<Sample>): nat {
    if line == [] then 0
    else KeptCount(line[..|line| - 1]) + if line[|line| - 1].flag.Kept? then 1 else 0
  }

  datatype Parabola = Parabola(a: real, b: real, c: real)

  function At(p: Parabola, s: real): real {
    p.a * s * s + p.b * s + p.c
  }

  function Residual(p: Parabola, x: Sample): real {
    x.z - At(p, x.s)
  }

  function Square(x: real): real {
    x * x
  }

  /** The residual sum of squares of p on the kept samples. */
  function Rss(line: seq<Sample>, p: Parabola): real {
    if line == [] then 0.0
    else
      var x := line[|line| - 1];
      Rss(line[..|line| - 1], p) + if x.flag.Kept? then Square(Residual(p, x)) else 0.0
  }

  function Det3(a: real, b: real, c: real, d: real, e: real, f: real, g: real, h: real, i: real): real {
    a * (e * i - f * h) - b * (d * i - f * g) + c * (d * h - e * g)
  }

  function Det(m: Moments): real {
    Det3(m.s4, m.s3, m.s2, m.s3, m.s2, m.s1, m.s2, m.s1, m.s0)
  }

  /** The determinants with one column replaced by the right-hand side. */
  function Det0(m: Moments): real {
    Det3(m.t2, m.s3, m.s2, m.t1, m.s2, m.s1, m.t0, m.s1, m.s0)
  }

  function Det1(m: Moments): real {
    Det3(m.s4, m.t2, m.s2, m.s3, m.t1, m.s1, m.s2, m.t0, m.s0)
  }

  function Det2(m: Moments): real {
    Det3(m.s4, m.s3, m.t2, m.s3, m.s2, m.t1, m.s2, m.s1, m.t0)
  }

  function Cofactor00(m: Moments): real {
    m.s2 * m.s0 - m.s1 * m.s1
  }

  function Solution(m: Moments): Parabola
    requires Det(m) != 0.0
  {
    Parabola(Det0(m) / Det(m), Det1(m) / Det(m), Det2(m) / Det(m))
  }

  /** The result; in place of the square roots it has what stands under them. */
  datatype Fit = Fit(used: nat, valid: bool, p: Parabola, curvature: real, meanSquare: real,
                     variance: real)

  function NoFit(used: nat): Fit {
    Fit(used, false, Parabola(0.0, 0.0, 0.0), 0.0, 0.0, 0.0)
  }

  /** sigma^2 * cofactor00 / det(M). */
  function Variance(rss: real, n: nat, cofactor: real, det: real): real
    requires n > 3 && det != 0.0
  {
    rss / (n - 3) as real * cofactor / det
  }

  function FitLine(line: seq<Sample>): Fit {
    var n, m := KeptCount(line), MomentsOf(line);
    if n < 3 || Det(m) == 0.0 then NoFit(n)
    else
      var p := Solution(m);
      var rss := Rss(line, p);
      Fit(n, true, p, 2.0 * p.a, rss / n as real,
          if n > 3 then Variance(rss, n, Cofactor00(m), Det(m)) else 0.0)
  }
}

module LineFitProofs {
  import opened Samples
  import opened LineFitModel

  // ---- least squares --------------------------------------------------------------------------

  /** The normal equations of p. */
  ghost predicate Normal(m: Moments, p: Parabola) {
    && SlopeIs(0.0, m.t2, p, m.s4, m.s3, m.s2)
    && SlopeIs(0.0, m.t1, p, m.s3, m.s2, m.s1)
    && SlopeIs(0.0, m.t0, p, m.s2, m.s1, m.s0)
  }

  ghost predicate SlopeIs(g: real, t: real, p: Parabola, x: real, y: real, w: real) {
    g == t - (p.a * x + p.b * y + p.c * w)
  }

  lemma SlopeIsUnique(g: real, h: real, t: real, p: Parabola, x: real, y: real, w: real)
    requires SlopeIs(g, t, p, x, y, w) && SlopeIs(h, t, p, x, y, w)
    ensures g == h
  {
  }

  lemma CramerIdentities(m: Moments)
    ensures Det0(m) * m.s4 + Det1(m) * m.s3 + Det2(m) * m.s2 == m.t2 * Det(m)
    ensures Det0(m) * m.s3 + Det1(m) * m.s2 + Det2(m) * m.s1 == m.t1 * Det(m)
    ensures Det0(m) * m.s2 + Det1(m) * m.s1 + Det2(m) * m.s0 == m.t0 * Det(m)
  {
  }

  lemma SolutionIsNormal(m: Moments)
    requires Det(m) != 0.0
    ensures Normal(m, Solution(m))
  {
    CramerIdentities(m);
    QuotientsAreNormal(m, Det0(m), Det1(m), Det2(m), Det(m));
  }

  lemma QuotientsAreNormal(m: Moments, x: real, y: real, z: real, d: real)
    requires d != 0.0
    requires x * m.s4 + y * m.s3 + z * m.s2 == m.t2 * d
    requires x * m.s3 + y * m.s2 + z * m.s1 == m.t1 * d
    requires x * m.s2 + y * m.s1 + z * m.s0 == m.t0 * d
    ensures Normal(m, Parabola(x / d, y / d, z / d))
  {
    Combine(x, m.s4, y, m.s3, z, m.s2, m.t2, d);
    Combine(x, m.s3, y, m.s2, z, m.s1, m.t1, d);
    Combine(x, m.s2, y, m.s1, z, m.s0, m.t0, d);
  }

  lemma Combine(x: real, a: real, y: real, b: real, z: real, c: real, t: real, d: real)
    requires d != 0.0 && x * a + y * b + z * c == t * d
    ensures x / d * a + y / d * b + z / d * c == t
  {
    var k := 1.0 / d;
    assert x / d == x * k && y / d == y * k && z / d == z * k && d * k == 1.0;
    assert x * k * a + y * k * b + z * k * c == (x * a + y * b + z * c) * k;
    assert t * d * k == t * (d * k);
  }

  // Replacing a column by the combination of all three scales the determinant by its factor.

  lemma ScaledDet0(a: real, b: real, c: real, s0: real, s1: real, s2: real, s3: real, s4: real,
                   t0: real, t1: real, t2: real, d: real, e: real)
    requires t2 == a * s4 + b * s3 + c * s2 && t1 == a * s3 + b * s2 + c * s1
    requires t0 == a * s2 + b * s1 + c * s0
    requires d == s4 * (s2 * s0 - s1 * s1) - s3 * (s3 * s0 - s1 * s2) + s2 * (s3 * s1 - s2 * s2)
    requires e == t2 * (s2 * s0 - s1 * s1) - s3 * (t1 * s0 - s1 * t0) + s2 * (t1 * s1 - s2 * t0)
    ensures e == a * d
  {
  }

  lemma ScaledDet1(a: real, b: real, c: real, s0: real, s1: real, s2: real, s3: real, s4: real,
                   t0: real, t1: real, t2: real, d: real, e: real)
    requires t2 == a * s4 + b * s3 + c * s2 && t1 == a * s3 + b * s2 + c * s1
    requires t0 == a * s2 + b * s1 + c * s0
    requires d == s4 * (s2 * s0 - s1 * s1) - s3 * (s3 * s0 - s1 * s2) + s2 * (s3 * s1 - s2 * s2)
    requires e == s4 * (t1 * s0 - s1 * t0) - t2 * (s3 * s0 - s1 * s2) + s2 * (s3 * t0 - t1 * s2)
    ensures e == b * d
  {
  }

  lemma ScaledDet2(a: real, b: real, c: real, s0: real, s1: real, s2: real, s3: real, s4: real,
                   t0: real, t1: real, t2: real, d: real, e: real)
    requires t2 == a * s4 + b * s3 + c * s2 && t1 == a * s3 + b * s2 + c * s1
    requires t0 == a * s2 + b * s1 + c * s0
    requires d == s4 * (s2 * s0 - s1 * s1) - s3 * (s3 * s0 - s1 * s2) + s2 * (s3 * s1 - s2 * s2)
    requires e == s4 * (s2 * t0 - t1 * s1) - s3 * (s3 * t0 - t1 * s2) + t2 * (s3 * s1 - s2 * s2)
    ensures e == c * d
  {
  }

  /** The equations of Normal, d == Det(m) as a polynomial, and d is not zero. */
  ghost predicate Solvable(p: Parabola, s0: real, s1: real, s2: real, s3: real, s4: real,
                           t0: real, t1: real, t2: real, d: real) {
    && SlopeIs(0.0, t2, p, s4, s3, s2) && SlopeIs(0.0, t1, p, s3, s2, s1) && SlopeIs(0.0, t0, p, s2, s1, s0)
    && d == s4 * (s2 * s0 - s1 * s1) - s3 * (s3 * s0 - s1 * s2) + s2 * (s3 * s1 - s2 * s2)
    && d != 0.0
  }

  lemma NormalIsSolvable(m: Moments, p: Parabola)
    requires Det(m) != 0.0 && Normal(m, p)
    ensures Solvable(p, m.s0, m.s1, m.s2, m.s3, m.s4, m.t0, m.t1, m.t2, Det(m))
  {
    DetIs(m);
  }

  lemma NormalDet0(p: Parabola, s0: real, s1: real, s2: real, s3: real, s4: real,
                   t0: real, t1: real, t2: real, d: real, e: real)
    requires Solvable(p, s0, s1, s2, s3, s4, t0, t1, t2, d)
    requires e == t2 * (s2 * s0 - s1 * s1) - s3 * (t1 * s0 - s1 * t0) + s2 * (t1 * s1 - s2 * t0)
    ensures e / d == p.a
  {
    ScaledDet0(p.a, p.b, p.c, s0, s1, s2, s3, s4, t0, t1, t2, d, e);
    QuotientOf(e, p.a, d);
  }

  lemma NormalDet1(p: Parabola, s0: real, s1: real, s2: real, s3: real, s4: real,
                   t0: real, t1: real, t2: real, d: real, e: real)
    requires Solvable(p, s0, s1, s2, s3, s4, t0, t1, t2, d)
    requires e == s4 * (t1 * s0 - s1 * t0) - t2 * (s3 * s0 - s1 * s2) + s2 * (s3 * t0 - t1 * s2)
    ensures e / d == p.b
  {
    ScaledDet1(p.a, p.b, p.c, s0, s1, s2, s3, s4, t0, t1, t2, d, e);
    QuotientOf(e, p.b, d);
  }

  lemma NormalDet2(p: Parabola, s0: real, s1: real, s2: real, s3: real, s4: real,
                   t0: real, t1: real, t2: real, d: real, e: real)
    requires Solvable(p, s0, s1, s2, s3, s4, t0, t1, t2, d)
    requires e == s4 * (s2 * t0 - t1 * s1) - s3 * (s3 * t0 - t1 * s2) + t2 * (s3 * s1 - s2 * s2)
    ensures e / d == p.c
  {
    ScaledDet2(p.a, p.b, p.c, s0, s1, s2, s3, s4, t0, t1, t2, d, e);
    QuotientOf(e, p.c, d);
  }

  lemma QuotientOf(x: real, a: real, d: real)
    requires d != 0.0 && x == a * d
    ensures x / d == a
  {
  }

  lemma DetIs(m: Moments)
    ensures Det(m) == m.s4 * (m.s2 * m.s0 - m.s1 * m.s1) - m.s3 * (m.s3 * m.s0 - m.s1 * m.s2)
                      + m.s2 * (m.s3 * m.s1 - m.s2 * m.s2)
  {
  }

  lemma Det0Is(m: Moments)
    ensures Det0(m)
            == m.t2 * (m.s2 * m.s0 - m.s1 * m.s1) - m.s3 * (m.t1 * m.s0 - m.s1 * m.t0)
               + m.s2 * (m.t1 * m.s1 - m.s2 * m.t0)
  {
  }

  lemma OnlySolution0(m: Moments, p: Parabola)
    requires Det(m) != 0.0 && Normal(m, p)
    ensures Det0(m) / Det(m) == p.a
  {
    Det0Is(m);
    NormalIsSolvable(m, p);
    NormalDet0(p, m.s0, m.s1, m.s2, m.s3, m.s4, m.t0, m.t1, m.t2, Det(m), Det0(m));
  }

  lemma Det1Is(m: Moments)
    ensures Det1(m)
            == m.s4 * (m.t1 * m.s0 - m.s1 * m.t0) - m.t2 * (m.s3 * m.s0 - m.s1 * m.s2)
               + m.s2 * (m.s3 * m.t0 - m.t1 * m.s2)
  {
  }

  lemma OnlySolution1(m: Moments, p: Parabola)
    requires Det(m) != 0.0 && Normal(m, p)
    ensures Det1(m) / Det(m) == p.b
  {
    Det1Is(m);
    NormalIsSolvable(m, p);
    NormalDet1(p, m.s0, m.s1, m.s2, m.s3, m.s4, m.t0, m.t1, m.t2, Det(m), Det1(m));
  }

  lemma Det2Is(m: Moments)
    ensures Det2(m)
            == m.s4 * (m.s2 * m.t0 - m.t1 * m.s1) - m.s3 * (m.s3 * m.t0 - m.t1 * m.s2)
               + m.t2 * (m.s3 * m.s1 - m.s2 * m.s2)
  {
  }

  lemma OnlySolution2(m: Moments, p: Parabola)
    requires Det(m) != 0.0 && Normal(m, p)
    ensures Det2(m) / Det(m) == p.c
  {
    Det2Is(m);
    NormalIsSolvable(m, p);
    NormalDet2(p, m.s0, m.s1, m.s2, m.s3, m.s4, m.t0, m.t1, m.t2, Det(m), Det2(m));
  }

  /** The normal equations have one solution. */
  lemma OnlySolution(m: Moments, p: Parabola)
    requires Det(m) != 0.0 && Normal(m, p)
    ensures p == Solution(m)
  {
    OnlySolution0(m, p);
    OnlySolution1(m, p);
    OnlySolution2(m, p);
  }

  lemma SquareSign(x: real)
    ensures Square(x) >= 0.0 && (Square(x) == 0.0 <==> x == 0.0)
  {
    if x > 0.0 {
      Positive(x, x, Square(x));
    } else if x < 0.0 {
      NegativeTwice(x, x, Square(x));
    }
  }

  lemma Positive(a: real, b: real, c: real)
    requires a > 0.0 && b > 0.0 && c == a * b
    ensures c > 0.0
  {
  }

  lemma NegativeTwice(a: real, b: real, c: real)
    requires a < 0.0 && b < 0.0 && c == a * b
    ensures c > 0.0
  {
  }

  /** The sums of residual times s^2, s and 1. */
  datatype Slopes = Slopes(r2: real, r1: real, r0: real)

  function AddSlope(g: Slopes, r: real, s: real): Slopes {
    Slopes(g.r2 + r * (s * s), g.r1 + r * s, g.r0 + r)
  }

  function SlopesOf(line: seq<Sample>, p: Parabola): Slopes {
    if line == [] then Slopes(0.0, 0.0, 0.0)
    else
      var g, x := SlopesOf(line[..|line| - 1], p), line[|line| - 1];
      if x.flag.Kept? then AddSlope(g, Residual(p, x), x.s) else g
  }

  ghost predicate Slope2(m: Moments, p: Parabola, g: Slopes) {
    SlopeIs(g.r2, m.t2, p, m.s4, m.s3, m.s2)
  }

  ghost predicate Slope1(m: Moments, p: Parabola, g: Slopes) {
    SlopeIs(g.r1, m.t1, p, m.s3, m.s2, m.s1)
  }

  ghost predicate Slope0(m: Moments, p: Parabola, g: Slopes) {
    SlopeIs(g.r0, m.t0, p, m.s2, m.s1, m.s0)
  }

  lemma SlopeIdentity(a: real, b: real, c: real, s: real, z: real, r: real, k: real,
                      g: real, t: real, x: real, y: real, w: real,
                      g': real, t': real, x': real, y': real, w': real)
    requires r == z - (a * s * s + b * s + c) && g == t - (a * x + b * y + c * w)
    requires g' == g + r * k && t' == t + k * z
    requires x' == x + s * s * k && y' == y + s * k && w' == w + k
    ensures g' == t' - (a * x' + b * y' + c * w')
  {
  }

  ghost predicate IsResidual(p: Parabola, s: real, z: real, r: real) {
    r == z - (p.a * s * s + p.b * s + p.c)
  }

  lemma SlopeTerm(p: Parabola, s: real, z: real, r: real, k: real,
                  g: real, t: real, x: real, y: real, w: real,
                  g': real, t': real, x': real, y': real, w': real)
    requires IsResidual(p, s, z, r) && SlopeIs(g, t, p, x, y, w)
    requires g' == g + r * k && t' == t + k * z
    requires x' == x + s * s * k && y' == y + s * k && w' == w + k
    ensures SlopeIs(g', t', p, x', y', w')
  {
    SlopeIdentity(p.a, p.b, p.c, s, z, r, k, g, t, x, y, w, g', t', x', y', w');
  }

  lemma QuadraticTerm(p: Parabola, s: real, z: real, r: real,
                      g: real, t: real, x: real, y: real, w: real,
                      g': real, t': real, x': real, y': real, w': real)
    requires IsResidual(p, s, z, r) && SlopeIs(g, t, p, x, y, w)
    requires g' == g + r * (s * s) && t' == t + s * s * z
    requires x' == x + s * s * s * s && y' == y + s * s * s && w' == w + s * s
    ensures SlopeIs(g', t', p, x', y', w')
  {
    SlopeIdentity(p.a, p.b, p.c, s, z, r, s * s, g, t, x, y, w, g', t', x', y', w');
  }

  // Definitions as plain equations.

  lemma AddFields(m: Moments, s: real, z: real)
    ensures var n := Add(m, s, z);
            && n.s0 == m.s0 + 1.0 && n.s1 == m.s1 + s && n.s2 == m.s2 + s * s
            && n.s3 == m.s3 + s * s * s && n.s4 == m.s4 + s * s * s * s
            && n.t0 == m.t0 + z && n.t1 == m.t1 + s * z && n.t2 == m.t2 + s * s * z
  {
  }

  lemma SquareIs(x: real)
    ensures Square(x) == x * x
  {
  }

  lemma AddSlopeFields(g: Slopes, r: real, s: real)
    ensures var h := AddSlope(g, r, s);
            h.r2 == g.r2 + r * (s * s) && h.r1 == g.r1 + r * s && h.r0 == g.r0 + r
  {
  }

  lemma ResidualIs(p: Parabola, x: Sample)
    ensures IsResidual(p, x.s, x.z, Residual(p, x))
  {
  }

  lemma Slope2Step(m: Moments, p: Parabola, g: Slopes, s: real, z: real, r: real)
    requires Slope2(m, p, g) && IsResidual(p, s, z, r)
    ensures Slope2(Add(m, s, z), p, AddSlope(g, r, s))
  {
    var n := Add(m, s, z);
    AddFields(m, s, z);
    AddSlopeFields(g, r, s);
    QuadraticTerm(p, s, z, r, g.r2, m.t2, m.s4, m.s3, m.s2, AddSlope(g, r, s).r2, n.t2, n.s4, n.s3, n.s2);
  }

  lemma Slope1Step(m: Moments, p: Parabola, g: Slopes, s: real, z: real, r: real)
    requires Slope1(m, p, g) && IsResidual(p, s, z, r)
    ensures Slope1(Add(m, s, z), p, AddSlope(g, r, s))
  {
    var n := Add(m, s, z);
    AddFields(m, s, z);
    AddSlopeFields(g, r, s);
    SlopeTerm(p, s, z, r, s, g.r1, m.t1, m.s3, m.s2, m.s1,
              AddSlope(g, r, s).r1, n.t1, n.s3, n.s2, n.s1);
  }

  lemma Slope0Step(m: Moments, p: Parabola, g: Slopes, s: real, z: real, r: real)
    requires Slope0(m, p, g) && IsResidual(p, s, z, r)
    ensures Slope0(Add(m, s, z), p, AddSlope(g, r, s))
  {
    var n := Add(m, s, z);
    AddFields(m, s, z);
    AddSlopeFields(g, r, s);
    SlopeTerm(p, s, z, r, 1.0, g.r0, m.t0, m.s2, m.s1, m.s0,
              AddSlope(g, r, s).r0, n.t0, n.s2, n.s1, n.s0);
  }

  lemma {:induction false} SlopesAreMoments(line: seq<Sample>, p: Parabola)
    ensures var m, g := MomentsOf(line), SlopesOf(line, p);
            Slope2(m, p, g) && Slope1(m, p, g) && Slope0(m, p, g)
    decreases |line|
  {
    if line != [] {
      var rest, x := line[..|line| - 1], line[|line| - 1];
      var m, g := MomentsOf(rest), SlopesOf(rest, p);
      SlopesAreMoments(rest, p);
      ResidualIs(p, x);
      Slope2Step(m, p, g, x.s, x.z, Residual(p, x));
      Slope1Step(m, p, g, x.s, x.z, Residual(p, x));
      Slope0Step(m, p, g, x.s, x.z, Residual(p, x));
    }
  }

  function Shift(p: Parabola, d: Parabola): Parabola {
    Parabola(p.a + d.a, p.b + d.b, p.c + d.c)
  }

  /** The sum of squares of d itself. */
  function Energy(line: seq<Sample>, d: Parabola): real {
    if line == [] then 0.0
    else
      var x := line[|line| - 1];
      Energy(line[..|line| - 1], d) + if x.flag.Kept? then Square(At(d, x.s)) else 0.0
  }

  /** How a change d of the parabola moves the residual sum. */
  ghost predicate Moves(rss: real, shifted: real, d: Parabola, g: Slopes, energy: real) {
    shifted == rss - 2.0 * (d.a * g.r2 + d.b * g.r1 + d.c * g.r0) + energy
  }

  lemma MoveIdentity(a: real, b: real, c: real, s: real, r: real, e: real, r': real,
                     rss: real, shifted: real, g2: real, g1: real, g0: real, energy: real,
                     h2: real, h1: real, h0: real, rr: real, ee: real, rr': real)
    requires shifted == rss - 2.0 * (a * g2 + b * g1 + c * g0) + energy
    requires e == a * s * s + b * s + c && r' == r - e
    requires h2 == g2 + r * (s * s) && h1 == g1 + r * s && h0 == g0 + r
    requires rr == r * r && ee == e * e && rr' == r' * r'
    ensures shifted + rr' == (rss + rr) - 2.0 * (a * h2 + b * h1 + c * h0) + (energy + ee)
  {
  }

  lemma MoveTerm(d: Parabola, s: real, r: real, e: real, r': real,
                 rss: real, shifted: real, g: Slopes, energy: real, h: Slopes,
                 rr: real, ee: real, rr': real)
    requires Moves(rss, shifted, d, g, energy)
    requires e == d.a * s * s + d.b * s + d.c && r' == r - e
    requires h.r2 == g.r2 + r * (s * s) && h.r1 == g.r1 + r * s && h.r0 == g.r0 + r
    requires rr == r * r && ee == e * e && rr' == r' * r'
    ensures Moves(rss + rr, shifted + rr', d, h, energy + ee)
  {
    MoveIdentity(d.a, d.b, d.c, s, r, e, r', rss, shifted, g.r2, g.r1, g.r0, energy,
                 h.r2, h.r1, h.r0, rr, ee, rr');
  }

  lemma AtIs(p: Parabola, s: real)
    ensures At(p, s) == p.a * s * s + p.b * s + p.c
  {
  }

  lemma MoveStep(d: Parabola, x: Sample, p: Parabola, rss: real, shifted: real, g: Slopes, energy: real)
    requires Moves(rss, shifted, d, g, energy)
    ensures Moves(rss + Square(Residual(p, x)), shifted + Square(Residual(Shift(p, d), x)), d,
                  AddSlope(g, Residual(p, x), x.s), energy + Square(At(d, x.s)))
  {
    var r, e, r' := Residual(p, x), At(d, x.s), Residual(Shift(p, d), x);
    AtIs(d, x.s);
    ResidualOfShift(p, d, x);
    AddSlopeFields(g, r, x.s);
    SquareIs(r);
    SquareIs(e);
    SquareIs(r');
    MoveTerm(d, x.s, r, e, r', rss, shifted, g, energy, AddSlope(g, r, x.s),
             Square(r), Square(e), Square(r'));
  }

  lemma AtShift(a: real, b: real, c: real, da: real, db: real, dc: real, s: real)
    ensures (a + da) * s * s + (b + db) * s + (c + dc)
            == (a * s * s + b * s + c) + (da * s * s + db * s + dc)
  {
  }

  lemma {:induction false} RssOfShift(line: seq<Sample>, p: Parabola, d: Parabola)
    ensures Moves(Rss(line, p), Rss(line, Shift(p, d)), d, SlopesOf(line, p), Energy(line, d))
    decreases |line|
  {
    if line != [] {
      var rest, x := line[..|line| - 1], line[|line| - 1];
      RssOfShift(rest, p, d);
      MoveStep(d, x, p, Rss(rest, p), Rss(rest, Shift(p, d)), SlopesOf(rest, p), Energy(rest, d));
    }
  }

  lemma {:induction false} EnergyIsNonNegative(line: seq<Sample>, d: Parabola)
    ensures Energy(line, d) >= 0.0
    decreases |line|
  {
    if line != [] {
      EnergyIsNonNegative(line[..|line| - 1], d);
      SquareSign(At(d, line[|line| - 1].s));
    }
  }

  lemma NormalMeansNoSlope(line: seq<Sample>, p: Parabola)
    requires Normal(MomentsOf(line), p)
    ensures SlopesOf(line, p) == Slopes(0.0, 0.0, 0.0)
  {
    var m, g := MomentsOf(line), SlopesOf(line, p);
    SlopesAreMoments(line, p);
    SlopeIsUnique(g.r2, 0.0, m.t2, p, m.s4, m.s3, m.s2);
    SlopeIsUnique(g.r1, 0.0, m.t1, p, m.s3, m.s2, m.s1);
    SlopeIsUnique(g.r0, 0.0, m.t0, p, m.s2, m.s1, m.s0);
  }

  lemma NormalMeansFlat(line: seq<Sample>, p: Parabola, d: Parabola)
    requires Normal(MomentsOf(line), p)
    ensures Rss(line, Shift(p, d)) == Rss(line, p) + Energy(line, d)
  {
    RssOfShift(line, p, d);
    assert SlopesOf(line, p) == Slopes(0.0, 0.0, 0.0) by {
      NormalMeansNoSlope(line, p);
    }
  }

  /** No parabola has a smaller residual sum than the fit. */
  lemma FitIsLeastSquares(line: seq<Sample>, q: Parabola)
    requires FitLine(line).valid
    ensures Rss(line, FitLine(line).p) <= Rss(line, q)
  {
    var p := FitLine(line).p;
    var d := Parabola(q.a - p.a, q.b - p.b, q.c - p.c);
    SolutionIsNormal(MomentsOf(line));
    NormalMeansFlat(line, p, d);
    EnergyIsNonNegative(line, d);
    assert Shift(p, d) == q;
  }

  // ---- uniqueness --------------------------------------------------------------------------------

  ghost predicate SameResiduals(line: seq<Sample>, p: Parabola, q: Parabola) {
    forall i :: 0 <= i < |line| && line[i].flag.Kept? ==> Residual(p, line[i]) == Residual(q, line[i])
  }

  lemma ResidualOfShift(p: Parabola, d: Parabola, x: Sample)
    ensures Residual(Shift(p, d), x) == Residual(p, x) - At(d, x.s)
  {
    AtShift(p.a, p.b, p.c, d.a, d.b, d.c, x.s);
  }

  lemma {:induction false} NoEnergyNoShift(line: seq<Sample>, p: Parabola, d: Parabola)
    requires Energy(line, d) == 0.0
    ensures SameResiduals(line, p, Shift(p, d))
    decreases |line|
  {
    if line != [] {
      var rest, x := line[..|line| - 1], line[|line| - 1];
      EnergyIsNonNegative(rest, d);
      SquareSign(At(d, x.s));
      NoEnergyNoShift(rest, p, d);
      ResidualOfShift(p, d, x);
      assert forall i :: 0 <= i < |rest| ==> line[i] == rest[i];
    }
  }

  lemma {:induction false} SameResidualsSameSlopes(line: seq<Sample>, p: Parabola, q: Parabola)
    requires SameResiduals(line, p, q)
    ensures SlopesOf(line, p) == SlopesOf(line, q)
    decreases |line|
  {
    if line != [] {
      assert SameResiduals(line[..|line| - 1], p, q);
      SameResidualsSameSlopes(line[..|line| - 1], p, q);
    }
  }

  lemma NoSlopeMeansNormal(line: seq<Sample>, p: Parabola)
    requires SlopesOf(line, p) == Slopes(0.0, 0.0, 0.0)
    ensures Normal(MomentsOf(line), p)
  {
    SlopesAreMoments(line, p);
  }

  /** Any parabola with the residual sum of the fit is the fit. */
  lemma FitIsUnique(line: seq<Sample>, q: Parabola)
    requires FitLine(line).valid && Rss(line, q) <= Rss(line, FitLine(line).p)
    ensures q == FitLine(line).p
  {
    var p := FitLine(line).p;
    var d := Parabola(q.a - p.a, q.b - p.b, q.c - p.c);
    assert Shift(p, d) == q;
    SolutionIsNormal(MomentsOf(line));
    NormalMeansFlat(line, p, d);
    EnergyIsNonNegative(line, d);
    NoEnergyNoShift(line, p, d);
    SameResidualsSameSlopes(line, p, q);
    NormalMeansNoSlope(line, p);
    NoSlopeMeansNormal(line, q);
    OnlySolution(MomentsOf(line), q);
  }

  // ---- exact recovery ---------------------------------------------------------------------------

  ghost predicate OnParabola(line: seq<Sample>, p: Parabola) {
    forall i :: 0 <= i < |line| && line[i].flag.Kept? ==> line[i].z == At(p, line[i].s)
  }

  lemma {:induction false} NoResidualNoSlope(line: seq<Sample>, p: Parabola)
    requires OnParabola(line, p)
    ensures SlopesOf(line, p) == Slopes(0.0, 0.0, 0.0) && Rss(line, p) == 0.0
    decreases |line|
  {
    if line != [] {
      NoResidualNoSlope(line[..|line| - 1], p);
      SquareSign(0.0);
    }
  }

  /** Samples on a parabola are fitted by that parabola, without residual. */
  lemma ParabolaIsRecovered(line: seq<Sample>, p: Parabola)
    requires FitLine(line).valid && OnParabola(line, p)
    ensures FitLine(line).p == p && FitLine(line).curvature == 2.0 * p.a
    ensures FitLine(line).meanSquare == 0.0 && FitLine(line).variance == 0.0
  {
    NoResidualNoSlope(line, p);
    SlopesAreMoments(line, p);
    OnlySolution(MomentsOf(line), p);
  }

  // ---- the determinant ----------------------------------------------------------------------------

  function Gap(s: real, x: real): real {
    s - x
  }

  function Weighted(weight: real, apart: real): real {
    weight * apart
  }

  /** Sum over the kept s of (s - x)^2 (s - y)^2. */
  function Apart(line: seq<Sample>, x: real, y: real): real {
    if line == [] then 0.0
    else
      var last := line[|line| - 1];
      Apart(line[..|line| - 1], x, y)
      + if last.flag.Kept? then Square(Weighted(Gap(last.s, x), Gap(last.s, y))) else 0.0
  }

  /** Sum over pairs of kept positions s, t of (s - t)^2 (s - x)^2 (t - x)^2. */
  function Pairs(line: seq<Sample>, x: real): real {
    if line == [] then 0.0
    else
      var rest, last := line[..|line| - 1], line[|line| - 1];
      Pairs(rest, x) + if last.flag.Kept? then Weighted(Square(Gap(last.s, x)), Apart(rest, x, last.s)) else 0.0
  }

  /** Sum over triples of kept positions of the square of their Vandermonde product. */
  function Triples(line: seq<Sample>): real {
    if line == [] then 0.0
    else
      var rest, last := line[..|line| - 1], line[|line| - 1];
      Triples(rest) + if last.flag.Kept? then Pairs(rest, last.s) else 0.0
  }

  function ApartForm(m: Moments, x: real, y: real): real {
    m.s4 - 2.0 * x * m.s3 - 2.0 * y * m.s3 + x * x * m.s2 + 4.0 * x * y * m.s2 + y * y * m.s2
    - 2.0 * x * x * y * m.s1 - 2.0 * x * y * y * m.s1 + x * x * y * y * m.s0
  }

  /** The quadratic form of the adjugate matrix at (x^2, x, 1). */
  function PairsForm(m: Moments, x: real): real {
    x * x * x * x * m.s2 * m.s0 - x * x * x * x * m.s1 * m.s1
    - 2.0 * x * x * x * m.s3 * m.s0 + 2.0 * x * x * x * m.s2 * m.s1
    + x * x * m.s4 * m.s0 - 3.0 * x * x * m.s2 * m.s2 + 2.0 * x * x * m.s3 * m.s1
    - 2.0 * x * m.s4 * m.s1 + 2.0 * x * m.s3 * m.s2 + m.s4 * m.s2 - m.s3 * m.s3
  }

  /** The identity behind PairsStep, in plain numbers. */
  lemma PairsIdentity(s0: real, s1: real, s2: real, s3: real, s4: real,
                      n0: real, n1: real, n2: real, n3: real, n4: real, x: real, y: real,
                      gap: real, weight: real, apart: real, before: real, after: real, term: real)
    requires n0 == s0 + 1.0 && n1 == s1 + y && n2 == s2 + y * y && n3 == s3 + y * y * y
    requires n4 == s4 + y * y * y * y && gap == y - x && weight == gap * gap && term == weight * apart
    requires apart == s4 - 2.0 * x * s3 - 2.0 * y * s3 + x * x * s2 + 4.0 * x * y * s2 + y * y * s2
                      - 2.0 * x * x * y * s1 - 2.0 * x * y * y * s1 + x * x * y * y * s0
    requires before == x * x * x * x * s2 * s0 - x * x * x * x * s1 * s1
                       - 2.0 * x * x * x * s3 * s0 + 2.0 * x * x * x * s2 * s1
                       + x * x * s4 * s0 - 3.0 * x * x * s2 * s2 + 2.0 * x * x * s3 * s1
                       - 2.0 * x * s4 * s1 + 2.0 * x * s3 * s2 + s4 * s2 - s3 * s3
    requires after == x * x * x * x * n2 * n0 - x * x * x * x * n1 * n1
                      - 2.0 * x * x * x * n3 * n0 + 2.0 * x * x * x * n2 * n1
                      + x * x * n4 * n0 - 3.0 * x * x * n2 * n2 + 2.0 * x * x * n3 * n1
                      - 2.0 * x * n4 * n1 + 2.0 * x * n3 * n2 + n4 * n2 - n3 * n3
    ensures after == before + term
  {
  }

  lemma ApartStep(m: Moments, x: real, y: real, s: real, z: real)
    ensures ApartForm(Add(m, s, z), x, y)
            == ApartForm(m, x, y) + Square(Weighted(Gap(s, x), Gap(s, y)))
  {
    var n := Add(m, s, z);
    AddFields(m, s, z);
    ApartFormIs(m, x, y);
    ApartFormIs(n, x, y);
    SquareIs(Weighted(Gap(s, x), Gap(s, y)));
    WeightedIs(Gap(s, x), Gap(s, y));
    ApartIdentity(m.s0, m.s1, m.s2, m.s3, m.s4, n.s0, n.s1, n.s2, n.s3, n.s4, x, y, s, Gap(s, x), Gap(s, y),
                  Weighted(Gap(s, x), Gap(s, y)), ApartForm(m, x, y), ApartForm(n, x, y),
                  Square(Weighted(Gap(s, x), Gap(s, y))));
  }

  lemma ApartIdentity(s0: real, s1: real, s2: real, s3: real, s4: real,
                      n0: real, n1: real, n2: real, n3: real, n4: real, x: real, y: real, s: real,
                      gap: real, other: real, both: real, before: real, after: real, term: real)
    requires n0 == s0 + 1.0 && n1 == s1 + s && n2 == s2 + s * s && n3 == s3 + s * s * s
    requires n4 == s4 + s * s * s * s && gap == s - x && other == s - y
    requires both == gap * other && term == both * both
    requires before == s4 - 2.0 * x * s3 - 2.0 * y * s3 + x * x * s2 + 4.0 * x * y * s2 + y * y * s2
                       - 2.0 * x * x * y * s1 - 2.0 * x * y * y * s1 + x * x * y * y * s0
    requires after == n4 - 2.0 * x * n3 - 2.0 * y * n3 + x * x * n2 + 4.0 * x * y * n2 + y * y * n2
                      - 2.0 * x * x * y * n1 - 2.0 * x * y * y * n1 + x * x * y * y * n0
    ensures after == before + term
  {
  }

  lemma PairsStep(m: Moments, x: real, s: real, z: real)
    ensures PairsForm(Add(m, s, z), x) == PairsForm(m, x) + Weighted(Square(Gap(s, x)), ApartForm(m, x, s))
  {
    var n := Add(m, s, z);
    AddFields(m, s, z);
    ApartFormIs(m, x, s);
    PairsFormIs(m, x);
    PairsFormIs(n, x);
    SquareIs(Gap(s, x));
    WeightedIs(Square(Gap(s, x)), ApartForm(m, x, s));
    PairsIdentity(m.s0, m.s1, m.s2, m.s3, m.s4, n.s0, n.s1, n.s2, n.s3, n.s4, x, s,
                  Gap(s, x), Square(Gap(s, x)), ApartForm(m, x, s), PairsForm(m, x), PairsForm(n, x),
                  Weighted(Square(Gap(s, x)), ApartForm(m, x, s)));
  }

  lemma WeightedIs(weight: real, apart: real)
    ensures Weighted(weight, apart) == weight * apart
  {
  }

  lemma ApartFormIs(m: Moments, x: real, y: real)
    ensures ApartForm(m, x, y)
            == m.s4 - 2.0 * x * m.s3 - 2.0 * y * m.s3 + x * x * m.s2 + 4.0 * x * y * m.s2 + y * y * m.s2
               - 2.0 * x * x * y * m.s1 - 2.0 * x * y * y * m.s1 + x * x * y * y * m.s0
  {
  }

  lemma PairsFormIs(m: Moments, x: real)
    ensures PairsForm(m, x)
            == x * x * x * x * m.s2 * m.s0 - x * x * x * x * m.s1 * m.s1
               - 2.0 * x * x * x * m.s3 * m.s0 + 2.0 * x * x * x * m.s2 * m.s1
               + x * x * m.s4 * m.s0 - 3.0 * x * x * m.s2 * m.s2 + 2.0 * x * x * m.s3 * m.s1
               - 2.0 * x * m.s4 * m.s1 + 2.0 * x * m.s3 * m.s2 + m.s4 * m.s2 - m.s3 * m.s3
  {
  }

  lemma DetStep(m: Moments, s: real, z: real)
    ensures Det(Add(m, s, z)) == Det(m) + PairsForm(m, s)
  {
  }

  lemma {:induction false} ApartIsForm(line: seq<Sample>, x: real, y: real)
    ensures Apart(line, x, y) == ApartForm(MomentsOf(line), x, y)
    decreases |line|
  {
    if line != [] {
      var rest, last := line[..|line| - 1], line[|line| - 1];
      ApartIsForm(rest, x, y);
      ApartStep(MomentsOf(rest), x, y, last.s, last.z);
    }
  }

  lemma {:induction false} PairsIsForm(line: seq<Sample>, x: real)
    ensures Pairs(line, x) == PairsForm(MomentsOf(line), x)
    decreases |line|
  {
    if line != [] {
      var rest, last := line[..|line| - 1], line[|line| - 1];
      PairsIsForm(rest, x);
      PairsStep(MomentsOf(rest), x, last.s, last.z);
      ApartIsForm(rest, x, last.s);
    }
  }

  /** The determinant is the sum over triples of positions. */
  lemma {:induction false} DetIsTriples(line: seq<Sample>)
    ensures Det(MomentsOf(line)) == Triples(line)
    decreases |line|
  {
    if line != [] {
      var rest, last := line[..|line| - 1], line[|line| - 1];
      DetIsTriples(rest);
      DetStep(MomentsOf(rest), last.s, last.z);
      PairsIsForm(rest, last.s);
    }
  }

  // ---- its sign -----------------------------------------------------------------------------------

  /** Some kept sample stands at position s. */
  ghost predicate Has(line: seq<Sample>, s: real) {
    exists i :: 0 <= i < |line| && line[i].flag.Kept? && line[i].s == s
  }

  lemma HasStep(line: seq<Sample>, s: real)
    requires line != []
    ensures var last := line[|line| - 1];
            Has(line, s) <==> Has(line[..|line| - 1], s) || (last.flag.Kept? && last.s == s)
  {
    var rest := line[..|line| - 1];
    if Has(rest, s) {
      var i :| 0 <= i < |rest| && rest[i].flag.Kept? && rest[i].s == s;
      assert line[i].flag.Kept? && line[i].s == s;
    }
    if Has(line, s) {
      var i :| 0 <= i < |line| && line[i].flag.Kept? && line[i].s == s;
      assert i < |rest| ==> rest[i].flag.Kept? && rest[i].s == s;
    }
  }

  ghost predicate HasBeside(line: seq<Sample>, x: real, y: real) {
    exists s :: Has(line, s) && s != x && s != y
  }

  ghost predicate HasTwoBeside(line: seq<Sample>, x: real) {
    exists s, t :: Has(line, s) && Has(line, t) && s != t && s != x && t != x
  }

  /** Three different positions are kept. */
  ghost predicate HasThree(line: seq<Sample>) {
    exists s, t, u :: Has(line, s) && Has(line, t) && Has(line, u) && s != t && s != u && t != u
  }

  lemma HasBesideStep(line: seq<Sample>, x: real, y: real)
    requires line != []
    ensures var last := line[|line| - 1];
            HasBeside(line, x, y) <==>
              HasBeside(line[..|line| - 1], x, y) || (last.flag.Kept? && last.s != x && last.s != y)
  {
    var rest, last := line[..|line| - 1], line[|line| - 1];
    HasStep(line, last.s);
    if HasBeside(rest, x, y) {
      var s :| Has(rest, s) && s != x && s != y;
      HasStep(line, s);
    }
    if HasBeside(line, x, y) {
      var s :| Has(line, s) && s != x && s != y;
      HasStep(line, s);
    }
  }

  lemma HasTwoBesideStep(line: seq<Sample>, x: real)
    requires line != []
    ensures var rest, last := line[..|line| - 1], line[|line| - 1];
            HasTwoBeside(line, x) <==>
              HasTwoBeside(rest, x) || (last.flag.Kept? && last.s != x && HasBeside(rest, x, last.s))
  {
    var rest, last := line[..|line| - 1], line[|line| - 1];
    HasStep(line, last.s);
    if HasTwoBeside(rest, x) {
      var s, t :| Has(rest, s) && Has(rest, t) && s != t && s != x && t != x;
      HasStep(line, s);
      HasStep(line, t);
    }
    if last.flag.Kept? && last.s != x && HasBeside(rest, x, last.s) {
      var s :| Has(rest, s) && s != x && s != last.s;
      HasStep(line, s);
    }
    if HasTwoBeside(line, x) {
      var s, t :| Has(line, s) && Has(line, t) && s != t && s != x && t != x;
      HasStep(line, s);
      HasStep(line, t);
    }
  }

  lemma HasThreeStep(line: seq<Sample>)
    requires line != []
    ensures var rest, last := line[..|line| - 1], line[|line| - 1];
            HasThree(line) <==> HasThree(rest) || (last.flag.Kept? && HasTwoBeside(rest, last.s))
  {
    var rest, last := line[..|line| - 1], line[|line| - 1];
    HasStep(line, last.s);
    if HasThree(rest) {
      var s, t, u :| Has(rest, s) && Has(rest, t) && Has(rest, u) && s != t && s != u && t != u;
      HasStep(line, s);
      HasStep(line, t);
      HasStep(line, u);
    }
    if last.flag.Kept? && HasTwoBeside(rest, last.s) {
      var s, t :| Has(rest, s) && Has(rest, t) && s != t && s != last.s && t != last.s;
      HasStep(line, s);
      HasStep(line, t);
    }
    if HasThree(line) {
      var s, t, u :| Has(line, s) && Has(line, t) && Has(line, u) && s != t && s != u && t != u;
      HasStep(line, s);
      HasStep(line, t);
      HasStep(line, u);
    }
  }

  lemma WeightedSign(a: real, b: real)
    ensures a >= 0.0 && b >= 0.0 ==> Weighted(a, b) >= 0.0
    ensures Weighted(a, b) == 0.0 <==> a == 0.0 || b == 0.0
  {
    ProductSign(a, b, Weighted(a, b));
  }

  lemma ProductSign(a: real, b: real, c: real)
    requires c == a * b
    ensures a >= 0.0 && b >= 0.0 ==> c >= 0.0
    ensures c == 0.0 <==> a == 0.0 || b == 0.0
  {
  }

  lemma {:induction false} ApartSign(line: seq<Sample>, x: real, y: real)
    ensures Apart(line, x, y) >= 0.0 && (Apart(line, x, y) > 0.0 <==> HasBeside(line, x, y))
    decreases |line|
  {
    if line != [] {
      var rest, last := line[..|line| - 1], line[|line| - 1];
      ApartSign(rest, x, y);
      HasBesideStep(line, x, y);
      SquareSign(Weighted(Gap(last.s, x), Gap(last.s, y)));
      WeightedSign(Gap(last.s, x), Gap(last.s, y));
    }
  }

  lemma {:induction false} PairsSign(line: seq<Sample>, x: real)
    ensures Pairs(line, x) >= 0.0 && (Pairs(line, x) > 0.0 <==> HasTwoBeside(line, x))
    decreases |line|
  {
    if line != [] {
      var rest, last := line[..|line| - 1], line[|line| - 1];
      PairsSign(rest, x);
      ApartSign(rest, x, last.s);
      HasTwoBesideStep(line, x);
      SquareSign(Gap(last.s, x));
      WeightedSign(Square(Gap(last.s, x)), Apart(rest, x, last.s));
    }
  }

  lemma {:induction false} TriplesSign(line: seq<Sample>)
    ensures Triples(line) >= 0.0 && (Triples(line) > 0.0 <==> HasThree(line))
    decreases |line|
  {
    if line != [] {
      var rest, last := line[..|line| - 1], line[|line| - 1];
      TriplesSign(rest);
      PairsSign(rest, last.s);
      HasThreeStep(line);
    }
  }

  /** det(M) >= 0, and det(M) > 0 exactly if three different positions are kept. */
  lemma DetSign(line: seq<Sample>)
    ensures Det(MomentsOf(line)) >= 0.0
    ensures Det(MomentsOf(line)) > 0.0 <==> HasThree(line)
  {
    DetIsTriples(line);
    TriplesSign(line);
  }

  lemma {:induction false} ThreeAreKept(line: seq<Sample>, x: real, y: real)
    ensures HasBeside(line, x, y) ==> KeptCount(line) >= 1
    ensures HasTwoBeside(line, x) ==> KeptCount(line) >= 2
    ensures HasThree(line) ==> KeptCount(line) >= 3
    decreases |line|
  {
    if line != [] {
      var last := line[|line| - 1];
      ThreeAreKept(line[..|line| - 1], x, y);
      ThreeAreKept(line[..|line| - 1], x, last.s);
      ThreeAreKept(line[..|line| - 1], last.s, y);
      HasBesideStep(line, x, y);
      HasTwoBesideStep(line, x);
      HasThreeStep(line);
    }
  }

  /** The fit is valid exactly if three different positions are kept. */
  lemma ValidIff(line: seq<Sample>)
    ensures FitLine(line).valid <==> HasThree(line)
  {
    DetSign(line);
    ThreeAreKept(line, 0.0, 0.0);
  }

  // ---- the cofactor and the variance ----------------------------------------------------------------

  function Spread(line: seq<Sample>, x: real): real {
    if line == [] then 0.0
    else
      var last := line[|line| - 1];
      Spread(line[..|line| - 1], x) + if last.flag.Kept? then Square(Gap(last.s, x)) else 0.0
  }

  function SpreadForm(m: Moments, x: real): real {
    m.s2 - 2.0 * x * m.s1 + x * x * m.s0
  }

  lemma SpreadStep(m: Moments, x: real, s: real, z: real)
    ensures SpreadForm(Add(m, s, z), x) == SpreadForm(m, x) + Square(Gap(s, x))
    ensures Cofactor00(Add(m, s, z)) == Cofactor00(m) + SpreadForm(m, s)
  {
  }

  lemma {:induction false} SpreadIsForm(line: seq<Sample>, x: real)
    ensures Spread(line, x) == SpreadForm(MomentsOf(line), x) && Spread(line, x) >= 0.0
    decreases |line|
  {
    if line != [] {
      var rest, last := line[..|line| - 1], line[|line| - 1];
      SpreadIsForm(rest, x);
      SpreadStep(MomentsOf(rest), x, last.s, last.z);
      SquareSign(Gap(last.s, x));
    }
  }

  lemma {:induction false} CofactorIsNonNegative(line: seq<Sample>)
    ensures Cofactor00(MomentsOf(line)) >= 0.0
    decreases |line|
  {
    if line != [] {
      var rest, last := line[..|line| - 1], line[|line| - 1];
      CofactorIsNonNegative(rest);
      SpreadStep(MomentsOf(rest), 0.0, last.s, last.z);
      SpreadIsForm(rest, last.s);
    }
  }

  lemma {:induction false} RssIsNonNegative(line: seq<Sample>, p: Parabola)
    ensures Rss(line, p) >= 0.0
    decreases |line|
  {
    if line != [] {
      RssIsNonNegative(line[..|line| - 1], p);
      SquareSign(Residual(p, line[|line| - 1]));
    }
  }

  lemma QuotientSign(x: real, d: real)
    requires x >= 0.0 && d > 0.0
    ensures x / d >= 0.0
  {
  }

  lemma ProductIsNonNegative(x: real, y: real)
    requires x >= 0.0 && y >= 0.0
    ensures x * y >= 0.0
  {
  }

  /** The values under the square roots are never negative, so the guard against it never acts. */
  lemma RootsAreDefined(line: seq<Sample>)
    ensures FitLine(line).meanSquare >= 0.0 && FitLine(line).variance >= 0.0
  {
    var n, m := KeptCount(line), MomentsOf(line);
    if FitLine(line).valid {
      var rss := Rss(line, Solution(m));
      RssIsNonNegative(line, Solution(m));
      QuotientSign(rss, n as real);
      DetSign(line);
      CofactorIsNonNegative(line);
      if n > 3 {
        QuotientSign(rss, (n - 3) as real);
        ProductIsNonNegative(rss / (n - 3) as real, Cofactor00(m));
        QuotientSign(rss / (n - 3) as real * Cofactor00(m), Det(m));
      }
    }
  }

  // ---- what the errors are ------------------------------------------------------------------------

  /** x, y and z are the first column of the inverse of the normal matrix. */
  predicate IsFirstColumn(m: Moments, x: real, y: real, z: real) {
    && x * m.s4 + y * m.s3 + z * m.s2 == 1.0
    && x * m.s3 + y * m.s2 + z * m.s1 == 0.0
    && x * m.s2 + y * m.s1 + z * m.s0 == 0.0
  }

  /** Cramer's rule for that column: its first entry is cofactor00 / det(M). */
  lemma FirstOfInverse(m: Moments, x: real, y: real, z: real)
    requires Det(m) != 0.0 && IsFirstColumn(m, x, y, z)
    ensures Cofactor00(m) / Det(m) == x
  {
    var unit := m.(t2 := 1.0, t1 := 0.0, t0 := 0.0);
    assert Det(unit) == Det(m);
    assert Det0(unit) == Cofactor00(m);
    OnlySolution(unit, Parabola(x, y, z));
  }

  lemma VarianceIs(rss: real, n: nat, cofactor: real, det: real, x: real)
    requires n > 3 && det != 0.0 && cofactor / det == x
    ensures Variance(rss, n, cofactor, det) * (n - 3) as real == rss * x
  {
    var k := (n - 3) as real;
    var q := rss / k;
    assert q * k == rss;
    assert cofactor == x * det;
    ProductQuotient(q, x, det);
    assert q * x * k == q * k * x;
  }

  lemma ProductQuotient(q: real, x: real, d: real)
    requires d != 0.0
    ensures q * (x * d) / d == q * x
  {
    assert q * (x * d) == q * x * d;
  }

  lemma QuotientTimes(x: real, d: real)
    requires d != 0.0
    ensures x / d * d == x
  {
  }

  lemma SecondDifference(a: real, b: real, c: real, s: real)
    ensures At(Parabola(a, b, c), s + 1.0) - 2.0 * At(Parabola(a, b, c), s) + At(Parabola(a, b, c), s - 1.0)
            == 2.0 * a
  {
  }

  /** The curvature is the second difference of the fitted parabola. */
  lemma CurvatureIsSecondDifference(line: seq<Sample>, s: real)
    requires FitLine(line).valid
    ensures var r := FitLine(line);
            r.curvature == At(r.p, s + 1.0) - 2.0 * At(r.p, s) + At(r.p, s - 1.0)
  {
    var p := FitLine(line).p;
    SecondDifference(p.a, p.b, p.c, s);
  }

  predicate IsScaled(r: Fit, rss: real, x: real) {
    && r.used >= 3 && r.meanSquare * r.used as real == rss
    && (if r.used > 3 then r.variance * (r.used - 3) as real == rss * x else r.variance == 0.0)
  }

  lemma ScaledBy(r: Fit, rss: real, cofactor: real, det: real, x: real)
    requires r.used >= 3 && det != 0.0 && cofactor / det == x && r.meanSquare == rss / r.used as real
    requires r.variance == if r.used > 3 then Variance(rss, r.used, cofactor, det) else 0.0
    ensures IsScaled(r, rss, x)
  {
    QuotientTimes(rss, r.used as real);
    if r.used > 3 {
      VarianceIs(rss, r.used, cofactor, det, x);
    }
  }

  lemma InverseOf(line: seq<Sample>, x: real, y: real, z: real) returns (cofactor: real, det: real)
    requires FitLine(line).valid && IsFirstColumn(MomentsOf(line), x, y, z)
    ensures det != 0.0 && cofactor / det == x
    ensures var r, n := FitLine(line), KeptCount(line);
            && r.used == n >= 3 && r.meanSquare == Rss(line, r.p) / n as real
            && r.variance == if n > 3 then Variance(Rss(line, r.p), n, cofactor, det) else 0.0
  {
    cofactor, det := Cofactor00(MomentsOf(line)), Det(MomentsOf(line));
    FirstOfInverse(MomentsOf(line), x, y, z);
  }

  /** The mean square is the least residual sum over n; the variance, for n over 3, is that sum over n - 3
      times the first entry of the inverse of the normal matrix. */
  lemma ErrorsAreScaled(line: seq<Sample>, x: real, y: real, z: real)
    requires FitLine(line).valid && IsFirstColumn(MomentsOf(line), x, y, z)
    ensures FitLine(line).used == KeptCount(line)
    ensures IsScaled(FitLine(line), Rss(line, FitLine(line).p), x)
  {
    var cofactor, det := InverseOf(line, x, y, z);
    var r := FitLine(line);
    ScaledBy(r, Rss(line, r.p), cofactor, det, x);
  }
}

/** The loops of fit_line and cramer_solve. */
module LineFitMethods {
  import opened Samples
  import opened LineFitModel

  /** cramer_solve: a copy of m with one column replaced. */
  method CramerSolve(m: array2<real>, rhs: array<real>, col: nat, det: real) returns (r: real)
    requires m.Length0 == 3 && m.Length1 == 3 && rhs.Length == 3 && col < 3 && det != 0.0
    ensures col == 0 ==> r == Det3(rhs[0], m[0, 1], m[0, 2], rhs[1], m[1, 1], m[1, 2], rhs[2], m[2, 1], m[2, 2]) / det
    ensures col == 1 ==> r == Det3(m[0, 0], rhs[0], m[0, 2], m[1, 0], rhs[1], m[1, 2], m[2, 0], rhs[2], m[2, 2]) / det
    ensures col == 2 ==> r == Det3(m[0, 0], m[0, 1], rhs[0], m[1, 0], m[1, 1], rhs[1], m[2, 0], m[2, 1], rhs[2]) / det
  {
    var sub := new real[3, 3];
    for i := 0 to 3
      invariant forall r, c :: 0 <= r < i && 0 <= c < 3 ==> sub[r, c] == if c == col then rhs[r] else m[r, c]
    {
      for j := 0 to 3
        invariant forall r, c :: 0 <= r < i && 0 <= c < 3 ==> sub[r, c] == if c == col then rhs[r] else m[r, c]
        invariant forall c :: 0 <= c < j ==> sub[i, c] == if c == col then rhs[i] else m[i, c]
      {
        sub[i, j] := if j == col then rhs[i] else m[i, j];
      }
    }
    r := Det3(sub[0, 0], sub[0, 1], sub[0, 2], sub[1, 0], sub[1, 1], sub[1, 2], sub[2, 0], sub[2, 1], sub[2, 2]) / det;
  }

  /** The first loop: sums over the kept samples. */
  method Accumulate(line: seq<Sample>) returns (m: Moments, n: nat)
    ensures m == MomentsOf(line) && n == KeptCount(line)
  {
    m, n := NO_MOMENTS, 0;
    for i := 0 to |line|
      invariant m == MomentsOf(line[..i]) && n == KeptCount(line[..i])
    {
      assert line[..i + 1][..i] == line[..i];
      if line[i].flag.Kept? {
        var s, z := line[i].s, line[i].z;
        var q := s * s;
        m := Moments(m.s0 + 1.0, m.s1 + s, m.s2 + q, m.s3 + q * s, m.s4 + q * q,
                     m.t0 + z, m.t1 + s * z, m.t2 + q * z);
        n := n + 1;
      }
    }
    assert line[..|line|] == line;
  }

  /** The second loop: the residual sum. */
  method ResidualSum(line: seq<Sample>, p: Parabola) returns (rss: real)
    ensures rss == Rss(line, p)
  {
    rss := 0.0;
    for i := 0 to |line|
      invariant rss == Rss(line[..i], p)
    {
      assert line[..i + 1][..i] == line[..i];
      if line[i].flag.Kept? {
        var residual := line[i].z - At(p, line[i].s);
        rss := rss + Square(residual);
      }
    }
    assert line[..|line|] == line;
  }

  method Solve(m: Moments, det: real) returns (p: Parabola)
    requires det == Det(m) && det != 0.0
    ensures p == Solution(m)
  {
    var matrix, rhs := new real[3, 3], new real[3];
    matrix[0, 0], matrix[0, 1], matrix[0, 2] := m.s4, m.s3, m.s2;
    matrix[1, 0], matrix[1, 1], matrix[1, 2] := m.s3, m.s2, m.s1;
    matrix[2, 0], matrix[2, 1], matrix[2, 2] := m.s2, m.s1, m.s0;
    rhs[0], rhs[1], rhs[2] := m.t2, m.t1, m.t0;
    var a := CramerSolve(matrix, rhs, 0, det);
    var b := CramerSolve(matrix, rhs, 1, det);
    var c := CramerSolve(matrix, rhs, 2, det);
    p := Parabola(a, b, c);
  }

  method FitSamples(line: seq<Sample>) returns (r: Fit)
    ensures r == FitLine(line)
  {
    var m, n := Accumulate(line);
    if n < 3 {
      return NoFit(n);
    }
    var det := Det(m);
    if det == 0.0 {
      return NoFit(n);
    }
    var p := Solve(m, det);
    var rss := ResidualSum(line, p);
    var variance := 0.0;
    if n > 3 {
      variance := Variance(rss, n, Cofactor00(m), det);
    }
    r := Fit(n, true, p, 2.0 * p.a, rss / n as real, variance);
  }
}
