/** The two-state Kalman filter that tracks the lag between two instruments and its drift. */
module Kalman {
  import opened Domain
  import opened Matrices

  const FLOOR: real := 0.000000001

  // ---------------------------------------------------------------- the filter on values

  datatype Config = Config(initialLag: real, initialDrift: real, initialVarLag: real, initialVarDrift: real,
                           qLag: real, qDrift: real, rObs: real, confidenceScale: real, outlierCutoff: real) {

    /** Variances are not negative. */
    ghost predicate Sane() {
      initialVarLag >= 0.0 && initialVarDrift >= 0.0 && qLag >= 0.0 && qDrift >= 0.0 && rObs >= 0.0
    }
  }

  /** Lag, drift, and their covariance. */
  datatype Estimate = Estimate(x0: real, x1: real, p: Matrix)

  ghost function Prior(cfg: Config): Estimate {
    Estimate(cfg.initialLag, cfg.initialDrift, Diagonal(cfg.initialVarLag, cfg.initialVarDrift))
  }

  /** x = F x and P = F P F' + Q with F = [[1, dt], [0, 1]]. */
  ghost function Predict(cfg: Config, e: Estimate, dt: real): Estimate {
    var f := Matrix(1.0, dt, 0.0, 1.0);
    Estimate(e.x0 + dt * e.x1, e.x1,
             f.Times(e.p).Times(f.Transposed()).Plus(Diagonal(cfg.qLag * dt, cfg.qDrift * dt)))
  }

  /** (I - K H) P (I - K H)' + K r K' with H = [1, 0]. */
  ghost function Joseph(p: Matrix, k0: real, k1: real, r: real): Matrix {
    var i := Matrix(1.0 - k0, 0.0, -k1, 1.0);
    i.Times(p).Times(i.Transposed()).Plus(Matrix(k0 * k0 * r, k0 * k1 * r, k0 * k1 * r, k1 * k1 * r))
  }

  /** Raises the diagonal to the floor and evens out the off-diagonal. */
  ghost function Floored(p: Matrix): Matrix {
    Matrix(Max(FLOOR, p.a), 0.5 * (p.b + p.c), 0.5 * (p.b + p.c), Max(FLOOR, p.d))
  }

  ghost predicate Skips(cfg: Config, e: Estimate, z: real) {
    e.p.a + cfg.rObs < FLOOR || Abs(z - e.x0) > cfg.outlierCutoff
  }

  ghost function Observe(cfg: Config, e: Estimate, z: real): Estimate
    requires !Skips(cfg, e, z)
  {
    var s := e.p.a + cfg.rObs;
    var k0, k1 := e.p.a / s, e.p.c / s;
    Estimate(Clamp(e.x0 + k0 * (z - e.x0), -1000.0, 10000.0),
             Clamp(e.x1 + k1 * (z - e.x0), -100.0, 100.0),
             Floored(Joseph(e.p, k0, k1, cfg.rObs)))
  }

  ghost function Step(cfg: Config, e: Estimate, dt: real, z: real): Estimate {
    if dt <= 0.0 then e
    else if dt > 3600.0 then Prior(cfg)
    else
      var e' := Predict(cfg, e, dt);
      if Skips(cfg, e', z) then e' else Observe(cfg, e', z)
  }

  // ---------------------------------------------------------------- the filter as the program runs it

  class KalmanLagEstimator {
    const cfg: Config
    var x0: real
    var x1: real
    var p00: real
    var p01: real
    var p10: real
    var p11: real

    ghost function View(): Estimate
      reads this
    {
      Estimate(x0, x1, Matrix(p00, p01, p10, p11))
    }

    constructor (cfg: Config)
      ensures this.cfg == cfg && View() == Prior(cfg)
    {
      this.cfg := cfg;
      x0, x1 := cfg.initialLag, cfg.initialDrift;
      p00, p01, p10, p11 := cfg.initialVarLag, 0.0, 0.0, cfg.initialVarDrift;
    }

    method Reset()
      modifies this
      ensures View() == Prior(cfg)
    {
      x0, x1 := cfg.initialLag, cfg.initialDrift;
      p00, p01, p10, p11 := cfg.initialVarLag, 0.0, 0.0, cfg.initialVarDrift;
    }

    method Update(dt: real, z: real)
      modifies this
      ensures View() == Step(cfg, old(View()), dt, z)
    {
      if dt <= 0.0 || dt > 3600.0 {
        if dt > 3600.0 { Reset(); }
        return;
      }
      PredictInPlace(dt);
      var inno := z - x0;
      var s := p00 + cfg.rObs;
      if s < FLOOR {
        return;
      }
      if Abs(inno) > cfg.outlierCutoff {
        return;
      }
      CorrectInPlace(z, inno, s);
    }

    method PredictInPlace(dt: real)
      modifies this
      ensures View() == Predict(cfg, old(View()), dt)
    {
      x0 := x0 + dt * x1;
      var fp00 := p00 + dt * p10;
      var fp01 := p01 + dt * p11;
      var fp10, fp11 := p10, p11;
      var pp00 := fp00 + dt * fp01;
      var pp01 := fp01;
      var pp10 := fp10 + dt * fp11;
      var pp11 := fp11;
      p00 := pp00 + cfg.qLag * dt;
      p01 := pp01;
      p10 := pp10;
      p11 := pp11 + cfg.qDrift * dt;
    }

    method CorrectInPlace(z: real, inno: real, s: real)
      requires inno == z - x0 && s == p00 + cfg.rObs && !Skips(cfg, View(), z)
      modifies this
      ensures View() == Observe(cfg, old(View()), z)
    {
      hide Joseph, Floored;
      var k0 := p00 / s;
      var k1 := p10 / s;
      x0 := x0 + k0 * inno;
      x1 := x1 + k1 * inno;
      JosephInPlace(k0, k1);
      x0 := Clamp(x0, -1000.0, 10000.0);
      x1 := Clamp(x1, -100.0, 100.0);
    }

    /** The Joseph form, floored and evened out. */
    method JosephInPlace(k0: real, k1: real)
      modifies this`p00, this`p01, this`p10, this`p11
      ensures View().p == Floored(Joseph(old(View().p), k0, k1, cfg.rObs))
    {
      var updated := Unrolled(Matrix(p00, p01, p10, p11), k0, k1, cfg.rObs);
      UnrolledIsJoseph(Matrix(p00, p01, p10, p11), k0, k1, cfg.rObs);
      hide Joseph, Unrolled;
      p00 := Max(FLOOR, updated.a);
      p11 := Max(FLOOR, updated.d);
      p10 := 0.5 * (updated.b + updated.c);
      p01 := p10;
    }

    /** None stands for the division by zero, which no covariance leads to. */
    method Confidence() returns (c: Option<real>)
      ensures cfg.confidenceScale <= 0.0 ==> c == Some(0.0)
      ensures c == None <==> cfg.confidenceScale > 0.0 && cfg.confidenceScale + p00 == 0.0
      ensures cfg.confidenceScale > 0.0 && p00 >= 0.0 ==> c.Some? && 0.0 < c.value <= 1.0
      ensures cfg.confidenceScale > 0.0 && c.Some? ==> c.value * (cfg.confidenceScale + p00) == cfg.confidenceScale
    {
      if cfg.confidenceScale <= 0.0 {
        return Some(0.0);
      }
      ConfidenceRatio(p00, cfg.confidenceScale);
      var d := 1.0 + p00 / cfg.confidenceScale;
      c := if d == 0.0 then None else Some(1.0 / d);
    }
  }

  lemma {:induction false} ConfidenceRatio(p: real, scale: real)
    requires scale > 0.0
    ensures 1.0 + p / scale == 0.0 <==> scale + p == 0.0
    ensures scale + p != 0.0 ==> var c := 1.0 / (1.0 + p / scale); c * (scale + p) == scale && (p >= 0.0 ==> 0.0 < c <= 1.0)
  {
  }

  function Entry00(g: real, k0: real, a: real, r: real): real {
    g * g * a + k0 * k0 * r
  }

  function Entry01(g: real, k0: real, k1: real, a: real, b: real, r: real): real {
    -g * k1 * a + g * b + k0 * k1 * r
  }

  function Entry10(g: real, k0: real, k1: real, a: real, c: real, r: real): real {
    g * (-k1 * a + c) + k0 * k1 * r
  }

  function Entry11(k1: real, a: real, b: real, c: real, d: real, r: real): real {
    k1 * k1 * a - k1 * c - k1 * b + d + k1 * k1 * r
  }

  /** The four entries of the Joseph form as the program multiplies them out. */
  function Unrolled(p: Matrix, k0: real, k1: real, r: real): Matrix {
    var g := 1.0 - k0;
    Matrix(Entry00(g, k0, p.a, r), Entry01(g, k0, k1, p.a, p.b, r),
           Entry10(g, k0, k1, p.a, p.c, r), Entry11(k1, p.a, p.b, p.c, p.d, r))
  }

  lemma {:induction false} UnrolledIsJoseph(p: Matrix, k0: real, k1: real, r: real)
    ensures Unrolled(p, k0, k1, r) == Joseph(p, k0, k1, r)
  {
    hide Joseph, Entry00, Entry01, Entry10, Entry11;
    FirstRow(p, k0, k1, r);
    SecondRow(p, k0, k1, r);
  }

  lemma {:induction false} FirstRow(p: Matrix, k0: real, k1: real, r: real)
    ensures Joseph(p, k0, k1, r).a == Entry00(1.0 - k0, k0, p.a, r)
    ensures Joseph(p, k0, k1, r).b == Entry01(1.0 - k0, k0, k1, p.a, p.b, r)
  {
  }

  lemma {:induction false} SecondRow(p: Matrix, k0: real, k1: real, r: real)
    ensures Joseph(p, k0, k1, r).c == Entry10(1.0 - k0, k0, k1, p.a, p.c, r)
    ensures Joseph(p, k0, k1, r).d == Entry11(k1, p.a, p.b, p.c, p.d, r)
  {
  }
}
