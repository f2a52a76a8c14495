/** The covariance of the lag filter stays a covariance, and observations only sharpen it. */
module KalmanLaws {
  import opened Domain
  import opened Matrices
  import opened Kalman

  lemma {:induction false} PredictedEntries(cfg: Config, e: Estimate, dt: real)
    ensures var p, q := e.p, Predict(cfg, e, dt).p;
      && q.a == p.a + dt * p.c + dt * (p.b + dt * p.d) + cfg.qLag * dt
      && q.b == p.b + dt * p.d && q.c == p.c + dt * p.d && q.d == p.d + cfg.qDrift * dt
  {
  }

  /** The predicted form is the old form at F'(u, v), plus the process noise. */
  lemma {:induction false} PredictedForm(cfg: Config, e: Estimate, dt: real, u: real, v: real)
    ensures Predict(cfg, e, dt).p.Form(u, v) ==
      e.p.Form(u, u * dt + v) + cfg.qLag * dt * (u * u) + cfg.qDrift * dt * (v * v)
  {
  }

  lemma {:induction false} PredictKeepsCovariance(cfg: Config, e: Estimate, dt: real)
    requires cfg.Sane() && e.p.Covariance() && dt > 0.0
    ensures Predict(cfg, e, dt).p.Covariance()
  {
    var q := Predict(cfg, e, dt).p;
    PredictedEntries(cfg, e, dt);
    hide Predict, Matrix.Form;
    forall u: real, v: real ensures q.Form(u, v) >= 0.0 {
      PredictedForm(cfg, e, dt, u, v);
      SquareNonNegative(u);
      SquareNonNegative(v);
      ProductNonNegative(cfg.qLag, dt);
      ProductNonNegative(cfg.qDrift, dt);
      ProductNonNegative(cfg.qLag * dt, u * u);
      ProductNonNegative(cfg.qDrift * dt, v * v);
    }
  }

  lemma {:induction false} JosephPolynomial(a: real, b: real, c: real, d: real, g: real, k0: real, k1: real, r: real,
      u: real, v: real)
    ensures u * u * Entry00(g, k0, a, r) + u * v * Entry01(g, k0, k1, a, b, r)
        + u * v * Entry10(g, k0, k1, a, c, r) + v * v * Entry11(k1, a, b, c, d, r)
      == (g * u - k1 * v) * (g * u - k1 * v) * a + (g * u - k1 * v) * v * b + (g * u - k1 * v) * v * c + v * v * d
        + r * ((k0 * u + k1 * v) * (k0 * u + k1 * v))
  {
  }

  /** The updated form is the old form at (I - K H)'(u, v), plus the observation noise. */
  lemma {:induction false} JosephForm(p: Matrix, k0: real, k1: real, r: real, u: real, v: real)
    ensures var w, z := (1.0 - k0) * u - k1 * v, k0 * u + k1 * v;
      Joseph(p, k0, k1, r).Form(u, v) == p.Form(w, v) + r * (z * z)
  {
    UnrolledIsJoseph(p, k0, k1, r);
    JosephPolynomial(p.a, p.b, p.c, p.d, 1.0 - k0, k0, k1, r, u, v);
    hide Joseph, Entry00, Entry01, Entry10, Entry11;
  }

  lemma {:induction false} JosephSymmetric(p: Matrix, k0: real, k1: real, r: real)
    requires p.b == p.c
    ensures Joseph(p, k0, k1, r).b == Joseph(p, k0, k1, r).c
  {
  }

  lemma {:induction false} JosephKeepsCovariance(p: Matrix, k0: real, k1: real, r: real)
    requires p.Covariance() && r >= 0.0
    ensures Joseph(p, k0, k1, r).Covariance()
  {
    UnrolledIsJoseph(p, k0, k1, r);
    var j := Joseph(p, k0, k1, r);
    JosephSymmetric(p, k0, k1, r);
    hide Joseph, Unrolled, Matrix.Form;
    forall u: real, v: real ensures j.Form(u, v) >= 0.0 {
      JosephForm(p, k0, k1, r, u, v);
      var z := k0 * u + k1 * v;
      SquareNonNegative(z);
      ProductNonNegative(r, z * z);
    }
  }

  lemma {:induction false} FlooredKeepsCovariance(p: Matrix)
    requires p.Covariance()
    ensures Floored(p).Covariance()
  {
    var q := Floored(p);
    forall u: real, v: real ensures q.Form(u, v) >= 0.0 {
      SquareNonNegative(u);
      SquareNonNegative(v);
      ProductNonNegative(u * u, q.a - p.a);
      ProductNonNegative(v * v, q.d - p.d);
      assert q.Form(u, v) == p.Form(u, v) + u * u * (q.a - p.a) + v * v * (q.d - p.d);
    }
  }

  lemma {:induction false} PriorIsCovariance(cfg: Config)
    requires cfg.Sane()
    ensures Prior(cfg).p.Covariance()
  {
  }

  lemma {:induction false} StepKeepsCovariance(cfg: Config, e: Estimate, dt: real, z: real)
    requires cfg.Sane() && e.p.Covariance()
    ensures Step(cfg, e, dt, z).p.Covariance()
  {
    PriorIsCovariance(cfg);
    hide Matrix.Covariance, Predict, Joseph, Floored, Prior;
    if 0.0 < dt <= 3600.0 {
      PredictKeepsCovariance(cfg, e, dt);
      var e' := Predict(cfg, e, dt);
      if !Skips(cfg, e', z) {
        var s := e'.p.a + cfg.rObs;
        JosephKeepsCovariance(e'.p, e'.p.a / s, e'.p.c / s, cfg.rObs);
        FlooredKeepsCovariance(Joseph(e'.p, e'.p.a / s, e'.p.c / s, cfg.rObs));
      }
    }
  }

  datatype Event = ResetCall | UpdateCall(dt: real, z: real)

  /** The estimate after the first `n` calls. */
  ghost function Run(cfg: Config, events: seq<Event>, n: nat): Estimate
    requires n <= |events|
  {
    if n == 0 then Prior(cfg)
    else
      match events[n - 1]
      case ResetCall => Prior(cfg)
      case UpdateCall(dt, z) => Step(cfg, Run(cfg, events, n - 1), dt, z)
  }

  /** In every run the covariance is symmetric and positive semidefinite after every call. */
  lemma {:induction false} EveryRunKeepsCovariance(cfg: Config, events: seq<Event>, n: nat)
    requires cfg.Sane() && n <= |events|
    ensures Run(cfg, events, n).p.Covariance()
    decreases n
  {
    PriorIsCovariance(cfg);
    hide Matrix.Covariance, Step, Prior;
    if n > 0 {
      EveryRunKeepsCovariance(cfg, events, n - 1);
      if events[n - 1].UpdateCall? {
        StepKeepsCovariance(cfg, Run(cfg, events, n - 1), events[n - 1].dt, events[n - 1].z);
      }
    }
  }

  /** The textbook update (I - K H) P, entry by entry. */
  ghost function Standard(p: Matrix, k0: real, k1: real): Matrix {
    Matrix((1.0 - k0) * p.a, (1.0 - k0) * p.b, -k1 * p.a + p.c, -k1 * p.b + p.d)
  }

  lemma {:induction false} StandardIsProduct(p: Matrix, k0: real, k1: real)
    ensures Matrix(1.0 - k0, 0.0, -k1, 1.0).Times(p) == Standard(p, k0, k1)
  {
    var m := Matrix(1.0 - k0, 0.0, -k1, 1.0).Times(p);
    assert m.a == (1.0 - k0) * p.a + 0.0 * p.c && m.b == (1.0 - k0) * p.b + 0.0 * p.d;
    assert m.c == -k1 * p.a + 1.0 * p.c && m.d == -k1 * p.b + 1.0 * p.d;
  }

  lemma {:induction false} UnrolledIsStandard(p: Matrix, k0: real, k1: real, r: real)
    requires p.b == p.c && k0 * (p.a + r) == p.a && k1 * (p.a + r) == p.c
    ensures Unrolled(p, k0, k1, r) == Standard(p, k0, k1)
    ensures Standard(p, k0, k1).a == k0 * r
  {
  }

  /** With the optimal gain the Joseph form is the textbook update (I - K H) P. */
  lemma {:induction false} OptimalJoseph(p: Matrix, k0: real, k1: real, r: real)
    requires p.b == p.c && k0 * (p.a + r) == p.a && k1 * (p.a + r) == p.c
    ensures Joseph(p, k0, k1, r) == Matrix(1.0 - k0, 0.0, -k1, 1.0).Times(p) == Standard(p, k0, k1)
    ensures Joseph(p, k0, k1, r).a == k0 * r
  {
    UnrolledIsJoseph(p, k0, k1, r);
    UnrolledIsStandard(p, k0, k1, r);
    StandardIsProduct(p, k0, k1);
    hide Joseph, Unrolled, Standard, Matrix.Times;
  }

  /** What the form loses to an observation, in the direction (u, v). */
  ghost function Loss(a: real, b: real, k0: real, k1: real, u: real, v: real): real {
    u * u * (k0 * a) + u * v * (k0 * b) + u * v * (k1 * a) + v * v * (k1 * b)
  }

  lemma {:induction false} LossNonNegative(a: real, b: real, k0: real, k1: real, s: real, u: real, v: real)
    requires s > 0.0 && k0 * s == a && k1 * s == b
    ensures Loss(a, b, k0, k1, u, v) >= 0.0
  {
    var x := (u * k0 + v * k1) * (u * k0 + v * k1);
    SquareNonNegative(u * k0 + v * k1);
    ProductNonNegative(s, x);
    LossIsSquare(a, b, k0, k1, s, u, v);
    hide Loss;
  }

  lemma {:induction false} LossIsSquare(a: real, b: real, k0: real, k1: real, s: real, u: real, v: real)
    requires k0 * s == a && k1 * s == b
    ensures Loss(a, b, k0, k1, u, v) == s * ((u * k0 + v * k1) * (u * k0 + v * k1))
  {
  }

  lemma {:induction false} StandardLoses(p: Matrix, k0: real, k1: real, u: real, v: real)
    requires p.b == p.c
    ensures Standard(p, k0, k1).Form(u, v) == p.Form(u, v) - Loss(p.a, p.b, k0, k1, u, v)
  {
  }

  /** Before the floors, an observation adds no uncertainty in any direction of the state. */
  lemma {:induction false} JosephSharpens(p: Matrix, k0: real, k1: real, r: real, u: real, v: real)
    requires p.b == p.c && p.a + r > 0.0 && k0 * (p.a + r) == p.a && k1 * (p.a + r) == p.c
    ensures Joseph(p, k0, k1, r).Form(u, v) <= p.Form(u, v)
  {
    OptimalJoseph(p, k0, k1, r);
    StandardLoses(p, k0, k1, u, v);
    LossNonNegative(p.a, p.b, k0, k1, p.a + r, u, v);
    hide Joseph, Standard, Loss, Matrix.Form, Matrix.Times;
  }

  /**
   * An accepted observation, floors included, adds no uncertainty in any direction of the state but
   * what the floors lift: nothing where neither variance falls below the floor, and never more than
   * the floor itself.
   */
  lemma {:induction false} ObservationSharpens(cfg: Config, e: Estimate, z: real, u: real, v: real)
    requires cfg.Sane() && e.p.Covariance() && !Skips(cfg, e, z)
    ensures var p := Observe(cfg, e, z).p;
      && p.Form(u, v) <= e.p.Form(u, v) + FLOOR * (u * u + v * v)
      && (p.a > FLOOR && p.d > FLOOR ==> p.Form(u, v) <= e.p.Form(u, v))
  {
    var s := e.p.a + cfg.rObs;
    var k0, k1 := e.p.a / s, e.p.c / s;
    JosephSharpens(e.p, k0, k1, cfg.rObs, u, v);
    JosephKeepsCovariance(e.p, k0, k1, cfg.rObs);
    CovarianceIffDeterminant(Joseph(e.p, k0, k1, cfg.rObs));
    FloorsLift(Joseph(e.p, k0, k1, cfg.rObs), u, v);
    hide Joseph, Floored, Matrix.Form, Matrix.Covariance;
  }

  lemma {:induction false} FloorsLift(p: Matrix, u: real, v: real)
    requires p.a >= 0.0 && p.d >= 0.0
    ensures Floored(p).Form(u, v) <= p.Form(u, v) + FLOOR * (u * u + v * v)
    ensures Floored(p).a > FLOOR && Floored(p).d > FLOOR ==> Floored(p).Form(u, v) == p.Form(u, v)
  {
    var f := Floored(p);
    SquareNonNegative(u);
    SquareNonNegative(v);
    ProductNonNegative(FLOOR - (f.a - p.a), u * u);
    ProductNonNegative(FLOOR - (f.d - p.d), v * v);
    LiftedForm(p, f, u, v);
  }

  lemma {:induction false} LiftedForm(p: Matrix, f: Matrix, u: real, v: real)
    requires f.b + f.c == p.b + p.c
    ensures f.Form(u, v) == p.Form(u, v) + (f.a - p.a) * (u * u) + (f.d - p.d) * (v * v)
  {
  }

  /**
   * After an accepted observation the lag variance is at most the observation variance and at most
   * the predicted one, up to the floor, and both state entries are within their limits.
   */
  lemma {:induction false} AcceptedObservationBounds(cfg: Config, e: Estimate, z: real)
    requires cfg.Sane() && e.p.Covariance() && !Skips(cfg, e, z)
    ensures var e' := Observe(cfg, e, z);
      && FLOOR <= e'.p.a <= Max(FLOOR, cfg.rObs) && e'.p.a <= Max(FLOOR, e.p.a)
      && e'.p.d <= Max(FLOOR, e.p.d)
      && -1000.0 <= e'.x0 <= 10000.0 && -100.0 <= e'.x1 <= 100.0
  {
    var r, s := cfg.rObs, e.p.a + cfg.rObs;
    var k0, k1 := e.p.a / s, e.p.c / s;
    CovarianceIffDeterminant(e.p);
    hide Matrix.Covariance;
    OptimalBounds(e.p, k0, k1, r);
    hide Joseph;
  }

  lemma {:induction false} OptimalBounds(p: Matrix, k0: real, k1: real, r: real)
    requires p.b == p.c && p.a >= 0.0 && r >= 0.0 && p.a + r > 0.0
    requires k0 * (p.a + r) == p.a && k1 * (p.a + r) == p.c
    ensures var j := Joseph(p, k0, k1, r); j.a <= r && j.a <= p.a && j.d <= p.d
  {
    var s := p.a + r;
    OptimalJoseph(p, k0, k1, r);
    hide Joseph;
    GainAtMostOne(k0, s, p.a, r);
    SquareNonNegative(k1);
    ProductNonNegative(s, k1 * k1);
    assert k1 * p.b == s * (k1 * k1);
    ProductNonNegative(k0, p.a);
  }

  lemma {:induction false} GainAtMostOne(k: real, s: real, a: real, r: real)
    requires s > 0.0 && k * s == a && 0.0 <= a <= s && r >= 0.0
    ensures 0.0 <= k <= 1.0 && k * r <= r
  {
  }
}
