/**
 * The force laws of library/forces.c and the debounce of the physics
 * collision handler.
 *
 * Each force creator reads its constants and bodies from its aux record and
 * changes the bodies through body_add_force, body_remove or
 * body_add_elastic_impulse. The force a law produces is a pure function; the
 * creator is a method whose contract says, as a two-state predicate, which
 * bodies received which force and that nothing else changed. The
 * create_* helpers, which register a creator with a scene, are in
 * registration.dfy.
 */
module Forces {
  import opened Vectors
  import opened Polygons
  import opened Collision
  import opened Bodies
  import opened Auxes

  /** MIN_DIST: closer than this, gravity is not applied. */
  const MinDist: real := 30.0

  // ---------------------------------------------------------------------
  // The laws

  /** gravity_force_creator: G m1 m2 / |r|^2 along the unit vector from c1 to c2. */
  function GravityForce(m: MathLib, g: real, mass1: real, mass2: real, c1: Vector, c2: Vector): Vector
    requires Dist(m, c2, c1) >= MinDist
  {
    var r := Subtract(c2, c1);
    Scale(g * mass1 * mass2 / (Norm(m, r) * Norm(m, r)), Normalize(m, r))
  }

  /** spring_force_creator: -k times the displacement of the first centroid from the second. */
  function SpringForce(k: real, c1: Vector, c2: Vector): Vector
  {
    Scale(-k, Subtract(c1, c2))
  }

  /** drag_force_creator: -gamma times the velocity. */
  function DragForce(gamma: real, vel: Vector): Vector
  {
    Scale(-gamma, vel)
  }

  /** applied_force_creator: the magnitude along the direction of motion. */
  function AppliedForce(m: MathLib, magnitude: real, vel: Vector): Vector
    requires Norm(m, vel) != 0.0
  {
    Scale(magnitude, Normalize(m, vel))
  }

  // ---------------------------------------------------------------------
  // What a creator does to its bodies

  /** Only the acceleration changed, by body_add_force(body, force). */
  twostate predicate Pushed(body: Body, force: Vector)
    requires body.Valid()
    reads body, body.shape
  {
    body.State() == old(body.State()).(acl := Accelerated(old(body.acl), body.mass, force))
  }

  twostate predicate Untouched(body: Body)
    reads body, body.shape
  {
    body.State() == old(body.State())
  }

  /** Every field but the acceleration is as it was. */
  twostate predicate AccelerationOnly(body: Body)
    reads body, body.shape
  {
    body.State() == old(body.State()).(acl := body.acl)
  }

  /**
   * gravity_force_creator: nothing while the centroids are closer than
   * MIN_DIST; otherwise the two bodies are pushed by opposite gravity forces.
   * With an INFINITY mass the C force is INF or NaN and body_add_force
   * stores a NaN or infinite acceleration: then only the accelerations change.
   */
  twostate predicate GravityApplied(m: MathLib, g: real, body1: Body, body2: Body)
    requires body1.Valid() && body2.Valid()
    reads body1, body2, body1.shape, body2.shape
  {
    var c1, c2 := old(body1.centroid), old(body2.centroid);
    if Dist(m, c2, c1) < MinDist then
      Untouched(body1) && Untouched(body2)
    else if body1.mass.Finite? && body2.mass.Finite? then
      var f := GravityForce(m, g, body1.mass.value, body2.mass.value, c1, c2);
      body1 != body2 && Pushed(body1, f) && Pushed(body2, Negate(f))
    else
      body1 != body2 && AccelerationOnly(body1) && AccelerationOnly(body2)
  }

  twostate predicate SpringApplied(k: real, body1: Body, body2: Body)
    requires body1.Valid()
    reads body1, body2, body1.shape, body2.shape
  {
    && Pushed(body1, SpringForce(k, old(body1.centroid), old(body2.centroid)))
    && (body2 != body1 ==> Untouched(body2))
  }

  twostate predicate DestroyedIfCollided(m: MathLib, body1: Body, body2: Body)
    requires Lawful(m) && old(EdgesNonZero(body1.shape[..]) && EdgesNonZero(body2.shape[..]))
    reads body1, body2, body1.shape, body2.shape
  {
    if old(FindCollisionSpec(m, body1.shape[..], body2.shape[..]).Collided()) then
      && body1.State() == old(body1.State()).(removed := true)
      && body2.State() == old(body2.State()).(removed := true)
    else
      Untouched(body1) && Untouched(body2)
  }

  // ---------------------------------------------------------------------
  // The creators. Each reads its arguments from the aux record; list_get
  // asserts that the index is below the list size.

  /** The aux record holds at least one constant and at least `n` bodies. */
  predicate HasArgs(aux: Aux, n: nat)
  {
    aux.constants.Some? && |aux.constants.value| >= 1 && |aux.bodies| >= n
  }

  /** The first constant, read through its pointer when the creator runs. */
  function FirstConstant(aux: Aux): Cell
    requires HasArgs(aux, 0)
  {
    aux.constants.value[0]
  }

  method GravityCreator(m: MathLib, aux: Aux)
    requires Lawful(m) && HasArgs(aux, 2)
    requires aux.bodies[0].Valid() && aux.bodies[1].Valid()
    modifies aux.bodies[0], aux.bodies[1]
    ensures GravityApplied(m, FirstConstant(aux).value, aux.bodies[0], aux.bodies[1])
  {
    var g := FirstConstant(aux).value;
    var body1, body2 := aux.bodies[0], aux.bodies[1];
    var v1, v2 := body1.centroid, body2.centroid;
    var dist := Dist(m, v2, v1);
    if dist >= MinDist {
      ApartMeansDistinct(m, v1, v2);
      // With an INFINITY mass the force is INF or NaN, which has no value here.
      if body1.mass.Finite? && body2.mass.Finite? {
        var gVec := GravityVector(m, g, body1.mass.value, body2.mass.value, v1, v2);
        body1.AddForce(gVec);
        body2.AddForce(Negate(gVec));
      }
    }
  }

  /** The force computation of gravity_force_creator, step by step. */
  method GravityVector(m: MathLib, g: real, mass1: real, mass2: real, v1: Vector, v2: Vector) returns (gVec: Vector)
    requires Dist(m, v2, v1) >= MinDist
    ensures gVec == GravityForce(m, g, mass1, mass2, v1, v2)
  {
    var r := Subtract(v2, v1);
    var rHat := Scale(1.0 / Norm(m, r), r);
    var numerator := g * mass1 * mass2;
    var denominator := Norm(m, r) * Norm(m, r);
    var gScal := numerator / denominator;
    gVec := Scale(gScal, rHat);
  }

  /** Centroids at least MIN_DIST apart are different points. */
  lemma ApartMeansDistinct(m: MathLib, c1: Vector, c2: Vector)
    requires Lawful(m) && Dist(m, c2, c1) >= MinDist
    ensures c1 != c2
  {
    NormZeroIff(m, Subtract(c2, c1));
  }

  method SpringCreator(aux: Aux)
    requires HasArgs(aux, 2) && aux.bodies[0].Valid()
    modifies aux.bodies[0]
    ensures SpringApplied(FirstConstant(aux).value, aux.bodies[0], aux.bodies[1])
  {
    var k := FirstConstant(aux).value;
    var body1, body2 := aux.bodies[0], aux.bodies[1];
    var distance := Subtract(body1.centroid, body2.centroid);
    body1.AddForce(Scale(-k, distance));
  }

  method DragCreator(aux: Aux)
    requires HasArgs(aux, 1) && aux.bodies[0].Valid()
    modifies aux.bodies[0]
    ensures Pushed(aux.bodies[0], DragForce(FirstConstant(aux).value, old(aux.bodies[0].vel)))
  {
    var gamma := FirstConstant(aux).value;
    var body := aux.bodies[0];
    body.AddForce(Scale(-gamma, body.vel));
  }

  /**
   * applied_force_creator: the magnitude is read through the caller's own
   * pointer each time, so a write to that cell changes the next push.
   */
  method AppliedCreator(m: MathLib, aux: Aux)
    requires HasArgs(aux, 1) && aux.bodies[0].Valid() && Norm(m, aux.bodies[0].vel) != 0.0
    modifies aux.bodies[0]
    ensures Pushed(aux.bodies[0], AppliedForce(m, FirstConstant(aux).value, old(aux.bodies[0].vel)))
  {
    var magnitude := FirstConstant(aux).value;
    var body := aux.bodies[0];
    body.AddForce(Scale(magnitude, Normalize(m, body.vel)));
  }

  /** destructive_collision_creator: both bodies are flagged for removal when their shapes collide. */
  method DestructiveCreator(m: MathLib, aux: Aux)
    requires Lawful(m) && |aux.bodies| >= 2
    requires EdgesNonZero(aux.bodies[0].shape[..]) && EdgesNonZero(aux.bodies[1].shape[..])
    modifies aux.bodies[0], aux.bodies[1]
    ensures DestroyedIfCollided(m, aux.bodies[0], aux.bodies[1])
  {
    var body1, body2 := aux.bodies[0], aux.bodies[1];
    var shape1, shape2 := body1.shape[..], body2.shape[..];
    var collided := Collides(m, shape1, shape2);
    if collided {
      body1.Remove();
      body2.Remove();
    }
  }

  // ---------------------------------------------------------------------
  // The physics collision handler

  /** The info list of create_physics_collision: the impulsed_last_tick flag and the elasticity. */
  class PhysicsInfo {
    var impulsedLastTick: bool
    const elasticity: real

    /** create_physics_collision starts with the flag down. */
    constructor Init(elasticity: real)
      ensures !impulsedLastTick && this.elasticity == elasticity
    {
      impulsedLastTick := false;
      this.elasticity := elasticity;
    }
  }

  /** Whether normal_collision_handler applies the impulse: on a collision, unless it did last time. */
  function Fires(impulsedLastTick: bool, collided: bool): (fires: bool)
  {
    collided && !impulsedLastTick
  }

  /**
   * normal_collision_handler: the flag becomes whether the impulse fired, and
   * the bodies receive the elastic impulse exactly when it fired.
   */
  twostate predicate DebounceApplied(m: MathLib, body1: Body, body2: Body, info: PhysicsInfo)
    requires Lawful(m) && body1.Valid() && body2.Valid()
    requires old(EdgesNonZero(body1.shape[..]) && EdgesNonZero(body2.shape[..]))
    reads body1, body2, body1.shape, body2.shape, info
  {
    var collided := old(FindCollisionSpec(m, body1.shape[..], body2.shape[..]).Collided());
    && info.impulsedLastTick == Fires(old(info.impulsedLastTick), collided)
    && if info.impulsedLastTick then ElasticImpulseApplied(m, body1, body2, info.elasticity)
       else Untouched(body1) && Untouched(body2)
  }

  /** The axis argument is not used: the handler runs the collision test again. */
  method NormalCollisionHandler(m: MathLib, body1: Body, body2: Body, axis: Vector, info: PhysicsInfo)
    requires Lawful(m) && body1.Valid() && body2.Valid()
    requires EdgesNonZero(body1.shape[..]) && EdgesNonZero(body2.shape[..])
    modifies body1, body2, info
    ensures DebounceApplied(m, body1, body2, info)
    ensures ImpulsesOnly(body1) && ImpulsesOnly(body2)
  {
    var shape1, shape2 := body1.shape[..], body2.shape[..];
    // find_collision's verdict, as Collision.FindCollision computes it
    var collided := FindCollisionSpec(m, shape1, shape2).Collided();
    if collided && !info.impulsedLastTick {
      RaiseAndImpulse(m, body1, body2, info);
    } else {
      LowerFlag(m, body1, body2, info);
    }
  }

  /** The firing branch of normal_collision_handler: the flag goes up, then the impulse is applied. */
  method RaiseAndImpulse(m: MathLib, body1: Body, body2: Body, info: PhysicsInfo)
    requires Lawful(m) && body1.Valid() && body2.Valid()
    requires EdgesNonZero(body1.shape[..]) && EdgesNonZero(body2.shape[..])
    requires FindCollisionSpec(m, body1.shape[..], body2.shape[..]).Collided() && !info.impulsedLastTick
    modifies body1, body2, info
    ensures info.impulsedLastTick && DebounceApplied(m, body1, body2, info)
    ensures ImpulsesOnly(body1) && ImpulsesOnly(body2)
  {
    info.impulsedLastTick := true;
    AddElasticImpulse(m, body1, body2, info.elasticity);
  }

  /** The other branch: the flag goes down and the bodies are left alone. */
  method LowerFlag(m: MathLib, body1: Body, body2: Body, info: PhysicsInfo)
    requires Lawful(m) && body1.Valid() && body2.Valid()
    requires EdgesNonZero(body1.shape[..]) && EdgesNonZero(body2.shape[..])
    requires !Fires(info.impulsedLastTick, FindCollisionSpec(m, body1.shape[..], body2.shape[..]).Collided())
    modifies info
    ensures !info.impulsedLastTick && DebounceApplied(m, body1, body2, info)
    ensures ImpulsesOnly(body1) && ImpulsesOnly(body2)
  {
    info.impulsedLastTick := false;
  }

  // ---------------------------------------------------------------------
  // Properties of the laws

  /** Gravity pulls along c2 - c1, with a non-negative factor when G m1 m2 >= 0. */
  lemma GravityAlongSeparation(m: MathLib, g: real, mass1: real, mass2: real, c1: Vector, c2: Vector)
    requires Dist(m, c2, c1) >= MinDist
    ensures var n := Norm(m, Subtract(c2, c1));
            GravityForce(m, g, mass1, mass2, c1, c2) == Scale(g * mass1 * mass2 / (n * n * n), Subtract(c2, c1))
    ensures var n := Norm(m, Subtract(c2, c1));
            g * mass1 * mass2 >= 0.0 ==> g * mass1 * mass2 / (n * n * n) >= 0.0
  {
    GravityScaledTwice(m, g, mass1, mass2, c1, c2);
    GravityCubed(m, g, mass1, mass2, c1, c2);
  }

  lemma GravityScaledTwice(m: MathLib, g: real, mass1: real, mass2: real, c1: Vector, c2: Vector)
    requires Dist(m, c2, c1) >= MinDist
    ensures var n := Norm(m, Subtract(c2, c1));
            n > 0.0 && GravityForce(m, g, mass1, mass2, c1, c2) == Scale(g * mass1 * mass2 / (n * n), Scale(1.0 / n, Subtract(c2, c1)))
  {
  }

  /** Over the reals: G m1 m2 / n^2 times 1 / n is G m1 m2 / n^3, which keeps the sign of G m1 m2. */
  lemma GravityCubed(m: MathLib, g: real, mass1: real, mass2: real, c1: Vector, c2: Vector)
    requires Dist(m, c2, c1) >= MinDist
    ensures var n := Norm(m, Subtract(c2, c1));
            Scale(g * mass1 * mass2 / (n * n), Scale(1.0 / n, Subtract(c2, c1))) == Scale(g * mass1 * mass2 / (n * n * n), Subtract(c2, c1))
    ensures var n := Norm(m, Subtract(c2, c1));
            g * mass1 * mass2 >= 0.0 ==> g * mass1 * mass2 / (n * n * n) >= 0.0
  {
    assert Norm(m, Subtract(c2, c1)) * Norm(m, Subtract(c2, c1)) > 0.0;
    assert Norm(m, Subtract(c2, c1)) * Norm(m, Subtract(c2, c1)) * Norm(m, Subtract(c2, c1)) > 0.0;
    ScaleTwice(g * mass1 * mass2 / (Norm(m, Subtract(c2, c1)) * Norm(m, Subtract(c2, c1))), 1.0 / Norm(m, Subtract(c2, c1)), Subtract(c2, c1));
  }

  /**
   * Newton's third law for the pair: the mass-weighted changes of the two
   * accelerations cancel, so the total momentum is unchanged by gravity.
   */
  lemma GravityConservesMomentum(mass1: Mass, mass2: Mass, a1: Vector, a2: Vector, f: Vector)
    requires UsableMass(mass1) && UsableMass(mass2) && mass1.Finite? && mass2.Finite?
    ensures Add(Scale(mass1.value, Subtract(Accelerated(a1, mass1, f), a1)),
                Scale(mass2.value, Subtract(Accelerated(a2, mass2, Negate(f)), a2))) == Zero
  {
    AcceleratedNewton(a1, mass1, f);
    AcceleratedNewton(a2, mass2, Negate(f));
  }

  /** The spring force restores: it never points along the displacement when k >= 0. */
  lemma SpringRestores(k: real, c1: Vector, c2: Vector)
    requires k >= 0.0
    ensures Dot(SpringForce(k, c1, c2), Subtract(c1, c2)) <= 0.0
    ensures c1 == c2 ==> SpringForce(k, c1, c2) == Zero
  {
    ScaledDot(-k, Subtract(c1, c2));
  }

  /** Drag never points along the motion when gamma >= 0, and vanishes at rest. */
  lemma DragOpposesMotion(gamma: real, vel: Vector)
    requires gamma >= 0.0
    ensures Dot(DragForce(gamma, vel), vel) <= 0.0
    ensures vel == Zero ==> DragForce(gamma, vel) == Zero
  {
    ScaledDot(-gamma, vel);
  }

  lemma ScaledDot(k: real, d: Vector)
    requires k <= 0.0
    ensures Dot(Scale(k, d), d) <= 0.0
  {
    ScaledSquaresNotPositive(k, d.x, d.y);
    assert Positive(Dot(Scale(k, d), d)) == Positive((k * d.x) * d.x + (k * d.y) * d.y);
  }

  lemma ScaledSquaresNotPositive(k: real, x: real, y: real)
    requires k <= 0.0
    ensures !Positive((k * x) * x + (k * y) * y)
  {
    assert (k * x) * x == k * (x * x);
    assert (k * y) * y == k * (y * y);
    assert x * x >= 0.0 && y * y >= 0.0;
  }

  /** The applied force has the given magnitude along the direction of motion. */
  lemma AppliedForceAlongMotion(m: MathLib, magnitude: real, vel: Vector)
    requires Lawful(m) && vel != Zero
    ensures Norm(m, vel) > 0.0
    ensures AppliedForce(m, magnitude, vel) == Scale(magnitude / Norm(m, vel), vel)
  {
    NormalizeIsUnit(m, vel);
    ScaleTwice(magnitude, 1.0 / Norm(m, vel), vel);
  }

  // ---------------------------------------------------------------------
  // The debounce over a run of ticks

  /** The number of contact ticks in a run. */
  function Contacts(ticks: seq<bool>): nat
  {
    if ticks == [] then 0 else (if ticks[0] then 1 else 0) + Contacts(ticks[1..])
  }

  /**
   * Whether the impulse fires on each tick of a run, where ticks[i] says
   * whether the shapes overlap on tick i. The package runs the handler only
   * on contact ticks, so the flag is left alone while the shapes are apart.
   */
  function Impulses(impulsedLastTick: bool, ticks: seq<bool>): (r: seq<bool>)
    ensures |r| == |ticks|
    decreases |ticks|
  {
    if ticks == [] then []
    else
      var fires := Fires(impulsedLastTick, ticks[0]);
      [fires] + Impulses(if ticks[0] then fires else impulsedLastTick, ticks[1..])
  }

  /**
   * The contact ticks alternate between firing and not, whatever the gaps
   * between them: from a lowered flag the impulse fires on the first, third,
   * fifth ... contact tick, and never on a tick without contact.
   */
  lemma {:induction false} ImpulsesAlternate(impulsedLastTick: bool, ticks: seq<bool>, i: nat)
    requires i < |ticks|
    decreases i
    ensures Impulses(impulsedLastTick, ticks)[i] <==> ticks[i] && (Contacts(ticks[..i]) % 2 == 0) != impulsedLastTick
  {
    if i > 0 {
      var flag := if ticks[0] then Fires(impulsedLastTick, ticks[0]) else impulsedLastTick;
      ImpulsesAlternate(flag, ticks[1..], i - 1);
      assert ticks[..i] == [ticks[0]] + ticks[1..][..i - 1];
      assert ticks[..i][1..] == ticks[1..][..i - 1];
    }
  }
}
