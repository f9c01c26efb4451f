/**
 * Rigid bodies (library/body.c).
 *
 * A body is an object whose fields the engine updates in place. Its shape is
 * the vertex buffer it owns (an array, translated and rotated in place); the
 * remaining fields are plain values. Mass is either a finite real or
 * INFINITY, for which the inverse mass 1.0 / mass is zero.
 *
 * The integrators and the force rules are specified by pure functions over a
 * snapshot of the body (`BodyState`), and the physical laws are proved about
 * those functions.
 */
module Bodies {
  import opened Vectors
  import opened Colors
  import opened Polygons
  import opened Collision
  import Lists
  import opened Releases

  datatype Mass = Finite(value: real) | Infinite

  /** A mass the kernel can divide by: INFINITY, or a finite non-zero value. */
  predicate UsableMass(mass: Mass)
  {
    mass.Infinite? || mass.value != 0.0
  }

  /** 1.0 / mass, which is zero for INFINITY. */
  function InvMass(mass: Mass): (k: real)
    requires UsableMass(mass)
    ensures mass.Infinite? ==> k == 0.0
    ensures mass.Finite? ==> k * mass.value == 1.0
  {
    if mass.Infinite? then 0.0 else 1.0 / mass.value
  }

  /** The three integrators: body_tick, body_tick_canon and body_tick_canon_no_reset. */
  datatype Integrator = Midpoint | Canon | CanonNoReset

  /** Every field of a body that the kernel changes after creation. */
  datatype BodyState = BodyState(
    pos: Vector, vel: Vector, acl: Vector, impulse: Vector,
    centroid: Vector, vertices: seq<Vector>, angle: real,
    color: Color, removed: bool, glowing: bool, glowRadius: real)

  // ---------------------------------------------------------------------
  // Specification functions

  /** The velocity after one step: acceleration over dt plus the accumulated impulse over the mass. */
  function NewVelocity(s: BodyState, invMass: real, dt: real): Vector
  {
    Add(Add(s.vel, Scale(dt, s.acl)), Scale(invMass, s.impulse))
  }

  /**
   * The displacement of one step: dt times the mean of the old and new
   * velocity for body_tick, dt times the new velocity for the canon variants.
   */
  function Displacement(s: BodyState, invMass: real, dt: real, rule: Integrator): Vector
  {
    var v := NewVelocity(s, invMass, dt);
    if rule == Midpoint then Scale(dt, Scale(0.5, Add(s.vel, v))) else Scale(dt, v)
  }

  /**
   * One integration step: position, centroid and every vertex move by the
   * displacement, the impulse is cleared, and the acceleration is cleared
   * except by body_tick_canon_no_reset.
   */
  function Step(s: BodyState, invMass: real, dt: real, rule: Integrator): BodyState
  {
    var d := Displacement(s, invMass, dt, rule);
    s.(pos := Add(s.pos, d), vel := NewVelocity(s, invMass, dt),
       acl := if rule == CanonNoReset then s.acl else Zero, impulse := Zero,
       centroid := Add(s.centroid, d), vertices := Translated(s.vertices, d))
  }

  /** The acceleration after body_add_force: force / mass added on. */
  function Accelerated(acl: Vector, mass: Mass, force: Vector): Vector
    requires UsableMass(mass)
  {
    Add(acl, Scale(InvMass(mass), force))
  }

  /**
   * The reduced mass of body_add_elastic_impulse: the other body's mass when
   * one mass is INFINITY, otherwise m1 m2 / (m1 + m2).
   */
  function ReducedMass(mass1: Mass, mass2: Mass): real
    requires ImpulseMasses(mass1, mass2)
  {
    if mass1.Infinite? then mass2.value
    else if mass2.Infinite? then mass1.value
    else (mass1.value * mass2.value) / (mass1.value + mass2.value)
  }

  /** Masses for which the reduced mass is a real number. */
  predicate ImpulseMasses(mass1: Mass, mass2: Mass)
  {
    && UsableMass(mass1) && UsableMass(mass2)
    && !(mass1.Infinite? && mass2.Infinite?)
    && (mass1.Finite? && mass2.Finite? ==> mass1.value + mass2.value != 0.0)
  }

  /** The collision axis turned, if need be, to point from the first centroid towards the second. */
  function Oriented(axis: Vector, c1: Vector, c2: Vector): Vector
  {
    if Dot(axis, Subtract(c2, c1)) < 0.0 then Negate(axis) else axis
  }

  /** The axis body_add_elastic_impulse pushes along: the collision axis of the shapes, facing from c1 to c2. */
  function ImpulseAxis(m: MathLib, s1: Polygon, s2: Polygon, c1: Vector, c2: Vector): Vector
    requires Lawful(m) && EdgesNonZero(s1) && EdgesNonZero(s2) && FindCollisionSpec(m, s1, s2).Collided()
  {
    Oriented(FindCollisionSpec(m, s1, s2).axis, c1, c2)
  }

  /** reduced mass * (1 + e) * (u_b - u_a), the velocities taken along the axis. */
  function ImpulseScalar(mass1: Mass, mass2: Mass, v1: Vector, v2: Vector, axis: Vector, elasticity: real): real
    requires ImpulseMasses(mass1, mass2)
  {
    ReducedMass(mass1, mass2) * (1.0 + elasticity) * (Dot(v2, axis) - Dot(v1, axis))
  }

  // ---------------------------------------------------------------------
  // The body record

  class Body {
    var color: Color
    /** The vertex list the body owns; it never changes length. */
    const shape: array<Vector>
    var pos: Vector
    var vel: Vector
    var acl: Vector
    const mass: Mass
    var centroid: Vector
    var impulse: Vector
    var angle: real
    var removed: bool
    var glowing: bool
    /** The info pointer, NULL when absent. */
    const info: Lists.Ptr
    /** Whether info_freer is non-NULL. */
    const hasInfoFreer: bool
    var glowRadius: real

    predicate Valid()
    {
      UsableMass(mass)
    }

    ghost function State(): BodyState
      reads this, shape
    {
      BodyState(pos, vel, acl, impulse, centroid, shape[..], angle, color, removed, glowing, glowRadius)
    }

    /**
     * body_init: the body takes the vertex list, starts at rest with nothing
     * accumulated, and its centroid is the centroid of the shape. The model
     * stores the centroid with the signed area in the denominator; for a
     * counter-clockwise outline, as make_rectangle and make_circle build, that
     * is the value polygon_centroid returns as written.
     */
    constructor Init(shape: array<Vector>, mass: Mass, color: Color)
      requires shape.Length >= 1 && SignedArea(shape[..]) != 0.0 && UsableMass(mass)
      ensures Valid() && this.shape == shape && this.mass == mass && info == Lists.NULL && !hasInfoFreer
      ensures State() == BodyState(Zero, Zero, Zero, Zero, Centroid(shape[..]), old(shape[..]), 0.0, color, false, false, 0.0)
      ensures SignedArea(shape[..]) > 0.0 ==> centroid == CentroidAsWritten(shape[..])
    {
      var c := PolygonCentroid(shape);
      CentroidAsWrittenReflects(shape[..]);
      this.color := color;
      this.shape := shape;
      pos := Zero;
      vel := Zero;
      acl := Zero;
      impulse := Zero;
      this.mass := mass;
      centroid := c;
      angle := 0.0;
      removed := false;
      info := Lists.NULL;
      hasInfoFreer := false;
      glowing := false;
      glowRadius := 0.0;
    }

    /** body_init_with_info: body_init, then the info pointer and its free function are stored. */
    constructor InitWithInfo(shape: array<Vector>, mass: Mass, color: Color, info: Lists.Ptr, infoFreer: bool)
      requires shape.Length >= 1 && SignedArea(shape[..]) != 0.0 && UsableMass(mass)
      ensures Valid() && this.shape == shape && this.mass == mass && this.info == info && hasInfoFreer == infoFreer
      ensures State() == BodyState(Zero, Zero, Zero, Zero, Centroid(shape[..]), old(shape[..]), 0.0, color, false, false, 0.0)
      ensures SignedArea(shape[..]) > 0.0 ==> centroid == CentroidAsWritten(shape[..])
    {
      var c := PolygonCentroid(shape);
      CentroidAsWrittenReflects(shape[..]);
      this.color := color;
      this.shape := shape;
      pos := Zero;
      vel := Zero;
      acl := Zero;
      impulse := Zero;
      this.mass := mass;
      centroid := c;
      angle := 0.0;
      removed := false;
      this.info := info;
      hasInfoFreer := infoFreer;
      glowing := false;
      glowRadius := 0.0;
    }

    /**
     * body_free: list_free on the vertex list, then the info free function on
     * the info pointer when there is one, then the record. Each is released
     * exactly once, the vertex list first and the record last.
     */
    method Free() returns (released: seq<Release>)
      ensures |released| >= 2 && released[0] == ListReleased(ShapeList)
      ensures released[|released| - 1] == RecordReleased(BodyRecord)
      ensures Occurrences(released, ListReleased(ShapeList)) == 1
      ensures Occurrences(released, RecordReleased(BodyRecord)) == 1
      ensures Occurrences(released, InfoFreerCalled(info)) == if hasInfoFreer then 1 else 0
    {
      var shapeFreed := [ListReleased(ShapeList)];
      var infoFreed := if hasInfoFreer then [InfoFreerCalled(info)] else [];
      var recordFreed := [RecordReleased(BodyRecord)];
      released := shapeFreed + infoFreed + recordFreed;
      OccurrencesAppend3(shapeFreed, infoFreed, recordFreed, ListReleased(ShapeList));
      OccurrencesAppend3(shapeFreed, infoFreed, recordFreed, RecordReleased(BodyRecord));
      OccurrencesAppend3(shapeFreed, infoFreed, recordFreed, InfoFreerCalled(info));
    }

    /** body_get_shape: a fresh copy of the vertex list. */
    method GetShape() returns (copy: array<Vector>)
      ensures fresh(copy) && copy[..] == shape[..]
    {
      copy := new Vector[shape.Length];
      for i := 0 to shape.Length
        invariant copy[..i] == shape[..i]
      {
        copy[i] := shape[i];
      }
    }

    method SetPosition(p: Vector)
      modifies this
      ensures State() == old(State()).(pos := p)
    {
      pos := p;
    }

    method SetVelocity(v: Vector)
      modifies this
      ensures State() == old(State()).(vel := v)
    {
      vel := v;
    }

    method SetAcceleration(a: Vector)
      modifies this
      ensures State() == old(State()).(acl := a)
    {
      acl := a;
    }

    method SetColor(c: Color)
      modifies this
      ensures State() == old(State()).(color := c)
    {
      color := c;
    }

    method SetGlow(glow: bool)
      modifies this
      ensures State() == old(State()).(glowing := glow)
    {
      glowing := glow;
    }

    method SetGlowRadius(radius: real)
      modifies this
      ensures State() == old(State()).(glowRadius := radius)
    {
      glowRadius := radius;
    }

    /** body_set_centroid: the shape is translated so that its centroid lands on x. */
    method SetCentroid(x: Vector)
      modifies this, shape
      ensures State() == old(State()).(vertices := Translated(old(shape[..]), Subtract(x, old(centroid))), centroid := x)
    {
      var dx := Subtract(x, centroid);
      Translate(shape, dx);
      centroid := x;
    }

    /** body_set_rotation: the shape is turned about the centroid by the difference to the new angle. */
    method SetRotation(m: MathLib, a: real)
      modifies this, shape
      ensures State() == old(State()).(vertices := Rotated(m, old(shape[..]), a - old(angle), old(centroid)), angle := a)
    {
      RotateInPlace(m, shape, a - angle, centroid);
      angle := a;
    }

    /** body_add_force: the acceleration grows by force / mass. */
    method AddForce(force: Vector)
      requires Valid()
      modifies this
      ensures State() == old(State()).(acl := Accelerated(old(acl), mass, force))
    {
      var da := Scale(InvMass(mass), force);
      acl := Add(acl, da);
    }

    /** body_add_impulse: only the accumulated impulse changes. */
    method AddImpulse(j: Vector)
      modifies this
      ensures State() == old(State()).(impulse := Add(old(impulse), j))
    {
      impulse := Add(impulse, j);
    }

    /** body_tick */
    method Tick(dt: real)
      requires Valid()
      modifies this, shape
      ensures State() == Step(old(State()), InvMass(mass), dt, Midpoint)
    {
      var oldVel := vel;
      var newVel := Add(oldVel, Scale(dt, acl));
      var impulseToAdd := Scale(InvMass(mass), impulse);
      newVel := Add(newVel, impulseToAdd);
      vel := newVel;
      var avgVel := Scale(0.5, Add(oldVel, newVel));
      var posChange := Scale(dt, avgVel);
      pos := Add(pos, posChange);
      centroid := Add(centroid, posChange);
      Translate(shape, posChange);
      acl := Zero;
      impulse := Zero;
    }

    /** body_tick_canon */
    method TickCanon(dt: real)
      requires Valid()
      modifies this, shape
      ensures State() == Step(old(State()), InvMass(mass), dt, Canon)
    {
      var oldVel := vel;
      var newVel := Add(oldVel, Scale(dt, acl));
      var impulseToAdd := Scale(InvMass(mass), impulse);
      newVel := Add(newVel, impulseToAdd);
      vel := newVel;
      var posChange := Scale(dt, newVel);
      pos := Add(pos, posChange);
      centroid := Add(centroid, posChange);
      Translate(shape, posChange);
      acl := Zero;
      impulse := Zero;
    }

    /** body_tick_canon_no_reset */
    method TickCanonNoReset(dt: real)
      requires Valid()
      modifies this, shape
      ensures State() == Step(old(State()), InvMass(mass), dt, CanonNoReset)
    {
      var oldVel := vel;
      var newVel := Add(oldVel, Scale(dt, acl));
      var impulseToAdd := Scale(InvMass(mass), impulse);
      newVel := Add(newVel, impulseToAdd);
      vel := newVel;
      var posChange := Scale(dt, newVel);
      pos := Add(pos, posChange);
      centroid := Add(centroid, posChange);
      Translate(shape, posChange);
      impulse := Zero;
    }

    /** body_remove: the flag is set and nothing else changes. */
    method Remove()
      modifies this
      ensures State() == old(State()).(removed := true)
    {
      removed := true;
    }
  }

  /**
   * The outcome of body_add_elastic_impulse: with the collision axis of the
   * shapes turned towards the second body and s = reduced mass * (1 + e) *
   * (u_b - u_a), the first body's impulse grows by s * axis and the second's
   * by -s * axis; nothing else changes. Applied to one body twice, the two
   * impulses cancel. When both masses are INFINITY, or two finite masses sum
   * to zero, the reduced mass is INFINITY or a division by zero and the C
   * adds INF or NaN to the impulses: then only the impulses change.
   */
  twostate predicate ElasticImpulseApplied(m: MathLib, body1: Body, body2: Body, elasticity: real)
    requires Lawful(m) && body1.Valid() && body2.Valid()
    requires old(EdgesNonZero(body1.shape[..]) && EdgesNonZero(body2.shape[..]))
    requires old(FindCollisionSpec(m, body1.shape[..], body2.shape[..]).Collided())
    reads body1, body2, body1.shape, body2.shape
  {
    if ImpulseMasses(body1.mass, body2.mass) then
      var axis := old(ImpulseAxis(m, body1.shape[..], body2.shape[..], body1.centroid, body2.centroid));
      ImpulsePairApplied(body1, body2, ImpulseScalar(body1.mass, body2.mass, old(body1.vel), old(body2.vel), axis, elasticity), axis)
    else
      ImpulsesOnly(body1) && ImpulsesOnly(body2)
  }

  /** Every field but the impulse is as it was. */
  twostate predicate ImpulsesOnly(body: Body)
    reads body, body.shape
  {
    body.State() == old(body.State()).(impulse := body.impulse)
  }

  /** +s * axis added to the first body's impulse and -s * axis to the second's, nothing else changed. */
  twostate predicate ImpulsePairApplied(body1: Body, body2: Body, s: real, axis: Vector)
    reads body1, body2, body1.shape, body2.shape
  {
    if body1 != body2 then
      && body1.State() == old(body1.State()).(impulse := Add(old(body1.impulse), Scale(s, axis)))
      && body2.State() == old(body2.State()).(impulse := Add(old(body2.impulse), Scale(-s, axis)))
    else
      body1.State() == old(body1.State())
  }

  /**
   * body_add_elastic_impulse: the collision axis of the two shapes, turned
   * towards the second body, receives +s on the first body and -s on the
   * second, s = reduced mass * (1 + e) * (u_b - u_a). The impulses INF or
   * NaN the C stores when the reduced mass is not a real number have no
   * value in the model, which leaves the impulses as they were then.
   */
  method AddElasticImpulse(m: MathLib, body1: Body, body2: Body, elasticity: real)
    requires Lawful(m) && body1.Valid() && body2.Valid()
    requires EdgesNonZero(body1.shape[..]) && EdgesNonZero(body2.shape[..])
    requires FindCollisionSpec(m, body1.shape[..], body2.shape[..]).Collided()
    modifies body1, body2
    ensures ElasticImpulseApplied(m, body1, body2, elasticity)
    ensures ImpulsesOnly(body1) && ImpulsesOnly(body2)
  {
    if ImpulseMasses(body1.mass, body2.mass) {
      var shape1, shape2 := body1.shape[..], body2.shape[..];
      var c1, c2, v1, v2 := body1.centroid, body2.centroid, body1.vel, body2.vel;
      var collisionAxis := OrientedCollisionAxis(m, shape1, shape2, c1, c2);
      var impulseScalar := ElasticScalar(body1.mass, body2.mass, v1, v2, collisionAxis, elasticity);
      ApplyImpulsePair(body1, body2, impulseScalar, collisionAxis);
    }
  }

  /** The collision axis of the two shapes, negated when it points away from the second centroid. */
  method OrientedCollisionAxis(m: MathLib, shape1: Polygon, shape2: Polygon, c1: Vector, c2: Vector) returns (collisionAxis: Vector)
    requires Lawful(m) && EdgesNonZero(shape1) && EdgesNonZero(shape2)
    requires FindCollisionSpec(m, shape1, shape2).Collided()
    ensures collisionAxis == ImpulseAxis(m, shape1, shape2, c1, c2)
  {
    var info := FindCollision(m, shape1, shape2);
    collisionAxis := info.axis;
    var centroidDiff := Subtract(c2, c1);
    if Dot(collisionAxis, centroidDiff) < 0.0 {
      collisionAxis := Negate(collisionAxis);
    }
  }

  /** The last step of body_add_elastic_impulse: +s along the axis on the first body, -s on the second. */
  method ApplyImpulsePair(body1: Body, body2: Body, s: real, axis: Vector)
    modifies body1, body2
    ensures ImpulsePairApplied(body1, body2, s, axis)
  {
    body1.impulse := Add(body1.impulse, Scale(s, axis));
    body2.impulse := Add(body2.impulse, Scale(-s, axis));
    if body1 == body2 {
      ImpulsesCancel(s, axis);
    }
  }

  /** The scalar impulse of body_add_elastic_impulse along a given axis. */
  method ElasticScalar(mass1: Mass, mass2: Mass, v1: Vector, v2: Vector, collisionAxis: Vector, elasticity: real) returns (impulseScalar: real)
    requires ImpulseMasses(mass1, mass2)
    ensures impulseScalar == ImpulseScalar(mass1, mass2, v1, v2, collisionAxis, elasticity)
  {
    var reducedMass;
    if mass1.Infinite? {
      reducedMass := mass2.value;
    } else if mass2.Infinite? {
      reducedMass := mass1.value;
    } else {
      reducedMass := (mass1.value * mass2.value) / (mass1.value + mass2.value);
    }
    assert reducedMass == ReducedMass(mass1, mass2);
    var uA := Dot(v1, collisionAxis);
    var uB := Dot(v2, collisionAxis);
    var cR := elasticity;
    impulseScalar := reducedMass * (1.0 + cR) * (uB - uA);
    ScalarOfParts(mass1, mass2, v1, v2, collisionAxis, cR, reducedMass, uA, uB);
  }

  // ---------------------------------------------------------------------
  // Properties of the force rules

  /** Forces on a body of INFINITY mass leave its acceleration unchanged. */
  lemma InfiniteMassUnmoved(acl: Vector, force: Vector)
    ensures Accelerated(acl, Infinite, force) == acl
  {
  }

  /** Newton's second law: the added acceleration times the mass is the force. */
  lemma AcceleratedNewton(acl: Vector, mass: Mass, force: Vector)
    requires UsableMass(mass) && mass.Finite?
    ensures Scale(mass.value, Subtract(Accelerated(acl, mass, force), acl)) == force
  {
    var k := InvMass(mass);
    assert mass.value * (k * force.x) == (k * mass.value) * force.x;
    assert mass.value * (k * force.y) == (k * mass.value) * force.y;
  }

  /** Adding two forces one after the other is adding their sum. */
  lemma AcceleratedAdditive(acl: Vector, mass: Mass, f1: Vector, f2: Vector)
    requires UsableMass(mass)
    ensures Accelerated(Accelerated(acl, mass, f1), mass, f2) == Accelerated(acl, mass, Add(f1, f2))
  {
    ScaledSumsAssociate(acl, InvMass(mass), f1, f2);
  }

  lemma ScaledSumsAssociate(acl: Vector, k: real, f1: Vector, f2: Vector)
    ensures Add(Add(acl, Scale(k, f1)), Scale(k, f2)) == Add(acl, Scale(k, Add(f1, f2)))
  {
    Distribute(k, f1.x, f2.x);
    Distribute(k, f1.y, f2.y);
  }

  /** The oriented axis is the collision axis or its negation, and it faces the second centroid. */
  lemma OrientedFacesSecond(axis: Vector, c1: Vector, c2: Vector)
    ensures Oriented(axis, c1, c2) == axis || Oriented(axis, c1, c2) == Negate(axis)
    ensures Dot(Oriented(axis, c1, c2), Subtract(c2, c1)) >= 0.0
    ensures Dot(Oriented(axis, c1, c2), Oriented(axis, c1, c2)) == Dot(axis, axis)
  {
    var d := Subtract(c2, c1);
    if Dot(axis, d) < 0.0 {
      NegatedProducts(axis.x, axis.y, d.x, d.y);
      NegatedProducts(axis.x, axis.y, axis.x, axis.y);
      assert Oriented(axis, c1, c2) == Negate(axis);
    } else {
      assert Oriented(axis, c1, c2) == axis;
    }
  }

  lemma NegatedProducts(a: real, b: real, c: real, d: real)
    ensures (-a) * c + (-b) * d == -(a * c + b * d)
    ensures (-a) * (-c) + (-b) * (-d) == a * c + b * d
  {
  }

  lemma ScalarOfParts(mass1: Mass, mass2: Mass, v1: Vector, v2: Vector, axis: Vector, elasticity: real,
                      reduced: real, uA: real, uB: real)
    requires ImpulseMasses(mass1, mass2) && reduced == ReducedMass(mass1, mass2)
    requires uA == Dot(v1, axis) && uB == Dot(v2, axis)
    ensures reduced * (1.0 + elasticity) * (uB - uA) == ImpulseScalar(mass1, mass2, v1, v2, axis, elasticity)
  {
  }

  /** The two impulses body_add_elastic_impulse adds sum to zero. */
  lemma ImpulsesCancel(s: real, axis: Vector)
    ensures Add(Scale(s, axis), Scale(-s, axis)) == Zero
    ensures forall j :: Add(Add(j, Scale(s, axis)), Scale(-s, axis)) == j
  {
  }

  /** The reduced mass times the sum of the inverse masses is one. */
  lemma ReducedMassInverse(mass1: Mass, mass2: Mass)
    requires ImpulseMasses(mass1, mass2)
    ensures ReducedMass(mass1, mass2) * (InvMass(mass1) + InvMass(mass2)) == 1.0
  {
    if mass1.Finite? && mass2.Finite? {
      ReducedFinite(mass1.value, mass2.value, InvMass(mass1), InvMass(mass2));
    }
  }

  lemma ReducedFinite(a: real, b: real, ia: real, ib: real)
    requires a != 0.0 && b != 0.0 && a + b != 0.0 && ia * a == 1.0 && ib * b == 1.0
    ensures ((a * b) / (a + b)) * (ia + ib) == 1.0
  {
    var q := (a * b) / (a + b);
    assert q * (a + b) == a * b;
    assert (ia + ib) * (a * b) == (ia * a) * b + (ib * b) * a;
    assert (ia + ib) * (a * b) == a + b;
    calc {
      q * (ia + ib) * (a + b);
      (q * (a + b)) * (ia + ib);
      (a * b) * (ia + ib);
      a + b;
    }
  }

  /** The velocity along the axis after adding k times the axis, which has unit length. */
  lemma AlongUnitAxis(v: Vector, k: real, axis: Vector)
    requires Dot(axis, axis) == 1.0
    ensures Dot(Add(v, Scale(k, axis)), axis) == Dot(v, axis) + k
  {
    assert Dot(Add(v, Scale(k, axis)), axis) == Dot(v, axis) + k * Dot(axis, axis);
  }

  /**
   * Newton's law of restitution: once the impulses are turned into velocity,
   * the relative velocity of the bodies along a unit axis is -e times what
   * it was.
   */
  lemma Restitution(mass1: Mass, mass2: Mass, v1: Vector, v2: Vector, axis: Vector, elasticity: real)
    requires ImpulseMasses(mass1, mass2) && Dot(axis, axis) == 1.0
    ensures var s := ImpulseScalar(mass1, mass2, v1, v2, axis, elasticity);
            var w1 := Add(v1, Scale(InvMass(mass1), Scale(s, axis)));
            var w2 := Add(v2, Scale(InvMass(mass2), Scale(-s, axis)));
            Dot(w2, axis) - Dot(w1, axis) == -elasticity * (Dot(v2, axis) - Dot(v1, axis))
  {
    var s := ImpulseScalar(mass1, mass2, v1, v2, axis, elasticity);
    VelocityAlongAxis(mass1, s, v1, axis);
    VelocityAlongAxis(mass2, -s, v2, axis);
    RelativeSpeedAfterImpulse(mass1, mass2, v1, v2, axis, elasticity);
  }

  /** Adding k / mass times a unit axis adds k / mass to the speed along it. */
  lemma VelocityAlongAxis(mass: Mass, k: real, v: Vector, axis: Vector)
    requires UsableMass(mass) && Dot(axis, axis) == 1.0
    ensures Dot(Add(v, Scale(InvMass(mass), Scale(k, axis))), axis) == Dot(v, axis) + InvMass(mass) * k
  {
    ScaleTwice(InvMass(mass), k, axis);
    AlongUnitAxis(v, InvMass(mass) * k, axis);
  }

  /** The restitution law along the axis, for the speeds u_a and u_b. */
  lemma RelativeSpeedAfterImpulse(mass1: Mass, mass2: Mass, v1: Vector, v2: Vector, axis: Vector, elasticity: real)
    requires ImpulseMasses(mass1, mass2)
    ensures var s := ImpulseScalar(mass1, mass2, v1, v2, axis, elasticity);
            (Dot(v2, axis) + InvMass(mass2) * -s) - (Dot(v1, axis) + InvMass(mass1) * s)
              == -elasticity * (Dot(v2, axis) - Dot(v1, axis))
  {
    var s := ImpulseScalar(mass1, mass2, v1, v2, axis, elasticity);
    var mu := ReducedMass(mass1, mass2);
    ReducedMassInverse(mass1, mass2);
    ScalarOfParts(mass1, mass2, v1, v2, axis, elasticity, mu, Dot(v1, axis), Dot(v2, axis));
    RestitutionArithmetic(mu, InvMass(mass1), InvMass(mass2), elasticity, Dot(v1, axis), Dot(v2, axis), s);
  }

  lemma ScaleTwice(a: real, b: real, v: Vector)
    ensures Scale(a, Scale(b, v)) == Scale(a * b, v)
  {
    assert a * (b * v.x) == (a * b) * v.x;
    assert a * (b * v.y) == (a * b) * v.y;
  }

  lemma RestitutionArithmetic(mu: real, i1: real, i2: real, e: real, a: real, b: real, s: real)
    requires mu * (i1 + i2) == 1.0 && s == mu * (1.0 + e) * (b - a)
    ensures (b + i2 * -s) - (a + i1 * s) == -e * (b - a)
  {
    calc {
      (b + i2 * -s) - (a + i1 * s);
      (b - a) - (mu * (i1 + i2)) * (1.0 + e) * (b - a);
      -e * (b - a);
    }
  }

  /**
   * With two finite masses the impulses conserve momentum: the mass-weighted
   * velocity changes cancel.
   */
  lemma MomentumConserved(mass1: Mass, mass2: Mass, s: real, axis: Vector)
    requires UsableMass(mass1) && UsableMass(mass2) && mass1.Finite? && mass2.Finite?
    ensures Add(Scale(mass1.value, Scale(InvMass(mass1), Scale(s, axis))),
                Scale(mass2.value, Scale(InvMass(mass2), Scale(-s, axis)))) == Zero
  {
    var a, b := mass1.value, mass2.value;
    var ia, ib := InvMass(mass1), InvMass(mass2);
    MassTimesInverse(a, ia, s * axis.x);
    MassTimesInverse(a, ia, s * axis.y);
    MassTimesInverse(b, ib, -s * axis.x);
    MassTimesInverse(b, ib, -s * axis.y);
  }

  lemma MassTimesInverse(a: real, ia: real, x: real)
    requires ia * a == 1.0
    ensures a * (ia * x) == x
  {
    assert a * (ia * x) == (ia * a) * x;
  }

  /** The collision axis find_collision reports has unit length. */
  lemma CollisionAxisUnit(m: MathLib, s1: Polygon, s2: Polygon)
    requires Lawful(m) && EdgesNonZero(s1) && EdgesNonZero(s2)
    requires FindCollisionSpec(m, s1, s2).Collided()
    ensures Dot(FindCollisionSpec(m, s1, s2).axis, FindCollisionSpec(m, s1, s2).axis) == 1.0
  {
    var a := FindCollisionSpec(m, s1, s2).axis;
    CollisionAxisIsFirstMinimum(m, s1, s2);
    DotSelfNonNegative(a);
    SqrtIsOne(m, Dot(a, a));
  }

  lemma SqrtIsOne(m: MathLib, d: real)
    requires Lawful(m) && d >= 0.0 && m.sqrt(d) == 1.0
    ensures d == 1.0
  {
    assert m.sqrt(d) * m.sqrt(d) == d;
  }

  // ---------------------------------------------------------------------
  // Properties of the integrators

  /**
   * A step moves the body rigidly: position, centroid and every vertex are
   * shifted by the same vector, so each vertex keeps its offset from the
   * centroid and the area is unchanged.
   */
  lemma StepIsRigid(s: BodyState, invMass: real, dt: real, rule: Integrator)
    ensures var t := Step(s, invMass, dt, rule);
            && |t.vertices| == |s.vertices|
            && Subtract(t.pos, s.pos) == Subtract(t.centroid, s.centroid)
            && (forall i :: 0 <= i < |s.vertices| ==> Subtract(t.vertices[i], t.centroid) == Subtract(s.vertices[i], s.centroid))
            && (|s.vertices| >= 1 ==> Area(t.vertices) == Area(s.vertices))
  {
    var t := Step(s, invMass, dt, rule);
    if |s.vertices| >= 1 {
      TranslatePreservesArea(s.vertices, Displacement(s, invMass, dt, rule));
    }
  }

  /**
   * The accumulators after a step: the impulse is always cleared; the
   * acceleration is cleared by body_tick and body_tick_canon and kept by
   * body_tick_canon_no_reset. Nothing else about the body changes.
   */
  lemma StepResets(s: BodyState, invMass: real, dt: real, rule: Integrator)
    ensures Step(s, invMass, dt, rule).impulse == Zero
    ensures Step(s, invMass, dt, rule).acl == (if rule == CanonNoReset then s.acl else Zero)
    ensures Step(s, invMass, dt, rule).(pos := s.pos, vel := s.vel, acl := s.acl, impulse := s.impulse,
                                         centroid := s.centroid, vertices := s.vertices) == s
  {
  }

  /** body_tick_canon and body_tick_canon_no_reset move the body identically. */
  lemma CanonVariantsAgree(s: BodyState, invMass: real, dt: real)
    ensures Step(s, invMass, dt, CanonNoReset) == Step(s, invMass, dt, Canon).(acl := s.acl)
  {
  }

  /**
   * With nothing accumulated the body coasts: its velocity is kept and all
   * three integrators move it by dt times the velocity.
   */
  lemma CoastingBody(s: BodyState, invMass: real, dt: real, rule: Integrator)
    requires s.acl == Zero && s.impulse == Zero
    ensures Step(s, invMass, dt, rule).vel == s.vel
    ensures Step(s, invMass, dt, rule).pos == Add(s.pos, Scale(dt, s.vel))
  {
  }

  /** An impulse has no effect on a body of INFINITY mass. */
  lemma ImpulseIgnoredByInfiniteMass(s: BodyState, dt: real, rule: Integrator)
    ensures Step(s, InvMass(Infinite), dt, rule) == Step(s.(impulse := Zero), InvMass(Infinite), dt, rule)
  {
  }

  /** The velocity a step produces from the impulse alone is impulse / mass. */
  lemma ImpulseChangesVelocity(s: BodyState, invMass: real, dt: real, rule: Integrator)
    requires s.acl == Zero
    ensures Step(s, invMass, dt, rule).vel == Add(s.vel, Scale(invMass, s.impulse))
  {
  }

  /** Setting the centroid to where it already is changes nothing. */
  lemma SetCentroidToSelf(s: BodyState)
    ensures s.(vertices := Translated(s.vertices, Subtract(s.centroid, s.centroid)), centroid := s.centroid) == s
  {
    SubtractSelf(s.centroid);
    TranslateZero(s.vertices);
  }

  /** After body_set_centroid every vertex keeps its offset from the centroid. */
  lemma SetCentroidKeepsOffsets(vertices: seq<Vector>, c: Vector, x: Vector)
    ensures forall i :: 0 <= i < |vertices| ==>
      Subtract(Translated(vertices, Subtract(x, c))[i], x) == Subtract(vertices[i], c)
  {
  }

  /** Setting the rotation to the current angle changes nothing. */
  lemma SetRotationToSelf(m: MathLib, s: BodyState)
    requires Lawful(m)
    ensures s.(vertices := Rotated(m, s.vertices, s.angle - s.angle, s.centroid), angle := s.angle) == s
  {
    RotatePivotFixed(m, s.vertices, 0.0, s.centroid);
  }
}
