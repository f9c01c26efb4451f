/**
 * The collision package of library/collision_package.c: two bodies, a
 * collision handler, the handler's aux pointer and an optional free function
 * for that aux.
 *
 * The package is never changed after collision_package_init, so it is a
 * value and collision_package_init is its constructor. Handlers are a
 * datatype: normal_collision_handler of library/forces.c, whose effect is
 * modelled, or a handler of the host program, whose effect is not (it is
 * reported as the call that was made).
 */
module Packages {
  import opened Options
  import opened Vectors
  import opened Polygons
  import opened Collision
  import opened Bodies
  import opened Auxes
  import opened Releases
  import opened Forces

  datatype Handler = NormalHandler | HostHandler(id: nat)

  /** The aux pointer given to the handler: the info list of create_physics_collision, or a host pointer. */
  datatype HandlerAux = PhysicsAux(info: PhysicsInfo) | HostAux(ptr: nat)

  /** collision_package_t; `freer` is the free function of the aux, None when NULL. */
  datatype Package = Package(body1: Body, body2: Body, handler: Handler, aux: HandlerAux, freer: Option<nat>)

  /** One call of a collision handler, with its arguments. */
  datatype HandlerCall = HandlerCall(handler: Handler, body1: Body, body2: Body, axis: Vector, aux: HandlerAux)

  /** What handling may change: the two bodies and, for the physics handler, its flag. */
  function Targets(p: Package): set<object>
  {
    {p.body1, p.body2} + (if p.aux.PhysicsAux? then {p.aux.info} else {})
  }

  /**
   * What collision_package_handle needs: shapes find_collision can
   * normalize the edges of, and for normal_collision_handler its info list
   * and masses the kernel can divide by.
   */
  ghost predicate Handleable(p: Package)
    reads p.body1.shape, p.body2.shape
  {
    && EdgesNonZero(p.body1.shape[..]) && EdgesNonZero(p.body2.shape[..])
    && (p.handler.NormalHandler? ==> p.aux.PhysicsAux? && p.body1.Valid() && p.body2.Valid())
  }

  /**
   * The outcome of collision_package_handle: the handler is called once, with
   * the stored bodies in order, the collision axis and the stored aux,
   * exactly when the shapes collide. Only normal_collision_handler changes
   * anything; while the shapes are apart its flag is left as it was.
   */
  twostate predicate Handled(m: MathLib, p: Package, new call: Option<HandlerCall>)
    requires Lawful(m) && old(Handleable(p))
    reads Targets(p), p.body1.shape, p.body2.shape
  {
    var collision := old(FindCollisionSpec(m, p.body1.shape[..], p.body2.shape[..]));
    && call == (if collision.Collided() then Some(HandlerCall(p.handler, p.body1, p.body2, collision.axis, p.aux)) else None)
    && if collision.Collided() && p.handler.NormalHandler? then
         DebounceApplied(m, p.body1, p.body2, p.aux.info)
       else
         && Untouched(p.body1) && Untouched(p.body2)
         && (p.aux.PhysicsAux? ==> p.aux.info.impulsedLastTick == old(p.aux.info.impulsedLastTick))
  }

  /** collision_package_handle: the test runs on copies of the shapes, which are then released. */
  method Handle(m: MathLib, p: Package) returns (call: Option<HandlerCall>)
    requires Lawful(m) && Handleable(p)
    modifies Targets(p)
    ensures Handled(m, p, call)
    ensures ImpulsesOnly(p.body1) && ImpulsesOnly(p.body2)
  {
    var shape1, shape2 := p.body1.shape[..], p.body2.shape[..];
    var collided := Collides(m, shape1, shape2);
    if collided {
      var collision := FindCollision(m, shape1, shape2);
      call := Some(HandlerCall(p.handler, p.body1, p.body2, collision.axis, p.aux));
      if p.handler.NormalHandler? {
        NormalCollisionHandler(m, p.body1, p.body2, collision.axis, p.aux.info);
      }
    } else {
      call := None;
    }
  }

  /** collision_package_free: the aux free function when there is one, then the package record. */
  function PackageFree(p: Package): (r: seq<Release>)
    ensures |r| >= 1 && r[|r| - 1] == RecordReleased(PackageRecord)
    ensures p.freer.None? ==> |r| == 1
    ensures p.freer.Some? ==> |r| == 2
    ensures p.freer.Some? ==> r[0] == HostFreerCalled(p.freer.value)
  {
    (if p.freer.Some? then [HostFreerCalled(p.freer.value)] else []) + [RecordReleased(PackageRecord)]
  }
}
