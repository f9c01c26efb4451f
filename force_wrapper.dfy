/**
 * The force entries of a scene (library/force_wrapper.c).
 *
 * A force entry holds a force creator, the argument it is called with, a
 * sticky removal flag, the free function of that argument and, for the
 * entries the create_* helpers register, the list of bodies the force acts
 * on. The function pointers of the C code become datatypes: `Law` names the
 * creator (the laws of library/forces.c, or a creator of the host program)
 * and `Freer` the free function. The argument is an aux record, a collision
 * package or a pointer of the host program.
 */
module ForceWrappers {
  import opened Options
  import opened Vectors
  import opened Polygons
  import opened Collision
  import opened Bodies
  import opened Auxes
  import opened Releases
  import opened Forces
  import opened Packages

  /** The force creators: those of library/forces.c, or one of the host program. */
  datatype Law =
    | GravityLaw        // gravity_force_creator
    | SpringLaw         // spring_force_creator
    | DragLaw           // drag_force_creator
    | AppliedLaw        // applied_force_creator
    | DestructiveLaw    // destructive_collision_creator
    | CollisionLaw      // general_collision_handler
    | HostLaw(id: nat)

  /** The void * argument of a creator. */
  datatype Payload = AuxData(aux: Aux) | PackageData(pkg: Package) | HostData(ptr: nat)

  /** The free function of the argument: NULL, aux_free, collision_package_free or one of the host program. */
  datatype Freer = NoFreer | AuxFreer | PackageFreer | HostFreer(id: nat)

  /** The bodies an argument refers to. */
  function BodiesOf(p: Payload): set<Body>
  {
    match p
    case AuxData(aux) => set b | b in aux.bodies
    case PackageData(pkg) => {pkg.body1, pkg.body2}
    case HostData(_) => {}
  }

  /** What running the creator on `p` may change: its bodies and, for the physics handler, its flag. */
  function Touches(p: Payload): set<object>
  {
    BodiesOf(p) + (if p.PackageData? && p.pkg.aux.PhysicsAux? then {p.pkg.aux.info} else {})
  }

  /** What running the creator on `p` may read: also the shapes and the constants. */
  function Watched(p: Payload): set<object>
  {
    Touches(p) + (set b | b in BodiesOf(p) :: b.shape)
    + (if p.AuxData? && p.aux.constants.Some? then set c | c in p.aux.constants.value else {})
  }

  /**
   * What a creator needs to run without undefined behaviour: an argument of
   * the kind it casts to, with the constants and bodies it reads, masses the
   * kernel can divide by, shapes find_collision can take and, for the
   * applied force, a velocity vec_normalize can divide by.
   */
  ghost predicate Runnable(m: MathLib, law: Law, p: Payload)
    reads Watched(p)
  {
    match law
    case GravityLaw =>
      p.AuxData? && HasArgs(p.aux, 2) && p.aux.bodies[0].Valid() && p.aux.bodies[1].Valid()
    case SpringLaw => p.AuxData? && HasArgs(p.aux, 2) && p.aux.bodies[0].Valid()
    case DragLaw => p.AuxData? && HasArgs(p.aux, 1) && p.aux.bodies[0].Valid()
    case AppliedLaw =>
      p.AuxData? && HasArgs(p.aux, 1) && p.aux.bodies[0].Valid() && p.aux.bodies[0].vel != Zero
    case DestructiveLaw =>
      && p.AuxData? && |p.aux.bodies| >= 2
      && EdgesNonZero(p.aux.bodies[0].shape[..]) && EdgesNonZero(p.aux.bodies[1].shape[..])
    case CollisionLaw => p.PackageData? && Handleable(p.pkg)
    case HostLaw(_) => true
  }

  /**
   * What one run of the creator `law` on `p` did, as the laws of
   * library/forces.c state it; `call` is the collision handler call made,
   * if any. The effect of a host creator is not modelled.
   */
  twostate predicate LawApplied(m: MathLib, law: Law, p: Payload, new call: Option<HandlerCall>)
    requires Lawful(m) && old(Runnable(m, law, p))
    reads Watched(p)
  {
    match law
    case GravityLaw =>
      call.None? && GravityApplied(m, old(FirstConstant(p.aux).value), p.aux.bodies[0], p.aux.bodies[1])
    case SpringLaw =>
      call.None? && SpringApplied(old(FirstConstant(p.aux).value), p.aux.bodies[0], p.aux.bodies[1])
    case DragLaw =>
      call.None? && Pushed(p.aux.bodies[0], DragForce(old(FirstConstant(p.aux).value), old(p.aux.bodies[0].vel)))
    case AppliedLaw =>
      NormZeroIff(m, old(p.aux.bodies[0].vel));
      call.None? && Pushed(p.aux.bodies[0], AppliedForce(m, old(FirstConstant(p.aux).value), old(p.aux.bodies[0].vel)))
    case DestructiveLaw => call.None? && DestroyedIfCollided(m, p.aux.bodies[0], p.aux.bodies[1])
    case CollisionLaw => Handled(m, p.pkg, call)
    case HostLaw(_) => call.None?
  }

  /**
   * A force only accumulates: position, velocity, centroid, angle,
   * vertices, colour and glow are kept, and a removal flag stays set.
   */
  twostate predicate Held(b: Body)
    reads b, b.shape
  {
    && b.pos == old(b.pos) && b.vel == old(b.vel) && b.centroid == old(b.centroid)
    && b.angle == old(b.angle) && b.shape[..] == old(b.shape[..])
    && b.color == old(b.color) && b.glowing == old(b.glowing) && b.glowRadius == old(b.glowRadius)
    && (old(b.removed) ==> b.removed)
  }

  /** Only destructive_collision_creator flags a body removed; every other creator keeps the flag. */
  twostate predicate FlagKept(law: Law, b: Body)
    reads b
  {
    law != DestructiveLaw ==> b.removed == old(b.removed)
  }

  /** The free function fits the argument it is given. */
  predicate FreerFits(freer: Freer, p: Payload)
  {
    && (freer.AuxFreer? ==> p.AuxData?)
    && (freer.PackageFreer? ==> p.PackageData?)
  }

  /** What the free function releases when it is called on the argument. */
  function FreerReleases(freer: Freer, p: Payload): seq<Release>
    requires freer != NoFreer && FreerFits(freer, p)
  {
    match freer
    case AuxFreer => AuxFree(p.aux)
    case PackageFreer => PackageFree(p.pkg)
    case HostFreer(id) => [HostFreerCalled(id)]
  }

  /**
   * A handler call can only come from a collision force, and it passes the
   * package's handler, its two bodies in stored order and its aux.
   */
  predicate CallFits(law: Law, p: Payload, call: Option<HandlerCall>)
  {
    call.Some? ==>
      && law == CollisionLaw && p.PackageData?
      && call.value.handler == p.pkg.handler && call.value.aux == p.pkg.aux
      && call.value.body1 == p.pkg.body1 && call.value.body2 == p.pkg.body2
  }

  /** The creator `law` run on `p`, as force_create calls it. */
  method Run(m: MathLib, law: Law, p: Payload) returns (call: Option<HandlerCall>)
    requires Lawful(m) && Runnable(m, law, p)
    modifies Touches(p)
    ensures LawApplied(m, law, p, call)
    ensures forall b :: b in BodiesOf(p) ==> Held(b) && FlagKept(law, b)
    ensures CallFits(law, p, call)
  {
    match law
    case GravityLaw => call := RunGravity(m, p.aux);
    case SpringLaw => call := RunSpring(m, p.aux);
    case DragLaw => call := RunDrag(m, p.aux);
    case AppliedLaw => call := RunApplied(m, p.aux);
    case DestructiveLaw => call := RunDestructive(m, p.aux);
    case CollisionLaw => call := RunCollision(m, p.pkg);
    case HostLaw(_) => call := None;
  }

  method RunCollision(m: MathLib, pkg: Package) returns (call: Option<HandlerCall>)
    requires Lawful(m) && Runnable(m, CollisionLaw, PackageData(pkg))
    modifies Touches(PackageData(pkg))
    ensures LawApplied(m, CollisionLaw, PackageData(pkg), call)
    ensures forall b :: b in BodiesOf(PackageData(pkg)) ==> Held(b) && FlagKept(CollisionLaw, b)
  {
    call := Handle(m, pkg);
  }

  method RunGravity(m: MathLib, aux: Aux) returns (call: Option<HandlerCall>)
    requires Lawful(m) && Runnable(m, GravityLaw, AuxData(aux))
    modifies Touches(AuxData(aux))
    ensures LawApplied(m, GravityLaw, AuxData(aux), call)
    ensures forall b :: b in BodiesOf(AuxData(aux)) ==> Held(b) && FlagKept(GravityLaw, b)
  {
    GravityCreator(m, aux);
    call := None;
  }

  method RunSpring(m: MathLib, aux: Aux) returns (call: Option<HandlerCall>)
    requires Lawful(m) && Runnable(m, SpringLaw, AuxData(aux))
    modifies Touches(AuxData(aux))
    ensures LawApplied(m, SpringLaw, AuxData(aux), call)
    ensures forall b :: b in BodiesOf(AuxData(aux)) ==> Held(b) && FlagKept(SpringLaw, b)
  {
    SpringCreator(aux);
    call := None;
  }

  method RunDrag(m: MathLib, aux: Aux) returns (call: Option<HandlerCall>)
    requires Lawful(m) && Runnable(m, DragLaw, AuxData(aux))
    modifies Touches(AuxData(aux))
    ensures LawApplied(m, DragLaw, AuxData(aux), call)
    ensures forall b :: b in BodiesOf(AuxData(aux)) ==> Held(b) && FlagKept(DragLaw, b)
  {
    DragCreator(aux);
    call := None;
  }

  method RunApplied(m: MathLib, aux: Aux) returns (call: Option<HandlerCall>)
    requires Lawful(m) && Runnable(m, AppliedLaw, AuxData(aux))
    modifies Touches(AuxData(aux))
    ensures LawApplied(m, AppliedLaw, AuxData(aux), call)
    ensures forall b :: b in BodiesOf(AuxData(aux)) ==> Held(b) && FlagKept(AppliedLaw, b)
  {
    NormZeroIff(m, aux.bodies[0].vel);
    AppliedCreator(m, aux);
    call := None;
  }

  method RunDestructive(m: MathLib, aux: Aux) returns (call: Option<HandlerCall>)
    requires Lawful(m) && Runnable(m, DestructiveLaw, AuxData(aux))
    modifies Touches(AuxData(aux))
    ensures LawApplied(m, DestructiveLaw, AuxData(aux), call)
    ensures forall b :: b in BodiesOf(AuxData(aux)) ==> Held(b) && FlagKept(DestructiveLaw, b)
  {
    DestructiveCreator(m, aux);
    call := None;
  }

  /** force_wrapper_t */
  class ForceEntry {
    const law: Law
    var payload: Payload
    var removed: bool
    const freer: Freer
    /** The scoped bodies list, None when NULL. */
    const bodies: Option<seq<Body>>

    /** force_init */
    constructor Init(law: Law, payload: Payload, freer: Freer)
      ensures this.law == law && this.payload == payload && this.freer == freer
      ensures !removed && bodies.None?
    {
      this.law := law;
      this.payload := payload;
      this.freer := freer;
      removed := false;
      bodies := None;
    }

    /** force_init_with_bodies: force_init, then the scoped list is stored. */
    constructor InitWithBodies(law: Law, payload: Payload, freer: Freer, bodies: seq<Body>)
      ensures this.law == law && this.payload == payload && this.freer == freer
      ensures !removed && this.bodies == Some(bodies)
    {
      this.law := law;
      this.payload := payload;
      this.freer := freer;
      removed := false;
      this.bodies := Some(bodies);
    }

    /** Whether the scoped list is present and holds `b`. */
    predicate Scopes(b: Body)
    {
      bodies.Some? && b in bodies.value
    }

    /** force_set_aux: the argument is replaced and nothing else changes. */
    method SetAux(payload: Payload)
      modifies this
      ensures this.payload == payload && removed == old(removed)
    {
      this.payload := payload;
    }

    /** force_remove: the flag is set, whatever it was, and the argument is kept. */
    method Remove()
      modifies this
      ensures removed && payload == old(payload)
    {
      removed := true;
    }

    /**
     * force_create: the creator runs once on the current argument. The entry
     * itself is not changed; the creator changes only what it touches, and
     * keeps the kinematic state of every body it refers to.
     */
    method Create(m: MathLib) returns (call: Option<HandlerCall>)
      requires Lawful(m) && Runnable(m, law, payload)
      modifies Touches(payload)
      ensures LawApplied(m, law, payload, call)
      ensures forall b :: b in BodiesOf(payload) ==> Held(b) && FlagKept(law, b)
      ensures CallFits(law, payload, call)
    {
      call := Run(m, law, payload);
    }

    /**
     * force_free, as the sequence of releases it performs: the free function
     * on the argument when there is one, otherwise the scoped list when there
     * is one, never both; the entry record last.
     */
    function FreeEvents(): (r: seq<Release>)
      requires FreerFits(freer, payload)
      reads this
      ensures |r| >= 1 && r[|r| - 1] == RecordReleased(ForceRecord)
      ensures freer != NoFreer ==> r[..|r| - 1] == FreerReleases(freer, payload)
      ensures freer == NoFreer ==> r[..|r| - 1] == if bodies.Some? then [ListReleased(BodiesList)] else []
    {
      var first := if freer != NoFreer then FreerReleases(freer, payload)
                   else if bodies.Some? then [ListReleased(BodiesList)] else [];
      first + [RecordReleased(ForceRecord)]
    }
  }
}
