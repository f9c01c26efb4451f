/**
 * The registration helpers of library/forces.c (create_newtonian_gravity,
 * create_spring, create_drag, create_applied_force,
 * create_destructive_collision, create_collision and
 * create_physics_collision). Each builds the argument of one creator and
 * registers it with scene_add_bodies_force_creator, scoped to the bodies it
 * acts on, so that removing one of them retires the force.
 *
 * What force_free later releases for such an entry is stated by the lemmas
 * at the end: the aux-based entries release their scoped list exactly once
 * (through aux_free, since that list is also the aux's bodies list); the
 * collision entries never release it.
 */
module Registration {
  import opened Options
  import opened Bodies
  import opened Auxes
  import opened Releases
  import opened Forces
  import opened Packages
  import opened ForceWrappers
  import opened Scenes

  /** Whether the scene stays valid after registering a force scoped to `bs`: every one of them is in the scene. */
  predicate InScene(scene: Scene, bs: seq<Body>)
    reads scene
  {
    forall b :: b in bs ==> b in scene.bodies
  }

  /**
   * create_newtonian_gravity: a gravity entry whose constants are one fresh
   * cell holding G and whose bodies list, also the scoped list, is
   * [body1, body2]; the aux is released by aux_free.
   */
  method CreateNewtonianGravity(scene: Scene, g: real, body1: Body, body2: Body) returns (force: ForceEntry)
    modifies scene
    ensures fresh(force) && scene.forces == old(scene.forces) + [force]
    ensures force.law == GravityLaw && force.freer == AuxFreer && !force.removed
    ensures force.bodies == Some([body1, body2])
    ensures force.payload.AuxData? && force.payload.aux.bodies == [body1, body2]
    ensures force.payload.aux.constants.Some? && |force.payload.aux.constants.value| == 1
    ensures fresh(force.payload.aux.constants.value[0]) && force.payload.aux.constants.value[0].value == g
    ensures scene.bodies == old(scene.bodies) && scene.texts == old(scene.texts)
    ensures scene.time == old(scene.time) && scene.devMode == old(scene.devMode)
    ensures old(scene.Valid()) && InScene(scene, [body1, body2]) ==> scene.Valid()
  {
    var cell := new Cell.Init(g);
    force := scene.AddBodiesForceCreator(GravityLaw, AuxData(Aux(Some([cell]), [body1, body2])), [body1, body2], AuxFreer);
  }

  /** create_spring: as create_newtonian_gravity, with the spring constant k. */
  method CreateSpring(scene: Scene, k: real, body1: Body, body2: Body) returns (force: ForceEntry)
    modifies scene
    ensures fresh(force) && scene.forces == old(scene.forces) + [force]
    ensures force.law == SpringLaw && force.freer == AuxFreer && !force.removed
    ensures force.bodies == Some([body1, body2])
    ensures force.payload.AuxData? && force.payload.aux.bodies == [body1, body2]
    ensures force.payload.aux.constants.Some? && |force.payload.aux.constants.value| == 1
    ensures fresh(force.payload.aux.constants.value[0]) && force.payload.aux.constants.value[0].value == k
    ensures scene.bodies == old(scene.bodies) && scene.texts == old(scene.texts)
    ensures scene.time == old(scene.time) && scene.devMode == old(scene.devMode)
    ensures old(scene.Valid()) && InScene(scene, [body1, body2]) ==> scene.Valid()
  {
    var cell := new Cell.Init(k);
    force := scene.AddBodiesForceCreator(SpringLaw, AuxData(Aux(Some([cell]), [body1, body2])), [body1, body2], AuxFreer);
  }

  /** create_drag: one fresh cell holding gamma, and the single body as bodies and scoped list. */
  method CreateDrag(scene: Scene, gamma: real, body: Body) returns (force: ForceEntry)
    modifies scene
    ensures fresh(force) && scene.forces == old(scene.forces) + [force]
    ensures force.law == DragLaw && force.freer == AuxFreer && !force.removed
    ensures force.bodies == Some([body])
    ensures force.payload.AuxData? && force.payload.aux.bodies == [body]
    ensures force.payload.aux.constants.Some? && |force.payload.aux.constants.value| == 1
    ensures fresh(force.payload.aux.constants.value[0]) && force.payload.aux.constants.value[0].value == gamma
    ensures scene.bodies == old(scene.bodies) && scene.texts == old(scene.texts)
    ensures scene.time == old(scene.time) && scene.devMode == old(scene.devMode)
    ensures old(scene.Valid()) && InScene(scene, [body]) ==> scene.Valid()
  {
    var cell := new Cell.Init(gamma);
    force := scene.AddBodiesForceCreator(DragLaw, AuxData(Aux(Some([cell]), [body])), [body], AuxFreer);
  }

  /**
   * create_applied_force: the constants list holds the caller's own cell,
   * not a copy, so a later write through it changes the force the creator
   * applies on the following ticks.
   */
  method CreateAppliedForce(scene: Scene, magnitude: Cell, body: Body) returns (force: ForceEntry)
    modifies scene
    ensures fresh(force) && scene.forces == old(scene.forces) + [force]
    ensures force.law == AppliedLaw && force.freer == AuxFreer && !force.removed
    ensures force.bodies == Some([body])
    ensures force.payload == AuxData(Aux(Some([magnitude]), [body]))
    ensures scene.bodies == old(scene.bodies) && scene.texts == old(scene.texts)
    ensures scene.time == old(scene.time) && scene.devMode == old(scene.devMode)
    ensures old(scene.Valid()) && InScene(scene, [body]) ==> scene.Valid()
  {
    force := scene.AddBodiesForceCreator(AppliedLaw, AuxData(Aux(Some([magnitude]), [body])), [body], AuxFreer);
  }

  /** create_destructive_collision: no constants list, and [body1, body2] as bodies and scoped list. */
  method CreateDestructiveCollision(scene: Scene, body1: Body, body2: Body) returns (force: ForceEntry)
    modifies scene
    ensures fresh(force) && scene.forces == old(scene.forces) + [force]
    ensures force.law == DestructiveLaw && force.freer == AuxFreer && !force.removed
    ensures force.bodies == Some([body1, body2])
    ensures force.payload == AuxData(Aux(None, [body1, body2]))
    ensures scene.bodies == old(scene.bodies) && scene.texts == old(scene.texts)
    ensures scene.time == old(scene.time) && scene.devMode == old(scene.devMode)
    ensures old(scene.Valid()) && InScene(scene, [body1, body2]) ==> scene.Valid()
  {
    force := scene.AddBodiesForceCreator(DestructiveLaw, AuxData(Aux(None, [body1, body2])), [body1, body2], AuxFreer);
  }

  /**
   * create_collision: a collision package of the two bodies and the host's
   * handler, aux and aux free function, run by general_collision_handler and
   * released by collision_package_free; the scoped list is [body1, body2].
   */
  method CreateCollision(scene: Scene, body1: Body, body2: Body, handler: Handler, aux: HandlerAux, freer: Option<nat>)
    returns (force: ForceEntry)
    modifies scene
    ensures fresh(force) && scene.forces == old(scene.forces) + [force]
    ensures force.law == CollisionLaw && force.freer == PackageFreer && !force.removed
    ensures force.bodies == Some([body1, body2])
    ensures force.payload == PackageData(Package(body1, body2, handler, aux, freer))
    ensures scene.bodies == old(scene.bodies) && scene.texts == old(scene.texts)
    ensures scene.time == old(scene.time) && scene.devMode == old(scene.devMode)
    ensures old(scene.Valid()) && InScene(scene, [body1, body2]) ==> scene.Valid()
  {
    var pkg := Package(body1, body2, handler, aux, freer);
    force := scene.AddBodiesForceCreator(CollisionLaw, PackageData(pkg), [body1, body2], PackageFreer);
  }

  /**
   * create_physics_collision: a collision package running
   * normal_collision_handler on a fresh info list with the debounce flag
   * down and the given elasticity; the package has no aux free function.
   */
  method CreatePhysicsCollision(scene: Scene, elasticity: real, body1: Body, body2: Body) returns (force: ForceEntry)
    modifies scene
    ensures fresh(force) && scene.forces == old(scene.forces) + [force]
    ensures force.law == CollisionLaw && force.freer == PackageFreer && !force.removed
    ensures force.bodies == Some([body1, body2])
    ensures force.payload.PackageData? && force.payload.pkg.handler == NormalHandler && force.payload.pkg.freer.None?
    ensures force.payload.pkg.body1 == body1 && force.payload.pkg.body2 == body2
    ensures force.payload.pkg.aux.PhysicsAux? && fresh(force.payload.pkg.aux.info)
    ensures !force.payload.pkg.aux.info.impulsedLastTick && force.payload.pkg.aux.info.elasticity == elasticity
    ensures scene.bodies == old(scene.bodies) && scene.texts == old(scene.texts)
    ensures scene.time == old(scene.time) && scene.devMode == old(scene.devMode)
    ensures old(scene.Valid()) && InScene(scene, [body1, body2]) ==> scene.Valid()
  {
    var info := new PhysicsInfo.Init(elasticity);
    var pkg := Package(body1, body2, NormalHandler, PhysicsAux(info), None);
    force := scene.AddBodiesForceCreator(CollisionLaw, PackageData(pkg), [body1, body2], PackageFreer);
  }

  // ---------------------------------------------------------------------
  // What force_free releases for a registered entry

  /** aux_free releases the bodies list and the aux record once each, and never the entry record. */
  lemma AuxFreeOnce(a: Aux)
    ensures Occurrences(AuxFree(a), ListReleased(BodiesList)) == 1
    ensures Occurrences(AuxFree(a), RecordReleased(AuxRecord)) == 1
    ensures RecordReleased(ForceRecord) !in AuxFree(a)
  {
    var constants := if a.constants.Some? then CellsReleased(a.constants.value) + [ListReleased(ConstantsList)] else [];
    var tail := [ListReleased(BodiesList), RecordReleased(AuxRecord)];
    assert AuxFree(a) == constants + tail;
    assert ListReleased(BodiesList) !in constants;
    assert RecordReleased(AuxRecord) !in constants;
    OccurrencesAppend(constants, tail, ListReleased(BodiesList));
    OccurrencesAppend(constants, tail, RecordReleased(AuxRecord));
  }

  /**
   * An entry registered with aux_free (gravity, spring, drag, applied force
   * and destructive collision) releases its bodies list, which is its scoped
   * list, exactly once, and its aux record and entry record once each.
   */
  lemma AuxEntryReleasesOnce(f: ForceEntry)
    requires f.freer == AuxFreer && f.payload.AuxData?
    ensures Occurrences(f.FreeEvents(), ListReleased(BodiesList)) == 1
    ensures Occurrences(f.FreeEvents(), RecordReleased(AuxRecord)) == 1
    ensures Occurrences(f.FreeEvents(), RecordReleased(ForceRecord)) == 1
  {
    var r := AuxFree(f.payload.aux);
    assert f.FreeEvents() == r + [RecordReleased(ForceRecord)];
    AuxFreeOnce(f.payload.aux);
    OccurrencesAppend(r, [RecordReleased(ForceRecord)], ListReleased(BodiesList));
    OccurrencesAppend(r, [RecordReleased(ForceRecord)], RecordReleased(AuxRecord));
    OccurrencesAppend(r, [RecordReleased(ForceRecord)], RecordReleased(ForceRecord));
  }

  /**
   * An entry registered with collision_package_free (create_collision and
   * create_physics_collision) never releases its scoped list: force_free
   * calls the package's free function instead, and that releases only the
   * host aux and the package. For create_physics_collision, whose package
   * has no aux free function, the info list is not released either.
   */
  lemma PackageEntryKeepsScopedList(f: ForceEntry)
    requires f.freer == PackageFreer && f.payload.PackageData?
    ensures ListReleased(BodiesList) !in f.FreeEvents()
    ensures Occurrences(f.FreeEvents(), RecordReleased(PackageRecord)) == 1
    ensures f.payload.pkg.freer.None? ==> f.FreeEvents() == [RecordReleased(PackageRecord), RecordReleased(ForceRecord)]
  {
    var p := f.payload.pkg;
    var head := if p.freer.Some? then [HostFreerCalled(p.freer.value)] else [];
    assert f.FreeEvents() == head + [RecordReleased(PackageRecord), RecordReleased(ForceRecord)];
    OccurrencesAppend(head, [RecordReleased(PackageRecord), RecordReleased(ForceRecord)], RecordReleased(PackageRecord));
  }
}
