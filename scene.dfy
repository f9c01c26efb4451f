/**
 * The scene of library/scene.c: the list of bodies, the list of texts, the
 * list of force entries, the elapsed time and the developer-mode flag.
 *
 * The three lists are sequence fields that the methods reassign with the
 * effect of list_add and list_remove. A tick runs in three passes: every
 * force creator runs once, in list order; then the bodies are walked by
 * index, a body flagged removed is taken out (after marking removed every
 * force whose scoped list holds it) and the others are integrated; then the
 * force entries flagged removed are taken out. What the passes take out is
 * returned, in order, as what they free.
 */
module Scenes {
  import opened Options
  import opened Vectors
  import opened Polygons
  import opened Collision
  import opened Bodies
  import opened Packages
  import opened ForceWrappers
  import opened Texts
  import opened Selections

  /** The removal flags of a list of bodies. */
  function BodyFlags(bs: seq<Body>): (r: seq<bool>)
    reads bs
    ensures |r| == |bs| && forall i :: 0 <= i < |bs| ==> r[i] == bs[i].removed
  {
    if bs == [] then [] else BodyFlags(bs[..|bs| - 1]) + [bs[|bs| - 1].removed]
  }

  /** The removal flags of a list of force entries. */
  function ForceFlags(fs: seq<ForceEntry>): (r: seq<bool>)
    reads fs
    ensures |r| == |fs| && forall i :: 0 <= i < |fs| ==> r[i] == fs[i].removed
  {
    if fs == [] then [] else ForceFlags(fs[..|fs| - 1]) + [fs[|fs| - 1].removed]
  }

  /** The arguments of a list of force entries. */
  function Payloads(fs: seq<ForceEntry>): (r: seq<Payload>)
    reads fs
    ensures |r| == |fs| && forall i :: 0 <= i < |fs| ==> r[i] == fs[i].payload
  {
    if fs == [] then [] else Payloads(fs[..|fs| - 1]) + [fs[|fs| - 1].payload]
  }

  /** Whether the scoped list of `f` holds one of `bs`. */
  predicate ScopesAny(f: ForceEntry, bs: seq<Body>)
  {
    exists j :: 0 <= j < |bs| && f.Scopes(bs[j])
  }

  /** A force newly scoped to one more freed body. */
  lemma ScopesAnyAppend(fs: seq<ForceEntry>, bs: seq<Body>, b: Body)
    ensures forall q :: 0 <= q < |fs| ==> (ScopesAny(fs[q], bs + [b]) <==> ScopesAny(fs[q], bs) || fs[q].Scopes(b))
  {
    forall q | 0 <= q < |fs|
      ensures ScopesAny(fs[q], bs + [b]) <==> ScopesAny(fs[q], bs) || fs[q].Scopes(b)
    {
      if ScopesAny(fs[q], bs) {
        var j :| 0 <= j < |bs| && fs[q].Scopes(bs[j]);
        assert (bs + [b])[j] == bs[j];
      }
      if fs[q].Scopes(b) {
        assert (bs + [b])[|bs|] == b;
      }
      if ScopesAny(fs[q], bs + [b]) {
        var j :| 0 <= j < |bs| + 1 && fs[q].Scopes((bs + [b])[j]);
        if j < |bs| {
          assert (bs + [b])[j] == bs[j];
        }
      }
    }
  }

  /**
   * The inner loop of scene_remove_forces_from_body: a scan of a scoped list
   * for `body` that stops at the first match.
   */
  method ListHolds(list: seq<Body>, body: Body) returns (found: bool)
    ensures found <==> body in list
  {
    found := false;
    var j := 0;
    while j < |list|
      invariant 0 <= j <= |list|
      invariant !found && body !in list[..j]
    {
      if list[j] == body {
        found := true;
        return;
      }
      j := j + 1;
    }
  }

  /** The integrator a tick uses on each surviving body. */
  method Integrate(b: Body, dt: real, rule: Integrator)
    requires b.Valid()
    modifies b, b.shape
    ensures b.State() == Step(old(b.State()), InvMass(b.mass), dt, rule)
  {
    match rule
    case Midpoint => b.Tick(dt);
    case Canon => b.TickCanon(dt);
    case CanonNoReset => b.TickCanonNoReset(dt);
  }

  /**
   * One step of the force pass: force_create on one entry. Its law is
   * applied to the bodies it refers to (LawApplied); every body only
   * accumulates, a body the entry does not refer to keeps its whole state,
   * and only a destroying entry may flag a body removed. The creators still
   * to run can still run, since a creator keeps the velocity and the shape
   * of every body.
   */
  method RunEntry(m: MathLib, force: ForceEntry, ghost rest: seq<ForceEntry>, ghost bodies: seq<Body>)
    returns (call: Option<HandlerCall>)
    requires Lawful(m) && Runnable(m, force.law, force.payload)
    requires force !in Touches(force.payload) && forall k :: 0 <= k < |rest| ==> rest[k] !in Touches(force.payload)
    requires forall k :: 0 <= k < |rest| ==> Runnable(m, rest[k].law, rest[k].payload)
    modifies Touches(force.payload)
    ensures CallFits(force.law, force.payload, call) && LawApplied(m, force.law, force.payload, call)
    ensures forall b :: b in bodies ==> Held(b) && FlagKept(force.law, b)
    ensures forall b :: b in bodies && b !in BodiesOf(force.payload) ==>
      b.acl == old(b.acl) && b.impulse == old(b.impulse) && b.removed == old(b.removed)
    ensures forall k :: 0 <= k < |rest| ==> Runnable(m, rest[k].law, rest[k].payload)
  {
    call := force.Create(m);
  }

  /** What the creators of the entries `fs` may change. */
  function Touching(ps: seq<Payload>): set<object>
  {
    set k, o | 0 <= k < |ps| && o in Touches(ps[k]) :: o
  }

  lemma TouchingCovers(ps: seq<Payload>, i: nat)
    requires i < |ps|
    ensures Touches(ps[i]) <= Touching(ps)
  {
  }

  /**
   * One entry of the force pass, told as the states of the bodies: if the
   * first i entries took the bodies from `s0` to their present states as
   * ForcePassed says, the first i + 1 do once entry i has run.
   */
  method PassEntry(m: MathLib, fs: seq<ForceEntry>, ghost ps: seq<Payload>, i: nat, ghost bodies: seq<Body>,
                   ghost s0: seq<BodyState>)
    returns (call: Option<HandlerCall>, ghost after: seq<BodyState>, ghost referred: set<Body>, ghost doomed: set<Body>)
    requires Lawful(m) && i < |fs| && |ps| == |fs| && |s0| == |bodies|
    requires forall k :: 0 <= k < |fs| ==> fs[k].payload == ps[k] && fs[k] !in Touches(ps[i])
    requires forall k :: i <= k < |fs| ==> Runnable(m, fs[k].law, ps[k])
    requires ForcePassed(bodies, s0, States(bodies), Referred(ps[..i]), Doomed(fs[..i], ps[..i]))
    modifies Touches(ps[i])
    ensures CallFits(fs[i].law, ps[i], call)
    ensures forall k :: 0 <= k < |fs| ==> unchanged(fs[k])
    ensures forall k :: i < k < |fs| ==> Runnable(m, fs[k].law, ps[k])
    ensures after == States(bodies)
    ensures referred == Referred(ps[..i + 1]) && doomed == Doomed(fs[..i + 1], ps[..i + 1])
    ensures ForcePassed(bodies, s0, after, referred, doomed)
  {
    ghost var s1 := States(bodies);
    call := RunEntry(m, fs[i], fs[i + 1..], bodies);
    forall j | 0 <= j < |bodies|
      ensures Accumulated(s1[j], bodies[j].State())
      ensures bodies[j] !in BodiesOf(ps[i]) ==> bodies[j].State() == s1[j]
      ensures bodies[j] !in Dooms(fs[i].law, ps[i]) ==> bodies[j].removed == s1[j].removed
    {
      assert bodies[j] in bodies;
    }
    after := States(bodies);
    PassedThen(bodies, s0, s1, after, Referred(ps[..i]), Doomed(fs[..i], ps[..i]), BodiesOf(ps[i]), Dooms(fs[i].law, ps[i]));
    ReferencesGrow(fs, ps, i);
    referred, doomed := Referred(ps[..i + 1]), Doomed(fs[..i + 1], ps[..i + 1]);
  }

  /**
   * The force pass of scene_tick: every creator of `fs` runs once, in list
   * order, before any body is integrated. No entry changes; the bodies
   * only accumulate, a body no entry refers to keeps its whole state, and
   * only a destroying entry flags a body removed. A handler call comes only
   * from a collision entry.
   */
  method ApplyForces(m: MathLib, fs: seq<ForceEntry>, ghost bodies: seq<Body>) returns (calls: seq<Option<HandlerCall>>)
    requires Lawful(m) && forall k :: 0 <= k < |fs| ==> Runnable(m, fs[k].law, fs[k].payload)
    modifies Touching(Payloads(fs))
    ensures |calls| == |fs|
    ensures forall k :: 0 <= k < |fs| ==> CallFits(fs[k].law, fs[k].payload, calls[k])
    ensures ForcePassed(bodies, old(States(bodies)), States(bodies), Referred(Payloads(fs)), Doomed(fs, Payloads(fs)))
    ensures forall k :: 0 <= k < |fs| ==> unchanged(fs[k])
  {
    calls := [];
    var i := 0;
    ghost var ps := Payloads(fs);
    ghost var s0 := States(bodies);
    ghost var cur, referred, doomed := s0, {}, {};
    assert forall k :: 0 <= k < |fs| ==> fs[k] !in Touching(ps);
    while i < |fs|
      invariant 0 <= i <= |fs| && |calls| == i
      invariant forall k :: 0 <= k < |fs| ==> fs[k].payload == ps[k]
      invariant forall k :: 0 <= k < i ==> CallFits(fs[k].law, ps[k], calls[k])
      invariant forall k :: i <= k < |fs| ==> Runnable(m, fs[k].law, ps[k])
      invariant cur == States(bodies)
      invariant referred == Referred(ps[..i]) && doomed == Doomed(fs[..i], ps[..i])
      invariant ForcePassed(bodies, s0, cur, referred, doomed)
    {
      var call;
      TouchingCovers(ps, i);
      call, cur, referred, doomed := PassEntry(m, fs, ps, i, bodies, s0);
      calls := calls + [call];
      i := i + 1;
    }
    assert fs[..i] == fs && ps[..i] == ps;
    assert Payloads(fs) == ps;
  }

  /** The bodies one entry of law `law` and arguments `p` may flag removed. */
  function Dooms(law: Law, p: Payload): set<Body>
  {
    if law == DestructiveLaw then BodiesOf(p) else {}
  }

  /** The bodies the arguments `ps` refer to. */
  function Referred(ps: seq<Payload>): set<Body>
  {
    set k, b | 0 <= k < |ps| && b in BodiesOf(ps[k]) :: b
  }

  /**
   * The bodies the destroying entries among `fs`, with the arguments `ps`,
   * refer to: the only bodies the force pass may flag removed.
   */
  function Doomed(fs: seq<ForceEntry>, ps: seq<Payload>): (r: set<Body>)
    requires |ps| == |fs|
  {
    set k, b | 0 <= k < |fs| && fs[k].law == DestructiveLaw && b in BodiesOf(ps[k]) :: b
  }

  /** One more entry adds the bodies it refers to, and to the doomed ones only when it destroys. */
  lemma ReferencesGrow(fs: seq<ForceEntry>, ps: seq<Payload>, i: nat)
    requires |ps| == |fs| && i < |fs|
    ensures Referred(ps[..i + 1]) == Referred(ps[..i]) + BodiesOf(ps[i])
    ensures Doomed(fs[..i + 1], ps[..i + 1]) == Doomed(fs[..i], ps[..i]) + Dooms(fs[i].law, ps[i])
  {
    assert forall k :: 0 <= k < i ==> ps[..i + 1][k] == ps[..i][k] && fs[..i + 1][k] == fs[..i][k];
  }

  /** Two force passes in a row make one, over the bodies and destroying entries of both. */
  lemma PassedThen(bs: seq<Body>, s0: seq<BodyState>, s1: seq<BodyState>, s2: seq<BodyState>,
                   r1: set<Body>, d1: set<Body>, r2: set<Body>, d2: set<Body>)
    requires |s0| == |bs| && |s1| == |bs| && |s2| == |bs|
    requires ForcePassed(bs, s0, s1, r1, d1) && ForcePassed(bs, s1, s2, r2, d2)
    ensures ForcePassed(bs, s0, s2, r1 + r2, d1 + d2)
  {
  }

  /** With no force entry the force pass leaves every body exactly as it was. */
  lemma ForceFreePass(bs: seq<Body>, s0: seq<BodyState>, mid: seq<BodyState>)
    requires |s0| == |bs| && |mid| == |bs|
    requires ForcePassed(bs, s0, mid, Referred([]), Doomed([], []))
    ensures mid == s0
  {
  }

  /**
   * The removal walk of the force list in scene_tick: an entry flagged
   * removed is taken out and the index stays put; any other entry is stepped
   * past. What stays and what is taken out are the selections by the flags.
   */
  method Prune(forces: seq<ForceEntry>) returns (kept: seq<ForceEntry>, freed: seq<ForceEntry>)
    ensures kept == Select(forces, ForceFlags(forces), false)
    ensures freed == Select(forces, ForceFlags(forces), true)
  {
    ghost var flags := ForceFlags(forces);
    kept := forces;
    freed := [];
    var i := 0;
    ghost var k := 0;
    WalkStart(forces, flags);
    while i < |kept|
      invariant Walking(forces, flags, k, kept, i, freed)
      decreases |forces| - k
    {
      WalkAt(forces, flags, k, kept, i, freed);
      var force := kept[i];
      if force.removed {
        WalkDrop(forces, flags, k, kept, i, freed);
        kept := kept[..i] + kept[i + 1..];
        freed := freed + [force];
      } else {
        WalkKeep(forces, flags, k, kept, i, freed);
        i := i + 1;
      }
      k := k + 1;
    }
    WalkEnd(forces, flags, k, kept, i, freed);
  }

  /**
   * scene_remove_forces_from_body: exactly the entries whose scoped list
   * holds the body are flagged removed; flags already set stay set.
   */
  method RetireForces(forces: seq<ForceEntry>, body: Body)
    requires Distinct(forces) && forall k :: 0 <= k < |forces| ==> forces[k].bodies.Some?
    modifies forces
    ensures forall k :: 0 <= k < |forces| ==> forces[k].removed == (old(forces[k].removed) || forces[k].Scopes(body))
    ensures forall k :: 0 <= k < |forces| ==> forces[k].payload == old(forces[k].payload)
  {
    var i := 0;
    while i < |forces|
      invariant 0 <= i <= |forces|
      invariant forall k :: 0 <= k < i ==> forces[k].removed == (old(forces[k].removed) || forces[k].Scopes(body))
      invariant forall k :: i <= k < |forces| ==> forces[k].removed == old(forces[k].removed)
      invariant forall k :: 0 <= k < |forces| ==> forces[k].payload == old(forces[k].payload)
    {
      var found := ListHolds(forces[i].bodies.value, body);
      if found {
        forces[i].Remove();
      }
      i := i + 1;
    }
  }

  /** The states of a list of bodies. */
  ghost function States(bs: seq<Body>): (r: seq<BodyState>)
    reads set j | 0 <= j < |bs| :: bs[j], set j | 0 <= j < |bs| :: bs[j].shape
    ensures |r| == |bs| && forall i :: 0 <= i < |bs| ==> r[i] == bs[i].State()
  {
    if bs == [] then [] else States(bs[..|bs| - 1]) + [bs[|bs| - 1].State()]
  }

  /** No body occurs twice in the list and no two of its bodies share a shape buffer. */
  ghost predicate Separate(bs: seq<Body>)
  {
    Distinct(bs) && forall b1, b2 :: b1 in bs && b2 in bs && b1 != b2 ==> b1.shape != b2.shape
  }

  /** A selection of separate bodies is separate. */
  lemma SelectSeparate(bs: seq<Body>, flags: seq<bool>, want: bool)
    requires |flags| == |bs| && Separate(bs)
    ensures Separate(Select(bs, flags, want))
  {
    SelectDistinct(bs, flags, want);
    forall b | b in Select(bs, flags, want)
      ensures b in bs
    {
      SelectMembers(bs, flags, want, b);
    }
  }

  /** The state a body has after the body pass: one integration step when it moved, its old state otherwise. */
  function Target(s: BodyState, mass: Mass, moved: bool, dt: real, rule: Integrator): BodyState
    requires UsableMass(mass)
  {
    if moved then Step(s, InvMass(mass), dt, rule) else s
  }

  /**
   * The body pass after its first k bodies, from the states `s0` and flags
   * the pass started with: each of the first k that was not flagged removed
   * has taken one integration step, every other body keeps its state.
   */
  ghost predicate Reached(bs: seq<Body>, s0: seq<BodyState>, flags: seq<bool>, k: nat, dt: real, rule: Integrator,
                          integrate: bool)
    requires |s0| == |bs| && |flags| == |bs| && forall j :: 0 <= j < |bs| ==> UsableMass(bs[j].mass)
    reads set j | 0 <= j < |bs| :: bs[j], set j | 0 <= j < |bs| :: bs[j].shape
  {
    forall j :: 0 <= j < |bs| ==>
      bs[j].removed == flags[j] && bs[j].State() == Target(s0[j], bs[j].mass, integrate && j < k && !flags[j], dt, rule)
  }

  /**
   * What the force pass leaves of a body's state: forces only accumulate,
   * so position, velocity, centroid, angle, vertices, colour and glow are
   * kept and a removal flag stays set.
   */
  predicate Accumulated(s: BodyState, t: BodyState)
  {
    && t.pos == s.pos && t.vel == s.vel && t.centroid == s.centroid && t.angle == s.angle
    && t.vertices == s.vertices && t.color == s.color && t.glowing == s.glowing && t.glowRadius == s.glowRadius
    && (s.removed ==> t.removed)
  }

  /**
   * What the force pass did to the bodies `bs`, from the states `s0` to
   * `mid`: every state accumulated only; a body no entry refers to kept its
   * whole state; a body no destroying entry refers to kept its removal flag.
   */
  predicate ForcePassed(bs: seq<Body>, s0: seq<BodyState>, mid: seq<BodyState>, referred: set<Body>, doomed: set<Body>)
    requires |s0| == |bs| && |mid| == |bs|
  {
    forall j :: 0 <= j < |bs| ==>
      && Accumulated(s0[j], mid[j])
      && (bs[j] !in referred ==> mid[j] == s0[j])
      && (bs[j] !in doomed ==> mid[j].removed == s0[j].removed)
  }

  /**
   * A body pass that does not integrate leaves every body in the state the
   * force pass left it in: under scene_tick_canon_no_reset as written, no
   * body moves.
   */
  lemma PassStalls(bs: seq<Body>, s0: seq<BodyState>, flags: seq<bool>, dt: real, rule: Integrator)
    requires |s0| == |bs| && |flags| == |bs| && forall j :: 0 <= j < |bs| ==> UsableMass(bs[j].mass)
    requires Reached(bs, s0, flags, |bs|, dt, rule, false)
    ensures forall j :: 0 <= j < |bs| ==> bs[j].State() == s0[j]
  {
  }

  /**
   * What body_tick_canon_no_reset does for a body at unit velocity over one
   * second: it moves by one unit, and keeps its acceleration.
   */
  lemma NoResetMoves(s: BodyState, mass: Mass)
    requires UsableMass(mass) && s.vel == Vector(1.0, 0.0) && s.acl == Zero && s.impulse == Zero
    ensures Target(s, mass, true, 1.0, CanonNoReset).pos == Add(s.pos, Vector(1.0, 0.0))
    ensures Target(s, mass, true, 1.0, CanonNoReset).pos != Target(s, mass, false, 1.0, CanonNoReset).pos
  {
  }

  /**
   * The force entries during the body pass, from the flags and arguments
   * `flags0` and `payloads` they had before it: exactly those scoped to a
   * body freed so far are newly flagged, and no argument changed.
   */
  ghost predicate Retired(forces: seq<ForceEntry>, flags0: seq<bool>, payloads: seq<Payload>, freed: seq<Body>)
    reads forces
  {
    && |flags0| == |forces| && |payloads| == |forces|
    && forall q :: 0 <= q < |forces| ==>
         forces[q].removed == (flags0[q] || ScopesAny(forces[q], freed)) && forces[q].payload == payloads[q]
  }

  /** An unflagged body of the pass is integrated, when the pass integrates; the others of the list keep their state. */
  method IntegrateStep(bs: seq<Body>, ghost s0: seq<BodyState>, ghost flags: seq<bool>, k: nat, dt: real, rule: Integrator,
                       integrate: bool,
                       ghost forces: seq<ForceEntry>, ghost flags0: seq<bool>, ghost payloads: seq<Payload>, ghost freed: seq<Body>)
    requires |s0| == |bs| && |flags| == |bs| && forall j :: 0 <= j < |bs| ==> UsableMass(bs[j].mass)
    requires Separate(bs) && k < |bs| && !flags[k] && Reached(bs, s0, flags, k, dt, rule, integrate)
    requires Retired(forces, flags0, payloads, freed)
    modifies bs[k], bs[k].shape
    ensures Reached(bs, s0, flags, k + 1, dt, rule, integrate)
    ensures Retired(forces, flags0, payloads, freed)
  {
    if integrate {
      Integrate(bs[k], dt, rule);
    }
  }

  /** A flagged body of the pass retires the forces scoped to it; no body changes. */
  method RetireStep(forces: seq<ForceEntry>, bs: seq<Body>, ghost s0: seq<BodyState>, ghost flags: seq<bool>, k: nat,
                    dt: real, rule: Integrator, integrate: bool, ghost flags0: seq<bool>, ghost payloads: seq<Payload>, ghost freed: seq<Body>)
    requires |s0| == |bs| && |flags| == |bs| && forall j :: 0 <= j < |bs| ==> UsableMass(bs[j].mass)
    requires Distinct(forces) && forall q :: 0 <= q < |forces| ==> forces[q].bodies.Some?
    requires k < |bs| && flags[k] && Reached(bs, s0, flags, k, dt, rule, integrate)
    requires Retired(forces, flags0, payloads, freed)
    modifies forces
    ensures Reached(bs, s0, flags, k + 1, dt, rule, integrate)
    ensures Retired(forces, flags0, payloads, freed + [bs[k]])
  {
    RetireForces(forces, bs[k]);
    ScopesAnyAppend(forces, freed, bs[k]);
  }

  /**
   * The body pass of scene_tick: the list is walked by index; a body flagged
   * removed first retires the forces scoped to it, then is taken out and
   * freed, and the index stays put; any other body is integrated once.
   * Afterwards the list holds exactly the unflagged bodies in their order,
   * the flagged ones are freed in their order without being integrated, and
   * exactly the forces scoped to a freed body are newly flagged.
   */
  method Pass(list0: seq<Body>, forces: seq<ForceEntry>, dt: real, rule: Integrator, integrate: bool)
    returns (list: seq<Body>, freed: seq<Body>)
    requires forall j :: 0 <= j < |list0| ==> UsableMass(list0[j].mass)
    requires Separate(list0)
    requires Distinct(forces) && forall q :: 0 <= q < |forces| ==> forces[q].bodies.Some?
    modifies set j | 0 <= j < |list0| :: list0[j], set j | 0 <= j < |list0| :: list0[j].shape, forces
    ensures list == Select(list0, old(BodyFlags(list0)), false)
    ensures freed == Select(list0, old(BodyFlags(list0)), true)
    ensures Reached(list0, old(States(list0)), old(BodyFlags(list0)), |list0|, dt, rule, integrate)
    ensures Retired(forces, old(ForceFlags(forces)), old(Payloads(forces)), freed)
  {
    ghost var flags := BodyFlags(list0);
    ghost var s0 := States(list0);
    ghost var flags0 := ForceFlags(forces);
    ghost var payloads := Payloads(forces);
    list := list0;
    freed := [];
    var i := 0;
    var k := 0;
    WalkStart(list0, flags);
    while i < |list|
      invariant Walking(list0, flags, k, list, i, freed)
      invariant Reached(list0, s0, flags, k, dt, rule, integrate)
      invariant Retired(forces, flags0, payloads, freed)
      decreases |list0| - k
    {
      WalkAt(list0, flags, k, list, i, freed);
      var body := list[i];
      if body.removed {
        WalkDrop(list0, flags, k, list, i, freed);
        RetireStep(forces, list0, s0, flags, k, dt, rule, integrate, flags0, payloads, freed);
        list := list[..i] + list[i + 1..];
        freed := freed + [body];
      } else {
        WalkKeep(list0, flags, k, list, i, freed);
        IntegrateStep(list0, s0, flags, k, dt, rule, integrate, forces, flags0, payloads, freed);
        i := i + 1;
      }
      k := k + 1;
    }
    WalkEnd(list0, flags, k, list, i, freed);
  }

  /** Every body that the payload of an entry refers to is in `bodies0`, and the entry is scoped to it. */
  predicate PayloadsScoped(bodies0: seq<Body>, forces0: seq<ForceEntry>, payloads: seq<Payload>)
    requires |payloads| == |forces0|
  {
    forall q, b :: 0 <= q < |forces0| && b in BodiesOf(payloads[q]) ==> b in bodies0 && forces0[q].Scopes(b)
  }

  /**
   * After the body pass and the sweep, every body that an entry left in the
   * list refers to is a body left in the list: an entry referring to a freed
   * body was scoped to it, so the body pass flagged it and the sweep took it
   * out.
   */
  lemma SweptScoping(bodies0: seq<Body>, bflags: seq<bool>, forces0: seq<ForceEntry>, fflags: seq<bool>,
                     flags0: seq<bool>, payloads: seq<Payload>)
    requires |bflags| == |bodies0| && |fflags| == |forces0| && |flags0| == |forces0| && |payloads| == |forces0|
    requires PayloadsScoped(bodies0, forces0, payloads)
    requires forall q :: 0 <= q < |forces0| ==> fflags[q] == (flags0[q] || ScopesAny(forces0[q], Select(bodies0, bflags, true)))
    ensures forall q, b :: 0 <= q < |forces0| && !fflags[q] && b in BodiesOf(payloads[q]) ==> b in Select(bodies0, bflags, false)
  {
    forall q, b | 0 <= q < |forces0| && !fflags[q] && b in BodiesOf(payloads[q])
      ensures b in Select(bodies0, bflags, false)
    {
      var freed := Select(bodies0, bflags, true);
      assert b in bodies0 && forces0[q].Scopes(b);
      var i :| 0 <= i < |bodies0| && bodies0[i] == b;
      SelectMembers(bodies0, bflags, true, b);
      SelectMembers(bodies0, bflags, false, b);
    }
  }

  /**
   * The scene after the body pass and the sweep, from the lists `bodies0`
   * and `forces0` it started with: nothing is lost or duplicated, what stays
   * is live and what is freed is flagged, every entry scoped to a freed body
   * is freed, and the scene is valid again: its lists are selections of
   * valid lists, and the entries left refer only to the bodies left.
   */
  lemma Settled(s: Scene, bodies0: seq<Body>, bflags: seq<bool>, forces0: seq<ForceEntry>, fflags: seq<bool>,
                flags0: seq<bool>, payloads: seq<Payload>, freedBodies: seq<Body>, freedForces: seq<ForceEntry>)
    requires |bflags| == |bodies0| && |fflags| == |forces0| && |flags0| == |forces0| && |payloads| == |forces0|
    requires Separate(bodies0) && Distinct(forces0) && Distinct(s.texts)
    requires forall i :: 0 <= i < |bodies0| ==> bodies0[i].Valid() && bodies0[i].removed == bflags[i]
    requires PayloadsScoped(bodies0, forces0, payloads)
    requires forall q :: 0 <= q < |forces0| ==> fflags[q] == (flags0[q] || ScopesAny(forces0[q], freedBodies))
    requires forall q :: 0 <= q < |forces0| ==> forces0[q].payload == payloads[q] && forces0[q].removed == fflags[q]
    requires s.bodies == Select(bodies0, bflags, false) && freedBodies == Select(bodies0, bflags, true)
    requires s.forces == Select(forces0, fflags, false) && freedForces == Select(forces0, fflags, true)
    ensures multiset(s.bodies) + multiset(freedBodies) == multiset(bodies0)
    ensures forall b :: b in s.bodies ==> !b.removed
    ensures forall b :: b in freedBodies ==> b.removed
    ensures multiset(s.forces) + multiset(freedForces) == multiset(forces0)
    ensures forall f :: f in s.forces ==> !f.removed
    ensures forall f, b :: f in forces0 && b in freedBodies && f.Scopes(b) ==> f in freedForces
    ensures s.Valid()
  {
    SelectPartition(bodies0, bflags);
    SelectPartition(forces0, fflags);
    SelectSeparate(bodies0, bflags, false);
    SelectDistinct(forces0, fflags, false);
    SweptScoping(bodies0, bflags, forces0, fflags, flags0, payloads);
    forall b | b in s.bodies
      ensures b in bodies0 && !b.removed
    {
      SelectMembers(bodies0, bflags, false, b);
    }
    forall b | b in freedBodies
      ensures b.removed
    {
      SelectMembers(bodies0, bflags, true, b);
    }
    forall f | f in s.forces
      ensures !f.removed
    {
      SelectMembers(forces0, fflags, false, f);
    }
    forall f, b | f in forces0 && b in freedBodies && f.Scopes(b)
      ensures f in freedForces
    {
      var q :| 0 <= q < |forces0| && forces0[q] == f;
      var j :| 0 <= j < |freedBodies| && freedBodies[j] == b;
      SelectMembers(forces0, fflags, true, f);
    }
    forall i | 0 <= i < |s.bodies|
      ensures s.bodies[i].Valid()
    {
      SelectMembers(bodies0, bflags, false, s.bodies[i]);
    }
    forall k, b | 0 <= k < |s.forces| && b in BodiesOf(s.forces[k].payload)
      ensures b in s.bodies && s.forces[k].Scopes(b)
    {
      SelectMembers(forces0, fflags, false, s.forces[k]);
      var q :| 0 <= q < |forces0| && forces0[q] == s.forces[k] && !fflags[q];
      assert b in BodiesOf(payloads[q]);
      assert b in bodies0 && forces0[q].Scopes(b);
      assert b in Select(bodies0, bflags, false);
    }
  }

  /** The states of a list of texts. */
  ghost function TextStates(ts: seq<Text>): (r: seq<TextState>)
    reads ts
    ensures |r| == |ts| && forall k :: 0 <= k < |ts| ==> r[k] == ts[k].State()
  {
    if ts == [] then [] else TextStates(ts[..|ts| - 1]) + [ts[|ts| - 1].State()]
  }

  /**
   * The text pass of scene_tick_canon: every text not yet removed ticks
   * once; a removed text is left as it is. No body changes, so a body pass
   * that had reached its end (`bs`, `s0`, `flags`) stays so.
   */
  method TickTexts(texts: seq<Text>, dt: real, ghost bs: seq<Body>, ghost s0: seq<BodyState>, ghost flags: seq<bool>,
                   ghost rule: Integrator)
    requires Distinct(texts)
    requires |s0| == |bs| && |flags| == |bs| && forall j :: 0 <= j < |bs| ==> UsableMass(bs[j].mass)
    requires Reached(bs, s0, flags, |bs|, dt, rule, true)
    modifies texts
    ensures TextStates(texts) == TextsTicked(old(TextStates(texts)), dt)
    ensures Reached(bs, s0, flags, |bs|, dt, rule, true)
  {
    ghost var ts0 := TextStates(texts);
    var i := 0;
    while i < |texts|
      invariant 0 <= i <= |texts|
      invariant forall k :: 0 <= k < i ==> texts[k].State() == TextTicked(ts0[k], dt)
      invariant forall k :: i <= k < |texts| ==> unchanged(texts[k])
      invariant Reached(bs, s0, flags, |bs|, dt, rule, true)
    {
      var t := texts[i];
      if !t.removed {
        var _ := t.Tick(dt);
      }
      i := i + 1;
    }
  }

  /** scene_accel_reset, on a list of bodies: every acceleration is set to zero and nothing else changes. */
  method ResetAccelerations(bs: seq<Body>)
    requires Distinct(bs)
    modifies bs
    ensures forall j :: 0 <= j < |bs| ==> bs[j].State() == old(bs[j].State()).(acl := Zero)
  {
    var i := 0;
    while i < |bs|
      invariant 0 <= i <= |bs|
      invariant forall j :: 0 <= j < i ==> bs[j].State() == old(bs[j].State()).(acl := Zero)
      invariant forall j :: i <= j < |bs| ==> unchanged(bs[j])
    {
      bs[i].SetAcceleration(Zero);
      i := i + 1;
    }
  }

  class Scene {
    var bodies: seq<Body>
    var texts: seq<Text>
    var forces: seq<ForceEntry>
    var time: real
    var devMode: bool

    /**
     * What the scene keeps true: no body, shape buffer, text or force entry
     * is listed twice, every body has a mass the kernel can divide by, and
     * every body a force's argument refers to is in the scene and in that
     * force's scoped list, so that removing the body also retires the force.
     */
    ghost predicate Valid()
      reads this`bodies, this`texts, this`forces, forces
    {
      && Separate(bodies) && Distinct(texts) && Distinct(forces)
      && (forall i :: 0 <= i < |bodies| ==> bodies[i].Valid())
      && (forall k, b :: 0 <= k < |forces| && b in BodiesOf(forces[k].payload) ==> b in bodies && forces[k].Scopes(b))
    }

    /** Every force entry has a scoped list, which scene_remove_forces_from_body dereferences. */
    predicate AllScoped()
      reads this`forces
    {
      forall k :: 0 <= k < |forces| ==> forces[k].bodies.Some?
    }

    /** Every force creator can run on its current argument. */
    ghost predicate Runnables(m: MathLib)
      reads this`forces, forces, set k, o | 0 <= k < |forces| && o in Watched(forces[k].payload) :: o
    {
      forall k :: 0 <= k < |forces| ==> Runnable(m, forces[k].law, forces[k].payload)
    }

    /** What the force creators may change. */
    ghost function Touched(): set<object>
      reads this`forces, forces
    {
      Touching(Payloads(forces))
    }

    /** The shape buffers of the bodies. */
    ghost function Shapes(): set<object>
      reads this`bodies
    {
      set b | b in bodies :: b.shape
    }

    /** scene_init */
    constructor Init()
      ensures bodies == [] && texts == [] && forces == [] && time == 0.0 && !devMode
      ensures Valid()
    {
      bodies := [];
      texts := [];
      forces := [];
      time := 0.0;
      devMode := false;
    }

    /** A body that can join the scene without breaking Valid. */
    predicate Joinable(body: Body)
      reads this`bodies
    {
      body.Valid() && body !in bodies && forall b :: b in bodies ==> b.shape != body.shape
    }

    /** scene_add_body: the body is appended; nothing else changes. */
    method AddBody(body: Body)
      modifies this
      ensures bodies == old(bodies) + [body]
      ensures texts == old(texts) && forces == old(forces) && time == old(time) && devMode == old(devMode)
      ensures old(Valid() && Joinable(body)) ==> Valid()
    {
      bodies := bodies + [body];
    }

    /** scene_add_text: the text is appended; nothing else changes. */
    method AddText(text: Text)
      modifies this
      ensures texts == old(texts) + [text]
      ensures bodies == old(bodies) && forces == old(forces) && time == old(time) && devMode == old(devMode)
      ensures old(Valid()) && text !in old(texts) ==> Valid()
    {
      texts := texts + [text];
    }

    /** scene_get_body: list_get asserts the index is in range. */
    method GetBody(index: nat) returns (body: Body)
      requires index < |bodies|
      ensures body == bodies[index]
    {
      body := bodies[index];
    }

    /** scene_remove_body: the body is only flagged; the list is unchanged until the next tick. */
    method RemoveBody(index: nat)
      requires index < |bodies|
      modifies bodies[index]
      ensures bodies[index].State() == old(bodies[index].State()).(removed := true)
    {
      bodies[index].Remove();
    }

    /** scene_add_force_creator: a new unscoped entry is appended. */
    method AddForceCreator(law: Law, payload: Payload, freer: Freer) returns (force: ForceEntry)
      modifies this
      ensures fresh(force) && forces == old(forces) + [force]
      ensures force.law == law && force.payload == payload && force.freer == freer
      ensures !force.removed && force.bodies.None?
      ensures bodies == old(bodies) && texts == old(texts) && time == old(time) && devMode == old(devMode)
    {
      force := new ForceEntry.Init(law, payload, freer);
      forces := forces + [force];
    }

    /**
     * scene_add_bodies_force_creator: a new entry scoped to `scoped` is
     * appended. The scene stays valid when the bodies the argument refers to
     * are in the scene and in the scoped list.
     */
    method AddBodiesForceCreator(law: Law, payload: Payload, scoped: seq<Body>, freer: Freer) returns (force: ForceEntry)
      modifies this
      ensures fresh(force) && forces == old(forces) + [force]
      ensures force.law == law && force.payload == payload && force.freer == freer
      ensures !force.removed && force.bodies == Some(scoped)
      ensures bodies == old(bodies) && texts == old(texts) && time == old(time) && devMode == old(devMode)
      ensures old(Valid()) && (forall b :: b in BodiesOf(payload) ==> b in bodies && b in scoped) ==> Valid()
    {
      force := new ForceEntry.InitWithBodies(law, payload, freer, scoped);
      forces := forces + [force];
    }

    /** scene_remove_forces_from_body, on the scene's force list; see RetireForces. */
    method RemoveForcesFromBody(body: Body)
      requires AllScoped() && Distinct(forces)
      modifies forces
      ensures forall k :: 0 <= k < |forces| ==> forces[k].removed == (old(forces[k].removed) || forces[k].Scopes(body))
      ensures forall k :: 0 <= k < |forces| ==> forces[k].payload == old(forces[k].payload)
    {
      RetireForces(forces, body);
    }

    /** The body pass of scene_tick, on the scene's lists; see Pass. */
    method PassBodies(dt: real, rule: Integrator, integrate: bool) returns (freed: seq<Body>)
      requires Separate(bodies) && (forall i :: 0 <= i < |bodies| ==> UsableMass(bodies[i].mass))
      requires Distinct(forces) && AllScoped()
      modifies this, bodies, Shapes(), forces
      ensures bodies == Select(old(bodies), old(BodyFlags(bodies)), false)
      ensures freed == Select(old(bodies), old(BodyFlags(bodies)), true)
      ensures Reached(old(bodies), old(States(bodies)), old(BodyFlags(bodies)), |old(bodies)|, dt, rule, integrate)
      ensures forces == old(forces) && texts == old(texts) && time == old(time) && devMode == old(devMode)
      ensures Retired(forces, old(ForceFlags(forces)), old(Payloads(forces)), freed)
    {
      var kept;
      kept, freed := Pass(bodies, forces, dt, rule, integrate);
      bodies := kept;
    }

    /**
     * The sweep of scene_tick: the entries flagged removed are taken out and
     * freed, in order; the others stay, in order.
     */
    method Sweep() returns (freed: seq<ForceEntry>)
      modifies this
      ensures forces == Select(old(forces), old(ForceFlags(forces)), false)
      ensures freed == Select(old(forces), old(ForceFlags(forces)), true)
      ensures bodies == old(bodies) && texts == old(texts) && time == old(time) && devMode == old(devMode)
    {
      var kept;
      kept, freed := Prune(forces);
      forces := kept;
    }

    /**
     * The body pass and the sweep of scene_tick: the bodies that stay are
     * integrated, the flagged bodies and then the flagged force entries are
     * taken out and freed. The scene stays valid: in particular no entry left
     * refers to a freed body.
     */
    method Settle(dt: real, rule: Integrator, integrate: bool) returns (freedBodies: seq<Body>, freedForces: seq<ForceEntry>)
      requires Valid() && AllScoped()
      modifies this, bodies, Shapes(), forces
      ensures time == old(time) && texts == old(texts) && devMode == old(devMode)
      ensures multiset(bodies) + multiset(freedBodies) == multiset(old(bodies))
      ensures forall b :: b in bodies ==> !b.removed
      ensures forall b :: b in freedBodies ==> b.removed
      ensures multiset(forces) + multiset(freedForces) == multiset(old(forces))
      ensures forall f :: f in forces ==> !f.removed
      ensures forall f, b :: f in old(forces) && b in freedBodies && f.Scopes(b) ==> f in freedForces
      ensures bodies == Select(old(bodies), old(BodyFlags(bodies)), false)
      ensures freedBodies == Select(old(bodies), old(BodyFlags(bodies)), true)
      ensures Reached(old(bodies), old(States(bodies)), old(BodyFlags(bodies)), |old(bodies)|, dt, rule, integrate)
      ensures Valid()
    {
      ghost var bodies0, forces0 := bodies, forces;
      ghost var bflags, flags0, payloads := BodyFlags(bodies), ForceFlags(forces), Payloads(forces);
      freedBodies := PassBodies(dt, rule, integrate);
      ghost var fflags := ForceFlags(forces);
      freedForces := Sweep();
      Settled(this, bodies0, bflags, forces0, fflags, flags0, payloads, freedBodies, freedForces);
    }

    /**
     * The common course of scene_tick, scene_tick_canon (up to the texts)
     * and scene_tick_canon_no_reset: every force creator runs once, the time
     * advances, then the body pass and the sweep. `mid` and `flags` are the
     * states and removal flags of the bodies between the force pass and the
     * body pass. `rule` is the integration of the bodies that stay, and
     * `integrate` whether the body pass integrates them at all.
     */
    method Advance(m: MathLib, dt: real, rule: Integrator, integrate: bool)
      returns (calls: seq<Option<HandlerCall>>, freedBodies: seq<Body>, freedForces: seq<ForceEntry>,
               ghost mid: seq<BodyState>, ghost flags: seq<bool>)
      requires Lawful(m) && Valid() && AllScoped() && Runnables(m)
      modifies this, Touched(), bodies, Shapes(), forces
      ensures time == old(time) + dt && texts == old(texts) && devMode == old(devMode)
      ensures |calls| == |old(forces)|
      ensures forall k :: 0 <= k < |calls| ==> CallFits(old(forces)[k].law, old(forces[k].payload), calls[k])
      ensures |mid| == |old(bodies)| && |flags| == |mid|
      ensures ForcePassed(old(bodies), old(States(bodies)), mid, old(Referred(Payloads(forces))), old(Doomed(forces, Payloads(forces))))
      ensures forall j :: 0 <= j < |mid| ==> flags[j] == mid[j].removed
      ensures bodies == Select(old(bodies), flags, false) && freedBodies == Select(old(bodies), flags, true)
      ensures Reached(old(bodies), mid, flags, |old(bodies)|, dt, rule, integrate)
      ensures multiset(bodies) + multiset(freedBodies) == multiset(old(bodies))
      ensures forall b :: b in bodies ==> !b.removed
      ensures forall b :: b in freedBodies ==> b.removed
      ensures multiset(forces) + multiset(freedForces) == multiset(old(forces))
      ensures forall f :: f in forces ==> !f.removed
      ensures forall f, b :: f in old(forces) && b in freedBodies && f.Scopes(b) ==> f in freedForces
      ensures Valid()
    {
      calls, mid, flags := RunForces(m, dt);
      assert mid == States(bodies) && flags == BodyFlags(bodies);
      freedBodies, freedForces := Settle(dt, rule, integrate);
    }

    /**
     * The first half of Advance: every force creator runs once, then the
     * time advances. The C code adds dt to time_s before the force pass; no
     * creator reads the time of the scene, so the state after both steps is
     * the same in either order. The lists are kept, and so is the validity
     * of the scene; `mid` and `flags` are the states and removal flags of
     * the bodies after the force pass.
     */
    method RunForces(m: MathLib, dt: real)
      returns (calls: seq<Option<HandlerCall>>, ghost mid: seq<BodyState>, ghost flags: seq<bool>)
      requires Lawful(m) && Valid() && AllScoped() && Runnables(m)
      modifies this, Touched()
      ensures time == old(time) + dt && texts == old(texts) && devMode == old(devMode)
      ensures bodies == old(bodies) && forces == old(forces)
      ensures |calls| == |old(forces)|
      ensures forall k :: 0 <= k < |calls| ==> CallFits(old(forces)[k].law, old(forces[k].payload), calls[k])
      ensures |mid| == |bodies| && |flags| == |bodies|
      ensures forall j :: 0 <= j < |bodies| ==> mid[j] == bodies[j].State() && flags[j] == mid[j].removed
      ensures ForcePassed(bodies, old(States(bodies)), mid, old(Referred(Payloads(forces))), old(Doomed(forces, Payloads(forces))))
      ensures Valid() && AllScoped()
    {
      ghost var ps := Payloads(forces);
      calls := ApplyForces(m, forces, bodies);
      assert Payloads(forces) == ps;
      mid, flags := States(bodies), BodyFlags(bodies);
      time := time + dt;
    }

    /**
     * scene_tick: Advance with body_tick. Every body left took one
     * body_tick step from its state after the force pass.
     */
    method Tick(m: MathLib, dt: real)
      returns (calls: seq<Option<HandlerCall>>, freedBodies: seq<Body>, freedForces: seq<ForceEntry>,
               ghost mid: seq<BodyState>, ghost flags: seq<bool>)
      requires Lawful(m) && Valid() && AllScoped() && Runnables(m)
      modifies this, Touched(), bodies, Shapes(), forces
      ensures time == old(time) + dt && texts == old(texts)
      ensures |mid| == |old(bodies)| && |flags| == |mid|
      ensures ForcePassed(old(bodies), old(States(bodies)), mid, old(Referred(Payloads(forces))), old(Doomed(forces, Payloads(forces))))
      ensures forall j :: 0 <= j < |mid| ==> flags[j] == mid[j].removed
      ensures bodies == Select(old(bodies), flags, false) && freedBodies == Select(old(bodies), flags, true)
      ensures Reached(old(bodies), mid, flags, |old(bodies)|, dt, Midpoint, true)
      ensures multiset(forces) + multiset(freedForces) == multiset(old(forces))
      ensures forall f, b :: f in old(forces) && b in freedBodies && f.Scopes(b) ==> f in freedForces
      ensures Valid()
    {
      calls, freedBodies, freedForces, mid, flags := Advance(m, dt, Midpoint, true);
    }

    /**
     * scene_tick_canon: Advance with body_tick_canon, then every text not
     * yet removed ticks once. Drawing the glow of a body is rendering only.
     */
    method TickCanon(m: MathLib, dt: real)
      returns (calls: seq<Option<HandlerCall>>, freedBodies: seq<Body>, freedForces: seq<ForceEntry>,
               ghost mid: seq<BodyState>, ghost flags: seq<bool>)
      requires Lawful(m) && Valid() && AllScoped() && Runnables(m)
      modifies this, Touched(), bodies, Shapes(), forces, texts
      ensures time == old(time) + dt && texts == old(texts)
      ensures |mid| == |old(bodies)| && |flags| == |mid|
      ensures ForcePassed(old(bodies), old(States(bodies)), mid, old(Referred(Payloads(forces))), old(Doomed(forces, Payloads(forces))))
      ensures forall j :: 0 <= j < |mid| ==> flags[j] == mid[j].removed
      ensures bodies == Select(old(bodies), flags, false) && freedBodies == Select(old(bodies), flags, true)
      ensures Reached(old(bodies), mid, flags, |old(bodies)|, dt, Canon, true)
      ensures TextStates(texts) == TextsTicked(old(TextStates(texts)), dt)
      ensures Valid()
    {
      assert forall k :: 0 <= k < |texts| ==> texts[k] !in Touched() && texts[k] !in Shapes();
      calls, freedBodies, freedForces, mid, flags := Advance(m, dt, Canon, true);
      assert TextStates(texts) == old(TextStates(texts));
      assert Valid();
      TickTexts(texts, dt, old(bodies), mid, flags, Canon);
    }

    /**
     * scene_tick_canon_no_reset as written: the body pass only takes the
     * flagged bodies out; the one call of body_tick_canon_no_reset is made
     * on a body already freed, so no body left is integrated.
     */
    method TickCanonNoResetAsWritten(m: MathLib, dt: real)
      returns (calls: seq<Option<HandlerCall>>, freedBodies: seq<Body>, freedForces: seq<ForceEntry>,
               ghost mid: seq<BodyState>, ghost flags: seq<bool>)
      requires Lawful(m) && Valid() && AllScoped() && Runnables(m)
      modifies this, Touched(), bodies, Shapes(), forces
      ensures time == old(time) + dt && texts == old(texts)
      ensures |mid| == |old(bodies)| && |flags| == |mid|
      ensures ForcePassed(old(bodies), old(States(bodies)), mid, old(Referred(Payloads(forces))), old(Doomed(forces, Payloads(forces))))
      ensures forall j :: 0 <= j < |mid| ==> flags[j] == mid[j].removed
      ensures bodies == Select(old(bodies), flags, false) && freedBodies == Select(old(bodies), flags, true)
      ensures Reached(old(bodies), mid, flags, |old(bodies)|, dt, CanonNoReset, false)
      ensures Valid()
    {
      calls, freedBodies, freedForces, mid, flags := Advance(m, dt, CanonNoReset, false);
    }

    /**
     * scene_tick_canon_no_reset as evidently intended: Advance with
     * body_tick_canon_no_reset on every body that stays.
     */
    method TickCanonNoReset(m: MathLib, dt: real)
      returns (calls: seq<Option<HandlerCall>>, freedBodies: seq<Body>, freedForces: seq<ForceEntry>,
               ghost mid: seq<BodyState>, ghost flags: seq<bool>)
      requires Lawful(m) && Valid() && AllScoped() && Runnables(m)
      modifies this, Touched(), bodies, Shapes(), forces
      ensures time == old(time) + dt && texts == old(texts)
      ensures |mid| == |old(bodies)| && |flags| == |mid|
      ensures ForcePassed(old(bodies), old(States(bodies)), mid, old(Referred(Payloads(forces))), old(Doomed(forces, Payloads(forces))))
      ensures forall j :: 0 <= j < |mid| ==> flags[j] == mid[j].removed
      ensures bodies == Select(old(bodies), flags, false) && freedBodies == Select(old(bodies), flags, true)
      ensures Reached(old(bodies), mid, flags, |old(bodies)|, dt, CanonNoReset, true)
      ensures multiset(forces) + multiset(freedForces) == multiset(old(forces))
      ensures forall f, b :: f in old(forces) && b in freedBodies && f.Scopes(b) ==> f in freedForces
      ensures Valid()
    {
      calls, freedBodies, freedForces, mid, flags := Advance(m, dt, CanonNoReset, true);
    }

    /** scene_accel_reset: every body's acceleration is set to zero and nothing else changes. */
    method AccelReset()
      requires Valid()
      modifies bodies
      ensures forall j :: 0 <= j < |bodies| ==> bodies[j].State() == old(bodies[j].State()).(acl := Zero)
    {
      ResetAccelerations(bodies);
    }
  }
}
