# game-tonks physics kernel in Dafny

This project models the library of game-tonks, a small 2D game engine written in C. It covers the rigid-body kernel: the growable pointer list, vector and polygon geometry, the separating-axis collision test, bodies and their integrators, the force laws and their registration, and the scene tick. It also covers two small state machines built on top of that kernel: the countdown of on-screen texts and the bookkeeping of a player.

Each C file becomes one Dafny module in a file of the same name:

| C file | Module |
|---|---|
| list.c | `Lists` in list.dfy |
| vector.c | `Vectors` in vector.dfy |
| color.c | `Colors` in color.dfy |
| polygon.c | `Polygons` in polygon.dfy |
| utils.c | `Utils` in utils.dfy |
| collision.c | `Collision` in collision.dfy |
| body.c | `Bodies` in body.dfy |
| aux.c | `Auxes` in aux.dfy |
| collision_package.c | `Packages` in collision_package.dfy |
| forces.c, the laws | `Forces` in forces.dfy |
| forces.c, the create_* helpers | `Registration` in registration.dfy |
| force_wrapper.c | `ForceWrappers` in force_wrapper.dfy |
| scene.c | `Scenes` in scene.dfy |
| text.c | `Texts` in text.dfy |
| player.c | `Players` in player.dfy |

Three helper modules have no C file of their own. `Options` in option.dfy holds a NULL-able value. `Selections` in selection.dfy holds the index walk that scene.c uses to prune a list. `Releases` in release.dfy holds the release events that the free functions of body.c, aux.c, collision_package.c and force_wrapper.c report.

How the C code is represented:

- **Numbers.** `double` and `float` are modelled as `real`.
- **The math library.** The C functions `sqrt`, `sin`, `cos` and `acos` are the fields of a `MathLib` value that callers pass in. `Lawful` states the only facts about them the proofs rely on.
- **Mass.** A mass is `Finite(m)` or `Infinite`. The inverse mass of `Infinite` is 0, as `1.0 / INFINITY` is in C.
- **Objects updated in place.** Bodies, force entries, texts, scenes, players and lists are classes whose methods update their fields in place.
- **Buffers.**
  - A body's shape is the vertex array it owns. Translation and rotation rewrite that array.
  - The scene's three lists are sequence fields. The methods reassign them with the effect of `list_add` and `list_remove`.
- **Function pointers.** They become datatypes. `Law` names a force creator. `Freer` names a free function. `Handler` is either `normal_collision_handler` or a handler of the host program.
- **The host program.** Its handlers and force creators are given no effect. Each call made to a handler is reported as a `HandlerCall` value.
- **Freeing.** What the free functions release is reported as a sequence of `Release` events, in the order the C code releases them.
- **Specifications.**
  - The pure parts (geometry, force laws, integrators, the collision test) are functions, with lemmas about them.
  - Most loops of the C code are methods proved equal to a function that specifies them, or to a stated new state.
  - The force pass is the exception. Each creator is proved to do what its law states, one entry at a time. The pass as a whole is proved only in what it keeps (`ForcePassed`), not as the composition of the laws.
  - The scene tick is proved pass by pass:
    - the force pass: every body only accumulates acceleration and impulse, a body no entry refers to keeps its whole state, and only a destroying entry flags a body removed; this holds when no host handler or host creator changes the scene;
    - the body pass and the sweep keep the unflagged elements in order and free the flagged ones;
    - no force left in the scene refers to a freed body.

## Model

| member | source | states |
|---|---|---|
| Vectors.AddZeroIdentity | game-tonks/library/vector.c:6-9 | vec_add has VEC_ZERO as identity on both sides |
| Vectors.AddCommutes | game-tonks/library/vector.c:6-9 | vec_add is commutative |
| Vectors.AddAssociates | game-tonks/library/vector.c:6-9 | vec_add is associative |
| Vectors.SubtractSelf | game-tonks/library/vector.c:11-20 | v - v is the zero vector (subtract = add the negation, negation = multiply by -1) |
| Vectors.SubtractThenAdd | game-tonks/library/vector.c:6-20 | (a - b) + b == a, and a - b is the negation of b - a |
| Vectors.DotSymmetric | game-tonks/library/vector.c:21-23 | vec_dot is symmetric |
| Vectors.DotSelfNonNegative | game-tonks/library/vector.c:21-23 | v . v >= 0, and it is 0 exactly for the zero vector |
| Vectors.CrossAntisymmetric | game-tonks/library/vector.c:25-27 | vec_cross changes sign when its arguments swap and is 0 on equal arguments |
| Vectors.PerpendicularOrthogonal | game-tonks/library/vector.c:45-47 | the quarter turn is orthogonal to v, keeps v . v, and applied twice negates v |
| Vectors.EqualsIsEquality | game-tonks/library/vector.c:49-51 | vec_equals holds exactly for equal vectors: reflexive and symmetric |
| Vectors.TrimBounds | game-tonks/library/vector.c:53-67 | with a non-negative bound every trimmed component lies in [-bound, bound]; a component already inside is kept; trimming twice equals trimming once |
| Vectors.TrimNegativeBound | game-tonks/library/vector.c:53-67 | with a negative x bound the later upper clamp wins, so x becomes the bound itself |
| Vectors.DistSymmetric | game-tonks/library/vector.c:37-39 | vec_dist(a, b) == vec_dist(b, a) |
| Vectors.NormZeroIff | game-tonks/library/vector.c:35 | vec_norm is non-negative and 0 exactly for the zero vector |
| Vectors.NormalizeIsUnit | game-tonks/library/vector.c:41-43 | vec_normalize of a non-zero vector has norm 1 |
| Vectors.NormalizeUnitFixed | game-tonks/library/vector.c:41-43 | vec_normalize leaves a unit vector unchanged |
| Vectors.AngleSymmetric | game-tonks/library/vector.c:69-71 | vec_angle(a, b) == vec_angle(b, a) for non-zero vectors |
| Vectors.RotateFixes | game-tonks/library/vector.c:29-33 | vec_rotate fixes the zero vector, and rotating by angle 0 changes nothing |
| Vectors.RotateSubtract | game-tonks/library/vector.c:29-33 | vec_rotate is linear: it distributes over subtraction |
| Vectors.RotateAdd | game-tonks/library/vector.c:29-33 | vec_rotate distributes over addition |
| Colors.Inverted | game-tonks/library/color.c:2-4 | each colour channel of the result complements the input's to 1; alpha is kept |
| Colors.InvertedInvolution | game-tonks/library/color.c:2-4 | inverting twice gives back the colour |
| Colors.InvertedInRange | game-tonks/library/color.c:2-4 | inversion keeps every channel in [0, 1] |
| Colors.InvertedFixedPoint | game-tonks/library/color.c:2-4 | a colour is its own inverse exactly when r, g and b are all 0.5 |
| Colors.EqualsIsEquality | game-tonks/library/color.c:6-8 | color_equals holds exactly for equal colours, alpha included: reflexive and symmetric |
| Utils.Rgba | game-tonks/library/utils.c:8-11 | every channel of the result times 255 is the channel given |
| Utils.RgbaInRange | game-tonks/library/utils.c:8-11 | channels in 0..255 give a colour in the documented 0..1 range |
| Utils.MakeRectangle | game-tonks/library/utils.c:50-66 | the rectangle has exactly four corners |
| Utils.RectangleCorners | game-tonks/library/utils.c:50-66 | each corner is the center moved by plus or minus half the width and half the height; the corners average to the center; the third corner minus the first is (width, height) |
| Utils.RectangleSums | game-tonks/library/utils.c:50-66 | the shoelace sum of the rectangle is width * height, and its two centroid sums are 6 * width * height times the center's coordinates |
| Utils.RectangleArea | game-tonks/library/utils.c:50-66 | polygon_area of the rectangle is abs(width * height); with positive sides the corners run counter-clockwise |
| Utils.RectangleCentroid | game-tonks/library/utils.c:50-66 | a rectangle that is not flat has its center as centroid |
| Utils.ClockwiseSquareCentroid | game-tonks/library/polygon.c:21-40 | the unit square walked clockwise has signed area -1; polygon_centroid as written puts its centroid at (-0.5, -0.5); the corrected centroid is (0.5, 0.5) |
| Polygons.Reverse | game-tonks/library/polygon.c:10-40 | the same outline walked the other way: same length, vertex i is vertex n-1-i |
| Polygons.Area | game-tonks/library/polygon.c:10-19 | polygon_area is non-negative and is plus or minus the signed shoelace sum |
| Polygons.Translated | game-tonks/library/polygon.c:42-47 | the translated polygon has the same number of vertices |
| Polygons.Rotated | game-tonks/library/polygon.c:49-60 | the rotated polygon has the same number of vertices |
| Polygons.SignedAreaSum | game-tonks/library/polygon.c:11-17 | the accumulating loop over i mod n and (i + 1) mod n returns the signed shoelace sum of the array |
| Polygons.PolygonArea | game-tonks/library/polygon.c:10-19 | polygon_area returns the absolute signed area, which is non-negative |
| Polygons.PolygonCentroid | game-tonks/library/polygon.c:21-40 | the loops compute the centroid divided by 6 times the signed area (the corrected centroid; see Findings) |
| Polygons.Translate | game-tonks/library/polygon.c:42-47 | the array afterwards is the old polygon with every vertex moved by t |
| Polygons.RotateInPlace | game-tonks/library/polygon.c:49-60 | the array afterwards is the old polygon with every vertex turned by the angle around the pivot |
| Polygons.LoopSumFour | game-tonks/library/polygon.c:12-17 | for four vertices the loop sums the four edges, the last one closing back to vertex 0 |
| Polygons.LoopSumIsPathSum | game-tonks/library/polygon.c:12-17 | before the closing edge the modular loop sums the open path of the first k + 1 vertices |
| Polygons.CycleSumSplit | game-tonks/library/polygon.c:12-17 | the whole loop is the open path plus the edge from the last vertex back to the first |
| Polygons.PathSumFront | game-tonks/library/polygon.c:12-17 | an open path sum splits off its first edge |
| Polygons.PathSumReverse | game-tonks/library/polygon.c:12-17 | walking an open path backwards negates a sum of antisymmetric edge terms |
| Polygons.CycleSumReverse | game-tonks/library/polygon.c:12-17 | walking a closed polygon backwards negates a sum of antisymmetric edge terms |
| Polygons.TermsAntisymmetric | game-tonks/library/polygon.c:16-30 | the shoelace term and both centroid terms change sign when an edge is walked backwards |
| Polygons.AreaReverse | game-tonks/library/polygon.c:10-19 | reversing the vertex order negates the signed area and keeps polygon_area |
| Polygons.TranslatedLoopSum | game-tonks/library/polygon.c:12-17 | moving the polygon by t adds t.x times the rise from vertex 0 to vertex k mod n to the partial shoelace sum |
| Polygons.TranslatePreservesArea | game-tonks/library/polygon.c:10-19 | polygon_translate keeps the signed area and polygon_area |
| Polygons.CentroidReverse | game-tonks/library/polygon.c:21-40 | the corrected centroid does not depend on the direction the outline is walked |
| Polygons.CentroidAsWrittenReflects | game-tonks/library/polygon.c:21-40 | as written, the centroid is right for counter-clockwise polygons and reflected through the origin for clockwise ones |
| Polygons.TranslateZero | game-tonks/library/polygon.c:42-47 | translating by the zero vector changes nothing |
| Polygons.TranslateCompose | game-tonks/library/polygon.c:42-47 | translating by a and then by b is translating by a + b |
| Polygons.RotatePivotFixed | game-tonks/library/polygon.c:49-60 | a vertex at the pivot stays there, and rotating by 0 changes nothing |
| Polygons.RotateTranslateCommute | game-tonks/library/polygon.c:49-60 | rotating about a pivot commutes with translating both the polygon and the pivot |
| Lists.List.Init | game-tonks/library/list.c:22-31 | list_init: an empty list with the capacity asked for, a fresh buffer, and the free function recorded |
| Lists.List.Resize | game-tonks/library/list.c:33-38 | list_resize: the capacity becomes capacity * 2 + 1 in a fresh buffer that begins with the old slots; size and contents are kept |
| Lists.List.Add | game-tonks/library/list.c:40-47 | list_add appends the element; the buffer grows exactly when the list was full and is kept otherwise |
| Lists.List.Remove | game-tonks/library/list.c:49-60 | list_remove returns the element at the index and leaves the others in order with the gap closed; capacity and buffer are kept |
| Lists.List.Get | game-tonks/library/list.c:62-66 | list_get returns the element at the index |
| Lists.List.Size | game-tonks/library/list.c:79 | list_size is the number of elements held |
| Lists.List.Free | game-tonks/library/list.c:68-77 | list_free hands every element, in order, to the free function when there is one, and none otherwise |
| Texts.Countdown | game-tonks/library/text.c:54-61 | an infinite duration stays infinite; a finite one drops by dt and is clamped at 0 once it reaches 0 |
| Texts.TextTicked | game-tonks/library/text.c:47-61 | a removed text is left as it is; a live one counts down and becomes removed exactly when its duration runs out |
| Texts.TextsTicked | game-tonks/library/text.c:54-61 | ticking a list of texts ticks each one on its own |
| Texts.Text.Init | game-tonks/library/text.c:8-19 | text_init: the text starts live with the given duration |
| Texts.Text.Remove | game-tonks/library/text.c:47-52 | text_remove: the text ends removed; a live text has its duration set to 0, a removed one keeps its duration |
| Texts.Text.Tick | game-tonks/library/text.c:54-66 | text_tick: the duration counts down, the text is removed when it was or when the duration ran out, and it is rendered exactly when it is still live |
| Texts.Countdowns | game-tonks/library/text.c:54-61 | over a series of ticks an infinite duration stays infinite |
| Texts.Total | game-tonks/library/text.c:54-61 | a sum of non-negative tick lengths is non-negative |
| Texts.CountdownsTotal | game-tonks/library/text.c:54-61 | a series of non-negative ticks counts a finite duration down by their total, clamped at 0 |
| Auxes.Cell.Init | game-tonks/library/aux.c:9-14 | a heap double holding the given value, as the creators allocate for aux constants |
| Auxes.CellsReleased | game-tonks/library/list.c:68-77 | list_free with free releases each constant, in order |
| Auxes.AuxFree | game-tonks/library/aux.c:20-28 | aux_free releases the constants and their list exactly when the constants list is non-NULL, then the bodies list without its elements, then the record: bodies list and record once each, last |
| Packages.Handle | game-tonks/library/collision_package.c:16-27 | collision_package_handle calls the handler once, with the stored bodies in order, the collision axis and the stored aux, exactly when find_collision reports a collision; only normal_collision_handler changes state, and of the two bodies it changes only their impulses |
| Packages.PackageFree | game-tonks/library/collision_package.c:29-35 | collision_package_free calls the aux free function only when it is non-NULL, and then releases the package record |
| ForceWrappers.Run | game-tonks/library/force_wrapper.c:39 | running a creator does what that law of forces.c states and keeps every body's position, velocity, centroid, angle, vertices, colour and glow; only destructive_collision_creator flags a body removed, and a set flag stays set; it makes a handler call only for a collision force, with the package's handler, bodies in order and aux |
| ForceWrappers.ForceEntry.Init | game-tonks/library/force_wrapper.c:18-27 | force_init: the creator, argument and free function are stored, the entry is not removed and has no scoped list |
| ForceWrappers.ForceEntry.InitWithBodies | game-tonks/library/force_wrapper.c:29-35 | force_init_with_bodies: as force_init, with the scoped bodies list stored |
| ForceWrappers.ForceEntry.SetAux | game-tonks/library/force_wrapper.c:43 | force_set_aux replaces the argument and keeps the removal flag |
| ForceWrappers.ForceEntry.Remove | game-tonks/library/force_wrapper.c:45 | force_remove sets the flag whatever it was and keeps the argument |
| ForceWrappers.ForceEntry.Create | game-tonks/library/force_wrapper.c:39 | force_create runs the entry's creator once on its current argument, with the effect Run states |
| ForceWrappers.ForceEntry.FreeEvents | game-tonks/library/force_wrapper.c:49-57 | force_free calls the free function when there is one, otherwise frees the scoped list when there is one, never both, and releases the entry record last |
| Forces.GravityCreator | game-tonks/library/forces.c:14-32 | gravity_force_creator: closer than MIN_DIST (30) neither body changes; otherwise the first body is pushed by G m1 m2 / r^2 toward the second and the second by the opposite force, and the two bodies are distinct; with an INFINITY mass only the two accelerations change |
| Forces.GravityVector | game-tonks/library/forces.c:23-28 | the step-by-step force computation equals the gravity law |
| Forces.ApartMeansDistinct | game-tonks/library/forces.c:21-22 | centroids at least MIN_DIST apart are different points |
| Forces.SpringCreator | game-tonks/library/forces.c:52-63 | spring_force_creator pushes only the first body, by -k times its centroid's displacement from the second |
| Forces.DragCreator | game-tonks/library/forces.c:81-89 | drag_force_creator pushes the body by -gamma times its velocity at the time of the call |
| Forces.AppliedCreator | game-tonks/library/forces.c:106-113 | applied_force_creator pushes the body by the current value of the magnitude cell along its unit velocity |
| Forces.DestructiveCreator | game-tonks/library/forces.c:128-140 | destructive_collision_creator flags both bodies removed, and changes nothing else, exactly when find_collision reports a collision; otherwise neither body changes |
| Forces.PhysicsInfo.Init | game-tonks/library/forces.c:197-205 | the info list starts with the impulsed-last-tick flag down and the given elasticity |
| Forces.NormalCollisionHandler | game-tonks/library/forces.c:174-191 | normal_collision_handler sets the flag to "collided and not impulsed last tick", and applies the elastic impulse exactly when that flag is raised; otherwise the bodies are untouched; either way only the two impulses can change |
| Forces.RaiseAndImpulse | game-tonks/library/forces.c:183-185 | the firing branch, on a collision while the flag is down, raises the flag and applies body_add_elastic_impulse with the stored elasticity; nothing of the bodies but their impulses changes |
| Forces.LowerFlag | game-tonks/library/forces.c:186-188 | the other branch, with no collision or the flag already up, lowers the flag and leaves both bodies untouched |
| Forces.GravityAlongSeparation | game-tonks/library/forces.c:23-28 | the gravity force is G m1 m2 / n^3 times c2 - c1, with a non-negative factor when G m1 m2 >= 0 |
| Forces.GravityConservesMomentum | game-tonks/library/forces.c:29-30 | the mass-weighted acceleration changes of the pair cancel, so total momentum is kept |
| Forces.SpringRestores | game-tonks/library/forces.c:59-62 | with k >= 0 the spring force never points along the displacement, and it vanishes when the centroids coincide |
| Forces.DragOpposesMotion | game-tonks/library/forces.c:86-88 | with gamma >= 0 drag never points along the velocity, and it vanishes at rest |
| Forces.AppliedForceAlongMotion | game-tonks/library/forces.c:111 | the applied force is magnitude / speed times the velocity |
| Forces.Impulses | game-tonks/library/forces.c:183-188 | the firing pattern of a run of ticks has one entry per tick |
| Forces.ImpulsesAlternate | game-tonks/library/forces.c:183-188 | over a run of ticks the impulse fires only on contact ticks, and on those exactly when the number of earlier contacts has the parity the starting flag selects: first, third, fifth contact from a lowered flag |
| Bodies.InvMass | game-tonks/library/body.c:129 | 1.0 / mass is 0 for an INFINITY mass, and times a finite mass gives 1 |
| Bodies.Body.Init | game-tonks/library/body.c:43-60 | body_init: the body owns the vertex list, is at rest with no acceleration or impulse, angle 0, not removed, not glowing, no info, and its centroid is the shape's centroid; for a counter-clockwise outline that is the value polygon_centroid returns as written |
| Bodies.Body.InitWithInfo | game-tonks/library/body.c:62-68 | body_init_with_info: as body_init, with the info pointer and its free function stored; for a counter-clockwise outline the centroid is the value polygon_centroid returns as written |
| Bodies.Body.Free | game-tonks/library/body.c:70-77 | body_free releases the vertex list first and the body record last, each exactly once, and calls the info free function on the info pointer once when there is one and never otherwise |
| Bodies.Body.GetShape | game-tonks/library/body.c:81-92 | body_get_shape returns a fresh copy holding the same vertices in order |
| Bodies.Body.SetPosition | game-tonks/library/body.c:100 | only the position changes |
| Bodies.Body.SetVelocity | game-tonks/library/body.c:104 | only the velocity changes |
| Bodies.Body.SetAcceleration | game-tonks/library/body.c:108-110 | only the acceleration changes |
| Bodies.Body.SetColor | game-tonks/library/body.c:120 | only the colour changes |
| Bodies.Body.SetGlow | game-tonks/library/body.c:204-206 | only the glow flag changes |
| Bodies.Body.SetGlowRadius | game-tonks/library/body.c:212-214 | only the glow radius changes |
| Bodies.Body.SetCentroid | game-tonks/library/body.c:114-118 | body_set_centroid translates the vertices by the new centroid minus the old and stores the new centroid; nothing else changes |
| Bodies.Body.SetRotation | game-tonks/library/body.c:122-125 | body_set_rotation turns the vertices about the centroid by the new angle minus the old and stores the new angle; nothing else changes |
| Bodies.Body.AddForce | game-tonks/library/body.c:127-131 | body_add_force adds force / mass to the acceleration; nothing else changes |
| Bodies.Body.AddImpulse | game-tonks/library/body.c:196-198 | body_add_impulse adds to the accumulated impulse; nothing else changes |
| Bodies.Body.Tick | game-tonks/library/body.c:227-242 | body_tick: the new velocity adds dt * acceleration and impulse / mass; position, centroid and vertices move by dt times the mean of the old and new velocity; acceleration and impulse are cleared |
| Bodies.Body.TickCanon | game-tonks/library/body.c:244-258 | body_tick_canon: the same, moving by dt times the new velocity |
| Bodies.Body.TickCanonNoReset | game-tonks/library/body.c:260-273 | body_tick_canon_no_reset: as body_tick_canon, but the acceleration is kept |
| Bodies.Body.Remove | game-tonks/library/body.c:275 | body_remove sets the flag and changes nothing else |
| Bodies.AddElasticImpulse | game-tonks/library/body.c:170-194 | body_add_elastic_impulse turns the collision axis toward the second centroid; the first body's impulse grows by s * axis and the second's by -s * axis, with s = reduced mass * (1 + e) * (u_b - u_a); nothing else changes, and on one body twice the two cancel; when the reduced mass is not a real number (two INFINITY masses, or finite masses summing to zero) only the two impulses change |
| Bodies.OrientedCollisionAxis | game-tonks/library/body.c:179-184 | the axis is find_collision's axis, negated when it points away from the second centroid |
| Bodies.ApplyImpulsePair | game-tonks/library/body.c:190-193 | +s * axis on the first impulse and -s * axis on the second; nothing else changes |
| Bodies.ElasticScalar | game-tonks/library/body.c:171-189 | the scalar is reduced mass * (1 + e) * (u_b - u_a); the reduced mass is the other body's mass when one is INFINITY |
| Bodies.InfiniteMassUnmoved | game-tonks/library/body.c:127-131 | a force on a body of INFINITY mass leaves its acceleration unchanged |
| Bodies.AcceleratedNewton | game-tonks/library/body.c:127-131 | Newton's second law: the added acceleration times the mass is the force |
| Bodies.AcceleratedAdditive | game-tonks/library/body.c:127-131 | two forces added one after the other act as their sum |
| Bodies.OrientedFacesSecond | game-tonks/library/body.c:179-184 | the oriented axis is the collision axis or its negation, has the same length, and does not point away from the second centroid |
| Bodies.ImpulsesCancel | game-tonks/library/body.c:189-193 | the two impulses sum to zero |
| Bodies.ReducedMassInverse | game-tonks/library/body.c:171-178 | the reduced mass times the sum of the inverse masses is 1, INFINITY included |
| Bodies.Restitution | game-tonks/library/body.c:185-193 | Newton's law of restitution: once the impulses become velocity, the relative speed along a unit axis is -e times what it was |
| Bodies.RelativeSpeedAfterImpulse | game-tonks/library/body.c:185-193 | the same law for the speeds u_a and u_b along the axis |
| Bodies.MomentumConserved | game-tonks/library/body.c:189-193 | with two finite masses the mass-weighted velocity changes from the impulses cancel |
| Bodies.CollisionAxisUnit | game-tonks/library/collision.c:97-129 | the axis find_collision reports on a collision has unit length |
| Bodies.StepIsRigid | game-tonks/library/body.c:227-273 | a step moves position, centroid and every vertex by the same vector, so vertices keep their offsets from the centroid and the area is unchanged |
| Bodies.StepResets | game-tonks/library/body.c:240-272 | after a step the impulse is zero; the acceleration is zero except with body_tick_canon_no_reset, which keeps it; colour, flags, angle and glow are kept |
| Bodies.CanonVariantsAgree | game-tonks/library/body.c:244-273 | body_tick_canon and body_tick_canon_no_reset differ only in the acceleration they leave |
| Bodies.CoastingBody | game-tonks/library/body.c:227-273 | with nothing accumulated, every integrator keeps the velocity and moves by dt times it |
| Bodies.ImpulseIgnoredByInfiniteMass | game-tonks/library/body.c:231-233 | an impulse has no effect on a body of INFINITY mass |
| Bodies.ImpulseChangesVelocity | game-tonks/library/body.c:228-234 | with no acceleration, the step's velocity is the old one plus impulse / mass |
| Bodies.SetCentroidToSelf | game-tonks/library/body.c:114-118 | setting the centroid to where it is changes nothing |
| Bodies.SetCentroidKeepsOffsets | game-tonks/library/body.c:114-118 | after body_set_centroid every vertex keeps its offset from the centroid |
| Bodies.SetRotationToSelf | game-tonks/library/body.c:122-125 | setting the rotation to the current angle changes nothing |
| Collision.ShapeAxes | game-tonks/library/collision.c:14-24 | one axis per edge of the shape, in vertex order, each the normalized quarter turn of the normalized edge |
| Collision.Axes | game-tonks/library/collision.c:9-40 | get_perpendicular_lines gives as many axes as the two shapes have vertices together |
| Collision.Dots | game-tonks/library/collision.c:54-58 | the position of each vertex along the line, in order |
| Collision.Overlaps | game-tonks/library/collision.c:110-115 | entry i is fmin(fabs(min1 - max2), fabs(max1 - min2)) on axis i |
| Collision.ArgMin | game-tonks/library/collision.c:116-122 | the index kept lies among the first n |
| Collision.GetPerpendicularLines | game-tonks/library/collision.c:9-40 | the two loops produce exactly the axes of shape1, then those of shape2 |
| Collision.ProjectShape | game-tonks/library/collision.c:46-72 | project_shape's running minimum and maximum, started at the first vertex, equal the smallest and largest vertex position |
| Collision.IntersectShapes | game-tonks/library/collision.c:79-95 | intersect returns whether the two closed projection intervals meet |
| Collision.FindCollision | game-tonks/library/collision.c:97-129 | find_collision returns the verdict of the separating-axis test on the axes of both shapes |
| Collision.Collides | game-tonks/library/collision.c:97-129 | find_collision(...).collided, as its callers read it |
| Collision.ScanTo | game-tonks/library/collision.c:103-124 | the loop state after n axes is "nothing seen" only at n = 0, and a kept axis index is below n |
| Collision.FindOnAxes | game-tonks/library/collision.c:99-128 | the loop returns "apart" at the first separating axis and otherwise the normalized first axis of smallest overlap |
| Collision.ConsiderAxis | game-tonks/library/collision.c:104-123 | one iteration: it reports whether the axis lets the projections meet; a meeting axis replaces the one kept when it is the first axis or its overlap is strictly smaller, storing that overlap and the normalized axis; otherwise the kept overlap and axis stay |
| Collision.ScanToApart | game-tonks/library/collision.c:103-124 | after n axes the loop has stopped exactly when one of them separates the shapes |
| Collision.ScanToKept | game-tonks/library/collision.c:103-124 | when none of the first n axes separates, the loop keeps the first axis of smallest overlap among them |
| Collision.StepKept | game-tonks/library/collision.c:116-122 | a meeting axis replaces the kept one exactly when its overlap is strictly smaller, which keeps the first minimum |
| Collision.ScanVerdict | game-tonks/library/collision.c:104-128 | a stopped loop means no collision; a loop that ran through all axes reports the kept axis |
| Collision.AllMeetIff | game-tonks/library/collision.c:103-109 | the loop passes the first n axes exactly when intersect holds on every one of them |
| Collision.SeparatedIff | game-tonks/library/collision.c:103-109 | the shapes are reported apart exactly when some axis fails intersect |
| Collision.SeparatedAt | game-tonks/library/collision.c:104-108 | one axis that fails intersect is enough for "apart" |
| Collision.AxesNormalizable | game-tonks/library/collision.c:118-121 | every candidate axis has a non-zero norm, so normalizing it is defined |
| Collision.AxisIsUnit | game-tonks/library/collision.c:19-20 | every candidate axis has norm 1, so normalizing it again changes nothing |
| Collision.EdgeAxisIsUnitNormal | game-tonks/library/collision.c:19-20 | the axis of an edge is a unit vector perpendicular to the edge |
| Collision.AxesPerpendicular | game-tonks/library/collision.c:9-40 | axis i is the unit normal of edge i of shape1, and the axes after them those of shape2's edges |
| Collision.MinOfIsMinimum | game-tonks/library/collision.c:62-63 | the running minimum is one of the values and no larger than any |
| Collision.MaxOfIsMaximum | game-tonks/library/collision.c:64-65 | the running maximum is one of the values and no smaller than any |
| Collision.ProjectionBounds | game-tonks/library/collision.c:46-72 | every vertex projects within [min, max], both ends are reached by a vertex, and min <= max |
| Collision.IntersectSymmetric | game-tonks/library/collision.c:79-95 | intersect does not depend on the order of the shapes, and touching intervals meet |
| Collision.ArgMinIsFirstMinimum | game-tonks/library/collision.c:116-122 | the kept overlap is no larger than any of the first n and strictly smaller than every one before it |
| Collision.AxesSwapped | game-tonks/library/collision.c:9-40 | swapping the shapes puts shape2's axes first and shape1's after them |
| Collision.CollidedSymmetric | game-tonks/library/collision.c:97-129 | whether the shapes collide does not depend on the order they are given in |
| Collision.SeparatedSwapped | game-tonks/library/collision.c:97-129 | a separating axis for (s1, s2) is one for (s2, s1) too |
| Collision.CollidedIffNotSeparated | game-tonks/library/collision.c:97-129 | find_collision reports a collision exactly when no candidate axis separates the shapes |
| Collision.SharedVertexCollides | game-tonks/library/collision.c:97-129 | shapes with a vertex in common collide |
| Collision.CollisionAxisIsFirstMinimum | game-tonks/library/collision.c:97-129 | on a collision the reported axis is a unit vector, one of the candidate axes, with the smallest overlap of all and strictly smaller than every axis before it |
| Selections.Selected | game-tonks/library/scene.c:111-129 | the elements of the first n picked by their flags number at most n |
| Selections.Select | game-tonks/library/scene.c:111-129 | a selection of a list by its flags is no longer than the list |
| Selections.SelectedMembers | game-tonks/library/scene.c:111-129 | an element is selected from the first n exactly when it sits at one of those positions with the wanted flag |
| Selections.SelectMembers | game-tonks/library/scene.c:111-129 | an element is selected exactly when it sits at a position with the wanted flag |
| Selections.SelectedPartition | game-tonks/library/scene.c:111-129 | the flagged and the unflagged selections of the first n together hold exactly those n elements, counted with multiplicity |
| Selections.SelectPartition | game-tonks/library/scene.c:111-129 | what a walk keeps and what it takes out together are the whole list: nothing is lost or duplicated |
| Selections.SelectedDistinct | game-tonks/library/scene.c:111-129 | a selection from a list with no repeats has no repeats |
| Selections.SelectDistinct | game-tonks/library/scene.c:111-129 | a selection from a list with no repeats has no repeats |
| Selections.SelectNone | game-tonks/library/scene.c:111-129 | when no flag has the wanted value, nothing is selected |
| Selections.SelectAll | game-tonks/library/scene.c:111-129 | when every flag has the wanted value, the selection is the list itself |
| Selections.WalkStart | game-tonks/library/scene.c:111 | a removal walk starts at index 0 with the whole list and nothing taken out |
| Selections.WalkAt | game-tonks/library/scene.c:112 | while the index is in range, the element at the index is the next unvisited element of the original list |
| Selections.WalkDrop | game-tonks/library/scene.c:113-118 | taking out a flagged element with list_remove and keeping the index advances the walk by one element |
| Selections.WalkKeep | game-tonks/library/scene.c:119-121 | stepping past an unflagged element advances the walk by one element |
| Selections.WalkEnd | game-tonks/library/scene.c:111 | when the index reaches the list's end every element was visited; the list is the unflagged selection and what was taken out the flagged one |
| Scenes.BodyFlags | game-tonks/library/scene.c:113 | the removal flag of every body, position by position |
| Scenes.ForceFlags | game-tonks/library/scene.c:124 | the removal flag of every force entry, position by position |
| Scenes.Payloads | game-tonks/library/scene.c:108-110 | the argument of every force entry, position by position |
| Scenes.ScopesAnyAppend | game-tonks/library/scene.c:83-94 | a force is scoped to one of the freed bodies plus one more exactly when it was scoped to one of them or to the new one |
| Scenes.ListHolds | game-tonks/library/scene.c:87-92 | the scan of a scoped list finds a match exactly when the body is in the list |
| Scenes.Integrate | game-tonks/library/scene.c:120 | a surviving body takes exactly one integration step of the tick's rule |
| Scenes.RunEntry | game-tonks/library/scene.c:108-110 | force_create on one entry does what its law states (the same statement as ForceWrappers.Run); a body the entry does not refer to keeps its acceleration, impulse and removal flag; only a destroying entry flags a body removed; the later creators stay runnable |
| Scenes.PassEntry | game-tonks/library/scene.c:108-110 | one more iteration of the force loop: the pass so far, followed by one entry, is a force pass over the bodies of all those entries; no entry changes |
| Scenes.ReferencesGrow | game-tonks/library/scene.c:108-110 | one more entry adds the bodies it refers to, and adds them to the bodies that may be flagged removed exactly when it is destructive_collision_creator |
| Scenes.PassedThen | game-tonks/library/scene.c:108-110 | two force passes in a row make one force pass over the bodies of both |
| Scenes.ForceFreePass | game-tonks/library/scene.c:108-110 | a scene without force entries comes out of the force pass with every body exactly as it was |
| Scenes.Prune | game-tonks/library/scene.c:122-129 | the sweep keeps exactly the unflagged force entries in order and frees exactly the flagged ones in order |
| Scenes.RetireForces | game-tonks/library/scene.c:83-94 | exactly the entries whose scoped list holds the body become flagged, flags already set stay set, and no argument changes |
| Scenes.States | game-tonks/library/scene.c:111-121 | the state of every body, position by position |
| Scenes.SelectSeparate | game-tonks/library/scene.c:111-121 | the bodies a walk keeps still share no entry and no shape buffer |
| Scenes.PassStalls | game-tonks/library/scene.c:174-183 | a body pass that integrates no body leaves every body in the state the force pass left it in |
| Scenes.NoResetMoves | game-tonks/library/body.c:260-273 | one body_tick_canon_no_reset step of a body at unit velocity moves it by one unit, so it differs from not integrating it |
| Scenes.IntegrateStep | game-tonks/library/scene.c:119-121 | stepping past an unflagged body integrates it once, when the pass integrates, and changes no other body and no force entry |
| Scenes.RetireStep | game-tonks/library/scene.c:113-115 | a flagged body retires exactly the forces scoped to it and changes no body |
| Scenes.Pass | game-tonks/library/scene.c:111-121 | the body pass keeps the unflagged bodies in order, frees the flagged ones in order without integrating them, integrates each kept body once, and newly flags exactly the forces scoped to a freed body |
| Scenes.SweptScoping | game-tonks/library/scene.c:111-129 | after the body pass and the sweep, a force entry left in the scene refers only to bodies left in the scene |
| Scenes.Settled | game-tonks/library/scene.c:111-129 | after the body pass and the sweep nothing is lost or duplicated, what stays is live, what is freed was flagged, every force scoped to a freed body is freed, and the scene is valid again |
| Scenes.TextStates | game-tonks/library/scene.c:160-166 | the state of every text, position by position |
| Scenes.TickTexts | game-tonks/library/scene.c:160-166 | every text not yet removed ticks once, a removed text keeps its state, and no body changes |
| Scenes.ResetAccelerations | game-tonks/library/scene.c:194-199 | every body's acceleration becomes zero and nothing else of the bodies changes |
| Scenes.Scene.Init | game-tonks/library/scene.c:23-31 | scene_init: empty lists, time zero, developer mode off; the empty scene is valid |
| Scenes.Scene.AddBody | game-tonks/library/scene.c:52-54 | the body is appended and nothing else changes; a body that is valid and new to the scene keeps it valid |
| Scenes.Scene.AddText | game-tonks/library/scene.c:56-58 | the text is appended and nothing else changes; a text new to the scene keeps it valid |
| Scenes.Scene.GetBody | game-tonks/library/scene.c:48-50 | the body at an index in range |
| Scenes.Scene.RemoveBody | game-tonks/library/scene.c:60-62 | the body is only flagged removed; the list stays as it is until the next tick |
| Scenes.Scene.AddForceCreator | game-tonks/library/scene.c:70-74 | a fresh unscoped entry with the given creator, argument and free function is appended; nothing else changes |
| Scenes.Scene.AddBodiesForceCreator | game-tonks/library/scene.c:76-81 | a fresh entry scoped to the given bodies is appended; the scene stays valid when the bodies the argument refers to are in the scene and in the scoped list |
| Scenes.Scene.RemoveForcesFromBody | game-tonks/library/scene.c:83-94 | exactly the entries whose scoped list holds the body become flagged, flags already set stay set |
| Scenes.ApplyForces | game-tonks/library/scene.c:108-110 | every creator runs once, in list order; each handler call fits its entry; no entry changes; every body only accumulates acceleration and impulse, a body no entry refers to keeps its whole state, and only the bodies of destroying entries can become flagged removed |
| Scenes.Scene.PassBodies | game-tonks/library/scene.c:111-121 | the body pass on the scene's lists: kept bodies in order and integrated once, flagged bodies freed, forces scoped to a freed body flagged |
| Scenes.Scene.Sweep | game-tonks/library/scene.c:122-129 | the flagged entries are taken out and freed in order; the others stay in order |
| Scenes.Scene.Settle | game-tonks/library/scene.c:111-129 | the body pass and the sweep: no body or entry is lost or duplicated, no freed body is still referred to, and the scene is valid again |
| Scenes.Scene.Advance | game-tonks/library/scene.c:106-129 | time advances by dt; the force pass is a force pass as ApplyForces states; the bodies that stay are the unflagged ones in order, each integrated once from its state after the force pass; the flagged ones are freed; no entry is lost or duplicated and every entry scoped to a freed body is freed; the scene is valid again |
| Scenes.Scene.RunForces | game-tonks/library/scene.c:107-110 | time advances by dt and every creator runs once; the lists are kept; the bodies change as ApplyForces states; the scene stays valid |
| Scenes.Scene.Tick | game-tonks/library/scene.c:106-130 | scene_tick: the force pass as ApplyForces states; every body left took one body_tick step from its state after the force pass; flagged bodies and the forces scoped to them are freed; the scene is valid |
| Scenes.Scene.TickCanon | game-tonks/library/scene.c:132-167 | scene_tick_canon: the force pass as ApplyForces states, and body_tick_canon on every body left; every text not yet removed ticks once from its state before the call, and a removed text keeps its state |
| Scenes.Scene.TickCanonNoResetAsWritten | game-tonks/library/scene.c:169-192 | scene_tick_canon_no_reset as written: the force pass as ApplyForces states; the flagged bodies are freed but every body that stays keeps its state after the force pass |
| Scenes.Scene.TickCanonNoReset | game-tonks/library/scene.c:169-192 | scene_tick_canon_no_reset as intended: the force pass as ApplyForces states; every body that stays takes one body_tick_canon_no_reset step; forces scoped to freed bodies are freed |
| Scenes.Scene.AccelReset | game-tonks/library/scene.c:194-199 | scene_accel_reset: every body's acceleration becomes zero and nothing else changes |
| Registration.CreateNewtonianGravity | game-tonks/library/forces.c:34-50 | a fresh gravity entry is appended, scoped to both bodies, with an aux holding G in a fresh cell and the two bodies; the scene stays valid when both bodies are in it |
| Registration.CreateSpring | game-tonks/library/forces.c:65-79 | a fresh spring entry is appended, scoped to both bodies, with an aux holding k and the two bodies; the scene stays valid |
| Registration.CreateDrag | game-tonks/library/forces.c:91-104 | a fresh drag entry is appended, scoped to the body, with an aux holding gamma and the body; the scene stays valid |
| Registration.CreateAppliedForce | game-tonks/library/forces.c:115-126 | a fresh applied-force entry is appended whose aux keeps the caller's own magnitude cell, so later writes through it are seen; the scene stays valid |
| Registration.CreateDestructiveCollision | game-tonks/library/forces.c:142-152 | a fresh destructive-collision entry is appended, scoped to both bodies, with no constants; the scene stays valid |
| Registration.CreateCollision | game-tonks/library/forces.c:159-172 | a fresh collision entry is appended, scoped to both bodies, whose argument is the package of the bodies, handler, aux and free function, freed by collision_package_free |
| Registration.CreatePhysicsCollision | game-tonks/library/forces.c:193-215 | a collision entry with normal_collision_handler, a fresh info record holding the elasticity and a cleared debounce flag, and no aux free function |
| Releases.Occurrences | game-tonks/library/force_wrapper.c:49-57 | a count of releases never exceeds their number and is zero exactly when the release does not occur |
| Releases.OccurrencesAppend | game-tonks/library/force_wrapper.c:49-57 | counts of releases add up over consecutive release sequences |
| Registration.AuxFreeOnce | game-tonks/library/aux.c:20-28 | aux_free releases the bodies list and the aux record exactly once each, and never the entry record |
| Registration.AuxEntryReleasesOnce | game-tonks/library/force_wrapper.c:49-57 | freeing an entry registered with aux_free releases its scoped list, aux record and entry record exactly once each |
| Registration.PackageEntryKeepsScopedList | game-tonks/library/force_wrapper.c:49-57 | freeing a collision entry never releases its scoped list and releases the package once; without an aux free function only the package and the entry record |
| Players.DisjointKeysNotShared | game-tonks/library/player.c:410-416 | players configured with no key in common never both move on the same key |
| Players.Boosted | game-tonks/library/player.c:213-248 | eating food grows exactly the power-up counter its tag names by one, and an unknown tag changes none |
| Players.Cooled | game-tonks/library/player.c:438-446 | a cooled cooldown is never negative, is zero exactly when dt covered what was left, and otherwise dropped by dt |
| Players.CooledTwice | game-tonks/library/player.c:438-446 | two ticks cool a cooldown as far as one tick of their sum |
| Players.Ticked | game-tonks/library/player.c:425-447 | alive time grows by dt, the periodic counter resets once it passes the period, each cooldown cools by dt, and kills, food, dying flag, power-ups and score are kept |
| Players.Respawned | game-tonks/library/player.c:450-489 | the score, dash cooldown and power-ups return to zero, the collision cooldown to its initial value, and the player is no longer dying |
| Players.Ate | game-tonks/library/player.c:194-249 | non-food changes nothing; food adds one to the food count, ten to the score and one to the named power-up; cooldowns, kills and dying are kept |
| Players.HitIndex | game-tonks/library/player.c:295-302 | the index found is the last position of the body in the list, or 0 when it is not there |
| Players.CriticalIff | game-tonks/library/player.c:304-328 | a hit kills exactly when the body is not one of the player's or its last position is among the first CRITICAL_BODIES |
| Players.FindHitIndex | game-tonks/library/player.c:295-302 | the search loop returns the last position of the body, or 0 when absent |
| Players.Player.Tick | game-tonks/library/player.c:425-447 | player_tick updates the statistics as Ticked states and keeps the keys and bodies |
| Players.Player.RefreshCollideCooldown | game-tonks/library/player.c:525-528 | the collision cooldown restarts at DEFAULT_PLAYER_COLLIDE_CD and nothing else changes |
| Players.Player.RefreshDashCooldown | game-tonks/library/player.c:530-533 | the dash cooldown restarts at DEFAULT_DASH_CD and nothing else changes |
| Players.Player.RefreshBulletCooldown | game-tonks/library/player.c:535-538 | the shooting cooldown restarts at DEFAULT_BULLET_CD and nothing else changes |
| Players.Player.Eat | game-tonks/library/player.c:194-249 | player_eat updates the statistics as Ate states and keeps the keys and bodies |
| Players.Player.Respawn | game-tonks/library/player.c:450-489 | player_respawn resets the statistics as Respawned states and keeps the keys |
| Players.Hit | game-tonks/library/player.c:291-329 | a critical hit marks the prey dying and gives the predator one kill; any other hit changes neither; no other statistic, cooldown, power-up counter or key of either player changes, also when the two players are one |

## Left out

- Rendering and sound are not modelled. This covers `scene_draw`, `body_draw_*` and the glow drawn in `scene_tick_canon`, the SDL texture and text calls in text.c, player drawing and cosmetics, and every `sdl_play_sound`. They are I/O over libraries outside the kernel.
- `make_circle` and the other random helpers of utils.c are not modelled, and neither are the random spawn points of `player_respawn`. Randomness is outside the model.
- `scene_free`, `scene_bodies`, `scene_get_bodies`, `scene_get_texts` and the developer-mode getter and setter are not modelled as methods. Each only reads or writes one field, and the fields are visible in the model.
- `body_get_*`, `aux_get_*`, `force_get_*` and `*_is_removed` are field reads, so they have no methods of their own.
- Scenes.ApplyForces: host collision handlers and host force creators are given no effect, so its statement of what the bodies keep holds only when none of them changes the scene. In the program they do: `pellet_collision_handler` (game-tonks/demo/slyce.c:252-290) adds a body and drag, spring and collision creators, and flags a body removed, during the force pass. The C loop re-reads the number of creators on each iteration (scene.c:108), so creators appended there run in the same pass; the model's pass runs the creators present when it starts. The kernel's own creators append none.
- `list_remove` asserts that its index lies inside the list (list.c:51); the model's precondition `index < size` is that assertion. `polygon_area` of a polygon with no vertices underflows `size_t` in C, since `list_size - 1` wraps and `i % 0` follows; the model requires a non-empty polygon instead.
- Normalising the zero vector gives NaN in C. The model requires a non-zero vector there, and requires non-degenerate edges for the collision axes.
- `list_add` asserts that its element is not NULL. The model states this as a precondition.
- Floating-point rounding is not modelled. Every identity in the model is proved over the reals.
- The model states where the collision forces leak, but does not correct it. `create_collision` and `create_physics_collision` register a scoped bodies list as well as `collision_package_free`, so `force_free` never releases that list. `create_physics_collision` also registers no aux free function, so its info record is never released.
- The applied force's magnitude cell is shared with its caller. Releasing it through `aux_free` while the caller still holds it is reported as the release event, not as an error.
- Bodies.Body.Init: stores the centroid with the signed area in the denominator, the corrected `polygon_centroid` of the Findings below. For a clockwise outline body.c:52 stores its reflection through the origin; the constructor states that the two agree on counter-clockwise outlines, which make_rectangle and make_circle build. It also requires a non-zero finite mass (or INFINITY) and a non-zero signed area: with mass 0 `body_tick` multiplies the impulse by 1/0, and a shape of zero area makes `polygon_centroid` divide by zero. Both give INF or NaN, which the reals of the model do not represent.
- Bodies.Body.InitWithInfo: the same centroid and the same two requirements as Bodies.Body.Init.
- Bodies.AddElasticImpulse: when both masses are INFINITY, or two finite masses sum to zero, the C adds INF or NaN to both impulses. The model states only that nothing but the two impulses changes then, and leaves the impulses as they were, since no real number stands for those values.
- Forces.GravityCreator: with an INFINITY mass and the centroids at least MIN_DIST apart, the C stores NaN or infinite accelerations in both bodies. The model states only that nothing but the two accelerations changes then, and leaves them as they were.
- Players.Player.Respawn: does not state what happens to `meta_bodies`. Dropping the tail bodies from the list and from the scene is not modelled, because that loop indexes the scene's list of bodies and depends on where each body sits in it.
- Players.Hit: states nothing about the body lists after a hit on the tail. For the same reason, the removal of the tail from `meta_bodies` and from the scene is not modelled.
- Players.Player.Tick: does not model the refresh of the score tag's text when the periodic counter wraps. That refresh is rendering.
- Players.Player.Eat: does not model the floating `+MS`-style texts added to the scene, nor the velocity update of `player_update_pu`. These involve the scene's text list and `calc_base_speed`, which are outside the player's bookkeeping.
- Scenes.ApplyForces: states what the pass keeps, not the acceleration, impulse and removal flag each body ends with as the composition of the laws of the entries in list order. Each law is stated once per entry, in Scenes.RunEntry and ForceWrappers.ForceEntry.Create; composing those statements over the loop is left out for the cost of the proof.
- Scenes.Scene.RunForces: the same bound as Scenes.ApplyForces. The model also advances the time after the force pass, where scene.c:107 advances it before; no creator reads the time of the scene, so the two orders end in the same state.
- Scenes.Scene.Advance: the same bound as Scenes.ApplyForces for the states after the force pass.
- Scenes.Scene.Tick: the same bound as Scenes.ApplyForces for the states after the force pass.
- Scenes.Scene.TickCanonNoResetAsWritten: the same bound as Scenes.ApplyForces for the states after the force pass. It does not state what becomes of the force entries.
- Scenes.Scene.TickCanonNoReset: the same bound as Scenes.ApplyForces for the states after the force pass.
- Scenes.Scene.TickCanon: the same bound as Scenes.ApplyForces for the states after the force pass. It states less than `Scenes.Scene.Tick` about the force entries. It does not state that the entries are conserved as a multiset, nor that every entry scoped to a freed body is freed, although both follow from the same `Advance`. Its text postcondition relates the texts to their states before the call, which the force and body passes do not change.

## Findings

| source | as written | input that shows it | evidently intended | confidence | as-written member | corrected member |
|---|---|---|---|---|---|---|
| game-tonks/library/polygon.c:34-35 | the centroid sums are divided by 6 times `polygon_area`, which is the absolute value of the signed area | the unit square given clockwise, (0,1), (1,1), (1,0), (0,0): as written its centroid is (-0.5, -0.5), as Utils.ClockwiseSquareCentroid states | divide by 6 times the signed area, giving (0.5, 0.5) for either direction of the outline | not executed | Polygons.CentroidAsWrittenReflects | Polygons.CentroidReverse |
| game-tonks/library/scene.c:174-183 | `body_tick_canon_no_reset` is called only inside the branch for a removed body, after `body_free` has released that body; no body that stays is integrated | any scene with a live body moving at unit velocity and a tick of one second: the body does not move (Scenes.PassStalls), where one body_tick_canon_no_reset step would move it by one unit (Scenes.NoResetMoves) | integrate every body that stays with `body_tick_canon_no_reset`, as the other two tick functions do with their integrators | not executed | Scenes.Scene.TickCanonNoResetAsWritten | Scenes.Scene.TickCanonNoReset |
