# Isometric physics core: octree, cube geometry, arcade separation, projection

This project models the core of an isometric plugin for a 2D game framework:

- **The octree spatial index.** It is a recursive eight-way partition of a box region. Boxes are inserted, pushed down into the octant that holds them, and retrieved along a query box's path.
- **The `Cube` value type.** An axis-aligned box with constructor defaults, copies, containment, inclusive intersection, face and centre accessors, volume and corners.
- **The isometric arcade physics world.** Velocity integration, the strict body intersection test, and the pair-level `separate`. The per-axis separation steps are one axis-generic function, with the moving-platform step of the vertical axis added. The pairs a group is tested against itself on are also modelled.
- **The projection helpers.** The axonometric projection and the sprite's own 2:1 projection, the body sync and the depth key.

Coordinates are `real`. `Math.round` is `floor(x + 0.5)` and `Math.floor` is `Floor`. JavaScript's falsy-argument defaults (`a || d`) are modelled with an `Option` argument, where an absent or zero value takes the default. Elapsed time, the game world's size, the square root and the snapping function are parameters.

The modules:

- `Numerics`, `Points`
- `Cube`
- `Octree`, `OctreeProperties`
- `IsoArcade` (the world), `SeparationProperties`
- `Collide`
- `Isometric`, `IsoSprite`
- `AsWritten`

`AsWritten` holds the places where the code does something other than what it evidently means, modelled as written, each with an input that shows the difference. Everywhere else the model uses the corrected behaviour.

The world's `intersects` has no degenerate-extent guard, unlike `Cube.intersects`, so a body of zero width lying strictly inside another body does intersect it (`IsoArcade.ZeroWidthBodyCanIntersect`).

## Model

| member | source | states |
|---|---|---|
| Numerics.OrReal | src/geom/Cube.js:15-20 | `a \|\| d` on a number: an absent or zero argument is replaced by the default, any other value is kept |
| Numerics.Round | src/math/Octree.js:129-131 | `Math.round` lands within half a unit of its argument, with halves rounding up |
| Numerics.RoundWhole | src/math/Octree.js:129-140 | rounding an already whole coordinate gives it back |
| Cube.New | src/geom/Cube.js:13-50 | the constructor keeps each given argument and sets every absent one to 0 |
| Cube.NewWithoutArgumentsIsEmpty | src/geom/Cube.js:13-20 | a cube built without arguments is the zero box, contains no point and intersects nothing |
| Cube.SetTo | src/geom/Cube.js:81-92 | after `setTo` the six fields equal the arguments |
| Cube.CopyFrom | src/geom/Cube.js:93-95 | `copyFrom` makes the cube field-equal to the source |
| Cube.CopyTo | src/geom/Cube.js:96-105 | `copyTo` makes the destination field-equal to the cube |
| Cube.Clone | src/geom/Cube.js:140-149 | `clone`, with or without an output cube, yields a field-equal cube |
| Cube.Size | src/geom/Cube.js:129-138 | `size` is the point of the three extents |
| Cube.Contains | src/geom/Cube.js:151-157 | a point is contained exactly when the cube has positive extents and the point lies between the origin and the front faces and top, inclusive |
| Cube.Intersects | src/geom/Cube.js:163-168 | a cube with an extent of zero or less intersects nothing |
| Cube.IntersectsSymmetric | src/geom/Cube.js:163-168 | intersection does not depend on argument order |
| Cube.TouchingFacesIntersect | src/geom/Cube.js:167 | two proper cubes whose faces only touch intersect (the test is inclusive) |
| Cube.IntersectsIffCommonPoint | src/geom/Cube.js:151-168 | two cubes intersect exactly when some point is contained in both |
| Cube.SeparatedDoNotIntersect | src/geom/Cube.js:167 | two cubes with a plane strictly between them on some axis do not intersect, in either order |
| Cube.SetFrontX | src/geom/Cube.js:292-306 | the `frontX` setter keeps x, makes widthX `max(0, value - x)`, so frontX reads back the value when it lies past x; other fields unchanged |
| Cube.SetFrontY | src/geom/Cube.js:308-322 | the same for `frontY` |
| Cube.SetTop | src/geom/Cube.js:242-256 | the same for `top` and the height |
| Cube.SetBackX | src/geom/Cube.js:258-273 | the `backX` setter moves x to the value and keeps the front face when the value lies before it; otherwise widthX becomes 0 |
| Cube.SetBackY | src/geom/Cube.js:275-290 | the same for `backY` |
| Cube.SetBottom | src/geom/Cube.js:225-240 | the same for `bottom` and the top face |
| Cube.FaceSettersRoundTrip | src/geom/Cube.js:225-321 | setting a proper cube's face to where it already is changes nothing, for all six faces |
| Cube.HalfWidthX | src/geom/Cube.js:170-176 | the half extent is `round(widthX / 2)`, within half a unit of half the width |
| Cube.HalfWidthY | src/geom/Cube.js:178-184 | the same for widthY |
| Cube.HalfHeight | src/geom/Cube.js:186-192 | the same for the height |
| Cube.SetCenterX | src/geom/Cube.js:194-202 | setting centerX and reading it back gives the value; only x moves |
| Cube.SetCenterY | src/geom/Cube.js:204-212 | the same for centerY |
| Cube.SetCenterZ | src/geom/Cube.js:214-222 | the same for centerZ |
| Cube.CenterX | src/geom/Cube.js:194-197 | the `centerX` getter lies between the origin and the front face of a box of non-negative width; CenterNearMidpoint puts it within half a unit of the midpoint |
| Cube.CenterY | src/geom/Cube.js:204-207 | the same for `centerY` |
| Cube.CenterZ | src/geom/Cube.js:214-217 | the same for `centerZ` and the top |
| Cube.HalfWithin | src/geom/Cube.js:170-192 | half a non-negative extent, rounded, lies between 0 and the extent |
| Cube.CenterNearMidpoint | src/geom/Cube.js:170-222 | each centre lies within half a unit of the true midpoint |
| Cube.Volume | src/geom/Cube.js:324-328 | the volume of a cube with non-negative extents is non-negative, and zero when an extent is zero |
| Cube.GetCorners | src/geom/Cube.js:115-126 | eight corners: corner 0 is the origin, corner 7 is (frontX, frontY, top), and corner i takes the max on x, y, z by bits 4, 2, 1 of i |
| Cube.CornersContained | src/geom/Cube.js:115-126 | the corners of a proper cube are pairwise distinct and all contained in it |
| Octree.MakeBounds | src/math/Octree.js:128-141 | the node's origin is the rounded argument, the half extents are the floored halves, and the split planes are origin plus half extent |
| Octree.IntegralOriginsRoundExactly | src/math/Octree.js:184-200 | children built at a parent's whole-numbered planes keep those planes as their origins |
| Octree.Reset | src/math/Octree.js:122-146 | `reset` empties both lists, uses the given caps and level or the defaults 10, 4 and 0, and computes the bounds as coded |
| Octree.Clear | src/math/Octree.js:375-388 | after `clear` both lists are empty, the tree holds nothing and every retrieval is empty, while region, level and caps are kept |
| Octree.GetIndex | src/math/Octree.js:262-315 | the index is -1 or an octant 0..7. It is -1 exactly when the box fits no octant. Otherwise bits 1, 2 and 4 say on which side of frontX, frontY and top the box lies, strictly |
| Octree.Split | src/math/Octree.js:180-201 | eight empty children one level down, with the parent's caps and the half extents. Child k's origin takes the split plane on x, y, z by bits 1, 2, 4 of k |
| Octree.Child | src/math/Octree.js:184-200 | one child: empty, one level down, with the parent's caps and half extents; on an integral region its origin is the parent's corner or split plane on each axis, chosen by bits 1, 2, 4 of its index |
| Octree.Insert | src/math/Octree.js:209-253 | insertion keeps the tree's shape (no children or exactly eight, splits only below the level cap) and never changes a node's region, level or caps |
| Octree.Distribute | src/math/Octree.js:236-250 | the redistribution loop keeps the node well formed, split and in the same frame; DistributeContents proves it moves boxes without losing or duplicating any |
| Octree.Retrieve | src/math/Octree.js:324-369 | the result starts with the node's own list and holds only boxes stored in the tree |
| Octree.RetrieveAll | src/math/Octree.js:355-363 | the all-children branch returns only boxes the children hold, with multiplicity; RetrieveAllHas and RetrieveComplete show it misses none that could meet the query |
| Octree.Populate | src/math/Octree.js:154-173 | populating keeps the tree's shape and frame |
| Octree.PopulateHandler | src/math/Octree.js:166-173 | a member without a body or that does not exist leaves the tree unchanged, and the tree stays well formed in the same frame; PopulateContents shows a live member's body is added |
| OctreeProperties.ResetIsValid | src/math/Octree.js:122-146 | a freshly reset node is well formed, satisfies the placement invariant and is empty |
| OctreeProperties.InsertContents | src/math/Octree.js:209-253 | the boxes in the tree after `insert` are those before plus the new box: none lost, none duplicated |
| OctreeProperties.DistributeContents | src/math/Octree.js:236-250 | the redistribution loop moves boxes without losing or duplicating any |
| OctreeProperties.SpillStep | src/math/Octree.js:228-241 | on overflow `insert` continues as the redistribution of the old local list plus the new box over the split node with an empty local list, and that node plus the pending boxes hold exactly the old contents plus the new box |
| OctreeProperties.DistributeIntoLeaf | src/math/Octree.js:236-250 | a redistributed box that fits an octant whose child is a leaf with room is appended to that child's list, and the loop continues with the rest |
| OctreeProperties.LeafInsertUnderCap | src/math/Octree.js:226-228 | a box inserted into a leaf that stays within its object cap is appended to the local list |
| OctreeProperties.InsertIndexed | src/math/Octree.js:215-250 | `insert` keeps the placement invariant: in a split node the local boxes straddle a plane, and each child holds only boxes of its octant |
| OctreeProperties.DistributeIndexed | src/math/Octree.js:236-250 | the redistribution loop keeps the placement invariant |
| OctreeProperties.RetrieveComplete | src/math/Octree.js:324-369 | every stored box with no plane strictly between it and the query is retrieved |
| OctreeProperties.RetrieveFindsIntersecting | src/math/Octree.js:324-369 | no false negatives: every stored box that intersects the query is retrieved |
| OctreeProperties.DepthBounded | src/math/Octree.js:228-234 | a node's subtree never reaches below the level cap |
| OctreeProperties.SplitOnlyOnOverflow | src/math/Octree.js:228-234 | an unsplit node splits on insertion exactly when its local count then exceeds the object cap below the level cap |
| OctreeProperties.PopulateContents | src/math/Octree.js:154-173 | `populate` stores exactly the bodies of the live members that have one |
| OctreeProperties.PopulateIndexed | src/math/Octree.js:154-173 | `populate` keeps the placement invariant |
| OctreeProperties.PopulateThenRetrieve | src/math/Octree.js:154-369 | after populating a fresh tree, every populated body that intersects the query is retrieved |
| OctreeProperties.ThreeBoxScenario | src/math/Octree.js:209-253 | with a cap of two, a third box splits the root; the two low boxes go to octant 0 and the high one to octant 7 |
| OctreeProperties.ScenarioFill | src/math/Octree.js:226-228 | in the same region, the first two boxes stay in the root's own list |
| OctreeProperties.ScenarioSpill | src/math/Octree.js:228-236 | the third box overflows the cap of two and splits the root |
| OctreeProperties.ScenarioIndices | src/math/Octree.js:262-315 | the two low boxes fall in octant 0 and the high box in octant 7 |
| OctreeProperties.ScenarioDistribute | src/math/Octree.js:236-250 | the redistribution puts both low boxes, in order, in child 0 and the high box in child 7, and leaves every other child unchanged |
| IsoArcade.FacesOfAnAxisDiffer | src/physics/iso/World.js:707-733 | the leading and trailing faces of an axis are different faces, and distinct axes have distinct faces |
| IsoArcade.NewWorld | src/physics/iso/World.js:15-77 | the world starts with no gravity, bounds (0, 0, 0, w/2, w/2, h/4), all faces enabled, caps 10 and 4, overlap bias 4, and no flags |
| IsoArcade.SetBounds | src/physics/iso/World.js:182-186 | only the bounds change, to the given box |
| IsoArcade.SetBoundsToWorld | src/physics/iso/World.js:193-197 | the bounds become (0, 0, 0, w/2, w/2, h/2); nothing else changes |
| IsoArcade.WorldTree | src/physics/iso/World.js:520-524 | the tree rebuilt for a sprite-versus-group check is an empty root with the world's caps |
| IsoArcade.GravityStep | src/physics/iso/World.js:294-304 | gravity (world plus body) acts on the linear axes only and only when the body allows it |
| IsoArcade.DragStep | src/physics/iso/World.js:306-321 | a nonzero acceleration is applied and drag ignored; otherwise a non-negative drag step moves the velocity towards 0 without passing it |
| IsoArcade.Clamp | src/physics/iso/World.js:323-328 | the clamped velocity lies in [-max, max], is unchanged inside it, and keeps its sign |
| IsoArcade.ComputeVelocity | src/physics/iso/World.js:292-332 | the result lies within the cap, which is 10000 when the cap is absent or zero |
| IsoArcade.AccelerationSuppressesDrag | src/physics/iso/World.js:306-308 | with a nonzero acceleration the drag argument makes no difference |
| IsoArcade.DragNeverFlipsSign | src/physics/iso/World.js:309-321 | with no acceleration and non-negative drag, the result never has the opposite sign of the velocity before drag |
| IsoArcade.Intersects | src/physics/iso/World.js:649-677 | two bodies intersect exactly when they overlap strictly on all three axes |
| IsoArcade.IntersectsSymmetric | src/physics/iso/World.js:649-677 | the strict test does not depend on argument order |
| IsoArcade.FacesMeetDoNotIntersect | src/physics/iso/World.js:651-673 | bodies whose faces only meet on some axis do not intersect |
| IsoArcade.StrictImpliesInclusive | src/physics/iso/World.js:649-677 | for proper boxes the strict test implies the inclusive `Cube.intersects` |
| IsoArcade.IntersectingNotSeparated | src/physics/iso/World.js:649-677 | intersecting bodies have no plane strictly between them, so the octree can serve as their broad phase |
| IsoArcade.ZeroWidthBodyCanIntersect | src/physics/iso/World.js:649-677 | unlike the cube test, the body test has no extent guard: a zero-width body inside another intersects it |
| IsoArcade.Touch | src/physics/iso/World.js:715-718 | touching a face sets that flag and clears `none`, leaving the other face flags |
| IsoArcade.Embed | src/physics/iso/World.js:702-706 | overlapping bodies that do not move on the axis are both marked embedded and no overlap is kept |
| IsoArcade.Leading | src/physics/iso/World.js:707-720 | when the first body leads, a kept overlap is its front face minus the second's origin, and the meeting faces are marked touching |
| IsoArcade.Trailing | src/physics/iso/World.js:721-734 | when the first body trails, a kept overlap is its origin minus the second's front face, and the meeting faces are marked touching |
| IsoArcade.Detect | src/physics/iso/World.js:700-734 | detection changes no position, velocity or recorded overlap |
| IsoArcade.DetectAdmits | src/physics/iso/World.js:700-735 | for intersecting bodies the overlap is kept exactly when it is within \|Δ1\| + \|Δ2\| + bias on the moving side and both faces are enabled. A discarded overlap changes nothing but `embedded` |
| IsoArcade.Direction | src/physics/iso/World.js:754-755 | the sign factor is ±1 and restores the velocity from its magnitude |
| IsoArcade.Rescaled | src/physics/iso/World.js:754-755 | between equal masses the rescaled velocity is the velocity itself |
| IsoArcade.SqrtOfSquare | src/physics/iso/World.js:754-755 | the square root of a square is the absolute value |
| IsoArcade.Ride | src/physics/iso/World.js:970-973 | a rider on a moving platform shifts by the platform's horizontal displacement and nothing else of it changes |
| IsoArcade.Exchange | src/physics/iso/World.js:748-762 | two movable bodies each move half the overlap apart, and only their position and velocity on the axis change |
| IsoArcade.Rebound | src/physics/iso/World.js:763-770 | a single movable body takes the whole shift, and only its position and velocity on the axis change |
| IsoArcade.Resolve | src/physics/iso/World.js:745-772 | resolution changes only positions and velocities and never touches an immovable body |
| IsoArcade.RecordOverlap | src/physics/iso/World.js:738-739 | the kept overlap is recorded on the axis and nothing else changes |
| IsoArcade.Apply | src/physics/iso/World.js:737-773 | a kept overlap always reports a separation, and immovable bodies keep position and velocity |
| IsoArcade.SeparateAxis | src/physics/iso/World.js:689-778 | two immovable or non-intersecting bodies are returned unchanged with false. A true result implies they intersected. Immovable bodies never move, and without separation nothing moves |
| IsoArcade.AxisOrder | src/physics/iso/World.js:630-635 | the axes are a permutation of x, y, z: x, y, z when forced or when vertical gravity is weaker than either horizontal one, otherwise z first |
| IsoArcade.SeparateChain | src/physics/iso/World.js:631-634 | the short-circuit chain keeps the per-axis guarantees: immovable bodies never move, and nothing moves unless it reports a separation |
| IsoArcade.Separate | src/physics/iso/World.js:612-639 | a disabled body, no intersection or a process veto gives false with no change; `overlapOnly` gives true with no change; immovable bodies never move |
| SeparationProperties.SeparatesIffAdmitted | src/physics/iso/World.js:700-773 | for intersecting bodies not both immovable, a step separates exactly when the overlap is admitted |
| SeparationProperties.StillBodiesAreEmbedded | src/physics/iso/World.js:702-706 | overlapping bodies with no displacement on the axis are both marked embedded, nothing else changes, and the result is false |
| SeparationProperties.DiscardedOverlapChangesNothing | src/physics/iso/World.js:711-713 | an overlap beyond the cap or against a disabled face leaves both bodies as they were, apart from `embedded`, and the result is false |
| SeparationProperties.KeptOverlapTouches | src/physics/iso/World.js:714-733 | a kept overlap reports a separation and sets the touching flags of the two faces that met |
| SeparationProperties.OverlapOnlyRecords | src/physics/iso/World.js:737-743 | with `overlapOnly` or an opt-out flag the overlap is recorded on both bodies but no position or velocity changes |
| SeparationProperties.ResolvedOutcome | src/physics/iso/World.js:700-772 | a fully resolved step is the resolution of the detected contact with the overlap recorded |
| SeparationProperties.MovableBodiesShareOverlap | src/physics/iso/World.js:748-752 | two movable bodies each move by half the overlap in opposite directions, so the sum of their coordinates is kept |
| SeparationProperties.MovableBodyTakesOverlap | src/physics/iso/World.js:763-766 | a single movable body moves by the whole overlap and takes the other's velocity minus its own times its bounce; the immovable body stays |
| SeparationProperties.ResolvedBodiesApart | src/physics/iso/World.js:745-772 | after a full resolution the faces meet on the axis, so the bodies no longer intersect |
| SeparationProperties.EqualMassExchange | src/physics/iso/World.js:754-761 | with equal masses each body's new velocity is the common average plus the other's velocity's offset scaled by its bounce |
| SeparationProperties.EqualMassesSwapVelocities | src/physics/iso/World.js:754-761 | with equal masses and bounce 1 the two velocities on the axis are swapped |
| SeparationProperties.EqualMassesConserveMomentum | src/physics/iso/World.js:754-761 | with equal masses and equal bounce the sum of the velocities is conserved |
| SeparationProperties.RiderFollowsPlatform | src/physics/iso/World.js:975-984 | a movable body on a moving immovable one is carried by its horizontal displacement, and the immovable body does not move |
| Collide.GroupVsSelfPairs | src/physics/iso/World.js:556-572 | the pairs tested are exactly the index pairs i < j of live children, each once, in increasing order; the index one past the end is never live |
| Collide.BroadPhaseComplete | src/physics/iso/World.js:515-524 | a group member's body that intersects the sprite's body is among the candidates retrieved from the rebuilt octree |
| Isometric.New | src/geom/Isometric.js:16-40 | an absent or zero ratio becomes the classic 0.5, and the anchor is (0.5, 0) |
| Isometric.ProjectXY | src/geom/Isometric.js:77-88 | less the anchor offset, x is x - y and y is (x + y) times the ratio |
| Isometric.Project | src/geom/Isometric.js:57-68 | out.x = x - y + worldWidth·anchor.x and out.y = (x + y)·ratio - z + worldHeight·anchor.y |
| Isometric.ProjectIsProjectXYLifted | src/geom/Isometric.js:57-88 | the two projections agree on x; on y `project` is `projectXY` minus the height |
| Isometric.RaisingLiftsOnScreen | src/geom/Isometric.js:60-61 | raising a point by h moves it up the screen by exactly h and keeps x |
| Isometric.DiagonalKeepsColumn | src/geom/Isometric.js:60 | moving along (t, t, 0) keeps the screen x |
| Isometric.UnprojectRecoversGround | src/geom/Isometric.js:77-88 | for a non-zero ratio `projectXY` loses only the height: the ground position is recovered from the screen point |
| Isometric.ProjectXYOfUnproject | src/geom/Isometric.js:77-88 | every screen point is the `projectXY` of its recovered ground point |
| IsoSprite.IsoToOrthoIsClassicProjection | src/gameobjects/IsoSprite.js:38-45 | the sprite's projection is the world projection at ratio 0.5 less the anchor offset |
| IsoSprite.IsoToOrtho | src/gameobjects/IsoSprite.js:38-45 | the 2:1 map `(x - y, (x + y)/2 - z)`; IsoToOrthoIsClassicProjection identifies it with the world projection at ratio 0.5 less the anchor offset |
| IsoSprite.BodyAt | src/gameobjects/IsoSprite.js:27-29 | the body sync moves the body without resizing it |
| IsoSprite.BodyAtFixed | src/gameobjects/IsoSprite.js:27-29 | the body sync leaves a body unchanged exactly when its origin is already the iso position lowered by a tenth of the image height |
| IsoSprite.ToIso | src/gameobjects/IsoSprite.js:23-36 | the body (when present) is moved to (ix, iy, iz - height·0.1) without resizing; without a snap step the screen position is the sprite projection, and with one it is each projected coordinate snapped to the step; the iso position is kept |
| IsoSprite.ToIsoIdempotent | src/gameobjects/IsoSprite.js:23-36 | syncing twice is syncing once |
| IsoSprite.SetIx | src/gameobjects/IsoSprite.js:47-55 | setting `ix` changes only that coordinate and re-syncs |
| IsoSprite.SetIy | src/gameobjects/IsoSprite.js:57-65 | setting `iy` changes only that coordinate and re-syncs |
| IsoSprite.SetIz | src/gameobjects/IsoSprite.js:67-75 | setting `iz` changes only that coordinate and re-syncs |
| IsoSprite.SettersCommute | src/gameobjects/IsoSprite.js:47-75 | the three setters commute |
| IsoSprite.SetIzMovesBody | src/gameobjects/IsoSprite.js:67-75 | after setting `iz` it reads back the value and the body sits at the new height less a tenth of the image height |
| IsoSprite.DepthMonotone | src/gameobjects/IsoSprite.js:77-81 | the depth is monotone in each iso coordinate, and equal for two ordered positions only when they coincide |
| IsoSprite.DepthAfterSetIz | src/gameobjects/IsoSprite.js:67-81 | raising a sprite raises its depth by the same amount |
| IsoSprite.Depth | src/gameobjects/IsoSprite.js:77-81 | the drawing key; DepthMonotone shows it grows with every iso coordinate and DepthAfterSetIz that it tracks the height |
| IsoSprite.New | src/gameobjects/IsoSprite.js:7-18 | the body has footprint width·0.5 on each ground axis and height height·0.66 and sits at the iso position lowered by a tenth of the image height; the initial screen position is unsnapped; the snap step is 0.3 |
| IsoSprite.NewBodyIsSynced | src/gameobjects/IsoSprite.js:17-30 | the constructor places the body where a later sync would |
| IsoSprite.PlacedBodyStays | src/gameobjects/IsoSprite.js:27-29 | a sync leaves a body that already sits at the iso position (lowered by a tenth of the image height) unchanged |
| AsWritten.InsertAsWritten | src/math/Octree.js:209-253 | as written, a fresh node returns only while no box fits an octant, and it never gains children |
| AsWritten.InsertAsWrittenThrowsOnFreshTree | src/math/Octree.js:215-223 | as written, a box inside an octant of a fresh tree throws, where the corrected insert stores it |
| AsWritten.SplitAsWritten | src/math/Octree.js:184-200 | as written, the children are level-0 roots with the parent's level cap as their object cap |
| AsWritten.SplitAsWrittenLosesLevels | src/math/Octree.js:184-200 | as written, the default root's children are not well formed; the corrected split's are |
| AsWritten.ContainsAsWritten | src/geom/Cube.js:151-157 | as written, `contains` is false for every point |
| AsWritten.ContainsAsWrittenMissesCentre | src/geom/Cube.js:156 | as written, the centre of a 10-unit cube is not contained; corrected, it is |
| AsWritten.ApplyZAsWritten | src/physics/iso/World.js:937-987 | as written, the first body's y opt-out flag stops the vertical resolution |
| AsWritten.ApplyZAsWrittenReadsYFlag | src/physics/iso/World.js:943 | with only the first body's y flag set, the written step moves nothing while the corrected one pushes the body down by half the overlap |
| AsWritten.ResolveZAsWritten | src/physics/iso/World.js:975-984 | as written, the platform branch shifts the immovable platform's y by the rider's displacement and leaves the rider's y alone |
| AsWritten.ResolveZAsWrittenMovesPlatform | src/physics/iso/World.js:982 | as written, the immovable platform moves; corrected, it never does |

## Left out

- The steering, angle and distance helpers (`moveTo*`, `accelerate*`, `velocityFrom*`, `distance*`, `angle*`) are trigonometric conveniences on pointer input, outside the collision core.
- `enable`/`enableBody` attach bodies to game objects. This is object-model plumbing with no computation.
- `overlap`, `collide`, `collideHandler`, `collideSpriteVsSprite` and `collideGroupVsGroup` are left out: they are duck-typed dispatch to user callbacks. `collideSpriteVsGroup` is modelled only through the octree it rebuilds (`IsoArcade.WorldTree`, `Collide.BroadPhaseComplete`). Its QuadTree branch uses a structure that is not part of this model.
- `updateMotion` only feeds `computeVelocity` the body's fields and the frame time.
- The second sprite file's `preUpdate`/`postUpdate` are scene-graph lifecycle (camera, lifespan, events, animation).
- The physics Body class is not part of this model. Its per-frame displacement `delta` is taken as a field, |delta| is derived from it, and `mass > 0` is required by the separation functions.
- `Math.sqrt` is a parameter that is only assumed to be a square root on the non-negative reals. `Phaser.Math.snapTo` is a parameter with no assumption. The game world's size and the frame's elapsed time are parameters.
- Octree.Retrieve: only box-shaped queries are modelled. The sprite branch (`source.body`, empty result without a body) is not.
- IsoArcade.Separate: the process callback is modelled by its return value, so a callback with side effects is not modelled.
- IsoArcade.Rescaled: the exchange between unequal masses is stated for any square-root function but proved only for equal masses.
- AsWritten.InsertAsWritten: it models only childless nodes. That covers every node the written code builds, because `split` is never reached.
- IEEE-754 rounding, NaN and infinities are not modelled: coordinates are exact reals.
- Mutation and aliasing (`out` parameters, shared corner arrays, in-place `splice`) are modelled as returning new values.

## Findings

| source | as written | input that shows it | evidently intended | confidence | as-written member | corrected member |
|---|---|---|---|---|---|---|
| src/math/Octree.js:215 | `nodes[0] !== null` is true on a node without children (the entry is `undefined`), and `nodes[0] === null` (line 231) is never true, so `split` never runs | fresh root (0, 0, 0, 100, 100, 100), insert box (10, 10, 10, 1, 1, 1): `nodes[0].insert` is called on `undefined` | "has split" means the eight children exist, as `retrieve` tests at line 346 | not executed | AsWritten.InsertAsWrittenThrowsOnFreshTree | OctreeProperties.InsertContents |
| src/math/Octree.js:184-200 | children are built with `(this.maxLevels, this.level + 1)` in the `(maxObjects, maxLevels)` slots and no level | default root: children have maxObjects 4, maxLevels 1, level 0 | children keep the caps and sit at `level + 1` | not executed | AsWritten.SplitAsWrittenLosesLevels | OctreeProperties.DepthBounded |
| src/geom/Cube.js:156 | compares against `a.right` and `a.back`, which a Cube does not have | cube (0, 0, 0, 10, 10, 10), point (5, 5, 5): `contains` is false | compare against `frontX` and `frontY` | not executed | AsWritten.ContainsAsWrittenMissesCentre | Cube.Contains |
| src/physics/iso/World.js:943 | `separateZ` reads `body1.customSeparateY` | two movable bodies in vertical contact, only body1 has `customSeparateY`: nothing is resolved on z | read `body1.customSeparateZ` | not executed | AsWritten.ApplyZAsWrittenReadsYFlag | SeparationProperties.OverlapOnlyRecords |
| src/physics/iso/World.js:982 | in the branch where only body2 moves, `body1.y += body2.y - body2.prev.y` | immovable moving platform body1, rider body2 that moved 1 in y: the platform moves by 1 | `body2.y += body1.y - body1.prev.y`, mirroring line 972 | not executed | AsWritten.ResolveZAsWrittenMovesPlatform | SeparationProperties.RiderFollowsPlatform |
