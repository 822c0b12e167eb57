# ViewpointCursor, modelled in Dafny

The ViewpointCursor maps relative 2D user input onto surfaces of a spatial
augmented-reality scene. The controller adds scaled input deltas to a 2D
offset. With each delta it marks the cursor dirty. When asked for the cursor
while dirty, it casts a ray from the user's viewpoint through that offset.
It keeps the nearest hit among the caller's selectable objects. If nothing is
hit, it falls back to a virtual plane `planeDistance` ahead of the user. When
the user's pose changes, it re-derives the 2D offset from the last 3D cursor
("reverse update").

Files, one module each:

- `wrappers.dfy` (`Wrappers`): the `Option` datatype, standing in for a nullable object pointer.
- `geometry.dfy` (`Geometry`): real-valued vectors, the `Plane` primitive, and the standard ray–plane solution `Intersect` with its properties.
- `selection.dfy` (`Selections`):
  - the `Selection` record;
  - the scene objects' intersection tests, modelled as one function `Scene`;
  - the reference definition `Closest` of which answer the controller keeps, and its declarative characterisation `IsClosest`.
- `cursor_spec.dfy` (`CursorSpec`):
  - the controller's fields as one value, `CursorState`;
  - one transition function per operation: `Initial`, `Moved`, `Resolved`, `Reprojected`, `WithUserPosition` and `WithViewDirection`;
  - whole sessions of calls (`Run`);
  - the lemmas that state what the operations promise.
- `viewpoint_cursor.dfy` (`Controller`):
  - the class `ViewpointCursor`, with the source's private fields and its methods;
  - the selection loop `ClosestSelectable`.
  Each method's postcondition equates the new field values, `State()`, with the matching transition of `CursorSpec` applied to the old ones.

Modelling decisions:

- Vector components are `real`, so "parallel" means a dot product of exactly zero.
- The helpers whose code is not part of this model are fields of the `Optics` value passed to the constructor. Each is an arbitrary function of the arguments listed here, and nothing else is assumed about it:
  - getCursorDirection, of the 2D offset, the user position and the view direction (the source declares it without arguments, so the model assumes it reads only these fields);
  - getCursorRotation, of the cursor normal alone (also declared without arguments, ViewpointCursor.h:105);
  - normalize, of one vector;
  - the inverse user transform, of the user position, the view direction and the point.
- The scan keeps "no winner yet" as `None`. The source uses the largest float as its initial bound instead.
- The fallback Selection carries distance `MaxFloat`. In the source, this distance is the initial bound, and the fallback path never overwrites it.
- The controller keeps the last Selection in a field, `last`. The non-dirty path and the degenerate parallel-ray path return it.
- On the degenerate path (no hit, and a ray parallel to the fallback plane) the source's local Selection would still carry the initial bound, the largest float (src/ViewpointCursor.cpp:62), with no object set. The model instead returns the previous `last` unchanged, following the design rule that a failed resolution leaves the cursor where it was.

Where the source cannot be followed literally, the model takes the evident intent:

- `relativeInputy` is read as the `dy` argument, with the header's `moveCursor(dx, dy)` signature.
- The missing `&&` in the hit test is restored.
- `closestObject/` is read as an assignment.
- `closestPoint` and `point` are read as the Selection's `pos`.
- The field `mouseMode` is read as `mode`.
- `viewDirection` and `userDir` are read as a view-direction field. The source uses this field but never declares it.
- `getUserPosition()` (ViewpointCursor.h:177, src/ViewpointCursor.cpp:64) is read as the field `userPos`, which `setUserPosition` writes.
- `getViewDirection()` (ViewpointCursor.h:174, src/ViewpointCursor.cpp:93-94) is read as the same view-direction field. This reading is what makes getCursor's fallback plane and reverseUpdate's plane one and the same, `ReferencePlane`.
- `ray.intersect` (src/ViewpointCursor.cpp:132) is read as an intersection with the plane `p` declared two lines earlier.
- `ip.point` and `i.point` (src/ViewpointCursor.cpp:98, 135) are read as the `intersectionPoint` of Plane's Intersection (src/Plane.h:40).
- `backCursor = (x, y, z, 1)` is read as the intersection point.
- `getCursor` takes the list of objects, as the source file defines it.
- The source returns `closestIntersection` outside the block that declares it. The model returns the cached field instead.
- The constructor leaves the vectors, `cursorPlaced` and the would-be cached Selection uninitialised. The model starts them at zero, `false`, and a Selection with distance -1 ("no selection").

## Model

| member | source | states |
|---|---|---|
| `Geometry.Intersect` | src/Plane.h:38-45 | NoIntersection exactly when dot(direction, normal) = 0; otherwise a point on the plane (the point start + t*direction with t = dot(point - start, normal) / dot(direction, normal), for any sign of t; `HitOnPlaneAndRay` and `HitIsUnique` show it is the ray line's only point on the plane) |
| `Geometry.IntersectBehindStart` | src/Plane.h:45 | a plane behind the start is reported too: from the origin along -z, the plane z = 10 is met at parameter -10 |
| `Geometry.IntersectsIffNotParallel` | src/Plane.h:37-45 | a ray meets a plane exactly when its direction is not orthogonal to the normal |
| `Geometry.DotAlongRay` | src/Plane.h:45 | a ray point's signed offset from the plane is linear in the ray parameter |
| `Geometry.HitOnPlaneAndRay` | src/Plane.h:38-45 | the reported intersection point lies on the plane and on the ray |
| `Geometry.HitIsUnique` | src/Plane.h:45 | a non-parallel ray has no point on the plane other than the reported one |
| `Geometry.ParallelRayMisses` | src/Plane.h:45 | a parallel ray that starts off the plane never reaches it, which justifies "no intersection" |
| `Geometry.HitIgnoresDirectionLength` | src/Plane.h:45 | scaling the ray direction by any non-zero factor does not change the intersection |
| `Selections.Closest` | src/ViewpointCursor.cpp:62-78 | the kept index is None exactly when no answer has a positive distance; otherwise it is a hit no farther than any hit and strictly nearer than every earlier hit |
| `Selections.ClosestIsUnique` | src/ViewpointCursor.cpp:73-77 | at most one index is a closest hit with the first-wins rule, so the pick is determined by the answers |
| `Selections.ClosestCharacterised` | src/ViewpointCursor.cpp:69-78 | any index meeting the closest, first-wins characterisation is the one `Closest` picks |
| `Selections.MissesDoNotMatter` | src/Selectable.h:47-51 | appending an answer that is not a hit (distance at most 0) leaves the pick unchanged |
| `Controller.ClosestSelectable` | src/ViewpointCursor.cpp:59-78 | the loop returns None iff no object reports a positive distance; otherwise the index and answer of the closest hit, the first among equals |
| `Controller.ViewpointCursor.constructor` | src/ViewpointCursor.cpp:35-39 | plane distance 10000, the given input scale and mode, nothing pending, cursor not placed; defaults scale 1.0 and Normal mode |
| `Controller.ViewpointCursor.MoveCursor` | src/ViewpointCursor.cpp:44-54 | the new state is `Moved` of the old one |
| `Controller.ViewpointCursor.GetCursor` | src/ViewpointCursor.cpp:56-113 | the new state is `Resolved` of the old one, and the returned Selection is the cached one |
| `Controller.ViewpointCursor.SetUserPosition` | src/ViewpointCursor.cpp:115-118 | the new state is the old one with the new position, followed by a reverse update |
| `Controller.ViewpointCursor.SetViewDirection` | src/ViewpointCursor.cpp:120-123 | the new state is the old one with the new direction, followed by a reverse update |
| `Controller.ViewpointCursor.ReverseUpdate` | src/ViewpointCursor.cpp:125-144 | the new state is `Reprojected` of the old one |
| `CursorSpec.InitialState` | src/ViewpointCursor.cpp:35-37 | construction gives plane distance 10000, mouse scale equal to the input scale, the given mode, a clean flag, an unplaced cursor and a "no selection" cache |
| `CursorSpec.MoveCursorOffset` | src/ViewpointCursor.cpp:44-54 | X moves by dx*scale; Y moves by -dy*scale in InvertY mode and by +dy*scale in Normal mode; the flag is set; no other field changes |
| `CursorSpec.UnitScaleAddsRawDeltas` | ViewpointCursor.h:156-159 | with scale 1 in Normal mode the raw deltas are added unchanged |
| `CursorSpec.MovesAccumulate` | ViewpointCursor.h:77-83 | a series of moves shifts the offset by the scaled, mode-signed sum of its deltas, sets the flag iff it is non-empty, and changes nothing else |
| `CursorSpec.MoveOrderIsIrrelevant` | src/ViewpointCursor.cpp:46-52 | two series of moves give the same 2D offset in either order |
| `CursorSpec.ResolveHandshake` | src/ViewpointCursor.cpp:57-79 | resolution always leaves the flag clear; a clean state is not changed; resolving twice equals resolving once |
| `CursorSpec.ResolveOnHit` | src/ViewpointCursor.cpp:81-88 | the closest hit places the cursor at its point and normal, and the Selection keeps its distance, gets a fresh rotation and names the winning object; nothing else changes |
| `CursorSpec.SingleObjectIsSelected` | ViewpointCursor.h:86-91 | one object hit at a positive distance is the one selected, with its own distance |
| `CursorSpec.NearerOfTwoIsSelected` | src/ViewpointCursor.cpp:69-78 | of two objects hit at d1 < d2, the nearer one is selected in either list order, and the cursor takes its point |
| `CursorSpec.ResolveOnFallbackPlane` | src/ViewpointCursor.cpp:90-106 | with no hit and a non-parallel ray, the cursor is placed on the plane through userPos + viewDirection*planeDistance with normal viewDirection, on the ray, with normal -viewDirection; the Selection names no object |
| `CursorSpec.ResolveDegenerate` | src/ViewpointCursor.cpp:107-109 | with no hit and a ray parallel to the fallback plane, only the pending flag changes |
| `CursorSpec.ObjectIffHit` | ViewpointCursor.h:86-91 | unless the degenerate case applies, the Selection names an object exactly when some object was hit, and then names the closest one |
| `CursorSpec.FallbackIsAhead` | src/ViewpointCursor.cpp:90-95 | for a positive plane distance and a ray pointing forward, the fallback point is at a strictly positive ray parameter |
| `CursorSpec.ReprojectEffect` | src/ViewpointCursor.cpp:125-143 | reverse update always sets planePos = userPos + viewDirection*planeDistance; only when the ray towards the 3D cursor meets the plane does it set backCursor to that point and cursor2D to its local coordinates; otherwise those stay; nothing else changes |
| `CursorSpec.PoseSettersKeepResolution` | ViewpointCursor.h:108-129 | each pose setter changes its own pose field and reverse update's fields, never the flag, the 3D cursor or the cached Selection |
| `CursorSpec.PoseUpdateDiscardsPendingMove` | src/ViewpointCursor.cpp:115-143 | a position update after moveCursor and before getCursor gives the same 2D offset as without the move, whenever the back-projection meets the plane, and the update stays pending |
| `CursorSpec.StepKeepsResolution` | src/ViewpointCursor.cpp:83-100 | no single call clears cursorPlaced or changes the configuration; a call other than moveCursor on a clean state keeps it clean, with the same cache |
| `CursorSpec.SessionInvariants` | ViewpointCursor.h:169-172 | over any sequence of calls, cursorPlaced never goes back to false, and plane distance, mode and scale are fixed |
| `CursorSpec.CleanSessionServesCache` | src/ViewpointCursor.cpp:56-57 | with no moveCursor call, a clean controller stays clean and serves the same cached Selection and 3D cursor, even across pose updates |

## Notes

- A pose update discards pending input. `setUserPosition` and `setViewDirection` re-derive the 2D offset from the last 3D cursor without first resolving the pending moves, so the deltas of a `moveCursor` made since the last `getCursor` are overwritten whenever the back-projection meets the plane. The flag stays set, so the next `getCursor` casts a ray through the re-derived offset. `CursorSpec.PoseUpdateDiscardsPendingMove` states this for `setUserPosition`.

## Left out

- Floating point: components are `real`, so rounding, infinities and NaN are not modelled.
- The largest-float initial bound of the scan is not modelled. The model accepts a hit at any positive distance. The source would ignore a hit at or beyond the largest float.
- getCursorDirection, getCursorRotation, normalize and the inverse user transform have no code to model. They are opaque parameters (`Optics`), so nothing depends on what they compute. For the same reason, the cursor orientation matrix (getCursorRotation, ViewpointCursor.h:94-105) is not characterised.
- getUserRotation and getCursorTransform (ViewpointCursor.h:174-179) have no code, and no modelled operation calls them. getUserPosition and getViewDirection are read as fields, as described above.
- The reverse-projection continuity claim is not proved. It says the 3D point stays fixed under head motion, but it depends on the inverse transform and normalisation, which are not modelled.
- Concrete Selectable implementations are foreign, polymorphic code. Only their answers are modelled, as the function `Scene`. Whether they mutate themselves during a test is not modelled.
- Selectable references are modelled as plain identifiers. Pointer lifetime and aliasing are not modelled.
- Logging to `clog` is left out. It has no effect on state.
- The Module and Texture includes, the unused field `poi`, and the destructor have no behaviour to model and are left out.

