# Track containment, surface bands and car controls of a browser racing game

This project models the non-graphical core of a single-file browser racing
demo (`script.js`) and proves properties of it. All arithmetic is on Dafny's
`real`, so there is no IEEE-754 rounding. The core covers:

- **Track containment** (`checkTrackBoundaries`). An even-odd ray-casting
  test decides whether the car's ground position (x, z) is inside the closed
  boundary polygon `track.boundaries`. When it is not, the routine halves
  `GAME_STATE.carSpeed` and moves the car 10% of the way to the nearest
  boundary vertex.
- **Surface classification** (`isOnTrack`, `isInGravelTrap`,
  `getGroundSurfaceAt`). The distance from a position to the nearest
  boundary vertex selects one of three surfaces: `track` for a distance of at
  most 5, `gravel` for more than 5 and at most 8, and `grass` otherwise.
- **Speed and yaw update** (the scalar part of `updateCarPhysics`). The
  accelerate and brake flags change the speed, and the speed is clamped to
  [-1.5, 1.5]. The turn flags change the yaw.
- **Keyboard control state** (the `keydown` and `keyup` listeners of
  `setupControls`). A lower-cased key name is looked up among five controls.
  Keydown sets that control's flag and keyup clears it.

Modules:

- `Wrappers` holds `Option`.
- `Geometry` holds points, squared distance and reals extended with
  +infinity.
- `RayCasting` holds the crossing test, the toggling loop and the
  bounding-box theorem.
- `Nearest` holds the argmin scan over the vertices.
- `Surfaces` holds the three-way classification.
- `Controls` holds the key table and the `controls` record, which is a
  class that the listeners update in place.
- `Physics` holds the speed and yaw functions.
- `Game` holds the `GAME_STATE` and car classes, with the two routines
  that change them in place.
- `TrackData` holds the circuit from `createTrack` and worked scenarios.

Modelling decisions:

- The source compares `Math.sqrt` of squared distances. The model compares
  the squared distances instead, with thresholds 25 and 64. The square root
  is strictly increasing on non-negative reals, so every `<` and `<=` the
  source evaluates is decided the same way.
- The scans start from `minDistance = Infinity`. This becomes
  `ExtReal.PosInf`.
- A missing `track.boundaries` (null or undefined) is `None`. An empty
  array is `Some([])`. In JavaScript an empty array is truthy, so the
  helpers then fall through to the scan, which never lowers `Infinity`.
  Both cases therefore give `grass`.
- `checkTrackBoundaries` reads `boundaries[0]` and then `nearestPoint[0]`
  without a guard, so on an empty boundary it throws. Its model requires a
  non-empty boundary.
- The three copies of the argmin loop in the source are one method here,
  `Nearest.NearestVertex`. The crossing loop is `RayCasting.RayCastInside`,
  which `CheckTrackBoundaries` calls.
- The surface rule measures the distance to the nearest boundary vertex,
  not to the nearest edge. One might expect the centre (5, 5) of the square
  (0,0),(10,0),(10,10),(0,10),(0,0) to be on track. Every vertex of that
  square is sqrt 50 ≈ 7.07 away from the centre, so the code returns
  `gravel`, and the model follows the code. `TrackData.SquareCentre` proves
  this answer.
- The car's start position (0, -5) (script.js:435) lies outside the
  circuit polygon, because it is below every waypoint. Its surface is still
  `track`, because it is exactly 5 from the start vertex.
  `TrackData.StartPosition` proves both facts.

## Model

| member | source | states |
|---|---|---|
| `RayCasting.Prev` | script.js:724 | the edge partner j of vertex i is i - 1, and n - 1 for i = 0, always a valid index |
| `RayCasting.Crosses` | script.js:728-730 | the division runs only after the straddle test has passed, and that test forces the divisor `point2[1] - point1[1]` to be non-zero; a crossed edge straddles the ray and reaches to the right of the point |
| `RayCasting.CrossingXBetween` | script.js:728-730 | for a straddling edge, the computed crossing x lies between the x coordinates of the edge's two ends |
| `RayCasting.RayCastInside` | script.js:721-733 | the toggled flag equals the even-odd rule: an odd number of edges (b[i], b[j]) is crossed |
| `RayCasting.StraddlingParity` | script.js:724-728 | the parity of straddling edges over the first k edges is fixed by the sides of the line on which b[0], b[k-1] and b[n-1] lie |
| `RayCasting.StraddlingEven` | script.js:724-728 | around the closed cycle of edges, an even number straddle any horizontal line |
| `RayCasting.LeftOfAllCrossesEveryStraddler` | script.js:728-730 | a point left of every vertex has every straddling edge counted as crossed |
| `RayCasting.NoEdgeCrossed` | script.js:728-730 | a point right of, above or below every vertex has no edge counted |
| `RayCasting.OutsideBoundingBoxNotInside` | script.js:721-736 | a position strictly outside the bounding box of the boundary is classified outside |
| `Nearest.NearestIndex` | script.js:741-753 | the vertex the strict-`<` scan keeps is at least as close as every vertex, and strictly closer than every earlier vertex, so ties keep the first |
| `Nearest.MinDist2` | script.js:784-796 | the least distance is infinity exactly when there is no vertex; otherwise some vertex attains it and none is closer |
| `Nearest.NearestVertex` | script.js:741-753 | the scan's `nearestPoint` is absent only for an empty boundary; otherwise it is the first closest vertex, a member of the boundary that is no farther than any vertex; `minDistance` is the least distance |
| `Nearest.MinDist2SameVertices` | script.js:787-796 | the least distance depends only on the set of vertices, not on their order or their repetition |
| `Nearest.MinDist2Reversed` | script.js:787-796 | reversing the winding leaves the least distance unchanged |
| `Surfaces.MinDistance` | script.js:780-796 | a missing boundary yields an infinite distance |
| `Surfaces.IsOnTrack` | script.js:778-801 | true exactly when boundaries exist and some vertex lies within 5 of the position |
| `Surfaces.IsInGravelTrap` | script.js:803-826 | true exactly when boundaries exist, some vertex lies within 8 and every vertex lies farther than 5 |
| `Surfaces.GroundSurfaceAt` | script.js:829-837 | the surface is the band of the least vertex distance |
| `Surfaces.SurfaceBands` | script.js:799-825 | `track` iff d ≤ 5, `gravel` iff 5 < d ≤ 8, `grass` iff d > 8 or no vertex (distances squared), so exactly one surface holds |
| `Surfaces.TrackAndGravelExclusive` | script.js:799-825 | `isOnTrack` and `isInGravelTrap` are never both true |
| `Surfaces.NoBoundariesIsGrass` | script.js:780-781 | with missing or vertex-less boundaries both helpers are false and the surface is `grass` |
| `Surfaces.SurfaceMonotone` | script.js:829-837 | a larger least distance never gives a closer band (track, then gravel, then grass) |
| `Surfaces.SurfaceSameVertices` | script.js:829-837 | two boundaries with the same vertices classify every position alike |
| `Surfaces.SurfaceReversed` | script.js:829-837 | the classification does not depend on the winding direction |
| `Controls.ControlState.With` | script.js:449-461 | assigns the chosen flag and leaves the other four as they were |
| `Controls.LowerChar` | script.js:447 | lower-cases A to Z and leaves every other character alone; the result is never an upper-case letter |
| `Controls.ToLower` | script.js:447 | lower-cases each character of the key name, keeping the length and the position of every character |
| `Controls.ToLowerIdempotent` | script.js:447 | lower-casing twice is the same as lower-casing once |
| `Controls.Lookup` | script.js:447-463 | the switch on the lower-cased name agrees, in both directions, with the table w/arrowup → accelerate, s/arrowdown → brake, a/arrowleft → turnLeft, d/arrowright → turnRight, space → handbrake; every other name is unbound |
| `Controls.KeyControl` | script.js:446-447 | a key event selects a control exactly when its lower-cased key is in that control's table entry, and selects none when the lower-cased key is in no entry |
| `Controls.KeyCaseInsensitive` | script.js:447 | a key and its lower-case form select the same control |
| `Controls.KeyExamples` | script.js:447-463 | "W" selects accelerate, "ArrowLeft" selects turnLeft, and "Shift" selects nothing |
| `Controls.OnKey` | script.js:445-485 | a bound key sets its flag (keydown) or clears it (keyup) and leaves the other four flags unchanged; an unbound key changes nothing |
| `Controls.PressRelease` | script.js:445-485 | keyup after keydown clears the flag and restores the rest; a repeated keydown changes nothing more |
| `Controls.ControlFlags.constructor` | script.js:97-103 | every flag starts false |
| `Controls.ControlFlags.KeyDown` | script.js:446-464 | the record after a keydown is the key-event function applied with `down` true |
| `Controls.ControlFlags.KeyUp` | script.js:466-484 | the record after a keyup is the key-event function applied with `down` false |
| `Controls.ControlFlags.SetFor` | script.js:447-463 | the switch written out identically in both listeners (script.js:447-463 and 467-483), factored into one method: the record after it is the key-event function applied with `down` equal to `v`, so it assigns the bound flag and no other |
| `Physics.Clamp` | script.js:518-519 | the result lies in [-1.5, 1.5], is the input when the input is in range, and is the nearest limit otherwise |
| `Physics.NextSpeed` | script.js:505-519 | after an update the speed lies in [-1.5, 1.5] |
| `Physics.Throttle` | script.js:505-515 | accelerate adds 0.02, brake subtracts 0.04, both together give -0.02, and neither multiplies by 0.99 |
| `Physics.ClampMonotone` | script.js:518-519 | clamping preserves the order of speeds |
| `Physics.ControlsOrderSpeed` | script.js:505-519 | within the limit, braking ≤ coasting ≤ accelerating, and accelerate plus brake ≤ accelerate alone |
| `Physics.CoastingDecays` | script.js:512-519 | with neither pedal, the speed's magnitude does not grow and its sign does not flip |
| `Physics.NextYaw` | script.js:529-534 | left adds 0.02, right subtracts 0.02, and both or neither leave the yaw as it was |
| `Physics.HalvingKeepsRange` | script.js:738 | halving the speed keeps it within the limit and never increases its magnitude |
| `Game.Nudge` | script.js:756-757 | the corrected position is 10% of the way to the target vertex: its distance to the target is 0.9 of the old one, and it moved 0.1 of that distance |
| `Game.Advance` | script.js:522-526 | the car moves by the speed times the length of its direction vector, so a unit direction moves it exactly `speed`; at speed 0 it stays put |
| `Game.GameState.constructor` | script.js:88-103 | the speed is 0, there is no car yet, and no control is held |
| `Game.GameState.UpdateCarPhysics` | script.js:501-534 | with no car nothing happens; otherwise the new speed is the clamped throttle update and lies in range, the car moves along its world direction by the new speed, and the yaw is the turn update |
| `Game.GameState.CheckTrackBoundaries` | script.js:718-763 | returns the even-odd containment of the old position; inside, the speed and position are unchanged; outside, the speed is exactly halved and the position is nudged toward the first nearest vertex; the speed bound is preserved |
| `TrackData.TrackPointsClosed` | script.js:247-256 | the circuit's eight waypoints repeat the first as the last |
| `TrackData.StartPosition` | script.js:435 | the start position (0, -5) is outside the circuit polygon, its nearest vertex is the first waypoint, its surface is track, and a correction would move it to (0, -4.5) |
| `TrackData.InfieldInside` | script.js:247-256 | (40, 40) is inside the circuit |
| `TrackData.SquareCentre` | script.js:799-837 | the centre of the square is inside, but at least distance sqrt 50 from every vertex, so it is classified gravel |
| `TrackData.SquareOutsideCorrection` | script.js:736-759 | (20, 20) is outside the square, its nearest vertex is (10, 10), and the correction moves it to (19, 19) |

## Left out

- Scene, renderer, camera, lighting, car mesh and track mesh construction are not modelled. They are calls into a 3D graphics library whose code is not part of this model. The mesh, extrusion, barrier and marking parts of `createTrack` fall under this too; only its `trackPoints` polygon is kept, as data.
- `getWorldDirection` is not modelled. `UpdateCarPhysics` takes the (x, z) components of the direction as a parameter. The car's height (`position.y`) is not modelled.
- `updateCamera`'s quaternion arithmetic is not modelled. It consists of foreign vector calls.
- `getSurfaceNormal` and `getSurfaceHeight` are not modelled. They rely on the library's ray caster and on vector normalisation.
- `generateTrackPoints` is not modelled. It is trigonometric, and it reads `TRACK` fields that the source never defines.
- `waitForThree`, `animate`, `initGame`, `setupHUD`, `updateHUD`, `updateMiniMap`, `showErrorOverlay` and `debugLog` are not modelled. They are timers, the animation-frame loop, and DOM and canvas output.
- `updateGame` is not modelled. It calls `checkTrackBoundaries` and logs, and nothing in the program calls it.
- The handbrake flag is tracked by the key handlers. No modelled routine reads it, and neither does `updateCarPhysics`.
- `Controls.LowerChar`: only A–Z are lower-cased. JavaScript's `toLowerCase` also maps other Unicode letters, but the model does not capture that.
- `Game.GameState.CheckTrackBoundaries`: a `track` that is null or undefined, or a boundary entry that is null or undefined, throws in JavaScript. A boundary entry that is a number or has fewer than two elements does not throw: its missing coordinates read as `undefined`, every comparison with them is false and every sum is NaN. The model's types (a sequence of pairs of reals) exclude all of these. An empty boundary, on which the source halves the speed and then throws at `nearestPoint[0]`, is excluded by the precondition.
- `Surfaces.GroundSurfaceAt`: the model takes the boundary list as a parameter, where the source reads `GAME_STATE.track`. A null `GAME_STATE.track` throws in the source, and the model does not capture this.
- `RayCasting.RayCastInside`: containment is proved in general only for positions strictly outside the bounding box of the boundary (`RayCasting.OutsideBoundingBoxNotInside`) and on concrete polygons in `TrackData`. That the centroid of a convex polygon is inside is not proved, because it needs convexity reasoning the model does not have.
- NaN and infinite coordinates are not modelled, and neither is floating-point rounding.
