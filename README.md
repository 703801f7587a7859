# Gesture-driven particle swarm — a Dafny model

This project models the logic core of a browser app. The app draws a swarm of
6000 points that morph between target shapes: sphere, cube, heart, flower,
saturn, firework and a random cloud. A webcam hand tracker controls the swarm
in three ways:

- a hand gesture selects the shape;
- a fist grabs the swarm and rotates it;
- any other hand pose pushes nearby points away.

The model covers three pieces, each in its source's own form.

- **Gesture classifier and debouncer** (`HandTracker.tsx`). The pure
  priority chain is the `Gestures` module. The rules of the bounded history
  are stated on values in `Debounce`. The tracker is a class in
  `HandTracking`:
  - `DetectLogic` pushes the frame's label and drops the oldest entry past
    ten;
  - `CountLabels` and `FindDominant` are the counting pass and the
    first-strict-max search, written as loops;
  - a commit reaches the shared store only when one label holds more than
    80% of a history longer than five.

  `PredictFrame` handles the hand-present and hand-absent branches. Each
  method is proved against the value-level functions. The lemmas prove what
  those functions promise: a dominant label is unique, the history is always
  the latest ten labels, and a fist commit never changes the shape.
- **Per-tick particle step** (`ParticleField.tsx`). The `getShapePosition`
  dispatch is in `ShapeField`. The cube grid is exact integer arithmetic. The
  trigonometric shapes come in as given functions. `Particles` has the grab
  machine, the smoothed rendered rotation, the repulsion falloff and the
  exponential blend. `ParticleField.Move` is the in-place loop over a
  fixed-size `array`.
- **Shared store** (`store.ts`). This is the class `Store.AppState`, with
  five fields and one setter per field.

All numbers are Dafny `real`s or `int`s, so there is no float rounding. The
store's `targetShape` has type `ShapeType`, a datatype with seven
constructors, so it always holds one of the seven shapes.

Notes on the code's own behaviour:

- The commit runs on every frame whose history passes the threshold, so a
  steady gesture rewrites the store on each frame. The store writes are
  idempotent (`Debounce.CommitIdempotent`, `Store.SettersAreIdempotent`), so
  while the tracker is the only writer the observable state changes only on
  the first of them. A shape chosen with a page button while a shape gesture
  is held steady is overwritten by the next frame's re-commit.
- Six `fist` labels followed by five `open` labels leave five of each in the
  ten-slot history, and nothing commits; five more `open` labels commit `open`
  (`Debounce.ThresholdScenario`).
- The length of the landmark array is never checked. A hand reported with
  fewer than 21 landmarks makes the handler fail at the first missing
  landmark. That frame is not classified, and no next frame is scheduled.
- The "four or more extended" rule counts the thumb. The flower, firework and
  cube rules do not read it.
- The push on a particle is the falloff factor times its offset from the
  interaction point. Only the factor fades with distance: the push is zero at
  the point itself and, along a ray, grows out to distance 2
  (`Particles.RepelPeaksInside`), then weakens and is gone from distance 4 on
  (`Particles.RepelFadesOutside`).
- A lost hand does not reset the grab: the tracker keeps the committed `fist`
  and the particle field keeps the remembered hand position. A fist seen again
  after the loss turns the rotation target by the whole displacement across
  the gap in one tick (`Particles.GripSurvivesLoss`).

The code compares `maxCount > length * 0.8` in floating point. For lengths 1
to 10, which are all the history can reach, the double value of `length * 0.8`
lies on the same side of every integer as the exact product. The model's exact
comparison of reals therefore decides the same way.

## Model

| member | source | states |
|---|---|---|
| `Store.ParseShape` | src/app/store.ts:3 | a name parses to a shape only if that shape's name is the name |
| `Store.ShapeNameRoundTrip` | src/app/store.ts:3 | each of the seven shape names parses back to its own shape, so the names are distinct |
| `Store.AppState.constructor` | src/app/store.ts:18-23 | initial state: hand position (0,0,0), no hand, gesture null, target shape sphere, rotation (0,0) |
| `Store.AppState.SetHandPosition` | src/app/store.ts:24 | replaces the hand position and leaves the other four fields unchanged |
| `Store.AppState.SetHandDetected` | src/app/store.ts:25 | replaces the detected flag and leaves the other four fields unchanged |
| `Store.AppState.SetGesture` | src/app/store.ts:26 | replaces the gesture and leaves the other four fields unchanged |
| `Store.AppState.SetRotation` | src/app/store.ts:27 | replaces the rotation and leaves the other four fields unchanged |
| `Store.AppState.SetTargetShape` | src/app/store.ts:28 | replaces the target shape and leaves the other four fields unchanged |
| `Store.SettersAreIdempotent` | src/app/store.ts:24-28 | applying every setter a second time with the same values leaves the state as after the first time |
| `Gestures.ExtendedIsScaleFree` | src/components/tracking/HandTracker.tsx:82-93 | the 1.15 extension test gives the same answer when every distance is scaled by the same positive factor |
| `Gestures.ExtendedCount` | src/components/tracking/HandTracker.tsx:104 | the count is the number of extended digits, thumb included: one for each of thumb, index, middle, ring and pinky that is extended; so it is at most 5, and 0 exactly when no digit is extended |
| `Gestures.ClassifyInLabels` | src/components/tracking/HandTracker.tsx:101-143 | the pushed label is one of the eight names heart, saturn, fist, flower, firework, cube, sphere, open, and never `random` |
| `Gestures.PinchesComeFirst` | src/components/tracking/HandTracker.tsx:108-116 | a thumb–index pinch gives `heart` whatever the fingers are; otherwise a thumb–middle pinch gives `saturn`; both directions |
| `Gestures.FistIffClosed` | src/components/tracking/HandTracker.tsx:104-120 | without a pinch, the label is `fist` exactly when index, middle, ring and pinky are all curled (count 0, or 1 with the thumb) |
| `Gestures.FingerRules` | src/components/tracking/HandTracker.tsx:121-135 | without a pinch or a fist, the flower, firework and cube patterns give their labels whatever the thumb does |
| `Gestures.SphereOrOpen` | src/components/tracking/HandTracker.tsx:136-143 | every other hand gives `sphere` when four or more digits (thumb counted) are extended, else `open` |
| `Debounce.Window` | src/components/tracking/HandTracker.tsx:143-144 | a push appends the label; from a full history of ten it drops exactly the oldest entry and keeps the order; the length stays at most ten |
| `Debounce.FeedKeepsLatest` | src/components/tracking/HandTracker.tsx:143-144 | after any sequence of pushes the history is the latest ten labels in push order |
| `Debounce.CountsOfTwo` | src/components/tracking/HandTracker.tsx:148-149 | the counts of two different labels add up to at most the history length |
| `Debounce.FirstsAreTheLabels` | src/components/tracking/HandTracker.tsx:148-154 | the dictionary's keys, in insertion order, are exactly the labels of the history, each once |
| `Debounce.OverIsUnique` | src/components/tracking/HandTracker.tsx:162 | at most one label can hold more than 80% of the history, so tie-breaking never decides a commit |
| `Debounce.MajorityIff` | src/components/tracking/HandTracker.tsx:162 | the committed label is `g` exactly when the history is longer than 5 and `g` holds more than 80% of it |
| `Debounce.SelectableShape` | src/components/tracking/HandTracker.tsx:167-168 | a label selects a shape only if it is one of the six names, and never `random` |
| `Debounce.SettleEffect` | src/components/tracking/HandTracker.tsx:162-171 | no commit changes nothing; a `fist` commit sets gesture `fist` and keeps the shape; any other commit sets `open`; committing one of the six shape names sets gesture `open` and that shape; any other label (`open` among them) keeps the shape; a shape change is to the committed, non-random shape |
| `Debounce.CommitIdempotent` | src/components/tracking/HandTracker.tsx:163-170 | committing the same dominant label twice gives the same result as committing it once |
| `Debounce.SingleLabelNeverCommits` | src/components/tracking/HandTracker.tsx:162 | a history of at most one label commits nothing |
| `Debounce.CountUniform` | src/components/tracking/HandTracker.tsx:148-149 | a history made of one label counts that label as many times as the history is long |
| `Debounce.UniformCommits` | src/components/tracking/HandTracker.tsx:143-162 | six or more identical labels in the history commit that label |
| `Debounce.ThresholdScenario` | src/components/tracking/HandTracker.tsx:143-162 | 6 fists then 5 opens leave 5 + 5 in the history and commit nothing; 5 more opens commit `open` |
| `HandTracking.HandPosition` | src/components/tracking/HandTracker.tsx:61-63 | the hand position is (1 − 2·x₈, 1 − 2·y₈, 0), which lies in [−1,1]² when the fingertip is in the image |
| `HandTracking.HandPositionInverse` | src/components/tracking/HandTracker.tsx:61-63 | the fingertip can be recovered from the hand position, so the mapping is one-to-one |
| `HandTracking.CountLabels` | src/components/tracking/HandTracker.tsx:148-149 | the counting loop's dictionary holds each label of the history with its number of occurrences, and its keys are in first-seen order |
| `HandTracking.FindDominant` | src/components/tracking/HandTracker.tsx:152-159 | the max-search loop returns the largest count and the first key in order that has it; an empty dictionary gives 0 and "" |
| `HandTracking.DominantIsMajority` | src/components/tracking/HandTracker.tsx:148-162 | on the loops' results, the code's test passes exactly when the history has a majority label, and that label is then the dominant one |
| `HandTracking.HandTracker.constructor` | src/components/tracking/HandTracker.tsx:9-10 | a new tracker has an empty history and no previous hand position |
| `HandTracking.HandTracker.DetectLogic` | src/components/tracking/HandTracker.tsx:77-172 | the history becomes the bounded push of the frame's label; the committed gesture and shape become the debounce outcome for that history; the other store fields are unchanged |
| `HandTracking.HandTracker.PredictFrame` | src/components/tracking/HandTracker.tsx:56-72 | a hand frame sets detected, sets the hand position, runs the detection step and remembers the position; a frame without a hand clears the detected flag, the history and the previous position, and keeps gesture and shape |
| `HandTracking.NoCommitRightAfterLoss` | src/components/tracking/HandTracker.tsx:68-72 | after a lost hand empties the history, the next hand frame alone cannot commit |
| `ShapeField.CubeCellDecomposes` | src/components/scene/ParticleField.tsx:233-235 | ix and iy lie in [0, n); for i < n³ also iz < n and i = ix + n·iy + n²·iz |
| `ShapeField.GridCoordinateInRange` | src/components/scene/ParticleField.tsx:232-240 | with spacing 7/n·2, each grid coordinate k·spacing − 7 for 0 ≤ k < n lies in [−7, 7) |
| `ShapeField.CubeInsideBox` | src/components/scene/ParticleField.tsx:230-241 | each cube target of a particle the grid holds lies in the box [−7, 7)³ |
| `ShapeField.CubeTargetsDistinct` | src/components/scene/ParticleField.tsx:230-241 | two different particles the grid holds get different cube targets |
| `ShapeField.DefaultFallThrough` | src/components/scene/ParticleField.tsx:219-337 | a shape that is none of the six named ones, which can only be `random`, gets the default cloud |
| `Particles.GrabMovesOnlyWhileGripping` | src/components/scene/ParticleField.tsx:63-89 | the rotation target changes only for a detected fist with a remembered position; a non-fist clears that position; a lost hand changes nothing; z never changes |
| `Particles.GripTelescopes` | src/components/scene/ParticleField.tsx:70-78 | over a run of gripping ticks, y turns by 2·(total Δx) and x by −2·(total Δy) from where the grip started, and the last position is remembered |
| `Particles.GripSurvivesLoss` | src/components/scene/ParticleField.tsx:63-89 | a tick without a hand keeps the remembered position, so the next fist tick turns y by 2·Δx and x by −2·Δy measured from the position before the loss |
| `Particles.GripMovingRightTurns` | src/components/scene/ParticleField.tsx:70-78 | a grip that ends to the right of where it started has increased the y rotation |
| `Particles.RenderedClosesGap` | src/components/scene/ParticleField.tsx:95-96 | one smoothing step leaves 0.9 of the gap on x and y, never passes the target, and leaves z untouched |
| `Particles.ChaseGap` | src/components/scene/ParticleField.tsx:95-96 | after k interpolation steps toward a fixed goal the gap is (1 − t)^k times the first gap |
| `Particles.PowInUnit` | src/components/scene/ParticleField.tsx:95-96 | the shrink factor (1 − t)^k lies in [0, 1], and below 1 when k > 0 and t > 0, so smoothing converges without changing sign |
| `Particles.FalloffShape` | src/components/scene/ParticleField.tsx:129-130 | the falloff is 1 at distance 0, lies in [0, 1] for real distances, is 0 from radius 4 on, and does not increase with distance |
| `Particles.RepelPointsAway` | src/components/scene/ParticleField.tsx:125-135 | the push is −1.5·falloff times the offset, so it points away from the interaction point |
| `Particles.RepelPeaksInside` | src/components/scene/ParticleField.tsx:125-134 | the push is zero at the interaction point, and along a ray its size strictly grows with distance up to 2 |
| `Particles.RepelFadesOutside` | src/components/scene/ParticleField.tsx:125-135 | along a ray, from distance 2 on the push weakens with distance, and from distance 4 on it is zero |
| `Particles.NoForceWhileGripping` | src/components/scene/ParticleField.tsx:113 | no particle is pushed while the committed gesture is `fist` |
| `Particles.NoForceFarAway` | src/components/scene/ParticleField.tsx:129 | a particle at distance 4 or more from the local interaction point is not pushed |
| `Particles.BlendClosesGap` | src/components/scene/ParticleField.tsx:143-145 | without twinkle a blend step leaves 0.96 of the gap on each axis, is the 0.04 interpolation step, and z never carries twinkle |
| `Particles.Advance` | src/components/scene/ParticleField.tsx:99-145 | one tick keeps the number of particles |
| `Particles.AdvanceApproachesTarget` | src/components/scene/ParticleField.tsx:99-145 | an unpushed particle without twinkle closes 4% of the gap to its shape target on every axis; for the cube that target is the grid point |
| `Particles.ParticleField.constructor` | src/components/scene/ParticleField.tsx:33-51 | the swarm starts from the given positions with zero target rotation, zero rendered rotation and no remembered hand |
| `Particles.ParticleField.Frame` | src/components/scene/ParticleField.tsx:53-145 | one tick: the grip becomes the grab step of the store's hand and gesture; the rendered rotation chases the new target; every particle moves by the tick's step, using hand or pointer as interaction point |
| `Particles.ParticleField.Move` | src/components/scene/ParticleField.tsx:99-145 | the particle loop leaves the array equal to the tick's step applied to every slot of its old contents |

## Left out

- `HandTracking.HandFrame`: a frame always carries every reading the classifier needs. The failure on a hand reported with fewer than 21 landmarks, which ends the frame loop, is not modelled.
- Camera and landmark plumbing: model loading, webcam access, `detectForVideo`, animation-frame scheduling, the retry while the video has no width, and teardown. These are foreign I/O; `PredictFrame` takes one frame's readings or "no hand".
- Landmark geometry: the `Math.hypot` distances come in as `Gestures.HandDistances`, which `Gestures.Read` turns into the seven booleans the classifier reads.
- `HandTracking.HandTracker.DetectLogic`: the source passes the current position to the detection step, which never reads it, so the model does not pass it.
- `ShapeField.ShapePosition`: the sphere, heart, flower, saturn, firework and cloud formulas are trigonometric and enter as given functions of index and count (`ShapeField.Curves`).
- `ShapeField.ShapePosition`: the cube side `ceil(count^(1/3))` is a parameter that must satisfy count ≤ side³. That it is the smallest such side is not modelled, because `Math.pow` is floating point.
- Colours: `getShapeColor`, the colour blend and the random white flash depend on `Math.random` and HSL conversion. The random initial positions are the constructor's argument.
- Scale sparkle, instance matrices, textures and the material: rendering only.
- The rotation of the interaction point by the Euler angles (−x, −y, 0) of the rendered rotation, the square-root distance and the sine/cosine twinkle are trigonometric. They are fields of `Particles.Env` that the tick receives.
- `Particles.ParticleField.Frame`: the early return when the mesh is not yet mounted is not modelled.
- The page, the scene and the bloom effects are UI and rendering with no logic. The page's buttons reach the model only through `Store.AppState.SetTargetShape`.
- Concurrency: the video loop and the render loop share the store. The model gives one sequential step of each.
