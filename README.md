# Scan preview dissolve and frame-sequence playback, in Dafny

This project models the two pieces of the TrueDepthFusion app that hold logic of their own.

- **Scan preview** (`ScanPreviewViewController.swift`). A reconstructed mesh appears through a dissolve. A repeating 8-second SceneKit action maps elapsed time to a reveal parameter `at` through a piecewise-linear timeline. The fragment shader keeps a fragment iff `(noise + 1) * 0.5 <= at`, where `noise` is 3D simplex noise (Ashima Arts' webgl-noise). The controller also keeps the scene graph: `viewWillAppear` empties the scene root and installs a fresh container. The meshing completion handler then appends the mesh node and centres its pivot.
- **Sequence playback** (`ScanSequenceViewController.swift`). A tap starts a chain of loads that re-schedules itself. Each load either shows the accumulator's next point-cloud frame or rewinds the accumulator. A second tap dismisses the screen and deletes the recording.

Files:

- `wrappers.dfy`: `Option`, plus the vector and box types (modules `Wrappers`, `Geometry`).
- `reveal.dfy`: module `RevealTimeline`. The timeline `Reveal`, the repeat-forever clock (`LoopElapsed`, `LoopReveal`) and the fragment test `Visible`. All on `real`.
- `noise.dfy`: module `SimplexNoise`. The shader's `mod289` and `permute` as written (on `real`), proved equal to integer residues on integer input. Also the first-corner skew, corner selection, the corner hashes, and the mod-49 / mod-7 gradient index with `n_` taken as exactly 1/7.
- `scene.dfy`: module `SceneGraph`. A `SceneNode` class with an ordered child list. SceneKit's `removeFromParentNode` is `RemoveChild`. `addChildNode` is `AddChild`: the node is first detached, then appended.
- `scan_preview.dfy`: module `ScanPreview`. The pivot computation, the per-frame dissolve step, and class `PreviewController` with `ViewWillAppear` and `CompleteMeshing`.
- `scan_sequence.dfy`: module `ScanSequence`. The accumulator as a value (frames plus a cursor), the playback chain as pure functions with its looping theorem, the point-cloud replacement invariant, and class `SequenceController`. Each dispatch hop is one atomic method (`FetchFrame` for the background queue, `HandleFetched` for the main queue).

Three points where the code's behaviour differs from what its comments or its structure suggest; the model follows the code:

- The comment at ScanPreviewViewController.swift:164 says `val` is in the range [0, 1], but the noise is not clamped before the test. So at `t = 1` a fragment with noise above 1 is still discarded (`VisibleAtFullReveal`). At `t = 0` every fragment with noise at most -1 is kept, not only those with `val = 0` (`VisibleAtZero`).
- The fourth timeline branch (line 326) starts strictly after `A = 4.5`, while the third ends before 4.5. At exactly 4.5 control falls to the final `else`, which also gives 1, so no value is lost (`RevealHeldAtOne`).
- The recording's container path is removed in the dismissal's completion (lines 62-64). Nothing waits for loads still in flight, and nothing stops the auto-advancing chain: `ViewTapped` leaves `inFlight` as it was when it requests the removal.

## Model

| member | source | states |
|---|---|---|
| RevealTimeline.Reveal | TrueDepthFusion/ScanPreviewViewController.swift:316-333 | the timeline closure, branch by branch; for e >= 0 the parameter lies in [0, 1], and for e <= 0 it is at most 0 |
| RevealTimeline.RevealBreakpoints | TrueDepthFusion/ScanPreviewViewController.swift:320-330 | Reveal(0) = 0, Reveal(0.2) = 0.1, Reveal(3.5) = 0.3, Reveal(4.5) = 1, Reveal(7) = Reveal(8) = 1 |
| RevealTimeline.RevealHeldAtOne | TrueDepthFusion/ScanPreviewViewController.swift:314-330 | for every e >= 4.5 the parameter is 1 (the 4.5 < e < 7 branch and the final else agree) |
| RevealTimeline.RevealMonotone | TrueDepthFusion/ScanPreviewViewController.swift:320-330 | e1 <= e2 implies Reveal(e1) <= Reveal(e2) |
| RevealTimeline.RevealLipschitz | TrueDepthFusion/ScanPreviewViewController.swift:320-330 | continuity: the parameter rises by at most 0.7 per second, so each ramp ends at the value the next segment starts with (0.2, 3.5, 4.5) |
| RevealTimeline.LoopElapsed | TrueDepthFusion/ScanPreviewViewController.swift:335-336 | the elapsed time of the current run of the repeated 8 s action lies in [0, 8), with time = 8 * Iteration(time) + elapsed |
| RevealTimeline.LoopReveal | TrueDepthFusion/ScanPreviewViewController.swift:316-336 | the parameter of the repeated action at any global time lies in [0, 1] |
| RevealTimeline.LoopRevealPeriodic | TrueDepthFusion/ScanPreviewViewController.swift:335-336 | one period (8 s) later, the elapsed time and the parameter are the same |
| RevealTimeline.LoopRevealMonotoneWithinRun | TrueDepthFusion/ScanPreviewViewController.swift:316-336 | within one run of the action the parameter never decreases |
| RevealTimeline.LoopRevealRestarts | TrueDepthFusion/ScanPreviewViewController.swift:316-336 | run k at offset e shows Reveal(e): every run starts at 0 and is fully revealed from 4.5 s into it |
| RevealTimeline.Visible | TrueDepthFusion/ScanPreviewViewController.swift:164-172 | the fragment test: a fragment is kept iff (noise + 1) * 0.5 <= t, that is iff noise <= 2t - 1 |
| RevealTimeline.VisibleMonotone | TrueDepthFusion/ScanPreviewViewController.swift:164-172 | kept at t implies kept at every t' >= t |
| RevealTimeline.VisibleAtFullReveal | TrueDepthFusion/ScanPreviewViewController.swift:164-172 | at t = 1 a fragment is kept iff its noise is at most 1 |
| RevealTimeline.VisibleAtZero | TrueDepthFusion/ScanPreviewViewController.swift:164-172 | at t = 0 a fragment is kept iff its noise is at most -1 |
| RevealTimeline.OnceVisibleStaysVisible | TrueDepthFusion/ScanPreviewViewController.swift:149-172 | a fragment visible at some moment of a run stays visible for the rest of that run |
| RevealTimeline.NoiseSamplePoint | TrueDepthFusion/ScanPreviewViewController.swift:153-159 | the noise sample point is the world position shifted by 0.1 and scaled by 450 (inverting it returns the position) |
| SimplexNoise.Mod289 | TrueDepthFusion/ScanPreviewViewController.swift:50-56 | the shader's mod289 always lies in [0, 289) |
| SimplexNoise.Mod289OfInteger | TrueDepthFusion/ScanPreviewViewController.swift:50-56 | on an integer n, mod289(n) is the least non-negative residue n % 289, so it is congruent to n |
| SimplexNoise.Permute | TrueDepthFusion/ScanPreviewViewController.swift:58-60 | the shader's permute always lies in [0, 289) |
| SimplexNoise.Hash | TrueDepthFusion/ScanPreviewViewController.swift:58-60 | the integer permutation polynomial (34n + 1)n mod 289 lies in [0, 289) |
| SimplexNoise.PermuteOfInteger | TrueDepthFusion/ScanPreviewViewController.swift:58-60 | on an integer the shader's permute equals the integer hash |
| SimplexNoise.HashPeriodic | TrueDepthFusion/ScanPreviewViewController.swift:58-60 | the hash has period 289: Hash(n + 289) = Hash(n) |
| SimplexNoise.HashPeriodicMany | TrueDepthFusion/ScanPreviewViewController.swift:58-60 | Hash(n + 289k) = Hash(n) for every k >= 0 |
| SimplexNoise.SkewedCell | TrueDepthFusion/ScanPreviewViewController.swift:72-74 | the first corner: x0 skewed back lies in the unit cell, and unskewed corner plus x0 gives the input point back |
| SimplexNoise.SelectCorners | TrueDepthFusion/ScanPreviewViewController.swift:76-80 | i1 and i2 are 0/1 vectors with i1 <= i2; unless all components of x0 are equal, i1 has one 1 and i2 two (all equal: i1 = 000, i2 = 111); i1 marks a largest and the 0 of i2 a smallest component of x0 |
| SimplexNoise.CornerHash | TrueDepthFusion/ScanPreviewViewController.swift:91-95 | the nested permute of one corner (after i = mod289(i)) lies in [0, 289) |
| SimplexNoise.ShaderCornerHash | TrueDepthFusion/ScanPreviewViewController.swift:91-95 | the shader's nested Permute and Mod289 over reals, on an integer cell and offset, equal the integer CornerHash |
| SimplexNoise.CornerHashes | TrueDepthFusion/ScanPreviewViewController.swift:91-95 | the four corner hashes (offsets 0, i1, i2, 111), each in [0, 289) |
| SimplexNoise.CornerHashPeriodic | TrueDepthFusion/ScanPreviewViewController.swift:91-95 | shifting the cell by multiples of 289 along any axes leaves every corner hash unchanged |
| SimplexNoise.CornerHashArgumentsExact | TrueDepthFusion/ScanPreviewViewController.swift:91-95 | every permute argument is an integer below 578 whose polynomial stays below 2^24, so single floats hold it exactly |
| SimplexNoise.GradientIndexOf | TrueDepthFusion/ScanPreviewViewController.swift:99-105 | with n_ = 1/7: j = p mod 49, x_ and y_ lie in [0, 7), and j = 7 x_ + y_ |
| SimplexNoise.GradientIndexInjective | TrueDepthFusion/ScanPreviewViewController.swift:102-105 | equal grid positions (x_, y_) come only from equal residues p mod 49 |
| SceneGraph.RemoveChild | TrueDepthFusion/ScanPreviewViewController.swift:250 | removeFromParentNode: the removed node is gone, every other child stays, and the list has no repetitions if it had none before |
| SceneGraph.AddChild | TrueDepthFusion/ScanPreviewViewController.swift:256 | addChildNode: the node becomes the last child, all other children stay, no repetitions; a node not yet present is simply appended |
| ScanPreview.CenteredPivot | TrueDepthFusion/ScanPreviewViewController.swift:302-307 | the pivot X and Z are the midpoints of the bounding box (equidistant from min and max, so between them) and Y is 0 |
| ScanPreview.RunDissolveAction | TrueDepthFusion/ScanPreviewViewController.swift:316-336 | each frame the repeated action writes Reveal of the current run's elapsed time, a value in [0, 1], and changes nothing else on the node |
| ScanPreview.PreviewController.constructor | TrueDepthFusion/ScanPreviewViewController.swift:370-372 | starts with no mesh and a fresh, empty, detached container |
| ScanPreview.PreviewController.ViewWillAppear | TrueDepthFusion/ScanPreviewViewController.swift:250-256 | every root child is removed; afterwards the root's only child is a fresh, empty container; the root's other attributes and the mesh stay |
| ScanPreview.PreviewController.CompleteMeshing | TrueDepthFusion/ScanPreviewViewController.swift:285-336 | on an error (or no mesh) nothing changes; with a mesh exactly one fresh node is appended and the mesh is kept; with geometry the node gets the centred pivot and the dissolve; the root and the container's other attributes stay |
| ScanSequence.LoadNext | TrueDepthFusion/ScanSequenceViewController.swift:73 | assumed accumulator behaviour: the frame under the cursor with the cursor advanced, or no frame and no change at the end |
| ScanSequence.ResetNext | TrueDepthFusion/ScanSequenceViewController.swift:83 | assumed accumulator behaviour: the cursor goes back to the first frame, so the next load returns frame 0 (none if there are no frames) |
| ScanSequence.PlaybackStep | TrueDepthFusion/ScanSequenceViewController.swift:79-88 | one completed load: before the end the frame under the cursor is shown and the cursor advances; at the end the display stays and the cursor returns to 0 |
| ScanSequence.PlaybackAfter | TrueDepthFusion/ScanSequenceViewController.swift:71-89 | k completed loads of the chain: the frames are untouched, the cursor stays in range, and a changed display shows one of the recorded frames |
| ScanSequence.PlaybackPasses | TrueDepthFusion/ScanSequenceViewController.swift:79-88 | after q whole passes and c more loads the cursor is c, and the shown frame is frame c-1 (or the last frame, or the initial one) |
| ScanSequence.PlaybackLoops | TrueDepthFusion/ScanSequenceViewController.swift:79-88 | the chain is a looping viewer with period N + 1: after k loads the cursor is k mod (N+1) and frame (k mod (N+1)) - 1 is shown |
| ScanSequence.FrameLoadedAt | TrueDepthFusion/ScanSequenceViewController.swift:73-88 | the (k+1)-th load returns frame k mod (N+1), and nothing when that index is N |
| ScanSequence.ReplacePointCloud | TrueDepthFusion/ScanSequenceViewController.swift:107-121 | the previous node is gone from the root, a non-nil new node is the last child, nil adds nothing, other children stay |
| ScanSequence.ReplaceKeepsOnlyCurrent | TrueDepthFusion/ScanSequenceViewController.swift:107-121 | if the only displayed node under the root was the old one, afterwards it is the new one (none after nil) |
| ScanSequence.ReplacedStaysValid | TrueDepthFusion/ScanSequenceViewController.swift:107-121 | a replacement keeps the root free of repetitions and the new node under it |
| ScanSequence.AtMostOnePointCloud | TrueDepthFusion/ScanSequenceViewController.swift:107-121 | so at most one point-cloud node is ever under the root |
| ScanSequence.SequenceController.constructor | TrueDepthFusion/ScanSequenceViewController.swift:14-22 | not playing, nothing displayed, nothing in flight, the accumulator at its first frame |
| ScanSequence.SequenceController.SetPointCloudNode | TrueDepthFusion/ScanSequenceViewController.swift:107-121 | assigning `_pointCloudNode` rewrites the root's children by ReplacePointCloud, names the new node (its other attributes and children stay) and keeps the single-node invariant; the root's other attributes stay |
| ScanSequence.SequenceController.WillSetPointCloudNode | TrueDepthFusion/ScanSequenceViewController.swift:108-110 | the current node, if any, is removed from the root; the root's other attributes stay |
| ScanSequence.SequenceController.DidSetPointCloudNode | TrueDepthFusion/ScanSequenceViewController.swift:111-120 | the new node, if any, is named "point cloud" (its other attributes and children stay) and added to the root; the root's other attributes stay |
| ScanSequence.SequenceController.LoadNextFrame | TrueDepthFusion/ScanSequenceViewController.swift:71-72 | one load with the given auto flag is dispatched, and nothing else changes |
| ScanSequence.SequenceController.ViewDidAppear | TrueDepthFusion/ScanSequenceViewController.swift:43-45 | exactly one load without auto-advance is dispatched |
| ScanSequence.SequenceController.ViewTapped | TrueDepthFusion/ScanSequenceViewController.swift:60-69 | not playing: playing becomes true and one auto-advancing load is dispatched; playing: dismiss and request removal of the container path; playing never becomes false |
| ScanSequence.SequenceController.FetchFrame | TrueDepthFusion/ScanSequenceViewController.swift:72-73 | the background hop advances the accumulator by LoadNext and builds a fresh node for the frame, or none |
| ScanSequence.SequenceController.HandleFetched | TrueDepthFusion/ScanSequenceViewController.swift:79-89 | a frame replaces the displayed node without a reset; no frame resets the accumulator and leaves the display alone; exactly one further load iff autoLoadNext; the shown node's other attributes and the root's stay |
| ScanSequence.SequenceController.AutoLoadCycle | TrueDepthFusion/ScanSequenceViewController.swift:71-89 | one turn of the auto chain changes the accumulator and the shown frame exactly as PlaybackStep does, and leaves one auto load in flight; a loaded frame's fresh node replaces the old one under the root, no frame leaves the root alone; playing, dismissal and removal flags stay |

## Left out

- Floating point: the model computes on exact reals and integers. It does not capture single-precision rounding, the `Float(elapsedTime)` conversions, rounding of `x * (1.0/289.0)` near multiples of 289, or `n_ = 0.142857142857` differing from 1/7.
- The floating-point body of `snoise` (`taylorInvSqrt`, gradient normalisation, the `max(0.6 - d², 0)^4` falloff, the 42.0 scale, lines 62-65 and 107-139) and the unused `random` (46-48). These are GPU float numerics, so the noise value is an input of `Visible`.
- The corner offsets `x1`, `x2`, `x3` (86-88): they feed only the float falloff.
- The rotation action (340-342): SceneKit's `easeInEaseOut` curve is not visible here, and the action runs once.
- The meshing engine (`reconstructMesh`), `buildMeshNode` and `buildNode` are foreign calls. A built node is a fresh `SceneNode` holding the mesh or frame. The meshing parameters passed to the engine (270-276) are constants with no logic of their own.
- ScanSequence.LoadNext: the accumulator's implementation is not part of this model. Its contract (a cursor over recorded frames) is an assumption, not a proved property of the accumulator.
- ScanSequence.ResetNext: an assumption about the accumulator, like LoadNext.
- ScanPreview.RunDissolveAction: assumes SceneKit drives the repeated action with global time split into 8-second runs (`LoopElapsed`). At a run's end SceneKit may also call the closure with elapsed time exactly 8 (value 1), which the model folds into the next run's 0.
- ViewTapped: the removal of the container path is wrapped in `try?` (line 63), so a failed removal is silently ignored; the model records only that the removal was requested (`removalRequested`), not whether the files are gone.
- Optional scene and material: the model assumes the scene view always has a scene and the node's geometry a first material. With a nil scene, `viewWillAppear` (ScanPreviewViewController.swift:250, 256) would only replace the container without touching the root; the dissolve write at line 332 would be skipped without a material; `_sceneView.scene!` (ScanSequenceViewController.swift:118) would trap.
- The cancellation flag: `_shouldCancelMeshing` is set at line 234, but the progress closure ignores `shouldStop`, so cancellation has no behaviour.
- Export, QuickLook, USDZ/PLY writing, the thumbnail snapshot, the point-of-view reset and button visibility in `viewWillAppear`, the lighting model, Metal layer setup and gesture wiring: UI and I/O.
- Concurrency timing: `DispatchQueue` hops are atomic steps, and `Thread.sleep(1/60)` (75-77) is left out. The scheduler's ordering of in-flight loads is free: any queued load can be fetched and any fetched load handled.
- The commented-out `_pointCloudNode` of the preview controller (378-393) is dead code.
- StandardCyborgFusion/Helpers/ThreadPool.cpp is not part of this model: it is pure concurrency. SCPointCloud_Private.h, BenchmarkUtils.hpp and DrawPointCloud.hpp hold declarations only.
