# 3D Christmas tree: a Dafny model of its core

The application shows a tree of about 450 particles: ornaments, gifts,
stars and 30 photo frames. Each particle has two places, a point on a
spiral cone (the tree) and a point on a wide sphere (the explosion). The
viewer switches between the two with an open palm or a fist in front of the
camera, or by holding a button. One photo frame is the "clue". Clicking it
leads to a selfie screen and from there to a reward screen.

This project models four parts of the program:

- **The particle generator** (`utils.ts`), in `utils.dfy`.
  - The imperative loop `GenerateParticles` is proved equal, index by index, to the specification function `ParticleAt`.
  - `LookAt` carries the categorical facts: which indices are photos, the clue, the brand and seasonal image cycles, the three ornament tiers, the scales and the colours.
  - The contracts of `TreePoint` and `ScatterPoint` bound the tree and scatter points. Every scatter point lies on the sphere of its drawn radius, so none is the origin.
  - Math.random draws are inputs in [0, 1), grouped per particle in `Draws`.
  - cos, sin, acos, sqrt and pow are fields of an abstract `Maths` record (`numerics.dfy`). The proofs assume only what `TrigBounded`, `Pythagorean` and `PowInUnit` state about them.
- **The application state** (`App.tsx`), in `app.dfy`. Each handler is a function on the `AppState` record. Its contract lists the fields it sets and the fields it keeps. Lemmas prove idempotence, that the layout is independent of the other handlers, and that closing a photo never leaves selfie mode.
- **The overlay** (`components/Overlay.tsx`), in `overlay.dfy`.
  - The gesture decision is `Detect`, a pure function. The imperative `Session.DetectGesture` is proved to perform it.
  - `ScreenFor` gives the screen priority. `ModalFor` picks the single modal action.
  - `Press` and `Release` are the momentary button.
  - Every user action and every recogniser poll is an `Event`. `Enabled` says where an event's control exists, and `Step`/`Run` play a sequence of events. An event whose control is not on screen (or is covered by the photo modal) leaves the state unchanged.
  - Over all runs from the start the model proves:
    - the invariant `Inv` holds;
    - reward mode is reached only through selfie mode;
    - selfie mode is reached only by opening the clue photo;
    - the clue modal can only be left by UNLOCK REWARD.
- **The per-frame particle update** (`components/InteractiveTree.tsx`), in `interactive_tree.dfy`.
  - `ParticleMesh` is a class. `useFrame` updates its position, rotation and glow in place; the pointer handlers set and clear its hover flag.
  - `Step` runs one frame. Its contract gives the whole new state in terms of the spec functions `FramePosition`, `FrameRotation` and `Glow`.
  - Lemmas about those functions prove:
    - one lerp step with a fraction in [0, 1] never moves away from the target;
    - the swirl and float offsets are bounded;
    - the spin is monotone;
    - only planes are turned to the camera;
    - no generated particle ever takes the blinking tier.

Two observations came out of the proofs. Neither is listed as a defect, because the code may intend both.

- The "lights" tier of the glow (`scale < 0.8`) is unreachable for the generated dataset. The smallest scale the generator can produce is the star's 0.8, and the tier's test is strict (`NoGeneratedParticleIsALight`).
- The selfie screen draws the selected photo in a corner. But entering selfie mode clears the selection, so in a reachable state that picture is never drawn (`SelfieNeverShowsPhoto`).

Three points where the model follows the code as written:

- The lerp fraction `delta * rate` is passed to `Vector3.lerp` unclamped.
- The gesture-to-layout table is fixed in the code.
- Gestures are not switched off by reward mode itself. They stop on the reward screen only because no `<video>` is mounted there.

## Model

| member | source | states |
|---|---|---|
| Numerics.RandomRange | utils.ts:4 | for min < max the value lies in [min, max) |
| Numerics.Lerp | components/InteractiveTree.tsx:90 | the way left to the target after one lerp is the old way scaled by 1 - alpha |
| Numerics.LerpApproaches | components/InteractiveTree.tsx:90 | with alpha in [0, 1] a lerp is no farther from the target on any axis, and strictly nearer on some axis when alpha > 0 and the point is off target |
| Numerics.NoFartherInDistance | components/InteractiveTree.tsx:90 | a point no farther from the target on every axis is no farther in Euclidean distance |
| Numerics.LerpStepsDecay | components/InteractiveTree.tsx:90 | with the target held fixed, n lerps leave (1 - alpha)^n of the initial way |
| Utils.BulbColor | utils.ts:74-78 | gold iff the tint draw exceeds 0.5, emerald iff in (0.2, 0.5], red iff in (0.1, 0.2], orange iff at most 0.1 |
| Utils.LookAt | utils.ts:35-80 | plane iff textured iff photo role iff index < 30; clue iff index 0; PRODUCT never; photos have scale 3; every scale lies in [0.8, 3] |
| Utils.AssignLook | utils.ts:35-80 | the per-branch reassignment of type, shape, texture, colour and scale yields LookAt |
| Utils.PhotoSlice | utils.ts:43-57 | index 0 is the clue with image 433 at 600x700; 1..11 are brand photos with BRAND_IDS[i % 6]; 12..29 are seasonal photos with SEASONAL_IDS[i % 10]; all are planes of scale 3 |
| Utils.OrnamentTiers | utils.ts:58-80 | past the photos: tier draw > 0.92 gives a champagne diamond star of scale [0.8, 1.2); > 0.75 a red or orange gift box of scale [1.2, 1.6); otherwise a sphere of scale [1.0, 1.8) |
| Utils.Param | utils.ts:33 | t = i / 450 lies in [0, 1) |
| Utils.TreeHeight | utils.ts:83 | the tree height lies in (-12, 16] |
| Utils.TreeHeightDecreasing | utils.ts:83 | the tree height strictly decreases with the index |
| Utils.RadialNoise | utils.ts:88 | the radial noise lies in [0.9, 1.15) |
| Utils.TreeRadius | utils.ts:85 | the cone radius t^0.8 * 13 lies in [0, 13] |
| Utils.TreePoint | utils.ts:82-91 | a tree point lies at a height in (-12, 16], and both its horizontal coordinates are at most 13 * 1.15 in magnitude |
| Utils.ScatterRadius | utils.ts:96 | the scatter radius lies in [35, 55) |
| Utils.ScatterPoint | utils.ts:93-101 | every coordinate of a scatter point is within its drawn radius, so below 55; its squared length is that radius squared, so it is never the origin |
| Utils.PicsumUrl | utils.ts:50-56 | an image URL is the picsum host prefix, then the id, the width and the height in decimal in that order, separated by exactly two slashes, the only slashes past the host |
| Utils.DigitsValue | utils.ts:50-56 | the decimal text a template literal prints for a number reads back as that number |
| Utils.PicsumReadsBack | utils.ts:50-56 | the three numbers read back from an image URL's segments are the id, width and height it was made from |
| Utils.ParticleAt | utils.ts:103-113 | the pushed particle has its index as id; it is a plane iff its index is below 30, textured iff a plane, the clue iff index 0; its scale lies in [0.8, 3]; its tree point is at its index's height |
| Utils.GenerateParticles | utils.ts:20-116 | exactly 450 particles whatever count is asked; particle i is ParticleAt(i); ids are the indices; the clue is at index 0 only |
| App.Initial | App.tsx:9-15 | no permission, tree formed, no photo, selfie and reward off |
| App.GrantPermission | App.tsx:22-24 | sets permission and keeps every other field |
| App.SetTreeState | App.tsx:26-28 | sets the layout and keeps every other field |
| App.PhotoClick | App.tsx:30-32 | selects the clicked particle and keeps every other field |
| App.ClosePhoto | App.tsx:34-36 | clears the selection and keeps every other field, selfie mode included |
| App.StartSelfie | App.tsx:38-40 | turns selfie mode on and clears the selection; permission, layout and reward are kept |
| App.Reward | App.tsx:42-44 | turns reward on and selfie off; permission, layout and selection are kept |
| App.HandlersIdempotent | App.tsx:22-44 | applying any handler twice equals applying it once |
| App.TreeStateIndependent | App.tsx:22-44 | setting the layout commutes with every other handler, and the last layout written wins |
| App.CloseKeepsSelfie | App.tsx:34-36 | in selfie mode CLOSE keeps selfie mode, and changes nothing iff no photo is selected |
| App.SelfieClosesPhoto | App.tsx:38-40 | starting a selfie after a photo click leaves the same state as after a close |
| Overlay.Start | components/Overlay.tsx:35 | the overlay starts from the initial application state with the label "None" |
| Overlay.GestureTarget | components/Overlay.tsx:119-123 | Open_Palm or Victory maps to SCATTERED and Closed_Fist or Thumb_Up to TREE_SHAPE, each iff |
| Overlay.Detect | components/Overlay.tsx:103-131 | no write unless the guard holds and recognition returns; a layout write differs from the current layout and is the target of the recorded label; the label becomes "None" without a write exactly when no hand is seen or the top label is "None" above the threshold |
| Overlay.ApplyDetection | components/Overlay.tsx:116-126 | a detection sets the label it carries and the layout it writes, and nothing else |
| Overlay.CanRecognize | components/Overlay.tsx:107 | the recogniser runs only on a video with readyState 4, never under the photo modal or on the selfie screen, and never before it has loaded |
| Overlay.PollOnce | components/Overlay.tsx:103-131 | a poll never changes permission, selection, selfie or reward mode, and a layout it changes is the target of the label it shows |
| Overlay.Enabled | components/Overlay.tsx:160-293 | screen by screen, which events can occur: only ENABLE CAMERA (and videoless polls) on the privacy screen; nothing but videoless polls on the reward screen; the shutter, CLOSE and polls on the selfie screen; under the modal only its one action and polls; on the bare HUD the scatter button, polls and clicks on photo frames |
| Overlay.Step | components/Overlay.tsx:160-293 | an event that cannot occur changes nothing; only polls change the label; permission and reward mode are never revoked; only the button and polls move the tree; only a photo click, UNLOCK REWARD or CLOSE change the selection |
| Overlay.BelowThresholdIgnored | components/Overlay.tsx:115 | a top score of at most 0.6 changes neither the layout nor the label |
| Overlay.AboveThresholdMapping | components/Overlay.tsx:115-124 | above 0.6 the label is recorded; the layout becomes the label's target, or stays the same for an unmapped label |
| Overlay.NoHandResetsLabel | components/Overlay.tsx:125-127 | an empty gesture list sets the label to "None" and keeps the layout |
| Overlay.PollIdempotent | components/Overlay.tsx:119-123 | the same frame polled twice changes nothing the second time, which writes no layout |
| Overlay.Press | components/Overlay.tsx:246-249 | mouse down or touch start scatters and keeps every other field |
| Overlay.Release | components/Overlay.tsx:247-249 | mouse up or touch end forms the tree and keeps every other field |
| Overlay.MomentaryButton | components/Overlay.tsx:246-249 | holding the button does nothing more, and a release always forms the tree: momentary, not a toggle |
| Overlay.ScreenFor | components/Overlay.tsx:160-225 | privacy iff no permission; else reward iff reward mode; else selfie iff selfie mode; else the HUD |
| Overlay.ModalFor | components/Overlay.tsx:276-293 | a modal exists iff a photo is selected on the HUD; it offers UNLOCK REWARD iff that photo is the clue, and CLOSE otherwise |
| Overlay.StepPreservesInv | components/Overlay.tsx:160-293 | every event keeps the reachable-state invariant: nothing moves before permission, selfie and reward screens have no photo and exclude each other, a selected photo is a plane |
| Overlay.RunPreservesInv | components/Overlay.tsx:160-293 | the invariant holds after any sequence of events from the start |
| Overlay.RewardStep | components/Overlay.tsx:215 | the only step into reward mode is the reward button on the selfie screen |
| Overlay.RewardFollowsSelfie | components/Overlay.tsx:184-222 | a run that ends in reward mode passed through selfie mode |
| Overlay.SelfieStep | components/Overlay.tsx:281-287 | the only step into selfie mode is UNLOCK REWARD over the clue photo |
| Overlay.SelfieFollowsClue | components/Overlay.tsx:276-293 | a run that ends in selfie mode had the clue photo open before |
| Overlay.ClueModalOnlyUnlocks | components/Overlay.tsx:281-293 | while the clue's modal is open, only UNLOCK REWARD changes the application state |
| Overlay.SelfieCloseInert | components/Overlay.tsx:218 | the selfie screen's CLOSE changes nothing in a reachable state |
| Overlay.SelfieNeverShowsPhoto | components/Overlay.tsx:209-211 | in a reachable state the selfie screen has no selected photo to draw |
| Overlay.RewardScreenIgnoresGestures | components/Overlay.tsx:104-107 | on the reward screen no video is mounted, so a poll changes nothing |
| Overlay.Session.constructor | components/Overlay.tsx:34-35 | the overlay starts with the initial state and the label "None" |
| Overlay.Session.DetectGesture | components/Overlay.tsx:103-131 | one detectGesture call leaves the state Detect prescribes |
| InteractiveTree.RandomSpeed | components/InteractiveTree.tsx:74 | a particle's speed factor lies in [0.8, 1.4) |
| InteractiveTree.RandomPhase | components/InteractiveTree.tsx:73 | a particle's phase lies in [0, 2 pi) |
| InteractiveTree.Target | components/InteractiveTree.tsx:81 | the tree point while formed, the scatter point while scattered |
| InteractiveTree.LerpSpeed | components/InteractiveTree.tsx:84-87 | 3.0 while scattering and 2.5 times the particle's speed while forming, so for a drawn speed the rate lies in [2.0, 3.5) |
| InteractiveTree.FloatOffset | components/InteractiveTree.tsx:101-102 | the float offset lies in [-0.02, 0.02] |
| InteractiveTree.Spin | components/InteractiveTree.tsx:105-106 | the x and y angles do not decrease for non-negative delta and speed, and strictly increase for positive ones; z is kept |
| InteractiveTree.Glow | components/InteractiveTree.tsx:115-129 | below scale 0.8 the glow lies in [2, 5]; otherwise it is 1.0 iff hovered and 0.2 iff not |
| InteractiveTree.HasClickHandler | components/InteractiveTree.tsx:230 | a particle gets the photo click handler iff it is a plane |
| InteractiveTree.SwirlBounded | components/InteractiveTree.tsx:92-98 | the swirl acts only while forming, keeps the height, and moves x and z by at most 0.05 * delta |
| InteractiveTree.FrameNearLerp | components/InteractiveTree.tsx:89-102 | a frame's position is within 0.05 * delta horizontally and 0.02 vertically of the pure lerp, and horizontally equal to it while scattering |
| InteractiveTree.FrameApproachesTarget | components/InteractiveTree.tsx:87-90 | for frames up to 2/7 s the fraction lies in [0, 1], so the lerp moves no farther from the target on any axis nor in Euclidean distance, and strictly nearer on some axis unless already there |
| InteractiveTree.FramePosition | components/InteractiveTree.tsx:80-102 | while scattering there is no swirl: horizontally the particle lerps toward its scatter point at rate 3.0, and once there it stays there |
| InteractiveTree.FrameRotation | components/InteractiveTree.tsx:104-113 | planes are turned toward the camera after the spin; every other particle keeps its z angle, its x and y angles never decrease over a non-negative frame and strictly increase over a positive one |
| InteractiveTree.NoGeneratedParticleIsALight | components/InteractiveTree.tsx:118 | no generated particle is below scale 0.8, so its glow is 1.0 when hovered and 0.2 otherwise |
| InteractiveTree.ParticleMesh.constructor | components/InteractiveTree.tsx:136-148 | a mounted particle starts at its scatter point, unrotated, not hovered, with its speed and phase drawn; a photo frame glows 0.5 (its frame material), any other particle 0.2 |
| InteractiveTree.ParticleMesh.Step | components/InteractiveTree.tsx:76-130 | one frame sets position, rotation and glow as FramePosition, FrameRotation and Glow prescribe; a photo frame's glow is untouched |
| InteractiveTree.ParticleMesh.Morph | components/InteractiveTree.tsx:80-102 | lerp, swirl and float give FramePosition; nothing else changes |
| InteractiveTree.ParticleMesh.Turn | components/InteractiveTree.tsx:104-113 | spin and billboarding give FrameRotation; nothing else changes |
| InteractiveTree.ParticleMesh.Blink | components/InteractiveTree.tsx:115-129 | the glow becomes Glow of the scale and hover flag; nothing else changes |
| InteractiveTree.ParticleMesh.HoverOn | components/InteractiveTree.tsx:146 | sets the hover flag and nothing else |
| InteractiveTree.ParticleMesh.HoverOff | components/InteractiveTree.tsx:147 | clears the hover flag and nothing else |
| InteractiveTree.ParticleMesh.Click | components/InteractiveTree.tsx:140-145 | a click delivers the particle to the photo handler iff it is a plane |

## Left out

- Camera acquisition, stream re-attachment and autoplay (components/Overlay.tsx:39-67, 146-156) are browser media I/O. A poll receives the mounted video's readyState as an input instead.
- Loading the recogniser by dynamic import from a CDN (components/Overlay.tsx:70-100) is a foreign library and network call. A poll receives whether the recogniser exists and has loaded, and what it returns for the frame.
- The requestAnimationFrame loop and its cancellation (components/Overlay.tsx:132-142) are platform scheduling. One poll is one event. Stale closures over props between re-renders are not modelled.
- components/Scene.tsx, all JSX markup and styling, the header text, star, sparkles and base ring are declarative rendering with no decisions.
- The error boundary, Suspense and the photo texture loader are React machinery.
- The quaternion lookAt/slerp of photo frames is a three.js library call. It is the abstract `face` function on the rotation. Euler angles and quaternions are treated as one rotation value.
- Exact double-precision values of Math.cos, sin, acos, sqrt and pow are not modelled. The proofs use only the facts in `TrigBounded`, `Pythagorean` and `PowInUnit`, read over the reals.
- All JavaScript arithmetic is modelled over the reals, not IEEE doubles: randomRange, t, the heights, the lerp and the glow. The half-open bounds such as [0.8, 1.2) hold over the reals; in doubles `r * (max - min) + min` may round up onto `max`.
- The order in which the generator draws its random numbers is not modelled. Each particle has one record of draws, and each branch reads the draws it uses.
- The generator's unused Euler `rotation` field is not modelled. Nothing reads it.
- The "Back to Tree" reload on the reward screen (components/Overlay.tsx:195) restarts the page. It is outside the state machine.
- `useFrame`'s early return before the group is mounted (components/InteractiveTree.tsx:77) is not modelled. `ParticleMesh` exists only once mounted.
- Click propagation along the pointer ray is not modelled. A photo frame's handler calls `stopPropagation`, so only the nearest frame under the pointer receives the click. Stars, gifts and bulbs carry no photo handler, so their group's onClick neither stops propagation nor selects anything, and a click on one passes through to a frame behind it. The `PhotoClick` event takes the receiving frame as input, which covers both cases.
- The tree radius growing with the index is not proved. The abstract pow carries no monotonicity fact.
- Utils.TreePoint: bounds each horizontal coordinate separately, not the horizontal distance from the axis.
- InteractiveTree.FrameApproachesTarget: needs a frame time of at most 2/7 s. Longer frames overshoot, because the fraction is unclamped.
