# ukiyoe-3d: shader splice and firefly motion, in Dafny

The ukiyo-e portrait scenes draw a figure and a ghost with a standard three.js
lighting material. Each material is stylised by splicing extra GLSL into the
stock fragment shader. The background holds three drifting "fireflies". This
project models the two parts of the pages that hold logic and proves what they
guarantee.

- **Shader splice** (`shader_splice.dfy`, module `ShaderSplice`). The
  `onBeforeCompile` callbacks of the figure and ghost materials
  (`dist/main.js`) and of the single-subject page (`main.js`) do two things.
  - They bind the baked-texture uniforms into the shader's uniform map: the
    same objects the material keeps in `userData`.
  - They prepend a fixed block of uniform declarations to the stock fragment
    source, then replace the first `#include <output_fragment>` by the loaded
    stylisation fragment.
  The replacement is JavaScript's `String.prototype.replace` with a string
  pattern. The model follows ECMA-262 for it: only the leftmost occurrence is
  replaced, and `$$`, `$&`, `` $` `` and `$'` in the replacement text are
  expanded, as the abstract operation GetSubstitution of ECMA-262 prescribes.
  So the properties that say "the fragment appears verbatim" assume a fragment
  without `$`. GLSL source has no use for that character.
- **Firefly motion** (`fireflies.dfy`, module `Fireflies`). `animate` draws new
  directions for all three fireflies once the simulated clock is more than 10
  units past the last draw. It shifts each firefly by `0.0005` times its
  direction, then clamps each into its own box. `render` then advances the clock
  by `2 * (5 * elapsed)` and copies it into the grain pass's `seed` uniform.
  - `SimState` holds the state as a value. `Step`, `Advance`, `Frame` and `Run`
    specify one step, one clock advance, one frame and a run of frames.
  - The class `FireflyScene` keeps the page's globals: position and direction
    arrays, `time`, `lastAni` and `seed`. Its methods update them in place,
    each proved equal to the corresponding function.
  - The random draws are inputs: a `Sample(x, y)` becomes the direction
    `(x, y, 0)`.
- **Subject page clock** (`subject_page.dfy`, module `SubjectPage`). The
  single-subject page's `render` adds `0.2 * (5 * elapsed)` to its `time`
  uniform.

Where the intended design and the code differ, the model follows the code:

- The firefly shift is not scaled by the frame's duration (`FrameMotionIgnoresElapsed`).
- A frame moves the fireflies before it advances the clock, so the draw check
  sees the previous frame's time (`FrameDrawsOnPreviousTime`, `FrameDrawLagsClock`).
- The clock and the last draw time both start at 1.0.
- When the marker is missing, the header is still prepended; only the
  replacement is skipped (`ComposeWithoutMarker`).
- A new direction is a normalised point of the square `[-1, 1]²` with z = 0.
  That is not a uniform draw on the unit circle. The model takes the draw as an
  arbitrary planar input.

## Model

| member | source | states |
|---|---|---|
| `ShaderSplice.IndexOf` | dist/main.js:107 | the search finds an occurrence exactly when the pattern occurs, and then it is the leftmost one |
| `ShaderSplice.Substitution` | dist/main.js:176 | a replacement text without `$` is inserted verbatim |
| `ShaderSplice.ReplaceFirst` | main.js:119 | when the pattern does not occur the string is returned unchanged |
| `ShaderSplice.ReplaceFirstAt` | main.js:119 | with the leftmost occurrence at k: the text before k, then the expanded replacement, then the text after the occurrence |
| `ShaderSplice.ReplaceFirstLiteral` | dist/main.js:107 | with a `$`-free replacement, the leftmost occurrence is swapped for the replacement verbatim and everything else is kept |
| `ShaderSplice.ReplaceFirstKeepsLaterOccurrences` | dist/main.js:176 | every later occurrence survives the replacement, at its index shifted by the change in length |
| `ShaderSplice.Compose` | main.js:118-119 | a header that does not contain the marker's first character is a prefix of the composed source |
| `ShaderSplice.SpliceKeepsHeader` | main.js:118 | the replacement cannot start inside such a header, so the header survives it |
| `ShaderSplice.HeadersAreGuarded` | dist/main.js:175 | neither declaration header contains `#`, the marker's first character, so no marker can start inside either |
| `ShaderSplice.HeaderHidesNoMarker` | main.js:118-119 | no marker starts inside the header; a marker starts j characters past the header exactly when one starts at j in the stock source |
| `ShaderSplice.ComposeFindsMarkerInSource` | main.js:118-119 | the first marker of the composed text is the first marker of the stock source, shifted by the header length (both directions) |
| `ShaderSplice.ComposeWithoutMarker` | main.js:118-119 | without a marker the result is exactly header + source: no error, nothing else changes |
| `ShaderSplice.ComposeWithMarker` | main.js:119 | the composed text up to the source's first marker, the fragment expanded at that position, then the rest of the source verbatim |
| `ShaderSplice.ComposeInjectsFragment` | main.js:119 | with a `$`-free fragment: header, the source before its first marker, the fragment verbatim, then the rest of the source |
| `ShaderSplice.ComposePlacesFragment` | main.js:119 | a `$`-free fragment can be read back at index header length + k, where the marker stood |
| `ShaderSplice.ComposeIsHeaderThenSplice` | dist/main.js:106-107 | for a `$`-free fragment, composing is the header followed by the source with its first marker replaced |
| `ShaderSplice.ComposeKeepsLaterMarkers` | main.js:119 | only the first marker is replaced; every later marker is still in the composed source |
| `ShaderSplice.FigureFragment` | dist/main.js:106-107 | the figure shader starts with the depthBaked, normalBaked and windowDims declarations in that order and is header + ReplaceFirst(src, marker, fragment) |
| `ShaderSplice.GhostFragment` | dist/main.js:175-176 | the same for the ghost, whose header also declares `uniform float time;` |
| `ShaderSplice.BindUniforms` | main.js:115-117 | the uniform map gains exactly the named keys, each bound to the `userData` entry of that name; every other key keeps its value |
| `ShaderSplice.FigureBindingUnfolds` | dist/main.js:103-105 | binding the figure's names is the three map updates in source order |
| `ShaderSplice.GhostBindingUnfolds` | dist/main.js:171-174 | the ghost binds `time`, then the same three names as the figure |
| `ShaderSplice.FigureOnBeforeCompile` | dist/main.js:102-108 | updating the shader in place gives the bound uniform map and the figure fragment of the old source |
| `ShaderSplice.GhostOnBeforeCompile` | dist/main.js:170-177 | the same for the ghost, with `time` bound and declared |
| `Fireflies.ClampScalar` | dist/main.js:280-282 | a clamped component lies in [lo, hi], is unchanged when already inside, and sticks to the bound it crossed |
| `Fireflies.Clamp` | dist/main.js:280 | a clamped position lies in an ordered box and is unchanged when already inside |
| `Fireflies.Step` | dist/main.js:265-282 | one motion step keeps three positions and three directions (its effect is stated by the Step lemmas below) |
| `Fireflies.Advance` | dist/main.js:292-294 | the clock grows by 10 × elapsed, the seed equals the new clock, and nothing else changes |
| `Fireflies.Frame` | dist/main.js:284-286 | a frame is the motion step followed by render and keeps the state's shape |
| `Fireflies.Run` | dist/main.js:284 | successive frames keep the state's shape |
| `Fireflies.Initial` | dist/main.js:38-39 | at start-up time equals lastAni (so no draw is due) and the first directions have z = 0 |
| `Fireflies.Placed` | dist/main.js:225-229 | the loader's placements put every firefly inside its box and change nothing but positions |
| `Fireflies.BoxesOrdered` | dist/main.js:280-282 | each box's minimum is below its maximum in every component |
| `Fireflies.StepContained` | dist/main.js:280-282 | after any step every firefly is inside its box and at z = -0.7, whatever its prior position or direction |
| `Fireflies.StepCadence` | dist/main.js:267-279 | not due: directions and lastAni unchanged; due: all three directions redrawn on the same tick and lastAni = time; lastAni changes exactly when due |
| `Fireflies.StepPlanar` | dist/main.js:269 | kept or drawn, every direction has z = 0 |
| `Fireflies.StepShift` | dist/main.js:272-275 | when the shifted point is inside the box, the new position is the old one plus 0.0005 × direction |
| `Fireflies.StepSticksAtBoundary` | dist/main.js:280 | a firefly at its box's x-maximum, with a direction that does not point back, stays at that maximum |
| `Fireflies.StepKeepsClock` | dist/main.js:265-282 | the motion step changes neither the clock nor the seed |
| `Fireflies.FrameDrawsOnPreviousTime` | dist/main.js:268-293 | a frame draws exactly when the clock before that frame's advance is more than 10 past lastAni; the clock then grows by 10 × elapsed and the seed follows it |
| `Fireflies.FrameDrawLagsClock` | dist/main.js:277-293 | a frame that carries the clock past the interval does not draw yet |
| `Fireflies.FrameMotionIgnoresElapsed` | dist/main.js:266-275 | positions and directions after a frame do not depend on the frame's duration |
| `Fireflies.RunClock` | dist/main.js:292-294 | over a run the clock grows by 10 × total elapsed time, and after at least one frame the seed equals the clock |
| `Fireflies.RunClockMonotone` | dist/main.js:293 | with non-negative durations the clock never decreases |
| `Fireflies.RunContained` | dist/main.js:280-284 | after at least one frame every firefly is inside its box, for any draws and durations |
| `Fireflies.RunPlanar` | dist/main.js:194-196 | directions keep z = 0 over any run |
| `Fireflies.RunHoldsDirections` | dist/main.js:268-279 | while the clock stays within 10 of the last draw, directions and lastAni stay constant over the whole run |
| `Fireflies.FireflyScene.constructor` | dist/main.js:193-196 | the page's initial state is `Initial` of the first draws |
| `Fireflies.FireflyScene.Place` | dist/main.js:225-229 | in place: the state becomes `Placed` of the old state |
| `Fireflies.FireflyScene.Move` | dist/main.js:266-282 | in place: the state becomes `Step` of the old state |
| `Fireflies.FireflyScene.DrawAndShift` | dist/main.js:267-276 | the loop over the three fireflies: the directions become the frame's next directions and each position moves by 0.0005 × its direction |
| `Fireflies.FireflyScene.Render` | dist/main.js:290-294 | in place: the state becomes `Advance` of the old state |
| `Fireflies.FireflyScene.Animate` | dist/main.js:265-288 | in place: the state becomes `Frame` of the old state, and the object invariant is kept |
| `SubjectPage.AdvanceTime` | main.js:215-216 | one render adds exactly the elapsed real time to the `time` uniform, so it never decreases when elapsed ≥ 0 |
| `SubjectPage.AdvanceAllAddsElapsed` | main.js:213-216 | over any number of renders the uniform gains the sum of the elapsed times |
| `SubjectPage.AdvanceAllMonotone` | main.js:216 | with non-negative elapsed times the uniform never decreases over a run |
| `SubjectPage.TimeUniform.constructor` | main.js:41 | the `time` uniform starts at 1.0 |
| `SubjectPage.TimeUniform.Render` | main.js:213-216 | in place: the uniform becomes `AdvanceTime` of its old value |

## Left out

- Floating point: coordinates, the clock and the uniform are reals. Double rounding is not modelled, for example in `0.0005 * d` or in `0.2 * 5`.
- `Math.random()` and `Vector3.normalize()`: each draw is an input `Sample(x, y)`, used as the direction `(x, y, 0)`. The unit length of directions is not modelled.
- `THREE.Clock.getDelta()`: the elapsed real time of a frame is an input. Properties that need it non-negative say so.
- Baking (`generateMap` in dist/main.js, `getDepthMap` in main.js) and the scene add/remove/background sequence around it. These are calls into the three.js renderer and render targets, and carry no data the model could check.
- `loadShader` (a synchronous XHR), the GLTF and texture loaders and their error callbacks, `OrbitControls`, `onWindowResize`, the `EffectComposer` set-up and the commented-out screenshot code. These are I/O and library wiring. The stylisation fragment is a string input. A failed fetch yields `null`, and `replace` would then insert the text "null"; that case is not modelled.
- The grain shader in shaders/noise.js: GPU floating-point hashing. Only its `seed` uniform (initially 1.0) is modelled.
- `onBeforeRender`, which re-creates the `userData` uniform objects and the `onBeforeCompile` closure before every draw. The model covers one run of the closure on a given `userData`. Whether the ghost's `time` uniform reaches the compiled shader depends on three.js program caching and is not modelled.
- Firefly group rotation, scale, cloning and mesh contents: only positions take part in the motion step.
- The single-subject page's other uniforms (fog, UV scale, textures): `render` never changes them.
- The camera arithmetic behind `windowDims` and `fov_y`: a uniform value is an opaque object of a type parameter.
