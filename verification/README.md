# Lukeforge site core, modelled in Dafny

Lukeforge is a single-page marketing site. Its hero section is a Three.js scene: one
render loop (the scene manager) drives a cloud of drifting particles and a 3D
"LUKEFORGE" wordmark that tilts toward the pointer and glows on hover. A cursor glow
trails the mouse on desktop. The services section tilts its cards under the pointer. The
portfolio section opens a modal with a spinning 3D preview of each project. The contact
form validates on the client and posts to a small mock API server.

This project models that behaviour as pure Dafny functions over immutable state and proves
properties of it. Each module follows one source file or one shared concept:

- `Wrappers`: `Option`.
- `Frames`: the browser's animation-frame scheduler, as a set of pending frame ids.
- `Damping`: the first-order "move a fraction of the gap" step used by the wordmark, the
  cursor glow and the hero camera.
- `Easing`: the wordmark's ease-out property tween.
- `Text`: ASCII whitespace trimming and case mapping.
- `EmailPattern`: the pattern `^[^\s@]+@[^\s@]+\.[^\s@]+$`, as a predicate.
- `Capability`: the mobile and low-end device probes of the entry script.
- `SceneManager`, `ParticleField`, `HeroText`, `CursorGlow`: the four scene components.
- `MainPage`: start-up, the hero pointer handler and the theme toggle.
- `Contact`, `MockContact`: the contact form and the mock server.
- `Services`, `Portfolio`: the card tilt, and the project modal with its preview.

Clocks, random draws, square roots and sines are parameters. For example, a frame takes
its `delta` and `elapsed` times as arguments, and a particle takes its uniform draws and a
unit direction. JavaScript numbers are modelled as exact reals.

The model follows what the code does, including these points where it may surprise a reader:

- The scene manager runs its per-frame callbacks without isolating them. One that throws
  ends the frame before the render, but the next frame has already been requested.
- `startRendering` runs the first frame synchronously.
- `dispose` removes no listeners, so a later focus or visibility event restarts the loop.
- There is no capability tier object: the entry script calls two independent probes.
- The contact form trims values for validation but posts them raw, and the server neither
  trims nor checks length. A blank name or a short message therefore passes the server but
  not the form. The address cannot cause such a disagreement: the browser strips whitespace
  from both ends of an e-mail control's value, and for such an address the two checks agree.

## Model

| member | source | states |
|---|---|---|
| Frames.Request | src/components/SceneManager.js:113 | a requested frame gets a fresh id, which joins the pending set |
| Frames.Cancel | src/components/SceneManager.js:139-142 | cancelling removes exactly that id; cancelling an id that is not pending changes nothing |
| Frames.Fire | src/components/SceneManager.js:110-113 | a firing frame leaves the pending set, which shrinks by one |
| SceneManager.Create | src/components/SceneManager.js:10-18 | a new manager is not rendering and has no callbacks |
| SceneManager.OnAnimate | src/components/SceneManager.js:103-105 | the callback is appended at the end; the earlier callbacks and the rest of the state are untouched |
| SceneManager.Invocations | src/components/SceneManager.js:119-121 | the callbacks are called in registration order, each with the same delta and elapsed time |
| SceneManager.RunCallbacks | src/components/SceneManager.js:119-121 | all callbacks complete iff none throws; otherwise the first throwing one ends the run right after it is called |
| SceneManager.Tick | src/components/SceneManager.js:110-125 | a stopped loop does nothing; a running one requests the next frame first, then calls the callbacks in order and renders only if none threw |
| SceneManager.StartRendering | src/components/SceneManager.js:127-133 | starting a stopped loop restarts the clock and runs a frame at once; starting a running loop does nothing |
| SceneManager.StopRendering | src/components/SceneManager.js:135-143 | the loop stops and its pending frame is cancelled; stopping a stopped loop does nothing |
| SceneManager.FrameFires | src/components/SceneManager.js:110-125 | only a pending frame does anything; it renders once after every callback and leaves a new frame pending |
| SceneManager.HandleEvent | src/components/SceneManager.js:73-89 | hiding or blurring the page stops the loop; showing or focusing it starts the loop |
| SceneManager.Dispose | src/components/SceneManager.js:164-200 | the loop stops and the renderer is disposed; the callback list is kept |
| SceneManager.StartIdempotent | src/components/SceneManager.js:127-133 | a second start has no effect |
| SceneManager.DisposeIsNotTerminal | src/components/SceneManager.js:73-89 | after dispose, a focus event starts the loop again and it renders |
| SceneManager.RunFrames | src/components/SceneManager.js:110-125 | n fired frames keep the loop's invariant and its running state |
| SceneManager.InvocationsCount | src/components/SceneManager.js:119-121 | one frame calls each callback once per registration and never renders in between |
| SceneManager.OneFrameCounts | src/components/SceneManager.js:110-125 | one frame renders once and calls each callback once per registration |
| SceneManager.RunFramesWhileRendering | src/components/SceneManager.js:110-125 | n frames render n times and call each callback n times per registration |
| SceneManager.RunFramesWhileStopped | src/components/SceneManager.js:110-112 | frames of a stopped loop do nothing |
| SceneManager.StartThenFrames | src/components/SceneManager.js:110-133 | starting and then n frames render n + 1 times, because the start runs a frame of its own |
| SceneManager.StopThenFrames | src/components/SceneManager.js:135-143 | after a stop, no number of frames does anything |
| SceneManager.ThrowKeepsLoopAlive | src/components/SceneManager.js:113-124 | a throwing callback skips the render of that frame but keeps the loop running; the next frame renders |
| ParticleField.PixelRatio | src/components/ParticleField.js:33 | a missing or zero device pixel ratio counts as 1 |
| ParticleField.OptimalCount | src/components/ParticleField.js:26-42 | the count is floor(30%) on mobile, floor(70%) on desktop above ratio 2, and the request itself otherwise |
| ParticleField.OptimalCountBounds | src/components/ParticleField.js:26-42 | the count never exceeds the request and is never negative |
| ParticleField.OptimalCountMonotone | src/components/ParticleField.js:26-42 | asking for more particles never gives fewer |
| ParticleField.Radius | src/components/ParticleField.js:74 | the spawn radius lies in [10, 20) |
| ParticleField.VelocityComponent | src/components/ParticleField.js:83-85 | each velocity component lies in [-0.01, 0.01) |
| ParticleField.Size | src/components/ParticleField.js:104 | the size lies in [0.5, 2.5) |
| ParticleField.ChooseColour | src/components/ParticleField.js:88-97 | white exactly below 0.7, electric blue exactly from 0.9, and in between a blend from electric blue to white by the blend draw |
| ParticleField.ColourBands | src/components/ParticleField.js:88-97 | the colour is white below 0.7, a blend below 0.9 and electric blue from 0.9; it is never black |
| ParticleField.InitialParticle | src/components/ParticleField.js:70-104 | a new particle lies in the shell of radius 10 to 20, with bounded velocity and size, coloured by its band |
| ParticleField.NormSqScale | src/components/ParticleField.js:74-78 | scaling a vector scales its squared length by the square of the factor |
| ParticleField.Create | src/components/ParticleField.js:10-17 | the field holds the optimal number of particles, all in the spawn shell; the GPU path keeps velocities and a time uniform; the animate callback is registered |
| ParticleField.Advance | src/components/ParticleField.js:215-217 | a particle moves by ten times its velocity per second |
| ParticleField.Wrap | src/components/ParticleField.js:219-233 | a particle within distance 20 is untouched; one beyond it is put back at distance 10 on the opposite side |
| ParticleField.Animate | src/components/ParticleField.js:195-238 | the cloud spins by 0.08 per second, the time uniform tracks the clock, and every moved particle ends within distance 20 |
| ParticleField.AnimateKeepsCloudBounded | src/components/ParticleField.js:211-236 | after any frame every particle lies within distance 20 |
| ParticleField.NoWrapInsideBoundary | src/components/ParticleField.js:219-233 | a particle that stays within the boundary is never reset |
| ParticleField.RestingParticleStays | src/components/ParticleField.js:215-233 | a particle with zero velocity inside the boundary stays where it is |
| HeroText.Create | src/components/Hero3DText.js:12-19 | a new wordmark has no mesh, is not hovered and is at rest with neutral targets |
| HeroText.Init | src/components/Hero3DText.js:24-36 | the text mesh exists iff the font loaded; the fallback boxes otherwise; the animate callback is registered unless the text creation threw |
| HeroText.ReactToPointer | src/components/Hero3DText.js:169-175 | the rotation targets are 0.3 x about y and -0.2 y about x; without a mesh nothing changes |
| HeroText.PointerTargetsBounded | src/components/Hero3DText.js:169-175 | a pointer in [-1, 1] squared gives targets within 0.3 and 0.2 |
| HeroText.SetHovered | src/components/Hero3DText.js:181-193 | hovering targets scale 1.05 and a glow tween to 0.4 over 0.3 s; leaving targets 1.0 and a tween to 0.2; the tween exists iff the mesh does |
| HeroText.TweenFrame | src/components/Hero3DText.js:221-240 | a tween frame keeps the glow between its start and its target, and writes the target itself once the duration has passed |
| HeroText.HoverGlowSettles | src/components/Hero3DText.js:181-193 | 0.3 s after a hover change the glow is exactly 0.4 when hovered and 0.2 when not |
| HeroText.Animate | src/components/Hero3DText.js:195-209 | each frame closes the rotation gap by 3·dt and the scale gap by 4·dt of itself and writes the values onto the mesh |
| HeroText.AnimateNeverOvershoots | src/components/Hero3DText.js:199-209 | with 4·dt ≤ 1 a frame lands between the current value and its target |
| HeroText.RestIsFixedPoint | src/components/Hero3DText.js:199-209 | a wordmark at rest stays at rest |
| HeroText.AnimateFrames | src/components/Hero3DText.js:195-209 | frames never change the targets or whether a mesh exists |
| HeroText.ScaleConverges | src/components/Hero3DText.js:207-209 | after n frames the scale gap is (1 - 4·dt)^n of the first gap |
| Damping.Follow | src/components/CursorGlow.js:36-37 | one step leaves the fraction 1 - rate of the gap |
| Damping.FollowBetween | src/components/CursorGlow.js:36-37 | a step with rate in [0, 1] lands between the value and its target, on the same side |
| Damping.Pow | src/components/Hero3DText.js:207-208 | powers of a fraction in [0, 1] stay in [0, 1] |
| Damping.FollowN | src/components/CursorGlow.js:34-45 | n steps leave the fraction (1 - rate)^n of the gap |
| Damping.FollowNMonotone | src/components/CursorGlow.js:34-45 | every step moves closer to the target, never past it |
| Damping.FollowNFirstStep | src/components/CursorGlow.js:34-45 | n steps are one step followed by n - 1 steps |
| Easing.Progress | src/components/Hero3DText.js:226-227 | the progress is elapsed / duration capped at 1; it reaches 1 exactly when the duration has passed |
| Easing.EaseOut | src/components/Hero3DText.js:230 | the curve maps [0, 1] onto [0, 1], starting at 0 and ending at 1 |
| Easing.EaseOutMonotone | src/components/Hero3DText.js:230 | the eased value never goes back as progress grows |
| Easing.StepAt | src/components/Hero3DText.js:225-239 | a frame asks for another frame iff the duration has not passed; the last frame writes the target; every value lies between start and target |
| Easing.Run | src/components/Hero3DText.js:225-239 | a run of frames stops at the first frame past the duration, ends exactly on the target, and never leaves the range between start and target |
| CursorGlow.Create | src/components/CursorGlow.js:7-32 | a new glow is attached, listening, at the origin and following an origin pointer |
| CursorGlow.MouseMove | src/components/CursorGlow.js:25-28 | a mouse move changes only the remembered pointer |
| CursorGlow.Animate | src/components/CursorGlow.js:34-45 | a frame closes 15% of the gap to the pointer, moves the element there and requests the next frame |
| CursorGlow.FrameFires | src/components/CursorGlow.js:44 | only a pending frame animates |
| CursorGlow.Dispose | src/components/CursorGlow.js:47-54 | the element is removed and the pending frame cancelled; the listener stays and the positions are kept |
| CursorGlow.GapShrinks | src/components/CursorGlow.js:36-38 | the glow moves toward the pointer without overshooting it |
| CursorGlow.RunFrames | src/components/CursorGlow.js:34-45 | frames never move the pointer or reattach the element |
| CursorGlow.Converges | src/components/CursorGlow.js:34-45 | after n frames the gap is 0.85^n of the first gap |
| CursorGlow.DisposedGlowIsFrozen | src/components/CursorGlow.js:25-28 | after dispose the listener still records the pointer, but no frame moves the glow any more |
| Text.Trim | src/sections/Contact.js:98 | the result is the input without leading and trailing whitespace; it is empty iff the input is all whitespace |
| Text.TrimIdempotent | src/sections/Contact.js:98 | trimming twice is trimming once |
| Text.TrimUnique | src/sections/Contact.js:98 | any whitespace-stripped core of the input that has no whitespace at its ends is the trim |
| Text.TrimIgnoresPadding | src/sections/Contact.js:98 | whitespace added at either end does not change the trim |
| EmailPattern.IsEmailMatchesPattern | src/sections/Contact.js:109 | the executable check accepts exactly the strings the pattern matches |
| Capability.ScanFrom | src/main.js:482-484 | the scan finds a token iff one occurs at some position from its start on |
| Capability.IsMobileDevice | src/main.js:482-484 | true iff the user agent contains one of the eight tokens, ignoring case |
| Capability.ActiveConnection | src/main.js:488 | the first connection object present is used; the standard one wins |
| Capability.IsLowEndDevice | src/main.js:486-508 | low-end iff data saver or a 2G connection, less than 4 GB of memory, or fewer than 4 cores; a missing or zero hint is skipped |
| Capability.NoHintsFailsOpen | src/main.js:486-508 | a browser that gives no hints counts as capable |
| Capability.ZeroHintsIgnored | src/main.js:498-505 | a zero memory or core hint counts as a missing one |
| Capability.FirstConnectionWins | src/main.js:488-495 | a slow vendor connection is ignored when the standard one is fast |
| MainPage.ChooseHero | src/main.js:33-41 | the scene is built iff motion is allowed, the device is capable, the container exists and set-up does not throw; reduced motion always gives the fallback |
| MainPage.SilentBrowserGetsScene | src/main.js:33-41 | a browser that gives no hints gets the scene |
| MainPage.RequestedParticleCount | src/main.js:85 | 300 particles are requested on mobile and 1000 elsewhere |
| MainPage.ParticleBudget | src/main.js:85 | the field ends with 90 particles on mobile, 700 on dense desktop screens and 1000 otherwise |
| MainPage.Boot | src/main.js:29-67 | particles are requested only with the scene; the cursor glow exists iff the device is not mobile |
| MainPage.GlowIndependentOfScene | src/main.js:36-64 | reduced motion disables the scene but not the desktop cursor glow |
| MainPage.NormalizePointer | src/main.js:163-164 | a pointer inside the window maps into [-1, 1] squared, with y pointing up |
| MainPage.NormalizeThenDenormalize | src/main.js:163-164 | normalizing loses nothing: the window position is recovered |
| MainPage.DenormalizeThenNormalize | src/main.js:163-164 | every point of [-1, 1] squared comes from exactly one window position |
| MainPage.HeroMouseMove | src/main.js:159-174 | without the wordmark nothing happens; otherwise it retargets the wordmark and the camera closes 5% of its gap to 0.5x and 0.3y |
| MainPage.CameraStaysInBox | src/main.js:172-173 | the camera never leaves [-0.5, 0.5] by [-0.3, 0.3] |
| MainPage.InitialTheme | src/main.js:364-370 | a saved non-empty theme is applied; otherwise dark; nothing happens without the toggle |
| MainPage.ToggleTheme | src/main.js:372-377 | dark becomes light, anything else becomes dark, and the new theme is saved |
| MainPage.ToggleTwice | src/main.js:372-377 | toggling twice restores dark or light, and turns any other theme into light |
| MainPage.ThemeSurvivesReload | src/main.js:364-377 | after a toggle, reloading applies the toggled theme |
| Contact.Capitalize | src/sections/Contact.js:154-156 | the first character is upper-cased and the rest kept |
| Contact.CapitalizeIdempotent | src/sections/Contact.js:154-156 | capitalizing twice is capitalizing once |
| Contact.RequiredMessage | src/sections/Contact.js:104 | the message is the field name followed by " is required" |
| Contact.ErrorMessage | src/sections/Contact.js:97-119 | no message iff the field is present when required, a well-formed address when an e-mail, and long enough when the message |
| Contact.ErrorPrecedence | src/sections/Contact.js:102-118 | the last failing check wins: length over e-mail over presence |
| Contact.ValidateField | src/sections/Contact.js:97-127 | a field is valid iff all three checks pass; an invalid field shows its message and a valid one clears it |
| Contact.ValidationIgnoresPadding | src/sections/Contact.js:98 | surrounding whitespace never changes the verdict or the message |
| Contact.BlankFields | src/sections/Contact.js:98-105 | a blank field passes when optional and fails with the required message when required |
| Contact.MessageLengthBoundary | src/sections/Contact.js:116-118 | a nine-character message fails for its length; a ten-character one passes |
| Contact.Checked | src/sections/Contact.js:85-92 | only required controls are validated |
| Contact.CheckedClean | src/sections/Contact.js:88-92 | a control shows no error iff it is optional or valid |
| Contact.CheckAllPointwise | src/sections/Contact.js:88-92 | each control's error element shows what validating that control alone gives |
| Contact.CheckOne | src/sections/Contact.js:88-92 | one control counts as fine iff it is optional or valid, which is exactly when it shows no error |
| Contact.ValidateForm | src/sections/Contact.js:84-95 | every required control is validated, none is skipped after a failure, and the form is valid iff all of them are |
| Contact.FormData | src/sections/Contact.js:39-40 | every control's name and raw value, in order |
| Contact.HandleSubmit | src/sections/Contact.js:27-82 | an invalid form does nothing else; a valid one disables the button, posts, shows success iff the reply's ok is true, alerts otherwise, and re-enables the button last |
| MockContact.Submit | server/mock-contact.js:24-62 | missing name, email or message gives 400 with the missing-fields error first; with all three present, an address failing the pattern gives 400 with the invalid-address error; otherwise 200 with the thank-you and the time |
| MockContact.Serve | server/mock-contact.js:24-84 | a malformed JSON body gives 500; POST to the contact route submits; GET or HEAD of the health route reports; every other request that reaches the router gives 404 |
| MockContact.CompanyNeverRequired | server/mock-contact.js:25-28 | the company field never changes the reply |
| MockContact.PresenceBeforeEmail | server/mock-contact.js:28-42 | a missing field is reported even when the address is malformed too |
| MockContact.WrongVerbIsNotFound | server/mock-contact.js:24-75 | GET of the contact route and POST of the health route give 404 |
| MockContact.ServerIsLax | server/mock-contact.js:28-37 | a blank name and a two-letter message are accepted |
| MockContact.Lookup | src/sections/Contact.js:40 | a value is found iff the key occurs, and it is the value of the last pair with that key |
| MockContact.LookupUnique | src/sections/Contact.js:40 | a key that occurs once gives its own value |
| MockContact.FormArrivesRaw | src/sections/Contact.js:39-53 | the form reaches the server with its three values untouched and no company |
| MockContact.AddressChecksAgree | server/mock-contact.js:36-37 | for an address with no whitespace at either end, the form accepts the field iff the server's pattern accepts it |
| MockContact.FormAcceptedServerAccepts | server/mock-contact.js:28-61 | with such an address, a form whose three fields pass their checks is thanked by the server |
| MockContact.BlankNameAndShortMessagePassOnlyTheServer | src/sections/Contact.js:98-118 | the form rejects a blank name and a short message, but the server accepts them |
| Services.TiltAngles | src/sections/Services.js:98-111 | inside the card both angles lie in [-10, 10]; each angle's sign follows the pointer's side of the centre; the edges give the full 10 degrees |
| Services.PointerFor | src/sections/Services.js:103-111 | angles within 10 degrees come from a pointer inside the card |
| Services.TiltRoundTrip | src/sections/Services.js:103-111 | every pointer position gives its own pair of angles |
| Services.AnglesRoundTrip | src/sections/Services.js:103-111 | every pair of angles comes from exactly one pointer position |
| Services.Render | src/sections/Services.js:79-87 | cards start flat and tilt iff the user agent is not mobile |
| Services.OnEvent | src/sections/Services.js:89-126 | only tiltable cards react; a move tilts the card by exactly the pointer's angles, and leaving flattens it |
| Services.DesktopTiltBounded | src/sections/Services.js:98-111 | a pointer inside a desktop card tilts it by at most 10 degrees about each axis |
| Services.MobileCardsStayFlat | src/sections/Services.js:79-96 | on mobile no pointer activity changes a card |
| Services.LeavingFlattens | src/sections/Services.js:123-126 | whatever happened before, leaving puts the card back flat |
| Portfolio.ProjectIdsDistinct | src/sections/Portfolio.js:8-57 | no two projects share an id |
| Portfolio.Find | src/sections/Portfolio.js:116 | a project is found iff its id is in the table, and it is the first with that id |
| Portfolio.FindEach | src/sections/Portfolio.js:116 | with distinct ids each project is found by its own id |
| Portfolio.Animate | src/sections/Portfolio.js:242-260 | without all four references nothing happens; otherwise a frame is requested and stored and one render done |
| Portfolio.Init | src/sections/Portfolio.js:152-222 | without the container nothing happens; otherwise the preview is ready in the project's colour and has rendered once |
| Portfolio.FrameFires | src/sections/Portfolio.js:245 | only a pending frame does anything, and it renders only while the preview is ready |
| Portfolio.Dispose | src/sections/Portfolio.js:262-296 | the stored frame is cancelled and every reference cleared |
| Portfolio.NotReadyStaysIdle | src/sections/Portfolio.js:242-243 | a preview missing a reference never renders and never requests a frame |
| Portfolio.DisposeStopsTheLoop | src/sections/Portfolio.js:242-243 | after dispose no frame renders, even one still pending |
| Portfolio.InitTwiceLeavesTwoChains | src/sections/Portfolio.js:215-222 | two inits without dispose leave two frame chains running, and dispose cancels only the later one |
| Portfolio.OpenModal | src/sections/Portfolio.js:115-141 | an unknown id does nothing; a known one shows that project, unhides the modal, locks scrolling and starts the preview |
| Portfolio.CloseModal | src/sections/Portfolio.js:143-150 | the modal is hidden, scrolling unlocked and the preview stopped |
| Portfolio.DocumentKey | src/sections/Portfolio.js:108-112 | only Escape on a shown modal changes anything, and it closes the modal |
| Portfolio.TileKey | src/sections/Portfolio.js:90-95 | Enter or Space opens the tile's project; other keys do nothing |
| Portfolio.EveryTileOpensItsProject | src/sections/Portfolio.js:87-95 | every tile opens and shows its own project |
| Portfolio.EscapeIdempotent | src/sections/Portfolio.js:108-112 | pressing Escape twice is pressing it once |
| Portfolio.PulseScale | src/sections/Portfolio.js:256 | the pulse stays within [0.95, 1.05] and grows exactly when the sine is positive |

## Left out

- Three.js itself is not modelled: geometry, materials, lights, cameras and the WebGL renderer. The model keeps only the values the code writes onto them.
- The DOM plumbing is not modelled: element lookups, classes, ARIA attributes, scroll observers, the parallax of the description and the robot, the timeline and the forge object.
- Clocks and timers are not modelled: `Date.now`, `setTimeout`, the 500 ms reply delay, the 5 s success banner and the 100 ms focus timeout. Times are parameters.
- Random draws, `Math.sqrt`, `Math.sin` and `Math.cos` are parameters with the properties the code relies on. These are uniform draws in [0, 1), a unit direction, and a distance whose square is the squared length.
- IEEE doubles are modelled as exact reals. `Math.floor` in the particle count is exact; rounding error is left out.
- The particle field stores positions, colours, sizes and velocities in `Float32Array`s, so each stored value is also rounded to single precision. The model keeps them as exact reals.
- Portfolio.InitTwiceLeavesTwoChains: its concrete ids ({1, 2}, then {3, 4}) exist only in the model. Each component has its own id counter starting at 1. The browser hands out `requestAnimationFrame` ids from one counter for the whole document. No component cancels another's id, so only the values of the ids differ.
- The projects' descriptions and tags are not modelled. The modal writes them as text only.
- Contact.FormData: every modelled control is posted. `new FormData(form)` also skips controls without a name, disabled controls and buttons. The contact form has no control of these kinds among its modelled fields, so they are not represented.
- Resize handling is not modelled: the resize listener and the preview's resize observer.
- The wordmark's idle bob and roll, which depend only on the clock.
- `setOpacity` and the particle field's and wordmark's own `dispose`, which only free GPU resources.
- The preview's rotation angles, which depend only on the clock.
- `fetch` and the network are left out: the reply is an input to `HandleSubmit`. The server's CORS, logging and listening are left out too.
- MockContact.Serve: the CORS middleware runs before routing and answers every OPTIONS preflight with 204. The model has no OPTIONS verb, so its 404 covers only requests that reach the router.
- MockContact.AddressChecksAgree: the address is required to have no whitespace at either end. The browser strips tab, line feed, form feed, carriage return and space there, but not a vertical tab. The page markup is not part of this model, so it is open whether the browser's own validation would stop such an address first.
- Services.Render: models a page that has the services grid. Without the grid `renderServices` returns before rendering anything, and no card exists.
- Only string or missing JSON values are modelled for the server's body fields. Other JSON types and non-object bodies are left out.
- Percent-decoding of request paths is left out, and so is the handling of a body that is not sent as JSON.
- Whitespace, case mapping and string length are ASCII and per character. Unicode whitespace, Unicode case and UTF-16 code units are not modelled.
- A font error thrown from inside the loader's callback would leave the wordmark's set-up promise pending for good. This is not modelled.
- A set-up step that throws halfway through the hero start-up leaves some globals assigned. The model records only whether it threw.
- Overlapping hover tweens on the same material are not modelled; each tween is modelled alone.
- The page-unload disposal hook is not modelled.
- Services.TiltAngles: requires a card of positive size, because a zero-size card gives NaN or Infinity in the source.
- MainPage.NormalizePointer: requires a window of positive size, for the same reason.
- ParticleField.Wrap: takes the particle's distance as a parameter instead of computing the square root.
