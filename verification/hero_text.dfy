/** The "LUKEFORGE" wordmark of the hero scene: the parallax rotation that follows the
    pointer, the hover scale, the emissive glow tween, and how the wordmark joins the
    render loop. Font loading is an input: its outcome decides which mesh exists and
    whether the per-frame callback is registered. */
module HeroText {
  import opened Wrappers
  import opened Damping
  import Easing
  import SceneManager

  /** The text mesh built from the loaded font, or the group of boxes built instead. */
  datatype MeshKind = TextMesh | FallbackGroup

  /** What the wordmark writes onto its mesh: rotation about x and y, the uniform scale,
      and the emissive intensity of the material the hover tween animates. */
  datatype Mesh = Mesh(kind: MeshKind, rotationX: real, rotationY: real, scale: real, emissive: real)

  datatype Wordmark = Wordmark(
    mesh: Option<Mesh>,
    targetRotationX: real, targetRotationY: real,
    currentRotationX: real, currentRotationY: real,
    targetScale: real, currentScale: real,
    hovered: bool)

  /** A freshly built mesh: unrotated, unscaled, with the materials' emissive intensity 0.2. */
  function NewMesh(kind: MeshKind): Mesh
  {
    Mesh(kind, 0.0, 0.0, 1.0, 0.2)
  }

  /** Nothing is moving: every current value sits at its target. */
  predicate AtRest(w: Wordmark)
  {
    && w.currentRotationX == w.targetRotationX
    && w.currentRotationY == w.targetRotationY
    && w.currentScale == w.targetScale
  }

  /** The state the constructor sets up before the font arrives: no mesh, no rotation,
      unit scale, not hovered. */
  function Create(): (w: Wordmark)
    ensures w.mesh.None? && !w.hovered && AtRest(w)
    ensures w.targetRotationX == 0.0 && w.targetRotationY == 0.0 && w.targetScale == 1.0
  {
    Wordmark(None, 0.0, 0.0, 0.0, 0.0, 1.0, 1.0, false)
  }

  /** How `init()` ends: the font loaded; the loader reported an error (the fallback is
      built and the promise still resolves); or `createText` rejected (the `catch` builds
      the fallback). */
  datatype FontOutcome = Loaded | LoadFailed | Rejected

  /** `init()`: which mesh is built, and whether the per-frame callback is registered. Only
      the resolved paths reach `onAnimate`; after a rejection the fallback group is shown
      but never animated. */
  function Init(w: Wordmark, loop: SceneManager.Loop, callback: SceneManager.CallbackId, outcome: FontOutcome): (r: (Wordmark, SceneManager.Loop))
    ensures r.0.mesh.Some?
    ensures r.0.mesh.value.kind == TextMesh <==> outcome == Loaded
    ensures outcome != Rejected ==> r.1 == SceneManager.OnAnimate(loop, callback)
    ensures outcome == Rejected ==> r.1 == loop
    ensures r.0.(mesh := w.mesh) == w
  {
    match outcome
    case Loaded => (w.(mesh := Some(NewMesh(TextMesh))), SceneManager.OnAnimate(loop, callback))
    case LoadFailed => (w.(mesh := Some(NewMesh(FallbackGroup))), SceneManager.OnAnimate(loop, callback))
    case Rejected => (w.(mesh := Some(NewMesh(FallbackGroup))), loop)
  }

  /** `reactToPointer(x, y)`: with a mesh, the targets become `0.3·x` about y and `-0.2·y`
      about x; the current rotation is left to the per-frame follow. Without a mesh
      nothing changes. */
  function ReactToPointer(w: Wordmark, x: real, y: real): (r: Wordmark)
    ensures w.mesh.None? ==> r == w
    ensures w.mesh.Some? ==>
      && r.targetRotationY / 0.3 == x && r.targetRotationX / -0.2 == y
      && r.(targetRotationX := w.targetRotationX, targetRotationY := w.targetRotationY) == w
  {
    if w.mesh.None? then w
    else w.(targetRotationY := x * 0.3, targetRotationX := -y * 0.2)
  }

  /** For a pointer inside the viewport, i.e. normalised coordinates in [-1, 1], the tilt
      targets stay within ±0.3 about y and ±0.2 about x. */
  lemma PointerTargetsBounded(w: Wordmark, x: real, y: real)
    requires -1.0 <= x <= 1.0 && -1.0 <= y <= 1.0
    ensures var r := ReactToPointer(w, x, y);
      w.mesh.Some? ==> -0.3 <= r.targetRotationY <= 0.3 && -0.2 <= r.targetRotationX <= 0.2
  {}

  /** The emissive intensity the hover state asks for. */
  function EmissiveTarget(hovered: bool): real
  {
    if hovered then 0.4 else 0.2
  }

  /** `setHovered(h)`: records the flag and the target scale (1.05 hovered, 1 otherwise)
      even without a mesh; with a mesh it also starts a 0.3 s tween of the emissive
      intensity from its present value toward 0.4 (hovered) or 0.2. */
  function SetHovered(w: Wordmark, hovered: bool): (r: (Wordmark, Option<Easing.Tween>))
    ensures r.0.hovered == hovered
    ensures r.0.targetScale == 1.05 <==> hovered
    ensures !hovered ==> r.0.targetScale == 1.0
    ensures r.0.(hovered := w.hovered, targetScale := w.targetScale) == w
    ensures r.1.Some? <==> w.mesh.Some?
    ensures r.1.Some? ==>
      r.1.value.start == w.mesh.value.emissive && r.1.value.duration == 0.3
      && (r.1.value.target == 0.4 <==> hovered)
    ensures r.1.Some? && !hovered ==> r.1.value.target == 0.2
  {
    var w' := w.(hovered := hovered, targetScale := if hovered then 1.05 else 1.0);
    if w.mesh.Some? then (w', Some(Easing.Tween(w.mesh.value.emissive, EmissiveTarget(hovered), 0.3)))
    else (w', None)
  }

  /** The glow tween writes its value onto the mesh `elapsed` seconds after it started. */
  function TweenFrame(w: Wordmark, t: Easing.Tween, elapsed: real): (r: Wordmark)
    requires t.duration > 0.0
    ensures r.mesh.Some? <==> w.mesh.Some?
    ensures w.mesh.Some? && elapsed >= 0.0 ==> Between(r.mesh.value.emissive, t.start, t.target)
    ensures w.mesh.Some? && elapsed >= t.duration ==> r.mesh.value.emissive == t.target
  {
    if w.mesh.None? then w
    else w.(mesh := Some(w.mesh.value.(emissive := Easing.StepAt(t, elapsed).value)))
  }

  /** 0.3 s after a hover change the glow sits exactly on the new target, 0.4 when hovered
      and 0.2 when not, whatever value the tween started from. */
  lemma HoverGlowSettles(w: Wordmark, hovered: bool, elapsed: real)
    requires w.mesh.Some? && elapsed >= 0.3
    ensures var (w', t) := SetHovered(w, hovered);
      TweenFrame(w', t.value, elapsed).mesh.value.emissive == EmissiveTarget(hovered)
  {}

  /** The rotation follow rate per second. */
  const RotationSpeed: real := 3.0
  /** The scale follow rate per second. */
  const ScaleSpeed: real := 4.0

  /** `animate(deltaTime)`: without a mesh nothing changes. Otherwise each current value
      closes the fraction `3·dt` (rotation) or `4·dt` (scale) of its gap to the target,
      and the mesh shows the new values. Targets and the hover flag are untouched. */
  function Animate(w: Wordmark, dt: real): (r: Wordmark)
    ensures w.mesh.None? ==> r == w
    ensures w.mesh.Some? ==>
      && r.currentRotationX - r.targetRotationX == (1.0 - RotationSpeed * dt) * (w.currentRotationX - w.targetRotationX)
      && r.currentRotationY - r.targetRotationY == (1.0 - RotationSpeed * dt) * (w.currentRotationY - w.targetRotationY)
      && r.currentScale - r.targetScale == (1.0 - ScaleSpeed * dt) * (w.currentScale - w.targetScale)
      && r.mesh.Some? && r.mesh.value.kind == w.mesh.value.kind
      && r.mesh.value.rotationX == r.currentRotationX && r.mesh.value.rotationY == r.currentRotationY
      && r.mesh.value.scale == r.currentScale && r.mesh.value.emissive == w.mesh.value.emissive
    ensures r.targetRotationX == w.targetRotationX && r.targetRotationY == w.targetRotationY
    ensures r.targetScale == w.targetScale && r.hovered == w.hovered
  {
    if w.mesh.None? then w
    else
      var rx := Follow(w.currentRotationX, w.targetRotationX, RotationSpeed * dt);
      var ry := Follow(w.currentRotationY, w.targetRotationY, RotationSpeed * dt);
      var s := Follow(w.currentScale, w.targetScale, ScaleSpeed * dt);
      w.(currentRotationX := rx, currentRotationY := ry, currentScale := s,
         mesh := Some(w.mesh.value.(rotationX := rx, rotationY := ry, scale := s)))
  }

  /** For a frame short enough that `4·dt <= 1`, no value overshoots: each lands between
      where it was and its target. */
  lemma AnimateNeverOvershoots(w: Wordmark, dt: real)
    requires w.mesh.Some? && 0.0 <= dt && ScaleSpeed * dt <= 1.0
    ensures var r := Animate(w, dt);
      && Between(r.currentRotationX, w.currentRotationX, w.targetRotationX)
      && Between(r.currentRotationY, w.currentRotationY, w.targetRotationY)
      && Between(r.currentScale, w.currentScale, w.targetScale)
  {
    FollowBetween(w.currentRotationX, w.targetRotationX, RotationSpeed * dt);
    FollowBetween(w.currentRotationY, w.targetRotationY, RotationSpeed * dt);
    FollowBetween(w.currentScale, w.targetScale, ScaleSpeed * dt);
  }

  /** A wordmark at rest stays at rest, whatever the frame length; in particular the
      initial state does not move until the pointer or the hover state changes a target. */
  lemma RestIsFixedPoint(w: Wordmark, dt: real)
    requires AtRest(w)
    ensures AtRest(Animate(w, dt))
    ensures Animate(w, dt).currentScale == w.currentScale
  {}

  /** `n` frames of equal length. */
  function AnimateFrames(w: Wordmark, dt: real, n: nat): (r: Wordmark)
    ensures r.targetScale == w.targetScale && r.targetRotationX == w.targetRotationX
    ensures r.targetRotationY == w.targetRotationY
    ensures r.mesh.Some? <==> w.mesh.Some?
    decreases n
  {
    if n == 0 then w else AnimateFrames(Animate(w, dt), dt, n - 1)
  }

  /** After `n` equal frames the scale gap is the initial gap times `(1 - 4·dt)^n`: the
      scale converges geometrically to its target. */
  lemma {:induction false} ScaleConverges(w: Wordmark, dt: real, n: nat)
    requires w.mesh.Some?
    ensures AnimateFrames(w, dt, n).currentScale == FollowN(w.currentScale, w.targetScale, ScaleSpeed * dt, n)
    decreases n
  {
    if n > 0 {
      var w1 := Animate(w, dt);
      ScaleConverges(w1, dt, n - 1);
      FollowNFirstStep(w.currentScale, w.targetScale, ScaleSpeed * dt, n);
    }
  }
}
