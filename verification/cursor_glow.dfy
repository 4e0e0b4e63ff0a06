/** The glow that trails the mouse pointer on desktop: a page element whose position
    closes 15% of its distance to the last mouse position on every animation frame, in a
    self-perpetuating frame chain that only `dispose` breaks. */
module CursorGlow {
  import opened Wrappers
  import opened Frames
  import opened Damping

  /** The glow element: in the page, or removed by `dispose`. */
  datatype Element = Attached | Removed

  datatype Glow = Glow(
    mouseX: real, mouseY: real,
    currentX: real, currentY: real,
    left: real, top: real,
    animationId: Option<FrameId>,
    frames: Scheduler,
    element: Element,
    listening: bool)

  /** The fraction of the gap closed per frame. */
  const Speed: real := 0.15

  /** While the element is attached exactly the stored frame is pending; once removed,
      nothing is. */
  ghost predicate Inv(g: Glow)
  {
    && g.frames.Valid()
    && (g.element == Attached ==> g.animationId.Some? && g.frames.pending == {g.animationId.value})
    && (g.element == Removed ==> g.frames.pending == {})
  }

  /** One frame: both axes follow the mouse, the element is moved to the new position and
      the next frame is requested. */
  function Animate(g: Glow): (r: Glow)
    ensures r.currentX - r.mouseX == (1.0 - Speed) * (g.currentX - g.mouseX)
    ensures r.currentY - r.mouseY == (1.0 - Speed) * (g.currentY - g.mouseY)
    ensures r.left == r.currentX && r.top == r.currentY
    ensures r.animationId == Some(g.frames.nextId) && r.frames.pending == g.frames.pending + {g.frames.nextId}
    ensures r.mouseX == g.mouseX && r.mouseY == g.mouseY && r.element == g.element && r.listening == g.listening
  {
    var x := Follow(g.currentX, g.mouseX, Speed);
    var y := Follow(g.currentY, g.mouseY, Speed);
    var req := Request(g.frames);
    g.(currentX := x, currentY := y, left := x, top := y, animationId := Some(req.id), frames := req.frames)
  }

  /** The constructor: mouse and position start at the origin, the element is appended, the
      mousemove listener is added and the first frame runs at once. */
  function Create(): (g: Glow)
    ensures Inv(g) && g.element == Attached && g.listening
    ensures g.mouseX == 0.0 && g.mouseY == 0.0 && g.currentX == 0.0 && g.currentY == 0.0
  {
    Animate(Glow(0.0, 0.0, 0.0, 0.0, 0.0, 0.0, None, Idle, Attached, true))
  }

  /** The mousemove listener: the target becomes the raw client coordinates; the displayed
      position waits for the next frame. The listener outlives `dispose`. */
  function MouseMove(g: Glow, clientX: real, clientY: real): (r: Glow)
    ensures r.mouseX == clientX && r.mouseY == clientY
    ensures r.(mouseX := g.mouseX, mouseY := g.mouseY) == g
    ensures Inv(g) ==> Inv(r)
  {
    g.(mouseX := clientX, mouseY := clientY)
  }

  /** The platform runs frame `id`: only the pending frame does anything. */
  function FrameFires(g: Glow, id: FrameId): (r: Glow)
    ensures id !in g.frames.pending ==> r == g
    ensures Inv(g) ==> Inv(r)
    ensures Inv(g) && id in g.frames.pending ==> r == Animate(g.(frames := Fire(g.frames, id)))
  {
    if id !in g.frames.pending then g else Animate(g.(frames := Fire(g.frames, id)))
  }

  /** `dispose()`: a stored id (always truthy, ids being positive) is cancelled and the element
      removed. The id is not cleared and the mousemove listener stays. */
  function Dispose(g: Glow): (r: Glow)
    ensures r.element == Removed && r.listening == g.listening && r.animationId == g.animationId
    ensures r.mouseX == g.mouseX && r.mouseY == g.mouseY && r.currentX == g.currentX && r.currentY == g.currentY
    ensures Inv(g) ==> Inv(r) && r.frames.pending == {}
  {
    var frames := if g.animationId.Some? then Cancel(g.frames, g.animationId.value) else g.frames;
    g.(frames := frames, element := Removed)
  }

  /** Each frame scales the gap on each axis by exactly 0.85 without changing its sign, so
      with a resting mouse the glow closes in and never overshoots. */
  lemma GapShrinks(g: Glow)
    ensures Between(Animate(g).currentX, g.currentX, g.mouseX)
    ensures Between(Animate(g).currentY, g.currentY, g.mouseY)
    ensures (Animate(g).currentX - g.mouseX) * (g.currentX - g.mouseX) >= 0.0
  {
    FollowBetween(g.currentX, g.mouseX, Speed);
    FollowBetween(g.currentY, g.mouseY, Speed);
  }

  /** The pending frame fired `n` times in a row. */
  function RunFrames(g: Glow, n: nat): (r: Glow)
    ensures Inv(g) ==> Inv(r)
    ensures r.mouseX == g.mouseX && r.mouseY == g.mouseY && r.element == g.element
    decreases n
  {
    if n == 0 || g.animationId.None? then g
    else RunFrames(FrameFires(g, g.animationId.value), n - 1)
  }

  /** With the mouse at rest and the glow attached, `n` frames leave the glow at the
      `n`-fold damped position on each axis: it converges geometrically with ratio 0.85. */
  lemma {:induction false} Converges(g: Glow, n: nat)
    requires Inv(g) && g.element == Attached
    ensures RunFrames(g, n).currentX == FollowN(g.currentX, g.mouseX, Speed, n)
    ensures RunFrames(g, n).currentY == FollowN(g.currentY, g.mouseY, Speed, n)
    decreases n
  {
    if n > 0 {
      var g1 := FrameFires(g, g.animationId.value);
      Converges(g1, n - 1);
      FollowNFirstStep(g.currentX, g.mouseX, Speed, n);
      FollowNFirstStep(g.currentY, g.mouseY, Speed, n);
    }
  }

  /** After `dispose()` the glow is frozen: mouse moves are still recorded, but no frame is
      pending, so no number of frames moves the glow. */
  lemma DisposedGlowIsFrozen(g: Glow, x: real, y: real, n: nat)
    requires Inv(g)
    ensures var d := MouseMove(Dispose(g), x, y);
      && d.mouseX == x && d.mouseY == y && d.listening == g.listening
      && RunFrames(d, n) == d
  {
    FrozenStaysFrozen(MouseMove(Dispose(g), x, y), n);
  }

  lemma {:induction false} FrozenStaysFrozen(d: Glow, n: nat)
    requires Inv(d) && d.element == Removed
    ensures RunFrames(d, n) == d
    decreases n
  {
    if n > 0 && d.animationId.Some? {
      assert FrameFires(d, d.animationId.value) == d;
      FrozenStaysFrozen(d, n - 1);
    }
  }
}
