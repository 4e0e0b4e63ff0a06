/** The render-loop host of the hero scene: a running flag, the id of the pending animation
    frame and the ordered list of per-frame callbacks, stepped by start, stop, tick, the
    page-visibility and focus events, and dispose. The clock, the callbacks' own work and
    the renderer are outside the model: a tick receives the clock's delta and elapsed
    time, the set of callback positions that throw during it, and reports what happened as
    a trace of events. */
module SceneManager {
  import opened Wrappers
  import opened Frames

  /** Opaque handle of a registered per-frame callback. */
  type CallbackId = nat

  /** What a tick does, in order. */
  datatype Event =
    | RequestFrame(id: FrameId)
    | Invoke(callback: CallbackId, delta: real, elapsed: real)
    | Render

  /** How a tick ends: normally, or with the exception of the callback at `position`
      propagating out of the tick. */
  datatype Outcome = Completed | Threw(position: nat)

  datatype Loop = Loop(
    isRendering: bool,
    animationId: Option<FrameId>,
    callbacks: seq<CallbackId>,
    clockStarts: nat,
    frames: Scheduler,
    rendererDisposed: bool)

  datatype TickResult = TickResult(loop: Loop, trace: seq<Event>, outcome: Outcome)

  /** While rendering, exactly one frame is pending and its id is the stored one; while
      stopped, no frame is pending and no id is stored. */
  ghost predicate Inv(l: Loop)
  {
    && l.frames.Valid()
    && (if l.isRendering then l.animationId.Some? && l.frames.pending == {l.animationId.value}
        else l.animationId.None? && l.frames.pending == {})
  }

  /** The state right after the constructor: not rendering, nothing registered, nothing pending. */
  function Create(): (l: Loop)
    ensures Inv(l) && !l.isRendering && l.callbacks == []
  {
    Loop(false, None, [], 0, Idle, false)
  }

  /** `onAnimate(callback)`: the callback joins the end of the list; earlier callbacks keep
      their order and nothing else changes. */
  function OnAnimate(l: Loop, cb: CallbackId): (r: Loop)
    ensures |r.callbacks| == |l.callbacks| + 1
    ensures r.callbacks[..|l.callbacks|] == l.callbacks && r.callbacks[|l.callbacks|] == cb
    ensures r.(callbacks := l.callbacks) == l
    ensures Inv(l) ==> Inv(r)
  {
    l.(callbacks := l.callbacks + [cb])
  }

  /** The invocations of the callbacks at positions `from` up to (excluding) `to`, in order,
      all with the same delta and elapsed time. */
  function Invocations(cbs: seq<CallbackId>, from: nat, to: nat, delta: real, elapsed: real): (s: seq<Event>)
    requires from <= to <= |cbs|
    ensures |s| == to - from
    ensures forall k :: 0 <= k < |s| ==> s[k] == Invoke(cbs[from + k], delta, elapsed)
  {
    seq(to - from, k requires 0 <= k < to - from => Invoke(cbs[from + k], delta, elapsed))
  }

  /** No callback at a position in [from, to) throws. */
  predicate NoneThrow(failing: set<nat>, from: nat, to: nat)
  {
    forall j :: from <= j < to ==> j !in failing
  }

  /** `animateCallbacks.forEach(callback => callback(deltaTime, elapsedTime))` from position
      `i` on. There is no isolation: the first callback that throws ends the iteration
      after it was invoked. */
  function RunCallbacks(cbs: seq<CallbackId>, i: nat, delta: real, elapsed: real, failing: set<nat>): (r: (seq<Event>, Outcome))
    requires i <= |cbs|
    ensures r.1 == Completed <==> NoneThrow(failing, i, |cbs|)
    ensures r.1 == Completed ==> r.0 == Invocations(cbs, i, |cbs|, delta, elapsed)
    ensures r.1.Threw? ==>
      && i <= r.1.position < |cbs| && r.1.position in failing
      && NoneThrow(failing, i, r.1.position)
      && r.0 == Invocations(cbs, i, r.1.position + 1, delta, elapsed)
    decreases |cbs| - i
  {
    if i == |cbs| then ([], Completed)
    else
      var call := Invoke(cbs[i], delta, elapsed);
      if i in failing then
        assert [call] == Invocations(cbs, i, i + 1, delta, elapsed);
        ([call], Threw(i))
      else
        var rest := RunCallbacks(cbs, i + 1, delta, elapsed, failing);
        if rest.1 == Completed then
          assert [call] + rest.0 == Invocations(cbs, i, |cbs|, delta, elapsed);
          ([call] + rest.0, rest.1)
        else
          assert [call] + rest.0 == Invocations(cbs, i, rest.1.position + 1, delta, elapsed);
          ([call] + rest.0, rest.1)
  }

  /** `animate()`: while not rendering it does nothing at all. While rendering it first
      requests the next frame and stores its id, then invokes every callback once in
      registration order with the same delta and elapsed time, then renders once. A
      callback that throws ends the tick there: later callbacks and the render are skipped,
      but the next frame has already been requested. */
  function Tick(l: Loop, delta: real, elapsed: real, failing: set<nat>): (r: TickResult)
    ensures !l.isRendering ==> r == TickResult(l, [], Completed)
    ensures l.isRendering ==>
      && r.loop.isRendering
      && r.loop.callbacks == l.callbacks
      && r.loop.animationId == Some(l.frames.nextId)
      && r.loop.frames.pending == l.frames.pending + {l.frames.nextId}
      && (r.outcome == Completed <==> NoneThrow(failing, 0, |l.callbacks|))
      && (r.outcome == Completed ==>
            r.trace == [RequestFrame(l.frames.nextId)]
                       + Invocations(l.callbacks, 0, |l.callbacks|, delta, elapsed) + [Render])
      && (r.outcome.Threw? ==>
            && r.outcome.position < |l.callbacks| && r.outcome.position in failing
            && NoneThrow(failing, 0, r.outcome.position)
            && r.trace == [RequestFrame(l.frames.nextId)]
                          + Invocations(l.callbacks, 0, r.outcome.position + 1, delta, elapsed))
    ensures l.isRendering && l.frames.pending == {} && l.frames.Valid() ==> Inv(r.loop)
    ensures r.loop.clockStarts == l.clockStarts && r.loop.rendererDisposed == l.rendererDisposed
  {
    if !l.isRendering then TickResult(l, [], Completed)
    else
      var req := Request(l.frames);
      var l' := l.(animationId := Some(req.id), frames := req.frames);
      var run := RunCallbacks(l.callbacks, 0, delta, elapsed, failing);
      if run.1 == Completed then
        TickResult(l', [RequestFrame(req.id)] + run.0 + [Render], Completed)
      else
        TickResult(l', [RequestFrame(req.id)] + run.0, run.1)
  }

  /** `startRendering()`: a no-op while already rendering; otherwise it sets the flag,
      restarts the clock and runs one tick at once. */
  function StartRendering(l: Loop, delta: real, elapsed: real, failing: set<nat>): (r: TickResult)
    ensures l.isRendering ==> r == TickResult(l, [], Completed)
    ensures r.loop.isRendering
    ensures r.loop.callbacks == l.callbacks
    ensures !l.isRendering ==> r.loop.clockStarts == l.clockStarts + 1 && |r.trace| > 0 && r.trace[0].RequestFrame?
    ensures !l.isRendering && NoneThrow(failing, 0, |l.callbacks|) ==> |r.trace| > 0 && r.trace[|r.trace| - 1] == Render
    ensures Inv(l) ==> Inv(r.loop)
  {
    if l.isRendering then TickResult(l, [], Completed)
    else Tick(l.(isRendering := true, clockStarts := l.clockStarts + 1), delta, elapsed, failing)
  }

  /** `stopRendering()`: a no-op while stopped; otherwise it clears the flag and cancels the
      pending frame, forgetting its id. */
  function StopRendering(l: Loop): (r: Loop)
    ensures !r.isRendering
    ensures !l.isRendering ==> r == l
    ensures r.callbacks == l.callbacks && r.clockStarts == l.clockStarts
    ensures Inv(l) ==> Inv(r) && r.animationId.None? && r.frames.pending == {}
  {
    if !l.isRendering then l
    else
      var l' := l.(isRendering := false);
      if l.animationId.Some? then l'.(frames := Cancel(l.frames, l.animationId.value), animationId := None)
      else l'
  }

  /** The platform runs frame `id`: a cancelled or unknown id does nothing, a pending one is
      consumed and runs a tick. */
  function FrameFires(l: Loop, id: FrameId, delta: real, elapsed: real, failing: set<nat>): (r: TickResult)
    ensures id !in l.frames.pending ==> r == TickResult(l, [], Completed)
    ensures Inv(l) ==> Inv(r.loop)
    ensures Inv(l) && id in l.frames.pending ==>
      r.loop.isRendering && |r.trace| > 0 && r.trace[0].RequestFrame? && r.loop.animationId.value != id
    ensures Inv(l) && id in l.frames.pending && NoneThrow(failing, 0, |l.callbacks|) ==>
      r.trace == [RequestFrame(l.frames.nextId)]
                 + Invocations(l.callbacks, 0, |l.callbacks|, delta, elapsed) + [Render]
  {
    if id !in l.frames.pending then TickResult(l, [], Completed)
    else Tick(l.(frames := Fire(l.frames, id)), delta, elapsed, failing)
  }

  /** The browser events the constructor subscribes to. */
  datatype PageEvent = Hidden | Visible | Blur | Focus

  /** The listeners: a hidden page or a blurred window stops the loop, a visible page or a
      focused window starts it. */
  function HandleEvent(l: Loop, ev: PageEvent, delta: real, elapsed: real, failing: set<nat>): (r: TickResult)
    ensures ev == Hidden || ev == Blur ==> !r.loop.isRendering && r.trace == []
    ensures ev == Visible || ev == Focus ==> r.loop.isRendering
    ensures r.loop.callbacks == l.callbacks
    ensures Inv(l) ==> Inv(r.loop)
  {
    match ev
    case Hidden => TickResult(StopRendering(l), [], Completed)
    case Blur => TickResult(StopRendering(l), [], Completed)
    case Visible => StartRendering(l, delta, elapsed, failing)
    case Focus => StartRendering(l, delta, elapsed, failing)
  }

  /** `dispose()`: stops the loop and releases the renderer. The callbacks stay registered,
      and the event listeners stay subscribed because the functions handed to
      `removeEventListener` are not the ones that were added. */
  function Dispose(l: Loop): (r: Loop)
    ensures !r.isRendering && r.rendererDisposed
    ensures r.callbacks == l.callbacks
    ensures Inv(l) ==> Inv(r)
  {
    StopRendering(l).(rendererDisposed := true)
  }

  /** Starting twice is starting once: the second call finds the loop running and changes nothing. */
  lemma StartIdempotent(l: Loop, d1: real, e1: real, f1: set<nat>, d2: real, e2: real, f2: set<nat>)
    ensures StartRendering(StartRendering(l, d1, e1, f1).loop, d2, e2, f2)
         == TickResult(StartRendering(l, d1, e1, f1).loop, [], Completed)
  {}

  /** There is no disposed state: after `dispose()` a focus event restarts the loop and
      the next tick renders again. */
  lemma DisposeIsNotTerminal(l: Loop, delta: real, elapsed: real)
    requires Inv(l)
    ensures HandleEvent(Dispose(l), Focus, delta, elapsed, {}).loop.isRendering
    ensures var t := HandleEvent(Dispose(l), Focus, delta, elapsed, {}).trace;
            |t| > 0 && t[|t| - 1] == Render
  {}

  /** The platform runs the pending frame `n` times in a row; all callbacks succeed. */
  function RunFrames(l: Loop, n: nat, delta: real, elapsed: real): (r: TickResult)
    ensures Inv(l) ==> Inv(r.loop) && r.loop.isRendering == l.isRendering
    ensures r.loop.callbacks == l.callbacks
    decreases n
  {
    if n == 0 then TickResult(l, [], Completed)
    else
      var step := if l.animationId.Some? then FrameFires(l, l.animationId.value, delta, elapsed, {})
                  else TickResult(l, [], Completed);
      var rest := RunFrames(step.loop, n - 1, delta, elapsed);
      TickResult(rest.loop, step.trace + rest.trace, Completed)
  }

  /** How often `x` occurs in `s`. */
  function Occurrences<T(==)>(s: seq<T>, x: T): nat
  {
    if |s| == 0 then 0 else (if s[0] == x then 1 else 0) + Occurrences(s[1..], x)
  }

  lemma {:induction false} OccurrencesConcat<T>(a: seq<T>, b: seq<T>, x: T)
    ensures Occurrences(a + b, x) == Occurrences(a, x) + Occurrences(b, x)
  {
    if |a| > 0 {
      assert (a + b)[1..] == a[1..] + b;
      OccurrencesConcat(a[1..], b, x);
    } else {
      assert a + b == b;
    }
  }

  /** A pass over the callbacks at positions [from, to) invokes each handle as often as it
      is registered there, and never renders. */
  lemma {:induction false} InvocationsCount(cbs: seq<CallbackId>, from: nat, to: nat, delta: real, elapsed: real, cb: CallbackId)
    requires from <= to <= |cbs|
    ensures Occurrences(Invocations(cbs, from, to, delta, elapsed), Invoke(cb, delta, elapsed))
         == Occurrences(cbs[from..to], cb)
    ensures Occurrences(Invocations(cbs, from, to, delta, elapsed), Render) == 0
    decreases (to as int) - (from as int)
  {
    if from < to {
      InvocationsCount(cbs, from + 1, to, delta, elapsed, cb);
      assert Invocations(cbs, from, to, delta, elapsed)[1..] == Invocations(cbs, from + 1, to, delta, elapsed);
      assert cbs[from..to][1..] == cbs[from + 1..to];
    }
  }

  /** One frame while rendering: one render, and each handle invoked as often as it is registered. */
  lemma OneFrameCounts(l: Loop, delta: real, elapsed: real, cb: CallbackId)
    requires Inv(l) && l.isRendering
    ensures var step := FrameFires(l, l.animationId.value, delta, elapsed, {});
      && Inv(step.loop) && step.loop.isRendering && step.loop.callbacks == l.callbacks
      && Occurrences(step.trace, Render) == 1
      && Occurrences(step.trace, Invoke(cb, delta, elapsed)) == Occurrences(l.callbacks, cb)
  {
    var step := FrameFires(l, l.animationId.value, delta, elapsed, {});
    var calls := Invocations(l.callbacks, 0, |l.callbacks|, delta, elapsed);
    InvocationsCount(l.callbacks, 0, |l.callbacks|, delta, elapsed, cb);
    assert l.callbacks[0..|l.callbacks|] == l.callbacks;
    assert step.trace == [RequestFrame(l.frames.nextId)] + (calls + [Render]);
    OccurrencesConcat([RequestFrame(l.frames.nextId)], calls + [Render], Render);
    OccurrencesConcat(calls, [Render], Render);
    OccurrencesConcat([RequestFrame(l.frames.nextId)], calls + [Render], Invoke(cb, delta, elapsed));
    OccurrencesConcat(calls, [Render], Invoke(cb, delta, elapsed));
  }

  /** While rendering, `n` frames render exactly `n` times and invoke each registered
      callback exactly `n` times per registration. */
  lemma {:induction false} RunFramesWhileRendering(l: Loop, n: nat, delta: real, elapsed: real, cb: CallbackId)
    requires Inv(l) && l.isRendering
    ensures Occurrences(RunFrames(l, n, delta, elapsed).trace, Render) == n
    ensures Occurrences(RunFrames(l, n, delta, elapsed).trace, Invoke(cb, delta, elapsed))
         == n * Occurrences(l.callbacks, cb)
    decreases n
  {
    if n > 0 {
      var k: nat := n - 1;
      var step := FrameFires(l, l.animationId.value, delta, elapsed, {});
      OneFrameCounts(l, delta, elapsed, cb);
      RunFramesWhileRendering(step.loop, k, delta, elapsed, cb);
      var rest := RunFrames(step.loop, k, delta, elapsed);
      assert RunFrames(l, n, delta, elapsed).trace == step.trace + rest.trace;
      OccurrencesConcat(step.trace, rest.trace, Render);
      OccurrencesConcat(step.trace, rest.trace, Invoke(cb, delta, elapsed));
      var c := Occurrences(rest.trace, Invoke(cb, delta, elapsed));
      var m := Occurrences(l.callbacks, cb);
      assert c == k * m;
      MulSucc(n, m, c);
    }
  }

  lemma MulSucc(n: nat, m: nat, k: nat)
    requires n > 0 && k == (n - 1) * m
    ensures m + k == n * m
  {}

  /** While stopped, no number of frames does anything: no frame is pending. */
  lemma {:induction false} RunFramesWhileStopped(l: Loop, n: nat, delta: real, elapsed: real)
    requires Inv(l) && !l.isRendering
    ensures RunFrames(l, n, delta, elapsed) == TickResult(l, [], Completed)
    decreases n
  {
    if n > 0 {
      RunFramesWhileStopped(l, n - 1, delta, elapsed);
    }
  }

  /** Starting a stopped loop and letting `n` frames run renders `n + 1` times: the start
      itself ticks once, synchronously. Each registration of a callback is invoked as often. */
  lemma StartThenFrames(l: Loop, n: nat, delta: real, elapsed: real, cb: CallbackId)
    requires Inv(l) && !l.isRendering
    ensures var s := StartRendering(l, delta, elapsed, {});
      var t := s.trace + RunFrames(s.loop, n, delta, elapsed).trace;
      && Occurrences(t, Render) == n + 1
      && Occurrences(t, Invoke(cb, delta, elapsed)) == (n + 1) * Occurrences(l.callbacks, cb)
  {
    var s := StartRendering(l, delta, elapsed, {});
    var l1 := l.(isRendering := true, clockStarts := l.clockStarts + 1);
    var calls := Invocations(l.callbacks, 0, |l.callbacks|, delta, elapsed);
    var inv := Invoke(cb, delta, elapsed);
    assert s.trace == [RequestFrame(l.frames.nextId)] + (calls + [Render]);
    InvocationsCount(l.callbacks, 0, |l.callbacks|, delta, elapsed, cb);
    assert l.callbacks[0..|l.callbacks|] == l.callbacks;
    OccurrencesConcat([RequestFrame(l.frames.nextId)], calls + [Render], Render);
    OccurrencesConcat(calls, [Render], Render);
    OccurrencesConcat([RequestFrame(l.frames.nextId)], calls + [Render], inv);
    OccurrencesConcat(calls, [Render], inv);
    var rest := RunFrames(s.loop, n, delta, elapsed);
    RunFramesWhileRendering(s.loop, n, delta, elapsed, cb);
    OccurrencesConcat(s.trace, rest.trace, Render);
    OccurrencesConcat(s.trace, rest.trace, inv);
    MulSucc(n + 1, Occurrences(l.callbacks, cb), n * Occurrences(l.callbacks, cb));
  }

  /** After `stopRendering()` no number of frames invokes or renders anything. */
  lemma StopThenFrames(l: Loop, n: nat, delta: real, elapsed: real)
    requires Inv(l)
    ensures RunFrames(StopRendering(l), n, delta, elapsed).trace == []
  {
    RunFramesWhileStopped(StopRendering(l), n, delta, elapsed);
  }

  /** A callback that throws during a frame skips the render and the later callbacks, yet
      the loop keeps running: the next frame is already pending and, once nothing throws,
      renders again. */
  lemma ThrowKeepsLoopAlive(l: Loop, delta: real, elapsed: real, failing: set<nat>)
    requires Inv(l) && l.isRendering
    requires !NoneThrow(failing, 0, |l.callbacks|)
    ensures var r := FrameFires(l, l.animationId.value, delta, elapsed, failing);
      && r.outcome.Threw?
      && Occurrences(r.trace, Render) == 0
      && |r.trace| == r.outcome.position + 2 <= |l.callbacks| + 1
      && Inv(r.loop) && r.loop.isRendering
      && Occurrences(FrameFires(r.loop, r.loop.animationId.value, delta, elapsed, {}).trace, Render) == 1
  {
    var r := FrameFires(l, l.animationId.value, delta, elapsed, failing);
    var p := r.outcome.position;
    var calls := Invocations(l.callbacks, 0, p + 1, delta, elapsed);
    assert r.trace == [RequestFrame(l.frames.nextId)] + calls;
    InvocationsCount(l.callbacks, 0, p + 1, delta, elapsed, 0);
    OccurrencesConcat([RequestFrame(l.frames.nextId)], calls, Render);
    OneFrameCounts(r.loop, delta, elapsed, 0);
  }
}
