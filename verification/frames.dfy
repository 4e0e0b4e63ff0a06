/** The platform's frame scheduler (`requestAnimationFrame` / `cancelAnimationFrame`),
    reduced to the set of frame requests that have not yet run or been cancelled.
    Each animated component owns its own `Scheduler` value; ids are handed out in
    increasing order and start at 1, so a stored id is never falsy. In the browser all
    components draw their ids from one counter of the document; no component cancels
    another's id, so only the concrete id values differ. */
module Frames {

  type FrameId = x: int | x >= 1 witness 1

  datatype Scheduler = Scheduler(nextId: FrameId, pending: set<FrameId>)
  {
    /** Every pending id was handed out earlier. */
    ghost predicate Valid()
    {
      forall id :: id in pending ==> id < nextId
    }
  }

  /** The scheduler before anything was requested. */
  const Idle: Scheduler := Scheduler(1, {})

  datatype Requested = Requested(frames: Scheduler, id: FrameId)

  /** `requestAnimationFrame`: a fresh id is handed out and becomes pending. */
  function Request(s: Scheduler): (r: Requested)
    ensures s.Valid() ==> r.id !in s.pending && r.frames.Valid()
    ensures r.frames.pending == s.pending + {r.id}
    ensures r.id < r.frames.nextId
  {
    Requested(Scheduler(s.nextId + 1, s.pending + {s.nextId}), s.nextId)
  }

  /** `cancelAnimationFrame`: the request no longer runs; cancelling an id that is not
      pending changes nothing. */
  function Cancel(s: Scheduler, id: FrameId): (r: Scheduler)
    ensures r.pending == s.pending - {id}
    ensures id !in s.pending ==> r == s
    ensures s.Valid() ==> r.Valid()
  {
    Scheduler(s.nextId, s.pending - {id})
  }

  /** The platform runs a pending request; from then on it is no longer pending. */
  function Fire(s: Scheduler, id: FrameId): (r: Scheduler)
    requires id in s.pending
    ensures r.pending == s.pending - {id} && |r.pending| == |s.pending| - 1
    ensures s.Valid() ==> r.Valid()
  {
    Cancel(s, id)
  }
}
