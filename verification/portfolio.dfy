/** The portfolio section: the project table, the modal that shows one project, and the
    modal's 3D preview, whose frame loop runs only while the four module-level references
    (scene, camera, renderer, shape) are all set. The preview's shape is reduced to the
    colour it is drawn in; the rotation angles depend on the clock and are not modelled. */
module Portfolio {
  import opened Wrappers
  import opened Frames

  /** A showcased project: the fields this model uses. The modal also shows the description
      and the tags, which are not modelled. */
  datatype Project = Project(id: string, title: string, color: int)

  const Projects: seq<Project> := [
    Project("fintech-platform", "FinTech Platform", 0x4F46E5),
    Project("ecommerce-solution", "E-Commerce Solution", 0xEC4899),
    Project("healthcare-app", "Healthcare App", 0x10B981),
    Project("iot-dashboard", "IoT Dashboard", 0xF59E0B),
    Project("social-platform", "Social Platform", 0x06B6D4),
    Project("logistics-system", "Logistics System", 0x8B5CF6)
  ]

  predicate DistinctIds(ps: seq<Project>)
  {
    forall i, j :: 0 <= i < j < |ps| ==> ps[i].id != ps[j].id
  }

  /** No two projects share an id (their first letters already differ). */
  lemma ProjectIdsDistinct()
    ensures DistinctIds(Projects)
  {
    forall i, j | 0 <= i < j < |Projects| ensures Projects[i].id != Projects[j].id {
      assert Projects[i].id[0] != Projects[j].id[0];
    }
  }

  /** `portfolioData.find(p => p.id === projectId)`: the first project with that id. */
  function Find(ps: seq<Project>, id: string): (r: Option<Project>)
    ensures r.Some? <==> exists i :: 0 <= i < |ps| && ps[i].id == id
    ensures r.Some? ==> exists i :: (0 <= i < |ps| && ps[i] == r.value && r.value.id == id
      && forall j :: 0 <= j < i ==> ps[j].id != id)
  {
    if |ps| == 0 then None
    else if ps[0].id == id then Some(ps[0])
    else
      var r := Find(ps[1..], id);
      assert forall i :: 1 <= i < |ps| ==> ps[i] == ps[1..][i - 1];
      if r.Some? then
        ghost var i :| 0 <= i < |ps[1..]| && ps[1..][i] == r.value && r.value.id == id
          && forall j :: 0 <= j < i ==> ps[1..][j].id != id;
        assert forall j :: 1 <= j < i + 1 ==> ps[j] == ps[1..][j - 1];
        assert ps[i + 1] == r.value;
        r
      else r
  }

  /** With distinct ids every project is found by its own id, so the lookup is unambiguous. */
  lemma {:induction false} FindEach(ps: seq<Project>, i: int)
    requires DistinctIds(ps) && 0 <= i < |ps|
    ensures Find(ps, ps[i].id) == Some(ps[i])
  {
    var r := Find(ps, ps[i].id);
    var k :| 0 <= k < |ps| && ps[k] == r.value && r.value.id == ps[i].id
      && forall j :: 0 <= j < k ==> ps[j].id != ps[i].id;
  }

  /** The preview's module-level state: which of the four references are set (the shape
      by the colour it is drawn in), the stored frame id, the frame scheduler, and how
      many frames have been rendered. */
  datatype Preview = Preview(
    scene: bool, camera: bool, renderer: bool, shape: Option<int>,
    animationId: Option<FrameId>,
    frames: Scheduler,
    renders: nat)

  /** Nothing built, nothing pending. */
  const Empty: Preview := Preview(false, false, false, None, None, Idle, 0)

  /** The guard of `animate3DPreview`: all four references set. */
  predicate Ready(p: Preview)
  {
    p.scene && p.camera && p.renderer && p.shape.Some?
  }

  /** `animate3DPreview`: without all four references it returns at once; otherwise it
      requests the next frame, stores its id and renders once. */
  function Animate(p: Preview): (r: Preview)
    ensures !Ready(p) ==> r == p
    ensures Ready(p) ==>
      && r.animationId == Some(p.frames.nextId)
      && r.frames.pending == p.frames.pending + {p.frames.nextId}
      && r.renders == p.renders + 1
      && r.(animationId := p.animationId, frames := p.frames, renders := p.renders) == p
  {
    if !Ready(p) then p
    else
      var req := Request(p.frames);
      p.(animationId := Some(req.id), frames := req.frames, renders := p.renders + 1)
  }

  /** `init3DPreview(project)`: without the preview container nothing happens. Otherwise the
      four references are overwritten, the first frame is animated at once, and nothing
      earlier is cancelled: a frame that was pending stays pending. */
  function Init(p: Preview, project: Project, containerPresent: bool): (r: Preview)
    ensures !containerPresent ==> r == p
    ensures containerPresent ==>
      && Ready(r) && r.shape == Some(project.color)
      && r.renders == p.renders + 1
      && r.animationId == Some(p.frames.nextId)
      && r.frames.pending == p.frames.pending + {p.frames.nextId}
  {
    if !containerPresent then p
    else Animate(p.(scene := true, camera := true, renderer := true, shape := Some(project.color)))
  }

  /** The platform runs frame `id`: only a pending frame does anything. */
  function FrameFires(p: Preview, id: FrameId): (r: Preview)
    ensures id !in p.frames.pending ==> r == p
    ensures id in p.frames.pending && !Ready(p) ==> r == p.(frames := Fire(p.frames, id))
    ensures id in p.frames.pending && Ready(p) ==> r.renders == p.renders + 1
  {
    if id !in p.frames.pending then p else Animate(p.(frames := Fire(p.frames, id)))
  }

  /** `dispose3DPreview`: a stored (truthy) frame id is cancelled and cleared, and all four
      references are cleared whatever state the preview was in. */
  function Dispose(p: Preview): (r: Preview)
    ensures !r.scene && !r.camera && !r.renderer && r.shape.None? && !Ready(r)
    ensures r.animationId.None?
    ensures p.animationId.Some? ==> r.frames.pending == p.frames.pending - {p.animationId.value}
    ensures p.animationId.None? ==> r.frames == p.frames
    ensures r.renders == p.renders
  {
    var frames := if p.animationId.Some? then Cancel(p.frames, p.animationId.value) else p.frames;
    Preview(false, false, false, None, None, frames, p.renders)
  }

  /** Frames `ids` fired in order. */
  function FireAll(p: Preview, ids: seq<FrameId>): (r: Preview)
    decreases |ids|
  {
    if |ids| == 0 then p else FireAll(FrameFires(p, ids[0]), ids[1..])
  }

  /** A preview missing a reference never renders again and never requests a frame,
      whatever frames still fire: the frames left over run into the guard. */
  lemma {:induction false} NotReadyStaysIdle(p: Preview, ids: seq<FrameId>)
    requires !Ready(p)
    ensures FireAll(p, ids).renders == p.renders
    ensures FireAll(p, ids).frames.pending <= p.frames.pending
    ensures !Ready(FireAll(p, ids))
    decreases |ids|
  {
    if |ids| > 0 {
      NotReadyStaysIdle(FrameFires(p, ids[0]), ids[1..]);
    }
  }

  /** After `dispose3DPreview` the preview loop has stopped for good, even when a second
      chain is still pending. */
  lemma DisposeStopsTheLoop(p: Preview, ids: seq<FrameId>)
    ensures FireAll(Dispose(p), ids).renders == p.renders
    ensures FireAll(Dispose(p), ids).frames.pending <= Dispose(p).frames.pending
  {
    NotReadyStaysIdle(Dispose(p), ids);
  }

  /** `init3DPreview` run twice without a dispose in between leaves two frame chains
      pending, each of which renders when it fires, and `dispose` cancels only the one
      whose id was kept. */
  lemma InitTwiceLeavesTwoChains(a: Project, b: Project)
    ensures var p := Init(Init(Empty, a, true), b, true);
      && p.frames.pending == {1, 2}
      && FrameFires(p, 1).renders == p.renders + 1
      && FrameFires(FrameFires(p, 1), 2).renders == p.renders + 2
      && FrameFires(FrameFires(p, 1), 2).frames.pending == {3, 4}
      && Dispose(p).frames.pending == {1}
  {
    var p := Init(Init(Empty, a, true), b, true);
    assert p.frames.nextId == 3;
    var q := FrameFires(p, 1);
    assert q.frames.pending == {2, 3};
  }

  /** The modal: whether it is hidden, the project its text shows, whether page scrolling
      is locked, and the preview. */
  datatype Modal = Modal(hidden: bool, shown: Option<Project>, scrollLocked: bool, preview: Preview)

  /** `openModal(projectId)`: an id that is not in the table does nothing; otherwise the
      modal shows the project, is unhidden, locks scrolling and starts the preview. */
  function OpenModal(m: Modal, projectId: string, containerPresent: bool): (r: Modal)
    ensures Find(Projects, projectId).None? ==> r == m
    ensures Find(Projects, projectId).Some? ==>
      && !r.hidden && r.scrollLocked
      && r.shown == Find(Projects, projectId) && r.shown.value.id == projectId
      && r.preview == Init(m.preview, r.shown.value, containerPresent)
  {
    match Find(Projects, projectId)
    case None => m
    case Some(project) =>
      Modal(false, Some(project), true, Init(m.preview, project, containerPresent))
  }

  /** `closeModal`: hidden, scrolling unlocked, preview disposed; the text stays. */
  function CloseModal(m: Modal): (r: Modal)
    ensures r.hidden && !r.scrollLocked && r.shown == m.shown
    ensures !Ready(r.preview) && r.preview.animationId.None?
  {
    Modal(true, m.shown, false, Dispose(m.preview))
  }

  /** The document's keydown listener: Escape closes the modal only while it is shown;
      every other key, and Escape on a hidden modal, does nothing. */
  function DocumentKey(m: Modal, key: string): (r: Modal)
    ensures r != m ==> key == "Escape" && !m.hidden
    ensures key == "Escape" && !m.hidden ==> r == CloseModal(m)
  {
    if key == "Escape" && !m.hidden then CloseModal(m) else m
  }

  /** A tile's keydown listener: Enter or Space opens its project. */
  function TileKey(m: Modal, projectId: string, key: string, containerPresent: bool): (r: Modal)
    ensures key != "Enter" && key != " " ==> r == m
    ensures key == "Enter" || key == " " ==> r == OpenModal(m, projectId, containerPresent)
  {
    if key == "Enter" || key == " " then OpenModal(m, projectId, containerPresent) else m
  }

  /** Every tile opens its own project: the id each tile carries is found and shown. */
  lemma EveryTileOpensItsProject(m: Modal, i: int, containerPresent: bool)
    requires 0 <= i < |Projects|
    ensures OpenModal(m, Projects[i].id, containerPresent).shown == Some(Projects[i])
    ensures !OpenModal(m, Projects[i].id, containerPresent).hidden
  {
    ProjectIdsDistinct();
    FindEach(Projects, i);
  }

  /** Pressing Escape twice is pressing it once: the second press finds the modal hidden. */
  lemma EscapeIdempotent(m: Modal)
    ensures DocumentKey(DocumentKey(m, "Escape"), "Escape") == DocumentKey(m, "Escape")
  {}

  /** The pulse `1 + sin(2t)·0.05` of the preview shape, with the sine passed in. */
  function PulseScale(sine: real): (s: real)
    requires -1.0 <= sine <= 1.0
    ensures 0.95 <= s <= 1.05
    ensures s > 1.0 <==> sine > 0.0
    ensures (s - 1.0) / 0.05 == sine
  {
    1.0 + sine * 0.05
  }
}
