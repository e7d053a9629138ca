/**
 The 3D scene viewer component as a state machine. three.js objects are opaque handles
 drawn from a counter; every call that creates or releases one (and every render, model
 insertion, camera move and navigation) is appended to an event log.

 The asynchronous pieces are separate steps: a `FileReader` read started by
 `handleFile` finishes later (`OnLoad`); the decoder is taken to report later
 (`DecodeSucceeded` / `DecodeFailed`), after `onload` has stored its objects; a
 requested animation frame runs later (`AnimationFrame`) unless cancelled. No three.js
 call is modelled as throwing.
 */
module SceneViewer {
  import opened Options

  /** An opaque three.js object or an animation-frame request id. */
  type Handle = nat

  datatype Kind = Renderer | Scene | Camera | Controls | Model | Frame

  /** `threeObjects.current`. */
  datatype Objects = Objects(
    renderer: Option<Handle>,
    scene: Option<Handle>,
    camera: Option<Handle>,
    controls: Option<Handle>,
    animationId: Option<Handle>,
    model: Option<Handle>)

  /** `{}` */
  const NoObjects := Objects(None, None, None, None, None, None)

  /** The handle of the given kind the record holds, if any. */
  function StoredHandle(o: Objects, kind: Kind): Option<Handle>
  {
    match kind
    case Renderer => o.renderer
    case Scene => o.scene
    case Camera => o.camera
    case Controls => o.controls
    case Model => o.model
    case Frame => o.animationId
  }

  /** The two directions a key moves the camera along. */
  datatype Axis = Forward | Right

  /** The distance one key press moves the camera. */
  const Step: real := 0.2

  datatype Event =
    | Created(kind: Kind, handle: Handle)        // `new THREE.Scene()` and friends
    | Released(kind: Kind, handle: Handle)       // `cancelAnimationFrame`, `dispose()`, `scene.remove(model)`
    | AddedModel(scene: Handle, model: Handle)   // `scene.add(model)`
    | Rendered(renderer: Handle)                 // `controls.update(); renderer.render(scene, camera)`
    | Moved(camera: Handle, axis: Axis, delta: real)
    | Navigated(path: string)                    // `router.push(path)`

  /** The objects one `onload` invocation created; its `parse` callbacks and its
      `animate` closure keep using them whatever `threeObjects.current` holds later. */
  datatype Closure = Closure(renderer: Handle, scene: Handle, camera: Handle, controls: Handle)

  datatype Viewer = Viewer(
    objects: Objects,
    mount: Option<seq<Handle>>,     // `mountRef.current` (None once unmounted) and the renderer canvases in it
    overlayAttached: bool,          // the back button and the panel with the file picker, loading and error text are still in the mount point
    loading: bool,
    error: Option<string>,
    sceneName: string,
    showExitModal: bool,
    pendingReads: nat,              // `readAsArrayBuffer` calls whose `onload` has not run
    pendingDecodes: seq<Closure>,   // `loader.parse` calls whose callback has not run
    frames: map<Handle, Closure>,   // requested animation frames, not yet run nor cancelled
    nextHandle: Handle,
    log: seq<Event>)

  const ViewerRoute := "/party/1"
  const HomeRoute := "/"
  const ReadFailed := "Failed to read file"
  const LoadFailedPrefix := "Failed to load model: "

  /** The freshly mounted component. */
  const Init := Viewer(NoObjects, Some([]), true, false, None, "", false, 0, [], map[], 1, [])

  /** While mounted, the keydown listener is registered and the buttons exist. */
  predicate Mounted(v: Viewer)
  {
    v.mount.Some?
  }

  // ----- cleanup -----

  /** The animation frame `cleanup` cancels: `if (animationId)` skips a missing or zero id. */
  function FrameToCancel(o: Objects): Option<Handle>
  {
    if o.animationId.Some? && o.animationId.value != 0 then o.animationId else None
  }

  /** The release calls `cleanup` issues for a record, in the code's order: cancel the
      frame, dispose the controls, dispose the renderer, remove the model (only when the
      scene is there too). */
  function CleanupEvents(o: Objects): (events: seq<Event>)
    ensures forall i :: 0 <= i < |events| ==> events[i].Released? && StoredHandle(o, events[i].kind) == Some(events[i].handle)
    ensures forall i, j :: 0 <= i < j < |events| ==> events[i].kind != events[j].kind
  {
    (if FrameToCancel(o).Some? then [Released(Frame, o.animationId.value)] else [])
    + (if o.controls.Some? then [Released(Controls, o.controls.value)] else [])
    + (if o.renderer.Some? then [Released(Renderer, o.renderer.value)] else [])
    + (if o.scene.Some? && o.model.Some? then [Released(Model, o.model.value)] else [])
  }

  /** `cleanup()`: release what the record holds, empty the mount point, reset the
      record to `{}`. Emptying the mount point with `innerHTML = ''` also detaches the
      React-rendered back button and overlay panel, which React does not re-insert.
      Nothing else changes. */
  function Cleanup(v: Viewer): (r: Viewer)
    ensures r.objects == NoObjects
    ensures r.mount == (if v.mount.Some? then Some([]) else None)
    ensures r.overlayAttached <==> v.overlayAttached && v.mount.None?
    ensures r.log == v.log + CleanupEvents(v.objects)
    ensures FrameToCancel(v.objects).Some? ==> r.frames == v.frames - {FrameToCancel(v.objects).value}
    ensures FrameToCancel(v.objects).None? ==> r.frames == v.frames
    ensures r == v.(objects := r.objects, mount := r.mount, overlayAttached := r.overlayAttached, frames := r.frames, log := r.log)
  {
    var o := v.objects;
    var frames := if FrameToCancel(o).Some? then v.frames - {FrameToCancel(o).value} else v.frames;
    var mount := if v.mount.Some? then Some([]) else None;
    var overlayAttached := v.overlayAttached && v.mount.None?;
    v.(objects := NoObjects, mount := mount, overlayAttached := overlayAttached, frames := frames, log := v.log + CleanupEvents(o))
  }

  // ----- Loading a file -----

  /** `handleFile(file)`: set the flags, run `cleanup`, start reading the file. */
  function HandleFile(v: Viewer, name: string): (r: Viewer)
    ensures r.loading && r.error.None? && r.sceneName == name
    ensures r.objects == NoObjects
    ensures r.log == Cleanup(v).log
    ensures forall i :: |v.log| <= i < |r.log| ==> r.log[i].Released?
    ensures r.pendingReads == v.pendingReads + 1
    ensures r.nextHandle == v.nextHandle && r.pendingDecodes == v.pendingDecodes
    ensures r.frames == Cleanup(v).frames && r.mount == Cleanup(v).mount && r.overlayAttached == Cleanup(v).overlayAttached
    ensures r == v.(objects := r.objects, mount := r.mount, overlayAttached := r.overlayAttached, loading := true,
                    error := None, sceneName := name, pendingReads := r.pendingReads, frames := r.frames, log := r.log)
  {
    Cleanup(v.(loading := true, error := None, sceneName := name)).(pendingReads := v.pendingReads + 1)
  }

  /** `reader.onload`: with no buffer, report a read failure (`loading` stays set);
      otherwise create scene, camera, renderer (its canvas goes into the mount point) and
      controls, start decoding, and store the four objects as the whole record. */
  function OnLoad(v: Viewer, hasBuffer: bool): (r: Viewer)
    requires v.pendingReads > 0
    ensures r.pendingReads == v.pendingReads - 1
    ensures !hasBuffer ==> r == v.(pendingReads := v.pendingReads - 1, error := Some(ReadFailed))
    ensures hasBuffer ==>
              && r.nextHandle == v.nextHandle + 4
              && |r.pendingDecodes| == |v.pendingDecodes| + 1
              && r.pendingDecodes[..|v.pendingDecodes|] == v.pendingDecodes
              && var c := r.pendingDecodes[|v.pendingDecodes|];
                 && {c.renderer, c.scene, c.camera, c.controls} == {v.nextHandle, v.nextHandle + 1, v.nextHandle + 2, v.nextHandle + 3}
                 && r.objects == Objects(Some(c.renderer), Some(c.scene), Some(c.camera), Some(c.controls), None, None)
                 && r.log == v.log + [Created(Scene, c.scene), Created(Camera, c.camera), Created(Renderer, c.renderer), Created(Controls, c.controls)]
                 && r.mount == (if v.mount.Some? then Some(v.mount.value + [c.renderer]) else None)
    ensures r.frames == v.frames && r.loading == v.loading && r.showExitModal == v.showExitModal
    ensures hasBuffer ==> r == v.(pendingReads := r.pendingReads, nextHandle := r.nextHandle, mount := r.mount,
                                  pendingDecodes := r.pendingDecodes, objects := r.objects, log := r.log)
  {
    if !hasBuffer then
      v.(pendingReads := v.pendingReads - 1, error := Some(ReadFailed))
    else
      var scene, camera, renderer, controls := v.nextHandle, v.nextHandle + 1, v.nextHandle + 2, v.nextHandle + 3;
      var created := [Created(Scene, scene), Created(Camera, camera), Created(Renderer, renderer), Created(Controls, controls)];
      v.(pendingReads := v.pendingReads - 1,
         nextHandle := v.nextHandle + 4,
         mount := if v.mount.Some? then Some(v.mount.value + [renderer]) else None,
         pendingDecodes := v.pendingDecodes + [Closure(renderer, scene, camera, controls)],
         objects := Objects(Some(renderer), Some(scene), Some(camera), Some(controls), None, None),
         log := v.log + created)
  }

  function RemoveAt<T>(s: seq<T>, i: nat): (r: seq<T>)
    requires i < |s|
    ensures |r| == |s| - 1
  {
    s[..i] + s[i + 1..]
  }

  /** The decoder's success callback for pending decode `i`: add the model to that load's
      scene, record it in whatever record is current, clear `loading`, run `animate`
      once (render, request a frame, record its id) and navigate to the party route. */
  function DecodeSucceeded(v: Viewer, i: nat): (r: Viewer)
    requires i < |v.pendingDecodes|
    ensures var c := v.pendingDecodes[i];
            var model, frame := v.nextHandle, v.nextHandle + 1;
            && r.objects == v.objects.(model := Some(model), animationId := Some(frame))
            && r.frames == v.frames[frame := c]
            && r.log == v.log + [AddedModel(c.scene, model), Rendered(c.renderer), Navigated(ViewerRoute)]
    ensures !r.loading && r.error == v.error
    ensures r.pendingDecodes == RemoveAt(v.pendingDecodes, i)
    ensures r.nextHandle == v.nextHandle + 2
    ensures r.mount == v.mount && r.pendingReads == v.pendingReads
    ensures r == v.(pendingDecodes := r.pendingDecodes, objects := r.objects, loading := false, frames := r.frames,
                    nextHandle := r.nextHandle, log := r.log)
  {
    var c := v.pendingDecodes[i];
    var model, frame := v.nextHandle, v.nextHandle + 1;
    v.(pendingDecodes := RemoveAt(v.pendingDecodes, i),
       objects := v.objects.(model := Some(model), animationId := Some(frame)),
       loading := false,
       frames := v.frames[frame := c],
       nextHandle := v.nextHandle + 2,
       log := v.log + [AddedModel(c.scene, model), Rendered(c.renderer), Navigated(ViewerRoute)])
  }

  /** The decoder's error callback for pending decode `i`: show the message, clear
      `loading`. No frame is requested and the stored objects stay for `cleanup`. */
  function DecodeFailed(v: Viewer, i: nat, message: string): (r: Viewer)
    requires i < |v.pendingDecodes|
    ensures r.error == Some(LoadFailedPrefix + message) && !r.loading
    ensures r.pendingDecodes == RemoveAt(v.pendingDecodes, i)
    ensures r.objects == v.objects && r.frames == v.frames && r.log == v.log && r.nextHandle == v.nextHandle
    ensures r == v.(pendingDecodes := r.pendingDecodes, error := r.error, loading := false)
  {
    v.(pendingDecodes := RemoveAt(v.pendingDecodes, i), error := Some(LoadFailedPrefix + message), loading := false)
  }

  // ----- The render loop -----

  /** One run of `animate` for requested frame `id`: render with the closure's objects,
      request the next frame and overwrite `animationId` with it. */
  function AnimationFrame(v: Viewer, id: Handle): (r: Viewer)
    requires id in v.frames
    ensures var next := v.nextHandle;
            && r.objects == v.objects.(animationId := Some(next))
            && r.frames == (v.frames - {id})[next := v.frames[id]]
            && r.log == v.log + [Rendered(v.frames[id].renderer)]
            && r.nextHandle == next + 1
    ensures r == v.(objects := r.objects, frames := r.frames, log := r.log, nextHandle := r.nextHandle)
  {
    var next := v.nextHandle;
    v.(frames := (v.frames - {id})[next := v.frames[id]],
       objects := v.objects.(animationId := Some(next)),
       nextHandle := next + 1,
       log := v.log + [Rendered(v.frames[id].renderer)])
  }

  // ----- Keyboard and exit modal -----

  /** What a key asks for when a camera is stored. */
  datatype KeyAction = Move(axis: Axis, delta: real) | OpenExitModal | NoAction

  function ActionOf(key: string): (a: KeyAction)
    ensures a == Move(Forward, Step) <==> key == "ArrowUp"
    ensures a == Move(Forward, -Step) <==> key == "ArrowDown"
    ensures a == Move(Right, -Step) <==> key == "ArrowLeft"
    ensures a == Move(Right, Step) <==> key == "ArrowRight"
    ensures a == OpenExitModal <==> key == "Escape"
    ensures a.Move? ==> a.delta == Step || a.delta == -Step
  {
    if key == "ArrowUp" then Move(Forward, Step)
    else if key == "ArrowDown" then Move(Forward, -Step)
    else if key == "ArrowLeft" then Move(Right, -Step)
    else if key == "ArrowRight" then Move(Right, Step)
    else if key == "Escape" then OpenExitModal
    else NoAction
  }

  /** A `keydown` event reaching the window: ignored once unmounted (listener removed)
      and, by `handleKeyDown` itself, whenever no camera is stored, Escape included. */
  function KeyDown(v: Viewer, key: string): (r: Viewer)
    ensures !Mounted(v) || v.objects.camera.None? ==> r == v
    ensures Mounted(v) && v.objects.camera.Some? ==>
              match ActionOf(key)
              case Move(axis, delta) => r == v.(log := v.log + [Moved(v.objects.camera.value, axis, delta)])
              case OpenExitModal => r == v.(showExitModal := true)
              case NoAction => r == v
  {
    if !Mounted(v) || v.objects.camera.None? then v
    else match ActionOf(key)
      case Move(axis, delta) => v.(log := v.log + [Moved(v.objects.camera.value, axis, delta)])
      case OpenExitModal => v.(showExitModal := true)
      case NoAction => v
  }

  /** The modal's "No" button. */
  function DismissExit(v: Viewer): (r: Viewer)
    ensures !r.showExitModal && r == v.(showExitModal := false)
  {
    v.(showExitModal := false)
  }

  /** The modal's "Yes, Exit" button and the back-arrow button: `router.push('/')`. */
  function NavigateHome(v: Viewer): (r: Viewer)
    ensures r.log == v.log + [Navigated(HomeRoute)]
    ensures r == v.(log := r.log)
  {
    v.(log := v.log + [Navigated(HomeRoute)])
  }

  /** Unmounting: the ref is detached, the keydown listener removed and `cleanup` runs. */
  function Unmount(v: Viewer): (r: Viewer)
    ensures !Mounted(r) && r.objects == NoObjects
    ensures r.log == v.log + CleanupEvents(v.objects)
    ensures r.frames == Cleanup(v).frames && r.overlayAttached == v.overlayAttached
    ensures r == v.(objects := r.objects, mount := None, frames := r.frames, log := r.log)
  {
    Cleanup(v.(mount := None))
  }

  // ----- Runs -----

  datatype StepKind =
    | SelectFile(name: string)
    | ReadDone(hasBuffer: bool)
    | Decoded(index: nat)
    | DecodeError(index: nat, message: string)
    | FrameDue(id: Handle)
    | KeyPressed(key: string)
    | ExitNo
    | ExitYes
    | BackButton
    | Unmounted

  /** Which steps can happen: the file input and the back button only while mounted and
      not yet detached by a `cleanup`; the modal's buttons while it is shown (React
      appends the modal anew, so it stays usable); callbacks need their pending request. */
  predicate Enabled(v: Viewer, s: StepKind)
  {
    match s
    case SelectFile(_) => Mounted(v) && v.overlayAttached
    case ReadDone(_) => v.pendingReads > 0
    case Decoded(i) => i < |v.pendingDecodes|
    case DecodeError(i, _) => i < |v.pendingDecodes|
    case FrameDue(id) => id in v.frames
    case KeyPressed(_) => true
    case ExitNo => Mounted(v) && v.showExitModal
    case ExitYes => Mounted(v) && v.showExitModal
    case BackButton => Mounted(v) && v.overlayAttached
    case Unmounted => Mounted(v)
  }

  function Next(v: Viewer, s: StepKind): Viewer
    requires Enabled(v, s)
  {
    match s
    case SelectFile(name) => HandleFile(v, name)
    case ReadDone(b) => OnLoad(v, b)
    case Decoded(i) => DecodeSucceeded(v, i)
    case DecodeError(i, m) => DecodeFailed(v, i, m)
    case FrameDue(id) => AnimationFrame(v, id)
    case KeyPressed(k) => KeyDown(v, k)
    case ExitNo => DismissExit(v)
    case ExitYes => NavigateHome(v)
    case BackButton => NavigateHome(v)
    case Unmounted => Unmount(v)
  }

  /** The state after a sequence of steps, or `None` if one of them could not happen. */
  function Run(v: Viewer, steps: seq<StepKind>): Option<Viewer>
    decreases |steps|
  {
    if |steps| == 0 then Some(v)
    else if !Enabled(v, steps[0]) then None
    else Run(Next(v, steps[0]), steps[1..])
  }
}
