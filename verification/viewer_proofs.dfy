/**
 Properties of the scene viewer's resource lifecycle: what one `cleanup` releases, that
 a second `cleanup` releases nothing, that the frame a `cleanup` cancels is the live
 one, that a failed decode leaves its objects to a later `cleanup`, and, over every run
 of the component, that no handle is ever released twice, that at most one file is ever
 picked and at most one load is ever in flight, and that a decode finishing after
 unmount leaves a render loop nothing stops.
 */
module ViewerProofs {
  import opened Options
  import opened SceneViewer

  // ----- What one cleanup releases -----

  /** The four possible release calls of `cleanup`, each under its own condition. */
  lemma CleanupEventsMembers(o: Objects, e: Event)
    ensures e in CleanupEvents(o) <==>
              || (FrameToCancel(o).Some? && e == Released(Frame, o.animationId.value))
              || (o.controls.Some? && e == Released(Controls, o.controls.value))
              || (o.renderer.Some? && e == Released(Renderer, o.renderer.value))
              || (o.scene.Some? && o.model.Some? && e == Released(Model, o.model.value))
  {
    var a := if FrameToCancel(o).Some? then [Released(Frame, o.animationId.value)] else [];
    var b := if o.controls.Some? then [Released(Controls, o.controls.value)] else [];
    var c := if o.renderer.Some? then [Released(Renderer, o.renderer.value)] else [];
    var d := if o.scene.Some? && o.model.Some? then [Released(Model, o.model.value)] else [];
    assert CleanupEvents(o) == a + b + c + d;
  }

  /** `cleanup` releases exactly what the record holds: the frame when its id is set
      (and non-zero), the controls and the renderer when present, the model only when the
      scene is present too, and never the scene or the camera themselves. */
  lemma CleanupReleasesExactlyStored(v: Viewer, h: Handle)
    ensures var events := Cleanup(v).log[|v.log|..];
      && (Released(Frame, h) in events <==> v.objects.animationId == Some(h) && h != 0)
      && (Released(Controls, h) in events <==> v.objects.controls == Some(h))
      && (Released(Renderer, h) in events <==> v.objects.renderer == Some(h))
      && (Released(Model, h) in events <==> v.objects.scene.Some? && v.objects.model == Some(h))
      && Released(Scene, h) !in events && Released(Camera, h) !in events
      && forall e: Event :: e in events ==> e.Released?
  {
    var o := v.objects;
    assert Cleanup(v).log[|v.log|..] == CleanupEvents(o);
    CleanupEventsMembers(o, Released(Frame, h));
    CleanupEventsMembers(o, Released(Controls, h));
    CleanupEventsMembers(o, Released(Renderer, h));
    CleanupEventsMembers(o, Released(Model, h));
    CleanupEventsMembers(o, Released(Scene, h));
    CleanupEventsMembers(o, Released(Camera, h));
  }

  /** `cleanup` is idempotent: right after one call, a second call issues no cancel,
      dispose or remove call and changes nothing at all. */
  lemma CleanupIdempotent(v: Viewer)
    ensures Cleanup(Cleanup(v)).log == Cleanup(v).log
    ensures Cleanup(Cleanup(v)) == Cleanup(v)
  {
    assert CleanupEvents(NoObjects) == [];
  }

  // ----- The lifecycle invariant -----

  predicate DistinctReleases(log: seq<Event>)
  {
    forall i, j :: 0 <= i < j < |log| && log[i].Released? ==> log[i] != log[j]
  }

  /** Every handle a release names was already drawn from the counter. */
  predicate ReleasesBelow(log: seq<Event>, bound: Handle)
  {
    forall i :: 0 <= i < |log| && log[i].Released? ==> log[i].handle < bound
  }

  predicate StoredBelow(o: Objects, bound: Handle)
  {
    forall k: Kind :: StoredHandle(o, k).Some? ==> StoredHandle(o, k).value < bound
  }

  /** Nothing the record holds has been released yet. */
  predicate StoredUnreleased(o: Objects, log: seq<Event>)
  {
    forall k: Kind :: StoredHandle(o, k).Some? ==> Released(k, StoredHandle(o, k).value) !in log
  }

  predicate FramesBelow(frames: map<Handle, Closure>, bound: Handle)
  {
    forall h :: h in frames ==> h < bound
  }

  /** The invariant every reachable state keeps. */
  predicate Valid(v: Viewer)
  {
    && v.nextHandle >= 1
    && ReleasesBelow(v.log, v.nextHandle)
    && StoredBelow(v.objects, v.nextHandle)
    && StoredUnreleased(v.objects, v.log)
    && FramesBelow(v.frames, v.nextHandle)
    && DistinctReleases(v.log)
    && (v.objects.animationId.Some? ==> 1 <= v.objects.animationId.value && v.objects.animationId.value in v.frames)
  }

  lemma InitValid()
    ensures Valid(Init)
  {
  }

  /** Appending events that release nothing keeps the releases distinct and bounded. */
  lemma AppendNoReleases(log: seq<Event>, extra: seq<Event>, bound: Handle)
    requires DistinctReleases(log) && ReleasesBelow(log, bound)
    requires forall i :: 0 <= i < |extra| ==> !extra[i].Released?
    ensures DistinctReleases(log + extra) && ReleasesBelow(log + extra, bound)
    ensures forall e: Event :: e.Released? ==> (e in log + extra <==> e in log)
  {
    var all := log + extra;
    forall i, j | 0 <= i < j < |all| && all[i].Released?
      ensures all[i] != all[j]
    {
      if j >= |log| {
        assert all[j] == extra[j - |log|];
      }
    }
    forall e: Event | e.Released? && e in all
      ensures e in log
    {
      forall k | |log| <= k < |all|
        ensures all[k] != e
      {
        assert all[k] == extra[k - |log|];
      }
      var k :| 0 <= k < |all| && all[k] == e;
      assert k < |log|;
    }
  }

  lemma CleanupPreservesValid(v: Viewer)
    requires Valid(v)
    ensures Valid(Cleanup(v))
  {
    var o := v.objects;
    var events := CleanupEvents(o);
    var log := v.log + events;
    forall i | 0 <= i < |log| && log[i].Released?
      ensures log[i].handle < v.nextHandle
    {
      if i >= |v.log| {
        assert log[i] == events[i - |v.log|];
      }
    }
    forall i, j | 0 <= i < j < |log| && log[i].Released?
      ensures log[i] != log[j]
    {
      if i >= |v.log| {
        assert log[i] == events[i - |v.log|] && log[j] == events[j - |v.log|];
      } else if j >= |v.log| {
        var e := events[j - |v.log|];
        assert log[j] == e;
        assert StoredHandle(o, e.kind) == Some(e.handle);
        assert Released(e.kind, e.handle) !in v.log;
        assert log[i] in v.log;
      }
    }
  }

  /** A handle not yet drawn from the counter has never been released. */
  lemma FreshNeverReleased(log: seq<Event>, bound: Handle, k: Kind, h: Handle)
    requires ReleasesBelow(log, bound) && h >= bound
    ensures Released(k, h) !in log
  {
    forall i | 0 <= i < |log|
      ensures log[i] != Released(k, h)
    {
      if log[i].Released? {
        assert log[i].handle < bound;
      }
    }
  }

  lemma OnLoadPreservesValid(v: Viewer, hasBuffer: bool)
    requires Valid(v) && v.pendingReads > 0
    ensures Valid(OnLoad(v, hasBuffer))
  {
    if hasBuffer {
      var r := OnLoad(v, hasBuffer);
      AppendNoReleases(v.log, r.log[|v.log|..], r.nextHandle);
      assert v.log + r.log[|v.log|..] == r.log;
      forall k: Kind | StoredHandle(r.objects, k).Some?
        ensures StoredHandle(r.objects, k).value < r.nextHandle
        ensures Released(k, StoredHandle(r.objects, k).value) !in r.log
      {
        FreshNeverReleased(v.log, v.nextHandle, k, StoredHandle(r.objects, k).value);
      }
    }
  }

  lemma DecodeSucceededPreservesValid(v: Viewer, i: nat)
    requires Valid(v) && i < |v.pendingDecodes|
    ensures Valid(DecodeSucceeded(v, i))
  {
    var r := DecodeSucceeded(v, i);
    AppendNoReleases(v.log, r.log[|v.log|..], r.nextHandle);
    assert v.log + r.log[|v.log|..] == r.log;
    forall k: Kind | StoredHandle(r.objects, k).Some?
      ensures StoredHandle(r.objects, k).value < r.nextHandle
      ensures Released(k, StoredHandle(r.objects, k).value) !in r.log
    {
      var h := StoredHandle(r.objects, k).value;
      if k == Model || k == Frame {
        FreshNeverReleased(v.log, v.nextHandle, k, h);
      } else {
        assert StoredHandle(v.objects, k) == Some(h);
      }
    }
  }

  lemma AnimationFramePreservesValid(v: Viewer, id: Handle)
    requires Valid(v) && id in v.frames
    ensures Valid(AnimationFrame(v, id))
  {
    var r := AnimationFrame(v, id);
    AppendNoReleases(v.log, r.log[|v.log|..], r.nextHandle);
    assert v.log + r.log[|v.log|..] == r.log;
    forall k: Kind | StoredHandle(r.objects, k).Some?
      ensures StoredHandle(r.objects, k).value < r.nextHandle
      ensures Released(k, StoredHandle(r.objects, k).value) !in r.log
    {
      var h := StoredHandle(r.objects, k).value;
      if k == Frame {
        FreshNeverReleased(v.log, v.nextHandle, k, h);
      } else {
        assert StoredHandle(v.objects, k) == Some(h);
      }
    }
  }

  lemma KeyDownPreservesValid(v: Viewer, key: string)
    requires Valid(v)
    ensures Valid(KeyDown(v, key))
  {
    var r := KeyDown(v, key);
    AppendNoReleases(v.log, r.log[|v.log|..], r.nextHandle);
    assert v.log + r.log[|v.log|..] == r.log;
  }

  lemma NextPreservesValid(v: Viewer, s: StepKind)
    requires Valid(v) && Enabled(v, s)
    ensures Valid(Next(v, s))
  {
    match s
    case SelectFile(name) =>
      CleanupPreservesValid(v.(loading := true, error := None, sceneName := name));
    case ReadDone(b) => OnLoadPreservesValid(v, b);
    case Decoded(i) => DecodeSucceededPreservesValid(v, i);
    case DecodeError(i, m) =>
    case FrameDue(id) => AnimationFramePreservesValid(v, id);
    case KeyPressed(k) => KeyDownPreservesValid(v, k);
    case ExitNo =>
    case ExitYes =>
      AppendNoReleases(v.log, [Navigated(HomeRoute)], v.nextHandle);
    case BackButton =>
      AppendNoReleases(v.log, [Navigated(HomeRoute)], v.nextHandle);
    case Unmounted => CleanupPreservesValid(v.(mount := None));
  }

  lemma {:induction false} RunPreservesValid(v: Viewer, steps: seq<StepKind>)
    requires Valid(v) && Run(v, steps).Some?
    ensures Valid(Run(v, steps).value)
    decreases |steps|
  {
    if |steps| > 0 {
      NextPreservesValid(v, steps[0]);
      RunPreservesValid(Next(v, steps[0]), steps[1..]);
    }
  }

  /** Release-once: in every run of the component, whatever the interleaving of file
      selections, reads, decodes, frames, keys and unmounting, no frame is cancelled
      twice, no controls or renderer disposed twice and no model removed twice. */
  lemma ReleasedAtMostOnce(steps: seq<StepKind>)
    requires Run(Init, steps).Some?
    ensures DistinctReleases(Run(Init, steps).value.log)
  {
    InitValid();
    RunPreservesValid(Init, steps);
  }

  // ----- The live frame -----

  /** With a frame id stored, `cleanup` cancels exactly that request, so the chain of
      frames that last wrote the id stops. */
  lemma CleanupCancelsLiveFrame(v: Viewer)
    requires Valid(v) && v.objects.animationId.Some?
    ensures var n := v.objects.animationId.value;
      Released(Frame, n) in Cleanup(v).log[|v.log|..] && n in v.frames && n !in Cleanup(v).frames
  {
    CleanupReleasesExactlyStored(v, v.objects.animationId.value);
  }

  /** Each frame replaces the stored id with its own fresh request, which is the one a
      following `cleanup` cancels. */
  lemma FrameRequestIsCancellable(v: Viewer, id: Handle)
    requires Valid(v) && id in v.frames
    ensures var w := AnimationFrame(v, id);
      && w.objects.animationId == Some(v.nextHandle)
      && v.nextHandle !in v.frames && v.nextHandle in w.frames
      && Released(Frame, v.nextHandle) in Cleanup(w).log[|w.log|..]
      && v.nextHandle !in Cleanup(w).frames
  {
    var w := AnimationFrame(v, id);
    AnimationFramePreservesValid(v, id);
    CleanupCancelsLiveFrame(w);
  }

  // ----- Loading -----

  /** `handleFile` releases the old objects before `onload` creates any new one: in the
      log the releases come first and only then the four creations, all of fresh
      handles that were never released. */
  lemma ReleaseBeforeCreate(v: Viewer, name: string)
    requires Valid(v)
    ensures var w := OnLoad(HandleFile(v, name), true);
      var p := |v.log| + |CleanupEvents(v.objects)|;
      && |w.log| == p + 4
      && w.log[..p] == Cleanup(v).log
      && (forall i :: |v.log| <= i < p ==> w.log[i].Released?)
      && (forall i :: p <= i < |w.log| ==> w.log[i].Created? && w.log[i].handle >= v.nextHandle)
      && (forall i, j :: 0 <= i < |w.log| && p <= j < |w.log| && w.log[i].Released? ==> w.log[i].handle != w.log[j].handle)
  {
    var u := HandleFile(v, name);
    var w := OnLoad(u, true);
    CleanupPreservesValid(v.(loading := true, error := None, sceneName := name));
    assert Valid(u);
    var p := |v.log| + |CleanupEvents(v.objects)|;
    assert w.log[..p] == u.log;
    forall i, j | 0 <= i < |w.log| && p <= j < |w.log| && w.log[i].Released?
      ensures w.log[i].handle != w.log[j].handle
    {
      assert w.log[i] == u.log[i];
    }
  }

  /** A failed decode requests no frame and leaves the objects `onload` stored, so the
      next `cleanup` still disposes that load's controls and renderer, and only them. */
  lemma DecodeFailureKeepsResourcesForCleanup(v: Viewer, message: string)
    requires v.pendingReads > 0
    ensures var a := OnLoad(v, true);
      var c := a.pendingDecodes[|v.pendingDecodes|];
      var b := DecodeFailed(a, |v.pendingDecodes|, message);
      && b.frames == v.frames && b.objects == a.objects
      && b.error == Some(LoadFailedPrefix + message) && !b.loading
      && Cleanup(b).log[|b.log|..] == [Released(Controls, c.controls), Released(Renderer, c.renderer)]
  {
  }

  // ----- One file per viewer -----

  /** The number of file picks in a sequence of steps. */
  function Picks(steps: seq<StepKind>): nat
  {
    if |steps| == 0 then 0 else (if steps[0].SelectFile? then 1 else 0) + Picks(steps[1..])
  }

  /** Once detached, the overlay never comes back. */
  lemma OverlayNeverReturns(v: Viewer, s: StepKind)
    requires Enabled(v, s)
    ensures Next(v, s).overlayAttached ==> v.overlayAttached
    ensures s.SelectFile? ==> !Next(v, s).overlayAttached
  {
  }

  lemma {:induction false} RunPicksAtMostOnce(v: Viewer, steps: seq<StepKind>)
    requires Run(v, steps).Some?
    ensures Picks(steps) <= (if v.overlayAttached then 1 else 0)
    decreases |steps|
  {
    if |steps| > 0 {
      OverlayNeverReturns(v, steps[0]);
      RunPicksAtMostOnce(Next(v, steps[0]), steps[1..]);
    }
  }

  /** The code has no guard for a superseded load, but none is reachable: the first
      pick's `cleanup` detaches the file picker, so every run of the component picks at
      most one file. */
  lemma OneFilePerViewer(steps: seq<StepKind>)
    requires Run(Init, steps).Some?
    ensures Picks(steps) <= 1
  {
    RunPicksAtMostOnce(Init, steps);
  }

  /** At most one read, decode or frame chain is ever outstanding, none before the first
      pick; and before it nothing is loading and no error is set. */
  predicate SingleLoad(v: Viewer)
  {
    && v.pendingReads + |v.pendingDecodes| + |v.frames| <= (if v.overlayAttached then 0 else 1)
    && (v.overlayAttached ==> !v.loading && v.error.None?)
  }

  lemma DecodedKeepsSingleLoad(v: Viewer, i: nat)
    requires SingleLoad(v) && i < |v.pendingDecodes|
    ensures SingleLoad(DecodeSucceeded(v, i))
  {
    assert v.frames == map[] by {
      assert |v.frames| == 0;
    }
  }

  lemma FrameKeepsSingleLoad(v: Viewer, id: Handle)
    requires SingleLoad(v) && id in v.frames
    ensures SingleLoad(AnimationFrame(v, id))
  {
    var rest := v.frames - {id};
    assert rest.Keys == v.frames.Keys - {id};
    assert |v.frames.Keys| == 1;
    assert rest.Keys == {} by {
      if k :| k in rest.Keys {
        assert {k, id} <= v.frames.Keys;
        SubsetCard({k, id}, v.frames.Keys);
        assert false;
      }
    }
  }

  lemma SubsetCard<T>(a: set<T>, b: set<T>)
    requires a <= b
    ensures |a| <= |b|
  {
    assert b == a + (b - a);
  }

  lemma CleanupKeepsSingleLoad(v: Viewer)
    requires SingleLoad(v)
    ensures SingleLoad(Cleanup(v))
  {
    var r := Cleanup(v);
    SubsetCard(r.frames.Keys, v.frames.Keys);
  }

  lemma NextKeepsSingleLoad(v: Viewer, s: StepKind)
    requires SingleLoad(v) && Enabled(v, s)
    ensures SingleLoad(Next(v, s))
  {
    match s
    case Decoded(i) => DecodedKeepsSingleLoad(v, i);
    case FrameDue(id) => FrameKeepsSingleLoad(v, id);
    case SelectFile(name) =>
      var w := HandleFile(v, name);
      SubsetCard(w.frames.Keys, v.frames.Keys);
    case Unmounted => CleanupKeepsSingleLoad(v.(mount := None));
    case _ =>
  }

  lemma {:induction false} RunKeepsSingleLoad(v: Viewer, steps: seq<StepKind>)
    requires SingleLoad(v) && Run(v, steps).Some?
    ensures SingleLoad(Run(v, steps).value)
    decreases |steps|
  {
    if |steps| > 0 {
      NextKeepsSingleLoad(v, steps[0]);
      RunKeepsSingleLoad(Next(v, steps[0]), steps[1..]);
    }
  }

  /** In every run at most one read, one decode or one render loop is outstanding, and
      whenever "Loading..." or an error message is set, the panel it is rendered into
      has already been detached: neither is ever visible. */
  lemma StatusTextNeverShown(steps: seq<StepKind>)
    requires Run(Init, steps).Some?
    ensures var w := Run(Init, steps).value;
      && w.pendingReads + |w.pendingDecodes| + |w.frames| <= 1
      && (w.loading || w.error.Some? ==> !w.overlayAttached)
  {
    RunKeepsSingleLoad(Init, steps);
  }

  // ----- A decode that outlives the component -----

  lemma {:induction false} RunAppend(v: Viewer, a: seq<StepKind>, b: seq<StepKind>)
    requires Run(v, a).Some?
    ensures Run(v, a + b) == Run(Run(v, a).value, b)
    decreases |a|
  {
    if |a| > 0 {
      assert (a + b)[0] == a[0] && (a + b)[1..] == a[1..] + b;
      RunAppend(Next(v, a[0]), a[1..], b);
    } else {
      assert a + b == b;
    }
  }

  /** Unmounted with a frame pending, the render loop never stops: no step that is
      still possible runs `cleanup`, and each frame requests the next. */
  lemma {:induction false} UnmountedLoopNeverStops(v: Viewer, steps: seq<StepKind>)
    requires !Mounted(v) && v.frames != map[] && Run(v, steps).Some?
    ensures Run(v, steps).value.frames != map[]
    decreases |steps|
  {
    if |steps| > 0 {
      var w := Next(v, steps[0]);
      if steps[0].FrameDue? {
        assert v.nextHandle in w.frames;
      } else if steps[0].Decoded? {
        assert v.nextHandle + 1 in w.frames;
      } else {
        assert w.frames == v.frames;
      }
      UnmountedLoopNeverStops(w, steps[1..]);
    }
  }

  /** The first four steps of the scenario: pick, read, unmount, decode. */
  lemma DecodeAfterUnmountState(name: string)
    ensures var w := Run(Init, [SelectFile(name), ReadDone(true), Unmounted, Decoded(0)]);
      && w.Some? && !Mounted(w.value)
      && w.value.frames == map[6 := Closure(3, 1, 2, 4)]
      && Released(Renderer, 3) in w.value.log
      && Navigated(ViewerRoute) in w.value.log
  {
    var steps := [SelectFile(name), ReadDone(true), Unmounted, Decoded(0)];
    var s1 := HandleFile(Init, name);
    assert s1.nextHandle == 1 && s1.frames == map[] && s1.pendingDecodes == [] && s1.log == [];
    var s2 := OnLoad(s1, true);
    assert s2.pendingDecodes == [Closure(3, 1, 2, 4)];
    assert s2.objects.renderer == Some(3) && s2.objects.controls == Some(4) && s2.objects.animationId.None?;
    var s3 := Unmount(s2);
    assert Released(Renderer, 3) in CleanupEvents(s2.objects);
    assert Released(Renderer, 3) in s3.log;
    assert s3.pendingDecodes == [Closure(3, 1, 2, 4)] && s3.nextHandle == 5 && s3.frames == map[];
    var s4 := DecodeSucceeded(s3, 0);
    assert s4.log[|s3.log| + 2] == Navigated(ViewerRoute);
    assert Run(s4, steps[4..]) == Some(s4);
    assert Run(s3, steps[3..]) == Some(s4);
    assert Run(s2, steps[2..]) == Some(s4);
    assert Run(s1, steps[1..]) == Some(s4);
  }

  /** A decode that finishes after unmounting still navigates, and starts a render loop
      that uses the renderer the unmount disposed and that nothing ever cancels. */
  lemma DecodeAfterUnmountLeaksLoop(name: string, later: seq<StepKind>)
    requires Run(Init, [SelectFile(name), ReadDone(true), Unmounted, Decoded(0)] + later).Some?
    ensures var w := Run(Init, [SelectFile(name), ReadDone(true), Unmounted, Decoded(0)] + later).value;
      && w.frames != map[]
      && Released(Renderer, 3) in w.log
  {
    var first := [SelectFile(name), ReadDone(true), Unmounted, Decoded(0)];
    DecodeAfterUnmountState(name);
    RunAppend(Init, first, later);
    var w := Run(Init, first).value;
    assert 6 in w.frames;
    UnmountedLoopNeverStops(w, later);
    LogOnlyGrows(w, later);
  }

  lemma {:induction false} LogOnlyGrows(v: Viewer, steps: seq<StepKind>)
    requires Run(v, steps).Some?
    ensures v.log <= Run(v, steps).value.log
    decreases |steps|
  {
    if |steps| > 0 {
      LogOnlyGrows(Next(v, steps[0]), steps[1..]);
    }
  }

  // ----- Keyboard and exit modal -----

  /** Keys never create, release or render anything, and touch no state but the log's
      camera moves and the exit-modal flag. */
  lemma KeysTouchOnlyCameraAndModal(v: Viewer, key: string)
    ensures var r := KeyDown(v, key);
      && r.objects == v.objects && r.frames == v.frames && r.nextHandle == v.nextHandle
      && r.loading == v.loading && r.error == v.error
      && |r.log| <= |v.log| + 1 && r.log[..|v.log|] == v.log
      && (|r.log| > |v.log| ==> r.log[|v.log|].Moved? && Some(r.log[|v.log|].camera) == v.objects.camera)
      && (r.showExitModal != v.showExitModal ==> key == "Escape" && v.objects.camera.Some?)
  {
  }

  /** After unmounting the listener is gone: no key changes anything. Unmounting released
      everything `cleanup` would. */
  lemma UnmountSilencesKeys(v: Viewer, key: string)
    ensures KeyDown(Unmount(v), key) == Unmount(v)
    ensures Unmount(v).log == Cleanup(v).log && Unmount(v).objects == NoObjects
  {
  }

  /** The exit modal: Escape with a camera shows it, "No" hides it, "Yes, Exit" (like the
      back arrow) navigates home; none of these release anything. */
  lemma ExitModalTransitions(v: Viewer)
    requires Mounted(v) && v.objects.camera.Some?
    ensures KeyDown(v, "Escape").showExitModal
    ensures !DismissExit(KeyDown(v, "Escape")).showExitModal
    ensures NavigateHome(v).log == v.log + [Navigated(HomeRoute)] && NavigateHome(v).objects == v.objects
    ensures DismissExit(v).log == v.log && DismissExit(v).objects == v.objects
  {
  }
}
