# Sceneforge client and waitlist logic in Dafny

This project models the parts of Sceneforge that carry the decisions:

- the waitlist sign-up endpoint (`POST /api/waitlist`) and its e-mail regular expression;
- the 3D scene viewer's lifecycle: loading a GLB/GLTF file, the render loop, keyboard
  camera moves, the exit modal, `cleanup` and unmounting;
- the landing page's "Create Party" flow, with its random identifiers and the lenient
  reading of the `initialize` reply;
- the dashboard's redirect, "Create Scene" and "Join Scene" flows, including the user-list
  string the join flow writes back.

Files and modules:

- `ecma_text.dfy` (`EcmaText`): the ECMAScript `\s` class, which is WhiteSpace (section
  12.2 of ECMA-262) plus LineTerminator (section 12.3), and `String.prototype.trim`.
- `options.dfy` (`Options`): the `Option` type for absent values.
- `js_value.dfy` (`JsValue`): a JSON value as JavaScript sees it. Covers truthiness, `??`,
  `||`, optional member access `?.`, and a `JSON.parse` passed in as a parameter (`Parser`).
- `waitlist.dfy` (`Waitlist`): the endpoint and the regular expression.
  - The regex's language is defined by its split points.
  - It is characterised by the shape of an accepted address.
  - It is decided by a single scanning method.
- `random_ids.dfy` (`RandomIds`): `generateRandomId` and `generateRandomDigits`, with the
  random bytes as an input.
- `landing_page.dfy` (`LandingPage`) and `dashboard.dfy` (`Dashboard`): each page's
  handlers. A handler is split at its first `await`. The synchronous guard part is one
  function. What follows the replies is another, and it takes the replies as inputs.
- `scene_viewer.dfy` (`SceneViewer`): the viewer as a state machine.
  - three.js objects and animation-frame ids are handles drawn from one counter.
  - Every scene, camera, renderer and controls creation, every release
    (`cancelAnimationFrame`, `dispose`, `scene.remove`), every model insertion, render and
    camera move, and every navigation is appended to an event log.
  - The `FileReader` completion, the decoder's callbacks and each requested frame are
    separate steps. They can interleave with anything else (`Run`).
- `viewer_proofs.dfy` (`ViewerProofs`): the viewer's properties.
  - `cleanup` releases exactly the stored frame, controls, renderer and model, and a
    second `cleanup` releases nothing.
  - An invariant holds in every reachable state.
  - Release-once: across every run, no frame is cancelled twice, and no controls, renderer
    or model is released twice.
  - The first `cleanup` detaches the file picker, so at most one file is picked and at
    most one load is in flight, and the loading and error text is never visible.
  - A decode that finishes after unmounting starts a render loop that nothing stops.

## Model

| member | source | states |
|---|---|---|
| `EcmaText.TrimStart` | app/page.tsx:31 | the result is a suffix of the input; everything removed is WhiteSpace or LineTerminator; the result does not start with one |
| `EcmaText.TrimEnd` | app/page.tsx:31 | the result is a prefix of the input; everything removed is WhiteSpace or LineTerminator; the result does not end with one |
| `EcmaText.Trim` | app/page.tsx:31 | `trim()` returns an inner slice with only space removed on both sides, and neither end of it is space |
| `EcmaText.BlankIffAllSpace` | app/page.tsx:31 | the blank-prompt test (a falsy string, or an empty `trim()`) holds exactly when every character of `s` is WhiteSpace or LineTerminator |
| `Waitlist.EmailRegexCharacterisation` | app/api/waitlist/route.ts:21 | `^[^\s@]+@[^\s@]+\.[^\s@]+$` accepts exactly the strings with no `\s` character, exactly one `@` that is not first, and a `.` after it with at least one character on each side |
| `Waitlist.TestEmail` | app/api/waitlist/route.ts:21-22 | one left-to-right scan answers true exactly when the string is in the regex's language |
| `Waitlist.AcceptedEmailIsClean` | app/api/waitlist/route.ts:21-30 | an address that passes validation contains `@` exactly once and no WhiteSpace or LineTerminator |
| `Waitlist.Post` | app/api/waitlist/route.ts:4-58 | status 500 with "Failed to join waitlist" exactly when the body is not JSON or is null; "Invalid email address" exactly when `email` is not a non-empty string; "Invalid email format" exactly when it is a non-empty string outside the regex; success (200, the message, no error) exactly when it is in the regex; every failure carries an error and no message |
| `Waitlist.EmptyEmailIsInvalidAddress` | app/api/waitlist/route.ts:10-18 | the presence check comes first: an empty `email` gets "Invalid email address", never the format error |
| `RandomIds.AlphabetLayout` | app/page.tsx:53 | the 62-character alphabet holds the upper-case letters, then the lower-case letters, then the digits, each exactly once |
| `RandomIds.RandomId` | app/page.tsx:52-57 | one character per byte, each an ASCII letter or digit, the one at alphabet position `byte % 62` |
| `RandomIds.RandomIdDeterminesResidues` | app/page.tsx:57 | two byte arrays give the same identifier exactly when they agree byte by byte modulo 62 |
| `RandomIds.RandomIdReachesEveryCharacter` | app/page.tsx:53-57 | every ASCII letter and digit can be produced, so the identifier alphabet is exactly `[A-Za-z0-9]` |
| `RandomIds.RandomDigits` | app/page.tsx:69-74 | one character per byte, each an ASCII digit whose value is `byte % 10` |
| `RandomIds.RandomDigitsDetermineResidues` | app/dashboard/page.tsx:57-62 | two byte arrays give the same digit string exactly when they agree byte by byte modulo 10 |
| `LandingPage.ContactEmail` | app/page.tsx:50 | the e-mail sent is empty exactly when the session's e-mail is missing or empty; otherwise it is that e-mail |
| `LandingPage.DisplayName` | app/page.tsx:49 | the name sent is never empty; it is the name when that is non-empty, else the e-mail when that is non-empty, else "unknown" |
| `LandingPage.StartCreateParty` | app/page.tsx:20-98 | a busy form ignores the click; sign-in is checked before the prompt; a request is sent exactly when not busy, signed in and the prompt is not blank; it then sets `creating`, clears the error, and sends the display name, the e-mail or `''`, the prompt, a 15-character user id whose characters sit at alphabet positions `userBytes[i] % 62`, and a 15-digit scene id whose digits are `sceneBytes[i] % 10` |
| `LandingPage.SignInCheckedBeforePrompt` | app/page.tsx:24-34 | signed out with a blank prompt reports the sign-in message |
| `LandingPage.InitJson` | app/page.tsx:108-115 | a missing or empty reply body gives `{}`; otherwise its parse, or `{}` when the parse fails |
| `LandingPage.SafeParse` | app/page.tsx:128-134 | a falsy value gives `undefined`; a truthy string gives its parse, or `undefined` when the parse fails; any other truthy value is returned as it is |
| `LandingPage.NormalizeKeepsPresence` | app/page.tsx:137-138 | `safeParse(v) ?? v` is nullish exactly when `v` is, leaves objects and arrays unchanged, and replaces a non-empty JSON string by its non-nullish parse |
| `LandingPage.FindId` | app/page.tsx:140-144 | never null; `undefined` for a falsy object; otherwise `undefined` exactly when all four lookups (`outputs.key`, `key`, `result.outputs.key`, `result.key`) are nullish, and else the first non-nullish one in that order |
| `LandingPage.ResolveRecordId` | app/page.tsx:146-147 | the id found in the normalised `result` wins; the normalised root is used only when that is nullish |
| `LandingPage.ResultStringIsParsed` | app/page.tsx:128-146 | a `result` delivered as a JSON string is looked through: the `sceneRecordId` inside its `outputs` is the one resolved |
| `LandingPage.FinishCreateParty` | app/page.tsx:152-164 | `creating` is always reset; a reply closes the modal and navigates to `/party/1`; an exception shows its message, or the fallback when that is empty, and does not navigate |
| `Dashboard.Render` | app/dashboard/page.tsx:25-28 | the page is shown exactly when the session has a user with a non-empty e-mail; otherwise it redirects home |
| `Dashboard.SessionEmail` | app/dashboard/page.tsx:54 | the session's e-mail when there is one, empty or not; `''` when the user or the e-mail is missing |
| `Dashboard.SessionName` | app/dashboard/page.tsx:53 | the session's name whenever it is present, even empty; else the e-mail when present; else "unknown" |
| `Dashboard.ShownHasEmail` | app/dashboard/page.tsx:25-54 | whenever the page is shown, the e-mail its handlers send (`email ?? ''`) is the session's, and it is non-empty |
| `Dashboard.EmailAgreesWithLandingPage` | app/dashboard/page.tsx:54 | the dashboard's nullish-defaulted e-mail equals the landing page's falsy-defaulted one |
| `Dashboard.NameAgreesWithLandingPageIff` | app/dashboard/page.tsx:53 | the dashboard's nullish-chained name and the landing page's falsy-chained name differ exactly for an empty name, or for a missing name with an empty e-mail |
| `Dashboard.Settle` | app/dashboard/page.tsx:106-112 | the busy flag is always cleared; an exception sets a non-empty error (its message, or the fallback for an empty one) and leaves the modal as it was; success closes the modal and keeps the error |
| `Dashboard.StartCreateScene` | app/dashboard/page.tsx:31-83 | a busy form ignores the click; a blank prompt is refused with "Please enter a prompt"; otherwise `creating` is set and the request carries the session's name and e-mail, the prompt, and 15 digits that are the bytes modulo 10 |
| `Dashboard.FinishCreateScene` | app/dashboard/page.tsx:87-112 | `creating` is reset; the viewer route is opened exactly when a reply arrived, and then the modal closes and the error is kept; an exception shows its message or the fallback and leaves the modal as it was |
| `Dashboard.StartJoinScene` | app/dashboard/page.tsx:116-126 | a busy form ignores the click; a blank scene id is refused with "Please enter a scene ID"; a join starts exactly when not busy and the id is not blank, sending the id as typed |
| `Dashboard.AppendUser` | app/dashboard/page.tsx:211-214 | the list written back is the fetched list (or `''` when that is falsy) followed by the e-mail and `", "` |
| `Dashboard.AppendUserExtendsList` | app/dashboard/page.tsx:211-214 | appending to a list in the `"a, b, "` shape gives that shape with one more entry |
| `Dashboard.RunJoin` | app/dashboard/page.tsx:128-244 | the requests go out in the fixed order `insertuser`, `existsinscene`, `userinscene`, `addusertoscene`; each carries the inputs the code gives it; the flow stops after the first step that throws or whose reply is not JSON, with that message, after one, two, three or four requests; a truthy `exists` flag ends it without error after two; with every reply present and parseable past a falsy flag it ends without error after four |
| `Dashboard.JoinAddsUserOnlyWhenAbsent` | app/dashboard/page.tsx:182-244 | the list is fetched and written back only when the `exists` flag is falsy; with every reply present and parseable, the flow succeeds with four requests exactly when the flag is falsy (two when truthy), and the list sent is the fetched list plus the user's e-mail |
| `Dashboard.JoinSendsAppendedList` | app/dashboard/page.tsx:206-236 | whenever the fourth request goes out, also in a run where it then fails, the list reply was JSON past a falsy `exists` flag, and the `userlist` sent is the fetched list (or `''`) followed by the e-mail and `", "` |
| `Dashboard.FinishJoinScene` | app/dashboard/page.tsx:246-256 | `joining` is reset; the viewer route is opened exactly when no step threw, and then the modal closes and the error is kept; a failure shows its message or the fallback and leaves the modal as it was |
| `SceneViewer.CleanupEvents` | components/SceneViewer.tsx:48-52 | every release names the stored handle of its own kind, and no kind is released twice in one `cleanup` |
| `SceneViewer.Cleanup` | components/SceneViewer.tsx:47-55 | the record becomes `{}`; the mount point is emptied, and while mounted that detaches the back button and the overlay panel for good; the cancelled frame leaves the pending frames; the log grows by exactly the releases; nothing else changes |
| `SceneViewer.HandleFile` | components/SceneViewer.tsx:91-96 | `loading` is set, the error cleared and the name recorded; the old objects are released before the read starts; one more read is pending; the frames, mount point and overlay are what `cleanup` leaves; the exit modal and everything else are unchanged |
| `SceneViewer.OnLoad` | components/SceneViewer.tsx:98-155 | with no buffer, only "Failed to read file" is set (`loading` stays set); otherwise four fresh objects are created, the renderer's canvas is appended to the mount point, a decode is pending with this load's objects, and the record holds exactly those four objects; on success nothing but the pending read and decode, the handle counter, the mount point, the record and the log changes |
| `SceneViewer.DecodeSucceeded` | components/SceneViewer.tsx:131-151 | the model is added to this load's scene; model and a fresh frame id go into whatever record is current; `loading` is cleared; one render happens and the app navigates to `/party/1`; the mount point, overlay, exit modal, scene name, error and pending reads are unchanged |
| `SceneViewer.DecodeFailed` | components/SceneViewer.tsx:140-143 | the error is "Failed to load model: " plus the message; `loading` is cleared; no object, frame or log entry changes; nothing else changes |
| `SceneViewer.AnimationFrame` | components/SceneViewer.tsx:147-151 | the frame renders with its own load's renderer, and its follow-up request replaces it and overwrites the stored frame id |
| `SceneViewer.ActionOf` | components/SceneViewer.tsx:62-84 | ArrowUp and ArrowDown, and only they, move forward and back by 0.2; ArrowLeft and ArrowRight, and only they, move left and right by 0.2; only Escape opens the exit modal; every move is one step of 0.2 |
| `SceneViewer.KeyDown` | components/SceneViewer.tsx:59-87 | with no camera stored, or once unmounted, every key (Escape included) is ignored; otherwise arrows move that camera and Escape opens the exit modal |
| `SceneViewer.DismissExit` | components/SceneViewer.tsx:196-199 | "No" hides the exit modal and changes nothing else |
| `SceneViewer.NavigateHome` | components/SceneViewer.tsx:171-178 | the back arrow (and "Yes, Exit") logs one navigation to `/` and changes nothing else |
| `SceneViewer.Unmount` | components/SceneViewer.tsx:160-162 | unmounting detaches the mount point, empties the record and releases exactly what `cleanup` would; the overlay flag, modal, flags and pending reads and decodes are unchanged, and the pending frames lose only the cancelled one |
| `ViewerProofs.CleanupReleasesExactlyStored` | components/SceneViewer.tsx:47-55 | a frame is cancelled exactly when a non-zero id is stored; controls and renderer are disposed exactly when present; the model is removed exactly when it and the scene are present; scene and camera are never released |
| `ViewerProofs.CleanupIdempotent` | components/SceneViewer.tsx:47-55 | a second `cleanup` right after one releases nothing and changes nothing |
| `ViewerProofs.CleanupPreservesValid` | components/SceneViewer.tsx:47-55 | `cleanup` keeps the lifecycle invariant (stored handles unreleased, releases distinct, the stored frame id pending) |
| `ViewerProofs.NextPreservesValid` | components/SceneViewer.tsx:47-203 | every step the component can take keeps the invariant |
| `ViewerProofs.RunPreservesValid` | components/SceneViewer.tsx:47-203 | any run of enabled steps keeps the invariant |
| `ViewerProofs.ReleasedAtMostOnce` | components/SceneViewer.tsx:47-162 | in every run from mounting, whatever the interleaving, no handle is released twice |
| `ViewerProofs.CleanupCancelsLiveFrame` | components/SceneViewer.tsx:49 | with a frame id stored, `cleanup` cancels that pending request and it no longer runs |
| `ViewerProofs.FrameRequestIsCancellable` | components/SceneViewer.tsx:147-151 | each frame's follow-up request is fresh, becomes the stored id, and is the one a following `cleanup` cancels |
| `ViewerProofs.ReleaseBeforeCreate` | components/SceneViewer.tsx:91-110 | picking a file then reading it logs all releases first and then four creations of handles never released before |
| `ViewerProofs.DecodeFailureKeepsResourcesForCleanup` | components/SceneViewer.tsx:140-154 | a failed decode requests no frame and keeps the load's objects, so the next `cleanup` disposes exactly its controls and renderer |
| `ViewerProofs.RunPicksAtMostOnce` | components/SceneViewer.tsx:53 | once the overlay is detached no run picks a file, and with it attached a run picks at most one |
| `ViewerProofs.OneFilePerViewer` | components/SceneViewer.tsx:53 | from mounting, every run picks at most one file: the first pick's `cleanup` removes the file picker from the page |
| `ViewerProofs.NextKeepsSingleLoad` | components/SceneViewer.tsx:91-162 | every step keeps at most one read, decode or frame chain outstanding, none while the overlay is attached, and nothing loading and no error while it is attached |
| `ViewerProofs.RunKeepsSingleLoad` | components/SceneViewer.tsx:91-162 | any run keeps that single-load invariant |
| `ViewerProofs.StatusTextNeverShown` | components/SceneViewer.tsx:53 | in every run from mounting, at most one load is in flight, and whenever "Loading..." or an error is set, the panel that shows them is already detached |
| `ViewerProofs.UnmountedLoopNeverStops` | components/SceneViewer.tsx:147-162 | once unmounted with a frame pending, no later step leaves the component without a pending frame |
| `ViewerProofs.DecodeAfterUnmountState` | components/SceneViewer.tsx:131-162 | picking a file, reading it, unmounting and then decoding leaves a frame pending that uses the renderer the unmount disposed, and navigates to `/party/1` |
| `ViewerProofs.DecodeAfterUnmountLeaksLoop` | components/SceneViewer.tsx:131-162 | whatever happens after that decode, a frame stays pending and the renderer it renders with has been disposed |
| `ViewerProofs.KeysTouchOnlyCameraAndModal` | components/SceneViewer.tsx:59-85 | a key creates, releases and renders nothing; it logs at most one move of the stored camera; it changes the modal flag only for Escape with a camera |
| `ViewerProofs.UnmountSilencesKeys` | components/SceneViewer.tsx:86-87 | after unmounting, no key changes anything |
| `ViewerProofs.ExitModalTransitions` | components/SceneViewer.tsx:191-203 | Escape (with a camera) shows the modal; "No" hides it; "Yes, Exit" and the back arrow navigate home; none of these releases anything |

## Behaviour of the code worth knowing

- Escape is ignored while no camera is stored: `handleKeyDown` returns before its
  `switch`.
- A successful decode navigates to `/party/1` with `router.push`.
- `cleanup` empties the mount point with `innerHTML = ''`. Inside the component that
  removes the back button and the overlay panel with the file picker, which React does
  not put back. After the first pick, no second file can be picked and the back arrow is
  gone (`OneFilePerViewer`). The "Loading..." text and both error messages are rendered
  into that detached panel, so they are never visible (`StatusTextNeverShown`).
- A read without a buffer reports "Failed to read file" and leaves `loading` set.
- A decode that finishes after unmounting still navigates. It also starts a render loop
  that uses the renderer the unmount disposed. As long as no three.js call throws, nothing
  ever cancels that loop (`DecodeAfterUnmountLeaksLoop`).

## Left out

- Network calls (`fetch`) are foreign. Their outcomes are inputs: `Reply`, `Response`,
  `JoinReplies`, and the readable-or-not request body of the endpoint.
- Console logging, the API key and the endpoint URLs are left out. They do not affect
  state.
- The `Math.random` fallback of both generators is left out. `crypto.getRandomValues`
  is assumed to succeed, and its bytes are an input.
- Strings are sequences of Unicode scalar values, while JavaScript strings are sequences
  of UTF-16 code units. A string holding a lone surrogate (such as the e-mail
  `"\ud800@a.b"`, which the route accepts) is outside the model. A surrogate pair is one
  character here and two code units there; neither is `\s`, `@` or `.`, so the regex,
  `trim` and the blank checks treat it the same either way.
- `JSON.parse` is the `Parser` parameter. JavaScript's `String(value)` on a non-string
  list is the `toJsString` parameter. JSON numbers are integers, so NaN, fractions and -0
  are not modelled.
- A thrown value is modelled by its message string. `err instanceof Error ? err.message :
  String(err)` is not distinguished further.
- Camera motion records the axis and the signed step only. Vector maths, lights, colours,
  damping and renderer sizing are not modelled.
- The mount point tracks the renderer canvases appended to it and, as one flag, whether
  the back button and overlay panel are still in it. The exit modal is assumed usable
  whenever shown, because React inserts it anew each time it opens.
- No three.js call throws. The code has no `try` around them, so the model does not
  cover three consequences of a throw:
  - a throwing `dispose` or `scene.remove` in `cleanup` skips the later releases and the
    reset to `{}`;
  - a throw in `onload` before its objects are stored (from creating the renderer, or
    from `loader.parse`) leaves the objects already created unstored, so no `cleanup`
    releases them;
  - a throw from `render` in `animate` ends the render loop.
- The decoder reports only after `onload` has stored its objects, as a separate step. A
  decoder that called back synchronously inside `parse` would add its model and frame
  id to the record that `onload` then overwrites; that order is not modelled.
- File contents, `FileReader` and the GLTF decoder are inputs. A read either has a buffer
  or not, and a decode either succeeds or fails with a message.
- React rendering (JSX), state batching and the exact time at which the ref is detached
  on unmount are left out.
- The buttons that open and close the prompt, create and join modals are JSX only.
- `components/WaitlistForm.tsx`, `lib/auth.ts`, the other components and the party page
  are not part of this model.
- `SceneViewer.CleanupEvents`: its own contract states only the structure of the
  releases. The exact release set is stated by `ViewerProofs.CleanupReleasesExactlyStored`.
- `LandingPage.FinishCreateParty`: its contract says nothing about the resolved record
  ids, which the page only logs. `LandingPage.FindId` and
  `LandingPage.ResolveRecordId` state how they are found.
