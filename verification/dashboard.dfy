/**
 The signed-in dashboard: the redirect for visitors without a session e-mail, the
 "Create Scene" and "Join Scene" flows, and the user-list string the join flow sends.
 Remote workflow calls are foreign; their replies are inputs, `JSON.parse` is a
 `Parser` parameter and JavaScript's `String(value)` conversion is a parameter too.
 */
module Dashboard {
  import opened EcmaText
  import opened Options
  import opened JsValue
  import opened RandomIds
  import LandingPage

  type User = LandingPage.User

  // ----- The session -----

  /** What the page renders. */
  datatype View = RedirectHome | Shown

  /** `if (!session?.user?.email) { router.push('/'); return null; }` */
  function Render(user: Option<User>): (v: View)
    ensures v == Shown <==> user.Some? && user.value.email.Some? && user.value.email.value != ""
  {
    if user.None? || user.value.email.None? || user.value.email.value == "" then RedirectHome else Shown
  }

  /** `session?.user?.email ?? ''` */
  function SessionEmail(user: Option<User>): (email: string)
    ensures user.Some? && user.value.email.Some? ==> email == user.value.email.value
    ensures user.None? || user.value.email.None? ==> email == ""
  {
    if user.Some? && user.value.email.Some? then user.value.email.value else ""
  }

  /** `session?.user?.name ?? session?.user?.email ?? 'unknown'`: only a missing value
      falls through; an empty name is kept. */
  function SessionName(user: Option<User>): (name: string)
    ensures user.Some? && user.value.name.Some? ==> name == user.value.name.value
    ensures user.Some? && user.value.name.None? && user.value.email.Some? ==> name == user.value.email.value
    ensures user.None? || (user.value.name.None? && user.value.email.None?) ==> name == "unknown"
  {
    if user.Some? && user.value.name.Some? then user.value.name.value
    else if user.Some? && user.value.email.Some? then user.value.email.value
    else "unknown"
  }

  /** Whenever the dashboard is shown, the e-mail its handlers send is non-empty. */
  lemma ShownHasEmail(user: Option<User>)
    requires Render(user) == Shown
    ensures SessionEmail(user) != "" && SessionEmail(user) == user.value.email.value
  {
  }

  /** The two pages send the same e-mail (`email || ''` and `email ?? ''` agree on strings). */
  lemma EmailAgreesWithLandingPage(u: User)
    ensures SessionEmail(Some(u)) == LandingPage.ContactEmail(u)
  {
  }

  /** The two pages' display names differ exactly when an empty string stops `??` but
      not `||`: an empty name, or a missing name with an empty e-mail. */
  lemma NameAgreesWithLandingPageIff(u: User)
    ensures SessionName(Some(u)) == LandingPage.DisplayName(u) <==>
              u.name != Some("") && !(u.name.None? && u.email == Some(""))
  {
  }

  // ----- Shared form state -----

  /** The state one modal's handler touches: its busy flag (`creating` or `joining`),
      its error message and whether the modal is open. */
  datatype Form = Form(busy: bool, error: Option<string>, showModal: bool)

  /** How the synchronous guard part of a handler ended. */
  datatype Start<R> = Ignored | Refused | Sent(request: R)

  /** The `finally` block and the `catch` block shared by both handlers: the busy flag is
      cleared, and an exception shows its message or, when that is empty, a fallback. */
  function Settle(f: Form, failure: Option<string>, fallback: string): (r: Form)
    requires fallback != ""
    ensures !r.busy
    ensures failure.Some? ==> r.error.Some? && r.error.value != "" && r.showModal == f.showModal
    ensures failure.Some? && failure.value != "" ==> r.error == failure
    ensures failure == Some("") ==> r.error == Some(fallback)
    ensures failure.None? ==> r.error == f.error && !r.showModal
  {
    match failure
    case Some(message) => f.(busy := false, error := Some(if message == "" then fallback else message))
    case None => f.(busy := false, showModal := false)
  }

  const ViewerRoute := "/party/1"

  // ----- createScene -----

  const PromptRequired := "Please enter a prompt"
  const CreateSceneFallback := "Failed to create scene. See console for details."

  /** The `inputs` of the dashboard's `initialize` request. */
  datatype CreateRequest = CreateRequest(name: string, email: string, prompt: string, sceneId: string)

  /** `createScene` up to its first `await`. */
  function StartCreateScene(f: Form, user: Option<User>, prompt: string, sceneBytes: RandomBlock): (r: (Form, Start<CreateRequest>))
    ensures f.busy ==> r == (f, Ignored)
    ensures !f.busy && AllSpace(prompt) ==> r == (f.(error := Some(PromptRequired)), Refused)
    ensures r.1.Sent? <==> !f.busy && !AllSpace(prompt)
    ensures r.1.Sent? ==> r.0 == f.(busy := true, error := None)
    ensures r.1.Sent? ==>
              && r.1.request == CreateRequest(SessionName(user), SessionEmail(user), prompt, r.1.request.sceneId)
              && |r.1.request.sceneId| == IdLength
              && (forall i :: 0 <= i < IdLength ==>
                    IsAsciiDigit(r.1.request.sceneId[i]) && DigitValue(r.1.request.sceneId[i]) == sceneBytes[i] % 10)
    ensures !r.1.Sent? ==> r.0.busy == f.busy
  {
    BlankIffAllSpace(prompt);
    if f.busy then (f, Ignored)
    else if IsBlank(prompt) then (f.(error := Some(PromptRequired)), Refused)
    else
      var request := CreateRequest(SessionName(user), SessionEmail(user), prompt, RandomDigits(sceneBytes));
      (f.(busy := true, error := None), Sent(request))
  }

  /** `createScene` after the request: the reply body is only logged. */
  function FinishCreateScene(f: Form, reply: LandingPage.Reply): (r: (Form, Option<string>))
    ensures !r.0.busy
    ensures reply.Delivered? <==> r.1 == Some(ViewerRoute)
    ensures reply.Threw? ==> r.0.error == Some(if reply.message == "" then CreateSceneFallback else reply.message)
    ensures reply.Threw? ==> r.0.showModal == f.showModal
    ensures reply.Delivered? ==> !r.0.showModal && r.0.error == f.error
  {
    match reply
    case Threw(message) => (Settle(f, Some(message), CreateSceneFallback), None)
    case Delivered(_) => (Settle(f, None, CreateSceneFallback), Some(ViewerRoute))
  }

  // ----- joinScene -----

  const SceneIdRequired := "Please enter a scene ID"
  const JoinSceneFallback := "Failed to join scene. See console for details."

  /** `joinScene` up to its first `await`. */
  function StartJoinScene(f: Form, sceneId: string): (r: (Form, Start<string>))
    ensures f.busy ==> r == (f, Ignored)
    ensures !f.busy && AllSpace(sceneId) ==> r == (f.(error := Some(SceneIdRequired)), Refused)
    ensures r.1.Sent? <==> !f.busy && !AllSpace(sceneId)
    ensures r.1.Sent? ==> r.0 == f.(busy := true, error := None) && r.1.request == sceneId
    ensures !r.1.Sent? ==> r.0.busy == f.busy
  {
    BlankIffAllSpace(sceneId);
    if f.busy then (f, Ignored)
    else if IsBlank(sceneId) then (f.(error := Some(SceneIdRequired)), Refused)
    else (f.(busy := true, error := None), Sent(sceneId))
  }

  /** One workflow call of the join flow: the reply text, or the message of what threw
      (the `fetch` or reading its body). */
  datatype Response = Answered(text: string) | Failed(message: string)

  /** The four replies the join flow may consume, in order. */
  datatype JoinReplies = JoinReplies(insertUser: Response, existsInScene: Response, userInScene: Response, addUser: Response)

  /** A workflow request: its `runEvent` and string `inputs`. */
  datatype Request = Request(runEvent: string, inputs: map<string, string>)

  /** The requests sent, in order, and the message of the exception that ended the flow. */
  datatype JoinRun = JoinRun(requests: seq<Request>, failure: Option<string>)

  /** `String(list)` for `list || ''`: strings stay as they are, anything else goes
      through JavaScript's conversion. */
  function ListText(list: Json, toJsString: Json -> string): string
  {
    if list.Str? then list.s else toJsString(list)
  }

  /** `finalString = list + email + ', '` with `list = ...?.list || ''`. */
  function AppendUser(list: Json, email: string, toJsString: Json -> string): (r: string)
    ensures !Truthy(list) ==> r == email + ", "
    ensures Truthy(list) ==> ListText(list, toJsString) <= r
    ensures |r| >= |email| + 2
    ensures r[..|r| - |email| - 2] == ListText(Or(list, Str("")), toJsString)
    ensures r[|r| - |email| - 2..] == email + ", "
  {
    ListText(Or(list, Str("")), toJsString) + email + ", "
  }

  /** A user list as this flow writes it: every e-mail followed by `", "`. */
  function UserList(emails: seq<string>): string
  {
    if |emails| == 0 then "" else emails[0] + ", " + UserList(emails[1..])
  }

  lemma {:induction false} UserListSnoc(emails: seq<string>, email: string)
    ensures UserList(emails + [email]) == UserList(emails) + email + ", "
    decreases |emails|
  {
    if |emails| == 0 {
      assert emails + [email] == [email];
    } else {
      assert (emails + [email])[1..] == emails[1..] + [email];
      UserListSnoc(emails[1..], email);
    }
  }

  /** Appending to a list this flow wrote gives the same list with one more entry, so
      repeated joins keep the list in its `"a, b, "` shape. */
  lemma AppendUserExtendsList(emails: seq<string>, email: string, toJsString: Json -> string)
    ensures AppendUser(Str(UserList(emails)), email, toJsString) == UserList(emails + [email])
  {
    UserListSnoc(emails, email);
  }

  /** The path of the `exists` flag and of the current list in a workflow reply. */
  function OutputPath(name: string): seq<string>
  {
    ["result", "outputs", name]
  }

  /** The flow sent `count` requests and ended with `failure`. */
  predicate Stops(run: JoinRun, count: nat, failure: Option<string>)
  {
    |run.requests| == count && run.failure == failure
  }

  /** The user was inserted and the `exists` reply arrived as JSON. */
  predicate ExistsChecked(replies: JoinReplies, parse: Parser)
  {
    replies.insertUser.Answered? && replies.existsInScene.Answered? && parse(replies.existsInScene.text).Parsed?
  }

  /** Past the `exists` check with a falsy flag, and the list reply arrived as JSON. */
  predicate ListFetched(replies: JoinReplies, parse: Parser)
  {
    && ExistsChecked(replies, parse) && !Truthy(ExistsFlag(replies, parse))
    && replies.userInScene.Answered? && parse(replies.userInScene.text).Parsed?
  }

  /** The body of `joinScene`'s `try` block: insert the user, ask whether they are in the
      scene, and only if not, fetch the scene's user list and send it back with the
      user's e-mail appended. Each step stops the flow when it throws, and so does a
      reply that is not JSON where the code parses it. */
  function RunJoin(sceneId: string, user: Option<User>, replies: JoinReplies,
                   parse: Parser, toJsString: Json -> string): (run: JoinRun)
    ensures 1 <= |run.requests| <= 4
    ensures run.requests[0] == Request("insertuser", map["name" := SessionName(user), "email" := SessionEmail(user)])
    ensures |run.requests| >= 2 ==> run.requests[1] == Request("existsinscene", map["email" := SessionEmail(user)])
    ensures |run.requests| >= 3 ==> run.requests[2] == Request("userinscene", map["scene_id" := sceneId])
    ensures |run.requests| == 4 ==>
              && run.requests[3].runEvent == "addusertoscene"
              && run.requests[3].inputs.Keys == {"scene_id", "userlist"}
              && run.requests[3].inputs["scene_id"] == sceneId
    ensures replies.insertUser.Failed? ==> Stops(run, 1, Some(replies.insertUser.message))
    ensures replies.insertUser.Answered? && replies.existsInScene.Failed? ==>
              Stops(run, 2, Some(replies.existsInScene.message))
    ensures replies.insertUser.Answered? && replies.existsInScene.Answered? && parse(replies.existsInScene.text).SyntaxError? ==>
              Stops(run, 2, Some(parse(replies.existsInScene.text).message))
    ensures ExistsChecked(replies, parse) && Truthy(ExistsFlag(replies, parse)) ==> Stops(run, 2, None)
    ensures ExistsChecked(replies, parse) && !Truthy(ExistsFlag(replies, parse)) && replies.userInScene.Failed? ==>
              Stops(run, 3, Some(replies.userInScene.message))
    ensures ExistsChecked(replies, parse) && !Truthy(ExistsFlag(replies, parse)) && replies.userInScene.Answered?
              && parse(replies.userInScene.text).SyntaxError? ==>
              Stops(run, 3, Some(parse(replies.userInScene.text).message))
    ensures ListFetched(replies, parse) && replies.addUser.Failed? ==> Stops(run, 4, Some(replies.addUser.message))
    ensures ListFetched(replies, parse) && replies.addUser.Answered? && parse(replies.addUser.text).SyntaxError? ==>
              Stops(run, 4, Some(parse(replies.addUser.text).message))
    ensures ListFetched(replies, parse) && replies.addUser.Answered? && parse(replies.addUser.text).Parsed? ==>
              Stops(run, 4, None)
  {
    var email := SessionEmail(user);
    var insert := Request("insertuser", map["name" := SessionName(user), "email" := email]);
    var existsRequest := Request("existsinscene", map["email" := email]);
    var listsRequest := Request("userinscene", map["scene_id" := sceneId]);
    match replies.insertUser
    case Failed(m) => JoinRun([insert], Some(m))
    case Answered(_) =>
      match replies.existsInScene
      case Failed(m) => JoinRun([insert, existsRequest], Some(m))
      case Answered(existsText) =>
        match parse(existsText)
        case SyntaxError(m) => JoinRun([insert, existsRequest], Some(m))
        case Parsed(existsData) =>
          if Truthy(Lookup(existsData, OutputPath("exists"))) then
            JoinRun([insert, existsRequest], None)
          else
            match replies.userInScene
            case Failed(m) => JoinRun([insert, existsRequest, listsRequest], Some(m))
            case Answered(listsText) =>
              match parse(listsText)
              case SyntaxError(m) => JoinRun([insert, existsRequest, listsRequest], Some(m))
              case Parsed(listsData) =>
                var list := Lookup(listsData, OutputPath("list"));
                var userlist := AppendUser(list, email, toJsString);
                var add := Request("addusertoscene", map["scene_id" := sceneId, "userlist" := userlist]);
                var sent := [insert, existsRequest, listsRequest, add];
                match replies.addUser
                case Failed(m) => JoinRun(sent, Some(m))
                case Answered(addText) =>
                  match parse(addText)
                  case SyntaxError(m) => JoinRun(sent, Some(m))
                  case Parsed(_) => JoinRun(sent, None)
  }

  /** Whenever the fourth request goes out, whether or not it then fails, the list fetch
      succeeded and the `userlist` it carries is the fetched list (or `''`) followed by
      the user's e-mail and `", "`. */
  lemma JoinSendsAppendedList(sceneId: string, user: Option<User>, replies: JoinReplies,
                              parse: Parser, toJsString: Json -> string)
    ensures var run := RunJoin(sceneId, user, replies, parse, toJsString);
      |run.requests| == 4 ==>
        && ListFetched(replies, parse)
        && run.requests[3].inputs["userlist"] ==
             AppendUser(Lookup(parse(replies.userInScene.text).value, OutputPath("list")), SessionEmail(user), toJsString)
  {
  }

  /** Every reply arrived and every reply the flow parses was JSON. */
  predicate AllAnswered(replies: JoinReplies, parse: Parser)
  {
    && replies.insertUser.Answered?
    && replies.existsInScene.Answered? && parse(replies.existsInScene.text).Parsed?
    && replies.userInScene.Answered? && parse(replies.userInScene.text).Parsed?
    && replies.addUser.Answered? && parse(replies.addUser.text).Parsed?
  }

  /** The `exists` flag the second reply carries. */
  function ExistsFlag(replies: JoinReplies, parse: Parser): Json
    requires replies.existsInScene.Answered? && parse(replies.existsInScene.text).Parsed?
  {
    Lookup(parse(replies.existsInScene.text).value, OutputPath("exists"))
  }

  /** The list fetch and the add-to-scene request happen only when the user is not
      already in the scene; with every reply in order they then do happen, with the
      fetched list (or `''`) followed by the user's e-mail. */
  lemma JoinAddsUserOnlyWhenAbsent(sceneId: string, user: Option<User>, replies: JoinReplies,
                                   parse: Parser, toJsString: Json -> string)
    ensures var run := RunJoin(sceneId, user, replies, parse, toJsString);
      |run.requests| >= 3 ==>
        replies.existsInScene.Answered? && parse(replies.existsInScene.text).Parsed?
        && !Truthy(ExistsFlag(replies, parse))
    ensures var run := RunJoin(sceneId, user, replies, parse, toJsString);
      AllAnswered(replies, parse) ==>
        && run.failure.None?
        && (|run.requests| == 4 <==> !Truthy(ExistsFlag(replies, parse)))
        && (|run.requests| == 2 <==> Truthy(ExistsFlag(replies, parse)))
        && (|run.requests| == 4 ==>
              run.requests[3].inputs["userlist"] ==
                AppendUser(Lookup(parse(replies.userInScene.text).value, OutputPath("list")), SessionEmail(user), toJsString))
  {
  }

  /** `joinScene` after the `try` block. */
  function FinishJoinScene(f: Form, run: JoinRun): (r: (Form, Option<string>))
    ensures !r.0.busy
    ensures run.failure.None? <==> r.1 == Some(ViewerRoute)
    ensures run.failure.Some? ==>
              r.0.error == Some(if run.failure.value == "" then JoinSceneFallback else run.failure.value)
    ensures run.failure.Some? ==> r.0.showModal == f.showModal
    ensures run.failure.None? ==> !r.0.showModal && r.0.error == f.error
  {
    (Settle(f, run.failure, JoinSceneFallback), if run.failure.None? then Some(ViewerRoute) else None)
  }
}
