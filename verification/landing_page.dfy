/**
 The landing page's "Create Party" flow: the guards that run before any request, the
 values sent with the `initialize` request, and the lenient reading of its reply
 (`safeParse` and `findId`). The request itself is a foreign call; its outcome is an
 input (`Reply`).
 */
module LandingPage {
  import opened EcmaText
  import opened Options
  import opened JsValue
  import opened RandomIds

  /** `session.user`: `name` and `email` are each a string, or null/undefined (`None`). */
  datatype User = User(name: Option<string>, email: Option<string>)

  /** `a || b` where `a` is an optional string: `None` and `""` fall through. */
  function OrElse(a: Option<string>, b: string): string
  {
    if a.Some? && a.value != "" then a.value else b
  }

  /** `user.name || user.email || 'unknown'`: the first non-empty of the two, never empty. */
  function DisplayName(u: User): (name: string)
    ensures name != ""
    ensures name == "unknown" || (u.name.Some? && name == u.name.value) || (u.email.Some? && name == u.email.value)
    ensures u.name.Some? && u.name.value != "" ==> name == u.name.value
    ensures (u.name.None? || u.name.value == "") && u.email.Some? && u.email.value != "" ==> name == u.email.value
  {
    OrElse(u.name, OrElse(u.email, "unknown"))
  }

  /** `user.email || ''`. */
  function ContactEmail(u: User): (email: string)
    ensures email == "" <==> u.email.None? || u.email.value == ""
    ensures email != "" ==> email == u.email.value
  {
    OrElse(u.email, "")
  }

  // ----- createParty -----

  const SignInRequired := "You must be signed in to create a party"
  const PromptRequired := "Please enter a prompt"
  const CreatePartyFallback := "Failed to create party. See console for details."
  const ViewerRoute := "/party/1"

  /** The component state `createParty` touches. */
  datatype PartyForm = PartyForm(creating: bool, error: Option<string>, showPromptModal: bool)

  /** The `inputs` of the `initialize` request. */
  datatype InitRequest = InitRequest(name: string, email: string, prompt: string, userId: string, sceneId: string)

  /** How the synchronous part of `createParty` ended. */
  datatype Start = Ignored | Refused | Sent(request: InitRequest)

  /** The part of `createParty` before its first `await`: the busy check, the sign-in
      check, the prompt check, then `setCreating(true)` and the request's inputs. */
  function StartCreateParty(f: PartyForm, user: Option<User>, prompt: string,
                            userBytes: RandomBlock, sceneBytes: RandomBlock): (r: (PartyForm, Start))
    ensures f.creating ==> r == (f, Ignored)
    ensures !f.creating && user.None? ==> r == (f.(error := Some(SignInRequired)), Refused)
    ensures !f.creating && user.Some? && AllSpace(prompt) ==> r == (f.(error := Some(PromptRequired)), Refused)
    ensures r.1.Sent? <==> !f.creating && user.Some? && !AllSpace(prompt)
    ensures r.1.Sent? ==> r.0 == f.(creating := true, error := None)
    ensures r.1.Sent? ==>
              && r.1.request.name == DisplayName(user.value)
              && r.1.request.email == ContactEmail(user.value)
              && r.1.request.prompt == prompt
              && |r.1.request.userId| == IdLength
              && (forall i :: 0 <= i < IdLength ==>
                    IsAsciiAlphanumeric(r.1.request.userId[i]) && AlphabetIndex(r.1.request.userId[i]) == userBytes[i] % 62)
              && |r.1.request.sceneId| == IdLength
              && (forall i :: 0 <= i < IdLength ==>
                    IsAsciiDigit(r.1.request.sceneId[i]) && DigitValue(r.1.request.sceneId[i]) == sceneBytes[i] % 10)
    ensures !r.1.Sent? ==> r.0.creating == f.creating
  {
    BlankIffAllSpace(prompt);
    if f.creating then
      (f, Ignored)
    else if user.None? then
      (f.(error := Some(SignInRequired)), Refused)
    else if IsBlank(prompt) then
      (f.(error := Some(PromptRequired)), Refused)
    else
      var u := user.value;
      var request := InitRequest(DisplayName(u), ContactEmail(u), prompt, RandomId(userBytes), RandomDigits(sceneBytes));
      (f.(creating := true, error := None), Sent(request))
  }

  /** The sign-in check comes before the prompt check: signed out with a blank prompt
      reports the sign-in message. */
  lemma SignInCheckedBeforePrompt(f: PartyForm, prompt: string, userBytes: RandomBlock, sceneBytes: RandomBlock)
    requires !f.creating && IsBlank(prompt)
    ensures StartCreateParty(f, None, prompt, userBytes, sceneBytes).0.error == Some(SignInRequired)
  {
  }

  // ----- Reading the initialize reply -----

  /** What the `fetch` of a request produced: the body text (`None` when reading it
      failed and was caught), or the message of the exception it threw. */
  datatype Reply = Delivered(text: Option<string>) | Threw(message: string)

  /** `initText ? JSON.parse(initText) : {}`, keeping `{}` when parsing throws. */
  function InitJson(text: Option<string>, parse: Parser): (r: Json)
    ensures text.None? || text.value == "" ==> r == Obj(map[])
    ensures text.Some? && text.value != "" && parse(text.value).Parsed? ==> r == parse(text.value).value
    ensures text.Some? && text.value != "" && parse(text.value).SyntaxError? ==> r == Obj(map[])
  {
    if text.None? || text.value == "" then Obj(map[])
    else match parse(text.value)
      case Parsed(v) => v
      case SyntaxError(_) => Obj(map[])
  }

  /** `safeParse`: a falsy value gives `undefined`; a string is parsed, with a parse
      failure giving `undefined`; any other value is returned unchanged. */
  function SafeParse(v: Json, parse: Parser): (r: Json)
    ensures !Truthy(v) ==> r == Undefined
    ensures Truthy(v) && v.Str? ==> r == (if parse(v.s).Parsed? then parse(v.s).value else Undefined)
    ensures Truthy(v) && !v.Str? ==> r == v
  {
    if !Truthy(v) then Undefined
    else if v.Str? then
      match parse(v.s)
      case Parsed(w) => w
      case SyntaxError(_) => Undefined
    else v
  }

  /** `safeParse(v) ?? v`: the normalisation applied to the reply and to its `result`. */
  function Normalize(v: Json, parse: Parser): Json
  {
    Coalesce(SafeParse(v, parse), v)
  }

  /** Normalising never loses a present value nor invents one, and it leaves objects and
      arrays untouched. */
  lemma NormalizeKeepsPresence(v: Json, parse: Parser)
    ensures Nullish(Normalize(v, parse)) <==> Nullish(v)
    ensures v.Obj? || v.Arr? ==> Normalize(v, parse) == v
    ensures v.Str? && v.s != "" && parse(v.s).Parsed? && !Nullish(parse(v.s).value) ==>
              Normalize(v, parse) == parse(v.s).value
  {
  }

  /** The four places `findId` looks for `key`, in order. */
  function IdPaths(key: string): seq<seq<string>>
  {
    [["outputs", key], [key], ["result", "outputs", key], ["result", key]]
  }

  /** `findId(obj, key)`: `undefined` for a falsy `obj`; otherwise the first of the four
      lookups that is neither null nor undefined, or `undefined` when there is none. */
  function FindId(obj: Json, key: string): (r: Json)
    ensures !r.Null?
    ensures !Truthy(obj) ==> r == Undefined
    ensures Truthy(obj) ==>
              (r == Undefined <==> forall i :: 0 <= i < 4 ==> Nullish(Lookup(obj, IdPaths(key)[i])))
    ensures Truthy(obj) && r != Undefined ==>
              exists i :: 0 <= i < 4 && r == Lookup(obj, IdPaths(key)[i])
                && forall j :: 0 <= j < i ==> Nullish(Lookup(obj, IdPaths(key)[j]))
  {
    if !Truthy(obj) then Undefined
    else
      var outputs := OptMember(OptMember(obj, "outputs"), key);
      var direct := OptMember(obj, key);
      var resultOutputs := OptMember(OptMember(OptMember(obj, "result"), "outputs"), key);
      var result := OptMember(OptMember(obj, "result"), key);
      LookupPaths(obj, key);
      Coalesce(Coalesce(Coalesce(Coalesce(outputs, direct), resultOutputs), result), Undefined)
  }

  lemma LookupPaths(obj: Json, key: string)
    ensures Lookup(obj, IdPaths(key)[0]) == OptMember(OptMember(obj, "outputs"), key)
    ensures Lookup(obj, IdPaths(key)[1]) == OptMember(obj, key)
    ensures Lookup(obj, IdPaths(key)[2]) == OptMember(OptMember(OptMember(obj, "result"), "outputs"), key)
    ensures Lookup(obj, IdPaths(key)[3]) == OptMember(OptMember(obj, "result"), key)
  {
    LookupTwo(obj, "outputs", key);
    LookupOne(obj, key);
    LookupThree(obj, "result", "outputs", key);
    LookupTwo(obj, "result", key);
  }

  /** `findId(normalizedResult, key) ?? findId(normalizedRoot, key)`: the normalised
      `result` wins whenever it yields an id. */
  function ResolveRecordId(normalizedResult: Json, normalizedRoot: Json, key: string): (r: Json)
    ensures !Nullish(FindId(normalizedResult, key)) ==> r == FindId(normalizedResult, key)
    ensures Nullish(FindId(normalizedResult, key)) ==> r == FindId(normalizedRoot, key)
    ensures !r.Null?
  {
    Coalesce(FindId(normalizedResult, key), FindId(normalizedRoot, key))
  }

  /** The scene and user record ids read from a parsed `initialize` reply. */
  function ResolvedIds(initJson: Json, parse: Parser): (Json, Json)
  {
    var result := OptMember(initJson, "result");
    var normalizedResult := Normalize(result, parse);
    var normalizedRoot := Normalize(initJson, parse);
    (ResolveRecordId(normalizedResult, normalizedRoot, "sceneRecordId"),
     ResolveRecordId(normalizedResult, normalizedRoot, "userRecordId"))
  }

  /** A `result` delivered as a JSON string is looked through: the id inside its
      `outputs` is found. */
  lemma ResultStringIsParsed(text: string, id: Json, parse: Parser)
    requires text != "" && parse(text) == Parsed(Obj(map["outputs" := Obj(map["sceneRecordId" := id])]))
    requires !Nullish(id)
    ensures ResolvedIds(Obj(map["result" := Str(text)]), parse).0 == id
  {
    var result := Str(text);
    assert Normalize(result, parse) == Obj(map["outputs" := Obj(map["sceneRecordId" := id])]);
    LookupPaths(Normalize(result, parse), "sceneRecordId");
  }

  /** What `createParty` leaves behind once its request settled. */
  datatype PartyOutcome = PartyOutcome(form: PartyForm, navigateTo: Option<string>, sceneRecordId: Json, userRecordId: Json)

  /** The part of `createParty` after the request was sent: on a reply, read the ids
      (which the page only logs), close the modal and go to the viewer; on an exception,
      show its message or the fallback. `creating` is reset either way. */
  function FinishCreateParty(f: PartyForm, reply: Reply, parse: Parser): (r: PartyOutcome)
    ensures !r.form.creating
    ensures reply.Threw? ==>
              && r.form == f.(creating := false, error := Some(if reply.message == "" then CreatePartyFallback else reply.message))
              && r.navigateTo.None?
    ensures reply.Threw? ==> r.form.error.Some? && r.form.error.value != ""
    ensures reply.Delivered? ==>
              r.form == f.(creating := false, showPromptModal := false) && r.navigateTo == Some(ViewerRoute)
  {
    match reply
    case Threw(message) =>
      var shown := if message == "" then CreatePartyFallback else message;
      PartyOutcome(f.(creating := false, error := Some(shown)), None, Undefined, Undefined)
    case Delivered(text) =>
      var ids := ResolvedIds(InitJson(text, parse), parse);
      PartyOutcome(f.(creating := false, showPromptModal := false), Some(ViewerRoute), ids.0, ids.1)
  }
}
