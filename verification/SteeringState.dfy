/**
  Values and transition functions of the steering owner.

  Every function here says what one operation of the owner leaves behind, for
  every state it can be called in, including the exception paths.  The classes in
  SteeringOwner implement them step by step; SteeringRuns interleaves them.
*/
module SteeringState {
  import opened Prelude

  type Id = string

  /** Python truthiness of an optional string. */
  predicate Truthy(x: Option<string>) {
    x.Some? && x.value != ""
  }

  function OrElse(x: Option<string>, y: Option<string>): Option<string> {
    if Truthy(x) then x else y
  }

  datatype Phase = New | Creating | Active | Waiting | Complete | Halted | Reconciling

  datatype Status = Queued | Sending | Accepted | Pending | Uncertain | Applied | Rejected

  predicate Unresolved(st: Status) {
    st == Sending || st == Accepted || st == Pending || st == Uncertain
  }

  predicate Committed(st: Status) {
    st == Applied || st == Rejected
  }

  datatype Intent = Intent(
    id: Id, text: string, status: Status,
    parent: Option<Id>, steerId: Option<Id>, successor: Option<Id>, error: Option<string>)

  function NewIntent(id: Id, text: string): Intent {
    Intent(id, text, Queued, None, None, None, None)
  }

  /** `Running` stands for every status outside the four terminal ones, and for none at all. */
  datatype ResponseStatus = Completed | Incomplete | Failed | Cancelled | Running

  predicate Terminal(st: ResponseStatus) {
    !st.Running?
  }

  /** `Unreadable` lacks a member the owner reads: its type, or the id of a call or request. */
  datatype OutputItem =
    | FunctionCall(callId: Id)
    | CustomToolCall(callId: Id)
    | ApprovalRequest(requestId: Id)
    | OtherItem
    | Unreadable

  datatype Response = Response(
    id: Id, previous: Option<Id>, status: ResponseStatus, output: seq<OutputItem>,
    incompleteReason: Option<string>, error: Option<string>, session: Option<string>)

  datatype Json = Str(text: string) | Flag(value: bool) | OtherJson

  /** Which member names the call an item is about; the call id wins over the request id. */
  datatype RefBy = ByCall | ByRequest | ByNothing

  /** A saved tool output or approval decision; `fields` are its remaining members. */
  datatype Item = Item(kind: string, via: RefBy, ref: Id, fields: map<string, Json>)

  /** An approval with its explicit decision, or a tool output with its text, and no other members. */
  predicate WellShaped(item: Item) {
    if item.kind == "mcp_approval_response" then
      && item.via != ByCall && "approve" in item.fields && item.fields["approve"].Flag?
      && item.fields.Keys <= {"approve", "reason"}
    else
      && item.kind in {"function_call_output", "custom_tool_call_output"}
      && item.via != ByRequest && "output" in item.fields && item.fields["output"].Str?
      && item.fields.Keys <= {"output"}
  }

  function ResultKey(kind: string, ref: Id): string {
    kind + ":" + ref
  }

  /** The key of the input an output item asks for, if it asks for one. */
  function ItemKeys(item: OutputItem): seq<string> {
    match item
    case FunctionCall(c) => [ResultKey("function_call_output", c)]
    case CustomToolCall(c) => [ResultKey("custom_tool_call_output", c)]
    case ApprovalRequest(r) => [ResultKey("mcp_approval_response", r)]
    case _ => []
  }

  /** The keys of the inputs a terminal response still asks for, in output order. */
  function RequiredFrom(output: seq<OutputItem>): seq<string> {
    if output == [] then [] else ItemKeys(output[0]) + RequiredFrom(output[1..])
  }

  predicate Readable(output: seq<OutputItem>) {
    Unreadable !in output
  }

  /** The required inputs a pending event lists: present, and each with its type. */
  predicate Listed(required: Option<seq<Option<string>>>) {
    required.Some? && None !in required.value
  }

  function Keys(required: seq<Option<string>>): (keys: seq<string>)
    requires None !in required
    ensures |keys| == |required|
  {
    seq(|required|, k requires 0 <= k < |required| => assert required[k] in required; required[k].value)
  }

  /** A dict keyed by result key: first positions, no repetition. */
  function Dedup(keys: seq<string>): seq<string> {
    if keys == [] then []
    else
      var init := Dedup(keys[..|keys| - 1]);
      var last := keys[|keys| - 1];
      if last in init then init else init + [last]
  }

  /** The `error` member of the state; the owner's own messages are named by their cause. */
  datatype Failure =
    | ByProvider(cause: string)
    | Disconnected(reason: string)
    | NoKnownSuccessor
    | UnknownOutcome
    | StillRunning

  predicate Reported(e: Option<Failure>) {
    e.Some? && e.value != ByProvider("")
  }

  datatype CreateRecord = CreateRecord(parent: Option<Id>, intent: Option<Id>)

  datatype State = State(
    session: string, prompt: string, phase: Phase, current: Option<Id>,
    responses: map<Id, Response>, intents: seq<Intent>, required: seq<string>,
    create: Option<CreateRecord>, error: Option<Failure>)

  function InitialState(session: string, prompt: string): State {
    State(session, prompt, New, None, map[], [], [], None, None)
  }

  predicate AnyUnresolved(intents: seq<Intent>) {
    exists k :: 0 <= k < |intents| && Unresolved(intents[k].status)
  }

  /** The status of `current`; a missing current response reads as not terminal. */
  function CurrentStatus(s: State): ResponseStatus {
    if s.current.Some? && s.current.value in s.responses
    then s.responses[s.current.value].status else Running
  }

  // ---------------------------------------------------------------- requests

  datatype Request =
    | CreatePrompt(text: string)
    | CreateFollowUp(local: Id, text: string, parent: Option<Id>)
    | CreateResults(items: seq<Item>, parent: Option<Id>)
    | Steer(local: Id, text: string, parent: Option<Id>)

  /** All saved results in the order asked for, or nothing if one is missing. */
  function SavedResults(saved: map<string, Item>, keys: seq<string>): Option<seq<Item>> {
    if forall k :: 0 <= k < |keys| ==> keys[k] in saved
    then Some(seq(|keys|, i requires 0 <= i < |keys| && keys[i] in saved => saved[keys[i]]))
    else None
  }

  function FirstQueued(intents: seq<Intent>): (k: nat)
    ensures k <= |intents|
    ensures forall j :: 0 <= j < k ==> intents[j].status != Queued
    ensures k < |intents| ==> intents[k].status == Queued
  {
    if intents == [] || intents[0].status == Queued then 0
    else 1 + FirstQueued(intents[1..])
  }

  function MarkSending(s: State, k: nat): State
    requires k < |s.intents|
  {
    s.(intents := s.intents[k := s.intents[k].(status := Sending, parent := s.current)])
  }

  function StartCreate(s: State, parent: Option<Id>, intent: Option<Id>): State {
    s.(create := Some(CreateRecord(parent, intent)), phase := Creating)
  }

  /** `next_request` after its drain: the state made durable, and the request to send. */
  function Decide(s: State, saved: map<string, Item>): (State, Option<Request>) {
    if s.phase == New then
      (StartCreate(s, None, None), Some(CreatePrompt(s.prompt)))
    else if s.phase == Reconciling || s.phase == Halted || s.phase == Creating then
      (s, None)
    else if Terminal(CurrentStatus(s)) && s.required != [] then
      if exists k :: 0 <= k < |s.intents| && s.intents[k].status in {Sending, Accepted} then (s, None)
      else
        (match SavedResults(saved, s.required)
         case Some(items) => (StartCreate(s, s.current, None), Some(CreateResults(items, s.current)))
         case None => (s, None))
    else if AnyUnresolved(s.intents) then (s, None)
    else
      var k := FirstQueued(s.intents);
      if k == |s.intents| then (s, None)
      else if s.phase == Active then
        (MarkSending(s, k), Some(Steer(s.intents[k].id, s.intents[k].text, s.current)))
      else if s.phase == Complete then
        (StartCreate(MarkSending(s, k), s.current, Some(s.intents[k].id)),
         Some(CreateFollowUp(s.intents[k].id, s.intents[k].text, s.current)))
      else (s, None)
  }

  // ---------------------------------------------------------------- events

  // A member the provider may omit is an option: the cause of a failure, the list of required
  // inputs, the key of one of them (none without its type).  `Shapeless` lacks its own type,
  // its response with its id, or its steer.
  datatype SteerRef = SteerRef(id: Option<Id>, previous: Option<Id>)

  datatype Body =
    | Created(response: Response)
    | SteerAccepted(steer: SteerRef)
    | SteerPending(steer: SteerRef, required: Option<seq<Option<string>>>)
    | SteerFailed(steer: SteerRef, input: Option<string>, cause: Option<string>)
    | SteerOther(steer: SteerRef)
    | Ended(response: Response)
    | ProviderError(cause: Option<string>)
    | OtherEvent
    | Shapeless

  datatype Event = Event(lane: Option<string>, body: Body)

  /** Why an event raises: the owner's own checks, or a member missing from the payload. */
  datatype Refusal = Rejection | MissingMember

  /** `Raised` carries the in-memory state the exception leaves behind. */
  datatype Outcome = Saved(state: State) | Skipped(state: State) | Raised(state: State, refusal: Refusal := Rejection)

  /** The commit loop of `response.created`, from position k on; the flag says it raised. */
  function CommitFrom(intents: seq<Intent>, k: nat, parent: Option<Id>,
                      expected: Option<CreateRecord>, rid: Id): (seq<Intent>, bool)
    requires k <= |intents|
    decreases |intents| - k
  {
    if k == |intents| then (intents, false)
    else
      var it := intents[k];
      if Unresolved(it.status) && it.parent == parent then
        if it.status == Sending && !(expected.Some? && expected.value.intent == Some(it.id))
        then (intents, true)
        else CommitFrom(intents[k := it.(status := Applied, successor := Some(rid))],
                        k + 1, parent, expected, rid)
      else CommitFrom(intents, k + 1, parent, expected, rid)
  }

  function OnCreated(s: State, r: Response): Outcome {
    if r.id in s.responses then Skipped(s)
    else if r.previous != s.current || (s.create.Some? && r.previous != s.create.value.parent) then Raised(s)
    else if Truthy(r.previous) && !Terminal(CurrentStatus(s)) then Raised(s)
    else if s.create.None? && !AnyUnresolved(s.intents) then Raised(s)
    else
      var (intents, raised) := CommitFrom(s.intents, 0, r.previous, s.create, r.id);
      if raised then Raised(s.(intents := intents))
      else Saved(s.(intents := intents, responses := s.responses[r.id := r], current := Some(r.id),
                    phase := Active, required := [], create := None))
  }

  predicate MatchesId(i: Intent, steer: SteerRef) {
    Truthy(steer.id) && i.steerId == steer.id
  }

  predicate MatchesSending(i: Intent, steer: SteerRef) {
    i.status == Sending && i.parent == steer.previous
  }

  predicate Matches(i: Intent, steer: SteerRef, byId: bool) {
    if byId then MatchesId(i, steer) else MatchesSending(i, steer)
  }

  /** The positions below n of the intents that match. */
  function Matching(intents: seq<Intent>, n: nat, steer: SteerRef, byId: bool): (ks: seq<nat>)
    requires n <= |intents|
    ensures forall j :: 0 <= j < |ks| ==> ks[j] < n && Matches(intents[ks[j]], steer, byId)
  {
    if n == 0 then []
    else Matching(intents, n - 1, steer, byId) + if Matches(intents[n - 1], steer, byId) then [n - 1] else []
  }

  /** First by the steering id; only when that finds nothing, by the parent of what is being sent. */
  function Candidates(intents: seq<Intent>, steer: SteerRef): (ks: seq<nat>)
    ensures forall j :: 0 <= j < |ks| ==> ks[j] < |intents|
  {
    var byId := Matching(intents, |intents|, steer, true);
    if byId != [] then byId else Matching(intents, |intents|, steer, false)
  }

  function WithIntent(s: State, k: nat, i: Intent): State
    requires k < |s.intents|
  {
    s.(intents := s.intents[k := i])
  }

  function OnSteer(s: State, k: nat, body: Body): Outcome
    requires k < |s.intents|
  {
    var i := s.intents[k];
    match body
    case SteerAccepted(steer) =>
      if i.status != Sending then Saved(s)
      else if steer.id.None? then Raised(s, MissingMember)
      else Saved(WithIntent(s, k, i.(status := Accepted, steerId := steer.id)))
    case SteerPending(_, required) =>
      if i.status != Accepted && i.status != Pending then Raised(s)
      else
        var s' := WithIntent(s, k, i.(status := Pending));
        if !Listed(required) then Raised(s', MissingMember)
        else Saved(s'.(required := Dedup(Keys(required.value)), phase := Waiting))
    case SteerFailed(_, input, cause) =>
      if input.None? then Raised(s, MissingMember)
      else if input != Some(i.text) || i.status == Applied then Raised(s)
      else if cause.None? then Raised(s, MissingMember)
      else Saved(FinishIfReady(WithIntent(s, k, i.(status := Rejected, error := cause))))
    case _ => Saved(s)
  }

  function FinishIfReady(s: State): State {
    if !Terminal(CurrentStatus(s)) then s
    else
      var r := s.responses[s.current.value];
      var steered := r.incompleteReason == Some("steered");
      if r.status == Failed || r.status == Cancelled || (r.status == Incomplete && !steered) then
        s.(phase := if AnyUnresolved(s.intents) then Waiting else Halted,
           error := match OrElse(r.error, r.incompleteReason)
                    case Some(cause) => Some(ByProvider(cause))
                    case None => None)
      else if AnyUnresolved(s.intents) || s.required != [] then s.(phase := Waiting)
      else if steered then
        s.(phase := Reconciling, error := Some(NoKnownSuccessor))
      else s.(phase := Complete)
  }

  function OnEnded(s: State, r: Response): Outcome {
    if r.id !in s.responses then Raised(s)
    else
      var s' := s.(responses := s.responses[r.id := r]);
      if s.current != Some(r.id) then Saved(s')
      else if !Readable(r.output) then Raised(s', MissingMember)
      else Saved(FinishIfReady(s'.(required := RequiredFrom(r.output))))
  }

  predicate IsSteer(body: Body) {
    body.SteerAccepted? || body.SteerPending? || body.SteerFailed? || body.SteerOther?
  }

  function OnEvent(s: State, e: Event): Outcome {
    if e.body.Shapeless? then Raised(s, MissingMember)
    else if Truthy(e.lane) then Raised(s)
    else if IsSteer(e.body) then
      var ks := Candidates(s.intents, e.body.steer);
      if |ks| != 1 then Raised(s) else OnSteer(s, ks[0], e.body)
    else
      match e.body
      case Created(r) => OnCreated(s, r)
      case Ended(r) => OnEnded(s, r)
      case ProviderError(cause) =>
        if cause.None? then Raised(s, MissingMember)
        else Saved(s.(phase := Reconciling, error := Some(ByProvider(cause.value))))
      case _ => Saved(s)
  }

  // ---------------------------------------------------------------- disconnect and recovery

  function MarkUncertain(intents: seq<Intent>): (r: seq<Intent>)
    ensures |r| == |intents|
  {
    seq(|intents|, k requires 0 <= k < |intents| =>
      if Unresolved(intents[k].status) then intents[k].(status := Uncertain) else intents[k])
  }

  function OnDisconnect(s: State, reason: string): State {
    if !(s.phase == New || s.phase == Complete || s.phase == Halted) || AnyUnresolved(s.intents) then
      s.(intents := MarkUncertain(s.intents), phase := Reconciling, error := if Reported(s.error) then s.error else Some(Disconnected(reason)))
    else s
  }

  datatype HistoryItem = UserText(text: string) | ToolItem(item: Item) | OtherHistory

  function UserTexts(history: seq<HistoryItem>): seq<string> {
    if history == [] then []
    else (if history[0].UserText? then [history[0].text] else []) + UserTexts(history[1..])
  }

  function UnresolvedTexts(intents: seq<Intent>): seq<string> {
    if intents == [] then []
    else (if Unresolved(intents[0].status) then [intents[0].text] else []) + UnresolvedTexts(intents[1..])
  }

  predicate SameKey(h: HistoryItem, r: Item) {
    h.ToolItem? && h.item.kind == r.kind && ResultKey(h.item.kind, h.item.ref) == ResultKey(r.kind, r.ref)
  }

  predicate Agrees(h: HistoryItem, r: Item) {
    h.ToolItem? && (r.via != ByNothing ==> h.item.via == r.via) && forall f :: f in r.fields ==> f in h.item.fields && h.item.fields[f] == r.fields[f]
  }

  /** The history holds exactly one item with the result's key, and it carries the saved values. */
  predicate Proves(history: seq<HistoryItem>, r: Item) {
    exists k :: 0 <= k < |history| && SameKey(history[k], r) && Agrees(history[k], r)
      && forall j :: 0 <= j < |history| && SameKey(history[j], r) ==> j == k
  }

  /** What the provider answered during one recovery: responses and input histories. */
  datatype Evidence = Evidence(child: Response, parentHistory: seq<HistoryItem>, childHistory: seq<HistoryItem>)

  function ExpectedTexts(s: State): seq<string> {
    if s.create.Some? && s.current.None? then [s.prompt] else UnresolvedTexts(s.intents)
  }

  predicate HistoryProves(s: State, saved: map<string, Item>, ev: Evidence) {
    var before := if Truthy(s.current) then UserTexts(ev.parentHistory) else [];
    && (AnyUnresolved(s.intents) || s.create.Some?)
    && UserTexts(ev.childHistory) == before + ExpectedTexts(s)
    && (s.create.Some? && s.required != [] ==>
          var items := SavedResults(saved, s.required);
          items.Some? && forall i :: 0 <= i < |items.value| ==> Proves(ev.childHistory, items.value[i]))
  }

  function MarkApplied(intents: seq<Intent>, rid: Id): (r: seq<Intent>)
    ensures |r| == |intents|
  {
    seq(|intents|, k requires 0 <= k < |intents| =>
      if Unresolved(intents[k].status)
      then intents[k].(status := Applied, successor := Some(rid)) else intents[k])
  }

  /** The successor half of `reconcile`, up to its save. */
  function Adopt(s: State, saved: map<string, Item>, successor: Id, ev: Evidence): Outcome {
    if ev.child.id != successor || ev.child.previous != s.current || ev.child.session != Some(s.session) then Raised(s)
    else if !HistoryProves(s, saved, ev) then Raised(s)
    else Saved(s.(intents := MarkApplied(s.intents, successor),
                  responses := s.responses[successor := ev.child],
                  current := Some(successor), create := None))
  }

  predicate CanRefresh(responses: map<Id, Response>, latest: map<Id, Response>) {
    forall r :: r in responses && !Terminal(responses[r].status) ==> r in latest && latest[r].id == r
  }

  function Refreshed(responses: map<Id, Response>, latest: map<Id, Response>): map<Id, Response> {
    map r | r in responses ::
      if !Terminal(responses[r].status) && r in latest then latest[r] else responses[r]
  }

  /** The second half of `reconcile`: the outcome, and the value it returns. */
  function Recover(s: State, latest: map<Id, Response>): (Outcome, bool) {
    if AnyUnresolved(s.intents) || s.create.Some? then
      (Saved(s.(phase := Reconciling, error := Some(UnknownOutcome))), false)
    else if !CanRefresh(s.responses, latest) then (Raised(s), false)
    else
      var s1 := s.(responses := Refreshed(s.responses, latest));
      if !Terminal(CurrentStatus(s1)) then
        (Saved(s1.(phase := Reconciling, error := Some(StillRunning))), false)
      else if !Readable(s1.responses[s1.current.value].output) then (Raised(s1, MissingMember), false)
      else
        var s2 := FinishIfReady(
                    s1.(required := RequiredFrom(s1.responses[s1.current.value].output), phase := Waiting, error := None));
        (Saved(s2), s2.phase != Reconciling)
  }
}
