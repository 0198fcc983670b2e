/**
  What single operations of the owner mean, spelled out position by position, and that
  every request it sends can be answered.
*/
module SteeringMeaning {
  import opened Prelude
  import opened Positions
  import opened SteeringState
  import opened SteeringInvariants
  import opened SteeringRuns

  // ---------------------------------------------------------------- required inputs

  /** Which output items ask for an input. */
  function Asking(output: seq<OutputItem>): (f: seq<bool>)
    ensures |f| == |output|
    ensures forall k :: 0 <= k < |f| ==> f[k] == (output[k].FunctionCall? || output[k].CustomToolCall? || output[k].ApprovalRequest?)
  {
    seq(|output|, k requires 0 <= k < |output| => output[k].FunctionCall? || output[k].CustomToolCall? || output[k].ApprovalRequest?)
  }

  /** The key names the kind of the answer and the id of the question. */
  predicate KeyFor(key: string, item: OutputItem) {
    match item
    case FunctionCall(id) => key == "function_call_output:" + id
    case CustomToolCall(id) => key == "custom_tool_call_output:" + id
    case ApprovalRequest(id) => key == "mcp_approval_response:" + id
    case _ => false
  }

  lemma Regroup(a: seq<string>, b: seq<string>, c: seq<string>)
    ensures (a + b) + c == a + (b + c)
  {
  }

  lemma {:induction false} RequiredSnoc(output: seq<OutputItem>, item: OutputItem)
    ensures RequiredFrom(output + [item]) == RequiredFrom(output) + ItemKeys(item)
  {
    var keys := ItemKeys(item);
    if output == [] {
      assert (output + [item])[1..] == [];
      assert RequiredFrom([]) == [];
    } else {
      RequiredSnoc(output[1..], item);
      assert (output + [item])[1..] == output[1..] + [item];
      Regroup(ItemKeys(output[0]), RequiredFrom(output[1..]), keys);
    }
  }

  lemma RequiredOne(item: OutputItem)
    ensures var keys := ItemKeys(item);
            if item.FunctionCall? || item.CustomToolCall? || item.ApprovalRequest? then |keys| == 1 && KeyFor(keys[0], item) else keys == []
  {
    match item
    case FunctionCall(id) => assert ResultKey("function_call_output", id) == "function_call_output:" + id;
    case CustomToolCall(id) => assert ResultKey("custom_tool_call_output", id) == "custom_tool_call_output:" + id;
    case ApprovalRequest(id) => assert ResultKey("mcp_approval_response", id) == "mcp_approval_response:" + id;
    case _ =>
  }

  /** Key by key, the questions at these positions. */
  ghost predicate KeysAt(keys: seq<string>, output: seq<OutputItem>, at: seq<nat>) {
    |keys| == |at| && forall j :: 0 <= j < |keys| ==> at[j] < |output| && KeyFor(keys[j], output[at[j]])
  }

  lemma {:induction false} RequiredUpTo(output: seq<OutputItem>, f: seq<bool>, n: nat)
    requires f == Asking(output) && n <= |output|
    ensures KeysAt(RequiredFrom(output[..n]), output, Flagged(f, n))
  {
    if n > 0 {
      RequiredUpTo(output, f, n - 1);
      assert output[..n] == output[..n - 1] + [output[n - 1]];
      RequiredSnoc(output[..n - 1], output[n - 1]);
      RequiredOne(output[n - 1]);
    }
  }

  /** The required keys are, one each and in output order, those of the items that ask. */
  lemma RequiredAre(output: seq<OutputItem>)
    ensures KeysAt(RequiredFrom(output), output, Flagged(Asking(output), |output|))
  {
    RequiredUpTo(output, Asking(output), |output|);
    assert output[..|output|] == output;
  }

  /** After an accepted terminal event of the current response exactly its own questions are open. */
  lemma EndedRequires(s: State, r: Response)
    requires s.current == Some(r.id) && OnEnded(s, r).Saved?
    ensures KeysAt(OnEnded(s, r).state.required, r.output, Flagged(Asking(r.output), |r.output|))
  {
    RequiredAre(r.output);
    EndedAsks(s, r);
  }

  lemma EndedAsks(s: State, r: Response)
    requires s.current == Some(r.id) && OnEnded(s, r).Saved?
    ensures OnEnded(s, r).state.required == RequiredFrom(r.output)
  {
  }

  /** A pending event opens the questions it lists, each once, in their order. */
  lemma {:induction false} DedupIs(keys: seq<string>)
    ensures Distinct(Dedup(keys)) && Subsequence(Dedup(keys), keys)
    ensures forall x :: x in Dedup(keys) <==> x in keys
  {
    if keys != [] {
      var init, last := keys[..|keys| - 1], keys[|keys| - 1];
      assert keys == init + [last];
      DedupIs(init);
      SubsequenceSnoc(Dedup(init), init, last);
      SubsequenceExtend(Dedup(init), init, [last]);
    }
  }

  /** The results accepted for saving are exactly an output text, or an explicit decision with at most a reason. */
  lemma ShapesAre(item: Item)
    ensures WellShaped(item) <==>
              || (item.kind in {"function_call_output", "custom_tool_call_output"} && item.via != ByRequest
                  && exists text :: item.fields == map["output" := Str(text)])
              || (item.kind == "mcp_approval_response" && item.via != ByCall
                  && ((exists yes :: item.fields == map["approve" := Flag(yes)])
                      || exists yes, reason :: item.fields == map["approve" := Flag(yes), "reason" := reason]))
  {
    if WellShaped(item) {
      if item.kind == "mcp_approval_response" {
        var yes := item.fields["approve"].value;
        if "reason" in item.fields {
          assert item.fields == map["approve" := Flag(yes), "reason" := item.fields["reason"]];
        } else {
          assert item.fields == map["approve" := Flag(yes)];
        }
      } else {
        assert item.fields == map["output" := Str(item.fields["output"].text)];
      }
    }
  }

  // ---------------------------------------------------------------- recovery

  /** Position p holds a tool item of this kind and key. */
  predicate Holds(history: seq<HistoryItem>, p: nat, r: Item) {
    p < |history| && history[p].ToolItem? && history[p].item.kind == r.kind
    && history[p].item.kind + ":" + history[p].item.ref == r.kind + ":" + r.ref
  }

  /** The item carries every member of the saved result, the reference included, with its value. */
  predicate Carries(item: Item, r: Item) {
    && (r.via == ByCall ==> item.via == ByCall) && (r.via == ByRequest ==> item.via == ByRequest)
    && forall f :: f in r.fields ==> f in item.fields && item.fields[f] == r.fields[f]
  }

  lemma ProvesMeans(history: seq<HistoryItem>, r: Item)
    ensures Proves(history, r) <==>
              exists p: nat :: Holds(history, p, r) && Carries(history[p].item, r) && forall q: nat :: Holds(history, q, r) ==> q == p
  {
    forall k: nat | k < |history| ensures SameKey(history[k], r) <==> Holds(history, k, r) { }
    if Proves(history, r) {
      var p :| 0 <= p < |history| && SameKey(history[p], r) && Agrees(history[p], r)
        && forall j :: 0 <= j < |history| && SameKey(history[j], r) ==> j == p;
      assert Holds(history, p, r) && Carries(history[p].item, r);
    }
    if p: nat :| Holds(history, p, r) && Carries(history[p].item, r) && forall q: nat :: Holds(history, q, r) ==> q == p {
      assert SameKey(history[p], r) && Agrees(history[p], r);
    }
  }

  /** The update in flight, if any. */
  ghost predicate InFlightAt(s: State, k: nat) {
    k < |s.intents| && s.intents[k].status in {Sending, Accepted, Pending, Uncertain}
  }

  /** The user messages the lost request added. */
  ghost predicate Added(s: State, texts: seq<string>) {
    if s.current.None? then texts == [s.prompt]
    else if exists k: nat :: InFlightAt(s, k) then exists k: nat :: InFlightAt(s, k) && texts == [s.intents[k].text]
    else texts == []
  }

  lemma AddedIs(s: State)
    requires StateOk(s) && (s.create.Some? || AnyUnresolved(s.intents))
    ensures forall texts :: Added(s, texts) <==> texts == ExpectedTexts(s)
  {
    forall k: nat | k < |s.intents| ensures InFlightAt(s, k) <==> Unresolved(s.intents[k].status) { }
    assert forall k :: 0 <= k < |s.intents| ==> IntentOk(s.intents[k], s.current);
    if AnyUnresolved(s.intents) {
      var k :| 0 <= k < |s.intents| && Unresolved(s.intents[k].status);
      assert InFlightAt(s, k);
      OnlyOne(s.intents, k);
      OneText(s.intents, k);
    } else {
      NoText(s.intents);
    }
  }

  lemma OnlyOne(intents: seq<Intent>, k: nat)
    requires Ordered(intents) && k < |intents| && Unresolved(intents[k].status)
    ensures forall j :: 0 <= j < |intents| && j != k ==> !Unresolved(intents[j].status)
  {
    forall j | 0 <= j < |intents| && j != k ensures !Unresolved(intents[j].status) {
      if Unresolved(intents[j].status) {
        SingleUnresolved(intents, k, j);
        SingleUnresolved(intents, j, k);
      }
    }
  }

  /** The history holds the saved result of this required key once, with all its members. */
  ghost predicate HasResult(history: seq<HistoryItem>, saved: map<string, Item>, key: string) {
    && key in saved
    && exists p: nat :: Holds(history, p, saved[key]) && Carries(history[p].item, saved[key])
         && forall q: nat :: Holds(history, q, saved[key]) ==> q == p
  }

  lemma ResultsProven(s: State, saved: map<string, Item>, history: seq<HistoryItem>)
    ensures (var items := SavedResults(saved, s.required);
             items.Some? && forall i :: 0 <= i < |items.value| ==> Proves(history, items.value[i]))
            <==> forall k :: 0 <= k < |s.required| ==> HasResult(history, saved, s.required[k])
  {
    forall r: Item ensures Proves(history, r) <==>
        exists p: nat :: Holds(history, p, r) && Carries(history[p].item, r) && forall q: nat :: Holds(history, q, r) ==> q == p
    {
      ProvesMeans(history, r);
    }
    var items := SavedResults(saved, s.required);
    if items.Some? {
      forall k | 0 <= k < |s.required| ensures Proves(history, items.value[k]) <==> HasResult(history, saved, s.required[k]) {
        assert items.value[k] == saved[s.required[k]];
      }
    }
  }

  /** The child's user messages are the parent's, and then the lost input. */
  ghost predicate HistoryAdds(s: State, ev: Evidence) {
    exists texts :: Added(s, texts)
      && UserTexts(ev.childHistory) == (if s.current.Some? && s.current.value != "" then UserTexts(ev.parentHistory) else []) + texts
  }

  ghost predicate HasAllResults(s: State, saved: map<string, Item>, history: seq<HistoryItem>) {
    forall k :: 0 <= k < |s.required| ==> HasResult(history, saved, s.required[k])
  }

  lemma HistoryAddsIs(s: State, ev: Evidence)
    requires StateOk(s) && (s.create.Some? || AnyUnresolved(s.intents))
    ensures HistoryAdds(s, ev) <==>
              UserTexts(ev.childHistory) == (if Truthy(s.current) then UserTexts(ev.parentHistory) else []) + ExpectedTexts(s)
  {
    AddedIs(s);
    assert Added(s, ExpectedTexts(s));
  }

  lemma ProofMeans(s: State, saved: map<string, Item>, ev: Evidence)
    requires StateOk(s)
    ensures HistoryProves(s, saved, ev) <==>
              && (s.create.Some? || AnyUnresolved(s.intents)) && HistoryAdds(s, ev)
              && (s.create.Some? && s.required != [] ==> HasAllResults(s, saved, ev.childHistory))
  {
    if s.create.Some? || AnyUnresolved(s.intents) { HistoryAddsIs(s, ev); }
    ResultsProven(s, saved, ev.childHistory);
  }

  /**
    A successor is adopted exactly on proof: the right id, parent and session, something to
    recover, the parent's user messages and then exactly the lost input, and, when a create
    with required inputs is outstanding, every saved result once with all its members.
  */
  lemma AdoptedExactly(s: State, saved: map<string, Item>, successor: Id, ev: Evidence)
    requires StateOk(s)
    ensures Adopt(s, saved, successor, ev).Saved? <==>
              && ev.child.id == successor && ev.child.previous == s.current && ev.child.session == Some(s.session)
              && (s.create.Some? || exists k: nat :: InFlightAt(s, k)) && HistoryAdds(s, ev)
              && (s.create.Some? && s.required != [] ==> HasAllResults(s, saved, ev.childHistory))
  {
    InFlightIs(s);
    ProofMeans(s, saved, ev);
  }

  /** And then everything in flight took effect there, and nothing else changed. */
  lemma AdoptedState(s: State, saved: map<string, Item>, successor: Id, ev: Evidence)
    requires StateOk(s) && Adopt(s, saved, successor, ev).Saved?
    ensures var s' := Adopt(s, saved, successor, ev).state;
            && s' == s.(intents := s'.intents, responses := s.responses[successor := ev.child], current := Some(successor), create := None)
            && |s'.intents| == |s.intents|
            && forall k: nat :: k < |s.intents| ==>
                 s'.intents[k] == if InFlightAt(s, k) then s.intents[k].(status := Applied, successor := Some(successor)) else s.intents[k]
  {
  }

  function UserSaid(history: seq<HistoryItem>): (f: seq<bool>)
    ensures |f| == |history| && forall k :: 0 <= k < |f| ==> f[k] == history[k].UserText?
  {
    seq(|history|, k requires 0 <= k < |history| => history[k].UserText?)
  }

  ghost predicate TextsAt(texts: seq<string>, history: seq<HistoryItem>, at: seq<nat>) {
    |texts| == |at| && forall j :: 0 <= j < |at| ==> at[j] < |history| && history[at[j]] == UserText(texts[j])
  }

  lemma PushText(texts: seq<string>, history: seq<HistoryItem>, at: seq<nat>, n: nat)
    requires TextsAt(texts, history, at) && n < |history| && history[n].UserText?
    ensures TextsAt(texts + [history[n].text], history, at + [n])
  {
  }

  lemma {:induction false} UserTextsUpTo(history: seq<HistoryItem>, f: seq<bool>, n: nat)
    requires f == UserSaid(history) && n <= |history|
    ensures TextsAt(UserTexts(history[..n]), history, Flagged(f, n))
  {
    if n > 0 {
      var h, texts, at := history[n - 1], UserTexts(history[..n - 1]), Flagged(f, n - 1);
      UserTextsUpTo(history, f, n - 1);
      assert history[..n] == history[..n - 1] + [h];
      UserTextsSnoc(history[..n - 1], h);
      if h.UserText? {
        PushText(texts, history, at, n - 1);
        assert Flagged(f, n) == at + [n - 1];
      } else {
        assert Flagged(f, n) == at;
      }
    }
  }

  /** The user texts of a history, one each and in order. */
  lemma UserTextsAre(history: seq<HistoryItem>)
    ensures TextsAt(UserTexts(history), history, Flagged(UserSaid(history), |history|))
  {
    UserTextsUpTo(history, UserSaid(history), |history|);
    assert history[..|history|] == history;
  }

  lemma {:induction false} UserTextsSnoc(history: seq<HistoryItem>, h: HistoryItem)
    ensures UserTexts(history + [h]) == if h.UserText? then UserTexts(history) + [h.text] else UserTexts(history)
  {
    if history == [] {
      assert history + [h] == [h] && [h][1..] == [];
    } else {
      UserTextsSnoc(history[1..], h);
      assert (history + [h])[1..] == history[1..] + [h];
    }
  }

  lemma InFlightIs(s: State)
    ensures AnyUnresolved(s.intents) <==> exists k: nat :: InFlightAt(s, k)
  {
    if AnyUnresolved(s.intents) {
      var k :| 0 <= k < |s.intents| && Unresolved(s.intents[k].status);
      assert InFlightAt(s, k);
    }
    if k: nat :| InFlightAt(s, k) { assert Unresolved(s.intents[k].status); }
  }

  /** With anything in flight, or a create outstanding, the rest of recovery only says so. */
  lemma RecoveryWaits(s: State, latest: map<Id, Response>)
    requires s.create.Some? || exists k: nat :: InFlightAt(s, k)
    ensures Recover(s, latest) == (Saved(s.(phase := Reconciling, error := Some(UnknownOutcome))), false)
  {
    InFlightIs(s);
  }

  /** Otherwise every response still running is replaced by the provider's latest word on it; a finished one stays. */
  lemma RecoveryRefreshes(s: State, latest: map<Id, Response>, id: Id)
    requires StateOk(s) && s.create.None? && (forall k: nat :: !InFlightAt(s, k)) && Recover(s, latest).0.Saved?
    ensures var s' := Recover(s, latest).0.state;
            && (id in s'.responses <==> id in s.responses)
            && (id in s.responses ==>
                  if Terminal(s.responses[id].status) then s'.responses[id] == s.responses[id]
                  else id in latest && latest[id].id == id && s'.responses[id] == latest[id])
  {
    InFlightIs(s);
    RecoverOk(s, latest);
    RecoveryResponses(s, latest);
  }

  lemma RecoveryResponses(s: State, latest: map<Id, Response>)
    requires s.create.None? && !AnyUnresolved(s.intents) && Recover(s, latest).0.Saved?
    ensures CanRefresh(s.responses, latest) && Recover(s, latest).0.state.responses == Refreshed(s.responses, latest)
  {
  }

  /** It succeeds only with a finished current response, whose own questions are then the open ones. */
  lemma RecoveryRequires(s: State, latest: map<Id, Response>)
    requires StateOk(s) && Recover(s, latest).1
    ensures var s' := Recover(s, latest).0.state;
            && s'.current == s.current && s.current.Some? && s.current.value in s'.responses
            && var output := s'.responses[s.current.value].output;
               KeysAt(s'.required, output, Flagged(Asking(output), |output|))
  {
    RecoveryIsSettled(s, latest);
    RecoverOk(s, latest);
    RecoveryAsks(s, latest);
    var s' := Recover(s, latest).0.state;
    RequiredAre(s'.responses[s.current.value].output);
  }

  lemma RecoveryAsks(s: State, latest: map<Id, Response>)
    requires Recover(s, latest).1
    ensures var s' := Recover(s, latest).0.state;
            s.current.Some? && s.current.value in s'.responses && s'.required == RequiredFrom(s'.responses[s.current.value].output)
  {
  }

  /**
    A disconnect leaves a settled journal alone; any other needs recovery, with everything in
    flight uncertain and the first reported cause kept.
  */
  lemma DisconnectMeans(s: State, reason: string)
    ensures var s', settled := OnDisconnect(s, reason), s.phase in {New, Complete, Halted} && forall k: nat :: !InFlightAt(s, k);
            && (settled ==> s' == s)
            && (!settled ==>
                  && s' == s.(intents := s'.intents, phase := Reconciling,
                              error := if s.error.None? || s.error == Some(ByProvider("")) then Some(Disconnected(reason)) else s.error)
                  && |s'.intents| == |s.intents|
                  && forall k: nat :: k < |s.intents| ==>
                       s'.intents[k] == if InFlightAt(s, k) then s.intents[k].(status := Uncertain) else s.intents[k])
  {
    forall k: nat | k < |s.intents| ensures InFlightAt(s, k) <==> Unresolved(s.intents[k].status) { }
    if k: nat :| InFlightAt(s, k) { assert AnyUnresolved(s.intents); }
  }

  // ---------------------------------------------------------------- events

  /** `response.created` is accepted exactly when it is fresh, follows `current`, does not overlap it, was waited for, and no steer is unacknowledged. */
  lemma CreatedExactly(s: State, r: Response)
    requires StateOk(s)
    ensures OnCreated(s, r).Skipped? <==> r.id in s.responses
    ensures OnCreated(s, r).Saved? <==>
              && r.id !in s.responses && r.previous == s.current
              && (s.current.Some? && s.current.value != "" ==> Terminal(s.responses[s.current.value].status))
              && (s.create.Some? || exists k: nat :: InFlightAt(s, k))
              && forall k: nat :: k < |s.intents| && s.intents[k].status == Sending ==> s.create.Some? && s.create.value.intent == Some(s.intents[k].id)
  {
    forall k: nat | k < |s.intents| ensures InFlightAt(s, k) <==> Unresolved(s.intents[k].status) { }
    if k: nat :| InFlightAt(s, k) { assert AnyUnresolved(s.intents); }
    if r.id !in s.responses && r.previous == s.current { CommitLoop(s.intents, 0, r.previous, s.create, r.id); }
  }

  /** The phase after a response ends: every outcome, by the payload and what is open. */
  lemma EndMeans(s: State, r: Response)
    requires s.current == Some(r.id) && r.id in s.responses && s.responses[r.id] == r && r.status != Running
    ensures var s', flying, steered := FinishIfReady(s), exists k: nat :: InFlightAt(s, k), r.incompleteReason == Some("steered");
            && s' == s.(phase := s'.phase, error := s'.error)
            && (r.status == Failed || r.status == Cancelled || (r.status == Incomplete && !steered) ==>
                  && s'.phase == (if flying then Waiting else Halted)
                  && (r.error.Some? && r.error.value != "" ==> s'.error == Some(ByProvider(r.error.value)))
                  && (r.error.None? || r.error.value == "" ==>
                        s'.error == if r.incompleteReason.Some? then Some(ByProvider(r.incompleteReason.value)) else None))
            && (r.status == Completed || (r.status == Incomplete && steered) ==>
                  if flying || s.required != [] then s'.phase == Waiting && s'.error == s.error
                  else if steered then s'.phase == Reconciling && s'.error == Some(NoKnownSuccessor)
                  else s'.phase == Complete && s'.error == s.error)
  {
    forall k: nat | k < |s.intents| ensures InFlightAt(s, k) <==> Unresolved(s.intents[k].status) { }
    if k: nat :| InFlightAt(s, k) { assert AnyUnresolved(s.intents); }
  }

  /** What each steering event does to the one intent it names. */
  lemma SteerMeans(s: State, k: nat, body: Body)
    requires k < |s.intents| && IsSteer(body) && OnSteer(s, k, body).Saved?
    ensures var s', i := OnSteer(s, k, body).state, s.intents[k];
            match body
            case SteerAccepted(steer) =>
              if i.status == Sending
              then steer.id.Some? && s' == s.(intents := s.intents[k := i.(status := Accepted, steerId := steer.id)])
              else s' == s
            case SteerPending(_, required) =>
              && i.status in {Accepted, Pending} && required.Some? && None !in required.value && s'.phase == Waiting
              && s' == s.(intents := s.intents[k := i.(status := Pending)], required := s'.required, phase := Waiting)
              && Distinct(s'.required) && (forall x :: x in s'.required <==> Some(x) in required.value)
            case SteerFailed(_, input, cause) =>
              && input == Some(i.text) && i.status != Applied && cause.Some?
              && s' == FinishIfReady(s.(intents := s.intents[k := i.(status := Rejected, error := cause)]))
            case _ => s' == s
  {
    if body.SteerPending? {
      var keys := Keys(body.required.value);
      DedupIs(keys);
      forall x ensures x in keys <==> Some(x) in body.required.value {
        if x in keys {
          var j :| 0 <= j < |keys| && keys[j] == x;
          assert body.required.value[j] in body.required.value;
          assert body.required.value[j] == Some(x);
        }
        if Some(x) in body.required.value {
          var j :| 0 <= j < |body.required.value| && body.required.value[j] == Some(x);
          assert keys[j] == x;
        }
      }
    }
  }

  // ---------------------------------------------------------------- every request can be answered

  /** The response that answers this state: new, and following `current`. */
  predicate Follows(s: State, r: Response) {
    r.id !in s.responses && r.previous == s.current
  }

  /** The answer to the prompt is accepted. */
  lemma PromptAnswered(s: State, saved: map<string, Item>, r: Response)
    requires StateOk(s) && Decide(s, saved).1.Some? && Decide(s, saved).1.value.CreatePrompt? && Follows(s, r)
    ensures var o := OnCreated(Decide(s, saved).0, r);
            o.Saved? && o.state.current == Some(r.id) && o.state.create.None? && o.state.phase == Active
  {
    DecideOk(s, saved);
    CreatedExactly(Decide(s, saved).0, r);
    CreatedOutcome(Decide(s, saved).0, r);
    assert forall k :: 0 <= k < |s.intents| ==> IntentOk(s.intents[k], s.current);
  }

  /** The answer to a continuation is accepted, and a pending update takes effect with it. */
  lemma ResultsAnswered(s: State, saved: map<string, Item>, r: Response)
    requires StateOk(s) && Decide(s, saved).1.Some? && Decide(s, saved).1.value.CreateResults? && Follows(s, r)
    ensures var o := OnCreated(Decide(s, saved).0, r);
            && o.Saved? && o.state.current == Some(r.id) && o.state.create.None? && o.state.phase == Active && o.state.required == []
            && forall k: nat :: InFlightAt(s, k) ==>
                 k < |o.state.intents| && o.state.intents[k] == s.intents[k].(status := Applied, successor := Some(r.id))
  {
    var s' := Decide(s, saved).0;
    DecideOk(s, saved);
    ResultsOnlyWhen(s, saved);
    CreatedExactly(s', r);
    CreatedOutcome(s', r);
  }

  lemma ResultsOnlyWhen(s: State, saved: map<string, Item>)
    requires Decide(s, saved).1.Some? && Decide(s, saved).1.value.CreateResults?
    ensures Terminal(CurrentStatus(s)) && forall k :: 0 <= k < |s.intents| ==> s.intents[k].status !in {Sending, Accepted}
  {
  }

  /**
    The answer to a follow-up is accepted, and the update it carried takes effect there, if
    and only if the current response is not running again.
  */
  lemma FollowUpAnswered(s: State, saved: map<string, Item>, r: Response, local: Id, text: string, parent: Option<Id>)
    requires StateOk(s) && Decide(s, saved).1 == Some(CreateFollowUp(local, text, parent)) && Follows(s, r)
    ensures var o, k := OnCreated(Decide(s, saved).0, r), FirstQueued(s.intents);
            && (o.Saved? <==> s.current == Some("") || Terminal(CurrentStatus(s)))
            && (o.Saved? ==> k < |s.intents| && s.intents[k].id == local && |o.state.intents| == |s.intents|
                             && o.state.intents[k] == s.intents[k].(status := Applied, parent := s.current, successor := Some(r.id)))
  {
    var s', k := Decide(s, saved).0, FirstQueued(s.intents);
    DecideOk(s, saved);
    assert InFlightAt(s', k);
    CreatedExactly(s', r);
    CreatedOutcome(s', r);
    assert forall j :: 0 <= j < |s'.intents| && j != k ==> s'.intents[j] == s.intents[j];
  }

  /** The condition matters: a payload that sets a finished response running again leaves the follow-up unanswerable. */
  lemma FollowUpRefused() returns (s: State, r: Response)
    ensures StateOk(s) && Follows(s, r) && Decide(s, map[]).1 == Some(CreateFollowUp("u", "t", Some("r1")))
    ensures OnCreated(Decide(s, map[]).0, r).Raised?
  {
    var r1 := Response("r1", None, Running, [], None, None, None);
    s := State("", "", Complete, Some("r1"), map["r1" := r1], [NewIntent("u", "t")], [], None, None);
    r := Response("r2", Some("r1"), Running, [], None, None, None);
    assert FirstQueued(s.intents) == 0;
  }

  /** A steer is acknowledged under any new id, and once its response has ended the successor is accepted and the update takes effect. */
  lemma SteerAcknowledged(s: State, saved: map<string, Item>, id: Id, local: Id, text: string, parent: Option<Id>)
    requires StateOk(s) && Decide(s, saved).1 == Some(Steer(local, text, parent))
    requires id != "" && forall k :: 0 <= k < |s.intents| ==> s.intents[k].steerId != Some(id)
    ensures var s', k := Decide(s, saved).0, FirstQueued(s.intents);
            && k < |s.intents| && s.intents[k].id == local
            && OnEvent(s', Event(None, SteerAccepted(SteerRef(Some(id), parent))))
               == Saved(s'.(intents := s'.intents[k := s'.intents[k].(status := Accepted, steerId := Some(id))]))
  {
    var s', k := Decide(s, saved).0, FirstQueued(s.intents);
    DecideOk(s, saved);
    OneSending(s', k, SteerRef(Some(id), parent));
  }

  lemma OneSending(s: State, k: nat, steer: SteerRef)
    requires StateOk(s) && k < |s.intents| && MatchesSending(s.intents[k], steer)
    requires forall j :: 0 <= j < |s.intents| ==> s.intents[j].steerId != steer.id
    ensures Candidates(s.intents, steer) == [k]
  {
    CandidateUnique(s, steer);
    OnlyOne(s.intents, k);
    var ks := Candidates(s.intents, steer);
    assert ks == [ks[0]] && s.intents[ks[0]].status == Sending;
  }

  lemma SteerAnswered(s: State, k: nat, r: Response)
    requires StateOk(s) && k < |s.intents| && s.intents[k].status in {Accepted, Pending, Uncertain}
    requires Terminal(CurrentStatus(s)) && Follows(s, r)
    ensures var o := OnCreated(s, r);
            o.Saved? && |o.state.intents| == |s.intents|
            && o.state.intents[k] == s.intents[k].(status := Applied, successor := Some(r.id))
  {
    assert InFlightAt(s, k);
    OnlyOne(s.intents, k);
    CreatedExactly(s, r);
    CreatedOutcome(s, r);
  }
}
