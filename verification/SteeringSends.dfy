/**
  When the owner sends.  What a state can still send, the one-create-at-a-time rule with
  the exact events that break it, and the exact steps that lose the prompt.
*/
module SteeringSends {
  import opened Prelude
  import opened SteeringState
  import opened SteeringInvariants
  import opened SteeringRuns

  // ---------------------------------------------------------------- what a state can send

  /** Some arrivals and some saved results make the owner send. */
  ghost predicate MaySend(s: State) {
    exists inbox: seq<Row>, saved: map<string, Item> :: Decide(Drained(s, inbox), saved).1.Some?
  }

  /** A steer still waits for its acknowledgement. */
  predicate Awaiting(intents: seq<Intent>) {
    exists k :: 0 <= k < |intents| && intents[k].status in {Sending, Accepted}
  }

  /** The same, read off the state. */
  predicate CanSend(s: State) {
    s.phase == New ||
    (Free(s) &&
     if Terminal(CurrentStatus(s)) && s.required != [] then !Awaiting(s.intents)
     else s.phase != Waiting && !AnyUnresolved(s.intents))
  }

  lemma {:induction false} ArrivalsQueued(inbox: seq<Row>)
    ensures forall k :: 0 <= k < |Arrivals(inbox)| ==> Arrivals(inbox)[k].status == Queued
  {
    if inbox != [] { ArrivalsQueued(inbox[..|inbox| - 1]); }
  }

  lemma QueuedDoNotMatter(a: seq<Intent>, b: seq<Intent>)
    requires forall k :: 0 <= k < |b| ==> b[k].status == Queued
    ensures AnyUnresolved(a + b) <==> AnyUnresolved(a)
    ensures Awaiting(a + b) <==> Awaiting(a)
  {
    if k :| 0 <= k < |a| && Unresolved(a[k].status) { assert Unresolved((a + b)[k].status); }
    if k :| 0 <= k < |a| && a[k].status in {Sending, Accepted} { assert (a + b)[k].status in {Sending, Accepted}; }
  }

  lemma SilentDecides(s: State, inbox: seq<Row>, saved: map<string, Item>)
    requires !CanSend(s)
    ensures Decide(Drained(s, inbox), saved).1.None?
  {
    ArrivalsQueued(inbox);
    QueuedDoNotMatter(s.intents, Arrivals(inbox));
  }

  lemma SendsResults(s: State)
    requires Free(s) && Terminal(CurrentStatus(s)) && s.required != [] && !Awaiting(s.intents)
    ensures MaySend(s)
  {
    var saved := map key | key in s.required :: Item("", ByNothing, "", map[]);
    assert forall k :: 0 <= k < |s.required| ==> s.required[k] in saved;
    assert Drained(s, []) == s by { assert s.intents + [] == s.intents; }
    assert Decide(Drained(s, []), saved).1.Some?;
  }

  lemma SendsUpdate(s: State)
    requires s.phase == Active || s.phase == Complete
    requires !(Terminal(CurrentStatus(s)) && s.required != []) && !AnyUnresolved(s.intents)
    ensures MaySend(s)
  {
    var inbox := [Row("", "", false)];
    assert inbox[..0] == [];
    var s' := Drained(s, inbox);
    assert Arrivals(inbox) == [NewIntent("", "")];
    QueuedDoNotMatter(s.intents, Arrivals(inbox));
    assert s'.intents[|s.intents|].status == Queued;
    assert FirstQueued(s'.intents) < |s'.intents|;
    assert Decide(s', map[]).1.Some?;
  }

  lemma MaySendExactly(s: State)
    ensures MaySend(s) <==> CanSend(s)
  {
    if CanSend(s) {
      if s.phase == New {
        assert Decide(Drained(s, []), map[]).1.Some?;
      } else if Terminal(CurrentStatus(s)) && s.required != [] {
        SendsResults(s);
      } else {
        SendsUpdate(s);
      }
    } else {
      forall inbox, saved ensures Decide(Drained(s, inbox), saved).1.None? { SilentDecides(s, inbox, saved); }
    }
  }

  // ---------------------------------------------------------------- after a terminal response

  predicate SteeredEnd(r: Response) {
    r.incompleteReason == Some("steered")
  }

  predicate Dead(r: Response) {
    r.status == Failed || r.status == Cancelled || (r.status == Incomplete && !SteeredEnd(r))
  }

  /** The conversation goes on after r: with results when inputs are required, with the next update otherwise. */
  predicate Continues(r: Response, required: seq<string>, unresolved: bool, awaiting: bool) {
    && Terminal(r.status)
    && if required != [] then !awaiting && (Dead(r) ==> unresolved)
       else !unresolved && !Dead(r) && !SteeredEnd(r)
  }

  /** `finish_if_ready` leaves the owner able to send exactly when the conversation goes on. */
  lemma FinishSends(s: State)
    requires s.current.Some? && s.current.value in s.responses && Terminal(CurrentStatus(s))
    ensures MaySend(FinishIfReady(s)) <==>
              Continues(s.responses[s.current.value], s.required, AnyUnresolved(s.intents), Awaiting(s.intents))
    ensures FinishIfReady(s).phase in {Waiting, Halted, Reconciling, Complete}
    ensures FinishIfReady(s).phase == Complete ==> MaySend(FinishIfReady(s))
  {
    MaySendExactly(FinishIfReady(s));
  }

  // ---------------------------------------------------------------- one create at a time

  /** While a create awaits its response the owner is in one of the phases that may be silent. */
  predicate GuardPhase(s: State) {
    s.create.Some? ==> s.phase in {Creating, Reconciling, Halted, Waiting}
  }

  ghost predicate Silent(s: State) {
    s.create.Some? ==> !MaySend(s)
  }

  ghost predicate Names(s: State, steer: SteerRef, k: nat) {
    k < |s.intents| && Candidates(s.intents, steer) == [k]
  }

  predicate OthersUnresolved(intents: seq<Intent>, k: nat) {
    exists j :: 0 <= j < |intents| && j != k && Unresolved(intents[j].status)
  }

  predicate OthersAwaiting(intents: seq<Intent>, k: nat) {
    exists j :: 0 <= j < |intents| && j != k && intents[j].status in {Sending, Accepted}
  }

  /** The events that let the owner send although its create is outstanding. */
  ghost predicate SendsAgain(s: State, e: Event) {
    && s.create.Some? && !Truthy(e.lane)
    && match e.body
       case Ended(r) =>
         && s.current == Some(r.id) && r.id in s.responses && Readable(r.output)
         && Continues(r, RequiredFrom(r.output), AnyUnresolved(s.intents), Awaiting(s.intents))
       case SteerPending(steer, required) =>
         && Listed(required) && required.value != [] && Terminal(CurrentStatus(s))
         && exists k: nat :: Names(s, steer, k) && s.intents[k].status in {Accepted, Pending}
       case SteerFailed(steer, input, cause) =>
         && cause.Some? && s.current.Some? && s.current.value in s.responses
         && exists k: nat :: Names(s, steer, k) && input == Some(s.intents[k].text) && s.intents[k].status != Applied
              && Continues(s.responses[s.current.value], s.required, OthersUnresolved(s.intents, k), OthersAwaiting(s.intents, k))
       case _ => false
  }

  /** The owner goes on after the event, still without the response it waits for, and can send. */
  ghost predicate Breaks(o: Outcome) {
    !o.Raised? && o.state.create.Some? && MaySend(o.state)
  }

  lemma ChangedOne(intents: seq<Intent>, k: nat, i: Intent)
    requires k < |intents|
    ensures AnyUnresolved(intents[k := i]) <==> Unresolved(i.status) || OthersUnresolved(intents, k)
    ensures Awaiting(intents[k := i]) <==> i.status in {Sending, Accepted} || OthersAwaiting(intents, k)
  {
    var after := intents[k := i];
    assert after[k] == i;
    assert forall j :: 0 <= j < |intents| && j != k ==> after[j] == intents[j];
    if j :| 0 <= j < |intents| && j != k && Unresolved(intents[j].status) { assert Unresolved(after[j].status); }
    if j :| 0 <= j < |intents| && j != k && intents[j].status in {Sending, Accepted} { assert after[j].status in {Sending, Accepted}; }
  }

  lemma SameAsBefore(intents: seq<Intent>, k: nat)
    requires k < |intents|
    ensures AnyUnresolved(intents) <==> Unresolved(intents[k].status) || OthersUnresolved(intents, k)
    ensures Awaiting(intents) <==> intents[k].status in {Sending, Accepted} || OthersAwaiting(intents, k)
  {
    ChangedOne(intents, k, intents[k]);
    assert intents[k := intents[k]] == intents;
  }

  lemma EndedSends(s: State, e: Event)
    requires StateOk(s) && GuardPhase(s) && Silent(s) && s.create.Some? && !Truthy(e.lane) && e.body.Ended?
    ensures Breaks(OnEnded(s, e.body.response)) <==> SendsAgain(s, e)
    ensures !SendsAgain(s, e) ==> GuardPhase(OnEnded(s, e.body.response).state)
  {
    var r := e.body.response;
    var o := OnEnded(s, r);
    MaySendExactly(s);
    MaySendExactly(o.state);
    if r.id in s.responses && s.current == Some(r.id) && Readable(r.output) {
      var s1 := s.(responses := s.responses[r.id := r], required := RequiredFrom(r.output));
      if Terminal(r.status) { FinishSends(s1); }
    }
  }

  lemma AcceptedSends(s: State, k: nat, id: Id)
    requires k < |s.intents| && s.intents[k].status == Sending
    ensures MaySend(WithIntent(s, k, s.intents[k].(status := Accepted, steerId := Some(id)))) <==> MaySend(s)
  {
    var s' := WithIntent(s, k, s.intents[k].(status := Accepted, steerId := Some(id)));
    ChangedOne(s.intents, k, s'.intents[k]);
    SameAsBefore(s.intents, k);
    MaySendExactly(s);
    MaySendExactly(s');
  }

  lemma PendingSends(s: State, k: nat, required: seq<string>)
    requires StateOk(s) && k < |s.intents| && s.intents[k].status in {Accepted, Pending}
    ensures var s' := WithIntent(s, k, s.intents[k].(status := Pending)).(required := required, phase := Waiting);
            MaySend(s') <==> Terminal(CurrentStatus(s)) && required != []
  {
    var i := s.intents[k].(status := Pending);
    var s' := WithIntent(s, k, i).(required := required, phase := Waiting);
    ChangedOne(s.intents, k, i);
    forall j | 0 <= j < |s.intents| && j != k ensures !Unresolved(s.intents[j].status) {
      if Unresolved(s.intents[j].status) {
        SingleUnresolved(s.intents, k, j);
        SingleUnresolved(s.intents, j, k);
      }
    }
    MaySendExactly(s');
  }

  lemma FailedSends(s: State, k: nat, cause: string)
    requires StateOk(s) && GuardPhase(s) && s.create.Some? && k < |s.intents| && s.intents[k].status != Applied
    ensures var s' := FinishIfReady(WithIntent(s, k, s.intents[k].(status := Rejected, error := Some(cause))));
            && (MaySend(s') <==>
                  s.current.Some? && s.current.value in s.responses
                  && Continues(s.responses[s.current.value], s.required, OthersUnresolved(s.intents, k), OthersAwaiting(s.intents, k)))
            && (!MaySend(s') ==> GuardPhase(s'))
  {
    var i := s.intents[k].(status := Rejected, error := Some(cause));
    var s1 := WithIntent(s, k, i);
    ChangedOne(s.intents, k, i);
    if Terminal(CurrentStatus(s)) {
      FinishSends(s1);
    } else {
      MaySendExactly(s1);
    }
  }

  lemma DedupEmpty(keys: seq<string>)
    ensures Dedup(keys) == [] <==> keys == []
  {
  }

  lemma SteerSends(s: State, e: Event, k: nat)
    requires StateOk(s) && GuardPhase(s) && Silent(s) && s.create.Some? && !Truthy(e.lane) && IsSteer(e.body)
    requires Names(s, e.body.steer, k)
    ensures Breaks(OnSteer(s, k, e.body)) <==> SendsAgain(s, e)
    ensures !SendsAgain(s, e) ==> GuardPhase(OnSteer(s, k, e.body).state)
  {
    assert forall j: nat :: Names(s, e.body.steer, j) ==> [j] == [k];
    match e.body {
      case SteerAccepted(steer) =>
        if s.intents[k].status == Sending && steer.id.Some? { AcceptedSends(s, k, steer.id.value); }
      case SteerPending(_, required) =>
        if s.intents[k].status in {Accepted, Pending} && Listed(required) {
          DedupEmpty(Keys(required.value));
          PendingSends(s, k, Dedup(Keys(required.value)));
        }
      case SteerFailed(_, input, cause) =>
        if input == Some(s.intents[k].text) && s.intents[k].status != Applied && cause.Some? { FailedSends(s, k, cause.value); }
      case _ =>
    }
  }

  /**
    The exact limit of the one-create rule: while a create is outstanding and the owner is
    silent, an event lets it send again if and only if it is one of those listed.
  */
  lemma SendsAgainExactly(s: State, e: Event)
    requires StateOk(s) && GuardPhase(s) && Silent(s) && s.create.Some?
    ensures Breaks(OnEvent(s, e)) <==> SendsAgain(s, e)
    ensures !SendsAgain(s, e) ==> GuardPhase(OnEvent(s, e).state)
  {
    MaySendExactly(s);
    if e.body.Shapeless? || Truthy(e.lane) {
    } else if e.body.Ended? {
      EndedSends(s, e);
    } else if e.body.Created? {
      CreatedOutcome(s, e.body.response);
    } else if IsSteer(e.body) {
      var ks := Candidates(s.intents, e.body.steer);
      if |ks| == 1 {
        assert ks == [ks[0]];
        SteerSends(s, e, ks[0]);
      } else {
        assert forall k: nat :: !Names(s, e.body.steer, k);
      }
    } else {
      MaySendExactly(OnEvent(s, e).state);
    }
  }

  ghost predicate Guarded(sys: Sys) {
    GuardPhase(sys.mem) && GuardPhase(sys.disk) && Silent(sys.disk)
  }

  /** No event of the run lets the owner send again. */
  ghost predicate QuietRun(sys: Sys, steps: seq<Step>)
    decreases |steps|
  {
    steps == [] ||
    (!(Listening(sys) && steps[0].Receive? && SendsAgain(sys.mem, steps[0].event)) && QuietRun(Next(sys, steps[0]), steps[1..]))
  }

  lemma ReceiveGuard(sys: Sys, e: Event)
    requires Inv(sys) && Guarded(sys) && Listening(sys) && !SendsAgain(sys.mem, e)
    ensures Guarded(Received(sys, e))
  {
    if sys.mem.create.Some? {
      SendsAgainExactly(sys.mem, e);
    } else {
      EventCreates(sys.mem, e);
    }
  }

  /** No event starts a create. */
  lemma EventCreates(s: State, e: Event)
    requires StateOk(s) && s.create.None?
    ensures OnEvent(s, e).state.create.None?
  {
    if e.body.Created? {
      CreatedOutcome(s, e.body.response);
    } else if IsSteer(e.body) && |Candidates(s.intents, e.body.steer)| == 1 {
      SteerOk(s, e.body);
    }
  }

  lemma SilentPhase(s: State)
    requires s.phase in {Creating, Reconciling, Halted}
    ensures GuardPhase(s) && Silent(s)
  {
    MaySendExactly(s);
  }

  lemma DisconnectGuard(s: State, reason: string)
    requires GuardPhase(s)
    ensures GuardPhase(OnDisconnect(s, reason)) && Silent(OnDisconnect(s, reason))
  {
    if s.create.Some? { SilentPhase(OnDisconnect(s, reason)); }
  }

  lemma DrainGuard(s: State, inbox: seq<Row>)
    requires GuardPhase(s) && Silent(s)
    ensures GuardPhase(Drained(s, inbox)) && Silent(Drained(s, inbox))
  {
    ArrivalsQueued(inbox);
    QueuedDoNotMatter(s.intents, Arrivals(inbox));
    MaySendExactly(s);
    MaySendExactly(Drained(s, inbox));
  }

  lemma DecideGuard(s: State, saved: map<string, Item>)
    requires StateOk(s) && GuardPhase(s) && Silent(s)
    ensures GuardPhase(Decide(s, saved).0) && Silent(Decide(s, saved).0)
  {
    var s' := Decide(s, saved).0;
    if s' != s && s'.create.Some? {
      assert s.intents + [] == s.intents;
      assert Drained(s, []) == s;
      assert s.create.None?;
      SilentPhase(s');
    }
  }

  lemma RecoverGuard(s: State, latest: map<Id, Response>)
    requires GuardPhase(s) && Silent(s)
    ensures GuardPhase(Recover(s, latest).0.state) && Silent(Recover(s, latest).0.state)
  {
    if s.create.Some? { SilentPhase(Recover(s, latest).0.state); }
  }

  lemma NextGuard(sys: Sys, step: Step)
    requires Inv(sys) && Guarded(sys)
    requires !(Listening(sys) && step.Receive? && SendsAgain(sys.mem, step.event))
    ensures Guarded(Next(sys, step))
  {
    match step {
      case Receive(e) => if Listening(sys) { ReceiveGuard(sys, e); }
      case Disconnect(reason) => DisconnectGuard(sys.mem, reason);
      case DrainInbox => if sys.mode.Live? { DrainGuard(sys.mem, sys.inbox); }
      case DecideNext => if sys.mode.Live? { DecideGuard(sys.mem, sys.saved); }
      case RecoverRest(latest) => if sys.mode.Idle? { RecoverGuard(sys.mem, latest); }
      case _ =>
    }
  }

  lemma {:induction false} RunGuard(sys: Sys, steps: seq<Step>)
    requires Inv(sys) && Guarded(sys) && QuietRun(sys, steps)
    ensures Guarded(Run(sys, steps))
    decreases |steps|
  {
    if steps != [] {
      NextOk(sys, steps[0]);
      NextGuard(sys, steps[0]);
      RunGuard(Next(sys, steps[0]), steps[1..]);
    }
  }

  lemma QuietRunGuarded(session: string, prompt: string, steps: seq<Step>)
    requires QuietRun(Init(session, prompt), steps)
    ensures Inv(Run(Init(session, prompt), steps)) && Guarded(Run(Init(session, prompt), steps))
  {
    ReachableOk(session, prompt, steps);
    RunGuard(Init(session, prompt), steps);
  }

  /**
    One create at a time.  In a run without such events, a connected owner that waits for
    a response sends nothing, whatever arrives; and the first such event makes sending possible.
  */
  lemma OneCreateOutstanding(session: string, prompt: string, steps: seq<Step>, e: Event)
    requires QuietRun(Init(session, prompt), steps)
    ensures var sys := Run(Init(session, prompt), steps);
            && (sys.mode.Live? && sys.mem.create.Some? ==> !MaySend(sys.mem))
            && (Listening(sys) && sys.mem.create.Some? ==>
                  var next := Received(sys, e);
                  next.mode.Live? && next.mem.create.Some? && MaySend(next.mem) <==> SendsAgain(sys.mem, e))
  {
    QuietRunGuarded(session, prompt, steps);
    var sys := Run(Init(session, prompt), steps);
    if Listening(sys) && sys.mem.create.Some? { SendsAgainExactly(sys.mem, e); }
  }

  /**
    The rule fails in general.  While the continuation with tool results is outstanding,
    a repeated terminal event of the current response makes the same results go out again.
  */
  lemma ResultsSentAgain(sys: Sys, r: Response, items: seq<Item>)
    requires Inv(sys) && sys.mode.Live? && sys.outbox.None? && sys.mem.create.Some? && sys.mem.phase == Creating
    requires sys.mem.current == Some(r.id) && r.status == Completed && Readable(r.output) && RequiredFrom(r.output) != []
    requires SavedResults(sys.saved, RequiredFrom(r.output)) == Some(items)
    requires forall k :: 0 <= k < |sys.mem.intents| ==> sys.mem.intents[k].status !in {Sending, Accepted}
    ensures AfterSend(AfterDecide(Received(sys, Event(None, Ended(r))))).wire
            == sys.wire + [CreateResults(items, sys.mem.current)]
  {
    var sys1 := Received(sys, Event(None, Ended(r)));
    RepeatedEnd(sys.mem, r);
    WaitingSends(sys1, items);
  }

  lemma RepeatedEnd(s: State, r: Response)
    requires StateOk(s) && s.current == Some(r.id) && r.status == Completed && Readable(r.output) && RequiredFrom(r.output) != []
    ensures OnEvent(s, Event(None, Ended(r)))
            == Saved(s.(responses := s.responses[r.id := r], required := RequiredFrom(r.output), phase := Waiting))
  {
  }

  lemma WaitingSends(sys: Sys, items: seq<Item>)
    requires sys.mode.Live? && sys.outbox.None? && sys.mem.phase == Waiting && sys.mem.required != []
    requires Terminal(CurrentStatus(sys.mem)) && SavedResults(sys.saved, sys.mem.required) == Some(items)
    requires forall k :: 0 <= k < |sys.mem.intents| ==> sys.mem.intents[k].status !in {Sending, Accepted}
    ensures var sys' := AfterSend(AfterDecide(sys));
            && sys'.wire == sys.wire + [CreateResults(items, sys.mem.current)]
            && sys'.mem == StartCreate(sys.mem, sys.mem.current, None)
            && sys' == sys.(mem := sys'.mem, disk := sys'.mem, wire := sys'.wire)
  {
  }

  /** Such states are reached: after the first turn of any session whose response calls one tool. */
  lemma FirstTurnSendsResults(session: string, prompt: string, rid: Id, output: seq<OutputItem>, item: Item)
    returns (steps: seq<Step>)
    requires WellShaped(item) && Readable(output) && RequiredFrom(output) == [ResultKey(item.kind, item.ref)]
    ensures var sys := Run(Init(session, prompt), steps);
            && sys.mode.Live? && sys.outbox.None? && sys.mem.create.Some? && sys.mem.phase == Creating
            && sys.mem.current == Some(rid) && sys.mem.intents == [] && sys.mem.required == RequiredFrom(output)
            && SavedResults(sys.saved, RequiredFrom(output)) == Some([item])
            && sys.wire == [CreatePrompt(prompt), CreateResults([item], Some(rid))]
  {
    var r := Response(rid, None, Running, [], None, None, None);
    var first := ReachPrompt(session, prompt);
    var sys, more := ReachToolCall(AfterPrompt(session, prompt), r, output, item);
    RunConcat(Init(session, prompt), first, more);
    WaitingSends(sys, [item]);
    RunTwo(sys, [DecideNext, Send]);
    RunConcat(Init(session, prompt), first + more, [DecideNext, Send]);
    steps := first + more + [DecideNext, Send];
  }

  /** For instance after a first response that calls one function, once its output is saved. */
  lemma FirstCallSendsResult(session: string, prompt: string, rid: Id, call: Id, text: string) returns (steps: seq<Step>)
    ensures var sys, item := Run(Init(session, prompt), steps), Item("function_call_output", ByCall, call, map["output" := Str(text)]);
            && sys.mem.phase == Creating && sys.mem.create.Some?
            && sys.mem.required == ["function_call_output:" + call] && "function_call_output:" + call in sys.saved
            && sys.wire == [CreatePrompt(prompt), CreateResults([item], Some(rid))]
  {
    var item := Item("function_call_output", ByCall, call, map["output" := Str(text)]);
    var output := [FunctionCall(call)];
    assert output[1..] == [] && RequiredFrom([]) == [];
    assert ResultKey("function_call_output", call) == "function_call_output:" + call;
    assert RequiredFrom(output) == [ResultKey(item.kind, item.ref)];
    steps := FirstTurnSendsResults(session, prompt, rid, output, item);
    var sys := Run(Init(session, prompt), steps);
    assert RequiredFrom(output)[0] in sys.saved;
  }

  lemma ReachPrompt(session: string, prompt: string) returns (steps: seq<Step>)
    ensures Run(Init(session, prompt), steps) == AfterPrompt(session, prompt)
  {
    steps := [Open, Connect, DecideNext, Send];
    PromptGoesOut(session, prompt);
    RunFour(Init(session, prompt), steps);
  }

  lemma ReachToolCall(sys: Sys, r: Response, output: seq<OutputItem>, item: Item) returns (sys': Sys, steps: seq<Step>)
    requires Listening(sys) && sys.saved == map[] && sys.mem.current.None? && sys.mem.responses == map[] && sys.mem.intents == []
    requires sys.mem.create == Some(CreateRecord(None, None)) && r.previous.None? && r.status == Running
    requires r.incompleteReason.None? && WellShaped(item) && Readable(output) && RequiredFrom(output) == [ResultKey(item.kind, item.ref)]
    ensures sys' == Run(sys, steps)
    ensures sys'.mode.Live? && sys'.outbox == sys.outbox && sys'.wire == sys.wire && sys'.mem.phase == Waiting
    ensures sys'.mem.current == Some(r.id) && sys'.mem.intents == [] && sys'.mem.required == RequiredFrom(output)
    ensures Terminal(CurrentStatus(sys'.mem)) && SavedResults(sys'.saved, RequiredFrom(output)) == Some([item])
  {
    sys' := FirstToolCall(sys, r, output, item);
    steps := [Receive(Event(None, Created(r))), Receive(Event(None, Ended(r.(status := Completed, output := output)))), SubmitResult(item)];
    RunThree(sys, steps);
  }

  function AfterPrompt(session: string, prompt: string): Sys {
    var s := StartCreate(InitialState(session, prompt), None, None);
    Sys(s, [], map[], Live, s, None, [CreatePrompt(prompt)])
  }

  lemma PromptGoesOut(session: string, prompt: string)
    ensures AfterSend(AfterDecide(Connected(Opened(Init(session, prompt))))) == AfterPrompt(session, prompt)
  {
  }

  lemma FirstToolCall(sys: Sys, r: Response, output: seq<OutputItem>, item: Item) returns (sys': Sys)
    requires Listening(sys) && sys.saved == map[] && sys.mem.current.None? && sys.mem.responses == map[] && sys.mem.intents == []
    requires sys.mem.create == Some(CreateRecord(None, None)) && r.previous.None? && r.status == Running
    requires r.incompleteReason.None? && WellShaped(item) && Readable(output) && RequiredFrom(output) == [ResultKey(item.kind, item.ref)]
    ensures sys' == Submitted(Received(Received(sys, Event(None, Created(r))),
                                       Event(None, Ended(r.(status := Completed, output := output)))), item)
    ensures sys'.mode.Live? && sys'.outbox == sys.outbox && sys'.wire == sys.wire && sys'.mem.phase == Waiting
    ensures sys'.mem.current == Some(r.id) && sys'.mem.intents == [] && sys'.mem.required == RequiredFrom(output)
    ensures Terminal(CurrentStatus(sys'.mem)) && SavedResults(sys'.saved, RequiredFrom(output)) == Some([item])
  {
    var sys1 := Received(sys, Event(None, Created(r)));
    assert CommitFrom([], 0, None, sys.mem.create, r.id) == ([], false);
    assert sys1.mem.responses == map[r.id := r] && sys1.mem.intents == [] && sys1.mem.phase == Active;
    var done := r.(status := Completed, output := output);
    var sys2 := Received(sys1, Event(None, Ended(done)));
    RepeatedEnd(sys1.mem, done);
    sys' := Submitted(sys2, item);
    assert sys'.saved == map[ResultKey(item.kind, item.ref) := item];
    assert SavedResults(sys'.saved, RequiredFrom(output)).value == [item];
  }

  lemma {:induction false} RunConcat(sys: Sys, a: seq<Step>, b: seq<Step>)
    ensures Run(sys, a + b) == Run(Run(sys, a), b)
    decreases |a|
  {
    if a == [] {
      assert a + b == b;
    } else {
      assert (a + b)[1..] == a[1..] + b;
      RunConcat(Next(sys, a[0]), a[1..], b);
    }
  }

  lemma RunTwo(sys: Sys, steps: seq<Step>)
    requires |steps| == 2
    ensures Run(sys, steps) == Next(Next(sys, steps[0]), steps[1])
  {
    var mid := Next(sys, steps[0]);
    assert Run(mid, steps[1..]) == Run(Next(mid, steps[1]), steps[1..][1..]);
  }

  lemma RunThree(sys: Sys, steps: seq<Step>)
    requires |steps| == 3
    ensures Run(sys, steps) == Next(Next(Next(sys, steps[0]), steps[1]), steps[2])
  {
    RunTwo(Next(sys, steps[0]), steps[1..]);
  }

  lemma RunFour(sys: Sys, steps: seq<Step>)
    requires |steps| == 4
    ensures Run(sys, steps) == Next(Next(Next(Next(sys, steps[0]), steps[1]), steps[2]), steps[3])
  {
    RunThree(Next(sys, steps[0]), steps[1..]);
  }

  // ---------------------------------------------------------------- half-applied events are reached

  /** After the first response any session can receive a payload that is half applied, and the disconnect saves it. */
  lemma HalfEndedReached(session: string, prompt: string, rid: Id, reason: string) returns (steps: seq<Step>, e: Event)
    ensures var sys := Run(Init(session, prompt), steps);
            && Listening(sys) && HalfEnded(sys.mem, e) && OnEvent(sys.mem, e).Raised?
            && Stuck(Hungup(Received(sys, e), reason))
            && rid in Hungup(Received(sys, e), reason).disk.responses
            && Hungup(Received(sys, e), reason).disk.responses[rid].output == [Unreadable]
  {
    var sys;
    sys, steps := ReachActive(session, prompt, rid);
    e := Event(None, Ended(sys.mem.responses[rid].(id := rid, status := Completed, output := [Unreadable])));
  }

  lemma ReachActive(session: string, prompt: string, rid: Id) returns (sys: Sys, steps: seq<Step>)
    ensures sys == Run(Init(session, prompt), steps)
    ensures Listening(sys) && sys.inbox == [] && sys.mem.intents == [] && sys.mem.phase == Active && sys.mem.current == Some(rid)
    ensures rid in sys.mem.responses && !Terminal(sys.mem.responses[rid].status) && sys.mem.create.None?
  {
    var created := Event(None, Created(Response(rid, None, Running, [], None, None, None)));
    var first := ReachPrompt(session, prompt);
    sys := Received(AfterPrompt(session, prompt), created);
    FirstResponse(AfterPrompt(session, prompt), created.body.response);
    RunOne(AfterPrompt(session, prompt), Receive(created));
    RunConcat(Init(session, prompt), first, [Receive(created)]);
    steps := first + [Receive(created)];
  }

  lemma SteerRun(sys: Sys)
    ensures Run(sys, [Enqueue("u", "t"), DrainInbox, DecideNext, Send]) == AfterSend(AfterDecide(AfterDrain(Enqueued(sys, "u", "t"))))
  {
    RunFour(sys, [Enqueue("u", "t"), DrainInbox, DecideNext, Send]);
  }

  lemma ReachSending(session: string, prompt: string, rid: Id) returns (sys: Sys, steps: seq<Step>)
    ensures sys == Run(Init(session, prompt), steps)
    ensures Listening(sys) && sys.mem.intents == [Intent("u", "t", Sending, Some(rid), None, None, None)]
  {
    var active, first := ReachActive(session, prompt, rid);
    sys := FirstSteer(active, rid);
    SteerRun(active);
    steps := RunJoin(Init(session, prompt), first, [Enqueue("u", "t"), DrainInbox, DecideNext, Send]);
  }

  lemma RunJoin(sys: Sys, a: seq<Step>, b: seq<Step>) returns (c: seq<Step>)
    ensures Run(sys, c) == Run(Run(sys, a), b)
  {
    RunConcat(sys, a, b);
    c := a + b;
  }

  /** So can a session with one accepted update receive a pending event that is half applied. */
  lemma HalfPendingReached(session: string, prompt: string, rid: Id) returns (steps: seq<Step>, e: Event)
    ensures var sys := Run(Init(session, prompt), steps);
            Listening(sys) && HalfPending(sys.mem, e) && OnEvent(sys.mem, e).Raised?
  {
    var sys, first := ReachSending(session, prompt, rid);
    var steer := SteerRef(Some("s"), Some(rid));
    var accepted := Receive(Event(None, SteerAccepted(steer)));
    FirstAccepted(sys, rid, steer);
    RunOne(sys, accepted);
    steps := RunJoin(Init(session, prompt), first, [accepted]);
    e := Event(None, SteerPending(steer, None));
  }

  lemma FirstSteer(sys: Sys, rid: Id) returns (sys': Sys)
    requires Listening(sys) && sys.inbox == [] && sys.mem.intents == [] && sys.mem.phase == Active && sys.mem.current == Some(rid)
    requires rid in sys.mem.responses && !Terminal(sys.mem.responses[rid].status)
    ensures sys' == AfterSend(AfterDecide(AfterDrain(Enqueued(sys, "u", "t"))))
    ensures Listening(sys') && sys'.mem.intents == [Intent("u", "t", Sending, Some(rid), None, None, None)]
  {
    var sys1 := Enqueued(sys, "u", "t");
    assert !Space("t"[0]) && !Blank("t");
    assert sys1.inbox == [Row("u", "t", false)];
    assert sys1.inbox[..|sys1.inbox| - 1] == [];
    assert Arrivals(sys1.inbox) == [NewIntent("u", "t")];
    var sys2 := AfterDrain(sys1);
    assert sys2.mem.intents == [NewIntent("u", "t")];
    assert FirstQueued(sys2.mem.intents) == 0;
    var sys3 := AfterDecide(sys2);
    assert sys3.mem.intents == [Intent("u", "t", Sending, Some(rid), None, None, None)];
    sys' := AfterSend(sys3);
  }

  lemma FirstAccepted(sys: Sys, rid: Id, steer: SteerRef)
    requires Listening(sys) && steer == SteerRef(Some("s"), Some(rid))
    requires sys.mem.intents == [Intent("u", "t", Sending, Some(rid), None, None, None)]
    ensures var sys' := Received(sys, Event(None, SteerAccepted(steer)));
            Listening(sys') && HalfPending(sys'.mem, Event(None, SteerPending(steer, None)))
            && OnEvent(sys'.mem, Event(None, SteerPending(steer, None))).Raised?
  {
    var i := sys.mem.intents[0];
    OneCandidate(sys.mem.intents, steer);
    var sys' := Received(sys, Event(None, SteerAccepted(steer)));
    assert sys'.mem.intents == [i.(status := Accepted, steerId := Some("s"))];
    OneCandidate(sys'.mem.intents, steer);
  }

  lemma OneCandidate(intents: seq<Intent>, steer: SteerRef)
    requires |intents| == 1 && (MatchesId(intents[0], steer) || MatchesSending(intents[0], steer))
    ensures Candidates(intents, steer) == [0]
  {
    assert Matching(intents, 1, steer, true) == Matching(intents, 0, steer, true) + if MatchesId(intents[0], steer) then [0] else [];
    assert Matching(intents, 1, steer, false) == Matching(intents, 0, steer, false) + if MatchesSending(intents[0], steer) then [0] else [];
  }

  lemma RunOne(sys: Sys, step: Step)
    ensures Run(sys, [step]) == Next(sys, step)
  {
    assert [step][1..] == [];
  }

  lemma FirstResponse(sys: Sys, r: Response)
    requires Listening(sys) && sys.mem.current.None? && sys.mem.responses == map[] && sys.mem.intents == []
    requires sys.mem.create == Some(CreateRecord(None, None)) && r.previous.None?
    ensures var s := Received(sys, Event(None, Created(r))).mem;
            && Received(sys, Event(None, Created(r))) == Keep(sys, s)
            && s == sys.mem.(responses := map[r.id := r], current := Some(r.id), phase := Active, required := [], create := None)
  {
    assert CommitFrom([], 0, None, sys.mem.create, r.id) == ([], false);
  }

  // ---------------------------------------------------------------- journals without a future

  /** Reconciling with nothing in flight, and a current response that recovery cannot settle: none, or an unreadable one. */
  ghost predicate Stuck(sys: Sys) {
    && sys.mem == sys.disk && (sys.mode.Down? || sys.mode.Idle?) && sys.outbox.None?
    && sys.disk.phase == Reconciling && sys.disk.create.None? && !AnyUnresolved(sys.disk.intents)
    && (if sys.disk.current.None? then sys.disk.responses == map[]
        else Terminal(CurrentStatus(sys.disk)) && !Readable(sys.disk.responses[sys.disk.current.value].output))
  }

  lemma StuckStep(sys: Sys, step: Step)
    requires Stuck(sys)
    ensures Stuck(Next(sys, step)) && Next(sys, step).wire == sys.wire
  {
    if step.RecoverRest? {
      RefreshedIs(sys.mem.responses, step.latest);
      if sys.mem.current.None? { assert Refreshed(sys.mem.responses, step.latest) == map[]; }
    }
  }

  /** Nothing is ever sent again, by any run. */
  lemma {:induction false} StuckForever(sys: Sys, steps: seq<Step>)
    requires Stuck(sys)
    ensures Run(sys, steps).wire == sys.wire && Stuck(Run(sys, steps))
    decreases |steps|
  {
    if steps != [] {
      StuckStep(sys, steps[0]);
      StuckForever(Next(sys, steps[0]), steps[1..]);
    }
  }

  // ---------------------------------------------------------------- the prompt

  /** The prompt was not sent yet and can still be. */
  predicate PromptPending(sys: Sys) {
    sys.disk.phase == New || (sys.outbox.Some? && sys.outbox.value.CreatePrompt?)
  }

  lemma PromptsOf(rs: seq<Request>, r: Request)
    ensures Prompts(rs + [r]) == Prompts(rs) + if r.CreatePrompt? then 1 else 0
  {
    SnocCounts(rs, r);
  }

  /** Still past the prompt, and none was sent. */
  predicate StaysPast(sys: Sys, sys': Sys) {
    !PromptPending(sys') && Prompts(sys'.wire) == Prompts(sys.wire)
  }

  lemma PastReceive(sys: Sys, e: Event)
    requires Inv(sys) && !PromptPending(sys)
    ensures StaysPast(sys, Received(sys, e))
  {
    EventOk(sys.mem, e);
  }

  lemma PastHungup(sys: Sys, reason: string)
    requires Inv(sys) && !PromptPending(sys)
    ensures StaysPast(sys, Hungup(sys, reason))
  {
    DisconnectOk(sys.mem, reason);
  }

  lemma PastRequest(sys: Sys)
    requires Inv(sys) && !PromptPending(sys)
    ensures StaysPast(sys, AfterDecide(sys)) && StaysPast(sys, AfterSend(sys)) && StaysPast(sys, AfterDrain(sys))
  {
    DecideOk(sys.mem, sys.saved);
    if sys.outbox.Some? { PromptsOf(sys.wire, sys.outbox.value); }
  }

  lemma PastRecovery(sys: Sys, successor: Id, ev: Evidence, latest: map<Id, Response>)
    requires Inv(sys) && !PromptPending(sys)
    ensures StaysPast(sys, Adopted(sys, successor, ev)) && StaysPast(sys, Recovered(sys, latest))
  {
    AdoptOk(sys.mem, sys.saved, successor, ev);
    RecoverOk(sys.mem, latest);
  }

  lemma PastPromptStep(sys: Sys, step: Step)
    requires Inv(sys) && !PromptPending(sys)
    ensures StaysPast(sys, Next(sys, step))
  {
    match step {
      case Receive(e) => PastReceive(sys, e);
      case Disconnect(reason) => PastHungup(sys, reason);
      case DrainInbox => PastRequest(sys);
      case DecideNext => PastRequest(sys);
      case Send => PastRequest(sys);
      case AdoptSuccessor(successor, ev) => PastRecovery(sys, successor, ev, map[]);
      case RecoverRest(latest) => PastRecovery(sys, "", Evidence(Response("", None, Running, [], None, None, None), [], []), latest);
      case _ =>
    }
  }

  lemma {:induction false} PastPrompt(sys: Sys, steps: seq<Step>)
    requires Inv(sys) && !PromptPending(sys)
    ensures Prompts(Run(sys, steps).wire) == Prompts(sys.wire)
    decreases |steps|
  {
    if steps != [] {
      NextOk(sys, steps[0]);
      PastPromptStep(sys, steps[0]);
      PastPrompt(Next(sys, steps[0]), steps[1..]);
    }
  }

  lemma StartsFromDown(sys: Sys)
    requires sys.mode.Down? && sys.outbox.None? && sys.disk.phase == New
    ensures AfterSend(AfterDecide(Connected(Opened(sys)))).wire == sys.wire + [CreatePrompt(sys.disk.prompt)]
  {
  }

  lemma StartRun(sys: Sys)
    ensures Run(sys, [Open, Connect, DecideNext, Send]) == AfterSend(AfterDecide(Connected(Opened(sys))))
  {
    RunFour(sys, [Open, Connect, DecideNext, Send]);
  }

  lemma NewSendable(sys: Sys) returns (steps: seq<Step>)
    requires sys.disk.phase == New
    ensures Prompts(Run(sys, steps).wire) == Prompts(sys.wire) + 1
  {
    var down, rest := Stop(sys), [Open, Connect, DecideNext, Send];
    StartRun(down);
    StartsFromDown(down);
    PromptsOf(sys.wire, CreatePrompt(sys.disk.prompt));
    RunOne(sys, Crash);
    steps := RunJoin(sys, [Crash], rest);
  }

  lemma OutboxSendable(sys: Sys)
    requires sys.mode.Live? && sys.outbox.Some? && sys.outbox.value.CreatePrompt?
    ensures Prompts(Run(sys, [Send]).wire) == Prompts(sys.wire) + 1
  {
    RunOne(sys, Send);
    PromptsOf(sys.wire, sys.outbox.value);
  }

  /** The run sends the prompt. */
  ghost predicate SendsPrompt(sys: Sys, steps: seq<Step>) {
    Prompts(Run(sys, steps).wire) > Prompts(sys.wire)
  }

  /** From any reachable state some continuation sends the prompt if and only if it is still pending. */
  lemma PromptReachable(sys: Sys)
    requires Inv(sys)
    ensures (exists steps :: SendsPrompt(sys, steps)) <==> PromptPending(sys)
  {
    if sys.disk.phase == New {
      var steps := NewSendable(sys);
      assert SendsPrompt(sys, steps);
    } else if PromptPending(sys) {
      OutboxSendable(sys);
      assert SendsPrompt(sys, [Send]);
    } else {
      forall steps ensures !SendsPrompt(sys, steps) { PastPrompt(sys, steps); }
    }
  }

  /** Recovery of a loaded journal, or a crash or disconnect between the durable prompt and its send. */
  predicate LosesPrompt(sys: Sys, step: Step) {
    match step
    case RecoverRest(_) => sys.mode.Idle?
    case Crash => sys.outbox.Some?
    case Disconnect(_) => sys.outbox.Some?
    case _ => false
  }

  /** The prompt is lost, neither sent nor sendable any more, by exactly these steps. */
  lemma PromptLostExactly(sys: Sys, step: Step)
    requires Inv(sys) && PromptPending(sys)
    ensures !PromptPending(Next(sys, step)) && Prompts(Next(sys, step).wire) == Prompts(sys.wire) <==> LosesPrompt(sys, step)
  {
    match step {
      case RecoverRest(latest) => if sys.mode.Idle? { RecoverNew(sys.mem, latest); }
      case Disconnect(reason) => DisconnectOk(sys.mem, reason);
      case AdoptSuccessor(successor, ev) => AdoptNew(sys.mem, sys.saved, successor, ev);
      case Send => if sys.outbox.Some? { PromptsOf(sys.wire, sys.outbox.value); }
      case _ =>
    }
  }

  lemma RecoverNew(s: State, latest: map<Id, Response>)
    requires StateOk(s) && s.phase == New
    ensures Recover(s, latest).0.Saved? && Recover(s, latest).0.state.phase == Reconciling
  {
    assert Refreshed(s.responses, latest) == map[];
    assert forall k :: 0 <= k < |s.intents| ==> IntentOk(s.intents[k], s.current);
  }

  lemma AdoptNew(s: State, saved: map<string, Item>, successor: Id, ev: Evidence)
    requires StateOk(s)
    ensures s.phase == New ==> Adopt(s, saved, successor, ev).Raised?
  {
    assert forall k :: 0 <= k < |s.intents| ==> IntentOk(s.intents[k], s.current);
  }

  /** So `recover` on a journal that never ran strands it for good: no later run sends anything. */
  lemma RecoverBeforeRunStrands(sys: Sys, latest: map<Id, Response>, steps: seq<Step>)
    requires Inv(sys) && sys.mode.Idle? && sys.disk.phase == New
    ensures Run(Next(sys, RecoverRest(latest)), steps).wire == sys.wire
  {
    RecoverNew(sys.mem, latest);
    assert forall k :: 0 <= k < |sys.mem.intents| ==> IntentOk(sys.mem.intents[k], sys.mem.current);
    assert Refreshed(sys.mem.responses, latest) == map[];
    StuckForever(Next(sys, RecoverRest(latest)), steps);
  }
}
