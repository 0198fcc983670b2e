/**
  What every owner state satisfies, and that each operation keeps it.

  No assumption on the provider is made here: the events and the recovery evidence
  are arbitrary.
*/
module SteeringInvariants {
  import opened Prelude
  import opened SteeringState

  /** Settled intents, then at most one unresolved intent, then only queued ones. */
  ghost predicate Ordered(intents: seq<Intent>) {
    forall i, j :: 0 <= i < j < |intents| && intents[j].status != Queued ==> Committed(intents[i].status)
  }

  ghost predicate Distinguishable(intents: seq<Intent>) {
    forall i, j :: 0 <= i < j < |intents| && Truthy(intents[i].steerId) ==> intents[i].steerId != intents[j].steerId
  }

  ghost predicate IntentOk(i: Intent, current: Option<Id>) {
    && (Unresolved(i.status) ==> i.parent == current && current.Some?)
    && (i.status == Queued ==> i == NewIntent(i.id, i.text))
    && (i.status == Sending ==> i.steerId.None?)
    && (i.status == Applied <==> i.successor.Some?)
  }

  ghost predicate IntentsOk(intents: seq<Intent>, current: Option<Id>) {
    && Ordered(intents)
    && Distinguishable(intents)
    && forall k :: 0 <= k < |intents| ==> IntentOk(intents[k], current)
  }

  ghost predicate StateOk(s: State) {
    && IntentsOk(s.intents, s.current)
    && (s.current.Some? ==> s.current.value in s.responses)
    && (s.create.Some? ==> s.create.value.parent == s.current)
    && (s.phase == Active || s.phase == Complete ==> s.current.Some?)
    && (s.phase == New ==> s.current.None? && s.create.None? && s.responses == map[])
  }

  /** Same updates in the same places, and the same ones still waiting to be sent. */
  ghost predicate SameQueue(a: seq<Intent>, b: seq<Intent>) {
    && |a| == |b|
    && forall k :: 0 <= k < |a| ==>
         a[k].id == b[k].id && a[k].text == b[k].text && (a[k].status == Queued <==> b[k].status == Queued)
  }

  /** An applied intent stays applied, with the same parent and successor, for good. */
  ghost predicate Keeps(a: seq<Intent>, b: seq<Intent>) {
    && |a| <= |b|
    && forall k :: 0 <= k < |a| && a[k].status == Applied ==> b[k] == a[k]
  }

  lemma SingleUnresolved(intents: seq<Intent>, i: nat, j: nat)
    requires Ordered(intents) && i < |intents| && j < |intents|
    requires Unresolved(intents[i].status) && intents[j].status != Queued
    ensures j <= i
  {
    assert i < j ==> Committed(intents[i].status);
  }

  // ---------------------------------------------------------------- single updates

  /** Changing one unresolved or first queued intent to a non-queued status keeps the order. */
  lemma UpdateOne(s: State, k: nat, i: Intent)
    requires StateOk(s) && k < |s.intents|
    requires s.intents[k].status != Queued || (FirstQueued(s.intents) == k && !AnyUnresolved(s.intents))
    requires i.id == s.intents[k].id && i.status != Queued && IntentOk(i, s.current)
    requires Committed(s.intents[k].status) ==> Committed(i.status)
    requires forall j :: 0 <= j < |s.intents| && j != k && Truthy(i.steerId) ==> s.intents[j].steerId != i.steerId
    ensures IntentsOk(s.intents[k := i], s.current)
  {
    var after := s.intents[k := i];
    forall a, b | 0 <= a < b < |after| && after[b].status != Queued
      ensures Committed(after[a].status)
    {
      if b == k && s.intents[k].status == Queued {
        assert s.intents[a].status != Queued && !Unresolved(s.intents[a].status);
      } else {
        assert s.intents[b].status != Queued;
      }
    }
  }

  // ---------------------------------------------------------------- response.created

  /** The commit loop applies the one unresolved intent, or raises having changed nothing. */
  lemma {:induction false} CommitLoop(intents: seq<Intent>, k: nat, parent: Option<Id>,
                                      expected: Option<CreateRecord>, rid: Id)
    requires Ordered(intents) && k <= |intents|
    requires forall j :: 0 <= j < k ==> !Unresolved(intents[j].status)
    requires forall j :: k <= j < |intents| && Unresolved(intents[j].status) ==> intents[j].parent == parent
    ensures var (r, raised) := CommitFrom(intents, k, parent, expected, rid);
            && r == (if raised then intents else MarkApplied(intents, rid))
            && (raised <==> exists j :: k <= j < |intents| && intents[j].status == Sending
                              && !(expected.Some? && expected.value.intent == Some(intents[j].id)))
    decreases |intents| - k
  {
    if k == |intents| {
      assert MarkApplied(intents, rid) == intents;
    } else if Unresolved(intents[k].status) {
      forall j | k < j < |intents| ensures intents[j].status == Queued {
        if intents[j].status != Queued { SingleUnresolved(intents, k, j); }
      }
      var it := intents[k].(status := Applied, successor := Some(rid));
      if !(it.status == Sending) {
        CommitRest(intents[k := it], k + 1, parent, expected, rid);
        assert MarkApplied(intents, rid) == intents[k := it];
      }
    } else {
      CommitLoop(intents, k + 1, parent, expected, rid);
    }
  }

  lemma {:induction false} CommitRest(intents: seq<Intent>, k: nat, parent: Option<Id>,
                                      expected: Option<CreateRecord>, rid: Id)
    requires k <= |intents|
    requires forall j :: k <= j < |intents| ==> !Unresolved(intents[j].status)
    ensures CommitFrom(intents, k, parent, expected, rid) == (intents, false)
    decreases |intents| - k
  {
    if k < |intents| { CommitRest(intents, k + 1, parent, expected, rid); }
  }

  lemma AppliedIntents(intents: seq<Intent>, current: Option<Id>, rid: Id)
    requires IntentsOk(intents, current)
    ensures IntentsOk(MarkApplied(intents, rid), Some(rid))
    ensures !AnyUnresolved(MarkApplied(intents, rid))
    ensures SameQueue(intents, MarkApplied(intents, rid))
    ensures Keeps(intents, MarkApplied(intents, rid))
  {
    var after := MarkApplied(intents, rid);
    forall i, j | 0 <= i < j < |after| && after[j].status != Queued
      ensures Committed(after[i].status)
    {
      assert intents[j].status != Queued;
    }
  }

  /** What an accepted `response.created` does, with the loop replaced by its meaning. */
  lemma CreatedOutcome(s: State, r: Response)
    requires StateOk(s)
    ensures var o := OnCreated(s, r);
            && (o.Saved? || o.state == s)
            && (o.Saved? ==>
                  && r.id !in s.responses && r.previous == s.current
                  && o.state == s.(intents := MarkApplied(s.intents, r.id), responses := s.responses[r.id := r],
                                   current := Some(r.id), phase := Active, required := [], create := None))
  {
    if r.id !in s.responses && r.previous == s.current {
      CommitLoop(s.intents, 0, r.previous, s.create, r.id);
    }
  }

  lemma CreatedOk(s: State, r: Response)
    requires StateOk(s)
    ensures var s' := OnCreated(s, r).state;
            StateOk(s') && SameQueue(s.intents, s'.intents) && Keeps(s.intents, s'.intents)
  {
    CreatedOutcome(s, r);
    AppliedIntents(s.intents, s.current, r.id);
  }

  /** Every accepted `response.created` commits everything that was in flight. */
  lemma CreatedCommitsAll(s: State, r: Response)
    requires StateOk(s) && OnCreated(s, r).Saved?
    ensures !AnyUnresolved(OnCreated(s, r).state.intents)
    ensures |OnCreated(s, r).state.intents| == |s.intents|
    ensures forall k :: 0 <= k < |s.intents| && Unresolved(s.intents[k].status) ==>
              OnCreated(s, r).state.intents[k] == s.intents[k].(status := Applied, successor := Some(r.id))
              && s.intents[k].parent == r.previous
  {
    CreatedOutcome(s, r);
    AppliedIntents(s.intents, s.current, r.id);
  }

  // ---------------------------------------------------------------- steering events

  /** With at most one match, the scan returns exactly its position. */
  lemma {:induction false} MatchingIs(intents: seq<Intent>, n: nat, steer: SteerRef, byId: bool)
    requires n <= |intents|
    requires forall i, j :: 0 <= i < j < n && Matches(intents[j], steer, byId) ==> !Matches(intents[i], steer, byId)
    ensures var ks := Matching(intents, n, steer, byId);
            && |ks| <= 1
            && (ks == [] <==> forall k :: 0 <= k < n ==> !Matches(intents[k], steer, byId))
  {
    if n > 0 { MatchingIs(intents, n - 1, steer, byId); }
  }

  /** A steering event never has two candidates, so correlation fails only when there is none. */
  lemma CandidateUnique(s: State, steer: SteerRef)
    requires StateOk(s)
    ensures var ks := Candidates(s.intents, steer);
            && |ks| <= 1
            && (|ks| == 0 <==> forall k :: 0 <= k < |s.intents| ==>
                  !MatchesId(s.intents[k], steer) && !MatchesSending(s.intents[k], steer))
            && (|ks| == 1 ==>
                  && s.intents[ks[0]].status != Queued
                  && (MatchesId(s.intents[ks[0]], steer)
                      || (MatchesSending(s.intents[ks[0]], steer)
                          && forall k :: 0 <= k < |s.intents| ==> !MatchesId(s.intents[k], steer))))
  {
    UniqueMatch(s, steer, true);
    UniqueMatch(s, steer, false);
  }

  lemma UniqueMatch(s: State, steer: SteerRef, byId: bool)
    requires StateOk(s)
    ensures var ks := Matching(s.intents, |s.intents|, steer, byId);
            && |ks| <= 1
            && (ks == [] <==> forall k :: 0 <= k < |s.intents| ==>
                  !(if byId then MatchesId(s.intents[k], steer) else MatchesSending(s.intents[k], steer)))
  {
    var n := |s.intents|;
    forall i, j | 0 <= i < j < n && Matches(s.intents[j], steer, byId) ensures !Matches(s.intents[i], steer, byId) {
      if byId {
        assert Truthy(s.intents[i].steerId) ==> s.intents[i].steerId != s.intents[j].steerId;
      } else {
        assert Committed(s.intents[i].status);
      }
    }
    MatchingIs(s.intents, n, steer, byId);
    assert forall k :: 0 <= k < n ==> (Matches(s.intents[k], steer, byId) <==>
      if byId then MatchesId(s.intents[k], steer) else MatchesSending(s.intents[k], steer));
  }

  lemma FinishOk(s: State)
    requires IntentsOk(s.intents, s.current)
    requires s.current.Some? ==> s.current.value in s.responses
    requires s.create.Some? ==> s.create.value.parent == s.current
    requires s.phase == Active || s.phase == Complete ==> s.current.Some?
    requires s.phase == New ==> s.current.None? && s.create.None? && s.responses == map[]
    ensures StateOk(FinishIfReady(s))
    ensures FinishIfReady(s).intents == s.intents && FinishIfReady(s).current == s.current
    ensures FinishIfReady(s).responses == s.responses && FinishIfReady(s).create == s.create
    ensures FinishIfReady(s).session == s.session && FinishIfReady(s).prompt == s.prompt
  {
  }

  /** What a steering event may do to the one intent it names. */
  ghost predicate Steered(s: State, s': State) {
    && StateOk(s') && SameQueue(s.intents, s'.intents) && Keeps(s.intents, s'.intents) && Keeps(s'.intents, s.intents)
    && s'.responses == s.responses && s'.current == s.current && s'.create == s.create
    && s'.prompt == s.prompt && s'.session == s.session && (s'.phase == New ==> s.phase == New)
  }

  lemma SteeredOne(s: State, k: nat, i: Intent)
    requires StateOk(s) && k < |s.intents| && s.intents[k].status != Queued && s.intents[k].status != Applied
    requires i.id == s.intents[k].id && i.text == s.intents[k].text && i.status != Queued && i.status != Applied
    requires IntentsOk(s.intents[k := i], s.current)
    ensures Steered(s, WithIntent(s, k, i))
  {
  }

  lemma AcceptedOk(s: State, k: nat, id: Id)
    requires StateOk(s) && k < |s.intents| && s.intents[k].status == Sending
    requires forall j :: 0 <= j < |s.intents| && Truthy(Some(id)) ==> s.intents[j].steerId != Some(id)
    ensures Steered(s, WithIntent(s, k, s.intents[k].(status := Accepted, steerId := Some(id))))
  {
    var i := s.intents[k].(status := Accepted, steerId := Some(id));
    UpdateOne(s, k, i);
    SteeredOne(s, k, i);
  }

  lemma PendingOk(s: State, k: nat, required: seq<string>)
    requires StateOk(s) && k < |s.intents| && (s.intents[k].status == Accepted || s.intents[k].status == Pending)
    ensures var s' := WithIntent(s, k, s.intents[k].(status := Pending));
            Steered(s, s') && Steered(s, s'.(required := required, phase := Waiting))
  {
    var i := s.intents[k].(status := Pending);
    UpdateOne(s, k, i);
    SteeredOne(s, k, i);
  }

  lemma FailedOk(s: State, k: nat, cause: string)
    requires StateOk(s) && k < |s.intents| && s.intents[k].status != Queued && s.intents[k].status != Applied
    ensures Steered(s, FinishIfReady(WithIntent(s, k, s.intents[k].(status := Rejected, error := Some(cause)))))
  {
    var i := s.intents[k].(status := Rejected, error := Some(cause));
    UpdateOne(s, k, i);
    SteeredOne(s, k, i);
    FinishOk(WithIntent(s, k, i));
  }

  lemma SteeredSame(s: State)
    requires StateOk(s)
    ensures Steered(s, s)
  {
  }

  /** One case for each kind of steering event, on the intent it names. */
  lemma SteerOneOk(s: State, k: nat, body: Body)
    requires StateOk(s) && IsSteer(body) && k < |s.intents| && s.intents[k].status != Queued
    requires s.intents[k].status == Sending ==>
               forall j :: 0 <= j < |s.intents| && Truthy(body.steer.id) ==> s.intents[j].steerId != body.steer.id
    ensures Steered(s, OnSteer(s, k, body).state)
  {
    SteeredSame(s);
    match body {
      case SteerAccepted(steer) =>
        if s.intents[k].status == Sending && steer.id.Some? { AcceptedOk(s, k, steer.id.value); }
      case SteerPending(_, required) =>
        if s.intents[k].status == Accepted || s.intents[k].status == Pending {
          PendingOk(s, k, if Listed(required) then Dedup(Keys(required.value)) else []);
        }
      case SteerFailed(_, _, cause) =>
        if s.intents[k].status != Applied && cause.Some? { FailedOk(s, k, cause.value); }
      case _ =>
    }
  }

  lemma SteerOk(s: State, body: Body)
    requires StateOk(s) && IsSteer(body) && |Candidates(s.intents, body.steer)| == 1
    ensures Steered(s, OnSteer(s, Candidates(s.intents, body.steer)[0], body).state)
  {
    CandidateUnique(s, body.steer);
    SteerOneOk(s, Candidates(s.intents, body.steer)[0], body);
  }

  lemma EndedOk(s: State, r: Response)
    requires StateOk(s)
    ensures var s' := OnEnded(s, r).state;
            && StateOk(s') && s'.intents == s.intents && s'.current == s.current
            && s'.responses.Keys == s.responses.Keys
            && s'.responses == (if r.id in s.responses then s.responses[r.id := r] else s.responses)
            && (OnEnded(s, r).Raised? ==> s' == s.(responses := s'.responses))
  {
    if r.id in s.responses && s.current == Some(r.id) && Readable(r.output) {
      FinishOk(s.(responses := s.responses[r.id := r], required := RequiredFrom(r.output)));
    }
  }

  /** What every event keeps: the invariant, the queue, and what was applied. */
  ghost predicate Evolves(s: State, s': State) {
    && StateOk(s') && SameQueue(s.intents, s'.intents) && Keeps(s.intents, s'.intents)
    && (s'.phase == New ==> s.phase == New) && s'.prompt == s.prompt && s'.session == s.session
  }

  lemma CreatedEvolves(s: State, r: Response)
    requires StateOk(s)
    ensures Evolves(s, OnCreated(s, r).state)
  {
    CreatedOk(s, r);
    CreatedOutcome(s, r);
  }

  lemma EndedEvolves(s: State, r: Response)
    requires StateOk(s)
    ensures Evolves(s, OnEnded(s, r).state)
  {
    EndedOk(s, r);
  }

  lemma SteerEvolves(s: State, s': State)
    requires Steered(s, s')
    ensures Evolves(s, s')
  {
  }

  lemma OtherEvolves(s: State, e: Event)
    requires StateOk(s) && !e.body.Created? && !e.body.Ended? && !IsSteer(e.body)
    ensures Evolves(s, s) && Evolves(s, OnEvent(s, e).state)
  {
  }

  lemma EventOk(s: State, e: Event)
    requires StateOk(s)
    ensures Evolves(s, OnEvent(s, e).state)
  {
    OtherEvolves(s, Event(None, OtherEvent));
    if Truthy(e.lane) || e.body.Shapeless? {
    } else if IsSteer(e.body) {
      if |Candidates(s.intents, e.body.steer)| == 1 {
        SteerOk(s, e.body);
        SteerEvolves(s, OnEvent(s, e).state);
      }
    } else if e.body.Created? {
      CreatedEvolves(s, e.body.response);
    } else if e.body.Ended? {
      EndedEvolves(s, e.body.response);
    } else {
      OtherEvolves(s, e);
    }
  }

  /** A pending event for an accepted intent whose list of inputs is missing, or has an item without its type. */
  ghost predicate HalfPending(s: State, e: Event) {
    && !Truthy(e.lane) && e.body.SteerPending? && !Listed(e.body.required)
    && exists k :: 0 <= k < |s.intents| && s.intents[k].status == Accepted && Candidates(s.intents, e.body.steer) == [k]
  }

  /** A new payload of the current response with an output item that cannot be read. */
  ghost predicate HalfEnded(s: State, e: Event) {
    && !Truthy(e.lane) && e.body.Ended?
    && var r := e.body.response;
       s.current == Some(r.id) && r.id in s.responses && s.responses[r.id] != r && !Readable(r.output)
  }

  /** An event the owner itself rejects leaves no trace. */
  lemma RejectionLeavesNoTrace(s: State, e: Event)
    requires StateOk(s) && OnEvent(s, e).Raised? && OnEvent(s, e).refusal == Rejection
    ensures OnEvent(s, e).state == s
  {
    if e.body.Created? { CreatedOutcome(s, e.body.response); }
  }

  lemma PendingTrace(s: State, e: Event, k: nat)
    requires StateOk(s) && e.body.SteerPending? && k < |s.intents| && OnSteer(s, k, e.body).Raised?
    ensures OnSteer(s, k, e.body).state == s <==> !(s.intents[k].status == Accepted && !Listed(e.body.required))
  {
    var s' := OnSteer(s, k, e.body).state;
    if s.intents[k].status == Accepted || s.intents[k].status == Pending {
      assert s'.intents[k] == s.intents[k].(status := Pending);
      if s.intents[k].status == Pending { assert s'.intents == s.intents; }
    }
  }

  lemma EndedTrace(s: State, r: Response)
    requires StateOk(s) && OnEnded(s, r).Raised?
    ensures OnEnded(s, r).state == s <==> !(s.current == Some(r.id) && s.responses[r.id] != r && !Readable(r.output))
  {
    if r.id in s.responses {
      assert OnEnded(s, r).state.responses[r.id] == r;
      assert s.responses[r.id] == r ==> s.responses[r.id := r] == s.responses;
    }
  }

  /** A raising event leaves no trace, except exactly when it is one of the two that are half applied. */
  lemma RaisedLeavesNoTrace(s: State, e: Event)
    requires StateOk(s) && OnEvent(s, e).Raised?
    ensures OnEvent(s, e).state == s <==> !HalfPending(s, e) && !HalfEnded(s, e)
  {
    if !Truthy(e.lane) {
      if e.body.Created? {
        CreatedOutcome(s, e.body.response);
      } else if e.body.Ended? {
        EndedTrace(s, e.body.response);
      } else if e.body.SteerPending? && |Candidates(s.intents, e.body.steer)| == 1 {
        var ks := Candidates(s.intents, e.body.steer);
        assert ks == [ks[0]];
        PendingTrace(s, e, ks[0]);
      }
    }
  }

  /** Without the single-unresolved invariant a raising `response.created` is half applied. */
  lemma TwoUnresolvedBreakAtomicity() returns (s: State, e: Event)
    ensures OnEvent(s, e).Raised? && OnEvent(s, e).state != s
    ensures forall k :: 0 <= k < |s.intents| ==> IntentOk(s.intents[k], s.current)
  {
    var first := Intent("u1", "a", Accepted, Some("r1"), Some("s1"), None, None);
    var second := Intent("u2", "b", Sending, Some("r1"), None, None, None);
    var r1 := Response("r1", None, Completed, [], None, None, None);
    var r2 := Response("r2", Some("r1"), Running, [], None, None, None);
    s := State("x", "p", Waiting, Some("r1"), map["r1" := r1], [first, second], [], None, None);
    e := Event(None, Created(r2));
    var first' := first.(status := Applied, successor := Some("r2"));
    assert Unresolved(s.intents[0].status);
    assert s.intents[0 := first'] == [first', second];
    assert CommitFrom([first', second], 1, Some("r1"), None, "r2") == ([first', second], true);
    assert CommitFrom(s.intents, 0, Some("r1"), None, "r2") == ([first', second], true);
    assert OnEvent(s, e).state.intents[0] != s.intents[0];
  }

  // ---------------------------------------------------------------- sending

  /** The head of the queue, with everything before it settled, is what a request carries. */
  ghost predicate TakesHead(s: State, s': State, local: Id, text: string) {
    var k := FirstQueued(s.intents);
    && k < |s.intents|
    && s'.intents == s.intents[k := s.intents[k].(status := Sending, parent := s.current)]
    && local == s.intents[k].id && text == s.intents[k].text
    && (forall j :: 0 <= j < k ==> Committed(s.intents[j].status))
    && (forall j :: k < j < |s.intents| ==> s.intents[j].status == Queued)
  }

  /** What one `next_request` may do: s' is durable when it returns req. */
  ghost predicate Decided(s: State, s': State, req: Option<Request>) {
    && StateOk(s')
    && s'.responses == s.responses && s'.current == s.current
    && s'.prompt == s.prompt && s'.session == s.session && s'.phase != New
    && (match req
        case None => s' == s
        case Some(CreatePrompt(text)) =>
          s.phase == New && text == s.prompt && s' == s.(phase := Creating, create := Some(CreateRecord(None, None)))
        case Some(CreateResults(_, parent)) =>
          parent == s.current && s' == s.(phase := Creating, create := Some(CreateRecord(s.current, None)))
        case Some(CreateFollowUp(local, text, parent)) =>
          && s.phase == Complete && parent == s.current && TakesHead(s, s', local, text)
          && s' == s.(intents := s'.intents, phase := Creating, create := Some(CreateRecord(s.current, Some(local))))
        case Some(Steer(local, text, parent)) =>
          s.phase == Active && parent == s.current && TakesHead(s, s', local, text) && s' == s.(intents := s'.intents))
  }

  lemma TakeHeadOk(s: State)
    requires StateOk(s) && s.current.Some? && !AnyUnresolved(s.intents) && FirstQueued(s.intents) < |s.intents|
    ensures var k := FirstQueued(s.intents);
            TakesHead(s, MarkSending(s, k), s.intents[k].id, s.intents[k].text) && IntentsOk(MarkSending(s, k).intents, s.current)
  {
    var k := FirstQueued(s.intents);
    UpdateOne(s, k, s.intents[k].(status := Sending, parent := s.current));
    forall j | 0 <= j < k ensures Committed(s.intents[j].status) {
      assert !Unresolved(s.intents[j].status);
    }
  }

  /** The owner is past its first request and free to send another. */
  predicate Free(s: State) {
    s.phase == Active || s.phase == Waiting || s.phase == Complete
  }

  lemma DecidePrompt(s: State, saved: map<string, Item>)
    requires StateOk(s) && !Free(s)
    ensures Decided(s, Decide(s, saved).0, Decide(s, saved).1)
  {
  }

  lemma DecideResults(s: State, saved: map<string, Item>)
    requires StateOk(s) && Free(s) && Terminal(CurrentStatus(s)) && s.required != []
    ensures Decided(s, Decide(s, saved).0, Decide(s, saved).1)
  {
  }

  lemma DecideUpdate(s: State, saved: map<string, Item>)
    requires StateOk(s) && Free(s) && !(Terminal(CurrentStatus(s)) && s.required != [])
    ensures Decided(s, Decide(s, saved).0, Decide(s, saved).1)
  {
    if s.phase != Waiting && !AnyUnresolved(s.intents) && FirstQueued(s.intents) < |s.intents| { TakeHeadOk(s); }
  }

  lemma DecideOk(s: State, saved: map<string, Item>)
    requires StateOk(s)
    ensures Decided(s, Decide(s, saved).0, Decide(s, saved).1)
  {
    if !Free(s) {
      DecidePrompt(s, saved);
    } else if Terminal(CurrentStatus(s)) && s.required != [] {
      DecideResults(s, saved);
    } else {
      DecideUpdate(s, saved);
    }
  }

  // ---------------------------------------------------------------- disconnect and recovery

  lemma DisconnectOk(s: State, reason: string)
    requires StateOk(s)
    ensures var s' := OnDisconnect(s, reason);
            && StateOk(s') && SameQueue(s.intents, s'.intents) && Keeps(s.intents, s'.intents)
            && s'.responses == s.responses && s'.current == s.current
            && s'.prompt == s.prompt && s'.session == s.session && (s'.phase == New ==> s.phase == New)
  {
    var after := MarkUncertain(s.intents);
    forall i, j | 0 <= i < j < |after| && after[j].status != Queued
      ensures Committed(after[i].status)
    {
      assert s.intents[j].status != Queued;
    }
  }

  /**
    The save at disconnect never persists a half-applied event, except exactly when the
    current response came with an unreadable output item.
  */
  lemma DisconnectPersistsNothing(s: State, e: Event, reason: string)
    requires StateOk(s) && OnEvent(s, e).Raised?
    ensures OnDisconnect(OnEvent(s, e).state, reason) == OnDisconnect(s, reason) <==> !HalfEnded(s, e)
  {
    RaisedLeavesNoTrace(s, e);
    if HalfEnded(s, e) {
      var r := e.body.response;
      assert OnDisconnect(OnEvent(s, e).state, reason).responses[r.id] == r;
      assert OnDisconnect(s, reason).responses[r.id] != r;
    } else if HalfPending(s, e) {
      var k :| 0 <= k < |s.intents| && s.intents[k].status == Accepted && Candidates(s.intents, e.body.steer) == [k];
      UncertainSame(s, k, reason);
    }
  }

  lemma UncertainSame(s: State, k: nat, reason: string)
    requires k < |s.intents| && s.intents[k].status == Accepted
    ensures OnDisconnect(WithIntent(s, k, s.intents[k].(status := Pending)), reason) == OnDisconnect(s, reason)
  {
    var s' := WithIntent(s, k, s.intents[k].(status := Pending));
    assert Unresolved(s.intents[k].status) && Unresolved(s'.intents[k].status);
    assert MarkUncertain(s'.intents) == MarkUncertain(s.intents);
  }

  /** Once such a payload is the terminal current response, the rest of recovery raises, whatever the provider answers. */
  lemma UnreadableBlocksRecovery(s: State, latest: map<Id, Response>)
    requires StateOk(s) && !AnyUnresolved(s.intents) && s.create.None? && Terminal(CurrentStatus(s))
    ensures Recover(s, latest).0.Raised? <==>
              !CanRefresh(s.responses, latest) || !Readable(s.responses[s.current.value].output)
  {
    RefreshedIs(s.responses, latest);
  }

  lemma AdoptOk(s: State, saved: map<string, Item>, successor: Id, ev: Evidence)
    requires StateOk(s)
    ensures var s' := Adopt(s, saved, successor, ev).state;
            && StateOk(s') && SameQueue(s.intents, s'.intents) && Keeps(s.intents, s'.intents)
            && s'.prompt == s.prompt && s'.session == s.session && (s'.phase == New ==> s.phase == New)
  {
    AppliedIntents(s.intents, s.current, successor);
    assert s.phase == New ==> forall k :: 0 <= k < |s.intents| ==> IntentOk(s.intents[k], s.current);
  }

  lemma RefreshedIs(responses: map<Id, Response>, latest: map<Id, Response>)
    ensures Refreshed(responses, latest).Keys == responses.Keys
  {
  }

  lemma RecoverOk(s: State, latest: map<Id, Response>)
    requires StateOk(s)
    ensures var s' := Recover(s, latest).0.state;
            && StateOk(s') && s'.intents == s.intents && s'.current == s.current
            && s'.responses.Keys == s.responses.Keys
            && s'.prompt == s.prompt && s'.session == s.session && (s'.phase == New ==> s.phase == New)
  {
    RefreshedIs(s.responses, latest);
    if AnyUnresolved(s.intents) || s.create.Some? || !CanRefresh(s.responses, latest) {
    } else {
      var rs := Refreshed(s.responses, latest);
      var s1 := s.(responses := rs);
      if Terminal(CurrentStatus(s1)) && Readable(rs[s1.current.value].output) {
        FinishOk(s1.(required := RequiredFrom(rs[s1.current.value].output), phase := Waiting, error := None));
      }
    }
  }

  /** `reconcile` reports success only from a fully settled state. */
  lemma RecoveryIsSettled(s: State, latest: map<Id, Response>)
    requires StateOk(s) && Recover(s, latest).1
    ensures var (o, _) := Recover(s, latest);
            && o.Saved? && !AnyUnresolved(o.state.intents) && o.state.create.None?
            && Terminal(CurrentStatus(o.state)) && o.state.phase in {Waiting, Complete, Halted}
            && (o.state.phase == Complete ==> o.state.required == [])
  {
    RecoverOk(s, latest);
  }

  /**
    Recovery commits an intent only on proof: the statuses it changes become applied,
    and then the successor's user history is the parent's plus exactly the text of the
    one unresolved intent (or the prompt, when the first create was lost).
  */
  lemma AdoptionIsProven(s: State, saved: map<string, Item>, successor: Id, ev: Evidence, k: nat)
    requires StateOk(s) && k < |s.intents|
    requires Adopt(s, saved, successor, ev).state.intents[k] != s.intents[k]
    ensures var s' := Adopt(s, saved, successor, ev).state;
            && s'.intents[k] == s.intents[k].(status := Applied, successor := Some(successor))
            && Unresolved(s.intents[k].status) && s.intents[k].parent == s.current == ev.child.previous
            && UserTexts(ev.childHistory) == (if Truthy(s.current) then UserTexts(ev.parentHistory) else []) + [s.intents[k].text]
  {
    forall j | 0 <= j < |s.intents| && j != k ensures !Unresolved(s.intents[j].status) {
      if Unresolved(s.intents[j].status) {
        SingleUnresolved(s.intents, k, j);
        SingleUnresolved(s.intents, j, k);
      }
    }
    OneText(s.intents, k);
  }

  lemma {:induction false} OneText(intents: seq<Intent>, k: nat)
    requires k < |intents| && Unresolved(intents[k].status)
    requires forall j :: 0 <= j < |intents| && j != k ==> !Unresolved(intents[j].status)
    ensures UnresolvedTexts(intents) == [intents[k].text]
  {
    if k == 0 {
      NoText(intents[1..]);
    } else {
      OneText(intents[1..], k - 1);
    }
  }

  lemma {:induction false} NoText(intents: seq<Intent>)
    requires forall j :: 0 <= j < |intents| ==> !Unresolved(intents[j].status)
    ensures UnresolvedTexts(intents) == []
  {
    if intents != [] { NoText(intents[1..]); }
  }
}
