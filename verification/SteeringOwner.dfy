/**
  The journal and its owner as the objects they are: fields updated in place, loops
  over rows and intents, exceptions that leave whatever was done so far.  Every method
  is tied to the transition function whose runs are analysed in SteeringRuns.
*/
module SteeringOwner {
  import opened Prelude
  import opened SteeringState
  import opened SteeringRuns

  /** The text of the first row with this id; ids are a primary key. */
  function TextOf(inbox: seq<Row>, id: Id): Option<string> {
    if inbox == [] then None
    else if inbox[0].id == id then Some(inbox[0].text)
    else TextOf(inbox[1..], id)
  }

  lemma {:induction false} TextOfFirst(inbox: seq<Row>, k: nat, id: Id)
    requires k < |inbox| && inbox[k].id == id && forall j :: 0 <= j < k ==> inbox[j].id != id
    ensures TextOf(inbox, id) == Some(inbox[k].text)
  {
    if k > 0 { TextOfFirst(inbox[1..], k - 1, id); }
  }

  class Journal {
    var disk: State
    var inbox: seq<Row>
    var saved: map<string, Item>

    constructor (session: string, prompt: string)
      ensures disk == InitialState(session, prompt) && inbox == [] && saved == map[]
    {
      disk := InitialState(session, prompt);
      inbox := [];
      saved := map[];
    }

    method Save(s: State)
      modifies this`disk
      ensures disk == s
    {
      disk := s;
    }

    /** Insert or ignore; the id then must belong to this very text. */
    method Enqueue(id: Id, text: string) returns (ok: bool)
      modifies this`inbox
      ensures inbox == if Blank(text) || HasId(old(inbox), id) then old(inbox) else old(inbox) + [Row(id, text, false)]
      ensures ok <==> !Blank(text) && TextOf(inbox, id) == Some(text)
    {
      if Blank(text) { return false; }
      var k := 0;
      while k < |inbox| && inbox[k].id != id
        invariant k <= |inbox| && forall j :: 0 <= j < k ==> inbox[j].id != id
      {
        k := k + 1;
      }
      if k == |inbox| {
        inbox := inbox + [Row(id, text, false)];
        ok := true;
      } else {
        ok := inbox[k].text == text;
      }
      TextOfFirst(inbox, k, id);
    }

    /** Move the unconsumed rows into the intents, and make both durable together. */
    method Drain(s: State) returns (s': State)
      modifies this`disk, this`inbox
      ensures s' == Drained(s, old(inbox))
      ensures disk == s' && inbox == ConsumeAll(old(inbox))
    {
      var intents := s.intents;
      var k := 0;
      while k < |inbox|
        invariant k <= |inbox| == |old(inbox)|
        invariant intents == s.intents + Arrivals(old(inbox)[..k])
        invariant forall j :: 0 <= j < |inbox| ==>
                    inbox[j] == if j < k then old(inbox)[j].(consumed := true) else old(inbox)[j]
      {
        assert old(inbox)[..k + 1][..k] == old(inbox)[..k];
        if !inbox[k].consumed {
          intents := intents + [NewIntent(inbox[k].id, inbox[k].text)];
          inbox := inbox[k := inbox[k].(consumed := true)];
        }
        k := k + 1;
      }
      assert old(inbox)[..k] == old(inbox);
      assert inbox == ConsumeAll(old(inbox));
      s' := s.(intents := intents);
      disk := s';
    }

    method SubmitResult(item: Item) returns (ok: bool)
      modifies this`saved
      ensures var key := ResultKey(item.kind, item.ref);
              && saved == (if key in old(saved) || key !in disk.required || !WellShaped(item) then old(saved) else old(saved)[key := item])
              && (ok <==> key in saved && saved[key] == item)
    {
      var key := ResultKey(item.kind, item.ref);
      if key in saved { return saved[key] == item; }
      if key !in disk.required || !WellShaped(item) { return false; }
      saved := saved[key := item];
      ok := true;
    }

    method Results(required: seq<string>) returns (r: Option<seq<Item>>)
      ensures r == SavedResults(saved, required)
    {
      var items: seq<Item> := [];
      var k := 0;
      while k < |required|
        invariant k <= |required| && |items| == k
        invariant forall j :: 0 <= j < k ==> required[j] in saved && items[j] == saved[required[j]]
      {
        if required[k] !in saved { return None; }
        items := items + [saved[required[k]]];
        k := k + 1;
      }
      assert SavedResults(saved, required).value == items;
      r := Some(items);
    }
  }

  class Owner {
    const journal: Journal
    var state: State

    constructor (journal: Journal)
      ensures this.journal == journal && state == journal.disk
    {
      this.journal := journal;
      state := journal.disk;
    }

    method Create(parent: Option<Id>, intent: Option<Id>)
      modifies this`state, journal`disk
      ensures state == StartCreate(old(state), parent, intent) && journal.disk == state
    {
      state := state.(create := Some(CreateRecord(parent, intent)), phase := Creating);
      journal.Save(state);
    }

    method NextRequest() returns (request: Option<Request>)
      modifies this`state, journal`disk, journal`inbox
      ensures var s := Drained(old(state), old(journal.inbox));
              (state, request) == Decide(s, journal.saved)
      ensures journal.disk == state && journal.inbox == ConsumeAll(old(journal.inbox))
    {
      state := journal.Drain(state);
      request := None;
      if state.phase == New {
        request := Some(CreatePrompt(state.prompt));
        Create(None, None);
        return;
      }
      if state.phase == Reconciling || state.phase == Halted || state.phase == Creating { return; }
      if Terminal(CurrentStatus(state)) && state.required != [] {
        var k := 0;
        while k < |state.intents|
          invariant k <= |state.intents|
          invariant forall j :: 0 <= j < k ==> state.intents[j].status !in {Sending, Accepted}
        {
          if state.intents[k].status == Sending || state.intents[k].status == Accepted { return; }
          k := k + 1;
        }
        var results := journal.Results(state.required);
        if results.Some? {
          request := Some(CreateResults(results.value, state.current));
          Create(state.current, None);
        }
        return;
      }
      if AnyUnresolved(state.intents) { return; }
      var k := 0;
      ghost var first := FirstQueued(state.intents);
      while k < |state.intents| && state.intents[k].status != Queued
        invariant k <= first
      {
        k := k + 1;
      }
      if k == |state.intents| { return; }
      var local, text := state.intents[k].id, state.intents[k].text;
      if state.phase == Active {
        state := state.(intents := state.intents[k := state.intents[k].(status := Sending, parent := state.current)]);
        journal.Save(state);
        request := Some(Steer(local, text, state.current));
      } else if state.phase == Complete {
        state := state.(intents := state.intents[k := state.intents[k].(status := Sending, parent := state.current)]);
        request := Some(CreateFollowUp(local, text, state.current));
        Create(state.current, Some(local));
      }
    }

    method FinishIfReady()
      modifies this`state
      ensures state == SteeringState.FinishIfReady(old(state))
    {
      if !Terminal(CurrentStatus(state)) { return; }
      var r := state.responses[state.current.value];
      var steered := r.incompleteReason == Some("steered");
      if r.status == Failed || r.status == Cancelled || (r.status == Incomplete && !steered) {
        var cause := OrElse(r.error, r.incompleteReason);
        state := state.(phase := if AnyUnresolved(state.intents) then Waiting else Halted,
                        error := if cause.Some? then Some(ByProvider(cause.value)) else None);
      } else if AnyUnresolved(state.intents) || state.required != [] {
        state := state.(phase := Waiting);
      } else if steered {
        state := state.(phase := Reconciling, error := Some(NoKnownSuccessor));
      } else {
        state := state.(phase := Complete);
      }
    }

    /** Commits in list order and raises in the middle if it must. */
    method Commit(parent: Option<Id>, rid: Id) returns (raised: bool)
      modifies this`state
      ensures var (intents, stopped) := CommitFrom(old(state).intents, 0, parent, old(state).create, rid);
              raised == stopped && state == old(state).(intents := intents)
    {
      var k := 0;
      while k < |state.intents|
        invariant k <= |state.intents|
        invariant state == old(state).(intents := state.intents)
        invariant CommitFrom(state.intents, k, parent, state.create, rid) == CommitFrom(old(state).intents, 0, parent, old(state).create, rid)
      {
        var i := state.intents[k];
        if Unresolved(i.status) && i.parent == parent {
          if i.status == Sending && !(state.create.Some? && state.create.value.intent == Some(i.id)) { return true; }
          state := state.(intents := state.intents[k := i.(status := Applied, successor := Some(rid))]);
        }
        k := k + 1;
      }
      raised := false;
    }

    method Find(steer: SteerRef) returns (ks: seq<nat>)
      ensures ks == Candidates(state.intents, steer)
    {
      ks := [];
      var k := 0;
      while k < |state.intents|
        invariant k <= |state.intents| && ks == Matching(state.intents, k, steer, true)
      {
        if MatchesId(state.intents[k], steer) { ks := ks + [k]; }
        k := k + 1;
      }
      if ks != [] { return; }
      k := 0;
      while k < |state.intents|
        invariant k <= |state.intents| && ks == Matching(state.intents, k, steer, false)
      {
        if MatchesSending(state.intents[k], steer) { ks := ks + [k]; }
        k := k + 1;
      }
    }

    /** The steering branch of `event`; raises with the assignments made before. */
    method OnSteerEvent(body: Body) returns (raised: bool)
      requires IsSteer(body)
      modifies this`state
      ensures var o := OnEvent(old(state), Event(None, body));
              state == o.state && raised == o.Raised? && !o.Skipped?
    {
      var ks := Find(body.steer);
      if |ks| != 1 { return true; }
      var k := ks[0];
      var i := state.intents[k];
      raised := false;
      match body {
        case SteerAccepted(steer) =>
          if i.status == Sending {
            if steer.id.None? { return true; }
            state := WithIntent(state, k, i.(status := Accepted, steerId := steer.id));
          }
        case SteerPending(_, required) =>
          if i.status != Accepted && i.status != Pending { return true; }
          state := WithIntent(state, k, i.(status := Pending));
          if !Listed(required) { return true; }
          state := state.(required := Dedup(Keys(required.value)), phase := Waiting);
        case SteerFailed(_, input, cause) =>
          if input != Some(i.text) || i.status == Applied { return true; }
          if cause.None? { return true; }
          state := WithIntent(state, k, i.(status := Rejected, error := cause));
          FinishIfReady();
        case SteerOther(_) =>
      }
    }

    method OnCreatedEvent(r: Response) returns (raised: bool, skipped: bool)
      modifies this`state
      ensures var o := OnCreated(old(state), r);
              state == o.state && raised == o.Raised? && skipped == o.Skipped?
    {
      raised, skipped := false, false;
      if r.id in state.responses { return false, true; }
      if r.previous != state.current || (state.create.Some? && r.previous != state.create.value.parent) { return true, false; }
      if Truthy(r.previous) && !Terminal(CurrentStatus(state)) { return true, false; }
      if state.create.None? && !AnyUnresolved(state.intents) { return true, false; }
      raised := Commit(r.previous, r.id);
      if raised { return; }
      state := state.(responses := state.responses[r.id := r]);
      state := state.(current := Some(r.id), phase := Active, required := [], create := None);
    }

    /** One provider event; only an event that is neither skipped nor raising is saved. */
    method Receive(e: Event) returns (raised: bool)
      modifies this`state, journal`disk
      ensures var o := OnEvent(old(state), e);
              && state == o.state && raised == o.Raised?
              && journal.disk == if o.Saved? then state else old(journal.disk)
    {
      raised := false;
      if e.body.Shapeless? || Truthy(e.lane) { return true; }
      if IsSteer(e.body) {
        raised := OnSteerEvent(e.body);
        if raised { return; }
      } else {
        match e.body {
          case Created(r) =>
            var skipped;
            raised, skipped := OnCreatedEvent(r);
            if raised || skipped { return; }
          case Ended(r) =>
            if r.id !in state.responses { return true; }
            state := state.(responses := state.responses[r.id := r]);
            if state.current == Some(r.id) {
              if !Readable(r.output) { return true; }
              state := state.(required := RequiredFrom(r.output));
              FinishIfReady();
            }
          case ProviderError(cause) =>
            if cause.None? { return true; }
            state := state.(phase := Reconciling, error := Some(ByProvider(cause.value)));
          case OtherEvent =>
        }
      }
      journal.Save(state);
    }

    method Disconnect(reason: string)
      modifies this`state, journal`disk
      ensures state == OnDisconnect(old(state), reason) && journal.disk == state
    {
      if !(state.phase == New || state.phase == Complete || state.phase == Halted) || AnyUnresolved(state.intents) {
        var k := 0;
        while k < |state.intents|
          invariant k <= |state.intents| == |old(state).intents|
          invariant state == old(state).(intents := state.intents)
          invariant forall j :: 0 <= j < |state.intents| ==>
                      state.intents[j] == if j < k then MarkUncertain(old(state).intents)[j] else old(state).intents[j]
        {
          if Unresolved(state.intents[k].status) {
            state := WithIntent(state, k, state.intents[k].(status := Uncertain));
          }
          k := k + 1;
        }
        assert state.intents == MarkUncertain(old(state).intents);
        state := state.(phase := Reconciling, error := if Reported(state.error) then state.error else Some(Disconnected(reason)));
      }
      journal.Save(state);
    }

    /** The successor half of `reconcile`: verify, commit what was in flight, save. */
    method AdoptSuccessor(successor: Id, ev: Evidence) returns (raised: bool)
      modifies this`state, journal`disk
      ensures var o := Adopt(old(state), journal.saved, successor, ev);
              && state == o.state && raised == o.Raised? && !o.Skipped?
              && journal.disk == if raised then old(journal.disk) else state
    {
      if ev.child.id != successor || ev.child.previous != state.current || ev.child.session != Some(state.session) { return true; }
      if !HistoryProves(state, journal.saved, ev) { return true; }
      var k := 0;
      while k < |state.intents|
        invariant k <= |state.intents| == |old(state).intents|
        invariant state == old(state).(intents := state.intents)
        invariant forall j :: 0 <= j < |state.intents| ==>
                    state.intents[j] == if j < k then MarkApplied(old(state).intents, successor)[j] else old(state).intents[j]
      {
        if Unresolved(state.intents[k].status) {
          state := WithIntent(state, k, state.intents[k].(status := Applied, successor := Some(successor)));
        }
        k := k + 1;
      }
      assert state.intents == MarkApplied(old(state).intents, successor);
      state := state.(responses := state.responses[successor := ev.child], current := Some(successor), create := None);
      journal.Save(state);
      raised := false;
    }

    /** Both halves of `reconcile`; an exception leaves the journal at its last save. */
    method Reconcile(successor: Option<Id>, ev: Evidence, latest: map<Id, Response>) returns (raised: bool, success: bool)
      modifies this`state, journal`disk
      ensures var first := if Truthy(successor) then Adopt(old(state), journal.saved, successor.value, ev) else Saved(old(state));
              var (second, value) := Recover(first.state, latest);
              if first.Raised? then raised && journal.disk == old(journal.disk)
              else
                && (raised <==> second.Raised?)
                && (raised ==> journal.disk == if Truthy(successor) then first.state else old(journal.disk))
                && (!raised ==> journal.disk == state == second.state && success == value)
    {
      success := false;
      if Truthy(successor) {
        raised := AdoptSuccessor(successor.value, ev);
        if raised { return; }
      }
      if AnyUnresolved(state.intents) || state.create.Some? {
        state := state.(phase := Reconciling, error := Some(UnknownOutcome));
        journal.Save(state);
        return false, false;
      }
      if !CanRefresh(state.responses, latest) { return true, false; }
      state := state.(responses := Refreshed(state.responses, latest));
      if !Terminal(CurrentStatus(state)) {
        state := state.(phase := Reconciling, error := Some(StillRunning));
        journal.Save(state);
        return false, false;
      }
      if !Readable(state.responses[state.current.value].output) { return true, false; }
      state := state.(required := RequiredFrom(state.responses[state.current.value].output), phase := Waiting, error := None);
      FinishIfReady();
      journal.Save(state);
      return false, state.phase != Reconciling;
    }
  }
}
