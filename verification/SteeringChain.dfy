/** The response chain of a run: linear, acyclic, and carrying the applied updates in queue order. */
module SteeringChain {
  import opened Prelude
  import opened SteeringState
  import opened SteeringInvariants
  import opened SteeringRuns

  // ---------------------------------------------------------------- one chain

  /** c lists every known response once, each the parent of the next, and ends at `current`. */
  ghost predicate Linked(s: State, c: seq<Id>) {
    && Distinct(c)
    && (forall id :: id in s.responses <==> id in c)
    && s.current == (if c == [] then None else Some(c[|c| - 1]))
    && (forall k :: 0 <= k < |c| ==> LinkAt(s, c, k))
  }

  ghost predicate LinkAt(s: State, c: seq<Id>, k: nat)
    requires k < |c|
  {
    c[k] in s.responses && s.responses[c[k]].id == c[k] && s.responses[c[k]].previous == Before(c, k)
  }

  ghost function Before(c: seq<Id>, k: nat): Option<Id>
    requires k < |c|
  {
    if k == 0 then None else Some(c[k - 1])
  }

  /** The intent took effect at position p: its successor is there, right after its parent. */
  ghost predicate AppliedAt(i: Intent, c: seq<Id>, p: nat) {
    1 <= p < |c| && i.successor == Some(c[p]) && i.parent == Some(c[p - 1])
  }

  ghost predicate AppliedAlong(intents: seq<Intent>, c: seq<Id>) {
    && (forall k :: 0 <= k < |intents| && intents[k].status == Applied ==> exists p :: AppliedAt(intents[k], c, p))
    && (forall i, j, p, q ::
          (0 <= i < j < |intents| && intents[i].status == Applied && intents[j].status == Applied
           && AppliedAt(intents[i], c, p) && AppliedAt(intents[j], c, q)) ==> p < q)
  }

  ghost predicate ChainOk(s: State, c: seq<Id>) {
    Linked(s, c) && AppliedAlong(s.intents, c)
  }

  /** The provider never changes the parent of a response between two payloads. */
  ghost predicate Faithful(sys: Sys, step: Step) {
    var known := sys.mem.responses;
    match step
    case Receive(e) =>
      e.body.Ended? && e.body.response.id in known ==> e.body.response.previous == known[e.body.response.id].previous
    case AdoptSuccessor(successor, ev) =>
      ev.child.id in known ==> ev.child.previous == known[ev.child.id].previous
    case RecoverRest(latest) =>
      forall id :: id in known && id in latest ==> latest[id].previous == known[id].previous
    case _ => true
  }

  ghost predicate FaithfulRun(sys: Sys, steps: seq<Step>)
    decreases |steps|
  {
    steps == [] || (Faithful(sys, steps[0]) && FaithfulRun(Next(sys, steps[0]), steps[1..]))
  }

  /** A response can be placed at one position only. */
  lemma AppliedAtUnique(i: Intent, c: seq<Id>, p: nat, q: nat)
    requires Distinct(c) && AppliedAt(i, c, p) && AppliedAt(i, c, q)
    ensures p == q
  {
    assert c[p] == c[q];
  }

  lemma AlongTransfer(a: seq<Intent>, b: seq<Intent>, c: seq<Id>)
    requires AppliedAlong(a, c)
    requires forall k :: 0 <= k < |b| && b[k].status == Applied ==> k < |a| && a[k] == b[k]
    ensures AppliedAlong(b, c)
  {
  }

  /** Growing the chain by a fresh id does not move what was applied. */
  lemma AlongGrows(intents: seq<Intent>, c: seq<Id>, rid: Id)
    requires Distinct(c) && rid !in c && AppliedAlong(intents, c)
    ensures AppliedAlong(intents, c + [rid])
  {
    var c' := c + [rid];
    forall k | 0 <= k < |intents| && intents[k].status == Applied
      ensures exists p :: AppliedAt(intents[k], c', p)
    {
      var p :| AppliedAt(intents[k], c, p);
      assert AppliedAt(intents[k], c', p);
    }
    forall i, j, p, q | 0 <= i < j < |intents| && intents[i].status == Applied && intents[j].status == Applied
      && AppliedAt(intents[i], c', p) && AppliedAt(intents[j], c', q)
      ensures p < q
    {
      var p', q' :| AppliedAt(intents[i], c, p') && AppliedAt(intents[j], c, q');
      assert AppliedAt(intents[i], c', p') && AppliedAt(intents[j], c', q');
      AppliedAtUnique(intents[i], c', p, p');
      AppliedAtUnique(intents[j], c', q, q');
    }
  }

  /** Committing the unresolved intent puts it at the new end, after everything applied before. */
  lemma CommitAlong(s: State, c: seq<Id>, rid: Id)
    requires StateOk(s) && ChainOk(s, c) && rid !in c
    ensures AppliedAlong(MarkApplied(s.intents, rid), c + [rid])
  {
    var c' := c + [rid];
    var a, b := s.intents, MarkApplied(s.intents, rid);
    AlongGrows(a, c, rid);
    forall k | 0 <= k < |b| && b[k].status == Applied
      ensures exists p :: AppliedAt(b[k], c', p)
      ensures Unresolved(a[k].status) ==> AppliedAt(b[k], c', |c|)
    {
      if Unresolved(a[k].status) {
        assert IntentOk(a[k], s.current);
        assert AppliedAt(b[k], c', |c|);
      }
    }
    forall i, j, p, q | 0 <= i < j < |b| && b[i].status == Applied && b[j].status == Applied
      && AppliedAt(b[i], c', p) && AppliedAt(b[j], c', q)
      ensures p < q
    {
      assert Committed(a[i].status);
      if Unresolved(a[j].status) {
        AppliedAtUnique(b[j], c', q, |c|);
        var p' :| AppliedAt(a[i], c, p');
        assert AppliedAt(b[i], c', p');
        AppliedAtUnique(b[i], c', p, p');
      }
    }
  }

  /** Accepting a fresh response whose parent is `current` extends the chain by it. */
  lemma ChainExtend(s: State, c: seq<Id>, r: Response, s': State)
    requires StateOk(s) && ChainOk(s, c) && r.id !in s.responses && r.previous == s.current
    requires s'.responses == s.responses[r.id := r] && s'.current == Some(r.id)
    requires s'.intents == MarkApplied(s.intents, r.id)
    ensures ChainOk(s', c + [r.id])
  {
    CommitAlong(s, c, r.id);
    LinkedExtend(s, c, r, s');
  }

  lemma LinkedExtend(s: State, c: seq<Id>, r: Response, s': State)
    requires Linked(s, c) && r.id !in s.responses && r.previous == s.current
    requires s'.responses == s.responses[r.id := r] && s'.current == Some(r.id)
    ensures Linked(s', c + [r.id])
  {
    var c' := c + [r.id];
    assert forall id :: id in c' <==> id in c || id == r.id;
    assert Distinct(c') by {
      forall i, j | 0 <= i < j < |c'| ensures c'[i] != c'[j] {
        assert c[i] in s.responses;
      }
    }
    forall k | 0 <= k < |c'| ensures LinkAt(s', c', k) {
      if k < |c| {
        assert c'[k] == c[k] && LinkAt(s, c, k) && Before(c', k) == Before(c, k);
      }
    }
  }

  /** Replacing payloads without changing parents keeps the chain. */
  lemma ChainRefresh(s: State, c: seq<Id>, s': State)
    requires ChainOk(s, c) && s'.current == s.current && s'.responses.Keys == s.responses.Keys
    requires forall id :: id in s.responses ==>
               s'.responses[id].previous == s.responses[id].previous && s'.responses[id].id == s.responses[id].id
    requires forall k :: 0 <= k < |s'.intents| && s'.intents[k].status == Applied ==> k < |s.intents| && s.intents[k] == s'.intents[k]
    ensures ChainOk(s', c)
  {
    AlongTransfer(s.intents, s'.intents, c);
    forall k | 0 <= k < |c| ensures LinkAt(s', c, k) {
      assert LinkAt(s, c, k);
    }
  }

  lemma KnownIds(s: State, c: seq<Id>)
    requires Linked(s, c)
    ensures forall id :: id in s.responses ==> s.responses[id].id == id
  {
    forall id | id in s.responses ensures s.responses[id].id == id {
      var k :| 0 <= k < |c| && c[k] == id;
      assert LinkAt(s, c, k);
    }
  }

  /** A response that claims `current` as its parent is not one of the known ones. */
  lemma SuccessorIsFresh(s: State, c: seq<Id>, child: Response)
    requires Linked(s, c) && child.previous == s.current
    requires child.id in s.responses ==> child.previous == s.responses[child.id].previous
    ensures child.id !in s.responses
  {
    forall k | 0 <= k < |c| ensures s.responses[c[k]].previous != s.current {
      assert LinkAt(s, c, k);
      assert k > 0 ==> c[k - 1] != c[|c| - 1];
    }
  }

  lemma ReceiveChain(s: State, e: Event, c: seq<Id>) returns (c': seq<Id>)
    requires StateOk(s) && ChainOk(s, c)
    requires e.body.Ended? && e.body.response.id in s.responses ==>
               e.body.response.previous == s.responses[e.body.response.id].previous
    ensures c <= c' && ChainOk(OnEvent(s, e).state, c') && (!OnEvent(s, e).Saved? ==> c' == c)
  {
    c' := c;
    var s' := OnEvent(s, e).state;
    if !Truthy(e.lane) {
      if IsSteer(e.body) {
        if |Candidates(s.intents, e.body.steer)| == 1 {
          SteerOk(s, e.body);
          ChainRefresh(s, c, s');
        }
      } else if e.body.Created? {
        CreatedOutcome(s, e.body.response);
        if OnCreated(s, e.body.response).Saved? {
          c' := c + [e.body.response.id];
          ChainExtend(s, c, e.body.response, s');
        }
      } else if e.body.Ended? {
        EndedOk(s, e.body.response);
        KnownIds(s, c);
        ChainRefresh(s, c, s');
      } else {
        ChainRefresh(s, c, s');
      }
    }
  }

  lemma DecideChain(sys: Sys, c: seq<Id>)
    requires Inv(sys) && ChainOk(sys.mem, c) && ChainOk(sys.disk, c)
    ensures ChainOk(AfterDecide(sys).mem, c) && ChainOk(AfterDecide(sys).disk, c)
  {
    DecideOk(sys.mem, sys.saved);
    DecidedChain(sys.mem, Decide(sys.mem, sys.saved).0, Decide(sys.mem, sys.saved).1, c);
  }

  lemma DrainChain(sys: Sys, c: seq<Id>)
    requires Inv(sys) && ChainOk(sys.mem, c) && ChainOk(sys.disk, c)
    ensures ChainOk(AfterDrain(sys).mem, c) && ChainOk(AfterDrain(sys).disk, c)
  {
    ArrivalsAre(sys.inbox, |sys.mem.intents|);
    ChainRefresh(sys.mem, c, Drained(sys.mem, sys.inbox));
  }

  lemma DisconnectChain(sys: Sys, reason: string, c: seq<Id>)
    requires Inv(sys) && ChainOk(sys.mem, c) && ChainOk(sys.disk, c)
    ensures ChainOk(Hungup(sys, reason).mem, c) && ChainOk(Hungup(sys, reason).disk, c)
  {
    DisconnectOk(sys.mem, reason);
    ChainRefresh(sys.mem, c, OnDisconnect(sys.mem, reason));
  }

  lemma RecoverChain(s: State, latest: map<Id, Response>, c: seq<Id>)
    requires StateOk(s) && ChainOk(s, c)
    requires forall id :: id in s.responses && id in latest ==> latest[id].previous == s.responses[id].previous
    ensures ChainOk(Recover(s, latest).0.state, c)
  {
    RecoverOk(s, latest);
    KnownIds(s, c);
    RecoverKeepsParents(s, latest);
    ChainRefresh(s, c, Recover(s, latest).0.state);
  }

  lemma AdoptChain(s: State, saved: map<string, Item>, successor: Id, ev: Evidence, c: seq<Id>)
    requires StateOk(s) && ChainOk(s, c) && Adopt(s, saved, successor, ev).Saved?
    requires ev.child.id in s.responses ==> ev.child.previous == s.responses[ev.child.id].previous
    ensures ChainOk(Adopt(s, saved, successor, ev).state, c + [successor])
  {
    SuccessorIsFresh(s, c, ev.child);
    ChainExtend(s, c, ev.child, Adopt(s, saved, successor, ev).state);
  }

  lemma NextChain(sys: Sys, step: Step, c: seq<Id>) returns (c': seq<Id>)
    requires Inv(sys) && ChainOk(sys.mem, c) && ChainOk(sys.disk, c) && Faithful(sys, step)
    ensures c <= c' && ChainOk(Next(sys, step).mem, c') && ChainOk(Next(sys, step).disk, c')
  {
    c' := c;
    match step {
      case Receive(e) => if Listening(sys) { c' := ReceiveChain(sys.mem, e, c); }
      case AdoptSuccessor(successor, ev) =>
        if sys.mode.Idle? && successor != "" && Adopt(sys.mem, sys.saved, successor, ev).Saved? {
          AdoptChain(sys.mem, sys.saved, successor, ev, c);
          c' := c + [successor];
        }
      case RecoverRest(latest) => RecoverChain(sys.mem, latest, c);
      case DrainInbox => DrainChain(sys, c);
      case DecideNext => DecideChain(sys, c);
      case Disconnect(reason) => DisconnectChain(sys, reason, c);
      case _ =>
    }
  }

  lemma DecidedChain(s: State, s': State, req: Option<Request>, c: seq<Id>)
    requires ChainOk(s, c) && Decided(s, s', req)
    ensures ChainOk(s', c)
  {
    ChainRefresh(s, c, s');
  }

  lemma RecoverKeepsParents(s: State, latest: map<Id, Response>)
    requires StateOk(s)
    requires forall id :: id in s.responses && id in latest ==> latest[id].previous == s.responses[id].previous
    requires forall id :: id in s.responses ==> s.responses[id].id == id
    ensures forall id :: id in s.responses ==>
              var s' := Recover(s, latest).0.state;
              id in s'.responses && s'.responses[id].previous == s.responses[id].previous && s'.responses[id].id == id
  {
    RecoverOk(s, latest);
    var rs := Refreshed(s.responses, latest);
    RefreshedIs(s.responses, latest);
    var s1 := s.(responses := rs);
    if !(AnyUnresolved(s.intents) || s.create.Some?) && CanRefresh(s.responses, latest) {
      forall id | id in s.responses ensures rs[id].previous == s.responses[id].previous && rs[id].id == id {
      }
      if Terminal(CurrentStatus(s1)) && Readable(rs[s1.current.value].output) {
        FinishOk(s1.(required := RequiredFrom(rs[s1.current.value].output), phase := Waiting, error := None));
      }
    }
  }

  lemma {:induction false} RunChain(sys: Sys, steps: seq<Step>, c: seq<Id>) returns (c': seq<Id>)
    requires Inv(sys) && ChainOk(sys.mem, c) && ChainOk(sys.disk, c) && FaithfulRun(sys, steps)
    ensures c <= c' && ChainOk(Run(sys, steps).disk, c') && ChainOk(Run(sys, steps).mem, c')
    decreases |steps|
  {
    if steps == [] {
      c' := c;
    } else {
      NextOk(sys, steps[0]);
      var c1 := NextChain(sys, steps[0], c);
      c' := RunChain(Next(sys, steps[0]), steps[1..], c1);
    }
  }

  /**
    One linear chain.  With a provider that keeps parents fixed, the responses known
    after any run form one acyclic chain ending at `current`, every applied update sits
    on it right after the response it was sent to, and in queue order.
  */
  lemma OneChain(session: string, prompt: string, steps: seq<Step>)
    requires FaithfulRun(Init(session, prompt), steps)
    ensures exists c :: ChainOk(Run(Init(session, prompt), steps).disk, c)
  {
    var c := RunChain(Init(session, prompt), steps, []);
  }

  /** The chain only grows, whatever happens between two points of a run. */
  lemma ChainOnlyGrows(session: string, prompt: string, early: seq<Step>, late: seq<Step>)
    requires var sys := Init(session, prompt); FaithfulRun(sys, early) && FaithfulRun(Run(sys, early), late)
    ensures exists c, c' :: c <= c' && ChainOk(Run(Init(session, prompt), early).disk, c)
                            && ChainOk(Run(Run(Init(session, prompt), early), late).disk, c')
  {
    var sys := Init(session, prompt);
    var c := RunChain(sys, early, []);
    RunOk(sys, early);
    var c' := RunChain(Run(sys, early), late, c);
  }
}
