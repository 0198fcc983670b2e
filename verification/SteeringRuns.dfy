/**
  Whole runs of the steering owner.

  A run interleaves producers, the owner, the provider and crashes.  A crash may
  fall between any two durable writes: the two writes of `next_request` and the
  two of `reconcile` are separate steps.  One owner at a time is the OS lock's
  promise, so `Open` needs the previous owner gone.
*/
module SteeringRuns {
  import opened Prelude
  import opened SteeringState
  import opened SteeringInvariants

  datatype Row = Row(id: Id, text: string, consumed: bool)

  /**
    Down: no owner process.  Idle: loaded.  Cleared: recovery succeeded.  Live: connected.
    Unwinding: an event raised, and what remains is to disconnect.
  */
  datatype Mode = Down | Idle | Cleared | Live | Unwinding

  /** `outbox` is a request made durable but not yet on the wire; `wire` is all that was sent. */
  datatype Sys = Sys(
    disk: State, inbox: seq<Row>, saved: map<string, Item>,
    mode: Mode, mem: State, outbox: Option<Request>, wire: seq<Request>)

  datatype Step =
    | Enqueue(id: Id, text: string)
    | SubmitResult(item: Item)
    | Open
    | Connect
    | DrainInbox
    | DecideNext
    | Send
    | Receive(event: Event)
    | Disconnect(reason: string)
    | Crash
    | AdoptSuccessor(successor: Id, evidence: Evidence)
    | RecoverRest(latest: map<Id, Response>)

  function Init(session: string, prompt: string): Sys {
    var s := InitialState(session, prompt);
    Sys(s, [], map[], Down, s, None, [])
  }

  /** The characters `str.strip` removes. */
  predicate Space(c: char) {
    '\t' <= c <= '\r' || '\U{1c}' <= c <= ' ' || c == '\U{85}' || c == '\U{a0}' || c == '\U{1680}'
    || '\U{2000}' <= c <= '\U{200a}' || c == '\U{2028}' || c == '\U{2029}' || c == '\U{202f}'
    || c == '\U{205f}' || c == '\U{3000}'
  }

  predicate Blank(text: string) {
    forall k :: 0 <= k < |text| ==> Space(text[k])
  }

  predicate HasId(inbox: seq<Row>, id: Id) {
    exists k :: 0 <= k < |inbox| && inbox[k].id == id
  }

  /** The unconsumed rows, in row order, as fresh intents. */
  function Arrivals(inbox: seq<Row>): seq<Intent> {
    if inbox == [] then []
    else
      var last, init := inbox[|inbox| - 1], Arrivals(inbox[..|inbox| - 1]);
      if last.consumed then init else init + [NewIntent(last.id, last.text)]
  }

  function ConsumeAll(inbox: seq<Row>): (r: seq<Row>)
    ensures |r| == |inbox|
  {
    seq(|inbox|, k requires 0 <= k < |inbox| => inbox[k].(consumed := true))
  }

  function Drained(s: State, inbox: seq<Row>): State {
    s.(intents := s.intents + Arrivals(inbox))
  }

  function Stop(sys: Sys): Sys {
    sys.(mode := Down, mem := sys.disk, outbox := None)
  }

  function Keep(sys: Sys, s: State): Sys {
    sys.(disk := s, mem := s)
  }

  function Enqueued(sys: Sys, id: Id, text: string): Sys {
    if Blank(text) || HasId(sys.inbox, id) then sys
    else sys.(inbox := sys.inbox + [Row(id, text, false)])
  }

  function Submitted(sys: Sys, item: Item): Sys {
    var key := ResultKey(item.kind, item.ref);
    if key in sys.saved || key !in sys.disk.required || !WellShaped(item) then sys
    else sys.(saved := sys.saved[key := item])
  }

  function Opened(sys: Sys): Sys {
    if sys.mode.Down? then sys.(mode := Idle, mem := sys.disk) else sys
  }

  /** `run` connects a journal that never ran; `resume` one whose recovery succeeded. */
  function Connected(sys: Sys): Sys {
    if (sys.mode.Idle? && sys.mem.phase == New) || (sys.mode.Cleared? && sys.mem.phase != Halted)
    then Keep(sys, sys.mem).(mode := Live) else sys
  }

  function AfterDrain(sys: Sys): Sys {
    if sys.mode.Live? then Keep(sys, Drained(sys.mem, sys.inbox)).(inbox := ConsumeAll(sys.inbox)) else sys
  }

  function AfterDecide(sys: Sys): Sys {
    if sys.mode.Live? && sys.outbox.None? then
      var (s, request) := Decide(sys.mem, sys.saved);
      if request.Some? then Keep(sys, s).(outbox := request) else sys
    else sys
  }

  function AfterSend(sys: Sys): Sys {
    if sys.mode.Live? && sys.outbox.Some?
    then sys.(wire := sys.wire + [sys.outbox.value], outbox := None) else sys
  }

  /** The loop sends what it decided before it reads, and decides the first request before anything else. */
  predicate Listening(sys: Sys) {
    sys.mode.Live? && sys.outbox.None? && sys.mem.phase != New
  }

  function Received(sys: Sys, event: Event): Sys {
    if Listening(sys) then
      match OnEvent(sys.mem, event)
      case Saved(s) => Keep(sys, s)
      case Skipped(s) => sys.(mem := s)
      case Raised(s, _) => sys.(mem := s, mode := Unwinding)
    else sys
  }

  function Hungup(sys: Sys, reason: string): Sys {
    if sys.mode.Live? || sys.mode.Unwinding? then Stop(Keep(sys, OnDisconnect(sys.mem, reason))) else sys
  }

  function Adopted(sys: Sys, successor: Id, evidence: Evidence): Sys {
    if sys.mode.Idle? && successor != "" then
      var o := Adopt(sys.mem, sys.saved, successor, evidence);
      if o.Saved? then Keep(sys, o.state) else Stop(sys)
    else sys
  }

  function Recovered(sys: Sys, latest: map<Id, Response>): Sys {
    if sys.mode.Idle? then
      var (o, success) := Recover(sys.mem, latest);
      if !o.Saved? then Stop(sys)
      else if success then Keep(sys, o.state).(mode := Cleared)
      else Keep(sys, o.state)
    else sys
  }

  function Next(sys: Sys, step: Step): Sys {
    match step
    case Enqueue(id, text) => Enqueued(sys, id, text)
    case SubmitResult(item) => Submitted(sys, item)
    case Open => Opened(sys)
    case Connect => Connected(sys)
    case DrainInbox => AfterDrain(sys)
    case DecideNext => AfterDecide(sys)
    case Send => AfterSend(sys)
    case Receive(event) => Received(sys, event)
    case Disconnect(reason) => Hungup(sys, reason)
    case Crash => Stop(sys)
    case AdoptSuccessor(successor, evidence) => Adopted(sys, successor, evidence)
    case RecoverRest(latest) => Recovered(sys, latest)
  }

  function Run(sys: Sys, steps: seq<Step>): Sys
    decreases |steps|
  {
    if steps == [] then sys else Run(Next(sys, steps[0]), steps[1..])
  }

  // ---------------------------------------------------------------- what was sent

  function InFlight(sys: Sys): seq<Request> {
    if sys.outbox.Some? then sys.wire + [sys.outbox.value] else sys.wire
  }

  predicate CarriesUpdate(r: Request) {
    r.Steer? || r.CreateFollowUp?
  }

  function UpdateIds(rs: seq<Request>): seq<Id> {
    if rs == [] then []
    else
      var last, init := rs[|rs| - 1], UpdateIds(rs[..|rs| - 1]);
      if CarriesUpdate(last) then init + [last.local] else init
  }

  function Prompts(rs: seq<Request>): nat {
    if rs == [] then 0
    else Prompts(rs[..|rs| - 1]) + if rs[|rs| - 1].CreatePrompt? then 1 else 0
  }

  /** The ids of the intents that left the queue, in queue order. */
  function LeftQueue(intents: seq<Intent>): seq<Id> {
    if intents == [] then []
    else
      var last, init := intents[|intents| - 1], LeftQueue(intents[..|intents| - 1]);
      if last.status != Queued then init + [last.id] else init
  }

  lemma {:induction false} LeftQueueSame(a: seq<Intent>, b: seq<Intent>)
    requires SameQueue(a, b)
    ensures LeftQueue(a) == LeftQueue(b)
  {
    if a != [] { LeftQueueSame(a[..|a| - 1], b[..|b| - 1]); }
  }

  lemma {:induction false} LeftQueueAppend(a: seq<Intent>, b: seq<Intent>)
    requires forall k :: 0 <= k < |b| ==> b[k].status == Queued
    ensures LeftQueue(a + b) == LeftQueue(a)
  {
    if b == [] {
      assert a + b == a;
    } else {
      LeftQueueAppend(a, b[..|b| - 1]);
      assert (a + b)[..|a + b| - 1] == a + b[..|b| - 1];
    }
  }

  /** Taking the first queued intent adds its id at the end. */
  lemma LeftQueueTake(a: seq<Intent>, k: nat, i: Intent)
    requires k < |a| && i.status != Queued && i.id == a[k].id
    requires forall j :: k <= j < |a| ==> a[j].status == Queued
    ensures LeftQueue(a[k := i]) == LeftQueue(a) + [i.id]
  {
    var tail := a[k + 1..];
    LeftQueueAppend(a[..k] + [i], tail);
    LeftQueueAppend(a[..k], a[k..]);
    assert a[k := i] == a[..k] + [i] + tail;
    assert a == a[..k] + a[k..];
    assert (a[..k] + [i])[..k] == a[..k];
  }

  lemma {:induction false} LeftQueueIds(a: seq<Intent>, ids: seq<Id>)
    requires |ids| == |a| && forall k :: 0 <= k < |a| ==> ids[k] == a[k].id
    ensures Subsequence(LeftQueue(a), ids)
  {
    if a != [] {
      var a', ids' := a[..|a| - 1], ids[..|ids| - 1];
      LeftQueueIds(a', ids');
      if a[|a| - 1].status == Queued {
        SubsequenceExtend(LeftQueue(a'), ids', [ids[|ids| - 1]]);
        assert ids == ids' + [ids[|ids| - 1]];
      } else {
        assert LeftQueue(a)[..|LeftQueue(a)| - 1] == LeftQueue(a');
      }
    }
  }

  // ---------------------------------------------------------------- the run invariant

  ghost predicate InboxOk(inbox: seq<Row>, intents: seq<Intent>) {
    && |intents| <= |inbox|
    && (forall k :: 0 <= k < |inbox| ==> (inbox[k].consumed <==> k < |intents|))
    && (forall k :: 0 <= k < |intents| ==> intents[k].id == inbox[k].id && intents[k].text == inbox[k].text)
    && (forall i, j :: 0 <= i < j < |inbox| ==> inbox[i].id != inbox[j].id)
  }

  /** Memory runs ahead of the journal only by statuses of intents already in flight and by payloads of known responses. */
  ghost predicate InStep(mem: State, disk: State) {
    && mem == disk.(intents := mem.intents, responses := mem.responses)
    && mem.responses.Keys == disk.responses.Keys
    && SameQueue(mem.intents, disk.intents)
    && Keeps(mem.intents, disk.intents) && Keeps(disk.intents, mem.intents)
  }

  /** A request carrying an update carries the text of the intent it names. */
  ghost predicate Truthful(r: Request, s: State) {
    && (r.CreatePrompt? ==> r.text == s.prompt)
    && (CarriesUpdate(r) ==> exists k :: 0 <= k < |s.intents| && s.intents[k].id == r.local && s.intents[k].text == r.text)
  }

  ghost predicate SentOk(sent: seq<Request>, s: State) {
    && Subsequence(UpdateIds(sent), LeftQueue(s.intents))
    && Prompts(sent) <= (if s.phase == New then 0 else 1)
    && forall k :: 0 <= k < |sent| ==> Truthful(sent[k], s)
  }

  ghost predicate SavedOk(saved: map<string, Item>) {
    forall key :: key in saved ==> ResultKey(saved[key].kind, saved[key].ref) == key
  }

  ghost predicate Inv(sys: Sys) {
    && StateOk(sys.mem) && StateOk(sys.disk) && InStep(sys.mem, sys.disk)
    && (!sys.mode.Unwinding? ==> sys.mem == sys.disk)
    && (sys.outbox.Some? ==> sys.mode.Live? && sys.disk.phase != New)
    && InboxOk(sys.inbox, sys.disk.intents)
    && SentOk(InFlight(sys), sys.disk)
    && SavedOk(sys.saved)
  }

  lemma SentSame(sent: seq<Request>, s: State, s': State)
    requires SentOk(sent, s) && SameQueue(s.intents, s'.intents) && s'.prompt == s.prompt
    requires s'.phase == New ==> s.phase == New
    ensures SentOk(sent, s')
  {
    LeftQueueSame(s.intents, s'.intents);
    forall k | 0 <= k < |sent| && CarriesUpdate(sent[k]) ensures Truthful(sent[k], s') {
      assert Truthful(sent[k], s);
      var j :| 0 <= j < |s.intents| && s.intents[j].id == sent[k].local && s.intents[j].text == sent[k].text;
      assert s'.intents[j].id == sent[k].local;
    }
    assert forall k :: 0 <= k < |sent| ==> Truthful(sent[k], s);
  }

  lemma SentDropOutbox(sys: Sys)
    requires SentOk(InFlight(sys), sys.disk)
    ensures SentOk(sys.wire, sys.disk)
  {
    if sys.outbox.Some? {
      var sent, r := InFlight(sys), sys.outbox.value;
      assert sent[..|sent| - 1] == sys.wire;
      if CarriesUpdate(r) { SubsequencePrefix(UpdateIds(sys.wire), r.local, LeftQueue(sys.disk.intents)); }
      assert forall k :: 0 <= k < |sys.wire| ==> sys.wire[k] == sent[k];
    } else {
      assert InFlight(sys) == sys.wire;
    }
  }

  lemma {:induction false} ArrivalsAre(inbox: seq<Row>, n: nat)
    requires n <= |inbox|
    requires forall k :: 0 <= k < |inbox| ==> (inbox[k].consumed <==> k < n)
    ensures var a := Arrivals(inbox);
            && |a| == |inbox| - n
            && forall k :: 0 <= k < |a| ==> a[k] == NewIntent(inbox[n + k].id, inbox[n + k].text)
  {
    if inbox != [] {
      var init, last := inbox[..|inbox| - 1], inbox[|inbox| - 1];
      if n == |inbox| {
        ArrivalsAre(init, n - 1);
      } else {
        ArrivalsAre(init, n);
        assert Arrivals(inbox) == Arrivals(init) + [NewIntent(last.id, last.text)];
      }
    }
  }

  lemma DrainStateOk(s: State, a: seq<Intent>)
    requires StateOk(s)
    requires forall k :: 0 <= k < |a| ==> a[k] == NewIntent(a[k].id, a[k].text)
    ensures StateOk(s.(intents := s.intents + a))
    ensures Keeps(s.intents, s.intents + a)
  {
    var after := s.intents + a;
    forall i, j | 0 <= i < j < |after| && after[j].status != Queued
      ensures Committed(after[i].status)
    {
      assert after[i] == s.intents[i] && after[j] == s.intents[j];
    }
  }

  /** Growing the queue, or taking its head, keeps every request truthful. */
  lemma TruthfulGrows(r: Request, s: State, s': State)
    requires Truthful(r, s) && s'.prompt == s.prompt && |s.intents| <= |s'.intents|
    requires forall k :: 0 <= k < |s.intents| ==> s'.intents[k].id == s.intents[k].id && s'.intents[k].text == s.intents[k].text
    ensures Truthful(r, s')
  {
    if CarriesUpdate(r) {
      var j :| 0 <= j < |s.intents| && s.intents[j].id == r.local && s.intents[j].text == r.text;
      assert s'.intents[j].id == r.local && s'.intents[j].text == r.text;
    }
  }

  lemma DrainSentOk(sent: seq<Request>, s: State, a: seq<Intent>)
    requires SentOk(sent, s)
    requires forall k :: 0 <= k < |a| ==> a[k].status == Queued
    ensures SentOk(sent, s.(intents := s.intents + a))
  {
    LeftQueueAppend(s.intents, a);
    forall k | 0 <= k < |sent| ensures Truthful(sent[k], s.(intents := s.intents + a)) {
      TruthfulGrows(sent[k], s, s.(intents := s.intents + a));
    }
  }

  lemma DrainInboxOk(inbox: seq<Row>, intents: seq<Intent>)
    requires InboxOk(inbox, intents)
    ensures InboxOk(ConsumeAll(inbox), intents + Arrivals(inbox))
    ensures forall k :: 0 <= k < |Arrivals(inbox)| ==> Arrivals(inbox)[k] == NewIntent(Arrivals(inbox)[k].id, Arrivals(inbox)[k].text)
  {
    ArrivalsAre(inbox, |intents|);
  }

  /** One step keeps the invariant, and every applied intent on disk. */
  ghost predicate GoodStep(sys: Sys, sys': Sys) {
    Inv(sys') && Keeps(sys.disk.intents, sys'.disk.intents)
  }

  lemma DrainOk(sys: Sys)
    requires Inv(sys)
    ensures GoodStep(sys, AfterDrain(sys))
  {
    if sys.mode.Live? {
      var s := sys.mem;
      DrainInboxOk(sys.inbox, s.intents);
      DrainStateOk(s, Arrivals(sys.inbox));
      SentSame(InFlight(sys), sys.disk, s);
      DrainSentOk(InFlight(sys), s, Arrivals(sys.inbox));
      assert InFlight(AfterDrain(sys)) == InFlight(sys);
    }
  }

  lemma SnocCounts(rs: seq<Request>, r: Request)
    ensures UpdateIds(rs + [r]) == if CarriesUpdate(r) then UpdateIds(rs) + [r.local] else UpdateIds(rs)
    ensures Prompts(rs + [r]) == Prompts(rs) + if r.CreatePrompt? then 1 else 0
  {
    assert (rs + [r])[..|rs + [r]| - 1] == rs;
  }

  lemma DecidedTruthful(sent: seq<Request>, s: State, s': State, r: Request)
    requires (forall k :: 0 <= k < |sent| ==> Truthful(sent[k], s)) && Decided(s, s', Some(r))
    ensures forall k :: 0 <= k < |sent + [r]| ==> Truthful((sent + [r])[k], s')
  {
    if CarriesUpdate(r) {
      var k := FirstQueued(s.intents);
      assert s'.intents[k].id == r.local && s'.intents[k].text == r.text;
    }
    forall j | 0 <= j < |sent| ensures Truthful(sent[j], s') {
      TruthfulGrows(sent[j], s, s');
    }
  }

  lemma DecidedIds(ids: seq<Id>, s: State, s': State, r: Request)
    requires Subsequence(ids, LeftQueue(s.intents)) && Decided(s, s', Some(r))
    ensures Subsequence(if CarriesUpdate(r) then ids + [r.local] else ids, LeftQueue(s'.intents))
  {
    if CarriesUpdate(r) {
      var k := FirstQueued(s.intents);
      LeftQueueTake(s.intents, k, s'.intents[k]);
      SubsequenceSnoc(ids, LeftQueue(s.intents), r.local);
    }
  }

  lemma DecidedSentOk(sent: seq<Request>, s: State, s': State, r: Request)
    requires SentOk(sent, s) && Decided(s, s', Some(r))
    ensures SentOk(sent + [r], s')
  {
    SnocCounts(sent, r);
    DecidedIds(UpdateIds(sent), s, s', r);
    DecidedTruthful(sent, s, s', r);
  }

  lemma DecidedOk(sys: Sys, s: State, r: Request)
    requires Inv(sys) && sys.mode.Live? && sys.outbox.None? && Decided(sys.mem, s, Some(r))
    ensures GoodStep(sys, Keep(sys, s).(outbox := Some(r)))
  {
    SentSame(sys.wire, sys.disk, sys.mem);
    DecidedSentOk(sys.wire, sys.mem, s, r);
    DecidedInbox(sys.inbox, sys.disk.intents, sys.mem, s, r);
    OutboxOk(sys, s, r);
  }

  /** A state made durable together with its request. */
  lemma OutboxOk(sys: Sys, s: State, r: Request)
    requires sys.mode.Live? && StateOk(s) && InboxOk(sys.inbox, s.intents) && SentOk(sys.wire + [r], s) && SavedOk(sys.saved)
    requires Keeps(sys.disk.intents, s.intents) && s.phase != New
    ensures GoodStep(sys, Keep(sys, s).(outbox := Some(r)))
  {
    assert InFlight(Keep(sys, s).(outbox := Some(r))) == sys.wire + [r];
  }

  lemma DecidedInbox(inbox: seq<Row>, intents: seq<Intent>, s: State, s': State, r: Request)
    requires InboxOk(inbox, intents) && SameQueue(s.intents, intents) && Keeps(intents, s.intents) && Decided(s, s', Some(r))
    ensures InboxOk(inbox, s'.intents) && Keeps(intents, s'.intents)
  {
  }

  lemma DecideStepOk(sys: Sys)
    requires Inv(sys)
    ensures GoodStep(sys, AfterDecide(sys))
  {
    if sys.mode.Live? && sys.outbox.None? {
      var (s, request) := Decide(sys.mem, sys.saved);
      DecideOk(sys.mem, sys.saved);
      if request.Some? { DecidedOk(sys, s, request.value); }
    }
  }

  lemma InStepSelf(s: State)
    ensures InStep(s, s)
  {
  }

  lemma SteeredInStep(s: State, s': State)
    requires Steered(s, s') && s'.required == s.required && s'.phase == s.phase && s'.error == s.error
    ensures InStep(s', s)
  {
  }

  lemma EndedInStep(s: State, r: Response)
    requires StateOk(s) && OnEnded(s, r).Raised?
    ensures InStep(OnEnded(s, r).state, s)
  {
    EndedOk(s, r);
  }

  /** What an event that is not saved leaves in memory stays in step with the journal. */
  lemma UnsavedInStep(s: State, e: Event)
    requires StateOk(s) && !OnEvent(s, e).Saved?
    ensures InStep(OnEvent(s, e).state, s) && (OnEvent(s, e).Skipped? ==> OnEvent(s, e).state == s)
  {
    InStepSelf(s);
    if Truthy(e.lane) || e.body.Shapeless? {
    } else if IsSteer(e.body) {
      if |Candidates(s.intents, e.body.steer)| == 1 {
        SteerOk(s, e.body);
        SteeredInStep(s, OnEvent(s, e).state);
      }
    } else if e.body.Created? {
      CreatedOutcome(s, e.body.response);
    } else if e.body.Ended? {
      EndedInStep(s, e.body.response);
    }
  }

  /** Replacing the state by one with the same queue, in memory and on disk, keeps the invariant. */
  lemma KeepOk(sys: Sys, s: State)
    requires Inv(sys) && StateOk(s) && SameQueue(sys.mem.intents, s.intents) && Keeps(sys.mem.intents, s.intents)
    requires s.prompt == sys.mem.prompt && (s.phase == New ==> sys.mem.phase == New)
    ensures GoodStep(sys, Keep(sys, s))
  {
    SentSame(InFlight(sys), sys.disk, s);
    assert InFlight(Keep(sys, s)) == InFlight(sys);
  }

  lemma StopOk(sys: Sys)
    requires Inv(sys)
    ensures GoodStep(sys, Stop(sys))
  {
    SentDropOutbox(sys);
    assert InFlight(Stop(sys)) == sys.wire;
  }

  lemma AheadOk(sys: Sys, s: State)
    requires Inv(sys) && Listening(sys) && StateOk(s) && InStep(s, sys.mem)
    ensures GoodStep(sys, sys.(mem := s, mode := Unwinding))
  {
    assert InFlight(sys.(mem := s, mode := Unwinding)) == InFlight(sys);
  }

  lemma ReceiveOk(sys: Sys, e: Event)
    requires Inv(sys)
    ensures GoodStep(sys, Received(sys, e))
  {
    if Listening(sys) {
      var o := OnEvent(sys.mem, e);
      EventOk(sys.mem, e);
      if o.Saved? {
        KeepOk(sys, o.state);
      } else {
        UnsavedInStep(sys.mem, e);
        AheadOk(sys, o.state);
        assert o.Skipped? ==> Received(sys, e) == sys;
      }
    }
  }

  lemma EnqueueOk(sys: Sys, id: Id, text: string)
    requires Inv(sys)
    ensures GoodStep(sys, Enqueued(sys, id, text))
  {
    if !Blank(text) && !HasId(sys.inbox, id) {
      var before, after := sys.inbox, sys.inbox + [Row(id, text, false)];
      assert forall k :: 0 <= k < |before| ==> after[k] == before[k];
      forall i, j | 0 <= i < j < |after| ensures after[i].id != after[j].id {
        if j == |before| { assert before[i].id != id; }
      }
      assert InFlight(Enqueued(sys, id, text)) == InFlight(sys);
    }
  }

  lemma ConnectOk(sys: Sys)
    requires Inv(sys)
    ensures GoodStep(sys, Opened(sys)) && GoodStep(sys, Connected(sys))
  {
    KeepOk(sys, sys.mem);
    assert InFlight(Opened(sys)) == InFlight(sys);
    assert InFlight(Connected(sys)) == InFlight(Keep(sys, sys.mem));
  }

  lemma SendOk(sys: Sys)
    requires Inv(sys)
    ensures GoodStep(sys, AfterSend(sys))
  {
    assert InFlight(AfterSend(sys)) == InFlight(sys);
  }

  lemma SubmitOk(sys: Sys, item: Item)
    requires Inv(sys)
    ensures GoodStep(sys, Submitted(sys, item))
  {
    var sys' := Submitted(sys, item);
    var key := ResultKey(item.kind, item.ref);
    assert SavedOk(sys.saved[key := item]);
    assert sys' == sys.(saved := sys'.saved);
    assert InFlight(sys') == InFlight(sys);
  }

  lemma DisconnectStepOk(sys: Sys, reason: string)
    requires Inv(sys)
    ensures GoodStep(sys, Hungup(sys, reason))
  {
    DisconnectOk(sys.mem, reason);
    KeepOk(sys, OnDisconnect(sys.mem, reason));
    StopOk(Keep(sys, OnDisconnect(sys.mem, reason)));
  }

  lemma AdoptStepOk(sys: Sys, successor: Id, ev: Evidence)
    requires Inv(sys)
    ensures GoodStep(sys, Adopted(sys, successor, ev))
  {
    AdoptOk(sys.mem, sys.saved, successor, ev);
    KeepOk(sys, Adopt(sys.mem, sys.saved, successor, ev).state);
    StopOk(sys);
  }

  lemma RecoverStepOk(sys: Sys, latest: map<Id, Response>)
    requires Inv(sys)
    ensures GoodStep(sys, Recovered(sys, latest))
  {
    var s := Recover(sys.mem, latest).0.state;
    RecoverOk(sys.mem, latest);
    KeepOk(sys, s);
    StopOk(sys);
    assert InFlight(Keep(sys, s).(mode := Cleared)) == InFlight(Keep(sys, s));
  }

  lemma NextOk(sys: Sys, step: Step)
    requires Inv(sys)
    ensures GoodStep(sys, Next(sys, step))
  {
    match step {
      case Enqueue(id, text) => EnqueueOk(sys, id, text);
      case SubmitResult(item) => SubmitOk(sys, item);
      case Open => ConnectOk(sys);
      case Connect => ConnectOk(sys);
      case DrainInbox => DrainOk(sys);
      case DecideNext => DecideStepOk(sys);
      case Send => SendOk(sys);
      case Receive(e) => ReceiveOk(sys, e);
      case Disconnect(reason) => DisconnectStepOk(sys, reason);
      case Crash => StopOk(sys);
      case AdoptSuccessor(successor, ev) => AdoptStepOk(sys, successor, ev);
      case RecoverRest(latest) => RecoverStepOk(sys, latest);
    }
  }

  lemma {:induction false} RunOk(sys: Sys, steps: seq<Step>)
    requires Inv(sys)
    ensures Inv(Run(sys, steps))
    decreases |steps|
  {
    if steps != [] {
      NextOk(sys, steps[0]);
      RunOk(Next(sys, steps[0]), steps[1..]);
    }
  }

  lemma ReachableOk(session: string, prompt: string, steps: seq<Step>)
    ensures Inv(Run(Init(session, prompt), steps))
  {
    RunOk(Init(session, prompt), steps);
  }

  // ---------------------------------------------------------------- no replay, first in first out

  function RowIds(inbox: seq<Row>): (ids: seq<Id>)
    ensures |ids| == |inbox|
  {
    seq(|inbox|, k requires 0 <= k < |inbox| => inbox[k].id)
  }

  /**
    No replay.  Whatever the producers, the provider, the operator and the crashes
    do, the prompt reaches the wire at most once, no update reaches it twice, updates
    reach it in the order they were accepted, and each with the text it was accepted with.
  */
  lemma NoReplay(session: string, prompt: string, steps: seq<Step>)
    ensures var sys := Run(Init(session, prompt), steps);
            && Prompts(sys.wire) <= 1
            && Distinct(UpdateIds(sys.wire))
            && Subsequence(UpdateIds(sys.wire), RowIds(sys.inbox))
            && forall k :: 0 <= k < |sys.wire| && CarriesUpdate(sys.wire[k]) ==>
                 exists j :: 0 <= j < |sys.inbox| && sys.inbox[j].id == sys.wire[k].local && sys.inbox[j].text == sys.wire[k].text
  {
    var sys := Run(Init(session, prompt), steps);
    ReachableOk(session, prompt, steps);
    SentDropOutbox(sys);
    var s := sys.disk;
    var ids := RowIds(sys.inbox)[..|s.intents|];
    LeftQueueIds(s.intents, ids);
    SubsequenceTransitive(UpdateIds(sys.wire), LeftQueue(s.intents), ids);
    SubsequenceExtend(UpdateIds(sys.wire), ids, RowIds(sys.inbox)[|s.intents|..]);
    assert ids + RowIds(sys.inbox)[|s.intents|..] == RowIds(sys.inbox);
    SubsequenceDistinct(UpdateIds(sys.wire), RowIds(sys.inbox));
    forall k | 0 <= k < |sys.wire| && CarriesUpdate(sys.wire[k])
      ensures exists j :: 0 <= j < |sys.inbox| && sys.inbox[j].id == sys.wire[k].local && sys.inbox[j].text == sys.wire[k].text
    {
      assert Truthful(sys.wire[k], s);
      var j :| 0 <= j < |s.intents| && s.intents[j].id == sys.wire[k].local && s.intents[j].text == sys.wire[k].text;
      assert sys.inbox[j].id == sys.wire[k].local;
    }
  }

  /**
    Nothing accepted is lost or doubled.  At every durable point the journal's intents
    are exactly the consumed rows, in row order, and the consumed rows come first.
  */
  lemma AcceptedExactlyOnce(session: string, prompt: string, steps: seq<Step>)
    ensures var sys := Run(Init(session, prompt), steps);
            var n := |sys.disk.intents|;
            && n <= |sys.inbox|
            && (forall k :: 0 <= k < |sys.inbox| ==> (sys.inbox[k].consumed <==> k < n))
            && (forall k :: 0 <= k < n ==> sys.disk.intents[k].id == sys.inbox[k].id && sys.disk.intents[k].text == sys.inbox[k].text)
            && Distinct(RowIds(sys.inbox))
  {
    ReachableOk(session, prompt, steps);
  }

  /** An id once accepted keeps its place and its text, and a saved result its value, through any run. */
  ghost predicate RowsKept(a: seq<Row>, b: seq<Row>) {
    && |a| <= |b|
    && forall k :: 0 <= k < |a| ==> b[k].id == a[k].id && b[k].text == a[k].text
  }

  ghost predicate ResultsKept(a: map<string, Item>, b: map<string, Item>) {
    forall key :: key in a ==> key in b && b[key] == a[key]
  }

  lemma {:induction false} AcceptedForever(sys: Sys, steps: seq<Step>)
    ensures RowsKept(sys.inbox, Run(sys, steps).inbox) && ResultsKept(sys.saved, Run(sys, steps).saved)
    decreases |steps|
  {
    if steps != [] {
      assert RowsKept(sys.inbox, Next(sys, steps[0]).inbox) && ResultsKept(sys.saved, Next(sys, steps[0]).saved);
      AcceptedForever(Next(sys, steps[0]), steps[1..]);
    }
  }

  /** Applied is final: no later step, crash or recovery changes an applied intent. */
  lemma {:induction false} AppliedForever(sys: Sys, steps: seq<Step>)
    requires Inv(sys)
    ensures Keeps(sys.disk.intents, Run(sys, steps).disk.intents)
    decreases |steps|
  {
    if steps != [] {
      var sys1 := Next(sys, steps[0]);
      NextOk(sys, steps[0]);
      AppliedForever(sys1, steps[1..]);
      var a, b, c := sys.disk.intents, sys1.disk.intents, Run(sys1, steps[1..]).disk.intents;
      forall k | 0 <= k < |a| && a[k].status == Applied ensures c[k] == a[k] {
        assert b[k] == a[k];
      }
    }
  }

  // ---------------------------------------------------------------- the queue, and continuations

  lemma {:induction false} SettledFirst(intents: seq<Intent>, n: nat) returns (m: nat)
    requires n <= |intents| && forall k :: 0 <= k < n ==> Committed(intents[k].status)
    ensures n <= m <= |intents|
    ensures forall k :: 0 <= k < m ==> Committed(intents[k].status)
    ensures m < |intents| ==> !Committed(intents[m].status)
    decreases |intents| - n
  {
    if n == |intents| || !Committed(intents[n].status) { m := n; } else { m := SettledFirst(intents, n + 1); }
  }

  /** At every durable point: settled intents, then at most one in flight to `current`, then only queued ones. */
  lemma QueueShape(session: string, prompt: string, steps: seq<Step>) returns (n: nat)
    ensures var s := Run(Init(session, prompt), steps).disk;
            && n <= |s.intents|
            && (forall k :: 0 <= k < n ==> Committed(s.intents[k].status))
            && (forall k :: n < k < |s.intents| ==> s.intents[k].status == Queued)
            && (n < |s.intents| && s.intents[n].status != Queued ==>
                  Unresolved(s.intents[n].status) && s.current.Some? && s.intents[n].parent == s.current)
  {
    ReachableOk(session, prompt, steps);
    var s := Run(Init(session, prompt), steps).disk;
    n := SettledFirst(s.intents, 0);
    assert n < |s.intents| ==> IntentOk(s.intents[n], s.current);
  }

  /** A continuation answers every required input, in order, and only when no steer awaits its acknowledgement. */
  lemma ContinuationIsComplete(s: State, saved: map<string, Item>, items: seq<Item>, parent: Option<Id>)
    requires SavedOk(saved) && Decide(s, saved).1 == Some(CreateResults(items, parent))
    ensures Terminal(CurrentStatus(s)) && parent == s.current && |items| == |s.required| > 0
    ensures forall k :: 0 <= k < |items| ==> ResultKey(items[k].kind, items[k].ref) == s.required[k]
    ensures forall k :: 0 <= k < |s.intents| ==> s.intents[k].status !in {Sending, Accepted}
  {
    assert SavedResults(saved, s.required) == Some(items);
  }
}
