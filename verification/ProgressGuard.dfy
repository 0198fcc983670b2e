/**
  The per-session progress guard: bounded caches updated in place, checked against
  the unbounded histories of GuardHistory.

  A call arrives already classified; its result is given by the parts the guard reads.
*/
module ProgressGuard {
  import opened Prelude
  import opened GuardHistory

  const EXPLORATION_THRESHOLD: nat := 24
  const CHECKPOINT_THRESHOLD: nat := 48
  const REPEATED_EXPLORATION_THRESHOLD: nat := 5
  const ZERO_EVIDENCE_THRESHOLD: nat := 3
  const TRUNCATED_THRESHOLD: nat := 2
  const REPEATED_STATUS_THRESHOLD: nat := 3
  const EPOCHS: nat := 0x1_0000_0000_0000_0000

  datatype Class = Exploration | Mutation | Validation(command: string) | Status(command: string) | Waiting | Other

  datatype Evidence = Evidence(zeroMatches: bool, truncated: bool)

  datatype Transition = Transition(path: string, previous: Option<string>, content: string)

  /**
    One tool call with its result: `failed` when the result is an error, `encoded` the
    serialized result if there is one, `applied` whether a mutation took effect.
  */
  datatype Call = Call(
    class_: Class, signature: Option<string>, failed: bool, encoded: Option<string>,
    evidence: Option<Evidence>, applied: bool, transition: Option<Transition>)

  datatype Warning =
    | RepeatedValidation | Polling | RepeatedStatus | ZeroMatches | TruncatedResults | Unchanged
    | RepeatedTarget | ManyInvestigations | Checkpoint | WorkspaceRevisit

  type Tracked = map<string, string>

  datatype Validated = Validated(epoch: nat, state: Tracked, command: string)

  datatype Mark = Visit(state: Tracked) | Forget

  /** The states recorded since tracking was last given up. */
  function Visited(trail: seq<Mark>): seq<Tracked> {
    if trail == [] then []
    else
      match trail[|trail| - 1]
      case Visit(state) => Visited(trail[..|trail| - 1]) + [state]
      case Forget => []
  }

  lemma VisitedSnoc(trail: seq<Mark>, m: Mark)
    ensures Visited(trail + [m]) == match m case Visit(state) => Visited(trail) + [state] case Forget => []
  {
    assert (trail + [m])[..|trail|] == trail;
  }

  /** This command ran on this tracked state. */
  ghost predicate RanBefore(ran: seq<Validated>, state: Tracked, command: string) {
    exists v :: v in ran && v.state == state && v.command == command
  }

  /** Within one epoch the kept validations repeat only what ran before, and all of it up to 512 different ones. */
  lemma RanBeforeIs(ran: seq<Validated>, v: Validated)
    requires forall w :: w in ran ==> w.epoch == v.epoch
    ensures v in Queue(ran) ==> RanBefore(ran, v.state, v.command)
    ensures |Elements(ran)| <= HISTORY_LIMIT ==> (v in Queue(ran) <==> RanBefore(ran, v.state, v.command))
  {
    QueueExact(ran);
    assert v in Queue(ran) <==> v in Elements(Queue(ran));
    assert forall w :: w in ran && w.state == v.state && w.command == v.command ==> w == v;
  }

  /** s was among the most recently observed signatures, last with this very content, and c is worth a marker. */
  ghost predicate Repeats(obs: seq<Observation>, s: string, c: string) {
    s in LastN(Recency(obs), HISTORY_LIMIT) && Latest(obs, s) == Some(c) && |c| >= MIN_REUSABLE_BYTES
  }

  lemma RepeatsIs(obs: seq<Observation>, queue: seq<string>, cache: map<string, string>, s: string, c: string)
    requires CacheOk(obs, queue, cache)
    ensures Repeats(obs, s, c) <==> s in cache && cache[s] == c && |c| >= MIN_REUSABLE_BYTES
  {
    assert s in cache <==> s in Elements(queue);
  }

  /** What the guard believes about the workspace: trail, tracked hashes, and the validations of the current epoch. */
  datatype Ground = Ground(trail: seq<Mark>, state: Tracked, ran: seq<Validated>, epoch: nat)

  /** An edit of unknown extent: validations are fresh again. */
  function Opaque(g: Ground): Ground {
    g.(ran := [], epoch := (g.epoch + 1) % EPOCHS)
  }

  /** Tracking is given up. */
  function Reset(g: Ground): Ground {
    Opaque(g.(trail := g.trail + [Forget], state := map[]))
  }

  /** Too many paths: tracking is given up for a path not tracked yet. */
  function MakeRoom(g: Ground, path: string): Ground {
    if |g.state| >= TRACKED_PATH_LIMIT && path !in g.state then Reset(g) else g
  }

  /** Another writer changed the file: tracking is given up. */
  function Distrust(g: Ground, path: string, previous: string): Ground {
    if path in g.state && g.state[path] != previous then Reset(g) else g
  }

  /** A first edit of a path also records the state before it. */
  function Baseline(g: Ground, path: string, previous: string): Ground {
    if path in g.state then g
    else g.(trail := g.trail + [Visit(g.state[path := previous])], state := g.state[path := previous])
  }

  function Prepared(g: Ground, t: Transition): Ground {
    match t.previous
    case None => MakeRoom(g, t.path)
    case Some(p) => Baseline(Distrust(MakeRoom(g, t.path), t.path, p), t.path, p)
  }

  datatype Arrival = Arrival(ground: Ground, warning: Option<Warning>)

  /** A tracked edit ends on its new content and warns exactly when that state is still in the bounded queue. */
  function Lands(t: Transition, g: Ground): Arrival {
    var state := g.state[t.path := t.content];
    Arrival(g.(trail := g.trail + [Visit(state)], state := state),
            if state in Queue(Visited(g.trail)) then Some(WorkspaceRevisit) else None)
  }

  function Moves(t: Transition, before: Ground): Arrival {
    Lands(t, Prepared(before, t))
  }

  /** An applied mutation with or without a known hash transition. */
  function Mutates(transition: Option<Transition>, before: Ground): Arrival {
    match transition
    case None => Arrival(Opaque(before), None)
    case Some(t) => Moves(t, before)
  }

  /** A revisit warning is always true: the tracked hashes equal a state recorded since tracking was last given up. */
  lemma RevisitIsReal(t: Transition, before: Ground)
    requires Moves(t, before).warning.Some?
    ensures Moves(t, before).ground.state in Visited(Prepared(before, t).trail)
  {
    var seen := Visited(Prepared(before, t).trail);
    QueueExact(seen);
    assert Moves(t, before).ground.state in Elements(Queue(seen));
  }

  lemma InterferenceGround(t: Transition, before: Ground)
    requires t.path in before.state && t.previous.Some? && t.previous.value != before.state[t.path]
    ensures var found := map[t.path := t.previous.value];
            Prepared(before, t) == Ground(before.trail + [Forget] + [Visit(found)], found, [], (before.epoch + 1) % EPOCHS)
  {
    assert map[][t.path := t.previous.value] == map[t.path := t.previous.value];
  }

  lemma FoundAlone(trail: seq<Mark>, found: Tracked)
    ensures Visited(trail + [Forget] + [Visit(found)]) == [found] && Queue([found]) == [found]
  {
    VisitedSnoc(trail, Forget);
    VisitedSnoc(trail + [Forget], Visit(found));
    assert [found][..0] == [];
  }

  /** Another writer's change makes the guard forget: only the state it found and the new one count from then on. */
  lemma InterferenceForgets(t: Transition, before: Ground)
    requires t.path in before.state && t.previous.Some? && t.previous.value != before.state[t.path]
    ensures var found, state := map[t.path := t.previous.value], map[t.path := t.content];
            && Moves(t, before).ground
               == Ground(before.trail + [Forget] + [Visit(found)] + [Visit(state)], state, [], (before.epoch + 1) % EPOCHS)
            && (Moves(t, before).warning.Some? <==> t.content == t.previous.value)
  {
    var found, state := map[t.path := t.previous.value], map[t.path := t.content];
    InterferenceGround(t, before);
    FoundAlone(before.trail, found);
    assert found[t.path := t.content] == state;
    assert state[t.path] == t.content && found[t.path] == t.previous.value;
  }

  lemma FirstEdit(path: string, first: string, second: string, before: Ground)
    requires path !in before.state && |before.state| < TRACKED_PATH_LIMIT
    ensures var found, edited := before.state[path := first], before.state[path := second];
            Moves(Transition(path, Some(first), second), before).ground
            == before.(trail := before.trail + [Visit(found)] + [Visit(edited)], state := edited)
  {
    assert before.state[path := first][path := second] == before.state[path := second];
  }

  lemma TwoMore<T(!new)>(seen: seq<T>, x: T, y: T)
    ensures |Elements(seen + [x] + [y])| <= |Elements(seen)| + 2 && x in seen + [x] + [y]
  {
    var all := seen + [x] + [y];
    assert all[|seen|] == x;
    assert Elements(all) == Elements(seen) + {x} + {y};
  }

  lemma UndoRoom(path: string, first: string, second: string, before: Ground)
    requires path !in before.state
    ensures var found, edited := before.state[path := first], before.state[path := second];
            var seen := Visited(before.trail + [Visit(found)] + [Visit(edited)]);
            |Elements(seen)| <= |Elements(Visited(before.trail))| + 2 && found in seen && edited[path := first] == found
  {
    var found, edited := before.state[path := first], before.state[path := second];
    VisitedSnoc(before.trail, Visit(found));
    VisitedSnoc(before.trail + [Visit(found)], Visit(edited));
    TwoMore(Visited(before.trail), found, edited);
    assert edited[path := first] == found;
  }

  /** Going back to a recorded state is noticed. */
  lemma ReturnIsNoticed(path: string, first: string, g: Ground)
    requires path in g.state && g.state[path := first] in Visited(g.trail) && |Elements(Visited(g.trail))| <= HISTORY_LIMIT
    ensures Moves(Transition(path, Some(g.state[path]), first), g).warning.Some?
  {
    UninterruptedReturn(Transition(path, Some(g.state[path]), first), g);
  }

  /** An edit of a new path records what it found, so undoing it is noticed at once. */
  lemma UndoIsNoticed(path: string, first: string, second: string, before: Ground)
    requires path !in before.state && |before.state| < TRACKED_PATH_LIMIT
    requires |Elements(Visited(before.trail))| + 2 <= HISTORY_LIMIT
    ensures var edited := Moves(Transition(path, Some(first), second), before).ground;
            Moves(Transition(path, Some(second), first), edited).warning.Some?
  {
    FirstEdit(path, first, second, before);
    UndoRoom(path, first, second, before);
    ReturnIsNoticed(path, first, Moves(Transition(path, Some(first), second), before).ground);
  }

  /** After an edit of unknown extent every validation is fresh. */
  lemma OpaqueEditRefreshes(command: string, before: Ground)
    ensures Validates(command, Mutates(None, before).ground).warning == None
    ensures Mutates(None, before) == Arrival(Ground(before.trail, before.state, [], (before.epoch + 1) % EPOCHS), None)
  {
    assert Queue<Validated>([]) == [];
  }

  /** Editing a tracked file nobody else touched resets nothing, and every return among 512 states is noticed. */
  lemma UninterruptedReturn(t: Transition, before: Ground)
    requires t.path in before.state && (t.previous.Some? ==> t.previous.value == before.state[t.path])
    requires |Elements(Visited(before.trail))| <= HISTORY_LIMIT
    ensures var state := before.state[t.path := t.content];
            && Moves(t, before).ground == before.(trail := before.trail + [Visit(state)], state := state)
            && (Moves(t, before).warning.Some? <==> state in Visited(before.trail))
  {
    var seen, state := Visited(before.trail), before.state[t.path := t.content];
    QueueExact(seen);
    assert state in Queue(seen) <==> state in Elements(Queue(seen));
  }

  /** The content of this call was delivered in full earlier in the log, with no edit since. */
  ghost predicate Backed(log: seq<Entry>, call: Call) {
    call.signature.Some? && call.encoded.Some? && exists j :: Delivered(log, j, call.signature.value, call.encoded.value)
  }

  /** The log after a call, and whether its result was replaced by a marker. */
  datatype Recorded = Recorded(log: seq<Entry>, marker: bool)

  /** A comparable result is always recorded, and becomes a marker exactly when it repeats. */
  ghost function Compared(call: Call, before: seq<Entry>): Recorded {
    if call.failed || call.signature.None? || call.encoded.None? then Recorded(before, false)
    else
      var marker := Repeats(SinceMutation(before), call.signature.value, call.encoded.value);
      Recorded(before + [Observed(call.signature.value, call.encoded.value, !marker)], marker)
  }

  /** An investigation that ends a streak is warned about and not compared; every other one is compared. */
  ghost function Explored(call: Call, before: seq<Entry>, c: Counts): Recorded {
    if EndsStreak(c, call.evidence) then Recorded(before, false) else Compared(call, before)
  }

  ghost function Logged(call: Call, before: seq<Entry>, c: Counts): Recorded {
    match call.class_
    case Mutation => Recorded(if call.failed || !call.applied then before else before + [Mutated], false)
    case Exploration => Explored(call, before, c)
    case _ => Recorded(before, false)
  }

  /** A marker is only given for content that was delivered in full, with no edit since. */
  lemma MarkersAreBacked(call: Call, before: seq<Entry>, c: Counts)
    requires Honest(before) && Logged(call, before, c).marker
    ensures Backed(before, call)
  {
    MarkersAreJustified(before);
    var j := LatestWasDelivered(before, call.signature.value);
  }

  /** A validation is recorded, and warned about exactly when the bounded queue still holds it. */
  function Validates(command: string, g: Ground): Arrival {
    var v := Validated(g.epoch, g.state, command);
    Arrival(g.(ran := g.ran + [v]), if v in Queue(g.ran) then Some(RepeatedValidation) else None)
  }

  /** An applied mutation or a validation changes what is known of the workspace; no other call does. */
  function Arrives(call: Call, g: Ground): Arrival {
    match call.class_
    case Mutation => if call.failed || !call.applied then Arrival(g, None) else Mutates(call.transition, g)
    case Validation(command) => Validates(command, g)
    case _ => Arrival(g, None)
  }

  /** The signals since the last clear, after this call. */
  function NextSignals(call: Call, signals: seq<bool>): seq<bool> {
    match call.class_
    case Mutation => if call.failed || !call.applied then signals else []
    case Validation(_) => []
    case Waiting => if Alarm(signals + [true]) then [] else signals + [true]
    case _ => signals + [false]
  }

  /** A repetition: among the last 512 signatures, with the content it had last, and that content of at least 512 bytes. */
  lemma RepetitionMeans(obs: seq<Observation>, s: string, c: string)
    ensures Repeats(obs, s, c) <==> AmongLast(Recency(obs), 512, s) && Latest(obs, s) == Some(c) && |c| >= 512
  {
    InTail(Recency(obs), 512, s);
  }

  lemma ReuseStep(obs: seq<Observation>, queue: seq<string>, cache: map<string, string>, s: string, c: string)
    requires (queue, cache) == CacheAfter(obs)
    ensures Repeats(obs, s, c) <==> s in cache && cache[s] == c && |c| >= MIN_REUSABLE_BYTES
  {
    CacheIsExact(obs);
    RepeatsIs(obs, queue, cache, s, c);
  }

  // ---------------------------------------------------------------- streaks

  /** A counter and the value it counts. */
  datatype Streak = Streak(count: nat, last: Option<string>)

  function Count(s: Streak, x: Option<string>): nat {
    if x.None? then 0 else if s.last == x then s.count + 1 else 1
  }

  predicate Completes(s: Streak, x: Option<string>, limit: nat) {
    x.Some? && Count(s, x) >= limit
  }

  function Advance(s: Streak, x: Option<string>, limit: nat): Streak {
    Streak(if Completes(s, x, limit) then 0 else Count(s, x), x)
  }

  /** The counter after these values, since the last reset. */
  function AdvanceAll(xs: seq<Option<string>>, limit: nat): Streak {
    if xs == [] then Streak(0, None) else Advance(AdvanceAll(xs[..|xs| - 1], limit), xs[|xs| - 1], limit)
  }

  function LastOf(xs: seq<Option<string>>): Option<string> {
    if xs == [] then None else xs[|xs| - 1]
  }

  /** How many equal values end the list. */
  function RunOf(xs: seq<Option<string>>): nat {
    if xs == [] || LastOf(xs).None? then 0
    else if LastOf(xs[..|xs| - 1]) == LastOf(xs) then RunOf(xs[..|xs| - 1]) + 1
    else 1
  }

  /** A streak warns exactly on every limit-th consecutive repetition of one value since the last reset. */
  lemma {:induction false} EveryNth(xs: seq<Option<string>>, x: Option<string>, limit: nat)
    requires limit > 0
    ensures AdvanceAll(xs, limit) == Streak(RunOf(xs) % limit, LastOf(xs))
    ensures Completes(AdvanceAll(xs, limit), x, limit) <==> x.Some? && RunOf(xs + [x]) % limit == 0
    decreases |xs|
  {
    if xs != [] {
      var init, last := xs[..|xs| - 1], xs[|xs| - 1];
      EveryNth(init, last, limit);
      assert xs == init + [last];
      NextMod(RunOf(init), limit);
    }
    assert (xs + [x])[..|xs|] == xs;
    NextMod(RunOf(xs), limit);
  }

  lemma NextMod(n: nat, limit: nat)
    requires limit > 0
    ensures (n + 1) % limit == if n % limit + 1 >= limit then 0 else n % limit + 1
    ensures 1 % limit == if 1 >= limit then 0 else 1
  {
    var q, r := n / limit, n % limit;
    assert n + 1 == q * limit + (r + 1);
    if r + 1 == limit {
      assert (q + 1) * limit == q * limit + limit;
      Remainder(n + 1, q + 1, limit, 0);
    } else {
      Remainder(n + 1, q, limit, r + 1);
    }
    if limit > 1 { Remainder(1, 0, limit, 1); }
  }

  lemma Remainder(n: nat, q: nat, limit: nat, r: nat)
    requires r < limit && n == q * limit + r
    ensures n % limit == r
  {
    var d := n / limit - q;
    assert d * limit == (n / limit) * limit - q * limit == r - n % limit;
    NoMultiple(d, limit);
  }

  lemma NoMultiple(d: int, limit: int)
    requires limit > 0 && -limit < d * limit < limit
    ensures d == 0
  {
    assert d >= 1 ==> d * limit >= 1 * limit;
    assert d <= -1 ==> d * limit <= -1 * limit;
  }

  /** The two counters of empty and of truncated searches. */
  datatype Counts = Counts(zeroes: nat, truncations: nat)

  predicate ZeroWarns(c: Counts, e: Option<Evidence>) {
    e.Some? && e.value.zeroMatches && c.zeroes + 1 >= ZERO_EVIDENCE_THRESHOLD
  }

  predicate TruncatedWarns(c: Counts, e: Option<Evidence>) {
    !ZeroWarns(c, e) && e.Some? && e.value.truncated && c.truncations + 1 >= TRUNCATED_THRESHOLD
  }

  /** The result completes a streak of empty or of truncated searches. */
  predicate EndsStreak(c: Counts, e: Option<Evidence>) {
    ZeroWarns(c, e) || TruncatedWarns(c, e)
  }

  function Weigh(c: Counts, e: Option<Evidence>): Counts {
    Counts(if e.Some? && e.value.zeroMatches && !ZeroWarns(c, e) then c.zeroes + 1 else 0,
           if e.Some? && e.value.truncated && !TruncatedWarns(c, e) then c.truncations + 1 else 0)
  }

  function WeighAll(es: seq<Option<Evidence>>): Counts {
    if es == [] then Counts(0, 0) else Weigh(WeighAll(es[..|es| - 1]), es[|es| - 1])
  }

  /** How many results without a match end the list, and how many truncated ones. */
  function EmptyRun(es: seq<Option<Evidence>>): nat {
    if es == [] || es[|es| - 1].None? || !es[|es| - 1].value.zeroMatches then 0 else EmptyRun(es[..|es| - 1]) + 1
  }

  function TruncatedRun(es: seq<Option<Evidence>>): nat {
    if es == [] || es[|es| - 1].None? || !es[|es| - 1].value.truncated then 0 else TruncatedRun(es[..|es| - 1]) + 1
  }

  lemma {:induction false} EmptyCount(es: seq<Option<Evidence>>)
    ensures WeighAll(es).zeroes == EmptyRun(es) % ZERO_EVIDENCE_THRESHOLD
  {
    if es != [] { EmptyCount(es[..|es| - 1]); }
  }

  lemma {:induction false} TruncatedCount(es: seq<Option<Evidence>>)
    ensures WeighAll(es).truncations <= TruncatedRun(es)
  {
    if es != [] { TruncatedCount(es[..|es| - 1]); }
  }

  /** Since the last reset, the first warning comes exactly on every third consecutive search without a match. */
  lemma EmptyStreak(es: seq<Option<Evidence>>, e: Option<Evidence>)
    ensures ZeroWarns(WeighAll(es), e) <==> EmptyRun(es + [e]) > 0 && EmptyRun(es + [e]) % ZERO_EVIDENCE_THRESHOLD == 0
  {
    assert (es + [e])[..|es|] == es;
    EmptyCount(es);
  }

  /** The second needs two consecutive truncated results, and two of them never pass without one of the warnings. */
  lemma TruncatedStreak(es: seq<Option<Evidence>>, e: Option<Evidence>)
    ensures TruncatedWarns(WeighAll(es), e) ==> TruncatedRun(es + [e]) >= 2
    ensures TruncatedRun(es + [e]) >= 2 ==>
              ZeroWarns(WeighAll(es), e) || TruncatedWarns(WeighAll(es), e)
              || (es != [] && TruncatedWarns(WeighAll(es[..|es| - 1]), es[|es| - 1]))
  {
    assert (es + [e])[..|es|] == es;
    TruncatedCount(es);
  }

  /** All that is being counted: investigations, one status command, one target, empty and truncated searches. */
  datatype Streaks = Streaks(explorations: nat, status: Streak, target: Streak, searches: Counts)

  const NO_STREAKS := Streaks(0, Streak(0, None), Streak(0, None), Counts(0, 0))

  // ---------------------------------------------------------------- the answer to a call

  /** The pace of investigation: warned about at the 24th, and from the 48th on every time. */
  function Paced(n: nat): Option<Warning> {
    if n == EXPLORATION_THRESHOLD then Some(ManyInvestigations)
    else if n >= CHECKPOINT_THRESHOLD then Some(Checkpoint) else None
  }

  /** A result that is compared: the n-th investigation is of this target after the ones counted. */
  function ComparedReply(call: Call, marker: bool, target: Streak, n: nat): Option<Warning> {
    if marker then Some(Unchanged)
    else if Completes(target, call.signature, REPEATED_EXPLORATION_THRESHOLD) then Some(RepeatedTarget)
    else Paced(n)
  }

  /** A result is first weighed as evidence. */
  function WeighedReply(call: Call, c: Counts, marker: bool, target: Streak, n: nat): Option<Warning> {
    if ZeroWarns(c, call.evidence) then Some(ZeroMatches)
    else if TruncatedWarns(c, call.evidence) then Some(TruncatedResults)
    else ComparedReply(call, marker, target, n)
  }

  ghost function Reply(call: Call, st: Streaks, log: seq<Entry>, signals: seq<bool>, g: Ground): Option<Warning> {
    match call.class_
    case Waiting => if Alarm(signals + [true]) then Some(Polling) else Paced(st.explorations + 1)
    case Status(command) =>
      if Completes(st.status, Some(command), REPEATED_STATUS_THRESHOLD) then Some(RepeatedStatus) else Paced(st.explorations + 1)
    case Exploration => WeighedReply(call, st.searches, Compared(call, log).marker, st.target, st.explorations + 1)
    case _ => Arrives(call, g).warning
  }

  /** The investigation was answered before its target was compared with the last one. */
  predicate CutShort(warning: Option<Warning>) {
    warning in {Some(ZeroMatches), Some(TruncatedResults), Some(Unchanged)}
  }

  function NextStreaks(call: Call, st: Streaks, warning: Option<Warning>): Streaks {
    match call.class_
    case Mutation => if call.failed || !call.applied then st else NO_STREAKS
    case Validation(_) => NO_STREAKS
    case Waiting => st.(explorations := st.explorations + 1, searches := Counts(0, 0))
    case Status(command) =>
      st.(explorations := st.explorations + 1, searches := Counts(0, 0),
          status := Advance(st.status, Some(command), REPEATED_STATUS_THRESHOLD))
    case Exploration =>
      st.(explorations := st.explorations + 1, searches := Weigh(st.searches, call.evidence),
          target := if CutShort(warning) then st.target else Advance(st.target, call.signature, REPEATED_EXPLORATION_THRESHOLD))
    case Other => st.(searches := Counts(0, 0))
  }

  // ---------------------------------------------------------------- the history of a session

  /** One observed call and its answer. */
  datatype Turn = Turn(call: Call, warning: Option<Warning>)

  /** An applied mutation or a validation starts every count anew. */
  predicate Restarts(call: Call) {
    call.class_.Validation? || (call.class_.Mutation? && !call.failed && call.applied)
  }

  predicate Investigates(call: Call) {
    call.class_.Exploration? || call.class_.Status? || call.class_.Waiting?
  }

  /** Investigations since the last restart. */
  function Investigations(turns: seq<Turn>): nat {
    if turns == [] || Restarts(turns[|turns| - 1].call) then 0
    else Investigations(turns[..|turns| - 1]) + if Investigates(turns[|turns| - 1].call) then 1 else 0
  }

  /** Status commands since the last restart. */
  function Commands(turns: seq<Turn>): seq<Option<string>> {
    if turns == [] || Restarts(turns[|turns| - 1].call) then []
    else
      var rest, call := Commands(turns[..|turns| - 1]), turns[|turns| - 1].call;
      if call.class_.Status? then rest + [Some(call.class_.command)] else rest
  }

  /** Targets compared since the last restart. */
  function Targets(turns: seq<Turn>): seq<Option<string>> {
    if turns == [] || Restarts(turns[|turns| - 1].call) then []
    else
      var rest, last := Targets(turns[..|turns| - 1]), turns[|turns| - 1];
      if last.call.class_.Exploration? && !CutShort(last.warning) then rest + [last.call.signature] else rest
  }

  /** Search results since the last restart or the last call of another kind, failed edits apart. */
  function Findings(turns: seq<Turn>): seq<Option<Evidence>> {
    if turns == [] then []
    else
      var rest, call := Findings(turns[..|turns| - 1]), turns[|turns| - 1].call;
      if call.class_.Exploration? then rest + [call.evidence]
      else if call.class_.Mutation? && !Restarts(call) then rest
      else []
  }

  function Counted(turns: seq<Turn>): Streaks {
    Streaks(Investigations(turns), AdvanceAll(Commands(turns), REPEATED_STATUS_THRESHOLD),
            AdvanceAll(Targets(turns), REPEATED_EXPLORATION_THRESHOLD), WeighAll(Findings(turns)))
  }

  lemma AdvanceSnoc(xs: seq<Option<string>>, x: Option<string>, limit: nat)
    ensures AdvanceAll(xs + [x], limit) == Advance(AdvanceAll(xs, limit), x, limit)
  {
    assert (xs + [x])[..|xs|] == xs;
  }

  lemma WeighSnoc(es: seq<Option<Evidence>>, e: Option<Evidence>)
    ensures WeighAll(es + [e]) == Weigh(WeighAll(es), e)
  {
    assert (es + [e])[..|es|] == es;
  }

  /** The counters are the counts of the history. */
  lemma CountedNext(turns: seq<Turn>, turn: Turn)
    ensures Counted(turns + [turn]) == NextStreaks(turn.call, Counted(turns), turn.warning)
  {
    assert (turns + [turn])[..|turns|] == turns;
    var call := turn.call;
    if call.class_.Status? {
      AdvanceSnoc(Commands(turns), Some(call.class_.command), REPEATED_STATUS_THRESHOLD);
    } else if call.class_.Exploration? {
      AdvanceSnoc(Targets(turns), call.signature, REPEATED_EXPLORATION_THRESHOLD);
      WeighSnoc(Findings(turns), call.evidence);
    }
  }

  /** On every n-th consecutive repetition of one value. */
  predicate NthRepetition(xs: seq<Option<string>>, x: Option<string>, n: nat)
    requires n > 0
  {
    x.Some? && RunOf(xs + [x]) % n == 0
  }

  predicate ThirdEmpty(es: seq<Option<Evidence>>, e: Option<Evidence>) {
    EmptyRun(es + [e]) > 0 && EmptyRun(es + [e]) % ZERO_EVIDENCE_THRESHOLD == 0
  }

  /** The answer to a call, read off the history of the session. */
  ghost function Answer(call: Call, turns: seq<Turn>, log: seq<Entry>, signals: seq<bool>, g: Ground): Option<Warning> {
    var paced := Paced(Investigations(turns) + 1);
    match call.class_
    case Waiting => if Alarm(signals + [true]) then Some(Polling) else paced
    case Status(command) => if NthRepetition(Commands(turns), Some(command), REPEATED_STATUS_THRESHOLD) then Some(RepeatedStatus) else paced
    case Exploration =>
      if ThirdEmpty(Findings(turns), call.evidence) then Some(ZeroMatches)
      else if TruncatedWarns(WeighAll(Findings(turns)), call.evidence) then Some(TruncatedResults)
      else if Compared(call, log).marker then Some(Unchanged)
      else if NthRepetition(Targets(turns), call.signature, REPEATED_EXPLORATION_THRESHOLD) then Some(RepeatedTarget)
      else paced
    case _ => Arrives(call, g).warning
  }

  /** The counters answer as the history says. */
  lemma ReplyIsAnswer(call: Call, turns: seq<Turn>, log: seq<Entry>, signals: seq<bool>, g: Ground)
    ensures Reply(call, Counted(turns), log, signals, g) == Answer(call, turns, log, signals, g)
  {
    if call.class_.Status? {
      EveryNth(Commands(turns), Some(call.class_.command), REPEATED_STATUS_THRESHOLD);
    } else if call.class_.Exploration? {
      EveryNth(Targets(turns), call.signature, REPEATED_EXPLORATION_THRESHOLD);
      EmptyStreak(Findings(turns), call.evidence);
    }
  }

  lemma OneMore(xs: seq<Option<string>>, x: Option<string>)
    ensures RunOf(xs + [x]) == if x.None? then 0 else if LastOf(xs) == x then RunOf(xs) + 1 else 1
  {
    assert (xs + [x])[..|xs|] == xs;
  }

  /** Landmarks of a session: the third status check in a row, the third empty search, the fifth look at one target, the 24th and the 48th investigation. */
  lemma Landmarks(call: Call, turns: seq<Turn>, log: seq<Entry>, signals: seq<bool>, g: Ground)
    ensures var answer := Answer(call, turns, log, signals, g);
            && (call.class_.Status? && RunOf(Commands(turns)) == 2 && LastOf(Commands(turns)) == Some(call.class_.command) ==>
                  answer == Some(RepeatedStatus))
            && (call.class_.Exploration? && call.evidence.Some? && call.evidence.value.zeroMatches && EmptyRun(Findings(turns)) == 2 ==>
                  answer == Some(ZeroMatches))
            && (call.class_.Exploration? && call.evidence.None? && !Compared(call, log).marker ==>
                  && (call.signature.Some? && LastOf(Targets(turns)) == call.signature && RunOf(Targets(turns)) == 4 ==>
                        answer == Some(RepeatedTarget))
                  && (LastOf(Targets(turns)) != call.signature && Investigations(turns) == 23 ==> answer == Some(ManyInvestigations)))
            && (call.class_.Waiting? && !Alarm(signals + [true]) && Investigations(turns) >= 47 ==> answer == Some(Checkpoint))
  {
    if call.class_.Status? {
      OneMore(Commands(turns), Some(call.class_.command));
    } else if call.class_.Exploration? {
      OneMore(Targets(turns), call.signature);
      EmptyNone(Findings(turns), call.evidence);
    }
  }

  lemma EmptyNone(es: seq<Option<Evidence>>, e: Option<Evidence>)
    ensures EmptyRun(es + [e]) == if e.None? || !e.value.zeroMatches then 0 else EmptyRun(es) + 1
  {
    assert (es + [e])[..|es|] == es;
  }

  /** What the answer implies: a marker only for backed content, the alarm only for waits, and the workspace warnings. */
  lemma AnswerFacts(call: Call, turns: seq<Turn>, log: seq<Entry>, signals: seq<bool>, g: Ground)
    requires Honest(log)
    ensures var answer := Answer(call, turns, log, signals, g);
            && (Logged(call, log, Counted(turns).searches).marker ==> answer == Some(Unchanged) && Backed(log, call))
            && (answer == Some(Polling) <==> call.class_.Waiting? && Alarm(signals + [true]))
            && (call.class_.Mutation? || call.class_.Validation? ==> answer == Arrives(call, g).warning)
  {
    ReplyIsAnswer(call, turns, log, signals, g);
    if Logged(call, log, Counted(turns).searches).marker { MarkersAreBacked(call, log, Counted(turns).searches); }
  }

  class SessionProgress {
    var toolCount: nat
    var explorationSinceProgress: nat
    var mutationCount: nat
    var validationCount: nat
    var repeatedStatusCount: nat
    var lastStatusCommand: Option<string>
    var recentWaiting: seq<bool>
    var repeatedExplorationCount: nat
    var lastExplorationSignature: Option<string>
    var zeroEvidenceSearches: nat
    var truncatedExploration: nat
    var warningCount: nat
    var workspaceEpoch: nat
    var workspaceHashes: Tracked
    var recentStates: seq<Tracked>
    var seenStates: set<Tracked>
    var recentValidations: seq<Validated>
    var seenValidations: set<Validated>
    var recentObservations: seq<string>
    var observationHashes: map<string, string>

    ghost var log: seq<Entry>
    ghost var trail: seq<Mark>
    ghost var ran: seq<Validated>
    ghost var signals: seq<bool>
    ghost var turns: seq<Turn>

    /** The observation cache follows the log, and no marker in the log was given without reason. */
    ghost predicate ObservationsOk()
      reads this`log, this`recentObservations, this`observationHashes
    {
      (recentObservations, observationHashes) == CacheAfter(SinceMutation(log)) && Honest(log)
    }

    ghost predicate StatesOk()
      reads this`trail, this`recentStates, this`seenStates, this`workspaceHashes
    {
      FifoOk(recentStates, seenStates, Visited(trail)) && |workspaceHashes| <= TRACKED_PATH_LIMIT
    }

    /** Validations since the last opaque mutation all carry the current epoch. */
    ghost predicate ValidationsOk()
      reads this`ran, this`recentValidations, this`seenValidations, this`workspaceEpoch
    {
      FifoOk(recentValidations, seenValidations, ran) && forall v :: v in ran ==> v.epoch == workspaceEpoch
    }

    ghost predicate WaitingOk()
      reads this`signals, this`recentWaiting
    {
      recentWaiting == LastN(signals, WAITING_WINDOW) && !Alarm(signals)
    }

    ghost predicate Valid()
      reads this
    {
      ObservationsOk() && StatesOk() && ValidationsOk() && WaitingOk() && Running() == Counted(turns)
    }

    /** Whatever the calls of a session, every marker it ever issued is justified. */
    lemma EveryMarkerJustified()
      requires Valid()
      ensures Justified(log)
    {
      MarkersAreJustified(log);
    }

    /** Its cache holds the latest content of exactly the 512 most recently observed signatures since the last mutation. */
    lemma CacheIsBoundedView()
      requires Valid()
      ensures CacheOk(SinceMutation(log), recentObservations, observationHashes)
    {
      CacheIsExact(SinceMutation(log));
    }

    constructor ()
      ensures Valid()
      ensures log == [] && trail == [] && ran == [] && signals == [] && turns == [] && workspaceHashes == map[]
    {
      toolCount, explorationSinceProgress, mutationCount, validationCount := 0, 0, 0, 0;
      repeatedStatusCount, lastStatusCommand, recentWaiting := 0, None, [];
      repeatedExplorationCount, lastExplorationSignature := 0, None;
      zeroEvidenceSearches, truncatedExploration, warningCount := 0, 0, 0;
      workspaceEpoch, workspaceHashes, recentStates, seenStates := 0, map[], [], {};
      recentValidations, seenValidations := [], {};
      recentObservations, observationHashes := [], map[];
      log, trail, ran, signals, turns := [], [], [], [], [];
    }

    // -------------------------------------------------------------- streaks

    method ResetResultStreaks()
      modifies this`zeroEvidenceSearches, this`truncatedExploration
      ensures zeroEvidenceSearches == 0 && truncatedExploration == 0
    {
      zeroEvidenceSearches, truncatedExploration := 0, 0;
    }

    ghost function Running(): Streaks
      reads this`explorationSinceProgress, this`repeatedStatusCount, this`lastStatusCommand, this`repeatedExplorationCount,
            this`lastExplorationSignature, this`zeroEvidenceSearches, this`truncatedExploration
    {
      Streaks(explorationSinceProgress, Streak(repeatedStatusCount, lastStatusCommand),
              Streak(repeatedExplorationCount, lastExplorationSignature), Counts(zeroEvidenceSearches, truncatedExploration))
    }

    method ResetActivityStreaks()
      modifies this`explorationSinceProgress, this`repeatedStatusCount, this`lastStatusCommand, this`recentWaiting,
               this`repeatedExplorationCount, this`lastExplorationSignature, this`zeroEvidenceSearches,
               this`truncatedExploration, this`signals
      ensures signals == [] && recentWaiting == [] && Running() == NO_STREAKS
    {
      explorationSinceProgress, repeatedStatusCount, lastStatusCommand := 0, 0, None;
      recentWaiting, repeatedExplorationCount, lastExplorationSignature := [], 0, None;
      signals := [];
      ResetResultStreaks();
    }

    /**
      Fires exactly when four of the last eight signals since the last clear are waits;
      a signal that is not a wait never fires, so callers may ignore its answer.
    */
    method ObserveWaitingSignal(waiting: bool) returns (fired: bool)
      requires WaitingOk()
      modifies this`recentWaiting, this`signals
      ensures WaitingOk()
      ensures fired <==> Alarm(old(signals) + [waiting])
      ensures signals == if fired then [] else old(signals) + [waiting]
      ensures fired ==> waiting
    {
      WindowSlides(signals, waiting);
      recentWaiting := recentWaiting + [waiting];
      if |recentWaiting| > WAITING_WINDOW {
        recentWaiting := recentWaiting[1..];
      }
      signals := signals + [waiting];
      assert recentWaiting == LastN(signals, WAITING_WINDOW);
      if Waits(recentWaiting) >= WAITING_THRESHOLD {
        recentWaiting := [];
        signals := [];
        return true;
      }
      return false;
    }

    // -------------------------------------------------------------- observations

    /** The cache follows the history: the latest content of exactly the 512 most recently observed signatures. */
    method RememberObservation(signature: string, content: string, ghost obs: seq<Observation>)
      requires (recentObservations, observationHashes) == CacheAfter(obs)
      modifies this`recentObservations, this`observationHashes
      ensures (recentObservations, observationHashes) == CacheAfter(obs + [Observation(signature, content)])
    {
      CacheSnoc(obs, Observation(signature, content));
      if signature in observationHashes {
        recentObservations := Without(recentObservations, signature);
      }
      observationHashes := observationHashes[signature := content];
      recentObservations := recentObservations + [signature];
      if |recentObservations| > HISTORY_LIMIT {
        var expired := recentObservations[0];
        recentObservations := recentObservations[1..];
        observationHashes := observationHashes - {expired};
      }
    }

    /**
      Replaces a result by a marker exactly when the same target, among the 512 most
      recently observed since the last mutation, last gave this very content, and the
      content is large enough to be worth it.
    */
    method ReuseUnchangedObservation(call: Call) returns (warning: Option<Warning>, marker: bool)
      requires ObservationsOk()
      modifies this`recentObservations, this`observationHashes, this`warningCount, this`log
      ensures ObservationsOk()
      ensures warning == if marker then Some(Unchanged) else None
      ensures warningCount == old(warningCount) + if marker then 1 else 0
      ensures Recorded(log, marker) == Compared(call, old(log))
    {
      warning, marker := None, false;
      if call.failed || call.signature.None? || call.encoded.None? { return; }
      marker := CompareResult(call.signature.value, call.encoded.value);
      if marker {
        warningCount := warningCount + 1;
        warning := Some(Unchanged);
      }
    }

    method CompareResult(s: string, c: string) returns (marker: bool)
      requires ObservationsOk()
      modifies this`recentObservations, this`observationHashes, this`log
      ensures ObservationsOk()
      ensures marker == Repeats(SinceMutation(old(log)), s, c) && log == old(log) + [Observed(s, c, !marker)]
    {
      var same := s in observationHashes && observationHashes[s] == c;
      ghost var obs := SinceMutation(log);
      ReuseStep(obs, recentObservations, observationHashes, s, c);
      RememberObservation(s, c, obs);
      marker := same && |c| >= MIN_REUSABLE_BYTES;
      Record(Observed(s, c, !marker));
    }

    /** An applied edit changes what earlier evidence means: nothing before it may be reused. */
    method ForgetObservations()
      requires ObservationsOk()
      modifies this`recentObservations, this`observationHashes, this`log
      ensures ObservationsOk() && log == old(log) + [Mutated]
    {
      recentObservations, observationHashes := [], map[];
      Record(Mutated);
    }

    ghost method Record(e: Entry)
      requires Honest(log) && (e.Observed? && !e.full ==> Latest(SinceMutation(log), e.signature) == Some(e.content))
      modifies this`log
      ensures log == old(log) + [e] && Honest(log)
      ensures SinceMutation(log) == match e
                case Observed(s, c, _) => SinceMutation(old(log)) + [Observation(s, c)]
                case Mutated => []
    {
      assert (log + [e])[..|log|] == log;
      log := log + [e];
    }

    // -------------------------------------------------------------- workspace states

    method AdvanceOpaqueMutation()
      modifies this`workspaceEpoch, this`recentValidations, this`seenValidations, this`ran
      ensures ValidationsOk() && ran == [] && workspaceEpoch == (old(workspaceEpoch) + 1) % EPOCHS
    {
      workspaceEpoch := (workspaceEpoch + 1) % EPOCHS;
      recentValidations, seenValidations := [], {};
      ran := [];
    }

    method ResetTrackedHistory()
      modifies this`workspaceHashes, this`recentStates, this`seenStates, this`workspaceEpoch,
               this`recentValidations, this`seenValidations, this`ran, this`trail
      ensures StatesOk() && ValidationsOk() && ran == []
      ensures Here() == Reset(old(Here()))
    {
      workspaceHashes, recentStates, seenStates := map[], [], {};
      VisitedSnoc(trail, Forget);
      trail := trail + [Forget];
      AdvanceOpaqueMutation();
    }

    ghost function Searches(): Counts
      reads this`zeroEvidenceSearches, this`truncatedExploration
    {
      Counts(zeroEvidenceSearches, truncatedExploration)
    }

    ghost function Here(): Ground
      reads this`trail, this`workspaceHashes, this`ran, this`workspaceEpoch
    {
      Ground(trail, workspaceHashes, ran, workspaceEpoch)
    }

    /** Says whether the state is among those kept; keeps it otherwise, evicting the oldest. */
    method RememberWorkspaceState(state: Tracked) returns (known: bool)
      requires StatesOk()
      modifies this`recentStates, this`seenStates, this`trail
      ensures StatesOk()
      ensures trail == old(trail) + [Visit(state)]
      ensures known <==> state in Queue(Visited(old(trail)))
    {
      VisitedSnoc(trail, Visit(state));
      QueueSnoc(Visited(trail), state);
      ghost var offered := Visited(trail);
      trail := trail + [Visit(state)];
      if state in seenStates { return true; }
      PushOk(recentStates, seenStates, offered, state);
      ghost var pushed := Push(recentStates, seenStates, state);
      seenStates := seenStates + {state};
      recentStates := recentStates + [state];
      if |recentStates| > HISTORY_LIMIT {
        var expired := recentStates[0];
        recentStates := recentStates[1..];
        seenStates := seenStates - {expired};
      }
      assert (recentStates, seenStates) == pushed;
      return false;
    }

    /**
      A mutation.  A failed or unapplied one leaves no trace; an applied one forgets all
      observations and moves the tracked workspace.
    */
    method ObserveMutation(call: Call) returns (warning: Option<Warning>)
      requires ObservationsOk() && WaitingOk() && StatesOk() && ValidationsOk()
      modifies this`mutationCount, this`explorationSinceProgress, this`repeatedStatusCount, this`lastStatusCommand,
               this`recentWaiting, this`repeatedExplorationCount, this`lastExplorationSignature,
               this`zeroEvidenceSearches, this`truncatedExploration, this`signals, this`recentObservations,
               this`observationHashes, this`log, this`workspaceHashes, this`recentStates, this`seenStates,
               this`workspaceEpoch, this`recentValidations, this`seenValidations, this`ran, this`trail, this`warningCount
      ensures ObservationsOk() && WaitingOk() && StatesOk() && ValidationsOk()
      ensures warning != Some(Polling)
      ensures if call.failed || !call.applied then warning.None? && unchanged(this)
              else
                && log == old(log) + [Mutated] && signals == [] && Arrival(Here(), warning) == Mutates(call.transition, old(Here()))
                && Running() == NO_STREAKS && mutationCount == old(mutationCount) + 1
      ensures warningCount == old(warningCount) + if warning.Some? then 1 else 0
    {
      warning := None;
      if call.failed || !call.applied { return; }
      warning := ApplyMutation(call.transition, Here());
    }

    method ApplyMutation(transition: Option<Transition>, ghost before: Ground) returns (warning: Option<Warning>)
      requires before == Here() && ObservationsOk() && StatesOk() && ValidationsOk()
      modifies this`mutationCount, this`explorationSinceProgress, this`repeatedStatusCount, this`lastStatusCommand,
               this`recentWaiting, this`repeatedExplorationCount, this`lastExplorationSignature,
               this`zeroEvidenceSearches, this`truncatedExploration, this`signals, this`recentObservations,
               this`observationHashes, this`log, this`workspaceHashes, this`recentStates, this`seenStates,
               this`workspaceEpoch, this`recentValidations, this`seenValidations, this`ran, this`trail, this`warningCount
      ensures ObservationsOk() && StatesOk() && ValidationsOk()
      ensures log == old(log) + [Mutated] && signals == [] && recentWaiting == [] && warning != Some(Polling)
      ensures Running() == NO_STREAKS && mutationCount == old(mutationCount) + 1
      ensures Arrival(Here(), warning) == Mutates(transition, before)
      ensures warningCount == old(warningCount) + if warning.Some? then 1 else 0
    {
      BeginMutation();
      warning := MoveWorkspace(transition, before);
    }

    method BeginMutation()
      requires ObservationsOk()
      modifies this`mutationCount, this`explorationSinceProgress, this`repeatedStatusCount, this`lastStatusCommand,
               this`recentWaiting, this`repeatedExplorationCount, this`lastExplorationSignature,
               this`zeroEvidenceSearches, this`truncatedExploration, this`signals, this`recentObservations,
               this`observationHashes, this`log
      ensures ObservationsOk() && log == old(log) + [Mutated] && signals == [] && recentWaiting == []
      ensures Running() == NO_STREAKS && mutationCount == old(mutationCount) + 1
    {
      mutationCount := mutationCount + 1;
      ResetActivityStreaks();
      ForgetObservations();
    }

    method MoveWorkspace(transition: Option<Transition>, ghost before: Ground) returns (warning: Option<Warning>)
      requires before == Here() && StatesOk() && ValidationsOk()
      modifies this`workspaceHashes, this`recentStates, this`seenStates, this`workspaceEpoch,
               this`recentValidations, this`seenValidations, this`ran, this`trail, this`warningCount
      ensures StatesOk() && ValidationsOk()
      ensures Arrival(Here(), warning) == Mutates(transition, before) && warning != Some(Polling)
      ensures warningCount == old(warningCount) + if warning.Some? then 1 else 0
    {
      if transition.None? {
        AdvanceOpaqueMutation();
        return None;
      }
      warning := TrackTransition(transition.value);
    }

    method TrackTransition(t: Transition) returns (warning: Option<Warning>)
      requires StatesOk() && ValidationsOk()
      modifies this`workspaceHashes, this`recentStates, this`seenStates, this`workspaceEpoch,
               this`recentValidations, this`seenValidations, this`ran, this`trail, this`warningCount
      ensures StatesOk() && ValidationsOk()
      ensures Arrival(Here(), warning) == Moves(t, old(Here()))
      ensures warningCount == old(warningCount) + if warning.Some? then 1 else 0
    {
      PrepareTransition(t);
      warning := Land(t);
    }

    method Land(t: Transition) returns (warning: Option<Warning>)
      requires StatesOk() && (|workspaceHashes| < TRACKED_PATH_LIMIT || t.path in workspaceHashes)
      modifies this`workspaceHashes, this`recentStates, this`seenStates, this`trail, this`warningCount
      ensures StatesOk() && workspaceHashes == old(workspaceHashes)[t.path := t.content]
      ensures trail == old(trail) + [Visit(workspaceHashes)]
      ensures warning == if workspaceHashes in Queue(Visited(old(trail))) then Some(WorkspaceRevisit) else None
      ensures warningCount == old(warningCount) + if warning.Some? then 1 else 0
    {
      Track(t.path, t.content);
      var known := RememberWorkspaceState(workspaceHashes);
      warning := if known then Some(WorkspaceRevisit) else None;
      if known { warningCount := warningCount + 1; }
    }

    method PrepareTransition(t: Transition)
      requires StatesOk() && ValidationsOk()
      modifies this`workspaceHashes, this`recentStates, this`seenStates, this`workspaceEpoch,
               this`recentValidations, this`seenValidations, this`ran, this`trail
      ensures StatesOk() && ValidationsOk() && Here() == Prepared(old(Here()), t)
      ensures |workspaceHashes| < TRACKED_PATH_LIMIT || t.path in workspaceHashes
    {
      if |workspaceHashes| >= TRACKED_PATH_LIMIT && t.path !in workspaceHashes {
        ResetTrackedHistory();
      }
      if t.previous.Some? { NotePrevious(t.path, t.previous.value); }
    }

    /** The hash before the edit: gives up tracking if another writer interfered, records the state before a first edit. */
    method NotePrevious(path: string, previous: string)
      requires StatesOk() && ValidationsOk()
      requires |workspaceHashes| < TRACKED_PATH_LIMIT || path in workspaceHashes
      modifies this`workspaceHashes, this`recentStates, this`seenStates, this`workspaceEpoch,
               this`recentValidations, this`seenValidations, this`ran, this`trail
      ensures StatesOk() && ValidationsOk()
      ensures Here() == Baseline(Distrust(old(Here()), path, previous), path, previous)
      ensures path in workspaceHashes
    {
      if path in workspaceHashes && workspaceHashes[path] != previous {
        ResetTrackedHistory();
      }
      if path !in workspaceHashes {
        Track(path, previous);
        var _ := RememberWorkspaceState(workspaceHashes);
      }
    }

    method Track(path: string, hash: string)
      requires StatesOk() && (|workspaceHashes| < TRACKED_PATH_LIMIT || path in workspaceHashes)
      modifies this`workspaceHashes
      ensures workspaceHashes == old(workspaceHashes)[path := hash] && StatesOk()
    {
      var after := workspaceHashes[path := hash];
      assert after.Keys == workspaceHashes.Keys + {path};
      assert |after| == |after.Keys| && |workspaceHashes| == |workspaceHashes.Keys|;
      workspaceHashes := after;
    }

    // -------------------------------------------------------------- validations

    /**
      Warns only if this command already ran on this tracked state since the last opaque
      mutation; always then, while at most 512 different validations ran.  The wrap-around
      of the epoch never makes two different epochs meet.
    */
    method ObserveValidation(command: string) returns (warning: Option<Warning>)
      requires ValidationsOk()
      modifies this`validationCount, this`explorationSinceProgress, this`repeatedStatusCount, this`lastStatusCommand,
               this`recentWaiting, this`repeatedExplorationCount, this`lastExplorationSignature,
               this`zeroEvidenceSearches, this`truncatedExploration, this`signals,
               this`recentValidations, this`seenValidations, this`ran, this`warningCount
      ensures ValidationsOk() && WaitingOk() && Running() == NO_STREAKS && validationCount == old(validationCount) + 1
      ensures signals == [] && ran == old(ran) + [Validated(workspaceEpoch, workspaceHashes, command)]
      ensures warning.Some? <==> Validated(workspaceEpoch, workspaceHashes, command) in Queue(old(ran))
      ensures warning.Some? ==> warning.value == RepeatedValidation && RanBefore(old(ran), workspaceHashes, command)
      ensures |Elements(old(ran))| <= HISTORY_LIMIT ==> (warning.Some? <==> RanBefore(old(ran), workspaceHashes, command))
      ensures warningCount == old(warningCount) + if warning.Some? then 1 else 0
    {
      validationCount := validationCount + 1;
      ResetActivityStreaks();
      RanBeforeIs(ran, Validated(workspaceEpoch, workspaceHashes, command));
      var known := RememberValidation(command);
      warning := None;
      if known {
        warningCount := warningCount + 1;
        warning := Some(RepeatedValidation);
      }
    }

    method RememberValidation(command: string) returns (known: bool)
      requires ValidationsOk()
      modifies this`recentValidations, this`seenValidations, this`ran
      ensures ValidationsOk()
      ensures ran == old(ran) + [Validated(workspaceEpoch, workspaceHashes, command)]
      ensures known <==> Validated(workspaceEpoch, workspaceHashes, command) in Queue(old(ran))
    {
      var v := Validated(workspaceEpoch, workspaceHashes, command);
      ghost var offered := ran;
      QueueSnoc(ran, v);
      ran := ran + [v];
      if v in seenValidations { return true; }
      PushOk(recentValidations, seenValidations, offered, v);
      ghost var pushed := Push(recentValidations, seenValidations, v);
      seenValidations := seenValidations + {v};
      recentValidations := recentValidations + [v];
      if |recentValidations| > HISTORY_LIMIT {
        var expired := recentValidations[0];
        recentValidations := recentValidations[1..];
        seenValidations := seenValidations - {expired};
      }
      assert (recentValidations, seenValidations) == pushed;
      return false;
    }

    // -------------------------------------------------------------- warnings by counting

    method ExplorationWarning() returns (warning: Option<Warning>)
      modifies this`warningCount
      ensures warning == Paced(explorationSinceProgress)
      ensures warningCount == old(warningCount) + if warning.Some? then 1 else 0
    {
      warning := None;
      if explorationSinceProgress == EXPLORATION_THRESHOLD {
        warning := Some(ManyInvestigations);
      } else if explorationSinceProgress >= CHECKPOINT_THRESHOLD {
        warning := Some(Checkpoint);
      }
      if warning.Some? { warningCount := warningCount + 1; }
    }

    method ResultWarning(call: Call) returns (warning: Option<Warning>)
      modifies this`zeroEvidenceSearches, this`truncatedExploration, this`warningCount
      ensures Searches() == Weigh(old(Searches()), call.evidence)
      ensures warning == if ZeroWarns(old(Searches()), call.evidence) then Some(ZeroMatches)
                         else if TruncatedWarns(old(Searches()), call.evidence) then Some(TruncatedResults) else None
      ensures warningCount == old(warningCount) + if warning.Some? then 1 else 0
    {
      warning := None;
      if call.evidence.None? {
        ResetResultStreaks();
        return;
      }
      zeroEvidenceSearches := if call.evidence.value.zeroMatches then zeroEvidenceSearches + 1 else 0;
      truncatedExploration := if call.evidence.value.truncated then truncatedExploration + 1 else 0;
      if zeroEvidenceSearches >= ZERO_EVIDENCE_THRESHOLD {
        warningCount := warningCount + 1;
        zeroEvidenceSearches := 0;
        return Some(ZeroMatches);
      }
      if truncatedExploration >= TRUNCATED_THRESHOLD {
        warningCount := warningCount + 1;
        truncatedExploration := 0;
        return Some(TruncatedResults);
      }
    }

    method RepetitionWarning(call: Call) returns (warning: Option<Warning>)
      modifies this`repeatedExplorationCount, this`lastExplorationSignature, this`warningCount
      ensures var before := Streak(old(repeatedExplorationCount), old(lastExplorationSignature));
              && Streak(repeatedExplorationCount, lastExplorationSignature)
                 == Advance(before, call.signature, REPEATED_EXPLORATION_THRESHOLD)
              && warning == if Completes(before, call.signature, REPEATED_EXPLORATION_THRESHOLD) then Some(RepeatedTarget) else None
      ensures warningCount == old(warningCount) + if warning.Some? then 1 else 0
    {
      warning := None;
      if call.signature.None? {
        repeatedExplorationCount, lastExplorationSignature := 0, None;
        return;
      }
      if lastExplorationSignature == call.signature {
        repeatedExplorationCount := repeatedExplorationCount + 1;
      } else {
        repeatedExplorationCount, lastExplorationSignature := 1, call.signature;
      }
      if repeatedExplorationCount >= REPEATED_EXPLORATION_THRESHOLD {
        warningCount := warningCount + 1;
        repeatedExplorationCount := 0;
        return Some(RepeatedTarget);
      }
    }

    // -------------------------------------------------------------- one tool call

    /**
      The guard's step.  Whatever the calls of a session, every cache stays the exact
      bounded view of its history, every counter the count of its history, every marker ever
      issued stays justified, and the answer is the one the history calls for.
    */
    method Observe(call: Call) returns (warning: Option<Warning>, marker: bool)
      requires Valid()
      modifies this
      ensures Valid()
      ensures toolCount == old(toolCount) + 1 && warningCount == old(warningCount) + if warning.Some? then 1 else 0
      ensures warning == Answer(call, old(turns), old(log), old(signals), old(Here()))
      ensures turns == old(turns) + [Turn(call, warning)]
      ensures Recorded(log, marker) == Logged(call, old(log), old(Searches()))
      ensures marker ==> warning == Some(Unchanged) && Backed(old(log), call)
      ensures warning == Some(Polling) <==> call.class_.Waiting? && Alarm(old(signals) + [true])
      ensures signals == NextSignals(call, old(signals))
      ensures Here() == Arrives(call, old(Here())).ground
      ensures call.class_.Mutation? || call.class_.Validation? ==> warning == Arrives(call, old(Here())).warning
      ensures Restarts(call) ==> Running() == NO_STREAKS
      ensures call.class_.Mutation? && (call.failed || !call.applied) ==>
                unchanged(this`explorationSinceProgress, this`mutationCount, this`validationCount, this`repeatedStatusCount,
                          this`lastStatusCommand, this`recentWaiting, this`repeatedExplorationCount,
                          this`lastExplorationSignature, this`zeroEvidenceSearches, this`truncatedExploration,
                          this`warningCount, this`workspaceEpoch, this`workspaceHashes, this`recentStates, this`seenStates,
                          this`recentValidations, this`seenValidations, this`recentObservations, this`observationHashes,
                          this`log, this`trail, this`ran, this`signals)
    {
      toolCount := toolCount + 1;
      AnswerFacts(call, turns, log, signals, Here());
      warning, marker := TakeTurn(call);
    }

    method TakeTurn(call: Call) returns (warning: Option<Warning>, marker: bool)
      requires ObservationsOk() && StatesOk() && ValidationsOk() && WaitingOk() && Running() == Counted(turns)
      modifies this`mutationCount, this`validationCount, this`explorationSinceProgress, this`repeatedStatusCount,
               this`lastStatusCommand, this`recentWaiting, this`repeatedExplorationCount, this`lastExplorationSignature,
               this`zeroEvidenceSearches, this`truncatedExploration, this`signals, this`recentObservations,
               this`observationHashes, this`log, this`workspaceHashes, this`recentStates, this`seenStates,
               this`workspaceEpoch, this`recentValidations, this`seenValidations, this`ran, this`trail, this`warningCount,
               this`turns
      ensures ObservationsOk() && StatesOk() && ValidationsOk() && WaitingOk() && Running() == Counted(turns)
      ensures warning == Answer(call, old(turns), old(log), old(signals), old(Here())) && turns == old(turns) + [Turn(call, warning)]
      ensures Running() == NextStreaks(call, old(Running()), warning)
      ensures warningCount == old(warningCount) + if warning.Some? then 1 else 0
      ensures Recorded(log, marker) == Logged(call, old(log), old(Searches()))
      ensures signals == NextSignals(call, old(signals)) && Here() == Arrives(call, old(Here())).ground
      ensures call.class_.Mutation? && (call.failed || !call.applied) ==>
                unchanged(this`explorationSinceProgress, this`mutationCount, this`validationCount, this`repeatedStatusCount,
                          this`lastStatusCommand, this`recentWaiting, this`repeatedExplorationCount,
                          this`lastExplorationSignature, this`zeroEvidenceSearches, this`truncatedExploration,
                          this`warningCount, this`workspaceEpoch, this`workspaceHashes, this`recentStates, this`seenStates,
                          this`recentValidations, this`seenValidations, this`recentObservations, this`observationHashes,
                          this`log, this`trail, this`ran, this`signals)
    {
      ReplyIsAnswer(call, turns, log, signals, Here());
      warning, marker := Dispatch(call);
      CountedNext(turns, Turn(call, warning));
      turns := turns + [Turn(call, warning)];
    }

    method Dispatch(call: Call) returns (warning: Option<Warning>, marker: bool)
      requires ObservationsOk() && StatesOk() && ValidationsOk() && WaitingOk()
      modifies this`mutationCount, this`validationCount, this`explorationSinceProgress, this`repeatedStatusCount,
               this`lastStatusCommand, this`recentWaiting, this`repeatedExplorationCount, this`lastExplorationSignature,
               this`zeroEvidenceSearches, this`truncatedExploration, this`signals, this`recentObservations,
               this`observationHashes, this`log, this`workspaceHashes, this`recentStates, this`seenStates,
               this`workspaceEpoch, this`recentValidations, this`seenValidations, this`ran, this`trail, this`warningCount
      ensures ObservationsOk() && StatesOk() && ValidationsOk() && WaitingOk()
      ensures warning == Reply(call, old(Running()), old(log), old(signals), old(Here()))
      ensures Running() == NextStreaks(call, old(Running()), warning)
      ensures warningCount == old(warningCount) + if warning.Some? then 1 else 0
      ensures Recorded(log, marker) == Logged(call, old(log), old(Searches()))
      ensures signals == NextSignals(call, old(signals)) && Here() == Arrives(call, old(Here())).ground
      ensures call.class_.Mutation? && (call.failed || !call.applied) ==> unchanged(this)
    {
      if call.class_.Mutation? {
        marker := false;
        warning := MutationCall(call);
      } else {
        warning, marker := OtherCall(call);
      }
    }

    /** Everything but a mutation leaves the tracked states alone. */
    method OtherCall(call: Call) returns (warning: Option<Warning>, marker: bool)
      requires !call.class_.Mutation? && ObservationsOk() && StatesOk() && ValidationsOk() && WaitingOk()
      modifies this`validationCount, this`explorationSinceProgress, this`repeatedStatusCount, this`lastStatusCommand,
               this`recentWaiting, this`repeatedExplorationCount, this`lastExplorationSignature,
               this`zeroEvidenceSearches, this`truncatedExploration, this`signals, this`recentObservations,
               this`observationHashes, this`log, this`recentValidations, this`seenValidations, this`ran, this`warningCount
      ensures ObservationsOk() && StatesOk() && ValidationsOk() && WaitingOk()
      ensures warning == Reply(call, old(Running()), old(log), old(signals), old(Here()))
      ensures Running() == NextStreaks(call, old(Running()), warning)
      ensures warningCount == old(warningCount) + if warning.Some? then 1 else 0
      ensures Recorded(log, marker) == Logged(call, old(log), old(Searches()))
      ensures signals == NextSignals(call, old(signals)) && Here() == Arrives(call, old(Here())).ground
    {
      warning, marker := ObserveOther(call);
    }

    method MutationCall(call: Call) returns (warning: Option<Warning>)
      requires call.class_.Mutation? && ObservationsOk() && WaitingOk() && StatesOk() && ValidationsOk()
      modifies this`mutationCount, this`explorationSinceProgress, this`repeatedStatusCount, this`lastStatusCommand,
               this`recentWaiting, this`repeatedExplorationCount, this`lastExplorationSignature,
               this`zeroEvidenceSearches, this`truncatedExploration, this`signals, this`recentObservations,
               this`observationHashes, this`log, this`workspaceHashes, this`recentStates, this`seenStates,
               this`workspaceEpoch, this`recentValidations, this`seenValidations, this`ran, this`trail, this`warningCount
      ensures ObservationsOk() && WaitingOk() && StatesOk() && ValidationsOk()
      ensures warning == Reply(call, old(Running()), old(log), old(signals), old(Here()))
      ensures Running() == NextStreaks(call, old(Running()), warning)
      ensures warningCount == old(warningCount) + if warning.Some? then 1 else 0
      ensures Recorded(log, false) == Logged(call, old(log), old(Searches()))
      ensures signals == NextSignals(call, old(signals)) && Here() == Arrives(call, old(Here())).ground
      ensures call.failed || !call.applied ==> unchanged(this)
    {
      warning := ObserveMutation(call);
    }

    method ObserveOther(call: Call) returns (warning: Option<Warning>, marker: bool)
      requires !call.class_.Mutation? && ObservationsOk() && ValidationsOk() && WaitingOk()
      modifies this`validationCount, this`explorationSinceProgress, this`repeatedStatusCount, this`lastStatusCommand,
               this`recentWaiting, this`repeatedExplorationCount, this`lastExplorationSignature,
               this`zeroEvidenceSearches, this`truncatedExploration, this`signals, this`recentObservations,
               this`observationHashes, this`log, this`recentValidations, this`seenValidations, this`ran, this`warningCount
      ensures ObservationsOk() && ValidationsOk() && WaitingOk()
      ensures warning == Reply(call, old(Running()), old(log), old(signals), old(Here()))
      ensures Running() == NextStreaks(call, old(Running()), warning)
      ensures warningCount == old(warningCount) + if warning.Some? then 1 else 0
      ensures Recorded(log, marker) == Logged(call, old(log), old(Searches()))
      ensures signals == NextSignals(call, old(signals)) && Here() == Arrives(call, old(Here())).ground
    {
      if call.class_.Exploration? {
        warning, marker := ExplorationCall(call);
      } else if call.class_.Validation? {
        marker := false;
        warning := ValidationCall(call);
      } else {
        marker := false;
        warning := SignalCall(call);
      }
    }

    method ValidationCall(call: Call) returns (warning: Option<Warning>)
      requires call.class_.Validation? && ValidationsOk()
      modifies this`validationCount, this`explorationSinceProgress, this`repeatedStatusCount, this`lastStatusCommand,
               this`recentWaiting, this`repeatedExplorationCount, this`lastExplorationSignature,
               this`zeroEvidenceSearches, this`truncatedExploration, this`signals,
               this`recentValidations, this`seenValidations, this`ran, this`warningCount
      ensures ValidationsOk() && WaitingOk() && signals == [] && Running() == NO_STREAKS && validationCount == old(validationCount) + 1
      ensures warningCount == old(warningCount) + if warning.Some? then 1 else 0
      ensures Arrival(Here(), warning) == Arrives(call, old(Here()))
    {
      warning := ObserveValidation(call.class_.command);
    }

    method SignalCall(call: Call) returns (warning: Option<Warning>)
      requires (call.class_.Waiting? || call.class_.Status? || call.class_.Other?) && WaitingOk()
      modifies this`explorationSinceProgress, this`repeatedStatusCount, this`lastStatusCommand, this`recentWaiting,
               this`zeroEvidenceSearches, this`truncatedExploration, this`signals, this`warningCount
      ensures WaitingOk() && signals == NextSignals(call, old(signals))
      ensures warning == Reply(call, old(Running()), log, old(signals), Here())
      ensures Running() == NextStreaks(call, old(Running()), warning)
      ensures warningCount == old(warningCount) + if warning.Some? then 1 else 0
    {
      match call.class_ {
        case Waiting => warning := ObserveWaiting();
        case Status(command) => warning := ObserveStatus(command);
        case Other =>
          var _ := ObserveWaitingSignal(false);
          ResetResultStreaks();
          warning := None;
      }
    }

    method ObserveWaiting() returns (warning: Option<Warning>)
      requires WaitingOk()
      modifies this`explorationSinceProgress, this`zeroEvidenceSearches, this`truncatedExploration, this`recentWaiting,
               this`signals, this`warningCount
      ensures WaitingOk() && signals == if Alarm(old(signals) + [true]) then [] else old(signals) + [true]
      ensures warning == if Alarm(old(signals) + [true]) then Some(Polling) else Paced(old(explorationSinceProgress) + 1)
      ensures explorationSinceProgress == old(explorationSinceProgress) + 1 && Searches() == Counts(0, 0)
      ensures warningCount == old(warningCount) + if warning.Some? then 1 else 0
    {
      explorationSinceProgress := explorationSinceProgress + 1;
      ResetResultStreaks();
      var fired := ObserveWaitingSignal(true);
      if fired {
        warningCount := warningCount + 1;
        return Some(Polling);
      }
      warning := ExplorationWarning();
    }

    method ObserveStatus(command: string) returns (warning: Option<Warning>)
      requires WaitingOk()
      modifies this`explorationSinceProgress, this`zeroEvidenceSearches, this`truncatedExploration, this`recentWaiting,
               this`signals, this`repeatedStatusCount, this`lastStatusCommand, this`warningCount
      ensures WaitingOk() && signals == old(signals) + [false]
      ensures var before := Streak(old(repeatedStatusCount), old(lastStatusCommand));
              && Streak(repeatedStatusCount, lastStatusCommand) == Advance(before, Some(command), REPEATED_STATUS_THRESHOLD)
              && warning == if Completes(before, Some(command), REPEATED_STATUS_THRESHOLD) then Some(RepeatedStatus)
                            else Paced(old(explorationSinceProgress) + 1)
      ensures explorationSinceProgress == old(explorationSinceProgress) + 1 && Searches() == Counts(0, 0)
      ensures warningCount == old(warningCount) + if warning.Some? then 1 else 0
    {
      explorationSinceProgress := explorationSinceProgress + 1;
      ResetResultStreaks();
      var _ := ObserveWaitingSignal(false);
      if lastStatusCommand == Some(command) {
        repeatedStatusCount := repeatedStatusCount + 1;
      } else {
        repeatedStatusCount, lastStatusCommand := 1, Some(command);
      }
      if repeatedStatusCount >= REPEATED_STATUS_THRESHOLD {
        warningCount := warningCount + 1;
        repeatedStatusCount := 0;
        return Some(RepeatedStatus);
      }
      warning := ExplorationWarning();
    }

    method ObserveExploration(call: Call) returns (warning: Option<Warning>, marker: bool)
      requires ObservationsOk() && WaitingOk()
      modifies this`explorationSinceProgress, this`zeroEvidenceSearches, this`truncatedExploration, this`recentWaiting,
               this`signals, this`recentObservations, this`observationHashes, this`warningCount, this`log,
               this`repeatedExplorationCount, this`lastExplorationSignature
      ensures ObservationsOk() && WaitingOk() && signals == old(signals) + [false]
      ensures Recorded(log, marker) == Explored(call, old(log), old(Searches()))
      ensures Searches() == Weigh(old(Searches()), call.evidence) && explorationSinceProgress == old(explorationSinceProgress) + 1
      ensures var before := Streak(old(repeatedExplorationCount), old(lastExplorationSignature));
              && warning == WeighedReply(call, old(Searches()), Compared(call, old(log)).marker, before, old(explorationSinceProgress) + 1)
              && Streak(repeatedExplorationCount, lastExplorationSignature)
                 == if CutShort(warning) then before else Advance(before, call.signature, REPEATED_EXPLORATION_THRESHOLD)
      ensures warningCount == old(warningCount) + if warning.Some? then 1 else 0
    {
      explorationSinceProgress := explorationSinceProgress + 1;
      var _ := ObserveWaitingSignal(false);
      warning, marker := WeighResult(call, Compared(call, log));
    }

    method ExplorationCall(call: Call) returns (warning: Option<Warning>, marker: bool)
      requires call.class_.Exploration? && ObservationsOk() && WaitingOk()
      modifies this`explorationSinceProgress, this`zeroEvidenceSearches, this`truncatedExploration, this`recentWaiting,
               this`signals, this`recentObservations, this`observationHashes, this`warningCount, this`log,
               this`repeatedExplorationCount, this`lastExplorationSignature
      ensures ObservationsOk() && WaitingOk() && signals == old(signals) + [false]
      ensures warning == Reply(call, old(Running()), old(log), old(signals), Here())
      ensures Running() == NextStreaks(call, old(Running()), warning)
      ensures Recorded(log, marker) == Explored(call, old(log), old(Searches()))
      ensures warningCount == old(warningCount) + if warning.Some? then 1 else 0
    {
      warning, marker := ObserveExploration(call);
    }

    method WeighResult(call: Call, ghost seen: Recorded) returns (warning: Option<Warning>, marker: bool)
      requires ObservationsOk() && seen == Compared(call, log)
      modifies this`zeroEvidenceSearches, this`truncatedExploration, this`recentObservations, this`observationHashes,
               this`warningCount, this`log, this`repeatedExplorationCount, this`lastExplorationSignature
      ensures ObservationsOk()
      ensures Recorded(log, marker) == if EndsStreak(old(Searches()), call.evidence) then Recorded(old(log), false) else seen
      ensures Searches() == Weigh(old(Searches()), call.evidence)
      ensures var before := Streak(old(repeatedExplorationCount), old(lastExplorationSignature));
              && warning == WeighedReply(call, old(Searches()), seen.marker, before, explorationSinceProgress)
              && Streak(repeatedExplorationCount, lastExplorationSignature)
                 == if CutShort(warning) then before else Advance(before, call.signature, REPEATED_EXPLORATION_THRESHOLD)
      ensures warningCount == old(warningCount) + if warning.Some? then 1 else 0
    {
      marker := false;
      warning := ResultWarning(call);
      if warning.Some? { return; }
      warning, marker := CompareEvidence(call, seen);
    }

    method CompareEvidence(call: Call, ghost seen: Recorded) returns (warning: Option<Warning>, marker: bool)
      requires ObservationsOk() && seen == Compared(call, log)
      modifies this`recentObservations, this`observationHashes, this`warningCount, this`log,
               this`repeatedExplorationCount, this`lastExplorationSignature
      ensures ObservationsOk()
      ensures Recorded(log, marker) == seen
      ensures var before := Streak(old(repeatedExplorationCount), old(lastExplorationSignature));
              && warning == ComparedReply(call, marker, before, explorationSinceProgress)
              && Streak(repeatedExplorationCount, lastExplorationSignature)
                 == if marker then before else Advance(before, call.signature, REPEATED_EXPLORATION_THRESHOLD)
      ensures warningCount == old(warningCount) + if warning.Some? then 1 else 0
    {
      warning, marker := ReuseUnchangedObservation(call);
      if warning.Some? { return; }
      warning := RepetitionWarning(call);
      if warning.Some? { return; }
      warning := ExplorationWarning();
    }
  }
}
