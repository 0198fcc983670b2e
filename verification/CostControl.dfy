/**
  Cost-control masking of the stored history: once triggered, stale tool results are
  replaced by summaries, except the newest ones and recent pages of the same file.

  Whether the thresholds trigger is an input, and so is the text of a summary.
*/
module CostControl {
  import opened Prelude
  import opened Positions
  import opened ToolExchanges
  import opened StoredMessages
  import opened AggressiveTrim
  import opened HierarchicalMemory

  const MAX_RELATED: nat := 4

  // ---------------------------------------------------------------- which results count

  function FindCallName(ms: seq<Stored>, id: string): string {
    if ms == [] then UNKNOWN_TOOL
    else
      var last := ms[|ms| - 1];
      if last.role == AgentMessage && NameIn(CallsOf(last.parts), id).Some?
      then NameIn(CallsOf(last.parts), id).value
      else FindCallName(ms[..|ms| - 1], id)
  }

  function CallName(ms: seq<Stored>, m: Stored): string {
    if AnsweredId(m).None? then UNKNOWN_TOOL else FindCallName(ms, AnsweredId(m).value)
  }

  predicate ProtectedStored(ms: seq<Stored>, m: Stored) {
    m.role == ResultMessage && CallName(ms, m) == PROTECTED_TOOL
  }

  /** Which messages are unprotected tool results. */
  function Unprotected(ms: seq<Stored>): (f: seq<bool>)
    ensures |f| == |ms|
    ensures forall i :: 0 <= i < |ms| ==> f[i] == (ms[i].role == ResultMessage && !ProtectedStored(ms, ms[i]))
  {
    seq(|ms|, i requires 0 <= i < |ms| => ms[i].role == ResultMessage && !ProtectedStored(ms, ms[i]))
  }

  datatype ReadKey = ReadKey(tool: string, page: Page)

  predicate IsReadTool(name: string) {
    name in ["read_file", "daytona_read_file", "sandbox_read_file", "e2b_read_file",
             "docker_read_file", "deno_read_file", "sprites_read_file", "read_github_file"]
  }

  /** Identifies the file version a paginated read result shows. */
  function KeyOf(ms: seq<Stored>, m: Stored): Option<ReadKey> {
    match FirstOutcome(m.parts)
    case None => None
    case Some(outcome) =>
      if IsReadTool(CallName(ms, m)) && outcome.result.Some? && outcome.result.value.page.Some?
      then Some(ReadKey(CallName(ms, m), outcome.result.value.page.value)) else None
  }

  /** The read keys of the listed messages, one for each. */
  function KeysAt(ms: seq<Stored>, at: seq<nat>): (r: seq<Option<ReadKey>>)
    requires forall j :: 0 <= j < |at| ==> at[j] < |ms|
    ensures |r| == |at| && forall j :: 0 <= j < |at| ==> r[j] == KeyOf(ms, ms[at[j]])
  {
    seq(|at|, j requires 0 <= j < |at| => KeyOf(ms, ms[at[j]]))
  }

  // ---------------------------------------------------------------- recent pages of the same file

  function KeySet(keys: seq<Option<ReadKey>>): set<ReadKey> {
    set j | 0 <= j < |keys| && keys[j].Some? :: keys[j].value
  }

  predicate Related(key: Option<ReadKey>, recent: set<ReadKey>) {
    key.Some? && key.value in recent
  }

  /** The run of related keys that ends just before `end`, no longer than `cap`. */
  function Run(keys: seq<Option<ReadKey>>, end: nat, recent: set<ReadKey>, cap: nat): (r: nat)
    requires end <= |keys|
    ensures r <= end && r <= cap
  {
    if end == 0 || cap == 0 || !Related(keys[end - 1], recent) then 0
    else 1 + Run(keys, end - 1, recent, cap - 1)
  }

  ghost predicate IsRun(keys: seq<Option<ReadKey>>, end: nat, recent: set<ReadKey>, cap: nat, r: nat) {
    && r <= end <= |keys| && r <= cap
    && (forall j :: end - r <= j < end ==> Related(keys[j], recent))
    && (r < end && r < cap ==> !Related(keys[end - r - 1], recent))
  }

  /** It is the longest such run. */
  lemma {:induction false} RunIsLongest(keys: seq<Option<ReadKey>>, end: nat, recent: set<ReadKey>, cap: nat, r: nat)
    requires end <= |keys|
    ensures IsRun(keys, end, recent, cap, r) <==> r == Run(keys, end, recent, cap)
  {
    if end > 0 && cap > 0 && Related(keys[end - 1], recent) {
      if r > 0 {
        RunIsLongest(keys, end - 1, recent, cap - 1, r - 1);
        assert IsRun(keys, end, recent, cap, r) <==> IsRun(keys, end - 1, recent, cap - 1, r - 1);
      }
    } else {
      assert r > 0 && r <= end ==> end - r <= end - 1 < end;
    }
  }

  /** How many results beyond the newest `keep` stay because they show the same file. */
  function RelatedCount(keys: seq<Option<ReadKey>>, keep: nat): (r: nat)
    ensures r <= MAX_RELATED && r <= SaturatingSub(|keys|, keep)
  {
    if keep == 0 || |keys| <= keep then 0
    else Run(keys, |keys| - keep, KeySet(keys[|keys| - keep..]), MAX_RELATED)
  }

  lemma NoRun(keys: seq<Option<ReadKey>>, end: nat, cap: nat)
    requires end <= |keys|
    ensures Run(keys, end, {}, cap) == 0
  {
  }

  ghost predicate Ascending(a: seq<nat>) {
    forall i, j :: 0 <= i < j < |a| ==> a[i] < a[j]
  }

  lemma RunStep(keys: seq<Option<ReadKey>>, end: nat, recent: set<ReadKey>, cap: nat)
    requires 0 < end <= |keys| && cap > 0
    ensures Run(keys, end, recent, cap) == if Related(keys[end - 1], recent) then 1 + Run(keys, end - 1, recent, cap - 1) else 0
  {
  }

  lemma RunEnd(keys: seq<Option<ReadKey>>, recent: set<ReadKey>, end: nat, cap: nat)
    requires end <= |keys| && (end == 0 || cap == 0)
    ensures Run(keys, end, recent, cap) == 0
  {
  }

  /** Ascending positions are distinct, so a slice of them has as many elements as places. */
  lemma SliceSize(indices: seq<nat>, from: nat, end: nat)
    requires from <= end <= |indices| && Ascending(indices)
    ensures |Elements(indices[from..end])| == end - from
    decreases end - from
  {
    if from < end {
      SliceSize(indices, from + 1, end);
      var rest := indices[from + 1..end];
      assert indices[from..end] == [indices[from]] + rest;
      assert indices[from] !in rest;
      assert Elements(indices[from..end]) == Elements(rest) + {indices[from]};
    }
  }

  /** The backward scan: how far the related results just before `end` reach, up to the cap. */
  method ScanBack(keys: seq<Option<ReadKey>>, end: nat, recent: set<ReadKey>) returns (n: nat)
    requires end <= |keys|
    ensures n == end - Run(keys, end, recent, MAX_RELATED)
  {
    n := end;
    ghost var whole, cap := Run(keys, end, recent, MAX_RELATED), MAX_RELATED;
    while n > 0 && end - n < MAX_RELATED
      invariant n <= end && cap == MAX_RELATED - (end - n)
      invariant whole == end - n + Run(keys, n, recent, cap)
    {
      var key := keys[n - 1];
      RunStep(keys, n, recent, cap);
      if key.None? || key.value !in recent { return; }
      n, cap := n - 1, cap - 1;
    }
    RunEnd(keys, recent, n, cap);
  }

  /** Indices and read keys of the unprotected results go together, oldest first. */
  method RelatedRecent(keys: seq<Option<ReadKey>>, indices: seq<nat>, keep: nat) returns (related: set<nat>)
    requires |keys| == |indices| && Ascending(indices)
    ensures var end := SaturatingSub(|indices|, keep);
            related == Elements(indices[end - RelatedCount(keys, keep)..end])
    ensures |related| == RelatedCount(keys, keep)
  {
    if keep == 0 || |indices| <= keep { return {}; }
    var end := |indices| - keep;
    var recent := KeySet(keys[end..]);
    if recent == {} {
      NoRun(keys, end, MAX_RELATED);
      return {};
    }
    var n := ScanBack(keys, end, recent);
    SliceSize(indices, n, end);
    related := Elements(indices[n..end]);
  }

  // ---------------------------------------------------------------- masking

  /** The first tool result of the message becomes its summary; everything else stays. */
  function MaskFirst(parts: seq<StoredPart>, summary: string): (r: seq<StoredPart>)
    ensures |r| == |parts|
  {
    if parts == [] then []
    else if parts[0].Outcome? then
      [if parts[0].error.Some? then parts[0].(result := None, error := Some(summary))
       else parts[0].(result := Some(Value(None, summary)), error := None)] + parts[1..]
    else [parts[0]] + MaskFirst(parts[1..], summary)
  }

  type Summarize = (string, Option<Value>, Option<string>) -> string

  function MaskResult(m: Stored, name: string, summarize: Summarize): Stored {
    match FirstOutcome(m.parts)
    case None => m
    case Some(o) => m.(parts := MaskFirst(m.parts, summarize(name, o.result, o.error)))
  }

  /**
    The masked part answers the same call, shows the summary as its error if it had failed and
    as its result otherwise, and shows no page any more; every other part stays.
  */
  lemma {:induction false} MaskFirstKeeps(parts: seq<StoredPart>, summary: string)
    ensures CallsOf(MaskFirst(parts, summary)) == CallsOf(parts)
    ensures FirstOutcome(MaskFirst(parts, summary)).Some? <==> FirstOutcome(parts).Some?
    ensures FirstOutcome(parts).Some? ==>
              var was, now := FirstOutcome(parts).value, FirstOutcome(MaskFirst(parts, summary)).value;
              && now == (if was.error.Some? then Outcome(was.callId, None, Some(summary))
                         else Outcome(was.callId, Some(Value(None, summary)), None))
    ensures forall k :: 0 <= k < |parts| && MaskFirst(parts, summary)[k] != parts[k] ==>
              parts[k].Outcome? && forall j :: 0 <= j < k ==> !parts[j].Outcome?
  {
    if parts != [] {
      var r := MaskFirst(parts, summary);
      assert r[1..] == if parts[0].Outcome? then parts[1..] else MaskFirst(parts[1..], summary);
      MaskFirstKeeps(parts[1..], summary);
      forall k | 0 <= k < |parts| && r[k] != parts[k] ensures parts[k].Outcome? && forall j :: 0 <= j < k ==> !parts[j].Outcome? {
        if k > 0 {
          assert r[k] == r[1..][k - 1] && parts[k] == parts[1..][k - 1];
          forall j | 0 <= j < k ensures !parts[j].Outcome? {
            if j > 0 { assert parts[j] == parts[1..][j - 1]; }
          }
        }
      }
    }
  }

  /** The read keys of the unprotected results, oldest first. */
  function ResultKeys(ms: seq<Stored>): (r: seq<Option<ReadKey>>)
    ensures |r| == |Flagged(Unprotected(ms), |ms|)|
  {
    var at := Flagged(Unprotected(ms), |ms|);
    assert forall j :: 0 <= j < |at| ==> at[j] in at;
    KeysAt(ms, at)
  }

  /** How many of the newest unprotected results stay verbatim. */
  function Spared(ms: seq<Stored>, keep: nat): (r: nat)
    ensures keep <= r <= keep + 4
  {
    keep + RelatedCount(ResultKeys(ms), keep)
  }

  /** The masked form of every message. */
  function AllMasked(ms: seq<Stored>, summarize: Summarize): (r: seq<Stored>)
    ensures |r| == |ms| && forall i :: 0 <= i < |ms| ==> r[i] == MaskResult(ms[i], CallName(ms, ms[i]), summarize)
  {
    seq(|ms|, i requires 0 <= i < |ms| => MaskResult(ms[i], CallName(ms, ms[i]), summarize))
  }

  function View(ms: seq<Stored>, spared: nat, summarize: Summarize): seq<Stored> {
    Blend(Unprotected(ms), spared, AllMasked(ms, summarize), ms)
  }

  lemma DropRelated(indices: seq<nat>, start: nat, end: nat)
    requires start <= end <= |indices|
    requires Ascending(indices)
    ensures Elements(indices[..end]) - Elements(indices[start..end]) == Elements(indices[..start])
  {
    assert indices[..end] == indices[..start] + indices[start..end];
    forall x | x in indices[..start] ensures x !in indices[start..end] {
      var a :| 0 <= a < start && indices[a] == x;
      assert forall b :: start <= b < end ==> indices[a] < indices[b];
    }
  }

  /** The positions masked when cost control fires. */
  method Choose(keys: seq<Option<ReadKey>>, indices: seq<nat>, keep: nat) returns (chosen: set<nat>)
    requires keep < |indices| == |keys| && Ascending(indices)
    ensures chosen == Elements(indices[..|indices| - keep - RelatedCount(keys, keep)])
  {
    var related := RelatedRecent(keys, indices, keep);
    var end := |indices| - keep;
    DropRelated(indices, end - RelatedCount(keys, keep), end);
    chosen := Elements(indices[..end]) - related;
  }

  /** When it fires, all but the newest spared results are masked. */
  method Fire<T>(f: seq<bool>, keys: seq<Option<ReadKey>>, keep: nat, plain: seq<T>, masked: seq<T>)
    returns (result: seq<T>, count: nat)
    requires |f| == |plain| == |masked| && keep < |Flagged(f, |f|)| == |keys|
    ensures var spared := keep + RelatedCount(keys, keep);
            result == Blend(f, spared, masked, plain) && count == |keys| - spared
  {
    var indices := Flagged(f, |f|);
    FlaggedAscend(f, |f|);
    var chosen := Choose(keys, indices, keep);
    result, count := Rewritten(plain, masked, chosen);
    ChosenAreMasked(f, keep + RelatedCount(keys, keep), chosen, masked, plain, result);
  }

  method ApplyCostControl(ms: seq<Stored>, enabled: bool, keep: nat, triggered: bool, summarize: Summarize)
    returns (result: seq<Stored>, maskedCount: nat)
    ensures var n := |Flagged(Unprotected(ms), |ms|)|;
            var fires := enabled && triggered && n > keep;
            && result == (if fires then View(ms, Spared(ms, keep), summarize) else ms)
            && maskedCount == if fires then n - Spared(ms, keep) else 0
  {
    var f := Unprotected(ms);
    var keys := ResultKeys(ms);
    if !enabled || |keys| <= keep || !triggered { return ms, 0; }
    result, maskedCount := Fire(f, keys, keep, ms, AllMasked(ms, summarize));
  }

  // ---------------------------------------------------------------- what masking keeps

  /** Masking keeps count, order, roles, calls and call ids, and leaves every other message and every protected result as it is. */
  lemma ViewKeepsShape(ms: seq<Stored>, spared: nat, summarize: Summarize, i: nat)
    requires i < |ms|
    ensures var m := View(ms, spared, summarize)[i];
            && m.role == ms[i].role && AnsweredId(m) == AnsweredId(ms[i]) && CallsOf(m.parts) == CallsOf(ms[i].parts)
            && |m.parts| == |ms[i].parts|
            && (ms[i].role != ResultMessage || ProtectedStored(ms, ms[i]) || FlaggedFrom(Unprotected(ms), i + 1) < spared ==> m == ms[i])
  {
    match FirstOutcome(ms[i].parts)
    case None =>
    case Some(o) => MaskFirstKeeps(ms[i].parts, summarize(CallName(ms, ms[i]), o.result, o.error));
  }

  lemma {:induction false} SameNames(ms: seq<Stored>, v: seq<Stored>, id: string)
    requires |v| == |ms| && forall i :: 0 <= i < |ms| ==> v[i].role == ms[i].role && CallsOf(v[i].parts) == CallsOf(ms[i].parts)
    ensures FindCallName(v, id) == FindCallName(ms, id)
  {
    if ms != [] { SameNames(ms[..|ms| - 1], v[..|v| - 1], id); }
  }

  /** Calls keep their names and results their protection, so the view has the same unprotected results. */
  lemma ViewKeepsFlags(ms: seq<Stored>, spared: nat, summarize: Summarize)
    ensures var v := View(ms, spared, summarize);
            Unprotected(v) == Unprotected(ms) && forall i :: 0 <= i < |ms| ==> CallName(v, v[i]) == CallName(ms, ms[i])
  {
    var v := View(ms, spared, summarize);
    forall i | 0 <= i < |ms|
      ensures v[i].role == ms[i].role && CallsOf(v[i].parts) == CallsOf(ms[i].parts) && AnsweredId(v[i]) == AnsweredId(ms[i])
    {
      ViewKeepsShape(ms, spared, summarize, i);
    }
    forall id ensures FindCallName(v, id) == FindCallName(ms, id) { SameNames(ms, v, id); }
  }

  /** A masked result no longer counts as a page; a spared one shows the same page. */
  lemma ViewKeys(ms: seq<Stored>, spared: nat, summarize: Summarize, i: nat)
    requires i < |ms|
    ensures var v := View(ms, spared, summarize);
            KeyOf(v, v[i]) == if IsMasked(Unprotected(ms), spared, i) then None else KeyOf(ms, ms[i])
  {
    ViewKeepsFlags(ms, spared, summarize);
    ViewKeepsShape(ms, spared, summarize, i);
    match FirstOutcome(ms[i].parts)
    case None =>
    case Some(o) => MaskFirstKeeps(ms[i].parts, summarize(CallName(ms, ms[i]), o.result, o.error));
  }

  lemma {:induction false} SameRun(a: seq<Option<ReadKey>>, b: seq<Option<ReadKey>>, end: nat, recent: set<ReadKey>, cap: nat)
    requires end <= |a| == |b|
    requires var r := Run(a, end, recent, cap);
             && (forall j :: end - r <= j < end ==> b[j] == a[j])
             && (r < end ==> b[end - r - 1].None?)
    ensures Run(b, end, recent, cap) == Run(a, end, recent, cap)
  {
    var r := Run(a, end, recent, cap);
    RunIsLongest(a, end, recent, cap, r);
    RunIsLongest(b, end, recent, cap, r);
  }

  /** The j-th unprotected result is masked exactly when it is not among the newest `spared`. */
  lemma KeyRank(f: seq<bool>, spared: nat, j: nat)
    requires j < |Flagged(f, |f|)|
    ensures Flagged(f, |f|)[j] < |f|
    ensures IsMasked(f, spared, Flagged(f, |f|)[j]) <==> j + spared < |Flagged(f, |f|)|
  {
    var all := Flagged(f, |f|);
    assert all[j] in all;
    var i := all[j];
    FlaggedRank(f, i, |f|);
    FlaggedAscend(f, |f|);
    assert |Flagged(f, i)| == j;
    FlaggedCount(f, i);
    FlaggedCount(f, |f|);
  }

  lemma ViewResultKeys(ms: seq<Stored>, spared: nat, summarize: Summarize)
    ensures var was, now := ResultKeys(ms), ResultKeys(View(ms, spared, summarize));
            && |now| == |was|
            && forall j :: 0 <= j < |was| ==> now[j] == if j + spared < |was| then None else was[j]
  {
    var v, f := View(ms, spared, summarize), Unprotected(ms);
    ViewKeepsFlags(ms, spared, summarize);
    var at := Flagged(f, |f|);
    forall j | 0 <= j < |at|
      ensures ResultKeys(v)[j] == if j + spared < |at| then None else ResultKeys(ms)[j]
    {
      KeyRank(f, spared, j);
      ViewKeys(ms, spared, summarize, at[j]);
    }
  }

  lemma SameRelated(was: seq<Option<ReadKey>>, now: seq<Option<ReadKey>>, keep: nat)
    requires |now| == |was|
    requires var spared := keep + RelatedCount(was, keep);
             forall j :: 0 <= j < |was| ==> now[j] == if j + spared < |was| then None else was[j]
    ensures RelatedCount(now, keep) == RelatedCount(was, keep)
  {
    if keep > 0 && |was| > keep {
      var end := |was| - keep;
      assert now[end..] == was[end..];
      SameRun(was, now, end, KeySet(was[end..]), MAX_RELATED);
    }
  }

  /** Masking the view again selects exactly the same results. */
  lemma SecondPassSelectsSame(ms: seq<Stored>, keep: nat, summarize: Summarize)
    ensures var v := View(ms, Spared(ms, keep), summarize);
            Unprotected(v) == Unprotected(ms) && Spared(v, keep) == Spared(ms, keep)
  {
    var spared := Spared(ms, keep);
    ViewKeepsFlags(ms, spared, summarize);
    ViewResultKeys(ms, spared, summarize);
    SameRelated(ResultKeys(ms), ResultKeys(View(ms, spared, summarize)), keep);
  }

  // ---------------------------------------------------------------- names, pages and skills

  /** The call ids of the history are unique. */
  ghost predicate UniqueCalls(ms: seq<Stored>) {
    forall a, i, b, j ::
      (0 <= a < |ms| && 0 <= b < |ms| && CallAt(ms[a], i) && CallAt(ms[b], j)
       && CallsOf(ms[a].parts)[i].id == CallsOf(ms[b].parts)[j].id) ==> a == b && i == j
  }

  ghost predicate CallAt(m: Stored, i: int) {
    m.role == AgentMessage && 0 <= i < |CallsOf(m.parts)|
  }

  /** With unique ids a result has the name of the call it answers. */
  lemma {:induction false} NameOfCall(ms: seq<Stored>, a: nat, i: nat)
    requires UniqueCalls(ms) && a < |ms| && CallAt(ms[a], i)
    ensures FindCallName(ms, CallsOf(ms[a].parts)[i].id) == CallsOf(ms[a].parts)[i].name
    decreases |ms|
  {
    var last, id := ms[|ms| - 1], CallsOf(ms[a].parts)[i].id;
    var calls := CallsOf(last.parts);
    if a == |ms| - 1 {
      forall j | 0 <= j < |calls| && calls[j].id == calls[i].id ensures j == i { assert CallAt(last, j) && CallAt(last, i); }
      NameInIs(calls, i);
    } else {
      if last.role == AgentMessage {
        forall j | 0 <= j < |calls| ensures calls[j].id != id { assert CallAt(last, j); }
        NameInAbsent(calls, id);
      }
      var init := ms[..|ms| - 1];
      assert init[a] == ms[a];
      assert UniqueCalls(init) by { InitUnique(ms); }
      NameOfCall(init, a, i);
    }
  }

  lemma InitUnique(ms: seq<Stored>)
    requires UniqueCalls(ms) && ms != []
    ensures UniqueCalls(ms[..|ms| - 1])
  {
    var s := ms[..|ms| - 1];
    forall a, i, b, j | 0 <= a < |s| && 0 <= b < |s| && CallAt(s[a], i) && CallAt(s[b], j)
      && CallsOf(s[a].parts)[i].id == CallsOf(s[b].parts)[j].id
      ensures a == b && i == j
    {
      assert CallAt(ms[a], i) && CallAt(ms[b], j);
    }
  }

  /** So the result of a skill activation is never masked. */
  lemma SkillsStay(ms: seq<Stored>, spared: nat, summarize: Summarize, k: nat, a: nat, i: nat)
    requires UniqueCalls(ms) && k < |ms| && a < |ms| && CallAt(ms[a], i)
    requires AnsweredId(ms[k]) == Some(CallsOf(ms[a].parts)[i].id) && CallsOf(ms[a].parts)[i].name == "activate_skill"
    ensures View(ms, spared, summarize)[k] == ms[k]
  {
    NameOfCall(ms, a, i);
    assert CallName(ms, ms[k]) == PROTECTED_TOOL;
  }

  /** And a result is a page of a file exactly when its call is one of the reading tools and its value shows a page. */
  lemma PageIs(ms: seq<Stored>, k: nat, a: nat, i: nat)
    requires UniqueCalls(ms) && k < |ms| && a < |ms| && CallAt(ms[a], i)
    requires AnsweredId(ms[k]) == Some(CallsOf(ms[a].parts)[i].id)
    ensures var name, o := CallsOf(ms[a].parts)[i].name, FirstOutcome(ms[k].parts).value;
            var reading := name in {"read_file", "daytona_read_file", "sandbox_read_file", "e2b_read_file",
                                  "docker_read_file", "deno_read_file", "sprites_read_file", "read_github_file"};
            KeyOf(ms, ms[k]) == if reading && o.result.Some? && o.result.value.page.Some?
                                then Some(ReadKey(name, o.result.value.page.value)) else None
  {
    NameOfCall(ms, a, i);
    IsReadToolMeans(CallsOf(ms[a].parts)[i].name);
  }

  lemma IsReadToolMeans(name: string)
    ensures IsReadTool(name) <==>
              name in {"read_file", "daytona_read_file", "sandbox_read_file", "e2b_read_file",
                       "docker_read_file", "deno_read_file", "sprites_read_file", "read_github_file"}
  {
  }
}
