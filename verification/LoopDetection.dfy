/**
  The backward scans that detect a stuck agent, against declarative run lengths and
  multiplicities.  Fingerprints are the strings stored with each result.
*/
module LoopDetection {
  import opened Prelude
  import opened ToolExchanges
  import opened StoredMessages

  // ---------------------------------------------------------------- runs of equal results

  predicate Boundary(m: Stored) {
    m.role == UserMessage || m.role == SystemMessage
  }

  /** The tool results since the last user or system message, newest first. */
  function Recent(ms: seq<Stored>): (r: seq<Stored>)
    ensures forall k :: 0 <= k < |r| ==> r[k].role == ResultMessage
  {
    if ms == [] then []
    else
      var last, rest := ms[|ms| - 1], ms[..|ms| - 1];
      if Boundary(last) then []
      else if last.role == ResultMessage then [last] + Recent(rest)
      else Recent(rest)
  }

  function Signature(m: Stored): Option<string> {
    if m.callPrint.Some? && m.resultPrint.Some? then Some(m.callPrint.value + ":" + m.resultPrint.value) else None
  }

  /** k is the length of the longest run of equal signatures at the front of the list. */
  ghost predicate IsRun(rs: seq<Stored>, k: nat) {
    && k <= |rs|
    && (forall j :: 0 <= j < k ==> Signature(rs[j]).Some? && Signature(rs[j]) == Signature(rs[0]))
    && (k < |rs| ==> Signature(rs[k]).None? || (k > 0 && Signature(rs[k]) != Signature(rs[0])))
  }

  function Leading(rs: seq<Stored>, target: string): (k: nat)
    ensures k <= |rs|
    ensures forall j :: 0 <= j < k ==> Signature(rs[j]) == Some(target)
    ensures k < |rs| ==> Signature(rs[k]) != Some(target)
  {
    if rs == [] || Signature(rs[0]) != Some(target) then 0 else 1 + Leading(rs[1..], target)
  }

  function RunLength(rs: seq<Stored>): nat {
    if rs == [] || Signature(rs[0]).None? then 0 else Leading(rs, Signature(rs[0]).value)
  }

  /** There is exactly one such length, and it is the one computed. */
  lemma RunLengthExact(rs: seq<Stored>, k: nat)
    ensures IsRun(rs, k) <==> k == RunLength(rs)
  {
    var n := RunLength(rs);
    assert IsRun(rs, n);
    assert IsRun(rs, k) ==> !(k < n) && !(n < k);
  }

  /** With no colon in the call fingerprints, equal signatures mean equal call and equal result. */
  lemma SignatureSeparates(a: Stored, b: Stored)
    requires Signature(a).Some? && Signature(a) == Signature(b)
    requires ':' !in a.callPrint.value && ':' !in b.callPrint.value
    ensures a.callPrint == b.callPrint && a.resultPrint == b.resultPrint
  {
    var x, y := a.callPrint.value, b.callPrint.value;
    var s := Signature(a).value;
    assert s[|x|] == ':' && s[|y|] == ':';
    assert forall j :: 0 <= j < |x| ==> s[j] == x[j] != ':';
    assert forall j :: 0 <= j < |y| ==> s[j] == y[j] != ':';
    assert s[..|x|] == x && s[..|y|] == y && s[|x| + 1..] == a.resultPrint.value && s[|y| + 1..] == b.resultPrint.value;
  }

  predicate EndsUnprinted(rs: seq<Stored>) {
    RunLength(rs) < |rs| && Signature(rs[RunLength(rs)]).None?
  }

  /** The generic verdict: an unfingerprinted result met by the scan silences it. */
  function RepeatedResult(ms: seq<Stored>, threshold: nat): Option<nat> {
    var k := RunLength(Recent(ms));
    if EndsUnprinted(Recent(ms)) || k < threshold then None else Some(k)
  }

  // ---------------------------------------------------------------- failed mutations

  predicate EndsWith(name: string, suffix: string) {
    |suffix| <= |name| && name[|name| - |suffix|..] == suffix
  }

  predicate Mutating(name: string) {
    exists m :: m in ["edit_file", "write_file", "delete_file", "bash"] && (name == m || EndsWith(name, "__" + m))
  }

  predicate Failed(m: Stored) {
    match FirstOutcome(m.parts) case None => false case Some(o) => o.error.Some?
  }

  predicate FailedMutation(m: Stored) {
    Failed(m) && m.toolName.Some? && Mutating(m.toolName.value)
  }

  /** The verdict on failed mutations: anchored on the newest result, it keeps what was counted before an unfingerprinted one. */
  function RepeatedFailure(ms: seq<Stored>, threshold: nat): Option<(string, nat)> {
    var rs := Recent(ms);
    var k := RunLength(rs);
    if k < threshold || (k > 0 && !FailedMutation(rs[0])) then None
    else Some((if k > 0 then rs[0].toolName.value else "", k))
  }

  /**
    The failed-mutation verdict names exactly the longest run; the generic detector then
    agrees on its length if and only if the run does not end at an unfingerprinted result.
  */
  lemma DetectorsAgree(ms: seq<Stored>, threshold: nat)
    requires RepeatedFailure(ms, threshold).Some?
    ensures IsRun(Recent(ms), RepeatedFailure(ms, threshold).value.1)
    ensures RepeatedResult(ms, threshold) == Some(RepeatedFailure(ms, threshold).value.1) <==> !EndsUnprinted(Recent(ms))
    ensures RepeatedResult(ms, threshold).None? <==> EndsUnprinted(Recent(ms))
  {
    RunLengthExact(Recent(ms), RunLength(Recent(ms)));
  }

  /** In particular when every scanned result is fingerprinted; and then each verdict implies the other on a failed mutation. */
  lemma AgreeWhenFingerprinted(ms: seq<Stored>, threshold: nat)
    requires var rs := Recent(ms); forall j :: 0 <= j < |rs| ==> Signature(rs[j]).Some?
    requires Recent(ms) != [] && FailedMutation(Recent(ms)[0])
    ensures RepeatedFailure(ms, threshold).Some? <==> RepeatedResult(ms, threshold).Some?
    ensures RepeatedFailure(ms, threshold).Some? ==> RepeatedResult(ms, threshold) == Some(RepeatedFailure(ms, threshold).value.1)
  {
    RunLengthExact(Recent(ms), RunLength(Recent(ms)));
  }

  // ---------------------------------------------------------------- the two scans

  method RepeatedToolResultCount(ms: seq<Stored>, threshold: nat) returns (r: Option<nat>)
    ensures r == RepeatedResult(ms, threshold)
  {
    var target: Option<string> := None;
    var consecutive: nat := 0;
    var n: nat := |ms|;
    ghost var all := Recent(ms);
    assert ms[..n] == ms;
    while n > 0
      invariant n <= |ms| && Scanned(all, Recent(ms[..n]), target, consecutive)
    {
      var m := ms[n - 1];
      assert ms[..n][..n - 1] == ms[..n - 1];
      if Boundary(m) { break; }
      if m.role == ResultMessage {
        var signature := Signature(m);
        ScanStep(all, m, Recent(ms[..n - 1]), target, consecutive);
        if signature.None? { return None; }
        if target.None? {
          target, consecutive := signature, 1;
        } else if target == signature {
          consecutive := consecutive + 1;
        } else {
          break;
        }
      }
      n := n - 1;
    }
    r := if consecutive >= threshold then Some(consecutive) else None;
  }

  /** The scan has counted a run at the front of `all` and `rest` is still ahead. */
  ghost predicate Scanned(all: seq<Stored>, rest: seq<Stored>, target: Option<string>, count: nat) {
    && |all| == count + |rest| && all[count..] == rest
    && (target.None? <==> count == 0)
    && forall j :: 0 <= j < count ==> Signature(all[j]) == target
  }

  lemma ScanStep(all: seq<Stored>, m: Stored, rest: seq<Stored>, target: Option<string>, count: nat)
    requires Scanned(all, [m] + rest, target, count)
    ensures Signature(m).Some? && (target.None? || Signature(m) == target) ==> Scanned(all, rest, Signature(m), count + 1)
    ensures !(Signature(m).Some? && (target.None? || Signature(m) == target)) ==> RunLength(all) == count
    ensures EndsUnprinted(all) <== Signature(m).None?
  {
    assert all[count] == m && all[count + 1..] == rest;
    RunLengthExact(all, count);
  }

  method RepeatedFailedMutatingResult(ms: seq<Stored>, threshold: nat) returns (r: Option<(string, nat)>)
    ensures r == RepeatedFailure(ms, threshold)
  {
    var target: Option<string> := None;
    var consecutive: nat := 0;
    var toolName := "";
    var n: nat := |ms|;
    ghost var all := Recent(ms);
    assert ms[..n] == ms;
    while n > 0
      invariant n <= |ms| && Scanned(all, Recent(ms[..n]), target, consecutive)
      invariant if target.None? then toolName == "" else FailedMutation(all[0]) && toolName == all[0].toolName.value
    {
      var m := ms[n - 1];
      assert ms[..n][..n - 1] == ms[..n - 1];
      if Boundary(m) { break; }
      if m.role == ResultMessage {
        var signature := Signature(m);
        ScanStep(all, m, Recent(ms[..n - 1]), target, consecutive);
        if signature.None? { break; }
        if target.None? {
          if !Failed(m) { return None; }
          if m.toolName.None? { return None; }
          if !Mutating(m.toolName.value) { return None; }
          toolName := m.toolName.value;
          target, consecutive := signature, 1;
        } else if target == signature {
          consecutive := consecutive + 1;
        } else {
          break;
        }
      }
      n := n - 1;
    }
    r := if consecutive >= threshold then Some((toolName, consecutive)) else None;
  }

  // ---------------------------------------------------------------- repeated read ranges

  datatype Resource = Resource(tool: string, path: string)
  datatype ReadCall = ReadCall(resource: Resource, range: string)

  /** The calls since the last user or system message or callless reply: newest message first, each message's own order. */
  function RecentCalls(ms: seq<Stored>): seq<ToolCall> {
    if ms == [] then []
    else
      var last, rest := ms[|ms| - 1], ms[..|ms| - 1];
      if Boundary(last) then []
      else if last.role != AgentMessage then RecentCalls(rest)
      else if CallsOf(last.parts) == [] then []
      else CallsOf(last.parts) + RecentCalls(rest)
  }

  type Parse = ToolCall -> Option<ReadCall>

  /** The resource of the newest call, when it is a read. */
  function Target(calls: seq<ToolCall>, parse: Parse): Option<Resource> {
    if calls == [] || parse(calls[0]).None? then None else Some(parse(calls[0]).value.resource)
  }

  predicate Reads(call: ToolCall, parse: Parse, target: Resource) {
    parse(call).Some? && parse(call).value.resource == target
  }

  /** The ranges of the leading reads of one resource, in the order scanned. */
  function Ranges(calls: seq<ToolCall>, parse: Parse, target: Resource): (r: seq<string>)
    ensures |r| <= |calls|
    ensures forall j :: 0 <= j < |r| ==> Reads(calls[j], parse, target) && r[j] == parse(calls[j]).value.range
    ensures |r| < |calls| ==> !Reads(calls[|r|], parse, target)
  {
    if calls == [] || !Reads(calls[0], parse, target) then []
    else [parse(calls[0]).value.range] + Ranges(calls[1..], parse, target)
  }

  /** n is the highest multiplicity in the list. */
  ghost predicate IsMaxMultiplicity(ranges: seq<string>, n: nat) {
    && (forall x :: multiset(ranges)[x] <= n)
    && (n > 0 ==> exists x :: multiset(ranges)[x] == n)
  }

  lemma {:induction false} Single(ranges: seq<string>, x: string)
    ensures multiset(ranges)[x] <= |ranges|
    ensures multiset(ranges)[x] == |ranges| <==> forall j :: 0 <= j < |ranges| ==> ranges[j] == x
  {
    if ranges != [] {
      var init, last := ranges[..|ranges| - 1], ranges[|ranges| - 1];
      assert ranges == init + [last];
      Single(init, x);
    }
  }

  /** More reads than the highest multiplicity means exactly that at least two distinct ranges were read. */
  lemma MoreThanMax(ranges: seq<string>, n: nat)
    requires IsMaxMultiplicity(ranges, n)
    ensures |ranges| > n <==> exists i, j :: 0 <= i < j < |ranges| && ranges[i] != ranges[j]
  {
    if n > 0 {
      var x :| multiset(ranges)[x] == n;
      Single(ranges, x);
    }
    if ranges != [] {
      Single(ranges, ranges[0]);
    }
  }

  datatype Tally = Tally(target: Option<Resource>, counts: map<string, nat>, total: nat, most: nat)

  ghost predicate TallyOk(t: Tally, seen: seq<string>) {
    && t.total == |seen| && IsMaxMultiplicity(seen, t.most)
    && (forall x :: (if x in t.counts then t.counts[x] else 0) == multiset(seen)[x])
    && (t.target.None? ==> seen == [])
  }

  lemma MaxGrows(seen: seq<string>, x: string, most: nat)
    requires IsMaxMultiplicity(seen, most)
    ensures var count := multiset(seen)[x] + 1; IsMaxMultiplicity(seen + [x], if count > most then count else most)
  {
    var now := multiset(seen + [x]);
    assert now == multiset(seen) + multiset{x};
    if most > 0 {
      var y :| multiset(seen)[y] == most;
      assert now[if multiset(seen)[x] + 1 > most then x else y] >= most;
    }
    assert now[x] == multiset(seen)[x] + 1;
  }

  function Highest(ranges: seq<string>): nat {
    if ranges == [] then 0
    else
      var init, last := Highest(ranges[..|ranges| - 1]), multiset(ranges)[ranges[|ranges| - 1]];
      if last > init then last else init
  }

  /** There is one highest multiplicity, and it is the one computed. */
  lemma {:induction false} HighestExact(ranges: seq<string>, n: nat)
    ensures IsMaxMultiplicity(ranges, n) <==> n == Highest(ranges)
  {
    if ranges != [] {
      var init, last := ranges[..|ranges| - 1], ranges[|ranges| - 1];
      HighestExact(init, Highest(init));
      MaxGrows(init, last, Highest(init));
      assert ranges == init + [last];
    }
    assert IsMaxMultiplicity(ranges, Highest(ranges));
  }

  /** One more read of the target. */
  method CountRead(t: Tally, read: ReadCall, ghost seen: seq<string>) returns (t': Tally)
    requires TallyOk(t, seen) && t.target == Some(read.resource)
    ensures TallyOk(t', seen + [read.range]) && t'.target == t.target
  {
    MaxGrows(seen, read.range, t.most);
    var count := (if read.range in t.counts then t.counts[read.range] else 0) + 1;
    t' := Tally(t.target, t.counts[read.range := count], t.total + 1, if count > t.most then count else t.most);
    assert multiset(seen + [read.range]) == multiset(seen) + multiset{read.range};
  }

  /** Every call scanned so far reads the target; `rest` is still ahead. */
  ghost predicate Ahead(all: seq<ToolCall>, rest: seq<ToolCall>, parse: Parse, target: Option<Resource>, seen: seq<string>) {
    && |all| == |seen| + |rest| && all[|seen|..] == rest
    && (target.None? <==> seen == [])
    && (forall j :: 0 <= j < |seen| ==> Reads(all[j], parse, target.value) && seen[j] == parse(all[j]).value.range)
  }

  /** The reads counted are exactly the leading reads of the newest resource. */
  ghost predicate Complete(all: seq<ToolCall>, parse: Parse, target: Option<Resource>, seen: seq<string>) {
    Target(all, parse) == target && (target.Some? ==> Ranges(all, parse, target.value) == seen)
  }

  lemma CompleteWhen(all: seq<ToolCall>, rest: seq<ToolCall>, parse: Parse, target: Option<Resource>, seen: seq<string>)
    requires Ahead(all, rest, parse, target, seen)
    requires rest == [] || parse(rest[0]).None? || (target.Some? && !Reads(rest[0], parse, target.value))
    ensures Complete(all, parse, target, seen)
  {
    assert rest != [] ==> all[|seen|] == rest[0];
    if target.Some? {
      var r := Ranges(all, parse, target.value);
      assert !(|r| < |seen|);
      assert !(|seen| < |r|);
    }
  }

  lemma AheadOneMore(all: seq<ToolCall>, call: ToolCall, rest: seq<ToolCall>, parse: Parse, target: Option<Resource>, seen: seq<string>)
    requires Ahead(all, [call] + rest, parse, target, seen)
    requires parse(call).Some? && (target.None? || target == Some(parse(call).value.resource))
    ensures Ahead(all, rest, parse, Some(parse(call).value.resource), seen + [parse(call).value.range])
  {
    assert all[|seen|] == call && all[|seen| + 1..] == rest;
  }

  /** The calls of one message; `stop` ends the whole scan. */
  method ScanCalls(calls: seq<ToolCall>, parse: Parse, t: Tally, ghost all: seq<ToolCall>, ghost rest: seq<ToolCall>, ghost seen: seq<string>)
    returns (t': Tally, stop: bool, ghost seen': seq<string>)
    requires TallyOk(t, seen) && Ahead(all, calls + rest, parse, t.target, seen)
    ensures TallyOk(t', seen')
    ensures if stop then Complete(all, parse, t'.target, seen') else Ahead(all, rest, parse, t'.target, seen')
  {
    t', seen', stop := t, seen, false;
    for i := 0 to |calls|
      invariant TallyOk(t', seen') && Ahead(all, calls[i..] + rest, parse, t'.target, seen')
    {
      var call := parse(calls[i]);
      assert calls[i..] + rest == [calls[i]] + (calls[i + 1..] + rest);
      if call.None? || (t'.target.Some? && t'.target.value != call.value.resource) {
        CompleteWhen(all, calls[i..] + rest, parse, t'.target, seen');
        stop := true;
        return;
      }
      AheadOneMore(all, calls[i], calls[i + 1..] + rest, parse, t'.target, seen');
      t' := CountRead(t'.(target := Some(call.value.resource)), call.value, seen');
      seen' := seen' + [call.value.range];
    }
    assert calls[|calls|..] + rest == rest;
  }

  datatype RepeatedRange = RepeatedRange(resource: Resource, count: nat, total: nat)

  /** Fires when the highest multiplicity reaches the threshold without being all the reads. */
  function RangeVerdict(calls: seq<ToolCall>, parse: Parse, threshold: nat): Option<RepeatedRange> {
    match Target(calls, parse)
    case None => None
    case Some(resource) =>
      var ranges := Ranges(calls, parse, resource);
      var n := Highest(ranges);
      if n >= threshold && |ranges| > n then Some(RepeatedRange(resource, n, |ranges|)) else None
  }

  lemma OneBack(ms: seq<Stored>, n: nat)
    requires 0 < n <= |ms|
    ensures var m, rest := ms[n - 1], RecentCalls(ms[..n - 1]);
            RecentCalls(ms[..n]) ==
              if Boundary(m) || (m.role == AgentMessage && CallsOf(m.parts) == []) then []
              else if m.role == AgentMessage then CallsOf(m.parts) + rest else rest
  {
    assert ms[..n][..n - 1] == ms[..n - 1];
  }

  /** The whole backward scan. */
  method Tallied(ms: seq<Stored>, parse: Parse) returns (t: Tally, ghost seen: seq<string>)
    ensures TallyOk(t, seen) && Complete(RecentCalls(ms), parse, t.target, seen)
  {
    t, seen := Tally(None, map[], 0, 0), [];
    var n: nat := |ms|;
    ghost var all := RecentCalls(ms);
    ghost var rest := all;
    assert ms[..n] == ms;
    while n > 0
      invariant n <= |ms| && rest == RecentCalls(ms[..n])
      invariant TallyOk(t, seen) && Ahead(all, rest, parse, t.target, seen)
    {
      var m := ms[n - 1];
      OneBack(ms, n);
      if Boundary(m) { break; }
      rest := RecentCalls(ms[..n - 1]);
      if m.role == AgentMessage {
        var calls := CallsOf(m.parts);
        if calls == [] {
          rest := [];
          break;
        }
        var stop;
        t, stop, seen := ScanCalls(calls, parse, t, all, rest, seen);
        if stop { return; }
      }
      n := n - 1;
    }
    CompleteWhen(all, rest, parse, t.target, seen);
  }

  method RepeatedReadRangeCount(ms: seq<Stored>, threshold: nat, parse: Parse) returns (r: Option<RepeatedRange>)
    ensures r == RangeVerdict(RecentCalls(ms), parse, threshold)
  {
    var t, seen := Tallied(ms, parse);
    if t.target.None? { return None; }
    HighestExact(seen, t.most);
    r := if t.most >= threshold && t.total > t.most then Some(RepeatedRange(t.target.value, t.most, t.total)) else None;
  }

  /**
    The detector reports the true highest multiplicity over the leading reads of the newest
    resource; for a positive threshold it fires exactly when some range was read that often
    and another range of the same resource was read too.
  */
  lemma FiresOnDistinctRanges(calls: seq<ToolCall>, parse: Parse, threshold: nat, resource: Resource)
    requires Target(calls, parse) == Some(resource) && threshold > 0
    ensures var ranges, verdict := Ranges(calls, parse, resource), RangeVerdict(calls, parse, threshold);
            && (verdict.Some? ==> verdict.value.total == |ranges| && IsMaxMultiplicity(ranges, verdict.value.count))
            && (verdict.Some? <==>
                  && (exists x :: multiset(ranges)[x] >= threshold)
                  && exists i, j :: 0 <= i < j < |ranges| && ranges[i] != ranges[j])
  {
    var ranges := Ranges(calls, parse, resource);
    HighestExact(ranges, Highest(ranges));
    MoreThanMax(ranges, Highest(ranges));
    if Highest(ranges) > 0 {
      var x :| multiset(ranges)[x] == Highest(ranges);
      assert Highest(ranges) >= threshold ==> multiset(ranges)[x] >= threshold;
    }
  }

  // ---------------------------------------------------------------- what is scanned

  /** The first position after the last user or system message. */
  function WindowStart(ms: seq<Stored>): (b: nat)
    ensures b <= |ms|
    ensures b > 0 ==> ms[b - 1].role == UserMessage || ms[b - 1].role == SystemMessage
    ensures forall k :: b <= k < |ms| ==> ms[k].role != UserMessage && ms[k].role != SystemMessage
  {
    if ms == [] then 0
    else if ms[|ms| - 1].role == UserMessage || ms[|ms| - 1].role == SystemMessage then |ms|
    else WindowStart(ms[..|ms| - 1])
  }

  /** The result scanned j-th stands at position at[j]; positions go down. */
  ghost predicate ScannedAt(rs: seq<Stored>, ms: seq<Stored>, at: seq<nat>) {
    && |rs| == |at|
    && (forall j :: 0 <= j < |at| ==> at[j] < |ms| && rs[j] == ms[at[j]])
    && (forall i, j :: 0 <= i < j < |at| ==> at[i] > at[j])
  }

  lemma PushScanned(rs: seq<Stored>, ms: seq<Stored>, at: seq<nat>, n: nat)
    requires ScannedAt(rs, ms, at) && n < |ms| && forall j :: 0 <= j < |at| ==> at[j] < n
    ensures ScannedAt([ms[n]] + rs, ms, [n] + at)
  {
  }

  lemma RecentStep(ms: seq<Stored>, n: nat)
    requires 0 < n <= |ms|
    ensures var m := ms[n - 1];
            if m.role == UserMessage || m.role == SystemMessage then Recent(ms[..n]) == [] && WindowStart(ms[..n]) == n
            else
              && WindowStart(ms[..n]) == WindowStart(ms[..n - 1])
              && Recent(ms[..n]) == if m.role == ResultMessage then [m] + Recent(ms[..n - 1]) else Recent(ms[..n - 1])
  {
    assert ms[..n][..n - 1] == ms[..n - 1];
  }

  /** The positions of the results in the window. */
  ghost predicate InWindow(ms: seq<Stored>, n: nat, from: nat, at: seq<nat>) {
    forall k: nat :: k in at <==> from <= k < n <= |ms| && ms[k].role == ResultMessage
  }

  lemma WindowStep(ms: seq<Stored>, n: nat, from: nat, rest: seq<nat>)
    requires 0 < n <= |ms| && from <= n - 1 && InWindow(ms, n - 1, from, rest)
    ensures forall j :: 0 <= j < |rest| ==> rest[j] < n - 1
    ensures InWindow(ms, n, from, if ms[n - 1].role == ResultMessage then [n - 1] + rest else rest)
  {
    assert forall j :: 0 <= j < |rest| ==> rest[j] in rest;
    var at := [n - 1] + rest;
    assert forall k: nat :: k in at <==> k == n - 1 || k in rest;
  }

  /** The positions scanned among the first n, newest first. */
  function Scan(ms: seq<Stored>, n: nat): seq<nat>
    requires n <= |ms|
  {
    if n == 0 || ms[n - 1].role == UserMessage || ms[n - 1].role == SystemMessage then []
    else if ms[n - 1].role == ResultMessage then [n - 1] + Scan(ms, n - 1)
    else Scan(ms, n - 1)
  }

  lemma {:induction false} ScanIsWindow(ms: seq<Stored>, n: nat)
    requires n <= |ms|
    ensures InWindow(ms, n, WindowStart(ms[..n]), Scan(ms, n))
  {
    if n > 0 {
      RecentStep(ms, n);
      if ms[n - 1].role != UserMessage && ms[n - 1].role != SystemMessage {
        ScanIsWindow(ms, n - 1);
        WindowStep(ms, n, WindowStart(ms[..n - 1]), Scan(ms, n - 1));
      }
    }
  }

  lemma {:induction false} ScanBelow(ms: seq<Stored>, n: nat)
    requires n <= |ms|
    ensures forall j :: 0 <= j < |Scan(ms, n)| ==> Scan(ms, n)[j] < n
  {
    if n > 0 { ScanBelow(ms, n - 1); }
  }

  lemma {:induction false} ScanIsRecent(ms: seq<Stored>, n: nat)
    requires n <= |ms|
    ensures ScannedAt(Recent(ms[..n]), ms, Scan(ms, n))
  {
    if n > 0 && ms[n - 1].role != UserMessage && ms[n - 1].role != SystemMessage {
      var rs, at := Recent(ms[..n - 1]), Scan(ms, n - 1);
      ScanIsRecent(ms, n - 1);
      ScanBelow(ms, n - 1);
      PushScanned(rs, ms, at, n - 1);
      RecentStep(ms, n);
      assert Scan(ms, n) == if ms[n - 1].role == ResultMessage then [n - 1] + at else at;
    } else if n > 0 {
      RecentStep(ms, n);
    }
  }

  /** The results scanned are exactly those after the last user or system message, newest first. */
  lemma RecentAre(ms: seq<Stored>)
    ensures ScannedAt(Recent(ms), ms, Scan(ms, |ms|))
    ensures forall k: nat :: k in Scan(ms, |ms|) <==> WindowStart(ms) <= k < |ms| && ms[k].role == ResultMessage
  {
    ScanIsRecent(ms, |ms|);
    ScanIsWindow(ms, |ms|);
    assert ms[..|ms|] == ms;
  }

  /** A result has failed when the first outcome it holds carries an error. */
  lemma {:induction false} FailedMeans(parts: seq<StoredPart>, m: Stored)
    requires m.parts == parts
    ensures Failed(m) <==> exists p :: 0 <= p < |parts| && parts[p].Outcome? && parts[p].error.Some? && forall q :: 0 <= q < p ==> !parts[q].Outcome?
  {
    if parts != [] {
      var rest := parts[1..];
      FailedMeans(rest, m.(parts := rest));
      if parts[0].Outcome? {
        assert Failed(m) <==> parts[0].error.Some?;
      } else {
        assert Failed(m) <==> Failed(m.(parts := rest));
        if p :| 0 <= p < |rest| && rest[p].Outcome? && rest[p].error.Some? && forall q :: 0 <= q < p ==> !rest[q].Outcome? {
          assert parts[p + 1] == rest[p];
          forall q | 0 <= q < p + 1 ensures !parts[q].Outcome? { if q > 0 { assert parts[q] == rest[q - 1]; } }
        }
        if p :| 0 <= p < |parts| && parts[p].Outcome? && parts[p].error.Some? && forall q :: 0 <= q < p ==> !parts[q].Outcome? {
          assert rest[p - 1] == parts[p];
          forall q | 0 <= q < p - 1 ensures !rest[q].Outcome? { assert rest[q] == parts[q + 1]; }
        }
      }
    }
  }

  predicate Mutator(name: string) {
    name == "edit_file" || name == "write_file" || name == "delete_file" || name == "bash"
  }

  ghost predicate Namespaced(name: string, tool: string) {
    name == tool || exists space :: name == space + ("__" + tool)
  }

  lemma SuffixMeans(name: string, suffix: string)
    ensures EndsWith(name, suffix) <==> exists space :: name == space + suffix
  {
    if EndsWith(name, suffix) {
      var space := name[..|name| - |suffix|];
      assert name == space + suffix;
    }
    if space :| name == space + suffix { assert name[|space|..] == suffix; }
  }

  lemma ListedMeans(name: string, tool: string)
    ensures name == tool || EndsWith(name, "__" + tool) <==> Namespaced(name, tool)
  {
    SuffixMeans(name, "__" + tool);
  }

  /** The mutating tools are the four named, bare or behind a namespace. */
  lemma MutatingMeans(name: string)
    ensures Mutating(name) <==> exists tool :: Mutator(tool) && Namespaced(name, tool)
  {
    if Mutating(name) {
      var m :| m in ["edit_file", "write_file", "delete_file", "bash"] && (name == m || EndsWith(name, "__" + m));
      ListedMeans(name, m);
      assert Mutator(m) && Namespaced(name, m);
    }
    if tool :| Mutator(tool) && Namespaced(name, tool) {
      ListedMutator(tool);
      ListedMeans(name, tool);
    }
  }

  lemma ListedMutator(tool: string)
    requires Mutator(tool)
    ensures tool in ["edit_file", "write_file", "delete_file", "bash"]
  {
    var all := ["edit_file", "write_file", "delete_file", "bash"];
    assert all[0] == "edit_file" && all[1] == "write_file" && all[2] == "delete_file" && all[3] == "bash";
  }

  /** The read window ends at a user or system message or at a reply without calls. */
  predicate EndsReads(m: Stored) {
    m.role == UserMessage || m.role == SystemMessage || (m.role == AgentMessage && CallsOf(m.parts) == [])
  }

  lemma Reassociate(a: seq<ToolCall>, b: seq<ToolCall>, c: seq<ToolCall>, d: seq<ToolCall>)
    ensures a + (b + c + d) == (a + b) + c + d
  {
  }

  lemma RecentCallsBack(ms: seq<Stored>)
    requires ms != [] && !EndsReads(ms[|ms| - 1])
    ensures RecentCalls(ms)
            == (if ms[|ms| - 1].role == AgentMessage then CallsOf(ms[|ms| - 1].parts) else []) + RecentCalls(ms[..|ms| - 1])
  {
  }

  /** The calls scanned: those of every reply since then, newest reply first, each reply's own in order. */
  lemma {:induction false} RecentCallsAre(ms: seq<Stored>, k: nat)
    requires k < |ms| && ms[k].role == AgentMessage && forall j :: k <= j < |ms| ==> !EndsReads(ms[j])
    ensures RecentCalls(ms) == RecentCalls(ms[k + 1..]) + CallsOf(ms[k].parts) + RecentCalls(ms[..k])
    decreases |ms|
  {
    RecentCallsBack(ms);
    if k == |ms| - 1 {
      assert ms[k + 1..] == [];
    } else {
      var last, init, tail := ms[|ms| - 1], ms[..|ms| - 1], ms[k + 1..];
      RecentCallsAre(init, k);
      assert init[..k] == ms[..k];
      assert tail[|tail| - 1] == last && tail[..|tail| - 1] == init[k + 1..];
      RecentCallsBack(tail);
      Reassociate(if last.role == AgentMessage then CallsOf(last.parts) else [], RecentCalls(init[k + 1..]), CallsOf(ms[k].parts), RecentCalls(ms[..k]));
    }
  }

  lemma RecentCallsEnd(ms: seq<Stored>)
    requires ms != [] && EndsReads(ms[|ms| - 1])
    ensures RecentCalls(ms) == []
  {
  }
}
