/**
  Prompt-facing messages, their token estimate, and the filter that keeps only
  complete tool exchanges.  Text lengths are byte lengths.
*/
module ToolExchanges {
  import opened Prelude

  datatype Role = System | User | Assistant | Tool

  datatype ToolCall = ToolCall(id: string, name: string, arguments: string)

  datatype Part = TextPart(text: string) | OtherPart

  datatype Content = Text(text: string) | Parts(parts: seq<Part>)

  datatype Message = Message(
    role: Role, content: Content, calls: Option<seq<ToolCall>>, callId: Option<string>, reasoning: seq<string>)

  // ---------------------------------------------------------------- token estimate

  function PartsLen(parts: seq<Part>): nat {
    if parts == [] then 0
    else (match parts[0] case TextPart(text) => |text| case OtherPart => 50) + PartsLen(parts[1..])
  }

  function ContentLen(c: Content): nat {
    match c case Text(text) => |text| case Parts(parts) => PartsLen(parts)
  }

  function CallsLen(calls: seq<ToolCall>): nat {
    if calls == [] then 0
    else |calls[0].name| + |calls[0].arguments| + 20 + CallsLen(calls[1..])
  }

  /** A quarter of the characters, with an allowance for every tool call. */
  function Tokens(m: Message): nat {
    (ContentLen(m.content) + match m.calls case Some(calls) => CallsLen(calls) case None => 0) / 4
  }

  function TotalTokens(ms: seq<Message>): nat {
    if ms == [] then 0 else Tokens(ms[0]) + TotalTokens(ms[1..])
  }

  lemma {:induction false} TotalConcat(a: seq<Message>, b: seq<Message>)
    ensures TotalTokens(a + b) == TotalTokens(a) + TotalTokens(b)
  {
    if a == [] {
      assert a + b == b;
    } else {
      assert (a + b)[1..] == a[1..] + b;
      TotalConcat(a[1..], b);
    }
  }

  lemma {:induction false} PartsSnoc(parts: seq<Part>, p: Part)
    ensures PartsLen(parts + [p]) == PartsLen(parts) + if p.TextPart? then |p.text| else 50
  {
    if parts == [] {
      assert parts + [p] == [p] && [p][1..] == [];
    } else {
      assert (parts + [p])[1..] == parts[1..] + [p];
      PartsSnoc(parts[1..], p);
    }
  }

  lemma {:induction false} CallsSnoc(calls: seq<ToolCall>, c: ToolCall)
    ensures CallsLen(calls + [c]) == CallsLen(calls) + |c.name| + |c.arguments| + 20
  {
    if calls == [] {
      assert calls + [c] == [c] && [c][1..] == [];
    } else {
      assert (calls + [c])[1..] == calls[1..] + [c];
      CallsSnoc(calls[1..], c);
    }
  }

  /**
    The estimate of a message: a quarter of its characters, where every part without text
    counts 50 and every call its name, its arguments and 20.
  */
  lemma TokensAre(m: Message, parts: seq<Part>, p: Part, calls: seq<ToolCall>, c: ToolCall)
    ensures m.content.Text? && m.calls.None? ==> Tokens(m) == |m.content.text| / 4
    ensures Tokens(m.(content := Parts([]), calls := None)) == Tokens(m.(content := Parts([]), calls := Some([]))) == 0
    ensures var cost := (ps, cs) => PartsLen(ps) + CallsLen(cs);
            && Tokens(m.(content := Parts(parts), calls := Some(calls))) == cost(parts, calls) / 4
            && cost(parts + [p], calls) == cost(parts, calls) + (match p case TextPart(text) => |text| case OtherPart => 50)
            && cost(parts, calls + [c]) == cost(parts, calls) + |c.name| + |c.arguments| + 20
  {
    PartsSnoc(parts, p);
    CallsSnoc(calls, c);
  }

  // ---------------------------------------------------------------- keeping complete exchanges

  function ResultIds(ms: seq<Message>): set<string> {
    set k | 0 <= k < |ms| && ms[k].role == Tool && ms[k].callId.Some? :: ms[k].callId.value
  }

  function CallIds(ms: seq<Message>): set<string> {
    set k, j | 0 <= k < |ms| && ms[k].calls.Some? && 0 <= j < |ms[k].calls.value| :: ms[k].calls.value[j].id
  }

  function KeepCalls(calls: seq<ToolCall>, ids: set<string>): (r: seq<ToolCall>)
    ensures forall c :: c in r <==> c in calls && c.id in ids
    ensures CallsLen(r) <= CallsLen(calls)
  {
    if calls == [] then []
    else
      var rest := KeepCalls(calls[1..], ids);
      if calls[0].id in ids then
        var r := [calls[0]] + rest;
        assert r[1..] == rest;
        r
      else rest
  }

  function Prune(m: Message, ids: set<string>): Message {
    match m.calls
    case None => m
    case Some(calls) =>
      var kept := KeepCalls(calls, ids);
      m.(calls := if kept == [] then None else Some(kept))
  }

  predicate Visible(m: Message) {
    (match m.content case Text(text) => text != "" case Parts(parts) => parts != [])
    || m.calls.Some? || m.reasoning != []
  }

  /** Calls without a result go; a message that had calls goes with them if nothing is left to see. */
  function DropCalls(ms: seq<Message>, ids: set<string>): seq<Message> {
    if ms == [] then []
    else
      var rest := DropCalls(ms[1..], ids);
      var m := Prune(ms[0], ids);
      if ms[0].calls.None? || Visible(m) then [m] + rest else rest
  }

  predicate Answered(m: Message, ids: set<string>) {
    m.role != Tool || (m.callId.Some? && m.callId.value in ids)
  }

  function DropResults(ms: seq<Message>, ids: set<string>): seq<Message> {
    if ms == [] then []
    else if Answered(ms[0], ids) then [ms[0]] + DropResults(ms[1..], ids)
    else DropResults(ms[1..], ids)
  }

  function Retain(ms: seq<Message>): seq<Message> {
    var kept := DropCalls(ms, ResultIds(ms));
    DropResults(kept, CallIds(kept))
  }

  lemma {:induction false} DropCallsShrinks(ms: seq<Message>, ids: set<string>)
    ensures TotalTokens(DropCalls(ms, ids)) <= TotalTokens(ms)
  {
    if ms != [] {
      DropCallsShrinks(ms[1..], ids);
      var m, rest := Prune(ms[0], ids), DropCalls(ms[1..], ids);
      PruneShrinks(ms[0], ids);
      assert ([m] + rest)[1..] == rest;
    }
  }

  lemma PruneShrinks(m: Message, ids: set<string>)
    ensures Tokens(Prune(m, ids)) <= Tokens(m)
  {
  }

  lemma {:induction false} DropResultsShrinks(ms: seq<Message>, ids: set<string>)
    ensures TotalTokens(DropResults(ms, ids)) <= TotalTokens(ms)
  {
    if ms != [] {
      DropResultsShrinks(ms[1..], ids);
      assert ([ms[0]] + DropResults(ms[1..], ids))[1..] == DropResults(ms[1..], ids);
    }
  }

  /** The filter never raises the token estimate. */
  lemma RetainShrinks(ms: seq<Message>)
    ensures TotalTokens(Retain(ms)) <= TotalTokens(ms)
  {
    DropCallsShrinks(ms, ResultIds(ms));
    var kept := DropCalls(ms, ResultIds(ms));
    DropResultsShrinks(kept, CallIds(kept));
  }

  lemma {:induction false} DropCallsMembers(ms: seq<Message>, ids: set<string>, x: Message)
    ensures x in DropCalls(ms, ids) <==>
              exists k :: 0 <= k < |ms| && Prune(ms[k], ids) == x && (ms[k].calls.None? || Visible(x))
  {
    if ms != [] {
      DropCallsMembers(ms[1..], ids, x);
      if x in DropCalls(ms[1..], ids) {
        var k :| 0 <= k < |ms[1..]| && Prune(ms[1..][k], ids) == x && (ms[1..][k].calls.None? || Visible(x));
        assert ms[k + 1] == ms[1..][k];
      }
      if k :| 1 <= k < |ms| && Prune(ms[k], ids) == x && (ms[k].calls.None? || Visible(x)) {
        assert ms[1..][k - 1] == ms[k];
      }
      assert x == Prune(ms[0], ids) && (ms[0].calls.None? || Visible(x)) ==> x in DropCalls(ms, ids);
    }
  }

  lemma {:induction false} DropResultsMembers(ms: seq<Message>, ids: set<string>, x: Message)
    ensures x in DropResults(ms, ids) <==> x in ms && Answered(x, ids)
  {
    if ms != [] {
      DropResultsMembers(ms[1..], ids, x);
      assert ms == [ms[0]] + ms[1..];
    }
  }

  /** Exactly the answered calls stay. */
  lemma CallsAfterDrop(ms: seq<Message>, ids: set<string>, id: string)
    ensures id in CallIds(DropCalls(ms, ids)) <==> id in ids && id in CallIds(ms)
  {
    var kept := DropCalls(ms, ids);
    if id in CallIds(kept) {
      var k, j :| 0 <= k < |kept| && kept[k].calls.Some? && 0 <= j < |kept[k].calls.value| && kept[k].calls.value[j].id == id;
      DropCallsMembers(ms, ids, kept[k]);
      var i :| 0 <= i < |ms| && Prune(ms[i], ids) == kept[k];
      var c := kept[k].calls.value[j];
      assert c in KeepCalls(ms[i].calls.value, ids);
      var j' :| 0 <= j' < |ms[i].calls.value| && ms[i].calls.value[j'] == c;
    }
    if id in ids && id in CallIds(ms) {
      var i, j :| 0 <= i < |ms| && ms[i].calls.Some? && 0 <= j < |ms[i].calls.value| && ms[i].calls.value[j].id == id;
      CallSurvives(ms, ids, i, j);
    }
  }

  /** A call whose result is present stays in its message, which stays. */
  lemma CallSurvives(ms: seq<Message>, ids: set<string>, i: nat, j: nat)
    requires i < |ms| && ms[i].calls.Some? && j < |ms[i].calls.value| && ms[i].calls.value[j].id in ids
    ensures Prune(ms[i], ids) in DropCalls(ms, ids)
    ensures Prune(ms[i], ids).calls.Some? && ms[i].calls.value[j] in Prune(ms[i], ids).calls.value
    ensures ms[i].calls.value[j].id in CallIds(DropCalls(ms, ids))
  {
    var c, x := ms[i].calls.value[j], Prune(ms[i], ids);
    assert c in KeepCalls(ms[i].calls.value, ids);
    DropCallsMembers(ms, ids, x);
    var kept := DropCalls(ms, ids);
    var k :| 0 <= k < |kept| && kept[k] == x;
    var j' :| 0 <= j' < |x.calls.value| && x.calls.value[j'] == c;
    assert kept[k].calls.value[j'].id == c.id;
  }

  lemma ShownCall(ms: seq<Message>, x: Message, j: nat)
    requires x in ms && x.calls.Some? && j < |x.calls.value|
    ensures x.calls.value[j].id in CallIds(ms)
  {
    var i :| 0 <= i < |ms| && ms[i] == x;
    assert ms[i].calls.value[j].id in CallIds(ms);
  }

  /** What the filter shows: the pruned messages that keep something to see and, if results, answer a call. */
  lemma RetainMembers(ms: seq<Message>, x: Message)
    ensures x in Retain(ms) <==>
              exists k :: 0 <= k < |ms| && Shows(ms, k) && Prune(ms[k], ResultIds(ms)) == x
  {
    var ids := ResultIds(ms);
    var kept := DropCalls(ms, ids);
    DropResultsMembers(kept, CallIds(kept), x);
    DropCallsMembers(ms, ids, x);
    forall id ensures id in CallIds(kept) <==> id in ids && id in CallIds(ms) { CallsAfterDrop(ms, ids, id); }
    if x in Retain(ms) {
      var k :| 0 <= k < |ms| && Prune(ms[k], ids) == x && (ms[k].calls.None? || Visible(x));
      assert Shows(ms, k);
    }
    if k :| 0 <= k < |ms| && Shows(ms, k) && Prune(ms[k], ids) == x {
      assert Answered(x, CallIds(kept));
    }
  }

  /** The message at k is shown: it had no calls or still has something to see, and a result answers a call of the view. */
  predicate Shows(ms: seq<Message>, k: nat)
    requires k < |ms|
  {
    && (ms[k].calls.None? || Visible(Prune(ms[k], ResultIds(ms))))
    && (ms[k].role == Tool ==> ms[k].callId.Some? && ms[k].callId.value in CallIds(ms))
  }

  /**
    A message is shown exactly when it made no calls or keeps text, parts, reasoning or an
    answered call, and, if it is a result, answers a call of the view.
  */
  lemma ShownExactly(ms: seq<Message>, k: nat)
    requires k < |ms|
    ensures Shows(ms, k) <==>
              && (|| ms[k].calls.None? || ms[k].reasoning != []
                  || (ms[k].content.Text? && ms[k].content.text != "") || (ms[k].content.Parts? && ms[k].content.parts != [])
                  || exists j :: 0 <= j < |ms[k].calls.value| && ms[k].calls.value[j].id in ResultIds(ms))
              && (ms[k].role == Tool ==> ms[k].callId.Some? && ms[k].callId.value in CallIds(ms))
  {
    if ms[k].calls.Some? {
      var calls, ids := ms[k].calls.value, ResultIds(ms);
      var kept := KeepCalls(calls, ids);
      if j :| 0 <= j < |calls| && calls[j].id in ids { assert calls[j] in kept; }
      if kept != [] {
        assert kept[0] in kept;
        var j :| 0 <= j < |calls| && calls[j] == kept[0];
      }
    }
  }

  /** Afterwards an id is answered exactly when it is called and a shown result answers it. */
  lemma ResultsShown(ms: seq<Message>, id: string)
    ensures id in ResultIds(Retain(ms)) <==>
              exists k :: 0 <= k < |ms| && Shows(ms, k) && ms[k].role == Tool && ms[k].callId == Some(id)
  {
    var out := Retain(ms);
    if id in ResultIds(out) {
      var r :| 0 <= r < |out| && out[r].role == Tool && out[r].callId == Some(id);
      RetainMembers(ms, out[r]);
    }
    if k :| 0 <= k < |ms| && Shows(ms, k) && ms[k].role == Tool && ms[k].callId == Some(id) {
      var x := Prune(ms[k], ResultIds(ms));
      RetainMembers(ms, x);
      var r :| 0 <= r < |out| && out[r] == x;
      assert out[r].callId.value in ResultIds(out);
    }
  }

  /** And called exactly when it is answered in the view and a shown message calls it. */
  lemma CallsShown(ms: seq<Message>, id: string)
    ensures id in CallIds(Retain(ms)) <==> id in ResultIds(ms) && exists k :: 0 <= k < |ms| && Shows(ms, k) && Calls(ms[k], id)
  {
    var out, ids := Retain(ms), ResultIds(ms);
    if id in CallIds(out) {
      var r, j :| 0 <= r < |out| && out[r].calls.Some? && 0 <= j < |out[r].calls.value| && out[r].calls.value[j].id == id;
      RetainMembers(ms, out[r]);
      var k :| 0 <= k < |ms| && Shows(ms, k) && Prune(ms[k], ids) == out[r];
      PrunedCalls(ms[k], ids, id);
    }
    if k :| 0 <= k < |ms| && Shows(ms, k) && Calls(ms[k], id) && id in ids {
      var x := Prune(ms[k], ids);
      RetainMembers(ms, x);
      PrunedCalls(ms[k], ids, id);
      var j :| 0 <= j < |x.calls.value| && x.calls.value[j].id == id;
      ShownCall(out, x, j);
    }
  }

  predicate Calls(m: Message, id: string) {
    m.calls.Some? && exists j :: 0 <= j < |m.calls.value| && m.calls.value[j].id == id
  }

  lemma PrunedCalls(m: Message, ids: set<string>, id: string)
    ensures Calls(Prune(m, ids), id) <==> Calls(m, id) && id in ids
  {
    if m.calls.Some? {
      var kept := KeepCalls(m.calls.value, ids);
      if Calls(Prune(m, ids), id) {
        var j :| 0 <= j < |kept| && kept[j].id == id;
        assert kept[j] in kept;
      }
      if Calls(m, id) && id in ids {
        var j :| 0 <= j < |m.calls.value| && m.calls.value[j].id == id;
        assert m.calls.value[j] in kept;
      }
    }
  }

  /** Nothing is shown that was not both called and answered. */
  lemma RetainSound(ms: seq<Message>, id: string)
    ensures id in ResultIds(Retain(ms)) || id in CallIds(Retain(ms)) ==> id in ResultIds(ms) && id in CallIds(ms)
  {
    ResultsShown(ms, id);
    CallsShown(ms, id);
  }

  /**
    Everything that was both called and answered is shown as both, if and only if one of its
    results and one of its calls is in a message that is shown.
  */
  lemma RetainCompletes(ms: seq<Message>, id: string)
    ensures id in ResultIds(Retain(ms)) && id in CallIds(Retain(ms)) <==>
              && (exists k :: 0 <= k < |ms| && Shows(ms, k) && ms[k].role == Tool && ms[k].callId == Some(id))
              && (exists k :: 0 <= k < |ms| && Shows(ms, k) && Calls(ms[k], id))
  {
    ResultsShown(ms, id);
    CallsShown(ms, id);
  }

  /** A message that makes calls is only ever at risk as a tool result, and a result only if it makes calls itself. */
  lemma PlainIsShown(ms: seq<Message>, k: nat)
    requires k < |ms|
    ensures ms[k].role != Tool && (exists id :: Calls(ms[k], id) && id in ResultIds(ms)) ==> Shows(ms, k)
    ensures ms[k].role == Tool && ms[k].calls.None? && ms[k].callId.Some? && ms[k].callId.value in CallIds(ms) ==> Shows(ms, k)
  {
    if id :| Calls(ms[k], id) && id in ResultIds(ms) { PrunedCalls(ms[k], ResultIds(ms), id); }
  }

  /** The condition matters: an empty result that makes an unanswered call goes, and leaves its own call unanswered. */
  lemma NestedCallBreaks() returns (ms: seq<Message>)
    ensures "a" in ResultIds(ms) && "a" in CallIds(Retain(ms)) && "a" !in ResultIds(Retain(ms))
  {
    var call, nested := ToolCall("a", "", ""), ToolCall("b", "", "");
    var m0 := Message(Assistant, Text(""), Some([call]), None, []);
    var m1 := Message(Tool, Text(""), Some([nested]), Some("a"), []);
    ms := [m0, m1];
    assert ms[1].callId.value in ResultIds(ms);
    assert ResultIds(ms) == {"a"};
    assert !(nested in KeepCalls([nested], {"a"})) && KeepCalls([nested], {"a"}) == [];
    assert !Shows(ms, 1);
    assert m0.calls.value[0].id == "a";
    assert Calls(ms[0], "a");
    PlainIsShown(ms, 0);
    ResultsShown(ms, "a");
    CallsShown(ms, "a");
  }

  /** A result whose call is present is kept as it is, unless it makes calls of its own; those are pruned like all others. */
  lemma ResultSurvives(ms: seq<Message>, k: nat)
    requires k < |ms| && ms[k].role == Tool && ms[k].callId.Some? && ms[k].callId.value in CallIds(ms)
    ensures ms[k].calls.None? ==> ms[k] in Retain(ms)
    ensures Shows(ms, k) <==> ms[k].calls.None? || Visible(Prune(ms[k], ResultIds(ms)))
    ensures Shows(ms, k) ==> Prune(ms[k], ResultIds(ms)) in Retain(ms)
  {
    RetainMembers(ms, Prune(ms[k], ResultIds(ms)));
  }

  // ---------------------------------------------------------------- order

  /** The messages with only the answered calls left in them. */
  function Pruned(ms: seq<Message>, ids: set<string>): (r: seq<Message>)
    ensures |r| == |ms| && forall k :: 0 <= k < |ms| ==> r[k] == Prune(ms[k], ids)
  {
    seq(|ms|, k requires 0 <= k < |ms| => Prune(ms[k], ids))
  }

  lemma {:induction false} DropCallsOrder(ms: seq<Message>, ids: set<string>)
    ensures Subsequence(DropCalls(ms, ids), Pruned(ms, ids))
  {
    if ms != [] {
      DropCallsOrder(ms[1..], ids);
      var m, tail := Prune(ms[0], ids), Pruned(ms[1..], ids);
      assert Pruned(ms, ids) == [m] + tail;
      SubsequenceSelect(m, DropCalls(ms[1..], ids), tail, ms[0].calls.None? || Visible(m));
    }
  }

  lemma {:induction false} DropResultsOrder(ms: seq<Message>, ids: set<string>)
    ensures Subsequence(DropResults(ms, ids), ms)
  {
    if ms != [] {
      DropResultsOrder(ms[1..], ids);
      assert ms == [ms[0]] + ms[1..];
      SubsequenceSelect(ms[0], DropResults(ms[1..], ids), ms[1..], Answered(ms[0], ids));
    }
  }

  /** The filter only drops messages and unanswered calls, and never reorders. */
  lemma RetainKeepsOrder(ms: seq<Message>)
    ensures Subsequence(Retain(ms), Pruned(ms, ResultIds(ms)))
  {
    var kept := DropCalls(ms, ResultIds(ms));
    DropCallsOrder(ms, ResultIds(ms));
    DropResultsOrder(kept, CallIds(kept));
    SubsequenceTransitive(Retain(ms), kept, Pruned(ms, ResultIds(ms)));
  }

  lemma {:induction false} PrunedOrder(a: seq<Message>, b: seq<Message>, ids: set<string>)
    requires Subsequence(a, b)
    ensures Subsequence(Pruned(a, ids), Pruned(b, ids))
    decreases |b|
  {
    if a != [] {
      var a', b' := a[..|a| - 1], b[..|b| - 1];
      var p, q := Pruned(a, ids), Pruned(b, ids);
      assert p[..|p| - 1] == Pruned(a', ids) && q[..|q| - 1] == Pruned(b', ids);
      if Subsequence(a, b') { PrunedOrder(a, b', ids); } else { PrunedOrder(a', b', ids); }
    }
  }

  // ---------------------------------------------------------------- one exchange

  /** The message keeps something to see even if all its calls go. */
  predicate Seen(m: Message) {
    Visible(m.(calls := None))
  }

  /** A result and the message that calls it, both in the view, both survive the filter. */
  lemma ExchangeSurvives(view: seq<Message>, result: Message, caller: Message, i: nat)
    requires result in view && caller in view && result.role == Tool && caller.role != Tool
    requires caller.calls.Some? && i < |caller.calls.value| && result.callId == Some(caller.calls.value[i].id)
    ensures result.calls.None? ==> result in Retain(view)
    ensures Seen(result) ==> exists m :: m in Retain(view) && m.(calls := result.calls) == result
    ensures exists m :: m in Retain(view) && m.(calls := caller.calls) == caller && m.calls.Some?
                        && caller.calls.value[i] in m.calls.value
  {
    var p :| 0 <= p < |view| && view[p] == result;
    var q :| 0 <= q < |view| && view[q] == caller;
    var ids, id := ResultIds(view), caller.calls.value[i].id;
    assert view[p].callId.value in ids;
    assert view[q].calls.value[i].id in CallIds(view);
    ResultSurvives(view, p);
    var x := Prune(result, ids);
    assert x.(calls := result.calls) == result;
    assert Seen(result) ==> Visible(x);
    assert Calls(caller, id);
    PlainIsShown(view, q);
    var y := Prune(caller, ids);
    RetainMembers(view, y);
    assert caller.calls.value[i] in KeepCalls(caller.calls.value, ids);
  }
}
