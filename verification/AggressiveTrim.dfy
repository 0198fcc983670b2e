/**
  The last resort of the compaction cascade: drop the oldest messages to fit a token
  target, keeping skill activations and the first message of the conversation.
*/
module AggressiveTrim {
  import opened Prelude
  import opened ToolExchanges

  const PROTECTED_TOOL := "activate_skill"
  const UNKNOWN_TOOL := "unknown_tool"

  // ---------------------------------------------------------------- protected messages

  /** The name under which the calls hold this id, first match. */
  function NameIn(calls: seq<ToolCall>, id: string): Option<string> {
    if calls == [] then None
    else if calls[0].id == id then Some(calls[0].name)
    else NameIn(calls[1..], id)
  }

  /** The newest assistant message that holds the id decides. */
  function FindName(ms: seq<Message>, id: string): string {
    if ms == [] then UNKNOWN_TOOL
    else
      var last := ms[|ms| - 1];
      if last.role == Assistant && last.calls.Some? && NameIn(last.calls.value, id).Some?
      then NameIn(last.calls.value, id).value
      else FindName(ms[..|ms| - 1], id)
  }

  function ToolName(ms: seq<Message>, m: Message): string {
    if m.callId.None? then UNKNOWN_TOOL else FindName(ms, m.callId.value)
  }

  predicate ProtectedResult(ms: seq<Message>, m: Message) {
    m.role == Tool && ToolName(ms, m) == PROTECTED_TOOL
  }

  predicate ProtectedCall(m: Message) {
    m.role == Assistant && m.calls.Some? && exists j :: 0 <= j < |m.calls.value| && m.calls.value[j].name == PROTECTED_TOOL
  }

  /** Skill results, their calls, and the first message of the conversation. */
  function Protected(ms: seq<Message>): set<nat> {
    set i: nat | i < |ms| && (i == 0 || ProtectedResult(ms, ms[i]) || ProtectedCall(ms[i]))
  }

  // ---------------------------------------------------------------- selections

  /** The messages at the positions of k below n, in their order. */
  function Pick(ms: seq<Message>, k: set<nat>, n: nat): seq<Message>
    requires n <= |ms|
  {
    if n == 0 then []
    else if n - 1 in k then Pick(ms, k, n - 1) + [ms[n - 1]]
    else Pick(ms, k, n - 1)
  }

  function Cost(ms: seq<Message>, k: set<nat>, n: nat): nat
    requires n <= |ms|
  {
    if n == 0 then 0
    else Cost(ms, k, n - 1) + if n - 1 in k then Tokens(ms[n - 1]) else 0
  }

  lemma {:induction false} PickCosts(ms: seq<Message>, k: set<nat>, n: nat)
    requires n <= |ms|
    ensures TotalTokens(Pick(ms, k, n)) == Cost(ms, k, n)
  {
    if n > 0 {
      PickCosts(ms, k, n - 1);
      TotalConcat(Pick(ms, k, n - 1), [ms[n - 1]]);
      assert [ms[n - 1]][1..] == [];
    }
  }

  lemma {:induction false} CostSame(ms: seq<Message>, a: set<nat>, b: set<nat>, n: nat)
    requires n <= |ms| && forall i :: 0 <= i < n ==> (i in a <==> i in b)
    ensures Cost(ms, a, n) == Cost(ms, b, n) && Pick(ms, a, n) == Pick(ms, b, n)
  {
    if n > 0 { CostSame(ms, a, b, n - 1); }
  }

  /** Adding one position adds its tokens, whatever was added before. */
  lemma {:induction false} CostAdds(ms: seq<Message>, k: set<nat>, x: nat, n: nat)
    requires n <= |ms| && x !in k
    ensures Cost(ms, k + {x}, n) == Cost(ms, k, n) + if x < n then Tokens(ms[x]) else 0
  {
    if n > 0 { CostAdds(ms, k, x, n - 1); }
  }

  lemma {:induction false} CostUnion(ms: seq<Message>, a: set<nat>, b: set<nat>, n: nat)
    requires n <= |ms| && a !! b
    ensures Cost(ms, a + b, n) == Cost(ms, a, n) + Cost(ms, b, n)
  {
    if n > 0 { CostUnion(ms, a, b, n - 1); }
  }

  // ---------------------------------------------------------------- what the scans select

  /** Newest first, every protected message that still fits. */
  function Greedy(ms: seq<Message>, p: set<nat>, n: nat, budget: nat): (k: set<nat>)
    requires n <= |ms|
    ensures forall i :: i in k ==> i < n && i in p
    ensures Cost(ms, k, n) <= budget
  {
    if n == 0 then {}
    else if n - 1 in p && Tokens(ms[n - 1]) <= budget then
      var rest := Greedy(ms, p, n - 1, budget - Tokens(ms[n - 1]));
      CostAdds(ms, rest, n - 1, n - 1);
      CostSame(ms, rest + {n - 1}, rest, n - 1);
      rest + {n - 1}
    else Greedy(ms, p, n - 1, budget)
  }

  /** Newest first, the unprotected messages up to the first that does not fit. */
  function Suffix(ms: seq<Message>, p: set<nat>, n: nat, budget: nat): (k: set<nat>)
    requires n <= |ms|
    ensures forall i :: i in k ==> i < n && i !in p
  {
    if n == 0 then {}
    else if n - 1 in p then Suffix(ms, p, n - 1, budget)
    else if Tokens(ms[n - 1]) <= budget then Suffix(ms, p, n - 1, budget - Tokens(ms[n - 1])) + {n - 1}
    else {}
  }

  /**
    The selected suffix is the longest that fits: it holds every unprotected message from
    some point on, and the next older unprotected message would exceed the budget.
  */
  lemma {:induction false} SuffixIsLongest(ms: seq<Message>, p: set<nat>, n: nat, budget: nat) returns (cut: nat)
    requires n <= |ms|
    ensures cut <= n
    ensures var k := Suffix(ms, p, n, budget);
            && (forall i :: i in k <==> cut <= i < n && i !in p)
            && Cost(ms, k, n) <= budget
            && (cut > 0 ==> cut - 1 !in p && Cost(ms, k, n) + Tokens(ms[cut - 1]) > budget)
  {
    if n == 0 {
      cut := 0;
    } else if n - 1 in p {
      cut := SuffixIsLongest(ms, p, n - 1, budget);
    } else if Tokens(ms[n - 1]) <= budget {
      cut := SuffixIsLongest(ms, p, n - 1, budget - Tokens(ms[n - 1]));
      var rest := Suffix(ms, p, n - 1, budget - Tokens(ms[n - 1]));
      CostSame(ms, rest + {n - 1}, rest, n - 1);
    } else {
      cut := n;
      NothingCosts(ms, n);
    }
  }

  lemma {:induction false} NothingCosts(ms: seq<Message>, n: nat)
    requires n <= |ms|
    ensures Cost(ms, {}, n) == 0
  {
    if n > 0 { NothingCosts(ms, n - 1); }
  }

  /** The positions kept of a conversation under a budget. */
  function Kept(ms: seq<Message>, budget: nat): set<nat> {
    var p, n := Protected(ms), |ms|;
    var reserved := Cost(ms, p, n);
    if reserved > budget then Greedy(ms, p, n, budget)
    else p + Suffix(ms, p, n, budget - reserved)
  }

  function SystemPart(ms: seq<Message>, target: nat, hasSystem: bool): seq<Message> {
    if hasSystem && ms != [] && Tokens(ms[0]) < target then [ms[0]] else []
  }

  function Conversation(ms: seq<Message>, hasSystem: bool): seq<Message> {
    if hasSystem && ms != [] then ms[1..] else ms
  }

  /** What the system message leaves for the conversation. */
  function Budget(ms: seq<Message>, target: nat, hasSystem: bool): (b: nat)
    ensures b + TotalTokens(SystemPart(ms, target, hasSystem)) == target
  {
    var sys := SystemPart(ms, target, hasSystem);
    assert sys != [] ==> sys[1..] == [] && TotalTokens(sys) == Tokens(ms[0]);
    target - TotalTokens(sys)
  }

  /** The messages selected, before incomplete exchanges are dropped. */
  function Selected(ms: seq<Message>, target: nat, hasSystem: bool): seq<Message> {
    var conversation := Conversation(ms, hasSystem);
    SystemPart(ms, target, hasSystem)
    + Pick(conversation, Kept(conversation, Budget(ms, target, hasSystem)), |conversation|)
  }

  function Trimmed(ms: seq<Message>, target: nat, hasSystem: bool): seq<Message> {
    Retain(Selected(ms, target, hasSystem))
  }

  lemma KeptFits(ms: seq<Message>, budget: nat)
    ensures Cost(ms, Kept(ms, budget), |ms|) <= budget
  {
    var p, n := Protected(ms), |ms|;
    if Cost(ms, p, n) <= budget {
      var cut := SuffixIsLongest(ms, p, n, budget - Cost(ms, p, n));
      CostUnion(ms, p, Suffix(ms, p, n, budget - Cost(ms, p, n)), n);
    }
  }

  /** The result never exceeds the target, even after incomplete exchanges are dropped. */
  lemma TrimFits(ms: seq<Message>, target: nat, hasSystem: bool)
    ensures TotalTokens(Trimmed(ms, target, hasSystem)) <= target
  {
    var conversation, budget := Conversation(ms, hasSystem), Budget(ms, target, hasSystem);
    var k := Kept(conversation, budget);
    KeptFits(conversation, budget);
    PickCosts(conversation, k, |conversation|);
    TotalConcat(SystemPart(ms, target, hasSystem), Pick(conversation, k, |conversation|));
    RetainShrinks(Selected(ms, target, hasSystem));
  }

  /** When the protected messages fit, all of them are kept, with the longest unprotected suffix that fits beside them. */
  lemma KeptWhenProtectedFit(ms: seq<Message>, budget: nat) returns (cut: nat)
    requires Cost(ms, Protected(ms), |ms|) <= budget
    ensures var k := Kept(ms, budget);
            && cut <= |ms|
            && (forall i :: i in k <==> 0 <= i < |ms| && (i in Protected(ms) || cut <= i))
            && (cut > 0 ==> cut - 1 !in Protected(ms) && Cost(ms, k, |ms|) + Tokens(ms[cut - 1]) > budget)
  {
    var p, n := Protected(ms), |ms|;
    var rest := budget - Cost(ms, p, n);
    cut := SuffixIsLongest(ms, p, n, rest);
    CostUnion(ms, p, Suffix(ms, p, n, rest), n);
  }

  /** When they do not fit, only protected messages are kept, and one is dropped only if the newer ones leave it no room. */
  lemma {:induction false} GreedyIsTight(ms: seq<Message>, p: set<nat>, n: nat, budget: nat, i: nat)
    requires n <= |ms| && i < n && i in p && i !in Greedy(ms, p, n, budget)
    ensures Cost(ms, Newer(Greedy(ms, p, n, budget), i), n) + Tokens(ms[i]) > budget
  {
    var k := Greedy(ms, p, n, budget);
    if i == n - 1 {
      NothingCosts(ms, n);
      assert Newer(k, i) == {};
    } else if n - 1 in p && Tokens(ms[n - 1]) <= budget {
      var rest := Greedy(ms, p, n - 1, budget - Tokens(ms[n - 1]));
      GreedyIsTight(ms, p, n - 1, budget - Tokens(ms[n - 1]), i);
      CostSame(ms, Newer(k, i), Newer(rest, i), n - 1);
    } else {
      GreedyIsTight(ms, p, n - 1, budget, i);
    }
  }

  function Newer(k: set<nat>, i: nat): set<nat> {
    set x | x in k && x > i
  }

  // ---------------------------------------------------------------- the algorithm

  /** The reserved budget: a sum over a hash set, in whatever order it is iterated. */
  method Reserve(ms: seq<Message>, p: set<nat>) returns (sum: nat)
    requires forall i :: i in p ==> i < |ms|
    ensures sum == Cost(ms, p, |ms|)
  {
    sum := 0;
    var todo := p;
    NothingCosts(ms, |ms|);
    assert p - todo == {};
    while todo != {}
      invariant todo <= p && sum == Cost(ms, p - todo, |ms|)
      decreases todo
    {
      var i :| i in todo;
      CostAdds(ms, p - todo, i, |ms|);
      assert (p - todo) + {i} == p - (todo - {i});
      sum := sum + Tokens(ms[i]);
      todo := todo - {i};
    }
    assert p - todo == p;
  }

  method KeepProtected(ms: seq<Message>, p: set<nat>, budget: nat) returns (kept: set<nat>)
    ensures kept == Greedy(ms, p, |ms|, budget)
  {
    var remaining: nat := budget;
    kept := {};
    var n: nat := |ms|;
    while n > 0
      invariant n <= |ms| && remaining <= budget
      invariant Greedy(ms, p, |ms|, budget) == Greedy(ms, p, n, remaining) + kept
    {
      if n - 1 in p && Tokens(ms[n - 1]) <= remaining {
        kept := {n - 1} + kept;
        remaining := remaining - Tokens(ms[n - 1]);
      }
      n := n - 1;
    }
  }

  method KeepSuffix(ms: seq<Message>, p: set<nat>, budget: nat) returns (kept: set<nat>)
    ensures kept == Suffix(ms, p, |ms|, budget)
  {
    var remaining: nat := budget;
    kept := {};
    var n: nat := |ms|;
    while n > 0
      invariant n <= |ms| && remaining <= budget
      invariant Suffix(ms, p, |ms|, budget) == Suffix(ms, p, n, remaining) + kept
    {
      if n - 1 !in p {
        if Tokens(ms[n - 1]) > remaining { return; }
        kept := {n - 1} + kept;
        remaining := remaining - Tokens(ms[n - 1]);
      }
      n := n - 1;
    }
  }

  method Keep(ms: seq<Message>, budget: nat) returns (kept: set<nat>)
    ensures kept == Kept(ms, budget)
  {
    var p := Protected(ms);
    var reserved := Reserve(ms, p);
    if reserved > budget {
      kept := KeepProtected(ms, p, budget);
    } else {
      var suffix := KeepSuffix(ms, p, budget - reserved);
      kept := p + suffix;
    }
  }

  method Trim(messages: seq<Message>, target: nat, hasSystem: bool) returns (result: seq<Message>)
    ensures result == Trimmed(messages, target, hasSystem)
  {
    result := [];
    var budget := target;
    var conversation := messages;
    if hasSystem && messages != [] {
      var sysTokens := Tokens(messages[0]);
      if sysTokens < budget {
        result := [messages[0]];
        budget := budget - sysTokens;
      }
      conversation := messages[1..];
    }
    assert result == SystemPart(messages, target, hasSystem) && conversation == Conversation(messages, hasSystem);
    assert result != [] ==> result[1..] == [];
    assert budget == target - TotalTokens(result);
    var kept := Keep(conversation, budget);
    result := Retain(result + Pick(conversation, kept, |conversation|));
  }

  lemma {:induction false} PickSkips(ms: seq<Message>, k: set<nat>, lo: nat, n: nat)
    requires lo <= n <= |ms| && forall x :: lo <= x < n ==> x !in k
    ensures Pick(ms, k, n) == Pick(ms, k, lo)
  {
    if lo < n { PickSkips(ms, k, lo, n - 1); }
  }

  /**
    Sorting by position leaves nothing to the order of collection: any ascending list of
    the kept positions gives the same messages.
  */
  lemma {:induction false} PickIsSorted(ms: seq<Message>, k: set<nat>, n: nat, a: seq<nat>)
    requires n <= |ms|
    requires forall i, j :: 0 <= i < j < |a| ==> a[i] < a[j]
    requires forall x :: x in a <==> x in k && x < n
    ensures |Pick(ms, k, n)| == |a| && forall i :: 0 <= i < |a| ==> a[i] < |ms| && Pick(ms, k, n)[i] == ms[a[i]]
    decreases |a|
  {
    if a == [] {
      PickSkips(ms, k, 0, n);
    } else {
      var a', last := a[..|a| - 1], a[|a| - 1];
      assert a == a' + [last] && last in a;
      forall x | last + 1 <= x < n ensures x !in k { assert x !in a; }
      PickSkips(ms, k, last + 1, n);
      forall x ensures x in a' <==> x in k && x < last { assert x in a <==> x in a' || x == last; }
      PickIsSorted(ms, k, last, a');
    }
  }

  lemma {:induction false} PickOrder(ms: seq<Message>, k: set<nat>, n: nat)
    requires n <= |ms|
    ensures Subsequence(Pick(ms, k, n), ms[..n])
  {
    if n > 0 {
      PickOrder(ms, k, n - 1);
      assert ms[..n] == ms[..n - 1] + [ms[n - 1]];
      SubsequenceSnoc(Pick(ms, k, n - 1), ms[..n - 1], ms[n - 1]);
      SubsequenceExtend(Pick(ms, k, n - 1), ms[..n - 1], [ms[n - 1]]);
    }
  }

  lemma SelectedOrder(ms: seq<Message>, target: nat, hasSystem: bool)
    ensures Subsequence(Selected(ms, target, hasSystem), ms)
  {
    var conversation := Conversation(ms, hasSystem);
    var k := Kept(conversation, Budget(ms, target, hasSystem));
    PickOrder(conversation, k, |conversation|);
    assert conversation[..|conversation|] == conversation;
    SystemFirst(ms, target, hasSystem, Pick(conversation, k, |conversation|));
  }

  /** The trimmed history is the original one with messages and unanswered calls left out, never reordered. */
  lemma TrimKeepsOrder(ms: seq<Message>, target: nat, hasSystem: bool)
    ensures exists ids :: Subsequence(Trimmed(ms, target, hasSystem), Pruned(ms, ids))
  {
    var view := Selected(ms, target, hasSystem);
    SelectedOrder(ms, target, hasSystem);
    RetainKeepsOrder(view);
    var ids := ResultIds(view);
    PrunedOrder(view, ms, ids);
    SubsequenceTransitive(Retain(view), Pruned(view, ids), Pruned(ms, ids));
    assert Subsequence(Trimmed(ms, target, hasSystem), Pruned(ms, ids));
  }

  lemma SystemFirst(ms: seq<Message>, target: nat, hasSystem: bool, picked: seq<Message>)
    requires Subsequence(picked, Conversation(ms, hasSystem))
    ensures Subsequence(SystemPart(ms, target, hasSystem) + picked, ms)
  {
    if hasSystem && ms != [] {
      assert ms == [ms[0]] + ms[1..];
      SubsequenceCons(ms[0], picked, ms[1..]);
      SubsequenceSkip(picked, ms[0], ms[1..]);
    }
    assert [] + picked == picked;
  }

  // ---------------------------------------------------------------- skills survive

  lemma {:induction false} NameInCall(calls: seq<ToolCall>, id: string) returns (i: nat)
    requires NameIn(calls, id).Some?
    ensures i < |calls| && calls[i] == ToolCall(id, NameIn(calls, id).value, calls[i].arguments)
  {
    if calls[0].id == id {
      i := 0;
    } else {
      i := NameInCall(calls[1..], id);
      i := i + 1;
    }
  }

  /** A result with a known tool name has its call in the same slice. */
  lemma {:induction false} NameHasCall(ms: seq<Message>, id: string) returns (a: nat, i: nat)
    requires FindName(ms, id) != UNKNOWN_TOOL
    ensures a < |ms| && ms[a].role == Assistant && ms[a].calls.Some? && i < |ms[a].calls.value|
    ensures ms[a].calls.value[i].id == id && ms[a].calls.value[i].name == FindName(ms, id)
  {
    var last := ms[|ms| - 1];
    if last.role == Assistant && last.calls.Some? && NameIn(last.calls.value, id).Some? {
      a := |ms| - 1;
      i := NameInCall(last.calls.value, id);
    } else {
      a, i := NameHasCall(ms[..|ms| - 1], id);
    }
  }

  lemma {:induction false} PickHas(ms: seq<Message>, k: set<nat>, n: nat, i: nat)
    requires i < n <= |ms| && i in k
    ensures ms[i] in Pick(ms, k, n)
  {
    if i < n - 1 { PickHas(ms, k, n - 1, i); }
  }

  lemma ProtectedSelected(ms: seq<Message>, target: nat, hasSystem: bool, i: nat)
    requires var c := Conversation(ms, hasSystem);
             i in Protected(c) && Cost(c, Protected(c), |c|) <= Budget(ms, target, hasSystem)
    ensures Conversation(ms, hasSystem)[i] in Selected(ms, target, hasSystem)
  {
    var c := Conversation(ms, hasSystem);
    PickHas(c, Kept(c, Budget(ms, target, hasSystem)), |c|, i);
  }

  /**
    When the protected messages fit, every skill result of the conversation is in the trimmed
    history, verbatim unless it makes calls of its own, together with its call.
  */
  lemma SkillsSurviveTrim(ms: seq<Message>, target: nat, hasSystem: bool, k: nat)
    requires var c := Conversation(ms, hasSystem);
             k < |c| && ProtectedResult(c, c[k]) && Cost(c, Protected(c), |c|) <= Budget(ms, target, hasSystem)
    ensures var result, out := Conversation(ms, hasSystem)[k], Trimmed(ms, target, hasSystem);
            && (result.calls.None? ==> result in out)
            && (Seen(result) ==> exists m :: m in out && m.(calls := result.calls) == result)
            && exists m, call :: m in out && m.role == Assistant && m.calls.Some? && call in m.calls.value
                                 && Some(call.id) == result.callId && call.name == PROTECTED_TOOL
  {
    var c := Conversation(ms, hasSystem);
    var a, i := NameHasCall(c, c[k].callId.value);
    assert c[a].calls.value[i].name == PROTECTED_TOOL;
    ProtectedSelected(ms, target, hasSystem, k);
    ProtectedSelected(ms, target, hasSystem, a);
    ExchangeSurvives(Selected(ms, target, hasSystem), c[k], c[a], i);
    var m :| m in Trimmed(ms, target, hasSystem) && m.(calls := c[a].calls) == c[a] && m.calls.Some? && c[a].calls.value[i] in m.calls.value;
  }

  // ---------------------------------------------------------------- the first message

  /** The opening message, and the calls and results of skill activations. */
  function Anchors(c: seq<Message>): set<nat> {
    set i: nat | i < |c| &&
      (|| i == 0
       || (c[i].role == Tool && c[i].callId.Some? && FindName(c, c[i].callId.value) == "activate_skill")
       || (c[i].role == Assistant && c[i].calls.Some?
           && exists j :: 0 <= j < |c[i].calls.value| && c[i].calls.value[j].name == "activate_skill"))
  }

  lemma AnchorsAreProtected(c: seq<Message>)
    ensures Anchors(c) == Protected(c)
  {
  }

  /** When the opening message and the skill activations fit, the opening message is selected. */
  lemma FirstIsSelected(ms: seq<Message>, target: nat, hasSystem: bool)
    requires var c := Conversation(ms, hasSystem); c != [] && Cost(c, Anchors(c), |c|) <= Budget(ms, target, hasSystem)
    ensures Conversation(ms, hasSystem)[0] in Selected(ms, target, hasSystem)
  {
    var c := Conversation(ms, hasSystem);
    AnchorsAreProtected(c);
    assert 0 in Anchors(c);
    ProtectedSelected(ms, target, hasSystem, 0);
  }

  /** And it is in the result with only its unanswered calls gone, unless it is an unanswered result or has nothing left to see. */
  lemma FirstSurvives(ms: seq<Message>, target: nat, hasSystem: bool)
    requires var c := Conversation(ms, hasSystem); c != [] && Cost(c, Anchors(c), |c|) <= Budget(ms, target, hasSystem)
    ensures var first, view := Conversation(ms, hasSystem)[0], Selected(ms, target, hasSystem);
            var left := Prune(first, ResultIds(view));
            && left.(calls := first.calls) == first
            && (first.calls.None? || Visible(left) ==>
                  (first.role == Tool ==> first.callId.Some? && first.callId.value in CallIds(view)) ==>
                  left in Trimmed(ms, target, hasSystem))
  {
    FirstIsSelected(ms, target, hasSystem);
    var first, view := Conversation(ms, hasSystem)[0], Selected(ms, target, hasSystem);
    var p :| 0 <= p < |view| && view[p] == first;
    RetainMembers(view, Prune(first, ResultIds(view)));
    assert view[p].calls.None? || Visible(Prune(first, ResultIds(view))) ==> (Shows(view, p) <==>
      (first.role == Tool ==> first.callId.Some? && first.callId.value in CallIds(view)));
  }

  /** A system message below the target comes first and is paid for; one at or above it is left out. */
  lemma SystemIsKept(ms: seq<Message>, target: nat)
    requires ms != []
    ensures Tokens(ms[0]) < target ==>
              && Selected(ms, target, true) != [] && Selected(ms, target, true)[0] == ms[0]
              && Budget(ms, target, true) == target - Tokens(ms[0])
    ensures Tokens(ms[0]) >= target ==> Budget(ms, target, true) == target && Subsequence(Selected(ms, target, true), ms[1..])
    ensures Budget(ms, target, false) == target && Conversation(ms, false) == ms && Conversation(ms, true) == ms[1..]
  {
    var sys := SystemPart(ms, target, true);
    if Tokens(ms[0]) < target {
      assert sys == [ms[0]] && sys[1..] == [];
      assert TotalTokens(sys) == Tokens(ms[0]);
    }
    var c := Conversation(ms, true);
    var k := Kept(c, Budget(ms, target, true));
    PickOrder(c, k, |c|);
    assert c[..|c|] == c;
    assert sys == [] ==> sys + Pick(c, k, |c|) == Pick(c, k, |c|);
  }
}
