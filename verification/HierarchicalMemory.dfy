/**
  Hierarchical memory: the newest messages verbatim, older ones with their tool outputs
  masked, the oldest replaced by a summary; skill activations survive everywhere.

  `summarize` stands for the two summary formats; the model says what is summarized, not how.
*/
module HierarchicalMemory {
  import opened Prelude
  import opened ToolExchanges
  import opened AggressiveTrim
  import opened Positions

  // ---------------------------------------------------------------- tiers

  datatype Tier = Hot | Warm | Cold

  function ClassifyTier(len: nat, i: nat, hot: nat, warm: nat): Tier
    requires i < len
  {
    var fromEnd := len - 1 - i;
    if fromEnd < hot then Hot else if fromEnd < hot + warm then Warm else Cold
  }

  function HotStart(len: nat, hot: nat): nat {
    SaturatingSub(len, hot)
  }

  function WarmStart(len: nat, hot: nat, warm: nat): nat {
    SaturatingSub(HotStart(len, hot), warm)
  }

  /** The three slices are exactly the three tiers. */
  lemma SlicesAreTiers(len: nat, hot: nat, warm: nat, i: nat)
    requires i < len
    ensures WarmStart(len, hot, warm) <= HotStart(len, hot) <= len
    ensures ClassifyTier(len, i, hot, warm) == Cold <==> i < WarmStart(len, hot, warm)
    ensures ClassifyTier(len, i, hot, warm) == Warm <==> WarmStart(len, hot, warm) <= i < HotStart(len, hot)
    ensures ClassifyTier(len, i, hot, warm) == Hot <==> HotStart(len, hot) <= i
  {
  }

  // ---------------------------------------------------------------- observation masking

  predicate Maskable(ms: seq<Message>, i: nat, extra: set<string>)
    requires i < |ms|
  {
    && ms[i].role == Tool && !ProtectedResult(ms, ms[i])
    && !(ms[i].callId.Some? && ms[i].callId.value in extra)
  }

  function Maskables(ms: seq<Message>, extra: set<string>): (f: seq<bool>)
    ensures |f| == |ms| && forall i :: 0 <= i < |ms| ==> f[i] == Maskable(ms, i, extra)
  {
    seq(|ms|, i requires 0 <= i < |ms| => Maskable(ms, i, extra))
  }

  function Summarized(ms: seq<Message>, m: Message, summarize: (string, Content) -> string): Message {
    m.(role := Tool, content := Text(summarize(ToolName(ms, m), m.content)), reasoning := [])
  }

  /** The summarized form of every message. */
  function AllSummarized(ms: seq<Message>, summarize: (string, Content) -> string): (r: seq<Message>)
    ensures |r| == |ms| && forall i :: 0 <= i < |ms| ==> r[i] == Summarized(ms, ms[i], summarize)
  {
    seq(|ms|, i requires 0 <= i < |ms| => Summarized(ms, ms[i], summarize))
  }

  /** A maskable result is summarized exactly when at least `keep` newer ones follow it. */
  function Masked(ms: seq<Message>, keep: nat, extra: set<string>, summarize: (string, Content) -> string): seq<Message> {
    Blend(Maskables(ms, extra), keep, AllSummarized(ms, summarize), ms)
  }

  lemma NothingMasked(ms: seq<Message>, keep: nat, extra: set<string>, summarize: (string, Content) -> string)
    requires FlaggedFrom(Maskables(ms, extra), 0) <= keep
    ensures Masked(ms, keep, extra, summarize) == ms
  {
    var f := Maskables(ms, extra);
    forall i | 0 <= i < |f| ensures !IsMasked(f, keep, i) { MaskedSet(f, keep, i); }
  }

  method MaskObservations(ms: seq<Message>, keep: nat, extra: set<string>, summarize: (string, Content) -> string)
    returns (result: seq<Message>, maskedCount: nat)
    ensures result == Masked(ms, keep, extra, summarize)
    ensures maskedCount == SaturatingSub(FlaggedFrom(Maskables(ms, extra), 0), keep)
  {
    var f := Maskables(ms, extra);
    var indices := Flagged(f, |f|);
    FlaggedCount(f, |f|);
    if |indices| <= keep {
      NothingMasked(ms, keep, extra, summarize);
      return ms, 0;
    }
    var chosen := Elements(indices[..|indices| - keep]);
    result, maskedCount := Rewritten(ms, AllSummarized(ms, summarize), chosen);
    ChosenAreMasked(f, keep, chosen, AllSummarized(ms, summarize), ms, result);
  }

  /** Masking changes tool results only, and keeps number, order, roles and call ids. */
  lemma MaskingKeepsShape(ms: seq<Message>, keep: nat, extra: set<string>, summarize: (string, Content) -> string, i: nat)
    requires i < |ms|
    ensures var m := Masked(ms, keep, extra, summarize)[i];
            && m.role == ms[i].role && m.callId == ms[i].callId && m.calls == ms[i].calls
            && (ms[i].role != Tool || ProtectedResult(ms, ms[i]) ==> m == ms[i])
  {
  }

  // ---------------------------------------------------------------- the whole view

  /** Skill calls and results of the cold tier, in order. */
  function Rescued(cold: seq<Message>, n: nat): seq<Message>
    requires n <= |cold|
  {
    if n == 0 then []
    else
      var rest, m := Rescued(cold, n - 1), cold[n - 1];
      if ProtectedResult(cold, m) || ProtectedCall(m) then rest + [m] else rest
  }

  function ProtectedIds(ms: seq<Message>, warm: seq<Message>): set<string> {
    set k | 0 <= k < |warm| && ProtectedResult(ms, warm[k]) && warm[k].callId.Some? :: warm[k].callId.value
  }

  function ColdPart(ms: seq<Message>, warmStart: nat, summary: Option<Message>): seq<Message>
    requires warmStart <= |ms|
  {
    if warmStart == 0 then []
    else (if summary.Some? then [summary.value] else []) + Rescued(ms[..warmStart], warmStart)
  }

  function WarmPart(ms: seq<Message>, warmStart: nat, hotStart: nat, keep: nat, summarize: (string, Content) -> string): seq<Message>
    requires warmStart <= hotStart <= |ms|
  {
    var warm := ms[warmStart..hotStart];
    Masked(warm, keep, ProtectedIds(ms, warm), summarize)
  }

  function Assembled(ms: seq<Message>, warmStart: nat, hotStart: nat, keep: nat,
                     summary: Option<Message>, summarize: (string, Content) -> string): seq<Message>
    requires warmStart <= hotStart <= |ms|
  {
    ColdPart(ms, warmStart, summary) + WarmPart(ms, warmStart, hotStart, keep, summarize) + ms[hotStart..]
  }

  method ApplyHierarchicalMemory(ms: seq<Message>, hot: nat, warm: nat, keep: nat,
                                 summary: Option<Message>, summarize: (string, Content) -> string)
    returns (result: seq<Message>)
    ensures result == Retain(Assembled(ms, WarmStart(|ms|, hot, warm), HotStart(|ms|, hot), keep, summary, summarize))
  {
    var hotStart := SaturatingSub(|ms|, hot);
    var warmStart := SaturatingSub(hotStart, warm);
    result := [];
    if warmStart > 0 {
      var cold := ms[..warmStart];
      var rescued: seq<Message> := [];
      var i := 0;
      while i < |cold|
        invariant i <= |cold| && rescued == Rescued(cold, i)
      {
        if ProtectedResult(cold, cold[i]) || ProtectedCall(cold[i]) { rescued := rescued + [cold[i]]; }
        i := i + 1;
      }
      if summary.Some? { result := [summary.value]; }
      result := result + rescued;
    }
    assert result == ColdPart(ms, warmStart, summary);
    if warmStart < hotStart {
      var warmMsgs := ms[warmStart..hotStart];
      var masked, _ := MaskObservations(warmMsgs, keep, ProtectedIds(ms, warmMsgs), summarize);
      result := result + masked;
    } else {
      assert WarmPart(ms, warmStart, hotStart, keep, summarize) == [];
    }
    if hotStart < |ms| {
      result := result + ms[hotStart..];
    } else {
      assert ms[hotStart..] == [];
    }
    assert result == Assembled(ms, warmStart, hotStart, keep, summary, summarize);
    result := Retain(result);
  }

  // ---------------------------------------------------------------- skills survive

  /** Call ids are unique across the history. */
  ghost predicate UniqueIds(ms: seq<Message>) {
    forall a, i, b, j ::
      (0 <= a < |ms| && 0 <= b < |ms| && HoldsCall(ms[a], i) && HoldsCall(ms[b], j)
       && ms[a].calls.value[i].id == ms[b].calls.value[j].id) ==> a == b && i == j
  }

  ghost predicate HoldsCall(m: Message, i: int) {
    m.role == Assistant && m.calls.Some? && 0 <= i < |m.calls.value|
  }

  /** The call at (a, i) is the one this result answers, and it comes first. */
  ghost predicate Answers(ms: seq<Message>, k: nat, a: nat, i: nat) {
    && a < k < |ms| && HoldsCall(ms[a], i) && ms[k].role == Tool && ms[k].callId == Some(ms[a].calls.value[i].id)
  }

  lemma {:induction false} NameInIs(calls: seq<ToolCall>, i: nat)
    requires i < |calls| && forall j :: 0 <= j < |calls| && calls[j].id == calls[i].id ==> j == i
    ensures NameIn(calls, calls[i].id) == Some(calls[i].name)
  {
    if i > 0 {
      assert calls[0].id != calls[i].id;
      forall j | 0 <= j < |calls[1..]| && calls[1..][j].id == calls[i].id ensures j == i - 1 {
        assert calls[j + 1].id == calls[i].id;
      }
      NameInIs(calls[1..], i - 1);
    }
  }

  lemma {:induction false} NameInAbsent(calls: seq<ToolCall>, id: string)
    requires forall j :: 0 <= j < |calls| ==> calls[j].id != id
    ensures NameIn(calls, id) == None
  {
    if calls != [] {
      assert forall j :: 0 <= j < |calls[1..]| ==> calls[1..][j] == calls[j + 1];
      NameInAbsent(calls[1..], id);
    }
  }

  /** With unique ids, any slice that holds the call gives the result its name. */
  lemma {:induction false} NameFromCall(ms: seq<Message>, a: nat, i: nat)
    requires UniqueIds(ms) && a < |ms| && HoldsCall(ms[a], i)
    ensures FindName(ms, ms[a].calls.value[i].id) == ms[a].calls.value[i].name
    decreases |ms|
  {
    var id := ms[a].calls.value[i].id;
    var last := ms[|ms| - 1];
    if a == |ms| - 1 {
      var calls := last.calls.value;
      forall j | 0 <= j < |calls| && calls[j].id == calls[i].id ensures j == i {
        assert HoldsCall(ms[a], j) && HoldsCall(ms[a], i);
      }
      NameInIs(calls, i);
    } else {
      if last.role == Assistant && last.calls.Some? {
        var calls := last.calls.value;
        forall j | 0 <= j < |calls| ensures calls[j].id != id { assert HoldsCall(last, j); }
        NameInAbsent(calls, id);
      }
      var init := ms[..|ms| - 1];
      UniqueSlice(ms, 0, |ms| - 1);
      assert init == ms[0..|ms| - 1] && init[a] == ms[a];
      NameFromCall(init, a, i);
    }
  }

  lemma UniqueSlice(ms: seq<Message>, lo: nat, hi: nat)
    requires UniqueIds(ms) && lo <= hi <= |ms|
    ensures UniqueIds(ms[lo..hi])
  {
    var s := ms[lo..hi];
    forall a, i, b, j | 0 <= a < |s| && 0 <= b < |s| && HoldsCall(s[a], i) && HoldsCall(s[b], j)
      && s[a].calls.value[i].id == s[b].calls.value[j].id
      ensures a == b && i == j
    {
      assert s[a] == ms[lo + a] && s[b] == ms[lo + b];
      assert HoldsCall(ms[lo + a], i) && HoldsCall(ms[lo + b], j);
    }
  }

  lemma {:induction false} RescuedHas(cold: seq<Message>, n: nat, k: nat)
    requires k < n <= |cold| && (ProtectedResult(cold, cold[k]) || ProtectedCall(cold[k]))
    ensures cold[k] in Rescued(cold, n)
  {
    if k < n - 1 { RescuedHas(cold, n - 1, k); }
  }

  /** In the cold tier the result's call is cold too, since it came first. */
  lemma ColdSkillResult(ms: seq<Message>, warmStart: nat, summary: Option<Message>, k: nat, a: nat, i: nat)
    requires UniqueIds(ms) && Answers(ms, k, a, i) && k < warmStart <= |ms|
    requires ms[a].calls.value[i].name == PROTECTED_TOOL
    ensures ms[k] in ColdPart(ms, warmStart, summary)
  {
    var cold := ms[..warmStart];
    assert cold == ms[0..warmStart] && cold[a] == ms[a] && cold[k] == ms[k];
    UniqueSlice(ms, 0, warmStart);
    NameFromCall(cold, a, i);
    RescuedHas(cold, warmStart, k);
  }

  /** In the warm tier the result is recognised through the whole history, even if its call is cold. */
  lemma WarmSkillResult(ms: seq<Message>, warmStart: nat, hotStart: nat, keep: nat,
                        summarize: (string, Content) -> string, k: nat, a: nat, i: nat)
    requires UniqueIds(ms) && Answers(ms, k, a, i) && warmStart <= k < hotStart <= |ms|
    requires ms[a].calls.value[i].name == PROTECTED_TOOL
    ensures ms[k] in WarmPart(ms, warmStart, hotStart, keep, summarize)
  {
    NameFromCall(ms, a, i);
    var warm := ms[warmStart..hotStart];
    assert warm[k - warmStart] == ms[k];
    assert ms[k].callId.value in ProtectedIds(ms, warm);
    assert WarmPart(ms, warmStart, hotStart, keep, summarize)[k - warmStart] == ms[k];
  }

  /** The skill result reaches the assembled view verbatim, wherever the tier boundaries fall. */
  lemma SkillResultAssembled(ms: seq<Message>, warmStart: nat, hotStart: nat, keep: nat, summary: Option<Message>,
                             summarize: (string, Content) -> string, k: nat, a: nat, i: nat)
    requires warmStart <= hotStart <= |ms| && UniqueIds(ms) && Answers(ms, k, a, i)
    requires ms[a].calls.value[i].name == PROTECTED_TOOL
    ensures ms[k] in Assembled(ms, warmStart, hotStart, keep, summary, summarize)
  {
    if k < warmStart {
      ColdSkillResult(ms, warmStart, summary, k, a, i);
    } else if k < hotStart {
      WarmSkillResult(ms, warmStart, hotStart, keep, summarize, k, a, i);
    } else {
      assert ms[hotStart..][k - hotStart] == ms[k];
    }
  }

  /** So does the message that holds the call. */
  lemma SkillCallAssembled(ms: seq<Message>, warmStart: nat, hotStart: nat, keep: nat, summary: Option<Message>,
                           summarize: (string, Content) -> string, a: nat, i: nat)
    requires warmStart <= hotStart <= |ms| && a < |ms| && HoldsCall(ms[a], i)
    requires ms[a].calls.value[i].name == PROTECTED_TOOL
    ensures ms[a] in Assembled(ms, warmStart, hotStart, keep, summary, summarize)
  {
    assert ProtectedCall(ms[a]);
    if a < warmStart {
      var cold := ms[..warmStart];
      assert cold[a] == ms[a];
      RescuedHas(cold, warmStart, a);
    } else if a < hotStart {
      assert ms[warmStart..hotStart][a - warmStart] == ms[a];
      assert WarmPart(ms, warmStart, hotStart, keep, summarize)[a - warmStart] == ms[a];
    } else {
      assert ms[hotStart..][a - hotStart] == ms[a];
    }
  }

  /**
    Skills survive.  In a history with unique call ids, a skill result and its call both
    reach the model, for every choice of tiers, masking and summary: the call in its
    message, the result verbatim.  A result that makes calls of its own loses the
    unanswered ones like any message, and stays if there is anything else to see.
  */
  lemma SkillsSurvive(ms: seq<Message>, hot: nat, warm: nat, keep: nat, summary: Option<Message>,
                      summarize: (string, Content) -> string, k: nat, a: nat, i: nat)
    requires UniqueIds(ms) && Answers(ms, k, a, i) && ms[a].calls.value[i].name == PROTECTED_TOOL
    ensures var out := Retain(Assembled(ms, WarmStart(|ms|, hot, warm), HotStart(|ms|, hot), keep, summary, summarize));
            && (ms[k].calls.None? ==> ms[k] in out)
            && (Seen(ms[k]) ==> exists m :: m in out && m.(calls := ms[k].calls) == ms[k])
            && exists m :: m in out && m.role == Assistant && m.content == ms[a].content && m.calls.Some?
                           && ms[a].calls.value[i] in m.calls.value
  {
    var w, h := WarmStart(|ms|, hot, warm), HotStart(|ms|, hot);
    var view := Assembled(ms, w, h, keep, summary, summarize);
    SkillResultAssembled(ms, w, h, keep, summary, summarize, k, a, i);
    SkillCallAssembled(ms, w, h, keep, summary, summarize, a, i);
    ExchangeSurvives(view, ms[k], ms[a], i);
  }

  // ---------------------------------------------------------------- the view, position by position

  /** A skill call, or the result of one that this slice knows. */
  predicate IsSkill(ms: seq<Message>, m: Message) {
    || (m.role == Tool && m.callId.Some? && FindName(ms, m.callId.value) == "activate_skill")
    || (m.role == Assistant && m.calls.Some? && exists j :: 0 <= j < |m.calls.value| && m.calls.value[j].name == "activate_skill")
  }

  function Skills(cold: seq<Message>): (f: seq<bool>)
    ensures |f| == |cold| && forall i :: 0 <= i < |f| ==> f[i] == IsSkill(cold, cold[i])
  {
    seq(|cold|, i requires 0 <= i < |cold| => IsSkill(cold, cold[i]))
  }

  /** These messages, in this order. */
  ghost predicate MessagesAt(out: seq<Message>, ms: seq<Message>, at: seq<nat>) {
    |out| == |at| && forall j :: 0 <= j < |at| ==> at[j] < |ms| && out[j] == ms[at[j]]
  }

  lemma PushMessage(out: seq<Message>, ms: seq<Message>, at: seq<nat>, n: nat)
    requires MessagesAt(out, ms, at) && n < |ms|
    ensures MessagesAt(out + [ms[n]], ms, at + [n])
  {
  }

  lemma SkillIsProtected(cold: seq<Message>, m: Message)
    ensures IsSkill(cold, m) <==> ProtectedResult(cold, m) || ProtectedCall(m)
  {
  }

  lemma {:induction false} RescuedAre(cold: seq<Message>, f: seq<bool>, n: nat)
    requires n <= |cold| && f == Skills(cold)
    ensures MessagesAt(Rescued(cold, n), cold, Flagged(f, n))
  {
    if n > 0 {
      RescuedAre(cold, f, n - 1);
      SkillIsProtected(cold, cold[n - 1]);
      PushMessage(Rescued(cold, n - 1), cold, Flagged(f, n - 1), n - 1);
      var out, at := Rescued(cold, n), Flagged(f, n);
      assert out == if f[n - 1] then Rescued(cold, n - 1) + [cold[n - 1]] else Rescued(cold, n - 1);
      assert at == if f[n - 1] then Flagged(f, n - 1) + [n - 1] else Flagged(f, n - 1);
    }
  }

  /** The summary, if any, and then the skills of the cold tier in history order. */
  lemma ColdIs(ms: seq<Message>, warmStart: nat, summary: Option<Message>)
    requires warmStart <= |ms|
    ensures var out, cold := ColdPart(ms, warmStart, summary), ms[..warmStart];
            if warmStart == 0 then out == []
            else if summary.Some? then
              out != [] && out[0] == summary.value && MessagesAt(out[1..], cold, Flagged(Skills(cold), |cold|))
            else MessagesAt(out, cold, Flagged(Skills(cold), |cold|))
  {
    var cold := ms[..warmStart];
    var rescued := Rescued(cold, warmStart);
    RescuedAre(cold, Skills(cold), warmStart);
    assert ([] + rescued) == rescued;
    if summary.Some? { assert ([summary.value] + rescued)[1..] == rescued; }
  }

  /** A warm result with at least `keep` newer maskable ones shows its summary; every other warm message is as it was. */
  lemma WarmIs(ms: seq<Message>, warmStart: nat, hotStart: nat, keep: nat, summarize: (string, Content) -> string, i: nat)
    requires warmStart <= hotStart <= |ms| && i < hotStart - warmStart
    ensures var out, warm := WarmPart(ms, warmStart, hotStart, keep, summarize), ms[warmStart..hotStart];
            var f, m := Maskables(warm, ProtectedIds(ms, warm)), ms[warmStart + i];
            && |out| == hotStart - warmStart
            && (f[i] ==> m.role == Tool)
            && (f[i] && FlaggedFrom(f, i + 1) >= keep ==>
                  out[i] == Message(Tool, Text(summarize(if m.callId.Some? then FindName(warm, m.callId.value) else "unknown_tool", m.content)),
                                    m.calls, m.callId, []))
            && (!f[i] || FlaggedFrom(f, i + 1) < keep ==> out[i] == m)
  {
    assert ms[warmStart..hotStart][i] == ms[warmStart + i];
  }

  /** Which warm messages may be masked: results that no lookup, in the tier or in the whole history, finds to be of a skill. */
  lemma MaskableMeans(ms: seq<Message>, warm: seq<Message>, i: nat)
    requires i < |warm|
    ensures Maskables(warm, ProtectedIds(ms, warm))[i] <==>
              && warm[i].role == Tool
              && (warm[i].callId.Some? ==> FindName(warm, warm[i].callId.value) != "activate_skill"
                                           && FindName(ms, warm[i].callId.value) != "activate_skill")
  {
    var ids := ProtectedIds(ms, warm);
    if warm[i].callId.Some? {
      var id := warm[i].callId.value;
      if id in ids {
        var k :| 0 <= k < |warm| && ProtectedResult(ms, warm[k]) && warm[k].callId == Some(id);
      }
      if warm[i].role == Tool && FindName(ms, id) == "activate_skill" {
        assert ProtectedResult(ms, warm[i]);
        assert warm[i].callId.value in ids;
      }
    }
  }

  /** The view before the filter: the cold part, then the warm tier, then the hot tier as it is. */
  lemma ViewIs(ms: seq<Message>, warmStart: nat, hotStart: nat, keep: nat, summary: Option<Message>,
               summarize: (string, Content) -> string, i: nat)
    requires warmStart <= hotStart <= |ms|
    ensures var out, cold := Assembled(ms, warmStart, hotStart, keep, summary, summarize), ColdPart(ms, warmStart, summary);
            && |out| == |cold| + (|ms| - warmStart)
            && (i < |cold| ==> out[i] == cold[i])
            && (warmStart <= i < hotStart ==>
                  out[|cold| + i - warmStart] == WarmPart(ms, warmStart, hotStart, keep, summarize)[i - warmStart])
            && (hotStart <= i < |ms| ==> out[|cold| + i - warmStart] == ms[i])
  {
    var cold, warm := ColdPart(ms, warmStart, summary), WarmPart(ms, warmStart, hotStart, keep, summarize);
    assert |warm| == hotStart - warmStart;
  }
}
