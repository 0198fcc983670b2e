/** Ascending lists of flagged positions, and the rank of a position in them. */
module Positions {
  import opened Prelude

  /** The flagged positions below n, in order. */
  function Flagged(f: seq<bool>, n: nat): (r: seq<nat>)
    requires n <= |f|
    ensures forall i: nat :: i in r <==> i < n && f[i]
  {
    if n == 0 then []
    else if f[n - 1] then Flagged(f, n - 1) + [n - 1]
    else Flagged(f, n - 1)
  }

  /** How many positions are flagged at or after i. */
  function FlaggedFrom(f: seq<bool>, i: nat): nat
    requires i <= |f|
    decreases |f| - i
  {
    if i == |f| then 0 else (if f[i] then 1 else 0) + FlaggedFrom(f, i + 1)
  }

  lemma {:induction false} FlaggedCount(f: seq<bool>, n: nat)
    requires n <= |f|
    ensures |Flagged(f, n)| + FlaggedFrom(f, n) == FlaggedFrom(f, 0)
  {
    if n > 0 { FlaggedCount(f, n - 1); }
  }

  lemma {:induction false} FlaggedAscend(f: seq<bool>, n: nat)
    requires n <= |f|
    ensures forall a, b :: 0 <= a < b < |Flagged(f, n)| ==> Flagged(f, n)[a] < Flagged(f, n)[b]
  {
    if n > 0 {
      FlaggedAscend(f, n - 1);
      var r := Flagged(f, n - 1);
      assert forall a :: 0 <= a < |r| ==> r[a] in r;
    }
  }

  /** The list up to i is where the list of everything begins; i comes next if flagged. */
  lemma {:induction false} FlaggedRank(f: seq<bool>, i: nat, n: nat)
    requires i < n <= |f| && f[i]
    ensures |Flagged(f, i)| < |Flagged(f, n)| && Flagged(f, n)[|Flagged(f, i)|] == i
  {
    if i < n - 1 { FlaggedRank(f, i, n - 1); }
  }

  /** Being among the first `count` of the list is having enough flagged positions behind. */
  lemma AmongFirst(f: seq<bool>, i: nat, count: nat)
    requires i < |f| && f[i] && count <= FlaggedFrom(f, 0) == |Flagged(f, |f|)|
    ensures i in Flagged(f, |f|)[..count] <==> FlaggedFrom(f, i + 1) >= FlaggedFrom(f, 0) - count
  {
    var all, rank := Flagged(f, |f|), |Flagged(f, i)|;
    FlaggedRank(f, i, |f|);
    FlaggedCount(f, i);
    if rank < count {
      assert all[..count][rank] == i;
    } else {
      FlaggedAscend(f, |f|);
      assert forall j :: 0 <= j < count ==> all[..count][j] < all[rank];
    }
  }

  // ---------------------------------------------------------------- masking all but the last

  function SaturatingSub(a: nat, b: nat): nat {
    if a < b then 0 else a - b
  }

  function Min(a: nat, b: nat): nat {
    if a < b then a else b
  }

  /** A flagged position is masked exactly when at least `keep` flagged ones follow it. */
  predicate IsMasked(f: seq<bool>, keep: nat, i: nat)
    requires i < |f|
  {
    f[i] && FlaggedFrom(f, i + 1) >= keep
  }

  /** The set collected for masking is exactly the flagged positions with enough flagged ones behind. */
  lemma MaskedSet(f: seq<bool>, keep: nat, i: nat)
    requires i < |f|
    ensures |Flagged(f, |f|)| == FlaggedFrom(f, 0)
    ensures var toMask := SaturatingSub(FlaggedFrom(f, 0), keep);
            && (i in Flagged(f, |f|)[..toMask] <==> IsMasked(f, keep, i))
            && (IsMasked(f, keep, i) <==> Min(|Flagged(f, i + 1)|, toMask) == Min(|Flagged(f, i)|, toMask) + 1)
            && (!IsMasked(f, keep, i) <==> Min(|Flagged(f, i + 1)|, toMask) == Min(|Flagged(f, i)|, toMask))
  {
    FlaggedCount(f, |f|);
    FlaggedCount(f, i);
    FlaggedCount(f, i + 1);
    if f[i] {
      AmongFirst(f, i, SaturatingSub(FlaggedFrom(f, 0), keep));
    } else {
      assert i !in Flagged(f, |f|);
    }
  }

  /** How many positions below n are chosen. */
  function ChosenBelow(chosen: set<nat>, n: nat): nat {
    if n == 0 then 0 else ChosenBelow(chosen, n - 1) + if n - 1 in chosen then 1 else 0
  }

  lemma {:induction false} ChosenCount(f: seq<bool>, keep: nat, n: nat)
    requires n <= |f| && |Flagged(f, |f|)| == FlaggedFrom(f, 0) >= keep
    ensures ChosenBelow(Elements(Flagged(f, |f|)[..FlaggedFrom(f, 0) - keep]), n) == Min(|Flagged(f, n)|, FlaggedFrom(f, 0) - keep)
  {
    if n > 0 {
      ChosenCount(f, keep, n - 1);
      MaskedSet(f, keep, n - 1);
    }
  }

  /** The masked form where at least `spared` flagged positions follow a flagged one, the plain form elsewhere. */
  function Blend<T>(f: seq<bool>, spared: nat, masked: seq<T>, plain: seq<T>): (r: seq<T>)
    requires |f| == |masked| == |plain|
    ensures |r| == |f| && forall i :: 0 <= i < |f| ==> r[i] == if IsMasked(f, spared, i) then masked[i] else plain[i]
  {
    seq(|f|, i requires 0 <= i < |f| => if IsMasked(f, spared, i) then masked[i] else plain[i])
  }

  /** The rewriting loop: the chosen messages in their masked form, every other one moved over as it is. */
  method Rewritten<T>(plain: seq<T>, masked: seq<T>, chosen: set<nat>) returns (result: seq<T>, count: nat)
    requires |masked| == |plain|
    ensures |result| == |plain| && count == ChosenBelow(chosen, |plain|)
    ensures forall j: nat :: j < |plain| ==> result[j] == if j in chosen then masked[j] else plain[j]
  {
    result, count := [], 0;
    for i := 0 to |plain|
      invariant |result| == i && count == ChosenBelow(chosen, i)
      invariant forall j: nat :: j < i ==> result[j] == if j in chosen then masked[j] else plain[j]
    {
      if i in chosen {
        result := result + [masked[i]];
        count := count + 1;
      } else {
        result := result + [plain[i]];
      }
    }
  }

  /** What the loop chose by membership is what is masked by rank. */
  lemma ChosenAreMasked<T>(f: seq<bool>, spared: nat, chosen: set<nat>, masked: seq<T>, plain: seq<T>, result: seq<T>)
    requires |f| == |masked| == |plain| == |result|
    requires var all := Flagged(f, |f|); spared <= |all| && chosen == Elements(all[..|all| - spared])
    requires forall j: nat :: j < |f| ==> result[j] == if j in chosen then masked[j] else plain[j]
    ensures result == Blend(f, spared, masked, plain)
    ensures ChosenBelow(chosen, |f|) == |Flagged(f, |f|)| - spared
  {
    FlaggedCount(f, |f|);
    ChosenCount(f, spared, |f|);
    forall i | 0 <= i < |f| ensures i in chosen <==> IsMasked(f, spared, i) { MaskedSet(f, spared, i); }
  }
}
