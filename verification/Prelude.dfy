/** Shared vocabulary: optional values, finite sets, and order-preserving selections. */
module Prelude {

  datatype Option<+T> = None | Some(value: T)

  lemma SubsetSize<T>(a: set<T>, b: set<T>)
    requires a <= b
    ensures |a| <= |b|
  {
    if a != {} {
      var x :| x in a;
      SubsetSize(a - {x}, b - {x});
    }
  }

  function Elements<T>(s: seq<T>): set<T> {
    set x | x in s
  }

  ghost predicate Subsequence<T(!new)>(a: seq<T>, b: seq<T>) {
    a == [] || (b != [] && (
      (a[|a| - 1] == b[|b| - 1] && Subsequence(a[..|a| - 1], b[..|b| - 1])) || Subsequence(a, b[..|b| - 1])))
  }

  ghost predicate Distinct<T(!new)>(a: seq<T>) {
    forall i, j :: 0 <= i < j < |a| ==> a[i] != a[j]
  }

  lemma {:induction false} SubsequenceMembers<T(!new)>(a: seq<T>, b: seq<T>, x: T)
    requires Subsequence(a, b) && x in a
    ensures x in b
  {
    var a', b' := a[..|a| - 1], b[..|b| - 1];
    if Subsequence(a, b') {
      SubsequenceMembers(a, b', x);
    } else if x != a[|a| - 1] {
      SubsequenceMembers(a', b', x);
    }
  }

  lemma {:induction false} SubsequenceDistinct<T(!new)>(a: seq<T>, b: seq<T>)
    requires Subsequence(a, b) && Distinct(b)
    ensures Distinct(a)
  {
    if a != [] {
      var a', b' := a[..|a| - 1], b[..|b| - 1];
      if Subsequence(a, b') {
        SubsequenceDistinct(a, b');
      } else {
        SubsequenceDistinct(a', b');
        forall i | 0 <= i < |a'| ensures a[i] != a[|a| - 1] {
          SubsequenceMembers(a', b', a[i]);
        }
      }
    }
  }

  lemma {:induction false} SubsequencePrefix<T(!new)>(a: seq<T>, x: T, b: seq<T>)
    requires Subsequence(a + [x], b)
    ensures Subsequence(a, b)
    decreases |b|
  {
    var b' := b[..|b| - 1];
    assert (a + [x])[..|a|] == a;
    if Subsequence(a + [x], b') { SubsequencePrefix(a, x, b'); }
  }

  lemma {:induction false} SubsequenceExtend<T(!new)>(a: seq<T>, b: seq<T>, c: seq<T>)
    requires Subsequence(a, b)
    ensures Subsequence(a, b + c)
    decreases |c|
  {
    if c == [] {
      assert b + c == b;
    } else {
      SubsequenceExtend(a, b, c[..|c| - 1]);
      assert (b + c)[..|b + c| - 1] == b + c[..|c| - 1];
    }
  }

  lemma {:induction false} SubsequenceTransitive<T(!new)>(a: seq<T>, b: seq<T>, c: seq<T>)
    requires Subsequence(a, b) && Subsequence(b, c)
    ensures Subsequence(a, c)
    decreases |c|
  {
    if a != [] {
      var a', b', c' := a[..|a| - 1], b[..|b| - 1], c[..|c| - 1];
      if Subsequence(b, c') {
        SubsequenceTransitive(a, b, c');
      } else if Subsequence(a, b') {
        SubsequenceTransitive(a, b', c');
      } else {
        SubsequenceTransitive(a', b', c');
      }
    }
  }

  lemma SubsequenceSnoc<T(!new)>(a: seq<T>, b: seq<T>, x: T)
    requires Subsequence(a, b)
    ensures Subsequence(a + [x], b + [x])
  {
    assert (a + [x])[..|a|] == a && (b + [x])[..|b|] == b;
  }

  lemma {:induction false} SubsequenceSkip<T(!new)>(a: seq<T>, x: T, b: seq<T>)
    requires Subsequence(a, b)
    ensures Subsequence(a, [x] + b)
    decreases |b|
  {
    if a != [] {
      var a', b' := a[..|a| - 1], b[..|b| - 1];
      assert ([x] + b)[..|b|] == [x] + b';
      if Subsequence(a, b') { SubsequenceSkip(a, x, b'); } else { SubsequenceSkip(a', x, b'); }
    }
  }

  lemma {:induction false} SubsequenceCons<T(!new)>(x: T, a: seq<T>, b: seq<T>)
    requires Subsequence(a, b)
    ensures Subsequence([x] + a, [x] + b)
    decreases |b|
  {
    if a == [] {
      SubsequenceExtend([x], [x], b);
      assert [x] + a == [x];
      assert [x][..0] == [];
    } else {
      var a', b' := a[..|a| - 1], b[..|b| - 1];
      assert ([x] + b)[..|b|] == [x] + b' && ([x] + a)[..|a|] == [x] + a';
      if Subsequence(a, b') { SubsequenceCons(x, a, b'); } else { SubsequenceCons(x, a', b'); }
    }
  }

  /** Selecting from the front keeps the order. */
  lemma SubsequenceSelect<T(!new)>(x: T, a: seq<T>, b: seq<T>, keep: bool)
    requires Subsequence(a, b)
    ensures Subsequence(if keep then [x] + a else a, [x] + b)
  {
    SubsequenceCons(x, a, b);
    SubsequenceSkip(a, x, b);
  }
}
