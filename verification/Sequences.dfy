/** Facts about sequences the components share: collecting, permuting, removing repeats. */
module Sequences {
  import opened Core

  /** f applied to every element, the answers joined in order. */
  function Collect<A, B>(f: A -> seq<B>, s: seq<A>): seq<B> {
    if s == [] then [] else Collect(f, s[..|s| - 1]) + f(s[|s| - 1])
  }

  lemma {:induction false} CollectStep<A, B>(f: A -> seq<B>, s: seq<A>, i: nat)
    requires i < |s|
    ensures Collect(f, s[..i + 1]) == Collect(f, s[..i]) + f(s[i])
  {
    assert s[..i + 1][..i] == s[..i];
  }

  lemma {:induction false} CollectOne<A, B>(f: A -> seq<B>, x: A)
    ensures Collect(f, [x]) == f(x)
  {
    CollectStep(f, [x], 0);
    assert [x][..1] == [x] && [x][..0] == [];
  }

  lemma {:induction false} CollectJoin<A, B>(f: A -> seq<B>, s: seq<A>, t: seq<A>)
    ensures Collect(f, s + t) == Collect(f, s) + Collect(f, t)
  {
    if t == [] {
      assert s + t == s;
    } else {
      var n := |t| - 1;
      assert (s + t)[..|s + t| - 1] == s + t[..n];
      CollectJoin(f, s, t[..n]);
    }
  }

  lemma {:induction false} CollectElements<A, B>(f: A -> seq<B>, s: seq<A>, y: B)
    ensures y in Collect(f, s) <==> exists x :: x in s && y in f(x)
  {
    if s != [] {
      var n := |s| - 1;
      CollectElements(f, s[..n], y);
      assert s == s[..n] + [s[n]];
      if y in Collect(f, s[..n]) {
        var x :| x in s[..n] && y in f(x);
        assert x in s;
      }
    }
  }

  /** Taking the element at i out of the middle. */
  function Without<A>(s: seq<A>, i: nat): (r: seq<A>)
    requires i < |s|
    ensures multiset(r) + multiset{s[i]} == multiset(s)
  {
    assert s == s[..i] + [s[i]] + s[i + 1..];
    s[..i] + s[i + 1..]
  }

  /** Collecting over a permutation collects a permutation. */
  lemma {:induction false} CollectPermutes<A, B>(f: A -> seq<B>, s: seq<A>, t: seq<A>)
    requires multiset(s) == multiset(t)
    ensures multiset(Collect(f, s)) == multiset(Collect(f, t))
    decreases |s|
  {
    if s == [] {
      assert |multiset(t)| == 0;
      assert t == [];
    } else {
      var n := |s| - 1;
      var x := s[n];
      assert s == s[..n] + [x];
      assert x in multiset(t);
      var i :| 0 <= i < |t| && t[i] == x;
      var rest := Without(t, i);
      assert multiset(s) == multiset(s[..n]) + multiset{x};
      assert multiset(s[..n]) == multiset(s) - multiset{x};
      assert multiset(rest) == multiset(t) - multiset{x};
      CollectPermutes(f, s[..n], rest);
      CollectMiddle(f, t, i);
    }
  }

  lemma {:induction false} CollectMiddle<A, B>(f: A -> seq<B>, t: seq<A>, i: nat)
    requires i < |t|
    ensures multiset(Collect(f, t)) == multiset(Collect(f, Without(t, i))) + multiset(f(t[i]))
  {
    CollectJoin(f, t[..i], t[i + 1..]);
    CollectStep(f, t, i);
    CollectJoin(f, t[..i + 1], t[i + 1..]);
    assert t == t[..i + 1] + t[i + 1..];
  }

  lemma PermutationsShareElements<A>(s: seq<A>, t: seq<A>)
    requires multiset(s) == multiset(t)
    ensures forall x :: x in s <==> x in t
    ensures |s| == |t|
  {
    assert forall x :: x in s <==> x in multiset(s);
    assert forall x :: x in t <==> x in multiset(t);
    assert |s| == |multiset(s)| == |multiset(t)| == |t|;
  }

  ghost predicate NoRepeats<A>(s: seq<A>) {
    forall i, j :: 0 <= i < j < |s| ==> s[i] != s[j]
  }

  /** The first occurrence of every element, in order. */
  function FirstOccurrences<A(==)>(s: seq<A>): seq<A> {
    if s == [] then []
    else
      var d := FirstOccurrences(s[..|s| - 1]);
      var x := s[|s| - 1];
      if x in d then d else d + [x]
  }

  lemma {:induction false} FirstOccurrencesMeaning<A>(s: seq<A>)
    ensures NoRepeats(FirstOccurrences(s)) && forall x :: x in FirstOccurrences(s) <==> x in s
  {
    if s != [] {
      FirstOccurrencesMeaning(s[..|s| - 1]);
      assert s == s[..|s| - 1] + [s[|s| - 1]];
    }
  }

  lemma {:induction false} LengthWithoutRepeats<A>(s: seq<A>)
    requires NoRepeats(s)
    ensures |s| == |set x | x in s|
  {
    if s == [] {
      assert (set x | x in s) == {};
    } else {
      var n := |s| - 1;
      LengthWithoutRepeats(s[..n]);
      assert s == s[..n] + [s[n]];
      assert (set x | x in s) == (set x | x in s[..n]) + {s[n]};
    }
  }

  // --- folding -----------------------------------------------------------------

  function Fold<S, A>(step: (S, A) -> S, s: S, xs: seq<A>): S
    decreases |xs|
  {
    if xs == [] then s else Fold(step, step(s, xs[0]), xs[1..])
  }

  lemma {:induction false} FoldJoin<S, A>(step: (S, A) -> S, s: S, a: seq<A>, b: seq<A>)
    ensures Fold(step, s, a + b) == Fold(step, Fold(step, s, a), b)
    decreases |a|
  {
    if a == [] {
      assert a + b == b;
    } else {
      assert (a + b)[1..] == a[1..] + b;
      FoldJoin(step, step(s, a[0]), a[1..], b);
    }
  }

  lemma {:induction false} FoldOne<S, A>(step: (S, A) -> S, s: S, x: A)
    ensures Fold(step, s, [x]) == step(s, x)
  {
    assert [x][1..] == [];
  }

  lemma {:induction false} FoldFour<S, A>(step: (S, A) -> S, s: S, a: A, b: A, c: A, d: A)
    ensures Fold(step, s, [a, b, c, d]) == step(step(step(step(s, a), b), c), d)
  {
    FoldJoin(step, s, [a], [b, c, d]);
    FoldJoin(step, step(s, a), [b], [c, d]);
    FoldJoin(step, step(step(s, a), b), [c], [d]);
    FoldOne(step, s, a);
    FoldOne(step, step(s, a), b);
    FoldOne(step, step(step(s, a), b), c);
    FoldOne(step, step(step(step(s, a), b), c), d);
    assert [a] + [b, c, d] == [a, b, c, d] && [b] + [c, d] == [b, c, d] && [c] + [d] == [c, d];
  }

  // --- cutting at a separator ------------------------------------------------------

  /** Where c first stands in s. */
  function Find<A(==)>(s: seq<A>, c: A): (at: Option<nat>)
    ensures at.Some? ==> at.value < |s| && s[at.value] == c && c !in s[..at.value]
    ensures at.None? <==> c !in s
  {
    if s == [] then None
    else if s[0] == c then Some(0)
    else
      var r := Find(s[1..], c);
      if r.None? then None
      else
        assert s[..r.value + 1] == [s[0]] + s[1..][..r.value];
        Some(r.value + 1)
  }

  lemma {:induction false} FindAfter<A>(a: seq<A>, c: A, b: seq<A>)
    requires c !in a
    ensures Find(a + [c] + b, c) == Some(|a|)
  {
    var s := a + [c] + b;
    assert s[|a|] == c;
    var at := Find(s, c).value;
    assert forall i :: 0 <= i < |a| ==> s[i] == a[i] != c;
    assert forall i :: 0 <= i < at ==> s[i] in s[..at];
  }

  /** The fields between separators: always at least one. */
  function Fields<A(==)>(s: seq<A>, c: A): (r: seq<seq<A>>)
    ensures r != []
    decreases |s|
  {
    var at := Find(s, c);
    if at.None? then [s] else [s[..at.value]] + Fields(s[at.value + 1..], c)
  }

  lemma {:induction false} FieldsOfJoined<A>(a: seq<A>, c: A, b: seq<A>)
    requires c !in a
    ensures Fields(a + [c] + b, c) == [a] + Fields(b, c)
  {
    FindAfter(a, c, b);
    assert (a + [c] + b)[..|a|] == a;
    assert (a + [c] + b)[|a| + 1..] == b;
  }

  function Joined<A>(fields: seq<seq<A>>, c: A): seq<A> {
    if fields == [] then [] else if |fields| == 1 then fields[0] else fields[0] + [c] + Joined(fields[1..], c)
  }

  lemma {:induction false} FieldsOfJoin<A>(fields: seq<seq<A>>, c: A)
    requires fields != [] && forall f <- fields :: c !in f
    ensures Fields(Joined(fields, c), c) == fields
  {
    if |fields| > 1 {
      FieldsOfJoin(fields[1..], c);
      FieldsOfJoined(fields[0], c, Joined(fields[1..], c));
    }
  }
}
