/** Sequence helpers shared by the partition and the per-shard loops. */
module Seqs {

  /** The concatenation of a list of shards, in order. */
  function Concat<T>(ss: seq<seq<T>>): seq<T> {
    if ss == [] then [] else Concat(ss[..|ss| - 1]) + ss[|ss| - 1]
  }

  lemma {:induction false} ConcatAppend<T>(a: seq<seq<T>>, b: seq<seq<T>>)
    ensures Concat(a + b) == Concat(a) + Concat(b)
  {
    if b == [] {
      assert a + b == a;
    } else {
      ConcatAppend(a, b[..|b| - 1]);
      assert (a + b)[..|a + b| - 1] == a + b[..|b| - 1];
      AppendAssoc(Concat(a), Concat(b[..|b| - 1]), b[|b| - 1]);
    }
  }

  lemma ConcatOne<T>(x: seq<T>)
    ensures Concat([x]) == x
  {
    assert [x][..0] == [];
  }

  /** Output appended in two steps equals the two parts appended at once. */
  lemma AppendAssoc<T>(a: seq<T>, b: seq<T>, c: seq<T>)
    ensures (a + b) + c == a + (b + c)
  {
  }

  /** Every element of `s` mapped to a (possibly empty) list of outputs, in order. */
  function FlatMap<A, B>(s: seq<A>, f: A -> seq<B>): seq<B> {
    if s == [] then [] else FlatMap(s[..|s| - 1], f) + f(s[|s| - 1])
  }

  lemma {:induction false} FlatMapAppend<A, B>(a: seq<A>, b: seq<A>, f: A -> seq<B>)
    ensures FlatMap(a + b, f) == FlatMap(a, f) + FlatMap(b, f)
  {
    if b == [] {
      assert a + b == a;
    } else {
      FlatMapAppend(a, b[..|b| - 1], f);
      assert (a + b)[..|a + b| - 1] == a + b[..|b| - 1];
      AppendAssoc(FlatMap(a, f), FlatMap(b[..|b| - 1], f), f(b[|b| - 1]));
    }
  }

  /** One step of a loop over `s`: the prefix grows by the next element. */
  lemma FlatMapStep<A, B>(s: seq<A>, i: nat, f: A -> seq<B>)
    requires i < |s|
    ensures FlatMap(s[..i + 1], f) == FlatMap(s[..i], f) + f(s[i])
  {
    assert s[..i + 1][..i] == s[..i];
  }

  /** One more shard: the concatenation grows by exactly that shard. */
  lemma ConcatStep<T>(shards: seq<seq<T>>, i: nat)
    requires i < |shards|
    ensures Concat(shards[..i + 1]) == Concat(shards[..i]) + shards[i]
  {
    assert shards[..i + 1] == shards[..i] + [shards[i]];
    ConcatAppend(shards[..i], [shards[i]]);
    ConcatOne(shards[i]);
  }

  /** Running a list of shards one after the other: the next shard's output follows the output so far. */
  lemma FlatMapConcatStep<A, B>(shards: seq<seq<A>>, i: nat, f: A -> seq<B>)
    requires i < |shards|
    ensures FlatMap(Concat(shards[..i + 1]), f) == FlatMap(Concat(shards[..i]), f) + FlatMap(shards[i], f)
  {
    ConcatStep(shards, i);
    FlatMapAppend(Concat(shards[..i]), shards[i], f);
  }

  /** `order` lists every element of `s` exactly once: one possible iteration order of a set. */
  ghost predicate IsEnumeration<T(!new)>(order: seq<T>, s: set<T>) {
    && (forall i, j :: 0 <= i < j < |order| ==> order[i] != order[j])
    && (forall x :: x in order <==> x in s)
  }

  /** An enumeration lists nothing exactly when the set is empty. */
  lemma EnumerationOfEmpty<T(!new)>(order: seq<T>, s: set<T>)
    requires IsEnumeration(order, s)
    ensures order == [] <==> s == {}
  {
    if order != [] {
      assert order[0] in s;
    }
  }

  /** After the first element, an enumeration lists the rest of the set. */
  lemma EnumerationTail<T(!new)>(order: seq<T>, s: set<T>)
    requires IsEnumeration(order, s) && order != []
    ensures IsEnumeration(order[1..], s - {order[0]})
  {
    forall x
      ensures x in order[1..] <==> x in s - {order[0]}
    {
      if x in order[1..] {
        var i :| 0 <= i < |order[1..]| && order[1..][i] == x;
        assert order[i + 1] == x;
      }
      if x in s - {order[0]} {
        var i :| 0 <= i < |order| && order[i] == x;
        assert order[1..][i - 1] == x;
      }
    }
  }

  /**
   * Iterating over a Python set: the order is the interpreter's business, so it is
   * modelled as an arbitrary choice of the next element.
   */
  method Enumerate<T(!new)>(s: set<T>) returns (order: seq<T>)
    ensures IsEnumeration(order, s)
    ensures |order| == |s|
  {
    order := [];
    var rest := s;
    while rest != {}
      invariant rest <= s
      invariant forall x :: x in order <==> x in s - rest
      invariant forall i, j :: 0 <= i < j < |order| ==> order[i] != order[j]
      invariant |order| + |rest| == |s|
      decreases rest
    {
      var x :| x in rest;
      order := order + [x];
      rest := rest - {x};
    }
  }
}
