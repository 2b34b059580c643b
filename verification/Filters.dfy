/** Staged filters in general: each stage drops items with a verdict and records the drop.
    A pipeline of stages against a single pass that applies all of them at once. */
module Filters {
  datatype Drop<N, V> = Drop(item: N, verdict: V)

  /** `ok` tells the verdict that lets an item through. */
  datatype Judge<!N, !S, V> = Judge(verdict: (S, N) -> V, ok: V)

  predicate Lets<N, S, V(==)>(f: Judge<N, S, V>, st: S, n: N) {
    f.verdict(st, n) == f.ok
  }

  // The staged pipeline: every stage filters what the stages before it left.

  function Keep<N, S, V(==)>(items: seq<N>, st: S, f: Judge<N, S, V>): seq<N> {
    if items == [] then []
    else
      var n := |items| - 1;
      Keep(items[..n], st, f) + if Lets(f, st, items[n]) then [items[n]] else []
  }

  function Drops<N, S, V(==)>(items: seq<N>, st: S, f: Judge<N, S, V>): seq<Drop<N, V>> {
    if items == [] then []
    else
      var n := |items| - 1;
      Drops(items[..n], st, f) + if Lets(f, st, items[n]) then [] else [Drop(items[n], f.verdict(st, items[n]))]
  }

  function Pipeline<N, S, V(==)>(items: seq<N>, sts: seq<S>, f: Judge<N, S, V>): (seq<N>, seq<Drop<N, V>>)
    decreases |sts|
  {
    if sts == [] then (items, [])
    else
      var rest := Pipeline(Keep(items, sts[0], f), sts[1..], f);
      (rest.0, Drops(items, sts[0], f) + rest.1)
  }

  // The reference: one pass with the conjunction of all stages.

  /** The verdict of the first stage that drops the item. */
  function FirstVerdict<N, S, V(==)>(n: N, sts: seq<S>, f: Judge<N, S, V>): V {
    if sts == [] then f.ok
    else if !Lets(f, sts[0], n) then f.verdict(sts[0], n)
    else FirstVerdict(n, sts[1..], f)
  }

  ghost predicate Passes<N, S, V>(n: N, sts: seq<S>, f: Judge<N, S, V>) {
    forall i :: 0 <= i < |sts| ==> f.verdict(sts[i], n) == f.ok
  }

  ghost function KeepAll<N, S, V>(items: seq<N>, sts: seq<S>, f: Judge<N, S, V>): seq<N> {
    if items == [] then []
    else
      var n := |items| - 1;
      KeepAll(items[..n], sts, f) + if Passes(items[n], sts, f) then [items[n]] else []
  }

  /** One drop per item that fails, with the verdict of its first failing stage. */
  ghost function DropAll<N, S, V>(items: seq<N>, sts: seq<S>, f: Judge<N, S, V>): multiset<Drop<N, V>> {
    if items == [] then multiset{}
    else
      var n := |items| - 1;
      DropAll(items[..n], sts, f)
      + if Passes(items[n], sts, f) then multiset{} else multiset{Drop(items[n], FirstVerdict(items[n], sts, f))}
  }

  lemma {:induction false} KeepAllMembers<N, S, V>(items: seq<N>, sts: seq<S>, f: Judge<N, S, V>, n: N)
    ensures n in KeepAll(items, sts, f) <==> n in items && Passes(n, sts, f)
  {
    if items != [] {
      KeepAllMembers(items[..|items| - 1], sts, f, n);
      assert items == items[..|items| - 1] + [items[|items| - 1]];
    }
  }

  /** An item is dropped for the first stage that does not let it through. */
  lemma {:induction false} FirstIsLeast<N, S, V>(n: N, sts: seq<S>, f: Judge<N, S, V>, i: nat)
    requires i < |sts| && !Lets(f, sts[i], n) && forall j :: 0 <= j < i ==> Lets(f, sts[j], n)
    ensures FirstVerdict(n, sts, f) == f.verdict(sts[i], n)
  {
    if i > 0 {
      assert forall j :: 0 <= j < i - 1 ==> sts[1..][j] == sts[j + 1];
      FirstIsLeast(n, sts[1..], f, i - 1);
    }
  }

  lemma PassesUncons<N, S, V>(n: N, sts: seq<S>, f: Judge<N, S, V>)
    requires sts != []
    ensures Passes(n, sts, f) <==> Lets(f, sts[0], n) && Passes(n, sts[1..], f)
  {
    if Lets(f, sts[0], n) && Passes(n, sts[1..], f) {
      forall i | 0 <= i < |sts| ensures f.verdict(sts[i], n) == f.ok {
        if i > 0 { assert sts[i] == sts[1..][i - 1]; }
      }
    }
  }

  lemma SnocAll<N, S, V>(items: seq<N>, n: N, sts: seq<S>, f: Judge<N, S, V>)
    ensures KeepAll(items + [n], sts, f) == KeepAll(items, sts, f) + if Passes(n, sts, f) then [n] else []
    ensures DropAll(items + [n], sts, f) == DropAll(items, sts, f)
      + if Passes(n, sts, f) then multiset{} else multiset{Drop(n, FirstVerdict(n, sts, f))}
  {
    assert (items + [n])[..|items|] == items;
  }

  lemma SnocStage<N, S, V>(items: seq<N>, n: N, st: S, f: Judge<N, S, V>)
    ensures Keep(items + [n], st, f) == Keep(items, st, f) + if Lets(f, st, n) then [n] else []
    ensures multiset(Drops(items + [n], st, f)) == multiset(Drops(items, st, f))
      + if Lets(f, st, n) then multiset{} else multiset{Drop(n, f.verdict(st, n))}
  {
    assert (items + [n])[..|items|] == items;
  }

  /** The first stage can be pulled out of the single pass. */
  ghost predicate Pulls<N, S, V>(items: seq<N>, sts: seq<S>, f: Judge<N, S, V>)
    requires sts != []
  {
    && KeepAll(items, sts, f) == KeepAll(Keep(items, sts[0], f), sts[1..], f)
    && DropAll(items, sts, f) == multiset(Drops(items, sts[0], f)) + DropAll(Keep(items, sts[0], f), sts[1..], f)
  }

  lemma PullNext<N, S, V>(init: seq<N>, n: N, sts: seq<S>, f: Judge<N, S, V>)
    requires sts != [] && Pulls(init, sts, f)
    ensures Pulls(init + [n], sts, f)
  {
    var kept := Keep(init, sts[0], f);
    PassesUncons(n, sts, f);
    SnocStage(init, n, sts[0], f);
    SnocAll(init, n, sts, f);
    SnocAll(kept, n, sts[1..], f);
    if !Lets(f, sts[0], n) {
      assert kept + [] == kept;
    }
  }

  lemma {:induction false} PullStage<N, S, V>(items: seq<N>, sts: seq<S>, f: Judge<N, S, V>)
    requires sts != []
    ensures Pulls(items, sts, f)
  {
    if items != [] {
      PullStage(items[..|items| - 1], sts, f);
      PullNext(items[..|items| - 1], items[|items| - 1], sts, f);
      assert items == items[..|items| - 1] + [items[|items| - 1]];
    }
  }

  lemma {:induction false} NoStageKeepsAll<N, S, V>(items: seq<N>, f: Judge<N, S, V>)
    ensures KeepAll(items, [], f) == items && DropAll(items, [], f) == multiset{}
  {
    if items != [] {
      NoStageKeepsAll(items[..|items| - 1], f);
    }
  }

  /** The staged pipeline is one order-preserving filter by the conjunction of its stages,
      and it records, as a multiset, exactly one drop for each item that fails, with the
      verdict of the first stage the item fails. */
  lemma {:induction false} PipelineIsConjunction<N, S, V>(items: seq<N>, sts: seq<S>, f: Judge<N, S, V>)
    ensures Pipeline(items, sts, f).0 == KeepAll(items, sts, f)
    ensures multiset(Pipeline(items, sts, f).1) == DropAll(items, sts, f)
    decreases |sts|
  {
    if sts == [] {
      NoStageKeepsAll(items, f);
    } else {
      PullStage(items, sts, f);
      PipelineIsConjunction(Keep(items, sts[0], f), sts[1..], f);
    }
  }

  // ---- the loops ----

  method FilterStage<N, S, V(==)>(items: seq<N>, st: S, f: Judge<N, S, V>) returns (passed: seq<N>, drops: seq<Drop<N, V>>)
    ensures passed == Keep(items, st, f) && drops == Drops(items, st, f)
  {
    passed, drops := [], [];
    for i := 0 to |items|
      invariant passed == Keep(items[..i], st, f) && drops == Drops(items[..i], st, f)
    {
      assert items[..i + 1][..i] == items[..i];
      var verdict := f.verdict(st, items[i]);
      if verdict == f.ok {
        passed := passed + [items[i]];
      } else {
        drops := drops + [Drop(items[i], verdict)];
      }
    }
    assert items[..|items|] == items;
  }

  method RunStages<N, S, V(==)>(items: seq<N>, sts: seq<S>, f: Judge<N, S, V>) returns (passed: seq<N>, drops: seq<Drop<N, V>>)
    ensures passed == KeepAll(items, sts, f) && multiset(drops) == DropAll(items, sts, f)
  {
    passed, drops := items, [];
    ghost var goal := Pipeline(items, sts, f);
    assert sts[0..] == sts;
    for i := 0 to |sts|
      invariant goal.0 == Pipeline(passed, sts[i..], f).0
      invariant goal.1 == drops + Pipeline(passed, sts[i..], f).1
    {
      assert sts[i..][1..] == sts[i + 1..];
      var more;
      passed, more := FilterStage(passed, sts[i], f);
      drops := drops + more;
    }
    assert sts[|sts|..] == [] && drops + [] == drops;
    PipelineIsConjunction(items, sts, f);
  }
}
