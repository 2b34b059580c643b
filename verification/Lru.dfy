/** The bounded least-recently-used table shared by the edge caches
    (internal/edge/lru.go): a map and a recency list, most recent first. */
module Lru {
  import opened Traces

  datatype Lru<V> = Lru(entries: map<string, V>, order: seq<string>) {
    /** Map and recency list agree. */
    ghost predicate Valid() {
      && (forall i, j :: 0 <= i < j < |order| ==> order[i] != order[j])
      && (forall k :: k in order <==> k in entries)
    }

    function Touch(k: string): Lru<V> {
      if k in entries then Lru(entries, ToFront(order, k)) else this
    }

    function Set(k: string, v: V): Lru<V> {
      Lru(entries[k := v], ToFront(order, k))
    }

    /** Keep the `Bound(max)` most recently used keys. */
    function Evict(max: int): Lru<V> {
      var kept := if |order| <= Bound(max) then order else order[..Bound(max)];
      Lru(Restrict(entries, kept), kept)
    }

    function Delete(k: string): Lru<V> {
      Lru(entries - {k}, Without(order, k))
    }
  }

  function Restrict<V>(m: map<string, V>, keys: seq<string>): map<string, V> {
    map k | k in m && k in keys :: m[k]
  }

  function Bound(max: int): nat {
    if max <= 0 then 1 else max
  }

  function Without(order: seq<string>, k: string): (r: seq<string>)
    ensures forall x :: x in r <==> x in order && x != k
    ensures k !in order ==> r == order
    ensures |r| <= |order|
  {
    if order == [] then []
    else if order[0] == k then Without(order[1..], k)
    else [order[0]] + Without(order[1..], k)
  }

  function ToFront(order: seq<string>, k: string): seq<string> {
    [k] + Without(order, k)
  }

  ghost predicate Distinct(order: seq<string>) {
    forall i, j :: 0 <= i < j < |order| ==> order[i] != order[j]
  }

  lemma {:induction false} WithoutKeepsDistinct(order: seq<string>, k: string)
    requires Distinct(order)
    ensures Distinct(Without(order, k))
  {
    if order != [] {
      WithoutKeepsDistinct(order[1..], k);
      var rest := Without(order[1..], k);
      assert order[0] !in order[1..];
      if order[0] != k {
        forall i, j | 0 <= i < j < |Without(order, k)| ensures Without(order, k)[i] != Without(order, k)[j] {
          assert Without(order, k)[j] == rest[j-1] && rest[j-1] in rest;
        }
      }
    }
  }

  /** In a list without repetitions, dropping `k` cuts it out where it stands. */
  lemma {:induction false} WithoutCuts(order: seq<string>, i: nat)
    requires Distinct(order) && i < |order|
    ensures Without(order, order[i]) == order[..i] + order[i+1..]
  {
    if i == 0 {
      assert order[0] !in order[1..];
    } else {
      WithoutCuts(order[1..], i - 1);
      assert order[1..][..i-1] == order[1..i] && order[1..][i..] == order[i+1..];
    }
  }

  /** Moving, writing and deleting keep map and list in agreement. */
  lemma OperationsKeepAgreement<V>(c: Lru<V>, k: string, v: V)
    requires c.Valid()
    ensures c.Touch(k).Valid() && c.Set(k, v).Valid() && c.Delete(k).Valid()
  {
    WithoutKeepsDistinct(c.order, k);
    assert Distinct(ToFront(c.order, k));
  }

  /** An eviction leaves a table within its bound that holds exactly the most
      recently used keys, with the values they had. */
  lemma EvictKeepsRecent<V>(c: Lru<V>, max: int)
    requires c.Valid()
    ensures c.Evict(max).Valid() && |c.Evict(max).order| <= Bound(max) && c.Evict(max).order <= c.order
    ensures forall k :: k in c.Evict(max).entries ==> k in c.entries && c.Evict(max).entries[k] == c.entries[k]
    ensures forall i :: 0 <= i < |c.order| ==> (c.order[i] in c.Evict(max).entries <==> i < if max > 0 then max else 1)
  {
    var kept := c.Evict(max).order;
    forall i | 0 <= i < |c.order|
      ensures c.order[i] in kept <==> i < Bound(max)
    {
      if i < Bound(max) {
        assert kept[i] == c.order[i];
      }
    }
  }

  /** Writing a key and then evicting keeps that key. */
  lemma WrittenKeySurvives<V>(c: Lru<V>, k: string, v: V, max: int)
    requires c.Valid()
    ensures var c' := c.Set(k, v).Evict(max); c'.Valid() && |c'.order| <= Bound(max) && k in c'.entries && c'.entries[k] == v
  {
    OperationsKeepAgreement(c, k, v);
    EvictKeepsRecent(c.Set(k, v), max);
    assert c.Set(k, v).order[0] == k;
  }

  // ---- recency over runs ----

  datatype Op<V> = Touched(k: string) | Written(k: string, v: V) | Trimmed(max: int) | Deleted(k: string)

  function Do<V>(c: Lru<V>, op: Op<V>): Lru<V> {
    match op
    case Touched(k) => c.Touch(k)
    case Written(k, v) => c.Set(k, v)
    case Trimmed(max) => c.Evict(max)
    case Deleted(k) => c.Delete(k)
  }

  function Run<V>(ops: seq<Op<V>>): Lru<V> {
    Fold(Do, Lru(map[], []), ops)
  }

  predicate Uses<V>(op: Op<V>, k: string) {
    (op.Touched? || op.Written?) && op.k == k
  }

  /** How many operations there were up to the last use of the key, 0 if it was never used. */
  function LastUse<V>(ops: seq<Op<V>>, k: string): nat {
    if ops == [] then 0
    else if Uses(ops[|ops| - 1], k) then |ops| else LastUse(ops[..|ops| - 1], k)
  }

  lemma {:induction false} LastUseInRange<V>(ops: seq<Op<V>>, k: string)
    ensures LastUse(ops, k) <= |ops|
  {
    if ops != [] {
      LastUseInRange(ops[..|ops| - 1], k);
    }
  }

  ghost predicate ByLastUse<V>(ops: seq<Op<V>>, order: seq<string>) {
    forall i, j :: 0 <= i < j < |order| ==> LastUse(ops, order[i]) > LastUse(ops, order[j])
  }

  lemma {:induction false} WithoutKeepsByLastUse<V>(ops: seq<Op<V>>, order: seq<string>, k: string)
    requires ByLastUse(ops, order)
    ensures ByLastUse(ops, Without(order, k))
  {
    if order != [] {
      WithoutKeepsByLastUse(ops, order[1..], k);
      var rest := Without(order[1..], k);
      if order[0] != k {
        forall j | 0 < j < |Without(order, k)| ensures LastUse(ops, order[0]) > LastUse(ops, Without(order, k)[j]) {
          assert Without(order, k)[j] == rest[j - 1] && rest[j - 1] in rest;
        }
      }
    }
  }

  lemma UseMovesToFront<V>(ops: seq<Op<V>>, op: Op<V>, order: seq<string>)
    requires ByLastUse(ops, order) && (op.Touched? || op.Written?)
    ensures ByLastUse(ops + [op], ToFront(order, op.k))
  {
    var ops', order' := ops + [op], ToFront(order, op.k);
    assert ops'[..|ops|] == ops;
    WithoutKeepsByLastUse(ops, order, op.k);
    forall i, j | 0 <= i < j < |order'| ensures LastUse(ops', order'[i]) > LastUse(ops', order'[j]) {
      assert order'[j] in Without(order, op.k);
      LastUseInRange(ops, order'[j]);
      if i > 0 {
        assert order'[i] in Without(order, op.k);
      }
    }
  }

  /** Over every run the list is in the order of last use, most recent first. */
  lemma {:induction false} OrderIsByLastUse<V>(ops: seq<Op<V>>)
    ensures Run(ops).Valid() && ByLastUse(ops, Run(ops).order)
  {
    if ops != [] {
      var front, op := ops[..|ops| - 1], ops[|ops| - 1];
      var c := Run(front);
      assert ops == front + [op];
      OrderIsByLastUse(front);
      match op
      case Touched(k) =>
        OperationsKeepAgreementOf(c, k);
        if k in c.entries {
          UseMovesToFront(front, op, c.order);
        } else {
          assert forall x :: x in c.order ==> LastUse(ops, x) == LastUse(front, x);
        }
      case Written(k, v) =>
        OperationsKeepAgreement(c, k, v);
        UseMovesToFront(front, op, c.order);
      case Trimmed(max) => EvictKeepsRecent(c, max);
      case Deleted(k) =>
        OperationsKeepAgreementOf(c, k);
        WithoutKeepsByLastUse(front, c.order, k);
    }
  }

  lemma OperationsKeepAgreementOf<V>(c: Lru<V>, k: string)
    requires c.Valid()
    ensures c.Touch(k).Valid() && c.Delete(k).Valid()
  {
    WithoutKeepsDistinct(c.order, k);
    assert Distinct(ToFront(c.order, k));
  }

  /** So an eviction after any run drops only keys that were last used before every key it
      keeps. */
  lemma EvictsLeastRecent<V>(ops: seq<Op<V>>, max: int, gone: string, kept: string)
    requires gone in Run(ops).entries && gone !in Run(ops).Evict(max).entries && kept in Run(ops).Evict(max).entries
    ensures LastUse(ops, gone) < LastUse(ops, kept)
  {
    OrderIsByLastUse(ops);
    var c := Run(ops);
    EvictKeepsRecent(c, max);
    var i :| 0 <= i < |c.order| && c.order[i] == gone;
    assert kept in c.order;
    var j :| 0 <= j < |c.order| && c.order[j] == kept;
  }

  function DropLast<V>(c: Lru<V>): Lru<V>
    requires c.order != []
  {
    Lru(c.entries - {c.order[|c.order|-1]}, c.order[..|c.order|-1])
  }

  lemma DropLastKeepsAgreement<V>(c: Lru<V>)
    requires c.Valid() && c.order != []
    ensures DropLast(c).Valid()
  {
    var n := |c.order| - 1;
    assert c.order == c.order[..n] + [c.order[n]];
    assert c.order[n] !in c.order[..n];
  }

  /** Dropping the last key while the table is over its bound does not change where
      eviction ends. */
  lemma EvictRound<V>(c: Lru<V>, max: int)
    requires Distinct(c.order) && |c.order| > Bound(max)
    ensures DropLast(c).Evict(max) == c.Evict(max)
  {
    var n := |c.order| - 1;
    var kept := c.order[..Bound(max)];
    assert c.order[..n][..Bound(max)] == kept;
    assert c.order[n] !in kept;
    assert Restrict(c.entries - {c.order[n]}, kept) == Restrict(c.entries, kept);
    if n == Bound(max) {
      assert kept == c.order[..n];
    }
  }

  lemma EvictDone<V>(c: Lru<V>, max: int)
    requires c.Valid() && |c.order| <= Bound(max)
    ensures c.Evict(max) == c
  {
    assert Restrict(c.entries, c.order) == c.entries;
  }

  class LruCache<V> {
    var entries: map<string, V>
    var order: seq<string>

    function State(): Lru<V>
      reads this
    {
      Lru(entries, order)
    }

    constructor ()
      ensures State() == Lru(map[], []) && State().Valid()
    {
      entries, order := map[], [];
    }

    method Get(k: string) returns (v: seq<V>)
      ensures v == if k in entries then [entries[k]] else []
    {
      v := if k in entries then [entries[k]] else [];
    }

    /** Unlink the element of `k`, wherever it stands. */
    method Unlink(k: string)
      requires Distinct(order)
      modifies this`order
      ensures order == Without(old(order), k)
    {
      var i := 0;
      while i < |order| && order[i] != k
        invariant 0 <= i <= |order| && order == old(order)
        invariant k !in order[..i]
      {
        i := i + 1;
      }
      if i < |order| {
        WithoutCuts(order, i);
        order := order[..i] + order[i+1..];
      } else {
        assert order == order[..i];
      }
    }

    method Touch(k: string)
      requires State().Valid()
      modifies this
      ensures State() == old(State()).Touch(k)
    {
      if k in entries {
        Unlink(k);
        order := [k] + order;
      }
    }

    method Set(k: string, v: V)
      requires State().Valid()
      modifies this
      ensures State() == old(State()).Set(k, v)
    {
      Unlink(k);
      entries := entries[k := v];
      order := [k] + order;
    }

    /** Drop from the back until the bound holds. */
    method Evict(max: int)
      requires State().Valid()
      modifies this
      ensures State() == old(State()).Evict(max)
    {
      while |order| > Bound(max)
        invariant State().Valid() && State().Evict(max) == old(State()).Evict(max)
      {
        DropLastKeepsAgreement(State());
        EvictRound(State(), max);
        entries, order := entries - {order[|order|-1]}, order[..|order|-1];
      }
      EvictDone(State(), max);
    }

    method Delete(k: string)
      requires State().Valid()
      modifies this
      ensures State() == old(State()).Delete(k)
    {
      if k in entries {
        entries := entries - {k};
        Unlink(k);
      }
    }
  }
}
