/** Aggregation of the edges' samples into one signal
    (internal/controlplane/controller/autoscale.go).  The samples come out of a map in no
    particular order; the signal does not depend on it.  Times are in nanoseconds. */
module Signals {
  import opened Base
  import opened Autoscale

  const MILLI := 1_000_000
  const FRESH_PAST := 20_000_000_000
  const FRESH_FUTURE := 5_000_000_000

  datatype Sample = Sample(tsMs: int, ewma: real, rps: real, hardRejected: int, unserved: int, winMs: int)

  /** A field that does not decode is None. */
  type Field = Option<Sample>

  predicate Fresh(s: Sample, now: int) {
    now - FRESH_PAST <= s.tsMs * MILLI <= now + FRESH_FUTURE
  }

  predicate Nonzero(s: Sample) {
    s.ewma != 0.0 || s.rps != 0.0 || s.hardRejected != 0 || s.unserved != 0
  }

  datatype Totals = Totals(served: real, rps: real, unserved: int, winMs: int, live: bool, stale: bool, panic: bool)

  const ZERO := Totals(0.0, 0.0, 0, 0, false, false, false)

  function Add(t: Totals, f: Field, now: int): Totals {
    if f.None? then t
    else
      var s := f.value;
      if !Fresh(s, now) then t.(stale := t.stale || Nonzero(s))
      else Totals(t.served + s.ewma, t.rps + s.rps, t.unserved + s.unserved, Max(t.winMs, s.winMs), true, t.stale,
                  t.panic || s.hardRejected > 0)
  }

  function Tally(fs: seq<Field>, now: int): Totals {
    if fs == [] then ZERO else Add(Tally(fs[..|fs| - 1], now), fs[|fs| - 1], now)
  }

  /** What the samples that are no more than 20 s old and no more than 5 s ahead add up to. */
  function FreshSum(fs: seq<Field>, now: int, pick: Sample -> real): real {
    if fs == [] then 0.0
    else
      var f := fs[|fs| - 1];
      FreshSum(fs[..|fs| - 1], now, pick)
      + if f.Some? && now - 20_000_000_000 <= f.value.tsMs * 1_000_000 <= now + 5_000_000_000 then pick(f.value) else 0.0
  }

  /** The totals are the sums over the fresh samples. */
  lemma {:induction false} TallyIsSum(fs: seq<Field>, now: int)
    ensures var t := Tally(fs, now);
      && t.served == FreshSum(fs, now, (s: Sample) => s.ewma)
      && t.rps == FreshSum(fs, now, (s: Sample) => s.rps)
      && t.unserved as real == FreshSum(fs, now, (s: Sample) => s.unserved as real)
  {
    if fs != [] {
      TallyIsSum(fs[..|fs| - 1], now);
    }
  }

  /** The window is the longest of the fresh samples'. */
  lemma {:induction false} WindowIsLongest(fs: seq<Field>, now: int)
    ensures var m := Tally(fs, now).winMs;
      && m >= 0
      && (forall i :: 0 <= i < |fs| && fs[i].Some? && Fresh(fs[i].value, now) ==> fs[i].value.winMs <= m)
      && (m > 0 ==> exists i :: 0 <= i < |fs| && fs[i].Some? && Fresh(fs[i].value, now) && fs[i].value.winMs == m)
  {
    if fs != [] {
      var n := |fs| - 1;
      var front := fs[..n];
      WindowIsLongest(front, now);
      var m := Tally(fs, now).winMs;
      assert forall i :: 0 <= i < n ==> fs[i] == front[i];
      if m > 0 && m == Tally(front, now).winMs {
        var i :| 0 <= i < n && front[i].Some? && Fresh(front[i].value, now) && front[i].value.winMs == m;
        assert fs[i] == front[i];
      } else if m > 0 {
        assert fs[n].Some? && Fresh(fs[n].value, now) && fs[n].value.winMs == m;
      }
    }
  }

  /** aggregateAutoscaleSignal over the fields in the order the map yields them; also the
      length of the rate window in seconds. */
  method Aggregate(fs: seq<Field>, target: int, now: int) returns (sig: Signal, windowSec: real)
    ensures var t := Tally(fs, now);
      && sig.served == t.served && sig.rps == t.rps
      && sig.unserved == Ceil(t.unserved as real / Max(target, 1) as real) as real
      && windowSec == (if t.winMs <= 0 then 10.0 else t.winMs as real / 1000.0)
    ensures sig.hasFresh <==> exists i :: 0 <= i < |fs| && fs[i].Some? && Fresh(fs[i].value, now)
    ensures sig.staleNonzero <==> exists i ::
      0 <= i < |fs| && fs[i].Some? && !Fresh(fs[i].value, now)
      && var s := fs[i].value; s.ewma != 0.0 || s.rps != 0.0 || s.hardRejected != 0 || s.unserved != 0
    ensures sig.panicReject <==> exists i :: 0 <= i < |fs| && fs[i].Some? && Fresh(fs[i].value, now) && fs[i].value.hardRejected > 0
  {
    var least := if target < 1 then 1 else target;
    var served, rps, unserved, winMs, live, stale, panic := 0.0, 0.0, 0, 0, false, false, false;
    for i := 0 to |fs|
      invariant Tally(fs[..i], now) == Totals(served, rps, unserved, winMs, live, stale, panic)
      invariant live <==> exists k :: 0 <= k < i && fs[k].Some? && Fresh(fs[k].value, now)
      invariant stale <==> exists k :: 0 <= k < i && fs[k].Some? && !Fresh(fs[k].value, now) && Nonzero(fs[k].value)
      invariant panic <==> exists k :: 0 <= k < i && fs[k].Some? && Fresh(fs[k].value, now) && fs[k].value.hardRejected > 0
    {
      assert fs[..i + 1][..i] == fs[..i];
      if fs[i].None? {
        continue;
      }
      var s := fs[i].value;
      if !Fresh(s, now) {
        if s.ewma != 0.0 || s.rps != 0.0 || s.hardRejected != 0 || s.unserved != 0 {
          stale := true;
        }
        continue;
      }
      if s.winMs > winMs {
        winMs := s.winMs;
      }
      live := true;
      served := served + s.ewma;
      rps := rps + s.rps;
      unserved := unserved + s.unserved;
      if s.hardRejected > 0 {
        panic := true;
      }
    }
    assert fs[..|fs|] == fs;
    sig := Signal(served, Ceil(unserved as real / least as real) as real, rps, panic, live, stale);
    windowSec := winMs as real / 1000.0;
    if windowSec <= 0.0 {
      windowSec := 10.0;
    }
  }

  lemma AddCommutes(t: Totals, a: Field, b: Field, now: int)
    ensures Add(Add(t, a, now), b, now) == Add(Add(t, b, now), a, now)
  {
  }

  function Drop(fs: seq<Field>, i: nat): seq<Field>
    requires i < |fs|
  {
    fs[..i] + fs[i + 1..]
  }

  /** Any field can be counted last. */
  lemma {:induction false} CountLast(fs: seq<Field>, i: nat, now: int)
    requires i < |fs|
    ensures Tally(fs, now) == Add(Tally(Drop(fs, i), now), fs[i], now)
  {
    var n := |fs| - 1;
    if i == n {
      assert Drop(fs, i) == fs[..n];
    } else {
      CountLast(fs[..n], i, now);
      assert Drop(fs, i)[..n - 1] == Drop(fs[..n], i) && Drop(fs, i)[n - 1] == fs[n];
      AddCommutes(Tally(Drop(fs[..n], i), now), fs[i], fs[n], now);
    }
  }

  lemma DropsOne(fs: seq<Field>, i: nat)
    requires i < |fs|
    ensures multiset(Drop(fs, i)) == multiset(fs) - multiset{fs[i]}
  {
    assert fs == fs[..i] + [fs[i]] + fs[i + 1..];
  }

  /** The totals are the same in whatever order the map yields the fields. */
  lemma {:induction false} OrderDoesNotMatter(a: seq<Field>, b: seq<Field>, now: int)
    requires multiset(a) == multiset(b)
    ensures Tally(a, now) == Tally(b, now)
    decreases |b|
  {
    if b == [] {
      assert |multiset(a)| == 0;
    } else {
      var n := |b| - 1;
      assert b[n] in multiset(b);
      assert b[n] in a;
      var i :| 0 <= i < |a| && a[i] == b[n];
      CountLast(a, i, now);
      DropsOne(a, i);
      DropsOne(b, n);
      assert Drop(b, n) == b[..n];
      OrderDoesNotMatter(Drop(a, i), b[..n], now);
    }
  }
}
