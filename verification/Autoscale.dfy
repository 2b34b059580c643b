/** Concurrency autoscaling: the decision core
    (internal/controlplane/controller/autoscale.go and autoscale_multi.go).  Loads and
    rates are reals. */
module Autoscale {
  import opened Base

  /** Stored policies are clamped to a concurrency target of at least one. */
  type Positive = n: nat | n > 0 witness 1

  datatype Policy = Policy(
    enabled: bool, minReplicas: int, maxReplicas: int, target: Positive, scaleDownDelaySec: int, panic: real,
    targetRps: nat, targetCpu: real, customQuery: string, customTarget: real, customAbsolute: bool)

  datatype Signal = Signal(
    served: real, unserved: real, rps: real, panicReject: bool, hasFresh: bool, staleNonzero: bool)

  /** The optional dimensions; None when off or without a sample. */
  datatype Extra = Extra(rps: Option<real>, cpu: Option<real>, custom: Option<real>)

  function Ceil(x: real): int {
    -((-x).Floor)
  }

  function CeilDiv(a: int, b: nat): int
    requires b > 0
  {
    if a <= 0 then 0 else (a + b - 1) / b
  }

  function Max(a: int, b: int): int {
    if a >= b then a else b
  }

  function Min(a: int, b: int): int {
    if a <= b then a else b
  }

  /** Lower bound first, then upper bound. */
  function Clamp(p: Policy, want: int): int {
    Min(Max(want, p.minReplicas), p.maxReplicas)
  }

  function Load(sig: Signal): real {
    sig.served + sig.unserved
  }

  function Concurrency(p: Policy, sig: Signal): int
  {
    CeilDiv(Ceil(Load(sig)), p.target)
  }

  function PanicLoad(p: Policy, eff: int): real {
    p.panic * (p.target * eff) as real
  }

  predicate Panics(p: Policy, sig: Signal, eff: int) {
    eff > 0 && (sig.panicReject || Load(sig) > PanicLoad(p, eff))
  }

  function PanicReplicas(p: Policy, eff: int): int {
    Ceil(p.panic * eff as real)
  }

  function Boost(p: Policy, floor: int, eff: int): int {
    Min(Max(Max(floor, PanicReplicas(p, eff)), eff + 2), p.maxReplicas)
  }

  /** computeAutoscaleWant: one signal. */
  function Want(p: Policy, sig: Signal, eff: int): int
  {
    var want := Clamp(p, Concurrency(p, sig));
    if Panics(p, sig, eff) then Max(want, Boost(p, want, eff)) else want
  }

  // The optional dimensions, each as the number of replicas it asks for.

  function RpsWant(p: Policy, rate: Option<real>): Option<int> {
    if p.targetRps > 0 && rate.Some? then Some(CeilDiv(Ceil(rate.value), p.targetRps)) else None
  }

  function CpuWant(p: Policy, util: Option<real>, eff: int): Option<int> {
    if p.targetCpu > 0.0 && util.Some? then Some(PerReplica(util.value, p.targetCpu, eff)) else None
  }

  function CustomWant(p: Policy, value: Option<real>, eff: int): Option<int> {
    if p.customTarget > 0.0 && p.customQuery != "" && value.Some? then
      Some(if p.customAbsolute then Ceil(value.value / p.customTarget)
           else PerReplica(value.value, p.customTarget, eff))
    else None
  }

  function PerReplica(value: real, target: real, eff: int): int
    requires target > 0.0
  {
    Ceil(eff as real * value / target)
  }

  function Raise(want: int, dim: Option<int>): int {
    if dim.None? then want else Max(want, dim.value)
  }

  /** The largest want over all dimensions that are on. */
  function Unclamped(p: Policy, sig: Signal, eff: int, x: Extra): int
  {
    Raise(Raise(Raise(Concurrency(p, sig), RpsWant(p, x.rps)), CpuWant(p, x.cpu, eff)), CustomWant(p, x.custom, eff))
  }

  function WantMulti(p: Policy, sig: Signal, eff: int, x: Extra): int
  {
    var want := Clamp(p, Unclamped(p, sig, eff, x));
    if Panics(p, sig, eff) then Max(want, Boost(p, Concurrency(p, sig), eff)) else want
  }

  /** The first half of computeAutoscaleWantMulti as written: the want is raised
      dimension by dimension. */
  method RaiseDimensions(p: Policy, concurrency: int, eff: nat, x: Extra) returns (want: int)
    ensures want == Raise(Raise(Raise(concurrency, RpsWant(p, x.rps)), CpuWant(p, x.cpu, eff)), CustomWant(p, x.custom, eff))
  {
    want := concurrency;
    if p.targetRps > 0 && x.rps.Some? {
      var w := CeilDiv(Ceil(x.rps.value), p.targetRps);
      if w > want {
        want := w;
      }
    }
    assert want == Raise(concurrency, RpsWant(p, x.rps));
    if p.targetCpu > 0.0 && x.cpu.Some? {
      var w := PerReplica(x.cpu.value, p.targetCpu, eff);
      if w > want {
        want := w;
      }
    }
    assert want == Raise(Raise(concurrency, RpsWant(p, x.rps)), CpuWant(p, x.cpu, eff));
    if p.customTarget > 0.0 && p.customQuery != "" && x.custom.Some? {
      var w := if p.customAbsolute then Ceil(x.custom.value / p.customTarget)
               else PerReplica(x.custom.value, p.customTarget, eff);
      if w > want {
        want := w;
      }
    }
  }

  /** computeAutoscaleWantMulti as written. */
  method ComputeWantMulti(p: Policy, sig: Signal, ready: nat, warming: nat, x: Extra) returns (want: int, panic: bool)
    ensures want == WantMulti(p, sig, ready + warming, x)
    ensures panic <==> Panics(p, sig, ready + warming)
  {
    var eff := ready + warming;
    var load := sig.served + sig.unserved;
    var concurrency := CeilDiv(Ceil(load), p.target);
    want := RaiseDimensions(p, concurrency, eff, x);
    if want < p.minReplicas {
      want := p.minReplicas;
    }
    if want > p.maxReplicas {
      want := p.maxReplicas;
    }
    panic := false;
    if eff > 0 && (sig.panicReject || load > PanicLoad(p, eff)) {
      var boosted := Max(Max(concurrency, PanicReplicas(p, eff)), eff + 2);
      if boosted > p.maxReplicas {
        boosted := p.maxReplicas;
      }
      if boosted > want {
        want := boosted;
      }
      panic := true;
    }
  }

  // ---- the arithmetic of the decision core ----

  /** With no optional dimension the multi-signal core is the single-signal one,
      panic included, for every policy. */
  lemma MultiExtendsSingle(p: Policy, sig: Signal, eff: int, x: Extra)
    requires RpsWant(p, x.rps).None? && CpuWant(p, x.cpu, eff).None? && CustomWant(p, x.custom, eff).None?
    ensures WantMulti(p, sig, eff, x) == Want(p, sig, eff)
  {
  }

  lemma WantInRange(p: Policy, sig: Signal, eff: int, x: Extra)
    requires p.minReplicas <= p.maxReplicas
    ensures p.minReplicas <= WantMulti(p, sig, eff, x) <= p.maxReplicas
  {
  }

  lemma CeilIsLeast(x: real, n: int)
    ensures n as real >= x <==> n >= Ceil(x)
  {
  }

  lemma CeilDivIsLeast(a: int, b: nat, w: int)
    requires b > 0 && w >= 0
    ensures w * b >= a <==> w >= CeilDiv(a, b)
  {
    if a > 0 {
      var q := (a + b - 1) / b;
      assert q * b <= a + b - 1 < q * b + b;
      if w >= q {
        assert w * b >= q * b;
      } else {
        assert w * b <= (q - 1) * b;
      }
    } else {
      assert w * b >= 0;
    }
  }

  /** Before clamping, the concurrency want is the least number of replicas whose
      joint target covers the load: rounding the load first loses nothing. */
  lemma ConcurrencyIsLeast(p: Policy, sig: Signal, w: nat)
    ensures (w * p.target) as real >= Load(sig) <==> w >= Concurrency(p, sig)
  {
    CeilIsLeast(Load(sig), w * p.target);
    CeilDivIsLeast(Ceil(Load(sig)), p.target, w);
  }

  lemma QuotientIsLeast(a: real, b: real, w: int)
    requires b > 0.0
    ensures w as real * b >= a <==> w >= Ceil(a / b)
  {
    assert a / b * b == a;
    if w as real >= a / b {
      assert w as real * b >= a / b * b;
    } else {
      assert w as real * b < a / b * b;
    }
    CeilIsLeast(a / b, w);
  }

  // What it takes to meet the load and each dimension that is on: the joint target covers the load
  // and the request rate; the share of the CPU and of the custom metric is within its target.

  predicate MeetsLoad(p: Policy, sig: Signal, w: int) {
    (w * p.target) as real >= sig.served + sig.unserved
  }

  predicate MeetsRps(p: Policy, x: Extra, w: int) {
    p.targetRps > 0 && x.rps.Some? ==> (w * p.targetRps) as real >= x.rps.value
  }

  predicate MeetsCpu(p: Policy, eff: int, x: Extra, w: int) {
    p.targetCpu > 0.0 && x.cpu.Some? ==> w as real * p.targetCpu >= eff as real * x.cpu.value
  }

  predicate MeetsCustom(p: Policy, eff: int, x: Extra, w: int) {
    p.customTarget > 0.0 && p.customQuery != "" && x.custom.Some? ==>
      w as real * p.customTarget >= if p.customAbsolute then x.custom.value else eff as real * x.custom.value
  }

  /** In a panic, that is with capacity, and an edge that rejected hard or a load above the panic
      multiple of the joint target: at least that multiple of the capacity, and two more than
      the capacity. */
  predicate MeetsPanic(p: Policy, sig: Signal, eff: int, w: int) {
    eff > 0 && (sig.panicReject || sig.served + sig.unserved > p.panic * (p.target * eff) as real) ==>
      w as real >= p.panic * eff as real && w >= eff + 2
  }

  predicate AtMost(dim: Option<int>, w: int) {
    dim.Some? ==> dim.value <= w
  }

  lemma RpsIsLeast(p: Policy, x: Extra, w: nat)
    ensures AtMost(RpsWant(p, x.rps), w) <==> MeetsRps(p, x, w)
  {
    if p.targetRps > 0 && x.rps.Some? {
      CeilIsLeast(x.rps.value, w * p.targetRps);
      CeilDivIsLeast(Ceil(x.rps.value), p.targetRps, w);
    }
  }

  lemma CpuIsLeast(p: Policy, eff: int, x: Extra, w: int)
    ensures AtMost(CpuWant(p, x.cpu, eff), w) <==> MeetsCpu(p, eff, x, w)
  {
    if p.targetCpu > 0.0 && x.cpu.Some? {
      QuotientIsLeast(eff as real * x.cpu.value, p.targetCpu, w);
    }
  }

  lemma CustomIsLeast(p: Policy, eff: int, x: Extra, w: int)
    ensures AtMost(CustomWant(p, x.custom, eff), w) <==> MeetsCustom(p, eff, x, w)
  {
    if p.customTarget > 0.0 && p.customQuery != "" && x.custom.Some? {
      QuotientIsLeast(if p.customAbsolute then x.custom.value else eff as real * x.custom.value, p.customTarget, w);
    }
  }

  lemma WantBounds(p: Policy, sig: Signal, eff: int, x: Extra, w: int)
    requires p.minReplicas <= w < p.maxReplicas
    ensures w >= WantMulti(p, sig, eff, x) <==>
      && w >= Concurrency(p, sig) && AtMost(RpsWant(p, x.rps), w) && AtMost(CpuWant(p, x.cpu, eff), w)
      && AtMost(CustomWant(p, x.custom, eff), w)
      && (Panics(p, sig, eff) ==> w >= PanicReplicas(p, eff) && w >= eff + 2)
  {
  }

  lemma PanicIsLeast(p: Policy, sig: Signal, eff: int, w: int)
    ensures MeetsPanic(p, sig, eff, w) <==> (Panics(p, sig, eff) ==> w >= PanicReplicas(p, eff) && w >= eff + 2)
  {
    CeilIsLeast(p.panic * eff as real, w);
  }

  /** Below the upper bound the want is the least number of replicas, at or above the lower bound,
      that meets the load, every dimension and the panic. */
  lemma WantIsLeast(p: Policy, sig: Signal, eff: int, x: Extra, w: nat)
    requires p.minReplicas <= w < p.maxReplicas
    ensures w >= WantMulti(p, sig, eff, x) <==>
      && MeetsLoad(p, sig, w) && MeetsRps(p, x, w) && MeetsCpu(p, eff, x, w) && MeetsCustom(p, eff, x, w)
      && MeetsPanic(p, sig, eff, w)
  {
    WantBounds(p, sig, eff, x, w);
    ConcurrencyIsLeast(p, sig, w);
    assert MeetsLoad(p, sig, w) <==> w >= Concurrency(p, sig);
    RpsIsLeast(p, x, w);
    CpuIsLeast(p, eff, x, w);
    CustomIsLeast(p, eff, x, w);
    PanicIsLeast(p, sig, eff, w);
  }

  lemma ConcurrencyMonotone(p: Policy, lo: Signal, hi: Signal)
    requires Load(lo) <= Load(hi)
    ensures Concurrency(p, lo) <= Concurrency(p, hi)
  {
    var w := Concurrency(p, hi);
    assert w >= 0 by {
      if Ceil(Load(hi)) > 0 { CeilDivIsLeast(Ceil(Load(hi)), p.target, 0); }
    }
    ConcurrencyIsLeast(p, hi, w);
    ConcurrencyIsLeast(p, lo, w);
  }

  /** More load never means fewer replicas. */
  lemma WantMonotone(p: Policy, lo: Signal, hi: Signal, eff: int, x: Extra)
    requires Load(lo) <= Load(hi) && (lo.panicReject ==> hi.panicReject)
    ensures WantMulti(p, lo, eff, x) <= WantMulti(p, hi, eff, x)
  {
    ConcurrencyMonotone(p, lo, hi);
  }

  lemma UnclampedIsLargest(p: Policy, sig: Signal, eff: int, x: Extra)
    ensures Unclamped(p, sig, eff, x) >= Unclamped(p, sig, eff, x.(rps := None))
    ensures Unclamped(p, sig, eff, x) >= Unclamped(p, sig, eff, x.(cpu := None))
    ensures Unclamped(p, sig, eff, x) >= Unclamped(p, sig, eff, x.(custom := None))
  {
    var c, r, u, k := Concurrency(p, sig), RpsWant(p, x.rps), CpuWant(p, x.cpu, eff), CustomWant(p, x.custom, eff);
    assert Unclamped(p, sig, eff, x.(rps := None)) == Raise(Raise(c, u), k);
    assert Unclamped(p, sig, eff, x.(cpu := None)) == Raise(Raise(c, r), k);
    assert Unclamped(p, sig, eff, x.(custom := None)) == Raise(Raise(c, r), u);
  }

  /** Neither a further dimension nor a panic ever lowers the want. */
  lemma DimensionsAndPanicOnlyRaise(p: Policy, sig: Signal, eff: int, x: Extra, quiet: Signal)
    requires Load(quiet) == Load(sig) && !Panics(p, quiet, eff)
    ensures WantMulti(p, sig, eff, x) >= WantMulti(p, sig, eff, x.(rps := None))
    ensures WantMulti(p, sig, eff, x) >= WantMulti(p, sig, eff, x.(cpu := None))
    ensures WantMulti(p, sig, eff, x) >= WantMulti(p, sig, eff, x.(custom := None))
    ensures WantMulti(p, sig, eff, x) >= WantMulti(p, quiet, eff, x)
  {
    UnclampedIsLargest(p, sig, eff, x);
  }
}
