/** The capacity bound of the scheduler over whole runs: placements reserve, commits turn
    reservations into allocations, deletes release (internal/scheduler/placement.go and the
    bookkeeping that tools/sim samples). */
module Capacity {
  import opened Filters
  import opened Ranking
  import opened Scheduler

  // ---- one dimension ----

  predicate Bounded(d: Dimension, ratio: real) {
    (d.held + d.pending) as real <= d.total as real * ratio
  }

  /** The request would stay within capacity, computed without a word size. */
  predicate TrulyAdmits(d: Dimension, want: Size, ratio: real) {
    (d.held + d.pending + want) as real <= d.total as real * ratio
  }

  predicate Overflows(d: Dimension, want: Size) {
    d.held + d.pending + want >= WORD
  }

  lemma DimensionExactly(d: Dimension, want: Size, ratio: real)
    requires Cap(d.total, ratio) < WORD as real
    ensures TrulyAdmits(d, want, ratio) <==> Admits(d, want, ratio) && !Overflows(d, want)
  {
    var used := d.held + d.pending + want;
    assert TrulyAdmits(d, want, ratio) <==> used as real <= Cap(d.total, ratio);
    if used < WORD {
      assert Wrap(used) == used;
    } else {
      assert used as real >= WORD as real;
    }
  }

  function Reserve(d: Dimension, want: Size): Dimension {
    d.(pending := Wrap(d.pending + want))
  }

  function Commit(d: Dimension, want: Size): Dimension
    requires want <= d.pending
  {
    d.(pending := d.pending - want, held := Wrap(d.held + want))
  }

  function Release(d: Dimension, want: Size): Dimension {
    if d.held >= want then d.(held := d.held - want) else d
  }

  lemma ReserveBounded(d: Dimension, want: Size, ratio: real)
    requires Bounded(d, ratio) && Admits(d, want, ratio) && Cap(d.total, ratio) + want as real < WORD as real
    ensures Bounded(Reserve(d, want), ratio)
  {
    SumIsSmall(d.held + d.pending, want, Cap(d.total, ratio));
    assert Reserve(d, want).pending == d.pending + want;
    assert Wrap(d.held + d.pending + want) == d.held + d.pending + want;
  }

  lemma SumIsSmall(used: nat, want: nat, cap: real)
    requires used as real <= cap && cap + want as real < WORD as real
    ensures used + want < WORD && Wrap(used + want) == used + want
  {
    assert (used + want) as real < WORD as real;
  }

  lemma CommitBounded(d: Dimension, want: Size, ratio: real)
    requires Bounded(d, ratio) && want <= d.pending && Cap(d.total, ratio) < WORD as real
    ensures Bounded(Commit(d, want), ratio)
  {
    SumIsSmall(d.held + d.pending, 0, Cap(d.total, ratio));
    var d' := Commit(d, want);
    assert d'.held + d'.pending <= d.held + d.pending;
  }

  // ---- a node ----

  /** The node's commitments are within its capacity. */
  predicate Within(n: Node, cfg: Config) {
    && Bounded(n.cpu, cfg.r) && Bounded(n.mem, cfg.memR)
    && (n.disk.total > 0 ==> Bounded(n.disk, cfg.diskR))
  }

  predicate TrulyFits(n: Node, req: Request, cfg: Config) {
    && n.cpu.total > 0 && n.mem.total > 0
    && TrulyAdmits(n.cpu, req.vcpu, cfg.r) && TrulyAdmits(n.mem, req.mem, cfg.memR)
    && (n.disk.total > 0 ==> TrulyAdmits(n.disk, req.disk, cfg.diskR))
  }

  /** Capacity times ratio plus the sizes is below the word size. */
  predicate Small(n: Node, vcpu: Size, mem: Size, disk: Size, cfg: Config) {
    && Cap(n.cpu.total, cfg.r) + vcpu as real < WORD as real
    && Cap(n.mem.total, cfg.memR) + mem as real < WORD as real
    && (n.disk.total > 0 ==> Cap(n.disk.total, cfg.diskR) + disk as real < WORD as real)
  }

  /** The admission filter is right exactly when no sum overflows its 64 bits. */
  lemma AdmitsExactly(n: Node, req: Request, cfg: Config)
    requires Small(n, 0, 0, 0, cfg)
    ensures TrulyFits(n, req, cfg) <==>
      && CanFit(n, req, cfg) && !Overflows(n.cpu, req.vcpu) && !Overflows(n.mem, req.mem)
      && (n.disk.total > 0 ==> !Overflows(n.disk, req.disk))
  {
    DimensionExactly(n.cpu, req.vcpu, cfg.r);
    DimensionExactly(n.mem, req.mem, cfg.memR);
    if n.disk.total > 0 {
      DimensionExactly(n.disk, req.disk, cfg.diskR);
    }
  }

  /** A request near the word size wraps around and is admitted. */
  lemma OverflowIsAdmitted(n: Node, req: Request, cfg: Config)
    requires n.cpu == Dimension(8, 1, 0) && n.mem == Dimension(8, 0, 0) && n.disk.total == 0
    requires req.vcpu == WORD - 1 && req.mem == 1 && cfg.r == 4.0 && cfg.memR == 1.0
    ensures CanFit(n, req, cfg) && !TrulyFits(n, req, cfg)
  {
    assert Wrap(n.cpu.held + n.cpu.pending + req.vcpu) == 0;
  }

  // ---- runs ----

  datatype Event =
    | Reserved(i: nat, req: Request)
    | Committed(i: nat, req: Request)
    | Released(i: nat, req: Request)
    | Refreshed(i: nat, view: Node)

  predicate Pending(n: Node, req: Request) {
    req.vcpu <= n.cpu.pending && req.mem <= n.mem.pending && req.disk <= n.disk.pending
  }

  /** A heartbeat may change anything but the identity, the capacity and the commitments. */
  ghost function Changed(n: Node, e: Event, cfg: Config): Node {
    match e
    case Reserved(_, req) =>
      if !Fits(n, true, req, cfg) then n
      else n.(cpu := Reserve(n.cpu, req.vcpu), mem := Reserve(n.mem, req.mem), disk := Reserve(n.disk, req.disk))
    case Committed(_, req) =>
      if !Pending(n, req) then n
      else n.(cpu := Commit(n.cpu, req.vcpu), mem := Commit(n.mem, req.mem), disk := Commit(n.disk, req.disk))
    case Released(_, req) =>
      n.(cpu := Release(n.cpu, req.vcpu), mem := Release(n.mem, req.mem), disk := Release(n.disk, req.disk))
    case Refreshed(_, view) => view.(id := n.id, cpu := n.cpu, mem := n.mem, disk := n.disk)
  }

  ghost function Apply(nodes: seq<Node>, e: Event, cfg: Config): seq<Node> {
    if e.i < |nodes| then nodes[e.i := Changed(nodes[e.i], e, cfg)] else nodes
  }

  ghost function Run(nodes: seq<Node>, es: seq<Event>, cfg: Config): seq<Node> {
    if es == [] then nodes else Apply(Run(nodes, es[..|es| - 1], cfg), es[|es| - 1], cfg)
  }

  predicate SameCapacity(a: Node, b: Node) {
    a.id == b.id && a.cpu.total == b.cpu.total && a.mem.total == b.mem.total && a.disk.total == b.disk.total
  }

  lemma FitsCanFit(n: Node, req: Request, cfg: Config)
    requires Fits(n, true, req, cfg)
    ensures CanFit(n, req, cfg)
  {
    assert Stages(true)[4] == Resources;
    assert JudgeBy(req, cfg).verdict(Stages(true)[4], n) == Pass;
  }

  lemma ChangeKeepsWithin(n: Node, e: Event, cfg: Config)
    requires Within(n, cfg) && Small(n, 0, 0, 0, cfg)
    requires e.Reserved? ==> Small(n, e.req.vcpu, e.req.mem, e.req.disk, cfg)
    ensures Within(Changed(n, e, cfg), cfg) && SameCapacity(n, Changed(n, e, cfg))
  {
    match e
    case Reserved(_, req) =>
      if Fits(n, true, req, cfg) {
        FitsCanFit(n, req, cfg);
        ReserveBounded(n.cpu, req.vcpu, cfg.r);
        ReserveBounded(n.mem, req.mem, cfg.memR);
        if n.disk.total > 0 { ReserveBounded(n.disk, req.disk, cfg.diskR); }
      }
    case Committed(_, req) =>
      if Pending(n, req) {
        CommitBounded(n.cpu, req.vcpu, cfg.r);
        CommitBounded(n.mem, req.mem, cfg.memR);
        if n.disk.total > 0 { CommitBounded(n.disk, req.disk, cfg.diskR); }
      }
    case Released(_, req) =>
    case Refreshed(_, view) =>
  }

  /** No overcommit: from nodes within their bounds, every run of placements, commits,
      releases and heartbeats keeps every node's allocated plus pending commitments within
      its ratio of CPU, memory and, where it is known, disk, provided no placed request is
      so large that its sums could overflow. */
  lemma {:induction false} RunKeepsWithin(nodes: seq<Node>, es: seq<Event>, cfg: Config)
    requires forall i :: 0 <= i < |nodes| ==> Within(nodes[i], cfg) && Small(nodes[i], 0, 0, 0, cfg)
    requires forall e, i :: e in es && e.Reserved? && 0 <= i < |nodes| ==> Small(nodes[i], e.req.vcpu, e.req.mem, e.req.disk, cfg)
    ensures |Run(nodes, es, cfg)| == |nodes|
    ensures forall i :: 0 <= i < |nodes| ==> Within(Run(nodes, es, cfg)[i], cfg) && SameCapacity(nodes[i], Run(nodes, es, cfg)[i])
  {
    if es != [] {
      var n := |es| - 1;
      RunKeepsWithin(nodes, es[..n], cfg);
      var before, e := Run(nodes, es[..n], cfg), es[n];
      if e.i < |nodes| {
        assert SameCapacity(nodes[e.i], before[e.i]);
        if e.Reserved? {
          assert Small(nodes[e.i], e.req.vcpu, e.req.mem, e.req.disk, cfg);
        }
        ChangeKeepsWithin(before[e.i], e, cfg);
      }
    }
  }

  /** What Place returns can be reserved: it names a node that passes the hard filters. */
  lemma PlacementIsReservable(req: Request, nodes: seq<Node>, cfg: Config, perm: seq<nat>, sample: seq<Node>, p: Placement)
    requires IsPermutation(perm, |Candidates(nodes, true, req, cfg)|)
    requires IsSample(sample, Candidates(nodes, true, req, cfg), cfg.k, perm) && BestOf(p, sample, req, cfg)
    requires forall i, j :: 0 <= i < j < |nodes| ==> nodes[i].id != nodes[j].id
    ensures exists i :: 0 <= i < |nodes| && nodes[i].id == p.node
    ensures forall i :: 0 <= i < |nodes| && nodes[i].id == p.node ==> Suits(nodes[i], true, req, cfg)
  {
    var all := Candidates(nodes, true, req, cfg);
    var i :| 0 <= i < |sample| && p == Placement(sample[i].id, Score(sample[i], req, cfg));
    assert sample[i] in all;
    CandidatesExactly(nodes, true, req, cfg);
    var j :| 0 <= j < |nodes| && nodes[j] == sample[i];
  }
}
