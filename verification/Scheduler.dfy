/** The Best-of-K placement scheduler (internal/scheduler/placement.go): the staged hard
    filters with their audit events, the anti-affinity fallback, sampling, scoring and the
    prefetch ranking, and the capacity bound over runs of placements.  Sizes are 64-bit and
    their sums wrap; scores are reals. */
module Scheduler {
  import opened Base
  import opened Filters
  import opened Ranking

  const WORD: nat := 0x1_0000_0000_0000_0000

  type Size = n: nat | n < WORD witness 0

  datatype Config = Config(
    r: real, memR: real, diskR: real, k: int, alpha: real,
    weightCpu: real, weightMem: real, weightImage: real, weightBandwidth: real, weightRack: real, weightZone: real)

  /** One resource of a node: its total (0 when unknown), the allocated and the pending
      commitments. */
  datatype Dimension = Dimension(total: Size, held: Size, pending: Size)

  datatype Node = Node(
    id: string, pool: string, labels: map<string, string>, status: string, draining: bool,
    cpu: Dimension, mem: Dimension, disk: Dimension,
    cpuPercent: real, memUsed: Size, images: set<string>, features: set<string>,
    bandwidth: Size, rack: string, zone: string)

  datatype Request = Request(
    vcpu: Size, mem: Size, disk: Size, deployment: string, pool: string, labels: map<string, string>,
    antiAffinity: bool, existingNodes: set<string>, excluded: set<string>, image: string, bandwidth: Size,
    existingRacks: set<string>, existingZones: set<string>, features: seq<string>,
    requiredNode: string, pinnedNode: string)

  // ---- the hard filters ----

  datatype Stage = Health | Exclusions | Labels | Features | Resources | Bandwidth | Locality | Pin

  /** Why a stage rejects a node; Pass when it does not. */
  datatype Reason = Pass | IsDraining | BadStatus(status: string) | Excluded | PoolMismatch | LabelsMismatch
    | MissingFeatures(list: string) | NoResources | NoBandwidth | WrongLocality | WrongPin

  function Wrap(n: nat): Size {
    n % WORD
  }

  function Cap(total: nat, ratio: real): real {
    total as real * ratio
  }

  predicate Over(used: nat, cap: real) {
    used as real > cap
  }

  /** allocated + pending + request within ratio times capacity. */
  predicate Admits(d: Dimension, want: Size, ratio: real) {
    !Over(Wrap(d.held + d.pending + want), Cap(d.total, ratio))
  }

  predicate CanFit(n: Node, req: Request, cfg: Config) {
    && n.cpu.total > 0 && n.mem.total > 0
    && Admits(n.cpu, req.vcpu, cfg.r)
    && Admits(n.mem, req.mem, cfg.memR)
    && (n.disk.total > 0 ==> Admits(n.disk, req.disk, cfg.diskR))
  }

  /** A label that is wanted empty is met by a node without it. */
  predicate LabelsMatch(have: map<string, string>, want: map<string, string>) {
    forall k :: k in want ==> want[k] == if k in have then have[k] else ""
  }

  function Missing(have: set<string>, required: seq<string>): seq<string> {
    if required == [] then []
    else
      var n := |required| - 1;
      Missing(have, required[..n]) + if required[n] in have then [] else [required[n]]
  }

  function Join(ss: seq<string>): string {
    if ss == [] then "" else if |ss| == 1 then ss[0] else Join(ss[..|ss| - 1]) + "," + ss[|ss| - 1]
  }

  function Reject(st: Stage, n: Node, req: Request, cfg: Config): Reason {
    match st
    case Health => if n.draining then IsDraining else if n.status != "HEALTHY" then BadStatus(n.status) else Pass
    case Exclusions => if n.id in req.excluded then Excluded else Pass
    case Labels =>
      if n.pool != (if req.pool == "" then "compute" else req.pool) then PoolMismatch
      else if !LabelsMatch(n.labels, req.labels) then LabelsMismatch
      else Pass
    case Features =>
      var missing := Join(Missing(n.features, req.features));
      if missing != "" then MissingFeatures(missing) else Pass
    case Resources => if !CanFit(n, req, cfg) then NoResources else Pass
    case Bandwidth => if req.bandwidth > 0 && n.bandwidth > 0 && req.bandwidth > n.bandwidth then NoBandwidth else Pass
    case Locality => if req.requiredNode != "" && n.id != req.requiredNode then WrongLocality else Pass
    case Pin => if req.pinnedNode != "" && n.id != req.pinnedNode then WrongPin else Pass
  }

  function Stages(exclusions: bool): seq<Stage> {
    [Health] + (if exclusions then [Exclusions] else []) + [Labels, Features, Resources, Bandwidth, Locality, Pin]
  }

  function JudgeBy(req: Request, cfg: Config): Judge<Node, Stage, Reason> {
    Judge((st: Stage, n: Node) => Reject(st, n, req, cfg), Pass)
  }

  /** The node passes every hard filter. */
  ghost predicate Fits(n: Node, exclusions: bool, req: Request, cfg: Config) {
    Passes(n, Stages(exclusions), JudgeBy(req, cfg))
  }

  ghost function Hard(nodes: seq<Node>, exclusions: bool, req: Request, cfg: Config): seq<Node> {
    KeepAll(nodes, Stages(exclusions), JudgeBy(req, cfg))
  }

  // ---- what the filters let through ----

  /** The request fits beside what is committed, in 64-bit arithmetic. */
  predicate RoomFor(d: Dimension, want: Size, ratio: real) {
    ((d.held + d.pending + want) % 0x1_0000_0000_0000_0000) as real <= d.total as real * ratio
  }

  /** A healthy node that is not draining, not excluded, in the wanted pool, with every wanted
      label and feature and with room, and the one the request is bound to if there is one.
      One missing feature without a name goes unnoticed. */
  predicate Suits(n: Node, exclusions: bool, req: Request, cfg: Config) {
    && !n.draining && n.status == "HEALTHY"
    && (exclusions ==> n.id !in req.excluded)
    && n.pool == (if req.pool == "" then "compute" else req.pool)
    && (forall k :: k in req.labels ==> if k in n.labels then n.labels[k] == req.labels[k] else req.labels[k] == "")
    && (forall f :: f in req.features && f != "" ==> f in n.features)
    && ("" in n.features || multiset(req.features)[""] <= 1)
    && n.cpu.total > 0 && RoomFor(n.cpu, req.vcpu, cfg.r)
    && n.mem.total > 0 && RoomFor(n.mem, req.mem, cfg.memR)
    && (n.disk.total > 0 ==> RoomFor(n.disk, req.disk, cfg.diskR))
    && (req.bandwidth == 0 || n.bandwidth == 0 || req.bandwidth <= n.bandwidth)
    && (req.requiredNode == "" || n.id == req.requiredNode)
    && (req.pinnedNode == "" || n.id == req.pinnedNode)
  }

  lemma {:induction false} MissingExactly(have: set<string>, required: seq<string>)
    ensures Missing(have, required) == [] <==> forall f :: f in required ==> f in have
    ensures Missing(have, required) == [""] <==>
      "" !in have && multiset(required)[""] == 1 && forall f :: f in required && f != "" ==> f in have
  {
    if required != [] {
      var n := |required| - 1;
      assert required == required[..n] + [required[n]];
      MissingExactly(have, required[..n]);
      var before := Missing(have, required[..n]);
      if required[n] !in have {
        assert Missing(have, required) == before + [required[n]];
        assert (before + [required[n]])[0] == if before == [] then required[n] else before[0];
        assert |Missing(have, required)| == 1 <==> before == [];
        assert before == [] ==> multiset(required[..n])[""] == 0 || "" in have by {
          assert "" in multiset(required[..n]) <==> "" in required[..n];
        }
      }
    }
  }

  lemma JoinIsEmpty(ss: seq<string>)
    ensures Join(ss) == "" <==> ss == [] || ss == [""]
  {
    if |ss| > 1 {
      assert |Join(ss)| > 0;
    }
  }

  lemma FeaturesExactly(n: Node, req: Request, cfg: Config)
    ensures Reject(Features, n, req, cfg) == Pass <==>
      && (forall f :: f in req.features && f != "" ==> f in n.features)
      && ("" in n.features || multiset(req.features)[""] <= 1)
  {
    MissingExactly(n.features, req.features);
    JoinIsEmpty(Missing(n.features, req.features));
    assert "" in multiset(req.features) <==> "" in req.features;
  }

  lemma StageOrder(exclusions: bool)
    ensures var sts := Stages(exclusions); var k := if exclusions then 2 else 1;
      && |sts| == k + 6 && sts[0] == Health && (exclusions ==> sts[1] == Exclusions)
      && sts[k] == Labels && sts[k + 1] == Features && sts[k + 2] == Resources
      && sts[k + 3] == Bandwidth && sts[k + 4] == Locality && sts[k + 5] == Pin
  {
  }

  lemma StagesExactly(n: Node, exclusions: bool, req: Request, cfg: Config)
    ensures Fits(n, exclusions, req, cfg) <==>
      forall st: Stage :: (st.Exclusions? ==> exclusions) ==> Reject(st, n, req, cfg) == Pass
  {
    var sts, f := Stages(exclusions), JudgeBy(req, cfg);
    StageOrder(exclusions);
    forall st: Stage | st.Exclusions? ==> exclusions ensures st in sts {
      match st
      case Exclusions =>
      case _ =>
    }
    if Fits(n, exclusions, req, cfg) {
      forall st: Stage | st.Exclusions? ==> exclusions ensures Reject(st, n, req, cfg) == Pass {
        var i :| 0 <= i < |sts| && sts[i] == st;
        assert f.verdict(sts[i], n) == f.ok;
      }
    }
  }

  /** The hard filters let a node through exactly if it suits. */
  lemma FitsExactly(n: Node, exclusions: bool, req: Request, cfg: Config)
    ensures Fits(n, exclusions, req, cfg) <==> Suits(n, exclusions, req, cfg)
  {
    StagesExactly(n, exclusions, req, cfg);
    FeaturesExactly(n, req, cfg);
    if Suits(n, exclusions, req, cfg) {
      forall st: Stage | st.Exclusions? ==> exclusions ensures Reject(st, n, req, cfg) == Pass {
      }
    }
    if Fits(n, exclusions, req, cfg) {
      assert Reject(Health, n, req, cfg) == Pass && Reject(Labels, n, req, cfg) == Pass && Reject(Features, n, req, cfg) == Pass;
      assert Reject(Resources, n, req, cfg) == Pass && Reject(Bandwidth, n, req, cfg) == Pass;
      assert Reject(Locality, n, req, cfg) == Pass && Reject(Pin, n, req, cfg) == Pass;
      if exclusions {
        assert Reject(Exclusions, n, req, cfg) == Pass;
      }
    }
  }

  /** And a node is turned away for the first of these reasons that applies. */
  lemma FirstReason(n: Node, exclusions: bool, req: Request, cfg: Config)
    requires !Suits(n, exclusions, req, cfg)
    ensures FirstVerdict(n, Stages(exclusions), JudgeBy(req, cfg)) ==
      if n.draining then IsDraining
      else if n.status != "HEALTHY" then BadStatus(n.status)
      else if exclusions && n.id in req.excluded then Excluded
      else if n.pool != (if req.pool == "" then "compute" else req.pool) then PoolMismatch
      else if exists k :: k in req.labels && req.labels[k] != if k in n.labels then n.labels[k] else "" then LabelsMismatch
      else if Missing(n.features, req.features) !in {[], [""]} then MissingFeatures(Join(Missing(n.features, req.features)))
      else if !CanFit(n, req, cfg) then NoResources
      else if 0 < n.bandwidth < req.bandwidth then NoBandwidth
      else if req.requiredNode != "" && n.id != req.requiredNode then WrongLocality
      else WrongPin
  {
    var i := FailsFirst(n, exclusions, req, cfg);
    JoinIsEmpty(Missing(n.features, req.features));
    StageOrder(exclusions);
  }

  lemma FailsFirst(n: Node, exclusions: bool, req: Request, cfg: Config) returns (i: nat)
    requires !Suits(n, exclusions, req, cfg)
    ensures var sts := Stages(exclusions);
      && i < |sts| && Reject(sts[i], n, req, cfg) != Pass
      && (forall j :: 0 <= j < i ==> Reject(sts[j], n, req, cfg) == Pass)
      && FirstVerdict(n, sts, JudgeBy(req, cfg)) == Reject(sts[i], n, req, cfg)
  {
    var sts, f := Stages(exclusions), JudgeBy(req, cfg);
    FitsExactly(n, exclusions, req, cfg);
    i := FirstFailing(n, sts, f);
    FirstIsLeast(n, sts, f, i);
    forall j | 0 <= j < i ensures Reject(sts[j], n, req, cfg) == Pass {
      assert Lets(f, sts[j], n);
    }
  }

  lemma FirstFailing(n: Node, sts: seq<Stage>, f: Judge<Node, Stage, Reason>) returns (i: nat)
    requires !Passes(n, sts, f)
    ensures i < |sts| && !Lets(f, sts[i], n) && forall j :: 0 <= j < i ==> Lets(f, sts[j], n)
  {
    i := 0;
    while Lets(f, sts[i], n)
      invariant i < |sts| && forall j :: 0 <= j < i ==> Lets(f, sts[j], n)
      decreases |sts| - i
    {
      i := i + 1;
      assert i < |sts| by {
        if i == |sts| { assert Passes(n, sts, f); }
      }
    }
  }

  // ---- anti-affinity ----

  predicate Spreads(req: Request) {
    req.antiAffinity && req.deployment != "" && req.existingNodes != {}
  }

  function Outside(nodes: seq<Node>, taken: set<string>): (r: seq<Node>)
    ensures forall n :: n in r <==> n in nodes && n.id !in taken
  {
    if nodes == [] then []
    else
      var n := |nodes| - 1;
      Outside(nodes[..n], taken) + if nodes[n].id in taken then [] else [nodes[n]]
  }

  /** Nodes outside the deployment's, or all of them when there is none outside. */
  function Spread(req: Request, hard: seq<Node>): seq<Node> {
    if Spreads(req) && Outside(hard, req.existingNodes) != [] then Outside(hard, req.existingNodes) else hard
  }

  ghost function Candidates(nodes: seq<Node>, exclusions: bool, req: Request, cfg: Config): seq<Node> {
    Spread(req, Hard(nodes, exclusions, req, cfg))
  }

  /** The candidates are the nodes that suit; for a deployment that is to be spread, those it
      does not use yet, unless it uses every node that suits. */
  lemma CandidatesExactly(nodes: seq<Node>, exclusions: bool, req: Request, cfg: Config)
    ensures forall n :: n in Candidates(nodes, exclusions, req, cfg) <==>
      && n in nodes && Suits(n, exclusions, req, cfg)
      && (req.antiAffinity && req.deployment != "" && n.id in req.existingNodes ==>
            forall m :: m in nodes && Suits(m, exclusions, req, cfg) ==> m.id in req.existingNodes)
    ensures Candidates(nodes, exclusions, req, cfg) == [] <==> forall n :: n in nodes ==> !Suits(n, exclusions, req, cfg)
  {
    var hard := Hard(nodes, exclusions, req, cfg);
    HardExactly(nodes, exclusions, req, cfg);
    var out := Outside(hard, req.existingNodes);
    if hard != [] {
      assert hard[0] in hard;
    }
    if out != [] {
      assert out[0] in out;
    }
  }

  lemma HardExactly(nodes: seq<Node>, exclusions: bool, req: Request, cfg: Config)
    ensures forall n :: n in Hard(nodes, exclusions, req, cfg) <==> n in nodes && Suits(n, exclusions, req, cfg)
  {
    forall n ensures n in Hard(nodes, exclusions, req, cfg) <==> n in nodes && Suits(n, exclusions, req, cfg) {
      KeepAllMembers(nodes, Stages(exclusions), JudgeBy(req, cfg), n);
      FitsExactly(n, exclusions, req, cfg);
    }
  }

  method FindOutside(nodes: seq<Node>, taken: set<string>) returns (spread: seq<Node>)
    ensures spread == Outside(nodes, taken)
  {
    spread := [];
    for i := 0 to |nodes|
      invariant spread == Outside(nodes[..i], taken)
    {
      assert nodes[..i + 1][..i] == nodes[..i];
      if nodes[i].id !in taken {
        spread := spread + [nodes[i]];
      }
    }
    assert nodes[..|nodes|] == nodes;
  }

  /** evaluateCandidates: the staged filters, then the fallback.  There is exactly one
      rejection for each node that fails the hard filters, with its first reason. */
  method EvaluateCandidates(nodes: seq<Node>, exclusions: bool, req: Request, cfg: Config)
    returns (candidates: seq<Node>, rejections: seq<Drop<Node, Reason>>, degraded: bool)
    ensures candidates == Candidates(nodes, exclusions, req, cfg)
    ensures multiset(rejections) == DropAll(nodes, Stages(exclusions), JudgeBy(req, cfg))
    ensures degraded <==>
      && req.antiAffinity && req.deployment != "" && req.existingNodes != {}
      && forall n :: n in nodes && Suits(n, exclusions, req, cfg) ==> n.id in req.existingNodes
  {
    candidates, rejections := RunStages(nodes, Stages(exclusions), JudgeBy(req, cfg));
    degraded := false;
    HardExactly(nodes, exclusions, req, cfg);
    if req.antiAffinity && req.deployment != "" && req.existingNodes != {} {
      var spread := FindOutside(candidates, req.existingNodes);
      if |spread| == 0 {
        degraded := true;
      } else {
        assert spread[0] in spread;
        candidates := spread;
      }
    }
  }

  // ---- scoring and choice ----

  /** The capacity of a candidate is never zero. */
  function Quotient(a: real, b: real): real {
    if b == 0.0 then 0.0 else a / b
  }

  /** The live CPU usage as a number of virtual CPUs. */
  function CpuUsage(n: Node): real {
    Share(n.cpuPercent, n.cpu.total as real)
  }

  function Share(percent: real, total: real): real {
    percent / 100.0 * total
  }

  /** One resource's weighted share of the score: commitments plus live usage over capacity. */
  function Term(weight: real, alpha: real, load: real, usage: real, cap: real): real {
    weight * Quotient(load + alpha * usage, cap)
  }

  function CpuTerm(n: Node, req: Request, cfg: Config): real {
    var load := Wrap(req.vcpu + n.cpu.held + n.cpu.pending);
    Term(cfg.weightCpu, cfg.alpha, load as real, CpuUsage(n), Cap(n.cpu.total, cfg.r))
  }

  function MemTerm(n: Node, req: Request, cfg: Config): real {
    var load := Wrap(req.mem + n.mem.held + n.mem.pending);
    Term(cfg.weightMem, cfg.alpha, load as real, n.memUsed as real, Cap(n.mem.total, cfg.memR))
  }

  function BandwidthPenalty(n: Node, req: Request, cfg: Config): real {
    if req.bandwidth > 0 && n.bandwidth > 0 then cfg.weightBandwidth * req.bandwidth as real / n.bandwidth as real else 0.0
  }

  /** The soft penalties: image not cached, bandwidth share, rack and zone already used. */
  function Penalties(n: Node, req: Request, cfg: Config): real {
    (if req.image != "" && req.image !in n.images then cfg.weightImage else 0.0)
    + BandwidthPenalty(n, req, cfg)
    + (if n.rack != "" && n.rack in req.existingRacks then cfg.weightRack else 0.0)
    + (if n.zone != "" && n.zone in req.existingZones then cfg.weightZone else 0.0)
  }

  function Score(n: Node, req: Request, cfg: Config): real {
    CpuTerm(n, req, cfg) + MemTerm(n, req, cfg) + Penalties(n, req, cfg)
  }

  function Entries(nodes: seq<Node>, req: Request, cfg: Config): (es: seq<Entry>)
    ensures |es| == |nodes|
    ensures forall i :: 0 <= i < |es| ==> es[i] == Entry(Score(nodes[i], req, cfg), nodes[i].id, i)
  {
    seq(|nodes|, i requires 0 <= i < |nodes| => Entry(Score(nodes[i], req, cfg), nodes[i].id, i))
  }

  /** A draw of the random source: a permutation of the candidates' positions. */
  ghost predicate IsPermutation(perm: seq<nat>, n: nat) {
    && |perm| == n
    && (forall i :: 0 <= i < n ==> perm[i] < n)
    && (forall i, j :: 0 <= i < j < n ==> perm[i] != perm[j])
  }

  /** The sample takes every candidate, or k distinct ones. */
  ghost predicate IsSample(sample: seq<Node>, nodes: seq<Node>, k: int, perm: seq<nat>)
    requires IsPermutation(perm, |nodes|)
  {
    if k <= 0 || k >= |nodes| then sample == nodes
    else |sample| == k && forall i :: 0 <= i < k ==> sample[i] == nodes[perm[i]]
  }

  method SampleK(nodes: seq<Node>, k: int, perm: seq<nat>) returns (sample: seq<Node>)
    requires IsPermutation(perm, |nodes|)
    ensures IsSample(sample, nodes, k, perm)
    ensures forall n :: n in sample ==> n in nodes
    ensures nodes != [] ==> sample != []
  {
    if k <= 0 || k >= |nodes| {
      return nodes;
    }
    sample := [];
    for i := 0 to k
      invariant |sample| == i && forall j :: 0 <= j < i ==> sample[j] == nodes[perm[j]]
    {
      sample := sample + [nodes[perm[i]]];
    }
  }

  datatype Placement = Placement(node: string, score: real)

  /** The placement is the (score, id) minimum of the sample. */
  ghost predicate BestOf(p: Placement, sample: seq<Node>, req: Request, cfg: Config) {
    exists i :: 0 <= i < |sample| && IsMin(Entries(sample, req, cfg)[i], Entries(sample, req, cfg))
      && p == Placement(sample[i].id, Score(sample[i], req, cfg))
  }

  lemma HeadIsBest(drawn: seq<Node>, req: Request, cfg: Config)
    requires drawn != []
    ensures var scored := Entries(drawn, req, cfg);
      && |Sort(scored)| == |scored|
      && var best := Sort(scored)[0];
         && best.index < |drawn| && best == scored[best.index] && IsMin(best, scored)
         && forall m :: m in drawn ==> Before(drawn[best.index], m, req, cfg)
  {
    var scored := Entries(drawn, req, cfg);
    HeadIsMin(scored);
    var best := Sort(scored)[0];
    forall m | m in drawn ensures Before(drawn[best.index], m, req, cfg) {
      var i :| 0 <= i < |drawn| && drawn[i] == m;
      assert Le(best, scored[i]);
    }
  }

  /** Place.  It fails exactly when no node passes the hard filters; otherwise it returns the
      minimum of a sample of the candidates. */
  method Place(req: Request, nodes: seq<Node>, cfg: Config, perm: seq<nat>)
    returns (p: Option<Placement>, rejections: seq<Drop<Node, Reason>>, degraded: bool, ghost sample: seq<Node>)
    requires IsPermutation(perm, |Candidates(nodes, true, req, cfg)|)
    ensures p.None? <==> forall n :: n in nodes ==> !Suits(n, true, req, cfg)
    ensures p.Some? ==> IsSample(sample, Candidates(nodes, true, req, cfg), cfg.k, perm) && BestOf(p.value, sample, req, cfg)
    ensures p.Some? ==> exists n :: n in Candidates(nodes, true, req, cfg) && p.value == Placement(n.id, Score(n, req, cfg))
    ensures p.Some? ==> exists n :: n in nodes && n.id == p.value.node && Suits(n, true, req, cfg)
    ensures p.Some? ==> exists n ::
      n in sample && p.value == Placement(n.id, Score(n, req, cfg)) && forall m :: m in sample ==> Before(n, m, req, cfg)
    ensures multiset(rejections) == DropAll(nodes, Stages(true), JudgeBy(req, cfg))
  {
    var candidates;
    candidates, rejections, degraded := EvaluateCandidates(nodes, true, req, cfg);
    sample := [];
    CandidatesExactly(nodes, true, req, cfg);
    if |candidates| == 0 {
      return None, rejections, degraded, sample;
    }
    var drawn := SampleK(candidates, cfg.k, perm);
    sample := drawn;
    var scored := Entries(drawn, req, cfg);
    HeadIsBest(drawn, req, cfg);
    var best := Sort(scored)[0];
    var node := drawn[best.index];
    assert node in candidates;
    p := Some(Placement(node.id, best.score));
  }

  ghost function Ranked(nodes: seq<Node>, req: Request, cfg: Config): seq<Entry> {
    Sort(Entries(Candidates(nodes, false, req, cfg), req, cfg))
  }

  lemma RankedIndexes(nodes: seq<Node>, req: Request, cfg: Config)
    ensures var all := Candidates(nodes, false, req, cfg);
      |Ranked(nodes, req, cfg)| == |all| && forall i :: 0 <= i < |all| ==> Ranked(nodes, req, cfg)[i].index < |all|
  {
    var entries := Entries(Candidates(nodes, false, req, cfg), req, cfg);
    SortSorts(entries);
    forall i | 0 <= i < |entries| ensures Sort(entries)[i].index < |entries| {
      assert Sort(entries)[i] in multiset(Sort(entries));
      assert Sort(entries)[i] in multiset(entries);
    }
  }

  method Pick(candidates: seq<Node>, ranked: seq<Entry>, n: nat) returns (top: seq<Node>)
    requires n <= |ranked| && forall i :: 0 <= i < |ranked| ==> ranked[i].index < |candidates|
    ensures |top| == n && forall i :: 0 <= i < n ==> top[i] == candidates[ranked[i].index]
  {
    top := [];
    for i := 0 to n
      invariant |top| == i && forall j :: 0 <= j < i ==> top[j] == candidates[ranked[j].index]
    {
      top := top + [candidates[ranked[i].index]];
    }
  }

  /** The first k candidates in (score, id) order, 3 when k is not positive. */
  ghost predicate IsTop(top: seq<Node>, req: Request, nodes: seq<Node>, cfg: Config, k: int) {
    var want := if k <= 0 then 3 else k;
    var all := Candidates(nodes, false, req, cfg);
    && |top| == (if |all| > want then want else |all|)
    && |Ranked(nodes, req, cfg)| == |all|
    && forall i :: 0 <= i < |top| ==> Ranked(nodes, req, cfg)[i].index < |all| && top[i] == all[Ranked(nodes, req, cfg)[i].index]
  }

  /** The lower score comes first, and of equal ones the lower id. */
  predicate Before(n: Node, m: Node, req: Request, cfg: Config) {
    Score(n, req, cfg) < Score(m, req, cfg) || (Score(n, req, cfg) == Score(m, req, cfg) && StringLe(n.id, m.id))
  }

  method PrefetchTopK(req: Request, nodes: seq<Node>, cfg: Config, k: int) returns (top: seq<Node>)
    ensures IsTop(top, req, nodes, cfg, k)
  {
    var want := if k <= 0 then 3 else k;
    var candidates, _, _ := EvaluateCandidates(nodes, false, req, cfg);
    RankedIndexes(nodes, req, cfg);
    var ranked := Sort(Entries(candidates, req, cfg));
    top := Pick(candidates, ranked, if |ranked| > want then want else |ranked|);
  }

  /** When the sample covers every candidate and no node is excluded, the placement is the
      first node that PrefetchTopK returns, with the same score. */
  lemma PlacesHeadOfPrefetch(req: Request, nodes: seq<Node>, cfg: Config, perm: seq<nat>, sample: seq<Node>, p: Placement, top: seq<Node>, k: int)
    requires IsPermutation(perm, |Candidates(nodes, true, req, cfg)|)
    requires IsSample(sample, Candidates(nodes, true, req, cfg), cfg.k, perm) && BestOf(p, sample, req, cfg)
    requires cfg.k <= 0 || cfg.k >= |Candidates(nodes, true, req, cfg)|
    requires forall n :: n in nodes ==> n.id !in req.excluded
    requires IsTop(top, req, nodes, cfg, k)
    ensures top != [] && top[0].id == p.node && Score(top[0], req, cfg) == p.score
  {
    ExclusionsDoNotMatter(nodes, req, cfg);
    assert Candidates(nodes, true, req, cfg) == Candidates(nodes, false, req, cfg) == sample;
    var i :| 0 <= i < |sample| && IsMin(Entries(sample, req, cfg)[i], Entries(sample, req, cfg))
      && p == Placement(sample[i].id, Score(sample[i], req, cfg));
    HeadMatches(sample, req, cfg, i);
  }

  /** Any minimum has the id and score of the node at the head of the ranking. */
  lemma HeadMatches(nodes: seq<Node>, req: Request, cfg: Config, i: nat)
    requires i < |nodes| && IsMin(Entries(nodes, req, cfg)[i], Entries(nodes, req, cfg))
    ensures var ranked := Sort(Entries(nodes, req, cfg));
      && |ranked| == |nodes| && ranked[0].index < |nodes|
      && nodes[ranked[0].index].id == nodes[i].id
      && Score(nodes[ranked[0].index], req, cfg) == Score(nodes[i], req, cfg)
  {
    var entries := Entries(nodes, req, cfg);
    HeadIsMin(entries);
    var head := Sort(entries)[0];
    var j :| 0 <= j < |entries| && entries[j] == head;
    LeTotal(head, entries[i]);
  }

  lemma ExclusionIdle(n: Node, req: Request, cfg: Config)
    requires n.id !in req.excluded
    ensures Fits(n, true, req, cfg) <==> Fits(n, false, req, cfg)
  {
    var f := JudgeBy(req, cfg);
    var a, b := Stages(true), Stages(false);
    if Passes(n, a, f) {
      forall i | 0 <= i < |b| ensures f.verdict(b[i], n) == f.ok {
        assert b[i] == a[if i == 0 then 0 else i + 1];
      }
    }
    if Passes(n, b, f) {
      forall i | 0 <= i < |a| ensures f.verdict(a[i], n) == f.ok {
        if i != 1 { assert a[i] == b[if i == 0 then 0 else i - 1]; }
      }
    }
  }

  lemma {:induction false} ExclusionsDoNotMatter(nodes: seq<Node>, req: Request, cfg: Config)
    requires forall n :: n in nodes ==> n.id !in req.excluded
    ensures Hard(nodes, true, req, cfg) == Hard(nodes, false, req, cfg)
  {
    if nodes != [] {
      ExclusionsDoNotMatter(nodes[..|nodes| - 1], req, cfg);
      ExclusionIdle(nodes[|nodes| - 1], req, cfg);
    }
  }
}
