/** Node-level fabric snapshots: the persisted snapshot with its generation
    high-water mark (internal/agent/state/fabric.go), the order in which
    ApplyFabric makes it effective, and the policy built from it
    (internal/agent/server/fabric.go). */
module Fabric {
  import opened AgentState
  import opened Base
  import opened Traces

  datatype Identity = Identity(id: nat, project: string, app: string, service: string, ula: string, machine: string)
  datatype Rule = Rule(srcProject: string, srcApp: string, dstProject: string, dstApp: string, dstService: string, ports: seq<nat>)

  /** `generation == 0` is the empty state before any snapshot.  The update time
      is left out: it takes no part in comparing contents. */
  datatype Snapshot = Snapshot(
    node: string, generation: nat, prefix: string, peers: seq<string>,
    identities: seq<Identity>, rules: seq<Rule>, dns: seq<string>)

  const NONE := Snapshot("", 0, "", [], [], [], [])

  datatype Verdict = Accepted | Idempotent | WrongNode | StaleFabric | Malformed | WriteFailed

  /** The checks of CheckSnapshot, in its order. */
  function CheckSnapshot(cur: Snapshot, snap: Snapshot): Verdict {
    if cur.generation == 0 then (if snap.generation == 0 then Malformed else Accepted)
    else if snap.node != cur.node then WrongNode
    else if snap.generation < cur.generation then StaleFabric
    else if snap.generation == cur.generation then (if snap == cur then Idempotent else StaleFabric)
    else Accepted
  }

  /** The checks of Apply, in its order. */
  function CheckApply(cur: Snapshot, snap: Snapshot): Verdict {
    if snap.generation == 0 then Malformed
    else if cur.generation != 0 && snap.node != cur.node then WrongNode
    else if snap.generation < cur.generation then StaleFabric
    else if snap.generation == cur.generation then (if snap == cur then Idempotent else StaleFabric)
    else Accepted
  }

  predicate Passes(v: Verdict) {
    v.Accepted? || v.Idempotent?
  }

  /** The precheck accepts exactly what Apply accepts. */
  lemma PrecheckIsExact(cur: Snapshot, snap: Snapshot)
    ensures Passes(CheckSnapshot(cur, snap)) <==> Passes(CheckApply(cur, snap))
    ensures Passes(CheckApply(cur, snap)) <==>
      snap.generation > 0 && (snap == cur || (cur.generation < snap.generation && (cur.generation != 0 ==> snap.node == cur.node)))
  {
  }

  class Store {
    var current: Snapshot
    var file: Snapshot

    constructor ()
      ensures current == NONE && file == NONE
    {
      current, file := NONE, NONE;
    }

    /** Persist first, then move memory: memory never runs ahead of the file. */
    method Apply(snap: Snapshot, w: Write) returns (v: Verdict)
      modifies this
      ensures v == (if CheckApply(old(current), snap).Accepted? && !w.Stored? then WriteFailed else CheckApply(old(current), snap))
      ensures current == if v.Accepted? then snap else old(current)
      ensures file == if v.Accepted? || (v.WriteFailed? && w.FailedNew?) then snap else old(file)
    {
      if snap.generation == 0 {
        return Malformed;
      }
      if current.generation != 0 && snap.node != current.node {
        return WrongNode;
      }
      if snap.generation < current.generation {
        return StaleFabric;
      }
      if snap.generation == current.generation {
        return if snap == current then Idempotent else StaleFabric;
      }
      if !w.FailedOld? {
        file := snap;
      }
      if !w.Stored? {
        return WriteFailed;
      }
      current := snap;
      return Accepted;
    }
  }

  // ---- ApplyFabric over whole runs ----

  datatype Stage = ToPersist | ToPeers | ToPolicy

  /** `stored` says that this request wrote the file, rather than finding its
      snapshot already in force. */
  datatype Job = Job(snap: Snapshot, stage: Stage, stored: bool)

  /** `job` holds the node lock; `applied` is the history of the snapshots this
      node has had in force.  Tunnel peers and policy maps do not survive a
      restart; generation 0 says they are empty. */
  datatype Node = Node(
    mem: Snapshot, disk: Snapshot, underlay: nat, policy: nat,
    job: seq<Job>, applied: seq<Snapshot>)

  datatype Event =
    | Submit(snap: Snapshot)               // lock, fence and claim
    | Persist(w: Write)
    | UpdatePeers(ok: bool)
    | ApplyPolicy(ok: bool)
    | Restart(policyOk: bool)              // crash, reload, replay

  const START := Node(NONE, NONE, 0, 0, [], [NONE])

  function InForce(n: Node, snap: Snapshot): Node {
    n.(mem := snap, applied := n.applied + [snap])
  }

  function Apply(n: Node, e: Event): Node {
    match e
    case Submit(snap) =>
      if n.job == [] && Passes(CheckSnapshot(n.mem, snap)) then n.(job := [Job(snap, ToPersist, false)]) else n
    case Persist(w) =>
      if n.job == [] || n.job[0].stage != ToPersist then n
      else
        var snap, v := n.job[0].snap, CheckApply(n.mem, n.job[0].snap);
        if v.Idempotent? then n.(job := [Job(snap, ToPeers, false)])
        else if !v.Accepted? then n.(job := [])
        else if w.Stored? then InForce(n, snap).(disk := snap, job := [Job(snap, ToPeers, true)])
        else n.(disk := if w.FailedNew? then snap else n.disk, job := [])
    case UpdatePeers(ok) =>
      if n.job == [] || n.job[0].stage != ToPeers then n
      else
        var g := n.job[0].snap.generation;
        if !ok || g < n.underlay || g < n.mem.generation then n.(job := [])
        else n.(underlay := g, job := [n.job[0].(stage := ToPolicy)])
    case ApplyPolicy(ok) =>
      if n.job == [] || n.job[0].stage != ToPolicy then n
      else n.(policy := if ok then n.job[0].snap.generation else n.policy, job := [])
    case Restart(policyOk) =>
      InForce(n, n.disk).(underlay := n.disk.generation, policy := if policyOk then n.disk.generation else 0, job := [])
  }

  function Run(es: seq<Event>): Node {
    Fold(Apply, START, es)
  }

  /** `later` may follow `earlier` on one node: generations only rise, one
      generation has one content, and the node id is kept. */
  predicate Follows(earlier: Snapshot, later: Snapshot) {
    && earlier.generation <= later.generation
    && (earlier.generation == later.generation ==> earlier == later)
    && (earlier.generation != 0 ==> earlier.node == later.node)
  }

  ghost predicate Inv(n: Node) {
    && n.applied != [] && n.applied[|n.applied|-1] == n.mem
    && (n.mem.generation == 0 ==> n.mem == NONE)
    && Follows(n.mem, n.disk)
    && n.underlay <= n.mem.generation && n.policy <= n.mem.generation
    && |n.job| <= 1
    && (n.job != [] && n.job[0].stage != ToPersist ==> n.job[0].snap == n.mem && (n.job[0].stored ==> n.disk == n.mem))
    && (n.job != [] && n.job[0].stage.ToPolicy? ==> n.underlay == n.mem.generation)
    && (forall i, j :: 0 <= i < j < |n.applied| ==> Follows(n.applied[i], n.applied[j]))
  }

  lemma ForceKeepsHistory(n: Node, snap: Snapshot)
    requires n.applied != [] && n.applied[|n.applied|-1] == n.mem && Follows(n.mem, snap)
    requires forall i, j :: 0 <= i < j < |n.applied| ==> Follows(n.applied[i], n.applied[j])
    ensures var h := InForce(n, snap).applied; forall i, j :: 0 <= i < j < |h| ==> Follows(h[i], h[j])
  {
    forall i | 0 <= i < |n.applied| ensures Follows(n.applied[i], snap) {
      assert i < |n.applied| - 1 ==> Follows(n.applied[i], n.applied[|n.applied|-1]);
    }
  }

  lemma EventKeepsInv(n: Node, e: Event)
    requires Inv(n)
    ensures Inv(Apply(n, e))
  {
    match e
    case Persist(w) =>
      if n.job != [] && n.job[0].stage.ToPersist? && CheckApply(n.mem, n.job[0].snap).Accepted? {
        ForceKeepsHistory(n, n.job[0].snap);
      }
    case Restart(_) => ForceKeepsHistory(n, n.disk);
    case _ =>
  }

  lemma RunKeepsInv(es: seq<Event>)
    ensures Inv(Run(es))
  {
    forall n, e | Inv(n) ensures Inv(Apply(n, e)) {
      EventKeepsInv(n, e);
    }
    FoldKeeps(Apply, Inv, START, es);
  }

  /** Across every run with failed writes and restarts: of any two snapshots this
      node has had in force, the later has the higher generation or is the same
      one, and the node id never changes. */
  lemma AppliedOnlyRise(es: seq<Event>, i: int, j: int)
    requires 0 <= i < j < |Run(es).applied|
    ensures Follows(Run(es).applied[i], Run(es).applied[j])
  {
    RunKeepsInv(es);
  }

  /** Tunnels and policy never run ahead of the persisted snapshot, and only a
      restart, which empties them, makes them go back. */
  lemma EffectsTrailState(es: seq<Event>, e: Event)
    ensures var n := Run(es); n.underlay <= n.mem.generation <= n.disk.generation && n.policy <= n.mem.generation
    ensures var n, n' := Run(es), Apply(Run(es), e);
      n.underlay <= n'.underlay && (n.policy <= n'.policy || (e.Restart? && n'.policy == 0))
  {
    RunKeepsInv(es);
  }

  // When the file agrees with memory.

  /** A snapshot is about to be written over the one in force. */
  predicate Writing(n: Node) {
    n.job != [] && n.job[0].stage.ToPersist? && CheckApply(n.mem, n.job[0].snap).Accepted?
  }

  /** A write that fails after its rename; its caller gets an error. */
  predicate LeavesAhead(n: Node, e: Event) {
    e.Persist? && e.w.FailedNew? && Writing(n)
  }

  /** A write that is stored, or a restart from the file. */
  predicate CatchesUp(n: Node, e: Event) {
    e.Restart? || (e.Persist? && e.w.Stored? && Writing(n))
  }

  lemma EventAgrees(n: Node, e: Event)
    requires Inv(n)
    ensures Apply(n, e).disk == Apply(n, e).mem <==> CatchesUp(n, e) || (n.disk == n.mem && !LeavesAhead(n, e))
  {
  }

  /** Some write failed after its rename and nothing has caught up since. */
  ghost predicate RanAhead(es: seq<Event>) {
    IsSet(Apply, START, es, LeavesAhead, CatchesUp)
  }

  /** The file holds what is in force exactly when no write has failed after its rename
      since the last stored write or restart. */
  lemma {:induction false} FileAgreesExactly(es: seq<Event>)
    ensures Run(es).disk == Run(es).mem <==> !RanAhead(es)
  {
    if es != [] {
      FileAgreesExactly(es[..|es|-1]);
      RunKeepsInv(es[..|es|-1]);
      EventAgrees(Run(es[..|es|-1]), es[|es|-1]);
      IsSetNext(Apply, START, es, LeavesAhead, CatchesUp);
    }
  }

  /** An ApplyFabric that reaches its end with success leaves snapshot, tunnels
      and policy at exactly the requested content.  The file holds it exactly when no
      earlier write was left ahead, in particular when this request wrote it. */
  lemma SuccessConverges(es: seq<Event>)
    requires var n := Run(es); n.job != [] && n.job[0].stage.ToPolicy?
    ensures var n := Run(es); var n' := Apply(n, ApplyPolicy(true));
      && n'.mem == n.job[0].snap && n'.underlay == n'.policy == n.job[0].snap.generation
      && (n'.disk == n.job[0].snap <==> !RanAhead(es))
      && (n.job[0].stored ==> !RanAhead(es))
  {
    RunKeepsInv(es);
    FileAgreesExactly(es);
  }

  /** A request that finds its snapshot in force does not write: when an earlier
      write failed after its rename, the file stays ahead, and a restart moves on
      to the snapshot whose apply was reported as failed. */
  lemma FileMayRunAhead(n: Node, b: Snapshot)
    requires n.job == [] && 0 < n.mem.generation < b.generation && n.mem.node == b.node
    ensures var failed := Apply(Apply(n, Submit(b)), Persist(FailedNew));
      var again := Apply(Apply(failed, Submit(n.mem)), Persist(Stored));
      again.job == [Job(n.mem, ToPeers, false)] && again.disk == b && Apply(again, Restart(true)).mem == b
  {
  }

  // ---- the policy built from a snapshot ----

  /** One allowed direction between two identities; `reply` entries match the
      port list against the source port. */
  datatype Entry = Entry(src: nat, dst: nat, ports: seq<nat>, reply: bool)

  /** Identity lookup by service: the last declaration wins. */
  function ServiceId(ids: seq<Identity>, r: Rule): (id: seq<nat>)
    ensures |id| <= 1
  {
    if ids == [] then []
    else
      var m := ids[|ids|-1];
      if m.project == r.dstProject && m.app == r.dstApp && m.service == r.dstService then [m.id]
      else ServiceId(ids[..|ids|-1], r)
  }

  /** All identities of the rule's source app. */
  function SourceIds(ids: seq<Identity>, r: Rule): seq<nat> {
    if ids == [] then []
    else
      var m := ids[|ids|-1];
      SourceIds(ids[..|ids|-1], r) + if m.project == r.srcProject && m.app == r.srcApp then [m.id] else []
  }

  function Pairs(srcs: seq<nat>, dst: nat, ports: seq<nat>): (es: seq<Entry>) {
    if srcs == [] then []
    else Pairs(srcs[..|srcs|-1], dst, ports)
         + [Entry(srcs[|srcs|-1], dst, ports, false), Entry(dst, srcs[|srcs|-1], ports, true)]
  }

  function RuleEntries(ids: seq<Identity>, r: Rule): seq<Entry> {
    var dst := ServiceId(ids, r);
    if dst == [] then [] else Pairs(SourceIds(ids, r), dst[0], r.ports)
  }

  function Entries(ids: seq<Identity>, rules: seq<Rule>): seq<Entry> {
    if rules == [] then [] else Entries(ids, rules[..|rules|-1]) + RuleEntries(ids, rules[|rules|-1])
  }

  type ServiceIndex = map<(string, string, string), nat>
  type AppIndex = map<(string, string), seq<nat>>

  ghost predicate Indexes(ids: seq<Identity>, byService: ServiceIndex, byApp: AppIndex) {
    forall r: Rule ::
      && ServiceId(ids, r) == (var k := (r.dstProject, r.dstApp, r.dstService); if k in byService then [byService[k]] else [])
      && SourceIds(ids, r) == (var k := (r.srcProject, r.srcApp); if k in byApp then byApp[k] else [])
  }

  method IndexIdentities(ids: seq<Identity>) returns (byService: ServiceIndex, byApp: AppIndex)
    ensures Indexes(ids, byService, byApp)
  {
    byService, byApp := map[], map[];
    for i := 0 to |ids|
      invariant Indexes(ids[..i], byService, byApp)
    {
      var m := ids[i];
      ghost var done := ids[..i+1];
      assert done[..|done|-1] == ids[..i] && done[|done|-1] == m;
      byService := byService[(m.project, m.app, m.service) := m.id];
      var k := (m.project, m.app);
      byApp := byApp[k := (if k in byApp then byApp[k] else []) + [m.id]];
    }
    assert ids[..|ids|] == ids;
  }

  method ExpandPairs(srcs: seq<nat>, dst: nat, ports: seq<nat>) returns (es: seq<Entry>)
    ensures es == Pairs(srcs, dst, ports)
  {
    es := [];
    for j := 0 to |srcs|
      invariant es == Pairs(srcs[..j], dst, ports)
    {
      assert srcs[..j+1][..j] == srcs[..j];
      es := es + [Entry(srcs[j], dst, ports, false), Entry(dst, srcs[j], ports, true)];
    }
    assert srcs[..|srcs|] == srcs;
  }

  /** The rule half of BuildFabricPolicy: index the identities, then expand every rule. */
  method BuildEntries(ids: seq<Identity>, rules: seq<Rule>) returns (es: seq<Entry>)
    ensures es == Entries(ids, rules)
  {
    var byService, byApp := IndexIdentities(ids);
    es := [];
    for i := 0 to |rules|
      invariant es == Entries(ids, rules[..i])
    {
      var r := rules[i];
      ghost var before := es;
      assert rules[..i+1][..i] == rules[..i];
      var k := (r.dstProject, r.dstApp, r.dstService);
      if k in byService {
        var srcs := if (r.srcProject, r.srcApp) in byApp then byApp[(r.srcProject, r.srcApp)] else [];
        var pairs := ExpandPairs(srcs, byService[k], r.ports);
        es := es + pairs;
        assert ServiceId(ids, r) == [byService[k]] && SourceIds(ids, r) == srcs;
      } else {
        assert ServiceId(ids, r) == [];
      }
      assert es == before + RuleEntries(ids, r);
    }
    assert rules[..|rules|] == rules;
  }

  /** What is pushed to the policy maps; `nodeAddress` is the base address of the node
      prefix, if that parses. */
  datatype Policy = Policy(generation: nat, nodeAddress: string, addresses: seq<(nat, string)>, entries: seq<Entry>)

  /** BuildFabricPolicy: every identity with its address, in order, and the entries of the
      rules. */
  method BuildPolicy(generation: nat, base: Option<string>, ids: seq<Identity>, rules: seq<Rule>) returns (p: Policy)
    ensures p.generation == generation && p.entries == Entries(ids, rules)
    ensures p.nodeAddress == if base.Some? then base.value else ""
    ensures |p.addresses| == |ids| && forall i :: 0 <= i < |ids| ==> p.addresses[i] == (ids[i].id, ids[i].ula)
  {
    var addresses := [];
    for i := 0 to |ids|
      invariant |addresses| == i && forall j :: 0 <= j < i ==> addresses[j] == (ids[j].id, ids[j].ula)
    {
      addresses := addresses + [(ids[i].id, ids[i].ula)];
    }
    var entries := BuildEntries(ids, rules);
    return Policy(generation, if base.Some? then base.value else "", addresses, entries);
  }

  predicate Sources(m: Identity, r: Rule) {
    m.project == r.srcProject && m.app == r.srcApp
  }

  predicate Serves(m: Identity, r: Rule) {
    m.project == r.dstProject && m.app == r.dstApp && m.service == r.dstService
  }

  /** A request entry is justified by a rule, a source identity of its app and
      the identity of its destination service; a reply entry is the mirror. */
  ghost predicate Justified(ids: seq<Identity>, rules: seq<Rule>, e: Entry) {
    exists r, s, d :: r in rules && s in ids && d in ids && Sources(s, r) && Serves(d, r) && r.ports == e.ports
      && (if e.reply then e.src == d.id && e.dst == s.id else e.src == s.id && e.dst == d.id)
  }

  lemma {:induction false} ServiceIdServes(ids: seq<Identity>, r: Rule)
    requires ServiceId(ids, r) != []
    ensures exists d :: d in ids && Serves(d, r) && d.id == ServiceId(ids, r)[0]
  {
    var m := ids[|ids|-1];
    if !Serves(m, r) {
      ServiceIdServes(ids[..|ids|-1], r);
    }
  }

  lemma {:induction false} SourceIdsAreSources(ids: seq<Identity>, r: Rule, x: nat)
    ensures x in SourceIds(ids, r) <==> exists s :: s in ids && Sources(s, r) && s.id == x
  {
    if ids != [] {
      var m := ids[|ids|-1];
      SourceIdsAreSources(ids[..|ids|-1], r, x);
      assert ids == ids[..|ids|-1] + [m];
    }
  }

  lemma {:induction false} PairsAre(srcs: seq<nat>, dst: nat, ports: seq<nat>, e: Entry)
    ensures e in Pairs(srcs, dst, ports) <==>
      e.ports == ports && (if e.reply then e.src == dst && e.dst in srcs else e.dst == dst && e.src in srcs)
  {
    if srcs != [] {
      PairsAre(srcs[..|srcs|-1], dst, ports, e);
      assert srcs == srcs[..|srcs|-1] + [srcs[|srcs|-1]];
    }
  }

  /** The policy allows nothing that no rule declares. */
  lemma {:induction false} PolicyIsSound(ids: seq<Identity>, rules: seq<Rule>, e: Entry)
    requires e in Entries(ids, rules)
    ensures Justified(ids, rules, e)
  {
    var r := rules[|rules|-1];
    if e in RuleEntries(ids, r) {
      PairsAre(SourceIds(ids, r), ServiceId(ids, r)[0], r.ports, e);
      ServiceIdServes(ids, r);
      SourceIdsAreSources(ids, r, if e.reply then e.dst else e.src);
    } else {
      PolicyIsSound(ids, rules[..|rules|-1], e);
    }
  }

  /** Every rule whose destination is deployed takes effect, in both directions,
      for every identity of its source app. */
  lemma {:induction false} PolicyIsComplete(ids: seq<Identity>, rules: seq<Rule>, r: Rule, s: Identity)
    requires r in rules && s in ids && Sources(s, r) && ServiceId(ids, r) != []
    ensures Entry(s.id, ServiceId(ids, r)[0], r.ports, false) in Entries(ids, rules)
    ensures Entry(ServiceId(ids, r)[0], s.id, r.ports, true) in Entries(ids, rules)
  {
    var dst := ServiceId(ids, r)[0];
    if rules[|rules|-1] == r {
      SourceIdsAreSources(ids, r, s.id);
      PairsAre(SourceIds(ids, r), dst, r.ports, Entry(s.id, dst, r.ports, false));
      PairsAre(SourceIds(ids, r), dst, r.ports, Entry(dst, s.id, r.ports, true));
    } else {
      PolicyIsComplete(ids, rules[..|rules|-1], r, s);
    }
  }
}
