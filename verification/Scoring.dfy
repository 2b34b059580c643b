/** What the placement score means: load and penalties raise it, and the order by score and id
    is the one that Place and PrefetchTopK follow (internal/scheduler/placement.go). */
module Scoring {
  import opened Ranking
  import opened Scheduler

  // ---- arithmetic ----

  lemma TimesOrdered(w: real, a: real, b: real)
    requires w >= 0.0 && a <= b
    ensures w * a <= w * b && (w > 0.0 && a < b ==> w * a < w * b)
  {
  }

  lemma OverOrdered(a: real, b: real, d: real)
    requires d > 0.0 && a <= b
    ensures a / d <= b / d && (a < b ==> a / d < b / d)
  {
    assert a / d * d == a && b / d * d == b;
  }

  lemma ShareOrdered(a: real, b: real, total: real)
    requires total > 0.0 && a <= b
    ensures Share(a, total) <= Share(b, total) && (a < b ==> Share(a, total) < Share(b, total))
  {
    var x, y := a / 100.0, b / 100.0;
    TimesOrdered(total, x, y);
    assert x <= y && (a < b ==> x < y);
    assert Share(a, total) == total * x && Share(b, total) == total * y;
  }

  lemma SumOrdered(alpha: real, l: real, l': real, u: real, u': real)
    requires alpha >= 0.0 && l <= l' && u <= u'
    ensures l + alpha * u <= l' + alpha * u' && (l < l' || (alpha > 0.0 && u < u') ==> l + alpha * u < l' + alpha * u')
  {
    TimesOrdered(alpha, u, u');
    var x, y := alpha * u, alpha * u';
    assert x <= y && (alpha > 0.0 && u < u' ==> x < y);
    assert l + x <= l' + y;
  }

  lemma TermOrdered(w: real, alpha: real, l: real, l': real, u: real, u': real, c: real)
    requires w >= 0.0 && alpha >= 0.0 && c > 0.0 && l <= l' && u <= u'
    ensures Term(w, alpha, l, u, c) <= Term(w, alpha, l', u', c)
    ensures w > 0.0 && (l < l' || (alpha > 0.0 && u < u')) ==> Term(w, alpha, l, u, c) < Term(w, alpha, l', u', c)
  {
    var a, b := l + alpha * u, l' + alpha * u';
    SumOrdered(alpha, l, l', u, u');
    OverOrdered(a, b, c);
    TimesOrdered(w, a / c, b / c);
  }

  // ---- load ----

  /** The node's sums with the request stay below the word size. */
  predicate NoOverflow(n: Node, req: Request) {
    req.vcpu + n.cpu.held + n.cpu.pending < WORD && req.mem + n.mem.held + n.mem.pending < WORD
  }

  /** Two nodes of known, equal capacity under a configuration without negative weights. */
  predicate Comparable(n: Node, m: Node, req: Request, cfg: Config) {
    && n.cpu.total == m.cpu.total > 0 && n.mem.total == m.mem.total > 0 && cfg.r > 0.0 && cfg.memR > 0.0
    && cfg.alpha >= 0.0 && cfg.weightCpu >= 0.0 && cfg.weightMem >= 0.0
    && NoOverflow(n, req) && NoOverflow(m, req)
  }

  /** m has no less of each kind of load than n. */
  predicate Busier(n: Node, m: Node) {
    && n.cpu.held + n.cpu.pending <= m.cpu.held + m.cpu.pending && n.cpuPercent <= m.cpuPercent
    && n.mem.held + n.mem.pending <= m.mem.held + m.mem.pending && n.memUsed <= m.memUsed
  }

  lemma CapPositive(total: nat, r: real)
    requires total > 0 && r > 0.0
    ensures Cap(total, r) > 0.0
  {
  }

  lemma UsageOrdered(n: Node, m: Node)
    requires n.cpu.total == m.cpu.total > 0 && n.cpuPercent <= m.cpuPercent
    ensures CpuUsage(n) <= CpuUsage(m) && (n.cpuPercent < m.cpuPercent ==> CpuUsage(n) < CpuUsage(m))
  {
    ShareOrdered(n.cpuPercent, m.cpuPercent, n.cpu.total as real);
  }

  lemma CpuOrdered(n: Node, m: Node, req: Request, cfg: Config)
    requires Comparable(n, m, req, cfg) && Busier(n, m)
    ensures CpuTerm(n, req, cfg) <= CpuTerm(m, req, cfg)
    ensures cfg.weightCpu > 0.0 && n.cpu.held + n.cpu.pending < m.cpu.held + m.cpu.pending ==>
      CpuTerm(n, req, cfg) < CpuTerm(m, req, cfg)
    ensures cfg.weightCpu > 0.0 && cfg.alpha > 0.0 && n.cpuPercent < m.cpuPercent ==>
      CpuTerm(n, req, cfg) < CpuTerm(m, req, cfg)
  {
    UsageOrdered(n, m);
    CapPositive(n.cpu.total, cfg.r);
    var use, use' := CpuUsage(n), CpuUsage(m);
    var load, load' := req.vcpu + n.cpu.held + n.cpu.pending, req.vcpu + m.cpu.held + m.cpu.pending;
    assert Wrap(load) == load && Wrap(load') == load';
    var c := Cap(n.cpu.total, cfg.r);
    assert CpuTerm(n, req, cfg) == Term(cfg.weightCpu, cfg.alpha, load as real, use, c);
    assert CpuTerm(m, req, cfg) == Term(cfg.weightCpu, cfg.alpha, load' as real, use', c);
    TermOrdered(cfg.weightCpu, cfg.alpha, load as real, load' as real, use, use', c);
  }

  lemma MemOrdered(n: Node, m: Node, req: Request, cfg: Config)
    requires Comparable(n, m, req, cfg) && Busier(n, m)
    ensures MemTerm(n, req, cfg) <= MemTerm(m, req, cfg)
    ensures cfg.weightMem > 0.0 && n.mem.held + n.mem.pending < m.mem.held + m.mem.pending ==>
      MemTerm(n, req, cfg) < MemTerm(m, req, cfg)
    ensures cfg.weightMem > 0.0 && cfg.alpha > 0.0 && n.memUsed < m.memUsed ==>
      MemTerm(n, req, cfg) < MemTerm(m, req, cfg)
  {
    CapPositive(n.mem.total, cfg.memR);
    var load, load' := req.mem + n.mem.held + n.mem.pending, req.mem + m.mem.held + m.mem.pending;
    assert Wrap(load) == load && Wrap(load') == load';
    TermOrdered(cfg.weightMem, cfg.alpha, load as real, load' as real, n.memUsed as real, m.memUsed as real, Cap(n.mem.total, cfg.memR));
  }

  lemma SumsOrdered(a: real, a': real, b: real, b': real, p: real)
    requires a <= a' && b <= b'
    ensures a + b + p <= a' + b' + p && (a < a' || b < b' ==> a + b + p < a' + b' + p)
  {
  }

  /** Some kind of load that counts is more on m than on n. */
  predicate StrictlyBusier(n: Node, m: Node, cfg: Config) {
    || (cfg.weightCpu > 0.0 && n.cpu.held + n.cpu.pending < m.cpu.held + m.cpu.pending)
    || (cfg.weightCpu > 0.0 && cfg.alpha > 0.0 && n.cpuPercent < m.cpuPercent)
    || (cfg.weightMem > 0.0 && n.mem.held + n.mem.pending < m.mem.held + m.mem.pending)
    || (cfg.weightMem > 0.0 && cfg.alpha > 0.0 && n.memUsed < m.memUsed)
  }

  /** Of two nodes of the same capacity and penalties the one with no more commitments and no
      more live usage never scores worse, and better as soon as one that counts is less. */
  lemma BusierScoresMore(n: Node, m: Node, req: Request, cfg: Config)
    requires Comparable(n, m, req, cfg) && Busier(n, m) && Penalties(n, req, cfg) == Penalties(m, req, cfg)
    ensures Score(n, req, cfg) <= Score(m, req, cfg)
    ensures StrictlyBusier(n, m, cfg) ==> Score(n, req, cfg) < Score(m, req, cfg)
  {
    CpuOrdered(n, m, req, cfg);
    MemOrdered(n, m, req, cfg);
    SumsOrdered(CpuTerm(n, req, cfg), CpuTerm(m, req, cfg), MemTerm(n, req, cfg), MemTerm(m, req, cfg), Penalties(n, req, cfg));
  }

  // ---- penalties ----

  /** The request without anything that is penalised. */
  function Plain(req: Request): Request {
    req.(image := "", bandwidth := 0, existingRacks := {}, existingZones := {})
  }

  lemma PlainPays(n: Node, req: Request, cfg: Config)
    ensures Penalties(n, Plain(req), cfg) == 0.0
    ensures Score(n, req, cfg) == Score(n, Plain(req), cfg) + Penalties(n, req, cfg)
  {
    assert CpuTerm(n, req, cfg) == CpuTerm(n, Plain(req), cfg) && MemTerm(n, req, cfg) == MemTerm(n, Plain(req), cfg);
  }

  /** The part of the request in the node's bandwidth, where it is known, is what it pays for. */
  lemma BandwidthExactly(n: Node, req: Request, cfg: Config)
    ensures n.bandwidth == 0 || req.bandwidth == 0 ==> BandwidthPenalty(n, req, cfg) == 0.0
    ensures BandwidthPenalty(n, req, cfg) * n.bandwidth as real ==
      if n.bandwidth == 0 then 0.0 else cfg.weightBandwidth * req.bandwidth as real
  {
    if n.bandwidth > 0 && req.bandwidth > 0 {
      var x, b := cfg.weightBandwidth * req.bandwidth as real, n.bandwidth as real;
      assert x / b * b == x;
    }
  }

  /** Besides its load a node pays for each of these: a wanted image it has not cached, its
      bandwidth as above, and a rack or zone, where it is known, that the deployment already
      uses. */
  lemma PenaltiesExactly(n: Node, req: Request, cfg: Config)
    ensures Score(n, req, cfg) == Score(n, Plain(req), cfg)
      + (if req.image != "" && req.image !in n.images then cfg.weightImage else 0.0) + BandwidthPenalty(n, req, cfg)
      + (if n.rack != "" && n.rack in req.existingRacks then cfg.weightRack else 0.0)
      + (if n.zone != "" && n.zone in req.existingZones then cfg.weightZone else 0.0)
  {
    PlainPays(n, req, cfg);
  }

  // ---- order ----

  lemma SortsEntries(entries: seq<Entry>)
    ensures |Sort(entries)| == |entries| && Sorted(Sort(entries))
    ensures forall e :: e in Sort(entries) <==> e in entries
  {
    SortSorts(entries);
    forall e ensures e in Sort(entries) <==> e in entries {
      assert e in multiset(Sort(entries)) <==> e in multiset(entries);
    }
  }

  lemma EntryKnows(all: seq<Node>, req: Request, cfg: Config, e: Entry)
    requires e in Entries(all, req, cfg)
    ensures e.index < |all| && e.score == Score(all[e.index], req, cfg) && e.id == all[e.index].id
  {
  }

  /** What PrefetchTopK returns is in (score, id) order, and every candidate that it leaves out
      comes after all it returns. */
  lemma TopIsBest(top: seq<Node>, req: Request, nodes: seq<Node>, cfg: Config, k: int)
    requires IsTop(top, req, nodes, cfg, k)
    ensures var all := Candidates(nodes, false, req, cfg); var want := if k > 0 then k else 3;
      && |top| == (if |all| <= want then |all| else want)
      && (forall i :: 0 <= i < |top| ==> top[i] in all)
    ensures forall i, j :: 0 <= i < j < |top| ==> Before(top[i], top[j], req, cfg)
    ensures forall n, i :: n in Candidates(nodes, false, req, cfg) && n !in top && 0 <= i < |top| ==> Before(top[i], n, req, cfg)
  {
    var all, ranked := Candidates(nodes, false, req, cfg), Ranked(nodes, req, cfg);
    SortsEntries(Entries(all, req, cfg));
    forall i, j | 0 <= i < j < |top| ensures Before(top[i], top[j], req, cfg) {
      RanksBefore(all, ranked, req, cfg, i, j);
    }
    forall n, i | n in all && n !in top && 0 <= i < |top| ensures Before(top[i], n, req, cfg) {
      var j := RankOf(all, ranked, req, cfg, n);
      assert j >= |top|;
      RanksBefore(all, ranked, req, cfg, i, j);
    }
  }

  lemma RanksBefore(all: seq<Node>, ranked: seq<Entry>, req: Request, cfg: Config, i: nat, j: nat)
    requires Sorted(ranked) && i < j < |ranked| && forall e :: e in ranked <==> e in Entries(all, req, cfg)
    ensures ranked[i].index < |all| && ranked[j].index < |all|
    ensures Before(all[ranked[i].index], all[ranked[j].index], req, cfg)
  {
    EntryKnows(all, req, cfg, ranked[i]);
    EntryKnows(all, req, cfg, ranked[j]);
    assert Le(ranked[i], ranked[j]);
  }

  lemma RankOf(all: seq<Node>, ranked: seq<Entry>, req: Request, cfg: Config, n: Node) returns (j: nat)
    requires n in all && forall e :: e in ranked <==> e in Entries(all, req, cfg)
    ensures j < |ranked| && ranked[j].index < |all| && all[ranked[j].index] == n
  {
    var m :| 0 <= m < |all| && all[m] == n;
    var e := Entries(all, req, cfg)[m];
    assert e in Entries(all, req, cfg) && e.index == m;
    j :| 0 <= j < |ranked| && ranked[j] == e;
  }
}
