/** The rollout and scale reconcilers as they are written
    (internal/controlplane/controller/apps.go), with their loops over machines.  The class
    holds what they write: the rollout row and the enqueued operations. */
module RolloutRunner {
  import opened Rollout

  // ---- reconcileApp: replicas of the target deployment ----

  /** `gated` says that a rolling rollout towards the target is Preparing or Paused. */
  datatype ScaleInput = ScaleInput(target: string, machines: seq<Machine>, desired: int, gated: bool)

  function BatchSize(replicas: int): int {
    if replicas / 4 < 1 then 1 else replicas / 4
  }

  predicate Has(ms: seq<Machine>, ordinal: int) {
    exists i :: 0 <= i < |ms| && ms[i].ordinal == ordinal
  }

  function Ordinals(ms: seq<Machine>): (r: set<int>)
    ensures forall o :: o in r <==> Has(ms, o)
  {
    set i | 0 <= i < |ms| :: ms[i].ordinal
  }

  function Mine(s: ScaleInput): seq<Machine> {
    Of(s.machines, s.target)
  }

  function Limit(s: ScaleInput): int {
    |ServingSet(Mine(s))| + BatchSize(s.desired)
  }

  predicate Creates(s: ScaleInput, ordinal: int) {
    && 0 <= ordinal < s.desired && !Has(Mine(s), ordinal)
    && (s.gated ==> ordinal < Limit(s))
  }

  function Count(s: ScaleInput): nat {
    if s.desired > 0 then s.desired else 0
  }

  /** The ordinals below k to create, in order. */
  function Missing(s: ScaleInput, k: nat): (r: seq<int>)
    ensures forall o :: o in r <==> Creates(s, o) && o < k
  {
    if k == 0 then [] else Missing(s, k - 1) + if Creates(s, k - 1) then [k - 1] else []
  }

  function Surplus(s: ScaleInput): seq<Machine> {
    Filter(s.machines, (m: Machine) => m.deployment == s.target && m.ordinal >= s.desired && !m.deleted)
  }

  /** Scaling down removes no ordinal below the desired count: a ready generation stays
      ready without the machines that were deleted. */
  lemma ScaleDownKeepsReady(s: ScaleInput)
    requires AllReady(Mine(s), s.desired)
    ensures AllReady(Of(Filter(s.machines, (m: Machine) => m !in Surplus(s)), s.target), s.desired)
  {
    var rest := Of(Filter(s.machines, (m: Machine) => m !in Surplus(s)), s.target);
    forall o | 0 <= o < s.desired ensures Serves(rest, o) {
      var mine := Mine(s);
      assert Serves(mine, o);
      var i :| 0 <= i < |mine| && Serving(mine[i]) && mine[i].ordinal == o;
      assert mine[i] in rest;
      var j :| 0 <= j < |rest| && rest[j] == mine[i];
    }
  }

  // ---- the rolling gate ----

  /** The ordinals that reconcileApp creates. */
  function Created(s: ScaleInput): (r: set<int>)
    ensures forall o :: o in r <==> Creates(s, o)
  {
    var missing := Missing(s, Count(s));
    set o | o in missing
  }

  /** The ordinals of the target that do not serve once it has. */
  function Waiting(s: ScaleInput): set<int> {
    Ordinals(Mine(s)) + Created(s) - ServingSet(Mine(s))
  }

  /** How many ordinals, from zero, the gate and the desired count let exist. */
  function Opened(s: ScaleInput): nat {
    if s.desired <= 0 then 0 else if s.desired < Limit(s) then s.desired else Limit(s)
  }

  /** Existing ordinals beyond those. */
  function Stray(s: ScaleInput): (r: set<int>)
    ensures forall o :: o in r <==> Has(Mine(s), o) && !(0 <= o < Opened(s))
  {
    set o | o in Ordinals(Mine(s)) && !(0 <= o < Opened(s))
  }

  lemma ServingExists(s: ScaleInput)
    ensures ServingSet(Mine(s)) <= Ordinals(Mine(s))
  {
    forall o | o in ServingSet(Mine(s)) ensures o in Ordinals(Mine(s)) {
      assert Serves(Mine(s), o);
    }
  }

  lemma WaitingCount(s: ScaleInput)
    requires s.gated
    ensures |Waiting(s)| == Opened(s) + |Stray(s)| - |ServingSet(Mine(s))|
  {
    ServingExists(s);
    GateCount(Ordinals(Mine(s)), Created(s), ServingSet(Mine(s)), Stray(s), Opened(s));
  }

  lemma GateCount(existing: set<int>, created: set<int>, serving: set<int>, stray: set<int>, width: nat)
    requires serving <= existing
    requires forall o :: o in created <==> 0 <= o < width && o !in existing
    requires forall o :: o in stray <==> o in existing && !(0 <= o < width)
    ensures |existing + created - serving| == width + |stray| - |serving|
  {
    var all := existing + created;
    BelowSize(width);
    assert all == Below(width) + stray;
    assert all == (all - serving) + serving;
  }

  /** Behind the rolling gate at most one batch of ordinals waits to serve exactly when the
      existing ordinals beyond the opened ones fit into what the gate leaves free. */
  lemma OneBatchExactly(s: ScaleInput)
    requires s.gated
    ensures |Waiting(s)| <= BatchSize(s.desired) <==> |Stray(s)| <= Limit(s) - Opened(s)
  {
    WaitingCount(s);
  }

  /** It can fail: when the first batches stop serving the limit falls below the ordinals
      that exist. */
  lemma BatchesMayPileUp(s: ScaleInput)
    requires s.gated && s.desired == 8 && Ordinals(Mine(s)) == {0, 1, 2, 3} && ServingSet(Mine(s)) == {}
    ensures BatchSize(s.desired) == 2 && |Waiting(s)| == 4
  {
    WaitingCount(s);
    assert Limit(s) == 2 && Opened(s) == 2;
    TwoStray(Ordinals(Mine(s)), Stray(s));
  }

  lemma TwoStray(existing: set<int>, stray: set<int>)
    requires existing == {0, 1, 2, 3} && forall o :: o in stray <==> o in existing && !(0 <= o < 2)
    ensures |stray| == 2
  {
    forall o ensures o in stray <==> o == 2 || o == 3 {
      assert o in existing <==> o == 0 || o == 1 || o == 2 || o == 3;
    }
    assert stray == {2, 3};
  }

  predicate Orderly(s: ScaleInput) {
    forall o :: o in Ordinals(Mine(s)) ==> 0 <= o < Limit(s)
  }

  lemma OrderlyIsOneBatch(s: ScaleInput)
    requires s.gated && Orderly(s)
    ensures |Waiting(s)| <= BatchSize(s.desired)
  {
    BelowSize(Limit(s));
    BelowSize(Opened(s));
    assert Below(Opened(s)) <= Below(Limit(s));
    var rest := Below(Limit(s)) - Below(Opened(s));
    assert Below(Limit(s)) == rest + Below(Opened(s));
    SubsetSize(Stray(s), rest);
    OneBatchExactly(s);
  }

  /** The next tick of the same rollout: no machine has appeared but those created, and no
      fewer ordinals serve. */
  predicate Follows(s: ScaleInput, t: ScaleInput) {
    && s.gated && t.gated && t.desired == s.desired
    && Ordinals(Mine(t)) <= Ordinals(Mine(s)) + Created(s)
    && |ServingSet(Mine(s))| <= |ServingSet(Mine(t))|
  }

  /** While the serving ordinals do not become fewer, every tick of a rolling rollout has at
      most one batch waiting. */
  lemma {:induction false} OneBatchAtATime(ticks: seq<ScaleInput>, k: nat)
    requires k < |ticks| && ticks[0].gated && Orderly(ticks[0])
    requires forall i :: 0 < i < |ticks| ==> Follows(ticks[i - 1], ticks[i])
    ensures Orderly(ticks[k]) && ticks[k].gated && |Waiting(ticks[k])| <= BatchSize(ticks[k].desired)
  {
    if k > 0 {
      OneBatchAtATime(ticks, k - 1);
      assert Follows(ticks[k - 1], ticks[k]);
    }
    OrderlyIsOneBatch(ticks[k]);
  }

  // ---- the loops ----

  method AnyExhausted(ms: seq<Machine>, exhausted: set<string>) returns (b: bool)
    ensures b <==> exists i :: 0 <= i < |ms| && ms[i].id in exhausted
  {
    for i := 0 to |ms|
      invariant forall k :: 0 <= k < i ==> ms[k].id !in exhausted
    {
      if ms[i].id in exhausted {
        return true;
      }
    }
    return false;
  }

  method AssessCutover(a: Analysis, r: Row, ms: seq<Machine>, desired: int, atEnd: bool, now: int) returns (v: Verdict)
    ensures v == Assess(a, r, ms, desired, atEnd, now)
  {
    if a.External? {
      return a.verdict;
    }
    if desired <= 0 {
      return Proceed;
    }
    var serving := ServingOrdinals(ms);
    if serving == 0 && now >= CutoverBase(r) + ZeroGrace(a) {
      return Rollback;
    }
    if !atEnd {
      return Wait;
    }
    if serving as real / desired as real >= MinRatio(a) {
      return Proceed;
    }
    return Rollback;
  }

  method FindOrdinals(ms: seq<Machine>, target: string) returns (have: set<int>)
    ensures forall o :: o in have <==> Has(Of(ms, target), o)
  {
    have := {};
    for i := 0 to |ms|
      invariant forall o :: o in have <==> Has(Of(ms[..i], target), o)
    {
      OfNext(ms, i, target);
      if ms[i].deployment == target {
        have := have + {ms[i].ordinal};
      }
    }
    assert ms[..|ms|] == ms;
  }

  class Controller {
    var row: Row
    var deletes: seq<Machine>
    var creates: seq<int>

    constructor (r: Row)
      ensures row == r && deletes == [] && creates == []
    {
      row, deletes, creates := r, [], [];
    }

    method Write(next: Row, o: Observation)
      modifies this`row
      ensures row == Stored(o, old(row), next)
    {
      if o.stored {
        row := next;
      }
    }

    /** Enqueues a delete for each machine that passes. */
    method DeleteWhere(ms: seq<Machine>, pick: Machine -> bool) returns (n: nat)
      modifies this`deletes
      ensures deletes == old(deletes) + Filter(ms, pick) && n == |Filter(ms, pick)|
    {
      n := 0;
      for i := 0 to |ms|
        invariant deletes == old(deletes) + Filter(ms[..i], pick) && n == |Filter(ms[..i], pick)|
      {
        assert ms[..i + 1][..i] == ms[..i];
        if pick(ms[i]) {
          deletes := deletes + [ms[i]];
          n := n + 1;
        }
      }
      assert ms[..|ms|] == ms;
    }

    method Prepare(seen: Row, o: Observation, to: seq<Machine>, at: int)
      requires Readable(o) && to == To(o)
      modifies this`row
      ensures row == Stored(o, old(row), Perform(old(row), PlanPreparing(seen, o).write, at))
    {
      if seen.startedAt.None? || o.now - seen.startedAt.value > o.timeout {
        Write(ToRollback(row), o);
        return;
      }
      var exhausted := AnyExhausted(to, o.retriesExhausted);
      if exhausted {
        Write(ToRollback(row), o);
        return;
      }
      var ready := CheckAllReady(to, o.desired);
      if ready {
        if GateApplies(seen) {
          Write(ToPaused(row), o);
        } else {
          Write(ToCutover(row, at, o.now + o.drainGrace), o);
        }
      }
    }

    method CutOver(seen: Row, o: Observation, to: seq<Machine>, at: int)
      requires Readable(o) && to == To(o)
      modifies this`row, this`deletes
      ensures var plan := PlanCutover(seen, o);
        row == Stored(o, old(row), Perform(old(row), plan.write, at)) && deletes == old(deletes) + plan.deletes
    {
      if seen.drainDeadline.None? {
        return;
      }
      var atEnd := o.now >= DecisionAt(seen, o.window);
      var verdict := AssessCutover(o.analysis, seen, to, o.desired, atEnd, o.now);
      if verdict.Rollback? {
        Write(ToRollback(row), o);
        return;
      }
      if !atEnd {
        return;
      }
      var ready := CheckAllReady(to, o.desired);
      if !ready {
        return;
      }
      var n := DeleteWhere(o.machines.value, (m: Machine) => m.deployment != o.toDeployment.value);
      Write(ToComplete(row, false), o);
    }

    method RollBack(o: Observation, to: seq<Machine>, at: int)
      requires Readable(o) && to == To(o)
      modifies this`row, this`deletes
      ensures var plan := PlanRollingBack(o);
        row == Stored(o, old(row), Perform(old(row), plan.write, at)) && deletes == old(deletes) + plan.deletes
    {
      if o.fromDeployment.None? {
        return;
      }
      var from := FilterMachines(o.machines.value, (m: Machine) => m.deployment == o.fromDeployment.value);
      var ready := CheckAllReady(from, o.desired);
      if !ready {
        return;
      }
      var remaining := DeleteWhere(to, (m: Machine) => !m.deleted);
      if remaining == 0 {
        Write(ToComplete(row, true), o);
      }
    }

    /** reconcileRollout, when nothing comes in between: the tick of Rollout.UndisturbedTick. */
    method ReconcileRollout(seen: Row, o: Observation, at: int)
      modifies this`row, this`deletes
      ensures row == Close(old(row), seen, o, at) && deletes == old(deletes) + Decide(seen, o).deletes
    {
      if o.toDeployment.None? || o.machines.None? {
        return;
      }
      var to := FilterMachines(o.machines.value, (m: Machine) => m.deployment == o.toDeployment.value);
      match seen.status
      case Preparing => Prepare(seen, o, to, at);
      case Cutover => CutOver(seen, o, to, at);
      case RollingBack => RollBack(o, to, at);
      case Paused =>
      case Complete =>
    }

    method CreateMissing(s: ScaleInput, have: set<int>, limit: int)
      requires forall o :: o in have <==> Has(Mine(s), o)
      requires limit == if s.gated then Limit(s) else -1
      modifies this`creates
      ensures creates == old(creates) + Missing(s, Count(s))
    {
      var ordinal := 0;
      while ordinal < s.desired
        invariant 0 <= ordinal && (ordinal <= s.desired || ordinal == 0)
        invariant creates == old(creates) + Missing(s, ordinal)
      {
        if ordinal !in have && !(limit >= 0 && ordinal >= limit) {
          creates := creates + [ordinal];
        }
        ordinal := ordinal + 1;
      }
    }

    /** reconcileApp, past its reads: creates exactly the missing ordinals the gate lets
        through, in order, and deletes exactly the surplus. */
    method ReconcileApp(s: ScaleInput)
      modifies this`creates, this`deletes
      ensures creates == old(creates) + Missing(s, Count(s))
      ensures deletes == old(deletes) + Surplus(s)
    {
      var have := FindOrdinals(s.machines, s.target);
      var limit := -1;
      if s.gated {
        var mine := FilterMachines(s.machines, (m: Machine) => m.deployment == s.target);
        var cut := ServingOrdinals(mine);
        limit := cut + BatchSize(s.desired);
      }
      CreateMissing(s, have, limit);
      var n := DeleteWhere(s.machines, (m: Machine) => m.deployment == s.target && m.ordinal >= s.desired && !m.deleted);
    }
  }

  lemma OfNext(ms: seq<Machine>, i: nat, d: string)
    requires i < |ms|
    ensures forall o :: Has(Of(ms[..i + 1], d), o) <==>
      Has(Of(ms[..i], d), o) || (ms[i].deployment == d && ms[i].ordinal == o)
  {
    var now, next := Of(ms[..i], d), Of(ms[..i + 1], d);
    assert ms[..i + 1][..i] == ms[..i];
    assert next == now + if ms[i].deployment == d then [ms[i]] else [];
    forall o ensures Has(next, o) <==> Has(now, o) || (ms[i].deployment == d && ms[i].ordinal == o) {
      if Has(now, o) {
        var k :| 0 <= k < |now| && now[k].ordinal == o;
        assert next[k].ordinal == o;
      }
      if ms[i].deployment == d {
        assert next[|now|].ordinal == ms[i].ordinal;
      }
    }
  }
}
