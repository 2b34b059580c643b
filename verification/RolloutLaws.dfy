/** What the ticks of a rollout come to, by the fields of the row and of the machines, and what
    the approval gate guarantees over whole runs (internal/controlplane/controller/apps.go). */
module RolloutLaws {
  import opened Base
  import opened Traces
  import opened Rollout
  import opened RolloutRunner

  // ---- the machines ----

  /** A machine of the deployment serves the ordinal. */
  ghost predicate Up(ms: seq<Machine>, deployment: string, ordinal: int) {
    exists i :: 0 <= i < |ms| && ms[i].deployment == deployment && ms[i].ordinal == ordinal
      && (ms[i].state == "RUNNING" || ms[i].state == "PAUSED")
      && (ms[i].readiness == "READY" || ms[i].readiness == "UNCONFIGURED")
  }

  ghost predicate AllUp(ms: seq<Machine>, deployment: string, replicas: int) {
    forall k :: 0 <= k < replicas ==> Up(ms, deployment, k)
  }

  /** A machine of the deployment is out of create attempts. */
  ghost predicate GivenUp(ms: seq<Machine>, deployment: string, exhausted: set<string>) {
    exists i :: 0 <= i < |ms| && ms[i].deployment == deployment && ms[i].id in exhausted
  }

  lemma UpExactly(ms: seq<Machine>, deployment: string, ordinal: int)
    ensures Serves(Of(ms, deployment), ordinal) <==> Up(ms, deployment, ordinal)
  {
    var mine := Of(ms, deployment);
    if Serves(mine, ordinal) {
      var i :| 0 <= i < |mine| && Serving(mine[i]) && mine[i].ordinal == ordinal;
      assert mine[i] in ms;
      var j :| 0 <= j < |ms| && ms[j] == mine[i];
    }
    if Up(ms, deployment, ordinal) {
      var i :| 0 <= i < |ms| && ms[i].deployment == deployment && ms[i].ordinal == ordinal && Serving(ms[i]);
      assert ms[i] in mine;
      var j :| 0 <= j < |mine| && mine[j] == ms[i];
    }
  }

  lemma AllUpExactly(ms: seq<Machine>, deployment: string, replicas: int)
    ensures AllReady(Of(ms, deployment), replicas) <==> AllUp(ms, deployment, replicas)
  {
    forall k ensures Serves(Of(ms, deployment), k) <==> Up(ms, deployment, k) {
      UpExactly(ms, deployment, k);
    }
  }

  lemma GivenUpExactly(ms: seq<Machine>, deployment: string, exhausted: set<string>)
    ensures (exists i :: 0 <= i < |Of(ms, deployment)| && Of(ms, deployment)[i].id in exhausted) <==>
      GivenUp(ms, deployment, exhausted)
  {
    var mine := Of(ms, deployment);
    if i :| 0 <= i < |mine| && mine[i].id in exhausted {
      assert mine[i] in ms;
      var j :| 0 <= j < |ms| && ms[j] == mine[i];
    }
    if i :| 0 <= i < |ms| && ms[i].deployment == deployment && ms[i].id in exhausted {
      assert ms[i] in mine;
      var j :| 0 <= j < |mine| && mine[j] == ms[i];
    }
  }

  /** Filtering keeps a machine as often as it occurs, or drops it. */
  lemma {:induction false} FilterCounts(ms: seq<Machine>, keep: Machine -> bool, m: Machine)
    ensures multiset(Filter(ms, keep))[m] == if keep(m) then multiset(ms)[m] else 0
  {
    if ms != [] {
      var n := |ms| - 1;
      assert ms == ms[..n] + [ms[n]];
      FilterCounts(ms[..n], keep, m);
    }
  }

  // ---- one tick, undisturbed ----

  /** A tick in Preparing rolls back when its start is missing, is too long ago or a new machine
      is out of attempts; otherwise it waits until every ordinal of the new generation serves,
      and then pauses for approval or cuts over.  It deletes nothing. */
  lemma PreparingExactly(row: Row, o: Observation, at: int)
    requires row.status.Preparing? && o.toDeployment.Some? && o.machines.Some? && o.stored
    ensures Decide(row, o).deletes == []
    ensures var ms, to := o.machines.value, o.toDeployment.value;
      Close(row, row, o, at) ==
        if row.startedAt.None? || o.now - row.startedAt.value > o.timeout || GivenUp(ms, to, o.retriesExhausted)
          then row.(status := RollingBack)
        else if !AllUp(ms, to, o.desired) then row
        else if row.approvalRequired || (row.canaryWeight > 0 && row.rolling) then row.(status := Paused)
        else row.(status := Cutover, cutoverAt := Some(at), drainDeadline := Some(o.now + o.drainGrace))
  {
    GivenUpExactly(o.machines.value, o.toDeployment.value, o.retriesExhausted);
    AllUpExactly(o.machines.value, o.toDeployment.value, o.desired);
  }

  /** The analysis calls a cutover off: an external one by its word; the built-in one when no
      ordinal has served for the grace since the cutover, 30 s by default, or when the time has
      come and the serving ordinals are less than their ratio, one by default. */
  ghost predicate CalledOff(r: Row, o: Observation, serving: nat)
    requires r.drainDeadline.Some?
  {
    match o.analysis
    case External(v) => v.Rollback?
    case BuiltIn(minRatio, zeroGrace) =>
      var grace := if zeroGrace > 0 then zeroGrace else 30_000_000_000;
      var since := if r.cutoverAt.Some? then r.cutoverAt.value else if r.startedAt.Some? then r.startedAt.value else 0;
      var ratio := if 0.0 < minRatio <= 1.0 then minRatio else 1.0;
      && o.desired > 0
      && ((serving == 0 && o.now - since >= grace) || (Due(r, o) && serving as real / o.desired as real < ratio))
  }

  /** A tick in Cutover rolls back when the analysis calls it off.  Otherwise, when the time has
      come and every ordinal of the new generation serves, it deletes every machine of other
      deployments, as often as it is listed, and completes. */
  lemma CutoverExactly(row: Row, o: Observation, at: int)
    requires row.status.Cutover? && row.drainDeadline.Some? && o.toDeployment.Some? && o.machines.Some? && o.stored
    ensures var ms, to := o.machines.value, o.toDeployment.value;
      var off := CalledOff(row, o, |ServingSet(Of(ms, to))|);
      var finishes := !off && Due(row, o) && AllUp(ms, to, o.desired);
      && Close(row, row, o, at) ==
           (if off then row.(status := RollingBack) else if finishes then row.(status := Complete, failed := false) else row)
      && forall m :: multiset(Decide(row, o).deletes)[m] == if finishes && m.deployment != to then multiset(ms)[m] else 0
  {
    var ms, to := o.machines.value, o.toDeployment.value;
    AllUpExactly(ms, to, o.desired);
    assert o.now >= DecisionAt(row, o.window) <==> Due(row, o);
    forall m ensures multiset(NotOf(ms, to))[m] == if m.deployment != to then multiset(ms)[m] else 0 {
      FilterCounts(ms, (x: Machine) => x.deployment != to, m);
    }
  }

  lemma LiveCounts(ms: seq<Machine>, to: string, m: Machine)
    ensures multiset(Live(Of(ms, to)))[m] == if m.deployment == to && !m.deleted then multiset(ms)[m] else 0
  {
    FilterCounts(Of(ms, to), (x: Machine) => !x.deleted, m);
    FilterCounts(ms, (x: Machine) => x.deployment == to, m);
  }

  /** A tick in RollingBack waits until every ordinal of the old generation serves, then deletes
      the new machines that are not deleted yet, and completes as failed once there are none. */
  lemma RollingBackExactly(row: Row, o: Observation, at: int)
    requires row.status.RollingBack? && o.toDeployment.Some? && o.machines.Some? && o.stored
    ensures var ms, to := o.machines.value, o.toDeployment.value;
      var acts := o.fromDeployment.Some? && AllUp(ms, o.fromDeployment.value, o.desired);
      var left := exists m :: m in ms && m.deployment == to && !m.deleted;
      && Close(row, row, o, at) == (if acts && !left then row.(status := Complete, failed := true) else row)
      && forall m :: multiset(Decide(row, o).deletes)[m] ==
           if acts && m.deployment == to && !m.deleted then multiset(ms)[m] else 0
  {
    var ms, to := o.machines.value, o.toDeployment.value;
    if o.fromDeployment.Some? {
      AllUpExactly(ms, o.fromDeployment.value, o.desired);
    }
    forall m ensures multiset(Live(Of(ms, to)))[m] == if m.deployment == to && !m.deleted then multiset(ms)[m] else 0 {
      LiveCounts(ms, to, m);
    }
    if Live(Of(ms, to)) != [] {
      assert Live(Of(ms, to))[0] in Live(Of(ms, to));
    }
  }

  /** Otherwise, and whenever its reads failed, a tick leaves everything as it is. */
  lemma IdleExactly(row: Row, seen: Row, o: Observation, at: int)
    requires seen.status.Paused? || seen.status.Complete? || (seen.status.Cutover? && seen.drainDeadline.None?)
      || o.toDeployment.None? || o.machines.None?
    ensures Close(row, seen, o, at) == row && Decide(seen, o).deletes == []
  {
  }

  // ---- replicas of the target ----

  /** A machine of the deployment has the ordinal, whatever its state. */
  ghost predicate Exists(ms: seq<Machine>, deployment: string, ordinal: int) {
    exists i :: 0 <= i < |ms| && ms[i].deployment == deployment && ms[i].ordinal == ordinal
  }

  lemma HasExactly(ms: seq<Machine>, deployment: string, ordinal: int)
    ensures Has(Of(ms, deployment), ordinal) <==> Exists(ms, deployment, ordinal)
  {
    var mine := Of(ms, deployment);
    if Has(mine, ordinal) {
      var i :| 0 <= i < |mine| && mine[i].ordinal == ordinal;
      assert mine[i] in ms;
      var j :| 0 <= j < |ms| && ms[j] == mine[i];
    }
    if Exists(ms, deployment, ordinal) {
      var i :| 0 <= i < |ms| && ms[i].deployment == deployment && ms[i].ordinal == ordinal;
      assert ms[i] in mine;
      var j :| 0 <= j < |mine| && mine[j] == ms[i];
    }
  }

  /** The ordinals to create are those in [0, desired) that no machine of the target has,
      behind the gate only those below the number of serving ordinals plus a quarter of the
      desired count, at least one; each once, in order. */
  lemma {:induction false} MissingExactly(s: ScaleInput, k: nat)
    ensures forall o :: o in Missing(s, k) <==>
      && 0 <= o < k && o < s.desired && !Exists(s.machines, s.target, o)
      && (s.gated ==> o < |ServingSet(Of(s.machines, s.target))| + if s.desired >= 8 then s.desired / 4 else 1)
    ensures forall i, j :: 0 <= i < j < |Missing(s, k)| ==> Missing(s, k)[i] < Missing(s, k)[j]
  {
    forall o ensures Has(Of(s.machines, s.target), o) <==> Exists(s.machines, s.target, o) {
      HasExactly(s.machines, s.target, o);
    }
    if k > 0 {
      MissingExactly(s, k - 1);
      var before := Missing(s, k - 1);
      assert forall i :: 0 <= i < |before| ==> before[i] in before;
    }
  }

  /** Without the gate one tick leaves no ordinal below the desired count without a machine or
      a create. */
  lemma ScaleUpFills(s: ScaleInput, o: int)
    requires !s.gated && 0 <= o < s.desired
    ensures Exists(s.machines, s.target, o) || o in Missing(s, Count(s))
  {
    MissingExactly(s, Count(s));
  }

  /** The gate never blocks for good: when every machine of the target serves, its ordinals are
      the first ones, and some below the desired count is missing, the next is created. */
  lemma GateProgresses(s: ScaleInput, n: nat)
    requires s.gated && n < s.desired
    requires forall o :: Exists(s.machines, s.target, o) <==> 0 <= o < n
    requires forall o :: Exists(s.machines, s.target, o) ==> Up(s.machines, s.target, o)
    ensures n in Missing(s, Count(s))
  {
    var serving := ServingSet(Of(s.machines, s.target));
    forall o ensures o in serving <==> o in Below(n) {
      UpExactly(s.machines, s.target, o);
      assert Up(s.machines, s.target, o) ==> Exists(s.machines, s.target, o);
    }
    assert serving == Below(n);
    BelowSize(n);
    MissingExactly(s, Count(s));
  }

  /** Surplus are the target's machines at or above the desired count that are not deleted
      yet, as often as they are listed. */
  lemma SurplusExactly(s: ScaleInput, m: Machine)
    ensures multiset(Surplus(s))[m] ==
      if m.deployment == s.target && m.ordinal >= s.desired && !m.deleted then multiset(s.machines)[m] else 0
  {
    FilterCounts(s.machines, (x: Machine) => x.deployment == s.target && x.ordinal >= s.desired && !x.deleted, m);
  }

  // ---- the approval gate over runs ----

  predicate SameTerms(r: Row, r': Row) {
    r.approvalRequired == r'.approvalRequired && r.canaryWeight == r'.canaryWeight && r.rolling == r'.rolling
  }

  /** Event i released a paused rollout. */
  ghost predicate Released(row: Row, es: seq<Event>, i: nat) {
    i < |es| && es[i].Approved? && Run(row, es[..i]).row.status.Paused?
  }

  ghost predicate EverReleased(row: Row, es: seq<Event>) {
    exists i: nat :: Released(row, es, i)
  }

  lemma ReleasedLater(row: Row, es: seq<Event>, e: Event)
    requires EverReleased(row, es)
    ensures EverReleased(row, es + [e])
  {
    var i: nat :| Released(row, es, i);
    assert (es + [e])[..i] == es[..i];
    assert Released(row, es + [e], i);
  }

  /** Rollouts that need approval are cut over by an approval alone, and others never pause. */
  ghost predicate GateKept(row: Row, es: seq<Event>, r: Row) {
    && SameTerms(row, r)
    && (if row.approvalRequired || (row.canaryWeight > 0 && row.rolling) then r.status.Cutover? ==> EverReleased(row, es)
        else !r.status.Paused?)
  }

  lemma CloseKeepsGate(row: Row, es: seq<Event>, r: Row, t: Tick, at: int)
    requires GateKept(row, es, r) && t.Acting? && SameTerms(row, t.seen)
    ensures GateKept(row, es, Close(r, t.seen, t.o, at))
  {
  }

  lemma EventKeepsGate(row: Row, es: seq<Event>, e: Event)
    requires var w := Run(row, es); GateKept(row, es, w.row) && (!w.tick.Idle? ==> SameTerms(row, w.tick.seen))
    ensures var w := Apply(Run(row, es), e); GateKept(row, es + [e], w.row) && (!w.tick.Idle? ==> SameTerms(row, w.tick.seen))
  {
    var w := Run(row, es);
    if EverReleased(row, es) {
      ReleasedLater(row, es, e);
    }
    if e.Ended? && w.tick.Acting? {
      CloseKeepsGate(row, es, w.row, w.tick, e.at);
    } else if e.Approved? && w.row.status.Paused? {
      assert (es + [e])[..|es|] == es;
      assert Released(row, es + [e], |es|);
    }
  }

  lemma {:induction false} RunKeepsGate(row: Row, es: seq<Event>)
    requires Fresh(row)
    ensures var w := Run(row, es); GateKept(row, es, w.row) && (!w.tick.Idle? ==> SameTerms(row, w.tick.seen))
  {
    if es != [] {
      var front, e := es[..|es| - 1], es[|es| - 1];
      assert es == front + [e];
      RunKeepsGate(row, front);
      EventKeepsGate(row, front, e);
    }
  }

  /** Over every run from a new row: one that requires approval, or a rolling one with a canary
      weight, is in Cutover only after an approval released it from its pause; any other never
      pauses. */
  lemma ApprovalGates(row: Row, es: seq<Event>)
    requires Fresh(row)
    ensures row.approvalRequired || (row.canaryWeight > 0 && row.rolling) ==>
      (Run(row, es).row.status.Cutover? ==>
         exists i: nat :: i < |es| && es[i].Approved? && Run(row, es[..i]).row.status.Paused?)
    ensures !row.approvalRequired && !(row.canaryWeight > 0 && row.rolling) ==> !Run(row, es).row.status.Paused?
  {
    RunKeepsGate(row, es);
    if EverReleased(row, es) {
      var i: nat :| Released(row, es, i);
    }
  }

  /** So no machine of the old generation of such a rollout is ever deleted in Cutover without an
      approval before. */
  lemma DeletesAreApproved(row: Row, es: seq<Event>, d: Delete)
    requires Fresh(row) && (row.approvalRequired || (row.canaryWeight > 0 && row.rolling))
    requires d in Run(row, es).log && d.seen.status.Cutover?
    ensures exists i: nat :: i < |es| && es[i].Approved? && Run(row, es[..i]).row.status.Paused?
  {
    var n, j := DeletesAreMade(row, es, d);
    ApprovalGates(row, es[..n]);
    var i: nat :| i < n && es[..n][i].Approved? && Run(row, es[..n][..i]).row.status.Paused?;
    assert es[..n][..i] == es[..i] && es[..n][i] == es[i];
  }
}
