/** Rollouts of one app: the reconcile step over the rollout row
    (internal/controlplane/controller/apps.go, rollout_analysis.go) and the row's guarded
    transitions (internal/controlplane/store/apps.go).  A tick reads the row, decides on what
    it read, enqueues its deletes one by one and writes the row last, so an approval, a
    manual rollback or the deletion of the app may come between any two of them.
    Machines, clocks and store failures are arbitrary observations. */
module Rollout {
  import opened Base
  import opened Traces

  datatype Status = Preparing | Paused | Cutover | RollingBack | Complete

  /** `failed` is meaningful once Complete; a missing start time is a damaged row. */
  datatype Row = Row(
    status: Status, failed: bool, startedAt: Option<int>, cutoverAt: Option<int>, drainDeadline: Option<int>,
    approvalRequired: bool, canaryWeight: int, rolling: bool)

  datatype Machine = Machine(id: string, deployment: string, ordinal: int, state: string, readiness: string, deleted: bool)

  datatype Verdict = Wait | Proceed | Rollback

  /** The built-in analysis with its configuration, or any other provider's verdict. */
  datatype Analysis = BuiltIn(minRatio: real, zeroGrace: int) | External(verdict: Verdict)

  /** What a tick reads when it decides: None is a failed or missing read; `retriesExhausted`
      holds the machines whose create attempts ran out; `stored` says whether the tick's
      write to the row took effect. */
  datatype Observation = Observation(
    now: int, desired: int, toDeployment: Option<string>, fromDeployment: Option<string>,
    machines: Option<seq<Machine>>, retriesExhausted: set<string>, analysis: Analysis, window: int,
    timeout: int, drainGrace: int, stored: bool)

  // ---- readiness ----

  predicate Serving(m: Machine) {
    (m.state == "RUNNING" || m.state == "PAUSED") && (m.readiness == "READY" || m.readiness == "UNCONFIGURED")
  }

  function ServingSet(ms: seq<Machine>): (s: set<int>)
    ensures forall o :: o in s <==> Serves(ms, o)
  {
    set i | 0 <= i < |ms| && Serving(ms[i]) :: ms[i].ordinal
  }

  predicate Serves(ms: seq<Machine>, ordinal: int) {
    exists i :: 0 <= i < |ms| && Serving(ms[i]) && ms[i].ordinal == ordinal
  }

  predicate AllReady(ms: seq<Machine>, replicas: int) {
    forall o :: 0 <= o < replicas ==> Serves(ms, o)
  }

  method CheckAllReady(ms: seq<Machine>, replicas: int) returns (b: bool)
    ensures b <==> AllReady(ms, replicas)
  {
    var ready := {};
    for i := 0 to |ms|
      invariant ready == ServingSet(ms[..i])
    {
      if Serving(ms[i]) {
        ready := ready + {ms[i].ordinal};
      }
      ServingNext(ms, i);
    }
    assert ms[..|ms|] == ms;
    var o := 0;
    while o < replicas
      invariant forall k :: 0 <= k < o ==> Serves(ms, k)
    {
      if o !in ready {
        return false;
      }
      o := o + 1;
    }
    return true;
  }

  lemma ServingNext(ms: seq<Machine>, i: nat)
    requires i < |ms|
    ensures ServingSet(ms[..i + 1]) == ServingSet(ms[..i]) + if Serving(ms[i]) then {ms[i].ordinal} else {}
  {
    var now, next := ms[..i], ms[..i + 1];
    assert next[i] == ms[i];
    assert forall k :: 0 <= k < i ==> next[k] == now[k];
  }

  method ServingOrdinals(ms: seq<Machine>) returns (n: nat)
    ensures n == |ServingSet(ms)|
  {
    var seen := {};
    for i := 0 to |ms|
      invariant seen == ServingSet(ms[..i])
    {
      if Serving(ms[i]) {
        seen := seen + {ms[i].ordinal};
      }
      ServingNext(ms, i);
    }
    assert ms[..|ms|] == ms;
    return |seen|;
  }

  // ---- cutover analysis ----

  function MinRatio(a: Analysis): real
    requires a.BuiltIn?
  {
    if a.minRatio <= 0.0 || a.minRatio > 1.0 then 1.0 else a.minRatio
  }

  function ZeroGrace(a: Analysis): int
    requires a.BuiltIn?
  {
    if a.zeroGrace <= 0 then 30_000_000_000 else a.zeroGrace
  }

  /** The zero time stands for a missing start time. */
  function CutoverBase(r: Row): int {
    if r.cutoverAt.Some? then r.cutoverAt.value else if r.startedAt.Some? then r.startedAt.value else 0
  }

  function AnalysisEnd(r: Row, window: int, fallback: int): int {
    if window > 0 then CutoverBase(r) + window else fallback
  }

  function DecisionAt(r: Row, window: int): int
    requires r.drainDeadline.Some?
  {
    var windowEnd := AnalysisEnd(r, window, r.drainDeadline.value);
    if windowEnd > r.drainDeadline.value then windowEnd else r.drainDeadline.value
  }

  function Assess(a: Analysis, r: Row, ms: seq<Machine>, desired: int, atEnd: bool, now: int): Verdict {
    if a.External? then a.verdict
    else if desired <= 0 then Proceed
    else if |ServingSet(ms)| == 0 && now >= CutoverBase(r) + ZeroGrace(a) then Rollback
    else if !atEnd then Wait
    else if |ServingSet(ms)| as real / desired as real >= MinRatio(a) then Proceed
    else Rollback
  }

  // ---- the row's transitions, each guarded by the row's status at the write ----

  function ToCutover(row: Row, now: int, deadline: int): Row {
    if row.status.Preparing? then row.(status := Cutover, cutoverAt := Some(now), drainDeadline := Some(deadline)) else row
  }

  function ToPaused(row: Row): Row {
    if row.status.Preparing? then row.(status := Paused) else row
  }

  function Approve(row: Row, now: int, deadline: int): Row {
    if row.status.Paused? then row.(status := Cutover, cutoverAt := Some(now), drainDeadline := Some(deadline)) else row
  }

  function ToRollback(row: Row): Row {
    if row.status.Preparing? || row.status.Cutover? || row.status.Paused? then row.(status := RollingBack) else row
  }

  /** Completion takes any active status. */
  function ToComplete(row: Row, failed: bool): Row {
    if row.status.Complete? then row else row.(status := Complete, failed := failed)
  }

  // ---- one reconcile step ----

  function Filter(ms: seq<Machine>, keep: Machine -> bool): (r: seq<Machine>)
    ensures forall m :: m in r <==> m in ms && keep(m)
  {
    if ms == [] then []
    else
      var n := |ms| - 1;
      Filter(ms[..n], keep) + if keep(ms[n]) then [ms[n]] else []
  }

  method FilterMachines(ms: seq<Machine>, keep: Machine -> bool) returns (r: seq<Machine>)
    ensures r == Filter(ms, keep)
  {
    r := [];
    for i := 0 to |ms|
      invariant r == Filter(ms[..i], keep)
    {
      assert ms[..i + 1][..i] == ms[..i];
      if keep(ms[i]) {
        r := r + [ms[i]];
      }
    }
    assert ms[..|ms|] == ms;
  }

  function Of(ms: seq<Machine>, deployment: string): seq<Machine> {
    Filter(ms, (m: Machine) => m.deployment == deployment)
  }

  function NotOf(ms: seq<Machine>, deployment: string): seq<Machine> {
    Filter(ms, (m: Machine) => m.deployment != deployment)
  }

  function Live(ms: seq<Machine>): seq<Machine> {
    Filter(ms, (m: Machine) => !m.deleted)
  }

  predicate GateApplies(r: Row) {
    r.approvalRequired || (r.canaryWeight > 0 && r.rolling)
  }

  predicate Readable(o: Observation) {
    o.toDeployment.Some? && o.machines.Some?
  }

  function To(o: Observation): seq<Machine>
    requires Readable(o)
  {
    Of(o.machines.value, o.toDeployment.value)
  }

  function From(o: Observation): seq<Machine>
    requires Readable(o) && o.fromDeployment.Some?
  {
    Of(o.machines.value, o.fromDeployment.value)
  }

  predicate PreparationFailed(seen: Row, o: Observation)
    requires Readable(o)
  {
    || seen.startedAt.None?
    || o.now - seen.startedAt.value > o.timeout
    || exists i :: 0 <= i < |To(o)| && To(o)[i].id in o.retriesExhausted
  }

  function Stored(o: Observation, row: Row, next: Row): Row {
    if o.stored then next else row
  }

  /** A write to the row. */
  datatype Write = Keep | StartRollback | Pause | CutOver(deadline: int) | Finish(failed: bool)

  /** The write at time `at`, which is later than the decision. */
  function Perform(row: Row, w: Write, at: int): Row {
    match w
    case Keep => row
    case StartRollback => ToRollback(row)
    case Pause => ToPaused(row)
    case CutOver(deadline) => ToCutover(row, at, deadline)
    case Finish(failed) => ToComplete(row, failed)
  }

  /** What a tick is to do: the machines to delete, in order, and then the write. */
  datatype Plan = Plan(deletes: seq<Machine>, write: Write)

  function PlanPreparing(seen: Row, o: Observation): Plan
    requires Readable(o)
  {
    if PreparationFailed(seen, o) then Plan([], StartRollback)
    else if !AllReady(To(o), o.desired) then Plan([], Keep)
    else if GateApplies(seen) then Plan([], Pause)
    else Plan([], CutOver(o.now + o.drainGrace))
  }

  function CutoverVerdict(seen: Row, o: Observation): Verdict
    requires Readable(o) && seen.drainDeadline.Some?
  {
    Assess(o.analysis, seen, To(o), o.desired, o.now >= DecisionAt(seen, o.window), o.now)
  }

  function PlanCutover(seen: Row, o: Observation): Plan
    requires Readable(o)
  {
    if seen.drainDeadline.None? then Plan([], Keep)
    else if CutoverVerdict(seen, o).Rollback? then Plan([], StartRollback)
    else if o.now < DecisionAt(seen, o.window) || !AllReady(To(o), o.desired) then Plan([], Keep)
    else Plan(NotOf(o.machines.value, o.toDeployment.value), Finish(false))
  }

  function PlanRollingBack(o: Observation): Plan
    requires Readable(o)
  {
    if o.fromDeployment.None? || !AllReady(From(o), o.desired) then Plan([], Keep)
    else
      var remaining := Live(To(o));
      Plan(remaining, if remaining == [] then Finish(true) else Keep)
  }

  /** reconcileRollout on the row as the tick read it. */
  function Decide(seen: Row, o: Observation): Plan {
    if !Readable(o) then Plan([], Keep)
    else match seen.status
      case Preparing => PlanPreparing(seen, o)
      case Cutover => PlanCutover(seen, o)
      case RollingBack => PlanRollingBack(o)
      case Paused => Plan([], Keep)
      case Complete => Plan([], Keep)
  }

  /** The row after the tick's write. */
  function Close(row: Row, seen: Row, o: Observation, at: int): Row {
    Stored(o, row, Perform(row, Decide(seen, o).write, at))
  }

  // ---- runs ----

  /** Ended is the end of a tick with its write, or, when the tick has not come that far, the
      crash that cuts it off. */
  datatype Event =
    | Read | Decided(o: Observation) | Deleted | Ended(at: int)
    | Approved(now: int, deadline: int) | RollbackRequested | AppDeleted

  /** One delete, with the row it was decided on and the row in force. */
  datatype Delete = Delete(machine: Machine, seen: Row, row: Row, o: Observation)

  /** Where the tick stands; `todo` are the deletes it has left. */
  datatype Tick = Idle | Looking(seen: Row) | Acting(seen: Row, o: Observation, todo: seq<Machine>)

  datatype World = World(row: Row, tick: Tick, log: seq<Delete>)

  function Start(row: Row): World {
    World(row, Idle, [])
  }

  /** A new row, as deploy inserts it. */
  predicate Fresh(row: Row) {
    row.status.Preparing? && row.cutoverAt.None? && row.drainDeadline.None?
  }

  function Logged(ms: seq<Machine>, seen: Row, row: Row, o: Observation): seq<Delete> {
    seq(|ms|, i requires 0 <= i < |ms| => Delete(ms[i], seen, row, o))
  }

  function Apply(w: World, e: Event): World {
    match e
    case Read => w.(tick := if w.row.status.Complete? then Idle else Looking(w.row))
    case Decided(o) =>
      if w.tick.Looking? then w.(tick := Acting(w.tick.seen, o, Decide(w.tick.seen, o).deletes)) else w
    case Deleted =>
      if !w.tick.Acting? || w.tick.todo == [] then w
      else
        var t := w.tick;
        World(w.row, t.(todo := t.todo[1..]), w.log + [Delete(t.todo[0], t.seen, w.row, t.o)])
    case Ended(at) =>
      var done := w.tick.Acting? && w.tick.todo == [];
      World(if done then Close(w.row, w.tick.seen, w.tick.o, at) else w.row, Idle, w.log)
    case Approved(now, deadline) => w.(row := Approve(w.row, now, deadline))
    case RollbackRequested => w.(row := ToRollback(w.row))
    case AppDeleted => w.(row := ToComplete(w.row, true))
  }

  function Run(row: Row, es: seq<Event>): World {
    Fold(Apply, Start(row), es)
  }

  // ---- status only moves forward ----

  function Rank(s: Status): nat {
    match s
    case Preparing => 0
    case Paused => 1
    case Cutover => 2
    case RollingBack => 3
    case Complete => 4
  }

  /** The documented edges; only the deletion of the app ends a rollout from Preparing or
      Paused. */
  predicate Edge(a: Status, b: Status) {
    match a
    case Preparing => b.Paused? || b.Cutover? || b.RollingBack?
    case Paused => b.Cutover? || b.RollingBack?
    case Cutover => b.RollingBack? || b.Complete?
    case RollingBack => b.Complete?
    case Complete => false
  }

  /** The row the tick read is not ahead of the row in force, and an unchanged status means
      an unchanged row. */
  predicate SeenOk(w: World) {
    !w.tick.Idle? ==>
      && !w.tick.seen.status.Complete?
      && Rank(w.tick.seen.status) <= Rank(w.row.status)
      && (w.tick.seen.status == w.row.status ==> w.tick.seen == w.row)
  }

  lemma {:induction false} RunKeepsSeenOk(row: Row, es: seq<Event>)
    ensures SeenOk(Run(row, es))
  {
    if es != [] {
      RunKeepsSeenOk(row, es[..|es| - 1]);
    }
  }

  /** A tick makes at most one transition, one that belongs to the status it read. */
  lemma CloseMoves(row: Row, seen: Row, o: Observation, at: int)
    ensures var r := Close(row, seen, o, at);
      || r == row
      || ((seen.status.Preparing? || seen.status.Cutover?) && r == ToRollback(row))
      || (seen.status.Preparing? && (r == ToPaused(row) || r == ToCutover(row, at, o.now + o.drainGrace)))
      || (seen.status.Cutover? && r == ToComplete(row, false))
      || (seen.status.RollingBack? && r == ToComplete(row, true))
  {
  }

  lemma EventRaisesRank(w: World, e: Event)
    ensures Rank(w.row.status) <= Rank(Apply(w, e).row.status)
    ensures Apply(w, e).row.status == w.row.status ==> Apply(w, e).row == w.row
  {
    if e.Ended? && w.tick.Acting? {
      CloseMoves(w.row, w.tick.seen, w.tick.o, e.at);
    }
  }

  /** Over a whole run the status only moves forward, so each status is entered at most
      once, and a status that has not changed means the row has not changed. */
  lemma {:induction false} StatusNeverReturns(row: Row, es: seq<Event>, k: nat)
    requires k <= |es|
    ensures Rank(Run(row, es[..k]).row.status) <= Rank(Run(row, es).row.status)
    ensures Run(row, es[..k]).row.status == Run(row, es).row.status ==> Run(row, es[..k]).row == Run(row, es).row
  {
    if k == |es| {
      assert es[..k] == es;
    } else {
      var n := |es| - 1;
      assert es[..n][..k] == es[..k];
      StatusNeverReturns(row, es[..n], k);
      EventRaisesRank(Run(row, es[..n]), es[n]);
    }
  }

  /** The row is in Cutover and the observation lets the tick finish it. */
  predicate Finishing(r: Row, o: Observation) {
    && r.status.Cutover? && r.drainDeadline.Some? && Readable(o)
    && o.now >= DecisionAt(r, o.window) && !CutoverVerdict(r, o).Rollback? && AllReady(To(o), o.desired)
  }

  /** The tick has decided to finish the Cutover row it read and stores that now, while the
      row has been rolled back by hand in the meantime. */
  predicate LostRollback(w: World, e: Event) {
    && e.Ended? && w.tick.Acting? && w.tick.todo == [] && w.tick.o.stored
    && Finishing(w.tick.seen, w.tick.o) && w.row.status.RollingBack?
  }

  /** Apart from the deletion of the app, every reachable step leaves the status alone or
      takes a documented edge, marks a rollback as failed and a cutover as not failed,
      exactly unless the tick overrides a manual rollback it did not see. */
  lemma EdgesExactly(row: Row, es: seq<Event>, e: Event)
    requires !e.AppDeleted?
    ensures var w, w' := Run(row, es), Apply(Run(row, es), e);
      LostRollback(w, e) <==>
        !(w'.row == w.row
          || (Edge(w.row.status, w'.row.status) && (w'.row.status.Complete? ==> w'.row.failed == w.row.status.RollingBack?)))
  {
    RunKeepsSeenOk(row, es);
    var w := Run(row, es);
    if e.Ended? && w.tick.Acting? {
      CloseMoves(w.row, w.tick.seen, w.tick.o, e.at);
    }
  }

  /** The next n of a tick's deletes, with nothing in between. */
  lemma {:induction false} DeletesRun(w: World, n: nat)
    requires w.tick.Acting? && n <= |w.tick.todo|
    ensures var t := w.tick;
      Iterate(Apply, w, Deleted, n) ==
        World(w.row, t.(todo := t.todo[n..]), w.log + Logged(t.todo[..n], t.seen, w.row, t.o))
  {
    var t := w.tick;
    if n > 0 {
      DeletesRun(w, n - 1);
      assert t.todo[n - 1..][0] == t.todo[n - 1] && t.todo[n - 1..][1..] == t.todo[n..];
      assert Logged(t.todo[..n], t.seen, w.row, t.o) ==
        Logged(t.todo[..n - 1], t.seen, w.row, t.o) + [Delete(t.todo[n - 1], t.seen, w.row, t.o)];
    }
  }

  /** A tick from its decision on, in which a request to roll back comes after p deletes. */
  function RolledBackIn(w: World, o: Observation, p: nat, at: int): World
    requires w.tick.Looking? && p <= |Decide(w.tick.seen, o).deletes|
  {
    var halfway := Apply(Iterate(Apply, Apply(w, Decided(o)), Deleted, p), RollbackRequested);
    Apply(Iterate(Apply, halfway, Deleted, |Decide(w.tick.seen, o).deletes| - p), Ended(at))
  }

  /** The tick decides, deletes and writes with nothing in between. */
  function Undisturbed(w: World, o: Observation, at: int): World
    requires w.tick.Looking?
  {
    Apply(Iterate(Apply, Apply(w, Decided(o)), Deleted, |Decide(w.tick.seen, o).deletes|), Ended(at))
  }

  /** The steps of a tick amount to its plan when nothing comes in between. */
  lemma UndisturbedTick(w: World, o: Observation, at: int)
    requires w.tick.Looking?
    ensures var seen := w.tick.seen;
      Undisturbed(w, o, at) == World(Close(w.row, seen, o, at), Idle, w.log + Logged(Decide(seen, o).deletes, seen, w.row, o))
  {
    var todo := Decide(w.tick.seen, o).deletes;
    DeletesRun(Apply(w, Decided(o)), |todo|);
    assert todo[..|todo|] == todo;
  }

  /** A tick that finishes what it read deletes the old generation, whatever the row is by
      then and whether or not its completion is stored. */
  lemma FinishingDeletes(w: World, o: Observation, at: int)
    requires w.tick.Looking? && Finishing(w.tick.seen, o)
    ensures Undisturbed(w, o, at) == World(
      Stored(o, w.row, ToComplete(w.row, false)), Idle,
      w.log + Logged(NotOf(o.machines.value, o.toDeployment.value), w.tick.seen, w.row, o))
  {
    UndisturbedTick(w, o, at);
  }

  /** A rollback that is requested at any moment between a tick's read and its write, when
      the tick finishes: the rest of the old generation is deleted all the same.  If the
      completion is stored the rollback is lost; if it is not, the rollback goes on without
      them. */
  lemma RollbackIsLost(w: World, o: Observation, p: nat, at: int)
    requires w.tick.Looking? && w.tick.seen == w.row && Finishing(w.row, o)
    requires p <= |NotOf(o.machines.value, o.toDeployment.value)|
    ensures var retired := NotOf(o.machines.value, o.toDeployment.value);
      var back := ToRollback(w.row);
      && back.status.RollingBack?
      && RolledBackIn(w, o, p, at) == World(
        if o.stored then back.(status := Complete, failed := false) else back, Idle,
        w.log + Logged(retired[..p], w.row, w.row, o) + Logged(retired[p..], w.row, back, o))
  {
    var todo := NotOf(o.machines.value, o.toDeployment.value);
    var w1 := Apply(w, Decided(o));
    DeletesRun(w1, p);
    var w2 := Apply(Iterate(Apply, w1, Deleted, p), RollbackRequested);
    var rest := todo[p..];
    DeletesRun(w2, |rest|);
    assert rest[..|rest|] == rest;
  }

  /** Both happen from a fresh row: with p == 0 an old machine is deleted in RollingBack, with
      p == 1 it is deleted in Cutover and the rollback comes before the write. */
  lemma RollbackMayBeLost(stored: bool, p: nat, at: int) returns (row: Row, es: seq<Event>, o: Observation)
    requires p <= 1
    ensures Fresh(row) && Run(row, es).tick.Looking? && |Decide(Run(row, es).tick.seen, o).deletes| == 1
    ensures var w := RolledBackIn(Run(row, es), o, p, at);
      && |w.log| == 1 && w.log[0].seen.status.Cutover?
      && w.log[0].row.status == (if p == 0 then RollingBack else Cutover)
      && w.row.status == (if stored then Complete else RollingBack) && !w.row.failed
  {
    row := Row(Preparing, false, Some(0), None, None, false, 0, false);
    var m := Machine("m", "old", 0, "RUNNING", "READY", false);
    o := Observation(1, 0, Some("new"), Some("old"), Some([m]), {}, External(Proceed), 0, 60, 0, true);
    FilterOne(m, (x: Machine) => x.deployment == "new");
    FilterOne(m, (x: Machine) => x.deployment != "new");
    assert To(o) == [] && NotOf([m], "new") == [m];
    es := [Read, Decided(o), Ended(1), Read];
    assert Run(row, es[..0]) == Start(row);
    FoldOne(Apply, Start(row), es, 0);
    assert Run(row, es[..1]) == World(row, Looking(row), []);
    FoldOne(Apply, Start(row), es, 1);
    assert Run(row, es[..2]) == World(row, Acting(row, o, []), []);
    FoldOne(Apply, Start(row), es, 2);
    var cut := ToCutover(row, 1, 1);
    assert Run(row, es[..3]) == World(cut, Idle, []);
    FoldOne(Apply, Start(row), es, 3);
    assert es[..4] == es;
    assert Run(row, es) == World(cut, Looking(cut), []);
    o := o.(stored := stored);
    RollbackIsLost(Run(row, es), o, p, at);
  }

  lemma FilterOne(m: Machine, keep: Machine -> bool)
    ensures Filter([m], keep) == if keep(m) then [m] else []
  {
    assert [m][..0] == [];
  }

  // ---- delete safety ----

  /** Event i of the run decided that the row goes into Cutover with this drain deadline. */
  ghost predicate EnteredBy(es: seq<Event>, i: nat, deadline: int) {
    && i < |es|
    && match es[i]
       case Decided(o) => Readable(o) && AllReady(To(o), o.desired) && deadline == o.now + o.drainGrace
       case Approved(_, d) => deadline == d
       case _ => false
  }

  /** Some tick of the run saw every ordinal of the new generation serving. */
  ghost predicate Prepared(es: seq<Event>) {
    exists i :: 0 <= i < |es| && SawReady(es[i])
  }

  predicate SawReady(e: Event) {
    e.Decided? && Readable(e.o) && AllReady(To(e.o), e.o.desired)
  }

  ghost predicate RowOk(es: seq<Event>, r: Row) {
    && (r.status.Paused? || r.status.Cutover? ==> Prepared(es))
    && (r.status.Cutover? ==> r.drainDeadline.Some? && exists i: nat :: EnteredBy(es, i, r.drainDeadline.value))
  }

  /** The drain deadline has come and, if there is an analysis window, its end: it runs from the
      cutover, for an old row from the start. */
  predicate Due(r: Row, o: Observation)
    requires r.drainDeadline.Some?
  {
    && o.now >= r.drainDeadline.value
    && (o.window > 0 ==>
          o.now >= o.window + if r.cutoverAt.Some? then r.cutoverAt.value else if r.startedAt.Some? then r.startedAt.value else 0)
  }

  /** A delete removes either an old machine in Cutover, past the decision time, while every
      ordinal of the new generation serves, or a new machine in RollingBack while every
      ordinal of the old generation serves. */
  ghost predicate Safe(es: seq<Event>, d: Delete) {
    && Readable(d.o) && d.machine in d.o.machines.value && RowOk(es, d.seen)
    && match d.seen.status
       case Cutover =>
         && d.machine.deployment != d.o.toDeployment.value && AllReady(To(d.o), d.o.desired)
         && d.seen.drainDeadline.Some? && Due(d.seen, d.o)
       case RollingBack =>
         && d.machine.deployment == d.o.toDeployment.value && !d.machine.deleted
         && d.o.fromDeployment.Some? && AllReady(From(d.o), d.o.desired)
       case _ => false
  }

  lemma RowOkLater(es: seq<Event>, e: Event, r: Row)
    requires RowOk(es, r)
    ensures RowOk(es + [e], r)
  {
    if Prepared(es) {
      var i :| 0 <= i < |es| && SawReady(es[i]);
      assert SawReady((es + [e])[i]);
    }
    if r.status.Cutover? {
      var i: nat :| EnteredBy(es, i, r.drainDeadline.value);
      assert EnteredBy(es + [e], i, r.drainDeadline.value);
    }
  }

  /** What a tick in progress goes by. */
  ghost predicate TickOk(es: seq<Event>, t: Tick) {
    && (!t.Idle? ==> RowOk(es, t.seen))
    && (t.Acting? ==> Decided(t.o) in es && forall m :: m in t.todo ==> m in Decide(t.seen, t.o).deletes)
  }

  lemma CloseStaysOk(es: seq<Event>, row: Row, t: Tick, at: int)
    requires RowOk(es, row) && TickOk(es, t) && t.Acting?
    ensures RowOk(es, Close(row, t.seen, t.o, at))
  {
    var next := Close(row, t.seen, t.o, at);
    if next != row && (next.status.Paused? || next.status.Cutover?) {
      var i :| 0 <= i < |es| && es[i] == Decided(t.o);
      assert SawReady(es[i]);
      if next.status.Cutover? {
        assert EnteredBy(es, i, next.drainDeadline.value);
      }
    }
  }

  lemma RowStaysOk(es: seq<Event>, w: World, e: Event)
    requires RowOk(es, w.row) && TickOk(es, w.tick)
    ensures RowOk(es + [e], Apply(w, e).row)
  {
    var row := Apply(w, e).row;
    RowOkLater(es, e, w.row);
    if e.Ended? && w.tick.Acting? {
      CloseStaysOk(es, w.row, w.tick, e.at);
      RowOkLater(es, e, Close(w.row, w.tick.seen, w.tick.o, e.at));
    } else if e.Approved? && row != w.row {
      assert EnteredBy(es + [e], |es|, row.drainDeadline.value);
    }
  }

  lemma TickStaysOk(es: seq<Event>, w: World, e: Event)
    requires RowOk(es, w.row) && TickOk(es, w.tick)
    ensures TickOk(es + [e], Apply(w, e).tick)
  {
    RowOkLater(es, e, w.row);
    if !w.tick.Idle? {
      RowOkLater(es, e, w.tick.seen);
    }
    assert e in es + [e];
  }

  lemma PlanIsSafe(es: seq<Event>, w: World, m: Machine)
    requires w.tick.Acting? && TickOk(es, w.tick) && m in w.tick.todo
    ensures Safe(es, Delete(m, w.tick.seen, w.row, w.tick.o))
  {
  }

  /** Every delete of every run is safe, and is decided on a row that had been read in that
      status: the new generation had been seen ready, and the drain deadline that the delete
      waited for is the one set on entering Cutover. */
  lemma {:induction false} DeletesAreSafe(row: Row, es: seq<Event>)
    requires Fresh(row)
    ensures var w := Run(row, es);
      RowOk(es, w.row) && TickOk(es, w.tick) && forall d :: d in w.log ==> Safe(es, d)
  {
    if es != [] {
      var front, e := es[..|es| - 1], es[|es| - 1];
      var before, w := Run(row, front), Run(row, es);
      assert es == front + [e];
      DeletesAreSafe(row, front);
      RowStaysOk(front, before, e);
      TickStaysOk(front, before, e);
      forall d | d in w.log ensures Safe(es, d) {
        if d !in before.log {
          PlanIsSafe(front, before, d.machine);
        }
        RowOkLater(front, e, d.seen);
      }
    }
  }

  // The row a delete was decided on, and the row in force.

  /** The event moves a row of this status on without the tick. */
  predicate Disturbs(s: Status, e: Event) {
    match e
    case AppDeleted => !s.Complete?
    case RollbackRequested => s.Preparing? || s.Cutover? || s.Paused?
    case Approved(_, _) => s.Paused?
    case _ => false
  }

  /** Event i is a read, and j a moment before the next read or end of a tick. */
  ghost predicate Since(es: seq<Event>, i: nat, j: nat) {
    && i < j <= |es| && es[i].Read?
    && forall k :: i < k < j ==> !es[k].Read? && !es[k].Ended?
  }

  /** The row the tick read, if it is at work. */
  function Seen(w: World): Option<Row> {
    if w.tick.Idle? then None else Some(w.tick.seen)
  }

  lemma DisturbExactly(w: World, e: Event)
    requires !e.Read? && !e.Ended?
    ensures Apply(w, e).row.status == w.row.status <==> !Disturbs(w.row.status, e)
    ensures Seen(Apply(w, e)) == Seen(w)
  {
  }

  /** A row that has moved on does not come back. */
  lemma KeptNext(s: Status, w: World, e: Event)
    requires !e.Read? && !e.Ended? && Rank(s) <= Rank(w.row.status)
    ensures Apply(w, e).row.status == s <==> w.row.status == s && !Disturbs(s, e)
  {
    EventRaisesRank(w, e);
  }

  /** From the read up to the write the row keeps its status exactly when no request to roll
      back, no approval that applies and no deletion of the app comes in between. */
  lemma {:induction false} RowKeptExactly(row: Row, es: seq<Event>, i: nat, j: nat)
    requires Since(es, i, j)
    ensures var s := Run(row, es[..i]).row.status;
      Run(row, es[..j]).row.status == s <==> forall k :: i < k < j ==> !Disturbs(s, es[k])
    ensures Seen(Run(row, es[..j])) == if Run(row, es[..i]).row.status.Complete? then None else Some(Run(row, es[..i]).row)
    ensures Rank(Run(row, es[..i]).row.status) <= Rank(Run(row, es[..j]).row.status)
  {
    FoldOne(Apply, Start(row), es, j - 1);
    if i + 1 < j {
      var w, e := Run(row, es[..j - 1]), es[j - 1];
      RowKeptExactly(row, es, i, j - 1);
      DisturbExactly(w, e);
      EventRaisesRank(w, e);
      KeptNext(Run(row, es[..i]).row.status, w, e);
    }
  }

  /** The delete was made by event j on the row read at i. */
  ghost predicate MadeBy(row: Row, es: seq<Event>, d: Delete, i: nat, j: nat) {
    && j < |es| && Since(es, i, j) && es[j].Deleted?
    && d.seen == Run(row, es[..i]).row && d.row == Run(row, es[..j]).row
  }

  /** What the tick has read comes from a read with no end of a tick since. */
  ghost predicate ReadAt(row: Row, es: seq<Event>) {
    var seen := Seen(Run(row, es));
    seen.Some? ==> exists i: nat :: Since(es, i, |es|) && seen.value == Run(row, es[..i]).row
  }

  lemma SinceLater(es: seq<Event>, e: Event, i: nat, j: nat)
    requires Since(es, i, j)
    ensures Since(es + [e], i, j) && (j == |es| && !e.Read? && !e.Ended? ==> Since(es + [e], i, j + 1))
  {
  }

  lemma MadeLater(row: Row, es: seq<Event>, e: Event, d: Delete, i: nat, j: nat)
    requires MadeBy(row, es, d, i, j)
    ensures MadeBy(row, es + [e], d, i, j)
  {
    SinceLater(es, e, i, j);
    assert (es + [e])[..i] == es[..i] && (es + [e])[..j] == es[..j];
  }

  lemma {:induction false} TickReads(row: Row, es: seq<Event>)
    ensures ReadAt(row, es)
  {
    if es != [] {
      var front, e := es[..|es| - 1], es[|es| - 1];
      assert es == front + [e];
      TickReads(row, front);
      if e.Read? {
        assert Since(es, |front|, |es|);
      } else if !e.Ended? && Seen(Run(row, front)).Some? {
        DisturbExactly(Run(row, front), e);
        var i: nat :| Since(front, i, |front|) && Seen(Run(row, front)).value == Run(row, front[..i]).row;
        SinceLater(front, e, i, |front|);
        assert es[..i] == front[..i];
      }
    }
  }

  lemma {:induction false} DeletesAreMade(row: Row, es: seq<Event>, d: Delete) returns (i: nat, j: nat)
    requires d in Run(row, es).log
    ensures MadeBy(row, es, d, i, j)
  {
    var front, e := es[..|es| - 1], es[|es| - 1];
    assert es == front + [e];
    if d in Run(row, front).log {
      i, j := DeletesAreMade(row, front, d);
      MadeLater(row, front, e, d, i, j);
    } else {
      TickReads(row, front);
      i :| Since(front, i, |front|) && Seen(Run(row, front)).value == Run(row, front[..i]).row;
      j := |front|;
      SinceLater(front, e, i, j);
      assert es[..i] == front[..i];
    }
  }

  /** For every delete of every run: the row in force had the status it was decided on
      exactly when no rollback request, approval or app deletion that applies to that status
      came between the read and the delete. */
  lemma DeleteRowExactly(row: Row, es: seq<Event>, d: Delete)
    requires d in Run(row, es).log
    ensures exists i: nat, j: nat ::
      && MadeBy(row, es, d, i, j)
      && (d.row.status == d.seen.status <==> forall k :: i < k < j ==> !Disturbs(d.seen.status, es[k]))
  {
    var i, j := DeletesAreMade(row, es, d);
    RowKeptExactly(row, es, i, j);
  }

  // ---- cutover progress ----

  function Below(n: nat): (s: set<int>)
    ensures forall o :: o in s <==> 0 <= o < n
  {
    if n == 0 then {} else Below(n - 1) + {n - 1}
  }

  lemma {:induction false} BelowSize(n: nat)
    ensures |Below(n)| == n
  {
    if n > 0 {
      BelowSize(n - 1);
    }
  }

  lemma {:induction false} SubsetSize<T>(a: set<T>, b: set<T>)
    requires a <= b
    ensures |a| <= |b| && (|a| == |b| ==> a == b)
  {
    if |a| > 0 {
      var x :| x in a;
      SubsetSize(a - {x}, b - {x});
    }
  }

  lemma RatioReached(n: nat, desired: int, ratio: real)
    requires desired > 0 && ratio <= 1.0 && n >= desired
    ensures n as real / desired as real >= ratio
  {
    assert n as real / desired as real >= 1.0;
  }

  lemma RatioMissed(n: nat, desired: int)
    requires desired > 0 && n < desired
    ensures n as real / desired as real < 1.0
  {
  }

  /** Under every configuration of the built-in analysis a ready generation proceeds. */
  lemma ReadyProceeds(a: Analysis, r: Row, ms: seq<Machine>, desired: int, now: int)
    requires a.BuiltIn? && AllReady(ms, desired)
    ensures Assess(a, r, ms, desired, true, now) == Proceed
  {
    if desired > 0 {
      BelowSize(desired);
      SubsetSize(Below(desired), ServingSet(ms));
      RatioReached(|ServingSet(ms)|, desired, MinRatio(a));
    }
  }

  /** With a full ratio and no ordinal outside [0, desired) the analysis proceeds at the end
      of the window exactly when every ordinal serves. */
  lemma ProceedsIffReady(a: Analysis, r: Row, ms: seq<Machine>, desired: int, now: int)
    requires a.BuiltIn? && MinRatio(a) == 1.0
    requires forall o :: o in ServingSet(ms) ==> 0 <= o < desired
    ensures Assess(a, r, ms, desired, true, now) == Proceed <==> AllReady(ms, desired)
  {
    if AllReady(ms, desired) {
      ReadyProceeds(a, r, ms, desired, now);
    } else {
      BelowSize(desired);
      SubsetSize(ServingSet(ms), Below(desired));
      var o :| 0 <= o < desired && !Serves(ms, o);
      assert o in Below(desired) && o !in ServingSet(ms);
      RatioMissed(|ServingSet(ms)|, desired);
    }
  }

  /** A tick past the decision time stays in Cutover exactly when some ordinal does not serve
      and the count of serving ordinals, those at or above desired included, still meets the
      ratio. */
  lemma CutoverStallsExactly(row: Row, o: Observation, at: int)
    requires row.status.Cutover? && row.drainDeadline.Some? && o.now >= DecisionAt(row, o.window)
    requires Readable(o) && o.stored && o.analysis.BuiltIn?
    ensures Close(row, row, o, at).status.Cutover? <==>
      !AllReady(To(o), o.desired) && |ServingSet(To(o))| as real / o.desired as real >= MinRatio(o.analysis)
  {
    if AllReady(To(o), o.desired) {
      ReadyProceeds(o.analysis, row, To(o), o.desired, o.now);
    }
  }

  /** So with a full ratio and no ordinal at or above desired it always leaves Cutover. */
  lemma CutoverLeaves(row: Row, o: Observation, at: int)
    requires row.status.Cutover? && row.drainDeadline.Some? && o.now >= DecisionAt(row, o.window)
    requires Readable(o) && o.stored && o.analysis.BuiltIn? && MinRatio(o.analysis) == 1.0
    requires forall ord :: ord in ServingSet(To(o)) ==> 0 <= ord < o.desired
    ensures Close(row, row, o, at).status == if AllReady(To(o), o.desired) then Complete else RollingBack
  {
    ProceedsIffReady(o.analysis, row, To(o), o.desired, o.now);
  }

  /** A surplus ordinal can hold a rollout in Cutover for as long as it serves. */
  lemma CutoverMayStall(row: Row, o: Observation, at: int)
    requires row.status.Cutover? && row.drainDeadline.Some? && o.now >= DecisionAt(row, o.window)
    requires Readable(o) && o.analysis.BuiltIn? && o.desired == 1
    requires To(o) == [Machine("m", o.toDeployment.value, 7, "RUNNING", "READY", false)]
    ensures Close(row, row, o, at).status.Cutover?
  {
    assert Serving(To(o)[0]);
    assert ServingSet(To(o)) == {7};
    RatioReached(1, 1, MinRatio(o.analysis));
    assert !Serves(To(o), 0);
  }
}
