/** Runs of the mutation protocol from the first state on that reach the limits of
    its guarantees. */
module AgentWitnesses {
  import opened AgentState
  import opened AgentProtocol
  import opened AgentSafety
  import opened AgentMarks
  import opened Traces

  /** All goes well. */
  predicate Smooth(c: Choice) {
    c.write.Stored? && c.fx.Succeeded?
  }

  lemma StepsReach(w: World, k: string, c: Choice, n: nat)
    requires Reachable(w)
    ensures Reachable(Repeat(w, k, c, n))
  {
    ReachableIsClosed();
    IterateKeeps(Apply, Reachable, w, Step(k, c), n);
  }

  // ---- a create that goes through ----

  lemma CreateIsFenced(w: World, a: Attempt, c: Choice)
    requires a.req.kind.Create? && a.req.op !in w.ledger.mem && Smooth(c)
    requires !Stale(w.fences, a.req.machine, a.req.generation)
    ensures var k := a.req.machine; Repeat(AtPc(w, k, a, Start), k, c, 2) == AtPc(w, k, a, Fenced)
  {
    var k := a.req.machine;
    assert Repeat(AtPc(w, k, a, Start), k, c, 1) == AtPc(w, k, a, Unfenced);
  }

  lemma CreateClaims(w: World, a: Attempt, c: Choice)
    requires a.req.kind.Create? && a.req.op !in w.ledger.mem && Smooth(c)
    requires !Stale(w.fences, a.req.machine, a.req.generation)
    ensures var k := a.req.machine; var claimed := w.(ledger := Begin(w.ledger, a.req, c.now, Stored).0);
      Repeat(AtPc(w, k, a, Start), k, c, 4) == AtPc(claimed, k, a, Ready)
  {
    var k := a.req.machine;
    var claimed := w.(ledger := Begin(w.ledger, a.req, c.now, Stored).0);
    CreateIsFenced(w, a, c);
    IterateSplits(Apply, AtPc(w, k, a, Start), Step(k, c), 2, 2);
    assert Repeat(AtPc(w, k, a, Fenced), k, c, 1) == AtPc(claimed, k, a, Claimed(false));
  }

  lemma CreateTakesEffect(w: World, a: Attempt, c: Choice)
    requires a.req.kind.Create? && a.digest == "" && a.req.machine !in w.inventory && Smooth(c)
    requires !Stale(w.fences, a.req.machine, a.req.generation)
    ensures var k := a.req.machine;
      var v := w.(inventory := w.inventory[k := a.req], log := w.log + [Ran(a.req)],
                  fences := Advance(w.fences, a.req, c.now, Stored).0);
      Repeat(AtPc(w, k, a, Ready), k, c, 3) == AtPc(v, k, a, Credentialed(c.payload))
  {
    var k := a.req.machine;
    var w0 := AtPc(w, k, a, Ready);
    var w1 := w.(inventory := w.inventory[k := a.req], log := w.log + [Ran(a.req)]);
    var w2 := w1.(fences := Advance(w.fences, a.req, c.now, Stored).0);
    assert Repeat(w0, k, c, 1) == AtPc(w1, k, a, Effected(c.payload));
    assert Repeat(w0, k, c, 2) == AtPc(w2, k, a, Advanced(c.payload));
  }

  lemma CreateCloses(w: World, a: Attempt, c: Choice)
    requires a.req.kind.Create? && Smooth(c) && a.req.machine !in w.active
    requires Own(w.ledger, a.req).Some? && !Own(w.ledger, a.req).value.Done()
    ensures var k := a.req.machine; var v := Repeat(AtPc(w, k, a, Credentialed(c.payload)), k, c, 1);
      && v.active == w.active && v.passed == w.passed && v.inventory == w.inventory && v.fences == w.fences
      && v.ledger == Complete(w.ledger, a.req, c.payload, Stored).0 && Answered(v.ledger, a.req, c.payload)
  {
  }

  /** From any reachable state in which the machine is idle and its name free. */
  lemma CreateRuns(w: World, req: Request, c: Choice) returns (v: World)
    requires Reachable(w) && req.kind.Create? && req.op !in w.ledger.mem && Smooth(c)
    requires req.machine !in w.active && req.machine !in w.inventory && !Stale(w.fences, req.machine, req.generation)
    ensures Reachable(v) && v.active == w.active && v.passed == w.passed
    ensures v.inventory == w.inventory[req.machine := req] && Answered(v.ledger, req, c.payload)
    ensures forall id :: id != req.op ==> (id in v.ledger.mem <==> id in w.ledger.mem)
    ensures forall id :: id != req.op && id in w.ledger.mem ==> v.ledger.mem[id] == w.ledger.mem[id]
    ensures v.fences.mem == w.fences.mem[req.machine := Fence(req.generation, req.execution, c.now)]
  {
    var k, a := req.machine, Attempt(req, "", Start);
    ReachableIsClosed();
    var w0 := Apply(w, Enter(req, ""));
    assert w0 == AtPc(w, k, a, Start);
    var w1 := w.(ledger := Begin(w.ledger, req, c.now, Stored).0);
    CreateClaims(w, a, c);
    var w2 := w1.(inventory := w.inventory[k := req], log := w.log + [Ran(req)],
                  fences := Advance(w.fences, req, c.now, Stored).0);
    CreateTakesEffect(w1, a, c);
    CreateCloses(w2, a, c);
    IterateSplits(Apply, w0, Step(k, c), 4, 4);
    IterateSplits(Apply, AtPc(w1, k, a, Ready), Step(k, c), 3, 1);
    StepsReach(w0, k, c, 8);
    v := Repeat(w0, k, c, 8);
  }

  // ---- a lifecycle or a copy that goes through ----

  lemma PassesFence(w: World, a: Attempt, c: Choice)
    requires (a.req.kind.Lifecycle? || a.req.kind.CopyTo?) && a.req.op !in w.ledger.mem
    requires a.req.machine in w.fences.mem ==> w.fences.mem[a.req.machine].generation <= a.req.generation
    ensures var k := a.req.machine; Repeat(AtPc(w, k, a, Start), k, c, 2) == AtPc(w, k, a, Fenced)
  {
    var k := a.req.machine;
    assert Repeat(AtPc(w, k, a, Start), k, c, 1) == AtPc(w, k, a, Unfenced);
  }

  lemma LifecycleIsReady(w: World, a: Attempt, c: Choice)
    requires a.req.kind.Lifecycle? && a.req.op !in w.ledger.mem && Smooth(c)
    ensures var k := a.req.machine; var claimed := w.(ledger := Begin(w.ledger, a.req, c.now, Stored).0);
      Repeat(AtPc(w, k, a, Fenced), k, c, 2) == AtPc(claimed, k, a, Ready)
  {
    var k := a.req.machine;
    var claimed := w.(ledger := Begin(w.ledger, a.req, c.now, Stored).0);
    assert Repeat(AtPc(w, k, a, Fenced), k, c, 1) == AtPc(claimed, k, a, Claimed(false));
  }

  lemma MarkIsMoved(w: World, a: Attempt, c: Choice)
    requires (a.req.kind.Lifecycle? || a.req.kind.CopyTo?) && Smooth(c)
    requires a.req.machine in w.fences.mem ==> w.fences.mem[a.req.machine].generation <= a.req.generation
    ensures var k := a.req.machine; var v := w.(fences := Advance(w.fences, a.req, c.now, Stored).0);
      Repeat(AtPc(w, k, a, Effected(c.payload)), k, c, 2) == AtPc(v, k, a, Credentialed(c.payload))
  {
    var k := a.req.machine;
    var v := w.(fences := Advance(w.fences, a.req, c.now, Stored).0);
    assert Repeat(AtPc(w, k, a, Effected(c.payload)), k, c, 1) == AtPc(v, k, a, Advanced(c.payload));
  }

  lemma EffectIsMarked(w: World, a: Attempt, c: Choice)
    requires (a.req.kind.Lifecycle? || a.req.kind.CopyTo?) && Smooth(c)
    requires a.req.machine in w.fences.mem ==> w.fences.mem[a.req.machine].generation <= a.req.generation
    ensures var k := a.req.machine;
      var v := w.(log := w.log + [Ran(a.req)], fences := Advance(w.fences, a.req, c.now, Stored).0);
      Repeat(AtPc(w, k, a, Ready), k, c, 3) == AtPc(v, k, a, Credentialed(c.payload))
  {
    var k := a.req.machine;
    var w1 := w.(log := w.log + [Ran(a.req)]);
    assert Repeat(AtPc(w, k, a, Ready), k, c, 1) == AtPc(w1, k, a, Effected(c.payload));
    MarkIsMoved(w1, a, c);
    IterateSplits(Apply, AtPc(w, k, a, Ready), Step(k, c), 1, 2);
  }

  /** The last step: a lifecycle completes its claim, a copy puts a completed record. */
  lemma ResultIsRecorded(w: World, a: Attempt, c: Choice)
    requires (a.req.kind.Lifecycle? || a.req.kind.CopyTo?) && Smooth(c) && a.req.machine !in w.active
    requires if a.req.kind.CopyTo? then a.req.op !in w.ledger.mem
             else Own(w.ledger, a.req).Some? && !Own(w.ledger, a.req).value.Done()
    ensures var k := a.req.machine; var v := Repeat(AtPc(w, k, a, Credentialed(c.payload)), k, c, 1);
      && v.active == w.active && v.inventory == w.inventory && v.fences == w.fences
      && v.log == w.log + [Returned(a.req, Ok(c.payload))] && Answered(v.ledger, a.req, c.payload)
  {
    assert AtPc(w, a.req.machine, a, Credentialed(c.payload)).active - {a.req.machine} == w.active;
  }

  /** The state and the number of steps with which the effect is reached. */
  function ReadyState(w: World, req: Request, c: Choice): (World, nat) {
    if req.kind.CopyTo? then (w, 3) else (w.(ledger := Begin(w.ledger, req, c.now, Stored).0), 4)
  }

  lemma MutationIsReady(w: World, a: Attempt, c: Choice)
    requires (a.req.kind.Lifecycle? || a.req.kind.CopyTo?) && a.req.op !in w.ledger.mem && Smooth(c)
    requires a.req.machine in w.fences.mem ==> w.fences.mem[a.req.machine].generation <= a.req.generation
    ensures var k := a.req.machine; var (ready, n) := ReadyState(w, a.req, c);
      Repeat(AtPc(w, k, a, Start), k, c, n) == AtPc(ready, k, a, Ready)
  {
    var k := a.req.machine;
    PassesFence(w, a, c);
    if a.req.kind.CopyTo? {
      assert Repeat(AtPc(w, k, a, Fenced), k, c, 1) == AtPc(w, k, a, Ready);
      IterateSplits(Apply, AtPc(w, k, a, Start), Step(k, c), 2, 1);
    } else {
      LifecycleIsReady(w, a, c);
      IterateSplits(Apply, AtPc(w, k, a, Start), Step(k, c), 2, 2);
    }
  }

  /** From any state in which the machine is idle and at no higher generation, a new lifecycle or
      copy that nothing disturbs runs its effect once, raises the mark and returns its result. */
  lemma MutationRuns(w: World, req: Request, c: Choice)
    requires (req.kind.Lifecycle? || req.kind.CopyTo?) && req.op !in w.ledger.mem && Smooth(c)
    requires req.machine !in w.active
    requires req.machine in w.fences.mem ==> w.fences.mem[req.machine].generation <= req.generation
    ensures var v := Repeat(Apply(w, Enter(req, "")), req.machine, c, ReadyState(w, req, c).1 + 4);
      && v.active == w.active && v.inventory == w.inventory
      && v.fences.mem == w.fences.mem[req.machine := Fence(req.generation, req.execution, c.now)]
      && v.log == w.log + [Ran(req), Returned(req, Ok(c.payload))] && Answered(v.ledger, req, c.payload)
  {
    var k, a := req.machine, Attempt(req, "", Start);
    var (ready, n) := ReadyState(w, req, c);
    assert Apply(w, Enter(req, "")) == AtPc(w, k, a, Start);
    MutationIsReady(w, a, c);
    MutationEnds(ready, a, c);
    IterateSplits(Apply, AtPc(w, k, a, Start), Step(k, c), n, 4);
  }

  lemma MutationEnds(w: World, a: Attempt, c: Choice)
    requires (a.req.kind.Lifecycle? || a.req.kind.CopyTo?) && Smooth(c) && a.req.machine !in w.active
    requires a.req.machine in w.fences.mem ==> w.fences.mem[a.req.machine].generation <= a.req.generation
    requires if a.req.kind.CopyTo? then a.req.op !in w.ledger.mem
             else Own(w.ledger, a.req).Some? && !Own(w.ledger, a.req).value.Done()
    ensures var k := a.req.machine; var v := Repeat(AtPc(w, k, a, Ready), k, c, 4);
      && v.active == w.active && v.inventory == w.inventory
      && v.fences.mem == w.fences.mem[k := Fence(a.req.generation, a.req.execution, c.now)]
      && v.log == w.log + [Ran(a.req), Returned(a.req, Ok(c.payload))] && Answered(v.ledger, a.req, c.payload)
  {
    var k := a.req.machine;
    var v := w.(log := w.log + [Ran(a.req)], fences := Advance(w.fences, a.req, c.now, Stored).0);
    EffectIsMarked(w, a, c);
    ResultIsRecorded(v, a, c);
    IterateSplits(Apply, AtPc(w, k, a, Ready), Step(k, c), 3, 1);
    assert (w.log + [Ran(a.req)]) + [Returned(a.req, Ok(c.payload))] == w.log + [Ran(a.req), Returned(a.req, Ok(c.payload))];
  }

  // ---- a machine delete that goes through ----

  lemma RemovalRecords(w: World, a: Attempt, c: Choice)
    requires a.req.kind.DeleteMachine? && a.req.op !in w.ledger.mem && Smooth(c)
    ensures var k := a.req.machine;
      var v := w.(creds := DropCred(w.creds, k, Stored), ledger := Put(w.ledger, a.req, "{}", c.now, Stored).0);
      Repeat(AtPc(w, k, a, Removed), k, c, 2) == AtPc(v, k, a, Recorded)
  {
    var k := a.req.machine;
    var w1 := w.(creds := DropCred(w.creds, k, Stored));
    assert Repeat(AtPc(w, k, a, Removed), k, c, 1) == AtPc(w1, k, a, Dropped);
  }

  lemma RemovalPrunes(w: World, a: Attempt, c: Choice)
    requires a.req.kind.DeleteMachine? && a.req.machine !in w.active && Smooth(c)
    requires !Stale(w.fences, a.req.machine, a.req.generation)
    ensures var k := a.req.machine; var v := Repeat(AtPc(w, k, a, Recorded), k, c, 2);
      && v.active == w.active && v.passed == w.passed && v.inventory == w.inventory
      && v.ledger == PruneMachine(w.ledger, k, a.req.op, Stored)
      && v.fences.mem == w.fences.mem[k := Fence(a.req.generation, a.req.execution, c.now)]
  {
    var k := a.req.machine;
    var w1 := w.(ledger := PruneMachine(w.ledger, k, a.req.op, Stored), log := w.log + [Forgot(k)]);
    assert Repeat(AtPc(w, k, a, Recorded), k, c, 1) == AtPc(w1, k, a, Pruned);
  }

  lemma RemovalCloses(w: World, a: Attempt, c: Choice)
    requires a.req.kind.DeleteMachine? && a.req.op !in w.ledger.mem && a.req.machine !in w.active && Smooth(c)
    requires !Stale(w.fences, a.req.machine, a.req.generation)
    ensures var k := a.req.machine; var v := Repeat(AtPc(w, k, a, Removed), k, c, 4);
      && v.active == w.active && v.passed == w.passed && v.inventory == w.inventory
      && Answered(v.ledger, a.req, "{}")
      && (forall id :: id != a.req.op && id in v.ledger.mem ==> id in w.ledger.mem)
      && v.fences.mem == w.fences.mem[k := Fence(a.req.generation, a.req.execution, c.now)]
  {
    var k := a.req.machine;
    var put := w.(creds := DropCred(w.creds, k, Stored), ledger := Put(w.ledger, a.req, "{}", c.now, Stored).0);
    RemovalRecords(w, a, c);
    RemovalPrunes(put, a, c);
    IterateSplits(Apply, AtPc(w, k, a, Removed), Step(k, c), 2, 2);
  }

  lemma CallRemoves(w: World, req: Request, c: Choice)
    requires req.kind.DeleteMachine? && req in w.passed && req.machine !in w.active && Smooth(c)
    requires !Stale(w.fences, req.machine, req.generation) && !Rejects(w, req)
    ensures var k := req.machine;
      var v := w.(passed := w.passed - multiset{req}, inventory := w.inventory - {k}, log := w.log + [Ran(req)]);
      Repeat(Apply(w, Enter(req, "")), k, c, 4) == AtPc(v, k, Attempt(req, "", Start), Removed)
  {
    var k, a := req.machine, Attempt(req, "", Start);
    var w0 := Apply(w, Enter(req, ""));
    assert w0 == AtPc(w.(passed := w.passed - multiset{req}), k, a, Start);
    DeleteReachesRemoval(w0, a, c);
  }

  /** A delete that is past its check, from any reachable state in which the machine is idle. */
  lemma DeleteRuns(w: World, req: Request, c: Choice) returns (v: World)
    requires Reachable(w) && req.kind.DeleteMachine? && req in w.passed && req.op !in w.ledger.mem && Smooth(c)
    requires req.machine !in w.active && !Stale(w.fences, req.machine, req.generation) && !Rejects(w, req)
    ensures Reachable(v) && v.active == w.active && v.passed == w.passed - multiset{req}
    ensures v.inventory == w.inventory - {req.machine} && Answered(v.ledger, req, "{}")
    ensures forall id :: id != req.op && id in v.ledger.mem ==> id in w.ledger.mem
    ensures v.fences.mem == w.fences.mem[req.machine := Fence(req.generation, req.execution, c.now)]
  {
    var k, a := req.machine, Attempt(req, "", Start);
    EventKeepsReachable(w, Enter(req, ""));
    var w0 := Apply(w, Enter(req, ""));
    var w1 := w.(passed := w.passed - multiset{req}, inventory := w.inventory - {k}, log := w.log + [Ran(req)]);
    CallRemoves(w, req, c);
    RemovalCloses(w1, a, c);
    IterateSplits(Apply, w0, Step(k, c), 4, 4);
    StepsReach(w0, k, c, 8);
    v := Repeat(w0, k, c, 8);
  }

  // ---- the witnesses ----

  /** A replayed create that succeeds with no instance left, in a run from the first state on:
      the create, a delete of its machine whose effect removes the instance and then fails, and
      the create again. */
  lemma OutlivedInstanceIsReachable(create: Request, req: Request, c: Choice, broken: Choice) returns (w: World, v: World)
    requires create.kind.Create? && req.kind.DeleteMachine? && create.op != req.op && Smooth(c)
    requires create.machine == req.machine && create.generation == req.generation && create.execution == req.execution
    requires broken.fx == Broke(Gone)
    ensures Reachable(w) && Answered(w.ledger, create, c.payload) && Matches(w, create)
    ensures v == Repeat(Apply(Apply(w, Check(req)), Enter(req, "")), req.machine, broken, 4)
    ensures var v' := Repeat(Apply(v, Enter(create, "")), create.machine, c, 2);
      Reachable(v') && create.machine !in v'.inventory && v'.log == v.log + [Returned(create, Ok(c.payload))]
  {
    ReachableIsClosed();
    w := CreateRuns(INIT, create, c);
    v := Repeat(Apply(Apply(w, Check(req)), Enter(req, "")), req.machine, broken, 4);
    ReplayMayOutliveInstance(w, create, c.payload, req, broken, c);
    CallsReach(w, req, broken, 4);
    EventKeepsReachable(v, Enter(create, ""));
    StepsReach(Apply(v, Enter(create, "")), create.machine, c, 2);
  }

  lemma CallsReach(w: World, req: Request, c: Choice, n: nat)
    requires Reachable(w)
    ensures Reachable(Repeat(Apply(Apply(w, Check(req)), Enter(req, "")), req.machine, c, n))
  {
    EventKeepsReachable(w, Check(req));
    EventKeepsReachable(Apply(w, Check(req)), Enter(req, ""));
    StepsReach(Apply(Apply(w, Check(req)), Enter(req, "")), req.machine, c, n);
  }

  /** Two calls of one delete pass the unlocked check.  The first completes, a create of the
      same generation follows, and the second, although the delete's record is complete, runs
      the effect again and removes the new instance. */
  lemma SecondCallDeletesAgain(req: Request, create: Request, c: Choice) returns (w: World)
    requires create.kind.Create? && req.kind.DeleteMachine? && create.op != req.op && Smooth(c)
    requires create.machine == req.machine && create.generation == req.generation && create.execution == req.execution
    ensures Reachable(w) && Answered(w.ledger, req, "{}") && Answered(w.ledger, create, c.payload) && Matches(w, create)
    ensures var v := Repeat(Apply(w, Enter(req, "")), req.machine, c, 4);
      Reachable(v) && req.machine !in v.inventory && v.log == w.log + [Ran(req)]
  {
    CheckTwice(req);
    var w1 := DeleteRuns(INIT.(passed := multiset{req, req}), req, c);
    assert w1.passed == multiset{req};
    w := CreateRuns(w1, create, c);
    SecondEntry(w, req, c);
  }

  lemma CheckTwice(req: Request)
    requires req.kind.DeleteMachine?
    ensures Reachable(INIT.(passed := multiset{req, req}))
  {
    ReachableIsClosed();
    EventKeepsReachable(INIT, Check(req));
    EventKeepsReachable(Apply(INIT, Check(req)), Check(req));
    assert Apply(Apply(INIT, Check(req)), Check(req)) == INIT.(passed := multiset{req, req});
  }

  lemma SecondEntry(w: World, req: Request, c: Choice)
    requires Reachable(w) && req.kind.DeleteMachine? && req in w.passed && req.machine !in w.active && Smooth(c)
    requires !Stale(w.fences, req.machine, req.generation) && !Rejects(w, req)
    ensures var v := Repeat(Apply(w, Enter(req, "")), req.machine, c, 4);
      Reachable(v) && req.machine !in v.inventory && v.log == w.log + [Ran(req)]
  {
    EventKeepsReachable(w, Enter(req, ""));
    CallRemoves(w, req, c);
    StepsReach(Apply(w, Enter(req, "")), req.machine, c, 4);
  }
}
