/** High-water marks: what reaches the file, and what the early record of a
    machine delete means for them. */
module AgentMarks {
  import opened AgentState
  import opened AgentProtocol
  import opened AgentSafety
  import opened Traces

  // ---- marks on disk ----

  /** The disk mark is never below the mark in memory, in every reachable state. */
  lemma DiskTrailsMemory(es: seq<Event>, m: string)
    requires m in Run(INIT, es).fences.mem
    ensures var f := Run(INIT, es).fences; m in f.disk && f.mem[m].generation <= f.disk[m].generation
  {
    RunKeepsInv(INIT, es);
  }

  /** The file lost the mark of m or holds a lower one. */
  predicate Fell(f: FenceStore, f': FenceStore, m: string) {
    m in f.disk && (m !in f'.disk || f'.disk[m].generation < f.disk[m].generation)
  }

  /** The table an advance writes out. */
  function Written(f: FenceStore, req: Request, now: int): map<string, Fence> {
    f.mem[req.machine := Fence(req.generation, req.execution, now)]
  }

  /** A disk mark can fall: a write that fails after its rename leaves a mark on disk
      that memory takes back, and the next write of any machine's mark writes the
      whole of memory. */
  lemma DiskMarkMayFall()
    ensures var f := Store(map["m" := Fence(3, "e", 0)], map["m" := Fence(3, "e", 0)]);
      var f1 := Advance(f, Request("a", "m", "e", 5, Create, "", ""), 1, FailedNew).0;
      var f2 := Advance(f1, Request("b", "n", "e", 1, Create, "", ""), 2, Stored).0;
      f1.disk["m"].generation == 5 && f2.disk["m"].generation == 3 && Fell(f1, f2, "m")
  {
    var f := Store(map["m" := Fence(3, "e", 0)], map["m" := Fence(3, "e", 0)]);
    var f1 := Advance(f, Request("a", "m", "e", 5, Create, "", ""), 1, FailedNew).0;
    assert f1.mem == f.mem;
    assert "n" !in f1.mem;
  }

  /** It falls exactly when the write reaches the file and the mark it writes is
      below the one there. */
  lemma DiskMarkFallsExactly(f: FenceStore, req: Request, now: int, w: Write, m: string)
    requires m in f.disk
    ensures Fell(f, Advance(f, req, now, w).0, m) <==>
      && !Stale(f, req.machine, req.generation) && !w.FailedOld?
      && (m !in Written(f, req, now) || Written(f, req, now)[m].generation < f.disk[m].generation)
  {
  }

  /** The attempt's next step advances a fence. */
  predicate AdvancesNext(a: Attempt) {
    || a.pc.Pruned?
    || (a.pc.Effected? && (a.req.kind.Create? || a.req.kind.Lifecycle? || a.req.kind.Replacement? || a.req.kind.CopyTo?))
  }

  lemma DoFences(w: World, a: Attempt, c: Choice)
    ensures Do(w, a, c).0.fences == if AdvancesNext(a) then Advance(w.fences, a.req, c.now, c.write).0 else w.fences
  {
  }

  /** Among all events only such a step lowers a disk mark. */
  lemma EventLowersExactly(w: World, e: Event, m: string)
    requires m in w.fences.disk
    ensures Fell(w.fences, Apply(w, e).fences, m) <==>
      && e.Step? && e.key in w.active && AdvancesNext(w.active[e.key])
      && var req := w.active[e.key].req;
         && !Stale(w.fences, req.machine, req.generation) && !e.choice.write.FailedOld?
         && (m !in Written(w.fences, req, e.choice.now) || Written(w.fences, req, e.choice.now)[m].generation < w.fences.disk[m].generation)
  {
    if e.Step? && e.key in w.active {
      var a := w.active[e.key];
      DoFences(w, a, e.choice);
      DiskMarkFallsExactly(w.fences, a.req, e.choice.now, e.choice.write, m);
    }
  }

  // ---- machine delete ----

  /** A machine delete whose own attempt returns success has removed the instance, dropped
      the credential and made its mark durable. */
  lemma DeleteReturns(es: seq<Event>, k: string, c: Choice)
    requires var w := Run(INIT, es); k in w.active && w.active[k].pc.Pruned?
    requires Do(Run(INIT, es), Run(INIT, es).active[k], c).1 == Out(Ok("{}"))
    ensures var w := Run(INIT, es); var req := w.active[k].req; var w' := Apply(w, Step(k, c));
      && req.machine !in w'.inventory && req.machine !in w'.creds.mem
      && req.machine in w'.fences.disk && req.generation <= w'.fences.disk[req.machine].generation
  {
    RunKeepsInv(INIT, es);
    var w := Run(INIT, es);
    assert HolderOk(w, k, w.active[k]);
  }

  /** But its completed record is written first.  From any state in which a machine
      delete may start, a crash right after the record leaves the record complete
      and no new mark, so exactly the generations that passed before still pass. */
  lemma DeleteRecordMayPrecedeFence(w: World, req: Request, c: Choice)
    requires req.kind.DeleteMachine? && req.op !in w.ledger.mem && req.machine !in w.active
    requires !Stale(w.fences, req.machine, req.generation) && !Rejects(w, req) && c.write.Stored? && c.fx.Succeeded?
    ensures var v := Apply(Repeat(Apply(Apply(w, Check(req)), Enter(req, "")), req.machine, c, 6), Crash);
      && Answered(v.ledger, req, "{}") && v.ledger.disk[req.op].Done()
      && v.fences == w.fences.Reopen()
  {
    var k, a := req.machine, Attempt(req, "", Start);
    var w0 := Apply(Apply(w, Check(req)), Enter(req, ""));
    EntersAfterCheck(w, req);
    DeleteReachesRemoval(w0, a, c);
    IterateSplits(Apply, w0, Step(k, c), 4, 2);
    var w1 := w0.(inventory := w0.inventory - {k}, log := w0.log + [Ran(req)]);
    RecordThenCrash(w1, a, c);
  }

  lemma RecordThenCrash(w: World, a: Attempt, c: Choice)
    requires a.req.kind.DeleteMachine? && a.req.op !in w.ledger.mem && c.write.Stored?
    ensures var v := Apply(Repeat(AtPc(w, a.req.machine, a, Removed), a.req.machine, c, 2), Crash);
      && Answered(v.ledger, a.req, "{}") && v.ledger.disk[a.req.op].Done()
      && v.fences == w.fences.Reopen()
  {
    var k := a.req.machine;
    var w0 := AtPc(w, k, a, Removed);
    var w1 := w.(creds := DropCred(w.creds, k, c.write));
    assert Repeat(w0, k, c, 1) == AtPc(w1, k, a, Dropped);
    var w2 := w1.(ledger := Put(w1.ledger, a.req, "{}", c.now, c.write).0);
    assert Repeat(w0, k, c, 2) == AtPc(w2, k, a, Recorded);
  }

  lemma EntersAfterCheck(w: World, req: Request)
    requires req.kind.DeleteMachine? && req.op !in w.ledger.mem && req.machine !in w.active
    ensures var w0 := Apply(Apply(w, Check(req)), Enter(req, ""));
      w0 == w.(active := w.active[req.machine := Attempt(req, "", Start)])
  {
    assert w.passed + multiset{req} - multiset{req} == w.passed;
  }

  lemma DeleteReachesEffect(w: World, a: Attempt, c: Choice)
    requires a.req.kind.DeleteMachine? && !Stale(w.fences, a.req.machine, a.req.generation)
    requires a.req.machine in w.active && w.active[a.req.machine] == a.(pc := Start)
    ensures Repeat(w, a.req.machine, c, 3) == AtPc(w, a.req.machine, a, Ready)
  {
    var k := a.req.machine;
    assert Repeat(w, k, c, 1) == AtPc(w, k, a, Unfenced);
    assert Repeat(w, k, c, 2) == AtPc(w, k, a, Fenced);
  }

  lemma DeleteReachesRemoval(w: World, a: Attempt, c: Choice)
    requires a.req.kind.DeleteMachine? && !Stale(w.fences, a.req.machine, a.req.generation)
    requires !Rejects(w, a.req) && c.fx.Succeeded? && a.req.machine in w.active && w.active[a.req.machine] == a.(pc := Start)
    ensures var w' := w.(inventory := w.inventory - {a.req.machine}, log := w.log + [Ran(a.req)]);
      Repeat(w, a.req.machine, c, 4) == AtPc(w', a.req.machine, a, Removed)
  {
    DeleteReachesEffect(w, a, c);
  }

  /** A delete whose effect removes the instance and then fails leaves no record and drops
      none. */
  lemma DeleteBreaks(w: World, req: Request, c: Choice)
    requires req.kind.DeleteMachine? && req.op !in w.ledger.mem && req.machine !in w.active
    requires !Stale(w.fences, req.machine, req.generation) && !Rejects(w, req) && c.fx == Broke(Gone)
    ensures var v := Repeat(Apply(Apply(w, Check(req)), Enter(req, "")), req.machine, c, 4);
      v == w.(inventory := w.inventory - {req.machine}, log := w.log + [Ran(req), Returned(req, Failed)])
  {
    var k, a := req.machine, Attempt(req, "", Start);
    EntersAfterCheck(w, req);
    var w0 := w.(active := w.active[k := a]);
    DeleteReachesEffect(w0, a, c);
    var broken := w0.(inventory := w.inventory - {k}, log := w.log + [Ran(req)], active := w0.active[k := a.(pc := Ready)]);
    assert Do(AtPc(w0, k, a, Ready), a.(pc := Ready), c) == (broken, Out(Failed));
    assert (w.log + [Ran(req)]) + [Returned(req, Failed)] == w.log + [Ran(req), Returned(req, Failed)];
    assert w0.active[k := a.(pc := Ready)] - {k} == w.active;
  }

  /** So the replay of a completed create may succeed with no instance left. */
  lemma ReplayMayOutliveInstance(w: World, create: Request, result: string, req: Request, c: Choice, d: Choice)
    requires create.kind.Create? && Answered(w.ledger, create, result) && create.machine == req.machine
    requires req.kind.DeleteMachine? && req.op !in w.ledger.mem && req.machine !in w.active
    requires !Stale(w.fences, req.machine, req.generation) && !Rejects(w, req) && c.fx == Broke(Gone)
    ensures var v := Repeat(Apply(Apply(w, Check(req)), Enter(req, "")), req.machine, c, 4);
      var v' := Repeat(Apply(v, Enter(create, "")), create.machine, d, 2);
      create.machine !in v'.inventory && v'.log == v.log + [Returned(create, Ok(result))]
  {
    DeleteBreaks(w, req, c);
    var v := w.(inventory := w.inventory - {req.machine}, log := w.log + [Ran(req), Returned(req, Failed)]);
    ReplayReplies(v, create, result, d);
  }

  lemma ReplayReplies(w: World, req: Request, result: string, d: Choice)
    requires req.kind.Create? && Answered(w.ledger, req, result) && req.machine !in w.active
    ensures var v := Repeat(Apply(w, Enter(req, "")), req.machine, d, 2);
      v.inventory == w.inventory && v.log == w.log + [Returned(req, Ok(result))]
  {
    var k, a := req.machine, Attempt(req, "", Start);
    var w0 := Apply(w, Enter(req, ""));
    assert w0 == AtPc(w, k, a, Start);
    assert Repeat(w0, k, d, 1) == AtPc(w, k, a, Replay(result));
  }

  // When a completed delete record is covered by the mark, exactly.

  /** The machine's mark is at or above the generation. */
  predicate Marked(w: World, m: string, g: nat) {
    m in w.fences.mem && g <= w.fences.mem[m].generation
  }

  /** The event brings the mark of m to g or above: an advance of the machine that is
      stored, or a restart that reads such a mark from the file. */
  predicate Raises(w: World, e: Event, m: string, g: nat) {
    match e
    case Step(k, c) =>
      && k in w.active && AdvancesNext(w.active[k]) && c.write.Stored?
      && w.active[k].req.machine == m && g <= w.active[k].req.generation
    case Crash => m in w.fences.disk && g <= w.fences.disk[m].generation
    case _ => false
  }

  lemma EventMarksExactly(w: World, e: Event, m: string, g: nat)
    requires FencesDominate(w.fences)
    ensures Marked(Apply(w, e), m, g) <==> Marked(w, m, g) || Raises(w, e, m, g)
  {
    if e.Step? && e.key in w.active {
      DoFences(w, w.active[e.key], e.choice);
    }
  }

  /** Some event from position n on raised the mark. */
  ghost predicate RaisedSince(es: seq<Event>, n: nat, m: string, g: nat) {
    Occurred(Apply, INIT, es, n, (w, e) => Raises(w, e, m, g))
  }

  /** A generation is covered by the machine's mark exactly if it was at an earlier
      moment or an event since then raised the mark: the delete's own last step if it
      was stored, a later request of at least that generation, or a restart that found
      such a mark in the file.  With n the moment a delete writes its completed record,
      this is when "completed implies fence advanced" holds of it. */
  lemma {:induction false} MarkedExactly(es: seq<Event>, n: nat, m: string, g: nat)
    requires n <= |es|
    ensures Marked(Run(INIT, es), m, g) <==> Marked(Run(INIT, es[..n]), m, g) || RaisedSince(es, n, m, g)
  {
    if n == |es| {
      assert es[..n] == es;
    } else {
      var front := es[..|es|-1];
      MarkedExactly(front, n, m, g);
      assert front[..n] == es[..n];
      OccurredNext(Apply, INIT, es, n, (w, e) => Raises(w, e, m, g));
      RunKeepsInv(INIT, front);
      EventMarksExactly(Run(INIT, front), es[|es|-1], m, g);
    }
  }

  // What the file holds, by the writes that reached it.

  /** The step writes out the fences and the write reaches the file. */
  predicate ReachesFile(w: World, e: Event) {
    && e.Step? && e.key in w.active && AdvancesNext(w.active[e.key]) && !e.choice.write.FailedOld?
    && !Stale(w.fences, w.active[e.key].req.machine, w.active[e.key].req.generation)
  }

  /** It is an advance of the machine to at least g. */
  predicate PutsOnFile(w: World, e: Event, m: string, g: nat) {
    ReachesFile(w, e) && w.active[e.key].req.machine == m && g <= w.active[e.key].req.generation
  }

  /** It writes out a table with a lower mark, or none, for the machine. */
  predicate TakesOffFile(w: World, e: Event, m: string, g: nat) {
    && ReachesFile(w, e)
    && var table := Written(w.fences, w.active[e.key].req, e.choice.now); m !in table || table[m].generation < g
  }

  predicate OnFile(w: World, m: string, g: nat) {
    m in w.fences.disk && g <= w.fences.disk[m].generation
  }

  lemma EventOnFileExactly(w: World, e: Event, m: string, g: nat)
    requires FencesDominate(w.fences)
    ensures OnFile(Apply(w, e), m, g) <==> PutsOnFile(w, e, m, g) || (OnFile(w, m, g) && !TakesOffFile(w, e, m, g))
  {
    if e.Step? && e.key in w.active {
      DoFences(w, w.active[e.key], e.choice);
    }
  }

  /** An advance of the machine to at least g has reached the file and none has overwritten
      it since. */
  ghost predicate Filed(es: seq<Event>, m: string, g: nat) {
    IsSet(Apply, INIT, es, (w, e) => PutsOnFile(w, e, m, g), (w, e) => TakesOffFile(w, e, m, g))
  }

  lemma {:induction false} OnFileExactly(es: seq<Event>, m: string, g: nat)
    ensures OnFile(Run(INIT, es), m, g) <==> Filed(es, m, g)
  {
    if es != [] {
      var front, e := es[..|es|-1], es[|es|-1];
      OnFileExactly(front, m, g);
      RunKeepsInv(INIT, front);
      EventOnFileExactly(Run(INIT, front), e, m, g);
      IsSetNext(Apply, INIT, es, (w, e) => PutsOnFile(w, e, m, g), (w, e) => TakesOffFile(w, e, m, g));
    }
  }

  /** Event i raises the mark to g or above: a stored advance of the machine, or a restart
      after an advance that reached the file and was not overwritten, stored or not. */
  ghost predicate RaisedAt(es: seq<Event>, i: nat, m: string, g: nat)
    requires i < |es|
  {
    match es[i]
    case Crash => Filed(es[..i], m, g)
    case _ => Raises(Run(INIT, es[..i]), es[i], m, g)
  }

  lemma RaisedAtExactly(es: seq<Event>, i: nat, m: string, g: nat)
    requires i < |es|
    ensures RaisedAt(es, i, m, g) <==> Raises(Run(INIT, es[..i]), es[i], m, g)
  {
    OnFileExactly(es[..i], m, g);
  }

  /** For the completed record that a machine delete writes at event n: after every run it is
      covered by the mark exactly if the mark already was the delete's generation, or an event
      since has raised it. */
  lemma DeleteRecordMarkedExactly(es: seq<Event>, n: nat, k: string, c: Choice)
    requires n < |es| && es[n] == Step(k, c) && c.write.Stored?
    requires var w := Run(INIT, es[..n]); k in w.active && w.active[k].pc.Dropped? && w.active[k].req.op !in w.ledger.mem
    ensures var w := Run(INIT, es[..n]); var req := w.active[k].req; var m, g := req.machine, req.generation;
      && Answered(Run(INIT, es[..n + 1]).ledger, req, "{}")
      && (Marked(Run(INIT, es), m, g) <==>
            (m in w.fences.mem && w.fences.mem[m].generation == g) || exists i :: n < i < |es| && RaisedAt(es, i, m, g))
  {
    var w := Run(INIT, es[..n]);
    var req := w.active[k].req;
    var m, g := req.machine, req.generation;
    RecordIsWritten(es[..n], k, c);
    FoldOne(Apply, INIT, es, n);
    MarkedExactly(es, n + 1, m, g);
    assert Marked(Run(INIT, es[..n + 1]), m, g) <==> Marked(w, m, g);
    forall i | n < i < |es| ensures RaisedAt(es, i, m, g) <==> Raises(Run(INIT, es[..i]), es[i], m, g) {
      RaisedAtExactly(es, i, m, g);
    }
    RaisedSinceIs(es, n + 1, m, g);
  }

  lemma RaisedSinceIs(es: seq<Event>, n: nat, m: string, g: nat)
    ensures RaisedSince(es, n, m, g) <==> exists i :: n <= i < |es| && Raises(Run(INIT, es[..i]), es[i], m, g)
  {
    var q := (w: World, e: Event) => Raises(w, e, m, g);
    if RaisedSince(es, n, m, g) {
      var i :| n <= i < |es| && q(Fold(Apply, INIT, es[..i]), es[i]);
      assert Raises(Run(INIT, es[..i]), es[i], m, g);
    }
    if i :| n <= i < |es| && Raises(Run(INIT, es[..i]), es[i], m, g) {
      assert q(Fold(Apply, INIT, es[..i]), es[i]);
    }
  }

  lemma RecordIsWritten(es: seq<Event>, k: string, c: Choice)
    requires var w := Run(INIT, es); k in w.active && w.active[k].pc.Dropped? && w.active[k].req.op !in w.ledger.mem
    requires c.write.Stored?
    ensures var w := Run(INIT, es); var req := w.active[k].req; var w' := Apply(w, Step(k, c));
      && Answered(w'.ledger, req, "{}") && w'.fences == w.fences
      && (Marked(w, req.machine, req.generation) <==>
            req.machine in w.fences.mem && w.fences.mem[req.machine].generation == req.generation)
  {
    RunKeepsInv(INIT, es);
    assert HolderOk(Run(INIT, es), k, Run(INIT, es).active[k]);
  }

  /** Some event of the run has raised the mark to g or above. */
  ghost predicate EverRaised(es: seq<Event>, m: string, g: nat) {
    exists i :: 0 <= i < |es| && RaisedAt(es, i, m, g)
  }

  lemma MarkedIsRaised(es: seq<Event>, m: string, g: nat)
    ensures Marked(Run(INIT, es), m, g) <==> EverRaised(es, m, g)
  {
    MarkedExactly(es, 0, m, g);
    assert es[..0] == [];
    forall i | 0 <= i < |es| ensures RaisedAt(es, i, m, g) <==> Raises(Run(INIT, es[..i]), es[i], m, g) {
      RaisedAtExactly(es, i, m, g);
    }
    RaisedSinceIs(es, 0, m, g);
  }

  /** An attempt is turned away at the fence exactly if an event of the run has raised its
      machine's mark above its generation; an equal one passes. */
  lemma RejectedExactly(es: seq<Event>, k: string, c: Choice)
    requires k in Run(INIT, es).active && Run(INIT, es).active[k].pc.Unfenced?
    ensures var w := Run(INIT, es); var req := w.active[k].req;
      Do(w, w.active[k], c) == (w, if EverRaised(es, req.machine, req.generation + 1) then Out(StaleGeneration) else To(Fenced))
  {
    var req := Run(INIT, es).active[k].req;
    MarkedIsRaised(es, req.machine, req.generation + 1);
  }

  // Retries of a recorded delete.

  /** The record answers; no call of this request waits for the lock or holds it. */
  ghost predicate Settled(w: World, req: Request, result: string) {
    && req.kind.DeleteMachine? && Answered(w.ledger, req, result) && req !in w.passed
    && forall k :: k in w.active ==> w.active[k].req != req
  }

  /** A retry then returns the recorded result before the lock: stores, marks and
      inventory stay as they are. */
  lemma RetryAnswersEarly(w: World, req: Request, result: string, digest: string)
    requires Settled(w, req, result)
    ensures Apply(w, Check(req)) == w.(log := w.log + [Returned(req, Ok(result))])
    ensures Apply(w, Enter(req, digest)) == w
  {
  }

  lemma StepKeepsSettled(w: World, k: string, c: Choice, req: Request, result: string)
    requires RecordsOk(w.ledger.mem, w.fences) && Settled(w, req, result) && k in w.active
    requires w.active[k].pc.Recorded? ==> w.active[k].req.machine != req.machine
    ensures Settled(StepOf(w, k, c), req, result)
  {
    var a := w.active[k];
    DoKeepsAnswer(w, a, c, req, result);
    DoLeavesActive(w, a, c);
    var (v, next) := Do(w, a, c);
    SettleKeepsSettled(v, k, a, next, req, result);
  }

  lemma SettleKeepsSettled(v: World, k: string, a: Attempt, next: Next, req: Request, result: string)
    requires Settled(v, req, result) && a.req != req
    ensures Settled(Settle(v, k, a, next), req, result)
  {
  }

  lemma CrashKeepsSettled(w: World, req: Request, result: string)
    requires LedgerDominates(w.ledger) && Settled(w, req, result)
    ensures Settled(Apply(w, Crash), req, result)
  {
  }

  lemma EntryKeepsSettled(w: World, e: Event, req: Request, result: string)
    requires (e.Check? || e.Enter?) && Settled(w, req, result)
    ensures Settled(Apply(w, e), req, result)
  {
  }

  /** After its prune a machine delete's record is the only one of the machine in memory, and
      the others' are as they were. */
  lemma PruneLeavesOwn(w: World, k: string, c: Choice)
    requires k in w.active && w.active[k].pc.Recorded? && w.active[k].req.machine != ""
    ensures var w' := Apply(w, Step(k, c)); var req := w.active[k].req;
      && (forall id :: id in w'.ledger.mem && w'.ledger.mem[id].machine == req.machine ==> id == req.op)
      && (forall id :: id in w.ledger.mem && (id == req.op || w.ledger.mem[id].machine != req.machine) ==>
            id in w'.ledger.mem && w'.ledger.mem[id] == w.ledger.mem[id])
      && ((forall id :: id in w.ledger.mem && w.ledger.mem[id].machine == req.machine ==> id == req.op) ==>
            w'.ledger == w.ledger)
  {
    var req := w.active[k].req;
    if forall id :: id in w.ledger.mem && w.ledger.mem[id].machine == req.machine ==> id == req.op {
      assert Surviving(w.ledger.mem, req.machine, req.op) == w.ledger.mem;
    }
  }

  lemma StepForgets(w: World, k: string, c: Choice, m: string)
    requires k in w.active && w.active[k].pc.Recorded? && w.active[k].req.machine == m
    ensures |StepOf(w, k, c).log| > |w.log| && StepOf(w, k, c).log[|w.log|] == Forgot(m)
  {
  }

  ghost predicate SettledAndSound(w: World, req: Request, result: string) {
    Inv(w) && Settled(w, req, result)
  }

  lemma EventKeepsSettled(w: World, e: Event, req: Request, result: string)
    requires SettledAndSound(w, req, result) && Clean(Apply(w, e).log, |w.log|, x => x == Forgot(req.machine))
    ensures SettledAndSound(Apply(w, e), req, result)
  {
    EventKeepsInv(w, e);
    match e
    case Step(k, c) =>
      if k in w.active {
        if w.active[k].pc.Recorded? && w.active[k].req.machine == req.machine { StepForgets(w, k, c, req.machine); }
        StepKeepsSettled(w, k, c, req, result);
      }
    case Crash => CrashKeepsSettled(w, req, result);
    case _ => EntryKeepsSettled(w, e, req, result);
  }

  /** So over every later run, crashes included, until another delete of the machine
      drops the record: no attempt of this delete ever starts again.  Its early record
      is final, and if its fence was not advanced no retry will advance it. */
  lemma RetriesNeverStart(es: seq<Event>, later: seq<Event>, req: Request, result: string)
    requires Settled(Run(INIT, es), req, result)
    requires Clean(Run(Run(INIT, es), later).log, |Run(INIT, es).log|, x => x == Forgot(req.machine))
    ensures Settled(Run(Run(INIT, es), later), req, result)
  {
    RunKeepsInv(INIT, es);
    var bad := (x: Entry) => x == Forgot(req.machine);
    LogExtends();
    forall v: World, e: Event | SettledAndSound(v, req, result) && Clean(LogOf(Apply(v, e)), |LogOf(v)|, bad)
      ensures SettledAndSound(Apply(v, e), req, result)
    {
      EventKeepsSettled(v, e, req, result);
    }
    FoldHolds(Apply, LogOf, bad, v => SettledAndSound(v, req, result), Run(INIT, es), later);
  }
}
