/** What the protocol guarantees over whole runs. */
module AgentSafety {
  import opened AgentState
  import opened AgentProtocol
  import opened Traces

  /** The request has a completed record with this result. */
  ghost predicate Answered(l: LedgerStore, req: Request, result: string) {
    var own := Own(l, req);
    own.Some? && own.value.Done() && own.value.result == result
  }

  // ---- crash-safe create ----

  /** Every instance present is covered by a claim on disk of the request that
      made it, in every state the agent can reach. */
  lemma InstancesAreClaimed(es: seq<Event>, m: string)
    requires m in Run(INIT, es).inventory
    ensures var w := Run(INIT, es); var req := w.inventory[m];
      req.machine == m && req.op in w.ledger.disk && w.ledger.disk[req.op].hash == req
  {
    RunKeepsInv(INIT, es);
  }

  /** In every reachable state the mark on disk is at or above the generation of every
      completed create, lifecycle, replacement and copy of the machine. */
  lemma RecordsAreMarked(es: seq<Event>, id: string)
    requires var l := Run(INIT, es).ledger; id in l.disk && l.disk[id].Done()
    ensures var w := Run(INIT, es); var req := w.ledger.disk[id].hash;
      req.kind.Create? || req.kind.Lifecycle? || req.kind.Replacement? || req.kind.CopyTo? ==>
        req.machine in w.fences.disk && req.generation <= w.fences.disk[req.machine].generation
  {
    RunKeepsInv(INIT, es);
    var w := Run(INIT, es);
    assert RecordOk(id, w.ledger.disk[id], w.fences);
  }

  /** Whenever an effect is about to run under a machine lock: a create does not
      run while its own instance exists, every kind but copies and machine deletes has
      its claim on disk, and no completed create, lifecycle, replacement or copy of
      this machine, in memory or on disk, has a higher generation. */
  lemma EffectIsSafe(es: seq<Event>, k: string)
    requires var w := Run(INIT, es); k in w.active && w.active[k].pc.Ready?
    requires var req := Run(INIT, es).active[k].req; req.kind.MachineMutation? ==> req.key == ""
    ensures var w := Run(INIT, es); var req := w.active[k].req;
      && (req.kind.Create? && req.machine in w.inventory ==> w.inventory[req.machine] != req)
      && (req.kind.Create? || req.kind.Lifecycle? || req.kind.Replacement? || req.kind.MachineMutation? ==>
            req.op in w.ledger.disk && w.ledger.disk[req.op].hash == req)
      && (forall id :: id in w.ledger.disk && w.ledger.disk[id].Done() && w.ledger.disk[id].machine == req.machine ==>
            var kind := w.ledger.disk[id].hash.kind;
            kind.Create? || kind.Lifecycle? || kind.Replacement? || kind.CopyTo? ==>
              w.ledger.disk[id].hash.generation <= req.generation)
  {
    RunKeepsInv(INIT, es);
    var w := Run(INIT, es);
    assert HolderOk(w, k, w.active[k]);
  }

  /** The mark and the record of the request are durable. */
  ghost predicate Durable(w: World, req: Request, result: string) {
    && req.machine in w.fences.disk && req.generation <= w.fences.disk[req.machine].generation
    && Answered(w.ledger, req, result) && Answered(w.ledger.Reopen(), req, result)
  }

  /** The mark and the record of a create are durable and its credential is in the running
      table. */
  ghost predicate CreateDone(w: World, a: Attempt, result: string) {
    && Durable(w, a.req, result)
    && (a.digest != "" ==> a.req.machine in w.creds.mem
                           && w.creds.mem[a.req.machine] == Credential(a.req.execution, a.digest))
  }

  lemma ReplayReturns(w: World, a: Attempt, c: Choice)
    requires StoresOk(w) && Admissible(w, a) && a.req.kind.Create? && a.pc.Replay? && Do(w, a, c).1 == Out(Ok(a.pc.result))
    ensures CreateDone(Do(w, a, c).0, a, a.pc.result)
  {
    ReplayIsDurable(w, a, c);
  }

  lemma CompletionReturns(w: World, a: Attempt, c: Choice)
    requires StoresOk(w) && Admissible(w, a) && a.req.kind.Create? && a.pc.Credentialed? && Do(w, a, c).1 == Out(Ok(a.pc.result))
    ensures CreateDone(Do(w, a, c).0, a, a.pc.result) && Matches(Do(w, a, c).0, a.req)
  {
    CompletionIsDurable(w, a, c);
  }

  lemma SuccessPoints(w: World, a: Attempt, c: Choice)
    requires Fencing(a.req.kind) && Admissible(w, a) && Do(w, a, c).1.Out? && Do(w, a, c).1.reply.Ok?
    ensures (a.pc.Replay? || a.pc.Credentialed?) && Do(w, a, c).1 == Out(Ok(a.pc.result))
  {
  }

  lemma SettleKeepsDone(w: World, k: string, a: Attempt, next: Next, result: string)
    ensures CreateDone(w, a, result) ==> CreateDone(Settle(w, k, a, next), a, result)
    ensures Matches(w, a.req) ==> Matches(Settle(w, k, a, next), a.req)
  {
  }

  /** Every create that returns success, completing or replayed, has its mark and
      its record durable and its credential in the running table; one that
      completes has its instance in the inventory. */
  lemma CreateReturns(es: seq<Event>, k: string, c: Choice)
    requires var w := Run(INIT, es); k in w.active && w.active[k].req.kind.Create?
    requires Do(Run(INIT, es), Run(INIT, es).active[k], c).1.Out?
    requires Do(Run(INIT, es), Run(INIT, es).active[k], c).1.reply.Ok?
    ensures var w := Run(INIT, es); var a := w.active[k]; var w' := StepOf(w, k, c);
      && CreateDone(w', a, Do(w, a, c).1.reply.result)
      && (a.pc.Replay? || (a.pc.Credentialed? && Matches(w', a.req)))
  {
    RunKeepsInv(INIT, es);
    var w := Run(INIT, es);
    var a := w.active[k];
    assert HolderOk(w, k, a);
    SuccessPoints(w, a, c);
    if a.pc.Replay? { ReplayReturns(w, a, c); } else { CompletionReturns(w, a, c); }
    var (v, next) := Do(w, a, c);
    SettleKeepsDone(v, k, a, next, next.reply.result);
  }

  /** Every create, lifecycle, replacement and copy that returns success, completing or
      replayed, has its mark and its record durable.  A replacement that completes has its
      instance and its credential in place. */
  lemma MutationReturns(es: seq<Event>, k: string, c: Choice)
    requires k in Run(INIT, es).active
    requires var req := Run(INIT, es).active[k].req;
      req.kind.Create? || req.kind.Lifecycle? || req.kind.Replacement? || req.kind.CopyTo?
    requires Do(Run(INIT, es), Run(INIT, es).active[k], c).1.Out?
    requires Do(Run(INIT, es), Run(INIT, es).active[k], c).1.reply.Ok?
    ensures var w := Run(INIT, es); var a := w.active[k]; var w' := StepOf(w, k, c);
      var result := Do(w, a, c).1.reply.result;
      && Durable(w', a.req, result) && (a.pc.Replay? || a.pc.Credentialed?)
      && (a.req.kind.Replacement? && a.pc.Credentialed? ==>
            && Matches(w', a.req)
            && (a.digest != "" ==> a.req.machine in w'.creds.mem
                                   && w'.creds.mem[a.req.machine] == Credential(a.req.execution, a.digest)))
  {
    RunKeepsInv(INIT, es);
    var w := Run(INIT, es);
    var a := w.active[k];
    assert HolderOk(w, k, a);
    SuccessPoints(w, a, c);
    if a.pc.Replay? { ReplayIsDurable(w, a, c); } else { CompletionIsDurable(w, a, c); }
  }

  lemma ReplayIsDurable(w: World, a: Attempt, c: Choice)
    requires LedgerOk(w.ledger, w.fences) && FencesDominate(w.fences) && Admissible(w, a) && Fencing(a.req.kind) && a.pc.Replay?
    ensures Durable(Do(w, a, c).0, a.req, a.pc.result)
  {
    assert RecordOk(a.req.op, w.ledger.mem[a.req.op], w.fences);
  }

  lemma CompletionIsDurable(w: World, a: Attempt, c: Choice)
    requires LedgerDominates(w.ledger) && FencesDominate(w.fences) && Admissible(w, a) && Fencing(a.req.kind) && a.pc.Credentialed?
    requires Do(w, a, c).1 == Out(Ok(a.pc.result))
    ensures Durable(Do(w, a, c).0, a.req, a.pc.result)
    ensures Do(w, a, c).0.inventory == w.inventory && Do(w, a, c).0.creds == w.creds
  {
  }

  /** A replayed create whose credential is in place needs no write, so it succeeds whatever
      happens to the files. */
  lemma ReplayNeedsNoWrite(w: World, a: Attempt, c: Choice)
    requires a.req.kind.Create? && a.pc.Replay?
    requires a.digest != "" ==>
      a.req.machine in w.creds.mem && w.creds.mem[a.req.machine] == Credential(a.req.execution, a.digest)
    ensures Do(w, a, c) == (w, Out(Ok(a.pc.result)))
  {
  }

  /** While an attempt holds the lock of a machine, or of a mutation's own key, no other request
      for it gets in. */
  lemma LockExcludes(w: World, req: Request, digest: string)
    requires (if req.kind.MachineMutation? && req.key != "" then req.key else req.machine) in w.active
    ensures Apply(w, Enter(req, digest)) == w
  {
  }

  // ---- the instance of a create over later runs ----

  /** The effect of a delete or a replacement of the machine ran. */
  predicate Removes(e: Entry, machine: string) {
    e.Ran? && e.req.machine == machine && (e.req.kind.DeleteMachine? || e.req.kind.Replacement?)
  }

  lemma DoKeepsInstance(w: World, a: Attempt, c: Choice, req: Request)
    requires Matches(w, req) && !(a.pc.Ready? && !c.fx.Refused? && Removes(Ran(a.req), req.machine))
    ensures Matches(Do(w, a, c).0, req)
  {
  }

  function LogOf(w: World): seq<Entry> {
    w.log
  }

  lemma EventExtendsLog(w: World, e: Event)
    ensures w.log <= Apply(w, e).log
  {
    if e.Step? && e.key in w.active {
      StepAppends(w, e.key, e.choice);
    }
  }

  lemma LogExtends()
    ensures Extends(Apply, LogOf)
  {
    forall w, e ensures LogOf(w) <= LogOf(Apply(w, e)) {
      EventExtendsLog(w, e);
    }
  }

  lemma EventKeepsInstance(w: World, e: Event, req: Request)
    requires Matches(w, req) && Clean(Apply(w, e).log, |w.log|, x => Removes(x, req.machine))
    ensures Matches(Apply(w, e), req)
  {
    if e.Step? && e.key in w.active {
      var a := w.active[e.key];
      StepAppends(w, e.key, e.choice);
      if a.pc.Ready? && !e.choice.fx.Refused? {
        assert Apply(w, e).log[|w.log|] == Ran(a.req);
      }
      DoKeepsInstance(w, a, e.choice, req);
    }
  }

  /** From any moment when a machine's instance carries an execution and
      generation, it does so at every later moment, crashes included, for as long
      as no effect of a delete or a replacement of that machine has run since. */
  lemma InstanceStays(w: World, es: seq<Event>, req: Request)
    requires Matches(w, req) && Clean(Run(w, es).log, |w.log|, x => Removes(x, req.machine))
    ensures Matches(Run(w, es), req)
  {
    var bad := (x: Entry) => Removes(x, req.machine);
    var P := (v: World) => Matches(v, req);
    LogExtends();
    forall v: World, e: Event | P(v) && Clean(LogOf(Apply(v, e)), |LogOf(v)|, bad) ensures P(Apply(v, e)) {
      EventKeepsInstance(v, e, req);
    }
    FoldHolds(Apply, LogOf, bad, P, w, es);
  }

  /** So an instance whose create completed is there at every later moment until a
      delete or a replacement of its machine runs. */
  lemma CreateSurvives(es: seq<Event>, k: string, c: Choice, later: seq<Event>)
    requires var w := Run(INIT, es); k in w.active && w.active[k].req.kind.Create? && w.active[k].pc.Credentialed?
    requires Do(Run(INIT, es), Run(INIT, es).active[k], c).1.Out?
    requires Do(Run(INIT, es), Run(INIT, es).active[k], c).1.reply.Ok?
    requires var v := Apply(Run(INIT, es), Step(k, c));
      Clean(Run(v, later).log, |v.log|, x => Removes(x, Run(INIT, es).active[k].req.machine))
    ensures Matches(Run(Apply(Run(INIT, es), Step(k, c)), later), Run(INIT, es).active[k].req)
  {
    CreateReturns(es, k, c);
    InstanceStays(Apply(Run(INIT, es), Step(k, c)), later, Run(INIT, es).active[k].req);
  }

  /** Some moment of the run had the instance. */
  ghost predicate Existed(es: seq<Event>, req: Request) {
    exists n :: 0 <= n <= |es| && Matches(Run(INIT, es[..n]), req)
  }

  lemma ExistedLater(es: seq<Event>, e: Event, req: Request)
    requires Existed(es, req)
    ensures Existed(es + [e], req)
  {
    var n :| 0 <= n <= |es| && Matches(Run(INIT, es[..n]), req);
    assert (es + [e])[..n] == es[..n];
  }

  ghost predicate CreatesExisted(es: seq<Event>, records: map<string, Record>) {
    forall id :: id in records && records[id].Done() && records[id].hash.kind.Create? ==> Existed(es, records[id].hash)
  }

  /** Where a completed record of a ledger comes from: it was there, or it is the
      caller's. */
  ghost predicate Origin(l: LedgerStore, l': LedgerStore, req: Request, id: string) {
    && (id in l'.mem && l'.mem[id].Done() ==> (id in l.mem && l'.mem[id] == l.mem[id]) || l'.mem[id].hash == req)
    && (id in l'.disk && l'.disk[id].Done() ==>
          (id in l.disk && l'.disk[id] == l.disk[id]) || (id in l.mem && l'.disk[id] == l.mem[id]) || l'.disk[id].hash == req)
  }

  lemma LedgerCallsHaveOrigin(l: LedgerStore, req: Request, result: string, keep: string, now: int, w: Write, id: string)
    ensures Origin(l, l, req, id)
    ensures Origin(l, Begin(l, req, now, w).0, req, id)
    ensures Origin(l, Complete(l, req, result, w).0, req, id)
    ensures Origin(l, Put(l, req, result, now, w).0, req, id)
    ensures Origin(l, PruneMachine(l, req.machine, keep, w), req, id)
  {
  }

  lemma DoHasOrigin(w: World, a: Attempt, c: Choice, id: string)
    ensures Origin(w.ledger, Do(w, a, c).0.ledger, a.req, id)
  {
    match a.pc
    case Credentialed(r) => LedgerCallsHaveOrigin(w.ledger, a.req, r, a.req.op, c.now, c.write, id);
    case _ => LedgerCallsHaveOrigin(w.ledger, a.req, "{}", a.req.op, c.now, c.write, id);
  }

  /** A step writes a completed record of a create only when it completes it, with
      the instance in place. */
  lemma CreateIsWrittenInPlace(w: World, a: Attempt, c: Choice)
    requires Admissible(w, a) && a.req.kind.Create? && !Matches(w, a.req)
    ensures var l := Do(w, a, c).0.ledger;
      forall id :: (id in l.mem && l.mem[id].Done() ==> id in w.ledger.mem && l.mem[id] == w.ledger.mem[id])
        && (id in l.disk && l.disk[id].Done() ==>
              (id in w.ledger.disk && l.disk[id] == w.ledger.disk[id]) || (id in w.ledger.mem && l.disk[id] == w.ledger.mem[id]))
  {
  }

  lemma StepHasExisted(front: seq<Event>, k: string, c: Choice, id: string)
    requires Inv(Run(INIT, front)) && k in Run(INIT, front).active
    requires CreatesExisted(front, Run(INIT, front).ledger.mem) && CreatesExisted(front, Run(INIT, front).ledger.disk)
    ensures var w := Run(INIT, front); var l := Do(w, w.active[k], c).0.ledger;
      && (id in l.mem && l.mem[id].Done() && l.mem[id].hash.kind.Create? ==> Existed(front, l.mem[id].hash))
      && (id in l.disk && l.disk[id].Done() && l.disk[id].hash.kind.Create? ==> Existed(front, l.disk[id].hash))
  {
    var w := Run(INIT, front);
    var a := w.active[k];
    assert HolderOk(w, k, a);
    DoHasOrigin(w, a, c, id);
    if a.req.kind.Create? {
      if Matches(w, a.req) { ExistedNow(front, a.req); } else { CreateIsWrittenInPlace(w, a, c); }
    }
  }

  lemma EventHasExisted(front: seq<Event>, e: Event, id: string)
    requires Inv(Run(INIT, front))
    requires CreatesExisted(front, Run(INIT, front).ledger.mem) && CreatesExisted(front, Run(INIT, front).ledger.disk)
    ensures var l := Apply(Run(INIT, front), e).ledger;
      && (id in l.mem && l.mem[id].Done() && l.mem[id].hash.kind.Create? ==> Existed(front, l.mem[id].hash))
      && (id in l.disk && l.disk[id].Done() && l.disk[id].hash.kind.Create? ==> Existed(front, l.disk[id].hash))
  {
    if e.Step? && e.key in Run(INIT, front).active {
      StepHasExisted(front, e.key, e.choice, id);
    }
  }

  lemma {:induction false} CompletedCreatesExisted(es: seq<Event>)
    ensures CreatesExisted(es, Run(INIT, es).ledger.mem) && CreatesExisted(es, Run(INIT, es).ledger.disk)
  {
    if es != [] {
      var front, e := es[..|es|-1], es[|es|-1];
      var l := Run(INIT, es).ledger;
      assert es == front + [e];
      CompletedCreatesExisted(front);
      RunKeepsInv(INIT, front);
      forall id | id in l.mem && l.mem[id].Done() && l.mem[id].hash.kind.Create? ensures Existed(es, l.mem[id].hash) {
        EventHasExisted(front, e, id);
        ExistedLater(front, e, l.mem[id].hash);
      }
      forall id | id in l.disk && l.disk[id].Done() && l.disk[id].hash.kind.Create? ensures Existed(es, l.disk[id].hash) {
        EventHasExisted(front, e, id);
        ExistedLater(front, e, l.disk[id].hash);
      }
    }
  }

  lemma ExistedNow(es: seq<Event>, req: Request)
    ensures Matches(Run(INIT, es), req) ==> Existed(es, req)
  {
    assert es[..|es|] == es;
  }

  /** A replayed success may come after the instance is gone, but only if it was
      there at some earlier moment and a delete or replacement effect of the machine
      has run since. */
  lemma ReplayedCreateExisted(es: seq<Event>, k: string)
    requires var w := Run(INIT, es); k in w.active && w.active[k].req.kind.Create? && w.active[k].pc.Replay?
    ensures var w := Run(INIT, es); var req := w.active[k].req;
      exists n :: 0 <= n <= |es| && Matches(Run(INIT, es[..n]), req)
        && (Clean(w.log, |Run(INIT, es[..n]).log|, x => Removes(x, req.machine)) ==> Matches(w, req))
  {
    var w := Run(INIT, es);
    var req := w.active[k].req;
    RunKeepsInv(INIT, es);
    assert HolderOk(w, k, w.active[k]);
    CompletedCreatesExisted(es);
    assert Existed(es, w.ledger.mem[req.op].hash);
    var n :| 0 <= n <= |es| && Matches(Run(INIT, es[..n]), req);
    FoldSplits(Apply, INIT, es, n);
    if Clean(w.log, |Run(INIT, es[..n]).log|, x => Removes(x, req.machine)) {
      InstanceStays(Run(INIT, es[..n]), es[n..], req);
    }
  }

  // ---- fences ----

  /** Up to the fence an attempt writes nothing, so a rejected request leaves no
      ledger record. */
  lemma NoWriteBeforeFence(w: World, k: string, c: Choice)
    requires k in w.active && (w.active[k].pc.Start? || w.active[k].pc.Unfenced?)
    ensures var w' := Apply(w, Step(k, c));
      w'.ledger == w.ledger && w'.fences == w.fences && w'.inventory == w.inventory && w'.creds == w.creds
  {
  }

  /** An operation id that is on record for another request is refused before anything
      happens. */
  lemma ReusedIdIsRefused(w: World, k: string, c: Choice, req: Request)
    requires req.op in w.ledger.mem && w.ledger.mem[req.op].hash != req
    ensures k in w.active && w.active[k].req == req && w.active[k].pc.Start? && !req.kind.DeleteMachine? ==>
      Apply(w, Step(k, c)) == w.(active := w.active - {k}, log := w.log + [Returned(req, Conflict)])
    ensures req.kind.DeleteMachine? ==> Apply(w, Check(req)) == w.(log := w.log + [Returned(req, Conflict)])
  {
  }

  lemma DoRaisesMarks(w: World, a: Attempt, c: Choice, m: string)
    requires m in w.fences.mem
    ensures var w' := Do(w, a, c).0; m in w'.fences.mem && w.fences.mem[m].generation <= w'.fences.mem[m].generation
  {
  }

  /** No event lowers a mark in memory, not even a crash. */
  lemma {:induction false} MarksNeverFall(w: World, es: seq<Event>, m: string)
    requires Inv(w) && m in w.fences.mem
    ensures var w' := Run(w, es); m in w'.fences.mem && w.fences.mem[m].generation <= w'.fences.mem[m].generation
  {
    if es != [] {
      var v, e := Run(w, es[..|es|-1]), es[|es|-1];
      MarksNeverFall(w, es[..|es|-1], m);
      RunKeepsInv(w, es[..|es|-1]);
      if e.Step? && e.key in v.active {
        DoRaisesMarks(v, v.active[e.key], e.choice, m);
      }
    }
  }

  /** Once a create, lifecycle, replacement or copy of a machine has a completed record
      on disk, and for ever after (crashes and prunes included), a request with a lower
      generation that reaches the fence is turned away before its effect and
      leaves ledger, fences, credentials and inventory untouched. */
  lemma StaleIsRejected(es: seq<Event>, id: string, later: seq<Event>, k: string, c: Choice)
    requires var w := Run(INIT, es);
      id in w.ledger.disk && w.ledger.disk[id].Done()
    requires var kind := Run(INIT, es).ledger.disk[id].hash.kind;
      kind.Create? || kind.Lifecycle? || kind.Replacement? || kind.CopyTo?
    requires var v := Run(Run(INIT, es), later);
      && k in v.active && v.active[k].pc.Unfenced?
      && v.active[k].req.machine == Run(INIT, es).ledger.disk[id].machine
      && v.active[k].req.generation < Run(INIT, es).ledger.disk[id].hash.generation
    ensures var v := Run(Run(INIT, es), later);
      Apply(v, Step(k, c)) == v.(active := v.active - {k}, log := v.log + [Returned(v.active[k].req, StaleGeneration)])
  {
    RunKeepsInv(INIT, es);
    MarksNeverFall(Run(INIT, es), later, Run(INIT, es).ledger.disk[id].machine);
  }

  // ---- replay ----

  /** The requests that answer retries from their record under their machine's
      lock: all but machine deletes and mutations with a key of their own. */
  predicate Replays(req: Request) {
    !req.kind.DeleteMachine? && (req.kind.MachineMutation? ==> req.key == "")
  }

  lemma DoAnswers(w: World, a: Attempt, c: Choice)
    requires Admissible(w, a) && Replays(a.req)
    ensures var (w', next) := Do(w, a, c);
      next.Out? && next.reply.Ok? ==> Answered(w'.ledger, a.req, next.reply.result)
  {
  }

  lemma LedgerCallsKeepAnswer(l: LedgerStore, r: Request, out: string, now: int, w: Write, req: Request, result: string)
    requires Answered(l, req, result)
    ensures Answered(Begin(l, r, now, w).0, req, result)
    ensures Answered(Complete(l, r, out, w).0, req, result)
    ensures Answered(Put(l, r, out, now, w).0, req, result)
  {
  }

  /** A completed record survives every step except a prune of its machine. */
  lemma DoKeepsAnswer(w: World, a: Attempt, c: Choice, req: Request, result: string)
    requires Answered(w.ledger, req, result) && RecordsOk(w.ledger.mem, w.fences)
    requires a.pc.Recorded? ==> a.req.machine != req.machine
    ensures Answered(Do(w, a, c).0.ledger, req, result)
  {
    match a.pc
    case Fenced => LedgerCallsKeepAnswer(w.ledger, a.req, "", c.now, c.write, req, result);
    case Credentialed(r) => LedgerCallsKeepAnswer(w.ledger, a.req, r, c.now, c.write, req, result);
    case Dropped => LedgerCallsKeepAnswer(w.ledger, a.req, "{}", c.now, c.write, req, result);
    case Recorded => PruneIsLocal(w.ledger, w.fences, a.req, c.write, req);
    case _ =>
  }

  /** Entry `i` is a success whose record no machine delete has dropped since. */
  ghost predicate Remembered(log: seq<Entry>, i: int) {
    && 0 <= i < |log|
    && log[i].Returned? && log[i].reply.Ok? && Replays(log[i].req)
    && forall j :: i < j < |log| ==> log[j] != Forgot(log[i].req.machine)
  }

  /** After success `e`, its request is neither run again nor answered otherwise. */
  predicate Agrees(e: Entry, later: Entry)
    requires e.Returned?
  {
    && later != Ran(e.req)
    && (later.Returned? && later.req == e.req && later.reply.Ok? ==> later.reply == e.reply)
  }

  ghost predicate HistoryOk(w: World) {
    forall i :: Remembered(w.log, i) ==>
      && Answered(w.ledger, w.log[i].req, w.log[i].reply.result)
      && forall j :: i < j < |w.log| ==> Agrees(w.log[i], w.log[j])
  }

  /** What one step appends to the history. */
  function Appended(a: Attempt, c: Choice, next: Next): seq<Entry> {
    (if a.pc.Ready? && !c.fx.Refused? then [Ran(a.req)] else if a.pc.Recorded? then [Forgot(a.req.machine)] else [])
    + (if next.Out? then [Returned(a.req, next.reply)] else [])
  }

  lemma StepAppends(w: World, k: string, c: Choice)
    requires k in w.active
    ensures StepOf(w, k, c).log == w.log + Appended(w.active[k], c, Do(w, w.active[k], c).1)
  {
  }

  lemma AppendedAgrees(w: World, a: Attempt, c: Choice, e: Entry, i: int)
    requires Admissible(w, a)
    requires e.Returned? && e.reply.Ok? && Replays(e.req) && Answered(w.ledger, e.req, e.reply.result)
    requires 0 <= i < |Appended(a, c, Do(w, a, c).1)|
    ensures Agrees(e, Appended(a, c, Do(w, a, c).1)[i])
  {
    if a.req == e.req {
      assert Own(w.ledger, a.req).value.Done();
    }
  }

  /** A success stays answered and agreed with through a step that does not drop its record. */
  lemma StepKeepsEntry(w: World, a: Attempt, c: Choice, log: seq<Entry>, i: int)
    requires StoresOk(w) && Admissible(w, a) && log == w.log + Appended(a, c, Do(w, a, c).1)
    requires 0 <= i < |w.log| && Remembered(log, i) && HistoryOk(w)
    ensures Answered(Do(w, a, c).0.ledger, log[i].req, log[i].reply.result)
    ensures forall j :: i < j < |log| ==> Agrees(log[i], log[j])
  {
    var e, ext := log[i], Appended(a, c, Do(w, a, c).1);
    assert Remembered(w.log, i) by {
      forall j | i < j < |w.log| ensures w.log[j] != Forgot(e.req.machine) { assert log[j] == w.log[j]; }
    }
    if a.pc.Recorded? {
      assert log[|w.log|] == ext[0] == Forgot(a.req.machine);
    }
    DoKeepsAnswer(w, a, c, e.req, e.reply.result);
    forall j | i < j < |log| ensures Agrees(e, log[j]) {
      if j >= |w.log| {
        AppendedAgrees(w, a, c, e, j - |w.log|);
      }
    }
  }

  /** A success that the step itself returns. */
  lemma StepAddsEntry(w: World, a: Attempt, c: Choice, log: seq<Entry>, i: int)
    requires Admissible(w, a) && log == w.log + Appended(a, c, Do(w, a, c).1)
    requires |w.log| <= i && Remembered(log, i)
    ensures Answered(Do(w, a, c).0.ledger, log[i].req, log[i].reply.result)
    ensures i == |log| - 1
  {
    assert log[i] == Appended(a, c, Do(w, a, c).1)[i - |w.log|];
    DoAnswers(w, a, c);
  }

  lemma StepKeepsHistory(w: World, k: string, c: Choice)
    requires Inv(w) && HistoryOk(w) && k in w.active
    ensures HistoryOk(StepOf(w, k, c))
  {
    var a, w' := w.active[k], StepOf(w, k, c);
    assert HolderOk(w, k, a);
    StepAppends(w, k, c);
    assert w'.ledger == Do(w, a, c).0.ledger;
    forall i | Remembered(w'.log, i)
      ensures Answered(w'.ledger, w'.log[i].req, w'.log[i].reply.result)
      ensures forall j :: i < j < |w'.log| ==> Agrees(w'.log[i], w'.log[j])
    {
      if i < |w.log| { StepKeepsEntry(w, a, c, w'.log, i); } else { StepAddsEntry(w, a, c, w'.log, i); }
    }
  }

  lemma CheckKeepsHistory(w: World, req: Request)
    requires HistoryOk(w)
    ensures HistoryOk(DoCheck(w, req))
  {
    var w' := DoCheck(w, req);
    forall i | Remembered(w'.log, i)
      ensures Answered(w'.ledger, w'.log[i].req, w'.log[i].reply.result)
      ensures forall j :: i < j < |w'.log| ==> Agrees(w'.log[i], w'.log[j])
    {
      assert i < |w.log|;
      assert Remembered(w.log, i) by {
        forall j | i < j < |w.log| ensures w.log[j] != Forgot(w.log[i].req.machine) { assert w'.log[j] == w.log[j]; }
      }
    }
  }

  lemma CrashKeepsHistory(w: World)
    requires Inv(w) && HistoryOk(w)
    ensures HistoryOk(Apply(w, Crash))
  {
    forall i | Remembered(w.log, i)
      ensures Answered(w.ledger.Reopen(), w.log[i].req, w.log[i].reply.result)
    {
      assert Answered(w.ledger, w.log[i].req, w.log[i].reply.result);
    }
  }

  /** Over every run: once a create, lifecycle, replacement, copy or machine
      mutation has returned a result, and until a delete of its machine drops the
      record, its effect never runs again and every success of the same request returns that
      very result, whatever crashes, retries and other requests come between. */
  lemma {:induction false} ReplaysAgree(es: seq<Event>)
    ensures HistoryOk(Run(INIT, es))
  {
    if es != [] {
      var w, e := Run(INIT, es[..|es|-1]), es[|es|-1];
      ReplaysAgree(es[..|es|-1]);
      RunKeepsInv(INIT, es[..|es|-1]);
      match e
      case Check(req) => CheckKeepsHistory(w, req);
      case Enter(_, _) =>
      case Step(k, c) => if k in w.active { StepKeepsHistory(w, k, c); }
      case Crash => CrashKeepsHistory(w);
    }
  }

  // ---- recovery ----

  function Repeat(w: World, k: string, c: Choice, n: nat): World {
    Iterate(Apply, w, Step(k, c), n)
  }

  function AtPc(w: World, k: string, a: Attempt, pc: Pc): World {
    w.(active := w.active[k := a.(pc := pc)])
  }

  /** The recovery of a claimed request finds it done: by the instance's tags for a create,
      by its own lookup for a lifecycle or machine mutation, by both for a replacement. */
  predicate FoundDone(w: World, req: Request, c: Choice) {
    var tagged := req.machine in w.inventory && w.inventory[req.machine].execution == req.execution
      && w.inventory[req.machine].generation == req.generation;
    match req.kind
    case Create => tagged
    case Replacement => tagged && c.found
    case Lifecycle => c.found
    case MachineMutation => c.found
    case _ => false
  }

  /** The unfinished claim of a request whose machine is at no higher generation. */
  predicate MayRetry(w: World, req: Request) {
    && !Keyed(req) && Own(w.ledger, req).Some? && !Own(w.ledger, req).value.Done()
    && (req.machine in w.fences.mem ==> w.fences.mem[req.machine].generation <= req.generation)
  }

  lemma RetryIsFenced(w: World, a: Attempt, c: Choice)
    requires MayRetry(w, a.req) && Claims(a.req.kind)
    ensures Repeat(AtPc(w, a.req.machine, a, Start), a.req.machine, c, 2) == AtPc(w, a.req.machine, a, Fenced)
  {
    var k := a.req.machine;
    assert Repeat(AtPc(w, k, a, Start), k, c, 1) == AtPc(w, k, a, Unfenced);
  }

  lemma RetryIsClaimed(w: World, a: Attempt, c: Choice)
    requires MayRetry(w, a.req) && FoundDone(w, a.req, c)
    ensures Repeat(AtPc(w, a.req.machine, a, Start), a.req.machine, c, 3) == AtPc(w, a.req.machine, a, Claimed(true))
  {
    RetryIsFenced(w, a, c);
  }

  lemma AdoptsClaim(w: World, a: Attempt, c: Choice)
    requires MayRetry(w, a.req) && FoundDone(w, a.req, c) && !c.fx.Refused?
    ensures Repeat(AtPc(w, a.req.machine, a, Start), a.req.machine, c, 4) == AtPc(w, a.req.machine, a, Effected(c.payload))
  {
    RetryIsClaimed(w, a, c);
  }

  /** A crash window closes by itself: when the claim is unfinished but its recovery finds
      it done, a retry whose writes succeed adopts what is there and returns it, without
      running the effect. */
  lemma RetryAdopts(w: World, req: Request, digest: string, c: Choice)
    requires req.machine !in w.active && MayRetry(w, req) && FoundDone(w, req, c) && c.write.Stored? && !c.fx.Refused?
    ensures var w' := Repeat(Apply(w, Enter(req, digest)), req.machine, c, 7);
      && w'.inventory == w.inventory && w'.active == w.active
      && w'.log == w.log + [Returned(req, Ok(c.payload))]
      && Answered(w'.ledger, req, c.payload)
  {
    var k, a := req.machine, Attempt(req, digest, Start);
    var w0 := Apply(w, Enter(req, digest));
    assert w0 == AtPc(w, k, a, Start);
    AdoptsClaim(w, a, c);
    AdoptedCompletes(w, a, c);
    IterateSplits(Apply, w0, Step(k, c), 4, 3);
  }

  lemma AdoptedCompletes(w: World, a: Attempt, c: Choice)
    requires MayRetry(w, a.req) && Claims(a.req.kind) && a.req.machine !in w.active && c.write.Stored? && !c.fx.Refused?
    ensures var w' := Repeat(AtPc(w, a.req.machine, a, Effected(c.payload)), a.req.machine, c, 3);
      && w'.inventory == w.inventory && w'.active == w.active
      && w'.log == w.log + [Returned(a.req, Ok(c.payload))]
      && Answered(w'.ledger, a.req, c.payload)
  {
    var k := a.req.machine;
    var w0 := AtPc(w, k, a, Effected(c.payload));
    var g := AdoptedAdvances(w, a, c);
    assert Repeat(w0, k, c, 2) == AtPc(g, k, a, Credentialed(c.payload));
    var h := g.(ledger := Complete(g.ledger, a.req, c.payload, c.write).0);
    assert Repeat(w0, k, c, 3) == h.(log := h.log + [Returned(a.req, Ok(c.payload))]);
  }

  lemma AdoptedAdvances(w: World, a: Attempt, c: Choice) returns (g: World)
    requires MayRetry(w, a.req) && a.req.machine !in w.active && c.write.Stored?
    ensures Repeat(AtPc(w, a.req.machine, a, Effected(c.payload)), a.req.machine, c, 2)
            == AtPc(g, a.req.machine, a, Credentialed(c.payload))
    ensures g == w.(fences := g.fences, creds := g.creds)
  {
    var k := a.req.machine;
    var w0 := AtPc(w, k, a, Effected(c.payload));
    var f := if Advances(a.req.kind) then w.(fences := Advance(w.fences, a.req, c.now, c.write).0) else w;
    assert Repeat(w0, k, c, 1) == AtPc(f, k, a, Advanced(c.payload));
    g := StoreCredential(f, a, c.write).0;
  }
}
