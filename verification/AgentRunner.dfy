/** The protocol as the agent executes it: straight-line code with early returns
    over the three stores.  Every call is proved to be one step of the step
    machine, so what a run function does is exactly some steps of one attempt:
    it ends in every set of states that contains the entered state and is closed
    under that attempt's steps. */
module AgentRunner {
  import opened AgentState
  import opened AgentStores
  import opened AgentProtocol
  import opened Base

  /** No step of the holder of `k` leads out of `P`. */
  ghost predicate Preserved(k: string, P: World -> bool) {
    forall v: World, c: Choice :: P(v) ==> P(Apply(v, Step(k, c)))
  }

  /** Neither the unlocked check of the request nor its lock leads out of `P`. */
  ghost predicate Opens(req: Request, P: World -> bool) {
    forall v: World :: P(v) ==> P(Apply(v, Check(req))) && P(Apply(v, Enter(req, "")))
  }

  /** Reachability is such a property, and entering keeps it: an agent driven by
      the run functions below only ever reaches states of the step machine. */
  lemma ReachabilityIsPreserved(w: World, e: Event, k: string, req: Request)
    ensures Reachable(INIT) && Preserved(k, Reachable) && Opens(req, Reachable)
    ensures Reachable(w) ==> Reachable(Apply(w, e))
  {
    assert INIT == Run(INIT, []);
    if Reachable(w) {
      EventKeepsReachable(w, e);
    }
    forall v: World, c: Choice | Reachable(v)
      ensures Reachable(Apply(v, Step(k, c)))
    {
      EventKeepsReachable(v, Step(k, c));
    }
    forall v: World | Reachable(v)
      ensures Reachable(Apply(v, Check(req))) && Reachable(Apply(v, Enter(req, "")))
    {
      EventKeepsReachable(v, Check(req));
      EventKeepsReachable(v, Enter(req, ""));
    }
  }

  /** The choice of a call that consults nothing outside. */
  const IDLE := Choice(Stored, Succeeded, "", false, 0)

  class Agent {
    const ledger: Ledger
    const fences: Fences
    const creds: Creds
    var inventory: map<string, Request>
    ghost var passed: multiset<Request>
    ghost var active: map<string, Attempt>
    ghost var log: seq<Entry>

    ghost function W(): World
      reads this, ledger, fences, creds
    {
      World(ledger.State(), fences.State(), creds.State(), inventory, passed, active, log)
    }

    /** The lock of `k` is held by `a`. */
    ghost predicate Holds(k: string, a: Attempt)
      reads this
    {
      k in active && active[k] == a
    }

    /** Where the attempt stands after a call that answered `next`. */
    ghost predicate At(k: string, a: Attempt, next: Next)
      reads this
    {
      match next
      case To(pc) => Holds(k, a.(pc := pc))
      case Out(reply) => k !in active && log != [] && log[|log|-1] == Returned(a.req, reply)
    }

    constructor ()
      ensures W() == INIT && fresh(ledger) && fresh(fences) && fresh(creds)
    {
      ledger := new Ledger();
      fences := new Fences();
      creds := new Creds();
      inventory, passed, active, log := map[], multiset{}, map[], [];
    }

    /** The process dies and comes back with what its files hold. */
    method Restart()
      modifies this`active, this`passed, ledger, fences, creds
      ensures W() == Apply(old(W()), Crash)
    {
      ledger.Restart();
      fences.Restart();
      creds.Restart();
      active, passed := map[], multiset{};
    }

    /** LockMachine: the caller becomes the holder of `k`. */
    ghost method Lock(k: string, a: Attempt, P: World -> bool)
      requires k == KeyOf(a.req) && MayEnter(W(), a.req) && a.pc.Start? && P(Apply(W(), Enter(a.req, a.digest)))
      modifies this`active, this`passed
      ensures P(W()) && Holds(k, a) && log == old(log)
    {
      ghost var w := W();
      active := active[k := a];
      if a.req.kind.DeleteMachine? {
        passed := passed - multiset{a.req};
      }
      assert W() == Apply(w, Enter(a.req, a.digest));
    }

    /** The replay check that a machine delete makes before it takes the lock. */
    method CheckUnlocked(req: Request, ghost P: World -> bool) returns (early: Option<Reply>)
      requires req.kind.DeleteMachine? && Opens(req, P) && P(W())
      modifies this`passed, this`log
      ensures P(W()) && active == old(active)
      ensures early.None? ==> req in passed && log == old(log)
      ensures early.Some? ==> log == old(log) + [Returned(req, early.value)]
      ensures req.op in ledger.records && ledger.records[req.op].hash == req && ledger.records[req.op].Done() ==>
        early == Some(Ok(ledger.records[req.op].result))
    {
      ghost var w := W();
      if req.op in ledger.records && (ledger.records[req.op].hash != req || ledger.records[req.op].Done()) {
        var rec := ledger.records[req.op];
        early := Some(if rec.hash != req then Conflict else Ok(rec.result));
        log := log + [Returned(req, early.value)];
      } else {
        early := None;
        passed := passed + multiset{req};
      }
      assert W() == Apply(w, Check(req));
    }

    // ---- the calls under the machine lock ----

    ghost method Note(k: string, a: Attempt, next: Next)
      modifies this`active, this`log
      ensures W() == Settle(old(W()), k, a, next) && At(k, a, next)
    {
      match next {
        case To(pc) => active := active[k := a.(pc := pc)];
        case Out(reply) =>
          active := active - {k};
          log := log + [Returned(a.req, reply)];
      }
    }

    method CheckLedger(k: string, a: Attempt, ghost P: World -> bool) returns (next: Next)
      requires Holds(k, a) && a.pc.Start? && Preserved(k, P) && P(W())
      modifies this`active, this`log
      ensures P(W()) && At(k, a, next)
      ensures next.To? ==> next.pc.Unfenced? || (next.pc.Replay? && !a.req.kind.DeleteMachine?)
    {
      ghost var w := W();
      if a.req.kind.DeleteMachine? || a.req.op !in ledger.records {
        next := To(Unfenced);
      } else {
        var rec := ledger.records[a.req.op];
        next := if rec.hash != a.req then Out(Conflict)
                else To(if rec.Done() then Replay(rec.result) else Unfenced);
      }
      Note(k, a, next);
      assert W() == Apply(w, Step(k, IDLE));
    }

    method CheckFence(k: string, a: Attempt, ghost P: World -> bool) returns (next: Next)
      requires Holds(k, a) && a.pc.Unfenced? && Preserved(k, P) && P(W())
      modifies this`active, this`log
      ensures P(W()) && At(k, a, next)
      ensures next.To? ==> next.pc.Fenced?
    {
      ghost var w := W();
      var stale := fences.Check(a.req.machine, a.req.generation);
      next := if stale then Out(StaleGeneration) else To(Fenced);
      Note(k, a, next);
      assert W() == Apply(w, Step(k, IDLE));
    }

    method PersistCredential(a: Attempt, w: Write) returns (ok: bool)
      modifies creds
      ensures (W(), ok) == StoreCredential(old(W()), a, w)
    {
      if a.digest == "" {
        return true;
      }
      if a.req.kind.Create? {
        ok := creds.Ensure(a.req.machine, Credential(a.req.execution, a.digest), w);
      } else if a.req.kind.Replacement? {
        ok := creds.Set(a.req.machine, Credential(a.req.execution, a.digest), w);
      } else {
        ok := true;
      }
    }

    /** A completed record answers; create also restores its credential. */
    method AnswerReplay(k: string, a: Attempt, c: Choice, ghost P: World -> bool) returns (next: Next)
      requires Holds(k, a) && a.pc.Replay? && Preserved(k, P) && P(W())
      modifies this`active, this`log, creds
      ensures P(W()) && At(k, a, next)
      ensures next.Out?
    {
      ghost var w := W();
      var ok := true;
      if a.req.kind.Create? {
        ok := PersistCredential(a, c.write);
      }
      next := Out(if ok then Ok(a.pc.result) else Failed);
      Note(k, a, next);
      assert W() == Apply(w, Step(k, c));
    }

    method BeginClaim(k: string, a: Attempt, c: Choice, ghost P: World -> bool) returns (next: Next)
      requires Holds(k, a) && a.pc.Fenced? && Preserved(k, P) && P(W())
      modifies this`active, this`log, ledger
      ensures P(W()) && At(k, a, next)
      ensures next.To? ==> if Claims(a.req.kind) then next.pc.Replay? || next.pc.Claimed? else next.pc.Ready?
    {
      ghost var w := W();
      if !Claims(a.req.kind) {
        next := To(Ready);
      } else {
        var b := ledger.Begin(a.req, c.now, c.write);
        match b {
          case BeginConflict => next := Out(Conflict);
          case BeginFailed => next := Out(Failed);
          case Fresh => next := To(Claimed(false));
          case Existing(rec) => next := To(if rec.Done() then Replay(rec.result) else Claimed(true));
        }
      }
      Note(k, a, next);
      assert W() == Apply(w, Step(k, c));
    }

    method Recover(k: string, a: Attempt, c: Choice, ghost P: World -> bool) returns (next: Next)
      requires Holds(k, a) && a.pc.Claimed? && Preserved(k, P) && P(W())
      modifies this`active, this`log
      ensures P(W()) && At(k, a, next)
      ensures next.To? ==> next.pc.Ready? || next.pc.Effected?
    {
      ghost var w := W();
      if !a.pc.existed {
        next := To(Ready);
      } else if c.fx.Refused? {
        next := Out(Failed);
      } else {
        var tagged := a.req.machine in inventory
          && inventory[a.req.machine].execution == a.req.execution
          && inventory[a.req.machine].generation == a.req.generation;
        var found := if a.req.kind.Create? then tagged
                     else if a.req.kind.Replacement? then tagged && c.found
                     else c.found;
        next := To(if found then Effected(c.payload) else Ready);
      }
      Note(k, a, next);
      assert W() == Apply(w, Step(k, c));
    }

    method Effect(k: string, a: Attempt, c: Choice, ghost P: World -> bool) returns (next: Next)
      requires Holds(k, a) && a.pc.Ready? && Preserved(k, P) && P(W())
      modifies this`inventory, this`active, this`log
      ensures P(W()) && At(k, a, next)
      ensures next.To? ==> if a.req.kind.DeleteMachine? then next.pc.Removed? else next.pc.Effected?
    {
      ghost var w := W();
      if c.fx.Refused? {
        next := Out(Failed);
      } else {
        log := log + [Ran(a.req)];
        var taken := a.req.machine in inventory;
        var inst := if taken then inventory[a.req.machine] else a.req;
        if taken && a.req.kind.Create? {
          next := Out(Failed);
        } else if taken && a.req.kind.DeleteMachine? && a.req.execution != "" && inst.execution != a.req.execution
                  && (inst.generation == 0 || a.req.generation <= inst.generation) {
          next := Out(Failed);
        } else if c.fx.Broke? {
          inventory := AfterEffect(inventory, a.req, c.fx.residue);
          next := Out(Failed);
        } else {
          inventory := AfterEffect(inventory, a.req, Applied);
          next := To(if a.req.kind.DeleteMachine? then Removed else Effected(c.payload));
        }
      }
      Note(k, a, next);
      assert W() == Apply(w, Step(k, c));
    }

    method AdvanceFence(k: string, a: Attempt, c: Choice, ghost P: World -> bool) returns (next: Next)
      requires Holds(k, a) && a.pc.Effected? && Preserved(k, P) && P(W())
      modifies this`active, this`log, fences
      ensures P(W()) && At(k, a, next)
      ensures next.To? ==> next.pc.Advanced?
    {
      ghost var w := W();
      var ok := true;
      if Advances(a.req.kind) {
        ok := fences.Advance(a.req, c.now, c.write);
      }
      next := if ok then To(Advanced(a.pc.result)) else Out(Failed);
      Note(k, a, next);
      assert W() == Apply(w, Step(k, c));
    }

    method StoreDigest(k: string, a: Attempt, c: Choice, ghost P: World -> bool) returns (next: Next)
      requires Holds(k, a) && a.pc.Advanced? && Preserved(k, P) && P(W())
      modifies this`active, this`log, creds
      ensures P(W()) && At(k, a, next)
      ensures next.To? ==> next.pc.Credentialed?
    {
      ghost var w := W();
      var ok := PersistCredential(a, c.write);
      next := if ok then To(Credentialed(a.pc.result)) else Out(Failed);
      Note(k, a, next);
      assert W() == Apply(w, Step(k, c));
    }

    method CompleteRecord(k: string, a: Attempt, c: Choice, ghost P: World -> bool) returns (next: Next)
      requires Holds(k, a) && a.pc.Credentialed? && Preserved(k, P) && P(W())
      modifies this`active, this`log, ledger
      ensures P(W()) && At(k, a, next)
      ensures next.Out?
    {
      ghost var w := W();
      if c.fx.Refused? {
        next := Out(Failed);
      } else {
        var e: Ended;
        if a.req.kind.CopyTo? {
          e := ledger.Put(a.req, a.pc.result, c.now, c.write);
        } else {
          e := ledger.Complete(a.req, a.pc.result, c.write);
        }
        next := Out(ReplyOf(e, a.pc.result));
      }
      Note(k, a, next);
      assert W() == Apply(w, Step(k, c));
    }

    method DropCredential(k: string, a: Attempt, c: Choice, ghost P: World -> bool) returns (next: Next)
      requires Holds(k, a) && a.pc.Removed? && Preserved(k, P) && P(W())
      modifies this`active, this`log, creds
      ensures P(W()) && At(k, a, next)
      ensures next == To(Dropped)
    {
      ghost var w := W();
      creds.Drop(a.req.machine, c.write);
      next := To(Dropped);
      Note(k, a, next);
      assert W() == Apply(w, Step(k, c));
    }

    method PutRecord(k: string, a: Attempt, c: Choice, ghost P: World -> bool) returns (next: Next)
      requires Holds(k, a) && a.pc.Dropped? && Preserved(k, P) && P(W())
      modifies this`active, this`log, ledger
      ensures P(W()) && At(k, a, next)
      ensures next.To? ==> next.pc.Recorded?
    {
      ghost var w := W();
      var e := ledger.Put(a.req, "{}", c.now, c.write);
      next := if e.Ended? then To(Recorded) else Out(ReplyOf(e, "{}"));
      Note(k, a, next);
      assert W() == Apply(w, Step(k, c));
    }

    method PruneRecords(k: string, a: Attempt, c: Choice, ghost P: World -> bool) returns (next: Next)
      requires Holds(k, a) && a.pc.Recorded? && Preserved(k, P) && P(W())
      modifies this`active, this`log, ledger
      ensures P(W()) && At(k, a, next)
      ensures next == To(Pruned)
    {
      ghost var w := W();
      ledger.PruneMachineExcept(a.req.machine, a.req.op, c.write);
      log := log + [Forgot(a.req.machine)];
      next := To(Pruned);
      Note(k, a, next);
      assert W() == Apply(w, Step(k, c));
    }

    method AdvanceDeleted(k: string, a: Attempt, c: Choice, ghost P: World -> bool) returns (next: Next)
      requires Holds(k, a) && a.pc.Pruned? && Preserved(k, P) && P(W())
      modifies this`active, this`log, fences
      ensures P(W()) && At(k, a, next)
      ensures next.Out?
    {
      ghost var w := W();
      var ok := fences.Advance(a.req, c.now, c.write);
      next := Out(if ok then Ok("{}") else Failed);
      Note(k, a, next);
      assert W() == Apply(w, Step(k, c));
    }

    // ---- the run functions ----

    /** completeCreate and completeClaimed: fence advance, credential, durable
        completion, in this order. */
    method Finish(k: string, effected: Attempt, cs: seq<Choice>, ghost P: World -> bool) returns (reply: Reply)
      requires Holds(k, effected) && effected.pc.Effected? && |cs| == 3 && Preserved(k, P) && P(W())
      modifies this`active, this`log, ledger, fences, creds
      ensures P(W()) && At(k, effected, Out(reply))
    {
      var a := effected;
      var next: Next;
      next := AdvanceFence(k, a, cs[0], P);
      if next.Out? {
        return next.reply;
      }
      a := a.(pc := next.pc);
      next := StoreDigest(k, a, cs[1], P);
      if next.Out? {
        return next.reply;
      }
      a := a.(pc := next.pc);
      next := CompleteRecord(k, a, cs[2], P);
      reply := next.reply;
    }

    /** The opening the run functions share: completed records answer, stale
        generations are rejected, and only then is a claim written. */
    method Admit(k: string, start: Attempt, c: Choice, ghost P: World -> bool) returns (next: Next)
      requires Holds(k, start) && start.pc.Start? && Preserved(k, P) && P(W())
      modifies this`active, this`log, ledger, creds
      ensures P(W()) && At(k, start, next)
      ensures next.To? ==> if Claims(start.req.kind) then next.pc.Claimed? else next.pc.Ready?
    {
      var a := start;
      next := CheckLedger(k, a, P);
      if next.Out? {
        return;
      }
      a := a.(pc := next.pc);
      if a.pc.Replay? {
        next := AnswerReplay(k, a, c, P);
        return;
      }
      next := CheckFence(k, a, P);
      if next.Out? {
        return;
      }
      a := a.(pc := next.pc);
      next := BeginClaim(k, a, c, P);
      if next.To? && next.pc.Replay? {
        next := AnswerReplay(k, a.(pc := next.pc), c, P);
      }
    }

    /** RunCreateMachine, and runClaimed for lifecycle, replacement and machine
        mutations, which make the same calls. */
    method RunClaimed(req: Request, digest: string, cs: seq<Choice>, ghost P: World -> bool) returns (reply: Reply)
      requires Claims(req.kind) && MayEnter(W(), req) && |cs| == 6 && Preserved(KeyOf(req), P)
      requires P(Apply(W(), Enter(req, digest)))
      modifies this, ledger, fences, creds
      ensures P(W()) && KeyOf(req) !in active && log != [] && log[|log|-1] == Returned(req, reply)
    {
      var k := KeyOf(req);
      var a := Attempt(req, digest, Start);
      Lock(k, a, P);
      var next := Admit(k, a, cs[0], P);
      if next.Out? {
        return next.reply;
      }
      a := a.(pc := next.pc);
      next := Recover(k, a, cs[1], P);
      if next.Out? {
        return next.reply;
      }
      a := a.(pc := next.pc);
      if a.pc.Ready? {
        next := Effect(k, a, cs[2], P);
        if next.Out? {
          return next.reply;
        }
        a := a.(pc := next.pc);
      }
      reply := Finish(k, a, cs[3..], P);
    }

    /** RunCopyTo: no claim; the completed record is put at the end. */
    method RunCopyTo(req: Request, cs: seq<Choice>, ghost P: World -> bool) returns (reply: Reply)
      requires req.kind.CopyTo? && MayEnter(W(), req) && |cs| == 5 && Preserved(KeyOf(req), P)
      requires P(Apply(W(), Enter(req, "")))
      modifies this, ledger, fences, creds
      ensures P(W()) && KeyOf(req) !in active && log != [] && log[|log|-1] == Returned(req, reply)
    {
      var k := KeyOf(req);
      var a := Attempt(req, "", Start);
      Lock(k, a, P);
      var next := Admit(k, a, cs[0], P);
      if next.Out? {
        return next.reply;
      }
      a := a.(pc := next.pc);
      next := Effect(k, a, cs[1], P);
      if next.Out? {
        return next.reply;
      }
      a := a.(pc := next.pc);
      reply := Finish(k, a, cs[2..], P);
    }

    /** The closing of a machine delete: credential drop, completed record, prune,
        and the fence advance last. */
    method FinishDelete(k: string, removed: Attempt, cs: seq<Choice>, ghost P: World -> bool) returns (reply: Reply)
      requires Holds(k, removed) && removed.pc.Removed? && |cs| == 4 && Preserved(k, P) && P(W())
      modifies this`active, this`log, ledger, fences, creds
      ensures P(W()) && At(k, removed, Out(reply))
    {
      var a := removed;
      var next: Next;
      next := DropCredential(k, a, cs[0], P);
      a := a.(pc := next.pc);
      next := PutRecord(k, a, cs[1], P);
      if next.Out? {
        return next.reply;
      }
      a := a.(pc := next.pc);
      next := PruneRecords(k, a, cs[2], P);
      a := a.(pc := next.pc);
      next := AdvanceDeleted(k, a, cs[3], P);
      reply := next.reply;
    }

    /** RunDeleteMachine: the unlocked replay check, and only if it finds no completed
        record the lock and the attempt. */
    method RunDeleteMachine(req: Request, cs: seq<Choice>, ghost P: World -> bool) returns (reply: Reply)
      requires req.kind.DeleteMachine? && KeyOf(req) !in active && |cs| == 6 && Preserved(KeyOf(req), P) && Opens(req, P)
      requires P(W())
      modifies this, ledger, fences, creds
      ensures P(W()) && KeyOf(req) !in active && log != [] && log[|log|-1] == Returned(req, reply)
      ensures old(req.op in ledger.records && ledger.records[req.op].hash == req && ledger.records[req.op].Done()) ==>
        && reply == Ok(old(ledger.records)[req.op].result) && inventory == old(inventory)
        && fences.State() == old(fences.State()) && ledger.State() == old(ledger.State()) && creds.State() == old(creds.State())
    {
      var early := CheckUnlocked(req, P);
      if early.Some? {
        return early.value;
      }
      reply := DeleteLocked(req, cs, P);
    }

    method DeleteLocked(req: Request, cs: seq<Choice>, ghost P: World -> bool) returns (reply: Reply)
      requires req.kind.DeleteMachine? && MayEnter(W(), req) && |cs| == 6 && Preserved(KeyOf(req), P) && Opens(req, P)
      requires P(W())
      modifies this, ledger, fences, creds
      ensures P(W()) && KeyOf(req) !in active && log != [] && log[|log|-1] == Returned(req, reply)
    {
      var k := KeyOf(req);
      var a := Attempt(req, "", Start);
      Lock(k, a, P);
      var next := Admit(k, a, cs[0], P);
      if next.Out? {
        return next.reply;
      }
      a := a.(pc := next.pc);
      next := Effect(k, a, cs[1], P);
      if next.Out? {
        return next.reply;
      }
      a := a.(pc := next.pc);
      reply := FinishDelete(k, a, cs[2..], P);
    }
  }
}
