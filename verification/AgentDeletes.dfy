/** Resource and machine-scoped deletes (runDelete in internal/agent/mutation/protocol.go):
    they claim first, check the fence second and never advance it. */
module AgentDeletes {
  import opened AgentState
  import opened AgentStores

  /** What the attempt meets outside the stores: the answer of the lookup for an unfinished
      claim, the effect, and the two writes. */
  datatype Outside = Outside(lookupFails: bool, gone: bool, effectOk: bool, now: int, claim: Write, finish: Write)

  datatype Outcome = Deleted | Conflict | StaleGeneration | Failed

  /** The record of this very request. */
  predicate Known(l: LedgerStore, req: Request) {
    req.op in l.mem && l.mem[req.op].hash == req
  }

  predicate Finished(l: LedgerStore, req: Request) {
    Known(l, req) && l.mem[req.op].Done()
  }

  /** runDelete.  The effect runs only under a durable unfinished claim and, when the fence is
      checked, never with a stale generation; success means a durable completed record; a
      completed record answers without the effect.  The fences are not written. */
  method RunDelete(l: Ledger, f: Fences, req: Request, checkFence: bool, o: Outside) returns (out: Outcome, ran: bool)
    requires LedgerDominates(l.State())
    modifies l
    ensures LedgerDominates(l.State())
    ensures out.Deleted? ==> Finished(l.State(), req) && Finished(l.State().Reopen(), req)
    ensures Finished(old(l.State()), req) ==> out.Deleted? && !ran && l.State() == old(l.State())
    ensures ran ==>
      && !Finished(old(l.State()), req) && Known(l.State(), req) && Known(l.State().Reopen(), req)
      && (checkFence ==> !Stale(f.State(), req.machine, req.generation))
      && !(Known(old(l.State()), req) && o.gone)
    ensures out.StaleGeneration? <==>
      && checkFence && Stale(f.State(), req.machine, req.generation) && !Finished(old(l.State()), req)
      && Begin(old(l.State()), req, o.now, o.claim).1 !in {BeginConflict, BeginFailed}
    ensures out.StaleGeneration? ==> !ran && l.State() == Begin(old(l.State()), req, o.now, o.claim).0
  {
    LedgerCallsKeepDominance(l.State(), req, "{}", "", o.now, o.claim);
    var begun := l.Begin(req, o.now, o.claim);
    if begun == BeginConflict {
      return Conflict, false;
    }
    if begun == BeginFailed {
      return Failed, false;
    }
    if begun.Existing? && begun.record.Done() {
      return Deleted, false;
    }
    if checkFence {
      var stale := f.Check(req.machine, req.generation);
      if stale {
        return StaleGeneration, false;
      }
    }
    LedgerCallsKeepDominance(l.State(), req, "{}", "", o.now, o.finish);
    if begun.Existing? {
      if o.lookupFails {
        return Failed, false;
      }
      if o.gone {
        var ended := l.Complete(req, "{}", o.finish);
        return if ended.Ended? then Deleted else Failed, false;
      }
    }
    if !o.effectOk {
      return Failed, true;
    }
    var ended := l.Complete(req, "{}", o.finish);
    return if ended.Ended? then Deleted else Failed, true;
  }

  /** So a rejected stale delete leaves the ledger untouched exactly when its claim was there
      before; otherwise it leaves an unfinished claim behind. */
  lemma StaleDeleteClaims(l: LedgerStore, req: Request, now: int)
    requires !Finished(l, req) && (req.op in l.mem ==> Known(l, req))
    ensures Begin(l, req, now, Stored).0 == l <==> Known(l, req)
    ensures !Known(l, req) ==>
      var l' := Begin(l, req, now, Stored).0; Known(l', req) && Known(l'.Reopen(), req) && !l'.disk[req.op].Done()
  {
    if req.op !in l.mem {
      assert req.op in Begin(l, req, now, Stored).0.mem;
    }
  }
}
