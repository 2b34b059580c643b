/** The three stores as the agent runs them: maps changed in place, written to
    their file, and rolled back (ledger, fences) or kept (credentials) when the
    write fails.  Each method is proved equal to the operation of `AgentState`. */
module AgentStores {
  import opened AgentState
  import S = AgentState

  class Ledger {
    var records: map<string, Record>
    var file: map<string, Record>

    function State(): LedgerStore
      reads this
    {
      Store(records, file)
    }

    constructor ()
      ensures State() == Store(map[], map[])
    {
      records, file := map[], map[];
    }

    /** One attempt at the crash-safe file replacement. */
    method Persist(w: Write) returns (ok: bool)
      modifies this`file
      ensures ok == w.Stored?
      ensures file == if w.FailedOld? then old(file) else records
    {
      if !w.FailedOld? {
        file := records;
      }
      ok := w.Stored?;
    }

    method Begin(req: Request, now: int, w: Write) returns (r: Begun)
      modifies this
      ensures (State(), r) == S.Begin(old(State()), req, now, w)
    {
      if req.op in records {
        return if records[req.op].hash != req then BeginConflict else Existing(records[req.op]);
      }
      records := records[req.op := Record(req.machine, req, InProgress, "", now)];
      var ok := Persist(w);
      if !ok {
        records := records - {req.op};
        assert records == old(records);
        return BeginFailed;
      }
      return Fresh;
    }

    method Complete(req: Request, result: string, w: Write) returns (r: Ended)
      modifies this
      ensures (State(), r) == S.Complete(old(State()), req, result, w)
    {
      if req.op !in records {
        return EndFailed;
      }
      var rec := records[req.op];
      if rec.hash != req {
        return EndConflict;
      }
      if rec.Done() {
        return Ended;
      }
      records := records[req.op := rec.(status := Completed, result := result)];
      var ok := Persist(w);
      if !ok {
        records := records[req.op := rec];
        assert records == old(records);
        return EndFailed;
      }
      return Ended;
    }

    method Put(req: Request, result: string, now: int, w: Write) returns (r: Ended)
      modifies this
      ensures (State(), r) == S.Put(old(State()), req, result, now, w)
    {
      if req.op in records {
        r := Complete(req, result, w);
        return;
      }
      records := records[req.op := Record(req.machine, req, Completed, result, now)];
      var ok := Persist(w);
      if !ok {
        records := records - {req.op};
        assert records == old(records);
        return EndFailed;
      }
      return Ended;
    }

    /** Drop the machine's other records one by one, then write once. */
    method PruneMachineExcept(machine: string, keep: string, w: Write)
      modifies this
      ensures State() == PruneMachine(old(State()), machine, keep, w)
    {
      if machine == "" {
        return;
      }
      ghost var before := records;
      var todo := records.Keys;
      var removed := 0;
      while todo != {}
        modifies this`records
        invariant todo <= before.Keys
        invariant records == map id | id in before && (id in todo || before[id].machine != machine || id == keep) :: before[id]
        invariant removed == 0 <==> records == before
      {
        var id :| id in todo;
        todo := todo - {id};
        if records[id].machine == machine && id != keep {
          records := records - {id};
          removed := removed + 1;
        }
      }
      assert records == Surviving(before, machine, keep);
      if removed == 0 {
        return;
      }
      var _ := Persist(w);
    }

    method Claim(req: Request, result: string, now: int, w: Write) returns (r: Begun)
      modifies this
      ensures (State(), r) == S.Claim(old(State()), req, result, now, w)
    {
      if req.op in records {
        return if records[req.op].hash != req then BeginConflict else Existing(records[req.op]);
      }
      records := records[req.op := Record(req.machine, req, Completed, result, now)];
      var ok := Persist(w);
      if !ok {
        records := records - {req.op};
        assert records == old(records);
        return BeginFailed;
      }
      return Fresh;
    }

    /** Drop the records created before the cutoff, then write once. */
    method PruneBefore(cutoff: int, w: Write)
      modifies this
      ensures State() == PruneOld(old(State()), cutoff, w)
    {
      ghost var before := records;
      var todo := records.Keys;
      var removed := 0;
      while todo != {}
        modifies this`records
        invariant todo <= before.Keys
        invariant records == map id | id in before && (id in todo || before[id].createdAt >= cutoff) :: before[id]
        invariant removed == 0 <==> records == before
      {
        var id :| id in todo;
        todo := todo - {id};
        if records[id].createdAt < cutoff {
          records := records - {id};
          removed := removed + 1;
        }
      }
      if removed != 0 {
        var _ := Persist(w);
      }
    }

    method Restart()
      modifies this
      ensures State() == old(State()).Reopen()
    {
      records := file;
    }
  }

  class Fences {
    var entries: map<string, Fence>
    var file: map<string, Fence>

    function State(): FenceStore
      reads this
    {
      Store(entries, file)
    }

    constructor ()
      ensures State() == Store(map[], map[])
    {
      entries, file := map[], map[];
    }

    method Check(machine: string, generation: nat) returns (stale: bool)
      ensures stale <==> Stale(State(), machine, generation)
    {
      stale := machine in entries && generation < entries[machine].generation;
    }

    method Advance(req: Request, now: int, w: Write) returns (ok: bool)
      modifies this
      ensures (State(), ok) == S.Advance(old(State()), req, now, w)
    {
      var had := req.machine in entries;
      if had && req.generation < entries[req.machine].generation {
        return true;
      }
      ghost var before := entries;
      if had && req.generation == entries[req.machine].generation {
        var e := entries[req.machine];
        entries := entries[req.machine := e.(execution := req.execution, updatedAt := now)];
        ok := Persist(w);
        if !ok {
          entries := entries[req.machine := e];
          assert entries == before;
        }
        return;
      }
      var e := if had then entries[req.machine] else Fence(0, "", 0);
      entries := entries[req.machine := Fence(req.generation, req.execution, now)];
      ok := Persist(w);
      if !ok {
        if had {
          entries := entries[req.machine := e];
        } else {
          entries := entries - {req.machine};
        }
        assert entries == before;
      }
    }

    method Persist(w: Write) returns (ok: bool)
      modifies this`file
      ensures ok == w.Stored?
      ensures file == if w.FailedOld? then old(file) else entries
    {
      if !w.FailedOld? {
        file := entries;
      }
      ok := w.Stored?;
    }

    /** Drop the aged marks of machines that are not live, then write once. */
    method PruneBeforeUnlessLive(cutoff: int, live: set<string>, w: Write)
      modifies this
      ensures State() == PruneFences(old(State()), cutoff, live, w)
    {
      ghost var before := entries;
      var todo := entries.Keys;
      var removed := 0;
      while todo != {}
        modifies this`entries
        invariant todo <= before.Keys
        invariant entries == map m | m in before && (m in todo || m in live || before[m].updatedAt >= cutoff) :: before[m]
        invariant removed == 0 <==> entries == before
      {
        var m :| m in todo;
        todo := todo - {m};
        if m !in live && entries[m].updatedAt < cutoff {
          entries := entries - {m};
          removed := removed + 1;
        }
      }
      if removed != 0 {
        var _ := Persist(w);
      }
    }

    method Restart()
      modifies this
      ensures State() == old(State()).Reopen()
    {
      entries := file;
    }
  }

  class Creds {
    var entries: map<string, Credential>
    var file: map<string, Credential>

    function State(): CredStore
      reads this
    {
      Store(entries, file)
    }

    constructor ()
      ensures State() == Store(map[], map[])
    {
      entries, file := map[], map[];
    }

    method Set(machine: string, c: Credential, w: Write) returns (ok: bool)
      modifies this
      ensures (State(), ok) == SetCred(old(State()), machine, c, w)
    {
      entries := entries[machine := c];
      if !w.FailedOld? {
        file := entries;
      }
      ok := w.Stored?;
    }

    method Ensure(machine: string, c: Credential, w: Write) returns (ok: bool)
      modifies this
      ensures (State(), ok) == EnsureCred(old(State()), machine, c, w)
    {
      if machine in entries && entries[machine] == c {
        return true;
      }
      ok := Set(machine, c, w);
    }

    method Drop(machine: string, w: Write)
      modifies this
      ensures State() == DropCred(old(State()), machine, w)
    {
      if machine !in entries {
        return;
      }
      entries := entries - {machine};
      if !w.FailedOld? {
        file := entries;
      }
    }

    method Restart()
      modifies this
      ensures State() == old(State()).Reopen()
    {
      entries := file;
    }
  }
}
