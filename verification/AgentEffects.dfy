/** No success without its effect: what every completed record and every success of the
    mutation protocol goes back to. */
module AgentEffects {
  import opened AgentState
  import opened AgentProtocol
  import opened AgentSafety
  import opened Traces

  /** The event is the effect of the request going through, or the recovery of its unfinished
      claim finding it done. */
  predicate Performs(w: World, e: Event, req: Request) {
    && e.Step? && e.key in w.active && w.active[e.key].req == req && !e.choice.fx.Refused?
    && match w.active[e.key].pc
       case Ready => e.choice.fx.Succeeded? && !Rejects(w, req)
       case Claimed(existed) => existed && FoundDone(w, req, e.choice)
       case _ => false
  }

  ghost predicate Performed(es: seq<Event>, req: Request) {
    Occurred(Apply, INIT, es, 0, (w, e) => Performs(w, e, req))
  }

  lemma PerformedNext(es: seq<Event>, e: Event, req: Request)
    ensures Performed(es + [e], req) <==> Performed(es, req) || Performs(Run(INIT, es), e, req)
  {
    OccurredNext(Apply, INIT, es + [e], 0, (w, e) => Performs(w, e, req));
    assert (es + [e])[..|es|] == es;
  }

  /** The attempt goes by an effect that is in place. */
  predicate Past(pc: Pc) {
    !(pc.Start? || pc.Unfenced? || pc.Fenced? || pc.Claimed? || pc.Ready?)
  }

  ghost predicate HoldersPerformed(es: seq<Event>, active: map<string, Attempt>) {
    forall k :: k in active ==>
      && (Past(active[k].pc) ==> Performed(es, active[k].req))
      && (active[k].pc.Claimed? ==> !active[k].req.kind.CopyTo? && !active[k].req.kind.DeleteMachine?)
  }

  ghost predicate RecordsPerformed(es: seq<Event>, records: map<string, Record>) {
    forall id :: id in records && records[id].Done() ==> Performed(es, records[id].hash)
  }

  ghost predicate LogPerformed(es: seq<Event>, log: seq<Entry>) {
    forall i :: 0 <= i < |log| && log[i].Returned? && log[i].reply.Ok? ==> Performed(es, log[i].req)
  }

  ghost predicate AllPerformed(es: seq<Event>, w: World) {
    && HoldersPerformed(es, w.active) && RecordsPerformed(es, w.ledger.mem) && RecordsPerformed(es, w.ledger.disk)
    && LogPerformed(es, w.log)
  }

  /** The request has a completed record in memory. */
  predicate Closed(l: LedgerStore, req: Request) {
    req.op in l.mem && l.mem[req.op].hash == req && l.mem[req.op].Done()
  }

  lemma DoPerforms(w: World, k: string, a: Attempt, c: Choice)
    requires k in w.active && w.active[k] == a
    requires a.pc.Claimed? ==> !a.req.kind.CopyTo? && !a.req.kind.DeleteMachine?
    ensures var next := Do(w, a, c).1;
      && (next.To? && Past(next.pc) ==> Past(a.pc) || Performs(w, Step(k, c), a.req) || Closed(w.ledger, a.req))
      && (next.To? && next.pc.Claimed? ==> !a.req.kind.CopyTo? && !a.req.kind.DeleteMachine?)
      && (next.Out? && next.reply.Ok? ==> Past(a.pc))
  {
  }

  lemma DoWritesLate(w: World, a: Attempt, c: Choice, id: string)
    requires !Past(a.pc)
    ensures var l := Do(w, a, c).0.ledger;
      && (id in l.mem && l.mem[id].Done() ==> id in w.ledger.mem && l.mem[id] == w.ledger.mem[id])
      && (id in l.disk && l.disk[id].Done() ==>
            (id in w.ledger.disk && l.disk[id] == w.ledger.disk[id]) || (id in w.ledger.mem && l.disk[id] == w.ledger.mem[id]))
  {
  }

  lemma StaysPerformed(es: seq<Event>, e: Event, w: World)
    requires AllPerformed(es, w)
    ensures AllPerformed(es + [e], w)
  {
    forall req | Performed(es, req) ensures Performed(es + [e], req) {
      PerformedNext(es, e, req);
    }
  }

  lemma StepRecords(es: seq<Event>, k: string, c: Choice)
    requires var w := Run(INIT, es); k in w.active && AllPerformed(es, w)
    ensures var l := Do(Run(INIT, es), Run(INIT, es).active[k], c).0.ledger;
      RecordsPerformed(es, l.mem) && RecordsPerformed(es, l.disk)
  {
    var w := Run(INIT, es);
    var a := w.active[k];
    var l := Do(w, a, c).0.ledger;
    forall id | id in l.mem && l.mem[id].Done() ensures Performed(es, l.mem[id].hash) {
      if Past(a.pc) { DoHasOrigin(w, a, c, id); } else { DoWritesLate(w, a, c, id); }
    }
    forall id | id in l.disk && l.disk[id].Done() ensures Performed(es, l.disk[id].hash) {
      if Past(a.pc) { DoHasOrigin(w, a, c, id); } else { DoWritesLate(w, a, c, id); }
    }
  }

  lemma StepHolders(es: seq<Event>, k: string, c: Choice)
    requires var w := Run(INIT, es); k in w.active && AllPerformed(es, w) && AllPerformed(es + [Step(k, c)], w)
    ensures HoldersPerformed(es + [Step(k, c)], Apply(Run(INIT, es), Step(k, c)).active)
  {
    var w := Run(INIT, es);
    DoPerforms(w, k, w.active[k], c);
    PerformedNext(es, Step(k, c), w.active[k].req);
    DoLeavesActive(w, w.active[k], c);
  }

  lemma StepLog(es: seq<Event>, k: string, c: Choice)
    requires var w := Run(INIT, es); k in w.active && AllPerformed(es, w)
    ensures LogPerformed(es, Apply(Run(INIT, es), Step(k, c)).log)
  {
    var w := Run(INIT, es);
    var a := w.active[k];
    DoPerforms(w, k, a, c);
    StepAppends(w, k, c);
    var log, ext := Apply(w, Step(k, c)).log, Appended(a, c, Do(w, a, c).1);
    forall i | 0 <= i < |log| && log[i].Returned? && log[i].reply.Ok? ensures Performed(es, log[i].req) {
      if i >= |w.log| {
        assert log[i] == ext[i - |w.log|];
      }
    }
  }

  lemma StepPerforms(es: seq<Event>, k: string, c: Choice)
    requires k in Run(INIT, es).active && AllPerformed(es, Run(INIT, es))
    ensures AllPerformed(es + [Step(k, c)], Apply(Run(INIT, es), Step(k, c)))
  {
    var w, e := Run(INIT, es), Step(k, c);
    var w' := Apply(w, e);
    StepRecords(es, k, c);
    StepLog(es, k, c);
    var base := w'.(active := w.active);
    StaysPerformed(es, e, w);
    assert AllPerformed(es, base);
    StaysPerformed(es, e, base);
    StepHolders(es, k, c);
  }

  lemma OtherPerforms(es: seq<Event>, e: Event)
    requires !e.Step? && AllPerformed(es, Run(INIT, es))
    ensures AllPerformed(es, Apply(Run(INIT, es), e))
  {
  }

  lemma {:induction false} RunPerforms(es: seq<Event>)
    ensures AllPerformed(es, Run(INIT, es))
  {
    if es != [] {
      var front, e := es[..|es| - 1], es[|es| - 1];
      assert es == front + [e];
      RunPerforms(front);
      if e.Step? && e.key in Run(INIT, front).active {
        StepPerforms(front, e.key, e.choice);
      } else {
        if !e.Step? { OtherPerforms(front, e); }
        StaysPerformed(front, e, Apply(Run(INIT, front), e));
      }
    }
  }

  /** Every success of every run, of any kind, and every completed record on disk goes back
      to an earlier step of the run: the effect of that very request went through, or the
      recovery of its unfinished claim found it done. */
  lemma SuccessHadEffect(es: seq<Event>, req: Request, result: string)
    requires
      || Returned(req, Ok(result)) in Run(INIT, es).log
      || (req.op in Run(INIT, es).ledger.disk && Run(INIT, es).ledger.disk[req.op].Done()
          && Run(INIT, es).ledger.disk[req.op].hash == req)
    ensures exists i :: 0 <= i < |es| && Performs(Run(INIT, es[..i]), es[i], req)
  {
    RunPerforms(es);
    assert Performed(es, req);
    var q := (w: World, e: Event) => Performs(w, e, req);
    var i :| 0 <= i < |es| && q(Fold(Apply, INIT, es[..i]), es[i]);
    assert Performs(Run(INIT, es[..i]), es[i], req);
  }
}
