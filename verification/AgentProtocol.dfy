/** The fenced mutation protocol (internal/agent/mutation/protocol.go) as a step
    machine.  An attempt holds the lock of its serialization key; each step is
    one call the protocol makes under that lock; attempts under different keys
    interleave; a crash may fall between any two steps.  What the outside world
    decides (write outcomes, effect results, the clock) is part of the event,
    so a run is a sequence of events and "every run" is every such sequence. */
module AgentProtocol {
  import opened AgentState
  import opened Base
  import opened Traces

  datatype Reply = Ok(result: string) | Conflict | StaleGeneration | Failed

  /** Where an attempt stands. */
  datatype Pc =
    | Start                          // lock taken, ledger not yet consulted
    | Replay(result: string)         // completed record found
    | Unfenced                       // no completed record of this request
    | Fenced                         // generation accepted
    | Claimed(existed: bool)         // durable claim held
    | Ready                          // the next step runs Effect
    | Effected(result: string)       // effect in place, run or adopted
    | Advanced(result: string)       // high-water mark raised
    | Credentialed(result: string)   // credential stored
    | Removed                        // machine delete: instance gone
    | Dropped                        // machine delete: credential dropped
    | Recorded                       // machine delete: completed record written
    | Pruned                         // machine delete: other records dropped

  datatype Attempt = Attempt(req: Request, digest: string, pc: Pc)

  /** History kept for stating properties; no step reads it. */
  datatype Entry = Ran(req: Request) | Returned(req: Request, reply: Reply) | Forgot(machine: string)

  /** `inventory` maps a machine name to the request that made its instance:
      its execution and generation are the instance's tags.  `passed` holds the
      machine deletes that found no completed record and wait for their lock. */
  datatype World = World(
    ledger: LedgerStore, fences: FenceStore, creds: CredStore,
    inventory: map<string, Request>, passed: multiset<Request>,
    active: map<string, Attempt>, log: seq<Entry>)

  /** What a failed effect may leave behind. */
  datatype Residue = Untouched | Applied | Gone

  datatype Fx = Refused | Broke(residue: Residue) | Succeeded

  /** `payload` is the value an effect or a recovery returns, `found` the answer
      of a recovery that looks at more than the instance tags. */
  datatype Choice = Choice(write: Write, fx: Fx, payload: string, found: bool, now: int)

  /** `Check` is the ledger lookup a machine delete makes before it takes its
      lock; `Enter` is the lock. */
  datatype Event =
    | Check(req: Request)
    | Enter(req: Request, digest: string)
    | Step(key: string, choice: Choice)
    | Crash

  const INIT := World(Store(map[], map[]), Store(map[], map[]), Store(map[], map[]), map[], multiset{}, map[], [])

  /** A mutation with a serialization key of its own. */
  predicate Keyed(req: Request) {
    req.kind.MachineMutation? && req.key != ""
  }

  function KeyOf(req: Request): string {
    if Keyed(req) then req.key else req.machine
  }

  predicate Claims(kind: Kind) {
    kind.Create? || kind.Lifecycle? || kind.Replacement? || kind.MachineMutation?
  }

  predicate Advances(kind: Kind) {
    kind.Create? || kind.Lifecycle? || kind.Replacement? || kind.CopyTo?
  }

  /** RecoverMachine: the instance carries this execution and generation. */
  predicate Matches(w: World, req: Request) {
    && req.machine in w.inventory
    && w.inventory[req.machine].execution == req.execution
    && w.inventory[req.machine].generation == req.generation
  }

  /** Where a step leaves its attempt: at another point, or done with a reply. */
  datatype Next = To(pc: Pc) | Out(reply: Reply)

  function DoStart(w: World, a: Attempt): (World, Next) {
    var req := a.req;
    if req.kind.DeleteMachine? || req.op !in w.ledger.mem then (w, To(Unfenced))
    else if w.ledger.mem[req.op].hash != req then (w, Out(Conflict))
    else if w.ledger.mem[req.op].Done() then (w, To(Replay(w.ledger.mem[req.op].result)))
    else (w, To(Unfenced))
  }

  /** The credential step: create ensures, replacement overwrites. */
  function StoreCredential(w: World, a: Attempt, write: Write): (World, bool) {
    if a.digest == "" || !(a.req.kind.Create? || a.req.kind.Replacement?) then (w, true)
    else
      var c := Credential(a.req.execution, a.digest);
      var (s, ok) := if a.req.kind.Create? then EnsureCred(w.creds, a.req.machine, c, write)
                     else SetCred(w.creds, a.req.machine, c, write);
      (w.(creds := s), ok)
  }

  /** Only create rewrites its credential on a replay. */
  function DoReplay(w: World, a: Attempt, result: string, c: Choice): (World, Next) {
    if !a.req.kind.Create? then (w, Out(Ok(result)))
    else
      var (w', ok) := StoreCredential(w, a, c.write);
      (w', Out(if ok then Ok(result) else Failed))
  }

  function DoUnfenced(w: World, a: Attempt): (World, Next) {
    (w, if Stale(w.fences, a.req.machine, a.req.generation) then Out(StaleGeneration) else To(Fenced))
  }

  function DoFenced(w: World, a: Attempt, c: Choice): (World, Next) {
    if !Claims(a.req.kind) then (w, To(Ready))
    else
      var (s, b) := Begin(w.ledger, a.req, c.now, c.write);
      (w.(ledger := s),
       match b
       case BeginConflict => Out(Conflict)
       case BeginFailed => Out(Failed)
       case Fresh => To(Claimed(false))
       case Existing(rec) => To(if rec.Done() then Replay(rec.result) else Claimed(true)))
  }

  /** An unfinished claim is first looked up in the inventory. */
  function DoClaimed(w: World, a: Attempt, existed: bool, c: Choice): (World, Next) {
    if !existed then (w, To(Ready))
    else if c.fx.Refused? then (w, Out(Failed))
    else
      var found := if a.req.kind.Create? then Matches(w, a.req)
                   else if a.req.kind.Replacement? then Matches(w, a.req) && c.found
                   else c.found;
      (w, To(if found then Effected(c.payload) else Ready))
  }

  /** The inventory after an effect that succeeded or left its residue. */
  function AfterEffect(inventory: map<string, Request>, req: Request, r: Residue): map<string, Request> {
    match req.kind
    case Create =>
      if r.Applied? && req.machine !in inventory then inventory[req.machine := req] else inventory
    case Replacement =>
      (match r
       case Applied => inventory[req.machine := req]
       case Gone => inventory - {req.machine}
       case Untouched => inventory)
    case DeleteMachine => if r.Untouched? then inventory else inventory - {req.machine}
    case _ => inventory
  }

  /** The runtime refuses a create whose name is taken, and a delete aimed at an
      execution that the instance's generation does not supersede. */
  predicate Rejects(w: World, req: Request) {
    && req.machine in w.inventory
    && var inst := w.inventory[req.machine];
       || req.kind.Create?
       || (req.kind.DeleteMachine? && req.execution != "" && inst.execution != req.execution
           && (inst.generation == 0 || req.generation <= inst.generation))
  }

  /** Run the effect, unless admission refuses it first. */
  function DoReady(w: World, a: Attempt, c: Choice): (World, Next) {
    if c.fx.Refused? then (w, Out(Failed))
    else
      var w' := w.(log := w.log + [Ran(a.req)]);
      if Rejects(w, a.req) then (w', Out(Failed))
      else if c.fx.Broke? then (w'.(inventory := AfterEffect(w.inventory, a.req, c.fx.residue)), Out(Failed))
      else
        (w'.(inventory := AfterEffect(w.inventory, a.req, Applied)),
         To(if a.req.kind.DeleteMachine? then Removed else Effected(c.payload)))
  }

  function DoEffected(w: World, a: Attempt, result: string, c: Choice): (World, Next) {
    if !Advances(a.req.kind) then (w, To(Advanced(result)))
    else
      var (s, ok) := Advance(w.fences, a.req, c.now, c.write);
      (w.(fences := s), if ok then To(Advanced(result)) else Out(Failed))
  }

  function DoAdvanced(w: World, a: Attempt, result: string, c: Choice): (World, Next) {
    var (w', ok) := StoreCredential(w, a, c.write);
    (w', if ok then To(Credentialed(result)) else Out(Failed))
  }

  function ReplyOf(e: Ended, result: string): Reply {
    match e case Ended => Ok(result) case EndConflict => Conflict case EndFailed => Failed
  }

  /** Encode the result (which may fail) and write it as the last step. */
  function DoCredentialed(w: World, a: Attempt, result: string, c: Choice): (World, Next) {
    if c.fx.Refused? then (w, Out(Failed))
    else
      var (s, e) := if a.req.kind.CopyTo? then Put(w.ledger, a.req, result, c.now, c.write)
                    else Complete(w.ledger, a.req, result, c.write);
      (w.(ledger := s), Out(ReplyOf(e, result)))
  }

  // Machine delete after its effect: drop the credential, record, prune, advance.

  function DoRemoved(w: World, a: Attempt, c: Choice): (World, Next) {
    (w.(creds := DropCred(w.creds, a.req.machine, c.write)), To(Dropped))
  }

  function DoDropped(w: World, a: Attempt, c: Choice): (World, Next) {
    var (s, e) := Put(w.ledger, a.req, "{}", c.now, c.write);
    (w.(ledger := s), if e.Ended? then To(Recorded) else Out(ReplyOf(e, "{}")))
  }

  function DoRecorded(w: World, a: Attempt, c: Choice): (World, Next) {
    (w.(ledger := PruneMachine(w.ledger, a.req.machine, a.req.op, c.write), log := w.log + [Forgot(a.req.machine)]), To(Pruned))
  }

  function DoPruned(w: World, a: Attempt, c: Choice): (World, Next) {
    var (s, ok) := Advance(w.fences, a.req, c.now, c.write);
    (w.(fences := s), Out(if ok then Ok("{}") else Failed))
  }

  function Do(w: World, a: Attempt, c: Choice): (World, Next) {
    match a.pc
    case Start => DoStart(w, a)
    case Replay(r) => DoReplay(w, a, r, c)
    case Unfenced => DoUnfenced(w, a)
    case Fenced => DoFenced(w, a, c)
    case Claimed(existed) => DoClaimed(w, a, existed, c)
    case Ready => DoReady(w, a, c)
    case Effected(r) => DoEffected(w, a, r, c)
    case Advanced(r) => DoAdvanced(w, a, r, c)
    case Credentialed(r) => DoCredentialed(w, a, r, c)
    case Removed => DoRemoved(w, a, c)
    case Dropped => DoDropped(w, a, c)
    case Recorded => DoRecorded(w, a, c)
    case Pruned => DoPruned(w, a, c)
  }

  function Settle(w: World, k: string, a: Attempt, next: Next): World {
    match next
    case To(pc) => w.(active := w.active[k := a.(pc := pc)])
    case Out(reply) => w.(active := w.active - {k}, log := w.log + [Returned(a.req, reply)])
  }

  function StepOf(w: World, k: string, c: Choice): World
    requires k in w.active
  {
    var (w', next) := Do(w, w.active[k], c);
    Settle(w', k, w.active[k], next)
  }

  /** The replay check of a machine delete, made without the lock: a completed
      record answers, and anything else lets the call go on to the lock. */
  function DoCheck(w: World, req: Request): World {
    if !req.kind.DeleteMachine? then w
    else if req.op in w.ledger.mem && w.ledger.mem[req.op].hash != req then w.(log := w.log + [Returned(req, Conflict)])
    else if req.op in w.ledger.mem && w.ledger.mem[req.op].Done() then
      w.(log := w.log + [Returned(req, Ok(w.ledger.mem[req.op].result))])
    else w.(passed := w.passed + multiset{req})
  }

  predicate MayEnter(w: World, req: Request) {
    KeyOf(req) !in w.active && (req.kind.DeleteMachine? ==> req in w.passed)
  }

  function DoEnter(w: World, req: Request, digest: string): World {
    w.(active := w.active[KeyOf(req) := Attempt(req, digest, Start)],
       passed := if req.kind.DeleteMachine? then w.passed - multiset{req} else w.passed)
  }

  /** An event that is not enabled changes nothing. */
  function Apply(w: World, e: Event): World {
    match e
    case Check(req) => DoCheck(w, req)
    case Enter(req, digest) => if MayEnter(w, req) then DoEnter(w, req, digest) else w
    case Step(k, c) => if k in w.active then StepOf(w, k, c) else w
    case Crash =>
      w.(ledger := w.ledger.Reopen(), fences := w.fences.Reopen(), creds := w.creds.Reopen(),
         passed := multiset{}, active := map[])
  }

  function Run(w: World, es: seq<Event>): World {
    Fold(Apply, w, es)
  }

  // ---- the invariant ----

  /** Every kind but machine mutations and machine deletes has moved the mark by the
      time its record is complete. */
  predicate Fencing(kind: Kind) {
    !kind.MachineMutation? && !kind.DeleteMachine?
  }

  /** The kinds that put an instance with their own tags and a credential in place. */
  predicate Placing(kind: Kind) {
    kind.Create? || kind.Replacement?
  }

  /** The law of the fences: a completed record of such a request has its generation at
      or below the machine's mark. */
  predicate RecordOk(id: string, rec: Record, f: FenceStore) {
    && rec.hash.op == id
    && rec.machine == rec.hash.machine
    && (rec.Done() && Fencing(rec.hash.kind) ==>
          rec.machine in f.mem && rec.hash.generation <= f.mem[rec.machine].generation)
  }

  ghost predicate RecordsOk(m: map<string, Record>, f: FenceStore) {
    forall id :: id in m ==> RecordOk(id, m[id], f)
  }

  ghost predicate LedgerOk(l: LedgerStore, f: FenceStore) {
    LedgerDominates(l) && RecordsOk(l.mem, f) && RecordsOk(l.disk, f)
  }

  /** Every instance present is covered by a claim of the request that made it. */
  ghost predicate Covered(inventory: map<string, Request>, records: map<string, Record>) {
    forall m :: m in inventory ==>
      && inventory[m].machine == m
      && inventory[m].op in records
      && records[inventory[m].op].hash == inventory[m]
  }

  /** The record written for this very request. */
  function Own(l: LedgerStore, req: Request): Option<Record> {
    if req.op in l.mem && l.mem[req.op].hash == req then Some(l.mem[req.op]) else None
  }

  /** All that an attempt for `req` can see: its own record and what is stored
      under its machine's name. */
  datatype View = View(record: Option<Record>, fence: Option<Fence>, instance: Option<Request>, cred: Option<Credential>) {
    predicate Held() {
      record.Some? && !record.value.Done()
    }

    predicate Unfinished() {
      record.Some? ==> !record.value.Done()
    }

    predicate Fresh(req: Request) {
      fence.Some? ==> fence.value.generation <= req.generation
    }

    predicate Matches(req: Request) {
      instance.Some? && instance.value.execution == req.execution && instance.value.generation == req.generation
    }
  }

  function ViewOf(w: World, req: Request): View {
    View(Own(w.ledger, req), Lookup(w.fences.mem, req.machine), Lookup(w.inventory, req.machine), Lookup(w.creds.mem, req.machine))
  }

  /** What the lock holder relies on at each program point. */
  predicate AttemptOk(v: View, a: Attempt) {
    var req := a.req;
    var claim := if Claims(req.kind) then v.Held() else req.kind.DeleteMachine? || v.Unfinished();
    var working := claim && !req.kind.DeleteMachine? && (Placing(req.kind) ==> v.Matches(req));
    var marked := Fencing(req.kind) ==> v.fence.Some? && v.fence.value.generation == req.generation;
    match a.pc
    case Start => true
    case Replay(r) => v.record.Some? && v.record.value.Done() && v.record.value.result == r
    case Unfenced => req.kind.DeleteMachine? || v.Unfinished()
    case Fenced => v.Fresh(req) && (req.kind.DeleteMachine? || v.Unfinished())
    case Claimed(existed) => Claims(req.kind) && claim && v.Fresh(req) && (!existed ==> v.instance != Some(req))
    case Ready => claim && v.Fresh(req) && (req.kind.Create? ==> v.instance != Some(req))
    case Effected(_) => working && v.Fresh(req)
    case Advanced(_) => working && marked
    case Credentialed(_) =>
      working && marked
      && (Placing(req.kind) && a.digest != "" ==> v.cred == Some(Credential(req.execution, a.digest)))
    case _ => req.kind.DeleteMachine? && v.Fresh(req) && v.instance.None? && (!a.pc.Removed? ==> v.cred.None?)
  }

  predicate Deleting(pc: Pc) {
    pc.Removed? || pc.Dropped? || pc.Recorded? || pc.Pruned?
  }

  /** A mutation with a serialization key of its own is not protected by the
      machine lock, so nothing is relied on for it. */
  predicate Admissible(w: World, a: Attempt) {
    if Keyed(a.req) then !Deleting(a.pc) else AttemptOk(ViewOf(w, a.req), a)
  }

  predicate HolderOk(w: World, k: string, a: Attempt) {
    && KeyOf(a.req) == k
    && Admissible(w, a)
  }

  ghost predicate ActiveOk(w: World) {
    forall k :: k in w.active ==> HolderOk(w, k, w.active[k])
  }

  ghost predicate StoresOk(w: World) {
    LedgerOk(w.ledger, w.fences) && FencesDominate(w.fences) && Covered(w.inventory, w.ledger.mem)
  }

  ghost predicate Inv(w: World) {
    StoresOk(w) && ActiveOk(w)
  }

  // Each ledger call touches the record of its own request, or (prune) the
  // records of its own machine.

  lemma LedgerCallsAreLocal(l: LedgerStore, req: Request, result: string, now: int, w: Write, r: Request)
    requires r != req
    ensures Own(Begin(l, req, now, w).0, r) == Own(l, r)
    ensures Own(Complete(l, req, result, w).0, r) == Own(l, r)
    ensures Own(Put(l, req, result, now, w).0, r) == Own(l, r)
  {
  }

  lemma PruneIsLocal(l: LedgerStore, f: FenceStore, req: Request, w: Write, r: Request)
    requires r.machine != req.machine && RecordsOk(l.mem, f)
    ensures Own(PruneMachine(l, req.machine, req.op, w), r) == Own(l, r)
  {
  }

  lemma CommitKeeps(l: LedgerStore, f: FenceStore, id: string, rec: Record, w: Write)
    requires LedgerOk(l, f) && RecordOk(id, rec, f)
    requires id in l.mem ==> !l.mem[id].Done() && l.mem[id].hash == rec.hash
    ensures LedgerOk(l.Commit(l.mem[id := rec], w), f)
  {
  }

  lemma EndKeeps(l: LedgerStore, f: FenceStore, req: Request, result: string, now: int, w: Write)
    requires LedgerOk(l, f)
    requires Fencing(req.kind) ==> req.machine in f.mem && req.generation <= f.mem[req.machine].generation
    ensures LedgerOk(Complete(l, req, result, w).0, f)
    ensures LedgerOk(Put(l, req, result, now, w).0, f)
  {
    if req.op in l.mem {
      if l.mem[req.op].hash == req && !l.mem[req.op].Done() {
        CommitKeeps(l, f, req.op, l.mem[req.op].(status := Completed, result := result), w);
      }
    } else {
      CommitKeeps(l, f, req.op, Record(req.machine, req, Completed, result, now), w);
    }
  }

  lemma PruneKeeps(l: LedgerStore, f: FenceStore, req: Request, w: Write)
    requires LedgerOk(l, f)
    ensures LedgerOk(PruneMachine(l, req.machine, req.op, w), f)
  {
  }

  lemma AdvanceKeeps(l: LedgerStore, f: FenceStore, req: Request, now: int, w: Write)
    requires LedgerOk(l, f) && FencesDominate(f)
    ensures LedgerOk(l, Advance(f, req, now, w).0) && FencesDominate(Advance(f, req, now, w).0)
  {
  }

  lemma CoverKept(inv: map<string, Request>, l: LedgerStore, req: Request, result: string, now: int, w: Write)
    requires Covered(inv, l.mem)
    ensures Covered(inv, Begin(l, req, now, w).0.mem)
    ensures Covered(inv, Complete(l, req, result, w).0.mem)
    ensures Covered(inv, Put(l, req, result, now, w).0.mem)
  {
  }

  lemma CoverPruned(inv: map<string, Request>, l: LedgerStore, f: FenceStore, req: Request, w: Write)
    requires Covered(inv, l.mem) && RecordsOk(l.mem, f) && req.machine !in inv
    ensures Covered(inv, PruneMachine(l, req.machine, req.op, w).mem)
  {
  }

  /** The points before the effect; the proofs below go in two halves. */
  predicate Early(pc: Pc) {
    pc.Start? || pc.Replay? || pc.Unfenced? || pc.Fenced? || pc.Claimed?
  }

  function ResidueOf(c: Choice): Residue {
    if c.fx.Broke? then c.fx.residue else Applied
  }

  predicate Outside(a: Attempt, r: Request) {
    r != a.req && (r.machine != a.req.machine || (Keyed(a.req) && !Deleting(a.pc)))
  }

  lemma EarlyIsLocal(w: World, a: Attempt, c: Choice, r: Request)
    requires Outside(a, r) && Early(a.pc)
    ensures ViewOf(Do(w, a, c).0, r) == ViewOf(w, r)
  {
    LedgerCallsAreLocal(w.ledger, a.req, "", c.now, c.write, r);
  }

  lemma EffectIsLocal(inv: map<string, Request>, req: Request, residue: Residue, machine: string)
    requires machine != req.machine || req.kind.MachineMutation?
    ensures Lookup(AfterEffect(inv, req, residue), machine) == Lookup(inv, machine)
  {
  }

  lemma EffectKeepsCover(inv: map<string, Request>, records: map<string, Record>, req: Request, residue: Residue)
    requires Covered(inv, records)
    requires req.kind.Create? || req.kind.Replacement? ==> req.op in records && records[req.op].hash == req
    ensures Covered(AfterEffect(inv, req, residue), records)
  {
  }

  lemma LateIsLocal(w: World, a: Attempt, c: Choice, r: Request)
    requires RecordsOk(w.ledger.mem, w.fences) && Outside(a, r) && !Early(a.pc)
    ensures ViewOf(Do(w, a, c).0, r) == ViewOf(w, r)
  {
    match a.pc
    case Credentialed(result) => LedgerCallsAreLocal(w.ledger, a.req, result, c.now, c.write, r);
    case Dropped => LedgerCallsAreLocal(w.ledger, a.req, "{}", c.now, c.write, r);
    case Recorded => PruneIsLocal(w.ledger, w.fences, a.req, c.write, r);
    case Ready =>
      EffectIsLocal(w.inventory, a.req, ResidueOf(c), r.machine);
    case _ =>
  }

  lemma EarlyKeepsHolder(w: World, a: Attempt, c: Choice)
    requires AttemptOk(ViewOf(w, a.req), a) && !Keyed(a.req) && Early(a.pc)
    requires Covered(w.inventory, w.ledger.mem)
    ensures var (w', next) := Do(w, a, c); next.To? ==> AttemptOk(ViewOf(w', a.req), a.(pc := next.pc))
  {
  }

  lemma LateKeepsHolder(w: World, a: Attempt, c: Choice)
    requires AttemptOk(ViewOf(w, a.req), a) && !Keyed(a.req) && !Early(a.pc)
    ensures var (w', next) := Do(w, a, c); next.To? ==> AttemptOk(ViewOf(w', a.req), a.(pc := next.pc))
  {
  }

  lemma EarlyKeepsStores(w: World, a: Attempt, c: Choice)
    requires StoresOk(w) && Admissible(w, a) && Early(a.pc)
    ensures StoresOk(Do(w, a, c).0)
  {
    if a.pc.Fenced? {
      if a.req.op !in w.ledger.mem {
        CommitKeeps(w.ledger, w.fences, a.req.op, Record(a.req.machine, a.req, InProgress, "", c.now), c.write);
      }
      CoverKept(w.inventory, w.ledger, a.req, "", c.now, c.write);
    }
  }

  lemma FinishKeepsLedger(w: World, a: Attempt, c: Choice)
    requires LedgerOk(w.ledger, w.fences) && FencesDominate(w.fences) && Admissible(w, a)
    requires a.pc.Ready? || a.pc.Effected? || a.pc.Advanced? || a.pc.Credentialed?
    ensures var w' := Do(w, a, c).0; LedgerOk(w'.ledger, w'.fences) && FencesDominate(w'.fences)
  {
    match a.pc
    case Effected(_) => AdvanceKeeps(w.ledger, w.fences, a.req, c.now, c.write);
    case Credentialed(r) => EndKeeps(w.ledger, w.fences, a.req, r, c.now, c.write);
    case _ =>
  }

  lemma DeleteKeepsLedger(w: World, a: Attempt, c: Choice)
    requires LedgerOk(w.ledger, w.fences) && FencesDominate(w.fences) && Admissible(w, a) && Deleting(a.pc)
    ensures var w' := Do(w, a, c).0; LedgerOk(w'.ledger, w'.fences) && FencesDominate(w'.fences)
  {
    match a.pc
    case Pruned => AdvanceKeeps(w.ledger, w.fences, a.req, c.now, c.write);
    case Recorded => PruneKeeps(w.ledger, w.fences, a.req, c.write);
    case Dropped => EndKeeps(w.ledger, w.fences, a.req, "{}", c.now, c.write);
    case Removed =>
  }

  lemma LateKeepsCover(w: World, a: Attempt, c: Choice)
    requires Covered(w.inventory, w.ledger.mem) && RecordsOk(w.ledger.mem, w.fences)
    requires Admissible(w, a) && !Early(a.pc)
    ensures var w' := Do(w, a, c).0; Covered(w'.inventory, w'.ledger.mem)
  {
    match a.pc
    case Recorded => CoverPruned(w.inventory, w.ledger, w.fences, a.req, c.write);
    case Credentialed(r) => CoverKept(w.inventory, w.ledger, a.req, r, c.now, c.write);
    case Dropped => CoverKept(w.inventory, w.ledger, a.req, "{}", c.now, c.write);
    case Ready => EffectKeepsCover(w.inventory, w.ledger.mem, a.req, ResidueOf(c));
    case _ =>
  }

  lemma OtherHolderKept(w: World, k: string, c: Choice, k': string)
    requires StoresOk(w) && ActiveOk(w) && k in w.active && k' in w.active && k' != k
    ensures HolderOk(Do(w, w.active[k], c).0, k', w.active[k'])
  {
    var a, r := w.active[k], w.active[k'].req;
    assert HolderOk(w, k, a) && HolderOk(w, k', w.active[k']);
    if !Keyed(r) {
      if Early(a.pc) { EarlyIsLocal(w, a, c, r); } else { LateIsLocal(w, a, c, r); }
    }
  }

  lemma SettleKeepsActive(w: World, k: string, a: Attempt, next: Next)
    requires k in w.active
    requires forall k' :: k' in w.active && k' != k ==> HolderOk(w, k', w.active[k'])
    requires next.To? ==> HolderOk(w, k, a.(pc := next.pc))
    ensures ActiveOk(Settle(w, k, a, next))
  {
    var w' := Settle(w, k, a, next);
    forall k' | k' in w'.active
      ensures HolderOk(w', k', w'.active[k'])
    {
      assert ViewOf(w', w'.active[k'].req) == ViewOf(w, w'.active[k'].req);
    }
  }

  lemma DoLeavesActive(w: World, a: Attempt, c: Choice)
    ensures Do(w, a, c).0.active == w.active && Do(w, a, c).0.passed == w.passed
  {
  }

  lemma DoKeeps(w: World, a: Attempt, c: Choice)
    requires StoresOk(w) && Admissible(w, a)
    ensures var (w', next) := Do(w, a, c);
      StoresOk(w') && (next.To? ==> Admissible(w', a.(pc := next.pc)))
  {
    if Early(a.pc) {
      EarlyKeepsStores(w, a, c);
      if !Keyed(a.req) { EarlyKeepsHolder(w, a, c); }
    } else {
      if Deleting(a.pc) { DeleteKeepsLedger(w, a, c); } else { FinishKeepsLedger(w, a, c); }
      LateKeepsCover(w, a, c);
      if !Keyed(a.req) { LateKeepsHolder(w, a, c); }
    }
  }

  /** Every step of every attempt keeps the invariant. */
  lemma StepKeepsInv(w: World, k: string, c: Choice)
    requires Inv(w) && k in w.active
    ensures Inv(StepOf(w, k, c))
  {
    var a := w.active[k];
    var (w', next) := Do(w, a, c);
    assert HolderOk(w, k, a);
    DoKeeps(w, a, c);
    DoLeavesActive(w, a, c);
    forall k' | k' in w.active && k' != k
      ensures HolderOk(w', k', w.active[k'])
    {
      OtherHolderKept(w, k, c, k');
    }
    SettleKeepsActive(w', k, a, next);
  }

  lemma SameStoresKeepInv(w: World, w': World)
    requires Inv(w)
    requires w'.ledger == w.ledger && w'.fences == w.fences && w'.creds == w.creds && w'.inventory == w.inventory
    requires w'.active == w.active
    ensures Inv(w')
  {
    forall k | k in w'.active
      ensures HolderOk(w', k, w'.active[k])
    {
      assert HolderOk(w, k, w.active[k]);
      assert ViewOf(w', w'.active[k].req) == ViewOf(w, w'.active[k].req);
    }
  }

  lemma CheckIsReadOnly(w: World, req: Request)
    ensures var w' := DoCheck(w, req);
      && w'.ledger == w.ledger && w'.fences == w.fences && w'.creds == w.creds && w'.inventory == w.inventory
      && w'.active == w.active
  {
  }

  lemma EnterKeepsInv(w: World, req: Request, digest: string)
    requires Inv(w) && MayEnter(w, req)
    ensures Inv(DoEnter(w, req, digest))
  {
    var w' := DoEnter(w, req, digest);
    forall k | k in w'.active
      ensures HolderOk(w', k, w'.active[k])
    {
      assert k in w.active ==> HolderOk(w, k, w.active[k]);
      assert ViewOf(w', w'.active[k].req) == ViewOf(w, w'.active[k].req);
    }
  }

  lemma CrashKeepsInv(w: World)
    requires StoresOk(w)
    ensures Inv(Apply(w, Crash))
  {
  }

  lemma EventKeepsInv(w: World, e: Event)
    requires Inv(w)
    ensures Inv(Apply(w, e))
  {
    match e
    case Check(req) =>
      CheckIsReadOnly(w, req);
      SameStoresKeepInv(w, DoCheck(w, req));
    case Enter(req, digest) => if MayEnter(w, req) { EnterKeepsInv(w, req, digest); }
    case Step(k, c) => if k in w.active { StepKeepsInv(w, k, c); }
    case Crash => CrashKeepsInv(w);
  }

  /** The invariant holds after every run: any requests, any interleaving, any
      failed writes, any crashes. */
  lemma RunKeepsInv(w: World, es: seq<Event>)
    requires Inv(w)
    ensures Inv(Run(w, es))
  {
    forall v, e | Inv(v) ensures Inv(Apply(v, e)) {
      EventKeepsInv(v, e);
    }
    FoldKeeps(Apply, Inv, w, es);
  }

  // ---- reachable states ----

  ghost predicate Reachable(w: World) {
    exists es :: w == Run(INIT, es)
  }

  lemma EventKeepsReachable(w: World, e: Event)
    requires Reachable(w)
    ensures Reachable(Apply(w, e))
  {
    var es :| w == Run(INIT, es);
    FoldOne(Apply, INIT, es + [e], |es|);
    assert (es + [e])[..|es|] == es && (es + [e])[..|es| + 1] == es + [e];
    assert Apply(w, e) == Run(INIT, es + [e]);
  }

  lemma ReachableIsClosed()
    ensures Reachable(INIT) && Closed(Apply, Reachable)
  {
    assert INIT == Run(INIT, []);
    forall w, e | Reachable(w) ensures Reachable(Apply(w, e)) {
      EventKeepsReachable(w, e);
    }
  }
}
