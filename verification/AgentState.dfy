/** The agent's durable stores: operation ledger, generation fences and proxy
    credentials (internal/agent/state).  Every store is a memory table plus the
    file it is written to.  A write either succeeds, or fails leaving the old
    file, or fails leaving the new one (the rename happened, the directory sync
    did not); which of the three happens is an argument of every call. */
module AgentState {

  datatype Write = Stored | FailedOld | FailedNew

  /** A memory table and its file. */
  datatype Store<V> = Store(mem: map<string, V>, disk: map<string, V>) {
    /** Write `next`; memory is rolled back when the write fails. */
    function Commit(next: map<string, V>, w: Write): Store<V> {
      Store(if w.Stored? then next else mem, if w.FailedOld? then disk else next)
    }

    /** Write `next`; memory keeps it even when the write fails. */
    function Overwrite(next: map<string, V>, w: Write): Store<V> {
      Store(next, if w.FailedOld? then disk else next)
    }

    /** Process restart: memory is reloaded from the file. */
    function Reopen(): Store<V> {
      Store(disk, disk)
    }
  }

  /** The request families of the mutation protocol. */
  datatype Kind = Create | Lifecycle | Replacement | CopyTo | MachineMutation | DeleteMachine

  /** Everything the request hash covers.  Hashing is taken as injective, so a
      ledger record carries the request itself in place of its hash. */
  datatype Request = Request(
    op: string, machine: string, execution: string, generation: nat,
    kind: Kind, key: string, body: string)

  /** `Legacy` is the empty status written by older agents. */
  datatype Status = Legacy | InProgress | Completed

  datatype Record = Record(machine: string, hash: Request, status: Status, result: string, createdAt: int) {
    predicate Done() {
      status != InProgress
    }
  }

  datatype Fence = Fence(generation: nat, execution: string, updatedAt: int)

  datatype Credential = Credential(execution: string, digest: string)

  type LedgerStore = Store<Record>
  type FenceStore = Store<Fence>
  type CredStore = Store<Credential>

  // ---- what the ledger operations do to the store ----

  datatype Begun = BeginConflict | Existing(record: Record) | Fresh | BeginFailed

  function Begin(s: LedgerStore, req: Request, now: int, w: Write): (r: (LedgerStore, Begun)) {
    if req.op in s.mem then
      (s, if s.mem[req.op].hash != req then BeginConflict else Existing(s.mem[req.op]))
    else
      (s.Commit(s.mem[req.op := Record(req.machine, req, InProgress, "", now)], w),
       if w.Stored? then Fresh else BeginFailed)
  }

  datatype Ended = Ended | EndConflict | EndFailed

  function Complete(s: LedgerStore, req: Request, result: string, w: Write): (r: (LedgerStore, Ended)) {
    if req.op !in s.mem then (s, EndFailed)
    else if s.mem[req.op].hash != req then (s, EndConflict)
    else if s.mem[req.op].Done() then (s, Ended)
    else
      (s.Commit(s.mem[req.op := s.mem[req.op].(status := Completed, result := result)], w),
       if w.Stored? then Ended else EndFailed)
  }

  function Put(s: LedgerStore, req: Request, result: string, now: int, w: Write): (r: (LedgerStore, Ended)) {
    if req.op in s.mem then Complete(s, req, result, w)
    else
      (s.Commit(s.mem[req.op := Record(req.machine, req, Completed, result, now)], w),
       if w.Stored? then Ended else EndFailed)
  }

  function Surviving(mem: map<string, Record>, machine: string, keep: string): (r: map<string, Record>) {
    map id | id in mem && (mem[id].machine != machine || id == keep) :: mem[id]
  }

  function PruneMachine(s: LedgerStore, machine: string, keep: string, w: Write): (r: LedgerStore) {
    var next := Surviving(s.mem, machine, keep);
    if machine == "" || next == s.mem then s else s.Overwrite(next, w)
  }

  /** `Claim` writes a completed tombstone and reports whether it is new. */
  function Claim(s: LedgerStore, req: Request, result: string, now: int, w: Write): (r: (LedgerStore, Begun)) {
    if req.op in s.mem then
      (s, if s.mem[req.op].hash != req then BeginConflict else Existing(s.mem[req.op]))
    else
      (s.Commit(s.mem[req.op := Record(req.machine, req, Completed, result, now)], w),
       if w.Stored? then Fresh else BeginFailed)
  }

  function PruneOld(s: LedgerStore, cutoff: int, w: Write): (r: LedgerStore) {
    var next := map id | id in s.mem && s.mem[id].createdAt >= cutoff :: s.mem[id];
    if next == s.mem then s else s.Overwrite(next, w)
  }

  // ---- what the fence and credential operations do ----

  predicate Stale(s: FenceStore, machine: string, generation: nat) {
    machine in s.mem && generation < s.mem[machine].generation
  }

  function Advance(s: FenceStore, req: Request, now: int, w: Write): (r: (FenceStore, bool)) {
    if Stale(s, req.machine, req.generation) then (s, true)
    else (s.Commit(s.mem[req.machine := Fence(req.generation, req.execution, now)], w), w.Stored?)
  }

  function PruneFences(s: FenceStore, cutoff: int, live: set<string>, w: Write): (r: FenceStore) {
    var next := map m | m in s.mem && (m in live || s.mem[m].updatedAt >= cutoff) :: s.mem[m];
    if next == s.mem then s else s.Overwrite(next, w)
  }

  function SetCred(s: CredStore, machine: string, c: Credential, w: Write): (r: (CredStore, bool)) {
    (s.Overwrite(s.mem[machine := c], w), w.Stored?)
  }

  function EnsureCred(s: CredStore, machine: string, c: Credential, w: Write): (r: (CredStore, bool)) {
    if machine in s.mem && s.mem[machine] == c then (s, true) else SetCred(s, machine, c, w)
  }

  function DropCred(s: CredStore, machine: string, w: Write): (r: CredStore) {
    if machine !in s.mem then s else s.Overwrite(s.mem - {machine}, w)
  }

  // ---- disk dominates memory ----

  /** A record on disk for the same request, unchanged once completed. */
  predicate Backs(onDisk: Record, inMemory: Record) {
    && onDisk.hash == inMemory.hash
    && onDisk.machine == inMemory.machine
    && (inMemory.Done() ==> onDisk == inMemory)
  }

  /** A restart reads at least as much as the process knew. */
  ghost predicate LedgerDominates(s: LedgerStore) {
    forall id :: id in s.mem ==> id in s.disk && Backs(s.disk[id], s.mem[id])
  }

  /** No mark in memory is above the mark on disk. */
  ghost predicate FencesDominate(s: FenceStore) {
    forall m :: m in s.mem ==> m in s.disk && s.mem[m].generation <= s.disk[m].generation
  }

  lemma LedgerCallsKeepDominance(s: LedgerStore, req: Request, result: string, keep: string, now: int, w: Write)
    requires LedgerDominates(s)
    ensures LedgerDominates(Begin(s, req, now, w).0)
    ensures LedgerDominates(Complete(s, req, result, w).0)
    ensures LedgerDominates(Put(s, req, result, now, w).0)
    ensures LedgerDominates(PruneMachine(s, req.machine, keep, w))
    ensures LedgerDominates(Claim(s, req, result, now, w).0)
    ensures LedgerDominates(PruneOld(s, now, w))
    ensures LedgerDominates(s.Reopen())
  {
  }

  lemma FenceCallsKeepDominance(s: FenceStore, req: Request, live: set<string>, now: int, w: Write)
    requires FencesDominate(s)
    ensures FencesDominate(PruneFences(s, now, live, w))
    ensures FencesDominate(Advance(s, req, now, w).0)
    ensures FencesDominate(s.Reopen())
  {
  }

  /** Collecting by age keeps exactly the records that are young enough, and of the marks those
      of live machines and the young ones: whatever such a mark rejected is still rejected, and
      only what an old mark of a machine that is gone rejected now passes. */
  lemma PrunesExactly(l: LedgerStore, f: FenceStore, cutoff: int, live: set<string>, w: Write, id: string, m: string, g: nat)
    ensures var l' := PruneOld(l, cutoff, w);
      && (id in l'.mem <==> id in l.mem && cutoff <= l.mem[id].createdAt)
      && (id in l'.mem ==> l'.mem[id] == l.mem[id])
    ensures Stale(PruneFences(f, cutoff, live, w), m, g) <==>
      m in f.mem && g < f.mem[m].generation && (m in live || cutoff <= f.mem[m].updatedAt)
  {
  }

  /** What reaches memory and file: a write that is rolled back leaves memory alone and the file
      with the old or the new table; one that is kept changes memory whatever happens. */
  lemma WritesExactly(s: LedgerStore, next: map<string, Record>, w: Write)
    ensures s.Commit(next, w) ==
      match w case Stored => Store(next, next) case FailedOld => s case FailedNew => Store(s.mem, next)
    ensures s.Overwrite(next, w) == if w == FailedOld then Store(next, s.disk) else Store(next, next)
  {
  }

  /** A tombstone claim is new exactly when its id is not on record and the write is stored; then
      it is completed in memory and on disk. */
  lemma ClaimExactly(s: LedgerStore, req: Request, result: string, now: int, w: Write)
    ensures var (s', b) := Claim(s, req, result, now, w);
      var next := s.mem[req.op := Record(req.machine, req, Completed, result, now)];
      if req.op in s.mem then
        s' == s && b == if s.mem[req.op].hash == req then Existing(s.mem[req.op]) else BeginConflict
      else match w
        case Stored => b == Fresh && s' == Store(next, next)
        case FailedOld => b == BeginFailed && s' == s
        case FailedNew => b == BeginFailed && s' == Store(s.mem, next)
  {
  }

  /** Restart forgets no claim, no completed result and no mark. */
  lemma RestartForgetsNothing(l: LedgerStore, f: FenceStore, id: string, m: string)
    requires LedgerDominates(l) && FencesDominate(f)
    ensures id in l.mem ==> id in l.Reopen().mem && l.Reopen().mem[id].hash == l.mem[id].hash
    ensures id in l.mem && l.mem[id].Done() ==> l.Reopen().mem[id] == l.mem[id]
    ensures m in f.mem ==> m in f.Reopen().mem && f.mem[m].generation <= f.Reopen().mem[m].generation
  {
  }
}
