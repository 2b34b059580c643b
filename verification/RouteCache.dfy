/** The edge route cache (internal/edge/edge.go): fresh hits, negative entries,
    one load per key at a time, a revision guard, and serving stale routes while
    the origin fails.  A Get is split where it releases the mutex: a begin step, a
    load outside, a finish step; waiters receive later.  Any of these steps, of
    any number of calls, may come in any order, with invalidations in between. */
module RouteCache {
  import opened Base
  import opened Lru

  datatype Route = Route(body: string, revision: int)

  /** `value` is None for a tombstone (the origin said the key does not exist). */
  datatype Entry = Entry(value: Option<Route>, fetchedAt: int, revision: int)

  datatype Config = Config(freshTtl: int, staleWindow: int, max: int)

  const NEGATIVE_TTL := 5_000_000_000

  datatype Error = NoError | NotFound | BeyondStale | OriginError

  datatype Result = Result(value: Option<Route>, stale: bool, error: Error)

  /** What the origin answers to a load. */
  datatype Load = Loaded(route: Route) | Missing | Broken

  /** A load under way: when its Get began, the entry it saw, and (for stating
      properties) how often its key had been invalidated by then. */
  datatype Leader = Leader(key: string, now: int, seen: Option<Entry>, epoch: nat)

  /** History: to a Get of `key` begun at `at` the origin returned `route`, or said that the
      key does not exist. */
  datatype Fetch = Fetch(key: string, at: int, route: Route) | Miss(key: string, at: int)

  /** Calls are numbered; a flight has the number of its leader. */
  datatype Cache = Cache(
    lru: Lru<Entry>, flights: map<string, nat>, leaders: map<nat, Leader>, results: map<nat, Result>,
    joined: map<nat, nat>, answers: map<nat, Result>, next: nat, epochs: map<string, nat>, log: seq<Fetch>)

  datatype Event =
    | Begin(now: int, key: string)
    | Finish(flight: nat, load: Load)
    | Receive(call: nat)
    | Invalidate(key: string)

  const EMPTY := Cache(Lru(map[], []), map[], map[], map[], map[], map[], 0, map[], [])

  function Epoch(c: Cache, key: string): nat {
    if key in c.epochs then c.epochs[key] else 0
  }

  /** The answer of a hit, if the entry is fresh (negative entries first). */
  function Hit(cfg: Config, e: Option<Entry>, now: int): Option<Result> {
    if e.None? then None
    else if e.value.value.None? then
      (if now - e.value.fetchedAt < NEGATIVE_TTL then Some(Result(None, false, NotFound)) else None)
    else if now - e.value.fetchedAt < cfg.freshTtl then Some(Result(e.value.value, false, NoError))
    else None
  }

  function DoBegin(cfg: Config, c: Cache, now: int, key: string): Cache {
    var seen := Lookup(c.lru.entries, key);
    var hit := Hit(cfg, seen, now);
    var c' := c.(next := c.next + 1);
    if hit.Some? then c'.(lru := c.lru.Touch(key), answers := c.answers[c.next := hit.value])
    else if key in c.flights then c'.(joined := c.joined[c.next := c.flights[key]])
    else Lead(c', key, Leader(key, now, seen, Epoch(c, key)))
  }

  /** The last numbered call becomes the leader of its key. */
  function Lead(c: Cache, key: string, l: Leader): Cache
    requires c.next > 0
  {
    c.(flights := c.flights[key := c.next - 1], leaders := c.leaders[c.next - 1 := l])
  }

  /** Cache content and result after a load, under the mutex. */
  function WriteBack(cfg: Config, lru: Lru<Entry>, l: Leader, load: Load): (Lru<Entry>, Result) {
    var cur := Lookup(lru.entries, l.key);
    match load
    case Loaded(v) =>
      if cur.Some? && cur.value.value.Some? && v.revision < cur.value.revision then
        (lru.Touch(l.key), Result(cur.value.value, true, NoError))
      else
        (lru.Set(l.key, Entry(Some(v), l.now, v.revision)).Evict(cfg.max), Result(Some(v), false, NoError))
    case Missing =>
      var revision := if cur.Some? then cur.value.revision else 0;
      (lru.Set(l.key, Entry(None, l.now, revision)).Evict(cfg.max), Result(None, false, NotFound))
    case Broken =>
      if l.seen.Some? && l.seen.value.value.Some? then
        (if l.now - l.seen.value.fetchedAt < cfg.staleWindow then
           (lru.Touch(l.key), Result(l.seen.value.value, true, NoError))
         else (lru, Result(None, false, BeyondStale)))
      else (lru, Result(None, false, OriginError))
  }

  /** Publish the result to the waiters and retire the flight, unless an
      invalidation has already made room for a newer one. */
  function DoFinish(cfg: Config, c: Cache, f: nat, load: Load): Cache
    requires f in c.leaders
  {
    var l := c.leaders[f];
    var (lru, r) := WriteBack(cfg, c.lru, l, load);
    c.(lru := lru, results := c.results[f := r], answers := c.answers[f := r], leaders := c.leaders - {f},
       flights := if Lookup(c.flights, l.key) == Some(f) then c.flights - {l.key} else c.flights,
       log := c.log + Logged(l, load))
  }

  function DoInvalidate(c: Cache, key: string): Cache {
    c.(lru := c.lru.Delete(key), flights := c.flights - {key}, epochs := c.epochs[key := Epoch(c, key) + 1])
  }

  function Apply(cfg: Config, c: Cache, e: Event): Cache {
    match e
    case Begin(now, key) => DoBegin(cfg, c, now, key)
    case Finish(f, load) => if f in c.leaders then DoFinish(cfg, c, f, load) else c
    case Receive(call) =>
      if call in c.joined && c.joined[call] in c.results then c.(answers := c.answers[call := c.results[c.joined[call]]]) else c
    case Invalidate(key) => DoInvalidate(c, key)
  }

  function Run(cfg: Config, es: seq<Event>): Cache {
    if es == [] then EMPTY else Apply(cfg, Run(cfg, es[..|es|-1]), es[|es|-1])
  }

  // ---- the invariant ----

  /** A live entry holds what the origin returned for its key to a Get begun at
      its fetch time, under that route's revision; a tombstone, that it does not exist. */
  predicate Sourced(log: seq<Fetch>, key: string, e: Entry) {
    if e.value.Some? then e.revision == e.value.value.revision && Fetch(key, e.fetchedAt, e.value.value) in log
    else Miss(key, e.fetchedAt) in log
  }

  ghost predicate TableOk(cfg: Config, lru: Lru<Entry>, log: seq<Fetch>) {
    && lru.Valid() && |lru.order| <= Bound(cfg.max)
    && forall k :: k in lru.entries ==> Sourced(log, k, lru.entries[k])
  }

  predicate LeaderOk(c: Cache, f: nat, l: Leader) {
    && f < c.next && f !in c.results && f !in c.joined
    && l.epoch <= Epoch(c, l.key)
    && (l.epoch == Epoch(c, l.key) ==> l.key in c.flights && c.flights[l.key] == f)
    && (l.seen.Some? ==> Sourced(c.log, l.key, l.seen.value))
  }

  predicate FlightOk(c: Cache, k: string, f: nat) {
    f in c.leaders && c.leaders[f].key == k && c.leaders[f].epoch == Epoch(c, k)
  }

  /** A registered flight is the one load of its key begun since the key was last
      invalidated. */
  ghost predicate FlightsOk(c: Cache) {
    && (forall f :: f in c.leaders ==> LeaderOk(c, f, c.leaders[f]))
    && (forall k :: k in c.flights ==> FlightOk(c, k, c.flights[k]))
  }

  /** A waiter has its leader's result or none yet. */
  predicate WaiterOk(c: Cache, w: nat, f: nat) {
    && w < c.next && (f in c.leaders || f in c.results)
    && (w in c.answers ==> f in c.results && c.answers[w] == c.results[f])
  }

  predicate ResultOk(c: Cache, f: nat, r: Result) {
    f < c.next && f !in c.joined && f in c.answers && c.answers[f] == r
  }

  ghost predicate AnswersOk(c: Cache) {
    && (forall f :: f in c.results ==> ResultOk(c, f, c.results[f]))
    && (forall w :: w in c.joined ==> WaiterOk(c, w, c.joined[w]))
    && (forall w :: w in c.answers ==> w < c.next)
  }

  ghost predicate CallsOk(c: Cache) {
    FlightsOk(c) && AnswersOk(c)
  }

  ghost predicate Inv(cfg: Config, c: Cache) {
    TableOk(cfg, c.lru, c.log) && CallsOk(c)
  }

  lemma StoreKeepsTable(cfg: Config, lru: Lru<Entry>, log: seq<Fetch>, key: string, e: Entry, log': seq<Fetch>)
    requires TableOk(cfg, lru, log) && log <= log' && Sourced(log', key, e)
    ensures TableOk(cfg, lru.Set(key, e).Evict(cfg.max), log')
  {
    OperationsKeepAgreement(lru, key, e);
    EvictKeepsRecent(lru.Set(key, e), cfg.max);
    forall k | k in lru.Set(key, e).Evict(cfg.max).entries
      ensures Sourced(log', k, lru.Set(key, e).Evict(cfg.max).entries[k])
    {
      assert k != key ==> Sourced(log, k, lru.entries[k]);
    }
  }

  lemma {:induction false} WithoutShortens(order: seq<string>, k: string)
    requires k in order
    ensures |Without(order, k)| < |order|
  {
    if order[0] != k {
      WithoutShortens(order[1..], k);
    }
  }

  lemma TouchKeepsTable(cfg: Config, lru: Lru<Entry>, log: seq<Fetch>, key: string, log': seq<Fetch>)
    requires TableOk(cfg, lru, log) && log <= log'
    ensures TableOk(cfg, lru.Touch(key), log') && TableOk(cfg, lru, log') && TableOk(cfg, lru.Delete(key), log')
  {
    OperationsKeepAgreement(lru, key, Entry(None, 0, 0));
    if key in lru.entries {
      WithoutShortens(lru.order, key);
    }
    forall k | k in lru.entries ensures Sourced(log', k, lru.entries[k]) {
      assert Sourced(log, k, lru.entries[k]);
    }
  }

  /** What an answer to a load adds to the history. */
  function Logged(l: Leader, load: Load): seq<Fetch> {
    match load
    case Loaded(route) => [Fetch(l.key, l.now, route)]
    case Missing => [Miss(l.key, l.now)]
    case Broken => []
  }

  lemma WriteBackKeepsTable(cfg: Config, lru: Lru<Entry>, log: seq<Fetch>, l: Leader, load: Load)
    requires TableOk(cfg, lru, log)
    ensures TableOk(cfg, WriteBack(cfg, lru, l, load).0, log + Logged(l, load))
  {
    var log' := log + Logged(l, load);
    TouchKeepsTable(cfg, lru, log, l.key, log');
    match load
    case Loaded(v) =>
      assert log'[|log|] == Fetch(l.key, l.now, v);
      StoreKeepsTable(cfg, lru, log, l.key, Entry(Some(v), l.now, v.revision), log');
    case Missing =>
      var cur := Lookup(lru.entries, l.key);
      assert log'[|log|] == Miss(l.key, l.now);
      StoreKeepsTable(cfg, lru, log, l.key, Entry(None, l.now, if cur.Some? then cur.value.revision else 0), log');
    case Broken =>
  }

  lemma NextKeeps(c: Cache)
    requires CallsOk(c)
    ensures CallsOk(c.(next := c.next + 1))
    ensures c.next !in c.joined && c.next !in c.results && c.next !in c.leaders && c.next !in c.answers
  {
    var c' := c.(next := c.next + 1);
    forall f | f in c.leaders ensures LeaderOk(c', f, c.leaders[f]) && f < c.next { assert LeaderOk(c, f, c.leaders[f]); }
    forall k | k in c.flights ensures FlightOk(c', k, c.flights[k]) { assert FlightOk(c, k, c.flights[k]); }
    forall f | f in c.results ensures ResultOk(c', f, c.results[f]) && f < c.next { assert ResultOk(c, f, c.results[f]); }
    forall w | w in c.joined ensures WaiterOk(c', w, c.joined[w]) && w < c.next { assert WaiterOk(c, w, c.joined[w]); }
  }

  lemma AnswerKeepsCalls(c: Cache, lru: Lru<Entry>, w: nat, r: Result)
    requires CallsOk(c) && w < c.next && w !in c.results && w !in c.leaders
    requires w in c.joined ==> c.joined[w] in c.results && c.results[c.joined[w]] == r
    ensures CallsOk(c.(lru := lru, answers := c.answers[w := r]))
  {
    var c' := c.(lru := lru, answers := c.answers[w := r]);
    forall f | f in c.leaders ensures LeaderOk(c', f, c.leaders[f]) { assert LeaderOk(c, f, c.leaders[f]); }
    forall k | k in c.flights ensures FlightOk(c', k, c.flights[k]) { assert FlightOk(c, k, c.flights[k]); }
    forall f | f in c.results ensures ResultOk(c', f, c.results[f]) { assert ResultOk(c, f, c.results[f]); }
    forall v | v in c.joined ensures WaiterOk(c', v, c.joined[v]) { assert WaiterOk(c, v, c.joined[v]); }
  }

  lemma JoinKeepsCalls(c: Cache, w: nat, key: string)
    requires CallsOk(c) && w < c.next && key in c.flights
    requires w !in c.results && w !in c.leaders && w !in c.answers
    ensures CallsOk(c.(joined := c.joined[w := c.flights[key]]))
  {
    var c' := c.(joined := c.joined[w := c.flights[key]]);
    assert FlightOk(c, key, c.flights[key]);
    forall f | f in c.leaders ensures LeaderOk(c', f, c.leaders[f]) { assert LeaderOk(c, f, c.leaders[f]); }
    forall k | k in c.flights ensures FlightOk(c', k, c.flights[k]) { assert FlightOk(c, k, c.flights[k]); }
    forall f | f in c.results ensures ResultOk(c', f, c.results[f]) { assert ResultOk(c, f, c.results[f]); }
    forall v | v in c'.joined ensures WaiterOk(c', v, c'.joined[v]) {
      assert v in c.joined ==> WaiterOk(c, v, c.joined[v]);
    }
  }

  lemma LeadKeepsCalls(c: Cache, key: string, l: Leader)
    requires CallsOk(c) && c.next > 0 && key !in c.flights && l.key == key && l.epoch == Epoch(c, key)
    requires c.next - 1 !in c.results && c.next - 1 !in c.leaders && c.next - 1 !in c.joined
    requires l.seen.Some? ==> Sourced(c.log, key, l.seen.value)
    ensures CallsOk(Lead(c, key, l))
  {
    var c' := Lead(c, key, l);
    forall f | f in c'.leaders ensures LeaderOk(c', f, c'.leaders[f]) {
      assert f in c.leaders ==> LeaderOk(c, f, c.leaders[f]);
    }
    forall k | k in c'.flights ensures FlightOk(c', k, c'.flights[k]) {
      assert k in c.flights ==> FlightOk(c, k, c.flights[k]);
    }
    forall f | f in c.results ensures ResultOk(c', f, c.results[f]) { assert ResultOk(c, f, c.results[f]); }
    forall v | v in c.joined ensures WaiterOk(c', v, c.joined[v]) { assert WaiterOk(c, v, c.joined[v]); }
  }

  lemma BeginKeepsCalls(cfg: Config, c: Cache, now: int, key: string)
    requires CallsOk(c)
    requires key in c.lru.entries ==> Sourced(c.log, key, c.lru.entries[key])
    ensures CallsOk(DoBegin(cfg, c, now, key))
  {
    var seen := Lookup(c.lru.entries, key);
    var hit := Hit(cfg, seen, now);
    var c' := c.(next := c.next + 1);
    NextKeeps(c);
    if hit.Some? {
      AnswerKeepsCalls(c', c.lru.Touch(key), c.next, hit.value);
    } else if key in c.flights {
      JoinKeepsCalls(c', c.next, key);
    } else {
      LeadKeepsCalls(c', key, Leader(key, now, seen, Epoch(c, key)));
    }
  }

  lemma BeginOnlyTouches(cfg: Config, c: Cache, now: int, key: string)
    ensures var c' := DoBegin(cfg, c, now, key); c'.log == c.log && (c'.lru == c.lru || c'.lru == c.lru.Touch(key))
  {
  }

  lemma BeginKeepsInv(cfg: Config, c: Cache, now: int, key: string)
    requires Inv(cfg, c)
    ensures Inv(cfg, DoBegin(cfg, c, now, key))
  {
    BeginOnlyTouches(cfg, c, now, key);
    TouchKeepsTable(cfg, c.lru, c.log, key, c.log);
    BeginKeepsCalls(cfg, c, now, key);
  }

  lemma FinishKeepsFlights(cfg: Config, c: Cache, f: nat, load: Load)
    requires FlightsOk(c) && f in c.leaders
    ensures FlightsOk(DoFinish(cfg, c, f, load))
  {
    var c' := DoFinish(cfg, c, f, load);
    assert LeaderOk(c, f, c.leaders[f]);
    forall g | g in c'.leaders ensures LeaderOk(c', g, c'.leaders[g]) {
      assert LeaderOk(c, g, c.leaders[g]);
    }
    forall k | k in c'.flights ensures FlightOk(c', k, c'.flights[k]) {
      assert FlightOk(c, k, c.flights[k]);
    }
  }

  lemma FinishKeepsAnswers(cfg: Config, c: Cache, f: nat, load: Load)
    requires AnswersOk(c) && f in c.leaders && LeaderOk(c, f, c.leaders[f])
    ensures AnswersOk(DoFinish(cfg, c, f, load))
  {
    var c' := DoFinish(cfg, c, f, load);
    forall g | g in c'.results ensures ResultOk(c', g, c'.results[g]) {
      assert g != f ==> ResultOk(c, g, c.results[g]);
    }
    forall w | w in c'.joined ensures WaiterOk(c', w, c'.joined[w]) {
      assert WaiterOk(c, w, c.joined[w]);
    }
  }

  lemma FinishKeepsInv(cfg: Config, c: Cache, f: nat, load: Load)
    requires Inv(cfg, c) && f in c.leaders
    ensures Inv(cfg, DoFinish(cfg, c, f, load))
  {
    WriteBackKeepsTable(cfg, c.lru, c.log, c.leaders[f], load);
    FinishKeepsFlights(cfg, c, f, load);
    FinishKeepsAnswers(cfg, c, f, load);
  }

  lemma InvalidateKeepsCalls(c: Cache, key: string)
    requires CallsOk(c)
    ensures CallsOk(DoInvalidate(c, key))
  {
    var c' := DoInvalidate(c, key);
    forall f | f in c.leaders ensures LeaderOk(c', f, c.leaders[f]) { assert LeaderOk(c, f, c.leaders[f]); }
    forall k | k in c'.flights ensures FlightOk(c', k, c'.flights[k]) { assert FlightOk(c, k, c.flights[k]); }
    forall f | f in c.results ensures ResultOk(c', f, c.results[f]) { assert ResultOk(c, f, c.results[f]); }
    forall w | w in c.joined ensures WaiterOk(c', w, c.joined[w]) { assert WaiterOk(c, w, c.joined[w]); }
  }

  lemma ReceiveKeepsCalls(c: Cache, call: nat)
    requires CallsOk(c) && call in c.joined && c.joined[call] in c.results
    ensures CallsOk(c.(answers := c.answers[call := c.results[c.joined[call]]]))
  {
    assert WaiterOk(c, call, c.joined[call]);
    forall f | f in c.results ensures f != call { assert ResultOk(c, f, c.results[f]); }
    forall f | f in c.leaders ensures f != call { assert LeaderOk(c, f, c.leaders[f]); }
    AnswerKeepsCalls(c, c.lru, call, c.results[c.joined[call]]);
  }

  lemma EventKeepsInv(cfg: Config, c: Cache, e: Event)
    requires Inv(cfg, c)
    ensures Inv(cfg, Apply(cfg, c, e))
  {
    match e
    case Begin(now, key) => BeginKeepsInv(cfg, c, now, key);
    case Finish(f, load) => if f in c.leaders { FinishKeepsInv(cfg, c, f, load); }
    case Receive(call) => if call in c.joined && c.joined[call] in c.results { ReceiveKeepsCalls(c, call); }
    case Invalidate(key) =>
      TouchKeepsTable(cfg, c.lru, c.log, key, c.log);
      InvalidateKeepsCalls(c, key);
  }

  lemma {:induction false} RunKeepsInv(cfg: Config, es: seq<Event>)
    ensures Inv(cfg, Run(cfg, es))
  {
    if es != [] {
      RunKeepsInv(cfg, es[..|es|-1]);
      EventKeepsInv(cfg, Run(cfg, es[..|es|-1]), es[|es|-1]);
    }
  }

  // ---- what holds under every interleaving ----

  /** When a call starts a load, every other load of the same key still under way
      began before the key's last invalidation: between two invalidations a key
      has at most one load. */
  lemma LoadsDoNotOverlap(cfg: Config, es: seq<Event>, now: int, key: string, g: nat)
    requires var c := Run(cfg, es); c.next in Apply(cfg, c, Begin(now, key)).leaders
    requires g in Run(cfg, es).leaders && Run(cfg, es).leaders[g].key == key
    ensures Run(cfg, es).leaders[g].epoch < Epoch(Run(cfg, es), key)
  {
    RunKeepsInv(cfg, es);
    var c := Run(cfg, es);
    assert LeaderOk(c, g, c.leaders[g]);
    NextKeeps(c);
  }

  /** A waiter that has an answer has exactly its leader's. */
  lemma WaitersGetTheLeadersResult(cfg: Config, es: seq<Event>, w: nat)
    requires var c := Run(cfg, es); w in c.joined && w in c.answers
    ensures var c := Run(cfg, es); var f := c.joined[w];
      f in c.results && f in c.answers && c.answers[w] == c.results[f] == c.answers[f]
  {
    RunKeepsInv(cfg, es);
    var c := Run(cfg, es);
    assert WaiterOk(c, w, c.joined[w]);
    assert ResultOk(c, c.joined[w], c.results[c.joined[w]]);
  }

  /** Once a load has finished, its leader is answered, and every call that joined it can be: the
      next time it looks it has the leader's result, whatever happened to the key. */
  lemma WaitersAreAnswered(cfg: Config, es: seq<Event>, w: nat)
    requires w in Run(cfg, es).joined
    ensures var c := Run(cfg, es); var f := c.joined[w];
      && (f in c.leaders || f in c.results)
      && (f in c.results ==> f in c.answers && w in Apply(cfg, c, Receive(w)).answers
                             && Apply(cfg, c, Receive(w)).answers[w] == c.answers[f])
  {
    RunKeepsInv(cfg, es);
    var c := Run(cfg, es);
    assert WaiterOk(c, w, c.joined[w]);
    if c.joined[w] in c.results {
      assert ResultOk(c, c.joined[w], c.results[c.joined[w]]);
    }
  }

  /** A published result never changes. */
  lemma ResultsAreFinal(cfg: Config, es: seq<Event>, e: Event, f: nat)
    requires f in Run(cfg, es).results
    ensures var c := Run(cfg, es); var c' := Apply(cfg, c, e); f in c'.results && c'.results[f] == c.results[f]
  {
    RunKeepsInv(cfg, es);
    var c := Run(cfg, es);
    if e.Finish? && e.flight in c.leaders {
      assert LeaderOk(c, e.flight, c.leaders[e.flight]);
    }
  }

  predicate Live(c: Cache, key: string) {
    key in c.lru.entries && c.lru.entries[key].value.Some?
  }

  /** The revision of the live entry of `key`, 0 when there is none. */
  function Revision(c: Cache, key: string): int {
    if Live(c, key) then c.lru.entries[key].revision else 0
  }

  /** No single event lowers the revision of an entry that stays live, not even
      the end of a load that began before an invalidation. */
  lemma RevisionHolds(cfg: Config, c: Cache, e: Event, key: string)
    requires c.lru.Valid() && Live(c, key) && Live(Apply(cfg, c, e), key)
    ensures Revision(c, key) <= Revision(Apply(cfg, c, e), key)
  {
  }

  /** While an entry is live, its revision never falls. */
  lemma {:induction false} RevisionsNeverFall(cfg: Config, es: seq<Event>, n: nat, key: string)
    requires n <= |es| && forall m :: n <= m <= |es| ==> Live(Run(cfg, es[..m]), key)
    ensures Revision(Run(cfg, es[..n]), key) <= Revision(Run(cfg, es), key)
  {
    assert es[..|es|] == es;
    if n < |es| {
      var front := es[..|es|-1];
      forall m | n <= m <= |front| ensures Live(Run(cfg, front[..m]), key) {
        assert front[..m] == es[..m];
      }
      RevisionsNeverFall(cfg, front, n, key);
      assert front[..n] == es[..n] && front[..|front|] == front;
      RunKeepsInv(cfg, front);
      RevisionHolds(cfg, Run(cfg, front), es[|es|-1], key);
    }
  }

  lemma TouchKeepsEntries(lru: Lru<Entry>, key: string)
    ensures lru.Touch(key).entries == lru.entries
  {
  }

  lemma WriteKeepsOthers(cfg: Config, lru: Lru<Entry>, k: string, e: Entry, key: string)
    requires lru.Valid() && key in lru.Set(k, e).Evict(cfg.max).entries
    ensures lru.Set(k, e).Evict(cfg.max).entries[key] == if key == k then e else lru.entries[key]
    ensures key != k ==> key in lru.entries
  {
    OperationsKeepAgreement(lru, k, e);
    EvictKeepsRecent(lru.Set(k, e), cfg.max);
  }

  lemma WriteBackFallsExactly(cfg: Config, lru: Lru<Entry>, l: Leader, load: Load, key: string)
    requires lru.Valid() && key in lru.entries && key in WriteBack(cfg, lru, l, load).0.entries
    ensures WriteBack(cfg, lru, l, load).0.entries[key].revision < lru.entries[key].revision <==>
      l.key == key && load.Loaded? && lru.entries[key].value.None? && load.route.revision < lru.entries[key].revision
  {
    TouchKeepsEntries(lru, l.key);
    match load
    case Loaded(v) =>
      if !(l.key in lru.entries && lru.entries[l.key].value.Some? && v.revision < lru.entries[l.key].revision) {
        WriteKeepsOthers(cfg, lru, l.key, Entry(Some(v), l.now, v.revision), key);
      }
    case Missing =>
      WriteKeepsOthers(cfg, lru, l.key, Entry(None, l.now, if l.key in lru.entries then lru.entries[l.key].revision else 0), key);
    case Broken =>
  }

  /** The revision a stored entry carries, tombstones included, falls exactly when a load
      brings a route with a lower revision than the tombstone it replaces. */
  lemma RevisionFallsExactly(cfg: Config, c: Cache, e: Event, key: string)
    requires c.lru.Valid() && key in c.lru.entries && key in Apply(cfg, c, e).lru.entries
    ensures Apply(cfg, c, e).lru.entries[key].revision < c.lru.entries[key].revision <==>
      && e.Finish? && e.flight in c.leaders && c.leaders[e.flight].key == key && e.load.Loaded?
      && c.lru.entries[key].value.None? && e.load.route.revision < c.lru.entries[key].revision
  {
    match e
    case Begin(now, k) =>
      BeginOnlyTouches(cfg, c, now, k);
      TouchKeepsEntries(c.lru, k);
    case Finish(f, load) =>
      if f in c.leaders {
        WriteBackFallsExactly(cfg, c.lru, c.leaders[f], load, key);
      }
    case Receive(_) =>
    case Invalidate(_) =>
  }

  /** It does fall: a leader that finds a tombstone of revision 2 and loads revision 1
      caches and returns it. */
  lemma RevisionMayFall(cfg: Config, c: Cache, f: nat, at: int)
    requires c.lru.Valid() && f in c.leaders && c.leaders[f].key in c.lru.entries
    requires c.lru.entries[c.leaders[f].key] == Entry(None, at, 2)
    ensures var key, route := c.leaders[f].key, Route("old", 1); var c' := Apply(cfg, c, Finish(f, Loaded(route)));
      Live(c', key) && Revision(c', key) == 1 && c'.results[f] == Result(Some(route), false, NoError)
  {
    WrittenKeySurvives(c.lru, c.leaders[f].key, Entry(Some(Route("old", 1)), c.leaders[f].now, 1), cfg.max);
  }

  ghost predicate Reachable(cfg: Config, c: Cache) {
    exists es :: c == Run(cfg, es)
  }

  lemma ReachesNext(cfg: Config, c: Cache, e: Event)
    requires Reachable(cfg, c)
    ensures Reachable(cfg, Apply(cfg, c, e))
  {
    var es :| c == Run(cfg, es);
    assert (es + [e])[..|es|] == es;
    assert Apply(cfg, c, e) == Run(cfg, es + [e]);
  }

  /** A miss with no flight under way becomes the leader. */
  lemma MissLeads(cfg: Config, c: Cache, now: int, key: string) returns (c': Cache)
    requires Reachable(cfg, c) && key !in c.flights && Hit(cfg, Lookup(c.lru.entries, key), now).None?
    ensures Reachable(cfg, c') && c'.lru == c.lru && c'.next == c.next + 1
    ensures c.next in c'.leaders && c'.leaders[c.next].key == key && c'.leaders[c.next].now == now
    ensures key in c'.flights && c'.flights[key] == c.next
  {
    ReachesNext(cfg, c, Begin(now, key));
    c' := DoBegin(cfg, c, now, key);
  }

  /** Its load, unless it fails or is older than a live entry, is written. */
  lemma LoadLands(cfg: Config, c: Cache, f: nat, load: Load, e: Entry) returns (c': Cache)
    requires Reachable(cfg, c) && c.lru.Valid() && f in c.leaders
    requires c.leaders[f].key in c.flights && c.flights[c.leaders[f].key] == f
    requires WriteBack(cfg, c.lru, c.leaders[f], load).0 == c.lru.Set(c.leaders[f].key, e).Evict(cfg.max)
    ensures Reachable(cfg, c') && c'.lru.Valid() && c'.next == c.next
    ensures var key := c.leaders[f].key; key in c'.lru.entries && c'.lru.entries[key] == e && key !in c'.flights
  {
    ReachesNext(cfg, c, Finish(f, load));
    WrittenKeySurvives(c.lru, c.leaders[f].key, e, cfg.max);
    c' := DoFinish(cfg, c, f, load);
  }

  /** A reachable state with this entry and no flight for the key. */
  ghost predicate Rests(cfg: Config, c: Cache, key: string, e: Entry) {
    Reachable(cfg, c) && c.lru.Valid() && key !in c.flights && key in c.lru.entries && c.lru.entries[key] == e
  }

  lemma FirstLoadRests(cfg: Config, key: string, route: Route) returns (c: Cache)
    ensures Rests(cfg, c, key, Entry(Some(route), 0, route.revision))
  {
    assert EMPTY == Run(cfg, []);
    c := MissLeads(cfg, EMPTY, 0, key);
    c := LoadLands(cfg, c, 0, Loaded(route), Entry(Some(route), 0, route.revision));
  }

  lemma MissingRests(cfg: Config, c: Cache, key: string, e: Entry, now: int) returns (c': Cache)
    requires Rests(cfg, c, key, e) && Hit(cfg, Some(e), now).None?
    ensures Rests(cfg, c', key, Entry(None, now, e.revision))
  {
    c' := MissLeads(cfg, c, now, key);
    c' := LoadLands(cfg, c', c.next, Missing, Entry(None, now, e.revision));
  }

  /** Such a state is reached: revision 2 is loaded, then the key is missing, and a later
      miss leads a load. */
  lemma FallIsReachable(cfg: Config, key: string) returns (c: Cache, f: nat, at: int)
    ensures Reachable(cfg, c) && c.lru.Valid() && f in c.leaders && c.leaders[f].key == key
    ensures key in c.lru.entries && c.lru.entries[key] == Entry(None, at, 2)
  {
    var two := Route("new", 2);
    var c0 := FirstLoadRests(cfg, key, two);
    at := if cfg.freshTtl > 0 then cfg.freshTtl else 0;
    var c1 := MissingRests(cfg, c0, key, Entry(Some(two), 0, 2), at);
    c := MissLeads(cfg, c1, at + NEGATIVE_TTL, key);
    f := c1.next;
  }

  ghost predicate OnceReturned(log: seq<Fetch>, key: string, v: Option<Route>) {
    v.Some? && exists at :: Fetch(key, at, v.value) in log
  }

  ghost predicate RecentlyReturned(log: seq<Fetch>, key: string, v: Option<Route>, since: int) {
    v.Some? && exists at :: since < at && Fetch(key, at, v.value) in log
  }

  /** What a finished load hands out, for every answer of the origin:
      - the route it returned, unless a live entry with a higher revision is
        cached; then that entry, marked stale, whatever its age;
      - nothing when it says the key does not exist;
      - when it fails, the route seen at the beginning if and only if that one was
        live and fetched less than the stale window before.
      Every stale route handed out was once returned by the origin for this key. */
  lemma ServedValues(cfg: Config, es: seq<Event>, f: nat, load: Load)
    requires f in Run(cfg, es).leaders
    ensures var c := Run(cfg, es); var l := c.leaders[f]; var r := WriteBack(cfg, c.lru, l, load).1;
      && Apply(cfg, c, Finish(f, load)).results[f] == r
      && (load.Missing? ==> r == Result(None, false, NotFound))
      && (load.Loaded? && Live(c, l.key) && load.route.revision < Revision(c, l.key) ==>
            r == Result(c.lru.entries[l.key].value, true, NoError) && load.route.revision < r.value.value.revision)
      && (load.Loaded? && !(Live(c, l.key) && load.route.revision < Revision(c, l.key)) ==>
            r == Result(Some(load.route), false, NoError))
      && (load.Broken? && r.value.None? ==>
            r == Result(None, false, if l.seen.Some? && l.seen.value.value.Some? then BeyondStale else OriginError))
      && (load.Broken? && r.value.Some? ==> r == Result(l.seen.value.value, true, NoError))
      && (load.Broken? ==>
            (r.value.Some? <==> l.seen.Some? && l.seen.value.value.Some? && l.now - l.seen.value.fetchedAt < cfg.staleWindow))
      && (load.Broken? && r.value.Some? ==> r.stale && RecentlyReturned(c.log, l.key, r.value, l.now - cfg.staleWindow))
      && (r.stale ==> OnceReturned(c.log, l.key, r.value))
  {
    RunKeepsInv(cfg, es);
    var c := Run(cfg, es);
    var l := c.leaders[f];
    assert LeaderOk(c, f, l);
    ServedByWriteBack(cfg, c.lru, c.log, l, load);
  }

  lemma ServedByWriteBack(cfg: Config, lru: Lru<Entry>, log: seq<Fetch>, l: Leader, load: Load)
    requires TableOk(cfg, lru, log) && (l.seen.Some? ==> Sourced(log, l.key, l.seen.value))
    ensures var r := WriteBack(cfg, lru, l, load).1;
      && (load.Broken? && r.value.Some? ==> r.stale && RecentlyReturned(log, l.key, r.value, l.now - cfg.staleWindow))
      && (r.stale ==> OnceReturned(log, l.key, r.value))
      && (load.Loaded? && r.stale ==> load.route.revision < r.value.value.revision)
  {
    if l.key in lru.entries {
      assert Sourced(log, l.key, lru.entries[l.key]);
    }
  }

  lemma StoredByWriteBack(cfg: Config, lru: Lru<Entry>, l: Leader, load: Load)
    requires lru.Valid()
    ensures var before, after := lru.entries, WriteBack(cfg, lru, l, load).0.entries;
      var live := l.key in before && before[l.key].value.Some?;
      var rejected := load.Loaded? && live && load.route.revision < before[l.key].revision;
      && (load.Broken? || rejected ==> after == before)
      && (load.Loaded? && !rejected ==>
            l.key in after && after[l.key] == Entry(Some(load.route), l.now, load.route.revision))
      && (load.Missing? ==>
            l.key in after && after[l.key] == Entry(None, l.now, if l.key in before then before[l.key].revision else 0))
      && (forall k :: k in after && k != l.key ==> k in before && after[k] == before[k])
  {
    TouchKeepsEntries(lru, l.key);
    match load
    case Loaded(v) => WrittenKeySurvives(lru, l.key, Entry(Some(v), l.now, v.revision), cfg.max);
    case Missing =>
      var e := Entry(None, l.now, if l.key in lru.entries then lru.entries[l.key].revision else 0);
      WrittenKeySurvives(lru, l.key, e, cfg.max);
    case Broken =>
  }

  /** What a finished load leaves in the table: the route or the tombstone under the time its
      Get began, and nothing new when the load fails or its route is older than a live one. */
  lemma LoadsAreStored(cfg: Config, es: seq<Event>, f: nat, load: Load)
    requires f in Run(cfg, es).leaders
    ensures var c := Run(cfg, es); var l := c.leaders[f]; var before := c.lru.entries;
      var after := Apply(cfg, c, Finish(f, load)).lru.entries;
      var rejected := load.Loaded? && Live(c, l.key) && load.route.revision < Revision(c, l.key);
      && (load.Broken? || rejected ==> after == before)
      && (load.Loaded? && !rejected ==>
            l.key in after && after[l.key] == Entry(Some(load.route), l.now, load.route.revision))
      && (load.Missing? ==>
            l.key in after && after[l.key] == Entry(None, l.now, if l.key in before then before[l.key].revision else 0))
      && (forall k :: k in after && k != l.key ==> k in before && after[k] == before[k])
  {
    RunKeepsInv(cfg, es);
    StoredByWriteBack(cfg, Run(cfg, es).lru, Run(cfg, es).leaders[f], load);
  }

  // ---- hits ----

  /** The origin returned the route for the key to a Get less than `ttl` ago. */
  ghost predicate FetchedWithin(log: seq<Fetch>, key: string, route: Route, now: int, ttl: int) {
    exists at :: now - at < ttl && Fetch(key, at, route) in log
  }

  /** It said less than `ttl` ago that the key does not exist. */
  ghost predicate MissedWithin(log: seq<Fetch>, key: string, now: int, ttl: int) {
    exists at :: now - at < ttl && Miss(key, at) in log
  }

  /** A call that is answered as it begins has a route the origin returned within the fresh
      TTL, not marked stale, or the word of the origin, less than five seconds old, that there
      is none. */
  lemma HitsAreFresh(cfg: Config, es: seq<Event>, now: int, key: string)
    requires var c := Run(cfg, es); c.next in Apply(cfg, c, Begin(now, key)).answers
    ensures var c := Run(cfg, es); var r := Apply(cfg, c, Begin(now, key)).answers[c.next];
      !r.stale && match r.value
        case Some(route) => r.error.NoError? && FetchedWithin(c.log, key, route, now, cfg.freshTtl)
        case None => r.error.NotFound? && MissedWithin(c.log, key, now, 5_000_000_000)
  {
    RunKeepsInv(cfg, es);
    var c := Run(cfg, es);
    assert c.next !in c.answers;
    assert Sourced(c.log, key, c.lru.entries[key]);
  }

  predicate YoungEnough(cfg: Config, lru: Lru<Entry>, now: int, key: string) {
    && key in lru.entries
    && var e := lru.entries[key]; now - e.fetchedAt < if e.value.Some? then cfg.freshTtl else 5_000_000_000
  }

  lemma HitsExactly(cfg: Config, lru: Lru<Entry>, now: int, key: string)
    ensures Hit(cfg, Lookup(lru.entries, key), now).Some? <==> YoungEnough(cfg, lru, now, key)
    ensures key in lru.entries ==> lru.Touch(key).order != [] && lru.Touch(key).order[0] == key
    ensures lru.Touch(key).entries == lru.entries
  {
  }

  lemma CallBegins(cfg: Config, c: Cache, now: int, key: string)
    requires c.next !in c.answers
    ensures var c' := DoBegin(cfg, c, now, key); var hit := Hit(cfg, Lookup(c.lru.entries, key), now);
      && (c.next in c'.answers <==> hit.Some?) && c'.next == c.next + 1
      && c'.lru == (if hit.Some? then c.lru.Touch(key) else c.lru)
      && (hit.None? ==>
            if key in c.flights then c.next in c'.joined && c'.joined[c.next] == c.flights[key]
            else c.next in c'.leaders && c'.leaders[c.next].key == key && c'.leaders[c.next].now == now)
  {
  }

  /** A call is answered as it begins exactly when the table has an entry of the key that is
      young enough, which becomes the most recently used.  Every other call joins the load of
      its key or, if there is none, leads one that began now. */
  lemma OthersLoad(cfg: Config, es: seq<Event>, now: int, key: string)
    ensures var c := Run(cfg, es); var c' := Apply(cfg, c, Begin(now, key)); var n := c.next;
      && (n in c'.answers <==> YoungEnough(cfg, c.lru, now, key))
      && (n in c'.answers ==> c'.lru.order != [] && c'.lru.order[0] == key)
      && (n !in c'.answers ==>
            if key in c.flights then n in c'.joined && c'.joined[n] == c.flights[key]
            else n in c'.leaders && c'.leaders[n].key == key && c'.leaders[n].now == now)
      && c'.lru.entries == c.lru.entries && c'.next == n + 1
  {
    RunKeepsInv(cfg, es);
    var c := Run(cfg, es);
    assert c.next !in c.answers;
    HitsExactly(cfg, c.lru, now, key);
    CallBegins(cfg, c, now, key);
  }

  lemma InvalidationDrops(c: Cache, key: string)
    ensures var c' := DoInvalidate(c, key);
      && key !in c'.lru.entries && key !in c'.flights && c'.answers == c.answers && c'.next == c.next
      && (forall k :: k != key ==> Lookup(c'.lru.entries, k) == Lookup(c.lru.entries, k))
      && (forall k :: k != key ==> Lookup(c'.flights, k) == Lookup(c.flights, k))
  {
  }

  /** After an invalidation neither entry nor load of the key is left, whatever is under way,
      and the next call loads; the other keys are as they were. */
  lemma InvalidationForgets(cfg: Config, es: seq<Event>, key: string, now: int)
    ensures var c := Run(cfg, es); var c' := Apply(cfg, c, Invalidate(key));
      && key !in c'.lru.entries && key !in c'.flights
      && c'.next in Apply(cfg, c', Begin(now, key)).leaders
      && (forall k :: k != key ==> Lookup(c'.lru.entries, k) == Lookup(c.lru.entries, k))
      && (forall k :: k != key ==> Lookup(c'.flights, k) == Lookup(c.flights, k))
  {
    RunKeepsInv(cfg, es);
    var c := Run(cfg, es);
    assert c.next !in c.answers;
    InvalidationDrops(c, key);
    CallBegins(cfg, DoInvalidate(c, key), now, key);
  }

  // ---- the cache as the edge runs it ----

  class SharedCache {
    const cfg: Config
    const table: LruCache<Entry>
    var flights: map<string, nat>
    var next: nat
    ghost var rest: Cache      // calls, results and history

    ghost function State(): Cache
      reads this, table
    {
      rest.(lru := table.State(), flights := flights, next := next)
    }

    constructor (cfg: Config)
      ensures this.cfg == cfg && State() == EMPTY && fresh(table)
    {
      this.cfg := cfg;
      table := new LruCache<Entry>();
      flights, next := map[], 0;
      rest := EMPTY;
    }

    /** Negative entries first, then fresh ones; only a hit is moved to the front. */
    method AnswerFresh(now: int, key: string) returns (answer: Option<Result>)
      requires table.State().Valid()
      modifies table
      ensures answer == Hit(cfg, Lookup(old(table.State()).entries, key), now)
      ensures table.State() == if answer.Some? then old(table.State()).Touch(key) else old(table.State())
    {
      answer := None;
      var e := table.Get(key);
      var negFresh := e != [] && e[0].value.None? && now - e[0].fetchedAt < NEGATIVE_TTL;
      var isFresh := e != [] && e[0].value.Some? && now - e[0].fetchedAt < cfg.freshTtl;
      if negFresh || isFresh {
        table.Touch(key);
        answer := Some(if negFresh then Result(None, false, NotFound) else Result(e[0].value, false, NoError));
      }
    }

    /** The part of Get before the load: answer from the cache, or join the
        flight of the key, or register a new one and lead it. */
    method BeginGet(now: int, key: string) returns (answer: Option<Result>, leads: bool)
      requires State().lru.Valid()
      modifies this, table
      ensures State() == DoBegin(cfg, old(State()), now, key)
      ensures answer == Hit(cfg, Lookup(old(State()).lru.entries, key), now)
      ensures leads <==> answer.None? && key !in old(flights)
    {
      ghost var c := State();
      answer := AnswerFresh(now, key);
      leads := answer.None? && key !in flights;
      if leads {
        flights := flights[key := next];
      }
      next := next + 1;
      rest := DoBegin(cfg, c, now, key);
    }

    /** The cache update and the result of a load, under the mutex. */
    method StoreLoaded(l: Leader, load: Load) returns (r: Result)
      requires table.State().Valid()
      modifies table
      ensures (table.State(), r) == WriteBack(cfg, old(table.State()), l, load)
    {
      var cur := table.Get(l.key);
      match load {
        case Loaded(v) =>
          if cur != [] && cur[0].value.Some? && v.revision < cur[0].revision {
            table.Touch(l.key);
            return Result(cur[0].value, true, NoError);
          }
          OperationsKeepAgreement(table.State(), l.key, Entry(Some(v), l.now, v.revision));
          table.Set(l.key, Entry(Some(v), l.now, v.revision));
          table.Evict(cfg.max);
          r := Result(Some(v), false, NoError);
        case Missing =>
          var revision := if cur != [] then cur[0].revision else 0;
          OperationsKeepAgreement(table.State(), l.key, Entry(None, l.now, revision));
          table.Set(l.key, Entry(None, l.now, revision));
          table.Evict(cfg.max);
          r := Result(None, false, NotFound);
        case Broken =>
          if l.seen.None? || l.seen.value.value.None? {
            return Result(None, false, OriginError);
          }
          if l.now - l.seen.value.fetchedAt >= cfg.staleWindow {
            return Result(None, false, BeyondStale);
          }
          table.Touch(l.key);
          r := Result(l.seen.value.value, true, NoError);
      }
    }

    /** The part of Get after the load, run by the leader. */
    method FinishGet(flight: nat, l: Leader, load: Load) returns (r: Result)
      requires State().lru.Valid() && flight in State().leaders && State().leaders[flight] == l
      modifies this, table
      ensures State() == DoFinish(cfg, old(State()), flight, load) && r == State().results[flight]
    {
      ghost var c := State();
      r := StoreLoaded(l, load);
      if l.key in flights && flights[l.key] == flight {
        flights := flights - {l.key};
      }
      rest := DoFinish(cfg, c, flight, load);
    }

    method Invalidate(key: string)
      requires State().lru.Valid()
      modifies this, table
      ensures State() == DoInvalidate(old(State()), key)
    {
      ghost var c := State();
      table.Delete(key);
      flights := flights - {key};
      rest := DoInvalidate(c, key);
    }
  }
}
