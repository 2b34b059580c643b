/** Token buckets: the bound that any of them keeps, the edge's limiter with one bucket per
    hostname in a bounded table (internal/edge/edge.go), and the agent's pair of credential
    buckets with a common clock (internal/agent/proxy/proxy.go).  Times are in seconds. */
module TokenBucket {
  import opened Lru

  datatype Limits = Limits(rate: real, burst: real)

  datatype Bucket = Bucket(tokens: real, last: real)

  predicate Sound(l: Limits) {
    l.rate > 0.0 && l.burst >= 1.0
  }

  function Gain(rate: real, seconds: real): real {
    seconds * rate
  }

  function Least(a: real, b: real): real {
    if a <= b then a else b
  }

  /** What the bucket holds at a time. */
  function Level(l: Limits, b: Bucket, now: real): real {
    Least(b.tokens + Gain(l.rate, now - b.last), l.burst)
  }

  function Refill(l: Limits, b: Bucket, now: real): Bucket {
    Bucket(Level(l, b, now), now)
  }

  /** One request: a refilled bucket with at least one token lets it pass. */
  function Take(b: Bucket): (Bucket, bool) {
    if b.tokens >= 1.0 then (b.(tokens := b.tokens - 1.0), true) else (b, false)
  }

  // ---- the law ----

  lemma GainIsRate(rate: real, seconds: real)
    ensures Gain(rate, seconds) == rate * seconds
  {
  }

  lemma GainAdds(rate: real, x: real, y: real)
    ensures Gain(rate, x + y) == Gain(rate, x) + Gain(rate, y)
  {
  }

  lemma GainGrows(rate: real, x: real)
    requires rate > 0.0 && x >= 0.0
    ensures Gain(rate, x) >= 0.0
  {
  }

  lemma LevelGrows(l: Limits, b: Bucket, now: real, later: real)
    requires l.rate > 0.0 && now <= later
    ensures Level(l, b, now) <= Level(l, b, later) <= Level(l, b, now) + Gain(l.rate, later - now)
  {
    GainAdds(l.rate, now - b.last, later - now);
    GainGrows(l.rate, later - now);
  }

  lemma TakeIsFair(l: Limits, b: Bucket, now: real)
    requires Level(l, b, now) >= 0.0
    ensures var t := Take(Refill(l, b, now));
      && Level(l, t.0, now) == Level(l, b, now) - (if t.1 then 1.0 else 0.0)
      && Level(l, t.0, now) >= 0.0 && t.0.last == now
  {
    assert Gain(l.rate, 0.0) == 0.0;
  }

  /** A bucket after an event, and whether the event let a request pass. */
  datatype Mark = Mark(bucket: Bucket, now: real, granted: bool)

  function Grants(tr: seq<Mark>): nat {
    if tr == [] then 0 else Grants(tr[..|tr| - 1]) + if tr[|tr| - 1].granted then 1 else 0
  }

  function One(granted: bool): real {
    if granted then 1.0 else 0.0
  }

  /** The second event comes later and pays exactly for what it grants. */
  predicate Pays(l: Limits, a: Mark, b: Mark) {
    a.now <= b.now && 0.0 <= Level(l, b.bucket, b.now) && Level(l, b.bucket, b.now) + One(b.granted) == Level(l, a.bucket, b.now)
  }

  /** What was granted and what is left come to at most burst plus rate times the time. */
  ghost predicate WithinBound(l: Limits, tr: seq<Mark>) {
    && tr != []
    && var m := tr[|tr| - 1];
       0.0 <= Level(l, m.bucket, m.now) && Grants(tr) as real + Level(l, m.bucket, m.now) <= l.burst + Gain(l.rate, m.now - tr[0].now)
  }

  lemma FirstWithinBound(l: Limits, m: Mark)
    requires 0.0 <= Level(l, m.bucket, m.now) && Level(l, m.bucket, m.now) + One(m.granted) <= l.burst
    ensures WithinBound(l, [m])
  {
    assert [m][..0] == [];
    assert Grants([m]) as real == One(m.granted);
    assert Gain(l.rate, 0.0) == 0.0;
  }

  /** The law of every token bucket. */
  lemma NextWithinBound(l: Limits, tr: seq<Mark>, m: Mark)
    requires l.rate > 0.0 && WithinBound(l, tr) && Pays(l, tr[|tr| - 1], m)
    ensures WithinBound(l, tr + [m])
  {
    var a := tr[|tr| - 1];
    assert (tr + [m])[..|tr|] == tr;
    assert Grants(tr + [m]) as real == Grants(tr) as real + One(m.granted);
    LevelGrows(l, a.bucket, a.now, m.now);
    GainAdds(l.rate, a.now - tr[0].now, m.now - a.now);
  }

  // ---- the edge's limiter ----

  datatype Request = Request(host: string, now: real)

  /** RateLimiter.Allow on the table of buckets. */
  function Allow(l: Limits, max: int, c: Lru<Bucket>, r: Request): (Lru<Bucket>, bool) {
    if l.rate <= 0.0 then (c, true)
    else if r.host !in c.entries then (c.Set(r.host, Bucket(l.burst - 1.0, r.now)).Evict(max), true)
    else
      var t := Take(Refill(l, c.entries[r.host], r.now));
      (c.Set(r.host, t.0), t.1)
  }

  function Run(l: Limits, max: int, rs: seq<Request>): Lru<Bucket> {
    if rs == [] then Lru(map[], []) else Allow(l, max, Run(l, max, rs[..|rs| - 1]), rs[|rs| - 1]).0
  }

  function Allowed(l: Limits, max: int, rs: seq<Request>, k: nat): bool
    requires k < |rs|
  {
    Allow(l, max, Run(l, max, rs[..k]), rs[k]).1
  }

  ghost predicate InOrder(rs: seq<Request>) {
    forall i, j :: 0 <= i < j < |rs| ==> rs[i].now <= rs[j].now
  }

  predicate BucketOk(l: Limits, b: Bucket, now: real) {
    0.0 <= b.tokens <= l.burst && b.last <= now
  }

  ghost predicate TableOk(l: Limits, c: Lru<Bucket>, now: real) {
    c.Valid() && forall h :: h in c.entries ==> BucketOk(l, c.entries[h], now)
  }

  lemma OkHasLevel(l: Limits, b: Bucket, now: real)
    requires Sound(l) && BucketOk(l, b, now)
    ensures 0.0 <= Level(l, b, now) <= l.burst
  {
    GainGrows(l.rate, now - b.last);
  }

  lemma NewKeepsTable(l: Limits, max: int, c: Lru<Bucket>, r: Request)
    requires Sound(l) && TableOk(l, c, r.now) && r.host !in c.entries
    ensures TableOk(l, Allow(l, max, c, r).0, r.now)
    ensures |Allow(l, max, c, r).0.order| <= Bound(max)
    ensures r.host in Allow(l, max, c, r).0.entries && Allow(l, max, c, r).0.entries[r.host] == Bucket(l.burst - 1.0, r.now)
  {
    var first := Bucket(l.burst - 1.0, r.now);
    WrittenKeySurvives(c, r.host, first, max);
    OperationsKeepAgreement(c, r.host, first);
    EvictKeepsRecent(c.Set(r.host, first), max);
  }

  lemma OldKeepsTable(l: Limits, max: int, c: Lru<Bucket>, r: Request)
    requires Sound(l) && TableOk(l, c, r.now) && r.host in c.entries
    ensures TableOk(l, Allow(l, max, c, r).0, r.now)
    ensures |Allow(l, max, c, r).0.order| == |c.order|
  {
    var b := c.entries[r.host];
    assert BucketOk(l, b, r.now);
    OkHasLevel(l, b, r.now);
    OperationsKeepAgreement(c, r.host, Take(Refill(l, b, r.now)).0);
    var i :| 0 <= i < |c.order| && c.order[i] == r.host;
    WithoutCuts(c.order, i);
  }

  /** Every run keeps the table within its bound and every bucket between empty and full. */
  lemma {:induction false} RunKeepsTable(l: Limits, max: int, rs: seq<Request>)
    requires Sound(l) && InOrder(rs)
    ensures |Run(l, max, rs).order| <= Bound(max)
    ensures rs != [] ==> TableOk(l, Run(l, max, rs), rs[|rs| - 1].now)
    ensures rs == [] ==> Run(l, max, rs) == Lru(map[], [])
  {
    if rs != [] {
      var n := |rs| - 1;
      RunKeepsTable(l, max, rs[..n]);
      var c := Run(l, max, rs[..n]);
      assert TableOk(l, c, rs[n].now) by {
        forall h | h in c.entries ensures BucketOk(l, c.entries[h], rs[n].now) {
          assert BucketOk(l, c.entries[h], rs[n - 1].now);
        }
      }
      if rs[n].host in c.entries {
        OldKeepsTable(l, max, c, rs[n]);
      } else {
        NewKeepsTable(l, max, c, rs[n]);
      }
    }
  }

  // What happens to one hostname's bucket while it stays in the table.

  function After(l: Limits, max: int, rs: seq<Request>, k: nat): Lru<Bucket>
    requires k < |rs|
  {
    Run(l, max, rs[..k + 1])
  }

  predicate Resident(l: Limits, max: int, rs: seq<Request>, host: string, k: nat) {
    k < |rs| && host in After(l, max, rs, k).entries
  }

  function MarkAt(l: Limits, max: int, rs: seq<Request>, host: string, k: nat): Mark
    requires Resident(l, max, rs, host, k)
  {
    Mark(After(l, max, rs, k).entries[host], rs[k].now, rs[k].host == host && Allowed(l, max, rs, k))
  }

  lemma AfterNext(l: Limits, max: int, rs: seq<Request>, k: nat)
    requires k < |rs|
    ensures After(l, max, rs, k) == Allow(l, max, Run(l, max, rs[..k]), rs[k]).0
  {
    assert rs[..k + 1][..k] == rs[..k];
  }

  /** Requests of other hostnames leave the bucket alone for as long as it is resident. */
  lemma OthersKeepBucket(l: Limits, max: int, c: Lru<Bucket>, r: Request, host: string)
    requires c.Valid() && host != r.host && host in Allow(l, max, c, r).0.entries
    ensures host in c.entries && Allow(l, max, c, r).0.entries[host] == c.entries[host]
  {
    var first := Bucket(l.burst - 1.0, r.now);
    OperationsKeepAgreement(c, r.host, first);
    EvictKeepsRecent(c.Set(r.host, first), max);
  }

  lemma PrefixInOrder(rs: seq<Request>, k: nat)
    requires InOrder(rs) && k <= |rs|
    ensures InOrder(rs[..k])
  {
  }

  lemma BucketAt(l: Limits, max: int, rs: seq<Request>, host: string, k: nat)
    requires Sound(l) && InOrder(rs) && Resident(l, max, rs, host, k)
    ensures BucketOk(l, After(l, max, rs, k).entries[host], rs[k].now)
    ensures After(l, max, rs, k).Valid()
  {
    PrefixInOrder(rs, k + 1);
    RunKeepsTable(l, max, rs[..k + 1]);
  }

  lemma StepPays(l: Limits, max: int, rs: seq<Request>, host: string, k: nat)
    requires Sound(l) && InOrder(rs) && k > 0 && Resident(l, max, rs, host, k - 1) && Resident(l, max, rs, host, k)
    ensures Pays(l, MarkAt(l, max, rs, host, k - 1), MarkAt(l, max, rs, host, k))
  {
    BucketAt(l, max, rs, host, k - 1);
    BucketAt(l, max, rs, host, k);
    OkHasLevel(l, After(l, max, rs, k).entries[host], rs[k].now);
    AfterNext(l, max, rs, k);
    var c := After(l, max, rs, k - 1);
    assert c == Run(l, max, rs[..k]);
    if rs[k].host == host {
      var b := c.entries[host];
      assert BucketOk(l, b, rs[k].now);
      OkHasLevel(l, b, rs[k].now);
      TakeIsFair(l, b, rs[k].now);
    } else {
      OthersKeepBucket(l, max, c, rs[k], host);
    }
  }

  lemma FirstPays(l: Limits, max: int, rs: seq<Request>, host: string, k: nat)
    requires Sound(l) && InOrder(rs) && Resident(l, max, rs, host, k)
    ensures var m := MarkAt(l, max, rs, host, k);
      0.0 <= Level(l, m.bucket, m.now) && Level(l, m.bucket, m.now) + One(m.granted) <= l.burst
  {
    BucketAt(l, max, rs, host, k);
    OkHasLevel(l, After(l, max, rs, k).entries[host], rs[k].now);
    AfterNext(l, max, rs, k);
    var c := Run(l, max, rs[..k]);
    if rs[k].host == host {
      if host in c.entries {
        if k > 0 {
          BucketAt(l, max, rs, host, k - 1);
          assert c == After(l, max, rs, k - 1);
          OkHasLevel(l, c.entries[host], rs[k].now);
          TakeIsFair(l, c.entries[host], rs[k].now);
        }
      } else {
        NewBucketLevel(l, max, rs, k);
      }
    }
  }

  lemma NewBucketLevel(l: Limits, max: int, rs: seq<Request>, k: nat)
    requires Sound(l) && InOrder(rs) && k < |rs| && rs[k].host !in Run(l, max, rs[..k]).entries
    ensures Resident(l, max, rs, rs[k].host, k)
    ensures After(l, max, rs, k).entries[rs[k].host] == Bucket(l.burst - 1.0, rs[k].now) && Allowed(l, max, rs, k)
    ensures Level(l, After(l, max, rs, k).entries[rs[k].host], rs[k].now) <= l.burst - 1.0
  {
    AfterNext(l, max, rs, k);
    var c := Run(l, max, rs[..k]);
    PrefixInOrder(rs, k);
    RunKeepsTable(l, max, rs[..k]);
    WrittenKeySurvives(c, rs[k].host, Bucket(l.burst - 1.0, rs[k].now), max);
    assert Gain(l.rate, 0.0) == 0.0;
  }

  function Trace(l: Limits, max: int, rs: seq<Request>, host: string, i: nat, j: nat): (tr: seq<Mark>)
    requires i <= j < |rs| && forall k :: i <= k <= j ==> Resident(l, max, rs, host, k)
    ensures |tr| == j - i + 1 && tr[0] == MarkAt(l, max, rs, host, i) && tr[j - i] == MarkAt(l, max, rs, host, j)
  {
    if i == j then [MarkAt(l, max, rs, host, i)] else Trace(l, max, rs, host, i, j - 1) + [MarkAt(l, max, rs, host, j)]
  }

  lemma {:induction false} TraceWithinBound(l: Limits, max: int, rs: seq<Request>, host: string, i: nat, j: nat)
    requires Sound(l) && InOrder(rs) && i <= j < |rs| && forall k :: i <= k <= j ==> Resident(l, max, rs, host, k)
    ensures WithinBound(l, Trace(l, max, rs, host, i, j))
  {
    if i == j {
      FirstPays(l, max, rs, host, i);
      FirstWithinBound(l, MarkAt(l, max, rs, host, i));
    } else {
      TraceWithinBound(l, max, rs, host, i, j - 1);
      StepPays(l, max, rs, host, j);
      NextWithinBound(l, Trace(l, max, rs, host, i, j - 1), MarkAt(l, max, rs, host, j));
    }
  }

  /** A request passes exactly when limiting is off, its hostname is new, or the bucket holds a
      whole token by then, having gained rate times the time since its last request up to the
      burst; and it costs one token. */
  lemma PassesExactly(l: Limits, max: int, c: Lru<Bucket>, r: Request)
    requires c.Valid()
    ensures var (c', ok) := Allow(l, max, c, r);
      if l.rate <= 0.0 then ok && c' == c
      else if r.host !in c.entries then
        ok && r.host in c'.entries && c'.entries[r.host] == Bucket(l.burst - 1.0, r.now)
      else
        var b := c.entries[r.host];
        var gained := b.tokens + Gain(l.rate, r.now - b.last);
        var level := if gained > l.burst then l.burst else gained;
        && (ok <==> level >= 1.0)
        && c'.entries == c.entries[r.host := Bucket(if ok then level - 1.0 else level, r.now)]
  {
    WrittenKeySurvives(c, r.host, Bucket(l.burst - 1.0, r.now), max);
  }

  /** While a hostname's bucket stays resident, the requests of that hostname that pass in
      any interval number at most burst plus rate times its length. */
  lemma EdgeBound(l: Limits, max: int, rs: seq<Request>, host: string, i: nat, j: nat)
    requires Sound(l) && InOrder(rs) && i <= j < |rs| && forall k :: i <= k <= j ==> Resident(l, max, rs, host, k)
    ensures Grants(Trace(l, max, rs, host, i, j)) as real <= l.burst + Gain(l.rate, rs[j].now - rs[i].now)
  {
    TraceWithinBound(l, max, rs, host, i, j);
  }

  /** The burst has to be at least one: below that the first request of a hostname, which
      always passes, already exceeds the bound. */
  lemma SmallBurstExceeds(l: Limits, max: int, r: Request)
    requires l.rate > 0.0 && l.burst < 1.0
    ensures Resident(l, max, [r], r.host, 0)
    ensures Grants(Trace(l, max, [r], r.host, 0, 0)) as real > l.burst
  {
    AfterNext(l, max, [r], 0);
    WrittenKeySurvives(Lru(map[], []), r.host, Bucket(l.burst - 1.0, r.now), max);
    assert [r][..0] == [];
    var m := MarkAt(l, max, [r], r.host, 0);
    assert [m][..0] == [];
  }

  class RateLimiter {
    const limits: Limits
    const maxBuckets: int
    const cache: LruCache<Bucket>

    constructor (l: Limits, max: int)
      ensures limits == l && maxBuckets == (if max > 0 then max else 10000)
      ensures fresh(cache) && cache.State() == Lru(map[], []) && cache.State().Valid()
    {
      limits := l;
      maxBuckets := if max > 0 then max else 10000;
      cache := new LruCache();
    }

    method AllowNew(host: string, now: real)
      requires cache.State().Valid() && host !in cache.entries
      modifies cache
      ensures cache.State() == old(cache.State()).Set(host, Bucket(limits.burst - 1.0, now)).Evict(maxBuckets)
      ensures cache.State().Valid()
    {
      var b := Bucket(limits.burst - 1.0, now);
      OperationsKeepAgreement(cache.State(), host, b);
      EvictKeepsRecent(cache.State().Set(host, b), maxBuckets);
      cache.Set(host, b);
      cache.Evict(maxBuckets);
    }

    method Charge(b: Bucket, now: real) returns (b': Bucket, ok: bool)
      ensures (b', ok) == Take(Refill(limits, b, now))
    {
      var tokens := b.tokens + Gain(limits.rate, now - b.last);
      if tokens > limits.burst {
        tokens := limits.burst;
      }
      ok := tokens >= 1.0;
      if ok {
        tokens := tokens - 1.0;
      }
      b' := Bucket(tokens, now);
    }

    method AllowKnown(host: string, now: real) returns (ok: bool)
      requires cache.State().Valid() && host in cache.entries
      modifies cache
      ensures var t := Take(Refill(limits, old(cache.entries)[host], now));
        cache.State() == old(cache.State()).Set(host, t.0) && ok == t.1
      ensures cache.State().Valid()
    {
      var b', charged := Charge(cache.entries[host], now);
      OperationsKeepAgreement(cache.State(), host, b');
      cache.Touch(host);
      cache.entries := cache.entries[host := b'];
      return charged;
    }

    /** Allow as written: a new hostname gets a bucket with one token spent, a known one is
        refilled, capped and charged in place. */
    method AllowHost(host: string, now: real) returns (ok: bool)
      requires cache.State().Valid()
      modifies cache
      ensures (cache.State(), ok) == Allow(limits, maxBuckets, old(cache.State()), Request(host, now))
      ensures cache.State().Valid()
    {
      if limits.rate <= 0.0 {
        return true;
      }
      if host !in cache.entries {
        AllowNew(host, now);
        return true;
      }
      ok := AllowKnown(host, now);
    }
  }

  // ---- the agent's two buckets ----

  datatype Guard = Guard(lookup: real, miss: real, last: real)

  datatype Which = LookupBucket | MissBucket

  datatype Call = Call(which: Which, now: real)

  function RefillBoth(l: Limits, m: Limits, g: Guard, now: real): Guard {
    if now - g.last <= 0.0 then g
    else Guard(Level(l, Bucket(g.lookup, g.last), now), Level(m, Bucket(g.miss, g.last), now), now)
  }

  /** takeCredentialLookup and takeCredentialMiss. */
  function TakeOne(l: Limits, m: Limits, g: Guard, c: Call): (Guard, bool) {
    var g := RefillBoth(l, m, g, c.now);
    match c.which
    case LookupBucket => if g.lookup < 1.0 then (g, false) else (g.(lookup := g.lookup - 1.0), true)
    case MissBucket => if g.miss < 1.0 then (g, false) else (g.(miss := g.miss - 1.0), true)
  }

  /** Both buckets start full. */
  function Calls(l: Limits, m: Limits, start: real, cs: seq<Call>): Guard {
    if cs == [] then Guard(l.burst, m.burst, start) else TakeOne(l, m, Calls(l, m, start, cs[..|cs| - 1]), cs[|cs| - 1]).0
  }

  function Of(g: Guard, w: Which): Bucket {
    Bucket(if w.LookupBucket? then g.lookup else g.miss, g.last)
  }

  function LimitsOf(l: Limits, m: Limits, w: Which): Limits {
    if w.LookupBucket? then l else m
  }

  ghost predicate CallsInOrder(start: real, cs: seq<Call>) {
    && (forall i :: 0 <= i < |cs| ==> start <= cs[i].now)
    && (forall i, j :: 0 <= i < j < |cs| ==> cs[i].now <= cs[j].now)
  }

  predicate GuardOk(l: Limits, m: Limits, g: Guard, now: real) {
    BucketOk(l, Bucket(g.lookup, g.last), now) && BucketOk(m, Bucket(g.miss, g.last), now)
  }

  /** Each call takes from its own bucket what it grants and nothing from the other: a storm
      of misses does not use up lookups. */
  lemma CallIsFair(l: Limits, m: Limits, g: Guard, c: Call, w: Which)
    requires Sound(l) && Sound(m) && GuardOk(l, m, g, c.now)
    ensures var t := TakeOne(l, m, g, c);
      && GuardOk(l, m, t.0, c.now)
      && Level(LimitsOf(l, m, w), Of(t.0, w), c.now)
         == Level(LimitsOf(l, m, w), Of(g, w), c.now) - One(c.which == w && t.1)
  {
    OkHasLevel(l, Bucket(g.lookup, g.last), c.now);
    OkHasLevel(m, Bucket(g.miss, g.last), c.now);
    assert Gain(l.rate, 0.0) == 0.0 && Gain(m.rate, 0.0) == 0.0;
  }

  lemma {:induction false} CallsKeepGuard(l: Limits, m: Limits, start: real, cs: seq<Call>)
    requires Sound(l) && Sound(m) && CallsInOrder(start, cs)
    ensures GuardOk(l, m, Calls(l, m, start, cs), if cs == [] then start else cs[|cs| - 1].now)
  {
    if cs != [] {
      var n := |cs| - 1;
      CallsKeepGuard(l, m, start, cs[..n]);
      CallIsFair(l, m, Calls(l, m, start, cs[..n]), cs[n], LookupBucket);
    }
  }

  function CallMark(l: Limits, m: Limits, start: real, cs: seq<Call>, w: Which, k: nat): Mark
    requires k < |cs|
  {
    var t := TakeOne(l, m, Calls(l, m, start, cs[..k]), cs[k]);
    Mark(Of(t.0, w), cs[k].now, cs[k].which == w && t.1)
  }

  function CallTrace(l: Limits, m: Limits, start: real, cs: seq<Call>, w: Which, i: nat, j: nat): (tr: seq<Mark>)
    requires i <= j < |cs|
    ensures |tr| == j - i + 1 && tr[0] == CallMark(l, m, start, cs, w, i) && tr[j - i] == CallMark(l, m, start, cs, w, j)
  {
    if i == j then [CallMark(l, m, start, cs, w, i)]
    else CallTrace(l, m, start, cs, w, i, j - 1) + [CallMark(l, m, start, cs, w, j)]
  }

  lemma CallPays(l: Limits, m: Limits, start: real, cs: seq<Call>, w: Which, k: nat)
    requires Sound(l) && Sound(m) && CallsInOrder(start, cs) && k < |cs|
    ensures var a := CallMark(l, m, start, cs, w, k); var lw := LimitsOf(l, m, w);
      && 0.0 <= Level(lw, a.bucket, a.now) && Level(lw, a.bucket, a.now) + One(a.granted) <= lw.burst
    ensures k > 0 ==> Pays(LimitsOf(l, m, w), CallMark(l, m, start, cs, w, k - 1), CallMark(l, m, start, cs, w, k))
  {
    var g := Calls(l, m, start, cs[..k]);
    CallsKeepGuard(l, m, start, cs[..k]);
    CallIsFair(l, m, g, cs[k], w);
    OkHasLevel(LimitsOf(l, m, w), Of(g, w), cs[k].now);
    OkHasLevel(LimitsOf(l, m, w), Of(TakeOne(l, m, g, cs[k]).0, w), cs[k].now);
    if k > 0 {
      assert cs[..k][..k - 1] == cs[..k - 1];
      assert CallMark(l, m, start, cs, w, k - 1).bucket == Of(g, w);
    }
  }

  lemma {:induction false} CallsWithinBound(l: Limits, m: Limits, start: real, cs: seq<Call>, w: Which, i: nat, j: nat)
    requires Sound(l) && Sound(m) && CallsInOrder(start, cs) && i <= j < |cs|
    ensures WithinBound(LimitsOf(l, m, w), CallTrace(l, m, start, cs, w, i, j))
  {
    CallPays(l, m, start, cs, w, j);
    if i == j {
      FirstWithinBound(LimitsOf(l, m, w), CallMark(l, m, start, cs, w, i));
    } else {
      CallsWithinBound(l, m, start, cs, w, i, j - 1);
      NextWithinBound(LimitsOf(l, m, w), CallTrace(l, m, start, cs, w, i, j - 1), CallMark(l, m, start, cs, w, j));
    }
  }

  /** The same bound for both of the agent's buckets, whatever the mix of calls. */
  lemma AgentBound(l: Limits, m: Limits, start: real, cs: seq<Call>, w: Which, i: nat, j: nat)
    requires Sound(l) && Sound(m) && CallsInOrder(start, cs) && i <= j < |cs|
    ensures Grants(CallTrace(l, m, start, cs, w, i, j)) as real
      <= LimitsOf(l, m, w).burst + Gain(LimitsOf(l, m, w).rate, cs[j].now - cs[i].now)
  {
    CallsWithinBound(l, m, start, cs, w, i, j);
  }

  /** A call passes exactly when its own bucket holds a whole token by then, each having gained
      its rate times the time that passed up to its burst; and it costs that bucket one token. */
  lemma TakesExactly(l: Limits, m: Limits, g: Guard, c: Call, w: Which)
    ensures var (g', ok) := TakeOne(l, m, g, c);
      var lw, b, b' := LimitsOf(l, m, w), Of(g, w), Of(g', w);
      var gained := if c.now > b.last then b.tokens + Gain(lw.rate, c.now - b.last) else b.tokens;
      var level := if c.now > b.last && gained > lw.burst then lw.burst else gained;
      && (w == c.which ==> (ok <==> level >= 1.0))
      && b'.tokens == (if w == c.which && ok then level - 1.0 else level)
      && b'.last == if c.now > b.last then c.now else b.last
  {
  }

  class CredentialGuard {
    const lookups: Limits
    const misses: Limits
    var credTokens: real
    var credMissTokens: real
    var credLast: real

    ghost function View(): Guard
      reads this
    {
      Guard(credTokens, credMissTokens, credLast)
    }

    constructor (l: Limits, m: Limits, start: real)
      ensures lookups == l && misses == m && View() == Calls(l, m, start, [])
    {
      lookups, misses := l, m;
      credTokens, credMissTokens, credLast := l.burst, m.burst, start;
    }

    method RefillLocked(now: real)
      modifies this
      ensures View() == RefillBoth(lookups, misses, old(View()), now)
    {
      var elapsed := now - credLast;
      if elapsed <= 0.0 {
        return;
      }
      credTokens := Least(credTokens + Gain(lookups.rate, elapsed), lookups.burst);
      credMissTokens := Least(credMissTokens + Gain(misses.rate, elapsed), misses.burst);
      credLast := now;
    }

    method TakeCredentialLookup(now: real) returns (ok: bool)
      modifies this
      ensures (View(), ok) == TakeOne(lookups, misses, old(View()), Call(LookupBucket, now))
    {
      RefillLocked(now);
      if credTokens < 1.0 {
        return false;
      }
      credTokens := credTokens - 1.0;
      return true;
    }

    method TakeCredentialMiss(now: real) returns (ok: bool)
      modifies this
      ensures (View(), ok) == TakeOne(lookups, misses, old(View()), Call(MissBucket, now))
    {
      RefillLocked(now);
      if credMissTokens < 1.0 {
        return false;
      }
      credMissTokens := credMissTokens - 1.0;
      return true;
    }
  }
}
