/** In-flight accounting of the edge (internal/edge/handler.go): the tracker of requests per
    machine, the choice of a backend under the hard limit, the acquire and release paths of a
    request with its one retry, and all of them interleaved. */
module Inflight {
  import opened Base

  datatype Backend = Backend(machine: string, weight: int, draining: bool, readiness: string)

  /** A backend without a positive weight counts as one. */
  function Weight(b: Backend): (w: int)
    ensures w >= 1 && (b.weight > 0 ==> w == b.weight) && (b.weight <= 0 ==> w == 1)
  {
    if b.weight <= 0 then 1 else b.weight
  }

  type Counts = map<string, int>

  function Count(c: Counts, m: string): int {
    if m in c then c[m] else 0
  }

  /** An entry exists exactly for a positive count. */
  predicate Positive(c: Counts) {
    forall m :: m in c ==> c[m] > 0
  }

  function Acquire(c: Counts, m: string): Counts {
    c[m := Count(c, m) + 1]
  }

  function Release(c: Counts, m: string): Counts {
    if m !in c then c else if c[m] - 1 == 0 then c - {m} else c[m := c[m] - 1]
  }

  lemma ReleaseUndoesAcquire(c: Counts, m: string)
    requires Positive(c)
    ensures Release(Acquire(c, m), m) == c && Positive(Acquire(c, m))
  {
  }

  // ---- the choice of a backend ----

  function Eligible(bs: seq<Backend>, c: Counts, hard: int): (r: seq<Backend>)
    ensures forall b :: b in r <==> b in bs && Count(c, b.machine) < hard
  {
    if bs == [] then []
    else
      var n := |bs| - 1;
      Eligible(bs[..n], c, hard) + if Count(c, bs[n].machine) < hard then [bs[n]] else []
  }

  predicate EqualWeights(bs: seq<Backend>) {
    forall i, j :: 0 <= i < |bs| && 0 <= j < |bs| ==> Weight(bs[i]) == Weight(bs[j])
  }

  function Damped(b: Backend, c: Counts): (w: real)
    requires Count(c, b.machine) >= 0
    ensures w > 0.0
  {
    Weight(b) as real / (1 + Count(c, b.machine)) as real
  }

  function Shares(bs: seq<Backend>, c: Counts): (ws: seq<real>)
    requires forall i :: 0 <= i < |bs| ==> Count(c, bs[i].machine) >= 0
    ensures |ws| == |bs| && forall i :: 0 <= i < |ws| ==> ws[i] > 0.0
  {
    seq(|bs|, i requires 0 <= i < |bs| => Damped(bs[i], c))
  }

  /** Shares are in proportion to the weights and in inverse proportion to one plus the requests
      in flight. */
  lemma SharesAreFair(a: Backend, b: Backend, c: Counts)
    requires Count(c, a.machine) >= 0 && Count(c, b.machine) >= 0
    ensures Damped(a, c) * (1 + Count(c, a.machine)) as real * Weight(b) as real
         == Damped(b, c) * (1 + Count(c, b.machine)) as real * Weight(a) as real
  {
    var x, y := (1 + Count(c, a.machine)) as real, (1 + Count(c, b.machine)) as real;
    assert Damped(a, c) * x == Weight(a) as real;
    assert Damped(b, c) * y == Weight(b) as real;
  }

  /** The sum of the first k shares. */
  function Mass(ws: seq<real>, k: nat): real
    requires k <= |ws|
  {
    if k == 0 then 0.0 else Mass(ws, k - 1) + ws[k - 1]
  }

  /** The k-th is drawn: the point lies in its share of the total. */
  ghost predicate Drawn(ws: seq<real>, aim: real, k: nat) {
    k < |ws| && Mass(ws, k) <= aim < Mass(ws, k + 1)
  }

  /** Only one can be drawn. */
  lemma {:induction false} MassRises(ws: seq<real>, i: nat, j: nat)
    requires i <= j <= |ws| && forall k :: 0 <= k < |ws| ==> ws[k] > 0.0
    ensures Mass(ws, i) <= Mass(ws, j)
  {
    if i < j {
      MassRises(ws, i, j - 1);
    }
  }

  lemma DrawnIsUnique(ws: seq<real>, aim: real, i: nat, j: nat)
    requires Drawn(ws, aim, i) && Drawn(ws, aim, j) && forall k :: 0 <= k < |ws| ==> ws[k] > 0.0
    ensures i == j
  {
    if i < j {
      MassRises(ws, i + 1, j);
    } else if j < i {
      MassRises(ws, j + 1, i);
    }
  }

  method Total(ws: seq<real>) returns (total: real)
    ensures total == Mass(ws, |ws|)
  {
    total := 0.0;
    for i := 0 to |ws|
      invariant total == Mass(ws, i)
    {
      total := total + ws[i];
    }
  }

  /** The walk of the weighted draw.  The aim always falls into some share, so the source's
      last resort is not needed. */
  method Walk(ws: seq<real>, aim: real) returns (k: nat)
    requires 0.0 <= aim < Mass(ws, |ws|)
    ensures Drawn(ws, aim, k)
  {
    var pick := aim;
    k := 0;
    while pick - ws[k] >= 0.0
      invariant k < |ws| && pick == aim - Mass(ws, k) && pick >= 0.0
      decreases |ws| - k
    {
      pick := pick - ws[k];
      k := k + 1;
    }
  }

  lemma PointIsInside(point: real, total: real)
    requires 0.0 <= point < 1.0 && total > 0.0
    ensures 0.0 <= point * total < total
  {
  }

  function Aim(point: real, ws: seq<real>): real {
    point * Mass(ws, |ws|)
  }

  method Draw(ws: seq<real>, point: real) returns (k: nat)
    requires ws != [] && 0.0 <= point < 1.0 && forall i :: 0 <= i < |ws| ==> ws[i] > 0.0
    ensures Drawn(ws, Aim(point, ws), k)
  {
    var total := Total(ws);
    MassRises(ws, 1, |ws|);
    assert Mass(ws, 1) == ws[0];
    PointIsInside(point, total);
    k := Walk(ws, point * total);
  }

  /** The backends below the limit have the same weight. */
  ghost predicate OpenAlike(bs: seq<Backend>, c: Counts, hard: int) {
    forall a, b ::
      a in bs && b in bs && Count(c, a.machine) < hard && Count(c, b.machine) < hard ==> Weight(a) == Weight(b)
  }

  class Tracker {
    var counts: Counts

    constructor ()
      ensures counts == map[]
    {
      counts := map[];
    }

    method ReleaseOne(m: string)
      modifies this
      ensures counts == Release(old(counts), m)
    {
      if m in counts {
        var n := counts[m] - 1;
        if n == 0 {
          counts := counts - {m};
        } else {
          counts := counts[m := n];
        }
      }
    }

    method FindEligible(bs: seq<Backend>, hard: int) returns (r: seq<Backend>)
      ensures r == Eligible(bs, counts, hard)
    {
      r := [];
      for i := 0 to |bs|
        invariant r == Eligible(bs[..i], counts, hard)
      {
        assert bs[..i + 1][..i] == bs[..i];
        if Count(counts, bs[i].machine) < hard {
          r := r + [bs[i]];
        }
      }
      assert bs[..|bs|] == bs;
    }

    method AllEqual(bs: seq<Backend>) returns (b: bool)
      requires bs != []
      ensures b <==> EqualWeights(bs)
    {
      for i := 1 to |bs|
        invariant forall k :: 0 <= k < i ==> Weight(bs[k]) == Weight(bs[0])
      {
        if Weight(bs[i]) != Weight(bs[0]) {
          return false;
        }
      }
      return true;
    }

    /** Among equal weights: uniformly one of the least loaded. */
    method PickLeast(bs: seq<Backend>, dice: nat) returns (b: Backend)
      requires bs != []
      ensures b in bs && forall o :: o in bs ==> Count(counts, b.machine) <= Count(counts, o.machine)
    {
      var least := Count(counts, bs[0].machine);
      for i := 1 to |bs|
        invariant forall k :: 0 <= k < i ==> least <= Count(counts, bs[k].machine)
        invariant exists k :: 0 <= k < i && least == Count(counts, bs[k].machine)
      {
        if Count(counts, bs[i].machine) < least {
          least := Count(counts, bs[i].machine);
        }
      }
      var pool := [];
      for i := 0 to |bs|
        invariant forall o :: o in pool ==> o in bs && Count(counts, o.machine) == least
        invariant (exists k :: 0 <= k < i && Count(counts, bs[k].machine) == least) ==> pool != []
      {
        if Count(counts, bs[i].machine) == least {
          pool := pool + [bs[i]];
        }
      }
      b := pool[dice % |pool|];
    }

    /** Among different weights: in proportion to the damped weights. */
    method PickWeighted(bs: seq<Backend>, point: real) returns (b: Backend, k: nat)
      requires bs != [] && 0.0 <= point < 1.0 && forall i :: 0 <= i < |bs| ==> Count(counts, bs[i].machine) >= 0
      ensures k < |bs| && b == bs[k]
      ensures Drawn(Shares(bs, counts), Aim(point, Shares(bs, counts)), k)
    {
      var i := Draw(Shares(bs, counts), point);
      return bs[i], i;
    }

    /** selectAndAcquire: fails exactly when every backend is at the limit; otherwise takes a
        slot of one that is not, a least loaded one when the weights are equal and one drawn
        in proportion to weight / (1 + in flight) when they differ. */
    method SelectAndAcquire(bs: seq<Backend>, hard: int, dice: nat, point: real) returns (chosen: Option<Backend>)
      requires Positive(counts) && 0.0 <= point < 1.0
      modifies this
      ensures Positive(counts)
      ensures chosen.None? <==> forall b :: b in bs ==> Count(old(counts), b.machine) >= hard
      ensures counts == if chosen.Some? then Acquire(old(counts), chosen.value.machine) else old(counts)
      ensures chosen.Some? ==> chosen.value in bs && Count(old(counts), chosen.value.machine) < hard
      ensures chosen.Some? && OpenAlike(bs, old(counts), hard) ==>
        forall b :: b in bs ==> Count(old(counts), chosen.value.machine) <= Count(old(counts), b.machine)
      ensures chosen.Some? && !EqualWeights(Eligible(bs, old(counts), hard)) ==>
        (var eligible := Eligible(bs, old(counts), hard);
         var ws := Shares(eligible, old(counts));
         exists k: nat :: Drawn(ws, Aim(point, ws), k) && chosen.value == eligible[k])
    {
      var eligible := FindEligible(bs, hard);
      if |eligible| == 0 {
        return None;
      }
      assert eligible[0] in bs;
      var equal := AllEqual(eligible);
      var b;
      if equal {
        b := PickLeast(eligible, dice);
      } else {
        var k;
        b, k := PickWeighted(eligible, point);
      }
      counts := Acquire(counts, b.machine);
      return Some(b);
    }
  }

  // ---- one request ----

  predicate Servable(b: Backend) {
    !b.draining && (b.readiness == "READY" || b.readiness == "UNCONFIGURED")
  }

  predicate Candidate(b: Backend, pin: string) {
    Servable(b) && (pin == "" || b.machine == pin)
  }

  datatype Selection = Chosen(b: Backend) | NoEligible | PinMiss | HardLimit

  /** Why an attempt ended: served, or worth a retry. */
  datatype Retry = RetryNone | RetryForbidden | RetryTransport

  /** What forwarding meets: whether the direct path is open to this backend, how it went
      (rejected, failed, response bytes already written, client gone, body not consumed), and
      how the agent's proxy answers. */
  datatype Upstream = Upstream(
    direct: bool, forbidden: bool, failed: bool, started: bool, cancelled: bool, retriable: bool, legacy: Retry)

  /** A failed direct attempt may be repeated through the agent's proxy. */
  predicate FallsBack(u: Upstream, hasBody: bool) {
    !u.forbidden && u.failed && !u.started && !u.cancelled && (!hasBody || u.retriable)
  }

  function Outcome(u: Upstream, hasBody: bool): Retry {
    if !u.direct || FallsBack(u, hasBody) then u.legacy else if u.forbidden then RetryForbidden else RetryNone
  }

  /** What a request meets on its way: routes, token lookups, random draws, upstreams. */
  datatype Attempt = Attempt(route: seq<Backend>, dice: nat, point: real, tokenOk: bool, upstream: Upstream)

  class Handler {
    const tracker: Tracker
    const hard: int

    constructor (limit: int)
      ensures fresh(tracker) && tracker.counts == map[] && hard == limit
    {
      tracker := new Tracker();
      hard := limit;
    }

    method FindServable(route: seq<Backend>) returns (r: seq<Backend>)
      ensures forall b :: b in r <==> b in route && Servable(b)
    {
      r := [];
      for i := 0 to |route|
        invariant forall b :: b in r <==> b in route[..i] && Servable(b)
      {
        assert route[..i + 1] == route[..i] + [route[i]];
        if Servable(route[i]) {
          r := r + [route[i]];
        }
      }
      assert route[..|route|] == route;
    }

    /** selectBackend: an error takes no slot, and says why nothing could be chosen. */
    method SelectBackend(route: seq<Backend>, pin: string, dice: nat, point: real) returns (s: Selection)
      requires Positive(tracker.counts) && 0.0 <= point < 1.0
      modifies tracker
      ensures Positive(tracker.counts)
      ensures s.NoEligible? <==>
        forall b :: b in route ==> b.draining || (b.readiness != "READY" && b.readiness != "UNCONFIGURED")
      ensures s.PinMiss? <==>
        && pin != "" && (exists b :: b in route && Servable(b))
        && forall b :: b in route && Servable(b) ==> b.machine != pin
      ensures s.HardLimit? <==>
        && (exists b :: b in route && Candidate(b, pin))
        && forall b :: b in route && Candidate(b, pin) ==> Count(old(tracker.counts), b.machine) >= hard
      ensures s.Chosen? ==>
        && s.b in route && !s.b.draining && (s.b.readiness == "READY" || s.b.readiness == "UNCONFIGURED")
        && (pin == "" || s.b.machine == pin) && Count(old(tracker.counts), s.b.machine) < hard
      ensures tracker.counts == if s.Chosen? then Acquire(old(tracker.counts), s.b.machine) else old(tracker.counts)
    {
      var eligible := FindServable(route);
      if |eligible| == 0 {
        return NoEligible;
      }
      assert eligible[0] in route;
      if pin != "" {
        for i := 0 to |eligible|
          invariant tracker.counts == old(tracker.counts)
          invariant forall k :: 0 <= k < i ==> eligible[k].machine != pin
        {
          if eligible[i].machine == pin {
            assert eligible[i] in route && Candidate(eligible[i], pin);
            var one := tracker.SelectAndAcquire([eligible[i]], hard, dice, point);
            assert eligible[i] in [eligible[i]];
            if one.None? {
              return HardLimit;
            }
            return Chosen(one.value);
          }
        }
        return PinMiss;
      }
      var chosen := tracker.SelectAndAcquire(eligible, hard, dice, point);
      assert eligible[0] in eligible;
      if chosen.None? {
        return HardLimit;
      }
      return Chosen(chosen.value);
    }

    /** tryServe: the direct path first where it is open, the agent's proxy otherwise or after
        a failure that left nothing written and nothing consumed.  Whatever happens, the slot
        is given back at the end. */
    method TryServe(b: Backend, hasBody: bool, u: Upstream) returns (r: Retry, proxied: bool)
      modifies tracker
      ensures r == Outcome(u, hasBody) && tracker.counts == Release(old(tracker.counts), b.machine)
      ensures r == if proxied then u.legacy else if u.direct && u.forbidden then RetryForbidden else RetryNone
      ensures proxied <==>
        !u.direct || (u.failed && !u.forbidden && !u.started && !u.cancelled && (hasBody ==> u.retriable))
      ensures r.RetryTransport? ==> proxied
      ensures u.direct && u.started ==> !proxied
    {
      r, proxied := RetryNone, false;
      if u.direct && u.forbidden {
        r := RetryForbidden;
      } else if !u.direct || (u.failed && !u.started && !u.cancelled && (!hasBody || u.retriable)) {
        r, proxied := u.legacy, true;
      }
      tracker.ReleaseOne(b.machine);
    }

    /** The slot paths of ServeHTTP: every return of both attempts leaves the counts as they
        were, so each slot that was taken was given back exactly once.  A request is forwarded
        at all exactly when a candidate is below the limit and its token is there, and a
        second time only after a retriable first attempt without a body. */
    method ServeHttp(pin: string, hasBody: bool, first: Attempt, second: Attempt) returns (forwarded: nat)
      requires Positive(tracker.counts) && 0.0 <= first.point < 1.0 && 0.0 <= second.point < 1.0
      modifies tracker
      ensures tracker.counts == old(tracker.counts)
      ensures forwarded >= 1 <==>
        first.tokenOk && exists b :: b in first.route && Candidate(b, pin) && Count(old(tracker.counts), b.machine) < hard
      ensures forwarded == 2 <==>
        && forwarded >= 1 && Outcome(first.upstream, hasBody) != RetryNone && !hasBody && second.tokenOk
        && exists b :: b in second.route && Candidate(b, pin) && Count(old(tracker.counts), b.machine) < hard
      ensures forwarded <= 2
    {
      forwarded := 0;
      var s := SelectBackend(first.route, pin, first.dice, first.point);
      if !s.Chosen? {
        return;
      }
      ReleaseUndoesAcquire(old(tracker.counts), s.b.machine);
      if !first.tokenOk {
        tracker.ReleaseOne(s.b.machine);
        return;
      }
      var retry, _ := TryServe(s.b, hasBody, first.upstream);
      forwarded := 1;
      if retry == RetryNone || hasBody {
        return;
      }
      var again := SelectBackend(second.route, pin, second.dice, second.point);
      if !again.Chosen? {
        return;
      }
      ReleaseUndoesAcquire(old(tracker.counts), again.b.machine);
      if !second.tokenOk {
        tracker.ReleaseOne(again.b.machine);
        return;
      }
      var terminal, _ := TryServe(again.b, hasBody, second.upstream);
      forwarded := 2;
    }
  }

  // ---- all requests interleaved ----

  /** Where a request is: before a choice (of the first or the second attempt), holding a
      slot, or finished.  `taken` and `given` count its acquisitions and releases. */
  datatype Phase = Choosing(second: bool) | Waiting(m: string, second: bool) | Serving(m: string, second: bool) | Finished

  datatype Request = Request(phase: Phase, taken: nat, given: nat)

  datatype World = World(counts: Counts, requests: map<string, Request>)

  datatype Event =
    | Arrived(r: string)
    | Picked(r: string, m: string)
    | PickFailed(r: string)
    | TokenRead(r: string, ok: bool)
    | Ended(r: string, again: bool)

  predicate Holds(q: Request, m: string) {
    (q.phase.Waiting? || q.phase.Serving?) && q.phase.m == m
  }

  function Holders(w: World, m: string): set<string> {
    set r | r in w.requests && Holds(w.requests[r], m)
  }

  function Taken(w: World, r: string, m: string, hard: int): World
    requires r in w.requests && w.requests[r].phase.Choosing?
  {
    var q := w.requests[r];
    if Count(w.counts, m) >= hard then w
    else World(Acquire(w.counts, m), w.requests[r := Request(Waiting(m, q.phase.second), q.taken + 1, q.given)])
  }

  function Given(w: World, r: string, next: Phase): World
    requires r in w.requests && (w.requests[r].phase.Waiting? || w.requests[r].phase.Serving?)
  {
    var q := w.requests[r];
    World(Release(w.counts, q.phase.m), w.requests[r := Request(next, q.taken, q.given + 1)])
  }

  /** A step of one request; a step that does not fit the request's phase does nothing. */
  function Apply(w: World, e: Event, hard: int): World {
    if e.Arrived? then
      if e.r in w.requests then w else w.(requests := w.requests[e.r := Request(Choosing(false), 0, 0)])
    else if e.r !in w.requests then w
    else
      var q := w.requests[e.r];
      match e
      case Picked(r, m) => if q.phase.Choosing? then Taken(w, r, m, hard) else w
      case PickFailed(r) => if q.phase.Choosing? then w.(requests := w.requests[r := q.(phase := Finished)]) else w
      case TokenRead(r, ok) =>
        if !q.phase.Waiting? then w
        else if ok then w.(requests := w.requests[r := q.(phase := Serving(q.phase.m, q.phase.second))])
        else Given(w, r, Finished)
      case Ended(r, again) =>
        if q.phase.Serving? then Given(w, r, if again && !q.phase.second then Choosing(true) else Finished) else w
  }

  function Run(es: seq<Event>, hard: int): World {
    if es == [] then World(map[], map[]) else Apply(Run(es[..|es| - 1], hard), es[|es| - 1], hard)
  }

  predicate RequestOk(q: Request) {
    && q.taken - q.given == (if q.phase.Waiting? || q.phase.Serving? then 1 else 0)
    && q.taken <= (match q.phase
                   case Choosing(second) => if second then 1 else 0
                   case Waiting(_, second) => if second then 2 else 1
                   case Serving(_, second) => if second then 2 else 1
                   case Finished => 2)
  }

  ghost predicate MachineOk(w: World, m: string, hard: int) {
    Count(w.counts, m) == |Holders(w, m)| && (m in w.counts ==> 0 < w.counts[m] <= hard)
  }

  /** Every count is the number of requests that hold a slot of the machine, has an entry
      exactly when positive, and stays within the limit; every request has given back what
      it took but for the slot it holds. */
  ghost predicate Conserved(w: World, hard: int) {
    && (forall m {:trigger MachineOk(w, m, hard)} :: MachineOk(w, m, hard))
    && (forall r :: r in w.requests ==> RequestOk(w.requests[r]))
  }

  lemma HoldersChange(w: World, c: Counts, r: string, q: Request, m: string)
    ensures Holders(World(c, w.requests[r := q]), m) == (Holders(w, m) - {r}) + if Holds(q, m) then {r} else {}
  {
  }

  lemma MoveConserves(w: World, r: string, q: Request, hard: int)
    requires Conserved(w, hard) && RequestOk(q)
    requires forall m :: Holds(q, m) <==> r in w.requests && Holds(w.requests[r], m)
    ensures Conserved(w.(requests := w.requests[r := q]), hard)
  {
    var w' := w.(requests := w.requests[r := q]);
    forall m ensures MachineOk(w', m, hard) {
      assert MachineOk(w, m, hard);
      HoldersChange(w, w.counts, r, q, m);
      assert Holders(w', m) == Holders(w, m);
    }
  }

  lemma TakenConserves(w: World, r: string, m: string, hard: int)
    requires Conserved(w, hard) && r in w.requests && w.requests[r].phase.Choosing?
    ensures Conserved(Taken(w, r, m, hard), hard)
  {
    var w' := Taken(w, r, m, hard);
    if w' != w {
      assert RequestOk(w.requests[r]) && RequestOk(w'.requests[r]);
      forall n ensures MachineOk(w', n, hard) {
        assert MachineOk(w, n, hard);
        HoldersChange(w, w'.counts, r, w'.requests[r], n);
        assert r !in Holders(w, n);
      }
    }
  }

  lemma GivenConserves(w: World, r: string, next: Phase, hard: int)
    requires Conserved(w, hard) && r in w.requests && (w.requests[r].phase.Waiting? || w.requests[r].phase.Serving?)
    requires next.Finished? || (next == Choosing(true) && !w.requests[r].phase.second)
    ensures Conserved(Given(w, r, next), hard)
  {
    var w' := Given(w, r, next);
    assert RequestOk(w.requests[r]) && RequestOk(w'.requests[r]);
    forall n ensures MachineOk(w', n, hard) {
      assert MachineOk(w, n, hard);
      HoldersChange(w, w'.counts, r, w'.requests[r], n);
      assert r in Holders(w, n) <==> n == w.requests[r].phase.m;
    }
  }

  lemma StepConserves(w: World, e: Event, hard: int)
    requires Conserved(w, hard)
    ensures Conserved(Apply(w, e, hard), hard)
  {
    if e.Arrived? && e.r !in w.requests {
      MoveConserves(w, e.r, Request(Choosing(false), 0, 0), hard);
    } else if !e.Arrived? && e.r in w.requests {
      var q := w.requests[e.r];
      assert RequestOk(q);
      match e
      case Picked(r, m) => if q.phase.Choosing? { TakenConserves(w, r, m, hard); }
      case PickFailed(r) => if q.phase.Choosing? { MoveConserves(w, r, q.(phase := Finished), hard); }
      case TokenRead(r, ok) =>
        if q.phase.Waiting? && ok {
          MoveConserves(w, r, q.(phase := Serving(q.phase.m, q.phase.second)), hard);
        } else if q.phase.Waiting? {
          GivenConserves(w, r, Finished, hard);
        }
      case Ended(r, again) =>
        if q.phase.Serving? {
          GivenConserves(w, r, if again && !q.phase.second then Choosing(true) else Finished, hard);
        }
    }
  }

  lemma {:induction false} RunConserves(es: seq<Event>, hard: int)
    ensures Conserved(Run(es, hard), hard)
  {
    if es == [] {
      forall m ensures MachineOk(Run(es, hard), m, hard) {
        assert Holders(Run(es, hard), m) == {};
      }
    } else {
      RunConserves(es[..|es| - 1], hard);
      StepConserves(Run(es[..|es| - 1], hard), es[|es| - 1], hard);
    }
  }

  /** When every request has finished, each has given back every slot it took, at most one
      per attempt, and nothing is counted any more. */
  lemma AllSlotsComeBack(es: seq<Event>, hard: int)
    requires forall r :: r in Run(es, hard).requests ==> Run(es, hard).requests[r].phase.Finished?
    ensures Run(es, hard).counts == map[]
    ensures forall r :: r in Run(es, hard).requests ==>
      Run(es, hard).requests[r].taken == Run(es, hard).requests[r].given <= 2
  {
    RunConserves(es, hard);
    var w := Run(es, hard);
    forall m ensures m !in w.counts {
      assert MachineOk(w, m, hard);
      assert Holders(w, m) == {};
    }
    forall r | r in w.requests ensures w.requests[r].taken == w.requests[r].given <= 2 {
      assert RequestOk(w.requests[r]);
    }
  }
}
