/** The converse of the token buckets' bound: a request is refused only when the bound has been
    reached (internal/edge/edge.go, internal/agent/proxy/proxy.go). */
module Refusals {
  import L = Lru
  import opened TokenBucket

  // ---- the converse law ----

  lemma LevelGains(l: Limits, b: Bucket, now: real, later: real)
    requires l.rate > 0.0 && now <= later
    ensures Level(l, b, later) == Least(Level(l, b, now) + Gain(l.rate, later - now), l.burst)
  {
    GainAdds(l.rate, now - b.last, later - now);
    GainGrows(l.rate, later - now);
  }

  /** The grants and what is left account for the burst and all that came in since then. */
  ghost predicate EarnedSince(l: Limits, tr: seq<Mark>, since: real) {
    && tr != []
    && var m := tr[|tr| - 1];
       Grants(tr) as real + Level(l, m.bucket, m.now) >= l.burst + Gain(l.rate, m.now - since)
  }

  lemma FullEarns(l: Limits, m: Mark)
    requires Level(l, m.bucket, m.now) + One(m.granted) >= l.burst
    ensures EarnedSince(l, [m], m.now)
  {
    assert [m][..0] == [];
    assert Grants([m]) as real == One(m.granted);
    assert Gain(l.rate, 0.0) == 0.0;
  }

  /** The converse law: nothing is lost but what overflows a full bucket. */
  lemma NextEarns(l: Limits, tr: seq<Mark>, m: Mark, since: real)
    requires l.rate > 0.0 && EarnedSince(l, tr, since) && Pays(l, tr[|tr| - 1], m)
    ensures EarnedSince(l, tr + [m], since) || EarnedSince(l, [m], m.now)
  {
    var a := tr[|tr| - 1];
    assert (tr + [m])[..|tr|] == tr;
    assert Grants(tr + [m]) as real == Grants(tr) as real + One(m.granted);
    LevelGains(l, a.bucket, a.now, m.now);
    GainAdds(l.rate, a.now - since, m.now - a.now);
    if Level(l, m.bucket, m.now) + One(m.granted) >= l.burst {
      FullEarns(l, m);
    }
  }

  /** Each event of the trace comes later than the one before and pays for what it grants. */
  ghost predicate Paying(l: Limits, tr: seq<Mark>) {
    forall k :: 0 < k < |tr| ==> Pays(l, tr[k - 1], tr[k])
  }

  /** A trace that starts with a full bucket accounts for the burst and all that came in since
      one of its moments. */
  lemma {:induction false} TraceEarns(l: Limits, tr: seq<Mark>) returns (k: nat)
    requires l.rate > 0.0 && tr != [] && Paying(l, tr)
    requires Level(l, tr[0].bucket, tr[0].now) + One(tr[0].granted) >= l.burst
    ensures k < |tr| && EarnedSince(l, tr[k..], tr[k].now)
  {
    var n := |tr| - 1;
    if n == 0 {
      k := 0;
      FullEarns(l, tr[0]);
      assert tr[0..] == [tr[0]];
    } else {
      var front := tr[..n];
      k := TraceEarns(l, front);
      assert Pays(l, tr[n - 1], tr[n]);
      NextEarns(l, front[k..], tr[n], tr[k].now);
      assert tr[k..] == front[k..] + [tr[n]] && tr[n..] == [tr[n]];
      if !EarnedSince(l, tr[k..], tr[k].now) {
        k := n;
      }
    }
  }

  lemma LowHasSpent(l: Limits, tr: seq<Mark>, since: real)
    requires EarnedSince(l, tr, since) && Level(l, tr[|tr| - 1].bucket, tr[|tr| - 1].now) < 1.0
    ensures Grants(tr) as real > l.burst - 1.0 + Gain(l.rate, tr[|tr| - 1].now - since)
  {
  }

  /** From event k to the end of the trace more was granted than the burst minus one plus rate
      times the time. */
  ghost predicate HasSpent(l: Limits, tr: seq<Mark>, k: nat) {
    k < |tr| && Grants(tr[k..]) as real > l.burst - 1.0 + Gain(l.rate, tr[|tr| - 1].now - tr[k].now)
  }

  /** So a bucket that is short of a token has spent as much since some moment. */
  lemma ShortHasSpent(l: Limits, tr: seq<Mark>) returns (k: nat)
    requires l.rate > 0.0 && tr != [] && Paying(l, tr)
    requires Level(l, tr[0].bucket, tr[0].now) + One(tr[0].granted) >= l.burst
    requires Level(l, tr[|tr| - 1].bucket, tr[|tr| - 1].now) < 1.0
    ensures HasSpent(l, tr, k)
  {
    k := TraceEarns(l, tr);
    LowHasSpent(l, tr[k..], tr[k].now);
  }

  // ---- the edge's limiter ----

  lemma PayingNext(l: Limits, tr: seq<Mark>, m: Mark)
    requires Paying(l, tr) && (tr != [] ==> Pays(l, tr[|tr| - 1], m))
    ensures Paying(l, tr + [m])
  {
  }

  lemma {:induction false} TracePays(l: Limits, max: int, rs: seq<Request>, host: string, i: nat, j: nat)
    requires Sound(l) && InOrder(rs) && i <= j < |rs| && forall k :: i <= k <= j ==> Resident(l, max, rs, host, k)
    ensures Paying(l, Trace(l, max, rs, host, i, j))
  {
    if i < j {
      TracePays(l, max, rs, host, i, j - 1);
      StepPays(l, max, rs, host, j);
      PayingNext(l, Trace(l, max, rs, host, i, j - 1), MarkAt(l, max, rs, host, j));
    }
  }

  lemma NewIsFull(l: Limits, max: int, rs: seq<Request>, i: nat)
    requires Sound(l) && InOrder(rs) && i < |rs| && rs[i].host !in Run(l, max, rs[..i]).entries
    ensures Resident(l, max, rs, rs[i].host, i)
    ensures var m := MarkAt(l, max, rs, rs[i].host, i); Level(l, m.bucket, m.now) + One(m.granted) == l.burst
  {
    NewBucketLevel(l, max, rs, i);
    assert Gain(l.rate, 0.0) == 0.0;
  }

  /** The bound is reached: whenever a request is refused, there is a moment since its bucket was
      made from which on more requests of its hostname passed than burst minus one plus rate
      times the time. */
  lemma RefusalIsEarned(l: Limits, max: int, rs: seq<Request>, host: string, i: nat, j: nat) returns (k: nat)
    requires Sound(l) && InOrder(rs) && i <= j < |rs| && rs[i].host == host && rs[j].host == host
    requires forall h :: i <= h <= j ==> Resident(l, max, rs, host, h)
    requires host !in Run(l, max, rs[..i]).entries && !Allowed(l, max, rs, j)
    ensures HasSpent(l, Trace(l, max, rs, host, i, j), k)
  {
    TracePays(l, max, rs, host, i, j);
    NewIsFull(l, max, rs, i);
    RefusedIsLow(l, max, rs, j);
    var tr := Trace(l, max, rs, host, i, j);
    k := ShortHasSpent(l, tr);
  }

  lemma RefusedLevel(l: Limits, max: int, c: L.Lru<Bucket>, r: Request)
    requires l.rate > 0.0 && !Allow(l, max, c, r).1
    ensures r.host in Allow(l, max, c, r).0.entries && Level(l, Allow(l, max, c, r).0.entries[r.host], r.now) < 1.0
  {
    assert Gain(l.rate, 0.0) == 0.0;
  }

  lemma RefusedIsLow(l: Limits, max: int, rs: seq<Request>, j: nat)
    requires Sound(l) && j < |rs| && Resident(l, max, rs, rs[j].host, j) && !Allowed(l, max, rs, j)
    ensures var m := MarkAt(l, max, rs, rs[j].host, j); Level(l, m.bucket, m.now) < 1.0
  {
    AfterNext(l, max, rs, j);
    RefusedLevel(l, max, Run(l, max, rs[..j]), rs[j]);
  }

  // ---- the agent's two buckets ----

  lemma {:induction false} CallTraceAt(l: Limits, m: Limits, start: real, cs: seq<Call>, w: Which, j: nat, h: nat)
    requires h <= j < |cs|
    ensures CallTrace(l, m, start, cs, w, 0, j)[h] == CallMark(l, m, start, cs, w, h)
  {
    if h < j {
      CallTraceAt(l, m, start, cs, w, j - 1, h);
    }
  }

  /** The full bucket at the start and then the calls. */
  function WithStart(l: Limits, m: Limits, start: real, cs: seq<Call>, w: Which, j: nat): seq<Mark>
    requires j < |cs|
  {
    [Mark(Bucket(LimitsOf(l, m, w).burst, start), start, false)] + CallTrace(l, m, start, cs, w, 0, j)
  }

  lemma WithStartPays(l: Limits, m: Limits, start: real, cs: seq<Call>, w: Which, j: nat)
    requires Sound(l) && Sound(m) && CallsInOrder(start, cs) && j < |cs|
    ensures Paying(LimitsOf(l, m, w), WithStart(l, m, start, cs, w, j))
  {
    var tr := WithStart(l, m, start, cs, w, j);
    FirstCallPays(l, m, start, cs, w);
    forall k | 0 < k < |tr| ensures Pays(LimitsOf(l, m, w), tr[k - 1], tr[k]) {
      CallTraceAt(l, m, start, cs, w, j, k - 1);
      if k > 1 {
        CallTraceAt(l, m, start, cs, w, j, k - 2);
        CallPays(l, m, start, cs, w, k - 1);
      }
    }
  }

  lemma FirstCallPays(l: Limits, m: Limits, start: real, cs: seq<Call>, w: Which)
    requires Sound(l) && Sound(m) && CallsInOrder(start, cs) && cs != []
    ensures Pays(LimitsOf(l, m, w), Mark(Bucket(LimitsOf(l, m, w).burst, start), start, false), CallMark(l, m, start, cs, w, 0))
  {
    assert cs[..0] == [];
    CallPays(l, m, start, cs, w, 0);
    CallIsFair(l, m, Guard(l.burst, m.burst, start), cs[0], w);
  }

  /** And the agent's bound is reached too: a refused call has had, since the start or an earlier
      call, more grants of its kind than burst minus one plus rate times the time. */
  lemma AgentRefusalIsEarned(l: Limits, m: Limits, start: real, cs: seq<Call>, j: nat) returns (k: nat)
    requires Sound(l) && Sound(m) && CallsInOrder(start, cs) && j < |cs|
    requires !TakeOne(l, m, Calls(l, m, start, cs[..j]), cs[j]).1
    ensures HasSpent(LimitsOf(l, m, cs[j].which), WithStart(l, m, start, cs, cs[j].which, j), k)
  {
    var w := cs[j].which;
    var lw, tr := LimitsOf(l, m, w), WithStart(l, m, start, cs, w, j);
    WithStartPays(l, m, start, cs, w, j);
    assert Gain(lw.rate, 0.0) == 0.0;
    RefusedCallIsLow(l, m, start, cs, j);
    k := ShortHasSpent(lw, tr);
  }

  lemma RefusedCallIsLow(l: Limits, m: Limits, start: real, cs: seq<Call>, j: nat)
    requires Sound(l) && Sound(m) && CallsInOrder(start, cs) && j < |cs|
    requires !TakeOne(l, m, Calls(l, m, start, cs[..j]), cs[j]).1
    ensures var a := CallMark(l, m, start, cs, cs[j].which, j); Level(LimitsOf(l, m, cs[j].which), a.bucket, a.now) < 1.0
  {
    var g := Calls(l, m, start, cs[..j]);
    CallsKeepGuard(l, m, start, cs[..j]);
    assert Gain(LimitsOf(l, m, cs[j].which).rate, 0.0) == 0.0;
  }
}
