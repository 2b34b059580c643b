/** The autoscale decision loop (internal/controlplane/controller/autoscale.go): what
    the leader remembers per app (stable window, scale-up freeze, policy fingerprint,
    rejection streak) and the order in which one tick decides.  Rejections are noted by
    other workers while a tick is under way, so a tick is split where it looks at the
    freeze.  Everything a tick reads is an arbitrary observation; times are in
    nanoseconds. */
module AutoscaleLoop {
  import opened Base
  import opened Autoscale
  import opened Traces

  const SECOND := 1_000_000_000
  const STREAK_THRESHOLD := 3

  datatype Timer = Timer(want: int, since: int)

  datatype Cas = Swapped | Conflict | Failed

  datatype Capacity = Capacity(ready: nat, warming: nat)

  /** What one tick reads about an app.  A None is a failed read; for `extra` it is a
      hold because an enabled dimension has no sample. */
  datatype Observation = Observation(
    now: int, policy: Policy, deleted: bool, desired: int, hasTarget: bool, rollout: bool,
    signal: Option<Signal>, capacity: Option<Capacity>, extra: Option<Extra>, cas: Cas)

  /** A tick under way: it has what it needs, and then it has looked at the freeze. */
  datatype Pending = Reading(o: Observation) | Judged(o: Observation, found: bool)

  datatype AppState = AppState(
    timer: Option<Timer>, frozenUntil: Option<int>, noted: bool, policy: Option<Policy>, streak: nat,
    pending: Option<Pending>)

  const FORGOTTEN := AppState(None, None, false, None, 0, None)

  /** The compare-and-swap of the desired count that a tick issues, whatever its answer. */
  datatype Outcome = Hold | ScaleUp(to: int) | ScaleDown(to: int)

  // ---- one tick ----

  predicate Off(o: Observation) {
    !o.policy.enabled || o.deleted
  }

  /** The tick read everything it needs to compute a want. */
  predicate Sighted(o: Observation) {
    o.hasTarget && !o.rollout && o.signal.Some? && o.signal.value.hasFresh && o.capacity.Some? && o.extra.Some?
  }

  function WantOf(o: Observation): int
    requires Sighted(o)
  {
    WantMulti(o.policy, o.signal.value, o.capacity.value.ready + o.capacity.value.warming, o.extra.value)
  }

  predicate Frozen(s: AppState, now: int) {
    s.frozenUntil.Some? && now < s.frozenUntil.value
  }

  function CheckPolicy(s: AppState, p: Policy): AppState {
    if s.policy == Some(p) then s else s.(policy := Some(p), timer := None)
  }

  function CollectExpired(s: AppState, now: int): AppState {
    if s.frozenUntil.Some? && now >= s.frozenUntil.value && !s.noted then s.(frozenUntil := None) else s
  }

  predicate Elapsed(s: AppState, want: int, now: int, delaySec: int) {
    s.timer.Some? && s.timer.value.want == want && now - s.timer.value.since >= delaySec * SECOND
  }

  function StartTimer(s: AppState, want: int, now: int): AppState {
    if s.timer.Some? && s.timer.value.want == want then s else s.(timer := Some(Timer(want, now)))
  }

  /** The slow way down: the stable window must have held. */
  function Descend(s: AppState, o: Observation, want: int): (AppState, Outcome)
    requires o.signal.Some?
  {
    if o.signal.value.staleNonzero then (s.(timer := None), Hold)
    else if !Elapsed(s, want, o.now, o.policy.scaleDownDelaySec) then (StartTimer(s, want, o.now), Hold)
    else if want == 0 && o.signal.value.rps > 0.0 then (s.(timer := None), Hold)
    else (if o.cas.Failed? then s else s.(timer := None), ScaleDown(want))
  }

  /** The first part of reconcileAutoscaleApp, up to the signals: it ends the tick, or leaves
      it with all it needs.  A rejection that falls inside it is as one before or after it. */
  function Begin(s: AppState, o: Observation): AppState {
    if Off(o) then FORGOTTEN
    else
      var s := CollectExpired(CheckPolicy(s, o.policy), o.now);
      if !o.hasTarget then s
      else if !Sighted(o) then s.(timer := None)
      else s.(pending := Some(Reading(o)))
  }

  /** The look at the freeze. */
  function Check(s: AppState): AppState {
    if s.pending.Some? && s.pending.value.Reading? then
      s.(pending := Some(Judged(s.pending.value.o, Frozen(s, s.pending.value.o.now))))
    else s
  }

  /** The tick is about to drop the freeze as one that has run out. */
  predicate Unfreezes(s: AppState) {
    s.pending.Some? && s.pending.value.Judged? && !s.pending.value.found && s.noted
  }

  /** The last part, from the freeze it found to the write. */
  function Decide(s: AppState, o: Observation, found: bool): (AppState, Outcome)
    requires Sighted(o)
  {
    var want := WantOf(o);
    if found && want > o.desired then (s.(timer := None, noted := true), Hold)
    else
      var s := if !found && s.noted then s.(frozenUntil := None, noted := false) else s;
      if want > o.desired then
        (if o.cas.Failed? then s else s.(timer := None), ScaleUp(want))
      else if want < o.desired then
        Descend(s, o, want)
      else (s.(timer := None), Hold)
  }

  function End(s: AppState): (AppState, Outcome) {
    if s.pending.Some? && s.pending.value.Judged? && Sighted(s.pending.value.o) then
      Decide(s.(pending := None), s.pending.value.o, s.pending.value.found)
    else (s, Hold)
  }

  /** A tick goes on to decide exactly when the policy is enabled and the app is there, it has a
      target and no rollout under way, and every signal it needs was read and is fresh; turned
      off, everything about the app is forgotten. */
  lemma BeginsExactly(s: AppState, o: Observation)
    requires s.pending.None?
    ensures Begin(s, o).pending ==
      if o.policy.enabled && !o.deleted && o.hasTarget && !o.rollout && o.capacity.Some? && o.extra.Some?
           && o.signal.Some? && o.signal.value.hasFresh
        then Some(Reading(o)) else None
    ensures !o.policy.enabled || o.deleted ==> Begin(s, o) == FORGOTTEN
    ensures o.policy.enabled && !o.deleted ==>
      && Begin(s, o).noted == s.noted && Begin(s, o).streak == s.streak && Begin(s, o).policy == Some(o.policy)
      && Begin(s, o).frozenUntil ==
           if s.frozenUntil.Some? && s.frozenUntil.value <= o.now && !s.noted then None else s.frozenUntil
  {
  }

  /** A tick that nothing runs into. */
  function Tick(s: AppState, o: Observation): (AppState, Outcome) {
    End(Check(Begin(s, o)))
  }

  // ---- runs ----

  /** What can happen to one app's state: the three parts of a tick, the two halves of a
      quota rejection, a placement that was rejected for resources, the app leaving the app
      list, and a new leader starting from nothing.  A successful placement also clears the
      row of rejections. */
  datatype Event =
    | Began(o: Observation)
    | Checked
    | Ended
    | FreezeSet(until: int)
    | PlacementRejected(until: int)
    | StreakCleared
    | Purged
    | LeaderChanged

  function Bump(s: AppState, until: int): AppState {
    var s := s.(streak := s.streak + 1);
    if s.streak >= STREAK_THRESHOLD then s.(frozenUntil := Some(until)) else s
  }

  /** Ticks and purges of one leader follow each other; an event out of turn does nothing. */
  function Apply(s: AppState, e: Event): AppState {
    match e
    case Began(o) => if s.pending.None? then Begin(s, o) else s
    case Checked => Check(s)
    case Ended => End(s).0
    case FreezeSet(until) => s.(frozenUntil := Some(until))
    case PlacementRejected(until) => Bump(s, until)
    case StreakCleared => s.(streak := 0)
    case Purged => if s.pending.None? then FORGOTTEN else s
    case LeaderChanged => FORGOTTEN
  }

  function Run(es: seq<Event>): AppState {
    Fold(Apply, FORGOTTEN, es)
  }

  function Through(es: seq<Event>, j: nat): seq<Event>
    requires j < |es|
  {
    es[..j + 1]
  }

  /** What the event at position j decided. */
  function Decided(es: seq<Event>, j: nat): Outcome
    requires j < |es|
  {
    if es[j].Ended? then End(Run(es[..j])).1 else Hold
  }

  /** The tick under way can be decided, and is under the policy on record. */
  predicate PendingOk(s: AppState) {
    s.pending.Some? ==> var o := s.pending.value.o; !Off(o) && Sighted(o) && s.policy == Some(o.policy)
  }

  lemma EventKeepsPending(s: AppState, e: Event)
    requires PendingOk(s)
    ensures PendingOk(Apply(s, e))
  {
  }

  lemma RunKeepsPending(es: seq<Event>)
    ensures PendingOk(Run(es))
  {
    forall s, e | PendingOk(s) ensures PendingOk(Apply(s, e)) {
      EventKeepsPending(s, e);
    }
    FoldKeeps(Apply, PendingOk, FORGOTTEN, es);
  }

  // ---- scale-down: exactly when a stable window has held ----

  /** The tick about to be decided. */
  predicate Deciding(s: AppState, e: Event) {
    e.Ended? && s.pending.Some? && s.pending.value.Judged?
  }

  /** The tick computes w, below the desired count, with no rollout and no stale signal. */
  predicate Supports(o: Observation, w: int) {
    && Sighted(o) && !o.signal.value.staleNonzero && w < o.desired
    && w == WantMulti(o.policy, o.signal.value, o.capacity.value.ready + o.capacity.value.warming, o.extra.value)
  }

  /** A tick that neither supports a window nor ends it: a scale-up write that failed in the
      store, with no freeze found. */
  predicate CutShort(p: Pending) {
    Sighted(p.o) && WantOf(p.o) > p.o.desired && p.o.cas.Failed? && p.Judged? && !p.found
  }

  /** The event leaves a stable window for w under policy p standing. */
  predicate Unbroken(s: AppState, e: Event, w: int, p: Policy) {
    match e
    case Began(o) => s.pending.Some? || (!Off(o) && o.policy == p && (!o.hasTarget || Sighted(o)))
    case Ended => Deciding(s, e) ==> CutShort(s.pending.value) || Supports(s.pending.value.o, w)
    case Purged => s.pending.Some?
    case LeaderChanged => false
    case _ => true
  }

  /** The event ends a tick that uses up the window for w begun at `since`: the delay has
      passed, and the store answers the write, or requests forbid a write of zero. */
  predicate UsesUp(s: AppState, e: Event, w: int, since: int) {
    Deciding(s, e) && var o := s.pending.value.o;
      && Supports(o, w) && o.now - since >= o.policy.scaleDownDelaySec * 1_000_000_000
      && (!o.cas.Failed? || (w == 0 && o.signal.value.rps > 0.0))
  }

  /** The event ends a tick under policy p that supports w. */
  predicate Supporting(s: AppState, e: Event, w: int, p: Policy) {
    Deciding(s, e) && s.pending.value.o.policy == p && Supports(s.pending.value.o, w)
  }

  /** The time of the tick decided by event i. */
  function TimeOf(es: seq<Event>, i: nat): int
    requires i < |es|
  {
    var s := Run(es[..i]);
    if s.pending.Some? then s.pending.value.o.now else 0
  }

  /** Event i begins a stable window for w: the tick supports w, and no such window stands. */
  ghost predicate Opens(es: seq<Event>, i: nat, w: int, p: Policy)
    requires i < |es|
    decreases i, 0
  {
    Supporting(Run(es[..i]), es[i], w, p) && forall h: nat :: h < i ==> !Stands(es, h, i, w, p)
  }

  /** The window begun by event i still stands before event n: nothing has broken it or used
      it up. */
  ghost predicate Stands(es: seq<Event>, i: nat, n: nat, w: int, p: Policy)
    requires i < n <= |es|
    decreases i, 1
  {
    && Opens(es, i, w, p)
    && forall k :: i < k < n ==> Unbroken(Run(es[..k]), es[k], w, p) && !UsesUp(Run(es[..k]), es[k], w, TimeOf(es, i))
  }

  /** A window for w, begun at `since`, stands under policy p. */
  predicate Runs(s: AppState, w: int, since: int, p: Policy) {
    s.timer == Some(Timer(w, since)) && s.policy == Some(p)
  }

  lemma EventTimerExactly(s: AppState, e: Event, w: int, since: int, p: Policy)
    requires PendingOk(s)
    ensures Runs(Apply(s, e), w, since, p) <==>
      || (Runs(s, w, since, p) && Unbroken(s, e, w, p) && !UsesUp(s, e, w, since))
      || (Supporting(s, e, w, p) && since == s.pending.value.o.now && forall x :: !Runs(s, w, x, p))
  {
    assert s.timer.Some? && s.timer.value.want == w && s.policy == Some(p) ==> Runs(s, w, s.timer.value.since, p);
  }

  /** A window for w begun at `since` stands before event n. */
  ghost predicate StandsFrom(es: seq<Event>, n: nat, w: int, since: int, p: Policy)
    requires n <= |es|
  {
    exists i: nat :: i < n && Stands(es, i, n, w, p) && TimeOf(es, i) == since
  }

  lemma StandsNext(es: seq<Event>, i: nat, n: nat, w: int, p: Policy)
    requires i < n < |es|
    ensures Stands(es, i, n + 1, w, p) <==>
      Stands(es, i, n, w, p) && Unbroken(Run(es[..n]), es[n], w, p) && !UsesUp(Run(es[..n]), es[n], w, TimeOf(es, i))
  {
  }

  lemma StandsNow(es: seq<Event>, n: nat, w: int, p: Policy)
    requires n < |es|
    ensures Stands(es, n, n + 1, w, p) <==>
      Supporting(Run(es[..n]), es[n], w, p) && forall x :: !StandsFrom(es, n, w, x, p)
  {
    assert Stands(es, n, n + 1, w, p) <==> Opens(es, n, w, p);
    if Supporting(Run(es[..n]), es[n], w, p) && forall x :: !StandsFrom(es, n, w, x, p) {
      forall h: nat | h < n ensures !Stands(es, h, n, w, p) {
        assert !StandsFrom(es, n, w, TimeOf(es, h), p);
      }
      assert Opens(es, n, w, p);
    }
    if x :| StandsFrom(es, n, w, x, p) {
      var i: nat :| i < n && Stands(es, i, n, w, p);
      assert !Opens(es, n, w, p);
    }
  }

  lemma StandsFromNext(es: seq<Event>, n: nat, w: int, since: int, p: Policy)
    requires n < |es|
    ensures var s, e := Run(es[..n]), es[n];
      StandsFrom(es, n + 1, w, since, p) <==>
        || (StandsFrom(es, n, w, since, p) && Unbroken(s, e, w, p) && !UsesUp(s, e, w, since))
        || (Supporting(s, e, w, p) && since == TimeOf(es, n) && forall x :: !StandsFrom(es, n, w, x, p))
  {
    StandsNow(es, n, w, p);
    if i: nat :| i < n + 1 && Stands(es, i, n + 1, w, p) && TimeOf(es, i) == since {
      if i < n { StandsNext(es, i, n, w, p); }
    }
    if i: nat :| i < n && Stands(es, i, n, w, p) && TimeOf(es, i) == since {
      StandsNext(es, i, n, w, p);
    }
  }

  /** What the loop remembers of a stable window is the one window that stands. */
  lemma {:induction false} TimerExactly(es: seq<Event>, n: nat, w: int, p: Policy)
    requires n <= |es|
    ensures forall x :: Runs(Run(es[..n]), w, x, p) <==> StandsFrom(es, n, w, x, p)
  {
    if n > 0 {
      var s, e := Run(es[..n - 1]), es[n - 1];
      TimerExactly(es, n - 1, w, p);
      RunKeepsPending(es[..n - 1]);
      FoldOne(Apply, FORGOTTEN, es, n - 1);
      forall x ensures Runs(Run(es[..n]), w, x, p) <==> StandsFrom(es, n, w, x, p) {
        EventTimerExactly(s, e, w, x, p);
        StandsFromNext(es, n - 1, w, x, p);
      }
    }
  }

  /** A tick scales down to w exactly when it computes w, below the desired count, with no stale
      signal, requests do not forbid zero, and a stable window for w under its policy began at
      least the delay ago and still stands. */
  lemma ScaleDownExactly(es: seq<Event>, j: nat, w: int)
    requires j < |es| && Deciding(Run(es[..j]), es[j])
    ensures var o := Run(es[..j]).pending.value.o;
      Decided(es, j) == ScaleDown(w) <==>
        && Supports(o, w) && (w == 0 ==> o.signal.value.rps <= 0.0)
        && exists i: nat :: i < j && Stands(es, i, j, w, o.policy)
                            && TimeOf(es, i) <= o.now - o.policy.scaleDownDelaySec * 1_000_000_000
  {
    var s := Run(es[..j]);
    var o := s.pending.value.o;
    RunKeepsPending(es[..j]);
    DescentExactly(s, w);
    TimerExactly(es, j, w, o.policy);
    if s.timer.Some? && Runs(s, w, s.timer.value.since, o.policy) {
      assert StandsFrom(es, j, w, s.timer.value.since, o.policy);
    }
    forall i: nat | i < j && Stands(es, i, j, w, o.policy) ensures Runs(s, w, TimeOf(es, i), o.policy) {
      assert StandsFrom(es, j, w, TimeOf(es, i), o.policy);
    }
  }

  lemma DescentExactly(s: AppState, w: int)
    requires PendingOk(s) && s.pending.Some? && s.pending.value.Judged?
    ensures var o := s.pending.value.o;
      End(s).1 == ScaleDown(w) <==>
        && Supports(o, w) && (w == 0 ==> o.signal.value.rps <= 0.0)
        && s.timer.Some? && Runs(s, w, s.timer.value.since, o.policy)
        && s.timer.value.since <= o.now - o.policy.scaleDownDelaySec * 1_000_000_000
  {
  }

  /** So behind every scale-down write to w at time t stands a tick at or before t minus the
      delay, and from it to the write every tick that consulted the window computed w under the
      same policy, with no rollout and no stale signal, and no purge or leader change fell in
      between; a write of zero saw no requests. */
  lemma ScaleDownStreak(es: seq<Event>, j: nat)
    requires j < |es| && Decided(es, j).ScaleDown?
    ensures Deciding(Run(es[..j]), es[j])
    ensures var o, w := Run(es[..j]).pending.value.o, Decided(es, j).to;
      && Supports(o, w) && (w == 0 ==> o.signal.value.rps <= 0.0)
      && exists i: nat :: i < j
           && Supporting(Run(es[..i]), es[i], w, o.policy)
           && Run(es[..i]).pending.value.o.now <= o.now - o.policy.scaleDownDelaySec * 1_000_000_000
           && forall k :: i <= k <= j ==> Unbroken(Run(es[..k]), es[k], w, o.policy)
  {
    WritesWhenDeciding(Run(es[..j]), es[j]);
    var o, w := Run(es[..j]).pending.value.o, Decided(es, j).to;
    ScaleDownExactly(es, j, w);
    var i: nat :| i < j && Stands(es, i, j, w, o.policy)
      && TimeOf(es, i) <= o.now - o.policy.scaleDownDelaySec * 1_000_000_000;
    StandsUnbroken(es, i, j, w, o.policy);
  }

  lemma StandsUnbroken(es: seq<Event>, i: nat, j: nat, w: int, p: Policy)
    requires i < j < |es| && Stands(es, i, j, w, p)
    requires Deciding(Run(es[..j]), es[j]) && Supports(Run(es[..j]).pending.value.o, w)
    ensures Supporting(Run(es[..i]), es[i], w, p) && TimeOf(es, i) == Run(es[..i]).pending.value.o.now
    ensures forall k :: i <= k <= j ==> Unbroken(Run(es[..k]), es[k], w, p)
  {
    SupportingIsUnbroken(Run(es[..i]), es[i], w, p);
    SupportingIsUnbroken(Run(es[..j]), es[j], w, p);
  }

  lemma WritesWhenDeciding(s: AppState, e: Event)
    requires e.Ended? && !End(s).1.Hold?
    ensures Deciding(s, e)
  {
  }

  lemma SupportingIsUnbroken(s: AppState, e: Event, w: int, p: Policy)
    requires Deciding(s, e) && Supports(s.pending.value.o, w)
    ensures Unbroken(s, e, w, p)
  {
  }

  // ---- freezes ----

  /** The event sets a freeze: a quota rejection, or a placement rejection after at least two
      in a row. */
  predicate Freezes(es: seq<Event>, i: nat) {
    i < |es| && (es[i].FreezeSet? || (es[i].PlacementRejected? && Run(es[..i]).streak + 1 >= STREAK_THRESHOLD))
  }

  function FreezeEnd(e: Event): int
    requires e.FreezeSet? || e.PlacementRejected?
  {
    e.until
  }

  /** A freeze until this time or later is set. */
  predicate FrozenTo(s: AppState, until: int) {
    s.frozenUntil.Some? && s.frozenUntil.value >= until
  }

  /** The event leaves a freeze until `until` in force: it neither forgets the app nor sets an
      earlier end, no tick sees the clock past it, and none that looked before the freeze was
      set drops it for an earlier one. */
  predicate KeepsFreeze(s: AppState, e: Event, until: int) {
    match e
    case Began(o) => s.pending.Some? || (!Off(o) && o.now < until)
    case Ended => !Unfreezes(s)
    case FreezeSet(u) => u >= until
    case PlacementRejected(u) => u >= until
    case Purged => s.pending.Some?
    case LeaderChanged => false
    case _ => true
  }

  lemma EventKeepsFreeze(s: AppState, e: Event, until: int)
    requires FrozenTo(s, until) && KeepsFreeze(s, e, until)
    ensures FrozenTo(Apply(s, e), until)
  {
  }

  lemma {:induction false} FreezeStays(es: seq<Event>, i: nat, n: nat)
    requires i < n <= |es| && Freezes(es, i)
    requires forall k :: i < k < n ==> KeepsFreeze(Run(es[..k]), es[k], FreezeEnd(es[i]))
    ensures FrozenTo(Run(es[..n]), FreezeEnd(es[i]))
  {
    FoldOne(Apply, FORGOTTEN, es, n - 1);
    if i < n - 1 {
      FreezeStays(es, i, n - 1);
      EventKeepsFreeze(Run(es[..n - 1]), es[n - 1], FreezeEnd(es[i]));
    }
  }

  /** The end of a tick drops the freeze that is set exactly when its look found none in force
      and an earlier one was noted and not yet cleared. */
  lemma EndUnfreezesExactly(s: AppState)
    requires s.frozenUntil.Some? && PendingOk(s)
    ensures Apply(s, Ended).frozenUntil.None? <==> Unfreezes(s)
  {
  }

  /** Neither of the events that can fall inside a tick touches what it has found. */
  predicate Inside(e: Event) {
    !e.Ended? && !e.LeaderChanged?
  }

  lemma EventInside(s: AppState, e: Event)
    requires s.pending.Some? && s.pending.value.Judged? && Inside(e)
    ensures Apply(s, e).pending == s.pending && Apply(s, e).noted == s.noted && Apply(s, e).timer == s.timer
    ensures s.frozenUntil.Some? ==> Apply(s, e).frozenUntil.Some?
  {
  }

  lemma {:induction false} RunInside(es: seq<Event>, m: nat, n: nat)
    requires m <= n <= |es| && forall k :: m <= k < n ==> Inside(es[k])
    requires Run(es[..m]).pending.Some? && Run(es[..m]).pending.value.Judged?
    ensures Run(es[..n]).pending == Run(es[..m]).pending && Run(es[..n]).noted == Run(es[..m]).noted
    ensures Run(es[..m]).frozenUntil.Some? ==> Run(es[..n]).frozenUntil.Some?
  {
    if m < n {
      RunInside(es, m, n - 1);
      FoldOne(Apply, FORGOTTEN, es, n - 1);
      EventInside(Run(es[..n - 1]), es[n - 1]);
    }
  }

  /** A freeze that is set inside a tick, after its look and before its end, is lost at that
      end exactly when the look found no freeze in force and an earlier one was noted and not
      yet cleared. */
  lemma FreezeLostExactly(es: seq<Event>, i: nat, j: nat)
    requires i < j < |es| && Freezes(es, i) && es[j].Ended? && forall k :: i < k < j ==> Inside(es[k])
    requires Run(es[..i]).pending.Some? && Run(es[..i]).pending.value.Judged?
    ensures Run(Through(es, j)).frozenUntil.None? <==> !Run(es[..i]).pending.value.found && Run(es[..i]).noted
  {
    FoldOne(Apply, FORGOTTEN, es, i);
    EventInside(Run(es[..i]), es[i]);
    RunInside(es, i + 1, j);
    RunKeepsPending(es[..j]);
    FoldOne(Apply, FORGOTTEN, es, j);
    EndUnfreezesExactly(Run(es[..j]));
  }

  /** From its look to its end a tick remembers what it found. */
  lemma LookIsKept(es: seq<Event>, b: nat, j: nat)
    requires b < j < |es| && es[b].Checked? && forall k :: b < k < j ==> Inside(es[k])
    requires Run(es[..b]).pending.Some? && Run(es[..b]).pending.value.Reading?
    ensures var s := Run(es[..b]); var o := s.pending.value.o;
      Run(es[..j]).pending == Some(Judged(o, Frozen(s, o.now)))
  {
    FoldOne(Apply, FORGOTTEN, es, b);
    RunInside(es, b + 1, j);
  }

  /** A tick scales up, to what it computes, exactly when that is more than the desired count and
      it found no freeze in force, whatever set it, when it looked. */
  lemma ScaleUpExactly(es: seq<Event>, b: nat, j: nat, w: int)
    requires b < j < |es| && es[b].Checked? && es[j].Ended? && forall k :: b < k < j ==> Inside(es[k])
    requires Run(es[..b]).pending.Some? && Run(es[..b]).pending.value.Reading?
    ensures var s := Run(es[..b]); var o := s.pending.value.o;
      Sighted(o) && (Decided(es, j) == ScaleUp(w) <==>
        w == WantMulti(o.policy, o.signal.value, o.capacity.value.ready + o.capacity.value.warming, o.extra.value)
        && w > o.desired && !(s.frozenUntil.Some? && o.now < s.frozenUntil.value))
  {
    RunKeepsPending(es[..b]);
    LookIsKept(es, b, j);
    var o := Run(es[..b]).pending.value.o;
    DecideUp(Run(es[..j]).(pending := None), o, Frozen(Run(es[..b]), o.now));
  }

  lemma DecideUp(s: AppState, o: Observation, found: bool)
    requires Sighted(o)
    ensures Decide(s, o, found).1.ScaleUp? ==> Decide(s, o, found).1.to == WantOf(o)
    ensures Decide(s, o, found).1.ScaleUp? <==> WantOf(o) > o.desired && !found
    ensures found && WantOf(o) > o.desired ==> Decide(s, o, found).0.noted && Decide(s, o, found).0.timer.None?
  {
  }

  /** From the event that sets a freeze to its end, for as long as no tick drops it as above,
      no tick that looks scales the app up, and one that would is noted. */
  lemma FrozenNeverScalesUp(es: seq<Event>, i: nat, b: nat, j: nat)
    requires i < b < j < |es| && Freezes(es, i)
    requires forall k :: i < k < b ==> KeepsFreeze(Run(es[..k]), es[k], FreezeEnd(es[i]))
    requires es[b].Checked? && es[j].Ended? && forall k :: b < k < j ==> Inside(es[k])
    requires Run(es[..b]).pending.Some? && Run(es[..b]).pending.value.Reading?
    requires Run(es[..b]).pending.value.o.now < FreezeEnd(es[i])
    ensures !Decided(es, j).ScaleUp?
    ensures var o := Run(es[..b]).pending.value.o;
      Sighted(o) && (WantOf(o) > o.desired ==> Run(Through(es, j)).noted && Run(Through(es, j)).timer.None?)
  {
    FreezeStays(es, i, b);
    RunKeepsPending(es[..b]);
    ScaleUpExactly(es, b, j, WantOf(Run(es[..b]).pending.value.o));
    LookIsKept(es, b, j);
    FoldOne(Apply, FORGOTTEN, es, j);
    var o := Run(es[..b]).pending.value.o;
    DecideUp(Run(es[..j]).(pending := None), o, true);
  }

  /** After the end of a tick a freeze is noted exactly when the tick found one and either it was
      noted before or the tick was kept from scaling up. */
  lemma NotedExactly(s: AppState)
    requires PendingOk(s) && s.pending.Some? && s.pending.value.Judged?
    ensures Apply(s, Ended).noted <==>
      s.pending.value.found && (s.noted || WantOf(s.pending.value.o) > s.pending.value.o.desired)
    ensures Apply(s, Ended).streak == s.streak
  {
  }

  // A freeze that is lost, from the beginning.

  /** The three parts of a tick, with an event before the last. */
  function Ticked(o: Observation, inside: seq<Event>): seq<Event> {
    [Began(o), Checked] + inside + [Ended]
  }

  lemma {:induction false} RunJoins(es: seq<Event>, fs: seq<Event>)
    ensures Run(es + fs) == Fold(Apply, Run(es), fs)
  {
    FoldSplits(Apply, FORGOTTEN, es + fs, |es|);
    assert (es + fs)[..|es|] == es && (es + fs)[|es|..] == fs;
  }

  lemma TickRuns(s: AppState, o: Observation, inside: seq<Event>)
    requires |inside| <= 1
    ensures var t := Check(Apply(s, Began(o)));
      Fold(Apply, s, Ticked(o, inside)) == Apply(if inside == [] then t else Apply(t, inside[0]), Ended)
  {
    var es := Ticked(o, inside);
    assert es[..0] == [] && es[..1] == [Began(o)] && es[..2] == [Began(o), Checked];
    FoldOne(Apply, s, es, 0);
    FoldOne(Apply, s, es, 1);
    FoldOne(Apply, s, es, 2);
    assert es[..|es|] == es;
    if inside != [] {
      FoldOne(Apply, s, es, 3);
    }
  }

  /** An app that needs five replicas and has one. */
  function Short(now: int): Observation {
    Observation(now, Policy(true, 5, 5, 1, 0, 2.0, 0, 0.0, "", 0.0, false), false, 1, true, false,
                Some(Signal(0.0, 0.0, 0.0, false, true, false)), Some(Capacity(0, 0)), Some(Extra(None, None, None)), Swapped)
  }

  lemma BoundsForceWant(o: Observation)
    requires Sighted(o) && o.policy.minReplicas == o.policy.maxReplicas > o.desired
    ensures WantOf(o) > o.desired
  {
    WantInRange(o.policy, o.signal.value, o.capacity.value.ready + o.capacity.value.warming, o.extra.value);
  }

  /** A first freeze until 5 is noted by a tick at 0.  A tick at 10 finds it over; a rejection
      then freezes the app until 100; the tick drops that freeze with the first; and a tick at
      20 scales the app up. */
  lemma FreezeMayBeLost()
    ensures var es := [FreezeSet(5)] + Ticked(Short(0), []) + Ticked(Short(10), [FreezeSet(100)]) + [Began(Short(20)), Checked, Ended];
      es[6] == FreezeSet(100) && Decided(es, 10).ScaleUp? && Run(es[..8]).frozenUntil.None?
  {
    var a := [FreezeSet(5)];
    var b := a + Ticked(Short(0), []);
    var c := b + Ticked(Short(10), [FreezeSet(100)]);
    var d := c + [Began(Short(20)), Checked];
    assert Run(a) == FORGOTTEN.(frozenUntil := Some(5)) by {
      assert a[..0] == [];
    }
    BoundsForceWant(Short(0));
    BoundsForceWant(Short(20));
    NotedTick(a, Short(0), 5);
    DroppedTick(b, Short(10), FreezeSet(100));
    assert Run(c).frozenUntil.None? && Run(c).pending.None?;
    RunJoins(c, [Began(Short(20)), Checked]);
    var es := c + [Began(Short(20)), Checked, Ended];
    assert es[..8] == c && es[..10] == d;
    LookFinds(c, Short(20));
  }

  lemma NotedTick(es: seq<Event>, o: Observation, until: int)
    requires !Off(o) && Sighted(o) && WantOf(o) > o.desired && o.now < until
    requires Run(es).frozenUntil == Some(until) && Run(es).pending.None?
    ensures var s := Run(es + Ticked(o, [])); s.frozenUntil == Some(until) && s.noted && s.pending.None?
  {
    RunJoins(es, Ticked(o, []));
    TickRuns(Run(es), o, []);
  }

  lemma DroppedTick(es: seq<Event>, o: Observation, e: Event)
    requires !Off(o) && Sighted(o) && e.FreezeSet?
    requires Run(es).frozenUntil.Some? && o.now >= Run(es).frozenUntil.value && Run(es).noted && Run(es).pending.None?
    ensures var s := Run(es + Ticked(o, [e])); s.frozenUntil.None? && s.pending.None?
  {
    RunJoins(es, Ticked(o, [e]));
    TickRuns(Run(es), o, [e]);
  }

  lemma LookFinds(es: seq<Event>, o: Observation)
    requires !Off(o) && Sighted(o) && WantOf(o) > o.desired && Run(es).frozenUntil.None? && Run(es).pending.None?
    ensures End(Run(es + [Began(o), Checked])).1.ScaleUp?
  {
    var fs := es + [Began(o), Checked];
    assert fs[..|es|] == es;
    FoldOne(Apply, FORGOTTEN, fs, |es|);
    FoldOne(Apply, FORGOTTEN, fs, |es| + 1);
    assert fs[..|es| + 2] == fs;
  }

  // ---- rows of rejections ----

  /** How many placement rejections there have been since the row was last ended. */
  function Row(es: seq<Event>): nat {
    if es == [] then 0
    else
      var front, e := es[..|es| - 1], es[|es| - 1];
      if e.PlacementRejected? then Row(front) + 1 else if EndsStreak(Run(front), e) then 0 else Row(front)
  }

  lemma EventStreak(s: AppState, e: Event)
    ensures Apply(s, e).streak == if e.PlacementRejected? then s.streak + 1 else if EndsStreak(s, e) then 0 else s.streak
  {
  }

  /** The streak is that number, over every run. */
  lemma {:induction false} StreakIsRow(es: seq<Event>)
    ensures Run(es).streak == Row(es)
  {
    if es != [] {
      StreakIsRow(es[..|es| - 1]);
      EventStreak(Run(es[..|es| - 1]), es[|es| - 1]);
    }
  }

  /** A placement rejection freezes exactly when at least two came before it in a row. */
  lemma RejectionFreezesExactly(s: AppState, until: int)
    ensures var s' := Apply(s, PlacementRejected(until));
      s'.streak == s.streak + 1 && s'.frozenUntil == if s.streak >= 2 then Some(until) else s.frozenUntil
  {
  }

  /** The event ends a row of placement rejections. */
  predicate EndsStreak(s: AppState, e: Event) {
    match e
    case Began(o) => s.pending.None? && Off(o)
    case StreakCleared => true
    case Purged => s.pending.None?
    case LeaderChanged => true
    case _ => false
  }

  lemma EventKeepsStreak(s: AppState, e: Event)
    requires !EndsStreak(s, e)
    ensures Apply(s, e).streak >= s.streak
  {
  }

  lemma {:induction false} StreakStays(es: seq<Event>, m: nat, n: nat)
    requires m <= n <= |es| && forall k :: m <= k < n ==> !EndsStreak(Run(es[..k]), es[k])
    ensures Run(es[..n]).streak >= Run(es[..m]).streak
  {
    if m < n {
      StreakStays(es, m, n - 1);
      FoldOne(Apply, FORGOTTEN, es, n - 1);
      EventKeepsStreak(Run(es[..n - 1]), es[n - 1]);
    }
  }

  /** The third placement rejection in a row sets a freeze. */
  lemma ThirdRejectionFreezes(es: seq<Event>, a: nat, b: nat, i: nat)
    requires a < b < i < |es| && es[a].PlacementRejected? && es[b].PlacementRejected? && es[i].PlacementRejected?
    requires forall k :: a < k < i ==> !EndsStreak(Run(es[..k]), es[k])
    ensures Freezes(es, i)
  {
    FoldOne(Apply, FORGOTTEN, es, a);
    StreakStays(es, a + 1, b);
    FoldOne(Apply, FORGOTTEN, es, b);
    StreakStays(es, b + 1, i);
  }

  /** Every write stays inside the policy's bounds and goes the right way. */
  lemma WritesStayInBounds(s: AppState)
    requires PendingOk(s) && !End(s).1.Hold?
    ensures s.pending.Some?
    ensures var o, to := s.pending.value.o, End(s).1.to;
      && (o.policy.minReplicas <= o.policy.maxReplicas ==> o.policy.minReplicas <= to <= o.policy.maxReplicas)
      && (End(s).1.ScaleUp? <==> to > o.desired)
  {
    var o := s.pending.value.o;
    if o.policy.minReplicas <= o.policy.maxReplicas {
      WantInRange(o.policy, o.signal.value, o.capacity.value.ready + o.capacity.value.warming, o.extra.value);
    }
  }

  // ---- the loop's maps, one entry per app ----

  /** The part of a map whose keys are known. */
  function Known<V>(m: map<string, V>, known: set<string>): map<string, V> {
    map k | k in m && k in known :: m[k]
  }

  /** One of purgeUnknown's loops: entries are deleted one by one. */
  method DropUnknown<V>(m: map<string, V>, known: set<string>) returns (r: map<string, V>)
    ensures r == Known(m, known)
    ensures forall k :: k in r <==> k in m && k in known
  {
    r := m;
    var left := m.Keys;
    while left != {}
      invariant left <= m.Keys
      invariant forall k :: k in r <==> k in m && (k in left || k in known)
      invariant forall k :: k in r ==> r[k] == m[k]
      decreases left
    {
      var id :| id in left;
      if id !in known {
        r := r - {id};
      }
      left := left - {id};
    }
  }

  class LoopState {
    var scaleDown: map<string, Timer>
    var frozenUntil: map<string, int>
    var frozenNoted: map<string, bool>
    var resourceStreak: map<string, nat>
    var policyHash: map<string, Policy>
    ghost var pending: map<string, Pending>

    /** All that the loop remembers about one app. */
    ghost function At(app: string): AppState
      reads this
    {
      AppState(Lookup(scaleDown, app), Lookup(frozenUntil, app), Lookup(frozenNoted, app) == Some(true),
               Lookup(policyHash, app), if app in resourceStreak then resourceStreak[app] else 0,
               Lookup(pending, app))
    }

    constructor ()
      ensures forall a :: At(a) == FORGOTTEN
    {
      scaleDown, frozenUntil, frozenNoted, resourceStreak, policyHash := map[], map[], map[], map[], map[];
      pending := map[];
    }

    method ClearApp(app: string)
      requires app !in pending
      modifies this
      ensures At(app) == FORGOTTEN
      ensures forall a :: a != app ==> At(a) == old(At(a))
    {
      scaleDown := scaleDown - {app};
      frozenNoted := frozenNoted - {app};
      frozenUntil := frozenUntil - {app};
      resourceStreak := resourceStreak - {app};
      policyHash := policyHash - {app};
    }

    method NotePolicy(app: string, policy: Policy) returns (changed: bool)
      modifies this
      ensures At(app) == CheckPolicy(old(At(app)), policy)
      ensures changed <==> old(At(app)).policy != Some(policy)
      ensures forall a :: a != app ==> At(a) == old(At(a))
    {
      if app in policyHash && policyHash[app] == policy {
        return false;
      }
      policyHash := policyHash[app := policy];
      scaleDown := scaleDown - {app};
      return true;
    }

    method CollectExpiredFreeze(app: string, now: int)
      modifies this
      ensures At(app) == CollectExpired(old(At(app)), now)
      ensures forall a :: a != app ==> At(a) == old(At(a))
    {
      if app in frozenUntil && now >= frozenUntil[app] && !(app in frozenNoted && frozenNoted[app]) {
        frozenUntil := frozenUntil - {app};
      }
    }

    method MarkFreezeNoted(app: string) returns (already: bool)
      modifies this
      ensures At(app) == old(At(app)).(noted := true)
      ensures already == old(At(app)).noted
      ensures forall a :: a != app ==> At(a) == old(At(a))
    {
      if app in frozenNoted && frozenNoted[app] {
        return true;
      }
      frozenNoted := frozenNoted[app := true];
      return false;
    }

    method ScaleDownElapsed(app: string, want: int, now: int, delaySec: int) returns (elapsed: bool)
      modifies this
      ensures At(app) == StartTimer(old(At(app)), want, now)
      ensures elapsed <==> Elapsed(old(At(app)), want, now, delaySec)
      ensures forall a :: a != app ==> At(a) == old(At(a))
    {
      if app in scaleDown && scaleDown[app].want == want {
        return now - scaleDown[app].since >= delaySec * SECOND;
      }
      scaleDown := scaleDown[app := Timer(want, now)];
      return false;
    }

    method NoteQuotaRejection(app: string, until: int)
      modifies this
      ensures At(app) == Apply(Apply(old(At(app)), FreezeSet(until)), StreakCleared)
      ensures forall a :: a != app ==> At(a) == old(At(a))
    {
      frozenUntil := frozenUntil[app := until];
      resourceStreak := resourceStreak - {app};
    }

    method BumpStreak(app: string, until: int) returns (n: nat)
      modifies this
      ensures At(app) == Apply(old(At(app)), PlacementRejected(until)) && n == At(app).streak
      ensures forall a :: a != app ==> At(a) == old(At(a))
    {
      n := (if app in resourceStreak then resourceStreak[app] else 0) + 1;
      resourceStreak := resourceStreak[app := n];
      if n >= STREAK_THRESHOLD {
        frozenUntil := frozenUntil[app := until];
      }
    }

    method PurgeUnknown(known: set<string>)
      requires pending == map[]
      modifies this
      ensures forall a :: At(a) == if a in known then old(At(a)) else Apply(old(At(a)), Purged)
    {
      scaleDown := DropUnknown(scaleDown, known);
      frozenUntil := DropUnknown(frozenUntil, known);
      frozenNoted := DropUnknown(frozenNoted, known);
      resourceStreak := DropUnknown(resourceStreak, known);
      policyHash := DropUnknown(policyHash, known);
    }

    method DeleteScaleDown(app: string)
      modifies this
      ensures At(app) == old(At(app)).(timer := None)
      ensures forall a :: a != app ==> At(a) == old(At(a))
    {
      scaleDown := scaleDown - {app};
    }

    method DescendApp(app: string, o: Observation, want: int) returns (out: Outcome)
      requires o.signal.Some?
      modifies this
      ensures (At(app), out) == Descend(old(At(app)), o, want)
      ensures forall a :: a != app ==> At(a) == old(At(a))
    {
      if o.signal.value.staleNonzero {
        DeleteScaleDown(app);
        return Hold;
      }
      var elapsed := ScaleDownElapsed(app, want, o.now, o.policy.scaleDownDelaySec);
      if !elapsed {
        return Hold;
      }
      if want == 0 && o.signal.value.rps > 0.0 {
        DeleteScaleDown(app);
        return Hold;
      }
      if !o.cas.Failed? {
        DeleteScaleDown(app);
      }
      return ScaleDown(want);
    }

    /** reconcileAutoscaleApp up to the signals; false when the tick ends there. */
    method BeginApp(app: string, o: Observation) returns (on: bool)
      requires app !in pending
      modifies this
      ensures At(app) == Apply(old(At(app)), Began(o)) && (on <==> At(app).pending.Some?)
      ensures forall a :: a != app ==> At(a) == old(At(a))
    {
      if !o.policy.enabled || o.deleted {
        ClearApp(app);
        return false;
      }
      var changed := NotePolicy(app, o.policy);
      CollectExpiredFreeze(app, o.now);
      if !o.hasTarget {
        return false;
      }
      if o.rollout || o.signal.None? || !o.signal.value.hasFresh || o.capacity.None? || o.extra.None? {
        DeleteScaleDown(app);
        return false;
      }
      pending := pending[app := Reading(o)];
      return true;
    }

    /** Its look at the freeze. */
    method FindFreeze(app: string, o: Observation) returns (found: bool)
      requires app in pending && pending[app] == Reading(o)
      modifies this
      ensures At(app) == Apply(old(At(app)), Checked) && At(app).pending == Some(Judged(o, found))
      ensures forall a :: a != app ==> At(a) == old(At(a))
    {
      found := app in frozenUntil && o.now < frozenUntil[app];
      pending := pending[app := Judged(o, found)];
    }

    method Unfreeze(app: string)
      modifies this
      ensures At(app) == old(At(app)).(frozenUntil := None, noted := false)
      ensures forall a :: a != app ==> At(a) == old(At(a))
    {
      frozenUntil := frozenUntil - {app};
      frozenNoted := frozenNoted - {app};
    }

    /** The rest of it, from the freeze it found to the write. */
    method DecideApp(app: string, o: Observation, found: bool) returns (out: Outcome)
      requires Sighted(o)
      modifies this
      ensures (At(app), out) == Decide(old(At(app)), o, found)
      ensures forall a :: a != app ==> At(a) == old(At(a))
    {
      var want, panic := ComputeWantMulti(o.policy, o.signal.value, o.capacity.value.ready, o.capacity.value.warming, o.extra.value);
      if found {
        if want > o.desired {
          var already := MarkFreezeNoted(app);
          DeleteScaleDown(app);
          return Hold;
        }
      } else if app in frozenNoted && frozenNoted[app] {
        Unfreeze(app);
      }
      if want > o.desired {
        if !o.cas.Failed? {
          DeleteScaleDown(app);
        }
        return ScaleUp(want);
      } else if want < o.desired {
        out := DescendApp(app, o, want);
      } else {
        DeleteScaleDown(app);
        return Hold;
      }
    }

    method EndApp(app: string, o: Observation, found: bool) returns (out: Outcome)
      requires app in pending && pending[app] == Judged(o, found) && Sighted(o)
      modifies this
      ensures (At(app), out) == End(old(At(app)))
      ensures forall a :: a != app ==> At(a) == old(At(a))
    {
      pending := pending - {app};
      assert At(app) == old(At(app)).(pending := None);
      out := DecideApp(app, o, found);
    }

    /** reconcileAutoscaleApp when no rejection falls into it: its three parts are one tick of
        the app's own machine and touch no other app. */
    method ReconcileApp(app: string, o: Observation) returns (out: Outcome)
      requires app !in pending
      modifies this
      ensures (At(app), out) == Tick(old(At(app)), o)
      ensures forall a :: a != app ==> At(a) == old(At(a))
    {
      var on := BeginApp(app, o);
      if !on {
        return Hold;
      }
      var found := FindFreeze(app, o);
      out := EndApp(app, o, found);
    }
  }
}
