/** Runs of a transition function in general: what holds of every run whatever
    the steps do. */
module Traces {
  /** The state after the events, in order. */
  function Fold<W, E>(f: (W, E) -> W, w: W, es: seq<E>): W {
    if es == [] then w else f(Fold(f, w, es[..|es| - 1]), es[|es| - 1])
  }

  lemma {:induction false} FoldSplits<W, E>(f: (W, E) -> W, w: W, es: seq<E>, n: nat)
    requires n <= |es|
    ensures Fold(f, w, es) == Fold(f, Fold(f, w, es[..n]), es[n..])
  {
    if n == |es| {
      assert es[..n] == es && es[n..] == [];
    } else {
      var front := es[..|es| - 1];
      FoldSplits(f, w, front, n);
      assert front[..n] == es[..n] && es[n..][..|es[n..]| - 1] == front[n..];
    }
  }

  lemma FoldOne<W, E>(f: (W, E) -> W, w: W, es: seq<E>, n: nat)
    requires n < |es|
    ensures Fold(f, w, es[..n + 1]) == f(Fold(f, w, es[..n]), es[n])
  {
    assert es[..n + 1][..n] == es[..n];
  }

  ghost predicate Closed<W(!new), E(!new)>(f: (W, E) -> W, P: W -> bool) {
    forall w, e :: P(w) ==> P(f(w, e))
  }

  lemma {:induction false} FoldKeeps<W(!new), E(!new)>(f: (W, E) -> W, P: W -> bool, w: W, es: seq<E>)
    requires Closed(f, P) && P(w)
    ensures P(Fold(f, w, es))
  {
    if es != [] {
      FoldKeeps(f, P, w, es[..|es| - 1]);
    }
  }

  /** The state after n times the same event. */
  function Iterate<W, E>(f: (W, E) -> W, w: W, e: E, n: nat): W {
    if n == 0 then w else f(Iterate(f, w, e, n - 1), e)
  }

  lemma {:induction false} IterateSplits<W, E>(f: (W, E) -> W, w: W, e: E, m: nat, n: nat)
    ensures Iterate(f, w, e, m + n) == Iterate(f, Iterate(f, w, e, m), e, n)
  {
    if n > 0 {
      IterateSplits(f, w, e, m, n - 1);
    }
  }

  lemma {:induction false} IterateKeeps<W(!new), E(!new)>(f: (W, E) -> W, P: W -> bool, w: W, e: E, n: nat)
    requires Closed(f, P) && P(w)
    ensures P(Iterate(f, w, e, n))
  {
    if n > 0 {
      IterateKeeps(f, P, w, e, n - 1);
    }
  }

  /** Some event from position n on satisfies q. */
  ghost predicate Occurred<W, E>(f: (W, E) -> W, w: W, es: seq<E>, n: nat, q: (W, E) -> bool) {
    exists i :: n <= i < |es| && q(Fold(f, w, es[..i]), es[i])
  }

  lemma OccurredNext<W, E>(f: (W, E) -> W, w: W, es: seq<E>, n: nat, q: (W, E) -> bool)
    requires n < |es|
    ensures var front, e := es[..|es| - 1], es[|es| - 1];
      Occurred(f, w, es, n, q) <==> Occurred(f, w, front, n, q) || q(Fold(f, w, front), e)
  {
    var front := es[..|es| - 1];
    assert forall j :: 0 <= j < |front| ==> front[..j] == es[..j] && front[j] == es[j];
    if Occurred(f, w, front, n, q) {
      var i :| n <= i < |front| && q(Fold(f, w, front[..i]), front[i]);
      assert q(Fold(f, w, es[..i]), es[i]);
    }
    if Occurred(f, w, es, n, q) {
      var i :| n <= i < |es| && q(Fold(f, w, es[..i]), es[i]);
      assert i < |front| ==> q(Fold(f, w, front[..i]), front[i]);
    }
    if q(Fold(f, w, front), es[|front|]) {
      assert q(Fold(f, w, es[..|front|]), es[|front|]);
    }
  }

  // Latches: a flag that some events set and others clear.

  ghost predicate SetAt<W, E>(f: (W, E) -> W, w: W, es: seq<E>, sets: (W, E) -> bool, clears: (W, E) -> bool, i: nat)
    requires i < |es|
  {
    sets(Fold(f, w, es[..i]), es[i]) && forall j :: i < j < |es| ==> !clears(Fold(f, w, es[..j]), es[j])
  }

  /** Some event has set the flag and none has cleared it since. */
  ghost predicate IsSet<W, E>(f: (W, E) -> W, w: W, es: seq<E>, sets: (W, E) -> bool, clears: (W, E) -> bool) {
    exists i :: 0 <= i < |es| && SetAt(f, w, es, sets, clears, i)
  }

  lemma SetAtFront<W, E>(f: (W, E) -> W, w: W, es: seq<E>, sets: (W, E) -> bool, clears: (W, E) -> bool, i: nat)
    requires i < |es| - 1
    ensures var front := es[..|es| - 1];
      SetAt(f, w, es, sets, clears, i) <==> SetAt(f, w, front, sets, clears, i) && !clears(Fold(f, w, front), es[|es| - 1])
  {
    var front := es[..|es| - 1];
    assert forall j :: 0 <= j < |front| ==> front[..j] == es[..j] && front[j] == es[j];
  }

  lemma IsSetNext<W, E>(f: (W, E) -> W, w: W, es: seq<E>, sets: (W, E) -> bool, clears: (W, E) -> bool)
    requires es != []
    ensures var front, e := es[..|es| - 1], es[|es| - 1];
      IsSet(f, w, es, sets, clears) <==>
        sets(Fold(f, w, front), e) || (IsSet(f, w, front, sets, clears) && !clears(Fold(f, w, front), e))
  {
    var front, n := es[..|es| - 1], |es| - 1;
    if sets(Fold(f, w, front), es[n]) {
      assert SetAt(f, w, es, sets, clears, n);
    }
    if IsSet(f, w, front, sets, clears) {
      var i :| 0 <= i < |front| && SetAt(f, w, front, sets, clears, i);
      SetAtFront(f, w, es, sets, clears, i);
    }
    if IsSet(f, w, es, sets, clears) {
      var i :| 0 <= i < |es| && SetAt(f, w, es, sets, clears, i);
      if i < n {
        SetAtFront(f, w, es, sets, clears, i);
      }
    }
  }

  // Histories: a log that steps only extend.

  ghost predicate Extends<W(!new), E(!new), L>(f: (W, E) -> W, log: W -> seq<L>) {
    forall w, e :: log(w) <= log(f(w, e))
  }

  lemma {:induction false} FoldExtends<W(!new), E(!new), L>(f: (W, E) -> W, log: W -> seq<L>, w: W, es: seq<E>)
    requires Extends(f, log)
    ensures log(w) <= log(Fold(f, w, es))
  {
    if es != [] {
      FoldExtends(f, log, w, es[..|es| - 1]);
    }
  }

  /** Nothing bad has been logged since the log was n long. */
  predicate Clean<L>(log: seq<L>, n: nat, bad: L -> bool) {
    forall j :: n <= j < |log| ==> !bad(log[j])
  }

  /** Steps that log nothing bad keep P. */
  ghost predicate Holds<W(!new), E(!new), L>(f: (W, E) -> W, log: W -> seq<L>, bad: L -> bool, P: W -> bool) {
    forall w, e :: P(w) && Clean(log(f(w, e)), |log(w)|, bad) ==> P(f(w, e))
  }

  lemma {:induction false} FoldHolds<W(!new), E(!new), L>(f: (W, E) -> W, log: W -> seq<L>, bad: L -> bool, P: W -> bool, w: W, es: seq<E>)
    requires Extends(f, log) && Holds(f, log, bad, P) && P(w) && Clean(log(Fold(f, w, es)), |log(w)|, bad)
    ensures P(Fold(f, w, es))
  {
    if es != [] {
      var front, e := es[..|es| - 1], es[|es| - 1];
      var v := Fold(f, w, front);
      FoldExtends(f, log, w, front);
      assert log(v) <= log(f(v, e));
      assert Clean(log(v), |log(w)|, bad) by {
        forall j | |log(w)| <= j < |log(v)| ensures !bad(log(v)[j]) {
          assert log(v)[j] == log(f(v, e))[j];
        }
      }
      FoldHolds(f, log, bad, P, w, front);
    }
  }
}
