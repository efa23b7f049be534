/** The contention breaker: counters that stand for the history of readings. */
module Breaker {

  datatype Config = Config(throttle: nat, pause: nat, resume: nat, dwell: nat, maxWait: nat)

  /** What is required of a configuration before any job runs. */
  predicate Validated(c: Config) {
    c.throttle <= c.pause && c.resume < c.pause && c.dwell > 0
  }

  /** One tick's reading for a job: nobody waits, or these many do. */
  datatype Reading = Clear | Waiters(direct: nat, transitive: nat, oldest: nat)

  /** A reading with no waiter of either kind is a clear one. */
  ghost function ReadingOf(direct: nat, transitive: nat, oldest: nat): (r: Reading) {
    if direct == 0 && transitive == 0 then Clear else Waiters(direct, transitive, oldest)
  }

  function Count(r: Reading): (n: nat) {
    if r.Clear? then 0 else r.transitive
  }

  ghost predicate Busy(c: Config, r: Reading) {
    r.Waiters? && r.transitive >= c.pause
  }

  ghost predicate Calm(c: Config, r: Reading) {
    !Busy(c, r) && Count(r) <= c.resume
  }

  /** In a validated configuration the two are the thresholds themselves. */
  lemma Thresholds(c: Config, r: Reading)
    requires Validated(c)
    ensures Busy(c, r) <==> Count(r) >= c.pause
    ensures Calm(c, r) <==> Count(r) <= c.resume
  {
  }

  // --- the history ----------------------------------------------------------------------

  /** A full dwell-run at or above the pause threshold ends after `n` readings. */
  ghost predicate BusyAt(c: Config, h: seq<Reading>, n: nat) {
    c.dwell <= n <= |h| && forall i :: n - c.dwell <= i < n ==> Busy(c, h[i])
  }

  /** A full dwell-run at or below the resume threshold ends after `n` readings. */
  ghost predicate CalmAt(c: Config, h: seq<Reading>, n: nat) {
    c.dwell <= n <= |h| && forall i :: n - c.dwell <= i < n ==> Calm(c, h[i])
  }

  /** `n` ends a busy dwell-run and no calm one has ended since. */
  ghost predicate PausedSince(c: Config, h: seq<Reading>, n: nat) {
    BusyAt(c, h, n) && forall m :: n < m <= |h| ==> !CalmAt(c, h, m)
  }

  ghost predicate Paused(c: Config, h: seq<Reading>) {
    exists n :: PausedSince(c, h, n)
  }

  /** Reading `j` counted enough waiters to throttle, every one since was clear, and no
      calm dwell-run has ended. */
  ghost predicate ThrottledSince(c: Config, h: seq<Reading>, j: nat) {
    && j < |h| && h[j].Waiters? && h[j].transitive >= c.throttle
    && (forall i :: j < i < |h| ==> h[i].Clear?)
    && (forall m :: j < m <= |h| ==> !CalmAt(c, h, m))
  }

  ghost predicate Throttled(c: Config, h: seq<Reading>) {
    exists j :: ThrottledSince(c, h, j)
  }

  lemma RunsKept(c: Config, h: seq<Reading>, r: Reading, n: nat)
    requires n <= |h|
    ensures BusyAt(c, h + [r], n) == BusyAt(c, h, n)
    ensures CalmAt(c, h + [r], n) == CalmAt(c, h, n)
  {
    hide Busy, Calm;
    assert forall i :: 0 <= i < |h| ==> (h + [r])[i] == h[i];
  }

  lemma PausedNext(c: Config, h: seq<Reading>, r: Reading)
    requires c.dwell > 0
    ensures var next := h + [r];
            Paused(c, next) <==> BusyAt(c, next, |next|) || (Paused(c, h) && !CalmAt(c, next, |next|))
  {
    hide Busy, BusyAt, CalmAt;
    var next := h + [r];
    forall n | 0 <= n <= |h|
      ensures BusyAt(c, next, n) == BusyAt(c, h, n) && CalmAt(c, next, n) == CalmAt(c, h, n)
    {
      RunsKept(c, h, r, n);
    }
    if BusyAt(c, next, |next|) {
      assert PausedSince(c, next, |next|);
    }
    if Paused(c, h) && !CalmAt(c, next, |next|) {
      var n :| PausedSince(c, h, n);
      BusyBound(c, h, n);
      assert PausedSince(c, next, n);
    }
    if Paused(c, next) && !BusyAt(c, next, |next|) {
      var n :| PausedSince(c, next, n);
      BusyBound(c, next, n);
      assert PausedSince(c, h, n);
    }
  }

  lemma BusyBound(c: Config, h: seq<Reading>, n: nat)
    requires BusyAt(c, h, n)
    ensures n <= |h|
  {
  }

  lemma ThrottledNext(c: Config, h: seq<Reading>, r: Reading)
    requires c.dwell > 0
    ensures var next := h + [r];
            Throttled(c, next) <==>
              !CalmAt(c, next, |next|) && if r.Waiters? then r.transitive >= c.throttle else Throttled(c, h)
  {
    hide BusyAt, CalmAt;
    var next := h + [r];
    forall n | 0 <= n <= |h| ensures CalmAt(c, next, n) == CalmAt(c, h, n) {
      RunsKept(c, h, r, n);
    }
    if !CalmAt(c, next, |next|) {
      if r.Waiters? && r.transitive >= c.throttle {
        assert ThrottledSince(c, next, |h|);
      } else if r.Clear? && Throttled(c, h) {
        var j: nat :| ThrottledSince(c, h, j);
        assert ThrottledSince(c, next, j);
      }
    }
    if Throttled(c, next) {
      var j: nat :| ThrottledSince(c, next, j);
      if j < |h| {
        assert next[|h|].Clear?;
        assert forall i :: 0 <= i < |h| ==> h[i] == next[i];
        assert ThrottledSince(c, h, j);
      }
    }
  }

  // --- flips ------------------------------------------------------------------------------

  /** The breaker changed its mind at reading `n`. */
  ghost predicate FlipsAt(c: Config, h: seq<Reading>, n: nat) {
    0 < n <= |h| && Paused(c, h[..n]) != Paused(c, h[..n - 1])
  }

  lemma FlipCause(c: Config, h: seq<Reading>, n: nat)
    requires c.dwell > 0 && FlipsAt(c, h, n)
    ensures if Paused(c, h[..n]) then BusyAt(c, h, n) else CalmAt(c, h, n)
  {
    hide Busy, Calm, Paused;
    assert h[..n] == h[..n - 1] + [h[n - 1]];
    PausedNext(c, h[..n - 1], h[n - 1]);
    assert forall i :: 0 <= i < n ==> h[..n][i] == h[i];
  }

  /** A busy run and a calm run do not share a reading. */
  lemma RunsApart(c: Config, h: seq<Reading>, n: nat, m: nat)
    requires c.dwell > 0 && n <= m
    requires (BusyAt(c, h, n) && CalmAt(c, h, m)) || (CalmAt(c, h, n) && BusyAt(c, h, m))
    ensures n + c.dwell <= m
  {
    var r := h[n - 1];
    assert !(Busy(c, r) && Calm(c, r));
    hide Busy, Calm;
  }

  /** Any two flips are at least dwell readings apart. */
  lemma FlipsApart(c: Config, h: seq<Reading>, n: nat, m: nat)
    requires c.dwell > 0 && n < m && FlipsAt(c, h, n) && FlipsAt(c, h, m)
    ensures n + c.dwell <= m
  {
    FlipCause(c, h, n);
    FlipCause(c, h, m);
    hide Busy, Calm;
    if Paused(c, h[..n]) == Paused(c, h[..m]) {
      var k := RunBetween(c, h, n, m - 1);
      RunsApart(c, h, n, k);
    } else {
      RunsApart(c, h, n, m);
    }
  }

  /** Where the breaker differs at two moments, a run of the later kind ended between. */
  lemma RunBetween(c: Config, h: seq<Reading>, n: nat, m: nat) returns (k: nat)
    requires c.dwell > 0 && 0 < n <= m <= |h| && Paused(c, h[..n]) != Paused(c, h[..m])
    ensures n < k <= m && if Paused(c, h[..n]) then CalmAt(c, h, k) else BusyAt(c, h, k)
    decreases m - n
  {
    if Paused(c, h[..m]) != Paused(c, h[..m - 1]) {
      assert m > n;
      FlipCause(c, h, m);
      k := m;
    } else {
      k := RunBetween(c, h, n, m - 1);
    }
  }

  // --- the counters -------------------------------------------------------------------------

  /** How many of the last readings in a row were busy. */
  ghost function BusyRun(c: Config, h: seq<Reading>): (n: nat)
    ensures n <= |h|
  {
    if h == [] || !Busy(c, h[|h| - 1]) then 0 else BusyRun(c, h[..|h| - 1]) + 1
  }

  ghost function CalmRun(c: Config, h: seq<Reading>): (n: nat)
    ensures n <= |h|
  {
    if h == [] || !Calm(c, h[|h| - 1]) then 0 else CalmRun(c, h[..|h| - 1]) + 1
  }

  lemma {:induction false} BusyRunExactly(c: Config, h: seq<Reading>, d: nat)
    ensures d <= BusyRun(c, h) <==> d <= |h| && forall i :: |h| - d <= i < |h| ==> Busy(c, h[i])
  {
    hide Busy;
    if h != [] && 0 < d <= |h| {
      var front := h[..|h| - 1];
      BusyRunExactly(c, front, d - 1);
      assert forall i :: 0 <= i < |front| ==> front[i] == h[i];
      forall i | |h| - d <= i < |front| && (forall k :: |front| - (d - 1) <= k < |front| ==> Busy(c, front[k]))
        ensures Busy(c, h[i])
      {
        assert h[i] == front[i];
      }
    }
  }

  lemma {:induction false} CalmRunExactly(c: Config, h: seq<Reading>, d: nat)
    ensures d <= CalmRun(c, h) <==> d <= |h| && forall i :: |h| - d <= i < |h| ==> Calm(c, h[i])
  {
    hide Calm;
    if h != [] && 0 < d <= |h| {
      var front := h[..|h| - 1];
      CalmRunExactly(c, front, d - 1);
      assert forall i :: 0 <= i < |front| ==> front[i] == h[i];
      forall i | |h| - d <= i < |front| && (forall k :: |front| - (d - 1) <= k < |front| ==> Calm(c, front[k]))
        ensures Calm(c, h[i])
      {
        assert h[i] == front[i];
      }
    }
  }

  class PacingState {
    var directWaiters: nat
    var transitiveWaiters: nat
    var oldestWait: nat
    var contentionTicks: nat
    var quietTicks: nat
    var paused: bool
    var throttled: bool
    var cancelRequested: bool

    /** The counters and flags stand for the readings so far. */
    ghost predicate Refines(c: Config, h: seq<Reading>)
      reads this
    {
      && contentionTicks == BusyRun(c, h) && quietTicks == CalmRun(c, h)
      && paused == Paused(c, h) && throttled == Throttled(c, h)
    }

    constructor (ghost c: Config)
      requires c.dwell > 0
      ensures Refines(c, []) && !cancelRequested
    {
      directWaiters, transitiveWaiters, oldestWait := 0, 0, 0;
      contentionTicks, quietTicks := 0, 0;
      paused, throttled, cancelRequested := false, false, false;
    }

    method BumpQuiet(c: Config)
      modifies this`quietTicks, this`paused, this`throttled
      ensures quietTicks == if transitiveWaiters <= c.resume then old(quietTicks) + 1 else 0
      ensures paused == (old(paused) && !(c.dwell <= quietTicks && transitiveWaiters <= c.resume))
      ensures throttled == (old(throttled) && !(c.dwell <= quietTicks && transitiveWaiters <= c.resume))
    {
      if transitiveWaiters <= c.resume {
        quietTicks := quietTicks + 1;
        if quietTicks >= c.dwell {
          paused := false;
          throttled := false;
        }
      } else {
        quietTicks := 0;
      }
    }

    method ClearContention(c: Config, ghost h: seq<Reading>)
      requires c.dwell > 0 && Refines(c, h)
      modifies this
      ensures Refines(c, h + [Clear]) && directWaiters == 0 && transitiveWaiters == 0 && oldestWait == 0
      ensures cancelRequested == old(cancelRequested)
    {
      hide Paused, Throttled, BusyRun, CalmRun;
      TickLaw(c, h, Clear);
      directWaiters, transitiveWaiters, oldestWait := 0, 0, 0;
      contentionTicks := 0;
      BumpQuiet(c);
    }

    /** Someone waits. One who starves asks for the statement to be cancelled. */
    method Apply(c: Config, direct: nat, transitive: nat, oldest: nat, ghost h: seq<Reading>)
      requires c.dwell > 0 && Refines(c, h)
      modifies this
      ensures Refines(c, h + [Waiters(direct, transitive, oldest)])
      ensures directWaiters == direct && transitiveWaiters == transitive && oldestWait == oldest
      ensures cancelRequested == (old(cancelRequested) || oldest > c.maxWait)
    {
      hide Paused, Throttled, BusyRun, CalmRun;
      TickLaw(c, h, Waiters(direct, transitive, oldest));
      directWaiters, transitiveWaiters, oldestWait := direct, transitive, oldest;
      throttled := transitive >= c.throttle;
      if transitive >= c.pause {
        contentionTicks := contentionTicks + 1;
        quietTicks := 0;
        if contentionTicks >= c.dwell && !paused {
          paused := true;
        }
      } else {
        contentionTicks := 0;
        BumpQuiet(c);
      }
      if oldestWait > c.maxWait {
        cancelRequested := true;
      }
    }

    /** One tick's reading of this job. */
    method Tick(c: Config, direct: nat, transitive: nat, oldest: nat, ghost h: seq<Reading>)
      requires c.dwell > 0 && Refines(c, h)
      modifies this
      ensures Refines(c, h + [ReadingOf(direct, transitive, oldest)])
      ensures directWaiters == direct && transitiveWaiters == transitive
      ensures oldestWait == if direct == 0 && transitive == 0 then 0 else oldest
      ensures cancelRequested == (old(cancelRequested) || ((direct > 0 || transitive > 0) && oldest > c.maxWait))
    {
      if direct == 0 && transitive == 0 {
        ClearContention(c, h);
      } else {
        Apply(c, direct, transitive, oldest, h);
      }
    }
  }

  lemma TickLaw(c: Config, h: seq<Reading>, r: Reading)
    requires c.dwell > 0
    ensures var next := h + [r];
      && BusyRun(c, next) == (if Busy(c, r) then BusyRun(c, h) + 1 else 0)
      && CalmRun(c, next) == (if Calm(c, r) then CalmRun(c, h) + 1 else 0)
      && Paused(c, next) == (c.dwell <= BusyRun(c, next) || (Paused(c, h) && !(c.dwell <= CalmRun(c, next))))
      && Throttled(c, next) == (!(c.dwell <= CalmRun(c, next)) && if r.Waiters? then r.transitive >= c.throttle else Throttled(c, h))
  {
    hide Busy, Calm, Paused, Throttled;
    var next := h + [r];
    assert next[..|next| - 1] == h;
    PausedNext(c, h, r);
    ThrottledNext(c, h, r);
    BusyRunExactly(c, next, c.dwell);
    CalmRunExactly(c, next, c.dwell);
  }
}
