/** The deployment runner: what it starts, when, and how it ends. */
module Deployments {
  import opened Options
  import opened Ordering
  import opened Subsets
  import opened Repository

  /** What a run leaves in its log: a start, an end it saw, and the moment it said it was
      stopping. */
  datatype Event = Started(id: string) | Ended(id: string, ok: bool) | Stopping

  /** What a run goes by. */
  datatype Runbook = Runbook(repo: Listing, elsewhere: set<string>, order: seq<seq<seq<string>>>, cap: nat)

  ghost function After(s: set<string>, e: Event): (r: set<string>) {
    if e.Started? then s + {e.id} else if e.Ended? then s - {e.id} else s
  }

  /** Started and not yet seen to end. */
  ghost function Flight(log: seq<Event>): (s: set<string>) {
    if log == [] then {} else After(Flight(log[..|log| - 1]), log[|log| - 1])
  }

  /** Each dependency is recorded applied, here or elsewhere, or has succeeded earlier in
      this run. */
  ghost predicate Prepared(b: Runbook, past: seq<Event>, id: string)
    requires id in b.repo
  {
    forall d :: d in b.repo[id].deps ==>
      if d in b.repo then b.repo[d].status == Applied || Ended(d, true) in past
      else d in b.elsewhere
  }

  ghost predicate InOneGroup(b: Runbook, s: set<string>) {
    exists k, g :: 0 <= k < |b.order| && 0 <= g < |b.order[k]| && s <= Ids(b.order[k][g])
  }

  /** Nothing has failed and no signal has been answered. */
  ghost predicate Quiet(past: seq<Event>) {
    Stopping !in past && forall id :: Ended(id, false) !in past
  }

  /** When an event may follow. */
  ghost predicate MayFollow(b: Runbook, past: seq<Event>, e: Event) {
    match e
    case Started(id) =>
      && id in b.repo && Runnable(b.repo[id]) && Started(id) !in past
      && Prepared(b, past, id)
      && Quiet(past)
      && |Flight(past) + {id}| <= b.cap
      && InOneGroup(b, Flight(past) + {id})
    case Ended(id, _) => id in Flight(past)
    case Stopping => true
  }

  ghost predicate Sound(b: Runbook, log: seq<Event>) {
    forall i :: 0 <= i < |log| ==> MayFollow(b, log[..i], log[i])
  }

  lemma SoundNext(b: Runbook, log: seq<Event>, e: Event)
    requires Sound(b, log) && MayFollow(b, log, e)
    ensures Sound(b, log + [e])
    ensures Flight(log + [e]) == After(Flight(log), e)
  {
    var next := log + [e];
    hide MayFollow;
    forall i | 0 <= i < |next| ensures MayFollow(b, next[..i], next[i]) {
      assert next[..i] == log[..i];
      if i == |log| { assert log[..i] == log; }
    }
    assert next[..|next| - 1] == log;
  }

  /** Whatever was started is in flight or was seen to end. */
  lemma {:induction false} StartedOrEnded(log: seq<Event>, id: string)
    requires Started(id) in log
    ensures id in Flight(log) || Ended(id, true) in log || Ended(id, false) in log
  {
    var n := |log| - 1;
    var past := log[..n];
    assert log == past + [log[n]];
    if log[n] != Started(id) {
      assert Started(id) in past;
      StartedOrEnded(past, id);
    }
  }

  lemma SizeOf(s: seq<string>)
    requires DistinctIds(s)
    ensures |Ids(s)| == |s|
  {
    if s != [] {
      var n := |s| - 1;
      SizeOf(s[..n]);
      assert s == s[..n] + [s[n]];
      assert Ids(s) == Ids(s[..n]) + {s[n]};
      assert s[n] !in s[..n];
    }
  }

  // --- what holds of the log over a whole run ---------------------------------------------

  ghost predicate Fits(b: Runbook, s: set<string>) {
    |s| <= b.cap && (s == {} || InOneGroup(b, s))
  }

  lemma FitsWithout(b: Runbook, s: set<string>, id: string)
    requires Fits(b, s)
    ensures Fits(b, s - {id})
  {
    if s - {id} != {} {
      var k, g :| 0 <= k < |b.order| && 0 <= g < |b.order[k]| && s <= Ids(b.order[k][g]);
      assert s - {id} <= Ids(b.order[k][g]);
    }
    assert |s - {id}| <= |s| by {
      if id in s { assert s == (s - {id}) + {id}; } else { assert s - {id} == s; }
    }
  }

  /** At every moment of a sound run the jobs in flight are within the cap and members of
      one group. */
  lemma {:induction false} AtEveryMoment(b: Runbook, log: seq<Event>, n: nat)
    requires Sound(b, log) && n <= |log|
    ensures Fits(b, Flight(log[..n]))
    decreases n
  {
    if n > 0 {
      AtEveryMoment(b, log, n - 1);
      assert log[..n][..n - 1] == log[..n - 1];
      assert MayFollow(b, log[..n - 1], log[n - 1]);
      if log[n - 1].Ended? {
        FitsWithout(b, Flight(log[..n - 1]), log[n - 1].id);
      }
    }
  }

  lemma StartedOnce(b: Runbook, log: seq<Event>, i: nat, j: nat)
    requires Sound(b, log) && i < j < |log| && log[i].Started? && log[j].Started?
    ensures log[i].id != log[j].id
  {
    assert MayFollow(b, log[..j], log[j]);
    assert log[..j][i] == log[i];
  }

  /** With every level harmonious, jobs in flight at the same moment are independent. */
  lemma TogetherMeansIndependent(b: Runbook, log: seq<Event>, n: nat, levels: seq<seq<string>>, x: string, y: string)
    requires Sound(b, log) && n <= |log|
    requires Grouping(b.repo, levels, b.order)
    requires forall k :: 0 <= k < |levels| ==> DistinctIds(levels[k]) && Harmonious(b.repo, levels[k])
    requires x in Flight(log[..n]) && y in Flight(log[..n]) && x != y
    ensures x in b.repo && y in b.repo && Independent(b.repo[x], b.repo[y])
  {
    AtEveryMoment(b, log, n);
    hide Sound, Flight, Differ;
    var f := Flight(log[..n]);
    var k, g :| 0 <= k < |b.order| && 0 <= g < |b.order[k]| && f <= Ids(b.order[k][g]);
    HarmoniousSuffices(b.repo, levels[k]);
    var group := b.order[k][g];
    assert Pairwise(b.repo, group);
    assert x in group && y in group;
    var i :| 0 <= i < |group| && group[i] == x;
    var j :| 0 <= j < |group| && group[j] == y;
    Symmetric(b.repo[x], b.repo[y]);
  }

  // --- the runner ---------------------------------------------------------------------------

  /** What the process sees of the outside, at each moment it looks. */
  datatype World = World(
    signal: nat -> bool,
    readable: (nat, string) -> bool,
    planned: (nat, string) -> bool,
    accepted: (nat, string) -> bool,
    ended: (nat, string) -> Option<bool>)

  /** A signal once received stays received, and from `calm` on every job has ended. */
  ghost predicate Plausible(w: World, calm: nat) {
    && (forall t, u :: t <= u && w.signal(t) ==> w.signal(u))
    && (forall t, id :: calm <= t ==> w.ended(t, id).Some?)
  }

  datatype Result = Ok | RepoProblem | Refused | Interrupted

  /** What the process looked at, one thing at a moment. */
  datatype Look = AtSignal | AtFile(id: string) | AtPlan(id: string) | AtStart(id: string) | AtEnd(id: string)

  /** What the log says happened was seen at moment `t`. */
  ghost predicate Vouched(w: World, looks: seq<Look>, e: Event, t: nat) {
    && t < |looks|
    && match e
       case Started(id) => looks[t] == AtStart(id) && w.accepted(t, id)
       case Ended(id, ok) => looks[t] == AtEnd(id) && w.ended(t, id) == Some(ok)
       case Stopping => looks[t] == AtSignal && w.signal(t)
  }

  /** A look that goes into the log: a job accepted, or seen to have ended. */
  ghost predicate Tells(w: World, l: Look, t: nat) {
    (l.AtStart? && w.accepted(t, l.id)) || (l.AtEnd? && w.ended(t, l.id).Some?)
  }

  /** Every entry of the log was seen when it was written, in the order of the log: a job
      was started before it was seen to end. And every job accepted or seen to have ended
      is in the log. */
  ghost predicate Honest(w: World, looks: seq<Look>, log: seq<Event>, when: seq<nat>) {
    && |when| == |log|
    && (forall i :: 0 <= i < |log| ==> Vouched(w, looks, log[i], when[i]))
    && (forall i, j :: 0 <= i < j < |log| ==> when[i] < when[j])
    && (forall t :: 0 <= t < |looks| && Tells(w, looks[t], t) ==> t in when)
  }

  /** What one look says of the run: go on, or the outcome it must have. */
  ghost function Judge(w: World, l: Look, t: nat): (r: Result) {
    match l
    case AtSignal => if w.signal(t) then Interrupted else Ok
    case AtFile(id) => if w.readable(t, id) then Ok else RepoProblem
    case AtPlan(id) => if w.planned(t, id) then Ok else Refused
    case AtStart(id) => if w.accepted(t, id) then Ok else Refused
    case AtEnd(id) => if w.ended(t, id) == Some(false) then Refused else Ok
  }

  /** The first look that did not say to go on decides. */
  ghost function Verdict(w: World, looks: seq<Look>): (r: Result) {
    if looks == [] then Ok else
      var n := |looks| - 1;
      var r := Verdict(w, looks[..n]);
      if r != Ok then r else Judge(w, looks[n], n)
  }

  lemma {:induction false} VerdictIs(w: World, looks: seq<Look>)
    ensures Verdict(w, looks) == Ok <==> forall t :: 0 <= t < |looks| ==> Judge(w, looks[t], t) == Ok
    ensures Verdict(w, looks) != Ok ==>
              exists t :: 0 <= t < |looks| && Judge(w, looks[t], t) == Verdict(w, looks)
                          && forall u :: 0 <= u < t ==> Judge(w, looks[u], u) == Ok
  {
    hide Judge;
    if looks != [] {
      var n := |looks| - 1;
      var front := looks[..n];
      VerdictIs(w, front);
      assert forall t :: 0 <= t < n ==> front[t] == looks[t];
      if Verdict(w, front) != Ok {
        var t :| 0 <= t < n && Judge(w, front[t], t) == Verdict(w, front) && forall u :: 0 <= u < t ==> Judge(w, front[u], u) == Ok;
        assert Judge(w, looks[t], t) == Verdict(w, looks);
        assert forall u :: 0 <= u < t ==> Judge(w, looks[u], u) == Ok;
      } else if Judge(w, looks[n], n) != Ok {
        assert forall u :: 0 <= u < n ==> Judge(w, looks[u], u) == Ok;
      }
    }
  }

  lemma VerdictNext(w: World, looks: seq<Look>, l: Look)
    ensures Verdict(w, looks + [l]) == if Verdict(w, looks) != Ok then Verdict(w, looks) else Judge(w, l, |looks|)
  {
    assert (looks + [l])[..|looks + [l]| - 1] == looks;
  }

  lemma {:induction false} VerdictStays(w: World, looks: seq<Look>, later: seq<Look>)
    requires looks <= later && Verdict(w, looks) != Ok
    ensures Verdict(w, later) == Verdict(w, looks)
    decreases |later|
  {
    if |looks| < |later| {
      VerdictStays(w, looks, later[..|later| - 1]);
    } else {
      assert later == looks;
    }
  }

  /** What may be looked at next. A file is read only right after a look at the signal, a
      plan made or a job started only right after its file was read, and none of these once
      anything has said to stop. A dry run makes plans and starts nothing. */
  ghost predicate InTurn(w: World, looks: seq<Look>, l: Look, dry: bool) {
    match l
    case AtFile(_) => looks != [] && looks[|looks| - 1] == AtSignal && Verdict(w, looks) == Ok
    case AtPlan(id) => dry && looks != [] && looks[|looks| - 1] == AtFile(id) && Verdict(w, looks) == Ok
    case AtStart(id) => !dry && looks != [] && looks[|looks| - 1] == AtFile(id) && Verdict(w, looks) == Ok
    case _ => true
  }

  ghost predicate Orderly(w: World, looks: seq<Look>, dry: bool) {
    forall t :: 0 <= t < |looks| ==> InTurn(w, looks[..t], looks[t], dry)
  }

  lemma OrderlyNext(w: World, looks: seq<Look>, l: Look, dry: bool)
    requires Orderly(w, looks, dry) && InTurn(w, looks, l, dry)
    ensures Orderly(w, looks + [l], dry)
  {
    hide InTurn;
    var more := looks + [l];
    forall t | 0 <= t < |more| ensures InTurn(w, more[..t], more[t], dry) {
      if t < |looks| {
        assert more[..t] == looks[..t] && more[t] == looks[t];
      } else {
        assert more[..t] == looks;
      }
    }
  }

  /** A plan seen refused decides the run. */
  lemma RefusedPlan(w: World, looks: seq<Look>, dry: bool, t: nat)
    requires Orderly(w, looks, dry) && t < |looks| && looks[t].AtPlan? && !w.planned(t, looks[t].id)
    ensures Verdict(w, looks) == Refused
  {
    assert InTurn(w, looks[..t], looks[t], dry);
    var seen := looks[..t + 1];
    assert seen == looks[..t] + [looks[t]];
    VerdictNext(w, looks[..t], looks[t]);
    VerdictStays(w, seen, looks);
  }

  /** A start was preceded by a look at its file, which was readable, and before that one at
      the signal, which had not come. */
  lemma StartFits(w: World, looks: seq<Look>, dry: bool, t: nat)
    requires Orderly(w, looks, dry) && t < |looks| && looks[t].AtStart?
    ensures t >= 2 && looks[t - 1] == AtFile(looks[t].id) && looks[t - 2] == AtSignal
    ensures w.readable(t - 1, looks[t].id) && !w.signal(t - 2)
  {
    assert InTurn(w, looks[..t], looks[t], dry);
    assert InTurn(w, looks[..t - 1], looks[t - 1], dry);
    VerdictIs(w, looks[..t]);
    assert Judge(w, looks[..t][t - 1], t - 1) == Ok && Judge(w, looks[..t][t - 2], t - 2) == Ok;
  }

  lemma LookedOn(w: World, looks: seq<Look>, log: seq<Event>, when: seq<nat>, l: Look)
    requires Honest(w, looks, log, when) && !Tells(w, l, |looks|)
    ensures Honest(w, looks + [l], log, when)
  {
    hide Tells;
    assert forall t :: 0 <= t < |looks| ==> (looks + [l])[t] == looks[t];
  }

  lemma Logged(w: World, looks: seq<Look>, log: seq<Event>, when: seq<nat>, l: Look, e: Event)
    requires Honest(w, looks, log, when) && Vouched(w, looks + [l], e, |looks|)
    ensures Honest(w, looks + [l], log + [e], when + [|looks|])
  {
    hide Tells;
    var more, whens := log + [e], when + [|looks|];
    assert forall t :: 0 <= t < |looks| ==> (looks + [l])[t] == looks[t];
    assert forall i :: 0 <= i < |log| ==> more[i] == log[i];
    forall i | 0 <= i < |log| ensures when[i] < |looks| && Vouched(w, looks + [l], more[i], whens[i]) {
      assert Vouched(w, looks, log[i], when[i]);
    }
    hide Vouched;
    assert whens[|when|] == |looks|;
    assert forall t :: t in when ==> t in whens;
  }

  /** `running` is what is in flight. */
  ghost predicate Watching(b: Runbook, log: seq<Event>, running: seq<string>) {
    Sound(b, log) && DistinctIds(running) && Ids(running) == Flight(log)
  }

  lemma StopWatching(b: Runbook, log: seq<Event>, running: seq<string>, i: nat, ok: bool)
    requires Watching(b, log, running) && i < |running|
    ensures Watching(b, log + [Ended(running[i], ok)], running[..i] + running[i + 1..])
    ensures NoneStarted(log, log + [Ended(running[i], ok)])
  {
    StartsNext(log, Ended(running[i], ok));
    IdsIn(running, running[i]);
    SoundNext(b, log, Ended(running[i], ok));
    hide Sound, Flight, Starts;
    IdsWithout(running, i);
  }

  lemma IdsWithout(s: seq<string>, i: nat)
    requires DistinctIds(s) && i < |s|
    ensures Ids(s[..i] + s[i + 1..]) == Ids(s) - {s[i]}
    ensures DistinctIds(s[..i] + s[i + 1..])
  {
    var rest := s[..i] + s[i + 1..];
    assert forall j :: 0 <= j < |rest| ==> rest[j] == if j < i then s[j] else s[j + 1];
    forall x ensures x in Ids(rest) <==> x in Ids(s) - {s[i]} {
      if x in s && x != s[i] {
        var j :| 0 <= j < |s| && s[j] == x;
        if j < i { assert rest[j] == x; } else { assert rest[j - 1] == x; }
      }
    }
  }

  class Deployment {
    const cap: nat
    const dryRun: bool
    var log: seq<Event>
    var time: nat
    var stopSaid: bool
    // what was looked at at each moment, and the moment of each entry of the log
    ghost var looks: seq<Look>
    ghost var when: seq<nat>

    constructor (cap: nat, dryRun: bool)
      requires cap > 0
      ensures this.cap == cap && this.dryRun == dryRun && log == [] && !stopSaid
      ensures time == 0 && looks == [] && when == []
    {
      this.cap, this.dryRun, log, time, stopSaid := cap, dryRun, [], 0, false;
      looks, when := [], [];
    }

    ghost predicate Truthful(w: World)
      reads this
    {
      |looks| == time && Honest(w, looks, log, when) && Orderly(w, looks, dryRun)
    }

    method LookAt(w: World, ghost l: Look)
      requires Truthful(w) && InTurn(w, looks, l, dryRun) && !Tells(w, l, time)
      modifies this`time, this`looks
      ensures Truthful(w) && looks == old(looks) + [l] && time == old(time) + 1
      ensures Verdict(w, looks) == if Verdict(w, old(looks)) != Ok then Verdict(w, old(looks)) else Judge(w, l, old(time))
    {
      hide Honest, Orderly, InTurn, Tells, Verdict, Judge;
      VerdictNext(w, looks, l);
      OrderlyNext(w, looks, l, dryRun);
      LookedOn(w, looks, log, when, l);
      looks := looks + [l];
      time := time + 1;
    }

    /** A look whose answer goes into the log. */
    method LookAndLog(w: World, ghost l: Look, e: Event)
      requires Truthful(w) && InTurn(w, looks, l, dryRun) && Vouched(w, looks + [l], e, time)
      modifies this`time, this`looks, this`log, this`when
      ensures Truthful(w) && looks == old(looks) + [l] && time == old(time) + 1 && log == old(log) + [e]
      ensures Verdict(w, looks) == if Verdict(w, old(looks)) != Ok then Verdict(w, old(looks)) else Judge(w, l, old(time))
    {
      hide Honest, Vouched, Orderly, InTurn, Verdict, Judge;
      VerdictNext(w, looks, l);
      OrderlyNext(w, looks, l, dryRun);
      Logged(w, looks, log, when, l, e);
      when := when + [time];
      log := log + [e];
      looks := looks + [l];
      time := time + 1;
    }

    /** True from the first signal on; says so once. */
    method StopOnSignal(w: World) returns (stop: bool)
      requires Truthful(w)
      modifies this`log, this`when, this`looks, this`time, this`stopSaid
      ensures stop == w.signal(old(time)) && time == old(time) + 1 && old(looks) <= looks
      ensures log == old(log) || (log == old(log) + [Stopping] && !old(stopSaid))
      ensures stopSaid == (old(stopSaid) || stop)
      ensures !stop ==> log == old(log)
      ensures Truthful(w) && looks == old(looks) + [AtSignal]
      ensures Verdict(w, looks) == if Verdict(w, old(looks)) != Ok then Verdict(w, old(looks)) else if stop then Interrupted else Ok
    {
      hide Honest, Orderly, Verdict;
      stop := w.signal(time);
      if stop && !stopSaid {
        stopSaid := true;
        LookAndLog(w, AtSignal, Stopping);
      } else {
        LookAt(w, AtSignal);
      }
    }

    /** One look at a job in flight. */
    method LookAtJob(w: World, ghost calm: nat, ghost b: Runbook, jobs: seq<string>, i: nat)
      returns (state: Option<bool>, running: seq<string>)
      requires Plausible(w, calm) && Watching(b, log, jobs) && Truthful(w) && i < |jobs|
      modifies this`log, this`when, this`looks, this`time
      ensures Watching(b, log, running) && NoneStarted(old(log), log) && Truthful(w)
      ensures time == old(time) + 1 && old(looks) <= looks
      ensures old(time) >= calm ==> state.Some?
      ensures state.None? ==> running == jobs && log == old(log)
      ensures state.Some? ==> running == jobs[..i] + jobs[i + 1..] && log == old(log) + [Ended(jobs[i], state.value)]
      ensures looks == old(looks) + [AtEnd(jobs[i])] && state == w.ended(old(time), jobs[i])
      ensures Verdict(w, looks) ==
              if Verdict(w, old(looks)) != Ok then Verdict(w, old(looks)) else if state == Some(false) then Refused else Ok
    {
      hide Plausible, Starts, Sound, Flight, Honest, Orderly, Verdict, Watching;
      var id := jobs[i];
      state := w.ended(time, id);
      PlausibleEnds(w, calm, time, id);
      match state
      case None =>
        LookAt(w, AtEnd(id));
        running := jobs;
        NothingNew(log);
      case Some(ok) =>
        StopWatching(b, log, jobs, i, ok);
        LookAndLog(w, AtEnd(id), Ended(id, ok));
        running := jobs[..i] + jobs[i + 1..];
    }

    /** Watches every job in flight to its end. */
    method Drain(w: World, ghost calm: nat, ghost b: Runbook, jobs: seq<string>)
      requires Plausible(w, calm) && Watching(b, log, jobs) && Truthful(w) && Verdict(w, looks) != Ok
      modifies this`log, this`when, this`looks, this`time, this`stopSaid
      ensures Sound(b, log) && Flight(log) == {} && NoneStarted(old(log), log) && Truthful(w)
      ensures old(looks) <= looks && Verdict(w, looks) == Verdict(w, old(looks))
      ensures jobs != [] ==> |old(looks)| < |looks| && looks[|old(looks)|] == AtSignal
    {
      hide Plausible, Starts, Sound, Flight, Honest, Orderly, Verdict;
      var running := jobs;
      while running != []
        invariant Watching(b, log, running) && NoneStarted(old(log), log) && Truthful(w)
        invariant old(looks) <= looks && Verdict(w, looks) == Verdict(w, old(looks))
        invariant if |old(looks)| < |looks| then looks[|old(looks)|] == AtSignal else running == jobs
        decreases |running|, if time < calm then calm - time else 0
      {
        ghost var before := log;
        var _ := StopOnSignal(w);
        StillWatching(b, before, log, running);
        ghost var size, began := |running|, time;
        var i := 0;
        while i < |running|
          invariant i <= |running| <= size && Watching(b, log, running) && NoneStarted(old(log), log)
          invariant Truthful(w) && old(looks) <= looks && Verdict(w, looks) == Verdict(w, old(looks))
          invariant |old(looks)| < |looks| && looks[|old(looks)|] == AtSignal
          invariant began + i <= time && (began >= calm ==> i == 0)
          decreases |running| - i
        {
          hide Watching;
          var state;
          state, running := LookAtJob(w, calm, b, running, i);
          if state.None? { i := i + 1; }
        }
      }
    }

    /** One look at each job in flight; stops at the first that did not succeed. */
    method Poll(w: World, ghost calm: nat, ghost b: Runbook, jobs: seq<string>)
      returns (running: seq<string>, failed: bool)
      requires Plausible(w, calm) && Watching(b, log, jobs) && Quiet(log) && jobs != [] && Truthful(w) && Verdict(w, looks) == Ok
      modifies this`log, this`when, this`looks, this`time
      ensures Watching(b, log, running) && NoneStarted(old(log), log)
      ensures forall id :: id in running ==> id in jobs
      ensures Truthful(w) && old(looks) <= looks && Verdict(w, looks) == if failed then Refused else Ok
      ensures !failed ==> Quiet(log)
      ensures !failed ==> |running| < |jobs| || (running == jobs && old(time) < time && old(time) < calm)
    {
      hide Plausible, Watching, Starts, Sound, Flight, Honest, Orderly, Verdict;
      running, failed := jobs, false;
      var i := 0;
      while i < |running|
        invariant i <= |running| <= |jobs| && Watching(b, log, running) && NoneStarted(old(log), log)
        invariant forall id :: id in running ==> id in jobs
        invariant Quiet(log) && Truthful(w) && old(looks) <= looks && Verdict(w, looks) == Ok && !failed
        invariant old(time) + i <= time && (old(time) >= calm ==> i == 0)
        invariant |running| == |jobs| ==> running == jobs && old(time) + i == time
        decreases |running| - i
      {
        var state;
        state, running := LookAtJob(w, calm, b, running, i);
        if state.None? { i := i + 1; }
        if state == Some(false) {
          failed := true;
          return;
        }
      }
    }

    /** Starts what there is room for: all of it, unless a signal has come. */
    method Launch(w: World, ghost calm: nat, ghost b: Runbook, ghost began: seq<Event>, ids: seq<string>,
                  from: nat, jobs: seq<string>)
      returns (next: nat, running: seq<string>, verdict: Option<Result>)
      requires Plausible(w, calm) && b.cap == cap && Truthful(w) && Verdict(w, looks) == Ok
      requires Partway(b, began, log, ids, from, jobs, dryRun) && AllPlanned(looks, ids, from, dryRun)
      modifies this`log, this`when, this`looks, this`time, this`stopSaid
      ensures verdict.Some? ==> Finished(b, began, log, ids, dryRun) && verdict.value != Ok
      ensures Truthful(w) && old(looks) <= looks && (verdict.Some? ==> Verdict(w, looks) == verdict.value)
      ensures verdict.None? ==> from <= next && Partway(b, began, log, ids, next, running, dryRun)
      ensures verdict.None? ==> AllPlanned(looks, ids, next, dryRun)
      ensures verdict.None? ==> old(time) <= time
      ensures verdict.None? ==>
                if Verdict(w, looks) == Ok then next == |ids| || |running| >= cap else Verdict(w, looks) == Interrupted && w.signal(time)
      ensures verdict.None? && next == from ==> running == jobs
    {
      hide Partway, Finished, Watching, Quiet, Plausible, Starts, Sound, Flight, Honest, Orderly, Verdict, AllPlanned;
      next, running, verdict := from, jobs, None;
      PartwayBounds(b, began, log, ids, next, running, dryRun);
      while next < |ids| && |running| < cap
        invariant from <= next <= |ids| && Partway(b, began, log, ids, next, running, dryRun)
        invariant next == from ==> running == jobs
        invariant verdict == None && old(time) <= time && Truthful(w) && old(looks) <= looks
        invariant Verdict(w, looks) == Ok && AllPlanned(looks, ids, next, dryRun)
      {
        ghost var seen := looks;
        var signalled := w.signal(time);
        LookAt(w, AtSignal);
        if signalled {
          SignalStays(w, calm, time - 1, time);
          PlannedStays(seen, looks, ids, next, dryRun);
          return;
        }
        var id := ids[next];
        PartwayBounds(b, began, log, ids, next, running, dryRun);
        var readable := w.readable(time, id);
        LookAt(w, AtFile(id));
        if !readable {
          GiveUp(w, calm, b, began, ids, next, running);
          return next, running, Some(RepoProblem);
        }
        if dryRun {
          var planned := w.planned(time, id);
          LookAt(w, AtPlan(id));
          if !planned {
            DryIsFinished(b, began, log, ids, next, running);
            return next, running, Some(Refused);
          }
          DryNext(b, began, log, ids, next, running);
          PlannedStays(seen, looks, ids, next, dryRun);
          PlannedNext(looks, ids, next);
          next := next + 1;
          continue;
        }
        if !w.accepted(time, id) {
          LookAt(w, AtStart(id));
          GiveUp(w, calm, b, began, ids, next, running);
          return next, running, Some(Refused);
        }
        StartNext(b, began, log, ids, next, running);
        LookAndLog(w, AtStart(id), Started(id));
        NonePlanned(looks, ids, next + 1, dryRun);
        running := running + [id];
        next := next + 1;
      }
    }

    /** Something stops the group: what is in flight is watched to its end. */
    method GiveUp(w: World, ghost calm: nat, ghost b: Runbook, ghost began: seq<Event>, ghost ids: seq<string>,
                  ghost next: nat, running: seq<string>)
      requires Plausible(w, calm) && Truthful(w) && Verdict(w, looks) != Ok
      requires Partway(b, began, log, ids, next, running, dryRun)
      modifies this`log, this`when, this`looks, this`time, this`stopSaid
      ensures Finished(b, began, log, ids, dryRun) && Truthful(w) && Verdict(w, looks) == Verdict(w, old(looks))
      ensures old(looks) <= looks
    {
      hide Partway, Finished, Watching, Quiet, Plausible, Starts, Sound, Flight, Honest, Orderly, Verdict;
      PartwayBounds(b, began, log, ids, next, running, dryRun);
      ghost var before := log;
      Drain(w, calm, b, running);
      WindUp(b, began, before, log, ids, next, running, dryRun);
    }

    /** Runs one group to its end, or until something stops the run. */
    method RunGroup(w: World, ghost calm: nat, ghost b: Runbook, ids: seq<string>) returns (r: Result)
      requires Plausible(w, calm) && b.cap == cap && cap > 0 && Truthful(w) && Verdict(w, looks) == Ok
      requires Sound(b, log) && Flight(log) == {} && Quiet(log) && GroupReady(b, log, ids, dryRun)
      modifies this`log, this`when, this`looks, this`time, this`stopSaid
      ensures Finished(b, old(log), log, ids, dryRun)
      ensures Truthful(w) && old(looks) <= looks && r == Verdict(w, looks)
      ensures r == Ok ==> Quiet(log) && (!dryRun ==> forall id :: id in ids ==> Ended(id, true) in log)
      ensures r == Ok && dryRun ==> forall id :: id in ids ==> PlannedIn(w, looks, id)
    {
      hide Partway, Finished, Watching, Quiet, Plausible, Starts, Sound, Flight, Honest, Orderly, Verdict, AllPlanned, PlannedIn;
      ghost var began := log;
      var running: seq<string>, next := [], 0;
      GroupBegins(b, log, ids, dryRun);
      NoneToPlan(looks, ids, dryRun);
      while next < |ids| || running != []
        invariant next <= |ids| && Partway(b, began, log, ids, next, running, dryRun) && Truthful(w)
        invariant old(looks) <= looks && Verdict(w, looks) == Ok && AllPlanned(looks, ids, next, dryRun)
        decreases |ids| - next, |running|, if time < calm then calm - time else 0
      {
        var verdict;
        next, running, verdict := Launch(w, calm, b, began, ids, next, running);
        if verdict.Some? { return verdict.value; }
        PartwayBounds(b, began, log, ids, next, running, dryRun);
        ghost var before, seen := log, looks;
        var stop := StopOnSignal(w);
        if stop {
          StillWatching(b, before, log, running);
          ghost var mid := log;
          Drain(w, calm, b, running);
          WindUpStopped(b, began, before, mid, log, ids, next, running, dryRun);
          return Interrupted;
        }
        PlannedStays(seen, looks, ids, next, dryRun);
        if running == [] { continue; }
        seen := looks;
        var left, failed := Poll(w, calm, b, running);
        if failed {
          ghost var mid := log;
          Drain(w, calm, b, left);
          WindUpStopped(b, began, before, mid, log, ids, next, running, dryRun);
          return Refused;
        }
        PlannedStays(seen, looks, ids, next, dryRun);
        Polled(b, began, before, log, ids, next, running, left, dryRun);
        running := left;
      }
      GroupEnds(b, began, log, ids, dryRun);
      if dryRun { GroupPlanned(w, looks, ids); }
      r := Ok;
    }

    /** The whole run, from the listing to the last group. */
    method Run(w: World, ghost calm: nat, entries: seq<Entry>, elsewhere: set<string>, scanned: seq<Problem>)
      returns (r: Result, problems: seq<Problem>, ghost b: Runbook, levels: seq<seq<string>>)
      requires Plausible(w, calm) && cap > 0 && WellListed(entries)
      requires log == [] && when == [] && looks == [] && time == 0
      modifies this`log, this`when, this`looks, this`time, this`stopSaid
      ensures b.cap == cap && b.elsewhere == elsewhere && Listed(entries, b.repo) && Grouping(b.repo, levels, b.order)
      ensures Sound(b, log) && Flight(log) == {}
      ensures |looks| == time && Honest(w, looks, log, when) && Orderly(w, looks, dryRun)
      ensures scanned != [] ==> problems != []
      ensures problems != [] ==> r == RepoProblem && log == []
      ensures problems == [] ==> r == Verdict(w, looks)
      ensures dryRun ==> Starts(log) == {}
      ensures r == Ok ==> Quiet(log)
      ensures r == Ok && !dryRun ==>
                forall e :: e in entries && Runnable(e) ==> Ended(e.id, true) in log
      ensures r == Ok && dryRun ==>
                forall e :: e in entries && Runnable(e) ==> PlannedIn(w, looks, e.id)
    {
      assert Truthful(w);
      hide Sound, Flight, Quiet, Starts, Listed, RunnableOf, LayersLaw, Grouping, WellListed, Plausible, GroupReady, Honest,
        Orderly, Verdict, PlannedIn, AllPlannedIn;
      var order, repo, runnable, o;
      order, problems, repo, runnable, levels, o := Assemble(entries, elsewhere, scanned);
      ghost var level := LevelsOf(levels);
      b := Runbook(repo, elsewhere, order, cap);
      NothingYet(b, dryRun);
      NothingSeen(w, level, dryRun);
      if problems != [] { return RepoProblem, problems, b, levels; }
      hide ProblemsLaw;
      Cleared(entries, elsewhere, scanned, repo, runnable, levels, o, order, problems);
      for k := 0 to |order|
        invariant Ran(b, log, Lower(level, k), dryRun) && Truthful(w)
        invariant Verdict(w, looks) == Ok && AllPlannedIn(w, looks, Lower(level, k), dryRun)
      {
        var groups := order[k];
        LevelBegins(level, k, groups);
        for g := 0 to |groups|
          invariant Ran(b, log, Upto(level, k, groups, g), dryRun) && Truthful(w)
          invariant Verdict(w, looks) == Ok && AllPlannedIn(w, looks, Upto(level, k, groups, g), dryRun)
        {
          hide Ran, Upto;
          GroupIsReady(b, runnable, levels, level, log, k, g, dryRun);
          var ids := Startable(repo, groups[g]);
          RanStill(b, log, Upto(level, k, groups, g), dryRun);
          ghost var began, seen := log, looks;
          if ids != [] {
            r := RunGroup(w, calm, b, ids);
            if r != Ok {
              return r, problems, b, levels;
            }
          } else {
            NothingToRun(b, log, dryRun);
          }
          GroupRan(b, began, log, level, k, groups, g, dryRun);
          GroupsPlanned(w, seen, looks, level, k, groups, g, dryRun);
        }
        LevelEnds(b, runnable, levels, level, k);
      }
      if !dryRun { AllRan(b, entries, runnable, levels, level, log, dryRun); }
      if dryRun { EveryPlanned(w, looks, b, entries, runnable, levels, level); }
      r := Ok;
    }
  }

  // --- what the runner's steps keep ------------------------------------------------------------

  /** A plan of `id` was made, at a moment when it was accepted. */
  ghost predicate PlannedIn(w: World, looks: seq<Look>, id: string) {
    exists t: nat :: t < |looks| && looks[t] == AtPlan(id) && w.planned(t, id)
  }

  ghost predicate AllPlannedIn(w: World, looks: seq<Look>, ids: set<string>, dry: bool) {
    dry ==> forall id :: id in ids ==> PlannedIn(w, looks, id)
  }

  /** A dry run has planned what comes before `next`. */
  ghost predicate AllPlanned(looks: seq<Look>, ids: seq<string>, next: nat, dry: bool) {
    dry ==> next <= |ids| && forall i :: 0 <= i < next ==> AtPlan(ids[i]) in looks
  }

  lemma NoneToPlan(looks: seq<Look>, ids: seq<string>, dry: bool)
    ensures AllPlanned(looks, ids, 0, dry)
  {
  }

  lemma NonePlanned(looks: seq<Look>, ids: seq<string>, next: nat, dry: bool)
    requires !dry
    ensures AllPlanned(looks, ids, next, dry)
  {
  }

  lemma PlannedStays(looks: seq<Look>, later: seq<Look>, ids: seq<string>, next: nat, dry: bool)
    requires AllPlanned(looks, ids, next, dry) && looks <= later
    ensures AllPlanned(later, ids, next, dry)
  {
    forall l | l in looks ensures l in later {
      var t :| 0 <= t < |looks| && looks[t] == l;
      assert later[t] == l;
    }
  }

  lemma PlannedNext(looks: seq<Look>, ids: seq<string>, next: nat)
    requires next < |ids| && AllPlanned(looks, ids, next, true) && looks != [] && looks[|looks| - 1] == AtPlan(ids[next])
    ensures AllPlanned(looks, ids, next + 1, true)
  {
  }

  lemma GroupPlanned(w: World, looks: seq<Look>, ids: seq<string>)
    requires AllPlanned(looks, ids, |ids|, true) && Verdict(w, looks) == Ok
    ensures forall id :: id in ids ==> PlannedIn(w, looks, id)
  {
    VerdictIs(w, looks);
    forall id | id in ids ensures PlannedIn(w, looks, id) {
      var i :| 0 <= i < |ids| && ids[i] == id;
      var t :| 0 <= t < |looks| && looks[t] == AtPlan(ids[i]);
      assert Judge(w, looks[t], t) == Ok;
    }
  }

  lemma NothingSeen(w: World, level: map<string, nat>, dry: bool)
    ensures Verdict(w, []) == Ok && AllPlannedIn(w, [], Lower(level, 0), dry)
  {
  }

  lemma GroupsPlanned(w: World, looks: seq<Look>, later: seq<Look>, level: map<string, nat>, k: nat,
                      groups: seq<seq<string>>, g: nat, dry: bool)
    requires g < |groups| && AllPlannedIn(w, looks, Upto(level, k, groups, g), dry) && looks <= later
    requires dry ==> forall id :: id in groups[g] ==> PlannedIn(w, later, id)
    ensures AllPlannedIn(w, later, Upto(level, k, groups, g + 1), dry)
  {
    JoinedPrefix(groups, g);
    if dry {
      forall id | id in Upto(level, k, groups, g) ensures PlannedIn(w, later, id) {
        var t: nat :| t < |looks| && looks[t] == AtPlan(id) && w.planned(t, id);
        assert later[t] == looks[t];
      }
    }
  }

  lemma EveryPlanned(w: World, looks: seq<Look>, b: Runbook, entries: seq<Entry>, runnable: seq<string>,
                     levels: seq<seq<string>>, level: map<string, nat>)
    requires Clear(b, runnable, levels, level) && Listed(entries, b.repo) && WellListed(entries)
    requires AllPlannedIn(w, looks, Lower(level, |b.order|), true)
    ensures forall e :: e in entries && Runnable(e) ==> PlannedIn(w, looks, e.id)
  {
    hide Below, Tight, MissingLaw, PlannedIn;
    forall e | e in entries && Runnable(e) ensures PlannedIn(w, looks, e.id) {
      var i :| 0 <= i < |entries| && entries[i] == e;
      assert e.id in level;
    }
  }

  ghost function Starts(log: seq<Event>): (s: set<string>) {
    set e | e in log && e.Started? :: e.id
  }

  lemma StartsIn(log: seq<Event>, id: string)
    ensures id in Starts(log) <==> Started(id) in log
  {
  }

  lemma StartsNext(log: seq<Event>, e: Event)
    ensures Starts(log + [e]) == Starts(log) + if e.Started? then {e.id} else {}
  {
  }

  /** Nothing was started in between. */
  ghost predicate NoneStarted(before: seq<Event>, log: seq<Event>) {
    before <= log && Starts(log) == Starts(before)
  }

  ghost predicate GroupReady(b: Runbook, log: seq<Event>, ids: seq<string>, dry: bool) {
    && DistinctIds(ids) && InOneGroup(b, Ids(ids)) && Ids(ids) !! Starts(log)
    && (forall id :: id in ids ==> id in b.repo && Runnable(b.repo[id]) && (dry || Prepared(b, log, id)))
  }

  /** Partway through a group: what was started is exactly what comes before `next`. */
  ghost predicate Partway(b: Runbook, began: seq<Event>, log: seq<Event>, ids: seq<string>, next: nat,
                          running: seq<string>, dry: bool)
  {
    && next <= |ids| && GroupReady(b, began, ids, dry) && began <= log
    && Watching(b, log, running) && Quiet(log)
    && Starts(log) == Starts(began) + (if dry then {} else Ids(ids[..next]))
    && Ids(running) <= Ids(ids[..next])
    && (dry ==> running == [])
  }

  /** What every way out of a group leaves. */
  ghost predicate Finished(b: Runbook, began: seq<Event>, log: seq<Event>, ids: seq<string>, dry: bool) {
    && Sound(b, log) && Flight(log) == {} && began <= log
    && Starts(log) <= Starts(began) + if dry then {} else Ids(ids)
  }

  lemma PartwayBounds(b: Runbook, began: seq<Event>, log: seq<Event>, ids: seq<string>, next: nat,
                      running: seq<string>, dry: bool)
    requires Partway(b, began, log, ids, next, running, dry)
    ensures next <= |ids| && Watching(b, log, running) && Quiet(log)
  {
  }

  lemma GroupBegins(b: Runbook, log: seq<Event>, ids: seq<string>, dry: bool)
    requires Sound(b, log) && Flight(log) == {} && Quiet(log) && GroupReady(b, log, ids, dry)
    ensures Partway(b, log, log, ids, 0, [], dry)
  {
    hide Sound, Flight, GroupReady, Starts;
  }

  lemma StartNext(b: Runbook, began: seq<Event>, log: seq<Event>, ids: seq<string>, next: nat, running: seq<string>)
    requires Partway(b, began, log, ids, next, running, false) && next < |ids| && |running| < b.cap
    ensures Partway(b, began, log + [Started(ids[next])], ids, next + 1, running + [ids[next]], false)
  {
    hide Watching, GroupReady, MayFollow, Quiet, Starts, Ids;
    var id := ids[next];
    MayStart(b, began, log, ids, next, running);
    NotYet(b, began, ids, next);
    IdsIn(running, id);
    IdsNext(running, id);
    IdsNext(ids[..next], id);
    assert ids[..next + 1] == ids[..next] + [id];
    StartWatching(b, log, running, id);
    StartsNext(log, Started(id));
    assert began <= log + [Started(id)];
  }

  lemma IdsIn(s: seq<string>, id: string)
    ensures id in Ids(s) <==> id in s
  {
  }

  lemma IdsNext(s: seq<string>, id: string)
    ensures Ids(s + [id]) == Ids(s) + {id}
  {
  }

  lemma NotYet(b: Runbook, began: seq<Event>, ids: seq<string>, next: nat)
    requires GroupReady(b, began, ids, false) && next < |ids|
    ensures ids[next] !in Ids(ids[..next]) && ids[next] !in Starts(began)
  {
    hide Starts;
    assert ids[next] in Ids(ids);
  }

  lemma StartWatching(b: Runbook, log: seq<Event>, running: seq<string>, id: string)
    requires Watching(b, log, running) && Quiet(log) && id !in running && MayFollow(b, log, Started(id))
    ensures Watching(b, log + [Started(id)], running + [id])
    ensures Quiet(log + [Started(id)])
  {
    SoundNext(b, log, Started(id));
    hide MayFollow, Sound, Flight;
    assert Ids(running + [id]) == Ids(running) + {id};
  }

  lemma PreparedLater(b: Runbook, began: seq<Event>, log: seq<Event>, id: string)
    requires id in b.repo && Prepared(b, began, id) && began <= log
    ensures Prepared(b, log, id)
  {
    forall d | Ended(d, true) in began ensures Ended(d, true) in log {
      assert began == log[..|began|];
    }
  }

  lemma MayStart(b: Runbook, began: seq<Event>, log: seq<Event>, ids: seq<string>, next: nat, running: seq<string>)
    requires Partway(b, began, log, ids, next, running, false) && next < |ids| && |running| < b.cap
    ensures MayFollow(b, log, Started(ids[next]))
  {
    hide Sound, Flight, Runnable, Starts, Prepared, Quiet;
    var id := ids[next];
    NotYet(b, began, ids, next);
    StartsIn(log, id);
    PreparedLater(b, began, log, id);
    SizeOf(running);
    assert Flight(log) + {id} <= Ids(ids);
    var k, g :| 0 <= k < |b.order| && 0 <= g < |b.order[k]| && Ids(ids) <= Ids(b.order[k][g]);
    assert Flight(log) + {id} <= Ids(b.order[k][g]);
  }

  lemma DryNext(b: Runbook, began: seq<Event>, log: seq<Event>, ids: seq<string>, next: nat, running: seq<string>)
    requires Partway(b, began, log, ids, next, running, true) && next < |ids|
    ensures Partway(b, began, log, ids, next + 1, running, true)
  {
    hide Watching, GroupReady, Starts;
  }

  lemma DryIsFinished(b: Runbook, began: seq<Event>, log: seq<Event>, ids: seq<string>, next: nat, running: seq<string>)
    requires Partway(b, began, log, ids, next, running, true)
    ensures Finished(b, began, log, ids, true)
  {
    hide Sound, GroupReady, Flight, Starts;
  }

  /** Drained: whatever stopped the group, nothing is left in flight. */
  lemma WindUp(b: Runbook, began: seq<Event>, before: seq<Event>, log: seq<Event>, ids: seq<string>, next: nat,
               running: seq<string>, dry: bool)
    requires Partway(b, began, before, ids, next, running, dry)
    requires Sound(b, log) && Flight(log) == {} && NoneStarted(before, log)
    ensures Finished(b, began, log, ids, dry)
  {
    hide Sound, GroupReady, Watching, Flight, Starts;
  }

  lemma WindUpStopped(b: Runbook, began: seq<Event>, before: seq<Event>, mid: seq<Event>, log: seq<Event>,
                      ids: seq<string>, next: nat, running: seq<string>, dry: bool)
    requires Partway(b, began, before, ids, next, running, dry)
    requires NoneStarted(before, mid) && Sound(b, log) && Flight(log) == {} && NoneStarted(mid, log)
    ensures Finished(b, began, log, ids, dry)
  {
    hide Partway, Sound, Flight, Finished, Starts;
    WindUp(b, began, before, log, ids, next, running, dry);
  }

  lemma Polled(b: Runbook, began: seq<Event>, before: seq<Event>, log: seq<Event>, ids: seq<string>, next: nat,
               running: seq<string>, left: seq<string>, dry: bool)
    requires Partway(b, began, before, ids, next, running, dry) && running != []
    requires Watching(b, log, left) && NoneStarted(before, log) && Quiet(log)
    requires forall id :: id in left ==> id in running
    ensures Partway(b, began, log, ids, next, left, dry)
  {
    hide Watching, GroupReady, Quiet, Starts;
    assert Ids(left) <= Ids(running);
  }

  lemma GroupEnds(b: Runbook, began: seq<Event>, log: seq<Event>, ids: seq<string>, dry: bool)
    requires Partway(b, began, log, ids, |ids|, [], dry)
    ensures Finished(b, began, log, ids, dry) && Quiet(log)
    ensures !dry ==> forall id :: id in ids ==> Ended(id, true) in log
  {
    hide Sound, GroupReady, Flight, Starts;
    assert ids[..|ids|] == ids;
    if !dry {
      forall id | id in ids ensures Ended(id, true) in log {
        assert id in Ids(ids);
        StartsIn(log, id);
        StartedOrEnded(log, id);
      }
    }
  }

  lemma NothingNew(log: seq<Event>)
    ensures NoneStarted(log, log)
  {
  }

  lemma SignalStays(w: World, calm: nat, t: nat, u: nat)
    requires Plausible(w, calm) && t <= u && w.signal(t)
    ensures w.signal(u)
  {
  }

  lemma PlausibleEnds(w: World, calm: nat, t: nat, id: string)
    requires Plausible(w, calm)
    ensures calm <= t ==> w.ended(t, id).Some?
  {
  }

  lemma StillWatching(b: Runbook, before: seq<Event>, log: seq<Event>, running: seq<string>)
    requires Watching(b, before, running) && (log == before || log == before + [Stopping])
    ensures Watching(b, log, running) && NoneStarted(before, log)
  {
    if log != before {
      SoundNext(b, before, Stopping);
    }
  }

  // --- from the order to the groups -----------------------------------------------------------

  /** Between two groups: `done` has run. */
  ghost predicate Ran(b: Runbook, log: seq<Event>, done: set<string>, dry: bool) {
    && Sound(b, log) && Flight(log) == {} && Quiet(log) && Starts(log) <= (if dry then {} else done)
    && (!dry ==> forall id :: id in done ==> Ended(id, true) in log)
  }

  ghost function Lower(level: map<string, nat>, k: nat): (s: set<string>) {
    set id | id in level && level[id] < k
  }

  ghost function Upto(level: map<string, nat>, k: nat, groups: seq<seq<string>>, g: nat): (s: set<string>)
    requires g <= |groups|
  {
    Lower(level, k) + Ids(Joined(groups[..g]))
  }

  /** The order of a listing without problems. */
  ghost predicate Clear(b: Runbook, runnable: seq<string>, levels: seq<seq<string>>, level: map<string, nat>) {
    && Layered(b.repo, runnable, levels, level) && Grouping(b.repo, levels, b.order)
    && RunnableOf(b.repo, runnable)
    && (forall id :: id in runnable ==> id in level)
    && MissingLaw(b.repo, b.elsewhere, runnable, [])
  }

  lemma Cleared(entries: seq<Entry>, elsewhere: set<string>, scanned: seq<Problem>, repo: Listing, runnable: seq<string>,
                levels: seq<seq<string>>, o: Outcome,
                order: seq<seq<seq<string>>>, problems: seq<Problem>)
    requires Assembled(entries, elsewhere, scanned, repo, runnable, levels, o, order, problems) && problems == []
    ensures forall cap :: Clear(Runbook(repo, elsewhere, order, cap), runnable, levels, LevelsOf(levels))
  {
    hide Layered, Closed, Least, MissingLaw, RunnableOf, Listed, Known;
  }

  lemma NothingYet(b: Runbook, dry: bool)
    ensures Ran(b, [], {}, dry)
  {
  }

  lemma NothingToRun(b: Runbook, log: seq<Event>, dry: bool)
    requires Sound(b, log) && Flight(log) == {}
    ensures Finished(b, log, log, [], dry)
  {
  }

  lemma RanStill(b: Runbook, log: seq<Event>, done: set<string>, dry: bool)
    requires Ran(b, log, done, dry)
    ensures Sound(b, log) && Flight(log) == {} && Quiet(log)
  {
  }

  method Startable(repo: Listing, group: seq<string>) returns (ids: seq<string>)
    requires forall id :: id in group ==> id in repo && Runnable(repo[id])
    ensures ids == group
  {
    ids := [];
    for i := 0 to |group|
      invariant ids == group[..i]
    {
      if group[i] !in repo { continue; }
      if Runnable(repo[group[i]]) { ids := ids + [group[i]]; }
    }
  }

  lemma LevelBegins(level: map<string, nat>, k: nat, groups: seq<seq<string>>)
    ensures Upto(level, k, groups, 0) == Lower(level, k)
  {
  }

  lemma {:induction false} JoinedPrefix(groups: seq<seq<string>>, g: nat)
    requires g < |groups|
    ensures Joined(groups[..g + 1]) == Joined(groups[..g]) + groups[g]
  {
    if g == 0 {
      assert groups[..1] == [groups[0]] && groups[..1][1..] == [] && groups[..0] == [];
    } else {
      JoinedPrefix(groups[1..], g - 1);
      assert groups[..g + 1][1..] == groups[1..][..g];
      assert groups[..g][1..] == groups[1..][..g - 1];
    }
  }

  lemma JoinedSplit(groups: seq<seq<string>>, g: nat)
    requires g < |groups|
    ensures multiset(Joined(groups[..g])) + multiset(groups[g]) <= multiset(Joined(groups))
  {
    if g > 0 {
      JoinedSplit(groups[1..], g - 1);
      assert groups[1..][..g - 1] == groups[..g][1..];
    } else {
      assert groups[..0] == [];
    }
  }

  /** A group shares nothing with the groups before it in its level. */
  lemma GroupIsNew(repo: Listing, ids: seq<string>, g: nat)
    requires AllIn(repo, ids) && DistinctIds(ids) && g < |Groups(repo, ids)|
    ensures Ids(Groups(repo, ids)[g]) !! Ids(Joined(Groups(repo, ids)[..g]))
  {
    var groups := Groups(repo, ids);
    GroupsPartition(repo, ids);
    DistinctCounts(ids);
    JoinedSplit(groups, g);
    hide Groups;
    var front := Joined(groups[..g]);
    forall x | x in Ids(groups[g]) ensures x !in Ids(front) {
      assert x in multiset(groups[g]);
      assert multiset(front)[x] + multiset(groups[g])[x] <= multiset(ids)[x] <= 1;
      assert x !in multiset(front);
    }
  }

  lemma LevelIds(b: Runbook, runnable: seq<string>, levels: seq<seq<string>>, level: map<string, nat>, k: nat, id: string)
    requires Clear(b, runnable, levels, level) && k < |levels| && id in levels[k]
    ensures id in level && level[id] == k && id in b.repo && Runnable(b.repo[id])
  {
    hide Below, Tight, MissingLaw, Grouping;
  }

  lemma IsPrepared(b: Runbook, runnable: seq<string>, levels: seq<seq<string>>, level: map<string, nat>,
                   log: seq<Event>, done: set<string>, id: string)
    requires Clear(b, runnable, levels, level) && id in level && id in b.repo
    requires Ran(b, log, done, false) && Lower(level, level[id]) <= done
    ensures Prepared(b, log, id)
  {
    hide Sound, Flight, Quiet, Starts, Tight, Numbers;
    forall d | d in b.repo[id].deps
      ensures if d in b.repo then b.repo[d].status == Applied || Ended(d, true) in log else d in b.elsewhere
    {
      if d in b.repo {
        if b.repo[d].status != Applied {
          assert Below(b.repo, level, id);
          assert d in done;
        }
      } else {
        assert !Unanswered(b.repo, b.elsewhere, d) by {
          assert MissingDependency(id, d) !in [];
        }
      }
    }
  }

  lemma GroupIsReady(b: Runbook, runnable: seq<string>, levels: seq<seq<string>>, level: map<string, nat>,
                     log: seq<Event>, k: nat, g: nat, dry: bool)
    requires Clear(b, runnable, levels, level) && k < |b.order| && g < |b.order[k]|
    requires Ran(b, log, Upto(level, k, b.order[k], g), dry)
    ensures GroupReady(b, log, b.order[k][g], dry)
    ensures forall id :: id in b.order[k][g] ==> id in b.repo && Runnable(b.repo[id])
  {
    hide Sound, Flight, Quiet, Starts, Prepared, Layered, MissingLaw, RunnableOf, Runnable;
    var ids := b.order[k][g];
    LevelDistinct(b, runnable, levels, level, k);
    GroupMembers(b.repo, levels[k], g);
    GroupIsNew(b.repo, levels[k], g);
    forall id | id in ids
      ensures id in b.repo && Runnable(b.repo[id]) && (dry || Prepared(b, log, id))
      ensures id !in Starts(log)
    {
      LevelIds(b, runnable, levels, level, k, id);
      assert id in Ids(ids);
      if !dry {
        IsPrepared(b, runnable, levels, level, log, Upto(level, k, b.order[k], g), id);
      }
    }
  }

  lemma LevelDistinct(b: Runbook, runnable: seq<string>, levels: seq<seq<string>>, level: map<string, nat>, k: nat)
    requires Clear(b, runnable, levels, level) && k < |levels|
    ensures DistinctIds(levels[k])
  {
  }

  lemma GroupRan(b: Runbook, began: seq<Event>, log: seq<Event>, level: map<string, nat>, k: nat,
                 groups: seq<seq<string>>, g: nat, dry: bool)
    requires g < |groups| && Ran(b, began, Upto(level, k, groups, g), dry)
    requires Finished(b, began, log, groups[g], dry) && Quiet(log)
    requires !dry ==> forall id :: id in groups[g] ==> Ended(id, true) in log
    ensures Ran(b, log, Upto(level, k, groups, g + 1), dry)
  {
    hide Sound, Flight, Quiet, Starts;
    JoinedPrefix(groups, g);
    forall id | !dry && id in Upto(level, k, groups, g) ensures Ended(id, true) in log {
      assert began == log[..|began|];
    }
  }

  lemma LevelEnds(b: Runbook, runnable: seq<string>, levels: seq<seq<string>>, level: map<string, nat>, k: nat)
    requires Clear(b, runnable, levels, level) && k < |b.order|
    ensures Upto(level, k, b.order[k], |b.order[k]|) == Lower(level, k + 1)
  {
    hide Layered, MissingLaw, RunnableOf, Ids, Joined, Groups;
    var groups := b.order[k];
    assert groups[..|groups|] == groups;
    GroupsPartition(b.repo, levels[k]);
    SameIds(Joined(groups), levels[k]);
    forall id ensures id in Ids(levels[k]) <==> id in level && level[id] == k {
      IdsIn(levels[k], id);
      AtLevel(b, runnable, levels, level, k, id);
    }
  }

  lemma SameIds(s: seq<string>, t: seq<string>)
    requires multiset(s) == multiset(t)
    ensures Ids(s) == Ids(t)
  {
    forall x ensures x in s <==> x in t {
      assert x in s <==> x in multiset(s);
      assert x in t <==> x in multiset(t);
    }
  }

  lemma AtLevel(b: Runbook, runnable: seq<string>, levels: seq<seq<string>>, level: map<string, nat>, k: nat, id: string)
    requires Clear(b, runnable, levels, level) && k < |levels|
    ensures id in levels[k] <==> id in level && level[id] == k
  {
    hide Below, Tight, MissingLaw, Grouping;
  }

  lemma AllRan(b: Runbook, entries: seq<Entry>, runnable: seq<string>, levels: seq<seq<string>>, level: map<string, nat>,
               log: seq<Event>, dry: bool)
    requires Clear(b, runnable, levels, level) && Listed(entries, b.repo) && WellListed(entries)
    requires Ran(b, log, Lower(level, |b.order|), dry) && !dry
    ensures forall e :: e in entries && Runnable(e) ==> Ended(e.id, true) in log
  {
    hide Sound, Flight, Quiet, Starts, Below, Tight, MissingLaw;
    forall e | e in entries && Runnable(e) ensures Ended(e.id, true) in log {
      var i :| 0 <= i < |entries| && entries[i] == e;
      assert e.id in level;
    }
  }
}
