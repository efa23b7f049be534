/** The advisory-lock protocol of the ledger, over every interleaving of processes,
    crashes, server restarts and reconciliations.

    A job's coordination session takes its locks one by one with try-locks, inserts
    the job's row, and keeps the session for the job's lifetime; the row is closed
    before the first lock is released. A later run reads the ledger for jobs whose
    own session no longer holds their lock. */
module Ledger {
  import opened Options

  type ProcId = nat
  type JobId = nat

  /** A server backend: its pid, which a restarted server may hand out again, and
      when it began. */
  datatype Session = Session(pid: nat, began: nat)

  datatype Phase =
    | Locking(taken: nat)
    | Refused(taken: nat)
    | Open(job: JobId)
    | Releasing(job: JobId, released: nat)
    | Gone

  datatype Proc = Proc(session: Session, keys: seq<int>, phase: Phase)

  datatype JobRow = JobRow(pid: nat, lockKey: int, startedAt: nat, finished: bool)

  datatype State = State(
    clock: nat,
    live: set<Session>,
    locks: map<int, Session>,
    procs: map<ProcId, Proc>,
    jobs: map<JobId, JobRow>,
    owner: map<JobId, ProcId>,
    // jobs some reconciliation has read as dead and has not marked yet
    suspects: set<JobId>)

  datatype Event =
    | Connect(p: ProcId, pid: nat, keys: seq<int>)
    | TryLock(p: ProcId)
    | InsertJob(p: ProcId, j: JobId)
    | CloseJob(p: ProcId, written: bool)
    | Unlock(p: ProcId)
    | EndSession(p: ProcId)
    | Restart
    | ReadDead(j: JobId, unseen: set<Session>)
    | MarkInterrupted(j: JobId)

  ghost predicate Alive(s: State, p: ProcId) {
    p in s.procs && s.procs[p].phase != Gone
  }

  /** job_is_dead_sql: no session with the job's pid, begun no later than the job or at a
      time the reader cannot see, holds the job's lock. */
  ghost predicate ReadsDead(s: State, j: JobId, unseen: set<Session>) {
    && j in s.jobs && !s.jobs[j].finished
    && !(s.jobs[j].lockKey in s.locks &&
         s.locks[s.jobs[j].lockKey].pid == s.jobs[j].pid &&
         (s.locks[s.jobs[j].lockKey] in unseen || s.locks[s.jobs[j].lockKey].began <= s.jobs[j].startedAt))
  }

  ghost predicate Legal(s: State, e: Event) {
    match e
    case Connect(p, pid, keys) =>
      p !in s.procs && keys != [] && (forall x :: x in s.live ==> x.pid != pid)
    case TryLock(p) => Alive(s, p) && s.procs[p].phase.Locking? && s.procs[p].phase.taken < |s.procs[p].keys|
    case InsertJob(p, j) =>
      Alive(s, p) && s.procs[p].phase == Locking(|s.procs[p].keys|) && j !in s.jobs && s.procs[p].keys != []
    case CloseJob(p, _) => Alive(s, p) && s.procs[p].phase.Open? && s.procs[p].phase.job in s.jobs
    case Unlock(p) => Alive(s, p) && s.procs[p].phase.Releasing? && s.procs[p].phase.released < |s.procs[p].keys|
    case EndSession(p) => Alive(s, p)
    case Restart => true
    case ReadDead(j, unseen) => ReadsDead(s, j, unseen)
    case MarkInterrupted(j) => j in s.suspects && j in s.jobs && !s.jobs[j].finished
  }

  function Without(locks: map<int, Session>, x: Session): map<int, Session> {
    map k | k in locks && locks[k] != x :: locks[k]
  }

  function AllGone(procs: map<ProcId, Proc>): map<ProcId, Proc> {
    map p | p in procs :: procs[p].(phase := Gone)
  }

  function Step(s: State, e: Event): State
    requires Legal(s, e)
  {
    match e
    case Connect(p, pid, keys) =>
      var x := Session(pid, s.clock + 1);
      s.(clock := s.clock + 1, live := s.live + {x}, procs := s.procs[p := Proc(x, keys, Locking(0))])
    case TryLock(p) =>
      // pg_try_advisory_lock: an answer at once, never a wait; a session may take again
      // what it holds
      var me := s.procs[p];
      var k := me.keys[me.phase.taken];
      if k in s.locks && s.locks[k] != me.session then
        s.(procs := s.procs[p := me.(phase := Refused(me.phase.taken))])
      else
        s.(locks := s.locks[k := me.session], procs := s.procs[p := me.(phase := Locking(me.phase.taken + 1))])
    case InsertJob(p, j) =>
      var me := s.procs[p];
      s.(clock := s.clock + 1, owner := s.owner[j := p], procs := s.procs[p := me.(phase := Open(j))],
         jobs := s.jobs[j := JobRow(me.session.pid, me.keys[0], s.clock + 1, false)])
    case CloseJob(p, written) =>
      // a failed write is swallowed, and the locks are released all the same
      var me := s.procs[p];
      s.(procs := s.procs[p := me.(phase := Releasing(me.phase.job, 0))],
         jobs := if written then s.jobs[me.phase.job := s.jobs[me.phase.job].(finished := true)] else s.jobs)
    case Unlock(p) =>
      // a lock taken twice is let go by the second release
      var me := s.procs[p];
      var k := me.keys[me.phase.released];
      s.(locks := if k in me.keys[me.phase.released + 1..] then s.locks else s.locks - {k},
         procs := s.procs[p := me.(phase := Releasing(me.phase.job, me.phase.released + 1))])
    case EndSession(p) =>
      var me := s.procs[p];
      s.(live := s.live - {me.session}, locks := Without(s.locks, me.session),
         procs := s.procs[p := me.(phase := Gone)])
    case Restart =>
      s.(live := {}, locks := map[], procs := AllGone(s.procs))
    case ReadDead(j, _) =>
      s.(suspects := s.suspects + {j})
    case MarkInterrupted(j) =>
      s.(jobs := s.jobs[j := s.jobs[j].(finished := true)])
  }

  /** The keys a process holds in its phase: all it has taken, less what it released. */
  predicate HoldsNow(me: Proc, i: nat) {
    match me.phase
    case Locking(n) => i < n
    case Refused(n) => i < n
    case Open(_) => true
    case Releasing(_, n) => n <= i
    case Gone => false
  }

  ghost predicate ProcOk(s: State, p: ProcId)
    requires p in s.procs
  {
    var me := s.procs[p];
    && me.keys != []
    && (me.phase.Locking? || me.phase.Refused? ==> me.phase.taken <= |me.keys|)
    && (me.phase.Releasing? ==> me.phase.released <= |me.keys|)
    && (me.phase != Gone <==> me.session in s.live)
    && (forall i :: 0 <= i < |me.keys| && HoldsNow(me, i) ==>
        me.keys[i] in s.locks && s.locks[me.keys[i]] == me.session)
    && (me.phase.Releasing? ==>
        forall i :: 0 <= i < |me.keys| && me.keys[i] !in me.keys[me.phase.released..] ==>
          !(me.keys[i] in s.locks && s.locks[me.keys[i]] == me.session))
    && (me.phase.Open? ==> me.phase.job in s.owner && s.owner[me.phase.job] == p)
    && (me.phase.Releasing? ==> me.phase.job in s.owner && s.owner[me.phase.job] == p)
    && me.session.began <= s.clock
  }

  ghost predicate JobOk(s: State, j: JobId)
    requires j in s.jobs
  {
    && j in s.owner && s.owner[j] in s.procs
    && var me := s.procs[s.owner[j]];
       var row := s.jobs[j];
       && me.keys != [] && row.lockKey == me.keys[0] && row.pid == me.session.pid
       && me.session.began <= row.startedAt <= s.clock
       && (me.phase == Gone || (me.phase.Open? && me.phase.job == j) || (me.phase.Releasing? && me.phase.job == j))
       // a session given the same pid since then began after the job did
       && (forall x :: x in s.live && x.pid == row.pid && x != me.session ==> row.startedAt < x.began)
       // a job once read as dead is closed, or its session has let go of it
       && (j in s.suspects ==> row.finished || !me.phase.Open?)
  }

  ghost predicate SessionsOk(s: State) {
    && (forall k :: k in s.locks ==> s.locks[k] in s.live)
    && (forall x, y :: x in s.live && y in s.live && x.pid == y.pid ==> x == y)
    && (forall x :: x in s.live ==> x.began <= s.clock)
    && (forall p, q :: Alive(s, p) && Alive(s, q) && s.procs[p].session == s.procs[q].session ==> p == q)
    && (forall p :: Alive(s, p) ==> s.procs[p].session in s.live)
    && (forall j :: j in s.owner <==> j in s.jobs)
    && (forall j :: j in s.suspects ==> j in s.jobs)
  }

  ghost predicate Inv(s: State) {
    && SessionsOk(s)
    && (forall p :: p in s.procs ==> ProcOk(s, p))
    && (forall j :: j in s.jobs ==> JobOk(s, j))
  }

  lemma SessionsKeptByArrival(s: State, e: Event)
    requires SessionsOk(s) && Legal(s, e) && e.Connect?
    ensures SessionsOk(Step(s, e))
  {
    hide ReadsDead;
  }

  lemma SessionsKeptByEnd(s: State, e: Event)
    requires SessionsOk(s) && Legal(s, e) && (e.EndSession? || e.Restart?)
    ensures SessionsOk(Step(s, e))
  {
    hide ReadsDead;
  }

  /** A process's own step leaves every session as it is. */
  lemma SessionsKeptByLocks(s: State, e: Event)
    requires SessionsOk(s) && Legal(s, e) && (e.TryLock? || e.Unlock?)
    ensures SessionsOk(Step(s, e))
  {
    hide ReadsDead;
    var t := Step(s, e);
    assert forall p :: Alive(t, p) <==> Alive(s, p);
    assert forall p :: Alive(s, p) ==> t.procs[p].session == s.procs[p].session;
  }

  lemma SessionsKeptByRows(s: State, e: Event)
    requires SessionsOk(s) && Legal(s, e) && (e.InsertJob? || e.CloseJob?)
    ensures SessionsOk(Step(s, e))
  {
    hide ReadsDead;
    var t := Step(s, e);
    assert forall p :: Alive(t, p) <==> Alive(s, p);
    assert forall p :: Alive(s, p) ==> t.procs[p].session == s.procs[p].session;
  }

  lemma SessionsKept(s: State, e: Event)
    requires SessionsOk(s) && Legal(s, e)
    ensures SessionsOk(Step(s, e))
  {
    if e.Connect? { SessionsKeptByArrival(s, e); }
    else if e.EndSession? || e.Restart? { SessionsKeptByEnd(s, e); }
    else if e.TryLock? || e.Unlock? { SessionsKeptByLocks(s, e); }
    else if e.InsertJob? || e.CloseJob? { SessionsKeptByRows(s, e); }
  }

  /** Who moves in an event, if anyone. */
  ghost predicate Moves(e: Event, p: ProcId) {
    match e
    case Connect(q, _, _) => p == q
    case TryLock(q) => p == q
    case InsertJob(q, _) => p == q
    case CloseJob(q, _) => p == q
    case Unlock(q) => p == q
    case EndSession(q) => p == q
    case Restart => true
    case ReadDead(_, _) => false
    case MarkInterrupted(_) => false
  }

  lemma OthersHoldUnlock(s: State, e: Event, q: ProcId)
    requires SessionsOk(s) && Legal(s, e) && e.Unlock? && q in s.procs && q != e.p && ProcOk(s, e.p) && ProcOk(s, q)
    ensures var t := Step(s, e);
            forall k :: k in t.locks && t.locks[k] == s.procs[q].session <==>
                        k in s.locks && s.locks[k] == s.procs[q].session
  {
    var other := s.procs[e.p];
    var k := other.keys[other.phase.released];
    assert HoldsNow(other, other.phase.released);
    assert s.locks[k] == other.session;
    assert s.procs[q].session != other.session;
    hide ProcOk, SessionsOk, Legal;
  }

  lemma OthersHoldTry(s: State, e: Event, q: ProcId)
    requires SessionsOk(s) && Legal(s, e) && e.TryLock? && q in s.procs && q != e.p && ProcOk(s, q)
    ensures var t := Step(s, e);
            forall k :: k in t.locks && t.locks[k] == s.procs[q].session <==>
                        k in s.locks && s.locks[k] == s.procs[q].session
  {
    assert Alive(s, e.p);
    var me := s.procs[e.p];
    assert s.procs[q].session != me.session;
    hide ProcOk, HoldsNow, SessionsOk;
  }

  /** A process that does not move keeps its session and its locks. */
  lemma OthersHold(s: State, e: Event, q: ProcId)
    requires SessionsOk(s) && Legal(s, e) && q in s.procs && ProcOk(s, q) && !Moves(e, q)
    requires e.Unlock? ==> ProcOk(s, e.p)
    ensures var t := Step(s, e);
            && q in t.procs && t.procs[q] == s.procs[q]
            && (s.procs[q].session in t.live <==> s.procs[q].session in s.live)
            && (forall k :: k in t.locks && t.locks[k] == s.procs[q].session <==>
                            k in s.locks && s.locks[k] == s.procs[q].session)
            && s.clock <= t.clock
            && (forall j :: j in s.owner ==> j in t.owner && t.owner[j] == s.owner[j])
  {
    hide ReadsDead, HoldsNow;
    if e.Unlock? {
      OthersHoldUnlock(s, e, q);
    } else if e.TryLock? {
      OthersHoldTry(s, e, q);
    }
  }

  lemma OthersKept(s: State, e: Event, q: ProcId)
    requires SessionsOk(s) && Legal(s, e) && q in s.procs && ProcOk(s, q) && !Moves(e, q)
    requires e.Unlock? ==> ProcOk(s, e.p)
    ensures q in Step(s, e).procs && ProcOk(Step(s, e), q)
  {
    hide ReadsDead, Step, SessionsOk, Legal;
    OthersHold(s, e, q);
    var t, me := Step(s, e), s.procs[q];
    forall i | 0 <= i < |me.keys|
      ensures me.keys[i] in t.locks && t.locks[me.keys[i]] == me.session <==>
              me.keys[i] in s.locks && s.locks[me.keys[i]] == me.session
    {
      var k := me.keys[i];
      assert k in t.locks && t.locks[k] == me.session <==> k in s.locks && s.locks[k] == me.session;
    }
  }

  lemma LockerKept(s: State, e: Event, q: ProcId)
    requires SessionsOk(s) && Legal(s, e) && e.TryLock? && e.p == q && ProcOk(s, q)
    ensures q in Step(s, e).procs && ProcOk(Step(s, e), q)
  {
    hide SessionsOk, ReadsDead;
  }

  lemma UnlockerKept(s: State, e: Event, q: ProcId)
    requires SessionsOk(s) && Legal(s, e) && e.Unlock? && e.p == q && ProcOk(s, q)
    ensures q in Step(s, e).procs && ProcOk(Step(s, e), q)
  {
    hide SessionsOk, ReadsDead;
  }

  lemma MoverKept(s: State, e: Event, q: ProcId)
    requires SessionsOk(s) && Legal(s, e) && Moves(e, q) && q in Step(s, e).procs
    requires q in s.procs ==> ProcOk(s, q)
    ensures ProcOk(Step(s, e), q)
  {
    hide ReadsDead;
    match e
    case Connect(p, pid, keys) =>
    case TryLock(p) => LockerKept(s, e, q);
    case InsertJob(p, j) =>
    case CloseJob(p, _) =>
    case Unlock(p) => UnlockerKept(s, e, q);
    case EndSession(p) =>
    case Restart =>
  }

  lemma NewJobOk(s: State, e: Event)
    requires SessionsOk(s) && Legal(s, e) && e.InsertJob? && ProcOk(s, e.p)
    ensures JobOk(Step(s, e), e.j)
  {
    hide HoldsNow;
  }

  /** The heart of reconciliation: a job whose session is alive and open holds its
      lock, so it cannot be read as dead. */
  lemma ReadDeadKept(s: State, e: Event, j: JobId)
    requires Legal(s, e) && e.ReadDead? && j in s.jobs && JobOk(s, j) && ProcOk(s, s.owner[j])
    ensures JobOk(Step(s, e), j)
  {
    var me := s.procs[s.owner[j]];
    assert me.phase.Open? ==> HoldsNow(me, 0);
  }

  lemma JobKeptBySessions(s: State, e: Event, j: JobId)
    requires SessionsOk(s) && Legal(s, e) && j in s.jobs && JobOk(s, j) && ProcOk(s, s.owner[j])
    requires e.Connect? || e.EndSession? || e.Restart?
    ensures JobOk(Step(s, e), j)
  {
    hide HoldsNow, ReadsDead;
  }

  lemma JobKeptByWork(s: State, e: Event, j: JobId)
    requires Legal(s, e) && j in s.jobs && JobOk(s, j) && ProcOk(s, s.owner[j])
    requires e.InsertJob? ==> e.j != j
    requires e.TryLock? || e.InsertJob? || e.CloseJob? || e.Unlock? || e.MarkInterrupted?
    ensures JobOk(Step(s, e), j)
  {
    hide HoldsNow, ReadsDead;
  }

  lemma JobKept(s: State, e: Event, j: JobId)
    requires SessionsOk(s) && Legal(s, e) && j in Step(s, e).jobs
    requires j in s.jobs ==> JobOk(s, j) && ProcOk(s, s.owner[j])
    requires e.InsertJob? ==> ProcOk(s, e.p)
    ensures JobOk(Step(s, e), j)
  {
    hide HoldsNow, ReadsDead, JobOk, ProcOk, SessionsOk;
    if e.InsertJob? && e.j == j {
      NewJobOk(s, e);
    } else if e.ReadDead? {
      ReadDeadKept(s, e, j);
    } else if e.Connect? || e.EndSession? || e.Restart? {
      JobKeptBySessions(s, e, j);
    } else {
      JobKeptByWork(s, e, j);
    }
  }

  lemma StepInv(s: State, e: Event)
    requires Inv(s) && Legal(s, e)
    ensures Inv(Step(s, e))
  {
    hide Step, ProcOk, JobOk, SessionsOk, ReadsDead, HoldsNow;
    var t := Step(s, e);
    SessionsKept(s, e);
    forall q | q in t.procs
      ensures ProcOk(t, q)
    {
      StepProcs(s, e, q);
      if Moves(e, q) { MoverKept(s, e, q); } else { OthersKept(s, e, q); }
    }
    forall j | j in t.jobs
      ensures JobOk(t, j)
    {
      if j in s.jobs { OwnerKnown(s, j); }
      JobKept(s, e, j);
    }
  }

  lemma OwnerKnown(s: State, j: JobId)
    requires j in s.jobs && JobOk(s, j)
    ensures j in s.owner && s.owner[j] in s.procs
  {
  }

  lemma StepProcs(s: State, e: Event, q: ProcId)
    requires Legal(s, e) && q in Step(s, e).procs
    ensures q in s.procs || Moves(e, q)
  {
  }

  function Start(): State {
    State(0, {}, map[], map[], map[], map[], {})
  }

  ghost function Run(es: seq<Event>): State
    requires LegalRun(es)
    ensures Inv(Run(es))
    decreases |es|, 1
  {
    if es == [] then Start()
    else
      var n := |es| - 1;
      StepInv(Run(es[..n]), es[n]);
      Step(Run(es[..n]), es[n])
  }

  ghost predicate LegalRun(es: seq<Event>)
    decreases |es|, 0
  {
    es == [] || (LegalRun(es[..|es| - 1]) && Legal(Run(es[..|es| - 1]), es[|es| - 1]))
  }

  // --- what the protocol is for ---------------------------------------------------

  ghost predicate OpenJob(s: State, p: ProcId) {
    Alive(s, p) && s.procs[p].phase.Open?
  }

  /** Over every interleaving, two open jobs whose coordination sessions are alive
      share no lock key, neither the specification's nor a target's. */
  lemma MutualExclusion(es: seq<Event>, p: ProcId, q: ProcId, i: nat, k: nat)
    requires LegalRun(es) && OpenJob(Run(es), p) && OpenJob(Run(es), q) && p != q
    requires i < |Run(es).procs[p].keys| && k < |Run(es).procs[q].keys|
    ensures Run(es).procs[p].keys[i] != Run(es).procs[q].keys[k]
  {
    hide Run, LegalRun;
    var s := Run(es);
    assert HoldsNow(s.procs[p], i) && HoldsNow(s.procs[q], k);
    assert ProcOk(s, p) && ProcOk(s, q);
  }

  /** Reconciliation never marks a job whose session is alive and has not reached
      the release of its locks, however much happens between reading a job as dead
      and marking it. */
  lemma ReconciliationSafe(es: seq<Event>, j: JobId)
    requires LegalRun(es) && Legal(Run(es), MarkInterrupted(j))
    ensures j in Run(es).owner && !OpenJob(Run(es), Run(es).owner[j])
  {
    hide Run, LegalRun;
    assert JobOk(Run(es), j);
  }

  /** The job's own session holds its lock. */
  ghost predicate OwnHolds(s: State, j: JobId)
    requires j in s.owner && s.owner[j] in s.procs
  {
    var me := s.procs[s.owner[j]];
    me.keys != [] && (me.phase.Open? || (me.phase.Releasing? && me.phase.released <= |me.keys| && me.keys[0] in me.keys[me.phase.released..]))
  }

  /** A later session given the job's pid holds the job's lock, and the reader cannot see
      when it began. */
  ghost predicate Mistaken(s: State, j: JobId, unseen: set<Session>)
    requires j in s.jobs && j in s.owner && s.owner[j] in s.procs
  {
    var k := s.jobs[j].lockKey;
    k in s.locks && s.locks[k].pid == s.jobs[j].pid && s.locks[k] != s.procs[s.owner[j]].session && s.locks[k] in unseen
  }

  /** The reading is exact: an unfinished job reads as dead if and only if its own
      session no longer holds its lock and no session the reader cannot date is taken
      for it. A successor that holds the same key, and a later session given the same
      pid, make no difference where its start can be seen. */
  lemma DeadExactly(es: seq<Event>, j: JobId, unseen: set<Session>)
    requires LegalRun(es) && j in Run(es).jobs
    ensures var s := Run(es);
            && j in s.owner && s.owner[j] in s.procs
            && (ReadsDead(s, j, unseen) <==> !s.jobs[j].finished && !OwnHolds(s, j) && !Mistaken(s, j, unseen))
  {
    hide Run, LegalRun;
    var s := Run(es);
    assert JobOk(s, j) && ProcOk(s, s.owner[j]);
    var me := s.procs[s.owner[j]];
    OwnLock(s, j);
    if !OwnHolds(s, j) && s.jobs[j].lockKey in s.locks {
      assert s.locks[s.jobs[j].lockKey] in s.live;
    }
  }

  lemma OwnLock(s: State, j: JobId)
    requires j in s.jobs && JobOk(s, j) && ProcOk(s, s.owner[j])
    ensures var me := s.procs[s.owner[j]];
            && (OwnHolds(s, j) ==> me.keys[0] in s.locks && s.locks[me.keys[0]] == me.session)
            && (!OwnHolds(s, j) && me.phase.Releasing? ==> !(me.keys[0] in s.locks && s.locks[me.keys[0]] == me.session))
            && (!OwnHolds(s, j) && !me.phase.Releasing? ==> me.phase == Gone && me.session !in s.live)
  {
    var me := s.procs[s.owner[j]];
    if me.phase.Open? {
      assert HoldsNow(me, 0);
    } else if me.phase.Releasing? && OwnHolds(s, j) {
      var i :| me.phase.released <= i < |me.keys| && me.keys[i] == me.keys[0];
      assert HoldsNow(me, i);
    }
  }

  // --- what becomes of a job's row ----------------------------------------------------------

  /** A step leaves every row but one as it is, and that one only gets finished: the row of
      a job whose close was written, or of one marked. */
  lemma RowsStay(s: State, e: Event, j: JobId)
    requires Legal(s, e) && j in s.jobs
    ensures var t := Step(s, e);
            && j in t.jobs
            && t.jobs[j] == (if Finishes(s, e, j) then s.jobs[j].(finished := true) else s.jobs[j])
  {
    hide ReadsDead;
  }

  ghost predicate Finishes(s: State, e: Event, j: JobId) {
    || (e.CloseJob? && e.written && e.p in s.procs && s.procs[e.p].phase == Open(j))
    || (e.MarkInterrupted? && e.j == j)
  }

  /** Job j was closed with the close written, or marked, somewhere in the run. */
  ghost predicate Ended(es: seq<Event>, j: JobId)
    requires LegalRun(es)
  {
    es != [] && (Ended(es[..|es| - 1], j) || Finishes(Run(es[..|es| - 1]), es[|es| - 1], j))
  }

  /** A row is finished if and only if its job was closed with the close written, or marked. */
  lemma {:induction false} FinishedExactly(es: seq<Event>, j: JobId)
    requires LegalRun(es)
    ensures j in Run(es).jobs && Run(es).jobs[j].finished <==> Ended(es, j)
  {
    hide Inv, Step, Legal, Finishes;
    if es != [] {
      var front, e := es[..|es| - 1], es[|es| - 1];
      FinishedExactly(front, j);
      if j in Run(front).jobs {
        RowsStay(Run(front), e, j);
      } else {
        NewRow(Run(front), e, j);
      }
    }
  }

  lemma NewRow(s: State, e: Event, j: JobId)
    requires Inv(s) && Legal(s, e) && j !in s.jobs
    ensures !Finishes(s, e, j)
    ensures j in Step(s, e).jobs ==> !Step(s, e).jobs[j].finished
  {
    hide ReadsDead;
    if e.CloseJob? { OpenRowExists(s, e.p); }
  }

  /** A job that ended well, or was marked once, is never again read as dead nor marked, at
      any later point of the run. */
  lemma {:induction false} EndedForGood(es: seq<Event>, more: seq<Event>, j: JobId, unseen: set<Session>)
    requires LegalRun(es + more) && LegalRun(es) && Ended(es, j)
    ensures j in Run(es + more).jobs && Run(es + more).jobs[j].finished
    ensures !Legal(Run(es + more), ReadDead(j, unseen)) && !Legal(Run(es + more), MarkInterrupted(j))
    decreases |more|
  {
    hide Run, LegalRun, Inv;
    EndedStays(es, more, j);
    FinishedExactly(es + more, j);
  }

  lemma {:induction false} EndedStays(es: seq<Event>, more: seq<Event>, j: JobId)
    requires LegalRun(es + more) && LegalRun(es) && Ended(es, j)
    ensures Ended(es + more, j)
    decreases |more|
  {
    hide Run, Inv, Finishes;
    if more == [] {
      assert es + more == es;
    } else {
      assert (es + more)[..|es + more| - 1] == es + more[..|more| - 1];
      EndedStays(es, more[..|more| - 1], j);
    }
  }

  /** A close that was written ends the job. */
  lemma CloseEnds(es: seq<Event>, p: ProcId)
    requires LegalRun(es) && Legal(Run(es), CloseJob(p, true))
    ensures LegalRun(es + [CloseJob(p, true)]) && Ended(es + [CloseJob(p, true)], Run(es).procs[p].phase.job)
  {
    hide Inv, ReadsDead;
    assert (es + [CloseJob(p, true)])[..|es + [CloseJob(p, true)]| - 1] == es;
  }

  /** A mark ends it too. */
  lemma MarkEnds(es: seq<Event>, j: JobId)
    requires LegalRun(es) && Legal(Run(es), MarkInterrupted(j))
    ensures LegalRun(es + [MarkInterrupted(j)]) && Ended(es + [MarkInterrupted(j)], j)
  {
    hide Inv, ReadsDead;
    assert (es + [MarkInterrupted(j)])[..|es + [MarkInterrupted(j)]| - 1] == es;
  }

  /** What a process does next by itself. */
  function OwnStep(p: ProcId, me: Proc, newJob: JobId, written: bool): Event {
    match me.phase
    case Locking(n) => if n < |me.keys| then TryLock(p) else InsertJob(p, newJob)
    case Refused(_) => EndSession(p)
    case Open(_) => CloseJob(p, written)
    case Releasing(_, n) => if n < |me.keys| then Unlock(p) else EndSession(p)
    case Gone => EndSession(p)
  }

  function StepsLeft(me: Proc): int {
    match me.phase
    case Locking(n) => 2 * |me.keys| + 4 - n
    case Refused(_) => 1
    case Open(_) => |me.keys| + 3
    case Releasing(_, n) => |me.keys| + 1 - n
    case Gone => 0
  }

  /** No process ever waits, whatever locks it or another holds: its next step is
      always possible and brings it nearer its end. */
  lemma NeverWaits(es: seq<Event>, p: ProcId, newJob: JobId, written: bool)
    requires LegalRun(es) && Alive(Run(es), p) && newJob !in Run(es).jobs
    ensures var s := Run(es);
            var e := OwnStep(p, s.procs[p], newJob, written);
            && Legal(s, e) && p in Step(s, e).procs
            && 0 <= StepsLeft(Step(s, e).procs[p]) < StepsLeft(s.procs[p])
  {
    hide Run, LegalRun, SessionsOk, JobOk, ProcOk, Legal, Step, StepsLeft, OwnStep;
    OpenRowExists(Run(es), p);
    OwnStepAdvances(Run(es), p, newJob, written);
  }

  lemma OpenRowExists(s: State, p: ProcId)
    requires SessionsOk(s) && p in s.procs && ProcOk(s, p)
    ensures s.procs[p].phase.Open? ==> s.procs[p].phase.job in s.jobs
  {
  }

  lemma OwnStepAdvances(s: State, p: ProcId, newJob: JobId, written: bool)
    requires Alive(s, p) && ProcOk(s, p) && newJob !in s.jobs
    requires s.procs[p].phase.Open? ==> s.procs[p].phase.job in s.jobs
    ensures var e := OwnStep(p, s.procs[p], newJob, written);
            && Legal(s, e) && p in Step(s, e).procs
            && 0 <= StepsLeft(Step(s, e).procs[p]) < StepsLeft(s.procs[p])
  {
    hide HoldsNow;
  }

  /** open_job, with nothing else happening meanwhile: the locks are tried one by one.
      Either the process holds them all and its row is in the ledger, or it stopped at
      the first lock some other session holds, keeping those before it until its
      session ends, and wrote nothing. */
  method OpenJobAlone(s0: State, p: ProcId, j: JobId) returns (s: State, ok: bool)
    requires Inv(s0) && Alive(s0, p) && s0.procs[p].phase == Locking(0) && j !in s0.jobs
    ensures Inv(s) && p in s.procs && s.procs[p].keys == s0.procs[p].keys
    ensures ok ==>
              && s.procs[p].phase == Open(j)
              && s.jobs == s0.jobs[j := JobRow(s0.procs[p].session.pid, s0.procs[p].keys[0], s.clock, false)]
              && forall k :: k in s0.procs[p].keys ==> k in s.locks && s.locks[k] == s0.procs[p].session
    ensures !ok ==>
              && s.procs[p].phase.Refused? && s.procs[p].phase.taken < |s.procs[p].keys|
              && s.jobs == s0.jobs
              && var k := s.procs[p].keys[s.procs[p].phase.taken]; k in s0.locks && s0.locks[k] != s0.procs[p].session
  {
    hide SessionsOk, JobOk, ReadsDead;
    s := s0;
    var me := s0.procs[p];
    var n := 0;
    assert ProcOk(s0, p);
    while n < |me.keys|
      invariant 0 <= n <= |me.keys|
      invariant Inv(s) && p in s.procs && s.procs[p] == me.(phase := Locking(n))
      invariant s.jobs == s0.jobs && s.clock == s0.clock
      invariant forall k :: k in s.locks ==> s.locks[k] == me.session || (k in s0.locks && s.locks[k] == s0.locks[k])
    {
      StepInv(s, TryLock(p));
      s := Step(s, TryLock(p));
      if s.procs[p].phase.Refused? {
        return s, false;
      }
      n := n + 1;
    }
    StepInv(s, InsertJob(p, j));
    s := Step(s, InsertJob(p, j));
    ok := true;
    assert ProcOk(s, p);
    assert forall i :: 0 <= i < |me.keys| ==> HoldsNow(s.procs[p], i);
  }
}
