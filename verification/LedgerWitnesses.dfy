/** Runs that reach what the laws of the ledger protocol speak of. */
module LedgerWitnesses {
  import opened Ledger

  lemma RunNext(es: seq<Event>, e: Event)
    requires LegalRun(es) && Legal(Run(es), e)
    ensures LegalRun(es + [e]) && Run(es + [e]) == Step(Run(es), e)
  {
    hide Step, Legal, Inv;
    assert (es + [e])[..|es + [e]| - 1] == es;
  }

  /** A process alone takes its one lock and opens a job. */
  lemma OneOpens() returns (es: seq<Event>)
    ensures LegalRun(es)
    ensures var s := Run(es);
            && s.procs == map[0 := Proc(Session(7, 1), [1], Open(0))] && s.live == {Session(7, 1)}
            && s.locks == map[1 := Session(7, 1)] && s.jobs == map[0 := JobRow(7, 1, 2, false)]
            && s.owner == map[0 := 0] && s.clock == 2
  {
    hide Run, LegalRun, Inv;
    assert LegalRun([]) && Run([]) == Start() by { Nothing(); }
    RunNext([], Connect(0, 7, [1]));
    RunNext([] + [Connect(0, 7, [1])], TryLock(0));
    RunNext([] + [Connect(0, 7, [1])] + [TryLock(0)], InsertJob(0, 0));
    es := [] + [Connect(0, 7, [1])] + [TryLock(0)] + [InsertJob(0, 0)];
  }

  lemma Nothing()
    ensures LegalRun([]) && Run([]) == Start()
  {
  }

  /** Two open jobs at once, on different keys. */
  lemma TwoOpen() returns (es: seq<Event>)
    ensures LegalRun(es) && OpenJob(Run(es), 0) && OpenJob(Run(es), 1)
  {
    hide Run, LegalRun, Inv;
    es := OneOpens();
    RunNext(es, Connect(1, 8, [2]));
    RunNext(es + [Connect(1, 8, [2])], TryLock(1));
    RunNext(es + [Connect(1, 8, [2])] + [TryLock(1)], InsertJob(1, 1));
    es := es + [Connect(1, 8, [2])] + [TryLock(1)] + [InsertJob(1, 1)];
  }

  /** The session of an open job ends, and the next process is given its pid and takes its
      lock. */
  lemma Succession() returns (es: seq<Event>)
    ensures LegalRun(es)
    ensures var s := Run(es);
            && s.jobs == map[0 := JobRow(7, 1, 2, false)] && s.locks == map[1 := Session(7, 3)]
            && 0 in s.procs && s.procs[0].phase == Gone
  {
    hide Run, LegalRun, Inv;
    es := OneOpens();
    RunNext(es, EndSession(0));
    RunNext(es + [EndSession(0)], Connect(1, 7, [1]));
    RunNext(es + [EndSession(0)] + [Connect(1, 7, [1])], TryLock(1));
    es := es + [EndSession(0)] + [Connect(1, 7, [1])] + [TryLock(1)];
  }

  /** A job whose session ended is read as dead, and may be marked, even when a session
      with its pid took its lock meanwhile. */
  lemma DeadIsMarked() returns (es: seq<Event>)
    ensures LegalRun(es) && Legal(Run(es), MarkInterrupted(0))
    ensures 1 in Run(es).locks && Run(es).locks[1].pid == Run(es).jobs[0].pid
  {
    hide Run, LegalRun, Inv;
    es := Succession();
    RunNext(es, ReadDead(0, {}));
    es := es + [ReadDead(0, {})];
  }

  /** Such a job is missed where the reader cannot see when that session began. */
  lemma DeadIsMissed() returns (es: seq<Event>)
    ensures LegalRun(es) && 0 in Run(es).procs && Run(es).procs[0].phase == Gone
    ensures 0 in Run(es).jobs && !Run(es).jobs[0].finished
    ensures !ReadsDead(Run(es), 0, {Session(7, 3)}) && ReadsDead(Run(es), 0, {})
  {
    hide Run, LegalRun, Inv;
    es := Succession();
  }

  /** A job whose own two keys are one: it takes the lock twice, and still holds it after
      the first release. */
  lemma OneKeyTwice() returns (es: seq<Event>)
    ensures LegalRun(es) && Run(es).procs == map[0 := Proc(Session(7, 1), [1, 1], Releasing(0, 1))]
    ensures 1 in Run(es).locks
  {
    hide Run, LegalRun, Inv;
    var e1, e2, e3, e4, e5, e6 := Connect(0, 7, [1, 1]), TryLock(0), TryLock(0), InsertJob(0, 0), CloseJob(0, true), Unlock(0);
    assert LegalRun([]) && Run([]) == Start() by { Nothing(); }
    RunNext([], e1);
    RunNext([] + [e1], e2);
    RunNext([] + [e1] + [e2], e3);
    RunNext([] + [e1] + [e2] + [e3], e4);
    RunNext([] + [e1] + [e2] + [e3] + [e4], e5);
    RunNext([] + [e1] + [e2] + [e3] + [e4] + [e5], e6);
    es := [] + [e1] + [e2] + [e3] + [e4] + [e5] + [e6];
  }
}
