/** `Executor::run` and `Executor::execute`. What the server kept is what the outside's
    answers say it kept; the job's record and the ledger's rows are the executor's own. */
module Executors {
  import opened StepRunner
  import opened Workers

  // --- what is done at the gate ---------------------------------------------------------------

  function AroundNothing(held: bool): (r: seq<Act>) {
    [Wait, Got(held), Drop]
  }

  function AroundStatement(held: bool): (r: seq<Act>) {
    [Wait, Got(held), Exec, Drop]
  }

  function AroundTxn(held: bool): (r: seq<Act>) {
    [Wait, Got(held), OpenTxn, CloseTxn, Drop]
  }

  function AroundBrokenTxn(held: bool): (r: seq<Act>) {
    [Wait, Got(held), OpenTxn, Drop, CloseTxn]
  }

  function TxnActs(held: bool, n: nat): (r: seq<Act>) {
    if n == 0 then [] else AroundTxn(held) + TxnActs(held, n - 1)
  }

  /** A visit to the gate for each statement that is sent. */
  function BuildActs(a: Outside, j: nat, n: nat): (r: seq<Act>)
    requires j <= n
    decreases n - j
  {
    if j == n then []
    else AroundStatement(a.slot) + if ReplyAt(a, j).Refused? then [] else BuildActs(a, j + 1, n)
  }

  /** A visit to the gate for each transaction of a walk; its last reading needs none. */
  function WalkActs(a: Outside): (r: seq<Act>) {
    TxnActs(a.slot, |a.txns|) +
    match a.end
    case Finished(_) => [OpenRead, CloseTxn]
    case StopAtGate => AroundNothing(a.slot)
    case StopBetween => []
    case Broke => AroundBrokenTxn(a.slot)
    case GaveUp => []
    case CommitLost(_, _) => AroundBrokenTxn(a.slot)
  }

  class Executor {
    const plan: seq<PlanStep>
    const lockTimeoutMs: nat
    const env: nat -> Outside

    var groupOpen: bool
    // the job's record, the ledger's rows, and the steps of the open transaction
    var record: seq<Entry>
    var ledger: map<int, StepState>
    var uncommitted: set<int>
    var state: JobState
    // the group's slot, the clock, how often the outside was asked, the most attempts
    // any group took, and what was done at the gate and with transactions
    var slotHeld: bool
    var clock: nat
    var asked: nat
    var mostAttempts: nat
    var acts: seq<Act>
    // what each answer was asked for, and the steps the answers say are kept
    ghost var uses: Trail
    ghost var acknowledged: set<int>

    constructor (plan: seq<PlanStep>, lockTimeoutMs: nat, env: nat -> Outside)
      ensures this.plan == plan && this.lockTimeoutMs == lockTimeoutMs && this.env == env
      ensures Book(Bound(0)) && state == Working && !groupOpen && mostAttempts == 0 && clock > 0
      ensures asked == 0
    {
      this.plan, this.lockTimeoutMs, this.env := plan, lockTimeoutMs, env;
      groupOpen, record, ledger, uncommitted, state := false, [], map[], {}, Working;
      slotHeld, clock, asked, mostAttempts, acts := false, 1, 0, 0, [];
      uses, acknowledged := [], {};
    }

    /** Ordinals are handed out in plan order. */
    ghost predicate Ordered() {
      OrderedPlan(plan)
    }

    function Bound(at: nat): int
      requires at <= |plan|
    {
      if at < |plan| then plan[at].ordinal
      else if plan == [] then 0 else plan[|plan| - 1].ordinal + 1
    }

    /** Every answer is accounted for, and `acknowledged` is what they tell. */
    ghost predicate Traced()
      reads this
    {
      && |uses| == asked && acknowledged == Told(uses, env) && Once(uses)
      && (forall n :: 0 <= n < |uses| ==> FromPlan(plan, uses[n]))
      && WholeTransactions(plan, uses) && AllPolled(uses, env)
    }

    /** A slot is waited for with nothing held; now the group's slot and transaction are
        all there is. */
    ghost predicate Gated()
      reads this
    {
      Disciplined(acts) && ModeOf(acts) == Mode(false, slotHeld, groupOpen, groupOpen)
    }

    /** The record agrees with what was told to be kept and the open transaction. */
    ghost predicate Record()
      reads this
    {
      LogOk() && Traced() && Gated()
    }

    ghost predicate LogOk()
      reads this
    {
      && Distinct(record)
      && Agrees(record, ledger, acknowledged + uncommitted)
      && acknowledged !! uncommitted && (forall o :: o in uncommitted ==> GroupStep(plan, o))
    }

    /** ... and nothing at or after `bound` has been recorded. */
    ghost predicate Book(bound: int)
      reads this
    {
      && Record()
      && AllBelow(record, bound)
      && (forall o :: o in acknowledged + uncommitted ==> o < bound)
      && Clean(uses, env)
      && (!groupOpen ==> uncommitted == {} && !slotHeld)
    }

    /** One of the answers given was bad, or a check that needs its own transaction was
        planned into the transaction group of an earlier step that leaves it open. */
    ghost predicate Faulty()
      reads this
    {
      MetFault(uses, env) || Mixed()
    }

    ghost predicate Mixed() {
      exists i, j :: 0 <= i < j < |plan| && plan[i].group == plan[j].group && InTxn(plan[i]) && plan[j].kind == VerifyIndex
    }

    // --- asking, and acting at the gate ------------------------------------------------

    method Ask(ghost u: Use) returns (o: Outside)
      requires Traced() && FromPlan(plan, u) && IsNew(uses, env, u) && (u.CommitOf? || u.OwnRun? ==> Clean(uses, env))
      requires (u.CommitOf? ==> OneTransaction(plan, u.members)) && (u.Statement? || u.OwnRun? ==> Polled(uses, env))
      modifies this`clock, this`asked, this`uses, this`acknowledged
      ensures Traced() && uses == old(uses) + [u] && o == env(old(asked)) && clock >= old(clock)
      ensures acknowledged == old(acknowledged) + ToldOf(u, o)
      ensures old(Clean(uses, env)) && (u.CommitOf? || u.OwnRun? ==> !BadAnswer(u, o)) ==> Clean(uses, env)
      ensures old(MetFault(uses, env)) || BadAnswer(u, o) ==> MetFault(uses, env)
      ensures old(StopSeen(uses, env)) || ToldToStop(u, o) ==> StopSeen(uses, env)
      ensures Polled(uses, env) <==> (u.Look? && !o.cancel) || ((u.Gate? || u.CommitOf?) && old(Polled(uses, env)))
    {
      hide Told, ToldOf, Once, Clean, MetFault, IsNew, FromPlan, Polled, AllPolled, OneTransaction, StopSeen, ToldToStop;
      PolledNext(uses, env, u);
      StopGrows(uses, env, u);
      OnceNext(uses, env, u);
      ToldNext(uses, env, u);
      MetGrows(uses, env, u);
      o := env(asked);
      if Clean(uses, env) && (u.CommitOf? || u.OwnRun? ==> !BadAnswer(u, o)) {
        CleanNext(uses, env, u);
      }
      uses, acknowledged := uses + [u], acknowledged + ToldOf(u, o);
      asked := asked + 1;
      clock := clock + o.elapsed;
    }

    /** A look that asks nothing of the server. */
    method Peek() returns (o: Outside)
      requires Record()
      modifies this`clock, this`asked, this`uses, this`acknowledged
      ensures Record() && clock >= old(clock) && acknowledged == old(acknowledged)
      ensures forall b :: old(Book(b)) ==> Book(b)
      ensures old(MetFault(uses, env)) || o.cancel ==> MetFault(uses, env)
      ensures old(StopSeen(uses, env)) || o.cancel ==> StopSeen(uses, env)
      ensures Polled(uses, env) <==> !o.cancel
      ensures uses == old(uses) + [Look] && o == env(old(asked)) && o == env(|uses| - 1)
    {
      hide Told, Once, Clean, MetFault, Agrees, Distinct, AllBelow, Disciplined, ModeOf, GroupStep, OwnStep, Polled, AllPolled, WholeTransactions, OneTransaction, StopSeen;
      o := Ask(Look);
      assert acknowledged == old(acknowledged);
    }

    method Do(a: Act)
      requires Disciplined(acts) && May(ModeOf(acts), a)
      modifies this`acts
      ensures Disciplined(acts) && ModeOf(acts) == Then(old(ModeOf(acts)), a) && acts == old(acts) + [a]
    {
      Extend(acts, a);
      acts := acts + [a];
    }

    /** A slot around one statement outside any transaction, or around none where the job was
        told to stop meanwhile. */
    method SlotAround(held: bool, runs: bool)
      requires Gated() && !groupOpen && !slotHeld
      modifies this`acts
      ensures Gated() && acts == old(acts) + (if runs then AroundStatement(held) else AroundNothing(held))
    {
      hide Disciplined, ModeOf;
      Do(Wait);
      Do(Got(held));
      if runs { Do(Exec); }
      Do(Drop);
    }

    /** A slot around one transaction of a walk: taken before it opens, dropped after it
        closes. */
    method SlotAroundTxn(held: bool)
      requires Gated() && !groupOpen && !slotHeld
      modifies this`acts
      ensures Gated() && acts == old(acts) + AroundTxn(held)
    {
      hide Disciplined, ModeOf;
      Do(Wait);
      Do(Got(held));
      Do(OpenTxn);
      Do(CloseTxn);
      Do(Drop);
    }

    /** The same where the transaction fails: an exception drops the slot first. */
    method SlotAroundBrokenTxn(held: bool)
      requires Gated() && !groupOpen && !slotHeld
      modifies this`acts
      ensures Gated() && acts == old(acts) + AroundBrokenTxn(held)
    {
      hide Disciplined, ModeOf;
      Do(Wait);
      Do(Got(held));
      Do(OpenTxn);
      Do(Drop);
      Do(CloseTxn);
    }

    /** A reading transaction, without a slot. */
    method ReadTxn()
      requires Gated() && !groupOpen && !slotHeld
      modifies this`acts
      ensures Gated() && acts == old(acts) + [OpenRead, CloseTxn]
    {
      hide Disciplined, ModeOf;
      Do(OpenRead);
      Do(CloseTxn);
    }

    /** The group's slot is asked for only with none held and no transaction open. */
    method OperationSlot()
      requires Record() && !groupOpen && !slotHeld
      modifies this`slotHeld, this`clock, this`asked, this`uses, this`acknowledged, this`acts
      ensures LogOk() && Traced() && Disciplined(acts)
      ensures clock >= old(clock) && acknowledged == old(acknowledged)
      ensures old(Clean(uses, env)) ==> Clean(uses, env)
      ensures ModeOf(acts) == Mode(false, slotHeld, false, true) && acts == old(acts) + [Wait, Got(slotHeld)]
      ensures old(Polled(uses, env)) ==> Polled(uses, env)
      ensures old(StopSeen(uses, env)) ==> StopSeen(uses, env)
    {
      hide Told, Once, Clean, MetFault, Agrees, Distinct, Disciplined, ModeOf, Polled, AllPolled, WholeTransactions, OneTransaction, StopSeen;
      Do(Wait);
      var o := Ask(Gate);
      Do(Got(o.slot));
      slotHeld := o.slot;
      assert acknowledged == old(acknowledged);
    }

    // --- the record ----------------------------------------------------------------------

    method RecordStep(o: int, s: StepState)
      requires Record() && AllBelow(record, o) && o !in acknowledged + uncommitted && s != Succeeded
      modifies this`record, this`ledger
      ensures Record() && AllBelow(record, o + 1)
      ensures record == old(record) + [Entry(o, s)] && ledger == old(ledger)[o := s]
    {
      hide Told, Once, Disciplined, ModeOf, Polled, AllPolled, WholeTransactions, OneTransaction, StopSeen;
      RecordAgrees(record, ledger, acknowledged + uncommitted, o, s);
      record := record + [Entry(o, s)];
      ledger := ledger[o := s];
    }

    /** A step with transactions of its own was seen through. */
    method RecordKept(o: int, kind: OwnKind)
      requires Book(o) && !groupOpen && OwnStep(plan, o, kind) && Good(kind, env(asked)) && Polled(uses, env)
      modifies this`record, this`ledger, this`clock, this`asked, this`uses, this`acknowledged
      ensures Book(o + 1) && acknowledged == old(acknowledged) + {o} && clock >= old(clock)
      ensures record == old(record) + [Entry(o, Succeeded)] && ledger == old(ledger)[o := Succeeded]
    {
      hide Told, Once, Clean, MetFault, Agrees, Distinct, AllBelow, Disciplined, ModeOf, Good, GroupStep, OwnStep, Polled, AllPolled, WholeTransactions, OneTransaction, StopSeen;
      RecordAgrees(record, ledger, acknowledged + uncommitted, o, Succeeded);
      var _ := Ask(OwnRun(o, kind));
      record := record + [Entry(o, Succeeded)];
      ledger := ledger[o := Succeeded];
      assert acknowledged + uncommitted == old(acknowledged + uncommitted) + {o};
    }

    /** It was not. Where the tool was told, the step is recorded as failed. */
    method RecordBroken(o: int, kind: OwnKind, told: bool)
      requires Book(o) && !groupOpen && OwnStep(plan, o, kind) && !Good(kind, env(asked)) && Polled(uses, env)
      modifies this`record, this`ledger, this`clock, this`asked, this`uses, this`acknowledged
      ensures Record() && AllBelow(record, o + 1) && !slotHeld && uncommitted == {}
      ensures acknowledged == old(acknowledged) && MetFault(uses, env) && clock >= old(clock)
      ensures record == old(record) + (if told then [Entry(o, Failed)] else [])
      ensures ledger == if told then old(ledger)[o := Failed] else old(ledger)
      ensures old(StopSeen(uses, env)) || ToldToStop(OwnRun(o, kind), env(old(asked))) ==> StopSeen(uses, env)
    {
      hide Told, Once, Clean, MetFault, Agrees, Distinct, AllBelow, Disciplined, ModeOf, Good, GroupStep, OwnStep, Polled, AllPolled, WholeTransactions, OneTransaction, StopSeen;
      var _ := Ask(OwnRun(o, kind));
      assert acknowledged == old(acknowledged);
      if told {
        RecordStep(o, Failed);
      } else {
        MarkLastsUnder(record, o, o + 1);
      }
    }

    /** A statement of the open group returned. */
    method RecordInGroup(o: int)
      requires Book(o) && groupOpen && GroupStep(plan, o)
      modifies this`record, this`ledger, this`uncommitted
      ensures Book(o + 1) && uncommitted == old(uncommitted) + {o}
      ensures record == old(record) + [Entry(o, Succeeded)] && ledger == old(ledger)[o := Succeeded]
    {
      hide Told, Once, Clean, Agrees, Distinct, AllBelow, Disciplined, ModeOf, GroupStep, Polled, AllPolled, WholeTransactions, OneTransaction, StopSeen;
      RecordAgrees(record, ledger, acknowledged + uncommitted, o, Succeeded);
      record := record + [Entry(o, Succeeded)];
      ledger := ledger[o := Succeeded];
      uncommitted := uncommitted + {o};
      assert acknowledged + uncommitted == old(acknowledged + uncommitted) + {o};
    }

    method BeginStep(o: int)
      requires Book(o)
      modifies this`ledger
      ensures Book(o) && ledger == old(ledger)[o := Running]
    {
      hide Told, Once, Clean, Disciplined, ModeOf, Polled, AllPolled, WholeTransactions, OneTransaction, StopSeen;
      ledger := ledger[o := Running];
    }

    /** Steps succeeded in a transaction that is gone are rolled back in the record. */
    method GroupRolledBack()
      requires Record()
      modifies this`record, this`ledger, this`uncommitted
      ensures Record() && uncommitted == {}
      ensures forall b :: old(AllBelow(record, b)) ==> AllBelow(record, b)
      ensures forall o :: o in old(uncommitted) ==> Entry(o, RolledBack) in record
      ensures record == MarkAll(old(record), old(uncommitted)) && ledger == LedgerMark(old(ledger), old(uncommitted))
    {
      hide Told, Once, Agrees, Distinct, AllBelow, Disciplined, ModeOf, Polled, AllPolled, WholeTransactions, OneTransaction, StopSeen;
      MarkAgrees(record, ledger, acknowledged, uncommitted);
      record := MarkAll(record, uncommitted);
      ledger := LedgerMark(ledger, uncommitted);
      uncommitted := {};
      assert acknowledged + uncommitted == acknowledged;
    }

    /** The worker's session goes with an exception: its slot, then its transaction. */
    method Unwind()
      requires Record()
      modifies this`groupOpen, this`slotHeld, this`acts
      ensures Record() && !groupOpen && !slotHeld
    {
      hide Told, Once, Agrees, Distinct, Disciplined, ModeOf, Polled, AllPolled, WholeTransactions, OneTransaction, StopSeen;
      Do(Drop);
      slotHeld := false;
      if groupOpen {
        Do(CloseTxn);
        groupOpen := false;
      }
    }

    /** The group's transaction closes, and its slot is dropped. */
    method CloseGroup()
      requires Record() && groupOpen
      modifies this`groupOpen, this`slotHeld, this`acts
      ensures Record() && !groupOpen && !slotHeld
    {
      hide Told, Once, Agrees, Distinct, Disciplined, ModeOf, Polled, AllPolled, WholeTransactions, OneTransaction, StopSeen;
      Do(CloseTxn);
      groupOpen := false;
      Do(Drop);
      slotHeld := false;
    }

    /** COMMIT of the open group. A reply that does not come is an exception here,
        whatever the server did. */
    method CommitGroup(bound: int) returns (threw: bool)
      requires Book(bound) && groupOpen && OneTransaction(plan, uncommitted)
      modifies this
      ensures state == old(state) && mostAttempts == old(mostAttempts) && clock >= old(clock)
      ensures record == old(record) && ledger == old(ledger)
      ensures old(Polled(uses, env)) ==> Polled(uses, env)
      ensures !threw ==> Book(bound) && !groupOpen && acknowledged == old(acknowledged + uncommitted)
      ensures threw ==> Record() && AllBelow(record, bound) && !groupOpen && !slotHeld && MetFault(uses, env)
    {
      hide Told, Once, Clean, MetFault, Agrees, Distinct, AllBelow, Disciplined, ModeOf, GroupStep, OwnStep, Polled, AllPolled, WholeTransactions, OneTransaction, StopSeen;
      var o := Ask(CommitOf(uncommitted));
      if o.commit == Acknowledged {
        uncommitted := {};
        assert acknowledged + uncommitted == old(acknowledged + uncommitted);
        CloseGroup();
        return false;
      }
      assert acknowledged == old(acknowledged);
      Unwind();
      return true;
    }

    /** ROLLBACK of the open group. */
    method AbandonGroup(ghost bound: int)
      requires Book(bound)
      modifies this`groupOpen, this`slotHeld, this`acts, this`record, this`ledger, this`uncommitted
      ensures Book(bound) && !groupOpen && uncommitted == {}
      ensures record == MarkAll(old(record), old(uncommitted))
    {
      hide Told, Once, Clean, Agrees, Distinct, AllBelow, Disciplined, ModeOf, GroupStep, Polled, AllPolled, WholeTransactions, OneTransaction, StopSeen;
      if groupOpen {
        CloseGroup();
      }
      GroupRolledBack();
    }

    lemma BookLater(a: int, b: int)
      requires Book(a) && a <= b
      ensures Book(b)
    {
      hide Told, Once, Clean, Agrees, Distinct, Disciplined, ModeOf, Polled, AllPolled, WholeTransactions, OneTransaction, StopSeen;
      MarkLastsUnder(record, a, b);
    }

    /** No step is left running by a job that has ended. */
    method FinishJob(s: JobState)
      requires Record() && uncommitted == {}
      modifies this`ledger, this`state
      ensures Record() && state == s
      ensures forall o :: o in ledger ==> ledger[o] != Running
      ensures ledger.Keys == old(ledger).Keys
      ensures forall o :: o in ledger ==>
                ledger[o] == if old(ledger)[o] != Running then old(ledger)[o] else if s == JobCancelled then Cancelled else Failed
    {
      hide Told, Once, Disciplined, ModeOf, Polled, AllPolled, WholeTransactions, OneTransaction, StopSeen;
      var ending := if s == JobCancelled then Cancelled else Failed;
      ledger := map o | o in ledger :: if ledger[o] == Running then ending else ledger[o];
      state := s;
    }

    // --- steps with transactions of their own -------------------------------------------------

    /** CREATE INDEX CONCURRENTLY and its like: outside any transaction, a slot for each
        statement. A statement that was applied stays applied. */
    method RunNontransactional(o: int, n: nat) returns (threw: bool)
      requires Book(o) && !groupOpen && OwnStep(plan, o, OwnKind.Build(n)) && Polled(uses, env)
      modifies this
      ensures state == old(state) && mostAttempts == old(mostAttempts) && clock >= old(clock) && !groupOpen
      ensures !threw ==> Book(o + 1) && acknowledged == old(acknowledged) + {o} && uncommitted == {}
      ensures acts == old(acts) + BuildActs(env(old(asked)), 0, n)
      ensures threw <==> !Good(OwnKind.Build(n), env(old(asked)))
      ensures !threw ==> record == old(record) + [Entry(o, Succeeded)]
      ensures threw ==> Record() && AllBelow(record, o + 1) && !slotHeld && uncommitted == {} && MetFault(uses, env)
    {
      hide Told, Once, Clean, MetFault, Agrees, Distinct, AllBelow, Disciplined, ModeOf, GroupStep, OwnStep, Polled, AllPolled, WholeTransactions, OneTransaction, StopSeen;
      var a := env(asked);
      var refused := Build(a, n);
      if refused.Refused? {
        RecordBroken(o, OwnKind.Build(n), refused.told);
        return true;
      }
      RecordKept(o, OwnKind.Build(n));
      return false;
    }

    /** The statements one after another, up to the first that is refused. */
    method Build(a: Outside, n: nat) returns (last: StatementReply)
      requires Gated() && !groupOpen && !slotHeld
      modifies this`acts
      ensures Gated() && acts == old(acts) + BuildActs(a, 0, n)
      ensures last.Done? <==> forall j :: 0 <= j < n ==> ReplyAt(a, j).Done?
      ensures last.Refused? ==> exists j :: 0 <= j < n && last == ReplyAt(a, j) && forall i :: 0 <= i < j ==> ReplyAt(a, i).Done?
    {
      hide Disciplined, ModeOf, ReplyAt;
      var j := 0;
      while j < n
        invariant 0 <= j <= n && Gated()
        invariant acts + BuildActs(a, j, n) == old(acts) + BuildActs(a, 0, n)
        invariant forall i :: 0 <= i < j ==> ReplyAt(a, i).Done?
      {
        SlotAround(a.slot, true);
        if ReplyAt(a, j).Refused? {
          return ReplyAt(a, j);
        }
        j := j + 1;
      }
      return Done(true);
    }

    /** The read that makes a concurrent build honest, in a transaction of its own. */
    method VerifyIndexValid(o: int) returns (threw: bool)
      requires Book(o) && !groupOpen && OwnStep(plan, o, Check) && Polled(uses, env)
      modifies this
      ensures state == old(state) && mostAttempts == old(mostAttempts) && clock >= old(clock) && !groupOpen
      ensures !threw ==> Book(o + 1) && acknowledged == old(acknowledged) + {o} && uncommitted == {}
      ensures acts == old(acts) + [OpenRead, CloseTxn] && (threw <==> env(old(asked)).reply != Ok)
      ensures !threw ==> record == old(record) + [Entry(o, Succeeded)]
      ensures threw ==> Record() && AllBelow(record, o + 1) && !slotHeld && uncommitted == {} && MetFault(uses, env)
    {
      hide Told, Once, Clean, MetFault, Agrees, Distinct, AllBelow, Disciplined, ModeOf, GroupStep, OwnStep, Polled, AllPolled, WholeTransactions, OneTransaction, StopSeen;
      var a := env(asked);
      ReadTxn();
      if a.reply == Ok {
        RecordKept(o, Check);
        return false;
      }
      RecordBroken(o, Check, a.reply == Error);
      return true;
    }

    /** The paced walk, seen from here: a slot and a transaction for each of its
        transactions, and for the one statement that may go ahead of them; then it ends,
        is stopped, or fails. What it committed stays committed. */
    method RunWalk(o: int) returns (threw: bool, stopped: bool)
      requires Book(o) && !groupOpen && OwnStep(plan, o, Walk) && Polled(uses, env)
      modifies this
      ensures mostAttempts == old(mostAttempts) && clock >= old(clock) && !groupOpen
      ensures !threw && !stopped ==>
                Book(o + 1) && state == old(state) && acknowledged == old(acknowledged) + {o} && uncommitted == {}
      ensures threw ==> !stopped && state == old(state) && Record() && AllBelow(record, o + 1) && !slotHeld && uncommitted == {}
      ensures stopped ==> state == JobCancelled && Record() && uncommitted == {}
      ensures stopped ==> forall o :: o in ledger ==> ledger[o] != Running
      ensures threw || stopped ==> MetFault(uses, env)
      ensures stopped ==> StopSeen(uses, env)
      ensures acts == old(acts) + WalkActs(env(old(asked)))
      ensures var e := env(old(asked)).end;
              && (!threw && !stopped <==> e == Finished(true))
              && (stopped <==> e == StopAtGate || e == StopBetween)
              && record == old(record) + if e == Finished(true) then [Entry(o, Succeeded)]
                                         else if e == Finished(false) || e == Broke then [Entry(o, Failed)] else []
    {
      hide Told, Once, Clean, MetFault, Agrees, Distinct, AllBelow, Disciplined, ModeOf, GroupStep, OwnStep, Polled, AllPolled, WholeTransactions, OneTransaction, StopSeen;
      var a := env(asked);
      WalkThrough(a);
      match a.end
      case Finished(holds) =>
        if holds {
          RecordKept(o, Walk);
          return false, false;
        }
        RecordBroken(o, Walk, true);
        return true, false;
      case StopAtGate =>
        RecordBroken(o, Walk, false);
        FinishJob(JobCancelled);
        return false, true;
      case StopBetween =>
        RecordBroken(o, Walk, false);
        FinishJob(JobCancelled);
        return false, true;
      case Broke =>
        RecordBroken(o, Walk, true);
        return true, false;
      case GaveUp =>
        RecordBroken(o, Walk, false);
        return true, false;
      case CommitLost(_, _) =>
        RecordBroken(o, Walk, false);
        return true, false;
    }

    /** The walk's transactions, and what it is in when it ends. */
    method WalkThrough(a: Outside)
      requires Gated() && !groupOpen && !slotHeld
      modifies this`acts
      ensures Gated() && acts == old(acts) + WalkActs(a)
    {
      hide Disciplined, ModeOf;
      for j := 0 to |a.txns|
        invariant Gated()
        invariant acts + TxnActs(a.slot, |a.txns| - j) == old(acts) + TxnActs(a.slot, |a.txns|)
      {
        SlotAroundTxn(a.slot);
      }
      assert acts == old(acts) + TxnActs(a.slot, |a.txns|);
      ghost var walked := acts;
      LastActs(a);
      assert acts == walked + acts[|walked|..];
    }

    method LastActs(a: Outside)
      requires Gated() && !groupOpen && !slotHeld
      modifies this`acts
      ensures Gated() && old(acts) <= acts && TxnActs(a.slot, |a.txns|) + acts[|old(acts)|..] == WalkActs(a)
    {
      hide Disciplined, ModeOf, TxnActs;
      match a.end
      case Finished(_) => ReadTxn();
      case StopAtGate => SlotAround(a.slot, false);
      case StopBetween =>
      case Broke => SlotAroundBrokenTxn(a.slot);
      case GaveUp =>
      case CommitLost(_, _) => SlotAroundBrokenTxn(a.slot);
    }

    // --- steps of a group --------------------------------------------------------------------------

    /** One step of the open group. `timedOut` leaves the lock timeout of an exclusive
        step to the caller, with nothing recorded. */
    method RunInGroup(o: int, exclusive: bool) returns (threw: bool, timedOut: bool)
      requires Book(o) && groupOpen && GroupStep(plan, o) && Polled(uses, env)
      modifies this
      ensures state == old(state) && mostAttempts == old(mostAttempts) && clock >= old(clock)
      ensures acknowledged == old(acknowledged)
      ensures !threw && !timedOut ==> Book(o + 1) && groupOpen && uncommitted == old(uncommitted) + {o}
      ensures timedOut ==> !threw && exclusive && Book(o) && groupOpen && uncommitted == old(uncommitted)
      ensures threw ==> Record() && AllBelow(record, o + 1) && !groupOpen && !slotHeld
      ensures threw || timedOut ==> MetFault(uses, env)
      ensures var r := env(old(asked)).reply;
              && (timedOut <==> r == LockTimeout && exclusive)
              && (!threw && !timedOut <==> r == Ok)
              && record == old(record) + if r == Ok then [Entry(o, Succeeded)]
                                         else if timedOut || r == Gone then []
                                         else if r == LockTimeout then [Entry(o, LockNotAcquired)] else [Entry(o, Failed)]
    {
      hide Told, Once, Clean, MetFault, Agrees, Distinct, AllBelow, Disciplined, ModeOf, GroupStep, OwnStep, Polled, AllPolled, WholeTransactions, OneTransaction, StopSeen;
      var r := Ask(Statement(o));
      assert acknowledged == old(acknowledged);
      if r.reply == Ok {
        RecordInGroup(o);
        return false, false;
      }
      if r.reply == LockTimeout && exclusive {
        return false, true;
      }
      if r.reply == Gone {
        // the connection is lost: no SQL error, and nothing is recorded here
        MarkLastsUnder(record, o, o + 1);
      } else {
        RecordStep(o, if r.reply == LockTimeout then LockNotAcquired else Failed);
      }
      Unwind();
      return true, false;
    }

    function Patience(): nat {
      lockTimeoutMs * PATIENCE_FACTOR
    }

    /** Every step asked for before `at` is kept, or is in the open group; every one found
        satisfied is recorded so. */
    ghost predicate DoneUpTo(at: nat)
      requires at <= |plan|
      reads this
    {
      && (forall i :: 0 <= i < at && plan[i].action == Apply ==> plan[i].ordinal in acknowledged + uncommitted)
      && SkippedIn(plan, record, at)
    }

    /** The open group began at `first`: nothing of it is kept, nothing before it is
        still open. */
    ghost predicate GroupFrom(first: nat)
      requires first < |plan|
      reads this
    {
      && (forall o :: o in acknowledged ==> o < plan[first].ordinal)
      && (forall o :: o in uncommitted ==> plan[first].ordinal <= o)
    }

    /** After a rollback the steps before the group are still all kept. */
    lemma BackTo(first: nat, at: nat, kept: set<int>, open: set<int>)
      requires Ordered() && first < |plan| && first <= at <= |plan|
      requires forall i :: 0 <= i < at && plan[i].action == Apply ==> plan[i].ordinal in kept + open
      requires forall o :: o in open ==> plan[first].ordinal <= o
      ensures forall i :: 0 <= i < first && plan[i].action == Apply ==> plan[i].ordinal in kept
    {
    }

    /** Between two steps. `first`, `attempt` and `began` are the open group's, or the
        last one's. */
    ghost predicate AtStep(at: nat, first: nat, attempt: nat, began: nat)
      reads this
    {
      && first <= at <= |plan| && Bracket(plan, groupOpen, uncommitted, at, first)
      && Book(Bound(at)) && state == Working && clock > 0 && DoneUpTo(at)
      && (groupOpen ==> first < at && GroupFrom(first) && began > 0)
      && 1 <= attempt <= MostAttempts(Patience()) && mostAttempts <= MostAttempts(Patience())
      && (began > 0 ==> clock >= began + Slept(attempt - 1))
    }

    ghost predicate Threw()
      reads this
    {
      state == Working && Record() && mostAttempts <= MostAttempts(Patience())
    }

    ghost predicate Stopped()
      reads this
    {
      && state == JobCancelled && Record() && uncommitted == {} && StopSeen(uses, env)
      && (forall o :: o in ledger ==> ledger[o] != Running)
      && mostAttempts <= MostAttempts(Patience())
    }

    /** A step was kept on its own; the next begins. */
    lemma Forward(at: nat, first: nat, attempt: nat, began: nat, kept: set<int>)
      requires Ordered() && at < |plan| && first <= at && Book(plan[at].ordinal + 1) && state == Working && clock > 0
      requires plan[at].action == Apply ==> plan[at].ordinal in acknowledged + uncommitted
      requires forall i :: 0 <= i < at && plan[i].action == Apply ==> plan[i].ordinal in kept
      requires kept <= acknowledged + uncommitted
      requires groupOpen ==> GroupFrom(first) && began > 0
      requires Bracket(plan, groupOpen, uncommitted, at + 1, first) && SkippedIn(plan, record, at + 1)
      requires 1 <= attempt <= MostAttempts(Patience()) && mostAttempts <= MostAttempts(Patience())
      requires began > 0 ==> clock >= began + Slept(attempt - 1)
      ensures AtStep(at + 1, first, attempt, began)
    {
      hide Told, Once, Clean, Disciplined, ModeOf, Agrees, Distinct, AllBelow, Slept, MostAttempts, Record, Bracket, SkippedIn, Polled, AllPolled, WholeTransactions, OneTransaction, StopSeen;
      BookLater(plan[at].ordinal + 1, Bound(at + 1));
    }

    /** A walk, a concurrent build, or the check after one. */
    method OwnTurn(at: nat, ghost first: nat, ghost attempt: nat, ghost began: nat)
      returns (threw: bool, stopped: bool)
      requires Ordered() && AtStep(at, first, attempt, began) && at < |plan| && plan[at].action == Apply
      requires !InItsGroup(plan[at])
      requires (plan[at].cls != InGroup ==> !groupOpen) && Polled(uses, env)
      modifies this
      ensures threw ==> !stopped && Threw()
      ensures stopped ==> Stopped()
      ensures threw || stopped ==> MetFault(uses, env) || old(groupOpen)
      ensures !threw && !stopped ==> AtStep(at + 1, first, attempt, began) && !groupOpen
    {
      hide Told, Once, Clean, MetFault, Disciplined, ModeOf, Agrees, Distinct, AllBelow, Slept, MostAttempts, Record, Bracket, SkippedIn, Polled, AllPolled, WholeTransactions, OneTransaction, StopSeen;
      var step := plan[at];
      ghost var kept := acknowledged + uncommitted;
      assert OwnStep(plan, step.ordinal, OwnKindOf(step));
      threw, stopped := false, false;
      if step.cls == OwnPerBatch {
        threw, stopped := RunWalk(step.ordinal);
      } else if groupOpen {
        // a transaction is open: beginning another is refused
        Unwind();
        threw := true;
      } else if step.cls == Forbidden {
        threw := RunNontransactional(step.ordinal, step.statements);
      } else {
        threw := VerifyIndexValid(step.ordinal);
      }
      if !threw && !stopped {
        BracketOwn(plan, old(uncommitted), uncommitted, at, first);
        SkippedAppend(plan, old(record), [Entry(step.ordinal, Succeeded)], at);
        NotSkipped(at, record);
        Forward(at, first, attempt, began, kept);
      }
    }

    /** The group's transaction opens, its slot taken first. */
    method OpenGroup(ghost bound: int)
      requires Book(bound) && !groupOpen && Polled(uses, env)
      modifies this`groupOpen, this`slotHeld, this`clock, this`asked, this`uses, this`acknowledged, this`acts
      ensures Book(bound) && groupOpen && clock >= old(clock) && acknowledged == old(acknowledged)
      ensures Polled(uses, env) && acts == old(acts) + [Wait, Got(slotHeld), OpenTxn]
    {
      hide Told, Once, Clean, Disciplined, ModeOf, Agrees, Distinct, AllBelow, Polled, AllPolled, WholeTransactions, OneTransaction, StopSeen;
      OperationSlot();
      Do(OpenTxn);
      groupOpen := true;
    }

    /** A step of the group's transaction, opened if it is not open. */
    method GroupTurn(at: nat, first0: nat, attempt0: nat, began0: nat)
      returns (threw: bool, timedOut: bool, first: nat, attempt: nat, began: nat)
      requires Ordered() && AtStep(at, first0, attempt0, began0) && at < |plan| && plan[at].action == Apply
      requires InItsGroup(plan[at]) && (groupOpen ==> plan[at].group == plan[first0].group) && Polled(uses, env)
      modifies this
      ensures threw ==> !timedOut && Threw()
      ensures threw || timedOut ==> MetFault(uses, env)
      ensures !threw ==> first <= at && first == (if old(groupOpen) then first0 else at)
      ensures !threw ==>
                || (first == first0 && attempt == attempt0 && began == began0)
                || first > first0
                || (first == first0 && began0 == 0 && began > 0)
      ensures !threw && !timedOut ==> AtStep(at + 1, first, attempt, began)
      ensures timedOut ==> Book(plan[at].ordinal) && groupOpen && GroupFrom(first) && DoneUpTo(at) && state == Working
      ensures timedOut ==> 1 <= attempt <= MostAttempts(Patience()) && mostAttempts <= MostAttempts(Patience())
      ensures timedOut ==> Separated(plan, first) && OrderedPlan(plan)
      ensures !threw ==> groupOpen
      ensures timedOut ==> clock > 0 && began > 0 && clock >= began + Slept(attempt - 1)
    {
      hide Told, Once, Clean, MetFault, Disciplined, ModeOf, Agrees, Distinct, AllBelow, MostAttempts, Bracket, Separated, SkippedIn, Polled, AllPolled, WholeTransactions, OneTransaction, StopSeen;
      var step := plan[at];
      BracketJoin(plan, groupOpen, uncommitted, at, first0);
      first, attempt, began := first0, attempt0, began0;
      if !groupOpen {
        OpenGroup(step.ordinal);
        if first != at || began == 0 {
          first, attempt, began := at, 1, clock;
        }
      }
      if attempt > mostAttempts { mostAttempts := attempt; }
      ghost var kept := acknowledged + uncommitted;
      assert GroupStep(plan, step.ordinal);
      threw, timedOut := RunInGroup(step.ordinal, step.exclusive && step.kind != Copy);
      assert timedOut ==> record == old(record);
      if !threw && !timedOut {
        SkippedAppend(plan, old(record), [Entry(step.ordinal, Succeeded)], at);
        NotSkipped(at, record);
        Forward(at, first, attempt, began, kept);
      }
    }

    /** The exclusive lock did not come: roll the whole group back, and run it again
        from its first step after a pause, unless the job is cancelled or its patience
        is spent. */
    method RetryGroup(at: nat, first: nat, attempt: nat, began: nat) returns (threw: bool, stopped: bool)
      requires Ordered() && at < |plan| && first <= at
      requires Book(plan[at].ordinal) && groupOpen && GroupFrom(first) && DoneUpTo(at) && state == Working
      requires 1 <= attempt <= MostAttempts(Patience()) && mostAttempts <= MostAttempts(Patience())
      requires clock > 0 && began > 0 && clock >= began + Slept(attempt - 1) && MetFault(uses, env)
      requires Separated(plan, first)
      modifies this
      ensures threw ==> !stopped && Threw()
      ensures stopped ==> Stopped()
      ensures threw || stopped ==> MetFault(uses, env)
      ensures threw ==> clock >= began + Patience()
      ensures threw ==> record == MarkAll(old(record), old(uncommitted)) + [Entry(plan[at].ordinal, LockNotAcquired)]
      ensures stopped ==> env(old(asked)).cancel
      ensures !threw && !stopped ==> clock >= old(clock) + Pause(attempt) && record == Forget(MarkAll(old(record), old(uncommitted)), plan[first].ordinal)
      ensures !threw && !stopped ==> AtStep(first, first, attempt + 1, began) && !groupOpen
    {
      hide Told, Once, Clean, MetFault, Disciplined, ModeOf, Agrees, Distinct, AllBelow, Slept, MostAttempts, Separated, SkippedIn, Polled, AllPolled, WholeTransactions, OneTransaction, StopSeen;
      var o := plan[at].ordinal;
      BackTo(first, at, acknowledged, uncommitted);
      SkippedMark(plan, record, uncommitted, at);
      AbandonGroup(o);
      var poll := Peek();
      if poll.cancel {
        FinishJob(JobCancelled);
        return false, true;
      }
      var waited := clock - began;
      if waited >= Patience() {
        RecordStep(o, LockNotAcquired);
        return true, false;
      }
      SkippedForget(plan, record, at, first);
      ForgetFrom(plan[first].ordinal);
      clock := clock + Pause(attempt);
      AnotherAttempt(attempt, waited);
      return false, false;
    }

    /** Cancelled between two steps. */
    method StopHere(at: nat, ghost first: nat, ghost attempt: nat, ghost began: nat)
      requires at < |plan| && AtStep(at, first, attempt, began) && StopSeen(uses, env)
      modifies this`groupOpen, this`slotHeld, this`acts, this`record, this`ledger, this`uncommitted, this`state
      ensures Stopped()
    {
      hide Told, Once, Clean, Disciplined, ModeOf, Agrees, Distinct, AllBelow, Slept, MostAttempts, DoneUpTo, GroupFrom, Bracket, Polled, AllPolled, WholeTransactions, OneTransaction, StopSeen;
      AbandonGroup(plan[at].ordinal);
      FinishJob(JobCancelled);
    }

    /** A step with nothing to apply. */
    method SkipStep(at: nat, ghost first: nat, ghost attempt: nat, ghost began: nat)
      requires Ordered() && at < |plan| && plan[at].action != Apply && AtStep(at, first, attempt, began)
      modifies this`record, this`ledger
      ensures AtStep(at + 1, first, attempt, began)
      ensures plan[at].action == Satisfied ==>
                && record == old(record) + [Entry(plan[at].ordinal, SkippedSatisfied)]
                && ledger == old(ledger)[plan[at].ordinal := SkippedSatisfied]
      ensures plan[at].action == Other ==> record == old(record) && ledger == old(ledger)
    {
      hide Told, Once, Clean, Disciplined, ModeOf, Agrees, Distinct, AllBelow, Slept, MostAttempts, Bracket, SkippedIn, Polled, AllPolled, WholeTransactions, OneTransaction, StopSeen;
      var o := plan[at].ordinal;
      ghost var kept := acknowledged + uncommitted;
      BracketSkip(plan, groupOpen, uncommitted, at, first);
      SkippedAppend(plan, record, [Entry(o, SkippedSatisfied)], at);
      if plan[at].action == Satisfied {
        RecordStep(o, SkippedSatisfied);
      } else {
        BookLater(o, o + 1);
      }
      SkippedHere(at, record);
      Forward(at, first, attempt, began, kept);
    }

    /** The step begins; a group it is not part of is committed first. */
    method EnterStep(at: nat, ghost first: nat, ghost attempt: nat, ghost began: nat, currentGroup: int) returns (threw: bool)
      requires at < |plan| && AtStep(at, first, attempt, began) && Ordered() && plan[at].action == Apply
      requires (groupOpen ==> plan[first].group == currentGroup) && Polled(uses, env)
      modifies this
      ensures threw ==> Threw() && MetFault(uses, env)
      ensures !threw ==> AtStep(at, first, attempt, began) && Polled(uses, env)
      ensures ledger == old(ledger)[plan[at].ordinal := Running] && record == old(record)
      ensures !threw ==> groupOpen == (old(groupOpen) && plan[at].group == currentGroup && plan[at].cls == InGroup)
    {
      hide Told, Once, Clean, MetFault, Disciplined, ModeOf, Agrees, Distinct, AllBelow, Slept, MostAttempts, Traced, Gated, Separated, SkippedIn, OrderedPlan, Polled, AllPolled, WholeTransactions, OneTransaction, StopSeen;
      var step := plan[at];
      BeginStep(step.ordinal);
      threw := false;
      if step.group != currentGroup || step.cls != InGroup {
        if groupOpen {
          BracketIsOne(plan, uncommitted, at, first);
          BracketClose(plan, uncommitted, at, first);
          threw := CommitGroup(step.ordinal);
        }
      }
    }

    /** The last group is committed. */
    method CloseLast(ghost first: nat, ghost attempt: nat, ghost began: nat) returns (threw: bool)
      requires AtStep(|plan|, first, attempt, began) && Ordered()
      modifies this
      ensures threw ==> Threw() && MetFault(uses, env)
      ensures !threw ==> Complete()
    {
      hide Told, Once, Clean, MetFault, Disciplined, ModeOf, Agrees, Distinct, AllBelow, Slept, MostAttempts, Traced, Gated, Separated, SkippedIn, OrderedPlan, Polled, AllPolled, WholeTransactions, OneTransaction, StopSeen;
      threw := false;
      if groupOpen {
        BracketIsOne(plan, uncommitted, |plan|, first);
        threw := CommitGroup(Bound(|plan|));
        if threw { return; }
      }
      FinishJob(JobSucceeded);
    }

    ghost predicate Complete()
      reads this
    {
      && state == JobSucceeded && Record() && uncommitted == {}
      && (forall o :: o in ledger ==> ledger[o] != Running)
      && mostAttempts <= MostAttempts(Patience())
      && (forall i :: 0 <= i < |plan| && plan[i].action == Apply ==> plan[i].ordinal in acknowledged)
      && SkippedIn(plan, record, |plan|)
    }

    lemma AtStepBounds(at: nat, first: nat, attempt: nat, began: nat)
      requires AtStep(at, first, attempt, began)
      ensures first <= at <= |plan| && (groupOpen ==> first < at && InTxn(plan[first])) && attempt <= MostAttempts(Patience())
    {
    }

    lemma AtFirst()
      requires Book(Bound(0)) && state == Working && !groupOpen && clock > 0 && mostAttempts == 0
      ensures AtStep(0, 0, 1, 0)
    {
      AttemptsExactly(1, Patience());
    }

    /** One look outside between two steps. */
    method Poll(at: nat, ghost first: nat, ghost attempt: nat, ghost began: nat) returns (cancel: bool)
      requires AtStep(at, first, attempt, began)
      modifies this`clock, this`asked, this`uses, this`acknowledged
      ensures AtStep(at, first, attempt, began)
      ensures if cancel then MetFault(uses, env) && StopSeen(uses, env) else Polled(uses, env)
    {
      hide MetFault, Slept, MostAttempts, Traced, Gated, Agrees, Distinct, AllBelow, Clean, Bracket, SkippedIn, Polled, StopSeen;
      var o := Peek();
      cancel := o.cancel;
    }

    /** The whole plan. An exclusive step whose lock does not come takes its group
        back to its first step; everything else goes forward. */
    method Execute() returns (threw: bool)
      requires Ordered() && Book(Bound(0)) && state == Working && !groupOpen && clock > 0 && mostAttempts == 0
      modifies this
      ensures threw ==> Threw()
      ensures !threw ==> Stopped() || Complete()
      ensures threw || !Complete() ==> Faulty()
    {
      hide AtStep, Threw, Stopped, Complete, MetFault, Mixed, Slept, MostAttempts, Ordered, Book, Polled, StopSeen;
      var at: nat, first: nat, attempt: nat, began: nat := 0, 0, 1, 0;
      var currentGroup := -1;
      AtFirst();
      AtStepBounds(at, first, attempt, began);
      var stopped;
      while at < |plan|
        invariant AtStep(at, first, attempt, began) && first <= at <= |plan| && attempt <= MostAttempts(Patience())
        invariant groupOpen ==> first < at && plan[first].group == currentGroup && InTxn(plan[first])
        decreases |plan| - first, began == 0, MostAttempts(Patience()) - attempt, |plan| - at
      {
        var step := plan[at];
        var cancel := Poll(at, first, attempt, began);
        if cancel {
          StopHere(at, first, attempt, began);
          return false;
        }
        if step.action != Apply {
          SkipStep(at, first, attempt, began);
          at := at + 1;
          continue;
        }
        threw := EnterStep(at, first, attempt, began, currentGroup);
        if threw { return; }
        if step.group != currentGroup || step.cls != InGroup {
          currentGroup := step.group;
        }
        if step.cls != InGroup || step.kind == VerifyIndex {
          if groupOpen { MixedPlan(first, at); }
          threw, stopped := OwnTurn(at, first, attempt, began);
          if threw || stopped { return; }
          at := at + 1;
          continue;
        }
        var timedOut;
        threw, timedOut, first, attempt, began := GroupTurn(at, first, attempt, began);
        if threw { return; }
        if timedOut {
          threw, stopped := RetryGroup(at, first, attempt, began);
          if threw || stopped { return; }
          attempt := attempt + 1;
          at := first;
          AtStepBounds(at, first, attempt, began);
          continue;
        }
        at := at + 1;
        AtStepBounds(at, first, attempt, began);
      }
      threw := CloseLast(first, attempt, began);
    }

    lemma NotSkipped(at: nat, r: seq<Entry>)
      requires at < |plan| && plan[at].action == Apply && SkippedIn(plan, r, at)
      ensures SkippedIn(plan, r, at + 1)
    {
    }

    lemma SkippedHere(at: nat, r: seq<Entry>)
      requires at < |plan| && SkippedIn(plan, r, at)
      requires plan[at].action == Satisfied ==> Entry(plan[at].ordinal, SkippedSatisfied) in r
      ensures SkippedIn(plan, r, at + 1)
    {
    }

    lemma MixedPlan(i: nat, j: nat)
      requires i < j < |plan| && plan[i].group == plan[j].group && InTxn(plan[i]) && plan[j].kind == VerifyIndex
      ensures Mixed()
    {
    }

    lemma AnotherAttempt(attempt: nat, waited: nat)
      requires attempt >= 1 && Slept(attempt - 1) <= waited < Patience()
      ensures attempt + 1 <= MostAttempts(Patience())
      ensures Slept(attempt) == Slept(attempt - 1) + Pause(attempt)
    {
      AttemptsExactly(attempt + 1, Patience());
    }

    method ForgetFrom(first: int)
      requires Record() && uncommitted == {} && !slotHeld && !groupOpen && Clean(uses, env)
      requires forall o :: o in acknowledged ==> o < first
      modifies this`record
      ensures Book(first) && record == Forget(old(record), first)
    {
      hide Told, Once, Clean, Agrees, Distinct, AllBelow, Disciplined, ModeOf, GroupStep, Polled, AllPolled, WholeTransactions, OneTransaction, StopSeen;
      assert acknowledged + uncommitted == acknowledged;
      ForgetAgrees(record, ledger, acknowledged, first);
      record := Forget(record, first);
    }

    /** What holds whenever a job has ended. Each step is recorded at most once, none is
        left running, and the record and the ledger both say "succeeded" of exactly the
        steps whose keeping was told. Of the steps run in groups that is exactly the steps
        the server kept, if and only if no applied commit of a group lost its reply; and
        one that reads "succeeded" is kept in any case. A step with transactions of its
        own reads "succeeded" if and only if it was seen through; all that do are kept
        whole if and only if none of them is hollow; and one is kept in part or whole
        without reading "succeeded" if and only if the answer it was given leaves part
        of it. A job that
        succeeded saw every step through; one that did not was given a bad answer or a
        plan that puts a check into an open group. No group was tried more often than its
        patience allows, and no slot was waited for with a slot held or a transaction
        open. */
    method Run()
      requires Ordered() && Book(Bound(0)) && state == Working && !groupOpen && clock > 0 && mostAttempts == 0 && asked == 0
      modifies this
      ensures state != Working && |uses| == asked && forall n :: 0 <= n < |uses| ==> FromPlan(plan, uses[n])
      ensures Distinct(record)
      ensures forall o :: o in ledger ==> ledger[o] != Running
      ensures forall o :: Says(record, o) <==> o in ledger && ledger[o] == Succeeded
      ensures forall o :: Says(record, o) ==> o in GroupKept(uses, env) || OwnRan(uses, o)
      ensures forall n: nat, o :: OwnRunAt(uses, n, o) ==> (Says(record, o) <==> Good(uses[n].kind, env(n)))
      ensures (forall o :: OwnRan(uses, o) && Says(record, o) ==> OwnWhole(uses, env, o))
              <==> !exists n: nat :: HollowAt(uses, env, n)
      ensures (forall o :: !OwnRan(uses, o) ==> (Says(record, o) <==> o in GroupKept(uses, env)))
              <==> !exists n: nat :: LostCommit(uses, env, n)
      ensures forall o :: OwnTouched(uses, env, o) && !Says(record, o) <==>
                exists n: nat :: OwnRunAt(uses, n, o) && LeavesPart(uses[n].kind, env(n))
      ensures forall i :: 0 <= i < |plan| && plan[i].action == Apply && state == JobSucceeded ==>
                Says(record, plan[i].ordinal)
      ensures state != JobSucceeded ==> Faulty()
      ensures mostAttempts <= MostAttempts(lockTimeoutMs * 20)
      ensures Disciplined(acts) && ModeOf(acts) == IDLE
      ensures forall i: nat, j: nat :: Together(plan, i, j) ==> AllOrNothing(i, j)
      ensures forall n :: 0 <= n < |uses| && uses[n].CommitOf? ==> OneTransaction(plan, uses[n].members)
      ensures AllPolled(uses, env)
      ensures state == JobCancelled ==> StopSeen(uses, env)
      ensures state == JobFailed ==> uses != [] && uses[asked - 1] == Look && !env(asked - 1).cancel
      ensures state == JobSucceeded ==> SkippedIn(plan, record, |plan|)
    {
      hide *;
      Perform();
      Ended();
    }

    /** Both steps were kept, by one commit of both, or neither was. */
    ghost predicate AllOrNothing(i: nat, j: nat)
      reads this
    {
      && i < |plan| && j < |plan|
      && (plan[i].ordinal in GroupKept(uses, env) <==> plan[j].ordinal in GroupKept(uses, env))
      && (plan[i].ordinal in GroupKept(uses, env) ==>
            exists n :: 0 <= n < |uses| && uses[n].CommitOf? && env(n).commit != Lost(false) &&
                        plan[i].ordinal in uses[n].members && plan[j].ordinal in uses[n].members)
    }

    /** What a job has come to when it ends. */
    ghost predicate Over()
      reads this
    {
      && state != Working && Record() && uncommitted == {} && !groupOpen && !slotHeld
      && (forall o :: o in ledger ==> ledger[o] != Running)
      && mostAttempts <= MostAttempts(Patience())
      && (state != JobSucceeded ==> Faulty())
      && (forall i :: 0 <= i < |plan| && plan[i].action == Apply && state == JobSucceeded ==> plan[i].ordinal in acknowledged)
      && (state == JobSucceeded ==> SkippedIn(plan, record, |plan|))
      && (state == JobCancelled ==> StopSeen(uses, env))
      && (state == JobFailed ==> uses != [] && uses[|uses| - 1] == Look && !env(|uses| - 1).cancel)
    }

    method Perform()
      requires Ordered() && Book(Bound(0)) && state == Working && !groupOpen && clock > 0 && mostAttempts == 0 && asked == 0
      modifies this
      ensures Over()
    {
      hide Told, Once, Clean, MetFault, Disciplined, ModeOf, Agrees, Distinct, AllBelow, MostAttempts, Traced, Gated, Mixed, Ordered, Book, Polled, AllPolled, WholeTransactions, OneTransaction, StopSeen;
      var threw := Execute();
      if threw {
        GroupRolledBack();
        var r := Peek();
        FinishJob(if r.cancel then JobCancelled else JobFailed);
      }
      Unwind();
    }

    lemma Ended()
      requires Over()
      ensures state != Working && |uses| == asked && forall n :: 0 <= n < |uses| ==> FromPlan(plan, uses[n])
      ensures Distinct(record)
      ensures forall o :: o in ledger ==> ledger[o] != Running
      ensures forall o :: Says(record, o) <==> o in ledger && ledger[o] == Succeeded
      ensures forall o :: Says(record, o) ==> o in GroupKept(uses, env) || OwnRan(uses, o)
      ensures forall n: nat, o :: OwnRunAt(uses, n, o) ==> (Says(record, o) <==> Good(uses[n].kind, env(n)))
      ensures (forall o :: OwnRan(uses, o) && Says(record, o) ==> OwnWhole(uses, env, o))
              <==> !exists n: nat :: HollowAt(uses, env, n)
      ensures (forall o :: !OwnRan(uses, o) ==> (Says(record, o) <==> o in GroupKept(uses, env)))
              <==> !exists n: nat :: LostCommit(uses, env, n)
      ensures forall o :: OwnTouched(uses, env, o) && !Says(record, o) <==>
                exists n: nat :: OwnRunAt(uses, n, o) && LeavesPart(uses[n].kind, env(n))
      ensures forall i :: 0 <= i < |plan| && plan[i].action == Apply && state == JobSucceeded ==>
                Says(record, plan[i].ordinal)
      ensures state != JobSucceeded ==> Faulty()
      ensures mostAttempts <= MostAttempts(lockTimeoutMs * 20)
      ensures Disciplined(acts) && ModeOf(acts) == IDLE
      ensures forall i: nat, j: nat :: Together(plan, i, j) ==> AllOrNothing(i, j)
      ensures forall n :: 0 <= n < |uses| && uses[n].CommitOf? ==> OneTransaction(plan, uses[n].members)
      ensures AllPolled(uses, env)
      ensures state == JobCancelled ==> StopSeen(uses, env)
      ensures state == JobFailed ==> uses != [] && uses[asked - 1] == Look && !env(asked - 1).cancel
      ensures state == JobSucceeded ==> SkippedIn(plan, record, |plan|)
    {
      hide Told, Once, MetFault, Disciplined, ModeOf, Distinct, GroupKept, OwnWhole, OwnRan, OwnTouched, LostCommit, LeavesPart, HollowAt, Says, FromPlan, Good, Together, Polled, AllPolled, OneTransaction, StopSeen;
      forall o ensures Says(record, o) <==> o in Told(uses, env) {
        assert Says(record, o) <==> o in acknowledged + uncommitted;
      }
      forall o | Says(record, o) ensures o in GroupKept(uses, env) || OwnRan(uses, o) {
        KeptOrRan(uses, env, o);
      }
      forall n: nat, o | OwnRunAt(uses, n, o) ensures Says(record, o) <==> Good(uses[n].kind, env(n)) {
        SeenThroughExactly(uses, env, n, o);
      }
      forall i: nat, j: nat | Together(plan, i, j) ensures AllOrNothing(i, j) {
        KeptTogether(plan, uses, env, i, j);
      }
      OwnWholeExactly(uses, env);
      GroupsAgreeExactly(uses, env);
      forall o {
        PartIsLeftExactly(uses, env, o);
      }
    }
  }
}
