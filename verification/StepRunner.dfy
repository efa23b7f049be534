/** The executor's main loop: steps grouped into transactions, a group rolled back
    and run again when an exclusive lock does not come, and a record of every step
    that must agree with what was committed. */
module StepRunner {
  import opened Scripts

  datatype TxnClass = InGroup | Forbidden | OwnPerBatch

  datatype Kind = Plain | Copy | VerifyIndex

  datatype Action = Apply | Satisfied | Other

  datatype PlanStep = PlanStep(
    ordinal: int, group: int, cls: TxnClass, kind: Kind, action: Action, exclusive: bool, statements: nat)

  datatype StepState = Running | Succeeded | SkippedSatisfied | Failed | LockNotAcquired | RolledBack | Cancelled

  datatype JobState = Working | JobSucceeded | JobFailed | JobCancelled

  datatype Entry = Entry(ordinal: int, state: StepState)

  // --- the outside ------------------------------------------------------------------

  /** How a statement of a group, or a check, ended. */
  datatype Reply = Ok | LockTimeout | Error | Gone

  /** How a commit ended: acknowledged, or the connection was lost with the server
      having applied it or not. */
  datatype CommitReply = Acknowledged | Lost(applied: bool)

  /** How a walk ended after those: at its end, with its completeness check and its
      invariants holding or not; told to stop; with a batch that failed; giving up after
      too long a pause; or with a commit whose reply did not come. */
  datatype WalkEnd =
    | Finished(holds: bool) | StopAtGate | StopBetween | Broke | GaveUp | CommitLost(applied: bool, rows: nat)

  /** How a statement outside any transaction ended. One that returns without error may
      still leave something unusable, as a concurrent build can leave an invalid index. A
      refusal may leave the statement applied, and may not even be told. */
  datatype StatementReply = Done(usable: bool) | Refused(applied: bool, told: bool)

  /** The outside, at the n-th time it is asked. */
  datatype Outside = Outside(
    reply: Reply, commit: CommitReply, cancel: bool, elapsed: nat, slot: bool,
    txns: seq<Txn>, end: WalkEnd, statements: seq<StatementReply>)

  /** What a step does in transactions of its own, or in none. */
  datatype OwnKind = Walk | Build(statements: nat) | Check

  /** What the n-th answer was asked for. */
  datatype Use = Look | Gate | Statement(ordinal: int) | CommitOf(members: set<int>) | OwnRun(step: int, kind: OwnKind)

  predicate InItsGroup(p: PlanStep) {
    p.cls == InGroup && p.kind != VerifyIndex
  }

  function OwnKindOf(p: PlanStep): (k: OwnKind) {
    if p.cls == OwnPerBatch then Walk else if p.cls == Forbidden then Build(p.statements) else Check
  }

  ghost predicate GroupStep(plan: seq<PlanStep>, o: int) {
    exists i :: 0 <= i < |plan| && plan[i].ordinal == o && InItsGroup(plan[i])
  }

  ghost predicate OwnStep(plan: seq<PlanStep>, o: int, k: OwnKind) {
    exists i :: 0 <= i < |plan| && plan[i].ordinal == o && !InItsGroup(plan[i]) && OwnKindOf(plan[i]) == k
  }

  /** An answer is asked for a step the plan has, in the way the plan says. */
  ghost predicate FromPlan(plan: seq<PlanStep>, u: Use) {
    match u
    case Look => true
    case Gate => true
    case Statement(o) => GroupStep(plan, o)
    case CommitOf(m) => forall o :: o in m ==> GroupStep(plan, o)
    case OwnRun(o, k) => OwnStep(plan, o, k)
  }

  function ReplyAt(a: Outside, j: nat): (r: StatementReply) {
    if j < |a.statements| then a.statements[j] else Done(true)
  }

  /** How many of the first `n` statements the server applied; none is sent after one that
      was refused. */
  function Applied(a: Outside, n: nat): (r: nat)
    ensures r <= n
  {
    if n == 0 then 0
    else if Applied(a, n - 1) < n - 1 || exists j :: 0 <= j < n - 1 && ReplyAt(a, j).Refused? then Applied(a, n - 1)
    else if ReplyAt(a, n - 1).Done? || ReplyAt(a, n - 1).applied then n else n - 1
  }

  /** The tool saw it through. */
  ghost predicate Good(k: OwnKind, a: Outside) {
    match k
    case Walk => a.end == Finished(true)
    case Build(n) => forall j :: 0 <= j < n ==> ReplyAt(a, j).Done?
    case Check => a.reply == Ok
  }

  /** Something of it was lost on the way or is of no use, and the answer does not say so:
      rows of a transaction the tool's own cancel undid, or a statement that returned and
      left something unusable. */
  ghost predicate Hollow(k: OwnKind, a: Outside) {
    match k
    case Walk => Loses(a.txns)
    case Build(n) => exists j :: 0 <= j < n && ReplyAt(a, j) == Done(false)
    case Check => false
  }

  /** The server kept all of it: the walk came to its end with none of its rows undone, or
      every statement was applied and is of use. */
  ghost predicate Whole(k: OwnKind, a: Outside) {
    match k
    case Walk => a.end.Finished? && forall j :: 0 <= j < |a.txns| && a.txns[j].Undone? ==> a.txns[j].lost == 0
    case Build(n) => Applied(a, n) == n && forall j :: 0 <= j < n && ReplyAt(a, j).Done? ==> ReplyAt(a, j).usable
    case Check => true
  }

  /** The server kept some of it. */
  ghost predicate Touches(k: OwnKind, a: Outside) {
    match k
    case Walk => Keeps(a.txns) || (a.end.CommitLost? && a.end.applied && a.end.rows > 0)
    case Build(n) => Applied(a, n) > 0
    case Check => false
  }

  /** Some of it is kept and the tool did not see it through: a check that failed after the
      last batch, a batch or a statement that failed after an earlier one, a stop in
      between, or an end that was not told. */
  ghost predicate LeavesPart(k: OwnKind, a: Outside) {
    Touches(k, a) && !Good(k, a)
  }

  lemma {:induction false} AllApplied(a: Outside, n: nat)
    requires forall j :: 0 <= j < n ==> ReplyAt(a, j).Done?
    ensures Applied(a, n) == n
  {
    if n > 0 { AllApplied(a, n - 1); }
  }

  /** What was seen through is whole if and only if it is not hollow. */
  lemma GoodIsWholeExactly(k: OwnKind, a: Outside)
    requires Good(k, a)
    ensures Whole(k, a) <==> !Hollow(k, a)
  {
    if k.Build? { AllApplied(a, k.statements); }
  }

  // --- what the answers say --------------------------------------------------------------

  type Trail = seq<Use>

  /** Steps the tool was told are kept. */
  ghost function ToldOf(u: Use, a: Outside): (r: set<int>) {
    match u
    case CommitOf(m) => if a.commit == Acknowledged then m else {}
    case OwnRun(o, k) => if Good(k, a) then {o} else {}
    case _ => {}
  }

  ghost function Told(uses: Trail, env: nat -> Outside): (r: set<int>) {
    if uses == [] then {} else Told(uses[..|uses| - 1], env) + ToldOf(uses[|uses| - 1], env(|uses| - 1))
  }

  /** Group steps whose transaction the server committed. */
  ghost function GroupKept(uses: Trail, env: nat -> Outside): (r: set<int>) {
    set n, o | 0 <= n < |uses| && uses[n].CommitOf? && o in uses[n].members && env(n).commit != Lost(false) :: o
  }

  ghost predicate OwnRunAt(uses: Trail, n: nat, o: int) {
    n < |uses| && uses[n].OwnRun? && uses[n].step == o
  }

  /** Own-transaction steps the server kept some of, or all of. */
  ghost predicate OwnTouched(uses: Trail, env: nat -> Outside, o: int) {
    exists n: nat :: OwnRunAt(uses, n, o) && Touches(uses[n].kind, env(n))
  }

  ghost predicate OwnWhole(uses: Trail, env: nat -> Outside, o: int) {
    exists n: nat :: OwnRunAt(uses, n, o) && Whole(uses[n].kind, env(n))
  }

  ghost predicate OwnRan(uses: Trail, o: int) {
    exists n: nat :: OwnRunAt(uses, n, o)
  }

  /** A commit of a group that had done something was applied and its reply lost. */
  ghost predicate LostCommit(uses: Trail, env: nat -> Outside, n: nat) {
    n < |uses| && uses[n].CommitOf? && (exists o :: o in uses[n].members) && env(n).commit == Lost(true)
  }

  /** No own-transaction step runs twice, and none is also in a group's commit; no group's
      step is committed twice. */
  ghost predicate Once(uses: Trail) {
    && (forall m: nat, n: nat, o :: OwnRunAt(uses, m, o) && OwnRunAt(uses, n, o) ==> m == n)
    && (forall m: nat, n: nat, o :: OwnRunAt(uses, m, o) && n < |uses| && uses[n].CommitOf? ==> o !in uses[n].members)
    && (forall m, n :: 0 <= m < n < |uses| && uses[m].CommitOf? && uses[n].CommitOf? ==> uses[m].members !! uses[n].members)
  }

  /** An answer the job cannot go on from. */
  ghost predicate BadAnswer(u: Use, a: Outside) {
    match u
    case Look => a.cancel
    case Gate => false
    case Statement(_) => a.reply != Ok
    case CommitOf(_) => a.commit != Acknowledged
    case OwnRun(_, k) => !Good(k, a)
  }

  /** One of the answers this job was given. */
  ghost predicate MetFault(uses: Trail, env: nat -> Outside) {
    exists n :: 0 <= n < |uses| && BadAnswer(uses[n], env(n))
  }

  // --- groups ------------------------------------------------------------------------------

  /** The step opens or shares its group's transaction. */
  predicate InTxn(p: PlanStep) {
    InItsGroup(p) && p.action == Apply
  }

  /** Step k ends the transaction step i is in: another group, or a step of its own. */
  predicate EndsGroup(plan: seq<PlanStep>, k: nat, i: nat)
    requires k < |plan| && i < |plan|
  {
    plan[k].action == Apply && (plan[k].group != plan[i].group || plan[k].cls != InGroup)
  }

  /** Two steps of one transaction: one group, and no step between them ends it. */
  ghost predicate Together(plan: seq<PlanStep>, i: nat, j: nat) {
    && i < j < |plan| && InTxn(plan[i]) && InTxn(plan[j]) && plan[i].group == plan[j].group
    && forall k :: i < k < j ==> !EndsGroup(plan, k, i)
  }

  /** A commit is of one transaction's steps: with any step it has those together with it,
      and no others. */
  ghost predicate OneTransaction(plan: seq<PlanStep>, m: set<int>) {
    && (forall i: nat, j: nat :: Together(plan, i, j) ==> (plan[i].ordinal in m <==> plan[j].ordinal in m))
    && (forall i: nat, j: nat :: i < j < |plan| && InTxn(plan[i]) && InTxn(plan[j]) && plan[i].ordinal in m && plan[j].ordinal in m ==>
          Together(plan, i, j))
  }

  ghost predicate WholeTransactions(plan: seq<PlanStep>, uses: Trail) {
    forall n :: 0 <= n < |uses| && uses[n].CommitOf? ==> OneTransaction(plan, uses[n].members)
  }

  /** Steps of one transaction are kept together or not at all, by one and the same commit. */
  lemma KeptTogether(plan: seq<PlanStep>, uses: Trail, env: nat -> Outside, i: nat, j: nat)
    requires WholeTransactions(plan, uses) && Together(plan, i, j)
    ensures i < |plan| && j < |plan|
    ensures plan[i].ordinal in GroupKept(uses, env) <==> plan[j].ordinal in GroupKept(uses, env)
    ensures plan[i].ordinal in GroupKept(uses, env) ==>
              exists n :: 0 <= n < |uses| && uses[n].CommitOf? && env(n).commit != Lost(false) &&
                          plan[i].ordinal in uses[n].members && plan[j].ordinal in uses[n].members
  {
    forall o | o in {plan[i].ordinal, plan[j].ordinal} && o in GroupKept(uses, env)
      ensures exists n :: 0 <= n < |uses| && uses[n].CommitOf? && env(n).commit != Lost(false) &&
                          plan[i].ordinal in uses[n].members && plan[j].ordinal in uses[n].members
    {
      var n :| 0 <= n < |uses| && uses[n].CommitOf? && o in uses[n].members && env(n).commit != Lost(false);
      assert OneTransaction(plan, uses[n].members);
    }
  }

  ghost predicate OrderedPlan(plan: seq<PlanStep>) {
    forall i, j :: 0 <= i < j < |plan| ==> plan[i].ordinal < plan[j].ordinal
  }

  /** Whatever was in a transaction before step n, that transaction has been ended by then. */
  ghost predicate Separated(plan: seq<PlanStep>, n: nat) {
    forall i: nat :: i < n && i < |plan| && InTxn(plan[i]) ==> exists k: nat :: i < k <= n && k < |plan| && EndsGroup(plan, k, i)
  }

  ghost function OrdinalsIn(plan: seq<PlanStep>, first: nat, at: nat): (r: set<int>)
    requires at <= |plan|
  {
    set k | first <= k < at && plan[k].action == Apply :: plan[k].ordinal
  }

  /** Before step `at`: the open transaction holds the steps from `first` on, all of one
      group, and nothing else is of it. */
  ghost predicate Bracket(plan: seq<PlanStep>, open: bool, m: set<int>, at: nat, first: nat) {
    && at <= |plan|
    && (!open ==> Separated(plan, at))
    && (open ==>
          && first < at && InTxn(plan[first]) && Separated(plan, first) && m == OrdinalsIn(plan, first, at)
          && forall k :: first <= k < at && plan[k].action == Apply ==> InItsGroup(plan[k]) && plan[k].group == plan[first].group)
  }

  lemma SeparatedOn(plan: seq<PlanStep>, at: nat)
    requires at < |plan| && Separated(plan, at) && !InTxn(plan[at])
    ensures Separated(plan, at + 1)
  {
    forall i: nat | i < at + 1 && InTxn(plan[i])
      ensures exists k: nat :: i < k <= at + 1 && k < |plan| && EndsGroup(plan, k, i)
    {
      var k: nat :| i < k <= at && k < |plan| && EndsGroup(plan, k, i);
    }
  }

  lemma BracketSkip(plan: seq<PlanStep>, open: bool, m: set<int>, at: nat, first: nat)
    requires Bracket(plan, open, m, at, first) && at < |plan| && plan[at].action != Apply
    ensures Bracket(plan, open, m, at + 1, first)
  {
    hide Separated;
    if open {
      assert OrdinalsIn(plan, first, at + 1) == OrdinalsIn(plan, first, at);
    } else {
      SeparatedOn(plan, at);
    }
  }

  lemma BracketOwn(plan: seq<PlanStep>, m: set<int>, more: set<int>, at: nat, first: nat)
    requires Bracket(plan, false, m, at, first) && at < |plan| && !InItsGroup(plan[at])
    ensures Bracket(plan, false, more, at + 1, first)
  {
    hide Separated;
    SeparatedOn(plan, at);
  }

  /** A step joins the transaction, opening it where none is open. */
  lemma BracketJoin(plan: seq<PlanStep>, open: bool, m: set<int>, at: nat, first: nat)
    requires Bracket(plan, open, m, at, first) && at < |plan| && InTxn(plan[at])
    requires open ==> plan[at].group == plan[first].group
    requires !open ==> m == {}
    ensures Bracket(plan, true, m + {plan[at].ordinal}, at + 1, if open then first else at)
    ensures Separated(plan, if open then first else at)
  {
    hide Separated;
    var from := if open then first else at;
    assert OrdinalsIn(plan, from, at + 1) == m + {plan[at].ordinal};
  }

  lemma MemberIndex(plan: seq<PlanStep>, first: nat, at: nat, i: nat)
    requires OrderedPlan(plan) && at <= |plan| && i < |plan|
    ensures plan[i].ordinal in OrdinalsIn(plan, first, at) <==> first <= i < at && plan[i].action == Apply
  {
    if plan[i].ordinal in OrdinalsIn(plan, first, at) {
      var k :| first <= k < at && plan[k].action == Apply && plan[k].ordinal == plan[i].ordinal;
      assert k == i;
    }
  }

  /** What a commit at the end of the group commits is one transaction. */
  lemma BracketIsOne(plan: seq<PlanStep>, m: set<int>, at: nat, first: nat)
    requires OrderedPlan(plan) && Bracket(plan, true, m, at, first)
    requires at < |plan| ==> EndsGroup(plan, at, first)
    ensures OneTransaction(plan, m)
  {
    hide OrderedPlan, Separated;
    forall i: nat | i < |plan| ensures plan[i].ordinal in m <==> first <= i < at && plan[i].action == Apply {
      MemberIndex(plan, first, at, i);
    }
    forall i: nat, j: nat | Together(plan, i, j) ensures plan[i].ordinal in m <==> plan[j].ordinal in m {
      NotSplit(plan, m, at, first, i, j);
    }
    forall i: nat, j: nat | i < j < |plan| && InTxn(plan[i]) && InTxn(plan[j]) && plan[i].ordinal in m && plan[j].ordinal in m
      ensures Together(plan, i, j)
    {
      assert first <= i < j < at;
    }
  }

  lemma NotSplit(plan: seq<PlanStep>, m: set<int>, at: nat, first: nat, i: nat, j: nat)
    requires Bracket(plan, true, m, at, first) && Together(plan, i, j)
    requires at < |plan| ==> EndsGroup(plan, at, first)
    ensures first <= i < at <==> first <= j < at
  {
    assert !EndsGroup(plan, j, i);
    if first <= i < at {
      assert plan[i].group == plan[first].group;
      assert at < |plan| ==> EndsGroup(plan, at, i);
    }
    if i < first {
      var k: nat :| i < k <= first && k < |plan| && EndsGroup(plan, k, i);
      assert j < k;
    }
  }

  lemma BracketClose(plan: seq<PlanStep>, m: set<int>, at: nat, first: nat)
    requires Bracket(plan, true, m, at, first) && at < |plan| && EndsGroup(plan, at, first)
    ensures Bracket(plan, false, {}, at, first)
  {
    forall i: nat | i < at && InTxn(plan[i])
      ensures exists k: nat :: i < k <= at && k < |plan| && EndsGroup(plan, k, i)
    {
      if i < first {
        var k: nat :| i < k <= first && k < |plan| && EndsGroup(plan, k, i);
      } else {
        assert plan[i].group == plan[first].group;
        assert EndsGroup(plan, at, i);
      }
    }
  }

  // --- looking before each step ------------------------------------------------------------------

  /** The last thing before a step, but for the commit of the group before and the gate, was
      a look that did not say stop. */
  ghost predicate Polled(uses: Trail, env: nat -> Outside) {
    uses != [] &&
    match uses[|uses| - 1]
    case Look => !env(|uses| - 1).cancel
    case Gate => Polled(uses[..|uses| - 1], env)
    case CommitOf(_) => Polled(uses[..|uses| - 1], env)
    case _ => false
  }

  ghost predicate AllPolled(uses: Trail, env: nat -> Outside) {
    forall n :: 0 <= n < |uses| && (uses[n].Statement? || uses[n].OwnRun?) ==> Polled(uses[..n], env)
  }

  lemma PolledNext(uses: Trail, env: nat -> Outside, u: Use)
    requires AllPolled(uses, env) && (u.Statement? || u.OwnRun? ==> Polled(uses, env))
    ensures AllPolled(uses + [u], env)
    ensures Polled(uses + [u], env) <==>
            (u.Look? && !env(|uses|).cancel) || ((u.Gate? || u.CommitOf?) && Polled(uses, env))
  {
    var more := uses + [u];
    assert more[..|uses|] == uses;
    forall n | 0 <= n < |more| && (more[n].Statement? || more[n].OwnRun?) ensures Polled(more[..n], env) {
      assert more[..n] == uses[..n];
      if n == |uses| { assert uses[..n] == uses; }
    }
  }

  /** The job was told to stop, at a look or inside a walk. */
  ghost predicate ToldToStop(u: Use, a: Outside) {
    || (u.Look? && a.cancel)
    || (u.OwnRun? && u.kind.Walk? && (a.end.StopAtGate? || a.end.StopBetween?))
  }

  ghost predicate StopSeen(uses: Trail, env: nat -> Outside) {
    exists n :: 0 <= n < |uses| && ToldToStop(uses[n], env(n))
  }

  lemma StopGrows(uses: Trail, env: nat -> Outside, u: Use)
    ensures StopSeen(uses, env) || ToldToStop(u, env(|uses|)) ==> StopSeen(uses + [u], env)
  {
    hide ToldToStop;
    var more := uses + [u];
    if StopSeen(uses, env) {
      var n :| 0 <= n < |uses| && ToldToStop(uses[n], env(n));
      assert more[n] == uses[n];
    }
    if ToldToStop(u, env(|uses|)) {
      assert more[|uses|] == u;
    }
  }

  // --- the trail as it grows --------------------------------------------------------------

  lemma ToldNext(uses: Trail, env: nat -> Outside, u: Use)
    ensures Told(uses + [u], env) == Told(uses, env) + ToldOf(u, env(|uses|))
  {
    assert (uses + [u])[..|uses + [u]| - 1] == uses;
  }

  lemma {:induction false} ToldIs(uses: Trail, env: nat -> Outside, o: int)
    ensures o in Told(uses, env) <==> exists n :: 0 <= n < |uses| && o in ToldOf(uses[n], env(n))
  {
    hide ToldOf;
    if uses != [] {
      var last := |uses| - 1;
      var front := uses[..last];
      ToldIs(front, env, o);
      assert forall n :: 0 <= n < last ==> front[n] == uses[n];
      if n :| 0 <= n < |front| && o in ToldOf(front[n], env(n)) {
        assert o in ToldOf(uses[n], env(n));
      }
      if n :| 0 <= n < |uses| && o in ToldOf(uses[n], env(n)) {
        assert n < last ==> o in ToldOf(front[n], env(n));
      }
    }
  }

  /** Every commit and every own run so far was told to be kept: the job can go on. */
  ghost predicate Clean(uses: Trail, env: nat -> Outside) {
    && (forall n :: 0 <= n < |uses| && uses[n].CommitOf? ==> uses[n].members <= Told(uses, env))
    && (forall n :: 0 <= n < |uses| && uses[n].OwnRun? ==> uses[n].step in Told(uses, env))
  }

  /** What a use names is not kept yet. */
  ghost predicate IsNew(uses: Trail, env: nat -> Outside, u: Use) {
    && (u.CommitOf? ==> u.members !! Told(uses, env))
    && (u.OwnRun? ==> u.step !in Told(uses, env))
  }

  lemma OnceNext(uses: Trail, env: nat -> Outside, u: Use)
    requires Once(uses) && (u.CommitOf? || u.OwnRun? ==> Clean(uses, env)) && IsNew(uses, env, u)
    ensures Once(uses + [u])
  {
    hide Told;
    var more := uses + [u];
    forall m: nat, o | OwnRunAt(uses, m, o) && (u.OwnRun? || u.CommitOf?) ensures o in Told(uses, env) {
      assert uses[m].step in Told(uses, env);
    }
    forall m: nat, o | OwnRunAt(more, m, o)
      ensures (m < |uses| && OwnRunAt(uses, m, o)) || (m == |uses| && u.OwnRun? && u.step == o)
    {
    }
  }

  lemma CleanNext(uses: Trail, env: nat -> Outside, u: Use)
    requires Clean(uses, env) && !(u.CommitOf? && env(|uses|).commit != Acknowledged)
    requires u.OwnRun? ==> Good(u.kind, env(|uses|))
    ensures Clean(uses + [u], env)
  {
    ToldNext(uses, env, u);
    hide Told;
  }

  lemma MetGrows(uses: Trail, env: nat -> Outside, u: Use)
    ensures MetFault(uses, env) || BadAnswer(u, env(|uses|)) ==> MetFault(uses + [u], env)
  {
    hide BadAnswer;
    var more := uses + [u];
    if MetFault(uses, env) {
      var n :| 0 <= n < |uses| && BadAnswer(uses[n], env(n));
      assert more[n] == uses[n];
    }
    if BadAnswer(u, env(|uses|)) {
      assert more[|uses|] == u;
    }
  }

  // --- what a job leaves ----------------------------------------------------------------------

  /** An own-transaction step was seen through and is hollow. */
  ghost predicate HollowAt(uses: Trail, env: nat -> Outside, n: nat) {
    n < |uses| && uses[n].OwnRun? && Good(uses[n].kind, env(n)) && Hollow(uses[n].kind, env(n))
  }

  /** Whatever was told to be kept was committed with its group or was seen through. */
  lemma ToldIsKept(uses: Trail, env: nat -> Outside, o: int)
    requires o in Told(uses, env)
    ensures o in GroupKept(uses, env) || exists n: nat :: OwnRunAt(uses, n, o) && Good(uses[n].kind, env(n))
  {
    ToldIs(uses, env, o);
    var n: nat :| n < |uses| && o in ToldOf(uses[n], env(n));
    if uses[n].OwnRun? {
      assert OwnRunAt(uses, n, o);
    }
  }

  /** A step with transactions of its own is told to be kept if and only if it was seen
      through. */
  lemma SeenThroughExactly(uses: Trail, env: nat -> Outside, n: nat, o: int)
    requires Once(uses) && OwnRunAt(uses, n, o)
    ensures o in Told(uses, env) <==> Good(uses[n].kind, env(n))
  {
    hide Good;
    ToldIs(uses, env, o);
    if Good(uses[n].kind, env(n)) {
      assert o in ToldOf(uses[n], env(n));
    }
    if m: nat :| m < |uses| && o in ToldOf(uses[m], env(m)) {
      assert uses[m].OwnRun? ==> OwnRunAt(uses, m, o);
    }
  }

  lemma KeptOrRan(uses: Trail, env: nat -> Outside, o: int)
    requires o in Told(uses, env)
    ensures o in GroupKept(uses, env) || OwnRan(uses, o)
  {
    hide Good;
    ToldIsKept(uses, env, o);
  }

  /** Of the steps with transactions of their own, every one told to be kept is kept whole
      if and only if none that was seen through is hollow. */
  lemma OwnWholeExactly(uses: Trail, env: nat -> Outside)
    requires Once(uses)
    ensures (forall o :: OwnRan(uses, o) && o in Told(uses, env) ==> OwnWhole(uses, env, o))
            <==> !exists n: nat :: HollowAt(uses, env, n)
  {
    hide Good, Whole, Hollow, Told;
    if n: nat :| HollowAt(uses, env, n) {
      var o := uses[n].step;
      assert OwnRunAt(uses, n, o);
      HollowIsNotWhole(uses, env, n, o);
    } else {
      forall o | OwnRan(uses, o) && o in Told(uses, env) ensures OwnWhole(uses, env, o) {
        SeenThroughIsWhole(uses, env, o);
      }
    }
  }

  lemma HollowIsNotWhole(uses: Trail, env: nat -> Outside, n: nat, o: int)
    requires Once(uses) && HollowAt(uses, env, n) && uses[n].step == o
    ensures OwnRan(uses, o) && o in Told(uses, env) && !OwnWhole(uses, env, o)
  {
    hide Good, Whole, Hollow;
    assert OwnRunAt(uses, n, o);
    ToldIs(uses, env, o);
    assert o in ToldOf(uses[n], env(n));
    GoodIsWholeExactly(uses[n].kind, env(n));
  }

  lemma SeenThroughIsWhole(uses: Trail, env: nat -> Outside, o: int)
    requires Once(uses) && OwnRan(uses, o) && o in Told(uses, env)
    requires !exists n: nat :: HollowAt(uses, env, n)
    ensures OwnWhole(uses, env, o)
  {
    hide Good, Whole, Hollow;
    ToldIs(uses, env, o);
    var m: nat :| OwnRunAt(uses, m, o);
    var n: nat :| n < |uses| && o in ToldOf(uses[n], env(n));
    assert uses[n].OwnRun?;
    assert OwnRunAt(uses, n, o) && !HollowAt(uses, env, n);
    GoodIsWholeExactly(uses[n].kind, env(n));
  }

  /** Of the steps run in groups, those told to be kept are those that are, if and only if
      no applied commit lost its reply. */
  lemma GroupsAgreeExactly(uses: Trail, env: nat -> Outside)
    requires Once(uses)
    ensures (forall o :: !OwnRan(uses, o) ==> (o in Told(uses, env) <==> o in GroupKept(uses, env)))
            <==> !exists n: nat :: LostCommit(uses, env, n)
  {
    if n: nat :| LostCommit(uses, env, n) {
      var o :| o in uses[n].members;
      LostIsNotTold(uses, env, n, o);
      assert o in GroupKept(uses, env) && !OwnRan(uses, o);
    } else {
      forall o | !OwnRan(uses, o) ensures o in Told(uses, env) <==> o in GroupKept(uses, env) {
        KeptIsTold(uses, env, o);
      }
    }
  }

  lemma LostIsNotTold(uses: Trail, env: nat -> Outside, n: nat, o: int)
    requires Once(uses) && LostCommit(uses, env, n) && o in uses[n].members
    ensures o !in Told(uses, env) && !OwnRan(uses, o)
  {
    ToldIs(uses, env, o);
    if m: nat :| m < |uses| && o in ToldOf(uses[m], env(m)) {
      if uses[m].OwnRun? {
        assert OwnRunAt(uses, m, o);
      }
    }
  }

  lemma KeptIsTold(uses: Trail, env: nat -> Outside, o: int)
    requires !OwnRan(uses, o) && !exists n: nat :: LostCommit(uses, env, n)
    ensures o in Told(uses, env) <==> o in GroupKept(uses, env)
  {
    ToldIs(uses, env, o);
    if o in Told(uses, env) {
      var n: nat :| n < |uses| && o in ToldOf(uses[n], env(n));
      assert uses[n].OwnRun? ==> OwnRunAt(uses, n, o);
    }
    if o in GroupKept(uses, env) {
      var n: nat :| n < |uses| && uses[n].CommitOf? && o in uses[n].members && env(n).commit != Lost(false);
      assert !LostCommit(uses, env, n);
      assert o in ToldOf(uses[n], env(n));
    }
  }

  /** A step with transactions of its own has effects although it was not seen through, if
      and only if the answer it was given leaves part of it. */
  lemma PartIsLeftExactly(uses: Trail, env: nat -> Outside, o: int)
    requires Once(uses)
    ensures OwnTouched(uses, env, o) && o !in Told(uses, env) <==>
            exists n: nat :: OwnRunAt(uses, n, o) && LeavesPart(uses[n].kind, env(n))
  {
    hide Good, Touches;
    ToldIs(uses, env, o);
    if OwnTouched(uses, env, o) && o !in Told(uses, env) {
      var n: nat :| OwnRunAt(uses, n, o) && Touches(uses[n].kind, env(n));
      assert o !in ToldOf(uses[n], env(n));
    }
    if n: nat :| OwnRunAt(uses, n, o) && LeavesPart(uses[n].kind, env(n)) {
      if m: nat :| m < |uses| && o in ToldOf(uses[m], env(m)) {
        assert uses[m].OwnRun? ==> OwnRunAt(uses, m, o);
      }
    }
  }

  const PATIENCE_FACTOR := 20

  function Pause(attempt: nat): nat {
    if 100 * attempt < 1000 then 100 * attempt else 1000
  }

  /** The time slept before the attempt after the n-th. */
  function Slept(n: nat): nat {
    if n == 0 then 0 else Slept(n - 1) + Pause(n)
  }

  lemma {:induction false} SleptGrows(m: nat, n: nat)
    requires m <= n
    ensures Slept(m) + 100 * (n - m) <= Slept(n)
    decreases n
  {
    if m < n { SleptGrows(m, n - 1); }
  }

  lemma FirstPauses()
    ensures Slept(5) == 1500 && Slept(6) == 2100 && Slept(7) == 2800 && Slept(8) == 3600 && Slept(9) == 4500
    ensures Slept(10) == 5500
  {
    assert Slept(1) == 100 && Slept(2) == 300 && Slept(3) == 600 && Slept(4) == 1000;
  }

  /** From the tenth pause on each is a second. */
  lemma {:induction false} SleptAtLeast(n: nat)
    ensures Slept(n) >= 1000 * n - 4500
  {
    if n > 10 {
      SleptAtLeast(n - 1);
    } else if n > 4 {
      FirstPauses();
    }
  }

  /** The first n at or after `n` with Slept(n) at or past the patience. */
  function PausesWithin(patience: nat, n: nat): (r: nat)
    ensures n <= r && Slept(r) >= patience
    ensures forall m: nat :: n <= m < r ==> Slept(m) < patience
    decreases if Slept(n) < patience then patience - Slept(n) else 0
  {
    if Slept(n) >= patience then n else PausesWithin(patience, n + 1)
  }

  /** As many attempts as can be begun before the patience is spent. */
  function MostAttempts(patience: nat): (r: nat) {
    PausesWithin(patience, 0) + 1
  }

  /** An attempt may be begun if and only if it is the first or the pauses before the one
      it follows leave patience. */
  lemma AttemptsExactly(attempt: nat, patience: nat)
    ensures attempt <= MostAttempts(patience) <==> attempt <= 1 || Slept(attempt - 2) < patience
  {
    var r := PausesWithin(patience, 0);
    if attempt > 1 && r <= attempt - 2 {
      SleptGrows(r, attempt - 2);
    }
  }

  /** One attempt for each second of patience, and a few for the short pauses at first. */
  lemma AttemptsBounded(patience: nat)
    ensures MostAttempts(patience) <= (patience + 4499) / 1000 + 2
  {
    var r := PausesWithin(patience, 0);
    if r > 0 {
      SleptAtLeast(r - 1);
    }
  }

  // --- the record, as values ------------------------------------------------------

  ghost predicate Distinct(r: seq<Entry>) {
    forall i, j :: 0 <= i < j < |r| ==> r[i].ordinal != r[j].ordinal
  }

  ghost predicate AllBelow(r: seq<Entry>, bound: int) {
    forall i :: 0 <= i < |r| ==> r[i].ordinal < bound
  }

  function Mark(e: Entry, undone: set<int>): Entry {
    if e.state == Succeeded && e.ordinal in undone then e.(state := RolledBack) else e
  }

  /** group_rolled_back: the group's succeeded steps become rolled back. */
  function MarkAll(r: seq<Entry>, undone: set<int>): (m: seq<Entry>)
    ensures |m| == |r|
    ensures forall i :: 0 <= i < |r| ==> m[i] == Mark(r[i], undone)
  {
    seq(|r|, i requires 0 <= i < |r| => Mark(r[i], undone))
  }

  /** forget_steps_from: the steps of a group that will run again. */
  function Forget(r: seq<Entry>, first: int): seq<Entry> {
    if r == [] then []
    else Forget(r[..|r| - 1], first) + if r[|r| - 1].ordinal >= first then [] else [r[|r| - 1]]
  }

  lemma {:induction false} ForgetKeeps(r: seq<Entry>, first: int)
    requires Distinct(r)
    ensures Distinct(Forget(r, first)) && AllBelow(Forget(r, first), first)
    ensures forall e :: e in Forget(r, first) <==> e in r && e.ordinal < first
  {
    if r != [] {
      var n := |r| - 1;
      ForgetKeeps(r[..n], first);
      assert r == r[..n] + [r[n]];
      var f := Forget(r[..n], first);
      forall i | 0 <= i < |f|
        ensures f[i].ordinal != r[n].ordinal
      {
        assert f[i] in r[..n];
      }
    }
  }

  /** Every step found satisfied before `at` is recorded so. */
  ghost predicate SkippedIn(plan: seq<PlanStep>, r: seq<Entry>, at: nat) {
    forall i: nat :: i < at && i < |plan| && plan[i].action == Satisfied ==> Entry(plan[i].ordinal, SkippedSatisfied) in r
  }

  lemma SkippedAppend(plan: seq<PlanStep>, r: seq<Entry>, more: seq<Entry>, at: nat)
    requires SkippedIn(plan, r, at)
    ensures SkippedIn(plan, r + more, at)
  {
  }

  lemma SkippedMark(plan: seq<PlanStep>, r: seq<Entry>, undone: set<int>, at: nat)
    requires SkippedIn(plan, r, at)
    ensures SkippedIn(plan, MarkAll(r, undone), at)
  {
    var m := MarkAll(r, undone);
    forall i: nat | i < at && i < |plan| && plan[i].action == Satisfied
      ensures Entry(plan[i].ordinal, SkippedSatisfied) in m
    {
      var k :| 0 <= k < |r| && r[k] == Entry(plan[i].ordinal, SkippedSatisfied);
      assert m[k] == r[k];
    }
  }

  lemma SkippedForget(plan: seq<PlanStep>, r: seq<Entry>, at: nat, first: nat)
    requires OrderedPlan(plan) && Distinct(r) && SkippedIn(plan, r, at) && first <= at && first < |plan|
    ensures SkippedIn(plan, Forget(r, plan[first].ordinal), first)
  {
    hide Distinct;
    ForgetKeeps(r, plan[first].ordinal);
  }

  ghost predicate Says(r: seq<Entry>, o: int) {
    Entry(o, Succeeded) in r
  }

  /** The record and the ledger say "succeeded" of exactly the steps in `kept`. */
  ghost predicate Agrees(r: seq<Entry>, ledger: map<int, StepState>, kept: set<int>) {
    && (forall o :: Says(r, o) <==> o in kept)
    && (forall o :: o in ledger && ledger[o] == Succeeded <==> o in kept)
  }

  lemma RecordAgrees(r: seq<Entry>, ledger: map<int, StepState>, kept: set<int>, o: int, s: StepState)
    requires Distinct(r) && Agrees(r, ledger, kept) && AllBelow(r, o) && o !in kept
    ensures Distinct(r + [Entry(o, s)]) && AllBelow(r + [Entry(o, s)], o + 1)
    ensures Agrees(r + [Entry(o, s)], ledger[o := s], if s == Succeeded then kept + {o} else kept)
  {
    var more := r + [Entry(o, s)];
    forall x
      ensures Says(more, x) <==> Says(r, x) || (x == o && s == Succeeded)
    {
      if Says(r, x) { assert Entry(x, Succeeded) in more; }
      if x == o && s == Succeeded { assert more[|r|] == Entry(x, Succeeded); }
    }
  }

  function LedgerMark(ledger: map<int, StepState>, undone: set<int>): map<int, StepState> {
    map o | o in ledger :: if o in undone && ledger[o] == Succeeded then RolledBack else ledger[o]
  }

  lemma MarkAgrees(r: seq<Entry>, ledger: map<int, StepState>, kept: set<int>, undone: set<int>)
    requires Distinct(r) && Agrees(r, ledger, kept + undone) && kept !! undone
    ensures Distinct(MarkAll(r, undone))
    ensures Agrees(MarkAll(r, undone), LedgerMark(ledger, undone), kept)
    ensures forall o :: o in undone ==> Entry(o, RolledBack) in MarkAll(r, undone)
    ensures forall b :: AllBelow(r, b) ==> AllBelow(MarkAll(r, undone), b)
  {
    var m := MarkAll(r, undone);
    forall o
      ensures Says(m, o) <==> o in kept
      ensures o in undone ==> Entry(o, RolledBack) in m
    {
      if o in kept + undone {
        assert Says(r, o);
        var i :| 0 <= i < |r| && r[i] == Entry(o, Succeeded);
        assert m[i] == Mark(r[i], undone);
      }
      if Says(m, o) {
        var i :| 0 <= i < |m| && m[i] == Entry(o, Succeeded);
        assert r[i] == Entry(o, Succeeded);
        assert Says(r, o);
      }
    }
  }

  lemma ForgetAgrees(r: seq<Entry>, ledger: map<int, StepState>, kept: set<int>, first: int)
    requires Distinct(r) && Agrees(r, ledger, kept) && forall o :: o in kept ==> o < first
    ensures Distinct(Forget(r, first)) && AllBelow(Forget(r, first), first)
    ensures Agrees(Forget(r, first), ledger, kept)
  {
    ForgetKeeps(r, first);
  }

  lemma MarkLastsUnder(r: seq<Entry>, a: int, b: int)
    requires AllBelow(r, a) && a <= b
    ensures AllBelow(r, b)
  {
  }
}
