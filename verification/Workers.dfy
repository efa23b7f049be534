/** Workers at the gate: in which order a worker takes a slot, opens a transaction, closes
    it and drops the slot, and why the gate is part of no wait cycle. */
module Workers {
  import opened Gates

  /** What a worker does that another can come to wait for: comes to the gate, is let
      through with a slot or without, opens a transaction to write or to read, runs a
      statement outside any, closes, drops the slot. */
  datatype Act = Wait | Got(held: bool) | OpenTxn | OpenRead | Exec | CloseTxn | Drop

  datatype Mode = Mode(waiting: bool, slot: bool, txn: bool, admitted: bool)

  const IDLE := Mode(false, false, false, false)

  /** A slot is waited for with no slot held and no transaction open; and what writes has
      been to the gate first. */
  predicate May(m: Mode, a: Act) {
    match a
    case Wait => m == IDLE
    case Got(_) => m.waiting
    case OpenTxn => !m.waiting && !m.txn && m.admitted
    case OpenRead => !m.waiting && !m.txn
    case Exec => !m.waiting && !m.txn && m.admitted
    case CloseTxn => !m.waiting && m.txn
    case Drop => !m.waiting
  }

  function Then(m: Mode, a: Act): (r: Mode) {
    match a
    case Wait => m.(waiting := true)
    case Got(held) => m.(waiting := false, slot := held, admitted := true)
    case OpenTxn => m.(txn := true)
    case OpenRead => m.(txn := true)
    case Exec => m
    case CloseTxn => m.(txn := false)
    case Drop => m.(slot := false, admitted := false)
  }

  function ModeOf(log: seq<Act>): (m: Mode) {
    if log == [] then IDLE else Then(ModeOf(log[..|log| - 1]), log[|log| - 1])
  }

  predicate Disciplined(log: seq<Act>) {
    log == [] || (Disciplined(log[..|log| - 1]) && May(ModeOf(log[..|log| - 1]), log[|log| - 1]))
  }

  lemma Extend(log: seq<Act>, a: Act)
    ensures ModeOf(log + [a]) == Then(ModeOf(log), a)
    ensures Disciplined(log + [a]) <==> Disciplined(log) && May(ModeOf(log), a)
  {
    assert (log + [a])[..|log + [a]| - 1] == log;
  }

  /** Whoever waits at the gate holds no slot and has no transaction open. */
  lemma {:induction false} WaiterHoldsNothing(log: seq<Act>)
    requires Disciplined(log) && ModeOf(log).waiting
    ensures !ModeOf(log).slot && !ModeOf(log).txn
  {
    var front := log[..|log| - 1];
    if ModeOf(front).waiting {
      WaiterHoldsNothing(front);
    }
  }

  /** Whatever is written, in a transaction or outside, was preceded by a visit to the gate
      with nothing of it dropped since. */
  lemma {:induction false} WriterWasAdmitted(log: seq<Act>, n: nat)
    requires Disciplined(log) && n < |log| && (log[n].OpenTxn? || log[n].Exec?)
    ensures exists m :: 0 <= m < n && log[m].Got? && forall k :: m < k < n ==> !log[k].Drop?
  {
    DisciplinedSoFar(log, n + 1);
    assert log[..n + 1][..n] == log[..n];
    AdmittedSince(log[..n]);
    var m :| 0 <= m < n && log[..n][m].Got? && forall k :: m < k < n ==> !log[..n][k].Drop?;
    assert log[m].Got?;
    forall k | m < k < n ensures !log[k].Drop? { assert log[..n][k] == log[k]; }
  }

  lemma {:induction false} AdmittedSince(log: seq<Act>)
    requires ModeOf(log).admitted
    ensures exists m :: 0 <= m < |log| && log[m].Got? && forall k :: m < k < |log| ==> !log[k].Drop?
  {
    var n := |log| - 1;
    if log[n].Got? {
      assert 0 <= n < |log| && log[n].Got?;
    } else {
      var front := log[..n];
      AdmittedSince(front);
      var m :| 0 <= m < n && front[m].Got? && forall k :: m < k < n ==> !front[k].Drop?;
      assert log[m].Got?;
      forall k | m < k < |log| ensures !log[k].Drop? { if k < n { assert front[k] == log[k]; } }
    }
  }

  // --- who waits for whom ----------------------------------------------------------------------

  ghost predicate AllDisciplined(logs: seq<seq<Act>>) {
    forall i :: 0 <= i < |logs| ==> Disciplined(logs[i])
  }

  /** `i` waits for `j`: at the gate for a slot `j` holds, or in a statement for a lock of
      `j`'s transaction. Who waits for whose locks is the server's to say. */
  ghost predicate WaitsFor(logs: seq<seq<Act>>, locks: set<(nat, nat)>, i: nat, j: nat)
    requires i < |logs| && j < |logs|
  {
    || (ModeOf(logs[i]).waiting && ModeOf(logs[j]).slot)
    || ((i, j) in locks && ModeOf(logs[j]).txn)
  }

  ghost predicate WaitCycle(logs: seq<seq<Act>>, locks: set<(nat, nat)>, c: seq<nat>) {
    && c != [] && (forall i :: 0 <= i < |c| ==> c[i] < |logs|)
    && (forall i :: 0 <= i < |c| ==> WaitsFor(logs, locks, c[i], c[if i + 1 < |c| then i + 1 else 0]))
  }

  /** No cycle of waits passes through the gate, whatever the locks. */
  lemma GateInNoCycle(logs: seq<seq<Act>>, locks: set<(nat, nat)>, c: seq<nat>, i: nat)
    requires AllDisciplined(logs) && WaitCycle(logs, locks, c) && i < |c|
    ensures !ModeOf(logs[c[i]]).waiting
  {
    var before := if i == 0 then |c| - 1 else i - 1;
    assert WaitsFor(logs, locks, c[before], c[if before + 1 < |c| then before + 1 else 0]);
    if ModeOf(logs[c[i]]).waiting {
      WaiterHoldsNothing(logs[c[i]]);
    }
  }

  /** So a cycle, if there is one, is of locks alone, which the server sees. */
  lemma CyclesAreTheServers(logs: seq<seq<Act>>, locks: set<(nat, nat)>, c: seq<nat>, i: nat)
    requires AllDisciplined(logs) && WaitCycle(logs, locks, c) && i < |c|
    ensures (c[i], c[if i + 1 < |c| then i + 1 else 0]) in locks
  {
    GateInNoCycle(logs, locks, c, i);
    assert WaitsFor(logs, locks, c[i], c[if i + 1 < |c| then i + 1 else 0]);
  }

  lemma {:induction false} DisciplinedSoFar(log: seq<Act>, n: nat)
    requires Disciplined(log) && n <= |log|
    ensures Disciplined(log[..n])
  {
    if n < |log| {
      DisciplinedSoFar(log[..|log| - 1], n);
      assert log[..|log| - 1][..n] == log[..n];
    } else {
      assert log[..n] == log;
    }
  }

  /** Each worker's acts up to some moment. */
  ghost function SoFar(logs: seq<seq<Act>>, at: seq<nat>): (r: seq<seq<Act>>)
    requires |at| == |logs| && forall i :: 0 <= i < |logs| ==> at[i] <= |logs[i]|
  {
    seq(|logs|, i requires 0 <= i < |logs| => logs[i][..at[i]])
  }

  /** Workers whose whole runs are disciplined: at no moment, however their runs are
      interleaved, does a cycle of waits pass through the gate. */
  lemma NeverThroughTheGate(logs: seq<seq<Act>>, at: seq<nat>, locks: set<(nat, nat)>, c: seq<nat>, i: nat)
    requires AllDisciplined(logs) && |at| == |logs| && forall i :: 0 <= i < |logs| ==> at[i] <= |logs[i]|
    requires WaitCycle(SoFar(logs, at), locks, c) && i < |c|
    ensures !ModeOf(SoFar(logs, at)[c[i]]).waiting
  {
    forall k | 0 <= k < |logs| ensures Disciplined(SoFar(logs, at)[k]) {
      DisciplinedSoFar(logs[k], at[k]);
    }
    GateInNoCycle(SoFar(logs, at), locks, c, i);
  }

  // --- several workers and one gate ---------------------------------------------------------------

  /** Each worker's slot, and what each has done, over any interleaving of their acts. */
  class Process {
    const gate: Gate
    const slots: seq<Slot>
    ghost var logs: seq<seq<Act>>

    ghost function Slots(): (s: set<Slot>) {
      set x | x in slots
    }

    ghost predicate Valid()
      reads this, gate, Slots()
    {
      && |logs| == |slots| && AllDisciplined(logs)
      && (forall i, j :: 0 <= i < j < |slots| ==> slots[i] != slots[j])
      && AllBalanced({gate}, Slots())
      && (forall i :: 0 <= i < |slots| ==> (ModeOf(logs[i]).slot <==> slots[i].gate == gate))
    }

    constructor (gate: Gate, slots: seq<Slot>)
      requires gate.limit == 0 && gate.inFlight == 0 && gate.peak == 0 && gate.highest == 0
      requires forall i, j :: 0 <= i < j < |slots| ==> slots[i] != slots[j]
      requires forall i :: 0 <= i < |slots| ==> slots[i].gate == null
      ensures Valid() && this.gate == gate && this.slots == slots
      ensures forall i :: 0 <= i < |logs| ==> logs[i] == []
    {
      this.gate, this.slots := gate, slots;
      logs := seq(|slots|, i => []);
      new;
      assert HeldOf(OwnersOf(Slots()), gate) == {};
    }

    ghost method Note(i: nat, a: Act)
      requires i < |logs| && AllDisciplined(logs) && May(ModeOf(logs[i]), a)
      modifies this`logs
      ensures |logs| == |old(logs)| && AllDisciplined(logs)
      ensures logs == old(logs)[i := old(logs)[i] + [a]]
      ensures ModeOf(logs[i]) == Then(ModeOf(old(logs)[i]), a)
    {
      Extend(logs[i], a);
      logs := logs[i := logs[i] + [a]];
    }

    /** A worker comes to the gate. */
    method Ask(i: nat)
      requires Valid() && i < |slots| && ModeOf(logs[i]) == IDLE
      modifies this
      ensures Valid() && logs == old(logs)[i := old(logs)[i] + [Wait]]
    {
      Note(i, Wait);
    }

    /** One bounded wait: a slot, or none because there is no ceiling or the job was
        cancelled, or another round. */
    method TryGet(i: nat, cancelled: bool) returns (done: bool)
      requires Valid() && i < |slots| && ModeOf(logs[i]).waiting
      modifies this, gate, slots[i]
      ensures Valid()
      ensures done ==> exists held :: logs == old(logs)[i := old(logs)[i] + [Got(held)]]
      ensures !done ==> logs == old(logs) && gate.limit > 0 && !cancelled && gate.inFlight >= gate.limit
    {
      WaiterHoldsNothing(logs[i]);
      var got := GrantTo(i);
      if got {
        Note(i, Got(true));
        return true;
      }
      if gate.limit <= 0 || cancelled {
        Note(i, Got(false));
        return true;
      }
      return false;
    }

    /** try_acquire_for, and the move of what it returned into the worker's own slot. */
    method GrantTo(i: nat) returns (got: bool)
      requires Valid() && i < |slots| && slots[i].gate == null
      modifies gate, slots[i]
      ensures AllBalanced({gate}, Slots())
      ensures got <==> old(gate.limit > 0 && gate.inFlight < gate.limit)
      ensures gate.limit == old(gate.limit) && (!got ==> gate.inFlight == old(gate.inFlight))
      ensures slots[i].gate == if got then gate else null
    {
      var s := TryAcquire(gate, {gate}, Slots());
      got := s.gate != null;
      MoveAssign(slots[i], s, {gate}, Slots() + {s});
      Discard(s, {gate}, Slots());
    }

    /** What needs no slot variable. */
    method Do(i: nat, a: Act)
      requires Valid() && i < |slots| && May(ModeOf(logs[i]), a) && (a.OpenTxn? || a.OpenRead? || a.Exec? || a.CloseTxn?)
      modifies this
      ensures Valid() && logs == old(logs)[i := old(logs)[i] + [a]]
    {
      Note(i, a);
    }

    method GiveBack(i: nat)
      requires Valid() && i < |slots| && May(ModeOf(logs[i]), Drop)
      modifies this, gate, slots[i]
      ensures Valid() && logs == old(logs)[i := old(logs)[i] + [Drop]]
    {
      TakeFrom(i);
      Note(i, Drop);
    }

    method TakeFrom(i: nat)
      requires Valid() && i < |slots|
      modifies gate, slots[i]
      ensures AllBalanced({gate}, Slots()) && slots[i].gate == null
    {
      hide AllDisciplined, Balanced;
      OnlyThisGate(i);
      Release(slots[i], {gate}, Slots());
    }

    lemma OnlyThisGate(i: nat)
      requires Valid() && i < |slots|
      ensures slots[i] in Slots() && (slots[i].gate == null || slots[i].gate == gate)
    {
    }

    /** Over every interleaving: as many slots are counted as workers hold one, and a
        worker that waits at the gate holds none and has no transaction open. */
    lemma Safe(i: nat)
      requires Valid() && i < |slots| && ModeOf(logs[i]).waiting
      ensures slots[i].gate == null && !ModeOf(logs[i]).txn
      ensures gate.inFlight == |HeldOf(OwnersOf(Slots()), gate)|
    {
      WaiterHoldsNothing(logs[i]);
      OnlyThisGate(i);
    }
  }

  /** A slot that holds nothing can be forgotten. */
  lemma Discard(s: Slot, gates: set<Gate>, slots: set<Slot>)
    requires s !in slots && s.gate == null && AllBalanced(gates, slots + {s})
    ensures AllBalanced(gates, slots)
  {
    forall g | g in gates ensures Balanced(g, OwnersOf(slots)) {
      assert HeldOf(OwnersOf(slots), g) == HeldOf(OwnersOf(slots + {s}), g);
    }
  }
}
