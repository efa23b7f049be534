/** The operation gate: a counting semaphore whose slots change hands. */
module Gates {

  class Gate {
    var limit: int
    var inFlight: int
    var peak: int
    ghost var highest: int   // the highest limit ever set

    constructor ()
      ensures limit == 0 && inFlight == 0 && peak == 0 && highest == 0
    {
      limit, inFlight, peak, highest := 0, 0, 0, 0;
    }
  }

  class Slot {
    var gate: Gate?

    constructor (g: Gate?)
      ensures gate == g
    {
      gate := g;
    }
  }

  // --- who holds what ---------------------------------------------------------------------

  type Owners = map<Slot, Gate?>

  ghost function OwnersOf(slots: set<Slot>): (m: Owners)
    reads slots
  {
    map s | s in slots :: s.gate
  }

  ghost function HeldOf(m: Owners, g: Gate): (r: set<Slot>) {
    set s | s in m && m[s] == g
  }

  lemma Granted(m: Owners, s: Slot, g: Gate?, h: Gate)
    requires s !in m
    ensures |HeldOf(m[s := g], h)| == |HeldOf(m, h)| + if g == h then 1 else 0
  {
    assert HeldOf(m[s := g], h) == HeldOf(m, h) + if g == h then {s} else {};
  }

  lemma Returned(m: Owners, s: Slot, h: Gate)
    requires s in m
    ensures |HeldOf(m[s := null], h)| == |HeldOf(m, h)| - if m[s] == h then 1 else 0
  {
    assert HeldOf(m[s := null], h) == HeldOf(m, h) - if m[s] == h then {s} else {};
    assert m[s] == h ==> s in HeldOf(m, h);
  }

  /** What `o` held, `s` holds, and `o` holds nothing. */
  ghost function Handed(m: Owners, o: Slot, s: Slot): (r: Owners)
    requires o in m
  {
    var n: Owners := m[o := null];
    n[s := m[o]]
  }

  /** A move takes from one and gives to another: no gate's count changes. */
  lemma Moved(m: Owners, o: Slot, s: Slot, h: Gate)
    requires o in m && o != s && (s in m ==> m[s] == null)
    ensures |HeldOf(Handed(m, o, s), h)| == |HeldOf(m, h)|
  {
    var n: Owners := m[o := null];
    Returned(m, o, h);
    assert HeldOf(n[s := m[o]], h) == HeldOf(n, h) + if m[o] == h then {s} else {};
    assert s !in HeldOf(n, h);
  }

  /** What a gate counts is what is held, and it never counted more than the highest
      limit it was ever given; with a limit never lowered, that is its limit. */
  ghost predicate Balanced(g: Gate, m: Owners)
    reads g
  {
    && g.inFlight == |HeldOf(m, g)|
    && g.inFlight <= g.peak <= g.highest && g.limit <= g.highest
  }

  ghost predicate AllBalanced(gates: set<Gate>, slots: set<Slot>)
    reads gates, slots
  {
    && (forall s :: s in slots && s.gate != null ==> s.gate in gates)
    && (forall g :: g in gates ==> Balanced(g, OwnersOf(slots)))
  }

  // --- what is done with slots ----------------------------------------------------------------

  /** A limit of zero or less is no ceiling. Lowering it interrupts nothing. */
  method Configure(g: Gate, limit: int, ghost gates: set<Gate>, ghost slots: set<Slot>)
    requires g in gates && AllBalanced(gates, slots)
    modifies g`limit, g`highest
    ensures AllBalanced(gates, slots)
    ensures g.limit == limit && g.highest == if limit > old(g.highest) then limit else old(g.highest)
    ensures g.inFlight == old(g.inFlight) && g.peak == old(g.peak)
  {
    g.limit := limit;
    if limit > g.highest { g.highest := limit; }
    hide HeldOf;
    assert OwnersOf(slots) == old(OwnersOf(slots));
  }

  /** At the moment the wait ends: a held slot exactly where a ceiling is set and there
      was room under it. */
  method TryAcquire(g: Gate, ghost gates: set<Gate>, ghost slots: set<Slot>) returns (s: Slot)
    requires g in gates && AllBalanced(gates, slots)
    modifies g`inFlight, g`peak
    ensures fresh(s) && AllBalanced(gates, slots + {s})
    ensures s.gate == if old(g.limit > 0 && g.inFlight < g.limit) then g else null
    ensures s.gate == g ==> g.inFlight == old(g.inFlight) + 1 <= g.limit
    ensures s.gate != g ==> g.inFlight == old(g.inFlight)
    ensures g.peak == if g.inFlight > old(g.peak) then g.inFlight else old(g.peak)
  {
    hide HeldOf;
    ghost var m := OwnersOf(slots);
    if g.limit <= 0 || !(g.inFlight < g.limit) {
      s := new Slot(null);
    } else {
      g.inFlight := g.inFlight + 1;
      if g.inFlight > g.peak { g.peak := g.inFlight; }
      s := new Slot(g);
    }
    assert OwnersOf(slots + {s}) == m[s := s.gate];
    forall h | h in gates ensures Balanced(h, OwnersOf(slots + {s})) {
      Granted(m, s, s.gate, h);
    }
  }

  /** Gives back what is held, once. */
  method Release(s: Slot, ghost gates: set<Gate>, ghost slots: set<Slot>)
    requires s in slots && AllBalanced(gates, slots)
    modifies s, if s.gate == null then {} else {s.gate}
    ensures s.gate == null && AllBalanced(gates, slots)
    ensures old(s.gate) != null ==> old(s.gate).inFlight == old(s.gate.inFlight) - 1
    ensures old(s.gate) != null ==> old(s.gate).peak == old(s.gate.peak) && old(s.gate).limit == old(s.gate.limit)
  {
    hide HeldOf;
    if s.gate == null { return; }
    ghost var m := OwnersOf(slots);
    var g := s.gate;
    g.inFlight := g.inFlight - 1;
    s.gate := null;
    assert OwnersOf(slots) == m[s := null];
    forall h | h in gates ensures Balanced(h, OwnersOf(slots)) {
      Returned(m, s, h);
    }
  }

  /** Construction from another slot: what was held changes hands. */
  method MoveFrom(o: Slot, ghost gates: set<Gate>, ghost slots: set<Slot>) returns (s: Slot)
    requires o in slots && AllBalanced(gates, slots)
    modifies o
    ensures fresh(s) && s.gate == old(o.gate) && o.gate == null
    ensures AllBalanced(gates, slots + {s})
  {
    hide HeldOf;
    ghost var m := OwnersOf(slots);
    s := new Slot(o.gate);
    o.gate := null;
    assert OwnersOf(slots + {s}) == Handed(m, o, s);
    forall h | h in gates ensures Balanced(h, OwnersOf(slots + {s})) {
      Moved(m, o, s, h);
    }
  }

  /** Assignment from another slot: first what was held here is given back. Assigning a
      slot to itself changes nothing. */
  method MoveAssign(s: Slot, o: Slot, ghost gates: set<Gate>, ghost slots: set<Slot>)
    requires s in slots && o in slots && AllBalanced(gates, slots)
    modifies s, o, if s.gate == null then {} else {s.gate}
    ensures AllBalanced(gates, slots)
    ensures s.gate == old(o.gate)
    ensures s != o ==> o.gate == null
    ensures s != o && old(s.gate) != null ==>
              && old(s.gate).inFlight == old(s.gate.inFlight) - 1
              && old(s.gate).peak == old(s.gate.peak) && old(s.gate).limit == old(s.gate.limit)
    ensures s == o ==> unchanged(s) && forall g :: g in gates ==> unchanged(g)
  {
    hide Balanced, HeldOf;
    if s == o { return; }
    Release(s, gates, slots);
    HandOver(s, o, gates, slots);
  }

  method HandOver(s: Slot, o: Slot, ghost gates: set<Gate>, ghost slots: set<Slot>)
    requires s in slots && o in slots && s != o && s.gate == null && AllBalanced(gates, slots)
    modifies s, o
    ensures AllBalanced(gates, slots) && s.gate == old(o.gate) && o.gate == null
  {
    hide HeldOf;
    ghost var m := OwnersOf(slots);
    s.gate := o.gate;
    o.gate := null;
    assert OwnersOf(slots) == Handed(m, o, s);
    forall h | h in gates ensures Balanced(h, OwnersOf(slots)) {
      Moved(m, o, s, h);
    }
  }
}
