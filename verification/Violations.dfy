/** The auditor's violation accumulator (q1_audit.py): bounded output, exact totals. */
module Violations {
  datatype Gate = K0 | K1 | K2 | K3 | K4 | K5

  const GATE_ORDER: seq<Gate> := [K0, K1, K2, K3, K4, K5]
  const MAX_REPORTED: nat := 128

  datatype Fault = Fault(gate: Gate, message: string)

  datatype Line = Message(text: string) | Omitted(count: nat)

  function Messages(texts: seq<string>): (lines: seq<Line>)
    ensures |lines| == |texts|
  {
    seq(|texts|, i requires 0 <= i < |texts| => Message(texts[i]))
  }

  // What a gate reports once it has received `all`: everything, or the first 128 and how many are missing.
  function Reported(all: seq<string>): seq<Line> {
    if |all| <= MAX_REPORTED then Messages(all)
    else Messages(all[..MAX_REPORTED]) + [Omitted(|all| - MAX_REPORTED)]
  }

  // A gate with a violation always reports one, a clean gate reports nothing, the report never exceeds one line
  // over the bound, and the exact total can be read back from it.
  lemma ReportIsHonest(all: seq<string>)
    ensures Reported(all) == [] <==> all == []
    ensures |Reported(all)| <= MAX_REPORTED + 1
    ensures Total(Reported(all)) == |all|
  {
  }

  function Total(lines: seq<Line>): nat {
    if lines != [] && lines[|lines| - 1].Omitted? then |lines| - 1 + lines[|lines| - 1].count else |lines|
  }

  function Position(gate: Gate): nat {
    match gate case K0 => 0 case K1 => 1 case K2 => 2 case K3 => 3 case K4 => 4 case K5 => 5
  }

  // The frozen order lists every gate, in gate order.
  lemma GateInOrder(gate: Gate)
    ensures Position(gate) < |GATE_ORDER| && GATE_ORDER[Position(gate)] == gate && gate in GATE_ORDER
  {
    assert GATE_ORDER[Position(gate)] == gate;
  }

  // What the gates have received once the faults are added in order.
  function AfterFaults(received: map<Gate, seq<string>>, faults: seq<Fault>): (r: map<Gate, seq<string>>)
    requires forall gate: Gate :: gate in received
    ensures forall gate: Gate :: gate in r
  {
    if faults == [] then received else AfterFaults(AfterFault(received, faults[0]), faults[1..])
  }

  function AfterFault(received: map<Gate, seq<string>>, f: Fault): map<Gate, seq<string>>
    requires f.gate in received
  {
    received[f.gate := received[f.gate] + [f.message]]
  }

  // The messages meant for one gate, in order.
  function MessagesFor(faults: seq<Fault>, gate: Gate): seq<string> {
    if faults == [] then []
    else (if faults[0].gate == gate then [faults[0].message] else []) + MessagesFor(faults[1..], gate)
  }

  // Each gate receives exactly its own messages, in order, behind what it had.
  lemma {:induction false} FaultsReachTheirGates(received: map<Gate, seq<string>>, faults: seq<Fault>, gate: Gate)
    requires forall g: Gate :: g in received
    ensures AfterFaults(received, faults)[gate] == received[gate] + MessagesFor(faults, gate)
  {
    if faults != [] {
      FaultsReachTheirGates(AfterFault(received, faults[0]), faults[1..], gate);
    }
  }

  class Accumulator {
    var rows: map<Gate, seq<string>>
    var totals: map<Gate, nat>
    ghost var received: map<Gate, seq<string>>    // everything ever added
    ghost var count: nat                          // and how much of it

    ghost predicate Valid()
      reads this
    {
      && (forall gate: Gate :: gate in rows && gate in totals && gate in received && Keeps(gate))
      && (count == 0 <==> forall gate: Gate :: received[gate] == [])
    }

    ghost predicate Keeps(gate: Gate)
      requires gate in rows && gate in totals && gate in received
      reads this
    {
      && totals[gate] == |received[gate]|
      && rows[gate] == (if |received[gate]| <= MAX_REPORTED then received[gate] else received[gate][..MAX_REPORTED])
    }

    // No gate ever received a violation.
    ghost predicate Clean()
      reads this
    {
      count == 0
    }

    constructor ()
      ensures Valid() && Clean()
    {
      rows := map gate: Gate | gate in GATE_ORDER :: [];
      totals := map gate: Gate | gate in GATE_ORDER :: 0;
      received := map gate: Gate | gate in GATE_ORDER :: [];
      count := 0;
      new;
      forall gate: Gate ensures gate in GATE_ORDER { GateInOrder(gate); }
    }

    method Add(gate: Gate, message: string)
      requires Valid()
      modifies this
      ensures Valid() && !Clean()
      ensures received == AfterFault(old(received), Fault(gate, message)) && count == old(count) + 1
    {
      var kept := rows[gate];
      assert Keeps(gate);
      totals := totals[gate := totals[gate] + 1];
      received := AfterFault(received, Fault(gate, message));
      if |kept| < MAX_REPORTED {
        rows := rows[gate := kept + [message]];
      }
      count := count + 1;
      assert Keeps(gate) && received[gate] != [];
      forall g: Gate | g != gate ensures g in rows && g in totals && g in received && Keeps(g) {
        assert old(Keeps(g));
      }
    }

    method Extend(faults: seq<Fault>)
      requires Valid()
      modifies this
      ensures Valid()
      ensures received == AfterFaults(old(received), faults) && count == old(count) + |faults|
    {
      assert faults[0..] == faults;
      for i := 0 to |faults|
        invariant Valid() && count == old(count) + i
        invariant AfterFaults(received, faults[i..]) == AfterFaults(old(received), faults)
      {
        assert faults[i..][1..] == faults[i + 1..];
        Add(faults[i].gate, faults[i].message);
      }
    }

    method Rows(gate: Gate) returns (lines: seq<Line>)
      requires Valid()
      ensures lines == Reported(received[gate])
    {
      assert Keeps(gate);
      lines := Messages(rows[gate]);
      var omitted := totals[gate] - |rows[gate]|;
      if omitted != 0 {
        lines := lines + [Omitted(omitted)];
      }
    }
  }
}
