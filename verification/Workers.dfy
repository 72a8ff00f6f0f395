/** Child supervision in q1.py: bounded output capture, quiescence, and the bounded restore-lane runner.

    The operating system is a script of arbitrary answers: what each start, wait and poll of a child reports.
    Nothing is assumed about the script, so every contract holds for every behaviour of the children. */
module Workers {
  import opened Wrappers

  // How starting child i ends.  The last two create a process, which the start-up itself then quiesces.
  datatype Spawn = Registered | NoProcess | ExchangeFails

  // What waiting for child i reports: its exit status and its captured output, or an interruption.
  datatype Wait = Exited(code: int, stdout: nat, stdoutOverflow: bool, stderrOverflow: bool) | TimedOut | Interrupted

  datatype System = System(
    spawn: nat -> Spawn,
    wait: nat -> Wait,
    late: nat -> bool,              // a deadline has passed when the runner comes to wait for the child
    expired: (nat, nat) -> bool,    // the grace period has passed at this time of a quiescence
    running: (nat, nat) -> bool)    // a poll of the child at this time reports it live, or fails

  datatype Signal = Terminate(child: nat) | Kill(child: nat)

  datatype Failure = BadLimit | ChildFailed | Unproven

  predicate Clean(w: Wait) {
    w.Exited? && !w.stdoutOverflow && !w.stderrOverflow && w.code == 0 && w.stdout == 0
  }

  class Supervisor {
    const system: System
    var now: nat
    var created: seq<nat>       // children whose process exists, in creation order
    var reaped: set<nat>        // children whose exit status has been seen
    var signals: seq<Signal>
    var active: seq<nat>        // the runner's unfinished children, oldest first
    var finished: nat           // children the runner has waited for successfully
    ghost var peak: nat         // the most children ever active at once

    constructor (system: System)
      ensures this.system == system && created == [] && reaped == {} && signals == [] && active == [] && finished == 0 && peak == 0
    {
      this.system := system;
      now, created, reaped, signals, active, finished, peak := 0, [], {}, [], [], 0, 0;
    }

    // Popen caches the exit status: once seen, a child never reads as running again.
    method Poll(child: nat) returns (live: bool)
      modifies this`now, this`reaped
      ensures live <==> child !in reaped
      ensures reaped == if live then old(reaped) else old(reaped) + {child}
    {
      live := child !in reaped && system.running(child, now);
      if !live {
        reaped := reaped + {child};
      }
      now := now + 1;
    }

    // One pass of terminate or kill over every child still reported live.
    method SignalLive(children: seq<nat>, kill: bool) returns (ghost sent: seq<Signal>)
      requires Distinct(children)
      modifies this`now, this`reaped, this`signals
      ensures old(reaped) <= reaped <= old(reaped) + Elements(children)
      ensures signals == old(signals) + sent
      ensures forall x :: x in sent <==> x == SignalFor(x.child, kill) && x.child in children && x.child !in reaped
    {
      sent := [];
      for k := 0 to |children|
        invariant old(reaped) <= reaped <= old(reaped) + Elements(children[..k])
        invariant signals == old(signals) + sent
        invariant forall x :: x in sent <==> x == SignalFor(x.child, kill) && x.child in children[..k] && x.child !in reaped
      {
        assert children[..k + 1] == children[..k] + [children[k]];
        assert children[k] !in children[..k];
        var live := Poll(children[k]);
        if live {
          signals := signals + [SignalFor(children[k], kill)];
          sent := sent + [SignalFor(children[k], kill)];
        }
      }
      assert children[..|children|] == children;
    }

    // One pass of bounded waits; a wait that is skipped, times out or fails proves nothing.
    method AwaitLive(children: seq<nat>)
      modifies this`now, this`reaped
      ensures old(reaped) <= reaped <= old(reaped) + Elements(children)
    {
      for k := 0 to |children|
        invariant old(reaped) <= reaped <= old(reaped) + Elements(children)
      {
        var live := Poll(children[k]);
        if live && !system.expired(children[k], now) && system.wait(children[k]).Exited? {
          reaped := reaped + {children[k]};
        }
        now := now + 1;
      }
    }

    // Terminates, kills if needed and reaps; returns the children whose exit is unproven.
    method Quiesce(children: seq<nat>) returns (unproven: seq<nat>)
      requires Distinct(children)
      modifies this`now, this`reaped, this`signals
      ensures old(reaped) <= reaped <= old(reaped) + Elements(children)
      ensures forall i :: i in unproven <==> i in children && i !in reaped
      ensures old(signals) <= signals
      ensures forall i | i in unproven :: KilledAfterTerminate(signals[|old(signals)|..], i)
      ensures forall x | x in signals[|old(signals)|..] :: x.child in children && x.child !in old(reaped)
    {
      ghost var first := SignalLive(children, false);
      AwaitLive(children);
      ghost var second := SignalLive(children, true);
      AwaitLive(children);
      unproven := [];
      for k := 0 to |children|
        invariant old(reaped) <= reaped <= old(reaped) + Elements(children)
        invariant forall i :: i in unproven <==> i in children[..k] && i !in reaped
        invariant signals == old(signals) + first + second
        invariant forall i | i in children && i !in reaped :: Terminate(i) in first && Kill(i) in second
      {
        assert children[..k + 1] == children[..k] + [children[k]];
        assert children[k] !in children[..k];
        var live := Poll(children[k]);
        if live {
          unproven := unproven + [children[k]];
        }
      }
      assert children[..|children|] == children;
      assert signals == old(signals) + (first + second);
      forall i | i in unproven ensures KilledAfterTerminate(first + second, i) {
        InOrder(first, second, i);
      }
    }

    // Starts the next launch and quiesces it if its authenticated exchange fails.
    method StartNext(child: nat) returns (ok: bool, lost: bool)
      requires child !in reaped
      modifies this`now, this`reaped, this`signals, this`created, this`active, this`peak
      ensures peak == Max(old(peak), |active|)
      ensures ok == Starts(system, child)
      ensures created == old(created) + if system.spawn(child).NoProcess? then [] else [child]
      ensures active == old(active) + if ok then [child] else []
      ensures old(reaped) <= reaped <= old(reaped) + {child}
      ensures ok ==> reaped == old(reaped)
      ensures lost <==> system.spawn(child).ExchangeFails? && child !in reaped
    {
      lost := false;
      ok := system.spawn(child).Registered?;
      if system.spawn(child).ExchangeFails? {
        created := created + [child];
        var unproven := Quiesce([child]);
        lost := unproven != [];
        assert lost ==> unproven[0] in [child];
        assert child !in reaped ==> child in unproven;
      } else if ok {
        created := created + [child];
        active := active + [child];
      }
      peak := Max(peak, |active|);
    }

    // Waits for one child; only an observed exit proves it.
    method WaitFor(child: nat) returns (ok: bool)
      modifies this`now, this`reaped
      ensures ok <==> Ends(system, child)
      ensures old(reaped) <= reaped <= old(reaped) + {child}
      ensures ok ==> child in reaped
    {
      ok := false;
      if !system.late(child) {
        var w := system.wait(child);
        if w.Exited? {
          reaped := reaped + {child};
          ok := !w.stdoutOverflow && !w.stderrOverflow && w.code == 0 && w.stdout == 0;
        }
      }
      now := now + 1;
    }

    // Quiesces what a failed run still holds; an unproven child replaces the cause.
    method Abandon(started: nat, child: nat, lost: bool) returns (failure: Failure)
      requires finished <= started && active == Range(finished, started)
      requires created == Range(0, started) || (child == started && created == Range(0, started) + [child])
      requires Elements(Range(0, finished)) <= reaped
      requires lost <==> created == Range(0, started) + [child] && child !in reaped
      modifies this`now, this`reaped, this`signals
      ensures failure == if exists i :: i in created && i !in reaped then Unproven else ChildFailed
    {
      var unproven := Quiesce(active);
      failure := if lost || unproven != [] then Unproven else ChildFailed;
      LeftBehind(finished, started, created, reaped, unproven, lost);
    }

    // Waits for a fixed set of children in order; any failure quiesces all of them.
    method WaitExact(children: seq<nat>) returns (r: Result<(), Failure>)
      requires Distinct(children)
      modifies this`now, this`reaped, this`signals
      ensures r.Ok? <==> forall i | i in children :: Ends(system, i)
      ensures r.Ok? ==> Elements(children) <= reaped
      ensures r.Err? ==> r.error == if exists i :: i in children && i !in reaped then Unproven else ChildFailed
    {
      for k := 0 to |children|
        invariant forall j | 0 <= j < k :: Ends(system, children[j]) && children[j] in reaped
      {
        var ok := WaitFor(children[k]);
        if !ok {
          assert !Ends(system, children[k]);
          var unproven := Quiesce(children);
          if unproven != [] {
            assert unproven[0] in unproven;
            return Err(Unproven);
          }
          return Err(ChildFailed);
        }
      }
      return Ok(());
    }

    // What a run of launches 0..n-1 leaves behind, by the closed form of Walk.
    ghost predicate Outcome(n: nat, limit: nat, r: Result<(), Failure>)
      requires limit > 0
      reads this
    {
      && peak <= limit
      && (match Walk(system, n, limit, 0, 0)
          case AllDone =>
            r == Ok(()) && finished == n && created == Range(0, n) && reaped == Elements(created) && active == []
          case SpawnStopped(f, k) =>
            && r.Err? && finished == f && active == Range(f, k)
            && created == Range(0, k) + if system.spawn(k).NoProcess? then [] else [k]
          case WaitStopped(f, k) =>
            r.Err? && finished == f && active == Range(f, k) && created == Range(0, k))
      && (r.Err? ==> r.error == if exists i :: i in created && i !in reaped then Unproven else ChildFailed)
    }

    // The state between two events of a run that has not stopped.
    ghost predicate Between(n: nat, limit: nat, started: nat)
      reads this
    {
      && 0 < limit && finished <= started <= Min(n, finished + limit)
      && active == Range(finished, started) && created == Range(0, started) && peak <= limit
      && reaped == Elements(Range(0, finished))
      && Walk(system, n, limit, 0, 0) == Walk(system, n, limit, finished, started)
    }

    method StartOne(n: nat, limit: nat, started: nat) returns (failure: Option<Failure>)
      requires Between(n, limit, started) && started < n && started - finished < limit
      modifies this
      ensures failure.None? ==> Between(n, limit, started + 1) && finished == old(finished)
      ensures failure.Some? ==> Outcome(n, limit, Err(failure.value))
    {
      assert started !in reaped;
      var ok, lost := StartNext(started);
      if !ok {
        var f := Abandon(started, started, lost);
        return Some(f);
      }
      return None;
    }

    method FinishOldest(n: nat, limit: nat, started: nat) returns (failure: Option<Failure>)
      requires Between(n, limit, started) && active != [] && started == Min(n, finished + limit)
      modifies this
      ensures failure.None? ==> Between(n, limit, started) && finished == old(finished) + 1
      ensures failure.Some? ==> Outcome(n, limit, Err(failure.value))
    {
      var ok := WaitFor(active[0]);
      if !ok {
        var f := Abandon(started, started, false);
        return Some(f);
      }
      active := active[1..];
      RangeGrows(finished);
      finished := finished + 1;
      return None;
    }

    // Runs launches 0..n-1 with at most `limit` active.
    method RunBounded(n: nat, limit: int) returns (r: Result<(), Failure>)
      requires created == [] && reaped == {} && active == [] && finished == 0 && peak == 0
      modifies this
      ensures limit <= 0 ==> r == Err(BadLimit) && created == []
      ensures limit > 0 ==> Outcome(n, limit, r)
    {
      if limit <= 0 {
        return Err(BadLimit);
      }
      var started := 0;
      while |active| < limit && started < n
        invariant finished == 0 && Between(n, limit, started)
        decreases n - started
      {
        var failure := StartOne(n, limit, started);
        if failure.Some? {
          return Err(failure.value);
        }
        started := started + 1;
      }
      while active != []
        invariant Between(n, limit, started) && started == Min(n, finished + limit)
        decreases n - finished
      {
        var failure := FinishOldest(n, limit, started);
        if failure.Some? {
          return Err(failure.value);
        }
        if started < n {
          failure := StartOne(n, limit, started);
          if failure.Some? {
            return Err(failure.value);
          }
          started := started + 1;
        }
      }
      return Ok(());
    }
  }

  lemma RangeGrows(n: nat)
    ensures Range(0, n + 1) == Range(0, n) + [n] && Elements(Range(0, n + 1)) == Elements(Range(0, n)) + {n}
  {
    assert Range(0, n + 1)[n] == n;
    forall i | i in Elements(Range(0, n)) ensures i in Elements(Range(0, n + 1)) {
      assert Range(0, n + 1)[i] == i;
    }
  }

  // The children in [from, until) in launch order.
  // After quiescing the active children, someone is left exactly if the quiescing, or the failed exchange, left someone.
  lemma LeftBehind(finished: nat, started: nat, created: seq<nat>, reaped: set<nat>, unproven: seq<nat>, lost: bool)
    requires finished <= started && Elements(Range(0, finished)) <= reaped
    requires created == Range(0, started) || created == Range(0, started) + [started]
    requires forall i :: i in unproven <==> i in Range(finished, started) && i !in reaped
    requires lost <==> created == Range(0, started) + [started] && started !in reaped
    ensures (lost || unproven != []) <==> exists i :: i in created && i !in reaped
  {
    RangeMembers(finished, started);
    RangeMembers(0, started);
    RangeMembers(0, finished);
    assert forall i | i in Range(0, finished) :: i in Elements(Range(0, finished));
    if lost {
      assert created[started] == started;
    } else if unproven != [] {
      assert unproven[0] in unproven && unproven[0] in Range(0, started) && unproven[0] in created;
    }
    if i :| i in created && i !in reaped {
      assert i == started || i in Range(finished, started);
      assert i != started ==> i in unproven;
    }
  }

  lemma RangeMembers(from: nat, until: nat)
    requires from <= until
    ensures forall i :: i in Range(from, until) <==> from <= i < until
  {
    forall i | from <= i < until ensures i in Range(from, until) {
      assert Range(from, until)[i - from] == i;
    }
  }

  function Range(from: nat, until: nat): (r: seq<nat>)
    requires from <= until
    ensures |r| == until - from && forall k | 0 <= k < |r| :: r[k] == from + k
  {
    seq(until - from, k requires 0 <= k < until - from => from + k)
  }

  // ---------------------------------------------------------------- where a bounded run stops

  datatype Stop = AllDone | SpawnStopped(finished: nat, started: nat) | WaitStopped(finished: nat, started: nat)

  predicate Starts(sys: System, i: nat) {
    sys.spawn(i).Registered?
  }

  predicate Ends(sys: System, i: nat) {
    !sys.late(i) && Clean(sys.wait(i))
  }

  // Fill the pool, then wait for the oldest child and refill, until a start or a wait fails.
  function Walk(sys: System, n: nat, limit: nat, finished: nat, started: nat): (stop: Stop)
    requires 0 < limit && finished <= started <= n && started - finished <= limit
    ensures stop.SpawnStopped? || stop.WaitStopped? ==> stop.finished <= stop.started <= n
    decreases (n - finished) + (n - started)
  {
    if started < n && started - finished < limit then
      if Starts(sys, started) then Walk(sys, n, limit, finished, started + 1) else SpawnStopped(finished, started)
    else if finished == started then AllDone
    else if Ends(sys, finished) then Walk(sys, n, limit, finished + 1, started)
    else WaitStopped(finished, started)
  }

  function Min(a: int, b: int): int { if a <= b then a else b }
  function Max(a: int, b: int): int { if a <= b then b else a }

  // The closed form of a run: everything before the stopping event went well, the event itself did not,
  // and the numbers of started and finished children are determined by it.
  lemma {:induction false} WalkStops(sys: System, n: nat, limit: nat, finished: nat, started: nat)
    requires 0 < limit && finished <= started <= Min(n, finished + limit)
    requires finished > 0 ==> started >= Min(n, finished - 1 + limit)
    requires forall i | 0 <= i < started :: Starts(sys, i)
    requires forall i | 0 <= i < finished :: Ends(sys, i)
    ensures match Walk(sys, n, limit, finished, started)
      case AllDone => forall i | 0 <= i < n :: Starts(sys, i) && Ends(sys, i)
      case SpawnStopped(f, k) =>
        && k < n && !Starts(sys, k) && (forall i | 0 <= i < k :: Starts(sys, i))
        && f == Max(0, k + 1 - limit) && (forall i | 0 <= i < f :: Ends(sys, i))
      case WaitStopped(f, k) =>
        && f < k == Min(n, f + limit) && !Ends(sys, f) && (forall i | 0 <= i < f :: Ends(sys, i))
        && (forall i | 0 <= i < k :: Starts(sys, i))
    decreases (n - finished) + (n - started)
  {
    if started < n && started - finished < limit {
      if Starts(sys, started) {
        WalkStops(sys, n, limit, finished, started + 1);
      }
    } else if finished != started && Ends(sys, finished) {
      WalkStops(sys, n, limit, finished + 1, started);
    }
  }

  // The runner returns normally exactly when every child starts and ends well.
  lemma RunSucceedsExactly(sys: System, n: nat, limit: nat)
    requires limit > 0
    ensures Walk(sys, n, limit, 0, 0).AllDone? <==> forall i | 0 <= i < n :: Starts(sys, i) && Ends(sys, i)
  {
    WalkStops(sys, n, limit, 0, 0);
  }

  lemma InOrder(first: seq<Signal>, second: seq<Signal>, i: nat)
    requires Terminate(i) in first && Kill(i) in second
    ensures KilledAfterTerminate(first + second, i)
  {
    var a :| 0 <= a < |first| && first[a] == Terminate(i);
    var b :| 0 <= b < |second| && second[b] == Kill(i);
    assert (first + second)[a] == Terminate(i);
    assert (first + second)[|first| + b] == Kill(i);
  }

  predicate Distinct(s: seq<nat>) {
    forall i, j | 0 <= i < j < |s| :: s[i] != s[j]
  }

  function Elements(s: seq<nat>): set<nat> {
    set i | i in s
  }

  function SignalFor(child: nat, kill: bool): Signal {
    if kill then Kill(child) else Terminate(child)
  }

  // The child was sent terminate and, later, kill.
  ghost predicate KilledAfterTerminate(signals: seq<Signal>, child: nat) {
    exists a, b :: 0 <= a < b < |signals| && signals[a] == Terminate(child) && signals[b] == Kill(child)
  }

  // ---------------------------------------------------------------- bounded output capture

  const TAIL_BYTES: nat := 2000

  function Tail<T>(s: seq<T>, n: nat): seq<T> {
    if |s| <= n then s else s[|s| - n..]
  }

  lemma TailStep<T>(s: seq<T>, chunk: seq<T>, n: nat)
    ensures Tail(Tail(s, n) + chunk, n) == Tail(s + chunk, n)
  {
  }

  // Drains one child stream into a bounded tail; `observed` saturates just above the allowance.
  class BoundedCapture<T(==)> {
    const maxBytes: nat
    var tail: seq<T>
    var observed: nat
    var overflow: bool
    ghost var stream: seq<T>    // everything drained so far

    ghost predicate Valid()
      reads this
    {
      && tail == Tail(stream, TAIL_BYTES)
      && observed == Min(maxBytes + 1, |stream|)
      && (overflow <==> |stream| > maxBytes)
    }

    constructor (maxBytes: nat)
      ensures Valid() && stream == [] && this.maxBytes == maxBytes
    {
      this.maxBytes := maxBytes;
      tail, observed, overflow, stream := [], 0, false, [];
    }

    method Record(chunk: seq<T>) returns (full: bool)
      requires Valid()
      modifies this
      ensures Valid() && stream == old(stream) + chunk
      ensures full <==> |stream| > maxBytes
    {
      TailStep(stream, chunk, TAIL_BYTES);
      observed := Min(maxBytes + 1, observed + |chunk|);
      tail := tail + chunk;
      if |tail| > TAIL_BYTES {
        tail := tail[|tail| - TAIL_BYTES..];
      }
      if observed > maxBytes {
        overflow := true;
      }
      stream := stream + chunk;
      full := overflow;
    }
  }
}
