/**
 The pool of local RTP ports.  The pool itself is one list under one lock; who owns a port is spread over the calls,
 and is what has to stay consistent while calls are set up, end and are cleaned up in any interleaving.
 */
module PortPool {
  import opened Bytes

  /** A run of `count` ports from `start` on, inside the range and all free. */
  predicate FreeRun(low: int, high: int, taken: seq<int>, start: int, count: nat) {
    low <= start && start + count - 1 <= high && forall port :: start <= port < start + count ==> port !in taken
  }

  function Run(start: int, count: nat): (ports: seq<int>)
    ensures |ports| == count && forall i :: 0 <= i < count ==> ports[i] == start + i
  {
    seq(count, i requires 0 <= i < count => start + i)
  }

  predicate Distinct(s: seq<int>) {
    forall i, j :: 0 <= i < j < |s| ==> s[i] != s[j]
  }

  function Elements(s: seq<int>): set<int> {
    set p | p in s
  }

  /** list.remove for each of the ports that is there. */
  function Removed(taken: seq<int>, ports: set<int>): seq<int> {
    if taken == [] then []
    else
      var n := |taken| - 1;
      Removed(taken[..n], ports) + if taken[n] in ports then [] else [taken[n]]
  }

  /** The ports of several calls together. */
  function AllOf(calls: seq<seq<int>>): set<int> {
    if calls == [] then {} else AllOf(calls[..|calls| - 1]) + Elements(calls[|calls| - 1])
  }

  datatype Requested = Ports(ports: seq<int>) | NotPositive | TooMany | NoneFree

  datatype ReserveError = DuplicatePorts | OutsideRange | AlreadyAssigned

  /** What `reserve_ports` checks, port by port, before it takes any. */
  function ReserveCheck(low: int, high: int, taken: seq<int>, ports: seq<int>, existing: set<int>): Option<ReserveError> {
    if ports == [] then None
    else
      var before, p := ReserveCheck(low, high, taken, ports[..|ports| - 1], existing), ports[|ports| - 1];
      if before.Some? then before
      else if p < low || p > high then Some(OutsideRange)
      else if p in taken && p !in existing then Some(AlreadyAssigned)
      else None
  }

  class Pool {
    const low: int
    const high: int
    var taken: seq<int>

    ghost predicate Valid()
      reads this
    {
      Distinct(taken) && forall p :: p in taken ==> low <= p <= high
    }

    constructor (low: int, high: int)
      ensures Valid() && this.low == low && this.high == high && taken == []
    {
      this.low, this.high, taken := low, high, [];
    }

    /** The starts of all free runs. */
    method AvailableStarts(count: nat) returns (starts: seq<int>)
      requires count > 0
      ensures forall s :: s in starts <==> FreeRun(low, high, taken, s, count)
    {
      starts := [];
      if count > high - low + 1 {
        return;
      }
      var start := low;
      while start < high - count + 2
        invariant low <= start <= high - count + 2
        invariant forall s :: s in starts <==> s < start && FreeRun(low, high, taken, s, count)
      {
        var free := IsFree(start, count);
        if free {
          starts := starts + [start];
        }
        start := start + 1;
      }
    }

    method IsFree(start: int, count: nat) returns (free: bool)
      ensures free <==> forall port :: start <= port < start + count ==> port !in taken
    {
      var offset := 0;
      while offset < count
        invariant 0 <= offset <= count
        invariant forall port :: start <= port < start + offset ==> port !in taken
      {
        if start + offset in taken {
          return false;
        }
        offset := offset + 1;
      }
      return true;
    }

    /** One attempt of `request_ports`, under the lock; `pick` is the random choice. */
    method TakeRun(count: nat, pick: nat) returns (ports: Option<seq<int>>)
      requires Valid() && count > 0
      modifies this
      ensures Valid()
      ensures ports.None? ==> taken == old(taken) && forall s :: !FreeRun(low, high, taken, s, count)
      ensures ports.Some? ==> exists s :: FreeRun(low, high, old(taken), s, count) && ports.value == Run(s, count)
      ensures ports.Some? ==> taken == old(taken) + ports.value
    {
      var starts := AvailableStarts(count);
      if starts == [] {
        ghost var none := starts;
        assert forall s :: FreeRun(low, high, taken, s, count) ==> s in none;
        return None;
      }
      var start := starts[pick % |starts|];
      assert start in starts && FreeRun(low, high, taken, start, count);
      DistinctJoin(taken, Run(start, count));
      taken := taken + Run(start, count);
      return Some(Run(start, count));
    }

    /**
     `request_ports` without blocking: when nothing is free, calls that have ended give their ports back and it
     tries once more.  Here no other call gets in between the steps.
     */
    method RequestPorts(count: int, ended: seq<seq<int>>, pick: nat, again: nat) returns (r: Requested)
      requires Valid()
      modifies this
      ensures Valid()
      ensures r == NotPositive <==> count <= 0
      ensures r == TooMany <==> 0 < count && high - low + 1 < count
      ensures r == NotPositive || r == TooMany ==> taken == old(taken)
      ensures r == NoneFree ==> taken == Removed(old(taken), AllOf(ended)) && forall s :: !FreeRun(low, high, taken, s, count)
      ensures r.Ports? ==>
                exists s, before ::
                  && (before == old(taken) || (before == Removed(old(taken), AllOf(ended)) && forall t :: !FreeRun(low, high, old(taken), t, count)))
                  && FreeRun(low, high, before, s, count) && r.ports == Run(s, count) && taken == before + r.ports
    {
      if count <= 0 {
        return NotPositive;
      }
      if count > high - low + 1 {
        return TooMany;
      }
      var first := TakeRun(count, pick);
      if first.Some? {
        return Ports(first.value);
      }
      Reclaim(ended);
      ghost var before := taken;
      var second := TakeRun(count, again);
      if second.None? {
        return NoneFree;
      }
      return Ports(second.value);
    }

    /** Finalize each ended call: its ports go back. */
    method Reclaim(ended: seq<seq<int>>)
      requires Valid()
      modifies this
      ensures Valid() && taken == Removed(old(taken), AllOf(ended))
    {
      RemovedNone(taken);
      for i := 0 to |ended|
        invariant Valid() && taken == Removed(old(taken), AllOf(ended[..i]))
      {
        RemovedTwice(old(taken), AllOf(ended[..i]), Elements(ended[i]));
        assert ended[..i + 1][..i] == ended[..i];
        ReleasePorts(ended[i]);
      }
      assert ended[..|ended|] == ended;
    }

    /** `reserve_ports`: all of the ports, or none; `existing` may be assigned already. */
    method ReservePorts(ports: seq<int>, existing: set<int>) returns (error: Option<ReserveError>)
      requires Valid()
      modifies this
      ensures Valid()
      ensures error == if !Distinct(ports) then Some(DuplicatePorts) else ReserveCheck(low, high, old(taken), ports, existing)
      ensures error.Some? ==> taken == old(taken)
      ensures error.None? ==> forall p :: p in taken <==> p in old(taken) || p in ports
    {
      var distinct := AreDistinct(ports);
      if !distinct {
        return Some(DuplicatePorts);
      }
      for i := 0 to |ports|
        invariant taken == old(taken) && ReserveCheck(low, high, taken, ports[..i], existing) == None
      {
        assert ports[..i + 1][..i] == ports[..i];
        if ports[i] < low || ports[i] > high {
          CheckStaysFailed(low, high, taken, ports, existing, i + 1);
          return Some(OutsideRange);
        }
        if ports[i] in taken && ports[i] !in existing {
          CheckStaysFailed(low, high, taken, ports, existing, i + 1);
          return Some(AlreadyAssigned);
        }
      }
      assert ports[..|ports|] == ports;
      CheckedInRange(low, high, taken, ports, existing);
      for i := 0 to |ports|
        invariant Valid() && forall p :: p in taken <==> p in old(taken) || p in ports[..i]
      {
        if ports[i] !in taken {
          taken := taken + [ports[i]];
        }
      }
      return None;
    }

    /** `release_ports` for the ports of one call. */
    method ReleasePorts(ports: seq<int>)
      requires Valid()
      modifies this
      ensures Valid() && taken == Removed(old(taken), Elements(ports))
    {
      RemovedNone(taken);
      assert Elements(ports[..0]) == {};
      for i := 0 to |ports|
        invariant Valid() && taken == Removed(old(taken), Elements(ports[..i]))
      {
        RemovedTwice(old(taken), Elements(ports[..i]), {ports[i]});
        assert Elements(ports[..i + 1]) == Elements(ports[..i]) + {ports[i]};
        RemovedIs(taken, {ports[i]});
        if ports[i] in taken {
          taken := Removed(taken, {ports[i]});
        } else {
          RemovedAbsent(taken, ports[i]);
        }
      }
      assert ports[..|ports|] == ports;
    }
  }

  /** len(set(ports)) == len(ports) */
  method AreDistinct(ports: seq<int>) returns (distinct: bool)
    ensures distinct <==> Distinct(ports)
  {
    var seen: set<int> := {};
    for i := 0 to |ports|
      invariant (forall p :: p in seen <==> p in ports[..i]) && Distinct(ports[..i])
    {
      if ports[i] in seen {
        ghost var j :| 0 <= j < i && ports[..i][j] == ports[i];
        assert ports[j] == ports[i];
        return false;
      }
      seen := seen + {ports[i]};
    }
    assert ports[..|ports|] == ports;
    return true;
  }

  lemma {:induction false} CheckStaysFailed(low: int, high: int, taken: seq<int>, ports: seq<int>, existing: set<int>, i: nat)
    requires i <= |ports| && ReserveCheck(low, high, taken, ports[..i], existing).Some?
    ensures ReserveCheck(low, high, taken, ports, existing) == ReserveCheck(low, high, taken, ports[..i], existing)
  {
    if i < |ports| {
      assert ports[..|ports| - 1][..i] == ports[..i];
      CheckStaysFailed(low, high, taken, ports[..|ports| - 1], existing, i);
    } else {
      assert ports[..i] == ports;
    }
  }

  /** Ports pass the check exactly when they are in range and free or allowed. */
  lemma {:induction false} CheckedInRange(low: int, high: int, taken: seq<int>, ports: seq<int>, existing: set<int>)
    ensures ReserveCheck(low, high, taken, ports, existing) == None
            <==> forall p :: p in ports ==> low <= p <= high && (p in taken ==> p in existing)
  {
    if ports != [] {
      var n := |ports| - 1;
      CheckedInRange(low, high, taken, ports[..n], existing);
      forall p | p in ports
        ensures p in ports[..n] || p == ports[n]
      {
        var i :| 0 <= i < |ports| && ports[i] == p;
        assert i < n ==> ports[..n][i] == p;
      }
      assert forall p :: p in ports[..n] ==> p in ports;
      assert ports[n] in ports;
    }
  }

  /** Otherwise the first port that is not decides the error. */
  lemma {:induction false} RefusedFor(low: int, high: int, taken: seq<int>, ports: seq<int>, existing: set<int>, k: nat)
    requires k < |ports|
    requires ports[k] < low || high < ports[k] || (ports[k] in taken && ports[k] !in existing)
    requires forall j :: 0 <= j < k ==> low <= ports[j] <= high && (ports[j] in taken ==> ports[j] in existing)
    ensures ReserveCheck(low, high, taken, ports, existing) == Some(if low <= ports[k] <= high then AlreadyAssigned else OutsideRange)
  {
    var n := |ports| - 1;
    if k < n {
      RefusedFor(low, high, taken, ports[..n], existing, k);
    } else {
      CheckedInRange(low, high, taken, ports[..n], existing);
    }
  }

  /** A run is free when each of its ports is in range and free. */
  lemma RunIsFreeIff(low: int, high: int, taken: seq<int>, start: int, count: nat)
    requires count > 0
    ensures FreeRun(low, high, taken, start, count) <==> forall p :: p in Run(start, count) ==> low <= p <= high && p !in taken
  {
    var run := Run(start, count);
    assert run[0] == start && run[count - 1] == start + count - 1;
    assert run[0] in run && run[count - 1] in run;
    forall port | start <= port < start + count
      ensures port in run
    {
      assert run[port - start] == port;
    }
  }

  lemma DistinctJoin(a: seq<int>, b: seq<int>)
    requires Distinct(a) && Distinct(b) && forall p :: p in b ==> p !in a
    ensures Distinct(a + b)
  {
    var all := a + b;
    forall i, j | 0 <= i < j < |all|
      ensures all[i] != all[j]
    {
      if i < |a| <= j {
        assert all[j] in b && all[i] in a;
      }
    }
  }

  lemma {:induction false} RemovedIs(taken: seq<int>, ports: set<int>)
    ensures forall p :: p in Removed(taken, ports) <==> p in taken && p !in ports
    ensures Distinct(taken) ==> Distinct(Removed(taken, ports))
  {
    if taken != [] {
      var n := |taken| - 1;
      RemovedIs(taken[..n], ports);
      assert forall p :: p in taken <==> p in taken[..n] || p == taken[n];
    }
  }

  lemma {:induction false} RemovedNone(taken: seq<int>)
    ensures Removed(taken, {}) == taken
  {
    if taken != [] {
      RemovedNone(taken[..|taken| - 1]);
    }
  }

  lemma {:induction false} RemovedTwice(taken: seq<int>, a: set<int>, b: set<int>)
    ensures Removed(Removed(taken, a), b) == Removed(taken, a + b)
  {
    if taken != [] {
      var n := |taken| - 1;
      RemovedTwice(taken[..n], a, b);
      var x, y := Removed(taken, a), Removed(taken[..n], a);
      if taken[n] in a {
        assert x == y;
      } else {
        assert x == y + [taken[n]] && x[..|x| - 1] == y;
      }
    }
  }

  lemma {:induction false} RemovedAbsent(taken: seq<int>, p: int)
    requires p !in taken
    ensures Removed(taken, {p}) == taken
  {
    if taken != [] {
      RemovedAbsent(taken[..|taken| - 1], p);
    }
  }
}
