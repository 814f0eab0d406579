/**
 Who owns the ports of the pool.  A step is what one thread does while it holds a lock; steps of any number of calls
 interleave freely.  A call first draws ports from the pool and then, in a step of its own, records them; an ended
 call is finalized in three steps: it is marked, its recorded ports go back to the pool, and its record is cleared.
 */
module PortOwners {
  import opened Bytes
  import opened PortPool

  datatype Call = Call(ports: set<int>, drawn: set<int>, ended: bool, finalized: bool, released: bool)

  datatype Phone = Phone(low: int, high: int, taken: seq<int>, calls: map<nat, Call>)

  datatype Step =
    | Begin(call: nat)
    | Draw(call: nat, start: int, count: nat)
    | Refuse(call: nat, count: nat)
    | Reserve(call: nat, ports: seq<int>, existing: set<int>)
    | Record(call: nat)
    | GiveBack(call: nat)
    | End(call: nat)
    | Mark(call: nat)
    | Release(call: nat)
    | Clear(call: nat)

  /** What a call owns: nothing any more once its ports have gone back. */
  function Owns(c: Call): set<int> {
    if c.released then {} else c.ports + c.drawn
  }

  ghost predicate Same(p: Phone, p': Phone, k: nat, c: Call) {
    p' == Phone(p.low, p.high, p'.taken, p.calls[k := c])
  }

  /** One step of the phone. */
  ghost predicate Next(p: Phone, step: Step, p': Phone) {
    var k := step.call;
    if step.Begin? then k !in p.calls && Same(p, p', k, Call({}, {}, false, false, false)) && p'.taken == p.taken
    else
      && k in p.calls
      && var c := p.calls[k];
         match step
         case Draw(_, start, count) =>
           && count > 0 && FreeRun(p.low, p.high, p.taken, start, count)
           && p'.taken == p.taken + Run(start, count)
           && Same(p, p', k, c.(drawn := c.drawn + Elements(Run(start, count))))
         case Refuse(_, count) => p' == p && forall start :: !FreeRun(p.low, p.high, p.taken, start, count)
         case Reserve(_, ports, existing) =>
           && (c.released || existing <= c.ports) && Distinct(ports)
           && ReserveCheck(p.low, p.high, p.taken, ports, existing) == None
           && Distinct(p'.taken) && Elements(p'.taken) == Elements(p.taken) + Elements(ports)
           && Same(p, p', k, c.(drawn := c.drawn + Elements(ports)))
         case Record(_) => p'.taken == p.taken && Same(p, p', k, c.(ports := c.ports + c.drawn, drawn := {}))
         case GiveBack(_) =>
           c.ports == {} && !c.ended && p'.taken == Removed(p.taken, c.drawn) && Same(p, p', k, c.(drawn := {}))
         case End(_) => p'.taken == p.taken && Same(p, p', k, c.(ended := true))
         case Mark(_) => c.ended && !c.finalized && p'.taken == p.taken && Same(p, p', k, c.(finalized := true))
         case Release(_) =>
           c.finalized && !c.released && p'.taken == Removed(p.taken, c.ports) && Same(p, p', k, c.(released := true))
         case Clear(_) => c.released && p'.taken == p.taken && Same(p, p', k, c.(ports := {}))
  }

  ghost predicate IsRun(states: seq<Phone>, steps: seq<Step>) {
    |states| == |steps| + 1 && forall i :: 0 <= i < |steps| ==> Next(states[i], steps[i], states[i + 1])
  }

  /** No port twice or out of range; what calls own is taken, and no two calls own the same port. */
  ghost predicate Consistent(p: Phone) {
    && Distinct(p.taken) && (forall port :: port in p.taken ==> p.low <= port <= p.high)
    && (forall k :: k in p.calls ==> Owns(p.calls[k]) <= Elements(p.taken))
    && (forall k, l :: k in p.calls && l in p.calls && k != l ==> Owns(p.calls[k]) !! Owns(p.calls[l]))
    && (forall k :: k in p.calls ==> (p.calls[k].released ==> p.calls[k].finalized) && (p.calls[k].finalized ==> p.calls[k].ended))
  }

  /** Taking free ports for one call keeps everyone's ports apart. */
  lemma TakingIsConsistent(p: Phone, p': Phone, k: nat, c: Call, more: set<int>)
    requires Consistent(p) && k in p.calls && Same(p, p', k, c)
    requires Distinct(p'.taken) && Elements(p'.taken) == Elements(p.taken) + more
    requires forall port :: port in more ==> p.low <= port <= p.high
    requires Owns(c) <= Owns(p.calls[k]) + more && forall l :: l in p.calls && l != k ==> Owns(p.calls[l]) !! Owns(c)
    requires c.released == p.calls[k].released && c.finalized == p.calls[k].finalized && c.ended == p.calls[k].ended
    ensures Consistent(p')
  {
    hide Owns, Distinct;
    forall port | port in p'.taken
      ensures p.low <= port <= p.high
    {
      assert port in Elements(p'.taken);
      assert port in Elements(p.taken) ==> port in p.taken;
    }
  }

  lemma DrawIsConsistent(p: Phone, step: Step, p': Phone)
    requires Consistent(p) && step.Draw? && Next(p, step, p')
    ensures Consistent(p')
  {
    var k, more := step.call, Elements(Run(step.start, step.count));
    DistinctJoin(p.taken, Run(step.start, step.count));
    forall l | l in p.calls
      ensures Owns(p.calls[l]) !! more
    {
      assert forall port :: port in Owns(p.calls[l]) ==> port in Elements(p.taken) && port in p.taken;
    }
    TakingIsConsistent(p, p', k, p'.calls[k], more);
  }

  lemma ReserveIsConsistent(p: Phone, step: Step, p': Phone)
    requires Consistent(p) && step.Reserve? && Next(p, step, p')
    ensures Consistent(p')
  {
    var k, c := step.call, p.calls[step.call];
    CheckedInRange(p.low, p.high, p.taken, step.ports, step.existing);
    var more := Elements(step.ports);
    forall l | l in p.calls && l != k && !c.released
      ensures Owns(p.calls[l]) !! more
    {
      forall port | port in Owns(p.calls[l])
        ensures port !in more
      {
        assert port in Elements(p.taken);
        assert port in step.existing ==> port in Owns(c);
      }
    }
    TakingIsConsistent(p, p', k, p'.calls[k], more);
  }

  /** Giving back what one call owns leaves the others theirs. */
  lemma GivingIsConsistent(p: Phone, p': Phone, k: nat, c: Call, less: set<int>)
    requires Consistent(p) && k in p.calls && Same(p, p', k, c)
    requires p'.taken == Removed(p.taken, less) && less <= Owns(p.calls[k]) && Owns(c) == {}
    requires (c.released ==> c.finalized) && (c.finalized ==> c.ended)
    ensures Consistent(p')
  {
    RemovedIs(p.taken, less);
    hide Distinct, Removed;
    forall l | l in p'.calls
      ensures Owns(p'.calls[l]) <= Elements(p'.taken)
    {
      if l != k {
        assert Owns(p.calls[l]) !! Owns(p.calls[k]);
        forall port | port in Owns(p.calls[l])
          ensures port in Elements(p'.taken)
        {
          assert port in Elements(p.taken) && port !in less;
          assert port in p'.taken;
        }
      }
    }
  }

  lemma GiveBackIsConsistent(p: Phone, step: Step, p': Phone)
    requires Consistent(p) && step.GiveBack? && Next(p, step, p')
    ensures Consistent(p')
  {
    GivingIsConsistent(p, p', step.call, p'.calls[step.call], p.calls[step.call].drawn);
  }

  lemma ReleaseIsConsistent(p: Phone, step: Step, p': Phone)
    requires Consistent(p) && step.Release? && Next(p, step, p')
    ensures Consistent(p')
  {
    GivingIsConsistent(p, p', step.call, p'.calls[step.call], p.calls[step.call].ports);
  }

  /** A step that takes no ports and gives none back. */
  lemma KeepingIsConsistent(p: Phone, step: Step, p': Phone)
    requires Consistent(p) && Next(p, step, p')
    requires step.Begin? || step.Refuse? || step.Record? || step.End? || step.Mark? || step.Clear?
    ensures Consistent(p')
  {
  }

  /** What every step keeps. */
  lemma StepIsConsistent(p: Phone, step: Step, p': Phone)
    requires Consistent(p) && Next(p, step, p')
    ensures Consistent(p')
  {
    hide *;
    match step {
      case Draw(_, _, _) => DrawIsConsistent(p, step, p');
      case Reserve(_, _, _) => ReserveIsConsistent(p, step, p');
      case GiveBack(_) => GiveBackIsConsistent(p, step, p');
      case Release(_) => ReleaseIsConsistent(p, step, p');
      case _ => KeepingIsConsistent(p, step, p');
    }
  }

  ghost predicate Starts(p: Phone) {
    p.taken == [] && p.calls == map[]
  }

  lemma StartIsConsistent(p: Phone)
    requires Starts(p)
    ensures Consistent(p) && NoneLost(p)
  {
  }

  /** In every interleaving: the pool has no duplicate or out-of-range port, and calls own disjoint ports. */
  lemma {:induction false} AlwaysConsistent(states: seq<Phone>, steps: seq<Step>, n: nat)
    requires IsRun(states, steps) && Starts(states[0]) && n < |states|
    ensures Consistent(states[n])
  {
    if n == 0 {
      StartIsConsistent(states[0]);
    } else {
      AlwaysConsistent(states, steps, n - 1);
      StepIsConsistent(states[n - 1], steps[n - 1], states[n]);
    }
  }

  // ------------------------------------------------------------------ ports without an owner

  /** Every taken port is owned: none is lost to the pool. */
  ghost predicate NoneLost(p: Phone) {
    forall port :: port in p.taken ==> exists k :: k in p.calls && port in Owns(p.calls[k])
  }

  /** A call that has given its ports back takes more, or gives back its ports before it has recorded them all. */
  ghost predicate Loses(p: Phone, step: Step) {
    step.call in p.calls &&
    var c := p.calls[step.call];
    match step
    case Draw(_, _, _) => c.released
    case Reserve(_, ports, _) => c.released && exists port :: port in ports && port !in p.taken
    case Release(_) => !(c.drawn <= c.ports)
    case _ => false
  }

  lemma OwnerStays(p: Phone, p': Phone, k: nat, c: Call, port: int)
    requires Same(p, p', k, c) && (k in p.calls ==> Owns(p.calls[k]) <= Owns(c))
    requires exists l :: l in p.calls && port in Owns(p.calls[l])
    ensures exists l :: l in p'.calls && port in Owns(p'.calls[l])
  {
    hide Owns;
    var l :| l in p.calls && port in Owns(p.calls[l]);
    assert l in p'.calls && port in Owns(p'.calls[l]);
  }

  lemma GivingLosesNone(p: Phone, p': Phone, k: nat, c: Call)
    requires NoneLost(p) && k in p.calls && Same(p, p', k, c) && p'.taken == Removed(p.taken, Owns(p.calls[k]))
    ensures NoneLost(p')
  {
    RemovedIs(p.taken, Owns(p.calls[k]));
    hide Owns, Removed;
    forall port | port in p'.taken
      ensures exists l :: l in p'.calls && port in Owns(p'.calls[l])
    {
      var l :| l in p.calls && port in Owns(p.calls[l]);
      assert l in p'.calls && port in Owns(p'.calls[l]);
    }
  }

  lemma KeepingLosesNone(p: Phone, p': Phone, k: nat, c: Call)
    requires NoneLost(p) && Same(p, p', k, c) && (k in p.calls ==> Owns(p.calls[k]) <= Owns(c))
    requires forall port :: port in p'.taken ==> port in p.taken || port in Owns(c)
    ensures NoneLost(p')
  {
    hide Owns;
    forall port | port in p'.taken
      ensures exists l :: l in p'.calls && port in Owns(p'.calls[l])
    {
      if port in Owns(c) {
        assert k in p'.calls && port in Owns(p'.calls[k]);
      } else {
        OwnerStays(p, p', k, c, port);
      }
    }
  }

  lemma KeptByOthers(p: Phone, step: Step, p': Phone)
    requires Consistent(p) && NoneLost(p) && Next(p, step, p') && !Loses(p, step)
    ensures NoneLost(p')
  {
    var k := step.call;
    match step {
      case Refuse(_, _) =>
      case GiveBack(_) =>
        assert !p.calls[k].released && Owns(p.calls[k]) == p.calls[k].drawn;
        hide Consistent, NoneLost;
        GivingLosesNone(p, p', k, p'.calls[k]);
      case Release(_) =>
        assert Owns(p.calls[k]) == p.calls[k].ports;
        hide Consistent, NoneLost;
        GivingLosesNone(p, p', k, p'.calls[k]);
      case Reserve(_, ports, _) =>
        hide Consistent, NoneLost;
        forall port | port in p'.taken
          ensures port in p.taken || port in ports
        {
          assert port in Elements(p'.taken);
          assert port in Elements(p.taken) || port in Elements(ports);
        }
        KeepingLosesNone(p, p', k, p'.calls[k]);
      case _ =>
        hide Consistent, NoneLost;
        KeepingLosesNone(p, p', k, p'.calls[k]);
    }
  }

  /** A port that is taken but owned by no call is lost. */
  lemma NobodyOwns(p: Phone, p': Phone, k: nat, port: int)
    requires k in p.calls && k in p'.calls && Same(p, p', k, p'.calls[k]) && p'.calls[k].released && port in p'.taken
    requires forall l :: l in p.calls && l != k ==> port !in Owns(p.calls[l])
    ensures !NoneLost(p')
  {
    forall l | l in p'.calls
      ensures port !in Owns(p'.calls[l])
    {
    }
  }

  lemma LostByReserve(p: Phone, step: Step, p': Phone)
    requires Consistent(p) && step.Reserve? && Next(p, step, p') && Loses(p, step)
    ensures !NoneLost(p')
  {
    var port :| port in step.ports && port !in p.taken;
    assert port in Elements(step.ports) && port in Elements(p'.taken);
    forall l | l in p.calls && l != step.call
      ensures port !in Owns(p.calls[l])
    {
      assert port !in Elements(p.taken);
    }
    hide Consistent, Owns;
    NobodyOwns(p, p', step.call, port);
  }

  lemma LostByDraw(p: Phone, step: Step, p': Phone)
    requires Consistent(p) && step.Draw? && Next(p, step, p') && Loses(p, step)
    ensures !NoneLost(p')
  {
    var port := step.start;
    assert Run(step.start, step.count)[0] == port && port in p'.taken && port !in p.taken;
    forall l | l in p.calls && l != step.call
      ensures port !in Owns(p.calls[l])
    {
      assert port !in Elements(p.taken);
    }
    hide Consistent, Owns;
    NobodyOwns(p, p', step.call, port);
  }

  lemma LostByRelease(p: Phone, step: Step, p': Phone)
    requires Consistent(p) && step.Release? && Next(p, step, p') && Loses(p, step)
    ensures !NoneLost(p')
  {
    var k, c := step.call, p.calls[step.call];
    var port :| port in c.drawn && port !in c.ports;
    RemovedIs(p.taken, c.ports);
    assert port in Owns(c) && port in Elements(p.taken) && port in p.taken && port in p'.taken;
    forall l | l in p.calls && l != k
      ensures port !in Owns(p.calls[l])
    {
      assert Owns(p.calls[l]) !! Owns(p.calls[k]);
    }
    hide Consistent, Owns;
    NobodyOwns(p, p', k, port);
  }

  /** Exactly which steps lose a port. */
  lemma StepLosesIff(p: Phone, step: Step, p': Phone)
    requires Consistent(p) && NoneLost(p) && Next(p, step, p')
    ensures NoneLost(p') <==> !Loses(p, step)
  {
    hide Consistent, NoneLost, Next;
    if !Loses(p, step) {
      KeptByOthers(p, step, p');
    } else {
      match step
      case Draw(_, _, _) => LostByDraw(p, step, p');
      case Reserve(_, _, _) => LostByReserve(p, step, p');
      case Release(_) => LostByRelease(p, step, p');
    }
  }

  /** In a run the taken ports are all along exactly the ones that calls own, if and only if no step is one that loses any. */
  lemma {:induction false} NoneIsEverLostIff(states: seq<Phone>, steps: seq<Step>, n: nat)
    requires IsRun(states, steps) && Starts(states[0]) && n < |states|
    ensures (forall i :: 0 <= i <= n ==> NoneLost(states[i])) <==> forall i :: 0 <= i < n ==> !Loses(states[i], steps[i])
  {
    hide NoneLost, Loses, Next, Starts;
    if n == 0 {
      StartIsConsistent(states[0]);
    } else {
      NoneIsEverLostIff(states, steps, n - 1);
      AlwaysConsistent(states, steps, n - 1);
      if forall i :: 0 <= i < n ==> NoneLost(states[i]) {
        assert NoneLost(states[n - 1]);
        StepLosesIff(states[n - 1], steps[n - 1], states[n]);
      } else {
        var i :| 0 <= i < n && !NoneLost(states[i]);
        var k :| 0 <= k < n - 1 && Loses(states[k], steps[k]);
      }
    }
  }

  // ------------------------------------------------------------------ how ports get lost

  /** A phone with one call, and that call's fields. */
  function OneCall(taken: seq<int>, c: Call): Phone {
    Phone(10, 20, taken, map[0 := c])
  }

  /**
   An outgoing call has a port for its media; its answer asks for two, so it reserves the port after it.  Before it
   records that one the call is cancelled and finalized.
   */
  const LosingSteps: seq<Step> :=
    [Begin(0), Draw(0, 10, 1), Record(0), Reserve(0, [10, 11], {10}), End(0), Mark(0), Release(0)]

  const LosingStates: seq<Phone> :=
    [Phone(10, 20, [], map[]),
     OneCall([], Call({}, {}, false, false, false)),
     OneCall([10], Call({}, {10}, false, false, false)),
     OneCall([10], Call({10}, {}, false, false, false)),
     OneCall([10, 11], Call({10}, {10, 11}, false, false, false)),
     OneCall([10, 11], Call({10}, {10, 11}, true, false, false)),
     OneCall([10, 11], Call({10}, {10, 11}, true, true, false)),
     OneCall([11], Call({10}, {10, 11}, true, true, true))]

  lemma DrawsTen()
    ensures Next(LosingStates[1], LosingSteps[1], LosingStates[2])
  {
    assert Run(10, 1) == [10] && Elements([10]) == {10} && {} + {10} == {10};
    assert map[0 := Call({}, {}, false, false, false)][0 := Call({}, {10}, false, false, false)] == LosingStates[2].calls;
  }

  lemma RecordsTen()
    ensures Next(LosingStates[2], LosingSteps[2], LosingStates[3])
  {
    assert {} + {10} == {10};
    assert LosingStates[2].calls[0 := Call({10}, {}, false, false, false)] == LosingStates[3].calls;
  }

  lemma ReservesEleven()
    ensures Next(LosingStates[3], LosingSteps[3], LosingStates[4])
  {
    assert Elements([10, 11]) == {10, 11} && Elements([10]) == {10} && {} + {10, 11} == {10, 11};
    CheckedInRange(10, 20, [10], [10, 11], {10});
    assert LosingStates[3].calls[0 := Call({10}, {10, 11}, false, false, false)] == LosingStates[4].calls;
  }

  lemma EndsAndIsMarked()
    ensures Next(LosingStates[0], LosingSteps[0], LosingStates[1])
    ensures Next(LosingStates[4], LosingSteps[4], LosingStates[5])
    ensures Next(LosingStates[5], LosingSteps[5], LosingStates[6])
  {
    assert LosingStates[0].calls[0 := Call({}, {}, false, false, false)] == LosingStates[1].calls;
    assert LosingStates[4].calls[0 := Call({10}, {10, 11}, true, false, false)] == LosingStates[5].calls;
    assert LosingStates[5].calls[0 := Call({10}, {10, 11}, true, true, false)] == LosingStates[6].calls;
  }

  lemma GivesBackTen()
    ensures Next(LosingStates[6], LosingSteps[6], LosingStates[7])
  {
    assert [10, 11][..1] == [10] && [10][..0] == [];
    assert Removed([10, 11], {10}) == [11];
    assert LosingStates[6].calls[0 := Call({10}, {10, 11}, true, true, true)] == LosingStates[7].calls;
  }

  /** Finalizing a call between the reservation of a port and its recording leaves the port taken and owned by no one. */
  lemma LateRecordLosesPorts()
    ensures IsRun(LosingStates, LosingSteps) && Starts(LosingStates[0]) && !NoneLost(LosingStates[7])
  {
    DrawsTen();
    RecordsTen();
    ReservesEleven();
    EndsAndIsMarked();
    GivesBackTen();
    hide Next;
    assert 11 in LosingStates[7].taken && forall k :: k in LosingStates[7].calls ==> Owns(LosingStates[7].calls[k]) == {};
  }
}
