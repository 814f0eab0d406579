/**
 Runs of the SIP client.  Starting, stopping and losing the connection happen in different threads; each run has a
 generation number, and what a thread does under the lifecycle lock it does only for the run it knows.  The methods
 of the class are those locked regions; the system below interleaves them with what happens between them.
 */
module RunGenerations {
  import opened Bytes

  /** What the lifecycle lock protects; connections are numbered in the order they are made. */
  datatype Core = Core(generation: nat, running: bool, installed: Option<nat>)

  /** What a detached run leaves to be cleaned up. */
  datatype Cleanup = Cleanup(generation: nat, wasRunning: bool, connection: Option<nat>)

  // ------------------------------------------------------------------ what one locked region does

  function StartBegun(c: Core): (Core, Option<nat>) {
    if c.running then (c, None) else (Core(c.generation + 1, true, c.installed), Some(c.generation + 1))
  }

  function Installed(c: Core, generation: nat, connection: nat): (Core, bool) {
    if generation == c.generation then (c.(installed := Some(connection)), true) else (c, false)
  }

  predicate StillOurs(c: Core, generation: nat, connection: nat) {
    generation == c.generation && c.installed == Some(connection)
  }

  function StopBegun(c: Core, expected: Option<nat>): Option<nat> {
    if expected.Some? && expected.value != c.generation then None else Some(c.generation)
  }

  /** `_detach_run`: None when the run is not the one meant. */
  function Detached(c: Core, generation: Option<nat>, connection: Option<nat>): (Core, Option<Cleanup>) {
    if (generation.Some? && generation.value != c.generation) || (connection.Some? && c.installed != connection) then (c, None)
    else (Core(c.generation + 1, false, None), Some(Cleanup(c.generation + 1, c.running, c.installed)))
  }

  class Client {
    var runGeneration: nat
    var running: bool
    var connection: Option<nat>

    ghost function View(): Core
      reads this
    {
      Core(runGeneration, running, connection)
    }

    constructor ()
      ensures View() == Core(0, false, None)
    {
      runGeneration, running, connection := 0, false, None;
    }

    method BeginStart() returns (generation: Option<nat>)
      modifies this
      ensures (View(), generation) == StartBegun(old(View()))
    {
      if running {
        return None;
      }
      running := true;
      runGeneration := runGeneration + 1;
      return Some(runGeneration);
    }

    method Install(generation: nat, made: nat) returns (ok: bool)
      modifies this
      ensures (View(), ok) == Installed(old(View()), generation, made)
    {
      var stale := generation != runGeneration;
      if !stale {
        connection := Some(made);
      }
      return !stale;
    }

    method CheckOpened(generation: nat, made: nat) returns (ok: bool)
      ensures ok == StillOurs(View(), generation, made)
    {
      var stale := generation != runGeneration || connection != Some(made);
      return !stale;
    }

    method BeginStop(expected: Option<nat>) returns (generation: Option<nat>)
      ensures generation == StopBegun(View(), expected)
    {
      if expected.Some? && expected.value != runGeneration {
        return None;
      }
      return Some(runGeneration);
    }

    method DetachRun(generation: Option<nat>, expected: Option<nat>) returns (cleanup: Option<Cleanup>)
      modifies this
      ensures (View(), cleanup) == Detached(old(View()), generation, expected)
    {
      if (generation.Some? && generation.value != runGeneration) || (expected.Some? && connection != expected) {
        return None;
      }
      var taken := Cleanup(runGeneration + 1, running, connection);
      connection := None;
      runGeneration := taken.generation;
      running := false;
      return Some(taken);
    }
  }

  // ------------------------------------------------------------------ all interleavings

  /** What a thread is in the middle of. */
  datatype Task =
    | Starting(generation: nat)
    | Opening(generation: nat, connection: nat)
    | Opened(generation: nat, connection: nat)
    | Registering(generation: nat)
    | Failed(generation: nat)
    | Discarding(connection: nat)
    | Stopping(generation: nat)
    | Cleaning(connection: nat)
    | Closing(connection: nat)

  /** A connection: the run that made it, and whether its socket is open. */
  datatype Conn = Conn(generation: nat, open: bool)

  datatype System = System(core: Core, conns: seq<Conn>, threads: map<nat, Task>)

  datatype Event =
    | Start | Make | MakeFails | Open | OpenFails | Check | Register | RegisterFails | Discard
    | Stop(expected: Option<nat>) | Detach | Lose(generation: Option<nat>, connection: Option<nat>) | Judge | Close

  function Do(s: System, t: nat, task: Task): System {
    s.(threads := s.threads[t := task])
  }

  function Done(s: System, t: nat): System {
    s.(threads := s.threads - {t})
  }

  function SetOpen(s: System, connection: nat, open: bool): System
    requires connection < |s.conns|
  {
    s.(conns := s.conns[connection := s.conns[connection].(open := open)])
  }

  /** Detach a run, and go on to clean up what it had. */
  function DetachAs(s: System, t: nat, generation: Option<nat>, connection: Option<nat>): System {
    var (core, cleanup) := Detached(s.core, generation, connection);
    if cleanup.None? || cleanup.value.connection.None? then Done(s, t).(core := core)
    else Do(s, t, Cleaning(cleanup.value.connection.value)).(core := core)
  }

  /** A thread that is not in the middle of anything. */
  function Arrive(s: System, t: nat, e: Event): Option<System> {
    match e
    case Start =>
      var (core, generation) := StartBegun(s.core);
      Some(if generation.None? then s else Do(s, t, Starting(generation.value)).(core := core))
    case Stop(expected) =>
      var generation := StopBegun(s.core, expected);
      Some(if generation.None? then s else Do(s, t, Stopping(generation.value)))
    case Lose(generation, connection) => Some(DetachAs(s, t, generation, connection))
    case _ => None
  }

  function MakeConnection(s: System, t: nat, generation: nat): System {
    var made := |s.conns|;
    var (core, ok) := Installed(s.core, generation, made);
    Do(s, t, if ok then Opening(generation, made) else Discarding(made)).(core := core, conns := s.conns + [Conn(generation, false)])
  }

  /** A thread that is. */
  function Proceed(s: System, t: nat, e: Event): Option<System>
    requires t in s.threads
  {
    match (s.threads[t], e)
    case (Starting(g), Make) => Some(MakeConnection(s, t, g))
    case (Starting(g), MakeFails) => Some(Do(s, t, Failed(g)))
    case (Opening(g, c), Open) => if c < |s.conns| then Some(SetOpen(Do(s, t, Opened(g, c)), c, true)) else None
    case (Opening(g, c), OpenFails) => Some(Do(s, t, Failed(g)))
    case (Opened(g, c), Check) => Some(Do(s, t, if StillOurs(s.core, g, c) then Registering(g) else Discarding(c)))
    case (Registering(g), Register) => Some(Done(s, t))
    case (Registering(g), RegisterFails) => Some(Do(s, t, Failed(g)))
    case (Failed(g), Detach) => Some(DetachAs(s, t, Some(g), None))
    case (Discarding(c), Discard) =>
      if c < |s.conns| then Some(if s.core.installed == Some(c) then Done(s, t) else SetOpen(Done(s, t), c, false)) else None
    case (Stopping(g), Detach) => Some(DetachAs(s, t, Some(g), None))
    case (Cleaning(c), Judge) => Some(if s.core.installed == Some(c) then Done(s, t) else Do(s, t, Closing(c)))
    case (Closing(c), Close) => if c < |s.conns| then Some(SetOpen(Done(s, t), c, false)) else None
    case _ => None
  }

  function Step(s: System, t: nat, e: Event): Option<System> {
    if t in s.threads then Proceed(s, t, e) else Arrive(s, t, e)
  }

  function Runs(trace: seq<(nat, Event)>): Option<System> {
    if trace == [] then Some(System(Core(0, false, None), [], map[]))
    else
      match Runs(trace[..|trace| - 1])
      case None => None
      case Some(m) => Step(m, trace[|trace| - 1].0, trace[|trace| - 1].1)
  }

  // ------------------------------------------------------------------ what holds throughout

  /** The connection that a thread answers for, and will close if nobody else has. */
  function Holds(task: Task): Option<nat> {
    match task
    case Opening(_, c) => Some(c)
    case Opened(_, c) => Some(c)
    case Discarding(c) => Some(c)
    case Cleaning(c) => Some(c)
    case Closing(c) => Some(c)
    case _ => None
  }

  /** The run a thread is starting. */
  function Begins(task: Task): Option<nat> {
    match task
    case Starting(g) => Some(g)
    case Opening(g, _) => Some(g)
    case Opened(g, _) => Some(g)
    case Registering(g) => Some(g)
    case Failed(g) => Some(g)
    case _ => None
  }

  /** An installed connection is the current run's, and a stopped client has none. */
  ghost predicate InstalledIsCurrent(s: System) {
    s.core.installed.Some? ==>
      && s.core.running && s.core.installed.value < |s.conns|
      && s.conns[s.core.installed.value].generation == s.core.generation
  }

  /** While the current run is about to make its connection, none is installed. */
  ghost predicate NoneBeforeMade(s: System) {
    forall t :: t in s.threads && s.threads[t] == Starting(s.core.generation) ==> s.core.installed == None
  }

  /** Runs that are being started have begun, and the current one is running. */
  ghost predicate BegunRuns(s: System) {
    forall t :: t in s.threads && Begins(s.threads[t]).Some? ==>
      Begins(s.threads[t]).value <= s.core.generation && (Begins(s.threads[t]).value == s.core.generation ==> s.core.running)
  }

  /** A run is started by one thread only. */
  ghost predicate OneStarter(s: System) {
    forall t, u :: t in s.threads && u in s.threads && Begins(s.threads[t]).Some? && Begins(s.threads[t]) == Begins(s.threads[u]) ==> t == u
  }

  /** Threads hold connections that exist, and a starting thread one of its own run. */
  ghost predicate HeldExist(s: System) {
    forall t :: t in s.threads && Holds(s.threads[t]).Some? ==>
      && Holds(s.threads[t]).value < |s.conns|
      && (s.threads[t].Opening? || s.threads[t].Opened? ==> s.conns[Holds(s.threads[t]).value].generation == s.threads[t].generation)
  }

  /** A connection is closed until its own thread opens it. */
  ghost predicate UnopenedYet(s: System) {
    forall t :: t in s.threads && s.threads[t].Opening? ==>
      s.threads[t].connection < |s.conns| && !s.conns[s.threads[t].connection].open
  }

  /** Once taken out, a connection is not installed again. */
  ghost predicate NeverBack(s: System) {
    forall t :: t in s.threads && (s.threads[t].Discarding? || s.threads[t].Cleaning? || s.threads[t].Closing?) ==>
                  s.core.installed != Holds(s.threads[t])
  }

  ghost predicate HeldBy(s: System, c: nat) {
    exists t :: t in s.threads && Holds(s.threads[t]) == Some(c)
  }

  /** An open connection is installed, or some thread is about to close it. */
  ghost predicate OpenIsHeld(s: System) {
    forall c :: 0 <= c < |s.conns| && s.conns[c].open ==> s.core.installed == Some(c) || HeldBy(s, c)
  }

  ghost predicate Safe(s: System) {
    && InstalledIsCurrent(s) && NoneBeforeMade(s) && BegunRuns(s) && OneStarter(s)
    && HeldExist(s) && UnopenedYet(s) && NeverBack(s) && OpenIsHeld(s)
  }

  lemma ArrivingInstalled(s: System, t: nat, e: Event)
    requires InstalledIsCurrent(s) && BegunRuns(s) && t !in s.threads && Arrive(s, t, e).Some?
    ensures InstalledIsCurrent(Arrive(s, t, e).value)
  {
  }

  lemma ProceedingInstalled(s: System, t: nat, e: Event)
    requires InstalledIsCurrent(s) && BegunRuns(s) && t in s.threads && Proceed(s, t, e).Some?
    ensures InstalledIsCurrent(Proceed(s, t, e).value)
  {
  }

  lemma KeepsInstalled(s: System, t: nat, e: Event)
    requires InstalledIsCurrent(s) && BegunRuns(s) && Step(s, t, e).Some?
    ensures InstalledIsCurrent(Step(s, t, e).value)
  {
    hide Arrive, Proceed, InstalledIsCurrent, BegunRuns;
    if t in s.threads {
      ProceedingInstalled(s, t, e);
    } else {
      ArrivingInstalled(s, t, e);
    }
  }

  lemma ArrivingNoneBeforeMade(s: System, t: nat, e: Event)
    requires NoneBeforeMade(s) && InstalledIsCurrent(s) && BegunRuns(s) && t !in s.threads && Arrive(s, t, e).Some?
    ensures NoneBeforeMade(Arrive(s, t, e).value)
  {
  }

  lemma ProceedingNoneBeforeMade(s: System, t: nat, e: Event)
    requires NoneBeforeMade(s) && OneStarter(s) && InstalledIsCurrent(s) && BegunRuns(s) && t in s.threads && Proceed(s, t, e).Some?
    ensures NoneBeforeMade(Proceed(s, t, e).value)
  {
  }

  lemma KeepsNoneBeforeMade(s: System, t: nat, e: Event)
    requires NoneBeforeMade(s) && OneStarter(s) && InstalledIsCurrent(s) && BegunRuns(s) && Step(s, t, e).Some?
    ensures NoneBeforeMade(Step(s, t, e).value)
  {
    hide Arrive, Proceed, NoneBeforeMade, OneStarter, InstalledIsCurrent, BegunRuns;
    if t in s.threads {
      ProceedingNoneBeforeMade(s, t, e);
    } else {
      ArrivingNoneBeforeMade(s, t, e);
    }
  }

  lemma ArrivingBegun(s: System, t: nat, e: Event)
    requires BegunRuns(s) && t !in s.threads && Arrive(s, t, e).Some?
    ensures BegunRuns(Arrive(s, t, e).value)
  {
  }

  lemma ProceedingBegun(s: System, t: nat, e: Event)
    requires BegunRuns(s) && t in s.threads && Proceed(s, t, e).Some?
    ensures BegunRuns(Proceed(s, t, e).value)
  {
  }

  lemma KeepsBegun(s: System, t: nat, e: Event)
    requires BegunRuns(s) && Step(s, t, e).Some?
    ensures BegunRuns(Step(s, t, e).value)
  {
    hide Arrive, Proceed, BegunRuns;
    if t in s.threads {
      ProceedingBegun(s, t, e);
    } else {
      ArrivingBegun(s, t, e);
    }
  }

  lemma ArrivingOneStarter(s: System, t: nat, e: Event)
    requires OneStarter(s) && BegunRuns(s) && t !in s.threads && Arrive(s, t, e).Some?
    ensures OneStarter(Arrive(s, t, e).value)
  {
  }

  lemma ProceedingOneStarter(s: System, t: nat, e: Event)
    requires OneStarter(s) && BegunRuns(s) && t in s.threads && Proceed(s, t, e).Some?
    ensures OneStarter(Proceed(s, t, e).value)
  {
  }

  lemma KeepsOneStarter(s: System, t: nat, e: Event)
    requires OneStarter(s) && BegunRuns(s) && Step(s, t, e).Some?
    ensures OneStarter(Step(s, t, e).value)
  {
    hide Arrive, Proceed, OneStarter, BegunRuns;
    if t in s.threads {
      ProceedingOneStarter(s, t, e);
    } else {
      ArrivingOneStarter(s, t, e);
    }
  }

  lemma ArrivingHeld(s: System, t: nat, e: Event)
    requires HeldExist(s) && InstalledIsCurrent(s) && t !in s.threads && Arrive(s, t, e).Some?
    ensures HeldExist(Arrive(s, t, e).value)
  {
  }

  lemma MakingHeld(s: System, t: nat, e: Event)
    requires HeldExist(s) && t in s.threads && e.Make? && Proceed(s, t, e).Some?
    ensures HeldExist(Proceed(s, t, e).value)
  {
  }

  lemma DetachingHeld(s: System, t: nat, e: Event)
    requires HeldExist(s) && InstalledIsCurrent(s) && t in s.threads && e.Detach? && Proceed(s, t, e).Some?
    ensures HeldExist(Proceed(s, t, e).value)
  {
  }

  lemma GoingOnHeld(s: System, t: nat, e: Event)
    requires HeldExist(s) && t in s.threads && !e.Make? && !e.Detach? && Proceed(s, t, e).Some?
    ensures HeldExist(Proceed(s, t, e).value)
  {
  }

  lemma ProceedingHeld(s: System, t: nat, e: Event)
    requires HeldExist(s) && InstalledIsCurrent(s) && t in s.threads && Proceed(s, t, e).Some?
    ensures HeldExist(Proceed(s, t, e).value)
  {
    hide *;
    match e {
      case Make => MakingHeld(s, t, e);
      case Detach => DetachingHeld(s, t, e);
      case _ => GoingOnHeld(s, t, e);
    }
  }

  lemma KeepsHeld(s: System, t: nat, e: Event)
    requires HeldExist(s) && InstalledIsCurrent(s) && Step(s, t, e).Some?
    ensures HeldExist(Step(s, t, e).value)
  {
    hide Arrive, Proceed, HeldExist, InstalledIsCurrent;
    if t in s.threads {
      ProceedingHeld(s, t, e);
    } else {
      ArrivingHeld(s, t, e);
    }
  }

  lemma ArrivingUnopened(s: System, t: nat, e: Event)
    requires UnopenedYet(s) && HeldExist(s) && OneStarter(s) && t !in s.threads && Arrive(s, t, e).Some?
    ensures UnopenedYet(Arrive(s, t, e).value)
  {
  }

  lemma ProceedingUnopened(s: System, t: nat, e: Event)
    requires UnopenedYet(s) && HeldExist(s) && OneStarter(s) && t in s.threads && Proceed(s, t, e).Some?
    ensures UnopenedYet(Proceed(s, t, e).value)
  {
  }

  lemma KeepsUnopened(s: System, t: nat, e: Event)
    requires UnopenedYet(s) && HeldExist(s) && OneStarter(s) && Step(s, t, e).Some?
    ensures UnopenedYet(Step(s, t, e).value)
  {
    hide Arrive, Proceed, UnopenedYet, HeldExist, OneStarter;
    if t in s.threads {
      ProceedingUnopened(s, t, e);
    } else {
      ArrivingUnopened(s, t, e);
    }
  }

  lemma ArrivingAway(s: System, t: nat, e: Event)
    requires NeverBack(s) && HeldExist(s) && InstalledIsCurrent(s) && t !in s.threads && Arrive(s, t, e).Some?
    ensures NeverBack(Arrive(s, t, e).value)
  {
  }

  lemma ProceedingAway(s: System, t: nat, e: Event)
    requires NeverBack(s) && HeldExist(s) && InstalledIsCurrent(s) && t in s.threads && Proceed(s, t, e).Some?
    ensures NeverBack(Proceed(s, t, e).value)
  {
  }

  lemma KeepsAway(s: System, t: nat, e: Event)
    requires NeverBack(s) && HeldExist(s) && InstalledIsCurrent(s) && Step(s, t, e).Some?
    ensures NeverBack(Step(s, t, e).value)
  {
    hide Arrive, Proceed, NeverBack, HeldExist, InstalledIsCurrent;
    if t in s.threads {
      ProceedingAway(s, t, e);
    } else {
      ArrivingAway(s, t, e);
    }
  }

  lemma StillHeld(s: System, s': System, t: nat, u: nat, c: nat)
    requires u in s.threads && u != t && Holds(s.threads[u]) == Some(c)
    requires forall v :: v != t ==> (v in s.threads <==> v in s'.threads) && (v in s.threads ==> s'.threads[v] == s.threads[v])
    ensures HeldBy(s', c)
  {
    assert u in s'.threads && Holds(s'.threads[u]) == Some(c);
  }

  lemma OthersGoOn(s: System, t: nat, e: Event)
    requires Step(s, t, e).Some?
    ensures var s' := Step(s, t, e).value;
            forall v :: v != t ==> (v in s.threads <==> v in s'.threads) && (v in s.threads ==> s'.threads[v] == s.threads[v])
  {
  }

  /** The stepping thread passes an open connection on, or closes it, or leaves it installed. */
  lemma PassedOn(s: System, t: nat, e: Event, c: nat)
    requires NoneBeforeMade(s) && UnopenedYet(s)
    requires Step(s, t, e).Some? && c < |Step(s, t, e).value.conns| && Step(s, t, e).value.conns[c].open
    requires c < |s.conns| ==> s.core.installed == Some(c) || (t in s.threads && Holds(s.threads[t]) == Some(c))
    ensures var s' := Step(s, t, e).value;
            s'.core.installed == Some(c) || (t in s'.threads && Holds(s'.threads[t]) == Some(c))
               || exists u :: u in s.threads && u != t && Holds(s.threads[u]) == Some(c)
  {
  }

  lemma WasOpen(s: System, t: nat, e: Event, c: nat)
    requires Step(s, t, e).Some? && c < |Step(s, t, e).value.conns| && Step(s, t, e).value.conns[c].open
    ensures c < |s.conns| && (s.conns[c].open || (t in s.threads && Holds(s.threads[t]) == Some(c)))
  {
  }

  lemma KeepsOpenHeld(s: System, t: nat, e: Event)
    requires OpenIsHeld(s) && NoneBeforeMade(s) && UnopenedYet(s) && Step(s, t, e).Some?
    ensures OpenIsHeld(Step(s, t, e).value)
  {
    var s' := Step(s, t, e).value;
    forall c | 0 <= c < |s'.conns| && s'.conns[c].open
      ensures s'.core.installed == Some(c) || HeldBy(s', c)
    {
      WasOpen(s, t, e, c);
      OthersGoOn(s, t, e);
      if s.core.installed == Some(c) || (t in s.threads && Holds(s.threads[t]) == Some(c)) {
        PassedOn(s, t, e, c);
        hide Step, Holds;
        if exists u :: u in s.threads && u != t && Holds(s.threads[u]) == Some(c) {
          var u :| u in s.threads && u != t && Holds(s.threads[u]) == Some(c);
          StillHeld(s, s', t, u, c);
        }
      } else {
        hide Step, Holds;
        var u :| u in s.threads && Holds(s.threads[u]) == Some(c);
        StillHeld(s, s', t, u, c);
      }
    }
  }

  /** What every step of every thread keeps. */
  lemma StepIsSafe(s: System, t: nat, e: Event)
    requires Safe(s) && Step(s, t, e).Some?
    ensures Safe(Step(s, t, e).value)
  {
    hide Step, InstalledIsCurrent, NoneBeforeMade, BegunRuns, OneStarter, HeldExist, UnopenedYet, NeverBack, OpenIsHeld;
    KeepsInstalled(s, t, e);
    KeepsNoneBeforeMade(s, t, e);
    KeepsBegun(s, t, e);
    KeepsOneStarter(s, t, e);
    KeepsHeld(s, t, e);
    KeepsUnopened(s, t, e);
    KeepsAway(s, t, e);
    KeepsOpenHeld(s, t, e);
  }

  lemma {:induction false} AlwaysSafe(trace: seq<(nat, Event)>)
    requires Runs(trace).Some?
    ensures Safe(Runs(trace).value)
  {
    if trace != [] {
      AlwaysSafe(trace[..|trace| - 1]);
      hide Step, Safe;
      StepIsSafe(Runs(trace[..|trace| - 1]).value, trace[|trace| - 1].0, trace[|trace| - 1].1);
    }
  }

  /** Whatever has happened: the installed connection is the current run's, and a stopped client has none. */
  lemma InstalledBelongsToTheRun(trace: seq<(nat, Event)>)
    requires Runs(trace).Some?
    ensures var s := Runs(trace).value;
            && (s.core.installed.Some? ==> s.core.installed.value < |s.conns|
                                           && s.conns[s.core.installed.value].generation == s.core.generation)
            && (!s.core.running ==> s.core.installed == None)
  {
    AlwaysSafe(trace);
  }

  /** When no thread is in the middle of anything, every connection but the installed one is closed. */
  lemma NothingLeaks(trace: seq<(nat, Event)>, c: nat)
    requires Runs(trace).Some? && Runs(trace).value.threads == map[]
    requires c < |Runs(trace).value.conns| && Runs(trace).value.conns[c].open
    ensures Runs(trace).value.core.installed == Some(c) && Runs(trace).value.core.running
  {
    AlwaysSafe(trace);
  }

  /** A stop, or a failed start, of run `g` detaches run `g` or nothing; the connection it takes out is its own run's. */
  lemma StopDetachesItsOwnRun(trace: seq<(nat, Event)>, t: nat, g: nat)
    requires Runs(trace).Some?
    requires var s := Runs(trace).value; t in s.threads && s.threads[t] in {Stopping(g), Failed(g)}
    ensures var s := Runs(trace).value;
            Step(s, t, Detach).Some?
            && var s' := Step(s, t, Detach).value;
               && (g != s.core.generation ==> s'.core == s.core && s'.conns == s.conns)
               && (g == s.core.generation ==>
                     && !s'.core.running && s'.core.installed == None && s'.core.generation == g + 1
                     && (s.core.installed.Some? ==> s'.threads[t] == Cleaning(s.core.installed.value)
                                                    && s.core.installed.value < |s.conns|
                                                    && s.conns[s.core.installed.value].generation == g))
  {
    AlwaysSafe(trace);
  }

  lemma StepNeverFalls(s: System, t: nat, e: Event)
    requires Step(s, t, e).Some?
    ensures s.core.generation <= Step(s, t, e).value.core.generation
  {
  }

  /** A generation never returns: runs begun later have higher numbers. */
  lemma {:induction false} GenerationNeverFalls(trace: seq<(nat, Event)>, n: nat)
    requires n <= |trace| && Runs(trace).Some?
    ensures Runs(trace[..n]).Some? && Runs(trace[..n]).value.core.generation <= Runs(trace).value.core.generation
  {
    if n == |trace| {
      assert trace[..n] == trace;
    } else {
      var m := |trace| - 1;
      assert trace[..m][..n] == trace[..n];
      hide Step;
      GenerationNeverFalls(trace[..m], n);
      StepNeverFalls(Runs(trace[..m]).value, trace[m].0, trace[m].1);
    }
  }

  lemma StartBegins(s: System, t: nat)
    requires t !in s.threads && !s.core.running
    ensures Step(s, t, Start).Some? && Step(s, t, Start).value.core.generation == s.core.generation + 1
  {
  }

  lemma StopOfAnother(s: System, t: nat, g: nat)
    requires t in s.threads && s.threads[t] == Stopping(g) && g != s.core.generation
    ensures Step(s, t, Detach).Some? && Step(s, t, Detach).value.core == s.core
  {
  }

  /** A stop decided on in one run does nothing once a later run has begun. */
  lemma LateStopDoesNothing(trace: seq<(nat, Event)>, n: nat, t: nat, g: nat)
    requires n < |trace| && Runs(trace).Some? && trace[n].1.Start?
    requires var s := Runs(trace).value; t in s.threads && s.threads[t] == Stopping(g)
    requires Runs(trace[..n]).Some? && Runs(trace[..n]).value.core.generation == g
    requires trace[n].0 !in Runs(trace[..n]).value.threads && !Runs(trace[..n]).value.core.running
    ensures var s := Runs(trace).value; Step(s, t, Detach).Some? && Step(s, t, Detach).value.core == s.core
  {
    assert trace[..n + 1][..n] == trace[..n];
    hide Step;
    StartBegins(Runs(trace[..n]).value, trace[n].0);
    GenerationNeverFalls(trace, n + 1);
    StopOfAnother(Runs(trace).value, t, g);
  }
}
