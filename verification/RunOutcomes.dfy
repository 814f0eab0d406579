/** When a start of the client goes through, what an undisturbed start and stop leave, and which runs a lost connection stops. */
module RunOutcomes {
  import opened Bytes
  import opened RunGenerations

  /** While its run is current, the connection of the thread that starts it is the installed one. */
  ghost predicate OpeningIsInstalled(s: System) {
    forall t :: t in s.threads && (s.threads[t].Opening? || s.threads[t].Opened?) && s.threads[t].generation == s.core.generation ==>
      s.core.installed == Some(s.threads[t].connection)
  }

  lemma ArrivingOpening(s: System, t: nat, e: Event)
    requires OpeningIsInstalled(s) && BegunRuns(s) && t !in s.threads && Arrive(s, t, e).Some?
    ensures OpeningIsInstalled(Arrive(s, t, e).value)
  {
  }

  lemma ProceedingOpening(s: System, t: nat, e: Event)
    requires OpeningIsInstalled(s) && BegunRuns(s) && OneStarter(s) && t in s.threads && Proceed(s, t, e).Some?
    ensures OpeningIsInstalled(Proceed(s, t, e).value)
  {
  }

  lemma {:induction false} AlwaysOpening(trace: seq<(nat, Event)>)
    requires Runs(trace).Some?
    ensures OpeningIsInstalled(Runs(trace).value)
  {
    if trace != [] {
      var before, t, e := trace[..|trace| - 1], trace[|trace| - 1].0, trace[|trace| - 1].1;
      AlwaysOpening(before);
      AlwaysSafe(before);
      var s := Runs(before).value;
      assert BegunRuns(s) && OneStarter(s);
      hide OpeningIsInstalled, BegunRuns, OneStarter, Safe, Arrive, Proceed;
      if t in s.threads {
        ProceedingOpening(s, t, e);
      } else {
        ArrivingOpening(s, t, e);
      }
    }
  }

  /**
   Over every run: a thread that has opened the connection of the run it starts goes on to register exactly when that
   run is still the current one; otherwise it goes on to close the connection, which is not the installed one.
   */
  lemma StartGoesThroughIff(trace: seq<(nat, Event)>, t: nat, g: nat, c: nat)
    requires Runs(trace).Some?
    requires var s := Runs(trace).value; t in s.threads && s.threads[t] == Opened(g, c)
    ensures var s := Runs(trace).value;
            && Step(s, t, Check) == Some(s.(threads := s.threads[t := if g == s.core.generation then Registering(g) else Discarding(c)]))
            && (g == s.core.generation <==> s.core.installed == Some(c))
  {
    AlwaysOpening(trace);
    AlwaysSafe(trace);
  }

  /** Left alone, a start of a stopped client installs an open connection of a new run. */
  lemma StartedUndisturbed(s: System, t: nat)
    requires t !in s.threads && !s.core.running
    ensures var g, c := s.core.generation + 1, |s.conns|;
            var s1 := Step(s, t, Start);
            && s1.Some? && var s2 := Step(s1.value, t, Make);
            && s2.Some? && var s3 := Step(s2.value, t, Open);
            && s3.Some? && var s4 := Step(s3.value, t, Check);
            && s4.Some? && var s5 := Step(s4.value, t, Register);
            s5 == Some(System(Core(g, true, Some(c)), s.conns + [Conn(g, true)], s.threads))
  {
    var g, c := s.core.generation + 1, |s.conns|;
    var s1 := System(Core(g, true, s.core.installed), s.conns, s.threads[t := Starting(g)]);
    var s2 := System(Core(g, true, Some(c)), s.conns + [Conn(g, false)], s1.threads[t := Opening(g, c)]);
    var s3 := System(s2.core, s.conns + [Conn(g, true)], s2.threads[t := Opened(g, c)]);
    assert Step(s, t, Start) == Some(s1);
    assert Step(s1, t, Make) == Some(s2);
    assert s2.conns[c := Conn(g, true)] == s3.conns;
    assert Step(s2, t, Open) == Some(s3);
    assert Step(s3, t, Check) == Some(s3.(threads := s3.threads[t := Registering(g)]));
    assert s3.threads[t := Registering(g)] - {t} == s.threads;
  }

  /** Left alone, a stop closes the installed connection and ends the run. */
  lemma StoppedUndisturbed(s: System, t: nat, c: nat, expected: Option<nat>)
    requires t !in s.threads && s.core.installed == Some(c) && c < |s.conns| && (expected == None || expected == Some(s.core.generation))
    ensures var s1 := Step(s, t, Stop(expected));
            && s1.Some? && var s2 := Step(s1.value, t, Detach);
            && s2.Some? && var s3 := Step(s2.value, t, Judge);
            && s3.Some? && var s4 := Step(s3.value, t, Close);
            s4 == Some(System(Core(s.core.generation + 1, false, None), s.conns[c := s.conns[c].(open := false)], s.threads))
  {
    var g := s.core.generation;
    var s1 := s.(threads := s.threads[t := Stopping(g)]);
    var s2 := System(Core(g + 1, false, None), s.conns, s1.threads[t := Cleaning(c)]);
    assert Step(s, t, Stop(expected)) == Some(s1);
    assert Step(s1, t, Detach) == Some(s2);
    assert Step(s2, t, Judge) == Some(s2.(threads := s2.threads[t := Closing(c)]));
    assert s2.threads[t := Closing(c)] - {t} == s.threads;
  }

  /** A stop of another run than the current one, and a start of a running client, do nothing. */
  lemma NothingToDo(s: System, t: nat, g: nat)
    requires t !in s.threads
    ensures g != s.core.generation ==> Step(s, t, Stop(Some(g))) == Some(s)
    ensures s.core.running ==> Step(s, t, Start) == Some(s)
  {
  }

  /** A lost connection stops the run exactly when it is the run's and the connection is the one installed, as far as each is given. */
  lemma LostStopsIff(s: System, t: nat, generation: Option<nat>, connection: Option<nat>)
    requires t !in s.threads
    ensures var s' := Step(s, t, Lose(generation, connection));
            && s'.Some?
            && if (generation == None || generation == Some(s.core.generation)) && (connection == None || connection == s.core.installed) then
                 && s'.value.core == Core(s.core.generation + 1, false, None) && s'.value.conns == s.conns
                 && s'.value.threads == (if s.core.installed.Some? then s.threads[t := Cleaning(s.core.installed.value)] else s.threads)
               else s'.value == s
  {
    assert s.threads - {t} == s.threads;
  }
}
