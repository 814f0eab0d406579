/** Which final response a call is given over whole runs of its threads, and how hanging up and a failed answer end it. */
module CallRuns {
  import opened Bytes
  import opened CallState

  /** The response that the step tries to decide on: 200 to commit an answer, 486 to deny, 487 for a CANCEL. */
  function Tries(s: System, t: nat, e: Event): Option<Final> {
    if t in s.threads then (if s.threads[t] == Preparing && e == CommitAnswering then Some(Ok200) else None)
    else if e == Deny then Some(Busy486)
    else if e == RemoteCancel then Some(Terminated487)
    else None
  }

  ghost predicate IsRun(inbound: bool, trace: seq<(nat, Event)>) {
    forall i :: 0 <= i <= |trace| ==> Runs(Start(inbound), trace[..i]).Some?
  }

  /** The system before step `i` of a run. */
  ghost function Before(inbound: bool, trace: seq<(nat, Event)>, i: nat): System
    requires IsRun(inbound, trace) && i <= |trace|
  {
    Runs(Start(inbound), trace[..i]).value
  }

  /** Step `i` tries to decide on `f` while the call rings. */
  ghost predicate Succeeds(inbound: bool, trace: seq<(nat, Event)>, i: int, f: Final)
    requires IsRun(inbound, trace)
  {
    && 0 <= i < |trace|
    && Tries(Before(inbound, trace, i), trace[i].0, trace[i].1) == Some(f)
    && Before(inbound, trace, i).core.state == RINGING
  }

  lemma {:induction false} RunIsRun(inbound: bool, trace: seq<(nat, Event)>)
    requires Runs(Start(inbound), trace).Some?
    ensures IsRun(inbound, trace)
  {
    forall i | 0 <= i <= |trace|
      ensures Runs(Start(inbound), trace[..i]).Some?
    {
      StateNeverGoesBack(Start(inbound), trace, i);
    }
  }

  lemma StepOf(inbound: bool, trace: seq<(nat, Event)>, i: nat)
    requires IsRun(inbound, trace) && i < |trace|
    ensures Step(Before(inbound, trace, i), trace[i].0, trace[i].1) == Some(Before(inbound, trace, i + 1))
  {
    hide Step;
    assert trace[..i + 1][..i] == trace[..i];
    assert Runs(Start(inbound), trace[..i + 1]).Some?;
  }

  /** An attempt succeeds exactly while the call rings: it is then decided, and only the thread that made it has to send it. */
  lemma AttemptOutcome(s: System, t: nat, e: Event, f: Final)
    requires Tries(s, t, e) == Some(f) && Step(s, t, e).Some?
    ensures var s' := Step(s, t, e).value;
            if s.core.state == RINGING then
              && s'.committed == s.committed + [f] && s'.sent == s.sent
              && s'.core == Core(if f == Ok200 then ANSWERED else ENDED, s.core.answering)
              && s'.threads == s.threads[t := Sending(f)]
            else if f == Ok200 then s' == s.(threads := s.threads[t := Failing])
            else s' == s
  {
  }

  /** Nothing else decides, and a thread that sends sends what it decided on. */
  lemma OtherOutcome(s: System, t: nat, e: Event)
    requires Tries(s, t, e) == None && Step(s, t, e).Some?
    ensures Step(s, t, e).value.committed == s.committed
    ensures Step(s, t, e).value.sent
            == s.sent + if t in s.threads && s.threads[t].Sending? && e == SendFinal then [s.threads[t].final] else []
  {
  }

  lemma {:induction false} NotAgain(inbound: bool, trace: seq<(nat, Event)>, i: nat, n: nat)
    requires IsRun(inbound, trace) && i <= n <= |trace| && Rank(Before(inbound, trace, i).core.state) >= 2
    ensures Rank(Before(inbound, trace, n).core.state) >= 2
  {
    assert trace[..n][..i] == trace[..i];
    StateNeverGoesBack(Start(inbound), trace[..n], i);
  }

  /** Once an attempt has succeeded no other does. */
  lemma SucceedsOnce(inbound: bool, trace: seq<(nat, Event)>, i: int, f: Final, j: int, g: Final)
    requires IsRun(inbound, trace) && Succeeds(inbound, trace, i, f) && Succeeds(inbound, trace, j, g)
    ensures i == j && f == g
  {
    hide Step, IsRun;
    var a, b := if i < j then i else j, if i < j then j else i;
    if a < b {
      StepOf(inbound, trace, a);
      AttemptOutcome(Before(inbound, trace, a), trace[a].0, trace[a].1, if i < j then f else g);
      NotAgain(inbound, trace, a + 1, b);
    }
  }

  lemma {:induction false} DecidedBy(inbound: bool, trace: seq<(nat, Event)>, n: nat)
    requires IsRun(inbound, trace) && n <= |trace|
    ensures Before(inbound, trace, n).committed == []
            || exists i: int, f :: i < n && Succeeds(inbound, trace, i, f) && Before(inbound, trace, n).committed == [f]
    ensures forall i, f :: Succeeds(inbound, trace, i, f) && i < n ==> Before(inbound, trace, n).committed == [f]
  {
    hide Step, IsRun;
    if n > 0 {
      DecidedBy(inbound, trace, n - 1);
      StepOf(inbound, trace, n - 1);
      var s, t, e := Before(inbound, trace, n - 1), trace[n - 1].0, trace[n - 1].1;
      var tried := Tries(s, t, e);
      if tried.Some? {
        AttemptOutcome(s, t, e, tried.value);
      } else {
        OtherOutcome(s, t, e);
      }
      if tried.Some? && s.core.state == RINGING {
        var f := tried.value;
        assert Succeeds(inbound, trace, n - 1, f);
        forall i, g | Succeeds(inbound, trace, i, g)
          ensures i == n - 1 && g == f
        {
          SucceedsOnce(inbound, trace, i, g, n - 1, f);
        }
        assert s.committed == [];
      }
    }
  }

  /**
   Over every run: the final response decided on is 200, 486 or 487 exactly when the one attempt made while the call
   rang was to answer it, to deny it or to cancel it; there is none exactly when no attempt was made then; and what
   has been sent is that response or nothing.
   */
  lemma CommittedIff(inbound: bool, trace: seq<(nat, Event)>)
    requires Runs(Start(inbound), trace).Some?
    ensures IsRun(inbound, trace)
    ensures var s := Runs(Start(inbound), trace).value;
            && (forall f :: s.committed == [f] <==> exists i :: Succeeds(inbound, trace, i, f))
            && (s.committed == [] <==> forall i, f :: !Succeeds(inbound, trace, i, f))
            && s.sent in {[], s.committed}
  {
    hide Step, Succeeds;
    RunIsRun(inbound, trace);
    assert trace[..|trace|] == trace;
    DecidedBy(inbound, trace, |trace|);
    AtMostOneFinal(inbound, trace);
    SucceedsWithin(inbound, trace);
  }

  lemma SucceedsWithin(inbound: bool, trace: seq<(nat, Event)>)
    requires IsRun(inbound, trace)
    ensures forall i, f :: Succeeds(inbound, trace, i, f) ==> i < |trace|
  {
  }

  // ------------------------------------------------------------------ hanging up

  /** Only its own steps move a thread. */
  lemma OthersStay(s: System, t: nat, u: nat, e: Event)
    requires Step(s, u, e).Some? && u != t
    ensures t in Step(s, u, e).value.threads <==> t in s.threads
    ensures t in s.threads ==> Step(s, u, e).value.threads[t] == s.threads[t]
  {
  }

  lemma {:induction false} Waits(inbound: bool, trace: seq<(nat, Event)>, t: nat, i: nat, n: nat)
    requires IsRun(inbound, trace) && i <= n <= |trace|
    requires t in Before(inbound, trace, i).threads && forall k :: i <= k < n ==> trace[k].0 != t
    ensures t in Before(inbound, trace, n).threads && Before(inbound, trace, n).threads[t] == Before(inbound, trace, i).threads[t]
  {
    hide Step, IsRun;
    if i < n {
      Waits(inbound, trace, t, i, n - 1);
      StepOf(inbound, trace, n - 1);
      OthersStay(Before(inbound, trace, n - 1), t, trace[n - 1].0, trace[n - 1].1);
    }
  }

  /** What a thread does to end a call: hang it up, cancel it, or see its INVITE fail. */
  predicate Ends(s: System, e: Event) {
    match e
    case HangUp => s.core.state == ANSWERED
    case LocalCancel => s.core.state in {DIALING, RINGING}
    case InviteFailed => s.core.state in {DIALING, RINGING}
    case _ => false
  }

  lemma StartsToEnd(s: System, t: nat, e: Event)
    requires t !in s.threads && Ends(s, e)
    ensures Step(s, t, e).Some? && Step(s, t, e).value.threads == s.threads[t := Ending]
  {
  }

  lemma FinishesEnding(s: System, t: nat)
    requires t in s.threads && s.threads[t] == Ending
    ensures Step(s, t, FinishEnding).Some? && t !in Step(s, t, FinishEnding).value.threads
    ensures Rank(Step(s, t, FinishEnding).value.core.state) == 3
  {
  }

  lemma RunsUpTo(inbound: bool, trace: seq<(nat, Event)>, n: nat)
    requires IsRun(inbound, trace) && n <= |trace|
    ensures forall i: nat :: i <= n ==> Runs(Start(inbound), trace[..i]) == Some(Before(inbound, trace, i))
    ensures forall st :: Rank(st) >= 3 <==> st == ENDED
  {
  }

  /** A thread that hangs up an answered call, cancels an unanswered one or sees its INVITE fail, and then finishes, ends it for good. */
  lemma EndingEnds(inbound: bool, trace: seq<(nat, Event)>, t: nat, i: nat, j: nat, n: nat)
    requires IsRun(inbound, trace) && i < j < n <= |trace|
    requires t !in Before(inbound, trace, i).threads && Ends(Before(inbound, trace, i), trace[i].1) && trace[i].0 == t
    requires trace[j] == (t, FinishEnding) && forall k :: i < k < j ==> trace[k].0 != t
    ensures Before(inbound, trace, n).core.state == ENDED && t !in Before(inbound, trace, j + 1).threads
  {
    hide *;
    StepOf(inbound, trace, i);
    StartsToEnd(Before(inbound, trace, i), t, trace[i].1);
    Waits(inbound, trace, t, i + 1, j);
    StepOf(inbound, trace, j);
    FinishesEnding(Before(inbound, trace, j), t);
    RunsUpTo(inbound, trace, n);
    assert trace[..n][..j + 1] == trace[..j + 1];
    StateNeverGoesBack(Start(inbound), trace[..n], j + 1);
  }

  // ------------------------------------------------------------------ when the threads are done

  /** The right to answer is held by a thread. */
  ghost predicate IsHeld(s: System) {
    s.core.answering ==> exists t :: t in s.threads && Answers(s.threads[t])
  }

  /** An answer that has been decided on and not been sent is being sent or given up. */
  ghost predicate IsPursued(s: System) {
    s.committed == [Ok200] && s.sent == [] && s.core.state != ENDED ==>
      exists t :: t in s.threads && (s.threads[t] == Sending(Ok200) || s.threads[t] == Failing)
  }

  ghost predicate UnderWay(s: System) {
    && IsHeld(s) && IsPursued(s)
    && (forall t :: t in s.threads && s.threads[t] == Leaving ==> Rank(s.core.state) >= 2)
  }

  lemma StepKeepsHeld(s: System, t: nat, e: Event)
    requires OneAnswers(s) && IsHeld(s) && Step(s, t, e).Some?
    ensures IsHeld(Step(s, t, e).value)
  {
    var s' := Step(s, t, e).value;
    assert t in s'.threads || t !in s'.threads;
    if u :| u in s.threads && Answers(s.threads[u]) && u != t {
      OthersStay(s, u, t, e);
    }
  }

  lemma StepKeepsPursued(s: System, t: nat, e: Event)
    requires OneDecided(s) && IsPursued(s) && Step(s, t, e).Some?
    ensures IsPursued(Step(s, t, e).value)
  {
    var s' := Step(s, t, e).value;
    assert t in s'.threads || t !in s'.threads;
    if u :| u in s.threads && (s.threads[u] == Sending(Ok200) || s.threads[u] == Failing) && u != t {
      OthersStay(s, u, t, e);
    }
  }

  lemma StepKeepsUnderWay(s: System, t: nat, e: Event)
    requires Safe(s) && UnderWay(s) && Step(s, t, e).Some?
    ensures UnderWay(Step(s, t, e).value)
  {
    StepKeepsHeld(s, t, e);
    StepKeepsPursued(s, t, e);
    hide IsHeld, IsPursued, OneAnswers;
  }

  lemma {:induction false} AlwaysUnderWay(inbound: bool, trace: seq<(nat, Event)>)
    requires Runs(Start(inbound), trace).Some?
    ensures UnderWay(Runs(Start(inbound), trace).value)
  {
    if trace != [] {
      var before := trace[..|trace| - 1];
      hide Step, Safe, UnderWay;
      AlwaysUnderWay(inbound, before);
      AlwaysSafe(inbound, before);
      StepKeepsUnderWay(Runs(Start(inbound), before).value, trace[|trace| - 1].0, trace[|trace| - 1].1);
    } else {
      StartsIdle(inbound);
    }
  }

  lemma StartsIdle(inbound: bool)
    ensures UnderWay(Start(inbound))
  {
  }

  /** Once no thread is under way nobody holds the right to answer, and a call whose decided response was not an answer that was sent has ended. */
  lemma DoneIsSettled(inbound: bool, trace: seq<(nat, Event)>)
    requires Runs(Start(inbound), trace).Some? && Runs(Start(inbound), trace).value.threads == map[]
    ensures var s := Runs(Start(inbound), trace).value;
            !s.core.answering && (s.committed != [] && s.sent != [Ok200] ==> s.core.state == ENDED)
  {
    AlwaysUnderWay(inbound, trace);
    AlwaysSafe(inbound, trace);
  }

  /** Left alone, answering a ringing call answers it with a 200 and gives up the right to answer. */
  lemma AnsweredUndisturbed(s: System, t: nat)
    requires t !in s.threads && s.core == Core(RINGING, false)
    ensures Runs(s, [(t, BeginAnswering), (t, CommitAnswering), (t, SendFinal), (t, LeaveAnswering)])
            == Some(s.(core := Core(ANSWERED, false), committed := s.committed + [Ok200], sent := s.sent + [Ok200]))
  {
    var a, b, c, d := (t, BeginAnswering), (t, CommitAnswering), (t, SendFinal), (t, LeaveAnswering);
    assert [a, b, c, d][..3] == [a, b, c] && [a, b, c][..2] == [a, b] && [a, b][..1] == [a];
    assert Runs(s, [a]) == Step(s, t, BeginAnswering);
    var s1 := Step(s, t, BeginAnswering).value;
    var s2 := Step(s1, t, CommitAnswering).value;
    var s3 := Step(s2, t, SendFinal).value;
    assert Runs(s, [a, b]) == Some(s2) && Runs(s, [a, b, c]) == Some(s3);
    assert s3.threads - {t} == s.threads;
  }

  /** Left alone, an outgoing call that rings and is then answered by a 200 is answered here. */
  lemma DialedUndisturbed(s: System, t: nat)
    requires t !in s.threads && s.core == Core(DIALING, false)
    ensures Runs(s, [(t, Ringing)]) == Some(s.(core := Core(RINGING, false)))
    ensures Runs(s, [(t, Ringing), (t, OkReceived), (t, OkUsed), (t, LeaveAnswering)]) == Some(s.(core := Core(ANSWERED, false)))
  {
    var a, b, c, d := (t, Ringing), (t, OkReceived), (t, OkUsed), (t, LeaveAnswering);
    assert [a, b, c, d][..3] == [a, b, c] && [a, b, c][..2] == [a, b] && [a, b][..1] == [a];
    var s1 := s.(core := Core(RINGING, false));
    var s2 := System(Core(RINGING, true), s.threads[t := Applying], s.committed, s.sent);
    var s3 := System(Core(ANSWERED, true), s2.threads[t := Leaving], s.committed, s.sent);
    assert Runs(s, [a]) == Some(s1) && Runs(s, [a, b]) == Some(s2) && Runs(s, [a, b, c]) == Some(s3);
    assert s3.threads - {t} == s.threads;
  }

  /** A 200 that comes when the call is answered, or being answered, changes nothing; one that comes when it has ended leaves it ended. */
  lemma LateOk(s: System, t: nat)
    requires t !in s.threads && Step(s, t, OkReceived).Some?
    ensures s.core.state == ENDED ==> Step(s, t, OkReceived).value == s.(threads := s.threads[t := Ending])
    ensures s.core.state != ENDED && (s.core.state == ANSWERED || s.core.answering) ==> Step(s, t, OkReceived).value == s
  {
  }
}
