/**
 The state of one call.  Each method of the class is what a thread does while it holds the call's state lock; a call
 is answered, denied, cancelled and hung up by different threads, and the runs below interleave those steps freely.
 */
module CallState {
  import opened Bytes

  datatype State = DIALING | RINGING | ANSWERED | ENDED

  /** A final response to the INVITE of an inbound call: 200, 486 or 487. */
  datatype Final = Ok200 | Busy486 | Terminated487

  datatype Core = Core(state: State, answering: bool)

  function Rank(s: State): nat {
    match s case DIALING => 0 case RINGING => 1 case ANSWERED => 2 case ENDED => 3
  }

  // ------------------------------------------------------------------ what one locked region does

  /** `answer` begins: only a ringing call, and only one thread at a time. */
  function AnswerBegun(c: Core): (Core, bool) {
    if c.state == RINGING && !c.answering then (c.(answering := true), true) else (c, false)
  }

  /** `answer` commits before it sends: a CANCEL can win only while the call still rings. */
  function AnswerCommitted(c: Core): (Core, bool) {
    if c.state == RINGING then (c.(state := ANSWERED), true) else (c, false)
  }

  /** `deny` and an inbound CANCEL. */
  function Refused(c: Core): (Core, bool) {
    if c.state == RINGING then (c.(state := ENDED), true) else (c, false)
  }

  /** `cancel` of a call that has not been answered. */
  function Cancelled(c: Core): (Core, bool) {
    if c.state in {DIALING, RINGING} then (c.(state := ENDED), true) else (c, false)
  }

  function Rung(c: Core): Core {
    if c.state == DIALING then c.(state := RINGING) else c
  }

  datatype OkVerdict = Apply | Unusable | OnlyAck

  /** A 200 response to our INVITE. */
  function OkArrived(c: Core): (Core, OkVerdict) {
    if c.state == ENDED then (c, Unusable)
    else if c.state == ANSWERED || c.answering then (c, OnlyAck)
    else (c.(answering := true), Apply)
  }

  /** `answered`, once media is set up. */
  function OkApplied(c: Core): (Core, bool) {
    if c.state == ENDED then (c, false) else (c.(state := ANSWERED), true)
  }

  class Call {
    var state: State
    var answerInProgress: bool

    ghost function View(): Core
      reads this
    {
      Core(state, answerInProgress)
    }

    constructor (inbound: bool)
      ensures View() == Core(if inbound then RINGING else DIALING, false)
    {
      state, answerInProgress := if inbound then RINGING else DIALING, false;
    }

    method BeginAnswer() returns (ok: bool)
      modifies this
      ensures (View(), ok) == AnswerBegun(old(View()))
    {
      if state != RINGING || answerInProgress {
        return false;
      }
      answerInProgress := true;
      return true;
    }

    method CommitAnswer() returns (ok: bool)
      modifies this
      ensures (View(), ok) == AnswerCommitted(old(View()))
    {
      if state != RINGING {
        return false;
      }
      state := ANSWERED;
      return true;
    }

    /** The locked part of `deny`, and of the handler for CANCEL. */
    method Refuse() returns (ok: bool)
      modifies this
      ensures (View(), ok) == Refused(old(View()))
    {
      if state != RINGING {
        return false;
      }
      state := ENDED;
      return true;
    }

    method Cancel() returns (ok: bool)
      modifies this
      ensures (View(), ok) == Cancelled(old(View()))
    {
      if state != DIALING && state != RINGING {
        return false;
      }
      state := ENDED;
      return true;
    }

    method Provisional()
      modifies this
      ensures View() == Rung(old(View()))
    {
      if state == DIALING {
        state := RINGING;
      }
    }

    method ReceiveOk() returns (verdict: OkVerdict)
      modifies this
      ensures (View(), verdict) == OkArrived(old(View()))
    {
      var alreadyEnded := state == ENDED;
      var alreadyAnswering := state == ANSWERED || answerInProgress;
      if !alreadyAnswering && !alreadyEnded {
        answerInProgress := true;
      }
      return if alreadyEnded then Unusable else if alreadyAnswering then OnlyAck else Apply;
    }

    method Answered() returns (ok: bool)
      modifies this
      ensures (View(), ok) == OkApplied(old(View()))
    {
      if state == ANSWERED {
        return true;
      }
      if state == ENDED {
        return false;
      }
      state := ANSWERED;
      return true;
    }

    method SetEnded()
      modifies this
      ensures View() == old(View()).(state := ENDED)
    {
      state := ENDED;
    }

    method LeaveAnswer()
      modifies this
      ensures View() == old(View()).(answering := false)
    {
      answerInProgress := false;
    }
  }

  // ------------------------------------------------------------------ all interleavings

  /** Where a thread stands between two locked regions. */
  datatype Point = Preparing | Sending(final: Final) | Failing | Applying | Leaving | Ending

  /** `committed` are the final responses decided on, and `sent` those that went out. */
  datatype System = System(core: Core, threads: map<nat, Point>, committed: seq<Final>, sent: seq<Final>)

  datatype Event =
    | BeginAnswering | PreparationFails | CommitAnswering | SendFinal | SendFails | FailAnswering | LeaveAnswering
    | Deny | RemoteCancel | LocalCancel | HangUp | InviteFailed | FinishEnding
    | Ringing | OkReceived | OkUsed | OkUnusable

  function Idle(s: System, t: nat): bool {
    t !in s.threads
  }

  function At(s: System, t: nat, p: Point): System {
    s.(threads := s.threads[t := p])
  }

  function Commit(s: System, t: nat, core: Core, f: Final): System {
    At(s, t, Sending(f)).(core := core, committed := s.committed + [f])
  }

  /** What thread `t` does next; None when it is not in a position to. */
  function Step(s: System, t: nat, e: Event): Option<System> {
    var c := s.core;
    if Idle(s, t) then
      match e
      case BeginAnswering => Some(if AnswerBegun(c).1 then At(s, t, Preparing).(core := AnswerBegun(c).0) else s)
      case Deny => Some(if Refused(c).1 then Commit(s, t, Refused(c).0, Busy486) else s)
      case RemoteCancel => Some(if Refused(c).1 then Commit(s, t, Refused(c).0, Terminated487) else s)
      case LocalCancel => Some(if Cancelled(c).1 then At(s, t, Ending).(core := Cancelled(c).0) else s)
      case HangUp => Some(if c.state == ANSWERED then At(s, t, Ending) else s)
      case InviteFailed => Some(if c.state in {DIALING, RINGING} then At(s, t, Ending) else s)
      case Ringing => Some(s.(core := Rung(c)))
      case OkReceived =>
        Some(match OkArrived(c).1
             case Apply => At(s, t, Applying).(core := OkArrived(c).0)
             case Unusable => At(s, t, Ending)
             case OnlyAck => s)
      case _ => None
    else
      match (s.threads[t], e)
      case (Preparing, PreparationFails) => Some(At(s, t, Failing))
      case (Preparing, CommitAnswering) =>
        Some(if AnswerCommitted(c).1 then Commit(s, t, AnswerCommitted(c).0, Ok200) else At(s, t, Failing))
      case (Sending(f), SendFinal) => Some(At(s, t, if f == Ok200 then Leaving else Ending).(sent := s.sent + [f]))
      case (Sending(f), SendFails) => Some(At(s, t, if f == Ok200 then Failing else Ending))
      case (Failing, FailAnswering) => Some(At(s, t, Leaving).(core := c.(state := ENDED)))
      case (Applying, OkUsed) => Some(At(s, t, Leaving).(core := OkApplied(c).0))
      case (Applying, OkUnusable) => Some(At(s, t, Leaving).(core := c.(state := ENDED)))
      case (Leaving, LeaveAnswering) => Some(s.(core := c.(answering := false), threads := s.threads - {t}))
      case (Ending, FinishEnding) => Some(s.(core := c.(state := ENDED), threads := s.threads - {t}))
      case _ => None
  }

  function Runs(s: System, trace: seq<(nat, Event)>): Option<System> {
    if trace == [] then Some(s)
    else
      match Runs(s, trace[..|trace| - 1])
      case None => None
      case Some(m) => Step(m, trace[|trace| - 1].0, trace[|trace| - 1].1)
  }

  function Start(inbound: bool): System {
    System(Core(if inbound then RINGING else DIALING, false), map[], [], [])
  }

  /** The threads that hold the right to answer. */
  predicate Answers(p: Point) {
    p.Preparing? || p.Failing? || p.Applying? || p.Leaving? || p == Sending(Ok200)
  }

  /** One thread at most is answering. */
  ghost predicate OneAnswers(s: System) {
    && (forall t, u :: t in s.threads && u in s.threads && Answers(s.threads[t]) && Answers(s.threads[u]) ==> t == u)
    && ((exists t :: t in s.threads && Answers(s.threads[t])) ==> s.core.answering)
  }

  /** One final response at most is decided on, and only the thread that decided on it has it to send. */
  ghost predicate OneDecided(s: System) {
    && |s.committed| <= 1 && (s.committed != [] ==> Rank(s.core.state) >= 2)
    && (forall t :: t in s.threads && s.threads[t].Sending? ==> s.committed == [s.threads[t].final] && s.sent == [])
    && (forall t, u :: t in s.threads && u in s.threads && s.threads[t].Sending? && s.threads[u].Sending? ==> t == u)
    && (s.sent != [] ==> s.sent == s.committed)
    && (s.committed != [] && s.committed[0] != Ok200 ==> s.core.state == ENDED)
  }

  ghost predicate Safe(s: System) {
    OneAnswers(s) && OneDecided(s)
  }

  lemma ArrivalAnswers(s: System, t: nat, e: Event)
    requires OneAnswers(s) && Idle(s, t) && Step(s, t, e).Some?
    ensures OneAnswers(Step(s, t, e).value)
  {
  }

  lemma ProgressAnswers(s: System, t: nat, e: Event)
    requires OneAnswers(s) && !Idle(s, t) && Step(s, t, e).Some?
    ensures OneAnswers(Step(s, t, e).value)
  {
  }

  lemma ArrivalDecides(s: System, t: nat, e: Event)
    requires OneDecided(s) && Idle(s, t) && Step(s, t, e).Some?
    ensures OneDecided(Step(s, t, e).value)
  {
  }

  lemma ProgressDecides(s: System, t: nat, e: Event)
    requires OneDecided(s) && !Idle(s, t) && Step(s, t, e).Some?
    ensures OneDecided(Step(s, t, e).value)
  {
  }

  /** What every step of every thread keeps. */
  lemma StepIsSafe(s: System, t: nat, e: Event)
    requires Safe(s) && Step(s, t, e).Some?
    ensures Safe(Step(s, t, e).value)
  {
    hide OneAnswers, OneDecided, Step;
    if Idle(s, t) {
      ArrivalAnswers(s, t, e);
      ArrivalDecides(s, t, e);
    } else {
      ProgressAnswers(s, t, e);
      ProgressDecides(s, t, e);
    }
  }

  lemma DecisionStands(s: System, t: nat, e: Event)
    requires Safe(s) && s.committed != [] && Step(s, t, e).Some?
    ensures Step(s, t, e).value.committed == s.committed
  {
  }

  lemma {:induction false} AlwaysSafe(inbound: bool, trace: seq<(nat, Event)>)
    requires Runs(Start(inbound), trace).Some?
    ensures Safe(Runs(Start(inbound), trace).value)
  {
    if trace != [] {
      AlwaysSafe(inbound, trace[..|trace| - 1]);
      StepIsSafe(Runs(Start(inbound), trace[..|trace| - 1]).value, trace[|trace| - 1].0, trace[|trace| - 1].1);
    }
  }

  lemma StepNeverGoesBack(s: System, t: nat, e: Event)
    requires Step(s, t, e).Some?
    ensures Rank(s.core.state) <= Rank(Step(s, t, e).value.core.state)
  {
  }

  /** Dialing, ringing, answered, ended: whatever the threads do and in whatever order, a call never goes back. */
  lemma {:induction false} StateNeverGoesBack(s: System, trace: seq<(nat, Event)>, n: nat)
    requires n <= |trace| && Runs(s, trace).Some?
    ensures Runs(s, trace[..n]).Some?
    ensures Rank(Runs(s, trace[..n]).value.core.state) <= Rank(Runs(s, trace).value.core.state)
  {
    if n == |trace| {
      assert trace[..n] == trace;
    } else {
      var m := |trace| - 1;
      assert trace[..m][..n] == trace[..n];
      StateNeverGoesBack(s, trace[..m], n);
      StepNeverGoesBack(Runs(s, trace[..m]).value, trace[m].0, trace[m].1);
    }
  }

  /** Of answering, denying and being cancelled, at most one is ever decided on, and at most that one is ever sent. */
  lemma AtMostOneFinal(inbound: bool, trace: seq<(nat, Event)>)
    requires Runs(Start(inbound), trace).Some?
    ensures var s := Runs(Start(inbound), trace).value;
            |s.committed| <= 1 && |s.sent| <= 1 && (s.sent != [] ==> s.sent == s.committed)
  {
    AlwaysSafe(inbound, trace);
  }

  /** Once one has been decided on, the others change nothing and decide nothing. */
  lemma {:induction false} FirstDecisionStands(inbound: bool, trace: seq<(nat, Event)>, n: nat)
    requires n <= |trace| && Runs(Start(inbound), trace).Some?
    ensures Runs(Start(inbound), trace[..n]).Some?
    ensures var early, late := Runs(Start(inbound), trace[..n]).value, Runs(Start(inbound), trace).value;
            early.committed != [] ==> late.committed == early.committed
  {
    if n == |trace| {
      assert trace[..n] == trace;
    } else {
      var m := |trace| - 1;
      assert trace[..m][..n] == trace[..n];
      hide Step, Safe;
      FirstDecisionStands(inbound, trace[..m], n);
      AlwaysSafe(inbound, trace[..m]);
      var s := Runs(Start(inbound), trace[..m]).value;
      if s.committed != [] {
        DecisionStands(s, trace[m].0, trace[m].1);
      }
    }
  }
}
