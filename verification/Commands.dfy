/** runBoundedCommand: wait for the child, and on the deadline escalate from SIGTERM to SIGKILL. */
module Commands {

  /** `NoProcess` is ESRCH, which the caller takes for success. */
  datatype Delivery = Sent | NoProcess | Refused

  datatype Effect = Term(delivery: Delivery) | GraceOver | Kill(delivery: Delivery)

  /** How the call returns: the child's own result, or an error that names what was sent. */
  datatype Result = StartFailed | ChildResult | TermFailed | TimedOutTerm | KillFailed | TimedOutKill

  datatype Main = Starting | Racing | InGrace | Draining | Returned(result: Result)
  datatype Child = Absent | Running | Exited
  datatype Timer = Off | Ticking | Fired

  /** `reaped`: the waiting goroutine has waited for the child and put its result into the channel;
      `received`: the result was taken. `trace` lists the signals attempted and the end of the grace period. */
  datatype State = State(
    main: Main, child: Child, reaped: bool, received: bool, deadline: bool, timer: Timer, trace: seq<Effect>)

  const START := State(Starting, Absent, false, false, false, Off, [])

  datatype Event =
    | Start | StartError
    | ChildExits | WaitReturns | DeadlinePasses | TimerFires
    | ReceiveResult
    | SendTerm(delivery: Delivery)
    | SendKill(delivery: Delivery)

  function Next(s: State, e: Event): State {
    match e
    case Start => if s.main.Starting? then s.(main := Racing, child := Running) else s
    case StartError => if s.main.Starting? then s.(main := Returned(StartFailed)) else s
    case ChildExits => if s.child.Running? then s.(child := Exited) else s
    case WaitReturns => if s.child.Exited? && !s.reaped then s.(reaped := true) else s
    case DeadlinePasses => s.(deadline := true)
    // A return stops the timer.
    case TimerFires =>
      if s.timer.Ticking? && s.main.InGrace? then s.(timer := Fired, trace := s.trace + [GraceOver]) else s
    case ReceiveResult =>
      if s.reaped && !s.received then
        match s.main
        case Racing => s.(main := Returned(ChildResult), received := true)
        case InGrace => s.(main := Returned(TimedOutTerm), received := true)
        case Draining => s.(main := Returned(TimedOutKill), received := true)
        case _ => s
      else s
    case SendTerm(d) =>
      if s.main.Racing? && s.deadline then
        var t := s.(trace := s.trace + [Term(d)]);
        if d.Refused? then t.(main := Returned(TermFailed)) else t.(main := InGrace, timer := Ticking)
      else s
    case SendKill(d) =>
      if s.main.InGrace? && s.timer.Fired? then
        var t := s.(trace := s.trace + [Kill(d)]);
        if d.Refused? then t.(main := Returned(KillFailed)) else t.(main := Draining)
      else s
  }

  function Run(es: seq<Event>): State {
    if es == [] then START else Next(Run(es[..|es| - 1]), es[|es| - 1])
  }

  predicate Delivered(d: Delivery) {
    !d.Refused?
  }

  /** SIGTERM attempted and not refused, with the grace period over or not. */
  predicate Warned(s: State, escalation: seq<Effect>) {
    && 1 <= |escalation| <= 2 && escalation[0].Term? && Delivered(escalation[0].delivery)
    && (|escalation| == 2 <==> s.timer.Fired?) && (|escalation| == 2 ==> escalation[1].GraceOver?)
  }

  predicate KillAttempted(escalation: seq<Effect>) {
    && |escalation| == 3 && escalation[0].Term? && Delivered(escalation[0].delivery)
    && escalation[1].GraceOver? && escalation[2].Kill?
  }

  predicate Invariant(s: State) {
    var x := s.trace;
    && (s.reaped ==> s.child.Exited?) && (s.received ==> s.reaped)
    && (x != [] ==> s.deadline)
    && (s.child.Absent? <==> s.main.Starting? || s.main == Returned(StartFailed))
    && (s.received <==> s.main.Returned? && s.main.result in {ChildResult, TimedOutTerm, TimedOutKill})
    && match s.main
       case Starting => x == [] && s.child.Absent? && s.timer.Off?
       case Racing => x == [] && s.timer.Off?
       case InGrace => Warned(s, x) && !s.timer.Off?
       case Draining => KillAttempted(x) && Delivered(x[2].delivery) && s.timer.Fired?
       case Returned(StartFailed) => x == [] && s.child.Absent? && s.timer.Off?
       case Returned(ChildResult) => x == [] && s.timer.Off?
       case Returned(TermFailed) => x == [Term(Refused)] && s.timer.Off?
       case Returned(TimedOutTerm) => Warned(s, x) && !s.timer.Off?
       case Returned(KillFailed) => KillAttempted(x) && x[2] == Kill(Refused) && s.timer.Fired?
       case Returned(TimedOutKill) => KillAttempted(x) && Delivered(x[2].delivery) && s.timer.Fired?
  }

  lemma NextKeepsInvariant(s: State, e: Event)
    requires Invariant(s)
    ensures Invariant(Next(s, e))
  {
  }

  lemma {:induction false} RunKeepsInvariant(es: seq<Event>)
    ensures Invariant(Run(es))
  {
    if es != [] {
      RunKeepsInvariant(es[..|es| - 1]);
      NextKeepsInvariant(Run(es[..|es| - 1]), es[|es| - 1]);
    }
  }

  /** On every run SIGKILL is attempted only after a SIGTERM attempt and the whole grace period, and each
      signal at most once. */
  lemma EscalationIsOrdered(es: seq<Event>)
    ensures var x := Run(es).trace;
            && |x| <= 3
            && (|x| > 0 ==> x[0].Term?) && (|x| > 1 ==> x[1].GraceOver?) && (|x| > 2 ==> x[2].Kill?)
  {
    RunKeepsInvariant(es);
  }

  function Signals(x: seq<Effect>): seq<Effect> {
    if x == [] then []
    else
      var rest, last := Signals(x[..|x| - 1]), x[|x| - 1];
      if last.Term? || last.Kill? then rest + [last] else rest
  }

  lemma SignalsOfEscalation(x: seq<Effect>)
    requires |x| <= 3
    ensures x == [] ==> Signals(x) == []
    ensures |x| >= 1 && x[0].Term? && (|x| > 1 ==> x[1].GraceOver?) && |x| <= 2 ==> Signals(x) == [x[0]]
    ensures KillAttempted(x) ==> Signals(x) == [x[0], x[2]]
  {
  }

  /** What a return says is what happened: a normal return sent nothing, a timeout error names exactly the
      signals attempted, and unless the start failed or a signal was refused the child has been reaped. */
  lemma ReturnTellsTheTruth(es: seq<Event>)
    requires Run(es).main.Returned?
    ensures var s := Run(es);
            var signals := Signals(s.trace);
            match s.main.result
            case StartFailed => signals == [] && s.child.Absent?
            case ChildResult => signals == [] && s.reaped && s.child.Exited?
            case TermFailed => signals == [Term(Refused)]
            case TimedOutTerm => (exists d :: Delivered(d) && signals == [Term(d)]) && s.reaped && s.child.Exited?
            case KillFailed => exists d :: Delivered(d) && signals == [Term(d), Kill(Refused)]
            case TimedOutKill =>
              && (exists c, d :: Delivered(c) && Delivered(d) && signals == [Term(c), Kill(d)])
              && s.reaped && s.child.Exited?
  {
    RunKeepsInvariant(es);
    var x := Run(es).trace;
    SignalsOfEscalation(x);
    match Run(es).main.result
    case StartFailed =>
    case ChildResult =>
    case TermFailed =>
    case TimedOutTerm => assert Signals(x) == [Term(x[0].delivery)];
    case KillFailed => assert Signals(x) == [Term(x[0].delivery), Kill(Refused)];
    case TimedOutKill => assert Signals(x) == [Term(x[0].delivery), Kill(x[2].delivery)];
  }

  predicate TimedOut(result: Result) {
    result in {TermFailed, TimedOutTerm, KillFailed, TimedOutKill}
  }

  lemma {:induction false} DeadlineIsEvent(es: seq<Event>)
    ensures Run(es).deadline <==> DeadlinePasses in es
  {
    if es != [] {
      DeadlineIsEvent(es[..|es| - 1]);
      assert es == es[..|es| - 1] + [es[|es| - 1]];
    }
  }

  /** No signal is attempted, and no timeout reported, before the deadline has passed; and a timeout is reported
      exactly when a signal was attempted. */
  lemma {:induction false} OnlyTheDeadlineEscalates(es: seq<Event>)
    ensures Run(es).trace != [] ==> DeadlinePasses in es
    ensures Run(es).main.Returned? ==> (TimedOut(Run(es).main.result) <==> Run(es).trace != [])
  {
    RunKeepsInvariant(es);
    DeadlineIsEvent(es);
  }

  lemma RunAppends(es: seq<Event>, e: Event)
    ensures Run(es + [e]) == Next(Run(es), e)
  {
  }

  /** The step that takes the call on: the start, a signal once the deadline has passed, or the child's exit,
      its reaping and the taking of its result. */
  function Onward(s: State): Event {
    match s.main
    case Starting => Start
    case Racing => if s.child.Running? then ChildExits else if !s.reaped then WaitReturns else ReceiveResult
    case InGrace => if !s.timer.Fired? then TimerFires else SendKill(Sent)
    case Draining => if s.child.Running? then ChildExits else if !s.reaped then WaitReturns else ReceiveResult
    case Returned(_) => TimerFires
  }

  function StepsLeft(s: State): nat {
    var child := if s.child.Exited? then (if s.reaped then 1 else 2) else 3;
    match s.main
    case Starting => 4
    case Racing => child
    case InGrace => child + (if s.timer.Fired? then 1 else 2)
    case Draining => child
    case Returned(_) => 0
  }

  lemma OnwardNears(s: State)
    requires Invariant(s) && !s.main.Returned?
    ensures StepsLeft(Next(s, Onward(s))) < StepsLeft(s)
  {
  }

  /** The call never hangs on its own account: whatever has happened, at most five more steps return it, if the
      system sends the signals, the grace period ends and the child exits. */
  lemma {:induction false} EveryCallCanReturn(es: seq<Event>) returns (rest: seq<Event>)
    ensures Run(es + rest).main.Returned? && |rest| <= StepsLeft(Run(es)) <= 5
    decreases StepsLeft(Run(es))
  {
    RunKeepsInvariant(es);
    if Run(es).main.Returned? {
      rest := [];
      assert es + rest == es;
    } else {
      var e := Onward(Run(es));
      OnwardNears(Run(es));
      RunAppends(es, e);
      var more := EveryCallCanReturn(es + [e]);
      rest := [e] + more;
      assert es + rest == es + [e] + more;
    }
  }

  /** A child that outlives the deadline and ignores SIGTERM is killed once the grace period is over, and the
      call returns when the child has been reaped. */
  lemma {:induction false} StubbornChildIsKilled(es: seq<Event>, c: Delivery, d: Delivery)
    requires Run(es).main.Racing? && Run(es).deadline && Run(es).child.Running? && Delivered(c) && Delivered(d)
    ensures var s := Run(es + [SendTerm(c)] + [TimerFires] + [SendKill(d)]);
            s.trace == [Term(c), GraceOver, Kill(d)] && s.main.Draining?
    ensures Run(es + [SendTerm(c)] + [TimerFires] + [SendKill(d)] + [ChildExits] + [WaitReturns] + [ReceiveResult]).main
            == Returned(TimedOutKill)
  {
    RunKeepsInvariant(es);
    var xs := es + [SendTerm(c)];
    var ys := xs + [TimerFires] + [SendKill(d)];
    RunAppends(es, SendTerm(c));
    RunAppends(xs, TimerFires);
    RunAppends(xs + [TimerFires], SendKill(d));
    RunAppends(ys, ChildExits);
    RunAppends(ys + [ChildExits], WaitReturns);
    RunAppends(ys + [ChildExits] + [WaitReturns], ReceiveResult);
  }
}
