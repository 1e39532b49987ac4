/** How a submission driven by tasks ends (internal/application/task_run.go, task_follow.go):
    which answers justify a terminal status over whole runs, and what a driver that is left alone
    under its lease comes to. */
module TaskEndings {
  import opened SubmissionStates
  import opened TaskDriver

  // ---------------------------------------------------------------- what justifies an end

  /** The call may have been made and its outcome is not known: a row found past queued without
      a task ID, or no answer to the call. */
  predicate Ambiguous(s: System, d: string, answer: Answer) {
    && d in s.drivers && !s.replay
    && ((s.drivers[d] == Ready(false, "") && !answer.Deferred? && !answer.Broken?)
        || (s.drivers[d].AwaitingHandle? && answer.Lost?))
  }

  /** The terminal statuses a step gives a reason for. */
  function Reasons(s: System, step: Step): set<Status> {
    if !step.Act? then {}
    else
      (if step.answer.Observed? then {step.answer.to} else {})
      + (if step.answer.Broken? then {Failed} else {})
      + (if Ambiguous(s, step.d, step.answer) then {OutcomeUnknown} else {})
  }

  function ReasonsIn(s: System, steps: seq<Step>): set<Status>
    decreases steps
  {
    if steps == [] then {} else Reasons(s, steps[0]) + ReasonsIn(Next(s, steps[0]), steps[1..])
  }

  predicate Ending(p: Point) {
    p.Failing? || p.FailStarting? || p.FailEnding?
  }

  predicate EndsFor(s: System, reasons: set<Status>) {
    && (Terminal(s.status) ==> s.status in reasons)
    && (forall d :: d in s.drivers && Ending(s.drivers[d]) ==> s.drivers[d].end in reasons)
  }

  /** What a step of one driver does to status and drivers. */
  predicate StepsFor(s: System, d: string, after: System, reasons: set<Status>) {
    && d in after.drivers && after.drivers == s.drivers[d := after.drivers[d]]
    && (after.status == s.status || !Terminal(after.status) || after.status in reasons)
    && (Ending(after.drivers[d]) ==> after.drivers[d].end in reasons)
  }

  lemma PrepareStepsFor(s: System, d: string)
    requires d in s.drivers && InPrepare(s.drivers[d])
    ensures StepsFor(s, d, Prepare(s, d, s.drivers[d]), {})
  {
  }

  lemma EnsureStepsFor(s: System, d: string, answer: Answer)
    requires d in s.drivers && InEnsure(s.drivers[d])
    ensures StepsFor(s, d, Ensure(s, d, s.drivers[d], answer), Reasons(s, Act(d, answer)))
  {
  }

  lemma FollowStepsFor(s: System, d: string, answer: Answer, reasons: set<Status>)
    requires d in s.drivers && !InPrepare(s.drivers[d]) && !InEnsure(s.drivers[d])
    requires (Ending(s.drivers[d]) ==> s.drivers[d].end in reasons) && Reasons(s, Act(d, answer)) <= reasons
    ensures StepsFor(s, d, Follow(s, d, s.drivers[d], answer), reasons)
  {
    assert s.drivers == s.drivers[d := s.drivers[d]];
  }

  lemma ActEndsFor(s: System, d: string, answer: Answer, reasons: set<Status>)
    requires EndsFor(s, reasons) && d in s.drivers
    ensures EndsFor(Next(s, Act(d, answer)), reasons + Reasons(s, Act(d, answer)))
  {
    var all := reasons + Reasons(s, Act(d, answer));
    if InPrepare(s.drivers[d]) {
      PrepareStepsFor(s, d);
    } else if InEnsure(s.drivers[d]) {
      EnsureStepsFor(s, d, answer);
    } else {
      FollowStepsFor(s, d, answer, all);
    }
    assert StepsFor(s, d, Next(s, Act(d, answer)), all);
  }

  lemma StepEndsFor(s: System, step: Step, reasons: set<Status>)
    requires EndsFor(s, reasons)
    ensures EndsFor(Next(s, step), reasons + Reasons(s, step))
  {
    if step.Act? && step.d in s.drivers {
      ActEndsFor(s, step.d, step.answer, reasons);
    }
  }

  lemma {:induction false} RunEndsFor(s: System, steps: seq<Step>, reasons: set<Status>)
    requires EndsFor(s, reasons)
    ensures EndsFor(Exec(s, steps), reasons + ReasonsIn(s, steps))
    decreases steps
  {
    if steps == [] {
      assert reasons + ReasonsIn(s, steps) == reasons;
    } else {
      StepEndsFor(s, steps[0], reasons);
      RunEndsFor(Next(s, steps[0]), steps[1..], reasons + Reasons(s, steps[0]));
      assert reasons + Reasons(s, steps[0]) + ReasonsIn(Next(s, steps[0]), steps[1..]) == reasons + ReasonsIn(s, steps);
    }
  }

  predicate Answered(steps: seq<Step>, answer: Answer) {
    exists i :: 0 <= i < |steps| && steps[i].Act? && steps[i].answer == answer
  }

  /** Some driver came to an ambiguous call. */
  predicate AmbiguousIn(s: System, steps: seq<Step>)
    decreases steps
  {
    steps != [] && ((steps[0].Act? && Ambiguous(s, steps[0].d, steps[0].answer)) || AmbiguousIn(Next(s, steps[0]), steps[1..]))
  }

  lemma AnsweredLater(steps: seq<Step>, answer: Answer)
    requires steps != [] && Answered(steps[1..], answer)
    ensures Answered(steps, answer)
  {
    var i :| 0 <= i < |steps[1..]| && steps[1..][i].Act? && steps[1..][i].answer == answer;
    assert steps[i + 1] == steps[1..][i];
  }

  lemma {:induction false} WhereReasonsComeFrom(s: System, steps: seq<Step>, end: Status)
    requires end in ReasonsIn(s, steps)
    ensures || Answered(steps, Observed(end))
            || (end == Failed && Answered(steps, Broken))
            || (end == OutcomeUnknown && AmbiguousIn(s, steps))
    decreases steps
  {
    if end in Reasons(s, steps[0]) {
      assert steps[0].Act?;
      assert steps[0].answer == Observed(end) ==> Answered(steps, Observed(end));
      assert steps[0].answer == Broken ==> Answered(steps, Broken);
    } else {
      var next, rest := Next(s, steps[0]), steps[1..];
      WhereReasonsComeFrom(next, rest, end);
      if Answered(rest, Observed(end)) {
        AnsweredLater(steps, Observed(end));
      }
      if Answered(rest, Broken) {
        AnsweredLater(steps, Broken);
      }
    }
  }

  /** Whatever drivers race, stall or crash, a submission ends only for a reason: with a status
      that was observed upstream, failed after an answer that ends it, or with its outcome
      unknown after a call that may have been made and was not confirmed. */
  lemma EndsHaveReasons(s: System, steps: seq<Step>)
    requires Initial(s)
    ensures var end := Exec(s, steps).status;
      Terminal(end) ==>
        || Answered(steps, Observed(end))
        || (end == Failed && Answered(steps, Broken))
        || (end == OutcomeUnknown && AmbiguousIn(s, steps))
  {
    RunEndsFor(s, steps, {});
    var end := Exec(s, steps).status;
    if Terminal(end) {
      assert end in ReasonsIn(s, steps);
      WhereReasonsComeFrom(s, steps, end);
    }
  }

  /** An ambiguous call never ends a submission as failed. */
  lemma NeverFailedWithoutAnError(s: System, steps: seq<Step>)
    requires Initial(s) && !Answered(steps, Broken) && !Answered(steps, Observed(Failed))
    ensures Exec(s, steps).status != Failed
  {
    EndsHaveReasons(s, steps);
  }

  // ---------------------------------------------------------------- what a driver left alone comes to

  /** The row has left acceptance behind. */
  predicate PastAcceptance(p: Point) {
    InEnsure(p) || p.Following? || Ending(p)
  }

  predicate Begun(s: System) {
    s.status == Accepted ==> forall d :: d in s.drivers ==> !PastAcceptance(s.drivers[d])
  }

  lemma StepKeepsBegun(s: System, step: Step)
    requires Inv(s) && Begun(s)
    ensures Begun(Next(s, step))
  {
    if step.Act? && step.d in s.drivers {
      assert DriverInv(s, step.d, s.drivers[step.d]);
      if InPrepare(s.drivers[step.d]) {
        PrepareKeepsBegun(s, step.d);
      } else if s.status == Accepted {
        assert !PastAcceptance(s.drivers[step.d]);
      } else {
        NothingIsAcceptedAgain(s, step);
      }
    }
  }

  lemma PrepareKeepsBegun(s: System, d: string)
    requires Inv(s) && Begun(s) && d in s.drivers && InPrepare(s.drivers[d])
    ensures Begun(Prepare(s, d, s.drivers[d]))
  {
    assert DriverInv(s, d, s.drivers[d]);
  }

  lemma NothingIsAcceptedAgain(s: System, step: Step)
    requires step.Act? && step.d in s.drivers && !InPrepare(s.drivers[step.d]) && s.status != Accepted
    ensures Next(s, step).status != Accepted
  {
  }

  lemma {:induction false} RunKeepsBegun(s: System, steps: seq<Step>)
    requires Inv(s) && Begun(s)
    ensures Inv(Exec(s, steps)) && Begun(Exec(s, steps))
    decreases steps
  {
    if steps == [] {
    } else {
      StepKeepsBegun(s, steps[0]);
      StepKeepsInv(s, steps[0]);
      RunKeepsBegun(Next(s, steps[0]), steps[1..]);
    }
  }

  /** n more steps of a driver to which nothing is reported. */
  function Alone(s: System, d: string, n: nat): System
    decreases n
  {
    if n == 0 then s else Alone(Next(s, Act(d, Fine)), d, n - 1)
  }

  lemma {:induction false} AloneIsARun(s: System, d: string, n: nat) returns (steps: seq<Step>)
    ensures Exec(s, steps) == Alone(s, d, n) && |steps| == n
    ensures forall i :: 0 <= i < n ==> steps[i] == Act(d, Fine)
    decreases n
  {
    if n == 0 {
      steps := [];
    } else {
      var rest := AloneIsARun(Next(s, Act(d, Fine)), d, n - 1);
      steps := [Act(d, Fine)] + rest;
      assert steps[1..] == rest;
    }
  }

  lemma ThreeAlone(s: System, d: string, a: System, b: System)
    requires a == Next(s, Act(d, Fine)) && b == Next(a, Act(d, Fine))
    ensures Alone(s, d, 2) == b && Alone(s, d, 3) == Next(b, Act(d, Fine))
  {
    var c := Next(b, Act(d, Fine));
    assert Alone(b, d, 1) == Alone(c, d, 0);
    assert Alone(s, d, 3) == Alone(a, d, 2) == Alone(b, d, 1);
    assert Alone(s, d, 2) == Alone(a, d, 1) == Alone(b, d, 0);
  }

  lemma FailingQueuedEnds(s: System, d: string)
    requires d in s.drivers && s.drivers[d].Failing? && Holds(s, d) && Terminal(s.drivers[d].end) && s.status == Queued
    ensures Alone(s, d, 3).status == s.drivers[d].end
  {
    var end := s.drivers[d].end;
    var a := Next(s, Act(d, Fine));
    assert a == At(s, d, FailStarting(end));
    var b := Next(a, Act(d, Fine));
    assert b.status == Running && b.drivers[d] == FailEnding(end) && Holds(b, d);
    ThreeAlone(s, d, a, b);
  }

  /** A driver that fails a row, left alone under its lease, ends it as it set out to. */
  lemma FailingEnds(s: System, d: string)
    requires d in s.drivers && s.drivers[d].Failing? && Holds(s, d) && Terminal(s.drivers[d].end)
    requires Valid(s.status) && s.status != Accepted && !Terminal(s.status)
    ensures Alone(s, d, 3).status == s.drivers[d].end
  {
    if s.status == Queued {
      FailingQueuedEnds(s, d);
    } else {
      var a := Next(s, Act(d, Fine));
      assert a == At(s, d, FailEnding(s.drivers[d].end));
      var b := Next(a, Act(d, Fine));
      assert b.status == s.drivers[d].end && b.drivers[d] == Done;
      ThreeAlone(s, d, a, b);
    }
  }

  /** In any run a driver that comes to an ambiguous call and is left alone under its lease ends
      the row with its outcome unknown; one that gets an answer that ends the submission, before
      the call, from it or while it follows, ends it as failed. */
  lemma AmbiguousCallsEndUnknown(init: System, before: seq<Step>, d: string, answer: Answer)
    requires Initial(init)
    ensures var s := Exec(init, before);
      Ambiguous(s, d, answer) && Holds(s, d) && !Terminal(s.status) ==>
        Alone(Next(s, Act(d, answer)), d, 3).status == OutcomeUnknown
    ensures var s := Exec(init, before);
      answer.Broken? && d in s.drivers && (s.drivers[d].Ready? || s.drivers[d].AwaitingHandle? || s.drivers[d].Following?)
      && Holds(s, d) && !Terminal(s.status) ==>
        Alone(Next(s, Act(d, answer)), d, 3).status == Failed
  {
    RunKeepsBegun(init, before);
    var s := Exec(init, before);
    if d in s.drivers && Holds(s, d) && !Terminal(s.status) && PastAcceptance(s.drivers[d]) {
      if Ambiguous(s, d, answer) || (answer.Broken? && (s.drivers[d].Ready? || s.drivers[d].AwaitingHandle? || s.drivers[d].Following?)) {
        FailingEnds(Next(s, Act(d, answer)), d);
      }
    }
  }

  /** A driver whose call was answered with a task records it, unless one is recorded already,
      and, still holding its lease, follows it. */
  lemma HandlesAreAttached(s: System, d: string, taskId: string)
    requires d in s.drivers && s.drivers[d].AwaitingHandle? && taskId != ""
    ensures var after := Alone(Next(s, Act(d, Handle(taskId))), d, 2);
      && after.taskId == (if s.taskId == "" then taskId else s.taskId) && d in after.drivers
      && (Holds(s, d) && !Terminal(s.status) ==> after.drivers[d] == Following)
  {
    var a := Next(s, Act(d, Handle(taskId)));
    assert a == At(s, d, Attaching(taskId));
    var b := Next(a, Act(d, Fine));
    assert b.drivers[d] == Observing;
    ThreeAlone(a, d, b, Next(b, Act(d, Fine)));
  }

  /** A driver that follows writes what it observes, under its lease, as far as it is a legal move. */
  lemma ObservationsAreWritten(s: System, d: string, to: Status)
    requires d in s.drivers && s.drivers[d].Following?
    ensures Next(s, Act(d, Observed(to))).status
         == if Applies(to) && MayMove(s, d, to) then to else s.status
  {
  }

  /** A new submission is called: the driver that holds its lease and is left alone makes the
      upstream call. */
  lemma AcceptedSubmissionsAreCalled(s: System, d: string)
    requires d in s.drivers && s.drivers[d] == Preparing && Holds(s, d)
    requires s.status == Accepted && s.taskId == ""
    ensures Alone(s, d, 7).callers == s.callers + [d] && Alone(s, d, 7).status == Running
  {
    var queued := ComesToQueued(s, d);
    var ready := ComesToReady(queued, d);
    AloneConcat(s, d, 3, 2);
    AloneConcat(s, d, 5, 2);
    assert ready == Alone(s, d, 5);
    var a := Next(ready, Act(d, Fine));
    assert a.drivers[d] == Opening && a.callers == s.callers;
    ThreeAlone(ready, d, a, Next(a, Act(d, Fine)));
  }

  lemma ComesToQueued(s: System, d: string) returns (queued: System)
    requires d in s.drivers && s.drivers[d] == Preparing && Holds(s, d) && s.status == Accepted && s.taskId == ""
    ensures queued == Alone(s, d, 3) && queued.drivers.Keys == s.drivers.Keys && queued.drivers[d] == Starting
    ensures queued.status == Queued && queued.taskId == "" && Holds(queued, d) && queued.callers == s.callers
  {
    var a := Next(s, Act(d, Fine));
    assert a.drivers[d] == Queueing;
    var b := Next(a, Act(d, Fine));
    assert b.drivers[d] == ReadingBack && b.status == Queued;
    queued := Next(b, Act(d, Fine));
    ThreeAlone(s, d, a, b);
  }

  lemma ComesToReady(s: System, d: string) returns (ready: System)
    requires d in s.drivers && s.drivers[d] == Starting && Holds(s, d) && s.status == Queued && s.taskId == ""
    ensures ready == Alone(s, d, 2) && d in ready.drivers && ready.drivers[d] == Ready(true, "")
    ensures ready.status == Running && ready.callers == s.callers
  {
    var a := Next(s, Act(d, Fine));
    assert a.drivers[d] == ReadingRunning && a.status == Running;
    ready := Next(a, Act(d, Fine));
    ThreeAlone(s, d, a, ready);
  }

  lemma {:induction false} AloneConcat(s: System, d: string, m: nat, n: nat)
    ensures Alone(s, d, m + n) == Alone(Alone(s, d, m), d, n)
    decreases m
  {
    if m == 0 {
    } else {
      AloneConcat(Next(s, Act(d, Fine)), d, m - 1, n);
    }
  }
}
