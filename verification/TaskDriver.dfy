/** Any number of task drivers over one submission (internal/application/task_run.go,
    task_follow.go): how often the upstream call is made. Each transaction and each upstream
    call is one step; drivers stall, lose their lease, and stop between any two steps. */
module TaskDriver {
  import opened Prelude
  import opened SubmissionStates
  import Leases
  import Runs

  // ---------------------------------------------------------------- the system

  /** Where one run of a driver stands. `first` is the local flag of prepare, `seen` the task
      ID of the row it last read. */
  datatype Point =
    | Claiming | Preparing | Queueing | ReadingBack | Starting | ReadingRunning
    | Ready(first: bool, seen: string) | Opening | AwaitingHandle | Attaching(taskId: string) | Observing
    | Following | Failing(end: Status) | FailStarting(end: Status) | FailEnding(end: Status) | Done

  /** One submission, its lease and its drivers, by lease owner. `replay` says whether the
      bindings prove that a repeated call is harmless; no step changes it. The last four fields only
      record what happened: who moved the row to queued and, to open the task, to running, who
      called upstream, and whether a driver found the row already past queued when it read it
      back after its own move to queued. */
  datatype System = System(
    replay: bool, now: int, lease: Option<Leases.LeaseRow>, status: Status, taskId: string, drivers: map<string, Point>,
    queuer: Option<string>, starter: Option<string>, callers: seq<string>, overtaken: bool)

  /** What the outside answers where a step depends on it. */
  datatype Answer =
    | Fine                      // connected, or nothing to report
    | Deferred                  // contended or transient: the run ends without a write
    | Broken                    // an error that ends the submission
    | Lost                      // no answer to the upstream call
    | Handle(taskId: string)    // the upstream task
    | Observed(to: Status)      // a newer upstream status

  datatype Step =
    | Tick(later: int)
    | Arrive(d: string)
    | Renew(d: string, expiresAt: int)
    | Claim(d: string, expiresAt: int)
    | Act(d: string, answer: Answer)
    | Abandon(d: string)
    | Release(d: string)

  predicate Holds(s: System, d: string) {
    Leases.Held(s.lease, d, s.now)
  }

  /** TransitionLeased, when it is let through. */
  predicate MayMove(s: System, d: string, to: Status) {
    Holds(s, d) && Allowed(s.status, to)
  }

  function At(s: System, d: string, p: Point): System {
    s.(drivers := s.drivers[d := p])
  }

  /** The move by one leased transition, to `next` when it commits. */
  function MoveTo(s: System, d: string, to: Status, next: Point): System {
    if MayMove(s, d, to) then At(s.(status := to), d, next) else At(s, d, Done)
  }

  /** The statuses apply writes. */
  predicate Applies(to: Status) {
    to == Running || to == InputRequired || Terminal(to)
  }

  /** prepare, up to the read of the running row. */
  function Prepare(s: System, d: string, p: Point): System {
    match p
    case Preparing =>
      At(s, d,
         if Terminal(s.status) then Done
         else if s.status == Accepted then Queueing
         else if s.status == Queued then Starting
         else Ready(false, s.taskId))
    case Queueing =>
      if MayMove(s, d, Queued) then At(s.(status := Queued, queuer := Some(d)), d, ReadingBack) else At(s, d, Done)
    case ReadingBack =>
      if s.status == Queued then At(s, d, Starting)
      else if Terminal(s.status) then At(s, d, Done)
      else At(s.(overtaken := true), d, Ready(true, s.taskId))
    case Starting =>
      if MayMove(s, d, Running) then At(s.(status := Running, starter := Some(d)), d, ReadingRunning)
      else At(s, d, Done)
    case ReadingRunning => At(s, d, if Terminal(s.status) then Done else Ready(true, s.taskId))
    case _ => s
  }

  /** ensureTask. */
  function Ensure(s: System, d: string, p: Point, answer: Answer): System {
    match p
    case Ready(first, seen) =>
      if answer.Deferred? then At(s, d, Done)
      else if answer.Broken? then At(s, d, Failing(Failed))
      else if seen != "" then At(s, d, Following)
      else if !first && !s.replay then At(s, d, Failing(OutcomeUnknown))
      else At(s, d, Opening)
    case Opening => At(s.(callers := s.callers + [d]), d, AwaitingHandle)
    case AwaitingHandle =>
      At(s, d,
         match answer
         case Handle(taskId) => Attaching(taskId)
         case Broken => Failing(Failed)
         case Lost => if s.replay then Done else Failing(OutcomeUnknown)
         case _ => Done)
    case Attaching(taskId) =>
      At(if s.taskId == "" && taskId != "" then s.(taskId := taskId) else s, d, Observing)
    case Observing => At(s, d, if Holds(s, d) && !Terminal(s.status) then Following else Done)
    case _ => s
  }

  /** The follow loop and fail. */
  function Follow(s: System, d: string, p: Point, answer: Answer): System {
    match p
    case Following =>
      (match answer
       case Observed(to) => if Applies(to) && MayMove(s, d, to) then s.(status := to) else s
       case Broken => At(s, d, Failing(Failed))
       case Fine => s
       case _ => At(s, d, Done))
    case Failing(end) =>
      At(s, d,
         if answer.Deferred? || Terminal(s.status) then Done
         else if s.status == Accepted || s.status == Queued then FailStarting(end)
         else FailEnding(end))
    case FailStarting(end) => MoveTo(s, d, Running, FailEnding(end))
    case FailEnding(end) => MoveTo(s, d, end, Done)
    case _ => s
  }

  predicate InPrepare(p: Point) {
    p.Preparing? || p.Queueing? || p.ReadingBack? || p.Starting? || p.ReadingRunning?
  }

  predicate InEnsure(p: Point) {
    p.Ready? || p.Opening? || p.AwaitingHandle? || p.Attaching? || p.Observing?
  }

  function Next(s: System, step: Step): System {
    match step
    case Tick(later) => if later >= s.now then s.(now := later) else s
    case Arrive(d) => if d in s.drivers then s else At(s, d, Claiming)
    case Renew(d, expiresAt) => s.(lease := Leases.Renewed(s.lease, d, s.now, expiresAt))
    case Claim(d, expiresAt) =>
      if d !in s.drivers || s.drivers[d] != Claiming then s
      else
        At(s.(lease := Leases.Claimed(s.lease, d, s.now, expiresAt)), d,
           if Leases.ClaimApplies(s.lease, d, s.now) then Preparing else Done)
    case Act(d, answer) =>
      if d !in s.drivers then s
      else
        var p := s.drivers[d];
        if InPrepare(p) then Prepare(s, d, p)
        else if InEnsure(p) then Ensure(s, d, p, answer)
        else Follow(s, d, p, answer)
    case Abandon(d) => if d in s.drivers then At(s, d, Done) else s
    case Release(d) =>
      if d in s.drivers && s.drivers[d].Done? then s.(lease := Leases.Released(s.lease, d)) else s
  }

  function Exec(s: System, steps: seq<Step>): System {
    Runs.After(Next, s, steps)
  }

  /** A submission as it was just accepted, whose bindings prove nothing; nobody has worked on it yet. */
  predicate Initial(s: System) {
    && !s.replay && s.status == Accepted && s.taskId == "" && s.drivers == map[]
    && s.queuer.None? && s.starter.None? && s.callers == [] && !s.overtaken
  }

  // ---------------------------------------------------------------- the invariant

  /** A run that has not yet come to its upstream call. */
  predicate BeforeCall(p: Point) {
    p.Claiming? || InPrepare(p) || p.Ready? || p.Opening?
  }

  /** Who may call: the driver that itself moved the row from queued to running, and one that
      was overtaken between its move to queued and its next read. */
  predicate Entitled(s: System, d: string) {
    s.starter == Some(d) || (s.overtaken && s.queuer == Some(d))
  }

  predicate DriverInv(s: System, d: string, p: Point) {
    && (p.ReadingBack? ==> s.queuer == Some(d) && (s.status == Queued || !Leases.Owns(s.lease, d)))
    && (p.Starting? ==> s.status == Queued || !Leases.Owns(s.lease, d))
    && (p.Failing? || p.FailStarting? || p.FailEnding? ==> Terminal(p.end))
    && (p.ReadingRunning? ==> s.starter == Some(d))
    && ((p.Ready? && p.first) || p.Opening? ==> Entitled(s, d))
    && (d in s.callers ==> !BeforeCall(p))
  }

  /** Invariant of operations whose bindings do not prove a repeated call harmless. */
  predicate Inv(s: System) {
    && !s.replay
    && Valid(s.status)
    && (s.status == Accepted ==> s.queuer.None?)
    && (s.status == Accepted || s.status == Queued ==> s.starter.None?)
    && (forall d :: d in s.drivers ==> DriverInv(s, d, s.drivers[d]))
    && (forall c :: c in s.callers ==> c in s.drivers && Entitled(s, c))
    && (forall i, j :: 0 <= i < j < |s.callers| ==> s.callers[i] != s.callers[j])
  }

  /** A step of driver d: a write only under its lease, a record only written once. */
  predicate Advances(s: System, d: string, after: System) {
    && d in s.drivers && d in after.drivers && after == s.(
         status := after.status, taskId := after.taskId, drivers := s.drivers[d := after.drivers[d]],
         queuer := after.queuer, starter := after.starter, callers := after.callers, overtaken := after.overtaken)
    && Valid(after.status)
    && (after.status == s.status || (Holds(s, d) && Allowed(s.status, after.status)))
    && (after.queuer == s.queuer || (s.status == Accepted && after.status == Queued))
    && (s.status == Accepted && after.status == Queued ==> after.queuer == Some(d))
    && (after.starter == s.starter || (s.status == Queued && after.status == Running))
    && (s.overtaken ==> after.overtaken)
    && (after.callers == s.callers || (after.callers == s.callers + [d] && d !in s.callers && Entitled(s, d)))
    && DriverInv(after, d, after.drivers[d])
  }

  lemma OthersKeepTheirs(s: System, d: string, after: System, x: string)
    requires Inv(s) && Advances(s, d, after) && x in s.drivers && x != d
    ensures DriverInv(after, x, s.drivers[x])
    ensures Entitled(s, x) ==> Entitled(after, x)
  {
    assert DriverInv(s, x, s.drivers[x]);
  }

  lemma AdvanceKeepsInv(s: System, d: string, after: System)
    requires Inv(s) && Advances(s, d, after)
    ensures Inv(after)
  {
    forall x | x in after.drivers
      ensures DriverInv(after, x, after.drivers[x])
    {
      if x != d {
        OthersKeepTheirs(s, d, after, x);
      }
    }
    forall c | c in after.callers
      ensures c in after.drivers && Entitled(after, c)
    {
    }
  }

  lemma PrepareKeepsInv(s: System, d: string)
    requires Inv(s) && d in s.drivers && InPrepare(s.drivers[d])
    ensures Inv(Prepare(s, d, s.drivers[d]))
  {
    assert DriverInv(s, d, s.drivers[d]);
    AdvanceKeepsInv(s, d, Prepare(s, d, s.drivers[d]));
  }

  lemma EnsureKeepsInv(s: System, d: string, answer: Answer)
    requires Inv(s) && d in s.drivers && InEnsure(s.drivers[d])
    ensures Inv(Ensure(s, d, s.drivers[d], answer))
  {
    assert DriverInv(s, d, s.drivers[d]);
    AdvanceKeepsInv(s, d, Ensure(s, d, s.drivers[d], answer));
  }

  /** A point after the call, about which the invariant says nothing but how it may end. */
  predicate Late(p: Point) {
    p.Following? || p.Done? || ((p.Failing? || p.FailStarting? || p.FailEnding?) && Terminal(p.end))
  }

  lemma LateStepKeepsInv(s: System, d: string, to: Status, next: Point)
    requires Inv(s) && d in s.drivers && Late(next)
    requires to == s.status || (MayMove(s, d, to) && to != Queued)
    ensures Inv(At(s.(status := to), d, next))
  {
    assert DriverInv(s, d, s.drivers[d]);
    AdvanceKeepsInv(s, d, At(s.(status := to), d, next));
  }

  lemma FollowKeepsInv(s: System, d: string, answer: Answer)
    requires Inv(s) && d in s.drivers && !InPrepare(s.drivers[d]) && !InEnsure(s.drivers[d])
    ensures Inv(Follow(s, d, s.drivers[d], answer))
  {
    var p, after := s.drivers[d], Follow(s, d, s.drivers[d], answer);
    assert DriverInv(s, d, p);
    assert s.drivers == s.drivers[d := p] && s == s.(status := s.status);
    if !p.Claiming? {
      assert Late(p) && Late(after.drivers[d]);
      LateStepKeepsInv(s, d, after.status, after.drivers[d]);
    }
  }

  /** Time passes, and the lease row goes at most to a driver that has not read anything yet. */
  lemma LeaseKeepsInv(s: System, after: System)
    requires Inv(s) && after == s.(now := after.now, lease := after.lease)
    requires after.lease.Some? && after.lease.value.owner in s.drivers ==>
      Leases.Owns(s.lease, after.lease.value.owner) || s.drivers[after.lease.value.owner].Claiming?
    ensures Inv(after)
  {
    forall d | d in after.drivers
      ensures DriverInv(after, d, after.drivers[d])
    {
      assert DriverInv(s, d, s.drivers[d]);
    }
  }

  lemma ClaimKeepsInv(s: System, d: string, expiresAt: int)
    requires Inv(s)
    ensures Inv(Next(s, Claim(d, expiresAt)))
  {
    if d in s.drivers && s.drivers[d] == Claiming {
      assert DriverInv(s, d, Claiming);
      var claimed := s.(lease := Leases.Claimed(s.lease, d, s.now, expiresAt));
      LeaseKeepsInv(s, claimed);
      AdvanceKeepsInv(claimed, d, Next(s, Claim(d, expiresAt)));
    }
  }

  lemma ArriveKeepsInv(s: System, d: string)
    requires Inv(s) && d !in s.drivers
    ensures Inv(At(s, d, Claiming))
  {
    var after := At(s, d, Claiming);
    forall x | x in after.drivers
      ensures DriverInv(after, x, after.drivers[x])
    {
      assert x != d ==> DriverInv(s, x, s.drivers[x]);
    }
  }

  lemma StepKeepsInv(s: System, step: Step)
    requires Inv(s)
    ensures Inv(Next(s, step))
  {
    match step {
      case Act(d, answer) =>
        if d in s.drivers {
          if InPrepare(s.drivers[d]) {
            PrepareKeepsInv(s, d);
          } else if InEnsure(s.drivers[d]) {
            EnsureKeepsInv(s, d, answer);
          } else {
            FollowKeepsInv(s, d, answer);
          }
        }
      case Arrive(d) =>
        if d !in s.drivers {
          ArriveKeepsInv(s, d);
        }
      case Claim(d, expiresAt) => ClaimKeepsInv(s, d, expiresAt);
      case Abandon(d) =>
        if d in s.drivers {
          assert s == s.(status := s.status);
          LateStepKeepsInv(s, d, s.status, Done);
        }
      case _ => LeaseKeepsInv(s, Next(s, step));
    }
  }

  lemma {:induction false} RunKeepsInv(s: System, steps: seq<Step>)
    requires Inv(s)
    ensures Inv(Exec(s, steps))
    decreases steps
  {
    if steps == [] {
    } else {
      StepKeepsInv(s, steps[0]);
      RunKeepsInv(Next(s, steps[0]), steps[1..]);
    }
  }

  // ---------------------------------------------------------------- how often the call is made

  lemma {:induction false} NoMoreThan(callers: seq<string>, named: set<string>)
    requires forall i :: 0 <= i < |callers| ==> callers[i] in named
    requires forall i, j :: 0 <= i < j < |callers| ==> callers[i] != callers[j]
    ensures |callers| <= |named|
    decreases callers
  {
    if callers != [] {
      assert callers[0] in named;
      assert |named - {callers[0]}| == |named| - 1;
      NoMoreThan(callers[1..], named - {callers[0]});
    }
  }

  lemma AtMostTwo(callers: seq<string>, x: Option<string>, y: Option<string>)
    requires forall i :: 0 <= i < |callers| ==> x == Some(callers[i]) || y == Some(callers[i])
    requires forall i, j :: 0 <= i < j < |callers| ==> callers[i] != callers[j]
    ensures |callers| <= 2
    ensures y.None? ==> |callers| <= 1
  {
    var named := (if x.Some? then {x.value} else {}) + (if y.Some? then {y.value} else {});
    NoMoreThan(callers, named);
  }

  lemma CallersAreFew(s: System)
    requires Inv(s)
    ensures |s.callers| <= 2
    ensures !s.overtaken ==> |s.callers| <= 1
  {
    forall i | 0 <= i < |s.callers|
      ensures Entitled(s, s.callers[i])
    {
      assert s.callers[i] in s.callers;
    }
    AtMostTwo(s.callers, s.starter, if s.overtaken then s.queuer else None);
  }

  /** Over any runs, stalls, lease losses and racing drivers the call is made at most twice,
      and at most once unless a driver was overtaken while it read its move to queued back. */
  lemma AtMostOnceUnlessOvertaken(s: System, steps: seq<Step>)
    requires Initial(s)
    ensures var after := Exec(s, steps);
            |after.callers| <= 2 && (!after.overtaken ==> |after.callers| <= 1)
  {
    RunKeepsInv(s, steps);
    CallersAreFew(Exec(s, steps));
  }

  /** The lease row still names the driver whenever it reads its move to queued back. */
  predicate LeaseOutlivesReadBack(s: System, steps: seq<Step>)
    decreases steps
  {
    steps == [] ||
    (var d := if steps[0].Act? then steps[0].d else "";
     (steps[0].Act? && d in s.drivers && s.drivers[d].ReadingBack? ==> Leases.Owns(s.lease, d))
     && LeaseOutlivesReadBack(Next(s, steps[0]), steps[1..]))
  }

  /** A driver that still holds its lease row finds the row queued: nobody overtook it. */
  lemma OnlyALostLeaseIsOvertaken(s: System, step: Step)
    requires Inv(s)
    requires step.Act? && step.d in s.drivers && s.drivers[step.d].ReadingBack? ==> Leases.Owns(s.lease, step.d)
    ensures Next(s, step).overtaken == s.overtaken
  {
    if step.Act? && step.d in s.drivers {
      assert DriverInv(s, step.d, s.drivers[step.d]);
    }
  }

  lemma {:induction false} NobodyIsOvertaken(s: System, steps: seq<Step>)
    requires Inv(s) && LeaseOutlivesReadBack(s, steps)
    ensures Exec(s, steps).overtaken == s.overtaken
    decreases steps
  {
    if steps == [] {
    } else {
      OnlyALostLeaseIsOvertaken(s, steps[0]);
      StepKeepsInv(s, steps[0]);
      NobodyIsOvertaken(Next(s, steps[0]), steps[1..]);
    }
  }

  /** At most one upstream call in every run, whatever else is lost, crashes or races, in which
      no driver loses its lease between its move to queued and the read that follows it. */
  lemma AtMostOneCall(s: System, steps: seq<Step>)
    requires Initial(s) && LeaseOutlivesReadBack(s, steps)
    ensures |Exec(s, steps).callers| <= 1
  {
    NobodyIsOvertaken(s, steps);
    AtMostOnceUnlessOvertaken(s, steps);
  }

  // ---------------------------------------------------------------- the call made twice

  lemma ThreeSteps(s: System, a: System, b: System, step: Step)
    requires a == Next(s, step) && b == Next(a, step)
    ensures Exec(s, [step, step, step]) == Next(b, step)
  {
    var three, two, one := [step, step, step], [step, step], [step];
    assert three[1..] == two && two[1..] == one;
    Runs.AfterOne(Next, b, step);
    assert Exec(a, two) == Exec(b, one);
  }

  lemma ReadBackQueued(s: System, d: string) returns (a: System, b: System)
    requires d in s.drivers && s.drivers[d].ReadingBack? && s.status == Queued
    ensures a == Next(s, Act(d, Fine)) && b == Next(a, Act(d, Fine))
    ensures Next(b, Act(d, Fine)).callers == s.callers
  {
    a := Next(s, Act(d, Fine));
    assert a.drivers[d] == Starting && a.callers == s.callers;
    b := Next(a, Act(d, Fine));
    assert (b.drivers[d].ReadingRunning? || b.drivers[d].Done?) && b.callers == s.callers;
  }

  lemma ReadBackOvertaken(s: System, d: string) returns (a: System, b: System)
    requires d in s.drivers && s.drivers[d].ReadingBack? && s.status != Queued
    ensures a == Next(s, Act(d, Fine)) && b == Next(a, Act(d, Fine))
    ensures Next(b, Act(d, Fine)).callers
         == s.callers + if !Terminal(s.status) && s.taskId == "" then [d] else []
  {
    a := Next(s, Act(d, Fine));
    assert a.drivers[d] == (if Terminal(s.status) then Done else Ready(true, s.taskId)) && a.callers == s.callers;
    b := Next(a, Act(d, Fine));
    assert b.callers == s.callers;
    assert b.drivers[d] == if Terminal(s.status) then Done else if s.taskId != "" then Following else Opening;
  }

  /** The guard that decides: a driver that reads its move to queued back and, left alone,
      goes on, makes the call exactly when it finds the row past queued, not finished, and
      without a task ID, whether or not the driver that moved the row on has called yet. */
  lemma ReadBackDecides(s: System, d: string)
    requires d in s.drivers && s.drivers[d].ReadingBack?
    ensures var on := Act(d, Fine);
      Exec(s, [on, on, on]).callers
      == s.callers + if s.status != Queued && !Terminal(s.status) && s.taskId == "" then [d] else []
  {
    var a, b;
    if s.status == Queued {
      a, b := ReadBackQueued(s, d);
    } else {
      a, b := ReadBackOvertaken(s, d);
    }
    ThreeSteps(s, a, b, Act(d, Fine));
  }

  // ---------------------------------------------------------------- which runs lead two drivers to the call

  /** A driver that, left alone, makes the call. */
  predicate AtCall(s: System, d: string) {
    d in s.drivers && (s.drivers[d] == Ready(true, "") || s.drivers[d].Opening?)
  }

  /** The read-back of a driver that was overtaken finds no task ID. */
  predicate FindsItselfOvertaken(s: System, step: Step, d: string) {
    && step.Act? && step.d == d && d in s.drivers && s.drivers[d].ReadingBack?
    && s.status != Queued && !Terminal(s.status) && s.taskId == ""
  }

  /** The driver that moved the row to running reads it back unfinished and without a task ID. */
  predicate FindsItselfFirst(s: System, step: Step, d: string) {
    && step.Act? && step.d == d && d in s.drivers && s.drivers[d].ReadingRunning?
    && !Terminal(s.status) && s.taskId == ""
  }

  /** At some point of the run the driver is about to call. */
  ghost predicate ComesToCall(s: System, steps: seq<Step>, d: string)
    decreases steps
  {
    AtCall(s, d) || (steps != [] && ComesToCall(Next(s, steps[0]), steps[1..], d))
  }

  ghost predicate Overtaken(s: System, steps: seq<Step>, d: string)
    decreases steps
  {
    steps != [] && (FindsItselfOvertaken(s, steps[0], d) || Overtaken(Next(s, steps[0]), steps[1..], d))
  }

  ghost predicate First(s: System, steps: seq<Step>, d: string)
    decreases steps
  {
    steps != [] && (FindsItselfFirst(s, steps[0], d) || First(Next(s, steps[0]), steps[1..], d))
  }

  /** A driver's own step moves nobody else. */
  lemma PrepareMovesOne(s: System, d: string, x: string)
    requires d in s.drivers && x != d
    ensures Lookup(Prepare(s, d, s.drivers[d]).drivers, x) == Lookup(s.drivers, x)
  {
  }

  lemma EnsureMovesOne(s: System, d: string, answer: Answer, x: string)
    requires d in s.drivers && x != d
    ensures Lookup(Ensure(s, d, s.drivers[d], answer).drivers, x) == Lookup(s.drivers, x)
  {
  }

  lemma FollowMovesOne(s: System, d: string, answer: Answer, x: string)
    requires d in s.drivers && x != d
    ensures Lookup(Follow(s, d, s.drivers[d], answer).drivers, x) == Lookup(s.drivers, x)
  {
  }

  lemma ActMovesOne(s: System, d: string, answer: Answer, x: string)
    requires x != d
    ensures Lookup(Next(s, Act(d, answer)).drivers, x) == Lookup(s.drivers, x)
  {
    if d in s.drivers {
      if InPrepare(s.drivers[d]) {
        PrepareMovesOne(s, d, x);
      } else if InEnsure(s.drivers[d]) {
        EnsureMovesOne(s, d, answer, x);
      } else {
        FollowMovesOne(s, d, answer, x);
      }
    }
  }

  lemma OnlyActsMove(s: System, step: Step, d: string)
    requires !step.Act?
    ensures d in s.drivers ==> d in Next(s, step).drivers
    ensures d in s.drivers ==>
      var p, q := s.drivers[d], Next(s, step).drivers[d]; q == p || q.Done? || (p.Claiming? && q.Preparing?)
    ensures d !in s.drivers && d in Next(s, step).drivers ==> Next(s, step).drivers[d].Claiming?
  {
  }

  /** A driver moves by its own steps alone; what else happens to it is to begin or to stop. */
  lemma OnlyOwnStepsMove(s: System, step: Step, d: string)
    requires !(step.Act? && step.d == d)
    ensures d in s.drivers ==> d in Next(s, step).drivers
    ensures d in s.drivers ==>
      var p, q := s.drivers[d], Next(s, step).drivers[d]; q == p || q.Done? || (p.Claiming? && q.Preparing?)
    ensures d !in s.drivers && d in Next(s, step).drivers ==> Next(s, step).drivers[d].Claiming?
  {
    if step.Act? {
      ActMovesOne(s, step.d, step.answer, d);
      assert Lookup(Next(s, step).drivers, d) == Lookup(s.drivers, d);
    } else {
      OnlyActsMove(s, step, d);
    }
  }

  lemma PrepareToCall(s: System, d: string)
    requires d in s.drivers && InPrepare(s.drivers[d])
    ensures var step := Act(d, Fine);
      AtCall(Prepare(s, d, s.drivers[d]), d) <==> FindsItselfOvertaken(s, step, d) || FindsItselfFirst(s, step, d)
  {
  }

  lemma EnsureToCall(s: System, d: string, answer: Answer)
    requires !s.replay && d in s.drivers && InEnsure(s.drivers[d]) && !AtCall(s, d)
    ensures !AtCall(Ensure(s, d, s.drivers[d], answer), d)
  {
  }

  lemma FollowToCall(s: System, d: string, answer: Answer)
    requires d in s.drivers && !InPrepare(s.drivers[d]) && !InEnsure(s.drivers[d])
    ensures !AtCall(Follow(s, d, s.drivers[d], answer), d)
  {
  }

  lemma OneStepToCall(s: System, step: Step, d: string)
    requires !s.replay && !AtCall(s, d)
    ensures AtCall(Next(s, step), d) <==> FindsItselfOvertaken(s, step, d) || FindsItselfFirst(s, step, d)
  {
    if !(step.Act? && step.d == d) {
      OnlyOwnStepsMove(s, step, d);
    } else if d !in s.drivers {
    } else if InPrepare(s.drivers[d]) {
      PrepareToCall(s, d);
    } else if InEnsure(s.drivers[d]) {
      EnsureToCall(s, d, step.answer);
    } else {
      FollowToCall(s, d, step.answer);
    }
  }

  lemma {:induction false} HowADriverComesToCall(s: System, steps: seq<Step>, d: string)
    requires Inv(s) && !AtCall(s, d)
    ensures ComesToCall(s, steps, d) ==> Overtaken(s, steps, d) || First(s, steps, d)
    decreases steps
  {
    if steps == [] {
    } else {
      OneStepToCall(s, steps[0], d);
      StepKeepsInv(s, steps[0]);
      if !AtCall(Next(s, steps[0]), d) {
        HowADriverComesToCall(Next(s, steps[0]), steps[1..], d);
      }
    }
  }

  lemma {:induction false} GuardsLeadToTheCall(s: System, steps: seq<Step>, d: string)
    requires Inv(s)
    ensures Overtaken(s, steps, d) || First(s, steps, d) ==> ComesToCall(s, steps, d)
    decreases steps
  {
    if steps == [] {
    } else {
      if !AtCall(s, d) {
        OneStepToCall(s, steps[0], d);
      }
      StepKeepsInv(s, steps[0]);
      GuardsLeadToTheCall(Next(s, steps[0]), steps[1..], d);
    }
  }

  /** Who moved the row to queued, and to running, is settled once. */
  lemma RecordsStay(s: System, step: Step)
    requires Inv(s)
    ensures s.queuer.Some? ==> Next(s, step).queuer == s.queuer
    ensures s.starter.Some? ==> Next(s, step).starter == s.starter
  {
  }

  lemma {:induction false} RecordsStayThroughout(s: System, steps: seq<Step>)
    requires Inv(s)
    ensures s.queuer.Some? ==> Exec(s, steps).queuer == s.queuer
    ensures s.starter.Some? ==> Exec(s, steps).starter == s.starter
    decreases steps
  {
    if steps == [] {
    } else {
      RecordsStay(s, steps[0]);
      StepKeepsInv(s, steps[0]);
      RecordsStayThroughout(Next(s, steps[0]), steps[1..]);
    }
  }

  lemma {:induction false} GuardsNameTheMovers(s: System, steps: seq<Step>, d: string)
    requires Inv(s)
    ensures Overtaken(s, steps, d) ==> Exec(s, steps).queuer == Some(d)
    ensures First(s, steps, d) ==> Exec(s, steps).starter == Some(d)
    decreases steps
  {
    if steps == [] {
    } else {
      var next := Next(s, steps[0]);
      StepKeepsInv(s, steps[0]);
      GuardsNameTheMovers(next, steps[1..], d);
      if FindsItselfOvertaken(s, steps[0], d) || FindsItselfFirst(s, steps[0], d) {
        assert DriverInv(s, d, s.drivers[d]);
        RecordsStay(s, steps[0]);
        RecordsStayThroughout(next, steps[1..]);
      }
    }
  }

  /** Past its preparation a driver does not prepare again. */
  predicate Prepared(s: System, d: string) {
    d in s.drivers && !s.drivers[d].Claiming? && !InPrepare(s.drivers[d])
  }

  lemma PreparedStays(s: System, step: Step, d: string)
    requires Prepared(s, d)
    ensures Prepared(Next(s, step), d)
  {
    if !(step.Act? && step.d == d) {
      OnlyOwnStepsMove(s, step, d);
    }
  }

  lemma {:induction false} PreparedMeetsNoGuard(s: System, steps: seq<Step>, d: string)
    requires Prepared(s, d)
    ensures !Overtaken(s, steps, d) && !First(s, steps, d)
    decreases steps
  {
    if steps == [] {
    } else {
      PreparedStays(s, steps[0], d);
      PreparedMeetsNoGuard(Next(s, steps[0]), steps[1..], d);
    }
  }

  lemma {:induction false} OneGuardPerDriver(s: System, steps: seq<Step>, d: string)
    ensures !(Overtaken(s, steps, d) && First(s, steps, d))
    decreases steps
  {
    if steps == [] {
    } else if FindsItselfOvertaken(s, steps[0], d) || FindsItselfFirst(s, steps[0], d) {
      PreparedMeetsNoGuard(Next(s, steps[0]), steps[1..], d);
    } else {
      OneGuardPerDriver(Next(s, steps[0]), steps[1..], d);
    }
  }

  ghost predicate BothCome(s: System, steps: seq<Step>, x: string, y: string) {
    x != y && ComesToCall(s, steps, x) && ComesToCall(s, steps, y)
  }

  ghost predicate FirstAndOvertaken(s: System, steps: seq<Step>, x: string, y: string) {
    First(s, steps, x) && Overtaken(s, steps, y)
  }

  /** Two drivers come to make the call in a run exactly when one driver's read-back finds the
      row past queued, unfinished and without a task ID, and the driver that had moved it on
      finds it so too. In any order; and never three. */
  lemma TwoDriversComeToCall(s: System, steps: seq<Step>)
    requires Initial(s)
    ensures (exists x, y :: BothCome(s, steps, x, y)) <==> (exists x, y :: FirstAndOvertaken(s, steps, x, y))
    ensures forall x, y, z :: ComesToCall(s, steps, x) && ComesToCall(s, steps, y) && ComesToCall(s, steps, z) ==>
      x == y || x == z || y == z
  {
    forall d
      ensures ComesToCall(s, steps, d) <==> Overtaken(s, steps, d) || First(s, steps, d)
      ensures !(Overtaken(s, steps, d) && First(s, steps, d))
      ensures Overtaken(s, steps, d) ==> Exec(s, steps).queuer == Some(d)
      ensures First(s, steps, d) ==> Exec(s, steps).starter == Some(d)
    {
      HowADriverComesToCall(s, steps, d);
      GuardsLeadToTheCall(s, steps, d);
      OneGuardPerDriver(s, steps, d);
      GuardsNameTheMovers(s, steps, d);
    }
    if x, y :| BothCome(s, steps, x, y) {
      assert FirstAndOvertaken(s, steps, x, y) || FirstAndOvertaken(s, steps, y, x);
    }
    if x, y :| FirstAndOvertaken(s, steps, x, y) {
      assert BothCome(s, steps, x, y);
    }
  }

  lemma CallsComeFromTheCall(s: System, step: Step, d: string)
    requires d in Next(s, step).callers && d !in s.callers
    ensures AtCall(s, d)
  {
  }

  /** Only a driver that came to the call makes it. */
  lemma {:induction false} CallersCameToCall(s: System, steps: seq<Step>, d: string)
    requires d in Exec(s, steps).callers && d !in s.callers
    ensures ComesToCall(s, steps, d)
    decreases steps
  {
    if steps == [] {
    } else if d in Next(s, steps[0]).callers {
      CallsComeFromTheCall(s, steps[0], d);
    } else {
      CallersCameToCall(Next(s, steps[0]), steps[1..], d);
    }
  }

  /** And one that came to it, left alone, makes it, whatever happened since. */
  lemma ComingToCallIsCalling(s: System, d: string)
    requires AtCall(s, d)
    ensures d in Exec(s, [Act(d, Fine), Act(d, Fine)]).callers
  {
    var on := Act(d, Fine);
    assert [on, on][1..] == [on];
    Runs.AfterOne(Next, Next(s, on), on);
    if s.drivers[d].Opening? {
      assert d in Next(s, on).callers && Next(s, on).drivers[d] == AwaitingHandle;
    } else {
      assert Next(s, on).drivers[d] == Opening;
    }
  }

  // ---------------------------------------------------------------- a run with two calls

  const JUST_ACCEPTED := System(false, 0, None, Accepted, "", map[], None, None, [], false)

  ghost predicate Reached(s: System) {
    Runs.Reaches(Next, JUST_ACCEPTED, s)
  }

  lemma Go(s: System, step: Step) returns (s': System)
    requires Reached(s)
    ensures Reached(s') && s' == Next(s, step)
  {
    s' := Next(s, step);
    Runs.ReachesNext(Next, JUST_ACCEPTED, s, step);
  }

  lemma FirstDriverClaims() returns (s: System)
    ensures Reached(s)
    ensures s == JUST_ACCEPTED.(lease := Some(Leases.LeaseRow("a", 10, 1)), drivers := map["a" := Preparing])
  {
    s := JUST_ACCEPTED;
    Runs.ReachesItself<System, Step>(Next, s);
    s := Go(s, Arrive("a"));
    s := Go(s, Claim("a", 10));
    assert s.drivers == map["a" := Preparing];
  }

  /** Driver a has moved the row to queued and stalls until its lease has expired. */
  lemma FirstDriverStalls() returns (s: System)
    ensures Reached(s)
    ensures s == System(false, 20, Some(Leases.LeaseRow("a", 10, 1)), Queued, "", map["a" := ReadingBack],
                        Some("a"), None, [], false)
  {
    s := FirstDriverClaims();
    s := Go(s, Act("a", Fine));
    assert s.drivers == map["a" := Queueing];
    s := Go(s, Act("a", Fine));
    s := Go(s, Tick(20));
    assert s.drivers == map["a" := ReadingBack];
  }

  /** Driver b takes over and moves the row to running. */
  lemma SecondDriverTakesOver() returns (s: System)
    ensures Reached(s)
    ensures s == System(false, 20, Some(Leases.LeaseRow("b", 40, 2)), Running, "",
                        map["a" := ReadingBack, "b" := ReadingRunning], Some("a"), Some("b"), [], false)
  {
    s := FirstDriverStalls();
    s := Go(s, Arrive("b"));
    s := Go(s, Claim("b", 40));
    assert s.drivers == map["a" := ReadingBack, "b" := Preparing];
    s := Go(s, Act("b", Fine));
    assert s.drivers == map["a" := ReadingBack, "b" := Starting];
    s := Go(s, Act("b", Fine));
    assert s.drivers == map["a" := ReadingBack, "b" := ReadingRunning];
  }

  /** Driver b calls upstream. */
  lemma SecondDriverCalls() returns (s: System)
    ensures Reached(s)
    ensures s.status == Running && s.taskId == "" && s.callers == ["b"]
    ensures "a" in s.drivers && s.drivers["a"] == ReadingBack
  {
    s := SecondDriverTakesOver();
    s := Go(s, Act("b", Fine));
    assert s.drivers["b"] == Ready(true, "") && s.drivers["a"] == ReadingBack;
    s := Go(s, Act("b", Fine));
    assert s.drivers["b"] == Opening && s.drivers["a"] == ReadingBack;
    s := Go(s, Act("b", Fine));
  }

  /** The call is made twice in a run of a submission whose bindings do not prove that a
      repeated call is harmless. */
  lemma TwoCallsAreReachable() returns (steps: seq<Step>)
    ensures Initial(JUST_ACCEPTED) && |Exec(JUST_ACCEPTED, steps).callers| == 2
  {
    var s := SecondDriverCalls();
    s := Go(s, Act("a", Fine));
    s := Go(s, Act("a", Fine));
    s := Go(s, Act("a", Fine));
    steps :| Runs.After(Next, JUST_ACCEPTED, steps) == s;
  }
}
