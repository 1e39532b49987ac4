/** The bounded pool that executes submissions (internal/worker/service.go; offer and execute
    of internal/application/task_service.go are the same pool): its loop and its goroutines as
    interleaved steps, one per channel, map or wait-group operation. */
module WorkerPool {
  import opened Prelude
  import Runs

  // ---------------------------------------------------------------- the system

  /** Where the loop stands. */
  datatype Loop =
    | Selecting
    | Received(id: string)                  // before LoadOrStore
    | Adding(id: string)                    // the mark is set, wg.Add is next
    | TryingSlot(id: string)
    | TryingPlace(id: string)
    | Unmarking(id: string)                 // no room: the mark is taken back
    | Subtracting                           // and then wg.Done
    | Starting(id: string, holdsSlot: bool) // before the go statement
    | Closing                               // the context is done; done is closed next
    | Exited

  /** Where one execute stands; the deferred calls run last to first. */
  datatype Point =
    | Waiting                     // parked, waits for a slot
    | Running(parked: bool)       // holds a slot, and its parking place if it waited
    | LeavingPlace                // gives its parking place back
    | Deleting                    // deletes its mark
    | Finishing                   // wg.Done is next

  datatype Goroutine = Goroutine(id: string, at: Point)

  datatype Pool = Pool(
    max: nat, loop: Loop, queue: seq<string>, slots: nat, parked: nat, inFlight: set<string>, wg: int,
    cancelled: bool, goroutines: map<nat, Goroutine>)

  const QUEUE_DEPTH := 256

  datatype Step =
    | Offer(id: string)          // Dispatch and every sweep
    | Cancel                     // Stop
    | LoopStep(takeQueue: bool, name: nat) // which ready case the select takes; a goroutine's new name
    | GoStep(g: nat, cancel: bool)

  function LoopNext(s: Pool, takeQueue: bool, name: nat): Pool {
    match s.loop
    case Selecting =>
      if s.cancelled && !takeQueue then s.(loop := Closing)
      else if takeQueue && s.queue != [] then
        s.(queue := s.queue[1..], loop := if s.queue[0] == "" then Selecting else Received(s.queue[0]))
      else s
    case Received(id) =>
      if id in s.inFlight then s.(loop := Selecting) else s.(inFlight := s.inFlight + {id}, loop := Adding(id))
    case Adding(id) => s.(wg := s.wg + 1, loop := TryingSlot(id))
    case TryingSlot(id) =>
      if s.slots < s.max then s.(slots := s.slots + 1, loop := Starting(id, true)) else s.(loop := TryingPlace(id))
    case TryingPlace(id) =>
      if s.parked < s.max then s.(parked := s.parked + 1, loop := Starting(id, false)) else s.(loop := Unmarking(id))
    case Unmarking(id) => s.(inFlight := s.inFlight - {id}, loop := Subtracting)
    case Subtracting => s.(wg := s.wg - 1, loop := Selecting)
    case Starting(id, holdsSlot) =>
      if name in s.goroutines then s
      else
        s.(goroutines := s.goroutines[name := Goroutine(id, if holdsSlot then Running(false) else Waiting)],
           loop := Selecting)
    case Closing => s.(loop := Exited)
    case Exited => s
  }

  function At(s: Pool, g: nat, at: Point): Pool
    requires g in s.goroutines
  {
    s.(goroutines := s.goroutines[g := s.goroutines[g].(at := at)])
  }

  /** A receive from an empty channel would block: the step then changes nothing. */
  function GoNext(s: Pool, g: nat, cancel: bool): Pool
    requires g in s.goroutines
  {
    var id := s.goroutines[g].id;
    match s.goroutines[g].at
    case Waiting =>
      if cancel && s.cancelled then At(s, g, LeavingPlace)
      else if s.slots < s.max then At(s.(slots := s.slots + 1), g, Running(true))
      else s
    case Running(parked) =>
      if s.slots == 0 then s else At(s.(slots := s.slots - 1), g, if parked then LeavingPlace else Deleting)
    case LeavingPlace => if s.parked == 0 then s else At(s.(parked := s.parked - 1), g, Deleting)
    case Deleting => At(s.(inFlight := s.inFlight - {id}), g, Finishing)
    case Finishing => s.(wg := s.wg - 1, goroutines := s.goroutines - {g})
  }

  function Next(s: Pool, step: Step): Pool {
    match step
    case Offer(id) => if |s.queue| < QUEUE_DEPTH then s.(queue := s.queue + [id]) else s
    case Cancel => s.(cancelled := true)
    case LoopStep(takeQueue, name) => LoopNext(s, takeQueue, name)
    case GoStep(g, cancel) => if g in s.goroutines then GoNext(s, g, cancel) else s
  }

  function Exec(s: Pool, steps: seq<Step>): Pool {
    Runs.After(Next, s, steps)
  }

  /** A new service with room for `max` executions. */
  function Fresh(max: nat): Pool {
    Pool(max, Selecting, [], 0, 0, {}, 0, false, map[])
  }

  // ---------------------------------------------------------------- the invariant

  function HoldingSlot(gs: map<nat, Goroutine>): set<nat> {
    set g | g in gs && gs[g].at.Running?
  }

  predicate HoldsPlace(at: Point) {
    at.Waiting? || at == Running(true) || at.LeavingPlace?
  }

  function HoldingPlace(gs: map<nat, Goroutine>): set<nat> {
    set g | g in gs && HoldsPlace(gs[g].at)
  }

  predicate Marked(at: Point) {
    !at.Finishing?
  }

  /** The ID the loop has marked and not yet handed to a goroutine. */
  function LoopMark(loop: Loop): Option<string> {
    match loop
    case Adding(id) => Some(id)
    case TryingSlot(id) => Some(id)
    case TryingPlace(id) => Some(id)
    case Unmarking(id) => Some(id)
    case Starting(id, _) => Some(id)
    case _ => None
  }

  predicate LoopCounts(loop: Loop) {
    loop.TryingSlot? || loop.TryingPlace? || loop.Unmarking? || loop.Subtracting? || loop.Starting?
  }

  predicate CountsInv(s: Pool) {
    && s.slots == |HoldingSlot(s.goroutines)| + (if s.loop.Starting? && s.loop.holdsSlot then 1 else 0)
    && s.parked == |HoldingPlace(s.goroutines)| + (if s.loop.Starting? && !s.loop.holdsSlot then 1 else 0)
    && s.wg == |s.goroutines| + (if LoopCounts(s.loop) then 1 else 0)
    && s.slots <= s.max && s.parked <= s.max
  }

  /** The IDs live goroutines have marked. */
  function MarkedIds(gs: map<nat, Goroutine>): set<string> {
    set g | g in gs && Marked(gs[g].at) :: gs[g].id
  }

  predicate NoIdTwice(gs: map<nat, Goroutine>) {
    forall g, h :: g in gs && h in gs && g != h && Marked(gs[g].at) && Marked(gs[h].at) ==> gs[g].id != gs[h].id
  }

  predicate MarksInv(s: Pool) {
    && s.inFlight == MarkedIds(s.goroutines) + (if LoopMark(s.loop).Some? then {LoopMark(s.loop).value} else {})
    && (LoopMark(s.loop).Some? ==> LoopMark(s.loop).value !in MarkedIds(s.goroutines))
    && NoIdTwice(s.goroutines)
  }

  predicate Inv(s: Pool) {
    CountsInv(s) && MarksInv(s)
  }

  // ---------------------------------------------------------------- every step keeps it

  lemma CardinalityOfChange(a: set<nat>, b: set<nat>, g: nat)
    requires a - {g} == b - {g}
    ensures |a| == |b| - (if g in b then 1 else 0) + (if g in a then 1 else 0)
  {
    assert g in a ==> a == a - {g} + {g};
    assert g in b ==> b == b - {g} + {g};
    assert g !in a ==> a == a - {g};
    assert g !in b ==> b == b - {g};
  }

  lemma ReplacedCounts(gs: map<nat, Goroutine>, g: nat, at: Point)
    requires g in gs
    ensures var after := gs[g := gs[g].(at := at)];
      && |after| == |gs|
      && |HoldingSlot(after)| == |HoldingSlot(gs)| - (if gs[g].at.Running? then 1 else 0) + (if at.Running? then 1 else 0)
      && |HoldingPlace(after)| == |HoldingPlace(gs)| - (if HoldsPlace(gs[g].at) then 1 else 0) + (if HoldsPlace(at) then 1 else 0)
  {
    var after := gs[g := gs[g].(at := at)];
    assert after.Keys == gs.Keys && |after.Keys| == |after| && |gs.Keys| == |gs|;
    CardinalityOfChange(HoldingSlot(after), HoldingSlot(gs), g);
    CardinalityOfChange(HoldingPlace(after), HoldingPlace(gs), g);
  }

  lemma AddedCounts(gs: map<nat, Goroutine>, g: nat, goroutine: Goroutine)
    requires g !in gs
    ensures var after := gs[g := goroutine];
      && |after| == |gs| + 1
      && |HoldingSlot(after)| == |HoldingSlot(gs)| + (if goroutine.at.Running? then 1 else 0)
      && |HoldingPlace(after)| == |HoldingPlace(gs)| + (if HoldsPlace(goroutine.at) then 1 else 0)
  {
    var after := gs[g := goroutine];
    assert after.Keys == gs.Keys + {g} && |after.Keys| == |after| && |gs.Keys| == |gs|;
    CardinalityOfChange(HoldingSlot(after), HoldingSlot(gs), g);
    CardinalityOfChange(HoldingPlace(after), HoldingPlace(gs), g);
  }

  lemma RemovedCounts(gs: map<nat, Goroutine>, g: nat)
    requires g in gs && gs[g].at.Finishing?
    ensures var after := gs - {g};
      |after| == |gs| - 1 && HoldingSlot(after) == HoldingSlot(gs) && HoldingPlace(after) == HoldingPlace(gs)
  {
    var after := gs - {g};
    assert gs.Keys == after.Keys + {g} && |after.Keys| == |after| && |gs.Keys| == |gs|;
  }

  lemma StartKeepsCounts(s: Pool, takeQueue: bool, name: nat)
    requires CountsInv(s) && s.loop.Starting?
    ensures CountsInv(LoopNext(s, takeQueue, name))
  {
    if name !in s.goroutines {
      AddedCounts(s.goroutines, name, Goroutine(s.loop.id, if s.loop.holdsSlot then Running(false) else Waiting));
    }
  }

  lemma LoopKeepsCounts(s: Pool, takeQueue: bool, name: nat)
    requires CountsInv(s)
    ensures CountsInv(LoopNext(s, takeQueue, name)) && LoopNext(s, takeQueue, name).max == s.max
  {
    if s.loop.Starting? {
      StartKeepsCounts(s, takeQueue, name);
    } else {
      TakingKeepsCounts(s, takeQueue, name);
    }
  }

  /** Before the go statement the loop only takes and gives back room. */
  lemma TakingKeepsCounts(s: Pool, takeQueue: bool, name: nat)
    requires CountsInv(s) && !s.loop.Starting?
    ensures CountsInv(LoopNext(s, takeQueue, name))
  {
    var after := LoopNext(s, takeQueue, name);
    SameHolders(s.goroutines, after.goroutines);
    assert after.slots == s.slots + if after.loop.Starting? && after.loop.holdsSlot then 1 else 0;
    assert after.parked == s.parked + if after.loop.Starting? && !after.loop.holdsSlot then 1 else 0;
  }

  lemma SameHolders(gs: map<nat, Goroutine>, hs: map<nat, Goroutine>)
    requires gs == hs
    ensures HoldingSlot(gs) == HoldingSlot(hs) && HoldingPlace(gs) == HoldingPlace(hs) && |gs| == |hs|
  {
  }

  lemma GoKeepsCounts(s: Pool, g: nat, cancel: bool)
    requires CountsInv(s) && g in s.goroutines
    ensures CountsInv(GoNext(s, g, cancel))
  {
    var after := GoNext(s, g, cancel);
    var gs := s.goroutines;
    match gs[g].at {
      case Waiting =>
        ReplacedCounts(gs, g, LeavingPlace);
        ReplacedCounts(gs, g, Running(true));
      case Running(parked) => ReplacedCounts(gs, g, if parked then LeavingPlace else Deleting);
      case LeavingPlace => ReplacedCounts(gs, g, Deleting);
      case Deleting => ReplacedCounts(gs, g, Finishing);
      case Finishing => RemovedCounts(gs, g);
    }
  }

  lemma LoopKeepsMarks(s: Pool, takeQueue: bool, name: nat)
    requires MarksInv(s)
    ensures MarksInv(LoopNext(s, takeQueue, name))
  {
    if s.loop.Starting? && name !in s.goroutines {
      var id := s.loop.id;
      var after := LoopNext(s, takeQueue, name).goroutines;
      assert MarkedIds(after) == MarkedIds(s.goroutines) + {id} by {
        assert after[name].id == id && Marked(after[name].at);
        forall g | g in s.goroutines && Marked(s.goroutines[g].at)
          ensures s.goroutines[g].id in MarkedIds(after)
        {
          assert after[g] == s.goroutines[g];
        }
      }
    }
  }

  lemma StillMarked(gs: map<nat, Goroutine>, g: nat, at: Point)
    requires g in gs && Marked(gs[g].at) && Marked(at) && NoIdTwice(gs)
    ensures var after := gs[g := gs[g].(at := at)]; MarkedIds(after) == MarkedIds(gs) && NoIdTwice(after)
  {
    var after := gs[g := gs[g].(at := at)];
    forall h | h in gs
      ensures after[h].id == gs[h].id && (Marked(after[h].at) <==> Marked(gs[h].at))
    {
    }
    forall id | id in MarkedIds(gs)
      ensures id in MarkedIds(after)
    {
      var h :| h in gs && Marked(gs[h].at) && gs[h].id == id;
      assert after[h].id == id;
    }
  }

  lemma NoLongerMarked(gs: map<nat, Goroutine>, g: nat)
    requires g in gs && Marked(gs[g].at) && NoIdTwice(gs)
    ensures var after := gs[g := gs[g].(at := Finishing)];
      MarkedIds(after) == MarkedIds(gs) - {gs[g].id} && NoIdTwice(after)
  {
    var after := gs[g := gs[g].(at := Finishing)];
    forall id | id in MarkedIds(gs) && id != gs[g].id
      ensures id in MarkedIds(after)
    {
      var h :| h in gs && Marked(gs[h].at) && gs[h].id == id;
      assert after[h] == gs[h];
    }
  }

  lemma GoneIsUnmarked(gs: map<nat, Goroutine>, g: nat)
    requires g in gs && !Marked(gs[g].at) && NoIdTwice(gs)
    ensures MarkedIds(gs - {g}) == MarkedIds(gs) && NoIdTwice(gs - {g})
  {
    forall id | id in MarkedIds(gs)
      ensures id in MarkedIds(gs - {g})
    {
      var h :| h in gs && Marked(gs[h].at) && gs[h].id == id;
      assert (gs - {g})[h] == gs[h];
    }
  }

  lemma GoKeepsMarks(s: Pool, g: nat, cancel: bool)
    requires MarksInv(s) && g in s.goroutines
    ensures MarksInv(GoNext(s, g, cancel))
  {
    var gs := s.goroutines;
    match gs[g].at {
      case Waiting =>
        StillMarked(gs, g, LeavingPlace);
        StillMarked(gs, g, Running(true));
      case Running(parked) => StillMarked(gs, g, if parked then LeavingPlace else Deleting);
      case LeavingPlace => StillMarked(gs, g, Deleting);
      case Deleting =>
        assert gs[g].id in MarkedIds(gs);
        NoLongerMarked(gs, g);
      case Finishing => GoneIsUnmarked(gs, g);
    }
  }

  lemma StepKeepsCounts(s: Pool, step: Step)
    requires CountsInv(s)
    ensures CountsInv(Next(s, step)) && Next(s, step).max == s.max
  {
    match step {
      case LoopStep(takeQueue, name) => LoopKeepsCounts(s, takeQueue, name);
      case GoStep(g, cancel) =>
        if g in s.goroutines {
          GoKeepsCounts(s, g, cancel);
        }
      case _ =>
    }
  }

  lemma StepKeepsMarks(s: Pool, step: Step)
    requires MarksInv(s)
    ensures MarksInv(Next(s, step))
  {
    match step {
      case LoopStep(takeQueue, name) => LoopKeepsMarks(s, takeQueue, name);
      case GoStep(g, cancel) =>
        if g in s.goroutines {
          GoKeepsMarks(s, g, cancel);
        }
      case _ =>
    }
  }

  lemma {:induction false} RunKeepsInv(s: Pool, steps: seq<Step>)
    requires Inv(s)
    ensures Inv(Exec(s, steps)) && Exec(s, steps).max == s.max
    decreases steps
  {
    if steps == [] {
    } else {
      StepKeepsCounts(s, steps[0]);
      StepKeepsMarks(s, steps[0]);
      var next := Next(s, steps[0]);
      RunKeepsInv(next, steps[1..]);
    }
  }

  // ---------------------------------------------------------------- what holds in every run

  function Leaving(gs: map<nat, Goroutine>): set<nat> {
    set g | g in gs && (gs[g].at.Deleting? || gs[g].at.Finishing?)
  }

  function Holders(gs: map<nat, Goroutine>): set<nat> {
    HoldingSlot(gs) + HoldingPlace(gs)
  }

  /** A live goroutine either holds a slot or a place, or is on its way out. */
  lemma HoldersAndLeavers(gs: map<nat, Goroutine>)
    ensures |gs| == |Holders(gs)| + |Leaving(gs)|
  {
    assert gs.Keys == Holders(gs) + Leaving(gs) && |gs.Keys| == |gs|;
    assert Holders(gs) !! Leaving(gs);
  }

  lemma CardinalityOfUnion(a: set<nat>, b: set<nat>)
    ensures |a + b| <= |a| + |b|
  {
    assert |a + b| + |a * b| == |a| + |b|;
  }

  /** In every reachable state at most `max` submissions execute, no ID twice, and at most twice
      `max` goroutines hold a slot or a parking place, a parked one keeping its place until it
      ends. The others that live are exactly those past both, so more than twice `max` live
      exactly when more of them leave than places are free. The slots and places taken are
      exactly those held; the in-flight set is exactly the IDs of the marked goroutines and of
      the one the loop is about to start; and a goroutine that gives a slot or a place back
      never blocks. */
  lemma PoolIsBounded(max: nat, steps: seq<Step>)
    ensures var s := Exec(Fresh(max), steps);
      && |HoldingSlot(s.goroutines)| <= max
      && |Holders(s.goroutines)| <= 2 * max
      && |s.goroutines| == |Holders(s.goroutines)| + |Leaving(s.goroutines)|
      && (|s.goroutines| <= 2 * max <==> |Leaving(s.goroutines)| <= 2 * max - |Holders(s.goroutines)|)
      && MarksInv(s) && CountsInv(s)
      && (forall g :: g in s.goroutines && s.goroutines[g].at.Running? ==> s.slots > 0)
      && (forall g :: g in s.goroutines && s.goroutines[g].at.LeavingPlace? ==> s.parked > 0)
  {
    RunKeepsInv(Fresh(max), steps);
    var s := Exec(Fresh(max), steps);
    HoldersAndLeavers(s.goroutines);
    CardinalityOfUnion(HoldingSlot(s.goroutines), HoldingPlace(s.goroutines));
    forall g | g in s.goroutines && s.goroutines[g].at.Running?
      ensures s.slots > 0
    {
      assert g in HoldingSlot(s.goroutines);
    }
    forall g | g in s.goroutines && s.goroutines[g].at.LeavingPlace?
      ensures s.parked > 0
    {
      assert g in HoldingPlace(s.goroutines);
    }
  }

  predicate Stopped(s: Pool) {
    s.loop.Exited? && s.wg == 0
  }

  predicate Empty(s: Pool) {
    s.goroutines == map[] && s.inFlight == {} && s.slots == 0 && s.parked == 0
  }

  lemma StoppedIsEmpty(s: Pool)
    requires Inv(s) && Stopped(s)
    ensures Empty(s)
  {
    assert |s.goroutines| == 0;
    assert |s.goroutines.Keys| == |s.goroutines|;
    assert s.goroutines.Keys == {};
  }

  lemma {:induction false} StoppedStaysStopped(s: Pool, steps: seq<Step>)
    requires Stopped(s) && s.goroutines == map[]
    ensures Stopped(Exec(s, steps))
    decreases steps
  {
    if steps == [] {
    } else {
      StoppedStaysStopped(Next(s, steps[0]), steps[1..]);
    }
  }

  /** Stop returns when the loop has exited and the wait group is at zero. Then no goroutine,
      mark, slot or parking place is left, and nothing later, not even another offer, starts one. */
  lemma NothingOutlivesStop(max: nat, steps: seq<Step>, later: seq<Step>)
    requires Stopped(Exec(Fresh(max), steps))
    ensures Empty(Exec(Exec(Fresh(max), steps), later))
  {
    RunKeepsInv(Fresh(max), steps);
    var s := Exec(Fresh(max), steps);
    StoppedIsEmpty(s);
    StoppedStaysStopped(s, later);
    RunKeepsInv(s, later);
    StoppedIsEmpty(Exec(s, later));
  }

  // ---------------------------------------------------------------- live goroutines are not bounded

  lemma Go(s: Pool, t: Pool, step: Step) returns (t': Pool)
    requires Runs.Reaches(Next, s, t)
    ensures Runs.Reaches(Next, s, t') && t' == Next(t, step)
  {
    t' := Next(t, step);
    Runs.ReachesNext(Next, s, t, step);
  }

  /** A submission that runs and stalls before it deletes its mark. */
  lemma OnePasses(s: Pool, t: Pool, id: string, name: nat) returns (t': Pool)
    requires Runs.Reaches(Next, s, t) && t.max > 0 && t.loop == Selecting && t.queue == [] && t.slots == 0
    requires id != "" && id !in t.inFlight && name !in t.goroutines
    ensures Runs.Reaches(Next, s, t')
    ensures t' == t.(inFlight := t.inFlight + {id}, wg := t.wg + 1,
                     goroutines := t.goroutines[name := Goroutine(id, Deleting)])
  {
    t' := Go(s, t, Offer(id));
    assert t'.queue == [id] && [id][1..] == [];
    t' := Go(s, t', LoopStep(true, name));
    t' := Go(s, t', LoopStep(true, name));
    t' := Go(s, t', LoopStep(true, name));
    assert t' == t.(loop := TryingSlot(id), inFlight := t.inFlight + {id}, wg := t.wg + 1);
    t' := Go(s, t', LoopStep(true, name));
    t' := Go(s, t', LoopStep(true, name));
    assert t'.goroutines == t.goroutines[name := Goroutine(id, Running(false))];
    t' := Go(s, t', GoStep(name, false));
    assert t'.goroutines == t.goroutines[name := Goroutine(id, Deleting)];
  }

  function Name(n: nat): string {
    seq(n, _ => 'x')
  }

  /** Whatever the bound, any number of goroutines can be live at once: those that gave their
      slot back but have not yet deleted their mark. */
  lemma {:induction false} AnyNumberCanBeLive(max: nat, n: nat) returns (t: Pool)
    requires max > 0
    ensures Runs.Reaches(Next, Fresh(max), t) && |t.goroutines| == n
    ensures t.max == max && t.loop == Selecting && t.queue == [] && t.slots == 0
    ensures forall g: nat :: g in t.goroutines ==> g < n
    ensures forall id :: id in t.inFlight ==> |id| <= n
  {
    if n == 0 {
      t := Fresh(max);
      Runs.ReachesItself<Pool, Step>(Next, t);
    } else {
      var before := AnyNumberCanBeLive(max, n - 1);
      t := OnePasses(Fresh(max), before, Name(n), n - 1);
      assert |t.goroutines.Keys| == |t.goroutines| && |before.goroutines.Keys| == |before.goroutines|;
      assert t.goroutines.Keys == before.goroutines.Keys + {n - 1};
    }
  }
}
