/** What the bounded pool does with the work it is given (internal/worker/service.go): which
    offers are executed, parked or turned away, and what an execution gives back. */
module WorkerProgress {
  import opened WorkerPool

  // ---------------------------------------------------------------- the loop

  /** n steps of the loop in which it receives nothing new. */
  function Loops(s: Pool, name: nat, n: nat): Pool
    decreases n
  {
    if n == 0 then s else Loops(Next(s, LoopStep(false, name)), name, n - 1)
  }

  /** What becomes of the ID the loop takes from the queue. */
  function Decided(s: Pool, id: string, name: nat): Pool {
    if id == "" || id in s.inFlight then s
    else if s.slots < s.max then
      s.(slots := s.slots + 1, inFlight := s.inFlight + {id}, wg := s.wg + 1,
         goroutines := s.goroutines[name := Goroutine(id, Running(false))])
    else if s.parked < s.max then
      s.(parked := s.parked + 1, inFlight := s.inFlight + {id}, wg := s.wg + 1,
         goroutines := s.goroutines[name := Goroutine(id, Waiting)])
    else s
  }

  lemma LoopsTwo(s: Pool, name: nat, n: nat)
    requires n >= 2
    ensures Loops(s, name, n) == Loops(Next(Next(s, LoopStep(false, name)), LoopStep(false, name)), name, n - 2)
  {
    assert Loops(s, name, n) == Loops(Next(s, LoopStep(false, name)), name, n - 1);
  }

  lemma {:induction false} LoopRests(s: Pool, name: nat, n: nat)
    requires s.loop == Selecting && !s.cancelled
    ensures Loops(s, name, n) == s
    decreases n
  {
    if n > 0 {
      assert Next(s, LoopStep(false, name)) == s;
      LoopRests(s, name, n - 1);
    }
  }

  lemma SlotTaken(s: Pool, id: string, name: nat)
    requires s.loop == TryingSlot(id) && !s.cancelled && name !in s.goroutines && s.slots < s.max
    ensures Loops(s, name, 4) == s.(loop := Selecting, slots := s.slots + 1,
                                    goroutines := s.goroutines[name := Goroutine(id, Running(false))])
  {
    LoopsTwo(s, name, 4);
    LoopRests(Next(Next(s, LoopStep(false, name)), LoopStep(false, name)), name, 2);
  }

  lemma PlaceTaken(s: Pool, id: string, name: nat)
    requires s.loop == TryingPlace(id) && !s.cancelled && name !in s.goroutines && s.parked < s.max
    ensures Loops(s, name, 3) == s.(loop := Selecting, parked := s.parked + 1,
                                    goroutines := s.goroutines[name := Goroutine(id, Waiting)])
  {
    LoopsTwo(s, name, 3);
    LoopRests(Next(Next(s, LoopStep(false, name)), LoopStep(false, name)), name, 1);
  }

  lemma NoRoom(s: Pool, id: string, name: nat)
    requires s.loop == TryingPlace(id) && s.parked >= s.max
    ensures Loops(s, name, 3) == s.(loop := Selecting, inFlight := s.inFlight - {id}, wg := s.wg - 1)
  {
    LoopsTwo(s, name, 3);
    var a := Next(Next(s, LoopStep(false, name)), LoopStep(false, name));
    assert Loops(a, name, 1) == Loops(Next(a, LoopStep(false, name)), name, 0);
  }

  lemma MarkedIsDecided(s: Pool, id: string, name: nat)
    requires s.loop == Received(id) && !s.cancelled && name !in s.goroutines && id !in s.inFlight && id != ""
    ensures Loops(s, name, 6) == Decided(s, id, name).(loop := Selecting)
  {
    var a := s.(inFlight := s.inFlight + {id}, wg := s.wg + 1, loop := TryingSlot(id));
    LoopsTwo(s, name, 6);
    assert Next(Next(s, LoopStep(false, name)), LoopStep(false, name)) == a;
    if s.slots < s.max {
      SlotTaken(a, id, name);
    } else {
      var b := a.(loop := TryingPlace(id));
      assert Loops(a, name, 4) == Loops(b, name, 3);
      if s.parked < s.max {
        PlaceTaken(b, id, name);
      } else {
        NoRoom(b, id, name);
        assert s.inFlight + {id} - {id} == s.inFlight;
      }
    }
  }

  /** The ID at the head of the queue is executed when a slot is free, parked when none is but a
      parking place is, and otherwise turned away as if it had never been offered; one that is
      already in flight is dropped. */
  lemma OffersAreDecided(s: Pool, name: nat)
    requires s.loop == Selecting && !s.cancelled && s.queue != [] && name !in s.goroutines
    ensures Loops(Next(s, LoopStep(true, name)), name, 6)
         == Decided(s.(queue := s.queue[1..]), s.queue[0], name)
  {
    var id, taken := s.queue[0], s.(queue := s.queue[1..]);
    if id == "" {
      LoopRests(taken, name, 6);
    } else {
      var received := taken.(loop := Received(id));
      assert Next(s, LoopStep(true, name)) == received;
      if id in s.inFlight {
        assert Loops(received, name, 6) == Loops(taken, name, 5);
        LoopRests(taken, name, 5);
      } else {
        MarkedIsDecided(received, id, name);
      }
    }
  }

  // ---------------------------------------------------------------- one execution

  function Goes(s: Pool, g: nat, n: nat): Pool
    decreases n
  {
    if n == 0 then s else Goes(Next(s, GoStep(g, true)), g, n - 1)
  }

  lemma Leaves(s: Pool, g: nat)
    requires g in s.goroutines && s.goroutines[g].at.Deleting?
    ensures Goes(s, g, 2) == s.(inFlight := s.inFlight - {s.goroutines[g].id}, wg := s.wg - 1, goroutines := s.goroutines - {g})
  {
    var a := Next(s, GoStep(g, true));
    assert a == At(s.(inFlight := s.inFlight - {s.goroutines[g].id}), g, Finishing);
    assert Goes(s, g, 2) == Goes(a, g, 1) == Goes(Next(a, GoStep(g, true)), g, 0);
    assert a.goroutines - {g} == s.goroutines - {g};
  }

  lemma LeavesItsPlace(s: Pool, g: nat)
    requires g in s.goroutines && s.goroutines[g].at.LeavingPlace? && s.parked > 0
    ensures Goes(s, g, 3) == s.(parked := s.parked - 1, inFlight := s.inFlight - {s.goroutines[g].id}, wg := s.wg - 1,
                                goroutines := s.goroutines - {g})
  {
    var a := At(s.(parked := s.parked - 1), g, Deleting);
    assert Goes(s, g, 3) == Goes(a, g, 2);
    Leaves(a, g);
    assert a.goroutines - {g} == s.goroutines - {g};
  }

  /** What an execution gives back when it ends: its slot, its parking place if it waited, its
      mark and its share of the wait group. */
  function GivenBack(s: Pool, g: nat, parked: bool): Pool
    requires g in s.goroutines && s.slots > 0 && (parked ==> s.parked > 0)
  {
    s.(slots := s.slots - 1, parked := if parked then s.parked - 1 else s.parked,
       inFlight := s.inFlight - {s.goroutines[g].id}, wg := s.wg - 1, goroutines := s.goroutines - {g})
  }

  lemma WaitedGivesBack(s: Pool, g: nat)
    requires g in s.goroutines && s.goroutines[g].at == Running(true) && s.slots > 0 && s.parked > 0
    ensures Goes(s, g, 4) == GivenBack(s, g, true)
  {
    var a := At(s.(slots := s.slots - 1), g, LeavingPlace);
    assert Goes(s, g, 4) == Goes(a, g, 3);
    LeavesItsPlace(a, g);
    assert a.goroutines - {g} == s.goroutines - {g};
  }

  lemma NeverWaitedGivesBack(s: Pool, g: nat)
    requires g in s.goroutines && s.goroutines[g].at == Running(false) && s.slots > 0
    ensures Goes(s, g, 3) == GivenBack(s, g, false)
  {
    var a := At(s.(slots := s.slots - 1), g, Deleting);
    assert Goes(s, g, 3) == Goes(a, g, 2);
    Leaves(a, g);
    assert a.goroutines - {g} == s.goroutines - {g};
  }

  /** An execution whose run returned gives everything back, and nothing else. */
  lemma ExecutionsGiveBack(max: nat, steps: seq<Step>, g: nat)
    requires var s := Exec(Fresh(max), steps); g in s.goroutines && s.goroutines[g].at.Running?
    ensures var s := Exec(Fresh(max), steps);
      && s.slots > 0 && (s.goroutines[g].at.parked ==> s.parked > 0)
      && Goes(s, g, if s.goroutines[g].at.parked then 4 else 3) == GivenBack(s, g, s.goroutines[g].at.parked)
  {
    var s := Exec(Fresh(max), steps);
    PoolIsBounded(max, steps);
    if s.goroutines[g].at.parked {
      assert g in HoldingPlace(s.goroutines);
      WaitedGivesBack(s, g);
    } else {
      NeverWaitedGivesBack(s, g);
    }
  }

  /** A parked ID is executed as soon as a slot is free; once the pool is cancelled it gives its
      place and its mark back instead. */
  lemma ParkedIsExecuted(max: nat, steps: seq<Step>, g: nat)
    requires var s := Exec(Fresh(max), steps); g in s.goroutines && s.goroutines[g].at.Waiting?
    ensures var s := Exec(Fresh(max), steps);
      && (s.slots < s.max ==> Next(s, GoStep(g, false)) == At(s.(slots := s.slots + 1), g, Running(true)))
      && s.parked > 0
      && (s.cancelled ==> Goes(s, g, 4) == s.(parked := s.parked - 1, inFlight := s.inFlight - {s.goroutines[g].id},
                                              wg := s.wg - 1, goroutines := s.goroutines - {g}))
  {
    var s := Exec(Fresh(max), steps);
    PoolIsBounded(max, steps);
    assert g in HoldingPlace(s.goroutines);
    if s.cancelled {
      var a := At(s, g, LeavingPlace);
      assert Goes(s, g, 4) == Goes(a, g, 3);
      LeavesItsPlace(a, g);
      assert a.goroutines - {g} == s.goroutines - {g};
    }
  }

  /** A cancelled loop closes once it selects the cancellation. */
  lemma CancelledLoopExits(s: Pool, name: nat)
    requires s.loop == Selecting && s.cancelled
    ensures Loops(s, name, 2) == s.(loop := Exited)
  {
    LoopsTwo(s, name, 2);
  }
}
