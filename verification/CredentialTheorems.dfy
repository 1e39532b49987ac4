/** The credential guarantees, over every run of any number of processes. */
module CredentialTheorems {
  import opened Prelude
  import opened Leases
  import opened CredentialFences
  import opened CredentialProtocol
  import opened CredentialSafety

  lemma {:induction false} InvHolds(w: World, run: seq<Action>)
    requires Inv(w)
    ensures Inv(Exec(w, run))
    decreases run
  {
    if run == [] {
    } else {
      StepKeepsInv(w, run[0]);
      InvHolds(Step(w, run[0]), run[1..]);
    }
  }

  lemma StepKeepsInv(w: World, a: Action)
    requires Inv(w)
    ensures Inv(Step(w, a))
  {
    match a {
      case Tick(elapsed) => LeaseMoves(w, Step(w, a));
      case Begin(p, kind, expiresAt, delay) => BeginKeepsInv(w, p, kind, expiresAt, delay);
      case Renew(p, expiresAt) => LeaseMoves(w, Step(w, a));
      case Run(p, choice) =>
        if p in w.procs {
          RunKeepsInv(w, p, choice);
        } else {
          SetIdle(w, p);
        }
      case Crash(p) => SetIdle(w, p);
    }
  }

  /** Time passing, and a renewal, change no owner and no epoch. */
  lemma LeaseMoves(w: World, w': World)
    requires Inv(w) && w'.procs == w.procs
    requires w'.sh == w.sh.(now := w'.sh.now, lease := w'.sh.lease)
    requires forall p, e :: OwnsEpoch(w'.sh, p, e) ==> OwnsEpoch(w.sh, p, e)
    ensures Inv(w')
  {
    forall l | Condemned(w, l)
      ensures Condemned(w', l)
    {
      SameCondemned(w, w', l);
    }
    forall p | p in w'.procs
      ensures ProcInv(w', p, w'.procs[p])
    {
      assert ProcInv(w, p, w.procs[p]);
    }
  }

  lemma SameCondemned(w: World, w': World, l: string)
    requires w'.sh.view == w.sh.view && w'.sh.used == w.sh.used && Condemned(w, l)
    requires forall p :: p in w'.procs && Own(w'.procs[p]).Some? ==> p in w.procs && w.procs[p] == w'.procs[p]
    ensures Condemned(w', l)
  {
    forall f | f in w'.sh.view.pointers
      ensures !IsCurrentOf(w'.sh, f, l)
    {
      assert !IsCurrentOf(w.sh, f, l);
    }
    forall p | p in w'.procs
      ensures Own(w'.procs[p]) != Some(l)
    {
      assert !OwnedBySome(w, l);
    }
  }

  /** A process at a point without state leaves the others alone. */
  lemma PlainPoint(w: World, w': World, p: string, pc: PC)
    requires Inv(w) && w'.procs == w.procs[p := pc]
    requires w'.sh == w.sh.(now := w'.sh.now, lease := w'.sh.lease, logouts := w'.sh.logouts)
    requires w.sh.logouts ==> w'.sh.logouts
    requires forall q, e :: q != p && OwnsEpoch(w'.sh, q, e) ==> OwnsEpoch(w.sh, q, e)
    requires Target(pc).None? && Own(pc).None? && Doomed(pc) == {} && Gone(pc) == {} && PointInv(w'.sh, pc)
    ensures Inv(w')
  {
    forall l | Condemned(w, l)
      ensures Condemned(w', l)
    {
      SameCondemned(w, w', l);
    }
    forall q | q in w'.procs
      ensures ProcInv(w', q, w'.procs[q])
    {
      if q != p {
        assert ProcInv(w, q, w.procs[q]);
      }
    }
  }

  lemma SetIdle(w: World, p: string)
    requires Inv(w)
    ensures Inv(w.(procs := w.procs[p := Idle]))
  {
    PlainPoint(w, w.(procs := w.procs[p := Idle]), p, Idle);
  }

  lemma BeginKeepsInv(w: World, p: string, kind: Kind, expiresAt: int, delay: nat)
    requires Inv(w)
    ensures Inv(Step(w, Begin(p, kind, expiresAt, delay)))
  {
    var w' := Step(w, Begin(p, kind, expiresAt, delay));
    if w' != w {
      PlainPoint(w, w', p, w'.procs[p]);
    }
  }

  lemma InitialInv(w: World)
    requires Initial(w)
    ensures Inv(w)
  {
  }

  // ---------------------------------------------------------------- linearization

  /** When a commit or a clear takes effect, the pointer is the one this transaction read after
      its claim and nobody moved that fence since; so the slot it retires is the slot it
      replaces. */
  lemma FenceChangesAreLinearized(init: World, run: seq<Action>, p: string, ch: Choice)
    requires Initial(init) && p in Exec(init, run).procs
    ensures var w := Exec(init, run);
            var pc := w.procs[p];
            var effect := Next(w.sh, p, pc, ch).0;
            && (Commits(w.sh, p, effect) ==>
                  && pc.CommitFence? && effect.c.fence == pc.fence
                  && Undisturbed(w.sh, pc.fence, pc.seen)
                  && effect.c.previousSlot == SlotOf(Seen(Current(w.sh, pc.fence), 0)))
            && (Clears(w.sh, p, effect) ==>
                  && Target(pc).Some? && Target(pc).value.0 == effect.fence
                  && Undisturbed(w.sh, effect.fence, Target(pc).value.1)
                  && (effect.retiredSlot == SlotOf(Seen(Current(w.sh, effect.fence), 0))
                      || SlotOf(Seen(Current(w.sh, effect.fence), 0)) !in w.sh.secrets))
  {
    var w := Exec(init, run);
    var pc := w.procs[p];
    var (effect, next) := Next(w.sh, p, pc, ch);
    InitialInv(init);
    InvHolds(init, run);
    NextIsLicensed(w, p, ch);
    assert ProcInv(w, p, pc);
  }

  /** A writer is turned away exactly when it lost its epoch: while it holds the epoch, the
      generation it read is still the fence's, so the compare-and-swap cannot fail. */
  lemma OnlyALostEpochRejects(init: World, run: seq<Action>, p: string)
    requires Initial(init) && p in Exec(init, run).procs && Exec(init, run).procs[p].CommitFence?
    ensures var w := Exec(init, run);
            var pc := w.procs[p];
            Commits(w.sh, p, Commit(CommitOf(pc.fence, pc.seen, pc.slot), pc.e))
            <==> HeldInEpoch(w.sh.lease, p, pc.e, w.sh.now)
  {
    var w := Exec(init, run);
    InitialInv(init);
    InvHolds(init, run);
    assert ProcInv(w, p, w.procs[p]);
  }

  // ---------------------------------------------------------------- no stranded, no wrong deletion

  /** Crashes and failed deletes included: a committed slot that is still in the secret store
      is its fence's current slot or on record for retirement, and no slot on record is
      current. */
  lemma CommittedSlotsAreReachable(init: World, run: seq<Action>)
    requires Initial(init)
    ensures NothingStranded(Exec(init, run).sh)
    ensures forall r :: r in Exec(init, run).sh.view.retired ==> !IsCurrent(Exec(init, run).sh, r.1)
  {
    InitialInv(init);
    InvHolds(init, run);
  }

  predicate NoLogout(run: seq<Action>) {
    forall i :: 0 <= i < |run| ==> !(run[i].Begin? && run[i].kind.Logout?)
  }

  lemma {:induction false} NoLogoutRecorded(w: World, run: seq<Action>)
    requires !w.sh.logouts && NoLogout(run)
    ensures !Exec(w, run).sh.logouts
    decreases run
  {
    if run == [] {
    } else {
      assert !(run[0].Begin? && run[0].kind.Logout?);
      NoLogoutRecorded(Step(w, run[0]), run[1..]);
    }
  }

  /** Without a logout the slot a fence points at is always in the secret store: sweeps,
      rollbacks and cleanups of stalled processes never delete a live credential. */
  lemma CurrentSlotsSurvive(init: World, run: seq<Action>)
    requires Initial(init) && NoLogout(run)
    ensures CurrentSlotsPresent(Exec(init, run).sh)
  {
    InitialInv(init);
    InvHolds(init, run);
    NoLogoutRecorded(init, run);
  }
}
