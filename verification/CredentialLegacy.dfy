/** The legacy single-label refresh grant: when a superseded or rejected grant may come back.

    The invalidation marker is not bound to the lease epoch, so the guarantee for a superseded
    grant needs credential sections that do not overlap. With them it holds at every crash point
    and for every pattern of failed deletes; without them a run is given that breaks it. A grant
    the server rejected is readable until the first call that records its end, and a run is given
    in which none does. */
module CredentialLegacy {
  import opened Prelude
  import opened Leases
  import opened CredentialFences
  import opened CredentialProtocol
  import Runs

  // ---------------------------------------------------------------- when loadFenced returns the legacy grant

  /** No fence, no marker, and the label is there: loadFenced returns the legacy grant. */
  predicate Readable(sh: Shared) {
    REFRESH_FENCE !in sh.view.pointers && LEGACY_REFRESH in sh.secrets && !sh.view.invalidated
  }

  /** A superseded grant is not returned. */
  predicate Masked(sh: Shared) {
    sh.legacyDead ==> !Readable(sh)
  }

  /** At most one process is inside a credential section. */
  predicate Exclusive(w: World) {
    forall p, q :: p in w.procs && q in w.procs && !w.procs[p].Idle? && !w.procs[q].Idle? ==> p == q
  }

  predicate ExclusiveRun(w: World, run: seq<Action>)
    decreases run
  {
    Exclusive(w) && (run == [] || ExclusiveRun(Step(w, run[0]), run[1..]))
  }

  // ---------------------------------------------------------------- one call

  /** What a process inside its section knows about marker, pointer and label. */
  predicate PointKnows(sh: Shared, pc: PC) {
    && (pc.ReadMarker? ==> pc.seen.pointer.None? && REFRESH_FENCE !in sh.view.pointers)
    && (pc.ReadSecret? && pc.seen.pointer.None? ==> REFRESH_FENCE !in sh.view.pointers && !sh.view.invalidated)
    && (pc.Exchange? && pc.seen.pointer.None? ==> Readable(sh))
    && (pc.UnmarkStored? || pc.DropLegacyStored? ==> REFRESH_FENCE in sh.view.pointers)
    && (pc.ClearInvalid? || pc.DropInvalid? || pc.ForgetInvalid? || pc.DropLegacyInvalid? ==> sh.view.invalidated)
    && (pc.UnmarkInvalid? || pc.LogoutUnmark? ==> LEGACY_REFRESH !in sh.secrets)
    && ((pc.LogoutRead? || pc.LogoutDrop?) && pc.fence != REFRESH_FENCE ==> sh.view.invalidated)
    && (pc.LogoutClear? || pc.LogoutDropLegacy? ==> sh.view.invalidated)
    && (pc.LogoutDropLegacy? ==> IsLegacy(pc.legacy))
  }

  /** The slots a process works on are not the legacy label. */
  predicate NamesNoLegacy(pc: PC) {
    && (pc.RollBack? || pc.RecordRollback? || pc.CommitFence? || pc.ReadClientPointer? || pc.DropInvalid? || pc.ForgetInvalid? ==>
          pc.slot != LEGACY_REFRESH)
    && (pc.UnmarkStored? || pc.DropLegacyStored? || pc.DropReplaced? || pc.ForgetReplaced? ==> pc.replaced != LEGACY_REFRESH)
    && (HasSeen(pc) ==> SlotOf(pc.seen) != LEGACY_REFRESH)
    && (pc.Sweeping? ==>
          && (forall x :: x in pc.sweep.todo ==> x.1 != LEGACY_REFRESH)
          && (pc.after.ThenCommit? ==> SlotOf(pc.after.seen) != LEGACY_REFRESH && pc.after.slot != LEGACY_REFRESH))
  }

  predicate HasSeen(pc: PC) {
    || pc.ReadMarker? || pc.ReadSecret? || pc.Exchange? || pc.WriteRefresh? || pc.CommitFence?
    || pc.MarkInvalid? || pc.ClearInvalid? || pc.LogoutDrop? || pc.LogoutMark? || pc.LogoutClear?
  }

  /** Neither a pointer nor a record names the legacy label. */
  predicate TablesNameNoLegacy(sh: Shared) {
    && (forall f :: f in sh.view.pointers ==> sh.view.pointers[f].slot != LEGACY_REFRESH)
    && (forall x :: x in sh.view.retired ==> x.1 != LEGACY_REFRESH)
  }

  /** The calls that take the grant away: setting the marker, and a commit of the fence. */
  predicate Closes(sh: Shared, p: string, effect: Effect) {
    effect.Mark? || (effect.Commit? && effect.c.fence == REFRESH_FENCE
                     && HeldInEpoch(sh.lease, p, effect.e, sh.now) && Advances(sh.view, effect.c))
  }

  /** A call that writes no legacy label into a table. */
  predicate WritesNoLegacy(effect: Effect) {
    && (effect.Commit? ==>
          effect.c.slot != LEGACY_REFRESH && effect.c.previousSlot != LEGACY_REFRESH && LEGACY_REFRESH !in effect.c.retiredLabels)
    && (effect.Clear? ==> effect.retiredSlot != LEGACY_REFRESH)
    && (effect.RecordSlot? ==> effect.l != LEGACY_REFRESH)
  }

  lemma TablesStayWithoutLegacy(sh: Shared, p: string, effect: Effect)
    requires TablesNameNoLegacy(sh) && WritesNoLegacy(effect)
    ensures TablesNameNoLegacy(Do(sh, p, effect))
  {
  }

  lemma LoadNamesNoLegacy(sh: Shared, p: string, pc: PC, ch: Choice)
    requires NamesNoLegacy(pc) && TablesNameNoLegacy(sh) && AtLoad(pc)
    ensures var (effect, next) := Next(sh, p, pc, ch); NamesNoLegacy(next) && WritesNoLegacy(effect)
  {
  }

  lemma SweepNamesNoLegacy(sh: Shared, p: string, pc: PC, ch: Choice)
    requires NamesNoLegacy(pc) && TablesNameNoLegacy(sh) && pc.Sweeping?
    ensures var (effect, next) := Next(sh, p, pc, ch); NamesNoLegacy(next) && WritesNoLegacy(effect)
  {
  }

  lemma StoreNamesNoLegacy(sh: Shared, p: string, pc: PC, ch: Choice)
    requires NamesNoLegacy(pc) && TablesNameNoLegacy(sh) && AtStore(pc)
    ensures var (effect, next) := Next(sh, p, pc, ch); NamesNoLegacy(next) && WritesNoLegacy(effect)
  {
  }

  lemma StoredNamesNoLegacy(sh: Shared, p: string, pc: PC, ch: Choice)
    requires NamesNoLegacy(pc) && TablesNameNoLegacy(sh) && AtStored(pc)
    ensures var (effect, next) := Next(sh, p, pc, ch); NamesNoLegacy(next) && WritesNoLegacy(effect)
  {
  }

  lemma InvalidateNamesNoLegacy(sh: Shared, p: string, pc: PC, ch: Choice)
    requires NamesNoLegacy(pc) && TablesNameNoLegacy(sh) && AtInvalidate(pc)
    ensures var (effect, next) := Next(sh, p, pc, ch); NamesNoLegacy(next) && WritesNoLegacy(effect)
  {
  }

  lemma LogoutNamesNoLegacy(sh: Shared, p: string, pc: PC, ch: Choice)
    requires NamesNoLegacy(pc) && TablesNameNoLegacy(sh) && AtLogout(pc)
    ensures var (effect, next) := Next(sh, p, pc, ch); NamesNoLegacy(next) && WritesNoLegacy(effect)
  {
  }

  /** A call in an exclusive section leaves the grant readable unless it closes it, and never
      makes it readable again. */
  predicate Follows(sh: Shared, p: string, effect: Effect, next: PC) {
    && PointKnows(Do(sh, p, effect), next)
    && (Readable(Do(sh, p, effect)) <==> Readable(sh) && !Closes(sh, p, effect))
    && (Do(sh, p, effect).legacyDead ==> sh.legacyDead || !Readable(Do(sh, p, effect)))
  }

  lemma LoadFollows(sh: Shared, p: string, pc: PC, ch: Choice)
    requires PointKnows(sh, pc) && NamesNoLegacy(pc) && AtLoad(pc)
    ensures var (effect, next) := Next(sh, p, pc, ch); Follows(sh, p, effect, next)
  {
  }

  lemma SweepFollows(sh: Shared, p: string, pc: PC, ch: Choice)
    requires PointKnows(sh, pc) && NamesNoLegacy(pc) && pc.Sweeping?
    ensures var (effect, next) := Next(sh, p, pc, ch); Follows(sh, p, effect, next)
  {
  }

  lemma StoreFollows(sh: Shared, p: string, pc: PC, ch: Choice)
    requires PointKnows(sh, pc) && NamesNoLegacy(pc) && AtStore(pc)
    ensures var (effect, next) := Next(sh, p, pc, ch); Follows(sh, p, effect, next)
  {
  }

  lemma StoredFollows(sh: Shared, p: string, pc: PC, ch: Choice)
    requires PointKnows(sh, pc) && NamesNoLegacy(pc) && AtStored(pc)
    ensures var (effect, next) := Next(sh, p, pc, ch); Follows(sh, p, effect, next)
  {
  }

  lemma InvalidateFollows(sh: Shared, p: string, pc: PC, ch: Choice)
    requires PointKnows(sh, pc) && NamesNoLegacy(pc) && AtInvalidate(pc)
    ensures var (effect, next) := Next(sh, p, pc, ch); Follows(sh, p, effect, next)
  {
  }

  lemma LogoutClearFollows(sh: Shared, p: string, pc: PC, ch: Choice)
    requires PointKnows(sh, pc) && NamesNoLegacy(pc) && pc.LogoutClear?
    ensures var (effect, next) := Next(sh, p, pc, ch); Follows(sh, p, effect, next)
  {
  }

  lemma LogoutFollows(sh: Shared, p: string, pc: PC, ch: Choice)
    requires PointKnows(sh, pc) && NamesNoLegacy(pc) && AtLogout(pc)
    ensures var (effect, next) := Next(sh, p, pc, ch); Follows(sh, p, effect, next)
  {
    if pc.LogoutClear? {
      LogoutClearFollows(sh, p, pc, ch);
    }
  }

  lemma NextFollows(sh: Shared, p: string, pc: PC, ch: Choice)
    requires PointKnows(sh, pc) && NamesNoLegacy(pc) && TablesNameNoLegacy(sh)
    ensures var (effect, next) := Next(sh, p, pc, ch);
            Follows(sh, p, effect, next) && NamesNoLegacy(next) && TablesNameNoLegacy(Do(sh, p, effect))
  {
    if AtLoad(pc) {
      LoadFollows(sh, p, pc, ch);
      LoadNamesNoLegacy(sh, p, pc, ch);
    } else if pc.Sweeping? {
      SweepFollows(sh, p, pc, ch);
      SweepNamesNoLegacy(sh, p, pc, ch);
    } else if AtStore(pc) {
      StoreFollows(sh, p, pc, ch);
      StoreNamesNoLegacy(sh, p, pc, ch);
    } else if AtStored(pc) {
      StoredFollows(sh, p, pc, ch);
      StoredNamesNoLegacy(sh, p, pc, ch);
    } else if AtInvalidate(pc) {
      InvalidateFollows(sh, p, pc, ch);
      InvalidateNamesNoLegacy(sh, p, pc, ch);
    } else if AtLogout(pc) {
      LogoutFollows(sh, p, pc, ch);
      LogoutNamesNoLegacy(sh, p, pc, ch);
    }
    TablesStayWithoutLegacy(sh, p, Next(sh, p, pc, ch).0);
  }

  // ---------------------------------------------------------------- exclusive runs

  predicate LegacyInv(w: World) {
    && Masked(w.sh) && TablesNameNoLegacy(w.sh)
    && forall p :: p in w.procs ==> PointKnows(w.sh, w.procs[p]) && NamesNoLegacy(w.procs[p])
  }

  /** The step in which the grant is taken away. */
  predicate StepCloses(w: World, a: Action) {
    a.Run? && Closes(w.sh, a.p, Next(w.sh, a.p, At(w, a.p), a.choice).0)
  }

  /** A step of p in its section: every other process is idle. */
  lemma RunKeepsLegacyInv(w: World, p: string, choice: Choice)
    requires LegacyInv(w) && Exclusive(w) && Exclusive(Step(w, Run(p, choice)))
    ensures LegacyInv(Step(w, Run(p, choice)))
    ensures Readable(Step(w, Run(p, choice)).sh) <==> Readable(w.sh) && !StepCloses(w, Run(p, choice))
  {
    var pc := At(w, p);
    var (effect, next) := Next(w.sh, p, pc, choice);
    assert PointKnows(w.sh, pc) && NamesNoLegacy(pc);
    NextFollows(w.sh, p, pc, choice);
    var after := Step(w, Run(p, choice));
    assert after == After(w, p, effect, next);
    forall q | q in after.procs
      ensures PointKnows(after.sh, after.procs[q]) && NamesNoLegacy(after.procs[q])
    {
      if q != p {
        OthersAreIdle(w, p, choice, q);
      }
    }
  }

  lemma OthersAreIdle(w: World, p: string, choice: Choice, q: string)
    requires Exclusive(w) && q in w.procs && q != p
    ensures w.procs[q].Idle? || Step(w, Run(p, choice)).sh == w.sh
  {
    if !w.procs[q].Idle? {
      assert At(w, p).Idle?;
    }
  }

  lemma StepKeepsLegacyInv(w: World, a: Action)
    requires LegacyInv(w) && Exclusive(w) && Exclusive(Step(w, a))
    ensures LegacyInv(Step(w, a))
    ensures Readable(Step(w, a).sh) <==> Readable(w.sh) && !StepCloses(w, a)
  {
    if a.Run? {
      RunKeepsLegacyInv(w, a.p, a.choice);
    } else {
      OtherStepsKeepLegacyInv(w, a);
    }
  }

  /** Time, the lease, a start and a crash touch neither fence, marker nor label. */
  lemma OtherStepsKeepLegacyInv(w: World, a: Action)
    requires LegacyInv(w) && !a.Run?
    ensures LegacyInv(Step(w, a)) && (Readable(Step(w, a).sh) <==> Readable(w.sh))
  {
    var after := Step(w, a);
    assert after.sh.view == w.sh.view && after.sh.secrets == w.sh.secrets && after.sh.legacyDead == w.sh.legacyDead;
    forall p | p in after.procs
      ensures PointKnows(after.sh, after.procs[p]) && NamesNoLegacy(after.procs[p])
    {
      OtherStepsKeepPoints(w, a, p);
      if p in w.procs && after.procs[p] == w.procs[p] {
        SamePointKnows(w.sh, after.sh, after.procs[p]);
      }
    }
  }

  lemma OtherStepsKeepPoints(w: World, a: Action, p: string)
    requires !a.Run? && p in Step(w, a).procs
    ensures var pc := Step(w, a).procs[p];
            pc.Idle? || pc.ReadEpoch? || (p in w.procs && pc == w.procs[p])
  {
  }

  lemma SamePointKnows(sh: Shared, sh': Shared, pc: PC)
    requires PointKnows(sh, pc) && sh'.view == sh.view && sh'.secrets == sh.secrets
    ensures PointKnows(sh', pc)
  {
  }

  /** Some step of the run sets the marker or commits the fence. */
  predicate ClosedIn(w: World, run: seq<Action>)
    decreases run
  {
    run != [] && (StepCloses(w, run[0]) || ClosedIn(Step(w, run[0]), run[1..]))
  }

  lemma {:induction false} ReadableUntilClosed(w: World, run: seq<Action>)
    requires LegacyInv(w) && ExclusiveRun(w, run)
    ensures LegacyInv(Exec(w, run))
    ensures Readable(Exec(w, run).sh) <==> Readable(w.sh) && !ClosedIn(w, run)
    decreases run
  {
    if run == [] {
    } else {
      assert ExclusiveRun(Step(w, run[0]), run[1..]);
      StepKeepsLegacyInv(w, run[0]);
      ReadableUntilClosed(Step(w, run[0]), run[1..]);
    }
  }

  /** With sections that do not overlap, a superseded grant is masked after every run, and a
      transaction about to take the legacy grant finds one that was never superseded. */
  lemma DeadGrantNeverComesBack(init: World, run: seq<Action>)
    requires Initial(init) && ExclusiveRun(init, run)
    ensures var w := Exec(init, run);
            && Masked(w.sh)
            && forall p ::
                 (p in w.procs && w.procs[p].ReadSecret? && w.procs[p].seen.pointer.None? && LEGACY_REFRESH in w.sh.secrets)
                 ==> !w.sh.legacyDead
  {
    ReadableUntilClosed(init, run);
  }

  // ---------------------------------------------------------------- a grant the server rejected

  /** The step in which the server rejects the legacy grant. */
  predicate RejectsLegacy(w: World, p: string, choice: Choice) {
    At(w, p).Exchange? && At(w, p).seen.pointer.None? && choice.outcome.Rejected?
  }

  /** A legacy grant the server rejected is returned again exactly as long as no later call has
      set the invalidation marker or committed the fence, whatever else happens: nothing durable
      records the rejection itself. */
  lemma RejectedGrantIsReadableUntilClosed(
    init: World, before: seq<Action>, p: string, choice: Choice, later: seq<Action>)
    requires Initial(init) && ExclusiveRun(init, before) && RejectsLegacy(Exec(init, before), p, choice)
    requires ExclusiveRun(Step(Exec(init, before), Run(p, choice)), later)
    ensures var rejected := Step(Exec(init, before), Run(p, choice));
            Readable(Exec(rejected, later).sh) <==> !ClosedIn(rejected, later)
  {
    var w := Exec(init, before);
    ReadableUntilClosed(init, before);
    ExclusiveRunEnds(init, before);
    assert PointKnows(w.sh, At(w, p));
    assert Exclusive(Step(w, Run(p, choice)));
    StepKeepsLegacyInv(w, Run(p, choice));
    ReadableUntilClosed(Step(w, Run(p, choice)), later);
  }

  lemma {:induction false} ExclusiveRunEnds(w: World, run: seq<Action>)
    requires ExclusiveRun(w, run)
    ensures Exclusive(Exec(w, run))
    decreases run
  {
    if run == [] {
    } else {
      ExclusiveRunEnds(Step(w, run[0]), run[1..]);
    }
  }

  // ---------------------------------------------------------------- overlapping sections

  /** A call of any process in any state makes the legacy grant readable exactly when it removes
      the marker while no fence covers the label, or clears the fence while no marker does. The
      first is the cleanup after a commit, the end of an invalidation or the end of a logout; the
      second the clear of an invalidation or of a logout. */
  lemma WhenAGrantIsUnmasked(sh: Shared, p: string, pc: PC, ch: Choice)
    requires !Readable(sh)
    ensures Readable(Do(sh, p, Next(sh, p, pc, ch).0)) <==>
      && ch.outcome.Succeeds? && LEGACY_REFRESH in sh.secrets
      && (((pc.UnmarkStored? || pc.UnmarkInvalid? || pc.LogoutUnmark?) && REFRESH_FENCE !in sh.view.pointers)
          || ((pc.ClearInvalid? || (pc.LogoutClear? && pc.fence == REFRESH_FENCE))
              && HeldInEpoch(sh.lease, p, pc.e, sh.now) && !sh.view.invalidated))
  {
  }

  function LegacyProfile(): World {
    World(Shared(0, None, View(map[], {}, false), {LEGACY_REFRESH}, {}, {}, [], false, false), map[])
  }

  /** Some run reaches w; with `alone`, one whose sections do not overlap. */
  ghost predicate Reached(w: World, alone: bool) {
    exists run :: Exec(LegacyProfile(), run) == w && (alone ==> ExclusiveRun(LegacyProfile(), run))
  }

  lemma {:induction false} OneMoreExclusiveStep(w: World, run: seq<Action>, a: Action)
    requires ExclusiveRun(w, run) && Exclusive(Step(Exec(w, run), a))
    ensures ExclusiveRun(w, run + [a])
    decreases run
  {
    if run == [] {
      assert (run + [a])[1..] == [];
    } else {
      assert (run + [a])[1..] == run[1..] + [a];
      OneMoreExclusiveStep(Step(w, run[0]), run[1..], a);
    }
  }

  lemma Extend(w: World, a: Action, alone: bool)
    requires Reached(w, alone) && (alone ==> Exclusive(Step(w, a)))
    ensures Reached(Step(w, a), alone)
  {
    var run :| Exec(LegacyProfile(), run) == w && (alone ==> ExclusiveRun(LegacyProfile(), run));
    Runs.AfterConcat(Step, LegacyProfile(), run, [a]);
    Runs.AfterOne(Step, w, a);
    assert Exec(LegacyProfile(), run + [a]) == Step(w, a);
    if alone {
      OneMoreExclusiveStep(LegacyProfile(), run, a);
    }
  }

  /** One more step of process p; the call succeeds. */
  lemma Go(w: World, p: string, alone: bool) returns (w': World)
    requires Reached(w, alone) && p in w.procs && (alone ==> w.procs.Keys == {p})
    ensures Reached(w', alone)
    ensures var (effect, next) := Next(w.sh, p, w.procs[p], Choice(Succeeds, "slot", ("", "")));
            w'.sh == Do(w.sh, p, effect) && w'.procs == w.procs[p := next]
  {
    Extend(w, Run(p, Choice(Succeeds, "slot", ("", ""))), alone);
    w' := Step(w, Run(p, Choice(Succeeds, "slot", ("", ""))));
  }

  lemma FirstClaims(kind: Kind, alone: bool) returns (w: World)
    requires !kind.Logout?
    ensures Reached(w, alone)
    ensures w.procs.Keys == {"a"} && w.procs["a"] == ReadEpoch(kind)
    ensures w.sh == LegacyProfile().sh.(lease := Some(LeaseRow("a", 10, 1)))
  {
    w := LegacyProfile();
    assert Exec(w, []) == w && ExclusiveRun(w, []);
    Extend(w, Begin("a", kind, 10, 0), alone);
    w := Step(w, Begin("a", kind, 10, 0));
  }

  lemma FirstReadsItsEpoch(kind: Kind, alone: bool) returns (w: World)
    requires !kind.Logout?
    ensures Reached(w, alone)
    ensures w.procs.Keys == {"a"} && w.procs["a"] == Started(kind, 1)
    ensures w.sh == LegacyProfile().sh.(lease := Some(LeaseRow("a", 10, 1)))
  {
    w := FirstClaims(kind, alone);
    w := Go(w, "a", alone);
  }

  /** The first transaction has claimed and is about to load the credential. */
  lemma FirstStarts(kind: Kind, purpose: Purpose, alone: bool) returns (w: World)
    requires (kind == Authorize && purpose == ToStore) || (kind == RefreshGrant && purpose == ToExchange)
    ensures Reached(w, alone)
    ensures w.procs.Keys == {"a"} && w.procs["a"] == ReadPointer(1, purpose)
    ensures w.sh == LegacyProfile().sh.(lease := Some(LeaseRow("a", 10, 1)))
  {
    w := FirstReadsItsEpoch(kind, alone);
    w := Go(w, "a", alone);
  }

  /** A step of loadFenced, which only reads. */
  lemma GoLoad(w: World, p: string, alone: bool) returns (w': World)
    requires Reached(w, alone) && p in w.procs && (alone ==> w.procs.Keys == {p}) && AtLoad(w.procs[p])
    ensures Reached(w', alone) && w'.sh == w.sh
    ensures w'.procs == w.procs[p := NextLoad(w.sh, p, w.procs[p], Choice(Succeeds, "slot", ("", ""))).1]
  {
    w' := Go(w, p, alone);
  }

  /** loadFenced finds no fence, no marker, and the legacy grant. */
  lemma LoadsLegacy(kind: Kind, purpose: Purpose, alone: bool) returns (w: World)
    requires (kind == Authorize && purpose == ToStore) || (kind == RefreshGrant && purpose == ToExchange)
    ensures Reached(w, alone)
    ensures w.procs.Keys == {"a"} && w.procs["a"] == Loaded(1, purpose, Seen(None, 0), true)
    ensures w.sh == LegacyProfile().sh.(lease := Some(LeaseRow("a", 10, 1)))
  {
    w := FirstStarts(kind, purpose, alone);
    w := GoLoad(w, "a", alone);
    assert w.procs["a"] == ReadMarker(1, purpose, Seen(None, 0));
    w := GoLoad(w, "a", alone);
    assert w.procs["a"] == ReadSecret(1, purpose, Seen(None, 0));
    w := GoLoad(w, "a", alone);
  }

  /** The server rejects the grant, and the process crashes before it marks it: the next
      loadFenced returns the rejected grant, in a run without overlapping sections. */
  lemma RejectedGrantOutlivesACrash()
    ensures exists init, before, p, choice ::
              && Initial(init) && ExclusiveRun(init, before) && RejectsLegacy(Exec(init, before), p, choice)
              && Readable(Step(Step(Exec(init, before), Run(p, choice)), Crash(p)).sh)
  {
    var w := LoadsLegacy(RefreshGrant, ToExchange, true);
    var before :| Exec(LegacyProfile(), before) == w && ExclusiveRun(LegacyProfile(), before);
    var choice := Choice(Rejected, "slot", ("", ""));
    assert RejectsLegacy(w, "a", choice);
    assert Step(w, Run("a", choice)).sh == w.sh;
  }

  /** It has generated and written its slot. */
  lemma AuthorizationWrites() returns (w: World)
    ensures Reached(w, false)
    ensures w.procs.Keys == {"a"} && w.procs["a"] == Sweeping(1, NewSweep(), ThenCommit(Seen(None, 0), "slot"))
    ensures w.sh == LegacyProfile().sh.(lease := Some(LeaseRow("a", 10, 1)), secrets := {LEGACY_REFRESH, "slot"}, used := {"slot"})
  {
    w := LoadsLegacy(Authorize, ToStore, false);
    w := Go(w, "a", false);
  }

  lemma AuthorizationSweeps() returns (w: World)
    ensures Reached(w, false)
    ensures w.procs.Keys == {"a"} && w.procs["a"] == CommitFence(1, REFRESH_FENCE, Seen(None, 0), "slot")
    ensures w.sh == LegacyProfile().sh.(lease := Some(LeaseRow("a", 10, 1)), secrets := {LEGACY_REFRESH, "slot"}, used := {"slot"})
  {
    w := AuthorizationWrites();
    w := Go(w, "a", false);
    w := Go(w, "a", false);
    assert w.procs["a"] == Sweeping(1, Sweep([], {}, None), ThenCommit(Seen(None, 0), "slot"));
    w := Go(w, "a", false);
  }

  /** It commits the slot and stalls before it clears the marker. */
  lemma AuthorizationCommits() returns (w: World)
    ensures Reached(w, false)
    ensures w.procs.Keys == {"a"} && w.procs["a"] == UnmarkStored(1, "")
    ensures w.sh.now == 0 && w.sh.lease == Some(LeaseRow("a", 10, 1))
    ensures Current(w.sh, REFRESH_FENCE) == Some(FenceRow(1, "slot"))
    ensures LEGACY_REFRESH in w.sh.secrets && w.sh.legacyDead
  {
    w := AuthorizationSweeps();
    w := Go(w, "a", false);
  }

  /** Its lease expires and a logout claims it. */
  lemma LogoutClaims() returns (w: World)
    ensures Reached(w, false)
    ensures w.procs.Keys == {"a", "b"} && w.procs["a"] == UnmarkStored(1, "") && w.procs["b"] == ReadEpoch(Logout)
    ensures w.sh.now == 10 && w.sh.lease == Some(LeaseRow("b", 20, 2))
    ensures Current(w.sh, REFRESH_FENCE) == Some(FenceRow(1, "slot"))
    ensures LEGACY_REFRESH in w.sh.secrets && w.sh.legacyDead
  {
    w := AuthorizationCommits();
    Extend(w, Tick(10), false);
    w := Step(w, Tick(10));
    Extend(w, Begin("b", Logout, 20, 0), false);
    w := Step(w, Begin("b", Logout, 20, 0));
  }

  lemma LogoutReadsItsEpoch() returns (w: World)
    ensures Reached(w, false)
    ensures w.procs.Keys == {"a", "b"} && w.procs["a"] == UnmarkStored(1, "") && w.procs["b"] == Started(Logout, 2)
    ensures HeldInEpoch(w.sh.lease, "b", 2, w.sh.now)
    ensures Current(w.sh, REFRESH_FENCE) == Some(FenceRow(1, "slot"))
    ensures LEGACY_REFRESH in w.sh.secrets && w.sh.legacyDead
  {
    w := LogoutClaims();
    w := Go(w, "b", false);
  }

  lemma LogoutStarts() returns (w: World)
    ensures Reached(w, false)
    ensures w.procs.Keys == {"a", "b"} && w.procs["a"] == UnmarkStored(1, "") && w.procs["b"] == LogoutRead(2, REFRESH_FENCE)
    ensures HeldInEpoch(w.sh.lease, "b", 2, w.sh.now)
    ensures Current(w.sh, REFRESH_FENCE) == Some(FenceRow(1, "slot"))
    ensures LEGACY_REFRESH in w.sh.secrets && w.sh.legacyDead
  {
    w := LogoutReadsItsEpoch();
    w := Go(w, "b", false);
  }

  lemma LogoutFindsTheSlot() returns (w: World)
    ensures Reached(w, false)
    ensures w.procs.Keys == {"a", "b"} && w.procs["a"] == UnmarkStored(1, "")
    ensures w.procs["b"].LogoutDrop? && w.procs["b"].e == 2 && w.procs["b"].fence == REFRESH_FENCE && SlotOf(w.procs["b"].seen) == "slot"
    ensures HeldInEpoch(w.sh.lease, "b", 2, w.sh.now) && LEGACY_REFRESH in w.sh.secrets && w.sh.legacyDead
  {
    w := LogoutStarts();
    w := Go(w, "b", false);
  }

  lemma LogoutDropsTheSlot() returns (w: World)
    ensures Reached(w, false)
    ensures w.procs.Keys == {"a", "b"} && w.procs["a"] == UnmarkStored(1, "")
    ensures w.procs["b"].LogoutMark? && w.procs["b"].e == 2
    ensures HeldInEpoch(w.sh.lease, "b", 2, w.sh.now) && LEGACY_REFRESH in w.sh.secrets && w.sh.legacyDead
  {
    w := LogoutFindsTheSlot();
    w := Go(w, "b", false);
  }

  /** The logout marks the grant and clears the fence. */
  lemma LogoutClearsTheFence() returns (w: World)
    ensures Reached(w, false)
    ensures "a" in w.procs && w.procs["a"] == UnmarkStored(1, "")
    ensures REFRESH_FENCE !in w.sh.view.pointers && LEGACY_REFRESH in w.sh.secrets && w.sh.legacyDead
  {
    w := LogoutDropsTheSlot();
    w := Go(w, "b", false);
    w := ClearsFence(w);
  }

  lemma ClearsFence(start: World) returns (w: World)
    requires Reached(start, false) && start.procs.Keys == {"a", "b"} && start.procs["a"] == UnmarkStored(1, "")
    requires start.procs["b"].LogoutClear? && start.procs["b"].e == 2 && start.procs["b"].fence == REFRESH_FENCE
    requires HeldInEpoch(start.sh.lease, "b", 2, start.sh.now) && LEGACY_REFRESH in start.sh.secrets && start.sh.legacyDead
    ensures Reached(w, false)
    ensures "a" in w.procs && w.procs["a"] == UnmarkStored(1, "")
    ensures REFRESH_FENCE !in w.sh.view.pointers && LEGACY_REFRESH in w.sh.secrets && w.sh.legacyDead
  {
    w := Go(start, "b", false);
  }

  /** Overlapping sections break the guarantee: the stalled writer of the first section clears
      the marker the logout set, while no fence covers the superseded grant. */
  lemma OverlapBringsADeadGrantBack() returns (run: seq<Action>)
    ensures Initial(LegacyProfile()) && !Masked(Exec(LegacyProfile(), run).sh)
  {
    var w := LogoutClearsTheFence();
    w := Go(w, "a", false);
    run :| Exec(LegacyProfile(), run) == w;
  }
}
