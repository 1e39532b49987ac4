/** What a credential transaction achieves (internal/oauth: Logout, authorization, registration,
    refresh and invalidation) when it keeps its lease epoch and every call it makes succeeds,
    whatever other processes do in between; and that, left alone, it ends. */
module CredentialCompletion {
  import opened Prelude
  import opened Leases
  import opened CredentialFences
  import opened CredentialProtocol
  import opened CredentialSafety
  import opened CredentialTheorems
  import Runs

  // ---------------------------------------------------------------- runs in which a transaction succeeds

  /** The transaction of p is under way and holds epoch e; if the step is its own, its call
      succeeds, and at the exchange the server answers one way or the other. */
  predicate Succeeding(w: World, p: string, e: int, a: Action) {
    && !At(w, p).Idle? && HeldInEpoch(w.sh.lease, p, e, w.sh.now) && a != Crash(p)
    && (a.Run? && a.p == p ==> a.choice.outcome.Succeeds? || (At(w, p).Exchange? && a.choice.outcome.Rejected?))
  }

  predicate SucceedingRun(w: World, p: string, e: int, run: seq<Action>)
    decreases run
  {
    run == [] || (Succeeding(w, p, e, run[0]) && SucceedingRun(Step(w, run[0]), p, e, run[1..]))
  }

  /** No other process touches the invalidation marker or records a slot, the two writes that
      are not tied to the epoch. */
  predicate Undisturbing(w: World, p: string, a: Action) {
    a.Run? && a.p != p ==> LeavesTables(Next(w.sh, a.p, At(w, a.p), a.choice).0)
  }

  predicate LeavesTables(effect: Effect) {
    !effect.Mark? && !effect.Unmark? && !effect.RecordSlot?
  }

  predicate QuietRun(w: World, p: string, run: seq<Action>)
    decreases run
  {
    run == [] || (Undisturbing(w, p, run[0]) && QuietRun(Step(w, run[0]), p, run[1..]))
  }

  // ---------------------------------------------------------------- what stays while it holds the epoch

  /** What other processes may do to the shared state while p holds its epoch. */
  predicate Calm(sh: Shared, sh': Shared, quiet: bool) {
    && sh'.view.pointers == sh.view.pointers && sh.used <= sh'.used
    && (forall l :: l in sh'.secrets ==> l in sh.secrets || !Known(sh, l))
    && (quiet ==> sh'.view.invalidated == sh.view.invalidated && sh'.view.retired <= sh.view.retired)
  }

  lemma LicensedIsCalm(w: World, p: string, e: int, q: string, pc: PC, effect: Effect, next: PC, quiet: bool)
    requires HeldInEpoch(w.sh.lease, p, e, w.sh.now) && q != p && Licensed(w, q, pc, effect, next)
    requires quiet ==> LeavesTables(effect)
    ensures Calm(w.sh, Do(w.sh, q, effect), quiet)
  {
  }

  lemma OthersAreCalm(w: World, p: string, e: int, a: Action, quiet: bool)
    requires Inv(w) && !At(w, p).Idle? && HeldInEpoch(w.sh.lease, p, e, w.sh.now) && a != Crash(p) && !(a.Run? && a.p == p)
    requires quiet ==> Undisturbing(w, p, a)
    ensures Calm(w.sh, Step(w, a).sh, quiet) && At(Step(w, a), p) == At(w, p)
  {
    if a.Run? && a.p in w.procs {
      NextIsLicensed(w, a.p, a.choice);
      var (effect, next) := Next(w.sh, a.p, w.procs[a.p], a.choice);
      LicensedIsCalm(w, p, e, a.p, w.procs[a.p], effect, next, quiet);
      assert Step(w, a) == After(w, a.p, effect, next);
    } else if a.Run? {
      assert Next(w.sh, a.p, Idle, a.choice) == (Nothing, Idle);
    }
  }

  /** Slots and records of the start are still known; a record is only forgotten once its slot is gone. */
  predicate Since(start: Shared, sh: Shared) {
    && start.used <= sh.used
    && (forall f :: f in start.view.pointers ==> start.view.pointers[f].slot != "" && Known(sh, start.view.pointers[f].slot))
    && (forall r :: r in start.view.retired ==>
          && IsFence(r.0) && Known(sh, r.1) && (r.1 in sh.secrets ==> r in sh.view.retired)
          && (forall f :: f in start.view.pointers ==> start.view.pointers[f].slot != r.1))
  }

  lemma SinceNow(w: World)
    requires Inv(w)
    ensures Since(w.sh, w.sh)
  {
    forall f | f in w.sh.view.pointers
      ensures w.sh.view.pointers[f].slot != "" && Known(w.sh, w.sh.view.pointers[f].slot)
    {
      assert (f, w.sh.view.pointers[f].slot) in w.sh.committed;
    }
    forall r | r in w.sh.view.retired
      ensures IsFence(r.0) && Known(w.sh, r.1)
      ensures forall f :: f in w.sh.view.pointers ==> w.sh.view.pointers[f].slot != r.1
    {
      assert Condemned(w, r.1);
      forall f | f in w.sh.view.pointers
        ensures w.sh.view.pointers[f].slot != r.1
      {
        assert !IsCurrentOf(w.sh, f, r.1);
      }
    }
  }

  lemma StepKeepsSince(start: Shared, w: World, a: Action)
    requires Inv(w) && Since(start, w.sh)
    ensures Since(start, Step(w, a).sh)
  {
    if a.Run? && a.p in w.procs {
      NextIsLicensed(w, a.p, a.choice);
      LicensedKeepsSince(start, w, a.p, a.choice);
    }
  }

  lemma LicensedKeepsSince(start: Shared, w: World, p: string, ch: Choice)
    requires Inv(w) && Since(start, w.sh) && p in w.procs
    requires var (effect, next) := Next(w.sh, p, w.procs[p], ch); Licensed(w, p, w.procs[p], effect, next)
    ensures Since(start, Step(w, Run(p, ch)).sh)
  {
    var effect := Next(w.sh, p, w.procs[p], ch).0;
    assert ProcInv(w, p, w.procs[p]);
    var after := Do(w.sh, p, effect);
    forall r | r in start.view.retired
      ensures Known(after, r.1) && (r.1 in after.secrets ==> r in after.view.retired)
    {
    }
  }

  // ---------------------------------------------------------------- how far a transaction has come

  /** Deleted, and never to be written again. */
  predicate Absent(sh: Shared, l: string) {
    Known(sh, l) && l !in sh.secrets
  }

  predicate SlotGone(start: Shared, sh: Shared, fence: string) {
    fence in start.view.pointers ==> Absent(sh, start.view.pointers[fence].slot)
  }

  predicate SamePointers(start: Shared, sh: Shared) {
    sh.view.pointers == start.view.pointers
  }

  predicate ReadAtStart(start: Shared, fence: string, seen: Seen) {
    seen.pointer == Current(start, fence)
  }

  /** What was on record at the start is gone from the secret store, and its record with it, but
      for what a sweep has still to come to. */
  predicate SweptBut(start: Shared, sh: Shared, sweep: Sweep, quiet: bool) {
    && (forall r :: r in start.view.retired && r.1 in sh.secrets ==> r.0 in sweep.unlisted || r in sweep.todo)
    && (quiet ==> forall r :: r in start.view.retired && r in sh.view.retired ==>
          r.0 in sweep.unlisted || r in sweep.todo || sweep.deleted == Some(r))
  }

  predicate Swept(start: Shared, sh: Shared, quiet: bool) {
    && (forall r :: r in start.view.retired ==> r.1 !in sh.secrets)
    && (quiet ==> forall r :: r in start.view.retired ==> r !in sh.view.retired)
  }

  /** Neither fence points anywhere, the slots they pointed at are gone, and no legacy label is left. */
  predicate CredentialsGone(start: Shared, sh: Shared) {
    && sh.view.pointers == start.view.pointers - {REFRESH_FENCE, CLIENT_FENCE}
    && SlotGone(start, sh, REFRESH_FENCE) && SlotGone(start, sh, CLIENT_FENCE)
  }

  predicate LoggedOut(start: Shared, sh: Shared, quiet: bool) {
    && CredentialsGone(start, sh) && Absent(sh, LEGACY_REFRESH) && Absent(sh, LEGACY_CLIENT)
    && Swept(start, sh, quiet) && (quiet ==> !sh.view.invalidated)
  }

  predicate LogoutPoint(start: Shared, sh: Shared, pc: PC, quiet: bool) {
    match pc
    case ReadEpoch(kind) => kind.Logout? && SamePointers(start, sh)
    case Started(kind, _) => kind.Logout? && SamePointers(start, sh)
    case LogoutRead(_, fence) =>
      if fence == REFRESH_FENCE then SamePointers(start, sh)
      else fence == CLIENT_FENCE && sh.view.pointers == start.view.pointers - {REFRESH_FENCE} && SlotGone(start, sh, REFRESH_FENCE)
    case LogoutDrop(_, fence, seen) =>
      && seen.pointer.Some? && ReadAtStart(start, fence, seen)
      && (if fence == REFRESH_FENCE then SamePointers(start, sh)
          else fence == CLIENT_FENCE && sh.view.pointers == start.view.pointers - {REFRESH_FENCE} && SlotGone(start, sh, REFRESH_FENCE))
    case LogoutMark(_, _) => SamePointers(start, sh) && SlotGone(start, sh, REFRESH_FENCE)
    case LogoutClear(_, fence, _) =>
      && SlotGone(start, sh, REFRESH_FENCE)
      && (if fence == REFRESH_FENCE then SamePointers(start, sh)
          else fence == CLIENT_FENCE && sh.view.pointers == start.view.pointers - {REFRESH_FENCE} && SlotGone(start, sh, CLIENT_FENCE))
    case LogoutDropLegacy(_, legacy) =>
      && CredentialsGone(start, sh) && IsLegacy(legacy)
      && (legacy == LEGACY_REFRESH ==> Absent(sh, LEGACY_CLIENT))
    case LogoutUnmark(_) => CredentialsGone(start, sh) && Absent(sh, LEGACY_REFRESH) && Absent(sh, LEGACY_CLIENT)
    case Sweeping(_, sweep, after) =>
      && after.ThenClose? && CredentialsGone(start, sh) && Absent(sh, LEGACY_REFRESH) && Absent(sh, LEGACY_CLIENT)
      && SweptBut(start, sh, sweep, quiet) && (quiet ==> !sh.view.invalidated)
    case Close(_) => LoggedOut(start, sh, quiet)
    case Idle => LoggedOut(start, sh, quiet)
    case _ => false
  }

  /** The refresh fence points at a slot that did not exist at the start. */
  predicate Replaced(start: Shared, sh: Shared) {
    && REFRESH_FENCE in sh.view.pointers && sh.view.pointers[REFRESH_FENCE].slot !in start.used
    && sh.view.pointers - {REFRESH_FENCE} == start.view.pointers - {REFRESH_FENCE}
  }

  /** The grant was replaced: a new slot is current, the slot and the legacy grant it replaces are
      gone, and so is what was on record. */
  predicate Stored(start: Shared, sh: Shared, quiet: bool) {
    StoredBut(start, sh, quiet) && RecordForgotten(start, sh, quiet)
  }

  /** All but that the record of the replaced slot may still be there. */
  predicate StoredBut(start: Shared, sh: Shared, quiet: bool) {
    && Replaced(start, sh) && SlotGone(start, sh, REFRESH_FENCE) && Absent(sh, LEGACY_REFRESH)
    && Swept(start, sh, quiet) && (quiet ==> !sh.view.invalidated)
  }

  /** The refresh slot of the start is not on record. */
  predicate RecordForgotten(start: Shared, sh: Shared, quiet: bool) {
    quiet && REFRESH_FENCE in start.view.pointers ==> (REFRESH_FENCE, start.view.pointers[REFRESH_FENCE].slot) !in sh.view.retired
  }

  predicate StorePoint(start: Shared, sh: Shared, pc: PC, quiet: bool) {
    match pc
    case ReadEpoch(kind) => kind.Authorize? && SamePointers(start, sh)
    case Started(kind, _) => kind.Authorize? && SamePointers(start, sh)
    case ReadPointer(_, purpose) => purpose.ToStore? && SamePointers(start, sh)
    case ReadMarker(_, purpose, seen) => purpose.ToStore? && SamePointers(start, sh) && ReadAtStart(start, REFRESH_FENCE, seen)
    case ReadSecret(_, purpose, seen) => purpose.ToStore? && SamePointers(start, sh) && ReadAtStart(start, REFRESH_FENCE, seen)
    case WriteRefresh(_, seen) => SamePointers(start, sh) && ReadAtStart(start, REFRESH_FENCE, seen)
    case Sweeping(_, sweep, after) =>
      && after.ThenCommit? && SamePointers(start, sh) && ReadAtStart(start, REFRESH_FENCE, after.seen)
      && after.slot !in start.used && SweptBut(start, sh, sweep, quiet)
    case CommitFence(_, fence, seen, slot) =>
      && fence == REFRESH_FENCE && SamePointers(start, sh) && ReadAtStart(start, REFRESH_FENCE, seen)
      && slot !in start.used && Swept(start, sh, quiet)
    case UnmarkStored(_, replaced) =>
      Replaced(start, sh) && Swept(start, sh, quiet) && replaced == SlotOf(Seen(Current(start, REFRESH_FENCE), 0))
    case DropLegacyStored(_, replaced) =>
      && Replaced(start, sh) && Swept(start, sh, quiet) && replaced == SlotOf(Seen(Current(start, REFRESH_FENCE), 0))
      && (quiet ==> !sh.view.invalidated)
    case DropReplaced(_, replaced) =>
      && Replaced(start, sh) && Swept(start, sh, quiet) && replaced == SlotOf(Seen(Current(start, REFRESH_FENCE), 0))
      && (quiet ==> !sh.view.invalidated) && Absent(sh, LEGACY_REFRESH)
    case ForgetReplaced(_, replaced) => StoredBut(start, sh, quiet) && replaced == SlotOf(Seen(Current(start, REFRESH_FENCE), 0))
    case Close(_) => Stored(start, sh, quiet)
    case Idle => Stored(start, sh, quiet)
    case _ => false
  }

  /** The grant was invalidated: no pointer, and neither its slot nor the legacy grant is left. */
  predicate Dropped(start: Shared, sh: Shared, quiet: bool) {
    && sh.view.pointers == start.view.pointers - {REFRESH_FENCE} && SlotGone(start, sh, REFRESH_FENCE)
    && Absent(sh, LEGACY_REFRESH) && (quiet ==> !sh.view.invalidated) && RecordForgotten(start, sh, quiet)
  }

  predicate InvalidatePoint(start: Shared, sh: Shared, pc: PC, register: bool, quiet: bool) {
    match pc
    case ReadPointer(_, purpose) => purpose == ToInvalidate(register) && SamePointers(start, sh)
    case ReadMarker(_, purpose, seen) =>
      purpose == ToInvalidate(register) && SamePointers(start, sh) && ReadAtStart(start, REFRESH_FENCE, seen)
    case ReadSecret(_, purpose, seen) =>
      purpose == ToInvalidate(register) && SamePointers(start, sh) && ReadAtStart(start, REFRESH_FENCE, seen)
    case MarkInvalid(_, r, seen) => r == register && SamePointers(start, sh) && ReadAtStart(start, REFRESH_FENCE, seen)
    case ClearInvalid(_, r, seen) => r == register && SamePointers(start, sh) && ReadAtStart(start, REFRESH_FENCE, seen)
    case DropInvalid(_, r, slot) =>
      && r == register && sh.view.pointers == start.view.pointers - {REFRESH_FENCE}
      && slot == SlotOf(Seen(Current(start, REFRESH_FENCE), 0))
    case ForgetInvalid(_, r, slot) =>
      && r == register && sh.view.pointers == start.view.pointers - {REFRESH_FENCE} && SlotGone(start, sh, REFRESH_FENCE)
      && slot == SlotOf(Seen(Current(start, REFRESH_FENCE), 0))
    case DropLegacyInvalid(_, r) =>
      && r == register && sh.view.pointers == start.view.pointers - {REFRESH_FENCE} && SlotGone(start, sh, REFRESH_FENCE)
      && RecordForgotten(start, sh, quiet)
    case UnmarkInvalid(_, r) =>
      && r == register && sh.view.pointers == start.view.pointers - {REFRESH_FENCE} && SlotGone(start, sh, REFRESH_FENCE)
      && Absent(sh, LEGACY_REFRESH) && RecordForgotten(start, sh, quiet)
    case Close(_) => !register && Dropped(start, sh, quiet)
    case Idle => !register && Dropped(start, sh, quiet)
    case _ => false
  }

  /** No refresh grant can be loaded any more: no pointer, and the legacy grant gone or masked. */
  predicate NoGrant(start: Shared, sh: Shared, quiet: bool) {
    && REFRESH_FENCE !in sh.view.pointers && SlotGone(start, sh, REFRESH_FENCE)
    && (Absent(sh, LEGACY_REFRESH) || (quiet ==> sh.view.invalidated))
  }

  /** The client fence points at a slot that did not exist at the start. */
  predicate Registered(start: Shared, sh: Shared, quiet: bool) {
    && CLIENT_FENCE in sh.view.pointers && sh.view.pointers[CLIENT_FENCE].slot !in start.used
    && NoGrant(start, sh, quiet)
  }

  predicate RegisterPoint(start: Shared, sh: Shared, pc: PC, quiet: bool) {
    match pc
    case ReadEpoch(kind) => kind.Register? && SamePointers(start, sh)
    case Started(kind, _) => kind.Register? && SamePointers(start, sh)
    case ReadPointer(_, purpose) => purpose.ToReplace? && SamePointers(start, sh)
    case ReadMarker(_, purpose, seen) =>
      purpose.ToReplace? && SamePointers(start, sh) && ReadAtStart(start, REFRESH_FENCE, seen) && seen.pointer.None?
    case ReadSecret(_, purpose, seen) => purpose.ToReplace? && SamePointers(start, sh) && ReadAtStart(start, REFRESH_FENCE, seen)
    case WriteClient(_) => sh.view.pointers == start.view.pointers - {REFRESH_FENCE} && NoGrant(start, sh, quiet)
    case ReadClientPointer(_, slot) =>
      sh.view.pointers == start.view.pointers - {REFRESH_FENCE} && NoGrant(start, sh, quiet) && slot !in start.used
    case CommitFence(_, fence, seen, slot) =>
      && fence == CLIENT_FENCE && sh.view.pointers == start.view.pointers - {REFRESH_FENCE} && NoGrant(start, sh, quiet)
      && ReadAtStart(start, CLIENT_FENCE, seen) && slot !in start.used
    case DropLegacyClient(_) => Registered(start, sh, quiet)
    case ForgetLegacyClient(_) => Registered(start, sh, quiet) && Absent(sh, LEGACY_CLIENT)
    case Close(_) =>
      Registered(start, sh, quiet) && Absent(sh, LEGACY_CLIENT) && (quiet ==> (CLIENT_FENCE, LEGACY_CLIENT) !in sh.view.retired)
    case Idle =>
      Registered(start, sh, quiet) && Absent(sh, LEGACY_CLIENT) && (quiet ==> (CLIENT_FENCE, LEGACY_CLIENT) !in sh.view.retired)
    case _ => false
  }

  /** There was no grant to refresh, and nothing was changed. */
  predicate NothingToRefresh(start: Shared, sh: Shared, quiet: bool) {
    && SamePointers(start, sh) && REFRESH_FENCE !in start.view.pointers
    && (Absent(sh, LEGACY_REFRESH) || (quiet ==> sh.view.invalidated))
  }

  predicate RefreshPoint(start: Shared, sh: Shared, pc: PC, quiet: bool) {
    match pc
    case ReadEpoch(kind) => kind.RefreshGrant? && SamePointers(start, sh)
    case Started(kind, _) => kind.RefreshGrant? && SamePointers(start, sh)
    case ReadPointer(_, purpose) => purpose.ToExchange? && SamePointers(start, sh)
    case ReadMarker(_, purpose, seen) =>
      purpose.ToExchange? && SamePointers(start, sh) && ReadAtStart(start, REFRESH_FENCE, seen) && seen.pointer.None?
    case ReadSecret(_, purpose, seen) => purpose.ToExchange? && SamePointers(start, sh) && ReadAtStart(start, REFRESH_FENCE, seen)
    case Exchange(_, seen) => SamePointers(start, sh) && ReadAtStart(start, REFRESH_FENCE, seen)
    case Close(_) => NothingToRefresh(start, sh, quiet)
    case Idle => NothingToRefresh(start, sh, quiet)
    case _ => false
  }

  /** What a transaction is about; a registration first invalidates the grant it finds. */
  datatype Plan = LoggingOut | Storing | Invalidating | Registering | Refreshing

  predicate Point(plan: Plan, start: Shared, sh: Shared, pc: PC, e: int, quiet: bool) {
    && (pc.Idle? || pc.ReadEpoch? || pc.e == e)
    && match plan
       case LoggingOut => LogoutPoint(start, sh, pc, quiet)
       case Storing => StorePoint(start, sh, pc, quiet)
       case Invalidating => InvalidatePoint(start, sh, pc, false, quiet)
       case Registering => RegisterPoint(start, sh, pc, quiet) || InvalidatePoint(start, sh, pc, true, quiet)
       case Refreshing => RefreshPoint(start, sh, pc, quiet)
  }

  // ---------------------------------------------------------------- other processes leave it there

  lemma CalmKeepsLogout(start: Shared, sh: Shared, sh': Shared, pc: PC, quiet: bool)
    requires LogoutPoint(start, sh, pc, quiet) && Calm(sh, sh', quiet) && Since(start, sh)
    ensures LogoutPoint(start, sh', pc, quiet)
  {
  }

  lemma CalmKeepsStore(start: Shared, sh: Shared, sh': Shared, pc: PC, quiet: bool)
    requires StorePoint(start, sh, pc, quiet) && Calm(sh, sh', quiet) && Since(start, sh)
    ensures StorePoint(start, sh', pc, quiet)
  {
  }

  lemma CalmKeepsInvalidate(start: Shared, sh: Shared, sh': Shared, pc: PC, register: bool, quiet: bool)
    requires InvalidatePoint(start, sh, pc, register, quiet) && Calm(sh, sh', quiet) && Since(start, sh)
    ensures InvalidatePoint(start, sh', pc, register, quiet)
  {
  }

  lemma CalmKeepsRegister(start: Shared, sh: Shared, sh': Shared, pc: PC, quiet: bool)
    requires RegisterPoint(start, sh, pc, quiet) && Calm(sh, sh', quiet) && Since(start, sh)
    ensures RegisterPoint(start, sh', pc, quiet)
  {
  }

  lemma CalmKeepsPoint(plan: Plan, start: Shared, sh: Shared, sh': Shared, pc: PC, e: int, quiet: bool)
    requires Point(plan, start, sh, pc, e, quiet) && Calm(sh, sh', quiet) && Since(start, sh)
    ensures Point(plan, start, sh', pc, e, quiet)
  {
    match plan {
      case LoggingOut => CalmKeepsLogout(start, sh, sh', pc, quiet);
      case Storing => CalmKeepsStore(start, sh, sh', pc, quiet);
      case Invalidating => CalmKeepsInvalidate(start, sh, sh', pc, false, quiet);
      case Registering =>
        if RegisterPoint(start, sh, pc, quiet) {
          CalmKeepsRegister(start, sh, sh', pc, quiet);
        } else {
          CalmKeepsInvalidate(start, sh, sh', pc, true, quiet);
        }
      case Refreshing =>
    }
  }

  // ---------------------------------------------------------------- its own calls take it further

  /** The call succeeds, under the epoch. */
  predicate Calls(sh: Shared, p: string, e: int, pc: PC, ch: Choice) {
    HeldInEpoch(sh.lease, p, e, sh.now) && (pc.ReadEpoch? || (!pc.Idle? && pc.e == e)) && ch.outcome.Succeeds?
  }

  lemma LogoutGoesOn(start: Shared, sh: Shared, p: string, e: int, pc: PC, ch: Choice, quiet: bool)
    requires Since(start, sh) && LogoutPoint(start, sh, pc, quiet) && Calls(sh, p, e, pc, ch) && AtLogout(pc)
    ensures var (effect, next) := NextLogout(sh, p, pc, ch);
      LogoutPoint(start, Do(sh, p, effect), next, quiet) && (next.Idle? || next.e == e)
  {
  }

  /** A sweep takes one record after the other and ends with none of them left. */
  predicate SweepGoesOn(start: Shared, sh: Shared, after: Shared, sweep: Sweep, next: PC, quiet: bool) {
    && after.view.pointers == sh.view.pointers && after.view.invalidated == sh.view.invalidated && after.used == sh.used
    && after.secrets <= sh.secrets && after.view.retired <= sh.view.retired
    && (next.Sweeping? ==> SweptBut(start, after, next.sweep, quiet))
    && (!next.Sweeping? ==> sweep.todo == {} && sweep.unlisted == [] && sweep.deleted.None? && Swept(start, after, quiet))
  }

  lemma SweepTakesOne(
    start: Shared, sh: Shared, p: string, e: int, sweep: Sweep, after: AfterSweep, ch: Choice, quiet: bool)
    requires Since(start, sh) && SweptBut(start, sh, sweep, quiet) && ch.outcome.Succeeds?
    ensures var (effect, next) := NextSweep(sh, e, sweep, after, ch); SweepGoesOn(start, sh, Do(sh, p, effect), sweep, next, quiet)
  {
    if sweep.deleted.None? && sweep.todo == {} && sweep.unlisted != [] {
      assert sweep.unlisted == [sweep.unlisted[0]] + sweep.unlisted[1..];
    }
  }

  lemma LogoutSweeps(start: Shared, sh: Shared, p: string, e: int, pc: PC, ch: Choice, quiet: bool)
    requires Since(start, sh) && LogoutPoint(start, sh, pc, quiet) && Calls(sh, p, e, pc, ch) && pc.Sweeping?
    ensures var (effect, next) := NextSweep(sh, pc.e, pc.sweep, pc.after, ch);
      LogoutPoint(start, Do(sh, p, effect), next, quiet) && (next.Idle? || next.e == e)
  {
    SweepTakesOne(start, sh, p, pc.e, pc.sweep, pc.after, ch, quiet);
  }

  lemma StoreSweeps(start: Shared, sh: Shared, p: string, e: int, pc: PC, ch: Choice, quiet: bool)
    requires Since(start, sh) && StorePoint(start, sh, pc, quiet) && Calls(sh, p, e, pc, ch) && pc.Sweeping?
    ensures var (effect, next) := NextSweep(sh, pc.e, pc.sweep, pc.after, ch);
      StorePoint(start, Do(sh, p, effect), next, quiet) && (next.Idle? || next.e == e)
  {
    SweepTakesOne(start, sh, p, pc.e, pc.sweep, pc.after, ch, quiet);
  }

  lemma StoreLoads(start: Shared, sh: Shared, p: string, e: int, pc: PC, ch: Choice, quiet: bool)
    requires StorePoint(start, sh, pc, quiet) && Calls(sh, p, e, pc, ch) && AtLoad(pc) && CurrentSlotsPresent(sh)
    ensures var (effect, next) := NextLoad(sh, p, pc, ch);
      StorePoint(start, Do(sh, p, effect), next, quiet) && (next.Idle? || next.e == e)
  {
  }

  lemma StoreCommits(start: Shared, sh: Shared, p: string, e: int, pc: PC, ch: Choice, quiet: bool)
    requires Since(start, sh) && StorePoint(start, sh, pc, quiet) && Calls(sh, p, e, pc, ch) && AtStore(pc)
    ensures var (effect, next) := NextStore(sh, p, pc, ch);
      StorePoint(start, Do(sh, p, effect), next, quiet) && (next.Idle? || next.e == e)
  {
  }

  lemma StoreCleansUp(start: Shared, sh: Shared, p: string, e: int, pc: PC, ch: Choice, quiet: bool)
    requires Since(start, sh) && StorePoint(start, sh, pc, quiet) && Calls(sh, p, e, pc, ch) && AtStored(pc)
    ensures var (effect, next) := NextStored(sh, p, pc, ch);
      StorePoint(start, Do(sh, p, effect), next, quiet) && (next.Idle? || next.e == e)
  {
  }

  lemma InvalidateLoads(start: Shared, sh: Shared, p: string, e: int, pc: PC, ch: Choice, register: bool, quiet: bool)
    requires InvalidatePoint(start, sh, pc, register, quiet) && Calls(sh, p, e, pc, ch) && AtLoad(pc) && CurrentSlotsPresent(sh)
    ensures var (effect, next) := NextLoad(sh, p, pc, ch);
      InvalidatePoint(start, Do(sh, p, effect), next, register, quiet) && (next.Idle? || next.e == e)
  {
  }

  /** The last call of an invalidation ends the transaction, or a registration goes on. */
  lemma InvalidateGoesOn(start: Shared, sh: Shared, p: string, e: int, pc: PC, ch: Choice, register: bool, quiet: bool)
    requires Since(start, sh) && InvalidatePoint(start, sh, pc, register, quiet) && Calls(sh, p, e, pc, ch) && AtInvalidate(pc)
    ensures var (effect, next) := NextInvalidate(sh, p, pc, ch);
      && (InvalidatePoint(start, Do(sh, p, effect), next, register, quiet)
          || (register && RegisterPoint(start, Do(sh, p, effect), next, quiet)))
      && (next.Idle? || next.e == e)
  {
  }

  lemma RegisterLoads(start: Shared, sh: Shared, p: string, e: int, pc: PC, ch: Choice, quiet: bool)
    requires RegisterPoint(start, sh, pc, quiet) && Calls(sh, p, e, pc, ch) && AtLoad(pc) && CurrentSlotsPresent(sh)
    ensures var (effect, next) := NextLoad(sh, p, pc, ch);
      && (RegisterPoint(start, Do(sh, p, effect), next, quiet) || InvalidatePoint(start, Do(sh, p, effect), next, true, quiet))
      && (next.Idle? || next.e == e)
  {
  }

  lemma RegisterCommits(start: Shared, sh: Shared, p: string, e: int, pc: PC, ch: Choice, quiet: bool)
    requires Since(start, sh) && RegisterPoint(start, sh, pc, quiet) && Calls(sh, p, e, pc, ch) && AtStore(pc)
    ensures var (effect, next) := NextStore(sh, p, pc, ch);
      RegisterPoint(start, Do(sh, p, effect), next, quiet) && (next.Idle? || next.e == e)
  {
  }

  lemma RegisterCleansUp(start: Shared, sh: Shared, p: string, e: int, pc: PC, ch: Choice, quiet: bool)
    requires Since(start, sh) && RegisterPoint(start, sh, pc, quiet) && Calls(sh, p, e, pc, ch) && AtStored(pc)
    ensures var (effect, next) := NextStored(sh, p, pc, ch);
      RegisterPoint(start, Do(sh, p, effect), next, quiet) && (next.Idle? || next.e == e)
  {
  }

  lemma RefreshLoads(start: Shared, sh: Shared, p: string, e: int, pc: PC, ch: Choice, quiet: bool)
    requires RefreshPoint(start, sh, pc, quiet) && Calls(sh, p, e, pc, ch) && AtLoad(pc) && CurrentSlotsPresent(sh)
    ensures var (effect, next) := NextLoad(sh, p, pc, ch);
      RefreshPoint(start, Do(sh, p, effect), next, quiet) && (next.Idle? || next.e == e)
  {
  }

  lemma ClaimGoesOn(plan: Plan, start: Shared, sh: Shared, p: string, e: int, pc: PC, ch: Choice, quiet: bool)
    requires Point(plan, start, sh, pc, e, quiet) && Calls(sh, p, e, pc, ch) && (pc.ReadEpoch? || pc.Started?)
    ensures var (effect, next) := NextClaim(sh, p, pc, ch); Point(plan, start, Do(sh, p, effect), next, e, quiet)
  {
  }

  /** Releasing the lease ends the transaction where it stood. */
  lemma CloseEnds(plan: Plan, start: Shared, sh: Shared, p: string, e: int, pc: PC, ch: Choice, quiet: bool)
    requires Point(plan, start, sh, pc, e, quiet) && Calls(sh, p, e, pc, ch) && pc.Close?
    ensures var (effect, next) := NextLogout(sh, p, pc, ch); Point(plan, start, Do(sh, p, effect), next, e, quiet)
  {
  }

  lemma StoreGoesOn(start: Shared, sh: Shared, p: string, e: int, pc: PC, ch: Choice, quiet: bool)
    requires Since(start, sh) && Point(Storing, start, sh, pc, e, quiet) && Calls(sh, p, e, pc, ch) && CurrentSlotsPresent(sh)
    ensures var (effect, next) := Next(sh, p, pc, ch); Point(Storing, start, Do(sh, p, effect), next, e, quiet)
  {
    if pc.ReadEpoch? || pc.Started? {
      ClaimGoesOn(Storing, start, sh, p, e, pc, ch, quiet);
    } else if pc.Close? {
      CloseEnds(Storing, start, sh, p, e, pc, ch, quiet);
    } else if pc.Sweeping? {
      StoreSweeps(start, sh, p, e, pc, ch, quiet);
    } else if AtLoad(pc) {
      StoreLoads(start, sh, p, e, pc, ch, quiet);
    } else if AtStore(pc) {
      StoreCommits(start, sh, p, e, pc, ch, quiet);
    } else {
      StoreCleansUp(start, sh, p, e, pc, ch, quiet);
    }
  }

  lemma RegistrationLoads(start: Shared, sh: Shared, p: string, e: int, pc: PC, ch: Choice, quiet: bool)
    requires Point(Registering, start, sh, pc, e, quiet) && Calls(sh, p, e, pc, ch) && AtLoad(pc) && CurrentSlotsPresent(sh)
    ensures var (effect, next) := NextLoad(sh, p, pc, ch); Point(Registering, start, Do(sh, p, effect), next, e, quiet)
  {
    if RegisterPoint(start, sh, pc, quiet) {
      RegisterLoads(start, sh, p, e, pc, ch, quiet);
    } else {
      InvalidateLoads(start, sh, p, e, pc, ch, true, quiet);
    }
  }

  lemma InvalidationGoesOn(start: Shared, sh: Shared, p: string, e: int, pc: PC, ch: Choice, quiet: bool)
    requires Since(start, sh) && Point(Invalidating, start, sh, pc, e, quiet) && Calls(sh, p, e, pc, ch) && CurrentSlotsPresent(sh)
    ensures var (effect, next) := Next(sh, p, pc, ch); Point(Invalidating, start, Do(sh, p, effect), next, e, quiet)
  {
    if pc.Close? {
      CloseEnds(Invalidating, start, sh, p, e, pc, ch, quiet);
    } else if AtLoad(pc) {
      InvalidateLoads(start, sh, p, e, pc, ch, false, quiet);
    } else {
      InvalidateGoesOn(start, sh, p, e, pc, ch, false, quiet);
    }
  }

  lemma LoggingOutGoesOn(start: Shared, sh: Shared, p: string, e: int, pc: PC, ch: Choice, quiet: bool)
    requires Since(start, sh) && Point(LoggingOut, start, sh, pc, e, quiet) && Calls(sh, p, e, pc, ch)
    ensures var (effect, next) := Next(sh, p, pc, ch); Point(LoggingOut, start, Do(sh, p, effect), next, e, quiet)
  {
    if pc.ReadEpoch? || pc.Started? {
      ClaimGoesOn(LoggingOut, start, sh, p, e, pc, ch, quiet);
    } else if pc.Sweeping? {
      LogoutSweeps(start, sh, p, e, pc, ch, quiet);
    } else {
      LogoutGoesOn(start, sh, p, e, pc, ch, quiet);
    }
  }

  lemma RefreshingGoesOn(start: Shared, sh: Shared, p: string, e: int, pc: PC, ch: Choice, quiet: bool)
    requires Point(Refreshing, start, sh, pc, e, quiet) && Calls(sh, p, e, pc, ch) && CurrentSlotsPresent(sh) && !pc.Exchange?
    ensures var (effect, next) := Next(sh, p, pc, ch); Point(Refreshing, start, Do(sh, p, effect), next, e, quiet)
  {
    if pc.ReadEpoch? || pc.Started? {
      ClaimGoesOn(Refreshing, start, sh, p, e, pc, ch, quiet);
    } else if pc.Close? {
      CloseEnds(Refreshing, start, sh, p, e, pc, ch, quiet);
    } else {
      RefreshLoads(start, sh, p, e, pc, ch, quiet);
    }
  }

  lemma RegistrationStores(start: Shared, sh: Shared, p: string, e: int, pc: PC, ch: Choice, quiet: bool)
    requires Since(start, sh) && Point(Registering, start, sh, pc, e, quiet) && Calls(sh, p, e, pc, ch) && (AtStore(pc) || AtStored(pc))
    ensures var (effect, next) := Next(sh, p, pc, ch); Point(Registering, start, Do(sh, p, effect), next, e, quiet)
  {
    if AtStore(pc) {
      RegisterCommits(start, sh, p, e, pc, ch, quiet);
    } else {
      RegisterCleansUp(start, sh, p, e, pc, ch, quiet);
    }
  }

  lemma RegistrationReads(start: Shared, sh: Shared, p: string, e: int, pc: PC, ch: Choice, quiet: bool)
    requires Point(Registering, start, sh, pc, e, quiet) && Calls(sh, p, e, pc, ch) && CurrentSlotsPresent(sh)
    requires pc.ReadEpoch? || pc.Started? || pc.Close? || AtLoad(pc)
    ensures var (effect, next) := Next(sh, p, pc, ch); Point(Registering, start, Do(sh, p, effect), next, e, quiet)
  {
    if AtLoad(pc) {
      RegistrationLoads(start, sh, p, e, pc, ch, quiet);
    } else if pc.Close? {
      CloseEnds(Registering, start, sh, p, e, pc, ch, quiet);
    } else {
      ClaimGoesOn(Registering, start, sh, p, e, pc, ch, quiet);
    }
  }

  lemma RegistrationGoesOn(start: Shared, sh: Shared, p: string, e: int, pc: PC, ch: Choice, quiet: bool)
    requires Since(start, sh) && Point(Registering, start, sh, pc, e, quiet) && Calls(sh, p, e, pc, ch) && CurrentSlotsPresent(sh)
    ensures var (effect, next) := Next(sh, p, pc, ch); Point(Registering, start, Do(sh, p, effect), next, e, quiet)
  {
    if pc.ReadEpoch? || pc.Started? || pc.Close? || AtLoad(pc) {
      RegistrationReads(start, sh, p, e, pc, ch, quiet);
    } else if AtInvalidate(pc) {
      InvalidateGoesOn(start, sh, p, e, pc, ch, true, quiet);
    } else {
      RegistrationStores(start, sh, p, e, pc, ch, quiet);
    }
  }

  lemma GoesOn(plan: Plan, start: Shared, sh: Shared, p: string, e: int, pc: PC, ch: Choice, quiet: bool)
    requires Since(start, sh) && Point(plan, start, sh, pc, e, quiet) && Calls(sh, p, e, pc, ch)
    requires plan.Refreshing? ==> !pc.Exchange?
    requires !plan.LoggingOut? ==> CurrentSlotsPresent(sh)
    ensures var (effect, next) := Next(sh, p, pc, ch); Point(plan, start, Do(sh, p, effect), next, e, quiet)
  {
    match plan {
      case LoggingOut => LoggingOutGoesOn(start, sh, p, e, pc, ch, quiet);
      case Storing => StoreGoesOn(start, sh, p, e, pc, ch, quiet);
      case Invalidating => InvalidationGoesOn(start, sh, p, e, pc, ch, quiet);
      case Registering => RegistrationGoesOn(start, sh, p, e, pc, ch, quiet);
      case Refreshing => RefreshingGoesOn(start, sh, p, e, pc, ch, quiet);
    }
  }

  // ---------------------------------------------------------------- over a whole run

  /** The transaction does not come to the exchange, whose answer decides how it goes on. */
  predicate NeverExchanges(w: World, p: string, run: seq<Action>)
    decreases run
  {
    run == [] || (!(run[0].Run? && run[0].p == p && At(w, p).Exchange?) && NeverExchanges(Step(w, run[0]), p, run[1..]))
  }

  lemma StepGoesOn(plan: Plan, start: Shared, w: World, p: string, e: int, a: Action, quiet: bool)
    requires Inv(w) && Since(start, w.sh) && Point(plan, start, w.sh, At(w, p), e, quiet)
    requires Succeeding(w, p, e, a) && (quiet ==> Undisturbing(w, p, a))
    requires plan.Refreshing? ==> !(a.Run? && a.p == p && At(w, p).Exchange?)
    requires !plan.LoggingOut? ==> !w.sh.logouts
    ensures Point(plan, start, Step(w, a).sh, At(Step(w, a), p), e, quiet)
  {
    if a.Run? && a.p == p {
      GoesOn(plan, start, w.sh, p, e, At(w, p), a.choice, quiet);
    } else {
      OthersAreCalm(w, p, e, a, quiet);
      CalmKeepsPoint(plan, start, w.sh, Step(w, a).sh, At(w, p), e, quiet);
    }
  }

  lemma LogoutsAreRemembered(w: World, a: Action)
    requires w.sh.logouts
    ensures Step(w, a).sh.logouts
  {
  }

  lemma {:induction false} NoLogoutBefore(w: World, run: seq<Action>)
    requires !Exec(w, run).sh.logouts
    ensures !w.sh.logouts
    decreases run
  {
    if run != [] {
      NoLogoutBefore(Step(w, run[0]), run[1..]);
      if w.sh.logouts {
        LogoutsAreRemembered(w, run[0]);
      }
    }
  }

  lemma {:induction false} RunGoesOn(plan: Plan, start: Shared, w: World, p: string, e: int, run: seq<Action>, quiet: bool)
    requires Inv(w) && Since(start, w.sh) && Point(plan, start, w.sh, At(w, p), e, quiet)
    requires SucceedingRun(w, p, e, run) && (quiet ==> QuietRun(w, p, run))
    requires plan.Refreshing? ==> NeverExchanges(w, p, run)
    requires !plan.LoggingOut? ==> !Exec(w, run).sh.logouts
    ensures var after := Exec(w, run);
      Inv(after) && Since(start, after.sh) && Point(plan, start, after.sh, At(after, p), e, quiet)
    decreases run
  {
    if run == [] {
    } else {
      var next := Step(w, run[0]);
      if !plan.LoggingOut? {
        NoLogoutBefore(w, run);
      }
      StepGoesOn(plan, start, w, p, e, run[0], quiet);
      StepKeepsInv(w, run[0]);
      StepKeepsSince(start, w, run[0]);
      RunGoesOn(plan, start, next, p, e, run[1..], quiet);
    }
  }

  // ---------------------------------------------------------------- what is achieved

  lemma TransactionAchieves(
    init: World, before: seq<Action>, plan: Plan, p: string, e: int, run: seq<Action>, quiet: bool)
    requires Initial(init) && var w := Exec(init, before);
      && Point(plan, w.sh, w.sh, At(w, p), e, quiet) && SucceedingRun(w, p, e, run)
      && (quiet ==> QuietRun(w, p, run)) && (plan.Refreshing? ==> NeverExchanges(w, p, run))
      && (!plan.LoggingOut? ==> !Exec(w, run).sh.logouts)
    ensures var w := Exec(init, before);
      Inv(Exec(w, run)) && Point(plan, w.sh, Exec(w, run).sh, At(Exec(w, run), p), e, quiet)
  {
    var w := Exec(init, before);
    InitialInv(init);
    InvHolds(init, before);
    SinceNow(w);
    RunGoesOn(plan, w.sh, w, p, e, run, quiet);
  }

  /** A logout that keeps its epoch and whose calls all succeed leaves nothing behind, whatever
      other processes do meanwhile: when it has ended neither fence has a pointer, the slots that
      were current and those that were on record when it began are gone, and so are the legacy
      labels; and, if nobody else wrote marker or records, neither is left. */
  lemma LogoutIsComplete(init: World, before: seq<Action>, p: string, e: int, run: seq<Action>, quiet: bool)
    requires Initial(init) && var w := Exec(init, before);
      && At(w, p) == ReadEpoch(Logout) && SucceedingRun(w, p, e, run) && At(Exec(w, run), p).Idle?
      && (quiet ==> QuietRun(w, p, run))
    ensures var w := Exec(init, before);
      var after := Exec(w, run).sh;
      && REFRESH_FENCE !in after.view.pointers && CLIENT_FENCE !in after.view.pointers
      && (forall f :: f in w.sh.view.pointers ==> w.sh.view.pointers[f].slot !in after.secrets)
      && (forall r :: r in w.sh.view.retired ==> r.1 !in after.secrets && (quiet ==> r !in after.view.retired))
      && LEGACY_REFRESH !in after.secrets && LEGACY_CLIENT !in after.secrets
      && (quiet ==> !after.view.invalidated)
  {
    TransactionAchieves(init, before, LoggingOut, p, e, run, quiet);
    OnlyTwoFences(init, before);
  }

  lemma OnlyTwoFences(init: World, run: seq<Action>)
    requires Initial(init)
    ensures forall f :: f in Exec(init, run).sh.view.pointers ==> f == REFRESH_FENCE || f == CLIENT_FENCE
  {
    InitialInv(init);
    InvHolds(init, run);
  }

  /** An authorization that succeeds replaces the refresh grant: the fence points at a new slot,
      which is in the secret store, and the slot and the legacy grant it replaces are gone, with
      everything that was on record. */
  lemma AuthorizationIsComplete(init: World, before: seq<Action>, p: string, e: int, run: seq<Action>, quiet: bool)
    requires Initial(init) && var w := Exec(init, before);
      && At(w, p) == ReadEpoch(Authorize) && SucceedingRun(w, p, e, run) && At(Exec(w, run), p).Idle?
      && (quiet ==> QuietRun(w, p, run)) && !Exec(w, run).sh.logouts
    ensures var w := Exec(init, before);
      var after := Exec(w, run).sh;
      Stored(w.sh, after, quiet) && after.view.pointers[REFRESH_FENCE].slot in after.secrets
  {
    TransactionAchieves(init, before, Storing, p, e, run, quiet);
  }

  /** A registration that succeeds points the client fence at a new slot, which is in the secret
      store, and removes the legacy record; no grant of the old registration can be loaded. */
  lemma RegistrationIsComplete(init: World, before: seq<Action>, p: string, e: int, run: seq<Action>, quiet: bool)
    requires Initial(init) && var w := Exec(init, before);
      && At(w, p) == ReadEpoch(Register) && SucceedingRun(w, p, e, run) && At(Exec(w, run), p).Idle?
      && (quiet ==> QuietRun(w, p, run)) && !Exec(w, run).sh.logouts
    ensures var w := Exec(init, before);
      var after := Exec(w, run).sh;
      && Registered(w.sh, after, quiet) && after.view.pointers[CLIENT_FENCE].slot in after.secrets
      && LEGACY_CLIENT !in after.secrets && (quiet ==> (CLIENT_FENCE, LEGACY_CLIENT) !in after.view.retired)
  {
    TransactionAchieves(init, before, Registering, p, e, run, quiet);
  }

  lemma ExchangeDecides(start: Shared, w: World, p: string, e: int, choice: Choice, quiet: bool)
    requires Point(Refreshing, start, w.sh, At(w, p), e, quiet) && At(w, p).Exchange?
    requires Succeeding(w, p, e, Run(p, choice))
    ensures var after := Step(w, Run(p, choice));
      Point(if choice.outcome.Rejected? then Invalidating else Storing, start, after.sh, At(after, p), e, quiet)
  {
  }

  lemma AnsweredGoesOn(start: Shared, asking: World, p: string, e: int, choice: Choice, rest: seq<Action>, quiet: bool)
    requires Inv(asking) && Since(start, asking.sh) && Point(Refreshing, start, asking.sh, At(asking, p), e, quiet)
    requires At(asking, p).Exchange? && Succeeding(asking, p, e, Run(p, choice))
    requires var answered := Step(asking, Run(p, choice));
      && SucceedingRun(answered, p, e, rest) && !Exec(answered, rest).sh.logouts && (quiet ==> QuietRun(answered, p, rest))
    ensures var after := Exec(Step(asking, Run(p, choice)), rest);
      Inv(after) && Point(if choice.outcome.Rejected? then Invalidating else Storing, start, after.sh, At(after, p), e, quiet)
  {
    ExchangeDecides(start, asking, p, e, choice, quiet);
    StepKeepsInv(asking, Run(p, choice));
    StepKeepsSince(start, asking, Run(p, choice));
    RunGoesOn(if choice.outcome.Rejected? then Invalidating else Storing, start, Step(asking, Run(p, choice)), p, e, rest, quiet);
  }

  lemma NoLogoutWhileAsking(asking: World, p: string, choice: Choice, rest: seq<Action>)
    requires !Exec(Step(asking, Run(p, choice)), rest).sh.logouts
    ensures !asking.sh.logouts
  {
    NoLogoutBefore(Step(asking, Run(p, choice)), rest);
    if asking.sh.logouts {
      LogoutsAreRemembered(asking, Run(p, choice));
    }
  }

  /** A refresh that comes to the exchange replaces the grant when the server answers with a new
      one, and drops it when the server rejects it. */
  lemma RefreshIsComplete(
    init: World, before: seq<Action>, p: string, e: int, loading: seq<Action>, choice: Choice, rest: seq<Action>, quiet: bool)
    requires Initial(init) && var w := Exec(init, before);
      var asking := Exec(w, loading);
      var answered := Step(asking, Run(p, choice));
      && At(w, p) == ReadEpoch(RefreshGrant) && SucceedingRun(w, p, e, loading) && NeverExchanges(w, p, loading)
      && At(asking, p).Exchange? && Succeeding(asking, p, e, Run(p, choice))
      && SucceedingRun(answered, p, e, rest) && At(Exec(answered, rest), p).Idle? && !Exec(answered, rest).sh.logouts
      && (quiet ==> QuietRun(w, p, loading) && QuietRun(answered, p, rest))
    ensures var start := Exec(init, before).sh;
      var after := Exec(Step(Exec(Exec(init, before), loading), Run(p, choice)), rest).sh;
      if choice.outcome.Rejected? then Dropped(start, after, quiet)
      else Stored(start, after, quiet) && after.view.pointers[REFRESH_FENCE].slot in after.secrets
  {
    var w := Exec(init, before);
    NoLogoutWhileAsking(Exec(w, loading), p, choice, rest);
    InitialInv(init);
    InvHolds(init, before);
    SinceNow(w);
    RunGoesOn(Refreshing, w.sh, w, p, e, loading, quiet);
    AnsweredGoesOn(w.sh, Exec(w, loading), p, e, choice, rest, quiet);
  }

  /** A refresh that ends without coming to the exchange found no grant: no pointer, and no
      legacy grant that is not masked. */
  lemma RefreshFindsNothing(init: World, before: seq<Action>, p: string, e: int, run: seq<Action>, quiet: bool)
    requires Initial(init) && var w := Exec(init, before);
      && At(w, p) == ReadEpoch(RefreshGrant) && SucceedingRun(w, p, e, run) && NeverExchanges(w, p, run)
      && At(Exec(w, run), p).Idle? && (quiet ==> QuietRun(w, p, run)) && !Exec(w, run).sh.logouts
    ensures NothingToRefresh(Exec(init, before).sh, Exec(Exec(init, before), run).sh, quiet)
  {
    TransactionAchieves(init, before, Refreshing, p, e, run, quiet);
  }

  // ---------------------------------------------------------------- left alone, it ends

  /** How many program points are still to come, at most. */
  function Stage(pc: PC): nat {
    match pc
    case Idle => 0
    case Close(_) => 1
    case RecordRollback(_, _, _) => 2
    case RollBack(_, _, _) => 3
    case ForgetReplaced(_, _) => 4
    case DropReplaced(_, _) => 5
    case DropLegacyStored(_, _) => 6
    case UnmarkStored(_, _) => 7
    case ForgetLegacyClient(_) => 6
    case DropLegacyClient(_) => 7
    case CommitFence(_, _, _, _) => 8
    case ReadClientPointer(_, _) => 9
    case Sweeping(_, _, _) => 10
    case WriteClient(_) => 11
    case WriteRefresh(_, _) => 11
    case LogoutUnmark(_) => 12
    case LogoutDropLegacy(_, legacy) => if legacy == LEGACY_CLIENT then 14 else 13
    case LogoutClear(_, fence, _) => if fence == REFRESH_FENCE then 18 else 15
    case LogoutMark(_, _) => 19
    case LogoutDrop(_, fence, _) => if fence == REFRESH_FENCE then 20 else 16
    case LogoutRead(_, fence) => if fence == REFRESH_FENCE then 21 else 17
    case UnmarkInvalid(_, _) => 12
    case DropLegacyInvalid(_, _) => 13
    case ForgetInvalid(_, _, _) => 14
    case DropInvalid(_, _, _) => 15
    case ClearInvalid(_, _, _) => 16
    case MarkInvalid(_, _, _) => 17
    case ReadSecret(_, purpose, _) => if purpose.ToInvalidate? then 18 else 22
    case ReadMarker(_, purpose, _) => if purpose.ToInvalidate? then 19 else 23
    case ReadPointer(_, purpose) => if purpose.ToInvalidate? then 20 else 24
    case Exchange(_, _) => 21
    case Started(_, _) => 25
    case ReadEpoch(_) => 26
  }

  function Unlisted(pc: PC): nat {
    if pc.Sweeping? then |pc.sweep.unlisted| else 0
  }

  function Undone(pc: PC): nat {
    if pc.Sweeping? then 2 * |pc.sweep.todo| + (if pc.sweep.deleted.Some? then 1 else 0) else 0
  }

  predicate Nearer(next: PC, pc: PC) {
    || Stage(next) < Stage(pc)
    || (Stage(next) == Stage(pc) && (Unlisted(next) < Unlisted(pc) || (Unlisted(next) == Unlisted(pc) && Undone(next) < Undone(pc))))
  }

  /** A choice with which a call succeeds: a fresh label where one is needed, a record that is
      still to be swept where one is. */
  predicate Fits(sh: Shared, pc: PC, ch: Choice) {
    && ch.outcome.Succeeds?
    && (pc.WriteRefresh? || pc.WriteClient? ==> CredentialProtocol.Fresh(sh, ch.newSlot))
    && (pc.Sweeping? && pc.sweep.todo != {} ==> ch.item in pc.sweep.todo)
  }

  lemma SweepComesNearer(sh: Shared, pc: PC, ch: Choice)
    requires pc.Sweeping? && Fits(sh, pc, ch)
    ensures Nearer(NextSweep(sh, pc.e, pc.sweep, pc.after, ch).1, pc)
  {
    if pc.sweep.deleted.None? && pc.sweep.todo != {} {
      assert |pc.sweep.todo - {ch.item}| == |pc.sweep.todo| - 1;
    }
  }

  lemma LogoutComesNearer(sh: Shared, p: string, pc: PC, ch: Choice)
    requires AtLogout(pc) && Fits(sh, pc, ch)
    ensures Nearer(NextLogout(sh, p, pc, ch).1, pc)
  {
  }

  lemma StoreComesNearer(sh: Shared, p: string, pc: PC, ch: Choice)
    requires (AtStore(pc) || AtStored(pc)) && Fits(sh, pc, ch)
    ensures Nearer(Next(sh, p, pc, ch).1, pc)
  {
  }

  lemma LoadComesNearer(sh: Shared, p: string, pc: PC, ch: Choice)
    requires (AtLoad(pc) || AtInvalidate(pc)) && Fits(sh, pc, ch)
    ensures Nearer(Next(sh, p, pc, ch).1, pc)
  {
  }

  lemma ComesNearer(sh: Shared, p: string, pc: PC, ch: Choice)
    requires !pc.Idle? && Fits(sh, pc, ch)
    ensures Nearer(Next(sh, p, pc, ch).1, pc)
  {
    if pc.Sweeping? {
      SweepComesNearer(sh, pc, ch);
    } else if AtLogout(pc) {
      LogoutComesNearer(sh, p, pc, ch);
    } else if AtStore(pc) || AtStored(pc) {
      StoreComesNearer(sh, p, pc, ch);
    } else if AtLoad(pc) || AtInvalidate(pc) {
      LoadComesNearer(sh, p, pc, ch);
    }
  }

  /** Until it has ended, a transaction's own calls leave its lease. */
  lemma OwnCallsLeaveTheLease(sh: Shared, p: string, e: int, pc: PC, ch: Choice)
    requires !pc.Idle? && (pc.ReadEpoch? || pc.e == e) && HeldInEpoch(sh.lease, p, e, sh.now) && Fits(sh, pc, ch)
    ensures var (effect, next) := Next(sh, p, pc, ch);
      var after := Do(sh, p, effect);
      after.now == sh.now && (!next.Idle? ==> after.lease == sh.lease && (next.ReadEpoch? || next.e == e))
  {
  }

  /** Until it writes a slot, they leave a label nobody has used. */
  lemma OwnCallsLeaveLabels(sh: Shared, p: string, pc: PC, ch: Choice, slot: string)
    requires CredentialProtocol.Fresh(sh, slot) && Stage(Next(sh, p, pc, ch).1) > 10
    ensures CredentialProtocol.Fresh(Do(sh, p, Next(sh, p, pc, ch).0), slot)
  {
  }

  predicate OwnSuccesses(p: string, run: seq<Action>) {
    forall i :: 0 <= i < |run| ==> run[i].Run? && run[i].p == p && run[i].choice.outcome.Succeeds?
  }

  lemma {:induction false} OwnRunsAreQuiet(w: World, p: string, run: seq<Action>)
    requires OwnSuccesses(p, run)
    ensures QuietRun(w, p, run)
    decreases run
  {
    if run != [] {
      assert OwnSuccesses(p, run[1..]);
      OwnRunsAreQuiet(Step(w, run[0]), p, run[1..]);
    }
  }

  /** A transaction that is left alone, keeps its epoch and whose calls succeed comes to its end. */
  lemma {:induction false} TransactionsEnd(w: World, p: string, e: int, slot: string) returns (run: seq<Action>)
    requires !At(w, p).Idle? && (At(w, p).ReadEpoch? || At(w, p).e == e) && HeldInEpoch(w.sh.lease, p, e, w.sh.now)
    requires Stage(At(w, p)) > 10 ==> CredentialProtocol.Fresh(w.sh, slot)
    ensures SucceedingRun(w, p, e, run) && OwnSuccesses(p, run) && At(Exec(w, run), p).Idle?
    decreases Stage(At(w, p)), Unlisted(At(w, p)), Undone(At(w, p))
  {
    var pc := At(w, p);
    var item := if pc.Sweeping? && pc.sweep.todo != {} then OneOf(pc.sweep.todo) else ("", "");
    var ch := Choice(Succeeds, slot, item);
    var a := Run(p, ch);
    var next := Step(w, a);
    ComesNearer(w.sh, p, pc, ch);
    OwnCallsLeaveTheLease(w.sh, p, e, pc, ch);
    if Stage(At(next, p)) > 10 {
      OwnCallsLeaveLabels(w.sh, p, pc, ch, slot);
    }
    var rest: seq<Action> := [];
    assert Exec(next, rest) == next;
    if !At(next, p).Idle? {
      rest := TransactionsEnd(next, p, e, slot);
    }
    run := [a] + rest;
    assert run[1..] == rest && Exec(w, run) == Exec(next, rest);
  }

  ghost function OneOf(s: set<(string, string)>): (x: (string, string))
    requires s != {}
    ensures x in s
  {
    var x :| x in s; x
  }

  /** So a logout that is left alone and whose calls succeed ends with everything gone. */
  lemma LogoutsComplete(init: World, before: seq<Action>, p: string, e: int, slot: string) returns (run: seq<Action>)
    requires Initial(init) && var w := Exec(init, before);
      && At(w, p) == ReadEpoch(Logout) && HeldInEpoch(w.sh.lease, p, e, w.sh.now) && CredentialProtocol.Fresh(w.sh, slot)
    ensures OwnSuccesses(p, run) && SucceedingRun(Exec(init, before), p, e, run)
    ensures var after := Exec(Exec(init, before), run);
      && At(after, p).Idle? && LoggedOut(Exec(init, before).sh, after.sh, true)
  {
    var w := Exec(init, before);
    run := TransactionsEnd(w, p, e, slot);
    OwnRunsAreQuiet(w, p, run);
    TransactionAchieves(init, before, LoggingOut, p, e, run, true);
  }

  // ---------------------------------------------------------------- a slot that was not committed

  /** A writer whose slot is not committed rolls it back: the write failed, the client pointer
      could not be read, or the commit failed or was rejected. */
  lemma UncommittedSlotsAreRolledBack(sh: Shared, p: string, pc: PC, ch: Choice)
    ensures var (effect, next) := Next(sh, p, pc, ch);
      && (pc.CommitFence? && !Commits(sh, p, effect) ==> next == RollBack(pc.e, pc.fence, pc.slot))
      && (pc.ReadClientPointer? && !ch.outcome.Succeeds? ==> next == RollBack(pc.e, CLIENT_FENCE, pc.slot))
      && (pc.WriteRefresh? && !ch.outcome.Succeeds? && CredentialProtocol.Fresh(sh, ch.newSlot) ==>
            next == RollBack(pc.e, REFRESH_FENCE, ch.newSlot))
      && (pc.WriteClient? && !ch.outcome.Succeeds? && CredentialProtocol.Fresh(sh, ch.newSlot) ==>
            next == RollBack(pc.e, CLIENT_FENCE, ch.newSlot))
  {
  }

  /** A rolled back slot is deleted, or else recorded, unless both calls fail. */
  lemma RollbacksLeaveNoOrphan(w: World, p: string, delete: Choice, record: Choice)
    requires At(w, p).RollBack?
    ensures var after := Exec(w, [Run(p, delete), Run(p, record)]).sh;
      || At(w, p).slot !in after.secrets || (At(w, p).fence, At(w, p).slot) in after.view.retired
      || (!delete.outcome.Succeeds? && !record.outcome.Succeeds?)
  {
    var run := [Run(p, delete), Run(p, record)];
    assert run[1..] == [Run(p, record)];
    Runs.AfterOne(Step, Step(w, Run(p, delete)), Run(p, record));
  }
}
