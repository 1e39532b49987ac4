/** What every run of the credential protocol keeps: the fence is linearized by the lease
    epoch, and no committed credential is stranded or wrongly deleted. */
module CredentialSafety {
  import opened Prelude
  import opened Leases
  import opened CredentialFences
  import opened CredentialProtocol

  // ---------------------------------------------------------------- what a program point holds

  /** The fence whose pointer the transaction read and still has to change, what it read, and
      its lease epoch. */
  function Target(pc: PC): Option<(string, Seen, int)> {
    if pc.ReadMarker? || pc.ReadSecret? || pc.Exchange? || pc.WriteRefresh? || pc.MarkInvalid? || pc.ClearInvalid? || pc.LogoutMark? then
      Some((REFRESH_FENCE, pc.seen, pc.e))
    else if pc.CommitFence? || pc.LogoutDrop? || pc.LogoutClear? then
      Some((pc.fence, pc.seen, pc.e))
    else if pc.Sweeping? && pc.after.ThenCommit? then
      Some((REFRESH_FENCE, pc.after.seen, pc.e))
    else None
  }

  /** The slot the transaction wrote and may still commit. */
  function Own(pc: PC): Option<string> {
    if pc.ReadClientPointer? || pc.CommitFence? then Some(pc.slot)
    else if pc.Sweeping? && pc.after.ThenCommit? then Some(pc.after.slot)
    else None
  }

  function NonEmpty(l: string): set<string> {
    if l == "" then {} else {l}
  }

  /** Labels the transaction may still delete. */
  function Doomed(pc: PC): set<string> {
    if pc.Sweeping? then set r | r in pc.sweep.todo :: r.1
    else if pc.UnmarkStored? || pc.DropLegacyStored? then NonEmpty(pc.replaced)
    else if pc.DropReplaced? then {pc.replaced}
    else if pc.RollBack? || pc.RecordRollback? || pc.DropInvalid? then {pc.slot}
    else if pc.LogoutDropLegacy? then {pc.legacy}
    else {}
  }

  /** Labels the transaction knows to be deleted. */
  function Gone(pc: PC): set<string> {
    if pc.Sweeping? then (if pc.sweep.deleted.Some? then {pc.sweep.deleted.value.1} else {})
    else if pc.ForgetReplaced? then {pc.replaced}
    else if pc.ForgetInvalid? then {pc.slot}
    else if pc.ForgetLegacyClient? then {LEGACY_CLIENT}
    else if pc.LogoutMark? || pc.LogoutClear? then NonEmpty(SlotOf(pc.seen))
    else {}
  }

  /** Points before and in the deletion of slots that are still current. */
  predicate InLogout(pc: PC) {
    || pc.LogoutRead? || pc.LogoutDrop? || pc.LogoutMark? || pc.LogoutClear?
    || ((pc.ReadEpoch? || pc.Started?) && pc.kind.Logout?)
  }

  predicate FencesNamed(pc: PC) {
    && (pc.CommitFence? || pc.RollBack? || pc.RecordRollback? || pc.LogoutRead? || pc.LogoutDrop? || pc.LogoutClear? ==> IsFence(pc.fence))
    && (pc.Sweeping? ==> forall f :: f in pc.sweep.unlisted ==> IsFence(f))
  }

  // ---------------------------------------------------------------- invariant

  /** Nothing moved this fence since the pointer was read, and the pointer is what was read. */
  predicate Undisturbed(sh: Shared, fence: string, seen: Seen) {
    && seen.pointer == Current(sh, fence)
    && seen.at <= |sh.moves|
    && forall i :: seen.at <= i < |sh.moves| ==> sh.moves[i].fence != fence
  }

  predicate OwnsEpoch(sh: Shared, p: string, e: int) {
    sh.lease.Some? && sh.lease.value.owner == p && sh.lease.value.generation == e
  }

  predicate Known(sh: Shared, l: string) {
    l in sh.used || IsLegacy(l)
  }

  ghost predicate OwnedBySome(w: World, l: string) {
    exists p :: p in w.procs && Own(w.procs[p]) == Some(l)
  }

  /** Safe to delete at any time: never current again, and nobody's slot to commit. */
  ghost predicate Condemned(w: World, l: string) {
    Known(w.sh, l) && !IsCurrent(w.sh, l) && !OwnedBySome(w, l)
  }

  /** A committed slot still in the secret store is current or on record. */
  ghost predicate NothingStranded(sh: Shared) {
    forall f, l :: (f, l) in sh.committed && l in sh.secrets ==>
      IsCurrentOf(sh, f, l) || (f, l) in sh.view.retired
  }

  predicate CurrentSlotsPresent(sh: Shared) {
    forall f :: f in sh.view.pointers ==> sh.view.pointers[f].slot in sh.secrets
  }

  predicate PointersCommitted(sh: Shared) {
    forall f :: f in sh.view.pointers ==> IsFence(f) && (f, sh.view.pointers[f].slot) in sh.committed
  }

  ghost predicate SharedInv(sh: Shared) {
    && PointersCommitted(sh)
    && (forall f, l :: (f, l) in sh.committed ==> l in sh.used)
    && (forall f, f', l :: (f, l) in sh.committed && (f', l) in sh.committed ==> f == f')
    && (forall l :: l in sh.used ==> l != "" && !IsLegacy(l))
    && NothingStranded(sh)
    && (!sh.logouts ==> CurrentSlotsPresent(sh))
  }

  ghost predicate TargetInv(sh: Shared, p: string, pc: PC) {
    Target(pc).Some? && OwnsEpoch(sh, p, Target(pc).value.2) ==>
      Undisturbed(sh, Target(pc).value.0, Target(pc).value.1)
  }

  ghost predicate ProcInv(w: World, p: string, pc: PC) {
    && TargetInv(w.sh, p, pc)
    && (Own(pc).Some? ==> OwnInv(w, p, Own(pc).value))
    && (forall l :: l in Doomed(pc) ==> Condemned(w, l))
    && (forall l :: l in Gone(pc) ==> Known(w.sh, l) && l !in w.sh.secrets)
    && PointInv(w.sh, pc)
  }

  predicate PointInv(sh: Shared, pc: PC) {
    && (InLogout(pc) ==> sh.logouts)
    && (pc.LogoutDrop? ==> (pc.fence, SlotOf(pc.seen)) in sh.committed && pc.seen.pointer.Some?)
    && FencesNamed(pc)
  }

  ghost predicate OwnInv(w: World, p: string, l: string) {
    && l in w.sh.used && l in w.sh.secrets
    && (forall f :: (f, l) !in w.sh.committed)
    && (forall q :: q in w.procs && q != p ==> Own(w.procs[q]) != Some(l))
  }

  ghost predicate Inv(w: World) {
    && SharedInv(w.sh)
    && (forall r :: r in w.sh.view.retired ==> IsFence(r.0) && Condemned(w, r.1))
    && (forall p :: p in w.procs ==> ProcInv(w, p, w.procs[p]))
  }

  // ---------------------------------------------------------------- what a step may do

  /** What a process may do at its program point. A transaction gains a slot of its own only
      by writing a new one; it deletes, records and forgets only labels it may. */
  ghost predicate Licensed(w: World, p: string, pc: PC, effect: Effect, next: PC) {
    && (Own(next).None? || Own(next) == Own(pc) || (effect.SetSecret? && effect.stored && Own(next) == Some(effect.l)))
    && match effect
       case SetSecret(l, _) => Fresh(w.sh, l) && Own(pc).None?
       case DeleteSecret(l) => Condemned(w, l) || (pc.LogoutDrop? && l == SlotOf(pc.seen))
       case Commit(c, e) =>
         && pc.CommitFence? && e == pc.e && c == CommitOf(pc.fence, pc.seen, pc.slot)
         && (HeldInEpoch(w.sh.lease, p, e, w.sh.now) && Advances(w.sh.view, c) ==> Own(next).None?)
       case Clear(fence, slot, e) =>
         && Target(pc).Some? && Target(pc).value.0 == fence && Target(pc).value.2 == e && Own(pc).None?
         && (slot == SlotOf(Target(pc).value.1) || (slot == "" && SlotOf(Target(pc).value.1) in Gone(pc)))
       case RecordSlot(fence, l) => IsFence(fence) && Condemned(w, l)
       case ForgetSlot(_, l) => l in Gone(pc)
       case _ => true
  }

  lemma LegacyIsCondemned(w: World, l: string)
    requires Inv(w) && IsLegacy(l)
    ensures Condemned(w, l)
  {
    assert forall q :: q in w.procs && Own(w.procs[q]).Some? ==> ProcInv(w, q, w.procs[q]);
  }

  ghost predicate MayDelete(w: World, pc: PC) {
    && (forall l :: l in Doomed(pc) ==> Condemned(w, l))
    && Condemned(w, LEGACY_REFRESH) && Condemned(w, LEGACY_CLIENT)
    && FencesNamed(pc)
  }

  lemma StoreIsLicensed(w: World, p: string, pc: PC, ch: Choice)
    requires MayDelete(w, pc)
    ensures var (effect, next) := NextStore(w.sh, p, pc, ch); Licensed(w, p, pc, effect, next)
  {
  }

  lemma StoredIsLicensed(w: World, p: string, pc: PC, ch: Choice)
    requires MayDelete(w, pc)
    ensures var (effect, next) := NextStored(w.sh, p, pc, ch); Licensed(w, p, pc, effect, next)
  {
  }

  lemma InvalidateIsLicensed(w: World, p: string, pc: PC, ch: Choice)
    requires MayDelete(w, pc)
    ensures var (effect, next) := NextInvalidate(w.sh, p, pc, ch); Licensed(w, p, pc, effect, next)
  {
  }

  lemma LogoutIsLicensed(w: World, p: string, pc: PC, ch: Choice)
    requires MayDelete(w, pc)
    ensures var (effect, next) := NextLogout(w.sh, p, pc, ch); Licensed(w, p, pc, effect, next)
  {
  }

  lemma LoadIsLicensed(w: World, p: string, pc: PC, ch: Choice)
    requires MayDelete(w, pc)
    ensures var (effect, next) := NextLoad(w.sh, p, pc, ch); Licensed(w, p, pc, effect, next)
  {
  }

  lemma ClaimIsLicensed(w: World, p: string, pc: PC, ch: Choice)
    requires MayDelete(w, pc)
    ensures var (effect, next) := NextClaim(w.sh, p, pc, ch); Licensed(w, p, pc, effect, next)
  {
  }

  lemma SweepIsLicensed(w: World, p: string, pc: PC, ch: Choice)
    requires MayDelete(w, pc) && pc.Sweeping?
    ensures var (effect, next) := NextSweep(w.sh, pc.e, pc.sweep, pc.after, ch); Licensed(w, p, pc, effect, next)
  {
  }

  lemma NextIsLicensed(w: World, p: string, ch: Choice)
    requires Inv(w) && p in w.procs
    ensures var (effect, next) := Next(w.sh, p, w.procs[p], ch); Licensed(w, p, w.procs[p], effect, next)
  {
    var pc := w.procs[p];
    assert ProcInv(w, p, pc);
    LegacyIsCondemned(w, LEGACY_REFRESH);
    LegacyIsCondemned(w, LEGACY_CLIENT);
    if AtStore(pc) {
      StoreIsLicensed(w, p, pc, ch);
    } else if AtStored(pc) {
      StoredIsLicensed(w, p, pc, ch);
    } else if AtInvalidate(pc) {
      InvalidateIsLicensed(w, p, pc, ch);
    } else if AtLogout(pc) {
      LogoutIsLicensed(w, p, pc, ch);
    } else if pc.Sweeping? {
      SweepIsLicensed(w, p, pc, ch);
    } else if AtLoad(pc) {
      LoadIsLicensed(w, p, pc, ch);
    } else {
      ClaimIsLicensed(w, p, pc, ch);
    }
  }

  // ---------------------------------------------------------------- licensed calls keep the invariant

  ghost predicate MayStep(w: World, p: string, pc: PC, effect: Effect, next: PC) {
    Inv(w) && p in w.procs && w.procs[p] == pc && Licensed(w, p, pc, effect, next)
  }

  predicate Commits(sh: Shared, p: string, effect: Effect) {
    effect.Commit? && HeldInEpoch(sh.lease, p, effect.e, sh.now) && Advances(sh.view, effect.c)
  }

  predicate Clears(sh: Shared, p: string, effect: Effect) {
    effect.Clear? && HeldInEpoch(sh.lease, p, effect.e, sh.now)
  }

  lemma CondemnedStays(w: World, p: string, pc: PC, effect: Effect, next: PC, l: string)
    requires MayStep(w, p, pc, effect, next) && Condemned(w, l)
    ensures Condemned(After(w, p, effect, next), l)
  {
    var w' := After(w, p, effect, next);
    assert Commits(w.sh, p, effect) ==> Own(pc) == Some(effect.c.slot);
    forall q | q in w'.procs
      ensures Own(w'.procs[q]) != Some(l)
    {
      assert q != p ==> w'.procs[q] == w.procs[q];
    }
    forall f | f in w'.sh.view.pointers
      ensures !IsCurrentOf(w'.sh, f, l)
    {
      assert f in w.sh.view.pointers ==> !IsCurrentOf(w.sh, f, l);
    }
  }

  /** A writer that holds its epoch replaces exactly what it read. */
  lemma CommitKeepsShared(w: World, p: string, pc: PC, effect: Effect, next: PC)
    requires MayStep(w, p, pc, effect, next) && Commits(w.sh, p, effect)
    ensures SharedInv(After(w, p, effect, next).sh)
  {
    assert ProcInv(w, p, pc);
  }

  lemma ClearKeepsShared(w: World, p: string, pc: PC, effect: Effect, next: PC)
    requires MayStep(w, p, pc, effect, next) && Clears(w.sh, p, effect)
    ensures SharedInv(After(w, p, effect, next).sh)
  {
    assert ProcInv(w, p, pc);
  }

  lemma LicensedKeepsShared(w: World, p: string, pc: PC, effect: Effect, next: PC)
    requires MayStep(w, p, pc, effect, next)
    ensures SharedInv(After(w, p, effect, next).sh)
  {
    assert ProcInv(w, p, pc);
    if Commits(w.sh, p, effect) {
      CommitKeepsShared(w, p, pc, effect, next);
    } else if Clears(w.sh, p, effect) {
      ClearKeepsShared(w, p, pc, effect, next);
    }
  }

  lemma LicensedKeepsRetired(w: World, p: string, pc: PC, effect: Effect, next: PC)
    requires MayStep(w, p, pc, effect, next)
    ensures forall r :: r in After(w, p, effect, next).sh.view.retired ==>
      IsFence(r.0) && Condemned(After(w, p, effect, next), r.1)
  {
    var w' := After(w, p, effect, next);
    assert ProcInv(w, p, pc);
    forall r | r in w'.sh.view.retired
      ensures IsFence(r.0) && Condemned(w', r.1)
    {
      if r in w.sh.view.retired || effect.RecordSlot? {
        CondemnedStays(w, p, pc, effect, next, r.1);
      } else if IsLegacy(r.1) {
        LegacyIsCondemned(w, r.1);
        CondemnedStays(w, p, pc, effect, next, r.1);
      } else {
        ReplacedIsCondemned(w, p, pc, effect, next, r.1);
      }
    }
  }

  /** The slot a commit or clear takes off the pointer is nobody's any more. */
  lemma ReplacedIsCondemned(w: World, p: string, pc: PC, effect: Effect, next: PC, l: string)
    requires MayStep(w, p, pc, effect, next)
    requires Commits(w.sh, p, effect) || Clears(w.sh, p, effect)
    requires Target(pc).Some? && l == SlotOf(Target(pc).value.1) && l != ""
    ensures Condemned(After(w, p, effect, next), l)
  {
    var w' := After(w, p, effect, next);
    assert ProcInv(w, p, pc);
    var f := Target(pc).value.0;
    assert IsCurrentOf(w.sh, f, l) && (f, l) in w.sh.committed;
    forall q | q in w'.procs
      ensures Own(w'.procs[q]) != Some(l)
    {
      assert q != p ==> ProcInv(w, q, w.procs[q]);
    }
  }

  /** A step of one process keeps what every other process relies on. */
  lemma LicensedKeepsOthers(w: World, p: string, pc: PC, effect: Effect, next: PC, q: string)
    requires MayStep(w, p, pc, effect, next) && q in w.procs && q != p
    ensures ProcInv(After(w, p, effect, next), q, w.procs[q])
  {
    var w', pq := After(w, p, effect, next), w.procs[q];
    assert ProcInv(w, p, pc) && ProcInv(w, q, pq);
    forall l | l in Doomed(pq)
      ensures Condemned(w', l)
    {
      CondemnedStays(w, p, pc, effect, next, l);
    }
    if Own(pq).Some? {
      OwnStays(w, p, pc, effect, next, q);
    }
  }

  lemma OwnStays(w: World, p: string, pc: PC, effect: Effect, next: PC, q: string)
    requires MayStep(w, p, pc, effect, next) && q in w.procs && q != p && Own(w.procs[q]).Some?
    ensures OwnInv(After(w, p, effect, next), q, Own(w.procs[q]).value)
  {
    var l := Own(w.procs[q]).value;
    assert ProcInv(w, p, pc) && ProcInv(w, q, w.procs[q]);
    assert OwnedBySome(w, l);
  }

  // ---------------------------------------------------------------- the process that moves

  /** How the next program point relates to the one before: its target was just read or is
      still the same, and what it takes for deleted was deleted. */
  ghost predicate Follows(sh: Shared, pc: PC, effect: Effect, next: PC) {
    && (Target(next).None?
        || (Target(next) == Target(pc) && !effect.Commit? && !effect.Clear?)
        || (effect.Nothing? && Undisturbed(sh, Target(next).value.0, Target(next).value.1)))
    && (forall l :: l in Gone(next) ==> l in Gone(pc) || (effect == DeleteSecret(l) && (l in Doomed(pc) || IsLegacy(l) || (pc.LogoutDrop? && l == SlotOf(pc.seen)))))
    && PointInv(sh, next)
  }

  lemma LoadFollows(sh: Shared, p: string, pc: PC, ch: Choice)
    requires PointersCommitted(sh) && PointInv(sh, pc)
    ensures var (effect, next) := NextLoad(sh, p, pc, ch); Follows(sh, pc, effect, next)
  {
  }

  lemma ClaimFollows(sh: Shared, p: string, pc: PC, ch: Choice)
    requires PointersCommitted(sh) && PointInv(sh, pc)
    ensures var (effect, next) := NextClaim(sh, p, pc, ch); Follows(sh, pc, effect, next)
  {
  }

  lemma StoreFollows(sh: Shared, p: string, pc: PC, ch: Choice)
    requires PointersCommitted(sh) && PointInv(sh, pc)
    ensures var (effect, next) := NextStore(sh, p, pc, ch); Follows(sh, pc, effect, next)
  {
  }

  lemma StoredFollows(sh: Shared, p: string, pc: PC, ch: Choice)
    requires PointersCommitted(sh) && PointInv(sh, pc)
    ensures var (effect, next) := NextStored(sh, p, pc, ch); Follows(sh, pc, effect, next)
  {
  }

  lemma InvalidateFollows(sh: Shared, p: string, pc: PC, ch: Choice)
    requires PointersCommitted(sh) && PointInv(sh, pc)
    ensures var (effect, next) := NextInvalidate(sh, p, pc, ch); Follows(sh, pc, effect, next)
  {
  }

  lemma LogoutFollows(sh: Shared, p: string, pc: PC, ch: Choice)
    requires PointersCommitted(sh) && PointInv(sh, pc)
    ensures var (effect, next) := NextLogout(sh, p, pc, ch); Follows(sh, pc, effect, next)
  {
  }

  lemma SweepFollows(sh: Shared, p: string, pc: PC, ch: Choice)
    requires PointersCommitted(sh) && PointInv(sh, pc) && pc.Sweeping?
    ensures var (effect, next) := NextSweep(sh, pc.e, pc.sweep, pc.after, ch); Follows(sh, pc, effect, next)
  {
  }

  lemma TargetKept(w: World, p: string, pc: PC, effect: Effect, next: PC)
    requires TargetInv(w.sh, p, pc) && Follows(w.sh, pc, effect, next)
    ensures TargetInv(Do(w.sh, p, effect), p, next)
  {
  }

  lemma OwnKept(w: World, p: string, pc: PC, effect: Effect, next: PC)
    requires MayStep(w, p, pc, effect, next) && Own(next).Some?
    ensures OwnInv(After(w, p, effect, next), p, Own(next).value)
  {
    var l := Own(next).value;
    assert ProcInv(w, p, pc);
    forall q | q in w.procs && q != p
      ensures Own(w.procs[q]) != Some(l)
    {
      assert ProcInv(w, q, w.procs[q]);
    }
  }

  lemma GoneKept(sh: Shared, p: string, pc: PC, effect: Effect, next: PC)
    requires Follows(sh, pc, effect, next) && PointInv(sh, pc) && (effect.SetSecret? ==> Fresh(sh, effect.l))
    requires forall f, l :: (f, l) in sh.committed ==> l in sh.used
    requires forall l :: l in Gone(pc) ==> Known(sh, l) && l !in sh.secrets
    requires forall l :: l in Doomed(pc) ==> Known(sh, l)
    ensures forall l :: l in Gone(next) ==> Known(Do(sh, p, effect), l) && l !in Do(sh, p, effect).secrets
  {
    forall l | l in Gone(next)
      ensures Known(Do(sh, p, effect), l) && l !in Do(sh, p, effect).secrets
    {
      assert pc.LogoutDrop? ==> SlotOf(pc.seen) in sh.used;
    }
  }

  lemma NextFollows(sh: Shared, p: string, pc: PC, ch: Choice)
    requires PointersCommitted(sh) && PointInv(sh, pc)
    ensures var (effect, next) := Next(sh, p, pc, ch); Follows(sh, pc, effect, next)
  {
    if pc.Sweeping? {
      SweepFollows(sh, p, pc, ch);
    } else if AtStore(pc) {
      StoreFollows(sh, p, pc, ch);
    } else if AtStored(pc) {
      StoredFollows(sh, p, pc, ch);
    } else if AtInvalidate(pc) {
      InvalidateFollows(sh, p, pc, ch);
    } else if AtLogout(pc) {
      LogoutFollows(sh, p, pc, ch);
    } else if AtLoad(pc) {
      LoadFollows(sh, p, pc, ch);
    } else {
      ClaimFollows(sh, p, pc, ch);
    }
  }

  /** Where a label a process may delete comes from. */
  predicate DoomOrigin(sh: Shared, p: string, pc: PC, effect: Effect, next: PC, l: string) {
    || l in Doomed(pc) || IsLegacy(l)
    || (pc.Sweeping? && exists r :: r in sh.view.retired && r.1 == l)
    || (Own(next).None? && Own(pc) == Some(l) && !Commits(sh, p, effect))
    || (Own(next).None? && effect.SetSecret? && effect.l == l)
    || (l != "" && Target(pc).Some? && l == SlotOf(Target(pc).value.1) && (Commits(sh, p, effect) || Clears(sh, p, effect)))
  }

  lemma DoomedByStoring(sh: Shared, p: string, pc: PC, ch: Choice, l: string)
    requires AtStore(pc) || AtStored(pc)
    requires l in Doomed(Next(sh, p, pc, ch).1)
    ensures var (effect, next) := Next(sh, p, pc, ch); DoomOrigin(sh, p, pc, effect, next, l)
  {
  }

  lemma DoomedByClearing(sh: Shared, p: string, pc: PC, ch: Choice, l: string)
    requires AtInvalidate(pc) || AtLogout(pc)
    requires l in Doomed(Next(sh, p, pc, ch).1)
    ensures var (effect, next) := Next(sh, p, pc, ch); DoomOrigin(sh, p, pc, effect, next, l)
  {
  }

  lemma WhereDoomedComesFrom(sh: Shared, p: string, pc: PC, ch: Choice, l: string)
    requires l in Doomed(Next(sh, p, pc, ch).1)
    ensures var (effect, next) := Next(sh, p, pc, ch); DoomOrigin(sh, p, pc, effect, next, l)
  {
    if AtStore(pc) || AtStored(pc) {
      DoomedByStoring(sh, p, pc, ch, l);
    } else if AtInvalidate(pc) || AtLogout(pc) {
      DoomedByClearing(sh, p, pc, ch, l);
    }
  }

  lemma DoomedKept(w: World, p: string, ch: Choice)
    requires Inv(w) && p in w.procs
    ensures var (effect, next) := Next(w.sh, p, w.procs[p], ch);
            forall l :: l in Doomed(next) ==> Condemned(After(w, p, effect, next), l)
  {
    var pc := w.procs[p];
    var (effect, next) := Next(w.sh, p, pc, ch);
    assert ProcInv(w, p, pc);
    NextIsLicensed(w, p, ch);
    forall l | l in Doomed(next)
      ensures Condemned(After(w, p, effect, next), l)
    {
      WhereDoomedComesFrom(w.sh, p, pc, ch, l);
      if IsLegacy(l) {
        LegacyIsCondemned(w, l);
      }
      if Condemned(w, l) {
        CondemnedStays(w, p, pc, effect, next, l);
      } else if Commits(w.sh, p, effect) || Clears(w.sh, p, effect) {
        ReplacedIsCondemned(w, p, pc, effect, next, l);
      } else {
        AbandonedIsCondemned(w, p, pc, effect, next, l);
      }
    }
  }

  /** A slot given up before it was committed can never become current. */
  lemma AbandonedIsCondemned(w: World, p: string, pc: PC, effect: Effect, next: PC, l: string)
    requires MayStep(w, p, pc, effect, next) && Own(next).None?
    requires !Commits(w.sh, p, effect) && !Clears(w.sh, p, effect)
    requires Own(pc) == Some(l) || (effect.SetSecret? && effect.l == l)
    ensures Condemned(After(w, p, effect, next), l)
  {
    var w' := After(w, p, effect, next);
    assert ProcInv(w, p, pc);
    forall q | q in w'.procs
      ensures Own(w'.procs[q]) != Some(l)
    {
      assert q != p ==> ProcInv(w, q, w.procs[q]);
    }
  }

  lemma RunKeepsInv(w: World, p: string, ch: Choice)
    requires Inv(w) && p in w.procs
    ensures Inv(Step(w, Run(p, ch)))
  {
    var pc := w.procs[p];
    var (effect, next) := Next(w.sh, p, pc, ch);
    var w' := After(w, p, effect, next);
    assert ProcInv(w, p, pc);
    NextIsLicensed(w, p, ch);
    NextFollows(w.sh, p, pc, ch);
    LicensedKeepsShared(w, p, pc, effect, next);
    LicensedKeepsRetired(w, p, pc, effect, next);
    DoomedKept(w, p, ch);
    TargetKept(w, p, pc, effect, next);
    GoneKept(w.sh, p, pc, effect, next);
    if Own(next).Some? {
      OwnKept(w, p, pc, effect, next);
    }
    assert ProcInv(w', p, next);
    forall q | q in w'.procs
      ensures ProcInv(w', q, w'.procs[q])
    {
      if q != p {
        LicensedKeepsOthers(w, p, pc, effect, next, q);
      }
    }
  }
}
