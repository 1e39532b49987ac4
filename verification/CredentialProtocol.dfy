/** The credential writers of internal/oauth (fence.go, refresh.go, token.go, register.go,
    authcode.go) as a step system.

    Any number of processes share one lease row, one fence table and one secret store. A
    process runs one transaction at a time (refreshMu): a refresh, an authorization, a
    registration or a logout. Every store transaction and every secret-store call is one
    step, every call may fail, and between two steps anything may happen: other processes
    run, leases expire, and a crash drops the state of a process. `Next` is the program of
    one process, `Do` what its call does to the shared state. */
module CredentialProtocol {
  import opened Prelude
  import opened Leases
  import opened CredentialFences
  import Runs

  const LEGACY_REFRESH := "oauth-refresh"
  const LEGACY_CLIENT := "oauth-client"

  predicate IsLegacy(l: string) {
    l == LEGACY_REFRESH || l == LEGACY_CLIENT
  }

  // ---------------------------------------------------------------- shared state

  /** One successful change of a fence pointer. */
  datatype Move = Move(fence: string, owner: string)

  datatype Shared = Shared(
    now: int,
    lease: Option<LeaseRow>,
    view: View,
    secrets: set<string>,           // labels present in the secret store
    // what follows is history, read by no program
    used: set<string>,              // slot labels ever generated
    committed: set<(string, string)>, // slots ever committed, with their fence
    moves: seq<Move>,               // every commit and clear, oldest first
    legacyDead: bool,               // a refresh commit or clear superseded the legacy grant
    logouts: bool)                  // a logout was started

  function Current(sh: Shared, fence: string): Option<FenceRow> {
    Lookup(sh.view.pointers, fence)
  }

  predicate IsCurrentOf(sh: Shared, fence: string, l: string) {
    fence in sh.view.pointers && sh.view.pointers[fence].slot == l
  }

  predicate IsCurrent(sh: Shared, l: string) {
    exists f :: f in sh.view.pointers && IsCurrentOf(sh, f, l)
  }

  predicate Fresh(sh: Shared, l: string) {
    l != "" && !IsLegacy(l) && l !in sh.used && l !in sh.secrets
  }

  // ---------------------------------------------------------------- one process

  datatype Kind = RefreshGrant | Authorize | Register | Logout

  /** What ReadCredentialFence returned, and how many moves there had been. */
  datatype Seen = Seen(pointer: Option<FenceRow>, at: nat)

  /** Who called loadFenced. */
  datatype Purpose = ToExchange | ToStore | ToReplace | ToInvalidate(register: bool)

  datatype AfterSweep = ThenCommit(seen: Seen, slot: string) | ThenClose

  /** Where retireFailedSlots stands. */
  datatype Sweep = Sweep(unlisted: seq<string>, todo: set<(string, string)>, deleted: Option<(string, string)>)

  /** A program point; the constructor names the call that comes next. */
  datatype PC =
    | Idle
    | ReadEpoch(kind: Kind)
    | Started(kind: Kind, e: int)
    // loadFenced
    | ReadPointer(e: int, purpose: Purpose)
    | ReadMarker(e: int, purpose: Purpose, seen: Seen)
    | ReadSecret(e: int, purpose: Purpose, seen: Seen)
    | Exchange(e: int, seen: Seen)
    // storeFenced and storeClient
    | WriteRefresh(e: int, seen: Seen)
    | WriteClient(e: int)
    | ReadClientPointer(e: int, slot: string)
    | Sweeping(e: int, sweep: Sweep, after: AfterSweep)
    | CommitFence(e: int, fence: string, seen: Seen, slot: string)
    | UnmarkStored(e: int, replaced: string)
    | DropLegacyStored(e: int, replaced: string)
    | DropReplaced(e: int, replaced: string)
    | ForgetReplaced(e: int, replaced: string)
    | DropLegacyClient(e: int)
    | ForgetLegacyClient(e: int)
    // rollbackRefreshSlot and rollbackClientSlot
    | RollBack(e: int, fence: string, slot: string)
    | RecordRollback(e: int, fence: string, slot: string)
    // invalidateCredential
    | MarkInvalid(e: int, register: bool, seen: Seen)
    | ClearInvalid(e: int, register: bool, seen: Seen)
    | DropInvalid(e: int, register: bool, slot: string)
    | ForgetInvalid(e: int, register: bool, slot: string)
    | DropLegacyInvalid(e: int, register: bool)
    | UnmarkInvalid(e: int, register: bool)
    // Logout
    | LogoutRead(e: int, fence: string)
    | LogoutDrop(e: int, fence: string, seen: Seen)
    | LogoutMark(e: int, seen: Seen)
    | LogoutClear(e: int, fence: string, seen: Seen)
    | LogoutDropLegacy(e: int, legacy: string)
    | LogoutUnmark(e: int)
    | Close(e: int)

  /** How the next call turns out. A failing secret write may still have been applied. */
  datatype Outcome = Succeeds | Fails | AppliedButFails | Rejected

  /** `newSlot` is the random label of a new slot, `item` the backlog entry a sweep takes next. */
  datatype Choice = Choice(outcome: Outcome, newSlot: string, item: (string, string))

  datatype Effect =
    | Nothing
    | SetSecret(l: string, stored: bool)
    | DeleteSecret(l: string)
    | Commit(c: FenceCommit, e: int)
    | Clear(fence: string, retiredSlot: string, e: int)
    | Mark
    | Unmark
    | RecordSlot(fence: string, l: string)
    | ForgetSlot(fence: string, l: string)
    | ReleaseRow

  function Do(sh: Shared, p: string, effect: Effect): Shared {
    match effect
    case Nothing => sh
    case SetSecret(l, stored) =>
      sh.(secrets := if stored then sh.secrets + {l} else sh.secrets, used := sh.used + {l})
    case DeleteSecret(l) => sh.(secrets := sh.secrets - {l})
    case Commit(c, e) =>
      if HeldInEpoch(sh.lease, p, e, sh.now) && Advances(sh.view, c) then
        sh.(view := Advanced(sh.view, c), committed := sh.committed + {(c.fence, c.slot)},
            moves := sh.moves + [Move(c.fence, p)], legacyDead := sh.legacyDead || c.fence == REFRESH_FENCE)
      else sh
    case Clear(fence, retiredSlot, e) =>
      if HeldInEpoch(sh.lease, p, e, sh.now) then
        sh.(view := Cleared(sh.view, fence, retiredSlot), moves := sh.moves + [Move(fence, p)],
            legacyDead := sh.legacyDead || fence == REFRESH_FENCE)
      else sh
    case Mark => sh.(view := sh.view.(invalidated := true))
    case Unmark => sh.(view := sh.view.(invalidated := false))
    case RecordSlot(fence, l) => sh.(view := sh.view.(retired := sh.view.retired + {(fence, l)}))
    case ForgetSlot(fence, l) => sh.(view := sh.view.(retired := sh.view.retired - {(fence, l)}))
    case ReleaseRow => sh.(lease := Released(sh.lease, p))
  }

  function SlotOf(seen: Seen): string {
    if seen.pointer.Some? then seen.pointer.value.slot else ""
  }

  /** The commit a writer sends: one past the generation it read, retiring the slot it read. */
  function CommitOf(fence: string, seen: Seen, slot: string): FenceCommit {
    FenceCommit(fence, if seen.pointer.Some? then seen.pointer.value.generation + 1 else 1, slot, SlotOf(seen),
                if fence == CLIENT_FENCE then [LEGACY_CLIENT] else [])
  }

  function NewSweep(): Sweep {
    Sweep([REFRESH_FENCE, CLIENT_FENCE], {}, None)
  }

  /** loadFenced returned: `found` tells whether it returned a credential. */
  function Loaded(e: int, purpose: Purpose, seen: Seen, found: bool): PC {
    match purpose
    case ToExchange => if found then Exchange(e, seen) else Close(e)
    case ToStore => WriteRefresh(e, seen)
    case ToReplace => if found then ReadPointer(e, ToInvalidate(true)) else WriteClient(e)
    case ToInvalidate(register) => MarkInvalid(e, register, seen)
  }

  /** invalidateCredential returned without error: a registration goes on to its record. */
  function Invalidated(e: int, register: bool): PC {
    if register then WriteClient(e) else Close(e)
  }

  function NextSweep(sh: Shared, e: int, s: Sweep, after: AfterSweep, ch: Choice): (Effect, PC) {
    if s.deleted.Some? then
      (if ch.outcome.Succeeds? then ForgetSlot(s.deleted.value.0, s.deleted.value.1) else Nothing,
       Sweeping(e, s.(deleted := None), after))
    else if s.todo != {} then
      if ch.item !in s.todo then (Nothing, Sweeping(e, s, after))
      else if ch.outcome.Succeeds? then
        (DeleteSecret(ch.item.1), Sweeping(e, s.(todo := s.todo - {ch.item}, deleted := Some(ch.item)), after))
      else (Nothing, Sweeping(e, s.(todo := s.todo - {ch.item}), after))
    else if s.unlisted != [] then
      (Nothing, Sweeping(e, s.(unlisted := s.unlisted[1..],
                               todo := if ch.outcome.Succeeds? then set r | r in sh.view.retired && r.0 == s.unlisted[0] else {}),
                         after))
    else
      (Nothing, match after
                case ThenCommit(seen, slot) => CommitFence(e, REFRESH_FENCE, seen, slot)
                case ThenClose => Close(e))
  }

  /** loadFenced. */
  function NextLoad(sh: Shared, p: string, pc: PC, ch: Choice): (Effect, PC) {
    var ok := ch.outcome.Succeeds?;
    match pc
    case ReadPointer(e, purpose) =>
      var seen := Seen(Current(sh, REFRESH_FENCE), |sh.moves|);
      (Nothing, if !ok then Close(e) else if seen.pointer.None? then ReadMarker(e, purpose, seen) else ReadSecret(e, purpose, seen))
    case ReadMarker(e, purpose, seen) =>
      (Nothing, if !ok then Close(e) else if sh.view.invalidated then Loaded(e, purpose, seen, false) else ReadSecret(e, purpose, seen))
    case ReadSecret(e, purpose, seen) =>
      (Nothing, if !ok then Close(e)
                else if seen.pointer.None? then Loaded(e, purpose, seen, LEGACY_REFRESH in sh.secrets)
                else if SlotOf(seen) in sh.secrets then Loaded(e, purpose, seen, true)
                else Close(e))
    case _ => (Nothing, pc)
  }

  /** claimRefreshLease after its claim, and the exchange. */
  function NextClaim(sh: Shared, p: string, pc: PC, ch: Choice): (Effect, PC) {
    var ok := ch.outcome.Succeeds?;
    match pc
    case ReadEpoch(kind) =>
      (Nothing, if ok && Held(sh.lease, p, sh.now) then Started(kind, sh.lease.value.generation) else Idle)
    case Started(kind, e) =>
      (Nothing, if !ok then Close(e)
                else match kind
                     case RefreshGrant => ReadPointer(e, ToExchange)
                     case Authorize => if HeldInEpoch(sh.lease, p, e, sh.now) then ReadPointer(e, ToStore) else Close(e)
                     case Register => ReadPointer(e, ToReplace)
                     case Logout => LogoutRead(e, REFRESH_FENCE))
    case Exchange(e, seen) =>
      (Nothing, if ch.outcome.Rejected? then ReadPointer(e, ToInvalidate(false))
                else if ok && HeldInEpoch(sh.lease, p, e, sh.now) then WriteRefresh(e, seen)
                else Close(e))
    case _ => (Nothing, pc)
  }

  /** storeFenced and storeClient up to the decision, and their rollbacks. */
  function NextStore(sh: Shared, p: string, pc: PC, ch: Choice): (Effect, PC) {
    var ok := ch.outcome.Succeeds?;
    match pc
    case WriteRefresh(e, seen) =>
      if !Fresh(sh, ch.newSlot) then (Nothing, pc)
      else (SetSecret(ch.newSlot, ok || ch.outcome.AppliedButFails?),
            if ok then Sweeping(e, NewSweep(), ThenCommit(seen, ch.newSlot)) else RollBack(e, REFRESH_FENCE, ch.newSlot))
    case WriteClient(e) =>
      if !Fresh(sh, ch.newSlot) then (Nothing, pc)
      else (SetSecret(ch.newSlot, ok || ch.outcome.AppliedButFails?),
            if ok then ReadClientPointer(e, ch.newSlot) else RollBack(e, CLIENT_FENCE, ch.newSlot))
    case ReadClientPointer(e, slot) =>
      (Nothing, if ok then CommitFence(e, CLIENT_FENCE, Seen(Current(sh, CLIENT_FENCE), |sh.moves|), slot)
                else RollBack(e, CLIENT_FENCE, slot))
    case CommitFence(e, fence, seen, slot) =>
      var c := CommitOf(fence, seen, slot);
      if !ok then (Nothing, RollBack(e, fence, slot))
      else (Commit(c, e),
            if !(HeldInEpoch(sh.lease, p, e, sh.now) && Advances(sh.view, c)) then RollBack(e, fence, slot)
            else if fence == REFRESH_FENCE then UnmarkStored(e, SlotOf(seen))
            else DropLegacyClient(e))
    case RollBack(e, fence, slot) => if ok then (DeleteSecret(slot), Close(e)) else (Nothing, RecordRollback(e, fence, slot))
    case RecordRollback(e, fence, slot) => (if ok then RecordSlot(fence, slot) else Nothing, Close(e))
    case _ => (Nothing, pc)
  }

  /** The cleanup after a durable commit. */
  function NextStored(sh: Shared, p: string, pc: PC, ch: Choice): (Effect, PC) {
    var ok := ch.outcome.Succeeds?;
    match pc
    case UnmarkStored(e, replaced) => (if ok then Unmark else Nothing, DropLegacyStored(e, replaced))
    case DropLegacyStored(e, replaced) =>
      (if ok then DeleteSecret(LEGACY_REFRESH) else Nothing, if replaced == "" then Close(e) else DropReplaced(e, replaced))
    case DropReplaced(e, replaced) => if ok then (DeleteSecret(replaced), ForgetReplaced(e, replaced)) else (Nothing, Close(e))
    case ForgetReplaced(e, replaced) => (if ok then ForgetSlot(REFRESH_FENCE, replaced) else Nothing, Close(e))
    case DropLegacyClient(e) => if ok then (DeleteSecret(LEGACY_CLIENT), ForgetLegacyClient(e)) else (Nothing, Close(e))
    case ForgetLegacyClient(e) => (if ok then ForgetSlot(CLIENT_FENCE, LEGACY_CLIENT) else Nothing, Close(e))
    case _ => (Nothing, pc)
  }

  /** invalidateCredential. */
  function NextInvalidate(sh: Shared, p: string, pc: PC, ch: Choice): (Effect, PC) {
    var ok := ch.outcome.Succeeds?;
    match pc
    case MarkInvalid(e, register, seen) => if ok then (Mark, ClearInvalid(e, register, seen)) else (Nothing, Close(e))
    case ClearInvalid(e, register, seen) =>
      if !ok then (Nothing, Close(e))
      else (Clear(REFRESH_FENCE, SlotOf(seen), e),
            if !HeldInEpoch(sh.lease, p, e, sh.now) then Close(e)
            else if SlotOf(seen) == "" then DropLegacyInvalid(e, register)
            else DropInvalid(e, register, SlotOf(seen)))
    case DropInvalid(e, register, slot) =>
      if ok then (DeleteSecret(slot), ForgetInvalid(e, register, slot)) else (Nothing, Invalidated(e, register))
    case ForgetInvalid(e, register, slot) =>
      if ok then (ForgetSlot(REFRESH_FENCE, slot), DropLegacyInvalid(e, register)) else (Nothing, Close(e))
    case DropLegacyInvalid(e, register) =>
      if ok then (DeleteSecret(LEGACY_REFRESH), UnmarkInvalid(e, register)) else (Nothing, Invalidated(e, register))
    case UnmarkInvalid(e, register) => if ok then (Unmark, Invalidated(e, register)) else (Nothing, Close(e))
    case _ => (Nothing, pc)
  }

  /** Logout, and the deferred release that ends every transaction. */
  function NextLogout(sh: Shared, p: string, pc: PC, ch: Choice): (Effect, PC) {
    var ok := ch.outcome.Succeeds?;
    match pc
    case LogoutRead(e, fence) =>
      var seen := Seen(Current(sh, fence), |sh.moves|);
      (Nothing, if !ok then Close(e)
                else if seen.pointer.Some? && SlotOf(seen) != "" then LogoutDrop(e, fence, seen)
                else if fence == REFRESH_FENCE then LogoutMark(e, seen)
                else LogoutClear(e, fence, seen))
    case LogoutDrop(e, fence, seen) =>
      if !ok then (Nothing, Close(e))
      else (DeleteSecret(SlotOf(seen)), if fence == REFRESH_FENCE then LogoutMark(e, seen) else LogoutClear(e, fence, seen))
    case LogoutMark(e, seen) => if ok then (Mark, LogoutClear(e, REFRESH_FENCE, seen)) else (Nothing, Close(e))
    case LogoutClear(e, fence, seen) =>
      if !ok then (Nothing, Close(e))
      else (Clear(fence, "", e),
            if !HeldInEpoch(sh.lease, p, e, sh.now) then Close(e)
            else if fence == REFRESH_FENCE then LogoutRead(e, CLIENT_FENCE)
            else LogoutDropLegacy(e, LEGACY_CLIENT))
    case LogoutDropLegacy(e, legacy) =>
      if !ok then (Nothing, Close(e))
      else (DeleteSecret(legacy), if legacy == LEGACY_CLIENT then LogoutDropLegacy(e, LEGACY_REFRESH) else LogoutUnmark(e))
    case LogoutUnmark(e) => (if ok then Unmark else Nothing, Sweeping(e, NewSweep(), ThenClose))
    case Close(e) => (if ok then ReleaseRow else Nothing, Idle)
    case _ => (Nothing, pc)
  }

  predicate AtLoad(pc: PC) {
    pc.ReadPointer? || pc.ReadMarker? || pc.ReadSecret?
  }

  predicate AtStore(pc: PC) {
    pc.WriteRefresh? || pc.WriteClient? || pc.ReadClientPointer? || pc.CommitFence? || pc.RollBack? || pc.RecordRollback?
  }

  predicate AtStored(pc: PC) {
    pc.UnmarkStored? || pc.DropLegacyStored? || pc.DropReplaced? || pc.ForgetReplaced? || pc.DropLegacyClient? || pc.ForgetLegacyClient?
  }

  predicate AtInvalidate(pc: PC) {
    pc.MarkInvalid? || pc.ClearInvalid? || pc.DropInvalid? || pc.ForgetInvalid? || pc.DropLegacyInvalid? || pc.UnmarkInvalid?
  }

  predicate AtLogout(pc: PC) {
    pc.LogoutRead? || pc.LogoutDrop? || pc.LogoutMark? || pc.LogoutClear? || pc.LogoutDropLegacy? || pc.LogoutUnmark? || pc.Close?
  }

  /** The call a process makes at its program point and where it goes then. */
  function Next(sh: Shared, p: string, pc: PC, ch: Choice): (Effect, PC) {
    if pc.Sweeping? then NextSweep(sh, pc.e, pc.sweep, pc.after, ch)
    else if AtStore(pc) then NextStore(sh, p, pc, ch)
    else if AtStored(pc) then NextStored(sh, p, pc, ch)
    else if AtInvalidate(pc) then NextInvalidate(sh, p, pc, ch)
    else if AtLogout(pc) then NextLogout(sh, p, pc, ch)
    else if AtLoad(pc) then NextLoad(sh, p, pc, ch)
    else NextClaim(sh, p, pc, ch)
  }

  // ---------------------------------------------------------------- the system

  datatype World = World(sh: Shared, procs: map<string, PC>)

  function At(w: World, p: string): PC {
    if p in w.procs then w.procs[p] else Idle
  }

  /** Begin claims the lease; `delay` passes between the two clock readings of ClaimLease.
      Renew is the renewal loop, which may run at any point of a transaction. */
  datatype Action =
    | Tick(elapsed: nat)
    | Begin(p: string, kind: Kind, expiresAt: int, delay: nat)
    | Renew(p: string, expiresAt: int)
    | Run(p: string, choice: Choice)
    | Crash(p: string)

  function After(w: World, p: string, effect: Effect, pc: PC): World {
    World(Do(w.sh, p, effect), w.procs[p := pc])
  }

  function Step(w: World, a: Action): World {
    match a
    case Tick(elapsed) => w.(sh := w.sh.(now := w.sh.now + elapsed))
    case Begin(p, kind, expiresAt, delay) =>
      if p == "" || !At(w, p).Idle? then w
      else
        var sh := w.sh.(lease := Claimed(w.sh.lease, p, w.sh.now, expiresAt), now := w.sh.now + delay,
                        logouts := w.sh.logouts || kind.Logout?);
        var claimed := ClaimApplies(w.sh.lease, p, w.sh.now) && sh.now < expiresAt;
        World(sh, w.procs[p := if claimed then ReadEpoch(kind) else Idle])
    case Renew(p, expiresAt) =>
      if At(w, p).Idle? then w else w.(sh := w.sh.(lease := Renewed(w.sh.lease, p, w.sh.now, expiresAt)))
    case Run(p, choice) =>
      var (effect, pc) := Next(w.sh, p, At(w, p), choice);
      After(w, p, effect, pc)
    case Crash(p) => w.(procs := w.procs[p := Idle])
  }

  function Exec(w: World, actions: seq<Action>): World {
    Runs.After(Step, w, actions)
  }

  /** A profile with no fence yet; a legacy credential and client record may be there. */
  predicate Initial(w: World) {
    && w.procs == map[]
    && w.sh.lease.None?
    && w.sh.view == View(map[], {}, false)
    && (forall l :: l in w.sh.secrets ==> IsLegacy(l))
    && w.sh.used == {} && w.sh.committed == {} && w.sh.moves == []
    && !w.sh.legacyDead && !w.sh.logouts
  }
}
