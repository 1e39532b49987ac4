/** Named leases with ownership epochs (internal/store/lease.go).

    The functions on one row say what each statement does to it; the class keeps the
    table and runs them. The lemmas are about any series of operations on one row. */
module Leases {
  import opened Prelude

  /** One row of the leases table. Deadlines are whole milliseconds. */
  datatype LeaseRow = LeaseRow(owner: string, expiresAt: int, generation: int)

  const NANOS_PER_MILLI := 1_000_000

  // ---------------------------------------------------------------- deadlines

  /** time.Time.UnixMilli: whole milliseconds, rounded down. */
  function UnixMilli(nanos: int): int {
    nanos / NANOS_PER_MILLI
  }

  /** leaseDeadlineMilliseconds: now + ttl as milliseconds, never early. */
  function DeadlineMilliseconds(now: int, ttl: int): int {
    var milliseconds := UnixMilli(now + ttl);
    if milliseconds * NANOS_PER_MILLI < now + ttl then milliseconds + 1 else milliseconds
  }

  /** The deadline is the first millisecond instant that is not before now + ttl, and with
      a valid TTL it lies after the millisecond the claim is compared at, so a fresh claim
      is live. */
  lemma DeadlineIsTheFirstInstantNotEarly(now: int, ttl: int)
    ensures var d := DeadlineMilliseconds(now, ttl);
            && now + ttl <= d * NANOS_PER_MILLI
            && (forall m: int :: now + ttl <= m * NANOS_PER_MILLI ==> d <= m)
            && (ttl >= NANOS_PER_MILLI ==> UnixMilli(now) < d)
  {
    var d := DeadlineMilliseconds(now, ttl);
    forall m: int | now + ttl <= m * NANOS_PER_MILLI
      ensures d <= m
    {
      assert (d - 1) * NANOS_PER_MILLI < now + ttl;
    }
  }

  // ---------------------------------------------------------------- one row

  /** The row names this owner, whether or not its deadline has passed. */
  predicate Owns(row: Option<LeaseRow>, owner: string) {
    row.Some? && row.value.owner == owner
  }

  predicate Held(row: Option<LeaseRow>, owner: string, nowMs: int) {
    Owns(row, owner) && nowMs < row.value.expiresAt
  }

  predicate HeldInEpoch(row: Option<LeaseRow>, owner: string, generation: int, nowMs: int) {
    Held(row, owner, nowMs) && row.value.generation == generation
  }

  predicate ClaimApplies(row: Option<LeaseRow>, owner: string, nowMs: int) {
    row.None? || row.value.expiresAt <= nowMs || row.value.owner == owner
  }

  /** The upsert of ClaimLease. */
  function Claimed(row: Option<LeaseRow>, owner: string, nowMs: int, expiresAt: int): Option<LeaseRow> {
    if !ClaimApplies(row, owner, nowMs) then row
    else if row.None? then Some(LeaseRow(owner, expiresAt, 1))
    else Some(LeaseRow(owner, expiresAt,
                       if row.value.owner == owner then row.value.generation else row.value.generation + 1))
  }

  function Renewed(row: Option<LeaseRow>, owner: string, nowMs: int, expiresAt: int): Option<LeaseRow> {
    if Held(row, owner, nowMs) then Some(row.value.(expiresAt := expiresAt)) else row
  }

  function Released(row: Option<LeaseRow>, owner: string): Option<LeaseRow> {
    if Owns(row, owner) then None else row
  }

  // ---------------------------------------------------------------- the table

  predicate ValidRequest(name: string, owner: string, ttl: int) {
    name != "" && owner != "" && ttl >= NANOS_PER_MILLI
  }

  class LeaseTable {
    var rows: map<string, LeaseRow>

    constructor ()
      ensures rows == map[]
    {
      rows := map[];
    }

    /** `now` and `later` are the two readings of the store clock, `later` after the write. */
    method ClaimLease(name: string, owner: string, ttl: int, now: int, later: int)
      returns (claimed: Option<bool>)
      requires now <= later
      modifies this
      ensures claimed.Some? <==> ValidRequest(name, owner, ttl)
      ensures claimed.None? ==> rows == old(rows)
      ensures claimed.Some? ==>
        var before := Lookup(old(rows), name);
        var deadline := DeadlineMilliseconds(now, ttl);
        && rows == Put(old(rows), name, Claimed(before, owner, UnixMilli(now), deadline))
        && (claimed.value <==> ClaimApplies(before, owner, UnixMilli(now)) && UnixMilli(later) < deadline)
        && (claimed.value ==> Held(Lookup(rows, name), owner, UnixMilli(later)) && rows[name].expiresAt == deadline)
        && (claimed.value ==> rows[name].generation == if before.None? then 1
                                                       else if before.value.owner == owner then before.value.generation
                                                       else before.value.generation + 1)
        && (before.Some? && before.value.owner != owner && UnixMilli(now) < before.value.expiresAt ==> rows == old(rows))
    {
      if !ValidRequest(name, owner, ttl) {
        return None;
      }
      var nowMs := UnixMilli(now);
      var expiresAt := DeadlineMilliseconds(now, ttl);
      var affected := 0;
      if name !in rows {
        rows := rows[name := LeaseRow(owner, expiresAt, 1)];
        affected := 1;
      } else if rows[name].expiresAt <= nowMs || rows[name].owner == owner {
        var generation := rows[name].generation;
        if rows[name].owner != owner {
          generation := generation + 1;
        }
        rows := rows[name := LeaseRow(owner, expiresAt, generation)];
        affected := 1;
      }
      return Some(affected == 1 && UnixMilli(later) < expiresAt);
    }

    method RenewLease(name: string, owner: string, ttl: int, now: int, later: int)
      returns (renewed: Option<bool>)
      requires now <= later
      modifies this
      ensures renewed.Some? <==> ValidRequest(name, owner, ttl)
      ensures renewed.None? ==> rows == old(rows)
      ensures renewed.Some? ==>
        var before := Lookup(old(rows), name);
        var deadline := DeadlineMilliseconds(now, ttl);
        && rows == Put(old(rows), name, Renewed(before, owner, UnixMilli(now), deadline))
        && (renewed.value <==> Held(before, owner, UnixMilli(now)) && UnixMilli(later) < deadline)
        && (renewed.value ==> Held(Lookup(rows, name), owner, UnixMilli(later)) && rows[name].expiresAt == deadline
                              && rows[name].generation == old(rows)[name].generation)
        && (!Held(before, owner, UnixMilli(now)) ==> rows == old(rows))
    {
      if !ValidRequest(name, owner, ttl) {
        return None;
      }
      var expiresAt := DeadlineMilliseconds(now, ttl);
      var affected := 0;
      if name in rows && rows[name].owner == owner && rows[name].expiresAt > UnixMilli(now) {
        rows := rows[name := rows[name].(expiresAt := expiresAt)];
        affected := 1;
      }
      return Some(affected == 1 && UnixMilli(later) < expiresAt);
    }

    /** The epoch `owner` holds now; None when it holds none. */
    method LeaseGeneration(name: string, owner: string, now: int) returns (generation: Option<int>)
      ensures forall g :: generation == Some(g) <==>
        HeldInEpoch(Lookup(rows, name), owner, g, UnixMilli(now)) && name != "" && owner != ""
    {
      if name != "" && owner != "" && name in rows && rows[name].owner == owner
         && rows[name].expiresAt > UnixMilli(now) {
        return Some(rows[name].generation);
      }
      return None;
    }

    /** The gate before an out-of-store write: it changes nothing. */
    method CommitLease(name: string, owner: string, generation: int, now: int) returns (held: bool)
      ensures held <==> HeldInEpoch(Lookup(rows, name), owner, generation, UnixMilli(now)) && name != "" && owner != ""
    {
      held := name != "" && owner != "" && name in rows && rows[name].owner == owner
              && rows[name].generation == generation && rows[name].expiresAt > UnixMilli(now);
    }

    method ReleaseLease(name: string, owner: string)
      modifies this
      ensures rows == Put(old(rows), name, Released(Lookup(old(rows), name), owner))
      ensures rows == if Owns(Lookup(old(rows), name), owner) then old(rows) - {name} else old(rows)
    {
      if name in rows && rows[name].owner == owner {
        rows := rows - {name};
      }
    }
  }

  // ---------------------------------------------------------------- any series of operations

  datatype LeaseOp =
    | Claim(owner: string, nowMs: int, expiresAt: int)
    | Renew(owner: string, nowMs: int, expiresAt: int)
    | Release(owner: string)

  function ApplyOp(row: Option<LeaseRow>, op: LeaseOp): Option<LeaseRow> {
    match op
    case Claim(owner, nowMs, expiresAt) => Claimed(row, owner, nowMs, expiresAt)
    case Renew(owner, nowMs, expiresAt) => Renewed(row, owner, nowMs, expiresAt)
    case Release(owner) => Released(row, owner)
  }

  function ApplyAll(row: Option<LeaseRow>, ops: seq<LeaseOp>): Option<LeaseRow>
    decreases ops
  {
    if ops == [] then row else ApplyAll(ApplyOp(row, ops[0]), ops[1..])
  }

  /** The row is there before every operation of the series and after it. */
  predicate NeverDeleted(row: Option<LeaseRow>, ops: seq<LeaseOp>)
    decreases ops
  {
    row.Some? && (ops == [] || NeverDeleted(ApplyOp(row, ops[0]), ops[1..]))
  }

  /** How often the series hands the row to a different owner. */
  function OwnerChanges(row: Option<LeaseRow>, ops: seq<LeaseOp>): nat
    requires NeverDeleted(row, ops)
    decreases ops
  {
    if ops == [] then 0
    else
      var next := ApplyOp(row, ops[0]);
      assert NeverDeleted(next, ops[1..]);
      (if next.value.owner == row.value.owner then 0 else 1) + OwnerChanges(next, ops[1..])
  }

  /** While the row is not deleted its generation counts the changes of owner, so an equal
      generation means that the owner never changed on the way. */
  lemma {:induction false} GenerationCountsOwnerChanges(row: Option<LeaseRow>, ops: seq<LeaseOp>)
    requires NeverDeleted(row, ops)
    ensures ApplyAll(row, ops).Some?
    ensures ApplyAll(row, ops).value.generation == row.value.generation + OwnerChanges(row, ops)
    ensures ApplyAll(row, ops).value.generation == row.value.generation ==>
      forall i :: 0 <= i <= |ops| ==> ApplyAll(row, ops[..i]).Some? && ApplyAll(row, ops[..i]).value.owner == row.value.owner
    decreases ops
  {
    if ops == [] {
    } else {
      var next := ApplyOp(row, ops[0]);
      GenerationCountsOwnerChanges(next, ops[1..]);
      if ApplyAll(row, ops).value.generation == row.value.generation {
        forall i | 0 < i <= |ops|
          ensures ApplyAll(row, ops[..i]).Some? && ApplyAll(row, ops[..i]).value.owner == row.value.owner
        {
          assert ops[..i][1..] == ops[1..][..i - 1];
        }
      }
    }
  }

  predicate NoClaimBy(owner: string, ops: seq<LeaseOp>) {
    forall i :: 0 <= i < |ops| ==> !(ops[i].Claim? && ops[i].owner == owner)
  }

  /** A row an owner lost stays lost until that owner claims again, deletions or not. */
  lemma {:induction false} LostStaysLost(row: Option<LeaseRow>, ops: seq<LeaseOp>, owner: string)
    requires row.None? || row.value.owner != owner
    requires NoClaimBy(owner, ops)
    ensures ApplyAll(row, ops).None? || ApplyAll(row, ops).value.owner != owner
    decreases ops
  {
    if ops == [] {
    } else {
      assert !(ops[0].Claim? && ops[0].owner == owner);
      LostStaysLost(ApplyOp(row, ops[0]), ops[1..], owner);
    }
  }

  /** CommitLease is a sound gate although deletions restart generations at 1: when the
      owner made no claim in between, finding its epoch again means it owned that epoch at
      every moment since. */
  lemma {:induction false} EpochFoundAgainWasNeverLost(row: Option<LeaseRow>, ops: seq<LeaseOp>, owner: string, i: nat)
    requires row.Some? && row.value.owner == owner
    requires NoClaimBy(owner, ops) && i <= |ops|
    requires ApplyAll(row, ops).Some? && ApplyAll(row, ops).value.owner == owner
    ensures ApplyAll(row, ops[..i]).Some?
    ensures ApplyAll(row, ops[..i]).value.owner == owner
    ensures ApplyAll(row, ops[..i]).value.generation == row.value.generation
    decreases ops
  {
    if i == 0 {
    } else {
      var next := ApplyOp(row, ops[0]);
      assert !(ops[0].Claim? && ops[0].owner == owner);
      if next.None? || next.value.owner != owner {
        LostStaysLost(next, ops[1..], owner);
      } else {
        EpochFoundAgainWasNeverLost(next, ops[1..], owner, i - 1);
        assert ops[..i][1..] == ops[1..][..i - 1];
      }
    }
  }

  /** Every other owner's claim of the series comes before the deadline then granted; the owner
      itself renews or claims as it likes and does not release. */
  predicate WithinGrants(row: Option<LeaseRow>, ops: seq<LeaseOp>, owner: string)
    decreases ops
  {
    ops == [] ||
    (&& Owns(row, owner)
     && (if ops[0].owner == owner then !ops[0].Release?
         else ops[0].Claim? ==> ops[0].nowMs < row.value.expiresAt)
     && WithinGrants(ApplyOp(row, ops[0]), ops[1..], owner))
  }

  function OwnOps(ops: seq<LeaseOp>, owner: string): seq<LeaseOp> {
    if ops == [] then []
    else (if ops[0].owner == owner then [ops[0]] else []) + OwnOps(ops[1..], owner)
  }

  /** Ownership intervals of different owners never overlap: as long as each deadline is
      extended in time, the row stays in the owner's epoch with the deadline last granted to
      it, as if the others had not tried at all. */
  lemma {:induction false} GrantStandsUntilItsDeadline(row: Option<LeaseRow>, ops: seq<LeaseOp>, owner: string)
    requires Owns(row, owner) && WithinGrants(row, ops, owner)
    ensures ApplyAll(row, ops) == ApplyAll(row, OwnOps(ops, owner))
    ensures Owns(ApplyAll(row, ops), owner) && ApplyAll(row, ops).value.generation == row.value.generation
    decreases ops
  {
    if ops == [] {
    } else {
      var next := ApplyOp(row, ops[0]);
      GrantStandsUntilItsDeadline(next, ops[1..], owner);
      if ops[0].owner == owner {
        var own := OwnOps(ops, owner);
        assert own[0] == ops[0] && own[1..] == OwnOps(ops[1..], owner);
      } else {
        assert next == row;
        assert OwnOps(ops, owner) == OwnOps(ops[1..], owner);
      }
    }
  }

  lemma {:induction false} OthersAreWithinGrants(row: LeaseRow, ops: seq<LeaseOp>)
    requires forall i :: 0 <= i < |ops| ==> ops[i].owner != row.owner && (ops[i].Claim? ==> ops[i].nowMs < row.expiresAt)
    ensures WithinGrants(Some(row), ops, row.owner) && OwnOps(ops, row.owner) == []
    decreases ops
  {
    if ops == [] {
    } else {
      assert ApplyOp(Some(row), ops[0]) == Some(row);
      OthersAreWithinGrants(row, ops[1..]);
    }
  }

  /** A successful claim or renewal puts its own deadline into the row, and until that deadline
      whatever other owners try leaves the row as it was granted. */
  lemma GrantsAreGood(row: Option<LeaseRow>, owner: string, nowMs: int, expiresAt: int, others: seq<LeaseOp>)
    requires forall i :: 0 <= i < |others| ==> others[i].owner != owner && (others[i].Claim? ==> others[i].nowMs < expiresAt)
    ensures Held(row, owner, nowMs) ==>
      ApplyAll(Renewed(row, owner, nowMs, expiresAt), others) == Some(LeaseRow(owner, expiresAt, row.value.generation))
    ensures ClaimApplies(row, owner, nowMs) ==>
      var after := ApplyAll(Claimed(row, owner, nowMs, expiresAt), others);
      after.Some? && after.value.owner == owner && after.value.expiresAt == expiresAt
  {
    if Held(row, owner, nowMs) {
      var renewed := Renewed(row, owner, nowMs, expiresAt);
      OthersAreWithinGrants(renewed.value, others);
      GrantStandsUntilItsDeadline(renewed, others, owner);
    }
    if ClaimApplies(row, owner, nowMs) {
      var claimed := Claimed(row, owner, nowMs, expiresAt);
      OthersAreWithinGrants(claimed.value, others);
      GrantStandsUntilItsDeadline(claimed, others, owner);
    }
  }
}
