/** The credential_fence table (internal/store/fence.go): fence pointers, the retirement
    backlog and the invalidation marker, three kinds of row that share one name column.

    `View` is what the rows mean. Every method of `FenceTable` works on the rows and is
    proved to act on the view as its specification function says; the credential protocol
    is then stated on views. */
module CredentialFences {
  import opened Prelude
  import opened Leases

  const REFRESH_FENCE := "oauth-refresh"
  const CLIENT_FENCE := "oauth-client"
  const RETIRED_INFIX := "-retired:"
  const INVALIDATED := "oauth-refresh-invalidated"

  predicate IsFence(name: string) {
    name == REFRESH_FENCE || name == CLIENT_FENCE
  }

  function RetiredName(fence: string, slot: string): string {
    fence + RETIRED_INFIX + slot
  }

  datatype FenceRow = FenceRow(generation: int, slot: string)

  // ---------------------------------------------------------------- what the rows mean

  datatype View = View(pointers: map<string, FenceRow>, retired: set<(string, string)>, invalidated: bool)

  /** One fence advancement; `previousSlot` is empty when there is none. */
  datatype FenceCommit = FenceCommit(fence: string, generation: int, slot: string,
                                     previousSlot: string, retiredLabels: seq<string>)

  /** The compare half of the compare-and-swap. */
  predicate Advances(v: View, c: FenceCommit) {
    c.fence !in v.pointers || v.pointers[c.fence].generation < c.generation
  }

  function PreviousRecord(fence: string, slot: string): set<(string, string)> {
    if slot == "" then {} else {(fence, slot)}
  }

  predicate RetiresLabel(c: FenceCommit, l: string) {
    l != "" && l != c.previousSlot && l != c.slot
  }

  function LabelRecords(c: FenceCommit, labels: seq<string>): set<(string, string)> {
    set l | l in labels && RetiresLabel(c, l) :: (c.fence, l)
  }

  function RetiredBy(c: FenceCommit): set<(string, string)> {
    PreviousRecord(c.fence, c.previousSlot) + LabelRecords(c, c.retiredLabels)
  }

  function Advanced(v: View, c: FenceCommit): View {
    v.(pointers := v.pointers[c.fence := FenceRow(c.generation, c.slot)], retired := v.retired + RetiredBy(c))
  }

  function Cleared(v: View, fence: string, retiredSlot: string): View {
    v.(pointers := v.pointers - {fence}, retired := v.retired + PreviousRecord(fence, retiredSlot))
  }

  // ---------------------------------------------------------------- rows against view

  ghost predicate Represents(rows: map<string, FenceRow>, v: View) {
    && (forall f :: f in v.pointers ==> IsFence(f))
    && (forall f :: IsFence(f) ==> Lookup(rows, f) == Lookup(v.pointers, f))
    && (forall f, s :: (f, s) in v.retired ==> IsFence(f) && RetiredName(f, s) in rows && rows[RetiredName(f, s)].slot == s)
    && (v.invalidated <==> INVALIDATED in rows)
    && (forall n :: n in rows ==> IsFence(n) || n == INVALIDATED || IsRecord(rows, v, n))
  }

  ghost predicate IsRecord(rows: map<string, FenceRow>, v: View, name: string) {
    exists f, s :: (f, s) in v.retired && name == RetiredName(f, s)
  }

  /** No name of one kind is a name of another, and a record's name tells its fence and slot. */
  lemma NamesNeverCollide(f: string, s: string, f': string, s': string)
    requires IsFence(f) && IsFence(f')
    ensures RetiredName(f, s) == RetiredName(f', s') ==> f == f' && s == s'
    ensures RetiredName(f, s) != INVALIDATED && !IsFence(RetiredName(f, s)) && !IsFence(INVALIDATED)
    ensures RetiredName(f, "") <= RetiredName(f', s') ==> f == f'
  {
    var n, n' := RetiredName(f, s), RetiredName(f', s');
    assert n[6] == f[6] && n'[6] == f'[6] && RetiredName(f, "")[6] == f[6];
    assert f == REFRESH_FENCE ==> n[14] == 'r';
    assert n[|f| + |RETIRED_INFIX|..] == s;
    assert n'[|f'| + |RETIRED_INFIX|..] == s';
  }

  lemma RecordNamesAreDistinct()
    ensures forall f, s, f', s' :: IsFence(f) && IsFence(f') && RetiredName(f, s) == RetiredName(f', s') ==> f == f' && s == s'
    ensures forall f, s :: IsFence(f) ==> RetiredName(f, s) != INVALIDATED && !IsFence(RetiredName(f, s))
    ensures !IsFence(INVALIDATED)
  {
    forall f, s, f', s' | IsFence(f) && IsFence(f') && RetiredName(f, s) == RetiredName(f', s')
      ensures f == f' && s == s'
    {
      NamesNeverCollide(f, s, f', s');
    }
    forall f, s | IsFence(f)
      ensures RetiredName(f, s) != INVALIDATED && !IsFence(RetiredName(f, s))
    {
      NamesNeverCollide(f, s, f, s);
    }
    NamesNeverCollide(REFRESH_FENCE, "", REFRESH_FENCE, "");
  }

  lemma AddingARecord(rows: map<string, FenceRow>, v: View, fence: string, slot: string, generation: int)
    requires Represents(rows, v) && IsFence(fence)
    ensures Represents(rows[RetiredName(fence, slot) := FenceRow(generation, slot)], v.(retired := v.retired + {(fence, slot)}))
  {
    RecordNamesAreDistinct();
    var rows', v' := rows[RetiredName(fence, slot) := FenceRow(generation, slot)], v.(retired := v.retired + {(fence, slot)});
    forall n | n in rows'
      ensures IsFence(n) || n == INVALIDATED || IsRecord(rows', v', n)
    {
      if n == RetiredName(fence, slot) {
        assert (fence, slot) in v'.retired;
      } else if IsRecord(rows, v, n) {
        var f, s :| (f, s) in v.retired && n == RetiredName(f, s);
        assert (f, s) in v'.retired;
      }
    }
  }

  lemma RemovingARecord(rows: map<string, FenceRow>, v: View, fence: string, slot: string)
    requires Represents(rows, v) && IsFence(fence)
    ensures Represents(rows - {RetiredName(fence, slot)}, v.(retired := v.retired - {(fence, slot)}))
  {
    RecordNamesAreDistinct();
    var rows', v' := rows - {RetiredName(fence, slot)}, v.(retired := v.retired - {(fence, slot)});
    forall n | n in rows'
      ensures IsFence(n) || n == INVALIDATED || IsRecord(rows', v', n)
    {
      if IsRecord(rows, v, n) {
        var f, s :| (f, s) in v.retired && n == RetiredName(f, s);
        assert (f, s) in v'.retired;
      }
    }
  }

  /** A write to a pointer or marker row leaves every record as it is. */
  lemma OtherRowsKeepRecords(rows: map<string, FenceRow>, v: View, rows': map<string, FenceRow>, v': View, name: string)
    requires Represents(rows, v) && v'.retired == v.retired
    requires IsFence(name) || name == INVALIDATED
    requires forall n :: n != name ==> Lookup(rows', n) == Lookup(rows, n)
    requires forall f :: IsFence(f) ==> Lookup(rows', f) == Lookup(v'.pointers, f)
    requires forall f :: f in v'.pointers ==> IsFence(f)
    requires v'.invalidated <==> INVALIDATED in rows'
    ensures Represents(rows', v')
  {
    RecordNamesAreDistinct();
    forall n | n in rows'
      ensures IsFence(n) || n == INVALIDATED || IsRecord(rows', v', n)
    {
      if n != name {
        assert Lookup(rows, n) == Lookup(rows', n);
        if IsRecord(rows, v, n) {
          var f, s :| (f, s) in v.retired && n == RetiredName(f, s);
          assert (f, s) in v'.retired;
        }
      }
    }
    forall f, s | (f, s) in v'.retired
      ensures IsFence(f) && RetiredName(f, s) in rows' && rows'[RetiredName(f, s)].slot == s
    {
      assert Lookup(rows', RetiredName(f, s)) == Lookup(rows, RetiredName(f, s));
    }
  }

  // ---------------------------------------------------------------- the table

  class FenceTable {
    var rows: map<string, FenceRow>
    ghost var view: View

    ghost predicate Valid()
      reads this
    {
      Represents(rows, view)
    }

    constructor ()
      ensures Valid() && view == View(map[], {}, false)
    {
      rows := map[];
      view := View(map[], {}, false);
    }

    method ReadCredentialFence(fence: string) returns (pointer: Option<FenceRow>)
      requires Valid() && IsFence(fence)
      ensures pointer == Lookup(view.pointers, fence)
    {
      assert Lookup(rows, fence) == Lookup(view.pointers, fence);
      pointer := Lookup(rows, fence);
    }

    /** `lease` is the lease row this transaction reads; None reports an invalid request. */
    method CommitCredentialFence(c: FenceCommit, lease: Option<LeaseRow>, owner: string, epoch: int, nowMs: int)
      returns (committed: Option<bool>)
      requires Valid() && IsFence(c.fence)
      modifies this
      ensures Valid()
      ensures committed.None? <==> c.generation <= 0 || c.slot == "" || owner == ""
      ensures committed.Some? ==>
        (committed.value <==> HeldInEpoch(lease, owner, epoch, nowMs) && Advances(old(view), c))
      ensures view == if committed == Some(true) then Advanced(old(view), c) else old(view)
    {
      if c.generation <= 0 || c.slot == "" || owner == "" {
        return None;
      }
      if !HeldInEpoch(lease, owner, epoch, nowMs) {
        return Some(false);
      }
      assert Lookup(rows, c.fence) == Lookup(view.pointers, c.fence);
      if c.fence in rows && rows[c.fence].generation >= c.generation {
        return Some(false);
      }
      WritePointer(c.fence, Some(FenceRow(c.generation, c.slot)));
      if c.previousSlot != "" {
        Record(c.fence, c.previousSlot);
      }
      RecordLabels(c);
      return Some(true);
    }

    /** Writes or deletes one pointer row. */
    method WritePointer(fence: string, pointer: Option<FenceRow>)
      requires Valid() && IsFence(fence)
      modifies this
      ensures Valid() && view == old(view).(pointers := Put(old(view).pointers, fence, pointer))
    {
      ghost var before, beforeRows := view, rows;
      rows := Put(rows, fence, pointer);
      view := view.(pointers := Put(view.pointers, fence, pointer));
      NamesNeverCollide(fence, "", fence, "");
      assert Lookup(rows, INVALIDATED) == Lookup(beforeRows, INVALIDATED);
      OtherRowsKeepRecords(beforeRows, before, rows, view, fence);
    }

    /** The loop over the extra labels a commit makes dead. */
    method RecordLabels(c: FenceCommit)
      requires Valid() && IsFence(c.fence)
      modifies this
      ensures Valid() && view == old(view).(retired := old(view).retired + LabelRecords(c, c.retiredLabels))
    {
      for i := 0 to |c.retiredLabels|
        invariant Valid()
        invariant view == old(view).(retired := old(view).retired + LabelRecords(c, c.retiredLabels[..i]))
      {
        var l := c.retiredLabels[i];
        assert c.retiredLabels[..i + 1] == c.retiredLabels[..i] + [l];
        if l == "" || l == c.previousSlot || l == c.slot {
          assert LabelRecords(c, c.retiredLabels[..i + 1]) == LabelRecords(c, c.retiredLabels[..i]);
          continue;
        }
        Record(c.fence, l);
        assert LabelRecords(c, c.retiredLabels[..i + 1]) == LabelRecords(c, c.retiredLabels[..i]) + {(c.fence, l)};
      }
      assert c.retiredLabels[..|c.retiredLabels|] == c.retiredLabels;
    }

    method ClearCredentialFence(fence: string, lease: Option<LeaseRow>, owner: string, epoch: int, nowMs: int, retiredSlot: string)
      returns (cleared: Option<bool>)
      requires Valid() && IsFence(fence)
      modifies this
      ensures Valid()
      ensures cleared.None? <==> owner == ""
      ensures cleared.Some? ==> (cleared.value <==> HeldInEpoch(lease, owner, epoch, nowMs))
      ensures view == if cleared == Some(true) then Cleared(old(view), fence, retiredSlot) else old(view)
    {
      if owner == "" {
        return None;
      }
      if !HeldInEpoch(lease, owner, epoch, nowMs) {
        return Some(false);
      }
      WritePointer(fence, None);
      if retiredSlot != "" {
        Record(fence, retiredSlot);
      }
      return Some(true);
    }

    method MarkRefreshCredentialInvalidated()
      requires Valid()
      modifies this
      ensures Valid() && view == old(view).(invalidated := true)
    {
      ghost var before, beforeRows := view, rows;
      rows := rows[INVALIDATED := FenceRow(if INVALIDATED in rows then rows[INVALIDATED].generation else 0, "")];
      view := view.(invalidated := true);
      OtherRowsKeepRecords(beforeRows, before, rows, view, INVALIDATED);
    }

    method ClearRefreshCredentialInvalidation()
      requires Valid()
      modifies this
      ensures Valid() && view == old(view).(invalidated := false)
    {
      ghost var before, beforeRows := view, rows;
      rows := rows - {INVALIDATED};
      view := view.(invalidated := false);
      OtherRowsKeepRecords(beforeRows, before, rows, view, INVALIDATED);
    }

    method RefreshCredentialInvalidated() returns (invalidated: bool)
      requires Valid()
      ensures invalidated <==> view.invalidated
    {
      invalidated := INVALIDATED in rows;
    }

    /** RecordRetiredCredentialSlot, also the insert inside the two transactions above. */
    method Record(fence: string, slot: string)
      requires Valid() && IsFence(fence)
      modifies this
      ensures Valid() && view == old(view).(retired := old(view).retired + {(fence, slot)})
    {
      var name := RetiredName(fence, slot);
      var generation := if name in rows then rows[name].generation else 0;
      AddingARecord(rows, view, fence, slot, generation);
      rows := rows[name := FenceRow(generation, slot)];
      view := view.(retired := view.retired + {(fence, slot)});
    }

    method ClearRetiredCredentialSlot(fence: string, slot: string)
      requires Valid() && IsFence(fence)
      modifies this
      ensures Valid() && view == old(view).(retired := old(view).retired - {(fence, slot)})
    {
      RemovingARecord(rows, view, fence, slot);
      rows := rows - {RetiredName(fence, slot)};
      view := view.(retired := view.retired - {(fence, slot)});
    }

    /** The rows whose name begins with the fence's record prefix are its backlog, each once. */
    method RetiredCredentialSlots(fence: string) returns (slots: seq<string>)
      requires Valid() && IsFence(fence)
      ensures forall s :: s in slots <==> (fence, s) in view.retired
      ensures forall i, j :: 0 <= i < j < |slots| ==> slots[i] != slots[j]
    {
      slots := [];
      var todo := rows.Keys;
      var prefix := RetiredName(fence, "");
      while todo != {}
        invariant todo <= rows.Keys
        invariant forall s :: s in slots ==> (fence, s) in view.retired && RetiredName(fence, s) !in todo
        invariant forall s :: (fence, s) in view.retired && RetiredName(fence, s) !in todo ==> s in slots
        invariant forall i, j :: 0 <= i < j < |slots| ==> slots[i] != slots[j]
      {
        RecordNamesAreDistinct();
        var name :| name in todo;
        todo := todo - {name};
        if prefix <= name {
          ghost var s := RecordWithPrefix(rows, view, fence, name);
          slots := slots + [rows[name].slot];
        } else {
          assert forall s :: prefix <= RetiredName(fence, s);
        }
      }
    }
  }

  lemma RecordWithPrefix(rows: map<string, FenceRow>, v: View, fence: string, name: string) returns (s: string)
    requires Represents(rows, v) && IsFence(fence) && name in rows && RetiredName(fence, "") <= name
    ensures (fence, s) in v.retired && name == RetiredName(fence, s) && s == rows[name].slot
  {
    assert name[6] == RetiredName(fence, "")[6];
    assert |name| >= |RetiredName(fence, "")|;
    assert fence == REFRESH_FENCE ==> name[14] == RetiredName(fence, "")[14];
    assert IsRecord(rows, v, name);
    var f, t :| (f, t) in v.retired && name == RetiredName(f, t);
    NamesNeverCollide(fence, "", f, t);
    s := t;
  }
}
