/** The loops that edit a freshly loaded slice in place. */
module Slices {
  import opened Text
  import opened Records
  import opened Schedules

  method FlagInPlace(a: array<ScheduleEntry>, vm: string, enabled: bool) returns (found: bool)
    modifies a
    ensures a[..] == Flagged(old(a[..]), vm, enabled)
    ensures found == Mentions(old(a[..]), vm)
  {
    found := false;
    for i := 0 to a.Length
      invariant forall k | 0 <= k < i :: a[k] == WithFlag(old(a[k]), vm, enabled)
      invariant forall k | i <= k < a.Length :: a[k] == old(a[k])
      invariant found <==> exists k | 0 <= k < i :: old(a[k]).vm == vm
    {
      if a[i].vm == vm {
        a[i] := a[i].(enabled := enabled);
        found := true;
      }
    }
    ghost var was := old(a[..]);
    assert forall k | 0 <= k < a.Length :: was[k] == old(a[k]);
  }

  lemma LookupStep(s: seq<ScheduleEntry>, e: ScheduleEntry, vm: string)
    ensures Lookup(s + [e], vm)
            == if Lookup(s, vm).Some? then Lookup(s, vm) else if e.vm == vm then Some(e) else None
  {
    var k := Find(s, vm);
    FindIs(s + [e], vm, if k < |s| || e.vm == vm then k else |s| + 1);
  }

  lemma RemovingBefore(s: seq<ScheduleEntry>, k: nat, e: ScheduleEntry)
    requires k < |s|
    ensures (s + [e])[..k] + (s + [e])[k + 1..] == (s[..k] + s[k + 1..]) + [e]
  {
    assert (s + [e])[..k] == s[..k] && (s + [e])[k + 1..] == s[k + 1..] + [e];
  }

  lemma RemovingLast(s: seq<ScheduleEntry>, e: ScheduleEntry)
    ensures (s + [e])[..|s|] + (s + [e])[|s| + 1..] == s
  {
    assert (s + [e])[..|s|] == s && (s + [e])[|s| + 1..] == [];
  }

  lemma WithoutFirstStep(s: seq<ScheduleEntry>, e: ScheduleEntry, vm: string)
    ensures WithoutFirst(s + [e], vm)
            == if Lookup(s, vm).None? && e.vm == vm then s else WithoutFirst(s, vm) + [e]
  {
    var k := Find(s, vm);
    if k < |s| {
      FindIs(s + [e], vm, k);
      RemovingBefore(s, k, e);
    } else if e.vm == vm {
      FindIs(s + [e], vm, k);
      RemovingLast(s, e);
    } else {
      FindIs(s + [e], vm, |s| + 1);
    }
  }

  /** Appends to the part of the array kept so far. */
  method Keep(a: array<ScheduleEntry>, kept: nat, e: ScheduleEntry)
    requires kept < a.Length
    modifies a
    ensures a[..kept + 1] == old(a[..kept]) + [e]
    ensures forall k | kept < k < a.Length :: a[k] == old(a[k])
  {
    a[kept] := e;
  }

  /** Keeps, in the same array, everything but the first entry for a VM, and hands that one back. */
  method FilterFirstInPlace(a: array<ScheduleEntry>, vm: string) returns (kept: nat, moved: Option<ScheduleEntry>)
    modifies a
    ensures kept <= a.Length && a[..kept] == WithoutFirst(old(a[..]), vm)
    ensures moved == Lookup(old(a[..]), vm)
    ensures moved.None? ==> kept == a.Length
  {
    kept, moved := 0, None;
    ghost var was := a[..];
    for i := 0 to a.Length
      invariant kept == if moved.Some? then i - 1 else i
      invariant kept >= 0
      invariant forall k | i <= k < a.Length :: a[k] == was[k]
      invariant a[..kept] == WithoutFirst(was[..i], vm)
      invariant moved == Lookup(was[..i], vm)
    {
      var e := a[i];
      assert was[..i + 1] == was[..i] + [e];
      LookupStep(was[..i], e, vm);
      WithoutFirstStep(was[..i], e, vm);
      if e.vm == vm && moved.None? {
        moved := Some(e);
      } else {
        Keep(a, kept, e);
        kept := kept + 1;
      }
    }
    assert was[..a.Length] == was;
  }

  /** Keeps, in the same array, every entry not for a VM. */
  method FilterAllInPlace(a: array<ScheduleEntry>, vm: string) returns (kept: nat)
    modifies a
    ensures kept <= a.Length && a[..kept] == WithoutAll(old(a[..]), vm)
  {
    kept := 0;
    ghost var was := a[..];
    for i := 0 to a.Length
      invariant kept <= i
      invariant forall k | i <= k < a.Length :: a[k] == was[k]
      invariant a[..kept] == WithoutAll(was[..i], vm)
    {
      var e := a[i];
      assert was[..i + 1][..i] == was[..i];
      if e.vm != vm {
        Keep(a, kept, e);
        kept := kept + 1;
      }
    }
    assert was[..a.Length] == was;
  }

  /** Puts an entry in the place of the first one for its VM, or at the end. */
  method ReplaceOrAppend(entries: seq<ScheduleEntry>, e: ScheduleEntry) returns (r: seq<ScheduleEntry>)
    ensures r == Placed(entries, e)
  {
    r := entries;
    var replaced := false;
    for i := 0 to |entries|
      invariant r == entries && !replaced
      invariant forall k | 0 <= k < i :: entries[k].vm != e.vm
    {
      if entries[i].vm == e.vm {
        FindIs(entries, e.vm, i);
        r := r[i := e];
        replaced := true;
        break;
      }
    }
    if !replaced {
      r := r + [e];
    }
  }

  /** A slice as decoded from a file: an array of its own. */
  method Decoded(s: seq<ScheduleEntry>) returns (a: array<ScheduleEntry>)
    ensures fresh(a) && a[..] == s
  {
    a := new ScheduleEntry[|s|](i requires 0 <= i < |s| => s[i]);
  }
}
