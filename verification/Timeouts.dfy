/** How long a shutdown may take: settled when the operation is issued, from the VM's own schedule
    entry, the estate's default, or the engine's, in that order. */
module Timeouts {
  import opened Text
  import opened Records
  import opened Schedules
  import FollowUps

  const DEFAULT_SHUTDOWN_TIMEOUT := 300
  const MIN_SHUTDOWN_TIMEOUT := 30
  const MAX_SHUTDOWN_TIMEOUT := 3600

  function Resolve(perVM: int, estate: int): int {
    if perVM > 0 then perVM
    else if estate > 0 then estate
    else DEFAULT_SHUTDOWN_TIMEOUT
  }

  /** Zero stands for inheriting. */
  predicate Acceptable(sec: int) { sec == 0 || InRange(sec) }

  predicate InRange(sec: int) { MIN_SHUTDOWN_TIMEOUT <= sec <= MAX_SHUTDOWN_TIMEOUT }

  ghost predicate AllAcceptable(sched: Estate) {
    forall a, x | a in sched && x in sched[a] :: Acceptable(x.shutdownTimeoutSec)
  }

  /** Only saving an entry can bring a timeout in, and a save is checked. */
  ghost predicate SavesAreChecked(edits: seq<Edit>) {
    forall e | e in edits && e.Setting? :: Acceptable(e.entry.shutdownTimeoutSec)
  }

  /** The timeout of the first entry for a VM, up to case, or zero. */
  function OverrideFor(entries: seq<ScheduleEntry>, vm: string): int {
    if entries == [] then 0
    else if EqualFold(entries[0].vm, vm) then entries[0].shutdownTimeoutSec
    else OverrideFor(entries[1..], vm)
  }

  method ResolveShutdownTimeout(schedules: Estate, estate: int, agentID: string, vm: string) returns (sec: int)
    ensures sec == Resolve(OverrideFor(ListOf(schedules, agentID), vm), estate)
  {
    var entries, perVM := ListOf(schedules, agentID), 0;
    assert entries[0..] == entries;
    for i := 0 to |entries|
      invariant perVM == 0
      invariant OverrideFor(entries, vm) == OverrideFor(entries[i..], vm)
    {
      assert entries[i..][1..] == entries[i + 1..];
      if EqualFold(entries[i].vm, vm) {
        perVM := entries[i].shutdownTimeoutSec;
        break;
      }
    }
    sec := if perVM > 0 then perVM else if estate > 0 then estate else DEFAULT_SHUTDOWN_TIMEOUT;
  }

  /** No edit, a follow-up's included, makes a timeout of its own. */
  lemma EditKeepsTimeouts(sched: Estate, e: Edit)
    requires AllAcceptable(sched) && (e.Setting? ==> Acceptable(e.entry.shutdownTimeoutSec))
    ensures AllAcceptable(Edited(sched, e))
  {
    match e
    case Setting(agent, entry) => SettingKeepsTimeouts(sched, agent, entry);
    case Deleting(agent, vm) => WithoutAllIsExact(ListOf(sched, agent), vm);
    case Enabling(agent, vm, enabled) => EnablingKeepsTimeouts(sched, agent, vm, enabled);
    case Moving(from, to, vm, newVM, host, dir) =>
      if At(sched, from, vm).Some? {
        var moved := At(sched, from, vm).value;
        assert moved in sched[from];
        MoveIsSetting(sched, from, to, vm, newVM, host, dir);
        VacatingKeepsTimeouts(sched, from, vm);
        SettingKeepsTimeouts(Vacated(sched, from, vm), to, Redirected(moved, newVM, host, dir));
      }
  }

  lemma SettingKeepsTimeouts(sched: Estate, agentID: string, entry: ScheduleEntry)
    requires AllAcceptable(sched) && Acceptable(entry.shutdownTimeoutSec)
    ensures AllAcceptable(SetEntry(sched, agentID, entry))
  {
    FollowUps.PutMembers(ListOf(sched, agentID), entry);
  }

  lemma VacatingKeepsTimeouts(sched: Estate, agentID: string, vm: string)
    requires AllAcceptable(sched)
    ensures AllAcceptable(Vacated(sched, agentID, vm))
  {
    var entries := ListOf(sched, agentID);
    forall x | x in WithoutFirst(entries, vm) ensures x in entries {}
  }

  lemma EnablingKeepsTimeouts(sched: Estate, agentID: string, vm: string, enabled: bool)
    requires AllAcceptable(sched)
    ensures AllAcceptable(SetEnabled(sched, agentID, vm, enabled))
  {
    var entries := ListOf(sched, agentID);
    forall x | x in Flagged(entries, vm, enabled) ensures Acceptable(x.shutdownTimeoutSec) {
      var k :| 0 <= k < |entries| && x == WithFlag(entries[k], vm, enabled);
      assert entries[k] in entries;
    }
  }

  lemma {:induction false} OverridesAreAcceptable(entries: seq<ScheduleEntry>, vm: string)
    requires forall x | x in entries :: Acceptable(x.shutdownTimeoutSec)
    ensures Acceptable(OverrideFor(entries, vm))
  {
    if entries != [] && !EqualFold(entries[0].vm, vm) {
      OverridesAreAcceptable(entries[1..], vm);
    }
  }

  /** Whatever was saved, switched, moved and deleted, in whatever order, a shutdown is issued with
      a timeout in range. */
  lemma {:induction false} EveryTimeoutIsInRange(sched: Estate, edits: seq<Edit>, estate: int, agentID: string,
                                                 vm: string)
    requires AllAcceptable(sched) && SavesAreChecked(edits) && Acceptable(estate)
    ensures AllAcceptable(AfterEdits(sched, edits))
    ensures InRange(Resolve(OverrideFor(ListOf(AfterEdits(sched, edits), agentID), vm), estate))
  {
    if edits != [] {
      var n := |edits| - 1;
      assert edits[n] in edits && SavesAreChecked(edits[..n]);
      EveryTimeoutIsInRange(sched, edits[..n], estate, agentID, vm);
      EditKeepsTimeouts(AfterEdits(sched, edits[..n]), edits[n]);
    }
    OverridesAreAcceptable(ListOf(AfterEdits(sched, edits), agentID), vm);
  }

  /** The entry consulted is the first whose name is the VM's up to case: the VM's own, unless a
      twin of it is listed before. */
  lemma {:induction false} FirstTwinDecides(entries: seq<ScheduleEntry>, vm: string, k: nat)
    requires k < |entries| && EqualFold(entries[k].vm, vm)
    requires forall i | 0 <= i < k :: !EqualFold(entries[i].vm, vm)
    ensures OverrideFor(entries, vm) == entries[k].shutdownTimeoutSec
  {
    if k > 0 {
      FirstTwinDecides(entries[1..], vm, k - 1);
    }
  }

  /** So every entry's own timeout is the one used exactly when no two entries of one name up to case
      differ in it. */
  lemma OwnTimeoutsIff(entries: seq<ScheduleEntry>)
    ensures (forall k | 0 <= k < |entries| :: OverrideFor(entries, entries[k].vm) == entries[k].shutdownTimeoutSec)
            <==> TwinsAgree(entries)
  {
    if TwinsAgree(entries) {
      forall k | 0 <= k < |entries| ensures OverrideFor(entries, entries[k].vm) == entries[k].shutdownTimeoutSec {
        FirstTwin(entries, k);
      }
    } else {
      var i, j :| 0 <= i < |entries| && 0 <= j < |entries| && EqualFold(entries[i].vm, entries[j].vm)
                  && entries[i].shutdownTimeoutSec != entries[j].shutdownTimeoutSec;
      OverrideFolds(entries, entries[i].vm, entries[j].vm);
    }
  }

  ghost predicate TwinsAgree(entries: seq<ScheduleEntry>) {
    forall i, j | 0 <= i < |entries| && 0 <= j < |entries| ::
      EqualFold(entries[i].vm, entries[j].vm) ==> entries[i].shutdownTimeoutSec == entries[j].shutdownTimeoutSec
  }

  /** Some twin's timeout is the one used. */
  lemma {:induction false} FirstTwin(entries: seq<ScheduleEntry>, k: nat)
    requires k < |entries|
    ensures exists i | 0 <= i <= k :: EqualFold(entries[i].vm, entries[k].vm)
                                      && OverrideFor(entries, entries[k].vm) == entries[i].shutdownTimeoutSec
  {
    if !EqualFold(entries[0].vm, entries[k].vm) {
      FirstTwin(entries[1..], k - 1);
      var i :| 0 <= i <= k - 1 && EqualFold(entries[1..][i].vm, entries[k].vm)
               && OverrideFor(entries[1..], entries[k].vm) == entries[1..][i].shutdownTimeoutSec;
      assert entries[1..][i] == entries[i + 1];
    }
  }

  lemma {:induction false} OverrideFolds(entries: seq<ScheduleEntry>, vm: string, other: string)
    requires EqualFold(vm, other)
    ensures OverrideFor(entries, vm) == OverrideFor(entries, other)
  {
    if entries != [] { OverrideFolds(entries[1..], vm, other); }
  }

  /** Whose timeout is used: the VM's own if it has one, else the estate's, else five minutes. */
  lemma ResolveIs(perVM: int, estate: int)
    ensures perVM > 0 ==> Resolve(perVM, estate) == perVM
    ensures perVM <= 0 && estate > 0 ==> Resolve(perVM, estate) == estate
    ensures perVM <= 0 && estate <= 0 ==> Resolve(perVM, estate) == 5 * 60
  {}
}
