/** Per-agent schedule lists and the four edits made to them. The functions give each edit its
    meaning on values; the methods of the store are proved against them. */
module Schedules {
  import opened Text
  import opened Sorting
  import opened Records

  /** Every agent's schedule, keyed by agent. */
  type Estate = map<string, seq<ScheduleEntry>>

  function ListOf(sched: Estate, agentID: string): seq<ScheduleEntry> {
    if agentID in sched then sched[agentID] else []
  }

  predicate Mentions(entries: seq<ScheduleEntry>, vm: string) {
    exists i | 0 <= i < |entries| :: entries[i].vm == vm
  }

  /** The position of the first entry for a VM, or the length when there is none. */
  function Find(entries: seq<ScheduleEntry>, vm: string): (k: nat)
    ensures k <= |entries|
    ensures k < |entries| ==> entries[k].vm == vm
    ensures forall i | 0 <= i < k :: entries[i].vm != vm
    ensures k < |entries| <==> Mentions(entries, vm)
  {
    if entries == [] then 0
    else if entries[0].vm == vm then 0
    else
      var k := Find(entries[1..], vm);
      assert forall i | 1 <= i < |entries| :: entries[i] == entries[1..][i - 1];
      1 + k
  }

  // ----- the edits -----

  function WithFlag(e: ScheduleEntry, vm: string, enabled: bool): ScheduleEntry {
    if e.vm == vm then e.(enabled := enabled) else e
  }

  function Flagged(entries: seq<ScheduleEntry>, vm: string, enabled: bool): seq<ScheduleEntry> {
    seq(|entries|, i requires 0 <= i < |entries| => WithFlag(entries[i], vm, enabled))
  }

  function WithoutFirst(entries: seq<ScheduleEntry>, vm: string): seq<ScheduleEntry> {
    var k := Find(entries, vm);
    if k < |entries| then entries[..k] + entries[k + 1..] else entries
  }

  function WithoutAll(entries: seq<ScheduleEntry>, vm: string): seq<ScheduleEntry> {
    if entries == [] then []
    else
      var rest := WithoutAll(entries[..|entries| - 1], vm);
      var e := entries[|entries| - 1];
      if e.vm == vm then rest else rest + [e]
  }

  function Placed(entries: seq<ScheduleEntry>, e: ScheduleEntry): seq<ScheduleEntry> {
    var k := Find(entries, e.vm);
    if k < |entries| then entries[k := e] else entries + [e]
  }

  predicate ByVM(a: ScheduleEntry, b: ScheduleEntry) { Less(a.vm, b.vm) }

  function Put(entries: seq<ScheduleEntry>, e: ScheduleEntry): seq<ScheduleEntry> {
    SortBy(ByVM, Placed(entries, e))
  }

  function SetEntry(sched: Estate, agentID: string, e: ScheduleEntry): Estate {
    sched[agentID := Put(ListOf(sched, agentID), e)]
  }

  function DeleteEntry(sched: Estate, agentID: string, vm: string): Estate {
    sched[agentID := WithoutAll(ListOf(sched, agentID), vm)]
  }

  function SetEnabled(sched: Estate, agentID: string, vm: string, enabled: bool): Estate {
    if Mentions(ListOf(sched, agentID), vm)
    then sched[agentID := Flagged(ListOf(sched, agentID), vm, enabled)]
    else sched
  }

  /** What an entry becomes when an inversion moves it: renamed, aimed at the old source,
      disabled, and pointed at that source's disk directory when there is a single one. */
  function Redirected(e: ScheduleEntry, newVM: string, host: string, dir: Option<string>): ScheduleEntry {
    var m := e.(vm := newVM, targetHost := host, enabled := false);
    if dir.Some? then m.(profile := m.profile.(targetDiskPath := dir.value)) else m
  }

  function MoveEntry(sched: Estate, from: string, to: string, vm: string, newVM: string,
                     host: string, dir: Option<string>): Estate
  {
    var moved := At(sched, from, vm);
    if moved.None? then sched
    else SetEntry(Vacated(sched, from, vm), to, Redirected(moved.value, newVM, host, dir))
  }

  function Vacated(sched: Estate, agentID: string, vm: string): Estate {
    sched[agentID := WithoutFirst(ListOf(sched, agentID), vm)]
  }

  /** The entry stored under an agent and a VM. */
  function At(sched: Estate, agentID: string, vm: string): Option<ScheduleEntry> {
    Lookup(ListOf(sched, agentID), vm)
  }

  function Lookup(entries: seq<ScheduleEntry>, vm: string): Option<ScheduleEntry> {
    var k := Find(entries, vm);
    if k < |entries| then Some(entries[k]) else None
  }

  // ----- sortedness, and what each edit does to every key -----

  predicate Ordered(entries: seq<ScheduleEntry>) {
    forall i, j {:trigger Less(entries[i].vm, entries[j].vm)} | 0 <= i < j < |entries| ::
      Less(entries[i].vm, entries[j].vm)
  }

  ghost predicate WellOrdered(sched: Estate) {
    forall a | a in sched :: Ordered(sched[a])
  }

  predicate Distinct(entries: seq<ScheduleEntry>) {
    forall i, j | 0 <= i < j < |entries| :: entries[i].vm != entries[j].vm
  }

  lemma OrderedIsDistinct(entries: seq<ScheduleEntry>)
    requires Ordered(entries)
    ensures Distinct(entries)
  {
    forall i, j | 0 <= i < j < |entries| ensures entries[i].vm != entries[j].vm {
      assert Less(entries[i].vm, entries[j].vm);
      LessIrreflexive(entries[i].vm);
    }
  }

  lemma LookupDistinct(entries: seq<ScheduleEntry>, vm: string, i: nat)
    requires Distinct(entries) && i < |entries| && entries[i].vm == vm
    ensures Lookup(entries, vm) == Some(entries[i])
  {
    var k := Find(entries, vm);
    assert Mentions(entries, vm);
    if k < i {} else if i < k {}
  }

  /** In a list of distinct VMs a lookup finds exactly the member with that VM. */
  lemma LookupIsMembership(entries: seq<ScheduleEntry>, vm: string)
    requires Distinct(entries)
    ensures forall e :: Lookup(entries, vm) == Some(e) <==> e in entries && e.vm == vm
  {
    forall e | e in entries && e.vm == vm ensures Lookup(entries, vm) == Some(e) {
      var i :| 0 <= i < |entries| && entries[i] == e;
      LookupDistinct(entries, vm, i);
    }
  }

  /** Two lists of distinct VMs with the same members of one VM answer its lookup alike. */
  lemma SameLookup(s: seq<ScheduleEntry>, t: seq<ScheduleEntry>, vm: string)
    requires Distinct(s) && Distinct(t)
    requires forall e: ScheduleEntry | e.vm == vm :: e in s <==> e in t
    ensures Lookup(s, vm) == Lookup(t, vm)
  {
    LookupIsMembership(s, vm);
    LookupIsMembership(t, vm);
    if Lookup(s, vm).Some? {
      assert Lookup(t, vm) == Some(Lookup(s, vm).value);
    } else if Lookup(t, vm).Some? {
      assert Lookup(s, vm) == Some(Lookup(t, vm).value);
    }
  }

  /** Sorting a list of distinct VMs gives the strictly sorted list that answers every lookup alike. */
  lemma SortKeepsLookups(entries: seq<ScheduleEntry>)
    requires Distinct(entries)
    ensures Ordered(SortBy(ByVM, entries))
    ensures forall vm :: Lookup(SortBy(ByVM, entries), vm) == Lookup(entries, vm)
  {
    LessIsStrictTotal();
    SortSorts(ByVM, entries);
    SortPermutes(ByVM, entries);
    var t := SortBy(ByVM, entries);
    forall i, j | 0 <= i < j < |t| ensures t[i].vm != t[j].vm && Less(t[i].vm, t[j].vm) {
      DistinctSurvivesPermutation(entries, t, i, j);
      assert !ByVM(t[j], t[i]);
    }
    forall vm ensures Lookup(t, vm) == Lookup(entries, vm) {
      SameLookup(t, entries, vm);
    }
  }

  lemma DistinctSurvivesPermutation(s: seq<ScheduleEntry>, t: seq<ScheduleEntry>, i: nat, j: nat)
    requires Distinct(s) && multiset(s) == multiset(t)
    requires i < j < |t|
    ensures t[i].vm != t[j].vm
  {
    SameElements(s, t);
    if t[i] == t[j] {
      TwiceInMultiset(t, i, j);
      TwoOccurrences(s, t[i]);
    } else {
      assert t[i] in s && t[j] in s;
    }
  }

  lemma PutKeeps(entries: seq<ScheduleEntry>, e: ScheduleEntry)
    requires Ordered(entries)
    ensures Ordered(Put(entries, e))
    ensures forall vm :: Lookup(Put(entries, e), vm) == if vm == e.vm then Some(e) else Lookup(entries, vm)
  {
    OrderedIsDistinct(entries);
    var p := Placed(entries, e);
    var at := Find(entries, e.vm);
    assert Distinct(p);
    SortKeepsLookups(p);
    LookupDistinct(p, e.vm, at);
    forall vm | vm != e.vm ensures Lookup(p, vm) == Lookup(entries, vm) {
      forall x: ScheduleEntry | x.vm == vm ensures x in p <==> x in entries {
        if x in entries {
          var i :| 0 <= i < |entries| && entries[i] == x;
          assert p[i] == x;
        }
      }
      SameLookup(p, entries, vm);
    }
  }

  lemma WithoutFirstKeeps(entries: seq<ScheduleEntry>, vm: string)
    requires Ordered(entries)
    ensures Ordered(WithoutFirst(entries, vm))
    ensures forall v :: Lookup(WithoutFirst(entries, vm), v) == if v == vm then None else Lookup(entries, v)
  {
    OrderedIsDistinct(entries);
    var k := Find(entries, vm);
    var r := WithoutFirst(entries, vm);
    forall i | 0 <= i < |r| ensures r[i] == entries[if i < k then i else i + 1] && r[i].vm != vm {}
    OrderedIsDistinct(r);
    forall v | v != vm ensures Lookup(r, v) == Lookup(entries, v) {
      forall x: ScheduleEntry | x.vm == v ensures x in r <==> x in entries {
        if x in entries {
          var i :| 0 <= i < |entries| && entries[i] == x;
          assert r[if i < k then i else i - 1] == x;
        }
      }
      SameLookup(r, entries, v);
    }
  }

  lemma {:induction false} WithoutAllIsExact(entries: seq<ScheduleEntry>, vm: string)
    ensures forall e :: e in WithoutAll(entries, vm) <==> e in entries && e.vm != vm
    ensures Ordered(entries) ==> Ordered(WithoutAll(entries, vm))
  {
    if entries != [] {
      var n := |entries| - 1;
      var init, last := entries[..n], entries[n];
      WithoutAllIsExact(init, vm);
      assert entries == init + [last];
      var rest := WithoutAll(init, vm);
      if Ordered(entries) {
        forall i | 0 <= i < |rest| ensures Less(rest[i].vm, last.vm) {
          assert rest[i] in init;
        }
      }
    }
  }

  lemma WithoutAllKeeps(entries: seq<ScheduleEntry>, vm: string)
    requires Ordered(entries)
    ensures Ordered(WithoutAll(entries, vm))
    ensures forall v :: Lookup(WithoutAll(entries, vm), v) == if v == vm then None else Lookup(entries, v)
  {
    var r := WithoutAll(entries, vm);
    WithoutAllIsExact(entries, vm);
    OrderedIsDistinct(entries);
    OrderedIsDistinct(r);
    forall v ensures Lookup(r, v) == if v == vm then None else Lookup(entries, v) {
      if v == vm {
        forall i | 0 <= i < |r| ensures r[i].vm != vm { assert r[i] in r; }
      } else {
        SameLookup(r, entries, v);
      }
    }
  }

  lemma FindIs(entries: seq<ScheduleEntry>, vm: string, k: nat)
    requires k <= |entries| && (k < |entries| ==> entries[k].vm == vm)
    requires forall i | 0 <= i < k :: entries[i].vm != vm
    ensures Find(entries, vm) == k
  {}

  lemma FlaggedKeeps(entries: seq<ScheduleEntry>, vm: string, enabled: bool)
    ensures Ordered(entries) ==> Ordered(Flagged(entries, vm, enabled))
    ensures forall v :: Find(Flagged(entries, vm, enabled), v) == Find(entries, v)
  {
    var f := Flagged(entries, vm, enabled);
    assert forall i | 0 <= i < |f| :: f[i].vm == entries[i].vm;
    forall v ensures Find(f, v) == Find(entries, v) { FindIs(f, v, Find(entries, v)); }
  }

  // ----- the edits as the user of a key sees them -----

  datatype Edit =
    | Setting(agentID: string, entry: ScheduleEntry)
    | Deleting(agentID: string, vm: string)
    | Enabling(agentID: string, vm: string, enabled: bool)
    | Moving(from: string, to: string, vm: string, newVM: string, host: string, dir: Option<string>)

  function Edited(sched: Estate, e: Edit): Estate {
    match e
    case Setting(a, entry) => SetEntry(sched, a, entry)
    case Deleting(a, vm) => DeleteEntry(sched, a, vm)
    case Enabling(a, vm, enabled) => SetEnabled(sched, a, vm, enabled)
    case Moving(from, to, vm, newVM, host, dir) => MoveEntry(sched, from, to, vm, newVM, host, dir)
  }

  /** The whole effect of an edit, key by key. A move is the case worth reading: one key is
      vacated, one key is taken, and nothing else in the estate changes. */
  ghost function Expected(sched: Estate, e: Edit, a: string, v: string): Option<ScheduleEntry> {
    var was := At(sched, a, v);
    match e
    case Setting(agent, entry) => if a == agent && v == entry.vm then Some(entry) else was
    case Deleting(agent, vm) => if a == agent && v == vm then None else was
    case Enabling(agent, vm, enabled) =>
      if a == agent && v == vm && was.Some? then Some(was.value.(enabled := enabled)) else was
    case Moving(from, to, vm, newVM, host, dir) =>
      var moved := At(sched, from, vm);
      if moved.None? then was
      else if a == to && v == newVM then Some(Redirected(moved.value, newVM, host, dir))
      else if a == from && v == vm then None
      else was
  }

  /** Every edit keeps every list strictly sorted by VM, a move whose two agents are the same
      included. */
  lemma EditKeepsOrder(sched: Estate, e: Edit)
    requires WellOrdered(sched)
    ensures WellOrdered(Edited(sched, e))
  {
    match e
    case Setting(agent, entry) => SettingKeepsOrder(sched, agent, entry);
    case Deleting(agent, vm) => WithoutAllKeeps(ListOf(sched, agent), vm);
    case Enabling(agent, vm, enabled) => FlaggedKeeps(ListOf(sched, agent), vm, enabled);
    case Moving(from, to, vm, newVM, host, dir) =>
      if At(sched, from, vm).Some? {
        VacatingIsExact(sched, from, vm, from, vm);
        SettingKeepsOrder(Vacated(sched, from, vm), to, Redirected(At(sched, from, vm).value, newVM, host, dir));
      }
  }

  lemma SettingKeepsOrder(sched: Estate, agentID: string, e: ScheduleEntry)
    requires WellOrdered(sched)
    ensures WellOrdered(SetEntry(sched, agentID, e))
  {
    PutKeeps(ListOf(sched, agentID), e);
  }

  /** Every edit does to every key of the estate exactly what Expected says. */
  lemma EditIsExact(sched: Estate, e: Edit, a: string, v: string)
    requires WellOrdered(sched)
    ensures At(Edited(sched, e), a, v) == Expected(sched, e, a, v)
  {
    match e
    case Setting(agent, entry) => SettingIsExact(sched, agent, entry, a, v);
    case Deleting(agent, vm) => DeletingIsExact(sched, agent, vm, a, v);
    case Enabling(agent, vm, enabled) => EnablingIsExact(sched, agent, vm, enabled, a, v);
    case Moving(from, to, vm, newVM, host, dir) =>
      if At(sched, from, vm).Some? { MovingIsExact(sched, from, to, vm, newVM, host, dir, a, v); }
  }

  lemma MovingIsExact(sched: Estate, from: string, to: string, vm: string, newVM: string,
                      host: string, dir: Option<string>, a: string, v: string)
    requires WellOrdered(sched) && At(sched, from, vm).Some?
    ensures At(MoveEntry(sched, from, to, vm, newVM, host, dir), a, v) ==
            Expected(sched, Moving(from, to, vm, newVM, host, dir), a, v)
  {
    if a == to && v == newVM {
      MoveArrives(sched, from, to, vm, newVM, host, dir);
    } else {
      MoveLeavesTheRest(sched, from, to, vm, newVM, host, dir, a, v);
    }
  }

  lemma MoveArrives(sched: Estate, from: string, to: string, vm: string, newVM: string,
                    host: string, dir: Option<string>)
    requires WellOrdered(sched) && At(sched, from, vm).Some?
    ensures At(MoveEntry(sched, from, to, vm, newVM, host, dir), to, newVM)
            == Some(Redirected(At(sched, from, vm).value, newVM, host, dir))
  {
    var left, e := Vacated(sched, from, vm), Redirected(At(sched, from, vm).value, newVM, host, dir);
    MoveIsSetting(sched, from, to, vm, newVM, host, dir);
    VacatingIsExact(sched, from, vm, from, vm);
    SettingIsExact(left, to, e, to, newVM);
  }

  lemma MoveLeavesTheRest(sched: Estate, from: string, to: string, vm: string, newVM: string,
                          host: string, dir: Option<string>, a: string, v: string)
    requires WellOrdered(sched) && At(sched, from, vm).Some? && !(a == to && v == newVM)
    ensures At(MoveEntry(sched, from, to, vm, newVM, host, dir), a, v)
            == if a == from && v == vm then None else At(sched, a, v)
  {
    var left, e := Vacated(sched, from, vm), Redirected(At(sched, from, vm).value, newVM, host, dir);
    MoveIsSetting(sched, from, to, vm, newVM, host, dir);
    VacatingIsExact(sched, from, vm, a, v);
    SettingIsExact(left, to, e, a, v);
  }

  lemma MoveIsSetting(sched: Estate, from: string, to: string, vm: string, newVM: string,
                      host: string, dir: Option<string>)
    requires At(sched, from, vm).Some?
    ensures var e := Redirected(At(sched, from, vm).value, newVM, host, dir);
            && e.vm == newVM
            && MoveEntry(sched, from, to, vm, newVM, host, dir) == SetEntry(Vacated(sched, from, vm), to, e)
  {}

  lemma DeletingIsExact(sched: Estate, agentID: string, vm: string, a: string, v: string)
    requires WellOrdered(sched)
    ensures At(DeleteEntry(sched, agentID, vm), a, v) == if a == agentID && v == vm then None else At(sched, a, v)
  {
    WithoutAllKeeps(ListOf(sched, agentID), vm);
  }

  lemma FlaggedIsExact(entries: seq<ScheduleEntry>, vm: string, enabled: bool, v: string)
    ensures var was := Lookup(entries, v);
            Lookup(Flagged(entries, vm, enabled), v)
            == if v == vm && was.Some? then Some(was.value.(enabled := enabled)) else was
  {
    var f, k := Flagged(entries, vm, enabled), Find(entries, v);
    assert forall i | 0 <= i < |f| :: f[i].vm == entries[i].vm;
    FindIs(f, v, k);
  }

  lemma EnablingIsExact(sched: Estate, agentID: string, vm: string, enabled: bool, a: string, v: string)
    ensures At(SetEnabled(sched, agentID, vm, enabled), a, v) ==
            Expected(sched, Enabling(agentID, vm, enabled), a, v)
  {
    FlaggedIsExact(ListOf(sched, agentID), vm, enabled, v);
    AbsentIsUnlisted(ListOf(sched, agentID), vm);
  }

  lemma AbsentIsUnlisted(entries: seq<ScheduleEntry>, vm: string)
    ensures Lookup(entries, vm).Some? <==> Mentions(entries, vm)
  {}

  lemma SettingIsExact(sched: Estate, agentID: string, e: ScheduleEntry, a: string, v: string)
    requires WellOrdered(sched)
    ensures At(SetEntry(sched, agentID, e), a, v) == if a == agentID && v == e.vm then Some(e) else At(sched, a, v)
  {
    PutKeeps(ListOf(sched, agentID), e);
  }

  lemma VacatingIsExact(sched: Estate, agentID: string, vm: string, a: string, v: string)
    requires WellOrdered(sched)
    ensures WellOrdered(Vacated(sched, agentID, vm))
    ensures At(Vacated(sched, agentID, vm), a, v) == if a == agentID && v == vm then None else At(sched, a, v)
  {
    WithoutFirstKeeps(ListOf(sched, agentID), vm);
  }

  /** Sortedness, hence one entry per VM, survives every interleaving of edits. */
  lemma {:induction false} EveryListStaysSorted(sched: Estate, edits: seq<Edit>)
    requires WellOrdered(sched)
    ensures WellOrdered(AfterEdits(sched, edits))
    ensures forall a :: Distinct(ListOf(AfterEdits(sched, edits), a))
  {
    if edits != [] {
      EveryListStaysSorted(sched, edits[..|edits| - 1]);
      EditKeepsOrder(AfterEdits(sched, edits[..|edits| - 1]), edits[|edits| - 1]);
    }
    forall a ensures Distinct(ListOf(AfterEdits(sched, edits), a)) {
      OrderedIsDistinct(ListOf(AfterEdits(sched, edits), a));
    }
  }

  function AfterEdits(sched: Estate, edits: seq<Edit>): Estate {
    if edits == [] then sched else Edited(AfterEdits(sched, edits[..|edits| - 1]), edits[|edits| - 1])
  }

  /** A move loses an entry exactly when one other than the moved one already sat at the
      destination; every other entry stays as it was. */
  lemma MoveLosesOnlyTheOccupant(sched: Estate, from: string, to: string, vm: string, newVM: string,
                                 host: string, dir: Option<string>, a: string, v: string)
    requires WellOrdered(sched) && At(sched, from, vm).Some?
    requires At(sched, a, v).Some? && !(a == from && v == vm)
    ensures At(MoveEntry(sched, from, to, vm, newVM, host, dir), a, v)
            == if a == to && v == newVM then Some(Redirected(At(sched, from, vm).value, newVM, host, dir))
               else At(sched, a, v)
  {
    if a == to && v == newVM {
      MoveArrives(sched, from, to, vm, newVM, host, dir);
    } else {
      MoveLeavesTheRest(sched, from, to, vm, newVM, host, dir, a, v);
    }
  }

  /** What travels with a moved entry: everything but its VM, its target host, whether it is
      enabled, and the target directory when the new one is known. */
  lemma MoveChangesOnlyFour(sched: Estate, from: string, to: string, vm: string, newVM: string,
                            host: string, dir: Option<string>)
    requires WellOrdered(sched) && At(sched, from, vm).Some?
    ensures var was, now := At(sched, from, vm).value, At(MoveEntry(sched, from, to, vm, newVM, host, dir), to, newVM);
            && now.Some?
            && now.value.vm == newVM && now.value.targetHost == host && !now.value.enabled
            && (dir.Some? ==> now.value.profile.targetDiskPath == dir.value)
            && (dir.None? ==> now.value.profile == was.profile)
            && now.value.(vm := was.vm, targetHost := was.targetHost, enabled := was.enabled,
                          profile := now.value.profile.(targetDiskPath := was.profile.targetDiskPath)) == was
  {
    MoveArrives(sched, from, to, vm, newVM, host, dir);
  }

  /** Without any assumption on the lists, duplicates included: a move takes one occurrence away from
      the list it leaves, and the list it goes to gains exactly the redirected entry in place of at
      most one occupant. The two may be one list. */
  lemma MoveConservesOccurrences(sched: Estate, from: string, to: string, vm: string, newVM: string,
                                 host: string, dir: Option<string>)
    requires At(sched, from, vm).Some?
    ensures var after := MoveEntry(sched, from, to, vm, newVM, host, dir);
            var e := At(sched, from, vm).value;
            var m, left := Redirected(e, newVM, host, dir), WithoutFirst(ListOf(sched, from), vm);
            && multiset(left) == multiset(ListOf(sched, from)) - multiset{e}
            && (from != to ==>
                  && ListOf(after, from) == left
                  && multiset(ListOf(after, to))
                     == multiset(ListOf(sched, to)) - Occupant(ListOf(sched, to), newVM) + multiset{m})
            && (from == to ==> multiset(ListOf(after, to)) == multiset(left) - Occupant(left, newVM) + multiset{m})
  {
    var left, e := Vacated(sched, from, vm), Redirected(At(sched, from, vm).value, newVM, host, dir);
    MoveIsSetting(sched, from, to, vm, newVM, host, dir);
    TakenOut(ListOf(sched, from), vm);
    PutIn(ListOf(left, to), e);
  }

  /** The entry a new one for the same VM displaces, if there is one. */
  function Occupant(entries: seq<ScheduleEntry>, vm: string): multiset<ScheduleEntry> {
    var was := Lookup(entries, vm);
    if was.Some? then multiset{was.value} else multiset{}
  }

  lemma TakenOut(entries: seq<ScheduleEntry>, vm: string)
    requires Lookup(entries, vm).Some?
    ensures multiset(WithoutFirst(entries, vm)) == multiset(entries) - multiset{Lookup(entries, vm).value}
  {
    RemovingAt(entries, Find(entries, vm));
  }

  lemma PutIn(entries: seq<ScheduleEntry>, e: ScheduleEntry)
    ensures multiset(Put(entries, e)) == multiset(entries) - Occupant(entries, e.vm) + multiset{e}
  {
    var k := Find(entries, e.vm);
    SortPermutes(ByVM, Placed(entries, e));
    if k < |entries| { ReplacingAt(entries, k, e); }
  }
}
