/** What a finished operation does to the schedule, and why doing it again does nothing more. */
module FollowUps {
  import opened Text
  import opened Sorting
  import opened Records
  import opened Schedules

  // ----- who and where -----

  predicate ByHostname(a: Agent, b: Agent) { Less(a.hostname, b.hostname) }

  /** Agents are always read back in order of hostname. */
  function Roster(agents: seq<Agent>): seq<Agent> { SortBy(ByHostname, agents) }

  predicate Serves(a: Agent, host: string) { !a.revoked && EqualFold(a.hostname, host) }

  /** The first enrolled, non-revoked agent of a host; empty when there is none. */
  function FirstServing(agents: seq<Agent>, host: string): string {
    if agents == [] then ""
    else if Serves(agents[0], host) then agents[0].id
    else FirstServing(agents[1..], host)
  }

  function AgentFor(agents: seq<Agent>, host: string): string { FirstServing(Roster(agents), host) }

  function FirstHostname(agents: seq<Agent>, id: string): string {
    if agents == [] then "" else if agents[0].id == id then agents[0].hostname else FirstHostname(agents[1..], id)
  }

  function HostnameFor(agents: seq<Agent>, id: string): string { FirstHostname(Roster(agents), id) }

  /** A host has an agent to follow an inversion to exactly when some enrolled, non-revoked
      agent carries its name up to case. */
  lemma {:induction false} ServingExists(agents: seq<Agent>, host: string)
    requires forall a | a in agents :: a.id != ""
    ensures FirstServing(agents, host) != "" <==> exists a :: a in agents && Serves(a, host)
    ensures FirstServing(agents, host) != "" ==>
              exists a :: a in agents && Serves(a, host) && a.id == FirstServing(agents, host)
  {
    if agents != [] {
      ServingExists(agents[1..], host);
      assert agents == [agents[0]] + agents[1..];
    }
  }

  /** With at most one live agent to a host, looking it up does not depend on how a sort leaves ties. */
  lemma LookupIgnoresTies(agents: seq<Agent>, other: seq<Agent>, host: string)
    requires multiset(agents) == multiset(other) && forall a | a in agents :: a.id != ""
    requires forall a, b | a in agents && b in agents :: Serves(a, host) && Serves(b, host) ==> a == b
    ensures FirstServing(other, host) == FirstServing(agents, host)
  {
    SameElements(agents, other);
    ServingExists(agents, host);
    ServingExists(other, host);
  }

  function LastSlash(path: string): int {
    if path == [] then -1
    else if path[|path| - 1] == '/' then |path| - 1
    else LastSlash(path[..|path| - 1])
  }

  /** The directory part of a clean path. */
  function DirOf(path: string): string {
    var k := LastSlash(path);
    if 0 < k < |path| then path[..k] else if k == 0 then "/" else "."
  }

  function DiskDirs(disks: seq<ReportDisk>): set<string> {
    set d | d in disks && d.path != "" :: DirOf(d.path)
  }

  function FirstNamed(domains: seq<ReportDomain>, vm: string): Option<ReportDomain> {
    if domains == [] then None
    else if EqualFold(domains[0].name, vm) then Some(domains[0])
    else FirstNamed(domains[1..], vm)
  }

  /** The one directory holding every disk of a domain, as its agent last reported them. */
  ghost function SingleDiskDir(reports: map<string, Report>, agentID: string, vm: string): Option<string> {
    if agentID !in reports then None
    else
      var d := FirstNamed(reports[agentID].domains, vm);
      if d.None? then None else OnlyDir(d.value.disks)
  }

  ghost function OnlyDir(disks: seq<ReportDisk>): (r: Option<string>)
    ensures forall dir :: r == Some(dir) <==> DiskDirs(disks) == {dir}
  {
    if exists dir :: DiskDirs(disks) == {dir} then
      var dir :| DiskDirs(disks) == {dir};
      assert forall other | DiskDirs(disks) == {other} :: other in DiskDirs(disks);
      Some(dir)
    else None
  }

  // ----- the consequence of an outcome -----

  datatype Action =
    | Nothing
    | Do(edit: Edit)
    | Stranded          // an inversion whose new source has no enrolled agent

  function PeerVM(rec: OperationRecord): string {
    if rec.op.peerVM == "" then rec.op.vm else rec.op.peerVM
  }

  ghost function Decide(agents: seq<Agent>, reports: map<string, Report>,
                        rec: OperationRecord, res: OperationResult): Action
  {
    if res.state != STATE_DONE then Nothing
    else if rec.op.kind == OP_PROMOTE || rec.op.kind == OP_RESTORE then
      var source := AgentFor(agents, rec.op.peerHost);
      if rec.op.peerHost == "" || source == "" then Nothing
      else Do(Enabling(source, PeerVM(rec), false))
    else if rec.op.kind == OP_INVERT then
      if rec.op.peerHost == "" then Nothing
      else
        var successor := AgentFor(agents, rec.op.peerHost);
        if successor == "" then Stranded
        else Do(Moving(rec.agentID, successor, rec.op.vm, PeerVM(rec),
                       HostnameFor(agents, rec.agentID), SingleDiskDir(reports, rec.agentID, rec.op.vm)))
    else if rec.op.kind == OP_REINIT || rec.op.kind == OP_FORCE_CLEAN then
      Do(Enabling(rec.agentID, rec.op.vm, true))
    else Nothing
  }

  // ----- words of edits -----

  /** The edits one agent's reports can give rise to: only its own entries are ever re-enabled,
      and only its own entries are moved, to another agent. */
  predicate OwnEdit(agentID: string, e: Edit) {
    match e
    case Enabling(a, _, enabled) => enabled ==> a == agentID
    case Moving(from, to, _, _, _, _) => from == agentID && to != agentID
    case _ => false
  }

  predicate OwnEdits(agentID: string, edits: seq<Edit>) {
    forall i | 0 <= i < |edits| :: OwnEdit(agentID, edits[i])
  }

  predicate Once(entries: seq<ScheduleEntry>, vm: string) {
    forall i, j | 0 <= i < j < |entries| :: !(entries[i].vm == vm && entries[j].vm == vm)
  }

  /** Every entry to be moved is listed at most once. */
  predicate MovedOnce(sched: Estate, edits: seq<Edit>) {
    forall i | 0 <= i < |edits| && edits[i].Moving? :: Once(ListOf(sched, edits[i].from), edits[i].vm)
  }

  /** What the last of the edits to switch an entry on or off left it at. */
  function LastFlag(edits: seq<Edit>, agentID: string, vm: string): Option<bool> {
    if edits == [] then None
    else
      var e := edits[|edits| - 1];
      if e.Enabling? && e.agentID == agentID && e.vm == vm then Some(e.enabled)
      else LastFlag(edits[..|edits| - 1], agentID, vm)
  }

  predicate Agrees(e: ScheduleEntry, flag: Option<bool>) { flag.Some? ==> e.enabled == flag.value }

  /** An estate on which a word of edits has taken effect: what it moved is gone from where it
      was, and what it switched is as the last switch left it. */
  ghost predicate Settled(sched: Estate, edits: seq<Edit>) {
    && (forall i | 0 <= i < |edits| && edits[i].Moving? :: !Mentions(ListOf(sched, edits[i].from), edits[i].vm))
    && (forall a: string, k: int | a in sched && 0 <= k < |sched[a]| ::
          Agrees(sched[a][k], LastFlag(edits, a, sched[a][k].vm)))
  }

  /** Away from the reporting agent a switch can only ever switch off. */
  lemma {:induction false} ElsewhereOnlyOff(agentID: string, edits: seq<Edit>, a: string, vm: string)
    requires OwnEdits(agentID, edits) && a != agentID
    ensures LastFlag(edits, a, vm) != Some(true)
  {
    if edits != [] {
      assert OwnEdit(agentID, edits[|edits| - 1]);
      ElsewhereOnlyOff(agentID, edits[..|edits| - 1], a, vm);
    }
  }

  lemma OnceSurvives(entries: seq<ScheduleEntry>, gone: string, vm: string)
    requires Once(entries, vm)
    ensures Once(WithoutFirst(entries, gone), vm)
    ensures vm == gone ==> !Mentions(WithoutFirst(entries, gone), vm)
    ensures forall e :: e in WithoutFirst(entries, gone) ==> e in entries
  {
    var k, r := Find(entries, gone), WithoutFirst(entries, gone);
    assert forall i | 0 <= i < |r| :: r[i] == entries[if i < k then i else i + 1];
  }

  lemma PutMembers(entries: seq<ScheduleEntry>, e: ScheduleEntry)
    ensures forall x :: x in Put(entries, e) ==> x == e || x in entries
  {
    SortPermutes(ByVM, Placed(entries, e));
  }

  /** One more edit settles one more edit. */
  lemma EditSettles(agentID: string, sched: Estate, edits: seq<Edit>, e: Edit)
    requires Settled(sched, edits)
    requires OwnEdits(agentID, edits) && OwnEdit(agentID, e)
    requires e.Moving? ==> Once(ListOf(sched, e.from), e.vm)
    ensures Settled(Edited(sched, e), edits + [e])
  {
    if e.Enabling? {
      SwitchSettles(sched, edits, e);
    } else {
      var after := Edited(sched, e);
      if At(sched, e.from, e.vm).Some? {
        var m := Redirected(At(sched, e.from, e.vm).value, e.newVM, e.host, e.dir);
        MoveMembers(sched, e, m);
        MoveSettlesFlags(agentID, sched, edits, e, m);
        MoveKeepsGone(agentID, sched, edits, e, m);
      }
      NoMoreSwitches(after, edits, e);
    }
  }

  lemma SwitchSettles(sched: Estate, edits: seq<Edit>, e: Edit)
    requires Settled(sched, edits) && e.Enabling?
    ensures Settled(Edited(sched, e), edits + [e])
  {
    assert (edits + [e])[..|edits|] == edits;
    FlaggedKeeps(ListOf(sched, e.agentID), e.vm, e.enabled);
  }

  lemma NoMoreSwitches(sched: Estate, edits: seq<Edit>, e: Edit)
    requires Settled(sched, edits) && e.Moving? && !Mentions(ListOf(sched, e.from), e.vm)
    ensures Settled(sched, edits + [e])
  {
    assert (edits + [e])[..|edits|] == edits;
  }

  /** What the lists of a move hold: what they held, and the redirected entry at the destination. */
  lemma MoveMembers(sched: Estate, e: Edit, m: ScheduleEntry)
    requires e.Moving? && e.from != e.to && At(sched, e.from, e.vm).Some?
    requires m == Redirected(At(sched, e.from, e.vm).value, e.newVM, e.host, e.dir)
    requires Once(ListOf(sched, e.from), e.vm)
    ensures var after := Edited(sched, e);
            && !Mentions(ListOf(after, e.from), e.vm)
            && (forall a, x | a in after && x in after[a] :: x in ListOf(sched, a) || (a == e.to && x == m))
  {
    OnceSurvives(ListOf(sched, e.from), e.vm, e.vm);
    PutMembers(ListOf(sched, e.to), m);
    MoveIsSetting(sched, e.from, e.to, e.vm, e.newVM, e.host, e.dir);
  }

  lemma MoveSettlesFlags(agentID: string, sched: Estate, edits: seq<Edit>, e: Edit, m: ScheduleEntry)
    requires Settled(sched, edits) && OwnEdits(agentID, edits) && OwnEdit(agentID, e) && e.Moving?
    requires !m.enabled
    requires forall a, x | a in Edited(sched, e) && x in Edited(sched, e)[a] ::
               x in ListOf(sched, a) || (a == e.to && x == m)
    ensures var after := Edited(sched, e);
            forall a: string, k: int | a in after && 0 <= k < |after[a]| ::
              Agrees(after[a][k], LastFlag(edits, a, after[a][k].vm))
  {
    var after: Estate := Edited(sched, e);
    forall a: string, k: int | a in after && 0 <= k < |after[a]|
      ensures Agrees(after[a][k], LastFlag(edits, a, after[a][k].vm))
    {
      assert after[a][k] in after[a];
      ElsewhereOnlyOff(agentID, edits, e.to, m.vm);
    }
  }

  lemma MoveKeepsGone(agentID: string, sched: Estate, edits: seq<Edit>, e: Edit, m: ScheduleEntry)
    requires Settled(sched, edits) && OwnEdits(agentID, edits) && OwnEdit(agentID, e) && e.Moving?
    requires forall a, x | a in Edited(sched, e) && x in Edited(sched, e)[a] ::
               x in ListOf(sched, a) || (a == e.to && x == m)
    ensures forall i | 0 <= i < |edits| && edits[i].Moving? ::
              !Mentions(ListOf(Edited(sched, e), edits[i].from), edits[i].vm)
  {
    var after := Edited(sched, e);
    forall i | 0 <= i < |edits| && edits[i].Moving? ensures !Mentions(ListOf(after, edits[i].from), edits[i].vm) {
      assert OwnEdit(agentID, edits[i]);
      forall k | 0 <= k < |ListOf(after, agentID)| ensures ListOf(after, agentID)[k].vm != edits[i].vm {
        assert ListOf(after, agentID)[k] in ListOf(sched, agentID);
      }
    }
  }

  lemma EditKeepsMovedOnce(agentID: string, sched: Estate, e: Edit, edits: seq<Edit>)
    requires OwnEdit(agentID, e) && OwnEdits(agentID, edits) && MovedOnce(sched, edits)
    ensures MovedOnce(Edited(sched, e), edits)
  {
    forall i | 0 <= i < |edits| && edits[i].Moving?
      ensures Once(ListOf(Edited(sched, e), edits[i].from), edits[i].vm)
    {
      assert OwnEdit(agentID, edits[i]);
      EditKeepsOnce(agentID, sched, e, edits[i].vm);
    }
  }

  lemma EditKeepsOnce(agentID: string, sched: Estate, e: Edit, vm: string)
    requires OwnEdit(agentID, e) && Once(ListOf(sched, agentID), vm)
    ensures Once(ListOf(Edited(sched, e), agentID), vm)
  {
    if e.Moving? { OnceSurvives(ListOf(sched, agentID), e.vm, vm); }
  }

  /** Running a word of edits settles it, wherever it starts. */
  lemma {:induction false} WordSettles(agentID: string, sched: Estate, edits: seq<Edit>, more: seq<Edit>)
    requires OwnEdits(agentID, edits) && OwnEdits(agentID, more) && MovedOnce(sched, edits) && MovedOnce(sched, more)
    ensures Settled(AfterEdits(sched, edits), edits)
    ensures MovedOnce(AfterEdits(sched, edits), more)
  {
    if edits != [] {
      var init, last := edits[..|edits| - 1], edits[|edits| - 1];
      assert edits == init + [last];
      WordSettles(agentID, sched, init, more);
      WordSettles(agentID, sched, init, [last]);
      var mid := AfterEdits(sched, init);
      assert [last][0] == last;
      EditSettles(agentID, mid, init, last);
      EditKeepsMovedOnce(agentID, mid, last, more);
    }
  }

  function Overlaid(e: ScheduleEntry, flag: Option<bool>): ScheduleEntry {
    if flag.Some? then e.(enabled := flag.value) else e
  }

  function OverlaidList(entries: seq<ScheduleEntry>, edits: seq<Edit>, a: string): seq<ScheduleEntry> {
    seq(|entries|, k requires 0 <= k < |entries| => Overlaid(entries[k], LastFlag(edits, a, entries[k].vm)))
  }

  /** An estate with the switches of a word, and nothing else of it, laid over it. */
  function Overlay(sched: Estate, edits: seq<Edit>): Estate {
    map a | a in sched :: OverlaidList(sched[a], edits, a)
  }

  /** On an estate it has settled, a word runs as its switches alone. */
  lemma {:induction false} SettledWordOnlySwitches(agentID: string, sched: Estate, edits: seq<Edit>)
    requires OwnEdits(agentID, edits)
    requires forall i | 0 <= i < |edits| && edits[i].Moving? :: !Mentions(ListOf(sched, edits[i].from), edits[i].vm)
    ensures AfterEdits(sched, edits) == Overlay(sched, edits)
  {
    if edits == [] {
      assert forall a | a in sched :: OverlaidList(sched[a], edits, a) == sched[a];
    } else {
      var init, last := edits[..|edits| - 1], edits[|edits| - 1];
      SettledWordOnlySwitches(agentID, sched, init);
      var mid := Overlay(sched, init);
      assert OwnEdit(agentID, last);
      if last.Moving? {
        assert !Mentions(ListOf(mid, last.from), last.vm);
        assert forall a | a in sched :: OverlaidList(sched[a], edits, a) == OverlaidList(sched[a], init, a);
      } else {
        SwitchOverlays(sched, init, edits, last);
      }
    }
  }

  lemma SwitchOverlays(sched: Estate, init: seq<Edit>, edits: seq<Edit>, last: Edit)
    requires last.Enabling? && edits != [] && edits[..|edits| - 1] == init && edits[|edits| - 1] == last
    ensures Edited(Overlay(sched, init), last) == Overlay(sched, edits)
  {
    var mid, after := Overlay(sched, init), Edited(Overlay(sched, init), last);
    var same := Mentions(ListOf(mid, last.agentID), last.vm);
    forall a | a in sched ensures after[a] == OverlaidList(sched[a], edits, a) {
      if a == last.agentID && !same {
        forall k | 0 <= k < |sched[a]| ensures sched[a][k].vm != last.vm { assert mid[a][k].vm == sched[a][k].vm; }
      }
    }
  }

  /** The law behind the retry: over any estate, a word of one agent's edits run again from where
      it left off changes nothing. */
  lemma WordIsIdempotent(agentID: string, sched: Estate, edits: seq<Edit>)
    requires OwnEdits(agentID, edits) && MovedOnce(sched, edits)
    ensures AfterEdits(AfterEdits(sched, edits), edits) == AfterEdits(sched, edits)
  {
    var after := AfterEdits(sched, edits);
    WordSettles(agentID, sched, edits, edits);
    SettledWordOnlySwitches(agentID, after, edits);
    assert forall a | a in after :: OverlaidList(after[a], edits, a) == after[a];
  }

  lemma {:induction false} AfterEditsConcat(sched: Estate, p: seq<Edit>, q: seq<Edit>)
    ensures AfterEdits(sched, p + q) == AfterEdits(AfterEdits(sched, p), q)
  {
    if q == [] {
      assert p + q == p;
    } else {
      assert (p + q)[..|p + q| - 1] == p + q[..|q| - 1];
      AfterEditsConcat(sched, p, q[..|q| - 1]);
    }
  }

  /** Stopping after any prefix and starting over ends where an uninterrupted run ends. */
  lemma PrefixIsAbsorbed(agentID: string, sched: Estate, edits: seq<Edit>, n: nat)
    requires OwnEdits(agentID, edits) && MovedOnce(sched, edits) && n <= |edits|
    ensures AfterEdits(AfterEdits(sched, edits[..n]), edits) == AfterEdits(sched, edits)
    ensures MovedOnce(AfterEdits(sched, edits[..n]), edits)
  {
    var p, q := edits[..n], edits[n..];
    assert edits == p + q;
    WordSettles(agentID, sched, p, edits);
    WordIsIdempotent(agentID, sched, p);
    AfterEditsConcat(sched, p, q);
    AfterEditsConcat(AfterEdits(sched, p), p, q);
  }

  // ----- why the conditions are there -----

  /** Two inversions of one agent onto itself, the second onto the VM the first made room for. */
  predicate AroundTheCorner(e: Edit, f: Edit) {
    && e.Moving? && f.Moving? && e.from == e.to == f.from == f.to
    && f.newVM == e.vm && e.vm != e.newVM && f.vm != e.vm && f.vm != e.newVM
  }

  /** An agent that is its own inversion's peer can lose an entry to a retry: y moved to z, then x to
      y; run again, what is now at y overwrites z. */
  lemma SelfInversionsAreNotIdempotent(sched: Estate, e: Edit, f: Edit)
    requires WellOrdered(sched) && AroundTheCorner(e, f)
    requires At(sched, e.from, e.vm).Some? && At(sched, e.from, f.vm).Some?
    requires At(sched, e.from, e.vm).value.intervalSeconds != At(sched, e.from, f.vm).value.intervalSeconds
    ensures var once := AfterEdits(sched, [e, f]);
            At(once, e.from, e.newVM) != At(AfterEdits(once, [e, f]), e.from, e.newVM)
  {
    RoundTheCorner(sched, e, f);
    RoundTheCorner(AfterEdits(sched, [e, f]), e, f);
  }

  /** What y to z and then x to y do to those keys. */
  lemma RoundTheCorner(sched: Estate, e: Edit, f: Edit)
    requires WellOrdered(sched) && AroundTheCorner(e, f)
    ensures var after, a := AfterEdits(sched, [e, f]), e.from;
            var first, second := At(sched, a, e.vm), At(sched, a, f.vm);
            && WellOrdered(after)
            && (first.Some? ==> At(after, a, e.newVM) == Some(Redirected(first.value, e.newVM, e.host, e.dir)))
            && (second.Some? ==> At(after, a, e.vm) == Some(Redirected(second.value, e.vm, f.host, f.dir)))
  {
    var mid := Edited(sched, e);
    TwoEdits(sched, e, f);
    EditKeepsOrder(sched, e);
    EditKeepsOrder(mid, f);
    EditIsExact(sched, e, e.from, f.vm);
    EditIsExact(sched, e, e.from, e.newVM);
    EditIsExact(mid, f, e.from, e.vm);
    EditIsExact(mid, f, e.from, e.newVM);
  }

  lemma TwoEdits(sched: Estate, e: Edit, f: Edit)
    ensures AfterEdits(sched, [e, f]) == Edited(Edited(sched, e), f)
  {
    assert [e, f][..1] == [e] && [e][..0] == [];
    assert AfterEdits(sched, [e]) == Edited(AfterEdits(sched, []), e);
  }

  /** A VM listed twice is moved once per attempt, the second time over the first. */
  lemma DuplicatesAreNotIdempotent(sched: Estate, e: Edit, first: ScheduleEntry, second: ScheduleEntry)
    requires e.Moving? && e.from != e.to && ListOf(sched, e.from) == [first, second]
    requires first.vm == second.vm == e.vm && first.intervalSeconds != second.intervalSeconds
    requires Ordered(ListOf(sched, e.to))
    ensures Edited(Edited(sched, e), e) != Edited(sched, e)
    ensures At(Edited(sched, e), e.to, e.newVM) != At(Edited(Edited(sched, e), e), e.to, e.newVM)
  {
    assert [first, second] == [first] + [second] && [second] == [second] + [];
    FirstIsMoved(sched, e, first, [second]);
    FirstIsMoved(Edited(sched, e), e, second, []);
  }

  lemma FirstIsMoved(sched: Estate, e: Edit, first: ScheduleEntry, rest: seq<ScheduleEntry>)
    requires e.Moving? && e.from != e.to && ListOf(sched, e.from) == [first] + rest && first.vm == e.vm
    requires Ordered(ListOf(sched, e.to))
    ensures var after := Edited(sched, e);
            && ListOf(after, e.from) == rest && Ordered(ListOf(after, e.to))
            && At(after, e.to, e.newVM) == Some(Redirected(first, e.newVM, e.host, e.dir))
  {
    FindIs(ListOf(sched, e.from), e.vm, 0);
    MoveIsSetting(sched, e.from, e.to, e.vm, e.newVM, e.host, e.dir);
    PutKeeps(ListOf(sched, e.to), Redirected(first, e.newVM, e.host, e.dir));
  }

  /** One inversion onto its own agent is harmless: once moved, nothing is left to move. */
  lemma OneSelfInversionIsIdempotent(sched: Estate, e: Edit)
    requires WellOrdered(sched) && e.Moving? && e.from == e.to && e.vm != e.newVM
    ensures Edited(Edited(sched, e), e) == Edited(sched, e)
  {
    if At(sched, e.from, e.vm).Some? {
      EditIsExact(sched, e, e.from, e.vm);
    }
  }
}
