/** What one reported outcome does to the files, said in terms of the record, the roster and the
    reports alone. */
module Consequences {
  import opened Text
  import opened Sorting
  import opened Records
  import opened Schedules
  import opened Operations
  import opened FollowUps
  import opened Recording

  /** An outcome of one of the agent's own operations that has not been followed up yet. */
  predicate IsDue(f: Files, agentID: string, res: OperationResult) {
    && res.id in f.operations && f.operations[res.id].agentID == agentID
    && !f.operations[res.id].followUpDone && res.state != "running"
  }

  // ----- who, where and which directory -----

  predicate LiveOn(a: Agent, host: string) { !a.revoked && Fold(a.hostname) == Fold(host) }

  /** The live agent of a host, the first by hostname if there are several. */
  predicate IsAgentOf(b: Agent, agents: seq<Agent>, host: string) {
    b in agents && LiveOn(b, host) && forall c | c in agents && LiveOn(c, host) :: !Less(c.hostname, b.hostname)
  }

  lemma {:induction false} FirstServingIs(agents: seq<Agent>, host: string) returns (b: Agent)
    requires Sorted(ByHostname, agents) && exists a :: a in agents && LiveOn(a, host)
    ensures IsAgentOf(b, agents, host) && FirstServing(agents, host) == b.id
  {
    assert agents == [agents[0]] + agents[1..];
    if Serves(agents[0], host) {
      b := agents[0];
      LessIsStrictTotal();
    } else {
      b := FirstServingIs(agents[1..], host);
    }
  }

  lemma RosterIs(agents: seq<Agent>)
    ensures Sorted(ByHostname, Roster(agents)) && forall a :: a in Roster(agents) <==> a in agents
  {
    LessIsStrictTotal();
    SortSorts(ByHostname, agents);
    SortPermutes(ByHostname, agents);
  }

  lemma AgentForIs(agents: seq<Agent>, host: string) returns (b: Agent)
    requires exists a :: a in agents && LiveOn(a, host)
    ensures IsAgentOf(b, agents, host) && AgentFor(agents, host) == b.id
  {
    RosterIs(agents);
    b := FirstServingIs(Roster(agents), host);
  }

  lemma {:induction false} NoneServing(agents: seq<Agent>, host: string)
    requires forall a | a in agents :: !LiveOn(a, host)
    ensures FirstServing(agents, host) == ""
  {
    if agents != [] {
      assert agents[0] in agents && !LiveOn(agents[0], host);
      NoneServing(agents[1..], host);
    }
  }

  lemma AgentForNone(agents: seq<Agent>, host: string)
    requires forall a | a in agents :: !LiveOn(a, host)
    ensures AgentFor(agents, host) == ""
  {
    RosterIs(agents);
    NoneServing(Roster(agents), host);
  }

  /** The name an agent enrolled its host under; none, if it is not enrolled. */
  predicate IsHostnameOf(host: string, agents: seq<Agent>, id: string) {
    if forall a | a in agents :: a.id != id then host == ""
    else exists a :: a in agents && a.id == id && a.hostname == host
  }

  lemma {:induction false} FirstHostnameIs(agents: seq<Agent>, id: string)
    ensures IsHostnameOf(FirstHostname(agents, id), agents, id)
  {
    if agents != [] {
      assert agents == [agents[0]] + agents[1..];
      FirstHostnameIs(agents[1..], id);
    }
  }

  lemma HostnameForIs(agents: seq<Agent>, id: string)
    ensures IsHostnameOf(HostnameFor(agents, id), agents, id)
  {
    RosterIs(agents);
    FirstHostnameIs(Roster(agents), id);
  }

  /** A path, its directory and the name in it. */
  ghost predicate IsDirOf(dir: string, path: string) { exists name: string :: JoinsTo(dir, name, path) }

  predicate JoinsTo(dir: string, name: string, path: string) {
    && '/' !in name
    && ((dir != "" && path == dir + "/" + name) || (dir == "/" && path == "/" + name) || (dir == "." && path == name))
  }

  lemma {:induction false} LastSlashIs(path: string)
    ensures -1 <= LastSlash(path) < |path|
    ensures LastSlash(path) >= 0 ==> path[LastSlash(path)] == '/'
    ensures forall i | LastSlash(path) < i < |path| :: path[i] != '/'
  {
    if path != [] && path[|path| - 1] != '/' { LastSlashIs(path[..|path| - 1]); }
  }

  lemma DirOfIs(path: string, dir: string)
    ensures DirOf(path) == dir <==> IsDirOf(dir, path)
  {
    LastSlashIs(path);
    var k := LastSlash(path);
    var name := path[k + 1..];
    assert '/' !in name;
    if DirOf(path) == dir {
      assert k > 0 ==> path == path[..k] + "/" + name;
      assert k == 0 ==> path == "/" + name;
      assert JoinsTo(dir, name, path);
    }
    if IsDirOf(dir, path) {
      var other :| JoinsTo(dir, other, path);
      LastSlashSplits(dir, other, path);
    }
  }

  lemma LastSlashSplits(dir: string, name: string, path: string)
    requires JoinsTo(dir, name, path)
    ensures DirOf(path) == dir
  {
    if path == name {
      NameHasNoSlash(name);
    } else {
      var front := if dir != "" && path == dir + "/" + name then dir else "";
      assert path == front + "/" + name;
      LastSlashAt(front, name);
      assert path[..|front|] == front;
    }
  }

  lemma {:induction false} NameHasNoSlash(name: string)
    requires '/' !in name
    ensures LastSlash(name) == -1
  {
    LastSlashIs(name);
  }

  lemma {:induction false} LastSlashAt(front: string, name: string)
    requires '/' !in name
    ensures LastSlash(front + "/" + name) == |front|
  {
    var path := front + "/" + name;
    if name != "" {
      assert path[|path| - 1] == name[|name| - 1] && name[|name| - 1] in name;
      assert path[..|path| - 1] == front + "/" + name[..|name| - 1];
      LastSlashAt(front, name[..|name| - 1]);
    }
  }

  /** The one directory of all the disks with a path, of the first domain of that name up to case in the
      agent's last report. */
  ghost predicate IsDiskDir(dir: string, reports: map<string, Report>, agentID: string, vm: string) {
    agentID in reports
    && exists i | 0 <= i < |reports[agentID].domains| ::
         var ds := reports[agentID].domains;
         && Fold(ds[i].name) == Fold(vm) && (forall j | 0 <= j < i :: Fold(ds[j].name) != Fold(vm))
         && (exists x :: x in ds[i].disks && x.path != "")
         && (forall x | x in ds[i].disks && x.path != "" :: IsDirOf(dir, x.path))
  }

  lemma {:induction false} FirstNamedIs(domains: seq<ReportDomain>, vm: string)
    ensures FirstNamed(domains, vm).None? ==> forall d | d in domains :: Fold(d.name) != Fold(vm)
    ensures FirstNamed(domains, vm).Some? ==>
              exists i | 0 <= i < |domains| ::
                && domains[i] == FirstNamed(domains, vm).value && Fold(domains[i].name) == Fold(vm)
                && forall j | 0 <= j < i :: Fold(domains[j].name) != Fold(vm)
  {
    if domains != [] {
      assert domains == [domains[0]] + domains[1..];
      if !EqualFold(domains[0].name, vm) {
        FirstNamedIs(domains[1..], vm);
        if FirstNamed(domains[1..], vm).Some? {
          var i :| 0 <= i < |domains[1..]| && domains[1..][i] == FirstNamed(domains[1..], vm).value
                   && Fold(domains[1..][i].name) == Fold(vm)
                   && forall j | 0 <= j < i :: Fold(domains[1..][j].name) != Fold(vm);
          assert domains[i + 1] == domains[1..][i];
          forall j | 0 <= j < i + 1 ensures Fold(domains[j].name) != Fold(vm) {
            if j > 0 { assert domains[j] == domains[1..][j - 1]; }
          }
        }
      }
    }
  }

  lemma OnlyDirIs(disks: seq<ReportDisk>, dir: string)
    ensures OnlyDir(disks) == Some(dir)
            <==> && (exists x :: x in disks && x.path != "")
                 && (forall x | x in disks && x.path != "" :: IsDirOf(dir, x.path))
  {
    forall x | x in disks ensures DirOf(x.path) == dir <==> IsDirOf(dir, x.path) { DirOfIs(x.path, dir); }
    if OnlyDir(disks) == Some(dir) {
      assert dir in DiskDirs(disks);
      forall x | x in disks && x.path != "" ensures IsDirOf(dir, x.path) { assert DirOf(x.path) in DiskDirs(disks); }
    }
    if y :| y in disks && y.path != "" && forall x | x in disks && x.path != "" :: IsDirOf(dir, x.path) {
      assert DirOf(y.path) in DiskDirs(disks);
      assert DiskDirs(disks) == {dir};
    }
  }

  lemma SingleDiskDirIs(reports: map<string, Report>, agentID: string, vm: string, dir: string)
    ensures SingleDiskDir(reports, agentID, vm) == Some(dir) <==> IsDiskDir(dir, reports, agentID, vm)
  {
    if agentID in reports {
      var ds := reports[agentID].domains;
      FirstNamedIs(ds, vm);
      if FirstNamed(ds, vm).Some? { OnlyDirIs(FirstNamed(ds, vm).value.disks, dir); }
    }
  }

  // ----- one outcome -----

  lemma OneResultsPlan(f: Files, agentID: string, res: OperationResult)
    ensures var plan := PlanOf(f, agentID, [res]);
            if res.id !in f.operations || f.operations[res.id].agentID != agentID then plan.effects == []
            else plan.effects == EffectsOf(Load(f.operations)[res.id], agentID, res)
    ensures PlanOf(f, agentID, [res]) == Take(Plan(Load(f.operations), false, []), agentID, res)
  {
    assert [res][..0] == [];
    assert PlanFor(Load(f.operations), agentID, []) == Plan(Load(f.operations), false, []);
    if res.id in f.operations {
      var effects := EffectsOf(Load(f.operations)[res.id], agentID, res);
      assert [] + effects == effects;
    }
  }

  /** The edit an outcome comes down to, if any. */
  ghost function EditDue(f: Files, agentID: string, res: OperationResult): seq<Edit> {
    if !IsDue(f, agentID, res) then []
    else
      var action := Decide(f.agents, f.reports, Load(f.operations)[res.id], res);
      if action.Do? then [action.edit] else []
  }

  lemma EffectsOfOutcome(f: Files, rec: OperationRecord, agentID: string, res: OperationResult)
    requires rec.agentID == agentID && !rec.followUpDone && res.Terminal()
    ensures var action := Decide(f.agents, f.reports, rec, res);
            EditsOf(f.agents, f.reports, EffectsOf(rec, agentID, res)) == if action.Do? then [action.edit] else []
  {
    var first := Consequence(rec, res);
    EditsOfOne(f.agents, f.reports, first);
    if rec.auditID != "" {
      var effects := [first, Closing(rec.auditID, OutcomeOf(res))];
      assert EffectsOf(rec, agentID, res) == effects && effects[..1] == [first];
    } else {
      assert EffectsOf(rec, agentID, res) == [first];
    }
  }

  lemma NoEffectsOfOthers(f: Files, rec: OperationRecord, agentID: string, res: OperationResult)
    requires rec.followUpDone || !res.Terminal()
    ensures EditsOf(f.agents, f.reports, EffectsOf(rec, agentID, res)) == []
  {
    assert EditsOf(f.agents, f.reports, []) == [];
    if EffectsOf(rec, agentID, res) != [] {
      EditsOfOne(f.agents, f.reports, Closing(rec.auditID, OutcomeOf(res)));
      assert EffectsOf(rec, agentID, res) == [Closing(rec.auditID, OutcomeOf(res))];
    }
  }

  lemma OneResultsEdits(f: Files, agentID: string, res: OperationResult)
    ensures EditsOf(f.agents, f.reports, PlanOf(f, agentID, [res]).effects) == EditDue(f, agentID, res)
  {
    OneResultsPlan(f, agentID, res);
    if res.id in f.operations && f.operations[res.id].agentID == agentID {
      HealSettles(f.operations[res.id]);
      if IsDue(f, agentID, res) {
        EffectsOfOutcome(f, Load(f.operations)[res.id], agentID, res);
      } else {
        NoEffectsOfOthers(f, Load(f.operations)[res.id], agentID, res);
      }
    }
  }

  ghost function SchedulesAfter(f: Files, agentID: string, res: OperationResult, clock: nat -> int): Estate {
    Recorded(f, agentID, [res], clock).schedules
  }

  lemma OneOutcomesSchedules(f: Files, agentID: string, res: OperationResult, clock: nat -> int)
    requires Completes(f, agentID, [res])
    ensures var edits := EditDue(f, agentID, res);
            SchedulesAfter(f, agentID, res, clock)
            == if edits == [] then f.schedules else Edited(f.schedules, edits[0])
  {
    CompletedFiles(f, agentID, [res], clock);
    OneResultsEdits(f, agentID, res);
    var edits := EditDue(f, agentID, res);
    assert AfterEdits(f.schedules, []) == f.schedules;
    if edits != [] { assert edits[..0] == []; }
  }

  // ----- the outcomes, kind by kind -----

  predicate Rostered(agents: seq<Agent>) { forall a | a in agents :: a.id != "" }

  /** The only change to the estate is to the entry of that agent and VM, if there is one: on, or off. */
  ghost predicate OnlySwitches(was: Estate, now: Estate, agentID: string, vm: string, enabled: bool) {
    forall a, v ::
      At(now, a, v) == if a == agentID && v == vm && At(was, a, v).Some?
                       then Some(At(was, a, v).value.(enabled := enabled)) else At(was, a, v)
  }

  lemma EnablingOnlySwitches(sched: Estate, agentID: string, vm: string, enabled: bool)
    ensures OnlySwitches(sched, Edited(sched, Enabling(agentID, vm, enabled)), agentID, vm, enabled)
  {
    forall a, v
      ensures At(SetEnabled(sched, agentID, vm, enabled), a, v)
              == if a == agentID && v == vm && At(sched, a, v).Some?
                 then Some(At(sched, a, v).value.(enabled := enabled)) else At(sched, a, v)
    {
      EnablingIsExact(sched, agentID, vm, enabled, a, v);
    }
  }

  /** A promotion or a restore that succeeded switches off the source it took over from: the entry of the
      peer VM at the live agent of the peer host. Without a peer or such an agent nothing changes. */
  lemma DonePromotionStopsItsSource(f: Files, agentID: string, res: OperationResult, clock: nat -> int)
    requires Rostered(f.agents) && IsDue(f, agentID, res) && res.state == "done"
    requires f.operations[res.id].op.kind == "promote" || f.operations[res.id].op.kind == "restore"
    ensures Completes(f, agentID, [res])
    ensures var op, now := f.operations[res.id].op, SchedulesAfter(f, agentID, res, clock);
            if op.peerHost == "" || forall a | a in f.agents :: !LiveOn(a, op.peerHost) then now == f.schedules
            else exists b ::
                   && IsAgentOf(b, f.agents, op.peerHost)
                   && OnlySwitches(f.schedules, now, b.id, if op.peerVM == "" then op.vm else op.peerVM, false)
  {
    var op := f.operations[res.id].op;
    HealSettles(f.operations[res.id]);
    OneOutcomeCompletes(f, agentID, res);
    OneOutcomesSchedules(f, agentID, res, clock);
    if op.peerHost != "" {
      if exists a :: a in f.agents && LiveOn(a, op.peerHost) {
        var b := AgentForIs(f.agents, op.peerHost);
        EnablingOnlySwitches(f.schedules, b.id, if op.peerVM == "" then op.vm else op.peerVM, false);
      } else {
        AgentForNone(f.agents, op.peerHost);
      }
    }
  }

  /** A resync that succeeded switches its own source on again. */
  lemma DoneResyncSwitchesOn(f: Files, agentID: string, res: OperationResult, clock: nat -> int)
    requires IsDue(f, agentID, res) && res.state == "done"
    requires f.operations[res.id].op.kind == "reinit" || f.operations[res.id].op.kind == "force-clean"
    ensures Completes(f, agentID, [res])
    ensures OnlySwitches(f.schedules, SchedulesAfter(f, agentID, res, clock), agentID, f.operations[res.id].op.vm, true)
  {
    HealSettles(f.operations[res.id]);
    OneOutcomeCompletes(f, agentID, res);
    OneOutcomesSchedules(f, agentID, res, clock);
    EnablingOnlySwitches(f.schedules, agentID, f.operations[res.id].op.vm, true);
  }

  /** What becomes of an entry that follows an inversion: it is renamed, aimed at the host it comes from,
      switched off, and pointed at the directory of the disks there, when they share one. */
  ghost predicate Follows(now: ScheduleEntry, was: ScheduleEntry, f: Files, agentID: string, vm: string,
                          newVM: string) {
    exists host: string, dir: string ::
      && IsHostnameOf(host, f.agents, agentID)
      && (IsDiskDir(dir, f.reports, agentID, vm)
          || (dir == was.profile.targetDiskPath && !exists d: string :: IsDiskDir(d, f.reports, agentID, vm)))
      && now == was.(vm := newVM, targetHost := host, enabled := false,
                     profile := was.profile.(targetDiskPath := dir))
  }

  ghost predicate OnlyMoves(f: Files, now: Estate, from: string, to: string, vm: string, newVM: string) {
    if At(f.schedules, from, vm).None? then now == f.schedules
    else
      && (exists e :: At(now, to, newVM) == Some(e) && Follows(e, At(f.schedules, from, vm).value, f, from, vm, newVM))
      && (forall a, v | !(a == to && v == newVM) ::
            At(now, a, v) == if a == from && v == vm then None else At(f.schedules, a, v))
  }

  /** An inversion that succeeded hands its entry to the live agent of the peer host, and is refused if
      there is none. */
  lemma DoneInversionMovesItsEntry(f: Files, agentID: string, res: OperationResult, clock: nat -> int)
    requires Rostered(f.agents) && WellOrdered(f.schedules) && IsDue(f, agentID, res) && res.state == "done"
    requires f.operations[res.id].op.kind == "invert" && f.operations[res.id].op.peerHost != ""
    ensures Completes(f, agentID, [res]) <==> exists a :: a in f.agents && LiveOn(a, f.operations[res.id].op.peerHost)
    ensures var op, now := f.operations[res.id].op, SchedulesAfter(f, agentID, res, clock);
            Completes(f, agentID, [res]) ==>
              exists b :: IsAgentOf(b, f.agents, op.peerHost)
                          && OnlyMoves(f, now, agentID, b.id, op.vm, if op.peerVM == "" then op.vm else op.peerVM)
  {
    var op := f.operations[res.id].op;
    HealSettles(f.operations[res.id]);
    OneOutcomeCompletes(f, agentID, res);
    if exists a :: a in f.agents && LiveOn(a, op.peerHost) {
      var b := AgentForIs(f.agents, op.peerHost);
      OneOutcomesSchedules(f, agentID, res, clock);
      MovingOnlyMoves(f, agentID, b.id, op.vm, if op.peerVM == "" then op.vm else op.peerVM);
    } else {
      AgentForNone(f.agents, op.peerHost);
    }
  }

  lemma RedirectedFollows(f: Files, from: string, vm: string, newVM: string, was: ScheduleEntry)
    ensures Follows(Redirected(was, newVM, HostnameFor(f.agents, from), SingleDiskDir(f.reports, from, vm)),
                    was, f, from, vm, newVM)
  {
    HostnameForIs(f.agents, from);
    forall d ensures SingleDiskDir(f.reports, from, vm) == Some(d) <==> IsDiskDir(d, f.reports, from, vm) {
      SingleDiskDirIs(f.reports, from, vm, d);
    }
    var dir := SingleDiskDir(f.reports, from, vm);
    var path := if dir.Some? then dir.value else was.profile.targetDiskPath;
    assert dir.None? ==> was.profile == was.profile.(targetDiskPath := path);
  }

  lemma MovingOnlyMoves(f: Files, from: string, to: string, vm: string, newVM: string)
    requires WellOrdered(f.schedules)
    ensures OnlyMoves(f, Edited(f.schedules, Moving(from, to, vm, newVM, HostnameFor(f.agents, from),
                                                    SingleDiskDir(f.reports, from, vm))), from, to, vm, newVM)
  {
    var host, dir := HostnameFor(f.agents, from), SingleDiskDir(f.reports, from, vm);
    if At(f.schedules, from, vm).Some? {
      MoveArrives(f.schedules, from, to, vm, newVM, host, dir);
      RedirectedFollows(f, from, vm, newVM, At(f.schedules, from, vm).value);
      forall a, v | !(a == to && v == newVM)
        ensures At(MoveEntry(f.schedules, from, to, vm, newVM, host, dir), a, v)
                == if a == from && v == vm then None else At(f.schedules, a, v)
      {
        MoveLeavesTheRest(f.schedules, from, to, vm, newVM, host, dir, a, v);
      }
    }
  }

  /** Nothing else moves a schedule: not progress, nor an outcome that is not a success, nor the success of
      a shutdown, of a change of role or of an inversion without a peer, nor anything about an operation
      that is unknown, another agent's or followed up already. */
  lemma OtherwiseSchedulesStay(f: Files, agentID: string, res: OperationResult, clock: nat -> int)
    requires IsDue(f, agentID, res) && res.state == "done" ==>
               var op := f.operations[res.id].op;
               && op.kind !in {"promote", "restore", "reinit", "force-clean"}
               && (op.kind == "invert" ==> op.peerHost == "")
    ensures Completes(f, agentID, [res]) && SchedulesAfter(f, agentID, res, clock) == f.schedules
  {
    if IsDue(f, agentID, res) { HealSettles(f.operations[res.id]); }
    OneOutcomeCompletes(f, agentID, res);
    OneOutcomesSchedules(f, agentID, res, clock);
  }

  lemma OneOutcomeCompletes(f: Files, agentID: string, res: OperationResult)
    ensures Completes(f, agentID, [res])
            <==> !(IsDue(f, agentID, res) && Decide(f.agents, f.reports, Load(f.operations)[res.id], res).Stranded?)
  {
    OneResultsPlan(f, agentID, res);
    if res.id in f.operations && f.operations[res.id].agentID == agentID {
      HealSettles(f.operations[res.id]);
      OneConsequence(Load(f.operations)[res.id], agentID, res);
    }
  }

  lemma OneConsequence(rec: OperationRecord, agentID: string, res: OperationResult)
    requires rec.agentID == agentID
    ensures forall e | e in EffectsOf(rec, agentID, res) && e.Consequence? :: e == Consequence(rec, res)
    ensures Consequence(rec, res) in EffectsOf(rec, agentID, res) <==> !rec.followUpDone && res.Terminal()
  {
    if !rec.followUpDone && res.Terminal() { assert EffectsOf(rec, agentID, res)[0] == Consequence(rec, res); }
  }

  // ----- the ledger and the audit log -----

  /** The agent's own operation, not finished with: its result is kept. */
  predicate IsKept(f: Files, agentID: string, res: OperationResult) {
    && res.id in f.operations && f.operations[res.id].agentID == agentID
    && !(f.operations[res.id].result.Some? && f.operations[res.id].followUpDone)
  }

  /** One record takes the result, and is marked when it is an outcome; every other is as it was read. */
  lemma OneOutcomesLedger(f: Files, agentID: string, res: OperationResult, clock: nat -> int)
    requires Completes(f, agentID, [res])
    ensures var now := Recorded(f, agentID, [res], clock).operations;
            && now.Keys == f.operations.Keys
            && (forall k | k in now && !(IsKept(f, agentID, res) && k == res.id) ::
                  Load(now)[k] == Load(f.operations)[k])
            && (IsKept(f, agentID, res) ==>
                  var was := f.operations[res.id];
                  now[res.id] == was.(result := Some(res), followUpDone := was.followUpDone || res.state != "running"))
  {
    OneResultsPlan(f, agentID, res);
    CompletedFiles(f, agentID, [res], clock);
    forall k | k in f.operations ensures Heal(Heal(f.operations[k])) == Heal(f.operations[k]) {
      HealSettles(f.operations[k]);
    }
    if IsKept(f, agentID, res) { HealSettles(f.operations[res.id]); }
  }

  /** The entries a kept outcome closes: those of its record's audit id. */
  predicate Closes(f: Files, agentID: string, res: OperationResult, id: string) {
    IsKept(f, agentID, res) && res.state != "running" && f.operations[res.id].auditID == id != ""
  }

  /** An entry is closed by its operation's outcome, with the error after it if there is one, and no entry
      is touched otherwise. */
  lemma OneOutcomesAudit(f: Files, agentID: string, res: OperationResult, clock: nat -> int, i: nat)
    requires Completes(f, agentID, [res]) && i < |f.audit|
    ensures var now, was := Recorded(f, agentID, [res], clock).audit, f.audit[i];
            && |now| == |f.audit|
            && (!Closes(f, agentID, res, was.id) ==> now[i] == was)
            && (Closes(f, agentID, res, was.id) ==>
                  && (now[i].doneUnix == clock(0) || now[i].doneUnix == clock(1))
                  && now[i] == was.(outcome := if res.error == "" then res.state else res.state + ": " + res.error,
                                    doneUnix := now[i].doneUnix))
  {
    OneOutcomesLog(f, agentID, res, clock);
    if res.id in f.operations { HealSettles(f.operations[res.id]); }
  }

  lemma OneOutcomesLog(f: Files, agentID: string, res: OperationResult, clock: nat -> int)
    requires Completes(f, agentID, [res])
    ensures Recorded(f, agentID, [res], clock).audit
            == if !IsKept(f, agentID, res) || res.state == "running" || f.operations[res.id].auditID == "" then f.audit
               else AuditClosed(f.audit, f.operations[res.id].auditID, OutcomeOf(res),
                                clock(if f.operations[res.id].followUpDone then 0 else 1))
  {
    OneResultsPlan(f, agentID, res);
    CompletedFiles(f, agentID, [res], clock);
    if res.id in f.operations && f.operations[res.id].agentID == agentID {
      HealSettles(f.operations[res.id]);
      AuditOfEffects(f.audit, Load(f.operations)[res.id], agentID, res, clock);
    }
  }

  lemma AuditOfEffects(entries: seq<AuditEntry>, rec: OperationRecord, agentID: string, res: OperationResult,
                       clock: nat -> int)
    requires rec.agentID == agentID
    ensures var effects := EffectsOf(rec, agentID, res);
            AuditAfter(entries, effects, clock)
            == if Concluded(rec) || !res.Terminal() || rec.auditID == "" then entries
               else AuditClosed(entries, rec.auditID, OutcomeOf(res), clock(if rec.followUpDone then 0 else 1))
  {
    var effects := EffectsOf(rec, agentID, res);
    assert AuditAfter(entries, [], clock) == entries;
    if |effects| == 1 {
      assert effects[..0] == [];
    } else if |effects| == 2 {
      assert effects[..1] == [effects[0]] && [effects[0]][..0] == [];
      assert AuditAfter(entries, [effects[0]], clock) == entries;
    }
  }
}
