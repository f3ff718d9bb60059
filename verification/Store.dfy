/** The store: five files, one lock, and methods that each run as one step of it. Every method is
    proved against the function of its name's meaning; what those functions promise over runs and
    crashes is proved in the other modules. */
module StateStore {
  import opened Text
  import opened Sorting
  import opened Records
  import opened Schedules
  import opened Operations
  import opened FollowUps
  import opened Recording
  import opened CrashRetry
  import opened Config
  import opened Slices

  predicate ByNewest(a: OperationRecord, b: OperationRecord) { a.op.createdAtUnix > b.op.createdAtUnix }

  class Store {
    var agents: seq<Agent>
    var reports: map<string, Report>
    var schedules: Estate
    var audit: seq<AuditEntry>
    var operations: Ledger

    /** Every file write so far, in order: a crash is a stop after a prefix of them. */
    ghost var written: seq<Write>

    ghost function Contents(): Files
      reads this
    {
      Files(agents, reports, schedules, audit, operations)
    }

    constructor (f: Files)
      ensures Contents() == f && written == []
    {
      agents, reports, schedules, audit, operations := f.agents, f.reports, f.schedules, f.audit, f.operations;
      written := [];
    }

    /** Replaces one file. */
    method WriteFile(w: Write)
      modifies this
      ensures Contents() == Install(old(Contents()), w)
      ensures written == old(written) + [w]
    {
      match w {
        case AgentsFile(a) => agents := a;
        case ReportFile(id, r) => reports := reports[id := r];
        case SchedulesFile(s) => schedules := s;
        case AuditFile(a) => audit := a;
        case OperationsFile(o) => operations := o;
      }
      written := written + [w];
    }

    // ----- the operation ledger -----

    method LoadOperations() returns (ops: Ledger)
      ensures ops == Load(operations)
    {
      ops := operations;
      var todo := operations.Keys;
      while todo != {}
        invariant todo <= operations.Keys && ops.Keys == operations.Keys
        invariant forall id | id in ops :: ops[id] == if id in todo then operations[id] else Heal(operations[id])
        decreases todo
      {
        var id :| id in todo;
        if Stuck(ops[id]) {
          ops := ops[id := Heal(ops[id])];
        }
        todo := todo - {id};
      }
    }

    /** Every record, newest first. */
    method ListOperations() returns (records: seq<OperationRecord>)
      ensures forall i, j | 0 <= i < j < |records| :: records[i].op.createdAtUnix >= records[j].op.createdAtUnix
      ensures ListsLedger(records, Load(operations))
    {
      var ops := LoadOperations();
      records := [];
      var todo := ops.Keys;
      ghost var ids: seq<string> := [];
      while todo != {}
        invariant todo <= ops.Keys
        invariant Listing(ids, ops.Keys - todo) && records == Filed(ops, ids)
        decreases todo
      {
        var id :| id in todo;
        OneMoreListed(ids, ops.Keys - todo, id);
        assert ops.Keys - (todo - {id}) == (ops.Keys - todo) + {id};
        ids := ids + [id];
        records := records + [ops[id]];
        todo := todo - {id};
      }
      assert ops.Keys - todo == ops.Keys;
      SortSorts(ByNewest, records);
      SortPermutes(ByNewest, records);
      records := SortBy(ByNewest, records);
    }

    /** Issues an operation under a fresh id, unless the VM already has one in flight. */
    method CreateOperation(agentID: string, auditID: string, op: Operation, id: string, now: int)
      returns (answer: Answer, rec: OperationRecord)
      requires id !in operations
      modifies this
      ensures answer == CreateAnswer(Load(old(operations)), agentID, op)
      ensures answer == Accepted
              <==> && agentID != "" && op.vm != "" && op.kind != ""
                   && forall k | k in old(operations) ::
                        !(Outstanding(old(operations)[k]) && Fold(old(operations)[k].op.vm) == Fold(op.vm))
      ensures answer == Accepted ==>
                && rec == Issued(agentID, auditID, op, id, now) && rec.Pending()
                && Contents() == old(Contents()).(operations := Load(old(operations))[id := rec])
                && written == old(written) + [OperationsFile(operations)]
      ensures answer != Accepted ==> Contents() == old(Contents()) && written == old(written)
    {
      rec := OperationRecord(op, agentID, auditID, None, false, 0, "");
      CreateAnswers(operations, agentID, op);
      if agentID == "" || op.vm == "" || op.kind == "" {
        return Incomplete, rec;
      }
      var ops := LoadOperations();
      var busy := IsBusy(ops, op.vm);
      if busy {
        return InFlight, rec;
      }
      rec := Issue(op, agentID, auditID, id, now);
      ops := ops[id := rec];
      WriteFile(OperationsFile(ops));
      answer := Accepted;
    }

    /** Whether a VM has an operation in flight, whatever the case it is written in. */
    method IsBusy(ops: Ledger, vm: string) returns (busy: bool)
      ensures busy == Blocked(ops, vm)
    {
      var todo := ops.Keys;
      while todo != {}
        invariant todo <= ops.Keys
        invariant forall k | k in ops && k !in todo :: !(ops[k].Pending() && EqualFold(ops[k].op.vm, vm))
        decreases todo
      {
        var k :| k in todo;
        if ops[k].Pending() && EqualFold(ops[k].op.vm, vm) {
          return true;
        }
        todo := todo - {k};
      }
      busy := false;
    }

    /** The record of a new operation: its id, its deadline unless it has one, and the audit entry it
        answers for. */
    method Issue(op: Operation, agentID: string, auditID: string, id: string, now: int) returns (rec: OperationRecord)
      ensures rec == Issued(agentID, auditID, op, id, now)
    {
      var issued := op.(id := id, createdAtUnix := now);
      if issued.notAfterUnix == 0 {
        issued := issued.(notAfterUnix := now + OPERATION_TTL);
      }
      if issued.actionID == "" {
        issued := issued.(actionID := auditID);
      }
      rec := OperationRecord(issued, agentID, auditID, None, false, 0, "");
    }

    /** Withdraws an operation nothing has been heard about yet. */
    method CancelOperation(id: string, who: string, now: int) returns (answer: Answer)
      modifies this
      ensures answer == CancelAnswer(Load(old(operations)), id)
      ensures answer == Accepted <==> && id in old(operations) && old(operations)[id].result.None?
                                      && old(operations)[id].cancelledAtUnix == 0
      ensures answer == Accepted ==>
                && Contents() == old(Contents()).(
                     operations := Load(old(operations))[id := Withdrawn(Load(old(operations))[id], who, now)])
                && written == old(written) + [OperationsFile(operations)]
      ensures answer != Accepted ==> Contents() == old(Contents()) && written == old(written)
    {
      var ops := LoadOperations();
      if id !in ops {
        return NoSuchOperation;
      }
      var rec := ops[id];
      if rec.Started() {
        if rec.result.value.Terminal() {
          return AlreadyReported;
        }
        return AlreadyRunning;
      }
      if !rec.Pending() {
        return NotPending;
      }
      rec := rec.(cancelledAtUnix := now, cancelledBy := who);
      ops := ops[id := rec];
      WriteFile(OperationsFile(ops));
      answer := Accepted;
    }

    /** What an agent should currently execute, whatever order the ledger is ranged over. */
    method PendingOperationsFor(agentID: string) returns (list: seq<Operation>)
      requires KeyedByID(operations)
      ensures IsPublication(list, Load(operations), agentID)
      ensures forall o :: o in list <==>
                exists id :: id in operations && operations[id].agentID == agentID && Outstanding(operations[id])
                             && operations[id].op == o
      ensures forall i, j | 0 <= i < j < |list| :: Less(list[i].id, list[j].id)
    {
      list := GatherPending(agentID);
      PublicationIs(list, operations, agentID);
    }

    method GatherPending(agentID: string) returns (list: seq<Operation>)
      requires KeyedByID(operations)
      ensures IsPublication(list, Load(operations), agentID)
    {
      var ops := LoadOperations();
      list := [];
      var todo := ops.Keys;
      ghost var picked: set<Operation> := {};
      while todo != {}
        invariant todo <= ops.Keys
        invariant picked == set id | id in ops && id !in todo && ops[id].agentID == agentID && ops[id].Pending() ::
                    ops[id].op
        invariant multiset(list) == multiset(picked)
        decreases todo
      {
        var id :| id in todo;
        if ops[id].agentID == agentID && ops[id].Pending() {
          assert ops[id].op !in picked by {
            assert forall k | k in ops :: ops[k].op.id == k;
          }
          list := list + [ops[id].op];
          picked := picked + {ops[id].op};
        }
        todo := todo - {id};
      }
      assert picked == PublishedSet(ops, agentID);
      SortedIsPublication(list, ops, agentID);
      list := SortBy(ByID, list);
    }

    // ----- agents and reports -----

    method AgentIDForHost(host: string) returns (id: string)
      ensures id == AgentFor(agents, host)
    {
      var roster := SortBy(ByHostname, agents);
      for i := 0 to |roster|
        invariant FirstServing(roster, host) == FirstServing(roster[i..], host)
      {
        if !roster[i].revoked && EqualFold(roster[i].hostname, host) {
          return roster[i].id;
        }
      }
      id := "";
    }

    method HostnameForAgent(agentID: string) returns (host: string)
      ensures host == HostnameFor(agents, agentID)
    {
      var roster := SortBy(ByHostname, agents);
      for i := 0 to |roster|
        invariant FirstHostname(roster, agentID) == FirstHostname(roster[i..], agentID)
      {
        if roster[i].id == agentID {
          return roster[i].hostname;
        }
      }
      host := "";
    }

    /** The single directory a domain's disks are in, from its agent's own last report. */
    method FindSingleDiskDir(agentID: string, vm: string) returns (dir: Option<string>)
      ensures dir == SingleDiskDir(reports, agentID, vm)
    {
      if agentID !in reports {
        return None;
      }
      var domains := reports[agentID].domains;
      for i := 0 to |domains|
        invariant FirstNamed(domains, vm) == FirstNamed(domains[i..], vm)
      {
        if EqualFold(domains[i].name, vm) {
          var disks := domains[i].disks;
          dir := None;
          for k := 0 to |disks|
            invariant dir.None? ==> DiskDirs(disks[..k]) == {}
            invariant dir.Some? ==> DiskDirs(disks[..k]) == {dir.value}
          {
            assert disks[..k + 1] == disks[..k] + [disks[k]];
            assert DiskDirs(disks[..k + 1])
                   == DiskDirs(disks[..k]) + (if disks[k].path != "" then {DirOf(disks[k].path)} else {});
            if disks[k].path != "" {
              var here := DirOf(disks[k].path);
              if dir == None {
                dir := Some(here);
              } else if dir.value != here {
                assert dir.value in DiskDirs(disks[..k + 1]) && here in DiskDirs(disks[..k + 1]);
                assert DiskDirs(disks[..k + 1]) <= DiskDirs(disks);
                return None;
              }
            }
          }
          assert disks[..|disks|] == disks;
          return;
        }
      }
      dir := None;
    }

    /** Stores an inventory, and stamps its agent as seen. */
    method SaveReport(agentID: string, rep: Report, now: int)
      modifies this
      ensures Contents() == Saved(old(Contents()), agentID, rep, now)
      ensures written == old(written) + SaveWrites(old(Contents()), agentID, rep, now)
    {
      WriteFile(ReportFile(agentID, rep));
      var loaded := SortBy(ByHostname, agents);
      var list := new Agent[|loaded|](i requires 0 <= i < |loaded| => loaded[i]);
      for i := 0 to list.Length
        invariant forall k | 0 <= k < list.Length ::
                    list[k] == if k < i then SeenAgent(loaded[k], agentID, rep, now) else loaded[k]
        modifies list
      {
        if list[i].id == agentID {
          list[i] := list[i].(lastSeenAt := now);
          if rep.agentVersion != "" {
            list[i] := list[i].(agentVersion := rep.agentVersion);
          }
          if rep.mode != "" {
            list[i] := list[i].(mode := rep.mode);
          }
        }
      }
      assert list[..] == Seen(loaded, agentID, rep, now);
      WriteFile(AgentsFile(list[..]));
    }

    // ----- schedules -----

    method SetScheduleEntry(agentID: string, entry: ScheduleEntry)
      modifies this
      ensures Contents() == old(Contents()).(schedules := SetEntry(old(schedules), agentID, entry))
      ensures written == old(written) + [SchedulesFile(schedules)]
    {
      var entries := ReplaceOrAppend(ListOf(schedules, agentID), entry);
      WriteFile(SchedulesFile(schedules[agentID := SortBy(ByVM, entries)]));
    }

    method DeleteScheduleEntry(agentID: string, vm: string)
      modifies this
      ensures Contents() == old(Contents()).(schedules := DeleteEntry(old(schedules), agentID, vm))
      ensures written == old(written) + [SchedulesFile(schedules)]
    {
      var entries := Decoded(ListOf(schedules, agentID));
      var kept := FilterAllInPlace(entries, vm);
      WriteFile(SchedulesFile(schedules[agentID := entries[..kept]]));
    }

    method SetScheduleEnabled(agentID: string, vm: string, enabled: bool)
      modifies this
      ensures Contents() == old(Contents()).(schedules := SetEnabled(old(schedules), agentID, vm, enabled))
      ensures written == old(written) + EditWrites(old(schedules), Enabling(agentID, vm, enabled))
    {
      var entries := Decoded(ListOf(schedules, agentID));
      var found := FlagInPlace(entries, vm, enabled);
      if found {
        WriteFile(SchedulesFile(schedules[agentID := entries[..]]));
      }
    }

    /** Moves an entry to another agent in one write, so that no crash finds it under neither. */
    method MoveScheduleEntry(from: string, to: string, vm: string, newVM: string)
      modifies this
      ensures var edit := Moving(from, to, vm, newVM, HostnameFor(old(agents), from),
                                 SingleDiskDir(old(reports), from, vm));
              && Contents() == old(Contents()).(schedules := Edited(old(schedules), edit))
              && written == old(written) + EditWrites(old(schedules), edit)
    {
      MoveWrites(schedules, from, to, vm, newVM, HostnameFor(agents, from), SingleDiskDir(reports, from, vm));
      var sched := Relocate(from, to, vm, newVM);
      if sched == None {
        return;
      }
      WriteFile(SchedulesFile(sched.value));
    }

    /** The estate with an entry taken from one agent's list and put on the other's, if there is such
        an entry. */
    method Relocate(from: string, to: string, vm: string, newVM: string) returns (next: Option<Estate>)
      ensures var was := At(schedules, from, vm);
              next == if was.None? then None
                      else Some(SetEntry(Vacated(schedules, from, vm), to,
                                         Redirected(was.value, newVM, HostnameFor(agents, from),
                                                    SingleDiskDir(reports, from, vm))))
    {
      var source := Decoded(ListOf(schedules, from));
      var kept, found := FilterFirstInPlace(source, vm);
      if found == None {
        return None;
      }
      var sched := schedules[from := source[..kept]];
      assert sched == Vacated(schedules, from, vm);
      var moved := Redirect(found.value, from, vm, newVM);
      var entries := ReplaceOrAppend(ListOf(sched, to), moved);
      next := Some(sched[to := SortBy(ByVM, entries)]);
    }

    /** The moved entry, field by field. */
    method Redirect(e: ScheduleEntry, from: string, vm: string, newVM: string) returns (moved: ScheduleEntry)
      ensures moved == Redirected(e, newVM, HostnameFor(agents, from), SingleDiskDir(reports, from, vm))
    {
      moved := e;
      var fromHost := HostnameForAgent(from);
      moved := moved.(vm := newVM);
      moved := moved.(targetHost := fromHost);
      moved := moved.(enabled := false);
      var dir := FindSingleDiskDir(from, vm);
      if dir.Some? {
        moved := moved.(profile := moved.profile.(targetDiskPath := dir.value));
      }
    }

    // ----- results -----

    method CompleteAudit(id: string, outcome: string, now: int)
      modifies this
      ensures Contents() == old(Contents()).(audit := AuditClosed(old(audit), id, outcome, now))
      ensures written == old(written) + [AuditFile(audit)]
    {
      var loaded := audit;
      var entries := new AuditEntry[|loaded|](i requires 0 <= i < |loaded| => loaded[i]);
      for i := 0 to entries.Length
        invariant forall k | 0 <= k < entries.Length ::
                    entries[k] == if k < i then ClosedEntry(loaded[k], id, outcome, now) else loaded[k]
        modifies entries
      {
        if entries[i].id == id {
          entries[i] := entries[i].(outcome := outcome);
          entries[i] := entries[i].(doneUnix := now);
        }
      }
      assert entries[..] == AuditClosed(loaded, id, outcome, now);
      WriteFile(AuditFile(entries[..]));
    }

    /** Makes the schedule agree with an outcome; false when the outcome cannot be followed. */
    method ApplyFollowUp(rec: OperationRecord, res: OperationResult) returns (ok: bool)
      modifies this
      ensures var action := Decide(old(agents), old(reports), rec, res);
              && (ok <==> !action.Stranded?)
              && (!action.Do? ==> Contents() == old(Contents()) && written == old(written))
              && (action.Do? ==>
                    && Contents() == old(Contents()).(schedules := Edited(old(schedules), action.edit))
                    && written == old(written) + EditWrites(old(schedules), action.edit))
    {
      if res.state != STATE_DONE {
        return true;
      }
      var peerVM := if rec.op.peerVM == "" then rec.op.vm else rec.op.peerVM;
      if rec.op.kind == OP_PROMOTE || rec.op.kind == OP_RESTORE {
        if rec.op.peerHost == "" {
          return true;
        }
        var source := AgentIDForHost(rec.op.peerHost);
        if source == "" {
          return true;
        }
        SetScheduleEnabled(source, peerVM, false);
      } else if rec.op.kind == OP_INVERT {
        if rec.op.peerHost == "" {
          return true;
        }
        var successor := AgentIDForHost(rec.op.peerHost);
        if successor == "" {
          return false;
        }
        MoveScheduleEntry(rec.agentID, successor, rec.op.vm, peerVM);
      } else if rec.op.kind == OP_REINIT || rec.op.kind == OP_FORCE_CLEAN {
        SetScheduleEnabled(rec.agentID, rec.op.vm, true);
      }
      ok := true;
    }

    /** What belongs to an outcome and not to progress: its consequence, then its audit entry. */
    method FollowThrough(ghost was: Files, ghost effects: seq<Effect>, ghost before: seq<Write>,
                         rec: OperationRecord, agentID: string, res: OperationResult,
                         clock: nat -> int, reading: nat)
      returns (ok: bool, next: nat)
      requires rec.agentID == agentID && !(rec.result.Some? && rec.followUpDone)
      requires reading == |effects| && Reached(was, effects, clock, Contents(), before, written)
      modifies this
      ensures !ok ==>
                && res.Terminal() && !rec.followUpDone && Strands(was, Consequence(rec, res))
                && Contents() == old(Contents()) && written == old(written)
      ensures ok ==>
                && next == |effects + EffectsOf(rec, agentID, res)|
                && Reached(was, effects + EffectsOf(rec, agentID, res), clock, Contents(), before, written)
    {
      ok, next := true, reading;
      if !res.Terminal() {
        assert effects + [] == effects;
        return;
      }
      ghost var first: seq<Effect> := [];
      if !rec.followUpDone {
        ReachesConsequence(was, effects, clock, Contents(), before, written, rec, res);
        ok := ApplyFollowUp(rec, res);
        if !ok {
          return;
        }
        first := [Consequence(rec, res)];
        next := next + 1;
      } else {
        assert effects + [] == effects;
      }
      if rec.auditID != "" {
        var outcome := res.state;
        if res.error != "" {
          outcome := res.state + ": " + res.error;
        }
        ReachesClosing(was, effects + first, clock, Contents(), before, written, rec.auditID, outcome);
        CompleteAudit(rec.auditID, outcome, clock(next));
        next := next + 1;
        assert effects + first + [Closing(rec.auditID, outcome)] == effects + (first + [Closing(rec.auditID, outcome)]);
      } else {
        assert first + [] == first;
      }
    }

    /** Applies the outcomes an agent reported: consequences first, the ledger last and once. */
    method RecordOperationResults(agentID: string, results: seq<OperationResult>, clock: nat -> int)
      returns (answer: Answer)
      modifies this
      ensures answer == Record(old(Contents()), agentID, results, clock).answer
      ensures written == old(written) + Record(old(Contents()), agentID, results, clock).writes
      ensures Contents() == Recorded(old(Contents()), agentID, results, clock)
    {
      ghost var was := Contents();
      var ops := LoadOperations();
      ghost var loaded := ops;
      var changed := false;
      ghost var effects: seq<Effect> := [];
      var readings: nat := 0;  // how far the clock has been read
      for i := 0 to |results|
        invariant Plan(ops, changed, effects) == PlanFor(loaded, agentID, results[..i])
        invariant readings == |effects|
        invariant Reached(was, effects, clock, Contents(), old(written), written)
      {
        var res := results[i];
        OneMorePlanned(loaded, agentID, results, i);
        // Unknown here, another agent's, or finished with already: not an error, nothing to do.
        if res.id in ops && ops[res.id].agentID == agentID && !(ops[res.id].result.Some? && ops[res.id].followUpDone) {
          var rec := ops[res.id];
          var ok, next := FollowThrough(was, effects, old(written), rec, agentID, res, clock, readings);
          if !ok {
            StopsHere(was, agentID, results, i, clock);
            return NoAgentForPeer;
          }
          if res.Terminal() {
            rec := rec.(followUpDone := true);
          }
          rec := rec.(result := Some(res));
          ops := ops[res.id := rec];
          changed := true;
          effects := effects + EffectsOf(PlanFor(loaded, agentID, results[..i]).ops[res.id], agentID, res);
          readings := next;
        }
      }
      assert results[..|results|] == results;
      EndsHere(was, agentID, results, clock, Contents(), old(written), written);
      if changed {
        WriteFile(OperationsFile(ops));
      }
      answer := Accepted;
    }

    /** One report request: the inventory is stored before its results are looked at. */
    method HandleReport(agentID: string, rep: Report, results: seq<OperationResult>, now: int, clock: nat -> int)
      returns (answer: Answer)
      modifies this
      ensures answer == Handle(old(Contents()), agentID, rep, results, now, clock).answer
      ensures written == old(written) + Handle(old(Contents()), agentID, rep, results, now, clock).writes
      ensures Contents() == Replay(old(Contents()), Handle(old(Contents()), agentID, rep, results, now, clock).writes)
    {
      HandledFiles(Contents(), agentID, rep, results, now, clock);
      ghost var saving := SaveWrites(Contents(), agentID, rep, now);
      SaveReport(agentID, rep, now);
      ghost var recording := Record(Contents(), agentID, results, clock).writes;
      answer := RecordOperationResults(agentID, results, clock);
      Regroup(old(written), saving, recording);
    }

    // ----- configuration -----

    /** An agent's configuration: the settings, its own schedule, its pending operations, and the whole
        estate's cadence, gathered in some order of the agents. */
    method AgentConfigFor(agentID: string, settings: Settings) returns (cfg: AgentConfig, ghost order: seq<string>)
      requires KeyedByID(operations)
      ensures Listing(order, schedules.Keys)
      ensures cfg.schedule == ListOf(schedules, agentID)
      ensures IsPublication(cfg.operations, Load(operations), agentID)
      ensures cfg == AgentConfig(
                       settings.reportIntervalSeconds, settings.pollWaitSeconds, CadenceAlong(schedules, order),
                       cfg.schedule, settings.templates, cfg.operations, settings.maxConcurrentSyncs,
                       settings.targetReplicationSlots, settings.shutdownTimeoutSec)
    {
      var pending := PendingOperationsFor(agentID);
      cfg := AgentConfig(
        settings.reportIntervalSeconds, settings.pollWaitSeconds, map[], ListOf(schedules, agentID),
        settings.templates, pending, settings.maxConcurrentSyncs, settings.targetReplicationSlots,
        settings.shutdownTimeoutSec);
      var cadence: Cadence := map[];
      order := [];
      var todo := schedules.Keys;
      while todo != {}
        invariant todo <= schedules.Keys
        invariant Listing(order, schedules.Keys - todo)
        invariant cadence == CadenceAlong(schedules, order)
        decreases todo
      {
        var a :| a in todo;
        var entries := schedules[a];
        ghost var start := cadence;
        for i := 0 to |entries|
          invariant cadence == WithEntries(start, entries[..i])
        {
          assert entries[..i + 1][..i] == entries[..i];
          if entries[i].enabled && entries[i].intervalSeconds > 0 {
            cadence := cadence[entries[i].vm := entries[i].intervalSeconds];
          }
        }
        assert entries[..|entries|] == entries;
        assert (order + [a])[..|order|] == order;
        order := order + [a];
        todo := todo - {a};
      }
      cfg := cfg.(cadenceSeconds := cadence);
    }
  }

  lemma SortedIsPublication(list: seq<Operation>, ops: Ledger, agentID: string)
    requires multiset(list) == multiset(PublishedSet(ops, agentID))
    ensures IsPublication(SortBy(ByID, list), ops, agentID)
  {
    LessIsStrictTotal();
    SortSorts(ByID, list);
    SortPermutes(ByID, list);
  }

  lemma MoveWrites(sched: Estate, from: string, to: string, vm: string, newVM: string, host: string,
                   dir: Option<string>)
    ensures var edit := Moving(from, to, vm, newVM, host, dir);
            var entry := At(sched, from, vm);
            if entry.None? then Edited(sched, edit) == sched && EditWrites(sched, edit) == []
            else var after := SetEntry(Vacated(sched, from, vm), to, Redirected(entry.value, newVM, host, dir));
                 Edited(sched, edit) == after && EditWrites(sched, edit) == [SchedulesFile(after)]
  {
    if At(sched, from, vm).Some? { MoveIsSetting(sched, from, to, vm, newVM, host, dir); }
  }

  /** How far a batch has got: these effects have been carried out, none of them stranded. */
  ghost predicate Reached(was: Files, effects: seq<Effect>, clock: nat -> int,
                          now: Files, before: seq<Write>, written: seq<Write>)
  {
    && written == before + WritesOf(was, effects, clock)
    && now == PerformAll(was, effects, clock)
    && AllFollow(was, effects)
  }

  lemma AppendEffect(f: Files, effects: seq<Effect>, e: Effect, clock: nat -> int)
    ensures WritesOf(f, effects + [e], clock)
            == WritesOf(f, effects, clock) + EffectWrites(PerformAll(f, effects, clock), e, clock(|effects|))
    ensures PerformAll(f, effects + [e], clock)
            == Replay(PerformAll(f, effects, clock), EffectWrites(PerformAll(f, effects, clock), e, clock(|effects|)))
    ensures PerformAll(f, effects, clock).agents == f.agents && PerformAll(f, effects, clock).reports == f.reports
  {
    assert (effects + [e])[..|effects|] == effects;
    ReplayConcat(f, WritesOf(f, effects, clock), EffectWrites(PerformAll(f, effects, clock), e, clock(|effects|)));
    PerformIsTwoFiles(f, effects, clock);
  }

  lemma ReachesOneMore(was: Files, effects: seq<Effect>, clock: nat -> int, now: Files,
                       before: seq<Write>, written: seq<Write>, e: Effect)
    requires Reached(was, effects, clock, now, before, written) && AllFollow(was, effects + [e])
    ensures now.agents == was.agents && now.reports == was.reports
    ensures var ws := EffectWrites(now, e, clock(|effects|));
            Reached(was, effects + [e], clock, Replay(now, ws), before, written + ws)
  {
    AppendEffect(was, effects, e, clock);
    Regroup(before, WritesOf(was, effects, clock), EffectWrites(now, e, clock(|effects|)));
  }

  lemma ReachesConsequence(was: Files, effects: seq<Effect>, clock: nat -> int, now: Files,
                           before: seq<Write>, written: seq<Write>, rec: OperationRecord, res: OperationResult)
    requires Reached(was, effects, clock, now, before, written)
    ensures now.agents == was.agents && now.reports == was.reports
    ensures var action := Decide(now.agents, now.reports, rec, res);
            var e := Consequence(rec, res);
            && (action == Nothing ==> Reached(was, effects + [e], clock, now, before, written))
            && (action.Do? ==>
                  Reached(was, effects + [e], clock, now.(schedules := Edited(now.schedules, action.edit)),
                          before, written + EditWrites(now.schedules, action.edit)))
  {
    var e := Consequence(rec, res);
    PerformIsTwoFiles(was, effects, clock);
    if !Strands(was, e) {
      OneMoreFollows(was, effects, e);
      ReachesOneMore(was, effects, clock, now, before, written, e);
      ConsequenceWrites(now, rec, res, clock(|effects|));
    }
  }

  lemma ConsequenceWrites(f: Files, rec: OperationRecord, res: OperationResult, at: int)
    ensures var action, ws := Decide(f.agents, f.reports, rec, res), EffectWrites(f, Consequence(rec, res), at);
            && (action == Nothing ==> ws == [] && Replay(f, ws) == f)
            && (action.Do? ==> ws == EditWrites(f.schedules, action.edit)
                               && Replay(f, ws) == f.(schedules := Edited(f.schedules, action.edit)))
  {
    var action := Decide(f.agents, f.reports, rec, res);
    if action.Do? { ScheduleWrites(f, action.edit); }
  }

  lemma ReachesClosing(was: Files, effects: seq<Effect>, clock: nat -> int, now: Files,
                       before: seq<Write>, written: seq<Write>, id: string, outcome: string)
    requires Reached(was, effects, clock, now, before, written)
    ensures var after := AuditClosed(now.audit, id, outcome, clock(|effects|));
            Reached(was, effects + [Closing(id, outcome)], clock, now.(audit := after), before,
                    written + [AuditFile(after)])
  {
    OneMoreFollows(was, effects, Closing(id, outcome));
    ReachesOneMore(was, effects, clock, now, before, written, Closing(id, outcome));
    AuditWrites(now, AuditClosed(now.audit, id, outcome, clock(|effects|)));
  }

  lemma OneMorePlanned(ops: Ledger, agentID: string, results: seq<OperationResult>, i: nat)
    requires i < |results|
    ensures PlanFor(ops, agentID, results[..i + 1]) == Take(PlanFor(ops, agentID, results[..i]), agentID, results[i])
  {
    assert results[..i + 1][..i] == results[..i];
  }

  /** A batch none of whose effects stranded ends with the ledger, if it changed. */
  lemma EndsHere(was: Files, agentID: string, results: seq<OperationResult>, clock: nat -> int,
                 now: Files, before: seq<Write>, written: seq<Write>)
    requires Reached(was, PlanOf(was, agentID, results).effects, clock, now, before, written)
    ensures var plan := PlanOf(was, agentID, results);
            && Record(was, agentID, results, clock).answer == Accepted
            && before + Record(was, agentID, results, clock).writes
               == written + (if plan.changed then [OperationsFile(plan.ops)] else [])
            && Recorded(was, agentID, results, clock) == if plan.changed then now.(operations := plan.ops) else now
  {
    var plan := PlanOf(was, agentID, results);
    CompletesIsAccepted(was, agentID, results, clock);
    CompletedFiles(was, agentID, results, clock);
    PerformIsTwoFiles(was, plan.effects, clock);
  }

  /** A batch whose i-th result is the first that cannot be followed up stops with the writes of
      the results before it. */
  lemma StopsHere(f: Files, agentID: string, results: seq<OperationResult>, i: nat, clock: nat -> int)
    requires i < |results|
    requires var plan := PlanFor(Load(f.operations), agentID, results[..i]);
             && AllFollow(f, plan.effects)
             && results[i].id in plan.ops && plan.ops[results[i].id].agentID == agentID
             && !Concluded(plan.ops[results[i].id]) && !plan.ops[results[i].id].followUpDone
             && results[i].Terminal() && Strands(f, Consequence(plan.ops[results[i].id], results[i]))
    ensures Record(f, agentID, results, clock)
            == Outcome(WritesOf(f, PlanFor(Load(f.operations), agentID, results[..i]).effects, clock), NoAgentForPeer)
  {
    var loaded := Load(f.operations);
    var plan, next := PlanFor(loaded, agentID, results[..i]), PlanFor(loaded, agentID, results[..i + 1]);
    var whole := PlanFor(loaded, agentID, results);
    OneMorePlanned(loaded, agentID, results, i);
    PlanGrows(loaded, agentID, results, i + 1);
    var k := |plan.effects|;
    var e := Consequence(plan.ops[results[i].id], results[i]);
    assert next.effects[k] == e;
    assert whole.effects[k] == e && whole.effects[..k] == plan.effects;
    forall j | 0 <= j < k ensures !Strands(f, whole.effects[j]) {
      assert whole.effects[j] == plan.effects[j];
    }
    assert FirstStranded(f, whole.effects) == k;
  }
}
