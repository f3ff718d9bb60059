/** Recording a batch of results as the sequence of file writes it makes, and what survives a
    crash between two of them. */
module Recording {
  import opened Text
  import opened Sorting
  import opened Records
  import opened Schedules
  import opened Operations
  import opened FollowUps

  /** The files of the store. */
  datatype Files = Files(
    agents: seq<Agent>, reports: map<string, Report>, schedules: Estate, audit: seq<AuditEntry>, operations: Ledger)

  /** One atomic replacement of one file. */
  datatype Write =
    | AgentsFile(agents: seq<Agent>)
    | ReportFile(agentID: string, report: Report)
    | SchedulesFile(schedules: Estate)
    | AuditFile(audit: seq<AuditEntry>)
    | OperationsFile(operations: Ledger)

  function Install(f: Files, w: Write): Files {
    match w
    case AgentsFile(agents) => f.(agents := agents)
    case ReportFile(agentID, report) => f.(reports := f.reports[agentID := report])
    case SchedulesFile(schedules) => f.(schedules := schedules)
    case AuditFile(audit) => f.(audit := audit)
    case OperationsFile(operations) => f.(operations := operations)
  }

  /** The files as a crash after these writes leaves them. */
  function Replay(f: Files, writes: seq<Write>): Files {
    if writes == [] then f else Install(Replay(f, writes[..|writes| - 1]), writes[|writes| - 1])
  }

  lemma {:induction false} ReplayConcat(f: Files, a: seq<Write>, b: seq<Write>)
    ensures Replay(f, a + b) == Replay(Replay(f, a), b)
  {
    if b == [] {
      assert a + b == a;
    } else {
      assert (a + b)[..|a + b| - 1] == a + b[..|b| - 1];
      ReplayConcat(f, a, b[..|b| - 1]);
    }
  }

  // ----- the audit log -----

  function ClosedEntry(e: AuditEntry, id: string, outcome: string, at: int): AuditEntry {
    if e.id == id then e.(outcome := outcome, doneUnix := at) else e
  }

  function AuditClosed(entries: seq<AuditEntry>, id: string, outcome: string, at: int): seq<AuditEntry> {
    seq(|entries|, i requires 0 <= i < |entries| => ClosedEntry(entries[i], id, outcome, at))
  }

  lemma AuditClosedIs(entries: seq<AuditEntry>, id: string, outcome: string, at: int)
    ensures var now := AuditClosed(entries, id, outcome, at);
            && |now| == |entries|
            && forall i | 0 <= i < |entries| ::
                 now[i] == if entries[i].id == id then entries[i].(outcome := outcome, doneUnix := at) else entries[i]
  {}

  /** The log without the instants its entries were closed at. */
  function Outcomes(entries: seq<AuditEntry>): seq<AuditEntry> {
    seq(|entries|, i requires 0 <= i < |entries| => entries[i].(doneUnix := 0))
  }

  // ----- effects as writes -----

  /** The write an effect makes: none when a follow-up finds nothing to change. */
  ghost function EffectWrites(f: Files, e: Effect, at: int): (ws: seq<Write>)
    ensures |ws| <= 1
  {
    match e
    case Consequence(rec, res) =>
      var action := Decide(f.agents, f.reports, rec, res);
      if action.Do? then EditWrites(f.schedules, action.edit) else []
    case Closing(id, outcome) => [AuditFile(AuditClosed(f.audit, id, outcome, at))]
  }

  /** Whether an edit finds the entry it is about. */
  predicate Touches(sched: Estate, e: Edit) {
    match e
    case Enabling(a, vm, _) => Mentions(ListOf(sched, a), vm)
    case Moving(from, _, vm, _, _, _) => At(sched, from, vm).Some?
    case _ => true
  }

  /** An edit writes the schedules once, unless it finds nothing to switch or to move. */
  lemma EditWritesAre(sched: Estate, e: Edit)
    ensures e.Setting? || e.Deleting? ==> EditWrites(sched, e) == [SchedulesFile(Edited(sched, e))]
    ensures e.Enabling? ==>
              EditWrites(sched, e)
              == if At(sched, e.agentID, e.vm).Some? then [SchedulesFile(Edited(sched, e))] else []
    ensures e.Moving? ==>
              EditWrites(sched, e) == if At(sched, e.from, e.vm).Some? then [SchedulesFile(Edited(sched, e))] else []
  {
    if e.Enabling? { AbsentIsUnlisted(ListOf(sched, e.agentID), e.vm); }
  }

  /** A move makes at most one write, so a crash finds the entry either where it was, untouched, or
      at its destination and no longer where it was: under neither agent, or under both, never. */
  lemma MoveHasNoMiddle(f: Files, e: Edit, k: nat)
    requires e.Moving? && !(e.from == e.to && e.vm == e.newVM)
    requires WellOrdered(f.schedules) && At(f.schedules, e.from, e.vm).Some?
    requires k <= |EditWrites(f.schedules, e)|
    ensures |EditWrites(f.schedules, e)| == 1
    ensures var cut := Replay(f, EditWrites(f.schedules, e)[..k]);
            var entry := At(f.schedules, e.from, e.vm).value;
            || cut == f
            || (At(cut.schedules, e.from, e.vm).None?
                && At(cut.schedules, e.to, e.newVM) == Some(Redirected(entry, e.newVM, e.host, e.dir)))
  {
    var ws := EditWrites(f.schedules, e);
    assert k == 0 ==> ws[..k] == [];
    if k == 1 {
      assert ws[..k] == ws;
      ScheduleWrites(f, e);
      MovedAtOnce(f.schedules, e);
    }
  }

  lemma MovedAtOnce(sched: Estate, e: Edit)
    requires e.Moving? && !(e.from == e.to && e.vm == e.newVM)
    requires WellOrdered(sched) && At(sched, e.from, e.vm).Some?
    ensures At(Edited(sched, e), e.from, e.vm).None?
    ensures At(Edited(sched, e), e.to, e.newVM)
            == Some(Redirected(At(sched, e.from, e.vm).value, e.newVM, e.host, e.dir))
  {
    EditIsExact(sched, e, e.from, e.vm);
    EditIsExact(sched, e, e.to, e.newVM);
  }

  /** The schedule write an edit makes. */
  function EditWrites(sched: Estate, e: Edit): seq<Write> {
    if Touches(sched, e) then [SchedulesFile(Edited(sched, e))] else []
  }

  ghost function PerformAll(f: Files, effects: seq<Effect>, clock: nat -> int): Files {
    Replay(f, WritesOf(f, effects, clock))
  }

  ghost function WritesOf(f: Files, effects: seq<Effect>, clock: nat -> int): seq<Write> {
    if effects == [] then []
    else
      var n := |effects| - 1;
      var before := WritesOf(f, effects[..n], clock);
      before + EffectWrites(Replay(f, before), effects[n], clock(n))
  }

  ghost function EditsOf(agents: seq<Agent>, reports: map<string, Report>, effects: seq<Effect>): seq<Edit> {
    if effects == [] then []
    else
      var e := effects[|effects| - 1];
      var before := EditsOf(agents, reports, effects[..|effects| - 1]);
      if e.Consequence? && Decide(agents, reports, e.rec, e.res).Do?
      then before + [Decide(agents, reports, e.rec, e.res).edit] else before
  }

  function AuditAfter(entries: seq<AuditEntry>, effects: seq<Effect>, clock: nat -> int): seq<AuditEntry> {
    if effects == [] then entries
    else
      var n := |effects| - 1;
      var before := AuditAfter(entries, effects[..n], clock);
      if effects[n].Closing? then AuditClosed(before, effects[n].auditID, effects[n].outcome, clock(n)) else before
  }

  lemma ScheduleWrites(f: Files, e: Edit)
    ensures Replay(f, EditWrites(f.schedules, e)) == f.(schedules := Edited(f.schedules, e))
  {
    if Touches(f.schedules, e) {
      var ws := EditWrites(f.schedules, e);
      assert ws[..0] == [] && Replay(f, ws) == Install(Replay(f, ws[..0]), ws[0]);
    }
  }

  lemma AuditWrites(f: Files, entries: seq<AuditEntry>)
    ensures Replay(f, [AuditFile(entries)]) == f.(audit := entries)
  {
    assert [AuditFile(entries)][..0] == [];
  }

  lemma EditsOfOne(agents: seq<Agent>, reports: map<string, Report>, e: Effect)
    ensures e.Consequence? && Decide(agents, reports, e.rec, e.res).Do? ==>
              EditsOf(agents, reports, [e]) == [Decide(agents, reports, e.rec, e.res).edit]
    ensures !(e.Consequence? && Decide(agents, reports, e.rec, e.res).Do?) ==> EditsOf(agents, reports, [e]) == []
  {
    assert [e][..0] == [];
    assert EditsOf(agents, reports, []) == [];
  }

  /** One effect reaches one file at most. */
  lemma EffectIsOneFile(f: Files, e: Effect, at: int)
    ensures var g := Replay(f, EffectWrites(f, e, at));
            g == f.(schedules := AfterEdits(f.schedules, EditsOf(f.agents, f.reports, [e])),
                    audit := if e.Closing? then AuditClosed(f.audit, e.auditID, e.outcome, at) else f.audit)
  {
    EditsOfOne(f.agents, f.reports, e);
    if e.Closing? {
      AuditWrites(f, AuditClosed(f.audit, e.auditID, e.outcome, at));
    } else if Decide(f.agents, f.reports, e.rec, e.res).Do? {
      var edit := Decide(f.agents, f.reports, e.rec, e.res).edit;
      ScheduleWrites(f, edit);
      assert [edit][..0] == [] && AfterEdits(f.schedules, [edit]) == Edited(AfterEdits(f.schedules, [edit][..0]), edit);
    }
  }

  lemma EditsOfStep(agents: seq<Agent>, reports: map<string, Report>, effects: seq<Effect>)
    requires effects != []
    ensures EditsOf(agents, reports, effects)
            == EditsOf(agents, reports, effects[..|effects| - 1]) + EditsOf(agents, reports, [effects[|effects| - 1]])
  {
    assert [effects[|effects| - 1]][..0] == [];
    assert EditsOf(agents, reports, []) == [];
  }

  /** The files go their own ways: schedules by the edits, the audit log by the closings, and
      nothing else moves. */
  lemma {:induction false} PerformIsTwoFiles(f: Files, effects: seq<Effect>, clock: nat -> int)
    ensures PerformAll(f, effects, clock)
            == f.(schedules := AfterEdits(f.schedules, EditsOf(f.agents, f.reports, effects)),
                  audit := AuditAfter(f.audit, effects, clock))
  {
    if effects != [] {
      var n := |effects| - 1;
      var before := PerformAll(f, effects[..n], clock);
      PerformIsTwoFiles(f, effects[..n], clock);
      ReplayConcat(f, WritesOf(f, effects[..n], clock), EffectWrites(before, effects[n], clock(n)));
      EffectIsOneFile(before, effects[n], clock(n));
      EditsOfStep(f.agents, f.reports, effects);
      AfterEditsConcat(f.schedules, EditsOf(f.agents, f.reports, effects[..n]),
                       EditsOf(f.agents, f.reports, [effects[n]]));
    }
  }

  lemma ShorterCut(f: Files, effects: seq<Effect>, clock: nat -> int, k: nat)
    requires effects != [] && k < |WritesOf(f, effects, clock)|
    ensures var before := WritesOf(f, effects[..|effects| - 1], clock);
            k <= |before| && WritesOf(f, effects, clock)[..k] == before[..k]
  {
    var before := WritesOf(f, effects[..|effects| - 1], clock);
    var more := EffectWrites(Replay(f, before), effects[|effects| - 1], clock(|effects| - 1));
    CutOfConcat(before, more, k);
  }

  lemma CutAtTheEnd(f: Files, effects: seq<Effect>, clock: nat -> int)
    ensures var ws := WritesOf(f, effects, clock);
            Replay(f, ws[..|ws|]) == PerformAll(f, effects[..|effects|], clock)
  {
    CutOfAll(WritesOf(f, effects, clock));
    CutOfAll(effects);
  }

  lemma CutInside(f: Files, effects: seq<Effect>, clock: nat -> int, k: nat, n: nat)
    requires effects != [] && k < |WritesOf(f, effects, clock)| && n < |effects|
    requires var init := effects[..|effects| - 1];
             && k <= |WritesOf(f, init, clock)|
             && Replay(f, WritesOf(f, init, clock)[..k]) == PerformAll(f, init[..n], clock)
    ensures Replay(f, WritesOf(f, effects, clock)[..k]) == PerformAll(f, effects[..n], clock)
  {
    ShorterCut(f, effects, clock, k);
    assert effects[..|effects| - 1][..n] == effects[..n];
  }

  /** A crash between writes is a crash between effects. */
  lemma {:induction false} CutAtEffect(f: Files, effects: seq<Effect>, clock: nat -> int, k: nat) returns (n: nat)
    requires k <= |WritesOf(f, effects, clock)|
    ensures n <= |effects|
    ensures Replay(f, WritesOf(f, effects, clock)[..k]) == PerformAll(f, effects[..n], clock)
  {
    if k == |WritesOf(f, effects, clock)| {
      n := |effects|;
      CutAtTheEnd(f, effects, clock);
    } else {
      ShorterCut(f, effects, clock, k);
      n := CutAtEffect(f, effects[..|effects| - 1], clock, k);
      CutInside(f, effects, clock, k, n);
    }
  }

  // ----- recording a batch -----

  datatype Outcome = Outcome(writes: seq<Write>, answer: Answer)

  ghost predicate Strands(f: Files, e: Effect) {
    e.Consequence? && Decide(f.agents, f.reports, e.rec, e.res).Stranded?
  }

  ghost predicate AllFollow(f: Files, effects: seq<Effect>) {
    forall e | e in effects :: !Strands(f, e)
  }

  lemma OneMoreFollows(f: Files, effects: seq<Effect>, e: Effect)
    requires AllFollow(f, effects) && !Strands(f, e)
    ensures AllFollow(f, effects + [e])
  {}

  /** The position of the first follow-up that cannot be carried out, or the length. */
  ghost function FirstStranded(f: Files, effects: seq<Effect>): (n: nat)
    ensures n <= |effects|
    ensures forall i | 0 <= i < n :: !Strands(f, effects[i])
    ensures n < |effects| ==> Strands(f, effects[n])
  {
    if effects == [] then 0
    else
      var n := FirstStranded(f, effects[..|effects| - 1]);
      if n < |effects| - 1 then n
      else if Strands(f, effects[n]) then n else n + 1
  }

  ghost function PlanOf(f: Files, agentID: string, results: seq<OperationResult>): Plan {
    PlanFor(Load(f.operations), agentID, results)
  }

  ghost predicate Completes(f: Files, agentID: string, results: seq<OperationResult>) {
    AllFollow(f, PlanOf(f, agentID, results).effects)
  }

  /** The consequences first, each written as it happens, and the ledger once at the end; the
      first follow-up that cannot be carried out ends the batch with the ledger unwritten. */
  ghost function Record(f: Files, agentID: string, results: seq<OperationResult>, clock: nat -> int): Outcome {
    var plan := PlanOf(f, agentID, results);
    var n := FirstStranded(f, plan.effects);
    if n < |plan.effects| then Outcome(WritesOf(f, plan.effects[..n], clock), NoAgentForPeer)
    else Outcome(WritesOf(f, plan.effects, clock) + (if plan.changed then [OperationsFile(plan.ops)] else []), Accepted)
  }

  ghost function Recorded(f: Files, agentID: string, results: seq<OperationResult>, clock: nat -> int): Files {
    Replay(f, Record(f, agentID, results, clock).writes)
  }

  lemma CompletesIsAccepted(f: Files, agentID: string, results: seq<OperationResult>, clock: nat -> int)
    ensures Record(f, agentID, results, clock).answer == Accepted <==> Completes(f, agentID, results)
  {}

  /** A completed batch, file by file. */
  lemma CompletedFiles(f: Files, agentID: string, results: seq<OperationResult>, clock: nat -> int)
    requires Completes(f, agentID, results)
    ensures var plan := PlanOf(f, agentID, results);
            Recorded(f, agentID, results, clock)
            == f.(schedules := AfterEdits(f.schedules, EditsOf(f.agents, f.reports, plan.effects)),
                  audit := AuditAfter(f.audit, plan.effects, clock),
                  operations := if plan.changed then plan.ops else f.operations)
  {
    var plan := PlanOf(f, agentID, results);
    PerformIsTwoFiles(f, plan.effects, clock);
    CompletesIsAccepted(f, agentID, results, clock);
    var ws := WritesOf(f, plan.effects, clock);
    if plan.changed {
      var all := ws + [OperationsFile(plan.ops)];
      assert all[..|all| - 1] == ws;
    } else {
      assert ws + [] == ws;
    }
  }

  // ----- crash and retry -----

  /** Two rosters that resolve every host and every agent alike. */
  ghost predicate Alike(a: seq<Agent>, b: seq<Agent>) {
    && (forall host :: AgentFor(a, host) == AgentFor(b, host))
    && (forall id :: HostnameFor(a, id) == HostnameFor(b, id))
  }

  /** What a retry needs: for each inversion of an agent still to be followed up, its peer is served
      by another agent, and the VM is listed at most once on the agent's own schedule. */
  ghost predicate SafeToRetry(f: Files, agentID: string) {
    forall id | id in f.operations ::
      var rec := f.operations[id];
      rec.agentID == agentID && rec.op.kind == OP_INVERT && !rec.followUpDone ==>
        AgentFor(f.agents, rec.op.peerHost) != agentID && Once(ListOf(f.schedules, agentID), rec.op.vm)
  }

  /** Every planned consequence is one of a record of the reporting agent still to be followed up. */
  lemma {:induction false} ConsequencesAreOwn(ops: Ledger, agentID: string, results: seq<OperationResult>, e: Effect)
    requires e in PlanFor(ops, agentID, results).effects && e.Consequence?
    ensures e.rec.agentID == agentID && e.res.id in ops
    ensures ops[e.res.id].op == e.rec.op && ops[e.res.id].agentID == agentID && !ops[e.res.id].followUpDone
  {
    var n := |results| - 1;
    var p := PlanFor(ops, agentID, results[..n]);
    if e in p.effects {
      ConsequencesAreOwn(ops, agentID, results[..n], e);
    } else {
      PlanIsPointwise(ops, agentID, results[..n]);
      AgentStays(e.res.id, ops[e.res.id], agentID, results[..n]);
    }
  }

  /** The schedule edits of a batch are the reporting agent's own, each moved entry listed once. */
  lemma {:induction false} EditsAreSafe(f: Files, agentID: string, results: seq<OperationResult>, effects: seq<Effect>)
    requires SafeToRetry(f, agentID)
    requires forall e | e in effects :: e in PlanOf(f, agentID, results).effects
    ensures OwnEdits(agentID, EditsOf(f.agents, f.reports, effects))
    ensures MovedOnce(f.schedules, EditsOf(f.agents, f.reports, effects))
  {
    if effects != [] {
      var last := effects[|effects| - 1];
      EditsAreSafe(f, agentID, results, effects[..|effects| - 1]);
      if last.Consequence? {
        assert last in effects;
        ConsequencesAreOwn(Load(f.operations), agentID, results, last);
        HealSettles(f.operations[last.res.id]);
      }
    }
  }

  lemma {:induction false} EditsOfPrefix(agents: seq<Agent>, reports: map<string, Report>, effects: seq<Effect>, n: nat)
    requires n <= |effects|
    ensures EditsOf(agents, reports, effects[..n]) <= EditsOf(agents, reports, effects)
  {
    if n < |effects| {
      assert effects[..|effects| - 1][..n] == effects[..n];
      EditsOfPrefix(agents, reports, effects[..|effects| - 1], n);
    } else {
      assert effects[..n] == effects;
    }
  }

  lemma {:induction false} EditsOfAlike(a: seq<Agent>, b: seq<Agent>, reports: map<string, Report>,
                                        effects: seq<Effect>)
    requires Alike(a, b)
    ensures EditsOf(a, reports, effects) == EditsOf(b, reports, effects)
  {
    if effects != [] { EditsOfAlike(a, b, reports, effects[..|effects| - 1]); }
  }

  // ----- the audit log of an interrupted batch -----

  function LastOutcome(effects: seq<Effect>, id: string): Option<string> {
    if effects == [] then None
    else
      var e := effects[|effects| - 1];
      if e.Closing? && e.auditID == id then Some(e.outcome) else LastOutcome(effects[..|effects| - 1], id)
  }

  function WithOutcome(e: AuditEntry, outcome: Option<string>): AuditEntry {
    if outcome.Some? then e.(outcome := outcome.value, doneUnix := 0) else e.(doneUnix := 0)
  }

  lemma {:induction false} AuditByEntry(entries: seq<AuditEntry>, effects: seq<Effect>, clock: nat -> int)
    ensures |AuditAfter(entries, effects, clock)| == |entries|
    ensures forall i | 0 <= i < |entries| ::
              && AuditAfter(entries, effects, clock)[i].id == entries[i].id
              && AuditAfter(entries, effects, clock)[i].(doneUnix := 0)
                 == WithOutcome(entries[i], LastOutcome(effects, entries[i].id))
  {
    if effects != [] { AuditByEntry(entries, effects[..|effects| - 1], clock); }
  }

  lemma {:induction false} OutcomesGrow(effects: seq<Effect>, n: nat, id: string)
    requires n <= |effects| && LastOutcome(effects, id).None?
    ensures LastOutcome(effects[..n], id).None?
  {
    if n < |effects| {
      assert effects[..|effects| - 1][..n] == effects[..n];
      OutcomesGrow(effects[..|effects| - 1], n, id);
    } else {
      assert effects[..n] == effects;
    }
  }

  lemma AuditPrefixIsAbsorbed(entries: seq<AuditEntry>, effects: seq<Effect>, n: nat,
                              c1: nat -> int, c2: nat -> int, c3: nat -> int)
    requires n <= |effects|
    ensures Outcomes(AuditAfter(AuditAfter(entries, effects[..n], c1), effects, c2))
            == Outcomes(AuditAfter(entries, effects, c3))
  {
    var cut := AuditAfter(entries, effects[..n], c1);
    AuditByEntry(entries, effects[..n], c1);
    AuditByEntry(cut, effects, c2);
    AuditByEntry(entries, effects, c3);
    forall i | 0 <= i < |entries| && LastOutcome(effects, entries[i].id).None?
      ensures LastOutcome(effects[..n], entries[i].id).None?
    {
      OutcomesGrow(effects, n, entries[i].id);
    }
  }

  // ----- the theorem -----

  /** Two stores that no page and no agent can tell apart by schedules, operations or audit
      outcomes. */
  predicate SameState(f: Files, g: Files) {
    && f.schedules == g.schedules
    && Load(f.operations) == Load(g.operations)
    && Outcomes(f.audit) == Outcomes(g.audit)
  }

  /** The batch again, from files that some of its effects have already reached: it completes, and the
      ledger and the audit outcomes always come out alike, so whether the retry does is up to the
      schedules. */
  lemma RetryFromEffectIff(f: Files, g: Files, agentID: string, results: seq<OperationResult>,
                           n: nat, c0: nat -> int, c1: nat -> int, c2: nat -> int)
    requires Completes(f, agentID, results)
    requires Alike(f.agents, g.agents) && f.reports == g.reports && f.operations == g.operations
    requires n <= |PlanOf(f, agentID, results).effects|
    requires g.audit == PerformAll(f, PlanOf(f, agentID, results).effects[..n], c0).audit
    ensures Completes(g, agentID, results)
    ensures var edits := EditsOf(f.agents, f.reports, PlanOf(f, agentID, results).effects);
            SameState(Recorded(g, agentID, results, c2), Recorded(f, agentID, results, c1))
            <==> AfterEdits(g.schedules, edits) == AfterEdits(f.schedules, edits)
  {
    var effects := PlanOf(f, agentID, results).effects;
    PerformIsTwoFiles(f, effects[..n], c0);
    CompletesAlike(f, g, agentID, results);
    EditsOfAlike(f.agents, g.agents, f.reports, effects);
    CompletedFiles(f, agentID, results, c1);
    CompletedFiles(g, agentID, results, c2);
    AuditPrefixIsAbsorbed(f.audit, effects, n, c0, c2, c1);
  }

  lemma RetryFromEffect(f: Files, g: Files, agentID: string, results: seq<OperationResult>,
                        n: nat, c0: nat -> int, c1: nat -> int, c2: nat -> int)
    requires Completes(f, agentID, results) && SafeToRetry(f, agentID)
    requires Alike(f.agents, g.agents) && f.reports == g.reports && f.operations == g.operations
    requires n <= |PlanOf(f, agentID, results).effects|
    requires var cut := PerformAll(f, PlanOf(f, agentID, results).effects[..n], c0);
             g.schedules == cut.schedules && g.audit == cut.audit
    ensures Completes(g, agentID, results) && SafeToRetry(g, agentID)
    ensures SameState(Recorded(g, agentID, results, c2), Recorded(f, agentID, results, c1))
  {
    PerformIsTwoFiles(f, PlanOf(f, agentID, results).effects[..n], c0);
    EditsAreAbsorbed(f, g, agentID, results, n);
    EditsOfAlike(f.agents, g.agents, f.reports, PlanOf(f, agentID, results).effects);
    RetryFromEffectIff(f, g, agentID, results, n, c0, c1, c2);
  }

  lemma CompletesAlike(f: Files, g: Files, agentID: string, results: seq<OperationResult>)
    requires Completes(f, agentID, results)
    requires Alike(f.agents, g.agents) && f.reports == g.reports && f.operations == g.operations
    ensures Completes(g, agentID, results)
  {
    forall e | e in PlanOf(f, agentID, results).effects ensures !Strands(g, e) {
      assert !Strands(f, e);
    }
  }

  /** Replaying every edit of a batch after some of them ends where replaying them once does. */
  lemma EditsAreAbsorbed(f: Files, g: Files, agentID: string, results: seq<OperationResult>, n: nat)
    requires SafeToRetry(f, agentID) && n <= |PlanOf(f, agentID, results).effects|
    requires Alike(f.agents, g.agents) && f.reports == g.reports && f.operations == g.operations
    requires g.schedules == AfterEdits(f.schedules,
                                       EditsOf(f.agents, f.reports, PlanOf(f, agentID, results).effects[..n]))
    ensures SafeToRetry(g, agentID)
    ensures var effects := PlanOf(f, agentID, results).effects;
            AfterEdits(g.schedules, EditsOf(g.agents, g.reports, effects))
            == AfterEdits(f.schedules, EditsOf(f.agents, f.reports, effects))
  {
    var effects := PlanOf(f, agentID, results).effects;
    var edits, part := EditsOf(f.agents, f.reports, effects), EditsOf(f.agents, f.reports, effects[..n]);
    EditsOfPrefix(f.agents, f.reports, effects, n);
    assert edits[..|part|] == part;
    EditsAreSafe(f, agentID, results, effects);
    EditsAreSafe(f, agentID, results, effects[..n]);
    PrefixIsAbsorbed(agentID, f.schedules, edits, |part|);
    EditsOfAlike(f.agents, g.agents, f.reports, effects);
    SafetySurvives(f, g, agentID, part);
  }

  lemma SafetySurvives(f: Files, g: Files, agentID: string, edits: seq<Edit>)
    requires SafeToRetry(f, agentID) && Alike(f.agents, g.agents) && f.operations == g.operations
    requires OwnEdits(agentID, edits) && MovedOnce(f.schedules, edits)
    requires g.schedules == AfterEdits(f.schedules, edits)
    ensures SafeToRetry(g, agentID)
  {
    forall id | id in g.operations && g.operations[id].agentID == agentID && g.operations[id].op.kind == OP_INVERT
                && !g.operations[id].followUpDone
      ensures Once(ListOf(g.schedules, agentID), g.operations[id].op.vm)
    {
      var other := agentID + "'";
      assert |other| != |agentID|;
      var probe := Moving(agentID, other, g.operations[id].op.vm, "", "", None);
      WordSettles(agentID, f.schedules, edits, [probe]);
      assert [probe][0].Moving?;
    }
  }
}
