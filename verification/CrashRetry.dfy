/** The promise behind the order of writes: stop a report anywhere, send it again, and nothing
    is lost and nothing is done twice. */
module CrashRetry {
  import opened Text
  import opened Sorting
  import opened Records
  import opened Schedules
  import opened Operations
  import opened FollowUps
  import opened Recording
  import opened Runs

  // ----- one batch -----

  /** The batch again, from files that agree with those of an attempt stopped after k writes. */
  lemma RetryFromCut(f: Files, g: Files, agentID: string, results: seq<OperationResult>, k: nat,
                     c1: nat -> int, c2: nat -> int)
    requires Completes(f, agentID, results) && SafeToRetry(f, agentID)
    requires k <= |Record(f, agentID, results, c1).writes|
    requires var cut := Replay(f, Record(f, agentID, results, c1).writes[..k]);
             && Alike(f.agents, g.agents) && g.reports == f.reports
             && g.schedules == cut.schedules && g.audit == cut.audit && g.operations == cut.operations
    ensures Completes(g, agentID, results) && SafeToRetry(g, agentID)
    ensures SameState(Recorded(g, agentID, results, c2), Recorded(f, agentID, results, c1))
  {
    var plan := PlanOf(f, agentID, results);
    var all, ws := Record(f, agentID, results, c1).writes, WritesOf(f, plan.effects, c1);
    if k <= |ws| {
      assert all[..k] == ws[..k];
      var n := CutAtEffect(f, plan.effects, c1, k);
      PerformIsTwoFiles(f, plan.effects[..n], c1);
      RetryFromEffect(f, g, agentID, results, n, c1, c1, c2);
    } else {
      assert all[..k] == all;
      RetryAfterTheEnd(f, g, agentID, results, c1, c2);
    }
  }

  /** The batch again after its last write: the reply was lost, not the work. */
  lemma LostReply(f: Files, g: Files, agentID: string, results: seq<OperationResult>, c1: nat -> int, c2: nat -> int)
    requires Completes(f, agentID, results) && PlanOf(f, agentID, results).changed
    requires var whole := Recorded(f, agentID, results, c1);
             g.schedules == whole.schedules && g.audit == whole.audit && g.operations == whole.operations
    ensures PlanOf(g, agentID, results).effects == [] && Completes(g, agentID, results)
    ensures SameState(Recorded(g, agentID, results, c2), Recorded(f, agentID, results, c1))
  {
    var plan := PlanOf(f, agentID, results);
    CompletedFiles(f, agentID, results, c1);
    assert g.operations == plan.ops;
    ReplayIsInert(Load(f.operations), agentID, results);
    CompletedFiles(g, agentID, results, c2);
    LoadTwice(plan.ops);
  }

  lemma RetryAfterTheEnd(f: Files, g: Files, agentID: string, results: seq<OperationResult>,
                         c1: nat -> int, c2: nat -> int)
    requires Completes(f, agentID, results) && SafeToRetry(f, agentID) && PlanOf(f, agentID, results).changed
    requires var whole := Recorded(f, agentID, results, c1);
             && Alike(f.agents, g.agents) && g.reports == f.reports
             && g.schedules == whole.schedules && g.audit == whole.audit && g.operations == whole.operations
    ensures Completes(g, agentID, results) && SafeToRetry(g, agentID)
    ensures SameState(Recorded(g, agentID, results, c2), Recorded(f, agentID, results, c1))
  {
    LostReply(f, g, agentID, results, c1, c2);
    CompletedFiles(f, agentID, results, c1);
    FinishedIsSafe(f, g, agentID, results);
  }

  lemma LoadTwice(ops: Ledger)
    ensures Load(Load(ops)) == Load(ops)
  {}

  lemma FinishedIsSafe(f: Files, g: Files, agentID: string, results: seq<OperationResult>)
    requires SafeToRetry(f, agentID) && Alike(f.agents, g.agents)
    requires var plan := PlanOf(f, agentID, results);
             && g.operations == plan.ops
             && g.schedules == AfterEdits(f.schedules, EditsOf(f.agents, f.reports, plan.effects))
    ensures SafeToRetry(g, agentID)
  {
    var plan := PlanOf(f, agentID, results);
    EditsAreSafe(f, agentID, results, plan.effects);
    PlanIsPointwise(Load(f.operations), agentID, results);
    SafetySurvives(f, f.(schedules := g.schedules, agents := g.agents), agentID,
                   EditsOf(f.agents, f.reports, plan.effects));
    forall id | id in g.operations
      ensures g.operations[id].op == f.operations[id].op && g.operations[id].agentID == f.operations[id].agentID
      ensures f.operations[id].followUpDone ==> g.operations[id].followUpDone
    {
      HealSettles(f.operations[id]);
      AgentStays(id, Load(f.operations)[id], agentID, results);
    }
  }

  /** For every batch that completes and every point of its writes: crash there, process the
      batch again, and the schedules, the operations and the audit outcomes are those of the
      uninterrupted run. */
  lemma CrashThenRetry(f: Files, agentID: string, results: seq<OperationResult>, k: nat,
                       c1: nat -> int, c2: nat -> int)
    requires Completes(f, agentID, results) && SafeToRetry(f, agentID)
    requires k <= |Record(f, agentID, results, c1).writes|
    ensures var cut := Replay(f, Record(f, agentID, results, c1).writes[..k]);
            && Completes(cut, agentID, results) && SafeToRetry(cut, agentID)
            && SameState(Recorded(cut, agentID, results, c2), Recorded(f, agentID, results, c1))
  {
    var all := Record(f, agentID, results, c1).writes;
    RecordLeavesFleetAlone(f, agentID, results, c1, k);
    RetryFromCut(f, Replay(f, all[..k]), agentID, results, k, c1, c2);
  }

  lemma RecordLeavesFleetAlone(f: Files, agentID: string, results: seq<OperationResult>, clock: nat -> int, k: nat)
    requires Completes(f, agentID, results) && k <= |Record(f, agentID, results, clock).writes|
    ensures var cut := Replay(f, Record(f, agentID, results, clock).writes[..k]);
            cut.agents == f.agents && cut.reports == f.reports
  {
    var plan := PlanOf(f, agentID, results);
    var all, ws := Record(f, agentID, results, clock).writes, WritesOf(f, plan.effects, clock);
    if k <= |ws| {
      assert all[..k] == ws[..k];
      var n := CutAtEffect(f, plan.effects, clock, k);
      PerformIsTwoFiles(f, plan.effects[..n], clock);
    } else {
      assert all[..k] == all;
      CompletedFiles(f, agentID, results, clock);
    }
  }

  /** Any number of interrupted attempts, each stopped after some number of its own writes. */
  ghost function AfterCrashes(f: Files, agentID: string, results: seq<OperationResult>,
                              cuts: seq<nat>, clock: nat -> int): Files
    decreases |cuts|
  {
    if cuts == [] then f
    else
      var all := Record(f, agentID, results, clock).writes;
      var k := if cuts[0] <= |all| then cuts[0] else |all|;
      AfterCrashes(Replay(f, all[..k]), agentID, results, cuts[1..], clock)
  }

  lemma {:induction false} ManyCrashesThenRetry(f: Files, agentID: string, results: seq<OperationResult>,
                                                cuts: seq<nat>, c1: nat -> int, c2: nat -> int)
    requires Completes(f, agentID, results) && SafeToRetry(f, agentID)
    ensures var cut := AfterCrashes(f, agentID, results, cuts, c1);
            && Completes(cut, agentID, results)
            && SameState(Recorded(cut, agentID, results, c2), Recorded(f, agentID, results, c1))
    decreases |cuts|
  {
    if cuts == [] {
      var all := Record(f, agentID, results, c1).writes;
      CrashThenRetry(f, agentID, results, 0, c1, c2);
      assert Replay(f, all[..0]) == f;
    } else {
      var all := Record(f, agentID, results, c1).writes;
      var k := if cuts[0] <= |all| then cuts[0] else |all|;
      var cut := Replay(f, all[..k]);
      CrashThenRetry(f, agentID, results, k, c1, c1);
      ManyCrashesThenRetry(cut, agentID, results, cuts[1..], c1, c2);
    }
  }

  /** Wherever a batch stops, whether it could be completed or not, its ledger is one of the two a
      step of a run can leave: untouched, or the planned one. */
  lemma EveryCutIsAStep(f: Files, agentID: string, results: seq<OperationResult>, clock: nat -> int, k: nat)
    requires k <= |Record(f, agentID, results, clock).writes|
    ensures var cut := Replay(f, Record(f, agentID, results, clock).writes[..k]);
            || cut.operations == Next(f.operations, Reporting(agentID, results, false))
            || cut.operations == Next(f.operations, Reporting(agentID, results, true))
  {
    RecordIsWritesThenLedger(f, agentID, results, clock);
    if |Record(f, agentID, results, clock).writes| == k && Reaches(f, agentID, results) {
      AtTheLedger(f, agentID, results, clock);
    } else {
      BeforeTheLedger(f, PlanOf(f, agentID, results).effects[..Carried(f, agentID, results)], clock, k,
                      Record(f, agentID, results, clock).writes);
    }
  }

  /** How many of the planned effects are carried out, and whether the ledger is written after them. */
  ghost function Carried(f: Files, agentID: string, results: seq<OperationResult>): nat {
    FirstStranded(f, PlanOf(f, agentID, results).effects)
  }

  ghost predicate Reaches(f: Files, agentID: string, results: seq<OperationResult>) {
    Carried(f, agentID, results) == |PlanOf(f, agentID, results).effects| && PlanOf(f, agentID, results).changed
  }

  lemma RecordIsWritesThenLedger(f: Files, agentID: string, results: seq<OperationResult>, clock: nat -> int)
    ensures var plan := PlanOf(f, agentID, results);
            Record(f, agentID, results, clock).writes
            == WritesOf(f, plan.effects[..Carried(f, agentID, results)], clock)
               + (if Reaches(f, agentID, results) then [OperationsFile(plan.ops)] else [])
  {
    var effects := PlanOf(f, agentID, results).effects;
    assert effects[..|effects|] == effects;
  }

  lemma AtTheLedger(f: Files, agentID: string, results: seq<OperationResult>, clock: nat -> int)
    requires Reaches(f, agentID, results)
    ensures var all := Record(f, agentID, results, clock).writes;
            Replay(f, all[..|all|]).operations == PlanOf(f, agentID, results).ops
  {
    RecordIsWritesThenLedger(f, agentID, results, clock);
    CutOfAll(Record(f, agentID, results, clock).writes);
    LedgerLast(f, WritesOf(f, PlanOf(f, agentID, results).effects[..Carried(f, agentID, results)], clock),
               PlanOf(f, agentID, results).ops);
  }

  lemma LedgerLast(f: Files, ws: seq<Write>, ops: Ledger)
    ensures Replay(f, ws + [OperationsFile(ops)]).operations == ops
  {}

  lemma BeforeTheLedger(f: Files, effects: seq<Effect>, clock: nat -> int, k: nat, all: seq<Write>)
    requires k <= |WritesOf(f, effects, clock)| <= |all|
    requires all[..|WritesOf(f, effects, clock)|] == WritesOf(f, effects, clock)
    ensures Replay(f, all[..k]).operations == f.operations
  {
    assert all[..k] == WritesOf(f, effects, clock)[..k];
    var m := CutAtEffect(f, effects, clock, k);
    PerformIsTwoFiles(f, effects[..m], clock);
  }

  // ----- the whole request -----

  /** The agent list after a report: seen now, with the version and mode it stated, if any. */
  function SeenAgent(a: Agent, agentID: string, rep: Report, at: int): Agent {
    if a.id != agentID then a
    else a.(lastSeenAt := at,
            agentVersion := if rep.agentVersion != "" then rep.agentVersion else a.agentVersion,
            mode := if rep.mode != "" then rep.mode else a.mode)
  }

  function Seen(agents: seq<Agent>, agentID: string, rep: Report, at: int): seq<Agent> {
    seq(|agents|, i requires 0 <= i < |agents| => SeenAgent(agents[i], agentID, rep, at))
  }

  predicate SameFace(a: Agent, b: Agent) { a.id == b.id && a.hostname == b.hostname && a.revoked == b.revoked }

  predicate SameFaces(s: seq<Agent>, t: seq<Agent>) {
    |s| == |t| && forall i | 0 <= i < |s| :: SameFace(s[i], t[i])
  }

  lemma {:induction false} InsertSameFaces(s: seq<Agent>, t: seq<Agent>, x: Agent, y: Agent)
    requires SameFaces(s, t) && SameFace(x, y)
    ensures SameFaces(Insert(ByHostname, s, x), Insert(ByHostname, t, y))
  {
    if s != [] {
      assert ByHostname(x, s[0]) == ByHostname(y, t[0]);
      InsertSameFaces(s[1..], t[1..], x, y);
    }
  }

  lemma {:induction false} SortSameFaces(s: seq<Agent>, t: seq<Agent>)
    requires SameFaces(s, t)
    ensures SameFaces(Roster(s), Roster(t))
  {
    if s != [] {
      var n := |s| - 1;
      SortSameFaces(s[..n], t[..n]);
      InsertSameFaces(Roster(s[..n]), Roster(t[..n]), s[n], t[n]);
    }
  }

  lemma {:induction false} FirstSameFaces(s: seq<Agent>, t: seq<Agent>, host: string, id: string)
    requires SameFaces(s, t)
    ensures FirstServing(s, host) == FirstServing(t, host)
    ensures FirstHostname(s, id) == FirstHostname(t, id)
  {
    if s != [] { FirstSameFaces(s[1..], t[1..], host, id); }
  }

  lemma SameFacesAreAlike(s: seq<Agent>, t: seq<Agent>)
    requires SameFaces(s, t)
    ensures Alike(s, t)
  {
    SortSameFaces(s, t);
    forall host ensures AgentFor(s, host) == AgentFor(t, host) { FirstSameFaces(Roster(s), Roster(t), host, ""); }
    forall id ensures HostnameFor(s, id) == HostnameFor(t, id) { FirstSameFaces(Roster(s), Roster(t), "", id); }
  }

  /** Stamping agents, which also leaves them in the order they are read back in, changes no
      resolution. */
  lemma SeenIsAlike(agents: seq<Agent>, agentID: string, rep: Report, at: int)
    ensures Alike(agents, Seen(Roster(agents), agentID, rep, at))
  {
    LessIsStrictTotal();
    SortSorts(ByHostname, agents);
    SortedStays(ByHostname, Roster(agents));
    SameFacesAreAlike(Roster(agents), Seen(Roster(agents), agentID, rep, at));
  }

  function SaveWrites(f: Files, agentID: string, rep: Report, at: int): seq<Write> {
    [ReportFile(agentID, rep), AgentsFile(Seen(Roster(f.agents), agentID, rep, at))]
  }

  function Saved(f: Files, agentID: string, rep: Report, at: int): Files {
    f.(reports := f.reports[agentID := rep], agents := Seen(Roster(f.agents), agentID, rep, at))
  }

  /** What storing a report does: the report replaces the agent's last one; in the roster, read in order of
      hostname, that agent is stamped, takes the version and the mode the report states, if it states any,
      and nothing else changes. */
  lemma SavedIs(f: Files, agentID: string, rep: Report, at: int) returns (loaded: seq<Agent>)
    ensures multiset(loaded) == multiset(f.agents)
    ensures forall i, j | 0 <= i < j < |loaded| :: !Less(loaded[j].hostname, loaded[i].hostname)
    ensures var g := Saved(f, agentID, rep, at);
            && g == f.(reports := f.reports[agentID := rep], agents := g.agents) && |g.agents| == |loaded|
            && forall i | 0 <= i < |loaded| ::
                 var was, now := loaded[i], g.agents[i];
                 if was.id != agentID then now == was
                 else && now.lastSeenAt == at
                      && now.agentVersion == (if rep.agentVersion != "" then rep.agentVersion else was.agentVersion)
                      && now.mode == (if rep.mode != "" then rep.mode else was.mode)
                      && now.(lastSeenAt := was.lastSeenAt, agentVersion := was.agentVersion, mode := was.mode) == was
  {
    loaded := Roster(f.agents);
    LessIsStrictTotal();
    SortSorts(ByHostname, f.agents);
    SortPermutes(ByHostname, f.agents);
    assert forall i, j | 0 <= i < j < |loaded| :: !ByHostname(loaded[j], loaded[i]);
  }

  /** A whole report request: the inventory first, the results after it. */
  ghost function Handle(f: Files, agentID: string, rep: Report, results: seq<OperationResult>,
                        at: int, clock: nat -> int): Outcome
  {
    var rest := Record(Saved(f, agentID, rep, at), agentID, results, clock);
    Outcome(SaveWrites(f, agentID, rep, at) + rest.writes, rest.answer)
  }

  lemma SaveIsSaved(f: Files, agentID: string, rep: Report, at: int)
    ensures Replay(f, SaveWrites(f, agentID, rep, at)) == Saved(f, agentID, rep, at)
    ensures Replay(f, SaveWrites(f, agentID, rep, at)[..1]) == f.(reports := f.reports[agentID := rep])
    ensures Replay(f, SaveWrites(f, agentID, rep, at)[..0]) == f
  {
    var ws := SaveWrites(f, agentID, rep, at);
    assert ws[..1][..0] == [] && Replay(f, ws[..1]) == Install(Replay(f, ws[..1][..0]), ws[..1][0]);
    assert ws[..|ws| - 1] == ws[..1] && Replay(f, ws) == Install(Replay(f, ws[..1]), ws[1]);
  }

  /** A report request crashed after any of its writes, inventory included, and sent again. The
      retry needs nothing assumed about the stored report: the first thing it does is store it. */
  lemma ReportThenRetry(f: Files, agentID: string, rep: Report, results: seq<OperationResult>, k: nat,
                        at1: int, at2: int, c1: nat -> int, c2: nat -> int)
    requires SafeToRetry(f, agentID)
    requires Handle(f, agentID, rep, results, at1, c1).answer == Accepted
    requires k <= |Handle(f, agentID, rep, results, at1, c1).writes|
    ensures var cut := Replay(f, Handle(f, agentID, rep, results, at1, c1).writes[..k]);
            && Handle(cut, agentID, rep, results, at2, c2).answer == Accepted
            && SameState(Replay(cut, Handle(cut, agentID, rep, results, at2, c2).writes),
                         Replay(f, Handle(f, agentID, rep, results, at1, c1).writes))
  {
    var saved := Saved(f, agentID, rep, at1);
    var all := Handle(f, agentID, rep, results, at1, c1).writes;
    var cut := Replay(f, all[..k]);
    var j := CutReport(f, agentID, rep, results, k, at1, c1);
    var again := Saved(cut, agentID, rep, at2);
    SeenIsAlike(f.agents, agentID, rep, at1);
    SeenIsAlike(cut.agents, agentID, rep, at2);
    RetryFromCut(saved, again, agentID, results, j, c1, c2);
    CompletesIsAccepted(again, agentID, results, c2);
    HandledFiles(f, agentID, rep, results, at1, c1);
    HandledFiles(cut, agentID, rep, results, at2, c2);
  }

  lemma HandledFiles(f: Files, agentID: string, rep: Report, results: seq<OperationResult>, at: int, clock: nat -> int)
    ensures Replay(f, Handle(f, agentID, rep, results, at, clock).writes)
            == Recorded(Saved(f, agentID, rep, at), agentID, results, clock)
  {
    SaveIsSaved(f, agentID, rep, at);
    ReplayConcat(f, SaveWrites(f, agentID, rep, at),
                 Record(Saved(f, agentID, rep, at), agentID, results, clock).writes);
  }

  /** Where in the recording a crash of the request falls, and what it leaves. */
  lemma CutReport(f: Files, agentID: string, rep: Report, results: seq<OperationResult>, k: nat,
                  at: int, clock: nat -> int) returns (j: nat)
    requires Handle(f, agentID, rep, results, at, clock).answer == Accepted
    requires k <= |Handle(f, agentID, rep, results, at, clock).writes|
    ensures Completes(Saved(f, agentID, rep, at), agentID, results)
    ensures j <= |Record(Saved(f, agentID, rep, at), agentID, results, clock).writes|
    ensures var cut := Replay(f, Handle(f, agentID, rep, results, at, clock).writes[..k]);
            var rest := Replay(Saved(f, agentID, rep, at),
                               Record(Saved(f, agentID, rep, at), agentID, results, clock).writes[..j]);
            && cut.schedules == rest.schedules && cut.audit == rest.audit && cut.operations == rest.operations
            && (cut.agents == f.agents || cut.agents == Saved(f, agentID, rep, at).agents)
            && cut.reports[agentID := rep] == f.reports[agentID := rep]
  {
    var saves, saved := SaveWrites(f, agentID, rep, at), Saved(f, agentID, rep, at);
    var rest := Record(saved, agentID, results, clock).writes;
    var all := saves + rest;
    SaveIsSaved(f, agentID, rep, at);
    CompletesIsAccepted(saved, agentID, results, clock);
    if k < 2 {
      j := 0;
      assert all[..k] == saves[..k];
      assert rest[..0] == [] && Replay(saved, rest[..0]) == saved;
      assert k == 0 || k == 1;
    } else {
      j := k - 2;
      assert all[..k] == saves + rest[..j];
      ReplayConcat(f, saves, rest[..j]);
      RecordLeavesFleetAlone(saved, agentID, results, clock, j);
    }
  }
}
