/** How far crash and retry reaches. A batch that completes can be cut anywhere and sent again exactly
    when its schedule edits absorb every prefix of themselves; and two fleets where they do not. */
module RetryLimits {
  import opened Text
  import opened Sorting
  import opened Records
  import opened Schedules
  import opened Operations
  import opened FollowUps
  import opened Recording
  import opened CrashRetry
  import Failover

  /** Stopped after k writes and sent again, the batch completes and ends as if never stopped. */
  ghost predicate RetriesAlike(f: Files, agentID: string, results: seq<OperationResult>, k: nat,
                               c1: nat -> int, c2: nat -> int)
    requires k <= |Record(f, agentID, results, c1).writes|
  {
    var cut := Replay(f, Record(f, agentID, results, c1).writes[..k]);
    && Completes(cut, agentID, results)
    && SameState(Recorded(cut, agentID, results, c2), Recorded(f, agentID, results, c1))
  }

  /** Making every edit of the batch after the edits of its first n effects makes no difference. */
  ghost predicate Absorbs(f: Files, agentID: string, results: seq<OperationResult>, n: nat)
    requires n <= |PlanOf(f, agentID, results).effects|
  {
    var effects := PlanOf(f, agentID, results).effects;
    var edits, part := EditsOf(f.agents, f.reports, effects), EditsOf(f.agents, f.reports, effects[..n]);
    AfterEdits(AfterEdits(f.schedules, part), edits) == AfterEdits(f.schedules, edits)
  }

  lemma CutAtEffectIff(f: Files, agentID: string, results: seq<OperationResult>, n: nat, k: nat,
                       c1: nat -> int, c2: nat -> int)
    requires Completes(f, agentID, results)
    requires n <= |PlanOf(f, agentID, results).effects| && k <= |Record(f, agentID, results, c1).writes|
    requires Replay(f, Record(f, agentID, results, c1).writes[..k])
             == PerformAll(f, PlanOf(f, agentID, results).effects[..n], c1)
    ensures RetriesAlike(f, agentID, results, k, c1, c2) <==> Absorbs(f, agentID, results, n)
  {
    var cut := PerformAll(f, PlanOf(f, agentID, results).effects[..n], c1);
    PerformIsTwoFiles(f, PlanOf(f, agentID, results).effects[..n], c1);
    RetryFromEffectIff(f, cut, agentID, results, n, c1, c1, c2);
  }

  /** Every point of the writes of a batch is a point between effects, or its end. */
  lemma EveryCutIsBetweenEffects(f: Files, agentID: string, results: seq<OperationResult>, k: nat,
                                 c1: nat -> int, c2: nat -> int) returns (n: nat)
    requires Completes(f, agentID, results) && k <= |Record(f, agentID, results, c1).writes|
    ensures n <= |PlanOf(f, agentID, results).effects|
    ensures Absorbs(f, agentID, results, n) ==> RetriesAlike(f, agentID, results, k, c1, c2)
  {
    var plan := PlanOf(f, agentID, results);
    var all, ws := Record(f, agentID, results, c1).writes, WritesOf(f, plan.effects, c1);
    CompletedWrites(f, agentID, results, c1);
    if k <= |ws| {
      assert all[..k] == ws[..k];
      n := CutAtEffect(f, plan.effects, c1, k);
      CutAtEffectIff(f, agentID, results, n, k, c1, c2);
    } else {
      n := |plan.effects|;
      assert all[..k] == all;
      LostReply(f, Replay(f, all), agentID, results, c1, c2);
    }
  }

  lemma CompletedWrites(f: Files, agentID: string, results: seq<OperationResult>, clock: nat -> int)
    requires Completes(f, agentID, results)
    ensures var plan := PlanOf(f, agentID, results);
            Record(f, agentID, results, clock).writes
            == WritesOf(f, plan.effects, clock) + (if plan.changed then [OperationsFile(plan.ops)] else [])
  {
    CompletesIsAccepted(f, agentID, results, clock);
  }

  lemma {:induction false} EffectsWriteInOrder(f: Files, effects: seq<Effect>, clock: nat -> int, n: nat)
    requires n <= |effects|
    ensures |WritesOf(f, effects[..n], clock)| <= |WritesOf(f, effects, clock)|
    ensures WritesOf(f, effects[..n], clock) == WritesOf(f, effects, clock)[..|WritesOf(f, effects[..n], clock)|]
  {
    if n == |effects| {
      CutOfAll(effects);
      CutOfAll(WritesOf(f, effects, clock));
    } else {
      var init := effects[..|effects| - 1];
      assert init[..n] == effects[..n];
      EffectsWriteInOrder(f, init, clock, n);
      var before := WritesOf(f, init, clock);
      CutOfConcat(before, EffectWrites(Replay(f, before), effects[|init|], clock(|init|)),
                  |WritesOf(f, effects[..n], clock)|);
    }
  }

  lemma EffectsAreReached(f: Files, agentID: string, results: seq<OperationResult>, n: nat, clock: nat -> int)
    requires Completes(f, agentID, results) && n <= |PlanOf(f, agentID, results).effects|
    ensures var all, part := Record(f, agentID, results, clock).writes, PlanOf(f, agentID, results).effects[..n];
            |WritesOf(f, part, clock)| <= |all| && all[..|WritesOf(f, part, clock)|] == WritesOf(f, part, clock)
  {
    var plan := PlanOf(f, agentID, results);
    CompletedWrites(f, agentID, results, clock);
    EffectsWriteInOrder(f, plan.effects, clock, n);
    CutOfConcat(WritesOf(f, plan.effects, clock), if plan.changed then [OperationsFile(plan.ops)] else [],
                |WritesOf(f, plan.effects[..n], clock)|);
  }

  /** Between any two effects there is a point of the writes to stop at. */
  lemma EveryEffectCanBeCutAt(f: Files, agentID: string, results: seq<OperationResult>, n: nat,
                              c1: nat -> int, c2: nat -> int) returns (k: nat)
    requires Completes(f, agentID, results) && n <= |PlanOf(f, agentID, results).effects|
    ensures k <= |Record(f, agentID, results, c1).writes|
    ensures RetriesAlike(f, agentID, results, k, c1, c2) <==> Absorbs(f, agentID, results, n)
  {
    k := |WritesOf(f, PlanOf(f, agentID, results).effects[..n], c1)|;
    EffectsAreReached(f, agentID, results, n, c1);
    CutAtEffectIff(f, agentID, results, n, k, c1, c2);
  }

  /** Crash and retry, exactly: it works at every point of the writes if and only if the batch's edits
      absorb every prefix of themselves. */
  lemma RetryWorksIff(f: Files, agentID: string, results: seq<OperationResult>, c1: nat -> int, c2: nat -> int)
    requires Completes(f, agentID, results)
    ensures (forall k: nat | k <= |Record(f, agentID, results, c1).writes| ::
               RetriesAlike(f, agentID, results, k, c1, c2))
            <==> (forall n: nat | n <= |PlanOf(f, agentID, results).effects| :: Absorbs(f, agentID, results, n))
  {
    if forall k: nat | k <= |Record(f, agentID, results, c1).writes| :: RetriesAlike(f, agentID, results, k, c1, c2) {
      forall n: nat | n <= |PlanOf(f, agentID, results).effects| ensures Absorbs(f, agentID, results, n) {
        var k := EveryEffectCanBeCutAt(f, agentID, results, n, c1, c2);
      }
    }
    if forall n: nat | n <= |PlanOf(f, agentID, results).effects| :: Absorbs(f, agentID, results, n) {
      forall k: nat | k <= |Record(f, agentID, results, c1).writes|
        ensures RetriesAlike(f, agentID, results, k, c1, c2)
      {
        var n := EveryCutIsBetweenEffects(f, agentID, results, k, c1, c2);
      }
    }
  }

  // ----- one inversion -----

  /** A ledger with one inversion nothing was heard about, and its success. */
  ghost predicate OneInversion(f: Files, agentID: string, rec: OperationRecord, res: OperationResult, e: Edit) {
    && f.operations == map[res.id := rec] && rec.agentID == agentID && rec.op.kind == OP_INVERT
    && rec.result.None? && !rec.followUpDone && res.state == STATE_DONE
    && Decide(f.agents, f.reports, rec, res) == Do(e)
  }

  lemma OneInversionsPlan(f: Files, agentID: string, rec: OperationRecord, res: OperationResult, e: Edit)
    requires OneInversion(f, agentID, rec, res, e)
    ensures PlanOf(f, agentID, [res]).effects == EffectsOf(rec, agentID, res)
  {
    assert [res][..0] == [] && Load(f.operations)[res.id] == rec;
    assert PlanFor(Load(f.operations), agentID, []) == Plan(Load(f.operations), false, []);
    assert [] + EffectsOf(rec, agentID, res) == EffectsOf(rec, agentID, res);
  }

  lemma OneInversionsEdits(f: Files, agentID: string, rec: OperationRecord, res: OperationResult, e: Edit)
    requires OneInversion(f, agentID, rec, res, e)
    ensures Completes(f, agentID, [res])
    ensures EditsOf(f.agents, f.reports, PlanOf(f, agentID, [res]).effects) == [e]
  {
    OneInversionsPlan(f, agentID, rec, res, e);
    EditsOfOne(f.agents, f.reports, Consequence(rec, res));
    if rec.auditID == "" {
      assert EffectsOf(rec, agentID, res) == [Consequence(rec, res)];
    } else {
      OneConsequenceThenClosing(f, rec, res, e);
    }
  }

  lemma OneConsequenceThenClosing(f: Files, rec: OperationRecord, res: OperationResult, e: Edit)
    requires Decide(f.agents, f.reports, rec, res) == Do(e)
    ensures EditsOf(f.agents, f.reports, [Consequence(rec, res), Closing(rec.auditID, OutcomeOf(res))]) == [e]
  {
    var effects := [Consequence(rec, res), Closing(rec.auditID, OutcomeOf(res))];
    assert effects[..1] == [Consequence(rec, res)];
    EditsOfOne(f.agents, f.reports, Consequence(rec, res));
  }

  /** A VM listed twice: stopped once everything but the ledger is written and sent again, the batch
      moves the second entry over the first. */
  lemma DuplicateRetryDiffers(f: Files, agentID: string, rec: OperationRecord, res: OperationResult, e: Edit,
                              first: ScheduleEntry, second: ScheduleEntry, c1: nat -> int, c2: nat -> int)
    returns (k: nat)
    requires OneInversion(f, agentID, rec, res, e) && e.Moving? && e.from != e.to
    requires ListOf(f.schedules, e.from) == [first, second]
    requires first.vm == second.vm == e.vm && first.intervalSeconds != second.intervalSeconds
    requires Ordered(ListOf(f.schedules, e.to))
    ensures k <= |Record(f, agentID, [res], c1).writes| && !RetriesAlike(f, agentID, [res], k, c1, c2)
  {
    var effects := PlanOf(f, agentID, [res]).effects;
    OneInversionsEdits(f, agentID, rec, res, e);
    k := EveryEffectCanBeCutAt(f, agentID, [res], |effects|, c1, c2);
    CutOfAll(effects);
    OneEdit(f.schedules, e);
    OneEdit(Edited(f.schedules, e), e);
    DuplicatesAreNotIdempotent(f.schedules, e, first, second);
  }

  lemma OneEdit(sched: Estate, e: Edit)
    ensures AfterEdits(sched, [e]) == Edited(sched, e)
  {
    assert [e][..0] == [];
    assert AfterEdits(sched, []) == sched;
  }

  /** One inversion whose peer is its own agent retries harmlessly: two things are asked of an agent's
      inversions because they suffice, not because either is needed of every one. */
  lemma OneSelfInversionRetries(f: Files, agentID: string, rec: OperationRecord, res: OperationResult, e: Edit,
                                k: nat, c1: nat -> int, c2: nat -> int)
    requires OneInversion(f, agentID, rec, res, e) && e.Moving? && e.from == e.to && e.vm != e.newVM
    requires WellOrdered(f.schedules) && k <= |Record(f, agentID, [res], c1).writes|
    ensures RetriesAlike(f, agentID, [res], k, c1, c2)
  {
    var effects := PlanOf(f, agentID, [res]).effects;
    OneInversionsEdits(f, agentID, rec, res, e);
    var n := EveryCutIsBetweenEffects(f, agentID, [res], k, c1, c2);
    var part := EditsOf(f.agents, f.reports, effects[..n]);
    EditsOfPrefix(f.agents, f.reports, effects, n);
    assert part == [] || part == [e];
    OneEdit(f.schedules, e);
    OneEdit(Edited(f.schedules, e), e);
    OneSelfInversionIsIdempotent(f.schedules, e);
    assert AfterEdits(f.schedules, []) == f.schedules;
  }

  // ----- two inversions -----

  /** Two inversions nothing was heard about, nobody's audit entry waiting for either. */
  ghost predicate TwoInversions(f: Files, agentID: string, r: OperationRecord, q: OperationRecord,
                                first: OperationResult, second: OperationResult, d: Edit, e: Edit)
  {
    && first.id != second.id && f.operations == map[first.id := r, second.id := q]
    && IsOpenInversion(f, agentID, r, first, d) && IsOpenInversion(f, agentID, q, second, e)
  }

  ghost predicate IsOpenInversion(f: Files, agentID: string, rec: OperationRecord, res: OperationResult, e: Edit) {
    && rec.agentID == agentID && rec.auditID == "" && rec.op.kind == OP_INVERT
    && rec.result.None? && !rec.followUpDone && res.state == STATE_DONE
    && Decide(f.agents, f.reports, rec, res) == Do(e)
  }

  lemma TwoInversionsPlan(f: Files, agentID: string, r: OperationRecord, q: OperationRecord,
                          first: OperationResult, second: OperationResult, d: Edit, e: Edit)
    requires TwoInversions(f, agentID, r, q, first, second, d, e)
    ensures PlanOf(f, agentID, [first, second]).effects == [Consequence(r, first), Consequence(q, second)]
  {
    var loaded := Load(f.operations);
    assert loaded[first.id] == r && loaded[second.id] == q;
    assert [first, second][..1] == [first] && [first][..0] == [];
    var none := PlanFor(loaded, agentID, []);
    var one := PlanFor(loaded, agentID, [first]);
    assert one == Take(none, agentID, first) && one.ops[second.id] == q;
    assert one.effects == [] + [Consequence(r, first)] + [];
    assert PlanFor(loaded, agentID, [first, second]) == Take(one, agentID, second);
  }

  lemma TwoInversionsEdits(f: Files, agentID: string, r: OperationRecord, q: OperationRecord,
                           first: OperationResult, second: OperationResult, d: Edit, e: Edit)
    requires TwoInversions(f, agentID, r, q, first, second, d, e)
    ensures Completes(f, agentID, [first, second])
    ensures EditsOf(f.agents, f.reports, PlanOf(f, agentID, [first, second]).effects) == [d, e]
  {
    TwoInversionsPlan(f, agentID, r, q, first, second, d, e);
    var effects := [Consequence(r, first), Consequence(q, second)];
    assert effects[..1] == [Consequence(r, first)];
    EditsOfOne(f.agents, f.reports, effects[0]);
    assert EditsOf(f.agents, f.reports, effects) == [d] + [e];
  }

  /** An agent that is the peer of its own inversions: stopped once everything but the ledger is
      written and sent again, the batch replaces one entry by the other. */
  lemma SelfInversionRetryDiffers(f: Files, agentID: string, r: OperationRecord, q: OperationRecord,
                                  first: OperationResult, second: OperationResult, d: Edit, e: Edit,
                                  c1: nat -> int, c2: nat -> int) returns (k: nat)
    requires TwoInversions(f, agentID, r, q, first, second, d, e) && AroundTheCorner(d, e)
    requires WellOrdered(f.schedules)
    requires At(f.schedules, d.from, d.vm).Some? && At(f.schedules, d.from, e.vm).Some?
    requires At(f.schedules, d.from, d.vm).value.intervalSeconds != At(f.schedules, d.from, e.vm).value.intervalSeconds
    ensures k <= |Record(f, agentID, [first, second], c1).writes|
    ensures !RetriesAlike(f, agentID, [first, second], k, c1, c2)
  {
    var results := [first, second];
    var effects := PlanOf(f, agentID, results).effects;
    TwoInversionsEdits(f, agentID, r, q, first, second, d, e);
    k := EveryEffectCanBeCutAt(f, agentID, results, |effects|, c1, c2);
    CutOfAll(effects);
    SelfInversionsAreNotIdempotent(f.schedules, d, e);
  }

  // ----- such fleets -----

  function EntryFor(vm: string, seconds: int): ScheduleEntry {
    ScheduleEntry(vm, seconds, true, SyncProfile("", "", "", false, 0, false, "", false, 0, "", "", 0, "", ""),
                  "", 0, "", "", "", 0)
  }

  function InversionOf(vm: string, peerHost: string, peerVM: string): OperationRecord {
    OperationRecord(Operation("", OP_INVERT, vm, peerHost, peerVM, "", false, false, false, 0, "", "", 0, "", 0),
                    "1", "", None, false, 0, "")
  }

  function Success(id: string): OperationResult { OperationResult(id, "", "", STATE_DONE, 0, 0, 0, "", "") }

  /** On agents a and b: host b has been inverted to, and a lists x twice. */
  function DuplicateFleet(): Files {
    Files([Failover.PlainAgent("1", "a"), Failover.PlainAgent("2", "b")], map[],
          map["1" := [EntryFor("x", 60), EntryFor("x", 120)]], [], map["o" := InversionOf("x", "b", "x")])
  }

  lemma AgentOfB(agents: seq<Agent>)
    requires agents == [Failover.PlainAgent("1", "a"), Failover.PlainAgent("2", "b")]
    ensures AgentFor(agents, "b") == "2"
  {
    SortPermutes(ByHostname, agents);
    ServingExists(Roster(agents), "b");
    assert Fold("a")[0] == 'a' && Fold("b")[0] == 'b';
    assert agents[1] in agents && Serves(agents[1], "b") && !Serves(agents[0], "b");
  }

  /** A retry at this fleet moves the second entry over the first. */
  lemma DuplicateFleetDiffers(c1: nat -> int, c2: nat -> int) returns (k: nat)
    ensures Completes(DuplicateFleet(), "1", [Success("o")])
    ensures k <= |Record(DuplicateFleet(), "1", [Success("o")], c1).writes|
    ensures !RetriesAlike(DuplicateFleet(), "1", [Success("o")], k, c1, c2)
  {
    var f, rec, res := DuplicateFleet(), InversionOf("x", "b", "x"), Success("o");
    AgentOfB(f.agents);
    var e := Moving("1", "2", "x", "x", HostnameFor(f.agents, "1"), SingleDiskDir(f.reports, "1", "x"));
    assert OneInversion(f, "1", rec, res, e);
    OneInversionsEdits(f, "1", rec, res, e);
    k := DuplicateRetryDiffers(f, "1", rec, res, e, EntryFor("x", 60), EntryFor("x", 120), c1, c2);
  }

  /** On agent a alone, whose host both of its inversions name: y becomes z and x becomes y. */
  function SelfFleet(): Files {
    Files([Failover.PlainAgent("1", "a")], map[], map["1" := [EntryFor("x", 60), EntryFor("y", 120)]], [],
          map["o" := InversionOf("y", "a", "z"), "p" := InversionOf("x", "a", "y")])
  }

  lemma AgentOfA(agents: seq<Agent>)
    requires agents == [Failover.PlainAgent("1", "a")]
    ensures AgentFor(agents, "a") == "1"
  {
    SortPermutes(ByHostname, agents);
    ServingExists(Roster(agents), "a");
    assert agents[0] in agents && Serves(agents[0], "a");
  }

  lemma SelfEntries()
    ensures WellOrdered(SelfFleet().schedules)
    ensures At(SelfFleet().schedules, "1", "x") == Some(EntryFor("x", 60))
    ensures At(SelfFleet().schedules, "1", "y") == Some(EntryFor("y", 120))
  {
    var entries := [EntryFor("x", 60), EntryFor("y", 120)];
    assert Less("x", "y") && "x" != "y";
    FindIs(entries, "x", 0);
    FindIs(entries, "y", 1);
  }

  /** A retry at this fleet replaces one entry by the other. */
  lemma SelfFleetDiffers(c1: nat -> int, c2: nat -> int) returns (k: nat)
    ensures Completes(SelfFleet(), "1", [Success("o"), Success("p")])
    ensures k <= |Record(SelfFleet(), "1", [Success("o"), Success("p")], c1).writes|
    ensures !RetriesAlike(SelfFleet(), "1", [Success("o"), Success("p")], k, c1, c2)
  {
    var f, r, q := SelfFleet(), InversionOf("y", "a", "z"), InversionOf("x", "a", "y");
    var first, second := Success("o"), Success("p");
    var host := HostnameFor(f.agents, "1");
    AgentOfA(f.agents);
    SelfEntries();
    var d := Moving("1", "1", "y", "z", host, SingleDiskDir(f.reports, "1", "y"));
    var e := Moving("1", "1", "x", "y", host, SingleDiskDir(f.reports, "1", "x"));
    assert "o" != "p" && "x" != "y" && "y" != "z" && "x" != "z";
    assert TwoInversions(f, "1", r, q, first, second, d, e);
    TwoInversionsEdits(f, "1", r, q, first, second, d, e);
    k := SelfInversionRetryDiffers(f, "1", r, q, first, second, d, e, c1, c2);
  }

  /** A list with a VM twice arises from no edit, so on an estate built by edits it is enough that no
      inversion's peer is its own agent. */
  lemma OrderedEstateIsSafe(f: Files, agentID: string)
    requires WellOrdered(f.schedules)
    requires forall id | id in f.operations ::
               var rec := f.operations[id];
               rec.agentID == agentID && rec.op.kind == OP_INVERT && !rec.followUpDone ==>
                 AgentFor(f.agents, rec.op.peerHost) != agentID
    ensures SafeToRetry(f, agentID)
  {
    OrderedIsDistinct(ListOf(f.schedules, agentID));
  }
}
