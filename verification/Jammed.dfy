/** A batch that cannot be followed: an inversion reported done while nobody is enrolled for its peer.
    The consequence comes before the ledger, so nothing else in the batch is acknowledged either. */
module Jammed {
  import opened Text
  import opened Sorting
  import opened Records
  import opened Operations
  import opened FollowUps
  import opened Recording
  import opened CrashRetry
  import opened Runs

  /** The batch's first outcome for an inversion still to be followed up is its success, and the store
      finds no agent for its peer. */
  ghost predicate Jams(f: Files, agentID: string, results: seq<OperationResult>, id: string) {
    var ops := Load(f.operations);
    && id in ops && ops[id].agentID == agentID && !ops[id].followUpDone
    && ops[id].op.kind == OP_INVERT && ops[id].op.peerHost != ""
    && AgentFor(f.agents, ops[id].op.peerHost) == ""
    && FirstOutcome(Naming(id, results)).Some? && FirstOutcome(Naming(id, results)).value.state == STATE_DONE
  }

  /** Of each of the agent's records still to be followed up, a batch follows the first outcome. */
  lemma {:induction false} FirstOutcomeIsFollowed(ops: Ledger, agentID: string, results: seq<OperationResult>,
                                                  id: string)
    requires id in ops && ops[id].agentID == agentID
    ensures var plan, first := PlanFor(ops, agentID, results), FirstOutcome(Naming(id, results));
            && id in plan.ops && plan.ops[id].agentID == agentID
            && plan.ops[id].followUpDone == (ops[id].followUpDone || first.Some?)
            && FollowedUp(plan.effects, id) == if ops[id].followUpDone then [] else AtMostOne(first)
  {
    if results != [] {
      var n := |results| - 1;
      var before := PlanFor(ops, agentID, results[..n]);
      FirstOutcomeIsFollowed(ops, agentID, results[..n], id);
      OneMoreOutcome(before, agentID, results[n], id);
      OneMoreNamed(results, id);
      assert PlanFor(ops, agentID, results) == Take(before, agentID, results[n]);
    }
  }

  lemma OneMoreNamed(results: seq<OperationResult>, id: string)
    requires results != []
    ensures var n := |results| - 1;
            var before := FirstOutcome(Naming(id, results[..n]));
            FirstOutcome(Naming(id, results))
            == if before.Some? || results[n].id != id then before
               else if results[n].Terminal() then Some(results[n]) else None
  {
    var n := |results| - 1;
    OneMoreWord(Naming(id, results[..n]), results[n]);
    assert Naming(id, results[..n]) + [] == Naming(id, results[..n]);
  }

  lemma OneMoreOutcome(plan: Plan, agentID: string, res: OperationResult, id: string)
    requires id in plan.ops && plan.ops[id].agentID == agentID
    ensures var after := Take(plan, agentID, res);
            && id in after.ops && after.ops[id].agentID == agentID
            && after.ops[id].followUpDone == (plan.ops[id].followUpDone || (res.id == id && res.Terminal()))
            && FollowedUp(after.effects, id)
               == FollowedUp(plan.effects, id)
                  + if res.id == id && !plan.ops[id].followUpDone && res.Terminal() then [res] else []
  {
    if res.id in plan.ops {
      FollowedUpConcat(plan.effects, EffectsOf(plan.ops[res.id], agentID, res), id);
      OneStepFollowsUp(plan.ops[res.id], agentID, res, id);
    }
  }

  lemma {:induction false} FollowedUpHolds(effects: seq<Effect>, id: string, res: OperationResult)
    ensures res in FollowedUp(effects, id)
            <==> res.id == id && exists e :: e in effects && e.Consequence? && e.res == res
  {
    if effects != [] {
      var n := |effects| - 1;
      FollowedUpHolds(effects[..n], id, res);
      assert effects == effects[..n] + [effects[n]];
    }
  }

  lemma {:induction false} FirstOutcomeIsNamed(results: seq<OperationResult>, id: string)
    ensures forall r | r in Naming(id, results) :: r.id == id
    ensures FirstOutcome(Naming(id, results)).Some? ==> FirstOutcome(Naming(id, results)).value in Naming(id, results)
  {
    if results != [] {
      var n := |results| - 1;
      FirstOutcomeIsNamed(results[..n], id);
      OneMoreNamed(results, id);
    }
  }

  lemma JamStrands(f: Files, agentID: string, results: seq<OperationResult>, id: string)
    requires Jams(f, agentID, results, id)
    ensures !Completes(f, agentID, results)
  {
    var res := FirstOutcome(Naming(id, results)).value;
    var e := OutcomesEffect(f, agentID, results, id);
    ConsequencesAreOwn(Load(f.operations), agentID, results, e);
    FirstOutcomeIsNamed(results, id);
    assert Strands(f, e);
  }

  lemma OutcomesEffect(f: Files, agentID: string, results: seq<OperationResult>, id: string) returns (e: Effect)
    requires var ops := Load(f.operations); id in ops && ops[id].agentID == agentID && !ops[id].followUpDone
    requires FirstOutcome(Naming(id, results)).Some?
    ensures e in PlanOf(f, agentID, results).effects && e.Consequence?
    ensures e.res == FirstOutcome(Naming(id, results)).value
  {
    var effects, res := PlanOf(f, agentID, results).effects, FirstOutcome(Naming(id, results)).value;
    FirstOutcomeIsFollowed(Load(f.operations), agentID, results, id);
    assert res in FollowedUp(effects, id);
    FollowedUpHolds(effects, id, res);
    e :| e in effects && e.Consequence? && e.res == res;
  }

  lemma StrandJams(f: Files, agentID: string, results: seq<OperationResult>, e: Effect)
    requires e in PlanOf(f, agentID, results).effects && Strands(f, e)
    ensures Jams(f, agentID, results, e.res.id)
  {
    var ops := Load(f.operations);
    ConsequencesAreOwn(ops, agentID, results, e);
    FollowedUpHolds(PlanOf(f, agentID, results).effects, e.res.id, e.res);
    FirstOutcomeIsFollowed(ops, agentID, results, e.res.id);
  }

  /** A batch is refused exactly when it holds such a success. */
  lemma RefusedIffJammed(f: Files, agentID: string, results: seq<OperationResult>, clock: nat -> int)
    ensures Record(f, agentID, results, clock).answer == NoAgentForPeer <==> exists id :: Jams(f, agentID, results, id)
  {
    CompletesIsAccepted(f, agentID, results, clock);
    if id :| Jams(f, agentID, results, id) {
      JamStrands(f, agentID, results, id);
    } else if !Completes(f, agentID, results) {
      var e :| e in PlanOf(f, agentID, results).effects && Strands(f, e);
      StrandJams(f, agentID, results, e);
    }
  }

  /** It then leaves the ledger, the roster and the reports alone, wherever it is cut. */
  lemma JammedBatchLeavesTheLedger(f: Files, agentID: string, results: seq<OperationResult>, id: string,
                                   clock: nat -> int, k: nat)
    requires Jams(f, agentID, results, id)
    requires k <= |Record(f, agentID, results, clock).writes|
    ensures var cut := Replay(f, Record(f, agentID, results, clock).writes[..k]);
            cut.operations == f.operations && cut.agents == f.agents && cut.reports == f.reports
  {
    JamStrands(f, agentID, results, id);
    var effects := PlanOf(f, agentID, results).effects;
    var part := effects[..FirstStranded(f, effects)];
    CompletesIsAccepted(f, agentID, results, clock);
    var m := CutAtEffect(f, part, clock, k);
    PerformIsTwoFiles(f, part[..m], clock);
  }

  // ----- report after report -----

  /** A report request of the agent: its inventory, its results, when it comes and where it is cut. */
  datatype Attempt = Attempt(report: Report, results: seq<OperationResult>, at: int, cut: nat)

  ghost function Attempted(f: Files, agentID: string, t: Attempt, clock: nat -> int): Files {
    var all := Handle(f, agentID, t.report, t.results, t.at, clock).writes;
    Replay(f, all[..if t.cut <= |all| then t.cut else |all|])
  }

  lemma JamsAlike(f: Files, g: Files, agentID: string, results: seq<OperationResult>, id: string)
    requires Jams(f, agentID, results, id) && Alike(f.agents, g.agents) && g.operations == f.operations
    ensures Jams(g, agentID, results, id)
  {}

  /** Its inventory is stored, whatever becomes of its results; the ledger is not touched. */
  lemma JammedAttempt(f: Files, agentID: string, t: Attempt, id: string, clock: nat -> int)
    requires Jams(f, agentID, t.results, id)
    ensures Handle(f, agentID, t.report, t.results, t.at, clock).answer == NoAgentForPeer
    ensures var after := Attempted(f, agentID, t, clock);
            after.operations == f.operations && Alike(f.agents, after.agents)
  {
    var saved := Saved(f, agentID, t.report, t.at);
    SeenIsAlike(f.agents, agentID, t.report, t.at);
    JamsAlike(f, saved, agentID, t.results, id);
    RefusedIffJammed(saved, agentID, t.results, clock);
    var all := Handle(f, agentID, t.report, t.results, t.at, clock).writes;
    var k := if t.cut <= |all| then t.cut else |all|;
    if k < 2 {
      CutWhileSaving(f, agentID, t, clock, k);
    } else {
      CutAfterSaving(f, agentID, t, clock, k);
      JammedBatchLeavesTheLedger(saved, agentID, t.results, id, clock, k - 2);
    }
  }

  lemma CutWhileSaving(f: Files, agentID: string, t: Attempt, clock: nat -> int, k: nat)
    requires k < 2
    ensures var cut := Replay(f, Handle(f, agentID, t.report, t.results, t.at, clock).writes[..k]);
            cut.operations == f.operations && cut.agents == f.agents
  {
    CutOfConcat(SaveWrites(f, agentID, t.report, t.at),
                Record(Saved(f, agentID, t.report, t.at), agentID, t.results, clock).writes, k);
    SaveIsSaved(f, agentID, t.report, t.at);
  }

  lemma CutAfterSaving(f: Files, agentID: string, t: Attempt, clock: nat -> int, k: nat)
    requires 2 <= k <= |Handle(f, agentID, t.report, t.results, t.at, clock).writes|
    ensures var saved := Saved(f, agentID, t.report, t.at);
            Replay(f, Handle(f, agentID, t.report, t.results, t.at, clock).writes[..k])
            == Replay(saved, Record(saved, agentID, t.results, clock).writes[..k - 2])
  {
    var saves := SaveWrites(f, agentID, t.report, t.at);
    var rest := Record(Saved(f, agentID, t.report, t.at), agentID, t.results, clock).writes;
    assert (saves + rest)[..k] == saves + rest[..k - 2];
    SaveIsSaved(f, agentID, t.report, t.at);
    ReplayConcat(f, saves, rest[..k - 2]);
  }

  /** Report after report from one agent, each cut as short as may be. */
  ghost function AfterAttempts(f: Files, agentID: string, attempts: seq<Attempt>, clock: nat -> int): Files
    decreases |attempts|
  {
    if attempts == [] then f
    else AfterAttempts(Attempted(f, agentID, attempts[0], clock), agentID, attempts[1..], clock)
  }

  /** However often the agent reports, as long as it reports that success and nobody enrols for the
      peer: the ledger stands still, so no other outcome of its reports is acknowledged, and every VM
      with an operation in flight stays blocked. */
  lemma {:induction false} JammedForever(f: Files, agentID: string, attempts: seq<Attempt>, id: string,
                                         clock: nat -> int)
    requires forall t | t in attempts :: Jams(f, agentID, t.results, id)
    ensures var after := AfterAttempts(f, agentID, attempts, clock);
            && after.operations == f.operations && Alike(f.agents, after.agents)
            && (forall asker: string, k: string ::
                  Publishes(after.operations, asker, k) == Publishes(f.operations, asker, k))
            && (forall asker: string, op: Operation :: CreateAnswer(Load(after.operations), asker, op)
                                                       == CreateAnswer(Load(f.operations), asker, op))
    decreases |attempts|
  {
    if attempts != [] {
      var next := Attempted(f, agentID, attempts[0], clock);
      JammedAttempt(f, agentID, attempts[0], id, clock);
      forall t | t in attempts[1..] ensures Jams(next, agentID, t.results, id) {
        JamsAlike(f, next, agentID, t.results, id);
      }
      JammedForever(next, agentID, attempts[1..], id, clock);
    }
  }
}
