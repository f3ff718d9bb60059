/** The ledger over whole runs: operations issued, withdrawn and reported on in any order, with
    reports that fail or are cut short anywhere among them. */
module Runs {
  import opened Text
  import opened Records
  import opened Operations

  /** One atomic step of the ledger. A report whose ledger write was never reached, because it
      crashed or because a follow-up could not be carried out, is one with stored false. */
  datatype Step =
    | Creating(agentID: string, auditID: string, op: Operation, id: string, now: int)
    | Cancelling(id: string, who: string, now: int)
    | Reporting(agentID: string, results: seq<OperationResult>, stored: bool)

  function Next(ops: Ledger, s: Step): Ledger {
    var loaded := Load(ops);
    match s
    case Creating(agentID, auditID, op, id, now) =>
      if CreateAnswer(loaded, agentID, op) == Accepted then loaded[id := Issued(agentID, auditID, op, id, now)] else ops
    case Cancelling(id, who, now) =>
      if CancelAnswer(loaded, id) == Accepted then loaded[id := Withdrawn(loaded[id], who, now)] else ops
    case Reporting(agentID, results, stored) =>
      var plan := PlanFor(loaded, agentID, results);
      if stored && plan.changed then plan.ops else ops
  }

  function Run(ops: Ledger, steps: seq<Step>): Ledger {
    if steps == [] then ops else Next(Run(ops, steps[..|steps| - 1]), steps[|steps| - 1])
  }

  /** Ids are fresh when they are drawn. */
  predicate FreshIds(ops: Ledger, steps: seq<Step>) {
    forall i | 0 <= i < |steps| && steps[i].Creating? :: steps[i].id !in Run(ops, steps[..i])
  }

  // ----- what every step keeps -----

  /** Marks as the store writes them, old builds included: a follow-up is marked done only where
      a result was filed, and every filed outcome is so marked. */
  ghost predicate Honest(ops: Ledger) {
    forall id | id in ops ::
      && (ops[id].followUpDone ==> ops[id].result.Some?)
      && (ops[id].result.Some? && ops[id].result.value.Terminal() ==> ops[id].followUpDone)
  }

  /** No VM has two operations in flight, whatever the case it is written in. */
  ghost predicate Exclusive(ops: Ledger) {
    forall a, b | a in ops && b in ops && a != b ::
      !(ops[a].Pending() && ops[b].Pending() && EqualFold(ops[a].op.vm, ops[b].op.vm))
  }

  ghost predicate Sound(ops: Ledger) {
    Honest(ops) && Exclusive(Load(ops)) && KeyedByID(ops)
  }

  /** An operation once withheld is withheld for good. */
  ghost predicate NeverReturns(before: Ledger, after: Ledger) {
    forall id | id in before ::
      && id in after
      && after[id].agentID == before[id].agentID
      && (!before[id].Pending() ==> !after[id].Pending())
  }

  lemma {:induction false} AbsorbKeepsHonesty(id: string, rec: OperationRecord, agentID: string,
                                              results: seq<OperationResult>)
    requires rec.followUpDone ==> rec.result.Some?
    requires rec.result.Some? && rec.result.value.Terminal() ==> rec.followUpDone
    ensures Descends(rec, AbsorbAll(id, rec, agentID, results))
  {
    if results != [] { AbsorbKeepsHonesty(id, rec, agentID, results[..|results| - 1]); }
  }

  /** An honest ledger read back is itself honest, and publishes nothing the file did not. */
  lemma LoadKeeps(ops: Ledger)
    requires Honest(ops)
    ensures Honest(Load(ops)) && Load(Load(ops)) == Load(ops) && (KeyedByID(ops) ==> KeyedByID(Load(ops)))
    ensures forall id | id in ops :: !Stuck(Load(ops)[id])
  {
    forall id | id in ops { HealSettles(ops[id]); }
  }

  lemma ReportKeeps(ops: Ledger, agentID: string, results: seq<OperationResult>)
    requires Sound(ops)
    ensures Sound(PlanFor(Load(ops), agentID, results).ops)
    ensures NeverReturns(Load(ops), Load(PlanFor(Load(ops), agentID, results).ops))
  {
    var loaded, after := Load(ops), PlanFor(Load(ops), agentID, results).ops;
    LoadKeeps(ops);
    PlanIsPointwise(loaded, agentID, results);
    forall id | id in loaded ensures Descends(loaded[id], after[id]) {
      AbsorbKeepsHonesty(id, loaded[id], agentID, results);
    }
    DescendantsKeep(loaded, after);
  }

  /** What becomes of an honest record: honest, the same operation, and pending only if it was. */
  predicate Descends(was: OperationRecord, r: OperationRecord) {
    && (r.followUpDone ==> r.result.Some?)
    && (r.result.Some? && r.result.value.Terminal() ==> r.followUpDone)
    && (r.Pending() ==> was.Pending())
    && r.op == was.op && r.agentID == was.agentID
  }

  lemma DescendantsKeep(before: Ledger, after: Ledger)
    requires before.Keys == after.Keys && (forall id | id in before :: Descends(before[id], after[id]))
    requires Exclusive(before) && KeyedByID(before)
    ensures Sound(after) && NeverReturns(before, Load(after))
  {
    var loaded := Load(after);
    forall id | id in after ensures loaded[id].Pending() ==> before[id].Pending() {
      HealSettles(after[id]);
      assert Descends(before[id], after[id]);
    }
    forall id | id in after ensures loaded[id].op == before[id].op && loaded[id].agentID == before[id].agentID {
      assert Descends(before[id], after[id]);
    }
    forall id | id in after
      ensures (after[id].followUpDone ==> after[id].result.Some?)
           && (after[id].result.Some? && after[id].result.value.Terminal() ==> after[id].followUpDone)
    {
      assert Descends(before[id], after[id]);
    }
    assert KeyedByID(after) by {
      forall id | id in after ensures after[id].op.id == id { assert Descends(before[id], after[id]); }
    }
  }

  lemma CreateKeeps(ops: Ledger, agentID: string, auditID: string, op: Operation, id: string, now: int)
    requires Sound(ops) && id !in ops && CreateAnswer(Load(ops), agentID, op) == Accepted
    ensures var after := Load(ops)[id := Issued(agentID, auditID, op, id, now)];
            Sound(after) && NeverReturns(Load(ops), Load(after))
  {
    LoadKeeps(ops);
    var loaded := Load(ops);
    var after := loaded[id := Issued(agentID, auditID, op, id, now)];
    assert Load(after) == after;
    forall b | b in loaded && loaded[b].Pending() ensures !EqualFold(loaded[b].op.vm, op.vm) {}
  }

  lemma CancelKeeps(ops: Ledger, id: string, who: string, now: int)
    requires Sound(ops) && CancelAnswer(Load(ops), id) == Accepted
    ensures var after := Load(ops)[id := Withdrawn(Load(ops)[id], who, now)];
            Sound(after) && NeverReturns(Load(ops), Load(after))
  {
    LoadKeeps(ops);
    var after := Load(ops)[id := Withdrawn(Load(ops)[id], who, now)];
    assert Load(after) == after;
  }

  lemma StepKeeps(ops: Ledger, s: Step)
    requires Sound(ops)
    requires s.Creating? ==> s.id !in ops
    ensures Sound(Next(ops, s))
    ensures NeverReturns(Load(ops), Load(Next(ops, s)))
  {
    match s
    case Creating(agentID, auditID, op, id, now) =>
      if CreateAnswer(Load(ops), agentID, op) == Accepted { CreateKeeps(ops, agentID, auditID, op, id, now); }
    case Cancelling(id, who, now) =>
      if CancelAnswer(Load(ops), id) == Accepted { CancelKeeps(ops, id, who, now); }
    case Reporting(agentID, results, stored) => ReportKeeps(ops, agentID, results);
  }

  /** Over every run: no two operations in flight for one VM, every done follow-up beside a
      stored outcome, and nothing withheld is ever published again. */
  lemma {:induction false} EveryRunIsSound(ops: Ledger, steps: seq<Step>)
    requires Sound(ops) && FreshIds(ops, steps)
    ensures Sound(Run(ops, steps))
    ensures Exclusive(Load(Run(ops, steps)))
    ensures NeverReturns(Load(ops), Load(Run(ops, steps)))
    ensures forall id | id in Run(ops, steps) ::
              var rec := Load(Run(ops, steps))[id];
              rec.followUpDone <==> rec.result.Some? && rec.result.value.Terminal()
  {
    if steps != [] {
      var n := |steps| - 1;
      assert forall i | 0 <= i < n :: steps[..n][..i] == steps[..i];
      EveryRunIsSound(ops, steps[..n]);
      StepKeeps(Run(ops, steps[..n]), steps[n]);
    }
  }

  /** Exactly when a result brings an operation back: it is progress, from its own agent, on an
      outcome whose follow-up was never marked, which Honest rules out. */
  lemma ResultRepublishesIff(rec: OperationRecord, agentID: string, res: OperationResult)
    requires !rec.Pending()
    ensures Absorb(rec, agentID, res).Pending()
            <==> rec.cancelledAtUnix == 0 && rec.agentID == agentID && !rec.followUpDone && !res.Terminal()
  {}

  // ----- publishing is issuing, withdrawing is acknowledging -----

  predicate Publishes(ops: Ledger, agentID: string, id: string) {
    id in ops && Load(ops)[id].agentID == agentID && Load(ops)[id].Pending()
  }

  /** Issuing an operation publishes it to its agent, and changes nothing else that is published. */
  lemma IssuingPublishes(ops: Ledger, agentID: string, auditID: string, op: Operation, id: string, now: int,
                         a: string, k: string)
    requires Honest(ops) && id !in ops && CreateAnswer(Load(ops), agentID, op) == Accepted
    ensures Publishes(Next(ops, Creating(agentID, auditID, op, id, now)), a, k)
            <==> Publishes(ops, a, k) || (a == agentID && k == id)
  {
    LoadKeeps(ops);
  }

  /** Withdrawing one stops it being published, and nothing else. */
  lemma CancellingWithdraws(ops: Ledger, id: string, who: string, now: int, a: string, k: string)
    requires Honest(ops) && now != 0 && CancelAnswer(Load(ops), id) == Accepted
    ensures Publishes(Next(ops, Cancelling(id, who, now)), a, k) <==> Publishes(ops, a, k) && k != id
  {
    LoadKeeps(ops);
  }

  predicate Concludes(results: seq<OperationResult>, id: string) {
    exists i | 0 <= i < |results| :: results[i].id == id && results[i].Terminal()
  }

  /** A stored report withdraws exactly those of its agent's operations that it brings an outcome
      for: that is the acknowledgement, and progress is none. */
  lemma ReportingAcknowledges(ops: Ledger, agentID: string, results: seq<OperationResult>, a: string, k: string)
    requires Honest(ops)
    ensures Publishes(Next(ops, Reporting(agentID, results, true)), a, k)
            <==> Publishes(ops, a, k) && !(a == agentID && Concludes(results, k))
  {
    LoadKeeps(ops);
    var loaded := Load(ops);
    var plan := PlanFor(loaded, agentID, results);
    PlanIsPointwise(loaded, agentID, results);
    if k in ops {
      AbsorbKeepsHonesty(k, loaded[k], agentID, results);
      HealSettles(plan.ops[k]);
      if loaded[k].Pending() { PendingUntilConcluded(k, loaded[k], agentID, results); }
    }
  }

  lemma {:induction false} PendingUntilConcluded(id: string, rec: OperationRecord, agentID: string,
                                                 results: seq<OperationResult>)
    requires rec.Pending() && !rec.followUpDone
    ensures var r := AbsorbAll(id, rec, agentID, results);
            && (r.Pending() <==> !(rec.agentID == agentID && Concludes(results, id)))
            && (r.followUpDone <==> rec.agentID == agentID && Concludes(results, id))
            && r.agentID == rec.agentID && r.cancelledAtUnix == rec.cancelledAtUnix
            && (r.followUpDone ==> r.result.Some?)
  {
    if results != [] {
      var n := |results| - 1;
      PendingUntilConcluded(id, rec, agentID, results[..n]);
      OneMoreResult(results, id);
    }
  }

  lemma OneMoreResult(results: seq<OperationResult>, id: string)
    requires results != []
    ensures var n := |results| - 1;
            Concludes(results, id) <==> Concludes(results[..n], id) || (results[n].id == id && results[n].Terminal())
  {
    var n := |results| - 1;
    forall i | 0 <= i < n ensures results[..n][i] == results[i] {}
    if Concludes(results[..n], id) {
      var i :| 0 <= i < n && results[..n][i].id == id && results[..n][i].Terminal();
      assert results[i].id == id && results[i].Terminal();
    }
  }

  // ----- the verdict on one operation -----

  datatype Batch = Batch(agentID: string, results: seq<OperationResult>)

  datatype History = History(ops: Ledger, effects: seq<Effect>)

  /** The ledger, and all the effects, after a sequence of batches each of which succeeded. */
  function AfterBatches(ops: Ledger, batches: seq<Batch>): History {
    if batches == [] then History(ops, [])
    else
      var n := |batches| - 1;
      var before := AfterBatches(ops, batches[..n]);
      var plan := PlanFor(Load(before.ops), batches[n].agentID, batches[n].results);
      History(if plan.changed then plan.ops else before.ops, before.effects + plan.effects)
  }

  function Naming(id: string, results: seq<OperationResult>): seq<OperationResult> {
    if results == [] then []
    else
      var n := |results| - 1;
      Naming(id, results[..n]) + (if results[n].id == id then [results[n]] else [])
  }

  /** Everything an operation's own agent ever said about it, in order of arrival. */
  function Said(batches: seq<Batch>, agentID: string, id: string): seq<OperationResult> {
    if batches == [] then []
    else
      var n := |batches| - 1;
      Said(batches[..n], agentID, id)
      + (if batches[n].agentID == agentID then Naming(id, batches[n].results) else [])
  }

  function FirstOutcome(said: seq<OperationResult>): Option<OperationResult> {
    if said == [] then None
    else if said[0].Terminal() then Some(said[0])
    else FirstOutcome(said[1..])
  }

  /** The first outcome if there was one, and the latest progress otherwise. */
  function Verdict(said: seq<OperationResult>): Option<OperationResult> {
    if FirstOutcome(said).Some? then FirstOutcome(said)
    else if said == [] then None else Some(said[|said| - 1])
  }

  lemma {:induction false} OneMoreWord(said: seq<OperationResult>, r: OperationResult)
    ensures FirstOutcome(said + [r])
            == if FirstOutcome(said).Some? then FirstOutcome(said) else if r.Terminal() then Some(r) else None
  {
    if said == [] {
      assert said + [r] == [r];
    } else {
      assert (said + [r])[1..] == said[1..] + [r];
      OneMoreWord(said[1..], r);
    }
  }

  /** The outcomes that were followed up for one operation. */
  function FollowedUp(effects: seq<Effect>, id: string): seq<OperationResult> {
    if effects == [] then []
    else
      var e := effects[|effects| - 1];
      FollowedUp(effects[..|effects| - 1], id) + (if e.Consequence? && e.res.id == id then [e.res] else [])
  }

  lemma {:induction false} FollowedUpConcat(a: seq<Effect>, b: seq<Effect>, id: string)
    ensures FollowedUp(a + b, id) == FollowedUp(a, id) + FollowedUp(b, id)
  {
    if b == [] {
      assert a + b == a;
    } else {
      assert (a + b)[..|a + b| - 1] == a + b[..|b| - 1];
      FollowedUpConcat(a, b[..|b| - 1], id);
    }
  }

  /** A record that stands at a verdict, its follow-up done just when that verdict is an outcome. */
  predicate StandsAt(rec: OperationRecord, said: seq<OperationResult>) {
    rec.result == Verdict(said) && rec.followUpDone == FirstOutcome(said).Some?
  }

  function AtMostOne(r: Option<OperationResult>): seq<OperationResult> {
    if r.Some? then [r.value] else []
  }

  /** The outcome that became the first one between two moments. */
  function Since(said: seq<OperationResult>, now: seq<OperationResult>): seq<OperationResult> {
    if FirstOutcome(said).Some? then [] else AtMostOne(FirstOutcome(now))
  }

  lemma {:induction false} BatchFollowsVerdict(ops: Ledger, batch: Batch, id: string, said: seq<OperationResult>)
    requires id in ops && StandsAt(ops[id], said)
    ensures id in PlanFor(ops, batch.agentID, batch.results).ops
    ensures var plan := PlanFor(ops, batch.agentID, batch.results);
            var now := said + (if batch.agentID == ops[id].agentID then Naming(id, batch.results) else []);
            && StandsAt(plan.ops[id], now)
            && plan.ops[id].agentID == ops[id].agentID
            && FollowedUp(plan.effects, id) == Since(said, now)
            && (FirstOutcome(said).Some? ==> FirstOutcome(now) == FirstOutcome(said))
    decreases |batch.results|
  {
    if batch.results == [] {
      assert said + [] == said;
    } else {
      var n := |batch.results| - 1;
      var init, res := Batch(batch.agentID, batch.results[..n]), batch.results[n];
      BatchFollowsVerdict(ops, init, id, said);
      var plan := PlanFor(ops, init.agentID, init.results);
      var heard := if batch.agentID == ops[id].agentID then Naming(id, init.results) else [];
      ResultFollowsVerdict(plan, batch.agentID, res, id, said + heard);
      if res.id == id && batch.agentID == ops[id].agentID {
        assert said + (heard + [res]) == said + heard + [res];
      } else {
        assert heard + [] == heard;
      }
    }
  }

  lemma ResultFollowsVerdict(plan: Plan, agentID: string, res: OperationResult, id: string, said: seq<OperationResult>)
    requires id in plan.ops && StandsAt(plan.ops[id], said)
    ensures var after := Take(plan, agentID, res);
            var now := if res.id == id && agentID == plan.ops[id].agentID then said + [res] else said;
            && id in after.ops && StandsAt(after.ops[id], now)
            && after.ops[id].agentID == plan.ops[id].agentID
            && FollowedUp(after.effects, id)
               == FollowedUp(plan.effects, id) + Since(said, now)
            && (FirstOutcome(said).Some? ==> FirstOutcome(now) == FirstOutcome(said))
  {
    OneMoreWord(said, res);
    if res.id in plan.ops {
      FollowedUpConcat(plan.effects, EffectsOf(plan.ops[res.id], agentID, res), id);
      OneStepFollowsUp(plan.ops[res.id], agentID, res, id);
    }
  }

  lemma OneStepFollowsUp(rec: OperationRecord, agentID: string, res: OperationResult, id: string)
    ensures FollowedUp(EffectsOf(rec, agentID, res), id)
            == if res.id == id && rec.agentID == agentID && !rec.followUpDone && res.Terminal() then [res] else []
  {
    var effects := EffectsOf(rec, agentID, res);
    assert FollowedUp([], id) == [];
    if |effects| == 2 {
      assert effects[..1] == [effects[0]] && effects[..1][..0] == [];
      assert FollowedUp(effects[..1], id) == FollowedUp([], id) + (if res.id == id then [res] else []);
    } else if |effects| == 1 {
      assert effects[..0] == [];
    }
  }

  /** However results are duplicated, reordered, replayed and interleaved with those of other
      agents: an operation ends at the first outcome its own agent sent, or failing that at its
      latest progress, and its follow-up ran once if there was an outcome and never otherwise. */
  lemma {:induction false} FirstOutcomeWins(ops: Ledger, batches: seq<Batch>, id: string)
    requires id in ops && ops[id].result == None && !ops[id].followUpDone
    ensures id in AfterBatches(ops, batches).ops
    ensures var said := Said(batches, ops[id].agentID, id);
            var rec := AfterBatches(ops, batches).ops[id];
            && StandsAt(rec, said)
            && rec.agentID == ops[id].agentID
            && Load(AfterBatches(ops, batches).ops)[id].result == Verdict(said)
            && FollowedUp(AfterBatches(ops, batches).effects, id) == AtMostOne(FirstOutcome(said))
  {
    if batches != [] {
      var n := |batches| - 1;
      FirstOutcomeWins(ops, batches[..n], id);
      var before := AfterBatches(ops, batches[..n]);
      var said := Said(batches[..n], ops[id].agentID, id);
      var plan := PlanFor(Load(before.ops), batches[n].agentID, batches[n].results);
      OutcomeIsTerminal(said);
      BatchFollowsVerdict(Load(before.ops), batches[n], id, said);
      PlanIsPointwise(Load(before.ops), batches[n].agentID, batches[n].results);
      FollowedUpConcat(before.effects, plan.effects, id);
      OutcomeIsTerminal(Said(batches, ops[id].agentID, id));
    }
  }

  lemma {:induction false} OutcomeIsTerminal(said: seq<OperationResult>)
    ensures FirstOutcome(said).Some? ==> FirstOutcome(said).value.Terminal()
  {
    if said != [] { OutcomeIsTerminal(said[1..]); }
  }

  // ----- the verdict over whole runs -----

  /** What a step adds to what its own agent is on record as having said about an operation: only a
      report whose ledger was stored leaves a word. */
  function Heard(s: Step, agentID: string, id: string): seq<OperationResult> {
    if s.Reporting? && s.stored && s.agentID == agentID then Naming(id, s.results) else []
  }

  function OnRecord(steps: seq<Step>, agentID: string, id: string): seq<OperationResult> {
    if steps == [] then []
    else OnRecord(steps[..|steps| - 1], agentID, id) + Heard(steps[|steps| - 1], agentID, id)
  }

  /** The effects of the reports whose ledger was stored, in order. */
  function Acknowledged(ops: Ledger, steps: seq<Step>): seq<Effect> {
    if steps == [] then []
    else
      var n := |steps| - 1;
      Acknowledged(ops, steps[..n]) + EffectsOfStep(Run(ops, steps[..n]), steps[n])
  }

  function EffectsOfStep(ops: Ledger, s: Step): seq<Effect> {
    if s.Reporting? && s.stored then PlanFor(Load(ops), s.agentID, s.results).effects else []
  }

  lemma StandingIsHealed(rec: OperationRecord, said: seq<OperationResult>)
    requires StandsAt(rec, said)
    ensures Heal(rec) == rec
  {
    OutcomeIsTerminal(said);
  }

  lemma StepFollowsVerdict(ops: Ledger, s: Step, id: string, said: seq<OperationResult>)
    requires id in ops && StandsAt(ops[id], said) && !(s.Creating? && s.id == id)
    ensures id in Next(ops, s) && Next(ops, s)[id].agentID == ops[id].agentID
    ensures var now := said + Heard(s, ops[id].agentID, id);
            && StandsAt(Next(ops, s)[id], now)
            && FollowedUp(EffectsOfStep(ops, s), id) == Since(said, now)
            && (FirstOutcome(said).Some? ==> FirstOutcome(now) == FirstOutcome(said))
  {
    StandingIsHealed(ops[id], said);
    if s.Reporting? && s.stored {
      BatchFollowsVerdict(Load(ops), Batch(s.agentID, s.results), id, said);
      PlanIsPointwise(Load(ops), s.agentID, s.results);
    } else {
      assert said + [] == said;
    }
  }

  /** Over any run, refused and interrupted reports, new operations and withdrawals included: an
      operation ends at the first outcome its own agent's stored reports brought, or failing that at
      their latest progress, and among stored reports its follow-up was due once if there was an outcome
      and never otherwise. */
  lemma {:induction false} FirstStoredOutcomeWins(ops: Ledger, steps: seq<Step>, id: string)
    requires id in ops && ops[id].result == None && !ops[id].followUpDone && FreshIds(ops, steps)
    ensures id in Run(ops, steps) && Run(ops, steps)[id].agentID == ops[id].agentID
    ensures var said := OnRecord(steps, ops[id].agentID, id);
            && StandsAt(Run(ops, steps)[id], said)
            && Load(Run(ops, steps))[id].result == Verdict(said)
            && FollowedUp(Acknowledged(ops, steps), id) == AtMostOne(FirstOutcome(said))
  {
    if steps != [] {
      var n := |steps| - 1;
      assert forall i | 0 <= i < n :: steps[..n][..i] == steps[..i];
      FirstStoredOutcomeWins(ops, steps[..n], id);
      var said := OnRecord(steps[..n], ops[id].agentID, id);
      StepFollowsVerdict(Run(ops, steps[..n]), steps[n], id, said);
      FollowedUpConcat(Acknowledged(ops, steps[..n]), EffectsOfStep(Run(ops, steps[..n]), steps[n]), id);
    }
    StandingIsHealed(Run(ops, steps)[id], OnRecord(steps, ops[id].agentID, id));
  }

  /** Published is what is filed for the agent and outstanding in the file. */
  lemma PublishedIs(ops: Ledger, agentID: string, id: string)
    ensures Publishes(ops, agentID, id) <==> id in ops && ops[id].agentID == agentID && Outstanding(ops[id])
  {
    if id in ops { OutstandingIsPending(ops[id]); }
  }

  /** Over any run, a withdrawal is accepted exactly while nothing about the operation is on record and it
      has not been withdrawn: it never lands on work that has begun. */
  lemma WithdrawalIsUnheard(ops: Ledger, steps: seq<Step>, id: string)
    requires id in ops && ops[id].result == None && !ops[id].followUpDone && FreshIds(ops, steps)
    ensures id in Run(ops, steps)
    ensures CancelAnswer(Load(Run(ops, steps)), id) == Accepted
            <==> OnRecord(steps, ops[id].agentID, id) == [] && Run(ops, steps)[id].cancelledAtUnix == 0
  {
    FirstStoredOutcomeWins(ops, steps, id);
    CancelAnswers(Run(ops, steps), id);
  }
}
