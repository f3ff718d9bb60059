/** Healing in memory on every read, against migrating the file once and never healing again. */
module Migration {
  import opened Text
  import opened Records
  import opened Operations

  datatype Command =
    | Create(agentID: string, auditID: string, op: Operation, id: string, now: int)
    | Cancel(id: string, who: string, now: int)
    | Submit(agentID: string, results: seq<OperationResult>)
    | List
    | Poll(agentID: string)

  /** What a caller gets to see of a command. */
  datatype Sight =
    | Answered(answer: Answer)
    | Caused(effects: seq<Effect>)
    | Listed(records: Ledger)
    | Published(operations: set<Operation>)

  datatype Build =
    | Healing      // reads through Load, as the store does
    | Migrated     // reads the file as it is

  function View(b: Build, ops: Ledger): Ledger { if b.Healing? then Load(ops) else ops }

  function After(b: Build, ops: Ledger, c: Command): Ledger {
    var view := View(b, ops);
    match c
    case Create(agentID, auditID, op, id, now) =>
      if CreateAnswer(view, agentID, op) == Accepted then view[id := Issued(agentID, auditID, op, id, now)] else ops
    case Cancel(id, who, now) =>
      if CancelAnswer(view, id) == Accepted then view[id := Withdrawn(view[id], who, now)] else ops
    case Submit(agentID, results) =>
      var plan := PlanFor(view, agentID, results);
      if plan.changed then plan.ops else ops
    case _ => ops
  }

  ghost function Shown(b: Build, ops: Ledger, c: Command): Sight {
    var view := View(b, ops);
    match c
    case Create(agentID, _, op, _, _) => Answered(CreateAnswer(view, agentID, op))
    case Cancel(id, _, _) => Answered(CancelAnswer(view, id))
    case Submit(agentID, results) => Caused(PlanFor(view, agentID, results).effects)
    case List => Listed(view)
    case Poll(agentID) => Published(PublishedSet(view, agentID))
  }

  ghost function Trace(b: Build, ops: Ledger, commands: seq<Command>): seq<Sight>
    decreases |commands|
  {
    if commands == [] then []
    else [Shown(b, ops, commands[0])] + Trace(b, After(b, ops, commands[0]), commands[1..])
  }

  /** A follow-up marked done stands beside a result. */
  ghost predicate Marked(ops: Ledger) {
    forall id | id in ops :: ops[id].followUpDone ==> ops[id].result.Some?
  }

  lemma {:induction false} AbsorbStaysWhole(id: string, rec: OperationRecord, agentID: string,
                                            results: seq<OperationResult>)
    requires !Stuck(rec) && (rec.followUpDone ==> rec.result.Some?)
    ensures var r := AbsorbAll(id, rec, agentID, results);
            !Stuck(r) && (r.followUpDone ==> r.result.Some?)
  {
    if results != [] { AbsorbStaysWhole(id, rec, agentID, results[..|results| - 1]); }
  }

  /** A ledger read back is left alone by another reading, and stays so when one more record that is not
      stuck is filed in it. */
  lemma HealedStays(ops: Ledger, id: string, rec: OperationRecord)
    requires Marked(ops) && !Stuck(rec) && (rec.followUpDone ==> rec.result.Some?)
    ensures var view := Load(ops);
            && Load(view) == view && Marked(view)
            && Load(view[id := rec]) == view[id := rec] && Marked(view[id := rec])
  {
    forall k | k in ops { HealSettles(ops[k]); }
  }

  lemma CommandAgrees(ops: Ledger, c: Command)
    requires Marked(ops)
    ensures Shown(Healing, ops, c) == Shown(Migrated, Load(ops), c)
    ensures Load(After(Healing, ops, c)) == After(Migrated, Load(ops), c)
    ensures Marked(After(Healing, ops, c))
  {
    var view := Load(ops);
    match c
    case Create(agentID, auditID, op, id, now) => HealedStays(ops, id, Issued(agentID, auditID, op, id, now));
    case Cancel(id, who, now) =>
      if CancelAnswer(view, id) == Accepted {
        HealSettles(ops[id]);
        HealedStays(ops, id, Withdrawn(view[id], who, now));
      }
    case Submit(agentID, results) => SubmitAgrees(ops, agentID, results);
    case _ =>
  }

  lemma SubmitAgrees(ops: Ledger, agentID: string, results: seq<OperationResult>)
    requires Marked(ops)
    ensures var plan := PlanFor(Load(ops), agentID, results);
            Marked(plan.ops) && Load(plan.ops) == plan.ops && (!plan.changed ==> plan.ops == Load(ops))
  {
    var view := Load(ops);
    var plan := PlanFor(view, agentID, results);
    PlanIsPointwise(view, agentID, results);
    forall id | id in view ensures !Stuck(plan.ops[id]) && (plan.ops[id].followUpDone ==> plan.ops[id].result.Some?) {
      HealSettles(ops[id]);
      AbsorbStaysWhole(id, view[id], agentID, results);
    }
  }

  lemma {:induction false} TracesAgree(ops: Ledger, commands: seq<Command>)
    requires Marked(ops)
    ensures Trace(Healing, ops, commands) == Trace(Migrated, Load(ops), commands)
    decreases |commands|
  {
    if commands != [] {
      CommandAgrees(ops, commands[0]);
      TracesAgree(After(Healing, ops, commands[0]), commands[1..]);
    }
  }

  /** A marked record with no result, reported on and then listed, tells the two builds apart. */
  lemma UnmarkedTellsApart(ops: Ledger, id: string)
    requires id in ops && ops[id].followUpDone && ops[id].result.None?
    ensures exists commands :: Trace(Healing, ops, commands) != Trace(Migrated, Load(ops), commands)
  {
    var progress := OperationResult(id, "", "", STATE_RUNNING, 0, 0, 0, "", "");
    var report := Submit(ops[id].agentID, [progress]);
    var commands := [report, List];
    assert [progress][..0] == [];
    assert commands[1..] == [List] && [List][1..] == [];
    var lazy, eager := After(Healing, ops, report), After(Migrated, Load(ops), report);
    var view := Load(ops);
    assert PlanFor(view, ops[id].agentID, []) == Plan(view, false, []);
    assert PlanFor(view, ops[id].agentID, [progress]) == Take(Plan(view, false, []), ops[id].agentID, progress);
    assert lazy[id].result == Some(progress) && eager[id].result == Some(progress);
    assert Stuck(lazy[id]) && Load(lazy)[id].result != eager[id].result;
    assert Load(lazy) != eager;
    var a, b := Trace(Healing, ops, commands), Trace(Migrated, Load(ops), commands);
    assert a == [Shown(Healing, ops, report)] + Trace(Healing, lazy, commands[1..]);
    assert b == [Shown(Migrated, Load(ops), report)] + Trace(Migrated, eager, commands[1..]);
    assert Trace(Healing, lazy, [List]) == [Listed(Load(lazy))] + Trace(Healing, lazy, [List][1..]);
    assert Trace(Migrated, eager, [List]) == [Listed(eager)] + Trace(Migrated, eager, [List][1..]);
    assert a[1] == Listed(Load(lazy)) && b[1] == Listed(eager);
  }

  /** Over every trace of commands the two are indistinguishable, exactly when the file they start
      from marks no follow-up done without a result. */
  lemma HealingIsMigrating(ops: Ledger)
    ensures (forall commands :: Trace(Healing, ops, commands) == Trace(Migrated, Load(ops), commands)) <==> Marked(ops)
  {
    if Marked(ops) {
      forall commands ensures Trace(Healing, ops, commands) == Trace(Migrated, Load(ops), commands) {
        TracesAgree(ops, commands);
      }
    } else {
      var id :| id in ops && ops[id].followUpDone && ops[id].result.None?;
      UnmarkedTellsApart(ops, id);
    }
  }
}
