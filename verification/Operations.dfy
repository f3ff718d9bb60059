/** The operation ledger: healing, issuing, cancelling, publishing and absorbing results, as
    functions on the map that operations.json holds. */
module Operations {
  import opened Text
  import opened Sorting
  import opened Records

  type Ledger = map<string, OperationRecord>

  datatype Answer =
    | Accepted
    | Incomplete        // an agent, a VM or a kind is missing
    | InFlight          // the VM already has a pending operation
    | NoSuchOperation
    | AlreadyReported
    | AlreadyRunning
    | NotPending
    | NoAgentForPeer    // an inversion's new source has no enrolled agent

  // ----- healing -----

  const LOST_OUTCOME := "the outcome was never kept; check the host"

  /** A progress report filed as an outcome, which only an older build could write. */
  predicate Stuck(rec: OperationRecord) {
    rec.result.Some? && !rec.result.value.Terminal() && rec.followUpDone
  }

  function Heal(rec: OperationRecord): OperationRecord {
    if !Stuck(rec) then rec
    else
      var was := rec.result.value;
      rec.(result := Some(was.(state := STATE_UNKNOWN,
                               error := if was.error == "" then LOST_OUTCOME else was.error)))
  }

  function Load(ops: Ledger): Ledger {
    map id | id in ops :: Heal(ops[id])
  }

  lemma HealSettles(rec: OperationRecord)
    ensures !Stuck(Heal(rec)) && Heal(Heal(rec)) == Heal(rec)
    ensures Heal(rec).Pending() ==> Heal(rec) == rec
    ensures Heal(rec).result.Some? <==> rec.result.Some?
    ensures Heal(rec) == rec.(result := Heal(rec).result)
  {}

  /** Healing turns progress filed as an outcome into an unknown outcome, which says why unless it already
      said something, and changes nothing else. */
  lemma HealedIs(rec: OperationRecord)
    ensures rec.result.Some? && rec.result.value.state == "running" && rec.followUpDone ==>
              && Heal(rec).result.Some?
              && Heal(rec).result.value.state == "unknown" && Heal(rec).result.value.error != ""
              && (rec.result.value.error != "" ==> Heal(rec).result.value.error == rec.result.value.error)
              && Heal(rec) == rec.(result := Some(rec.result.value.(state := "unknown",
                                                                    error := Heal(rec).result.value.error)))
    ensures !(rec.result.Some? && rec.result.value.state == "running" && rec.followUpDone) ==> Heal(rec) == rec
  {}

  // ----- issuing and cancelling -----

  predicate Blocked(ops: Ledger, vm: string) {
    exists id | id in ops :: ops[id].Pending() && EqualFold(ops[id].op.vm, vm)
  }

  function CreateAnswer(ops: Ledger, agentID: string, op: Operation): Answer {
    if agentID == "" || op.vm == "" || op.kind == "" then Incomplete
    else if Blocked(ops, op.vm) then InFlight
    else Accepted
  }

  function Issued(agentID: string, auditID: string, op: Operation, id: string, now: int): OperationRecord {
    OperationRecord(
      op.(id := id, createdAtUnix := now,
          notAfterUnix := if op.notAfterUnix == 0 then now + OPERATION_TTL else op.notAfterUnix,
          actionID := if op.actionID == "" then auditID else op.actionID),
      agentID, auditID, None, false, 0, "")
  }

  function CancelAnswer(ops: Ledger, id: string): Answer {
    if id !in ops then NoSuchOperation
    else if ops[id].Started() then
      if ops[id].result.value.Terminal() then AlreadyReported else AlreadyRunning
    else if !ops[id].Pending() then NotPending
    else Accepted
  }

  function Withdrawn(rec: OperationRecord, who: string, now: int): OperationRecord {
    rec.(cancelledAtUnix := now, cancelledBy := who)
  }

  /** In flight, as the file has it: not withdrawn, and with no result but unmarked progress. */
  predicate Outstanding(rec: OperationRecord) {
    rec.cancelledAtUnix == 0 && (rec.result.None? || (rec.result.value.state == "running" && !rec.followUpDone))
  }

  lemma OutstandingIsPending(rec: OperationRecord)
    ensures Heal(rec).Pending() <==> Outstanding(rec)
  {}

  /** When a request to issue an operation gets which answer, from the file as it stands. */
  lemma CreateAnswers(ops: Ledger, agentID: string, op: Operation)
    ensures var complete := agentID != "" && op.vm != "" && op.kind != "";
            var busy := exists id :: id in ops && Outstanding(ops[id]) && Fold(ops[id].op.vm) == Fold(op.vm);
            var answer := CreateAnswer(Load(ops), agentID, op);
            && (answer == Incomplete <==> !complete)
            && (answer == InFlight <==> complete && busy)
            && (answer == Accepted <==> complete && !busy)
  {
    if id :| id in ops && Outstanding(ops[id]) && Fold(ops[id].op.vm) == Fold(op.vm) {
      OutstandingIsPending(ops[id]);
      assert Load(ops)[id].Pending() && EqualFold(Load(ops)[id].op.vm, op.vm);
    }
    if Blocked(Load(ops), op.vm) {
      var id :| id in ops && Load(ops)[id].Pending() && EqualFold(Load(ops)[id].op.vm, op.vm);
      OutstandingIsPending(ops[id]);
    }
  }

  /** What an issued record keeps of its request and what it adds: fifteen minutes to run, unless the
      request set a deadline, and the audit entry to answer for, unless the request named one. */
  lemma IssuedIs(agentID: string, auditID: string, op: Operation, id: string, now: int)
    ensures var r := Issued(agentID, auditID, op, id, now);
            && r.agentID == agentID && r.auditID == auditID && r.result == None
            && !r.followUpDone && r.cancelledAtUnix == 0 && r.cancelledBy == ""
            && r.op.id == id && r.op.createdAtUnix == now
            && (op.notAfterUnix == 0 ==> r.op.notAfterUnix == now + 15 * 60)
            && (op.notAfterUnix != 0 ==> r.op.notAfterUnix == op.notAfterUnix)
            && (op.actionID == "" ==> r.op.actionID == auditID)
            && (op.actionID != "" ==> r.op.actionID == op.actionID)
            && r.op.(id := op.id, createdAtUnix := op.createdAtUnix, notAfterUnix := op.notAfterUnix,
                     actionID := op.actionID) == op
  {}

  /** When a request to withdraw an operation gets which answer, from the file as it stands: what has been
      heard of, if only as progress, can no longer be withdrawn. */
  lemma CancelAnswers(ops: Ledger, id: string)
    ensures var answer := CancelAnswer(Load(ops), id);
            && (answer == NoSuchOperation <==> id !in ops)
            && (answer == Accepted <==> id in ops && ops[id].result.None? && ops[id].cancelledAtUnix == 0)
            && (answer == NotPending <==> id in ops && ops[id].result.None? && ops[id].cancelledAtUnix != 0)
            && (answer == AlreadyRunning
                <==> && id in ops && ops[id].result.Some?
                     && ops[id].result.value.state == "running" && !ops[id].followUpDone)
            && (answer == AlreadyReported
                <==> && id in ops && ops[id].result.Some?
                     && (ops[id].result.value.state != "running" || ops[id].followUpDone))
  {}

  /** The records filed under these ids, in that order. */
  function Filed(ops: Ledger, ids: seq<string>): seq<OperationRecord>
    requires forall id | id in ids :: id in ops
  {
    seq(|ids|, i requires 0 <= i < |ids| => ops[ids[i]])
  }

  /** A listing of the ledger: the record of every id once, in some order. */
  ghost predicate ListsLedger(records: seq<OperationRecord>, ops: Ledger) {
    exists ids :: Listing(ids, ops.Keys) && multiset(records) == multiset(Filed(ops, ids))
  }

  lemma ListedIsFiled(records: seq<OperationRecord>, ops: Ledger, r: OperationRecord)
    requires ListsLedger(records, ops)
    ensures r in records <==> exists id :: id in ops && ops[id] == r
  {
    var ids :| Listing(ids, ops.Keys) && multiset(records) == multiset(Filed(ops, ids));
    SameElements(records, Filed(ops, ids));
    if id :| id in ops && ops[id] == r {
      var i :| 0 <= i < |ids| && ids[i] == id;
      assert Filed(ops, ids)[i] == r;
    }
  }

  function PendingIds(ops: Ledger): set<string> { set id | id in ops && ops[id].Pending() }

  // ----- publishing -----

  predicate ByID(a: Operation, b: Operation) { Less(a.id, b.id) }

  /** Every record is filed under its operation's own id, which issuing ensures. */
  ghost predicate KeyedByID(ops: Ledger) {
    forall id | id in ops :: ops[id].op.id == id
  }

  ghost function PublishedSet(ops: Ledger, agentID: string): set<Operation> {
    set id | id in ops && ops[id].agentID == agentID && ops[id].Pending() :: ops[id].op
  }

  /** The list an agent is handed: its pending operations, each once, in order of id. */
  ghost predicate IsPublication(list: seq<Operation>, ops: Ledger, agentID: string) {
    && Sorted(ByID, list)
    && multiset(list) == multiset(PublishedSet(ops, agentID))
  }

  /** From the file: an operation is in the list exactly when it is filed for the agent and outstanding, and
      the list is in order of id, each id once. */
  lemma PublicationIs(list: seq<Operation>, ops: Ledger, agentID: string)
    requires KeyedByID(ops) && IsPublication(list, Load(ops), agentID)
    ensures forall o :: o in list <==>
              exists id :: id in ops && ops[id].agentID == agentID && Outstanding(ops[id]) && ops[id].op == o
    ensures forall i, j | 0 <= i < j < |list| :: Less(list[i].id, list[j].id)
  {
    forall id | id in ops ensures Heal(ops[id]).Pending() <==> Outstanding(ops[id]) { OutstandingIsPending(ops[id]); }
    forall o ensures o in list <==> o in PublishedSet(Load(ops), agentID) { assert o in list <==> o in multiset(list); }
    forall o | o in PublishedSet(Load(ops), agentID)
      ensures exists id :: id in ops && ops[id].agentID == agentID && Outstanding(ops[id]) && ops[id].op == o
    {
      var id :| id in ops && Load(ops)[id].agentID == agentID && Load(ops)[id].Pending() && Load(ops)[id].op == o;
    }
    forall o, id | id in ops && ops[id].agentID == agentID && Outstanding(ops[id]) && ops[id].op == o
      ensures o in PublishedSet(Load(ops), agentID)
    {
      assert Load(ops)[id].Pending() && Load(ops)[id].op == o;
    }
    forall i, j | 0 <= i < j < |list| ensures Less(list[i].id, list[j].id) {
      PublishedOnce(list, ops, agentID, i, j);
      LessTotal(list[i].id, list[j].id);
    }
  }

  lemma PublishedOnce(list: seq<Operation>, ops: Ledger, agentID: string, i: nat, j: nat)
    requires KeyedByID(ops) && IsPublication(list, Load(ops), agentID) && i < j < |list|
    ensures list[i].id != list[j].id && !Less(list[j].id, list[i].id)
  {
    assert list[i] in multiset(list) && list[j] in multiset(list);
    assert list[i] in PublishedSet(Load(ops), agentID) && list[j] in PublishedSet(Load(ops), agentID);
    if list[i].id == list[j].id {
      assert list[i] == list[j];
      TwiceInMultiset(list, i, j);
    }
    assert !ByID(list[j], list[i]);
  }

  /** There is one such list, so it does not depend on the order the ledger was ranged over. */
  lemma PublicationIsUnique(a: seq<Operation>, b: seq<Operation>, ops: Ledger, agentID: string)
    requires KeyedByID(ops)
    requires IsPublication(a, ops, agentID) && IsPublication(b, ops, agentID)
    ensures a == b
  {
    LessIsStrictTotal();
    forall x, y | x in a && y in a ensures x == y || ByID(x, y) || ByID(y, x) {
      assert x in multiset(a) && y in multiset(a);
      assert x in PublishedSet(ops, agentID) && y in PublishedSet(ops, agentID);
    }
    SortedUnique(ByID, a, b);
  }

  // ----- results -----

  /** Finished with: the record that every later result leaves alone. */
  predicate Concluded(rec: OperationRecord) { rec.result.Some? && rec.followUpDone }

  /** One result, as the record it names takes it. */
  function Absorb(rec: OperationRecord, agentID: string, res: OperationResult): OperationRecord {
    if rec.agentID != agentID || Concluded(rec) then rec
    else rec.(result := Some(res), followUpDone := rec.followUpDone || res.Terminal())
  }

  function AbsorbAll(id: string, rec: OperationRecord, agentID: string,
                     results: seq<OperationResult>): OperationRecord {
    if results == [] then rec
    else
      var n := |results| - 1;
      var before := AbsorbAll(id, rec, agentID, results[..n]);
      if results[n].id == id then Absorb(before, agentID, results[n]) else before
  }

  /** What recording a batch does besides the ledger itself, in order. */
  datatype Effect =
    | Consequence(rec: OperationRecord, res: OperationResult)
    | Closing(auditID: string, outcome: string)

  datatype Plan = Plan(ops: Ledger, changed: bool, effects: seq<Effect>)

  function OutcomeOf(res: OperationResult): string {
    if res.error != "" then res.state + ": " + res.error else res.state
  }

  function EffectsOf(rec: OperationRecord, agentID: string, res: OperationResult): seq<Effect> {
    if rec.agentID != agentID || Concluded(rec) || !res.Terminal() then []
    else
      (if rec.followUpDone then [] else [Consequence(rec, res)])
      + (if rec.auditID != "" then [Closing(rec.auditID, OutcomeOf(res))] else [])
  }

  function Take(p: Plan, agentID: string, res: OperationResult): Plan {
    if res.id !in p.ops || p.ops[res.id].agentID != agentID || Concluded(p.ops[res.id]) then p
    else
      var rec := p.ops[res.id];
      Plan(p.ops[res.id := Absorb(rec, agentID, res)], true, p.effects + EffectsOf(rec, agentID, res))
  }

  /** A whole batch against a loaded ledger. It depends on the ledger and the results alone. */
  function PlanFor(ops: Ledger, agentID: string, results: seq<OperationResult>): Plan {
    if results == [] then Plan(ops, false, [])
    else Take(PlanFor(ops, agentID, results[..|results| - 1]), agentID, results[|results| - 1])
  }

  /** Each record goes its own way: the planned ledger is the old one with every record having
      absorbed the results that name it. */
  lemma {:induction false} PlanIsPointwise(ops: Ledger, agentID: string, results: seq<OperationResult>)
    ensures PlanFor(ops, agentID, results).ops.Keys == ops.Keys
    ensures forall id | id in ops ::
              PlanFor(ops, agentID, results).ops[id] == AbsorbAll(id, ops[id], agentID, results)
    ensures !PlanFor(ops, agentID, results).changed ==> PlanFor(ops, agentID, results).ops == ops
    ensures !PlanFor(ops, agentID, results).changed ==> PlanFor(ops, agentID, results).effects == []
  {
    if results != [] {
      PlanIsPointwise(ops, agentID, results[..|results| - 1]);
    }
  }

  lemma {:induction false} PlanGrows(ops: Ledger, agentID: string, results: seq<OperationResult>, n: nat)
    requires n <= |results|
    ensures PlanFor(ops, agentID, results[..n]).effects <= PlanFor(ops, agentID, results).effects
    ensures PlanFor(ops, agentID, results[..n]).changed ==> PlanFor(ops, agentID, results).changed
  {
    if n < |results| {
      var init := results[..|results| - 1];
      assert init[..n] == results[..n];
      PlanGrows(ops, agentID, init, n);
    } else {
      assert results[..n] == results;
    }
  }

  // ----- absorbing twice -----

  function LastFor(id: string, results: seq<OperationResult>): Option<OperationResult> {
    if results == [] then None
    else if results[|results| - 1].id == id then Some(results[|results| - 1])
    else LastFor(id, results[..|results| - 1])
  }

  lemma {:induction false} ClosedStays(id: string, rec: OperationRecord, agentID: string, results: seq<OperationResult>)
    requires Concluded(rec)
    ensures AbsorbAll(id, rec, agentID, results) == rec
  {
    if results != [] { ClosedStays(id, rec, agentID, results[..|results| - 1]); }
  }

  /** A record the batch leaves open saw only progress, and holds the last of it, whatever
      result it started from. */
  lemma {:induction false} OpenHoldsTheLast(id: string, rec: OperationRecord, agentID: string,
                                            results: seq<OperationResult>, start: Option<OperationResult>)
    requires !Concluded(AbsorbAll(id, rec, agentID, results))
    requires !Concluded(rec.(result := start))
    ensures !Concluded(rec)
    ensures rec.agentID == agentID ==> forall r | r in results && r.id == id :: !r.Terminal() && !rec.followUpDone
    ensures AbsorbAll(id, rec.(result := start), agentID, results)
            == if rec.agentID == agentID && LastFor(id, results).Some? then rec.(result := LastFor(id, results))
               else rec.(result := start)
  {
    if results != [] {
      var init, last := results[..|results| - 1], results[|results| - 1];
      assert results == init + [last];
      OpenHoldsTheLast(id, rec, agentID, init, start);
      OpenHoldsTheLast(id, rec, agentID, init, rec.result);
    }
  }

  /** A batch absorbed twice is a batch absorbed once. */
  lemma AbsorbTwice(id: string, rec: OperationRecord, agentID: string, results: seq<OperationResult>)
    ensures var once := AbsorbAll(id, rec, agentID, results);
            AbsorbAll(id, once, agentID, results) == once
  {
    var once := AbsorbAll(id, rec, agentID, results);
    if Concluded(once) {
      ClosedStays(id, once, agentID, results);
    } else {
      if Concluded(rec) { ClosedStays(id, rec, agentID, results); }
      OpenHoldsTheLast(id, rec, agentID, results, rec.result);
      OpenHoldsTheLast(id, rec, agentID, results, once.result);
    }
  }

  /** Replaying a batch against the ledger it produced, read back, changes no record and causes
      nothing. */
  lemma ReplayIsInert(ops: Ledger, agentID: string, results: seq<OperationResult>)
    ensures var after := Load(PlanFor(ops, agentID, results).ops);
            PlanFor(after, agentID, results).ops == after && PlanFor(after, agentID, results).effects == []
  {
    var after := Load(PlanFor(ops, agentID, results).ops);
    PlanIsPointwise(ops, agentID, results);
    PlanIsPointwise(after, agentID, results);
    forall id | id in after ensures PlanFor(after, agentID, results).ops[id] == after[id] {
      AbsorbTwice(id, ops[id], agentID, results);
      if Concluded(after[id]) { ClosedStays(id, after[id], agentID, results); }
    }
    NothingLeftToDo(ops, agentID, results, |results|);
    assert results[..|results|] == results;
  }

  lemma {:induction false} NothingLeftToDo(ops: Ledger, agentID: string, results: seq<OperationResult>, n: nat)
    requires n <= |results|
    ensures PlanFor(Load(PlanFor(ops, agentID, results).ops), agentID, results[..n]).effects == []
  {
    if n > 0 {
      NothingLeftToDo(ops, agentID, results, n - 1);
      var after := Load(PlanFor(ops, agentID, results).ops);
      var init, res := results[..n][..n - 1], results[n - 1];
      assert init == results[..n - 1];
      PlanIsPointwise(ops, agentID, results);
      PlanIsPointwise(after, agentID, init);
      if res.id in after && after[res.id].agentID == agentID {
        var once := after[res.id];
        if Concluded(once) {
          ClosedStays(res.id, once, agentID, init);
        } else {
          if Concluded(ops[res.id]) { ClosedStays(res.id, ops[res.id], agentID, results); }
          AgentStays(res.id, ops[res.id], agentID, results);
          OpenHoldsTheLast(res.id, ops[res.id], agentID, results, ops[res.id].result);
          assert !res.Terminal();
        }
      } else if res.id in after {
        AgentStays(res.id, after[res.id], agentID, init);
      }
    }
  }

  /** Results touch a record's result and follow-up mark and nothing else. */
  lemma {:induction false} AgentStays(id: string, rec: OperationRecord, agentID: string, results: seq<OperationResult>)
    ensures var r := AbsorbAll(id, rec, agentID, results);
            r == rec.(result := r.result, followUpDone := r.followUpDone)
    ensures rec.followUpDone ==> AbsorbAll(id, rec, agentID, results).followUpDone
    ensures rec.result.Some? ==> AbsorbAll(id, rec, agentID, results).result.Some?
  {
    if results != [] { AgentStays(id, rec, agentID, results[..|results| - 1]); }
  }
}
