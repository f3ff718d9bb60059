/** Building the failover page: the loops that index the fleet, fill the rows and their counters,
    and list the operations. */
module FailoverPage {
  import opened Text
  import opened Sorting
  import opened Records
  import opened Fleet
  import opened Failover
  import Operations

  datatype FailoverView = FailoverView(
    rows: seq<FailoverRow>, operations: seq<OperationView>, olderHidden: nat, pending: nat,
    splitBrainPossibleCount: nat, splitBrainCount: nat, fenceFailedCount: nat, urgentCount: nat, noAgents: bool)

  /** Adds one agent's domains to the index, the last report of a key winning. */
  method IndexReport(index: map<string, Sighting>, a: Agent, rep: Report, ghost before: seq<Sighting>)
    returns (byRef: map<string, Sighting>)
    requires index == FailoverIndex(before)
    ensures byRef == FailoverIndex(before + SightingsOf(a, rep))
  {
    byRef := index;
    var host := HostOf(a, rep);
    ghost var seen := SightingsOf(a, rep);
    assert before + seen[..0] == before;
    for k := 0 to |rep.domains|
      invariant byRef == FailoverIndex(before + seen[..k])
    {
      var dom := rep.domains[k];
      IndexStep(before, seen, k);
      var sighting := Sighting(a, host, dom, rep.reportedAtUnix);
      assert seen[k] == sighting;
      byRef := byRef[RefKey(host, dom.name) := sighting];
    }
    assert before + seen[..|rep.domains|] == before + seen;
  }

  lemma IndexStep(before: seq<Sighting>, seen: seq<Sighting>, k: nat)
    requires k < |seen|
    ensures FailoverIndex(before + seen[..k + 1]) == FailoverIndex(before + seen[..k])[KeyOf(seen[k]) := seen[k]]
  {
    OneMoreTaken(before, seen, k);
    assert ((before + seen[..k]) + [seen[k]])[..|before + seen[..k]|] == before + seen[..k];
  }

  predicate AllRevoked(agents: seq<Agent>) { forall a | a in agents :: a.revoked }

  lemma OneMoreRevoked(agents: seq<Agent>, i: nat)
    requires i < |agents|
    ensures AllRevoked(agents[..i + 1]) <==> AllRevoked(agents[..i]) && agents[i].revoked
  {
    assert agents[..i + 1] == agents[..i] + [agents[i]];
  }

  /** Indexes every domain a live agent reports. */
  method IndexLive(agents: seq<Agent>, reports: map<string, Report>)
    returns (byRef: map<string, Sighting>, live: nat)
    ensures byRef == FailoverIndex(Live(agents, reports))
    ensures live == 0 <==> AllRevoked(agents)
  {
    byRef, live := map[], 0;
    for i := 0 to |agents|
      invariant byRef == FailoverIndex(Sightings(agents[..i], reports, false))
      invariant live == 0 <==> AllRevoked(agents[..i])
    {
      var a := agents[i];
      OneMoreAgent(agents, i, reports);
      OneMoreRevoked(agents, i);
      if !a.revoked {
        live := live + 1;
        if a.id in reports {
          byRef := IndexReport(byRef, a, reports[a.id], Sightings(agents[..i], reports, false));
        }
      }
    }
    assert agents[..|agents|] == agents;
  }

  lemma OneMoreAgent(agents: seq<Agent>, i: nat, reports: map<string, Report>)
    requires i < |agents|
    ensures Sightings(agents[..i + 1], reports, false)
            == Sightings(agents[..i], reports, false) + FromAgent(agents[i], reports, false)
    ensures FromAgent(agents[i], reports, false) == [] ==>
              Sightings(agents[..i + 1], reports, false) == Sightings(agents[..i], reports, false)
  {
    assert agents[..i + 1][..i] == agents[..i];
  }

  /** One row, filled field by field. */
  method FillRow(a: Agent, rep: Report, dom: ReportDomain, byRef: map<string, Sighting>, now: int)
    returns (row: FailoverRow)
    ensures row == RowOf(Sighting(a, HostOf(a, rep), dom, rep.reportedAtUnix), byRef, now)
  {
    var host := if rep.hostname == "" then a.hostname else rep.hostname;
    var peerRef := ChoosePeer(dom, byRef);
    row := BlankRow(Sighting(a, host, dom, rep.reportedAtUnix), peerRef, now);
    RowIsFilled(Sighting(a, host, dom, rep.reportedAtUnix), byRef, now);
    row := FillPeer(row, byRef, now);
  }

  /** A row before its peer is looked up. */
  function BlankRow(s: Sighting, peerRef: string, now: int): FailoverRow {
    var a, dom := s.agent, s.domain;
    FailoverRow(
      a.id, s.host, dom.name, dom.role, dom.active, a.lastSeenAt == 0 || now - a.lastSeenAt > STALE_AFTER,
      dom.replicaSource != "", dom.replicaTargets != [],
      peerRef, SplitRef(peerRef).host, SplitRef(peerRef).vm, false, "", false, -1, "", "", "", false,
      dom.lastPromotedAt, dom.verifyState, dom.replicaIncomplete, dom.fenced, dom.restorePoints)
  }

  function WithPeer(blank: FailoverRow, peer: Sighting, now: int): FailoverRow {
    blank.(peerSeen := true, peerRole := peer.domain.role, peerActive := peer.domain.active,
           peerReportAge := AgeOf(peer.reportedAt, now), peerVerifyState := peer.domain.verifyState,
           peerReplicaIncomplete := peer.domain.replicaIncomplete,
           peerLastPromotedAt := peer.domain.lastPromotedAt, peerIsReplica := peer.domain.replicaSource != "")
  }

  lemma RowIsFilled(s: Sighting, index: map<string, Sighting>, now: int)
    ensures var blank, peer := BlankRow(s, PeerRefOf(s, index), now), Reported(index, PeerRefOf(s, index));
            RowOf(s, index, now) == if peer.None? then blank else WithPeer(blank, peer.value, now)
  {}

  /** Which peer a domain's row is about. */
  method ChoosePeer(dom: ReportDomain, byRef: map<string, Sighting>) returns (ref: string)
    ensures ref == if dom.replicaSource != "" then dom.replicaSource
                   else PickPromotedTarget(dom.replicaTargets, byRef)
  {
    ref := "";
    if dom.replicaSource != "" {
      ref := dom.replicaSource;
    } else if |dom.replicaTargets| > 0 {
      ref := PickPromotedTarget(dom.replicaTargets, byRef);
    } else {
      assert dom.replicaTargets == [];
      assert PickPromotedTarget([], byRef) == "";
    }
  }

  /** What the peer's own agent says of it. */
  method FillPeer(blank: FailoverRow, byRef: map<string, Sighting>, now: int) returns (row: FailoverRow)
    ensures var peer := SightingAt(byRef, RefKey(blank.peerHost, blank.peerVM));
            row == if peer.None? then blank else WithPeer(blank, peer.value, now)
  {
    row := blank;
    var key := RefKey(blank.peerHost, blank.peerVM);
    if key in byRef {
      var peer, age := byRef[key].domain, -1;
      if byRef[key].reportedAt > 0 {
        age := now - byRef[key].reportedAt;
      }
      row := row.(peerSeen := true, peerRole := peer.role, peerActive := peer.active, peerReportAge := age,
                  peerVerifyState := peer.verifyState, peerReplicaIncomplete := peer.replicaIncomplete,
                  peerLastPromotedAt := peer.lastPromotedAt, peerIsReplica := peer.replicaSource != "");
    }
  }

  /** The counters of the page, as one loop keeps them. */
  datatype Tally = Tally(possible: nat, certain: nat, fences: nat, urgent: nat)

  function TallyOf(rows: seq<FailoverRow>): Tally {
    Tally(CountOf(rows, InPossibleSplitBrain), CountOf(rows, InSplitBrain),
          CountOf(rows, HasFailedFence), CountOf(rows, InTrouble))
  }

  lemma OneMoreCounted(rows: seq<FailoverRow>, row: FailoverRow)
    ensures TallyOf(rows + [row])
            == Tally(CountOf(rows, InPossibleSplitBrain) + (if row.SplitBrainPossible() then 1 else 0),
                     CountOf(rows, InSplitBrain) + (if row.SplitBrain() then 1 else 0),
                     CountOf(rows, HasFailedFence) + (if row.FenceFailed() then 1 else 0),
                     CountOf(rows, InTrouble) + (if row.SplitBrain() || row.FenceFailed() then 1 else 0))
  {
    assert (rows + [row])[..|rows|] == rows;
  }

  method Count(t: Tally, row: FailoverRow, ghost rows: seq<FailoverRow>) returns (r: Tally)
    requires t == TallyOf(rows)
    ensures r == TallyOf(rows + [row])
  {
    OneMoreCounted(rows, row);
    r := t;
    if row.SplitBrainPossible() {
      r := r.(possible := r.possible + 1);
    }
    if row.SplitBrain() {
      r := r.(certain := r.certain + 1);
    }
    if row.FenceFailed() {
      r := r.(fences := r.fences + 1);
    }
    if row.SplitBrain() || row.FenceFailed() {
      r := r.(urgent := r.urgent + 1);
    }
  }

  /** Adds one agent's rows and counts them. */
  method CollectReport(start: seq<FailoverRow>, sofar: Tally, a: Agent, rep: Report,
                       byRef: map<string, Sighting>, now: int, ghost before: seq<Sighting>)
    returns (rows: seq<FailoverRow>, tally: Tally)
    requires start == RowsOf(before, byRef, now) && sofar == TallyOf(start)
    ensures rows == RowsOf(before + SightingsOf(a, rep), byRef, now) && tally == TallyOf(rows)
  {
    rows, tally := start, sofar;
    ghost var seen := SightingsOf(a, rep);
    assert before + seen[..0] == before;
    for k := 0 to |rep.domains|
      invariant rows == RowsOf(before + seen[..k], byRef, now)
      invariant tally == TallyOf(rows)
    {
      var dom := rep.domains[k];
      OneMoreSighting(before, seen, k, byRef, now);
      if dom.replicaSource == "" && |dom.replicaTargets| == 0 {
        continue;
      }
      var row := FillRow(a, rep, dom, byRef, now);
      tally := Count(tally, row, rows);
      rows := rows + [row];
    }
    assert before + seen[..|rep.domains|] == before + seen;
  }

  lemma OneMoreSighting(before: seq<Sighting>, seen: seq<Sighting>, k: nat, byRef: map<string, Sighting>, now: int)
    requires k < |seen|
    ensures var rows := RowsOf(before + seen[..k], byRef, now);
            RowsOf(before + seen[..k + 1], byRef, now)
            == if Participates(seen[k]) then rows + [RowOf(seen[k], byRef, now)] else rows
  {
    OneMoreTaken(before, seen, k);
    assert ((before + seen[..k]) + [seen[k]])[..|before + seen[..k]|] == before + seen[..k];
  }

  method CollectRows(agents: seq<Agent>, reports: map<string, Report>, byRef: map<string, Sighting>, now: int)
    returns (rows: seq<FailoverRow>, tally: Tally)
    ensures rows == RowsOf(Live(agents, reports), byRef, now)
    ensures tally == TallyOf(rows)
  {
    rows, tally := [], Tally(0, 0, 0, 0);
    for i := 0 to |agents|
      invariant rows == RowsOf(Sightings(agents[..i], reports, false), byRef, now)
      invariant tally == TallyOf(rows)
    {
      var a := agents[i];
      OneMoreAgent(agents, i, reports);
      if !a.revoked && a.id in reports {
        rows, tally := CollectReport(rows, tally, a, reports[a.id], byRef, now, Sightings(agents[..i], reports, false));
      }
    }
    assert agents[..|agents|] == agents;
  }

  method ViewOf(rec: OperationRecord, hosts: map<string, string>, now: int) returns (view: OperationView)
    ensures view.record == rec && IsView(view, hosts, now)
  {
    view := OperationView(rec, OperationHost(hosts, rec), "", false);
    if rec.cancelledAtUnix != 0 {
      view := view.(state := "cancelled", terminal := true);
    } else if rec.result.Some? {
      view := view.(state := rec.result.value.state, terminal := rec.result.value.Terminal());
    } else if rec.op.notAfterUnix > 0 && now > rec.op.notAfterUnix {
      view := view.(state := "expired");
    } else {
      view := view.(state := "pending");
    }
  }

  method ListOperations(ops: seq<OperationRecord>, hosts: map<string, string>, now: int)
    returns (shown: seq<OperationView>, pending: nat, olderHidden: nat, ghost places: seq<nat>)
    ensures KeepsTheRightOnes(ops, RecordsOf(shown), pending, olderHidden)
    ensures Unfinished(RecordsOf(shown)) == Unfinished(ops)
    ensures Finished(RecordsOf(shown)) <= Finished(ops)
    ensures |Finished(RecordsOf(shown))| == if |Finished(ops)| > 50 then 50 else |Finished(ops)|
    ensures InTheirOrder(ops, RecordsOf(shown), places)
    ensures forall i | 0 <= i < |shown| :: IsView(shown[i], hosts, now)
  {
    shown, pending, olderHidden, places := [], 0, 0, [];
    var terminalShown := 0;
    for i := 0 to |ops|
      invariant ListsSoFar(ops[..i], shown, places, pending, olderHidden)
      invariant forall k | 0 <= k < |shown| :: IsView(shown[k], hosts, now)
      invariant terminalShown == |Finished(ops[..i])|
    {
      var rec := ops[i];
      var view := ViewOf(rec, hosts, now);
      assert ops[..i + 1] == ops[..i] + [rec];
      OneMoreFinished(ops[..i], rec);
      if !view.terminal {
        pending := pending + 1;
      } else {
        terminalShown := terminalShown + 1;
        if terminalShown > OPERATIONS_SHOWN {
          HiddenStep(ops[..i], shown, places, pending, olderHidden, rec);
          olderHidden := olderHidden + 1;
          continue;
        }
      }
      ShownStep(ops[..i], shown, places, if view.terminal then pending else pending - 1, olderHidden, view);
      shown := shown + [view];
      places := places + [i];
    }
    assert ops[..|ops|] == ops;
  }

  ghost predicate ListsSoFar(ops: seq<OperationRecord>, shown: seq<OperationView>, places: seq<nat>,
                             pending: nat, olderHidden: nat)
  {
    && KeepsTheRightOnes(ops, RecordsOf(shown), pending, olderHidden)
    && InTheirOrder(ops, RecordsOf(shown), places)
  }

  lemma OneMoreFinished(ops: seq<OperationRecord>, rec: OperationRecord)
    ensures |Finished(ops + [rec])| == |Finished(ops)| + (if rec.Pending() then 0 else 1)
  {
    FinishedStep(ops, rec);
  }

  lemma FinishedStep(ops: seq<OperationRecord>, rec: OperationRecord)
    ensures Unfinished(ops + [rec]) == if rec.Pending() then Unfinished(ops) + [rec] else Unfinished(ops)
    ensures Finished(ops + [rec]) == if rec.Pending() then Finished(ops) else Finished(ops) + [rec]
  {
    assert (ops + [rec])[..|ops|] == ops;
  }

  lemma ShownStep(ops: seq<OperationRecord>, shown: seq<OperationView>, places: seq<nat>, pending: nat,
                  olderHidden: nat, view: OperationView)
    requires ListsSoFar(ops, shown, places, pending, olderHidden)
    requires view.terminal == !view.record.Pending()
    requires view.terminal ==> |Finished(ops)| < OPERATIONS_SHOWN
    ensures ListsSoFar(ops + [view.record], shown + [view], places + [|ops|],
                       if view.terminal then pending else pending + 1, olderHidden)
  {
    assert RecordsOf(shown + [view]) == RecordsOf(shown) + [view.record];
    OneMoreKept(ops, RecordsOf(shown), pending, olderHidden, view.record);
    OneMoreInOrder(ops, RecordsOf(shown), places, view.record);
  }

  lemma OneMoreKept(ops: seq<OperationRecord>, kept: seq<OperationRecord>, pending: nat, olderHidden: nat,
                    rec: OperationRecord)
    requires KeepsTheRightOnes(ops, kept, pending, olderHidden)
    requires rec.Pending() || |Finished(ops)| < OPERATIONS_SHOWN
    ensures KeepsTheRightOnes(ops + [rec], kept + [rec], if rec.Pending() then pending + 1 else pending, olderHidden)
  {
    FinishedStep(ops, rec);
    FinishedStep(kept, rec);
  }

  lemma OneMoreInOrder(ops: seq<OperationRecord>, kept: seq<OperationRecord>, places: seq<nat>, rec: OperationRecord)
    requires InTheirOrder(ops, kept, places)
    ensures InTheirOrder(ops + [rec], kept + [rec], places + [|ops|])
  {}

  lemma HiddenStep(ops: seq<OperationRecord>, shown: seq<OperationView>, places: seq<nat>, pending: nat,
                   olderHidden: nat, rec: OperationRecord)
    requires ListsSoFar(ops, shown, places, pending, olderHidden)
    requires !rec.Pending() && |Finished(ops)| >= OPERATIONS_SHOWN
    ensures ListsSoFar(ops + [rec], shown, places, pending, olderHidden + 1)
  {
    FinishedStep(ops, rec);
  }

  method NameHosts(agents: seq<Agent>, reports: map<string, Report>) returns (hosts: map<string, string>)
    ensures hosts == HostByAgent(agents, reports)
  {
    hosts := map[];
    for i := 0 to |agents|
      invariant hosts == HostByAgent(agents[..i], reports)
    {
      assert agents[..i + 1][..i] == agents[..i];
      var name := agents[i].hostname;
      if agents[i].id in reports && reports[agents[i].id].hostname != "" {
        name := reports[agents[i].id].hostname;
      }
      hosts := hosts[agents[i].id := name];
    }
    assert agents[..|agents|] == agents;
  }

  /** The whole page. */
  method BuildFailoverView(agents: seq<Agent>, reports: map<string, Report>, ops: seq<OperationRecord>, now: int)
    returns (v: FailoverView, ghost places: seq<nat>)
    ensures v.rows == PageRows(agents, reports, now)
    ensures v.noAgents <==> AllRevoked(agents)
    ensures v.splitBrainCount == CountOf(v.rows, InSplitBrain)
    ensures v.splitBrainPossibleCount == CountOf(v.rows, InPossibleSplitBrain)
    ensures v.fenceFailedCount == CountOf(v.rows, HasFailedFence)
    ensures v.urgentCount == CountOf(v.rows, InTrouble)
    ensures v.urgentCount + CountOf(v.rows, InTroubleTwice) == v.splitBrainCount + v.fenceFailedCount
    ensures var live := Live(agents, reports);
            var index := FailoverIndex(live);
            && v.fenceFailedCount == FencedIn(live)
            && v.splitBrainCount == SureIn(live, index, now)
            && v.splitBrainPossibleCount == PerhapsIn(live, index, now)
    ensures KeepsTheRightOnes(ops, RecordsOf(v.operations), v.pending, v.olderHidden)
    ensures InTheirOrder(ops, RecordsOf(v.operations), places)
    ensures forall i | 0 <= i < |v.operations| :: IsView(v.operations[i], HostByAgent(agents, reports), now)
  {
    var byRef, live := IndexLive(agents, reports);
    var hosts := NameHosts(agents, reports);
    var rows, tally := CollectRows(agents, reports, byRef, now);
    SortPermutes(ByUrgency, rows);
    var sorted := SortBy(ByUrgency, rows);
    CountPermutes(rows, sorted, InSplitBrain);
    CountPermutes(rows, sorted, InPossibleSplitBrain);
    CountPermutes(rows, sorted, HasFailedFence);
    CountPermutes(rows, sorted, InTrouble);
    TroubleIsCountedOnce(sorted);
    FencedAreCounted(Live(agents, reports), byRef, now);
    SureAreCounted(Live(agents, reports), byRef, now);
    PerhapsAreCounted(Live(agents, reports), byRef, now);
    var shown, pending, hidden;
    shown, pending, hidden, places := ListOperations(ops, hosts, now);
    v := FailoverView(sorted, shown, hidden, pending,
                      tally.possible, tally.certain, tally.fences, tally.urgent, live == 0);
  }

  lemma {:induction false} CountAside(p: seq<FailoverRow>, x: FailoverRow, q: seq<FailoverRow>, f: FailoverRow -> bool)
    ensures CountOf(p + ([x] + q), f) == CountOf(p + q, f) + (if f(x) then 1 else 0)
  {
    if q == [] {
      assert p + ([x] + q) == p + [x] && p + q == p;
      assert (p + [x])[..|p|] == p;
    } else {
      var n := |q| - 1;
      assert (p + ([x] + q))[..|p| + 1 + n] == p + ([x] + q[..n]);
      assert (p + q)[..|p| + n] == p + q[..n];
      CountAside(p, x, q[..n], f);
    }
  }

  lemma {:induction false} CountPermutes(s: seq<FailoverRow>, t: seq<FailoverRow>, f: FailoverRow -> bool)
    requires multiset(s) == multiset(t)
    ensures CountOf(s, f) == CountOf(t, f)
    decreases |s|
  {
    if s == [] {
      assert |multiset(t)| == 0;
    } else {
      var n := |s| - 1;
      assert s[n] in multiset(t);
      var j :| 0 <= j < |t| && t[j] == s[n];
      var p, q := t[..j], t[j + 1..];
      assert t == p + ([s[n]] + q);
      SameWithoutLast(s, t, j);
      CountPermutes(s[..n], p + q, f);
      CountAside(p, s[n], q, f);
    }
  }

  lemma SameWithoutLast(s: seq<FailoverRow>, t: seq<FailoverRow>, j: nat)
    requires multiset(s) == multiset(t) && s != [] && j < |t| && t[j] == s[|s| - 1]
    ensures multiset(s[..|s| - 1]) == multiset(t[..j] + t[j + 1..])
  {
    RemovingAt(s, |s| - 1);
    RemovingAt(t, j);
    assert s[..|s| - 1] + s[|s|..] == s[..|s| - 1];
  }

  /** Nothing that blocks is hidden: a well-formed request to issue an operation is refused as in
      flight exactly when some unfinished row of the page is about that VM, up to case. */
  lemma RefusalIsOnThePage(ops: Operations.Ledger, records: seq<OperationRecord>, shown: seq<OperationView>,
                           places: seq<nat>, pending: nat, olderHidden: nat, hosts: map<string, string>, now: int,
                           agentID: string, op: Operation)
    requires Operations.ListsLedger(records, ops)
    requires ListsSoFar(records, shown, places, pending, olderHidden)
    requires forall i | 0 <= i < |shown| :: IsView(shown[i], hosts, now)
    requires agentID != "" && op.vm != "" && op.kind != ""
    ensures Operations.CreateAnswer(ops, agentID, op) == Operations.InFlight
            <==> exists i | 0 <= i < |shown| :: !shown[i].terminal && EqualFold(shown[i].record.op.vm, op.vm)
  {
    if Operations.Blocked(ops, op.vm) {
      var id :| id in ops && ops[id].Pending() && EqualFold(ops[id].op.vm, op.vm);
      var r := ops[id];
      Operations.ListedIsFiled(records, ops, r);
      UnfinishedAreThePending(records, r);
      UnfinishedAreThePending(RecordsOf(shown), r);
      var i :| 0 <= i < |shown| && RecordsOf(shown)[i] == r;
      assert !shown[i].terminal;
    }
    forall i | 0 <= i < |shown| && !shown[i].terminal && EqualFold(shown[i].record.op.vm, op.vm)
      ensures Operations.Blocked(ops, op.vm)
    {
      assert records[places[i]] in records;
      Operations.ListedIsFiled(records, ops, shown[i].record);
      var id :| id in ops && ops[id] == shown[i].record;
    }
  }

  // ----- the page's counts are the store's -----

  /** Any listing of the ledger has the same numbers in it, each record counted once. */
  lemma ListingIsCounted(records: seq<OperationRecord>, ops: Operations.Ledger)
    requires Operations.ListsLedger(records, ops)
    ensures |Unfinished(records)| == |Operations.PendingIds(ops)|
    ensures |Unfinished(records)| + |Finished(records)| == |records| == |ops|
  {
    var ids :| Listing(ids, ops.Keys) && multiset(records) == multiset(Operations.Filed(ops, ids));
    UnfinishedPermutes(records, Operations.Filed(ops, ids));
    FiledIsCounted(ops, ids);
    EachIsCountedOnce(ids);
    PartsMakeTheWhole(records);
    assert (set id | id in ids) == ops.Keys;
    assert PendingAmong(ops, ids) == Operations.PendingIds(ops);
    assert |records| == |multiset(records)| == |multiset(Operations.Filed(ops, ids))| == |ids|;
  }

  function PendingAmong(ops: Operations.Ledger, ids: seq<string>): set<string> {
    set id | id in ids && id in ops && ops[id].Pending()
  }

  lemma OneMorePending(ops: Operations.Ledger, ids: seq<string>, id: string)
    requires id in ops && id !in ids
    ensures |PendingAmong(ops, ids + [id])| == |PendingAmong(ops, ids)| + (if ops[id].Pending() then 1 else 0)
  {
    assert PendingAmong(ops, ids + [id])
           == if ops[id].Pending() then PendingAmong(ops, ids) + {id} else PendingAmong(ops, ids);
  }

  lemma OneMoreFiled(ops: Operations.Ledger, ids: seq<string>, id: string)
    requires id in ops && forall k | k in ids :: k in ops
    ensures |Unfinished(Operations.Filed(ops, ids + [id]))|
            == |Unfinished(Operations.Filed(ops, ids))| + (if ops[id].Pending() then 1 else 0)
  {
    assert Operations.Filed(ops, ids + [id]) == Operations.Filed(ops, ids) + [ops[id]];
    FinishedStep(Operations.Filed(ops, ids), ops[id]);
  }

  lemma {:induction false} FiledIsCounted(ops: Operations.Ledger, ids: seq<string>)
    requires forall id | id in ids :: id in ops
    requires forall i, j | 0 <= i < j < |ids| :: ids[i] != ids[j]
    ensures |Unfinished(Operations.Filed(ops, ids))| == |PendingAmong(ops, ids)|
  {
    if ids != [] {
      var init, last := ids[..|ids| - 1], ids[|ids| - 1];
      assert ids == init + [last] && last !in init;
      FiledIsCounted(ops, init);
      OneMorePending(ops, init, last);
      OneMoreFiled(ops, init, last);
    }
  }

  lemma {:induction false} EachIsCountedOnce(ids: seq<string>)
    requires forall i, j | 0 <= i < j < |ids| :: ids[i] != ids[j]
    ensures |ids| == |set id | id in ids|
  {
    if ids != [] {
      var init, last := ids[..|ids| - 1], ids[|ids| - 1];
      EachIsCountedOnce(init);
      assert last !in init && (set id | id in ids) == (set id | id in init) + {last};
    }
  }

  lemma {:induction false} UnfinishedOccurs(records: seq<OperationRecord>, r: OperationRecord)
    ensures multiset(Unfinished(records))[r] == if r.Pending() then multiset(records)[r] else 0
  {
    if records != [] {
      var init, last := records[..|records| - 1], records[|records| - 1];
      UnfinishedOccurs(init, r);
      assert records == init + [last];
    }
  }

  lemma UnfinishedPermutes(s: seq<OperationRecord>, t: seq<OperationRecord>)
    requires multiset(s) == multiset(t)
    ensures |Unfinished(s)| == |Unfinished(t)|
  {
    forall r ensures multiset(Unfinished(s))[r] == multiset(Unfinished(t))[r] {
      UnfinishedOccurs(s, r);
      UnfinishedOccurs(t, r);
    }
    assert multiset(Unfinished(s)) == multiset(Unfinished(t));
    assert |multiset(Unfinished(s))| == |multiset(Unfinished(t))|;
  }

  lemma {:induction false} PartsMakeTheWhole(records: seq<OperationRecord>)
    ensures |Unfinished(records)| + |Finished(records)| == |records|
  {
    if records != [] { PartsMakeTheWhole(records[..|records| - 1]); }
  }

  /** What the page says is awaited is what the store has pending; what it leaves out is all that is
      finished beyond the cap; and it shows the rest. */
  lemma PageCountsTheLedger(ops: Operations.Ledger, records: seq<OperationRecord>, shown: seq<OperationView>,
                            pending: nat, olderHidden: nat)
    requires Operations.ListsLedger(records, ops)
    requires KeepsTheRightOnes(records, RecordsOf(shown), pending, olderHidden)
    ensures pending == |Operations.PendingIds(ops)|
    ensures var finished := |ops| - pending;
            && olderHidden == (if finished > OPERATIONS_SHOWN then finished - OPERATIONS_SHOWN else 0)
            && |shown| == |ops| - olderHidden
  {
    ListingIsCounted(records, ops);
    PartsMakeTheWhole(RecordsOf(shown));
  }
}
