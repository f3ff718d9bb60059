/** The server's half of the failover page: an operation assembled from a form, and the page's own
    question asked again, from state read now, before it is issued. */
module Eligibility {
  import opened Text
  import opened Sorting
  import opened Records
  import opened Fleet
  import opened Failover
  import opened FailoverPage

  datatype Verdict =
    | Eligible
    | NotInView         // no row of that agent is about that VM
    | Unconfirmed       // the live copy, and its name was not typed
    | Withheld          // the row does not offer this
    | UnknownKind

  // ----- the re-check -----

  /** The row a request is judged by: the first of that agent's with that VM's name up to case. */
  function JudgedBy(rows: seq<FailoverRow>, agentID: string, vm: string): Option<FailoverRow> {
    if rows == [] then None
    else if rows[0].agentID == agentID && EqualFold(rows[0].vm, vm) then Some(rows[0])
    else JudgedBy(rows[1..], agentID, vm)
  }

  predicate KnownKind(kind: string) {
    kind == OP_PROMOTE || kind == OP_INVERT || kind == OP_SHUTDOWN || kind == OP_SET_ROLE
    || kind == OP_RESTORE || kind == OP_REINIT || kind == OP_FORCE_CLEAN
  }

  /** Whether a row offers an operation. */
  predicate Offers(row: FailoverRow, kind: string, mode: string) {
    if kind == OP_PROMOTE then row.CanPromote()
    else if kind == OP_INVERT then row.CanInvert()
    else if kind == OP_SHUTDOWN then row.CanShutdown()
    else if kind == OP_SET_ROLE then row.CanSetRoleTo(mode)
    else if kind == OP_RESTORE then row.CanRestore()
    else if kind == OP_REINIT then row.CanReinit()
    else kind == OP_FORCE_CLEAN && row.CanForceClean()
  }

  function Judge(rows: seq<FailoverRow>, agentID: string, op: Operation, confirmVM: string): Verdict {
    var row := JudgedBy(rows, agentID, op.vm);
    if row.Some? && row.value.NeedsTypedConfirmation() && (op.kind == OP_SHUTDOWN || op.kind == OP_SET_ROLE)
       && Trim(confirmVM) != row.value.vm then Unconfirmed
    else if row.None? then NotInView
    else if !KnownKind(op.kind) then UnknownKind
    else if Offers(row.value, op.kind, op.mode) then Eligible
    else Withheld
  }

  method RefuseIneligible(agents: seq<Agent>, reports: map<string, Report>, ops: seq<OperationRecord>, now: int,
                          agentID: string, op: Operation, confirmVM: string)
    returns (v: Verdict)
    ensures v == Judge(PageRows(agents, reports, now), agentID, op, confirmVM)
  {
    var view, _ := BuildFailoverView(agents, reports, ops, now);
    var rows := view.rows;
    var row: Option<FailoverRow> := None;
    var i := 0;
    while i < |rows| && row == None
      invariant i <= |rows|
      invariant row == None ==> JudgedBy(rows, agentID, op.vm) == JudgedBy(rows[i..], agentID, op.vm)
      invariant row != None ==> JudgedBy(rows, agentID, op.vm) == row
    {
      if rows[i].agentID == agentID && EqualFold(rows[i].vm, op.vm) {
        row := Some(rows[i]);
      }
      i := i + 1;
    }
    if row.Some? && row.value.NeedsTypedConfirmation() && (op.kind == OP_SHUTDOWN || op.kind == OP_SET_ROLE) {
      if Trim(confirmVM) != row.value.vm {
        return Unconfirmed;
      }
    }
    if row == None {
      return NotInView;
    }
    var ok := false;
    if op.kind == OP_PROMOTE {
      ok := row.value.CanPromote();
    } else if op.kind == OP_INVERT {
      ok := row.value.CanInvert();
    } else if op.kind == OP_SHUTDOWN {
      ok := row.value.CanShutdown();
    } else if op.kind == OP_SET_ROLE {
      ok := row.value.CanSetRoleTo(op.mode);
    } else if op.kind == OP_RESTORE {
      ok := row.value.CanRestore();
    } else if op.kind == OP_REINIT {
      ok := row.value.CanReinit();
    } else if op.kind == OP_FORCE_CLEAN {
      ok := row.value.CanForceClean();
    } else {
      return UnknownKind;
    }
    v := if ok then Eligible else Withheld;
  }

  // ----- which row a request is judged by -----

  /** The domains of a pair that a request about a domain could mean: its agent's, of its name up to
      case. */
  predicate Twins(s: Sighting, t: Sighting) {
    Participates(t) && t.agent.id == s.agent.id && EqualFold(t.domain.name, s.domain.name)
  }

  /** No domain but this one, reported once or many times alike, answers to its name. */
  ghost predicate Unmistakable(s: Sighting, ss: seq<Sighting>, now: int) {
    forall t | t in ss && Twins(s, t) :: RowOf(t, FailoverIndex(ss), now) == RowOf(s, FailoverIndex(ss), now)
  }

  lemma {:induction false} JudgedIsAMatch(rows: seq<FailoverRow>, agentID: string, vm: string)
    ensures JudgedBy(rows, agentID, vm).Some? <==> exists r :: r in rows && r.agentID == agentID && EqualFold(r.vm, vm)
    ensures JudgedBy(rows, agentID, vm).Some? ==>
              var r := JudgedBy(rows, agentID, vm).value; r in rows && r.agentID == agentID && EqualFold(r.vm, vm)
  {
    if rows != [] {
      assert rows == [rows[0]] + rows[1..];
      JudgedIsAMatch(rows[1..], agentID, vm);
    }
  }

  lemma {:induction false} TwinsShareTheirJudge(rows: seq<FailoverRow>, agentID: string, vm: string, other: string)
    requires EqualFold(vm, other)
    ensures JudgedBy(rows, agentID, vm) == JudgedBy(rows, agentID, other)
  {
    if rows != [] { TwinsShareTheirJudge(rows[1..], agentID, vm, other); }
  }

  /** A request about a domain of the page is judged by the row of one of its twins. */
  lemma JudgedByATwin(agents: seq<Agent>, reports: map<string, Report>, now: int, s: Sighting) returns (t: Sighting)
    requires s in Live(agents, reports) && Participates(s)
    ensures t in Live(agents, reports) && Twins(s, t)
    ensures JudgedBy(PageRows(agents, reports, now), s.agent.id, s.domain.name)
            == Some(RowOf(t, FailoverIndex(Live(agents, reports)), now))
  {
    var live := Live(agents, reports);
    var index, rows := FailoverIndex(live), PageRows(agents, reports, now);
    SortPermutes(ByUrgency, RowsOf(live, index, now));
    RowsAreTheParticipants(live, index, now, RowOf(s, index, now));
    JudgedIsAMatch(rows, s.agent.id, s.domain.name);
    var r := JudgedBy(rows, s.agent.id, s.domain.name).value;
    RowsAreTheParticipants(live, index, now, r);
    t :| t in live && Participates(t) && RowOf(t, index, now) == r;
  }

  predicate JudgedAsItself(agents: seq<Agent>, reports: map<string, Report>, now: int, s: Sighting) {
    JudgedBy(PageRows(agents, reports, now), s.agent.id, s.domain.name)
    == Some(RowOf(s, FailoverIndex(Live(agents, reports)), now))
  }

  /** A domain and all its twins are each judged by their own row exactly when they have but one. */
  lemma JudgedByItself(agents: seq<Agent>, reports: map<string, Report>, now: int, s: Sighting)
    requires s in Live(agents, reports) && Participates(s)
    ensures (forall t | t in Live(agents, reports) && Twins(s, t) :: JudgedAsItself(agents, reports, now, t))
            <==> Unmistakable(s, Live(agents, reports), now)
    ensures Unmistakable(s, Live(agents, reports), now) ==> JudgedAsItself(agents, reports, now, s)
  {
    var u := JudgedByATwin(agents, reports, now, s);
    forall t | t in Live(agents, reports) && Twins(s, t)
      ensures JudgedBy(PageRows(agents, reports, now), t.agent.id, t.domain.name)
              == Some(RowOf(u, FailoverIndex(Live(agents, reports)), now))
    {
      TwinsShareTheirJudge(PageRows(agents, reports, now), s.agent.id, s.domain.name, t.domain.name);
    }
    assert Twins(s, s);
  }

  ghost predicate AllJudgedAsThemselves(agents: seq<Agent>, reports: map<string, Report>, now: int) {
    forall s | s in Live(agents, reports) && Participates(s) :: JudgedAsItself(agents, reports, now, s)
  }

  ghost predicate NoneMistakable(ss: seq<Sighting>, now: int) {
    forall s | s in ss && Participates(s) :: Unmistakable(s, ss, now)
  }

  /** Over the whole page: every domain is judged by its own row exactly when no agent has two different
      rows of one name up to case. */
  lemma AllJudgedAsThemselvesIff(agents: seq<Agent>, reports: map<string, Report>, now: int)
    ensures AllJudgedAsThemselves(agents, reports, now) <==> NoneMistakable(Live(agents, reports), now)
  {
    if AllJudgedAsThemselves(agents, reports, now) {
      forall s | s in Live(agents, reports) && Participates(s) ensures Unmistakable(s, Live(agents, reports), now) {
        JudgedByItself(agents, reports, now, s);
      }
    }
    if NoneMistakable(Live(agents, reports), now) {
      forall s | s in Live(agents, reports) && Participates(s) ensures JudgedAsItself(agents, reports, now, s) {
        JudgedByItself(agents, reports, now, s);
      }
    }
  }

  /** An agent and the two domains it reports. */
  ghost predicate ReportsTwo(a: Agent, reports: map<string, Report>, d: ReportDomain, e: ReportDomain) {
    a.id != "" && !a.revoked && a.id in reports && reports[a.id].domains == [d, e]
  }

  function Of(a: Agent, rep: Report, d: ReportDomain): Sighting { Sighting(a, HostOf(a, rep), d, rep.reportedAtUnix) }

  lemma TwoSightings(a: Agent, reports: map<string, Report>, d: ReportDomain, e: ReportDomain)
    requires ReportsTwo(a, reports, d, e)
    ensures Live([a], reports) == [Of(a, reports[a.id], d), Of(a, reports[a.id], e)]
  {
    assert [a][..0] == [];
    assert Live([], reports) == [];
    assert Live([a], reports) == [] + SightingsOf(a, reports[a.id]);
  }

  lemma TwoRows(s: Sighting, t: Sighting, index: map<string, Sighting>, now: int)
    requires Participates(s) && Participates(t)
    ensures RowsOf([s, t], index, now) == [RowOf(s, index, now), RowOf(t, index, now)]
  {
    assert [s, t][..1] == [s] && [s][..0] == [];
    assert RowsOf([], index, now) == [];
    assert RowsOf([s], index, now) == [] + [RowOf(s, index, now)];
  }

  predicate PausedReplica(d: ReportDomain) { d.role == ROLE_PAUSED && !d.active && d.replicaSource != "" }

  lemma PausedRanksThird(s: Sighting, ss: seq<Sighting>, now: int)
    requires s in ss && forall t | t in ss :: PausedReplica(t.domain)
    ensures RankOf(RowOf(s, FailoverIndex(ss), now)) == 3
  {
    var ref := SplitRef(PeerRefOf(s, FailoverIndex(ss)));
    FailoverIndexHolds(ss, RefKey(ref.host, ref.vm));
  }

  lemma TwoPausedRows(a: Agent, reports: map<string, Report>, d: ReportDomain, e: ReportDomain, now: int)
    requires ReportsTwo(a, reports, d, e) && PausedReplica(d) && PausedReplica(e) && Less(d.name, e.name)
    ensures var live := Live([a], reports);
            PageRows([a], reports, now)
            == [RowOf(Of(a, reports[a.id], d), FailoverIndex(live), now),
                RowOf(Of(a, reports[a.id], e), FailoverIndex(live), now)]
  {
    var s, t := Of(a, reports[a.id], d), Of(a, reports[a.id], e);
    TwoSightings(a, reports, d, e);
    var index := FailoverIndex([s, t]);
    TwoRows(s, t, index, now);
    PausedRanksThird(s, [s, t], now);
    PausedRanksThird(t, [s, t], now);
    LessIsStrictTotal();
    SortedStays(ByUrgency, [RowOf(s, index, now), RowOf(t, index, now)]);
  }

  /** Where it fails: of two paused replicas named alike up to case, a restore of the one listed second
      is accepted on the strength of the first, though it has served and its own row withholds it. */
  lemma ServedTwinIsRestored(a: Agent, reports: map<string, Report>, d: ReportDomain, e: ReportDomain, now: int,
                             op: Operation)
    requires ReportsTwo(a, reports, d, e) && PausedReplica(d) && PausedReplica(e)
    requires EqualFold(d.name, e.name) && Less(d.name, e.name)
    requires d.lastPromotedAt == "" && d.restorePoints != [] && e.lastPromotedAt != ""
    requires op.kind == OP_RESTORE && op.vm == e.name
    ensures var served := Of(a, reports[a.id], e);
            && served in Live([a], reports) && Participates(served)
            && !RowOf(served, FailoverIndex(Live([a], reports)), now).CanRestore()
            && !JudgedAsItself([a], reports, now, served)
            && Judge(PageRows([a], reports, now), a.id, op, "") == Eligible
  {
    TwoSightings(a, reports, d, e);
    TwoPausedRows(a, reports, d, e, now);
  }

  function StoppedReplica(name: string, promotedAt: string): ReportDomain {
    ReportDomain(name, false, ROLE_PAUSED, "", "s:vm", [], promotedAt, "", "", None, ["point"], [])
  }

  /** Such a fleet: one agent with a replica VM and a replica vm. */
  lemma TwinFleetExists(now: int, op: Operation)
    requires op.kind == OP_RESTORE && op.vm == "vm"
    ensures var d, e := StoppedReplica("VM", ""), StoppedReplica("vm", "then");
            var reports := map["1" := Report(0, "", "h", "", [d, e])];
            Judge(PageRows([PlainAgent("1", "h")], reports, now), "1", op, "") == Eligible
  {
    var d, e := StoppedReplica("VM", ""), StoppedReplica("vm", "then");
    assert Less(d.name, e.name) && EqualFold(d.name, e.name);
    ServedTwinIsRestored(PlainAgent("1", "h"), map["1" := Report(0, "", "h", "", [d, e])], d, e, now, op);
  }

  // ----- every request, in terms of what is reported -----

  /** The copy serving production. */
  predicate Serving(d: ReportDomain) { d.role == "promoted" && d.active }

  /** Whether a request about a domain is to be accepted, given what its agent and its peer's report and
      what name was typed. */
  predicate Acceptable(s: Sighting, peer: Option<Sighting>, kind: string, mode: string, typed: string) {
    var d := s.domain;
    && s.agent.id != ""
    && (kind == "promote" ==> d.replicaSource != "" && d.role != "source" && !Serving(d))
    && (kind == "shutdown-domain" ==> d.active && (Serving(d) ==> typed == d.name))
    && (kind == "set-role" ==> (mode == "target" ==> d.lastPromotedAt == "")
                               && (Serving(d) ==> mode == "source" && typed == d.name))
    && (kind == "restore" ==> && !d.active && d.restorePoints != [] && d.lastPromotedAt == ""
                              && d.role !in {"source", "promoted", "fenced"})
    && (kind == "reinit" || kind == "force-clean" ==>
          && d.replicaTargets != []
          && (peer.Some? ==> peer.value.domain.role != "promoted" && peer.value.domain.lastPromotedAt == ""))
    && (kind == "invert" ==>
          && d.replicaTargets != [] && peer.Some?
          && (peer.value.domain.role == "promoted"
              || (peer.value.domain.lastPromotedAt != "" && peer.value.domain.role in {"paused", "fenced", "target"})))
  }

  /** Every request about a domain that is not mistakable: when it is accepted, and when it is sent back for
      a name to be typed. */
  lemma RequestsAreAnswered(agents: seq<Agent>, reports: map<string, Report>, now: int, s: Sighting,
                            op: Operation, confirmVM: string)
    requires s in Live(agents, reports) && Unmistakable(s, Live(agents, reports), now)
    requires s.domain.replicaSource != "" || s.domain.replicaTargets != []
    requires op.vm == s.domain.name
    ensures var verdict := Judge(PageRows(agents, reports, now), s.agent.id, op, confirmVM);
            var peer := PeerOf(s, FailoverIndex(Live(agents, reports)));
            var known := op.kind in {"promote", "invert", "shutdown-domain", "set-role", "restore", "reinit",
                                     "force-clean"};
            && (verdict == UnknownKind <==> !known)
            && (verdict == Eligible <==> known && Acceptable(s, peer, op.kind, op.mode, Trim(confirmVM)))
            && (verdict == Unconfirmed
                <==> && Serving(s.domain) && op.kind in {"shutdown-domain", "set-role"}
                     && Trim(confirmVM) != s.domain.name)
  {
    JudgedByItself(agents, reports, now, s);
    RowAnswers(s, FailoverIndex(Live(agents, reports)), now, op, confirmVM);
  }

  lemma RowAnswers(s: Sighting, index: map<string, Sighting>, now: int, op: Operation, confirmVM: string)
    ensures var row := RowOf(s, index, now);
            var confirmed := !(row.NeedsTypedConfirmation() && (op.kind == OP_SHUTDOWN || op.kind == OP_SET_ROLE)
                               && Trim(confirmVM) != row.vm);
            KnownKind(op.kind) ==>
              (Acceptable(s, PeerOf(s, index), op.kind, op.mode, Trim(confirmVM))
               <==> confirmed && Offers(row, op.kind, op.mode))
  {}

  /** A request about anything else is not in view: no live agent of that id reports a domain of a pair by
      that name up to case. */
  lemma OthersAreNotInView(agents: seq<Agent>, reports: map<string, Report>, now: int, agentID: string,
                           op: Operation, confirmVM: string)
    ensures Judge(PageRows(agents, reports, now), agentID, op, confirmVM) == NotInView
            <==> !exists s :: s in Live(agents, reports) && Participates(s) && s.agent.id == agentID
                              && Fold(s.domain.name) == Fold(op.vm)
  {
    JudgedIsAMatch(PageRows(agents, reports, now), agentID, op.vm);
    if s :| s in Live(agents, reports) && Participates(s) && s.agent.id == agentID
            && Fold(s.domain.name) == Fold(op.vm)
    {
      SightingHasItsRow(agents, reports, now, s);
    } else if r :| r in PageRows(agents, reports, now) && r.agentID == agentID && EqualFold(r.vm, op.vm) {
      var s := RowIsOfSighting(agents, reports, now, r);
    }
  }

  lemma SightingHasItsRow(agents: seq<Agent>, reports: map<string, Report>, now: int, s: Sighting)
    requires s in Live(agents, reports) && (s.domain.replicaSource != "" || s.domain.replicaTargets != [])
    ensures exists r :: r in PageRows(agents, reports, now) && r.agentID == s.agent.id && r.vm == s.domain.name
  {
    var live := Live(agents, reports);
    var index := FailoverIndex(live);
    SortPermutes(ByUrgency, RowsOf(live, index, now));
    RowsAreTheParticipants(live, index, now, RowOf(s, index, now));
  }

  // ----- fan-out: the overwriting kinds -----

  /** A copy a resync into would overwrite data that is, or was and may still be, the live one. */
  predicate Irreplaceable(index: map<string, Sighting>, ref: string) {
    IsPromoted(index, ref) || HasServed(index, ref)
  }

  /** The row of a source is about an irreplaceable target whenever it has one, a promoted one if
      any is; and it then offers the way out that fits the target's role. */
  lemma SourceRowIsAboutTheCopyThatMatters(s: Sighting, index: map<string, Sighting>, now: int)
    requires s.domain.replicaSource == "" && s.domain.replicaTargets != []
    requires exists t :: t in s.domain.replicaTargets && Irreplaceable(index, t)
    ensures var r := RowOf(s, index, now);
            && r.peerRef in s.domain.replicaTargets && Irreplaceable(index, r.peerRef) && r.peerSeen
            && ((exists t :: t in s.domain.replicaTargets && IsPromoted(index, t)) ==> r.peerRole == ROLE_PROMOTED)
            && !r.CanReinit() && !r.CanForceClean()
            && (s.agent.id != "" && r.peerRole in {ROLE_PROMOTED, ROLE_PAUSED, ROLE_FENCED, ROLE_TARGET} ==>
                  r.CanInvert())
  {
    PickIsTiered(s.domain.replicaTargets, index);
  }

  /** Exactly when a source's row offers a resync: no reported target is irreplaceable, and the
      first one carries no promotion record at all. */
  lemma ResyncIsOfferedIff(s: Sighting, index: map<string, Sighting>, now: int)
    requires s.domain.replicaSource == "" && s.domain.replicaTargets != []
    ensures var first := Reported(index, s.domain.replicaTargets[0]);
            RowOf(s, index, now).CanReinit()
            <==> && s.agent.id != ""
                 && (forall t | t in s.domain.replicaTargets :: !Irreplaceable(index, t))
                 && (first.Some? ==> first.value.domain.lastPromotedAt == "")
  {
    PickIsTiered(s.domain.replicaTargets, index);
    if exists t :: t in s.domain.replicaTargets && Irreplaceable(index, t) {
      SourceRowIsAboutTheCopyThatMatters(s, index, now);
    }
  }

  /** Page and endpoint together: a resync of a source is accepted only while every target it could
      overwrite is neither promoted nor an unreleased copy that served. */
  lemma AcceptedResyncIsSafe(agents: seq<Agent>, reports: map<string, Report>, now: int, s: Sighting,
                             op: Operation, confirmVM: string)
    requires s in Live(agents, reports) && Participates(s) && Unmistakable(s, Live(agents, reports), now)
    requires s.domain.replicaSource == ""
    requires op.vm == s.domain.name && (op.kind == OP_REINIT || op.kind == OP_FORCE_CLEAN)
    ensures var index := FailoverIndex(Live(agents, reports));
            var first := Reported(index, s.domain.replicaTargets[0]);
            Judge(PageRows(agents, reports, now), s.agent.id, op, confirmVM) == Eligible
            <==> && s.agent.id != ""
                 && (forall t | t in s.domain.replicaTargets :: !Irreplaceable(index, t))
                 && (first.Some? ==> first.value.domain.lastPromotedAt == "")
  {
    JudgedByItself(agents, reports, now, s);
    ResyncIsOfferedIff(s, FailoverIndex(Live(agents, reports)), now);
  }

  /** A domain that is also a replica escapes all this: its row is about its own source, and that
      alone decides whether a resync of it is accepted. */
  lemma RelayIsNotExamined(agents: seq<Agent>, reports: map<string, Report>, now: int, s: Sighting,
                           op: Operation, confirmVM: string)
    requires s in Live(agents, reports) && Unmistakable(s, Live(agents, reports), now)
    requires s.domain.replicaSource != "" && s.domain.replicaTargets != []
    requires op.vm == s.domain.name && (op.kind == OP_REINIT || op.kind == OP_FORCE_CLEAN)
    ensures var up := Reported(FailoverIndex(Live(agents, reports)), s.domain.replicaSource);
            Judge(PageRows(agents, reports, now), s.agent.id, op, confirmVM) == Eligible
            <==> && s.agent.id != ""
                 && (up.Some? ==> up.value.domain.role != ROLE_PROMOTED && up.value.domain.lastPromotedAt == "")
  {
    JudgedByItself(agents, reports, now, s);
  }

  /** So it is accepted over a promoted and running target of its own whenever nobody reports the
      relay's source. */
  lemma RelayOverwritesItsPromoted(a: Agent, reports: map<string, Report>, d: ReportDomain, e: ReportDomain, now: int,
                                   ref: string, op: Operation)
    requires ReportsTwo(a, reports, d, e) && !EqualFold(d.name, e.name)
    requires d.replicaSource != "" && d.replicaTargets == [ref] && e.role == ROLE_PROMOTED && e.active
    requires var index := FailoverIndex(Live([a], reports));
             Reported(index, d.replicaSource).None? && Reported(index, ref) == Some(Of(a, reports[a.id], e))
    requires op.vm == d.name && (op.kind == OP_REINIT || op.kind == OP_FORCE_CLEAN)
    ensures IsPromoted(FailoverIndex(Live([a], reports)), ref)
    ensures Judge(PageRows([a], reports, now), a.id, op, "") == Eligible
  {
    var s, t := Of(a, reports[a.id], d), Of(a, reports[a.id], e);
    TwoSightings(a, reports, d, e);
    assert !Twins(s, t);
    RelayIsNotExamined([a], reports, now, s, op, "");
  }

  /** Such a fleet: relay r on host h, its promoted target t beside it, its source nowhere. */
  lemma RelayFleetExists(now: int, op: Operation)
    requires op.vm == "r" && (op.kind == OP_REINIT || op.kind == OP_FORCE_CLEAN)
    ensures var d := StoppedReplica("r", "").(replicaSource := "x:up", replicaTargets := ["h:t"]);
            var e := StoppedReplica("t", "").(replicaSource := "h:r", role := ROLE_PROMOTED, active := true);
            var agents, reports := [PlainAgent("1", "h")], map["1" := Report(0, "", "h", "", [d, e])];
            && IsPromoted(FailoverIndex(Live(agents, reports)), "h:t")
            && Judge(PageRows(agents, reports, now), "1", op, "") == Eligible
  {
    var d := StoppedReplica("r", "").(replicaSource := "x:up", replicaTargets := ["h:t"]);
    var e := StoppedReplica("t", "").(replicaSource := "h:r", role := ROLE_PROMOTED, active := true);
    var a, rep := PlainAgent("1", "h"), Report(0, "", "h", "", [d, e]);
    var reports := map["1" := rep];
    TwoSightings(a, reports, d, e);
    RelayIndex(Of(a, rep, d), Of(a, rep, e));
    assert Fold("r")[0] == 'r' && Fold("t")[0] == 't';
    RelayOverwritesItsPromoted(a, reports, d, e, now, "h:t", op);
  }

  lemma RelayIndex(s: Sighting, t: Sighting)
    requires s.host == t.host == "h" && s.domain.name == "r" && t.domain.name == "t"
    ensures Reported(FailoverIndex([s, t]), "x:up") == None
    ensures Reported(FailoverIndex([s, t]), "h:t") == Some(t)
  {
    TwoKeys(s, t);
    RelayKeys();
    UpIsElsewhere(FailoverIndex([s, t]));
    ReportedAtKey(FailoverIndex([s, t]), "h", "t", "h:t");
  }

  lemma RelayKeys()
    ensures RefKey("h", "r") == "h:r" && RefKey("h", "t") == "h:t"
  {
    ReadsAsItself("h", "r");
    ReadsAsItself("h", "t");
  }

  lemma UpIsElsewhere(index: map<string, Sighting>)
    ensures Reported(index, "x:up") == SightingAt(index, "x:up") && "x:up" != "h:r" && "x:up" != "h:t"
  {
    ReportedAtKey(index, "x", "up", "x:up");
    assert "x:up"[0] != "h:t"[0] && "x:up"[0] != "h:r"[0];
  }

  /** Of a promoted replica exactly one thing may be asked at any time: that its promotion be
      finished, while it is stopped; that it be stopped, while it runs and its name is typed. */
  lemma PromotedIsFinishedOrStopped(agents: seq<Agent>, reports: map<string, Report>, now: int, s: Sighting,
                                    finish: Operation, stop: Operation, confirmVM: string)
    requires s in Live(agents, reports) && Unmistakable(s, Live(agents, reports), now)
    requires s.agent.id != "" && s.domain.replicaSource != "" && s.domain.role == ROLE_PROMOTED
    requires finish.vm == stop.vm == s.domain.name && finish.kind == OP_PROMOTE && stop.kind == OP_SHUTDOWN
    ensures var rows := PageRows(agents, reports, now);
            && (Judge(rows, s.agent.id, finish, confirmVM) == Eligible <==> !s.domain.active)
            && (Judge(rows, s.agent.id, stop, confirmVM) == Eligible
                <==> s.domain.active && Trim(confirmVM) == s.domain.name)
            && (s.domain.active && Trim(confirmVM) != s.domain.name ==>
                  Judge(rows, s.agent.id, stop, confirmVM) == Unconfirmed)
  {
    JudgedByItself(agents, reports, now, s);
  }

  /** What a restore may fall on, and a return to the role of target: never a copy that runs as
      promoted, and never one that has served and was not released. */
  lemma ServedCopiesAreKept(agents: seq<Agent>, reports: map<string, Report>, now: int, s: Sighting,
                            op: Operation, confirmVM: string)
    requires s in Live(agents, reports) && Participates(s) && Unmistakable(s, Live(agents, reports), now)
    requires op.vm == s.domain.name
    ensures op.kind == OP_RESTORE ==>
              (Judge(PageRows(agents, reports, now), s.agent.id, op, confirmVM) == Eligible
               <==> && s.agent.id != "" && s.domain.lastPromotedAt == "" && !s.domain.active
                    && s.domain.restorePoints != []
                    && s.domain.role !in {ROLE_SOURCE, ROLE_PROMOTED, ROLE_FENCED})
    ensures op.kind == OP_SET_ROLE && op.mode == ROLE_TARGET ==>
              (Judge(PageRows(agents, reports, now), s.agent.id, op, confirmVM) == Eligible
               <==> && s.agent.id != "" && s.domain.lastPromotedAt == ""
                    && !(s.domain.role == ROLE_PROMOTED && s.domain.active))
  {
    JudgedByItself(agents, reports, now, s);
  }

  // ----- the operation a form asks for -----

  datatype Form = Form(
    agentID: string, vm: string, kind: string, peerHost: string, peerVM: string,
    mode: string, start: bool, force: bool, armFence: bool, role: string, tag: string, user: string)

  datatype Request =
    | Ready(op: Operation)
    | MissingTarget     // no agent or no VM named
    | BadMode
    | NoPeer
    | RoleNotSettable
    | NoTag
    | TagUnknown
    | BadKind

  predicate SettableByHand(role: string) { role == ROLE_TARGET || role == ROLE_SOURCE || role == ROLE_PAUSED }

  /** Assembles an operation: which fields a kind keeps is the whole of what differs between kinds. */
  method BuildOperation(f: Form, timeout: int, tagKnown: bool) returns (r: Request)
    ensures r.Ready? ==>
              && r.op.vm == Trim(f.vm) != "" && r.op.kind == Trim(f.kind) && KnownKind(r.op.kind)
              && Trim(f.agentID) != "" && r.op.createdBy == f.user && r.op.id == "" && r.op.actionID == ""
    ensures r.Ready? && r.op.kind in {OP_SET_ROLE, OP_REINIT, OP_FORCE_CLEAN} ==>
              r.op.peerHost == "" && r.op.peerVM == ""
    ensures r.Ready? && r.op.kind in {OP_PROMOTE, OP_INVERT, OP_SHUTDOWN, OP_RESTORE} ==>
              r.op.peerHost == Trim(f.peerHost) && r.op.peerVM == Trim(f.peerVM)
    ensures r.Ready? && r.op.kind == OP_INVERT ==> r.op.peerHost != ""
    ensures r.Ready? ==> r.op.mode == (if r.op.kind == OP_PROMOTE then f.mode
                                       else if r.op.kind == OP_SET_ROLE then Trim(f.role) else "")
    ensures r.Ready? && r.op.kind == OP_SET_ROLE ==> r.op.mode != ROLE_PROMOTED
    ensures r.Ready? ==> (r.op.startVM <==> r.op.kind == OP_PROMOTE && f.start)
    ensures r.Ready? ==> (r.op.armFence <==> r.op.kind == OP_PROMOTE && f.armFence)
    ensures r.Ready? ==> (r.op.force <==> r.op.kind == OP_PROMOTE && f.force)
    ensures r.Ready? ==> r.op.tag == (if r.op.kind == OP_RESTORE then Trim(f.tag) else "")
    ensures r.Ready? ==> r.op.shutdownTimeoutSec == (if r.op.kind == OP_SHUTDOWN then timeout else 0)
    ensures r.Ready? ==> r.op.createdAtUnix == 0 && r.op.notAfterUnix == 0
    ensures r == MissingTarget <==> Trim(f.agentID) == "" || Trim(f.vm) == ""
    ensures Trim(f.agentID) != "" && Trim(f.vm) != "" ==>
              && (r == BadMode <==> Trim(f.kind) == "promote" && f.mode != "planned" && f.mode != "forced")
              && (r == NoPeer <==> Trim(f.kind) == "invert" && Trim(f.peerHost) == "")
              && (r == RoleNotSettable
                  <==> Trim(f.kind) == "set-role" && Trim(f.role) !in {"target", "source", "paused"})
              && (r == NoTag <==> Trim(f.kind) == "restore" && Trim(f.tag) == "")
              && (r == TagUnknown <==> Trim(f.kind) == "restore" && Trim(f.tag) != "" && !tagKnown)
    ensures Trim(f.agentID) != "" && Trim(f.vm) != "" ==>
              (r.Ready? <==>
                 || (Trim(f.kind) == OP_PROMOTE && (f.mode == "planned" || f.mode == "forced"))
                 || (Trim(f.kind) == OP_INVERT && Trim(f.peerHost) != "")
                 || Trim(f.kind) == OP_SHUTDOWN
                 || (Trim(f.kind) == OP_SET_ROLE && SettableByHand(Trim(f.role)))
                 || (Trim(f.kind) == OP_RESTORE && Trim(f.tag) != "" && tagKnown)
                 || Trim(f.kind) == OP_REINIT || Trim(f.kind) == OP_FORCE_CLEAN)
  {
    var agentID, vm, kind := Trim(f.agentID), Trim(f.vm), Trim(f.kind);
    if agentID == "" || vm == "" {
      return MissingTarget;
    }
    var op := Operation(
      "", kind, vm, Trim(f.peerHost), Trim(f.peerVM), "", false, false, false, 0, "", "", 0, f.user, 0);
    if kind == OP_PROMOTE {
      if f.mode != "planned" && f.mode != "forced" {
        return BadMode;
      }
      op := op.(mode := f.mode);
      op := op.(startVM := f.start);
      op := op.(force := f.force);
      op := op.(armFence := f.armFence);
    } else if kind == OP_INVERT {
      if op.peerHost == "" {
        return NoPeer;
      }
    } else if kind == OP_SHUTDOWN {
      op := op.(shutdownTimeoutSec := timeout);
    } else if kind == OP_SET_ROLE {
      var role := Trim(f.role);
      if !SettableByHand(role) {
        return RoleNotSettable;
      }
      op := op.(mode := role);
      op := op.(peerHost := "", peerVM := "");
    } else if kind == OP_RESTORE {
      var tag := Trim(f.tag);
      if tag == "" {
        return NoTag;
      }
      if !tagKnown {
        return TagUnknown;
      }
      op := op.(tag := tag);
    } else if kind == OP_REINIT || kind == OP_FORCE_CLEAN {
      op := op.(peerHost := "", peerVM := "");
    } else {
      return BadKind;
    }
    r := Ready(op);
  }
}
