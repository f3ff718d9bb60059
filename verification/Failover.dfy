/** The failover page: one row per domain of a pair, about the peer it concerns, with the actions
    its state permits; and the list of operations beneath. */
module Failover {
  import opened Text
  import opened Sorting
  import opened Records
  import opened Fleet

  /** How long without a report before what it said stops counting as current. */
  const STALE_AFTER := 300

  datatype FailoverRow = FailoverRow(
    agentID: string, hostname: string, vm: string, role: string, active: bool, agentStale: bool,
    isReplica: bool, isSource: bool,
    peerRef: string, peerHost: string, peerVM: string,
    peerSeen: bool, peerRole: string, peerActive: bool, peerReportAge: int, peerVerifyState: string,
    peerReplicaIncomplete: string, peerLastPromotedAt: string, peerIsReplica: bool,
    lastPromotedAt: string, verifyState: string, replicaIncomplete: string,
    fenced: Option<ReportFenced>, restorePoints: seq<string>)
  {
    // ----- what the state is -----

    predicate ServedLive() { lastPromotedAt != "" }

    predicate PeerServedLive() { peerLastPromotedAt != "" }

    predicate IsLivePromoted() { role == ROLE_PROMOTED && active }

    predicate PeerPromoted() { peerSeen && peerRole == ROLE_PROMOTED }

    predicate FenceFailed() {
      (role == ROLE_FENCED && active) || (active && fenced.Some? && fenced.value.state != STATE_DONE)
    }

    predicate PeerFresh() { peerSeen && 0 <= peerReportAge <= STALE_AFTER }

    predicate SplitBrainShape() { active && peerSeen && peerRole == ROLE_PROMOTED && peerActive }

    predicate SplitBrain() { SplitBrainShape() && PeerFresh() }

    predicate SplitBrainPossible() { SplitBrainShape() && !PeerFresh() }

    predicate NeedsDecision() {
      SplitBrain() || SplitBrainPossible() || FenceFailed()
      || role == ROLE_PROMOTED || role == ROLE_PAUSED || PeerPromoted()
    }

    // ----- what it permits -----

    predicate CanPromote() {
      && agentID != "" && isReplica
      && role != ROLE_SOURCE
      && (role == ROLE_PROMOTED ==> !active)
    }

    predicate CanShutdown() { agentID != "" && active }

    predicate CanInvert() {
      && agentID != "" && isSource && peerSeen
      && (peerRole == ROLE_PROMOTED
          || (PeerServedLive() && (peerRole == ROLE_PAUSED || peerRole == ROLE_FENCED || peerRole == ROLE_TARGET)))
    }

    predicate CanSetRoleTo(to: string) {
      && agentID != ""
      && !(to == ROLE_TARGET && ServedLive())
      && !(IsLivePromoted() && to != ROLE_SOURCE)
    }

    predicate NeedsTypedConfirmation() { IsLivePromoted() }

    predicate CanRestore() {
      && agentID != "" && !active && restorePoints != []
      && !ServedLive()
      && role != ROLE_SOURCE && role != ROLE_PROMOTED && role != ROLE_FENCED
    }

    predicate CanReinit() {
      agentID != "" && isSource && peerRole != ROLE_PROMOTED && !PeerServedLive()
    }

    predicate CanForceClean() { CanReinit() }
  }

  function RankOf(r: FailoverRow): int {
    if r.SplitBrainPossible() then 0
    else if r.SplitBrain() || r.FenceFailed() then 0
    else if r.role == ROLE_PROMOTED then 1
    else if r.PeerPromoted() then 2
    else if r.role == ROLE_PAUSED then 3
    else 4
  }

  // ----- which peer a row is about -----

  function Reported(index: map<string, Sighting>, ref: string): Option<Sighting> {
    SightingAt(index, RefKey(SplitRef(ref).host, SplitRef(ref).vm))
  }

  predicate IsPromoted(index: map<string, Sighting>, ref: string) {
    Reported(index, ref).Some? && Reported(index, ref).value.domain.role == ROLE_PROMOTED
  }

  /** A reported copy that has served live and is not the authoritative one. */
  predicate HasServed(index: map<string, Sighting>, ref: string) {
    && Reported(index, ref).Some?
    && Reported(index, ref).value.domain.lastPromotedAt != ""
    && Reported(index, ref).value.domain.role != ROLE_SOURCE
  }

  function FirstPromoted(targets: seq<string>, index: map<string, Sighting>): Option<string> {
    if targets == [] then None
    else if IsPromoted(index, targets[0]) then Some(targets[0])
    else FirstPromoted(targets[1..], index)
  }

  function FirstServed(targets: seq<string>, index: map<string, Sighting>): Option<string> {
    if targets == [] then None
    else if HasServed(index, targets[0]) then Some(targets[0])
    else FirstServed(targets[1..], index)
  }

  function PickPromotedTarget(targets: seq<string>, index: map<string, Sighting>): string {
    if FirstPromoted(targets, index).Some? then FirstPromoted(targets, index).value
    else if FirstServed(targets, index).Some? then FirstServed(targets, index).value
    else if targets != [] then targets[0]
    else ""
  }

  lemma {:induction false} PickIsTiered(targets: seq<string>, index: map<string, Sighting>)
    ensures FirstPromoted(targets, index).Some? <==> exists t :: t in targets && IsPromoted(index, t)
    ensures FirstPromoted(targets, index).Some? ==>
              FirstPromoted(targets, index).value in targets && IsPromoted(index, FirstPromoted(targets, index).value)
    ensures FirstServed(targets, index).Some? <==> exists t :: t in targets && HasServed(index, t)
    ensures FirstServed(targets, index).Some? ==>
              FirstServed(targets, index).value in targets && HasServed(index, FirstServed(targets, index).value)
  {
    if targets != [] {
      assert targets == [targets[0]] + targets[1..];
      PickIsTiered(targets[1..], index);
    }
  }

  /** What it is for a target to be promoted, and to have served without being the source of its own pair. */
  lemma TargetsAre(index: map<string, Sighting>, ref: string)
    ensures IsPromoted(index, ref)
            <==> Reported(index, ref).Some? && Reported(index, ref).value.domain.role == "promoted"
    ensures HasServed(index, ref)
            <==> && Reported(index, ref).Some? && Reported(index, ref).value.domain.lastPromotedAt != ""
                 && Reported(index, ref).value.domain.role != "source"
  {}

  /** Which target is picked, by place: the first promoted one; failing that the first that served and is
      not the source of its own pair; failing that the first. */
  lemma {:induction false} PickIsFirst(targets: seq<string>, index: map<string, Sighting>) returns (k: nat)
    requires targets != []
    ensures k < |targets| && PickPromotedTarget(targets, index) == targets[k]
    ensures (exists t :: t in targets && IsPromoted(index, t)) ==>
              IsPromoted(index, targets[k]) && forall i | 0 <= i < k :: !IsPromoted(index, targets[i])
    ensures (forall t | t in targets :: !IsPromoted(index, t)) && (exists t :: t in targets && HasServed(index, t)) ==>
              HasServed(index, targets[k]) && forall i | 0 <= i < k :: !HasServed(index, targets[i])
    ensures (forall t | t in targets :: !IsPromoted(index, t) && !HasServed(index, t)) ==> k == 0
  {
    PickIsTiered(targets, index);
    if FirstPromoted(targets, index).Some? {
      k := FirstPromotedIs(targets, index);
    } else if FirstServed(targets, index).Some? {
      k := FirstServedIs(targets, index);
    } else {
      k := 0;
    }
  }

  lemma {:induction false} FirstPromotedIs(targets: seq<string>, index: map<string, Sighting>) returns (k: nat)
    requires FirstPromoted(targets, index).Some?
    ensures k < |targets| && FirstPromoted(targets, index) == Some(targets[k]) && IsPromoted(index, targets[k])
    ensures forall i | 0 <= i < k :: !IsPromoted(index, targets[i])
  {
    if IsPromoted(index, targets[0]) {
      k := 0;
    } else {
      k := FirstPromotedIs(targets[1..], index);
      k := k + 1;
      assert forall i | 1 <= i < |targets| :: targets[i] == targets[1..][i - 1];
    }
  }

  lemma {:induction false} FirstServedIs(targets: seq<string>, index: map<string, Sighting>) returns (k: nat)
    requires FirstServed(targets, index).Some?
    ensures k < |targets| && FirstServed(targets, index) == Some(targets[k]) && HasServed(index, targets[k])
    ensures forall i | 0 <= i < k :: !HasServed(index, targets[i])
  {
    if HasServed(index, targets[0]) {
      k := 0;
    } else {
      k := FirstServedIs(targets[1..], index);
      k := k + 1;
      assert forall i | 1 <= i < |targets| :: targets[i] == targets[1..][i - 1];
    }
  }

  // ----- small fleets -----

  /** An agent nothing is known of but its name. */
  function PlainAgent(id: string, host: string): Agent { Agent(id, host, "", 0, "", 0, "", false, 0) }

  lemma ReportedAtKey(index: map<string, Sighting>, host: string, vm: string, key: string)
    requires ReadsPlainly(host) && ReadsPlainly(vm) && NoColon(vm) && host + ":" + vm == key
    ensures Reported(index, key) == SightingAt(index, key)
  {
    SplitWritten(host, vm);
    ReadsAsItself(host, vm);
  }

  lemma TwoKeys(s: Sighting, t: Sighting)
    ensures FailoverIndex([s, t]) == map[KeyOf(s) := s][KeyOf(t) := t]
  {
    assert [s, t][..1] == [s] && [s][..0] == [];
    assert FailoverIndex([]) == map[];
    assert FailoverIndex([s]) == map[][KeyOf(s) := s];
  }

  // ----- rows -----

  predicate Participates(s: Sighting) { s.domain.replicaSource != "" || s.domain.replicaTargets != [] }

  function PeerRefOf(s: Sighting, index: map<string, Sighting>): string {
    if s.domain.replicaSource != "" then s.domain.replicaSource
    else PickPromotedTarget(s.domain.replicaTargets, index)
  }

  /** The age of a report, or -1 when it carries no time. */
  function AgeOf(reportedAt: int, now: int): int { if reportedAt > 0 then now - reportedAt else -1 }

  predicate Stale(a: Agent, now: int) { a.lastSeenAt == 0 || now - a.lastSeenAt > STALE_AFTER }

  function RowOf(s: Sighting, index: map<string, Sighting>, now: int): FailoverRow {
    var d, ref := s.domain, PeerRefOf(s, index);
    var peer := Reported(index, ref);
    var p := if peer.Some? then peer.value.domain else d;
    FailoverRow(
      s.agent.id, s.host, d.name, d.role, d.active, Stale(s.agent, now),
      d.replicaSource != "", d.replicaTargets != [],
      ref, SplitRef(ref).host, SplitRef(ref).vm,
      peer.Some?,
      if peer.Some? then p.role else "",
      peer.Some? && p.active,
      if peer.Some? then AgeOf(peer.value.reportedAt, now) else -1,
      if peer.Some? then p.verifyState else "",
      if peer.Some? then p.replicaIncomplete else "",
      if peer.Some? then p.lastPromotedAt else "",
      peer.Some? && p.replicaSource != "",
      d.lastPromotedAt, d.verifyState, d.replicaIncomplete, d.fenced, d.restorePoints)
  }

  function RowsOf(ss: seq<Sighting>, index: map<string, Sighting>, now: int): seq<FailoverRow> {
    if ss == [] then []
    else
      var n := |ss| - 1;
      RowsOf(ss[..n], index, now) + (if Participates(ss[n]) then [RowOf(ss[n], index, now)] else [])
  }

  predicate ByUrgency(a: FailoverRow, b: FailoverRow) {
    if RankOf(a) != RankOf(b) then RankOf(a) < RankOf(b)
    else if a.hostname != b.hostname then Less(a.hostname, b.hostname)
    else Less(a.vm, b.vm)
  }

  lemma ByUrgencyIsStrictWeak()
    ensures StrictWeak(ByUrgency)
  {
    LessIsStrictTotal();
  }

  function Live(agents: seq<Agent>, reports: map<string, Report>): seq<Sighting> { Sightings(agents, reports, false) }

  /** The rows of the page: every participating domain of a live agent, most urgent first. */
  function PageRows(agents: seq<Agent>, reports: map<string, Report>, now: int): seq<FailoverRow> {
    var live := Live(agents, reports);
    SortBy(ByUrgency, RowsOf(live, FailoverIndex(live), now))
  }

  function CountOf(rows: seq<FailoverRow>, p: FailoverRow -> bool): nat {
    if rows == [] then 0
    else CountOf(rows[..|rows| - 1], p) + (if p(rows[|rows| - 1]) then 1 else 0)
  }

  predicate InSplitBrain(r: FailoverRow) { r.SplitBrain() }
  predicate InPossibleSplitBrain(r: FailoverRow) { r.SplitBrainPossible() }
  predicate HasFailedFence(r: FailoverRow) { r.FenceFailed() }
  predicate InTrouble(r: FailoverRow) { r.SplitBrain() || r.FenceFailed() }
  predicate InTroubleTwice(r: FailoverRow) { r.SplitBrain() && r.FenceFailed() }

  // ----- promises about rows -----

  lemma {:induction false} RowsAreTheParticipants(ss: seq<Sighting>, index: map<string, Sighting>, now: int,
                                                  r: FailoverRow)
    ensures r in RowsOf(ss, index, now) <==> exists s :: s in ss && Participates(s) && RowOf(s, index, now) == r
  {
    if ss != [] {
      var n := |ss| - 1;
      RowsAreTheParticipants(ss[..n], index, now, r);
      assert ss == ss[..n] + [ss[n]];
    }
  }

  /** Urgent exactly when a decision is needed; and the two split-brain states part the shape. */
  lemma RankMeansDecision(r: FailoverRow)
    ensures RankOf(r) < 4 <==> r.NeedsDecision()
    ensures RankOf(r) == 0 <==> r.SplitBrainShape() || r.FenceFailed()
    ensures r.SplitBrainShape() <==> r.SplitBrain() || r.SplitBrainPossible()
    ensures !(r.SplitBrain() && r.SplitBrainPossible())
  {}

  /** The page holds the participating domains and nothing else, each as often as it was reported,
      ordered so that no row needing a decision comes after one that needs none. */
  lemma PageIsOrdered(agents: seq<Agent>, reports: map<string, Report>, now: int)
    ensures var rows := PageRows(agents, reports, now);
            var live := Live(agents, reports);
            && multiset(rows) == multiset(RowsOf(live, FailoverIndex(live), now))
            && Sorted(ByUrgency, rows)
            && (forall i, j | 0 <= i < j < |rows| :: rows[j].NeedsDecision() ==> rows[i].NeedsDecision())
  {
    var live := Live(agents, reports);
    var unsorted := RowsOf(live, FailoverIndex(live), now);
    ByUrgencyIsStrictWeak();
    SortSorts(ByUrgency, unsorted);
    SortPermutes(ByUrgency, unsorted);
    var rows := PageRows(agents, reports, now);
    forall i, j | 0 <= i < j < |rows| && rows[j].NeedsDecision() ensures rows[i].NeedsDecision() {
      assert !ByUrgency(rows[j], rows[i]);
      RankMeansDecision(rows[i]);
      RankMeansDecision(rows[j]);
    }
  }

  /** Domains in trouble, each counted once: the two chips less those in both. */
  lemma {:induction false} TroubleIsCountedOnce(rows: seq<FailoverRow>)
    ensures CountOf(rows, InTrouble)
            == CountOf(rows, InSplitBrain) + CountOf(rows, HasFailedFence) - CountOf(rows, InTroubleTwice)
    ensures CountOf(rows, InTrouble) <= |rows|
  {
    if rows != [] { TroubleIsCountedOnce(rows[..|rows| - 1]); }
  }

  // ----- the page in terms of what is reported -----

  /** A row says what its domain's agent reports of it and what its peer's agent, if any, reports of that. */
  lemma RowSays(s: Sighting, index: map<string, Sighting>, now: int)
    ensures var r, d, peer := RowOf(s, index, now), s.domain, PeerOf(s, index);
            && r.agentID == s.agent.id && r.hostname == s.host && r.vm == d.name && r.role == d.role
            && r.active == d.active && r.lastPromotedAt == d.lastPromotedAt && r.verifyState == d.verifyState
            && r.replicaIncomplete == d.replicaIncomplete && r.fenced == d.fenced && r.restorePoints == d.restorePoints
            && (r.isReplica <==> d.replicaSource != "") && (r.isSource <==> d.replicaTargets != [])
            && (r.agentStale <==> s.agent.lastSeenAt == 0 || now - s.agent.lastSeenAt > 5 * 60)
            && (r.peerSeen <==> peer.Some?)
            && (peer.None? ==> r.peerRole == "" && !r.peerActive && r.peerReportAge == -1 && r.peerVerifyState == ""
                               && r.peerReplicaIncomplete == "" && r.peerLastPromotedAt == "" && !r.peerIsReplica)
            && (peer.Some? ==> var p := peer.value.domain;
                  && r.peerRole == p.role && r.peerActive == p.active && r.peerVerifyState == p.verifyState
                  && r.peerReplicaIncomplete == p.replicaIncomplete && r.peerLastPromotedAt == p.lastPromotedAt
                  && (r.peerIsReplica <==> p.replicaSource != "")
                  && r.peerReportAge == if peer.value.reportedAt > 0 then now - peer.value.reportedAt else -1)
  {}

  /** What is found under a reference: a sighting of its host up to case and blanks and of its VM up to
      blanks, and something whenever there is such a one. */
  lemma ReportedIs(ss: seq<Sighting>, ref: string)
    requires forall t | t in ss :: NoColon(t.domain.name)
    ensures var found := Reported(FailoverIndex(ss), ref);
            && (found.Some? ==> found.value in ss && Answers(found.value, ref))
            && (found.None? ==> forall t | t in ss :: !Answers(t, ref))
  {
    var host, vm := SplitRef(ref).host, SplitRef(ref).vm;
    FailoverIndexHolds(ss, RefKey(host, vm));
    forall t | t in ss ensures KeyOf(t) == RefKey(host, vm) <==> Answers(t, ref) {
      RefKeyInjective(t.host, t.domain.name, host, vm);
    }
  }

  predicate Answers(t: Sighting, ref: string) {
    Fold(Trim(t.host)) == Fold(Trim(SplitRef(ref).host)) && Trim(t.domain.name) == Trim(SplitRef(ref).vm)
  }

  function PeerOf(s: Sighting, index: map<string, Sighting>): Option<Sighting> {
    Reported(index, PeerRefOf(s, index))
  }

  /** Running beside a promoted and running peer. */
  predicate RunsBesideItsCopy(s: Sighting, index: map<string, Sighting>) {
    s.domain.active && PeerOf(s, index).Some?
    && PeerOf(s, index).value.domain.role == "promoted" && PeerOf(s, index).value.domain.active
  }

  /** Running although it was fenced: by its role, whatever the ledger of fences says, or by a fence on
      that ledger which did not get done. */
  predicate RunsFenced(s: Sighting) {
    s.domain.active
    && (s.domain.role == "fenced" || (s.domain.fenced.Some? && s.domain.fenced.value.state != "done"))
  }

  predicate CurrentAt(s: Sighting, now: int) { s.reportedAt > 0 && 0 <= now - s.reportedAt <= 5 * 60 }

  predicate SurelyBesideItsCopy(s: Sighting, index: map<string, Sighting>, now: int) {
    RunsBesideItsCopy(s, index) && CurrentAt(PeerOf(s, index).value, now)
  }

  lemma AlarmsAre(s: Sighting, index: map<string, Sighting>, now: int)
    ensures var r := RowOf(s, index, now);
            && (r.FenceFailed() <==> RunsFenced(s))
            && (r.SplitBrain() <==> SurelyBesideItsCopy(s, index, now))
            && (r.SplitBrainPossible() <==> RunsBesideItsCopy(s, index) && !CurrentAt(PeerOf(s, index).value, now))
  {}

  /** How much attention a domain wants: running fenced or beside its copy; promoted; the source of a
      promoted peer; paused; none. */
  function ClassOf(s: Sighting, index: map<string, Sighting>): nat {
    if RunsFenced(s) || RunsBesideItsCopy(s, index) then 0
    else if s.domain.role == "promoted" then 1
    else if PeerOf(s, index).Some? && PeerOf(s, index).value.domain.role == "promoted" then 2
    else if s.domain.role == "paused" then 3
    else 4
  }

  lemma RankIsClass(s: Sighting, index: map<string, Sighting>, now: int)
    ensures RankOf(RowOf(s, index, now)) == ClassOf(s, index)
  {
    AlarmsAre(s, index, now);
  }

  /** Of any two rows of the page the first is about a domain of a class no lower, and within one class
      they stand by host and then by VM. */
  lemma PageStandsByClass(agents: seq<Agent>, reports: map<string, Report>, now: int, i: nat, j: nat)
    returns (s: Sighting, t: Sighting)
    requires i < j < |PageRows(agents, reports, now)|
    ensures var live, rows := Live(agents, reports), PageRows(agents, reports, now);
            var index := FailoverIndex(live);
            && s in live && Participates(s) && rows[i] == RowOf(s, index, now)
            && t in live && Participates(t) && rows[j] == RowOf(t, index, now)
            && ClassOf(s, index) <= ClassOf(t, index)
            && (ClassOf(s, index) == ClassOf(t, index) ==>
                  !Less(t.host, s.host) && (s.host == t.host ==> !Less(t.domain.name, s.domain.name)))
  {
    var rows := PageRows(agents, reports, now);
    var index := FailoverIndex(Live(agents, reports));
    s := RowIsOfSighting(agents, reports, now, rows[i]);
    t := RowIsOfSighting(agents, reports, now, rows[j]);
    RankIsClass(s, index, now);
    RankIsClass(t, index, now);
    PageIsOrdered(agents, reports, now);
    NoLessUrgent(rows[i], rows[j]);
  }

  lemma NoLessUrgent(r: FailoverRow, q: FailoverRow)
    requires !ByUrgency(q, r)
    ensures RankOf(r) <= RankOf(q)
    ensures RankOf(r) == RankOf(q) ==>
              !Less(q.hostname, r.hostname) && (r.hostname == q.hostname ==> !Less(q.vm, r.vm))
  {
    LessIrreflexive(r.hostname);
  }

  lemma RowIsOfSighting(agents: seq<Agent>, reports: map<string, Report>, now: int, r: FailoverRow)
    returns (s: Sighting)
    requires r in PageRows(agents, reports, now)
    ensures s in Live(agents, reports) && Participates(s) && r == RowOf(s, FailoverIndex(Live(agents, reports)), now)
    ensures s.domain.replicaSource != "" || s.domain.replicaTargets != []
  {
    var live := Live(agents, reports);
    var index := FailoverIndex(live);
    SortPermutes(ByUrgency, RowsOf(live, index, now));
    RowsAreTheParticipants(live, index, now, r);
    s :| s in live && Participates(s) && RowOf(s, index, now) == r;
  }

  predicate PerhapsBesideItsCopy(s: Sighting, index: map<string, Sighting>, now: int) {
    RunsBesideItsCopy(s, index) && !CurrentAt(PeerOf(s, index).value, now)
  }

  /** How many domains of a pair run fenced, and how many run beside their copies, surely or perhaps. */
  function FencedIn(ss: seq<Sighting>): nat {
    if ss == [] then 0
    else
      var s := ss[|ss| - 1];
      FencedIn(ss[..|ss| - 1]) + (if Participates(s) && RunsFenced(s) then 1 else 0)
  }

  function SureIn(ss: seq<Sighting>, index: map<string, Sighting>, now: int): nat {
    if ss == [] then 0
    else
      var s := ss[|ss| - 1];
      SureIn(ss[..|ss| - 1], index, now) + (if Participates(s) && SurelyBesideItsCopy(s, index, now) then 1 else 0)
  }

  function PerhapsIn(ss: seq<Sighting>, index: map<string, Sighting>, now: int): nat {
    if ss == [] then 0
    else
      var s := ss[|ss| - 1];
      PerhapsIn(ss[..|ss| - 1], index, now) + (if Participates(s) && PerhapsBesideItsCopy(s, index, now) then 1 else 0)
  }

  lemma {:induction false} FencedAreCounted(ss: seq<Sighting>, index: map<string, Sighting>, now: int)
    ensures CountOf(RowsOf(ss, index, now), HasFailedFence) == FencedIn(ss)
  {
    if ss != [] {
      var n := |ss| - 1;
      FencedAreCounted(ss[..n], index, now);
      OneMoreRow(ss, index, now);
      OneMoreAlarm(RowsOf(ss[..n], index, now), RowOf(ss[n], index, now));
      AlarmsAre(ss[n], index, now);
    }
  }

  lemma {:induction false} SureAreCounted(ss: seq<Sighting>, index: map<string, Sighting>, now: int)
    ensures CountOf(RowsOf(ss, index, now), InSplitBrain) == SureIn(ss, index, now)
  {
    if ss != [] {
      var n := |ss| - 1;
      SureAreCounted(ss[..n], index, now);
      OneMoreRow(ss, index, now);
      OneMoreAlarm(RowsOf(ss[..n], index, now), RowOf(ss[n], index, now));
      AlarmsAre(ss[n], index, now);
    }
  }

  lemma {:induction false} PerhapsAreCounted(ss: seq<Sighting>, index: map<string, Sighting>, now: int)
    ensures CountOf(RowsOf(ss, index, now), InPossibleSplitBrain) == PerhapsIn(ss, index, now)
  {
    if ss != [] {
      var n := |ss| - 1;
      PerhapsAreCounted(ss[..n], index, now);
      OneMoreRow(ss, index, now);
      OneMoreAlarm(RowsOf(ss[..n], index, now), RowOf(ss[n], index, now));
      AlarmsAre(ss[n], index, now);
    }
  }

  lemma OneMoreRow(ss: seq<Sighting>, index: map<string, Sighting>, now: int)
    requires ss != []
    ensures var s, before := ss[|ss| - 1], RowsOf(ss[..|ss| - 1], index, now);
            RowsOf(ss, index, now) == if Participates(s) then before + [RowOf(s, index, now)] else before
  {}

  lemma OneMoreAlarm(rows: seq<FailoverRow>, r: FailoverRow)
    ensures CountOf(rows + [r], HasFailedFence) == CountOf(rows, HasFailedFence) + (if r.FenceFailed() then 1 else 0)
    ensures CountOf(rows + [r], InSplitBrain) == CountOf(rows, InSplitBrain) + (if r.SplitBrain() then 1 else 0)
    ensures CountOf(rows + [r], InPossibleSplitBrain)
            == CountOf(rows, InPossibleSplitBrain) + (if r.SplitBrainPossible() then 1 else 0)
  {
    assert (rows + [r])[..|rows|] == rows;
  }

  // ----- the operations beneath -----

  datatype OperationView = OperationView(record: OperationRecord, host: string, state: string, terminal: bool)

  /** How many finished operations the page shows. */
  const OPERATIONS_SHOWN := 50

  predicate Expired(rec: OperationRecord, now: int) { rec.op.notAfterUnix > 0 && now > rec.op.notAfterUnix }

  function StateOf(rec: OperationRecord, now: int): string {
    if rec.cancelledAtUnix != 0 then "cancelled"
    else if rec.result.Some? then rec.result.value.state
    else if Expired(rec, now) then "expired"
    else "pending"
  }

  function HostByAgent(agents: seq<Agent>, reports: map<string, Report>): map<string, string> {
    if agents == [] then map[]
    else
      var a := agents[|agents| - 1];
      HostByAgent(agents[..|agents| - 1], reports)[
        a.id := if a.id in reports && reports[a.id].hostname != "" then reports[a.id].hostname else a.hostname]
  }

  function OperationHost(hosts: map<string, string>, rec: OperationRecord): string {
    if rec.agentID in hosts && hosts[rec.agentID] != "" then hosts[rec.agentID] else rec.agentID
  }

  function Unfinished(ops: seq<OperationRecord>): seq<OperationRecord> {
    if ops == [] then []
    else Unfinished(ops[..|ops| - 1]) + (if ops[|ops| - 1].Pending() then [ops[|ops| - 1]] else [])
  }

  function Finished(ops: seq<OperationRecord>): seq<OperationRecord> {
    if ops == [] then []
    else Finished(ops[..|ops| - 1]) + (if ops[|ops| - 1].Pending() then [] else [ops[|ops| - 1]])
  }

  function RecordsOf(views: seq<OperationView>): seq<OperationRecord> {
    seq(|views|, i requires 0 <= i < |views| => views[i].record)
  }

  function Most(n: nat, s: seq<OperationRecord>): seq<OperationRecord> { if |s| <= n then s else s[..n] }

  /** The list as the page promises it: every operation still awaiting an agent and the first finished
      ones up to the cap, with exact counts of what is awaited and what is left out. */
  predicate KeepsTheRightOnes(ops: seq<OperationRecord>, kept: seq<OperationRecord>, pending: nat, olderHidden: nat) {
    && Unfinished(kept) == Unfinished(ops)
    && Finished(kept) == Most(OPERATIONS_SHOWN, Finished(ops))
    && pending == |Unfinished(ops)|
    && olderHidden == |Finished(ops)| - |Most(OPERATIONS_SHOWN, Finished(ops))|
  }

  /** What is kept stands in the order given. */
  predicate InTheirOrder(ops: seq<OperationRecord>, kept: seq<OperationRecord>, places: seq<nat>) {
    && |places| == |kept|
    && (forall i | 0 <= i < |places| :: places[i] < |ops| && kept[i] == ops[places[i]])
    && (forall i, j | 0 <= i < j < |places| :: places[i] < places[j])
  }

  predicate IsView(view: OperationView, hosts: map<string, string>, now: int) {
    && view.terminal == !view.record.Pending()
    && view.state == StateOf(view.record, now)
    && view.host == OperationHost(hosts, view.record)
  }

  /** How an operation is shown: its state in one word, whether it is over, and the host its agent reports or
      is enrolled under, or failing that the agent's id. */
  lemma ViewSays(view: OperationView, agents: seq<Agent>, reports: map<string, Report>, now: int)
    requires IsView(view, HostByAgent(agents, reports), now)
    ensures var rec := view.record;
            && (rec.cancelledAtUnix != 0 ==> view.state == "cancelled" && view.terminal)
            && (rec.cancelledAtUnix == 0 && rec.result.Some? ==>
                  view.state == rec.result.value.state && (view.terminal <==> rec.result.value.state != "running"))
            && (rec.cancelledAtUnix == 0 && rec.result.None? ==>
                  var late := rec.op.notAfterUnix > 0 && now > rec.op.notAfterUnix;
                  !view.terminal && view.state == if late then "expired" else "pending")
    ensures (forall a | a in agents :: a.id != view.record.agentID) ==> view.host == view.record.agentID
    ensures (exists a :: a in agents && a.id == view.record.agentID) ==>
              exists a :: a in agents && a.id == view.record.agentID
                          && view.host == HostShown(a, reports)
  {
    HostByAgentIs(agents, reports, view.record.agentID);
  }

  function HostShown(a: Agent, reports: map<string, Report>): string {
    if a.id in reports && reports[a.id].hostname != "" then reports[a.id].hostname
    else if a.hostname != "" then a.hostname
    else a.id
  }

  lemma {:induction false} HostByAgentIs(agents: seq<Agent>, reports: map<string, Report>, id: string)
    ensures id in HostByAgent(agents, reports) <==> exists a :: a in agents && a.id == id
    ensures id in HostByAgent(agents, reports) ==>
              exists a :: a in agents && a.id == id
                          && HostByAgent(agents, reports)[id]
                             == if id in reports && reports[id].hostname != "" then reports[id].hostname else a.hostname
  {
    if agents != [] {
      var n := |agents| - 1;
      HostByAgentIs(agents[..n], reports, id);
      assert agents == agents[..n] + [agents[n]];
    }
  }

  lemma {:induction false} UnfinishedAreThePending(ops: seq<OperationRecord>, r: OperationRecord)
    ensures r in Unfinished(ops) <==> r in ops && r.Pending()
    ensures r in Finished(ops) <==> r in ops && !r.Pending()
  {
    if ops != [] {
      UnfinishedAreThePending(ops[..|ops| - 1], r);
      assert ops == ops[..|ops| - 1] + [ops[|ops| - 1]];
    }
  }
}
