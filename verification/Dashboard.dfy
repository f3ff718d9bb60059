/** The dashboard: pairs assembled from the target's report and the source's, split brain, and the
    references and hosts that nothing in the fleet answers for. */
module Dashboard {
  import opened Text
  import opened Sorting
  import opened Records
  import opened Fleet
  import opened Failover

  datatype Pair = Pair(
    sourceHost: string, sourceVM: string, targetHost: string, targetVM: string,
    status: string, role: string, targetActive: bool, verifyState: string, replicaIncomplete: string,
    sourceSeen: bool, sourceActive: bool, sourceWithdrawn: bool, targetWithdrawn: bool, sourceReportAge: int)
  {
    predicate SourceFresh() { sourceSeen && 0 <= sourceReportAge <= STALE_AFTER }

    predicate PromotedAndSourceRunning() { role == ROLE_PROMOTED && targetActive && sourceSeen && sourceActive }

    predicate SplitBrain() { PromotedAndSourceRunning() && SourceFresh() }

    predicate SplitBrainPossible() { PromotedAndSourceRunning() && !SourceFresh() }
  }

  datatype MissingTarget = MissingTarget(
    sourceHost: string, sourceVM: string, targetHost: string, targetVM: string, peerKnown: bool, peerStale: bool)

  /** A domain that takes part in no pair and says so. */
  datatype Unprotected = Unprotected(host: string, vm: string, active: bool)

  datatype AgentRow = AgentRow(
    id: string, hostname: string, version: string, revoked: bool, mode: string, readOnly: bool,
    lastSeenAt: int, stale: bool, domains: nat)

  datatype Board = Board(
    pairs: seq<Pair>, splitBrain: seq<Pair>, splitBrainPossible: seq<Pair>,
    missingAgents: seq<string>, missingTargets: seq<MissingTarget>,
    unprotected: seq<Unprotected>, counts: map<string, nat>, agents: seq<AgentRow>)

  // ----- pairs -----

  predicate IsReplica(s: Sighting) { s.domain.replicaSource != "" }

  predicate IsSource(s: Sighting) { s.domain.replicaSource == "" && s.domain.replicaTargets != [] }

  function PairOf(t: Sighting, index: map<string, Sighting>, now: int): Pair {
    var ref, d := SplitRef(t.domain.replicaSource), t.domain;
    var source := SightingAt(index, DashKey(d.replicaSource));
    Pair(ref.host, ref.vm, t.host, d.name, d.status, d.role, d.active, d.verifyState, d.replicaIncomplete,
         source.Some?,
         source.Some? && source.value.domain.active,
         source.Some? && source.value.agent.revoked,
         t.agent.revoked,
         if source.Some? then AgeOf(source.value.reportedAt, now) else -1)
  }

  function PairsOf(ss: seq<Sighting>, index: map<string, Sighting>, now: int): seq<Pair> {
    if ss == [] then []
    else
      var n := |ss| - 1;
      PairsOf(ss[..n], index, now) + (if IsReplica(ss[n]) then [PairOf(ss[n], index, now)] else [])
  }

  function Certain(pairs: seq<Pair>): seq<Pair> {
    if pairs == [] then []
    else Certain(pairs[..|pairs| - 1]) + (if pairs[|pairs| - 1].SplitBrain() then [pairs[|pairs| - 1]] else [])
  }

  function Possible(pairs: seq<Pair>): seq<Pair> {
    if pairs == [] then []
    else
      Possible(pairs[..|pairs| - 1]) + (if pairs[|pairs| - 1].SplitBrainPossible() then [pairs[|pairs| - 1]] else [])
  }

  /** The statuses a page leads with, worst first; anything else comes last. */
  const WORST_FIRST := ["critical", "warning", "promoted", "paused", "ok"]

  function StatusRank(s: string): int {
    if s == "critical" then 5
    else if s == "warning" then 4
    else if s == ROLE_PROMOTED then 3
    else if s == ROLE_PAUSED then 2
    else if s == "ok" then 1
    else 0
  }

  predicate ByWorst(a: Pair, b: Pair) {
    if a.SplitBrain() != b.SplitBrain() then a.SplitBrain()
    else if StatusRank(a.status) != StatusRank(b.status) then StatusRank(a.status) > StatusRank(b.status)
    else if a.targetHost != b.targetHost then Less(a.targetHost, b.targetHost)
    else Less(a.targetVM, b.targetVM)
  }

  lemma ByWorstIsStrictWeak()
    ensures StrictWeak(ByWorst)
  {
    LessIsStrictTotal();
  }

  /** Worst first, in so many words: nothing outranks a split brain, and among pairs alike in that a
      listed status never follows one listed after it, nor an unlisted one. */
  lemma WorstComesFirst(pairs: seq<Pair>, i: nat, j: nat)
    requires i < j < |pairs|
    ensures var sorted := SortBy(ByWorst, pairs);
            && multiset(sorted) == multiset(pairs) && |sorted| == |pairs|
            && (sorted[j].SplitBrain() ==> sorted[i].SplitBrain())
            && (sorted[i].SplitBrain() == sorted[j].SplitBrain() ==>
                  forall k | 0 <= k < |WORST_FIRST| && sorted[j].status == WORST_FIRST[k] ::
                    exists l | 0 <= l <= k :: sorted[i].status == WORST_FIRST[l])
  {
    ByWorstIsStrictWeak();
    SortSorts(ByWorst, pairs);
    SortPermutes(ByWorst, pairs);
    var sorted := SortBy(ByWorst, pairs);
    assert |multiset(sorted)| == |sorted| && |multiset(pairs)| == |pairs|;
    assert !ByWorst(sorted[j], sorted[i]);
    forall k | 0 <= k < |WORST_FIRST| && sorted[i].SplitBrain() == sorted[j].SplitBrain()
               && sorted[j].status == WORST_FIRST[k]
      ensures exists l | 0 <= l <= k :: sorted[i].status == WORST_FIRST[l]
    {
      assert StatusRank(sorted[j].status) == 5 - k;
      var l := 5 - StatusRank(sorted[i].status);
      assert sorted[i].status == WORST_FIRST[l];
    }
  }

  // ----- what nothing answers for -----

  function HostsReporting(agents: seq<Agent>, reports: map<string, Report>): set<string> {
    set a | a in agents && a.id in reports :: Fold(HostOf(a, reports[a.id]))
  }

  /** Hosts some live agent was heard from lately; a revoked one never counts. */
  function HostsFresh(agents: seq<Agent>, reports: map<string, Report>, now: int): set<string> {
    set a | a in agents && a.id in reports && !a.revoked && a.lastSeenAt > 0 && now - a.lastSeenAt <= STALE_AFTER
      :: Fold(HostOf(a, reports[a.id]))
  }

  /** The hosts a domain refers to: its source's on a replica, its targets' on a source. */
  function HostsNamedBy(s: Sighting): set<string> {
    if IsReplica(s) then
      if SplitRef(s.domain.replicaSource).host == "" then {} else {Fold(SplitRef(s.domain.replicaSource).host)}
    else HostsIn(s.domain.replicaTargets)
  }

  function HostsIn(refs: seq<string>): set<string> {
    set ref | ref in refs && SplitRef(ref).host != "" :: Fold(SplitRef(ref).host)
  }

  function HostsNamed(ss: seq<Sighting>): set<string> {
    set s, h | s in ss && h in HostsNamedBy(s) :: h
  }

  predicate ByReference(a: MissingTarget, b: MissingTarget) {
    if a.sourceHost != b.sourceHost then Less(a.sourceHost, b.sourceHost)
    else if a.sourceVM != b.sourceVM then Less(a.sourceVM, b.sourceVM)
    else if a.targetHost != b.targetHost then Less(a.targetHost, b.targetHost)
    else Less(a.targetVM, b.targetVM)
  }

  lemma ByReferenceIsStrictWeak()
    ensures StrictWeak(ByReference)
  {
    forall a: MissingTarget ensures !ByReference(a, a) { LessIsStrictTotal(); }
    forall a, b, c | ByReference(a, b) && ByReference(b, c) ensures ByReference(a, c) { ReferenceAfter(a, b, c); }
    forall a, b, c | !ByReference(a, b) && !ByReference(b, c) ensures !ByReference(a, c) {
      ReferenceNotBefore(a, b, c);
    }
  }

  lemma ReferenceAfter(a: MissingTarget, b: MissingTarget, c: MissingTarget)
    requires ByReference(a, b) && ByReference(b, c)
    ensures ByReference(a, c)
  {
    LessIsStrictTotal();
  }

  lemma ReferenceNotBefore(a: MissingTarget, b: MissingTarget, c: MissingTarget)
    requires !ByReference(a, b) && !ByReference(b, c)
    ensures !ByReference(a, c)
  {
    LessIsStrictTotal();
  }

  /** Some agent reports a domain under exactly this reference, up to case. */
  ghost predicate Resolves(all: seq<Sighting>, ref: Ref) {
    exists t :: t in all && DashKeyOf(t) == DashKey(Written(ref.host, ref.vm))
  }

  /** A replica of that name already names this source as its own. */
  ghost predicate CoveredBy(all: seq<Sighting>, sourceHost: string, sourceVM: string, targetVM: string) {
    exists t :: t in all && IsReplica(t) && SplitRef(t.domain.replicaSource) == Ref(sourceHost, sourceVM)
                && t.domain.name == targetVM
  }

  function MissingAs(s: Sighting, ref: Ref, known: set<string>, current: set<string>): MissingTarget {
    MissingTarget(s.host, s.domain.name, ref.host, ref.vm,
                  Fold(ref.host) in known, Fold(ref.host) in known && Fold(ref.host) !in current)
  }

  /** A source's reference that has a host part, resolves to nothing and is covered by no pair. */
  ghost predicate IsMissing(all: seq<Sighting>, s: Sighting, ref: Ref) {
    ref.host != "" && !Resolves(all, ref) && !CoveredBy(all, s.host, s.domain.name, ref.vm)
  }

  ghost function MissingRefs(all: seq<Sighting>, s: Sighting, refs: seq<string>,
                             known: set<string>, current: set<string>): seq<MissingTarget>
  {
    if refs == [] then []
    else
      var n := |refs| - 1;
      MissingRefs(all, s, refs[..n], known, current)
      + (if IsMissing(all, s, SplitRef(refs[n])) then [MissingAs(s, SplitRef(refs[n]), known, current)] else [])
  }

  /** Every missing reference of every source, as often as it is written. */
  ghost function MissingIn(all: seq<Sighting>, ss: seq<Sighting>, known: set<string>,
                           current: set<string>): seq<MissingTarget> {
    if ss == [] then []
    else
      var n := |ss| - 1;
      MissingIn(all, ss[..n], known, current)
      + (if IsSource(ss[n]) then MissingRefs(all, ss[n], ss[n].domain.replicaTargets, known, current) else [])
  }

  // ----- the passes over the fleet -----

  method IndexReport(index: map<string, Sighting>, a: Agent, rep: Report, ghost before: seq<Sighting>)
    returns (byRef: map<string, Sighting>)
    requires index == DashboardIndex(before)
    ensures byRef == DashboardIndex(before + SightingsOf(a, rep))
  {
    byRef := index;
    var host := HostOf(a, rep);
    ghost var seen := SightingsOf(a, rep);
    assert before + seen[..0] == before;
    for i := 0 to |rep.domains|
      invariant byRef == DashboardIndex(before + seen[..i])
    {
      OneMorePlaced(before, seen, i);
      var sighting := Sighting(a, host, rep.domains[i], rep.reportedAtUnix);
      assert seen[i] == sighting;
      var k := Fold(host + ":" + rep.domains[i].name);
      if k in byRef && !byRef[k].agent.revoked && a.revoked {
        continue;
      }
      byRef := byRef[k := sighting];
    }
    assert before + seen[..|rep.domains|] == before + seen;
  }

  lemma OneMorePlaced(before: seq<Sighting>, seen: seq<Sighting>, i: nat)
    requires i < |seen|
    ensures DashboardIndex(before + seen[..i + 1]) == WithSighting(DashboardIndex(before + seen[..i]), seen[i])
  {
    OneMoreTaken(before, seen, i);
    assert ((before + seen[..i]) + [seen[i]])[..|before + seen[..i]|] == before + seen[..i];
  }

  lemma OneMoreAgent(agents: seq<Agent>, i: nat, reports: map<string, Report>)
    requires i < |agents|
    ensures Sightings(agents[..i + 1], reports, true)
            == Sightings(agents[..i], reports, true) + FromAgent(agents[i], reports, true)
    ensures agents[i].id !in reports ==>
              Sightings(agents[..i + 1], reports, true) == Sightings(agents[..i], reports, true)
  {
    assert agents[..i + 1][..i] == agents[..i];
  }

  method IndexFleet(agents: seq<Agent>, reports: map<string, Report>, now: int)
    returns (byRef: map<string, Sighting>, known: set<string>, current: set<string>)
    ensures byRef == DashboardIndex(Sightings(agents, reports, true))
    ensures known == HostsReporting(agents, reports) && current == HostsFresh(agents, reports, now)
  {
    byRef, known, current := map[], {}, {};
    for i := 0 to |agents|
      invariant byRef == DashboardIndex(Sightings(agents[..i], reports, true))
      invariant known == HostsReporting(agents[..i], reports)
      invariant current == HostsFresh(agents[..i], reports, now)
    {
      var a := agents[i];
      OneMoreAgent(agents, i, reports);
      OneMoreHost(agents, i, reports, now);
      if a.id !in reports {
        continue;
      }
      var key := Fold(HostOf(a, reports[a.id]));
      known := known + {key};
      if !a.revoked && a.lastSeenAt > 0 && now - a.lastSeenAt <= STALE_AFTER {
        current := current + {key};
      }
      byRef := IndexReport(byRef, a, reports[a.id], Sightings(agents[..i], reports, true));
    }
    assert agents[..|agents|] == agents;
  }

  lemma OneMoreHost(agents: seq<Agent>, i: nat, reports: map<string, Report>, now: int)
    requires i < |agents|
    ensures var a := agents[i];
            && HostsReporting(agents[..i + 1], reports)
               == HostsReporting(agents[..i], reports)
                  + (if a.id in reports then {Fold(HostOf(a, reports[a.id]))} else {})
            && HostsFresh(agents[..i + 1], reports, now)
               == HostsFresh(agents[..i], reports, now)
                  + (if a.id in reports && !a.revoked && a.lastSeenAt > 0 && now - a.lastSeenAt <= STALE_AFTER
                     then {Fold(HostOf(a, reports[a.id]))} else {})
  {
    assert agents[..i + 1] == agents[..i] + [agents[i]];
  }

  /** The references of sources that resolve to nothing, before the pairs have had their say. */
  function Dangling(index: map<string, Sighting>, s: Sighting, refs: seq<string>,
                    known: set<string>, current: set<string>): seq<MissingTarget>
  {
    if refs == [] then []
    else
      var n := |refs| - 1;
      var ref := SplitRef(refs[n]);
      Dangling(index, s, refs[..n], known, current)
      + (if ref.host != "" && DashKey(Written(ref.host, ref.vm)) !in index
         then [MissingAs(s, ref, known, current)] else [])
  }

  function DanglingIn(index: map<string, Sighting>, ss: seq<Sighting>, known: set<string>,
                      current: set<string>): seq<MissingTarget> {
    if ss == [] then []
    else
      var n := |ss| - 1;
      DanglingIn(index, ss[..n], known, current)
      + (if IsSource(ss[n]) then Dangling(index, ss[n], ss[n].domain.replicaTargets, known, current) else [])
  }

  /** Whether a pair of the board already stands for a reference. */
  predicate PairCovers(pairs: seq<Pair>, m: MissingTarget) {
    exists p :: p in pairs && p.sourceHost == m.sourceHost && p.sourceVM == m.sourceVM && p.targetVM == m.targetVM
  }

  function Uncovered(ms: seq<MissingTarget>, pairs: seq<Pair>): seq<MissingTarget> {
    if ms == [] then []
    else
      var n := |ms| - 1;
      Uncovered(ms[..n], pairs) + (if PairCovers(pairs, ms[n]) then [] else [ms[n]])
  }

  lemma {:induction false} PairsAreTheReplicas(ss: seq<Sighting>, index: map<string, Sighting>, now: int, p: Pair)
    ensures p in PairsOf(ss, index, now)
            <==> exists t :: t in ss && t.domain.replicaSource != "" && PairOf(t, index, now) == p
  {
    if ss != [] {
      var n := |ss| - 1;
      PairsAreTheReplicas(ss[..n], index, now, p);
      assert ss == ss[..n] + [ss[n]];
    }
  }

  lemma CoversMeansCovered(all: seq<Sighting>, index: map<string, Sighting>, now: int, m: MissingTarget)
    ensures PairCovers(PairsOf(all, index, now), m) <==> CoveredBy(all, m.sourceHost, m.sourceVM, m.targetVM)
  {
    var pairs := PairsOf(all, index, now);
    if PairCovers(pairs, m) {
      var p :| p in pairs && p.sourceHost == m.sourceHost && p.sourceVM == m.sourceVM && p.targetVM == m.targetVM;
      PairsAreTheReplicas(all, index, now, p);
    }
    if CoveredBy(all, m.sourceHost, m.sourceVM, m.targetVM) {
      var t :| t in all && IsReplica(t) && SplitRef(t.domain.replicaSource) == Ref(m.sourceHost, m.sourceVM)
               && t.domain.name == m.targetVM;
      PairsAreTheReplicas(all, index, now, PairOf(t, index, now));
    }
  }

  lemma {:induction false} UncoveredConcat(a: seq<MissingTarget>, b: seq<MissingTarget>, pairs: seq<Pair>)
    ensures Uncovered(a + b, pairs) == Uncovered(a, pairs) + Uncovered(b, pairs)
  {
    if b == [] {
      assert a + b == a;
    } else {
      assert (a + b)[..|a + b| - 1] == a + b[..|b| - 1];
      UncoveredConcat(a, b[..|b| - 1], pairs);
    }
  }

  lemma RefIsMissing(all: seq<Sighting>, s: Sighting, ref: Ref, known: set<string>, current: set<string>, now: int)
    ensures var index := DashboardIndex(all);
            IsMissing(all, s, ref)
            <==> ref.host != "" && DashKey(Written(ref.host, ref.vm)) !in index
                 && !PairCovers(PairsOf(all, index, now), MissingAs(s, ref, known, current))
  {
    IndexHolds(all, DashKey(Written(ref.host, ref.vm)));
    CoversMeansCovered(all, DashboardIndex(all), now, MissingAs(s, ref, known, current));
  }

  lemma OneMoreUncovered(ms: seq<MissingTarget>, m: MissingTarget, pairs: seq<Pair>)
    ensures Uncovered(ms + [m], pairs) == Uncovered(ms, pairs) + (if PairCovers(pairs, m) then [] else [m])
  {
    assert (ms + [m])[..|ms|] == ms;
  }

  lemma {:induction false} RefsMissing(all: seq<Sighting>, s: Sighting, refs: seq<string>,
                                       known: set<string>, current: set<string>, now: int)
    ensures var index := DashboardIndex(all);
            Uncovered(Dangling(index, s, refs, known, current), PairsOf(all, index, now))
            == MissingRefs(all, s, refs, known, current)
  {
    if refs != [] {
      var n := |refs| - 1;
      var index, ref := DashboardIndex(all), SplitRef(refs[n]);
      RefsMissing(all, s, refs[..n], known, current, now);
      RefIsMissing(all, s, ref, known, current, now);
      var d := Dangling(index, s, refs[..n], known, current);
      OneMoreUncovered(d, MissingAs(s, ref, known, current), PairsOf(all, index, now));
      assert d + [] == d;
    }
  }

  /** Collecting what dangles and then striking out what the pairs cover finds exactly what is
      missing, in order and with multiplicity. */
  lemma {:induction false} TwoPassesFindTheMissing(all: seq<Sighting>, ss: seq<Sighting>,
                                                   known: set<string>, current: set<string>, now: int)
    ensures var index := DashboardIndex(all);
            Uncovered(DanglingIn(index, ss, known, current), PairsOf(all, index, now))
            == MissingIn(all, ss, known, current)
  {
    if ss != [] {
      var n := |ss| - 1;
      var index := DashboardIndex(all);
      TwoPassesFindTheMissing(all, ss[..n], known, current, now);
      if IsSource(ss[n]) {
        var refs := ss[n].domain.replicaTargets;
        RefsMissing(all, ss[n], refs, known, current, now);
        UncoveredConcat(DanglingIn(index, ss[..n], known, current), Dangling(index, ss[n], refs, known, current),
                        PairsOf(all, index, now));
      } else {
        var d := DanglingIn(index, ss[..n], known, current);
        assert d + [] == d;
      }
    }
  }

  // ----- what is unprotected, and how many of each status -----

  predicate IsUnprotected(s: Sighting) {
    !IsReplica(s) && !IsSource(s) && s.domain.status == "unreplicated"
  }

  function UnprotectedAs(s: Sighting): Unprotected { Unprotected(s.host, s.domain.name, s.domain.active) }

  function UnprotectedIn(ss: seq<Sighting>): seq<Unprotected> {
    if ss == [] then []
    else
      var n := |ss| - 1;
      UnprotectedIn(ss[..n]) + (if IsUnprotected(ss[n]) then [UnprotectedAs(ss[n])] else [])
  }

  predicate ByHost(a: Unprotected, b: Unprotected) {
    if a.host != b.host then Less(a.host, b.host) else Less(a.vm, b.vm)
  }

  lemma ByHostIsStrictWeak()
    ensures StrictWeak(ByHost)
  {
    LessIsStrictTotal();
  }

  function Bumped(counts: map<string, nat>, key: string): map<string, nat> {
    counts[key := (if key in counts then counts[key] else 0) + 1]
  }

  function BumpedBy(counts: map<string, nat>, p: Pair): map<string, nat> {
    if p.SplitBrain() then Bumped(Bumped(counts, p.status), "split-brain") else Bumped(counts, p.status)
  }

  function CountsIn(ss: seq<Sighting>, index: map<string, Sighting>, now: int): map<string, nat> {
    if ss == [] then map[]
    else
      var n := |ss| - 1;
      var before := CountsIn(ss[..n], index, now);
      if IsReplica(ss[n]) then BumpedBy(before, PairOf(ss[n], index, now))
      else if IsUnprotected(ss[n]) then Bumped(before, "unreplicated")
      else before
  }

  function Number(counts: map<string, nat>, key: string): nat { if key in counts then counts[key] else 0 }

  function WithStatus(pairs: seq<Pair>, status: string): nat {
    if pairs == [] then 0
    else WithStatus(pairs[..|pairs| - 1], status) + (if pairs[|pairs| - 1].status == status then 1 else 0)
  }

  /** Under every key stands the number of pairs of that status, and besides those, under two of them,
      the number of certain alarms and of unprotected domains. */
  lemma {:induction false} CountsAreExact(ss: seq<Sighting>, index: map<string, Sighting>, now: int, key: string)
    ensures var pairs := PairsOf(ss, index, now);
            Number(CountsIn(ss, index, now), key)
            == WithStatus(pairs, key) + (if key == "split-brain" then |Certain(pairs)| else 0)
               + (if key == "unreplicated" then |UnprotectedIn(ss)| else 0)
  {
    if ss != [] {
      var n := |ss| - 1;
      CountsAreExact(ss[..n], index, now, key);
      if IsReplica(ss[n]) {
        var p := PairOf(ss[n], index, now);
        OneMoreCounted(PairsOf(ss[..n], index, now), p, key);
        NumberAfter(CountsIn(ss[..n], index, now), p, key);
        assert UnprotectedIn(ss[..n]) + [] == UnprotectedIn(ss[..n]);
      } else {
        assert PairsOf(ss[..n], index, now) + [] == PairsOf(ss[..n], index, now);
      }
    }
  }

  lemma NumberAfter(counts: map<string, nat>, p: Pair, key: string)
    ensures Number(BumpedBy(counts, p), key)
            == Number(counts, key) + (if p.status == key then 1 else 0)
               + (if p.SplitBrain() && key == "split-brain" then 1 else 0)
  {}

  lemma OneMoreCounted(pairs: seq<Pair>, p: Pair, key: string)
    ensures WithStatus(pairs + [p], key) == WithStatus(pairs, key) + (if p.status == key then 1 else 0)
    ensures |Certain(pairs + [p])| == |Certain(pairs)| + (if p.SplitBrain() then 1 else 0)
  {
    assert (pairs + [p])[..|pairs|] == pairs;
  }

  // ----- the agents -----

  predicate ReadOnly(a: Agent) { a.mode == "monitor" }

  function AgentRowOf(a: Agent, reports: map<string, Report>, now: int): AgentRow {
    AgentRow(a.id, a.hostname, a.agentVersion, a.revoked, a.mode, ReadOnly(a),
             if a.lastSeenAt > 0 then a.lastSeenAt else 0, a.lastSeenAt <= 0 || now - a.lastSeenAt > STALE_AFTER,
             if a.id in reports then |reports[a.id].domains| else 0)
  }

  function AgentRows(agents: seq<Agent>, reports: map<string, Report>, now: int): seq<AgentRow> {
    seq(|agents|, i requires 0 <= i < |agents| => AgentRowOf(agents[i], reports, now))
  }

  predicate ByName(a: AgentRow, b: AgentRow) { Less(a.hostname, b.hostname) }

  lemma ByNameIsStrictWeak()
    ensures StrictWeak(ByName)
  {
    LessIsStrictTotal();
  }

  method ListAgents(agents: seq<Agent>, reports: map<string, Report>, now: int) returns (rows: seq<AgentRow>)
    ensures Sorted(ByName, rows) && multiset(rows) == multiset(AgentRows(agents, reports, now))
  {
    rows := [];
    for i := 0 to |agents|
      invariant rows == AgentRows(agents[..i], reports, now)
    {
      var a := agents[i];
      var row := AgentRow(a.id, a.hostname, a.agentVersion, a.revoked, a.mode, ReadOnly(a), 0, true, 0);
      if a.lastSeenAt > 0 {
        row := row.(lastSeenAt := a.lastSeenAt, stale := now - a.lastSeenAt > STALE_AFTER);
      }
      if a.id in reports {
        row := row.(domains := |reports[a.id].domains|);
      }
      assert row == AgentRowOf(a, reports, now);
      assert AgentRows(agents[..i + 1], reports, now) == AgentRows(agents[..i], reports, now) + [row];
      rows := rows + [row];
    }
    assert agents[..|agents|] == agents;
    ByNameIsStrictWeak();
    SortSorts(ByName, rows);
    SortPermutes(ByName, rows);
    rows := SortBy(ByName, rows);
  }

  // ----- the pass that gathers -----

  /** What one pass has gathered from the sightings so far. */
  datatype Gathered = Gathered(pairs: seq<Pair>, certain: seq<Pair>, possible: seq<Pair>,
                               named: set<string>, dangling: seq<MissingTarget>,
                               unprotected: seq<Unprotected>, counts: map<string, nat>)

  function GatheredFrom(ss: seq<Sighting>, index: map<string, Sighting>, known: set<string>, current: set<string>,
                        now: int): Gathered {
    var pairs := PairsOf(ss, index, now);
    Gathered(pairs, Certain(pairs), Possible(pairs), HostsNamed(ss), DanglingIn(index, ss, known, current),
             UnprotectedIn(ss), CountsIn(ss, index, now))
  }

  lemma OneMoreReplica(before: seq<Sighting>, s: Sighting, index: map<string, Sighting>,
                       known: set<string>, current: set<string>, now: int)
    requires IsReplica(s)
    ensures var g, p := GatheredFrom(before, index, known, current, now), PairOf(s, index, now);
            GatheredFrom(before + [s], index, known, current, now)
            == Gathered(g.pairs + [p],
                        if p.SplitBrain() then g.certain + [p] else g.certain,
                        if p.SplitBrainPossible() then g.possible + [p] else g.possible,
                        g.named + HostsNamedBy(s), g.dangling, g.unprotected, BumpedBy(g.counts, p))
  {
    var g, p := GatheredFrom(before, index, known, current, now), PairOf(s, index, now);
    assert (before + [s])[..|before|] == before;
    assert (g.pairs + [p])[..|g.pairs|] == g.pairs;
    assert HostsNamed(before + [s]) == HostsNamed(before) + HostsNamedBy(s);
    assert g.dangling + [] == g.dangling && g.unprotected + [] == g.unprotected;
  }

  lemma OneMoreOther(before: seq<Sighting>, s: Sighting, index: map<string, Sighting>,
                     known: set<string>, current: set<string>, now: int)
    requires !IsReplica(s)
    ensures var g := GatheredFrom(before, index, known, current, now);
            GatheredFrom(before + [s], index, known, current, now)
            == g.(named := g.named + HostsNamedBy(s),
                  dangling := if IsSource(s)
                              then g.dangling + Dangling(index, s, s.domain.replicaTargets, known, current)
                              else g.dangling,
                  unprotected := if IsUnprotected(s) then g.unprotected + [UnprotectedAs(s)] else g.unprotected,
                  counts := if IsUnprotected(s) then Bumped(g.counts, "unreplicated") else g.counts)
  {
    var g := GatheredFrom(before, index, known, current, now);
    assert (before + [s])[..|before|] == before;
    assert HostsNamed(before + [s]) == HostsNamed(before) + HostsNamedBy(s);
    assert g.dangling + [] == g.dangling && g.pairs + [] == g.pairs && g.unprotected + [] == g.unprotected;
  }

  lemma OneMoreReference(byRef: map<string, Sighting>, s: Sighting, refs: seq<string>, i: nat,
                         known: set<string>, current: set<string>)
    requires i < |refs|
    ensures var ref := SplitRef(refs[i]);
            && HostsIn(refs[..i + 1]) == HostsIn(refs[..i]) + (if ref.host == "" then {} else {Fold(ref.host)})
            && Dangling(byRef, s, refs[..i + 1], known, current)
               == Dangling(byRef, s, refs[..i], known, current)
                  + (if ref.host != "" && DashKey(Written(ref.host, ref.vm)) !in byRef
                     then [MissingAs(s, ref, known, current)] else [])
  {
    assert refs[..i + 1] == refs[..i] + [refs[i]] && refs[..i + 1][..i] == refs[..i];
  }

  method GatherRefs(s: Sighting, byRef: map<string, Sighting>, known: set<string>, current: set<string>)
    returns (named: set<string>, dangling: seq<MissingTarget>)
    requires IsSource(s)
    ensures named == HostsNamedBy(s)
    ensures dangling == Dangling(byRef, s, s.domain.replicaTargets, known, current)
  {
    named, dangling := {}, [];
    var refs := s.domain.replicaTargets;
    for i := 0 to |refs|
      invariant named == HostsIn(refs[..i])
      invariant dangling == Dangling(byRef, s, refs[..i], known, current)
    {
      OneMoreReference(byRef, s, refs, i, known, current);
      var ref := SplitRef(refs[i]);
      if ref.host == "" {
        continue;
      }
      named := named + {Fold(ref.host)};
      if Fold(ref.host + ":" + ref.vm) !in byRef {
        var peer := Fold(ref.host);
        dangling := dangling + [MissingTarget(s.host, s.domain.name, ref.host, ref.vm,
                                              peer in known, peer in known && peer !in current)];
      }
    }
    assert refs[..|refs|] == refs;
  }

  method Gather(g: Gathered, s: Sighting, byRef: map<string, Sighting>, known: set<string>, current: set<string>,
                now: int, ghost before: seq<Sighting>)
    returns (r: Gathered)
    requires g == GatheredFrom(before, byRef, known, current, now)
    ensures r == GatheredFrom(before + [s], byRef, known, current, now)
  {
    r := g;
    if s.domain.replicaSource != "" {
      OneMoreReplica(before, s, byRef, known, current, now);
      var ref := SplitRef(s.domain.replicaSource);
      if ref.host != "" {
        r := r.(named := r.named + {Fold(ref.host)});
      }
      var p := FillPair(s, byRef, now);
      r := r.(pairs := r.pairs + [p], counts := Bumped(r.counts, s.domain.status));
      if p.SplitBrain() {
        r := r.(certain := r.certain + [p], counts := Bumped(r.counts, "split-brain"));
      } else if p.SplitBrainPossible() {
        r := r.(possible := r.possible + [p]);
      }
    } else {
      OneMoreOther(before, s, byRef, known, current, now);
      if s.domain.replicaTargets != [] {
        var named, dangling := GatherRefs(s, byRef, known, current);
        r := r.(named := r.named + named, dangling := r.dangling + dangling);
      } else {
        assert HostsNamedBy(s) == {};
        if s.domain.status == "unreplicated" {
          r := r.(unprotected := r.unprotected + [UnprotectedAs(s)], counts := Bumped(r.counts, "unreplicated"));
        }
      }
    }
  }

  method FillPair(t: Sighting, byRef: map<string, Sighting>, now: int) returns (p: Pair)
    ensures p == PairOf(t, byRef, now)
  {
    var ref, d := SplitRef(t.domain.replicaSource), t.domain;
    p := Pair(ref.host, ref.vm, t.host, d.name, d.status, d.role, d.active, d.verifyState, d.replicaIncomplete,
              false, false, false, t.agent.revoked, -1);
    var key := Fold(d.replicaSource);
    if key in byRef {
      var source := byRef[key];
      p := p.(sourceSeen := true, sourceActive := source.domain.active, sourceWithdrawn := source.agent.revoked);
      if source.reportedAt > 0 {
        p := p.(sourceReportAge := now - source.reportedAt);
      }
    }
  }

  method GatherFleet(agents: seq<Agent>, reports: map<string, Report>, byRef: map<string, Sighting>,
                     known: set<string>, current: set<string>, now: int)
    returns (g: Gathered)
    ensures g == GatheredFrom(Sightings(agents, reports, true), byRef, known, current, now)
  {
    g := Gathered([], [], [], {}, [], [], map[]);
    for i := 0 to |agents|
      invariant g == GatheredFrom(Sightings(agents[..i], reports, true), byRef, known, current, now)
    {
      var a := agents[i];
      OneMoreAgent(agents, i, reports);
      if a.id in reports {
        g := GatherReport(g, a, reports[a.id], byRef, known, current, now, Sightings(agents[..i], reports, true));
      }
    }
    assert agents[..|agents|] == agents;
  }

  method GatherReport(start: Gathered, a: Agent, rep: Report, byRef: map<string, Sighting>,
                      known: set<string>, current: set<string>, now: int, ghost before: seq<Sighting>)
    returns (g: Gathered)
    requires start == GatheredFrom(before, byRef, known, current, now)
    ensures g == GatheredFrom(before + SightingsOf(a, rep), byRef, known, current, now)
  {
    g := start;
    var host := HostOf(a, rep);
    ghost var seen := SightingsOf(a, rep);
    assert before + seen[..0] == before;
    for k := 0 to |rep.domains|
      invariant g == GatheredFrom(before + seen[..k], byRef, known, current, now)
    {
      var s := Sighting(a, host, rep.domains[k], rep.reportedAtUnix);
      OneMoreTaken(before, seen, k);
      g := Gather(g, s, byRef, known, current, now, before + seen[..k]);
    }
    assert before + seen[..|rep.domains|] == before + seen;
  }

  /** Referenced hosts that no agent reports for, in order. */
  method ListMissingAgents(named: set<string>, known: set<string>) returns (hosts: seq<string>)
    ensures Sorted(Less, hosts)
    ensures multiset(hosts) == multiset(named - known)
    ensures forall h :: h in hosts <==> h in named && h !in known
    ensures forall i, j | 0 <= i < j < |hosts| :: hosts[i] != hosts[j]
  {
    hosts := [];
    var todo := named;
    ghost var picked: set<string> := {};
    while todo != {}
      invariant todo <= named
      invariant picked == (named - todo) - known
      invariant multiset(hosts) == multiset(picked)
      decreases todo
    {
      var h :| h in todo;
      todo := todo - {h};
      if h !in known {
        assert h !in picked;
        hosts := hosts + [h];
        picked := picked + {h};
      }
    }
    assert picked == named - known;
    LessIsStrictTotal();
    SortSorts(Less, hosts);
    SortPermutes(Less, hosts);
    hosts := SortBy(Less, hosts);
    EachOnce(hosts, named - known);
  }

  lemma EachOnce(hosts: seq<string>, all: set<string>)
    requires multiset(hosts) == multiset(all)
    ensures forall h :: h in hosts <==> h in all
    ensures forall i, j | 0 <= i < j < |hosts| :: hosts[i] != hosts[j]
  {
    forall h ensures h in hosts <==> h in all { assert h in hosts <==> h in multiset(hosts); }
    forall i, j | 0 <= i < j < |hosts| ensures hosts[i] != hosts[j] {
      if hosts[i] == hosts[j] { TwiceInMultiset(hosts, i, j); }
    }
  }

  /** Strikes out the dangling references that a pair already stands for. */
  method StrikeCovered(ms: seq<MissingTarget>, pairs: seq<Pair>) returns (r: seq<MissingTarget>)
    ensures r == Uncovered(ms, pairs)
  {
    var covered: set<(string, string, string)> := {};
    for i := 0 to |pairs|
      invariant covered == set p | p in pairs[..i] :: (p.sourceHost, p.sourceVM, p.targetVM)
    {
      assert pairs[..i + 1] == pairs[..i] + [pairs[i]];
      covered := covered + {(pairs[i].sourceHost, pairs[i].sourceVM, pairs[i].targetVM)};
    }
    assert pairs[..|pairs|] == pairs;
    r := [];
    for i := 0 to |ms|
      invariant r == Uncovered(ms[..i], pairs)
    {
      assert ms[..i + 1][..i] == ms[..i];
      if (ms[i].sourceHost, ms[i].sourceVM, ms[i].targetVM) in covered {
        continue;
      }
      r := r + [ms[i]];
    }
    assert ms[..|ms|] == ms;
  }

  /** The whole board. Its missing references are exactly those of non-replica sources that name a
      host, resolve to no reported domain and are covered by no replica naming that source; its
      missing agents are exactly the hosts named that nobody reports for. */
  method BuildDashboard(agents: seq<Agent>, reports: map<string, Report>, now: int) returns (d: Board)
    ensures var all := Sightings(agents, reports, true);
            var index, pairs := DashboardIndex(all), PairsOf(all, DashboardIndex(all), now);
            var known, current := HostsReporting(agents, reports), HostsFresh(agents, reports, now);
            && d.pairs == SortBy(ByWorst, pairs)
            && d.splitBrain == Certain(pairs) && d.splitBrainPossible == Possible(pairs)
            && Sorted(Less, d.missingAgents) && multiset(d.missingAgents) == multiset(HostsNamed(all) - known)
            && Sorted(ByReference, d.missingTargets)
            && multiset(d.missingTargets) == multiset(MissingIn(all, all, known, current))
    ensures forall h :: h in d.missingAgents <==> IsNamed(agents, reports, h) && !IsReportedFor(agents, reports, h)
    ensures forall i, j | 0 <= i < j < |d.missingAgents| :: d.missingAgents[i] != d.missingAgents[j]
    ensures var all := Sightings(agents, reports, true);
            && Sorted(ByHost, d.unprotected) && multiset(d.unprotected) == multiset(UnprotectedIn(all))
            && Sorted(ByName, d.agents) && multiset(d.agents) == multiset(AgentRows(agents, reports, now))
    ensures var all := Sightings(agents, reports, true);
            var counts := CountsIn(all, DashboardIndex(all), now);
            d.counts == if d.missingTargets == [] then counts else counts["missing-target" := |d.missingTargets|]
  {
    var g, known, struck := GatherBoard(agents, reports, now);
    var missingAgents := ListMissingAgents(g.named, known);
    NamedAndReported(agents, reports);
    var missing := SortMissing(struck);
    var unprotected := SortUnprotected(g.unprotected);
    var counts := CountMissing(g.counts, |missing|);
    var rows := ListAgents(agents, reports, now);
    d := Board(SortBy(ByWorst, g.pairs), g.certain, g.possible, missingAgents, missing, unprotected, counts, rows);
  }

  /** The passes over the fleet, and the references they leave missing. */
  method GatherBoard(agents: seq<Agent>, reports: map<string, Report>, now: int)
    returns (g: Gathered, known: set<string>, missing: seq<MissingTarget>)
    ensures known == HostsReporting(agents, reports)
    ensures var all, current := Sightings(agents, reports, true), HostsFresh(agents, reports, now);
            && g == GatheredFrom(all, DashboardIndex(all), known, current, now)
            && missing == MissingIn(all, all, known, current)
  {
    var byRef, reporting, current := IndexFleet(agents, reports, now);
    known := reporting;
    g := GatherFleet(agents, reports, byRef, known, current, now);
    missing := StrikeCovered(g.dangling, g.pairs);
    ghost var all := Sightings(agents, reports, true);
    TwoPassesFindTheMissing(all, all, known, current, now);
  }

  method CountMissing(counts: map<string, nat>, n: nat) returns (r: map<string, nat>)
    ensures r == if n == 0 then counts else counts["missing-target" := n]
  {
    r := counts;
    if n > 0 {
      r := r["missing-target" := n];
    }
  }

  method SortMissing(ms: seq<MissingTarget>) returns (r: seq<MissingTarget>)
    ensures Sorted(ByReference, r) && multiset(r) == multiset(ms) && |r| == |ms|
  {
    ByReferenceIsStrictWeak();
    SortSorts(ByReference, ms);
    SortPermutes(ByReference, ms);
    r := SortBy(ByReference, ms);
    assert |r| == |multiset(r)| == |multiset(ms)| == |ms|;
  }

  method SortUnprotected(us: seq<Unprotected>) returns (r: seq<Unprotected>)
    ensures Sorted(ByHost, r) && multiset(r) == multiset(us)
  {
    ByHostIsStrictWeak();
    SortSorts(ByHost, us);
    SortPermutes(ByHost, us);
    r := SortBy(ByHost, us);
  }

  // ----- what is missing, in terms of the fleet alone -----

  lemma {:induction false} MissingRefsAre(all: seq<Sighting>, s: Sighting, refs: seq<string>,
                                          known: set<string>, current: set<string>, m: MissingTarget)
    ensures m in MissingRefs(all, s, refs, known, current)
            <==> exists r ::
                   r in refs && IsMissing(all, s, SplitRef(r)) && MissingAs(s, SplitRef(r), known, current) == m
  {
    if refs != [] {
      var n := |refs| - 1;
      MissingRefsAre(all, s, refs[..n], known, current, m);
      assert refs == refs[..n] + [refs[n]];
    }
  }

  lemma {:induction false} MissingAre(all: seq<Sighting>, ss: seq<Sighting>, known: set<string>,
                                      current: set<string>, m: MissingTarget)
    ensures m in MissingIn(all, ss, known, current)
            <==> exists s, r :: s in ss && IsSource(s) && r in s.domain.replicaTargets
                                && IsMissing(all, s, SplitRef(r)) && MissingAs(s, SplitRef(r), known, current) == m
  {
    if ss != [] {
      var n := |ss| - 1;
      MissingAre(all, ss[..n], known, current, m);
      MissingRefsAre(all, ss[n], ss[n].domain.replicaTargets, known, current, m);
      assert ss == ss[..n] + [ss[n]];
    }
  }

  // ----- the board in terms of what is reported -----

  /** Some reported domain's source, or one of its targets when it has no source, names this host, folded. */
  ghost predicate IsNamed(agents: seq<Agent>, reports: map<string, Report>, h: string) {
    exists a, dom, ref ::
      Names(agents, reports, a, dom, ref) && SplitRef(ref).host != "" && Fold(SplitRef(ref).host) == h
  }

  predicate Names(agents: seq<Agent>, reports: map<string, Report>, a: Agent, dom: ReportDomain, ref: string) {
    && a in agents && a.id in reports && dom in reports[a.id].domains
    && if dom.replicaSource != "" then ref == dom.replicaSource else ref in dom.replicaTargets
  }

  function HostName(a: Agent, rep: Report): string { if rep.hostname == "" then a.hostname else rep.hostname }

  /** Some agent with a report reports for this host, folded. */
  predicate IsReportedFor(agents: seq<Agent>, reports: map<string, Report>, h: string) {
    exists a :: a in agents && a.id in reports && Fold(HostName(a, reports[a.id])) == h
  }

  /** And is not revoked, and was heard from within five minutes. */
  predicate IsReportedForLately(agents: seq<Agent>, reports: map<string, Report>, now: int, h: string) {
    exists a :: a in agents && a.id in reports && Fold(HostName(a, reports[a.id])) == h
                && !a.revoked && a.lastSeenAt > 0 && now - a.lastSeenAt <= 5 * 60
  }

  lemma NamedHostsAre(agents: seq<Agent>, reports: map<string, Report>, h: string)
    ensures h in HostsNamed(Sightings(agents, reports, true)) <==> IsNamed(agents, reports, h)
  {
    var all := Sightings(agents, reports, true);
    if h in HostsNamed(all) {
      var s :| s in all && h in HostsNamedBy(s);
      SightingsAre(agents, reports, true, s);
      var ref := NamedByReference(s, h);
      assert Names(agents, reports, s.agent, s.domain, ref);
    }
    if IsNamed(agents, reports, h) {
      var a, dom, ref :| Names(agents, reports, a, dom, ref)
                         && SplitRef(ref).host != "" && Fold(SplitRef(ref).host) == h;
      var s := Sighting(a, HostName(a, reports[a.id]), dom, reports[a.id].reportedAtUnix);
      SightingsAre(agents, reports, true, s);
      assert h in HostsNamedBy(s);
    }
  }

  lemma NamedByReference(s: Sighting, h: string) returns (ref: string)
    requires h in HostsNamedBy(s)
    ensures SplitRef(ref).host != "" && Fold(SplitRef(ref).host) == h
    ensures if s.domain.replicaSource != "" then ref == s.domain.replicaSource else ref in s.domain.replicaTargets
  {
    if s.domain.replicaSource != "" {
      ref := s.domain.replicaSource;
    } else {
      ref :| ref in s.domain.replicaTargets && SplitRef(ref).host != "" && Fold(SplitRef(ref).host) == h;
    }
  }

  lemma NamedAndReported(agents: seq<Agent>, reports: map<string, Report>)
    ensures forall h :: h in HostsNamed(Sightings(agents, reports, true)) <==> IsNamed(agents, reports, h)
    ensures forall h :: h in HostsReporting(agents, reports) <==> IsReportedFor(agents, reports, h)
  {
    forall h ensures h in HostsNamed(Sightings(agents, reports, true)) <==> IsNamed(agents, reports, h) {
      NamedHostsAre(agents, reports, h);
    }
  }

  /** What a missing reference says of its peer: whether anybody reports for that host, and whether nobody
      has lately. */
  lemma PeerFlagsAre(agents: seq<Agent>, reports: map<string, Report>, now: int, s: Sighting, ref: Ref)
    ensures var m := MissingAs(s, ref, HostsReporting(agents, reports), HostsFresh(agents, reports, now));
            && m.sourceHost == s.host && m.sourceVM == s.domain.name && m.targetHost == ref.host && m.targetVM == ref.vm
            && (m.peerKnown <==> IsReportedFor(agents, reports, Fold(ref.host)))
            && (m.peerStale <==> m.peerKnown && !IsReportedForLately(agents, reports, now, Fold(ref.host)))
  {}

  lemma {:induction false} UnprotectedAre(ss: seq<Sighting>, u: Unprotected)
    ensures u in UnprotectedIn(ss)
            <==> exists s :: s in ss && s.domain.replicaSource == "" && s.domain.replicaTargets == []
                             && s.domain.status == "unreplicated"
                             && u.host == s.host && u.vm == s.domain.name && u.active == s.domain.active
  {
    if ss != [] {
      var n := |ss| - 1;
      UnprotectedAre(ss[..n], u);
      assert ss == ss[..n] + [ss[n]];
    }
  }

  /** A pair says what its target reports of itself and what its source, if it is found, reports of itself. */
  lemma PairSays(t: Sighting, index: map<string, Sighting>, now: int)
    ensures var p, d := PairOf(t, index, now), t.domain;
            var key := Fold(d.replicaSource);
            && p.sourceHost == SplitRef(d.replicaSource).host && p.sourceVM == SplitRef(d.replicaSource).vm
            && p.targetHost == t.host && p.targetVM == d.name && p.status == d.status && p.role == d.role
            && p.targetActive == d.active && p.verifyState == d.verifyState
            && p.replicaIncomplete == d.replicaIncomplete && p.targetWithdrawn == t.agent.revoked
            && (p.sourceSeen <==> key in index)
            && (key in index ==>
                  && p.sourceActive == index[key].domain.active && p.sourceWithdrawn == index[key].agent.revoked
                  && p.sourceReportAge == if index[key].reportedAt > 0 then now - index[key].reportedAt else -1)
            && (key !in index ==> !p.sourceActive && !p.sourceWithdrawn && p.sourceReportAge == -1)
  {}

  /** Which pairs alarm: a promoted running copy beside its running source, certain while the source's
      report is at most five minutes old. */
  lemma {:induction false} AlarmingPairsAre(pairs: seq<Pair>, p: Pair)
    ensures var beside := p.role == "promoted" && p.targetActive && p.sourceSeen && p.sourceActive;
            var current := p.sourceSeen && 0 <= p.sourceReportAge <= 5 * 60;
            && (p in Certain(pairs) <==> p in pairs && beside && current)
            && (p in Possible(pairs) <==> p in pairs && beside && !current)
  {
    if pairs != [] {
      var n := |pairs| - 1;
      AlarmingPairsAre(pairs[..n], p);
      assert pairs == pairs[..n] + [pairs[n]];
    }
  }

  lemma AgentRowSays(a: Agent, reports: map<string, Report>, now: int)
    ensures var r := AgentRowOf(a, reports, now);
            && r.id == a.id && r.hostname == a.hostname && r.version == a.agentVersion && r.revoked == a.revoked
            && r.mode == a.mode && (r.readOnly <==> a.mode == "monitor")
            && (a.lastSeenAt > 0 ==> r.lastSeenAt == a.lastSeenAt && (r.stale <==> now - a.lastSeenAt > 5 * 60))
            && (a.lastSeenAt <= 0 ==> r.lastSeenAt == 0 && r.stale)
            && r.domains == if a.id in reports then |reports[a.id].domains| else 0
  {}

  /** Lost, in terms of the reports: a reference with a host part, to a host and VM nobody reports, up to
      case, and of which no replica of that name says that it is a copy of this source. */
  ghost predicate IsLost(all: seq<Sighting>, s: Sighting, ref: string) {
    var r := SplitRef(ref);
    && r.host != ""
    && (forall t | t in all :: Fold(t.host + ":" + t.domain.name) != Fold(r.host + ":" + r.vm))
    && (forall t | t in all && t.domain.replicaSource != "" && t.domain.name == r.vm ::
          SplitRef(t.domain.replicaSource) != Ref(s.host, s.domain.name))
  }

  lemma MissingIsLost(all: seq<Sighting>, s: Sighting, ref: string)
    ensures IsMissing(all, s, SplitRef(ref)) <==> IsLost(all, s, ref)
  {
    var r := SplitRef(ref);
    if t :| t in all && Fold(t.host + ":" + t.domain.name) == Fold(r.host + ":" + r.vm) {
      assert DashKeyOf(t) == DashKey(Written(r.host, r.vm));
    }
  }

  /** What the board lists as missing: the lost references of the domains that have targets and no source. */
  lemma MissingOnTheBoardAre(all: seq<Sighting>, known: set<string>, current: set<string>, m: MissingTarget)
    ensures m in MissingIn(all, all, known, current)
            <==> exists s, ref :: s in all && s.domain.replicaSource == "" && ref in s.domain.replicaTargets
                                  && IsLost(all, s, ref) && MissingAs(s, SplitRef(ref), known, current) == m
  {
    MissingAre(all, all, known, current, m);
    forall s, ref ensures IsMissing(all, s, SplitRef(ref)) <==> IsLost(all, s, ref) { MissingIsLost(all, s, ref); }
  }
}
