/** The dashboard and the failover page read the same reports through different indexes and from
    opposite ends of a pair. Here they agree on split brain. */
module Agreement {
  import opened Text
  import opened Sorting
  import opened Records
  import opened Fleet
  import opened Failover
  import opened Dashboard

  /** A fleet whose names can be told apart by either index: no VM name holds the separator, and
      each page's key belongs to one sighting. */
  ghost predicate Unambiguous(ss: seq<Sighting>) {
    && (forall s | s in ss :: NoColon(s.domain.name))
    && (forall s, t {:trigger KeyOf(s), KeyOf(t)} | s in ss && t in ss :: KeyOf(s) == KeyOf(t) ==> s == t)
    && (forall s, t {:trigger DashKeyOf(s), DashKeyOf(t)} | s in ss && t in ss ::
          DashKeyOf(s) == DashKeyOf(t) ==> s == t)
  }

  function RefTo(s: Sighting): string { Written(s.host, s.domain.name) }

  /** The two ends of one pair, each naming the other exactly as it is reported. */
  ghost predicate Mutual(s: Sighting, t: Sighting) {
    && IsSource(s) && IsReplica(t)
    && t.domain.replicaSource == RefTo(s)
    && RefTo(t) in s.domain.replicaTargets
  }

  lemma DashboardFinds(ss: seq<Sighting>, s: Sighting)
    requires Unambiguous(ss) && s in ss
    ensures SightingAt(DashboardIndex(ss), DashKey(RefTo(s))) == Some(s)
  {
    IndexHolds(ss, DashKeyOf(s));
    assert DashKeyOf(DashboardIndex(ss)[DashKeyOf(s)]) == DashKeyOf(s);
  }

  lemma FailoverFinds(ss: seq<Sighting>, t: Sighting)
    requires Unambiguous(ss) && t in ss
    ensures Reported(FailoverIndex(ss), RefTo(t)) == Some(t)
  {
    ReportedAsWritten(FailoverIndex(ss), t.host, t.domain.name);
    FailoverIndexHolds(ss, KeyOf(t));
  }

  lemma ReportedAsWritten(index: map<string, Sighting>, host: string, vm: string)
    requires NoColon(vm)
    ensures Reported(index, Written(host, vm)) == SightingAt(index, RefKey(host, vm))
  {
    SplitWritten(host, vm);
  }

  /** The promoted target the failover page picks for a source is this one: the first it names. */
  predicate Picked(s: Sighting, t: Sighting, index: map<string, Sighting>) {
    FirstPromoted(s.domain.replicaTargets, index) == Some(RefTo(t))
  }

  /** For every pair: whatever the source's row sees about the target the dashboard sees too, and the two
      see the same exactly when the target, if it is running promoted beside its running source, is the
      one the row is about. Each page's certain alarm is its shape with the other end's report current. */
  lemma PagesAgreeOnAPair(ss: seq<Sighting>, s: Sighting, t: Sighting, now: int)
    requires Unambiguous(ss) && s in ss && t in ss && Mutual(s, t)
    ensures var p, r := PairOf(t, DashboardIndex(ss), now), RowOf(s, FailoverIndex(ss), now);
            && (r.SplitBrainShape() && r.peerRef == RefTo(t) ==> p.PromotedAndSourceRunning())
            && ((p.PromotedAndSourceRunning() ==> r.SplitBrainShape() && r.peerRef == RefTo(t))
                <==> (p.PromotedAndSourceRunning() ==> Picked(s, t, FailoverIndex(ss))))
    ensures var p, r := PairOf(t, DashboardIndex(ss), now), RowOf(s, FailoverIndex(ss), now);
            && (p.SplitBrain() <==> p.PromotedAndSourceRunning() && 0 <= AgeOf(s.reportedAt, now) <= STALE_AFTER)
            && (r.peerRef == RefTo(t) ==>
                  (r.SplitBrain() <==> r.SplitBrainShape() && 0 <= AgeOf(t.reportedAt, now) <= STALE_AFTER))
  {
    PairOfEnds(ss, s, t, now);
    RowOfEnds(ss, s, t, now);
    if t.domain.role == ROLE_PROMOTED { PeerIsPicked(ss, s, t); }
  }

  lemma PairOfEnds(ss: seq<Sighting>, s: Sighting, t: Sighting, now: int)
    requires Unambiguous(ss) && s in ss && Mutual(s, t)
    ensures var p := PairOf(t, DashboardIndex(ss), now);
            && (p.PromotedAndSourceRunning() <==> t.domain.role == ROLE_PROMOTED && t.domain.active && s.domain.active)
            && (p.SourceFresh() <==> 0 <= AgeOf(s.reportedAt, now) <= STALE_AFTER)
  {
    DashboardFinds(ss, s);
  }

  lemma RowOfEnds(ss: seq<Sighting>, s: Sighting, t: Sighting, now: int)
    requires Unambiguous(ss) && t in ss && Mutual(s, t)
    ensures var r := RowOf(s, FailoverIndex(ss), now);
            && r.peerRef == PickPromotedTarget(s.domain.replicaTargets, FailoverIndex(ss))
            && (r.peerRef == RefTo(t) ==>
                  && (r.SplitBrainShape() <==> t.domain.role == ROLE_PROMOTED && t.domain.active && s.domain.active)
                  && (r.PeerFresh() <==> 0 <= AgeOf(t.reportedAt, now) <= STALE_AFTER))
  {
    FailoverFinds(ss, t);
  }

  lemma PeerIsPicked(ss: seq<Sighting>, s: Sighting, t: Sighting)
    requires Unambiguous(ss) && t in ss && Mutual(s, t) && t.domain.role == ROLE_PROMOTED
    ensures var index := FailoverIndex(ss);
            PickPromotedTarget(s.domain.replicaTargets, index) == RefTo(t) <==> Picked(s, t, index)
  {
    FailoverFinds(ss, t);
    PickIsTiered(s.domain.replicaTargets, FailoverIndex(ss));
  }

  /** At most one of a source's targets is promoted. */
  ghost predicate OnePromotion(s: Sighting, index: map<string, Sighting>) {
    forall a, b | a in s.domain.replicaTargets && b in s.domain.replicaTargets ::
      IsPromoted(index, a) && IsPromoted(index, b) ==> a == b
  }

  /** Which is enough for it to be the one picked. */
  lemma OnePromotionIsPicked(ss: seq<Sighting>, s: Sighting, t: Sighting)
    requires Unambiguous(ss) && t in ss && Mutual(s, t)
    requires OnePromotion(s, FailoverIndex(ss)) && t.domain.role == ROLE_PROMOTED
    ensures Picked(s, t, FailoverIndex(ss))
  {
    FailoverFinds(ss, t);
    PickIsTiered(s.domain.replicaTargets, FailoverIndex(ss));
  }

  /** Every replica whose source is reported is one end of a mutual pair, and every reported target of a
      source is the other end of one. */
  ghost predicate WellPaired(ss: seq<Sighting>) {
    && (forall t | t in ss && IsReplica(t) && SightingAt(DashboardIndex(ss), DashKey(t.domain.replicaSource)).Some? ::
          exists s :: s in ss && Mutual(s, t))
    && (forall s, ref | s in ss && IsSource(s) && ref in s.domain.replicaTargets
        && Reported(FailoverIndex(ss), ref).Some? ::
          RefTo(Reported(FailoverIndex(ss), ref).value) == ref && Mutual(s, Reported(FailoverIndex(ss), ref).value))
  }

  /** Of every source, the target that runs promoted beside it is the one picked. */
  ghost predicate NoneOvershadowed(ss: seq<Sighting>, now: int) {
    forall s, t | s in ss && t in ss && Mutual(s, t) && PairOf(t, DashboardIndex(ss), now).PromotedAndSourceRunning() ::
      Picked(s, t, FailoverIndex(ss))
  }

  predicate SourceShape(r: FailoverRow) { r.isSource && !r.isReplica && r.SplitBrainShape() }

  /** A pair and a row about the same two domains: the row's own is the pair's source, and its peer the
      pair's target. */
  predicate SameTwo(p: Pair, r: FailoverRow) {
    r.hostname == p.sourceHost && r.vm == p.sourceVM && r.peerRef == Written(p.targetHost, p.targetVM)
  }

  lemma PairHasItsRow(ss: seq<Sighting>, now: int, p: Pair) returns (r: FailoverRow)
    requires Unambiguous(ss) && WellPaired(ss) && NoneOvershadowed(ss, now)
    requires p in PairsOf(ss, DashboardIndex(ss), now) && p.PromotedAndSourceRunning()
    ensures r in RowsOf(ss, FailoverIndex(ss), now) && SourceShape(r) && SameTwo(p, r)
  {
    PairsAreTheReplicas(ss, DashboardIndex(ss), now, p);
    var t :| t in ss && IsReplica(t) && PairOf(t, DashboardIndex(ss), now) == p;
    var s :| s in ss && Mutual(s, t);
    r := RowOf(s, FailoverIndex(ss), now);
    assert r.SplitBrainShape() && r.peerRef == RefTo(t) by { PagesAgreeOnAPair(ss, s, t, now); }
    SplitWritten(s.host, s.domain.name);
    assert r.isSource && !r.isReplica && Participates(s);
    RowsAreTheParticipants(ss, FailoverIndex(ss), now, r);
  }

  /** The row a pair has is the source's own, so its target is the one that row is about. */
  lemma RowMeansPicked(ss: seq<Sighting>, now: int, s: Sighting, t: Sighting, r: FailoverRow)
    requires Unambiguous(ss) && s in ss && t in ss && Mutual(s, t)
    requires r in RowsOf(ss, FailoverIndex(ss), now) && SourceShape(r)
    requires SameTwo(PairOf(t, DashboardIndex(ss), now), r)
    ensures Picked(s, t, FailoverIndex(ss))
  {
    var index := FailoverIndex(ss);
    RowsAreTheParticipants(ss, index, now, r);
    var u :| u in ss && Participates(u) && RowOf(u, index, now) == r;
    SplitWritten(s.host, s.domain.name);
    assert KeyOf(u) == KeyOf(s);
    PickIsTiered(s.domain.replicaTargets, index);
    FailoverFinds(ss, t);
  }

  lemma RowHasItsPair(ss: seq<Sighting>, now: int, r: FailoverRow) returns (p: Pair)
    requires Unambiguous(ss) && WellPaired(ss)
    requires r in RowsOf(ss, FailoverIndex(ss), now) && SourceShape(r)
    ensures p in PairsOf(ss, DashboardIndex(ss), now) && p.PromotedAndSourceRunning() && SameTwo(p, r)
  {
    var index := FailoverIndex(ss);
    RowsAreTheParticipants(ss, index, now, r);
    var s :| s in ss && Participates(s) && RowOf(s, index, now) == r;
    PickIsTiered(s.domain.replicaTargets, index);
    assert r.peerRef in s.domain.replicaTargets;
    var t := Reported(index, r.peerRef).value;
    FailoverIndexHolds(ss, RefKey(r.peerHost, r.peerVM));
    assert Mutual(s, t) && RefTo(t) == r.peerRef;
    p := PairOf(t, DashboardIndex(ss), now);
    PagesAgreeOnAPair(ss, s, t, now);
    PairsAreTheReplicas(ss, DashboardIndex(ss), now, p);
    SplitWritten(s.host, s.domain.name);
  }

  function BoardPairs(agents: seq<Agent>, reports: map<string, Report>, now: int): seq<Pair> {
    var all := Sightings(agents, reports, true);
    PairsOf(all, DashboardIndex(all), now)
  }

  ghost predicate Comparable(agents: seq<Agent>, reports: map<string, Report>) {
    && (forall a | a in agents :: !a.revoked)
    && Unambiguous(Sightings(agents, reports, true)) && WellPaired(Sightings(agents, reports, true))
  }

  lemma RowsAreUnsorted(agents: seq<Agent>, reports: map<string, Report>, now: int, r: FailoverRow)
    requires forall a | a in agents :: !a.revoked
    ensures var ss := Sightings(agents, reports, true);
            r in PageRows(agents, reports, now) <==> r in RowsOf(ss, FailoverIndex(ss), now)
  {
    var ss := Sightings(agents, reports, true);
    NoRevokedNoDifference(agents, reports);
    SortPermutes(ByUrgency, RowsOf(ss, FailoverIndex(ss), now));
  }

  lemma RowOnThePage(agents: seq<Agent>, reports: map<string, Report>, now: int, p: Pair) returns (r: FailoverRow)
    requires Comparable(agents, reports) && NoneOvershadowed(Sightings(agents, reports, true), now)
    requires p in BoardPairs(agents, reports, now) && p.PromotedAndSourceRunning()
    ensures r in PageRows(agents, reports, now) && SourceShape(r) && SameTwo(p, r)
  {
    r := PairHasItsRow(Sightings(agents, reports, true), now, p);
    RowsAreUnsorted(agents, reports, now, r);
  }

  lemma PairOnTheBoard(agents: seq<Agent>, reports: map<string, Report>, now: int, r: FailoverRow) returns (p: Pair)
    requires Comparable(agents, reports)
    requires r in PageRows(agents, reports, now) && SourceShape(r)
    ensures p in BoardPairs(agents, reports, now) && p.PromotedAndSourceRunning() && SameTwo(p, r)
  {
    RowsAreUnsorted(agents, reports, now, r);
    p := RowHasItsPair(Sightings(agents, reports, true), now, r);
  }

  /** A pair of the board and a row of the page that have the shape about the same two domains; with both
      ends' reports current both raise the certain alarm. */
  ghost predicate Meet(p: Pair, r: FailoverRow) {
    && p.PromotedAndSourceRunning() && SourceShape(r) && SameTwo(p, r)
    && (p.SourceFresh() && r.PeerFresh() ==> p.SplitBrain() && r.SplitBrain())
  }

  ghost predicate EveryPairHasItsRow(agents: seq<Agent>, reports: map<string, Report>, now: int) {
    forall p | p in BoardPairs(agents, reports, now) && p.PromotedAndSourceRunning() ::
      exists r :: r in PageRows(agents, reports, now) && Meet(p, r)
  }

  ghost predicate EveryRowHasItsPair(agents: seq<Agent>, reports: map<string, Report>, now: int) {
    forall r | r in PageRows(agents, reports, now) && SourceShape(r) ::
      exists p :: p in BoardPairs(agents, reports, now) && Meet(p, r)
  }

  /** Page against page: every source's row with the shape has its pair on the dashboard; and every pair
      with the shape has its row exactly when no source's running promoted target is overshadowed by
      another promoted one. */
  lemma PagesAgree(agents: seq<Agent>, reports: map<string, Report>, now: int)
    requires Comparable(agents, reports)
    ensures EveryRowHasItsPair(agents, reports, now)
    ensures EveryPairHasItsRow(agents, reports, now) <==> NoneOvershadowed(Sightings(agents, reports, true), now)
  {
    forall r | r in PageRows(agents, reports, now) && SourceShape(r)
      ensures exists p :: p in BoardPairs(agents, reports, now) && Meet(p, r)
    {
      var p := PairOnTheBoard(agents, reports, now, r);
      assert Meet(p, r);
    }
    if NoneOvershadowed(Sightings(agents, reports, true), now) {
      forall p | p in BoardPairs(agents, reports, now) && p.PromotedAndSourceRunning()
        ensures exists r :: r in PageRows(agents, reports, now) && Meet(p, r)
      {
        var r := RowOnThePage(agents, reports, now, p);
        assert Meet(p, r);
      }
    }
    if EveryPairHasItsRow(agents, reports, now) {
      RowsMeanPicked(agents, reports, now);
    }
  }

  lemma RowsMeanPicked(agents: seq<Agent>, reports: map<string, Report>, now: int)
    requires Comparable(agents, reports) && EveryPairHasItsRow(agents, reports, now)
    ensures NoneOvershadowed(Sightings(agents, reports, true), now)
  {
    var ss := Sightings(agents, reports, true);
    forall s, t | s in ss && t in ss && Mutual(s, t) && PairOf(t, DashboardIndex(ss), now).PromotedAndSourceRunning()
      ensures Picked(s, t, FailoverIndex(ss))
    {
      var p := PairOf(t, DashboardIndex(ss), now);
      PairsAreTheReplicas(ss, DashboardIndex(ss), now, p);
      var r :| r in PageRows(agents, reports, now) && Meet(p, r);
      RowsAreUnsorted(agents, reports, now, r);
      RowMeansPicked(ss, now, s, t, r);
    }
  }

  // ----- where they differ -----

  /** A source whose first target is promoted and stopped, and whose second is promoted and running: the
      dashboard alarms for the second, and the source's row, being about the first, sees nothing. */
  lemma StoppedPromotionHidesTheRunning(agents: seq<Agent>, reports: map<string, Report>, s: Sighting, u: Sighting,
                                        t: Sighting, now: int)
    requires forall a | a in agents :: !a.revoked
    requires var ss := Sightings(agents, reports, true);
             Unambiguous(ss) && s in ss && u in ss && t in ss && Mutual(s, u) && Mutual(s, t)
    requires s.domain.replicaTargets == [RefTo(u), RefTo(t)]
    requires u.domain.role == t.domain.role == ROLE_PROMOTED && !u.domain.active && t.domain.active
    requires s.domain.active && 0 <= AgeOf(s.reportedAt, now) <= STALE_AFTER
    ensures exists p, r :: p in BoardPairs(agents, reports, now) && r in PageRows(agents, reports, now)
                           && r.hostname == p.sourceHost && r.vm == p.sourceVM && r.peerRef != RefTo(t)
                           && p.SplitBrain() && !r.SplitBrainShape()
  {
    var ss := Sightings(agents, reports, true);
    var p, r := PairOf(t, DashboardIndex(ss), now), RowOf(s, FailoverIndex(ss), now);
    HiddenShape(ss, s, u, t, now);
    PairsAreTheReplicas(ss, DashboardIndex(ss), now, p);
    RowsAreTheParticipants(ss, FailoverIndex(ss), now, r);
    RowsAreUnsorted(agents, reports, now, r);
    SplitWritten(s.host, s.domain.name);
    assert p in BoardPairs(agents, reports, now) && r in PageRows(agents, reports, now);
  }

  lemma HiddenShape(ss: seq<Sighting>, s: Sighting, u: Sighting, t: Sighting, now: int)
    requires Unambiguous(ss) && s in ss && u in ss && Mutual(s, u) && Mutual(s, t)
    requires s.domain.replicaTargets == [RefTo(u), RefTo(t)] && u != t && t in ss
    requires u.domain.role == t.domain.role == ROLE_PROMOTED && !u.domain.active && t.domain.active
    requires s.domain.active && 0 <= AgeOf(s.reportedAt, now) <= STALE_AFTER
    ensures PairOf(t, DashboardIndex(ss), now).SplitBrain()
    ensures RowOf(s, FailoverIndex(ss), now).peerRef == RefTo(u) != RefTo(t)
    ensures !RowOf(s, FailoverIndex(ss), now).SplitBrainShape()
  {
    PairOfEnds(ss, s, t, now);
    RowOfEnds(ss, s, u, now);
    FailoverFinds(ss, u);
    FailoverFinds(ss, t);
  }

  function Copy(name: string, active: bool): ReportDomain {
    ReportDomain(name, active, ROLE_PROMOTED, "", "h:v", [], "", "", "", None, [], [])
  }

  function TwiceCopied(): ReportDomain {
    ReportDomain("v", true, ROLE_SOURCE, "", "", ["h:u", "h:t"], "", "", "", None, [], [])
  }

  function OnHost(d: ReportDomain, at: int): Sighting { Sighting(PlainAgent("1", "h"), "h", d, at) }

  /** Such a fleet: one host with source v and its copies u, stopped, and t, running. */
  lemma OvershadowedFleetExists(now: int)
    requires now > 0
    ensures var agents := [PlainAgent("1", "h")];
            var reports := map["1" := Report(now, "", "h", "", [TwiceCopied(), Copy("u", false), Copy("t", true)])];
            exists p, r :: p in BoardPairs(agents, reports, now) && r in PageRows(agents, reports, now)
                           && r.hostname == p.sourceHost && r.vm == p.sourceVM
                           && p.SplitBrain() && !r.SplitBrainShape()
  {
    var agents := [PlainAgent("1", "h")];
    var domains := [TwiceCopied(), Copy("u", false), Copy("t", true)];
    var reports := map["1" := Report(now, "", "h", "", domains)];
    ThreeSightings(agents[0], reports, domains[0], domains[1], domains[2]);
    CopiesAreApart(now);
    CopiesAreMutual(now);
    StoppedPromotionHidesTheRunning(agents, reports, OnHost(domains[0], now), OnHost(domains[1], now),
                                    OnHost(domains[2], now), now);
  }

  lemma CopiesAreApart(now: int)
    ensures Unambiguous([OnHost(TwiceCopied(), now), OnHost(Copy("u", false), now), OnHost(Copy("t", true), now)])
  {
    OneHostIsUnambiguous([OnHost(TwiceCopied(), now), OnHost(Copy("u", false), now), OnHost(Copy("t", true), now)]);
  }

  lemma CopiesAreMutual(now: int)
    ensures var s, u, t := OnHost(TwiceCopied(), now), OnHost(Copy("u", false), now), OnHost(Copy("t", true), now);
            Mutual(s, u) && Mutual(s, t) && s.domain.replicaTargets == [RefTo(u), RefTo(t)]
  {
    var s, u, t := OnHost(TwiceCopied(), now), OnHost(Copy("u", false), now), OnHost(Copy("t", true), now);
    assert RefTo(s) == "h:v" && RefTo(u) == "h:u" && RefTo(t) == "h:t";
    assert RefTo(u) in s.domain.replicaTargets && RefTo(t) in s.domain.replicaTargets;
  }

  lemma ThreeSightings(a: Agent, reports: map<string, Report>, d: ReportDomain, e: ReportDomain, f: ReportDomain)
    requires !a.revoked && a.id in reports && reports[a.id].domains == [d, e, f]
    ensures var host, at := HostOf(a, reports[a.id]), reports[a.id].reportedAtUnix;
            Sightings([a], reports, true)
            == [Sighting(a, host, d, at), Sighting(a, host, e, at), Sighting(a, host, f, at)]
  {
    OneAgent(a, reports);
    assert |SightingsOf(a, reports[a.id])| == 3;
  }

  lemma OneAgent(a: Agent, reports: map<string, Report>)
    requires !a.revoked && a.id in reports
    ensures Sightings([a], reports, true) == SightingsOf(a, reports[a.id])
  {
    OneMoreSighted([], a, reports, true);
    assert [] + [a] == [a] && Sightings([], reports, true) == [];
  }

  /** Plain names on one host, each once, are told apart by both keys. */
  lemma OneHostIsUnambiguous(ss: seq<Sighting>)
    requires forall s | s in ss :: s.host == "h" && ReadsPlainly(s.domain.name) && NoColon(s.domain.name)
    requires forall s, t | s in ss && t in ss :: s.domain.name == t.domain.name ==> s == t
    ensures Unambiguous(ss)
  {
    forall s | s in ss ensures KeyOf(s)[2..] == s.domain.name == DashKeyOf(s)[2..] { HostKeys(s); }
  }

  lemma HostKeys(s: Sighting)
    requires s.host == "h" && ReadsPlainly(s.domain.name)
    ensures |KeyOf(s)| >= 2 && KeyOf(s)[2..] == s.domain.name
    ensures |DashKeyOf(s)| >= 2 && DashKeyOf(s)[2..] == s.domain.name
  {
    ReadsAsItself("h", s.domain.name);
    assert DashKeyOf(s)[2..] == Fold(s.domain.name) == s.domain.name;
  }
}
