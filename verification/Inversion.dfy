/** From the Invert button to the schedule: an inversion the page offers does not jam on its own
    outcome. */
module Inversion {
  import opened Text
  import opened Sorting
  import opened Records
  import opened Schedules
  import opened FollowUps
  import opened Fleet
  import opened Failover

  /** Every reporting live agent calls its host what it enrolled it as, up to case, and no domain
      name contains the separator of references. */
  ghost predicate NamedAsEnrolled(agents: seq<Agent>, reports: map<string, Report>) {
    forall a | a in agents && !a.revoked && a.id in reports ::
      && EqualFold(a.hostname, Trim(HostOf(a, reports[a.id])))
      && (forall d | d in reports[a.id].domains :: NoColon(d.name))
  }

  /** An agent still enrolled, under the same name and not revoked, in a later roster. */
  ghost predicate StillEnrolled(a: Agent, later: seq<Agent>) {
    exists b :: b in later && b.id == a.id && b.hostname == a.hostname && !b.revoked
  }

  ghost predicate Identified(agents: seq<Agent>) { forall a | a in agents :: a.id != "" }

  /** A row whose peer is seen names a host that a live agent is enrolled under. */
  lemma SeenPeerIsEnrolled(agents: seq<Agent>, reports: map<string, Report>, now: int, s: Sighting) returns (a: Agent)
    requires NamedAsEnrolled(agents, reports)
    requires RowOf(s, FailoverIndex(Live(agents, reports)), now).peerSeen
    ensures a in agents && !a.revoked && a.id in reports
    ensures EqualFold(a.hostname, Trim(RowOf(s, FailoverIndex(Live(agents, reports)), now).peerHost))
  {
    var live := Live(agents, reports);
    var row := RowOf(s, FailoverIndex(live), now);
    var peer := FailoverIndex(live)[RefKey(row.peerHost, row.peerVM)];
    FailoverIndexHolds(live, RefKey(row.peerHost, row.peerVM));
    SightingsAreReported(agents, reports, false, peer);
    a := peer.agent;
    PeerNameIsPlain(s, FailoverIndex(live), now);
    RefKeyInjective(peer.host, peer.domain.name, row.peerHost, row.peerVM);
  }

  lemma PeerNameIsPlain(s: Sighting, index: map<string, Sighting>, now: int)
    ensures NoColon(RowOf(s, index, now).peerVM)
  {}

  /** Exactly when the outcome of an inversion cannot be followed: nobody live is enrolled under the
      name it carries. */
  lemma StrandedIff(later: seq<Agent>, reports: map<string, Report>, rec: OperationRecord, res: OperationResult)
    requires Identified(later)
    ensures Decide(later, reports, rec, res).Stranded?
            <==> && res.state == STATE_DONE && rec.op.kind == OP_INVERT && rec.op.peerHost != ""
                 && forall a | a in later :: !Serves(a, rec.op.peerHost)
  {
    SortPermutes(ByHostname, later);
    ServingExists(Roster(later), rec.op.peerHost);
  }

  /** The inversion a row offers, issued with that row's peer, finds the agent its schedule entry
      moves to whenever its success is reported, however the roster changed meanwhile, as long as
      the peer's agent is still enrolled. */
  lemma OfferedInversionIsFollowed(agents: seq<Agent>, reports: map<string, Report>, now: int, s: Sighting,
                                   rec: OperationRecord, res: OperationResult,
                                   later: seq<Agent>, laterReports: map<string, Report>) returns (a: Agent)
    requires NamedAsEnrolled(agents, reports)
    requires var row := RowOf(s, FailoverIndex(Live(agents, reports)), now);
             row.CanInvert() && rec.op.peerHost == Trim(row.peerHost) != ""
    requires rec.op.kind == OP_INVERT && res.state == STATE_DONE && Identified(later)
    ensures a in agents && !a.revoked
    ensures StillEnrolled(a, later) ==>
              var action := Decide(later, laterReports, rec, res);
              && action.Do? && action.edit.Moving?
              && action.edit.from == rec.agentID && action.edit.vm == rec.op.vm && action.edit.newVM == PeerVM(rec)
              && (exists b :: b in later && b.id == action.edit.to && Serves(b, rec.op.peerHost))
  {
    a := SeenPeerIsEnrolled(agents, reports, now, s);
    TrimIsTrimmed(RowOf(s, FailoverIndex(Live(agents, reports)), now).peerHost);
    if StillEnrolled(a, later) {
      var b :| b in later && b.id == a.id && b.hostname == a.hostname && !b.revoked;
      assert Serves(b, rec.op.peerHost);
      StrandedIff(later, laterReports, rec, res);
      SortPermutes(ByHostname, later);
      ServingExists(Roster(later), rec.op.peerHost);
    }
  }

  /** Why hosts must be enrolled under the names they report, and names hold no colon. A source whose
      one target is found under its key, but whose reference names a host nobody live is enrolled
      under, is offered an inversion, and the success of that inversion cannot be followed. */
  lemma UnservedHostStrands(agents: seq<Agent>, reports: map<string, Report>, now: int, s: Sighting, ref: string,
                            rec: OperationRecord, res: OperationResult)
    requires var t := Reported(FailoverIndex(Live(agents, reports)), ref);
             t.Some? && t.value.domain.role == ROLE_PROMOTED
    requires s.agent.id != "" && s.domain.replicaSource == "" && s.domain.replicaTargets == [ref]
    requires Identified(agents) && forall a | a in agents :: !Serves(a, Trim(SplitRef(ref).host))
    requires rec.op.kind == OP_INVERT && res.state == STATE_DONE && rec.op.peerHost == Trim(SplitRef(ref).host) != ""
    ensures var row := RowOf(s, FailoverIndex(Live(agents, reports)), now);
            row.CanInvert() && rec.op.peerHost == Trim(row.peerHost)
    ensures Decide(agents, reports, rec, res).Stranded?
  {
    StrandedIff(agents, reports, rec, res);
  }

  /** A domain whose row offers an inversion, at the host the record carries, whose success is stranded. */
  ghost predicate OfferedAndStranded(agents: seq<Agent>, reports: map<string, Report>, s: Sighting, now: int,
                                     rec: OperationRecord, res: OperationResult)
  {
    var row := RowOf(s, FailoverIndex(Live(agents, reports)), now);
    && s in Live(agents, reports) && row.CanInvert() && rec.op.peerHost == Trim(row.peerHost)
    && Decide(agents, reports, rec, res).Stranded?
  }

  /** A fleet of two hosts with a domain each: a source, and its one target. */
  lemma TwoHostsStrand(a: Agent, b: Agent, reports: map<string, Report>, d: ReportDomain, e: ReportDomain, now: int,
                       ref: string, rec: OperationRecord, res: OperationResult)
    requires !a.revoked && !b.revoked && a.id in reports && b.id in reports && a.id != "" && b.id != ""
    requires reports[a.id].domains == [d] && reports[b.id].domains == [e]
    requires d.replicaSource == "" && d.replicaTargets == [ref] && e.role == ROLE_PROMOTED
    requires var s := Sighting(a, HostOf(a, reports[a.id]), d, reports[a.id].reportedAtUnix);
             var t := Sighting(b, HostOf(b, reports[b.id]), e, reports[b.id].reportedAtUnix);
             Reported(FailoverIndex([s, t]), ref) == Some(t)
    requires var host := Trim(SplitRef(ref).host);
             !Serves(a, host) && !Serves(b, host) && rec.op.peerHost == host != ""
    requires rec.op.kind == OP_INVERT && res.state == STATE_DONE
    ensures OfferedAndStranded([a, b], reports,
                               Sighting(a, HostOf(a, reports[a.id]), d, reports[a.id].reportedAtUnix), now, rec, res)
  {
    OneDomainEach(a, b, reports, d, e);
    UnservedHostStrands([a, b], reports, now,
                        Sighting(a, HostOf(a, reports[a.id]), d, reports[a.id].reportedAtUnix), ref, rec, res);
  }

  function Plain(name: string, role: string, source: string, targets: seq<string>): ReportDomain {
    ReportDomain(name, true, role, "", source, targets, "", "", "", None, [], [])
  }

  /** Such a fleet: host h reports the promoted copy a:b of host s's v, and both are enrolled under the
      names they report. The reference h:a:b splits into host h:a and VM b, yet its key is that of a:b
      on h; the outcome of the inversion it offers is stranded. */
  lemma ColonInANameConfuses(now: int, rec: OperationRecord, res: OperationResult)
    requires rec.op.kind == OP_INVERT && res.state == STATE_DONE && rec.op.peerHost == "h:a"
    ensures var a, b := PlainAgent("1", "s"), PlainAgent("2", "h");
            var d, e := Plain("v", ROLE_SOURCE, "", ["h:a:b"]), Plain("a:b", ROLE_PROMOTED, "s:v", []);
            var reports := map["1" := Report(0, "", "s", "", [d]), "2" := Report(0, "", "h", "", [e])];
            && (forall x | x in [a, b] :: reports[x.id].hostname == x.hostname)
            && OfferedAndStranded([a, b], reports, Sighting(a, "s", d, 0), now, rec, res)
  {
    var a, b := PlainAgent("1", "s"), PlainAgent("2", "h");
    var d, e := Plain("v", ROLE_SOURCE, "", ["h:a:b"]), Plain("a:b", ROLE_PROMOTED, "s:v", []);
    var reports := map["1" := Report(0, "", "s", "", [d]), "2" := Report(0, "", "h", "", [e])];
    var s, t := Sighting(a, "s", d, 0), Sighting(b, "h", e, 0);
    ColonIndex(s, t);
    NobodyServesHA(a, b);
    TwoHostsStrand(a, b, reports, d, e, now, "h:a:b", rec, res);
  }

  lemma NobodyServesHA(a: Agent, b: Agent)
    requires a.hostname == "s" && b.hostname == "h"
    ensures Trim("h:a") == "h:a" && !Serves(a, "h:a") && !Serves(b, "h:a")
  {
    TrimIsTrimmed("h:a");
    assert |Fold("h:a")| == 3 && |Fold("h")| == 1 && |Fold("s")| == 1;
  }

  lemma OneDomainEach(a: Agent, b: Agent, reports: map<string, Report>, d: ReportDomain, e: ReportDomain)
    requires !a.revoked && !b.revoked && a.id in reports && b.id in reports
    requires reports[a.id].domains == [d] && reports[b.id].domains == [e]
    ensures Live([a, b], reports) == [Sighting(a, HostOf(a, reports[a.id]), d, reports[a.id].reportedAtUnix),
                                      Sighting(b, HostOf(b, reports[b.id]), e, reports[b.id].reportedAtUnix)]
  {
    OneDomain(a, reports, d);
    OneDomain(b, reports, e);
    OneMoreSighted([], a, reports, false);
    OneMoreSighted([a], b, reports, false);
    assert [] + [a] == [a] && [a] + [b] == [a, b];
  }

  lemma OneDomain(a: Agent, reports: map<string, Report>, d: ReportDomain)
    requires !a.revoked && a.id in reports && reports[a.id].domains == [d]
    ensures FromAgent(a, reports, false) == [Sighting(a, HostOf(a, reports[a.id]), d, reports[a.id].reportedAtUnix)]
  {}

  lemma ColonIndex(s: Sighting, t: Sighting)
    requires s.host == "s" && s.domain.name == "v" && t.host == "h" && t.domain.name == "a:b"
    ensures SplitRef("h:a:b") == Ref("h:a", "b")
    ensures Reported(FailoverIndex([s, t]), "h:a:b") == Some(t)
  {
    TwoKeys(s, t);
    SplitsAtTheLast();
    ReportedAtKey(FailoverIndex([s, t]), "h:a", "b", "h:a:b");
    ColonKey();
  }

  lemma ColonKey()
    ensures RefKey("h", "a:b") == "h:a:b"
  {
    ReadsAsItself("h", "a:b");
    assert "h" + ":" + "a:b" == "h:a:b";
  }

  lemma SplitsAtTheLast()
    ensures SplitRef("h:a:b") == Ref("h:a", "b")
  {
    SplitWritten("h:a", "b");
    assert Written("h:a", "b") == "h:a:b";
  }

  /** Another, with no colon in any name: the agent enrolled as old calls its host h, and reports there
      the promoted copy t of host s's v. The page finds it under the name it reports; the store looks
      for the name it enrolled. */
  lemma RenamedHostStrands(now: int, rec: OperationRecord, res: OperationResult)
    requires rec.op.kind == OP_INVERT && res.state == STATE_DONE && rec.op.peerHost == "h"
    ensures var a, b := PlainAgent("1", "s"), PlainAgent("2", "old");
            var d, e := Plain("v", ROLE_SOURCE, "", ["h:t"]), Plain("t", ROLE_PROMOTED, "s:v", []);
            var reports := map["1" := Report(0, "", "s", "", [d]), "2" := Report(0, "", "h", "", [e])];
            && NoColon(d.name) && NoColon(e.name)
            && OfferedAndStranded([a, b], reports, Sighting(a, "s", d, 0), now, rec, res)
  {
    var a, b := PlainAgent("1", "s"), PlainAgent("2", "old");
    var d, e := Plain("v", ROLE_SOURCE, "", ["h:t"]), Plain("t", ROLE_PROMOTED, "s:v", []);
    var reports := map["1" := Report(0, "", "s", "", [d]), "2" := Report(0, "", "h", "", [e])];
    var s, t := Sighting(a, "s", d, 0), Sighting(b, "h", e, 0);
    RenamedIndex(s, t);
    NobodyServesH(a, b);
    TwoHostsStrand(a, b, reports, d, e, now, "h:t", rec, res);
  }

  lemma NobodyServesH(a: Agent, b: Agent)
    requires a.hostname == "s" && b.hostname == "old"
    ensures Trim("h") == "h" && !Serves(a, "h") && !Serves(b, "h")
  {
    TrimIsTrimmed("h");
    assert Fold("h")[0] == 'h' && Fold("s")[0] == 's' && Fold("old")[0] == 'o';
  }

  lemma RenamedIndex(s: Sighting, t: Sighting)
    requires t.host == "h" && t.domain.name == "t"
    ensures SplitRef("h:t") == Ref("h", "t")
    ensures Reported(FailoverIndex([s, t]), "h:t") == Some(t)
  {
    TwoKeys(s, t);
    PlainKey();
    ReportedAtKey(FailoverIndex([s, t]), "h", "t", "h:t");
  }

  lemma PlainKey()
    ensures SplitRef("h:t") == Ref("h", "t") && RefKey("h", "t") == "h:t"
  {
    SplitWritten("h", "t");
    assert Written("h", "t") == "h:t" == "h" + ":" + "t";
    ReadsAsItself("h", "t");
  }
}
