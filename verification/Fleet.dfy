/** The fleet as its agents last described it, and the two indexes the pages look domains up in. */
module Fleet {
  import opened Text
  import opened Sorting
  import opened Records

  // ----- references -----

  function LastColon(ref: string): (k: int)
    ensures -1 <= k < |ref|
    ensures k >= 0 ==> ref[k] == ':'
    ensures forall i | k < i < |ref| :: ref[i] != ':'
  {
    if ref == [] then -1
    else if ref[|ref| - 1] == ':' then |ref| - 1
    else LastColon(ref[..|ref| - 1])
  }

  datatype Ref = Ref(host: string, vm: string)

  /** A reference split at its last colon; one without a colon names no host. */
  function SplitRef(ref: string): Ref {
    var k := LastColon(ref);
    if k < 0 then Ref("", ref) else Ref(ref[..k], ref[k + 1..])
  }

  function Written(host: string, vm: string): string { host + ":" + vm }

  predicate NoColon(s: string) { forall i | 0 <= i < |s| :: s[i] != ':' }

  lemma SplitWritten(host: string, vm: string)
    requires NoColon(vm)
    ensures SplitRef(Written(host, vm)) == Ref(host, vm)
  {
    var ref := Written(host, vm);
    assert ref[|host|] == ':';
    assert forall i | |host| < i < |ref| :: ref[i] == vm[i - |host| - 1];
    assert LastColon(ref) == |host|;
    assert ref[..|host|] == host && ref[|host| + 1..] == vm;
  }

  /** The failover page's key: the host up to case and blanks, the VM up to blanks. */
  function RefKey(host: string, vm: string): string { Fold(Trim(host)) + ":" + Trim(vm) }

  /** The dashboard's key: the whole reference up to case. */
  function DashKey(ref: string): string { Fold(ref) }

  lemma TrimKeepsNoColon(s: string)
    requires NoColon(s)
    ensures NoColon(Trim(s))
  {
    TrimIsPart(s);
  }

  lemma TrimIsPart(s: string)
    ensures forall i | 0 <= i < |Trim(s)| :: Trim(s)[i] in s
  {
    TrimLeftIsPart(s);
  }

  lemma {:induction false} TrimLeftIsPart(s: string)
    ensures forall c | c in TrimLeft(s) :: c in s
  {
    if s != [] && IsSpace(s[0]) { TrimLeftIsPart(s[1..]); }
  }

  /** A reference is split at its last colon: the VM holds none, and the host is all before it, or nothing
      when there is no colon at all. */
  lemma SplitRefIs(ref: string, host: string, vm: string)
    ensures SplitRef(ref) == Ref(host, vm)
            <==> ':' !in vm && (ref == host + ":" + vm || (host == "" && ref == vm))
  {
    var k := LastColon(ref);
    if SplitRef(ref) == Ref(host, vm) {
      assert k >= 0 ==> ref == ref[..k] + ":" + ref[k + 1..];
    } else if ':' !in vm && ref == host + ":" + vm {
      SplitWritten(host, vm);
    }
  }

  /** Between colon-free VM names, keys are equal exactly for the same host up to case and blanks and the
      same VM up to blanks. */
  lemma RefKeyInjective(h1: string, v1: string, h2: string, v2: string)
    requires NoColon(v1) && NoColon(v2)
    ensures RefKey(h1, v1) == RefKey(h2, v2) <==> Fold(Trim(h1)) == Fold(Trim(h2)) && Trim(v1) == Trim(v2)
  {
    TrimKeepsNoColon(v1);
    TrimKeepsNoColon(v2);
    SplitWritten(Fold(Trim(h1)), Trim(v1));
    SplitWritten(Fold(Trim(h2)), Trim(v2));
  }

  /** A name in lower case with no blanks around it. */
  predicate ReadsPlainly(s: string) {
    s != "" && Trimmed(s) && forall i | 0 <= i < |s| :: FoldChar(s[i]) == s[i]
  }

  /** Such names are their own key. */
  lemma ReadsAsItself(host: string, vm: string)
    requires ReadsPlainly(host) && ReadsPlainly(vm)
    ensures RefKey(host, vm) == host + ":" + vm
  {
    TrimIsTrimmed(host);
    TrimIsTrimmed(vm);
    assert Fold(host) == host && Fold(vm) == vm;
  }

  // ----- sightings -----

  /** One domain in one agent's last report. */
  datatype Sighting = Sighting(agent: Agent, host: string, domain: ReportDomain, reportedAt: int)

  /** What a host calls itself, or failing that the name it enrolled under. */
  function HostOf(a: Agent, rep: Report): string { if rep.hostname == "" then a.hostname else rep.hostname }

  function SightingsOf(a: Agent, rep: Report): seq<Sighting> {
    seq(|rep.domains|, i requires 0 <= i < |rep.domains| =>
      Sighting(a, HostOf(a, rep), rep.domains[i], rep.reportedAtUnix))
  }

  function FromAgent(a: Agent, reports: map<string, Report>, withRevoked: bool): seq<Sighting> {
    if a.id !in reports || (a.revoked && !withRevoked) then [] else SightingsOf(a, reports[a.id])
  }

  /** Every sighting, agents in order and each agent's domains in order. */
  function Sightings(agents: seq<Agent>, reports: map<string, Report>, withRevoked: bool): seq<Sighting> {
    if agents == [] then []
    else
      Sightings(agents[..|agents| - 1], reports, withRevoked) + FromAgent(agents[|agents| - 1], reports, withRevoked)
  }

  lemma {:induction false} SightingsAreReported(agents: seq<Agent>, reports: map<string, Report>, withRevoked: bool,
                                                s: Sighting)
    requires s in Sightings(agents, reports, withRevoked)
    ensures s.agent in agents && s.agent.id in reports && (withRevoked || !s.agent.revoked)
    ensures s.host == HostOf(s.agent, reports[s.agent.id]) && s.domain in reports[s.agent.id].domains
    ensures s.reportedAt == reports[s.agent.id].reportedAtUnix
  {
    var last := agents[|agents| - 1];
    if s !in FromAgent(last, reports, withRevoked) {
      SightingsAreReported(agents[..|agents| - 1], reports, withRevoked, s);
    }
  }

  /** What is sighted: every domain of every agent's report, of live agents only or of all, under the host
      the report names or failing that the one enrolled. */
  lemma {:induction false} SightingsAre(agents: seq<Agent>, reports: map<string, Report>, withRevoked: bool,
                                        s: Sighting)
    ensures s in Sightings(agents, reports, withRevoked)
            <==> && s.agent in agents && s.agent.id in reports && (withRevoked || !s.agent.revoked)
                 && var rep := reports[s.agent.id];
                    && s.domain in rep.domains && s.reportedAt == rep.reportedAtUnix
                    && s.host == if rep.hostname == "" then s.agent.hostname else rep.hostname
  {
    if agents != [] {
      var n := |agents| - 1;
      SightingsAre(agents[..n], reports, withRevoked, s);
      assert agents == agents[..n] + [agents[n]];
      if s.agent == agents[n] && agents[n].id in reports { SightedInReport(agents[n], reports[agents[n].id], s); }
    }
  }

  lemma SightedInReport(a: Agent, rep: Report, s: Sighting)
    requires s.agent == a
    ensures s in SightingsOf(a, rep)
            <==> s.domain in rep.domains && s.reportedAt == rep.reportedAtUnix
                 && s.host == if rep.hostname == "" then a.hostname else rep.hostname
  {
    if s.domain in rep.domains && s.reportedAt == rep.reportedAtUnix && s.host == HostOf(a, rep) {
      var i :| 0 <= i < |rep.domains| && rep.domains[i] == s.domain;
      assert SightingsOf(a, rep)[i] == s;
    }
  }

  lemma {:induction false} NoRevokedNoDifference(agents: seq<Agent>, reports: map<string, Report>)
    requires forall a | a in agents :: !a.revoked
    ensures Sightings(agents, reports, true) == Sightings(agents, reports, false)
  {
    if agents != [] {
      assert agents[|agents| - 1] in agents;
      NoRevokedNoDifference(agents[..|agents| - 1], reports);
    }
  }

  // ----- the failover index -----

  function KeyOf(s: Sighting): string { RefKey(s.host, s.domain.name) }

  function FailoverIndex(ss: seq<Sighting>): map<string, Sighting> {
    if ss == [] then map[]
    else FailoverIndex(ss[..|ss| - 1])[KeyOf(ss[|ss| - 1]) := ss[|ss| - 1]]
  }

  lemma {:induction false} FailoverIndexHolds(ss: seq<Sighting>, key: string)
    ensures key in FailoverIndex(ss) <==> exists s :: s in ss && KeyOf(s) == key
    ensures key in FailoverIndex(ss) ==> FailoverIndex(ss)[key] in ss && KeyOf(FailoverIndex(ss)[key]) == key
  {
    if ss != [] {
      FailoverIndexHolds(ss[..|ss| - 1], key);
      assert ss == ss[..|ss| - 1] + [ss[|ss| - 1]];
    }
  }

  /** It holds the last sighting of a key. */
  lemma {:induction false} FailoverIndexIsLast(ss: seq<Sighting>, key: string) returns (k: nat)
    requires key in FailoverIndex(ss)
    ensures k < |ss| && FailoverIndex(ss)[key] == ss[k] && KeyOf(ss[k]) == key
    ensures forall i | k < i < |ss| :: KeyOf(ss[i]) != key
  {
    var n := |ss| - 1;
    if KeyOf(ss[n]) == key {
      k := n;
    } else {
      k := FailoverIndexIsLast(ss[..n], key);
    }
  }

  // ----- the dashboard index -----

  function DashKeyOf(s: Sighting): string { DashKey(Written(s.host, s.domain.name)) }

  /** A live agent's view of a domain outranks a revoked one's. */
  function WithSighting(index: map<string, Sighting>, s: Sighting): map<string, Sighting> {
    var k := DashKeyOf(s);
    if k in index && !index[k].agent.revoked && s.agent.revoked then index else index[k := s]
  }

  function DashboardIndex(ss: seq<Sighting>): map<string, Sighting> {
    if ss == [] then map[] else WithSighting(DashboardIndex(ss[..|ss| - 1]), ss[|ss| - 1])
  }

  function SightingAt(index: map<string, Sighting>, key: string): Option<Sighting> {
    if key in index then Some(index[key]) else None
  }

  /** The last sighting of a key by a live agent, or by a revoked one. */
  function LastSeen(ss: seq<Sighting>, key: string, revoked: bool): Option<Sighting> {
    if ss == [] then None
    else
      var s := ss[|ss| - 1];
      if DashKeyOf(s) == key && s.agent.revoked == revoked then Some(s) else LastSeen(ss[..|ss| - 1], key, revoked)
  }

  /** Whatever the order of the agents: the last live sighting of a key, or failing any the last
      revoked one. */
  lemma {:induction false} IndexPrefersTheLiving(ss: seq<Sighting>, key: string)
    ensures SightingAt(DashboardIndex(ss), key)
            == if LastSeen(ss, key, false).Some? then LastSeen(ss, key, false) else LastSeen(ss, key, true)
    ensures LastSeen(ss, key, false).Some? ==> !LastSeen(ss, key, false).value.agent.revoked
    ensures LastSeen(ss, key, true).Some? ==> LastSeen(ss, key, true).value.agent.revoked
  {
    if ss != [] { IndexPrefersTheLiving(ss[..|ss| - 1], key); }
  }

  /** By place: the sighting held under a key is of that host and VM up to case, it is the last such by an
      agent no more and no less revoked, and it is by a live agent if any such is. */
  lemma DashboardIndexIs(ss: seq<Sighting>, key: string) returns (k: nat)
    requires key in DashboardIndex(ss)
    ensures k < |ss| && DashboardIndex(ss)[key] == ss[k] && Fold(ss[k].host + ":" + ss[k].domain.name) == key
    ensures forall i | 0 <= i < |ss| && Fold(ss[i].host + ":" + ss[i].domain.name) == key ::
              if ss[i].agent.revoked == ss[k].agent.revoked then i <= k else ss[i].agent.revoked
  {
    IndexPrefersTheLiving(ss, key);
    if LastSeen(ss, key, false).Some? {
      k := LastSeenIs(ss, key, false);
    } else {
      k := LastSeenIs(ss, key, true);
      forall i | 0 <= i < |ss| && Fold(ss[i].host + ":" + ss[i].domain.name) == key ensures ss[i].agent.revoked {
        if !ss[i].agent.revoked { SeenIsLastSeen(ss, ss[i]); }
      }
    }
  }

  lemma {:induction false} LastSeenIs(ss: seq<Sighting>, key: string, revoked: bool) returns (k: nat)
    requires LastSeen(ss, key, revoked).Some?
    ensures k < |ss| && LastSeen(ss, key, revoked) == Some(ss[k])
    ensures DashKeyOf(ss[k]) == key && ss[k].agent.revoked == revoked
    ensures forall i | k < i < |ss| :: !(DashKeyOf(ss[i]) == key && ss[i].agent.revoked == revoked)
  {
    var n := |ss| - 1;
    if DashKeyOf(ss[n]) == key && ss[n].agent.revoked == revoked {
      k := n;
    } else {
      k := LastSeenIs(ss[..n], key, revoked);
    }
  }

  /** No two live, and no two revoked, sightings of one key. */
  ghost predicate OneReporter(ss: seq<Sighting>) {
    forall i, j | 0 <= i < j < |ss| ::
      !(DashKeyOf(ss[i]) == DashKeyOf(ss[j]) && ss[i].agent.revoked == ss[j].agent.revoked)
  }

  lemma {:induction false} LastSeenIsTheOne(ss: seq<Sighting>, s: Sighting)
    requires OneReporter(ss) && s in ss
    ensures LastSeen(ss, DashKeyOf(s), s.agent.revoked) == Some(s)
  {
    var n := |ss| - 1;
    if ss[n] != s {
      var i :| 0 <= i < |ss| && ss[i] == s;
      assert ss[..n][i] == s;
      LastSeenIsTheOne(ss[..n], s);
    }
  }

  lemma {:induction false} LastSeenIsSeen(ss: seq<Sighting>, key: string, revoked: bool)
    requires LastSeen(ss, key, revoked).Some?
    ensures LastSeen(ss, key, revoked).value in ss
    ensures DashKeyOf(LastSeen(ss, key, revoked).value) == key
    ensures LastSeen(ss, key, revoked).value.agent.revoked == revoked
  {
    var n := |ss| - 1;
    if !(DashKeyOf(ss[n]) == key && ss[n].agent.revoked == revoked) { LastSeenIsSeen(ss[..n], key, revoked); }
  }

  lemma IndexHolds(ss: seq<Sighting>, key: string)
    ensures key in DashboardIndex(ss) <==> exists s :: s in ss && DashKeyOf(s) == key
    ensures key in DashboardIndex(ss) ==> DashboardIndex(ss)[key] in ss && DashKeyOf(DashboardIndex(ss)[key]) == key
  {
    IndexPrefersTheLiving(ss, key);
    if SightingAt(DashboardIndex(ss), key).Some? {
      LastSeenIsSeen(ss, key, LastSeen(ss, key, false).None?);
    } else {
      forall s | s in ss && DashKeyOf(s) == key ensures false { SeenIsLastSeen(ss, s); }
    }
  }

  lemma {:induction false} SeenIsLastSeen(ss: seq<Sighting>, s: Sighting)
    requires s in ss
    ensures LastSeen(ss, DashKeyOf(s), s.agent.revoked).Some?
  {
    var n := |ss| - 1;
    if ss[n] != s {
      assert s in ss[..n];
      SeenIsLastSeen(ss[..n], s);
    }
  }

  // ----- order of the agents -----

  lemma OneMoreSighted(agents: seq<Agent>, a: Agent, reports: map<string, Report>, withRevoked: bool)
    ensures Sightings(agents + [a], reports, withRevoked)
            == Sightings(agents, reports, withRevoked) + FromAgent(a, reports, withRevoked)
  {
    assert (agents + [a])[..|agents|] == agents;
  }

  lemma {:induction false} SightingsConcat(a: seq<Agent>, b: seq<Agent>, reports: map<string, Report>,
                                           withRevoked: bool)
    ensures Sightings(a + b, reports, withRevoked)
            == Sightings(a, reports, withRevoked) + Sightings(b, reports, withRevoked)
  {
    if b == [] {
      assert a + b == a;
    } else {
      var init, last := b[..|b| - 1], b[|b| - 1];
      assert a + b == (a + init) + [last];
      SightingsConcat(a, init, reports, withRevoked);
      OneMoreSighted(a + init, last, reports, withRevoked);
      OneMoreSighted(init, last, reports, withRevoked);
      assert init + [last] == b;
      Regroup(Sightings(a, reports, withRevoked), Sightings(init, reports, withRevoked),
              FromAgent(last, reports, withRevoked));
    }
  }

  /** Where an agent stands in the list makes no difference to what is sighted. */
  lemma OneAgentAside(p: seq<Agent>, x: Agent, q: seq<Agent>, reports: map<string, Report>, withRevoked: bool)
    ensures multiset(Sightings(p + ([x] + q), reports, withRevoked))
            == multiset(Sightings(p + q, reports, withRevoked)) + multiset(FromAgent(x, reports, withRevoked))
  {
    SightingsConcat(p, q, reports, withRevoked);
    SightingsConcat(p, [x] + q, reports, withRevoked);
    SightingsConcat([x], q, reports, withRevoked);
    assert [x][..0] == [];
    assert Sightings([x], reports, withRevoked) == [] + FromAgent(x, reports, withRevoked);
  }

  /** The last agent of one list is somewhere in any arrangement of it. */
  lemma LastIsThere(a: seq<Agent>, b: seq<Agent>) returns (p: seq<Agent>, q: seq<Agent>)
    requires multiset(a) == multiset(b) && a != []
    ensures b == p + ([a[|a| - 1]] + q) && multiset(a[..|a| - 1]) == multiset(p + q)
  {
    var n := |a| - 1;
    assert a[n] in multiset(b);
    var j :| 0 <= j < |b| && b[j] == a[n];
    p, q := b[..j], b[j + 1..];
    RemovingAt(a, n);
    RemovingAt(b, j);
    assert a[..n] + a[n + 1..] == a[..n];
  }

  lemma {:induction false} SightingsPermute(a: seq<Agent>, b: seq<Agent>, reports: map<string, Report>,
                                            withRevoked: bool)
    requires multiset(a) == multiset(b)
    ensures multiset(Sightings(a, reports, withRevoked)) == multiset(Sightings(b, reports, withRevoked))
    decreases |a|
  {
    if a == [] {
      assert |multiset(b)| == 0;
    } else {
      var p, q := LastIsThere(a, b);
      SightingsPermute(a[..|a| - 1], p + q, reports, withRevoked);
      OneAgentAside(p, a[|a| - 1], q, reports, withRevoked);
    }
  }

  lemma OneReporterPermutes(s: seq<Sighting>, t: seq<Sighting>)
    requires OneReporter(s) && multiset(s) == multiset(t)
    ensures OneReporter(t)
  {
    SameElements(s, t);
    forall i, j | 0 <= i < j < |t|
      ensures !(DashKeyOf(t[i]) == DashKeyOf(t[j]) && t[i].agent.revoked == t[j].agent.revoked)
    {
      if t[i] == t[j] {
        TwiceInMultiset(t, i, j);
        TwoOccurrences(s, t[i]);
      } else {
        assert t[i] in s && t[j] in s;
      }
    }
  }

  /** With one live and one revoked reporter per key at most, every order of the agents builds the
      same index. */
  lemma IndexIgnoresOrder(a: seq<Agent>, b: seq<Agent>, reports: map<string, Report>)
    requires multiset(a) == multiset(b)
    requires OneReporter(Sightings(a, reports, true))
    ensures DashboardIndex(Sightings(a, reports, true)) == DashboardIndex(Sightings(b, reports, true))
  {
    var s, t := Sightings(a, reports, true), Sightings(b, reports, true);
    SightingsPermute(a, b, reports, true);
    OneReporterPermutes(s, t);
    SameElements(s, t);
    forall key ensures SightingAt(DashboardIndex(s), key) == SightingAt(DashboardIndex(t), key) {
      IndexPrefersTheLiving(s, key);
      IndexPrefersTheLiving(t, key);
      forall revoked: bool ensures LastSeen(s, key, revoked) == LastSeen(t, key, revoked) {
        if LastSeen(s, key, revoked).Some? {
          LastSeenIsSeen(s, key, revoked);
          LastSeenIsTheOne(t, LastSeen(s, key, revoked).value);
        } else if LastSeen(t, key, revoked).Some? {
          LastSeenIsSeen(t, key, revoked);
          LastSeenIsTheOne(s, LastSeen(t, key, revoked).value);
        }
      }
    }
    forall key ensures key in DashboardIndex(s) <==> key in DashboardIndex(t) {
      assert SightingAt(DashboardIndex(s), key) == SightingAt(DashboardIndex(t), key);
    }
    forall key | key in DashboardIndex(s) ensures DashboardIndex(s)[key] == DashboardIndex(t)[key] {
      assert SightingAt(DashboardIndex(s), key) == SightingAt(DashboardIndex(t), key);
    }
  }
}
