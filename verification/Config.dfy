/** The configuration handed to an agent: which parts of it could depend on the order a map was
    ranged over, and when they do not. */
module Config {
  import opened Text
  import opened Sorting
  import opened Records
  import opened Schedules

  type Cadence = map<string, int>

  predicate Paces(e: ScheduleEntry) { e.enabled && e.intervalSeconds > 0 }

  function WithEntries(m: Cadence, entries: seq<ScheduleEntry>): Cadence {
    if entries == [] then m
    else
      var n := |entries| - 1;
      var before := WithEntries(m, entries[..n]);
      if Paces(entries[n]) then before[entries[n].vm := entries[n].intervalSeconds] else before
  }

  /** The cadence map after ranging over these agents in this order. */
  function CadenceAlong(sched: Estate, order: seq<string>): Cadence {
    if order == [] then map[]
    else WithEntries(CadenceAlong(sched, order[..|order| - 1]), ListOf(sched, order[|order| - 1]))
  }

  /** The interval one agent's list sets for a VM: its last enabled entry with a positive one. */
  function Interval(entries: seq<ScheduleEntry>, vm: string): Option<int> {
    if entries == [] then None
    else if Paces(entries[|entries| - 1]) && entries[|entries| - 1].vm == vm then
      Some(entries[|entries| - 1].intervalSeconds)
    else Interval(entries[..|entries| - 1], vm)
  }

  function Get(m: Cadence, vm: string): Option<int> { if vm in m then Some(m[vm]) else None }

  lemma {:induction false} EntriesDecide(m: Cadence, entries: seq<ScheduleEntry>, vm: string)
    ensures Get(WithEntries(m, entries), vm)
            == if Interval(entries, vm).Some? then Interval(entries, vm) else Get(m, vm)
  {
    if entries != [] { EntriesDecide(m, entries[..|entries| - 1], vm); }
  }

  /** A VM's cadence is the one set by some agent that was ranged over, and absent only when
      none of them set one. */
  lemma {:induction false} SomeAgentDecides(sched: Estate, order: seq<string>, vm: string)
    ensures Get(CadenceAlong(sched, order), vm).Some? ==>
              exists a :: a in order && Interval(ListOf(sched, a), vm) == Get(CadenceAlong(sched, order), vm)
    ensures Get(CadenceAlong(sched, order), vm).None? ==>
              forall a | a in order :: Interval(ListOf(sched, a), vm).None?
  {
    if order != [] {
      var n := |order| - 1;
      SomeAgentDecides(sched, order[..n], vm);
      EntriesDecide(CadenceAlong(sched, order[..n]), ListOf(sched, order[n]), vm);
      assert order == order[..n] + [order[n]];
      assert order[n] in order;
    }
  }

  /** Wherever two agents both pace a VM of one name, they pace it alike. */
  ghost predicate Agree(sched: Estate) {
    forall a, b, vm | a in sched && b in sched ::
      Interval(sched[a], vm).Some? && Interval(sched[b], vm).Some? ==> Interval(sched[a], vm) == Interval(sched[b], vm)
  }

  lemma {:induction false} ListingExists(keys: set<string>) returns (order: seq<string>)
    ensures Listing(order, keys)
  {
    if keys == {} {
      order := [];
    } else {
      var a :| a in keys;
      order := ListingExists(keys - {a});
      order := order + [a];
    }
  }

  lemma LastAgentDecides(sched: Estate, a: string, vm: string) returns (order: seq<string>)
    requires a in sched && Interval(sched[a], vm).Some?
    ensures Listing(order, sched.Keys) && Get(CadenceAlong(sched, order), vm) == Interval(sched[a], vm)
  {
    order := ListingExists(sched.Keys - {a});
    EntriesDecide(CadenceAlong(sched, order), sched[a], vm);
    assert (order + [a])[..|order|] == order;
    order := order + [a];
  }

  lemma CadencesAgree(sched: Estate, o1: seq<string>, o2: seq<string>)
    requires Agree(sched) && Listing(o1, sched.Keys) && Listing(o2, sched.Keys)
    ensures CadenceAlong(sched, o1) == CadenceAlong(sched, o2)
  {
    var m1, m2 := CadenceAlong(sched, o1), CadenceAlong(sched, o2);
    forall vm ensures Get(m1, vm) == Get(m2, vm) {
      SomeAgentDecides(sched, o1, vm);
      SomeAgentDecides(sched, o2, vm);
    }
    forall vm ensures vm in m1 <==> vm in m2 { assert Get(m1, vm) == Get(m2, vm); }
    forall vm | vm in m1 ensures m1[vm] == m2[vm] { assert Get(m1, vm) == Get(m2, vm); }
  }

  /** The cadence map is the same for every order of ranging exactly when the estate's agents
      agree on every VM they share a name for. */
  lemma CadenceIsStableIff(sched: Estate)
    ensures (forall o1, o2 | Listing(o1, sched.Keys) && Listing(o2, sched.Keys) ::
               CadenceAlong(sched, o1) == CadenceAlong(sched, o2))
            <==> Agree(sched)
  {
    if Agree(sched) {
      forall o1, o2 | Listing(o1, sched.Keys) && Listing(o2, sched.Keys)
        ensures CadenceAlong(sched, o1) == CadenceAlong(sched, o2)
      {
        CadencesAgree(sched, o1, o2);
      }
    } else {
      var a, b, vm :| a in sched && b in sched && Interval(sched[a], vm).Some? && Interval(sched[b], vm).Some?
                      && Interval(sched[a], vm) != Interval(sched[b], vm);
      var o1 := LastAgentDecides(sched, a, vm);
      var o2 := LastAgentDecides(sched, b, vm);
    }
  }

  /** What an entry has to be to set a VM's pace, and the pace it sets. */
  predicate Sets(e: ScheduleEntry, vm: string, seconds: int) {
    e.enabled && e.vm == vm && e.intervalSeconds == seconds && seconds > 0
  }

  lemma {:induction false} IntervalIs(entries: seq<ScheduleEntry>, vm: string)
    ensures Interval(entries, vm).Some? ==>
              exists k | 0 <= k < |entries| ::
                && Sets(entries[k], vm, Interval(entries, vm).value)
                && forall i | k < i < |entries| :: !Sets(entries[i], vm, entries[i].intervalSeconds)
    ensures Interval(entries, vm).None? ==>
              forall i | 0 <= i < |entries| :: !Sets(entries[i], vm, entries[i].intervalSeconds)
  {
    if entries != [] {
      var n := |entries| - 1;
      if !Sets(entries[n], vm, entries[n].intervalSeconds) {
        IntervalIs(entries[..n], vm);
        if Interval(entries, vm).Some? {
          var k :| 0 <= k < n && Sets(entries[..n][k], vm, Interval(entries, vm).value)
                   && forall i | k < i < n :: !Sets(entries[..n][i], vm, entries[..n][i].intervalSeconds);
          assert entries[..n][k] == entries[k];
          assert forall i | k < i < n :: entries[..n][i] == entries[i];
        } else {
          assert forall i | 0 <= i < n :: entries[..n][i] == entries[i];
        }
      }
    }
  }

  /** The cadence served for a VM is the interval of some enabled entry for it with a positive one, and there
      is none only when no agent has such an entry. */
  lemma CadenceIs(sched: Estate, order: seq<string>, vm: string)
    requires Listing(order, sched.Keys)
    ensures var m := CadenceAlong(sched, order);
            && (vm in m ==> exists a, e :: a in sched && e in sched[a] && Sets(e, vm, m[vm]))
            && (vm !in m ==> forall a, e | a in sched && e in sched[a] :: !Sets(e, vm, e.intervalSeconds))
  {
    var m := CadenceAlong(sched, order);
    SomeAgentDecides(sched, order, vm);
    if vm in m {
      var a :| a in order && Interval(ListOf(sched, a), vm) == Get(m, vm);
      IntervalIs(sched[a], vm);
      var k :| 0 <= k < |sched[a]| && Sets(sched[a][k], vm, m[vm]);
      assert sched[a][k] in sched[a];
    } else {
      forall a, e | a in sched && e in sched[a] ensures !Sets(e, vm, e.intervalSeconds) {
        assert a in order;
        IntervalIs(sched[a], vm);
      }
    }
  }
}
