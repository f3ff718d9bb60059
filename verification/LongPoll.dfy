/** The bounded long poll: a configuration request held open until there is something new to say
    or its wait is over. Durations and instants are nanoseconds. */
module LongPoll {
  import opened Text

  const SECOND := 1_000_000_000
  const MAX_POLL_WAIT := 300 * SECOND
  const TWO_63 := 0x8000_0000_0000_0000
  const TWO_64 := 0x1_0000_0000_0000_0000

  /** What multiplying 64-bit durations leaves: the product modulo 2 to the 64, signed. */
  function Wrap64(n: int): int { (n + TWO_63) % TWO_64 - TWO_63 }

  /** The wait a request is granted for the number of seconds it asked for. */
  function EffectiveWait(asked: Option<int>): (wait: int)
    ensures wait <= MAX_POLL_WAIT
    ensures asked.Some? && 0 <= asked.value <= 300 ==> wait == asked.value * SECOND
    ensures asked.None? || asked.value <= 0 ==> wait == 0
    ensures asked.Some? && 300 < asked.value && asked.value * SECOND < TWO_63 ==> wait == MAX_POLL_WAIT
    ensures asked.Some? && asked.value > 0 ==> wait <= asked.value * SECOND
  {
    var wait := if asked.Some? && asked.value > 0 then Wrap64(asked.value * SECOND) else 0;
    if wait > MAX_POLL_WAIT then MAX_POLL_WAIT else wait
  }

  function MinDuration(a: int, b: int): int { if a < b then a else if b < 0 then 0 else b }

  datatype Reply =
    | Changed(tag: string)      // 200 with the configuration
    | NotModified(tag: string)  // 304
    | Failed                    // the configuration could not be read
    | Abandoned                 // the agent hung up

  /** A clock read for the deadline check and for the sleep of each round. It never runs backwards,
      and a sleep lasts at least as long as it was asked to. */
  ghost predicate OrderlyRound(k: nat, check: nat -> int, until: nat -> int, interval: int, deadline: int) {
    check(k) <= until(k) && until(k) + MinDuration(interval, deadline - until(k)) <= check(k + 1)
  }

  ghost predicate Orderly(start: int, check: nat -> int, until: nat -> int, interval: int, deadline: int) {
    start <= check(0) && forall k: nat :: OrderlyRound(k, check, until, interval, deadline)
  }

  /** How many sleeps of an interval fit before so much time has passed. */
  ghost function Sleeps(left: int, interval: int): (n: nat)
    requires interval > 0
    decreases if left < 0 then 0 else left
  {
    if left <= 0 then 0 else 1 + Sleeps(left - interval, interval)
  }

  lemma {:induction false} FewerSleeps(less: int, left: int, interval: int)
    requires interval > 0 && less <= left
    ensures Sleeps(less, interval) <= Sleeps(left, interval)
    decreases if left < 0 then 0 else left
  {
    if less > 0 { FewerSleeps(less - interval, left - interval, interval); }
  }

  /** All but the last of them are whole intervals within that time. */
  lemma {:induction false} SleepsAreFew(left: int, interval: int)
    requires interval > 0
    ensures Sleeps(left, interval) <= 1 || (Sleeps(left, interval) - 1) * interval < left
    decreases if left < 0 then 0 else left
  {
    if left > 0 {
      SleepsAreFew(left - interval, interval);
      var n := Sleeps(left - interval, interval);
      assert n * interval == (n - 1) * interval + interval;
    }
  }

  /** About as many rounds as intervals fit in the wait: all but two of them fill less than it. */
  predicate FewRounds(rounds: nat, interval: int, wait: int) {
    rounds <= 2 || (rounds - 2) * interval < wait
  }

  lemma RoundsAreFew(rounds: nat, interval: int, wait: int)
    requires interval > 0 && rounds <= Sleeps(wait, interval) + 1
    ensures FewRounds(rounds, interval, wait)
  {
    SleepsAreFew(wait, interval);
    var n := Sleeps(wait, interval);
    if 2 < rounds { assert (rounds - 2) * interval <= (n - 1) * interval; }
  }

  function PollEvery(interval: int): int { if interval <= 0 then SECOND else interval }

  /** What an answer after so many rounds has to be: a configuration only when its tag differs from
      the one the agent has, at the first round where one does; nothing new only at or after the
      deadline; and never anything but the same tag, before the deadline, in the rounds before. */
  ghost predicate Answers(reply: Reply, rounds: nat, known: string, deadline: int,
                          check: nat -> int, tag: nat -> Option<string>, gone: nat -> bool)
    requires rounds >= 1
  {
    var last := rounds - 1;
    && (forall k | 0 <= k < last :: tag(k) == Some(known) && !gone(k) && check(k) < deadline)
    && match reply
       case Changed(t) => t != known && tag(last) == Some(t)
       case NotModified(t) => t == known && tag(last) == Some(t) && check(last) >= deadline
       case Failed => tag(last) == None
       case Abandoned => tag(last) == Some(known) && check(last) < deadline && gone(last)
  }

  method Hold(wait: int, known: string, interval: int, start: int,
              check: nat -> int, until: nat -> int, tag: nat -> Option<string>, gone: nat -> bool)
    returns (reply: Reply, rounds: nat)
    requires interval > 0 && Orderly(start, check, until, interval, start + wait)
    ensures 1 <= rounds <= Sleeps(wait, interval) + 1
    ensures Answers(reply, rounds, known, start + wait, check, tag, gone)
  {
    var deadline := start + wait;
    rounds := 0;
    ghost var bound := Sleeps(wait, interval) + 1;
    FewerSleeps(deadline - check(0), wait, interval);
    while true
      invariant rounds + 1 + Sleeps(deadline - check(rounds), interval) <= bound
      invariant forall k | 0 <= k < rounds :: tag(k) == Some(known) && !gone(k) && check(k) < deadline
      decreases bound - rounds
    {
      var k := rounds;
      rounds := rounds + 1;
      var current := tag(k);
      if current == None {
        return Failed, rounds;
      }
      if current.value != known {
        return Changed(current.value), rounds;
      }
      if !(check(k) < deadline) {
        return NotModified(current.value), rounds;
      }
      if gone(k) {
        return Abandoned, rounds;
      }
      assert OrderlyRound(k, check, until, interval, deadline);
      if check(k + 1) < deadline {
        FewerSleeps(deadline - check(k + 1), deadline - check(k) - interval, interval);
      }
    }
  }

  /** Holds a request. Whatever was asked for, 64-bit wrap-around included, it is held for no longer
      than five minutes and looked at in a bounded number of rounds. */
  method HandleConfig(asked: Option<int>, known: string, pollInterval: int, start: int,
                      check: nat -> int, until: nat -> int, tag: nat -> Option<string>, gone: nat -> bool)
    returns (reply: Reply, rounds: nat)
    requires Orderly(start, check, until, PollEvery(pollInterval), start + EffectiveWait(asked))
    ensures rounds >= 1 && FewRounds(rounds, PollEvery(pollInterval), EffectiveWait(asked))
    ensures Answers(reply, rounds, known, start + EffectiveWait(asked), check, tag, gone)
    ensures EffectiveWait(asked) <= MAX_POLL_WAIT
  {
    var wait := 0;
    if asked.Some? && asked.value > 0 {
      wait := Wrap64(asked.value * SECOND);
    }
    if wait > MAX_POLL_WAIT {
      wait := MAX_POLL_WAIT;
    }
    assert wait == EffectiveWait(asked);
    var interval := pollInterval;
    if interval <= 0 {
      interval := SECOND;
    }
    reply, rounds := Hold(wait, known, interval, start, check, until, tag, gone);
    RoundsAreFew(rounds, interval, wait);
  }

  /** The wrap-around is real, and harmless: a wait too large for 64 bits is granted as less. */
  lemma HugeWaitsWrap()
    ensures EffectiveWait(Some(9_223_372_037)) < 0
    ensures EffectiveWait(Some(9_223_372_036)) == MAX_POLL_WAIT
  {}
}
