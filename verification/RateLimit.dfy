/** The lockout limiter for failed remote logins (src/app/rate_limit.rs). */
module RateLimit {
  import opened Numbers
  import opened Wrappers
  import opened Powers

  type Peer = string

  /** Nanoseconds on the monotonic clock. */
  type Time = nat

  const SECOND: nat := 1_000_000_000
  const FREE_FAILURES: nat := 5
  const BASE_LOCKOUT: nat := 30 * SECOND
  const MAX_LOCKOUT: nat := 3600 * SECOND
  const STALE_AFTER: nat := 7200 * SECOND
  const PRUNE_INTERVAL: nat := 60 * SECOND
  const MOST_FAILURES: nat := 0xFFFF_FFFF

  datatype PeerFailures = PeerFailures(failures: nat, lockedUntil: Option<Time>, lastSeen: Time)

  datatype Limiter = Limiter(peers: map<Peer, PeerFailures>, lastPrune: Time)

  /** The time since an earlier instant, zero if it is later. */
  function Since(now: Time, earlier: Time): Time {
    if now >= earlier then now - earlier else 0
  }

  function Remaining(l: Limiter, peer: Peer, now: Time): Option<Time> {
    if peer in l.peers && l.peers[peer].lockedUntil.Some? && l.peers[peer].lockedUntil.value > now
    then Some(l.peers[peer].lockedUntil.value - now)
    else None
  }

  predicate Retained(e: PeerFailures, now: Time) {
    Since(now, e.lastSeen) < STALE_AFTER || (e.lockedUntil.Some? && e.lockedUntil.value > now)
  }

  function PruneStep(l: Limiter, now: Time): Limiter {
    if Since(now, l.lastPrune) < PRUNE_INTERVAL then l
    else Limiter(map peer | peer in l.peers && Retained(l.peers[peer], now) :: l.peers[peer], now)
  }

  /** The lockout after a failure, as the code shifts it. */
  function LockoutFor(failures: nat): nat
    requires failures > FREE_FAILURES
  {
    Lesser(BASE_LOCKOUT * Pow2(Lesser(failures - FREE_FAILURES - 1, 31)), MAX_LOCKOUT)
  }

  function Triggered(failures: nat): Option<nat> {
    if failures <= FREE_FAILURES then None else Some(LockoutFor(failures))
  }

  /** One more failure of a peer at a time. */
  function Failed(before: PeerFailures, now: Time): PeerFailures {
    var failures := Lesser(before.failures + 1, MOST_FAILURES);
    PeerFailures(failures, if Triggered(failures).Some? then Some(now + Triggered(failures).value) else before.lockedUntil,
                 now)
  }

  function Entry(l: Limiter, peer: Peer, now: Time): PeerFailures {
    if peer in l.peers then l.peers[peer] else PeerFailures(0, None, now)
  }

  function FailureStep(l: Limiter, peer: Peer, now: Time): Limiter {
    var pruned := PruneStep(l, now);
    pruned.(peers := pruned.peers[peer := Failed(Entry(pruned, peer, now), now)])
  }

  function SuccessStep(l: Limiter, peer: Peer): Limiter {
    l.(peers := l.peers - {peer})
  }

  // ----- The limiter object -----

  class AuthRateLimiter {
    var peers: map<Peer, PeerFailures>
    var lastPrune: Time

    function Value(): Limiter
      reads this
    {
      Limiter(peers, lastPrune)
    }

    constructor (now: Time)
      ensures Value() == Limiter(map[], now)
    {
      peers, lastPrune := map[], now;
    }

    method LockoutRemainingAt(peer: Peer, now: Time) returns (r: Option<Time>)
      ensures r == Remaining(Value(), peer, now)
      ensures r.Some? ==> r.value > 0
    {
      r := None;
      if peer in peers && peers[peer].lockedUntil.Some? {
        var until := peers[peer].lockedUntil.value;
        if until >= now && until - now != 0 {
          r := Some(until - now);
        }
      }
    }

    /** Forgetting idle peers changes no remaining lockout, at this time or later. */
    method MaybePrune(now: Time)
      modifies this
      ensures Value() == PruneStep(old(Value()), now)
      ensures forall peer: Peer, later: Time | later >= now ::
        Remaining(Value(), peer, later) == Remaining(old(Value()), peer, later)
    {
      if Since(now, lastPrune) < PRUNE_INTERVAL {
        return;
      }
      lastPrune := now;
      peers := map peer | peer in peers && Retained(peers[peer], now) :: peers[peer];
    }

    method RecordFailureAt(peer: Peer, now: Time) returns (lockout: Option<nat>)
      modifies this
      ensures Value() == FailureStep(old(Value()), peer, now)
      ensures lockout == Triggered(peers[peer].failures)
      ensures lockout.Some? ==> Remaining(Value(), peer, now) == lockout
    {
      hide PruneStep, Retained;
      MaybePrune(now);
      var entry := if peer in peers then peers[peer] else PeerFailures(0, None, now);
      var failures := if entry.failures + 1 <= MOST_FAILURES then entry.failures + 1 else MOST_FAILURES;
      entry := entry.(failures := failures, lastSeen := now);
      if failures <= FREE_FAILURES {
        peers := peers[peer := entry];
        return None;
      }
      var exponent := Lesser(failures - FREE_FAILURES - 1, 31);
      var length := Lesser(BASE_LOCKOUT * Pow2(exponent), MAX_LOCKOUT);
      peers := peers[peer := entry.(lockedUntil := Some(now + length))];
      LockoutIsLong(failures);
      lockout := Some(length);
    }

    method RecordSuccess(peer: Peer)
      modifies this
      ensures Value() == SuccessStep(old(Value()), peer)
      ensures forall now: Time :: Remaining(Value(), peer, now) == None
    {
      peers := peers - {peer};
    }
  }

  // ----- How long the lockouts are -----

  lemma LockoutIsLong(failures: nat)
    requires failures > FREE_FAILURES
    ensures LockoutFor(failures) >= BASE_LOCKOUT
  {
  }

  lemma {:induction false} PowAtLeast(k: nat)
    requires k >= 7
    ensures Pow2(k) >= 128
  {
    if k > 7 {
      PowAtLeast(k - 1);
    } else {
      assert Pow2(7) == 2 * Pow2(6) == 4 * Pow2(5) == 8 * Pow2(4) == 16 * Pow2(3) == 32 * Pow2(2) == 64 * Pow2(1);
    }
  }

  /** The capped shift computes 30 * 2^(n-6) seconds, at most an hour, for every count. */
  lemma LockoutLaw(n: nat)
    requires n > FREE_FAILURES
    ensures LockoutFor(n) == Lesser(BASE_LOCKOUT * Pow2(n - 6), MAX_LOCKOUT)
    ensures n >= 13 ==> LockoutFor(n) == MAX_LOCKOUT
  {
    if n >= 13 {
      PowAtLeast(n - 6);
      PowAtLeast(Lesser(n - 6, 31));
    }
  }

  /** What the n-th failure costs. */
  function Cost(n: nat): nat {
    if n <= FREE_FAILURES then 0 else LockoutFor(n)
  }

  /** What the first n failures cost. */
  function TotalCost(n: nat): nat {
    if n == 0 then 0 else TotalCost(n - 1) + Cost(n)
  }

  /** 30 + 60 + ... + 1920 seconds for the seven doublings, then an hour each. */
  lemma {:induction false} TotalCostLaw(n: nat)
    requires n >= 12
    ensures TotalCost(n) == 3810 * SECOND + (n - 12) * MAX_LOCKOUT
  {
    if n > 12 {
      TotalCostLaw(n - 1);
      LockoutLaw(n);
    } else {
      FirstCosts();
    }
  }

  lemma FirstCosts()
    ensures TotalCost(12) == 3810 * SECOND
  {
    assert TotalCost(5) == 0 by {
      assert TotalCost(3) == 0;
    }
    assert Pow2(3) == 8;
    assert Pow2(6) == 64;
    assert TotalCost(8) == 210 * SECOND by {
      assert TotalCost(6) == 30 * SECOND;
    }
    assert TotalCost(10) == 930 * SECOND;
  }

  // ----- Runs -----

  datatype Event = Failure(peer: Peer, at: Time) | Success(peer: Peer, at: Time)

  function Step(l: Limiter, e: Event): Limiter {
    match e
    case Failure(peer, at) => FailureStep(l, peer, at)
    case Success(peer, _) => SuccessStep(l, peer)
  }

  function After(l: Limiter, events: seq<Event>): Limiter {
    if events == [] then l else Step(After(l, events[..|events| - 1]), events[|events| - 1])
  }

  /** When the peer failed. */
  function Failures(events: seq<Event>, peer: Peer): seq<Time> {
    if events == [] then []
    else
      var e := events[|events| - 1];
      Failures(events[..|events| - 1], peer) + if e.Failure? && e.peer == peer then [e.at] else []
  }

  /** Any peers may fail and succeed, in order of time; this one does not succeed, is never idle for two hours
      once it has failed, and fails only when it is not locked out. */
  predicate Admitted(l: Limiter, events: seq<Event>, peer: Peer) {
    events == [] ||
    (var k := |events| - 1;
     var e, before, times := events[k], After(l, events[..k]), Failures(events[..k], peer);
     && Admitted(l, events[..k], peer)
     && (k > 0 ==> e.at >= events[k - 1].at)
     && (times != [] ==> e.at < times[|times| - 1] + STALE_AFTER)
     && !(e.Success? && e.peer == peer)
     && (e.Failure? && e.peer == peer ==> Remaining(before, peer, e.at) == None))
  }

  /** The limiter remembers exactly these failures of the peer. */
  predicate Tracks(l: Limiter, peer: Peer, times: seq<Time>) {
    if times == [] then peer !in l.peers
    else
      var last := times[|times| - 1];
      var failures := Lesser(|times|, MOST_FAILURES);
      peer in l.peers && l.peers[peer] ==
        PeerFailures(failures, if failures <= FREE_FAILURES then None else Some(last + LockoutFor(failures)), last)
  }

  /** Each failure waited out the lockout of the one before. */
  predicate Spaced(times: seq<Time>) {
    forall i | 0 <= i < |times| - 1 :: times[i + 1] >= times[i] + Cost(i + 1)
  }

  lemma SaturationIsHarmless(n: nat)
    requires n > FREE_FAILURES
    ensures LockoutFor(Lesser(n, MOST_FAILURES)) == LockoutFor(n)
  {
    hide LockoutFor;
    if n > MOST_FAILURES {
      LockoutLaw(n);
      LockoutLaw(MOST_FAILURES);
    }
  }

  lemma {:induction false} LastFailureIsEarlier(l: Limiter, events: seq<Event>, peer: Peer)
    requires Admitted(l, events, peer)
    ensures var times := Failures(events, peer);
      times != [] ==> events != [] && times[|times| - 1] <= events[|events| - 1].at
  {
    if events != [] {
      LastFailureIsEarlier(l, events[..|events| - 1], peer);
    }
  }

  /** Whatever else happens, a peer that keeps failing is tracked, and it waits out every lockout. */
  lemma {:induction false} FailuresAreTracked(l: Limiter, events: seq<Event>, peer: Peer)
    requires peer !in l.peers && Admitted(l, events, peer)
    ensures Tracks(After(l, events), peer, Failures(events, peer)) && Spaced(Failures(events, peer))
  {
    if events != [] {
      var k := |events| - 1;
      var e, before, times := events[k], After(l, events[..k]), Failures(events[..k], peer);
      FailuresAreTracked(l, events[..k], peer);
      LastFailureIsEarlier(l, events[..k], peer);
      hide LockoutFor, Spaced;
      if e.Failure? && e.peer == peer {
        NextFailure(before, peer, times, e.at);
      } else {
        OtherEvent(before, peer, times, e);
      }
    }
  }

  lemma OtherEvent(l: Limiter, peer: Peer, times: seq<Time>, e: Event)
    requires Tracks(l, peer, times) && e.peer != peer
    requires times != [] ==> times[|times| - 1] <= e.at < times[|times| - 1] + STALE_AFTER
    ensures Tracks(Step(l, e), peer, times)
  {
    hide LockoutFor;
  }

  lemma NextFailure(l: Limiter, peer: Peer, times: seq<Time>, now: Time)
    requires Tracks(l, peer, times) && Spaced(times) && Remaining(l, peer, now) == None
    requires times != [] ==> times[|times| - 1] <= now < times[|times| - 1] + STALE_AFTER
    ensures Tracks(FailureStep(l, peer, now), peer, times + [now]) && Spaced(times + [now])
  {
    hide LockoutFor;
    var n := |times|;
    if n > FREE_FAILURES {
      SaturationIsHarmless(n);
    }
    var longer := times + [now];
    forall i | 0 <= i < |longer| - 1 ensures longer[i + 1] >= longer[i] + Cost(i + 1) {
      assert i < n - 1 ==> times[i + 1] >= times[i] + Cost(i + 1);
    }
  }

  /** The n-th failure triggers min(30 * 2^(n-6), 3600) seconds from the sixth on, and nothing before. */
  lemma NextLockout(l: Limiter, peer: Peer, times: seq<Time>, now: Time)
    requires Tracks(l, peer, times)
    requires times != [] ==> times[|times| - 1] <= now < times[|times| - 1] + STALE_AFTER
    ensures var n := |times| + 1;
      Triggered(FailureStep(l, peer, now).peers[peer].failures) ==
      if n < 6 then None else Some(Lesser(BASE_LOCKOUT * Pow2(n - 6), MAX_LOCKOUT))
  {
    hide LockoutFor;
    var n := |times| + 1;
    if n > FREE_FAILURES {
      SaturationIsHarmless(n);
      LockoutLaw(n);
    }
  }

  /** Reaching the last failure takes at least all the lockouts before it. */
  lemma {:induction false} GuessingIsSlow(times: seq<Time>)
    requires Spaced(times) && times != []
    ensures times[|times| - 1] - times[0] >= TotalCost(|times| - 1)
  {
    hide LockoutFor;
    if |times| > 1 {
      var k := |times| - 1;
      var fewer := times[..k];
      assert Spaced(fewer);
      GuessingIsSlow(fewer);
      assert times[k - 1 + 1] >= times[k - 1] + Cost(k);
    }
  }

  /** For every admitted run: n failures take at least an hour each from the thirteenth on. */
  lemma ManyFailuresTakeHours(l: Limiter, events: seq<Event>, peer: Peer)
    requires peer !in l.peers && Admitted(l, events, peer) && |Failures(events, peer)| > 12
    ensures var times := Failures(events, peer);
      times[|times| - 1] - times[0] >= 3810 * SECOND + (|times| - 13) * MAX_LOCKOUT
  {
    FailuresAreTracked(l, events, peer);
    var times := Failures(events, peer);
    GuessingIsSlow(times);
    TotalCostLaw(|times| - 1);
  }

  // ----- What is forgotten -----

  /** Every remembered peer failed less than two hours before the last pruning, or since; none is locked for longer
      than an hour from its last failure. */
  predicate Fresh(l: Limiter, latest: Time) {
    forall peer | peer in l.peers ::
      && l.peers[peer].lastSeen <= latest
      && l.peers[peer].lastSeen + 7200 * SECOND > l.lastPrune
      && (l.peers[peer].lockedUntil.Some? ==> l.peers[peer].lockedUntil.value <= l.peers[peer].lastSeen + 3600 * SECOND)
  }

  /** Events in order of time, the first not before a given one. */
  predicate Ordered(from: Time, events: seq<Event>) {
    && (forall i | 0 <= i < |events| :: events[i].at >= from)
    && forall i, j | 0 <= i < j < |events| :: events[i].at <= events[j].at
  }

  lemma StepKeepsFresh(l: Limiter, latest: Time, e: Event)
    requires Fresh(l, latest) && e.at >= l.lastPrune && e.at >= latest
    ensures Fresh(Step(l, e), e.at) && Step(l, e).lastPrune <= e.at
    ensures e.Failure? ==> e.at < Step(l, e).lastPrune + 60 * SECOND
  {
    hide Triggered;
    if e.Failure? {
      var pruned := PruneStep(l, e.at);
      assert Fresh(pruned, latest);
      var before := Entry(pruned, e.peer, e.at);
      ShortLockouts(before, e.at);
    }
  }

  lemma ShortLockouts(before: PeerFailures, now: Time)
    requires before.lockedUntil.Some? ==> before.lockedUntil.value <= now + 3600 * SECOND
    ensures var after := Failed(before, now);
      after.lockedUntil.Some? ==> after.lockedUntil.value <= now + 3600 * SECOND
    ensures Failed(before, now).lastSeen == now
  {
    hide Pow2;
  }

  /** After any run that ends with a failure, only peers that failed within the last two hours and one minute are
      remembered. */
  lemma {:induction false} IdlePeersAreForgotten(start: Time, events: seq<Event>)
    requires Ordered(start, events)
    ensures var l := After(Limiter(map[], start), events);
      && Fresh(l, if events == [] then start else events[|events| - 1].at) && l.lastPrune >= start && (events != [] ==> l.lastPrune <= events[|events| - 1].at)
      && (events == [] ==> l.lastPrune == start)
      && (events != [] && events[|events| - 1].Failure? ==>
            forall peer | peer in l.peers :: events[|events| - 1].at < l.peers[peer].lastSeen + 7260 * SECOND)
  {
    if events != [] {
      var k := |events| - 1;
      IdlePeersAreForgotten(start, events[..k]);
      var before := After(Limiter(map[], start), events[..k]);
      assert k > 0 ==> events[k - 1].at <= events[k].at;
      StepKeepsFresh(before, if k == 0 then start else events[k - 1].at, events[k]);
      PruneIsLater(before, events[k]);
      hide Step;
    }
  }

  lemma PruneIsLater(l: Limiter, e: Event)
    requires e.at >= l.lastPrune
    ensures Step(l, e).lastPrune >= l.lastPrune
  {
    hide Retained, Failed;
  }
}
