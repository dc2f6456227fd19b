/** The sliding-window limiter of sandbox organisations (src/mock_idp/routers/hosted.py,
    _sandbox_rate_check). Times are seconds since the epoch, as real numbers. */
module RateLimit {
  import opened Wrappers

  const WINDOW := 60.0
  const LIMIT := 10

  datatype Call = Call(ip: string, now: real)

  /** `[t for t in hits if now - t < 60]` */
  function Recent(hits: seq<real>, now: real): seq<real> {
    if hits == [] then []
    else if now - hits[0] < WINDOW then [hits[0]] + Recent(hits[1..], now)
    else Recent(hits[1..], now)
  }

  type Hits = map<string, seq<real>>

  function HitsOf(h: Hits, ip: string): seq<real> {
    GetOr(h, ip, [])
  }

  /** The decision the limiter should take, from the complete list of accepted times. */
  predicate Allowed(accepted: seq<real>, now: real) {
    |Recent(accepted, now)| < LIMIT
  }

  /** The complete history: every accepted call of every address, never pruned. */
  function Record(history: Hits, c: Call): Hits {
    if Allowed(HitsOf(history, c.ip), c.now) then history[c.ip := HitsOf(history, c.ip) + [c.now]] else history
  }

  function RecordAll(history: Hits, calls: seq<Call>): Hits {
    if calls == [] then history
    else Record(RecordAll(history, calls[..|calls| - 1]), calls[|calls| - 1])
  }

  /** What one call does to the kept lists: an accepted call prunes its address's list, a refused one
      leaves it. */
  function Prune(hits: Hits, c: Call): Hits {
    var kept := Recent(HitsOf(hits, c.ip), c.now);
    if |kept| < LIMIT then hits[c.ip := kept + [c.now]] else hits
  }

  function PruneAll(hits: Hits, calls: seq<Call>): Hits {
    if calls == [] then hits else Prune(PruneAll(hits, calls[..|calls| - 1]), calls[|calls| - 1])
  }

  function Later(a: real, b: real): real {
    if a < b then b else a
  }

  class Limiter {
    var hits: Hits
    ghost var history: Hits
    ghost var latest: real

    /** The kept lists are short, never hold more recent times than the full history, and from the
        latest clock reading on hold the same. */
    ghost predicate Valid()
      reads this
    {
      forall ip :: Faithful(HitsOf(history, ip), HitsOf(hits, ip), latest)
    }

    constructor ()
      ensures Valid() && hits == map[] && history == map[] && latest == 0.0
    {
      hits := map[];
      history := map[];
      latest := 0.0;
    }

    /** Accepts or refuses one call, pruning the address's list in place on acceptance. While the clock
        does not go back the decision is the one the full history would give; whatever the clock
        does, no call is refused that the full history would allow. */
    method Check(c: Call) returns (ok: bool)
      requires Valid()
      modifies this
      ensures Valid() && latest == Later(old(latest), c.now)
      ensures hits == Prune(old(hits), c)
      ensures history == if ok then old(history)[c.ip := HitsOf(old(history), c.ip) + [c.now]] else old(history)
      ensures old(latest) <= c.now ==> ok == Allowed(HitsOf(old(history), c.ip), c.now)
      ensures Allowed(HitsOf(old(history), c.ip), c.now) ==> ok
    {
      ghost var full, before, past := history, hits, latest;
      assert Faithful(HitsOf(full, c.ip), HitsOf(before, c.ip), past);
      var kept := Recent(HitsOf(hits, c.ip), c.now);
      ok := |kept| < LIMIT;
      latest := Later(latest, c.now);
      if ok {
        PruningIsFaithful(HitsOf(history, c.ip), HitsOf(hits, c.ip), past, c.now);
        hits := hits[c.ip := kept + [c.now]];
        history := history[c.ip := HitsOf(history, c.ip) + [c.now]];
      }
      forall ip ensures Faithful(HitsOf(history, ip), HitsOf(hits, ip), latest) {
        assert Faithful(HitsOf(full, ip), HitsOf(before, ip), past);
        if ip != c.ip || !ok {
          FaithfulUntil(HitsOf(full, ip), HitsOf(before, ip), past, latest);
        }
      }
    }

    /** A run of calls: with a clock that does not go back, every decision and the history are those of
        the complete record. */
    method CheckAll(calls: seq<Call>) returns (oks: seq<bool>)
      requires Valid()
      modifies this
      ensures Valid() && |oks| == |calls|
      ensures hits == PruneAll(old(hits), calls)
      ensures ClockFrom(old(latest), calls) ==>
                && history == RecordAll(old(history), calls)
                && forall n :: 0 <= n < |calls| ==> oks[n] == AllowedAfter(old(history), calls, n)
    {
      ghost var start, past, kept := history, latest, hits;
      oks := [];
      var n := 0;
      while n < |calls|
        invariant 0 <= n <= |calls| && |oks| == n
        invariant Valid() && hits == PruneAll(kept, calls[..n])
        invariant ClockFrom(past, calls) ==>
                    && latest == (if n == 0 then past else calls[n - 1].now)
                    && history == RecordAll(start, calls[..n])
                    && forall m :: 0 <= m < n ==> oks[m] == AllowedAfter(start, calls, m)
      {
        assert calls[..n + 1][..n] == calls[..n];
        var ok := Check(calls[n]);
        oks := oks + [ok];
        n := n + 1;
      }
      assert calls[..n] == calls;
    }
  }

  predicate ClockMonotone(calls: seq<Call>) {
    forall m, n :: 0 <= m < n < |calls| ==> calls[m].now <= calls[n].now
  }

  predicate ClockFrom(start: real, calls: seq<Call>) {
    ClockMonotone(calls) && (calls != [] ==> start <= calls[0].now)
  }

  /** The decision on the n-th call by the complete record of those before it. */
  predicate AllowedAfter(history: Hits, calls: seq<Call>, n: nat)
    requires n < |calls|
  {
    Allowed(HitsOf(RecordAll(history, calls[..n]), calls[n].ip), calls[n].now)
  }

  /** From time `latest` on, the two lists have the same recent times. */
  ghost predicate Agree(full: seq<real>, kept: seq<real>, latest: real) {
    forall now: real :: latest <= now ==> Recent(kept, now) == Recent(full, now)
  }

  ghost predicate NoMore(full: seq<real>, kept: seq<real>) {
    forall now: real :: |Recent(kept, now)| <= |Recent(full, now)|
  }

  ghost predicate Faithful(full: seq<real>, kept: seq<real>, latest: real) {
    |kept| <= LIMIT && Agree(full, kept, latest) && NoMore(full, kept)
  }

  lemma {:induction false} RecentAppend(a: seq<real>, b: seq<real>, now: real)
    ensures Recent(a + b, now) == Recent(a, now) + Recent(b, now)
  {
    if a == [] {
      assert a + b == b;
    } else {
      assert (a + b)[1..] == a[1..] + b;
      RecentAppend(a[1..], b, now);
    }
  }

  /** What is recent later was recent before. */
  lemma {:induction false} RecentOfRecent(a: seq<real>, before: real, now: real)
    requires before <= now
    ensures Recent(Recent(a, before), now) == Recent(a, now)
    ensures |Recent(a, now)| <= |Recent(a, before)|
  {
    if a != [] {
      RecentOfRecent(a[1..], before, now);
    }
  }

  /** Pruning never adds recent times. */
  lemma {:induction false} RecentOfRecentIsFewer(a: seq<real>, before: real, now: real)
    ensures |Recent(Recent(a, before), now)| <= |Recent(a, now)|
  {
    if a != [] {
      RecentOfRecentIsFewer(a[1..], before, now);
    }
  }

  lemma PruningIsFaithful(full: seq<real>, kept: seq<real>, latest: real, at: real)
    requires Faithful(full, kept, latest) && |Recent(kept, at)| < LIMIT
    ensures Faithful(full + [at], Recent(kept, at) + [at], Later(latest, at))
  {
    forall now: real ensures |Recent(Recent(kept, at) + [at], now)| <= |Recent(full + [at], now)| {
      RecentAppend(Recent(kept, at), [at], now);
      RecentAppend(full, [at], now);
      RecentOfRecentIsFewer(kept, at, now);
    }
    forall now: real | Later(latest, at) <= now
      ensures Recent(Recent(kept, at) + [at], now) == Recent(full + [at], now)
    {
      RecentAppend(Recent(kept, at), [at], now);
      RecentAppend(full, [at], now);
      RecentOfRecent(kept, at, now);
    }
  }

  // ── Pruning and the clock ─────────────────────────────────────────────────

  /** Do the pruned lists decide on the call as the complete record would? */
  predicate DecidesAlike(calls: seq<Call>, c: Call) {
    |Recent(HitsOf(PruneAll(map[], calls), c.ip), c.now)| < LIMIT
    <==> Allowed(HitsOf(RecordAll(map[], calls), c.ip), c.now)
  }

  /** A run whose clock does not go back, up to the given reading. */
  predicate RunsUpTo(calls: seq<Call>, latest: real) {
    calls != [] && ClockMonotone(calls) && calls[|calls| - 1].now == latest
  }

  lemma {:induction false} PrunedIsFaithful(calls: seq<Call>, ip: string)
    requires ClockMonotone(calls)
    ensures calls == [] ==> HitsOf(PruneAll(map[], calls), ip) == HitsOf(RecordAll(map[], calls), ip) == []
    ensures calls != [] ==> Faithful(HitsOf(RecordAll(map[], calls), ip), HitsOf(PruneAll(map[], calls), ip),
                                     calls[|calls| - 1].now)
  {
    if calls != [] {
      var front, last := calls[..|calls| - 1], calls[|calls| - 1];
      PrunedIsFaithful(front, ip);
      var full, kept := HitsOf(RecordAll(map[], front), ip), HitsOf(PruneAll(map[], front), ip);
      FaithfulUntil(full, kept, if front == [] then last.now else front[|front| - 1].now, last.now);
      if last.ip == ip && |Recent(kept, last.now)| < LIMIT {
        PruningIsFaithful(full, kept, last.now, last.now);
      }
    }
  }

  lemma FaithfulUntil(full: seq<real>, kept: seq<real>, latest: real, later: real)
    requires Faithful(full, kept, latest) || full == kept == []
    requires latest <= later
    ensures Faithful(full, kept, later) && Recent(kept, later) == Recent(full, later)
  {
  }

  function Repeat(t: real, n: nat): seq<real> {
    seq(n, _ => t)
  }

  lemma {:induction false} RecentRepeat(t: real, n: nat, now: real)
    ensures Recent(Repeat(t, n), now) == if now - t < WINDOW then Repeat(t, n) else []
  {
    if n > 0 {
      RecentRepeat(t, n - 1, now);
      assert Repeat(t, n)[1..] == Repeat(t, n - 1) && [t] + Repeat(t, n - 1) == Repeat(t, n);
    }
  }

  lemma {:induction false} CallsAt(t: real, n: nat) returns (calls: seq<Call>)
    requires n <= LIMIT
    ensures |calls| == n && forall c :: c in calls ==> c == Call("a", t)
    ensures HitsOf(PruneAll(map[], calls), "a") == Repeat(t, n) == HitsOf(RecordAll(map[], calls), "a")
  {
    if n == 0 {
      calls := [];
    } else {
      var front := CallsAt(t, n - 1);
      calls := front + [Call("a", t)];
      assert calls[..|front|] == front;
      RecentRepeat(t, n - 1, t);
      assert Repeat(t, n - 1) + [t] == Repeat(t, n);
    }
  }

  /** Ten calls a minute ago and one now prune the ten; once the clock goes back they count again in the
      complete record, and only there. */
  lemma BackwardClockIsForgotten(latest: real, now: real) returns (calls: seq<Call>)
    requires now < latest
    ensures RunsUpTo(calls, latest) && !DecidesAlike(calls, Call("a", now))
  {
    var past := latest - WINDOW;
    var ten := CallsAt(past, LIMIT);
    calls := ten + [Call("a", latest)];
    assert calls[..|ten|] == ten;
    assert forall n :: 0 <= n < |ten| ==> calls[n] in ten;
    RecentRepeat(past, LIMIT, latest);
    RecentRepeat(past, LIMIT, now);
    assert HitsOf(PruneAll(map[], calls), "a") == [latest];
    assert HitsOf(RecordAll(map[], calls), "a") == Repeat(past, LIMIT) + [latest];
    RecentAppend(Repeat(past, LIMIT), [latest], now);
  }

  /** After every run up to a clock reading, the pruned lists decide on a call as the complete record
      would, exactly if the call's own reading is not earlier. */
  lemma DecidesAlikeExactlyWhen(latest: real, now: real)
    ensures (forall calls, ip :: RunsUpTo(calls, latest) ==> DecidesAlike(calls, Call(ip, now))) <==> latest <= now
  {
    if now < latest {
      var calls := BackwardClockIsForgotten(latest, now);
      assert RunsUpTo(calls, latest) && !DecidesAlike(calls, Call("a", now));
    } else {
      forall calls, ip | RunsUpTo(calls, latest) ensures DecidesAlike(calls, Call(ip, now)) {
        PrunedIsFaithful(calls, ip);
        FaithfulUntil(HitsOf(RecordAll(map[], calls), ip), HitsOf(PruneAll(map[], calls), ip), latest, now);
      }
    }
  }

  // ── What the full history guarantees ──────────────────────────────────────

  /** The times that fall into the half-open window starting at `a`. */
  function Within(times: seq<real>, a: real): seq<real> {
    if times == [] then []
    else
      var front, last := times[..|times| - 1], times[|times| - 1];
      Within(front, a) + if a <= last < a + 60.0 then [last] else []
  }

  /** Whatever falls into a window together with `now` is recent at `now`. */
  lemma {:induction false} WindowIsRecent(times: seq<real>, a: real, now: real)
    requires a <= now < a + 60.0
    ensures |Within(times, a)| <= |Recent(times, now)|
  {
    if times != [] {
      var front, last := times[..|times| - 1], times[|times| - 1];
      WindowIsRecent(front, a, now);
      RecentAppend(front, [last], now);
      assert times == front + [last];
    }
  }

  /** Every address gets at most ten accepted calls in every half-open window of a minute. */
  lemma {:induction false} AtMostTenPerWindow(calls: seq<Call>, ip: string, a: real)
    ensures |Within(HitsOf(RecordAll(map[], calls), ip), a)| <= 10
  {
    if calls != [] {
      var front, last := calls[..|calls| - 1], calls[|calls| - 1];
      AtMostTenPerWindow(front, ip, a);
      var times := HitsOf(RecordAll(map[], front), ip);
      if last.ip == ip && Allowed(times, last.now) && a <= last.now < a + 60.0 {
        WindowIsRecent(times, a, last.now);
      }
      assert (times + [last.now])[..|times|] == times;
    }
  }

  /** How many of the accepted times lie less than a minute before `now`. */
  function InLastMinute(times: seq<real>, now: real): nat {
    |set n | 0 <= n < |times| && now - times[n] < 60.0|
  }

  lemma {:induction false} RecentCounts(times: seq<real>, now: real)
    ensures |Recent(times, now)| == InLastMinute(times, now)
  {
    if times != [] {
      var front, last := times[..|times| - 1], |times| - 1;
      RecentCounts(front, now);
      RecentAppend(front, [times[last]], now);
      assert times == front + [times[last]];
      var before := set n | 0 <= n < |front| && now - front[n] < 60.0;
      var all := set n | 0 <= n < |times| && now - times[n] < 60.0;
      assert all == if now - times[last] < 60.0 then before + {last} else before;
    }
  }

  /** With a clock that does not go back, a call is refused exactly when ten accepted calls of the same
      address lie in the minute before it: never more, never fewer. */
  lemma RefusedAtExactlyTen(calls: seq<Call>, c: Call)
    requires ClockMonotone(calls + [c])
    ensures !Allowed(HitsOf(RecordAll(map[], calls), c.ip), c.now) <==>
            InLastMinute(HitsOf(RecordAll(map[], calls), c.ip), c.now) == 10
  {
    forall n | 0 <= n < |calls| ensures calls[n].now <= c.now {
      assert (calls + [c])[n] == calls[n] && (calls + [c])[|calls|] == c;
    }
    NeverMoreThanTen(calls, c.ip, c.now);
    RecentCounts(HitsOf(RecordAll(map[], calls), c.ip), c.now);
  }

  lemma {:induction false} NeverMoreThanTen(calls: seq<Call>, ip: string, now: real)
    requires forall n :: 0 <= n < |calls| ==> calls[n].now <= now
    ensures |Recent(HitsOf(RecordAll(map[], calls), ip), now)| <= LIMIT
  {
    if calls != [] {
      var front, last := calls[..|calls| - 1], calls[|calls| - 1];
      NeverMoreThanTen(front, ip, now);
      var times := HitsOf(RecordAll(map[], front), ip);
      if last.ip == ip && Allowed(times, last.now) {
        RecentAppend(times, [last.now], now);
        RecentOfRecent(times, last.now, now);
      }
    }
  }

  function CallsFrom(calls: seq<Call>, ip: string): seq<Call> {
    if calls == [] then []
    else
      var front, last := calls[..|calls| - 1], calls[|calls| - 1];
      if last.ip == ip then CallsFrom(front, ip) + [last] else CallsFrom(front, ip)
  }

  /** Addresses do not affect each other: an address is treated as if it were alone. */
  lemma {:induction false} AddressesIndependent(calls: seq<Call>, ip: string)
    ensures HitsOf(RecordAll(map[], calls), ip) == HitsOf(RecordAll(map[], CallsFrom(calls, ip)), ip)
  {
    if calls != [] {
      var front, last := calls[..|calls| - 1], calls[|calls| - 1];
      AddressesIndependent(front, ip);
      if last.ip == ip {
        var own := CallsFrom(front, ip);
        assert (own + [last])[..|own|] == own;
      }
    }
  }
}
