/** The fixed-window limiter: evicting expired counters is invisible, and the number of uses admitted
    in any stretch of time is bounded. */
module RateLimit {
  import opened Text

  type Use = (string, string)

  /** Start of the counter's window, and the uses counted in it. */
  datatype Counter = Counter(start: real, count: int)

  type Hits = map<Use, Counter>

  datatype Verdict = Admitted | Rejected(retryAfter: int)

  const EVICT_ABOVE: int := 10_000

  predicate Expired(c: Counter, now: real, window: real) {
    now - c.start >= window
  }

  /** The counter a check works with: a new one if there is none or its window is over. */
  function Current(hits: Hits, use: Use, now: real, window: real): Counter {
    if use in hits && !Expired(hits[use], now, window) then hits[use] else Counter(now, 0)
  }

  /** Python's `int` of a float: towards zero. */
  function Truncate(x: real): int {
    if x < 0.0 then -((-x).Floor) else x.Floor
  }

  function RetryAfter(c: Counter, now: real, window: real): int {
    var left := Truncate(window - (now - c.start));
    if left < 1 then 1 else left
  }

  function VerdictOf(hits: Hits, use: Use, limit: int, now: real, window: real): Verdict {
    var c := Current(hits, use, now, window);
    if limit <= 0 || c.count < limit then Admitted else Rejected(RetryAfter(c, now, window))
  }

  /** The counters after a check that evicts nothing. */
  function AfterUse(hits: Hits, use: Use, limit: int, now: real, window: real): Hits {
    var c := Current(hits, use, now, window);
    if limit > 0 && c.count < limit then hits[use := c.(count := c.count + 1)] else hits
  }

  function Unexpired(hits: Hits, now: real, window: real): Hits {
    map u | u in hits && !Expired(hits[u], now, window) :: hits[u]
  }

  /** The counters after a check: when a use was counted and more than `most` are held, the expired ones go. */
  function AfterCheck(hits: Hits, use: Use, limit: int, now: real, window: real, most: int): Hits {
    var after := AfterUse(hits, use, limit, now, window);
    if limit > 0 && Current(hits, use, now, window).count < limit && |after| > most
    then Unexpired(after, now, window) else after
  }

  class FixedWindowRateLimiter {
    const window: real
    var hits: Hits

    constructor (window: real)
      ensures hits == map[] && this.window == window
    {
      this.window := window;
      hits := map[];
    }

    /** Counts one use, or says when to come back. A limit of 0 or less disables the check. */
    method Check(use: Use, limit: int, now: real) returns (v: Verdict)
      modifies this`hits
      ensures v == VerdictOf(old(hits), use, limit, now, window)
      ensures hits == AfterCheck(old(hits), use, limit, now, window, EVICT_ABOVE)
      ensures v.Rejected? ==> hits == old(hits)
    {
      if limit <= 0 { return Admitted; }
      var start, count := now, 0;
      if use in hits { start, count := hits[use].start, hits[use].count; }
      if now - start >= window { start, count := now, 0; }
      if count >= limit {
        return Rejected(RetryAfter(Counter(start, count), now, window));
      }
      hits := hits[use := Counter(start, count + 1)];
      if |hits| > EVICT_ABOVE { EvictExpired(now); }
      return Admitted;
    }

    method EvictExpired(now: real)
      modifies this`hits
      ensures hits == Unexpired(old(hits), now, window)
    {
      var entries := hits;
      var todo := entries.Keys;
      while todo != {}
        invariant todo <= entries.Keys
        invariant forall u :: u in hits <==> u in entries && (u in todo || !Expired(entries[u], now, window))
        invariant forall u :: u in hits ==> hits[u] == entries[u]
        decreases |todo|
      {
        var u :| u in todo;
        todo := todo - {u};
        if now - entries[u].start >= window { hits := hits - {u}; }
      }
    }

    method Reset()
      modifies this`hits
      ensures hits == map[]
    {
      hits := map[];
    }
  }

  // ----- runs

  datatype Call = Call(use: Use, limit: int, now: real)

  /** The clock never goes back. */
  predicate Ordered(calls: seq<Call>, since: real) {
    calls == [] || (since <= calls[0].now && Ordered(calls[1..], calls[0].now))
  }

  /** The verdicts of a limiter that evicts when it holds more than `most` counters after an admitted use. */
  function Verdicts(hits: Hits, calls: seq<Call>, window: real, most: int): seq<Verdict>
    decreases |calls|
  {
    if calls == [] then []
    else [VerdictOf(hits, calls[0].use, calls[0].limit, calls[0].now, window)]
         + Verdicts(AfterCheck(hits, calls[0].use, calls[0].limit, calls[0].now, window, most), calls[1..], window,
                    most)
  }

  /** The verdicts of a limiter that never evicts. */
  function PlainVerdicts(hits: Hits, calls: seq<Call>, window: real): seq<Verdict>
    decreases |calls|
  {
    if calls == [] then []
    else [VerdictOf(hits, calls[0].use, calls[0].limit, calls[0].now, window)]
         + PlainVerdicts(AfterUse(hits, calls[0].use, calls[0].limit, calls[0].now, window), calls[1..], window)
  }

  // ----- eviction is invisible

  /** The two limiters hold the same counters, except for some that are over. */
  ghost predicate SameUntilExpiry(a: Hits, b: Hits, now: real, window: real) {
    forall u :: (u in a && u in b && a[u] == b[u])
             || (u !in a && u !in b)
             || (u !in a && u in b && Expired(b[u], now, window))
  }

  lemma CheckKeepsSame(a: Hits, b: Hits, since: real, c: Call, window: real, most: int)
    requires SameUntilExpiry(a, b, since, window) && since <= c.now
    ensures VerdictOf(a, c.use, c.limit, c.now, window) == VerdictOf(b, c.use, c.limit, c.now, window)
    ensures SameUntilExpiry(AfterCheck(a, c.use, c.limit, c.now, window, most),
                            AfterUse(b, c.use, c.limit, c.now, window), c.now, window)
  {}

  lemma {:induction false} SameVerdicts(a: Hits, b: Hits, calls: seq<Call>, since: real, window: real, most: int)
    requires SameUntilExpiry(a, b, since, window) && Ordered(calls, since)
    ensures Verdicts(a, calls, window, most) == PlainVerdicts(b, calls, window)
    decreases |calls|
  {
    if calls != [] {
      var c := calls[0];
      CheckKeepsSame(a, b, since, c, window, most);
      SameVerdicts(AfterCheck(a, c.use, c.limit, c.now, window, most), AfterUse(b, c.use, c.limit, c.now, window),
                   calls[1..], c.now, window, most);
    }
  }

  /** For every sequence of checks on a clock that does not go back, and whatever the eviction threshold, all
      verdicts and waiting times are those of a limiter that never evicts. */
  lemma EvictionIsInvisible(calls: seq<Call>, since: real, window: real, most: int)
    requires Ordered(calls, since)
    ensures Verdicts(map[], calls, window, most) == PlainVerdicts(map[], calls, window)
  {
    SameVerdicts(map[], map[], calls, since, window, most);
  }

  // ----- the rate is bounded

  /** Uses of `use` admitted at times in [from, to). */
  function AdmittedBetween(calls: seq<Call>, verdicts: seq<Verdict>, use: Use, from: real, to: real): nat
    requires |calls| == |verdicts|
  {
    if calls == [] then 0
    else (if calls[0].use == use && from <= calls[0].now < to && verdicts[0].Admitted? then 1 else 0)
         + AdmittedBetween(calls[1..], verdicts[1..], use, from, to)
  }

  lemma {:induction false} PlainLength(hits: Hits, calls: seq<Call>, window: real)
    ensures |PlainVerdicts(hits, calls, window)| == |calls|
    decreases |calls|
  {
    if calls != [] {
      PlainLength(AfterUse(hits, calls[0].use, calls[0].limit, calls[0].now, window), calls[1..], window);
    }
  }

  /** The limit for `use` is the same positive number in all calls. */
  predicate Steady(calls: seq<Call>, use: Use, limit: int) {
    limit > 0 && forall i :: 0 <= i < |calls| && calls[i].use == use ==> calls[i].limit == limit
  }

  lemma {:induction false} NothingAfterwards(calls: seq<Call>, verdicts: seq<Verdict>, use: Use, from: real, to: real,
                                             since: real)
    requires |calls| == |verdicts| && Ordered(calls, since) && since >= to
    ensures AdmittedBetween(calls, verdicts, use, from, to) == 0
  {
    if calls != [] { NothingAfterwards(calls[1..], verdicts[1..], use, from, to, calls[0].now); }
  }

  /** What an open window may still admit, when `to` is at most `more` whole windows after its end. */
  lemma {:induction false} WindowBound(hits: Hits, calls: seq<Call>, use: Use, limit: int, window: real, since: real,
                                       from: real, to: real, more: nat)
    requires window > 0.0 && Ordered(calls, since) && Steady(calls, use, limit)
    requires use in hits && 0 <= hits[use].count <= limit
    requires to <= hits[use].start + window + more as real * window
    ensures |PlainVerdicts(hits, calls, window)| == |calls|
    ensures AdmittedBetween(calls, PlainVerdicts(hits, calls, window), use, from, to)
      <= limit - hits[use].count + more * limit
    decreases |calls|
  {
    PlainLength(hits, calls, window);
    if calls != [] {
      var c := calls[0];
      var next := AfterUse(hits, c.use, c.limit, c.now, window);
      var verdicts := PlainVerdicts(hits, calls, window);
      assert verdicts[1..] == PlainVerdicts(next, calls[1..], window);
      assert Steady(calls[1..], use, limit);
      PlainLength(next, calls[1..], window);
      if c.use != use || !Expired(hits[use], c.now, window) {
        WindowBound(next, calls[1..], use, limit, window, c.now, from, to, more);
      } else if more == 0 {
        assert c.now >= to;
        NothingAfterwards(calls[1..], verdicts[1..], use, from, to, c.now);
      } else {
        assert more as real * window == (more - 1) as real * window + window;
        assert more * limit == (more - 1) * limit + limit;
        WindowBound(next, calls[1..], use, limit, window, c.now, from, to, more - 1);
      }
    }
  }

  /** Before the interval nothing counts; a window open at its start has spent at least one use before it. */
  lemma {:induction false} IntervalBound(hits: Hits, calls: seq<Call>, use: Use, limit: int, window: real, since: real,
                                         from: real, windows: nat)
    requires window > 0.0 && Ordered(calls, since) && Steady(calls, use, limit)
    requires use in hits ==> 1 <= hits[use].count <= limit
    ensures |PlainVerdicts(hits, calls, window)| == |calls|
    ensures AdmittedBetween(calls, PlainVerdicts(hits, calls, window), use, from, from + windows as real * window)
      <= windows * limit + limit - 1
    decreases |calls|
  {
    PlainLength(hits, calls, window);
    if calls != [] {
      var c, to := calls[0], from + windows as real * window;
      var next := AfterUse(hits, c.use, c.limit, c.now, window);
      var verdicts := PlainVerdicts(hits, calls, window);
      assert verdicts[1..] == PlainVerdicts(next, calls[1..], window);
      assert Steady(calls[1..], use, limit);
      PlainLength(next, calls[1..], window);
      if c.use != use || c.now < from {
        IntervalBound(next, calls[1..], use, limit, window, c.now, from, windows);
      } else if use in hits && !Expired(hits[use], c.now, window) {
        WindowBound(hits, calls, use, limit, window, since, from, to, windows);
      } else if windows == 0 {
        NothingAfterwards(calls[1..], verdicts[1..], use, from, to, c.now);
      } else {
        assert windows as real * window == (windows - 1) as real * window + window;
        assert windows * limit == (windows - 1) * limit + limit;
        WindowBound(next, calls[1..], use, limit, window, c.now, from, to, windows - 1);
      }
    }
  }

  /** With a fixed positive limit, any stretch of n windows admits at most (n + 1) * limit - 1 uses of one action
      and key, evictions and other keys' calls included. */
  lemma RateIsBounded(calls: seq<Call>, use: Use, limit: int, window: real, since: real, from: real, windows: nat,
                      most: int)
    requires window > 0.0 && Ordered(calls, since) && Steady(calls, use, limit)
    ensures |Verdicts(map[], calls, window, most)| == |calls|
    ensures AdmittedBetween(calls, Verdicts(map[], calls, window, most), use, from, from + windows as real * window)
      <= (windows + 1) * limit - 1
  {
    EvictionIsInvisible(calls, since, window, most);
    IntervalBound(map[], calls, use, limit, window, since, from, windows);
    assert (windows + 1) * limit == windows * limit + limit;
  }

  // ----- nobody is rejected early

  lemma {:induction false} OneMoreCall(calls: seq<Call>, verdicts: seq<Verdict>, c: Call, v: Verdict, use: Use,
                                       from: real, to: real)
    requires |calls| == |verdicts|
    ensures AdmittedBetween(calls + [c], verdicts + [v], use, from, to)
      == AdmittedBetween(calls, verdicts, use, from, to)
         + if c.use == use && from <= c.now < to && v.Admitted? then 1 else 0
  {
    if calls == [] {
      assert ([] + [c])[1..] == [] && ([] + [v])[1..] == [];
    } else {
      assert (calls + [c])[1..] == calls[1..] + [c] && (verdicts + [v])[1..] == verdicts[1..] + [v];
      OneMoreCall(calls[1..], verdicts[1..], c, v, use, from, to);
    }
  }

  lemma {:induction false} EarlierCounts(calls: seq<Call>, verdicts: seq<Verdict>, use: Use, from: real, start: real,
                                         to: real)
    requires |calls| == |verdicts| && from <= start
    ensures AdmittedBetween(calls, verdicts, use, from, to) >= AdmittedBetween(calls, verdicts, use, start, to)
  {
    if calls != [] { EarlierCounts(calls[1..], verdicts[1..], use, from, start, to); }
  }

  /** Every counter stands for at least as many uses admitted since its window began. */
  ghost predicate CountersAreEarned(hits: Hits, past: seq<Call>, verdicts: seq<Verdict>, since: real, to: real)
    requires |past| == |verdicts|
  {
    forall u :: u in hits ==>
      hits[u].start <= since && hits[u].count <= AdmittedBetween(past, verdicts, u, hits[u].start, to)
  }

  lemma CheckKeepsEarned(hits: Hits, past: seq<Call>, verdicts: seq<Verdict>, c: Call, window: real, since: real,
                         to: real)
    requires |past| == |verdicts| && CountersAreEarned(hits, past, verdicts, since, to) && since <= c.now < to
    ensures CountersAreEarned(AfterUse(hits, c.use, c.limit, c.now, window), past + [c],
                              verdicts + [VerdictOf(hits, c.use, c.limit, c.now, window)], c.now, to)
  {
    var v, after := VerdictOf(hits, c.use, c.limit, c.now, window), AfterUse(hits, c.use, c.limit, c.now, window);
    forall u | u in after
      ensures after[u].start <= c.now
      ensures after[u].count <= AdmittedBetween(past + [c], verdicts + [v], u, after[u].start, to)
    {
      OneMoreCall(past, verdicts, c, v, u, after[u].start, to);
    }
  }

  lemma {:induction false} EarnedFrom(hits: Hits, past: seq<Call>, pastVerdicts: seq<Verdict>, calls: seq<Call>,
                                      i: nat, window: real, since: real, to: real)
    requires |past| == |pastVerdicts| && CountersAreEarned(hits, past, pastVerdicts, since, to)
    requires window > 0.0 && Ordered(calls, since) && i < |calls| && calls[i].now < to
    ensures |PlainVerdicts(hits, calls, window)| == |calls|
    ensures PlainVerdicts(hits, calls, window)[i].Rejected? ==>
      0 < calls[i].limit <= AdmittedBetween(past + calls[..i], pastVerdicts + PlainVerdicts(hits, calls, window)[..i],
                                            calls[i].use, calls[i].now - window, to)
    decreases |calls|
  {
    PlainLength(hits, calls, window);
    var c, verdicts := calls[0], PlainVerdicts(hits, calls, window);
    if i == 0 {
      assert past + calls[..0] == past && pastVerdicts + verdicts[..0] == pastVerdicts;
      if verdicts[0].Rejected? {
        EarlierCounts(past, pastVerdicts, c.use, c.now - window, hits[c.use].start, to);
      }
    } else {
      var next := AfterUse(hits, c.use, c.limit, c.now, window);
      LaterIsLater(calls, since, i);
      CheckKeepsEarned(hits, past, pastVerdicts, c, window, since, to);
      EarnedFrom(next, past + [c], pastVerdicts + [verdicts[0]], calls[1..], i - 1, window, c.now, to);
      assert verdicts[1..] == PlainVerdicts(next, calls[1..], window);
      assert past + calls[..i] == past + [c] + calls[1..][..i - 1];
      assert pastVerdicts + verdicts[..i] == pastVerdicts + [verdicts[0]] + verdicts[1..][..i - 1];
    }
  }

  lemma {:induction false} LaterIsLater(calls: seq<Call>, since: real, i: nat)
    requires Ordered(calls, since) && i < |calls|
    ensures calls[0].now <= calls[i].now
  {
    if i > 0 { LaterIsLater(calls[1..], calls[0].now, i - 1); }
  }

  /** A use is rejected only if as many uses of its action and key as the limit allows were admitted within one window
      before, evictions and other keys' calls included. */
  lemma RejectionIsEarned(calls: seq<Call>, i: nat, window: real, since: real, most: int, to: real)
    requires window > 0.0 && Ordered(calls, since) && i < |calls| && calls[i].now < to
    ensures |Verdicts(map[], calls, window, most)| == |calls|
    ensures Verdicts(map[], calls, window, most)[i].Rejected? ==>
      0 < calls[i].limit <= AdmittedBetween(calls[..i], Verdicts(map[], calls, window, most)[..i], calls[i].use,
                                            calls[i].now - window, to)
  {
    EvictionIsInvisible(calls, since, window, most);
    EarnedFrom(map[], [], [], calls, i, window, since, to);
    assert [] + calls[..i] == calls[..i];
    assert [] + PlainVerdicts(map[], calls, window)[..i] == PlainVerdicts(map[], calls, window)[..i];
  }

  /** A rejected call changes nothing; an admitted one changes the verdicts of its own key only. */
  lemma OtherKeysUnaffected(hits: Hits, c: Call, other: Use, limit: int, now: real, window: real, most: int)
    requires c.use != other && c.now <= now
    ensures VerdictOf(AfterCheck(hits, c.use, c.limit, c.now, window, most), other, limit, now, window)
      == VerdictOf(hits, other, limit, now, window)
    ensures VerdictOf(hits, c.use, c.limit, c.now, window).Rejected? ==>
      AfterCheck(hits, c.use, c.limit, c.now, window, most) == hits
  {}

  const BURST: seq<Call> :=
    var u := ("fetch", "tenant");
    [Call(u, 2, 0.0), Call(u, 2, 59.0), Call(u, 2, 60.0), Call(u, 2, 60.0)]

  /** The bound is reached: with limit 2, the 60 seconds from 59 admit 3 uses. */
  lemma BoundIsTight()
    ensures PlainVerdicts(map[], BURST, 60.0) == [Admitted, Admitted, Admitted, Admitted]
    ensures AdmittedBetween(BURST, [Admitted, Admitted, Admitted, Admitted], ("fetch", "tenant"), 59.0, 119.0) == 3
  {
    var u := ("fetch", "tenant");
    var h1: Hits := map[u := Counter(0.0, 1)];
    var h2: Hits := map[u := Counter(0.0, 2)];
    var h3: Hits := map[u := Counter(60.0, 1)];
    var c1, c2, c3 := BURST[1..], BURST[2..], BURST[3..];
    assert c1[1..] == c2 && c2[1..] == c3 && c3[1..] == [];
    assert AfterUse(map[], u, 2, 0.0, 60.0) == h1 && AfterUse(h1, u, 2, 59.0, 60.0) == h2
        && AfterUse(h2, u, 2, 60.0, 60.0) == h3;
    assert PlainVerdicts(h3, c3, 60.0) == [Admitted];
    assert PlainVerdicts(h2, c2, 60.0) == [Admitted] + PlainVerdicts(h3, c3, 60.0);
    assert PlainVerdicts(h1, c1, 60.0) == [Admitted] + PlainVerdicts(h2, c2, 60.0);
    assert PlainVerdicts(map[], BURST, 60.0) == [Admitted] + PlainVerdicts(h1, c1, 60.0);
    var a := [Admitted, Admitted, Admitted, Admitted];
    assert a[1..][1..] == [Admitted, Admitted] && a[1..][1..][1..] == [Admitted];
    assert AdmittedBetween(c3, [Admitted], u, 59.0, 119.0) == 1;
    assert AdmittedBetween(c2, [Admitted, Admitted], u, 59.0, 119.0) == 2 by {
      assert [Admitted, Admitted][1..] == [Admitted];
    }
  }

  /** The time left in the open window of a rejected call. */
  function Left(hits: Hits, c: Call, window: real): real {
    window - (c.now - Current(hits, c.use, c.now, window).start)
  }

  /** Waiting as long as the rejection says gets the next use admitted exactly when the time left is at most a second
      or a whole number of seconds; the fraction that is cut off is otherwise missing. */
  lemma WaitingAsTold(hits: Hits, c: Call, window: real)
    requires window > 0.0 && VerdictOf(hits, c.use, c.limit, c.now, window).Rejected?
    requires c.use in hits && hits[c.use].start <= c.now
    ensures var told := VerdictOf(hits, c.use, c.limit, c.now, window).retryAfter;
      VerdictOf(hits, c.use, c.limit, c.now + told as real, window).Admitted? <==>
        Left(hits, c, window) <= 1.0 || Left(hits, c, window) == Left(hits, c, window).Floor as real
  {}

  /** Half a second after a use with limit 1, the limiter says 59 seconds, and 59 seconds later it still rejects. */
  lemma WaitingAsToldCanFail()
    ensures var hits: Hits := map[("deliver", "tenant") := Counter(0.0, 1)];
      && VerdictOf(hits, ("deliver", "tenant"), 1, 0.5, 60.0) == Rejected(59)
      && VerdictOf(hits, ("deliver", "tenant"), 1, 59.5, 60.0).Rejected?
  {}
}
