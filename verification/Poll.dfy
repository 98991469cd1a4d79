/** The polling adapter: what it emits, and how long it waits between two resolves. Durations
    are nanoseconds; random numbers and clock readings come in as inputs. */
module Poll {
  import opened Values

  newtype int64 = x: int | -0x8000_0000_0000_0000 <= x < 0x8000_0000_0000_0000

  function Pow2(n: nat): (r: nat)
    ensures r >= 1
  {
    if n == 0 then 1 else 2 * Pow2(n - 1)
  }

  function Min(a: int, b: int): int {
    if a < b then a else b
  }

  /** The promised retry delay after a streak of failures; 0 means no backoff applies. */
  function RetryDelay(base: int, ceiling: int, streak: nat): int {
    if base <= 0 || streak == 0 then 0 else Min(base * Pow2(streak - 1), ceiling)
  }

  lemma Scale(base: int, a: int, b: int)
    requires base > 0 && a <= b
    ensures base * a <= base * b
  {
  }

  class Backoff {
    const base: int64
    const ceiling: int64
    var failures: nat

    /** `newBackoff`: a ceiling below the base is raised to it; no base, no backoff. */
    constructor (base: int64, ceiling: int64)
      ensures failures == 0
      ensures base <= 0 ==> this.base == 0 && this.ceiling == 0
      ensures base > 0 ==> this.base == base && this.ceiling == (if ceiling < base then base else ceiling)
    {
      if base <= 0 {
        this.base, this.ceiling := 0, 0;
      } else {
        this.base, this.ceiling := base, if ceiling < base then base else ceiling;
      }
      failures := 0;
    }

    method Fail()
      modifies this
      ensures failures == old(failures) + 1
    {
      failures := failures + 1;
    }

    method Reset()
      modifies this
      ensures failures == 0
    {
      failures := 0;
    }

    /** The loop's result is exactly the promised delay, every doubling stays in range, and the
        rounds are bounded by the ratio of ceiling to base, not by the streak. */
    method Delay() returns (d: int64, rounds: nat)
      ensures d as int == RetryDelay(base as int, ceiling as int, failures)
      ensures rounds > 0 ==> base as int * Pow2(rounds - 1) <= Max(base as int, ceiling as int)
    {
      rounds := 0;
      if base <= 0 || failures <= 0 {
        return 0, 0;
      }
      d := base;
      var i := 1;
      while i < failures
        invariant 1 <= i <= failures && rounds == i - 1
        invariant d as int == Doubled(base as int, i - 1)
        invariant d > 0 && (i > 1 ==> d <= ceiling)
      {
        rounds := rounds + 1;
        if d > ceiling / 2 {
          Overshoot(base as int, i, failures - 1, ceiling as int);
          DoubledIs(base as int, failures - 1);
          DoubledIs(base as int, i - 1);
          return ceiling, rounds;
        }
        d := d * 2;
        i := i + 1;
      }
      DoubledIs(base as int, failures - 1);
      if rounds > 0 {
        DoubledGrows(base as int, rounds - 1, rounds);
        DoubledIs(base as int, rounds - 1);
      }
      if d > ceiling {
        d := ceiling;
      }
    }
  }

  function Max(a: int, b: int): int {
    if a < b then b else a
  }

  function Doubled(base: int, n: nat): int {
    if n == 0 then base else 2 * Doubled(base, n - 1)
  }

  lemma {:induction false} DoubledIs(base: int, n: nat)
    ensures Doubled(base, n) == base * Pow2(n)
  {
    if n > 0 {
      DoubledIs(base, n - 1);
      TwoOut(base, Pow2(n - 1));
    }
  }

  lemma TwoOut(a: int, b: int)
    ensures 2 * (a * b) == a * (2 * b)
  {
  }

  lemma {:induction false} DoubledGrows(base: int, m: nat, n: nat)
    requires base > 0 && m <= n
    ensures 0 < Doubled(base, m) <= Doubled(base, n)
    decreases n
  {
    if m < n {
      DoubledGrows(base, m, n - 1);
    } else if n > 0 {
      DoubledGrows(base, n - 1, n - 1);
    }
  }

  lemma Overshoot(base: int, i: nat, n: nat, ceiling: int)
    requires base > 0 && 1 <= i <= n && Doubled(base, i - 1) > ceiling / 2
    ensures Doubled(base, n) >= ceiling
  {
    DoubledGrows(base, i, n);
  }

  /** The delay never shrinks as the streak grows, and stays within base and ceiling. */
  lemma DelayShape(base: int, ceiling: int, streak: nat)
    requires 0 < base <= ceiling && streak > 0
    ensures base <= RetryDelay(base, ceiling, streak) <= RetryDelay(base, ceiling, streak + 1) <= ceiling
  {
    DoubledIs(base, streak - 1);
    DoubledIs(base, streak);
    DoubledGrows(base, 0, streak - 1);
    DoubledGrows(base, streak - 1, streak);
  }

  // ---------------------------------------------------------------- jitter

  /** `jittered` for a draw `u` in [0, 1). */
  function Jittered(d: int, frac: real, u: real): int {
    if frac <= 0.0 || d <= 0 then d
    else
      var delta := d as real * frac;
      var out := (d as real + (u * 2.0 - 1.0) * delta).Floor;
      if out <= 0 then d else out
  }

  /** Whatever the draw: a positive delay stays positive and within the fraction asked for. */
  lemma JitterBound(d: int, frac: real, u: real)
    requires 0.0 <= u < 1.0 && frac >= 0.0 && d > 0
    ensures 0 < Jittered(d, frac, u)
    ensures Jittered(d, frac, u) as real <= d as real * (1.0 + frac)
    ensures d as real * (1.0 - frac) - 1.0 < Jittered(d, frac, u) as real
  {
    Distribute(d as real, frac);
    if frac > 0.0 {
      var delta := d as real * frac;
      Nonneg(d as real, frac);
      Within(u * 2.0 - 1.0, delta);
      FloorWithin(d, (u * 2.0 - 1.0) * delta, delta);
    }
  }

  /** Nothing to spread, nothing done; otherwise the delay is moved by the drawn share of the
      fraction and cut to a whole number, or left alone where that would not be positive. */
  lemma JitterMeans(d: int, frac: real, u: real)
    ensures frac <= 0.0 || d <= 0 ==> Jittered(d, frac, u) == d
    ensures frac > 0.0 && d > 0 ==>
              var moved := d as real + (u * 2.0 - 1.0) * (d as real * frac);
              && (moved >= 1.0 ==> moved - 1.0 < Jittered(d, frac, u) as real <= moved)
              && (moved < 1.0 ==> Jittered(d, frac, u) == d)
  {
    if frac > 0.0 && d > 0 {
      FloorCuts(d as real + (u * 2.0 - 1.0) * (d as real * frac));
    }
  }

  lemma FloorCuts(x: real)
    ensures x - 1.0 < x.Floor as real <= x
    ensures x >= 1.0 ==> x.Floor >= 1
    ensures x < 1.0 ==> x.Floor <= 0
  {
  }

  /** The rounded sum, or the delay itself where that is not positive; no product in sight. */
  lemma FloorWithin(d: int, off: real, delta: real)
    requires d > 0 && -delta <= off <= delta
    ensures var out := (d as real + off).Floor;
            var j := if out <= 0 then d else out;
            0 < j && j as real <= d as real + delta && d as real - delta - 1.0 < j as real
  {
    var sum := d as real + off;
    assert sum.Floor as real <= sum < sum.Floor as real + 1.0;
  }

  lemma Distribute(a: real, b: real)
    ensures a * (1.0 + b) == a + a * b && a * (1.0 - b) == a - a * b
  {
  }

  lemma Nonneg(a: real, b: real)
    requires a >= 0.0 && b >= 0.0
    ensures a * b >= 0.0
  {
  }

  lemma Within(s: real, delta: real)
    requires -1.0 <= s <= 1.0 && delta >= 0.0
    ensures -delta <= s * delta <= delta
  {
    Nonneg(s + 1.0, delta);
    Nonneg(1.0 - s, delta);
    assert (s + 1.0) * delta == s * delta + delta && (1.0 - s) * delta == delta - s * delta;
  }

  // ---------------------------------------------------------------- what the history says

  type Outcome = Result<Value>

  predicate Failure(o: Outcome) {
    o.Bad? && !IsNotFound(o.err)
  }

  /** The open failure streak: failures since the last answer. */
  function Streak(h: seq<Outcome>): nat {
    if h == [] then 0 else if Failure(h[|h| - 1]) then Streak(h[..|h| - 1]) + 1 else 0
  }

  /** The value last handed to the watcher. */
  function Retained(h: seq<Outcome>): Option<Value> {
    if h == [] then None
    else
      var r, o := Retained(h[..|h| - 1]), h[|h| - 1];
      if o.Ok? && (r.None? || Changed(r.value, o.value)) then Some(o.value) else r
  }

  /** What the newest outcome adds to the channel, given the value retained before it. */
  function Sends(r: Option<Value>, o: Outcome): seq<Outcome> {
    if o.Ok? then (if r.None? || Changed(r.value, o.value) then [o] else [])
    else if IsNotFound(o.err) then [] else [o]
  }

  function Sent(h: seq<Outcome>): seq<Outcome> {
    if h == [] then [] else Sent(h[..|h| - 1]) + Sends(Retained(h[..|h| - 1]), h[|h| - 1])
  }

  function LeaseCap(d: int, last: Option<Value>, now: int): int {
    if last.Some? && last.value.notAfter.Some? && last.value.notAfter.value > now then
      var left := last.value.notAfter.value - now;
      Min(left - left / 10, d)
    else d
  }

  datatype Config = Config(interval: int, jitter: real, base: int64, ceiling: int64)

  /** One pass of the loop: the clock reading and draw for its wait, then what the resolve said. */
  datatype Round = Round(now: int, draw: real, outcome: Outcome)

  function RetryFor(cfg: Config, h: seq<Outcome>): int {
    RetryDelay(cfg.base as int, Max(cfg.base as int, cfg.ceiling as int), Streak(h))
  }

  function Wait(cfg: Config, h: seq<Outcome>, now: int, draw: real): int {
    if RetryFor(cfg, h) > 0 then Jittered(RetryFor(cfg, h), cfg.jitter, draw)
    else LeaseCap(Jittered(cfg.interval, cfg.jitter, draw), Retained(h), now)
  }

  function History(first: Outcome, rounds: seq<Round>, k: nat): (h: seq<Outcome>)
    requires k <= |rounds|
    ensures |h| == k + 1
  {
    [first] + seq(k, i requires 0 <= i < k => rounds[i].outcome)
  }

  lemma HistoryStep(first: Outcome, rounds: seq<Round>, k: nat)
    requires k < |rounds|
    ensures History(first, rounds, k + 1) == History(first, rounds, k) + [rounds[k].outcome]
  {
  }

  /** How one more outcome moves the loop's variables. */
  lemma Observe(h: seq<Outcome>, o: Outcome)
    ensures Streak(h + [o]) == if Failure(o) then Streak(h) + 1 else 0
    ensures Retained(h + [o]) == if o.Ok? && (Retained(h).None? || Changed(Retained(h).value, o.value)) then Some(o.value) else Retained(h)
    ensures Sent(h + [o]) == Sent(h) + Sends(Retained(h), o)
  {
    assert (h + [o])[..|h|] == h;
  }

  ghost predicate WaitsFit(cfg: Config, first: Outcome, rounds: seq<Round>, waits: seq<int>) {
    && |waits| <= |rounds|
    && forall k :: 0 <= k < |waits| ==> waits[k] == Wait(cfg, History(first, rounds, k), rounds[k].now, rounds[k].draw)
  }

  lemma WaitsPush(cfg: Config, first: Outcome, rounds: seq<Round>, waits: seq<int>, d: int)
    requires WaitsFit(cfg, first, rounds, waits) && |waits| < |rounds|
    requires d == Wait(cfg, History(first, rounds, |waits|), rounds[|waits|].now, rounds[|waits|].draw)
    ensures WaitsFit(cfg, first, rounds, waits + [d])
  {
  }

  /** The choice of the next wait: backoff first, then the interval cut short by a lease. */
  method NextWait(bo: Backoff, cfg: Config, last: Option<Value>, now: int, draw: real) returns (d: int)
    ensures var retry := RetryDelay(bo.base as int, bo.ceiling as int, bo.failures);
            d == if retry > 0 then Jittered(retry, cfg.jitter, draw)
                 else LeaseCap(Jittered(cfg.interval, cfg.jitter, draw), last, now)
  {
    var retry, _ := bo.Delay();
    if retry > 0 {
      return Jittered(retry as int, cfg.jitter, draw);
    }
    d := Jittered(cfg.interval, cfg.jitter, draw);
    if last.Some? && last.value.notAfter.Some? {
      var untilExpiry := last.value.notAfter.value - now;
      if untilExpiry > 0 {
        var leaseRefresh := untilExpiry - untilExpiry / 10;
        if leaseRefresh <= 0 {
          leaseRefresh := untilExpiry;
        }
        if leaseRefresh < d {
          d := leaseRefresh;
        }
      }
    }
  }

  /** The wait of the coming round is the one its history calls for. */
  method WaitRound(bo: Backoff, cfg: Config, last: Option<Value>, ghost first: Outcome, rounds: seq<Round>, waits: seq<int>) returns (d: int)
    requires WaitsFit(cfg, first, rounds, waits) && |waits| < |rounds|
    requires Mirrors(bo, cfg) && bo.failures == Streak(History(first, rounds, |waits|)) && last == Retained(History(first, rounds, |waits|))
    ensures WaitsFit(cfg, first, rounds, waits + [d])
  {
    var round := rounds[|waits|];
    d := NextWait(bo, cfg, last, round.now, round.draw);
    WaitsPush(cfg, first, rounds, waits, d);
  }

  ghost predicate Mirrors(bo: Backoff, cfg: Config) {
    && bo.base == (if cfg.base <= 0 then 0 else cfg.base)
    && (cfg.base > 0 ==> bo.ceiling as int == Max(cfg.base as int, cfg.ceiling as int))
  }

  /** What the loop does with an outcome: a not-found ends a streak but says nothing, a failure
      extends it and is reported, a success is reported if it differs from the last one. */
  method Handle(bo: Backoff, last: Option<Value>, o: Outcome) returns (now: Option<Value>, more: seq<Outcome>)
    modifies bo
    ensures bo.failures == if Failure(o) then old(bo.failures) + 1 else 0
    ensures now == if o.Ok? && (last.None? || Changed(last.value, o.value)) then Some(o.value) else last
    ensures more == Sends(last, o)
  {
    now, more := last, [];
    match o
    case Bad(err) =>
      if IsNotFound(err) {
        bo.Reset();
      } else {
        bo.Fail();
        more := [o];
      }
    case Ok(v) =>
      bo.Reset();
      if last.None? || Changed(last.value, v) {
        now, more := Some(v), [o];
      }
  }

  /** The loop, for any sequence of outcomes: everything it puts on the channel and every wait
      is what the history of outcomes says. */
  method PollWatch(cfg: Config, first: Outcome, rounds: seq<Round>) returns (sent: seq<Outcome>, waits: seq<int>)
    ensures sent == Sent(History(first, rounds, |rounds|))
    ensures |waits| == |rounds| && WaitsFit(cfg, first, rounds, waits)
  {
    var bo := new Backoff(cfg.base, cfg.ceiling);
    var last: Option<Value>;
    last, sent := Baseline(bo, first);
    waits := [];
    ghost var h := [first];
    assert h == History(first, rounds, 0);
    var k := 0;
    while k < |rounds|
      invariant 0 <= k <= |rounds| && |waits| == k
      invariant fresh(bo) && Mirrors(bo, cfg)
      invariant h == History(first, rounds, k)
      invariant bo.failures == Streak(h) && last == Retained(h) && sent == Sent(h)
      invariant WaitsFit(cfg, first, rounds, waits)
    {
      var d := WaitRound(bo, cfg, last, first, rounds, waits);
      waits := waits + [d];
      HistoryStep(first, rounds, k);
      last, sent := ResolveRound(bo, last, sent, rounds[k].outcome, h);
      h := h + [rounds[k].outcome];
      k := k + 1;
    }
  }

  /** The first resolve: a value is always the baseline, and a failure is the first of a streak. */
  method Baseline(bo: Backoff, first: Outcome) returns (last: Option<Value>, sent: seq<Outcome>)
    requires bo.failures == 0
    modifies bo
    ensures bo.failures == Streak([first]) && last == Retained([first]) && sent == Sent([first])
  {
    last, sent := None, [];
    Observe([], first);
    assert [] + [first] == [first];
    match first
    case Ok(v) =>
      last := Some(v);
      sent := sent + [first];
    case Bad(err) =>
      if !IsNotFound(err) {
        bo.Fail();
        sent := sent + [first];
      }
  }

  method ResolveRound(bo: Backoff, last: Option<Value>, sent: seq<Outcome>, o: Outcome, ghost h: seq<Outcome>) returns (now: Option<Value>, more: seq<Outcome>)
    requires bo.failures == Streak(h) && last == Retained(h) && sent == Sent(h)
    modifies bo
    ensures bo.failures == Streak(h + [o]) && now == Retained(h + [o]) && more == Sent(h + [o])
  {
    Observe(h, o);
    now, more := Handle(bo, last, o);
    more := sent + more;
  }

  // ---------------------------------------------------------------- what that amounts to

  function Failures(h: seq<Outcome>): seq<Outcome> {
    if h == [] then [] else Failures(h[..|h| - 1]) + if Failure(h[|h| - 1]) then [h[|h| - 1]] else []
  }

  function Successes(h: seq<Outcome>): seq<Value> {
    if h == [] then [] else Successes(h[..|h| - 1]) + if h[|h| - 1].Ok? then [h[|h| - 1].value] else []
  }

  lemma PushBoth(h: seq<Outcome>, o: Outcome)
    ensures Failures(h + [o]) == Failures(h) + if Failure(o) then [o] else []
    ensures Successes(h + [o]) == Successes(h) + if o.Ok? then [o.value] else []
  {
    assert (h + [o])[..|h|] == h;
  }

  lemma SentStep(h: seq<Outcome>) returns (prev: seq<Outcome>, o: Outcome)
    requires h != []
    ensures h == prev + [o] && |prev| == |h| - 1
    ensures Sent(h) == Sent(prev) || (Sent(h) == Sent(prev) + [o])
    ensures Sent(h) == Sent(prev) + [o] <==> Failure(o) || (o.Ok? && (Retained(prev).None? || Changed(Retained(prev).value, o.value)))
  {
    prev, o := h[..|h| - 1], h[|h| - 1];
    assert Sent(prev) + [] == Sent(prev);
  }

  /** Every error that is not a not-found is emitted, in order; no not-found ever is. */
  lemma {:induction false} EveryFailureSent(h: seq<Outcome>)
    ensures Failures(Sent(h)) == Failures(h)
    ensures forall i :: 0 <= i < |Sent(h)| ==> Sent(h)[i].Bad? ==> Failure(Sent(h)[i])
  {
    if h != [] {
      var prev, o := SentStep(h);
      EveryFailureSent(prev);
      PushBoth(prev, o);
      PushBoth(Sent(prev), o);
    }
  }

  function Last(vs: seq<Value>): Option<Value> {
    if vs == [] then None else Some(vs[|vs| - 1])
  }

  ghost predicate AllDiffer(vs: seq<Value>) {
    forall i, j :: 0 <= i < |vs| && j == i + 1 && j < |vs| ==> Changed(vs[i], vs[j])
  }

  /** The retained value is the last success emitted ... */
  lemma {:induction false} RetainedIsLastSent(h: seq<Outcome>)
    ensures Retained(h) == Last(Successes(Sent(h)))
  {
    if h != [] {
      var prev, o := h[..|h| - 1], h[|h| - 1];
      assert h == prev + [o];
      RetainedIsLastSent(prev);
      Observe(prev, o);
      SentAfter(Sent(prev), Retained(prev), o);
    }
  }

  lemma SentAfter(sent: seq<Outcome>, r: Option<Value>, o: Outcome)
    ensures Successes(sent + Sends(r, o)) == Successes(sent) + if o.Ok? && (r.None? || Changed(r.value, o.value)) then [o.value] else []
  {
    assert sent + [] == sent;
    PushBoth(sent, o);
  }

  /** ... and it is not a different value from the newest success: no change goes unseen. */
  lemma {:induction false} NoChangeMissed(h: seq<Outcome>)
    ensures Successes(h) != [] ==> Retained(h).Some? && !Changed(Retained(h).value, Last(Successes(h)).value)
  {
    if h != [] {
      var prev, o := h[..|h| - 1], h[|h| - 1];
      assert h == prev + [o];
      NoChangeMissed(prev);
      Observe(prev, o);
      PushBoth(prev, o);
    }
  }

  lemma DifferPush(vs: seq<Value>, v: Value)
    requires AllDiffer(vs) && (vs == [] || Changed(Last(vs).value, v))
    ensures AllDiffer(vs + [v])
  {
  }

  /** Two successes emitted one after the other always differ. */
  lemma {:induction false} OnlyChangesSent(h: seq<Outcome>)
    ensures AllDiffer(Successes(Sent(h)))
  {
    if h != [] {
      var prev, o := SentStep(h);
      OnlyChangesSent(prev);
      RetainedIsLastSent(prev);
      PushBoth(Sent(prev), o);
      if o.Ok? && Sent(h) == Sent(prev) + [o] {
        DifferPush(Successes(Sent(prev)), o.value);
      }
    }
  }

  /** A streak is as long as the run of failures the history ends in. */
  lemma {:induction false} StreakMeans(h: seq<Outcome>)
    ensures Streak(h) <= |h|
    ensures forall i :: |h| - Streak(h) <= i < |h| ==> Failure(h[i])
    ensures Streak(h) < |h| ==> !Failure(h[|h| - Streak(h) - 1])
  {
    if h != [] {
      StreakMeans(h[..|h| - 1]);
    }
  }

  /** With no backoff in force the poller comes back no later than a retained value's expiry
      while that is still ahead, and by nine tenths of what is left of it. */
  lemma NeverPastExpiry(cfg: Config, h: seq<Outcome>, now: int, draw: real)
    requires RetryFor(cfg, h) <= 0
    requires Retained(h).Some? && Retained(h).value.notAfter.Some? && Retained(h).value.notAfter.value > now
    ensures var left := Retained(h).value.notAfter.value - now;
            && now + Wait(cfg, h, now, draw) <= Retained(h).value.notAfter.value
            && 10 * Wait(cfg, h, now, draw) <= 9 * left + 9
            && (left >= 10 ==> now + Wait(cfg, h, now, draw) < Retained(h).value.notAfter.value)
  {
  }

  /** A retained value whose lease ends after `now`. */
  ghost predicate LeaseAhead(h: seq<Outcome>, now: int) {
    Retained(h).Some? && Retained(h).value.notAfter.Some? && now < Retained(h).value.notAfter.value
  }

  /** Nine tenths of `left`, rounded up. */
  ghost predicate NineTenths(left: int, cut: int) {
    9 * left <= 10 * cut < 9 * left + 10
  }

  /** Without backoff configured, or with anything but a failure last, the wait is the jittered
      interval; a lease still ahead cuts it to nine tenths of what is left, rounded up, and never
      makes it longer. */
  lemma WaitMeans(cfg: Config, h: seq<Outcome>, now: int, draw: real)
    requires cfg.base <= 0 || h == [] || !Failure(h[|h| - 1])
    ensures !LeaseAhead(h, now) ==> Wait(cfg, h, now, draw) == Jittered(cfg.interval, cfg.jitter, draw)
    ensures LeaseAhead(h, now) ==>
              exists cut :: NineTenths(Retained(h).value.notAfter.value - now, cut)
                            && Wait(cfg, h, now, draw) == Min(cut, Jittered(cfg.interval, cfg.jitter, draw))
  {
    if LeaseAhead(h, now) {
      var left := Retained(h).value.notAfter.value - now;
      var cut := left - left / 10;
      assert NineTenths(left, cut);
      assert Wait(cfg, h, now, draw) == LeaseCap(Jittered(cfg.interval, cfg.jitter, draw), Retained(h), now);
    }
  }

  /** With backoff configured and a failure last, the retry delay governs outright, whatever the
      interval and the lease: it is doubled per failure and held at the ceiling. */
  lemma BackoffGoverns(cfg: Config, h: seq<Outcome>, now: int, draw: real)
    requires cfg.base > 0 && h != [] && Failure(h[|h| - 1])
    ensures var n, top := Streak(h), Max(cfg.base as int, cfg.ceiling as int);
            n > 0 && Wait(cfg, h, now, draw) == Jittered(Min(cfg.base as int * Pow2(n - 1), top), cfg.jitter, draw)
  {
    Scale(cfg.base as int, 1, Pow2(Streak(h) - 1));
  }
}
