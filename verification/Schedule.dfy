/** The manually driven clock: timers, tickers, and the callers waiting until enough timers are
    armed. Instants and durations are integers. */
module Schedule {

  datatype Waiter = Waiter(id: nat, deadline: int)

  datatype Ticker = Ticker(id: nat, interval: int, next: int, stopped: bool)

  /** What an advance does at one instant: fire timer `id`, or offer ticker `id` a tick. */
  datatype Event = Event(at: int, id: nat, tick: bool)

  /** The part of the clock that time acts on. */
  datatype Face = Face(now: int, waiters: seq<Waiter>, tickers: seq<Ticker>)

  // ---------------------------------------------------------------- what falls due

  function Fired(w: Waiter): Event { Event(w.deadline, w.id, false) }

  function DueTimers(ws: seq<Waiter>, target: int): seq<Event> {
    if ws == [] then []
    else if ws[0].deadline <= target then [Fired(ws[0])] + DueTimers(ws[1..], target)
    else DueTimers(ws[1..], target)
  }

  function Pending(ws: seq<Waiter>, target: int): seq<Waiter> {
    if ws == [] then []
    else if ws[0].deadline <= target then Pending(ws[1..], target)
    else [ws[0]] + Pending(ws[1..], target)
  }

  predicate Live(t: Ticker) { t.interval > 0 }

  function TicksFrom(t: Ticker, target: int): seq<Event>
    requires Live(t)
    decreases target - t.next
  {
    if t.next > target then []
    else [Event(t.next, t.id, true)] + TicksFrom(t.(next := t.next + t.interval), target)
  }

  function Rolled(t: Ticker, target: int): Ticker
    requires Live(t)
    decreases target - t.next
  {
    if t.next > target then t else Rolled(t.(next := t.next + t.interval), target)
  }

  function Ticks(t: Ticker, target: int): seq<Event>
    requires Live(t)
  {
    if t.stopped then [] else TicksFrom(t, target)
  }

  function RolledUnlessStopped(t: Ticker, target: int): Ticker
    requires Live(t)
  {
    if t.stopped then t else Rolled(t, target)
  }

  ghost predicate AllLive(ts: seq<Ticker>) {
    forall i :: 0 <= i < |ts| ==> Live(ts[i])
  }

  function DueTicks(ts: seq<Ticker>, target: int): seq<Event>
    requires AllLive(ts)
  {
    if ts == [] then [] else Ticks(ts[0], target) + DueTicks(ts[1..], target)
  }

  function RolledAll(ts: seq<Ticker>, target: int): seq<Ticker>
    requires AllLive(ts)
  {
    if ts == [] then [] else [RolledUnlessStopped(ts[0], target)] + RolledAll(ts[1..], target)
  }

  /** Everything due by `target`, in the order it is collected: timers, then tickers. */
  function Due(c: Face, target: int): seq<Event>
    requires AllLive(c.tickers)
  {
    DueTimers(c.waiters, target) + DueTicks(c.tickers, target)
  }

  // ---------------------------------------------------------------- stable sort

  function Insert(e: Event, es: seq<Event>): seq<Event> {
    if es == [] || e.at <= es[0].at then [e] + es else [es[0]] + Insert(e, es[1..])
  }

  /** The stable sort by instant. */
  function Sort(es: seq<Event>): seq<Event> {
    if es == [] then [] else Insert(es[0], Sort(es[1..]))
  }

  ghost predicate Sorted(es: seq<Event>) {
    forall i, j :: 0 <= i < j < |es| ==> es[i].at <= es[j].at
  }

  /** The events at one instant, in order. */
  function At(es: seq<Event>, x: int): seq<Event> {
    if es == [] then [] else if es[0].at == x then [es[0]] + At(es[1..], x) else At(es[1..], x)
  }

  function Early(es: seq<Event>, m: int): seq<Event> {
    if es == [] then [] else if es[0].at <= m then [es[0]] + Early(es[1..], m) else Early(es[1..], m)
  }

  function Late(es: seq<Event>, m: int): seq<Event> {
    if es == [] then [] else if es[0].at <= m then Late(es[1..], m) else [es[0]] + Late(es[1..], m)
  }

  lemma {:induction false} InsertAdds(e: Event, es: seq<Event>)
    ensures multiset(Insert(e, es)) == multiset{e} + multiset(es)
  {
    if es != [] {
      InsertAdds(e, es[1..]);
      assert es == [es[0]] + es[1..];
    }
  }

  lemma {:induction false} InsertSorted(e: Event, es: seq<Event>)
    requires Sorted(es)
    ensures Sorted(Insert(e, es))
  {
    if es != [] && e.at > es[0].at {
      InsertSorted(e, es[1..]);
      InsertHead(e, es[1..]);
    }
  }

  lemma InsertHead(e: Event, es: seq<Event>)
    ensures Insert(e, es)[0].at == if es == [] || e.at <= es[0].at then e.at else es[0].at
  {
  }

  lemma {:induction false} SortSorts(es: seq<Event>)
    ensures Sorted(Sort(es)) && multiset(Sort(es)) == multiset(es)
  {
    if es != [] {
      SortSorts(es[1..]);
      InsertSorted(es[0], Sort(es[1..]));
      InsertAdds(es[0], Sort(es[1..]));
      assert es == [es[0]] + es[1..];
    }
  }

  lemma {:induction false} AtInsert(e: Event, es: seq<Event>, x: int)
    ensures At(Insert(e, es), x) == if e.at == x then [e] + At(es, x) else At(es, x)
  {
    var r := Insert(e, es);
    if es == [] || e.at <= es[0].at {
      assert r[1..] == es;
    } else {
      AtInsert(e, es[1..], x);
      assert r[1..] == Insert(e, es[1..]);
    }
  }

  /** Stability: the events of each instant keep the order they were collected in. */
  lemma {:induction false} SortStable(es: seq<Event>, x: int)
    ensures At(Sort(es), x) == At(es, x)
  {
    if es != [] {
      SortStable(es[1..], x);
      AtInsert(es[0], Sort(es[1..]), x);
    }
  }

  lemma {:induction false} AtAbsent(es: seq<Event>, x: int)
    requires forall i :: 0 <= i < |es| ==> es[i].at != x
    ensures At(es, x) == []
  {
    if es != [] {
      AtAbsent(es[1..], x);
    }
  }

  lemma HeadAt(es: seq<Event>)
    requires es != []
    ensures At(es, es[0].at) != []
  {
  }

  lemma {:induction false} AtHead(es: seq<Event>, x: int)
    requires At(es, x) != []
    ensures exists i :: 0 <= i < |es| && es[i].at == x
  {
    if forall i :: 0 <= i < |es| ==> es[i].at != x {
      AtAbsent(es, x);
    }
  }

  /** Sorted and stable says it all: any sort with both properties gives this sequence. */
  lemma {:induction false} SortedAndStableIsUnique(a: seq<Event>, b: seq<Event>)
    requires Sorted(a) && Sorted(b) && forall x :: At(a, x) == At(b, x)
    ensures a == b
    decreases |a|
  {
    if a == [] {
      if b != [] {
        HeadAt(b);
        assert false;
      }
    } else {
      assert At(a, a[0].at) == At(b, a[0].at);
      AtHead(b, a[0].at);
      assert At(a, b[0].at) == At(b, b[0].at);
      AtHead(a, b[0].at);
      assert a[0].at == b[0].at;
      forall x
        ensures At(a[1..], x) == At(b[1..], x)
      {
        assert At(a, x) == At(b, x);
        assert a[0].at == x ==> At(a, x)[1..] == At(a[1..], x) && At(b, x)[1..] == At(b[1..], x);
      }
      SortedAndStableIsUnique(a[1..], b[1..]);
      assert a[0] == At(a, a[0].at)[0] && b[0] == At(b, b[0].at)[0];
      assert a == [a[0]] + a[1..] && b == [b[0]] + b[1..];
    }
  }

  lemma Regroup(a: seq<Event>, b: seq<Event>, c: seq<Event>)
    ensures (a + b) + c == a + (b + c)
  {
  }

  lemma Front(a: seq<Event>, b: seq<Event>)
    requires a != []
    ensures a + b != [] && (a + b)[0] == a[0] && (a + b)[1..] == a[1..] + b
  {
  }

  lemma {:induction false} InsertLow(e: Event, a: seq<Event>, b: seq<Event>)
    requires forall i :: 0 <= i < |b| ==> e.at <= b[i].at
    ensures Insert(e, a + b) == Insert(e, a) + b
  {
    if a == [] {
      assert a + b == b;
    } else {
      Front(a, b);
      if e.at > a[0].at {
        InsertLow(e, a[1..], b);
        Regroup([a[0]], Insert(e, a[1..]), b);
      } else {
        Regroup([e], a, b);
      }
    }
  }

  lemma {:induction false} InsertHigh(e: Event, a: seq<Event>, b: seq<Event>)
    requires forall i :: 0 <= i < |a| ==> a[i].at < e.at
    ensures Insert(e, a + b) == a + Insert(e, b)
  {
    if a == [] {
      assert a + b == b && a + Insert(e, b) == Insert(e, b);
    } else {
      Front(a, b);
      InsertHigh(e, a[1..], b);
      Regroup([a[0]], a[1..], Insert(e, b));
      assert a == [a[0]] + a[1..];
    }
  }

  lemma {:induction false} EarlyLate(es: seq<Event>, m: int)
    ensures forall i :: 0 <= i < |Early(es, m)| ==> Early(es, m)[i].at <= m
    ensures forall i :: 0 <= i < |Late(es, m)| ==> Late(es, m)[i].at > m
  {
    if es != [] {
      EarlyLate(es[1..], m);
    }
  }

  lemma SortKeepsMembers(es: seq<Event>)
    ensures forall i :: 0 <= i < |Sort(es)| ==> Sort(es)[i] in es
  {
    SortSorts(es);
    forall i | 0 <= i < |Sort(es)|
      ensures Sort(es)[i] in es
    {
      assert Sort(es)[i] in multiset(Sort(es));
    }
  }

  /** Cutting at any instant: first everything up to it, then everything after it. */
  lemma {:induction false} SortSplits(es: seq<Event>, m: int)
    ensures Sort(es) == Sort(Early(es, m)) + Sort(Late(es, m))
  {
    if es != [] {
      var e, lo, hi := es[0], Early(es[1..], m), Late(es[1..], m);
      SortSplits(es[1..], m);
      EarlyLate(es[1..], m);
      SortKeepsMembers(lo);
      SortKeepsMembers(hi);
      if e.at <= m {
        InsertLow(e, Sort(lo), Sort(hi));
        assert Early(es, m) == [e] + lo && Late(es, m) == hi;
      } else {
        InsertHigh(e, Sort(lo), Sort(hi));
        assert Early(es, m) == lo && Late(es, m) == [e] + hi;
      }
    }
  }

  // ---------------------------------------------------------------- advancing

  /** The clock once everything due by `target` is out of it. */
  function FaceAt(c: Face, target: int): Face
    requires AllLive(c.tickers)
  {
    Face(target, Pending(c.waiters, target), RolledAll(c.tickers, target))
  }

  function Advanced(c: Face, d: int): Face
    requires AllLive(c.tickers)
  {
    FaceAt(c, c.now + d)
  }

  /** What falls due by `target`, in the order it happens. */
  function HappenedBy(c: Face, target: int): seq<Event>
    requires AllLive(c.tickers)
  {
    Sort(Due(c, target))
  }

  function Happened(c: Face, d: int): seq<Event>
    requires AllLive(c.tickers)
  {
    HappenedBy(c, c.now + d)
  }

  lemma {:induction false} TimersSplit(ws: seq<Waiter>, m: int, target: int)
    requires m <= target
    ensures Early(DueTimers(ws, target), m) == DueTimers(ws, m)
    ensures Late(DueTimers(ws, target), m) == DueTimers(Pending(ws, m), target)
    ensures Pending(Pending(ws, m), target) == Pending(ws, target)
  {
    if ws != [] {
      TimersSplit(ws[1..], m, target);
      var rest := DueTimers(ws[1..], target);
      if ws[0].deadline <= target {
        assert DueTimers(ws, target)[1..] == rest;
      }
      if ws[0].deadline > m {
        assert Pending(ws, m) == [ws[0]] + Pending(ws[1..], m);
        assert Pending(ws, m)[1..] == Pending(ws[1..], m);
      }
    }
  }

  lemma {:induction false} TickerSplits(t: Ticker, m: int, target: int)
    requires Live(t) && m <= target
    ensures Live(Rolled(t, m)) && Rolled(t, m).stopped == t.stopped
    ensures Early(TicksFrom(t, target), m) == TicksFrom(t, m)
    ensures Late(TicksFrom(t, target), m) == TicksFrom(Rolled(t, m), target)
    ensures Rolled(Rolled(t, m), target) == Rolled(t, target)
    decreases target - t.next
  {
    if t.next <= target {
      var u := t.(next := t.next + t.interval);
      TickerSplits(u, m, target);
      assert TicksFrom(t, target)[1..] == TicksFrom(u, target);
      if t.next > m {
        assert Rolled(t, m) == t;
        LateAll(u, m, target);
      }
    }
  }

  lemma {:induction false} LateAll(t: Ticker, m: int, target: int)
    requires Live(t) && m < t.next
    ensures Early(TicksFrom(t, target), m) == [] && Late(TicksFrom(t, target), m) == TicksFrom(t, target)
    decreases target - t.next
  {
    if t.next <= target {
      var u := t.(next := t.next + t.interval);
      LateAll(u, m, target);
      assert TicksFrom(t, target)[1..] == TicksFrom(u, target);
    }
  }

  lemma {:induction false} EarlyConcat(a: seq<Event>, b: seq<Event>, m: int)
    ensures Early(a + b, m) == Early(a, m) + Early(b, m)
  {
    if a == [] {
      assert a + b == b;
    } else {
      EarlyConcat(a[1..], b, m);
      Front(a, b);
      Regroup([a[0]], Early(a[1..], m), Early(b, m));
    }
  }

  lemma {:induction false} LateConcat(a: seq<Event>, b: seq<Event>, m: int)
    ensures Late(a + b, m) == Late(a, m) + Late(b, m)
  {
    if a == [] {
      assert a + b == b;
    } else {
      LateConcat(a[1..], b, m);
      Front(a, b);
      Regroup([a[0]], Late(a[1..], m), Late(b, m));
    }
  }

  lemma {:induction false} TickersSplit(ts: seq<Ticker>, m: int, target: int)
    requires AllLive(ts) && m <= target
    ensures AllLive(RolledAll(ts, m))
    ensures Early(DueTicks(ts, target), m) == DueTicks(ts, m)
    ensures Late(DueTicks(ts, target), m) == DueTicks(RolledAll(ts, m), target)
    ensures RolledAll(RolledAll(ts, m), target) == RolledAll(ts, target)
  {
    if ts != [] {
      TickersSplit(ts[1..], m, target);
      TickerSplits(ts[0], m, target);
      EarlyConcat(Ticks(ts[0], target), DueTicks(ts[1..], target), m);
      LateConcat(Ticks(ts[0], target), DueTicks(ts[1..], target), m);
      var rolled := RolledAll(ts, m);
      assert rolled[0] == RolledUnlessStopped(ts[0], m) && rolled[1..] == RolledAll(ts[1..], m);
      assert Live(rolled[0]);
    }
  }

  lemma DueSplits(c: Face, m: int, target: int)
    requires AllLive(c.tickers) && m <= target
    ensures AllLive(RolledAll(c.tickers, m))
    ensures Early(Due(c, target), m) == Due(c, m)
    ensures Late(Due(c, target), m) == Due(Face(m, Pending(c.waiters, m), RolledAll(c.tickers, m)), target)
  {
    TimersSplit(c.waiters, m, target);
    TickersSplit(c.tickers, m, target);
    EarlyConcat(DueTimers(c.waiters, target), DueTicks(c.tickers, target), m);
    LateConcat(DueTimers(c.waiters, target), DueTicks(c.tickers, target), m);
  }

  lemma EventsSplit(c: Face, m: int, target: int)
    requires AllLive(c.tickers) && m <= target
    ensures AllLive(FaceAt(c, m).tickers)
    ensures Sort(Due(c, target)) == Sort(Due(c, m)) + Sort(Due(FaceAt(c, m), target))
  {
    var due := Due(c, target);
    SortSplits(due, m);
    DueSplits(c, m, target);
  }

  lemma FacesSplit(c: Face, m: int, target: int)
    requires AllLive(c.tickers) && m <= target
    ensures AllLive(FaceAt(c, m).tickers) && FaceAt(FaceAt(c, m), target) == FaceAt(c, target)
  {
    TimersSplit(c.waiters, m, target);
    TickersSplit(c.tickers, m, target);
  }

  /** Advancing by `a` and then by `b` makes the same events happen in the same order as
      advancing by `a + b`, and leaves the same timers and tickers. */
  lemma AdvanceSplits(c: Face, a: int, b: int)
    requires AllLive(c.tickers) && b >= 0
    ensures AllLive(Advanced(c, a).tickers)
    ensures Happened(c, a + b) == Happened(c, a) + Happened(Advanced(c, a), b)
    ensures Advanced(c, a + b) == Advanced(Advanced(c, a), b)
  {
    var m, target := c.now + a, c.now + (a + b);
    EventsSplit(c, m, target);
    FacesSplit(c, m, target);
    assert Advanced(c, a).now + b == target;
  }

  /** Nothing falls due up to `target`. */
  ghost predicate Quiet(c: Face, target: int) {
    && (forall i :: 0 <= i < |c.waiters| ==> c.waiters[i].deadline > target)
    && (forall i :: 0 <= i < |c.tickers| ==> c.tickers[i].stopped || c.tickers[i].next > target)
  }

  lemma {:induction false} NoTimersDue(ws: seq<Waiter>, target: int)
    ensures DueTimers(ws, target) == [] <==> forall i :: 0 <= i < |ws| ==> ws[i].deadline > target
    ensures DueTimers(ws, target) == [] ==> Pending(ws, target) == ws
  {
    if ws != [] {
      NoTimersDue(ws[1..], target);
      assert ws == [ws[0]] + ws[1..];
    }
  }

  lemma {:induction false} NoTicksDue(ts: seq<Ticker>, target: int)
    requires AllLive(ts)
    ensures DueTicks(ts, target) == [] <==> forall i :: 0 <= i < |ts| ==> ts[i].stopped || ts[i].next > target
    ensures DueTicks(ts, target) == [] ==> RolledAll(ts, target) == ts
  {
    if ts != [] {
      NoTicksDue(ts[1..], target);
      assert ts == [ts[0]] + ts[1..];
    }
  }

  lemma QuietIffNothingDue(c: Face, target: int)
    requires AllLive(c.tickers)
    ensures Due(c, target) == [] <==> Quiet(c, target)
    ensures Quiet(c, target) ==> FaceAt(c, target) == c.(now := target)
  {
    NoTimersDue(c.waiters, target);
    NoTicksDue(c.tickers, target);
  }

  lemma {:induction false} PendingIsLater(ws: seq<Waiter>, target: int)
    ensures forall i :: 0 <= i < |Pending(ws, target)| ==> Pending(ws, target)[i].deadline > target
  {
    if ws != [] {
      PendingIsLater(ws[1..], target);
    }
  }

  lemma {:induction false} RolledIsLater(t: Ticker, target: int)
    requires Live(t)
    ensures Rolled(t, target).next > target && Live(Rolled(t, target)) && Rolled(t, target) == t.(next := Rolled(t, target).next)
    decreases target - t.next
  {
    if t.next <= target {
      RolledIsLater(t.(next := t.next + t.interval), target);
    }
  }

  lemma {:induction false} RolledAllIsLater(ts: seq<Ticker>, target: int)
    requires AllLive(ts)
    ensures |RolledAll(ts, target)| == |ts| && AllLive(RolledAll(ts, target))
    ensures forall i :: 0 <= i < |ts| ==> RolledAll(ts, target)[i] == RolledUnlessStopped(ts[i], target)
    ensures forall i :: 0 <= i < |ts| ==> RolledAll(ts, target)[i].stopped || RolledAll(ts, target)[i].next > target
  {
    if ts != [] {
      RolledAllIsLater(ts[1..], target);
      RolledIsLater(ts[0], target);
    }
  }

  /** After an advance every timer still pending, and every running ticker's next tick, lies
      strictly after the new now. */
  lemma AdvanceLeavesOnlyLater(c: Face, target: int)
    requires AllLive(c.tickers)
    ensures AllLive(FaceAt(c, target).tickers) && Quiet(FaceAt(c, target), target)
  {
    PendingIsLater(c.waiters, target);
    RolledAllIsLater(c.tickers, target);
  }

  /** A ticker's ticks are evenly spaced from its next one, every one up to `target` and none
      after, and its next tick is the first beyond. */
  lemma {:induction false} TickTimes(t: Ticker, target: int)
    requires Live(t)
    ensures var n := |TicksFrom(t, target)|;
            && (forall k :: 0 <= k < n ==> TicksFrom(t, target)[k] == Event(t.next + k * t.interval, t.id, true))
            && Rolled(t, target).next == t.next + n * t.interval
            && target < t.next + n * t.interval
            && (n > 0 ==> t.next + (n - 1) * t.interval <= target)
    decreases target - t.next
  {
    if t.next <= target {
      var u := t.(next := t.next + t.interval);
      TickTimes(u, target);
      var ticks, rest := TicksFrom(t, target), TicksFrom(u, target);
      assert ticks == [Event(t.next, t.id, true)] + rest;
      forall k | 0 <= k < |ticks|
        ensures ticks[k] == Event(t.next + k * t.interval, t.id, true)
      {
        if k > 0 {
          assert ticks[k] == rest[k - 1];
          Spread(k - 1, t.interval);
        }
      }
      Spread(|rest|, t.interval);
      Spread(|rest| - 1, t.interval);
    }
  }

  lemma Spread(k: int, step: int)
    ensures (k + 1) * step == step + k * step
  {
  }

  lemma {:induction false} InsertLength(e: Event, es: seq<Event>)
    ensures |Insert(e, es)| == |es| + 1
  {
    if es != [] {
      InsertLength(e, es[1..]);
    }
  }

  lemma SortEmpty(es: seq<Event>)
    ensures Sort(es) == [] <==> es == []
  {
    if es != [] {
      InsertLength(es[0], Sort(es[1..]));
    }
  }

  /** Moving the clock back does not undo what an advance did. Advancing to `high` and then back
      to `low`, and advancing to `low` at once, make the same events happen if and only if
      nothing falls due in the stretch gone back over, and then leave the same clock. */
  lemma GoingBack(c: Face, high: int, low: int)
    requires AllLive(c.tickers) && low < high
    ensures AllLive(FaceAt(c, low).tickers) && AllLive(FaceAt(c, high).tickers)
    ensures HappenedBy(c, low) == HappenedBy(c, high) + HappenedBy(FaceAt(c, high), low) <==> Quiet(FaceAt(c, low), high)
    ensures Quiet(FaceAt(c, low), high) ==> FaceAt(c, low) == FaceAt(FaceAt(c, high), low)
  {
    BackEvents(c, low, high);
    BackFaces(c, low, high);
  }

  /** A timer due in five: forward by ten and back by six has fired it, forward by four has not. */
  lemma BackAndForthDiffers()
    ensures var c := Face(0, [Waiter(1, 5)], []);
            && Happened(c, 10) + Happened(Advanced(c, 10), -6) == [Event(5, 1, false)]
            && Happened(c, 10 + -6) == []
            && Advanced(c, 10 + -6) != Advanced(Advanced(c, 10), -6)
  {
    var c := Face(0, [Waiter(1, 5)], []);
    assert c.waiters[1..] == [];
    assert Advanced(c, 10) == Face(10, [], []);
    assert Due(c, 10) == [Event(5, 1, false)];
    assert Sort([]) == [] && [Event(5, 1, false)][1..] == [];
    assert Sort([Event(5, 1, false)]) == [Event(5, 1, false)];
  }

  lemma BackEvents(c: Face, low: int, high: int)
    requires AllLive(c.tickers) && low < high
    ensures AllLive(FaceAt(c, low).tickers) && AllLive(FaceAt(c, high).tickers)
    ensures Sort(Due(c, low)) == Sort(Due(c, high)) + Sort(Due(FaceAt(c, high), low)) <==> Quiet(FaceAt(c, low), high)
  {
    AdvanceLeavesOnlyLater(c, low);
    AdvanceLeavesOnlyLater(c, high);
    QuietIffNothingDue(FaceAt(c, high), low);
    QuietIffNothingDue(FaceAt(c, low), high);
    SortEmpty(Due(FaceAt(c, low), high));
    EventsSplit(c, low, high);
  }

  lemma BackFaces(c: Face, low: int, high: int)
    requires AllLive(c.tickers) && low < high
    ensures AllLive(FaceAt(c, low).tickers) && AllLive(FaceAt(c, high).tickers)
    ensures Quiet(FaceAt(c, low), high) ==> FaceAt(c, low) == FaceAt(FaceAt(c, high), low)
  {
    AdvanceLeavesOnlyLater(c, low);
    AdvanceLeavesOnlyLater(c, high);
    FacesSplit(c, low, high);
    QuietIffNothingDue(FaceAt(c, high), low);
    QuietIffNothingDue(FaceAt(c, low), high);
  }

  // ---------------------------------------------------------------- each timer once

  /** How often timer `id` fires in `es`. */
  function Count(es: seq<Event>, id: nat): nat {
    if es == [] then 0 else (if !es[0].tick && es[0].id == id then 1 else 0) + Count(es[1..], id)
  }

  /** How many pending timers are called `id`. */
  function Armed(ws: seq<Waiter>, id: nat): nat {
    if ws == [] then 0 else (if ws[0].id == id then 1 else 0) + Armed(ws[1..], id)
  }

  lemma {:induction false} CountConcat(a: seq<Event>, b: seq<Event>, id: nat)
    ensures Count(a + b, id) == Count(a, id) + Count(b, id)
  {
    if a == [] {
      assert a + b == b;
    } else {
      CountConcat(a[1..], b, id);
      assert (a + b)[1..] == a[1..] + b;
    }
  }

  lemma {:induction false} ArmedConcat(a: seq<Waiter>, b: seq<Waiter>, id: nat)
    ensures Armed(a + b, id) == Armed(a, id) + Armed(b, id)
  {
    if a == [] {
      assert a + b == b;
    } else {
      ArmedConcat(a[1..], b, id);
      assert (a + b)[1..] == a[1..] + b;
    }
  }

  lemma {:induction false} CountInsert(e: Event, es: seq<Event>, id: nat)
    ensures Count(Insert(e, es), id) == Count([e], id) + Count(es, id)
  {
    if es == [] || e.at <= es[0].at {
      CountConcat([e], es, id);
    } else {
      CountInsert(e, es[1..], id);
      assert Insert(e, es)[1..] == Insert(e, es[1..]);
    }
  }

  lemma {:induction false} CountSort(es: seq<Event>, id: nat)
    ensures Count(Sort(es), id) == Count(es, id)
  {
    if es != [] {
      CountSort(es[1..], id);
      CountInsert(es[0], Sort(es[1..]), id);
    }
  }

  lemma {:induction false} CountTimers(ws: seq<Waiter>, target: int, id: nat)
    ensures Count(DueTimers(ws, target), id) + Armed(Pending(ws, target), id) == Armed(ws, id)
  {
    if ws != [] {
      CountTimers(ws[1..], target, id);
      if ws[0].deadline <= target {
        assert DueTimers(ws, target)[1..] == DueTimers(ws[1..], target);
      } else {
        assert Pending(ws, target)[1..] == Pending(ws[1..], target);
      }
    }
  }

  lemma {:induction false} TicksAreNotTimers(t: Ticker, target: int, id: nat)
    requires Live(t)
    ensures Count(TicksFrom(t, target), id) == 0
    decreases target - t.next
  {
    if t.next <= target {
      var u := t.(next := t.next + t.interval);
      TicksAreNotTimers(u, target, id);
      assert TicksFrom(t, target)[1..] == TicksFrom(u, target);
    }
  }

  lemma {:induction false} CountTicks(ts: seq<Ticker>, target: int, id: nat)
    requires AllLive(ts)
    ensures Count(DueTicks(ts, target), id) == 0
  {
    if ts != [] {
      CountTicks(ts[1..], target, id);
      TicksAreNotTimers(ts[0], target, id);
      CountConcat(Ticks(ts[0], target), DueTicks(ts[1..], target), id);
    }
  }

  /** Conservation: an advance fires each pending timer it passes, once, and keeps the rest. */
  lemma TimersConserved(c: Face, target: int, id: nat)
    requires AllLive(c.tickers)
    ensures Count(Sort(Due(c, target)), id) + Armed(FaceAt(c, target).waiters, id) == Armed(c.waiters, id)
  {
    CountSort(Due(c, target), id);
    CountConcat(DueTimers(c.waiters, target), DueTicks(c.tickers, target), id);
    CountTimers(c.waiters, target, id);
    CountTicks(c.tickers, target, id);
  }

  lemma {:induction false} ArmedMember(ws: seq<Waiter>, i: nat)
    requires i < |ws|
    ensures Armed(ws, ws[i].id) >= 1
  {
    if i > 0 {
      ArmedMember(ws[1..], i - 1);
    }
  }

  lemma {:induction false} TimerIsDue(ws: seq<Waiter>, target: int, i: nat)
    requires i < |ws|
    ensures ws[i].deadline <= target ==> Fired(ws[i]) in DueTimers(ws, target)
    ensures ws[i].deadline > target ==> ws[i] in Pending(ws, target)
  {
    if i > 0 {
      TimerIsDue(ws[1..], target, i - 1);
    }
  }

  lemma {:induction false} ArmedIn(ws: seq<Waiter>, w: Waiter)
    requires w in ws
    ensures Armed(ws, w.id) >= 1
  {
    var i :| 0 <= i < |ws| && ws[i] == w;
    ArmedMember(ws, i);
  }

  lemma DueFiresOnce(c: Face, target: int, i: nat)
    requires AllLive(c.tickers) && i < |c.waiters| && Armed(c.waiters, c.waiters[i].id) == 1 && c.waiters[i].deadline <= target
    ensures var w := c.waiters[i];
            Count(Sort(Due(c, target)), w.id) == 1 && Fired(w) in Sort(Due(c, target)) && Armed(Pending(c.waiters, target), w.id) == 0
  {
    var w := c.waiters[i];
    TimersConserved(c, target, w.id);
    TimerIsDue(c.waiters, target, i);
    FiredIn(Due(c, target), Fired(w));
  }

  lemma LaterStaysPending(c: Face, target: int, i: nat)
    requires AllLive(c.tickers) && i < |c.waiters| && Armed(c.waiters, c.waiters[i].id) == 1 && c.waiters[i].deadline > target
    ensures Count(Sort(Due(c, target)), c.waiters[i].id) == 0 && c.waiters[i] in Pending(c.waiters, target)
  {
    TimersConserved(c, target, c.waiters[i].id);
    TimerIsDue(c.waiters, target, i);
    ArmedIn(Pending(c.waiters, target), c.waiters[i]);
  }

  /** A pending timer whose deadline lies within the advance fires in it, once, at its deadline;
      one whose deadline lies beyond does not fire and stays pending. */
  lemma FiresExactlyOnce(c: Face, d: int, i: nat)
    requires AllLive(c.tickers) && i < |c.waiters| && Armed(c.waiters, c.waiters[i].id) == 1
    ensures var w := c.waiters[i];
            if w.deadline <= c.now + d
            then Count(Happened(c, d), w.id) == 1 && Fired(w) in Happened(c, d) && Armed(Advanced(c, d).waiters, w.id) == 0
            else Count(Happened(c, d), w.id) == 0 && w in Advanced(c, d).waiters
  {
    if c.waiters[i].deadline <= c.now + d {
      DueFiresOnce(c, c.now + d, i);
    } else {
      LaterStaysPending(c, c.now + d, i);
    }
  }

  lemma FiredIn(due: seq<Event>, e: Event)
    requires e in due && !e.tick
    ensures e in Sort(due) && Count(Sort(due), e.id) >= 1
  {
    SortSorts(due);
    assert e in multiset(due);
    CountSort(due, e.id);
    CountIn(due, e);
  }

  lemma {:induction false} CountIn(es: seq<Event>, e: Event)
    requires e in es && !e.tick
    ensures Count(es, e.id) >= 1
  {
    if es[0] != e {
      CountIn(es[1..], e);
    }
  }
}
