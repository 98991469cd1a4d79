/** The clock as an object: registering, stopping and advancing under one lock, firing outside
    it, and the callers of BlockUntil. Its time-keeping is proved to be the one Schedule
    describes. What the lock makes one step is one method here, and so is each event fired, so
    `Valid` holds between any two of them in any interleaving. */
module Clock {
  import opened Values
  import opened Schedule

  const EPOCH: int := 1767225600   // 2026-01-01T00:00:00Z, the start when none is given

  /** One outstanding BlockUntil call. */
  datatype Blocker = Blocker(id: nat, want: int)

  function Remaining(bs: seq<Blocker>, n: int): seq<Blocker> {
    if bs == [] then []
    else if n >= bs[0].want then Remaining(bs[1..], n)
    else [bs[0]] + Remaining(bs[1..], n)
  }

  function Reached(bs: seq<Blocker>, n: int): set<nat> {
    if bs == [] then {}
    else (if n >= bs[0].want then {bs[0].id} else {}) + Reached(bs[1..], n)
  }

  ghost predicate Distinct(bs: seq<Blocker>) {
    forall i, j :: 0 <= i < j < |bs| ==> bs[i].id != bs[j].id
  }

  /** Distinct calls, each numbered no higher than `top` and waiting for more than `n`. */
  ghost predicate Waiting(bs: seq<Blocker>, n: int, top: nat, gone: set<nat>) {
    && (forall b :: b in bs ==> b.want > n && b.id <= top && b.id !in gone)
    && Distinct(bs)
  }

  lemma {:induction false} RemainingAre(bs: seq<Blocker>, m: int)
    ensures forall b :: b in Remaining(bs, m) <==> b in bs && b.want > m
  {
    if bs != [] {
      RemainingAre(bs[1..], m);
      assert bs == [bs[0]] + bs[1..];
    }
  }

  lemma {:induction false} ReachedAre(bs: seq<Blocker>, m: int)
    ensures forall b :: b in bs && b.want <= m ==> b.id in Reached(bs, m)
    ensures forall id :: id in Reached(bs, m) ==> exists b :: b in bs && b.id == id && b.want <= m
  {
    if bs != [] {
      ReachedAre(bs[1..], m);
      assert bs == [bs[0]] + bs[1..];
    }
  }

  lemma {:induction false} RemainingDistinct(bs: seq<Blocker>, m: int)
    requires Distinct(bs)
    ensures Distinct(Remaining(bs, m))
  {
    if bs != [] {
      var rest := bs[1..];
      RemainingDistinct(rest, m);
      RemainingAre(rest, m);
      forall i | 0 <= i < |Remaining(rest, m)|
        ensures Remaining(rest, m)[i].id != bs[0].id
      {
        assert Remaining(rest, m)[i] in rest;
      }
    }
  }

  lemma SameIdSameCall(bs: seq<Blocker>, a: Blocker, b: Blocker)
    requires Distinct(bs) && a in bs && b in bs && a.id == b.id
    ensures a == b
  {
  }

  /** Notifying keeps exactly those waiting whose count is still short. */
  lemma Notified(bs: seq<Blocker>, n: int, m: int, top: nat, gone: set<nat>)
    requires Waiting(bs, n, top, gone)
    ensures Waiting(Remaining(bs, m), m, top, gone + Reached(bs, m))
    ensures forall b :: b in bs ==> (b.want > m <==> b in Remaining(bs, m)) && (b.want <= m <==> b.id in Reached(bs, m))
    ensures forall id :: id in Reached(bs, m) ==> id <= top
  {
    RemainingAre(bs, m);
    ReachedAre(bs, m);
    RemainingDistinct(bs, m);
    forall b | b in bs && b.id in Reached(bs, m)
      ensures b.want <= m
    {
      var c :| c in bs && c.id == b.id && c.want <= m;
      SameIdSameCall(bs, b, c);
    }
  }

  /** One-slot channels after offering them events in order: a full one keeps what it has. */
  function Offered(slots: map<nat, int>, es: seq<Event>, ticks: bool): map<nat, int>
    decreases |es|
  {
    if es == [] then slots
    else if es[0].tick == ticks && es[0].id !in slots then Offered(slots[es[0].id := es[0].at], es[1..], ticks)
    else Offered(slots, es[1..], ticks)
  }

  lemma {:induction false} OfferedConcat(slots: map<nat, int>, a: seq<Event>, b: seq<Event>, ticks: bool)
    ensures Offered(slots, a + b, ticks) == Offered(Offered(slots, a, ticks), b, ticks)
    decreases |a|
  {
    if a == [] {
      assert a + b == b;
    } else {
      assert (a + b)[1..] == a[1..] + b;
      if a[0].tick == ticks && a[0].id !in slots {
        OfferedConcat(slots[a[0].id := a[0].at], a[1..], b, ticks);
      } else {
        OfferedConcat(slots, a[1..], b, ticks);
      }
    }
  }

  /** So, with nobody receiving in between, two advances fill the channels as one does. */
  lemma AdvanceSplitsOnChannels(c: Face, slots: map<nat, int>, a: int, b: int, ticks: bool)
    requires AllLive(c.tickers) && b >= 0
    ensures AllLive(Advanced(c, a).tickers)
    ensures Offered(slots, Happened(c, a + b), ticks) == Offered(Offered(slots, Happened(c, a), ticks), Happened(Advanced(c, a), b), ticks)
  {
    AdvanceSplits(c, a, b);
    OfferedConcat(slots, Happened(c, a), Happened(Advanced(c, a), b), ticks);
  }

  /** Every timer has fired or is pending at most once in all; one that was never created
      neither fired nor is pending. */
  ghost predicate OnceEach(log: seq<Event>, ws: seq<Waiter>, next: nat) {
    && (forall id: nat :: Count(log, id) + Armed(ws, id) <= 1)
    && (forall id: nat :: id > next ==> Count(log, id) + Armed(ws, id) == 0)
  }

  lemma AdvanceKeepsOnce(log: seq<Event>, c: Face, target: int, next: nat)
    requires AllLive(c.tickers) && OnceEach(log, c.waiters, next)
    ensures OnceEach(log + Sort(Due(c, target)), FaceAt(c, target).waiters, next)
  {
    var es := Sort(Due(c, target));
    forall id: nat
      ensures Count(log + es, id) + Armed(FaceAt(c, target).waiters, id) == Count(log, id) + Armed(c.waiters, id)
    {
      CountConcat(log, es, id);
      TimersConserved(c, target, id);
    }
  }

  lemma ArmKeepsOnce(log: seq<Event>, ws: seq<Waiter>, next: nat, deadline: int)
    requires OnceEach(log, ws, next)
    ensures OnceEach(log, ws + [Waiter(next + 1, deadline)], next + 1)
  {
    forall id: nat
      ensures Armed(ws + [Waiter(next + 1, deadline)], id) == Armed(ws, id) + if id == next + 1 then 1 else 0
    {
      ArmedConcat(ws, [Waiter(next + 1, deadline)], id);
    }
  }

  lemma FireKeepsOnce(log: seq<Event>, ws: seq<Waiter>, next: nat, at: int)
    requires OnceEach(log, ws, next)
    ensures OnceEach(log + [Event(at, next + 1, false)], ws, next + 1)
  {
    forall id: nat
      ensures Count(log + [Event(at, next + 1, false)], id) == Count(log, id) + if id == next + 1 then 1 else 0
    {
      CountConcat(log, [Event(at, next + 1, false)], id);
    }
  }

  lemma StopKeepsOnce(log: seq<Event>, ws: seq<Waiter>, next: nat, i: nat)
    requires OnceEach(log, ws, next) && i < |ws|
    ensures OnceEach(log, ws[..i] + ws[i + 1..], next) && Armed(ws[..i] + ws[i + 1..], ws[i].id) == 0
    ensures forall id: nat :: Armed(ws[..i] + ws[i + 1..], id) <= Armed(ws, id)
  {
    forall id: nat
      ensures Armed(ws, id) == Armed(ws[..i] + ws[i + 1..], id) + if id == ws[i].id then 1 else 0
    {
      ArmedWithout(ws, i, id);
    }
    assert Count(log, ws[i].id) + Armed(ws, ws[i].id) <= 1;
  }

  lemma ArmedWithout(ws: seq<Waiter>, i: nat, id: nat)
    requires i < |ws|
    ensures Armed(ws, id) == Armed(ws[..i] + ws[i + 1..], id) + if id == ws[i].id then 1 else 0
  {
    assert ws == ws[..i] + ([ws[i]] + ws[i + 1..]);
    ArmedConcat(ws[..i], [ws[i]] + ws[i + 1..], id);
    ArmedFirst(ws[i], ws[i + 1..], id);
    ArmedConcat(ws[..i], ws[i + 1..], id);
  }

  lemma ArmedFirst(w: Waiter, rest: seq<Waiter>, id: nat)
    ensures Armed([w] + rest, id) == (if w.id == id then 1 else 0) + Armed(rest, id)
  {
    assert ([w] + rest)[1..] == rest;
  }

  // ---------------------------------------------------------------- events still to be fired

  /** How often timer `id` is among the events still to be fired. */
  function Flying(fs: seq<seq<Event>>, id: nat): nat {
    if fs == [] then 0 else Count(fs[0], id) + Flying(fs[1..], id)
  }

  /** Every firing under way, and every value waiting in a timer's channel, is one of the times
      that timer fell due. */
  ghost predicate Backed(log: seq<Event>, fs: seq<seq<Event>>, slots: map<nat, int>) {
    forall id: nat :: Flying(fs, id) + (if id in slots then 1 else 0) <= Count(log, id)
  }

  lemma {:induction false} FlyingConcat(fs: seq<seq<Event>>, gs: seq<seq<Event>>, id: nat)
    ensures Flying(fs + gs, id) == Flying(fs, id) + Flying(gs, id)
  {
    if fs == [] {
      assert fs + gs == gs;
    } else {
      assert (fs + gs)[1..] == fs[1..] + gs;
      FlyingConcat(fs[1..], gs, id);
    }
  }

  lemma FlyingOne(es: seq<Event>, id: nat)
    ensures Flying([es], id) == Count(es, id)
  {
    assert [es][1..] == [];
  }

  /** Replacing what one advance has left. */
  lemma FlyingUpdate(fs: seq<seq<Event>>, a: nat, es: seq<Event>, id: nat)
    requires a < |fs|
    ensures Flying(fs[a := es], id) + Count(fs[a], id) == Flying(fs, id) + Count(es, id)
  {
    assert fs == (fs[..a] + [fs[a]]) + fs[a + 1..];
    assert fs[a := es] == (fs[..a] + [es]) + fs[a + 1..];
    FlyingConcat(fs[..a] + [fs[a]], fs[a + 1..], id);
    FlyingConcat(fs[..a], [fs[a]], id);
    FlyingConcat(fs[..a] + [es], fs[a + 1..], id);
    FlyingConcat(fs[..a], [es], id);
    FlyingOne(fs[a], id);
    FlyingOne(es, id);
  }

  lemma BackedBegin(log: seq<Event>, fs: seq<seq<Event>>, slots: map<nat, int>, es: seq<Event>)
    requires Backed(log, fs, slots)
    ensures Backed(log + es, fs + [es], slots)
  {
    forall id: nat
      ensures Flying(fs + [es], id) + (if id in slots then 1 else 0) <= Count(log + es, id)
    {
      FlyingConcat(fs, [es], id);
      FlyingOne(es, id);
      CountConcat(log, es, id);
      assert Flying(fs, id) + (if id in slots then 1 else 0) <= Count(log, id);
    }
  }

  /** What moving time to `target` keeps. */
  lemma Begun(c: Face, target: int, log: seq<Event>, next: nat, fs: seq<seq<Event>>, slots: map<nat, int>)
    requires AllLive(c.tickers) && OnceEach(log, c.waiters, next) && Backed(log, fs, slots)
    ensures AllLive(FaceAt(c, target).tickers) && Quiet(FaceAt(c, target), target) && |FaceAt(c, target).waiters| <= |c.waiters|
    ensures OnceEach(log + HappenedBy(c, target), FaceAt(c, target).waiters, next)
    ensures Backed(log + HappenedBy(c, target), fs + [HappenedBy(c, target)], slots)
  {
    AdvanceLeavesOnlyLater(c, target);
    AdvanceKeepsOnce(log, c, target, next);
    PendingIsFewer(c.waiters, target);
    BackedBegin(log, fs, slots, HappenedBy(c, target));
  }

  lemma BackedAtOnce(log: seq<Event>, fs: seq<seq<Event>>, slots: map<nat, int>, e: Event)
    requires Backed(log, fs, slots) && !e.tick
    ensures Backed(log + [e], fs, slots[e.id := e.at])
  {
    forall id: nat
      ensures Flying(fs, id) + (if id in slots[e.id := e.at] then 1 else 0) <= Count(log + [e], id)
    {
      CountConcat(log, [e], id);
      assert [e][1..] == [];
      assert Flying(fs, id) + (if id in slots then 1 else 0) <= Count(log, id);
    }
  }

  /** Firing the next event of an advance: a timer's channel is empty when its turn comes. */
  lemma BackedFire(log: seq<Event>, fs: seq<seq<Event>>, slots: map<nat, int>, ws: seq<Waiter>, next: nat, a: nat)
    requires Backed(log, fs, slots) && OnceEach(log, ws, next) && a < |fs| && fs[a] != []
    ensures var e, rest := fs[a][0], fs[a := fs[a][1..]];
            if e.tick then Backed(log, rest, slots) else e.id !in slots && Backed(log, rest, slots[e.id := e.at])
  {
    var e, rest := fs[a][0], fs[a := fs[a][1..]];
    forall id: nat
      ensures Flying(rest, id) + (if !e.tick && e.id == id then 1 else 0) + (if id in slots then 1 else 0) <= Count(log, id) <= 1
    {
      FlyingUpdate(fs, a, fs[a][1..], id);
      assert Flying(fs, id) + (if id in slots then 1 else 0) <= Count(log, id);
      assert Count(log, id) + Armed(ws, id) <= 1;
    }
  }

  lemma BackedEnd(log: seq<Event>, fs: seq<seq<Event>>, slots: map<nat, int>, a: nat)
    requires Backed(log, fs, slots) && |fs| == a + 1
    ensures Backed(log, fs[..a], slots)
  {
    forall id: nat
      ensures Flying(fs[..a], id) + (if id in slots then 1 else 0) <= Count(log, id)
    {
      assert fs == fs[..a] + [fs[a]];
      FlyingConcat(fs[..a], [fs[a]], id);
      assert Flying(fs, id) + (if id in slots then 1 else 0) <= Count(log, id);
    }
  }

  lemma OfferedOne(slots: map<nat, int>, e: Event, ticks: bool)
    ensures Offered(slots, [e], ticks) == if e.tick == ticks && e.id !in slots then slots[e.id := e.at] else slots
  {
    assert [e][1..] == [];
  }

  lemma OfferedFirst(slots: map<nat, int>, es: seq<Event>, ticks: bool)
    requires es != []
    ensures Offered(slots, es, ticks) == Offered(Offered(slots, [es[0]], ticks), es[1..], ticks)
  {
    assert es == [es[0]] + es[1..];
    OfferedConcat(slots, [es[0]], es[1..], ticks);
  }

  class FakeClock {
    var now: int
    var waiters: seq<Waiter>
    var tickers: seq<Ticker>
    var blockers: seq<Blocker>
    var nextID: nat
    var nextBlocker: nat
    var released: set<nat>            // blockers whose channel has been closed
    var timerSlots: map<nat, int>     // what timer channels hold
    var tickSlots: map<nat, int>      // what ticker channels hold
    var firing: seq<seq<Event>>       // for every advance in progress, what it has still to fire
    ghost var log: seq<Event>         // everything that has ever fallen due

    ghost function View(): Face
      reads this
    {
      Face(now, waiters, tickers)
    }

    ghost predicate Valid()
      reads this
    {
      AllLive(tickers) && Quiet(View(), now) && OnceEach(log, waiters, nextID) && Backed(log, firing, timerSlots) && BlockersWait()
    }

    /** Whoever is still blocked has reason to be. */
    ghost predicate BlockersWait()
      reads this
    {
      Waiting(blockers, |waiters|, nextBlocker, released) && forall id :: id in released ==> id <= nextBlocker
    }

    constructor (start: Option<int>)
      ensures Valid() && View() == Face(if start.Some? then start.value else EPOCH, [], []) && log == [] && firing == []
    {
      now := if start.Some? then start.value else EPOCH;
      waiters, tickers, blockers, nextID, nextBlocker := [], [], [], 0, 0;
      released, timerSlots, tickSlots, firing, log := {}, map[], map[], [], [];
    }

    /** `notifyBlockersLocked`: releases exactly those whose count has been reached. */
    method NotifyBlockers()
      modifies `blockers, `released
      ensures blockers == Remaining(old(blockers), |waiters|)
      ensures released == old(released) + Reached(old(blockers), |waiters|)
    {
      var kept: seq<Blocker> := [];
      var i := 0;
      while i < |blockers|
        invariant 0 <= i <= |blockers| && blockers == old(blockers)
        invariant kept + Remaining(blockers[i..], |waiters|) == Remaining(blockers, |waiters|)
        invariant released + Reached(blockers[i..], |waiters|) == old(released) + Reached(blockers, |waiters|)
      {
        ghost var rest := blockers[i + 1..];
        assert blockers[i..][1..] == rest;
        if |waiters| >= blockers[i].want {
          assert Reached(blockers[i..], |waiters|) == {blockers[i].id} + Reached(rest, |waiters|);
          released := released + {blockers[i].id};
        } else {
          assert Remaining(blockers[i..], |waiters|) == [blockers[i]] + Remaining(rest, |waiters|);
          kept := kept + [blockers[i]];
        }
        i := i + 1;
      }
      blockers := kept;
    }

    /** A timer that is not in the future fires at once and never becomes pending; one that is
        releases exactly the blocked callers whose count it completes. */
    method NewTimer(d: int) returns (id: nat)
      requires Valid()
      modifies `waiters, `blockers, `released, `nextID, `timerSlots, `log
      ensures Valid() && id == nextID == old(nextID) + 1
      ensures d <= 0 ==> waiters == old(waiters) && log == old(log) + [Event(now, id, false)] && timerSlots == old(timerSlots)[id := now]
      ensures d > 0 ==> waiters == old(waiters) + [Waiter(id, now + d)] && log == old(log) && timerSlots == old(timerSlots)
      ensures blockers == Remaining(old(blockers), |waiters|)
      ensures released == old(released) + Reached(old(blockers), |waiters|)
    {
      nextID := nextID + 1;
      id := nextID;
      if d <= 0 {
        FireAtOnce();
        NoneReached(blockers, |waiters|);
      } else {
        ArmTimer(d);
      }
    }

    method FireAtOnce()
      requires nextID > 0
      requires AllLive(tickers) && Quiet(View(), now) && OnceEach(log, waiters, nextID - 1) && Backed(log, firing, timerSlots) && BlockersWait()
      modifies `timerSlots, `log
      ensures Valid() && log == old(log) + [Event(now, nextID, false)] && timerSlots == old(timerSlots)[nextID := now]
    {
      FireKeepsOnce(log, waiters, nextID - 1, now);
      BackedAtOnce(log, firing, timerSlots, Event(now, nextID, false));
      timerSlots := timerSlots[nextID := now];
      log := log + [Event(now, nextID, false)];
    }

    method ArmTimer(d: int)
      requires d > 0 && nextID > 0
      requires AllLive(tickers) && Quiet(View(), now) && OnceEach(log, waiters, nextID - 1) && Backed(log, firing, timerSlots) && BlockersWait()
      modifies `waiters, `blockers, `released
      ensures Valid() && waiters == old(waiters) + [Waiter(nextID, now + d)]
      ensures blockers == Remaining(old(blockers), |waiters|)
      ensures released == old(released) + Reached(old(blockers), |waiters|)
    {
      var w := Waiter(nextID, now + d);
      ArmKeepsOnce(log, waiters, nextID - 1, now + d);
      Notified(blockers, |waiters|, |waiters| + 1, nextBlocker, released);
      waiters := waiters + [w];
      NotifyBlockers();
    }

    /** `removeWaiter`: whether the timer was still pending, and it no longer is. */
    method StopTimer(id: nat) returns (stopped: bool)
      requires Valid()
      modifies `waiters
      ensures Valid() && Armed(waiters, id) == 0
      ensures stopped <==> old(Armed(waiters, id)) == 1
      ensures !stopped ==> waiters == old(waiters)
      ensures stopped ==> exists i :: 0 <= i < |old(waiters)| && old(waiters)[i].id == id && waiters == old(waiters)[..i] + old(waiters)[i + 1..]
    {
      var i := 0;
      while i < |waiters|
        invariant 0 <= i <= |waiters| && waiters == old(waiters)
        invariant Armed(waiters[..i], id) == 0
      {
        if waiters[i].id == id {
          StopKeepsOnce(log, waiters, nextID, i);
          ArmedMember(waiters, i);
          assert OnceEach(log, waiters, nextID);
          waiters := waiters[..i] + waiters[i + 1..];
          return true;
        }
        assert waiters[..i + 1] == waiters[..i] + [waiters[i]];
        ArmedConcat(waiters[..i], [waiters[i]], id);
        i := i + 1;
      }
      assert waiters[..|waiters|] == waiters;
      return false;
    }

    /** A non-positive interval is refused by a panic, here `None`. */
    method NewTicker(d: int) returns (r: Option<nat>)
      requires Valid()
      modifies `tickers, `nextID
      ensures Valid() && (r.Some? <==> d > 0)
      ensures r.None? ==> tickers == old(tickers) && nextID == old(nextID)
      ensures r.Some? ==> r.value == nextID == old(nextID) + 1 && tickers == old(tickers) + [Ticker(nextID, d, now + d, false)]
    {
      if d <= 0 {
        return None;
      }
      nextID := nextID + 1;
      tickers := tickers + [Ticker(nextID, d, now + d, false)];
      return Some(nextID);
    }

    method StopTicker(id: nat)
      requires Valid()
      modifies `tickers
      ensures Valid() && |tickers| == |old(tickers)|
      ensures forall i :: 0 <= i < |tickers| ==> tickers[i] == if old(tickers)[i].id == id then old(tickers)[i].(stopped := true) else old(tickers)[i]
    {
      var i := 0;
      while i < |tickers|
        invariant 0 <= i <= |tickers| == |old(tickers)|
        invariant forall k :: 0 <= k < i ==> tickers[k] == if old(tickers)[k].id == id then old(tickers)[k].(stopped := true) else old(tickers)[k]
        invariant forall k :: i <= k < |tickers| ==> tickers[k] == old(tickers)[k]
      {
        if tickers[i].id == id {
          tickers := tickers[i := tickers[i].(stopped := true)];
        }
        i := i + 1;
      }
    }

    /** Receiving from a timer's or a ticker's channel. */
    method Receive(id: nat, ticks: bool) returns (at: Option<int>)
      requires Valid()
      modifies `timerSlots, `tickSlots
      ensures Valid() && (ticks ==> timerSlots == old(timerSlots)) && (!ticks ==> tickSlots == old(tickSlots))
      ensures var slots := if ticks then old(tickSlots) else old(timerSlots);
              at == if id in slots then Some(slots[id]) else None
      ensures (if ticks then tickSlots else timerSlots) == (if ticks then old(tickSlots) else old(timerSlots)) - {id}
    {
      var slots := if ticks then tickSlots else timerSlots;
      at := if id in slots then Some(slots[id]) else None;
      if ticks {
        tickSlots := tickSlots - {id};
      } else {
        timerSlots := timerSlots - {id};
      }
    }

    /** The first loop of Advance: due timers out, the others kept in order. */
    method CollectTimers(target: int) returns (events: seq<Event>)
      modifies `waiters
      ensures events == DueTimers(old(waiters), target) && waiters == Pending(old(waiters), target)
    {
      events := [];
      var remaining: seq<Waiter> := [];
      var i := 0;
      while i < |waiters|
        invariant 0 <= i <= |waiters|
        invariant events + DueTimers(waiters[i..], target) == DueTimers(waiters, target)
        invariant remaining + Pending(waiters[i..], target) == Pending(waiters, target)
      {
        var w := waiters[i];
        assert waiters[i..][1..] == waiters[i + 1..];
        if w.deadline <= target {
          assert DueTimers(waiters[i..], target) == [Fired(w)] + DueTimers(waiters[i + 1..], target);
          events := events + [Fired(w)];
        } else {
          assert Pending(waiters[i..], target) == [w] + Pending(waiters[i + 1..], target);
          remaining := remaining + [w];
        }
        i := i + 1;
      }
      waiters := remaining;
    }

    /** The second: each running ticker ticks as often as the interval allows, and is left with
        its next tick after the target. */
    method CollectTicks(target: int) returns (events: seq<Event>)
      requires AllLive(tickers)
      modifies `tickers
      ensures AllLive(old(tickers)) && events == DueTicks(old(tickers), target) && tickers == RolledAll(old(tickers), target)
    {
      events := [];
      ghost var was := tickers;
      var i := 0;
      while i < |tickers|
        invariant 0 <= i <= |tickers| == |was|
        invariant events + DueTicks(was[i..], target) == DueTicks(was, target)
        invariant forall k :: 0 <= k < i ==> tickers[k] == RolledUnlessStopped(was[k], target)
        invariant forall k :: i <= k < |tickers| ==> tickers[k] == was[k]
      {
        TicksUnfold(was[i..], was[i + 1..], target);
        var t := tickers[i];
        if !t.stopped {
          var ticks := TickAlong(t, target);
          Regroup(events, ticks, DueTicks(was[i + 1..], target));
          events := events + ticks;
          tickers := tickers[i := Rolled(t, target)];
        }
        i := i + 1;
      }
      RolledAllIsLater(was, target);
    }

    /** The part of Advance under the lock: time moves, and everything due is collected. */
    method BeginAdvance(d: int)
      requires Valid()
      modifies `now, `waiters, `tickers, `firing, `log
      ensures Valid() && AllLive(old(tickers))
      ensures View() == Advanced(old(View()), d)
      ensures log == old(log) + Happened(old(View()), d) && firing == old(firing) + [Happened(old(View()), d)]
    {
      ghost var c := View();
      var target := now + d;
      var timers := CollectTimers(target);
      var ticks := CollectTicks(target);
      var events := Sort(timers + ticks);
      now := target;
      Begun(c, target, log, nextID, firing, timerSlots);
      log := log + events;
      firing := firing + [events];
    }

    /** One event of an advance in progress, outside the lock: a timer's channel is always empty
        when its turn comes, so the send never blocks; a tick into a full one is dropped. */
    method FireNext(a: nat)
      requires Valid() && a < |firing| && firing[a] != []
      modifies `timerSlots, `tickSlots, `firing
      ensures Valid() && firing == old(firing)[a := old(firing)[a][1..]]
      ensures !old(firing)[a][0].tick ==> old(firing)[a][0].id !in old(timerSlots)
      ensures timerSlots == Offered(old(timerSlots), [old(firing)[a][0]], false)
      ensures tickSlots == Offered(old(tickSlots), [old(firing)[a][0]], true)
    {
      var e := firing[a][0];
      OfferedOne(timerSlots, e, false);
      OfferedOne(tickSlots, e, true);
      BackedFire(log, firing, timerSlots, waiters, nextID, a);
      if e.tick {
        if e.id !in tickSlots {
          tickSlots := tickSlots[e.id := e.at];
        }
      } else {
        timerSlots := timerSlots[e.id := e.at];
      }
      firing := firing[a := firing[a][1..]];
    }

    /** Advance with nothing in between does what Schedule says; whatever comes in between, every
        timer fires once in all and into an empty channel. */
    method Advance(d: int)
      requires Valid()
      modifies `now, `waiters, `tickers, `timerSlots, `tickSlots, `firing, `log
      ensures Valid() && AllLive(old(tickers)) && firing == old(firing)
      ensures View() == Advanced(old(View()), d)
      ensures log == old(log) + Happened(old(View()), d)
      ensures timerSlots == Offered(old(timerSlots), Happened(old(View()), d), false)
      ensures tickSlots == Offered(old(tickSlots), Happened(old(View()), d), true)
    {
      BeginAdvance(d);
      FireLast();
    }

    /** The loop that fires what the newest advance has collected. */
    method FireLast()
      requires Valid() && firing != []
      modifies `timerSlots, `tickSlots, `firing
      ensures Valid() && firing == old(firing)[..|old(firing)| - 1]
      ensures timerSlots == Offered(old(timerSlots), old(firing)[|old(firing)| - 1], false)
      ensures tickSlots == Offered(old(tickSlots), old(firing)[|old(firing)| - 1], true)
    {
      var a := |firing| - 1;
      ghost var es := firing[a];
      while firing[a] != []
        invariant Valid() && |firing| == a + 1 && firing[..a] == old(firing)[..a]
        invariant Offered(timerSlots, firing[a], false) == Offered(old(timerSlots), es, false)
        invariant Offered(tickSlots, firing[a], true) == Offered(old(tickSlots), es, true)
        decreases |firing[a]|
      {
        OfferedFirst(timerSlots, firing[a], false);
        OfferedFirst(tickSlots, firing[a], true);
        FireNext(a);
      }
      BackedEnd(log, firing, timerSlots, a);
      firing := firing[..a];
    }

    /** The part of BlockUntil under the lock: return at once, or be blocked for a reason. */
    method BlockUntil(n: int) returns (b: Option<nat>)
      requires Valid()
      modifies `blockers, `nextBlocker
      ensures Valid() && (b.None? <==> |waiters| >= n)
      ensures b.None? ==> blockers == old(blockers)
      ensures b.Some? ==> blockers == old(blockers) + [Blocker(b.value, n)] && b.value !in released
    {
      if |waiters| >= n {
        return None;
      }
      nextBlocker := nextBlocker + 1;
      blockers := blockers + [Blocker(nextBlocker, n)];
      return Some(nextBlocker);
    }

    /** The other exit: the caller's context is done. It reports success exactly when the count
        was reached first, and is no longer blocked either way. */
    method GiveUp(b: nat) returns (ok: bool)
      requires Valid()
      modifies `blockers
      ensures Valid() && (ok <==> b in released)
      ensures forall i :: 0 <= i < |blockers| ==> blockers[i].id != b && blockers[i] in old(blockers)
      ensures forall i :: 0 <= i < |old(blockers)| && old(blockers)[i].id != b ==> old(blockers)[i] in blockers
    {
      var i := 0;
      while i < |blockers|
        invariant 0 <= i <= |blockers| && blockers == old(blockers)
        invariant forall k :: 0 <= k < i ==> blockers[k].id != b
      {
        if blockers[i].id == b {
          blockers := blockers[..i] + blockers[i + 1..];
          assert old(blockers) == old(blockers)[..i] + [old(blockers)[i]] + old(blockers)[i + 1..];
          break;
        }
        i := i + 1;
      }
      ok := b in released;
    }
  }

  lemma TicksUnfold(ts: seq<Ticker>, rest: seq<Ticker>, target: int)
    requires ts != [] && rest == ts[1..] && AllLive(ts)
    ensures DueTicks(ts, target) == if ts[0].stopped then DueTicks(rest, target) else TicksFrom(ts[0], target) + DueTicks(rest, target)
  {
  }

  method TickAlong(t: Ticker, target: int) returns (events: seq<Event>)
    requires Live(t)
    ensures events == TicksFrom(t, target)
  {
    events := [];
    var u := t;
    while u.next <= target
      invariant Live(u) && events + TicksFrom(u, target) == TicksFrom(t, target)
      decreases target - u.next
    {
      events := events + [Event(u.next, u.id, true)];
      u := u.(next := u.next + u.interval);
    }
  }

  lemma {:induction false} PendingIsFewer(ws: seq<Waiter>, target: int)
    ensures |Pending(ws, target)| <= |ws|
  {
    if ws != [] {
      PendingIsFewer(ws[1..], target);
    }
  }

  lemma {:induction false} NoneReached(bs: seq<Blocker>, n: int)
    requires forall b :: b in bs ==> b.want > n
    ensures Remaining(bs, n) == bs && Reached(bs, n) == {}
  {
    if bs != [] {
      NoneReached(bs[1..], n);
    }
  }
}
