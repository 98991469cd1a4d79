/** The config server's start/serve/close protocol: one Serve and any number of Close calls,
    interleaved at every lock operation, every WaitGroup operation, every bind and every
    listener close. Listeners are abstracted to open or closed; a WaitGroup is a counter
    together with the goroutines it still counts. */
module ServerLifecycle {

  /** How many listeners and watched bindings the server is configured with. */
  datatype Shape = Shape(listeners: nat, watches: nat)

  datatype Lock = Free | BySer | ByCloser(c: nat)

  /** Program points of `teardown`; `rc` is the resolveCancel it read under the lock. */
  datatype Tear =
    | TStart
    | TRead
    | TSnap(rc: bool)
    | TClose(rc: bool, n: nat, i: nat)
    | TWaitListen(rc: bool)
    | TCancel(rc: bool)
    | TWaitResolve
    | TDone

  datatype Outcome = Refused | BindFailed | Served | TornDown

  datatype ServePc =
    | SIdle
    | SCheck                    // in start, lock held
    | SStarting(k: nat)         // in start, lock held, k watches added
    | SBinding(k: nat)          // k listeners bound and recorded
    | SBound(k: nat)            // listener k bound, not yet recorded
    | SBegin                    // in beginListening, lock held
    | SSpawning(k: nat)
    | SWaiting
    | STear(t: Tear)
    | SDone(how: Outcome)

  datatype ClosePc = CIdle | CLocked | CWaiting | CTear(t: Tear) | CDone

  /** What has been set up. A WaitGroup is its counter and the goroutines it still counts. */
  datatype Works = Works(
    canceller: bool,            // resolveCancel is set
    entries: seq<bool>,         // recorded listeners: still open?
    listening: set<nat>,
    listenWG: int,
    watching: set<nat>,
    resolveWG: int,
    counted: bool,              // beginListening has added to listenWG
    spawned: nat,
    failed: bool)               // some listener goroutine reported a real error

  datatype Sys = Sys(
    lock: Lock,
    closed: bool,
    winner: int,                // the Close that made the closed transition, or -1
    closeDone: bool,            // closed when the winner's teardown finished
    on: Works,
    serve: ServePc,
    closers: seq<ClosePc>)

  function Upto(n: nat): (r: set<nat>)
    ensures |r| == n && forall k :: k in r <==> 0 <= k < n
  {
    if n == 0 then {} else Upto(n - 1) + {n - 1}
  }

  function Start(closes: nat): Sys {
    Sys(Free, false, -1, false, Works(false, [], {}, 0, {}, 0, false, 0, false), SIdle, seq(closes, _ => CIdle))
  }

  datatype Action =
    | Serve                     // Serve's next step
    | FailBind                  // Serve's next bind fails
    | Close(c: nat)             // Close c's next step
    | WatchExits(k: nat)        // an upstream watch goroutine returns
    | ListenerExits(k: nat)     // a listener goroutine returns after its listener closed
    | ListenerFails(k: nat)     // a listener goroutine returns with an error of its own

  // ---------------------------------------------------------------- teardown, run by either side

  predicate CanTear(s: Sys, t: Tear) {
    match t
    case TStart => s.lock.Free?
    case TWaitListen(_) => s.on.listenWG == 0
    case TWaitResolve => s.on.resolveWG == 0
    case TDone => false
    case _ => true
  }

  /** The thread's next program point in teardown. */
  function TearNext(s: Sys, t: Tear): Tear {
    match t
    case TStart => TRead
    case TRead => TSnap(s.on.canceller)
    case TSnap(rc) => if s.on.entries == [] then TCancel(rc) else TClose(rc, |s.on.entries|, 0)
    case TClose(rc, n, i) => if i < n then TClose(rc, n, i + 1) else TWaitListen(rc)
    case TWaitListen(rc) => TCancel(rc)
    case TCancel(rc) => if rc then TWaitResolve else TDone
    case TWaitResolve => TDone
    case TDone => TDone
  }

  /** What that step does to shared state; `me` is the lock as this thread holds it. */
  function TearEffect(s: Sys, t: Tear, me: Lock): Sys {
    match t
    case TStart => s.(lock := me)
    case TRead => s.(lock := Free)
    case TClose(rc, n, i) => if i < n && i < |s.on.entries| then s.(on := s.on.(entries := s.on.entries[i := false])) else s
    case _ => s
  }

  // ---------------------------------------------------------------- steps

  predicate Can(sh: Shape, s: Sys, a: Action) {
    match a
    case Serve =>
      (match s.serve
       case SIdle => s.lock.Free?
       case SBinding(k) => k < sh.listeners || s.lock.Free?
       case SWaiting => s.on.listening == {} || s.on.failed
       case STear(t) => t.TDone? || CanTear(s, t)
       case SDone(_) => false
       case _ => true)
    case FailBind => s.serve.SBinding? && s.serve.k < sh.listeners
    case Close(c) =>
      c < |s.closers| &&
      (match s.closers[c]
       case CIdle => s.lock.Free?
       case CLocked => true
       case CWaiting => s.closeDone
       case CTear(t) => t.TDone? || CanTear(s, t)
       case CDone => false)
    case WatchExits(k) => k in s.on.watching
    case ListenerExits(k) => k in s.on.listening && k < s.on.spawned && k < |s.on.entries| && !s.on.entries[k]
    case ListenerFails(k) => k in s.on.listening && k < s.on.spawned
  }

  function ServeStep(sh: Shape, s: Sys): Sys {
    match s.serve
    case SIdle => s.(lock := BySer, serve := SCheck)
    case SCheck =>
      if s.closed then s.(lock := Free, serve := SDone(Refused))
      else s.(on := s.on.(canceller := true), serve := SStarting(0))
    case SStarting(k) =>
      if k < sh.watches then s.(on := s.on.(watching := s.on.watching + {k}, resolveWG := s.on.resolveWG + 1), serve := SStarting(k + 1))
      else s.(lock := Free, serve := SBinding(0))
    case SBinding(k) => if k < sh.listeners then s.(serve := SBound(k)) else s.(lock := BySer, serve := SBegin)
    case SBound(k) => s.(on := s.on.(entries := s.on.entries + [true]), serve := SBinding(k + 1))
    case SBegin =>
      if s.closed then s.(lock := Free, serve := STear(TStart))
      else s.(lock := Free, serve := SSpawning(0),
              on := s.on.(counted := true, listenWG := s.on.listenWG + |s.on.entries|, listening := Upto(|s.on.entries|)))
    case SSpawning(k) => if k < |s.on.entries| then s.(on := s.on.(spawned := k + 1), serve := SSpawning(k + 1)) else s.(serve := SWaiting)
    case SWaiting => s.(serve := SDone(Served))
    case STear(t) =>
      if t.TDone? then s.(serve := SDone(TornDown)) else TearEffect(s, t, BySer).(serve := STear(TearNext(s, t)))
    case SDone(_) => s
  }

  function CloseStep(s: Sys, c: nat): Sys
    requires c < |s.closers|
  {
    match s.closers[c]
    case CIdle => s.(lock := ByCloser(c), closers := s.closers[c := CLocked])
    case CLocked =>
      if s.closed then s.(lock := Free, closers := s.closers[c := CWaiting])
      else s.(lock := Free, closed := true, winner := c, closers := s.closers[c := CTear(TStart)])
    case CWaiting => s.(closers := s.closers[c := CDone])
    case CTear(t) =>
      if t.TDone? then s.(closeDone := true, closers := s.closers[c := CDone])
      else TearEffect(s, t, ByCloser(c)).(closers := s.closers[c := CTear(TearNext(s, t))])
    case CDone => s
  }

  function Do(sh: Shape, s: Sys, a: Action): Sys
    requires Can(sh, s, a)
  {
    match a
    case Serve => ServeStep(sh, s)
    case FailBind => s.(serve := SDone(BindFailed))
    case Close(c) => CloseStep(s, c)
    case WatchExits(k) => s.(on := s.on.(watching := s.on.watching - {k}, resolveWG := s.on.resolveWG - 1))
    case ListenerExits(k) => s.(on := s.on.(listening := s.on.listening - {k}, listenWG := s.on.listenWG - 1))
    case ListenerFails(k) => s.(on := s.on.(listening := s.on.listening - {k}, listenWG := s.on.listenWG - 1, failed := true))
  }

  ghost predicate Runs(sh: Shape, s: Sys, acts: seq<Action>)
    decreases |acts|
  {
    acts == [] || (Can(sh, s, acts[0]) && Runs(sh, Do(sh, s, acts[0]), acts[1..]))
  }

  ghost function Exec(sh: Shape, s: Sys, acts: seq<Action>): Sys
    requires Runs(sh, s, acts)
    decreases |acts|
  {
    if acts == [] then s else Exec(sh, Do(sh, s, acts[0]), acts[1..])
  }

  // ---------------------------------------------------------------- the invariant

  ghost predicate AllShut(entries: seq<bool>) {
    forall j :: 0 <= j < |entries| ==> !entries[j]
  }

  /** Who holds the lock is who is inside a critical section. */
  ghost predicate LockInv(s: Sys) {
    && (s.lock.ByCloser? ==> s.lock.c < |s.closers|)
    && (s.lock.BySer? <==> s.serve.SCheck? || s.serve.SStarting? || s.serve.SBegin? || s.serve == STear(TRead))
    && (forall c :: 0 <= c < |s.closers| ==> (s.lock == ByCloser(c) <==> s.closers[c] == CLocked || s.closers[c] == CTear(TRead)))
  }

  /** Exactly one Close wins, and only it tears down; the others wait for it. */
  ghost predicate WinnerInv(s: Sys) {
    && (s.closed <==> s.winner >= 0)
    && (s.winner >= 0 ==> s.winner < |s.closers| && (s.closers[s.winner].CTear? || s.closers[s.winner].CDone?))
    && (forall c :: 0 <= c < |s.closers| && s.closers[c].CTear? ==> s.winner == c)
    && (forall c :: 0 <= c < |s.closers| && s.closers[c].CWaiting? ==> s.closed && s.winner != c)
    && (s.closeDone <==> s.winner >= 0 && s.closers[s.winner].CDone?)
    && (forall c :: 0 <= c < |s.closers| && s.closers[c].CDone? ==> s.closeDone)
    && (s.serve.STear? || s.serve == SDone(TornDown) ==> s.closed)
  }

  /** What Serve has built by each of its program points. */
  ghost predicate ServeInv(sh: Shape, s: Sys) {
    CountsInv(sh, s) && PlaceInv(sh, s)
  }

  /** Each WaitGroup counts the goroutines still running, and those are of what was built. */
  ghost predicate CountsInv(sh: Shape, s: Sys) {
    && s.on.resolveWG == |s.on.watching| && s.on.listenWG == |s.on.listening|
    && (forall k :: k in s.on.listening ==> k < |s.on.entries|)
    && (!s.on.counted ==> s.on.listening == {} && s.on.spawned == 0)
    && (s.on.counted ==> |s.on.entries| == sh.listeners && s.on.canceller)
    && (s.on.counted ==> s.serve.SSpawning? || s.serve.SWaiting? || s.serve == SDone(Served))
    && (!s.on.canceller ==> s.on.watching == {} && s.on.entries == [])
  }

  ghost predicate PlaceInv(sh: Shape, s: Sys) {
    match s.serve
    case SIdle => !s.on.canceller && !s.on.counted
    case SCheck => !s.on.canceller && !s.on.counted
    case SStarting(k) => s.on.canceller && !s.on.counted && !s.closed && k <= sh.watches && s.on.entries == []
                         && (forall j :: j in s.on.watching ==> j < k)
    case SBinding(k) => s.on.canceller && !s.on.counted && |s.on.entries| == k <= sh.listeners
    case SBound(k) => s.on.canceller && !s.on.counted && |s.on.entries| == k < sh.listeners
    case SBegin => s.on.canceller && !s.on.counted && |s.on.entries| == sh.listeners
    case SSpawning(k) => s.on.counted && k <= |s.on.entries| && s.on.spawned == k
    case SWaiting => s.on.counted && s.on.spawned == |s.on.entries|
    case STear(_) => s.on.canceller && !s.on.counted && |s.on.entries| == sh.listeners
    case SDone(Refused) => !s.on.canceller && !s.on.counted && s.closed
    case SDone(BindFailed) => s.on.canceller && !s.on.counted && |s.on.entries| < sh.listeners
    case SDone(Served) => s.on.counted && s.on.spawned == |s.on.entries|
    case SDone(TornDown) => s.on.canceller && !s.on.counted && |s.on.entries| == sh.listeners
  }

  /** What Serve has built is only looked at by its size. */
  lemma ServeFrame(sh: Shape, s: Sys, t: Sys)
    requires ServeInv(sh, s)
    requires t == s.(lock := t.lock, on := s.on.(entries := t.on.entries), closers := t.closers, closeDone := t.closeDone) && |t.on.entries| == |s.on.entries|
    ensures ServeInv(sh, t)
  {
  }

  /** How far a teardown that covers listeners below `n` has got. */
  ghost predicate TearInv(w: Works, t: Tear, full: bool) {
    match t
    case TStart => true
    case TRead => true
    case TSnap(rc) => rc == w.canceller
    case TClose(rc, n, i) =>
      && rc == w.canceller && i <= n <= |w.entries| && (full ==> n == |w.entries|)
      && forall j :: 0 <= j < i ==> !w.entries[j]
    case TWaitListen(rc) => rc == w.canceller && (full ==> AllShut(w.entries))
    case TCancel(rc) => rc == w.canceller && (full ==> AllShut(w.entries) && w.listening == {})
    case TWaitResolve => w.canceller && (full ==> AllShut(w.entries) && w.listening == {})
    case TDone => w.watching == {} && (full ==> AllShut(w.entries) && w.listening == {})
  }

  /** A teardown covers every listener when they were all recorded before it looked: for the
      winning Close that is when Serve got past beginListening, for Serve itself always. */
  ghost predicate TeardownInv(s: Sys) {
    && (s.winner >= 0 ==>
          s.winner < |s.closers|
          && (s.closers[s.winner].CTear? ==> TearInv(s.on, s.closers[s.winner].t, s.on.counted))
          && (s.closers[s.winner].CDone? ==> TearInv(s.on, TDone, s.on.counted)))
    && (s.serve.STear? ==> TearInv(s.on, s.serve.t, true))
    && (s.serve == SDone(TornDown) ==> TearInv(s.on, TDone, true))
  }

  ghost predicate Inv(sh: Shape, s: Sys) {
    LockInv(s) && WinnerInv(s) && ServeInv(sh, s) && TeardownInv(s)
  }

  lemma StartInv(sh: Shape, closes: nat)
    ensures Inv(sh, Start(closes))
  {
  }

  /** A teardown step does its own part of the work ... */
  lemma TearProgresses(s: Sys, t: Tear, me: Lock, full: bool)
    requires TearInv(s.on, t, full) && CanTear(s, t) && s.on.listenWG == |s.on.listening| && s.on.resolveWG == |s.on.watching|
    requires !s.on.canceller ==> s.on.watching == {}
    requires full && s.on.entries == [] ==> s.on.listening == {}
    ensures TearInv(TearEffect(s, t, me).on, TearNext(s, t), full)
  {
  }

  /** ... and undoes none of anybody else's. */
  lemma TearComposes(s: Sys, t: Tear, me: Lock, other: Tear, full: bool)
    requires TearInv(s.on, other, full)
    ensures TearInv(TearEffect(s, t, me).on, other, full)
  {
  }

  lemma ServeKeepsLock(sh: Shape, s: Sys)
    requires LockInv(s) && Can(sh, s, Serve) && !s.serve.STear?
    ensures LockInv(ServeStep(sh, s))
  {
  }

  lemma ServeKeepsWinner(sh: Shape, s: Sys)
    requires WinnerInv(s) && Can(sh, s, Serve) && !s.serve.STear?
    ensures WinnerInv(ServeStep(sh, s))
  {
  }

  /** Serve before it binds its first listener. */
  predicate Early(pc: ServePc) {
    pc.SIdle? || pc.SCheck? || pc.SStarting?
  }

  lemma EarlyKeepsCounts(sh: Shape, s: Sys)
    requires ServeInv(sh, s) && Early(s.serve)
    ensures CountsInv(sh, ServeStep(sh, s))
  {
  }

  lemma LateKeepsCounts(sh: Shape, s: Sys)
    requires ServeInv(sh, s) && !Early(s.serve) && !s.serve.STear?
    ensures CountsInv(sh, ServeStep(sh, s))
  {
  }

  lemma EarlyKeepsPlace(sh: Shape, s: Sys)
    requires ServeInv(sh, s) && Early(s.serve)
    ensures PlaceInv(sh, ServeStep(sh, s))
  {
  }

  lemma LateKeepsPlace(sh: Shape, s: Sys)
    requires ServeInv(sh, s) && !Early(s.serve) && !s.serve.STear?
    ensures PlaceInv(sh, ServeStep(sh, s))
  {
  }

  lemma ServeKeepsServe(sh: Shape, s: Sys)
    requires Inv(sh, s) && Can(sh, s, Serve) && !s.serve.STear?
    ensures ServeInv(sh, ServeStep(sh, s))
  {
    if Early(s.serve) {
      EarlyKeepsCounts(sh, s);
      EarlyKeepsPlace(sh, s);
    } else {
      LateKeepsCounts(sh, s);
      LateKeepsPlace(sh, s);
    }
  }

  lemma ServeKeepsTeardown(sh: Shape, s: Sys)
    requires Inv(sh, s) && Can(sh, s, Serve) && !s.serve.STear?
    ensures TeardownInv(ServeStep(sh, s))
  {
  }

  lemma ServeTearKeepsLock(sh: Shape, s: Sys)
    requires LockInv(s) && Can(sh, s, Serve) && s.serve.STear?
    ensures LockInv(ServeStep(sh, s))
  {
  }

  lemma ServeTearKeepsWinner(sh: Shape, s: Sys)
    requires WinnerInv(s) && Can(sh, s, Serve) && s.serve.STear?
    ensures WinnerInv(ServeStep(sh, s))
  {
  }

  lemma ServeTearKeepsServe(sh: Shape, s: Sys)
    requires ServeInv(sh, s) && Can(sh, s, Serve) && s.serve.STear?
    ensures ServeInv(sh, ServeStep(sh, s))
  {
  }

  lemma ServeTearKeepsTeardown(sh: Shape, s: Sys)
    requires Inv(sh, s) && Can(sh, s, Serve) && s.serve.STear?
    ensures TeardownInv(ServeStep(sh, s))
  {
    var t := s.serve.t;
    if !t.TDone? {
      TearProgresses(s, t, BySer, true);
      var w := s.closers[s.winner];
      TearComposes(s, t, BySer, if w.CTear? then w.t else TDone, s.on.counted);
    }
  }

  lemma CloseKeepsLock(sh: Shape, s: Sys, c: nat)
    requires Inv(sh, s) && Can(sh, s, Close(c)) && !s.closers[c].CTear?
    ensures LockInv(CloseStep(s, c))
  {
  }

  lemma CloseKeepsWinner(sh: Shape, s: Sys, c: nat)
    requires Inv(sh, s) && Can(sh, s, Close(c)) && !s.closers[c].CTear?
    ensures WinnerInv(CloseStep(s, c))
  {
  }

  lemma CloseKeepsServe(sh: Shape, s: Sys, c: nat)
    requires Inv(sh, s) && Can(sh, s, Close(c)) && !s.closers[c].CTear?
    ensures ServeInv(sh, CloseStep(s, c))
  {
  }

  lemma CloseKeepsTeardown(sh: Shape, s: Sys, c: nat)
    requires Inv(sh, s) && Can(sh, s, Close(c)) && !s.closers[c].CTear?
    ensures TeardownInv(CloseStep(s, c))
  {
  }

  lemma CloseTearKeepsLock(sh: Shape, s: Sys, c: nat)
    requires LockInv(s) && Can(sh, s, Close(c)) && s.closers[c].CTear?
    ensures LockInv(CloseStep(s, c))
  {
  }

  lemma CloseTearKeepsWinner(sh: Shape, s: Sys, c: nat)
    requires WinnerInv(s) && Can(sh, s, Close(c)) && s.closers[c].CTear?
    ensures WinnerInv(CloseStep(s, c))
  {
  }

  lemma CloseTearKeepsServe(sh: Shape, s: Sys, c: nat)
    requires ServeInv(sh, s) && c < |s.closers| && s.closers[c].CTear?
    ensures ServeInv(sh, CloseStep(s, c))
  {
    ServeFrame(sh, s, CloseStep(s, c));
  }

  lemma CloseTearKeepsTeardown(sh: Shape, s: Sys, c: nat)
    requires Inv(sh, s) && Can(sh, s, Close(c)) && s.closers[c].CTear?
    ensures TeardownInv(CloseStep(s, c))
  {
    var t := s.closers[c].t;
    if !t.TDone? {
      OwnPartDone(sh, s, c);
      OthersPartKept(sh, s, c);
    }
  }

  lemma OwnPartDone(sh: Shape, s: Sys, c: nat)
    requires Inv(sh, s) && Can(sh, s, Close(c)) && s.closers[c].CTear? && !s.closers[c].t.TDone?
    ensures TearInv(TearEffect(s, s.closers[c].t, ByCloser(c)).on, TearNext(s, s.closers[c].t), s.on.counted)
  {
    TearProgresses(s, s.closers[c].t, ByCloser(c), s.on.counted);
  }

  lemma OthersPartKept(sh: Shape, s: Sys, c: nat)
    requires Inv(sh, s) && c < |s.closers| && s.closers[c].CTear?
    ensures var u := TearEffect(s, s.closers[c].t, ByCloser(c)).on;
            (s.serve.STear? ==> TearInv(u, s.serve.t, true)) && (s.serve == SDone(TornDown) ==> TearInv(u, TDone, true))
  {
    var t := s.closers[c].t;
    if s.serve.STear? {
      TearComposes(s, t, ByCloser(c), s.serve.t, true);
    } else if s.serve == SDone(TornDown) {
      TearComposes(s, t, ByCloser(c), TDone, true);
    }
  }

  lemma OthersKeepServe(sh: Shape, s: Sys, a: Action)
    requires Inv(sh, s) && Can(sh, s, a) && !a.Serve? && !a.Close?
    ensures ServeInv(sh, Do(sh, s, a))
  {
  }

  lemma OthersKeep(sh: Shape, s: Sys, a: Action)
    requires Inv(sh, s) && Can(sh, s, a) && !a.Serve? && !a.Close?
    ensures Inv(sh, Do(sh, s, a))
  {
    OthersKeepServe(sh, s, a);
  }

  lemma StepKeeps(sh: Shape, s: Sys, a: Action)
    requires Inv(sh, s) && Can(sh, s, a)
    ensures Inv(sh, Do(sh, s, a))
  {
    if a.Serve? {
      if s.serve.STear? {
        ServeTearKeepsLock(sh, s);
        ServeTearKeepsWinner(sh, s);
        ServeTearKeepsServe(sh, s);
        ServeTearKeepsTeardown(sh, s);
      } else {
        ServeKeepsLock(sh, s);
        ServeKeepsWinner(sh, s);
        ServeKeepsServe(sh, s);
        ServeKeepsTeardown(sh, s);
      }
    } else if a.Close? {
      if s.closers[a.c].CTear? {
        CloseTearKeepsLock(sh, s, a.c);
        CloseTearKeepsWinner(sh, s, a.c);
        CloseTearKeepsServe(sh, s, a.c);
        CloseTearKeepsTeardown(sh, s, a.c);
      } else {
        CloseKeepsLock(sh, s, a.c);
        CloseKeepsWinner(sh, s, a.c);
        CloseKeepsServe(sh, s, a.c);
        CloseKeepsTeardown(sh, s, a.c);
      }
    } else {
      OthersKeep(sh, s, a);
    }
  }

  lemma {:induction false} RunKeeps(sh: Shape, s: Sys, acts: seq<Action>)
    requires Inv(sh, s) && Runs(sh, s, acts)
    ensures Inv(sh, Exec(sh, s, acts))
    decreases |acts|
  {
    if acts != [] {
      StepKeeps(sh, s, acts[0]);
      RunKeeps(sh, Do(sh, s, acts[0]), acts[1..]);
    }
  }

  // ---------------------------------------------------------------- the promises

  /** No Add to either WaitGroup ever happens once `closed` is set. */
  lemma NoAddAfterClose(sh: Shape, s: Sys, a: Action)
    requires Inv(sh, s) && Can(sh, s, a)
    ensures Do(sh, s, a).on.listenWG > s.on.listenWG || Do(sh, s, a).on.resolveWG > s.on.resolveWG ==> !s.closed
    ensures s.closed ==> Do(sh, s, a).closed
  {
    if a.Serve? {
      OnlyServeAdds(sh, s);
    } else if a.Close? {
      CloseNeverAdds(s, a.c);
    }
  }

  lemma OnlyServeAdds(sh: Shape, s: Sys)
    requires PlaceInv(sh, s)
    ensures var t := ServeStep(sh, s);
            (t.on.listenWG > s.on.listenWG || t.on.resolveWG > s.on.resolveWG ==> !s.closed) && t.closed == s.closed
  {
    if s.serve.STear? {
      TearingNeverAdds(s);
    }
  }

  lemma TearingNeverAdds(s: Sys)
    requires s.serve.STear?
    ensures var t := TearEffect(s, s.serve.t, BySer); t.on.listenWG == s.on.listenWG && t.on.resolveWG == s.on.resolveWG && t.closed == s.closed
  {
  }

  lemma CloseNeverAdds(s: Sys, c: nat)
    requires c < |s.closers|
    ensures var t := CloseStep(s, c);
            t.on.listenWG == s.on.listenWG && t.on.resolveWG == s.on.resolveWG && (s.closed ==> t.closed)
  {
  }

  /** A thread waits on a WaitGroup only once `closed` is set, so no Add can be concurrent
      with a Wait. */
  lemma WaitsFollowClose(sh: Shape, s: Sys, c: nat)
    requires Inv(sh, s) && c < |s.closers|
    ensures s.serve.STear? || s.closers[c].CTear? ==> s.closed
  {
  }

  /** Serve and every Close that was called have returned, and some Close was called. */
  ghost predicate Quiet(s: Sys) {
    && s.closed
    && (s.serve.SIdle? || s.serve.SDone?)
    && forall c :: 0 <= c < |s.closers| ==> s.closers[c].CIdle? || s.closers[c].CDone?
  }

  /** In every interleaving, once Serve and all Closes have returned both counters are zero;
      and if no bind failed, every listener that was bound is closed. */
  lemma EverythingReclaimed(sh: Shape, closes: nat, acts: seq<Action>)
    requires Runs(sh, Start(closes), acts) && Quiet(Exec(sh, Start(closes), acts))
    ensures var s := Exec(sh, Start(closes), acts);
            && s.on.listenWG == 0 && s.on.resolveWG == 0
            && (s.serve != SDone(BindFailed) ==> AllShut(s.on.entries))
  {
    StartInv(sh, closes);
    RunKeeps(sh, Start(closes), acts);
    var s := Exec(sh, Start(closes), acts);
    assert s.closers[s.winner].CDone?;
  }

  /** A second Close returns only after the first one's teardown has finished. */
  lemma CloseWaitsForTeardown(sh: Shape, s: Sys, c: nat)
    requires Inv(sh, s) && c < |s.closers| && s.closers[c].CDone?
    ensures s.closed && s.closers[s.winner].CDone? && s.on.watching == {} && (s.on.counted ==> AllShut(s.on.entries) && s.on.listening == {})
  {
  }

  /** With at most one listener a failed bind leaks nothing either: there is no earlier
      listener to leak. */
  lemma OneListenerNeverLeaks(sh: Shape, closes: nat, acts: seq<Action>)
    requires sh.listeners <= 1 && Runs(sh, Start(closes), acts) && Quiet(Exec(sh, Start(closes), acts))
    ensures AllShut(Exec(sh, Start(closes), acts).on.entries)
  {
    EverythingReclaimed(sh, closes, acts);
    StartInv(sh, closes);
    RunKeeps(sh, Start(closes), acts);
  }

  ghost predicate Leaks(sh: Shape, closes: nat, acts: seq<Action>) {
    Runs(sh, Start(closes), acts) && Quiet(Exec(sh, Start(closes), acts)) && !AllShut(Exec(sh, Start(closes), acts).on.entries)
  }

  lemma Cons(sh: Shape, s: Sys, a: Action, rest: seq<Action>)
    requires Can(sh, s, a) && Runs(sh, Do(sh, s, a), rest)
    ensures Runs(sh, s, [a] + rest) && Exec(sh, s, [a] + rest) == Exec(sh, Do(sh, s, a), rest)
  {
    assert ([a] + rest)[1..] == rest;
  }

  /** Serve past start and waiting to bind, with Close where `c` says it is. */
  function Racing(lock: Lock, closed: bool, done: bool, entries: seq<bool>, serve: ServePc, c: ClosePc): Sys {
    Sys(lock, closed, if closed then 0 else -1, done, Works(true, entries, {}, 0, {}, 0, false, 0, false), serve, [c])
  }

  lemma RaceStarts(n: nat)
    ensures Runs(Shape(n, 0), Start(1), [Serve, Serve, Serve])
    ensures Exec(Shape(n, 0), Start(1), [Serve, Serve, Serve]) == Racing(Free, false, false, [], SBinding(0), CIdle)
  {
    var sh := Shape(n, 0);
    var s1 := Do(sh, Start(1), Serve);
    var s2 := Do(sh, s1, Serve);
    var s3 := Do(sh, s2, Serve);
    assert s3 == Racing(Free, false, false, [], SBinding(0), CIdle) by {
      assert Start(1).closers == [CIdle];
    }
    Cons(sh, s2, Serve, []);
    Cons(sh, s1, Serve, [Serve]);
    Cons(sh, Start(1), Serve, [Serve, Serve]);
    assert [Serve] + [Serve] == [Serve, Serve] && [Serve] + [Serve, Serve] == [Serve, Serve, Serve] && [Serve] + [] == [Serve];
  }

  lemma CloseStepTo(n: nat, lock: Lock, closed: bool, done: bool, c: ClosePc, lock': Lock, closed': bool, done': bool, c': ClosePc, rest: seq<Action>)
    requires var s := Racing(lock, closed, done, [], SBinding(0), c);
             Can(Shape(n, 0), s, Close(0)) && CloseStep(s, 0) == Racing(lock', closed', done', [], SBinding(0), c')
    requires Runs(Shape(n, 0), Racing(lock', closed', done', [], SBinding(0), c'), rest)
    ensures var s := Racing(lock, closed, done, [], SBinding(0), c);
            && Runs(Shape(n, 0), s, [Close(0)] + rest)
            && Exec(Shape(n, 0), s, [Close(0)] + rest) == Exec(Shape(n, 0), Racing(lock', closed', done', [], SBinding(0), c'), rest)
  {
    Cons(Shape(n, 0), Racing(lock, closed, done, [], SBinding(0), c), Close(0), rest);
  }

  /** The whole of Close runs while Serve has bound nothing yet. */
  lemma CloseRunsAlone(n: nat, rest: seq<Action>) returns (acts: seq<Action>)
    requires Runs(Shape(n, 0), Racing(Free, true, true, [], SBinding(0), CDone), rest)
    ensures Runs(Shape(n, 0), Racing(Free, false, false, [], SBinding(0), CIdle), acts)
    ensures Exec(Shape(n, 0), Racing(Free, false, false, [], SBinding(0), CIdle), acts)
            == Exec(Shape(n, 0), Racing(Free, true, true, [], SBinding(0), CDone), rest)
  {
    acts := rest;
    CloseStepTo(n, Free, true, false, CTear(TDone), Free, true, true, CDone, acts);
    acts := [Close(0)] + acts;
    CloseStepTo(n, Free, true, false, CTear(TWaitResolve), Free, true, false, CTear(TDone), acts);
    acts := [Close(0)] + acts;
    CloseStepTo(n, Free, true, false, CTear(TCancel(true)), Free, true, false, CTear(TWaitResolve), acts);
    acts := [Close(0)] + acts;
    CloseStepTo(n, Free, true, false, CTear(TSnap(true)), Free, true, false, CTear(TCancel(true)), acts);
    acts := [Close(0)] + acts;
    CloseStepTo(n, ByCloser(0), true, false, CTear(TRead), Free, true, false, CTear(TSnap(true)), acts);
    acts := [Close(0)] + acts;
    CloseStepTo(n, Free, true, false, CTear(TStart), ByCloser(0), true, false, CTear(TRead), acts);
    acts := [Close(0)] + acts;
    CloseStepTo(n, ByCloser(0), false, false, CLocked, Free, true, false, CTear(TStart), acts);
    acts := [Close(0)] + acts;
    CloseStepTo(n, Free, false, false, CIdle, ByCloser(0), false, false, CLocked, acts);
    acts := [Close(0)] + acts;
  }

  lemma SecondBindFails(n: nat)
    requires n >= 2
    ensures var acts := [Serve, Serve, FailBind];
            && Runs(Shape(n, 0), Racing(Free, true, true, [], SBinding(0), CDone), acts)
            && Exec(Shape(n, 0), Racing(Free, true, true, [], SBinding(0), CDone), acts)
               == Racing(Free, true, true, [true], SDone(BindFailed), CDone)
  {
    var sh := Shape(n, 0);
    var a := Racing(Free, true, true, [], SBinding(0), CDone);
    var b := Racing(Free, true, true, [], SBound(0), CDone);
    var c := Racing(Free, true, true, [true], SBinding(1), CDone);
    assert Do(sh, a, Serve) == b && Do(sh, b, Serve) == c;
    Cons(sh, c, FailBind, []);
    Cons(sh, b, Serve, [FailBind]);
    Cons(sh, a, Serve, [Serve, FailBind]);
    assert [FailBind] + [] == [FailBind] && [Serve] + [FailBind] == [Serve, FailBind];
    assert [Serve] + [Serve, FailBind] == [Serve, Serve, FailBind];
  }

  lemma {:induction false} Append(sh: Shape, s: Sys, a: seq<Action>, b: seq<Action>)
    requires Runs(sh, s, a) && Runs(sh, Exec(sh, s, a), b)
    ensures Runs(sh, s, a + b) && Exec(sh, s, a + b) == Exec(sh, Exec(sh, s, a), b)
    decreases |a|
  {
    if a == [] {
      assert a + b == b;
    } else {
      Append(sh, Do(sh, s, a[0]), a[1..], b);
      Cons(sh, s, a[0], a[1..] + b);
      assert a + b == [a[0]] + (a[1..] + b);
    }
  }

  /** Close runs to completion between Serve's start and its first bind; the next bind
      succeeds and the one after fails, so Serve returns with a listener nobody will close. */
  lemma BindFailureLeaks(n: nat) returns (acts: seq<Action>)
    requires n >= 2
    ensures Leaks(Shape(n, 0), 1, acts)
  {
    RaceStarts(n);
    SecondBindFails(n);
    var tail := CloseRunsAlone(n, [Serve, Serve, FailBind]);
    acts := [Serve, Serve, Serve] + tail;
    Append(Shape(n, 0), Start(1), [Serve, Serve, Serve], tail);
    var s := Racing(Free, true, true, [true], SDone(BindFailed), CDone);
    assert s.on.entries[0];
  }

  /** Exactly when a bind failure can leak a listener: when the server is configured with
      two listeners or more. */
  lemma LeakIffTwoListeners(n: nat)
    ensures (exists w, closes, acts :: Leaks(Shape(n, w), closes, acts)) <==> n >= 2
  {
    if n >= 2 {
      var acts := BindFailureLeaks(n);
    } else {
      forall w: nat, closes: nat, acts: seq<Action> | Leaks(Shape(n, w), closes, acts)
        ensures false
      {
        OneListenerNeverLeaks(Shape(n, w), closes, acts);
      }
    }
  }

  /** Nothing gets stuck: once a Close has been called, until Serve and every Close have
      returned some thread can take a step that needs no failure of its own. */
  lemma NoDeadlock(sh: Shape, s: Sys)
    requires Inv(sh, s) && s.closed && !Quiet(s)
    ensures exists a :: Can(sh, s, a) && !a.FailBind? && !a.ListenerFails?
  {
    if s.lock.BySer? {
      assert Can(sh, s, Serve);
    } else if s.lock.ByCloser? && s.lock.c < |s.closers| {
      assert Can(sh, s, Close(s.lock.c));
    } else if s.on.watching != {} {
      var k :| k in s.on.watching;
      assert Can(sh, s, WatchExits(k));
    } else if s.serve.SSpawning? {
      assert Can(sh, s, Serve);
    } else if k :| k in s.on.listening && k < s.on.spawned && k < |s.on.entries| && !s.on.entries[k] {
      assert Can(sh, s, ListenerExits(k));
    } else if s.closers[s.winner].CTear? {
      WinnerMoves(sh, s);
      assert Can(sh, s, Close(s.winner));
    } else if !s.serve.SIdle? && !s.serve.SDone? {
      assert Can(sh, s, Serve);
    } else {
      var c :| 0 <= c < |s.closers| && !s.closers[c].CIdle? && !s.closers[c].CDone?;
      assert Can(sh, s, Close(c));
    }
  }

  lemma WinnerMoves(sh: Shape, s: Sys)
    requires Inv(sh, s) && s.closed && s.lock.Free? && s.on.watching == {} && !s.serve.SSpawning?
    requires forall k :: k in s.on.listening && k < s.on.spawned && k < |s.on.entries| ==> s.on.entries[k]
    requires s.closers[s.winner].CTear?
    ensures Can(sh, s, Close(s.winner))
  {
    if s.closers[s.winner].t.TWaitListen? {
      if k :| k in s.on.listening {
        assert false;
      }
    }
  }
}
