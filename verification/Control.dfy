/** The control channel: how Pin, PinCurrent, Unpin and Refresh reach the reconciler goroutine
    and get their one reply, and how a callback running on that goroutine is kept from waiting
    for itself. Every atomic load, channel operation and callback entry is a step of its own. */
module Control {
  import opened Values

  type CallId = nat

  /** Goroutine identities are positive; 0 is the mark of "no callback is running". */
  type Gid = g: nat | g > 0 witness 1

  /** User code running inline on the reconciler goroutine. PreApply, derive and OnError run
      `guarded`, under the mark; a provider, decode hook or validator does not. `saved` is the
      mark to restore. */
  datatype Frame = Frame(guarded: bool, saved: nat)

  datatype Reconciler =
    | Selecting                                   // ready to receive a command
    | Working(cmd: Option<CallId>, frames: seq<Frame>, parked: Option<CallId>)
    | Gone(unanswered: Option<CallId>)            // returned, or killed by a callback

  datatype Answer = Reentrant | Closed | Abandoned | Replied

  datatype Phase = Sending | Waiting | Draining | Answered(answer: Answer)

  /** One command. `cancellable`: the caller brought a context it may cancel. `sent` and
      `taken` count replies put on and taken off the command's one-slot reply channel. */
  datatype Call = Call(gid: Gid, cancellable: bool, phase: Phase, delivered: bool, sent: nat, taken: nat)

  datatype State = State(rid: Gid, mark: nat, rec: Reconciler, done: bool, calls: map<CallId, Call>)

  datatype Step =
    | Issue(id: CallId, gid: Gid, cancellable: bool)  // load the mark, compare, go on to send
    | Deliver(id: CallId)
    | SeeClosed(id: CallId)                           // the watcher's context is done
    | Abandon(id: CallId)                             // the caller's own context is done
    | TakeReply(id: CallId)
    | Drain(id: CallId)                               // the last look at the reply channel
    | Begin                                           // an update or the timer, not a command
    | Enter(guarded: bool)
    | Leave
    | Finish
    | Die                                             // a callback ends the goroutine
    | Stop                                            // the loop sees the context done
    | Exhausted                                       // every source has closed its channel
    | Cancel                                          // Close, or the parent context

  function Initial(rid: Gid): State {
    State(rid, 0, Selecting, false, map[])
  }

  predicate Running(s: State) {
    s.rec.Working? && s.rec.parked.None?
  }

  predicate Enabled(s: State, step: Step) {
    match step
    case Issue(id, gid, _) => id !in s.calls && (gid == s.rid ==> Running(s) && s.rec.frames != [])
    case Deliver(id) => id in s.calls && s.calls[id].phase.Sending? && s.rec.Selecting?
    case SeeClosed(id) => id in s.calls && s.done && (s.calls[id].phase.Sending? || s.calls[id].phase.Waiting?)
    case Abandon(id) => id in s.calls && s.calls[id].cancellable && (s.calls[id].phase.Sending? || s.calls[id].phase.Waiting?)
    case TakeReply(id) => id in s.calls && s.calls[id].phase.Waiting? && s.calls[id].taken < s.calls[id].sent
    case Drain(id) => id in s.calls && s.calls[id].phase.Draining?
    case Begin => s.rec.Selecting?
    case Enter(_) => Running(s)
    case Leave => Running(s) && s.rec.frames != []
    case Finish => Running(s) && s.rec.frames == [] && (s.rec.cmd.Some? ==> s.rec.cmd.value in s.calls)
    case Die => Running(s) && s.rec.frames != []
    case Stop => s.rec.Selecting? && s.done
    case Exhausted => s.rec.Selecting?
    case Cancel => true
  }

  /** The call stops waiting; if it was the reconciler's own, the reconciler runs again. */
  function Settle(s: State, id: CallId, c: Call): State {
    s.(calls := s.calls[id := c],
       rec := if s.rec.Working? && s.rec.parked == Some(id) then s.rec.(parked := None) else s.rec)
  }

  /** Running every deferred disarm, innermost first. */
  function Unwound(mark: nat, frames: seq<Frame>): nat
    decreases |frames|
  {
    if frames == [] then mark
    else var top := frames[|frames| - 1]; Unwound(if top.guarded then top.saved else mark, frames[..|frames| - 1])
  }

  function Next(s: State, step: Step): State
    requires Enabled(s, step)
  {
    match step
    case Issue(id, gid, cancellable) =>
      if s.mark != 0 && s.mark == gid
      then s.(calls := s.calls[id := Call(gid, cancellable, Answered(Reentrant), false, 0, 0)])
      else s.(calls := s.calls[id := Call(gid, cancellable, Sending, false, 0, 0)],
              rec := if gid == s.rid then s.rec.(parked := Some(id)) else s.rec)
    case Deliver(id) =>
      s.(calls := s.calls[id := s.calls[id].(phase := Waiting, delivered := true)],
         rec := Working(Some(id), [], None))
    case SeeClosed(id) =>
      if s.calls[id].phase.Sending?
      then Settle(s, id, s.calls[id].(phase := Answered(Closed)))
      else s.(calls := s.calls[id := s.calls[id].(phase := Draining)])
    case Abandon(id) => Settle(s, id, s.calls[id].(phase := Answered(Abandoned)))
    case TakeReply(id) =>
      s.(calls := s.calls[id := s.calls[id].(phase := Answered(Replied), taken := s.calls[id].taken + 1)])
    case Drain(id) =>
      var c := s.calls[id];
      s.(calls := s.calls[id := if c.taken < c.sent then c.(phase := Answered(Replied), taken := c.taken + 1)
                                else c.(phase := Answered(Closed))])
    case Begin => s.(rec := Working(None, [], None))
    case Enter(guarded) =>
      s.(mark := if guarded then s.rid else s.mark,
         rec := s.rec.(frames := s.rec.frames + [Frame(guarded, s.mark)]))
    case Leave =>
      var n := |s.rec.frames| - 1;
      s.(mark := if s.rec.frames[n].guarded then s.rec.frames[n].saved else s.mark,
         rec := s.rec.(frames := s.rec.frames[..n]))
    case Finish =>
      if s.rec.cmd.None? then s.(rec := Selecting)
      else
        var id := s.rec.cmd.value;
        s.(rec := Selecting, calls := s.calls[id := s.calls[id].(sent := s.calls[id].sent + 1)])
    case Die => s.(rec := Gone(s.rec.cmd), mark := Unwound(s.mark, s.rec.frames))
    case Stop => s.(rec := Gone(None))
    case Exhausted => s.(rec := Gone(None))
    case Cancel => s.(done := true)
  }

  ghost predicate Runs(s: State, steps: seq<Step>)
    decreases |steps|
  {
    steps == [] || (Enabled(s, steps[0]) && Runs(Next(s, steps[0]), steps[1..]))
  }

  ghost function Exec(s: State, steps: seq<Step>): State
    requires Runs(s, steps)
    decreases |steps|
  {
    if steps == [] then s else Exec(Next(s, steps[0]), steps[1..])
  }

  // ---------------------------------------------------------------- the mark

  ghost predicate AnyGuarded(frames: seq<Frame>) {
    exists i :: 0 <= i < |frames| && frames[i].guarded
  }

  ghost predicate NoneGuarded(frames: seq<Frame>) {
    forall i :: 0 <= i < |frames| ==> !frames[i].guarded
  }

  /** The mark under a stack of frames: the reconciler's identity if any of them is guarded. */
  ghost function MarkUnder(rid: Gid, frames: seq<Frame>): nat {
    if AnyGuarded(frames) then rid else 0
  }

  ghost predicate SavedRight(rid: Gid, frames: seq<Frame>) {
    forall i :: 0 <= i < |frames| ==> frames[i].saved == MarkUnder(rid, frames[..i])
  }

  ghost predicate MarkInv(s: State) {
    match s.rec
    case Working(_, frames, parked) =>
      && SavedRight(s.rid, frames) && s.mark == MarkUnder(s.rid, frames)
      && (parked.Some? ==> NoneGuarded(frames) && frames != [])
    case _ => s.mark == 0
  }

  lemma PushMark(rid: Gid, frames: seq<Frame>, f: Frame)
    ensures MarkUnder(rid, frames + [f]) == if f.guarded then rid else MarkUnder(rid, frames)
  {
    var all := frames + [f];
    if f.guarded {
      assert all[|frames|].guarded;
    }
    if AnyGuarded(frames) {
      var i :| 0 <= i < |frames| && frames[i].guarded;
      assert all[i].guarded;
    }
  }

  lemma PushSaved(rid: Gid, frames: seq<Frame>, f: Frame)
    requires SavedRight(rid, frames) && f.saved == MarkUnder(rid, frames)
    ensures SavedRight(rid, frames + [f])
  {
    var all := frames + [f];
    forall i | 0 <= i < |all|
      ensures all[i].saved == MarkUnder(rid, all[..i])
    {
      assert all[..i] == if i < |frames| then frames[..i] else frames;
    }
  }

  lemma PopMark(rid: Gid, frames: seq<Frame>)
    requires SavedRight(rid, frames) && frames != []
    ensures var n := |frames| - 1;
            && SavedRight(rid, frames[..n])
            && MarkUnder(rid, frames[..n]) == if frames[n].guarded then frames[n].saved else MarkUnder(rid, frames)
  {
    var n := |frames| - 1;
    PushMark(rid, frames[..n], frames[n]);
    assert frames == frames[..n] + [frames[n]];
    forall i | 0 <= i < n
      ensures frames[..n][i].saved == MarkUnder(rid, frames[..n][..i])
    {
      assert frames[..n][..i] == frames[..i];
    }
  }

  /** However deep the nesting, unwinding leaves no mark behind. */
  lemma {:induction false} UnwindClears(rid: Gid, frames: seq<Frame>)
    requires SavedRight(rid, frames)
    ensures Unwound(MarkUnder(rid, frames), frames) == 0
    decreases |frames|
  {
    if frames != [] {
      PopMark(rid, frames);
      UnwindClears(rid, frames[..|frames| - 1]);
    }
  }

  lemma MarkKeeps(s: State, step: Step)
    requires MarkInv(s) && Enabled(s, step)
    ensures MarkInv(Next(s, step)) && Next(s, step).rid == s.rid
  {
    match step
    case Enter(guarded) =>
      PushMark(s.rid, s.rec.frames, Frame(guarded, s.mark));
      PushSaved(s.rid, s.rec.frames, Frame(guarded, s.mark));
    case Leave => PopMark(s.rid, s.rec.frames);
    case Die => UnwindClears(s.rid, s.rec.frames);
    case Issue(_, _, _) =>
      if s.rec.Working? && !NoneGuarded(s.rec.frames) {
        assert AnyGuarded(s.rec.frames);
      }
    case Deliver(_) =>
    case SeeClosed(_) =>
    case Abandon(_) =>
    case TakeReply(_) =>
    case Drain(_) =>
    case Begin =>
    case Finish =>
    case Stop =>
    case Exhausted =>
    case Cancel =>
  }

  // ---------------------------------------------------------------- calls and replies

  ghost predicate Handling(s: State, id: CallId) {
    s.rec.Working? && s.rec.cmd == Some(id)
  }

  ghost predicate Unanswerable(s: State, id: CallId) {
    s.rec.Gone? && s.rec.unanswered == Some(id)
  }

  /** A delivered command is being handled, or has its one reply, or died with the reconciler. */
  ghost predicate CallInv(s: State, id: CallId)
    requires id in s.calls
  {
    var c := s.calls[id];
    && c.sent == (if c.delivered && !Handling(s, id) && !Unanswerable(s, id) then 1 else 0)
    && c.taken == (if c.phase == Answered(Replied) then 1 else 0)
    && c.taken <= c.sent
    && (c.phase.Sending? ==> !c.delivered)
    && (c.phase.Waiting? || c.phase.Draining? ==> c.delivered)
    && (c.phase == Answered(Reentrant) ==> c.gid == s.rid && !c.delivered)
    && (c.phase == Answered(Closed) || c.phase.Draining? ==> s.done)
    && (c.phase == Answered(Abandoned) ==> c.cancellable)
    && (c.gid == s.rid ==> !c.delivered && (c.phase.Sending? <==> s.rec.Working? && s.rec.parked == Some(id)))
  }

  /** Whom the reconciler is working for, and whom it waits for, are calls of the right kind. */
  ghost predicate OwnersInv(s: State) {
    && (s.rec.Working? && s.rec.cmd.Some? ==> s.rec.cmd.value in s.calls && s.calls[s.rec.cmd.value].delivered)
    && (s.rec.Gone? && s.rec.unanswered.Some? ==> s.rec.unanswered.value in s.calls && s.calls[s.rec.unanswered.value].delivered)
    && (s.rec.Working? && s.rec.parked.Some? ==> s.rec.parked.value in s.calls && s.calls[s.rec.parked.value].gid == s.rid)
  }

  ghost predicate CallsInv(s: State) {
    (forall id :: id in s.calls ==> CallInv(s, id)) && OwnersInv(s)
  }

  predicate ByCaller(step: Step) {
    step.Issue? || step.SeeClosed? || step.Abandon? || step.TakeReply? || step.Drain?
  }

  lemma CallerStepKeepsCall(s: State, step: Step, id: CallId)
    requires MarkInv(s) && CallsInv(s) && Enabled(s, step) && ByCaller(step) && !step.Issue? && id in s.calls
    ensures CallInv(Next(s, step), id)
  {
    assert CallInv(s, id);
    assert CallInv(s, step.id);
  }

  lemma IssueKeepsCall(s: State, step: Step, id: CallId)
    requires MarkInv(s) && CallsInv(s) && Enabled(s, step) && step.Issue? && id in Next(s, step).calls
    ensures CallInv(Next(s, step), id)
  {
    if id in s.calls {
      assert CallInv(s, id);
    }
  }

  lemma OtherStepKeepsCall(s: State, step: Step, id: CallId)
    requires MarkInv(s) && CallsInv(s) && Enabled(s, step) && !ByCaller(step) && id in s.calls
    ensures CallInv(Next(s, step), id)
  {
    assert CallInv(s, id);
  }

  lemma OwnersKeep(s: State, step: Step)
    requires OwnersInv(s) && Enabled(s, step)
    ensures OwnersInv(Next(s, step))
  {
  }

  lemma CallsKeep(s: State, step: Step)
    requires MarkInv(s) && CallsInv(s) && Enabled(s, step)
    ensures CallsInv(Next(s, step))
  {
    OwnersKeep(s, step);
    forall id | id in Next(s, step).calls
      ensures CallInv(Next(s, step), id)
    {
      if step.Issue? {
        IssueKeepsCall(s, step, id);
      } else if ByCaller(step) {
        CallerStepKeepsCall(s, step, id);
      } else {
        OtherStepKeepsCall(s, step, id);
      }
    }
  }

  ghost predicate Inv(s: State) {
    MarkInv(s) && CallsInv(s)
  }

  lemma {:induction false} RunKeeps(s: State, steps: seq<Step>)
    requires Inv(s) && Runs(s, steps)
    ensures Inv(Exec(s, steps)) && Exec(s, steps).rid == s.rid
    decreases |steps|
  {
    if steps != [] {
      MarkKeeps(s, steps[0]);
      CallsKeep(s, steps[0]);
      RunKeeps(Next(s, steps[0]), steps[1..]);
    }
  }

  /** What holds in every reachable state. */
  lemma Reachable(rid: Gid, steps: seq<Step>)
    requires Runs(Initial(rid), steps)
    ensures Inv(Exec(Initial(rid), steps)) && Exec(Initial(rid), steps).rid == rid
  {
    RunKeeps(Initial(rid), steps);
  }

  // ---------------------------------------------------------------- waiting for oneself

  /** A command issued on the reconciler's own goroutine is refused exactly when some callback
      on its stack runs under the mark, at whatever depth; otherwise that goroutine is left
      waiting on its own channel. */
  lemma OwnCallRefusedIffGuarded(rid: Gid, steps: seq<Step>, id: CallId, cancellable: bool)
    requires Runs(Initial(rid), steps) && Enabled(Exec(Initial(rid), steps), Issue(id, rid, cancellable))
    ensures var s := Exec(Initial(rid), steps);
            var t := Next(s, Issue(id, rid, cancellable));
            && s.rec.Working? && t.rec.Working?
            && (AnyGuarded(s.rec.frames) <==> t.calls[id].phase == Answered(Reentrant))
            && (AnyGuarded(s.rec.frames) <==> t.rec == s.rec)
            && (!AnyGuarded(s.rec.frames) <==> t.rec.parked == Some(id))
  {
    Reachable(rid, steps);
  }

  ghost predicate OnlyGuarded(steps: seq<Step>) {
    forall i :: 0 <= i < |steps| && steps[i].Enter? ==> steps[i].guarded
  }

  ghost predicate AllGuarded(s: State) {
    s.rec.Working? ==> s.rec.parked.None? && forall i :: 0 <= i < |s.rec.frames| ==> s.rec.frames[i].guarded
  }

  lemma GuardedStep(s: State, step: Step)
    requires MarkInv(s) && AllGuarded(s) && Enabled(s, step) && (step.Enter? ==> step.guarded)
    ensures AllGuarded(Next(s, step))
  {
    if step.Issue? && step.gid == s.rid {
      assert s.rec.frames[0].guarded;
      assert AnyGuarded(s.rec.frames);
    }
  }

  lemma {:induction false} GuardedRun(s: State, steps: seq<Step>)
    requires MarkInv(s) && AllGuarded(s) && Runs(s, steps) && OnlyGuarded(steps)
    ensures AllGuarded(Exec(s, steps))
    decreases |steps|
  {
    if steps != [] {
      GuardedStep(s, steps[0]);
      MarkKeeps(s, steps[0]);
      forall i | 0 <= i < |steps[1..]| && steps[1..][i].Enter?
        ensures steps[1..][i].guarded
      {
        assert steps[i + 1] == steps[1..][i];
      }
      GuardedRun(Next(s, steps[0]), steps[1..]);
    }
  }

  /** For any nesting of PreApply, derive and OnError callbacks, each issuing any commands: the
      reconciler goroutine never waits on its own control channel, and it can always go on. */
  lemma NeverWaitsForItself(rid: Gid, steps: seq<Step>)
    requires Runs(Initial(rid), steps) && OnlyGuarded(steps)
    ensures var s := Exec(Initial(rid), steps);
            s.rec.Working? ==> s.rec.parked.None? && (Enabled(s, Leave) || Enabled(s, Finish))
  {
    GuardedRun(Initial(rid), steps);
    Reachable(rid, steps);
  }

  // ---------------------------------------------------------------- one reply each

  /** Only the reconciler's own goroutine is ever refused as reentrant; no command gets two
      replies; and one that was delivered has had exactly one as soon as the reconciler is done
      with it - unless a callback killed the reconciler while it was handling that command. */
  lemma RepliesExactlyOnce(rid: Gid, steps: seq<Step>, id: CallId)
    requires Runs(Initial(rid), steps) && id in Exec(Initial(rid), steps).calls
    ensures var s := Exec(Initial(rid), steps);
            var c := s.calls[id];
            && (c.phase == Answered(Reentrant) ==> c.gid == rid)
            && c.taken <= c.sent <= 1
            && (c.sent == 1 <==> c.delivered && !Handling(s, id) && !Unanswerable(s, id))
            && (c.phase == Answered(Replied) ==> c.delivered && c.sent == 1)
  {
    Reachable(rid, steps);
    assert CallInv(Exec(Initial(rid), steps), id);
  }

  /** "Watcher closed" is never said over a reply: at the moment of that answer the command had
      not been delivered, or none had been sent. Once a reply has been sent, a caller that
      brought no context of its own gets that reply and nothing else. */
  lemma ClosedMeansNoReply(rid: Gid, steps: seq<Step>, step: Step, id: CallId)
    requires Runs(Initial(rid), steps) && Enabled(Exec(Initial(rid), steps), step)
    requires var s := Exec(Initial(rid), steps); id in s.calls && !s.calls[id].phase.Answered? && Next(s, step).calls[id].phase.Answered?
    ensures var s := Exec(Initial(rid), steps);
            var answer := Next(s, step).calls[id].phase.answer;
            && (answer.Closed? ==> s.done && s.calls[id].sent == 0)
            && (answer.Abandoned? ==> s.calls[id].cancellable)
            && (s.calls[id].sent == 1 && !s.calls[id].cancellable ==> answer.Replied?)
            && (answer.Replied? ==> s.calls[id].sent == 1)
  {
    Reachable(rid, steps);
    assert CallInv(Exec(Initial(rid), steps), id);
  }

  // ---------------------------------------------------------------- finishing

  /** How many of its own steps a call is from its answer once the watcher's context is done. */
  function Left(c: Call): nat {
    match c.phase
    case Sending => 3
    case Waiting => 2
    case Draining => 1
    case Answered(_) => 0
  }

  function Escape(c: Call, id: CallId): Step {
    if c.phase.Draining? then Drain(id) else SeeClosed(id)
  }

  /** Once the watcher's context is done, every caller - even one whose handler never returned,
      or that waits on itself - has a step of its own that brings it nearer its answer, and no
      other step ever takes it further away. */
  lemma ShutdownFreesEveryCaller(s: State, id: CallId, other: Step)
    requires Inv(s) && s.done && id in s.calls && !s.calls[id].phase.Answered? && Enabled(s, other)
    ensures Enabled(s, Escape(s.calls[id], id))
    ensures Left(Next(s, Escape(s.calls[id], id)).calls[id]) < Left(s.calls[id])
    ensures Next(s, other).done && id in Next(s, other).calls && Left(Next(s, other).calls[id]) <= Left(s.calls[id])
  {
  }

  ghost predicate Never(steps: seq<Step>, step: Step) {
    forall i :: 0 <= i < |steps| ==> steps[i] != step
  }

  // ---------------------------------------------------------------- being answered without a shutdown

  /** Some run without a Cancel ends with the call answered. */
  ghost predicate Answerable(s: State, id: CallId) {
    exists steps :: Answers(s, id, steps)
  }

  ghost predicate Answers(s: State, id: CallId, steps: seq<Step>) {
    Runs(s, steps) && Never(steps, Cancel) && id in Exec(s, steps).calls && Exec(s, steps).calls[id].phase.Answered?
  }

  /** The reconciler waits on a command of its own that nothing but a shutdown will release. */
  predicate ParkedForGood(s: State) {
    s.rec.Working? && s.rec.parked.Some? && s.rec.parked.value in s.calls && !s.calls[s.rec.parked.value].cancellable
  }

  /** Nobody will put a reply on the call's channel any more, and its caller has no way out. */
  predicate Stuck(s: State, id: CallId)
    requires id in s.calls
  {
    && !s.done && !s.calls[id].cancellable && s.calls[id].sent == 0
    && (s.rec.Gone? || ParkedForGood(s))
  }

  lemma StuckStep(s: State, id: CallId, step: Step)
    requires Inv(s) && id in s.calls && !s.calls[id].phase.Answered? && Stuck(s, id)
    requires Enabled(s, step) && step != Cancel
    ensures id in Next(s, step).calls && !Next(s, step).calls[id].phase.Answered? && Stuck(Next(s, step), id)
  {
    assert CallInv(s, id);
  }

  lemma {:induction false} StuckRun(s: State, id: CallId, steps: seq<Step>)
    requires Inv(s) && id in s.calls && !s.calls[id].phase.Answered? && Stuck(s, id)
    requires Runs(s, steps) && Never(steps, Cancel)
    ensures id in Exec(s, steps).calls && !Exec(s, steps).calls[id].phase.Answered?
    decreases |steps|
  {
    if steps != [] {
      assert steps[0] != Cancel;
      NeverRest(steps, Cancel);
      StuckStep(s, id, steps[0]);
      MarkKeeps(s, steps[0]);
      CallsKeep(s, steps[0]);
      StuckRun(Next(s, steps[0]), id, steps[1..]);
    }
  }

  lemma NeverRest(steps: seq<Step>, step: Step)
    requires Never(steps, step) && steps != []
    ensures Never(steps[1..], step)
  {
    forall i | 0 <= i < |steps[1..]|
      ensures steps[1..][i] != step
    {
      assert steps[i + 1] == steps[1..][i];
    }
  }

  lemma Prepend(s: State, step: Step, rest: seq<Step>) returns (steps: seq<Step>)
    requires Enabled(s, step) && Runs(Next(s, step), rest)
    ensures steps == [step] + rest && Runs(s, steps) && Exec(s, steps) == Exec(Next(s, step), rest)
  {
    steps := [step] + rest;
    assert steps[1..] == rest;
  }

  lemma One(s: State, id: CallId, step: Step)
    requires Enabled(s, step) && step != Cancel
    requires id in Next(s, step).calls && Next(s, step).calls[id].phase.Answered?
    ensures Answerable(s, id)
  {
    var steps := Prepend(s, step, []);
    assert Answers(s, id, steps);
  }

  /** One step nearer: if the call can be answered from there, it can from here. */
  lemma StepBack(s: State, id: CallId, step: Step)
    requires Enabled(s, step) && step != Cancel && Answerable(Next(s, step), id)
    ensures Answerable(s, id)
  {
    var rest :| Answers(Next(s, step), id, rest);
    var steps := Prepend(s, step, rest);
    assert Answers(s, id, steps);
  }

  /** From an idle reconciler: a command still to be sent is delivered and handled; one that was
      delivered before has its reply waiting. */
  lemma IdleAnswers(s: State, id: CallId)
    requires Inv(s) && id in s.calls && !s.calls[id].phase.Answered? && s.rec.Selecting?
    ensures Answerable(s, id)
  {
    assert CallInv(s, id);
    if s.calls[id].phase.Sending? {
      SendingIsServed(s, id);
    } else if s.calls[id].phase.Waiting? {
      One(s, id, TakeReply(id));
    } else {
      One(s, id, Drain(id));
    }
  }

  lemma SendingIsServed(s: State, id: CallId)
    requires Inv(s) && id in s.calls && s.calls[id].phase.Sending? && s.rec.Selecting?
    ensures Answerable(s, id)
  {
    assert CallInv(s, id);
    var s1 := Next(s, Deliver(id));
    var s2 := Next(s1, Finish);
    One(s2, id, TakeReply(id));
    StepBack(s1, id, Finish);
    StepBack(s, id, Deliver(id));
  }

  /** The reconciler's way back to idle: let the callbacks return, innermost first, and finish. */
  lemma {:induction false} RunningAnswers(s: State, id: CallId)
    requires Inv(s) && id in s.calls && !s.calls[id].phase.Answered? && Running(s)
    ensures Answerable(s, id)
    decreases |s.rec.frames|
  {
    var step := if s.rec.frames == [] then Finish else Leave;
    MarkKeeps(s, step);
    CallsKeep(s, step);
    if s.rec.frames == [] {
      IdleAnswers(Next(s, Finish), id);
    } else {
      RunningAnswers(Next(s, Leave), id);
    }
    StepBack(s, id, step);
  }

  /** A reconciler parked on a command with a context of its own runs again once that context
      is cancelled. */
  lemma UnparkedAnswers(s: State, id: CallId)
    requires Inv(s) && id in s.calls && !s.calls[id].phase.Answered?
    requires s.rec.Working? && s.rec.parked.Some? && !ParkedForGood(s)
    ensures Answerable(s, id)
  {
    var p := s.rec.parked.value;
    assert CallInv(s, p);
    var step := Abandon(p);
    if p == id {
      One(s, id, step);
    } else {
      MarkKeeps(s, step);
      CallsKeep(s, step);
      RunningAnswers(Next(s, step), id);
      StepBack(s, id, step);
    }
  }

  lemma FreeAnswers(s: State, id: CallId)
    requires Inv(s) && id in s.calls && !s.calls[id].phase.Answered? && !Stuck(s, id)
    ensures Answerable(s, id)
  {
    var c := s.calls[id];
    assert CallInv(s, id);
    if c.phase.Draining? {
      One(s, id, Drain(id));
    } else if c.cancellable {
      One(s, id, Abandon(id));
    } else if c.sent == 1 {
      One(s, id, TakeReply(id));
    } else if s.done {
      if c.phase.Sending? {
        One(s, id, SeeClosed(id));
      } else {
        One(Next(s, SeeClosed(id)), id, Drain(id));
        StepBack(s, id, SeeClosed(id));
      }
    } else if s.rec.Selecting? {
      IdleAnswers(s, id);
    } else if Running(s) {
      RunningAnswers(s, id);
    } else {
      UnparkedAnswers(s, id);
    }
  }

  /** In every reachable state, for every command still waiting: some run without a shutdown
      answers it if and only if it is not stuck - that is, unless its caller has no context of
      its own, no reply has been sent, and the reconciler is gone or waits for good on a command
      of its own. */
  lemma AnswerableIffNotStuck(rid: Gid, steps: seq<Step>, id: CallId)
    requires Runs(Initial(rid), steps) && id in Exec(Initial(rid), steps).calls
    requires !Exec(Initial(rid), steps).calls[id].phase.Answered?
    ensures var s := Exec(Initial(rid), steps); Answerable(s, id) <==> !Stuck(s, id)
  {
    var s := Exec(Initial(rid), steps);
    Reachable(rid, steps);
    if Stuck(s, id) {
      if Answerable(s, id) {
        var more :| Answers(s, id, more);
        StuckRun(s, id, more);
      }
    } else {
      FreeAnswers(s, id);
    }
  }

  // ---------------------------------------------------------------- and the runs that get stuck

  /** After `steps` call `id` waits, without a context of its own, before any shutdown, and
      for good. */
  ghost predicate LeavesStuck(rid: Gid, steps: seq<Step>, id: CallId) {
    && Runs(Initial(rid), steps) && Never(steps, Cancel)
    && var s := Exec(Initial(rid), steps);
       id in s.calls && !s.calls[id].phase.Answered? && Stuck(s, id)
  }

  /** Every source closes its channel, so the loop returns; then another goroutine calls Pin. */
  lemma StuckOnceSourcesEnd(rid: Gid, other: Gid)
    requires other != rid
    ensures LeavesStuck(rid, [Exhausted, Issue(1, other, false)], 1)
    ensures Exec(Initial(rid), [Exhausted, Issue(1, other, false)]).rec == Gone(None)
  {
    var s0 := Initial(rid);
    var s1 := Next(s0, Exhausted);
    var steps := Prepend(s1, Issue(1, other, false), []);
    steps := Prepend(s0, Exhausted, steps);
    assert steps == [Exhausted, Issue(1, other, false)];
  }

  /** A provider called by the reconciler calls Pin: no mark is set, so the reconciler waits for
      itself, and so does everyone after. */
  lemma StuckBehindOwnCall(rid: Gid, other: Gid)
    requires other != rid
    ensures var steps := [Begin, Enter(false), Issue(0, rid, false), Issue(1, other, false)];
            LeavesStuck(rid, steps, 0) && LeavesStuck(rid, steps, 1) && ParkedForGood(Exec(Initial(rid), steps))
  {
    var s0 := Initial(rid);
    var s1 := Next(s0, Begin);
    var s2 := Next(s1, Enter(false));
    var s3 := Next(s2, Issue(0, rid, false));
    var steps := Prepend(s3, Issue(1, other, false), []);
    steps := Prepend(s2, Issue(0, rid, false), steps);
    steps := Prepend(s1, Enter(false), steps);
    steps := Prepend(s0, Begin, steps);
    assert steps == [Begin, Enter(false), Issue(0, rid, false), Issue(1, other, false)];
  }

  /** A callback ends the reconciler goroutine while it handles the command. */
  lemma StuckWithDeadHandler(rid: Gid, other: Gid)
    requires other != rid
    ensures var steps := [Issue(1, other, false), Deliver(1), Enter(true), Die];
            LeavesStuck(rid, steps, 1) && Unanswerable(Exec(Initial(rid), steps), 1)
  {
    var s0 := Initial(rid);
    var s1 := Next(s0, Issue(1, other, false));
    var s2 := Next(s1, Deliver(1));
    var s3 := Next(s2, Enter(true));
    var steps := Prepend(s3, Die, []);
    steps := Prepend(s2, Enter(true), steps);
    steps := Prepend(s1, Deliver(1), steps);
    steps := Prepend(s0, Issue(1, other, false), steps);
    assert steps == [Issue(1, other, false), Deliver(1), Enter(true), Die];
  }
}
