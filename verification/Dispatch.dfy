/** The bounded, drop-oldest queue between the reconciler goroutine and the goroutine that
    calls OnChange. The two are interleaved step by step: a send that finds the queue full and
    the receive that then makes room are separate steps, and the consumer may run between them.
    A depth of 0 is an unbuffered channel: a send succeeds only into a waiting receiver. */
module Dispatch {
  import opened Values

  /** Where the producer stands in its loop; `retry` says whether it has been round once. */
  datatype Producer<E> = Idle | Sending(ev: E, retry: bool) | Refused(ev: E)

  datatype State<E> = State(
    depth: nat,
    queue: seq<E>,
    producer: Producer<E>,
    receiving: bool,       // the consumer waits for an event, as opposed to running OnChange
    closed: bool,
    emitted: seq<E>,       // everything handed to `enqueue`, in order
    delivered: seq<E>,     // everything OnChange was called with, in order
    dropped: seq<E>)       // everything counted as dropped, in order

  datatype Step<E> = Emit(ev: E) | TrySend | TryDrop | Await | Receive | Shutdown

  function Initial<E>(depth: nat): State<E> {
    State(depth, [], Idle, false, false, [], [], [])
  }

  predicate Enabled<E>(s: State<E>, step: Step<E>) {
    match step
    case Emit(_) => s.producer.Idle? && !s.closed
    case TrySend => s.producer.Sending?
    case TryDrop => s.producer.Refused?
    case Await => !s.receiving
    case Receive => s.receiving && s.queue != []
    case Shutdown => s.producer.Idle? && !s.closed
  }

  function Next<E>(s: State<E>, step: Step<E>): State<E>
    requires Enabled(s, step)
  {
    match step
    case Emit(ev) => s.(producer := Sending(ev, false), emitted := s.emitted + [ev])
    case TrySend =>
      if s.receiving && s.queue == []
      then s.(delivered := s.delivered + [s.producer.ev], receiving := false, producer := Idle)
      else if |s.queue| < s.depth
      then s.(queue := s.queue + [s.producer.ev], producer := Idle)
      else s.(producer := Refused(s.producer.ev))
    case TryDrop =>
      var retry := s.(producer := Sending(s.producer.ev, true));
      if s.queue == [] then retry
      else retry.(queue := s.queue[1..], dropped := s.dropped + [s.queue[0]])
    case Await => s.(receiving := true)
    case Receive => s.(queue := s.queue[1..], delivered := s.delivered + [s.queue[0]], receiving := false)
    case Shutdown => s.(closed := true)
  }

  ghost predicate Runs<E>(s: State<E>, steps: seq<Step<E>>)
    decreases |steps|
  {
    steps == [] || (Enabled(s, steps[0]) && Runs(Next(s, steps[0]), steps[1..]))
  }

  ghost function Exec<E>(s: State<E>, steps: seq<Step<E>>): State<E>
    requires Runs(s, steps)
    decreases |steps|
  {
    if steps == [] then s else Exec(Next(s, steps[0]), steps[1..])
  }

  // ---------------------------------------------------------------- the invariant

  ghost predicate Increasing(ks: seq<nat>) {
    forall i, j :: 0 <= i < j < |ks| ==> ks[i] < ks[j]
  }

  /** `xs` is what `emitted` holds at the positions `ks`. */
  ghost predicate Picks<E>(ks: seq<nat>, emitted: seq<E>, xs: seq<E>) {
    |ks| == |xs| && forall i :: 0 <= i < |ks| ==> ks[i] < |emitted| && emitted[ks[i]] == xs[i]
  }

  /** How many emitted events have left the producer's hand. */
  function Settled<E>(s: State<E>): int {
    |s.emitted| - (if s.producer.Idle? then 0 else 1)
  }

  /** `kept` and `lost` say which emissions were delivered or are queued, and which dropped. */
  ghost predicate Inv<E>(s: State<E>, kept: seq<nat>, lost: seq<nat>) {
    Ordered(s, kept, lost) && Ledger(s, kept, lost) && Bounded(s)
  }

  ghost predicate Ordered<E>(s: State<E>, kept: seq<nat>, lost: seq<nat>) {
    && Increasing(kept) && Picks(kept, s.emitted, s.delivered + s.queue)
    && Increasing(lost) && Picks(lost, s.emitted, s.dropped)
    && (forall i, j :: |s.delivered| <= i < |kept| && 0 <= j < |lost| ==> lost[j] < kept[i])
  }

  ghost predicate Ledger<E>(s: State<E>, kept: seq<nat>, lost: seq<nat>) {
    && 0 <= Settled(s) && |kept| + |lost| == Settled(s)
    && (forall i :: 0 <= i < |kept| ==> kept[i] < Settled(s))
    && (forall i :: 0 <= i < |lost| ==> lost[i] < Settled(s) && lost[i] + 1 < |s.emitted|)
    && (forall k: nat :: k < Settled(s) ==> k in kept || k in lost)
    && (forall k :: k in kept ==> k !in lost)
  }

  ghost predicate Bounded<E>(s: State<E>) {
    && |s.queue| <= s.depth
    && (!s.producer.Idle? ==> s.emitted != [] && s.producer.ev == s.emitted[|s.emitted| - 1] && !s.closed)
    && (s.producer.Sending? && s.producer.retry && s.depth >= 1 ==> |s.queue| < s.depth)
    && (s.depth == 0 ==> s.dropped == [])
  }

  lemma EmitKeeps<E>(s: State<E>, ev: E, kept: seq<nat>, lost: seq<nat>)
    requires Inv(s, kept, lost) && Enabled(s, Emit(ev))
    ensures Inv(Next(s, Emit(ev)), kept, lost)
  {
    var t := Next(s, Emit(ev));
    assert forall i :: 0 <= i < |s.emitted| ==> t.emitted[i] == s.emitted[i];
    assert Settled(t) == Settled(s);
  }

  /** The send succeeds: into a waiting receiver, or into the buffer. */
  predicate Accepts<E>(s: State<E>) {
    (s.receiving && s.queue == []) || |s.queue| < s.depth
  }

  lemma SendKeepsOrder<E>(s: State<E>, kept: seq<nat>, lost: seq<nat>)
    requires Inv(s, kept, lost) && Enabled(s, TrySend) && Accepts(s)
    ensures Ordered(Next(s, TrySend), kept + [|s.emitted| - 1], lost)
  {
    var ev := s.producer.ev;
    assert s.delivered + (s.queue + [ev]) == (s.delivered + s.queue) + [ev];
    assert s.queue == [] ==> (s.delivered + [ev]) + s.queue == (s.delivered + s.queue) + [ev];
  }

  lemma SendKeepsLedger<E>(s: State<E>, kept: seq<nat>, lost: seq<nat>)
    requires Inv(s, kept, lost) && Enabled(s, TrySend) && Accepts(s)
    ensures Ledger(Next(s, TrySend), kept + [|s.emitted| - 1], lost)
  {
    assert forall k :: k in kept + [|s.emitted| - 1] <==> k in kept || k == |s.emitted| - 1;
  }

  lemma SendKeeps<E>(s: State<E>, kept: seq<nat>, lost: seq<nat>) returns (kept': seq<nat>)
    requires Inv(s, kept, lost) && Enabled(s, TrySend)
    ensures Inv(Next(s, TrySend), kept', lost)
  {
    kept' := kept;
    if Accepts(s) {
      SendKeepsOrder(s, kept, lost);
      SendKeepsLedger(s, kept, lost);
      kept' := kept + [|s.emitted| - 1];
    }
  }

  lemma Without(ks: seq<nat>, d: nat) returns (rest: seq<nat>)
    requires d < |ks| && Increasing(ks)
    ensures rest == ks[..d] + ks[d + 1..] && Increasing(rest)
    ensures forall k :: k in rest <==> k in ks && k != ks[d]
  {
    rest := ks[..d] + ks[d + 1..];
    assert ks == ks[..d] + [ks[d]] + ks[d + 1..];
  }

  lemma DropKeepsOrder<E>(s: State<E>, kept: seq<nat>, lost: seq<nat>)
    requires Inv(s, kept, lost) && Enabled(s, TryDrop) && s.queue != []
    ensures var d := |s.delivered|; d < |kept| && Ordered(Next(s, TryDrop), kept[..d] + kept[d + 1..], lost + [kept[d]])
  {
    var d := |s.delivered|;
    var rest := Without(kept, d);
    assert (s.delivered + s.queue)[d] == s.queue[0];
    assert forall i :: d < i < |kept| ==> (s.delivered + s.queue)[i] == (s.delivered + s.queue[1..])[i - 1];
  }

  lemma DropKeepsLedger<E>(s: State<E>, kept: seq<nat>, lost: seq<nat>)
    requires Inv(s, kept, lost) && Enabled(s, TryDrop) && s.queue != []
    ensures var d := |s.delivered|; d < |kept| && Ledger(Next(s, TryDrop), kept[..d] + kept[d + 1..], lost + [kept[d]])
  {
    var d := |s.delivered|;
    var rest := Without(kept, d);
    assert forall k :: k in lost + [kept[d]] <==> k in lost || k == kept[d];
  }

  lemma DropKeeps<E>(s: State<E>, kept: seq<nat>, lost: seq<nat>) returns (kept': seq<nat>, lost': seq<nat>)
    requires Inv(s, kept, lost) && Enabled(s, TryDrop)
    ensures Inv(Next(s, TryDrop), kept', lost')
  {
    kept', lost' := kept, lost;
    if s.queue != [] {
      DropKeepsOrder(s, kept, lost);
      DropKeepsLedger(s, kept, lost);
      var d := |s.delivered|;
      kept', lost' := kept[..d] + kept[d + 1..], lost + [kept[d]];
    }
  }

  lemma ReceiveKeeps<E>(s: State<E>, kept: seq<nat>, lost: seq<nat>)
    requires Inv(s, kept, lost) && Enabled(s, Receive)
    ensures Inv(Next(s, Receive), kept, lost)
  {
    assert (s.delivered + [s.queue[0]]) + s.queue[1..] == s.delivered + s.queue;
  }

  lemma StepKeeps<E>(s: State<E>, step: Step<E>, kept: seq<nat>, lost: seq<nat>) returns (kept': seq<nat>, lost': seq<nat>)
    requires Inv(s, kept, lost) && Enabled(s, step)
    ensures Inv(Next(s, step), kept', lost')
  {
    kept', lost' := kept, lost;
    match step
    case Emit(ev) => EmitKeeps(s, ev, kept, lost);
    case TrySend => kept' := SendKeeps(s, kept, lost);
    case TryDrop => kept', lost' := DropKeeps(s, kept, lost);
    case Await =>
    case Receive => ReceiveKeeps(s, kept, lost);
    case Shutdown =>
  }

  lemma {:induction false} RunKeeps<E>(s: State<E>, steps: seq<Step<E>>, kept: seq<nat>, lost: seq<nat>) returns (kept': seq<nat>, lost': seq<nat>)
    requires Inv(s, kept, lost) && Runs(s, steps)
    ensures Exec(s, steps).depth == s.depth && Inv(Exec(s, steps), kept', lost')
    decreases |steps|
  {
    kept', lost' := kept, lost;
    if steps != [] {
      kept', lost' := StepKeeps(s, steps[0], kept, lost);
      kept', lost' := RunKeeps(Next(s, steps[0]), steps[1..], kept', lost');
    }
  }

  // ---------------------------------------------------------------- whole runs

  /** Every interleaving: what was delivered followed by what is queued is an in-order
      subsequence of what was emitted, everything else settled was dropped, in order and each
      once, the queue never exceeds its depth, no drop ever takes the newest event or one emitted
      after any that is still queued, and a queue of depth 0 drops nothing. */
  lemma Delivery<E>(depth: nat, steps: seq<Step<E>>) returns (kept: seq<nat>, lost: seq<nat>)
    requires Runs(Initial(depth), steps)
    ensures var s := Exec(Initial(depth), steps);
            && |s.queue| <= depth
            && Increasing(kept) && Picks(kept, s.emitted, s.delivered + s.queue)
            && Increasing(lost) && Picks(lost, s.emitted, s.dropped)
            && (forall k: nat :: k < Settled(s) <==> k in kept || k in lost)
            && (forall k :: k in kept ==> k !in lost)
            && |s.emitted| == |s.delivered| + |s.queue| + |s.dropped| + (if s.producer.Idle? then 0 else 1)
            && (forall k :: k in lost ==> k + 1 < |s.emitted|)
            && (s.producer.Idle? && s.emitted != [] ==> |s.emitted| - 1 in kept)
            && (forall i, j :: |s.delivered| <= i < |kept| && 0 <= j < |lost| ==> lost[j] < kept[i])
            && (depth == 0 ==> s.dropped == [])
  {
    kept, lost := RunKeeps<E>(Initial(depth), steps, [], []);
    var s := Exec(Initial(depth), steps);
    if s.producer.Idle? && s.emitted != [] {
      assert |s.emitted| - 1 < Settled(s);
    }
  }

  lemma LastPick<E>(ks: seq<nat>, emitted: seq<E>, xs: seq<E>)
    requires Increasing(ks) && Picks(ks, emitted, xs) && emitted != [] && |emitted| - 1 in ks
    ensures xs != [] && xs[|xs| - 1] == emitted[|emitted| - 1]
  {
    var i :| 0 <= i < |ks| && ks[i] == |emitted| - 1;
    assert ks[|ks| - 1] < |emitted|;
  }

  /** The queue is closed by the goroutine that fills it, so never under an event in hand. */
  lemma CloseWaitsForTheLoop<E>(depth: nat, steps: seq<Step<E>>)
    requires Runs(Initial(depth), steps) && Exec(Initial(depth), steps).closed
    ensures Exec(Initial(depth), steps).producer.Idle?
  {
    var kept, lost := RunKeeps<E>(Initial(depth), steps, [], []);
  }

  /** Once the reconciler has closed the queue and the consumer has emptied it, every event was
      either delivered or counted as dropped, and the last one was delivered. */
  lemma Drained<E>(depth: nat, steps: seq<Step<E>>)
    requires Runs(Initial(depth), steps)
    requires var s := Exec(Initial(depth), steps); s.closed && s.queue == []
    ensures var s := Exec(Initial(depth), steps);
            && |s.emitted| == |s.delivered| + |s.dropped|
            && (s.emitted != [] ==> s.delivered != [] && s.delivered[|s.delivered| - 1] == s.emitted[|s.emitted| - 1])
  {
    var kept, lost := Delivery<E>(depth, steps);
    var s := Exec(Initial(depth), steps);
    assert s.delivered + s.queue == s.delivered;
    CloseWaitsForTheLoop<E>(depth, steps);
    if s.emitted != [] {
      LastPick(kept, s.emitted, s.delivered);
    }
  }

  /** How much the producer of a buffered queue still has to do for the event in its hand. */
  function Left<E>(s: State<E>): nat {
    match s.producer
    case Idle => 0
    case Sending(_, retry) => if retry then 1 else 3
    case Refused(_) => 2
  }

  /** A buffered queue never makes its producer wait: in every reachable state its own next step
      is enabled, the consumer's steps cost it nothing, and it is done after at most three of its
      own - so at most one event is dropped for each one enqueued. */
  lemma NeverWaits<E>(depth: nat, steps: seq<Step<E>>, next: Step<E>)
    requires Runs(Initial(depth), steps)
    requires var s := Exec(Initial(depth), steps); Enabled(s, next) && !s.producer.Idle?
    ensures var s := Exec(Initial(depth), steps);
            && (Enabled(s, TrySend) || Enabled(s, TryDrop))
            && (next.Await? || next.Receive? ==> Left(Next(s, next)) == Left(s))
            && (depth >= 1 && (next.TrySend? || next.TryDrop?) ==> Left(Next(s, next)) < Left(s))
            && (next.TryDrop? ==> Left(Next(s, next)) == 1)
  {
    var kept, lost := RunKeeps<E>(Initial(depth), steps, [], []);
  }

  predicate OwnStep<E>(step: Step<E>) {
    step.TrySend? || step.TryDrop?
  }

  ghost predicate OwnSteps<E>(steps: seq<Step<E>>) {
    forall i :: 0 <= i < |steps| ==> OwnStep(steps[i])
  }

  lemma {:induction false} OwnRunIsShort<E>(s: State<E>, kept: seq<nat>, lost: seq<nat>, more: seq<Step<E>>)
    requires Inv(s, kept, lost) && s.depth >= 1 && Runs(s, more) && OwnSteps(more)
    ensures |more| <= Left(s)
    decreases |more|
  {
    if more != [] {
      assert OwnStep(more[0]);
      var kept', lost' := StepKeeps(s, more[0], kept, lost);
      assert forall i :: 0 <= i < |more[1..]| ==> more[1..][i] == more[i + 1];
      OwnRunIsShort(Next(s, more[0]), kept', lost', more[1..]);
    }
  }

  /** Unbuffered, and with nobody receiving, it goes round and round. */
  lemma {:induction false} Spins<E>(s: State<E>, n: nat) returns (more: seq<Step<E>>)
    requires s.depth == 0 && s.queue == [] && !s.receiving && !s.producer.Idle?
    ensures |more| == n && Runs(s, more) && OwnSteps(more)
    decreases n
  {
    more := [];
    if n > 0 {
      var step: Step<E> := if s.producer.Sending? then TrySend else TryDrop;
      var rest := Spins(Next(s, step), n - 1);
      more := [step] + rest;
      assert more[1..] == rest;
    }
  }

  /** No reachable state lets the producer take more than three steps of its own in a row. */
  ghost predicate ProducerBounded<E(!new)>(depth: nat) {
    forall steps: seq<Step<E>>, more: seq<Step<E>> :: OwnRun(depth, steps, more) ==> |more| <= 3
  }

  ghost predicate OwnRun<E>(depth: nat, steps: seq<Step<E>>, more: seq<Step<E>>) {
    Runs(Initial(depth), steps) && Runs(Exec(Initial(depth), steps), more) && OwnSteps(more)
  }

  /** The exact condition: the producer is done within three steps of its own, whatever the
      consumer does, if and only if the queue is buffered. */
  lemma BoundedIffBuffered<E(!new)>(depth: nat, ev: E)
    ensures ProducerBounded<E>(depth) <==> depth >= 1
  {
    if depth >= 1 {
      forall steps: seq<Step<E>>, more: seq<Step<E>> | OwnRun(depth, steps, more)
        ensures |more| <= 3
      {
        var kept, lost := RunKeeps<E>(Initial(depth), steps, [], []);
        OwnRunIsShort(Exec(Initial(depth), steps), kept, lost, more);
      }
    } else {
      var steps := [Emit(ev)];
      assert steps[1..] == [];
      var s := Next(Initial(depth), Emit(ev));
      assert Exec(Initial(depth), steps) == Exec(s, []);
      var more := Spins(s, 4);
      assert OwnRun(depth, steps, more);
    }
  }

  // ---------------------------------------------------------------- the loop itself

  /** `enqueue` as written, with the consumer taking some number of events between the two
      selects of each round, and waiting or not at the next send. */
  class Queue<E> {
    const depth: nat
    var buffer: seq<E>
    var delivered: seq<E>
    var dropped: seq<E>

    constructor (depth: nat)
      ensures this.depth == depth && Valid() && buffer == [] && delivered == [] && dropped == []
    {
      this.depth, buffer, delivered, dropped := depth, [], [], [];
    }

    predicate Valid()
      reads this
    {
      |buffer| <= depth
    }

    method Consume(want: nat)
      requires Valid()
      modifies `buffer, `delivered
      ensures Valid() && delivered + buffer == old(delivered + buffer)
      ensures |old(delivered)| <= |delivered| && |buffer| == if want < |old(buffer)| then |old(buffer)| - want else 0
    {
      var n := if want < |buffer| then want else |buffer|;
      assert delivered + buffer == (delivered + buffer[..n]) + buffer[n..];
      delivered, buffer := delivered + buffer[..n], buffer[n..];
    }

    /** `victim` is what one drop took: the oldest event still queued then. */
    ghost predicate Lost(all: seq<E>, before: seq<E>, victim: Option<nat>, from: nat)
      reads this
    {
      match victim
      case None => delivered + buffer == all && dropped == before
      case Some(k) => from <= k < |all| && dropped == before + [all[k]] && delivered + buffer == all[..k] + all[k + 1..]
    }

    /** The receive that makes room: at most one event goes, the oldest still queued. */
    method DropOldest(ghost all: seq<E>, ghost from: nat) returns (ghost victim: Option<nat>)
      requires Valid() && depth >= 1 && delivered + buffer == all && from <= |delivered|
      modifies `buffer, `dropped
      ensures Valid() && |buffer| < depth && Lost(all, old(dropped), victim, from) && (victim.Some? ==> victim.value == |delivered|)
    {
      victim := None;
      if buffer != [] {
        ghost var k := |delivered|;
        assert all[..k] == delivered && all[k..] == buffer;
        victim := Some(k);
        dropped, buffer := dropped + [buffer[0]], buffer[1..];
        assert all[k + 1..] == buffer;
      }
    }

    /** The event always gets in, last; at most one event is dropped, the oldest one still
        queued, and only if a buffered queue was full to begin with. Unbuffered, the loop ends
        once a receiver waits, at the latest in round `latest`. */
    method Enqueue(ev: E, takes: nat -> nat, waiting: nat -> bool, ghost latest: nat) returns (ghost victim: Option<nat>)
      requires Valid() && (depth == 0 ==> waiting(latest))
      modifies this
      ensures Valid() && (|old(buffer)| < depth || depth == 0 ==> victim.None?)
      ensures victim.None? ==> delivered + buffer == old(delivered + buffer) + [ev] && dropped == old(dropped)
      ensures victim.Some? ==>
                var all, k := old(delivered + buffer), victim.value;
                && |old(delivered)| <= k < |all| && dropped == old(dropped) + [all[k]]
                && delivered + buffer == (all[..k] + all[k + 1..]) + [ev]
    {
      victim := None;
      var round := 0;
      ghost var all := delivered + buffer;
      while |buffer| == depth && !(buffer == [] && waiting(round))
        invariant Valid() && Lost(all, old(dropped), victim, |old(delivered)|)
        invariant |old(delivered)| <= |delivered|
        invariant depth >= 1 && round == 0 ==> buffer == old(buffer)
        invariant depth >= 1 && round > 0 ==> |buffer| < depth && |old(buffer)| == depth
        invariant depth == 0 ==> round <= latest && buffer == []
        invariant round == 0 || depth == 0 ==> victim.None?
        decreases if depth >= 1 then |buffer| else latest - round
      {
        Consume(takes(round));
        if depth >= 1 {
          victim := DropOldest(all, |old(delivered)|);
        }
        round := round + 1;
      }
      if buffer == [] && waiting(round) {
        assert (delivered + [ev]) + buffer == (delivered + buffer) + [ev];
        delivered := delivered + [ev];
      } else {
        assert delivered + (buffer + [ev]) == (delivered + buffer) + [ev];
        buffer := buffer + [ev];
      }
    }
  }
}
