/** What every intake step keeps: the debounce bound, the blocked set's link to its
    errors, and that no unapplied change is ever left without something to revive it. */
module IntakeLaws {
  import opened Values
  import opened Chain
  import opened Intake

  /** Only onfail:"fail" fields block, and each one that does has its error on record. */
  ghost predicate BlockInv(su: Setup, s: Sense) {
    forall p :: p in s.blocked ==> p in s.lastErr && p in FailPaths(su.specs)
  }

  function FailPaths(specs: seq<FieldSpec>): set<string> {
    set i | 0 <= i < |specs| && specs[i].onFail.Fail? :: specs[i].path
  }

  // ---------------------------------------------------------------- the debounce bound

  function Deadline(b: Batch): int {
    b.since + b.window
  }

  /** The batch is exactly who joined it; it started at the first join and its window
      is the smallest any member asked for. */
  ghost predicate BatchCore(su: Setup, b: Batch, clock: int) {
    b.pending <= Paths(su.specs) && (b.pending != {} ==> Started(b, clock) && Tightest(b) && MembersJoined(b) && OwnWindows(su, b.joins))
  }

  /** It started at the first join. */
  ghost predicate Started(b: Batch, clock: int) {
    && b.joins != [] && b.since == b.joins[0].at
    && forall k :: 0 <= k < |b.joins| ==> b.joins[k].path in b.pending && b.since <= b.joins[k].at <= clock
  }

  /** Its window is the smallest any member asked for. */
  ghost predicate Tightest(b: Batch) {
    && (forall k :: 0 <= k < |b.joins| ==> b.window <= b.joins[k].window)
    && (exists k :: 0 <= k < |b.joins| && b.joins[k].window == b.window)
  }

  /** Everyone in it joined it. */
  ghost predicate MembersJoined(b: Batch) {
    forall p :: p in b.pending ==> JoinedIn(b.joins, p)
  }

  /** `j` asked for the window of the field it names. */
  ghost predicate OwnWindow(su: Setup, j: Join) {
    exists i :: 0 <= i < |su.specs| && su.specs[i].path == j.path && j.window == DebounceFor(su, su.specs[i])
  }

  /** Every join asked for its own field's window. */
  ghost predicate OwnWindows(su: Setup, joins: seq<Join>) {
    joins == [] || (OwnWindow(su, joins[|joins| - 1]) && OwnWindows(su, joins[..|joins| - 1]))
  }

  lemma OwnWindowsPush(su: Setup, joins: seq<Join>, j: Join)
    requires OwnWindows(su, joins) && OwnWindow(su, j)
    ensures OwnWindows(su, joins + [j])
  {
    assert (joins + [j])[..|joins|] == joins;
  }

  lemma {:induction false} OwnWindowsAt(su: Setup, joins: seq<Join>, k: nat)
    requires OwnWindows(su, joins) && k < |joins|
    ensures OwnWindow(su, joins[k])
    decreases |joins|
  {
    if k < |joins| - 1 {
      OwnWindowsAt(su, joins[..|joins| - 1], k);
    }
  }

  ghost predicate JoinedIn(joins: seq<Join>, p: string) {
    exists k :: 0 <= k < |joins| && joins[k].path == p
  }

  /** The timer is armed exactly while a batch is pending, and is due at the batch's
      deadline, or at once if that had already passed when it was armed. */
  ghost predicate BatchInv(su: Setup, b: Batch, clock: int) {
    && BatchCore(su, b, clock)
    && (b.timer.Some? <==> b.pending != {})
    && (b.timer.Some? ==> Deadline(b) <= b.timer.value && (b.timer.value == Deadline(b) || b.timer.value <= clock))
  }

  /** The debounce guarantee: no member waits longer than its own field's window from the
      moment it joined, however many others have joined since - and the batch does not go
      sooner than some member's window from its start. */
  lemma DebounceBound(su: Setup, b: Batch, clock: int, k: nat, i: nat)
    requires ValidSpecs(su.specs) && BatchInv(su, b, clock) && b.pending != {} && k < |b.joins|
    requires i < |su.specs| && su.specs[i].path == b.joins[k].path
    ensures Deadline(b) <= b.joins[k].at + DebounceFor(su, su.specs[i])
    ensures b.timer.Some? && (b.timer.value <= b.joins[k].at + DebounceFor(su, su.specs[i]) || b.timer.value <= clock)
    ensures exists m :: 0 <= m < |b.joins| && b.joins[0].at + b.joins[m].window == Deadline(b) <= b.timer.value
  {
    OwnWindowsAt(su, b.joins, k);
  }

  /** `later` continues the batch `b`: nobody is dropped and the deadline has not moved later. */
  ghost predicate Extends(b: Batch, later: Batch) {
    && b.pending <= later.pending
    && (b.pending != {} ==> b.joins <= later.joins && later.since == b.since && Deadline(later) <= Deadline(b))
  }

  lemma SpecPathIn(specs: seq<FieldSpec>, i: nat)
    requires i < |specs|
    ensures specs[i].path in Paths(specs)
  {
  }

  lemma JoinedMore(joins: seq<Join>, j: Join, p: string)
    requires JoinedIn(joins, p) || j.path == p
    ensures JoinedIn(joins + [j], p)
  {
    if JoinedIn(joins, p) {
      var k :| 0 <= k < |joins| && joins[k].path == p;
      assert (joins + [j])[k].path == p;
    } else {
      assert (joins + [j])[|joins|].path == p;
    }
  }

  lemma TighterStill(b: Batch, c: Batch, j: Join)
    requires Tightest(b) && c.joins == b.joins + [j] && c.window == (if j.window < b.window then j.window else b.window)
    ensures Tightest(c)
  {
    var k :| 0 <= k < |b.joins| && b.joins[k].window == b.window;
    assert c.joins[k] == b.joins[k] && c.joins[|b.joins|] == j;
  }

  lemma FirstToJoin(su: Setup, b: Batch, i: nat, clock: int, now: int)
    requires BatchCore(su, b, clock) && b.pending == {} && i < |su.specs| && clock <= now
    ensures BatchCore(su, AddPending(su, b, su.specs[i], now), now)
  {
    SpecPathIn(su.specs, i);
    var spec := su.specs[i];
    var j := Join(spec.path, now, DebounceFor(su, spec));
    assert OwnWindow(su, j);
    OwnWindowsPush(su, [], j);
    var c := AddPending(su, b, spec, now);
    assert c == b.(since := now, window := j.window, pending := {spec.path}, joins := [j]);
    assert [] + [j] == [j] && c.joins[0] == j;
    assert Started(c, now) && Tightest(c);
    assert JoinedIn(c.joins, spec.path);
  }

  lemma LaterToJoin(su: Setup, b: Batch, i: nat, clock: int, now: int)
    requires BatchCore(su, b, clock) && b.pending != {} && i < |su.specs| && clock <= now
    ensures BatchCore(su, AddPending(su, b, su.specs[i], now), now)
  {
    SpecPathIn(su.specs, i);
    var spec := su.specs[i];
    var c := AddPending(su, b, spec, now);
    var j := Join(spec.path, now, DebounceFor(su, spec));
    assert Started(c, now);
    assert Tightest(c) by {
      TighterStill(b, c, j);
    }
    assert OwnWindows(su, c.joins) by {
      assert OwnWindow(su, j);
      OwnWindowsPush(su, b.joins, j);
    }
    forall p | p in c.pending
      ensures JoinedIn(c.joins, p)
    {
      JoinedMore(b.joins, j, p);
    }
  }

  lemma AddPendingKeeps(su: Setup, b: Batch, i: nat, clock: int, now: int)
    requires BatchCore(su, b, clock) && i < |su.specs| && clock <= now
    ensures var c := AddPending(su, b, su.specs[i], now);
            && BatchCore(su, c, now) && Extends(b, c) && c.timer == b.timer
            && c.pending == b.pending + {su.specs[i].path}
            && Deadline(c) <= now + DebounceFor(su, su.specs[i])
  {
    if b.pending == {} {
      FirstToJoin(su, b, i, clock, now);
    } else {
      LaterToJoin(su, b, i, clock, now);
    }
  }

  lemma ExtendsTransitive(a: Batch, b: Batch, c: Batch)
    requires Extends(a, b) && Extends(b, c)
    ensures Extends(a, c)
  {
  }

  lemma ArmKeeps(su: Setup, b: Batch, now: int)
    requires BatchCore(su, b, now) && b.pending != {}
    ensures BatchInv(su, Arm(b, now), now) && Extends(b, Arm(b, now))
  {
  }

  lemma {:induction false} RearmFromKeeps(
    su: Setup, b: Batch, observed: map<string, Value>, applied: map<string, string>, i: nat, clock: int, now: int)
    requires BatchCore(su, b, clock) && i <= |su.specs| && clock <= now
    ensures var c := RearmFrom(su, b, observed, applied, i, now);
            BatchCore(su, c, now) && Extends(b, c) && c.timer == b.timer
    decreases |su.specs| - i
  {
    if i < |su.specs| {
      if HeldBack(observed, applied, su.specs[i].path) {
        AddPendingKeeps(su, b, i, clock, now);
        var c := AddPending(su, b, su.specs[i], now);
        RearmFromKeeps(su, c, observed, applied, i + 1, now, now);
        ExtendsTransitive(b, c, RearmFrom(su, c, observed, applied, i + 1, now));
      } else {
        RearmFromKeeps(su, b, observed, applied, i + 1, clock, now);
      }
    }
  }

  /** Nobody leaves, and every field held back is in. */
  lemma {:induction false} RearmFromCovers(su: Setup, b: Batch, observed: map<string, Value>, applied: map<string, string>, i: nat, now: int)
    requires i <= |su.specs|
    ensures b.pending <= RearmFrom(su, b, observed, applied, i, now).pending
    ensures forall k :: i <= k < |su.specs| && HeldBack(observed, applied, su.specs[k].path) ==>
              su.specs[k].path in RearmFrom(su, b, observed, applied, i, now).pending
    decreases |su.specs| - i
  {
    if i < |su.specs| {
      RearmFromCovers(su, if HeldBack(observed, applied, su.specs[i].path) then AddPending(su, b, su.specs[i], now) else b,
                      observed, applied, i + 1, now);
    }
  }

  lemma BatchInvLater(su: Setup, b: Batch, clock: int, now: int)
    requires BatchInv(su, b, clock) && clock <= now
    ensures BatchInv(su, b, now)
  {
  }

  /** Every held-back field is in the batch. */
  ghost predicate Revived(su: Setup, observed: map<string, Value>, applied: map<string, string>, b: Batch) {
    forall k :: 0 <= k < |su.specs| && HeldBack(observed, applied, su.specs[k].path) ==> su.specs[k].path in b.pending
  }

  lemma RearmKeeps(su: Setup, b: Batch, observed: map<string, Value>, applied: map<string, string>, clock: int, now: int)
    requires BatchInv(su, b, clock) && clock <= now
    ensures var c := Rearm(su, b, observed, applied, now);
            BatchInv(su, c, now) && Extends(b, c) && Revived(su, observed, applied, c)
  {
    BatchInvLater(su, b, clock, now);
    if AnyHeldBack(su, observed, applied) {
      RearmFromKeeps(su, b, observed, applied, 0, clock, now);
      RearmFromCovers(su, b, observed, applied, 0, now);
      var c := RearmFrom(su, b, observed, applied, 0, now);
      ArmKeeps(su, c, now);
      ExtendsTransitive(b, c, Arm(c, now));
    }
  }

  /** Lifting a block re-arms a flush for every field it had held back. */
  lemma UnblockRearms(su: Setup, f: Front, applied: map<string, string>, path: string, clock: int, now: int)
    requires BatchInv(su, f.batch, clock) && clock <= now && path in f.sense.blocked
    ensures var u := Unblock(su, f, applied, path, now);
            && u.sense == f.sense.(blocked := f.sense.blocked - {path})
            && BatchInv(su, u.batch, now) && Extends(f.batch, u.batch)
            && Revived(su, u.sense.observed, applied, u.batch)
            && (AnyHeldBack(su, u.sense.observed, applied) ==> u.batch.timer.Some?)
  {
    RearmKeeps(su, f.batch, f.sense.observed, applied, clock, now);
  }

  lemma MarkChangedKeeps(su: Setup, f: Front, i: nat, val: Value, clock: int, now: int)
    requires BatchInv(su, f.batch, clock) && i < |su.specs| && clock <= now
    ensures var t := MarkChanged(su, f, su.specs[i], val, now);
            && BatchInv(su, t.batch, now) && Extends(f.batch, t.batch)
            && t.sense == Observe(f.sense, su.specs[i].path, val)
            && (t.sense.observed != f.sense.observed ==> su.specs[i].path in t.batch.pending)
  {
    BatchInvLater(su, f.batch, clock, now);
    AddPendingKeeps(su, f.batch, i, clock, now);
    var c := AddPending(su, f.batch, su.specs[i], now);
    ArmKeeps(su, c, now);
    ExtendsTransitive(f.batch, c, Arm(c, now));
  }

  // ---------------------------------------------------------------- no stranded change

  /** The refused attempt saw this very value. */
  predicate SeenRefused(observed: map<string, Value>, refused: Option<map<string, Value>>, path: string) {
    refused.Some? && path in observed && path in refused.value && observed[path] == refused.value[path]
  }

  /** A change that has not been applied is waiting in the batch, or is the very value that the
      last unblocked flush attempt refused, or some field blocks every flush. */
  ghost predicate NoStrand(su: Setup, f: Front, applied: map<string, string>, refused: Option<map<string, Value>>) {
    || f.sense.blocked != {}
    || forall k :: 0 <= k < |su.specs| && HeldBack(f.sense.observed, applied, su.specs[k].path) ==>
         su.specs[k].path in f.batch.pending || SeenRefused(f.sense.observed, refused, su.specs[k].path)
  }

  lemma RevivedByUnblock(su: Setup, f: Front, applied: map<string, string>, refused: Option<map<string, Value>>, path: string, clock: int, now: int)
    requires BatchInv(su, f.batch, clock) && clock <= now && NoStrand(su, f, applied, refused)
    ensures var u := Unblock(su, f, applied, path, now);
            && BatchInv(su, u.batch, now) && Extends(f.batch, u.batch)
            && NoStrand(su, u, applied, refused)
            && u.sense == f.sense.(blocked := f.sense.blocked - {path})
  {
    if path in f.sense.blocked {
      UnblockRearms(su, f, applied, path, clock, now);
    } else {
      BatchInvLater(su, f.batch, clock, now);
      assert f.sense.blocked - {path} == f.sense.blocked;
    }
  }

  lemma RevivedByChange(su: Setup, f: Front, applied: map<string, string>, refused: Option<map<string, Value>>, i: nat, val: Value, clock: int, now: int)
    requires BatchInv(su, f.batch, clock) && i < |su.specs| && clock <= now && NoStrand(su, f, applied, refused)
    ensures var t := MarkChanged(su, f, su.specs[i], val, now);
            BatchInv(su, t.batch, now) && Extends(f.batch, t.batch) && NoStrand(su, t, applied, refused)
  {
    MarkChangedKeeps(su, f, i, val, clock, now);
    var t := MarkChanged(su, f, su.specs[i], val, now);
    if f.sense.blocked == {} {
      forall k | 0 <= k < |su.specs| && HeldBack(t.sense.observed, applied, su.specs[k].path)
        ensures su.specs[k].path in t.batch.pending || SeenRefused(t.sense.observed, refused, su.specs[k].path)
      {
        if t.sense.observed == f.sense.observed || su.specs[k].path != su.specs[i].path {
          assert HeldBack(f.sense.observed, applied, su.specs[k].path);
        }
      }
    }
  }

  /** The promise of one loop reaction: batch, blocked set and revival all survive it. */
  ghost predicate Kept(su: Setup, f: Front, t: Front, applied: map<string, string>, refused: Option<map<string, Value>>, now: int) {
    && BatchInv(su, t.batch, now) && Extends(f.batch, t.batch)
    && BlockInv(su, t.sense) && NoStrand(su, t, applied, refused)
    && t.sense.sources == f.sense.sources
  }

  lemma WonKeeps(su: Setup, f: Front, applied: map<string, string>, refused: Option<map<string, Value>>, idx: nat, w: Winner, clock: int, now: int)
    requires idx < |su.specs| && |su.specs[idx].refs| >= 1 && w.Won?
    requires BatchInv(su, f.batch, clock) && clock <= now
    requires BlockInv(su, f.sense) && NoStrand(su, f, applied, refused)
    ensures Kept(su, f, ByWatch(su, f, applied, su.specs[idx], w, now), applied, refused, now)
  {
    var spec := su.specs[idx];
    var h := f.(sense := Healthy(f.sense, spec.path, now));
    RevivedByUnblock(su, h, applied, refused, spec.path, clock, now);
    var u := Unblock(su, h, applied, spec.path, now);
    RevivedByChange(su, u, applied, refused, idx, w.value, now, now);
    MarkChangedKeeps(su, u, idx, w.value, now, now);
    ExtendsTransitive(f.batch, u.batch, MarkChanged(su, u, spec, w.value, now).batch);
  }

  lemma AbsentKeeps(su: Setup, f: Front, applied: map<string, string>, refused: Option<map<string, Value>>, idx: nat, w: Winner, clock: int, now: int)
    requires idx < |su.specs| && |su.specs[idx].refs| >= 1 && w.Absent?
    requires BatchInv(su, f.batch, clock) && clock <= now
    requires BlockInv(su, f.sense) && NoStrand(su, f, applied, refused)
    ensures Kept(su, f, ByWatch(su, f, applied, su.specs[idx], w, now), applied, refused, now)
  {
    RevivedByUnblock(su, f, applied, refused, su.specs[idx].path, clock, now);
  }

  lemma DefaultKeeps(su: Setup, f: Front, applied: map<string, string>, refused: Option<map<string, Value>>, idx: nat, w: Winner, clock: int, now: int)
    requires idx < |su.specs| && w.Stopped? && w.pos < |su.specs[idx].refs| && su.specs[idx].onFail.UseDefault?
    requires BatchInv(su, f.batch, clock) && clock <= now
    requires BlockInv(su, f.sense) && NoStrand(su, f, applied, refused)
    ensures Kept(su, f, ByWatch(su, f, applied, su.specs[idx], w, now), applied, refused, now)
  {
    var spec := su.specs[idx];
    RevivedByUnblock(su, f, applied, refused, spec.path, clock, now);
    var u := Unblock(su, f, applied, spec.path, now);
    var h := u.(sense := Healthy(u.sense, spec.path, now));
    RevivedByChange(su, h, applied, refused, idx, DefaultValue(spec), now, now);
    MarkChangedKeeps(su, h, idx, DefaultValue(spec), now, now);
    ExtendsTransitive(f.batch, u.batch, MarkChanged(su, h, spec, DefaultValue(spec), now).batch);
  }

  lemma FailureKeeps(su: Setup, f: Front, applied: map<string, string>, refused: Option<map<string, Value>>, idx: nat, w: Winner, clock: int, now: int)
    requires ValidSpecs(su.specs) && idx < |su.specs| && w.Stopped? && w.pos < |su.specs[idx].refs|
    requires !su.specs[idx].onFail.UseDefault?
    requires BatchInv(su, f.batch, clock) && clock <= now
    requires BlockInv(su, f.sense) && NoStrand(su, f, applied, refused)
    ensures Kept(su, f, ByWatch(su, f, applied, su.specs[idx], w, now), applied, refused, now)
  {
    BatchInvLater(su, f.batch, clock, now);
    if su.specs[idx].onFail.Fail? {
      assert su.specs[idx].path in FailPaths(su.specs);
    } else {
      OthersNeverBlock(su, f.sense, idx);
    }
  }

  /** The loop's update case keeps the batch, the blocked set and the revival promise,
      whatever the source delivered and whatever the field's policy is. */
  lemma OnUpdateKeeps(
    su: Setup, f: Front, applied: map<string, string>, refused: Option<map<string, Value>>, idx: nat, pos: nat, up: Raw, clock: int, now: int)
    requires Shaped(su, f.sense.sources) && idx < |su.specs| && pos < |su.specs[idx].refs|
    requires BatchInv(su, f.batch, clock) && clock <= now
    requires BlockInv(su, f.sense) && NoStrand(su, f, applied, refused)
    ensures var t := OnUpdate(su, f, applied, idx, pos, up, now);
            && Shaped(su, t.sense.sources)
            && BatchInv(su, t.batch, now) && Extends(f.batch, t.batch)
            && BlockInv(su, t.sense) && NoStrand(su, t, applied, refused)
  {
    var s := Record(su, f.sense, idx, pos, up);
    var g := f.(sense := s);
    assert Shaped(su, s.sources);
    var w := Recompute(s.sources[idx]);
    if w.Won? {
      WonKeeps(su, g, applied, refused, idx, w, clock, now);
    } else if w.Absent? {
      AbsentKeeps(su, g, applied, refused, idx, w, clock, now);
    } else if su.specs[idx].onFail.UseDefault? {
      DefaultKeeps(su, g, applied, refused, idx, w, clock, now);
    } else {
      FailureKeeps(su, g, applied, refused, idx, w, clock, now);
    }
  }

  /** A field that does not say onfail:"fail" is never in the blocked set. */
  lemma OthersNeverBlock(su: Setup, s: Sense, idx: nat)
    requires ValidSpecs(su.specs) && BlockInv(su, s) && idx < |su.specs| && !su.specs[idx].onFail.Fail?
    ensures s.blocked - {su.specs[idx].path} == s.blocked
  {
    if su.specs[idx].path in s.blocked {
      assert false by {
        assert su.specs[idx].path in FailPaths(su.specs);
        var i :| 0 <= i < |su.specs| && su.specs[i].onFail.Fail? && su.specs[i].path == su.specs[idx].path;
      }
    }
  }

  lemma ByRefreshKeepsBlockInv(su: Setup, s: Sense, i: nat, w: Winner, now: int)
    requires ValidSpecs(su.specs) && i < |su.specs| && (w.Stopped? ==> w.pos < |su.specs[i].refs|) && BlockInv(su, s)
    ensures BlockInv(su, ByRefresh(su, s, su.specs[i], w, now))
  {
    if su.specs[i].onFail.Fail? {
      assert su.specs[i].path in FailPaths(su.specs);
    }
  }

  lemma RefreshFieldKeepsBlockInv(su: Setup, s: Sense, i: nat, raws: seq<Raw>, now: int)
    requires Shaped(su, s.sources) && i < |su.specs| && |raws| == |su.specs[i].refs| && BlockInv(su, s)
    ensures BlockInv(su, RefreshField(su, s, i, raws, now))
  {
    var merged := Merge(s.sources[i], Seed(su.decode, su.specs[i], raws));
    ByRefreshKeepsBlockInv(su, s.(sources := s.sources[i := merged]), i, Recompute(merged), now);
  }

  lemma {:induction false} RefreshKeepsBlockInv(su: Setup, s: Sense, live: seq<seq<Raw>>, i: nat, now: int)
    requires Shaped(su, s.sources) && LiveShaped(su, live) && i <= |su.specs| && BlockInv(su, s)
    ensures BlockInv(su, RefreshFrom(su, s, live, i, now))
    decreases |su.specs| - i
  {
    if i < |su.specs| {
      RefreshFieldKeepsBlockInv(su, s, i, live[i], now);
      RefreshKeepsBlockInv(su, RefreshField(su, s, i, live[i], now), live, i + 1, now);
    }
  }

  // ---------------------------------------------------------------- watch against refresh

  /** An outcome that arrived by refresh leaves the same observed values, blocks, health and
      delivered errors as the same outcome arriving by watch, for every policy. */
  lemma RefreshActsAsWatch(su: Setup, f: Front, applied: map<string, string>, spec: FieldSpec, w: Winner, now: int)
    requires |spec.refs| >= 1 && (w.Stopped? ==> w.pos < |spec.refs|)
    ensures ByRefresh(su, f.sense, spec, w, now) == ByWatch(su, f, applied, spec, w, now).sense
  {
    if spec.path !in f.sense.blocked {
      assert f.sense.blocked - {spec.path} == f.sense.blocked;
    }
  }

  /** The winner is a failure that neither a default nor an optional tag covers. */
  predicate Terminal(spec: FieldSpec, w: Winner) {
    || (w.Stopped? && !spec.onFail.UseDefault?)
    || (w.Absent? && !(IsNotFound(w.cause) && (spec.hasDefault || spec.optional)))
  }

  function WinnerError(w: Winner): Err
    requires !w.Won?
  {
    if w.Stopped? then w.err else w.cause
  }

  function DecidingRef(spec: FieldSpec, w: Winner): Ref
    requires |spec.refs| >= 1 && (w.Stopped? ==> w.pos < |spec.refs|)
  {
    if w.Stopped? then spec.refs[w.pos] else spec.refs[0]
  }

  predicate Overdue(su: Setup, s: Sense, path: string, now: int) {
    su.stale > 0 && path in s.lastOK && now - s.lastOK[path] > su.stale
  }

  /** A terminal failure is recorded against its field and delivered exactly once, wrapping the
      winner's own error: as stale if the last success is too old, else under the scheme of the
      ref that decided. Anything else clears the field's error and delivers nothing; a value
      or a masking default renews its last success; no other field's health is touched. */
  lemma HealthFollowsWinner(su: Setup, f: Front, applied: map<string, string>, spec: FieldSpec, w: Winner, now: int)
    requires |spec.refs| >= 1 && (w.Stopped? ==> w.pos < |spec.refs|)
    ensures var s, t := f.sense, ByWatch(su, f, applied, spec, w, now).sense;
            && (if Terminal(spec, w)
                then var e := if Overdue(su, s, spec.path, now) then StaleErr(WinnerError(w)) else ProviderErr(DecidingRef(spec, w).scheme, WinnerError(w));
                     t.lastErr == s.lastErr[spec.path := e] && t.errors == s.errors + [e]
                else t.lastErr == s.lastErr - {spec.path} && t.errors == s.errors)
            && t.lastOK == (if Terminal(spec, w) || w.Absent? then s.lastOK else s.lastOK[spec.path := now])
  {
  }

  // ---------------------------------------------------------------- value soundness

  /** The premise on sources: versions are never empty, and for one path a version
      always stands for the same bytes. */
  ghost predicate SoundValue(truth: (string, string) -> string, path: string, v: Value) {
    v.version != "" && v.bytes == truth(path, v.version)
  }

  ghost predicate SoundSetup(truth: (string, string) -> string, su: Setup) {
    forall i :: 0 <= i < |su.specs| ==> su.specs[i].onFail.UseDefault? ==> SoundValue(truth, su.specs[i].path, DefaultValue(su.specs[i]))
  }

  ghost predicate SoundObs(truth: (string, string) -> string, obs: map<string, Value>) {
    forall p :: p in obs ==> SoundValue(truth, p, obs[p])
  }

  ghost predicate SoundState(truth: (string, string) -> string, path: string, st: SrcState) {
    st.Holds? ==> SoundValue(truth, path, st.value)
  }

  ghost predicate SoundSense(truth: (string, string) -> string, su: Setup, s: Sense) {
    && SoundObs(truth, s.observed)
    && |s.sources| == |su.specs|
    && forall i, k :: 0 <= i < |su.specs| && 0 <= k < |s.sources[i]| ==> SoundState(truth, su.specs[i].path, s.sources[i][k])
  }

  /** A reaction changes at most its own field's observed value, to the winner's value
      or to the field's default. */
  lemma ByWatchObserves(su: Setup, f: Front, applied: map<string, string>, spec: FieldSpec, w: Winner, now: int)
    requires |spec.refs| >= 1 && (w.Stopped? ==> w.pos < |spec.refs|)
    ensures var t := ByWatch(su, f, applied, spec, w, now).sense;
            && t.sources == f.sense.sources
            && (t.observed == f.sense.observed
                || (w.Won? && t.observed == f.sense.observed[spec.path := w.value])
                || (spec.onFail.UseDefault? && t.observed == f.sense.observed[spec.path := DefaultValue(spec)]))
  {
    RefreshActsAsWatch(su, f, applied, spec, w, now);
  }

  lemma OnUpdateKeepsSound(
    truth: (string, string) -> string, su: Setup, f: Front, applied: map<string, string>, idx: nat, pos: nat, up: Raw, now: int)
    requires Shaped(su, f.sense.sources) && idx < |su.specs| && pos < |su.specs[idx].refs|
    requires SoundSetup(truth, su) && SoundSense(truth, su, f.sense)
    requires SoundState(truth, su.specs[idx].path, Settle(su.decode, su.specs[idx], su.specs[idx].refs[pos], up))
    ensures SoundSense(truth, su, OnUpdate(su, f, applied, idx, pos, up, now).sense)
  {
    var s := Record(su, f.sense, idx, pos, up);
    forall i, k | 0 <= i < |su.specs| && 0 <= k < |s.sources[i]|
      ensures SoundState(truth, su.specs[i].path, s.sources[i][k])
    {
      if i != idx {
        assert s.sources[i] == f.sense.sources[i];
      } else if k != pos {
        assert s.sources[i][k] == f.sense.sources[i][k];
      }
    }
    var w := Recompute(s.sources[idx]);
    if w.Won? {
      assert SoundState(truth, su.specs[idx].path, s.sources[idx][w.pos]);
    }
    ByWatchObserves(su, f.(sense := s), applied, su.specs[idx], w, now);
  }

  ghost predicate SoundLive(truth: (string, string) -> string, su: Setup, live: seq<seq<Raw>>)
    requires LiveShaped(su, live)
  {
    forall i, k :: 0 <= i < |su.specs| && 0 <= k < |live[i]| ==>
      SoundState(truth, su.specs[i].path, Settle(su.decode, su.specs[i], su.specs[i].refs[k], live[i][k]))
  }

  lemma {:induction false} SeedSound(truth: (string, string) -> string, su: Setup, i: nat, raws: seq<Raw>, j: nat)
    requires i < |su.specs| && |raws| == |su.specs[i].refs| && j <= |raws|
    requires forall k :: 0 <= k < |raws| ==> SoundState(truth, su.specs[i].path, Settle(su.decode, su.specs[i], su.specs[i].refs[k], raws[k]))
    ensures forall st :: st in SeedFrom(su.decode, su.specs[i], raws, j) ==> SoundState(truth, su.specs[i].path, st)
    decreases |raws| - j
  {
    if j < |raws| {
      SeedSound(truth, su, i, raws, j + 1);
    }
  }

  lemma MergedSound(truth: (string, string) -> string, su: Setup, s: Sense, i: nat, raws: seq<Raw>)
    requires Shaped(su, s.sources) && i < |su.specs| && |raws| == |su.specs[i].refs| && SoundSense(truth, su, s)
    requires forall k :: 0 <= k < |raws| ==> SoundState(truth, su.specs[i].path, Settle(su.decode, su.specs[i], su.specs[i].refs[k], raws[k]))
    ensures SoundSense(truth, su, s.(sources := s.sources[i := Merge(s.sources[i], Seed(su.decode, su.specs[i], raws))]))
  {
    var walked := Seed(su.decode, su.specs[i], raws);
    SeedSound(truth, su, i, raws, 0);
    var t := s.(sources := s.sources[i := Merge(s.sources[i], walked)]);
    forall a, k | 0 <= a < |su.specs| && 0 <= k < |t.sources[a]|
      ensures SoundState(truth, su.specs[a].path, t.sources[a][k])
    {
      if a != i {
        assert t.sources[a] == s.sources[a];
      } else {
        assert walked[k] in walked;
        assert SoundState(truth, su.specs[a].path, s.sources[a][k]);
      }
    }
  }

  lemma RefreshFieldSound(truth: (string, string) -> string, su: Setup, s: Sense, i: nat, raws: seq<Raw>, now: int)
    requires Shaped(su, s.sources) && i < |su.specs| && |raws| == |su.specs[i].refs| && SoundSetup(truth, su) && SoundSense(truth, su, s)
    requires forall k :: 0 <= k < |raws| ==> SoundState(truth, su.specs[i].path, Settle(su.decode, su.specs[i], su.specs[i].refs[k], raws[k]))
    ensures SoundSense(truth, su, RefreshField(su, s, i, raws, now))
  {
    MergedSound(truth, su, s, i, raws);
    var merged := Merge(s.sources[i], Seed(su.decode, su.specs[i], raws));
    var w := Recompute(merged);
    if w.Won? {
      assert SoundState(truth, su.specs[i].path, s.sources[i := merged][i][w.pos]);
    }
  }

  lemma {:induction false} RefreshKeepsSound(truth: (string, string) -> string, su: Setup, s: Sense, live: seq<seq<Raw>>, i: nat, now: int)
    requires Shaped(su, s.sources) && LiveShaped(su, live) && i <= |su.specs|
    requires SoundSetup(truth, su) && SoundSense(truth, su, s) && SoundLive(truth, su, live)
    ensures SoundSense(truth, su, RefreshFrom(su, s, live, i, now))
    decreases |su.specs| - i
  {
    if i < |su.specs| {
      RefreshFieldSound(truth, su, s, i, live[i], now);
      RefreshKeepsSound(truth, su, RefreshField(su, s, i, live[i], now), live, i + 1, now);
    }
  }

  lemma RefreshFieldGrows(su: Setup, s: Sense, i: nat, raws: seq<Raw>, now: int)
    requires Shaped(su, s.sources) && i < |su.specs| && |raws| == |su.specs[i].refs| && s.observed.Keys <= Paths(su.specs)
    ensures Grown(su, s, RefreshField(su, s, i, raws, now))
  {
    SpecPathIn(su.specs, i);
  }

  /** Observed values only ever belong to specs, and none is ever withdrawn. */
  ghost predicate Grown(su: Setup, s: Sense, t: Sense) {
    s.observed.Keys <= t.observed.Keys && t.observed.Keys <= Paths(su.specs)
  }

  lemma GrownFurther(su: Setup, r: Sense, s: Sense, t: Sense)
    requires Grown(su, r, s) && Grown(su, s, t)
    ensures Grown(su, r, t)
  {
  }

  lemma {:induction false} RefreshGrows(su: Setup, s: Sense, live: seq<seq<Raw>>, i: nat, now: int)
    requires Shaped(su, s.sources) && LiveShaped(su, live) && i <= |su.specs|
    requires s.observed.Keys <= Paths(su.specs)
    ensures Grown(su, s, RefreshFrom(su, s, live, i, now))
    decreases |su.specs| - i
  {
    if i < |su.specs| {
      var t := RefreshField(su, s, i, live[i], now);
      RefreshFieldGrows(su, s, i, live[i], now);
      RefreshGrows(su, t, live, i + 1, now);
      GrownFurther(su, s, t, RefreshFrom(su, t, live, i + 1, now));
    }
  }

  lemma OnUpdateGrows(su: Setup, f: Front, applied: map<string, string>, idx: nat, pos: nat, up: Raw, now: int)
    requires Shaped(su, f.sense.sources) && idx < |su.specs| && pos < |su.specs[idx].refs|
    requires f.sense.observed.Keys <= Paths(su.specs)
    ensures f.sense.observed.Keys <= OnUpdate(su, f, applied, idx, pos, up, now).sense.observed.Keys <= Paths(su.specs)
  {
    SpecPathIn(su.specs, idx);
    var s := Record(su, f.sense, idx, pos, up);
    ByWatchObserves(su, f.(sense := s), applied, su.specs[idx], Recompute(s.sources[idx]), now);
  }
}
