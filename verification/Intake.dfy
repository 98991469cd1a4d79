/** The reconciler's intake side: how one source outcome, arriving by watch or by a
    refresh, moves the observed values, the blocked set, and the debounced batch. It
    never looks at a configuration, so nothing here depends on its type. */
module Intake {
  import opened Values
  import opened Chain

  /** The fixed, configuration-independent part of a watcher. */
  datatype Setup = Setup(specs: seq<FieldSpec>, decode: Decode, debounce: int, stale: int)

  /** What the engine has learned from its sources. */
  datatype Sense = Sense(
    observed: map<string, Value>,      // latest value seen per path
    lastOK: map<string, int>,
    lastErr: map<string, Err>,
    sources: seq<seq<SrcState>>,       // per spec, per chain position
    blocked: set<string>,              // paths whose onfail:"fail" rejects every flush
    errors: seq<Err>)                  // OnError deliveries, in order

  /** One join of a field to the current batch. */
  datatype Join = Join(path: string, at: int, window: int)

  /** The pending batch and its timer. `joins` records who joined when; it exists
      only to state the debounce bound. */
  datatype Batch = Batch(pending: set<string>, since: int, window: int, timer: Option<int>, joins: seq<Join>)

  const EmptyBatch := Batch({}, 0, 0, None, [])

  datatype Front = Front(sense: Sense, batch: Batch)

  // ---------------------------------------------------------------- batch and timer

  function DebounceFrom(refs: seq<Ref>, i: nat, best: Option<int>): Option<int>
    requires i <= |refs|
    decreases |refs| - i
  {
    if i == |refs| then best
    else
      var d := refs[i].debounce;
      DebounceFrom(refs, i + 1, if d.Some? && (best.None? || d.value < best.value) then d else best)
  }

  /** A field's coalescing window: the smallest override on its chain, else the default. */
  function DebounceFor(su: Setup, spec: FieldSpec): int {
    var d := DebounceFrom(spec.refs, 0, None);
    if d.Some? then d.value else su.debounce
  }

  function AddPending(su: Setup, b: Batch, spec: FieldSpec, now: int): Batch {
    var w := DebounceFor(su, spec);
    var j := Join(spec.path, now, w);
    if b.pending == {} then b.(since := now, window := w, pending := {spec.path}, joins := [j])
    else b.(window := if w < b.window then w else b.window, pending := b.pending + {spec.path}, joins := b.joins + [j])
  }

  function Arm(b: Batch, now: int): Batch {
    var fireAt := b.since + b.window;
    b.(timer := Some(if fireAt < now then now else fireAt))
  }

  function MarkChanged(su: Setup, f: Front, spec: FieldSpec, val: Value, now: int): Front {
    if spec.path in f.sense.observed && !Changed(f.sense.observed[spec.path], val) then f
    else Front(f.sense.(observed := f.sense.observed[spec.path := val]), Arm(AddPending(su, f.batch, spec, now), now))
  }

  /** The field's observed version has not been applied. */
  predicate HeldBack(observed: map<string, Value>, applied: map<string, string>, path: string) {
    path in observed && Ver(applied, path) != observed[path].version
  }

  predicate AnyHeldBack(su: Setup, observed: map<string, Value>, applied: map<string, string>) {
    exists i :: 0 <= i < |su.specs| && HeldBack(observed, applied, su.specs[i].path)
  }

  function RearmFrom(su: Setup, b: Batch, observed: map<string, Value>, applied: map<string, string>, i: nat, now: int): Batch
    requires i <= |su.specs|
    decreases |su.specs| - i
  {
    if i == |su.specs| then b
    else
      var c := if HeldBack(observed, applied, su.specs[i].path) then AddPending(su, b, su.specs[i], now) else b;
      RearmFrom(su, c, observed, applied, i + 1, now)
  }

  function Rearm(su: Setup, b: Batch, observed: map<string, Value>, applied: map<string, string>, now: int): Batch {
    if AnyHeldBack(su, observed, applied) then Arm(RearmFrom(su, b, observed, applied, 0, now), now) else b
  }

  /** Lifting a block that was really there puts every held-back field back in the batch. */
  function Unblock(su: Setup, f: Front, applied: map<string, string>, path: string, now: int): Front {
    if path !in f.sense.blocked then f
    else Front(f.sense.(blocked := f.sense.blocked - {path}), Rearm(su, f.batch, f.sense.observed, applied, now))
  }

  // ---------------------------------------------------------------- classifying a winner

  function ReportTerminalError(su: Setup, s: Sense, spec: FieldSpec, ref: Ref, err: Err, now: int): Sense {
    var e := if su.stale > 0 && spec.path in s.lastOK && now - s.lastOK[spec.path] > su.stale
             then StaleErr(err) else ProviderErr(ref.scheme, err);
    s.(lastErr := s.lastErr[spec.path := e], errors := s.errors + [e])
  }

  /** Not-found handling, once the field's block has been lifted. */
  function NotFoundPolicy(su: Setup, s: Sense, spec: FieldSpec, err: Err, now: int): Sense
    requires |spec.refs| >= 1
  {
    if IsNotFound(err) && (spec.hasDefault || spec.optional) then s.(lastErr := s.lastErr - {spec.path})
    else ReportTerminalError(su, s, spec, spec.refs[0], err, now)
  }

  function Healthy(s: Sense, path: string, now: int): Sense {
    s.(lastOK := s.lastOK[path := now], lastErr := s.lastErr - {path})
  }

  /** Source state has one slot per chain position. */
  ghost predicate Shaped(su: Setup, sources: seq<seq<SrcState>>) {
    && ValidSpecs(su.specs)
    && |sources| == |su.specs|
    && forall i :: 0 <= i < |sources| ==> |sources[i]| == |su.specs[i].refs|
  }

  /** The loop's reaction to a recomputed winner. */
  function ByWatch(su: Setup, f: Front, applied: map<string, string>, spec: FieldSpec, w: Winner, now: int): Front
    requires |spec.refs| >= 1 && (w.Stopped? ==> w.pos < |spec.refs|)
  {
    match w
    case Won(_, v) =>
      MarkChanged(su, Unblock(su, f.(sense := Healthy(f.sense, spec.path, now)), applied, spec.path, now), spec, v, now)
    case Absent(e) =>
      var u := Unblock(su, f, applied, spec.path, now);
      u.(sense := NotFoundPolicy(su, u.sense, spec, e, now))
    case Stopped(p, e) =>
      match spec.onFail
      case UseDefault =>
        var u := Unblock(su, f, applied, spec.path, now);
        MarkChanged(su, u.(sense := Healthy(u.sense, spec.path, now)), spec, DefaultValue(spec), now)
      case Fail =>
        f.(sense := ReportTerminalError(su, f.sense.(blocked := f.sense.blocked + {spec.path}), spec, spec.refs[p], e, now))
      case KeepLast =>
        f.(sense := ReportTerminalError(su, f.sense.(blocked := f.sense.blocked - {spec.path}), spec, spec.refs[p], e, now))
  }

  function Record(su: Setup, s: Sense, idx: nat, pos: nat, up: Raw): Sense
    requires Shaped(su, s.sources) && idx < |su.specs| && pos < |su.specs[idx].refs|
  {
    var spec := su.specs[idx];
    s.(sources := s.sources[idx := s.sources[idx][pos := Settle(su.decode, spec, spec.refs[pos], up)]])
  }

  /** The loop's update case: record one position's outcome, recompute the winner,
      and apply the field's policy to it. */
  function OnUpdate(su: Setup, f: Front, applied: map<string, string>, idx: nat, pos: nat, up: Raw, now: int): Front
    requires Shaped(su, f.sense.sources) && idx < |su.specs| && pos < |su.specs[idx].refs|
  {
    var s := Record(su, f.sense, idx, pos, up);
    ByWatch(su, f.(sense := s), applied, su.specs[idx], Recompute(s.sources[idx]), now)
  }

  // ---------------------------------------------------------------- refresh

  function Observe(s: Sense, path: string, val: Value): Sense {
    if path in s.observed && !Changed(s.observed[path], val) then s
    else s.(observed := s.observed[path := val])
  }

  /** `refreshNow`'s reaction to a recomputed winner: the loop's, with the block lifted
      by a plain delete and no debounce bookkeeping. */
  function ByRefresh(su: Setup, s: Sense, spec: FieldSpec, w: Winner, now: int): Sense
    requires |spec.refs| >= 1 && (w.Stopped? ==> w.pos < |spec.refs|)
  {
    var free := s.(blocked := s.blocked - {spec.path});
    match w
    case Won(_, v) => Observe(Healthy(free, spec.path, now), spec.path, v)
    case Absent(e) => NotFoundPolicy(su, free, spec, e, now)
    case Stopped(p, e) =>
      match spec.onFail
      case UseDefault => Observe(Healthy(free, spec.path, now), spec.path, DefaultValue(spec))
      case Fail => ReportTerminalError(su, s.(blocked := s.blocked + {spec.path}), spec, spec.refs[p], e, now)
      case KeepLast => ReportTerminalError(su, free, spec, spec.refs[p], e, now)
  }

  function RefreshField(su: Setup, s: Sense, i: nat, raws: seq<Raw>, now: int): (t: Sense)
    requires Shaped(su, s.sources) && i < |su.specs| && |raws| == |su.specs[i].refs|
    ensures t.sources == s.sources[i := Merge(s.sources[i], Seed(su.decode, su.specs[i], raws))]
    ensures Shaped(su, t.sources)
  {
    var merged := Merge(s.sources[i], Seed(su.decode, su.specs[i], raws));
    ByRefresh(su, s.(sources := s.sources[i := merged]), su.specs[i], Recompute(merged), now)
  }

  predicate LiveShaped(su: Setup, live: seq<seq<Raw>>) {
    |live| == |su.specs| && forall i :: 0 <= i < |live| ==> |live[i]| == |su.specs[i].refs|
  }

  function RefreshFrom(su: Setup, s: Sense, live: seq<seq<Raw>>, i: nat, now: int): (t: Sense)
    requires Shaped(su, s.sources) && LiveShaped(su, live) && i <= |su.specs|
    ensures Shaped(su, t.sources)
    ensures forall k :: 0 <= k < |s.sources| ==>
              t.sources[k] == if k < i then s.sources[k] else Merge(s.sources[k], Seed(su.decode, su.specs[k], live[k]))
    decreases |su.specs| - i
  {
    if i == |su.specs| then s
    else RefreshFrom(su, RefreshField(su, s, i, live[i], now), live, i + 1, now)
  }
}
