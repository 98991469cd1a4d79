/** The reconciler engine as a deterministic step function. Everything the engine
    cannot decide for itself - source updates, the clock, provider answers and the
    PreApply gate - arrives in the event, so a run is a fold over a list of events. */
module Engine {
  import opened Values
  import opened Chain
  import opened Intake

  datatype FieldChange = FieldChange(path: string, oldVersion: string, newVersion: string)

  datatype Change<T> = Change(was: T, becomes: T, fields: seq<FieldChange>)

  /** A retained configuration with the cumulative applied versions as of it. */
  datatype Snapshot<T> = Snapshot(version: nat, at: int, config: T, fields: seq<FieldChange>, applied: map<string, string>)

  datatype Derive<!T> = Derive(fn: T -> Result<T>, writes: seq<string>)

  /** Decoding a field, deriving, validating and reading a derived path are opaque
      deterministic functions. */
  datatype Hooks<!T> = Hooks(
    zero: T,
    setField: (T, string, string) -> Result<T>,
    derives: seq<Derive<T>>,
    validate: T -> Option<Err>,
    readPath: (T, string) -> Option<string>,
    contentHash: string -> string)

  datatype Params<!T> = Params(setup: Setup, hooks: Hooks<T>, hasGate: bool, historyN: nat)

  /** A configuration that was taken over: what the gate was shown and what it answered, and the
      values it was built from. The log of these is never trimmed; it exists only to state
      claims. */
  datatype Accepted<T> =
    Accepted(snap: Snapshot<T>, superseded: T, shown: seq<FieldChange>, obs: map<string, Value>, gate: Gate)

  /** The live side. `refused` is what had been observed when the last flush attempt made with
      nothing blocked was refused, if it was; like `log`, it exists only to state claims. */
  datatype Book<T> = Book(
    lastGood: T,
    version: nat,
    applied: map<string, string>,
    history: seq<Snapshot<T>>,
    log: seq<Accepted<T>>,
    refused: Option<map<string, Value>>)

  datatype PinState<T> = PinState(pinned: bool, version: nat, config: T, applied: map<string, string>)

  /** What leaves the engine: the configuration Get returns, and the Change events
      handed to the dispatch queue. */
  datatype Out<T> = Out(cfg: T, emitted: seq<Change<T>>)

  datatype State<T> = State(front: Front, book: Book<T>, pin: PinState<T>, out: Out<T>)

  /** What the gate hook answered, and whether its context had expired by then. */
  datatype Gate = Gate(hookErr: Option<Err>, ctxErr: Option<Err>)

  /** A hook's refusal, or an answer that came after its deadline, refuses. */
  function RunPreApply(hasGate: bool, g: Gate): Option<Err> {
    if !hasGate then None
    else if g.hookErr.Some? then Some(PreApplyErr(g.hookErr.value))
    else if g.ctxErr.Some? then Some(PreApplyErr(g.ctxErr.value))
    else None
  }

  // ---------------------------------------------------------------- candidates

  function DecodeFrom<T>(specs: seq<FieldSpec>, h: Hooks<T>, obs: map<string, Value>, i: nat, cand: T): Result<T>
    requires i <= |specs|
    decreases |specs| - i
  {
    if i == |specs| then Ok(cand)
    else
      var path := specs[i].path;
      if path !in obs then DecodeFrom(specs, h, obs, i + 1, cand)
      else match h.setField(cand, path, obs[path].bytes)
        case Ok(c) => DecodeFrom(specs, h, obs, i + 1, c)
        case Bad(e) => Bad(ValidationErr(e))
  }

  function DeriveFrom<T>(h: Hooks<T>, i: nat, cand: T): Result<T>
    requires i <= |h.derives|
    decreases |h.derives| - i
  {
    if i == |h.derives| then Ok(cand)
    else match h.derives[i].fn(cand)
      case Ok(c) => DeriveFrom(h, i + 1, c)
      case Bad(e) => Bad(DeriveErr(e))
  }

  /** Decode, derive, validate: the configuration that `obs` stands for, if any. */
  function BuildConfig<T>(specs: seq<FieldSpec>, h: Hooks<T>, obs: map<string, Value>): Result<T> {
    match DecodeFrom(specs, h, obs, 0, h.zero)
    case Bad(e) => Bad(e)
    case Ok(raw) =>
      match DeriveFrom(h, 0, raw)
      case Bad(e) => Bad(e)
      case Ok(c) => if h.validate(c).Some? then Bad(ValidationErr(h.validate(c).value)) else Ok(c)
  }

  /** The version diff of `obs` against `applied`, in spec order. */
  function DiffFrom(specs: seq<FieldSpec>, applied: map<string, string>, obs: map<string, Value>, i: nat): seq<FieldChange>
    requires i <= |specs|
    decreases |specs| - i
  {
    if i == |specs| then []
    else
      var path := specs[i].path;
      if HeldBack(obs, applied, path)
      then [FieldChange(path, Ver(applied, path), obs[path].version)] + DiffFrom(specs, applied, obs, i + 1)
      else DiffFrom(specs, applied, obs, i + 1)
  }

  /** The applied versions once that diff has been taken over. */
  function AdvanceFrom(specs: seq<FieldSpec>, applied: map<string, string>, obs: map<string, Value>, i: nat): map<string, string>
    requires i <= |specs|
    decreases |specs| - i
  {
    if i == |specs| then applied
    else
      var path := specs[i].path;
      AdvanceFrom(specs, if HeldBack(obs, applied, path) then applied[path := obs[path].version] else applied, obs, i + 1)
  }

  function WritesFrom<T>(derives: seq<Derive<T>>, i: nat): seq<string>
    requires i <= |derives|
    decreases |derives| - i
  {
    if i == |derives| then [] else derives[i].writes + WritesFrom(derives, i + 1)
  }

  /** `derivedFieldChanges` from declared path `i` on: one entry per declared path, on
      its first occurrence, that names no spec and reads differently. */
  function DerivedFrom<T>(specs: seq<FieldSpec>, h: Hooks<T>, writes: seq<string>, i: nat, was: T, becomes: T): seq<FieldChange>
    requires i <= |writes|
    decreases |writes| - i
  {
    if i == |writes| then []
    else
      var rest := DerivedFrom(specs, h, writes, i + 1, was, becomes);
      var p := writes[i];
      var o, n := h.readPath(was, p), h.readPath(becomes, p);
      if p in writes[..i] || p in Paths(specs) || o.None? || n.None? || o.value == n.value then rest
      else [FieldChange(p, h.contentHash(o.value), h.contentHash(n.value))] + rest
  }

  function DerivedChanges<T>(specs: seq<FieldSpec>, h: Hooks<T>, was: T, becomes: T): seq<FieldChange> {
    DerivedFrom(specs, h, WritesFrom(h.derives, 0), 0, was, becomes)
  }

  /** The first blocked path in spec order gives the reason. */
  function BlockedReason(specs: seq<FieldSpec>, s: Sense, i: nat): Option<Err>
    requires i <= |specs|
    decreases |specs| - i
  {
    if i == |specs| then None
    else
      var path := specs[i].path;
      if path !in s.blocked then BlockedReason(specs, s, i + 1)
      else if path in s.lastErr then Some(s.lastErr[path])
      else Some(BlockedErr(path))
  }

  // ---------------------------------------------------------------- flush

  function RollBack(applied: map<string, string>, fields: seq<FieldChange>): map<string, string>
    decreases |fields|
  {
    if fields == [] then applied
    else RollBack(applied[fields[0].path := fields[0].oldVersion], fields[1..])
  }

  /** The newest `historyN` prior snapshots plus the current one. */
  function Retain<T>(h: seq<Snapshot<T>>, historyN: nat): seq<Snapshot<T>> {
    if |h| > historyN + 1 then h[|h| - (historyN + 1)..] else h
  }

  function Accept<T>(ps: Params<T>, s: State<T>, cand: T, fields: seq<FieldChange>, applied: map<string, string>, g: Gate, now: int): State<T> {
    var b := s.book;
    var snap := Snapshot(b.version + 1, now, cand, fields, applied);
    var entry := Accepted(snap, b.lastGood, fields, s.front.sense.observed, g);
    var book := Book(cand, b.version + 1, applied, Retain(b.history + [snap], ps.historyN), b.log + [entry], None);
    if s.pin.pinned then s.(book := book)
    else s.(book := book, out := Out(cand, s.out.emitted + [Change(b.lastGood, cand, fields)]))
  }

  datatype Flushed<T> = Flushed(state: State<T>, err: Option<Err>)

  function Refuse<T>(s: State<T>, applied: map<string, string>, e: Err): Flushed<T> {
    var sense := s.front.sense;
    Flushed(s.(front := s.front.(sense := sense.(errors := sense.errors + [e])), book := s.book.(applied := applied, refused := Some(sense.observed))),
            Some(e))
  }

  function Fields<T>(ps: Params<T>, s: State<T>, cand: T): seq<FieldChange> {
    DiffFrom(ps.setup.specs, s.book.applied, s.front.sense.observed, 0)
    + DerivedChanges(ps.setup.specs, ps.hooks, s.book.lastGood, cand)
  }

  /** The gate's turn, over a non-empty diff: publish, or roll back and refuse. */
  function Judge<T>(ps: Params<T>, s: State<T>, cand: T, fields: seq<FieldChange>, applied: map<string, string>, g: Gate, now: int): Flushed<T> {
    match RunPreApply(ps.hasGate, g)
    case Some(e) => Refuse(s, RollBack(applied, fields), e)
    case None => Flushed(Accept(ps, s, cand, fields, applied, g, now), None)
  }

  /** A flush once its candidate has built: diff, gate, then publish or roll back. */
  function GateAndApply<T>(ps: Params<T>, s: State<T>, cand: T, g: Gate, now: int): Flushed<T> {
    var fields := Fields(ps, s, cand);
    var applied := AdvanceFrom(ps.setup.specs, s.book.applied, s.front.sense.observed, 0);
    if fields == [] then Flushed(s.(book := s.book.(applied := applied, refused := None)), None)
    else Judge(ps, s, cand, fields, applied, g, now)
  }

  /** A flush that nothing blocks, once the candidate has been built or has failed to build. */
  function Decide<T>(ps: Params<T>, s: State<T>, built: Result<T>, g: Gate, now: int): Flushed<T> {
    match built
    case Bad(e) => Refuse(s, s.book.applied, e)
    case Ok(cand) => GateAndApply(ps, s, cand, g, now)
  }

  /** One flush attempt, over a batch that is empty or not. */
  function Flush<T>(ps: Params<T>, s: State<T>, nonEmpty: bool, g: Gate, now: int): Flushed<T> {
    var sense := s.front.sense;
    if !nonEmpty then Flushed(s, None)
    else if sense.blocked != {} then Flushed(s, BlockedReason(ps.setup.specs, sense, 0))
    else Decide(ps, s, BuildConfig(ps.setup.specs, ps.hooks, sense.observed), g, now)
  }

  /** The timer case: flush, then drop the batch and the timer whatever came of it. */
  function OnTimer<T>(ps: Params<T>, s: State<T>, g: Gate, now: int): State<T> {
    var t := Flush(ps, s, s.front.batch.pending != {}, g, now).state;
    t.(front := t.front.(batch := t.front.batch.(pending := {}, timer := None, joins := [])))
  }

  // ---------------------------------------------------------------- control commands

  function FindFrom<T>(h: seq<Snapshot<T>>, version: nat, i: nat): (r: Option<Snapshot<T>>)
    requires i <= |h|
    decreases |h| - i
  {
    if i == |h| then None
    else if h[i].version == version then Some(h[i])
    else FindFrom(h, version, i + 1)
  }

  function DiffMapsFrom(specs: seq<FieldSpec>, before: map<string, string>, after: map<string, string>, i: nat): seq<FieldChange>
    requires i <= |specs|
    decreases |specs| - i
  {
    if i == |specs| then []
    else
      var b, a := Ver(before, specs[i].path), Ver(after, specs[i].path);
      if b != a then [FieldChange(specs[i].path, b, a)] + DiffMapsFrom(specs, before, after, i + 1)
      else DiffMapsFrom(specs, before, after, i + 1)
  }

  function DiffApplied<T>(ps: Params<T>, before: map<string, string>, after: map<string, string>, was: T, becomes: T): seq<FieldChange> {
    DiffMapsFrom(ps.setup.specs, before, after, 0) + DerivedChanges(ps.setup.specs, ps.hooks, was, becomes)
  }

  datatype Reply = Reply(version: nat, err: Option<Err>)

  datatype Handled<T> = Handled(state: State<T>, reply: Reply)

  /** Freeze at whatever is being served: the pinned snapshot if there is one. */
  function OnPinCurrent<T>(s: State<T>): Handled<T> {
    var p := if s.pin.pinned then s.pin else PinState(true, s.book.version, s.book.lastGood, s.book.applied);
    Handled(s.(pin := p, out := s.out.(cfg := p.config)), Reply(p.version, None))
  }

  function OnPinAt<T>(s: State<T>, version: nat): Handled<T> {
    match FindFrom(s.book.history, version, 0)
    case None => Handled(s, Reply(0, Some(NoSuchSnapshot)))
    case Some(snap) =>
      Handled(s.(pin := PinState(true, version, snap.config, snap.applied), out := s.out.(cfg := snap.config)), Reply(version, None))
  }

  function OnUnpin<T>(ps: Params<T>, s: State<T>): Handled<T> {
    if !s.pin.pinned then Handled(s, Reply(0, None))
    else
      var fields := DiffApplied(ps, s.pin.applied, s.book.applied, s.pin.config, s.book.lastGood);
      var emitted := if fields == [] then s.out.emitted else s.out.emitted + [Change(s.pin.config, s.book.lastGood, fields)];
      Handled(s.(pin := s.pin.(pinned := false, applied := map[]), out := Out(s.book.lastGood, emitted)), Reply(0, None))
  }

  /** Every field re-resolved. */
  function Resolved<T>(ps: Params<T>, s: State<T>, live: seq<seq<Raw>>, now: int): State<T>
    requires Shaped(ps.setup, s.front.sense.sources) && LiveShaped(ps.setup, live)
  {
    s.(front := s.front.(sense := RefreshFrom(ps.setup, s.front.sense, live, 0, now)))
  }

  /** Re-resolve every field, then flush with every field named. */
  function OnRefresh<T>(ps: Params<T>, s: State<T>, live: seq<seq<Raw>>, g: Gate, now: int): Flushed<T>
    requires Shaped(ps.setup, s.front.sense.sources) && LiveShaped(ps.setup, live)
  {
    Flush(ps, Resolved(ps, s, live, now), ps.setup.specs != [], g, now)
  }

  // ---------------------------------------------------------------- runs

  datatype Event =
    | Update(idx: nat, pos: nat, up: Raw, now: int)
    | Fire(gate: Gate, now: int)
    | Refresh(live: seq<seq<Raw>>, gate: Gate, now: int)
    | PinAt(version: nat)
    | PinCurrent
    | Unpin

  /** An event that can happen: in range, from a source that has a provider, not before
      `clock`, and for the timer not before it is due. */
  ghost predicate Enabled<T>(ps: Params<T>, s: State<T>, e: Event, clock: int) {
    && clock <= Clock(e, clock)
    && match e
       case Update(idx, pos, up, _) => idx < |ps.setup.specs| && pos < |ps.setup.specs[idx].refs| && !up.NoProvider?
       case Fire(_, now) => s.front.batch.timer.Some? && s.front.batch.timer.value <= now
       case Refresh(live, _, _) => LiveShaped(ps.setup, live)
       case _ => true
  }

  function Clock(e: Event, clock: int): int {
    match e
    case Update(_, _, _, now) => now
    case Fire(_, now) => now
    case Refresh(_, _, now) => now
    case _ => clock
  }

  ghost function Step<T>(ps: Params<T>, s: State<T>, e: Event, clock: int): State<T>
    requires Shaped(ps.setup, s.front.sense.sources) && Enabled(ps, s, e, clock)
  {
    match e
    case Update(idx, pos, up, now) => s.(front := OnUpdate(ps.setup, s.front, s.book.applied, idx, pos, up, now))
    case Fire(g, now) => OnTimer(ps, s, g, now)
    case Refresh(live, g, now) => OnRefresh(ps, s, live, g, now).state
    case PinAt(v) => OnPinAt(s, v).state
    case PinCurrent => OnPinCurrent(s).state
    case Unpin => OnUnpin(ps, s).state
  }

  // ---------------------------------------------------------------- the initial load

  function InitialFieldsFrom(specs: seq<FieldSpec>, obs: map<string, Value>, i: nat): seq<FieldChange>
    requires i <= |specs|
    decreases |specs| - i
  {
    if i == |specs| then []
    else if specs[i].path in obs
    then [FieldChange(specs[i].path, "", obs[specs[i].path].version)] + InitialFieldsFrom(specs, obs, i + 1)
    else InitialFieldsFrom(specs, obs, i + 1)
  }

  function Versions(obs: map<string, Value>): map<string, string> {
    map p | p in obs :: obs[p].version
  }

  /** `loadValue` and `Watch` on values already resolved: decode, derive, validate and
      gate, then the engine's first state. */
  function Load<T>(ps: Params<T>, obs: map<string, Value>, sources: seq<seq<SrcState>>, g: Gate, now: int): Result<State<T>> {
    match BuildConfig(ps.setup.specs, ps.hooks, obs)
    case Bad(e) => Bad(e)
    case Ok(cfg) =>
      match RunPreApply(ps.hasGate, g)
      case Some(e) => Bad(e)
      case None =>
        var shown := InitialFieldsFrom(ps.setup.specs, obs, 0) + DerivedChanges(ps.setup.specs, ps.hooks, ps.hooks.zero, cfg);
        var snap := Snapshot(1, now, cfg, [], Versions(obs));
        Ok(State(
          Front(Sense(obs, map p | p in obs :: now, map[], sources, {}, []), EmptyBatch),
          Book(cfg, 1, Versions(obs), [snap], [Accepted(snap, ps.hooks.zero, shown, obs, g)], None),
          PinState(false, 0, cfg, map[]),
          Out(cfg, [])))
  }

  /** `s` is the state some successful load left behind at time `now`. */
  ghost predicate Loaded<T>(ps: Params<T>, obs: map<string, Value>, sources: seq<seq<SrcState>>, g: Gate, now: int, s: State<T>) {
    && Shaped(ps.setup, sources)
    && obs.Keys <= Paths(ps.setup.specs)
    && Load(ps, obs, sources, g, now) == Ok(s)
  }
}
