/** The reconciler as the source has it: one object whose fields the loop, flush, the control
    commands and refresh update in place. Every method is proved against the step functions
    of Intake and Engine, and `Run` ties any list of events to a run of those functions, so
    everything proved about runs holds of this object. */
module Reconciler {
  import opened Values
  import Chain
  import Intake
  import Engine
  import EngineRuns

  type Raw = Chain.Raw
  type FieldChange = Engine.FieldChange

  class Watcher<T> {
    const ps: Engine.Params<T>

    var cfg: T
    var observed: map<string, Value>
    var applied: map<string, string>
    var lastOK: map<string, int>
    var lastErr: map<string, Err>
    var lastGood: T
    var version: nat
    var sources: seq<seq<Chain.SrcState>>
    var blocked: set<string>
    var history: seq<Engine.Snapshot<T>>

    var pinned: bool
    var pinnedVersion: nat
    var pinnedConfig: T
    var pinnedApplied: map<string, string>

    // The loop's locals: the pending batch and its timer.
    var pending: set<string>
    var pendingSince: int
    var window: int
    var timer: Option<int>

    // What has been handed to the dispatch queue and to OnError.
    var emitted: seq<Engine.Change<T>>
    var errors: seq<Err>

    ghost var joins: seq<Intake.Join>
    ghost var log: seq<Engine.Accepted<T>>
    ghost var refused: Option<map<string, Value>>

    ghost function SenseView(): Intake.Sense
      reads this
    {
      Intake.Sense(observed, lastOK, lastErr, sources, blocked, errors)
    }

    ghost function BatchView(): Intake.Batch
      reads this
    {
      Intake.Batch(pending, pendingSince, window, timer, joins)
    }

    ghost function FrontView(): Intake.Front
      reads this
    {
      Intake.Front(SenseView(), BatchView())
    }

    ghost function BookView(): Engine.Book<T>
      reads this
    {
      Engine.Book(lastGood, version, applied, history, log, refused)
    }

    ghost function PinView(): Engine.PinState<T>
      reads this
    {
      Engine.PinState(pinned, pinnedVersion, pinnedConfig, pinnedApplied)
    }

    ghost function OutView(): Engine.Out<T>
      reads this
    {
      Engine.Out(cfg, emitted)
    }

    /** The abstract state this object stands for. */
    ghost function View(): Engine.State<T>
      reads this
    {
      Engine.State(FrontView(), BookView(), PinView(), OutView())
    }

    /** The engine right after a successful load. */
    constructor (ps: Engine.Params<T>, loaded: Engine.State<T>)
      ensures this.ps == ps && View() == loaded
    {
      this.ps := ps;
      cfg, emitted := loaded.out.cfg, loaded.out.emitted;
      observed, lastOK, lastErr := loaded.front.sense.observed, loaded.front.sense.lastOK, loaded.front.sense.lastErr;
      sources, blocked, errors := loaded.front.sense.sources, loaded.front.sense.blocked, loaded.front.sense.errors;
      pending, pendingSince, window := loaded.front.batch.pending, loaded.front.batch.since, loaded.front.batch.window;
      timer, joins := loaded.front.batch.timer, loaded.front.batch.joins;
      lastGood, version, applied := loaded.book.lastGood, loaded.book.version, loaded.book.applied;
      history, log, refused := loaded.book.history, loaded.book.log, loaded.book.refused;
      pinned, pinnedVersion := loaded.pin.pinned, loaded.pin.version;
      pinnedConfig, pinnedApplied := loaded.pin.config, loaded.pin.applied;
    }

    // -------------------------------------------------------------- the loop's closures

    method AddPending(spec: FieldSpec, now: int)
      modifies `pending, `pendingSince, `window, `joins
      ensures BatchView() == Intake.AddPending(ps.setup, old(BatchView()), spec, now)
    {
      var w := Intake.DebounceFor(ps.setup, spec);
      if pending == {} {
        pendingSince, window := now, w;
        joins := [Intake.Join(spec.path, now, w)];
      } else {
        if w < window {
          window := w;
        }
        joins := joins + [Intake.Join(spec.path, now, w)];
      }
      pending := pending + {spec.path};
    }

    method Arm(now: int)
      modifies `timer
      ensures BatchView() == Intake.Arm(old(BatchView()), now)
    {
      var d := pendingSince + window - now;
      if d < 0 {
        d := 0;
      }
      timer := Some(now + d);
    }

    method MarkChanged(spec: FieldSpec, val: Value, now: int)
      modifies `observed, `pending, `pendingSince, `window, `timer, `joins
      ensures FrontView() == Intake.MarkChanged(ps.setup, old(FrontView()), spec, val, now)
    {
      if spec.path in observed && !Changed(observed[spec.path], val) {
        return;
      }
      observed := observed[spec.path := val];
      AddPending(spec, now);
      Arm(now);
    }

    /** The loop of `unblock`: back into the batch with every field held back. */
    method Readd(now: int) returns (rearmed: bool)
      modifies `pending, `pendingSince, `window, `joins
      ensures BatchView() == Intake.RearmFrom(ps.setup, old(BatchView()), observed, applied, 0, now)
      ensures rearmed <==> Intake.AnyHeldBack(ps.setup, observed, applied)
      ensures !rearmed ==> BatchView() == old(BatchView())
    {
      rearmed := false;
      var i := 0;
      while i < |ps.setup.specs|
        invariant 0 <= i <= |ps.setup.specs|
        invariant Intake.RearmFrom(ps.setup, BatchView(), observed, applied, i, now)
                  == Intake.RearmFrom(ps.setup, old(BatchView()), observed, applied, 0, now)
        invariant rearmed <==> exists k :: 0 <= k < i && Intake.HeldBack(observed, applied, ps.setup.specs[k].path)
        invariant !rearmed ==> BatchView() == old(BatchView())
      {
        var spec := ps.setup.specs[i];
        if spec.path in observed && Ver(applied, spec.path) != observed[spec.path].version {
          AddPending(spec, now);
          rearmed := true;
          assert Intake.HeldBack(observed, applied, ps.setup.specs[i].path);
        }
        i := i + 1;
      }
    }

    method Unblock(path: string, now: int)
      modifies `blocked, `pending, `pendingSince, `window, `timer, `joins
      ensures FrontView() == Intake.Unblock(ps.setup, old(FrontView()), applied, path, now)
    {
      if path !in blocked {
        return;
      }
      blocked := blocked - {path};
      var rearmed := Readd(now);
      if rearmed {
        Arm(now);
      }
    }

    // -------------------------------------------------------------- classification

    method ReportTerminalError(spec: FieldSpec, ref: Ref, err: Err, now: int)
      modifies `lastErr, `errors
      ensures SenseView() == Intake.ReportTerminalError(ps.setup, old(SenseView()), spec, ref, err, now)
    {
      var e := ProviderErr(ref.scheme, err);
      if ps.setup.stale > 0 && spec.path in lastOK && now - lastOK[spec.path] > ps.setup.stale {
        e := StaleErr(err);
      }
      lastErr := lastErr[spec.path := e];
      errors := errors + [e];
    }

    /** `handleChainNotFound` as the loop calls it: the loop's unblock first, which re-arms, then
        the absence is tolerated or reported. */
    method HandleChainNotFound(spec: FieldSpec, err: Err, now: int)
      requires |spec.refs| >= 1
      modifies `lastErr, `errors, `blocked, `pending, `pendingSince, `window, `timer, `joins
      ensures FrontView() == Intake.ByWatch(ps.setup, old(FrontView()), applied, spec, Chain.Absent(err), now)
    {
      Unblock(spec.path, now);
      ReportUnlessTolerated(spec, err, now);
    }

    /** The same as a refresh calls it, with a plain delete for the block. */
    method HandleChainNotFoundAtRefresh(spec: FieldSpec, err: Err, now: int)
      requires |spec.refs| >= 1
      modifies `lastErr, `errors, `blocked
      ensures SenseView() == Intake.ByRefresh(ps.setup, old(SenseView()), spec, Chain.Absent(err), now)
    {
      blocked := blocked - {spec.path};
      ReportUnlessTolerated(spec, err, now);
    }

    method ReportUnlessTolerated(spec: FieldSpec, err: Err, now: int)
      requires |spec.refs| >= 1
      modifies `lastErr, `errors
      ensures SenseView() == Intake.NotFoundPolicy(ps.setup, old(SenseView()), spec, err, now)
    {
      if IsNotFound(err) && (spec.hasDefault || spec.optional) {
        lastErr := lastErr - {spec.path};
        return;
      }
      ReportTerminalError(spec, spec.refs[0], err, now);
    }

    method MarkHealthy(path: string, now: int)
      modifies `lastOK, `lastErr
      ensures SenseView() == Intake.Healthy(old(SenseView()), path, now)
    {
      lastOK := lastOK[path := now];
      lastErr := lastErr - {path};
    }

    /** The loop's policy for a chain that stopped at a broken position. */
    method ApplyOnFail(spec: FieldSpec, p: nat, e: Err, now: int)
      requires p < |spec.refs|
      modifies `observed, `lastOK, `lastErr, `errors, `blocked, `pending, `pendingSince, `window, `timer, `joins
      ensures FrontView() == Intake.ByWatch(ps.setup, old(FrontView()), applied, spec, Chain.Stopped(p, e), now)
    {
      match spec.onFail {
        case UseDefault =>
          Unblock(spec.path, now);
          MarkHealthy(spec.path, now);
          MarkChanged(spec, DefaultValue(spec), now);
        case Fail =>
          blocked := blocked + {spec.path};
          ReportTerminalError(spec, spec.refs[p], e, now);
        case KeepLast =>
          blocked := blocked - {spec.path};
          ReportTerminalError(spec, spec.refs[p], e, now);
      }
    }

    /** The loop's update case. */
    method HandleUpdate(idx: nat, pos: nat, up: Raw, now: int)
      requires Intake.Shaped(ps.setup, sources) && idx < |ps.setup.specs| && pos < |ps.setup.specs[idx].refs|
      modifies `sources, `observed, `lastOK, `lastErr, `errors, `blocked, `pending, `pendingSince, `window, `timer, `joins
      ensures FrontView() == Intake.OnUpdate(ps.setup, old(FrontView()), applied, idx, pos, up, now)
    {
      var spec := ps.setup.specs[idx];
      sources := sources[idx := sources[idx][pos := Chain.Settle(ps.setup.decode, spec, spec.refs[pos], up)]];
      var w := Chain.RecomputeWinner(sources[idx]);
      match w {
        case Won(_, v) =>
          MarkHealthy(spec.path, now);
          Unblock(spec.path, now);
          MarkChanged(spec, v, now);
        case Absent(e) =>
          HandleChainNotFound(spec, e, now);
        case Stopped(p, e) =>
          ApplyOnFail(spec, p, e, now);
      }
    }

    // -------------------------------------------------------------- candidate and flush

    /** Decode every observed value, run the derives, validate. */
    method Build() returns (r: Result<T>)
      ensures r == Engine.BuildConfig(ps.setup.specs, ps.hooks, observed)
    {
      var cand := ps.hooks.zero;
      var i := 0;
      while i < |ps.setup.specs|
        invariant 0 <= i <= |ps.setup.specs|
        invariant Engine.DecodeFrom(ps.setup.specs, ps.hooks, observed, i, cand)
                  == Engine.DecodeFrom(ps.setup.specs, ps.hooks, observed, 0, ps.hooks.zero)
      {
        var path := ps.setup.specs[i].path;
        if path in observed {
          var c := ps.hooks.setField(cand, path, observed[path].bytes);
          if c.Bad? {
            return Bad(ValidationErr(c.err));
          }
          cand := c.value;
        }
        i := i + 1;
      }
      ghost var decoded := cand;
      i := 0;
      while i < |ps.hooks.derives|
        invariant 0 <= i <= |ps.hooks.derives|
        invariant Engine.DeriveFrom(ps.hooks, i, cand) == Engine.DeriveFrom(ps.hooks, 0, decoded)
      {
        var c := ps.hooks.derives[i].fn(cand);
        if c.Bad? {
          return Bad(DeriveErr(c.err));
        }
        cand := c.value;
        i := i + 1;
      }
      var verdict := ps.hooks.validate(cand);
      if verdict.Some? {
        return Bad(ValidationErr(verdict.value));
      }
      return Ok(cand);
    }

    /** `buildCandidate`'s diff, which advances `applied` as it goes. */
    method DiffAndAdvance() returns (fields: seq<FieldChange>)
      requires ValidSpecs(ps.setup.specs)
      modifies `applied
      ensures fields == Engine.DiffFrom(ps.setup.specs, old(applied), observed, 0)
      ensures applied == Engine.AdvanceFrom(ps.setup.specs, old(applied), observed, 0)
    {
      fields := [];
      ghost var before := applied;
      var i := 0;
      while i < |ps.setup.specs|
        invariant 0 <= i <= |ps.setup.specs|
        invariant forall k :: i <= k < |ps.setup.specs| ==> Ver(applied, ps.setup.specs[k].path) == Ver(before, ps.setup.specs[k].path)
        invariant fields + Engine.DiffFrom(ps.setup.specs, before, observed, i) == Engine.DiffFrom(ps.setup.specs, before, observed, 0)
        invariant Engine.AdvanceFrom(ps.setup.specs, applied, observed, i) == Engine.AdvanceFrom(ps.setup.specs, before, observed, 0)
      {
        var path := ps.setup.specs[i].path;
        if path in observed && Ver(applied, path) != observed[path].version {
          fields := fields + [Engine.FieldChange(path, Ver(applied, path), observed[path].version)];
          applied := applied[path := observed[path].version];
        }
        i := i + 1;
      }
    }

    /** `blockedErr`. */
    method BlockedErr() returns (e: Option<Err>)
      ensures e == Engine.BlockedReason(ps.setup.specs, SenseView(), 0)
    {
      var i := 0;
      while i < |ps.setup.specs|
        invariant 0 <= i <= |ps.setup.specs|
        invariant Engine.BlockedReason(ps.setup.specs, SenseView(), i) == Engine.BlockedReason(ps.setup.specs, SenseView(), 0)
      {
        var path := ps.setup.specs[i].path;
        if path in blocked {
          if path in lastErr {
            return Some(lastErr[path]);
          }
          return Some(Err.BlockedErr(path));
        }
        i := i + 1;
      }
      return None;
    }

    method RollBack(fields: seq<FieldChange>)
      modifies `applied
      ensures applied == Engine.RollBack(old(applied), fields)
    {
      var i := 0;
      while i < |fields|
        invariant 0 <= i <= |fields|
        invariant Engine.RollBack(applied, fields[i..]) == Engine.RollBack(old(applied), fields)
      {
        applied := applied[fields[i].path := fields[i].oldVersion];
        i := i + 1;
      }
    }

    /** `recordSnapshot`, after the version bump. */
    method RecordSnapshot(cand: T, fields: seq<FieldChange>, now: int)
      modifies `history
      ensures history == Engine.Retain(old(history) + [Engine.Snapshot(version, now, cand, fields, applied)], ps.historyN)
    {
      history := history + [Engine.Snapshot(version, now, cand, fields, applied)];
      if |history| > ps.historyN + 1 {
        history := history[|history| - (ps.historyN + 1)..];
      }
    }

    ghost method Remember(entry: Engine.Accepted<T>)
      modifies `log, `refused
      ensures log == old(log) + [entry] && refused == None
    {
      log, refused := log + [entry], None;
    }

    /** The accepting half of `flush`: bump the version, take the candidate over and record it;
        a pin keeps Get and OnChange where they are. */
    method Publish(cand: T, fields: seq<FieldChange>, ghost g: Engine.Gate, now: int)
      modifies `version, `lastGood, `history, `log, `refused, `cfg, `emitted
      ensures BookView() == Engine.Accept(ps, old(View()), cand, fields, applied, g, now).book
      ensures OutView() == Engine.Accept(ps, old(View()), cand, fields, applied, g, now).out
    {
      ghost var entry := Engine.Accepted(Engine.Snapshot(version + 1, now, cand, fields, applied), lastGood, fields, observed, g);
      var was := lastGood;
      version := version + 1;
      lastGood := cand;
      RecordSnapshot(cand, fields, now);
      Remember(entry);
      if !pinned {
        cfg := cand;
        Enqueue(Engine.Change(was, cand, fields));
      }
    }

    /** Hands a Change to the dispatch queue; Dispatch says what becomes of it there. */
    method Enqueue(ev: Engine.Change<T>)
      modifies `emitted
      ensures emitted == old(emitted) + [ev]
    {
      emitted := emitted + [ev];
    }

    method Refuse(e: Err)
      modifies `errors, `refused
      ensures errors == old(errors) + [e] && refused == Some(observed)
    {
      errors := errors + [e];
      refused := Some(observed);
    }

    /** The gate's turn, with `applied` already advanced. */
    method Judge(cand: T, fields: seq<FieldChange>, g: Engine.Gate, now: int) returns (err: Option<Err>)
      modifies `applied, `version, `lastGood, `history, `log, `refused, `cfg, `emitted, `errors
      ensures err == Engine.Judge(ps, old(View()), cand, fields, old(applied), g, now).err
      ensures errors == Engine.Judge(ps, old(View()), cand, fields, old(applied), g, now).state.front.sense.errors
      ensures BookView() == Engine.Judge(ps, old(View()), cand, fields, old(applied), g, now).state.book
      ensures OutView() == Engine.Judge(ps, old(View()), cand, fields, old(applied), g, now).state.out
    {
      err := Engine.RunPreApply(ps.hasGate, g);
      if err.Some? {
        RollBack(fields);
        Refuse(err.value);
      } else {
        Publish(cand, fields, g, now);
      }
    }

    /** `flush` once a candidate has built: diff, gate, then publish or roll back. */
    method GateAndApply(cand: T, g: Engine.Gate, now: int) returns (err: Option<Err>)
      requires ValidSpecs(ps.setup.specs)
      modifies `applied, `version, `lastGood, `history, `log, `refused, `cfg, `emitted, `errors
      ensures err == Engine.GateAndApply(ps, old(View()), cand, g, now).err
      ensures errors == Engine.GateAndApply(ps, old(View()), cand, g, now).state.front.sense.errors
      ensures BookView() == Engine.GateAndApply(ps, old(View()), cand, g, now).state.book
      ensures OutView() == Engine.GateAndApply(ps, old(View()), cand, g, now).state.out
    {
      ghost var was := View();
      var diff := DiffAndAdvance();
      var fields := diff + Engine.DerivedChanges(ps.setup.specs, ps.hooks, lastGood, cand);
      if fields == [] {
        refused := None;
        return None;
      }
      ghost var ahead := View();
      err := Judge(cand, fields, g, now);
      JudgeIgnoresApplied(was, ahead, cand, fields, g, now);
    }

    lemma JudgeIgnoresApplied(s: Engine.State<T>, t: Engine.State<T>, cand: T, fields: seq<FieldChange>, g: Engine.Gate, now: int)
      requires t == s.(book := s.book.(applied := t.book.applied))
      ensures Engine.Judge(ps, s, cand, fields, t.book.applied, g, now) == Engine.Judge(ps, t, cand, fields, t.book.applied, g, now)
    {
    }

    method Decide(built: Result<T>, g: Engine.Gate, now: int) returns (err: Option<Err>)
      requires ValidSpecs(ps.setup.specs)
      modifies `applied, `version, `lastGood, `history, `log, `refused, `cfg, `emitted, `errors
      ensures err == Engine.Decide(ps, old(View()), built, g, now).err
      ensures errors == Engine.Decide(ps, old(View()), built, g, now).state.front.sense.errors
      ensures BookView() == Engine.Decide(ps, old(View()), built, g, now).state.book
      ensures OutView() == Engine.Decide(ps, old(View()), built, g, now).state.out
    {
      if built.Bad? {
        Refuse(built.err);
        return Some(built.err);
      }
      err := GateAndApply(built.value, g, now);
    }

    method FlushParts(nonEmpty: bool, g: Engine.Gate, now: int) returns (err: Option<Err>)
      requires ValidSpecs(ps.setup.specs)
      modifies `applied, `version, `lastGood, `history, `log, `refused, `cfg, `emitted, `errors
      ensures err == Engine.Flush(ps, old(View()), nonEmpty, g, now).err
      ensures SenseView() == Engine.Flush(ps, old(View()), nonEmpty, g, now).state.front.sense
      ensures BookView() == Engine.Flush(ps, old(View()), nonEmpty, g, now).state.book
      ensures OutView() == Engine.Flush(ps, old(View()), nonEmpty, g, now).state.out
    {
      if !nonEmpty {
        return None;
      }
      if blocked != {} {
        err := BlockedErr();
        return;
      }
      var built := Build();
      err := Decide(built, g, now);
    }

    lemma FlushLeaves(s: Engine.State<T>, nonEmpty: bool, g: Engine.Gate, now: int)
      ensures var t := Engine.Flush(ps, s, nonEmpty, g, now).state; t.front.batch == s.front.batch && t.pin == s.pin
    {
    }

    /** `flush`: nothing pending, something blocked, an unbuildable candidate, or the gate. */
    method Flush(nonEmpty: bool, g: Engine.Gate, now: int) returns (err: Option<Err>)
      requires ValidSpecs(ps.setup.specs)
      modifies `applied, `version, `lastGood, `history, `log, `refused, `cfg, `emitted, `errors
      ensures Engine.Flushed(View(), err) == Engine.Flush(ps, old(View()), nonEmpty, g, now)
    {
      FlushLeaves(View(), nonEmpty, g, now);
      err := FlushParts(nonEmpty, g, now);
    }

    /** The loop's timer case. */
    method HandleTimer(g: Engine.Gate, now: int)
      requires ValidSpecs(ps.setup.specs)
      modifies `applied, `version, `lastGood, `history, `log, `refused, `cfg, `emitted, `errors, `pending, `timer, `joins
      ensures View() == Engine.OnTimer(ps, old(View()), g, now)
    {
      var _ := Flush(pending != {}, g, now);
      pending, timer := {}, None;
      joins := [];
    }

    // -------------------------------------------------------------- control commands

    method Freeze(v: nat, config: T, appliedThen: map<string, string>)
      modifies `pinned, `pinnedVersion, `pinnedConfig, `pinnedApplied, `cfg
      ensures PinView() == Engine.PinState(true, v, config, appliedThen) && cfg == config
    {
      pinned, pinnedVersion, pinnedConfig, pinnedApplied := true, v, config, appliedThen;
      cfg := config;
    }

    method PinCurrent() returns (r: Engine.Reply)
      modifies `pinned, `pinnedVersion, `pinnedConfig, `pinnedApplied, `cfg
      ensures r == Engine.OnPinCurrent(old(View())).reply
      ensures PinView() == Engine.OnPinCurrent(old(View())).state.pin
      ensures OutView() == Engine.OnPinCurrent(old(View())).state.out
    {
      var servedVersion, servedConfig, servedApplied := version, lastGood, applied;
      if pinned {
        servedVersion, servedConfig, servedApplied := pinnedVersion, pinnedConfig, pinnedApplied;
      }
      Freeze(servedVersion, servedConfig, servedApplied);
      return Engine.Reply(servedVersion, None);
    }

    method FindSnapshot(v: nat) returns (r: Option<Engine.Snapshot<T>>)
      ensures r == Engine.FindFrom(history, v, 0)
    {
      var i := 0;
      while i < |history|
        invariant 0 <= i <= |history|
        invariant Engine.FindFrom(history, v, i) == Engine.FindFrom(history, v, 0)
      {
        if history[i].version == v {
          return Some(history[i]);
        }
        i := i + 1;
      }
      return None;
    }

    method PinAt(v: nat) returns (r: Engine.Reply)
      modifies `pinned, `pinnedVersion, `pinnedConfig, `pinnedApplied, `cfg
      ensures r == Engine.OnPinAt(old(View()), v).reply
      ensures PinView() == Engine.OnPinAt(old(View()), v).state.pin
      ensures OutView() == Engine.OnPinAt(old(View()), v).state.out
    {
      var found := FindSnapshot(v);
      if found.None? {
        return Engine.Reply(0, Some(NoSuchSnapshot));
      }
      var snap := found.value;
      Freeze(v, snap.config, snap.applied);
      return Engine.Reply(v, None);
    }

    method Unpin() returns (r: Engine.Reply)
      modifies `pinned, `pinnedApplied, `cfg, `emitted
      ensures r == Engine.OnUnpin(ps, old(View())).reply
      ensures PinView() == Engine.OnUnpin(ps, old(View())).state.pin
      ensures OutView() == Engine.OnUnpin(ps, old(View())).state.out
    {
      r := Engine.Reply(0, None);
      if !pinned {
        return;
      }
      var fields := Engine.DiffApplied(ps, pinnedApplied, applied, pinnedConfig, lastGood);
      pinned := false;
      cfg := lastGood;
      if fields != [] {
        Enqueue(Engine.Change(pinnedConfig, lastGood, fields));
      }
      pinnedApplied := map[];
    }

    method Observe(path: string, val: Value)
      modifies `observed
      ensures SenseView() == Intake.Observe(old(SenseView()), path, val)
    {
      if path in observed && !Changed(observed[path], val) {
        return;
      }
      observed := observed[path := val];
    }

    /** `refreshNow`'s policy for a chain that stopped at a broken position. */
    method ApplyOnFailAtRefresh(spec: FieldSpec, p: nat, e: Err, now: int)
      requires p < |spec.refs|
      modifies `observed, `lastOK, `lastErr, `errors, `blocked
      ensures SenseView() == Intake.ByRefresh(ps.setup, old(SenseView()), spec, Chain.Stopped(p, e), now)
    {
      match spec.onFail {
        case UseDefault =>
          blocked := blocked - {spec.path};
          MarkHealthy(spec.path, now);
          Observe(spec.path, DefaultValue(spec));
        case Fail =>
          blocked := blocked + {spec.path};
          ReportTerminalError(spec, spec.refs[p], e, now);
        case KeepLast =>
          blocked := blocked - {spec.path};
          ReportTerminalError(spec, spec.refs[p], e, now);
      }
    }

    /** One pass of `refreshNow`'s loop. */
    method RefreshField(i: nat, raws: seq<Raw>, now: int)
      requires Intake.Shaped(ps.setup, sources) && i < |ps.setup.specs| && |raws| == |ps.setup.specs[i].refs|
      modifies `sources, `observed, `lastOK, `lastErr, `errors, `blocked
      ensures SenseView() == Intake.RefreshField(ps.setup, old(SenseView()), i, raws, now)
    {
      var spec := ps.setup.specs[i];
      var walked := Chain.SeedChainSources(ps.setup.decode, spec, raws);
      var merged := Chain.MergeSources(sources[i], walked);
      sources := sources[i := merged];
      var w := Chain.RecomputeWinner(merged);
      match w {
        case Won(_, v) =>
          MarkHealthy(spec.path, now);
          blocked := blocked - {spec.path};
          Observe(spec.path, v);
        case Absent(e) =>
          HandleChainNotFoundAtRefresh(spec, e, now);
        case Stopped(p, e) =>
          ApplyOnFailAtRefresh(spec, p, e, now);
      }
    }

    /** `refreshNow`'s loop over every field. */
    method ResolveAgain(live: seq<seq<Raw>>, now: int)
      requires Intake.Shaped(ps.setup, sources) && Intake.LiveShaped(ps.setup, live)
      modifies `sources, `observed, `lastOK, `lastErr, `errors, `blocked
      ensures SenseView() == Intake.RefreshFrom(ps.setup, old(SenseView()), live, 0, now)
    {
      var i := 0;
      while i < |ps.setup.specs|
        invariant 0 <= i <= |ps.setup.specs|
        invariant Intake.Shaped(ps.setup, sources)
        invariant Intake.RefreshFrom(ps.setup, SenseView(), live, i, now)
                  == Intake.RefreshFrom(ps.setup, old(SenseView()), live, 0, now)
      {
        RefreshField(i, live[i], now);
        i := i + 1;
      }
    }

    method Reresolve(live: seq<seq<Raw>>, now: int)
      requires Intake.Shaped(ps.setup, sources) && Intake.LiveShaped(ps.setup, live)
      modifies `sources, `observed, `lastOK, `lastErr, `errors, `blocked
      ensures View() == Engine.Resolved(ps, old(View()), live, now)
    {
      ResolveAgain(live, now);
    }

    /** `refreshNow`: re-resolve every field, then flush with every field named. */
    method RefreshNow(live: seq<seq<Raw>>, g: Engine.Gate, now: int) returns (err: Option<Err>)
      requires Intake.Shaped(ps.setup, sources) && Intake.LiveShaped(ps.setup, live)
      modifies `sources, `observed, `lastOK, `lastErr, `errors, `blocked,
               `applied, `version, `lastGood, `history, `log, `refused, `cfg, `emitted
      ensures Engine.Flushed(View(), err) == Engine.OnRefresh(ps, old(View()), live, g, now)
    {
      Reresolve(live, now);
      err := Flush(ps.setup.specs != [], g, now);
    }

    // -------------------------------------------------------------- runs

    method HandlePinAt(v: nat)
      modifies `pinned, `pinnedVersion, `pinnedConfig, `pinnedApplied, `cfg
      ensures View() == Engine.OnPinAt(old(View()), v).state
    {
      var _ := PinAt(v);
    }

    method HandlePinCurrent()
      modifies `pinned, `pinnedVersion, `pinnedConfig, `pinnedApplied, `cfg
      ensures View() == Engine.OnPinCurrent(old(View())).state
    {
      var _ := PinCurrent();
    }

    method HandleUnpin()
      modifies `pinned, `pinnedApplied, `cfg, `emitted
      ensures View() == Engine.OnUnpin(ps, old(View())).state
    {
      var _ := Unpin();
    }

    method HandlePin(e: Engine.Event, ghost clock: int)
      requires Intake.Shaped(ps.setup, sources) && Engine.Enabled(ps, View(), e, clock) && (e.PinAt? || e.PinCurrent? || e.Unpin?)
      modifies `pinned, `pinnedVersion, `pinnedConfig, `pinnedApplied, `cfg, `emitted
      ensures View() == Engine.Step(ps, old(View()), e, clock)
    {
      match e
      case PinAt(v) => HandlePinAt(v);
      case PinCurrent => HandlePinCurrent();
      case Unpin => HandleUnpin();
    }

    /** One turn of the loop's select. */
    method Handle(e: Engine.Event, ghost clock: int)
      requires Intake.Shaped(ps.setup, sources) && Engine.Enabled(ps, View(), e, clock)
      modifies this
      ensures View() == Engine.Step(ps, old(View()), e, clock)
    {
      match e
      case Update(idx, pos, up, now) => HandleUpdate(idx, pos, up, now);
      case Fire(g, now) => HandleTimer(g, now);
      case Refresh(live, g, now) => var _ := RefreshNow(live, g, now);
      case _ => HandlePin(e, clock);
    }

    /** Handling any list of events, one after the other, is the run the laws are about. */
    method Run(es: seq<Engine.Event>, ghost clock: int)
      requires EngineRuns.Runs(ps, View(), es, clock)
      modifies this
      ensures View() == EngineRuns.Exec(ps, old(View()), es, clock)
    {
      ghost var now := clock;
      var i := 0;
      assert es[0..] == es;
      while i < |es|
        invariant 0 <= i <= |es|
        invariant EngineRuns.Runs(ps, View(), es[i..], now)
        invariant EngineRuns.Exec(ps, View(), es[i..], now) == EngineRuns.Exec(ps, old(View()), es, clock)
      {
        assert es[i..][0] == es[i] && es[i..][1..] == es[i + 1..];
        Handle(es[i], now);
        now := Engine.Clock(es[i], now);
        i := i + 1;
      }
    }
  }
}
