/** What the engine's operations mean, said without the functions that compute them: how a
    candidate comes about, what the gate's answer does, what a pin pins, and which derived paths
    a Change lists. */
module EngineMeaning {
  import opened Values
  import opened Chain
  import opened Intake
  import opened IntakeLaws
  import opened Engine
  import opened EngineLaws
  import opened EngineRuns
  import IntakeMeaning

  // ---------------------------------------------------------------- building a candidate

  /** `cs` starts at the zero configuration and sets, in spec order, each of the first `n` spec
      fields that has a value to its bytes. */
  ghost predicate DecodedTo<T>(specs: seq<FieldSpec>, h: Hooks<T>, obs: map<string, Value>, cs: seq<T>, n: nat) {
    && n <= |specs| && |cs| == n + 1 && cs[0] == h.zero
    && forall i :: 0 <= i < n ==>
         if specs[i].path in obs then h.setField(cs[i], specs[i].path, obs[specs[i].path].bytes) == Ok(cs[i + 1])
         else cs[i + 1] == cs[i]
  }

  /** `ds` starts at `start`, and each of the first `n` derive hooks takes an element to the next. */
  ghost predicate DerivedTo<T>(h: Hooks<T>, start: T, ds: seq<T>, n: nat) {
    && n <= |h.derives| && |ds| == n + 1 && ds[0] == start
    && forall k :: 0 <= k < n ==> h.derives[k].fn(ds[k]) == Ok(ds[k + 1])
  }

  lemma {:induction false} DecodeAlong<T>(specs: seq<FieldSpec>, h: Hooks<T>, obs: map<string, Value>, cs: seq<T>, n: nat)
    requires DecodedTo(specs, h, obs, cs, n)
    ensures DecodeFrom(specs, h, obs, 0, h.zero) == DecodeFrom(specs, h, obs, n, cs[n])
    decreases n
  {
    if n > 0 {
      var before := cs[..n];
      assert forall i :: 0 <= i < n ==> before[i] == cs[i];
      DecodeAlong(specs, h, obs, before, n - 1);
    }
  }

  lemma {:induction false} DeriveAlong<T>(h: Hooks<T>, start: T, ds: seq<T>, n: nat)
    requires DerivedTo(h, start, ds, n)
    ensures DeriveFrom(h, 0, start) == DeriveFrom(h, n, ds[n])
    decreases n
  {
    if n > 0 {
      var before := ds[..n];
      assert forall i :: 0 <= i < n ==> before[i] == ds[i];
      DeriveAlong(h, start, before, n - 1);
    }
  }

  /** As far as decoding gets: to the end, or to the first field that will not decode. */
  lemma {:induction false} DecodeTrace<T>(specs: seq<FieldSpec>, h: Hooks<T>, obs: map<string, Value>, cs: seq<T>, n: nat)
    returns (all: seq<T>, m: nat)
    requires DecodedTo(specs, h, obs, cs, n)
    ensures DecodedTo(specs, h, obs, all, m)
    ensures m < |specs| ==> specs[m].path in obs && h.setField(all[m], specs[m].path, obs[specs[m].path].bytes).Bad?
    decreases |specs| - n
  {
    all, m := cs, n;
    if n < |specs| {
      var p := specs[n].path;
      if p !in obs {
        all, m := DecodeTrace(specs, h, obs, cs + [cs[n]], n + 1);
      } else if h.setField(cs[n], p, obs[p].bytes).Ok? {
        all, m := DecodeTrace(specs, h, obs, cs + [h.setField(cs[n], p, obs[p].bytes).value], n + 1);
      }
    }
  }

  lemma {:induction false} DeriveTrace<T>(h: Hooks<T>, start: T, ds: seq<T>, n: nat) returns (all: seq<T>, m: nat)
    requires DerivedTo(h, start, ds, n)
    ensures DerivedTo(h, start, all, m)
    ensures m < |h.derives| ==> h.derives[m].fn(all[m]).Bad?
    decreases |h.derives| - n
  {
    all, m := ds, n;
    if n < |h.derives| && h.derives[n].fn(ds[n]).Ok? {
      all, m := DeriveTrace(h, start, ds + [h.derives[n].fn(ds[n]).value], n + 1);
    }
  }

  /** A candidate that builds: every observed field decoded in order, every derive hook run in
      order on the result, and the outcome valid. */
  ghost predicate Built<T>(specs: seq<FieldSpec>, h: Hooks<T>, obs: map<string, Value>, cs: seq<T>, ds: seq<T>, c: T) {
    && DecodedTo(specs, h, obs, cs, |specs|)
    && DerivedTo(h, cs[|specs|], ds, |h.derives|)
    && ds[|h.derives|] == c && h.validate(c).None?
  }

  /** The error of the first stage, and within it the first step, that fails, in its own class. */
  ghost predicate Failing<T>(specs: seq<FieldSpec>, h: Hooks<T>, obs: map<string, Value>, cs: seq<T>, m: nat, ds: seq<T>, n: nat, e: Err) {
    && DecodedTo(specs, h, obs, cs, m)
    && if m < |specs| then
         specs[m].path in obs && h.setField(cs[m], specs[m].path, obs[specs[m].path].bytes).Bad?
         && e == ValidationErr(h.setField(cs[m], specs[m].path, obs[specs[m].path].bytes).err)
       else
         && DerivedTo(h, cs[m], ds, n)
         && if n < |h.derives| then h.derives[n].fn(ds[n]).Bad? && e == DeriveErr(h.derives[n].fn(ds[n]).err)
            else h.validate(ds[n]).Some? && e == ValidationErr(h.validate(ds[n]).value)
  }

  lemma BuiltIsBuild<T>(specs: seq<FieldSpec>, h: Hooks<T>, obs: map<string, Value>, cs: seq<T>, ds: seq<T>, c: T)
    requires Built(specs, h, obs, cs, ds, c)
    ensures BuildConfig(specs, h, obs) == Ok(c)
  {
    DecodeAlong(specs, h, obs, cs, |specs|);
    DeriveAlong(h, cs[|specs|], ds, |h.derives|);
  }

  lemma FailingIsBuild<T>(specs: seq<FieldSpec>, h: Hooks<T>, obs: map<string, Value>, cs: seq<T>, m: nat, ds: seq<T>, n: nat, e: Err)
    requires Failing(specs, h, obs, cs, m, ds, n, e)
    ensures BuildConfig(specs, h, obs) == Bad(e)
  {
    DecodeAlong(specs, h, obs, cs, m);
    if m == |specs| {
      DeriveAlong(h, cs[m], ds, n);
    }
  }

  /** Every set of observed values builds a candidate or fails at some first step. */
  lemma BuildsOrFails<T>(specs: seq<FieldSpec>, h: Hooks<T>, obs: map<string, Value>) returns (cs: seq<T>, m: nat, ds: seq<T>, n: nat)
    ensures if BuildConfig(specs, h, obs).Ok? then Built(specs, h, obs, cs, ds, BuildConfig(specs, h, obs).value)
            else Failing(specs, h, obs, cs, m, ds, n, BuildConfig(specs, h, obs).err)
  {
    cs, m := DecodeTrace(specs, h, obs, [h.zero], 0);
    ds, n := [cs[m]], 0;
    if m < |specs| {
      FailingIsBuild(specs, h, obs, cs, m, ds, n, ValidationErr(h.setField(cs[m], specs[m].path, obs[specs[m].path].bytes).err));
    } else {
      ds, n := DeriveTrace(h, cs[m], [cs[m]], 0);
      if n < |h.derives| {
        FailingIsBuild(specs, h, obs, cs, m, ds, n, DeriveErr(h.derives[n].fn(ds[n]).err));
      } else if h.validate(ds[n]).Some? {
        FailingIsBuild(specs, h, obs, cs, m, ds, n, ValidationErr(h.validate(ds[n]).value));
      } else {
        BuiltIsBuild(specs, h, obs, cs, ds, ds[n]);
      }
    }
  }

  /** The candidate is `c` if and only if decoding, deriving and validating leads to `c`; and the
      error is `e` if and only if `e` is that of the first step that fails. */
  lemma BuildMeans<T>(specs: seq<FieldSpec>, h: Hooks<T>, obs: map<string, Value>, c: T, e: Err)
    ensures BuildConfig(specs, h, obs) == Ok(c) <==> exists cs, ds :: Built(specs, h, obs, cs, ds, c)
    ensures BuildConfig(specs, h, obs) == Bad(e) <==> exists cs, m, ds, n :: Failing(specs, h, obs, cs, m, ds, n, e)
  {
    var cs, m, ds, n := BuildsOrFails(specs, h, obs);
    if cs', ds' :| Built(specs, h, obs, cs', ds', c) {
      BuiltIsBuild(specs, h, obs, cs', ds', c);
    }
    if cs', m', ds', n' :| Failing(specs, h, obs, cs', m', ds', n', e) {
      FailingIsBuild(specs, h, obs, cs', m', ds', n', e);
    }
  }

  // ---------------------------------------------------------------- the gate's own answer

  /** What a gate that is asked comes back with: its hook's own error first, then an expired
      context. */
  ghost predicate Answers(hasGate: bool, g: Gate, err: Option<Err>) {
    && (err.None? <==> !hasGate || (g.hookErr.None? && g.ctxErr.None?))
    && (hasGate && g.hookErr.Some? ==> err == Some(PreApplyErr(g.hookErr.value)))
    && (hasGate && g.hookErr.None? && g.ctxErr.Some? ==> err == Some(PreApplyErr(g.ctxErr.value)))
  }

  /** With nothing blocked, a candidate that builds and something to show: the flush fails exactly
      if the gate's hook or its context says so, with that error and with nothing moved; and
      otherwise the candidate is the next version. */
  lemma GateDecides<T>(ps: Params<T>, s: State<T>, g: Gate, now: int)
    requires ValidSpecs(ps.setup.specs) && s.front.sense.blocked == {}
    requires BuildConfig(ps.setup.specs, ps.hooks, s.front.sense.observed).Ok?
    requires Fields(ps, s, BuildConfig(ps.setup.specs, ps.hooks, s.front.sense.observed).value) != []
    ensures var cand, fl := BuildConfig(ps.setup.specs, ps.hooks, s.front.sense.observed).value, Flush(ps, s, true, g, now);
            && Answers(ps.hasGate, g, fl.err)
            && (fl.err.Some? ==> Untouched(ps.setup.specs, s, fl.state))
            && (fl.err.None? ==> fl.state.book.version == s.book.version + 1 && fl.state.book.lastGood == cand)
  {
    if Flush(ps, s, true, g, now).err.Some? {
      FlushErrorMovesNothing(ps, s, true, g, now);
    }
  }

  /** A load fails with the candidate's error, or exactly if the gate says so with the gate's;
      otherwise it serves the candidate as version 1, shown in full, with nothing pinned, pending,
      blocked or reported, every value fresh as of `now`, and one snapshot of that moment. */
  lemma LoadMeans<T>(ps: Params<T>, obs: map<string, Value>, sources: seq<seq<SrcState>>, g: Gate, now: int)
    ensures var built, l := BuildConfig(ps.setup.specs, ps.hooks, obs), Load(ps, obs, sources, g, now);
            && (built.Bad? ==> l == Bad(built.err))
            && (built.Ok? ==> Answers(ps.hasGate, g, if l.Bad? then Some(l.err) else None))
            && (l.Ok? ==> Started(ps, obs, sources, now, l.value))
  {
  }

  ghost predicate Started<T>(ps: Params<T>, obs: map<string, Value>, sources: seq<seq<SrcState>>, now: int, s: State<T>) {
    && BuildConfig(ps.setup.specs, ps.hooks, obs) == Ok(s.out.cfg) && s.book.lastGood == s.out.cfg && s.out.emitted == []
    && s.book.version == 1 && |s.book.history| == 1 && s.book.refused.None?
    && s.book.history[0].at == now && s.book.history[0].fields == [] && s.book.history[0].config == s.out.cfg
    && !s.pin.pinned && s.front.batch.pending == {} && s.front.batch.timer.None?
    && s.front.sense.observed == obs && s.front.sense.sources == sources && s.front.sense.blocked == {} && s.front.sense.errors == []
    && s.front.sense.lastErr == map[] && s.front.sense.lastOK.Keys == obs.Keys && (forall p :: p in obs ==> s.front.sense.lastOK[p] == now)
    && (forall p :: p in obs ==> p in s.book.applied && s.book.applied[p] == obs[p].version)
  }

  /** What was accepted, if anything was, carries the time `now` and the gate's answer `g`, and is
      the newest retained. */
  ghost predicate Stamped<T>(s: Book<T>, t: Book<T>, g: Gate, now: int) {
    |t.log| > |s.log| ==> t.history != [] && Last(t.log).snap.at == now && Last(t.log).gate == g && Last(t.history) == Last(t.log).snap
  }

  lemma AcceptedNow<T>(ps: Params<T>, s: State<T>, nonEmpty: bool, g: Gate, now: int)
    ensures var t := Flush(ps, s, nonEmpty, g, now).state; t.front.batch == s.front.batch && Stamped(s.book, t.book, g, now)
  {
  }

  /** The state the flush of a timer or of a refresh starts from. */
  ghost function BeforeFlush<T>(ps: Params<T>, s: State<T>, e: Event, clock: int): State<T>
    requires Shaped(ps.setup, s.front.sense.sources) && Enabled(ps, s, e, clock)
  {
    if e.Refresh? then Resolved(ps, s, e.live, e.now) else s
  }

  /** The timer leaves no batch and no timer, a refresh leaves both as they were, and what either
      accepts carries its own time and its own gate's answer. */
  lemma FireMeans<T>(ps: Params<T>, s: State<T>, e: Event, clock: int)
    requires Shaped(ps.setup, s.front.sense.sources) && Enabled(ps, s, e, clock) && (e.Fire? || e.Refresh?)
    ensures e.Fire? ==> Step(ps, s, e, clock).front.batch.pending == {} && Step(ps, s, e, clock).front.batch.timer.None?
    ensures e.Refresh? ==> Step(ps, s, e, clock).front.batch == s.front.batch
    ensures Stamped(s.book, Step(ps, s, e, clock).book, e.gate, e.now)
  {
    if e.Fire? {
      AcceptedNow(ps, s, s.front.batch.pending != {}, e.gate, e.now);
    } else {
      AcceptedNow(ps, Resolved(ps, s, e.live, e.now), ps.setup.specs != [], e.gate, e.now);
    }
  }

  /** `t` has taken `cand` over as the next version if `err` is none, and has otherwise only
      reported `err`: what Get serves, the version and every spec's applied version stay. */
  ghost predicate TakenOrRefused<T>(ps: Params<T>, s: State<T>, cand: T, err: Option<Err>, t: State<T>) {
    match err
    case None => t.book.version == s.book.version + 1 && t.book.lastGood == cand && (!s.pin.pinned ==> t.out.cfg == cand)
    case Some(e) =>
      && t.out == s.out && t.book.version == s.book.version && t.book.lastGood == s.book.lastGood
      && SameOnSpecs(ps.setup.specs, s.book.applied, t.book.applied)
      && t.front.sense.errors == s.front.sense.errors + [e]
  }

  /** A timer that fires over a batch, or a refresh, with nothing blocked, a candidate that builds
      and something to show: the event's own gate answer decides, and nothing else does. */
  lemma GateDecidesStep<T>(ps: Params<T>, s: State<T>, e: Event, clock: int, cand: T, err: Option<Err>)
    requires Shaped(ps.setup, s.front.sense.sources) && Enabled(ps, s, e, clock) && ps.setup.specs != []
    requires (e.Fire? && s.front.batch.pending != {}) || e.Refresh?
    requires var r := BeforeFlush(ps, s, e, clock);
             && r.front.sense.blocked == {} && BuildConfig(ps.setup.specs, ps.hooks, r.front.sense.observed) == Ok(cand)
             && Fields(ps, r, cand) != [] && Answers(ps.hasGate, e.gate, err)
    ensures TakenOrRefused(ps, BeforeFlush(ps, s, e, clock), cand, err, Step(ps, s, e, clock))
  {
    var r := BeforeFlush(ps, s, e, clock);
    GateDecides(ps, r, e.gate, e.now);
    if err.Some? {
      FlushErrorMovesNothing(ps, r, true, e.gate, e.now);
    } else {
      TakenIsServed(ps, r, e.gate, e.now);
    }
  }

  lemma TakenIsServed<T>(ps: Params<T>, s: State<T>, g: Gate, now: int)
    ensures var t := Flush(ps, s, true, g, now).state; t.book.version > s.book.version && !s.pin.pinned ==> t.out.cfg == t.book.lastGood
  {
  }

  /** With nothing blocked, a candidate that does not build is reported with its own error and
      changes nothing but that; with anything blocked nothing is even reported. */
  lemma UnbuiltStep<T>(ps: Params<T>, s: State<T>, e: Event, clock: int, err: Err)
    requires Shaped(ps.setup, s.front.sense.sources) && Enabled(ps, s, e, clock) && ps.setup.specs != []
    requires (e.Fire? && s.front.batch.pending != {}) || e.Refresh?
    requires var r := BeforeFlush(ps, s, e, clock);
             r.front.sense.blocked == {} ==> BuildConfig(ps.setup.specs, ps.hooks, r.front.sense.observed) == Bad(err)
    ensures var r, t := BeforeFlush(ps, s, e, clock), Step(ps, s, e, clock);
            && t.out == r.out && t.pin == r.pin && t.book == r.book.(refused := t.book.refused)
            && t.front.sense.errors == r.front.sense.errors + if r.front.sense.blocked == {} then [err] else []
  {
  }

  /** An update's step is what IntakeMeaning says of an update, and nothing past the intake. */
  lemma UpdateStepMeans<T>(ps: Params<T>, s: State<T>, e: Event, clock: int, k: nat)
    requires Inv(ps, s, clock) && Enabled(ps, s, e, clock) && e.Update?
    ensures var t, spec := Step(ps, s, e, clock), ps.setup.specs[e.idx];
            && t == s.(front := t.front) && Shaped(ps.setup, t.front.sense.sources)
            && IntakeMeaning.OneRemembered(ps.setup, s.front.sense, t.front.sense, e.idx, e.pos, e.up)
            && (IntakeMeaning.DecidesMem(t.front.sense.sources[e.idx], k) ==>
                  IntakeMeaning.FollowsState(spec, k, t.front.sense.sources[e.idx][k], s.front.sense, t.front.sense))
            && (IntakeMeaning.AllPass(t.front.sense.sources[e.idx]) ==>
                  IntakeMeaning.Follows(spec, Absent(ErrNotFound), s.front.sense.(sources := t.front.sense.sources), t.front.sense))
            && IntakeMeaning.JoinedAt(s.front.batch, t.front.batch, e.now)
            && IntakeMeaning.JoinsIfChanged(spec, s.front, t.front, e.now)
  {
    IntakeMeaning.UpdateMeans(ps.setup, s.front, s.book.applied, e.idx, e.pos, e.up, e.now, k);
    IntakeMeaning.UpdateJoinsNow(ps.setup, s.front, s.book.applied, e.idx, e.pos, e.up, e.now);
  }

  // ---------------------------------------------------------------- what a refresh picks up

  /** The refresh step, for every field: what IntakeMeaning says of re-resolving, and the flush
      that follows touches none of it. */
  lemma RefreshStepMeans<T>(ps: Params<T>, s: State<T>, e: Event, clock: int, k: nat)
    requires Inv(ps, s, clock) && Enabled(ps, s, e, clock) && e.Refresh? && k < |ps.setup.specs|
    ensures IntakeMeaning.FieldRefreshed(ps.setup, s.front.sense, Step(ps, s, e, clock).front.sense, k, e.live[k])
  {
    var r := Resolved(ps, s, e.live, e.now);
    IntakeMeaning.RefreshMeans(ps.setup, s.front.sense, e.live, e.now, k);
    FlushKeepsSense(ps, r, ps.setup.specs != [], e.gate, e.now);
    SameFieldRefreshed(ps.setup, s.front.sense, r.front.sense, Step(ps, s, e, clock).front.sense, k, e.live[k]);
  }

  lemma FlushKeepsSense<T>(ps: Params<T>, s: State<T>, nonEmpty: bool, g: Gate, now: int)
    ensures var t := Flush(ps, s, nonEmpty, g, now).state.front.sense;
            t.observed == s.front.sense.observed && t.sources == s.front.sense.sources && t.blocked == s.front.sense.blocked
  {
  }

  lemma SameFieldRefreshed(su: Setup, s: Sense, r: Sense, t: Sense, k: nat, raws: seq<Raw>)
    requires k < |su.specs| && |raws| == |su.specs[k].refs| >= 1 && IntakeMeaning.FieldRefreshed(su, s, r, k, raws)
    requires t.observed == r.observed && t.sources == r.sources && t.blocked == r.blocked
    ensures IntakeMeaning.FieldRefreshed(su, s, t, k, raws)
  {
  }

  // ---------------------------------------------------------------- what a pin pins

  /** The version Get is serving: the pinned one, or the newest. */
  function Serving<T>(s: State<T>): nat {
    if s.pin.pinned then s.pin.version else s.book.version
  }

  /** Get is pinned at version `v` of the log, and nothing else has moved. */
  ghost predicate PinnedAt<T>(ps: Params<T>, s: State<T>, t: State<T>, v: nat) {
    && 1 <= v <= |s.book.log|
    && t.pin.pinned && t.pin.version == v && t.pin.config == t.out.cfg == s.book.log[v - 1].snap.config
    && SameOnSpecs(ps.setup.specs, t.pin.applied, s.book.log[v - 1].snap.applied)
    && t.book == s.book && t.front == s.front && t.out.emitted == s.out.emitted
  }

  /** PinCurrent pins what Get serves, which stays, and says which version that is. */
  lemma PinCurrentPins<T>(ps: Params<T>, s: State<T>, clock: int)
    requires Inv(ps, s, clock)
    ensures var h := OnPinCurrent(s);
            PinnedAt(ps, s, h.state, Serving(s)) && h.state.out.cfg == s.out.cfg && h.reply == Reply(Serving(s), None)
  {
  }

  /** Pin(v) pins version `v` and says so if it is current or among the newest prior ones kept,
      and otherwise changes nothing and says that it is not retained. */
  lemma PinAtPins<T>(ps: Params<T>, s: State<T>, clock: int, v: nat)
    requires Inv(ps, s, clock)
    ensures var h := OnPinAt(s, v);
            if 1 <= v <= s.book.version && s.book.version - v <= ps.historyN
            then PinnedAt(ps, s, h.state, v) && h.reply == Reply(v, None)
            else h.state == s && h.reply == Reply(0, Some(NoSuchSnapshot))
  {
    PinFindsRetained(ps, s.book, s.front.sense.observed, v);
  }

  /** While pinned, a run without pin commands serves the one configuration and emits nothing. */
  lemma {:induction false} FrozenRun<T>(ps: Params<T>, s: State<T>, es: seq<Event>, clock: int)
    requires Runs(ps, s, es, clock) && s.pin.pinned && NoPins(es)
    ensures Exec(ps, s, es, clock).pin == s.pin && Exec(ps, s, es, clock).out == s.out
    decreases |es|
  {
    if es != [] {
      assert es[0].Update? || es[0].Fire? || es[0].Refresh?;
      PinnedFreezesGet(ps, s, es[0], clock);
      assert forall i :: 0 <= i < |es[1..]| ==> es[1..][i] == es[i + 1];
      FrozenRun(ps, Step(ps, s, es[0], clock), es[1..], Clock(es[0], clock));
    }
  }

  /** A command that pins: PinCurrent, or Pin of a version still kept. */
  ghost predicate Pins<T>(ps: Params<T>, s: State<T>, pin: Event) {
    pin.PinCurrent? || (pin.PinAt? && 1 <= pin.version <= s.book.version && s.book.version - pin.version <= ps.historyN)
  }

  /** `t` serves what `pin` pinned in `s`, and has announced nothing since. */
  ghost predicate Held<T>(s: State<T>, pin: Event, t: State<T>) {
    var v := if pin.PinAt? then pin.version else Serving(s);
    && 1 <= v <= |s.book.log| && t.pin.pinned && t.pin.version == v
    && t.out.cfg == s.book.log[v - 1].snap.config && t.out.emitted == s.out.emitted
    && (pin.PinCurrent? ==> t.out.cfg == s.out.cfg)
  }

  lemma PinThenHolds<T>(ps: Params<T>, s: State<T>, pin: Event, more: seq<Event>, clock: int)
    requires Inv(ps, s, clock) && NoPins(more) && Pins(ps, s, pin)
    requires Runs(ps, Step(ps, s, pin, clock), more, clock)
    ensures Held(s, pin, Exec(ps, Step(ps, s, pin, clock), more, clock))
  {
    if pin.PinCurrent? {
      PinCurrentPins(ps, s, clock);
    } else {
      PinAtPins(ps, s, clock, pin.version);
    }
    FrozenRun(ps, Step(ps, s, pin, clock), more, clock);
  }

  /** After any run: from a PinCurrent, or a Pin of a version still kept, until the next pin
      command, however many updates, flushes and refreshes come in between, Get serves the
      configuration that was pinned. */
  lemma PinHolds<T>(
    ps: Params<T>, obs: map<string, Value>, sources: seq<seq<SrcState>>, g: Gate, start: int, s0: State<T>,
    es: seq<Event>, s: State<T>, pin: Event, more: seq<Event>, t: State<T>)
    requires Loaded(ps, obs, sources, g, start, s0) && RunsTo(ps, s0, es, start, s)
    requires Pins(ps, s, pin) && NoPins(more) && RunsTo(ps, s, [pin] + more, EndClock(es, start), t)
    ensures Held(s, pin, t)
  {
    assert Inv(ps, s, EndClock(es, start)) by {
      LoadEstablishes(ps, obs, sources, g, start, s0);
      RunKeeps(ps, s0, es, start);
    }
    assert ([pin] + more)[1..] == more;
    PinThenHolds(ps, s, pin, more, EndClock(es, start));
  }

  // ---------------------------------------------------------------- derived paths

  /** Some derive hook declares that it writes `p`. */
  ghost predicate Declared<T>(h: Hooks<T>, p: string) {
    exists k :: 0 <= k < |h.derives| && p in h.derives[k].writes
  }

  /** `f` says of a declared path outside the specs that it reads differently now: the hash of
      what it read, then the hash of what it reads. */
  ghost predicate DerivedMove<T>(specs: seq<FieldSpec>, h: Hooks<T>, was: T, becomes: T, f: FieldChange) {
    && Declared(h, f.path) && (forall i :: 0 <= i < |specs| ==> specs[i].path != f.path)
    && h.readPath(was, f.path).Some? && h.readPath(becomes, f.path).Some?
    && h.readPath(was, f.path).value != h.readPath(becomes, f.path).value
    && f.oldVersion == h.contentHash(h.readPath(was, f.path).value)
    && f.newVersion == h.contentHash(h.readPath(becomes, f.path).value)
  }

  lemma {:induction false} WritesMean<T>(h: Hooks<T>, i: nat, p: string)
    requires i <= |h.derives|
    ensures p in WritesFrom(h.derives, i) <==> exists k :: i <= k < |h.derives| && p in h.derives[k].writes
    decreases |h.derives| - i
  {
    if i < |h.derives| {
      WritesMean(h, i + 1, p);
    }
  }

  /** `p` is declared at or after `i` and, counting from there, not for the second time. */
  ghost predicate FirstFrom(writes: seq<string>, i: nat, p: string)
    requires i <= |writes|
  {
    p in writes[i..] && p !in writes[..i]
  }

  ghost predicate Listed<T>(specs: seq<FieldSpec>, h: Hooks<T>, was: T, becomes: T, f: FieldChange) {
    && f.path !in Paths(specs)
    && h.readPath(was, f.path).Some? && h.readPath(becomes, f.path).Some?
    && h.readPath(was, f.path).value != h.readPath(becomes, f.path).value
    && f == FieldChange(f.path, h.contentHash(h.readPath(was, f.path).value), h.contentHash(h.readPath(becomes, f.path).value))
  }

  lemma {:induction false} DerivedFromMeans<T>(specs: seq<FieldSpec>, h: Hooks<T>, writes: seq<string>, i: nat, was: T, becomes: T, f: FieldChange)
    requires i <= |writes|
    ensures f in DerivedFrom(specs, h, writes, i, was, becomes) <==> FirstFrom(writes, i, f.path) && Listed(specs, h, was, becomes, f)
    decreases |writes| - i
  {
    if i < |writes| {
      DerivedFromMeans(specs, h, writes, i + 1, was, becomes, f);
      assert writes[..i + 1] == writes[..i] + [writes[i]];
      assert writes[i..] == [writes[i]] + writes[i + 1..];
    }
  }

  /** A Change lists, outside the specs, exactly the declared paths that read differently, with
      the hashes of both readings. */
  lemma DerivedMeans<T>(specs: seq<FieldSpec>, h: Hooks<T>, was: T, becomes: T, f: FieldChange)
    ensures f in DerivedChanges(specs, h, was, becomes) <==> DerivedMove(specs, h, was, becomes, f)
  {
    var writes := WritesFrom(h.derives, 0);
    DerivedFromMeans(specs, h, writes, 0, was, becomes, f);
    WritesMean(h, 0, f.path);
    assert writes[0..] == writes && writes[..0] == [];
  }

  /** Unpin's Change lists derived paths between the configuration served and the live one. */
  lemma UnpinListsDerived<T>(ps: Params<T>, s: State<T>, clock: int, f: FieldChange)
    requires Inv(ps, s, clock) && s.pin.pinned && f.path !in Paths(ps.setup.specs)
    ensures f in DiffApplied(ps, s.pin.applied, s.book.applied, s.pin.config, s.book.lastGood)
            <==> DerivedMove(ps.setup.specs, ps.hooks, s.out.cfg, s.book.lastGood, f)
  {
    DerivedMeans(ps.setup.specs, ps.hooks, s.pin.config, s.book.lastGood, f);
    DiffMapsInSpecs(ps.setup.specs, s.pin.applied, s.book.applied, 0, f);
  }

  lemma {:induction false} DiffMapsInSpecs(specs: seq<FieldSpec>, before: map<string, string>, after: map<string, string>, i: nat, f: FieldChange)
    requires i <= |specs| && f.path !in Paths(specs)
    ensures f !in DiffMapsFrom(specs, before, after, i)
    decreases |specs| - i
  {
    if i < |specs| {
      DiffMapsInSpecs(specs, before, after, i + 1, f);
    }
  }
}
