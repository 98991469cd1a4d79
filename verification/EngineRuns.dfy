/** The engine's promises over whole runs. */
module EngineRuns {
  import opened Values
  import opened Chain
  import opened Intake
  import opened IntakeLaws
  import opened Engine
  import opened EngineLaws

  /** A run: every event is enabled where it happens, and time never goes backwards. */
  ghost predicate Runs<T>(ps: Params<T>, s: State<T>, es: seq<Event>, clock: int)
    decreases |es|
  {
    es == []
    || (&& Shaped(ps.setup, s.front.sense.sources)
        && Enabled(ps, s, es[0], clock)
        && Runs(ps, Step(ps, s, es[0], clock), es[1..], Clock(es[0], clock)))
  }

  ghost function Exec<T>(ps: Params<T>, s: State<T>, es: seq<Event>, clock: int): State<T>
    requires Runs(ps, s, es, clock)
    decreases |es|
  {
    if es == [] then s else Exec(ps, Step(ps, s, es[0], clock), es[1..], Clock(es[0], clock))
  }

  ghost function EndClock(es: seq<Event>, clock: int): int
    decreases |es|
  {
    if es == [] then clock else EndClock(es[1..], Clock(es[0], clock))
  }

  ghost predicate RunsTo<T>(ps: Params<T>, s: State<T>, es: seq<Event>, clock: int, t: State<T>) {
    Runs(ps, s, es, clock) && Exec(ps, s, es, clock) == t
  }

  lemma RunNothing<T>(ps: Params<T>, s: State<T>, clock: int)
    ensures RunsTo(ps, s, [], clock, s)
  {
  }

  lemma RunFirst<T>(ps: Params<T>, s: State<T>, e: Event, rest: seq<Event>, clock: int, t: State<T>)
    requires Shaped(ps.setup, s.front.sense.sources) && Enabled(ps, s, e, clock)
    requires RunsTo(ps, Step(ps, s, e, clock), rest, Clock(e, clock), t)
    ensures RunsTo(ps, s, [e] + rest, clock, t)
  {
    assert ([e] + rest)[1..] == rest;
  }

  lemma {:induction false} RunKeeps<T>(ps: Params<T>, s: State<T>, es: seq<Event>, clock: int)
    requires Inv(ps, s, clock) && Runs(ps, s, es, clock)
    ensures Inv(ps, Exec(ps, s, es, clock), EndClock(es, clock))
    decreases |es|
  {
    if es != [] {
      StepKeeps(ps, s, es[0], clock);
      RunKeeps(ps, Step(ps, s, es[0], clock), es[1..], Clock(es[0], clock));
    }
  }

  // ---------------------------------------------------------------- no stranded change

  /** In every reachable state, a spec field whose observed version is not applied is in the
      batch with the timer armed, or an onfail:"fail" field blocks every flush, or its observed
      value is the very one the last unblocked flush attempt was refused with - so a change that
      comes after a refusal is never left to it. */
  lemma NoStrandedChange<T>(
    ps: Params<T>, obs: map<string, Value>, sources: seq<seq<SrcState>>, g: Gate, start: int, s0: State<T>, es: seq<Event>, k: nat)
    requires Loaded(ps, obs, sources, g, start, s0) && Runs(ps, s0, es, start) && k < |ps.setup.specs|
    ensures var s := Exec(ps, s0, es, start);
            var path := ps.setup.specs[k].path;
            path in s.front.sense.observed && Ver(s.book.applied, path) != s.front.sense.observed[path].version ==>
              || (ps.setup.specs[k].path in s.front.batch.pending && s.front.batch.timer.Some?)
              || (exists i :: 0 <= i < |ps.setup.specs| && ps.setup.specs[i].onFail.Fail? && ps.setup.specs[i].path in s.front.sense.blocked)
              || SeenRefused(s.front.sense.observed, s.book.refused, ps.setup.specs[k].path)
  {
    LoadEstablishes(ps, obs, sources, g, start, s0);
    RunKeeps(ps, s0, es, start);
    var s := Exec(ps, s0, es, start);
    if s.front.sense.blocked != {} {
      var p :| p in s.front.sense.blocked;
      assert p in FailPaths(ps.setup.specs);
    }
  }

  // ---------------------------------------------------------------- gate coverage

  /** Sources keep their word along a run: what they deliver is sound for its path. */
  ghost predicate SoundEvent(truth: (string, string) -> string, su: Setup, e: Event) {
    match e
    case Update(idx, pos, up, _) =>
      idx < |su.specs| && pos < |su.specs[idx].refs| ==>
        SoundState(truth, su.specs[idx].path, Settle(su.decode, su.specs[idx], su.specs[idx].refs[pos], up))
    case Refresh(live, _, _) => LiveShaped(su, live) ==> SoundLive(truth, su, live)
    case _ => true
  }

  ghost predicate SoundLog<T>(truth: (string, string) -> string, log: seq<Accepted<T>>) {
    forall i :: 0 <= i < |log| ==> SoundObs(truth, log[i].obs)
  }

  /** Every spec field whose bytes differ from the superseded snapshot's was shown to the
      gate, with the version whose bytes are now being served. */
  ghost predicate Covered(specs: seq<FieldSpec>, before: map<string, Value>, after: map<string, Value>, shown: seq<FieldChange>) {
    forall k :: 0 <= k < |specs| && BytesOf(before, specs[k].path) != BytesOf(after, specs[k].path) ==>
      FieldChange(specs[k].path, VerOf(before, specs[k].path), VerOf(after, specs[k].path)) in shown
  }

  /** The exact condition under which a version diff covers a change of bytes: wherever
      the versions agree, so do the bytes. */
  lemma CoveredIff<T>(specs: seq<FieldSpec>, h: Hooks<T>, applied: map<string, string>, before: map<string, Value>, after: map<string, Value>, was: T, becomes: T)
    requires ValidSpecs(specs) && before.Keys <= after.Keys
    requires forall k :: 0 <= k < |specs| ==> Ver(applied, specs[k].path) == VerOf(before, specs[k].path)
    ensures Covered(specs, before, after, DiffFrom(specs, applied, after, 0) + DerivedChanges(specs, h, was, becomes))
            <==> forall k :: 0 <= k < |specs| && VerOf(before, specs[k].path) == VerOf(after, specs[k].path) ==>
                   BytesOf(before, specs[k].path) == BytesOf(after, specs[k].path)
  {
    DerivedAvoidsSpecs(specs, h, WritesFrom(h.derives, 0), 0, was, becomes);
    forall k | 0 <= k < |specs|
      ensures var p := specs[k].path;
              var shown := DiffFrom(specs, applied, after, 0) + DerivedChanges(specs, h, was, becomes);
              FieldChange(p, VerOf(before, p), VerOf(after, p)) in shown <==> VerOf(before, p) != VerOf(after, p)
    {
      SpecPathIn(specs, k);
      DiffLists(specs, applied, after, 0, k);
    }
  }

  /** Sound values meet that condition. */
  lemma SoundCovers<T>(truth: (string, string) -> string, ps: Params<T>, log: seq<Accepted<T>>, i: nat)
    requires ValidSpecs(ps.setup.specs) && LogInv(ps, log) && SoundLog(truth, log) && 0 < i < |log|
    ensures Covered(ps.setup.specs, log[i - 1].obs, log[i].obs, log[i].shown)
  {
    var before, e := log[i - 1], log[i];
    assert EntryInv(ps, log, i) && EntryInv(ps, log, i - 1);
    CoveredIff(ps.setup.specs, ps.hooks, before.snap.applied, before.obs, e.obs, e.superseded, e.snap.config);
    assert SoundObs(truth, before.obs) && SoundObs(truth, e.obs);
  }

  /** `log'` is `log`, or `log` and one candidate the gate accepted. */
  ghost predicate Gated<T>(ps: Params<T>, s: State<T>, t: State<T>, g: Gate) {
    || t.book.log == s.book.log
    || (&& (ps.hasGate ==> g.hookErr.None? && g.ctxErr.None?)
        && |t.book.log| == |s.book.log| + 1 && t.book.log[..|s.book.log|] == s.book.log
        && Last(t.book.log).superseded == s.book.lastGood
        && Last(t.book.log).snap.config == t.book.lastGood
        && Last(t.book.log).obs == t.front.sense.observed && Last(t.book.log).gate == g
        && ps.hooks.validate(t.book.lastGood).None?
        && t.front.sense.blocked == {})
  }

  lemma FlushIsGated<T>(ps: Params<T>, s: State<T>, nonEmpty: bool, g: Gate, now: int)
    ensures Gated(ps, s, Flush(ps, s, nonEmpty, g, now).state, g)
    ensures Flush(ps, s, nonEmpty, g, now).state.front.sense.observed == s.front.sense.observed
    ensures Flush(ps, s, nonEmpty, g, now).state.front.sense.sources == s.front.sense.sources
  {
  }

  /** The log grows only by a candidate the gate accepted, shown against the live snapshot
      it superseded; a refused candidate leaves no trace in it. */
  lemma OnlyTheGateExtendsTheLog<T>(ps: Params<T>, s: State<T>, e: Event, clock: int)
    requires Shaped(ps.setup, s.front.sense.sources) && Enabled(ps, s, e, clock)
    ensures e.Fire? || e.Refresh? ==> Gated(ps, s, Step(ps, s, e, clock), e.gate)
    ensures !e.Fire? && !e.Refresh? ==> Step(ps, s, e, clock).book == s.book
  {
    if e.Fire? {
      FlushIsGated(ps, s, s.front.batch.pending != {}, e.gate, e.now);
    } else if e.Refresh? {
      var t := Resolved(ps, s, e.live, e.now);
      FlushIsGated(ps, t, ps.setup.specs != [], e.gate, e.now);
    }
  }

  lemma StepKeepsSoundSense<T>(truth: (string, string) -> string, ps: Params<T>, s: State<T>, e: Event, clock: int)
    requires Shaped(ps.setup, s.front.sense.sources) && Enabled(ps, s, e, clock)
    requires SoundSetup(truth, ps.setup) && SoundSense(truth, ps.setup, s.front.sense) && SoundEvent(truth, ps.setup, e)
    ensures SoundSense(truth, ps.setup, Step(ps, s, e, clock).front.sense)
  {
    if e.Update? {
      OnUpdateKeepsSound(truth, ps.setup, s.front, s.book.applied, e.idx, e.pos, e.up, e.now);
    } else if e.Fire? {
      FlushIsGated(ps, s, s.front.batch.pending != {}, e.gate, e.now);
    } else if e.Refresh? {
      RefreshKeepsSound(truth, ps.setup, s.front.sense, e.live, 0, e.now);
      var r := Resolved(ps, s, e.live, e.now);
      FlushIsGated(ps, r, ps.setup.specs != [], e.gate, e.now);
    }
  }

  lemma GatedKeepsSoundLog<T>(truth: (string, string) -> string, ps: Params<T>, s: State<T>, t: State<T>, g: Gate)
    requires SoundLog(truth, s.book.log) && SoundObs(truth, t.front.sense.observed)
    requires Gated(ps, s, t, g)
    ensures SoundLog(truth, t.book.log)
  {
    forall i | 0 <= i < |t.book.log|
      ensures SoundObs(truth, t.book.log[i].obs)
    {
      if i < |s.book.log| {
        assert t.book.log[i] == s.book.log[i];
      }
    }
  }

  lemma StepKeepsSound<T>(truth: (string, string) -> string, ps: Params<T>, s: State<T>, e: Event, clock: int)
    requires Shaped(ps.setup, s.front.sense.sources) && Enabled(ps, s, e, clock)
    requires SoundSetup(truth, ps.setup) && SoundSense(truth, ps.setup, s.front.sense) && SoundLog(truth, s.book.log)
    requires SoundEvent(truth, ps.setup, e)
    ensures var t := Step(ps, s, e, clock);
            SoundSense(truth, ps.setup, t.front.sense) && SoundLog(truth, t.book.log)
  {
    StepKeepsSoundSense(truth, ps, s, e, clock);
    OnlyTheGateExtendsTheLog(ps, s, e, clock);
    GatedKeepsSoundLog(truth, ps, s, Step(ps, s, e, clock), if e.Fire? || e.Refresh? then e.gate else Gate(None, None));
  }

  lemma {:induction false} RunKeepsSound<T>(truth: (string, string) -> string, ps: Params<T>, s: State<T>, es: seq<Event>, clock: int)
    requires Runs(ps, s, es, clock)
    requires SoundSetup(truth, ps.setup) && SoundSense(truth, ps.setup, s.front.sense) && SoundLog(truth, s.book.log)
    requires forall i :: 0 <= i < |es| ==> SoundEvent(truth, ps.setup, es[i])
    ensures SoundLog(truth, Exec(ps, s, es, clock).book.log)
    decreases |es|
  {
    if es != [] {
      StepKeepsSound(truth, ps, s, es[0], clock);
      RunKeepsSound(truth, ps, Step(ps, s, es[0], clock), es[1..], Clock(es[0], clock));
    }
  }

  /** Get is serving a configuration of the log. */
  ghost predicate ServesLogged<T>(s: State<T>) {
    exists i :: 0 <= i < |s.book.log| && s.out.cfg == s.book.log[i].snap.config
  }

  /** Every configuration in the log decoded, derived and validated from its values, and the
      gate - if there is one - answered yes to it. */
  ghost predicate AllPassed<T>(ps: Params<T>, log: seq<Accepted<T>>) {
    forall i :: 0 <= i < |log| ==>
      && (ps.hasGate ==> log[i].gate.hookErr.None? && log[i].gate.ctxErr.None?)
      && BuildConfig(ps.setup.specs, ps.hooks, log[i].obs) == Ok(log[i].snap.config)
      && ps.hooks.validate(log[i].snap.config).None?
  }

  /** Every acceptance covered what changed against the snapshot it superseded. */
  ghost predicate AllCovered<T>(specs: seq<FieldSpec>, log: seq<Accepted<T>>) {
    forall i :: 0 < i < |log| ==>
      && log[i].superseded == log[i - 1].snap.config
      && Covered(specs, log[i - 1].obs, log[i].obs, log[i].shown)
  }

  lemma LogIsPassed<T>(ps: Params<T>, log: seq<Accepted<T>>)
    requires LogInv(ps, log)
    ensures AllPassed(ps, log)
  {
    forall i | 0 <= i < |log|
      ensures ps.hasGate ==> log[i].gate.hookErr.None? && log[i].gate.ctxErr.None?
      ensures BuildConfig(ps.setup.specs, ps.hooks, log[i].obs) == Ok(log[i].snap.config)
      ensures ps.hooks.validate(log[i].snap.config).None?
    {
      assert EntryInv(ps, log, i);
    }
  }

  lemma LogIsCovered<T>(truth: (string, string) -> string, ps: Params<T>, log: seq<Accepted<T>>)
    requires ValidSpecs(ps.setup.specs) && LogInv(ps, log) && SoundLog(truth, log)
    ensures AllCovered(ps.setup.specs, log)
  {
    forall i | 0 < i < |log|
      ensures log[i].superseded == log[i - 1].snap.config
      ensures Covered(ps.setup.specs, log[i - 1].obs, log[i].obs, log[i].shown)
    {
      assert EntryInv(ps, log, i);
      SoundCovers(truth, ps, log, i);
    }
  }

  lemma ReachableServes<T>(
    ps: Params<T>, obs: map<string, Value>, sources: seq<seq<SrcState>>, g: Gate, start: int, s0: State<T>, es: seq<Event>)
    requires Loaded(ps, obs, sources, g, start, s0) && Runs(ps, s0, es, start)
    ensures ServesLogged(Exec(ps, s0, es, start)) && LogInv(ps, Exec(ps, s0, es, start).book.log)
  {
    var s := Exec(ps, s0, es, start);
    assert ServedInv(ps, s) && LogInv(ps, s.book.log) by {
      LoadEstablishes(ps, obs, sources, g, start, s0);
      RunKeeps(ps, s0, es, start);
    }
    ServedIsLogged(ps, s);
  }

  lemma ServedIsLogged<T>(ps: Params<T>, s: State<T>)
    requires ServedInv(ps, s)
    ensures ServesLogged(s)
  {
    var served := if s.pin.pinned then s.pin.version - 1 else |s.book.log| - 1;
    assert s.out.cfg == s.book.log[served].snap.config;
  }

  /** Gate coverage over every run. Whatever Get serves is a configuration of the log:
      it decoded, derived and validated, and the gate accepted it. And on every acceptance
      each spec field whose bytes differ from the superseded snapshot was in the list the
      gate was shown, so a refused value never rides in on another field's flush. */
  lemma GateCoverage<T>(
    truth: (string, string) -> string, ps: Params<T>, obs: map<string, Value>, sources: seq<seq<SrcState>>, g: Gate, start: int,
    s0: State<T>, es: seq<Event>)
    requires Loaded(ps, obs, sources, g, start, s0) && Runs(ps, s0, es, start)
    requires SoundSetup(truth, ps.setup) && SoundSense(truth, ps.setup, s0.front.sense)
    requires forall i :: 0 <= i < |es| ==> SoundEvent(truth, ps.setup, es[i])
    ensures var s := Exec(ps, s0, es, start);
            ServesLogged(s) && AllPassed(ps, s.book.log) && AllCovered(ps.setup.specs, s.book.log)
  {
    var s := Exec(ps, s0, es, start);
    assert ServesLogged(s) && LogInv(ps, s.book.log) by {
      ReachableServes(ps, obs, sources, g, start, s0, es);
    }
    assert SoundLog(truth, s.book.log) by {
      assert SoundObs(truth, s0.book.log[0].obs);
      RunKeepsSound(truth, ps, s0, es, start);
    }
    LogIsPassed(ps, s.book.log);
    LogIsCovered(truth, ps, s.book.log);
  }

  /** The initial load shows the gate every resolved field. */
  lemma {:induction false} InitialShowsAll(specs: seq<FieldSpec>, obs: map<string, Value>, i: nat, k: nat)
    requires i <= k < |specs| && specs[k].path in obs
    ensures FieldChange(specs[k].path, "", obs[specs[k].path].version) in InitialFieldsFrom(specs, obs, i)
    decreases k - i
  {
    if i < k {
      InitialShowsAll(specs, obs, i + 1, k);
    }
  }

  // ---------------------------------------------------------------- Unpin coalescing

  /** All Fields entries recorded by log entries `lo` up to `hi`, oldest first. */
  function Entries<T>(log: seq<Accepted<T>>, lo: nat, hi: nat): seq<FieldChange>
    requires lo <= hi <= |log|
    decreases hi
  {
    if lo == hi then [] else Entries(log, lo, hi - 1) + log[hi - 1].snap.fields
  }

  function FirstOld(fs: seq<FieldChange>, p: string): Option<string> {
    if fs == [] then None
    else if fs[0].path == p then Some(fs[0].oldVersion)
    else FirstOld(fs[1..], p)
  }

  function LastNew(fs: seq<FieldChange>, p: string): Option<string> {
    if fs == [] then None
    else if fs[|fs| - 1].path == p then Some(fs[|fs| - 1].newVersion)
    else LastNew(fs[..|fs| - 1], p)
  }

  /** The net effect of a list of changes on one path: from the first version it left to
      the last one it reached, or nothing if those agree. */
  function Net(fs: seq<FieldChange>, p: string): Option<FieldChange> {
    var o, n := FirstOld(fs, p), LastNew(fs, p);
    if o.None? || n.None? || o.value == n.value then None else Some(FieldChange(p, o.value, n.value))
  }

  lemma {:induction false} FirstOldConcat(a: seq<FieldChange>, b: seq<FieldChange>, p: string)
    ensures FirstOld(a + b, p) == if FirstOld(a, p).Some? then FirstOld(a, p) else FirstOld(b, p)
    decreases |a|
  {
    if a == [] {
      assert a + b == b;
    } else {
      assert (a + b)[1..] == a[1..] + b;
      FirstOldConcat(a[1..], b, p);
    }
  }

  lemma {:induction false} LastNewConcat(a: seq<FieldChange>, b: seq<FieldChange>, p: string)
    ensures LastNew(a + b, p) == if LastNew(b, p).Some? then LastNew(b, p) else LastNew(a, p)
    decreases |b|
  {
    if b == [] {
      assert a + b == a;
    } else {
      assert (a + b)[..|a + b| - 1] == a + b[..|b| - 1];
      LastNewConcat(a, b[..|b| - 1], p);
    }
  }

  /** A list that mentions `p` exactly as one version change gives that change. */
  lemma {:induction false} ExactEnds(fs: seq<FieldChange>, p: string, b: string, a: string)
    requires forall f :: f in fs && f.path == p ==> f == FieldChange(p, b, a)
    ensures FirstOld(fs, p) == if FieldChange(p, b, a) in fs then Some(b) else None
    ensures LastNew(fs, p) == if FieldChange(p, b, a) in fs then Some(a) else None
    decreases |fs|
  {
    if fs != [] {
      ExactEnds(fs[1..], p, b, a);
      ExactEnds(fs[..|fs| - 1], p, b, a);
      assert fs == [fs[0]] + fs[1..];
      assert fs == fs[..|fs| - 1] + [fs[|fs| - 1]];
    }
  }

  ghost predicate StepLists<T>(log: seq<Accepted<T>>, i: nat, p: string)
    requires 0 < i < |log|
  {
    ListsExactly(log[i].snap.fields, p, Ver(log[i - 1].snap.applied, p), Ver(log[i].snap.applied, p))
  }

  /** Each snapshot's Fields is exactly its own version step on every spec path. */
  lemma StepFields<T>(ps: Params<T>, log: seq<Accepted<T>>, i: nat, k: nat)
    requires ValidSpecs(ps.setup.specs) && LogInv(ps, log) && 0 < i < |log| && k < |ps.setup.specs|
    ensures StepLists(log, i, ps.setup.specs[k].path)
  {
    var e := log[i];
    assert EntryInv(ps, log, i) && EntryInv(ps, log, i - 1);
    DiffLists(ps.setup.specs, log[i - 1].snap.applied, e.obs, 0, k);
    DerivedAvoidsSpecs(ps.setup.specs, ps.hooks, WritesFrom(ps.hooks.derives, 0), 0, e.superseded, e.snap.config);
    SpecPathIn(ps.setup.specs, k);
  }

  /** `fs` takes path `p` from version `b` to version `a`. */
  ghost predicate Takes(fs: seq<FieldChange>, p: string, b: string, a: string) {
    if FirstOld(fs, p).Some? then FirstOld(fs, p) == Some(b) && LastNew(fs, p) == Some(a)
    else LastNew(fs, p).None? && a == b
  }

  lemma TakesConcat(fs: seq<FieldChange>, l: seq<FieldChange>, p: string, b: string, m: string, a: string)
    requires Takes(fs, p, b, m) && ListsExactly(l, p, m, a)
    ensures Takes(fs + l, p, b, a)
  {
    ExactEnds(l, p, m, a);
    FirstOldConcat(fs, l, p);
    LastNewConcat(fs, l, p);
  }

  /** The recorded Fields since version `v`, composed, take its applied versions to those
      of any later snapshot. */
  lemma EntriesCompose<T>(ps: Params<T>, log: seq<Accepted<T>>, v: nat, n: nat, k: nat)
    requires ValidSpecs(ps.setup.specs) && LogInv(ps, log) && 1 <= v <= n <= |log| && k < |ps.setup.specs|
    ensures TakesAlong(log, v, n, ps.setup.specs[k].path)
  {
    forall i | 0 < i < |log|
      ensures StepLists(log, i, ps.setup.specs[k].path)
    {
      StepFields(ps, log, i, k);
    }
    StepsCompose(log, v, n, ps.setup.specs[k].path);
  }

  lemma {:induction false} StepsCompose<T>(log: seq<Accepted<T>>, v: nat, n: nat, p: string)
    requires 1 <= v <= n <= |log| && forall i :: 0 < i < |log| ==> StepLists(log, i, p)
    ensures TakesAlong(log, v, n, p)
    decreases n
  {
    if v < n {
      StepsCompose(log, v, n - 1, p);
      EntriesStep(log, v, n, p);
    }
  }

  /** From the applied versions of snapshot `v` to those of snapshot `n`, on path `p`. */
  ghost predicate TakesAlong<T>(log: seq<Accepted<T>>, v: nat, n: nat, p: string)
    requires 1 <= v <= n <= |log|
  {
    Takes(Entries(log, v, n), p, Ver(log[v - 1].snap.applied, p), Ver(log[n - 1].snap.applied, p))
  }

  lemma EntriesStep<T>(log: seq<Accepted<T>>, v: nat, n: nat, p: string)
    requires 1 <= v < n <= |log| && TakesAlong(log, v, n - 1, p)
    requires StepLists(log, n - 1, p)
    ensures TakesAlong(log, v, n, p)
  {
    TakesConcat(Entries(log, v, n - 1), log[n - 1].snap.fields, p,
                Ver(log[v - 1].snap.applied, p), Ver(log[n - 2].snap.applied, p), Ver(log[n - 1].snap.applied, p));
  }

  lemma {:induction false} DiffMapsLists(specs: seq<FieldSpec>, before: map<string, string>, after: map<string, string>, i: nat, k: nat)
    requires ValidSpecs(specs) && i <= |specs| && k < |specs|
    ensures i <= k ==> ListsExactly(DiffMapsFrom(specs, before, after, i), specs[k].path, Ver(before, specs[k].path), Ver(after, specs[k].path))
    ensures k < i ==> forall f :: f in DiffMapsFrom(specs, before, after, i) ==> f.path != specs[k].path
    decreases |specs| - i
  {
    if i < |specs| {
      DiffMapsLists(specs, before, after, i + 1, k);
    }
  }

  /** The coalesced diff lists a spec path exactly as the net composition of every Fields
      list recorded since the pinned snapshot. */
  lemma UnpinDiffIsNet<T>(ps: Params<T>, s: State<T>, k: nat, f: FieldChange)
    requires ValidSpecs(ps.setup.specs) && BookInv(ps, s.book, s.front.sense.observed) && ServedInv(ps, s)
    requires s.pin.pinned && k < |ps.setup.specs| && f.path == ps.setup.specs[k].path
    ensures f in DiffApplied(ps, s.pin.applied, s.book.applied, s.pin.config, s.book.lastGood)
            <==> Net(Entries(s.book.log, s.pin.version, |s.book.log|), f.path) == Some(f)
  {
    var log, v, p := s.book.log, s.pin.version, f.path;
    var b, a := Ver(s.pin.applied, p), Ver(s.book.applied, p);
    var diff := DiffMapsFrom(ps.setup.specs, s.pin.applied, s.book.applied, 0);
    assert Takes(Entries(log, v, |log|), p, b, a) by {
      EntriesCompose(ps, log, v, |log|, k);
    }
    assert ListsExactly(diff, p, b, a) by {
      DiffMapsLists(ps.setup.specs, s.pin.applied, s.book.applied, 0, k);
    }
    assert f !in DerivedChanges(ps.setup.specs, ps.hooks, s.pin.config, s.book.lastGood) by {
      DerivedAvoidsSpecs(ps.setup.specs, ps.hooks, WritesFrom(ps.hooks.derives, 0), 0, s.pin.config, s.book.lastGood);
      SpecPathIn(ps.setup.specs, k);
    }
    assert f in diff <==> b != a && f == FieldChange(p, b, a);
  }

  /** `t` serves the live configuration again, and at most one Change has been emitted: from
      what Get was serving to what it serves now, listing a spec path exactly as the net
      composition of every Fields list recorded since the pinned snapshot. */
  ghost predicate Coalesced<T>(ps: Params<T>, s: State<T>, t: State<T>)
    requires s.pin.version <= |s.book.log|
  {
    var fields := DiffApplied(ps, s.pin.applied, s.book.applied, s.pin.config, s.book.lastGood);
    && t.out.cfg == s.book.lastGood && !t.pin.pinned && t.book == s.book && t.front == s.front
    && t.out.emitted == (if fields == [] then s.out.emitted else s.out.emitted + [Change(s.out.cfg, s.book.lastGood, fields)])
    && forall f: FieldChange :: f.path in Paths(ps.setup.specs) ==>
         (f in fields <==> Net(Entries(s.book.log, s.pin.version, |s.book.log|), f.path) == Some(f))
  }

  /** Unpin, however many flushes happened while pinned and whether or not the pinned version
      is still retained - and so after every run. */
  lemma UnpinCoalesces<T>(ps: Params<T>, s: State<T>, clock: int)
    requires Inv(ps, s, clock) && s.pin.pinned
    ensures Coalesced(ps, s, OnUnpin(ps, s).state)
  {
    var fields := DiffApplied(ps, s.pin.applied, s.book.applied, s.pin.config, s.book.lastGood);
    forall f: FieldChange | f.path in Paths(ps.setup.specs)
      ensures f in fields <==> Net(Entries(s.book.log, s.pin.version, |s.book.log|), f.path) == Some(f)
    {
      var k :| 0 <= k < |ps.setup.specs| && ps.setup.specs[k].path == f.path;
      UnpinDiffIsNet(ps, s, k, f);
    }
  }

  lemma UnpinAfterAnyRun<T>(
    ps: Params<T>, obs: map<string, Value>, sources: seq<seq<SrcState>>, g: Gate, start: int, s0: State<T>, es: seq<Event>)
    requires Loaded(ps, obs, sources, g, start, s0) && Runs(ps, s0, es, start) && Exec(ps, s0, es, start).pin.pinned
    ensures Exec(ps, s0, es, start).pin.version <= |Exec(ps, s0, es, start).book.log|
    ensures Coalesced(ps, Exec(ps, s0, es, start), OnUnpin(ps, Exec(ps, s0, es, start)).state)
  {
    assert Inv(ps, Exec(ps, s0, es, start), EndClock(es, start)) by {
      LoadEstablishes(ps, obs, sources, g, start, s0);
      RunKeeps(ps, s0, es, start);
    }
    UnpinCoalesces(ps, Exec(ps, s0, es, start), EndClock(es, start));
  }

  /** While pinned, Get never moves: only Pin, PinCurrent and Unpin can change it. */
  lemma PinnedFreezesGet<T>(ps: Params<T>, s: State<T>, e: Event, clock: int)
    requires Shaped(ps.setup, s.front.sense.sources) && Enabled(ps, s, e, clock) && s.pin.pinned && (e.Update? || e.Fire? || e.Refresh?)
    ensures var t := Step(ps, s, e, clock);
            t.pin == s.pin && t.out == s.out && s.book.version <= t.book.version
  {
    if e.Fire? {
      PinnedFlush(ps, s, s.front.batch.pending != {}, e.gate, e.now);
    } else if e.Refresh? {
      var t := Resolved(ps, s, e.live, e.now);
      PinnedFlush(ps, t, ps.setup.specs != [], e.gate, e.now);
    }
  }

  /** What a flush tells the outside: a candidate accepted while not pinned is what Get serves
      next, announced by one Change from what Get was serving, with the Fields the gate saw;
      anything else moves nothing and announces nothing. */
  ghost predicate Announced<T>(s: State<T>, t: State<T>) {
    if |t.book.log| > |s.book.log| && !s.pin.pinned
    then var e := Last(t.book.log);
         e.shown != [] && t.out == Out(e.snap.config, s.out.emitted + [Change(s.out.cfg, e.snap.config, e.shown)])
    else t.out == s.out
  }

  lemma FlushAnnounces<T>(ps: Params<T>, s: State<T>, nonEmpty: bool, g: Gate, now: int)
    requires BookInv(ps, s.book, s.front.sense.observed) && ServedInv(ps, s)
    ensures Announced(s, Flush(ps, s, nonEmpty, g, now).state)
  {
  }

  /** What Pin(v) makes Get serve: snapshot `v` if it is retained, else what it was serving. */
  ghost function ServedIfPinned<T>(ps: Params<T>, s: State<T>, v: nat): T
    requires s.book.version == |s.book.log|
  {
    if 1 <= v <= s.book.version && s.book.version - v <= ps.historyN then s.book.log[v - 1].snap.config else s.out.cfg
  }

  /** Every move of Get is announced or commanded: an update never moves it, a flush moves it
      with exactly one Change, and the pin commands emit nothing. */
  lemma MovesAreAnnounced<T>(ps: Params<T>, s: State<T>, e: Event, clock: int)
    requires Inv(ps, s, clock) && Enabled(ps, s, e, clock)
    ensures var t := Step(ps, s, e, clock);
            && (e.Update? || e.PinCurrent? ==> t.out == s.out)
            && (e.Fire? || e.Refresh? ==> Announced(s, t))
            && (e.PinAt? ==> t.out == s.out.(cfg := ServedIfPinned(ps, s, e.version)))
  {
    if e.Fire? {
      FlushAnnounces(ps, s, s.front.batch.pending != {}, e.gate, e.now);
    } else if e.Refresh? {
      var r := Resolved(ps, s, e.live, e.now);
      RefreshGrows(ps.setup, s.front.sense, e.live, 0, e.now);
      FlushAnnounces(ps, r, ps.setup.specs != [], e.gate, e.now);
    } else if e.PinAt? {
      PinFindsRetained(ps, s.book, s.front.sense.observed, e.version);
    }
  }

  /** `es` leads from `a` to `b`, each Change starting where the one before it ended. */
  ghost predicate Leads<T>(a: T, es: seq<Change<T>>, b: T) {
    if es == [] then a == b else es[0].was == a && Leads(es[0].becomes, es[1..], b)
  }

  lemma {:induction false} LeadsFurther<T>(a: T, es: seq<Change<T>>, c: Change<T>)
    requires Leads(a, es, c.was)
    ensures Leads(a, es + [c], c.becomes)
    decreases |es|
  {
    if es != [] {
      LeadsFurther(es[0].becomes, es[1..], c);
      assert (es + [c])[1..] == es[1..] + [c];
    }
  }

  ghost predicate NoPins(es: seq<Event>) {
    forall i :: 0 <= i < |es| ==> es[i].Update? || es[i].Fire? || es[i].Refresh?
  }

  /** Without pins, the Changes emitted along any run lead step by step from the configuration
      the load served to the one served now: nothing is missed and nothing repeated. */
  lemma ChangesTellAll<T>(
    ps: Params<T>, obs: map<string, Value>, sources: seq<seq<SrcState>>, g: Gate, start: int, s0: State<T>, es: seq<Event>)
    requires Loaded(ps, obs, sources, g, start, s0) && Runs(ps, s0, es, start) && NoPins(es)
    ensures var t := Exec(ps, s0, es, start); Leads(s0.out.cfg, t.out.emitted, t.out.cfg)
  {
    LoadEstablishes(ps, obs, sources, g, start, s0);
    ChangesLead(ps, s0, es, start, s0.out.cfg);
  }

  lemma {:induction false} ChangesLead<T>(ps: Params<T>, s: State<T>, es: seq<Event>, clock: int, first: T)
    requires Inv(ps, s, clock) && Runs(ps, s, es, clock) && !s.pin.pinned && NoPins(es)
    requires Leads(first, s.out.emitted, s.out.cfg)
    ensures var t := Exec(ps, s, es, clock); Leads(first, t.out.emitted, t.out.cfg)
    decreases |es|
  {
    if es != [] {
      var t := Step(ps, s, es[0], clock);
      assert es[0].Update? || es[0].Fire? || es[0].Refresh?;
      MovesAreAnnounced(ps, s, es[0], clock);
      if t.out != s.out {
        var e := Last(t.book.log);
        LeadsFurther(first, s.out.emitted, Change(s.out.cfg, e.snap.config, e.shown));
      }
      StepKeeps(ps, s, es[0], clock);
      UnpinnedStays(ps, s, es[0], clock);
      ChangesLead(ps, t, es[1..], Clock(es[0], clock), first);
    }
  }

  lemma UnpinnedStays<T>(ps: Params<T>, s: State<T>, e: Event, clock: int)
    requires Shaped(ps.setup, s.front.sense.sources) && Enabled(ps, s, e, clock) && (e.Update? || e.Fire? || e.Refresh?)
    ensures Step(ps, s, e, clock).pin == s.pin
  {
  }

  lemma PinnedFlush<T>(ps: Params<T>, s: State<T>, nonEmpty: bool, g: Gate, now: int)
    requires s.pin.pinned
    ensures var t := Flush(ps, s, nonEmpty, g, now).state;
            t.pin == s.pin && t.out == s.out && s.book.version <= t.book.version
  {
  }

  // ---------------------------------------------------------------- debounce over a run

  /** A new source update, a block lifted by it, or a change joining the batch never moves
      the batch's deadline later, and every member's own window bounds it. */
  lemma UpdatesNeverPostpone<T>(ps: Params<T>, s: State<T>, e: Event, clock: int, k: nat, i: nat)
    requires Inv(ps, s, clock) && Enabled(ps, s, e, clock) && e.Update?
    requires s.front.batch.pending != {} && k < |s.front.batch.joins|
    requires i < |ps.setup.specs| && ps.setup.specs[i].path == s.front.batch.joins[k].path
    ensures var b, c := s.front.batch, Step(ps, s, e, clock).front.batch;
            && c.timer.Some? && Deadline(c) <= Deadline(b)
            && Deadline(c) <= b.joins[k].at + DebounceFor(ps.setup, ps.setup.specs[i])
            && (c.timer.value <= b.timer.value || c.timer.value <= e.now)
  {
    OnUpdateKeeps(ps.setup, s.front, s.book.applied, s.book.refused, e.idx, e.pos, e.up, clock, e.now);
    DebounceBound(ps.setup, s.front.batch, clock, k, i);
  }
}
