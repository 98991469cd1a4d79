/** What every engine step keeps, and what that means over whole runs: gate coverage,
    all-or-nothing flushes, no stranded change, and the coalesced Unpin. */
module EngineLaws {
  import opened Values
  import opened Chain
  import opened Intake
  import opened IntakeLaws
  import opened Engine

  // ---------------------------------------------------------------- version maps and diffs

  /** Equality of applied versions as every reader of them sees it: over spec paths,
      with a missing entry read as the empty version. */
  ghost predicate SameOnSpecs(specs: seq<FieldSpec>, a: map<string, string>, b: map<string, string>) {
    forall k :: 0 <= k < |specs| ==> Ver(a, specs[k].path) == Ver(b, specs[k].path)
  }

  /** `fields` mentions spec path `p` exactly as the version change from `b` to `a`. */
  ghost predicate ListsExactly(fields: seq<FieldChange>, p: string, b: string, a: string) {
    && (b != a ==> FieldChange(p, b, a) in fields)
    && (forall f :: f in fields && f.path == p ==> b != a && f == FieldChange(p, b, a))
  }

  /** The candidate diff lists a spec field exactly when its version moves, with the
      versions it moves between. */
  lemma {:induction false} DiffLists(specs: seq<FieldSpec>, applied: map<string, string>, obs: map<string, Value>, i: nat, k: nat)
    requires ValidSpecs(specs) && i <= |specs| && k < |specs|
    ensures i <= k && specs[k].path in obs ==>
              ListsExactly(DiffFrom(specs, applied, obs, i), specs[k].path, Ver(applied, specs[k].path), obs[specs[k].path].version)
    ensures k < i || specs[k].path !in obs ==>
              forall f :: f in DiffFrom(specs, applied, obs, i) ==> f.path != specs[k].path
    decreases |specs| - i
  {
    if i < |specs| {
      DiffLists(specs, applied, obs, i + 1, k);
    }
  }

  lemma {:induction false} DiffEmpty(specs: seq<FieldSpec>, applied: map<string, string>, obs: map<string, Value>, i: nat)
    requires i <= |specs|
    ensures DiffFrom(specs, applied, obs, i) == [] <==> forall k :: i <= k < |specs| ==> !HeldBack(obs, applied, specs[k].path)
    decreases |specs| - i
  {
    if i < |specs| {
      DiffEmpty(specs, applied, obs, i + 1);
    }
  }

  lemma {:induction false} DiffCongruent(specs: seq<FieldSpec>, a: map<string, string>, b: map<string, string>, obs: map<string, Value>, i: nat)
    requires i <= |specs| && SameOnSpecs(specs, a, b)
    ensures DiffFrom(specs, a, obs, i) == DiffFrom(specs, b, obs, i)
    decreases |specs| - i
  {
    if i < |specs| {
      DiffCongruent(specs, a, b, obs, i + 1);
    }
  }

  lemma {:induction false} AdvanceVer(specs: seq<FieldSpec>, applied: map<string, string>, obs: map<string, Value>, i: nat, p: string)
    requires i <= |specs|
    ensures Ver(AdvanceFrom(specs, applied, obs, i), p)
            == if p in obs && (exists k :: i <= k < |specs| && specs[k].path == p) then obs[p].version else Ver(applied, p)
    decreases |specs| - i
  {
    if i < |specs| {
      var path := specs[i].path;
      AdvanceVer(specs, if HeldBack(obs, applied, path) then applied[path := obs[path].version] else applied, obs, i + 1, p);
    }
  }

  lemma {:induction false} RollBackVer(applied: map<string, string>, fields: seq<FieldChange>, p: string, o: string)
    requires forall f :: f in fields && f.path == p ==> f.oldVersion == o
    ensures Ver(RollBack(applied, fields), p) == if (exists f :: f in fields && f.path == p) then o else Ver(applied, p)
    decreases |fields|
  {
    if fields != [] {
      RollBackVer(applied[fields[0].path := fields[0].oldVersion], fields[1..], p, o);
      assert fields == [fields[0]] + fields[1..];
    }
  }

  lemma {:induction false} DerivedAvoidsSpecs<T>(specs: seq<FieldSpec>, h: Hooks<T>, writes: seq<string>, i: nat, was: T, becomes: T)
    requires i <= |writes|
    ensures forall f :: f in DerivedFrom(specs, h, writes, i, was, becomes) ==> f.path !in Paths(specs)
    decreases |writes| - i
  {
    if i < |writes| {
      DerivedAvoidsSpecs(specs, h, writes, i + 1, was, becomes);
    }
  }

  /** A declared derive path appears at most once in a Change, and never beside a spec
      entry for the same path. */
  lemma {:induction false} DerivedOnce<T>(specs: seq<FieldSpec>, h: Hooks<T>, writes: seq<string>, i: nat, was: T, becomes: T)
    requires i <= |writes|
    ensures forall f :: f in DerivedFrom(specs, h, writes, i, was, becomes) ==> f.path in writes[i..] && f.path !in writes[..i]
    ensures AllDistinct(DerivedFrom(specs, h, writes, i, was, becomes))
    decreases |writes| - i
  {
    if i < |writes| {
      DerivedOnce(specs, h, writes, i + 1, was, becomes);
      var rest := DerivedFrom(specs, h, writes, i + 1, was, becomes);
      assert writes[..i + 1] == writes[..i] + [writes[i]];
      assert writes[i..] == [writes[i]] + writes[i + 1..];
      assert forall f :: f in rest ==> f.path != writes[i];
      if DerivedFrom(specs, h, writes, i, was, becomes) != rest {
        DistinctFirst(DerivedFrom(specs, h, writes, i, was, becomes)[0], rest);
      }
    }
  }

  ghost predicate AllDistinct(fs: seq<FieldChange>) {
    forall a, b :: 0 <= a < b < |fs| ==> fs[a].path != fs[b].path
  }

  lemma DistinctFirst(f: FieldChange, fs: seq<FieldChange>)
    requires AllDistinct(fs) && forall g :: g in fs ==> g.path != f.path
    ensures AllDistinct([f] + fs)
  {
  }

  lemma FieldsList<T>(ps: Params<T>, s: State<T>, cand: T, k: nat)
    requires ValidSpecs(ps.setup.specs) && k < |ps.setup.specs|
    ensures var p := ps.setup.specs[k].path;
            && (p in s.front.sense.observed ==>
                  ListsExactly(Fields(ps, s, cand), p, Ver(s.book.applied, p), s.front.sense.observed[p].version))
            && (p !in s.front.sense.observed ==> forall f :: f in Fields(ps, s, cand) ==> f.path != p)
  {
    DiffLists(ps.setup.specs, s.book.applied, s.front.sense.observed, 0, k);
    DerivedAvoidsSpecs(ps.setup.specs, ps.hooks, WritesFrom(ps.hooks.derives, 0), 0, s.book.lastGood, cand);
    SpecPathIn(ps.setup.specs, k);
  }

  /** Undoing the diff restores every applied version the candidate had advanced. */
  lemma RollBackRestores<T>(ps: Params<T>, s: State<T>, cand: T)
    requires ValidSpecs(ps.setup.specs)
    ensures SameOnSpecs(ps.setup.specs, s.book.applied,
                        RollBack(AdvanceFrom(ps.setup.specs, s.book.applied, s.front.sense.observed, 0), Fields(ps, s, cand)))
  {
    var specs, obs, applied := ps.setup.specs, s.front.sense.observed, s.book.applied;
    var ahead, fields := AdvanceFrom(specs, applied, obs, 0), Fields(ps, s, cand);
    forall k | 0 <= k < |specs|
      ensures Ver(applied, specs[k].path) == Ver(RollBack(ahead, fields), specs[k].path)
    {
      var p := specs[k].path;
      FieldsList(ps, s, cand, k);
      AdvanceVer(specs, applied, obs, 0, p);
      RollBackVer(ahead, fields, p, Ver(applied, p));
    }
  }

  // ---------------------------------------------------------------- all-or-nothing flush

  /** A refusal gives a reason whenever something is blocked: the error recorded for
      `k`, the first blocked path in spec order. */
  lemma {:induction false} BlockedHasReason(su: Setup, s: Sense, i: nat, b: nat) returns (k: nat)
    requires BlockInv(su, s) && i <= b < |su.specs| && su.specs[b].path in s.blocked
    ensures i <= k <= b && su.specs[k].path in s.blocked
    ensures forall j :: i <= j < k ==> su.specs[j].path !in s.blocked
    ensures BlockedReason(su.specs, s, i) == Some(s.lastErr[su.specs[k].path])
    decreases b - i
  {
    if su.specs[i].path in s.blocked {
      k := i;
    } else {
      k := BlockedHasReason(su, s, i + 1, b);
    }
  }

  lemma BlockedIsSpec(su: Setup, s: Sense) returns (b: nat)
    requires BlockInv(su, s) && s.blocked != {}
    ensures b < |su.specs| && su.specs[b].path in s.blocked
  {
    var p :| p in s.blocked;
    assert p in FailPaths(su.specs);
    b :| 0 <= b < |su.specs| && su.specs[b].path == p;
  }

  /** Nothing a caller can see has moved. */
  ghost predicate Untouched<T>(specs: seq<FieldSpec>, s: State<T>, t: State<T>) {
    && t.out == s.out && t.pin == s.pin
    && t.front.batch == s.front.batch
    && t.front.sense == s.front.sense.(errors := t.front.sense.errors)
    && t.book == s.book.(applied := t.book.applied, refused := t.book.refused)
    && SameOnSpecs(specs, s.book.applied, t.book.applied)
  }

  /** A flush that returns an error moves nothing: not what Get serves, the last good
      configuration, the version, the history, nor any spec's applied version - so the
      next attempt's diff lists every refused field again. */
  lemma FlushErrorMovesNothing<T>(ps: Params<T>, s: State<T>, nonEmpty: bool, g: Gate, now: int)
    requires ValidSpecs(ps.setup.specs)
    requires Flush(ps, s, nonEmpty, g, now).err.Some?
    ensures var t := Flush(ps, s, nonEmpty, g, now).state;
            && Untouched(ps.setup.specs, s, t)
            && (forall obs :: DiffFrom(ps.setup.specs, t.book.applied, obs, 0) == DiffFrom(ps.setup.specs, s.book.applied, obs, 0))
            && (s.front.sense.blocked == {} ==> t.book.refused == Some(s.front.sense.observed) && t.front.sense.errors == s.front.sense.errors + [Flush(ps, s, nonEmpty, g, now).err.value])
            && (s.front.sense.blocked != {} ==> t == s)
  {
    var t := Flush(ps, s, nonEmpty, g, now).state;
    var b := BuildConfig(ps.setup.specs, ps.hooks, s.front.sense.observed);
    if b.Ok? {
      RollBackRestores(ps, s, b.value);
    }
    forall obs
      ensures DiffFrom(ps.setup.specs, t.book.applied, obs, 0) == DiffFrom(ps.setup.specs, s.book.applied, obs, 0)
    {
      DiffCongruent(ps.setup.specs, s.book.applied, t.book.applied, obs, 0);
    }
  }

  /** A flush with pending work that returns no error had nothing blocked and left every
      applied version equal to its observed one. */
  lemma FlushSuccessAppliesAll<T>(ps: Params<T>, s: State<T>, g: Gate, now: int)
    requires ValidSpecs(ps.setup.specs) && BlockInv(ps.setup, s.front.sense)
    requires Flush(ps, s, true, g, now).err.None?
    ensures var t := Flush(ps, s, true, g, now).state;
            && s.front.sense.blocked == {} && t.front == s.front && t.pin == s.pin && t.book.refused.None?
            && BuildConfig(ps.setup.specs, ps.hooks, s.front.sense.observed).Ok?
            && forall k :: 0 <= k < |ps.setup.specs| ==> !HeldBack(s.front.sense.observed, t.book.applied, ps.setup.specs[k].path)
  {
    var specs, sense := ps.setup.specs, s.front.sense;
    if sense.blocked != {} {
      var b := BlockedIsSpec(ps.setup, sense);
      var _ := BlockedHasReason(ps.setup, sense, 0, b);
    } else {
      forall k | 0 <= k < |specs|
        ensures !HeldBack(sense.observed, AdvanceFrom(specs, s.book.applied, sense.observed, 0), specs[k].path)
      {
        AdvanceVer(specs, s.book.applied, sense.observed, 0, specs[k].path);
      }
    }
  }

  /** A flush attempt while anything is blocked always returns a reason. */
  lemma BlockedFlushGivesReason<T>(ps: Params<T>, s: State<T>, g: Gate, now: int)
    requires BlockInv(ps.setup, s.front.sense) && s.front.sense.blocked != {}
    ensures Flush(ps, s, true, g, now).err.Some?
    ensures Flush(ps, s, true, g, now).err.value in s.front.sense.lastErr.Values
  {
    var b := BlockedIsSpec(ps.setup, s.front.sense);
    var _ := BlockedHasReason(ps.setup, s.front.sense, 0, b);
  }

  // ---------------------------------------------------------------- the ledger

  /** Entry `i` of the log is a configuration that decoded, derived and validated from the
      values it names and that the gate let through; from the second on it superseded its predecessor, and the gate was
      shown exactly the version diff against it plus the derived paths that moved. */
  ghost predicate EntryInv<T>(ps: Params<T>, log: seq<Accepted<T>>, i: nat)
    requires i < |log|
  {
    var e := log[i];
    && e.snap.version == i + 1
    && BuildConfig(ps.setup.specs, ps.hooks, e.obs) == Ok(e.snap.config)
    && (ps.hasGate ==> e.gate.hookErr.None? && e.gate.ctxErr.None?)
    && (forall k :: 0 <= k < |ps.setup.specs| ==> Ver(e.snap.applied, ps.setup.specs[k].path) == VerOf(e.obs, ps.setup.specs[k].path))
    && (i > 0 ==>
          && e.superseded == log[i - 1].snap.config
          && e.snap.fields == e.shown
          && e.shown == DiffFrom(ps.setup.specs, log[i - 1].snap.applied, e.obs, 0)
                        + DerivedChanges(ps.setup.specs, ps.hooks, e.superseded, e.snap.config)
          && log[i - 1].obs.Keys <= e.obs.Keys)
  }

  ghost predicate LogInv<T>(ps: Params<T>, log: seq<Accepted<T>>) {
    log != [] && forall i {:trigger EntryInv(ps, log, i)} :: 0 <= i < |log| ==> EntryInv(ps, log, i)
  }

  function Last<X>(s: seq<X>): X
    requires s != []
  {
    s[|s| - 1]
  }

  /** The live side is the newest entry of the log, and the bounded history is a window
      on its tail. */
  ghost predicate BookInv<T>(ps: Params<T>, b: Book<T>, observed: map<string, Value>) {
    && LogInv(ps, b.log)
    && b.version == |b.log|
    && b.lastGood == Last(b.log).snap.config
    && SameOnSpecs(ps.setup.specs, b.applied, Last(b.log).snap.applied)
    && Last(b.log).obs.Keys <= observed.Keys
    && WindowInv(b.log, b.history, ps.historyN)
  }

  ghost predicate WindowInv<T>(log: seq<Accepted<T>>, history: seq<Snapshot<T>>, historyN: nat) {
    && |history| == (if |log| > historyN + 1 then historyN + 1 else |log|)
    && forall j :: 0 <= j < |history| ==> history[j] == log[|log| - |history| + j].snap
  }

  /** Get serves the pinned entry of the log while pinned, and the newest one otherwise. */
  ghost predicate ServedInv<T>(ps: Params<T>, s: State<T>) {
    && s.book.log != []
    && (s.pin.pinned ==>
          && 1 <= s.pin.version <= |s.book.log|
          && s.pin.config == s.book.log[s.pin.version - 1].snap.config
          && SameOnSpecs(ps.setup.specs, s.pin.applied, s.book.log[s.pin.version - 1].snap.applied))
    && s.out.cfg == (if s.pin.pinned then s.pin.config else Last(s.book.log).snap.config)
  }

  ghost predicate FrontInv<T>(ps: Params<T>, s: State<T>, clock: int) {
    && Shaped(ps.setup, s.front.sense.sources)
    && s.front.sense.observed.Keys <= Paths(ps.setup.specs)
    && BatchInv(ps.setup, s.front.batch, clock)
    && BlockInv(ps.setup, s.front.sense)
    && NoStrand(ps.setup, s.front, s.book.applied, s.book.refused)
  }

  ghost predicate Inv<T>(ps: Params<T>, s: State<T>, clock: int) {
    FrontInv(ps, s, clock) && BookInv(ps, s.book, s.front.sense.observed) && ServedInv(ps, s)
  }

  lemma LogExtends<T>(ps: Params<T>, log: seq<Accepted<T>>, e: Accepted<T>)
    requires LogInv(ps, log)
    requires EntryInv(ps, log + [e], |log|)
    ensures LogInv(ps, log + [e])
  {
    forall i | 0 <= i < |log|
      ensures EntryInv(ps, log + [e], i)
    {
      assert EntryInv(ps, log, i);
    }
  }

  /** An accepted candidate becomes a well-formed log entry. */
  lemma AcceptedEntry<T>(ps: Params<T>, s: State<T>, cand: T, g: Gate, now: int)
    requires ValidSpecs(ps.setup.specs) && RunPreApply(ps.hasGate, g).None? && BookInv(ps, s.book, s.front.sense.observed)
    requires BuildConfig(ps.setup.specs, ps.hooks, s.front.sense.observed) == Ok(cand)
    ensures var applied := AdvanceFrom(ps.setup.specs, s.book.applied, s.front.sense.observed, 0);
            var fields := Fields(ps, s, cand);
            var e := Accepted(Snapshot(s.book.version + 1, now, cand, fields, applied), s.book.lastGood, fields, s.front.sense.observed, g);
            LogInv(ps, s.book.log + [e])
  {
    var specs, obs := ps.setup.specs, s.front.sense.observed;
    var log := s.book.log;
    var applied := AdvanceFrom(specs, s.book.applied, obs, 0);
    var fields := Fields(ps, s, cand);
    var e := Accepted(Snapshot(s.book.version + 1, now, cand, fields, applied), s.book.lastGood, fields, obs, g);
    assert EntryInv(ps, log, |log| - 1);
    DiffCongruent(specs, s.book.applied, Last(log).snap.applied, obs, 0);
    forall k | 0 <= k < |specs|
      ensures Ver(applied, specs[k].path) == VerOf(obs, specs[k].path)
    {
      AdvanceVer(specs, s.book.applied, obs, 0, specs[k].path);
    }
    assert (log + [e])[|log| - 1] == Last(log);
    LogExtends(ps, log, e);
  }

  lemma RetainWindow<T>(log: seq<Accepted<T>>, history: seq<Snapshot<T>>, e: Accepted<T>, historyN: nat)
    requires WindowInv(log, history, historyN)
    ensures WindowInv(log + [e], Retain(history + [e.snap], historyN), historyN)
  {
    var log', all := log + [e], history + [e.snap];
    var h := Retain(all, historyN);
    var cut := |all| - |h|;
    forall j | 0 <= j < |h|
      ensures h[j] == log'[|log'| - |h| + j].snap
    {
      assert h[j] == all[cut + j];
      if j < |h| - 1 {
        assert all[cut + j] == history[cut + j];
        assert log'[|log'| - |h| + j] == log[|log| - |history| + (cut + j)];
      }
    }
  }

  lemma AppliedEmptyDiff(specs: seq<FieldSpec>, applied: map<string, string>, obs: map<string, Value>)
    requires DiffFrom(specs, applied, obs, 0) == []
    ensures SameOnSpecs(specs, AdvanceFrom(specs, applied, obs, 0), applied)
  {
    DiffEmpty(specs, applied, obs, 0);
    forall k | 0 <= k < |specs|
      ensures Ver(AdvanceFrom(specs, applied, obs, 0), specs[k].path) == Ver(applied, specs[k].path)
    {
      AdvanceVer(specs, applied, obs, 0, specs[k].path);
      assert !HeldBack(obs, applied, specs[k].path);
    }
  }

  lemma AcceptKeepsBook<T>(ps: Params<T>, s: State<T>, cand: T, g: Gate, now: int)
    requires ValidSpecs(ps.setup.specs) && RunPreApply(ps.hasGate, g).None? && BookInv(ps, s.book, s.front.sense.observed) && ServedInv(ps, s)
    requires BuildConfig(ps.setup.specs, ps.hooks, s.front.sense.observed) == Ok(cand)
    ensures var applied := AdvanceFrom(ps.setup.specs, s.book.applied, s.front.sense.observed, 0);
            var t := Accept(ps, s, cand, Fields(ps, s, cand), applied, g, now);
            BookInv(ps, t.book, t.front.sense.observed) && ServedInv(ps, t)
  {
    var applied := AdvanceFrom(ps.setup.specs, s.book.applied, s.front.sense.observed, 0);
    var t := Accept(ps, s, cand, Fields(ps, s, cand), applied, g, now);
    assert LogInv(ps, t.book.log) by {
      AcceptedEntry(ps, s, cand, g, now);
    }
    assert WindowInv(t.book.log, t.book.history, ps.historyN) by {
      RetainWindow(s.book.log, s.book.history, Last(t.book.log), ps.historyN);
    }
    if s.pin.pinned {
      assert t.book.log[s.pin.version - 1] == s.book.log[s.pin.version - 1];
    }
  }

  /** The three ways a flush with pending work and nothing blocked can end without error. */
  lemma FlushShape<T>(ps: Params<T>, s: State<T>, nonEmpty: bool, g: Gate, now: int)
    requires Flush(ps, s, nonEmpty, g, now).err.None?
    requires nonEmpty && s.front.sense.blocked == {}
    ensures var b := BuildConfig(ps.setup.specs, ps.hooks, s.front.sense.observed);
            var applied := AdvanceFrom(ps.setup.specs, s.book.applied, s.front.sense.observed, 0);
            && b.Ok? && (Fields(ps, s, b.value) != [] ==> RunPreApply(ps.hasGate, g).None?)
            && Flush(ps, s, nonEmpty, g, now).state ==
               if Fields(ps, s, b.value) == [] then s.(book := s.book.(applied := applied, refused := None))
               else Accept(ps, s, b.value, Fields(ps, s, b.value), applied, g, now)
  {
  }

  lemma SameOnSpecsTransitive(specs: seq<FieldSpec>, a: map<string, string>, b: map<string, string>, c: map<string, string>)
    requires SameOnSpecs(specs, a, b) && SameOnSpecs(specs, a, c)
    ensures SameOnSpecs(specs, b, c)
  {
  }

  /** Moving `applied` only off the spec paths keeps the ledger. */
  lemma BookInvModuloApplied<T>(ps: Params<T>, s: State<T>, t: State<T>)
    requires BookInv(ps, s.book, s.front.sense.observed) && ServedInv(ps, s)
    requires SameOnSpecs(ps.setup.specs, s.book.applied, t.book.applied)
    requires t.book == s.book.(applied := t.book.applied, refused := t.book.refused)
    requires t.pin == s.pin && t.out == s.out && t.front.sense.observed == s.front.sense.observed
    ensures BookInv(ps, t.book, t.front.sense.observed) && ServedInv(ps, t)
  {
    SameOnSpecsTransitive(ps.setup.specs, s.book.applied, t.book.applied, Last(s.book.log).snap.applied);
  }

  /** A flush keeps the ledger, and adds to it only what the gate accepted. */
  lemma FlushKeepsBook<T>(ps: Params<T>, s: State<T>, nonEmpty: bool, g: Gate, now: int)
    requires ValidSpecs(ps.setup.specs) && BookInv(ps, s.book, s.front.sense.observed) && ServedInv(ps, s)
    ensures var t := Flush(ps, s, nonEmpty, g, now).state;
            BookInv(ps, t.book, t.front.sense.observed) && ServedInv(ps, t)
  {
    var fl := Flush(ps, s, nonEmpty, g, now);
    if fl.err.Some? {
      FlushErrorMovesNothing(ps, s, nonEmpty, g, now);
      BookInvModuloApplied(ps, s, fl.state);
    } else if nonEmpty && s.front.sense.blocked == {} {
      FlushShape(ps, s, nonEmpty, g, now);
      var cand := BuildConfig(ps.setup.specs, ps.hooks, s.front.sense.observed).value;
      if Fields(ps, s, cand) == [] {
        AppliedEmptyDiff(ps.setup.specs, s.book.applied, s.front.sense.observed);
        BookInvModuloApplied(ps, s, fl.state);
      } else {
        AcceptKeepsBook(ps, s, cand, g, now);
      }
    }
  }

  // ---------------------------------------------------------------- every step keeps the invariant

  lemma UpdateKeeps<T>(ps: Params<T>, s: State<T>, e: Event, clock: int)
    requires Inv(ps, s, clock) && e.Update? && Enabled(ps, s, e, clock)
    ensures Inv(ps, Step(ps, s, e, clock), e.now)
  {
    OnUpdateKeeps(ps.setup, s.front, s.book.applied, s.book.refused, e.idx, e.pos, e.up, clock, e.now);
    OnUpdateGrows(ps.setup, s.front, s.book.applied, e.idx, e.pos, e.up, e.now);
  }

  /** After a flush attempt, an unapplied change is excused by a block, or is what was refused. */
  lemma FlushLeavesNothingStranded<T>(ps: Params<T>, s: State<T>, g: Gate, now: int)
    requires ValidSpecs(ps.setup.specs) && BlockInv(ps.setup, s.front.sense)
    ensures var t := Flush(ps, s, true, g, now).state;
            && t.front.batch == s.front.batch
            && t.front.sense == s.front.sense.(errors := t.front.sense.errors)
            && (t.front.sense.blocked != {} || t.book.refused == Some(t.front.sense.observed)
                || forall k :: 0 <= k < |ps.setup.specs| ==> !HeldBack(t.front.sense.observed, t.book.applied, ps.setup.specs[k].path))
  {
    if Flush(ps, s, true, g, now).err.Some? {
      FlushErrorMovesNothing(ps, s, true, g, now);
    } else {
      FlushSuccessAppliesAll(ps, s, g, now);
    }
  }

  /** Dropping the batch after a flush attempt. */
  lemma DropBatch<T>(ps: Params<T>, t: State<T>, now: int)
    requires Shaped(ps.setup, t.front.sense.sources) && t.front.sense.observed.Keys <= Paths(ps.setup.specs)
    requires BlockInv(ps.setup, t.front.sense) && BookInv(ps, t.book, t.front.sense.observed) && ServedInv(ps, t)
    requires t.front.sense.blocked != {} || t.book.refused == Some(t.front.sense.observed)
             || forall k :: 0 <= k < |ps.setup.specs| ==> !HeldBack(t.front.sense.observed, t.book.applied, ps.setup.specs[k].path)
    ensures Inv(ps, t.(front := t.front.(batch := t.front.batch.(pending := {}, timer := None, joins := []))), now)
  {
  }

  lemma FireKeeps<T>(ps: Params<T>, s: State<T>, e: Event, clock: int)
    requires Inv(ps, s, clock) && e.Fire? && Enabled(ps, s, e, clock)
    ensures Inv(ps, Step(ps, s, e, clock), e.now)
  {
    assert s.front.batch.pending != {};
    FlushKeepsBook(ps, s, true, e.gate, e.now);
    FlushLeavesNothingStranded(ps, s, e.gate, e.now);
    DropBatch(ps, Flush(ps, s, true, e.gate, e.now).state, e.now);
  }

  lemma RefreshKeeps<T>(ps: Params<T>, s: State<T>, e: Event, clock: int)
    requires Inv(ps, s, clock) && e.Refresh? && Enabled(ps, s, e, clock)
    ensures Inv(ps, Step(ps, s, e, clock), e.now)
  {
    RefreshKeepsBlockInv(ps.setup, s.front.sense, e.live, 0, e.now);
    RefreshGrows(ps.setup, s.front.sense, e.live, 0, e.now);
    var t := Resolved(ps, s, e.live, e.now);
    BatchInvLater(ps.setup, s.front.batch, clock, e.now);
    FlushAllKeeps(ps, t, e.gate, e.now);
  }

  /** The flush a refresh ends in, over every field. */
  lemma FlushAllKeeps<T>(ps: Params<T>, t: State<T>, g: Gate, now: int)
    requires ValidSpecs(ps.setup.specs) && BlockInv(ps.setup, t.front.sense) && BatchInv(ps.setup, t.front.batch, now)
    requires Shaped(ps.setup, t.front.sense.sources) && t.front.sense.observed.Keys <= Paths(ps.setup.specs)
    requires BookInv(ps, t.book, t.front.sense.observed) && ServedInv(ps, t)
    ensures Inv(ps, Flush(ps, t, ps.setup.specs != [], g, now).state, now)
  {
    FlushKeepsBook(ps, t, ps.setup.specs != [], g, now);
    if ps.setup.specs != [] {
      FlushLeavesNothingStranded(ps, t, g, now);
    }
  }

  lemma {:induction false} FindIsInHistory<T>(h: seq<Snapshot<T>>, version: nat, i: nat)
    requires i <= |h|
    ensures FindFrom(h, version, i).Some? <==> exists j :: i <= j < |h| && h[j].version == version
    ensures FindFrom(h, version, i).Some? ==> exists j :: i <= j < |h| && FindFrom(h, version, i).value == h[j] && h[j].version == version
    decreases |h| - i
  {
    if i < |h| {
      FindIsInHistory(h, version, i + 1);
    }
  }

  /** Pin(v) finds v exactly when it is one of the `historyN` newest prior versions or
      the current one, and what it finds is the configuration accepted as v. */
  lemma PinFindsRetained<T>(ps: Params<T>, b: Book<T>, observed: map<string, Value>, v: nat)
    requires BookInv(ps, b, observed)
    ensures var r := FindFrom(b.history, v, 0);
            && (r.Some? <==> 1 <= v <= b.version && b.version - v <= ps.historyN)
            && (r.Some? ==> r.value == b.log[v - 1].snap)
  {
    FindIsInHistory(b.history, v, 0);
    var n, m := |b.log|, |b.history|;
    forall j | 0 <= j < m
      ensures b.history[j].version == n - m + j + 1
    {
      assert EntryInv(ps, b.log, n - m + j);
    }
    if 1 <= v <= n && n - v <= ps.historyN {
      assert b.history[v - 1 - (n - m)].version == v;
    }
  }

  lemma PinKeeps<T>(ps: Params<T>, s: State<T>, e: Event, clock: int)
    requires Inv(ps, s, clock) && (e.PinAt? || e.PinCurrent? || e.Unpin?)
    ensures Inv(ps, Step(ps, s, e, clock), clock)
  {
    if e.PinAt? {
      PinFindsRetained(ps, s.book, s.front.sense.observed, e.version);
    }
  }

  /** Every enabled event keeps the whole invariant. */
  lemma StepKeeps<T>(ps: Params<T>, s: State<T>, e: Event, clock: int)
    requires Inv(ps, s, clock) && Enabled(ps, s, e, clock)
    ensures Inv(ps, Step(ps, s, e, clock), Clock(e, clock))
  {
    if e.Update? {
      UpdateKeeps(ps, s, e, clock);
    } else if e.Fire? {
      FireKeeps(ps, s, e, clock);
    } else if e.Refresh? {
      RefreshKeeps(ps, s, e, clock);
    } else {
      PinKeeps(ps, s, e, clock);
    }
  }

  /** A successful load establishes it. */
  lemma LoadEstablishes<T>(ps: Params<T>, obs: map<string, Value>, sources: seq<seq<SrcState>>, g: Gate, now: int, s: State<T>)
    requires Loaded(ps, obs, sources, g, now, s)
    ensures Inv(ps, s, now)
  {
    assert EntryInv(ps, s.book.log, 0);
    assert Revived(ps.setup, obs, s.book.applied, s.front.batch);
  }
}
