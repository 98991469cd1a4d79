/** What an update and a refresh do, said without the functions that do it: which position holds
    what, which value a field is left observing, and which fields block. */
module IntakeMeaning {
  import opened Values
  import opened Chain
  import opened Intake
  import IntakeLaws

  // ---------------------------------------------------------------- the reference rules

  /** What a position that was asked is remembered as. */
  ghost predicate Remembers(decode: Decode, spec: FieldSpec, pos: nat, raw: Raw, st: SrcState)
    requires pos < |spec.refs|
  {
    match raw
    case NoProvider => st == Failed(ErrInvalid)
    case Failure(e) => st == Failed(e)
    case Answer(v) =>
      var d := decode(spec.refs[pos], v);
      st == if d.Ok? then Holds(d.value.(sensitive := d.value.sensitive || spec.sensitive)) else Failed(d.err)
  }

  /** A position that says nothing about the field: silent so far, or absent. */
  predicate Passes(st: SrcState) {
    st.Unseen? || (st.Failed? && IsNotFound(st.err))
  }

  /** `i` is the first position that does not pass. */
  ghost predicate DecidesMem(states: seq<SrcState>, i: nat) {
    i < |states| && !Passes(states[i]) && forall j :: 0 <= j < i ==> Passes(states[j])
  }

  ghost predicate AllPass(states: seq<SrcState>) {
    forall j :: 0 <= j < |states| ==> Passes(states[j])
  }

  lemma {:induction false} RecomputeFinds(states: seq<SrcState>, i: nat, k: nat)
    requires i <= k && DecidesMem(states, k)
    ensures RecomputeFrom(states, i) == if states[k].Holds? then Won(k, states[k].value) else Stopped(k, states[k].err)
    decreases k - i
  {
    if i < k {
      assert Passes(states[i]);
      RecomputeFinds(states, i + 1, k);
    }
  }

  lemma {:induction false} RecomputeFindsNone(states: seq<SrcState>, i: nat)
    requires i <= |states| && AllPass(states)
    ensures RecomputeFrom(states, i) == Absent(ErrNotFound)
    decreases |states| - i
  {
    if i < |states| {
      assert Passes(states[i]);
      RecomputeFindsNone(states, i + 1);
    }
  }

  /** The winner is the first position that does not pass; without one the field is absent, for a
      single ref with that ref's own error and for a chain with the plain one. */
  lemma RecomputeMeans(states: seq<SrcState>, i: nat)
    ensures DecidesMem(states, i) ==> Recompute(states) == if states[i].Holds? then Won(i, states[i].value) else Stopped(i, states[i].err)
    ensures AllPass(states) ==> Recompute(states) == Absent(if |states| == 1 && states[0].Failed? then states[0].err else ErrNotFound)
  {
    if DecidesMem(states, i) {
      RecomputeFinds(states, 0, i);
    } else if AllPass(states) {
      RecomputeFindsNone(states, 0);
    }
  }

  /** Every state has one or the other. */
  lemma {:induction false} SomeoneDecides(states: seq<SrcState>) returns (i: nat)
    ensures DecidesMem(states, i) || AllPass(states)
    decreases |states|
  {
    if states == [] {
      return 0;
    }
    var n := |states| - 1;
    i := SomeoneDecides(states[..n]);
    if AllPass(states[..n]) {
      assert forall j :: 0 <= j < n ==> states[j] == states[..n][j];
      i := n;
    } else {
      assert forall j :: 0 <= j < n ==> states[j] == states[..n][j];
    }
  }

  /** What a field observes once `val` has come in: `val`, unless that is no change. */
  ghost predicate Observes(before: map<string, Value>, after: map<string, Value>, path: string, val: Value) {
    path in after && after[path] == if path in before && !Changed(before[path], val) then before[path] else val
  }

  ghost predicate Unmoved(before: map<string, Value>, after: map<string, Value>, path: string) {
    (path in after <==> path in before) && (path in before ==> after[path] == before[path])
  }

  ghost predicate OthersUnmoved(before: map<string, Value>, after: map<string, Value>, path: string) {
    forall p :: p != path ==> Unmoved(before, after, p)
  }

  /** The default a field's tags give it. */
  function Default(spec: FieldSpec): Value {
    Value(spec.default, "default", spec.sensitive, None, map[])
  }

  /** How a field reacts to its winner: it observes the value, or under onfail:"default" its
      default, and otherwise keeps what it had; and it blocks exactly when it stopped on an error
      under onfail:"fail". No other field is touched. */
  ghost predicate Follows(spec: FieldSpec, w: Winner, s: Sense, t: Sense) {
    && OthersUnmoved(s.observed, t.observed, spec.path)
    && (match w
        case Won(_, v) => Observes(s.observed, t.observed, spec.path, v)
        case Stopped(_, _) =>
          if spec.onFail.UseDefault? then Observes(s.observed, t.observed, spec.path, Default(spec))
          else Unmoved(s.observed, t.observed, spec.path)
        case Absent(_) => Unmoved(s.observed, t.observed, spec.path))
    && t.blocked == (if w.Stopped? && spec.onFail.Fail? then s.blocked + {spec.path} else s.blocked - {spec.path})
    && t.sources == s.sources
  }

  lemma ByRefreshFollows(su: Setup, s: Sense, spec: FieldSpec, w: Winner, now: int)
    requires |spec.refs| >= 1 && (w.Stopped? ==> w.pos < |spec.refs|)
    ensures Follows(spec, w, s, ByRefresh(su, s, spec, w, now))
  {
  }

  // ---------------------------------------------------------------- one update

  /** The reaction the loop has to a winner is a refresh's, whatever it does to the batch. */
  lemma ByWatchFollows(su: Setup, f: Front, applied: map<string, string>, spec: FieldSpec, w: Winner, now: int)
    requires |spec.refs| >= 1 && (w.Stopped? ==> w.pos < |spec.refs|)
    ensures Follows(spec, w, f.sense, ByWatch(su, f, applied, spec, w, now).sense)
  {
    IntakeLaws.RefreshActsAsWatch(su, f, applied, spec, w, now);
    ByRefreshFollows(su, f.sense, spec, w, now);
  }

  /** Only position `pos` of field `idx` is remembered anew. */
  ghost predicate OneRemembered(su: Setup, s: Sense, t: Sense, idx: nat, pos: nat, up: Raw)
    requires Shaped(su, s.sources) && Shaped(su, t.sources) && idx < |su.specs| && pos < |su.specs[idx].refs|
  {
    && Remembers(su.decode, su.specs[idx], pos, up, t.sources[idx][pos])
    && (forall k :: 0 <= k < |s.sources[idx]| && k != pos ==> t.sources[idx][k] == s.sources[idx][k])
    && (forall i :: 0 <= i < |su.specs| && i != idx ==> t.sources[i] == s.sources[i])
  }

  lemma RecordMeans(su: Setup, s: Sense, idx: nat, pos: nat, up: Raw)
    requires Shaped(su, s.sources) && idx < |su.specs| && pos < |su.specs[idx].refs|
    ensures var t := Record(su, s, idx, pos, up);
            Shaped(su, t.sources) && OneRemembered(su, s, t, idx, pos, up) && t == s.(sources := t.sources)
  {
  }

  /** An update: the position that reported is remembered with its outcome and every other one as
      it was; `k` is the first position that decides now, if any does; and the field follows it. */
  lemma UpdateMeans(su: Setup, f: Front, applied: map<string, string>, idx: nat, pos: nat, up: Raw, now: int, k: nat)
    requires Shaped(su, f.sense.sources) && idx < |su.specs| && pos < |su.specs[idx].refs|
    ensures var s, t, spec := f.sense, OnUpdate(su, f, applied, idx, pos, up, now).sense, su.specs[idx];
            && Shaped(su, t.sources) && OneRemembered(su, s, t, idx, pos, up)
            && (DecidesMem(t.sources[idx], k) ==> FollowsState(spec, k, t.sources[idx][k], s, t))
            && (AllPass(t.sources[idx]) ==> Follows(spec, Absent(ErrNotFound), s.(sources := t.sources), t))
  {
    RecordMeans(su, f.sense, idx, pos, up);
    var r := Record(su, f.sense, idx, pos, up);
    RecomputeMeans(r.sources[idx], k);
    ByWatchFollows(su, f.(sense := r), applied, su.specs[idx], Recompute(r.sources[idx]), now);
  }

  /** The field follows the position that decides. */
  ghost predicate FollowsState(spec: FieldSpec, k: nat, st: SrcState, s: Sense, t: Sense) {
    match st
    case Holds(v) => Follows(spec, Won(k, v), s.(sources := t.sources), t)
    case Failed(e) => Follows(spec, Stopped(k, e), s.(sources := t.sources), t)
    case Unseen => false
  }

  // ---------------------------------------------------------------- a refresh

  /** Whether the live walk gets as far as position `k`. */
  ghost predicate Reached(decode: Decode, spec: FieldSpec, raws: seq<Raw>, k: nat)
    requires |raws| == |spec.refs| && k < |raws|
  {
    forall j :: 0 <= j < k ==> FallsThrough(Lookup(decode, spec.refs[j], raws[j]))
  }

  /** Field `i` after a refresh: the fresh outcome wherever the live walk got to, and the old one
      everywhere else. */
  ghost predicate Refreshed(su: Setup, i: nat, raws: seq<Raw>, was: seq<SrcState>, now: seq<SrcState>)
    requires i < |su.specs| && |raws| == |su.specs[i].refs| == |was| == |now|
  {
    forall k :: 0 <= k < |raws| ==>
      if Reached(su.decode, su.specs[i], raws, k) then Remembers(su.decode, su.specs[i], k, raws[k], now[k]) else now[k] == was[k]
  }

  lemma MergeMeans(su: Setup, i: nat, raws: seq<Raw>, was: seq<SrcState>)
    requires i < |su.specs| && |raws| == |su.specs[i].refs| == |was|
    ensures Refreshed(su, i, raws, was, Merge(was, Seed(su.decode, su.specs[i], raws)))
  {
    forall k | 0 <= k < |raws|
      ensures var m := Merge(was, Seed(su.decode, su.specs[i], raws));
              if Reached(su.decode, su.specs[i], raws, k) then Remembers(su.decode, su.specs[i], k, raws[k], m[k]) else m[k] == was[k]
    {
      if Reached(su.decode, su.specs[i], raws, k) {
        SeedReached(su.decode, su.specs[i], raws, 0, k);
      } else {
        var j :| 0 <= j < k && !FallsThrough(Lookup(su.decode, su.specs[i].refs[j], raws[j]));
        SeedUnreached(su.decode, su.specs[i], raws, 0, j, k);
      }
    }
  }

  /** The winner of the fresh live walk, with its value marked as the field's secrecy demands. */
  function Live(decode: Decode, spec: FieldSpec, raws: seq<Raw>): Winner
    requires |raws| == |spec.refs| && 1 <= |raws|
  {
    match LiveFrom(decode, spec.refs, raws, 0)
    case Won(k, v) => Won(k, v.(sensitive := v.sensitive || spec.sensitive))
    case Stopped(k, e) => Stopped(k, e)
    case Absent(e) => Absent(e)
  }

  /** Reactions do not look at how an error is wrapped. */
  lemma FollowsClass(spec: FieldSpec, v: Winner, w: Winner, s: Sense, t: Sense)
    requires Follows(spec, v, s, t) && (v.Won? <==> w.Won?) && (v.Stopped? <==> w.Stopped?) && (v.Won? ==> v.value == w.value)
    ensures Follows(spec, w, s, t)
  {
  }

  lemma RefreshFieldMeans(su: Setup, s: Sense, i: nat, raws: seq<Raw>, now: int)
    requires Shaped(su, s.sources) && i < |su.specs| && |raws| == |su.specs[i].refs|
    ensures var t := RefreshField(su, s, i, raws, now);
            && |t.sources| == |s.sources| && (forall k :: 0 <= k < |s.sources| && k != i ==> t.sources[k] == s.sources[k])
            && |t.sources[i]| == |raws| && Refreshed(su, i, raws, s.sources[i], t.sources[i])
            && Follows(su.specs[i], Live(su.decode, su.specs[i], raws), s.(sources := t.sources), t)
  {
    var spec, m := su.specs[i], Merge(s.sources[i], Seed(su.decode, su.specs[i], raws));
    MergeMeans(su, i, raws, s.sources[i]);
    RefreshMergeAgrees(su.decode, spec, raws, s.sources[i]);
    var r := s.(sources := s.sources[i := m]);
    ByRefreshFollows(su, r, spec, Recompute(m), now);
    FollowsClass(spec, Recompute(m), Live(su.decode, spec, raws), r, RefreshField(su, s, i, raws, now));
  }

  /** What field `k`'s positions are remembered as. */
  function SourcesAt(s: Sense, k: nat): seq<SrcState> {
    if k < |s.sources| then s.sources[k] else []
  }

  /** Field `k` between `s` and `t`: its sources, ... */
  ghost predicate SourcesRefreshed(su: Setup, s: Sense, t: Sense, k: nat, raws: seq<Raw>)
    requires k < |su.specs|
  {
    var was, now := SourcesAt(s, k), SourcesAt(t, k);
    |raws| == |su.specs[k].refs| == |was| == |now| && Refreshed(su, k, raws, was, now)
  }

  /** ... what it observes, and whether it blocks. */
  ghost predicate ValueRefreshed(spec: FieldSpec, w: Winner, s: Sense, t: Sense) {
    && (match w
        case Won(_, v) => Observes(s.observed, t.observed, spec.path, v)
        case Stopped(_, _) =>
          if spec.onFail.UseDefault? then Observes(s.observed, t.observed, spec.path, Default(spec))
          else Unmoved(s.observed, t.observed, spec.path)
        case Absent(_) => Unmoved(s.observed, t.observed, spec.path))
    && (spec.path in t.blocked <==> w.Stopped? && spec.onFail.Fail?)
  }

  ghost predicate FieldRefreshed(su: Setup, s: Sense, t: Sense, k: nat, raws: seq<Raw>)
    requires k < |su.specs| && |raws| == |su.specs[k].refs| >= 1
  {
    SourcesRefreshed(su, s, t, k, raws) && ValueRefreshed(su.specs[k], Live(su.decode, su.specs[k], raws), s, t)
  }

  /** What the field at `path` observes and whether it blocks is the same in both. */
  ghost predicate ValueKept(path: string, s: Sense, t: Sense) {
    Unmoved(s.observed, t.observed, path) && (path in s.blocked <==> path in t.blocked)
  }

  lemma HitRefreshed(su: Setup, s: Sense, raws: seq<Raw>, k: nat, now: int)
    requires Shaped(su, s.sources) && k < |su.specs| && |raws| == |su.specs[k].refs|
    ensures FieldRefreshed(su, s, RefreshField(su, s, k, raws, now), k, raws)
  {
    RefreshFieldMeans(su, s, k, raws, now);
  }

  lemma ValueMissed(su: Setup, s: Sense, raws: seq<Raw>, i: nat, now: int, path: string)
    requires Shaped(su, s.sources) && i < |su.specs| && |raws| == |su.specs[i].refs| && su.specs[i].path != path
    ensures ValueKept(path, s, RefreshField(su, s, i, raws, now))
  {
    RefreshFieldMeans(su, s, i, raws, now);
  }

  /** A refresh that no longer comes to a field keeps what the field has. */
  lemma {:induction false} ValueKeptFrom(su: Setup, s: Sense, live: seq<seq<Raw>>, i: nat, now: int, path: string)
    requires Shaped(su, s.sources) && LiveShaped(su, live) && i <= |su.specs|
    requires forall j :: i <= j < |su.specs| ==> su.specs[j].path != path
    ensures ValueKept(path, s, RefreshFrom(su, s, live, i, now))
    decreases |su.specs| - i
  {
    if i < |su.specs| {
      ValueMissed(su, s, live[i], i, now, path);
      ValueKeptFrom(su, RefreshField(su, s, i, live[i], now), live, i + 1, now, path);
    }
  }

  lemma ValueStep(su: Setup, s: Sense, live: seq<seq<Raw>>, now: int, k: nat, w: Winner) returns (r: Sense)
    requires Shaped(su, s.sources) && LiveShaped(su, live) && k < |su.specs| && w == Live(su.decode, su.specs[k], live[k])
    ensures Shaped(su, r.sources) && ValueRefreshed(su.specs[k], w, s, r)
    ensures RefreshFrom(su, s, live, k, now) == RefreshFrom(su, r, live, k + 1, now)
  {
    HitRefreshed(su, s, live[k], k, now);
    r := RefreshField(su, s, k, live[k], now);
  }

  lemma ValueThenKept(spec: FieldSpec, w: Winner, s: Sense, r: Sense, t: Sense)
    requires ValueRefreshed(spec, w, s, r) && ValueKept(spec.path, r, t)
    ensures ValueRefreshed(spec, w, s, t)
  {
  }

  lemma ValueHere(su: Setup, s: Sense, live: seq<seq<Raw>>, now: int, k: nat, w: Winner)
    requires Shaped(su, s.sources) && LiveShaped(su, live) && k < |su.specs| && w == Live(su.decode, su.specs[k], live[k])
    ensures ValueRefreshed(su.specs[k], w, s, RefreshFrom(su, s, live, k, now))
  {
    var r := ValueStep(su, s, live, now, k, w);
    ValueKeptFrom(su, r, live, k + 1, now, su.specs[k].path);
    ValueThenKept(su.specs[k], w, s, r, RefreshFrom(su, r, live, k + 1, now));
  }

  /** Until it comes to a field it keeps what the field has too. */
  lemma {:induction false} ValueUntil(su: Setup, s: Sense, live: seq<seq<Raw>>, i: nat, now: int, k: nat, path: string) returns (r: Sense)
    requires Shaped(su, s.sources) && LiveShaped(su, live) && i <= k <= |su.specs|
    requires forall j :: i <= j < k ==> su.specs[j].path != path
    ensures Shaped(su, r.sources) && ValueKept(path, s, r)
    ensures RefreshFrom(su, s, live, i, now) == RefreshFrom(su, r, live, k, now)
    decreases k - i
  {
    if i == k {
      return s;
    }
    ValueMissed(su, s, live[i], i, now, path);
    r := ValueUntil(su, RefreshField(su, s, i, live[i], now), live, i + 1, now, k, path);
  }

  /** A refresh, for every field: the fresh outcome at every position the live walk reaches and
      the old one elsewhere; the live walk's value observed, or the default onfail:"default"
      gives, or nothing new; and blocked exactly if the walk stopped under onfail:"fail". */
  lemma RefreshMeans(su: Setup, s: Sense, live: seq<seq<Raw>>, now: int, k: nat)
    requires Shaped(su, s.sources) && LiveShaped(su, live) && k < |su.specs|
    ensures FieldRefreshed(su, s, RefreshFrom(su, s, live, 0, now), k, live[k])
  {
    MergeMeans(su, k, live[k], s.sources[k]);
    var r := ValueUntil(su, s, live, 0, now, k, su.specs[k].path);
    ValueHere(su, r, live, now, k, Live(su.decode, su.specs[k], live[k]));
  }

  // ---------------------------------------------------------------- who joins a batch

  /** What `c` has beyond `b` joined at `now`; a batch that was empty starts over. */
  ghost predicate JoinedAt(b: Batch, c: Batch, now: int) {
    if b.pending == {} then c.pending != {} ==> forall k :: 0 <= k < |c.joins| ==> c.joins[k].at == now
    else b.pending <= c.pending && b.joins <= c.joins && forall k :: |b.joins| <= k < |c.joins| ==> c.joins[k].at == now
  }

  lemma {:induction false} RearmJoinsNow(su: Setup, b: Batch, observed: map<string, Value>, applied: map<string, string>, i: nat, now: int)
    requires i <= |su.specs|
    ensures JoinedAt(b, RearmFrom(su, b, observed, applied, i, now), now)
    decreases |su.specs| - i
  {
    if i < |su.specs| {
      var c := if HeldBack(observed, applied, su.specs[i].path) then AddPending(su, b, su.specs[i], now) else b;
      RearmJoinsNow(su, c, observed, applied, i + 1, now);
    }
  }

  lemma UnblockJoinsNow(su: Setup, f: Front, applied: map<string, string>, path: string, now: int)
    ensures JoinedAt(f.batch, Unblock(su, f, applied, path, now).batch, now)
  {
    RearmJoinsNow(su, f.batch, f.sense.observed, applied, 0, now);
  }

  /** If what is observed has changed, the last to join the batch was `spec`'s field, at `now`. */
  ghost predicate JoinsIfChanged(spec: FieldSpec, f: Front, t: Front, now: int) {
    t.sense.observed != f.sense.observed ==>
      && spec.path in t.batch.pending && t.batch.joins != []
      && t.batch.joins[|t.batch.joins| - 1].path == spec.path && t.batch.joins[|t.batch.joins| - 1].at == now
  }

  /** An update puts into the batch, as of its own time, the field whose value it changed; whatever
      else it lets in joins at that time too. */
  lemma UpdateJoinsNow(su: Setup, f: Front, applied: map<string, string>, idx: nat, pos: nat, up: Raw, now: int)
    requires Shaped(su, f.sense.sources) && idx < |su.specs| && pos < |su.specs[idx].refs|
    ensures var t := OnUpdate(su, f, applied, idx, pos, up, now);
            JoinedAt(f.batch, t.batch, now) && JoinsIfChanged(su.specs[idx], f, t, now)
  {
    var s := Record(su, f.sense, idx, pos, up);
    WatchJoinsNow(su, f.(sense := s), applied, su.specs[idx], Recompute(s.sources[idx]), now);
  }

  lemma MarkJoinsNow(su: Setup, b: Batch, u: Front, spec: FieldSpec, val: Value, now: int)
    requires JoinedAt(b, u.batch, now)
    ensures var t := MarkChanged(su, u, spec, val, now);
            JoinedAt(b, t.batch, now) && JoinsIfChanged(spec, u, t, now)
  {
  }

  lemma WatchJoinsNow(su: Setup, f: Front, applied: map<string, string>, spec: FieldSpec, w: Winner, now: int)
    requires |spec.refs| >= 1 && (w.Stopped? ==> w.pos < |spec.refs|)
    ensures var t := ByWatch(su, f, applied, spec, w, now);
            JoinedAt(f.batch, t.batch, now) && JoinsIfChanged(spec, f, t, now)
  {
    if w.Won? {
      var h := f.(sense := Healthy(f.sense, spec.path, now));
      UnblockJoinsNow(su, h, applied, spec.path, now);
      MarkJoinsNow(su, f.batch, Unblock(su, h, applied, spec.path, now), spec, w.value, now);
    } else {
      UnblockJoinsNow(su, f, applied, spec.path, now);
      if w.Stopped? && spec.onFail.UseDefault? {
        var u := Unblock(su, f, applied, spec.path, now);
        MarkJoinsNow(su, f.batch, u.(sense := Healthy(u.sense, spec.path, now)), spec, DefaultValue(spec), now);
      }
    }
  }

  // ---------------------------------------------------------------- windows

  /** A field's window: the smallest override on its chain; the default exactly without one. */
  lemma WindowMeans(su: Setup, spec: FieldSpec)
    ensures (forall k :: 0 <= k < |spec.refs| ==> spec.refs[k].debounce.None?) ==> DebounceFor(su, spec) == su.debounce
    ensures forall k :: 0 <= k < |spec.refs| && spec.refs[k].debounce.Some? ==> DebounceFor(su, spec) <= spec.refs[k].debounce.value
    ensures (exists k :: 0 <= k < |spec.refs| && spec.refs[k].debounce.Some?) ==>
              exists k :: 0 <= k < |spec.refs| && spec.refs[k].debounce == Some(DebounceFor(su, spec))
  {
    Tightest(spec.refs, 0, None);
  }

  lemma {:induction false} Tightest(refs: seq<Ref>, i: nat, best: Option<int>)
    requires i <= |refs|
    ensures var d := DebounceFrom(refs, i, best);
            && (d.None? <==> best.None? && forall k :: i <= k < |refs| ==> refs[k].debounce.None?)
            && (d.Some? ==> d == best || exists k :: i <= k < |refs| && refs[k].debounce == d)
            && (d.Some? && best.Some? ==> d.value <= best.value)
            && (forall k :: i <= k < |refs| && refs[k].debounce.Some? ==> d.Some? && d.value <= refs[k].debounce.value)
    decreases |refs| - i
  {
    if i < |refs| {
      var d := refs[i].debounce;
      Tightest(refs, i + 1, if d.Some? && (best.None? || d.value < best.value) then d else best);
    }
  }
}
