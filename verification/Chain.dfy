/** Precedence chains. The live walk (`resolveChain`) and the remembered form
    (`seedChainSources`, `recomputeWinner` and the refresh merge) are written
    separately in the source; this module proves that they agree. */
module Chain {
  import opened Values

  /** What a provider call for one position comes back with. */
  datatype Raw = NoProvider | Answer(value: Value) | Failure(err: Err)

  /** A ref's decode pipeline, as an opaque function of the ref and the value. */
  type Decode = (Ref, Value) -> Result<Value>

  /** One position's latest known outcome; `Unseen` until it first reports. */
  datatype SrcState = Unseen | Holds(value: Value) | Failed(err: Err)

  datatype Winner =
    | Won(pos: nat, value: Value)
    | Stopped(pos: nat, err: Err)
    | Absent(cause: Err)

  /** One position resolved live: provider, then decode. */
  function Lookup(decode: Decode, ref: Ref, raw: Raw): Result<Value> {
    match raw
    case NoProvider => Bad(ErrInvalid)
    case Failure(e) => Bad(e)
    case Answer(v) => decode(ref, v)
  }

  predicate FallsThrough(r: Result<Value>) {
    r.Bad? && IsNotFound(r.err)
  }

  /** The reference rule: `i` is the first position that does not fall through. */
  ghost predicate Decides(decode: Decode, refs: seq<Ref>, raws: seq<Raw>, i: nat)
    requires |refs| == |raws|
  {
    && i < |refs|
    && !FallsThrough(Lookup(decode, refs[i], raws[i]))
    && forall j :: 0 <= j < i ==> FallsThrough(Lookup(decode, refs[j], raws[j]))
  }

  ghost predicate AllAbsent(decode: Decode, refs: seq<Ref>, raws: seq<Raw>)
    requires |refs| == |raws|
  {
    forall j :: 0 <= j < |refs| ==> FallsThrough(Lookup(decode, refs[j], raws[j]))
  }

  /** The live walk over a chain from position `i` on. */
  function LiveFrom(decode: Decode, refs: seq<Ref>, raws: seq<Raw>, i: nat): (w: Winner)
    requires |refs| == |raws| && 1 <= |refs| && i <= |refs|
    ensures w.Won? ==> i <= w.pos < |refs|
    ensures w.Stopped? ==> i <= w.pos < |refs| && !IsNotFound(w.err)
    ensures w.Absent? ==> IsNotFound(w.cause)
    decreases |refs| - i
  {
    if i == |refs| then Absent(ProviderErr(refs[0].scheme, ErrNotFound))
    else
      var r := Lookup(decode, refs[i], raws[i]);
      if r.Ok? then Won(i, r.value)
      else if IsNotFound(r.err) then LiveFrom(decode, refs, raws, i + 1)
      else Stopped(i, ProviderErr(refs[i].scheme, r.err))
  }

  /** A ref whose scheme has no provider stops the walk: it is invalid, not absent, and nothing
      below it is asked. */
  lemma {:induction false} UnregisteredStops(decode: Decode, refs: seq<Ref>, raws: seq<Raw>, i: nat, k: nat)
    requires |refs| == |raws| && i <= k < |refs| && raws[k].NoProvider?
    requires forall j :: i <= j < k ==> FallsThrough(Lookup(decode, refs[j], raws[j]))
    ensures LiveFrom(decode, refs, raws, i) == Stopped(k, ProviderErr(refs[k].scheme, ErrInvalid))
    decreases k - i
  {
    if i < k {
      UnregisteredStops(decode, refs, raws, i + 1, k);
    }
  }

  /** `resolveChain`: the walk as the source's loop, proved against the reference rule. */
  method ResolveChain(decode: Decode, refs: seq<Ref>, raws: seq<Raw>) returns (w: Winner)
    requires |refs| == |raws| && 1 <= |refs|
    ensures w == LiveFrom(decode, refs, raws, 0)
    ensures w.Won? ==> Decides(decode, refs, raws, w.pos) && Lookup(decode, refs[w.pos], raws[w.pos]) == Ok(w.value)
    ensures w.Stopped? ==> Decides(decode, refs, raws, w.pos)
                           && Lookup(decode, refs[w.pos], raws[w.pos]).Bad?
                           && w.err == ProviderErr(refs[w.pos].scheme, Lookup(decode, refs[w.pos], raws[w.pos]).err)
    ensures w.Absent? <==> AllAbsent(decode, refs, raws)
  {
    var i := 0;
    while i < |refs|
      invariant 0 <= i <= |refs|
      invariant forall j :: 0 <= j < i ==> FallsThrough(Lookup(decode, refs[j], raws[j]))
      invariant LiveFrom(decode, refs, raws, 0) == LiveFrom(decode, refs, raws, i)
    {
      var r := Lookup(decode, refs[i], raws[i]);
      if r.Ok? {
        return Won(i, r.value);
      }
      if !IsNotFound(r.err) {
        return Stopped(i, ProviderErr(refs[i].scheme, r.err));
      }
      i := i + 1;
    }
    return Absent(ProviderErr(refs[0].scheme, ErrNotFound));
  }

  /** `recomputeWinner` over remembered state, from position `i` on. */
  function RecomputeFrom(states: seq<SrcState>, i: nat): (w: Winner)
    requires i <= |states|
    ensures w.Won? ==> i <= w.pos < |states| && states[w.pos] == Holds(w.value)
    ensures w.Stopped? ==> i <= w.pos < |states| && states[w.pos] == Failed(w.err) && !IsNotFound(w.err)
    ensures w.Absent? ==> w.cause == ErrNotFound
    decreases |states| - i
  {
    if i == |states| then Absent(ErrNotFound)
    else match states[i]
      case Unseen => RecomputeFrom(states, i + 1)
      case Holds(v) => Won(i, v)
      case Failed(e) => if IsNotFound(e) then RecomputeFrom(states, i + 1) else Stopped(i, e)
  }

  /** The current winner. A one-element chain that is absent reports that
      position's own error, a longer one the plain not-found sentinel. */
  function Recompute(states: seq<SrcState>): (w: Winner)
    ensures w.Won? ==> w.pos < |states| && states[w.pos] == Holds(w.value)
    ensures w.Stopped? ==> w.pos < |states| && states[w.pos] == Failed(w.err) && !IsNotFound(w.err)
    ensures w.Absent? ==> IsNotFound(w.cause)
  {
    var w := RecomputeFrom(states, 0);
    if w.Absent? && |states| == 1 && states[0].Failed? then Absent(states[0].err) else w
  }

  method RecomputeWinner(states: seq<SrcState>) returns (w: Winner)
    ensures w == Recompute(states)
  {
    var i := 0;
    while i < |states|
      invariant 0 <= i <= |states|
      invariant RecomputeFrom(states, 0) == RecomputeFrom(states, i)
      invariant forall j :: 0 <= j < i ==> states[j].Unseen? || (states[j].Failed? && IsNotFound(states[j].err))
    {
      match states[i] {
        case Unseen =>
        case Failed(e) =>
          if !IsNotFound(e) {
            return Stopped(i, e);
          }
        case Holds(v) =>
          return Won(i, v);
      }
      i := i + 1;
    }
    if |states| == 1 && states[0].Failed? {
      return Absent(states[0].err);
    }
    return Absent(ErrNotFound);
  }

  function Settle(decode: Decode, spec: FieldSpec, ref: Ref, raw: Raw): SrcState {
    match Lookup(decode, ref, raw)
    case Ok(v) => Holds(MarkSensitive(spec.sensitive, v))
    case Bad(e) => Failed(e)
  }

  /** What a seeding walk that has reached position `i` still adds. */
  function SeedFrom(decode: Decode, spec: FieldSpec, raws: seq<Raw>, i: nat): (st: seq<SrcState>)
    requires |raws| == |spec.refs| && i <= |raws|
    ensures |st| == |raws| - i
    decreases |raws| - i
  {
    if i == |raws| then []
    else
      var s := Settle(decode, spec, spec.refs[i], raws[i]);
      if s.Failed? && IsNotFound(s.err) then [s] + SeedFrom(decode, spec, raws, i + 1)
      else [s] + seq(|raws| - i - 1, _ => Unseen)
  }

  function Seed(decode: Decode, spec: FieldSpec, raws: seq<Raw>): (st: seq<SrcState>)
    requires |raws| == |spec.refs|
    ensures |st| == |raws|
  {
    SeedFrom(decode, spec, raws, 0)
  }

  /** `seedChainSources`: one live walk, remembered position by position. */
  method SeedChainSources(decode: Decode, spec: FieldSpec, raws: seq<Raw>) returns (st: seq<SrcState>)
    requires |raws| == |spec.refs|
    ensures st == Seed(decode, spec, raws)
  {
    st := seq(|raws|, _ => Unseen);
    var i := 0;
    while i < |raws|
      invariant 0 <= i <= |raws| && |st| == |raws|
      invariant st[i..] == seq(|raws| - i, _ => Unseen)
      invariant st[..i] + SeedFrom(decode, spec, raws, i) == Seed(decode, spec, raws)
    {
      var s := Settle(decode, spec, spec.refs[i], raws[i]);
      st := st[i := s];
      assert st[i + 1..] == seq(|raws| - i - 1, _ => Unseen);
      if !(s.Failed? && IsNotFound(s.err)) {
        assert st == st[..i] + ([s] + st[i + 1..]);
        return;
      }
      i := i + 1;
    }
    assert st[..i] == st;
  }

  function Merged(was: SrcState, now: SrcState): SrcState {
    if now.Unseen? then was else now
  }

  /** `refreshNow`'s merge: only positions the fresh walk reached are replaced. */
  function Merge(was: seq<SrcState>, now: seq<SrcState>): (m: seq<SrcState>)
    requires |was| == |now|
    ensures |m| == |was|
  {
    seq(|was|, i requires 0 <= i < |was| => Merged(was[i], now[i]))
  }

  method MergeSources(was: seq<SrcState>, now: seq<SrcState>) returns (m: seq<SrcState>)
    requires |was| == |now|
    ensures m == Merge(was, now)
  {
    m := was;
    for pos := 0 to |now|
      invariant |m| == |was|
      invariant forall k :: 0 <= k < pos ==> m[k] == Merged(was[k], now[k])
      invariant forall k :: pos <= k < |m| ==> m[k] == was[k]
    {
      if !now[pos].Unseen? {
        m := m[pos := now[pos]];
      }
    }
  }

  /** Same winner, value and error class, up to the sensitivity mark that seeding
      applies early and the provider wrapping that the live walk applies. */
  ghost predicate Agree(spec: FieldSpec, live: Winner, mem: Winner) {
    match live
    case Won(i, v) => mem == Won(i, MarkSensitive(spec.sensitive, v))
    case Stopped(i, e) => i < |spec.refs| && mem.Stopped? && mem.pos == i && e == ProviderErr(spec.refs[i].scheme, mem.err)
    case Absent(e) => mem.Absent? && IsNotFound(e) && IsNotFound(mem.cause)
  }

  /** A seeding walk records position `k` when every position before it fell through. */
  lemma {:induction false} SeedReached(decode: Decode, spec: FieldSpec, raws: seq<Raw>, i: nat, k: nat)
    requires |raws| == |spec.refs| && i <= k < |raws|
    requires forall j :: i <= j < k ==> FallsThrough(Lookup(decode, spec.refs[j], raws[j]))
    ensures SeedFrom(decode, spec, raws, i)[k - i] == Settle(decode, spec, spec.refs[k], raws[k])
    decreases k - i
  {
    if i < k {
      SeedReached(decode, spec, raws, i + 1, k);
    }
  }

  /** It never looks at a position below one that decides. */
  lemma {:induction false} SeedUnreached(decode: Decode, spec: FieldSpec, raws: seq<Raw>, i: nat, j: nat, k: nat)
    requires |raws| == |spec.refs| && i <= j < k < |raws|
    requires !FallsThrough(Lookup(decode, spec.refs[j], raws[j]))
    ensures SeedFrom(decode, spec, raws, i)[k - i] == Unseen
    decreases j - i
  {
    if i < j {
      if FallsThrough(Lookup(decode, spec.refs[i], raws[i])) {
        SeedUnreached(decode, spec, raws, i + 1, j, k);
      }
    }
  }

  /** Remembering over any earlier state does not change who wins: the merged
      state is decided exactly where the fresh live walk is. */
  lemma {:induction false} MergedWalk(decode: Decode, spec: FieldSpec, raws: seq<Raw>, was: seq<SrcState>, i: nat)
    requires |raws| == |spec.refs| == |was| && 1 <= |raws| && i <= |raws|
    requires forall j :: 0 <= j < i ==> FallsThrough(Lookup(decode, spec.refs[j], raws[j]))
    ensures Agree(spec, LiveFrom(decode, spec.refs, raws, i), RecomputeFrom(Merge(was, Seed(decode, spec, raws)), i))
    decreases |raws| - i
  {
    if i < |raws| {
      SeedReached(decode, spec, raws, 0, i);
      var m := Merge(was, Seed(decode, spec, raws));
      assert m[i] == Settle(decode, spec, spec.refs[i], raws[i]);
      if FallsThrough(Lookup(decode, spec.refs[i], raws[i])) {
        MergedWalk(decode, spec, raws, was, i + 1);
      }
    }
  }

  /** Seeding a chain and then asking who wins gives the live walk's answer. */
  lemma SeedAgreesWithLiveWalk(decode: Decode, spec: FieldSpec, raws: seq<Raw>)
    requires |raws| == |spec.refs| && 1 <= |raws|
    ensures Agree(spec, LiveFrom(decode, spec.refs, raws, 0), Recompute(Seed(decode, spec, raws)))
  {
    var none := seq(|raws|, _ => Unseen);
    var now := Seed(decode, spec, raws);
    assert Merge(none, now) == now;
    MergedWalk(decode, spec, raws, none, 0);
  }

  /** After a refresh the winner is the fresh walk's winner whatever was remembered
      before, and every position below the deciding one keeps what it had reported. */
  lemma RefreshMergeAgrees(decode: Decode, spec: FieldSpec, raws: seq<Raw>, was: seq<SrcState>)
    requires |raws| == |spec.refs| == |was| && 1 <= |raws|
    ensures Agree(spec, LiveFrom(decode, spec.refs, raws, 0), Recompute(Merge(was, Seed(decode, spec, raws))))
    ensures forall k, i :: 0 <= i < k < |raws| && Decides(decode, spec.refs, raws, i)
                           ==> Merge(was, Seed(decode, spec, raws))[k] == was[k]
  {
    MergedWalk(decode, spec, raws, was, 0);
    forall k, i | 0 <= i < k < |raws| && Decides(decode, spec.refs, raws, i)
      ensures Merge(was, Seed(decode, spec, raws))[k] == was[k]
    {
      SeedUnreached(decode, spec, raws, 0, i, k);
    }
  }

  /** The fallback stays armed across a refresh: if the position that answered later
      disappears, the value a lower position had already reported takes over. */
  lemma MergeKeepsFallback(decode: Decode, spec: FieldSpec, raws: seq<Raw>, was: seq<SrcState>, i: nat, k: nat)
    requires |raws| == |spec.refs| == |was| && i < k < |raws|
    requires Decides(decode, spec.refs, raws, i)
    requires was[k].Holds? && forall j :: i < j < k ==> was[j].Unseen?
    ensures Recompute(Merge(was, Seed(decode, spec, raws))[i := Failed(ErrNotFound)]) == Won(k, was[k].value)
  {
    var m := Merge(was, Seed(decode, spec, raws));
    var later := m[i := Failed(ErrNotFound)];
    forall j | 0 <= j < k
      ensures later[j].Unseen? || (later[j].Failed? && IsNotFound(later[j].err))
    {
      if j < i {
        SeedReached(decode, spec, raws, 0, j);
      } else if i < j {
        SeedUnreached(decode, spec, raws, 0, i, j);
      }
    }
    SeedUnreached(decode, spec, raws, 0, i, k);
    SkipTo(later, 0, k);
  }

  lemma {:induction false} SkipTo(states: seq<SrcState>, i: nat, k: nat)
    requires i <= k < |states| && states[k].Holds?
    requires forall j :: i <= j < k ==> states[j].Unseen? || (states[j].Failed? && IsNotFound(states[j].err))
    ensures RecomputeFrom(states, i) == Won(k, states[k].value)
    decreases k - i
  {
    if i < k {
      SkipTo(states, i + 1, k);
    }
  }
}
