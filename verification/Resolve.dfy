/** One-shot resolution of every field: grouped by scheme and batched where a provider can,
    against resolving each field alone. */
module Resolve {
  import opened Values
  import opened Chain

  datatype Kind = Missing | Plain | Batching

  /** The backends as one load finds them. `reply` is what a batching scheme's ResolveBatch
      answers for that load, keyed by raw ref; schemes are compared by name. */
  datatype World = World(
    kind: string -> Kind,
    answer: Ref -> Raw,
    reply: string -> Result<map<string, Value>>,
    decode: Decode)

  /** A field's slot: left at its zero value, or set from a provider or a default. */
  datatype Slot = Unset | Set(value: Value, found: bool)

  function RawOf(w: World, ref: Ref): Raw {
    if w.kind(ref.scheme).Missing? then NoProvider else w.answer(ref)
  }

  function Raws(w: World, refs: seq<Ref>): (r: seq<Raw>)
    ensures |r| == |refs|
  {
    seq(|refs|, i requires 0 <= i < |refs| => RawOf(w, refs[i]))
  }

  function SetResolved(spec: FieldSpec, v: Value): Slot {
    Set(MarkSensitive(spec.sensitive, v), true)
  }

  function ApplyDefault(spec: FieldSpec): Result<Slot>
    requires |spec.refs| >= 1
  {
    if spec.hasDefault then Ok(Set(DefaultValue(spec), false))
    else if spec.optional then Ok(Unset)
    else Bad(ProviderErr(spec.refs[0].scheme, ErrNotFound))
  }

  function ApplyOnFail(spec: FieldSpec, e: Err): Result<Slot> {
    if spec.onFail.UseDefault? then Ok(Set(DefaultValue(spec), false)) else Bad(e)
  }

  /** `resolveOne`: the chain walk, then default, optional or onfail handling. */
  function Alone(w: World, spec: FieldSpec): Result<Slot>
    requires |spec.refs| >= 1
  {
    match LiveFrom(w.decode, spec.refs, Raws(w, spec.refs), 0)
    case Won(_, v) => Ok(SetResolved(spec, v))
    case Absent(_) => ApplyDefault(spec)
    case Stopped(_, e) => ApplyOnFail(spec, e)
  }

  /** The plain error for a scheme no provider is registered under. */
  const UNREGISTERED := ErrOther(0)

  predicate Single(spec: FieldSpec) {
    |spec.refs| == 1
  }

  predicate Batched(w: World, spec: FieldSpec) {
    Single(spec) && w.kind(spec.refs[0].scheme).Batching?
  }

  /** One field's share of a batch reply. */
  function FromBatch(w: World, spec: FieldSpec, got: map<string, Value>): Result<Slot>
    requires |spec.refs| >= 1
  {
    var ref := spec.refs[0];
    if ref.raw !in got then ApplyDefault(spec)
    else match w.decode(ref, got[ref.raw])
      case Ok(v) => Ok(SetResolved(spec, v))
      case Bad(e) => ApplyOnFail(spec, ProviderErr(ref.scheme, e))
  }

  /** What this load makes of one field, leaving aside failures of the whole scheme. */
  function SlotOf(w: World, spec: FieldSpec): Result<Slot>
    requires |spec.refs| >= 1
  {
    if Batched(w, spec) && w.reply(spec.refs[0].scheme).Ok? then FromBatch(w, spec, w.reply(spec.refs[0].scheme).value)
    else Alone(w, spec)
  }

  /** The field's whole scheme fails before any policy of the field's own is asked: a
      single-ref scheme without a provider, or a batch call that failed. */
  predicate SchemeFails(w: World, spec: FieldSpec) {
    Single(spec) &&
    var s := spec.refs[0].scheme;
    w.kind(s).Missing? || (w.kind(s).Batching? && w.reply(s).Bad?)
  }

  ghost predicate FailsWith(w: World, spec: FieldSpec, e: Err) {
    |spec.refs| >= 1 &&
    if SchemeFails(w, spec) then Blames(w, spec, e) else SlotOf(w, spec) == Bad(e)
  }

  ghost predicate Fine(w: World, spec: FieldSpec) {
    |spec.refs| >= 1 && !SchemeFails(w, spec) && SlotOf(w, spec).Ok?
  }

  // ---------------------------------------------------------------- the reference rule

  /** What the backends say about one ref: a scheme without a provider is invalid, an error is
      that error, an answer is what its decoding makes of it. */
  function Says(w: World, ref: Ref): Result<Value> {
    if w.kind(ref.scheme).Missing? || w.answer(ref).NoProvider? then Bad(ErrInvalid)
    else match w.answer(ref)
      case Failure(e) => Bad(e)
      case Answer(v) => w.decode(ref, v)
  }

  /** `i` is the first ref about which the backends say anything but not-found. */
  ghost predicate SpeaksFirst(w: World, refs: seq<Ref>, i: nat) {
    i < |refs| && !FallsThrough(Says(w, refs[i])) && forall j :: 0 <= j < i ==> FallsThrough(Says(w, refs[j]))
  }

  ghost predicate NobodySpeaks(w: World, refs: seq<Ref>) {
    forall j :: 0 <= j < |refs| ==> FallsThrough(Says(w, refs[j]))
  }

  /** A provider's value: set, found, and sensitive if either the value or the field is. */
  predicate FromProvider(spec: FieldSpec, v: Value, r: Result<Slot>) {
    r == Ok(Set(Value(v.bytes, v.version, v.sensitive || spec.sensitive, v.notAfter, v.metadata), true))
  }

  /** The field's own default: set, and not found. */
  predicate FromDefault(spec: FieldSpec, r: Result<Slot>) {
    r == Ok(Set(Value(spec.default, "default", spec.sensitive, None, map[]), false))
  }

  /** An error is the field's error: only onfail:"default" turns it into the default, a bare
      default never does. */
  predicate Errored(spec: FieldSpec, ref: Ref, e: Err, r: Result<Slot>) {
    && (spec.onFail.UseDefault? ==> FromDefault(spec, r))
    && (!spec.onFail.UseDefault? ==> r == Bad(ProviderErr(ref.scheme, e)))
  }

  /** Absence is the default's turn, then optional's; a required field without a default fails as
      not found. */
  predicate Lacking(spec: FieldSpec, r: Result<Slot>)
    requires |spec.refs| >= 1
  {
    && (spec.hasDefault ==> FromDefault(spec, r))
    && (!spec.hasDefault && spec.optional ==> r == Ok(Unset))
    && (!spec.hasDefault && !spec.optional ==> r == Bad(ProviderErr(spec.refs[0].scheme, ErrNotFound)))
  }

  predicate Decided(spec: FieldSpec, ref: Ref, said: Result<Value>, r: Result<Slot>) {
    if said.Ok? then FromProvider(spec, said.value, r) else Errored(spec, ref, said.err, r)
  }

  /** `r` is what the field comes to when its refs are asked one after the other. */
  ghost predicate MeantAlone(w: World, spec: FieldSpec, r: Result<Slot>)
    requires |spec.refs| >= 1
  {
    && (forall i: nat :: SpeaksFirst(w, spec.refs, i) ==> Decided(spec, spec.refs[i], Says(w, spec.refs[i]), r))
    && (NobodySpeaks(w, spec.refs) ==> Lacking(spec, r))
  }

  /** `r` is the field's share of a batch reply: absent exactly when the reply leaves its ref out. */
  predicate MeantByReply(w: World, spec: FieldSpec, got: map<string, Value>, r: Result<Slot>)
    requires |spec.refs| >= 1
  {
    var ref := spec.refs[0];
    if ref.raw in got then Decided(spec, ref, w.decode(ref, got[ref.raw]), r) else Lacking(spec, r)
  }

  /** `r` is what a load makes of the field once its scheme has not failed as a whole. */
  ghost predicate Meant(w: World, spec: FieldSpec, r: Result<Slot>)
    requires |spec.refs| >= 1
  {
    var s := spec.refs[0].scheme;
    if |spec.refs| == 1 && w.kind(s).Batching? && w.reply(s).Ok? then MeantByReply(w, spec, w.reply(s).value, r)
    else MeantAlone(w, spec, r)
  }

  /** `e` is an error this field makes the load fail with. */
  ghost predicate Blames(w: World, spec: FieldSpec, e: Err)
    requires |spec.refs| >= 1
  {
    var s := spec.refs[0].scheme;
    if |spec.refs| == 1 && w.kind(s).Missing? then e == UNREGISTERED
    else if |spec.refs| == 1 && w.kind(s).Batching? && w.reply(s).Bad? then e == ProviderErr(s, w.reply(s).err)
    else Meant(w, spec, Bad(e))
  }

  /** The live walk finds whoever speaks first. */
  lemma {:induction false} LiveFinds(w: World, refs: seq<Ref>, i: nat, k: nat)
    requires i <= k && SpeaksFirst(w, refs, k)
    ensures var said := Says(w, refs[k]);
            LiveFrom(w.decode, refs, Raws(w, refs), i) ==
            if said.Ok? then Won(k, said.value) else Stopped(k, ProviderErr(refs[k].scheme, said.err))
    decreases k - i
  {
    if i < k {
      assert FallsThrough(Says(w, refs[i]));
      LiveFinds(w, refs, i + 1, k);
    }
  }

  lemma {:induction false} LiveFindsNone(w: World, refs: seq<Ref>, i: nat)
    requires 1 <= |refs| && i <= |refs| && NobodySpeaks(w, refs)
    ensures LiveFrom(w.decode, refs, Raws(w, refs), i) == Absent(ProviderErr(refs[0].scheme, ErrNotFound))
    decreases |refs| - i
  {
    if i < |refs| {
      assert FallsThrough(Says(w, refs[i]));
      LiveFindsNone(w, refs, i + 1);
    }
  }

  /** For every world and field: the first ref about which anything but not-found is said decides,
      by its value or by its error under the field's policy; without one the field is absent. */
  lemma AloneMeans(w: World, spec: FieldSpec)
    requires |spec.refs| >= 1
    ensures MeantAlone(w, spec, Alone(w, spec))
  {
    forall i: nat | SpeaksFirst(w, spec.refs, i)
      ensures Decided(spec, spec.refs[i], Says(w, spec.refs[i]), Alone(w, spec))
    {
      LiveFinds(w, spec.refs, 0, i);
    }
    if NobodySpeaks(w, spec.refs) {
      LiveFindsNone(w, spec.refs, 0);
    }
  }

  /** Somebody speaks first or nobody speaks, ... */
  lemma {:induction false} SpeaksOrNot(w: World, refs: seq<Ref>) returns (i: nat)
    ensures SpeaksFirst(w, refs, i) || NobodySpeaks(w, refs)
  {
    if refs == [] {
      return 0;
    }
    var n := |refs| - 1;
    i := SpeaksOrNot(w, refs[..n]);
    assert forall j :: 0 <= j < n ==> refs[..n][j] == refs[j];
    if !SpeaksFirst(w, refs[..n], i) {
      i := n;
    }
  }

  /** ... so the rule leaves a field exactly one outcome. */
  lemma MeantOnce(w: World, spec: FieldSpec, a: Result<Slot>, b: Result<Slot>)
    requires |spec.refs| >= 1 && Meant(w, spec, a) && Meant(w, spec, b)
    ensures a == b
  {
    var _ := SpeaksOrNot(w, spec.refs);
  }

  /** A load's slot for a field, batched or not, is the one the rule leaves. */
  lemma SlotMeans(w: World, spec: FieldSpec)
    requires |spec.refs| >= 1
    ensures Meant(w, spec, SlotOf(w, spec))
  {
    AloneMeans(w, spec);
  }

  // ---------------------------------------------------------------- the source's loops

  /** Single-ref spec indices grouped by scheme; the rest are chains. */
  method Group(specs: seq<FieldSpec>) returns (byScheme: map<string, seq<nat>>, chained: seq<nat>)
    ensures forall s :: s in byScheme ==> forall i :: i in byScheme[s] ==> i < |specs| && Single(specs[i]) && specs[i].refs[0].scheme == s
    ensures forall i :: 0 <= i < |specs| && Single(specs[i]) ==> specs[i].refs[0].scheme in byScheme && i in byScheme[specs[i].refs[0].scheme]
    ensures forall s :: s in byScheme ==> byScheme[s] != []
    ensures forall i :: i in chained <==> 0 <= i < |specs| && !Single(specs[i])
  {
    byScheme, chained := map[], [];
    for i := 0 to |specs|
      invariant forall s :: s in byScheme ==> forall k :: k in byScheme[s] ==> k < i && Single(specs[k]) && specs[k].refs[0].scheme == s
      invariant forall k :: 0 <= k < i && Single(specs[k]) ==> specs[k].refs[0].scheme in byScheme && k in byScheme[specs[k].refs[0].scheme]
      invariant forall s :: s in byScheme ==> byScheme[s] != []
      invariant forall k :: k in chained <==> 0 <= k < i && !Single(specs[k])
    {
      if Single(specs[i]) {
        var s := specs[i].refs[0].scheme;
        byScheme := byScheme[s := (if s in byScheme then byScheme[s] else []) + [i]];
      } else {
        chained := chained + [i];
      }
    }
  }

  /** Slots of the indices in `idxs` are filled and right; all others are as before. */
  ghost predicate Filled(w: World, specs: seq<FieldSpec>, was: seq<Slot>, out: seq<Slot>, idxs: seq<nat>)
    requires forall i :: 0 <= i < |specs| ==> |specs[i].refs| >= 1
  {
    && |was| == |out| == |specs|
    && forall i :: 0 <= i < |specs| ==>
         if i in idxs then SlotOf(w, specs[i]) == Ok(out[i]) else out[i] == was[i]
  }

  method ResolveOnes(w: World, specs: seq<FieldSpec>, idxs: seq<nat>, was: seq<Slot>) returns (err: Option<Err>, out: seq<Slot>)
    requires |was| == |specs| && forall i :: 0 <= i < |specs| ==> |specs[i].refs| >= 1
    requires forall i :: i in idxs ==> i < |specs| && !Batched(w, specs[i])
    ensures err.None? ==> Filled(w, specs, was, out, idxs)
    ensures err.Some? ==> exists i :: i in idxs && SlotOf(w, specs[i]) == Bad(err.value)
  {
    out := was;
    for k := 0 to |idxs|
      invariant Filled(w, specs, was, out, idxs[..k])
    {
      assert idxs[k] in idxs;
      var r := Alone(w, specs[idxs[k]]);
      if r.Bad? {
        return Some(r.err), out;
      }
      out := out[idxs[k] := r.value];
      assert idxs[..k + 1] == idxs[..k] + [idxs[k]];
    }
    assert idxs[..|idxs|] == idxs;
    return None, out;
  }

  method ResolveBatchScheme(w: World, specs: seq<FieldSpec>, s: string, idxs: seq<nat>, was: seq<Slot>) returns (err: Option<Err>, out: seq<Slot>)
    requires |was| == |specs| && forall i :: 0 <= i < |specs| ==> |specs[i].refs| >= 1
    requires w.kind(s).Batching?
    requires forall i :: i in idxs ==> i < |specs| && Single(specs[i]) && specs[i].refs[0].scheme == s
    ensures err.None? ==> w.reply(s).Ok? && Filled(w, specs, was, out, idxs)
    ensures w.reply(s).Bad? ==> err == Some(ProviderErr(s, w.reply(s).err))
    ensures err.Some? && w.reply(s).Ok? ==> exists i :: i in idxs && SlotOf(w, specs[i]) == Bad(err.value)
  {
    out := was;
    var got := w.reply(s);
    if got.Bad? {
      return Some(ProviderErr(s, got.err)), out;
    }
    for k := 0 to |idxs|
      invariant Filled(w, specs, was, out, idxs[..k])
    {
      assert idxs[k] in idxs;
      var r := FromBatch(w, specs[idxs[k]], got.value);
      if r.Bad? {
        return Some(r.err), out;
      }
      out := out[idxs[k] := r.value];
      assert idxs[..k + 1] == idxs[..k] + [idxs[k]];
    }
    assert idxs[..|idxs|] == idxs;
    return None, out;
  }

  /** The batch provider's promise: a successful ResolveBatch holds exactly the refs that
      Resolve would have found, with the values it would have given. */
  ghost predicate BatchAgrees(w: World, spec: FieldSpec) {
    Batched(w, spec) && w.reply(spec.refs[0].scheme).Ok? ==>
      var ref, got := spec.refs[0], w.reply(spec.refs[0].scheme).value;
      match w.answer(ref)
      case Answer(v) => ref.raw in got && got[ref.raw] == v
      case Failure(e) => IsNotFound(e) && ref.raw !in got
      case NoProvider => false
  }

  /** A decode failure is an invalid value, never an absent one. */
  ghost predicate DecodeHonest(decode: Decode) {
    forall ref, v :: decode(ref, v).Bad? ==> !IsNotFound(decode(ref, v).err)
  }

  /** Every scheme works: each field's has a provider, and its batch call succeeds and keeps its
      promise. */
  ghost predicate AllHonest(w: World, specs: seq<FieldSpec>) {
    && DecodeHonest(w.decode)
    && (forall i :: 0 <= i < |specs| ==> BatchAgrees(w, specs[i]) && !SchemeFails(w, specs[i]))
  }

  /** `order` is one way a range over the scheme groups can go. */
  ghost predicate Enumerates(order: seq<string>, specs: seq<FieldSpec>) {
    && (forall i :: 0 <= i < |specs| && Single(specs[i]) ==> specs[i].refs[0].scheme in order)
    && (forall s :: s in order ==> exists i :: 0 <= i < |specs| && Single(specs[i]) && specs[i].refs[0].scheme == s)
  }

  /** `resolveAll`, in whatever order the scheme groups are visited: it succeeds exactly when
      every field is fine, and then fills each slot as that field's own resolution says. Where
      every scheme works, that is resolving each field alone. */
  method ResolveAll(w: World, specs: seq<FieldSpec>, order: seq<string>) returns (r: Result<seq<Slot>>)
    requires ValidSpecs(specs) && Enumerates(order, specs)
    ensures r.Ok? <==> forall i :: 0 <= i < |specs| ==> Fine(w, specs[i])
    ensures r.Ok? ==> |r.value| == |specs| && forall i :: 0 <= i < |specs| ==> Meant(w, specs[i], Ok(r.value[i]))
    ensures r.Bad? ==> exists i :: 0 <= i < |specs| && Blames(w, specs[i], r.err)
    ensures AllHonest(w, specs) ==>
              && (r.Ok? <==> forall i :: 0 <= i < |specs| ==> Alone(w, specs[i]).Ok?)
              && (r.Ok? ==> |r.value| == |specs| && forall i :: 0 <= i < |specs| ==> Alone(w, specs[i]) == Ok(r.value[i]))
  {
    r := VisitAll(w, specs, order);
    forall i | 0 <= i < |specs| ensures Meant(w, specs[i], SlotOf(w, specs[i])) {
      SlotMeans(w, specs[i]);
    }
    if AllHonest(w, specs) {
      forall i | 0 <= i < |specs|
        ensures SlotOf(w, specs[i]) == Alone(w, specs[i]) && (Fine(w, specs[i]) <==> Alone(w, specs[i]).Ok?)
      {
        BatchingIsInvisible(w, specs[i]);
      }
    }
  }

  /** One scheme's fields: refused outright without a provider, else in one batch or one by one. */
  method VisitScheme(w: World, specs: seq<FieldSpec>, s: string, idxs: seq<nat>, was: seq<Slot>) returns (err: Option<Err>, out: seq<Slot>)
    requires |was| == |specs| && forall i :: 0 <= i < |specs| ==> |specs[i].refs| >= 1
    requires idxs != [] && forall i :: i in idxs ==> i < |specs| && Single(specs[i]) && specs[i].refs[0].scheme == s
    ensures err.None? ==> Filled(w, specs, was, out, idxs) && forall i :: i in idxs ==> !SchemeFails(w, specs[i])
    ensures err.Some? ==> exists i :: i in idxs && FailsWith(w, specs[i], err.value)
  {
    assert idxs[0] in idxs;
    if w.kind(s).Missing? {
      assert FailsWith(w, specs[idxs[0]], UNREGISTERED);
      return Some(UNREGISTERED), was;
    }
    if w.kind(s).Batching? {
      err, out := ResolveBatchScheme(w, specs, s, idxs, was);
      if w.reply(s).Bad? {
        assert FailsWith(w, specs[idxs[0]], err.value);
      }
    } else {
      err, out := ResolveOnes(w, specs, idxs, was);
    }
  }

  /** The two loops: over the scheme groups, then over the chains. */
  method VisitAll(w: World, specs: seq<FieldSpec>, order: seq<string>) returns (r: Result<seq<Slot>>)
    requires ValidSpecs(specs) && Enumerates(order, specs)
    ensures r.Ok? <==> forall i :: 0 <= i < |specs| ==> Fine(w, specs[i])
    ensures r.Ok? ==> |r.value| == |specs| && forall i :: 0 <= i < |specs| ==> SlotOf(w, specs[i]) == Ok(r.value[i])
    ensures r.Bad? ==> exists i :: 0 <= i < |specs| && FailsWith(w, specs[i], r.err)
  {
    var out: seq<Slot> := seq(|specs|, _ => Unset);
    var byScheme, chained := Group(specs);
    for k := 0 to |order|
      invariant |out| == |specs|
      invariant forall i :: 0 <= i < |specs| && Single(specs[i]) && specs[i].refs[0].scheme in order[..k] ==>
                  !SchemeFails(w, specs[i]) && SlotOf(w, specs[i]) == Ok(out[i])
    {
      var s := order[k];
      assert s in order;
      var err: Option<Err>;
      err, out := VisitScheme(w, specs, s, byScheme[s], out);
      if err.Some? {
        return Bad(err.value);
      }
      assert order[..k + 1] == order[..k] + [s];
    }
    var err, done := ResolveOnes(w, specs, chained, out);
    if err.Some? {
      return Bad(err.value);
    }
    assert order[..|order|] == order;
    return Ok(done);
  }

  // ---------------------------------------------------------------- batched against alone

  lemma BatchedAsAlone(w: World, spec: FieldSpec)
    requires |spec.refs| >= 1 && DecodeHonest(w.decode) && BatchAgrees(w, spec)
    ensures SlotOf(w, spec) == Alone(w, spec)
  {
    if Batched(w, spec) && w.reply(spec.refs[0].scheme).Ok? {
      var raws := Raws(w, spec.refs);
      assert raws[0] == w.answer(spec.refs[0]);
      assert LiveFrom(w.decode, spec.refs, raws, 1) == Absent(ProviderErr(spec.refs[0].scheme, ErrNotFound));
    }
  }

  /** Batching changes nothing for a field whose scheme works: it is fine exactly when resolving
      it alone succeeds, with the same slot. */
  lemma BatchingIsInvisible(w: World, spec: FieldSpec)
    requires |spec.refs| >= 1 && DecodeHonest(w.decode) && BatchAgrees(w, spec) && !SchemeFails(w, spec)
    ensures Fine(w, spec) <==> Alone(w, spec).Ok?
    ensures SlotOf(w, spec) == Alone(w, spec)
  {
    BatchedAsAlone(w, spec);
  }

  /** The exact difference otherwise: the load fails although every field alone would resolve
      if and only if some field's whole scheme fails - its onfail policy is never asked. */
  lemma SchemeFailureBypassesPolicy(w: World, specs: seq<FieldSpec>)
    requires ValidSpecs(specs) && DecodeHonest(w.decode) && (forall i :: 0 <= i < |specs| ==> BatchAgrees(w, specs[i]))
    requires forall i :: 0 <= i < |specs| ==> Alone(w, specs[i]).Ok?
    ensures !(forall i :: 0 <= i < |specs| ==> Fine(w, specs[i])) <==> exists i :: 0 <= i < |specs| && SchemeFails(w, specs[i])
  {
    forall i | 0 <= i < |specs|
      ensures SlotOf(w, specs[i]) == Alone(w, specs[i])
    {
      BatchedAsAlone(w, specs[i]);
    }
  }

  function Found(ref: Ref): Raw { Answer(Value("v", "1", false, None, map[])) }

  function Kept(ref: Ref, v: Value): Result<Value> { Ok(v) }

  function Down(scheme: string): Result<map<string, Value>> { Bad(ErrOther(1)) }

  function One(onFail: OnFail): FieldSpec {
    FieldSpec("A", [Ref("s", "s:a", None)], "d", true, false, false, onFail)
  }

  /** A field that would resolve on its own, in a scheme whose batch call fails: every field
      alone is fine, and the load fails. */
  lemma BatchCallFails()
    ensures var w, spec := World(_ => Batching, Found, Down, Kept), One(KeepLast);
            ValidSpecs([spec]) && DecodeHonest(w.decode) && BatchAgrees(w, spec) && Alone(w, spec).Ok? && !Fine(w, spec)
  {
    var w, spec := World(_ => Batching, Found, Down, Kept), One(KeepLast);
    assert Raws(w, spec.refs)[0] == Found(spec.refs[0]);
  }

  /** A field whose onfail:"default" would cover for the missing provider of its scheme: alone it
      takes the default, and the load fails. */
  lemma NoProviderFails()
    ensures var w, spec := World(_ => Missing, Found, Down, Kept), One(UseDefault);
            ValidSpecs([spec]) && DecodeHonest(w.decode) && BatchAgrees(w, spec) && Alone(w, spec).Ok? && !Fine(w, spec)
  {
    var w, spec := World(_ => Missing, Found, Down, Kept), One(UseDefault);
    assert Raws(w, spec.refs)[0] == NoProvider;
  }

  /** Every slot a load fills from a sensitive field is marked sensitive. */
  lemma SlotsKeepSensitivity(w: World, spec: FieldSpec)
    requires |spec.refs| >= 1 && SlotOf(w, spec).Ok? && SlotOf(w, spec).value.Set? && spec.sensitive
    ensures SlotOf(w, spec).value.value.sensitive
  {
  }
}
