/** The bootstrap cache: records of a resolved set, restoring them when the backend cannot be
    reached, and how long a restored process counts as serving from the cache. Sealing and
    opening the file are taken as inverse. */
module Bootstrap {
  import opened Values
  import opened Resolve

  datatype Record = Record(path: string, bytes: string, version: string, sensitive: bool, notAfter: Option<int>, metadata: map<string, string>)

  datatype Snapshot = Snapshot(writtenAt: int, fingerprint: string, records: seq<Record>)

  datatype File = NoFile | Unreadable | Sealed(snap: Snapshot)

  datatype FailureKind = NotFoundKind | PermissionDenied | Unauthenticated | InvalidKind | Unavailable | RateLimited | Unknown

  /** Only a backend that could not be reached may be answered from the cache. */
  predicate Transient(k: FailureKind) {
    k.Unavailable? || k.RateLimited?
  }

  function RecordOf(spec: FieldSpec, v: Value): Record {
    Record(spec.path, v.bytes, v.version, v.sensitive || spec.sensitive, v.notAfter, v.metadata)
  }

  function RecordsFrom(specs: seq<FieldSpec>, slots: seq<Slot>, i: nat): seq<Record>
    requires |specs| == |slots| && i <= |specs|
    decreases |specs| - i
  {
    if i == |specs| then []
    else if slots[i].Unset? then RecordsFrom(specs, slots, i + 1)
    else [RecordOf(specs[i], slots[i].value)] + RecordsFrom(specs, slots, i + 1)
  }

  /** `bootstrapRecords`: a field that was not set contributes no record. */
  method BootstrapRecords(specs: seq<FieldSpec>, slots: seq<Slot>) returns (recs: seq<Record>)
    requires |specs| == |slots|
    ensures recs == RecordsFrom(specs, slots, 0)
  {
    recs := [];
    var i := 0;
    while i < |specs|
      invariant 0 <= i <= |specs|
      invariant recs + RecordsFrom(specs, slots, i) == RecordsFrom(specs, slots, 0)
    {
      if slots[i].Set? {
        recs := recs + [RecordOf(specs[i], slots[i].value)];
      }
      i := i + 1;
    }
  }

  predicate Expired(notAfter: Option<int>, now: int) {
    notAfter.Some? && notAfter.value <= now
  }

  function RestoredValue(spec: FieldSpec, rec: Record): Value {
    Value(rec.bytes, rec.version, rec.sensitive || spec.sensitive, rec.notAfter, rec.metadata)
  }

  function ByPath(recs: seq<Record>): map<string, Record> {
    if recs == [] then map[] else ByPath(recs[..|recs| - 1])[recs[|recs| - 1].path := recs[|recs| - 1]]
  }

  function RestoredSlots(specs: seq<FieldSpec>, byPath: map<string, Record>): (r: seq<Slot>)
    ensures |r| == |specs|
  {
    seq(|specs|, i requires 0 <= i < |specs| =>
      if specs[i].path in byPath then Set(RestoredValue(specs[i], byPath[specs[i].path]), true) else Unset)
  }

  datatype Refusal = BackendAnswered | NoSnapshot | WontOpen | SchemaDrift | LeaseExpired(path: string)

  datatype Restored = Refused(why: Refusal) | Booted(slots: seq<Slot>, writtenAt: int)

  /** A record without a lease lasts for ever, one with a lease until just before it ends. */
  ghost predicate Lasts(rec: Record, now: int) {
    rec.notAfter.None? || now < rec.notAfter.value
  }

  ghost predicate FirstLapsed(recs: seq<Record>, k: nat, now: int)
    requires k < |recs|
  {
    !Lasts(recs[k], now) && forall j :: 0 <= j < k ==> Lasts(recs[j], now)
  }

  ghost predicate LastOf(recs: seq<Record>, k: nat, path: string) {
    k < |recs| && recs[k].path == path && forall j :: k < j < |recs| ==> recs[j].path != path
  }

  /** A field's slot is its last record's value, with the field's own sensitivity added, and unset
      where no record names it. */
  ghost predicate RestoredFrom(recs: seq<Record>, spec: FieldSpec, slot: Slot) {
    && (forall k: nat :: LastOf(recs, k, spec.path) ==>
          slot == Set(Value(recs[k].bytes, recs[k].version, recs[k].sensitive || spec.sensitive, recs[k].notAfter, recs[k].metadata), true))
    && ((forall k :: 0 <= k < |recs| ==> recs[k].path != spec.path) ==> slot == Unset)
  }

  lemma {:induction false} ByPathLast(recs: seq<Record>, k: nat, p: string)
    ensures LastOf(recs, k, p) ==> p in ByPath(recs) && ByPath(recs)[p] == recs[k]
    ensures (forall j :: 0 <= j < |recs| ==> recs[j].path != p) ==> p !in ByPath(recs)
    decreases |recs|
  {
    if recs != [] {
      ByPathLast(recs[..|recs| - 1], k, p);
    }
  }

  lemma RestoredMeans(specs: seq<FieldSpec>, recs: seq<Record>, i: nat)
    requires i < |specs|
    ensures RestoredFrom(recs, specs[i], RestoredSlots(specs, ByPath(recs))[i])
  {
    ByPathLast(recs, 0, specs[i].path);
    forall k: nat | LastOf(recs, k, specs[i].path)
      ensures specs[i].path in ByPath(recs) && ByPath(recs)[specs[i].path] == recs[k]
    {
      ByPathLast(recs, k, specs[i].path);
    }
  }

  /** The records by path, up to the first whose lease has ended. */
  method IndexRecords(recs: seq<Record>, now: int) returns (lapsed: Option<nat>, byPath: map<string, Record>)
    ensures lapsed.Some? ==> lapsed.value < |recs| && FirstLapsed(recs, lapsed.value, now)
    ensures lapsed.None? ==> byPath == ByPath(recs) && forall k :: 0 <= k < |recs| ==> Lasts(recs[k], now)
  {
    byPath := map[];
    var k := 0;
    while k < |recs|
      invariant 0 <= k <= |recs|
      invariant forall j :: 0 <= j < k ==> Lasts(recs[j], now)
      invariant byPath == ByPath(recs[..k])
    {
      if Expired(recs[k].notAfter, now) {
        return Some(k), byPath;
      }
      byPath := byPath[recs[k].path := recs[k]];
      assert recs[..k + 1][..k] == recs[..k];
      k := k + 1;
    }
    assert recs[..|recs|] == recs;
    return None, byPath;
  }

  method FillSlots(specs: seq<FieldSpec>, recs: seq<Record>, byPath: map<string, Record>) returns (out: seq<Slot>)
    requires byPath == ByPath(recs)
    ensures |out| == |specs| && forall i :: 0 <= i < |specs| ==> RestoredFrom(recs, specs[i], out[i])
  {
    out := [];
    var i := 0;
    while i < |specs|
      invariant 0 <= i <= |specs| && |out| == i
      invariant forall j :: 0 <= j < i ==> RestoredFrom(recs, specs[j], out[j])
    {
      RestoredMeans(specs, recs, i);
      if specs[i].path in byPath {
        out := out + [Set(RestoredValue(specs[i], byPath[specs[i].path]), true)];
      } else {
        out := out + [Unset];
      }
      i := i + 1;
    }
  }

  /** `restoreBootstrap`: the snapshot's values, or the first reason not to use them. */
  method RestoreBootstrap(fingerprint: seq<FieldSpec> -> string, specs: seq<FieldSpec>, kind: FailureKind, file: File, now: int) returns (r: Restored)
    ensures kind !in {Unavailable, RateLimited} <==> r == Refused(BackendAnswered)
    ensures r.Booted? <==>
              && kind in {Unavailable, RateLimited} && file.Sealed? && file.snap.fingerprint == fingerprint(specs)
              && forall k :: 0 <= k < |file.snap.records| ==> Lasts(file.snap.records[k], now)
    ensures r.Booted? ==> r.writtenAt == file.snap.writtenAt && |r.slots| == |specs|
                          && forall i :: 0 <= i < |specs| ==> RestoredFrom(file.snap.records, specs[i], r.slots[i])
    ensures kind in {Unavailable, RateLimited} && file.NoFile? <==> r == Refused(NoSnapshot)
    ensures kind in {Unavailable, RateLimited} && file.Unreadable? <==> r == Refused(WontOpen)
    ensures kind in {Unavailable, RateLimited} && file.Sealed? && file.snap.fingerprint != fingerprint(specs) <==> r == Refused(SchemaDrift)
    ensures r.Refused? && r.why.LeaseExpired? ==>
              exists k :: 0 <= k < |file.snap.records| && FirstLapsed(file.snap.records, k, now) && r.why.path == file.snap.records[k].path
  {
    if !Transient(kind) {
      return Refused(BackendAnswered);
    }
    match file
    case NoFile => return Refused(NoSnapshot);
    case Unreadable => return Refused(WontOpen);
    case Sealed(snap) =>
      if snap.fingerprint != fingerprint(specs) {
        return Refused(SchemaDrift);
      }
      var lapsed, byPath := IndexRecords(snap.records, now);
      if lapsed.Some? {
        return Refused(LeaseExpired(snap.records[lapsed.value].path));
      }
      var out := FillSlots(specs, snap.records, byPath);
      return Booted(out, snap.writtenAt);
  }

  // ---------------------------------------------------------------- round trip

  /** What a load guarantees of its slots: a sensitive field's value is marked so. */
  ghost predicate Marked(specs: seq<FieldSpec>, slots: seq<Slot>) {
    |specs| == |slots| && forall i :: 0 <= i < |specs| && slots[i].Set? && specs[i].sensitive ==> slots[i].value.sensitive
  }

  /** The same value or the same absence; a restored value counts as found. */
  predicate SameContent(a: Slot, b: Slot) {
    if a.Unset? then b.Unset? else b.Set? && b.value == a.value
  }

  lemma {:induction false} RecordsByPath(specs: seq<FieldSpec>, slots: seq<Slot>, i: nat, k: nat)
    requires ValidSpecs(specs) && |specs| == |slots| && i <= |specs| && k < |specs|
    ensures (exists r :: r in RecordsFrom(specs, slots, i) && r.path == specs[k].path) <==> i <= k && slots[k].Set?
    ensures forall r :: r in RecordsFrom(specs, slots, i) && r.path == specs[k].path ==> slots[k].Set? && r == RecordOf(specs[k], slots[k].value)
    decreases |specs| - i
  {
    if i < |specs| {
      RecordsByPath(specs, slots, i + 1, k);
      if i == k && slots[k].Set? {
        assert RecordOf(specs[k], slots[k].value) in RecordsFrom(specs, slots, i);
      }
      if i < k && slots[k].Set? {
        var r :| r in RecordsFrom(specs, slots, i + 1) && r.path == specs[k].path;
        assert r in RecordsFrom(specs, slots, i);
      }
    }
  }

  lemma {:induction false} SomeLast(recs: seq<Record>, p: string) returns (k: nat)
    ensures (exists r :: r in recs && r.path == p) ==> LastOf(recs, k, p)
    decreases |recs|
  {
    k := 0;
    if recs != [] {
      var n := |recs| - 1;
      assert recs == recs[..n] + [recs[n]];
      k := SomeLast(recs[..n], p);
      if recs[n].path == p {
        k := n;
      }
    }
  }

  lemma RestoreOne(specs: seq<FieldSpec>, slots: seq<Slot>, k: nat, slot: Slot)
    requires ValidSpecs(specs) && Marked(specs, slots) && k < |specs|
    requires RestoredFrom(RecordsFrom(specs, slots, 0), specs[k], slot)
    ensures SameContent(slots[k], slot)
  {
    var recs := RecordsFrom(specs, slots, 0);
    RecordsByPath(specs, slots, 0, k);
    if slots[k].Set? {
      var j := SomeLast(recs, specs[k].path);
      assert recs[j] in recs;
    } else {
      assert forall j :: 0 <= j < |recs| ==> recs[j] in recs;
    }
  }

  lemma {:induction false} ExpiredRecords(specs: seq<FieldSpec>, slots: seq<Slot>, i: nat, now: int)
    requires |specs| == |slots| && i <= |specs|
    ensures (exists r :: r in RecordsFrom(specs, slots, i) && Expired(r.notAfter, now))
            <==> exists k :: i <= k < |specs| && slots[k].Set? && Expired(slots[k].value.notAfter, now)
    decreases |specs| - i
  {
    if i < |specs| {
      ExpiredRecords(specs, slots, i + 1, now);
      var recs, rest := RecordsFrom(specs, slots, i), RecordsFrom(specs, slots, i + 1);
      if slots[i].Set? {
        assert recs == [RecordOf(specs[i], slots[i].value)] + rest;
        if Expired(slots[i].value.notAfter, now) {
          assert RecordOf(specs[i], slots[i].value) in recs;
        }
      }
      if r :| r in rest && Expired(r.notAfter, now) {
        assert r in recs;
      }
    }
  }

  /** Writing the records of a resolved set and restoring them under the same schema during an
      outage gives back the same values and the same absences - or refuses the whole set,
      exactly when some lease in it has expired. */
  method RoundTrip(fingerprint: seq<FieldSpec> -> string, specs: seq<FieldSpec>, slots: seq<Slot>, written: int, kind: FailureKind, now: int)
    returns (r: Restored)
    requires ValidSpecs(specs) && Marked(specs, slots) && kind in {Unavailable, RateLimited}
    ensures r.Refused? <==> exists k :: 0 <= k < |specs| && slots[k].Set? && slots[k].value.notAfter.Some? && slots[k].value.notAfter.value <= now
    ensures r.Refused? ==> r.why.LeaseExpired?
    ensures r.Booted? ==> r.writtenAt == written && |r.slots| == |specs| && forall k :: 0 <= k < |specs| ==> SameContent(slots[k], r.slots[k])
  {
    var recs := BootstrapRecords(specs, slots);
    var file := Sealed(Snapshot(written, fingerprint(specs), recs));
    r := RestoreBootstrap(fingerprint, specs, kind, file, now);
    ExpiredRecords(specs, slots, 0, now);
    if r.Booted? {
      assert forall j :: 0 <= j < |recs| ==> Lasts(recs[j], now);
      forall k | 0 <= k < |specs|
        ensures SameContent(slots[k], r.slots[k])
      {
        RestoreOne(specs, slots, k, r.slots[k]);
      }
    } else {
      var k :| 0 <= k < |recs| && Expired(recs[k].notAfter, now);
      assert recs[k] in recs;
    }
  }

  // ---------------------------------------------------------------- serving from the cache

  /** The restored paths only a backend could have changed. */
  function AtRisk(specs: seq<FieldSpec>, slots: seq<Slot>): set<string>
    requires |specs| == |slots|
  {
    set i | 0 <= i < |specs| && slots[i].Set? && slots[i].value.version != DEFAULT_VERSION :: specs[i].path
  }

  /** The engine's bootstrap fields. `unconfirmed` is nil once nothing is left in it. */
  class Origin {
    var restored: bool
    var serving: bool
    var unconfirmed: Option<set<string>>
    var rewrites: nat          // fresh snapshots written because the last path cleared

    ghost var seeded: set<string>
    ghost var reconciled: set<string>

    /** Serving from the cache exactly while a restored non-default path is unreconciled. */
    ghost predicate Valid()
      reads this
    {
      && unconfirmed == (if seeded - reconciled == {} then None else Some(seeded - reconciled))
      && (serving <==> seeded - reconciled != {})
      && (serving ==> restored)
    }

    /** `seedBootstrapOrigin`. */
    constructor (specs: seq<FieldSpec>, slots: seq<Slot>)
      requires |specs| == |slots|
      ensures Valid() && restored && reconciled == {} && rewrites == 0
      ensures forall p :: p in seeded <==>
                exists i :: 0 <= i < |specs| && specs[i].path == p && slots[i].Set? && slots[i].value.version != "default"
    {
      var left := AtRisk(specs, slots);
      restored, rewrites := true, 0;
      seeded, reconciled := left, {};
      if left == {} {
        unconfirmed, serving := None, false;
      } else {
        unconfirmed, serving := Some(left), true;
      }
      new;
      assert seeded - reconciled == seeded;
    }

    /** `markBootstrapReconciled`: the flag can go off, once, and never on. */
    method MarkReconciled(path: string)
      requires Valid()
      modifies this
      ensures Valid() && seeded == old(seeded) && reconciled == old(reconciled) + {path} && restored == old(restored)
      ensures serving ==> old(serving)
      ensures rewrites == old(rewrites) + (if old(serving) && !serving then 1 else 0)
    {
      reconciled := reconciled + {path};
      assert seeded - reconciled == (seeded - old(reconciled)) - {path};
      if unconfirmed.None? {
        return;
      }
      var left := unconfirmed.value - {path};
      if left != {} {
        unconfirmed := Some(left);
        return;
      }
      unconfirmed, serving := None, false;
      rewrites := rewrites + 1;
    }

    /** Any sequence of reconciliations: the flag is on afterwards exactly if some restored
        non-default path is not among them, and the file is rewritten at most once. */
    method MarkAll(paths: seq<string>)
      requires Valid() && reconciled == {} && rewrites == 0
      modifies this
      ensures Valid() && seeded == old(seeded)
      ensures serving <==> exists p :: p in seeded && p !in paths
      ensures serving ==> old(serving)
      ensures rewrites == if old(serving) && !serving then 1 else 0
    {
      var i := 0;
      while i < |paths|
        invariant 0 <= i <= |paths| && Valid() && seeded == old(seeded)
        invariant reconciled == set k | 0 <= k < i :: paths[k]
        invariant serving ==> old(serving)
        invariant rewrites == if old(serving) && !serving then 1 else 0
      {
        MarkReconciled(paths[i]);
        i := i + 1;
      }
      assert forall p :: p in paths <==> p in reconciled;
      if serving {
        ghost var p :| p in seeded - reconciled;
        assert p in seeded && p !in paths;
      } else {
        assert forall p :: p in seeded ==> p !in seeded - reconciled;
      }
    }
  }
}
