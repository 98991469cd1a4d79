/** Values, errors and field specs: the vocabulary every other module shares. */
module Values {

  datatype Option<+T> = None | Some(value: T)

  datatype Result<+T> = Ok(value: T) | Bad(err: Err)

  /** The error classes the engine tells apart. Wrapping constructors keep their
      cause, so classification looks through them as `errors.Is` does. */
  datatype Err =
    | ErrNotFound
    | ErrInvalid
    | ErrOther(code: int)
    | ProviderErr(scheme: string, cause: Err)
    | StaleErr(cause: Err)
    | ValidationErr(cause: Err)
    | DeriveErr(cause: Err)
    | PreApplyErr(cause: Err)
    | BlockedErr(path: string)
    | NoSuchSnapshot

  predicate IsNotFound(e: Err) {
    match e
    case ErrNotFound => true
    case ProviderErr(_, c) => IsNotFound(c)
    case StaleErr(c) => IsNotFound(c)
    case ValidationErr(c) => IsNotFound(c)
    case DeriveErr(c) => IsNotFound(c)
    case PreApplyErr(c) => IsNotFound(c)
    case _ => false
  }

  /** A resolved payload. Bytes are a string of byte-valued characters; an expiry
      of `None` is the zero time. */
  datatype Value = Value(
    bytes: string,
    version: string,
    sensitive: bool,
    notAfter: Option<int>,
    metadata: map<string, string>)

  const DEFAULT_VERSION := "default"

  /** Version comparison when either side has one, byte comparison otherwise. */
  predicate Changed(v: Value, o: Value) {
    if v.version != "" || o.version != "" then v.version != o.version
    else v.bytes != o.bytes
  }

  /** What a value is known by: its version where it has one, its bytes where it has none. */
  datatype Identity = Versioned(version: string) | Bare(bytes: string)

  function IdentityOf(v: Value): Identity {
    if v.version != "" then Versioned(v.version) else Bare(v.bytes)
  }

  /** A change is a change of identity, so "no change" is an equivalence: under one version the
      bytes are never looked at, and gaining or losing a version is a change. */
  lemma ChangedMeans(v: Value, o: Value)
    ensures Changed(v, o) <==> IdentityOf(v) != IdentityOf(o)
    ensures v.version == o.version != "" ==> !Changed(v, o)
    ensures v.version != o.version ==> Changed(v, o)
    ensures v.version == o.version == "" ==> (Changed(v, o) <==> v.bytes != o.bytes)
  {
  }

  function MarkSensitive(sensitive: bool, v: Value): Value {
    if sensitive then v.(sensitive := true) else v
  }

  /** A parsed source ref; `debounce` is its parsed `?debounce=` override. */
  datatype Ref = Ref(scheme: string, raw: string, debounce: Option<int>)

  datatype OnFail = KeepLast | UseDefault | Fail

  datatype FieldSpec = FieldSpec(
    path: string,
    refs: seq<Ref>,
    default: string,
    hasDefault: bool,
    optional: bool,
    sensitive: bool,
    onFail: OnFail)

  function DefaultValue(spec: FieldSpec): Value {
    Value(spec.default, DEFAULT_VERSION, spec.sensitive, None, map[])
  }

  /** What field discovery guarantees of every spec list: paths are distinct, each
      spec has a ref, and `onfail:"default"` comes with a default. */
  ghost predicate ValidSpecs(specs: seq<FieldSpec>) {
    && (forall i, j :: 0 <= i < j < |specs| ==> specs[i].path != specs[j].path)
    && (forall i :: 0 <= i < |specs| ==> |specs[i].refs| >= 1)
    && (forall i :: 0 <= i < |specs| ==> specs[i].onFail.UseDefault? ==> specs[i].hasDefault)
  }

  function Paths(specs: seq<FieldSpec>): set<string> {
    set i | 0 <= i < |specs| :: specs[i].path
  }

  /** A version lookup: a missing entry reads as the empty version. */
  function Ver(m: map<string, string>, path: string): string {
    if path in m then m[path] else ""
  }

  function VerOf(obs: map<string, Value>, path: string): string {
    if path in obs then obs[path].version else ""
  }

  function BytesOf(obs: map<string, Value>, path: string): Option<string> {
    if path in obs then Some(obs[path].bytes) else None
  }
}
