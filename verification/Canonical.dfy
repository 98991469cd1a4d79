/** The canonical encoding behind a derived field's version. Two values are encoded alike
    exactly when they mean the same: maps regardless of iteration order, an interface's dynamic
    type by the name it prints, and anything deeper than the walk's bound regardless of what it
    holds. */
module Canonical {
  import opened Decimal

  type Bytes = string

  /** The identity of a declared type. What it prints is only the last element of its package's
      path and its name, so different types may print alike. */
  datatype Dyn = Dyn(path: string, printed: string)

  /** Static types. A named type refers to an environment, so recursive types are covered;
      an interface may hold any type the environment declares. */
  datatype Ty =
    | TInt
    | TFloat
    | TComplex
    | TBool
    | TStr
    | TSecret
    | TBytes
    | TByteArray(len: nat)
    | TOpaque(kind: Kind)
    | TPtr(elem: Ty)
    | TIface
    | TStruct(fields: seq<FieldTy>)
    | TSlice(elem: Ty)
    | TArray(elem: Ty, len: nat)
    | TMap(key: Ty, val: Ty)
    | TNamed(dyn: Dyn)

  datatype FieldTy = FieldTy(name: string, ty: Ty)

  type Env = map<Dyn, Ty>

  /** Kinds with nothing but an address to read. */
  datatype Kind = Chan | Func | UnsafePointer

  /** Values as reflection shows them. A map lists its entries in the order an iteration
      happened to visit them; a secret is the bytes it reveals; a float is its shortest decimal
      text, which tells floats apart up to the payload of a NaN. */
  datatype Val =
    | VNil
    | VInt(i: int)
    | VFloat(text: Bytes)
    | VComplex(re: Bytes, im: Bytes)
    | VBool(b: bool)
    | VStr(s: Bytes)
    | VSecret(s: Bytes)
    | VBytes(s: Bytes)
    | VOpaque(kind: Kind, addr: int)
    | VPtr(p: Val)
    | VIface(dyn: Dyn, p: Val)
    | VStruct(fields: seq<Field>)
    | VList(es: seq<Val>)
    | VMap(kvs: seq<Entry>)

  datatype Field = Field(name: string, val: Val)

  datatype Entry = Entry(key: Val, val: Val)

  predicate NumChar(c: char) {
    IsDigit(c) || c == '+' || c == '-' || c == '.' || c == 'e' || c == 'N' || c == 'a' || c == 'I' || c == 'n' || c == 'f'
  }

  /** What `strconv.AppendFloat` can write: a plus sign stands in front or opens an exponent. */
  predicate FloatText(t: Bytes) {
    && t != "" && (IsDigit(t[0]) || t[0] == '-' || t[0] == '+' || t[0] == 'N') && t[|t| - 1] != 'e'
    && (forall i :: 0 <= i < |t| ==> NumChar(t[i]))
    && (forall i :: 1 <= i < |t| && t[i] == '+' ==> t[i - 1] == 'e')
  }

  /** What an identifier cannot be or hold. */
  predicate FieldName(n: string) {
    n != "" && n[0] != '}' && ';' !in n && '=' !in n
  }

  /** Field names are identifiers and floats are written as floats are. */
  predicate Formed(v: Val)
    decreases v
  {
    match v
    case VFloat(t) => FloatText(t)
    case VComplex(re, im) => FloatText(re) && FloatText(im)
    case VPtr(p) => Formed(p)
    case VIface(_, p) => Formed(p)
    case VStruct(fs) => forall i :: 0 <= i < |fs| ==> FieldName(fs[i].name) && Formed(fs[i].val)
    case VList(es) => forall i :: 0 <= i < |es| ==> Formed(es[i])
    case VMap(kvs) => forall i :: 0 <= i < |kvs| ==> Formed(kvs[i].key) && Formed(kvs[i].val)
    case _ => true
  }

  function Under(env: Env, t: Ty): Ty {
    if t.TNamed? && t.dyn in env then env[t.dyn] else t
  }

  predicate HasType(env: Env, t: Ty, v: Val)
    decreases v
  {
    match Under(env, t)
    case TInt => v.VInt?
    case TFloat => v.VFloat?
    case TComplex => v.VComplex?
    case TBool => v.VBool?
    case TStr => v.VStr?
    case TSecret => v.VSecret?
    case TBytes => v.VNil? || v.VBytes?
    case TByteArray(n) => v.VBytes? && |v.s| == n
    case TOpaque(k) => v.VOpaque? && v.kind == k
    case TPtr(e) => v.VNil? || (v.VPtr? && HasType(env, e, v.p))
    case TIface => v.VNil? || (v.VIface? && v.dyn in env && HasType(env, env[v.dyn], v.p))
    case TStruct(fts) =>
      v.VStruct? && |v.fields| == |fts| &&
      forall i :: 0 <= i < |fts| ==> v.fields[i].name == fts[i].name && HasType(env, fts[i].ty, v.fields[i].val)
    case TSlice(e) => v.VNil? || (v.VList? && forall i :: 0 <= i < |v.es| ==> HasType(env, e, v.es[i]))
    case TArray(e, n) => v.VList? && |v.es| == n && forall i :: 0 <= i < |v.es| ==> HasType(env, e, v.es[i])
    case TMap(k, e) =>
      v.VNil? || (v.VMap? && forall i :: 0 <= i < |v.kvs| ==> HasType(env, k, v.kvs[i].key) && HasType(env, e, v.kvs[i].val))
    case TNamed(_) => false
  }

  // ---------------------------------------------------------------- sorting encoded entries

  /** `bytes.Compare(a, b) <= 0`. */
  predicate Leq(a: Bytes, b: Bytes) {
    a == "" || (b != "" && (a[0] < b[0] || (a[0] == b[0] && Leq(a[1..], b[1..]))))
  }

  lemma {:induction false} LeqTotal(a: Bytes, b: Bytes)
    ensures Leq(a, b) || Leq(b, a)
    decreases |a|
  {
    if a != "" && b != "" {
      LeqTotal(a[1..], b[1..]);
    }
  }

  lemma {:induction false} LeqAntisymmetric(a: Bytes, b: Bytes)
    requires Leq(a, b) && Leq(b, a)
    ensures a == b
    decreases |a|
  {
    if a != "" && b != "" {
      LeqAntisymmetric(a[1..], b[1..]);
      assert a == [a[0]] + a[1..] && b == [b[0]] + b[1..];
    }
  }

  lemma {:induction false} LeqTransitive(a: Bytes, b: Bytes, c: Bytes)
    requires Leq(a, b) && Leq(b, c)
    ensures Leq(a, c)
    decreases |a|
  {
    if a != "" && b != "" && c != "" && a[0] == b[0] == c[0] {
      LeqTransitive(a[1..], b[1..], c[1..]);
    }
  }

  function Insert(x: Bytes, s: seq<Bytes>): (r: seq<Bytes>)
    ensures multiset(r) == multiset{x} + multiset(s)
  {
    if s == [] || Leq(x, s[0]) then
      [x] + s
    else
      assert s == [s[0]] + s[1..];
      [s[0]] + Insert(x, s[1..])
  }

  function Sort(s: seq<Bytes>): (r: seq<Bytes>)
    ensures multiset(r) == multiset(s)
  {
    if s == [] then []
    else
      assert s == [s[0]] + s[1..];
      Insert(s[0], Sort(s[1..]))
  }

  predicate Sorted(s: seq<Bytes>) {
    forall i, j :: 0 <= i < j < |s| ==> Leq(s[i], s[j])
  }

  lemma {:induction false} InsertSorted(x: Bytes, s: seq<Bytes>)
    requires Sorted(s)
    ensures Sorted(Insert(x, s))
    decreases |s|
  {
    if s == [] {
    } else if Leq(x, s[0]) {
      forall j | 0 <= j < |s|
        ensures Leq(x, s[j])
      {
        if j > 0 {
          LeqTransitive(x, s[0], s[j]);
        }
      }
    } else {
      LeqTotal(x, s[0]);
      InsertSorted(x, s[1..]);
      var r := Insert(x, s[1..]);
      forall j | 0 <= j < |r|
        ensures Leq(s[0], r[j])
      {
        assert r[j] in multiset(r);
        assert r[j] in multiset{x} + multiset(s[1..]);
        assert r[j] == x || r[j] in s[1..];
      }
    }
  }

  lemma {:induction false} SortSorted(s: seq<Bytes>)
    ensures Sorted(Sort(s))
    decreases |s|
  {
    if s != [] {
      SortSorted(s[1..]);
      InsertSorted(s[0], Sort(s[1..]));
    }
  }

  /** A sorted list is determined by its elements. */
  lemma {:induction false} SortedUnique(a: seq<Bytes>, b: seq<Bytes>)
    requires Sorted(a) && Sorted(b) && multiset(a) == multiset(b)
    ensures a == b
    decreases |a|
  {
    assert |multiset(a)| == |a| && |multiset(b)| == |b|;
    if a != [] {
      assert a[0] == b[0] by {
        assert a[0] in multiset(b) && b[0] in multiset(a);
        SmallestFirst(a, b[0]);
        SmallestFirst(b, a[0]);
        LeqAntisymmetric(a[0], b[0]);
      }
      DropFirst(a, b);
      SortedUnique(a[1..], b[1..]);
      assert a == [a[0]] + a[1..] && b == [b[0]] + b[1..];
    }
  }

  lemma DropFirst<X>(a: seq<X>, b: seq<X>)
    requires a != [] && b != [] && a[0] == b[0] && multiset(a) == multiset(b)
    ensures multiset(a[1..]) == multiset(b[1..])
  {
    assert a == [a[0]] + a[1..] && b == [b[0]] + b[1..];
    assert multiset(a[1..]) == multiset(a) - multiset{a[0]};
    assert multiset(b[1..]) == multiset(b) - multiset{b[0]};
  }

  lemma SmallestFirst(a: seq<Bytes>, x: Bytes)
    requires Sorted(a) && x in a
    ensures Leq(a[0], x)
  {
    var i :| 0 <= i < |a| && a[i] == x;
    if i == 0 {
      LeqTotal(x, x);
    }
  }

  lemma SortDetermined(a: seq<Bytes>, b: seq<Bytes>)
    ensures Sort(a) == Sort(b) <==> multiset(a) == multiset(b)
  {
    SortSorted(a);
    SortSorted(b);
    if multiset(a) == multiset(b) {
      SortedUnique(Sort(a), Sort(b));
    }
  }

  // ---------------------------------------------------------------- the encoding

  const MAX_DEPTH := 32

  /** `appendLenBytes`. */
  function LenBytes(s: Bytes): Bytes {
    NatStr(|s|) + ":" + s
  }

  /** Every string followed by a ';'. */
  function Joined(ss: seq<Bytes>): Bytes {
    if ss == [] then "" else ss[0] + ";" + Joined(ss[1..])
  }

  function KindText(k: Kind): Bytes {
    match k
    case Chan => "chan"
    case Func => "func"
    case UnsafePointer => "unsafe.Pointer"
  }

  /** Values written as one bare word. */
  predicate Token(v: Val) {
    v.VNil? || v.VInt? || v.VFloat? || v.VComplex? || v.VBool? || v.VOpaque?
  }

  function TokenText(v: Val): Bytes
    requires Token(v)
  {
    match v
    case VNil => "nil"
    case VInt(i) => IntStr(i)
    case VFloat(t) => t
    case VComplex(re, im) => re + "+" + im
    case VBool(b) => if b then "true" else "false"
    case VOpaque(k, _) => KindText(k)
  }

  /** `appendCanonical`'s output for `v` at `depth`. */
  function Enc(v: Val, depth: nat): Bytes
    decreases v, 1
  {
    if depth > MAX_DEPTH then "trunc"
    else match v
      case VStr(s) => "s" + LenBytes(s)
      case VSecret(s) => "s" + LenBytes(s)
      case VBytes(s) => "b" + LenBytes(s)
      case VPtr(p) => "*" + Enc(p, depth + 1)
      case VIface(dyn, p) => "*" + LenBytes(dyn.printed) + Enc(p, depth + 1)
      case VStruct(fs) => "{" + EncFields(fs, depth) + "}"
      case VList(es) => "[" + EncList(es, depth) + "]"
      case VMap(kvs) => "m[" + Joined(Sort(EncEntries(kvs, depth))) + "]"
      case _ => TokenText(v)
  }

  function EncField(f: Field, depth: nat): Bytes
    decreases f, 0
  {
    f.name + "=" + Enc(f.val, depth + 1) + ";"
  }

  function EncFields(fs: seq<Field>, depth: nat): Bytes
    decreases fs, 0
  {
    if fs == [] then "" else EncField(fs[0], depth) + EncFields(fs[1..], depth)
  }

  function EncElem(e: Val, depth: nat): Bytes
    decreases e, 2
  {
    Enc(e, depth + 1) + ";"
  }

  function EncList(es: seq<Val>, depth: nat): Bytes
    decreases es, 0
  {
    if es == [] then "" else EncElem(es[0], depth) + EncList(es[1..], depth)
  }

  function EncEntry(kv: Entry, depth: nat): Bytes
    decreases kv, 0
  {
    Enc(kv.key, depth + 1) + "=" + Enc(kv.val, depth + 1)
  }

  function EncEntries(kvs: seq<Entry>, depth: nat): (r: seq<Bytes>)
    ensures |r| == |kvs| && forall i :: 0 <= i < |kvs| ==> r[i] == EncEntry(kvs[i], depth)
    decreases kvs, 0
  {
    if kvs == [] then [] else [EncEntry(kvs[0], depth)] + EncEntries(kvs[1..], depth)
  }

  // ---------------------------------------------------------------- meaning

  /** What can be told about a value. `MInt`, `MFloat`, `MComplex` and the path of a dynamic
      type belong to a value in full; an encoding shows the bare word and the printed name. */
  datatype Mean =
    | MCut
    | MToken(s: Bytes)
    | MInt(i: int)
    | MFloat(s: Bytes)
    | MComplex(re: Bytes, im: Bytes)
    | MText(s: Bytes)
    | MBytes(s: Bytes)
    | MPtr(p: Mean)
    | MIface(dyn: Dyn, p: Mean)
    | MStruct(fs: seq<(string, Mean)>)
    | MList(es: seq<Mean>)
    | MMap(kvs: multiset<(Mean, Mean)>)

  /** A dynamic type as an encoding shows it. */
  function Shown(dyn: Dyn): Dyn {
    Dyn("", dyn.printed)
  }

  /** What an encoding can tell about a value: a map is a bag of entries, a dynamic type is what
      it prints, and whatever lies below the depth bound is cut off. */
  function Meaning(v: Val, depth: nat): Mean
    decreases v, 1
  {
    if depth > MAX_DEPTH then MCut
    else match v
      case VStr(s) => MText(s)
      case VSecret(s) => MText(s)
      case VBytes(s) => MBytes(s)
      case VPtr(p) => MPtr(Meaning(p, depth + 1))
      case VIface(dyn, p) => MIface(Shown(dyn), Meaning(p, depth + 1))
      case VStruct(fs) => MStruct(FieldMeanings(fs, depth))
      case VList(es) => MList(ListMeanings(es, depth))
      case VMap(kvs) => MMap(multiset(EntryMeanings(kvs, depth)))
      case _ => MToken(TokenText(v))
  }

  function FieldMeanings(fs: seq<Field>, depth: nat): (r: seq<(string, Mean)>)
    ensures |r| == |fs| && forall i :: 0 <= i < |fs| ==> r[i] == (fs[i].name, Meaning(fs[i].val, depth + 1))
    decreases fs, 0
  {
    if fs == [] then [] else [(fs[0].name, Meaning(fs[0].val, depth + 1))] + FieldMeanings(fs[1..], depth)
  }

  function ListMeanings(es: seq<Val>, depth: nat): (r: seq<Mean>)
    ensures |r| == |es| && forall i :: 0 <= i < |es| ==> r[i] == Meaning(es[i], depth + 1)
    decreases es, 0
  {
    if es == [] then [] else [Meaning(es[0], depth + 1)] + ListMeanings(es[1..], depth)
  }

  function EntryMeaning(kv: Entry, depth: nat): (Mean, Mean)
    decreases kv, 0
  {
    (Meaning(kv.key, depth + 1), Meaning(kv.val, depth + 1))
  }

  function EntryMeanings(kvs: seq<Entry>, depth: nat): (r: seq<(Mean, Mean)>)
    ensures |r| == |kvs| && forall i :: 0 <= i < |kvs| ==> r[i] == EntryMeaning(kvs[i], depth)
    decreases kvs, 0
  {
    if kvs == [] then [] else [EntryMeaning(kvs[0], depth)] + EntryMeanings(kvs[1..], depth)
  }
}
