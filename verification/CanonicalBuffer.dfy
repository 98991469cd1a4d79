/** The encoder as the source writes it: a byte buffer grown field by field and element by
    element, with map entries collected and sorted before they are appended. */
module CanonicalBuffer {
  import opened Decimal
  import opened Canonical

  /** `appendElemBytes`: a byte sequence appended one element at a time. */
  method AppendElemBytes(dst: Bytes, s: Bytes) returns (r: Bytes)
    ensures r == dst + s
  {
    r := dst;
    for i := 0 to |s|
      invariant r == dst + s[..i]
    {
      r := r + [s[i]];
      assert s[..i + 1] == s[..i] + [s[i]];
    }
    assert s[..|s|] == s;
  }

  method AppendLenBytes(dst: Bytes, s: Bytes) returns (r: Bytes)
    ensures r == dst + LenBytes(s)
  {
    r := dst + NatStr(|s|);
    r := r + ":";
    r := AppendElemBytes(r, s);
  }

  lemma Grow(dst: Bytes, a: Bytes, b: Bytes)
    ensures (dst + a) + b == dst + (a + b)
  {
  }

  lemma FieldText(dst: Bytes, name: Bytes, enc: Bytes)
    ensures (((dst + name) + "=") + enc) + ";" == dst + (name + "=" + enc + ";")
  {
    var text := name + "=";
    Grow(dst, name, "=");
    Grow(dst, text, enc);
    Grow(dst, text + enc, ";");
  }

  method AppendField(dst: Bytes, f: Field, depth: nat) returns (r: Bytes)
    ensures r == dst + EncField(f, depth)
    decreases f, 0
  {
    r := dst + f.name;
    r := r + "=";
    r := AppendCanonical(r, f.val, depth + 1);
    FieldText(dst, f.name, Enc(f.val, depth + 1));
    r := r + ";";
  }

  method AppendFields(dst: Bytes, fs: seq<Field>, depth: nat) returns (r: Bytes)
    ensures r == dst + EncFields(fs, depth)
    decreases fs, 0
  {
    r := dst;
    var i := 0;
    assert fs[0..] == fs;
    while i < |fs|
      invariant 0 <= i <= |fs|
      invariant r + EncFields(fs[i..], depth) == dst + EncFields(fs, depth)
    {
      assert fs[i..][0] == fs[i] && fs[i..][1..] == fs[i + 1..];
      Grow(r, EncField(fs[i], depth), EncFields(fs[i + 1..], depth));
      r := AppendField(r, fs[i], depth);
      i := i + 1;
    }
    assert fs[|fs|..] == [];
  }

  method AppendElem(dst: Bytes, e: Val, depth: nat) returns (r: Bytes)
    ensures r == dst + EncElem(e, depth)
    decreases e, 2
  {
    r := AppendCanonical(dst, e, depth + 1);
    Grow(dst, Enc(e, depth + 1), ";");
    r := r + ";";
  }

  method AppendElems(dst: Bytes, es: seq<Val>, depth: nat) returns (r: Bytes)
    ensures r == dst + EncList(es, depth)
    decreases es, 0
  {
    r := dst;
    var i := 0;
    assert es[0..] == es;
    while i < |es|
      invariant 0 <= i <= |es|
      invariant r + EncList(es[i..], depth) == dst + EncList(es, depth)
    {
      assert es[i..][0] == es[i] && es[i..][1..] == es[i + 1..];
      Grow(r, EncElem(es[i], depth), EncList(es[i + 1..], depth));
      r := AppendElem(r, es[i], depth);
      i := i + 1;
    }
    assert es[|es|..] == [];
  }

  method EncodeEntry(kv: Entry, depth: nat) returns (e: Bytes)
    ensures e == EncEntry(kv, depth)
    decreases kv, 0
  {
    e := AppendCanonical("", kv.key, depth + 1);
    EmptyFront(Enc(kv.key, depth + 1));
    e := e + "=";
    e := AppendCanonical(e, kv.val, depth + 1);
  }

  lemma EmptyFront(a: Bytes)
    ensures "" + a == a
  {
  }

  method CollectEntries(kvs: seq<Entry>, depth: nat) returns (entries: seq<Bytes>)
    ensures entries == EncEntries(kvs, depth)
    decreases kvs, 0
  {
    entries := [];
    var i := 0;
    while i < |kvs|
      invariant 0 <= i <= |kvs| && |entries| == i
      invariant forall j :: 0 <= j < i ==> entries[j] == EncEntry(kvs[j], depth)
    {
      var e := EncodeEntry(kvs[i], depth);
      entries := entries + [e];
      i := i + 1;
    }
  }

  method AppendJoined(dst: Bytes, ss: seq<Bytes>) returns (r: Bytes)
    ensures r == dst + Joined(ss)
  {
    r := dst;
    var i := 0;
    assert ss[0..] == ss;
    while i < |ss|
      invariant 0 <= i <= |ss|
      invariant r + Joined(ss[i..]) == dst + Joined(ss)
    {
      ghost var before := r;
      assert ss[i..][0] == ss[i] && ss[i..][1..] == ss[i + 1..];
      r := r + ss[i];
      r := r + ";";
      assert r == before + (ss[i] + ";");
      Grow(before, ss[i] + ";", Joined(ss[i + 1..]));
      i := i + 1;
    }
    assert ss[|ss|..] == [];
  }

  /** `appendCanonical`. */
  method AppendCanonical(dst: Bytes, v: Val, depth: nat) returns (r: Bytes)
    ensures r == dst + Enc(v, depth)
    decreases v, 1
  {
    if depth > MAX_DEPTH {
      return dst + "trunc";
    }
    match v
    case VStr(s) =>
      r := AppendLenBytes(dst + "s", s);
      Grow(dst, "s", LenBytes(s));
    case VSecret(s) =>
      r := AppendLenBytes(dst + "s", s);
      Grow(dst, "s", LenBytes(s));
    case VBytes(s) =>
      r := AppendLenBytes(dst + "b", s);
      Grow(dst, "b", LenBytes(s));
    case VPtr(p) =>
      r := AppendCanonical(dst + "*", p, depth + 1);
      Grow(dst, "*", Enc(p, depth + 1));
    case VIface(dyn, p) =>
      r := AppendLenBytes(dst + "*", dyn.printed);
      r := AppendCanonical(r, p, depth + 1);
      Grow(dst, "*", LenBytes(dyn.printed));
      Grow(dst, "*" + LenBytes(dyn.printed), Enc(p, depth + 1));
    case VStruct(fs) => r := AppendStruct(dst, fs, depth);
    case VList(es) => r := AppendList(dst, es, depth);
    case VMap(kvs) => r := AppendMap(dst, kvs, depth);
    case _ => r := AppendToken(dst, v);
  }

  method AppendStruct(dst: Bytes, fs: seq<Field>, depth: nat) returns (r: Bytes)
    ensures r == dst + ("{" + EncFields(fs, depth) + "}")
    decreases fs, 1
  {
    r := AppendFields(dst + "{", fs, depth);
    Wrapped(dst, "{", EncFields(fs, depth), "}");
    r := r + "}";
  }

  method AppendList(dst: Bytes, es: seq<Val>, depth: nat) returns (r: Bytes)
    ensures r == dst + ("[" + EncList(es, depth) + "]")
    decreases es, 1
  {
    r := AppendElems(dst + "[", es, depth);
    Wrapped(dst, "[", EncList(es, depth), "]");
    r := r + "]";
  }

  /** Entries are encoded on their own, sorted, and only then appended. */
  method AppendMap(dst: Bytes, kvs: seq<Entry>, depth: nat) returns (r: Bytes)
    ensures r == dst + ("m[" + Joined(Sort(EncEntries(kvs, depth))) + "]")
    decreases kvs, 1
  {
    var entries := CollectEntries(kvs, depth);
    var sorted := Sort(entries);
    r := AppendJoined(dst + "m[", sorted);
    Wrapped(dst, "m[", Joined(sorted), "]");
    r := r + "]";
  }

  /** The cases that write one bare word. */
  method AppendToken(dst: Bytes, v: Val) returns (r: Bytes)
    requires Token(v)
    ensures r == dst + TokenText(v)
  {
    match v
    case VNil => r := dst + "nil";
    case VInt(i) => r := dst + IntStr(i);
    case VFloat(t) => r := dst + t;
    case VComplex(re, im) =>
      r := dst + re;
      r := r + "+";
      r := r + im;
      Wrapped(dst, re, "+", im);
    case VBool(b) => r := dst + if b then "true" else "false";
    case VOpaque(k, _) => r := dst + KindText(k);
  }

  lemma Wrapped(dst: Bytes, l: Bytes, a: Bytes, r: Bytes)
    ensures ((dst + l) + a) + r == dst + (l + a + r)
  {
  }
}
