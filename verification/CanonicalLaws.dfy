/** Unique decodability of the canonical encoding. */
module CanonicalLaws {
  import opened Decimal
  import opened Canonical

  /** What can follow an encoding inside another one: a terminator, or nothing. */
  predicate Delim(x: Bytes) {
    x == "" || x[0] == ';' || x[0] == '='
  }

  lemma Strip(p: Bytes, a: Bytes, b: Bytes)
    requires p + a == p + b
    ensures a == b
  {
    assert (p + a)[|p|..] == a && (p + b)[|p|..] == b;
  }

  lemma Assoc(a: Bytes, b: Bytes, c: Bytes)
    ensures (a + b) + c == a + (b + c)
  {
  }

  lemma Regroup(a: Bytes, m: Bytes, r: Bytes, x: Bytes)
    ensures (a + m + r) + x == a + (m + (r + x))
  {
  }

  lemma SameHead(a: Bytes, x: Bytes, b: Bytes, y: Bytes)
    requires a != "" && b != "" && a + x == b + y
    ensures a[0] == b[0]
  {
    assert (a + x)[0] == a[0] && (b + y)[0] == b[0];
  }

  lemma LenSplit(s: Bytes, x: Bytes, t: Bytes, y: Bytes)
    requires LenBytes(s) + x == LenBytes(t) + y
    ensures s == t && x == y
  {
    var a, b := ":" + s + x, ":" + t + y;
    assert LenBytes(s) + x == NatStr(|s|) + a;
    assert LenBytes(t) + y == NatStr(|t|) + b;
    NatSplit(|s|, a, |t|, b);
    assert a == ":" + (s + x) && b == ":" + (t + y);
    Strip(":", s + x, t + y);
    SameSplit(s, x, t, y);
  }

  /** No terminator inside. */
  predicate Plain(a: Bytes) {
    forall i :: 0 <= i < |a| ==> a[i] != ';' && a[i] != '='
  }

  lemma NoLongerPlain(a: Bytes, x: Bytes, b: Bytes, y: Bytes)
    requires Plain(b) && Delim(x) && a + x == b + y
    ensures |b| <= |a|
  {
    assert x != "" ==> (a + x)[|a|] == x[0];
    assert forall i :: 0 <= i < |b| ==> (b + y)[i] == b[i];
  }

  /** A plain word ends where its terminator is. */
  lemma PlainSplit(a: Bytes, x: Bytes, b: Bytes, y: Bytes)
    requires Plain(a) && Plain(b) && Delim(x) && Delim(y) && a + x == b + y
    ensures a == b && x == y
  {
    NoLongerPlain(a, x, b, y);
    NoLongerPlain(b, y, a, x);
    SameSplit(a, x, b, y);
  }

  /** How every encoding that is not a bare word starts. */
  predicate FrameHead(c: char) {
    c == 's' || c == 'b' || c == '*' || c == '{' || c == '[' || c == 'm'
  }

  /** A word: no terminator and no colon inside, and started like no framed encoding. */
  predicate Word(t: Bytes) {
    && t != "" && !FrameHead(t[0]) && t[0] != ']'
    && forall i :: 0 <= i < |t| ==> t[i] != ';' && t[i] != '=' && t[i] != ':'
  }

  lemma NumberIsWord(t: Bytes)
    requires t != "" && (IsDigit(t[0]) || t[0] == '-' || t[0] == '+' || t[0] == 'N') && forall i :: 0 <= i < |t| ==> NumChar(t[i])
    ensures Word(t)
  {
  }

  lemma ComplexIsNumber(re: Bytes, im: Bytes)
    requires FloatText(re) && FloatText(im)
    ensures Word(re + "+" + im)
  {
    var t := re + "+" + im;
    assert t[0] == re[0];
    forall i | 0 <= i < |t|
      ensures NumChar(t[i])
    {
      if i < |re| {
        assert t[i] == re[i];
      } else if i > |re| {
        assert t[i] == im[i - |re| - 1];
      }
    }
    NumberIsWord(t);
  }

  lemma TokenIsWord(v: Val)
    requires Token(v) && Formed(v)
    ensures Word(TokenText(v))
  {
    match v
    case VInt(i) => NumeralIsPlain(i); NumberIsWord(IntStr(i));
    case VFloat(t) => NumberIsWord(t);
    case VComplex(re, im) => ComplexIsNumber(re, im);
    case _ =>
  }

  lemma NumeralIsPlain(i: int)
    ensures forall k :: 0 <= k < |IntStr(i)| ==> IntStr(i)[k] == '-' || IsDigit(IntStr(i)[k])
  {
  }

  /** The first character of every encoding that is not a bare word. */
  function Frame(v: Val): char
    requires !Token(v)
  {
    match v
    case VStr(_) => 's'
    case VSecret(_) => 's'
    case VBytes(_) => 'b'
    case VPtr(_) => '*'
    case VIface(_, _) => '*'
    case VStruct(_) => '{'
    case VList(_) => '['
    case VMap(_) => 'm'
  }

  lemma Framed(v: Val, d: nat)
    requires d <= MAX_DEPTH && !Token(v)
    ensures Enc(v, d) != "" && Enc(v, d)[0] == Frame(v) && FrameHead(Frame(v))
  {
  }

  /** The first character tells a bare word from everything else. */
  lemma Heads(v: Val, d: nat)
    requires Formed(v) && d <= MAX_DEPTH
    ensures Enc(v, d) != "" && Enc(v, d)[0] != ']'
    ensures if Token(v) then Enc(v, d) == TokenText(v) && !FrameHead(Enc(v, d)[0]) else Enc(v, d)[0] == Frame(v) && FrameHead(Frame(v))
  {
    if Token(v) {
      TokenIsWord(v);
    } else {
      Framed(v, d);
    }
  }

  /** No encoding starts with the bracket that ends a list or a map. */
  lemma NeverCloses(v: Val, d: nat)
    requires Formed(v)
    ensures Enc(v, d) != "" && Enc(v, d)[0] != ']'
  {
    if d <= MAX_DEPTH {
      Heads(v, d);
    }
  }

  lemma EntryNeverCloses(kv: Entry, d: nat)
    requires Formed(kv.key)
    ensures EncEntry(kv, d) != "" && EncEntry(kv, d)[0] != ']'
  {
    NeverCloses(kv.key, d + 1);
  }

  // ---------------------------------------------------------------- one level at a time

  /** The claim, for values `v` and `w` of type `t` at depth `d`: whatever terminators
      follow, equal bytes mean equal meanings and equal remainders. */
  ghost predicate Decodes(v: Val, w: Val, d: nat) {
    forall x, y :: Clash(v, w, d, x, y) ==> Meaning(v, d) == Meaning(w, d) && x == y
  }

  /** The same bytes, read as `v` followed by `x` and as `w` followed by `y`. */
  predicate Clash(v: Val, w: Val, d: nat, x: Bytes, y: Bytes) {
    Delim(x) && Delim(y) && Enc(v, d) + x == Enc(w, d) + y
  }

  lemma DecodesAt(v: Val, w: Val, d: nat, x: Bytes, y: Bytes)
    requires Decodes(v, w, d) && Delim(x) && Delim(y) && Enc(v, d) + x == Enc(w, d) + y
    ensures Meaning(v, d) == Meaning(w, d) && x == y
  {
    assert Clash(v, w, d, x, y);
  }

  ghost predicate FieldsDecodable(fs: seq<Field>, gs: seq<Field>, d: nat) {
    && (forall i :: 0 <= i < |fs| ==> FieldName(fs[i].name))
    && (forall i :: 0 <= i < |gs| ==> FieldName(gs[i].name))
    && (forall i, j :: 0 <= i < |fs| && 0 <= j < |gs| ==> Decodes(fs[i].val, gs[j].val, d + 1))
  }

  lemma {:induction false} FieldsDecode(fs: seq<Field>, gs: seq<Field>, d: nat, x: Bytes, y: Bytes)
    requires FieldsDecodable(fs, gs, d)
    requires x != "" && x[0] == '}' && y != "" && y[0] == '}'
    requires EncFields(fs, d) + x == EncFields(gs, d) + y
    ensures FieldMeanings(fs, d) == FieldMeanings(gs, d) && x == y
    decreases |fs|
  {
    if fs == [] && gs == [] {
      assert EncFields(fs, d) + x == x && EncFields(gs, d) + y == y;
    } else if fs == [] {
      FieldsEnd(gs, d, y, x);
    } else if gs == [] {
      FieldsEnd(fs, d, x, y);
    } else {
      var r, q := EncFields(fs[1..], d), EncFields(gs[1..], d);
      FieldsOpen(fs, d, x);
      FieldsOpen(gs, d, y);
      FirstFieldDecodes(fs[0], gs[0], d, r + x, q + y, EncFields(fs, d) + x);
      FieldsDecode(fs[1..], gs[1..], d, x, y);
    }
  }

  /** A struct with a field left cannot be read as one that has ended. */
  lemma FieldsEnd(fs: seq<Field>, d: nat, x: Bytes, y: Bytes)
    requires fs != [] && FieldName(fs[0].name) && y != "" && y[0] == '}'
    ensures EncFields(fs, d) + x != "" + y
  {
    FieldsOpen(fs, d, x);
    assert "" + y == y;
  }

  lemma FirstFieldDecodes(f: Field, g: Field, d: nat, r: Bytes, q: Bytes, whole: Bytes)
    requires FieldName(f.name) && FieldName(g.name) && Decodes(f.val, g.val, d + 1)
    requires whole == f.name + ("=" + (Enc(f.val, d + 1) + (";" + r)))
    requires whole == g.name + ("=" + (Enc(g.val, d + 1) + (";" + q)))
    ensures f.name == g.name && Meaning(f.val, d + 1) == Meaning(g.val, d + 1) && r == q
  {
    var a, b := Enc(f.val, d + 1) + (";" + r), Enc(g.val, d + 1) + (";" + q);
    PlainSplit(f.name, "=" + a, g.name, "=" + b);
    Strip("=", a, b);
    DecodesAt(f.val, g.val, d + 1, ";" + r, ";" + q);
    Strip(";", r, q);
  }

  lemma FieldsOpen(fs: seq<Field>, d: nat, x: Bytes)
    requires fs != []
    ensures EncFields(fs, d) + x == fs[0].name + ("=" + (Enc(fs[0].val, d + 1) + (";" + (EncFields(fs[1..], d) + x))))
  {
    var n, a, r := fs[0].name, Enc(fs[0].val, d + 1), EncFields(fs[1..], d);
    assert EncFields(fs, d) == n + "=" + a + ";" + r;
    Regroup(n + "=" + a, ";", r, x);
    Assoc(n + "=", a, ";" + (r + x));
    Assoc(n, "=", a + (";" + (r + x)));
  }

  lemma {:induction false} ListDecodes(es: seq<Val>, fs: seq<Val>, d: nat, x: Bytes, y: Bytes)
    requires forall i :: 0 <= i < |es| ==> Formed(es[i])
    requires forall i :: 0 <= i < |fs| ==> Formed(fs[i])
    requires forall i, j :: 0 <= i < |es| && 0 <= j < |fs| ==> Decodes(es[i], fs[j], d + 1)
    requires x != "" && x[0] == ']' && y != "" && y[0] == ']'
    requires EncList(es, d) + x == EncList(fs, d) + y
    ensures ListMeanings(es, d) == ListMeanings(fs, d) && x == y
    decreases |es|
  {
    if es == [] && fs == [] {
      assert EncList(es, d) + x == x && EncList(fs, d) + y == y;
    } else if es == [] {
      ListEnds(fs, d, y, x);
    } else if fs == [] {
      ListEnds(es, d, x, y);
    } else {
      var r, q := EncList(es[1..], d), EncList(fs[1..], d);
      ListOpens(es, d, x);
      ListOpens(fs, d, y);
      DecodesAt(es[0], fs[0], d + 1, ";" + (r + x), ";" + (q + y));
      Strip(";", r + x, q + y);
      ListDecodes(es[1..], fs[1..], d, x, y);
    }
  }

  /** A list with an element left cannot be read as one that has ended. */
  lemma ListEnds(es: seq<Val>, d: nat, x: Bytes, y: Bytes)
    requires es != [] && Formed(es[0]) && y != "" && y[0] == ']'
    ensures EncList(es, d) + x != "" + y
  {
    NeverCloses(es[0], d + 1);
    ListOpens(es, d, x);
    assert "" + y == y;
  }

  lemma ListOpens(es: seq<Val>, d: nat, x: Bytes)
    requires es != []
    ensures EncList(es, d) + x == Enc(es[0], d + 1) + (";" + (EncList(es[1..], d) + x))
  {
    Regroup(Enc(es[0], d + 1), ";", EncList(es[1..], d), x);
  }

  lemma EntryDecodes(kv: Entry, kw: Entry, d: nat, x: Bytes, y: Bytes)
    requires Decodes(kv.key, kw.key, d + 1) && Decodes(kv.val, kw.val, d + 1)
    requires Delim(x) && Delim(y) && EncEntry(kv, d) + x == EncEntry(kw, d) + y
    ensures EntryMeaning(kv, d) == EntryMeaning(kw, d) && x == y
  {
    var r, q := Enc(kv.val, d + 1), Enc(kw.val, d + 1);
    EntryOpens(kv, d, x);
    EntryOpens(kw, d, y);
    DecodesAt(kv.key, kw.key, d + 1, "=" + (r + x), "=" + (q + y));
    Strip("=", r + x, q + y);
    DecodesAt(kv.val, kw.val, d + 1, x, y);
  }

  lemma EntryOpens(kv: Entry, d: nat, x: Bytes)
    ensures EncEntry(kv, d) + x == Enc(kv.key, d + 1) + ("=" + (Enc(kv.val, d + 1) + x))
  {
    Regroup(Enc(kv.key, d + 1), "=", Enc(kv.val, d + 1), x);
  }

  /** Every string of `a` is the encoding of some entry of `kvs`. */
  ghost predicate Drawn(a: seq<Bytes>, kvs: seq<Entry>, d: nat) {
    forall s :: s in a ==> exists i :: 0 <= i < |kvs| && s == EncEntry(kvs[i], d)
  }

  ghost predicate EntriesDecode(kvs: seq<Entry>, kws: seq<Entry>, d: nat) {
    && KeysFormed(kvs) && KeysFormed(kws)
    && forall i, j :: 0 <= i < |kvs| && 0 <= j < |kws| ==> Decodes(kvs[i].key, kws[j].key, d + 1) && Decodes(kvs[i].val, kws[j].val, d + 1)
  }

  predicate KeysFormed(kvs: seq<Entry>) {
    forall i :: 0 <= i < |kvs| ==> Formed(kvs[i].key)
  }

  lemma {:induction false} JoinedDecodes(a: seq<Bytes>, b: seq<Bytes>, kvs: seq<Entry>, kws: seq<Entry>, d: nat, x: Bytes, y: Bytes)
    requires EntriesDecode(kvs, kws, d) && Drawn(a, kvs, d) && Drawn(b, kws, d)
    requires x != "" && x[0] == ']' && y != "" && y[0] == ']'
    requires Joined(a) + x == Joined(b) + y
    ensures a == b && x == y
    decreases |a|
  {
    if a == [] && b == [] {
      assert Joined(a) + x == x && Joined(b) + y == y;
    } else if a == [] {
      JoinedEnds(b, kws, d, y, x);
    } else if b == [] {
      JoinedEnds(a, kvs, d, x, y);
    } else {
      assert a[0] in a && b[0] in b;
      var i :| 0 <= i < |kvs| && a[0] == EncEntry(kvs[i], d);
      var j :| 0 <= j < |kws| && b[0] == EncEntry(kws[j], d);
      var r, q := Joined(a[1..]), Joined(b[1..]);
      Regroup(a[0], ";", r, x);
      Regroup(b[0], ";", q, y);
      EntryDecodes(kvs[i], kws[j], d, ";" + (r + x), ";" + (q + y));
      SameTail(a[0], b[0], ";" + (r + x));
      Strip(";", r + x, q + y);
      DrawnRest(a, kvs, d);
      DrawnRest(b, kws, d);
      JoinedDecodes(a[1..], b[1..], kvs, kws, d, x, y);
      assert a == [a[0]] + a[1..] && b == [b[0]] + b[1..];
    }
  }

  lemma DrawnRest(a: seq<Bytes>, kvs: seq<Entry>, d: nat)
    requires a != [] && Drawn(a, kvs, d)
    ensures Drawn(a[1..], kvs, d)
  {
    assert forall s :: s in a[1..] ==> s in a;
  }

  lemma SameTail(a: Bytes, b: Bytes, x: Bytes)
    requires a + x == b + x
    ensures a == b
  {
    assert |a| == |b|;
    SameSplit(a, x, b, x);
  }

  lemma JoinedEnds(a: seq<Bytes>, kvs: seq<Entry>, d: nat, x: Bytes, y: Bytes)
    requires a != [] && Drawn(a, kvs, d) && KeysFormed(kvs) && y != "" && y[0] == ']'
    ensures Joined(a) + x != "" + y
  {
    assert a[0] in a;
    var i :| 0 <= i < |kvs| && a[0] == EncEntry(kvs[i], d);
    EntryNeverCloses(kvs[i], d);
    assert (Joined(a) + x)[0] == a[0][0];
    assert ("" + y)[0] == ']';
  }

  // ---------------------------------------------------------------- maps as bags

  /** Equal bags stay equal under any relabelling that respects equality. */
  lemma {:induction false} BagTransfer<A, B>(c: seq<A>, d: seq<A>, a: seq<B>, b: seq<B>)
    requires |a| == |c| && |b| == |d| && multiset(c) == multiset(d) && Respects(c, d, a, b)
    ensures multiset(a) == multiset(b)
    decreases |c|
  {
    assert |multiset(c)| == |c| && |multiset(d)| == |d|;
    if c != [] {
      assert c[0] in multiset(d);
      var j :| 0 <= j < |d| && d[j] == c[0];
      var d', b' := d[..j] + d[j + 1..], b[..j] + b[j + 1..];
      Pick(d, j);
      Pick(b, j);
      First(c);
      First(a);
      CancelOne(multiset(c[1..]), multiset(d'), c[0]);
      RespectsRest(c, d, a, b, j);
      BagTransfer(c[1..], d', a[1..], b');
    }
  }

  lemma RespectsRest<A, B>(c: seq<A>, d: seq<A>, a: seq<B>, b: seq<B>, j: nat)
    requires |a| == |c| && |b| == |d| && c != [] && j < |d| && Respects(c, d, a, b)
    ensures Respects(c[1..], d[..j] + d[j + 1..], a[1..], b[..j] + b[j + 1..])
  {
    var d', b' := d[..j] + d[j + 1..], b[..j] + b[j + 1..];
    forall i, k | 0 <= i < |c[1..]| && 0 <= k < |d'| && c[1..][i] == d'[k]
      ensures a[1..][i] == b'[k]
    {
      var k' := if k < j then k else k + 1;
      assert d'[k] == d[k'] && b'[k] == b[k'];
      assert c[i + 1] == d[k'];
    }
  }

  ghost predicate Respects<A, B>(c: seq<A>, d: seq<A>, a: seq<B>, b: seq<B>)
    requires |a| == |c| && |b| == |d|
  {
    forall i, j :: 0 <= i < |c| && 0 <= j < |d| && c[i] == d[j] ==> a[i] == b[j]
  }

  lemma First<X>(s: seq<X>)
    requires s != []
    ensures multiset(s) == multiset(s[1..]) + multiset{s[0]}
  {
    assert s == [s[0]] + s[1..];
  }

  lemma CancelOne<X>(m: multiset<X>, n: multiset<X>, x: X)
    requires m + multiset{x} == n + multiset{x}
    ensures m == n
  {
    assert m == (m + multiset{x}) - multiset{x};
    assert n == (n + multiset{x}) - multiset{x};
  }

  lemma Pick<X>(s: seq<X>, j: nat)
    requires j < |s|
    ensures multiset(s) == multiset(s[..j] + s[j + 1..]) + multiset{s[j]}
  {
    assert s == s[..j] + [s[j]] + s[j + 1..];
  }

  lemma MapDecodes(kvs: seq<Entry>, kws: seq<Entry>, d: nat, x: Bytes, y: Bytes)
    requires EntriesDecode(kvs, kws, d) && x != "" && x[0] == ']' && y != "" && y[0] == ']'
    requires Joined(Sort(EncEntries(kvs, d))) + x == Joined(Sort(EncEntries(kws, d))) + y
    ensures multiset(EntryMeanings(kvs, d)) == multiset(EntryMeanings(kws, d)) && x == y
  {
    var a, b := EncEntries(kvs, d), EncEntries(kws, d);
    SortDrawn(kvs, d);
    SortDrawn(kws, d);
    JoinedDecodes(Sort(a), Sort(b), kvs, kws, d, x, y);
    SortDetermined(a, b);
    forall i, j | 0 <= i < |a| && 0 <= j < |b| && a[i] == b[j]
      ensures EntryMeanings(kvs, d)[i] == EntryMeanings(kws, d)[j]
    {
      EntryDecodes(kvs[i], kws[j], d, "", "");
    }
    BagTransfer(a, b, EntryMeanings(kvs, d), EntryMeanings(kws, d));
  }

  lemma SortDrawn(kvs: seq<Entry>, d: nat)
    ensures Drawn(Sort(EncEntries(kvs, d)), kvs, d)
  {
    var a := EncEntries(kvs, d);
    forall s | s in Sort(a)
      ensures exists i :: 0 <= i < |kvs| && s == EncEntry(kvs[i], d)
    {
      assert s in multiset(Sort(a));
      assert s in multiset(a);
      var i :| 0 <= i < |a| && a[i] == s;
      assert s == EncEntry(kvs[i], d);
    }
  }

  // ---------------------------------------------------------------- the theorem

  lemma PtrOpens(p: Val, d: nat, x: Bytes)
    requires d <= MAX_DEPTH
    ensures Enc(VPtr(p), d) + x == "*" + (Enc(p, d + 1) + x)
  {
    Assoc("*", Enc(p, d + 1), x);
  }

  lemma IfaceOpens(m: Dyn, p: Val, d: nat, x: Bytes)
    requires d <= MAX_DEPTH
    ensures Enc(VIface(m, p), d) + x == "*" + (LenBytes(m.printed) + (Enc(p, d + 1) + x))
  {
    Regroup("*", LenBytes(m.printed), Enc(p, d + 1), x);
  }

  lemma PtrSplits(p: Val, q: Val, d: nat, x: Bytes, y: Bytes)
    requires d <= MAX_DEPTH && Clash(VPtr(p), VPtr(q), d, x, y)
    ensures Enc(p, d + 1) + x == Enc(q, d + 1) + y
  {
    PtrOpens(p, d, x);
    PtrOpens(q, d, y);
    Strip("*", Enc(p, d + 1) + x, Enc(q, d + 1) + y);
  }

  lemma IfaceSplits(m: Dyn, p: Val, n: Dyn, q: Val, d: nat, x: Bytes, y: Bytes)
    requires d <= MAX_DEPTH && Clash(VIface(m, p), VIface(n, q), d, x, y)
    ensures m.printed == n.printed && Enc(p, d + 1) + x == Enc(q, d + 1) + y
  {
    IfaceOpens(m, p, d, x);
    IfaceOpens(n, q, d, y);
    Strip("*", LenBytes(m.printed) + (Enc(p, d + 1) + x), LenBytes(n.printed) + (Enc(q, d + 1) + y));
    LenSplit(m.printed, Enc(p, d + 1) + x, n.printed, Enc(q, d + 1) + y);
  }

  /** A pointer is never read as an interface: no encoding starts with a length. */
  lemma PtrIsNoIface(p: Val, n: Dyn, q: Val, d: nat, x: Bytes, y: Bytes)
    requires d <= MAX_DEPTH && Formed(p) && Delim(x)
    ensures Enc(VPtr(p), d) + x != Enc(VIface(n, q), d) + y
  {
    if Enc(VPtr(p), d) + x == Enc(VIface(n, q), d) + y {
      PtrOpens(p, d, x);
      IfaceOpens(n, q, d, y);
      NoLengthFirst(p, d + 1, x, n.printed, Enc(q, d + 1) + y);
      Strip("*", Enc(p, d + 1) + x, LenBytes(n.printed) + (Enc(q, d + 1) + y));
    }
  }

  lemma LenOpens(s: Bytes, x: Bytes)
    ensures LenBytes(s) + x == NatStr(|s|) + (":" + (s + x))
  {
    Regroup(NatStr(|s|), ":", s, x);
  }

  lemma NoLengthFirst(p: Val, d: nat, x: Bytes, s: Bytes, y: Bytes)
    requires Formed(p) && Delim(x)
    ensures Enc(p, d) + x != LenBytes(s) + y
  {
    LenOpens(s, y);
    if d > MAX_DEPTH {
      WordIsNoLength("trunc", x, NatStr(|s|), s + y);
    } else {
      Heads(p, d);
      if Token(p) {
        TokenIsWord(p);
        WordIsNoLength(TokenText(p), x, NatStr(|s|), s + y);
      } else {
        assert (Enc(p, d) + x)[0] == Enc(p, d)[0];
        assert (NatStr(|s|) + (":" + (s + y)))[0] == NatStr(|s|)[0];
      }
    }
  }

  lemma WordIsNoLength(w: Bytes, x: Bytes, digits: Bytes, rest: Bytes)
    requires Word(w) && Delim(x) && AllDigits(digits)
    ensures w + x != digits + (":" + rest)
  {
    var s, t, n := w + x, digits + (":" + rest), |digits|;
    assert t[n] == ':';
    assert forall i :: 0 <= i < n ==> t[i] == digits[i];
    assert forall i :: 0 <= i < |w| ==> s[i] == w[i];
    assert x != "" ==> s[|w|] == x[0];
  }

  lemma TextDecodes(tag: Bytes, s: Bytes, x: Bytes, t: Bytes, y: Bytes)
    requires (tag + LenBytes(s)) + x == (tag + LenBytes(t)) + y
    ensures s == t && x == y
  {
    Assoc(tag, LenBytes(s), x);
    Assoc(tag, LenBytes(t), y);
    Strip(tag, LenBytes(s) + x, LenBytes(t) + y);
    LenSplit(s, x, t, y);
  }

  lemma Unbracket(l: Bytes, a: Bytes, r: Bytes, x: Bytes, b: Bytes, y: Bytes)
    requires (l + a + r) + x == (l + b + r) + y
    ensures a + (r + x) == b + (r + y)
  {
    Regroup(l, a, r, x);
    Regroup(l, b, r, y);
    Strip(l, a + (r + x), b + (r + y));
  }

  lemma SameWord(w: Bytes, x: Bytes, y: Bytes)
    requires w + x == w + y
    ensures x == y
  {
    Strip(w, x, y);
  }

  /** Bare words. */
  lemma TokenDecodes(v: Val, w: Val, d: nat, x: Bytes, y: Bytes)
    requires d <= MAX_DEPTH && Formed(v) && Formed(w) && Clash(v, w, d, x, y) && Token(v) && Token(w)
    ensures Meaning(v, d) == Meaning(w, d) && x == y
  {
    TokenIsWord(v);
    TokenIsWord(w);
    PlainSplit(TokenText(v), x, TokenText(w), y);
  }

  /** Values that are not bare words are told apart by their first character, except that a
      string and a secret share theirs, and a pointer and an interface. */
  lemma SameFrame(v: Val, w: Val, d: nat, x: Bytes, y: Bytes)
    requires d <= MAX_DEPTH && Formed(v) && Formed(w) && Clash(v, w, d, x, y) && !(Token(v) && Token(w))
    ensures !Token(v) && !Token(w)
    ensures (v.VStr? || v.VSecret? <==> w.VStr? || w.VSecret?) && (v.VBytes? <==> w.VBytes?)
    ensures (v.VPtr? || v.VIface? <==> w.VPtr? || w.VIface?)
    ensures (v.VStruct? <==> w.VStruct?) && (v.VList? <==> w.VList?) && (v.VMap? <==> w.VMap?)
  {
    Heads(v, d);
    Heads(w, d);
    SameHead(Enc(v, d), x, Enc(w, d), y);
    if !Token(v) && !Token(w) {
      FrameTells(v, w);
    }
  }

  lemma FrameTells(v: Val, w: Val)
    requires !Token(v) && !Token(w) && Frame(v) == Frame(w)
    ensures (v.VStr? || v.VSecret? <==> w.VStr? || w.VSecret?) && (v.VBytes? <==> w.VBytes?)
    ensures (v.VPtr? || v.VIface? <==> w.VPtr? || w.VIface?)
    ensures (v.VStruct? <==> w.VStruct?) && (v.VList? <==> w.VList?) && (v.VMap? <==> w.VMap?)
  {
  }

  lemma FramedTextDecodes(v: Val, w: Val, d: nat, x: Bytes, y: Bytes)
    requires d <= MAX_DEPTH && Formed(v) && Formed(w) && Clash(v, w, d, x, y)
    requires ((v.VStr? || v.VSecret?) && (w.VStr? || w.VSecret?)) || (v.VBytes? && w.VBytes?)
    ensures Meaning(v, d) == Meaning(w, d) && x == y
  {
    TextDecodes(if v.VBytes? then "b" else "s", v.s, x, w.s, y);
  }

  lemma StructDecodes(fs: seq<Field>, gs: seq<Field>, d: nat, x: Bytes, y: Bytes)
    requires d <= MAX_DEPTH && Clash(VStruct(fs), VStruct(gs), d, x, y)
    requires FieldsDecodable(fs, gs, d)
    ensures Meaning(VStruct(fs), d) == Meaning(VStruct(gs), d) && x == y
  {
    Unbracket("{", EncFields(fs, d), "}", x, EncFields(gs, d), y);
    FieldsDecode(fs, gs, d, "}" + x, "}" + y);
    SameWord("}", x, y);
  }

  lemma SliceDecodes(es: seq<Val>, fs: seq<Val>, d: nat, x: Bytes, y: Bytes)
    requires d <= MAX_DEPTH && Clash(VList(es), VList(fs), d, x, y)
    requires forall i :: 0 <= i < |es| ==> Formed(es[i])
    requires forall i :: 0 <= i < |fs| ==> Formed(fs[i])
    requires forall i, j :: 0 <= i < |es| && 0 <= j < |fs| ==> Decodes(es[i], fs[j], d + 1)
    ensures Meaning(VList(es), d) == Meaning(VList(fs), d) && x == y
  {
    Unbracket("[", EncList(es, d), "]", x, EncList(fs, d), y);
    ListDecodes(es, fs, d, "]" + x, "]" + y);
    SameWord("]", x, y);
  }

  lemma BagDecodes(kvs: seq<Entry>, kws: seq<Entry>, d: nat, x: Bytes, y: Bytes)
    requires d <= MAX_DEPTH && Clash(VMap(kvs), VMap(kws), d, x, y) && EntriesDecode(kvs, kws, d)
    ensures Meaning(VMap(kvs), d) == Meaning(VMap(kws), d) && x == y
  {
    MapOpens(kvs, kws, d, x, y);
    MapCloses(kvs, kws, d, x, y);
    MapMeans(kvs, d);
    MapMeans(kws, d);
  }

  lemma MapMeans(kvs: seq<Entry>, d: nat)
    requires d <= MAX_DEPTH
    ensures Meaning(VMap(kvs), d) == MMap(multiset(EntryMeanings(kvs, d)))
  {
  }

  lemma MapCloses(kvs: seq<Entry>, kws: seq<Entry>, d: nat, x: Bytes, y: Bytes)
    requires EntriesDecode(kvs, kws, d)
    requires Joined(Sort(EncEntries(kvs, d))) + ("]" + x) == Joined(Sort(EncEntries(kws, d))) + ("]" + y)
    ensures multiset(EntryMeanings(kvs, d)) == multiset(EntryMeanings(kws, d)) && x == y
  {
    MapDecodes(kvs, kws, d, "]" + x, "]" + y);
    SameWord("]", x, y);
  }

  lemma MapOpens(kvs: seq<Entry>, kws: seq<Entry>, d: nat, x: Bytes, y: Bytes)
    requires d <= MAX_DEPTH && Clash(VMap(kvs), VMap(kws), d, x, y)
    ensures Joined(Sort(EncEntries(kvs, d))) + ("]" + x) == Joined(Sort(EncEntries(kws, d))) + ("]" + y)
  {
    MapText(kvs, d);
    MapText(kws, d);
    Unbracket("m[", Joined(Sort(EncEntries(kvs, d))), "]", x, Joined(Sort(EncEntries(kws, d))), y);
  }

  lemma MapText(kvs: seq<Entry>, d: nat)
    requires d <= MAX_DEPTH
    ensures Enc(VMap(kvs), d) == "m[" + Joined(Sort(EncEntries(kvs, d))) + "]"
  {
  }

  /** Unique decodability, whatever the types: of two values at one depth, followed by anything
      a terminator allows, equal bytes mean equal meanings and equal remainders. */
  lemma {:induction false} UniquelyDecodable(v: Val, w: Val, d: nat, x: Bytes, y: Bytes)
    requires Formed(v) && Formed(w) && Clash(v, w, d, x, y)
    ensures Meaning(v, d) == Meaning(w, d) && x == y
    decreases v, 1
  {
    if d > MAX_DEPTH {
      SameWord("trunc", x, y);
    } else if Token(v) && Token(w) {
      TokenDecodes(v, w, d, x, y);
    } else {
      SameFrame(v, w, d, x, y);
      if v.VStr? || v.VSecret? || v.VBytes? {
        FramedTextDecodes(v, w, d, x, y);
      } else if v.VPtr? || v.VIface? {
        StarDecodes(v, w, d, x, y);
      } else {
        CompositeDecodes(v, w, d, x, y);
      }
    }
  }

  lemma {:induction false} StarDecodes(v: Val, w: Val, d: nat, x: Bytes, y: Bytes)
    requires d <= MAX_DEPTH && Formed(v) && Formed(w) && Clash(v, w, d, x, y)
    requires (v.VPtr? || v.VIface?) && (w.VPtr? || w.VIface?)
    ensures Meaning(v, d) == Meaning(w, d) && x == y
    decreases v, 0
  {
    PartDecodes(v, v.p, w.p, d + 1);
    if v.VPtr? && w.VPtr? {
      PtrSplits(v.p, w.p, d, x, y);
      DecodesAt(v.p, w.p, d + 1, x, y);
    } else if v.VIface? && w.VIface? {
      IfaceSplits(v.dyn, v.p, w.dyn, w.p, d, x, y);
      DecodesAt(v.p, w.p, d + 1, x, y);
    } else if v.VPtr? {
      PtrIsNoIface(v.p, w.dyn, w.p, d, x, y);
    } else {
      PtrIsNoIface(w.p, v.dyn, v.p, d, y, x);
    }
  }

  lemma {:induction false} CompositeDecodes(v: Val, w: Val, d: nat, x: Bytes, y: Bytes)
    requires d <= MAX_DEPTH && Formed(v) && Formed(w) && Clash(v, w, d, x, y)
    requires (v.VStruct? && w.VStruct?) || (v.VList? && w.VList?) || (v.VMap? && w.VMap?)
    ensures Meaning(v, d) == Meaning(w, d) && x == y
    decreases v, 0
  {
    if v.VStruct? {
      forall i, j | 0 <= i < |v.fields| && 0 <= j < |w.fields|
        ensures Decodes(v.fields[i].val, w.fields[j].val, d + 1)
      {
        PartDecodes(v, v.fields[i].val, w.fields[j].val, d + 1);
      }
      StructDecodes(v.fields, w.fields, d, x, y);
    } else if v.VList? {
      forall i, j | 0 <= i < |v.es| && 0 <= j < |w.es|
        ensures Decodes(v.es[i], w.es[j], d + 1)
      {
        PartDecodes(v, v.es[i], w.es[j], d + 1);
      }
      SliceDecodes(v.es, w.es, d, x, y);
    } else {
      forall i, j | 0 <= i < |v.kvs| && 0 <= j < |w.kvs|
        ensures Decodes(v.kvs[i].key, w.kvs[j].key, d + 1) && Decodes(v.kvs[i].val, w.kvs[j].val, d + 1)
      {
        PartDecodes(v, v.kvs[i].key, w.kvs[j].key, d + 1);
        PartDecodes(v, v.kvs[i].val, w.kvs[j].val, d + 1);
      }
      BagDecodes(v.kvs, w.kvs, d, x, y);
    }
  }

  /** The induction hypothesis, for a part of `whole`. */
  lemma {:induction false} PartDecodes(whole: Val, v: Val, w: Val, d: nat)
    requires v < whole && Formed(v) && Formed(w)
    ensures Decodes(v, w, d)
    decreases v, 2
  {
    forall x, y | Clash(v, w, d, x, y)
      ensures Meaning(v, d) == Meaning(w, d) && x == y
    {
      UniquelyDecodable(v, w, d, x, y);
    }
  }

  // ---------------------------------------------------------------- and back

  lemma {:induction false} FieldsEncode(fs: seq<Field>, gs: seq<Field>, d: nat)
    requires |fs| == |gs|
    requires forall i :: 0 <= i < |fs| ==> fs[i].name == gs[i].name && Enc(fs[i].val, d + 1) == Enc(gs[i].val, d + 1)
    ensures EncFields(fs, d) == EncFields(gs, d)
    decreases |fs|
  {
    if fs != [] {
      FieldsEncode(fs[1..], gs[1..], d);
    }
  }

  lemma {:induction false} ListEncodes(es: seq<Val>, fs: seq<Val>, d: nat)
    requires |es| == |fs| && forall i :: 0 <= i < |es| ==> Enc(es[i], d + 1) == Enc(fs[i], d + 1)
    ensures EncList(es, d) == EncList(fs, d)
    decreases |es|
  {
    if es != [] {
      ListEncodes(es[1..], fs[1..], d);
    }
  }

  lemma BagEncodes(kvs: seq<Entry>, kws: seq<Entry>, d: nat)
    requires multiset(EntryMeanings(kvs, d)) == multiset(EntryMeanings(kws, d))
    requires forall i, j :: 0 <= i < |kvs| && 0 <= j < |kws| && EntryMeaning(kvs[i], d) == EntryMeaning(kws[j], d)
                            ==> EncEntry(kvs[i], d) == EncEntry(kws[j], d)
    ensures Sort(EncEntries(kvs, d)) == Sort(EncEntries(kws, d))
  {
    BagTransfer(EntryMeanings(kvs, d), EntryMeanings(kws, d), EncEntries(kvs, d), EncEntries(kws, d));
    SortDetermined(EncEntries(kvs, d), EncEntries(kws, d));
  }

  lemma StructMeans(fs: seq<Field>, gs: seq<Field>, d: nat, i: nat)
    requires d <= MAX_DEPTH && Meaning(VStruct(fs), d) == Meaning(VStruct(gs), d) && i < |fs|
    ensures |fs| == |gs| && fs[i].name == gs[i].name && Meaning(fs[i].val, d + 1) == Meaning(gs[i].val, d + 1)
  {
    assert FieldMeanings(fs, d)[i] == FieldMeanings(gs, d)[i];
  }

  lemma ListMeans(es: seq<Val>, fs: seq<Val>, d: nat)
    requires d <= MAX_DEPTH && Meaning(VList(es), d) == Meaning(VList(fs), d)
    ensures |es| == |fs| && forall i :: 0 <= i < |es| ==> Meaning(es[i], d + 1) == Meaning(fs[i], d + 1)
  {
    assert |ListMeanings(es, d)| == |ListMeanings(fs, d)|;
    forall i | 0 <= i < |es|
      ensures Meaning(es[i], d + 1) == Meaning(fs[i], d + 1)
    {
      assert ListMeanings(es, d)[i] == ListMeanings(fs, d)[i];
    }
  }

  /** Values that mean the same encode the same, whatever order their maps were visited in. */
  lemma {:induction false} MeaningDeterminesBytes(v: Val, w: Val, d: nat)
    requires Meaning(v, d) == Meaning(w, d)
    ensures Enc(v, d) == Enc(w, d)
    decreases v, 1
  {
    if d > MAX_DEPTH {
    } else if v.VPtr? {
      PtrBytes(v, w, d);
    } else if v.VIface? {
      IfaceBytes(v, w, d);
    } else if v.VStruct? {
      StructBytes(v, w, d);
    } else if v.VList? {
      ListBytes(v, w, d);
    } else if v.VMap? {
      MapMeans(v.kvs, d);
      MapMeans(w.kvs, d);
      MapBytes(v.kvs, w.kvs, d, v);
      SameMapBytes(v.kvs, w.kvs, d);
    } else {
      LeafBytes(v, w, d);
    }
  }

  lemma SameMapBytes(kvs: seq<Entry>, kws: seq<Entry>, d: nat)
    requires Sort(EncEntries(kvs, d)) == Sort(EncEntries(kws, d))
    ensures Enc(VMap(kvs), d) == Enc(VMap(kws), d)
  {
  }

  lemma LeafBytes(v: Val, w: Val, d: nat)
    requires d <= MAX_DEPTH && (Token(v) || v.VStr? || v.VSecret? || v.VBytes?) && Meaning(v, d) == Meaning(w, d)
    ensures Enc(v, d) == Enc(w, d)
  {
  }

  lemma {:induction false} PtrBytes(v: Val, w: Val, d: nat)
    requires d <= MAX_DEPTH && v.VPtr? && w.VPtr? && Meaning(v.p, d + 1) == Meaning(w.p, d + 1)
    ensures Enc(v, d) == Enc(w, d)
    decreases v, 0
  {
    MeaningDeterminesBytes(v.p, w.p, d + 1);
  }

  lemma {:induction false} IfaceBytes(v: Val, w: Val, d: nat)
    requires d <= MAX_DEPTH && v.VIface? && w.VIface? && v.dyn.printed == w.dyn.printed && Meaning(v.p, d + 1) == Meaning(w.p, d + 1)
    ensures Enc(v, d) == Enc(w, d)
    decreases v, 0
  {
    MeaningDeterminesBytes(v.p, w.p, d + 1);
  }

  lemma {:induction false} StructBytes(v: Val, w: Val, d: nat)
    requires d <= MAX_DEPTH && v.VStruct? && w.VStruct? && Meaning(v, d) == Meaning(w, d)
    ensures Enc(v, d) == Enc(w, d)
    decreases v, 0
  {
    assert |FieldMeanings(v.fields, d)| == |FieldMeanings(w.fields, d)|;
    forall i | 0 <= i < |v.fields|
      ensures v.fields[i].name == w.fields[i].name && Enc(v.fields[i].val, d + 1) == Enc(w.fields[i].val, d + 1)
    {
      StructMeans(v.fields, w.fields, d, i);
      MeaningDeterminesBytes(v.fields[i].val, w.fields[i].val, d + 1);
    }
    FieldsEncode(v.fields, w.fields, d);
  }

  lemma {:induction false} ListBytes(v: Val, w: Val, d: nat)
    requires d <= MAX_DEPTH && v.VList? && w.VList? && Meaning(v, d) == Meaning(w, d)
    ensures Enc(v, d) == Enc(w, d)
    decreases v, 0
  {
    ListMeans(v.es, w.es, d);
    forall i | 0 <= i < |v.es|
      ensures Enc(v.es[i], d + 1) == Enc(w.es[i], d + 1)
    {
      MeaningDeterminesBytes(v.es[i], w.es[i], d + 1);
    }
    ListEncodes(v.es, w.es, d);
  }

  lemma {:induction false} EntryBytes(kv: Entry, kw: Entry, d: nat)
    requires EntryMeaning(kv, d) == EntryMeaning(kw, d)
    ensures EncEntry(kv, d) == EncEntry(kw, d)
    decreases kv, 0
  {
    MeaningDeterminesBytes(kv.key, kw.key, d + 1);
    MeaningDeterminesBytes(kv.val, kw.val, d + 1);
  }

  lemma {:induction false} MapBytes(kvs: seq<Entry>, kws: seq<Entry>, d: nat, whole: Val)
    requires whole == VMap(kvs) && multiset(EntryMeanings(kvs, d)) == multiset(EntryMeanings(kws, d))
    ensures Sort(EncEntries(kvs, d)) == Sort(EncEntries(kws, d))
    decreases whole, 0
  {
    forall i, j | 0 <= i < |kvs| && 0 <= j < |kws| && EntryMeaning(kvs[i], d) == EntryMeaning(kws[j], d)
      ensures EncEntry(kvs[i], d) == EncEntry(kws[j], d)
    {
      EntryBytes(kvs[i], kws[j], d);
    }
    BagEncodes(kvs, kws, d);
  }

  lemma NothingFollows(a: Bytes)
    ensures a + "" == a
  {
  }

  lemma BytesDetermineMeaning(v: Val, w: Val, d: nat)
    requires Formed(v) && Formed(w) && Enc(v, d) == Enc(w, d)
    ensures Meaning(v, d) == Meaning(w, d)
  {
    NothingFollows(Enc(v, d));
    UniquelyDecodable(v, w, d, "", "");
  }

  /** The encoding is exact: two values have the same canonical bytes if and only if they mean
      the same - equal everywhere the walk reaches, maps as bags of entries, dynamic types by
      the name they print. */
  lemma EncodingIsExact(v: Val, w: Val)
    requires Formed(v) && Formed(w)
    ensures Enc(v, 0) == Enc(w, 0) <==> Meaning(v, 0) == Meaning(w, 0)
  {
    if Enc(v, 0) == Enc(w, 0) {
      BytesDetermineMeaning(v, w, 0);
    } else if Meaning(v, 0) == Meaning(w, 0) {
      MeaningDeterminesBytes(v, w, 0);
    }
  }
}
