/** When the canonical encoding identifies a value: the depth bound, and what the names that
    dynamic types print can and cannot tell apart. */
module CanonicalTypes {
  import opened Decimal
  import opened Canonical
  import opened CanonicalLaws

  /** A value with nothing cut off. In full, numbers are of their kind and a dynamic type is
      itself; otherwise both are as an encoding shows them. */
  function Whole(v: Val, full: bool): Mean
    decreases v, 1
  {
    match v
    case VInt(i) => if full then MInt(i) else MToken(TokenText(v))
    case VFloat(t) => if full then MFloat(t) else MToken(TokenText(v))
    case VComplex(re, im) => if full then MComplex(re, im) else MToken(TokenText(v))
    case VStr(s) => MText(s)
    case VSecret(s) => MText(s)
    case VBytes(s) => MBytes(s)
    case VPtr(p) => MPtr(Whole(p, full))
    case VIface(dyn, p) => MIface(if full then dyn else Shown(dyn), Whole(p, full))
    case VStruct(fs) => MStruct(WholeFields(fs, full))
    case VList(es) => MList(WholeList(es, full))
    case VMap(kvs) => MMap(multiset(WholeEntries(kvs, full)))
    case _ => MToken(TokenText(v))
  }

  function WholeFields(fs: seq<Field>, full: bool): (r: seq<(string, Mean)>)
    ensures |r| == |fs| && forall i :: 0 <= i < |fs| ==> r[i] == (fs[i].name, Whole(fs[i].val, full))
    decreases fs, 0
  {
    if fs == [] then [] else [(fs[0].name, Whole(fs[0].val, full))] + WholeFields(fs[1..], full)
  }

  function WholeList(es: seq<Val>, full: bool): (r: seq<Mean>)
    ensures |r| == |es| && forall i :: 0 <= i < |es| ==> r[i] == Whole(es[i], full)
    decreases es, 0
  {
    if es == [] then [] else [Whole(es[0], full)] + WholeList(es[1..], full)
  }

  function WholeEntry(kv: Entry, full: bool): (Mean, Mean)
    decreases kv, 0
  {
    (Whole(kv.key, full), Whole(kv.val, full))
  }

  function WholeEntries(kvs: seq<Entry>, full: bool): (r: seq<(Mean, Mean)>)
    ensures |r| == |kvs| && forall i :: 0 <= i < |kvs| ==> r[i] == WholeEntry(kvs[i], full)
    decreases kvs, 0
  {
    if kvs == [] then [] else [WholeEntry(kvs[0], full)] + WholeEntries(kvs[1..], full)
  }

  /** `v` nests no deeper than `room` levels below where it starts. */
  predicate Fits(v: Val, room: nat)
    decreases v, 1
  {
    match v
    case VPtr(p) => room > 0 && Fits(p, room - 1)
    case VIface(_, p) => room > 0 && Fits(p, room - 1)
    case VStruct(fs) => fs == [] || (room > 0 && forall i :: 0 <= i < |fs| ==> Fits(fs[i].val, room - 1))
    case VList(es) => es == [] || (room > 0 && forall i :: 0 <= i < |es| ==> Fits(es[i], room - 1))
    case VMap(kvs) => kvs == [] || (room > 0 && forall i :: 0 <= i < |kvs| ==> Fits(kvs[i].key, room - 1) && Fits(kvs[i].val, room - 1))
    case _ => true
  }

  /** Within the bound nothing is cut. */
  lemma {:induction false} NothingCut(v: Val, d: nat)
    requires d <= MAX_DEPTH && Fits(v, MAX_DEPTH - d)
    ensures Meaning(v, d) == Whole(v, false)
    decreases v, 1
  {
    match v
    case VPtr(p) => PtrNotCut(p, d);
    case VIface(dyn, p) => IfaceNotCut(dyn, p, d);
    case VStruct(fs) => FieldsNotCut(fs, d);
    case VList(es) => ListNotCut(es, d);
    case VMap(kvs) => EntriesNotCut(kvs, d);
    case _ => LeafNotCut(v, d);
  }

  lemma LeafNotCut(v: Val, d: nat)
    requires d <= MAX_DEPTH && (Token(v) || v.VStr? || v.VSecret? || v.VBytes?)
    ensures Meaning(v, d) == Whole(v, false)
  {
  }

  lemma {:induction false} PtrNotCut(p: Val, d: nat)
    requires d < MAX_DEPTH && Fits(p, MAX_DEPTH - d - 1)
    ensures Meaning(VPtr(p), d) == Whole(VPtr(p), false)
    decreases p, 2
  {
    NothingCut(p, d + 1);
  }

  lemma {:induction false} IfaceNotCut(dyn: Dyn, p: Val, d: nat)
    requires d < MAX_DEPTH && Fits(p, MAX_DEPTH - d - 1)
    ensures Meaning(VIface(dyn, p), d) == Whole(VIface(dyn, p), false)
    decreases p, 2
  {
    NothingCut(p, d + 1);
  }

  lemma {:induction false} FieldsNotCut(fs: seq<Field>, d: nat)
    requires d <= MAX_DEPTH
    requires forall i :: 0 <= i < |fs| ==> d < MAX_DEPTH && Fits(fs[i].val, MAX_DEPTH - d - 1)
    ensures FieldMeanings(fs, d) == WholeFields(fs, false)
    decreases fs, 0
  {
    if fs != [] {
      NothingCut(fs[0].val, d + 1);
      FieldsNotCut(fs[1..], d);
    }
  }

  lemma {:induction false} ListNotCut(es: seq<Val>, d: nat)
    requires d <= MAX_DEPTH
    requires forall i :: 0 <= i < |es| ==> d < MAX_DEPTH && Fits(es[i], MAX_DEPTH - d - 1)
    ensures ListMeanings(es, d) == WholeList(es, false)
    decreases es, 0
  {
    if es != [] {
      NothingCut(es[0], d + 1);
      ListNotCut(es[1..], d);
    }
  }

  lemma {:induction false} EntriesNotCut(kvs: seq<Entry>, d: nat)
    requires d <= MAX_DEPTH
    requires forall i :: 0 <= i < |kvs| ==> d < MAX_DEPTH && Fits(kvs[i].key, MAX_DEPTH - d - 1) && Fits(kvs[i].val, MAX_DEPTH - d - 1)
    ensures EntryMeanings(kvs, d) == WholeEntries(kvs, false)
    decreases kvs, 0
  {
    if kvs != [] {
      EntryNotCut(kvs[0], d);
      EntriesNotCut(kvs[1..], d);
    }
  }

  lemma {:induction false} EntryNotCut(kv: Entry, d: nat)
    requires d < MAX_DEPTH && Fits(kv.key, MAX_DEPTH - d - 1) && Fits(kv.val, MAX_DEPTH - d - 1)
    ensures EntryMeaning(kv, d) == WholeEntry(kv, false)
    decreases kv, 0
  {
    NothingCut(kv.key, d + 1);
    NothingCut(kv.val, d + 1);
  }

  /** Within the depth bound: same bytes if and only if equal as an encoding shows them. */
  lemma ShownWithinBound(v: Val, w: Val)
    requires Formed(v) && Formed(w) && Fits(v, MAX_DEPTH) && Fits(w, MAX_DEPTH)
    ensures Enc(v, 0) == Enc(w, 0) <==> Whole(v, false) == Whole(w, false)
  {
    EncodingIsExact(v, w);
    SameMeaningIffSameWhole(v, w);
  }

  lemma SameMeaningIffSameWhole(v: Val, w: Val)
    requires Fits(v, MAX_DEPTH) && Fits(w, MAX_DEPTH)
    ensures Meaning(v, 0) == Meaning(w, 0) <==> Whole(v, false) == Whole(w, false)
  {
    NothingCut(v, 0);
    NothingCut(w, 0);
  }

  // ---------------------------------------------------------------- printed names

  /** Values of two declared types that an encoding shows alike. */
  ghost predicate Confused(env: Env, d: Dyn, p: Val, e: Dyn, q: Val) {
    && d in env && e in env && d.printed == e.printed && d != e
    && HasType(env, env[d], p) && HasType(env, env[e], q) && Formed(p) && Formed(q)
    && Fits(p, MAX_DEPTH - 1) && Fits(q, MAX_DEPTH - 1) && Whole(p, false) == Whole(q, false)
  }

  ghost predicate NoConfusion(env: Env) {
    forall d, p, e, q :: !Confused(env, d, p, e, q)
  }

  ghost predicate PrintDifferently(dyns: set<Dyn>) {
    forall d, e :: d in dyns && e in dyns && d.printed == e.printed ==> d == e
  }

  lemma {:induction false} FitsMore(v: Val, small: nat, big: nat)
    requires Fits(v, small) && small <= big
    ensures Fits(v, big)
    decreases v
  {
    match v
    case VPtr(p) => FitsMore(p, small - 1, big - 1);
    case VIface(_, p) => FitsMore(p, small - 1, big - 1);
    case VStruct(fs) =>
      forall i | 0 <= i < |fs|
        ensures Fits(fs[i].val, big - 1)
      {
        FitsMore(fs[i].val, small - 1, big - 1);
      }
    case VList(es) =>
      forall i | 0 <= i < |es|
        ensures Fits(es[i], big - 1)
      {
        FitsMore(es[i], small - 1, big - 1);
      }
    case VMap(kvs) =>
      forall i | 0 <= i < |kvs|
        ensures Fits(kvs[i].key, big - 1) && Fits(kvs[i].val, big - 1)
      {
        FitsMore(kvs[i].key, small - 1, big - 1);
        FitsMore(kvs[i].val, small - 1, big - 1);
      }
    case _ =>
  }

  /** A plus sign that ends the real part is the first one not opening an exponent. */
  lemma ComplexSplit(re: Bytes, im: Bytes, re': Bytes, im': Bytes)
    requires FloatText(re) && FloatText(im) && FloatText(re') && FloatText(im') && re + "+" + im == re' + "+" + im'
    ensures re == re' && im == im'
  {
    NoShorterReal(re, im, re', im');
    NoShorterReal(re', im', re, im);
    SameSplit(re + "+", im, re' + "+", im');
    SameSplit(re, "+", re', "+");
  }

  lemma NoShorterReal(re: Bytes, im: Bytes, re': Bytes, im': Bytes)
    requires FloatText(re) && FloatText(re') && re + "+" + im == re' + "+" + im'
    ensures |re| >= |re'|
  {
    if |re| < |re'| {
      PlusInside(re, im, re', im');
    }
  }

  lemma PlusInside(a: Bytes, x: Bytes, b: Bytes, y: Bytes)
    requires 0 < |a| < |b| && a + "+" + x == b + "+" + y
    ensures b[|a|] == '+' && b[|a| - 1] == a[|a| - 1]
  {
    var s, t := a + "+" + x, b + "+" + y;
    assert s[|a|] == '+' && t[|a|] == b[|a|];
    assert s[|a| - 1] == a[|a| - 1] && t[|a| - 1] == b[|a| - 1];
  }

  /** Bare words of one type are equal in full exactly when they read alike. */
  lemma TokensAgree(env: Env, t: Ty, v: Val, w: Val)
    requires HasType(env, t, v) && HasType(env, t, w) && Formed(v) && Formed(w) && Token(v) && Token(w)
    ensures Whole(v, false) == Whole(w, false) <==> Whole(v, true) == Whole(w, true)
  {
    if v.VInt? && w.VInt? {
      if IntStr(v.i) == IntStr(w.i) {
        IntSplit(v.i, "", w.i, "");
      }
    } else if v.VComplex? && w.VComplex? {
      if TokenText(v) == TokenText(w) {
        ComplexSplit(v.re, v.im, w.re, w.im);
      }
    }
  }

  /** A value that fits, of type `t`, and written as values are. */
  predicate Ok(env: Env, t: Ty, v: Val, room: nat) {
    HasType(env, t, v) && Formed(v) && Fits(v, room)
  }

  function Below(room: nat): nat {
    if room > 0 then room - 1 else 0
  }

  /** Where no declared types are confused, values of one type that are shown alike are equal. */
  lemma {:induction false} ShownAlikeIsEqual(env: Env, t: Ty, v: Val, w: Val, room: nat)
    requires NoConfusion(env) && Ok(env, t, v, room) && Ok(env, t, w, room) && room <= MAX_DEPTH
    requires Whole(v, false) == Whole(w, false)
    ensures Whole(v, true) == Whole(w, true)
    decreases v, 1
  {
    if Token(v) && Token(w) {
      TokensAgree(env, t, v, w);
    } else if v.VPtr? {
      ShownAlikeIsEqual(env, Under(env, t).elem, v.p, w.p, room - 1);
    } else if v.VIface? {
      IfaceAlike(env, t, v, w, room);
    } else if v.VStruct? {
      StructParts(env, t, v, room);
      StructParts(env, t, w, room);
      StructAlike(env, Under(env, t).fields, v.fields, w.fields, Below(room), v);
    } else if v.VList? {
      ListParts(env, t, v, room);
      ListParts(env, t, w, room);
      ListAlike(env, Under(env, t).elem, v.es, w.es, Below(room), v);
    } else if v.VMap? {
      MapParts(env, t, v, room);
      MapParts(env, t, w, room);
      BagAlike(env, Under(env, t).key, Under(env, t).val, v.kvs, w.kvs, Below(room), v);
    }
  }

  lemma {:induction false} IfaceAlike(env: Env, t: Ty, v: Val, w: Val, room: nat)
    requires NoConfusion(env) && Ok(env, t, v, room) && Ok(env, t, w, room) && room <= MAX_DEPTH
    requires v.VIface? && w.VIface? && Whole(v, false) == Whole(w, false)
    ensures Whole(v, true) == Whole(w, true)
    decreases v, 0
  {
    FitsMore(v.p, room - 1, MAX_DEPTH - 1);
    FitsMore(w.p, room - 1, MAX_DEPTH - 1);
    assert !Confused(env, v.dyn, v.p, w.dyn, w.p);
    ShownAlikeIsEqual(env, env[v.dyn], v.p, w.p, room - 1);
  }

  predicate FieldsOk(env: Env, ts: seq<FieldTy>, fs: seq<Field>, room: nat) {
    |ts| == |fs| && forall i :: 0 <= i < |fs| ==> Ok(env, ts[i].ty, fs[i].val, room)
  }

  lemma StructParts(env: Env, t: Ty, v: Val, room: nat)
    requires Ok(env, t, v, room) && v.VStruct?
    ensures Under(env, t).TStruct? && FieldsOk(env, Under(env, t).fields, v.fields, Below(room))
  {
  }

  lemma {:induction false} StructAlike(env: Env, ts: seq<FieldTy>, fs: seq<Field>, gs: seq<Field>, room: nat, whole: Val)
    requires whole == VStruct(fs) && NoConfusion(env) && FieldsOk(env, ts, fs, room) && FieldsOk(env, ts, gs, room) && room <= MAX_DEPTH
    requires WholeFields(fs, false) == WholeFields(gs, false)
    ensures WholeFields(fs, true) == WholeFields(gs, true)
    decreases whole, 0
  {
    forall i | 0 <= i < |fs|
      ensures WholeFields(fs, true)[i] == WholeFields(gs, true)[i]
    {
      assert WholeFields(fs, false)[i] == WholeFields(gs, false)[i];
      ShownAlikeIsEqual(env, ts[i].ty, fs[i].val, gs[i].val, room);
    }
  }

  predicate ElemsOk(env: Env, e: Ty, es: seq<Val>, room: nat) {
    forall i :: 0 <= i < |es| ==> Ok(env, e, es[i], room)
  }

  lemma ListParts(env: Env, t: Ty, v: Val, room: nat)
    requires Ok(env, t, v, room) && v.VList?
    ensures (Under(env, t).TSlice? || Under(env, t).TArray?) && ElemsOk(env, Under(env, t).elem, v.es, Below(room))
  {
  }

  lemma {:induction false} ListAlike(env: Env, e: Ty, es: seq<Val>, fs: seq<Val>, room: nat, whole: Val)
    requires whole == VList(es) && NoConfusion(env) && ElemsOk(env, e, es, room) && ElemsOk(env, e, fs, room) && room <= MAX_DEPTH
    requires WholeList(es, false) == WholeList(fs, false)
    ensures WholeList(es, true) == WholeList(fs, true)
    decreases whole, 0
  {
    assert |WholeList(es, false)| == |WholeList(fs, false)|;
    forall i | 0 <= i < |es|
      ensures WholeList(es, true)[i] == WholeList(fs, true)[i]
    {
      assert WholeList(es, false)[i] == WholeList(fs, false)[i];
      ShownAlikeIsEqual(env, e, es[i], fs[i], room);
    }
  }

  predicate EntriesOk(env: Env, k: Ty, e: Ty, kvs: seq<Entry>, room: nat) {
    forall i :: 0 <= i < |kvs| ==> EntryOk(env, k, e, kvs[i], room)
  }

  lemma MapParts(env: Env, t: Ty, v: Val, room: nat)
    requires Ok(env, t, v, room) && v.VMap?
    ensures Under(env, t).TMap? && EntriesOk(env, Under(env, t).key, Under(env, t).val, v.kvs, Below(room))
  {
    forall i | 0 <= i < |v.kvs|
      ensures EntryOk(env, Under(env, t).key, Under(env, t).val, v.kvs[i], Below(room))
    {
      MapPart(env, t, v, room, i);
    }
  }

  lemma {:induction false} BagAlike(env: Env, k: Ty, e: Ty, kvs: seq<Entry>, kws: seq<Entry>, room: nat, whole: Val)
    requires whole == VMap(kvs) && NoConfusion(env) && EntriesOk(env, k, e, kvs, room) && EntriesOk(env, k, e, kws, room) && room <= MAX_DEPTH
    requires multiset(WholeEntries(kvs, false)) == multiset(WholeEntries(kws, false))
    ensures multiset(WholeEntries(kvs, true)) == multiset(WholeEntries(kws, true))
    decreases whole, 0
  {
    forall i, j | 0 <= i < |kvs| && 0 <= j < |kws| && WholeEntries(kvs, false)[i] == WholeEntries(kws, false)[j]
      ensures WholeEntries(kvs, true)[i] == WholeEntries(kws, true)[j]
    {
      EntryAlike(env, k, e, kvs[i], kws[j], room);
    }
    BagTransfer(WholeEntries(kvs, false), WholeEntries(kws, false), WholeEntries(kvs, true), WholeEntries(kws, true));
  }

  predicate EntryOk(env: Env, k: Ty, e: Ty, kv: Entry, room: nat) {
    Ok(env, k, kv.key, room) && Ok(env, e, kv.val, room)
  }

  lemma MapPart(env: Env, t: Ty, v: Val, room: nat, i: nat)
    requires Ok(env, t, v, room) && v.VMap? && i < |v.kvs|
    ensures Under(env, t).TMap? && room > 0 && EntryOk(env, Under(env, t).key, Under(env, t).val, v.kvs[i], room - 1)
  {
  }

  lemma {:induction false} EntryAlike(env: Env, k: Ty, e: Ty, kv: Entry, kw: Entry, room: nat)
    requires NoConfusion(env) && EntryOk(env, k, e, kv, room) && EntryOk(env, k, e, kw, room) && room <= MAX_DEPTH
    requires WholeEntry(kv, false) == WholeEntry(kw, false)
    ensures WholeEntry(kv, true) == WholeEntry(kw, true)
    decreases kv, 0
  {
    ShownAlikeIsEqual(env, k, kv.key, kw.key, room);
    ShownAlikeIsEqual(env, e, kv.val, kw.val, room);
  }

  /** Equal values are always shown alike. */
  lemma {:induction false} EqualIsShownAlike(v: Val, w: Val)
    requires Whole(v, true) == Whole(w, true)
    ensures Whole(v, false) == Whole(w, false)
    decreases v, 1
  {
    if v.VPtr? || v.VIface? {
      EqualInsideShownAlike(v, w);
    } else if v.VStruct? {
      AsComposite(v);
      AsComposite(w);
      EqualFieldsShownAlike(v.fields, w.fields, v);
    } else if v.VList? {
      AsComposite(v);
      AsComposite(w);
      EqualListsShownAlike(v.es, w.es, v);
    } else if v.VMap? {
      AsComposite(v);
      AsComposite(w);
      EqualBagsShownAlike(v.kvs, w.kvs, v);
    } else {
      EqualLeavesShownAlike(v, w);
    }
  }

  lemma AsComposite(v: Val)
    ensures forall full :: v.VStruct? ==> Whole(v, full) == MStruct(WholeFields(v.fields, full))
    ensures forall full :: v.VList? ==> Whole(v, full) == MList(WholeList(v.es, full))
    ensures forall full :: v.VMap? ==> Whole(v, full) == MMap(multiset(WholeEntries(v.kvs, full)))
  {
  }

  lemma EqualLeavesShownAlike(v: Val, w: Val)
    requires (Token(v) || v.VStr? || v.VSecret? || v.VBytes?) && Whole(v, true) == Whole(w, true)
    ensures Whole(v, false) == Whole(w, false)
  {
  }

  lemma {:induction false} EqualInsideShownAlike(v: Val, w: Val)
    requires (v.VPtr? && w.VPtr?) || (v.VIface? && w.VIface? && v.dyn == w.dyn)
    requires Whole(v.p, true) == Whole(w.p, true)
    ensures Whole(v, false) == Whole(w, false)
    decreases v, 0
  {
    EqualIsShownAlike(v.p, w.p);
  }

  lemma {:induction false} EqualFieldsShownAlike(fs: seq<Field>, gs: seq<Field>, whole: Val)
    requires whole == VStruct(fs) && WholeFields(fs, true) == WholeFields(gs, true)
    ensures WholeFields(fs, false) == WholeFields(gs, false)
    decreases whole, 0
  {
    assert |WholeFields(fs, true)| == |WholeFields(gs, true)|;
    forall i | 0 <= i < |fs|
      ensures WholeFields(fs, false)[i] == WholeFields(gs, false)[i]
    {
      assert WholeFields(fs, true)[i] == WholeFields(gs, true)[i];
      EqualIsShownAlike(fs[i].val, gs[i].val);
    }
  }

  lemma {:induction false} EqualListsShownAlike(es: seq<Val>, fs: seq<Val>, whole: Val)
    requires whole == VList(es) && WholeList(es, true) == WholeList(fs, true)
    ensures WholeList(es, false) == WholeList(fs, false)
    decreases whole, 0
  {
    assert |WholeList(es, true)| == |WholeList(fs, true)|;
    forall i | 0 <= i < |es|
      ensures WholeList(es, false)[i] == WholeList(fs, false)[i]
    {
      assert WholeList(es, true)[i] == WholeList(fs, true)[i];
      EqualIsShownAlike(es[i], fs[i]);
    }
  }

  lemma {:induction false} EqualBagsShownAlike(kvs: seq<Entry>, kws: seq<Entry>, whole: Val)
    requires whole == VMap(kvs) && multiset(WholeEntries(kvs, true)) == multiset(WholeEntries(kws, true))
    ensures multiset(WholeEntries(kvs, false)) == multiset(WholeEntries(kws, false))
    decreases whole, 0
  {
    forall i, j | 0 <= i < |kvs| && 0 <= j < |kws| && WholeEntries(kvs, true)[i] == WholeEntries(kws, true)[j]
      ensures WholeEntries(kvs, false)[i] == WholeEntries(kws, false)[j]
    {
      EqualIsShownAlike(kvs[i].key, kws[j].key);
      EqualIsShownAlike(kvs[i].val, kws[j].val);
    }
    BagTransfer(WholeEntries(kvs, true), WholeEntries(kws, true), WholeEntries(kvs, false), WholeEntries(kws, false));
  }

  // ---------------------------------------------------------------- injectivity

  /** Within the bound, the bytes of values of one type identify them: integers, booleans,
      strings, byte slices, pointers, interfaces, structs, lists, maps as bags, floats up to the
      payload of a NaN, secrets up to nil against empty, channels and functions by kind only. */
  ghost predicate Identifies(v: Val, w: Val) {
    Enc(v, 0) == Enc(w, 0) <==> Whole(v, true) == Whole(w, true)
  }

  ghost predicate Injective(env: Env) {
    forall t, v, w :: Ok(env, t, v, MAX_DEPTH) && Ok(env, t, w, MAX_DEPTH) ==> Identifies(v, w)
  }

  lemma InjectiveWithinBound(env: Env, t: Ty, v: Val, w: Val)
    requires NoConfusion(env) && Ok(env, t, v, MAX_DEPTH) && Ok(env, t, w, MAX_DEPTH)
    ensures Identifies(v, w)
  {
    ShownWithinBound(v, w);
    if Whole(v, false) == Whole(w, false) {
      ShownAlikeIsEqual(env, t, v, w, MAX_DEPTH);
    }
    if Whole(v, true) == Whole(w, true) {
      EqualIsShownAlike(v, w);
    }
  }

  /** Two types that print alike: an interface holding a value of the one and an interface
      holding a value of the other that reads the same have the same bytes, and are different
      values. */
  lemma SameNameCollides(env: Env, d: Dyn, p: Val, e: Dyn, q: Val)
    requires Confused(env, d, p, e, q)
    ensures Ok(env, TIface, VIface(d, p), MAX_DEPTH) && Ok(env, TIface, VIface(e, q), MAX_DEPTH)
    ensures Enc(VIface(d, p), 0) == Enc(VIface(e, q), 0) && Whole(VIface(d, p), true) != Whole(VIface(e, q), true)
  {
    Boxed(env, d, p);
    Boxed(env, e, q);
    AsShown(d, p);
    AsShown(e, q);
    ShownWithinBound(VIface(d, p), VIface(e, q));
  }

  lemma Boxed(env: Env, d: Dyn, p: Val)
    requires d in env && Ok(env, env[d], p, MAX_DEPTH - 1)
    ensures Ok(env, TIface, VIface(d, p), MAX_DEPTH)
  {
  }

  lemma AsShown(d: Dyn, p: Val)
    ensures Whole(VIface(d, p), false) == MIface(Shown(d), Whole(p, false))
    ensures Whole(VIface(d, p), true) == MIface(d, Whole(p, true))
  {
  }

  /** For given declarations the exact condition: the encoding is injective within the bound
      if and only if no two types that print alike have values that read alike. */
  lemma InjectiveIffNoConfusion(env: Env)
    ensures Injective(env) <==> NoConfusion(env)
  {
    if NoConfusion(env) {
      forall t, v, w | Ok(env, t, v, MAX_DEPTH) && Ok(env, t, w, MAX_DEPTH)
        ensures Identifies(v, w)
      {
        InjectiveWithinBound(env, t, v, w);
      }
    } else {
      var d, p, e, q :| Confused(env, d, p, e, q);
      SameNameCollides(env, d, p, e, q);
      assert !Identifies(VIface(d, p), VIface(e, q));
    }
  }

  /** Whatever the declared types are: the encoding is injective within the bound, however they
      are declared, if and only if the types an interface may hold print differently. */
  lemma InjectiveIffPrintedDifferently(dyns: set<Dyn>)
    ensures (forall env: Env :: env.Keys == dyns ==> Injective(env)) <==> PrintDifferently(dyns)
  {
    if PrintDifferently(dyns) {
      forall env: Env | env.Keys == dyns
        ensures Injective(env)
      {
        InjectiveIffNoConfusion(env);
      }
    } else {
      var d, e :| d in dyns && e in dyns && d.printed == e.printed && d != e;
      var env: Env := map t | t in dyns :: TInt;
      assert env.Keys == dyns;
      assert Confused(env, d, VInt(1), e, VInt(1));
      InjectiveIffNoConfusion(env);
    }
  }

  /** The usual way to get there: two versions of a package, each declaring the same struct. */
  lemma TwoVersionsCollide()
    ensures var a, b := Dyn("a/v1", "v1.T"), Dyn("b/v1", "v1.T");
            var one := VStruct([Field("X", VInt(1))]);
            && Enc(VIface(a, one), 0) == Enc(VIface(b, one), 0)
            && Whole(VIface(a, one), true) != Whole(VIface(b, one), true)
  {
    assert "a/v1"[0] != "b/v1"[0];
  }

  // ---------------------------------------------------------------- one level too deep

  function Nest(n: nat, v: Val): Val {
    if n == 0 then v else VPtr(Nest(n - 1, v))
  }

  lemma {:induction false} NestedBytes(n: nat, v: Val, w: Val, d: nat)
    requires d + n > MAX_DEPTH
    ensures Enc(Nest(n, v), d) == Enc(Nest(n, w), d)
    decreases n
  {
    if n > 0 {
      NestedBytes(n - 1, v, w, d + 1);
    }
  }

  /** The bound is sharp: one level further down, any two values are encoded alike. */
  lemma BeyondBoundCollides(v: Val, w: Val)
    ensures Enc(Nest(MAX_DEPTH + 1, v), 0) == Enc(Nest(MAX_DEPTH + 1, w), 0)
  {
    NestedBytes(MAX_DEPTH + 1, v, w, 0);
  }

  // ---------------------------------------------------------------- the unframed top level

  /** `canonicalBytes`: a top-level secret, string or non-nil byte slice is its own bytes; a byte
      array is framed like everything else. */
  function CanonicalBytes(env: Env, t: Ty, v: Val): Bytes {
    match v
    case VStr(s) => s
    case VSecret(s) => s
    case VBytes(s) => if Under(env, t).TByteArray? then Enc(v, 0) else s
    case _ => Enc(v, 0)
  }

  /** Leaving out the framing costs exactly one collision: among top-level byte slices, the
      nil slice and the three bytes "nil". */
  lemma TopLevelCollision(env: Env, t: Ty, v: Val, w: Val)
    requires Under(env, t).TBytes? && HasType(env, t, v) && HasType(env, t, w)
    ensures CanonicalBytes(env, t, v) == CanonicalBytes(env, t, w)
            <==> v == w || (v == VNil && w == VBytes("nil")) || (v == VBytes("nil") && w == VNil)
  {
    assert Enc(VNil, 0) == "nil";
  }
}
