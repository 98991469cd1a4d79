/** Selecting from a JSON document by JSON Pointer (sections 3 and 4 of RFC 6901). Parsing one
    level of a document is taken as given: a node is what its text turns out to hold. */
module Pointer {
  import opened Values
  import opened Decimal

  /** `raw` is a node's own text, kept byte for byte. A node that opens like a container and
      does not parse as one is `Broken`; a scalar, or text that is not JSON at all, is `Other`. */
  datatype Node =
    | Object(raw: string, members: map<string, Node>)
    | Array(raw: string, elems: seq<Node>)
    | Text(raw: string, contents: string)
    | Null(raw: string)
    | Broken(raw: string)
    | Other(raw: string)

  const MAX_INT: int := 0x7FFF_FFFF_FFFF_FFFF

  /** A string gives its contents, null nothing, anything else its own text. */
  function Unquoted(n: Node): string {
    match n
    case Text(_, contents) => contents
    case Null(_) => ""
    case _ => n.raw
  }

  // ---------------------------------------------------------------- escaping

  function Escape(t: string): string {
    if t == "" then ""
    else (if t[0] == '~' then "~0" else if t[0] == '/' then "~1" else [t[0]]) + Escape(t[1..])
  }

  function Unescape(t: string): Result<string> {
    if t == "" then Ok("")
    else if t[0] != '~' then
      var r := Unescape(t[1..]);
      if r.Ok? then Ok([t[0]] + r.value) else r
    else if |t| > 1 && (t[1] == '0' || t[1] == '1') then
      var r := Unescape(t[2..]);
      if r.Ok? then Ok([if t[1] == '0' then '~' else '/'] + r.value) else r
    else Bad(ErrInvalid)
  }

  predicate SlashFree(t: string) {
    forall i :: 0 <= i < |t| ==> t[i] != '/'
  }

  lemma {:induction false} EscapeIsSlashFree(t: string)
    ensures SlashFree(Escape(t))
  {
    if t != "" {
      EscapeIsSlashFree(t[1..]);
    }
  }

  /** Escaping works character by character, ... */
  lemma {:induction false} EscapeConcat(a: string, b: string)
    ensures Escape(a + b) == Escape(a) + Escape(b)
  {
    if a == "" {
      assert a + b == b;
    } else {
      assert (a + b)[0] == a[0] && (a + b)[1..] == a[1..] + b;
      EscapeConcat(a[1..], b);
    }
  }

  /** ... a tilde, a slash, and everything else as it is. */
  lemma {:induction false} EscapeMeans(t: string)
    ensures Escape("~") == "~0" && Escape("/") == "~1"
    ensures '~' !in t && '/' !in t ==> Escape(t) == t
  {
    assert "~"[1..] == "" && "/"[1..] == "";
    if t != "" {
      EscapeMeans(t[1..]);
      assert t == [t[0]] + t[1..];
    }
  }

  /** A tilde at `i` opens one of the two escapes. */
  predicate Escapes(t: string, i: nat)
    requires i < |t|
  {
    t[i] == '~' ==> i + 1 < |t| && (t[i + 1] == '0' || t[i + 1] == '1')
  }

  /** A token unescapes exactly if every tilde in it opens an escape. */
  lemma {:induction false} UnescapesIff(t: string)
    ensures Unescape(t).Ok? <==> forall i :: 0 <= i < |t| ==> Escapes(t, i)
    decreases |t|
  {
    if t != "" {
      var n := if t[0] == '~' then 2 else 1;
      if Escapes(t, 0) {
        UnescapesIff(t[n..]);
        assert forall i :: n <= i < |t| ==> (Escapes(t, i) <==> Escapes(t[n..], i - n));
        assert forall i :: 0 <= i < |t| - n ==> (Escapes(t[n..], i) <==> Escapes(t, i + n));
        assert forall i :: 0 <= i < n ==> Escapes(t, i);
      }
    }
  }

  /** Unescaping undoes escaping ... */
  lemma {:induction false} UnescapeEscape(t: string)
    ensures Unescape(Escape(t)) == Ok(t)
  {
    if t != "" {
      UnescapeEscape(t[1..]);
      var rest := Escape(t[1..]);
      assert t == [t[0]] + t[1..];
      if t[0] == '~' {
        assert ("~0" + rest)[2..] == rest;
      } else if t[0] == '/' {
        assert ("~1" + rest)[2..] == rest;
      } else {
        assert ([t[0]] + rest)[1..] == rest;
      }
    }
  }

  /** ... and escaping undoes unescaping, on every reference token that unescapes at all. */
  lemma {:induction false} EscapeUnescape(t: string)
    requires SlashFree(t) && Unescape(t).Ok?
    ensures Escape(Unescape(t).value) == t
    decreases |t|
  {
    if t != "" {
      if t[0] != '~' {
        EscapeUnescape(t[1..]);
        var u := Unescape(t[1..]).value;
        assert ([t[0]] + u)[1..] == u;
        assert t == [t[0]] + t[1..];
      } else {
        EscapeUnescape(t[2..]);
        var u := Unescape(t[2..]).value;
        var c := if t[1] == '0' then '~' else '/';
        assert ([c] + u)[1..] == u;
        assert t == [t[0], t[1]] + t[2..];
      }
    }
  }

  lemma {:induction false} PlainUnescapesToItself(t: string)
    requires '~' !in t
    ensures Unescape(t) == Ok(t)
  {
    if t != "" {
      PlainUnescapesToItself(t[1..]);
      assert t == [t[0]] + t[1..];
    }
  }

  /** What the rest of a token adds to what has been written so far. */
  function After(done: string, rest: Result<string>): Result<string> {
    if rest.Ok? then Ok(done + rest.value) else rest
  }

  lemma AfterNothing(rest: Result<string>)
    ensures After("", rest) == rest
  {
    if rest.Ok? {
      assert "" + rest.value == rest.value;
    }
  }

  lemma AfterOne(done: string, c: char, rest: Result<string>)
    ensures After(done + [c], rest) == After(done, After([c], rest))
  {
    if rest.Ok? {
      assert (done + [c]) + rest.value == done + ([c] + rest.value);
    }
  }

  /** `unescapeToken`: one pass from left to right. */
  method UnescapeToken(tok: string) returns (r: Result<string>)
    ensures r == Unescape(tok)
  {
    if '~' !in tok {
      PlainUnescapesToItself(tok);
      return Ok(tok);
    }
    var b := "";
    var i := 0;
    AfterNothing(Unescape(tok));
    assert tok[0..] == tok;
    while i < |tok|
      invariant 0 <= i <= |tok|
      invariant After(b, Unescape(tok[i..])) == Unescape(tok)
    {
      assert tok[i..][1..] == tok[i + 1..];
      if tok[i] != '~' {
        AfterOne(b, tok[i], Unescape(tok[i + 1..]));
        b := b + [tok[i]];
        i := i + 1;
        continue;
      }
      if i + 1 >= |tok| {
        return Bad(ErrInvalid);
      }
      assert tok[i..][1] == tok[i + 1] && tok[i..][2..] == tok[i + 2..];
      if tok[i + 1] == '0' {
        AfterOne(b, '~', Unescape(tok[i + 2..]));
        b := b + "~";
      } else if tok[i + 1] == '1' {
        AfterOne(b, '/', Unescape(tok[i + 2..]));
        b := b + "/";
      } else {
        return Bad(ErrInvalid);
      }
      i := i + 2;
    }
    assert tok[|tok|..] == "" && b + "" == b;
    return Ok(b);
  }

  // ---------------------------------------------------------------- array indices

  /** The one index a token can stand for: the canonical numeral of a machine integer. */
  ghost predicate Names(tok: string, i: nat) {
    i <= MAX_INT && tok == NatStr(i)
  }

  lemma NamesOneIndex(tok: string, i: nat, j: nat)
    requires Names(tok, i) && Names(tok, j)
    ensures i == j
  {
    ValueOfNumeral(i);
    ValueOfNumeral(j);
  }

  /** `arrayIndex` accepts exactly the canonical numerals that fit an int: no sign, no leading
      zero, no "-", nothing empty, nothing too large. */
  method ArrayIndex(tok: string) returns (r: Result<nat>)
    ensures r.Ok? ==> Names(tok, r.value)
    ensures r.Bad? ==> r.err == ErrInvalid && forall i: nat :: !Names(tok, i)
  {
    if tok == "-" || tok == "" {
      return Bad(ErrInvalid);
    }
    var k := 0;
    while k < |tok|
      invariant 0 <= k <= |tok|
      invariant forall j :: 0 <= j < k ==> IsDigit(tok[j])
    {
      if tok[k] < '0' || tok[k] > '9' {
        return Bad(ErrInvalid);
      }
      k := k + 1;
    }
    if |tok| > 1 && tok[0] == '0' {
      return Bad(ErrInvalid);
    }
    NumeralOfValue(tok);
    var i := NatVal(tok);
    if i > MAX_INT {
      forall j: nat | Names(tok, j)
        ensures false
      {
        ValueOfNumeral(j);
      }
      return Bad(ErrInvalid);
    }
    return Ok(i);
  }

  // ---------------------------------------------------------------- structural lookup

  /** What the tokens address, with no pointer syntax in sight. */
  ghost function Lookup(n: Node, toks: seq<string>): Result<Node>
    decreases |toks|
  {
    if toks == [] then Ok(n)
    else
      var child := Child(n, toks[0]);
      if child.Bad? then child else Lookup(child.value, toks[1..])
  }

  /** Absent from a container is not-found; no such step from here is invalid. */
  ghost function Child(n: Node, tok: string): Result<Node> {
    match n
    case Object(_, members) => if tok in members then Ok(members[tok]) else Bad(ErrNotFound)
    case Array(_, elems) =>
      if i: nat :| Names(tok, i) then (if i < |elems| then Ok(elems[i]) else Bad(ErrNotFound))
      else Bad(ErrInvalid)
    case _ => Bad(ErrInvalid)
  }

  /** `tok` leads from `n` to `c`: a member's name, or an element's index. */
  ghost predicate Leads(n: Node, tok: string, c: Node) {
    || (n.Object? && tok in n.members && n.members[tok] == c)
    || (n.Array? && exists i: nat :: Names(tok, i) && i < |n.elems| && n.elems[i] == c)
  }

  lemma ChildLeads(n: Node, tok: string, c: Node)
    ensures Child(n, tok) == Ok(c) <==> Leads(n, tok, c)
  {
    if n.Array? {
      forall i: nat, j: nat | Names(tok, i) && Names(tok, j)
        ensures i == j
      {
        NamesOneIndex(tok, i, j);
      }
    }
  }

  /** `ns` goes from `n` to `c`, each token leading from one node to the next. */
  ghost predicate Trail(n: Node, toks: seq<string>, ns: seq<Node>, c: Node) {
    && |ns| == |toks| + 1 && ns[0] == n && ns[|toks|] == c
    && forall i :: 0 <= i < |toks| ==> Leads(ns[i], toks[i], ns[i + 1])
  }

  lemma {:induction false} TrailIsLookup(n: Node, toks: seq<string>, ns: seq<Node>, c: Node)
    requires Trail(n, toks, ns, c)
    ensures Lookup(n, toks) == Ok(c)
    decreases |toks|
  {
    if toks != [] {
      ChildLeads(n, toks[0], ns[1]);
      forall i | 0 <= i < |toks| - 1
        ensures Leads(ns[1..][i], toks[1..][i], ns[1..][i + 1])
      {
        assert Leads(ns[i + 1], toks[i + 1], ns[i + 1 + 1]);
      }
      TrailIsLookup(ns[1], toks[1..], ns[1..], c);
    }
  }

  lemma {:induction false} LookupLeavesTrail(n: Node, toks: seq<string>) returns (ns: seq<Node>)
    requires Lookup(n, toks).Ok?
    ensures Trail(n, toks, ns, Lookup(n, toks).value)
    decreases |toks|
  {
    if toks == [] {
      return [n];
    }
    var c := Child(n, toks[0]).value;
    ChildLeads(n, toks[0], c);
    var rest := LookupLeavesTrail(c, toks[1..]);
    ns := [n] + rest;
    forall i | 0 <= i < |toks|
      ensures Leads(ns[i], toks[i], ns[i + 1])
    {
      if i > 0 {
        assert Leads(rest[i - 1], toks[1..][i - 1], rest[i - 1 + 1]);
      }
    }
  }

  /** Structural lookup finds `c` exactly if the tokens lead from node to node and end at it. */
  lemma LookupMeans(n: Node, toks: seq<string>, c: Node)
    ensures Lookup(n, toks) == Ok(c) <==> exists ns :: Trail(n, toks, ns, c)
  {
    if Lookup(n, toks) == Ok(c) {
      var _ := LookupLeavesTrail(n, toks);
    }
    if ns :| Trail(n, toks, ns, c) {
      TrailIsLookup(n, toks, ns, c);
    }
  }

  /** `descend`: one token against one node. */
  method Descend(n: Node, tok: string) returns (r: Result<Node>)
    ensures r == Child(n, tok)
    ensures forall c :: r == Ok(c) <==> Leads(n, tok, c)
  {
    forall c ensures Child(n, tok) == Ok(c) <==> Leads(n, tok, c) {
      ChildLeads(n, tok, c);
    }
    match n
    case Object(_, members) =>
      if tok in members {
        return Ok(members[tok]);
      }
      return Bad(ErrNotFound);
    case Array(_, elems) =>
      var i := ArrayIndex(tok);
      if i.Bad? {
        return Bad(i.err);
      }
      assert forall j: nat :: Names(tok, j) ==> j == i.value by {
        forall j: nat | Names(tok, j)
          ensures j == i.value
        {
          NamesOneIndex(tok, j, i.value);
        }
      }
      if i.value >= |elems| {
        return Bad(ErrNotFound);
      }
      return Ok(elems[i.value]);
    case _ =>
      return Bad(ErrInvalid);
  }

  // ---------------------------------------------------------------- the pointer

  /** `strings.Split(s, "/")`. */
  function Split(s: string): (r: seq<string>)
    ensures r != []
  {
    if s == "" then [""]
    else
      var rest := Split(s[1..]);
      if s[0] == '/' then [""] + rest else [[s[0]] + rest[0]] + rest[1..]
  }

  function Join(toks: seq<string>): string {
    if toks == [] then "" else "/" + (toks[0] + Join(toks[1..]))
  }

  function Escaped(toks: seq<string>): (r: seq<string>)
    ensures |r| == |toks|
  {
    if toks == [] then [] else [Escape(toks[0])] + Escaped(toks[1..])
  }

  /** The pointer that spells out `toks`. */
  function Build(toks: seq<string>): string {
    Join(Escaped(toks))
  }

  ghost predicate AllSlashFree(toks: seq<string>) {
    forall i :: 0 <= i < |toks| ==> SlashFree(toks[i])
  }

  lemma {:induction false} SplitWord(w: string, s: string)
    requires SlashFree(w) && (s == "" || s[0] == '/')
    ensures Split(w + s) == [w] + Split(s)[1..]
  {
    if w == "" {
      assert w + s == s;
      assert s != "" ==> Split(s)[0] == "";
      assert [w] + Split(s)[1..] == Split(s);
    } else {
      SplitWord(w[1..], s);
      assert (w + s)[1..] == w[1..] + s && (w + s)[0] == w[0];
      assert w == [w[0]] + w[1..];
    }
  }

  lemma {:induction false} SplitJoin(toks: seq<string>)
    requires AllSlashFree(toks)
    ensures Split(Join(toks))[1..] == toks && (toks != [] ==> Split(Join(toks))[0] == "")
  {
    if toks != [] {
      var rest := Join(toks[1..]);
      SplitJoin(toks[1..]);
      SplitWord(toks[0], rest);
      assert ("/" + (toks[0] + rest))[1..] == toks[0] + rest;
      assert Split(Join(toks)) == [""] + Split(toks[0] + rest);
      assert toks == [toks[0]] + toks[1..];
    }
  }

  lemma Assoc(a: string, b: string, c: string)
    ensures (a + b) + c == a + (b + c)
  {
  }

  lemma {:induction false} SplitIsSlashFree(s: string)
    ensures AllSlashFree(Split(s))
  {
    if s != "" {
      SplitIsSlashFree(s[1..]);
    }
  }

  lemma {:induction false} JoinSplit(s: string)
    ensures Split(s)[0] + Join(Split(s)[1..]) == s
  {
    if s != "" {
      JoinSplit(s[1..]);
      var rest := Split(s[1..]);
      assert s == [s[0]] + s[1..];
      if s[0] == '/' {
        assert Split(s)[1..] == rest;
      } else {
        assert Split(s)[1..] == rest[1..];
        Assoc([s[0]], rest[0], Join(rest[1..]));
      }
    }
  }

  /** One reference token after another: unescape it, then take the step. */
  ghost function Walk(n: Node, raws: seq<string>): Result<Node>
    decreases |raws|
  {
    if raws == [] then Ok(n)
    else
      var tok := Unescape(raws[0]);
      if tok.Bad? then Bad(tok.err)
      else
        var child := Child(n, tok.value);
        if child.Bad? then child else Walk(child.value, raws[1..])
  }

  function Shown(r: Result<Node>): Result<string> {
    if r.Ok? then Ok(Unquoted(r.value)) else Bad(r.err)
  }

  /** A string yields its contents without the quotes, null yields nothing, and anything else its
      own bytes. */
  ghost predicate Yields(n: Node, s: string) {
    && (n.Text? ==> s == n.contents)
    && (n.Null? ==> s == "")
    && (!n.Text? && !n.Null? ==> s == n.raw)
  }

  /** `selectPointer`. */
  method SelectPointer(doc: Node, ptr: string) returns (r: Result<string>)
    requires ptr != "" && ptr[0] == '/'
    ensures r == Shown(Walk(doc, Split(ptr)[1..]))
    ensures r.Ok? ==> exists n :: Walk(doc, Split(ptr)[1..]) == Ok(n) && Yields(n, r.value)
  {
    var raws := Split(ptr)[1..];
    var cur := doc;
    var i := 0;
    assert raws[0..] == raws;
    while i < |raws|
      invariant 0 <= i <= |raws|
      invariant Walk(cur, raws[i..]) == Walk(doc, raws)
    {
      assert raws[i..][1..] == raws[i + 1..];
      var tok := UnescapeToken(raws[i]);
      if tok.Bad? {
        return Bad(tok.err);
      }
      var next := Descend(cur, tok.value);
      if next.Bad? {
        return Bad(next.err);
      }
      cur := next.value;
      i := i + 1;
    }
    return Ok(Unquoted(cur));
  }

  // ---------------------------------------------------------------- what it selects

  lemma {:induction false} EscapedTokens(toks: seq<string>)
    ensures AllSlashFree(Escaped(toks))
    ensures forall i :: 0 <= i < |toks| ==> Escaped(toks)[i] == Escape(toks[i])
  {
    if toks != [] {
      EscapedTokens(toks[1..]);
      EscapeIsSlashFree(toks[0]);
    }
  }

  lemma {:induction false} WalkEscaped(n: Node, toks: seq<string>)
    ensures Walk(n, Escaped(toks)) == Lookup(n, toks)
    decreases |toks|
  {
    if toks != [] {
      UnescapeEscape(toks[0]);
      assert Escaped(toks)[1..] == Escaped(toks[1..]);
      var child := Child(n, toks[0]);
      if child.Ok? {
        WalkEscaped(child.value, toks[1..]);
      }
    }
  }

  /** For every document and every non-empty token list: selecting by the pointer built from
      the tokens is structural lookup, the two failures kept apart. */
  lemma SelectIsLookup(doc: Node, toks: seq<string>)
    requires toks != []
    ensures Build(toks) != "" && Build(toks)[0] == '/'
    ensures Walk(doc, Split(Build(toks))[1..]) == Lookup(doc, toks)
  {
    EscapedTokens(toks);
    SplitJoin(Escaped(toks));
    WalkEscaped(doc, toks);
  }

  /** Where the first malformed token stands, or the number of tokens. */
  function Readable(raws: seq<string>): (k: nat)
    ensures k <= |raws|
    ensures forall i :: 0 <= i < k ==> Unescape(raws[i]).Ok?
    ensures k < |raws| ==> Unescape(raws[k]).Bad?
  {
    if raws == [] || Unescape(raws[0]).Bad? then 0 else 1 + Readable(raws[1..])
  }

  function Unescaped(raws: seq<string>): (toks: seq<string>)
    requires forall i :: 0 <= i < |raws| ==> Unescape(raws[i]).Ok?
    ensures |toks| == |raws|
  {
    seq(|raws|, i requires 0 <= i < |raws| => Unescape(raws[i]).value)
  }

  /** Every pointer whose tokens all unescape is the pointer built from them ... */
  lemma EveryPointerIsBuilt(ptr: string)
    requires ptr != "" && ptr[0] == '/'
    requires forall i :: 0 <= i < |Split(ptr)[1..]| ==> Unescape(Split(ptr)[1..][i]).Ok?
    ensures Build(Unescaped(Split(ptr)[1..])) == ptr
  {
    var raws := Split(ptr)[1..];
    var toks := Unescaped(raws);
    JoinSplit(ptr[1..]);
    SplitIsSlashFree(ptr[1..]);
    assert raws == Split(ptr[1..]);
    EscapedTokens(toks);
    forall i | 0 <= i < |raws|
      ensures Escaped(toks)[i] == raws[i]
    {
      EscapeUnescape(raws[i]);
    }
    assert Escaped(toks) == raws;
    assert ptr == "/" + ptr[1..];
  }

  /** ... and a malformed token counts only once every step before it has succeeded. */
  lemma {:induction false} MalformedToken(n: Node, raws: seq<string>)
    ensures var k := Readable(raws);
            var before := Lookup(n, Unescaped(raws[..k]));
            Walk(n, raws) == if before.Bad? || k == |raws| then before else Bad(ErrInvalid)
    decreases |raws|
  {
    var k := Readable(raws);
    if raws != [] && Unescape(raws[0]).Ok? {
      var toks := Unescaped(raws[..k]);
      assert toks[1..] == Unescaped(raws[1..][..k - 1]);
      var child := Child(n, Unescape(raws[0]).value);
      if child.Ok? {
        MalformedToken(child.value, raws[1..]);
      }
    } else {
      UnescapeFailsInvalid(if raws == [] then "" else raws[0]);
    }
  }

  lemma {:induction false} UnescapeFailsInvalid(t: string)
    ensures Unescape(t).Bad? ==> Unescape(t).err == ErrInvalid
    decreases |t|
  {
    if t != "" && t[0] != '~' {
      UnescapeFailsInvalid(t[1..]);
    } else if |t| > 1 && (t[1] == '0' || t[1] == '1') {
      UnescapeFailsInvalid(t[2..]);
    }
  }

  /** A container that could hold `tok` and does not. */
  ghost predicate Lacks(n: Node, tok: string) {
    || (n.Object? && tok !in n.members)
    || (n.Array? && exists i: nat :: Names(tok, i) && i >= |n.elems|)
  }

  lemma ChildNotFoundIffLacks(n: Node, tok: string)
    ensures Child(n, tok) == Bad(ErrNotFound) <==> Lacks(n, tok)
    ensures Child(n, tok).Bad? ==> Child(n, tok).err == ErrNotFound || Child(n, tok).err == ErrInvalid
  {
    if n.Array? {
      if i: nat :| Names(tok, i) {
        forall j: nat | Names(tok, j)
          ensures j == i
        {
          NamesOneIndex(tok, i, j);
        }
      }
    }
  }

  /** Not-found is reported exactly when the walk reaches a container that could hold the next
      token's value and does not; every other failure is invalid. */
  lemma {:induction false} AbsenceMeans(n: Node, toks: seq<string>)
    ensures Lookup(n, toks) == Bad(ErrNotFound) <==>
              exists k :: 0 <= k < |toks| && Lookup(n, toks[..k]).Ok? && Lacks(Lookup(n, toks[..k]).value, toks[k])
    ensures Lookup(n, toks).Bad? ==> Lookup(n, toks).err == ErrNotFound || Lookup(n, toks).err == ErrInvalid
    decreases |toks|
  {
    if toks != [] {
      var rest, child := toks[1..], Child(n, toks[0]);
      ChildNotFoundIffLacks(n, toks[0]);
      assert toks[..0] == [];
      forall k | 0 < k <= |toks|
        ensures Lookup(n, toks[..k]) == if child.Bad? then child else Lookup(child.value, rest[..k - 1])
      {
        assert toks[..k][1..] == rest[..k - 1];
      }
      if child.Ok? {
        AbsenceMeans(child.value, rest);
        if k :| 0 <= k < |rest| && Lookup(child.value, rest[..k]).Ok? && Lacks(Lookup(child.value, rest[..k]).value, rest[k]) {
          assert toks[k + 1] == rest[k];
          assert Lookup(n, toks[..k + 1]) == Lookup(child.value, rest[..k]);
        }
        if k :| 0 <= k < |toks| && Lookup(n, toks[..k]).Ok? && Lacks(Lookup(n, toks[..k]).value, toks[k]) {
          ShiftWitness(n, toks, k);
        }
      }
    }
  }

  lemma ShiftWitness(n: Node, toks: seq<string>, k: nat)
    requires k < |toks| && Child(n, toks[0]).Ok?
    requires Lookup(n, toks[..k]).Ok? && Lacks(Lookup(n, toks[..k]).value, toks[k])
    ensures k > 0 && Lookup(Child(n, toks[0]).value, toks[1..][..k - 1]).Ok?
    ensures Lacks(Lookup(Child(n, toks[0]).value, toks[1..][..k - 1]).value, toks[1..][k - 1])
  {
    ChildNotFoundIffLacks(n, toks[0]);
    assert toks[..0] == [];
    if k > 0 {
      assert toks[..k][1..] == toks[1..][..k - 1];
    }
  }
}
