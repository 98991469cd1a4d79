/** Source tags: splitting a precedence chain at its commas, cutting one ref into its parts, and
    why writing a parsed chain out again parses to the same chain. Strings are code points. */
module RefChain {
  import opened Values

  // ---------------------------------------------------------------- characters

  /** What `strings.TrimSpace` removes: Unicode white space. */
  predicate White(c: char) {
    var n := c as int;
    || 0x09 <= n <= 0x0D || n == 0x20 || n == 0x85 || n == 0xA0 || n == 0x1680
    || 0x2000 <= n <= 0x200A || n == 0x2028 || n == 0x2029 || n == 0x202F || n == 0x205F || n == 0x3000
  }

  /** What `\s` matches in a regular expression: not the vertical tab, nothing beyond ASCII. */
  predicate Blank(c: char) {
    c == '\t' || c == '\n' || c == 0x0C as char || c == '\r' || c == ' '
  }

  predicate Letter(c: char) {
    'a' <= c <= 'z' || 'A' <= c <= 'Z'
  }

  predicate NameChar(c: char) {
    Letter(c) || '0' <= c <= '9' || c == '+' || c == '.' || c == '-'
  }

  predicate AllWhite(s: string) {
    forall i :: 0 <= i < |s| ==> White(s[i])
  }

  // ---------------------------------------------------------------- trimming

  function TrimLeft(s: string): string {
    if s != "" && White(s[0]) then TrimLeft(s[1..]) else s
  }

  function TrimRight(s: string): string {
    if s != "" && White(s[|s| - 1]) then TrimRight(s[..|s| - 1]) else s
  }

  function Trim(s: string): string {
    TrimRight(TrimLeft(s))
  }

  ghost predicate Trimmed(s: string) {
    s == "" || (!White(s[0]) && !White(s[|s| - 1]))
  }

  lemma {:induction false} TrimLeftCuts(s: string) returns (w: string)
    ensures s == w + TrimLeft(s) && AllWhite(w)
    ensures TrimLeft(s) == "" || !White(TrimLeft(s)[0])
  {
    w := "";
    if s != "" && White(s[0]) {
      var v := TrimLeftCuts(s[1..]);
      w := [s[0]] + v;
      assert s == [s[0]] + (v + TrimLeft(s));
    }
  }

  lemma {:induction false} TrimRightCuts(s: string) returns (w: string)
    ensures s == TrimRight(s) + w && AllWhite(w)
    ensures TrimRight(s) == "" || (TrimRight(s)[0] == s[0] && !White(TrimRight(s)[|TrimRight(s)| - 1]))
    decreases |s|
  {
    w := "";
    if s != "" && White(s[|s| - 1]) {
      var v := TrimRightCuts(s[..|s| - 1]);
      w := v + [s[|s| - 1]];
      assert s == (TrimRight(s) + v) + [s[|s| - 1]];
    }
  }

  /** Trimming takes white space off both ends and nothing else. */
  lemma TrimCuts(s: string) returns (left: string, right: string)
    ensures s == left + Trim(s) + right && AllWhite(left) && AllWhite(right) && Trimmed(Trim(s))
  {
    left := TrimLeftCuts(s);
    right := TrimRightCuts(TrimLeft(s));
    assert left + (Trim(s) + right) == left + Trim(s) + right;
  }

  lemma TrimTrimmed(s: string)
    requires Trimmed(s)
    ensures Trim(s) == s
  {
  }

  // ---------------------------------------------------------------- where a scheme starts

  predicate NameThenColon(s: string) {
    s != "" && (s[0] == ':' || (NameChar(s[0]) && NameThenColon(s[1..])))
  }

  /** The regular expression `^\\s*[a-zA-Z][a-zA-Z0-9+.\\-]*:`. */
  predicate SchemeStart(s: string) {
    s != "" && (if Blank(s[0]) then SchemeStart(s[1..]) else Letter(s[0]) && NameThenColon(s[1..]))
  }

  ghost predicate AllBlank(s: string) {
    forall i :: 0 <= i < |s| ==> Blank(s[i])
  }

  ghost predicate AllName(s: string) {
    forall i :: 0 <= i < |s| ==> NameChar(s[i])
  }

  lemma {:induction false} NameThenColonSplits(s: string) returns (name: string, rest: string)
    requires NameThenColon(s)
    ensures s == name + ":" + rest && AllName(name)
  {
    if s[0] == ':' {
      name, rest := "", s[1..];
    } else {
      name, rest := NameThenColonSplits(s[1..]);
      name := [s[0]] + name;
    }
  }

  lemma {:induction false} NameBeforeColon(name: string, rest: string)
    requires AllName(name)
    ensures NameThenColon(name + ":" + rest)
  {
    if name != "" {
      NameBeforeColon(name[1..], rest);
      assert (name + ":" + rest)[1..] == name[1..] + ":" + rest;
    }
  }

  /** `s` is blanks, a scheme name, a colon and anything. */
  ghost predicate SchemeCut(s: string, blanks: string, name: string, rest: string) {
    AllBlank(blanks) && SchemeName(name) && s == blanks + (name + ":" + rest)
  }

  lemma {:induction false} SchemeSplits(s: string) returns (blanks: string, name: string, rest: string)
    requires SchemeStart(s)
    ensures SchemeCut(s, blanks, name, rest)
  {
    if Blank(s[0]) {
      blanks, name, rest := SchemeSplits(s[1..]);
      blanks := [s[0]] + blanks;
      assert s == [s[0]] + s[1..];
    } else {
      name, rest := NameThenColonSplits(s[1..]);
      blanks, name := "", [s[0]] + name;
      assert s == [s[0]] + s[1..];
    }
  }

  /** A scheme starts where, past any blanks, a letter opens a run of name characters that a colon
      ends. */
  lemma SchemeStartMeans(s: string)
    ensures SchemeStart(s) <==> exists blanks, name, rest :: SchemeCut(s, blanks, name, rest)
  {
    if SchemeStart(s) {
      var blanks, name, rest := SchemeSplits(s);
    } else if blanks, name, rest :| SchemeCut(s, blanks, name, rest) {
      SchemeAfterBlanks(blanks, name, rest);
    }
  }

  /** A letter, then name characters. */
  ghost predicate SchemeName(name: string) {
    name != "" && Letter(name[0]) && AllName(name)
  }

  lemma {:induction false} SchemeAfterBlanks(blanks: string, name: string, rest: string)
    requires AllBlank(blanks) && SchemeName(name)
    ensures SchemeStart(blanks + (name + ":" + rest))
  {
    var s := blanks + (name + ":" + rest);
    if blanks == "" {
      NameBeforeColon(name[1..], rest);
      assert s[1..] == name[1..] + ":" + rest;
    } else {
      SchemeAfterBlanks(blanks[1..], name, rest);
      assert s[1..] == blanks[1..] + (name + ":" + rest);
    }
  }

  /** Text that cannot help a scheme along: white space, then a comma or the end. */
  ghost predicate Inert(b: string) {
    b == "" || b[0] == ',' || (White(b[0]) && Inert(b[1..]))
  }

  lemma InertHasNoName(b: string)
    requires Inert(b)
    ensures !NameThenColon(b)
  {
  }

  lemma {:induction false} NameLocal(a: string, b: string)
    requires Inert(b)
    ensures NameThenColon(a + b) <==> NameThenColon(a)
  {
    if a == "" {
      assert a + b == b;
      InertHasNoName(b);
    } else {
      assert (a + b)[0] == a[0] && (a + b)[1..] == a[1..] + b;
      NameLocal(a[1..], b);
    }
  }

  lemma {:induction false} InertHasNoScheme(b: string)
    requires Inert(b)
    ensures !SchemeStart(b)
  {
    if b != "" && b[0] != ',' {
      InertHasNoScheme(b[1..]);
    }
  }

  /** Whether a scheme starts here is decided by the text up to the next comma, trailing white
      space aside. */
  lemma {:induction false} SchemeLocal(a: string, b: string)
    requires Inert(b)
    ensures SchemeStart(a + b) <==> SchemeStart(a)
  {
    if a == "" {
      assert a + b == b;
      InertHasNoScheme(b);
    } else {
      assert (a + b)[0] == a[0] && (a + b)[1..] == a[1..] + b;
      SchemeLocal(a[1..], b);
      NameLocal(a[1..], b);
    }
  }

  lemma {:induction false} WhiteIsInert(w: string)
    requires AllWhite(w)
    ensures Inert(w)
  {
    if w != "" {
      WhiteIsInert(w[1..]);
    }
  }

  lemma {:induction false} SchemeAfterWhite(w: string, s: string)
    requires AllWhite(w) && SchemeStart(w + s)
    ensures SchemeStart(s)
  {
    if w == "" {
      assert w + s == s;
    } else {
      assert (w + s)[0] == w[0] && (w + s)[1..] == w[1..] + s;
      SchemeAfterWhite(w[1..], s);
    }
  }

  // ---------------------------------------------------------------- splitting

  /** The parts of a chain: a comma separates where a scheme starts right after it. */
  function Parts(s: string): (r: seq<string>)
    ensures r != []
  {
    if s == "" then [""]
    else
      var rest := Parts(s[1..]);
      if s[0] == ',' && SchemeStart(s[1..]) then [""] + rest else [[s[0]] + rest[0]] + rest[1..]
  }

  function Joined(ps: seq<string>): string {
    if ps == [] then "" else if |ps| == 1 then ps[0] else ps[0] + ("," + Joined(ps[1..]))
  }

  function Grow(head: string, ps: seq<string>): seq<string>
    requires ps != []
  {
    [head + ps[0]] + ps[1..]
  }

  lemma Assoc(a: string, b: string, c: string)
    ensures (a + b) + c == a + (b + c)
  {
  }

  /** The parts from `start` on, when the scan stands at `i`. */
  function Ahead(tag: string, start: nat, i: nat): seq<string>
    requires start <= i <= |tag|
    decreases |tag| - i
  {
    if i == |tag| then [tag[start..]]
    else if tag[i] == ',' && SchemeStart(tag[i + 1..]) then [tag[start..i]] + Ahead(tag, i + 1, i + 1)
    else Ahead(tag, start, i + 1)
  }

  lemma {:induction false} AheadIsParts(tag: string, start: nat, i: nat)
    requires start <= i <= |tag|
    ensures Ahead(tag, start, i) == Grow(tag[start..i], Parts(tag[i..]))
    decreases |tag| - i
  {
    if i == |tag| {
      assert tag[|tag|..] == "" && tag[start..|tag|] == tag[start..];
      assert tag[start..] + "" == tag[start..];
    } else {
      ReadOne(tag, start, i);
      if tag[i] == ',' && SchemeStart(tag[i + 1..]) {
        AheadIsParts(tag, i + 1, i + 1);
      } else {
        AheadIsParts(tag, start, i + 1);
      }
    }
  }

  lemma AheadStarts(tag: string)
    ensures Ahead(tag, 0, 0) == Parts(tag)
  {
    assert tag[0..] == tag && tag[0..0] == "";
    AheadIsParts(tag, 0, 0);
    GrowNothing(Parts(tag));
  }

  /** Reading one more character of the tag: it joins the current part, or ends it. */
  lemma ReadOne(tag: string, start: nat, i: nat)
    requires start <= i < |tag|
    ensures Grow(tag[start..i], Parts(tag[i..])) ==
              if tag[i] == ',' && SchemeStart(tag[i + 1..]) then [tag[start..i]] + Grow(tag[i + 1..i + 1], Parts(tag[i + 1..]))
              else Grow(tag[start..i + 1], Parts(tag[i + 1..]))
  {
    assert tag[i + 1..i + 1] == "";
    var head, rest := tag[start..i], Parts(tag[i + 1..]);
    var here := Parts(tag[i..]);
    assert tag[i..][0] == tag[i] && tag[i..][1..] == tag[i + 1..];
    if tag[i] == ',' && SchemeStart(tag[i + 1..]) {
      assert here == [""] + rest;
      assert here[0] == "" && here[1..] == rest && head + "" == head;
      GrowNothing(rest);
    } else {
      assert here == [[tag[i]] + rest[0]] + rest[1..];
      assert here[0] == [tag[i]] + rest[0] && here[1..] == rest[1..];
      Assoc(head, [tag[i]], rest[0]);
      assert head + [tag[i]] == tag[start..i + 1];
    }
  }

  lemma GrowNothing(ps: seq<string>)
    requires ps != []
    ensures Grow("", ps) == ps
  {
    assert "" + ps[0] == ps[0];
  }

  /** `splitChain`. */
  method SplitChain(tag: string) returns (parts: seq<string>)
    ensures parts == Parts(tag)
  {
    parts := [];
    var start, i := 0, 0;
    ghost var all := Ahead(tag, 0, 0);
    while i < |tag|
      invariant 0 <= start <= i <= |tag|
      invariant parts + Ahead(tag, start, i) == all
    {
      if tag[i] == ',' && SchemeStart(tag[i + 1..]) {
        PartsAssoc(parts, [tag[start..i]], Ahead(tag, i + 1, i + 1));
        parts := parts + [tag[start..i]];
        start := i + 1;
      }
      i := i + 1;
    }
    parts := parts + [tag[start..]];
    AheadStarts(tag);
  }

  lemma PartsAssoc(a: seq<string>, b: seq<string>, c: seq<string>)
    ensures (a + b) + c == a + (b + c)
  {
  }

  /** No comma inside `p` is followed by a scheme. */
  ghost predicate Solid(p: string) {
    forall k :: 0 <= k < |p| && p[k] == ',' ==> !SchemeStart(p[k + 1..])
  }

  ghost predicate Chain(ps: seq<string>) {
    && ps != []
    && (forall i :: 0 <= i < |ps| ==> Solid(ps[i]))
    && (forall i :: 1 <= i < |ps| ==> SchemeStart(ps[i]))
  }

  /** A solid part, then more chain or nothing, splits off as it stands. */
  lemma {:induction false} PartsOfSolid(p: string, rest: seq<string>)
    requires Solid(p) && (rest != [] ==> Chain(rest) && SchemeStart(rest[0]) && Parts(Joined(rest)) == rest)
    ensures Parts(Joined([p] + rest)) == [p] + rest
  {
    var tail := if rest == [] then "" else "," + Joined(rest);
    assert ([p] + rest)[1..] == rest;
    assert p + "" == p;
    assert Joined([p] + rest) == p + tail;
    if rest != [] {
      SchemeOfJoined(rest);
      assert tail[1..] == Joined(rest);
    }
    PartsFrom(p, tail, rest);
  }

  lemma SchemeOfJoined(rest: seq<string>)
    requires rest != [] && SchemeStart(rest[0])
    ensures SchemeStart(Joined(rest))
  {
    if |rest| > 1 {
      SchemeLocal(rest[0], "," + Joined(rest[1..]));
    }
  }

  lemma {:induction false} PartsFrom(p: string, tail: string, rest: seq<string>)
    requires Solid(p)
    requires if rest == [] then tail == "" else tail != "" && tail[0] == ',' && SchemeStart(tail[1..]) && Parts(tail[1..]) == rest
    ensures Parts(p + tail) == [p] + rest
  {
    if p == "" {
      assert p + tail == tail;
    } else {
      var q := p[1..];
      assert forall k :: 0 <= k < |q| ==> q[k] == p[k + 1] && q[k + 1..] == p[k + 2..];
      PartsFrom(q, tail, rest);
      assert (p + tail)[0] == p[0] && (p + tail)[1..] == q + tail;
      SchemeLocal(q, tail);
      assert p[0] == ',' ==> !SchemeStart(p[1..]);
      assert [p[0]] + q == p;
      assert ([q] + rest)[1..] == rest;
    }
  }

  /** Joining a chain of solid parts and splitting it gives the same parts back. */
  lemma {:induction false} SplitJoined(ps: seq<string>)
    requires Chain(ps)
    ensures Parts(Joined(ps)) == ps
    decreases |ps|
  {
    var rest := ps[1..];
    assert ps == [ps[0]] + rest;
    if rest != [] {
      assert Chain(rest) && SchemeStart(rest[0]);
      SplitJoined(rest);
    }
    PartsOfSolid(ps[0], rest);
  }

  lemma {:induction false} JoinedParts(s: string)
    ensures Joined(Parts(s)) == s
  {
    if s != "" {
      JoinedParts(s[1..]);
      var rest := Parts(s[1..]);
      assert s == [s[0]] + s[1..];
      if s[0] == ',' && SchemeStart(s[1..]) {
        assert ([""] + rest)[1..] == rest;
        assert "" + ("," + Joined(rest)) == s;
      } else {
        JoinedGrown(s[0], rest);
      }
    }
  }

  lemma JoinedGrown(c: char, ps: seq<string>)
    requires ps != []
    ensures Joined([[c] + ps[0]] + ps[1..]) == [c] + Joined(ps)
  {
    var more := [[c] + ps[0]] + ps[1..];
    assert more[0] == [c] + ps[0] && more[1..] == ps[1..];
    if |ps| > 1 {
      Assoc([c], ps[0], "," + Joined(ps[1..]));
    }
  }

  lemma FirstPart(s: string) returns (tail: string)
    ensures s == Parts(s)[0] + tail && Inert(tail)
  {
    JoinedParts(s);
    var ps := Parts(s);
    tail := if |ps| == 1 then "" else "," + Joined(ps[1..]);
    assert ps[0] + "" == ps[0];
  }

  /** Every split is a chain: its parts are solid and all but the first start a scheme. */
  lemma {:induction false} PartsAreChain(s: string)
    ensures Chain(Parts(s))
  {
    if s != "" {
      var rest := Parts(s[1..]);
      PartsAreChain(s[1..]);
      var tail := FirstPart(s[1..]);
      SchemeLocal(rest[0], tail);
      if s[0] == ',' && SchemeStart(s[1..]) {
        assert Solid("");
      } else {
        var p := [s[0]] + rest[0];
        assert forall k :: 1 <= k < |p| ==> p[k] == rest[0][k - 1] && p[k + 1..] == rest[0][k..];
        assert p[1..] == rest[0];
        assert Solid(p);
      }
    }
  }

  // ---------------------------------------------------------------- trimming the parts

  lemma DropInside(left: string, t: string, right: string, k: nat)
    requires k < |t|
    ensures var p := left + t + right; p[|left| + k] == t[k] && p[|left| + k + 1..] == t[k + 1..] + right
  {
  }

  lemma SolidTrimmed(p: string)
    requires Solid(p)
    ensures Solid(Trim(p))
  {
    var left, right := TrimCuts(p);
    var t := Trim(p);
    WhiteIsInert(right);
    forall k | 0 <= k < |t| && t[k] == ','
      ensures !SchemeStart(t[k + 1..])
    {
      var j := |left| + k;
      DropInside(left, t, right, k);
      SchemeLocal(t[k + 1..], right);
    }
  }

  lemma SchemeTrimmed(p: string)
    requires SchemeStart(p)
    ensures SchemeStart(Trim(p))
  {
    var left, right := TrimCuts(p);
    Assoc(left, Trim(p), right);
    SchemeAfterWhite(left, Trim(p) + right);
    WhiteIsInert(right);
    SchemeLocal(Trim(p), right);
  }

  // ---------------------------------------------------------------- one ref

  /** The pieces of a ref's text: `scheme:` `//`? `path` `#key`? `?query`?. */
  datatype Cut = Cut(scheme: string, slashes: bool, path: string, key: Option<string>, query: Option<string>)

  /** The first `c` in `s`, or its length. */
  function Index(s: string, c: char): (i: nat)
    ensures i <= |s| && (i < |s| ==> s[i] == c) && c !in s[..i]
  {
    if s == "" || s[0] == c then 0 else
      var i := 1 + Index(s[1..], c);
      assert s[..i] == [s[0]] + s[1..][..i - 1];
      i
  }

  predicate Slashed(s: string) {
    |s| >= 2 && s[0] == '/' && s[1] == '/'
  }

  /** The text before the first `c`, and the text after it if there is one. */
  function CutAt(s: string, c: char): (string, Option<string>) {
    var i := Index(s, c);
    (s[..i], if i < |s| then Some(s[i + 1..]) else None)
  }

  /** A marked optional piece. */
  function Mark(c: char, t: Option<string>): string {
    if t.None? then "" else [c] + t.value
  }

  function CutRest(scheme: string, remainder: string): Cut {
    var rest := if Slashed(remainder) then remainder[2..] else remainder;
    var (front, query) := CutAt(rest, '?');
    var (path, key) := CutAt(front, '#');
    Cut(scheme, Slashed(remainder), path, key, query)
  }

  function Body(c: Cut): string {
    (c.path + Mark('#', c.key)) + Mark('?', c.query)
  }

  /** A cut written out again. */
  function Written(c: Cut): string {
    c.scheme + (":" + ((if c.slashes then "//" else "") + Body(c)))
  }

  /** What every cut obeys: no piece holds the mark that would have ended it. */
  predicate Proper(c: Cut) {
    && c.scheme != "" && ':' !in c.scheme
    && '?' !in c.path && '#' !in c.path
    && (c.key.Some? ==> '?' !in c.key.value)
    && (!c.slashes ==> !Slashed(Body(c)))
  }

  lemma CutAtLossless(s: string, c: char)
    ensures var (a, b) := CutAt(s, c); s == a + Mark(c, b) && c !in a
  {
    var i := Index(s, c);
    if i < |s| {
      assert s == s[..i] + ([c] + s[i + 1..]);
    } else {
      assert s[..i] + "" == s;
    }
  }

  lemma {:induction false} IndexAfter(a: string, c: char, b: Option<string>)
    requires c !in a
    ensures Index(a + Mark(c, b), c) == |a|
  {
    var s := a + Mark(c, b);
    if a == "" {
      assert s == Mark(c, b);
    } else {
      assert s[0] == a[0] && s[1..] == a[1..] + Mark(c, b);
      IndexAfter(a[1..], c, b);
    }
  }

  lemma CutAtUnique(a: string, c: char, b: Option<string>)
    requires c !in a
    ensures CutAt(a + Mark(c, b), c) == (a, b)
  {
    IndexAfter(a, c, b);
    var s := a + Mark(c, b);
    assert s[..|a|] == a;
    if b.Some? {
      assert s[|a| + 1..] == b.value;
    }
  }

  lemma NotInConcat(c: char, a: string, b: string)
    ensures c !in a + b <==> c !in a && c !in b
  {
    assert c in a ==> c in a + b;
    assert c in b ==> c in a + b;
  }

  lemma BodyLossless(rest: string)
    ensures var (front, query) := CutAt(rest, '?');
            var (path, key) := CutAt(front, '#');
            && (path + Mark('#', key)) + Mark('?', query) == rest
            && '?' !in path && '#' !in path && (key.Some? ==> '?' !in key.value)
  {
    var front := CutAt(rest, '?').0;
    var (path, key) := CutAt(front, '#');
    CutAtLossless(rest, '?');
    CutAtLossless(front, '#');
    NotInConcat('?', path, Mark('#', key));
    if key.Some? {
      NotInConcat('?', ['#'], key.value);
    }
  }

  /** Cutting loses and overlaps nothing: the pieces, written out, are the text. */
  lemma CutLossless(scheme: string, remainder: string)
    requires scheme != "" && ':' !in scheme
    ensures Proper(CutRest(scheme, remainder)) && Written(CutRest(scheme, remainder)) == scheme + (":" + remainder)
  {
    var slashes := if Slashed(remainder) then "//" else "";
    var rest := if Slashed(remainder) then remainder[2..] else remainder;
    BodyLossless(rest);
    assert slashes + rest == remainder;
  }

  /** And it is the only way: whatever proper pieces are written out come back as they were. */
  lemma CutUnique(c: Cut)
    requires Proper(c)
    ensures CutAt(Written(c), ':').0 == c.scheme && CutAt(Written(c), ':').1.Some?
    ensures CutRest(c.scheme, CutAt(Written(c), ':').1.value) == c
  {
    var remainder := (if c.slashes then "//" else "") + Body(c);
    CutAtUnique(c.scheme, ':', Some(remainder));
    RestUnique(c, remainder);
  }

  lemma RestUnique(c: Cut, remainder: string)
    requires Proper(c) && remainder == (if c.slashes then "//" else "") + Body(c)
    ensures CutRest(c.scheme, remainder) == c
  {
    var front := c.path + Mark('#', c.key);
    NotInConcat('?', c.path, Mark('#', c.key));
    if c.key.Some? {
      NotInConcat('?', "#", c.key.value);
    }
    CutAtUnique(front, '?', c.query);
    CutAtUnique(c.path, '#', c.key);
    if c.slashes {
      assert remainder[2..] == Body(c);
    } else {
      assert "" + Body(c) == Body(c);
    }
  }

  // ---------------------------------------------------------------- parsing

  type Opts = map<string, seq<string>>

  datatype SourceRef = SourceRef(scheme: string, path: string, key: string, opts: Opts, raw: string)

  /** `ParseRef`, for a given parser of query text. */
  function ParseRef(parseQuery: string -> Result<Opts>, tag: string): Result<SourceRef> {
    var t := Trim(tag);
    var (scheme, remainder) := CutAt(t, ':');
    if t == "" || remainder.None? || scheme == "" then Bad(ErrInvalid)
    else
      FromCut(parseQuery, t, CutRest(scheme, remainder.value))
  }

  /** The pieces are taken over as they are, and the query is parsed. */
  function FromCut(parseQuery: string -> Result<Opts>, t: string, c: Cut): Result<SourceRef> {
    var opts := if c.query.Some? then parseQuery(c.query.value) else Ok(map[]);
    if opts.Bad? then Bad(opts.err)
    else Ok(SourceRef(c.scheme, c.path, if c.key.Some? then c.key.value else "", opts.value, t))
  }

  /** A parsed ref's fields are the pieces of its raw text, which they make up completely. */
  lemma ParsedRefIsItsText(parseQuery: string -> Result<Opts>, tag: string) returns (c: Cut)
    requires ParseRef(parseQuery, tag).Ok?
    ensures var r := ParseRef(parseQuery, tag).value;
            && r.raw == Trim(tag) == Written(c) && Proper(c)
            && r.scheme == c.scheme && r.path == c.path
            && r.key == (if c.key.Some? then c.key.value else "")
            && (if c.query.Some? then parseQuery(c.query.value) == Ok(r.opts) else r.opts == map[])
  {
    var t := Trim(tag);
    CutAtLossless(t, ':');
    var (scheme, remainder) := CutAt(t, ':');
    CutLossless(scheme, remainder.value);
    assert [':'] + remainder.value == ":" + remainder.value;
    c := CutRest(scheme, remainder.value);
  }

  /** The ref that the pieces `c` of the text `t` make, if its query parses. */
  ghost predicate MadeOf(parseQuery: string -> Result<Opts>, t: string, c: Cut, r: Result<SourceRef>) {
    var key := if c.key.Some? then c.key.value else "";
    if c.query.None? then r == Ok(SourceRef(c.scheme, c.path, key, map[], t))
    else match parseQuery(c.query.value)
      case Ok(opts) => r == Ok(SourceRef(c.scheme, c.path, key, opts, t))
      case Bad(e) => r == Bad(e)
  }

  /** Text made of proper pieces parses to what they make ... */
  lemma ParseRefMeans(parseQuery: string -> Result<Opts>, tag: string, c: Cut)
    requires Proper(c) && Trim(tag) == Written(c)
    ensures MadeOf(parseQuery, Trim(tag), c, ParseRef(parseQuery, tag))
  {
    CutUnique(c);
    assert Written(c)[0] == c.scheme[0];
    assert ParseRef(parseQuery, tag) == FromCut(parseQuery, Trim(tag), c);
  }

  /** ... and there are such pieces exactly if something stands before a first colon; all other text
      is refused. */
  lemma ParseRefRefuses(parseQuery: string -> Result<Opts>, tag: string)
    ensures (exists c :: Proper(c) && Trim(tag) == Written(c)) <==> ':' in Trim(tag) && Trim(tag)[0] != ':'
    ensures !(':' in Trim(tag) && Trim(tag)[0] != ':') ==> ParseRef(parseQuery, tag) == Bad(ErrInvalid)
  {
    var t := Trim(tag);
    if c :| Proper(c) && t == Written(c) {
      assert t[0] == c.scheme[0] && t[|c.scheme|] == ':';
    }
    CutAtLossless(t, ':');
    var (scheme, remainder) := CutAt(t, ':');
    if ':' in t && t[0] != ':' {
      CutLossless(scheme, remainder.value);
      assert [':'] + remainder.value == ":" + remainder.value;
    }
  }

  /** Applies `f` to each in turn, up to the first that fails. */
  function Each<A, B>(f: A -> Result<B>, xs: seq<A>): Result<seq<B>> {
    if xs == [] then Ok([])
    else
      var first := f(xs[0]);
      if first.Bad? then Bad(first.err)
      else
        var rest := Each(f, xs[1..]);
        if rest.Bad? then rest else Ok([first.value] + rest.value)
  }

  function Parser(parseQuery: string -> Result<Opts>): string -> Result<SourceRef> {
    part => ParseRef(parseQuery, part)
  }

  function ParseChain(parseQuery: string -> Result<Opts>, tag: string): Result<seq<SourceRef>> {
    if Trim(tag) == "" then Bad(ErrInvalid) else Each(Parser(parseQuery), Parts(Trim(tag)))
  }

  /** `ParseRefs`. */
  method ParseRefs(parseQuery: string -> Result<Opts>, tag: string) returns (r: Result<seq<SourceRef>>)
    ensures r == ParseChain(parseQuery, tag)
  {
    var t := Trim(tag);
    if t == "" {
      return Bad(ErrInvalid);
    }
    var parts := SplitChain(t);
    var refs: seq<SourceRef> := [];
    var i := 0;
    assert parts[0..] == parts;
    OnTopOfNothing(Each(Parser(parseQuery), parts));
    while i < |parts|
      invariant 0 <= i <= |parts|
      invariant OnTop(refs, Each(Parser(parseQuery), parts[i..])) == Each(Parser(parseQuery), parts)
    {
      assert parts[i..][0] == parts[i] && parts[i..][1..] == parts[i + 1..];
      var ref := ParseRef(parseQuery, parts[i]);
      if ref.Bad? {
        return Bad(ref.err);
      }
      OnTopOfOne(refs, ref.value, Each(Parser(parseQuery), parts[i + 1..]));
      refs := refs + [ref.value];
      i := i + 1;
    }
    assert refs + [] == refs;
    return Ok(refs);
  }

  function OnTop(refs: seq<SourceRef>, more: Result<seq<SourceRef>>): Result<seq<SourceRef>> {
    if more.Bad? then more else Ok(refs + more.value)
  }

  lemma OnTopOfNothing(more: Result<seq<SourceRef>>)
    ensures OnTop([], more) == more
  {
    if more.Ok? {
      assert [] + more.value == more.value;
    }
  }

  lemma OnTopOfOne(refs: seq<SourceRef>, r: SourceRef, more: Result<seq<SourceRef>>)
    ensures OnTop(refs + [r], more) == OnTop(refs, OnTop([r], more))
  {
    if more.Ok? {
      assert (refs + [r]) + more.value == refs + ([r] + more.value);
    }
  }

  // ---------------------------------------------------------------- writing it out again

  function Raws(refs: seq<SourceRef>): seq<string> {
    seq(|refs|, i requires 0 <= i < |refs| => refs[i].raw)
  }

  lemma {:induction false} EachGives<A, B>(f: A -> Result<B>, xs: seq<A>)
    requires Each(f, xs).Ok?
    ensures var ys := Each(f, xs).value; |ys| == |xs| && forall i :: 0 <= i < |xs| ==> f(xs[i]) == Ok(ys[i])
  {
    if xs != [] {
      EachGives(f, xs[1..]);
    }
  }

  lemma {:induction false} EachOf<A, B>(f: A -> Result<B>, xs: seq<A>, ys: seq<B>)
    requires |ys| == |xs| && forall i :: 0 <= i < |xs| ==> f(xs[i]) == Ok(ys[i])
    ensures Each(f, xs) == Ok(ys)
  {
    if xs != [] {
      EachOf(f, xs[1..], ys[1..]);
      assert ys == [ys[0]] + ys[1..];
    }
  }

  /** A tag parses to a chain exactly if it is not empty and every one of its parts parses, each to
      its own ref ... */
  lemma ParseChainMeans(parseQuery: string -> Result<Opts>, tag: string, refs: seq<SourceRef>)
    ensures ParseChain(parseQuery, tag) == Ok(refs) <==>
              && Trim(tag) != "" && |refs| == |Parts(Trim(tag))|
              && forall i :: 0 <= i < |refs| ==> ParseRef(parseQuery, Parts(Trim(tag))[i]) == Ok(refs[i])
  {
    var f, parts := Parser(parseQuery), Parts(Trim(tag));
    assert forall i :: 0 <= i < |parts| ==> f(parts[i]) == ParseRef(parseQuery, parts[i]);
    if Each(f, parts).Ok? {
      EachGives(f, parts);
      if |refs| == |parts| && (forall i :: 0 <= i < |refs| ==> ParseRef(parseQuery, parts[i]) == Ok(refs[i])) {
        assert refs == Each(f, parts).value;
      }
    } else if |refs| == |parts| && (forall i :: 0 <= i < |refs| ==> ParseRef(parseQuery, parts[i]) == Ok(refs[i])) {
      EachOf(f, parts, refs);
    }
  }

  /** ... and otherwise is refused with the error of the first part that does not. */
  lemma {:induction false} EachFails<A, B>(f: A -> Result<B>, xs: seq<A>, k: nat)
    requires k < |xs| && f(xs[k]).Bad? && forall i :: 0 <= i < k ==> f(xs[i]).Ok?
    ensures Each(f, xs) == Bad(f(xs[k]).err)
    decreases k
  {
    if k > 0 {
      EachFails(f, xs[1..], k - 1);
    }
  }

  /** Trimming a parsed ref again changes nothing. */
  lemma RawParsesTheSame(parseQuery: string -> Result<Opts>, part: string)
    requires ParseRef(parseQuery, part).Ok?
    ensures var raw := ParseRef(parseQuery, part).value.raw;
            raw == Trim(part) && raw != "" && Trimmed(raw) && ParseRef(parseQuery, raw) == ParseRef(parseQuery, part)
  {
    var left, right := TrimCuts(part);
    TrimTrimmed(Trim(part));
  }

  lemma {:induction false} JoinedTrimmed(ps: seq<string>)
    requires ps != [] && forall i :: 0 <= i < |ps| ==> ps[i] != "" && Trimmed(ps[i])
    ensures Joined(ps) != "" && Trimmed(Joined(ps))
    decreases |ps|
  {
    if |ps| > 1 {
      JoinedTrimmed(ps[1..]);
      var s, tail := Joined(ps), Joined(ps[1..]);
      assert s[0] == ps[0][0] && s[|s| - 1] == tail[|tail| - 1];
    }
  }

  lemma RawsAreChain(parts: seq<string>, raws: seq<string>)
    requires Chain(parts) && |raws| == |parts| && forall i :: 0 <= i < |parts| ==> raws[i] == Trim(parts[i])
    ensures Chain(raws)
  {
    forall i | 0 <= i < |raws|
      ensures Solid(raws[i]) && (i >= 1 ==> SchemeStart(raws[i]))
    {
      SolidTrimmed(parts[i]);
      if i >= 1 {
        SchemeTrimmed(parts[i]);
      }
    }
  }

  /** Joining the raw refs of any chain that parsed, with commas, and parsing the result gives
      the same chain: the same refs, in the same order, with the same raw text. */
  lemma RejoinParses(parseQuery: string -> Result<Opts>, tag: string)
    requires ParseChain(parseQuery, tag).Ok?
    ensures ParseChain(parseQuery, Joined(Raws(ParseChain(parseQuery, tag).value))) == ParseChain(parseQuery, tag)
  {
    var parts, refs := Parts(Trim(tag)), ParseChain(parseQuery, tag).value;
    var raws := Raws(refs);
    EachGives(Parser(parseQuery), parts);
    forall i | 0 <= i < |parts|
      ensures raws[i] == Trim(parts[i]) && raws[i] != "" && Trimmed(raws[i]) && ParseRef(parseQuery, raws[i]) == Ok(refs[i])
    {
      assert Parser(parseQuery)(parts[i]) == Ok(refs[i]);
      RawParsesTheSame(parseQuery, parts[i]);
    }
    PartsAreChain(Trim(tag));
    RawsAreChain(parts, raws);
    SplitJoined(raws);
    JoinedTrimmed(raws);
    TrimTrimmed(Joined(raws));
    EachOf(Parser(parseQuery), raws, refs);
  }
}
