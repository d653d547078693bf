/** Template resolution: a leftmost, non-overlapping scan for ${...} references and a
    structural recursion that substitutes them. */
module Templates {
  import opened Values

  // ---------- scanning ----------

  /** One character copied as it is, or a reference with the text between its braces. */
  datatype Segment = Chr(c: char) | Ref(body: string)

  /** The text a reference may hold: at least one character and no closing brace. */
  predicate ValidBody(body: string) {
    body != "" && '}' !in body
  }

  function Quote(body: string): string {
    "${" + body + "}"
  }

  lemma QuoteChars(body: string)
    ensures |Quote(body)| == |body| + 3
    ensures Quote(body)[0] == '$' && Quote(body)[1] == '{' && Quote(body)[|body| + 2] == '}'
    ensures forall i :: 0 <= i < |body| ==> Quote(body)[i + 2] == body[i]
  {
  }

  /** Position of the first '}' at or after i; |s| when there is none. */
  function CloseFrom(s: string, i: nat): (q: nat)
    requires i <= |s|
    ensures i <= q <= |s| && (q < |s| ==> s[q] == '}')
    ensures forall j :: i <= j < q ==> s[j] != '}'
    decreases |s| - i
  {
    if i == |s| || s[i] == '}' then i else CloseFrom(s, i + 1)
  }

  /** The body of the reference that starts at position p, if one does. */
  function BodyAt(s: string, p: nat): (r: Option<string>)
    requires p <= |s|
    ensures r.Some? ==> ValidBody(r.value) && p + |r.value| + 3 <= |s|
  {
    if p + 2 <= |s| && s[p] == '$' && s[p + 1] == '{' then
      var q := CloseFrom(s, p + 2);
      if p + 2 < q < |s| then Some(s[p + 2..q]) else None
    else None
  }

  lemma BodyAtQuoted(s: string, p: nat)
    requires p <= |s| && BodyAt(s, p).Some?
    ensures s[p..p + |BodyAt(s, p).value| + 3] == Quote(BodyAt(s, p).value)
  {
    QuoteChars(BodyAt(s, p).value);
  }

  /** Position of the first reference at or after p; |s| when there is none. */
  function FirstRef(s: string, p: nat): (k: nat)
    requires p <= |s|
    ensures p <= k <= |s|
    ensures k < |s| ==> BodyAt(s, k).Some?
    ensures forall j :: p <= j < k ==> BodyAt(s, j) == None
    decreases |s| - p
  {
    if p == |s| || BodyAt(s, p).Some? then p else FirstRef(s, p + 1)
  }

  /** The segments of a string, scanned from the left. */
  function Segments(s: string): seq<Segment>
    decreases |s|
  {
    if s == "" then []
    else match BodyAt(s, 0)
      case Some(body) => [Ref(body)] + Segments(s[|body| + 3..])
      case None => [Chr(s[0])] + Segments(s[1..])
  }

  function Text(g: Segment): string {
    match g
    case Chr(c) => [c]
    case Ref(body) => Quote(body)
  }

  function Flatten(gs: seq<Segment>): string {
    if gs == [] then "" else Text(gs[0]) + Flatten(gs[1..])
  }

  /** What the pattern means, without a scanner: the text begins with a quoted body. */
  ghost predicate BeginsWithRef(t: string) {
    exists body :: ValidBody(body) && Quote(body) <= t
  }

  /** A leftmost split: references are well formed, and no plain character begins one. */
  ghost predicate LeftmostSplit(gs: seq<Segment>) {
    gs == [] ||
    (&& LeftmostSplit(gs[1..])
     && match gs[0]
        case Ref(body) => ValidBody(body)
        case Chr(_) => !BeginsWithRef(Flatten(gs)))
  }

  /** The scanner finds the body quoted at the front of a text, whatever follows it. */
  lemma BodyAtComplete(t: string, body: string)
    requires ValidBody(body) && Quote(body) <= t
    ensures BodyAt(t, 0) == Some(body)
  {
    QuoteChars(body);
    var q := CloseFrom(t, 2);
    var e := |body| + 2;
    assert t[0] == '$' && t[1] == '{' && t[e] == '}';
    assert forall i :: 0 <= i < |body| ==> t[i + 2] == body[i];
    assert forall j :: 2 <= j < e ==> t[j] == body[j - 2];
    assert t[2..e] == body;
  }

  /** The scanner's test agrees with the meaning of the pattern. */
  lemma BodyAtMeaning(t: string)
    ensures BodyAt(t, 0).Some? <==> BeginsWithRef(t)
  {
    if BodyAt(t, 0).Some? {
      BodyAtQuoted(t, 0);
      assert Quote(BodyAt(t, 0).value) <= t;
    }
    if body :| ValidBody(body) && Quote(body) <= t {
      BodyAtComplete(t, body);
    }
  }

  lemma {:induction false} SplitIsSegments(gs: seq<Segment>)
    requires LeftmostSplit(gs)
    ensures Segments(Flatten(gs)) == gs
    decreases |gs|
  {
    if gs != [] {
      var t := Flatten(gs);
      SplitIsSegments(gs[1..]);
      match gs[0] {
        case Ref(body) =>
          BodyAtComplete(t, body);
          assert t[|body| + 3..] == Flatten(gs[1..]);
        case Chr(c) =>
          BodyAtMeaning(t);
          assert t[1..] == Flatten(gs[1..]);
      }
    }
  }

  lemma SplitCons(g: Segment, rest: seq<Segment>)
    ensures Flatten([g] + rest) == Text(g) + Flatten(rest)
    ensures LeftmostSplit([g] + rest) <==>
            && LeftmostSplit(rest)
            && match g
               case Ref(body) => ValidBody(body)
               case Chr(_) => !BeginsWithRef(Text(g) + Flatten(rest))
  {
    assert ([g] + rest)[1..] == rest;
  }

  lemma SegmentsCons(s: string)
    requires s != ""
    ensures match BodyAt(s, 0)
            case Some(body) => |body| + 3 <= |s| && s == Quote(body) + s[|body| + 3..] &&
                               Segments(s) == [Ref(body)] + Segments(s[|body| + 3..])
            case None => s == [s[0]] + s[1..] && Segments(s) == [Chr(s[0])] + Segments(s[1..])
  {
    match BodyAt(s, 0) {
      case Some(body) =>
        BodyAtQuoted(s, 0);
        PrefixSplit(Quote(body), s);
      case None => PrefixSplit([s[0]], s);
    }
  }

  lemma PrefixSplit(q: string, s: string)
    requires q <= s
    ensures |q| <= |s| && s == q + s[|q|..]
  {
  }

  lemma {:induction false} SegmentsSplit(s: string)
    ensures Flatten(Segments(s)) == s && LeftmostSplit(Segments(s))
    decreases |s|
  {
    if s != "" {
      BodyAtMeaning(s);
      SegmentsCons(s);
      match BodyAt(s, 0) {
        case Some(body) =>
          SegmentsSplit(s[|body| + 3..]);
          SplitCons(Ref(body), Segments(s[|body| + 3..]));
        case None =>
          SegmentsSplit(s[1..]);
          SplitCons(Chr(s[0]), Segments(s[1..]));
      }
    }
  }

  /** The scan yields the one leftmost split of a string, and the split loses no character. */
  lemma SegmentsUnique(s: string, gs: seq<Segment>)
    ensures gs == Segments(s) <==> Flatten(gs) == s && LeftmostSplit(gs)
  {
    SegmentsSplit(s);
    if LeftmostSplit(gs) { SplitIsSegments(gs); }
  }

  lemma BodyShift(s: string, p: nat)
    requires p <= |s|
    ensures BodyAt(s, p) == BodyAt(s[p..], 0)
  {
    var t := s[p..];
    assert t[0..] == t;
    if p + 2 <= |s| {
      CloseShift(s, p, 2);
      assert t[0] == s[p] && t[1] == s[p + 1];
      var q := CloseFrom(t, 2);
      assert t[2..q] == s[p + 2..p + q];
    }
  }

  lemma {:induction false} CloseShift(s: string, p: nat, i: nat)
    requires p + i <= |s|
    ensures CloseFrom(s, p + i) == p + CloseFrom(s[p..], i)
    decreases |s| - i
  {
    if p + i < |s| && s[p + i] != '}' {
      CloseShift(s, p, i + 1);
    }
  }

  /** Length of the reference that starts at position p. */
  function RefLength(s: string, p: nat): nat
    requires p < |s| && BodyAt(s, p).Some?
  {
    |BodyAt(s, p).value| + 3
  }

  lemma SegmentsAtRef(s: string, p: nat)
    requires p < |s| && BodyAt(s, p).Some?
    ensures Segments(s[p..]) == [Ref(BodyAt(s, p).value)] + Segments(s[p + RefLength(s, p)..])
  {
    BodyShift(s, p);
    SegmentsRef(s[p..], BodyAt(s, p).value);
    DropDrop(s, p, RefLength(s, p));
  }

  lemma SegmentsRef(t: string, body: string)
    requires BodyAt(t, 0) == Some(body)
    ensures |body| + 3 <= |t| && Segments(t) == [Ref(body)] + Segments(t[|body| + 3..])
  {
  }

  lemma SegmentsAtChar(s: string, p: nat)
    requires p < |s| && BodyAt(s, p).None?
    ensures Segments(s[p..]) == [Chr(s[p])] + Segments(s[p + 1..])
  {
    BodyShift(s, p);
    DropDrop(s, p, 1);
  }

  lemma DropDrop(s: string, p: nat, n: nat)
    requires p + n <= |s|
    ensures s[p..][n..] == s[p + n..]
  {
  }

  /** Text before the first reference is copied as it is. */
  lemma {:induction false} SegmentsFrom(s: string, p: nat)
    requires p <= |s|
    ensures var k := FirstRef(s, p); Segments(s[p..]) == Chars(s[p..k]) + Segments(s[k..])
    decreases |s| - p
  {
    var k := FirstRef(s, p);
    if k == p {
      assert Chars(s[p..p]) == [];
    } else {
      SegmentsFrom(s, p + 1);
      SegmentsAtChar(s, p);
      CharsCons(s, p, k);
      Associative([Chr(s[p])], Chars(s[p + 1..k]), Segments(s[k..]));
    }
  }

  lemma Associative<T>(a: seq<T>, b: seq<T>, c: seq<T>)
    ensures a + b + c == a + (b + c)
  {
  }

  lemma CharsCons(s: string, p: nat, k: nat)
    requires p < k <= |s|
    ensures Chars(s[p..k]) == [Chr(s[p])] + Chars(s[p + 1..k])
    ensures k == |s| ==> s[p..k] == s[p..] && s[p + 1..k] == s[p + 1..]
  {
  }

  function Chars(s: string): (gs: seq<Segment>) {
    seq(|s|, i requires 0 <= i < |s| => Chr(s[i]))
  }

  // ---------- exact references ----------

  /** The Go test: the leftmost match of the pattern is the whole string. */
  function GoExact(t: string): Option<string> {
    var k := FirstRef(t, 0);
    if k < |t| && Quote(BodyAt(t, k).value) == t then BodyAt(t, k) else None
  }

  /** The Python test: the whole string is one quoted body. */
  predicate PyFullMatch(t: string, body: string) {
    ValidBody(body) && t == Quote(body)
  }

  /** Both engines treat the same trimmed strings as exact references, with the same body. */
  lemma ExactTestsAgree(t: string, body: string)
    ensures GoExact(t) == Some(body) <==> PyFullMatch(t, body)
  {
    if PyFullMatch(t, body) {
      BodyAtComplete(t, body);
    }
  }

  // ---------- lookup ----------

  /** White space as strings.TrimSpace knows it: the Unicode property of that name. */
  predicate IsSpace(c: char) {
    || c == ' ' || '\t' <= c <= '\r'
    || c == '\U{85}' || c == '\U{A0}' || c == '\U{1680}' || '\U{2000}' <= c <= '\U{200A}'
    || c == '\U{2028}' || c == '\U{2029}' || c == '\U{202F}' || c == '\U{205F}' || c == '\U{3000}'
  }

  function Trim(s: string): string {
    if s == "" then s
    else if IsSpace(s[0]) then Trim(s[1..])
    else if IsSpace(s[|s| - 1]) then Trim(s[..|s| - 1])
    else s
  }

  /** White space as str.strip knows it: four separators more. */
  predicate PyIsSpace(c: char) {
    IsSpace(c) || '\U{1C}' <= c <= '\U{1F}'
  }

  function PyTrim(s: string): string {
    if s == "" then s
    else if PyIsSpace(s[0]) then PyTrim(s[1..])
    else if PyIsSpace(s[|s| - 1]) then PyTrim(s[..|s| - 1])
    else s
  }

  lemma {:induction false} PyTrimBack(s: string)
    requires s != "" && PyIsSpace(s[|s| - 1])
    ensures PyTrim(s) == PyTrim(s[..|s| - 1])
    decreases |s|
  {
    hide PyIsSpace;
    if PyIsSpace(s[0]) && |s| > 1 {
      PyTrimBack(s[1..]);
      assert s[1..][..|s| - 2] == s[..|s| - 1][1..];
    }
  }

  lemma {:induction false} PyTrimAfter(s: string)
    ensures PyTrim(s) == PyTrim(Trim(s))
    decreases |s|
  {
    if s != "" {
      if IsSpace(s[0]) {
        PyTrimAfter(s[1..]);
      } else if IsSpace(s[|s| - 1]) {
        PyTrimBack(s);
        PyTrimAfter(s[..|s| - 1]);
      }
    }
  }

  lemma {:induction false} PyTrimShorter(s: string)
    ensures |PyTrim(s)| <= |s|
    decreases |s|
  {
    if s != "" {
      if PyIsSpace(s[0]) {
        PyTrimShorter(s[1..]);
      } else if PyIsSpace(s[|s| - 1]) {
        PyTrimShorter(s[..|s| - 1]);
      }
    }
  }

  /** The engines trim a string alike exactly when one of the four separators is not left at an end
      of what the Go engine makes of it. */
  lemma TrimsAgreeExactly(s: string)
    ensures Trim(s) == PyTrim(s) <==>
            var t := Trim(s); t == "" || (!PyIsSpace(t[0]) && !PyIsSpace(t[|t| - 1]))
  {
    var t := Trim(s);
    PyTrimAfter(s);
    hide PyIsSpace;
    if t != "" && PyIsSpace(t[0]) {
      PyTrimShorter(t[1..]);
    } else if t != "" && PyIsSpace(t[|t| - 1]) {
      PyTrimShorter(t[..|t| - 1]);
    }
  }

  /** The dot-separated parts of a path; a path without dots has one part. */
  function Parts(path: string): (ps: seq<string>)
    ensures |ps| > 0
    decreases |path|
  {
    if path == "" then [""]
    else
      var rest := Parts(path[1..]);
      if path[0] == '.' then [""] + rest else [[path[0]] + rest[0]] + rest[1..]
  }

  function Root(path: string): string {
    Parts(path)[0]
  }

  function Descend(node: Value, parts: seq<string>): Option<Value> {
    if parts == [] then Some(node)
    else if node.Obj? && parts[0] in node.fields then Descend(node.fields[parts[0]], parts[1..])
    else None
  }

  function LookupSpec(path: string, scope: Scope): Option<Value> {
    Descend(Obj(scope), Parts(path))
  }

  /** Walks the parts of the path down from the scope; missing keys and non-objects fail. */
  method Lookup(path: string, scope: Scope) returns (r: Option<Value>)
    ensures r == LookupSpec(path, scope)
  {
    var parts := Parts(path);
    var node := Obj(scope);
    var i := 0;
    while i < |parts|
      invariant 0 <= i <= |parts|
      invariant Descend(node, parts[i..]) == LookupSpec(path, scope)
    {
      if !node.Obj? || parts[i] !in node.fields {
        return None;
      }
      assert parts[i..][1..] == parts[i + 1..];
      node := node.fields[parts[i]];
      i := i + 1;
    }
    r := Some(node);
  }

  // ---------- resolution ----------

  function Shown(v: Value, json: Printer): string {
    if v.Str? then v.s else json(v)
  }

  function Filled(g: Segment, scope: Scope, json: Printer): Option<string> {
    match g
    case Chr(c) => Some([c])
    case Ref(body) =>
      match LookupSpec(Trim(body), scope)
      case Some(v) => Some(Shown(v, json))
      case None => None
  }

  function Then(a: Option<string>, b: Option<string>): Option<string> {
    if a.Some? && b.Some? then Some(a.value + b.value) else None
  }

  lemma ThenAssociative(a: Option<string>, b: Option<string>, c: Option<string>)
    ensures Then(Then(a, b), c) == Then(a, Then(b, c)) && Then(a, Some("")) == a == Then(Some(""), a)
  {
    if a.Some? && b.Some? && c.Some? {
      assert (a.value + b.value) + c.value == a.value + (b.value + c.value);
    }
    if a.Some? { assert a.value + "" == a.value == "" + a.value; }
  }

  /** Every segment is filled once, in order; one unresolved reference fails the string. */
  function Fill(gs: seq<Segment>, scope: Scope, json: Printer): Option<string> {
    if gs == [] then Some("") else Then(Filled(gs[0], scope, json), Fill(gs[1..], scope, json))
  }

  function ResolveString(s: string, scope: Scope, json: Printer): Option<Value> {
    match GoExact(Trim(s))
    case Some(body) => LookupSpec(Trim(body), scope)
    case None =>
      match Fill(Segments(s), scope, json)
      case Some(t) => Some(Str(t))
      case None => None
  }

  function Resolve(v: Value, scope: Scope, json: Printer): Option<Value>
    decreases v
  {
    match v
    case Obj(m) =>
      if forall k :: k in m ==> Resolve(m[k], scope, json).Some?
      then Some(Obj(map k | k in m :: Resolve(m[k], scope, json).value))
      else None
    case Arr(a) =>
      if forall i :: 0 <= i < |a| ==> Resolve(a[i], scope, json).Some?
      then Some(Arr(seq(|a|, i requires 0 <= i < |a| => Resolve(a[i], scope, json).value)))
      else None
    case Str(s) => ResolveString(s, scope, json)
    case _ => Some(v)
  }

  lemma {:induction false} FillAppend(a: seq<Segment>, b: seq<Segment>, scope: Scope, json: Printer)
    ensures Fill(a + b, scope, json) == Then(Fill(a, scope, json), Fill(b, scope, json))
    decreases |a|
  {
    if a == [] {
      assert a + b == b;
      ThenAssociative(Fill(b, scope, json), Some(""), Some(""));
    } else {
      assert (a + b)[0] == a[0] && (a + b)[1..] == a[1..] + b;
      FillAppend(a[1..], b, scope, json);
      ThenAssociative(Filled(a[0], scope, json), Fill(a[1..], scope, json), Fill(b, scope, json));
    }
  }

  lemma {:induction false} FillChars(s: string, scope: Scope, json: Printer)
    ensures Fill(Chars(s), scope, json) == Some(s)
    decreases |s|
  {
    if s != "" {
      assert Chars(s)[1..] == Chars(s[1..]);
      FillChars(s[1..], scope, json);
      assert s == [s[0]] + s[1..];
    }
  }

  ghost function FillFrom(s: string, p: nat, scope: Scope, json: Printer): Option<string>
    requires p <= |s|
  {
    Fill(Segments(s[p..]), scope, json)
  }

  /** Inline substitution as the engine performs it: matches are replaced from the left, and
      once a lookup has failed later matches are copied and the failure is reported. */
  method FillInline(s: string, scope: Scope, json: Printer) returns (r: Option<string>)
    ensures r == Fill(Segments(s), scope, json)
  {
    hide Segments, BodyAt, FirstRef, Fill, FillFrom;
    var out, pos, failed := "", 0, false;
    FillStart(s, scope, json);
    while pos < |s|
      invariant 0 <= pos <= |s|
      invariant Fill(Segments(s), scope, json) ==
                if failed then None else Then(Some(out), FillFrom(s, pos, scope, json))
      decreases |s| - pos
    {
      var k := FirstRef(s, pos);
      CopyMove(s, pos, out, scope, json);
      if k == |s| {
        out := out + s[pos..k];
        pos := |s|;
      } else {
        var next := k + RefLength(s, k);
        FillMove(s, k, out + s[pos..k], scope, json);
        var found := Lookup(Trim(BodyAt(s, k).value), scope);
        if failed || found.None? {
          failed := true;
          out := out + s[pos..next];
        } else {
          out := out + s[pos..k] + Shown(found.value, json);
        }
        pos := next;
      }
    }
    FillEnd(s, out, scope, json);
    r := if failed then None else Some(out);
  }

  /** The substitution loop copies the text up to the next reference, then fills that. */
  lemma CopyMove(s: string, p: nat, out: string, scope: Scope, json: Printer)
    requires p <= |s|
    ensures var k := FirstRef(s, p);
            Then(Some(out), FillFrom(s, p, scope, json)) == Then(Some(out + s[p..k]), FillFrom(s, k, scope, json))
  {
    var k := FirstRef(s, p);
    FillUpTo(s, p, scope, json);
    ThenAssociative(Some(out), Some(s[p..k]), FillFrom(s, k, scope, json));
  }

  lemma FillMove(s: string, k: nat, out: string, scope: Scope, json: Printer)
    requires k < |s| && BodyAt(s, k).Some?
    ensures Then(Some(out), FillFrom(s, k, scope, json)) ==
            Then(Then(Some(out), Filled(Ref(BodyAt(s, k).value), scope, json)),
                 FillFrom(s, k + RefLength(s, k), scope, json))
  {
    FillRef(s, k, scope, json);
    ThenAssociative(Some(out), Filled(Ref(BodyAt(s, k).value), scope, json),
                    FillFrom(s, k + RefLength(s, k), scope, json));
  }

  lemma FillStart(s: string, scope: Scope, json: Printer)
    ensures Then(Some(""), FillFrom(s, 0, scope, json)) == Fill(Segments(s), scope, json)
  {
    assert s[0..] == s;
    ThenAssociative(Fill(Segments(s), scope, json), Some(""), Some(""));
  }

  lemma FillEnd(s: string, out: string, scope: Scope, json: Printer)
    ensures Then(Some(out), FillFrom(s, |s|, scope, json)) == Some(out)
  {
    assert s[|s|..] == "";
    ThenAssociative(Some(out), Some(""), Some(""));
  }

  lemma FillUpTo(s: string, p: nat, scope: Scope, json: Printer)
    requires p <= |s|
    ensures var k := FirstRef(s, p);
            FillFrom(s, p, scope, json) == Then(Some(s[p..k]), FillFrom(s, k, scope, json))
  {
    var k := FirstRef(s, p);
    SegmentsFrom(s, p);
    FillChars(s[p..k], scope, json);
    FillAppend(Chars(s[p..k]), Segments(s[k..]), scope, json);
  }

  lemma FillRef(s: string, k: nat, scope: Scope, json: Printer)
    requires k < |s| && BodyAt(s, k).Some?
    ensures FillFrom(s, k, scope, json) ==
            Then(Filled(Ref(BodyAt(s, k).value), scope, json), FillFrom(s, k + RefLength(s, k), scope, json))
  {
    SegmentsAtRef(s, k);
    var tail := Segments(s[k + RefLength(s, k)..]);
    assert ([Ref(BodyAt(s, k).value)] + tail)[1..] == tail;
  }

  /** Substituted text is never scanned again: wherever a reference stands, a string it looks up
      appears verbatim, whatever it contains, between the fillings of the segments before and
      after it, other references among them. */
  lemma NoRescan(s: string, i: nat, t: string, scope: Scope, json: Printer)
    requires i < |Segments(s)| && Segments(s)[i].Ref?
    requires LookupSpec(Trim(Segments(s)[i].body), scope) == Some(Str(t))
    ensures Fill(Segments(s), scope, json) ==
            Then(Then(Fill(Segments(s)[..i], scope, json), Some(t)), Fill(Segments(s)[i + 1..], scope, json))
  {
    var gs := Segments(s);
    var one := [gs[i]];
    assert gs == gs[..i] + (one + gs[i + 1..]);
    FillAppend(gs[..i], one + gs[i + 1..], scope, json);
    FillAppend(one, gs[i + 1..], scope, json);
    assert Fill(one, scope, json) == Some(t) by {
      assert one[1..] == [];
      ThenAssociative(Some(t), Some(""), Some(""));
    }
    ThenAssociative(Fill(gs[..i], scope, json), Some(t), Fill(gs[i + 1..], scope, json));
  }
}
