/** What template resolution means, spelled out: trimming, dotted paths, and the value each kind of
    template resolves to. */
module TemplateMeaning {
  import opened Values
  import opened Templates

  // ---------- trimming ----------

  /** The code points with the Unicode property White_Space. */
  predicate White(c: char) {
    var n := c as int;
    || 9 <= n <= 13 || n == 0x20 || n == 0x85 || n == 0xA0 || n == 0x1680 || 0x2000 <= n <= 0x200A
    || n == 0x2028 || n == 0x2029 || n == 0x202F || n == 0x205F || n == 0x3000
  }

  ghost predicate AllWhite(s: string) {
    forall i :: 0 <= i < |s| ==> White(s[i])
  }

  /** t is s without white space at its ends. */
  ghost predicate Stripped(s: string, t: string) {
    && (exists a, b :: AllWhite(a) && AllWhite(b) && s == a + t + b)
    && (t != "" ==> !White(t[0]) && !White(t[|t| - 1]))
  }

  lemma WhiteIsSpace(c: char)
    ensures White(c) <==> IsSpace(c)
  {
  }

  lemma StrippedBetween(a: string, s: string, b: string, t: string)
    requires AllWhite(a) && AllWhite(b) && Stripped(s, t)
    ensures Stripped(a + s + b, t)
  {
    hide White;
    var c, d :| AllWhite(c) && AllWhite(d) && s == c + t + d;
    assert a + s + b == (a + c) + t + (d + b) && AllWhite(a + c) && AllWhite(d + b);
  }

  lemma OneWhite(c: char)
    requires IsSpace(c)
    ensures AllWhite([c])
  {
    WhiteIsSpace(c);
  }

  lemma StrippedItself(s: string)
    requires s != "" ==> !IsSpace(s[0]) && !IsSpace(s[|s| - 1])
    ensures Stripped(s, s)
  {
    if s != "" {
      WhiteIsSpace(s[0]);
      WhiteIsSpace(s[|s| - 1]);
    }
    hide White, IsSpace;
    assert s == "" + s + "" && AllWhite("");
  }

  lemma {:induction false} TrimStrips(s: string)
    ensures Stripped(s, Trim(s))
    decreases |s|
  {
    hide Stripped, IsSpace, AllWhite;
    assert AllWhite("") by { EmptyWhite(); }
    if s != "" && IsSpace(s[0]) {
      TrimStrips(s[1..]);
      OneWhite(s[0]);
      StrippedBetween([s[0]], s[1..], "", Trim(s));
      assert s == [s[0]] + s[1..] + "";
    } else if s != "" && IsSpace(s[|s| - 1]) {
      var n := |s| - 1;
      TrimStrips(s[..n]);
      OneWhite(s[n]);
      StrippedBetween("", s[..n], [s[n]], Trim(s));
      assert s == "" + s[..n] + [s[n]];
    } else {
      StrippedItself(s);
    }
  }

  lemma EmptyWhite()
    ensures AllWhite("")
  {
  }

  lemma {:induction false} StripTrims(a: string, t: string, b: string)
    requires AllWhite(a) && AllWhite(b) && (t != "" ==> !White(t[0]) && !White(t[|t| - 1]))
    ensures Trim(a + t + b) == t
    decreases |a| + |b|
  {
    hide White, IsSpace;
    var s := a + t + b;
    if s != "" {
      WhiteIsSpace(s[0]);
      WhiteIsSpace(s[|s| - 1]);
      if a != "" {
        assert s[0] == a[0] && s[1..] == a[1..] + t + b;
        StripTrims(a[1..], t, b);
      } else if b != "" {
        var n := |s| - 1;
        assert s[n] == b[|b| - 1] && s[..n] == a + t + b[..|b| - 1];
        if t == "" {
          assert s == b && s[0] == b[0] && s[1..] == a + t + b[1..];
          StripTrims(a, t, b[1..]);
        } else {
          assert s[0] == t[0];
          StripTrims(a, t, b[..|b| - 1]);
        }
      } else {
        assert s == t;
      }
    }
  }

  /** Trimming removes exactly the white space at the ends. */
  lemma TrimMeaning(s: string, t: string)
    ensures t == Trim(s) <==> Stripped(s, t)
  {
    TrimStrips(s);
    if Stripped(s, t) {
      var a, b :| AllWhite(a) && AllWhite(b) && s == a + t + b;
      StripTrims(a, t, b);
    }
  }

  /** Four separators that str.strip removes and strings.TrimSpace does not. */
  predicate Separator(c: char) {
    28 <= c as int <= 31
  }

  lemma PyWhiteIsSpace(c: char)
    ensures PyIsSpace(c) <==> White(c) || Separator(c)
  {
  }

  /** The engines trim a string differently exactly when one of the separators stands at an end of
      what is left without white space at the ends. */
  lemma TrimsDiffer(s: string, t: string)
    requires Stripped(s, t)
    ensures Trim(s) != PyTrim(s) <==> t != "" && (Separator(t[0]) || Separator(t[|t| - 1]))
  {
    TrimMeaning(s, t);
    TrimsAgreeExactly(s);
    if t != "" {
      PyWhiteIsSpace(t[0]);
      PyWhiteIsSpace(t[|t| - 1]);
    }
    hide White, PyIsSpace, Separator, Trim, PyTrim, AllWhite;
  }

  // ---------- dotted paths ----------

  /** The parts with dots between them. */
  function Dotted(parts: seq<string>): string
    requires parts != []
  {
    if |parts| == 1 then parts[0] else parts[0] + "." + Dotted(parts[1..])
  }

  lemma {:induction false} PlainParts(a: string)
    requires '.' !in a
    ensures Parts(a) == [a]
    decreases |a|
  {
    if a != "" {
      PlainParts(a[1..]);
      assert a == [a[0]] + a[1..];
    }
  }

  lemma {:induction false} FirstPart(a: string, rest: string)
    requires '.' !in a
    ensures Parts(a + "." + rest) == [a] + Parts(rest)
    decreases |a|
  {
    var s := a + "." + rest;
    if a == "" {
      assert s[1..] == rest;
    } else {
      FirstPart(a[1..], rest);
      assert s[1..] == a[1..] + "." + rest;
      assert a == [a[0]] + a[1..];
    }
  }

  lemma {:induction false} PartsJoin(path: string)
    ensures Dotted(Parts(path)) == path && forall i :: 0 <= i < |Parts(path)| ==> '.' !in Parts(path)[i]
    decreases |path|
  {
    if path != "" {
      var rest := Parts(path[1..]);
      PartsJoin(path[1..]);
      assert path == [path[0]] + path[1..];
      if path[0] == '.' {
        assert Parts(path)[1..] == rest;
        assert Dotted(Parts(path)) == "" + "." + Dotted(rest);
      } else {
        assert Parts(path)[1..] == rest[1..];
      }
    }
  }

  lemma {:induction false} DottedParts(parts: seq<string>)
    requires parts != [] && forall i :: 0 <= i < |parts| ==> '.' !in parts[i]
    ensures Parts(Dotted(parts)) == parts
    decreases |parts|
  {
    if |parts| == 1 {
      PlainParts(parts[0]);
    } else {
      DottedParts(parts[1..]);
      FirstPart(parts[0], Dotted(parts[1..]));
    }
  }

  /** A path has one split into parts without dots that give the path when dots are put between. */
  lemma PartsMeaning(path: string, parts: seq<string>)
    ensures parts == Parts(path) <==>
            parts != [] && (forall i :: 0 <= i < |parts| ==> '.' !in parts[i]) && Dotted(parts) == path
  {
    PartsJoin(path);
    if parts != [] && (forall i :: 0 <= i < |parts| ==> '.' !in parts[i]) { DottedParts(parts); }
  }

  lemma DescendCons(node: Value, key: string, rest: seq<string>)
    requires node.Obj? && key in node.fields
    ensures Descend(node, [key] + rest) == Descend(node.fields[key], rest)
  {
    assert ([key] + rest)[1..] == rest;
  }

  lemma TwoParts(a: string, b: string)
    requires '.' !in a && '.' !in b
    ensures Parts(a + "." + b) == [a] + [b]
  {
    hide Parts;
    FirstPart(a, b);
    PlainParts(b);
  }

  lemma ThreeParts(a: string, b: string, rest: string)
    requires '.' !in a && '.' !in b
    ensures Parts(a + "." + (b + "." + rest)) == [a] + ([b] + Parts(rest))
  {
    hide Parts;
    FirstPart(a, b + "." + rest);
    FirstPart(b, rest);
  }

  /** The values met on the way down from a value along the parts of a path. */
  ghost predicate Walk(root: Value, parts: seq<string>, nodes: seq<Value>) {
    && |nodes| == |parts| + 1 && nodes[0] == root
    && forall i :: 0 <= i < |parts| ==>
         nodes[i].Obj? && parts[i] in nodes[i].fields && nodes[i].fields[parts[i]] == nodes[i + 1]
  }

  lemma {:induction false} WalkDescends(root: Value, parts: seq<string>, nodes: seq<Value>)
    requires Walk(root, parts, nodes)
    ensures Descend(root, parts) == Some(nodes[|parts|])
    decreases |parts|
  {
    if parts != [] { WalkDescends(nodes[1], parts[1..], nodes[1..]); }
  }

  lemma {:induction false} DescentWalks(root: Value, parts: seq<string>) returns (nodes: seq<Value>)
    requires Descend(root, parts).Some?
    ensures Walk(root, parts, nodes) && nodes[|parts|] == Descend(root, parts).value
    decreases |parts|
  {
    if parts == [] {
      nodes := [root];
    } else {
      var rest := DescentWalks(root.fields[parts[0]], parts[1..]);
      nodes := [root] + rest;
      assert forall i :: 0 < i < |parts| ==> parts[i] == parts[1..][i - 1];
    }
  }

  /** A reference yields a value exactly when one can walk down to it through objects, one field for
      each part between the dots. */
  lemma LookupMeaning(path: string, parts: seq<string>, scope: Scope, v: Value)
    requires parts != [] && (forall i :: 0 <= i < |parts| ==> '.' !in parts[i]) && Dotted(parts) == path
    ensures LookupSpec(path, scope) == Some(v) <==> exists nodes :: Walk(Obj(scope), parts, nodes) && nodes[|parts|] == v
  {
    PartsMeaning(path, parts);
    hide Parts, Dotted, Descend;
    if LookupSpec(path, scope) == Some(v) {
      var nodes := DescentWalks(Obj(scope), parts);
    }
    forall nodes | Walk(Obj(scope), parts, nodes) && nodes[|parts|] == v ensures LookupSpec(path, scope) == Some(v) {
      WalkDescends(Obj(scope), parts, nodes);
    }
  }

  // ---------- what templates resolve to ----------

  /** A string that is one reference, white space aside, resolves to the value it looks up, of
      whatever kind, and fails if there is none. */
  lemma ResolveExact(s: string, body: string, scope: Scope, json: Printer)
    requires Stripped(s, "${" + body + "}") && body != "" && '}' !in body
    ensures Resolve(Str(s), scope, json) == LookupSpec(Trim(body), scope)
  {
    TrimMeaning(s, "${" + body + "}");
    ExactTestsAgree(Trim(s), body);
  }

  /** The string is one reference to the path, with white space allowed around it and inside. */
  ghost predicate RefersTo(s: string, path: string) {
    exists body :: Stripped(s, "${" + body + "}") && '}' !in body && Stripped(body, path)
  }

  lemma ResolveReference(s: string, path: string, scope: Scope, json: Printer)
    requires RefersTo(s, path) && path != ""
    ensures Resolve(Str(s), scope, json) == LookupSpec(path, scope)
  {
    hide Stripped, Resolve, LookupSpec, Trim;
    var body :| Stripped(s, "${" + body + "}") && '}' !in body && Stripped(body, path);
    TrimMeaning(body, path);
    StrippedKeeps(body, path);
    ResolveExact(s, body, scope, json);
  }

  lemma NothingRefers()
    ensures forall path :: !RefersTo("", path)
  {
  }

  lemma StrippedKeeps(s: string, t: string)
    requires Stripped(s, t) && t != ""
    ensures s != ""
  {
    hide AllWhite, White;
  }

  /** The plain way to write a reference. */
  lemma PlainReference(path: string)
    requires path != "" && '}' !in path && !White(path[0]) && !White(path[|path| - 1])
    ensures RefersTo("${" + path + "}", path)
  {
    WhiteIsSpace(path[0]);
    WhiteIsSpace(path[|path| - 1]);
    StrippedItself(path);
    StrippedItself("${" + path + "}");
    hide Stripped, White, IsSpace;
  }

  /** What stands for a segment: the character itself, a string looked up as it is, any other value
      as it is printed. */
  ghost predicate Piece(g: Segment, scope: Scope, json: Printer, p: string) {
    match g
    case Chr(c) => p == [c]
    case Ref(body) =>
      match LookupSpec(Trim(body), scope)
      case None => false
      case Some(Str(x)) => p == x
      case Some(v) => p == json(v)
  }

  function Concat(pieces: seq<string>): string {
    if pieces == [] then "" else pieces[0] + Concat(pieces[1..])
  }

  lemma {:induction false} FillConcat(gs: seq<Segment>, scope: Scope, json: Printer, pieces: seq<string>)
    requires |pieces| == |gs| && forall i :: 0 <= i < |gs| ==> Piece(gs[i], scope, json, pieces[i])
    ensures Fill(gs, scope, json) == Some(Concat(pieces))
    decreases |gs|
  {
    if gs != [] {
      FillConcat(gs[1..], scope, json, pieces[1..]);
      assert Piece(gs[0], scope, json, pieces[0]);
    }
  }

  lemma ExactIsStripped(s: string, body: string)
    requires GoExact(Trim(s)) == Some(body)
    ensures Stripped(s, "${" + body + "}") && body != "" && '}' !in body
  {
    ExactTestsAgree(Trim(s), body);
    TrimStrips(s);
    hide Stripped;
  }

  /** Any other string resolves to the concatenation of what stands for its segments. */
  lemma ResolveInline(s: string, pieces: seq<string>, scope: Scope, json: Printer)
    requires forall body :: body != "" && '}' !in body ==> !Stripped(s, "${" + body + "}")
    requires |pieces| == |Segments(s)|
    requires forall i :: 0 <= i < |pieces| ==> Piece(Segments(s)[i], scope, json, pieces[i])
    ensures Resolve(Str(s), scope, json) == Some(Str(Concat(pieces)))
  {
    hide Stripped;
    if GoExact(Trim(s)).Some? { ExactIsStripped(s, GoExact(Trim(s)).value); }
    FillConcat(Segments(s), scope, json, pieces);
  }

  /** An array resolves element by element, in place. */
  lemma ResolveArray(a: seq<Value>, scope: Scope, json: Printer, r: Value)
    ensures Resolve(Arr(a), scope, json) == Some(r) <==>
            r.Arr? && |r.items| == |a| && forall i :: 0 <= i < |a| ==> Resolve(a[i], scope, json) == Some(r.items[i])
  {
    if r.Arr? && |r.items| == |a| && forall i :: 0 <= i < |a| ==> Resolve(a[i], scope, json) == Some(r.items[i]) {
      assert Resolve(Arr(a), scope, json).value.items == r.items;
    }
  }

  /** An object resolves field by field, under the same names. */
  lemma ResolveObject(m: map<string, Value>, scope: Scope, json: Printer, r: Value)
    ensures Resolve(Obj(m), scope, json) == Some(r) <==>
            r.Obj? && r.fields.Keys == m.Keys && forall k :: k in m ==> Resolve(m[k], scope, json) == Some(r.fields[k])
  {
    if r.Obj? && r.fields.Keys == m.Keys && forall k :: k in m ==> Resolve(m[k], scope, json) == Some(r.fields[k]) {
      assert Resolve(Obj(m), scope, json).value.fields == r.fields;
    }
  }
}
