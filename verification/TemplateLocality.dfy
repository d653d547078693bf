/** What template resolution depends on: exactly the references it mentions. */
module TemplateLocality {
  import opened Values
  import opened Templates

  /** Every reference in v, trimmed as the engine trims it, satisfies `ok`. */
  ghost predicate AllKeys(v: Value, ok: string -> bool)
    decreases v
  {
    match v
    case Obj(m) => forall k :: k in m ==> AllKeys(m[k], ok)
    case Arr(a) => forall i :: 0 <= i < |a| ==> AllKeys(a[i], ok)
    case Str(s) => AllStringKeys(s, ok)
    case _ => true
  }

  ghost predicate AllStringKeys(s: string, ok: string -> bool) {
    match GoExact(Trim(s))
    case Some(body) => ok(Trim(body))
    case None => AllSegmentKeys(Segments(s), ok)
  }

  ghost predicate AllSegmentKeys(gs: seq<Segment>, ok: string -> bool) {
    forall i :: 0 <= i < |gs| && gs[i].Ref? ==> ok(Trim(gs[i].body))
  }

  /** The value mentions scope entries of `roots` only. */
  ghost predicate MentionsOnly(v: Value, roots: set<string>) {
    AllKeys(v, key => Root(key) in roots)
  }

  ghost predicate AgreeOn(a: Scope, b: Scope, roots: set<string>) {
    forall k :: k in roots ==> (k in a <==> k in b) && (k in a ==> a[k] == b[k])
  }

  ghost predicate Extends(b: Scope, a: Scope) {
    forall k :: k in a ==> k in b && b[k] == a[k]
  }

  lemma LookupRoot(path: string, a: Scope, b: Scope)
    requires (Root(path) in a <==> Root(path) in b) && (Root(path) in a ==> a[Root(path)] == b[Root(path)])
    ensures LookupSpec(path, a) == LookupSpec(path, b)
  {
  }

  lemma {:induction false} FillSame(gs: seq<Segment>, ok: string -> bool, a: Scope, b: Scope, json: Printer)
    requires AllSegmentKeys(gs, ok) && forall key :: ok(key) ==> LookupSpec(key, a) == LookupSpec(key, b)
    ensures Fill(gs, a, json) == Fill(gs, b, json)
    decreases |gs|
  {
    if gs != [] {
      assert forall i :: 0 <= i < |gs[1..]| ==> gs[1..][i] == gs[i + 1];
      FillSame(gs[1..], ok, a, b, json);
    }
  }

  lemma {:induction false} FillSucceeds(gs: seq<Segment>, scope: Scope, json: Printer)
    ensures Fill(gs, scope, json).Some? <==> AllSegmentKeys(gs, key => LookupSpec(key, scope).Some?)
    decreases |gs|
  {
    if gs != [] {
      var rest := gs[1..];
      FillSucceeds(rest, scope, json);
      assert forall i :: 0 <= i < |rest| ==> rest[i] == gs[i + 1];
      assert forall i :: 1 <= i < |gs| ==> gs[i] == rest[i - 1];
    }
  }

  lemma ItemsSame(s: seq<Value>, a: Scope, b: Scope, json: Printer)
    requires forall i :: 0 <= i < |s| ==> Resolve(s[i], a, json) == Resolve(s[i], b, json)
    ensures Resolve(Arr(s), a, json) == Resolve(Arr(s), b, json)
  {
    var x, y := Resolve(Arr(s), a, json), Resolve(Arr(s), b, json);
    if x.Some? && y.Some? {
      assert x.value.items == y.value.items;
    }
  }

  lemma FieldsSame(m: map<string, Value>, a: Scope, b: Scope, json: Printer)
    requires forall k :: k in m ==> Resolve(m[k], a, json) == Resolve(m[k], b, json)
    ensures Resolve(Obj(m), a, json) == Resolve(Obj(m), b, json)
  {
    var x, y := Resolve(Obj(m), a, json), Resolve(Obj(m), b, json);
    if x.Some? && y.Some? {
      assert x.value.fields == y.value.fields;
    }
  }

  lemma ItemsPlain(s: seq<Value>, scope: Scope, json: Printer)
    requires forall i :: 0 <= i < |s| ==> Resolve(s[i], scope, json) == Some(s[i])
    ensures Resolve(Arr(s), scope, json) == Some(Arr(s))
  {
    assert Resolve(Arr(s), scope, json).value.items == s;
  }

  lemma FieldsPlain(m: map<string, Value>, scope: Scope, json: Printer)
    requires forall k :: k in m ==> Resolve(m[k], scope, json) == Some(m[k])
    ensures Resolve(Obj(m), scope, json) == Some(Obj(m))
  {
    assert Resolve(Obj(m), scope, json).value.fields == m;
  }

  /** Two scopes that look up every mentioned reference alike resolve the value alike. */
  lemma {:induction false} ResolveSame(v: Value, ok: string -> bool, a: Scope, b: Scope, json: Printer)
    requires AllKeys(v, ok) && forall key :: ok(key) ==> LookupSpec(key, a) == LookupSpec(key, b)
    ensures Resolve(v, a, json) == Resolve(v, b, json)
    decreases v
  {
    match v {
      case Obj(m) =>
        forall k | k in m ensures Resolve(m[k], a, json) == Resolve(m[k], b, json) {
          ResolveSame(m[k], ok, a, b, json);
        }
        FieldsSame(m, a, b, json);
      case Arr(s) =>
        forall i | 0 <= i < |s| ensures Resolve(s[i], a, json) == Resolve(s[i], b, json) {
          ResolveSame(s[i], ok, a, b, json);
        }
        ItemsSame(s, a, b, json);
      case Str(s) =>
        if GoExact(Trim(s)).None? { FillSame(Segments(s), ok, a, b, json); }
      case _ =>
    }
  }

  /** Locality: entries of the scope that are not mentioned have no influence. */
  lemma ResolveLocal(v: Value, a: Scope, b: Scope, roots: set<string>, json: Printer)
    requires MentionsOnly(v, roots) && AgreeOn(a, b, roots)
    ensures Resolve(v, a, json) == Resolve(v, b, json)
  {
    forall key: string | Root(key) in roots ensures LookupSpec(key, a) == LookupSpec(key, b) {
      LookupRoot(key, a, b);
    }
    ResolveSame(v, key => Root(key) in roots, a, b, json);
  }

  /** A value resolves exactly when every reference it mentions can be looked up, so the order
      in which an object's fields are visited cannot decide between success and failure. */
  lemma {:induction false} ResolvesIff(v: Value, scope: Scope, json: Printer)
    ensures Resolve(v, scope, json).Some? <==> AllKeys(v, key => LookupSpec(key, scope).Some?)
    decreases v
  {
    match v {
      case Obj(m) =>
        forall k | k in m
          ensures Resolve(m[k], scope, json).Some? <==> AllKeys(m[k], key => LookupSpec(key, scope).Some?)
        {
          ResolvesIff(m[k], scope, json);
        }
      case Arr(s) =>
        forall i | 0 <= i < |s|
          ensures Resolve(s[i], scope, json).Some? <==> AllKeys(s[i], key => LookupSpec(key, scope).Some?)
        {
          ResolvesIff(s[i], scope, json);
        }
      case Str(s) =>
        if GoExact(Trim(s)).None? { FillSucceeds(Segments(s), scope, json); }
      case _ =>
    }
  }

  /** Adding entries to the scope never changes a result that was already successful. */
  lemma ResolveMonotone(v: Value, a: Scope, b: Scope, json: Printer)
    requires Extends(b, a) && Resolve(v, a, json).Some?
    ensures Resolve(v, b, json) == Resolve(v, a, json)
  {
    ResolvesIff(v, a, json);
    forall key: string | LookupSpec(key, a).Some? ensures LookupSpec(key, a) == LookupSpec(key, b) {
      assert Root(key) in a;
      LookupRoot(key, a, b);
    }
    ResolveSame(v, key => LookupSpec(key, a).Some?, a, b, json);
  }

  /** A value without references resolves to itself in every scope. */
  lemma {:induction false} ResolvePlain(v: Value, scope: Scope, json: Printer)
    requires AllKeys(v, key => false)
    ensures Resolve(v, scope, json) == Some(v)
    decreases v
  {
    match v {
      case Obj(m) =>
        forall k | k in m ensures Resolve(m[k], scope, json) == Some(m[k]) { ResolvePlain(m[k], scope, json); }
        FieldsPlain(m, scope, json);
      case Arr(s) =>
        forall i | 0 <= i < |s| ensures Resolve(s[i], scope, json) == Some(s[i]) { ResolvePlain(s[i], scope, json); }
        ItemsPlain(s, scope, json);
      case Str(s) =>
        FillPlain(Segments(s), scope, json);
        SegmentsSplit(s);
      case _ =>
    }
  }

  lemma {:induction false} FillPlain(gs: seq<Segment>, scope: Scope, json: Printer)
    requires forall i :: 0 <= i < |gs| ==> gs[i].Chr?
    ensures Fill(gs, scope, json) == Some(Flatten(gs))
    decreases |gs|
  {
    if gs != [] { FillPlain(gs[1..], scope, json); }
  }
}
