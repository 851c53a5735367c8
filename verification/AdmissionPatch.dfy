/** The admission webhook's JSON Patch: building it from annotation maps, and what applying it does
    to the object. Strings are byte strings, as in Go. */
module AdmissionPatch {
  import opened Options

  // ----- Escaping, sections 3 and 4 of RFC 6901 -----

  /** strings.ReplaceAll for a one-character pattern */
  function ReplaceChar(s: string, c: char, with: string): string {
    if s == "" then "" else (if s[0] == c then with else [s[0]]) + ReplaceChar(s[1..], c, with)
  }

  /** strings.ReplaceAll for a two-character pattern */
  function ReplacePair(s: string, a: char, b: char, with: char): string {
    if s == "" then ""
    else if |s| >= 2 && s[0] == a && s[1] == b then [with] + ReplacePair(s[2..], a, b, with)
    else [s[0]] + ReplacePair(s[1..], a, b, with)
  }

  function Escape(s: string): string {
    ReplaceChar(ReplaceChar(s, '~', "~0"), '/', "~1")
  }

  /** First "~1" becomes "/", then "~0" becomes "~". */
  function Unescape(t: string): string {
    ReplacePair(ReplacePair(t, '~', '1', '/'), '~', '0', '~')
  }

  predicate TildeZero(s: string) {
    forall i :: 0 <= i < |s| && s[i] == '~' ==> i + 1 < |s| && s[i + 1] == '0'
  }

  lemma {:induction false} TildesEscaped(s: string)
    ensures TildeZero(ReplaceChar(s, '~', "~0"))
    ensures ReplacePair(ReplaceChar(s, '~', "~0"), '~', '0', '~') == s
  {
    if s != "" {
      TildesEscaped(s[1..]);
      var rest, all := ReplaceChar(s[1..], '~', "~0"), ReplaceChar(s, '~', "~0");
      assert s == [s[0]] + s[1..];
      if s[0] == '~' {
        assert all == "~0" + rest;
        assert all[2..] == rest;
      } else {
        assert all == [s[0]] + rest;
        assert all[1..] == rest;
      }
    }
  }

  lemma {:induction false} SlashesEscaped(s: string)
    requires TildeZero(s)
    ensures ReplacePair(ReplaceChar(s, '/', "~1"), '~', '1', '/') == s
    ensures '/' !in ReplaceChar(s, '/', "~1")
  {
    if s != "" {
      assert TildeZero(s[1..]) by {
        assert forall i :: 0 <= i < |s[1..]| ==> s[1..][i] == s[i + 1];
      }
      SlashesEscaped(s[1..]);
      var rest, all := ReplaceChar(s[1..], '/', "~1"), ReplaceChar(s, '/', "~1");
      assert s == [s[0]] + s[1..];
      if s[0] == '/' {
        assert all == "~1" + rest;
        assert all[2..] == rest;
      } else {
        assert all == [s[0]] + rest;
        assert all[1..] == rest;
        if s[0] == '~' {
          assert s[1] == '0';
          assert rest[0] == '0';
        }
      }
    }
  }

  /** Escaping round-trips for every string, and leaves no separator behind. */
  lemma EscapeRoundTrip(s: string)
    ensures Unescape(Escape(s)) == s
    ensures '/' !in Escape(s)
  {
    TildesEscaped(s);
    SlashesEscaped(ReplaceChar(s, '~', "~0"));
  }

  lemma {:induction false} NoTildeUnchanged(s: string, b: char, with: char)
    requires '~' !in s
    ensures ReplacePair(s, '~', b, with) == s
  {
    if s != "" {
      NoTildeUnchanged(s[1..], b, with);
      assert s == [s[0]] + s[1..];
    }
  }

  // ----- Pointers -----

  function Split(s: string): (parts: seq<string>)
    ensures |parts| >= 1
  {
    if s == "" then [""] else
    var r := Split(s[..|s| - 1]);
    var last := s[|s| - 1];
    if last == '/' then r + [""] else r[..|r| - 1] + [r[|r| - 1] + [last]]
  }

  /** The reference tokens of a pointer. */
  function Tokens(pointer: string): seq<string> {
    var parts := Split(pointer)[1..];
    seq(|parts|, i requires 0 <= i < |parts| => Unescape(parts[i]))
  }

  lemma {:induction false} SplitAppend(s: string, t: string)
    requires '/' !in t
    ensures Split(s + "/" + t) == Split(s) + [t]
  {
    var all := s + "/" + t;
    if t == "" {
      assert all[..|all| - 1] == s;
    } else {
      SplitAppend(s, t[..|t| - 1]);
      assert all[..|all| - 1] == s + "/" + t[..|t| - 1];
      assert t == t[..|t| - 1] + [t[|t| - 1]];
    }
  }

  lemma TokensAppend(pointer: string, t: string)
    requires '/' !in t
    ensures Tokens(pointer + "/" + t) == Tokens(pointer) + [Unescape(t)]
  {
    SplitAppend(pointer, t);
    assert (Split(pointer) + [t])[1..] == Split(pointer)[1..] + [t];
  }

  lemma PlainToken(pointer: string, t: string)
    requires '/' !in t && '~' !in t
    ensures Tokens(pointer + "/" + t) == Tokens(pointer) + [t]
  {
    TokensAppend(pointer, t);
    NoTildeUnchanged(t, '1', '/');
    NoTildeUnchanged(t, '0', '~');
  }

  // ----- Documents and JSON Patch add, section 4.1 of RFC 6902 -----

  /** Other stands for numbers, booleans, null and arrays; no pointer here leads into an array. */
  datatype Doc = Str(s: string) | Obj(fields: map<string, Doc>) | Other(n: int)

  function Get(doc: Doc, path: seq<string>): Option<Doc>
    decreases |path|
  {
    if path == [] then Some(doc)
    else if doc.Obj? && path[0] in doc.fields then Get(doc.fields[path[0]], path[1..])
    else None
  }

  /** The parent must exist and be an object; a present member is replaced. */
  function AddAt(doc: Doc, path: seq<string>, value: Doc): Option<Doc>
    decreases |path|
  {
    if path == [] then Some(value)
    else if !doc.Obj? then None
    else if |path| == 1 then Some(Obj(doc.fields[path[0] := value]))
    else if path[0] !in doc.fields then None
    else match AddAt(doc.fields[path[0]], path[1..], value)
      case None => None
      case Some(sub) => Some(Obj(doc.fields[path[0] := sub]))
  }

  datatype PatchOp = Add(path: string, value: Doc)

  function ApplyAll(doc: Doc, ops: seq<PatchOp>): Option<Doc> {
    if ops == [] then Some(doc) else
    match ApplyAll(doc, ops[..|ops| - 1])
    case None => None
    case Some(d) => AddAt(d, Tokens(ops[|ops| - 1].path), ops[|ops| - 1].value)
  }

  predicate IsObj(d: Option<Doc>) {
    d.Some? && d.value.Obj?
  }

  /** Adding succeeds exactly when the parent is an object, and puts the value there. */
  lemma {:induction false} AddExact(doc: Doc, path: seq<string>, value: Doc)
    requires path != []
    ensures AddAt(doc, path, value).Some? <==> IsObj(Get(doc, path[..|path| - 1]))
    ensures AddAt(doc, path, value).Some? ==> Get(AddAt(doc, path, value).value, path) == Some(value)
    decreases |path|
  {
    if |path| > 1 && doc.Obj? && path[0] in doc.fields {
      AddExact(doc.fields[path[0]], path[1..], value);
      assert path[..|path| - 1][1..] == path[1..][..|path| - 2];
    } else if |path| == 1 {
      assert path[..0] == [];
    }
  }

  ghost predicate Apart(p: seq<string>, q: seq<string>) {
    exists i :: 0 <= i < |p| && i < |q| && p[..i] == q[..i] && p[i] != q[i]
  }

  /** Adding changes nothing beside its own path. */
  lemma {:induction false} AddElsewhere(doc: Doc, path: seq<string>, value: Doc, q: seq<string>)
    requires Apart(path, q) && AddAt(doc, path, value).Some?
    ensures Get(AddAt(doc, path, value).value, q) == Get(doc, q)
    decreases |path|
  {
    if path[0] == q[0] {
      var i :| 0 <= i < |path| && i < |q| && path[..i] == q[..i] && path[i] != q[i];
      assert path[1..][..i - 1] == path[..i][1..] && q[1..][..i - 1] == q[..i][1..];
      AddElsewhere(doc.fields[path[0]], path[1..], value, q[1..]);
    }
  }

  /** Adding a member to an object at a path is adding the larger object there. */
  lemma {:induction false} AddMember(doc: Doc, path: seq<string>, key: string, value: Doc)
    requires IsObj(Get(doc, path))
    ensures AddAt(doc, path + [key], value) == AddAt(doc, path, Obj(Get(doc, path).value.fields[key := value]))
    ensures AddAt(doc, path + [key], value).Some?
    decreases |path|
  {
    if path == [] {
      assert path + [key] == [key];
    } else {
      assert (path + [key])[1..] == path[1..] + [key];
      AddMember(doc.fields[path[0]], path[1..], key, value);
      if |path| == 1 {
        assert path[1..] == [];
      }
    }
  }

  /** The second of two values added at the same place stays. */
  lemma {:induction false} AddTwice(doc: Doc, path: seq<string>, v: Doc, w: Doc)
    requires path != [] && AddAt(doc, path, v).Some?
    ensures AddAt(AddAt(doc, path, v).value, path, w) == AddAt(doc, path, w)
    decreases |path|
  {
    if |path| > 1 {
      AddTwice(doc.fields[path[0]], path[1..], v, w);
      var sub := AddAt(doc.fields[path[0]], path[1..], v).value;
      assert doc.fields[path[0] := sub][path[0] := sub] == doc.fields[path[0] := sub];
      if AddAt(doc.fields[path[0]], path[1..], w).Some? {
        var sub' := AddAt(doc.fields[path[0]], path[1..], w).value;
        assert doc.fields[path[0] := sub][path[0] := sub'] == doc.fields[path[0] := sub'];
      }
    } else {
      assert doc.fields[path[0] := v][path[0] := w] == doc.fields[path[0] := w];
    }
  }

  // ----- Annotation maps -----

  type Annotations = map<string, string>

  const LIMIT := 200 * 1024

  function AnnDoc(m: Annotations): Doc {
    Obj(map k | k in m :: Str(m[k]))
  }

  /** The total length of keys and values. */
  ghost function Bytes(m: Annotations): nat {
    if m == map[] then 0 else
    var k :| k in m;
    |k| + |m[k]| + Bytes(m - {k})
  }

  lemma {:induction false} BytesAny(m: Annotations, k: string)
    requires k in m
    ensures Bytes(m) == |k| + |m[k]| + Bytes(m - {k})
    decreases |m|
  {
    var j: string :| j in m && Bytes(m) == |j| + |m[j]| + Bytes(m - {j});
    if j != k {
      BytesAny(m - {j}, k);
      BytesAny(m - {k}, j);
      assert m - {j} - {k} == m - {k} - {j};
    }
  }

  method AnnotationBytes(m: Annotations) returns (total: nat)
    ensures total == Bytes(m)
  {
    total := 0;
    var todo := m;
    while todo != map[]
      invariant forall k :: k in todo ==> k in m && todo[k] == m[k]
      invariant total + Bytes(todo) == Bytes(m)
      decreases |todo|
    {
      assert todo.Keys != {};
      var k :| k in todo.Keys;
      BytesAny(todo, k);
      total := total + |k| + |todo[k]|;
      todo := todo - {k};
    }
  }

  /** What the provider offers and the object does not have. */
  function Missing(existing: Annotations, offered: Annotations): Annotations {
    map k | k in offered && k !in existing :: offered[k]
  }

  // ----- Building the patch -----

  /** The operations add each key of the list below the base, in order and once. */
  ghost predicate AddsKeys(ops: seq<PatchOp>, base: string, keys: seq<string>, from: Annotations) {
    && |ops| == |keys|
    && (forall i, j :: 0 <= i < j < |keys| ==> keys[i] != keys[j])
    && (forall i :: 0 <= i < |keys| ==>
          keys[i] in from && ops[i] == Add(base + "/" + Escape(keys[i]), Str(from[keys[i]])))
  }

  method BuildPatch(existing: Annotations, wanted: Annotations, base: string) returns (ops: seq<PatchOp>, ghost keys: seq<string>)
    ensures wanted == map[] ==> ops == []
    ensures wanted != map[] && existing == map[] ==> ops == [Add(base, AnnDoc(wanted))]
    ensures wanted != map[] && existing != map[] ==>
              AddsKeys(ops, base, keys, wanted) && forall k :: k in keys <==> k in wanted && k !in existing
  {
    ops, keys := [], [];
    if wanted == map[] {
      return;
    }
    if existing == map[] {
      ops := [Add(base, AnnDoc(wanted))];
      return;
    }
    var todo := wanted.Keys;
    while todo != {}
      invariant todo <= wanted.Keys
      invariant AddsKeys(ops, base, keys, wanted)
      invariant forall k :: k in keys <==> k in wanted && k !in todo && k !in existing
      decreases todo
    {
      var k :| k in todo;
      todo := todo - {k};
      if k !in existing {
        ops := ops + [Add(base + "/" + Escape(k), Str(wanted[k]))];
        keys := keys + [k];
      }
    }
  }

  /** The annotations after the first operations. */
  function With(existing: Annotations, keys: seq<string>, from: Annotations): Annotations
    requires forall i :: 0 <= i < |keys| ==> keys[i] in from
  {
    if keys == [] then existing
    else With(existing, keys[..|keys| - 1], from)[keys[|keys| - 1] := from[keys[|keys| - 1]]]
  }

  lemma {:induction false} WithAll(existing: Annotations, keys: seq<string>, from: Annotations)
    requires forall i :: 0 <= i < |keys| ==> keys[i] in from
    ensures With(existing, keys, from) == existing + (map k | k in keys :: from[k])
  {
    if keys != [] {
      var front, last := keys[..|keys| - 1], keys[|keys| - 1];
      WithAll(existing, front, from);
      hide With;
      assert keys == front + [last];
      var some, all := map k | k in front :: from[k], map k | k in keys :: from[k];
      assert all == some[last := from[last]];
      assert (existing + some)[last := from[last]] == existing + some[last := from[last]];
    }
  }

  lemma AnnDocMore(m: Annotations, k: string, v: string)
    ensures Obj(AnnDoc(m).fields[k := Str(v)]) == AnnDoc(m[k := v])
  {
  }

  lemma {:induction false} KeyByKey(doc: Doc, base: string, ops: seq<PatchOp>, keys: seq<string>, existing: Annotations, from: Annotations)
    requires AddsKeys(ops, base, keys, from) && Tokens(base) != []
    requires Get(doc, Tokens(base)) == Some(AnnDoc(existing))
    ensures ApplyAll(doc, ops) == AddAt(doc, Tokens(base), AnnDoc(With(existing, keys, from)))
    ensures ApplyAll(doc, ops).Some?
    decreases |ops|
  {
    var t := Tokens(base);
    AddExact(doc, t, AnnDoc(With(existing, keys, from)));
    ParentIsObj(doc, t);
    if ops == [] {
      AddSame(doc, t);
    } else {
      var n := |keys| - 1;
      KeyByKey(doc, base, ops[..n], keys[..n], existing, from);
      var before := With(existing, keys[..n], from);
      var d := ApplyAll(doc, ops[..n]).value;
      AddExact(doc, t, AnnDoc(before));
      EscapeRoundTrip(keys[n]);
      TokensAppend(base, Escape(keys[n]));
      AddMember(d, t, keys[n], Str(from[keys[n]]));
      AnnDocMore(before, keys[n], from[keys[n]]);
      AddTwice(doc, t, AnnDoc(before), AnnDoc(With(existing, keys, from)));
    }
  }

  lemma {:induction false} ParentIsObj(doc: Doc, path: seq<string>)
    requires path != [] && Get(doc, path).Some?
    ensures IsObj(Get(doc, path[..|path| - 1]))
    decreases |path|
  {
    if |path| > 1 {
      ParentIsObj(doc.fields[path[0]], path[1..]);
      assert path[..|path| - 1][1..] == path[1..][..|path| - 2];
    } else {
      assert path[..0] == [];
    }
  }

  lemma {:induction false} AddSame(doc: Doc, path: seq<string>)
    requires path != [] && Get(doc, path).Some?
    ensures AddAt(doc, path, Get(doc, path).value) == Some(doc)
    decreases |path|
  {
    if |path| > 1 {
      AddSame(doc.fields[path[0]], path[1..]);
    } else {
      assert path[1..] == [];
    }
    assert doc.fields[path[0] := doc.fields[path[0]]] == doc.fields;
  }

  // ----- The merged patch -----

  /** What a provider resolved; None when it failed. */
  datatype Resolved = Resolved(runtimeClass: string, annotations: Annotations)

  predicate IsBatch(kind: string) {
    kind == "BatchSandbox"
  }

  function AnnotationsPath(kind: string): string {
    if IsBatch(kind) then "/spec/template/metadata/annotations" else "/metadata/annotations"
  }

  function RuntimeClassPath(kind: string): string {
    if IsBatch(kind) then "/spec/template/spec/runtimeClassName" else "/spec/runtimeClassName"
  }

  function AnnotationsTokens(kind: string): seq<string> {
    if IsBatch(kind) then ["spec", "template", "metadata", "annotations"] else ["metadata", "annotations"]
  }

  function RuntimeClassTokens(kind: string): seq<string> {
    if IsBatch(kind) then ["spec", "template", "spec", "runtimeClassName"] else ["spec", "runtimeClassName"]
  }

  lemma PlainStep(path: string, tokens: seq<string>, t: string, longer: string)
    requires Tokens(path) == tokens && '/' !in t && '~' !in t && longer == path + "/" + t
    ensures Tokens(longer) == tokens + [t]
  {
    PlainToken(path, t);
  }

  /** A pointer of two plain tokens below one already read. */
  lemma TwoSteps(path: string, tokens: seq<string>, a: string, b: string, longer: string)
    requires Tokens(path) == tokens && longer == path + "/" + a + "/" + b
    requires '/' !in a && '~' !in a && '/' !in b && '~' !in b
    ensures Tokens(longer) == tokens + [a, b]
  {
    hide Tokens;
    PlainStep(path, tokens, a, path + "/" + a);
    PlainStep(path + "/" + a, tokens + [a], b, longer);
  }

  lemma RootPath()
    ensures Tokens("") == []
  {
    assert Split("") == [""];
  }

  lemma PodPaths()
    ensures Tokens("/metadata/annotations") == ["metadata", "annotations"]
    ensures Tokens("/spec/runtimeClassName") == ["spec", "runtimeClassName"]
  {
    hide Tokens;
    RootPath();
    TwoSteps("", [], "metadata", "annotations", "/metadata/annotations");
    TwoSteps("", [], "spec", "runtimeClassName", "/spec/runtimeClassName");
  }

  lemma TemplatePath()
    ensures Tokens("/spec/template") == ["spec", "template"]
  {
    hide Tokens;
    RootPath();
    TwoSteps("", [], "spec", "template", "/spec/template");
  }

  lemma BatchPaths()
    ensures Tokens("/spec/template/metadata/annotations") == ["spec", "template", "metadata", "annotations"]
    ensures Tokens("/spec/template/spec/runtimeClassName") == ["spec", "template", "spec", "runtimeClassName"]
  {
    hide Tokens;
    TemplatePath();
    var t := ["spec", "template"];
    TwoSteps("/spec/template", t, "metadata", "annotations", "/spec/template/metadata/annotations");
    TwoSteps("/spec/template", t, "spec", "runtimeClassName", "/spec/template/spec/runtimeClassName");
  }

  lemma FixedPaths(kind: string)
    ensures Tokens(AnnotationsPath(kind)) == AnnotationsTokens(kind)
    ensures Tokens(RuntimeClassPath(kind)) == RuntimeClassTokens(kind)
    ensures Apart(RuntimeClassTokens(kind), AnnotationsTokens(kind))
  {
    hide Tokens;
    PodPaths();
    BatchPaths();
    FixedTokensApart(kind);
  }

  lemma FixedTokensApart(kind: string)
    ensures Apart(RuntimeClassTokens(kind), AnnotationsTokens(kind))
  {
    var p, q := RuntimeClassTokens(kind), AnnotationsTokens(kind);
    if IsBatch(kind) {
      assert p[..2] == q[..2] && p[2] != q[2];
    } else {
      assert p[..0] == q[..0] && p[0] != q[0];
    }
  }

  function ChosenClass(result: Option<Resolved>, handler: string): string {
    if result.Some? && result.value.runtimeClass != "" then result.value.runtimeClass else handler
  }

  function Offered(result: Option<Resolved>): Annotations {
    if result.Some? then result.value.annotations else map[]
  }

  /** deltas and merged are filled key by key, in any order. */
  method CollectMissing(existing: Annotations, offered: Annotations) returns (deltas: Annotations, merged: Annotations)
    ensures deltas == Missing(existing, offered) && merged == existing + deltas
  {
    deltas, merged := map[], existing;
    var todo := offered.Keys;
    while todo != {}
      invariant todo <= offered.Keys
      invariant deltas == map k | k in offered && k !in todo && k !in existing :: offered[k]
      invariant merged == existing + deltas
      decreases todo
    {
      var k :| k in todo;
      todo := todo - {k};
      if k !in existing {
        deltas := deltas[k := offered[k]];
        merged := merged[k := offered[k]];
      }
    }
  }

  predicate SetsClass(result: Option<Resolved>, handler: string, runtimeClassSet: bool) {
    !runtimeClassSet && ChosenClass(result, handler) != ""
  }

  /** Something is missing, and with it the annotations stay within the limit. */
  ghost predicate Injects(existing: Annotations, result: Option<Resolved>) {
    var deltas := Missing(existing, Offered(result));
    deltas != map[] && Bytes(existing + deltas) <= LIMIT
  }

  /** The runtime class first, if it is to be set; then the annotations, if any are injected. */
  ghost predicate IsMergedPatch(kind: string, existing: Annotations, result: Option<Resolved>, handler: string,
                                runtimeClassSet: bool, ops: seq<PatchOp>, keys: seq<string>)
  {
    var first := ClassOps(kind, result, handler, runtimeClassSet);
    var deltas := Missing(existing, Offered(result));
    first <= ops && var more := ops[|first|..];
    if !Injects(existing, result) then more == []
    else if existing == map[] then more == [Add(AnnotationsPath(kind), AnnDoc(deltas))]
    else AddsKeys(more, AnnotationsPath(kind), keys, deltas) && forall k :: k in keys <==> k in deltas
  }

  function ClassOps(kind: string, result: Option<Resolved>, handler: string, runtimeClassSet: bool): seq<PatchOp> {
    if SetsClass(result, handler, runtimeClassSet)
    then [Add(RuntimeClassPath(kind), Str(ChosenClass(result, handler)))] else []
  }

  // ----- What the patch means -----

  function Parent(path: seq<string>): seq<string>
    requires path != []
  {
    path[..|path| - 1]
  }

  /** The object carries the annotations that were read from it. */
  ghost predicate Carries(doc: Doc, kind: string, existing: Annotations) {
    existing != map[] ==> Get(doc, AnnotationsTokens(kind)) == Some(AnnDoc(existing))
  }

  /** Whatever is to be written has an object to be written into. */
  ghost predicate ParentsPresent(doc: Doc, kind: string, existing: Annotations, result: Option<Resolved>,
                                 handler: string, runtimeClassSet: bool)
  {
    && (SetsClass(result, handler, runtimeClassSet) ==> IsObj(Get(doc, Parent(RuntimeClassTokens(kind)))))
    && (Injects(existing, result) ==> IsObj(Get(doc, Parent(AnnotationsTokens(kind)))))
  }

  /** An add that has no effect where it does not succeed. */
  function Put(doc: Doc, path: seq<string>, value: Doc): Doc {
    match AddAt(doc, path, value)
    case Some(d) => d
    case None => doc
  }

  /** The object that should result: the chosen class if none was set, and one annotation map. */
  ghost function Expected(doc: Doc, kind: string, existing: Annotations, result: Option<Resolved>, handler: string,
                          runtimeClassSet: bool): Doc
  {
    var d := if SetsClass(result, handler, runtimeClassSet)
             then Put(doc, RuntimeClassTokens(kind), Str(ChosenClass(result, handler))) else doc;
    if Injects(existing, result)
    then Put(d, AnnotationsTokens(kind), AnnDoc(existing + Missing(existing, Offered(result)))) else d
  }

  lemma {:induction false} ApplyJoin(doc: Doc, a: seq<PatchOp>, b: seq<PatchOp>)
    ensures ApplyAll(doc, a + b) == if ApplyAll(doc, a).None? then None else ApplyAll(ApplyAll(doc, a).value, b)
    decreases |b|
  {
    if b == [] {
      assert a + b == a;
    } else {
      ApplyJoin(doc, a, b[..|b| - 1]);
      assert (a + b)[..|a + b| - 1] == a + b[..|b| - 1];
    }
  }

  lemma ApplyOne(doc: Doc, op: PatchOp)
    ensures ApplyAll(doc, [op]) == AddAt(doc, Tokens(op.path), op.value)
  {
    assert [op][..0] == [];
  }

  /** The annotation operations, whatever the order of the keys. */
  lemma AnnotationOps(doc: Doc, kind: string, existing: Annotations, deltas: Annotations, more: seq<PatchOp>, keys: seq<string>)
    requires Carries(doc, kind, existing)
    requires if existing == map[] then more == [Add(AnnotationsPath(kind), AnnDoc(deltas))]
             else AddsKeys(more, AnnotationsPath(kind), keys, deltas) && forall k :: k in keys <==> k in deltas
    ensures ApplyAll(doc, more) == AddAt(doc, AnnotationsTokens(kind), AnnDoc(existing + deltas))
    ensures ApplyAll(doc, more).Some? <==> IsObj(Get(doc, Parent(AnnotationsTokens(kind))))
  {
    hide Tokens, AddAt, Get, AnnDoc, AnnotationsPath, ApplyAll, With;
    FixedPaths(kind);
    var t := AnnotationsTokens(kind);
    AddExact(doc, t, AnnDoc(existing + deltas));
    if existing == map[] {
      ApplyOne(doc, more[0]);
      assert existing + deltas == deltas;
    } else {
      KeyByKey(doc, AnnotationsPath(kind), more, keys, existing, deltas);
      WithAll(existing, keys, deltas);
      assert (map k | k in keys :: deltas[k]) == deltas;
    }
  }

  /** The runtime class operation leaves the annotations and their parent alone. */
  lemma ClassOp(doc: Doc, kind: string, result: Option<Resolved>, handler: string, runtimeClassSet: bool)
    ensures var r := ApplyAll(doc, ClassOps(kind, result, handler, runtimeClassSet));
            var c, t := RuntimeClassTokens(kind), AnnotationsTokens(kind);
            && (r.Some? <==> (SetsClass(result, handler, runtimeClassSet) ==> IsObj(Get(doc, Parent(c)))))
            && (r.Some? && SetsClass(result, handler, runtimeClassSet) ==>
                  r.value == Put(doc, c, Str(ChosenClass(result, handler))))
            && (r.Some? && !SetsClass(result, handler, runtimeClassSet) ==> r.value == doc)
            && (r.Some? ==> Get(r.value, t) == Get(doc, t) && Get(r.value, Parent(t)) == Get(doc, Parent(t)))
  {
    hide Tokens, AnnotationsPath, RuntimeClassPath, ChosenClass;
    var c, t, v := RuntimeClassTokens(kind), AnnotationsTokens(kind), Str(ChosenClass(result, handler));
    if SetsClass(result, handler, runtimeClassSet) {
      FixedPaths(kind);
      FixedParentsApart(kind);
      ApplyOne(doc, Add(RuntimeClassPath(kind), v));
      AddExact(doc, c, v);
      if AddAt(doc, c, v).Some? {
        AddElsewhere(doc, c, v, t);
        AddElsewhere(doc, c, v, Parent(t));
      }
    }
  }

  lemma FixedParentsApart(kind: string)
    ensures Apart(RuntimeClassTokens(kind), Parent(AnnotationsTokens(kind)))
  {
    var p, q := RuntimeClassTokens(kind), Parent(AnnotationsTokens(kind));
    if IsBatch(kind) {
      assert p[..2] == q[..2] && p[2] != q[2];
    } else {
      assert p[..0] == q[..0] && p[0] != q[0];
    }
  }

  /** Applied to any object that carries the annotations it was built from, the patch succeeds if
      and only if what it writes has a parent, and then leaves exactly the expected object.
      Map iteration order plays no part. */
  lemma PatchMeaning(doc: Doc, kind: string, existing: Annotations, result: Option<Resolved>, handler: string,
                     runtimeClassSet: bool, ops: seq<PatchOp>, keys: seq<string>)
    requires IsMergedPatch(kind, existing, result, handler, runtimeClassSet, ops, keys)
    requires Carries(doc, kind, existing)
    ensures ApplyAll(doc, ops).Some? <==> ParentsPresent(doc, kind, existing, result, handler, runtimeClassSet)
    ensures ApplyAll(doc, ops).Some? ==>
              ApplyAll(doc, ops).value == Expected(doc, kind, existing, result, handler, runtimeClassSet)
  {
    hide Bytes, AnnDoc, AddsKeys, Tokens, AnnotationsPath, RuntimeClassPath, AddAt, Get, ClassOps, SetsClass,
         AnnotationsTokens, RuntimeClassTokens;
    var first := ClassOps(kind, result, handler, runtimeClassSet);
    var more := ops[|first|..];
    assert ops == first + more;
    ClassOp(doc, kind, result, handler, runtimeClassSet);
    ApplyJoin(doc, first, more);
    var after := ApplyAll(doc, first);
    if after.Some? && Injects(existing, result) {
      AnnotationOps(after.value, kind, existing, Missing(existing, Offered(result)), more, keys);
    }
  }

  /** What that means for the annotations: none that was read changes and exactly the missing ones
      appear, or nothing happens to them at all. */
  lemma AnnotationsAfterPatch(doc: Doc, kind: string, existing: Annotations, result: Option<Resolved>, handler: string,
                              runtimeClassSet: bool, k: string)
    requires Carries(doc, kind, existing) && ParentsPresent(doc, kind, existing, result, handler, runtimeClassSet)
    ensures var path := if kind == "BatchSandbox" then ["spec", "template", "metadata", "annotations"] else ["metadata", "annotations"];
            var after := Get(Expected(doc, kind, existing, result, handler, runtimeClassSet), path);
            var offered := if result.Some? then result.value.annotations else map[];
            var missing := map x | x in offered && x !in existing :: offered[x];
            if missing == map[] || Bytes(existing + missing) > 200 * 1024 then after == Get(doc, path)
            else IsObj(after)
                 && (k in existing ==> Get(after.value, [k]) == Some(Str(existing[k])))
                 && (k !in existing && k in offered ==> Get(after.value, [k]) == Some(Str(offered[k])))
                 && (k !in existing && k !in offered ==> Get(after.value, [k]).None?)
  {
    hide Bytes, ClassOps, SetsClass, Tokens;
    ClassOp(doc, kind, result, handler, runtimeClassSet);
    FixedPaths(kind);
    var t, all := AnnotationsTokens(kind), existing + Missing(existing, Offered(result));
    var d := ApplyAll(doc, ClassOps(kind, result, handler, runtimeClassSet)).value;
    AddExact(d, t, AnnDoc(all));
    assert Get(AnnDoc(all), [k]) == if k in all then Some(Str(all[k])) else None by {
      assert [k][1..] == [];
    }
  }

  /** The total length of keys and values, key by key. */
  lemma BytesExact(m: Annotations, k: string, v: string)
    requires k !in m
    ensures Bytes(map[]) == 0 && Bytes(m[k := v]) == Bytes(m) + |k| + |v|
  {
    BytesAny(m[k := v], k);
    assert m[k := v] - {k} == m;
  }

  /** The runtime class after the patch: what was there if one was set; else the provider's, or the
      handler where the provider gave none; and nothing is written for an empty one. */
  lemma ClassAfterPatch(doc: Doc, kind: string, existing: Annotations, result: Option<Resolved>, handler: string,
                        runtimeClassSet: bool, ops: seq<PatchOp>, keys: seq<string>)
    requires IsMergedPatch(kind, existing, result, handler, runtimeClassSet, ops, keys) && Carries(doc, kind, existing)
    requires ApplyAll(doc, ops).Some?
    ensures var path := if kind == "BatchSandbox" then ["spec", "template", "spec", "runtimeClassName"] else ["spec", "runtimeClassName"];
            var provided := if result.Some? then result.value.runtimeClass else "";
            var wanted := if provided != "" then provided else handler;
            Get(ApplyAll(doc, ops).value, path) == if runtimeClassSet || wanted == "" then Get(doc, path) else Some(Str(wanted))
  {
    hide Bytes, AnnDoc, Tokens, AddAt, Get, ApplyAll, IsMergedPatch, AnnotationsPath, RuntimeClassPath, Carries;
    PatchMeaning(doc, kind, existing, result, handler, runtimeClassSet, ops, keys);
    var c, t, v := RuntimeClassTokens(kind), AnnotationsTokens(kind), Str(ChosenClass(result, handler));
    var all := AnnDoc(existing + Missing(existing, Offered(result)));
    var d := if SetsClass(result, handler, runtimeClassSet) then Put(doc, c, v) else doc;
    AddExact(doc, c, v);
    if AddAt(d, t, all).Some? {
      ApartFlips(kind);
      AddElsewhere(d, t, all, c);
    }
  }

  lemma ApartFlips(kind: string)
    ensures Apart(AnnotationsTokens(kind), RuntimeClassTokens(kind))
  {
    FixedTokensApart(kind);
    var p, q := RuntimeClassTokens(kind), AnnotationsTokens(kind);
    var i :| 0 <= i < |p| && i < |q| && p[..i] == q[..i] && p[i] != q[i];
    assert q[..i] == p[..i] && q[i] != p[i];
  }

  // ----- The object's own annotations -----

  /** Absent, or an object with nothing but strings in it. */
  predicate AllStrings(annotations: Option<Doc>) {
    match annotations
    case None => true
    case Some(Obj(f)) => forall k :: k in f ==> f[k].Str?
    case Some(_) => false
  }

  /** Reading a string map: anything else in it, or in its place, makes the whole map come back empty. */
  function ReadAnnotations(doc: Doc, kind: string): Annotations {
    var found := Get(doc, AnnotationsTokens(kind));
    if found.None? || !AllStrings(found) then map[]
    else map k | k in found.value.fields :: found.value.fields[k].s
  }

  lemma ReadCarries(doc: Doc, kind: string)
    ensures Carries(doc, kind, ReadAnnotations(doc, kind))
  {
    hide Get;
    var found := Get(doc, AnnotationsTokens(kind));
    if found.Some? && AllStrings(found) {
      assert AnnDoc(ReadAnnotations(doc, kind)).fields == found.value.fields;
    }
  }

  predicate Survives(before: Option<Doc>, after: Option<Doc>) {
    match before
    case None => true
    case Some(Obj(f)) => IsObj(after) && forall k :: k in f ==> k in after.value.fields && after.value.fields[k] == f[k]
    case Some(_) => after == before
  }

  /** The object keeps its own annotations if and only if nothing is injected or they could be read;
      otherwise what the provider offers takes their place, strings included. */
  lemma OwnAnnotationsSurviveIff(doc: Doc, kind: string, result: Option<Resolved>, handler: string,
                                 runtimeClassSet: bool, ops: seq<PatchOp>, keys: seq<string>)
    requires IsMergedPatch(kind, ReadAnnotations(doc, kind), result, handler, runtimeClassSet, ops, keys)
    requires ApplyAll(doc, ops).Some?
    ensures var before := Get(doc, AnnotationsTokens(kind));
            var after := Get(ApplyAll(doc, ops).value, AnnotationsTokens(kind));
            var injects := Injects(ReadAnnotations(doc, kind), result);
            && (Survives(before, after) <==> !injects || AllStrings(before))
            && (injects && !AllStrings(before) ==> after == Some(AnnDoc(Offered(result))))
  {
    hide Get, AddAt, ApplyAll, Bytes, IsMergedPatch, AnnotationsTokens, RuntimeClassTokens;
    var existing := ReadAnnotations(doc, kind);
    ReadCarries(doc, kind);
    PatchMeaning(doc, kind, existing, result, handler, runtimeClassSet, ops, keys);
    AnnotationsObject(doc, kind, existing, result, handler, runtimeClassSet);
    var before := Get(doc, AnnotationsTokens(kind));
    if !AllStrings(before) {
      assert existing == map[];
      assert existing + Missing(existing, Offered(result)) == Offered(result);
    }
  }

  lemma AnnotationsObject(doc: Doc, kind: string, existing: Annotations, result: Option<Resolved>, handler: string,
                          runtimeClassSet: bool)
    requires ParentsPresent(doc, kind, existing, result, handler, runtimeClassSet)
    ensures Get(Expected(doc, kind, existing, result, handler, runtimeClassSet), AnnotationsTokens(kind)) ==
            if Injects(existing, result) then Some(AnnDoc(existing + Missing(existing, Offered(result))))
            else Get(doc, AnnotationsTokens(kind))
  {
    hide Bytes, ClassOps, SetsClass, Tokens, AnnDoc, AddAt, Get, ApplyAll;
    ClassOp(doc, kind, result, handler, runtimeClassSet);
    var d := ApplyAll(doc, ClassOps(kind, result, handler, runtimeClassSet)).value;
    AddExact(d, AnnotationsTokens(kind), AnnDoc(existing + Missing(existing, Offered(result))));
  }

  method MergedOps(kind: string, existing: Annotations, result: Option<Resolved>, handler: string, runtimeClassSet: bool)
    returns (ops: seq<PatchOp>, ghost keys: seq<string>)
    ensures IsMergedPatch(kind, existing, result, handler, runtimeClassSet, ops, keys)
  {
    ops, keys := [], [];
    var runtimeClass := "";
    var offered: Annotations := map[];
    if result.Some? {
      runtimeClass := result.value.runtimeClass;
      offered := result.value.annotations;
    }
    if runtimeClass == "" {
      runtimeClass := handler;
    }
    if !runtimeClassSet && runtimeClass != "" {
      ops := ops + [Add(RuntimeClassPath(kind), Str(runtimeClass))];
    }
    var deltas, merged := CollectMissing(existing, offered);
    ghost var first := ops;
    if deltas != map[] {
      var total := AnnotationBytes(merged);
      if total > LIMIT {
        assert ops == first + [];
        return;
      }
      var more;
      more, keys := BuildPatch(existing, deltas, AnnotationsPath(kind));
      ops := ops + more;
    } else {
      assert ops == first + [];
    }
  }

  /** The patch of the webhook, by its meaning. */
  method BuildMergedPatch(kind: string, existing: Annotations, result: Option<Resolved>, handler: string, runtimeClassSet: bool)
    returns (ops: seq<PatchOp>, ghost keys: seq<string>)
    ensures IsMergedPatch(kind, existing, result, handler, runtimeClassSet, ops, keys)
    ensures forall doc :: Carries(doc, kind, existing) ==>
              && (ApplyAll(doc, ops).Some? <==> ParentsPresent(doc, kind, existing, result, handler, runtimeClassSet))
              && (ApplyAll(doc, ops).Some? ==>
                    ApplyAll(doc, ops).value == Expected(doc, kind, existing, result, handler, runtimeClassSet))
  {
    ops, keys := MergedOps(kind, existing, result, handler, runtimeClassSet);
    forall doc | Carries(doc, kind, existing)
      ensures ApplyAll(doc, ops).Some? <==> ParentsPresent(doc, kind, existing, result, handler, runtimeClassSet)
      ensures ApplyAll(doc, ops).Some? ==>
                ApplyAll(doc, ops).value == Expected(doc, kind, existing, result, handler, runtimeClassSet)
    {
      PatchMeaning(doc, kind, existing, result, handler, runtimeClassSet, ops, keys);
    }
  }
}
