/** sdk-ts/scripts/generate-schemas.ts: rewriting `$ref`s while every schema moves under
    `#/definitions/<Title>` of one bundle. */
module SchemaBundle {
  import opened Results

  datatype Json =
    | Null
    | Bool(b: bool)
    | Number(n: real)
    | Text(s: string)
    | Array(items: seq<Json>)
    | Object(fields: map<string, Json>)

  // ----- the rewrite -----

  const ORIGIN: string := "https://schemas.aether-forge.dev/"
  const DEFS: string := "#/$defs/"
  const DEFINITIONS: string := "#/definitions/"

  /** The published identifiers and the title of the schema being rewritten. */
  datatype Context = Context(idToTitle: map<string, string>, ownTitle: string)

  function IndexOf(s: string, c: char): (n: nat)
    ensures n <= |s| && c !in s[..n]
    ensures n < |s| ==> s[n] == c
  {
    if s == "" || s[0] == c then 0 else 1 + IndexOf(s[1..], c)
  }

  /** The first part of `v.split("#")`. */
  function Base(v: string): string {
    v[..IndexOf(v, '#')]
  }

  /** The second part of `v.split("#")`, empty when there is none. */
  function Fragment(v: string): string {
    var n := IndexOf(v, '#');
    if n == |v| then "" else Base(v[n + 1..])
  }

  function RewriteRef(v: string, ctx: Context): string {
    if ORIGIN <= v && Base(v) in ctx.idToTitle then
      DEFINITIONS + ctx.idToTitle[Base(v)] + Fragment(v)
    else if DEFS <= v || DEFINITIONS <= v then
      DEFINITIONS + ctx.ownTitle + v[1..]
    else v
  }

  /** Keys that do not become keys of the result: two are skipped, and assigning to `__proto__` sets the
      prototype of the fresh object instead of adding a key. */
  predicate Stripped(key: string) {
    key == "$id" || key == "$schema" || key == "__proto__"
  }

  /** `rewriteToInternalRefs`. */
  function Rewrite(node: Json, ctx: Context): Json {
    match node
    case Array(items) => Array(seq(|items|, i requires 0 <= i < |items| => Rewrite(items[i], ctx)))
    case Object(fields) =>
      Object(map k | k in fields && !Stripped(k) ::
        if k == "$ref" && fields[k].Text? then Text(RewriteRef(fields[k].s, ctx)) else Rewrite(fields[k], ctx))
    case _ => node
  }

  // ----- JSON Pointer (RFC 6901) -----

  /** Evaluation, section 4 of RFC 6901, on unescaped reference tokens. */
  function Resolve(doc: Json, tokens: seq<string>): Option<Json>
    decreases |tokens|
  {
    if tokens == [] then Some(doc)
    else match doc
      case Object(fields) => if tokens[0] in fields then Resolve(fields[tokens[0]], tokens[1..]) else None
      case Array(items) =>
        var i :- ArrayIndex(tokens[0]);
        if i < |items| then Resolve(items[i], tokens[1..]) else None
      case _ => None
  }

  /** An array index: digits without a leading zero. */
  function ArrayIndex(token: string): Option<nat> {
    if token == "" || (|token| > 1 && token[0] == '0') then None else DecimalValue(token)
  }

  function DecimalValue(s: string): Option<nat> {
    if s == "" then Some(0)
    else
      var front :- DecimalValue(s[..|s| - 1]);
      var c := s[|s| - 1];
      if '0' <= c <= '9' then Some(10 * front + (c - '0') as nat) else None
  }

  /** Unescaping of one reference token: `~1` is a solidus and `~0` a tilde. */
  function Unescape(s: string): Option<string> {
    if s == "" then Some("")
    else if s[0] != '~' then
      var rest :- Unescape(s[1..]);
      Some([s[0]] + rest)
    else if |s| == 1 || (s[1] != '0' && s[1] != '1') then None
    else
      var rest :- Unescape(s[2..]);
      Some([if s[1] == '0' then '~' else '/'] + rest)
  }

  /** Syntax, section 3 of RFC 6901. */
  function Tokens(pointer: string): Option<seq<string>>
    decreases |pointer|
  {
    if pointer == "" then Some([])
    else if pointer[0] != '/' then None
    else
      var n := IndexOf(pointer[1..], '/');
      var token :- Unescape(pointer[1..1 + n]);
      var rest :- Tokens(pointer[1 + n..]);
      Some([token] + rest)
  }

  /** A reference that is only a fragment, resolved inside `doc`. */
  function ResolveIn(doc: Json, ref: string): Option<Json> {
    if ref == "" || ref[0] != '#' then None
    else
      var tokens :- Tokens(ref[1..]);
      Resolve(doc, tokens)
  }

  // ----- rewriting commutes with resolution -----

  /** The JSON Pointer leads, in the original, through a key the rewrite removes, or ends at a `$ref`
      string the rewrite changes. */
  ghost predicate Blocked(doc: Json, tokens: seq<string>, ctx: Context)
    decreases |tokens|
  {
    tokens != [] &&
    match doc
    case Object(fields) =>
      tokens[0] in fields &&
      var next := fields[tokens[0]];
      if Stripped(tokens[0]) then Resolve(next, tokens[1..]).Some?
      else if tokens[0] == "$ref" && next.Text? then tokens[1..] == [] && RewriteRef(next.s, ctx) != next.s
      else Blocked(next, tokens[1..], ctx)
    case Array(items) =>
      var i := ArrayIndex(tokens[0]);
      i.Some? && i.value < |items| && Blocked(items[i.value], tokens[1..], ctx)
    case _ => false
  }

  function Rewritten(r: Option<Json>, ctx: Context): Option<Json> {
    if r.None? then None else Some(Rewrite(r.value, ctx))
  }

  /** Rewriting commutes with pointer resolution exactly on the pointers that are not blocked:
      what is found is the rewrite of what was found, and what dangled still dangles. */
  lemma {:induction false} RewriteCommutes(doc: Json, tokens: seq<string>, ctx: Context)
    ensures Resolve(Rewrite(doc, ctx), tokens) == Rewritten(Resolve(doc, tokens), ctx)
      <==> !Blocked(doc, tokens, ctx)
    decreases |tokens|
  {
    if tokens != [] {
      match doc
      case Object(fields) =>
        var key, rest := tokens[0], tokens[1..];
        if key in fields && !Stripped(key) {
          if key == "$ref" && fields[key].Text? {
            assert rest != [] ==> Resolve(fields[key], rest).None?;
          } else {
            RewriteCommutes(fields[key], rest, ctx);
          }
        }
      case Array(items) =>
        var i := ArrayIndex(tokens[0]);
        if i.Some? && i.value < |items| {
          RewriteCommutes(items[i.value], tokens[1..], ctx);
        }
      case _ =>
    }
  }

  /** The commutation does fail: a schema with a property called `$id`, or `__proto__`, loses it. */
  lemma PropertyNamedIdIsLost(ctx: Context)
    ensures var doc := Object(map["properties" := Object(map["$id" := Text("x")])]);
      && Resolve(doc, ["properties", "$id"]) == Some(Text("x"))
      && Resolve(Rewrite(doc, ctx), ["properties", "$id"]) == None
  {
    var inner := Object(map["$id" := Text("x")]);
    var doc := Object(map["properties" := inner]);
    assert Resolve(inner, ["$id"]) == Some(Text("x"));
    assert Rewrite(doc, ctx).fields["properties"] == Rewrite(inner, ctx);
    assert ["properties", "$id"][1..] == ["$id"];
    assert "$id" !in Rewrite(inner, ctx).fields;
  }

  // ----- the bundle -----

  datatype Schema = Schema(id: string, title: string, raw: Json)

  function IdToTitle(schemas: seq<Schema>): map<string, string> {
    if schemas == [] then map[]
    else
      var last := schemas[|schemas| - 1];
      IdToTitle(schemas[..|schemas| - 1])[last.id := last.title]
  }

  function ContextOf(schemas: seq<Schema>, s: Schema): Context {
    Context(IdToTitle(schemas), s.title)
  }

  /** `definitions`, filled schema by schema: a later title overwrites an earlier one. */
  function Definitions(schemas: seq<Schema>, done: seq<Schema>): map<string, Json> {
    if done == [] then map[]
    else
      var last := done[|done| - 1];
      Definitions(schemas, done[..|done| - 1])[last.title := Rewrite(last.raw, ContextOf(schemas, last))]
  }

  function Properties(done: seq<Schema>): map<string, Json> {
    if done == [] then map[]
    else
      var title := done[|done| - 1].title;
      Properties(done[..|done| - 1])[title := Object(map["$ref" := Text(DEFINITIONS + title)])]
  }

  /** The bundle built in `main`. */
  function Bundle(schemas: seq<Schema>): Json {
    Object(map[
      "$schema" := Text("https://json-schema.org/draft/2020-12/schema"),
      "title" := Text("_AetherForgeSchemasRoot"),
      "type" := Text("object"),
      "additionalProperties" := Bool(false),
      "properties" := Object(Properties(schemas)),
      "definitions" := Object(Definitions(schemas, schemas))])
  }

  /** A title that can stand in a pointer as it is; PascalCase titles do not begin with a dollar sign or an
      underscore. */
  ghost predicate PlainTitle(title: string) {
    '/' !in title && '~' !in title && (title == "" || (title[0] != '$' && title[0] != '_'))
  }

  ghost predicate WellFormed(schemas: seq<Schema>) {
    && (forall i, j :: 0 <= i < j < |schemas| ==>
          schemas[i].title != schemas[j].title && schemas[i].id != schemas[j].id)
    && (forall i :: 0 <= i < |schemas| ==>
          PlainTitle(schemas[i].title) && "https://schemas.aether-forge.dev/" <= schemas[i].id && '#' !in schemas[i].id)
  }

  lemma {:induction false} TitleOfId(schemas: seq<Schema>, j: nat)
    requires j < |schemas|
    requires forall i, k :: 0 <= i < k < |schemas| ==> schemas[i].id != schemas[k].id
    ensures schemas[j].id in IdToTitle(schemas) && IdToTitle(schemas)[schemas[j].id] == schemas[j].title
  {
    if j < |schemas| - 1 {
      TitleOfId(schemas[..|schemas| - 1], j);
    }
  }

  lemma {:induction false} DefinitionOf(schemas: seq<Schema>, done: seq<Schema>, j: nat)
    requires j < |done|
    requires forall i, k :: 0 <= i < k < |done| ==> done[i].title != done[k].title
    ensures done[j].title in Definitions(schemas, done)
    ensures Definitions(schemas, done)[done[j].title] == Rewrite(done[j].raw, ContextOf(schemas, done[j]))
  {
    if j < |done| - 1 {
      DefinitionOf(schemas, done[..|done| - 1], j);
    }
  }

  lemma {:induction false} IndexOfPrefix(a: string, c: char, b: string)
    requires c !in a
    ensures IndexOf(a + b, c) == |a| + IndexOf(b, c)
  {
    if a == "" {
      assert a + b == b;
    } else {
      assert (a + b)[0] == a[0] && a[0] in a;
      assert (a + b)[1..] == a[1..] + b;
      IndexOfPrefix(a[1..], c, b);
    }
  }

  lemma {:induction false} UnescapePlain(s: string)
    requires '~' !in s
    ensures Unescape(s) == Some(s)
  {
    if s != "" {
      assert s[0] in s;
      UnescapePlain(s[1..]);
      assert [s[0]] + s[1..] == s;
    }
  }

  function Prepend(token: string, ts: Option<seq<string>>): Option<seq<string>> {
    match ts case None => None case Some(rest) => Some([token] + rest)
  }

  /** One plain token in front of a JSON Pointer. */
  lemma TokensOfPrefixed(token: string, rest: string)
    requires '/' !in token && '~' !in token
    requires rest == "" || rest[0] == '/'
    ensures Tokens("/" + token + rest) == Prepend(token, Tokens(rest))
  {
    var p := "/" + token + rest;
    assert p[1..] == token + rest;
    IndexOfPrefix(token, '/', rest);
    assert IndexOf(rest, '/') == 0;
    assert p[1..1 + |token|] == token && p[1 + |token|..] == rest;
    UnescapePlain(token);
  }

  lemma TokensUnderTitle(title: string, pointer: string)
    requires '/' !in title && '~' !in title
    requires pointer == "" || pointer[0] == '/'
    ensures Tokens((DEFINITIONS + title + pointer)[1..]) ==
      match Tokens(pointer) case None => None case Some(ts) => Some(["definitions", title] + ts)
  {
    var first, rest := "definitions", "/" + title + pointer;
    assert (DEFINITIONS + title + pointer)[1..] == "/" + first + rest;
    TokensOfPrefixed(first, rest);
    TokensOfPrefixed(title, pointer);
    PrependTwice(first, title, Tokens(pointer));
  }

  lemma PrependTwice(first: string, second: string, ts: Option<seq<string>>)
    ensures Prepend(first, Prepend(second, ts)) ==
      match ts case None => None case Some(rest) => Some([first, second] + rest)
  {
    if ts.Some? {
      assert [first] + ([second] + ts.value) == [first, second] + ts.value;
    }
  }

  lemma ResolveDefinition(schemas: seq<Schema>, title: string, ts: seq<string>)
    requires title in Definitions(schemas, schemas)
    ensures Resolve(Bundle(schemas), ["definitions", title] + ts) == Resolve(Definitions(schemas, schemas)[title], ts)
  {
    var definitions := Definitions(schemas, schemas);
    var path := ["definitions", title] + ts;
    assert path[1..] == [title] + ts;
    assert ([title] + ts)[1..] == ts;
    assert Bundle(schemas).fields["definitions"] == Object(definitions);
    assert Resolve(Object(definitions), [title] + ts) == Resolve(definitions[title], ts);
  }

  lemma ResolveFragment(doc: Json, pointer: string)
    ensures ResolveIn(doc, "#" + pointer) ==
      match Tokens(pointer) case None => None case Some(ts) => Resolve(doc, ts)
  {
    assert ("#" + pointer)[1..] == pointer;
  }

  lemma ResolveInTitle(doc: Json, title: string, pointer: string)
    requires '/' !in title && '~' !in title
    requires pointer == "" || pointer[0] == '/'
    ensures ResolveIn(doc, DEFINITIONS + title + pointer) ==
      match Tokens(pointer) case None => None case Some(ts) => Resolve(doc, ["definitions", title] + ts)
  {
    TokensUnderTitle(title, pointer);
    assert (DEFINITIONS + title + pointer)[0] == '#';
  }

  /** A JSON Pointer under a title's definition resolves in the bundle as it does in the rewritten schema. */
  lemma ResolveUnderTitle(schemas: seq<Schema>, j: nat, pointer: string)
    requires WellFormed(schemas) && j < |schemas|
    requires pointer == "" || pointer[0] == '/'
    ensures ResolveIn(Bundle(schemas), DEFINITIONS + schemas[j].title + pointer)
      == ResolveIn(Rewrite(schemas[j].raw, ContextOf(schemas, schemas[j])), "#" + pointer)
  {
    var title := schemas[j].title;
    DefinitionOf(schemas, schemas, j);
    ResolveInTitle(Bundle(schemas), title, pointer);
    ResolveFragment(Rewrite(schemas[j].raw, ContextOf(schemas, schemas[j])), pointer);
    if Tokens(pointer).Some? {
      ResolveDefinition(schemas, title, Tokens(pointer).value);
    }
  }

  ghost predicate BlockedRef(doc: Json, pointer: string, ctx: Context) {
    Tokens(pointer).Some? && Blocked(doc, Tokens(pointer).value, ctx)
  }

  lemma ResolveRewritten(doc: Json, pointer: string, ctx: Context)
    ensures ResolveIn(Rewrite(doc, ctx), "#" + pointer) == Rewritten(ResolveIn(doc, "#" + pointer), ctx)
      <==> !BlockedRef(doc, pointer, ctx)
  {
    assert ("#" + pointer)[1..] == pointer;
    if Tokens(pointer).Some? {
      RewriteCommutes(doc, Tokens(pointer).value, ctx);
    }
  }

  predicate Internal(v: string) {
    "#/$defs/" <= v || "#/definitions/" <= v
  }

  /** Internal references keep their meaning, in the bundle they lead to the rewrite of what they led to in
      their own schema, exactly when they are not blocked. */
  lemma InternalRefMeaning(schemas: seq<Schema>, i: nat, v: string)
    requires WellFormed(schemas) && i < |schemas| && Internal(v)
    ensures var ctx := ContextOf(schemas, schemas[i]);
      ResolveIn(Bundle(schemas), RewriteRef(v, ctx)) == Rewritten(ResolveIn(schemas[i].raw, v), ctx)
      <==> !BlockedRef(schemas[i].raw, v[1..], ctx)
  {
    var ctx := ContextOf(schemas, schemas[i]);
    assert v[0] == '#' && v[1] == '/' && v == "#" + v[1..];
    assert ORIGIN[0] == 'h';
    assert RewriteRef(v, ctx) == DEFINITIONS + schemas[i].title + v[1..];
    ResolveUnderTitle(schemas, i, v[1..]);
    ResolveRewritten(schemas[i].raw, v[1..], ctx);
  }

  /** A published reference: the identifier of a schema, with or without a pointer into it. */
  ghost predicate External(v: string, target: Schema, pointer: string) {
    && (pointer == "" || pointer[0] == '/') && '#' !in pointer
    && v == if pointer == "" then target.id else target.id + "#" + pointer
  }

  lemma SplitExternal(v: string, target: Schema, pointer: string)
    requires External(v, target, pointer) && '#' !in target.id
    ensures Base(v) == target.id && Fragment(v) == pointer
  {
    if pointer == "" {
      IndexOfPrefix(v, '#', "");
      assert v + "" == v;
    } else {
      IndexOfPrefix(target.id, '#', "#" + pointer);
      assert v == target.id + ("#" + pointer);
      assert IndexOf("#" + pointer, '#') == 0;
      assert v[|target.id| + 1..] == pointer;
      IndexOfPrefix(pointer, '#', "");
      assert pointer + "" == pointer;
    }
  }

  /** Published references keep their meaning, in the bundle they lead to the rewrite of what they led to in
      the schema with that identifier, whichever schema mentions them, exactly when they are not blocked. */
  lemma ExternalRefMeaning(schemas: seq<Schema>, i: nat, j: nat, v: string, pointer: string)
    requires WellFormed(schemas) && i < |schemas| && j < |schemas|
    requires External(v, schemas[j], pointer)
    ensures ResolveIn(Bundle(schemas), RewriteRef(v, ContextOf(schemas, schemas[i])))
      == Rewritten(ResolveIn(schemas[j].raw, "#" + pointer), ContextOf(schemas, schemas[j]))
      <==> !BlockedRef(schemas[j].raw, pointer, ContextOf(schemas, schemas[j]))
  {
    SplitExternal(v, schemas[j], pointer);
    assert ORIGIN <= v;
    TitleOfId(schemas, j);
    ResolveUnderTitle(schemas, j, pointer);
    ResolveRewritten(schemas[j].raw, pointer, ContextOf(schemas, schemas[j]));
  }

  predicate Scalar(v: Json) {
    !v.Array? && !v.Object?
  }

  /** Any other reference by fragment is left as it is, and so points into the bundle's root and not into its
      schema: `#` means the bundle; any other pointer resolves exactly when it is a root key, or names a title
      under `properties`, where it finds the reference to that title's definition. */
  lemma OtherFragmentPointsAtRoot(schemas: seq<Schema>, i: nat, v: string)
    requires i < |schemas| && v != "" && v[0] == '#' && !Internal(v)
    ensures var w := RewriteRef(v, ContextOf(schemas, schemas[i]));
      && w == v
      && (v == "#" ==> ResolveIn(Bundle(schemas), w) == Some(Bundle(schemas)))
      && var ts := Tokens(v[1..]);
      && (ts.None? ==> ResolveIn(Bundle(schemas), w) == None)
      && (ts.Some? && ts.value != [] && ts.value[0] != "definitions" ==>
            (ResolveIn(Bundle(schemas), w).Some? <==> AtRoot(schemas, ts.value)))
  {
    assert ORIGIN[0] == 'h';
    if v == "#" {
      assert v[1..] == "";
    }
    var ts := Tokens(v[1..]);
    if ts.Some? && ts.value != [] && ts.value[0] != "definitions" {
      RootResolves(schemas, ts.value);
    }
  }

  predicate AtRoot(schemas: seq<Schema>, ts: seq<string>)
    requires ts != []
  {
    && ts[0] in Bundle(schemas).fields
    && (|ts| == 1
        || (ts[0] == "properties" && ts[1] in Properties(schemas) && (|ts| == 2 || (|ts| == 3 && ts[2] == "$ref"))))
  }

  lemma RootResolves(schemas: seq<Schema>, ts: seq<string>)
    requires ts != [] && ts[0] != "definitions"
    ensures Resolve(Bundle(schemas), ts).Some? <==> AtRoot(schemas, ts)
  {
    var fields, rest := Bundle(schemas).fields, ts[1..];
    if ts[0] in fields && rest != [] {
      if ts[0] == "properties" {
        PropertyResolves(Properties(schemas), schemas, rest);
      } else {
        RootScalars(schemas, ts[0]);
      }
    }
  }

  lemma RootScalars(schemas: seq<Schema>, key: string)
    requires key in Bundle(schemas).fields && key != "definitions" && key != "properties"
    ensures Scalar(Bundle(schemas).fields[key])
  {
  }

  lemma PropertyResolves(properties: map<string, Json>, schemas: seq<Schema>, ts: seq<string>)
    requires properties == Properties(schemas) && ts != []
    ensures Resolve(Object(properties), ts).Some? <==>
      ts[0] in properties && (|ts| == 1 || (|ts| == 2 && ts[1] == "$ref"))
  {
    if ts[0] in properties {
      PropertiesOnly(schemas, ts[0]);
      var inner, rest := map["$ref" := Text(DEFINITIONS + ts[0])], ts[1..];
      assert properties[ts[0]] == Object(inner);
      if rest != [] {
        assert rest[0] == ts[1];
        assert rest[0] in inner <==> rest[0] == "$ref";
        if rest[0] == "$ref" {
          var last := rest[1..];
          assert Resolve(inner["$ref"], last).Some? <==> last == [];
        }
      }
    }
  }

  // ----- every reference of the bundle -----
  // ----- every reference of the bundle -----

  /** `v` is the string of some `$ref` of the document that the rewrite reaches. */
  ghost predicate HasRef(doc: Json, v: string) {
    match doc
    case Array(items) => exists i :: 0 <= i < |items| && HasRef(items[i], v)
    case Object(fields) =>
      exists k :: k in fields && !Stripped(k) &&
        ((k == "$ref" && fields[k] == Text(v)) || HasRef(fields[k], v))
    case _ => false
  }

  /** The rewrite neither invents nor drops references: those of the result are the rewrites of those
      of the original. */
  lemma {:induction false} RefsOfRewrite(doc: Json, ctx: Context, w: string)
    ensures HasRef(Rewrite(doc, ctx), w) <==> exists v :: HasRef(doc, v) && RewriteRef(v, ctx) == w
  {
    match doc
    case Array(items) =>
      var out := Rewrite(doc, ctx).items;
      forall i | 0 <= i < |items|
        ensures HasRef(out[i], w) <==> exists v :: HasRef(items[i], v) && RewriteRef(v, ctx) == w
      {
        RefsOfRewrite(items[i], ctx, w);
      }
      if HasRef(Rewrite(doc, ctx), w) {
        var i :| 0 <= i < |out| && HasRef(out[i], w);
        var v :| HasRef(items[i], v) && RewriteRef(v, ctx) == w;
        assert HasRef(doc, v);
      }
      if v :| HasRef(doc, v) && RewriteRef(v, ctx) == w {
        var i :| 0 <= i < |items| && HasRef(items[i], v);
        assert HasRef(out[i], w);
      }
    case Object(fields) =>
      var out := Rewrite(doc, ctx).fields;
      forall k | k in fields && !Stripped(k) && !(k == "$ref" && fields[k].Text?)
        ensures HasRef(out[k], w) <==> exists v :: HasRef(fields[k], v) && RewriteRef(v, ctx) == w
      {
        RefsOfRewrite(fields[k], ctx, w);
      }
      if HasRef(Rewrite(doc, ctx), w) {
        var k :| k in out && !Stripped(k) && ((k == "$ref" && out[k] == Text(w)) || HasRef(out[k], w));
        if k == "$ref" && fields[k].Text? {
          assert HasRef(doc, fields[k].s);
        } else {
          RewriteKeepsText(fields[k], ctx);
          assert HasRef(out[k], w);
          var v :| HasRef(fields[k], v) && RewriteRef(v, ctx) == w;
          assert HasRef(doc, v);
        }
      }
      if v :| HasRef(doc, v) && RewriteRef(v, ctx) == w {
        var k :| k in fields && !Stripped(k) && ((k == "$ref" && fields[k] == Text(v)) || HasRef(fields[k], v));
        assert k in out;
        if k == "$ref" && fields[k] == Text(v) {
          assert out[k] == Text(w);
        } else {
          assert HasRef(out[k], w);
        }
      }
    case _ =>
  }

  lemma RewriteKeepsText(doc: Json, ctx: Context)
    ensures Rewrite(doc, ctx).Text? ==> doc.Text?
  {
  }

  /** A reference of schema `i` that means something among the published schemas. */
  ghost predicate Meaningful(schemas: seq<Schema>, i: nat, v: string)
    requires i < |schemas|
  {
    || (&& Internal(v)
        && ResolveIn(schemas[i].raw, v).Some?
        && !BlockedRef(schemas[i].raw, v[1..], ContextOf(schemas, schemas[i])))
    || (exists j: nat, pointer: string :: MeaningfulAt(schemas, j, v, pointer))
  }

  ghost predicate MeaningfulAt(schemas: seq<Schema>, j: nat, v: string, pointer: string) {
    && j < |schemas| && External(v, schemas[j], pointer)
    && ResolveIn(schemas[j].raw, "#" + pointer).Some?
    && !BlockedRef(schemas[j].raw, pointer, ContextOf(schemas, schemas[j]))
  }

  lemma {:induction false} DefinitionsOnly(schemas: seq<Schema>, done: seq<Schema>, title: string)
    requires title in Definitions(schemas, done)
    ensures exists j :: (0 <= j < |done| && done[j].title == title
                         && Definitions(schemas, done)[title] == Rewrite(done[j].raw, ContextOf(schemas, done[j])))
  {
    var n := |done| - 1;
    if done[n].title != title {
      DefinitionsOnly(schemas, done[..n], title);
      var j :| 0 <= j < n && done[..n][j].title == title
        && Definitions(schemas, done[..n])[title] == Rewrite(done[..n][j].raw, ContextOf(schemas, done[..n][j]));
      assert done[j].title == title;
    }
  }

  lemma {:induction false} PropertiesOnly(done: seq<Schema>, title: string)
    requires title in Properties(done)
    ensures Properties(done)[title] == Object(map["$ref" := Text(DEFINITIONS + title)])
    ensures exists j :: 0 <= j < |done| && done[j].title == title
  {
    var n := |done| - 1;
    if done[n].title != title {
      PropertiesOnly(done[..n], title);
      var j :| 0 <= j < n && done[..n][j].title == title;
      assert done[j].title == title;
    }
  }

  /** The bundle is closed: when every reference of every schema means something, every reference
      inside the bundle resolves inside the bundle. */
  lemma BundleIsClosed(schemas: seq<Schema>, w: string)
    requires WellFormed(schemas)
    requires forall i: nat, v :: i < |schemas| && HasRef(schemas[i].raw, v) ==> Meaningful(schemas, i, v)
    requires HasRef(Bundle(schemas), w)
    ensures ResolveIn(Bundle(schemas), w).Some?
  {
    var fields := Bundle(schemas).fields;
    assert HasRef(Object(Properties(schemas)), w) || HasRef(Object(Definitions(schemas, schemas)), w);
    if HasRef(Object(Properties(schemas)), w) {
      RefOfProperties(schemas, w);
    } else {
      RefOfDefinitions(schemas, w);
    }
  }

  lemma RefOfProperties(schemas: seq<Schema>, w: string)
    requires WellFormed(schemas) && HasRef(Object(Properties(schemas)), w)
    ensures ResolveIn(Bundle(schemas), w).Some?
  {
    var properties := Properties(schemas);
    var title :| title in properties && !Stripped(title)
      && ((title == "$ref" && properties[title] == Text(w)) || HasRef(properties[title], w));
    PropertiesOnly(schemas, title);
    assert !HasRef(Text(DEFINITIONS + title), w);
    assert HasRef(properties[title], w);
    assert w == DEFINITIONS + title;
    var j :| 0 <= j < |schemas| && schemas[j].title == title;
    assert DEFINITIONS + title + "" == w;
    ResolveUnderTitle(schemas, j, "");
    assert ("#" + "")[1..] == "";
  }

  lemma RefOfDefinitions(schemas: seq<Schema>, w: string)
    requires WellFormed(schemas) && HasRef(Object(Definitions(schemas, schemas)), w)
    requires forall i: nat, v :: i < |schemas| && HasRef(schemas[i].raw, v) ==> Meaningful(schemas, i, v)
    ensures ResolveIn(Bundle(schemas), w).Some?
  {
    var definitions := Definitions(schemas, schemas);
    var title :| title in definitions && !Stripped(title)
      && ((title == "$ref" && definitions[title] == Text(w)) || HasRef(definitions[title], w));
    DefinitionsOnly(schemas, schemas, title);
    var i: nat :| 0 <= i < |schemas| && schemas[i].title == title
      && definitions[title] == Rewrite(schemas[i].raw, ContextOf(schemas, schemas[i]));
    assert PlainTitle(title);
    var ctx := ContextOf(schemas, schemas[i]);
    assert HasRef(definitions[title], w);
    RefsOfRewrite(schemas[i].raw, ctx, w);
    var v :| HasRef(schemas[i].raw, v) && RewriteRef(v, ctx) == w;
    assert Meaningful(schemas, i, v);
    if Internal(v) && ResolveIn(schemas[i].raw, v).Some? && !BlockedRef(schemas[i].raw, v[1..], ctx) {
      InternalRefMeaning(schemas, i, v);
    } else {
      var j: nat, pointer: string :| MeaningfulAt(schemas, j, v, pointer);
      ExternalRefMeaning(schemas, i, j, v, pointer);
    }
  }

  // ----- what the rewrite leaves alone, written out -----

  /** An object keeps exactly the keys that are not `$id`, `$schema` or `__proto__`; an array keeps its length; and
      everything that is neither stays as it is. */
  lemma RewriteShape(doc: Json, ctx: Context)
    ensures doc.Object? ==>
      Rewrite(doc, ctx).Object? && Rewrite(doc, ctx).fields.Keys == doc.fields.Keys - {"$id", "$schema", "__proto__"}
    ensures doc.Array? ==> Rewrite(doc, ctx).Array? && |Rewrite(doc, ctx).items| == |doc.items|
    ensures Scalar(doc) ==> Rewrite(doc, ctx) == doc
  {
  }

  /** What the original has at an unblocked pointer, the result has in the same kind and with the same value when it
      is neither an object nor an array. */
  lemma LeavesAreKept(doc: Json, tokens: seq<string>, ctx: Context)
    requires !Blocked(doc, tokens, ctx) && Resolve(doc, tokens).Some? && Scalar(Resolve(doc, tokens).value)
    ensures Resolve(Rewrite(doc, ctx), tokens) == Resolve(doc, tokens)
  {
    RewriteCommutes(doc, tokens, ctx);
    RewriteShape(Resolve(doc, tokens).value, ctx);
  }

  /** A reference that is neither internal nor to a published identifier stays as it is. */
  lemma ForeignRefStays(schemas: seq<Schema>, i: nat, v: string)
    requires i < |schemas| && !Internal(v)
    requires !("https://schemas.aether-forge.dev/" <= v) || forall j :: 0 <= j < |schemas| ==> Base(v) != schemas[j].id
    ensures RewriteRef(v, ContextOf(schemas, schemas[i])) == v
  {
    IdsArePublished(schemas, Base(v));
  }

  lemma {:induction false} IdsArePublished(schemas: seq<Schema>, id: string)
    ensures id in IdToTitle(schemas) ==> exists j :: 0 <= j < |schemas| && schemas[j].id == id
  {
    if schemas != [] {
      IdsArePublished(schemas[..|schemas| - 1], id);
    }
  }

  /** The bundle lists every schema: as a definition, and as a property that refers to the definition. */
  lemma {:induction false} BundleListsAll(schemas: seq<Schema>, done: seq<Schema>, j: nat)
    requires j < |done|
    ensures done[j].title in Properties(done) && done[j].title in Definitions(schemas, done)
  {
    if j < |done| - 1 {
      BundleListsAll(schemas, done[..|done| - 1], j);
    }
  }

  // ----- pointers and the strings that write them -----

  function Decimal(n: nat): string {
    if n < 10 then [('0' as int + n) as char] else Decimal(n / 10) + [('0' as int + n % 10) as char]
  }

  /** An array index is written one way: its decimal digits, with no leading zero. */
  lemma {:induction false} IndexIsDecimal(token: string, n: nat)
    ensures ArrayIndex(token) == Some(n) <==> token == Decimal(n)
  {
    DecimalReads(n);
    if ArrayIndex(token) == Some(n) {
      OneDecimal(token, n);
    }
  }

  lemma {:induction false} DecimalReads(n: nat)
    ensures var s := Decimal(n);
      s != "" && DecimalValue(s) == Some(n) && (s[0] == '0' ==> n == 0 && |s| == 1)
  {
    var s := Decimal(n);
    if n < 10 {
      assert s[..0] == "";
    } else {
      DecimalReads(n / 10);
      assert s[..|s| - 1] == Decimal(n / 10);
    }
  }

  lemma {:induction false} OneDecimal(s: string, n: nat)
    requires s != "" && DecimalValue(s) == Some(n) && (|s| > 1 ==> s[0] != '0')
    ensures s == Decimal(n)
  {
    var front := s[..|s| - 1];
    assert s == front + [s[|s| - 1]];
    var f := DecimalValue(front).value;
    if front == "" {
      assert n < 10;
    } else {
      OneDecimal(front, f);
      NotZero(front, f);
      assert n / 10 == f;
    }
  }

  lemma {:induction false} NotZero(s: string, n: nat)
    requires s != "" && s[0] != '0' && DecimalValue(s) == Some(n)
    ensures n > 0
  {
    var front := s[..|s| - 1];
    if front != "" {
      NotZero(front, DecimalValue(front).value);
    } else {
      assert s[0] == s[|s| - 1];
    }
  }

  function Escape(s: string): string {
    if s == "" then "" else
      (if s[0] == '~' then "~0" else if s[0] == '/' then "~1" else [s[0]]) + Escape(s[1..])
  }

  function Pointer(tokens: seq<string>): string {
    if tokens == [] then "" else "/" + Escape(tokens[0]) + Pointer(tokens[1..])
  }

  /** A pointer that is written from its reference tokens reads back as those tokens. */
  lemma {:induction false} PointerRoundTrip(tokens: seq<string>)
    ensures Tokens(Pointer(tokens)) == Some(tokens)
  {
    if tokens != [] {
      PointerRoundTrip(tokens[1..]);
      TokensOfEscaped(tokens[0], Pointer(tokens[1..]));
      assert [tokens[0]] + tokens[1..] == tokens;
    }
  }

  lemma TokensOfEscaped(s: string, rest: string)
    requires (rest == "" || rest[0] == '/') && Tokens(rest).Some?
    ensures Tokens("/" + Escape(s) + rest) == Some([s] + Tokens(rest).value)
  {
    var token, p := Escape(s), "/" + Escape(s) + rest;
    EscapeRoundTrip(s);
    assert p[1..] == token + rest;
    IndexOfPrefix(token, '/', rest);
    assert IndexOf(p[1..], '/') == |token|;
    assert p[1..1 + |token|] == token && p[1 + |token|..] == rest;
  }

  lemma {:induction false} EscapeRoundTrip(s: string)
    ensures Unescape(Escape(s)) == Some(s) && '/' !in Escape(s)
  {
    if s != "" {
      var rest, e := Escape(s[1..]), Escape(s);
      EscapeRoundTrip(s[1..]);
      assert [s[0]] + s[1..] == s;
      if s[0] == '~' || s[0] == '/' {
        assert e[0] == '~' && e[2..] == rest;
      } else {
        assert e[1..] == rest;
      }
    }
  }

  /** The root of the bundle is a closed object of draft 2020-12 and holds nothing else besides its two tables. */
  lemma BundleRoot(schemas: seq<Schema>)
    ensures Bundle(schemas).Object?
    ensures var root := Bundle(schemas).fields;
      && root.Keys == {"$schema", "title", "type", "additionalProperties", "properties", "definitions"}
      && root["$schema"] == Text("https://json-schema.org/draft/2020-12/schema")
      && root["title"] == Text("_AetherForgeSchemasRoot")
      && root["type"] == Text("object") && root["additionalProperties"] == Bool(false)
  {
  }
}
