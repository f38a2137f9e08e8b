/** Synthesis of OpenAPI path items from the application's route table. */
module RouteScanner {
  import opened Values
  import opened Text
  import opened Reflection
  import opened TypeResolver
  import opened HandlerAnalyzer
  import opened DtoSchemaGenerator

  /** A middleware entry: a class name, or any other value (a closure, an
      object, a nested pipeline). */
  datatype Middleware = MwName(name: string) | MwOther

  /** One route of the `routes` table: its path (None when missing or
      null), its `allowed_methods` and its `middleware` pipeline, missing
      lists being empty. */
  datatype Route = Route(path: Option<string>, allowedMethods: seq<string>, middleware: seq<Middleware>)

  /** The operations of one path, keyed by lower-case method. */
  type Operations = seq<Entry<Schema>>

  /** The `paths` object, keyed by path. */
  type Paths = seq<Entry<Operations>>

  /** PHP's falsy strings. */
  predicate Falsy(s: string) {
    s == "" || s == "0"
  }

  /** A nullable string used as a condition. */
  predicate Truthy(o: Option<string>) {
    o.Some? && !Falsy(o.value)
  }

  // ---- Handler resolution ----

  /** `extractHandlerClass`: the last middleware entry, when it names an
      existing class. */
  function ExtractHandlerClass(reg: Registry, middleware: seq<Middleware>): (r: Option<string>)
    ensures r.Some? <==> middleware != [] && middleware[|middleware| - 1].MwName?
                         && ClassExists(reg, middleware[|middleware| - 1].name)
    ensures r.Some? ==> r.value == middleware[|middleware| - 1].name
  {
    if middleware == [] then None
    else
      var handler := middleware[|middleware| - 1];
      if handler.MwName? && ClassExists(reg, handler.name) then Some(handler.name) else None
  }

  // ---- Names derived from the handler class ----

  /** The namespace segments that are never a tag. */
  predicate Excluded(part: string) {
    part == "Application" || part == "Handler" || part == "Command"
  }

  /** Every segment is excluded. */
  predicate AllExcluded(parts: seq<string>) {
    forall i :: 0 <= i < |parts| ==> Excluded(parts[i])
  }

  /** The first segment that is not excluded. */
  function FirstModule(parts: seq<string>): (r: Option<string>)
    ensures r.None? <==> forall i :: 0 <= i < |parts| ==> Excluded(parts[i])
    ensures r.Some? ==> exists i :: 0 <= i < |parts| && parts[i] == r.value && !Excluded(parts[i])
                                    && forall j :: 0 <= j < i ==> Excluded(parts[j])
  {
    if parts == [] then None
    else if !Excluded(parts[0]) then Some(parts[0])
    else
      var r := FirstModule(parts[1..]);
      assert forall i :: 1 <= i < |parts| ==> parts[i] == parts[1..][i - 1];
      assert r.Some? ==> exists i :: 0 <= i < |parts| && parts[i] == r.value && !Excluded(parts[i])
                                      && forall j :: 0 <= j < i ==> Excluded(parts[j]) by {
        if r.Some? {
          var k :| 0 <= k < |parts[1..]| && parts[1..][k] == r.value && !Excluded(parts[1..][k])
                   && forall j :: 0 <= j < k ==> Excluded(parts[1..][j]);
          assert parts[k + 1] == r.value && forall j :: 0 <= j < k + 1 ==> Excluded(parts[j]);
        }
      }
      r
  }

  /** `extractTag`: the first namespace segment that is not Application,
      Handler or Command, pluralised with "s"; "API" when there is none. */
  function ExtractTag(handlerClass: string): string {
    var m := FirstModule(Split(handlerClass, '\\'));
    if m.Some? then m.value + "s" else "API"
  }

  /** The tag is "API" exactly when every segment is excluded; otherwise it
      is a segment plus "s". */
  lemma TagIff(handlerClass: string)
    ensures var parts := Split(handlerClass, '\\');
      && (ExtractTag(handlerClass) == "API" <==> AllExcluded(parts))
      && (ExtractTag(handlerClass) != "API" ==>
            exists i :: 0 <= i < |parts| && !Excluded(parts[i]) && ExtractTag(handlerClass) == parts[i] + "s"
                        && forall j :: 0 <= j < i ==> Excluded(parts[j]))
  {
    var m := FirstModule(Split(handlerClass, '\\'));
    var parts := Split(handlerClass, '\\');
    if m.Some? {
      var t := m.value + "s";
      assert ExtractTag(handlerClass) == t;
      assert t[|t| - 1] == 's' && "API"[|"API"| - 1] == 'I';
      assert t != "API";
      var i :| 0 <= i < |parts| && parts[i] == m.value && !Excluded(parts[i]) && forall j :: 0 <= j < i ==> Excluded(parts[j]);
      assert !AllExcluded(parts);
    } else {
      assert AllExcluded(parts);
    }
  }

  /** `class_basename`: the text after the last backslash or slash. */
  function ClassBasename(handlerClass: string): string {
    LastSegment(handlerClass, {'\\', '/'})
  }

  /** The basename with every "Handler" removed by one left-to-right pass. */
  function StrippedName(handlerClass: string): string {
    RemoveAll(ClassBasename(handlerClass), "Handler")
  }

  /** `generateSummary`: the stripped name cut before each upper-case
      letter, lower-cased, joined with spaces. */
  function GenerateSummary(handlerClass: string): string {
    Join(LowerAll(Words(StrippedName(handlerClass))), " ")
  }

  /** The summary is lower case, and its words spell the stripped name. */
  lemma SummaryWords(handlerClass: string)
    ensures NoUpper(GenerateSummary(handlerClass))
    ensures var ws := LowerAll(Words(StrippedName(handlerClass)));
      GenerateSummary(handlerClass) == Join(ws, " ") && Concat(ws) == LowerStr(StrippedName(handlerClass))
      && forall i :: 0 <= i < |ws| ==> ws[i] != []
  {
    var ws := LowerAll(Words(StrippedName(handlerClass)));
    forall i | 0 <= i < |ws| ensures NoUpper(ws[i]) {
      LowerStrNoUpper(Words(StrippedName(handlerClass))[i]);
    }
    JoinNoUpper(ws, " ");
    ConcatLowerAll(Words(StrippedName(handlerClass)));
  }

  /** `generateOperationId`: the stripped name with its first letter
      lower-cased. */
  function GenerateOperationId(handlerClass: string): string {
    LcFirst(StrippedName(handlerClass))
  }

  lemma HandlerNoBorder()
    ensures NoBorder("Handler")
  {
    var p := "Handler";
    forall k | 0 < k < |p| ensures p[..k] != p[|p| - k..] {
      assert p[..k][0] == 'H' && p[|p| - k..][0] == p[|p| - k];
    }
  }

  /** Every "Handler" in the basename is removed, wherever it stands: a
      basename made of pieces joined by "Handler" (none of them containing
      it) is stripped to the pieces run together. */
  lemma StrippedNameOfPieces(ns: string, pieces: seq<string>)
    requires ns != [] && ns[|ns| - 1] == '\\'
    requires forall i, j :: 0 <= i < |pieces| && 0 <= j < |pieces[i]| ==> pieces[i][j] != '\\' && pieces[i][j] != '/'
    requires forall i :: 0 <= i < |pieces| ==> !Contains(pieces[i], "Handler")
    ensures StrippedName(ns + Join(pieces, "Handler")) == Concat(pieces)
  {
    var name := Join(pieces, "Handler");
    assert forall j :: 0 <= j < 7 ==> "Handler"[j] != '\\' && "Handler"[j] != '/';
    JoinAvoids(pieces, "Handler", {'\\', '/'});
    LastSegmentOf(ns, name, {'\\', '/'});
    HandlerNoBorder();
    RemoveAllJoin(pieces, "Handler");
  }

  /** The operationId and the summary of such a handler are built from the
      pieces run together. */
  lemma OperationIdOfPieces(ns: string, pieces: seq<string>)
    requires ns != [] && ns[|ns| - 1] == '\\'
    requires forall i, j :: 0 <= i < |pieces| && 0 <= j < |pieces[i]| ==> pieces[i][j] != '\\' && pieces[i][j] != '/'
    requires forall i :: 0 <= i < |pieces| ==> !Contains(pieces[i], "Handler")
    ensures GenerateOperationId(ns + Join(pieces, "Handler")) == LcFirst(Concat(pieces))
    ensures GenerateSummary(ns + Join(pieces, "Handler")) == Join(LowerAll(Words(Concat(pieces))), " ")
  {
    StrippedNameOfPieces(ns, pieces);
  }

  /** The basename of the usual `Ns\XHandler`, with no "Handler" in X,
      is stripped to X. */
  lemma StrippedNameOfHandler(ns: string, x: string)
    requires ns != [] && ns[|ns| - 1] == '\\'
    requires forall i :: 0 <= i < |x| ==> x[i] != '\\' && x[i] != '/'
    requires !Contains(x, "Handler")
    ensures StrippedName(ns + x + "Handler") == x
  {
    var name := x + "Handler";
    assert ns + x + "Handler" == ns + name;
    assert forall i :: 0 <= i < |name| ==> name[i] !in {'\\', '/'} by {
      forall i | 0 <= i < |name| ensures name[i] !in {'\\', '/'} {
        if i >= |x| {
          assert name[i] == "Handler"[i - |x|];
          assert forall j :: 0 <= j < 7 ==> "Handler"[j] != '\\' && "Handler"[j] != '/';
        }
      }
    }
    LastSegmentOf(ns, name, {'\\', '/'});
    HandlerNoBorder();
    RemoveAllMid(x, "Handler", []);
    assert name + [] == name && x + [] == x;
  }

  /** For `Ns\XHandler` with no "Handler" in X, the operationId is X with a
      lower-case first letter, and the summary is built from X. */
  lemma OperationIdOfHandler(ns: string, x: string)
    requires ns != [] && ns[|ns| - 1] == '\\'
    requires forall i :: 0 <= i < |x| ==> x[i] != '\\' && x[i] != '/'
    requires !Contains(x, "Handler")
    ensures StrippedName(ns + x + "Handler") == x
    ensures GenerateOperationId(ns + x + "Handler") == LcFirst(x)
    ensures GenerateSummary(ns + x + "Handler") == Join(LowerAll(Words(x)), " ")
  {
    StrippedNameOfHandler(ns, x);
  }

  /** A leading "Handler" goes as well as the trailing one: the basename
      of `Ns\HandlerXHandler` is stripped to X when X contains no
      "Handler". */
  lemma LeadingHandlerRemoved(ns: string, x: string)
    requires ns != [] && ns[|ns| - 1] == '\\'
    requires forall i :: 0 <= i < |x| ==> x[i] != '\\' && x[i] != '/'
    requires !Contains(x, "Handler")
    ensures StrippedName(ns + "Handler" + x + "Handler") == x
    ensures GenerateOperationId(ns + "Handler" + x + "Handler") == LcFirst(x)
  {
    var name := "Handler" + (x + "Handler");
    assert ns + "Handler" + x + "Handler" == ns + name;
    HandlerChars(x);
    BasenameAfter(ns, name);
    HandlerNoBorder();
    RemoveAllAtStart("Handler", x + "Handler");
    RemoveAllMid(x, "Handler", []);
    assert x + "Handler" + [] == x + "Handler";
  }

  /** Neither "Handler" nor "Handler" + x + "Handler" has a separator when
      x has none. */
  lemma HandlerChars(x: string)
    requires forall i :: 0 <= i < |x| ==> x[i] != '\\' && x[i] != '/'
    ensures var name := "Handler" + (x + "Handler");
      forall i :: 0 <= i < |name| ==> name[i] != '\\' && name[i] != '/'
  {
    var h := "Handler";
    assert forall j :: 0 <= j < |h| ==> h[j] != '\\' && h[j] != '/';
    var name := h + (x + h);
    forall i | 0 <= i < |name| ensures name[i] != '\\' && name[i] != '/' {
      if i < |h| { assert name[i] == h[i]; }
      else if i < |h| + |x| { assert name[i] == x[i - |h|]; }
      else { assert name[i] == h[i - |h| - |x|]; }
    }
  }

  lemma BasenameAfter(ns: string, name: string)
    requires ns != [] && ns[|ns| - 1] == '\\'
    requires forall i :: 0 <= i < |name| ==> name[i] != '\\' && name[i] != '/'
    ensures ClassBasename(ns + name) == name
  {
    LastSegmentOf(ns, name, {'\\', '/'});
  }

  // ---- Path parameters ----

  /** A placeholder found at the start of a text: its name and the length
      of the text it spans. */
  datatype Placeholder = Placeholder(name: string, len: nat)

  /** An attempt of `/\{([^:}]+)(?::[^}]+)?\}/` at the start of s: a brace,
      a name with neither ':' nor '}', optionally ':' and a pattern
      without '}', and a closing brace. */
  function MatchAt(s: string): (r: Option<Placeholder>)
    ensures r.Some? ==> 3 <= r.value.len <= |s| && s[0] == '{' && s[r.value.len - 1] == '}'
    ensures r.Some? ==> r.value.name != [] && |r.value.name| + 2 <= r.value.len && r.value.name == s[1..1 + |r.value.name|]
    ensures r.Some? ==> forall j :: 0 <= j < |r.value.name| ==> r.value.name[j] != ':' && r.value.name[j] != '}'
  {
    if s == [] || s[0] != '{' then None
    else
      var n := Run(s[1..], {':', '}'});
      if n == 0 || 1 + n >= |s| then None
      else
        var name := s[1..1 + n];
        assert forall j :: 0 <= j < n ==> name[j] == s[1..][j];
        if s[1 + n] == '}' then Some(Placeholder(name, n + 2))
        else
          var m := Run(s[2 + n..], {'}'});
          if m == 0 || 2 + n + m >= |s| then None
          else Some(Placeholder(name, n + m + 3))
  }

  /** `preg_match_all(...)[1]`: the names of all placeholders, scanning left to
      right and resuming after each match. */
  function Placeholders(path: string): (names: seq<string>)
    ensures forall i :: 0 <= i < |names| ==> names[i] != []
    ensures forall i, j :: 0 <= i < |names| && 0 <= j < |names[i]| ==> names[i][j] != ':' && names[i][j] != '}'
    decreases |path|
  {
    if path == [] then []
    else
      var m := MatchAt(path);
      if m.Some? then [m.value.name] + Placeholders(path[m.value.len..])
      else Placeholders(path[1..])
  }

  /** Text without an opening brace holds no placeholder. */
  lemma {:induction false} PlaceholdersSkip(prefix: string, rest: string)
    requires forall i :: 0 <= i < |prefix| ==> prefix[i] != '{'
    ensures Placeholders(prefix + rest) == Placeholders(rest)
    decreases |prefix|
  {
    if prefix == [] {
      assert prefix + rest == rest;
    } else {
      assert (prefix + rest)[0] == prefix[0];
      assert (prefix + rest)[1..] == prefix[1..] + rest;
      PlaceholdersSkip(prefix[1..], rest);
    }
  }

  /** A valid name without a colon or closing brace. */
  predicate PlainName(name: string) {
    name != [] && forall j :: 0 <= j < |name| ==> name[j] != ':' && name[j] != '}'
  }

  /** `{name}` matches at its opening brace and spans the whole placeholder. */
  lemma MatchAtBare(name: string, rest: string)
    requires PlainName(name)
    ensures MatchAt("{" + name + "}" + rest) == Some(Placeholder(name, |name| + 2))
  {
    var s := "{" + name + "}" + rest;
    assert s[1..] == name + "}" + rest;
    RunOf(name, '}', rest, {':', '}'});
    assert s[1 + |name|] == '}';
    assert s[1..1 + |name|] == name;
  }

  /** `{name}` yields name, and scanning resumes after it. */
  lemma PlaceholdersBare(name: string, rest: string)
    requires PlainName(name)
    ensures Placeholders("{" + name + "}" + rest) == [name] + Placeholders(rest)
  {
    var s := "{" + name + "}" + rest;
    MatchAtBare(name, rest);
    assert s[|name| + 2..] == rest;
  }

  /** `{name:pattern}` matches at its opening brace and spans the whole
      placeholder. */
  lemma MatchAtPattern(name: string, pattern: string, rest: string)
    requires PlainName(name)
    requires pattern != [] && forall j :: 0 <= j < |pattern| ==> pattern[j] != '}'
    ensures MatchAt("{" + name + ":" + pattern + "}" + rest) == Some(Placeholder(name, |name| + |pattern| + 3))
  {
    var s := "{" + name + ":" + pattern + "}" + rest;
    PatternParts(name, pattern, rest);
    RunOf(name, ':', pattern + "}" + rest, {':', '}'});
    RunOf(pattern, '}', rest, {'}'});
    MatchAtWithPattern(s, |name|, |pattern|);
  }

  /** Where the name, the ':' and the pattern sit in `{name:pattern}rest`. */
  lemma PatternParts(name: string, pattern: string, rest: string)
    ensures var s := "{" + name + ":" + pattern + "}" + rest;
      && |s| == |name| + |pattern| + 3 + |rest| && s[0] == '{'
      && s[1..] == name + ":" + (pattern + "}" + rest)
      && s[1 + |name|] == ':'
      && s[2 + |name|..] == pattern + "}" + rest
      && s[1..1 + |name|] == name
  {
    var s := "{" + name + ":" + pattern + "}" + rest;
    assert s[1..] == name + ":" + (pattern + "}" + rest);
  }

  /** The branch of `MatchAt` that reads a name of length n, a ':' and a
      pattern of length m. */
  lemma MatchAtWithPattern(s: string, n: nat, m: nat)
    requires 2 + n + m < |s| && s[0] == '{' && s[1 + n] == ':'
    requires n != 0 && Run(s[1..], {':', '}'}) == n
    requires m != 0 && Run(s[2 + n..], {'}'}) == m
    ensures MatchAt(s) == Some(Placeholder(s[1..1 + n], n + m + 3))
  {
  }

  /** `{name:pattern}` yields name, and scanning resumes after it. */
  lemma PlaceholdersPattern(name: string, pattern: string, rest: string)
    requires PlainName(name)
    requires pattern != [] && forall j :: 0 <= j < |pattern| ==> pattern[j] != '}'
    ensures Placeholders("{" + name + ":" + pattern + "}" + rest) == [name] + Placeholders(rest)
  {
    var s := "{" + name + ":" + pattern + "}" + rest;
    MatchAtPattern(name, pattern, rest);
    assert s[|name| + |pattern| + 3..] == rest;
  }

  /** The schema a path parameter gets from its name. */
  function ParameterSchema(name: string): Schema {
    if name == "id" || name == "uuid" then Put(TypeSchema("string"), KStr("format"), Str("uuid"))
    else if Contains(name, "_id") || EndsWith(name, "Id") then TypeSchema("integer")
    else TypeSchema("string")
  }

  /** One entry of the `parameters` list. */
  function Parameter(name: string): Value {
    Arr([Entry(KStr("name"), Str(name)), Entry(KStr("in"), Str("path")), Entry(KStr("required"), Bool(true)),
         Entry(KStr("schema"), Arr(ParameterSchema(name)))])
  }

  /** A path parameter lists name, in, required and schema, in that order. */
  lemma ParameterKeys(name: string)
    ensures Keys(Parameter(name).entries) == [KStr("name"), KStr("in"), KStr("required"), KStr("schema")]
  {
    var e := Parameter(name).entries;
    assert Keys(e[3..]) == [KStr("schema")];
    assert Keys(e[2..]) == [KStr("required")] + Keys(e[3..]);
    assert Keys(e[1..]) == [KStr("in")] + Keys(e[2..]);
  }

  /** Every path parameter is `in: path` and `required: true`, as a Parameter
      Object of location path must be, and carries its name and schema. */
  lemma ParameterShape(name: string)
    ensures var e := Parameter(name).entries;
      && Get(e, KStr("name")) == Some(Str(name))
      && Get(e, KStr("in")) == Some(Str("path"))
      && Get(e, KStr("required")) == Some(Bool(true))
      && Get(e, KStr("schema")) == Some(Arr(ParameterSchema(name)))
  {
    var e := Parameter(name).entries;
    ParameterKeys(name);
    forall i | 0 <= i < |e| ensures Get(e, e[i].key) == Some(e[i].value) {
      GetUnique(e, i);
    }
    assert e[1].key == KStr("in") && e[2].key == KStr("required") && e[3].key == KStr("schema");
  }

  /** A parameter named id or uuid is a uuid-formatted string; otherwise one
      whose name contains `_id` or ends in `Id` is an integer without a
      format, and any other one a string without a format. */
  lemma ParameterSchemaShape(name: string)
    ensures var s := ParameterSchema(name);
      && (Get(s, KStr("type")) == Some(Str("integer")) <==>
            name != "id" && name != "uuid" && (Contains(name, "_id") || EndsWith(name, "Id")))
      && (Get(s, KStr("format")) == Some(Str("uuid")) <==> name == "id" || name == "uuid")
      && (Get(s, KStr("format")).None? <==> name != "id" && name != "uuid")
  {
    var num := TypeSchema("integer");
    var str := TypeSchema("string");
    assert num[1..] == [] && str[1..] == [];
    if name == "id" || name == "uuid" {
      assert ParameterSchema(name) == Put(str, KStr("format"), Str("uuid"));
    } else if Contains(name, "_id") || EndsWith(name, "Id") {
      assert ParameterSchema(name) == num;
      assert Get(num, KStr("format")).None? && Get(num, KStr("type")) == Some(Str("integer"));
    } else {
      assert ParameterSchema(name) == str;
      assert Get(str, KStr("format")).None? && Get(str, KStr("type")) == Some(Str("string"));
      assert Get(ParameterSchema(name), KStr("type")) != Some(Str("integer"));
    }
  }

  /** The `parameters` of a path: one per placeholder, in order. */
  function PathParameters(path: string): (ps: seq<Value>)
    ensures |ps| == |Placeholders(path)|
    ensures forall i :: 0 <= i < |ps| ==> ps[i] == Parameter(Placeholders(path)[i])
  {
    var names := Placeholders(path);
    seq(|names|, i requires 0 <= i < |names| => Parameter(names[i]))
  }

  // ---- Request body and responses ----

  function JsonRef(dtoClass: string): Value {
    Arr([Entry(KStr("application/json"), Arr([Entry(KStr("schema"), Arr(RefSchema(SchemaName(dtoClass))))]))])
  }

  /** `generateRequestBody`. */
  function GenerateRequestBody(requestDtoClass: string): (r: Schema)
    ensures Keys(r) == [KStr("required"), KStr("content")]
    ensures Get(r, KStr("required")) == Some(Bool(true))
    ensures Get(r, KStr("content")) == Some(JsonRef(requestDtoClass))
  {
    [Entry(KStr("required"), Bool(true)), Entry(KStr("content"), JsonRef(requestDtoClass))]
  }

  /** The methods that take a request body, compared case-sensitively. */
  predicate TakesBody(httpMethod: string) {
    httpMethod == "POST" || httpMethod == "PUT" || httpMethod == "PATCH"
  }

  /** The success status: 201 for POST, 204 for DELETE, 200 otherwise. */
  function SuccessCode(httpMethod: string): (code: int)
    ensures code == 201 <==> httpMethod == "POST"
    ensures code == 204 <==> httpMethod == "DELETE"
    ensures code == 200 <==> httpMethod != "POST" && httpMethod != "DELETE"
  {
    match httpMethod
    case "POST" => 201
    case "DELETE" => 204
    case _ => 200
  }

  function Description(d: string): Value {
    Arr([Entry(KStr("description"), Str(d))])
  }

  lemma DescriptionShape(d: string)
    ensures Keys(Description(d).entries) == [KStr("description")]
    ensures Get(Description(d).entries, KStr("description")) == Some(Str(d))
  {
  }

  /** The success response assigned into an empty array, then 400 and 404,
      exactly as `generateResponses` and `generateDefaultResponses` build it. */
  function WithErrors(code: int, success: Value): Schema {
    Put(Put(Put([], KInt(code), success), KInt(400), Description("Bad Request")), KInt(404), Description("Not Found"))
  }

  /** A success code that is neither 400 nor 404 comes first and keeps its
      response; the error responses follow it. */
  lemma WithErrorsShape(code: int, success: Value)
    requires code != 400 && code != 404
    ensures var r := WithErrors(code, success);
      && Keys(r) == [KInt(code), KInt(400), KInt(404)]
      && Get(r, KInt(code)) == Some(success)
      && Get(r, KInt(400)) == Some(Description("Bad Request"))
      && Get(r, KInt(404)) == Some(Description("Not Found"))
  {
    WithErrorsKeys(code, success);
    WithErrorsGets(code, success);
  }

  lemma WithErrorsKeys(code: int, success: Value)
    requires code != 400 && code != 404
    ensures Keys(WithErrors(code, success)) == [KInt(code), KInt(400), KInt(404)]
  {
    var e: Schema := [];
    assert Keys(e) == [];
    var r1 := Put(e, KInt(code), success);
    assert Keys(r1) == [KInt(code)] && KInt(400) !in Keys(r1);
    var r2 := Put(r1, KInt(400), Description("Bad Request"));
    assert Keys(r2) == [KInt(code), KInt(400)] && KInt(404) !in Keys(r2);
  }

  lemma WithErrorsGets(code: int, success: Value)
    requires code != 400 && code != 404
    ensures var r := WithErrors(code, success);
      && Get(r, KInt(code)) == Some(success)
      && Get(r, KInt(400)) == Some(Description("Bad Request"))
      && Get(r, KInt(404)) == Some(Description("Not Found"))
  {
    var r1 := Put([], KInt(code), success);
    var r2 := Put(r1, KInt(400), Description("Bad Request"));
    assert Get(r2, KInt(code)) == Get(r1, KInt(code)) == Some(success);
  }

  /** The success response of a DTO: its description and its content. */
  function SuccessContent(responseDtoClass: string): Value {
    Arr([Entry(KStr("description"), Str("Success")), Entry(KStr("content"), JsonRef(responseDtoClass))])
  }

  lemma SuccessContentShape(responseDtoClass: string)
    ensures var c := SuccessContent(responseDtoClass).entries;
      && Keys(c) == [KStr("description"), KStr("content")]
      && Get(c, KStr("description")) == Some(Str("Success"))
      && Get(c, KStr("content")) == Some(JsonRef(responseDtoClass))
  {
    var c := SuccessContent(responseDtoClass).entries;
    assert c[1..] == [Entry(KStr("content"), JsonRef(responseDtoClass))];
  }

  /** `generateResponses`. */
  function GenerateResponses(responseDtoClass: string, httpMethod: string): Schema {
    var code := SuccessCode(httpMethod);
    WithErrors(code, if code == 204 then Description("No Content") else SuccessContent(responseDtoClass))
  }

  /** `generateDefaultResponses`. */
  function GenerateDefaultResponses(httpMethod: string): Schema {
    WithErrors(SuccessCode(httpMethod), Description("Success"))
  }

  /** The responses of an operation: from the response DTO when there is a
      truthy one, the defaults otherwise. */
  function Responses(responseDto: Option<string>, httpMethod: string): Schema {
    if Truthy(responseDto) then GenerateResponses(responseDto.value, httpMethod) else GenerateDefaultResponses(httpMethod)
  }

  /** The responses of an operation: the success code, then 400 and 404;
      only a DTO response with a code other than 204 carries content. */
  lemma ResponsesShape(responseDto: Option<string>, httpMethod: string)
    ensures var r := Responses(responseDto, httpMethod);
      var code := SuccessCode(httpMethod);
      && Keys(r) == [KInt(code), KInt(400), KInt(404)]
      && Get(r, KInt(400)) == Some(Description("Bad Request"))
      && Get(r, KInt(404)) == Some(Description("Not Found"))
      && Get(r, KInt(code)).Some? && Get(r, KInt(code)).value.Arr?
      && (KStr("content") in Keys(Get(r, KInt(code)).value.entries) <==> Truthy(responseDto) && code != 204)
      && (Truthy(responseDto) && code != 204 ==>
            Get(Get(r, KInt(code)).value.entries, KStr("content")) == Some(JsonRef(responseDto.value)))
      && Get(Get(r, KInt(code)).value.entries, KStr("description")) ==
           Some(Str(if Truthy(responseDto) && code == 204 then "No Content" else "Success"))
  {
    var code := SuccessCode(httpMethod);
    assert Responses(responseDto, httpMethod) == WithErrors(code, SuccessResponse(responseDto, code));
    WithErrorsShape(code, SuccessResponse(responseDto, code));
    SuccessResponseShape(responseDto, code);
  }

  /** The response both `generateResponses` and `generateDefaultResponses`
      put under the success code. */
  function SuccessResponse(responseDto: Option<string>, code: int): Value {
    if !Truthy(responseDto) then Description("Success")
    else if code == 204 then Description("No Content")
    else SuccessContent(responseDto.value)
  }

  /** The success response has content exactly for a DTO and a code other
      than 204, and is described as Success unless it is a DTO's 204. */
  lemma SuccessResponseShape(responseDto: Option<string>, code: int)
    ensures var v := SuccessResponse(responseDto, code);
      && v.Arr?
      && (KStr("content") in Keys(v.entries) <==> Truthy(responseDto) && code != 204)
      && (Truthy(responseDto) && code != 204 ==> Get(v.entries, KStr("content")) == Some(JsonRef(responseDto.value)))
      && Get(v.entries, KStr("description")) == Some(Str(if Truthy(responseDto) && code == 204 then "No Content" else "Success"))
  {
    if Truthy(responseDto) && code != 204 {
      SuccessContentShape(responseDto.value);
    } else {
      DescriptionShape(if Truthy(responseDto) then "No Content" else "Success");
    }
  }

  // ---- Operations ----

  /** The three names `generateOperation` derives from the handler class. */
  datatype OperationNames = OperationNames(operationId: string, summary: string, tag: string)

  function HandlerNames(handlerClass: string): OperationNames {
    OperationNames(GenerateOperationId(handlerClass), GenerateSummary(handlerClass), ExtractTag(handlerClass))
  }

  /** The operationId, summary and tags an operation starts with. */
  function OperationBase(names: OperationNames): Schema {
    [Entry(KStr("operationId"), Str(names.operationId)),
     Entry(KStr("summary"), Str(names.summary)),
     Entry(KStr("tags"), StrList([names.tag]))]
  }

  /** The assignment of `parameters`, made only when there are any. */
  function WithParameters(op: Schema, parameters: seq<Value>): Schema {
    if parameters != [] then Put(op, KStr("parameters"), List(parameters)) else op
  }

  /** The assignment of `requestBody`, made only when there is one. */
  function WithRequestBody(op: Schema, requestBody: Option<Schema>): Schema {
    if requestBody.Some? then Put(op, KStr("requestBody"), Arr(requestBody.value)) else op
  }

  /** An operation from its parts, assigned key by key: `parameters` when
      there are any, `requestBody` when there is one, then `responses`. */
  function Assemble(base: Schema, parameters: seq<Value>, requestBody: Option<Schema>, responses: Schema): Schema {
    Put(WithRequestBody(WithParameters(base, parameters), requestBody), KStr("responses"), Arr(responses))
  }

  /** The request body of an operation: only with a truthy request DTO and a
      method that takes a body. */
  function RequestBodyOf(info: HandlerInfo, httpMethod: string): (r: Option<Schema>)
    ensures r.Some? <==> Truthy(info.requestDto) && TakesBody(httpMethod)
    ensures r.Some? ==> r.value == GenerateRequestBody(info.requestDto.value)
  {
    if Truthy(info.requestDto) && TakesBody(httpMethod) then Some(GenerateRequestBody(info.requestDto.value)) else None
  }

  /** `generateOperation`, as a value. */
  function Operation(names: OperationNames, httpMethod: string, path: string, info: HandlerInfo): Schema {
    Assemble(OperationBase(names), PathParameters(path), RequestBodyOf(info, httpMethod), Responses(info.responseDto, httpMethod))
  }

  /** The base keys of an operation. */
  const BaseKeys: seq<Key> := [KStr("operationId"), KStr("summary"), KStr("tags")]

  lemma OperationBaseShape(names: OperationNames)
    ensures var b := OperationBase(names);
      && Keys(b) == BaseKeys
      && Get(b, KStr("operationId")) == Some(Str(names.operationId))
      && Get(b, KStr("summary")) == Some(Str(names.summary))
      && Get(b, KStr("tags")) == Some(StrList([names.tag]))
  {
    var b := OperationBase(names);
    var b1, b2 := b[1..], b[2..];
    assert b1[1..] == b2 && b2[1..] == [];
    assert Keys(b2) == [KStr("tags")] && Get(b2, KStr("tags")) == Some(StrList([names.tag]));
    assert Keys(b1) == [KStr("summary"), KStr("tags")] && Get(b1, KStr("summary")) == Some(Str(names.summary));
    assert Get(b1, KStr("tags")) == Get(b2, KStr("tags"));
    assert Get(b, KStr("summary")) == Get(b1, KStr("summary")) && Get(b, KStr("tags")) == Get(b1, KStr("tags"));
  }

  /** Parameters, when there are any, are appended; no other key changes. */
  lemma WithParametersShape(op: Schema, parameters: seq<Value>)
    requires KStr("parameters") !in Keys(op)
    ensures var r := WithParameters(op, parameters);
      && Keys(r) == Keys(op) + (if parameters != [] then [KStr("parameters")] else [])
      && (parameters != [] ==> Get(r, KStr("parameters")) == Some(List(parameters)))
      && forall k :: k != KStr("parameters") ==> Get(r, k) == Get(op, k)
  {
    if parameters == [] {
      assert Keys(op) + [] == Keys(op);
    }
  }

  /** A request body, when there is one, is appended; no other key changes. */
  lemma WithRequestBodyShape(op: Schema, requestBody: Option<Schema>)
    requires KStr("requestBody") !in Keys(op)
    ensures var r := WithRequestBody(op, requestBody);
      && Keys(r) == Keys(op) + (if requestBody.Some? then [KStr("requestBody")] else [])
      && (requestBody.Some? ==> Get(r, KStr("requestBody")) == Some(Arr(requestBody.value)))
      && forall k :: k != KStr("requestBody") ==> Get(r, k) == Get(op, k)
  {
    if requestBody.None? {
      assert Keys(op) + [] == Keys(op);
    }
  }

  /** The keys of an assembled operation, in order. */
  lemma AssembleKeys(base: Schema, parameters: seq<Value>, requestBody: Option<Schema>, responses: Schema)
    requires Keys(base) == BaseKeys
    ensures Keys(Assemble(base, parameters, requestBody, responses)) ==
      BaseKeys
      + (if parameters != [] then [KStr("parameters")] else [])
      + (if requestBody.Some? then [KStr("requestBody")] else [])
      + [KStr("responses")]
  {
    var op1 := WithParameters(base, parameters);
    WithParametersShape(base, parameters);
    assert KStr("requestBody") !in Keys(op1) && KStr("responses") !in Keys(op1);
    AssembleTailKeys(op1, requestBody, responses);
  }

  /** The keys the last two assignments of an operation append. */
  lemma AssembleTailKeys(op1: Schema, requestBody: Option<Schema>, responses: Schema)
    requires KStr("requestBody") !in Keys(op1) && KStr("responses") !in Keys(op1)
    ensures Keys(Put(WithRequestBody(op1, requestBody), KStr("responses"), Arr(responses))) ==
      Keys(op1) + (if requestBody.Some? then [KStr("requestBody")] else []) + [KStr("responses")]
  {
    WithRequestBodyShape(op1, requestBody);
  }

  /** Assembling an operation changes no key other than the three it
      assigns: the base keys keep their values. */
  lemma AssembleKeepsOthers(base: Schema, parameters: seq<Value>, requestBody: Option<Schema>, responses: Schema, k: Key)
    requires k != KStr("parameters") && k != KStr("requestBody") && k != KStr("responses")
    ensures Get(Assemble(base, parameters, requestBody, responses), k) == Get(base, k)
  {
    var op1 := WithParameters(base, parameters);
    assert Get(op1, k) == Get(base, k);
    assert Get(WithRequestBody(op1, requestBody), k) == Get(op1, k);
  }

  /** The keys an assembled operation adds hold its parts. */
  lemma AssembleGets(base: Schema, parameters: seq<Value>, requestBody: Option<Schema>, responses: Schema)
    ensures var op := Assemble(base, parameters, requestBody, responses);
      && (parameters != [] ==> Get(op, KStr("parameters")) == Some(List(parameters)))
      && (requestBody.Some? ==> Get(op, KStr("requestBody")) == Some(Arr(requestBody.value)))
      && Get(op, KStr("responses")) == Some(Arr(responses))
  {
    var op1 := WithParameters(base, parameters);
    var op2 := WithRequestBody(op1, requestBody);
    assert Get(op2, KStr("parameters")) == Get(op1, KStr("parameters"));
    assert Assemble(base, parameters, requestBody, responses) == Put(op2, KStr("responses"), Arr(responses));
  }

  /** The keys of an operation, in order: operationId, summary, tags, then
      parameters when the path has placeholders, requestBody when there is a
      request DTO and the method is POST, PUT or PATCH, and responses. */
  lemma OperationShape(names: OperationNames, httpMethod: string, path: string, info: HandlerInfo)
    ensures var op := Operation(names, httpMethod, path, info);
      var hasParams := Placeholders(path) != [];
      var hasBody := Truthy(info.requestDto) && TakesBody(httpMethod);
      && Keys(op) == BaseKeys
                     + (if hasParams then [KStr("parameters")] else [])
                     + (if hasBody then [KStr("requestBody")] else [])
                     + [KStr("responses")]
      && Get(op, KStr("operationId")) == Some(Str(names.operationId))
      && Get(op, KStr("summary")) == Some(Str(names.summary))
      && Get(op, KStr("tags")) == Some(StrList([names.tag]))
      && (hasParams ==> Get(op, KStr("parameters")) == Some(List(PathParameters(path))))
      && (hasBody ==> Get(op, KStr("requestBody")) == Some(Arr(GenerateRequestBody(info.requestDto.value))))
      && Get(op, KStr("responses")) == Some(Arr(Responses(info.responseDto, httpMethod)))
  {
    OperationBaseShape(names);
    var base, parameters, requestBody, responses :=
      OperationBase(names), PathParameters(path), RequestBodyOf(info, httpMethod), Responses(info.responseDto, httpMethod);
    AssembleKeys(base, parameters, requestBody, responses);
    AssembleGets(base, parameters, requestBody, responses);
    AssembleKeepsOthers(base, parameters, requestBody, responses, KStr("operationId"));
    AssembleKeepsOthers(base, parameters, requestBody, responses, KStr("summary"));
    AssembleKeepsOthers(base, parameters, requestBody, responses, KStr("tags"));
  }

  /** Each allowed method's operation under its lower-case name, in method
      order. */
  function MethodEntries(names: OperationNames, path: string, info: HandlerInfo, methods: seq<string>): seq<Entry<Schema>> {
    seq(|methods|, i requires 0 <= i < |methods| => Entry(KStr(LowerStr(methods[i])), Operation(names, methods[i], path, info)))
  }

  /** The operations of one route for a resolved handler: the entries
      assigned in order, so that a later method with the same lower-case
      name overwrites the earlier one in place. */
  function MethodOperations(names: OperationNames, path: string, info: HandlerInfo, methods: seq<string>): Operations {
    Merge([], MethodEntries(names, path, info, methods))
  }

  /** The lower-cased methods, in order. */
  function MethodKeys(methods: seq<string>): (ks: seq<Key>)
    ensures |ks| == |methods| && forall i :: 0 <= i < |methods| ==> ks[i] == KStr(LowerStr(methods[i]))
  {
    seq(|methods|, i requires 0 <= i < |methods| => KStr(LowerStr(methods[i])))
  }

  lemma MethodEntriesKeys(names: OperationNames, path: string, info: HandlerInfo, methods: seq<string>)
    ensures Keys(MethodEntries(names, path, info, methods)) == MethodKeys(methods)
  {
    var es := MethodEntries(names, path, info, methods);
    forall i | 0 <= i < |es| ensures Keys(es)[i] == MethodKeys(methods)[i] {
      KeysAt(es, i);
    }
  }

  /** One more method assigns its operation under its lower-case name. */
  lemma MethodOperationsSnoc(names: OperationNames, path: string, info: HandlerInfo, methods: seq<string>, m: string)
    ensures MethodOperations(names, path, info, methods + [m]) ==
      Put(MethodOperations(names, path, info, methods), KStr(LowerStr(m)), Operation(names, m, path, info))
  {
    var es := MethodEntries(names, path, info, methods + [m]);
    assert es[..|methods|] == MethodEntries(names, path, info, methods);
    assert es[|methods|] == Entry(KStr(LowerStr(m)), Operation(names, m, path, info));
  }

  /** The operations of the first i + 1 methods, from those of the first i. */
  lemma MethodOperationsStep(names: OperationNames, path: string, info: HandlerInfo, methods: seq<string>, i: nat)
    requires i < |methods|
    ensures MethodOperations(names, path, info, methods[..i + 1]) ==
      Put(MethodOperations(names, path, info, methods[..i]), KStr(LowerStr(methods[i])), Operation(names, methods[i], path, info))
  {
    TakeSnoc(methods, i);
    MethodOperationsSnoc(names, path, info, methods[..i], methods[i]);
  }

  /** The method keys of a route's operations are the lower-cased allowed
      methods. */
  lemma MethodOperationsKeys(names: OperationNames, path: string, info: HandlerInfo, methods: seq<string>, k: Key)
    ensures k in Keys(MethodOperations(names, path, info, methods)) <==> k in MethodKeys(methods)
  {
    MergeKeys([], MethodEntries(names, path, info, methods));
    MethodEntriesKeys(names, path, info, methods);
    assert Keys<Schema>([]) == [];
  }

  /** No method key is repeated. */
  lemma MethodOperationsUnique(names: OperationNames, path: string, info: HandlerInfo, methods: seq<string>)
    ensures UniqueKeys(MethodOperations(names, path, info, methods))
  {
    var e: Operations := [];
    assert Keys(e) == [];
    MergeUnique(e, MethodEntries(names, path, info, methods));
  }

  /** A method's operation is the one of the last method with the same
      lower-case name: a later "get" overwrites an earlier "GET". */
  lemma LastMethodWins(names: OperationNames, path: string, info: HandlerInfo, methods: seq<string>, i: nat)
    requires i < |methods|
    requires forall j :: i < j < |methods| ==> LowerStr(methods[j]) != LowerStr(methods[i])
    ensures Get(MethodOperations(names, path, info, methods), KStr(LowerStr(methods[i]))) ==
      Some(Operation(names, methods[i], path, info))
  {
    var es := MethodEntries(names, path, info, methods);
    assert forall j :: i < j < |es| ==> es[j].key != es[i].key;
    MergeLastWins([], es, i);
  }

  /** The path a route's operations are generated for: its path, or the
      empty string when it has none. */
  function RoutePath(route: Route): string {
    if route.path.Some? then route.path.value else ""
  }

  /** The handler of a route that `generateOperations` accepts. */
  function RouteHandler(reg: Registry, route: Route): Option<string> {
    var h := ExtractHandlerClass(reg, route.middleware);
    if h.None? || Falsy(h.value) || !ClassExists(reg, h.value) then None else h
  }

  /** `generateOperations`, as a value. */
  function RouteOperations(reg: Registry, route: Route): Operations {
    var h := RouteHandler(reg, route);
    if h.None? then []
    else MethodOperations(HandlerNames(h.value), RoutePath(route), Analyze(reg, h.value), route.allowedMethods)
  }

  /** A route produces no operations exactly when it has no accepted
      handler or no allowed methods. */
  lemma RouteOperationsEmptyIff(reg: Registry, route: Route)
    ensures RouteOperations(reg, route) == [] <==> RouteHandler(reg, route).None? || route.allowedMethods == []
  {
    var h := RouteHandler(reg, route);
    if h.Some? && route.allowedMethods != [] {
      var ms := route.allowedMethods;
      MethodOperationsKeys(HandlerNames(h.value), RoutePath(route), Analyze(reg, h.value), ms, KStr(LowerStr(ms[0])));
      assert MethodKeys(ms)[0] == KStr(LowerStr(ms[0]));
    }
  }

  /** Empty middleware, or a last middleware entry that is not an existing
      class, gives no handler. */
  lemma NoHandler(reg: Registry, route: Route)
    requires route.middleware == [] || !route.middleware[|route.middleware| - 1].MwName?
             || !ClassExists(reg, route.middleware[|route.middleware| - 1].name)
    ensures RouteOperations(reg, route) == []
  {
  }

  // ---- Paths ----

  /** One iteration of `scanRoutes`: a route with a path and operations
      merges them into the operations already collected for that path. */
  function ScanStep(reg: Registry, paths: Paths, route: Route): Paths {
    if route.path.None? || Falsy(route.path.value) then paths
    else
      var ops := RouteOperations(reg, route);
      if ops == [] then paths
      else
        var existing := Get(paths, KStr(route.path.value));
        Put(paths, KStr(route.path.value), Merge(if existing.Some? then existing.value else [], ops))
  }

  /** `scanRoutes`, as a value. */
  function Scan(reg: Registry, routes: seq<Route>): Paths
    decreases |routes|
  {
    if routes == [] then [] else ScanStep(reg, Scan(reg, routes[..|routes| - 1]), routes[|routes| - 1])
  }

  /** A route contributes to its path exactly when it has a non-falsy path
      and operations. */
  predicate Contributes(reg: Registry, route: Route) {
    route.path.Some? && !Falsy(route.path.value) && RouteHandler(reg, route).Some? && route.allowedMethods != []
  }

  /** Contributing is having a non-falsy path and a non-empty set of
      operations, the two tests `scanRoutes` makes. */
  lemma ContributesIff(reg: Registry, route: Route)
    ensures Contributes(reg, route) <==>
      route.path.Some? && !Falsy(route.path.value) && RouteOperations(reg, route) != []
  {
    RouteOperationsEmptyIff(reg, route);
  }

  /** The paths of the contributing routes, in route order. */
  function ContributingPaths(reg: Registry, routes: seq<Route>): seq<string>
    decreases |routes|
  {
    if routes == [] then []
    else
      var last := routes[|routes| - 1];
      ContributingPaths(reg, routes[..|routes| - 1]) + if Contributes(reg, last) then [last.path.value] else []
  }

  /** A path is a contributing path exactly when some route with that path
      contributes. */
  lemma {:induction false} ContributingPathsIff(reg: Registry, routes: seq<Route>, p: string)
    ensures p in ContributingPaths(reg, routes) <==>
      exists i :: 0 <= i < |routes| && Contributes(reg, routes[i]) && routes[i].path.value == p
    decreases |routes|
  {
    if routes != [] {
      var init := routes[..|routes| - 1];
      ContributingPathsIff(reg, init, p);
      assert forall i :: 0 <= i < |init| ==> init[i] == routes[i];
    }
  }

  /** The paths listed are exactly those of the contributing routes. */
  lemma {:induction false} ScanKeys(reg: Registry, routes: seq<Route>, p: string)
    ensures KStr(p) in Keys(Scan(reg, routes)) <==> p in ContributingPaths(reg, routes)
    decreases |routes|
  {
    if routes != [] {
      ScanKeys(reg, routes[..|routes| - 1], p);
      ContributesIff(reg, routes[|routes| - 1]);
    }
  }

  /** Every key of the paths object is a string: a path. */
  lemma {:induction false} ScanKeysOnly(reg: Registry, routes: seq<Route>, k: Key)
    ensures k in Keys(Scan(reg, routes)) ==> k.KStr?
    decreases |routes|
  {
    if routes != [] {
      ScanKeysOnly(reg, routes[..|routes| - 1], k);
    }
  }

  /** No path is listed twice: a path seen again extends its path item. */
  lemma {:induction false} ScanUnique(reg: Registry, routes: seq<Route>)
    ensures UniqueKeys(Scan(reg, routes))
    decreases |routes|
  {
    if routes != [] {
      var init, last := routes[..|routes| - 1], routes[|routes| - 1];
      ScanUnique(reg, init);
      var paths := Scan(reg, init);
      if last.path.Some? && !Falsy(last.path.value) && RouteOperations(reg, last) != [] {
        var existing := Get(paths, KStr(last.path.value));
        PutUnique(paths, KStr(last.path.value), Merge(if existing.Some? then existing.value else [], RouteOperations(reg, last)));
      }
    }
  }

  /** A contributing route merges its operations into its path: its methods
      overwrite the same methods from earlier routes, other methods and
      other paths are kept. */
  lemma ScanStepMerges(reg: Registry, paths: Paths, route: Route, k: Key)
    requires Contributes(reg, route)
    ensures var p := KStr(route.path.value);
      var existing := Get(paths, p);
      var before := if existing.Some? then existing.value else [];
      var ops := RouteOperations(reg, route);
      var after := Get(ScanStep(reg, paths, route), p);
      && after.Some?
      && Get(after.value, k) == (if k in Keys(ops) then Get(ops, k) else Get(before, k))
      && forall q :: q != p ==> Get(ScanStep(reg, paths, route), q) == Get(paths, q)
  {
    ContributesIff(reg, route);
    var h := RouteHandler(reg, route);
    MethodOperationsUnique(HandlerNames(h.value), RoutePath(route), Analyze(reg, h.value), route.allowedMethods);
    var existing := Get(paths, KStr(route.path.value));
    MergeGet(if existing.Some? then existing.value else [], RouteOperations(reg, route), k);
  }

  /** A route that does not contribute leaves the paths unchanged. */
  lemma ScanStepSkips(reg: Registry, paths: Paths, route: Route)
    requires !Contributes(reg, route)
    ensures ScanStep(reg, paths, route) == paths
  {
    ContributesIff(reg, route);
  }

  /** The scanner: the route table and the registry standing for the
      configuration and the class loader. */
  class RouteScanner {
    const routes: seq<Route>
    const registry: Registry

    constructor(routes: seq<Route>, registry: Registry)
      ensures this.routes == routes && this.registry == registry
    {
      this.routes := routes;
      this.registry := registry;
    }

    /** `scanRoutes`. */
    method ScanRoutes() returns (paths: Paths)
      ensures paths == Scan(registry, routes)
    {
      paths := [];
      for i := 0 to |routes|
        invariant paths == Scan(registry, routes[..i])
      {
        TakeSnoc(routes, i);
        var route := routes[i];
        if route.path.Some? && !Falsy(route.path.value) {
          var operations := GenerateOperations(route);
          if operations != [] {
            paths := AddPathOperations(paths, route.path.value, operations);
          }
        }
      }
      assert routes[..|routes|] == routes;
    }

    /** The body of the loop of `scanRoutes` for a route with a path and
        operations: an empty path item is created when the path is new, and
        the operations are merged into it. */
    method AddPathOperations(paths: Paths, path: string, operations: Operations) returns (paths': Paths)
      ensures var existing := Get(paths, KStr(path));
        paths' == Put(paths, KStr(path), Merge(if existing.Some? then existing.value else [], operations))
    {
      paths' := paths;
      if KStr(path) !in Keys(paths') {
        paths' := Put(paths', KStr(path), []);
        PutPut(paths, KStr(path), [], Merge([], operations));
      }
      var current := Get(paths', KStr(path)).value;
      paths' := Put(paths', KStr(path), Merge(current, operations));
    }

    /** `generateOperations`. */
    method GenerateOperations(route: Route) returns (operations: Operations)
      ensures operations == RouteOperations(registry, route)
    {
      var handlerClass := ExtractHandlerClass(registry, route.middleware);
      if handlerClass.None? || Falsy(handlerClass.value) || !ClassExists(registry, handlerClass.value) {
        return [];
      }
      var info := Analyze(registry, handlerClass.value);
      operations := [];
      var methods := route.allowedMethods;
      ghost var names := HandlerNames(handlerClass.value);
      for i := 0 to |methods|
        invariant operations == MethodOperations(names, RoutePath(route), info, methods[..i])
      {
        var operation := GenerateOperation(handlerClass.value, methods[i], route, info);
        MethodOperationsStep(names, RoutePath(route), info, methods, i);
        operations := Put(operations, KStr(LowerStr(methods[i])), operation);
      }
      assert methods[..|methods|] == methods;
    }

    /** `generateOperation`. */
    method GenerateOperation(handlerClass: string, httpMethod: string, route: Route, info: HandlerInfo) returns (operation: Schema)
      ensures operation == Operation(HandlerNames(handlerClass), httpMethod, RoutePath(route), info)
    {
      var tag := ExtractTag(handlerClass);
      var summary := GenerateSummary(handlerClass);
      var operationId := GenerateOperationId(handlerClass);
      var path := RoutePath(route);
      var parameters := ExtractPathParameters(path);
      operation := OperationBase(OperationNames(operationId, summary, tag));
      if parameters != [] {
        operation := Put(operation, KStr("parameters"), List(parameters));
      }
      if Truthy(info.requestDto) && TakesBody(httpMethod) {
        operation := Put(operation, KStr("requestBody"), Arr(GenerateRequestBody(info.requestDto.value)));
      }
      if Truthy(info.responseDto) {
        operation := Put(operation, KStr("responses"), Arr(GenerateResponses(info.responseDto.value, httpMethod)));
      } else {
        operation := Put(operation, KStr("responses"), Arr(GenerateDefaultResponses(httpMethod)));
      }
    }

    /** `extractPathParameters`. */
    method ExtractPathParameters(path: string) returns (parameters: seq<Value>)
      ensures parameters == PathParameters(path)
    {
      var names := Placeholders(path);
      parameters := [];
      for i := 0 to |names|
        invariant |parameters| == i
        invariant forall j :: 0 <= j < i ==> parameters[j] == Parameter(names[j])
      {
        parameters := parameters + [Parameter(names[i])];
      }
    }
  }
}
