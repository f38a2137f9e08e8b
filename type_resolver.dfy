/** Conversion of PHP types into OpenAPI schema fragments: primitive
    mapping, enums, typed arrays and union types. */
module TypeResolver {
  import opened Values
  import opened Reflection

  const RefPrefix: string := "#/components/schemas/"

  /** The five OpenAPI types the mapping can produce. */
  predicate IsOpenApiType(t: string) {
    t == "integer" || t == "number" || t == "boolean" || t == "array" || t == "string"
  }

  /** `mapPhpTypeToOpenApi`: int, float, bool and array have their own
      OpenAPI type, every other name maps to string. */
  function MapPhpTypeToOpenApi(phpType: string): (r: string)
    ensures IsOpenApiType(r)
    ensures r == "integer" <==> phpType == "int"
    ensures r == "number" <==> phpType == "float"
    ensures r == "boolean" <==> phpType == "bool"
    ensures r == "array" <==> phpType == "array"
    ensures r == "string" <==> phpType != "int" && phpType != "float" && phpType != "bool" && phpType != "array"
  {
    match phpType
    case "int" => "integer"
    case "float" => "number"
    case "bool" => "boolean"
    case "array" => "array"
    case _ => "string"
  }

  /** `{"$ref": "#/components/schemas/<name>"}`. */
  function RefSchema(name: string): Schema {
    [Entry(KStr("$ref"), Str(RefPrefix + name))]
  }

  /** `{"type": t}`. */
  function TypeSchema(t: string): Schema {
    [Entry(KStr("type"), Str(t))]
  }

  /** The backing values of a backed enum's cases, in case order. */
  function CaseValues(cases: seq<BackedCase>): (vs: seq<Value>)
    ensures |vs| == |cases|
    ensures forall i :: 0 <= i < |cases| ==> vs[i] == cases[i].value
  {
    if cases == [] then [] else [cases[0].value] + CaseValues(cases[1..])
  }

  /** The OpenAPI type of a backed enum: its mapped backing type, or string
      when reflection reports none. */
  function BackingOpenApiType(backingType: Option<string>): string {
    if backingType.Some? then MapPhpTypeToOpenApi(backingType.value) else "string"
  }

  /** `generateEnumSchema`. */
  function GenerateEnumSchema(reg: Registry, enumClass: string): (r: Schema)
    ensures !EnumExists(reg, enumClass) ==> r == TypeSchema("string")
    ensures EnumExists(reg, enumClass) ==> Keys(r) == [KStr("type"), KStr("enum")]
  {
    if !EnumExists(reg, enumClass) then TypeSchema("string")
    else match reg[enumClass].kind
      case UnitEnum(names) =>
        [Entry(KStr("type"), Str("string")), Entry(KStr("enum"), StrList(names))]
      case BackedEnum(backingType, cases) =>
        [Entry(KStr("type"), Str(BackingOpenApiType(backingType))), Entry(KStr("enum"), List(CaseValues(cases)))]
  }

  /** A unit enum lists its case names, in declaration order, as strings. */
  lemma UnitEnumSchema(reg: Registry, enumClass: string)
    requires enumClass in reg && reg[enumClass].kind.UnitEnum?
    ensures var names := reg[enumClass].kind.cases;
      && Get(GenerateEnumSchema(reg, enumClass), KStr("type")) == Some(Str("string"))
      && Get(GenerateEnumSchema(reg, enumClass), KStr("enum")) == Some(StrList(names))
      && |StrList(names).entries| == |names|
      && forall i :: 0 <= i < |names| ==> StrList(names).entries[i] == Entry(KInt(i), Str(names[i]))
  {
  }

  /** A backed enum lists its backing values in case order; its type is the
      mapped backing type, string when there is none. */
  lemma BackedEnumSchema(reg: Registry, enumClass: string)
    requires enumClass in reg && reg[enumClass].kind.BackedEnum?
    ensures var k := reg[enumClass].kind;
      && Get(GenerateEnumSchema(reg, enumClass), KStr("type")) == Some(Str(BackingOpenApiType(k.backingType)))
      && (k.backingType.None? ==> Get(GenerateEnumSchema(reg, enumClass), KStr("type")) == Some(Str("string")))
      && exists vs :: Get(GenerateEnumSchema(reg, enumClass), KStr("enum")) == Some(List(vs))
                   && |vs| == |k.backed| && forall i :: 0 <= i < |vs| ==> vs[i] == k.backed[i].value
  {
    var k := reg[enumClass].kind;
    var vs := CaseValues(k.backed);
    assert Get(GenerateEnumSchema(reg, enumClass), KStr("enum")) == Some(List(vs));
  }

  /** The fragment for one named type, as both `generateArraySchema` and
      `generateUnionTypeSchema` build it: an enum's schema, a reference to a
      class by its schema name, or the mapped primitive type. */
  function NamedTypeSchema(reg: Registry, schemaName: string -> string, typeName: string): Schema {
    if EnumExists(reg, typeName) then GenerateEnumSchema(reg, typeName)
    else if ClassExists(reg, typeName) then RefSchema(schemaName(typeName))
    else TypeSchema(MapPhpTypeToOpenApi(typeName))
  }

  /** An enum's fragment has exactly the keys type and enum, its type being
      string for a unit enum and the mapped backing type for a backed one;
      another existing class's fragment is exactly a `$ref` to its schema
      name; any other name's fragment is exactly its mapped type. */
  lemma NamedTypeSchemaShape(reg: Registry, schemaName: string -> string, typeName: string)
    ensures var r := NamedTypeSchema(reg, schemaName, typeName);
      && (EnumExists(reg, typeName) ==>
          && Keys(r) == [KStr("type"), KStr("enum")]
          && Get(r, KStr("type")) == Some(Str(if reg[typeName].kind.UnitEnum? then "string" else BackingOpenApiType(reg[typeName].kind.backingType))))
      && (!EnumExists(reg, typeName) && ClassExists(reg, typeName) ==>
          && Keys(r) == [KStr("$ref")]
          && Get(r, KStr("$ref")) == Some(Str("#/components/schemas/" + schemaName(typeName))))
      && (!ClassExists(reg, typeName) ==>
          && Keys(r) == [KStr("type")]
          && Get(r, KStr("type")) == Some(Str(MapPhpTypeToOpenApi(typeName))))
  {
  }

  /** `extractArrayItemType`: the comments of the class that declares the
      property, the constructor's first and the class's only when the
      constructor yields nothing. A reflected property's declaring class
      always exists; a name outside the registry yields no item type. */
  function ExtractArrayItemType(reg: Registry, hint: DocHint, p: Property): Option<string> {
    if p.declaringClass !in reg then None
    else
      var d := reg[p.declaringClass];
      if d.ctorDoc.Some? && hint(d.ctorDoc.value, p.name).Some? then hint(d.ctorDoc.value, p.name)
      else if d.classDoc.Some? then hint(d.classDoc.value, p.name)
      else None
  }

  /** The constructor's hint takes precedence, whatever the class comment
      says; the class comment is consulted only when the constructor has no
      hint for the property; and no other class's comments matter, so an
      inherited property takes its item type from the parent that declares
      it. */
  lemma ItemTypePrecedence(reg: Registry, hint: DocHint, p: Property, classDoc: Option<string>, other: string, d': Decl)
    requires p.declaringClass in reg
    ensures var d := reg[p.declaringClass];
      d.ctorDoc.Some? && hint(d.ctorDoc.value, p.name).Some? ==>
      && ExtractArrayItemType(reg, hint, p) == hint(d.ctorDoc.value, p.name)
      && ExtractArrayItemType(reg[p.declaringClass := d.(classDoc := classDoc)], hint, p) == ExtractArrayItemType(reg, hint, p)
    ensures var d := reg[p.declaringClass];
      (d.ctorDoc.None? || hint(d.ctorDoc.value, p.name).None?) ==>
      ExtractArrayItemType(reg, hint, p) == if d.classDoc.Some? then hint(d.classDoc.value, p.name) else None
    ensures other != p.declaringClass ==> ExtractArrayItemType(reg[other := d'], hint, p) == ExtractArrayItemType(reg, hint, p)
  {
  }

  /** `generateArraySchema` for the property p. */
  function GenerateArraySchema(reg: Registry, hint: DocHint, p: Property, schemaName: string -> string): (r: Schema)
    ensures |r| >= 1 && r[0] == Entry(KStr("type"), Str("array"))
    ensures Get(r, KStr("type")) == Some(Str("array"))
    ensures var item := ExtractArrayItemType(reg, hint, p);
      && (KStr("items") in Keys(r) <==> item.Some?)
      && (item.Some? ==> Get(r, KStr("items")) == Some(Arr(NamedTypeSchema(reg, schemaName, item.value))))
  {
    var item := ExtractArrayItemType(reg, hint, p);
    if item.Some? then Put(TypeSchema("array"), KStr("items"), Arr(NamedTypeSchema(reg, schemaName, item.value)))
    else TypeSchema("array")
  }

  /** A union branch that produces a fragment: a named type other than "null". */
  predicate KeptAs(branch: PhpType, name: string) {
    branch.Named? && branch.name == name && name != "null"
  }

  /** The union branches that produce a fragment, by name, in declaration order. */
  function KeptBranches(branches: seq<PhpType>): (names: seq<string>)
    ensures |names| <= |branches|
  {
    if branches == [] then []
    else
      var rest := KeptBranches(branches[1..]);
      if branches[0].Named? && branches[0].name != "null" then [branches[0].name] + rest else rest
  }

  /** A name is kept exactly when some branch is a named type of that name
      other than "null". */
  lemma {:induction false} KeptBranchesMembers(branches: seq<PhpType>, n: string)
    ensures n in KeptBranches(branches) <==> exists i :: 0 <= i < |branches| && KeptAs(branches[i], n)
    decreases |branches|
  {
    if branches != [] {
      var tail := branches[1..];
      KeptBranchesMembers(tail, n);
      if exists i :: 0 <= i < |branches| && KeptAs(branches[i], n) {
        var i :| 0 <= i < |branches| && KeptAs(branches[i], n);
        if i > 0 {
          assert tail[i - 1] == branches[i];
        }
      }
      if exists i :: 0 <= i < |tail| && KeptAs(tail[i], n) {
        var i :| 0 <= i < |tail| && KeptAs(tail[i], n);
        assert branches[i + 1] == tail[i];
      }
    }
  }

  /** The loop of `generateUnionTypeSchema`: one fragment per kept branch. */
  function BranchSchemas(reg: Registry, schemaName: string -> string, branches: seq<PhpType>): (r: seq<Schema>)
    ensures |r| == |KeptBranches(branches)|
    ensures forall i :: 0 <= i < |r| ==> r[i] == NamedTypeSchema(reg, schemaName, KeptBranches(branches)[i])
  {
    if branches == [] then []
    else
      var rest := BranchSchemas(reg, schemaName, branches[1..]);
      var kept := KeptBranches(branches[1..]);
      if branches[0].Named? && branches[0].name != "null" then
        assert KeptBranches(branches) == [branches[0].name] + kept;
        ConsPointwise(x => NamedTypeSchema(reg, schemaName, x), branches[0].name, rest, kept);
        [NamedTypeSchema(reg, schemaName, branches[0].name)] + rest
      else
        assert KeptBranches(branches) == kept;
        rest
  }

  /** Prepending `f(h)` to a list that is `f` applied to `xs` gives `f`
      applied to `[h] + xs`. */
  lemma ConsPointwise<A, B>(f: A -> B, h: A, ys: seq<B>, xs: seq<A>)
    requires |ys| == |xs| && forall i :: 0 <= i < |ys| ==> ys[i] == f(xs[i])
    ensures forall i :: 0 <= i < |ys| + 1 ==> ([f(h)] + ys)[i] == f(([h] + xs)[i])
  {
  }

  /** The items of a `oneOf` list. */
  function AsValues(schemas: seq<Schema>): (vs: seq<Value>)
    ensures |vs| == |schemas|
    ensures forall i :: 0 <= i < |vs| ==> vs[i] == Arr(schemas[i])
  {
    seq(|schemas|, i requires 0 <= i < |schemas| => Arr(schemas[i]))
  }

  /** `generateUnionTypeSchema`: a single kept branch is returned unwrapped,
      otherwise the kept branches become a `oneOf` list in order. */
  function GenerateUnionTypeSchema(reg: Registry, schemaName: string -> string, branches: seq<PhpType>): (r: Schema)
    ensures var kept := KeptBranches(branches);
      && (|kept| == 1 ==> r == NamedTypeSchema(reg, schemaName, kept[0]))
      && (|kept| != 1 ==> Keys(r) == [KStr("oneOf")]
                          && exists vs :: Get(r, KStr("oneOf")) == Some(List(vs)) && |vs| == |kept|
                                          && forall i :: 0 <= i < |vs| ==> vs[i] == Arr(NamedTypeSchema(reg, schemaName, kept[i])))
  {
    var types := BranchSchemas(reg, schemaName, branches);
    if |types| == 1 then types[0]
    else
      var r := [Entry(KStr("oneOf"), List(AsValues(types)))];
      assert Get(r, KStr("oneOf")) == Some(List(AsValues(types)));
      r
  }
}
