/** Generation of OpenAPI object schemas from DTO classes, with a schema
    cache and a processing stack for cycle detection. */
module DtoSchemaGenerator {
  import opened Values
  import opened Text
  import opened Reflection
  import opened TypeResolver
  import opened ConstraintExtractor

  /** `getSchemaName`: the last `\`-separated segment of the class name. */
  function SchemaName(dtoClass: string): (r: string)
    ensures IsSuffix(r, dtoClass)
    ensures forall i :: 0 <= i < |r| ==> r[i] != '\\'
    ensures |r| < |dtoClass| ==> dtoClass[|dtoClass| - |r| - 1] == '\\'
  {
    LastSegment(dtoClass, {'\\'})
  }

  /** The schema name of `Ns\Name` is `Name`, whatever the namespace. */
  lemma SchemaNameOfQualified(ns: string, name: string)
    requires forall i :: 0 <= i < |name| ==> name[i] != '\\'
    ensures SchemaName(ns + "\\" + name) == name
  {
    LastSegmentOf(ns + "\\", name, {'\\'});
  }

  /** `generateNestedDtoSchema`: a reference to the class's component. */
  function GenerateNestedDtoSchema(dtoClass: string): (r: Schema)
    ensures Keys(r) == [KStr("$ref")]
    ensures Get(r, KStr("$ref")) == Some(Str("#/components/schemas/" + SchemaName(dtoClass)))
  {
    RefSchema(SchemaName(dtoClass))
  }

  /** The fragment a declared type produces before the constraints apply,
      and whether the type allows null. */
  datatype Typed = Typed(schema: Schema, nullable: bool)

  predicate Nullable(t: PhpType) {
    (t.Named? || t.Union?) && t.allowsNull
  }

  /** The fragment of a scalar type: its mapped type, and the uuid format
      for a string with a Uuid attribute. */
  function ScalarFragment(n: string, attrs: seq<Attr>): Schema {
    var scalar := Put([], KStr("type"), Str(MapPhpTypeToOpenApi(n)));
    if n == "string" && Uuid in attrs then Put(scalar, KStr("format"), Str("uuid")) else scalar
  }

  /** The fragment of a property whose declared type is the name n. */
  function NamedFragment(reg: Registry, hint: DocHint, p: Property, n: string): Schema {
    if EnumExists(reg, n) then GenerateEnumSchema(reg, n)
    else if ClassExists(reg, n) then GenerateNestedDtoSchema(n)
    else if n == "array" then GenerateArraySchema(reg, hint, p, SchemaName)
    else ScalarFragment(n, p.attrs)
  }

  /** The type part of `extractPropertySchema`. */
  function TypeFragment(reg: Registry, hint: DocHint, p: Property): Typed {
    match p.ptype
    case Named(n, allowsNull) => Typed(NamedFragment(reg, hint, p, n), allowsNull)
    case Union(branches, allowsNull) => Typed(GenerateUnionTypeSchema(reg, SchemaName, branches), allowsNull)
    case _ => Typed([], false)
  }

  /** `extractPropertySchema`, as a value: the type fragment, then the
      constraints, then `nullable: true` for a nullable type; the property
      is required when a constraint says so and the type is not nullable. */
  function PropertySchema(reg: Registry, hint: DocHint, p: Property): Constrained {
    var t := TypeFragment(reg, hint, p);
    var c := Constrain(p.attrs, Constrained(t.schema, false));
    var s := if t.nullable then Put(c.schema, KStr("nullable"), Bool(true)) else c.schema;
    Constrained(s, c.required && !t.nullable)
  }

  /** No type fragment carries a `nullable` key of its own. */
  lemma FragmentHasNoNullable(reg: Registry, hint: DocHint, p: Property)
    ensures Get(TypeFragment(reg, hint, p).schema, KStr("nullable")).None?
  {
    match p.ptype
    case Named(n, allowsNull) =>
      NamedFragmentHasNoNullable(reg, hint, p, n);
    case Union(branches, allowsNull) =>
      var kept := KeptBranches(branches);
      if |kept| == 1 {
        NamedTypeHasNoNullable(reg, kept[0]);
      } else {
        assert Keys(GenerateUnionTypeSchema(reg, SchemaName, branches)) == [KStr("oneOf")];
      }
    case _ =>
  }

  lemma NamedTypeHasNoNullable(reg: Registry, n: string)
    ensures KStr("nullable") !in Keys(NamedTypeSchema(reg, SchemaName, n))
  {
    if EnumExists(reg, n) {
      assert Keys(GenerateEnumSchema(reg, n)) == [KStr("type"), KStr("enum")];
    } else if ClassExists(reg, n) {
      assert Keys(RefSchema(SchemaName(n))) == [KStr("$ref")];
    } else {
      assert Keys(TypeSchema(MapPhpTypeToOpenApi(n))) == [KStr("type")];
    }
  }

  lemma ScalarFragmentHasNoNullable(n: string, attrs: seq<Attr>)
    ensures KStr("nullable") !in Keys(ScalarFragment(n, attrs))
  {
    var scalar := Put([], KStr("type"), Str(MapPhpTypeToOpenApi(n)));
    assert Keys(scalar) == [KStr("type")];
  }

  lemma ArrayFragmentHasNoNullable(reg: Registry, hint: DocHint, p: Property)
    ensures KStr("nullable") !in Keys(GenerateArraySchema(reg, hint, p, SchemaName))
  {
    assert Keys(TypeSchema("array")) == [KStr("type")];
  }

  lemma NamedFragmentHasNoNullable(reg: Registry, hint: DocHint, p: Property, n: string)
    requires p.ptype.Named? && p.ptype.name == n
    ensures KStr("nullable") !in Keys(TypeFragment(reg, hint, p).schema)
  {
    assert TypeFragment(reg, hint, p).schema == NamedFragment(reg, hint, p, n);
    if EnumExists(reg, n) {
      assert Keys(GenerateEnumSchema(reg, n)) == [KStr("type"), KStr("enum")];
    } else if ClassExists(reg, n) {
      assert Keys(GenerateNestedDtoSchema(n)) == [KStr("$ref")];
    } else if n == "array" {
      ArrayFragmentHasNoNullable(reg, hint, p);
    } else {
      ScalarFragmentHasNoNullable(n, p.attrs);
    }
  }

  /** A property is required exactly when it carries NotBlank and its type
      does not allow null. */
  lemma PropertyRequiredIff(reg: Registry, hint: DocHint, p: Property)
    ensures PropertySchema(reg, hint, p).required <==> NotBlank in p.attrs && !Nullable(p.ptype)
  {
    var t := TypeFragment(reg, hint, p);
    ConstrainRequired(p.attrs, Constrained(t.schema, false));
    assert NotBlank in p.attrs <==> exists i :: 0 <= i < |p.attrs| && p.attrs[i] == NotBlank;
    assert t.nullable == Nullable(p.ptype);
  }

  /** `nullable: true` is present exactly when the type allows null, for
      every kind of fragment including class references. */
  lemma PropertyNullableIff(reg: Registry, hint: DocHint, p: Property)
    ensures Get(PropertySchema(reg, hint, p).schema, KStr("nullable")) ==
      if Nullable(p.ptype) then Some(Bool(true)) else None
  {
    var t := TypeFragment(reg, hint, p);
    assert t.nullable == Nullable(p.ptype);
    FragmentHasNoNullable(reg, hint, p);
    OtherKeysPreserved(p.attrs, Constrained(t.schema, false), KStr("nullable"));
  }

  lemma ClassFragment(reg: Registry, hint: DocHint, p: Property)
    requires p.ptype.Named? && ClassExists(reg, p.ptype.name) && !EnumExists(reg, p.ptype.name)
    ensures TypeFragment(reg, hint, p) == Typed(GenerateNestedDtoSchema(p.ptype.name), p.ptype.allowsNull)
  {
  }

  /** A property typed with an existing non-enum class becomes a reference
      to that class's component, constraints and nullability aside. */
  lemma ClassPropertyIsRef(reg: Registry, hint: DocHint, p: Property)
    requires p.ptype.Named? && ClassExists(reg, p.ptype.name) && !EnumExists(reg, p.ptype.name)
    ensures Get(PropertySchema(reg, hint, p).schema, KStr("$ref")) ==
      Some(Str("#/components/schemas/" + SchemaName(p.ptype.name)))
  {
    var t := TypeFragment(reg, hint, p);
    var ref := Some(Str("#/components/schemas/" + SchemaName(p.ptype.name)));
    ClassFragment(reg, hint, p);
    assert Get(t.schema, KStr("$ref")) == ref;
    var c := Constrain(p.attrs, Constrained(t.schema, false));
    OtherKeysPreserved(p.attrs, Constrained(t.schema, false), KStr("$ref"));
    assert Get(c.schema, KStr("$ref")) == ref;
  }

  /** A string property with Uuid and no other format attribute is
      formatted as uuid. */
  lemma StringUuidFormat(reg: Registry, hint: DocHint, p: Property)
    requires p.ptype.Named? && p.ptype.name == "string" && !ClassExists(reg, "string")
    requires Uuid in p.attrs && Email !in p.attrs && Url !in p.attrs
    ensures Get(PropertySchema(reg, hint, p).schema, KStr("format")) == Some(Str("uuid"))
  {
    var t := TypeFragment(reg, hint, p);
    ConstrainGet(p.attrs, Constrained(t.schema, false), KStr("format"));
    OnlyUuidFormat(p.attrs);
  }

  /** The property loop of `generate`, as a value: the properties map and
      the required names. */
  datatype Fields = Fields(properties: Schema, required: seq<string>)

  /** The loop over the properties, in declaration order, skipping static ones. */
  function FieldsOf(reg: Registry, hint: DocHint, props: seq<Property>): Fields
    decreases |props|
  {
    if props == [] then Fields([], [])
    else
      var f := FieldsOf(reg, hint, props[..|props| - 1]);
      var p := props[|props| - 1];
      if p.isStatic then f
      else
        var c := PropertySchema(reg, hint, p);
        Fields(Put(f.properties, KStr(p.name), Arr(c.schema)), if c.required then f.required + [p.name] else f.required)
  }

  /** The object schema `generate` builds for an existing class. */
  function ObjectSchema(reg: Registry, hint: DocHint, dtoClass: string): Schema
    requires dtoClass in reg
  {
    var f := FieldsOf(reg, hint, reg[dtoClass].props);
    var base := Put(Put([], KStr("type"), Str("object")), KStr("properties"), Arr(f.properties));
    if f.required == [] then base else Put(base, KStr("required"), StrList(f.required))
  }

  /** type is object, properties holds the property map, and required is
      present exactly when some property is required. */
  lemma ObjectSchemaShape(reg: Registry, hint: DocHint, dtoClass: string)
    requires dtoClass in reg
    ensures var f := FieldsOf(reg, hint, reg[dtoClass].props);
      var s := ObjectSchema(reg, hint, dtoClass);
      && Get(s, KStr("type")) == Some(Str("object"))
      && Get(s, KStr("properties")) == Some(Arr(f.properties))
      && (KStr("required") in Keys(s) <==> f.required != [])
      && (f.required != [] ==> Get(s, KStr("required")) == Some(StrList(f.required)))
  {
  }

  /** The names of the non-static properties, in declaration order. */
  function InstanceNames(props: seq<Property>): (names: seq<string>)
    ensures forall n :: n in names ==> exists i :: 0 <= i < |props| && !props[i].isStatic && props[i].name == n
    decreases |props|
  {
    if props == [] then []
    else
      var rest := InstanceNames(props[..|props| - 1]);
      var p := props[|props| - 1];
      assert forall i :: 0 <= i < |props| - 1 ==> props[..|props| - 1][i] == props[i];
      if p.isStatic then rest else rest + [p.name]
  }

  function StrKeys(names: seq<string>): (ks: seq<Key>)
    ensures |ks| == |names| && forall i :: 0 <= i < |names| ==> ks[i] == KStr(names[i])
  {
    seq(|names|, i requires 0 <= i < |names| => KStr(names[i]))
  }

  predicate DistinctNames(props: seq<Property>) {
    forall i, j :: 0 <= i < j < |props| ==> props[i].name != props[j].name
  }

  /** With distinct names, the properties map has one key per non-static
      property, in declaration order. */
  lemma {:induction false} FieldKeys(reg: Registry, hint: DocHint, props: seq<Property>)
    requires DistinctNames(props)
    ensures Keys(FieldsOf(reg, hint, props).properties) == StrKeys(InstanceNames(props))
    decreases |props|
  {
    if props != [] {
      var init := props[..|props| - 1];
      var p := props[|props| - 1];
      FieldKeys(reg, hint, init);
      if !p.isStatic {
        var ks := Keys(FieldsOf(reg, hint, init).properties);
        forall j | 0 <= j < |ks| ensures ks[j] != KStr(p.name) {
          var n := InstanceNames(init)[j];
          assert n in InstanceNames(init);
          var i :| 0 <= i < |init| && !init[i].isStatic && init[i].name == n;
          assert init[i] == props[i];
        }
        assert StrKeys(InstanceNames(props)) == StrKeys(InstanceNames(init)) + [KStr(p.name)];
      }
    }
  }

  /** Each non-static property's entry in the map is its property schema. */
  lemma {:induction false} FieldLookup(reg: Registry, hint: DocHint, props: seq<Property>, i: nat)
    requires DistinctNames(props) && i < |props| && !props[i].isStatic
    ensures Get(FieldsOf(reg, hint, props).properties, KStr(props[i].name)) ==
      Some(Arr(PropertySchema(reg, hint, props[i]).schema))
    decreases |props|
  {
    var init := props[..|props| - 1];
    if i < |props| - 1 {
      assert init[i] == props[i];
      FieldLookup(reg, hint, init, i);
    }
  }

  /** A property that `generate` lists in `required`. */
  predicate RequiredProperty(reg: Registry, hint: DocHint, p: Property) {
    !p.isStatic && PropertySchema(reg, hint, p).required
  }

  /** One more property appends its name to `required` when it is required. */
  lemma FieldsRequiredSnoc(reg: Registry, hint: DocHint, props: seq<Property>)
    requires props != []
    ensures var last := props[|props| - 1];
      FieldsOf(reg, hint, props).required ==
        FieldsOf(reg, hint, props[..|props| - 1]).required
        + if RequiredProperty(reg, hint, last) then [last.name] else []
  {
  }

  /** Some element of s satisfies ok exactly when one of all but the last
      does, or the last does. */
  lemma ExistsSnoc<T>(s: seq<T>, init: seq<T>, ok: T -> bool)
    requires s != [] && init == s[..|s| - 1]
    ensures (exists i :: 0 <= i < |s| && ok(s[i])) <==>
      (exists i :: 0 <= i < |init| && ok(init[i])) || ok(s[|s| - 1])
  {
    assert forall i :: 0 <= i < |init| ==> init[i] == s[i];
  }

  /** A required property named n among props is one among all but the
      last, or the last. */
  lemma RequiredNamedSnoc(reg: Registry, hint: DocHint, props: seq<Property>, n: string)
    requires props != []
    ensures var init, last := props[..|props| - 1], props[|props| - 1];
      (exists i :: 0 <= i < |props| && RequiredProperty(reg, hint, props[i]) && props[i].name == n) <==>
        (exists i :: 0 <= i < |init| && RequiredProperty(reg, hint, init[i]) && init[i].name == n)
        || (RequiredProperty(reg, hint, last) && last.name == n)
  {
    ExistsSnoc(props, props[..|props| - 1], p => RequiredProperty(reg, hint, p) && p.name == n);
  }

  /** A name is in `required` exactly when a non-static property of that
      name has a required property schema. */
  lemma {:induction false} FieldRequiredIff(reg: Registry, hint: DocHint, props: seq<Property>, n: string)
    ensures n in FieldsOf(reg, hint, props).required <==>
      exists i :: 0 <= i < |props| && RequiredProperty(reg, hint, props[i]) && props[i].name == n
    decreases |props|
  {
    if props != [] {
      FieldRequiredIff(reg, hint, props[..|props| - 1], n);
      FieldsRequiredSnoc(reg, hint, props);
      RequiredNamedSnoc(reg, hint, props, n);
    }
  }

  /** Every cached key is the full name of an existing class whose object
      schema is stored under it. */
  predicate CacheValid(reg: Registry, hint: DocHint, cache: seq<Entry<Schema>>) {
    forall k :: k in Keys(cache) ==>
      k.KStr? && ClassExists(reg, k.s) && Get(cache, k) == Some(ObjectSchema(reg, hint, k.s))
  }

  /** Storing a class's object schema keeps the cache valid. */
  lemma CacheValidPut(reg: Registry, hint: DocHint, cache: seq<Entry<Schema>>, dtoClass: string)
    requires CacheValid(reg, hint, cache) && UniqueKeys(cache) && ClassExists(reg, dtoClass)
    ensures var cache' := Put(cache, KStr(dtoClass), ObjectSchema(reg, hint, dtoClass));
      CacheValid(reg, hint, cache') && UniqueKeys(cache')
  {
    var cache' := Put(cache, KStr(dtoClass), ObjectSchema(reg, hint, dtoClass));
    PutUnique(cache, KStr(dtoClass), ObjectSchema(reg, hint, dtoClass));
    forall k | k in Keys(cache')
      ensures k.KStr? && ClassExists(reg, k.s) && Get(cache', k) == Some(ObjectSchema(reg, hint, k.s))
    {
      if k != KStr(dtoClass) {
        assert k in Keys(cache) && Get(cache', k) == Get(cache, k);
      }
    }
  }

  /** The generator. The registry and the doc-comment hint stand for the
      reflection and type-resolution collaborators. */
  class SchemaGenerator {
    const registry: Registry
    const hint: DocHint
    var schemaCache: seq<Entry<Schema>>
    var processingStack: seq<string>

    /** Every cached entry is the object schema of an existing class,
        under its full class name. */
    ghost predicate Valid()
      reads this
    {
      && UniqueKeys(schemaCache)
      && CacheValid(registry, hint, schemaCache)
    }

    constructor(registry: Registry, hint: DocHint)
      ensures this.registry == registry && this.hint == hint
      ensures schemaCache == [] && processingStack == []
      ensures Valid()
    {
      this.registry := registry;
      this.hint := hint;
      schemaCache := [];
      processingStack := [];
    }

    /** `extractPropertySchema`. */
    method ExtractPropertySchema(p: Property) returns (schema: Schema, required: bool)
      ensures Constrained(schema, required) == PropertySchema(registry, hint, p)
    {
      var req := false;
      var nullable := false;
      schema := [];
      match p.ptype {
        case Named(n, allowsNull) =>
          nullable := allowsNull;
          if EnumExists(registry, n) {
            schema := GenerateEnumSchema(registry, n);
          } else if ClassExists(registry, n) {
            schema := GenerateNestedDtoSchema(n);
          } else if n == "array" {
            schema := GenerateArraySchema(registry, hint, p, SchemaName);
          } else {
            schema := Put(schema, KStr("type"), Str(MapPhpTypeToOpenApi(n)));
            if n == "string" {
              var hasUuid := HasUuidConstraint(p.attrs);
              if hasUuid {
                schema := Put(schema, KStr("format"), Str("uuid"));
              }
            }
          }
        case Union(branches, allowsNull) =>
          schema := GenerateUnionTypeSchema(registry, SchemaName, branches);
          nullable := allowsNull;
        case Intersection(_) =>
        case Untyped =>
      }
      assert Typed(schema, nullable) == TypeFragment(registry, hint, p);
      schema, req := ApplyConstraints(p.attrs, schema, req);
      if nullable {
        schema := Put(schema, KStr("nullable"), Bool(true));
      }
      required := req && !nullable;
    }

    /** `generate`. */
    method Generate(dtoClass: string) returns (schema: Schema)
      requires Valid()
      modifies this
      ensures Valid()
      ensures processingStack == old(processingStack)
      ensures !ClassExists(registry, dtoClass) ==> schema == [] && schemaCache == old(schemaCache)
      ensures ClassExists(registry, dtoClass) && KStr(dtoClass) in Keys(old(schemaCache)) ==>
        Some(schema) == Get(old(schemaCache), KStr(dtoClass)) && schemaCache == old(schemaCache)
      ensures ClassExists(registry, dtoClass) && KStr(dtoClass) !in Keys(old(schemaCache)) && dtoClass in old(processingStack) ==>
        schema == RefSchema(SchemaName(dtoClass)) && schemaCache == old(schemaCache)
      ensures ClassExists(registry, dtoClass) && KStr(dtoClass) !in Keys(old(schemaCache)) && dtoClass !in old(processingStack) ==>
        schema == ObjectSchema(registry, hint, dtoClass) && schemaCache == Put(old(schemaCache), KStr(dtoClass), schema)
      ensures ClassExists(registry, dtoClass) && dtoClass !in old(processingStack) ==> schema == ObjectSchema(registry, hint, dtoClass)
    {
      if !ClassExists(registry, dtoClass) {
        return [];
      }
      var cached := Get(schemaCache, KStr(dtoClass));
      if cached.Some? {
        return cached.value;
      }
      if dtoClass in processingStack {
        return RefSchema(SchemaName(dtoClass));
      }
      processingStack := processingStack + [dtoClass];

      var properties, required := CollectProperties(registry[dtoClass].props);
      schema := Put(Put([], KStr("type"), Str("object")), KStr("properties"), Arr(properties));
      if required != [] {
        schema := Put(schema, KStr("required"), StrList(required));
      }
      assert schema == ObjectSchema(registry, hint, dtoClass);

      processingStack := processingStack[..|processingStack| - 1];
      CacheValidPut(registry, hint, schemaCache, dtoClass);
      schemaCache := Put(schemaCache, KStr(dtoClass), schema);
    }

    /** The property loop of `generate`: the schema of each non-static
        property under its name, and the names of the required ones. */
    method CollectProperties(props: seq<Property>) returns (properties: Schema, required: seq<string>)
      ensures Fields(properties, required) == FieldsOf(registry, hint, props)
    {
      properties, required := [], [];
      for i := 0 to |props|
        invariant Fields(properties, required) == FieldsOf(registry, hint, props[..i])
      {
        assert props[..i + 1][..i] == props[..i];
        var p := props[i];
        if !p.isStatic {
          var propSchema, propRequired := ExtractPropertySchema(p);
          properties := Put(properties, KStr(p.name), Arr(propSchema));
          if propRequired {
            required := required + [p.name];
          }
        }
      }
      assert props[..|props|] == props;
    }

    /** `getAllSchemas`: the cache re-keyed by schema name. */
    method GetAllSchemas() returns (result: seq<Entry<Schema>>)
      ensures result == ByShortName(schemaCache)
    {
      result := [];
      for i := 0 to |schemaCache|
        invariant result == ByShortName(schemaCache[..i])
      {
        assert schemaCache[..i + 1][..i] == schemaCache[..i];
        var e := schemaCache[i];
        result := Put(result, ShortKey(e.key), e.value);
      }
      assert schemaCache[..|schemaCache|] == schemaCache;
    }

    /** `clearCache`. */
    method ClearCache()
      modifies this
      ensures schemaCache == [] && processingStack == []
      ensures Valid()
    {
      schemaCache := [];
      processingStack := [];
    }
  }

  /** Two successive calls of `generate` for a class that is not being
      processed return the same schema, the second from the cache. */
  method GenerateTwice(g: SchemaGenerator, dtoClass: string) returns (first: Schema, second: Schema)
    requires g.Valid() && dtoClass !in g.processingStack
    modifies g
    ensures first == second
    ensures g.Valid() && g.processingStack == old(g.processingStack)
  {
    first := g.Generate(dtoClass);
    second := g.Generate(dtoClass);
  }

  /** The key a cache entry is listed under by `getAllSchemas`. */
  function ShortKey(k: Key): Key {
    if k.KStr? then KStr(SchemaName(k.s)) else k
  }

  /** The loop of `getAllSchemas`: each entry is assigned under its schema
      name, in cache order, so a later class with the same short name
      overwrites an earlier one. */
  function ByShortName(cache: seq<Entry<Schema>>): seq<Entry<Schema>>
    decreases |cache|
  {
    if cache == [] then []
    else
      var e := cache[|cache| - 1];
      Put(ByShortName(cache[..|cache| - 1]), ShortKey(e.key), e.value)
  }

  /** The schema names present are exactly those of the cached classes. */
  lemma {:induction false} ByShortNameKeys(cache: seq<Entry<Schema>>, k: Key)
    ensures k in Keys(ByShortName(cache)) <==> exists k' :: k' in Keys(cache) && ShortKey(k') == k
    decreases |cache|
  {
    if cache != [] {
      ByShortNameKeys(cache[..|cache| - 1], k);
      KeysSnoc(cache);
    }
  }

  /** When no other cached class shares its schema name, a class's schema is
      listed under that name. */
  lemma {:induction false} ByShortNameGet(cache: seq<Entry<Schema>>, c: string)
    requires UniqueKeys(cache) && KStr(c) in Keys(cache)
    requires forall k :: k in Keys(cache) && k != KStr(c) ==> ShortKey(k) != KStr(SchemaName(c))
    ensures Get(ByShortName(cache), KStr(SchemaName(c))) == Get(cache, KStr(c))
    decreases |cache|
  {
    var init := cache[..|cache| - 1];
    var e := cache[|cache| - 1];
    KeysSnoc(cache);
    if e.key == KStr(c) {
      GetLast(cache, KStr(c));
    } else {
      GetPrefix(cache, KStr(c));
      assert UniqueKeys(init);
      ByShortNameGet(init, c);
    }
  }
}
