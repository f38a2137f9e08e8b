/** The repository's test fixtures as a registry, and the results the
    generator gives on them. */
module Fixtures {
  import opened Values
  import opened Reflection
  import opened TypeResolver
  import opened HandlerAnalyzer
  import opened DtoSchemaGenerator

  const ExampleDto: string := "MethorZ\\OpenApi\\Tests\\Fixtures\\ExampleDto"
  const StatusEnum: string := "MethorZ\\OpenApi\\Tests\\Fixtures\\StatusEnum"
  const TestHandler: string := "MethorZ\\OpenApi\\Tests\\Fixtures\\TestHandler"
  const StdClass: string := "stdClass"
  const FixturesNs: string := "MethorZ\\OpenApi\\Tests\\Fixtures"
  const AddressDto: string := FixturesNs + "\\AddressDto"
  const ComplexDto: string := FixturesNs + "\\ComplexDto"

  /** `ExampleDto`: a validated name, an e-mail, a bounded age and an
      optional nullable string. */
  const ExampleDecl: Decl := Decl(
    PlainClass,
    [Property("name", false, Named("string", false), [NotBlank, Length(Some(3), Some(100))], ExampleDto),
     Property("email", false, Named("string", false), [Email], ExampleDto),
     Property("age", false, Named("int", false), [Range(Some(Int(18)), Some(Int(120)))], ExampleDto),
     Property("optional", false, Named("string", true), [], ExampleDto)],
    None, None, None)

  /** `StatusEnum`, a string-backed enum with three cases. */
  const StatusDecl: Decl := Decl(
    BackedEnum(Some("string"), [BackedCase("DRAFT", Str("draft")), BackedCase("ACTIVE", Str("active")),
                                BackedCase("ARCHIVED", Str("archived"))]),
    [], None, None, None)

  /** `TestHandler::__invoke(ServerRequestInterface $request, ExampleDto $dto): ExampleDto`. */
  const HandlerDecl: Decl := Decl(
    PlainClass, [], None, None,
    Some(Signature([Named(ServerRequestInterface, false), Named(ExampleDto, false)], Named(ExampleDto, false))))

  /** A class without `__invoke`. */
  const StdDecl: Decl := Decl(PlainClass, [], None, None, None)

  /** `AddressDto`: three required strings, the zip code of bounded
      length, and an optional nullable country. */
  const AddressDecl: Decl := Decl(
    PlainClass,
    [Property("street", false, Named("string", false), [NotBlank], AddressDto),
     Property("city", false, Named("string", false), [NotBlank], AddressDto),
     Property("zipCode", false, Named("string", false), [NotBlank, Length(Some(5), Some(10))], AddressDto),
     Property("country", false, Named("string", true), [], AddressDto)],
    None, None, None)

  /** The constructor comment of `ComplexDto`, which declares the item
      types of its two arrays. */
  const ComplexCtorDoc: string := "@param array<int, AddressDto> $addresses @param array<string> $tags"

  const PrimaryAddress: Property := Property("primaryAddress", false, Named(AddressDto, false), [], ComplexDto)
  const Addresses: Property := Property("addresses", false, Named("array", false), [], ComplexDto)
  const Tags: Property := Property("tags", false, Named("array", false), [], ComplexDto)
  const BillingAddress: Property := Property("billingAddress", false, Named(AddressDto, true), [], ComplexDto)

  /** `ComplexDto`: two required strings, an enum, a nested DTO, two typed
      arrays and a nullable nested DTO. */
  const ComplexDecl: Decl := Decl(
    PlainClass,
    [Property("id", false, Named("string", false), [NotBlank], ComplexDto),
     Property("name", false, Named("string", false), [NotBlank], ComplexDto),
     Property("status", false, Named(StatusEnum, false), [], ComplexDto),
     PrimaryAddress, Addresses, Tags, BillingAddress],
    Some(ComplexCtorDoc), None, None)

  const FixtureRegistry: Registry := map[AddressDto := AddressDecl, ComplexDto := ComplexDecl, ExampleDto := ExampleDecl, StatusEnum := StatusDecl,
                                  TestHandler := HandlerDecl, StdClass := StdDecl]

  /** The registry's entries, as lookups. */
  lemma FixtureLookups()
    ensures FixtureRegistry[TestHandler] == HandlerDecl
    ensures ExampleDto in FixtureRegistry && ServerRequestInterface !in FixtureRegistry
  {
    assert TestHandler != StdClass by { assert |TestHandler| != |StdClass|; }
    assert ServerRequestInterface != ExampleDto && ServerRequestInterface != StatusEnum by {
      assert ServerRequestInterface[0] != ExampleDto[0] && ServerRequestInterface[0] != StatusEnum[0];
    }
    assert ServerRequestInterface != TestHandler by { assert ServerRequestInterface[0] != TestHandler[0]; }
    assert ServerRequestInterface != StdClass by { assert ServerRequestInterface[0] != StdClass[0]; }
  }

  /** The analyser finds ExampleDto as both request and response DTO of
      TestHandler: the PSR-7 request parameter before it is skipped. */
  lemma TestHandlerDtos()
    ensures Analyze(FixtureRegistry, TestHandler) == HandlerInfo(Some(ExampleDto), Some(ExampleDto))
  {
    FixtureLookups();
    var params := HandlerDecl.invoke.value.params;
    assert !IsRequestCandidate(FixtureRegistry, params[0]);
    assert !IsPrimitive(ExampleDto) by { assert |ExampleDto| > 6; }
    assert IsRequestCandidate(FixtureRegistry, params[1]);
    assert params[1..][0] == params[1];
    assert ExtractRequestDto(FixtureRegistry, params) == ExtractRequestDto(FixtureRegistry, params[1..]);
  }

  /** A class that does not exist, and one without `__invoke`, have no DTOs. */
  lemma NoDtos()
    ensures Analyze(FixtureRegistry, "NonExistentClass") == HandlerInfo(None, None)
    ensures Analyze(FixtureRegistry, StdClass) == HandlerInfo(None, None)
  {
    assert "NonExistentClass" !in FixtureRegistry;
  }

  /** StatusEnum becomes a string schema listing its backing values in case
      order. */
  lemma StatusEnumSchema()
    ensures GenerateEnumSchema(FixtureRegistry, StatusEnum) ==
      [Entry(KStr("type"), Str("string")), Entry(KStr("enum"), List([Str("draft"), Str("active"), Str("archived")]))]
  {
    var cases := StatusDecl.kind.backed;
    assert CaseValues(cases) == [Str("draft"), Str("active"), Str("archived")];
  }

  /** The registry's entries for the two nested-DTO fixtures. */
  lemma DtoLookups()
    ensures AddressDto in FixtureRegistry && FixtureRegistry[AddressDto] == AddressDecl
    ensures ComplexDto in FixtureRegistry && FixtureRegistry[ComplexDto] == ComplexDecl
    ensures StatusEnum in FixtureRegistry && FixtureRegistry[StatusEnum] == StatusDecl
  {
    var k := |FixturesNs| + 1;
    assert AddressDto[k] == 'A' && ComplexDto[k] == 'C';
    assert ExampleDto[k] == 'E' && StatusEnum[k] == 'S' && TestHandler[k] == 'T';
    assert |StdClass| < k;
  }

  /** The schema name of AddressDto, and the names no fixture class has. */
  lemma FixtureNames()
    ensures SchemaName(AddressDto) == "AddressDto"
    ensures !ClassExists(FixtureRegistry, "string") && !ClassExists(FixtureRegistry, "array")
  {
    assert AddressDto == FixturesNs + "\\" + "AddressDto";
    SchemaNameOfQualified(FixturesNs, "AddressDto");
    assert |"string"| < |FixturesNs| && |"array"| < |FixturesNs|;
    assert |"string"| != |StdClass| && |"array"| != |StdClass|;
  }

  /** `primaryAddress` and `billingAddress` in the nested-reference test
      on `ComplexDto`: both are a reference to AddressDto, the second one
      marked nullable and therefore not required. */
  lemma NestedAddressSchemas(hint: DocHint)
    ensures PropertySchema(FixtureRegistry, hint, PrimaryAddress).schema == RefSchema("AddressDto")
    ensures PropertySchema(FixtureRegistry, hint, BillingAddress).schema ==
      RefSchema("AddressDto") + [Entry(KStr("nullable"), Bool(true))]
    ensures !PropertySchema(FixtureRegistry, hint, BillingAddress).required
  {
    DtoLookups();
    FixtureNames();
    assert TypeFragment(FixtureRegistry, hint, PrimaryAddress) == Typed(RefSchema("AddressDto"), false);
    assert TypeFragment(FixtureRegistry, hint, BillingAddress) == Typed(RefSchema("AddressDto"), true);
  }

  /** The typed-array test on `ComplexDto`: `addresses` and `tags` carry
      the item types its constructor comment declares, a reference for
      AddressDto and string for string. The hint stands for the
      doc-comment parsing. */
  lemma TypedArraySchemas(hint: DocHint)
    requires hint(ComplexCtorDoc, "addresses") == Some(AddressDto)
    requires hint(ComplexCtorDoc, "tags") == Some("string")
    ensures PropertySchema(FixtureRegistry, hint, Addresses).schema ==
      [Entry(KStr("type"), Str("array")), Entry(KStr("items"), Arr(RefSchema("AddressDto")))]
    ensures PropertySchema(FixtureRegistry, hint, Tags).schema ==
      [Entry(KStr("type"), Str("array")), Entry(KStr("items"), Arr([Entry(KStr("type"), Str("string"))]))]
  {
    DtoLookups();
    FixtureNames();
    assert ExtractArrayItemType(FixtureRegistry, hint, Addresses) == Some(AddressDto);
    assert ExtractArrayItemType(FixtureRegistry, hint, Tags) == Some("string");
    assert TypeFragment(FixtureRegistry, hint, Addresses).schema == GenerateArraySchema(FixtureRegistry, hint, Addresses, SchemaName);
    assert TypeFragment(FixtureRegistry, hint, Tags).schema == GenerateArraySchema(FixtureRegistry, hint, Tags, SchemaName);
  }
}
