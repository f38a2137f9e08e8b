/** What the generator learns from PHP reflection, as an explicit registry.

    The registry maps a fully qualified class name to its declaration. A name
    absent from it is not a class: an undefined name, an interface (such as
    the PSR-7 ServerRequestInterface) or a trait. PHP counts enums as classes
    (`class_exists` holds for them), so enums are registry entries too. */
module Reflection {
  import opened Values

  /** A declared type, as reflection reports it. */
  datatype PhpType =
    | Named(name: string, allowsNull: bool)         // ReflectionNamedType, `?T` sets allowsNull
    | Union(branches: seq<PhpType>, allowsNull: bool) // ReflectionUnionType
    | Intersection(names: seq<string>)               // ReflectionIntersectionType
    | Untyped                                        // no declared type

  /** A property attribute. The six Symfony Validator constraints the
      generator recognises, and any other attribute by its class name. */
  datatype Attr =
    | NotBlank
    | Uuid
    | Length(min: Option<int>, max: Option<int>)
    | Range(lower: Option<Value>, upper: Option<Value>)
    | Email
    | Url
    | OtherAttr(name: string)

  /** A Range bound counts when it is given and is not null (`!== null`). */
  predicate BoundSet(b: Option<Value>) {
    b.Some? && b.value != Null
  }

  /** A property as `getProperties` reports it; `declaringClass` is the
      class whose declaration holds it (`getDeclaringClass`), a parent of
      the reflected class when the property is inherited. */
  datatype Property = Property(name: string, isStatic: bool, ptype: PhpType, attrs: seq<Attr>, declaringClass: string)

  datatype BackedCase = BackedCase(name: string, value: Value)

  /** Plain classes, unit enums (case names only) and backed enums (each
      case has a backing value; the backing type is optional because
      reflection may not report it as a named type). */
  datatype Kind =
    | PlainClass
    | UnitEnum(cases: seq<string>)
    | BackedEnum(backingType: Option<string>, backed: seq<BackedCase>)

  /** The `__invoke` signature of a handler. */
  datatype Signature = Signature(params: seq<PhpType>, returnType: PhpType)

  /** A class: its kind, its properties in declaration order, the doc
      comments of its constructor and of the class (None when absent), and
      its `__invoke` method if it has one. */
  datatype Decl = Decl(
    kind: Kind,
    props: seq<Property>,
    ctorDoc: Option<string>,
    classDoc: Option<string>,
    invoke: Option<Signature>)

  type Registry = map<string, Decl>

  /** `class_exists($name)`. */
  predicate ClassExists(reg: Registry, name: string) {
    name in reg
  }

  /** `enum_exists($name)`. */
  predicate EnumExists(reg: Registry, name: string) {
    name in reg && !reg[name].kind.PlainClass?
  }

  /** The array item type a doc comment declares for a property
      (`@param array<T> $name`), if any. The regular expression and the
      namespace fallback that produce it live behind this function. */
  type DocHint = (string, string) -> Option<string>

  /** Property names are distinct within a class, as PHP enforces. */
  predicate WellFormed(reg: Registry) {
    forall c, i, j :: c in reg && 0 <= i < j < |reg[c].props| ==> reg[c].props[i].name != reg[c].props[j].name
  }
}
