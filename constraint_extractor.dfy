/** Translation of Symfony Validator attributes into OpenAPI schema
    keywords plus the property's `required` flag. */
module ConstraintExtractor {
  import opened Values
  import opened Reflection

  /** A schema fragment together with the `required` flag, the two things
      `applyConstraints` updates by reference. */
  datatype Constrained = Constrained(schema: Schema, required: bool)

  /** One iteration of the attribute loop of `applyConstraints`. */
  function ApplyAttr(c: Constrained, a: Attr): Constrained {
    match a
    case NotBlank => c.(required := true)
    case Uuid => c.(schema := Put(c.schema, KStr("format"), Str("uuid")))
    case Length(min, max) =>
      var s1 := if min.Some? then Put(c.schema, KStr("minLength"), Int(min.value)) else c.schema;
      var s2 := if max.Some? then Put(s1, KStr("maxLength"), Int(max.value)) else s1;
      c.(schema := s2)
    case Range(lower, upper) =>
      var s1 := if BoundSet(lower) then Put(c.schema, KStr("minimum"), lower.value) else c.schema;
      var s2 := if BoundSet(upper) then Put(s1, KStr("maximum"), upper.value) else s1;
      c.(schema := s2)
    case Email => c.(schema := Put(c.schema, KStr("format"), Str("email")))
    case Url => c.(schema := Put(c.schema, KStr("format"), Str("uri")))
    case OtherAttr(_) => c
  }

  /** The effect of the whole attribute list, applied in attribute order. */
  function Constrain(attrs: seq<Attr>, c: Constrained): Constrained
    decreases |attrs|
  {
    if attrs == [] then c else ApplyAttr(Constrain(attrs[..|attrs| - 1], c), attrs[|attrs| - 1])
  }

  /** `applyConstraints`: the loop over the property's attributes, updating
      the schema and the flag that the caller passes by reference. */
  method ApplyConstraints(attrs: seq<Attr>, schema: Schema, required: bool) returns (schema': Schema, required': bool)
    ensures Constrained(schema', required') == Constrain(attrs, Constrained(schema, required))
  {
    schema', required' := schema, required;
    var i := 0;
    while i < |attrs|
      invariant 0 <= i <= |attrs|
      invariant Constrained(schema', required') == Constrain(attrs[..i], Constrained(schema, required))
    {
      schema', required' := ApplyAttribute(attrs[i], schema', required');
      ConstrainSnoc(attrs, i, Constrained(schema, required));
      i := i + 1;
    }
    assert attrs[..|attrs|] == attrs;
  }

  /** The body of the attribute loop of `applyConstraints`: one attribute's
      effect on the schema and the flag. */
  method ApplyAttribute(a: Attr, schema: Schema, required: bool) returns (schema': Schema, required': bool)
    ensures Constrained(schema', required') == ApplyAttr(Constrained(schema, required), a)
  {
    schema', required' := schema, required;
    match a {
      case NotBlank =>
        required' := true;
      case Uuid =>
        schema' := Put(schema', KStr("format"), Str("uuid"));
      case Length(min, max) =>
        if min.Some? { schema' := Put(schema', KStr("minLength"), Int(min.value)); }
        if max.Some? { schema' := Put(schema', KStr("maxLength"), Int(max.value)); }
      case Range(lower, upper) =>
        if BoundSet(lower) { schema' := Put(schema', KStr("minimum"), lower.value); }
        if BoundSet(upper) { schema' := Put(schema', KStr("maximum"), upper.value); }
      case Email =>
        schema' := Put(schema', KStr("format"), Str("email"));
      case Url =>
        schema' := Put(schema', KStr("format"), Str("uri"));
      case OtherAttr(_) =>
    }
  }

  /** One more attribute applies it to the effect of the ones before. */
  lemma ConstrainSnoc(attrs: seq<Attr>, i: nat, c: Constrained)
    requires i < |attrs|
    ensures Constrain(attrs[..i + 1], c) == ApplyAttr(Constrain(attrs[..i], c), attrs[i])
  {
    TakeSnoc(attrs, i);
  }

  /** `hasUuidConstraint`: the search for an `Assert\Uuid` attribute. */
  method HasUuidConstraint(attrs: seq<Attr>) returns (found: bool)
    ensures found <==> exists i :: 0 <= i < |attrs| && attrs[i] == Uuid
  {
    var i := 0;
    while i < |attrs|
      invariant 0 <= i <= |attrs|
      invariant forall j :: 0 <= j < i ==> attrs[j] != Uuid
    {
      if attrs[i] == Uuid {
        return true;
      }
      i := i + 1;
    }
    return false;
  }

  // ---- The constraint table, stated independently of the loop ----

  /** The value attribute a writes under key, if it writes that key. */
  function Writes(a: Attr, key: Key): Option<Value> {
    match a
    case Uuid => if key == KStr("format") then Some(Str("uuid")) else None
    case Email => if key == KStr("format") then Some(Str("email")) else None
    case Url => if key == KStr("format") then Some(Str("uri")) else None
    case Length(min, max) =>
      if key == KStr("minLength") && min.Some? then Some(Int(min.value))
      else if key == KStr("maxLength") && max.Some? then Some(Int(max.value))
      else None
    case Range(lower, upper) =>
      if key == KStr("minimum") && BoundSet(lower) then lower
      else if key == KStr("maximum") && BoundSet(upper) then upper
      else None
    case _ => None
  }

  /** The value the last attribute that writes key writes there. */
  function LastWrite(attrs: seq<Attr>, key: Key): (r: Option<Value>)
    ensures r.None? <==> forall i :: 0 <= i < |attrs| ==> Writes(attrs[i], key).None?
    ensures r.Some? ==> exists i :: 0 <= i < |attrs| && Writes(attrs[i], key) == r
                                    && forall j :: i < j < |attrs| ==> Writes(attrs[j], key).None?
    decreases |attrs|
  {
    if attrs == [] then None
    else if Writes(attrs[|attrs| - 1], key).Some? then Writes(attrs[|attrs| - 1], key)
    else
      var r := LastWrite(attrs[..|attrs| - 1], key);
      assert forall i :: 0 <= i < |attrs| - 1 ==> attrs[..|attrs| - 1][i] == attrs[i];
      r
  }

  /** The keys any attribute can write. */
  predicate IsConstraintKey(key: Key) {
    key == KStr("format") || key == KStr("minLength") || key == KStr("maxLength")
    || key == KStr("minimum") || key == KStr("maximum")
  }

  lemma WritesOnlyConstraintKeys(a: Attr, key: Key)
    requires !IsConstraintKey(key)
    ensures Writes(a, key).None?
  {
  }

  /** One attribute: each key holds what the attribute writes there, or what
      it held before. */
  lemma ApplyAttrGet(c: Constrained, a: Attr, key: Key)
    ensures Get(ApplyAttr(c, a).schema, key) == if Writes(a, key).Some? then Writes(a, key) else Get(c.schema, key)
  {
    match a {
      case Length(min, max) => LengthGet(c, min, max, key);
      case Range(lower, upper) => RangeGet(c, lower, upper, key);
      case _ =>
    }
  }

  lemma LengthGet(c: Constrained, min: Option<int>, max: Option<int>, key: Key)
    ensures var w := Writes(Length(min, max), key);
      Get(ApplyAttr(c, Length(min, max)).schema, key) == if w.Some? then w else Get(c.schema, key)
  {
    var s1 := if min.Some? then Put(c.schema, KStr("minLength"), Int(min.value)) else c.schema;
    var s2 := if max.Some? then Put(s1, KStr("maxLength"), Int(max.value)) else s1;
    assert ApplyAttr(c, Length(min, max)).schema == s2;
    assert Get(s1, key) == if key == KStr("minLength") && min.Some? then Some(Int(min.value)) else Get(c.schema, key);
    assert Get(s2, key) == if key == KStr("maxLength") && max.Some? then Some(Int(max.value)) else Get(s1, key);
  }

  lemma RangeGet(c: Constrained, lower: Option<Value>, upper: Option<Value>, key: Key)
    ensures var w := Writes(Range(lower, upper), key);
      Get(ApplyAttr(c, Range(lower, upper)).schema, key) == if w.Some? then w else Get(c.schema, key)
  {
    var s1 := if BoundSet(lower) then Put(c.schema, KStr("minimum"), lower.value) else c.schema;
    var s2 := if BoundSet(upper) then Put(s1, KStr("maximum"), upper.value) else s1;
    assert ApplyAttr(c, Range(lower, upper)).schema == s2;
    assert Get(s1, key) == if key == KStr("minimum") && BoundSet(lower) then lower else Get(c.schema, key);
    assert Get(s2, key) == if key == KStr("maximum") && BoundSet(upper) then upper else Get(s1, key);
  }

  /** The whole list: every key holds the last value written to it, and a key
      no attribute writes keeps its value. */
  lemma {:induction false} ConstrainGet(attrs: seq<Attr>, c: Constrained, key: Key)
    ensures Get(Constrain(attrs, c).schema, key) == if LastWrite(attrs, key).Some? then LastWrite(attrs, key) else Get(c.schema, key)
    decreases |attrs|
  {
    if attrs != [] {
      ConstrainGet(attrs[..|attrs| - 1], c, key);
      ApplyAttrGet(Constrain(attrs[..|attrs| - 1], c), attrs[|attrs| - 1], key);
    }
  }

  /** `required` ends true exactly when it started true or some attribute is
      NotBlank: no attribute ever clears it. */
  lemma {:induction false} ConstrainRequired(attrs: seq<Attr>, c: Constrained)
    ensures Constrain(attrs, c).required <==> c.required || exists i :: 0 <= i < |attrs| && attrs[i] == NotBlank
    decreases |attrs|
  {
    if attrs != [] {
      ConstrainRequired(attrs[..|attrs| - 1], c);
      assert forall i :: 0 <= i < |attrs| - 1 ==> attrs[..|attrs| - 1][i] == attrs[i];
    }
  }

  /** a is a prefix of b. */
  predicate IsPrefix(a: seq<Key>, b: seq<Key>) {
    |a| <= |b| && b[..|a|] == a
  }

  /** An assignment keeps the keys already present in place. */
  lemma PutExtends(m: Schema, k: Key, v: Value)
    ensures IsPrefix(Keys(m), Keys(Put(m, k, v)))
  {
    if k !in Keys(m) {
      assert (Keys(m) + [k])[..|Keys(m)|] == Keys(m);
    }
  }

  lemma PrefixTrans(a: seq<Key>, b: seq<Key>, c: seq<Key>)
    requires IsPrefix(a, b) && IsPrefix(b, c)
    ensures IsPrefix(a, c)
  {
    assert c[..|a|] == c[..|b|][..|a|];
  }

  /** An optional assignment keeps the keys already present in place. */
  lemma PutIfExtends(m: Schema, c: bool, k: Key, v: Value)
    ensures IsPrefix(Keys(m), Keys(if c then Put(m, k, v) else m))
  {
    if c { PutExtends(m, k, v); } else { assert Keys(m)[..|Keys(m)|] == Keys(m); }
  }

  lemma ApplyAttrKeysExtend(c: Constrained, a: Attr)
    ensures IsPrefix(Keys(c.schema), Keys(ApplyAttr(c, a).schema))
  {
    var m := c.schema;
    match a
    case NotBlank => PutIfExtends(m, false, KStr("format"), Null);
    case Uuid => PutExtends(m, KStr("format"), Str("uuid"));
    case Email => PutExtends(m, KStr("format"), Str("email"));
    case Url => PutExtends(m, KStr("format"), Str("uri"));
    case OtherAttr(_) => PutIfExtends(m, false, KStr("format"), Null);
    case Length(min, max) =>
      var s1 := if min.Some? then Put(m, KStr("minLength"), Int(min.value)) else m;
      PutIfExtends(m, min.Some?, KStr("minLength"), if min.Some? then Int(min.value) else Null);
      PutIfExtends(s1, max.Some?, KStr("maxLength"), if max.Some? then Int(max.value) else Null);
      PrefixTrans(Keys(m), Keys(s1), Keys(ApplyAttr(c, a).schema));
    case Range(lower, upper) =>
      var s1 := if BoundSet(lower) then Put(m, KStr("minimum"), lower.value) else m;
      PutIfExtends(m, BoundSet(lower), KStr("minimum"), if BoundSet(lower) then lower.value else Null);
      PutIfExtends(s1, BoundSet(upper), KStr("maximum"), if BoundSet(upper) then upper.value else Null);
      PrefixTrans(Keys(m), Keys(s1), Keys(ApplyAttr(c, a).schema));
  }

  /** Keys already present keep their place; new keys are appended. */
  lemma {:induction false} ConstrainKeysExtend(attrs: seq<Attr>, c: Constrained)
    ensures IsPrefix(Keys(c.schema), Keys(Constrain(attrs, c).schema))
    decreases |attrs|
  {
    if attrs != [] {
      var mid := Constrain(attrs[..|attrs| - 1], c);
      ConstrainKeysExtend(attrs[..|attrs| - 1], c);
      ApplyAttrKeysExtend(mid, attrs[|attrs| - 1]);
      var k0, k1, k2 := Keys(c.schema), Keys(mid.schema), Keys(Constrain(attrs, c).schema);
      assert k2[..|k0|] == k2[..|k1|][..|k0|];
    }
  }

  /** The last writer of a key decides LastWrite. */
  lemma {:induction false} LastWriteAt(attrs: seq<Attr>, key: Key, i: nat)
    requires i < |attrs| && Writes(attrs[i], key).Some?
    requires forall j :: i < j < |attrs| ==> Writes(attrs[j], key).None?
    ensures LastWrite(attrs, key) == Writes(attrs[i], key)
    decreases |attrs|
  {
    if i < |attrs| - 1 {
      var init := attrs[..|attrs| - 1];
      assert forall j :: i < j < |init| ==> init[j] == attrs[j];
      LastWriteAt(init, key, i);
    }
  }

  /** The format that the last of Uuid, Email and Url sets. */
  function FormatOf(a: Attr): Option<string> {
    match a
    case Uuid => Some("uuid")
    case Email => Some("email")
    case Url => Some("uri")
    case _ => None
  }

  /** What an attribute writes under format is its format. */
  lemma FormatWrites(a: Attr)
    ensures Writes(a, KStr("format")) == if FormatOf(a).Some? then Some(Str(FormatOf(a).value)) else None
  {
  }

  /** Format-setting attributes are last-writer-wins: the resulting format is
      the one of the last Uuid, Email or Url attribute. */
  lemma LastFormatWins(attrs: seq<Attr>, c: Constrained, i: nat)
    requires i < |attrs| && FormatOf(attrs[i]).Some?
    requires forall j :: i < j < |attrs| ==> FormatOf(attrs[j]).None?
    ensures Get(Constrain(attrs, c).schema, KStr("format")) == Some(Str(FormatOf(attrs[i]).value))
  {
    ConstrainGet(attrs, c, KStr("format"));
    forall j | i < j < |attrs| ensures Writes(attrs[j], KStr("format")).None? {
      FormatWrites(attrs[j]);
    }
    FormatWrites(attrs[i]);
    LastWriteAt(attrs, KStr("format"), i);
  }

  /** With Uuid as the only format attribute present, the format written
      is uuid. */
  lemma {:induction false} OnlyUuidFormat(attrs: seq<Attr>)
    requires Uuid in attrs && Email !in attrs && Url !in attrs
    ensures LastWrite(attrs, KStr("format")) == Some(Str("uuid"))
    decreases |attrs|
  {
    var n := |attrs| - 1;
    FormatWrites(attrs[n]);
    if attrs[n] != Uuid {
      assert attrs == attrs[..n] + [attrs[n]];
      OnlyUuidFormat(attrs[..n]);
    }
  }

  /** `minLength` is written iff some Length attribute has a minimum
      (likewise maxLength, minimum and maximum): an absent bound leaves its
      key as it was, absent on a fresh fragment. */
  lemma BoundPresentIff(attrs: seq<Attr>, c: Constrained, key: Key)
    requires key == KStr("minLength") || key == KStr("maxLength") || key == KStr("minimum") || key == KStr("maximum")
    requires key !in Keys(c.schema)
    ensures key in Keys(Constrain(attrs, c).schema) <==>
      exists i :: 0 <= i < |attrs| && Writes(attrs[i], key).Some?
  {
    ConstrainGet(attrs, c, key);
  }

  /** Keys other than format, minLength, maxLength, minimum and maximum are
      never touched. */
  lemma OtherKeysPreserved(attrs: seq<Attr>, c: Constrained, key: Key)
    requires !IsConstraintKey(key)
    ensures Get(Constrain(attrs, c).schema, key) == Get(c.schema, key)
  {
    ConstrainGet(attrs, c, key);
    if LastWrite(attrs, key).Some? {
      var i :| 0 <= i < |attrs| && Writes(attrs[i], key) == LastWrite(attrs, key)
               && forall j :: i < j < |attrs| ==> Writes(attrs[j], key).None?;
      WritesOnlyConstraintKeys(attrs[i], key);
    }
  }

  /** With no recognised attribute, nothing changes. */
  lemma {:induction false} UnrecognisedIgnored(attrs: seq<Attr>, c: Constrained)
    requires forall i :: 0 <= i < |attrs| ==> attrs[i].OtherAttr?
    ensures Constrain(attrs, c) == c
    decreases |attrs|
  {
    if attrs != [] {
      UnrecognisedIgnored(attrs[..|attrs| - 1], c);
    }
  }
}
