/** Discovery of a handler's request and response DTOs from the signature
    of its `__invoke` method. */
module HandlerAnalyzer {
  import opened Values
  import opened Reflection

  const ServerRequestInterface: string := "Psr\\Http\\Message\\ServerRequestInterface"

  /** The scalar type names that are never a request DTO. */
  predicate IsPrimitive(name: string) {
    name == "string" || name == "int" || name == "float" || name == "bool" || name == "array"
  }

  /** `['requestDto' => ..., 'responseDto' => ...]`, null as None. */
  datatype HandlerInfo = HandlerInfo(requestDto: Option<string>, responseDto: Option<string>)

  /** A parameter type the search of `extractRequestDto` stops at. */
  predicate IsRequestCandidate(reg: Registry, t: PhpType) {
    t.Named? && t.name != ServerRequestInterface && !IsPrimitive(t.name) && ClassExists(reg, t.name)
  }

  /** `extractRequestDto`: the first parameter, in order, whose type is a
      named existing class other than the PSR-7 request and the scalars. */
  function ExtractRequestDto(reg: Registry, params: seq<PhpType>): Option<string> {
    if params == [] then None
    else if IsRequestCandidate(reg, params[0]) then Some(params[0].name)
    else ExtractRequestDto(reg, params[1..])
  }

  /** No DTO exactly when no parameter is a candidate; otherwise the DTO is
      the type of a candidate with no candidate before it. */
  lemma {:induction false} RequestDtoIsFirstCandidate(reg: Registry, params: seq<PhpType>)
    ensures var r := ExtractRequestDto(reg, params);
      && (r.None? <==> forall i :: 0 <= i < |params| ==> !IsRequestCandidate(reg, params[i]))
      && (r.Some? ==> exists i :: 0 <= i < |params| && IsRequestCandidate(reg, params[i]) && r.value == params[i].name
                                 && forall j :: 0 <= j < i ==> !IsRequestCandidate(reg, params[j]))
    decreases |params|
  {
    if params != [] && !IsRequestCandidate(reg, params[0]) {
      var rest := params[1..];
      RequestDtoIsFirstCandidate(reg, rest);
      assert forall i :: 1 <= i < |params| ==> params[i] == rest[i - 1];
      var r := ExtractRequestDto(reg, rest);
      if r.Some? {
        var k :| 0 <= k < |rest| && IsRequestCandidate(reg, rest[k]) && r.value == rest[k].name
                 && forall j :: 0 <= j < k ==> !IsRequestCandidate(reg, rest[j]);
        assert IsRequestCandidate(reg, params[k + 1]) && forall j :: 0 <= j < k + 1 ==> !IsRequestCandidate(reg, params[j]);
      }
    }
  }

  /** The request DTO is never the PSR-7 request, never a scalar, and always
      an existing class. */
  lemma RequestDtoIsClass(reg: Registry, params: seq<PhpType>)
    ensures var r := ExtractRequestDto(reg, params);
      r.Some? ==> r.value != ServerRequestInterface && !IsPrimitive(r.value) && ClassExists(reg, r.value)
  {
    RequestDtoIsFirstCandidate(reg, params);
  }

  /** Parameters that are not named types (unions, intersections, untyped)
      are skipped: inserting one anywhere does not change the result. */
  lemma {:induction false} NonNamedSkipped(reg: Registry, before: seq<PhpType>, t: PhpType, after: seq<PhpType>)
    requires !t.Named?
    ensures ExtractRequestDto(reg, before + [t] + after) == ExtractRequestDto(reg, before + after)
    decreases |before|
  {
    var s1, s2 := before + [t] + after, before + after;
    if before == [] {
      assert s1[0] == t && s1[1..] == after && s2 == after;
      assert !IsRequestCandidate(reg, s1[0]);
    } else {
      assert s1[0] == before[0] == s2[0];
      assert s1[1..] == before[1..] + [t] + after;
      assert s2[1..] == before[1..] + after;
      if !IsRequestCandidate(reg, before[0]) {
        NonNamedSkipped(reg, before[1..], t, after);
      }
    }
  }

  /** `extractResponseDto`: the return type's name when it is a named
      existing class. */
  function ExtractResponseDto(reg: Registry, returnType: PhpType): Option<string> {
    if returnType.Named? && ClassExists(reg, returnType.name) then Some(returnType.name) else None
  }

  /** `analyze`: no DTOs for a missing class or one without `__invoke`. */
  function Analyze(reg: Registry, handlerClass: string): HandlerInfo {
    if !ClassExists(reg, handlerClass) then HandlerInfo(None, None)
    else if reg[handlerClass].invoke.None? then HandlerInfo(None, None)
    else
      var sig := reg[handlerClass].invoke.value;
      HandlerInfo(ExtractRequestDto(reg, sig.params), ExtractResponseDto(reg, sig.returnType))
  }

  /** Every DTO the analysis reports is an existing class. */
  lemma AnalyzedDtosExist(reg: Registry, handlerClass: string)
    ensures var r := Analyze(reg, handlerClass);
      && (r.requestDto.Some? ==> ClassExists(reg, r.requestDto.value))
      && (r.responseDto.Some? ==> ClassExists(reg, r.responseDto.value))
      && (!ClassExists(reg, handlerClass) || reg[handlerClass].invoke.None? ==> r == HandlerInfo(None, None))
      && (r.responseDto.Some? <==>
            (ClassExists(reg, handlerClass) && reg[handlerClass].invoke.Some?
             && reg[handlerClass].invoke.value.returnType.Named?
             && ClassExists(reg, reg[handlerClass].invoke.value.returnType.name)))
  {
    var r := Analyze(reg, handlerClass);
    if ClassExists(reg, handlerClass) && reg[handlerClass].invoke.Some? {
      RequestDtoIsClass(reg, reg[handlerClass].invoke.value.params);
    }
  }
}
