/** One pure-virtual method declaration per schema method (`propertyTemplate` and the
    parameter rendering of `generate`), with a reader that takes a declaration apart
    again. */
module Signatures {
  import opened Wrappers
  import opened Text
  import opened Schema
  import opened TypeMapper

  /** A parameter with its C++ type: a `jsi::` handle as `const T &name`, anything
      else as `T name`. */
  function RenderParam(cppType: string, name: string): string {
    if ConventionOf(cppType) == ByReference then "const " + cppType + " &" + name
    else cppType + " " + name
  }

  /** The C++ type of a parameter, or the error naming the parameter and its method. */
  function ParamType(p: Param, methodName: string, aliases: map<string, TypeAnnotation>): Result<string>
    requires AliasResolves(p.typeAnnotation, aliases)
  {
    MapType(p.typeAnnotation, aliases, ParamContext(p.name, methodName))
  }

  /** The C++ return type, or the error naming the method. */
  function ReturnType(m: Method, aliases: map<string, TypeAnnotation>): Result<string>
    requires AliasResolves(m.returnType, aliases)
  {
    MapType(m.returnType, aliases, ReturnContext(m.name))
  }

  /** All parameters of a method have a C++ type. */
  predicate ParamsMappable(params: seq<Param>, methodName: string, aliases: map<string, TypeAnnotation>)
    requires ParamsResolve(params, aliases)
  {
    forall i :: 0 <= i < |params| ==> ParamType(params[i], methodName, aliases).Success?
  }

  /** The C++ types of the parameters, in order. */
  function ParamTypes(params: seq<Param>, methodName: string, aliases: map<string, TypeAnnotation>): (rs: seq<Result<string>>)
    requires ParamsResolve(params, aliases)
    ensures |rs| == |params|
    ensures forall i :: 0 <= i < |params| ==> rs[i] == ParamType(params[i], methodName, aliases)
  {
    seq(|params|, i requires 0 <= i < |params| => ParamType(params[i], methodName, aliases))
  }

  /** Renders the parameters in order; the first one without a C++ type aborts. */
  function RenderParams(params: seq<Param>, methodName: string, aliases: map<string, TypeAnnotation>): (r: Result<seq<string>>)
    requires ParamsResolve(params, aliases)
    ensures r.Success? <==> ParamsMappable(params, methodName, aliases)
    ensures r.Success? ==> (|r.value| == |params| &&
      forall i :: 0 <= i < |params| ==>
        r.value[i] == RenderParam(ParamType(params[i], methodName, aliases).value, params[i].name))
    ensures r.Failure? ==> exists i :: FirstFailureAt(ParamTypes(params, methodName, aliases), r.error, i)
  {
    var types :- Collect(ParamTypes(params, methodName, aliases));
    Success(seq(|params|, i requires 0 <= i < |params| => RenderParam(types[i], params[i].name)))
  }

  /** The fixed first parameter of every declaration. */
  const RuntimeParam: string := "(jsi::Runtime &rt"

  /** `propertyTemplate` with its three slots filled. */
  function PropertyLine(returnType: string, name: string, args: string): string {
    "virtual " + returnType + " " + name + RuntimeParam + args + ") = 0;"
  }

  /** The `::_ARGS_::` slot: nothing when the joined parameters are empty, else the
      joined parameters after a comma. */
  function ArgsSlot(rendered: seq<string>): string {
    var joined := Join(rendered, ", ");
    if joined == "" then "" else ", " + joined
  }

  /** The declaration of one method. Parameters are mapped before the return type, so
      a failing parameter is reported ahead of a failing return type. */
  function Signature(m: Method, aliases: map<string, TypeAnnotation>): (r: Result<string>)
    requires MethodResolves(m, aliases)
    ensures r.Success? <==> ParamsMappable(m.params, m.name, aliases) && ReturnType(m, aliases).Success?
    ensures r.Success? ==> "virtual " + ReturnType(m, aliases).value + " " + m.name + RuntimeParam <= r.value
    ensures r.Failure? && !ParamsMappable(m.params, m.name, aliases) ==>
      exists i :: FirstFailureAt(ParamTypes(m.params, m.name, aliases), r.error, i)
    ensures r.Failure? && ParamsMappable(m.params, m.name, aliases) ==> r == ReturnType(m, aliases)
  {
    var args :- RenderParams(m.params, m.name, aliases);
    var ret :- ReturnType(m, aliases);
    var line := PropertyLine(ret, m.name, ArgsSlot(args));
    assert line == ("virtual " + ret + " " + m.name + RuntimeParam) + (ArgsSlot(args) + ") = 0;");
    Success(line)
  }

  /** A parameter without a C++ type, preceded only by parameters that have one, makes
      the declaration fail with the parameter's message, naming the parameter, the
      method and the offending type; later parameters and the return type are not
      consulted. */
  lemma ParamFailureMessage(m: Method, aliases: map<string, TypeAnnotation>, i: nat)
    requires MethodResolves(m, aliases) && i < |m.params|
    requires !IsMappable(Resolve(m.params[i].typeAnnotation, aliases))
    requires forall j :: 0 <= j < i ==> ParamType(m.params[j], m.name, aliases).Success?
    ensures Signature(m, aliases) == Failure(
      "Unsupported type for param \"" + m.params[i].name + "\" in " + m.name + ". Found: " +
      OffendingName(Resolve(m.params[i].typeAnnotation, aliases)))
  {
    var rs := ParamTypes(m.params, m.name, aliases);
    var e := Signature(m, aliases).error;
    var k :| FirstFailureAt(rs, e, k);
    assert k == i by {
      assert rs[i].Failure?;
    }
  }

  /** When every parameter maps but the return type does not, the declaration fails
      with the return-type message naming the method and the offending type. */
  lemma ReturnFailureMessage(m: Method, aliases: map<string, TypeAnnotation>)
    requires MethodResolves(m, aliases) && ParamsMappable(m.params, m.name, aliases)
    requires !IsMappable(Resolve(m.returnType, aliases))
    ensures Signature(m, aliases) == Failure(
      "Unsupported return type for " + m.name + ". Found: " + OffendingName(Resolve(m.returnType, aliases)))
  {
  }

  /** A rendered parameter is never empty and carries no comma or line break. */
  lemma RenderParamShape(t: string, n: string)
    requires t in CppTypeNames && IsIdentifier(n)
    ensures |RenderParam(t, n)| > 0
    ensures ',' !in RenderParam(t, n) && '\n' !in RenderParam(t, n)
  {
    CppTypeNamesAreWords(t);
    IdentifierLacks(n, ',');
    IdentifierLacks(n, '\n');
  }

  /** Names used as-is in the generated text are identifiers. */
  predicate WellNamed(m: Method) {
    IsIdentifier(m.name) && forall i :: 0 <= i < |m.params| ==> IsIdentifier(m.params[i].name)
  }

  /** The parameter list is empty exactly when the method has no parameters, so a method
      without parameters gets `(jsi::Runtime &rt)` and no trailing comma. */
  lemma ArgsSlotEmpty(m: Method, aliases: map<string, TypeAnnotation>)
    requires MethodResolves(m, aliases)
    requires ParamsMappable(m.params, m.name, aliases)
    ensures ArgsSlot(RenderParams(m.params, m.name, aliases).value) == "" <==> |m.params| == 0
  {
    var rendered := RenderParams(m.params, m.name, aliases).value;
    forall i | 0 <= i < |rendered|
      ensures |rendered[i]| > 0
    {
      CppTypeNamesAreWords(ParamType(m.params[i], m.name, aliases).value);
    }
    JoinEmpty(rendered, ", ");
  }

  /** A method without parameters is declared with the runtime parameter alone. */
  lemma NoParamsSignature(m: Method, aliases: map<string, TypeAnnotation>)
    requires MethodResolves(m, aliases)
    requires |m.params| == 0 && ReturnType(m, aliases).Success?
    ensures Signature(m, aliases) ==
      Success("virtual " + ReturnType(m, aliases).value + " " + m.name + "(jsi::Runtime &rt) = 0;")
  {
    assert RenderParams(m.params, m.name, aliases) == Success([]);
    assert ArgsSlot([]) == "";
    var pre := "virtual " + ReturnType(m, aliases).value + " " + m.name;
    assert PropertyLine(ReturnType(m, aliases).value, m.name, "") == pre + (RuntimeParam + ") = 0;");
    assert RuntimeParam + ") = 0;" == "(jsi::Runtime &rt) = 0;";
  }

  /** No line break occurs in a declaration whose pieces have none. */
  lemma PropertyLineOneLine(returnType: string, name: string, args: string)
    requires '\n' !in returnType && '\n' !in name && '\n' !in args
    ensures '\n' !in PropertyLine(returnType, name, args)
  {
    assert '\n' !in "virtual " && '\n' !in " " && '\n' !in RuntimeParam && '\n' !in ") = 0;";
  }

  /** A declaration is one line. */
  lemma SignatureIsOneLine(m: Method, aliases: map<string, TypeAnnotation>)
    requires MethodResolves(m, aliases) && WellNamed(m)
    requires Signature(m, aliases).Success?
    ensures '\n' !in Signature(m, aliases).value
  {
    var rendered := RenderParams(m.params, m.name, aliases).value;
    forall i | 0 <= i < |rendered|
      ensures '\n' !in rendered[i]
    {
      RenderParamShape(ParamType(m.params[i], m.name, aliases).value, m.params[i].name);
    }
    JoinExcludes(rendered, ", ", '\n');
    assert '\n' !in ArgsSlot(rendered);
    var ret := ReturnType(m, aliases).value;
    CppTypeNamesAreWords(ret);
    IdentifierLacks(m.name, '\n');
    PropertyLineOneLine(ret, m.name, ArgsSlot(rendered));
    assert Signature(m, aliases).value == PropertyLine(ret, m.name, ArgsSlot(rendered));
  }

  // ---------------------------------------------------------------------------
  // Reading a declaration back

  datatype ParsedParam = ParsedParam(cppType: string, name: string, convention: Convention)

  datatype ParsedSignature = ParsedSignature(returnType: string, name: string, params: seq<ParsedParam>)

  /** Reads `const T &name` as a reference and `T name` as a value. */
  function ParseParam(text: string): Option<ParsedParam> {
    var i := IndexOf(text, ' ');
    if i == |text| then None
    else
      var first := text[..i];
      var after := text[i + 1..];
      if first != "const" then Some(ParsedParam(first, after, ByValue))
      else
        var j := IndexOf(after, ' ');
        if j == |after| || !("&" <= after[j + 1..]) then None
        else Some(ParsedParam(after[..j], after[j + 2..], ByReference))
  }

  function ParseParams(texts: seq<string>): (r: Option<seq<ParsedParam>>)
    ensures r.Some? <==> forall i :: 0 <= i < |texts| ==> ParseParam(texts[i]).Some?
    ensures r.Some? ==> (|r.value| == |texts| &&
      forall i :: 0 <= i < |texts| ==> r.value[i] == ParseParam(texts[i]).value)
  {
    if |texts| == 0 then Some([])
    else match (ParseParam(texts[0]), ParseParams(texts[1..]))
      case (Some(p), Some(ps)) =>
        assert forall i :: 1 <= i < |texts| ==> texts[i] == texts[1..][i - 1];
        Some([p] + ps)
      case _ =>
        assert forall i :: 1 <= i < |texts| ==> texts[i] == texts[1..][i - 1];
        None
  }

  /** Reads `virtual R name(jsi::Runtime &rt[, params]) = 0;`. */
  function ParseSignature(line: string): Option<ParsedSignature> {
    if |line| < 14 || !("virtual " <= line) || line[|line| - 6..] != ") = 0;" then None
    else ParseDeclarator(line[8..|line| - 6])
  }

  /** Reads `R name(...`: the return type ends at the first blank. */
  function ParseDeclarator(body: string): Option<ParsedSignature> {
    var i := IndexOf(body, ' ');
    if i == |body| then None
    else ParseCall(body[..i], body[i + 1..])
  }

  /** Reads `name(jsi::Runtime &rt...`: the name ends at the first parenthesis. */
  function ParseCall(returnType: string, rest: string): Option<ParsedSignature> {
    var j := IndexOf(rest, '(');
    var args := rest[j..];
    if !(RuntimeParam <= args) then None
    else match ParseArgs(args[|RuntimeParam|..])
      case None => None
      case Some(ps) => Some(ParsedSignature(returnType, rest[..j], ps))
  }

  /** Reads what follows the runtime parameter: nothing, or a comma-separated list. */
  function ParseArgs(extra: string): Option<seq<ParsedParam>> {
    if extra == "" then Some([])
    else if !(", " <= extra) then None
    else ParseParams(Split(extra[2..], ", "))
  }

  /** Reading a rendered parameter gives back its type and name, and the convention
      recorded in the text is by reference exactly for `jsi::` types. */
  lemma ParseRenderParam(t: string, n: string)
    requires t in CppTypeNames
    ensures ParseParam(RenderParam(t, n)) == Some(ParsedParam(t, n, ConventionOf(t)))
  {
    CppTypeNamesAreWords(t);
    if ConventionOf(t) == ByReference {
      ParseReferenceParam(t, n);
    } else {
      ParseValueParam(t, n);
    }
  }

  lemma ParseReferenceParam(t: string, n: string)
    requires ' ' !in t && "jsi::" <= t
    ensures ParseParam("const " + t + " &" + n) == Some(ParsedParam(t, n, ByReference))
  {
    var after := t + [' '] + ("&" + n);
    var text := "const" + [' '] + after;
    assert "const " + t + " &" + n == text;
    IndexOfAt("const", ' ', after);
    SliceAtSeam("const", [' '] + after);
    assert text[6..] == after;
    IndexOfAt(t, ' ', "&" + n);
    SliceAtSeam(t, [' '] + ("&" + n));
    assert after[|t| + 1..] == "&" + n;
    assert after[|t| + 2..] == n;
    assert after[..|t|] == t;
    assert text[..5] == "const";
    assert "&" <= after[|t| + 1..];
  }

  lemma ParseValueParam(t: string, n: string)
    requires ' ' !in t && t in CppTypeNames
    ensures ParseParam(t + " " + n) == Some(ParsedParam(t, n, ByValue))
  {
    var text := t + [' '] + n;
    assert t + " " + n == text;
    IndexOfAt(t, ' ', n);
    SliceAtSeam(t, [' '] + n);
    assert text[|t| + 1..] == n;
    assert text[..|t|] == t;
    assert t != "const";
  }

  /** The argument slot reads back as the rendered parameters it was built from. */
  lemma ParseArgsSlot(rendered: seq<string>)
    requires forall i :: 0 <= i < |rendered| ==> |rendered[i]| > 0 && ',' !in rendered[i]
    ensures ParseArgs(ArgsSlot(rendered)) == ParseParams(rendered)
  {
    JoinEmpty(rendered, ", ");
    if |rendered| > 0 {
      var joined := Join(rendered, ", ");
      assert ArgsSlot(rendered) == ", " + joined;
      SliceAtSeam(", ", joined);
      SplitJoin(rendered, ", ");
    }
  }

  lemma ParseFrame(body: string)
    ensures ParseSignature("virtual " + body + ") = 0;") == ParseDeclarator(body)
  {
    var line := "virtual " + body + ") = 0;";
    SliceAtSeam("virtual ", body + ") = 0;");
    SliceAtSeam("virtual " + body, ") = 0;");
    assert line[8..|line| - 6] == body;
  }

  lemma ParseReturnType(returnType: string, rest: string)
    requires ' ' !in returnType
    ensures ParseDeclarator(returnType + [' '] + rest) == ParseCall(returnType, rest)
  {
    var body := returnType + [' '] + rest;
    IndexOfAt(returnType, ' ', rest);
    SliceAtSeam(returnType, [' '] + rest);
    assert IndexOf(body, ' ') == |returnType|;
    assert body[..|returnType|] == returnType;
    assert body[|returnType| + 1..] == rest;
  }

  lemma ParseName(returnType: string, name: string, args: string)
    requires '(' !in name
    ensures ParseCall(returnType, name + RuntimeParam + args) ==
      match ParseArgs(args)
      case None => None
      case Some(ps) => Some(ParsedSignature(returnType, name, ps))
  {
    var afterName := "jsi::Runtime &rt" + args;
    var rest := name + ['('] + afterName;
    assert name + RuntimeParam + args == rest;
    IndexOfAt(name, '(', afterName);
    SliceAtSeam(name, ['('] + afterName);
    assert IndexOf(rest, '(') == |name|;
    assert rest[..|name|] == name;
    assert rest[|name|..] == RuntimeParam + args;
    SliceAtSeam(RuntimeParam, args);
    assert (RuntimeParam + args)[|RuntimeParam|..] == args;
  }

  /** A declaration line reads back as its return type, its name and its argument slot. */
  lemma ParsePropertyLine(returnType: string, name: string, args: string)
    requires ' ' !in returnType && IsIdentifier(name)
    ensures ParseSignature(PropertyLine(returnType, name, args)) ==
      match ParseArgs(args)
      case None => None
      case Some(ps) => Some(ParsedSignature(returnType, name, ps))
  {
    IdentifierLacks(name, '(');
    var rest := name + RuntimeParam + args;
    var body := returnType + [' '] + rest;
    assert PropertyLine(returnType, name, args) == "virtual " + body + ") = 0;";
    ParseFrame(body);
    ParseReturnType(returnType, rest);
    ParseName(returnType, name, args);
  }

  /** The declaration of a method reads back as its return type, its name, and each
      parameter's C++ type, name and passing convention, in declaration order. */
  lemma {:induction false} SignatureRoundTrip(m: Method, aliases: map<string, TypeAnnotation>)
    requires MethodResolves(m, aliases) && WellNamed(m)
    requires Signature(m, aliases).Success?
    ensures var p := ParseSignature(Signature(m, aliases).value);
      p.Some? &&
      p.value.returnType == ReturnType(m, aliases).value &&
      p.value.name == m.name &&
      |p.value.params| == |m.params| &&
      forall i :: 0 <= i < |m.params| ==>
        var t := ParamType(m.params[i], m.name, aliases).value;
        p.value.params[i] == ParsedParam(t, m.params[i].name, ConventionOf(t))
  {
    var rendered := RenderParams(m.params, m.name, aliases).value;
    var ret := ReturnType(m, aliases).value;
    forall i | 0 <= i < |rendered|
      ensures |rendered[i]| > 0 && ',' !in rendered[i]
      ensures ParseParam(rendered[i]).Some?
      ensures ParseParam(rendered[i]).value ==
        ParsedParam(ParamType(m.params[i], m.name, aliases).value, m.params[i].name,
                    ConventionOf(ParamType(m.params[i], m.name, aliases).value))
    {
      var t := ParamType(m.params[i], m.name, aliases).value;
      RenderParamShape(t, m.params[i].name);
      ParseRenderParam(t, m.params[i].name);
    }
    ParseArgsSlot(rendered);
    CppTypeNamesAreWords(ret);
    ParsePropertyLine(ret, m.name, ArgsSlot(rendered));
    assert Signature(m, aliases).value == PropertyLine(ret, m.name, ArgsSlot(rendered));
  }
}
