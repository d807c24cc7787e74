/** `translatePrimitiveJSTypeToCpp`: one alias hop, then a closed table from
    annotation tag to C++ type name; anything else is an error. */
module TypeMapper {
  import opened Wrappers
  import opened Schema

  /** Which construct an unsupported type was found in; selects the error text. */
  datatype ErrorContext =
    | ParamContext(paramName: string, methodName: string)
    | ReturnContext(methodName: string)

  function ErrorMessage(ctx: ErrorContext, typeName: string): string {
    match ctx
    case ParamContext(p, m) =>
      "Unsupported type for param \"" + p + "\" in " + m + ". Found: " + typeName
    case ReturnContext(m) =>
      "Unsupported return type for " + m + ". Found: " + typeName
  }

  /** The C++ types the generator can emit. */
  const CppTypeNames: set<string> := {
    "double", "void", "jsi::String", "int", "bool",
    "jsi::Object", "jsi::Array", "jsi::Function", "jsi::Value"
  }

  /** The mapping table as data: annotation tag to C++ type, for every tag but the
      reserved-value one (which is decided by its name). */
  const TagTable: map<string, string> := map[
    "VoidTypeAnnotation" := "void",
    "StringTypeAnnotation" := "jsi::String",
    "NumberTypeAnnotation" := "double",
    "FloatTypeAnnotation" := "double",
    "Int32TypeAnnotation" := "int",
    "BooleanTypeAnnotation" := "bool",
    "GenericObjectTypeAnnotation" := "jsi::Object",
    "ObjectTypeAnnotation" := "jsi::Object",
    "ArrayTypeAnnotation" := "jsi::Array",
    "FunctionTypeAnnotation" := "jsi::Function",
    "GenericPromiseTypeAnnotation" := "jsi::Value"
  ]

  /** One alias hop: an alias reference is replaced by its table entry, which is not
      itself resolved again. */
  function Resolve(a: TypeAnnotation, aliases: map<string, TypeAnnotation>): TypeAnnotation
    requires AliasResolves(a, aliases)
  {
    if a.TypeAlias? then aliases[a.name] else a
  }

  /** The annotations that have a C++ type. */
  predicate IsMappable(t: TypeAnnotation) {
    (t.ReservedFunctionValue? && t.name == "RootTag") ||
    (!t.ReservedFunctionValue? && Tag(t) in TagTable)
  }

  /** The name an error reports: the reserved name for a reserved-value annotation,
      the `type` tag otherwise. */
  function OffendingName(t: TypeAnnotation): string {
    if t.ReservedFunctionValue? then t.name else Tag(t)
  }

  function MapType(a: TypeAnnotation, aliases: map<string, TypeAnnotation>, ctx: ErrorContext): (r: Result<string>)
    requires AliasResolves(a, aliases)
    ensures r.Success? <==> IsMappable(Resolve(a, aliases))
    ensures r.Success? ==> r.value in CppTypeNames
    ensures r.Failure? ==> r.error == ErrorMessage(ctx, OffendingName(Resolve(a, aliases)))
  {
    var t := Resolve(a, aliases);
    match t
    case ReservedFunctionValue(name) =>
      if name == "RootTag" then Success("double") else Failure(ErrorMessage(ctx, name))
    case VoidType => Success("void")
    case StringType => Success("jsi::String")
    case NumberType => Success("double")
    case FloatType => Success("double")
    case Int32Type => Success("int")
    case BooleanType => Success("bool")
    case GenericObjectType => Success("jsi::Object")
    case ObjectType => Success("jsi::Object")
    case ArrayType => Success("jsi::Array")
    case FunctionType => Success("jsi::Function")
    case GenericPromiseType => Success("jsi::Value")
    case TypeAlias(_) => Failure(ErrorMessage(ctx, Tag(t)))
    case Unsupported(tag) => Failure(ErrorMessage(ctx, tag))
  }

  /** The switch agrees with the table: a reserved-value annotation maps only when named
      `RootTag`, every other annotation maps exactly when its tag is in `TagTable`, to
      the table's entry, and otherwise fails naming its tag. */
  lemma MapTypeMatchesTable(a: TypeAnnotation, aliases: map<string, TypeAnnotation>, ctx: ErrorContext)
    requires AliasResolves(a, aliases)
    ensures var t := Resolve(a, aliases);
      MapType(a, aliases, ctx) ==
        if t.ReservedFunctionValue? then
          (if t.name == "RootTag" then Success("double") else Failure(ErrorMessage(ctx, t.name)))
        else if Tag(t) in TagTable then Success(TagTable[Tag(t)])
        else Failure(ErrorMessage(ctx, Tag(t)))
  {
  }

  /** Alias resolution is exactly one hop: an alias maps as its table entry does, unless
      that entry is itself an alias, which is an error naming the alias tag. */
  lemma AliasOneHop(name: string, aliases: map<string, TypeAnnotation>, ctx: ErrorContext)
    requires name in aliases
    ensures !aliases[name].TypeAlias? ==>
      MapType(TypeAlias(name), aliases, ctx) == MapType(aliases[name], aliases, ctx)
    ensures aliases[name].TypeAlias? ==>
      MapType(TypeAlias(name), aliases, ctx) == Failure(ErrorMessage(ctx, "TypeAliasTypeAnnotation"))
  {
  }

  /** The context only shapes the error text: whether a type maps, and to what, does
      not depend on it. */
  lemma ContextIrrelevant(a: TypeAnnotation, aliases: map<string, TypeAnnotation>, c1: ErrorContext, c2: ErrorContext)
    requires AliasResolves(a, aliases)
    ensures MapType(a, aliases, c1).Success? == MapType(a, aliases, c2).Success?
    ensures MapType(a, aliases, c1).Success? ==> MapType(a, aliases, c1).value == MapType(a, aliases, c2).value
  {
  }

  /** By-reference or by-value passing of a parameter. */
  datatype Convention = ByValue | ByReference

  /** The generator passes every `jsi::` handle by const reference. */
  function ConventionOf(cppType: string): Convention {
    if "jsi::" <= cppType then ByReference else ByValue
  }

  /** The annotation categories whose C++ type is an opaque `jsi::` handle. */
  predicate IsHandleCategory(t: TypeAnnotation) {
    t.StringType? || t.GenericObjectType? || t.ObjectType? || t.ArrayType? ||
    t.FunctionType? || t.GenericPromiseType?
  }

  /** A mapped type is passed by reference exactly for strings, objects, arrays,
      functions and promises, and by value for numbers, integers, booleans, void and
      the root tag. */
  lemma PassingConvention(a: TypeAnnotation, aliases: map<string, TypeAnnotation>, ctx: ErrorContext)
    requires AliasResolves(a, aliases)
    requires MapType(a, aliases, ctx).Success?
    ensures ConventionOf(MapType(a, aliases, ctx).value) == ByReference <==> IsHandleCategory(Resolve(a, aliases))
  {
    var t := Resolve(a, aliases);
    var cpp := MapType(a, aliases, ctx).value;
    if IsHandleCategory(t) {
      assert cpp[..5] == "jsi::";
    } else {
      assert cpp in {"double", "void", "int", "bool"};
      assert |cpp| < 5 || cpp[0] != 'j';
      assert !("jsi::" <= cpp);
    }
  }

  /** The C++ type names are single words: no blank, comma, parenthesis, ampersand or
      line break, which is what lets a rendered declaration be read back. */
  lemma CppTypeNamesAreWords(t: string)
    requires t in CppTypeNames
    ensures |t| > 0
    ensures ' ' !in t && ',' !in t && '(' !in t && '&' !in t && '\n' !in t
  {
  }
}
