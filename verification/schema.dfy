/** The module schema the generator reads: type annotations, methods (the schema's
    "properties"), module specs with their alias tables, and the schema files that
    declare native modules. */
module Schema {
  import opened Wrappers

  /** The `type` tags that have a constructor of their own below. */
  const KnownTags: set<string> := {
    "ReservedFunctionValueTypeAnnotation", "VoidTypeAnnotation", "StringTypeAnnotation",
    "NumberTypeAnnotation", "FloatTypeAnnotation", "Int32TypeAnnotation",
    "BooleanTypeAnnotation", "GenericObjectTypeAnnotation", "ObjectTypeAnnotation",
    "ArrayTypeAnnotation", "FunctionTypeAnnotation", "GenericPromiseTypeAnnotation",
    "TypeAliasTypeAnnotation"
  }

  /** Any other `type` tag a schema may carry (a nullable or union annotation, say). */
  type UnknownTag = t: string | t !in KnownTags witness "NullableTypeAnnotation"

  /** A parameter or return type annotation. Payloads that the header generator never
      reads (object properties, array element types, callback signatures) are omitted. */
  datatype TypeAnnotation =
    | ReservedFunctionValue(name: string)
    | VoidType
    | StringType
    | NumberType
    | FloatType
    | Int32Type
    | BooleanType
    | GenericObjectType
    | ObjectType
    | ArrayType
    | FunctionType
    | GenericPromiseType
    | TypeAlias(name: string)
    | Unsupported(tag: UnknownTag)

  /** The annotation's `type` field. */
  function Tag(a: TypeAnnotation): (t: string)
    ensures t in KnownTags <==> !a.Unsupported?
  {
    match a
    case ReservedFunctionValue(_) => "ReservedFunctionValueTypeAnnotation"
    case VoidType => "VoidTypeAnnotation"
    case StringType => "StringTypeAnnotation"
    case NumberType => "NumberTypeAnnotation"
    case FloatType => "FloatTypeAnnotation"
    case Int32Type => "Int32TypeAnnotation"
    case BooleanType => "BooleanTypeAnnotation"
    case GenericObjectType => "GenericObjectTypeAnnotation"
    case ObjectType => "ObjectTypeAnnotation"
    case ArrayType => "ArrayTypeAnnotation"
    case FunctionType => "FunctionTypeAnnotation"
    case GenericPromiseType => "GenericPromiseTypeAnnotation"
    case TypeAlias(_) => "TypeAliasTypeAnnotation"
    case Unsupported(tag) => tag
  }

  datatype Param = Param(name: string, typeAnnotation: TypeAnnotation)

  datatype Method = Method(name: string, params: seq<Param>, returnType: TypeAnnotation)

  /** One native module: its alias table and its methods in declaration order. */
  datatype ModuleSpec = ModuleSpec(aliases: map<string, TypeAnnotation>, methods: seq<Method>)

  datatype NativeModule = NativeModule(name: string, spec: ModuleSpec)

  /** One schema file; `nativeModules` is `None` when the file declares no native modules.
      Keys of a JavaScript object are kept as an ordered association list. */
  datatype SchemaFile = SchemaFile(fileName: string, nativeModules: Option<seq<NativeModule>>)

  datatype SchemaType = SchemaType(modules: seq<SchemaFile>)

  /** An alias reference names an entry of the module's own alias table. */
  predicate AliasResolves(a: TypeAnnotation, aliases: map<string, TypeAnnotation>) {
    a.TypeAlias? ==> a.name in aliases
  }

  predicate ParamsResolve(params: seq<Param>, aliases: map<string, TypeAnnotation>) {
    forall i :: 0 <= i < |params| ==> AliasResolves(params[i].typeAnnotation, aliases)
  }

  predicate MethodResolves(m: Method, aliases: map<string, TypeAnnotation>) {
    ParamsResolve(m.params, aliases) && AliasResolves(m.returnType, aliases)
  }

  predicate SpecResolves(spec: ModuleSpec) {
    forall i :: 0 <= i < |spec.methods| ==> MethodResolves(spec.methods[i], spec.aliases)
  }

  predicate ModulesResolve(ms: seq<NativeModule>) {
    forall i :: 0 <= i < |ms| ==> SpecResolves(ms[i].spec)
  }

  /** Every alias reference anywhere in the schema resolves in its module's table. */
  predicate SchemaResolves(s: SchemaType) {
    forall i :: 0 <= i < |s.modules| && s.modules[i].nativeModules.Some? ==>
      ModulesResolve(s.modules[i].nativeModules.value)
  }
}
