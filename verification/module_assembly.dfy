/** One class block per native module (`moduleTemplate`): the module name is
    substituted at both of its positions and the method declarations, one per line,
    fill the method section. */
module ModuleAssembly {
  import opened Wrappers
  import opened Text
  import opened Schema
  import opened Signatures

  /** `moduleTemplate` as literal text around its slots: name, name, methods. */
  const ClassOpen: string := "\nclass JSI_EXPORT Native"
  const SpecSuffix: string := "CxxSpecJSI"
  const ClassBase: string := " : public TurboModule {\nprotected:\n  Native"
  const ClassCtor: string := "(std::shared_ptr<CallInvoker> jsInvoker);\n\npublic:\n"
  const ClassClose: string := "\n\n};"

  function ModuleBlock(name: string, methods: string): string {
    ClassOpen + name + SpecSuffix + ClassBase + name + SpecSuffix + ClassCtor + methods + ClassClose
  }

  /** The declarations of the methods, in order. */
  function MethodSignatures(ms: seq<Method>, aliases: map<string, TypeAnnotation>): (rs: seq<Result<string>>)
    requires forall k :: 0 <= k < |ms| ==> MethodResolves(ms[k], aliases)
    ensures |rs| == |ms|
    ensures forall i :: 0 <= i < |ms| ==> rs[i] == Signature(ms[i], aliases)
  {
    seq(|ms|, i requires 0 <= i < |ms| => Signature(ms[i], aliases))
  }

  /** The method section: declarations joined by line breaks. */
  function MethodSection(spec: ModuleSpec): Result<string>
    requires SpecResolves(spec)
  {
    var lines :- Collect(MethodSignatures(spec.methods, spec.aliases));
    Success(Join(lines, "\n"))
  }

  /** The class block of one module, or the first error among its methods. */
  function RenderModule(m: NativeModule): (r: Result<string>)
    requires SpecResolves(m.spec)
    ensures r.Success? <==> MethodSection(m.spec).Success?
    ensures r.Failure? ==> exists i :: FirstFailureAt(MethodSignatures(m.spec.methods, m.spec.aliases), r.error, i)
  {
    var section :- MethodSection(m.spec);
    Success(ModuleBlock(m.name, section))
  }

  // ---------------------------------------------------------------------------
  // Reading a class block back

  datatype ModuleParts = ModuleParts(name: string, methods: string)

  /** Finds the module name after the opening text, then reads the block against the
      template with that name. Only a filled template is accepted. */
  function ParseModuleBlock(block: string): (r: Option<ModuleParts>)
    ensures r.Some? ==> block == ModuleBlock(r.value.name, r.value.methods)
  {
    if !(ClassOpen <= block) then None
    else match ModuleNameOf(block[|ClassOpen|..])
      case None => None
      case Some(name) => CheckModuleBlock(block, name)
  }

  /** The name is what precedes `CxxSpecJSI` at the first blank. */
  function ModuleNameOf(rest: string): Option<string> {
    var i := IndexOf(rest, ' ');
    if i < |SpecSuffix| then None else Some(rest[..i - |SpecSuffix|])
  }

  /** The text after `piece`, when `s` starts with it. */
  function After(piece: string, s: string): (r: Option<string>)
    ensures r.Some? <==> piece <= s
    ensures r.Some? ==> s == piece + r.value
  {
    if piece <= s then Some(s[|piece|..]) else None
  }

  /** The text before `piece`, when `s` ends with it. */
  function Before(piece: string, s: string): (r: Option<string>)
    ensures r.Some? <==> |piece| <= |s| && s[|s| - |piece|..] == piece
    ensures r.Some? ==> s == r.value + piece
  {
    if |piece| <= |s| && s[|s| - |piece|..] == piece then Some(s[..|s| - |piece|]) else None
  }

  /** Reads the block piece by piece: the opening text, the name, the text up to the
      second name position, the name again, the text up to the method section, and the
      closing text at the end; what remains is the method section. */
  function CheckModuleBlock(block: string, name: string): (r: Option<ModuleParts>)
    ensures r.Some? ==> r.value.name == name && block == ModuleBlock(name, r.value.methods)
  {
    var afterOpen :- After(ClassOpen, block);
    var afterName :- After(name, afterOpen);
    var atSecond :- After(SpecSuffix + ClassBase, afterName);
    var afterSecond :- After(name, atSecond);
    var body :- After(SpecSuffix + ClassCtor, afterSecond);
    var methods :- Before(ClassClose, body);
    BlockPieces(name, methods);
    Some(ModuleParts(name, methods))
  }

  /** A class block, grouped the way the reader takes it apart. */
  lemma BlockPieces(name: string, methods: string)
    ensures ModuleBlock(name, methods) ==
      ClassOpen + (name + ((SpecSuffix + ClassBase) + (name + ((SpecSuffix + ClassCtor) + (methods + ClassClose)))))
  {
    Regroup(ClassOpen, name, SpecSuffix, ClassBase, ClassCtor, methods, ClassClose);
  }

  lemma Regroup(o: string, n: string, s: string, b: string, c: string, m: string, e: string)
    ensures o + n + s + b + n + s + c + m + e == o + (n + ((s + b) + (n + ((s + c) + (m + e)))))
  {
  }

  lemma ModuleNameOfBlock(name: string, tail: string)
    requires ' ' !in name
    ensures ModuleNameOf(name + SpecSuffix + ClassBase + tail) == Some(name)
  {
    var word := name + SpecSuffix;
    var after := ClassBase[1..] + tail;
    assert ClassBase == [' '] + ClassBase[1..];
    assert name + SpecSuffix + ClassBase + tail == word + [' '] + after;
    assert ' ' !in SpecSuffix;
    IndexOfAt(word, ' ', after);
    assert (word + [' '] + after)[..|name|] == name;
  }

  lemma AfterConcat(piece: string, rest: string)
    ensures After(piece, piece + rest) == Some(rest)
  {
    SliceAtSeam(piece, rest);
  }

  lemma CheckFilledBlock(name: string, methods: string)
    ensures CheckModuleBlock(ModuleBlock(name, methods), name) == Some(ModuleParts(name, methods))
  {
    var body := methods + ClassClose;
    var afterSecond := SpecSuffix + ClassCtor + body;
    var atSecond := name + afterSecond;
    var afterName := SpecSuffix + ClassBase + atSecond;
    var afterOpen := name + afterName;
    BlockPieces(name, methods);
    AfterConcat(ClassOpen, afterOpen);
    AfterConcat(name, afterName);
    AfterConcat(SpecSuffix + ClassBase, atSecond);
    AfterConcat(name, afterSecond);
    AfterConcat(SpecSuffix + ClassCtor, body);
    SliceAtSeam(methods, ClassClose);
  }

  /** A class block reads back as the module name, found at both of its positions,
      and the method section. */
  lemma ParseModuleBlockRoundTrip(name: string, methods: string)
    requires IsIdentifier(name)
    ensures ParseModuleBlock(ModuleBlock(name, methods)) == Some(ModuleParts(name, methods))
  {
    IdentifierLacks(name, ' ');
    var tail := name + SpecSuffix + ClassCtor + methods + ClassClose;
    var block := ModuleBlock(name, methods);
    assert block == ClassOpen + (name + SpecSuffix + ClassBase + tail);
    SliceAtSeam(ClassOpen, name + SpecSuffix + ClassBase + tail);
    ModuleNameOfBlock(name, tail);
    CheckFilledBlock(name, methods);
  }

  /** A module's method section, cut at line breaks, is its method declarations in
      declaration order; a module without methods has an empty section. */
  lemma MethodSectionLines(spec: ModuleSpec)
    requires SpecResolves(spec)
    requires forall i :: 0 <= i < |spec.methods| ==> WellNamed(spec.methods[i])
    requires MethodSection(spec).Success?
    ensures |spec.methods| == 0 ==> MethodSection(spec).value == ""
    ensures |spec.methods| > 0 ==>
      var lines := Split(MethodSection(spec).value, "\n");
      |lines| == |spec.methods| &&
      forall i :: 0 <= i < |spec.methods| ==> lines[i] == Signature(spec.methods[i], spec.aliases).value
  {
    var lines := Collect(MethodSignatures(spec.methods, spec.aliases)).value;
    if |spec.methods| > 0 {
      forall i | 0 <= i < |lines|
        ensures '\n' !in lines[i]
      {
        SignatureIsOneLine(spec.methods[i], spec.aliases);
      }
      SplitJoin(lines, "\n");
    }
  }

  /** Every method line of a rendered module reads back as its method: the return
      type, the name, and each parameter with its type and passing convention. */
  lemma RenderModuleReadsBack(m: NativeModule)
    requires SpecResolves(m.spec) && IsIdentifier(m.name)
    requires forall i :: 0 <= i < |m.spec.methods| ==> WellNamed(m.spec.methods[i])
    requires RenderModule(m).Success?
    ensures var parts := ParseModuleBlock(RenderModule(m).value);
      parts.Some? && parts.value.name == m.name &&
      parts.value.methods == MethodSection(m.spec).value
    ensures forall i :: 0 <= i < |m.spec.methods| ==>
      ParseSignature(Signature(m.spec.methods[i], m.spec.aliases).value).Some? &&
      ParseSignature(Signature(m.spec.methods[i], m.spec.aliases).value).value.name == m.spec.methods[i].name
  {
    ParseModuleBlockRoundTrip(m.name, MethodSection(m.spec).value);
    forall i | 0 <= i < |m.spec.methods|
      ensures ParseSignature(Signature(m.spec.methods[i], m.spec.aliases).value).Some?
      ensures ParseSignature(Signature(m.spec.methods[i], m.spec.aliases).value).value.name == m.spec.methods[i].name
    {
      SignatureRoundTrip(m.spec.methods[i], m.spec.aliases);
    }
  }
}
