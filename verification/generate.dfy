/** `generate`: flatten the schema, render one class block per module, join the
    blocks with line breaks into the file template, and return the single file
    `NativeModules.h`. */
module GenerateModuleH {
  import opened Wrappers
  import opened Text
  import opened Schema
  import opened Flattening
  import opened Signatures
  import opened ModuleAssembly

  const FileName: string := "NativeModules.h"

  /** Stands in for the file's leading comment block, whose wording is not modelled. */
  const HeaderComment: string := "/* header comment */"

  /** `template` as literal text before and after its `::_MODULES_::` slot. */
  const FileOpen: string :=
    "\n" + HeaderComment + "\n\n" +
    "#pragma once\n\n#include <ReactCommon/TurboModule.h>\n\n" +
    "namespace facebook {\nnamespace react {\n"
  const FileClose: string := "\n\n} // namespace react\n} // namespace facebook\n"

  function FileText(modules: string): string {
    FileOpen + modules + FileClose
  }

  /** The class blocks of the modules, in order. */
  function ModuleBlocks(ms: seq<NativeModule>): (rs: seq<Result<string>>)
    requires ModulesResolve(ms)
    ensures |rs| == |ms|
    ensures forall i :: 0 <= i < |ms| ==> rs[i] == RenderModule(ms[i])
  {
    seq(|ms|, i requires 0 <= i < |ms| => RenderModule(ms[i]))
  }

  /** The generated files: exactly one, `NativeModules.h`, or the first error met. */
  function Generate(schema: SchemaType): (r: Result<map<string, string>>)
    requires ModulesResolve(Flatten(schema))
    ensures r.Success? ==> r.value.Keys == {FileName}
    ensures r.Success? <==> forall i :: 0 <= i < |Flatten(schema)| ==> RenderModule(Flatten(schema)[i]).Success?
    ensures r.Failure? ==> exists i :: FirstFailureAt(ModuleBlocks(Flatten(schema)), r.error, i)
  {
    var ms := Flatten(schema);
    var rs := ModuleBlocks(ms);
    var blocks := Collect(rs);
    if blocks.Failure? then Failure(blocks.error)
    else
      var out := map[FileName := FileText(Join(blocks.value, "\n"))];
      assert out.Keys == {FileName};
      Success(out)
  }

  /** The generated header, end to end: the file template around one class block per
      distinct declared module name, in order of first declaration, each rendered from
      the spec of the name's last declaration. */
  lemma GenerateLayout(schema: SchemaType)
    requires ModulesResolve(Flatten(schema))
    requires Generate(schema).Success?
    ensures var names := Dedup(DeclaredNames(schema.modules));
      var blocks := Collect(ModuleBlocks(Flatten(schema))).value;
      Generate(schema).value[FileName] == FileOpen + Join(blocks, "\n") + FileClose &&
      |blocks| == |names| &&
      forall i :: 0 <= i < |blocks| ==>
        names[i] in Merged(schema.modules) &&
        Flatten(schema)[i] == NativeModule(names[i], Merged(schema.modules)[names[i]]) &&
        blocks[i] == RenderModule(Flatten(schema)[i]).value
  {
    FlattenEntries(schema.modules);
  }

  /** A schema that declares no native module yields the bare file template. */
  lemma EmptySchema(schema: SchemaType)
    requires ModulesResolve(Flatten(schema))
    requires DeclaredNames(schema.modules) == []
    ensures Generate(schema) == Success(map[FileName := FileOpen + FileClose])
  {
    FlattenEntries(schema.modules);
    assert Dedup([]) == [];
    assert Flatten(schema) == [];
    assert Collect(ModuleBlocks([])) == Success([]);
    assert FileText(Join([], "\n")) == FileOpen + FileClose;
  }

  /** `bar(x: number): void` is declared with a by-value `double` parameter. */
  lemma ExampleBar()
    ensures Signature(Method("bar", [Param("x", NumberType)], VoidType), map[]) ==
      Success("virtual void bar(jsi::Runtime &rt, double x) = 0;")
  {
    var bar := Method("bar", [Param("x", NumberType)], VoidType);
    ExampleBarParams();
    assert ArgsSlot(["double x"]) == ", double x";
    assert ReturnType(bar, map[]) == Success("void");
    ExampleBarLine();
  }

  lemma ExampleBarParams()
    ensures RenderParams([Param("x", NumberType)], "bar", map[]) == Success(["double x"])
  {
    var ps := [Param("x", NumberType)];
    assert ParamType(ps[0], "bar", map[]) == Success("double");
    assert "double"[0] == 'd';
    assert RenderParam("double", "x") == "double x";
    var rendered := RenderParams(ps, "bar", map[]);
    assert rendered.Success? && |rendered.value| == 1 && rendered.value[0] == "double x";
    assert rendered.value == ["double x"];
  }

  lemma ExampleBarLine()
    ensures PropertyLine("void", "bar", ", double x") == "virtual void bar(jsi::Runtime &rt, double x) = 0;"
  {
  }

  /** One module `Foo` with `bar(x: number): void` gives one class block holding that
      one declaration. */
  lemma ExampleFoo()
    ensures var bar := Method("bar", [Param("x", NumberType)], VoidType);
      var schema := SchemaType([SchemaFile("NativeFoo.js", Some([NativeModule("Foo", ModuleSpec(map[], [bar]))]))]);
      SchemaResolves(schema) &&
      Generate(schema) == Success(map[FileName := FileText(
        ModuleBlock("Foo", "virtual void bar(jsi::Runtime &rt, double x) = 0;"))])
  {
    var bar := Method("bar", [Param("x", NumberType)], VoidType);
    var spec := ModuleSpec(map[], [bar]);
    var foo := NativeModule("Foo", spec);
    var schema := SchemaType([SchemaFile("NativeFoo.js", Some([foo]))]);
    var line := "virtual void bar(jsi::Runtime &rt, double x) = 0;";
    ExampleBar();
    assert MethodSignatures([bar], map[]) == [Success(line)];
    var lines := Collect([Success(line)]);
    assert lines.Success? && lines.value == [line];
    assert MethodSection(spec) == Success(line);
    ExampleFlatten(foo);
    assert ModuleBlocks([foo]) == [Success(ModuleBlock("Foo", line))];
    var blocks := Collect([Success(ModuleBlock("Foo", line))]);
    assert blocks.Success? && blocks.value == [ModuleBlock("Foo", line)];
  }

  lemma ExampleFlatten(foo: NativeModule)
    ensures Flatten(SchemaType([SchemaFile("NativeFoo.js", Some([foo]))])) == [foo]
  {
    assert AssignOne([], foo) == [foo];
    assert [foo][..0] == [];
    assert Assign([], [foo]) == [foo];
    var files := [SchemaFile("NativeFoo.js", Some([foo]))];
    assert files[..0] == [];
    assert FlattenFiles(files[..0]) == [];
    assert FlattenFiles(files) == Assign([], [foo]);
  }
}
