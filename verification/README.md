# TurboModule C++ header generator, modelled in Dafny

This project models the React Native codegen backend that turns a module schema into
the C++ TurboModule header `NativeModules.h`
(`packages/react-native-codegen/src/generators/modules/GenerateModuleH.js`). It has
three parts:

- **Type mapper** (`translatePrimitiveJSTypeToCpp`). It resolves an alias reference
  exactly once through the module's alias table. It then maps the annotation's tag to
  one of nine C++ type names through a closed switch. A reserved-value annotation other
  than `RootTag`, or any tag outside the switch, is an error whose text names the
  parameter and method, or the method for a return type.
- **Signature builder**. It renders each parameter as `const T &name` when `T` starts
  with `jsi::` and as `T name` otherwise. It fills `propertyTemplate` to get
  `virtual R name(jsi::Runtime &rt[, params]) = 0;`. Parameters are mapped before the
  return type, so a failing parameter is reported first.
- **Module and file assembly**. Every schema file's `nativeModules` are merged with
  `Object.assign`, and files without native modules are skipped. Each module becomes
  one class block with its name in both places. The blocks are joined with line breaks
  into the file template, and the result is a single entry keyed `NativeModules.h`.

Layout, one Dafny module per component:

| file | module | models |
|---|---|---|
| `wrappers.dfy` | `Wrappers` | `Result` (a thrown `Error` becomes `Failure(message)`), `Collect` (a `map` whose callback may throw) |
| `text.dfy` | `Text` | `join`, its inverse `Split`, searching, identifiers |
| `schema.dfy` | `Schema` | type annotations, methods, module specs, schema files |
| `type_mapper.dfy` | `TypeMapper` | `translatePrimitiveJSTypeToCpp`, passing convention |
| `signatures.dfy` | `Signatures` | parameter rendering, `propertyTemplate`, a reader for declarations |
| `module_assembly.dfy` | `ModuleAssembly` | `moduleTemplate`, a reader for class blocks |
| `flatten.dfy` | `Flattening` | the `map`/`filter`/`reduce(Object.assign)` flattening |
| `generate.dfy` | `GenerateModuleH` | `generate`, the file `template` |

Most operations have a partner that does not reuse their definition:

- Renderers have readers. `ParseParam`, `ParseSignature`, `ParseModuleBlock` and
  `Split` are proved to give back what was rendered. `ParseModuleBlock` takes a block
  apart piece by piece against the template's fixed text. It is also proved to accept
  nothing but a filled template.
- The switch has a data table. `TagTable` maps tags to C++ types, and the mapper is
  proved to agree with it.
- Flattening has two reference definitions. `Merged` is a map-override definition of
  what the merged object holds. `Dedup` is the order of first declaration.

Error texts are the generator's exact strings (lines 134 and 152 of `GenerateModuleH.js`).

## Model

| member | source | states |
|---|---|---|
| TypeMapper.MapType | packages/react-native-codegen/src/generators/modules/GenerateModuleH.js:55-101 | succeeds exactly when the resolved annotation is `RootTag` or has a tag in the table; the result is always one of the nine C++ type names; a failure's message is `createErrorMessage` of the reserved name (reserved values) or of the tag (everything else) |
| TypeMapper.MapTypeMatchesTable | packages/react-native-codegen/src/generators/modules/GenerateModuleH.js:67-99 | the switch equals the tag→type table: `RootTag`/number/float→`double`, void→`void`, string→`jsi::String`, int32→`int`, boolean→`bool`, generic object/object→`jsi::Object`, array→`jsi::Array`, function→`jsi::Function`, generic promise→`jsi::Value`; any other reserved name or tag fails naming it |
| TypeMapper.AliasOneHop | packages/react-native-codegen/src/generators/modules/GenerateModuleH.js:63-67 | mapping an alias gives exactly what mapping its table entry gives, success or error, unless that entry is itself an alias, which fails naming `TypeAliasTypeAnnotation` |
| TypeMapper.ContextIrrelevant | packages/react-native-codegen/src/generators/modules/GenerateModuleH.js:60-99 | the error-message callback only shapes the error text: whether a type maps, and to what, is independent of it |
| TypeMapper.Resolve | packages/react-native-codegen/src/generators/modules/GenerateModuleH.js:63-66 | the one alias lookup before the switch; `AliasOneHop` states that mapping an alias is mapping its table entry, with no second lookup |
| TypeMapper.ErrorMessage | packages/react-native-codegen/src/generators/modules/GenerateModuleH.js:131-153 | the two `createErrorMessage` callbacks, for a parameter and for a return type; `ParamFailureMessage` and `ReturnFailureMessage` state which one reaches the caller and when |
| TypeMapper.PassingConvention | packages/react-native-codegen/src/generators/modules/GenerateModuleH.js:137-142 | a mapped type starts with `jsi::` (passed by const reference) exactly for string, object, generic object, array, function and promise annotations; numbers, int32, booleans, void and `RootTag` are passed by value |
| TypeMapper.ConventionOf | packages/react-native-codegen/src/generators/modules/GenerateModuleH.js:137-142 | the `startsWith('jsi::')` test that picks the parameter form; `PassingConvention` states which annotations it sends by reference, and `ParseRenderParam` that the rendered text records it |
| Wrappers.Collect | packages/react-native-codegen/src/generators/modules/GenerateModuleH.js:124-167 | a `map` whose callback may throw: all values in order when every element succeeds, otherwise the error of the first failing element |
| Signatures.ParamType | packages/react-native-codegen/src/generators/modules/GenerateModuleH.js:131-136 | the parameter call of `translatePrimitiveJSTypeToCpp` with its callback; `ParamFailureMessage` states the error it gives for the first unmappable parameter |
| Signatures.ReturnType | packages/react-native-codegen/src/generators/modules/GenerateModuleH.js:149-154 | the return-type call of `translatePrimitiveJSTypeToCpp` with its callback; `ReturnFailureMessage` states its error and `NoParamsSignature` its place in the declaration |
| Signatures.RenderParam | packages/react-native-codegen/src/generators/modules/GenerateModuleH.js:137-142 | one parameter as `const T &name` or `T name`; `ParseRenderParam` reads it back, and `PassingConvention` states which annotations give the reference form |
| Signatures.ArgsSlot | packages/react-native-codegen/src/generators/modules/GenerateModuleH.js:156-159 | the text after the runtime parameter: empty, or `, ` and the joined parameters; `ArgsSlotEmpty` and `ParseArgsSlot` describe it |
| Signatures.PropertyLine | packages/react-native-codegen/src/generators/modules/GenerateModuleH.js:145-155 | `propertyTemplate` with its three slots filled; `ParsePropertyLine` reads it back and `PropertyLineOneLine` keeps it on one line |
| Signatures.RenderParams | packages/react-native-codegen/src/generators/modules/GenerateModuleH.js:129-143 | succeeds exactly when every parameter maps; then one rendered parameter per parameter, in order, `const T &name` or `T name`; otherwise the first failing parameter's error |
| Signatures.Signature | packages/react-native-codegen/src/generators/modules/GenerateModuleH.js:127-159 | succeeds exactly when all parameters and the return type map; the line starts `virtual R name(jsi::Runtime &rt` with the bare return type; a failing parameter is reported before a failing return type |
| Signatures.ParamFailureMessage | packages/react-native-codegen/src/generators/modules/GenerateModuleH.js:131-136 | the first unmappable parameter makes the declaration fail with `Unsupported type for param "<p>" in <m>. Found: <t>` |
| Signatures.ReturnFailureMessage | packages/react-native-codegen/src/generators/modules/GenerateModuleH.js:149-153 | with all parameters mapped, an unmappable return type fails with `Unsupported return type for <m>. Found: <t>` |
| Signatures.ArgsSlotEmpty | packages/react-native-codegen/src/generators/modules/GenerateModuleH.js:156-159 | the joined parameter text is empty exactly when the method has no parameters, so the `traversedArgs === ''` test is a test for "no parameters" |
| Signatures.NoParamsSignature | packages/react-native-codegen/src/generators/modules/GenerateModuleH.js:145-159 | a method without parameters is declared `virtual R name(jsi::Runtime &rt) = 0;`, with no trailing comma |
| Signatures.SignatureIsOneLine | packages/react-native-codegen/src/generators/modules/GenerateModuleH.js:103-104 | a declaration contains no line break, so joining declarations with `\n` gives one line per method |
| Signatures.ParseRenderParam | packages/react-native-codegen/src/generators/modules/GenerateModuleH.js:137-142 | reading a rendered parameter gives back its C++ type and name, with the by-reference form exactly for `jsi::` types |
| Signatures.ParseArgsSlot | packages/react-native-codegen/src/generators/modules/GenerateModuleH.js:144-159 | the `, `-joined argument slot reads back as the rendered parameters, in order |
| Signatures.ParsePropertyLine | packages/react-native-codegen/src/generators/modules/GenerateModuleH.js:103-104 | a filled `propertyTemplate` reads back as its return type, method name and argument slot |
| Signatures.SignatureRoundTrip | packages/react-native-codegen/src/generators/modules/GenerateModuleH.js:127-159 | a declaration reads back as the mapped return type, the method name, and each parameter's mapped type, name and passing convention, in declaration order |
| Text.Join | packages/react-native-codegen/src/generators/modules/GenerateModuleH.js:144 | `Array.prototype.join`, also used at lines 161 and 167; `SplitJoin` states that cutting at the separator undoes it, and `JoinEmpty` that non-empty parts join to empty text only when there are none |
| Text.SplitJoin | packages/react-native-codegen/src/generators/modules/GenerateModuleH.js:144 | `join` is undone by cutting at the separator when no part contains the separator's first character |
| ModuleAssembly.RenderModule | packages/react-native-codegen/src/generators/modules/GenerateModuleH.js:124-166 | a module block is produced exactly when all its methods' declarations are; otherwise the error of the first failing method |
| ModuleAssembly.MethodSection | packages/react-native-codegen/src/generators/modules/GenerateModuleH.js:127-161 | the declarations joined by line breaks; `MethodSectionLines` states that the section cuts back into the declarations in order |
| ModuleAssembly.ModuleBlock | packages/react-native-codegen/src/generators/modules/GenerateModuleH.js:162-164 | `moduleTemplate` with the name at both positions and the declarations in the method section; `ParseModuleBlockRoundTrip` reads it back |
| ModuleAssembly.ParseModuleBlock | packages/react-native-codegen/src/generators/modules/GenerateModuleH.js:25-33 | reads a block against the template's fixed text; whatever it accepts is exactly the template filled with the name and section it returns |
| ModuleAssembly.ParseModuleBlockRoundTrip | packages/react-native-codegen/src/generators/modules/GenerateModuleH.js:25-33 | a class block reads back as its module name, found in both name positions, and its method section |
| ModuleAssembly.MethodSectionLines | packages/react-native-codegen/src/generators/modules/GenerateModuleH.js:127-161 | the method section, cut at line breaks, is the methods' declarations in declaration order; a module without methods has an empty section |
| ModuleAssembly.RenderModuleReadsBack | packages/react-native-codegen/src/generators/modules/GenerateModuleH.js:124-166 | a rendered module block reads back as the module's name and method section, and each method's line reads back under its own name |
| Flattening.Flatten | packages/react-native-codegen/src/generators/modules/GenerateModuleH.js:112-122 | the merged object has no repeated module name, and every alias reference in it still resolves |
| Flattening.AssignOne | packages/react-native-codegen/src/generators/modules/GenerateModuleH.js:122 | copying one module into the accumulator: in place when its name is present, appended otherwise; `AssignOneAsMap` states its effect as a map update |
| Flattening.Assign | packages/react-native-codegen/src/generators/modules/GenerateModuleH.js:122 | `Object.assign` of one file's modules, in order; `AssignAsMap` and `AssignNames` describe it |
| Flattening.FlattenFiles | packages/react-native-codegen/src/generators/modules/GenerateModuleH.js:112-122 | the `map`/`filter`/`reduce` pipeline over the schema files; `FlattenIsMerge`, `FlattenOrder` and `FlattenSkipsEmptyFiles` describe it |
| Flattening.AssignAsMap | packages/react-native-codegen/src/generators/modules/GenerateModuleH.js:122 | `Object.assign(acc, entries)` read as a map is the old map overridden by the entries, later entries winning |
| Flattening.AssignNames | packages/react-native-codegen/src/generators/modules/GenerateModuleH.js:122 | `Object.assign` keeps existing keys in place and appends new keys in order of first appearance |
| Flattening.FlattenIsMerge | packages/react-native-codegen/src/generators/modules/GenerateModuleH.js:112-122 | the flattened modules, read as a map, are the file-by-file override union: a module declared twice keeps its later spec |
| Flattening.FlattenOrder | packages/react-native-codegen/src/generators/modules/GenerateModuleH.js:112-124 | the flattened modules come once each, in order of first declaration across the files |
| Flattening.FlattenSkipsEmptyFiles | packages/react-native-codegen/src/generators/modules/GenerateModuleH.js:113-121 | schema files whose `nativeModules` is null contribute nothing, wherever they appear |
| Flattening.FlattenEntries | packages/react-native-codegen/src/generators/modules/GenerateModuleH.js:112-126 | entry `i` of the flattened modules is the `i`-th distinct declared name paired with the spec of that name's last declaration |
| GenerateModuleH.Generate | packages/react-native-codegen/src/generators/modules/GenerateModuleH.js:107-173 | the output has exactly one key, `NativeModules.h`; generation succeeds exactly when every flattened module renders, and otherwise fails with the first failing module's error |
| GenerateModuleH.ModuleBlocks | packages/react-native-codegen/src/generators/modules/GenerateModuleH.js:124-166 | one class block per flattened module, in order; `GenerateLayout` states which block stands at each position |
| GenerateModuleH.FileText | packages/react-native-codegen/src/generators/modules/GenerateModuleH.js:169-170 | `template` with the joined blocks in its `::_MODULES_::` slot; `GenerateLayout` and `EmptySchema` describe the text it makes |
| GenerateModuleH.GenerateLayout | packages/react-native-codegen/src/generators/modules/GenerateModuleH.js:124-172 | the file text is the template around the `\n`-joined blocks, one block per distinct declared module name, in order of first declaration, rendered from that name's last spec |
| GenerateModuleH.EmptySchema | packages/react-native-codegen/src/generators/modules/GenerateModuleH.js:167-172 | a schema declaring no native module yields the file template with an empty module slot |
| GenerateModuleH.ExampleBar | packages/react-native-codegen/src/generators/modules/GenerateModuleH.js:129-159 | `bar(x: number): void` is declared `virtual void bar(jsi::Runtime &rt, double x) = 0;` |
| GenerateModuleH.ExampleFoo | packages/react-native-codegen/src/generators/modules/GenerateModuleH.js:107-173 | a schema with one module `Foo` holding `bar` yields `NativeModules.h` with exactly one class block for `Foo` containing that declaration |

## Left out

- `getTypeAliasTypeAnnotation` (`./ObjCppUtils/Utils`) is not part of this model. Its lookup is modelled as indexing the module's alias table. `Generate` requires every alias reference in the modules that survive flattening to be a key of that module's table. Nothing is assumed about the shape of the entry. So an entry that is itself an alias fails with the tag `TypeAliasTypeAnnotation`; this follows from the plain-indexing abstraction, since the declared entry type at line 61 is an object shape.
- The Flow-only type assertions (lines 73 and 97-98) and the type imports are left out. They do nothing at run time.
- The unused parameters `libraryName` and `moduleSpecName` of `generate` are left out.
- The `.replace('::_PROPERTIES_MAP_::', '')` call on line 165 is left out. That placeholder never occurs in `moduleTemplate`, so the call changes nothing.
- Placeholder substitution is modelled as plain concatenation. `String.prototype.replace` gives `$` patterns in a replacement special meaning, and a name containing a placeholder token would be substituted again.
- Names are assumed to be identifiers (letters, digits, `_`), which rules out `$` and placeholder tokens. The generator accepts any text. The readers and the lemmas about generated layout state this in their preconditions: `Signatures.SignatureIsOneLine`, `Signatures.ParsePropertyLine`, `Signatures.SignatureRoundTrip`, `ModuleAssembly.ParseModuleBlockRoundTrip`, `ModuleAssembly.MethodSectionLines` and `ModuleAssembly.RenderModuleReadsBack`.
- JavaScript enumerates integer-like object keys first. The model keeps keys in insertion order as an association list.
- The result is a Dafny `map` instead of a JavaScript `Map` object.
- Annotation payloads that the generator never reads are not modelled. These include object properties, array element types and callback signatures.
- A tag outside the switch is the constructor `Unsupported(tag)`. Its tag is any string other than the thirteen tags that have constructors of their own.
- Determinism is not stated as a lemma. Every operation is a pure Dafny function, so it holds by construction.
- The header comment at the top of `template` (lines 36-41) stands in as the constant `HeaderComment`. Its wording is not modelled. The rest of the template is exact: `#pragma once`, the include, and the namespace lines.
