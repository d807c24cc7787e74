/** Flattening the schema: every schema file's native modules are merged into one
    name-to-spec object with `Object.assign`, files without native modules skipped.
    A JavaScript object is kept as an association list in key order; assigning an
    existing key replaces its value in place, a new key is appended. */
module Flattening {
  import opened Wrappers
  import opened Schema

  function Names(ms: seq<NativeModule>): (r: seq<string>)
    ensures |r| == |ms|
    ensures forall i :: 0 <= i < |ms| ==> r[i] == ms[i].name
  {
    if |ms| == 0 then [] else Names(ms[..|ms| - 1]) + [ms[|ms| - 1].name]
  }

  predicate Distinct(xs: seq<string>) {
    forall i, j :: 0 <= i < j < |xs| ==> xs[i] != xs[j]
  }

  /** The index of the entry named `name`, or `|acc|` when there is none. */
  function IndexOfName(acc: seq<NativeModule>, name: string): (i: nat)
    ensures i <= |acc|
    ensures i < |acc| ==> acc[i].name == name
    ensures forall k :: 0 <= k < i ==> acc[k].name != name
  {
    if |acc| == 0 then 0
    else if acc[0].name == name then 0
    else 1 + IndexOfName(acc[1..], name)
  }

  /** Assigning one own property of a source object to the target. */
  function AssignOne(acc: seq<NativeModule>, e: NativeModule): seq<NativeModule> {
    var i := IndexOfName(acc, e.name);
    if i < |acc| then acc[i := e] else acc + [e]
  }

  /** `Object.assign(acc, entries)`: the entries' properties in order. */
  function Assign(acc: seq<NativeModule>, entries: seq<NativeModule>): seq<NativeModule> {
    if |entries| == 0 then acc
    else AssignOne(Assign(acc, entries[..|entries| - 1]), entries[|entries| - 1])
  }

  /** The `map`/`filter`/`reduce` pipeline over the schema files, in order. */
  function FlattenFiles(files: seq<SchemaFile>): seq<NativeModule> {
    if |files| == 0 then []
    else
      var acc := FlattenFiles(files[..|files| - 1]);
      match files[|files| - 1].nativeModules
      case None => acc
      case Some(entries) => Assign(acc, entries)
  }

  function Flatten(s: SchemaType): (r: seq<NativeModule>)
    ensures Distinct(Names(r))
    ensures SchemaResolves(s) ==> ModulesResolve(r)
  {
    FlattenDistinct(s.modules);
    FlattenResolves(s.modules);
    FlattenFiles(s.modules)
  }

  // ---------------------------------------------------------------------------
  // Reference definitions: what the merged object holds, and in what order.

  /** An association list read as a map; a later entry overrides an earlier one. */
  function AsMap(ms: seq<NativeModule>): map<string, ModuleSpec> {
    if |ms| == 0 then map[]
    else AsMap(ms[..|ms| - 1])[ms[|ms| - 1].name := ms[|ms| - 1].spec]
  }

  /** The union of every file's modules, a later file overriding an earlier one. */
  function Merged(files: seq<SchemaFile>): map<string, ModuleSpec> {
    if |files| == 0 then map[]
    else
      var m := Merged(files[..|files| - 1]);
      match files[|files| - 1].nativeModules
      case None => m
      case Some(entries) => m + AsMap(entries)
  }

  /** Every module name declared, file by file, with repetitions. */
  function DeclaredNames(files: seq<SchemaFile>): seq<string> {
    if |files| == 0 then []
    else
      var ns := DeclaredNames(files[..|files| - 1]);
      match files[|files| - 1].nativeModules
      case None => ns
      case Some(entries) => ns + Names(entries)
  }

  /** The names of `xs` without repetitions, each where it first occurs. */
  function Dedup(xs: seq<string>): (r: seq<string>)
    ensures Distinct(r)
    ensures forall x :: x in r <==> x in xs
  {
    if |xs| == 0 then []
    else
      var d := Dedup(xs[..|xs| - 1]);
      assert forall x :: x in xs <==> x in xs[..|xs| - 1] || x == xs[|xs| - 1];
      if xs[|xs| - 1] in d then d else d + [xs[|xs| - 1]]
  }

  // ---------------------------------------------------------------------------
  // Lemmas

  lemma AssignOneDistinct(acc: seq<NativeModule>, e: NativeModule)
    requires Distinct(Names(acc))
    ensures Distinct(Names(AssignOne(acc, e)))
    ensures Names(AssignOne(acc, e)) == if e.name in Names(acc) then Names(acc) else Names(acc) + [e.name]
  {
    var i := IndexOfName(acc, e.name);
    if i < |acc| {
      assert Names(acc[i := e]) == Names(acc);
    } else {
      assert Names(acc + [e]) == Names(acc) + [e.name];
    }
  }

  lemma {:induction false} AssignDistinct(acc: seq<NativeModule>, entries: seq<NativeModule>)
    requires Distinct(Names(acc))
    ensures Distinct(Names(Assign(acc, entries)))
    decreases |entries|
  {
    if |entries| > 0 {
      AssignDistinct(acc, entries[..|entries| - 1]);
      AssignOneDistinct(Assign(acc, entries[..|entries| - 1]), entries[|entries| - 1]);
    }
  }

  lemma {:induction false} FlattenDistinct(files: seq<SchemaFile>)
    ensures Distinct(Names(FlattenFiles(files)))
    decreases |files|
  {
    if |files| > 0 {
      FlattenDistinct(files[..|files| - 1]);
      match files[|files| - 1].nativeModules
      case None =>
      case Some(entries) => AssignDistinct(FlattenFiles(files[..|files| - 1]), entries);
    }
  }

  /** Assigning in place or appending both read as a map update. */
  lemma {:induction false} AssignOneAsMap(acc: seq<NativeModule>, e: NativeModule)
    requires Distinct(Names(acc))
    ensures AsMap(AssignOne(acc, e)) == AsMap(acc)[e.name := e.spec]
    decreases |acc|
  {
    var i := IndexOfName(acc, e.name);
    if i < |acc| {
      ReplaceAsMap(acc, i, e);
    }
  }

  /** Replacing the entry at `i` by one of the same name updates that key alone. */
  lemma {:induction false} ReplaceAsMap(acc: seq<NativeModule>, i: nat, e: NativeModule)
    requires Distinct(Names(acc))
    requires i < |acc| && acc[i].name == e.name
    ensures AsMap(acc[i := e]) == AsMap(acc)[e.name := e.spec]
    decreases |acc|
  {
    var n := |acc| - 1;
    if i == n {
      assert acc[i := e][..n] == acc[..n];
    } else {
      assert acc[i := e][..n] == acc[..n][i := e];
      assert Names(acc[..n]) == Names(acc)[..n];
      ReplaceAsMap(acc[..n], i, e);
      assert acc[n].name != e.name;
    }
  }

  lemma {:induction false} AssignAsMap(acc: seq<NativeModule>, entries: seq<NativeModule>)
    requires Distinct(Names(acc))
    ensures AsMap(Assign(acc, entries)) == AsMap(acc) + AsMap(entries)
    decreases |entries|
  {
    if |entries| > 0 {
      var n := |entries| - 1;
      var e := entries[n];
      AssignAsMap(acc, entries[..n]);
      AssignDistinct(acc, entries[..n]);
      AssignOneAsMap(Assign(acc, entries[..n]), e);
      assert AsMap(entries) == AsMap(entries[..n])[e.name := e.spec];
      UnionUpdate(AsMap(acc), AsMap(entries[..n]), e.name, e.spec);
    }
  }

  lemma UnionUpdate(a: map<string, ModuleSpec>, b: map<string, ModuleSpec>, k: string, v: ModuleSpec)
    ensures (a + b)[k := v] == a + b[k := v]
  {
  }

  /** The flattened object maps each module name to the spec of its last declaration. */
  lemma {:induction false} FlattenIsMerge(files: seq<SchemaFile>)
    ensures AsMap(FlattenFiles(files)) == Merged(files)
    decreases |files|
  {
    if |files| > 0 {
      var n := |files| - 1;
      FlattenIsMerge(files[..n]);
      match files[n].nativeModules
      case None =>
      case Some(entries) =>
        FlattenDistinct(files[..n]);
        AssignAsMap(FlattenFiles(files[..n]), entries);
    }
  }

  lemma {:induction false} DedupOfDistinct(xs: seq<string>)
    requires Distinct(xs)
    ensures Dedup(xs) == xs
    decreases |xs|
  {
    if |xs| > 0 {
      DedupOfDistinct(xs[..|xs| - 1]);
    }
  }

  /** Deduplicating a prefix first changes nothing. */
  lemma {:induction false} DedupPrefix(xs: seq<string>, ys: seq<string>)
    ensures Dedup(Dedup(xs) + ys) == Dedup(xs + ys)
    decreases |ys|
  {
    if |ys| == 0 {
      assert xs + ys == xs;
      assert Dedup(xs) + ys == Dedup(xs);
      DedupOfDistinct(Dedup(xs));
    } else {
      var n := |ys| - 1;
      DedupPrefix(xs, ys[..n]);
      assert (Dedup(xs) + ys)[..|Dedup(xs)| + n] == Dedup(xs) + ys[..n];
      assert (xs + ys)[..|xs| + n] == xs + ys[..n];
    }
  }

  lemma {:induction false} AssignNames(acc: seq<NativeModule>, entries: seq<NativeModule>)
    requires Distinct(Names(acc))
    ensures Names(Assign(acc, entries)) == Dedup(Names(acc) + Names(entries))
    decreases |entries|
  {
    if |entries| == 0 {
      assert Names(acc) + Names(entries) == Names(acc);
      DedupOfDistinct(Names(acc));
    } else {
      var n := |entries| - 1;
      var xs := Names(acc) + Names(entries);
      var prefix := Names(acc) + Names(entries[..n]);
      AssignNames(acc, entries[..n]);
      AssignDistinct(acc, entries[..n]);
      AssignOneDistinct(Assign(acc, entries[..n]), entries[n]);
      assert Names(entries) == Names(entries[..n]) + [entries[n].name];
      assert xs == prefix + [entries[n].name];
      assert xs[..|xs| - 1] == prefix;
      assert Dedup(xs) == if entries[n].name in Dedup(prefix) then Dedup(prefix) else Dedup(prefix) + [entries[n].name];
    }
  }

  /** Modules appear in the order their names are first declared, each once. */
  lemma {:induction false} FlattenOrder(files: seq<SchemaFile>)
    ensures Names(FlattenFiles(files)) == Dedup(DeclaredNames(files))
    decreases |files|
  {
    if |files| > 0 {
      var n := |files| - 1;
      FlattenOrder(files[..n]);
      match files[n].nativeModules
      case None =>
      case Some(entries) =>
        FlattenDistinct(files[..n]);
        AssignNames(FlattenFiles(files[..n]), entries);
        DedupPrefix(DeclaredNames(files[..n]), Names(entries));
    }
  }

  /** Files without native modules contribute nothing, wherever they appear. */
  function WithModules(files: seq<SchemaFile>): (r: seq<SchemaFile>)
    ensures forall i :: 0 <= i < |r| ==> r[i].nativeModules.Some?
  {
    if |files| == 0 then []
    else
      var rest := WithModules(files[..|files| - 1]);
      if files[|files| - 1].nativeModules.Some? then rest + [files[|files| - 1]] else rest
  }

  lemma {:induction false} FlattenSkipsEmptyFiles(files: seq<SchemaFile>)
    ensures FlattenFiles(WithModules(files)) == FlattenFiles(files)
    decreases |files|
  {
    if |files| > 0 {
      var n := |files| - 1;
      FlattenSkipsEmptyFiles(files[..n]);
      if files[n].nativeModules.Some? {
        var w := WithModules(files[..n]) + [files[n]];
        assert w[..|w| - 1] == WithModules(files[..n]);
      }
    }
  }

  /** In a list without repeated names, each entry is what the map holds for its name. */
  lemma {:induction false} AsMapLookup(ms: seq<NativeModule>, i: nat)
    requires Distinct(Names(ms)) && i < |ms|
    ensures ms[i].name in AsMap(ms) && AsMap(ms)[ms[i].name] == ms[i].spec
    decreases |ms|
  {
    var n := |ms| - 1;
    if i < n {
      assert Names(ms[..n]) == Names(ms)[..n];
      AsMapLookup(ms[..n], i);
      assert ms[n].name != ms[i].name;
    }
  }

  /** The flattened modules, completely: one entry per declared name, in order of first
      declaration, each holding the spec of the name's last declaration. */
  lemma FlattenEntries(files: seq<SchemaFile>)
    ensures var ms := FlattenFiles(files); var names := Dedup(DeclaredNames(files));
      |ms| == |names| &&
      forall i :: 0 <= i < |ms| ==>
        names[i] in Merged(files) && ms[i] == NativeModule(names[i], Merged(files)[names[i]])
  {
    var ms := FlattenFiles(files);
    var names := Dedup(DeclaredNames(files));
    FlattenOrder(files);
    FlattenIsMerge(files);
    FlattenDistinct(files);
    forall i | 0 <= i < |ms|
      ensures names[i] in Merged(files) && ms[i] == NativeModule(names[i], Merged(files)[names[i]])
    {
      assert names[i] == Names(ms)[i] == ms[i].name;
      AsMapLookup(ms, i);
    }
  }

  lemma AssignOneResolves(acc: seq<NativeModule>, e: NativeModule)
    requires ModulesResolve(acc) && SpecResolves(e.spec)
    ensures ModulesResolve(AssignOne(acc, e))
  {
  }

  lemma {:induction false} AssignResolves(acc: seq<NativeModule>, entries: seq<NativeModule>)
    requires ModulesResolve(acc) && ModulesResolve(entries)
    ensures ModulesResolve(Assign(acc, entries))
    decreases |entries|
  {
    if |entries| > 0 {
      var n := |entries| - 1;
      AssignResolves(acc, entries[..n]);
      AssignOneResolves(Assign(acc, entries[..n]), entries[n]);
    }
  }

  /** Flattening keeps every module's alias references resolvable. */
  lemma {:induction false} FlattenResolves(files: seq<SchemaFile>)
    ensures SchemaResolves(SchemaType(files)) ==> ModulesResolve(FlattenFiles(files))
    decreases |files|
  {
    if |files| > 0 && SchemaResolves(SchemaType(files)) {
      var n := |files| - 1;
      assert SchemaResolves(SchemaType(files[..n]));
      FlattenResolves(files[..n]);
      match files[n].nativeModules
      case None =>
      case Some(entries) => AssignResolves(FlattenFiles(files[..n]), entries);
    }
  }
}
