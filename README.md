# djinn, modelled in Dafny

djinn is a small Java dependency-injection framework in two halves.

- The **runtime** (`core`) does the following:
  - it builds a registry of *resources*: one instance per resource class, made through that class's public no-argument constructor;
  - it runs *annotation detectors* over the classpath's annotated methods, fields and types;
  - before handing a method to a detector, it binds every `@Inject` resource parameter from the registry;
  - it submits each module's *runtimes*;
  - it parses the build-time environment (`key=value` pairs) into a property map.
- The **compiler** (`compiler`) does two things:
  - it lints a classpath scan with five lints, which produce warnings and errors;
  - it emits the bytecode of a bootstrap `main` that hands three string arrays to `Hook.standardMain`: the modules, the resources and the build-time variables.

This project models both halves, plus the example project's `SingletonResource`, and proves what the code promises about them.

- Reflection, the classgraph scan and method handles become plain records. These live in modules `Reflect` and `ClassScan`.
- Parallel streams become one sequential order.
- The runtime's dispatch becomes a trace of events (`AppImpl.Trace`).
- The bootstrap method becomes the sequence of visitor calls it makes. A small JVM interpreter (`Bytecode.Run`) gives that sequence a meaning.

Each source file becomes a Dafny module:

| Dafny module | Models |
|---|---|
| `AppImpl` | AppImpl.java |
| `MethodInfos` | MethodInfo.java |
| `Djinn` | Djinn.java |
| `ResourceRegistry` | AppResourceRegistry.java |
| `BuildEnvironment` | BuildEnvironment.java and BuildEnvironmentImpl.java |
| one module per lint | the lint files |
| `Diagnostics` | the diagnostic emitter |
| `Compiler` | DjinnCompiler.java |
| `SingletonResources` | SingletonResource.java |

`JavaText` models the `String` operations the code relies on: `trim`, `split("=", 2)` and `String.join`.

Code that loops or mutates fields is modelled as Dafny methods and classes.

These methods are each proved equal to a specification function, and the lemmas are stated about that function:

- `resolveResources`;
- the detector group loop;
- the `MethodInfo` constructor;
- the registry constructor;
- the build-environment parser;
- the build-time-variable lint;
- `generateArray` and `generateBootstrapper`.

The emitter, `ModuleBuilder`, `SingletonResource` and ASM's `MethodVisitor` are small stateful classes with no specification function behind them. Their method contracts give the new state directly: what is appended or stored, and that nothing else changes.

Where the code and its prose documentation disagree, the model follows the code:

- **Key regex.** The build-time-variable key regex is `[a-zA-Z0-9_-]+(\.*[a-zA-Z0-9_-]+)*`. It allows runs of dots such as `a..b`, although it is described as "similar to Java qualifiers".
- **`FinalModuleLint` code.** It emits code 1, whereas the comment beside it in `DjinnCompiler.lint` says W0002.
- **Detector caches.** The caches live for one detector group only.
- **Duplicate build-time variables.** Duplicates are whole-string duplicates, so `a.b=1` and `a.b=2` are not reported.

## Model

| member | source | states |
|---|---|---|
| Reflect.AnnotationOf | core/src/main/java/bz/gsn/djinn/core/app/AppImpl.java:76-94 | finds an annotation of the detector's tag type among the element's annotations, or none iff there is none |
| Reflect.Unreflect | core/src/main/java/bz/gsn/djinn/core/app/AppImpl.java:143 | the unreflected handle takes the receiver first for instance methods, then the declared parameter types; nothing is bound yet |
| Reflect.UnreflectSlot | core/src/main/java/bz/gsn/djinn/core/app/AppImpl.java:143-144 | declared parameter k sits at handle position receiver + k |
| Reflect.InsertArgument | core/src/main/java/bz/gsn/djinn/core/app/AppImpl.java:157 | binding succeeds iff the position is inside the handle and the value's class is the slot type; it removes exactly that slot and records the binding |
| AppImpl.ResolveResources | core/src/main/java/bz/gsn/djinn/core/app/AppImpl.java:142-163 | the loop's result equals `Resolution`: start at index 0 for static and 1 for instance methods, advance once per declared parameter, bind and remove only injected resource parameters |
| AppImpl.ResolveFromShape | core/src/main/java/bz/gsn/djinn/core/app/AppImpl.java:145-161 | on success each injected parameter removes exactly one handle slot and adds one binding; earlier bindings and the return type are kept |
| AppImpl.ResolutionArity | core/src/main/java/bz/gsn/djinn/core/app/AppImpl.java:143-161 | a resolved handle has arity (declared parameters + receiver) − injected count and one binding per injected parameter |
| AppImpl.UnavailableNamesInjectedParameter | core/src/main/java/bz/gsn/djinn/core/app/AppImpl.java:147-153 | an injected parameter whose type is missing from the registry makes resolution fail with "unavailable"; any such failure names a missing type of some injected parameter |
| AppImpl.MissingResourceFails | core/src/main/java/bz/gsn/djinn/core/app/AppImpl.java:149-153 | if any injected parameter's type is not registered, no handle is produced |
| AppImpl.SkipUninjected | core/src/main/java/bz/gsn/djinn/core/app/AppImpl.java:145-160 | parameters that are not injected resources leave the handle untouched and only advance the index |
| AppImpl.NoInjectionKeepsHandle | core/src/main/java/bz/gsn/djinn/core/app/AppImpl.java:143-162 | a method with no injected parameter resolves to its unreflected handle unchanged |
| AppImpl.SingleInjectionBinds | core/src/main/java/bz/gsn/djinn/core/app/AppImpl.java:144-160 | one injected parameter at declared position k is bound at handle position receiver + k and removed from the parameter list |
| AppImpl.TwoInjectedParametersFail | core/src/main/java/bz/gsn/djinn/core/app/AppImpl.java:144-160 | as written, two injected parameters fail: the second insert uses the unadjusted position, which is past the end of the shortened handle |
| AppImpl.InstanceMethodWithOneResource | core/src/main/java/bz/gsn/djinn/core/app/AppImpl.java:144-157 | an instance method whose only parameter is an injected resource resolves to a handle taking just the receiver, bound to the registry's instance; its visible parameter list is empty |
| AppImpl.InjectedCount | core/src/main/java/bz/gsn/djinn/core/app/AppImpl.java:147-148 | the injected count is zero exactly when no parameter is an injected resource |
| AppImpl.ThenAssoc | core/src/main/java/bz/gsn/djinn/core/app/AppImpl.java:105-126 | sequencing traces is associative |
| AppImpl.ThenEmpty | core/src/main/java/bz/gsn/djinn/core/app/AppImpl.java:105-126 | the empty trace is a unit of sequencing |
| AppImpl.MethodStep | core/src/main/java/bz/gsn/djinn/core/app/AppImpl.java:68-81 | an untargeted kind does nothing; otherwise a method is handled once with its resolved handle and its annotation, or the step fails when resolution fails or the annotation is absent |
| AppImpl.FieldStep | core/src/main/java/bz/gsn/djinn/core/app/AppImpl.java:68-90 | an untargeted kind does nothing; otherwise the field is handled once, or the step fails when the annotation is absent |
| AppImpl.TypeStep | core/src/main/java/bz/gsn/djinn/core/app/AppImpl.java:68-98 | an untargeted kind does nothing; otherwise the type is handled once, or the step fails when the annotation is absent |
| AppImpl.HandleMethod | core/src/main/java/bz/gsn/djinn/core/app/AppImpl.java:72-81 | the method's trace equals `MethodStep` |
| AppImpl.RunMethodMatches | core/src/main/java/bz/gsn/djinn/core/app/AppImpl.java:108-113 | the loop over a tag's methods equals `MethodMatches` and stops at the first failure |
| AppImpl.RunFieldMatches | core/src/main/java/bz/gsn/djinn/core/app/AppImpl.java:114-119 | the loop over a tag's fields equals `FieldMatches` |
| AppImpl.RunTypeMatches | core/src/main/java/bz/gsn/djinn/core/app/AppImpl.java:120-125 | the loop over a tag's types equals `TypeMatches` |
| AppImpl.CachesExtend | core/src/main/java/bz/gsn/djinn/core/app/AppImpl.java:108-120 | filling the three caches for a tag with the classpath's answers keeps every cache entry equal to a fresh scan |
| AppImpl.RunDetector | core/src/main/java/bz/gsn/djinn/core/app/AppImpl.java:105-126 | one detector's trace is its scans (only for a tag not cached yet), then methods, then fields, then types; afterwards the caches hold the detector's tag and still agree with the classpath |
| AppImpl.RunPasses | core/src/main/java/bz/gsn/djinn/core/app/AppImpl.java:108-125 | given the detector's cached member lists, its trace is the method scan and matches, then the field scan and matches, then the type scan and matches, stopping at the first failure |
| AppImpl.RunGroup | core/src/main/java/bz/gsn/djinn/core/app/AppImpl.java:101-127 | a group starts with empty caches and runs its detectors in list order; the result equals `GroupTrace` |
| AppImpl.RunAnnotationDetectors | core/src/main/java/bz/gsn/djinn/core/app/AppImpl.java:57-128 | all groups run one after another, stopping at the first failure; the result equals `DetectionTrace` |
| AppImpl.RegisterRuntimes | core/src/main/java/bz/gsn/djinn/core/app/AppImpl.java:130-134 | each runtime of the module is submitted once, in order |
| AppImpl.Run | core/src/main/java/bz/gsn/djinn/core/app/AppImpl.java:45-50 | each module runs its detectors and then submits its runtimes; the result equals `AppTrace` |
| AppImpl.MethodMatchesSound | core/src/main/java/bz/gsn/djinn/core/app/AppImpl.java:108-113 | every method event handles a method of the scanned set with its resolved handle and annotation |
| AppImpl.MethodMatchesFail | core/src/main/java/bz/gsn/djinn/core/app/AppImpl.java:72-113 | the method pass fails exactly when one of its methods fails |
| AppImpl.MethodMatchesComplete | core/src/main/java/bz/gsn/djinn/core/app/AppImpl.java:108-113 | a successful method pass for a targeting tag handles every scanned method, once each, in scan order |
| AppImpl.FieldMatchesSound | core/src/main/java/bz/gsn/djinn/core/app/AppImpl.java:114-119 | every field event handles a scanned field with its annotation |
| AppImpl.FieldMatchesFail | core/src/main/java/bz/gsn/djinn/core/app/AppImpl.java:82-119 | the field pass fails exactly when one of its fields fails |
| AppImpl.FieldMatchesComplete | core/src/main/java/bz/gsn/djinn/core/app/AppImpl.java:114-119 | a successful field pass for a targeting tag handles every scanned field in order |
| AppImpl.TypeMatchesSound | core/src/main/java/bz/gsn/djinn/core/app/AppImpl.java:120-125 | every type event handles a scanned type with its annotation |
| AppImpl.TypeMatchesFail | core/src/main/java/bz/gsn/djinn/core/app/AppImpl.java:91-125 | the type pass fails exactly when one of its types fails |
| AppImpl.TypeMatchesComplete | core/src/main/java/bz/gsn/djinn/core/app/AppImpl.java:120-125 | a successful type pass for a targeting tag handles every scanned type in order |
| AppImpl.UntargetedMethodsSkipped | core/src/main/java/bz/gsn/djinn/core/app/AppImpl.java:68-73 | a tag that does not target methods produces no method events and no failure |
| AppImpl.ThenKeepsStageOrder | core/src/main/java/bz/gsn/djinn/core/app/AppImpl.java:105-126 | appending events of the current stage to a stage-ordered trace keeps it ordered |
| AppImpl.MatchStages | core/src/main/java/bz/gsn/djinn/core/app/AppImpl.java:108-125 | method, field and type passes emit only method, field and type events respectively |
| AppImpl.DetectorStageOrder | core/src/main/java/bz/gsn/djinn/core/app/AppImpl.java:108-125 | within one detector, all method events come before all field events, which come before all type events |
| AppImpl.ThenCount | core/src/main/java/bz/gsn/djinn/core/app/AppImpl.java:105-126 | sequencing never adds occurrences of an event |
| AppImpl.DetectorScans | core/src/main/java/bz/gsn/djinn/core/app/AppImpl.java:108-120 | a detector scans its tag at most once, and not at all when the tag is already cached |
| AppImpl.GroupScans | core/src/main/java/bz/gsn/djinn/core/app/AppImpl.java:102-126 | within a group, each scan of a tag happens at most once, and never for a tag cached before |
| AppImpl.ScannedAtMostOncePerGroup | core/src/main/java/bz/gsn/djinn/core/app/AppImpl.java:102-126 | each method, field or type scan of a tag runs at most once per group |
| AppImpl.GroupStartsWithScan | core/src/main/java/bz/gsn/djinn/core/app/AppImpl.java:102-108 | the scanner does run: a group's first event is the method scan of its first detector's annotation type, because the caches start empty |
| AppImpl.DetectorScansExact | core/src/main/java/bz/gsn/djinn/core/app/AppImpl.java:108-120 | a detector that completes scans its tag exactly once per kind when the tag is not cached, and not at all otherwise |
| AppImpl.GroupScansExact | core/src/main/java/bz/gsn/djinn/core/app/AppImpl.java:102-126 | a group that completes scans each of its detectors' tags exactly once per kind, except tags cached before |
| AppImpl.DetectionScans | core/src/main/java/bz/gsn/djinn/core/app/AppImpl.java:100-127 | the caches belong to one group: a detection pass that completes scans a tag once per kind in every group with a detector for it |
| AppImpl.GroupRepeatedRescans | core/src/main/java/bz/gsn/djinn/core/app/AppImpl.java:100-127 | a failure-free group registered twice scans its first tag twice, once per group |
| AppImpl.ThenStageBound | core/src/main/java/bz/gsn/djinn/core/app/AppImpl.java:105-126 | a stage bound holding for both traces holds for their sequence |
| AppImpl.GroupSubmitsNothing | core/src/main/java/bz/gsn/djinn/core/app/AppImpl.java:101-127 | a group's trace holds only scan and handling events |
| AppImpl.DetectionSubmitsNothing | core/src/main/java/bz/gsn/djinn/core/app/AppImpl.java:57-128 | the detector pass submits no runtime |
| AppImpl.SubmissionCount | core/src/main/java/bz/gsn/djinn/core/app/AppImpl.java:130-134 | each runtime is submitted as many times as it occurs in the module's list |
| AppImpl.ModuleSubmitsAfterDetection | core/src/main/java/bz/gsn/djinn/core/app/AppImpl.java:46-49 | a module's detector events come before its runtime submissions; runtimes are submitted only when detection succeeded, once per occurrence |
| AppImpl.RunSubmitsEveryRuntime | core/src/main/java/bz/gsn/djinn/core/app/AppImpl.java:45-50 | when the run succeeds, every runtime of every module is submitted |
| MethodInfos.KeptIndices | core/src/main/java/bz/gsn/djinn/core/module/MethodInfo.java:53-61 | every kept index lies in the scanned range |
| MethodInfos.KeptIndicesSpec | core/src/main/java/bz/gsn/djinn/core/module/MethodInfo.java:53-61 | kept indices are strictly increasing, and index i is kept iff it is in range and declared type i equals handle type i |
| MethodInfos.Project | core/src/main/java/bz/gsn/djinn/core/module/MethodInfo.java:56-62 | projecting keeps one parameter per index |
| MethodInfos.VisibleParametersSpec | core/src/main/java/bz/gsn/djinn/core/module/MethodInfo.java:44-63 | the visible parameters are an order-preserving subsequence of the declared ones: exactly those whose type matches the handle at the same index, scanning from the receiver offset until either list ends |
| MethodInfos.IncreasingBounded | core/src/main/java/bz/gsn/djinn/core/module/MethodInfo.java:53-59 | a strictly increasing index list within a range is no longer than the range, so there are at most min(declared, handle) visible parameters |
| MethodInfos.InstanceMethodHidesFirstParameter | core/src/main/java/bz/gsn/djinn/core/module/MethodInfo.java:47-49 | for an instance method, declared parameter 0 is never visible |
| MethodInfos.StaticUnboundKeepsAll | core/src/main/java/bz/gsn/djinn/core/module/MethodInfo.java:46-57 | a static method whose handle types equal its declared types shows all its parameters |
| MethodInfos.AllKept | core/src/main/java/bz/gsn/djinn/core/module/MethodInfo.java:53-57 | when all types match, every index of the range is kept |
| MethodInfos.MethodInfo.constructor | core/src/main/java/bz/gsn/djinn/core/module/MethodInfo.java:35-64 | stores name, modifiers, class, thrown types, annotations and the handle's return type; the parameter array holds exactly the visible parameters |
| MethodInfos.MethodInfo.GetParameters | core/src/main/java/bz/gsn/djinn/core/module/MethodInfo.java:123-125 | returns a fresh copy of the parameters |
| MethodInfos.MethodInfo.GetThrown | core/src/main/java/bz/gsn/djinn/core/module/MethodInfo.java:95-97 | returns a fresh copy of the thrown types |
| MethodInfos.MethodInfo.GetAnnotations | core/src/main/java/bz/gsn/djinn/core/module/MethodInfo.java:131-133 | returns the stored annotation array itself, not a copy |
| MethodInfos.MethodInfo.IsInstanceMethod | core/src/main/java/bz/gsn/djinn/core/module/MethodInfo.java:143-145 | true iff the static modifier bit is clear |
| Djinn.FlattenContains | core/src/main/java/bz/gsn/djinn/core/Djinn.java:101 | every detector of every group is registered |
| Djinn.FlattenFrom | core/src/main/java/bz/gsn/djinn/core/Djinn.java:101 | every registered detector comes from some group |
| Djinn.RegistrationsSpec | core/src/main/java/bz/gsn/djinn/core/Djinn.java:98-102 | the built module first receives all runtimes at once, then only single detectors: exactly those of the registered groups |
| Djinn.ModuleBuilder.constructor | core/src/main/java/bz/gsn/djinn/core/Djinn.java:46-50 | a fresh builder has no groups, no runtimes and is not consumed |
| Djinn.ModuleBuilder.IsConsumed | core/src/main/java/bz/gsn/djinn/core/Djinn.java:56-58 | reports the consumed flag |
| Djinn.ModuleBuilder.RegisterDetectors | core/src/main/java/bz/gsn/djinn/core/Djinn.java:69-109 | when consumed, fails and changes nothing; otherwise adds the list as one group to the group set and returns the same builder |
| Djinn.ModuleBuilder.RegisterRuntimes | core/src/main/java/bz/gsn/djinn/core/Djinn.java:82-109 | when consumed, fails and changes nothing; otherwise adds every runtime to the runtime set and returns the same builder |
| Djinn.ModuleBuilder.Build | core/src/main/java/bz/gsn/djinn/core/Djinn.java:95-105 | when consumed, fails and changes nothing; otherwise marks the builder consumed and yields registrations for all runtimes, then every detector of every group, in some order |
| ResourceRegistry.Instantiate | core/src/main/java/bz/gsn/djinn/core/app/AppResourceRegistry.java:31-40 | a class is instantiated iff its no-argument constructor exists, is public and does not throw; the instance's class is the class |
| ResourceRegistry.InstancesSpec | core/src/main/java/bz/gsn/djinn/core/app/AppResourceRegistry.java:29-41 | all classes are instantiated iff each has a usable public no-argument constructor, once each, in order |
| ResourceRegistry.FirstFailureReported | core/src/main/java/bz/gsn/djinn/core/app/AppResourceRegistry.java:33-38 | the first class without a usable constructor decides the error (missing versus not public) |
| ResourceRegistry.FailurePropagates | core/src/main/java/bz/gsn/djinn/core/app/AppResourceRegistry.java:29-41 | one failing class makes the whole construction fail with that error |
| ResourceRegistry.EntriesSpec | core/src/main/java/bz/gsn/djinn/core/app/AppResourceRegistry.java:42-45 | every entry is keyed by its instance's exact class, and the keys are exactly the instances' classes |
| ResourceRegistry.RegistrySpec | core/src/main/java/bz/gsn/djinn/core/app/AppResourceRegistry.java:28-46 | a built registry's keys are exactly the input classes, each mapped to an instance of itself |
| ResourceRegistry.AppResourceRegistry.FromEntries | core/src/main/java/bz/gsn/djinn/core/app/AppResourceRegistry.java:21 | the entry map is set once and is constant afterwards |
| ResourceRegistry.AppResourceRegistry.Create | core/src/main/java/bz/gsn/djinn/core/app/AppResourceRegistry.java:28-46 | the two loops succeed iff `Registry` does and store exactly its map, or return its error |
| ResourceRegistry.AppResourceRegistry.GetResource | core/src/main/java/bz/gsn/djinn/core/app/AppResourceRegistry.java:56-58 | present iff the class is exactly a key, and then the stored instance |
| BuildEnvironment.Pairing | core/src/main/java/bz/gsn/djinn/core/app/BuildEnvironmentImpl.java:27-28 | a pair without `=` has no key/value split |
| BuildEnvironment.Pairings | core/src/main/java/bz/gsn/djinn/core/app/BuildEnvironmentImpl.java:26-28 | one split per input pair, in order |
| BuildEnvironment.NewBuildEnvironment | core/src/main/java/bz/gsn/djinn/core/app/BuildEnvironmentImpl.java:24-31 | the put loop succeeds iff `Parse` does, and builds exactly its map or reports its error |
| BuildEnvironment.PutAllFails | core/src/main/java/bz/gsn/djinn/core/app/BuildEnvironmentImpl.java:26-28 | the loop fails iff some pair has no `=`, reporting the first such position |
| BuildEnvironment.LastIndexOf | core/src/main/java/bz/gsn/djinn/core/app/BuildEnvironmentImpl.java:26-28 | finds the last pair with a given key, or none |
| BuildEnvironment.PutAllContents | core/src/main/java/bz/gsn/djinn/core/app/BuildEnvironmentImpl.java:25-29 | keys are the earlier keys plus the pairs' keys, and the last pair with a key decides its value |
| BuildEnvironment.ParseFails | core/src/main/java/bz/gsn/djinn/core/app/BuildEnvironmentImpl.java:27-28 | parsing fails iff some pairing lacks `=`, at the first such position |
| BuildEnvironment.ParseKeys | core/src/main/java/bz/gsn/djinn/core/app/BuildEnvironmentImpl.java:25-30 | the map's keys are exactly the trimmed text before each pairing's first `=` |
| BuildEnvironment.ParseLastWins | core/src/main/java/bz/gsn/djinn/core/app/BuildEnvironmentImpl.java:26-28 | for a repeated key, the value of the last pairing with it wins, trimmed |
| BuildEnvironment.EmptyValueKept | core/src/main/java/bz/gsn/djinn/core/app/BuildEnvironmentImpl.java:27-28 | `"k="` yields key `k` with the empty value |
| BuildEnvironment.DottedKey | core/src/main/java/bz/gsn/djinn/core/app/BuildEnvironmentImpl.java:27-28 | `"a.b=1"` yields `{a.b: 1}` |
| BuildEnvironment.PairingSplitsOnFirst | core/src/main/java/bz/gsn/djinn/core/app/BuildEnvironmentImpl.java:27-28 | the split is at the first `=`; the value may contain further `=`; both sides are trimmed |
| BuildEnvironment.BuildEnvironmentImpl.GetProperties | core/src/main/java/bz/gsn/djinn/core/app/BuildEnvironmentImpl.java:34-36 | returns the parsed, immutable map |
| BuildEnvironment.BuildEnvironmentImpl.GetProperty | core/src/main/java/bz/gsn/djinn/core/build/BuildEnvironment.java:45-47 | absent (null) iff the key is not a property, else the property's value |
| BuildEnvironment.GetBuildEnvironment | core/src/main/java/bz/gsn/djinn/core/build/BuildEnvironment.java:25-27 | fails (`requireNonNull`) iff no environment was stored, else returns it |
| JavaText.StartIndexSpec | core/src/main/java/bz/gsn/djinn/core/app/BuildEnvironmentImpl.java:28 | `trim` skips exactly the leading chars up to U+0020 |
| JavaText.EndIndexSpec | core/src/main/java/bz/gsn/djinn/core/app/BuildEnvironmentImpl.java:28 | `trim` drops exactly the trailing chars up to U+0020 |
| JavaText.TrimSpec | core/src/main/java/bz/gsn/djinn/core/app/BuildEnvironmentImpl.java:28 | the trimmed string is a slice with only trimmable chars cut off both ends, and it neither starts nor ends with one |
| JavaText.IndexOf | core/src/main/java/bz/gsn/djinn/core/app/BuildEnvironmentImpl.java:27 | finds the first occurrence of a char, or none iff absent |
| JavaText.SplitOnFirstEquals | core/src/main/java/bz/gsn/djinn/core/app/BuildEnvironmentImpl.java:27 | `split("=", 2)` gives one part iff there is no `=`; otherwise two parts rejoined by `=` into the input, the first without `=` |
| JavaText.SplitAtFirstEquals | compiler/src/main/java/bz/gsn/djinn/compiler/lint/BuildTimeVariableLint.java:25 | splitting `key=value` with no `=` in the key gives back exactly key and value |
| BuildTimeVariableLint.RejectedStays | compiler/src/main/java/bz/gsn/djinn/compiler/lint/BuildTimeVariableLint.java:29 | the key matcher never recovers from a rejecting char |
| BuildTimeVariableLint.AcceptedAfterWord | compiler/src/main/java/bz/gsn/djinn/compiler/lint/BuildTimeVariableLint.java:29 | after a word char, the rest matches iff it uses only key chars and does not end in a dot |
| BuildTimeVariableLint.KeyMatchesIff | compiler/src/main/java/bz/gsn/djinn/compiler/lint/BuildTimeVariableLint.java:29 | the key regex matches iff the key is non-empty, uses only `[A-Za-z0-9_.-]`, and does not start or end with `.` |
| BuildTimeVariableLint.KeyExamplesAccepted | compiler/src/main/java/bz/gsn/djinn/compiler/lint/BuildTimeVariableLint.java:29 | `a..b`, `-0` and `bz.gsn_dj` match |
| BuildTimeVariableLint.KeyExamplesRejected | compiler/src/main/java/bz/gsn/djinn/compiler/lint/BuildTimeVariableLint.java:29 | the empty key, `.a`, `a.` and `" a"` do not match |
| BuildTimeVariableLint.EntryDiagnostics | compiler/src/main/java/bz/gsn/djinn/compiler/lint/BuildTimeVariableLint.java:25-37 | each entry gets at most one error, none iff well formed: code 2 iff there is no `=`, otherwise code 3 for a bad key; the location is the quoted trimmed entry |
| BuildTimeVariableLint.FormDiagnostics | compiler/src/main/java/bz/gsn/djinn/compiler/lint/BuildTimeVariableLint.java:24-38 | the form pass emits at most one error per entry, each code 2 or 3 |
| BuildTimeVariableLint.AnyWellFormedIff | compiler/src/main/java/bz/gsn/djinn/compiler/lint/BuildTimeVariableLint.java:23-36 | the `errored` flag is cleared iff some entry is well formed |
| BuildTimeVariableLint.Duplicates | compiler/src/main/java/bz/gsn/djinn/compiler/lint/BuildTimeVariableLint.java:40 | there are no more duplicates than entries |
| BuildTimeVariableLint.DuplicatesCount | compiler/src/main/java/bz/gsn/djinn/compiler/lint/BuildTimeVariableLint.java:40 | an entry occurring n times yields n − 1 duplicates (whole-string comparison) |
| BuildTimeVariableLint.DuplicateError | compiler/src/main/java/bz/gsn/djinn/compiler/lint/BuildTimeVariableLint.java:42 | code-4 error with message "Duplicate key " + the text before `=`, at the quoted trimmed entry |
| BuildTimeVariableLint.DuplicateErrors | compiler/src/main/java/bz/gsn/djinn/compiler/lint/BuildTimeVariableLint.java:40-43 | one code-4 error per duplicate, in order |
| BuildTimeVariableLint.Lint | compiler/src/main/java/bz/gsn/djinn/compiler/lint/BuildTimeVariableLint.java:21-45 | the lint emits only errors |
| BuildTimeVariableLint.AllWellFormedIff | compiler/src/main/java/bz/gsn/djinn/compiler/lint/BuildTimeVariableLint.java:24-38 | all entries are well formed iff each one is |
| BuildTimeVariableLint.NoFormDiagnosticsRec | compiler/src/main/java/bz/gsn/djinn/compiler/lint/BuildTimeVariableLint.java:24-38 | the form pass is silent iff every entry is well formed |
| BuildTimeVariableLint.NoFormDiagnostics | compiler/src/main/java/bz/gsn/djinn/compiler/lint/BuildTimeVariableLint.java:24-38 | the form pass emits nothing iff every entry is well formed |
| BuildTimeVariableLint.MalformedCount | compiler/src/main/java/bz/gsn/djinn/compiler/lint/BuildTimeVariableLint.java:27-34 | when no entry is well formed, every entry gets exactly one error |
| BuildTimeVariableLint.AllMalformed | compiler/src/main/java/bz/gsn/djinn/compiler/lint/BuildTimeVariableLint.java:23-39 | when no entry is well formed, there is one error per entry and duplicate detection is skipped |
| BuildTimeVariableLint.WellFormedEntry | compiler/src/main/java/bz/gsn/djinn/compiler/lint/BuildTimeVariableLint.java:25-35 | `key=value` is well formed iff the untrimmed key matches the regex |
| BuildTimeVariableLint.DuplicateKeyMessage | compiler/src/main/java/bz/gsn/djinn/compiler/lint/BuildTimeVariableLint.java:42 | a duplicate `key=value` is reported as "Duplicate key key" |
| BuildTimeVariableLint.DottedEntries | compiler/src/main/java/bz/gsn/djinn/compiler/lint/BuildTimeVariableLint.java:29 | `a.b=1` and `a.b=2` are two different well-formed entries with the same key `a.b` |
| BuildTimeVariableLint.ShortEntries | compiler/src/main/java/bz/gsn/djinn/compiler/lint/BuildTimeVariableLint.java:25-29 | `x=1` and `a=1` are well formed, and the key of `x=1` is `x` |
| BuildTimeVariableLint.DistinctValuesAccepted | compiler/src/main/java/bz/gsn/djinn/compiler/lint/BuildTimeVariableLint.java:40 | any two different well-formed entries (such as `a.b=1`, `a.b=2`) draw no diagnostic: only whole entries are compared |
| BuildTimeVariableLint.RepeatedEntryReported | compiler/src/main/java/bz/gsn/djinn/compiler/lint/BuildTimeVariableLint.java:40-43 | a well-formed entry given twice draws exactly one duplicate error |
| BuildTimeVariableLint.MalformedDuplicatesIgnored | compiler/src/main/java/bz/gsn/djinn/compiler/lint/BuildTimeVariableLint.java:23-39 | an entry without `=` given twice draws two code-2 errors and no duplicate error |
| BuildTimeVariableLint.MalformedDuplicateReported | compiler/src/main/java/bz/gsn/djinn/compiler/lint/BuildTimeVariableLint.java:39-43 | one well-formed entry enables duplicate detection, which also reports malformed repeats: `k, k, e` ends with "Duplicate key k" |
| BuildTimeVariableLint.MixedForm | compiler/src/main/java/bz/gsn/djinn/compiler/lint/BuildTimeVariableLint.java:24-38 | `k, k, e` (no `=` in `k`, `e` well formed) has two form errors and one well-formed entry |
| BuildTimeVariableLint.MixedDuplicates | compiler/src/main/java/bz/gsn/djinn/compiler/lint/BuildTimeVariableLint.java:40-42 | the duplicates of `k, k, e` (no `=` in `k`, a `=` in `e`) are exactly `[k]` |
| BuildTimeVariableLint.CheckEntry | compiler/src/main/java/bz/gsn/djinn/compiler/lint/BuildTimeVariableLint.java:25-37 | the loop body emits exactly the entry's form errors and reports whether it is well formed |
| BuildTimeVariableLint.FindDuplicates | compiler/src/main/java/bz/gsn/djinn/compiler/lint/BuildTimeVariableLint.java:22-40 | the `HashSet.add` filter returns exactly `Duplicates` |
| BuildTimeVariableLint.ReportDuplicate | compiler/src/main/java/bz/gsn/djinn/compiler/lint/BuildTimeVariableLint.java:42 | appends exactly one duplicate error |
| BuildTimeVariableLint.CheckEntries | compiler/src/main/java/bz/gsn/djinn/compiler/lint/BuildTimeVariableLint.java:23-38 | the first loop emits exactly `FormDiagnostics`; `errored` stays true iff no entry is well formed |
| BuildTimeVariableLint.FormStep | compiler/src/main/java/bz/gsn/djinn/compiler/lint/BuildTimeVariableLint.java:24-38 | the form pass extends entry by entry |
| BuildTimeVariableLint.WellFormedStep | compiler/src/main/java/bz/gsn/djinn/compiler/lint/BuildTimeVariableLint.java:35-36 | the `errored` flag updates entry by entry |
| BuildTimeVariableLint.ReportDuplicates | compiler/src/main/java/bz/gsn/djinn/compiler/lint/BuildTimeVariableLint.java:40-43 | the second loop appends exactly the duplicate errors |
| BuildTimeVariableLint.RunLint | compiler/src/main/java/bz/gsn/djinn/compiler/lint/BuildTimeVariableLint.java:21-45 | the emitter gains exactly `Lint(btv)`: form errors, then duplicate errors only if some entry was well formed |
| ResourceConstructorLint.UnusableNotes | compiler/src/main/java/bz/gsn/djinn/compiler/lint/ResourceConstructorLint.java:29-40 | at most one note per constructor |
| ResourceConstructorLint.Notes | compiler/src/main/java/bz/gsn/djinn/compiler/lint/ResourceConstructorLint.java:28 | notes start with the fixed note and "Try creating public " + simple name + "() { ... }" |
| ResourceConstructorLint.ErrorFor | compiler/src/main/java/bz/gsn/djinn/compiler/lint/ResourceConstructorLint.java:41-46 | level error, code 1, fixed message, location "class " + name |
| ResourceConstructorLint.Errors | compiler/src/main/java/bz/gsn/djinn/compiler/lint/ResourceConstructorLint.java:19-47 | at most one error per class, each level error and code 1 |
| ResourceConstructorLint.Lint | compiler/src/main/java/bz/gsn/djinn/compiler/lint/ResourceConstructorLint.java:17-48 | no more errors than scanned classes, each level error and code 1 |
| ResourceConstructorLint.BuildNotes | compiler/src/main/java/bz/gsn/djinn/compiler/lint/ResourceConstructorLint.java:28-40 | the `forEach` over constructors builds exactly `Notes` |
| ResourceConstructorLint.ReportClass | compiler/src/main/java/bz/gsn/djinn/compiler/lint/ResourceConstructorLint.java:21-46 | emits the class's error iff it has no public no-argument constructor |
| ResourceConstructorLint.RunLint | compiler/src/main/java/bz/gsn/djinn/compiler/lint/ResourceConstructorLint.java:18-48 | the emitter gains exactly `Lint(scan)` |
| ResourceConstructorLint.ErrorsStep | compiler/src/main/java/bz/gsn/djinn/compiler/lint/ResourceConstructorLint.java:19-27 | the error list extends class by class |
| ResourceConstructorLint.ErrorsMembers | compiler/src/main/java/bz/gsn/djinn/compiler/lint/ResourceConstructorLint.java:19-27 | an error is in the list iff it is the error of a flagged class |
| ResourceConstructorLint.LintSound | compiler/src/main/java/bz/gsn/djinn/compiler/lint/ResourceConstructorLint.java:19-27 | every error belongs to a flagged Resource subclass of the scan |
| ResourceConstructorLint.LintIff | compiler/src/main/java/bz/gsn/djinn/compiler/lint/ResourceConstructorLint.java:19-26 | a Resource subclass, direct or not, is reported iff none of its constructors is public with no parameters |
| ResourceConstructorLint.AllUnusable | compiler/src/main/java/bz/gsn/djinn/compiler/lint/ResourceConstructorLint.java:29-31 | when no constructor qualifies, there is one note per constructor, in declaration order |
| ResourceConstructorLint.FlaggedNotes | compiler/src/main/java/bz/gsn/djinn/compiler/lint/ResourceConstructorLint.java:28-40 | a reported class has 2 + (number of constructors) notes, each extra one describing its constructor |
| ResourceConstructorLint.NoConstructorsReported | compiler/src/main/java/bz/gsn/djinn/compiler/lint/ResourceConstructorLint.java:21-28 | a class with no declared constructors is reported, with just the two fixed notes |
| ResourceConstructorLint.CtorNoteExamples | compiler/src/main/java/bz/gsn/djinn/compiler/lint/ResourceConstructorLint.java:32-38 | a note is modifiers + " " + simple name + "(" + the parameters joined by ", " + ") cannot be used…" |
| AFResourceLint.WarningFor | compiler/src/main/java/bz/gsn/djinn/compiler/lint/AFResourceLint.java:21-29 | warning, code 1, fixed message, "class " + name, two notes, the second naming the simple name |
| AFResourceLint.Warnings | compiler/src/main/java/bz/gsn/djinn/compiler/lint/AFResourceLint.java:18-29 | at most one warning per class, all of that shape |
| AFResourceLint.Lint | compiler/src/main/java/bz/gsn/djinn/compiler/lint/AFResourceLint.java:16-30 | no errors, at most one warning per scanned class |
| AFResourceLint.WarningsMembers | compiler/src/main/java/bz/gsn/djinn/compiler/lint/AFResourceLint.java:19-21 | a warning is emitted iff it belongs to a flagged class |
| AFResourceLint.LintSound | compiler/src/main/java/bz/gsn/djinn/compiler/lint/AFResourceLint.java:17-21 | every warning belongs to a flagged Resource subclass |
| AFResourceLint.LintIff | compiler/src/main/java/bz/gsn/djinn/compiler/lint/AFResourceLint.java:17-20 | a Resource subclass is warned about iff it is not anonymous and neither final nor abstract |
| FinalModuleLint.WarningFor | compiler/src/main/java/bz/gsn/djinn/compiler/lint/FinalModuleLint.java:19-27 | warning, code 1, fixed message, "class " + name, two notes, the second naming the simple name |
| FinalModuleLint.Warnings | compiler/src/main/java/bz/gsn/djinn/compiler/lint/FinalModuleLint.java:17-27 | at most one warning per class, all of that shape |
| FinalModuleLint.Lint | compiler/src/main/java/bz/gsn/djinn/compiler/lint/FinalModuleLint.java:15-28 | no errors, at most one warning per scanned class |
| FinalModuleLint.WarningsMembers | compiler/src/main/java/bz/gsn/djinn/compiler/lint/FinalModuleLint.java:18-19 | a warning is emitted iff it belongs to a flagged class |
| FinalModuleLint.LintSound | compiler/src/main/java/bz/gsn/djinn/compiler/lint/FinalModuleLint.java:16-19 | every warning belongs to a non-final DjinnModule subclass |
| FinalModuleLint.LintIff | compiler/src/main/java/bz/gsn/djinn/compiler/lint/FinalModuleLint.java:16-18 | a DjinnModule subclass, anonymous ones included, is warned about iff it is not final |
| FinalResourceLint.WarningFor | compiler/src/main/java/bz/gsn/djinn/compiler/lint/FinalResourceLint.java:19-27 | warning, code 1, fixed message, "class " + name, two notes, the second naming the simple name |
| FinalResourceLint.Warnings | compiler/src/main/java/bz/gsn/djinn/compiler/lint/FinalResourceLint.java:17-27 | at most one warning per class, all of that shape |
| FinalResourceLint.Lint | compiler/src/main/java/bz/gsn/djinn/compiler/lint/FinalResourceLint.java:15-28 | no errors, at most one warning per scanned class |
| FinalResourceLint.WarningsMembers | compiler/src/main/java/bz/gsn/djinn/compiler/lint/FinalResourceLint.java:18-19 | a warning is emitted iff it belongs to a flagged class |
| FinalResourceLint.LintSound | compiler/src/main/java/bz/gsn/djinn/compiler/lint/FinalResourceLint.java:16-19 | every warning belongs to a non-final Resource subclass |
| FinalResourceLint.LintIff | compiler/src/main/java/bz/gsn/djinn/compiler/lint/FinalResourceLint.java:16-18 | a Resource subclass, abstract and anonymous ones included, is warned about iff it is not final |
| AnonymousResourceLint.WarningFor | compiler/src/main/java/bz/gsn/djinn/compiler/lint/AnonymousResourceLint.java:20-27 | warning, code 3, fixed message, "class " + name, exactly one note |
| AnonymousResourceLint.Warnings | compiler/src/main/java/bz/gsn/djinn/compiler/lint/AnonymousResourceLint.java:18-27 | at most one warning per class, all of that shape |
| AnonymousResourceLint.Lint | compiler/src/main/java/bz/gsn/djinn/compiler/lint/AnonymousResourceLint.java:16-28 | no errors, at most one warning per scanned class |
| AnonymousResourceLint.WarningsMembers | compiler/src/main/java/bz/gsn/djinn/compiler/lint/AnonymousResourceLint.java:19-20 | a warning is emitted iff it belongs to a flagged class |
| AnonymousResourceLint.LintSound | compiler/src/main/java/bz/gsn/djinn/compiler/lint/AnonymousResourceLint.java:17-20 | every warning belongs to an anonymous Resource subclass |
| AnonymousResourceLint.LintIff | compiler/src/main/java/bz/gsn/djinn/compiler/lint/AnonymousResourceLint.java:17-19 | a Resource subclass is warned about iff it is anonymous |
| ClassScan.Subclasses | compiler/src/main/java/bz/gsn/djinn/compiler/lint/AFResourceLint.java:17 | `getSubclasses` returns exactly the scanned classes having the base among their ancestors |
| ClassScan.SubclassesMember | compiler/src/main/java/bz/gsn/djinn/compiler/lint/AFResourceLint.java:17 | membership in the subclass list is exactly "scanned and has the base as an ancestor" |
| ClassScan.ClassLocationInjective | compiler/src/main/java/bz/gsn/djinn/compiler/lint/AFResourceLint.java:24 | distinct class names give distinct `"class " + name` locations |
| ClassScan.SameNameSameClass | compiler/src/main/java/bz/gsn/djinn/compiler/lint/AFResourceLint.java:24 | within a scan, a class name identifies one class |
| Diagnostics.DCDiagnosticEmitter.constructor | compiler/src/main/java/bz/gsn/djinn/compiler/DjinnCompiler.java:219 | a new emitter holds no diagnostics |
| Diagnostics.DCDiagnosticEmitter.EmitWarning | compiler/src/main/java/bz/gsn/djinn/compiler/DjinnCompiler.java:223-226 | appends exactly one warning record with the given code, message, location and notes, keeping earlier records |
| Diagnostics.DCDiagnosticEmitter.EmitError | compiler/src/main/java/bz/gsn/djinn/compiler/DjinnCompiler.java:228-231 | appends exactly one error record, keeping earlier records |
| Diagnostics.DCDiagnosticEmitter.EmitAll | compiler/src/main/java/bz/gsn/djinn/compiler/DjinnCompiler.java:213 | appending a lint's diagnostics in order |
| Bytecode.MethodVisitor.constructor | compiler/src/main/java/bz/gsn/djinn/compiler/DjinnCompiler.java:104 | a new method visitor has recorded no calls |
| Bytecode.MethodVisitor.Visit | compiler/src/main/java/bz/gsn/djinn/compiler/DjinnCompiler.java:105-115 | each visitor call is appended to the recorded trace |
| Bytecode.SignedByte | compiler/src/main/java/bz/gsn/djinn/compiler/DjinnCompiler.java:189-194 | a `BIPUSH` operand is read as a signed byte congruent to the value modulo 256 |
| Bytecode.SignedByteExamples | compiler/src/main/java/bz/gsn/djinn/compiler/DjinnCompiler.java:189-194 | 0..127 are pushed unchanged; 128 becomes −128 and 255 becomes −1 |
| Bytecode.SignedByteWraps | compiler/src/main/java/bz/gsn/djinn/compiler/DjinnCompiler.java:189 | a size from 128 to 255 is pushed as a negative number |
| Bytecode.Step | compiler/src/main/java/bz/gsn/djinn/compiler/DjinnCompiler.java:189-196 | executing an instruction never shrinks the heap or the call log |
| Bytecode.RunAppend | compiler/src/main/java/bz/gsn/djinn/compiler/DjinnCompiler.java:105-115 | running two visit sequences one after the other is running their concatenation |
| Compiler.StandardMainDescriptor | compiler/src/main/java/bz/gsn/djinn/compiler/DjinnCompiler.java:112 | the `standardMain` descriptor is `([Ljava/lang/String;[Ljava/lang/String;[Ljava/lang/String;)V` |
| Compiler.FillVisits | compiler/src/main/java/bz/gsn/djinn/compiler/DjinnCompiler.java:192-197 | the loop emits four instructions per element |
| Compiler.GenerateArray | compiler/src/main/java/bz/gsn/djinn/compiler/DjinnCompiler.java:188-198 | appends `BIPUSH n`, `ANEWARRAY String`, `ASTORE slot`, then ALOAD/BIPUSH i/LDC s[i]/AASTORE for each i in order |
| Compiler.LdcConstantsAppend | compiler/src/main/java/bz/gsn/djinn/compiler/DjinnCompiler.java:195 | the LDC constants of a concatenation are the concatenated constants |
| Compiler.ElementConstants | compiler/src/main/java/bz/gsn/djinn/compiler/DjinnCompiler.java:193-196 | element i loads exactly the constant s[i] |
| Compiler.FillConstants | compiler/src/main/java/bz/gsn/djinn/compiler/DjinnCompiler.java:192-197 | the loop loads the strings in order |
| Compiler.ArrayVisitsSpec | compiler/src/main/java/bz/gsn/djinn/compiler/DjinnCompiler.java:188-198 | an array costs 3 + 4n instructions whose LDC constants are exactly the strings |
| Compiler.StringArray | compiler/src/main/java/bz/gsn/djinn/compiler/DjinnCompiler.java:190-196 | the finished array holds each string at its index |
| Compiler.PartlyFilled | compiler/src/main/java/bz/gsn/djinn/compiler/DjinnCompiler.java:192-197 | after i steps, the first i slots hold strings and the rest null |
| Compiler.ElementRun | compiler/src/main/java/bz/gsn/djinn/compiler/DjinnCompiler.java:193-196 | executing one element's four instructions stores s[i] at index i of the array in the slot |
| Compiler.FillRun | compiler/src/main/java/bz/gsn/djinn/compiler/DjinnCompiler.java:192-197 | executing the loop fills the new array with the strings |
| Compiler.HeaderRun | compiler/src/main/java/bz/gsn/djinn/compiler/DjinnCompiler.java:189-191 | the header allocates an array of as many nulls as `BIPUSH` leaves of the count (the count itself up to 127) and stores its reference in the slot |
| Compiler.ArrayRun | compiler/src/main/java/bz/gsn/djinn/compiler/DjinnCompiler.java:188-198 | for at most 127 strings, the emitted code leaves a new heap array holding exactly the strings, referenced from the slot |
| Compiler.ArrayOverflow | compiler/src/main/java/bz/gsn/djinn/compiler/DjinnCompiler.java:189 | as written, 128 to 255 strings make `BIPUSH` push a negative size, so `ANEWARRAY` throws `NegativeArraySizeException` |
| Compiler.NegativeCountRun | compiler/src/main/java/bz/gsn/djinn/compiler/DjinnCompiler.java:189-190 | as written, whenever `BIPUSH` wraps the count to a negative value, `ANEWARRAY` throws `NegativeArraySizeException` with that value |
| Compiler.ElementOutOfRange | compiler/src/main/java/bz/gsn/djinn/compiler/DjinnCompiler.java:193-197 | an element store at an index past the end of the array throws `ArrayIndexOutOfBoundsException` |
| Compiler.FillPastEnd | compiler/src/main/java/bz/gsn/djinn/compiler/DjinnCompiler.java:192-197 | into an array of c nulls, the stores for indices 0..c fill it and then throw `ArrayIndexOutOfBoundsException(c)` |
| Compiler.IndexOverflow | compiler/src/main/java/bz/gsn/djinn/compiler/DjinnCompiler.java:189-197 | as written, from 256 strings on a count that wraps to a size c ≥ 0 allocates c elements, and the store at index c throws `ArrayIndexOutOfBoundsException(c)` |
| Compiler.ArraySucceedsIff | compiler/src/main/java/bz/gsn/djinn/compiler/DjinnCompiler.java:188-198 | the generated array code runs without an exception exactly when there are at most 127 strings |
| Compiler.InvokeRun | compiler/src/main/java/bz/gsn/djinn/compiler/DjinnCompiler.java:112-113 | `INVOKESTATIC` pops the three arrays into one `Hook.standardMain` call, then `RETURN` ends the method |
| Compiler.CallRun | compiler/src/main/java/bz/gsn/djinn/compiler/DjinnCompiler.java:109-113 | loading slots 1, 2, 3 and invoking calls `standardMain` with exactly those three references |
| Compiler.LoadRun | compiler/src/main/java/bz/gsn/djinn/compiler/DjinnCompiler.java:109-111 | `aload` pushes the local in the slot and the run continues from there |
| Compiler.NonInstructionsRun | compiler/src/main/java/bz/gsn/djinn/compiler/DjinnCompiler.java:105-115 | `visitCode`, `visitMaxs` and `visitEnd` do not change the frame |
| Compiler.ArraysRun | compiler/src/main/java/bz/gsn/djinn/compiler/DjinnCompiler.java:105-108 | the three arrays land in consecutive heap cells, referenced from slots 1, 2 and 3 |
| Compiler.BodyRun | compiler/src/main/java/bz/gsn/djinn/compiler/DjinnCompiler.java:105-113 | the generated instructions run to the bootstrap result |
| Compiler.BootstrapRun | compiler/src/main/java/bz/gsn/djinn/compiler/DjinnCompiler.java:104-115 | the generated `main` returns with an empty stack after exactly one `standardMain` call on three new arrays holding modules, resources and build-time variables |
| Compiler.ExtendingNames | compiler/src/main/java/bz/gsn/djinn/compiler/DjinnCompiler.java:84-89 | at most one name per class |
| Compiler.ExtendingNamesMembers | compiler/src/main/java/bz/gsn/djinn/compiler/DjinnCompiler.java:85-88 | a name is returned iff some non-anonymous class of that name qualifies: any subclass, or with `direct` only those whose superclass is the argument |
| Compiler.OfLevelUniform | compiler/src/main/java/bz/gsn/djinn/compiler/DjinnCompiler.java:207-213 | a list of one level is kept whole by that level and dropped by the other |
| Compiler.LintParts | compiler/src/main/java/bz/gsn/djinn/compiler/DjinnCompiler.java:207-213 | AF, FinalModule and Anonymous lints yield only warnings; ResourceConstructor and BuildTimeVariable lints yield only errors |
| Compiler.LintErrors | compiler/src/main/java/bz/gsn/djinn/compiler/DjinnCompiler.java:205-214 | the errors of `lint` are exactly the ResourceConstructor errors followed by the BuildTimeVariable errors |
| Compiler.LintWarnings | compiler/src/main/java/bz/gsn/djinn/compiler/DjinnCompiler.java:205-214 | the warnings of `lint` are exactly those of the AF, FinalModule and Anonymous lints |
| Compiler.LintExcludesFinalResource | compiler/src/main/java/bz/gsn/djinn/compiler/DjinnCompiler.java:207-213 | no FinalResourceLint warning is ever part of `lint`'s result |
| Compiler.DjinnCompiler.Of | compiler/src/main/java/bz/gsn/djinn/compiler/DjinnCompiler.java:36-74 | paths are `[primary] + others`, the primary is element 0, and no build-time variable is registered yet |
| Compiler.DjinnCompiler.RegisterBTV | compiler/src/main/java/bz/gsn/djinn/compiler/DjinnCompiler.java:58-60 | appends the variable unchecked, in call order |
| Compiler.DjinnCompiler.FindClassesExtending | compiler/src/main/java/bz/gsn/djinn/compiler/DjinnCompiler.java:83-90 | returns exactly the names of the scan's non-anonymous subclasses, only direct ones when asked, in the order `Subclasses` lists them |
| Compiler.DjinnCompiler.GenerateBootstrapper | compiler/src/main/java/bz/gsn/djinn/compiler/DjinnCompiler.java:97-117 | the `main` visitor records exactly the bootstrap sequence over direct DjinnModule subclasses, all Resource subclasses and the registered variables |
| Compiler.DjinnCompiler.GenerateMain | compiler/src/main/java/bz/gsn/djinn/compiler/DjinnCompiler.java:105-115 | a fresh `main` visitor records `Code`, the three array blocks, the call and `Maxs(3, 3)`, `End`: exactly the bootstrap sequence |
| Compiler.DjinnCompiler.GenerateCall | compiler/src/main/java/bz/gsn/djinn/compiler/DjinnCompiler.java:109-115 | appends the loads, the `standardMain` call, `RETURN`, `visitMaxs(3, 3)` and `visitEnd` |
| Compiler.DjinnCompiler.Lint | compiler/src/main/java/bz/gsn/djinn/compiler/DjinnCompiler.java:205-215 | the emitter ends with exactly the diagnostics of the five lints, FinalResourceLint excluded |
| SingletonResources.SingletonResource.constructor | example-project/src/main/java/foo/bar/resource/SingletonResource.java:23 | a new resource holds no singletons |
| SingletonResources.SingletonResource.Get | example-project/src/main/java/foo/bar/resource/SingletonResource.java:39-42 | absent (null) iff the class was never put, else the stored instance |
| SingletonResources.SingletonResource.Put | example-project/src/main/java/foo/bar/resource/SingletonResource.java:33-37 | on a class already present, fails with "already registered" and changes nothing; otherwise stores the instance. Afterwards `Get` returns it, and every other class's entry is unchanged |

## Left out

- Concurrency: parallel streams, the runtime thread pool and the compiler emitter's unsynchronised list are modelled as one sequential order (the classpath's order for detectors, list order for the five lints); concurrent runtimes are not modelled.
- The classgraph scan and the `Classpath` queries are parameters (a `ScanResult` record of ancestors and constructors, a `Classpath` record of annotated members); `classCount` is not modelled.
- Method handles are modelled as parameter types, return type and bindings; `IllegalAccessException` from `unreflect` and the `VarHandle` built in `handleField` are not modelled.
- `CoreUtils`, `Hook`, the CLI and logging are not part of this model; a detector's tag type is a field of the detector.
- Reflect.InsertArgument: accepts a bound value only when its class equals the slot type, whereas `insertArguments` also accepts a subtype.
- ASM internals (the `ClassWriter`, frame computation, the class header from `cw.visit`/`visitMethod`, `toByteArray`) are not modelled; only the `MethodVisitor` calls of `main` are, and the interpreter ignores `visitMaxs`.
- `createJAR` and `addFileToJAR` write files and are not part of this model.
- ResourceRegistry.Instances: instances carry a serial number instead of object identity, and `Collectors.toUnmodifiableSet` is not modelled; a class listed twice is instantiated twice and the later instance is stored.
- ResourceRegistry.Instantiate: the reported error is that of the first failing class in list order; with parallel streams the source may report any failing class.
- BuildEnvironment.ParseFails: a missing `=` is reported with the pairing's position; Java throws an `ArrayIndexOutOfBoundsException` that carries none.
- BuildEnvironment.GetBuildEnvironment: the static field filled in by reflection is passed as an `Option` parameter.
- MethodInfos.MethodInfo.constructor: the Java `assert`s on handle arity (disabled by default) are not modelled; `getName` and the other plain getters are fields of the class.
- Strings are sequences of `char` (UTF-16 code units, as in Java) with no normalisation.
