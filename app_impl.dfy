/**
 * `AppImpl`: binding injected resources into method handles, dispatching the
 * matches of every detector of a module, and submitting the module's runtimes.
 *
 * The parallel streams of the source are modelled as one sequential order (the
 * order of the classpath oracle's lists and of the module's sets); an exception
 * ends the pass, recorded as the `failure` of a `Trace`.
 */
module AppImpl {
  import opened Wrappers
  import opened Reflect
  import opened MethodInfos
  import opened Seqs

  // ---------------------------------------------------------------------------
  // resolveResources

  /** Why resolving a method's resources throws. */
  datatype ResolveError =
    | Unavailable(typ: TypeName)      // `Error("Unavailable resource " + name)`
    | BindFailed(cause: InsertError)  // thrown by `insertArguments`

  /** A parameter is bound from the registry when its type is a `Resource` subtype and it carries `@Inject`. */
  predicate IsInjected(p: Param)
  {
    p.isResourceType && p.injected
  }

  /**
   * The resolver's loop from declared parameter `ps[0]` on: `index` is the
   * position handed to `insertArguments`, advanced by one per declared
   * parameter whether or not an earlier one was removed.
   */
  function ResolveFrom(h: Handle, ps: seq<Param>, index: nat, registry: map<TypeName, Instance>): Result<Handle, ResolveError>
    decreases |ps|
  {
    if ps == [] then Ok(h)
    else if !IsInjected(ps[0]) then ResolveFrom(h, ps[1..], index + 1, registry)
    else if ps[0].typ !in registry then Err(Unavailable(ps[0].typ))
    else match InsertArgument(h, index, registry[ps[0].typ])
      case Err(e) => Err(BindFailed(e))
      case Ok(h') => ResolveFrom(h', ps[1..], index + 1, registry)
  }

  /** `resolveResources(method, registry)`: the method's handle with its injected parameters bound. */
  function Resolution(m: MethodDecl, registry: map<TypeName, Instance>): Result<Handle, ResolveError>
  {
    ResolveFrom(Unreflect(m), m.params, ReceiverSlots(m.modifiers), registry)
  }

  /** The imperative resolver: one pass over the declared parameters, rebinding `handle`. */
  method ResolveResources(m: MethodDecl, registry: map<TypeName, Instance>) returns (r: Result<Handle, ResolveError>)
    ensures r == Resolution(m, registry)
  {
    var handle := Unreflect(m);
    var index := ReceiverSlots(m.modifiers);
    var k := 0;
    while k < |m.params|
      invariant 0 <= k <= |m.params|
      invariant Resolution(m, registry) == ResolveFrom(handle, m.params[k..], index, registry)
    {
      var p := m.params[k];
      assert m.params[k..][1..] == m.params[k + 1..];
      if IsInjected(p) {
        if p.typ !in registry {
          return Err(Unavailable(p.typ));
        }
        var bound := InsertArgument(handle, index, registry[p.typ]);
        if bound.Err? {
          return Err(BindFailed(bound.error));
        }
        handle := bound.value;
      }
      index := index + 1;
      k := k + 1;
    }
    return Ok(handle);
  }

  // ---------------------------------------------------------------------------
  // dispatch traces

  /** What the dispatcher does, in order: scans it triggers, detector calls it makes, runtimes it submits. */
  datatype Event =
    | MethodsScanned(tag: TypeName)
    | FieldsScanned(tag: TypeName)
    | TypesScanned(tag: TypeName)
    | MethodHandled(detector: nat, annotation: Annotation, target: MethodDecl, handle: Handle, visible: seq<Param>)
    | FieldHandled(detector: nat, annotation: Annotation, field: FieldDecl)
    | TypeHandled(detector: nat, annotation: Annotation, decl: TypeDecl)
    | RuntimeSubmitted(runtime: Runtime)

  /** Why a detection pass aborts. */
  datatype DispatchError =
    | ResolutionFailed(cause: ResolveError)
    | AnnotationMissing(detector: nat)  // `Objects.requireNonNull` on the looked-up annotation

  /** The events of a run, and the exception that ended it, if any. */
  datatype Trace = Trace(events: seq<Event>, failure: Option<DispatchError>)

  const Empty := Trace([], None)

  /** Running `b` after `a`: nothing of `b` happens once `a` has thrown. */
  function Then(a: Trace, b: Trace): Trace
  {
    if a.failure.Some? then a else Trace(a.events + b.events, b.failure)
  }

  lemma ThenAssoc(a: Trace, b: Trace, c: Trace)
    ensures Then(Then(a, b), c) == Then(a, Then(b, c))
  {
    if a.failure.None? && b.failure.None? {
      assert a.events + b.events + c.events == a.events + (b.events + c.events);
    }
  }

  lemma ThenEmpty(a: Trace)
    ensures Then(Empty, a) == a && Then(a, Empty) == a
  {
    assert [] + a.events == a.events && a.events + [] == a.events;
  }

  /** `X.doesNotTarget`: the annotation type has no `@Target`, or its `@Target` omits `kind`. */
  predicate DoesNotTarget(tag: TagType, kind: ElementKind)
  {
    match tag.target
    case None => true
    case Some(kinds) => forall i :: 0 <= i < |kinds| ==> kinds[i] != kind
  }

  /** `X.handleMethod`: resolve the handle, look up the annotation, build the `MethodInfo`, call the detector. */
  function MethodStep(d: Detector, m: MethodDecl, registry: map<TypeName, Instance>): (t: Trace)
    ensures |t.events| <= 1 && (t.failure.Some? ==> t.events == [])
    ensures DoesNotTarget(d.tag, MethodKind) ==> t == Empty
    ensures !DoesNotTarget(d.tag, MethodKind) && t.failure.None? ==>
      |t.events| == 1 && MethodEventOk(t.events[0], d, registry) && t.events[0].target == m
    ensures t.failure.Some? <==>
      !DoesNotTarget(d.tag, MethodKind) && (Resolution(m, registry).Err? || AnnotationOf(m.annotations, d.tag.name).None?)
  {
    if DoesNotTarget(d.tag, MethodKind) then Empty
    else match Resolution(m, registry)
      case Err(e) => Trace([], Some(ResolutionFailed(e)))
      case Ok(h) =>
        match AnnotationOf(m.annotations, d.tag.name)
        case None => Trace([], Some(AnnotationMissing(d.id)))
        case Some(a) => Trace([MethodHandled(d.id, a, m, h, VisibleParameters(m.params, h.params, m.modifiers))], None)
  }

  /** `X.handleField`. */
  function FieldStep(d: Detector, f: FieldDecl): (t: Trace)
    ensures |t.events| <= 1 && (t.failure.Some? ==> t.events == [])
    ensures DoesNotTarget(d.tag, FieldKind) ==> t == Empty
    ensures !DoesNotTarget(d.tag, FieldKind) && t.failure.None? ==>
      |t.events| == 1 && FieldEventOk(t.events[0], d) && t.events[0].field == f
    ensures t.failure.Some? <==> !DoesNotTarget(d.tag, FieldKind) && AnnotationOf(f.annotations, d.tag.name).None?
  {
    if DoesNotTarget(d.tag, FieldKind) then Empty
    else match AnnotationOf(f.annotations, d.tag.name)
      case None => Trace([], Some(AnnotationMissing(d.id)))
      case Some(a) => Trace([FieldHandled(d.id, a, f)], None)
  }

  /** `X.handleType`. */
  function TypeStep(d: Detector, t: TypeDecl): (r: Trace)
    ensures |r.events| <= 1 && (r.failure.Some? ==> r.events == [])
    ensures DoesNotTarget(d.tag, TypeKind) ==> r == Empty
    ensures !DoesNotTarget(d.tag, TypeKind) && r.failure.None? ==>
      |r.events| == 1 && TypeEventOk(r.events[0], d) && r.events[0].decl == t
    ensures r.failure.Some? <==> !DoesNotTarget(d.tag, TypeKind) && AnnotationOf(t.annotations, d.tag.name).None?
  {
    if DoesNotTarget(d.tag, TypeKind) then Empty
    else match AnnotationOf(t.annotations, d.tag.name)
      case None => Trace([], Some(AnnotationMissing(d.id)))
      case Some(a) => Trace([TypeHandled(d.id, a, t)], None)
  }

  /** One detector over all its method matches. */
  function MethodMatches(d: Detector, ms: seq<MethodDecl>, registry: map<TypeName, Instance>): Trace
    decreases |ms|
  {
    if ms == [] then Empty else Then(MethodStep(d, ms[0], registry), MethodMatches(d, ms[1..], registry))
  }

  /** One detector over all its field matches. */
  function FieldMatches(d: Detector, fs: seq<FieldDecl>): Trace
    decreases |fs|
  {
    if fs == [] then Empty else Then(FieldStep(d, fs[0]), FieldMatches(d, fs[1..]))
  }

  /** One detector over all its type matches. */
  function TypeMatches(d: Detector, ts: seq<TypeDecl>): Trace
    decreases |ts|
  {
    if ts == [] then Empty else Then(TypeStep(d, ts[0]), TypeMatches(d, ts[1..]))
  }

  /** The scan event of one `computeIfAbsent`: present only when the tag was not yet cached. */
  function Scan(e: Event, miss: bool): Trace
  {
    Trace(if miss then [e] else [], None)
  }

  /**
   * One detector of a group, given the tags already cached in that group:
   * method matches, then field matches, then type matches; the scanner runs
   * only for a tag not cached yet, whether or not the detector targets the kind.
   */
  function DetectorTrace(d: Detector, cached: set<TypeName>, cp: Classpath, registry: map<TypeName, Instance>): Trace
  {
    var tag := d.tag.name;
    var miss := tag !in cached;
    Then(Then(Then(Then(Then(
      Scan(MethodsScanned(tag), miss), MethodMatches(d, cp.AnnotatedMethods(tag), registry)),
      Scan(FieldsScanned(tag), miss)), FieldMatches(d, cp.AnnotatedFields(tag))),
      Scan(TypesScanned(tag), miss)), TypeMatches(d, cp.AnnotatedTypes(tag)))
  }

  /** The detectors of a group in list order, the caches holding `cached` before the first. */
  function GroupFrom(group: seq<Detector>, cached: set<TypeName>, cp: Classpath, registry: map<TypeName, Instance>): Trace
    decreases |group|
  {
    if group == [] then Empty
    else Then(DetectorTrace(group[0], cached, cp, registry),
              GroupFrom(group[1..], cached + {group[0].tag.name}, cp, registry))
  }

  /** A group runs with caches that start empty. */
  function GroupTrace(group: seq<Detector>, cp: Classpath, registry: map<TypeName, Instance>): Trace
  {
    GroupFrom(group, {}, cp, registry)
  }

  /** `runAnnotationDetectors`: every group of the module, each with its own fresh caches. */
  function DetectionTrace(groups: seq<seq<Detector>>, cp: Classpath, registry: map<TypeName, Instance>): Trace
    decreases |groups|
  {
    if groups == [] then Empty
    else Then(GroupTrace(groups[0], cp, registry), DetectionTrace(groups[1..], cp, registry))
  }

  /** `registerRuntimes`: each runtime submitted to the runtime pool once. */
  function SubmissionTrace(runtimes: seq<Runtime>): Trace
  {
    Trace(seq(|runtimes|, k requires 0 <= k < |runtimes| => RuntimeSubmitted(runtimes[k])), None)
  }

  /** One module: its detection pass, then its runtimes. */
  function ModuleTrace(m: Module, cp: Classpath, registry: map<TypeName, Instance>): Trace
  {
    Then(DetectionTrace(m.groups, cp, registry), SubmissionTrace(m.runtimes))
  }

  /** `run`: every module. */
  function AppTrace(modules: seq<Module>, cp: Classpath, registry: map<TypeName, Instance>): Trace
    decreases |modules|
  {
    if modules == [] then Empty
    else Then(ModuleTrace(modules[0], cp, registry), AppTrace(modules[1..], cp, registry))
  }

  // ---------------------------------------------------------------------------
  // the dispatcher's methods

  /** `X.handleMethod`, building the `MethodInfo` object the detector receives. */
  method HandleMethod(d: Detector, m: MethodDecl, registry: map<TypeName, Instance>) returns (t: Trace)
    ensures t == MethodStep(d, m, registry)
  {
    if DoesNotTarget(d.tag, MethodKind) {
      return Empty;
    }
    var handle := ResolveResources(m, registry);
    if handle.Err? {
      return Trace([], Some(ResolutionFailed(handle.error)));
    }
    var annotation := AnnotationOf(m.annotations, d.tag.name);
    if annotation.None? {
      return Trace([], Some(AnnotationMissing(d.id)));
    }
    var info := new MethodInfo(m, handle.value);
    var visible := info.GetParameters();
    t := Trace([MethodHandled(d.id, annotation.value, m, handle.value, visible[..])], None);
  }

  /** The method matches of one detector, stopping at the first exception. */
  method RunMethodMatches(d: Detector, ms: seq<MethodDecl>, registry: map<TypeName, Instance>) returns (t: Trace)
    ensures t == MethodMatches(d, ms, registry)
  {
    t := Empty;
    var j := 0;
    while j < |ms|
      invariant 0 <= j <= |ms| && t.failure.None?
      invariant MethodMatches(d, ms, registry) == Then(t, MethodMatches(d, ms[j..], registry))
    {
      assert ms[j..][1..] == ms[j + 1..];
      var step := HandleMethod(d, ms[j], registry);
      ThenAssoc(t, step, MethodMatches(d, ms[j + 1..], registry));
      t := Then(t, step);
      if t.failure.Some? {
        return;
      }
      j := j + 1;
    }
    ThenEmpty(t);
  }

  /** The field matches of one detector. */
  method RunFieldMatches(d: Detector, fs: seq<FieldDecl>) returns (t: Trace)
    ensures t == FieldMatches(d, fs)
  {
    t := Empty;
    var j := 0;
    while j < |fs|
      invariant 0 <= j <= |fs| && t.failure.None?
      invariant FieldMatches(d, fs) == Then(t, FieldMatches(d, fs[j..]))
    {
      assert fs[j..][1..] == fs[j + 1..];
      var step := FieldStep(d, fs[j]);
      ThenAssoc(t, step, FieldMatches(d, fs[j + 1..]));
      t := Then(t, step);
      if t.failure.Some? {
        return;
      }
      j := j + 1;
    }
    ThenEmpty(t);
  }

  /** The type matches of one detector. */
  method RunTypeMatches(d: Detector, ts: seq<TypeDecl>) returns (t: Trace)
    ensures t == TypeMatches(d, ts)
  {
    t := Empty;
    var j := 0;
    while j < |ts|
      invariant 0 <= j <= |ts| && t.failure.None?
      invariant TypeMatches(d, ts) == Then(t, TypeMatches(d, ts[j..]))
    {
      assert ts[j..][1..] == ts[j + 1..];
      var step := TypeStep(d, ts[j]);
      ThenAssoc(t, step, TypeMatches(d, ts[j + 1..]));
      t := Then(t, step);
      if t.failure.Some? {
        return;
      }
      j := j + 1;
    }
    ThenEmpty(t);
  }

  /** The group's three caches: every cached tag maps to the scanner's answer for it. */
  ghost predicate CachesAgree(
    methodCache: map<TypeName, seq<MethodDecl>>, fieldCache: map<TypeName, seq<FieldDecl>>,
    typeCache: map<TypeName, seq<TypeDecl>>, cp: Classpath)
  {
    && fieldCache.Keys == methodCache.Keys && typeCache.Keys == methodCache.Keys
    && (forall t :: t in methodCache ==> methodCache[t] == cp.AnnotatedMethods(t))
    && (forall t :: t in fieldCache ==> fieldCache[t] == cp.AnnotatedFields(t))
    && (forall t :: t in typeCache ==> typeCache[t] == cp.AnnotatedTypes(t))
  }

  /** Adding the scanner's answers for `tag` to caches that agree keeps them agreeing. */
  lemma CachesExtend(
    methodCache: map<TypeName, seq<MethodDecl>>, fieldCache: map<TypeName, seq<FieldDecl>>,
    typeCache: map<TypeName, seq<TypeDecl>>, cp: Classpath, tag: TypeName)
    requires CachesAgree(methodCache, fieldCache, typeCache, cp)
    ensures CachesAgree(methodCache[tag := cp.AnnotatedMethods(tag)], fieldCache[tag := cp.AnnotatedFields(tag)],
                        typeCache[tag := cp.AnnotatedTypes(tag)], cp)
  {
  }

  /** One detector of a group, reading the group's caches and filling them with `computeIfAbsent`. */
  method RunDetector(
    d: Detector, methodCache: map<TypeName, seq<MethodDecl>>, fieldCache: map<TypeName, seq<FieldDecl>>,
    typeCache: map<TypeName, seq<TypeDecl>>, cp: Classpath, registry: map<TypeName, Instance>)
    returns (t: Trace, methodCache': map<TypeName, seq<MethodDecl>>, fieldCache': map<TypeName, seq<FieldDecl>>,
             typeCache': map<TypeName, seq<TypeDecl>>)
    requires CachesAgree(methodCache, fieldCache, typeCache, cp)
    ensures t == DetectorTrace(d, methodCache.Keys, cp, registry)
    ensures CachesAgree(methodCache', fieldCache', typeCache', cp)
    ensures methodCache'.Keys == methodCache.Keys + {d.tag.name}
  {
    var tag := d.tag.name;
    var miss := tag !in methodCache;
    if miss {
      CachesExtend(methodCache, fieldCache, typeCache, cp, tag);
      methodCache' := methodCache[tag := cp.AnnotatedMethods(tag)];
      fieldCache' := fieldCache[tag := cp.AnnotatedFields(tag)];
      typeCache' := typeCache[tag := cp.AnnotatedTypes(tag)];
    } else {
      methodCache', fieldCache', typeCache' := methodCache, fieldCache, typeCache;
    }
    assert methodCache'[tag] == cp.AnnotatedMethods(tag);
    assert fieldCache'[tag] == cp.AnnotatedFields(tag);
    assert typeCache'[tag] == cp.AnnotatedTypes(tag);
    t := RunPasses(d, miss, methodCache'[tag], fieldCache'[tag], typeCache'[tag], registry);
  }

  /** The three passes of one detector over the cached sets, each preceded by its scan when the tag missed. */
  method RunPasses(d: Detector, miss: bool, ms: seq<MethodDecl>, fs: seq<FieldDecl>, ts: seq<TypeDecl>, registry: map<TypeName, Instance>)
    returns (t: Trace)
    ensures t == Then(Then(Then(Then(Then(
      Scan(MethodsScanned(d.tag.name), miss), MethodMatches(d, ms, registry)),
      Scan(FieldsScanned(d.tag.name), miss)), FieldMatches(d, fs)),
      Scan(TypesScanned(d.tag.name), miss)), TypeMatches(d, ts))
  {
    var tag := d.tag.name;
    var methodPart := RunMethodMatches(d, ms, registry);
    t := Then(Scan(MethodsScanned(tag), miss), methodPart);
    if t.failure.Some? {
      return;
    }
    var fieldPart := RunFieldMatches(d, fs);
    t := Then(Then(t, Scan(FieldsScanned(tag), miss)), fieldPart);
    if t.failure.Some? {
      return;
    }
    var typePart := RunTypeMatches(d, ts);
    t := Then(Then(t, Scan(TypesScanned(tag), miss)), typePart);
  }

  /** The loop of one group: its detectors in list order, sharing caches that start empty. */
  method RunGroup(group: seq<Detector>, cp: Classpath, registry: map<TypeName, Instance>) returns (t: Trace)
    ensures t == GroupTrace(group, cp, registry)
  {
    var methodCache: map<TypeName, seq<MethodDecl>> := map[];
    var fieldCache: map<TypeName, seq<FieldDecl>> := map[];
    var typeCache: map<TypeName, seq<TypeDecl>> := map[];
    t := Empty;
    ThenEmpty(GroupTrace(group, cp, registry));
    assert group[0..] == group && methodCache.Keys == {};
    var i := 0;
    while i < |group|
      invariant 0 <= i <= |group| && t.failure.None?
      invariant CachesAgree(methodCache, fieldCache, typeCache, cp)
      invariant GroupTrace(group, cp, registry) == Then(t, GroupFrom(group[i..], methodCache.Keys, cp, registry))
    {
      assert group[i..][1..] == group[i + 1..];
      var rest := GroupFrom(group[i + 1..], methodCache.Keys + {group[i].tag.name}, cp, registry);
      var step;
      step, methodCache, fieldCache, typeCache := RunDetector(group[i], methodCache, fieldCache, typeCache, cp, registry);
      ThenAssoc(t, step, rest);
      t := Then(t, step);
      if t.failure.Some? {
        return;
      }
      i := i + 1;
    }
    ThenEmpty(t);
  }

  /** `runAnnotationDetectors`: the module's groups, stopping at the first exception. */
  method RunAnnotationDetectors(groups: seq<seq<Detector>>, cp: Classpath, registry: map<TypeName, Instance>) returns (t: Trace)
    ensures t == DetectionTrace(groups, cp, registry)
  {
    t := Empty;
    var i := 0;
    while i < |groups|
      invariant 0 <= i <= |groups| && t.failure.None?
      invariant DetectionTrace(groups, cp, registry) == Then(t, DetectionTrace(groups[i..], cp, registry))
    {
      assert groups[i..][1..] == groups[i + 1..];
      var step := RunGroup(groups[i], cp, registry);
      ThenAssoc(t, step, DetectionTrace(groups[i + 1..], cp, registry));
      t := Then(t, step);
      if t.failure.Some? {
        return;
      }
      i := i + 1;
    }
    ThenEmpty(t);
  }

  /** `registerRuntimes`: one submission per runtime. */
  method RegisterRuntimes(runtimes: seq<Runtime>) returns (t: Trace)
    ensures t == SubmissionTrace(runtimes)
  {
    var submitted: seq<Event> := [];
    var i := 0;
    while i < |runtimes|
      invariant 0 <= i <= |runtimes|
      invariant submitted == seq(i, k requires 0 <= k < i => RuntimeSubmitted(runtimes[k]))
    {
      submitted := submitted + [RuntimeSubmitted(runtimes[i])];
      i := i + 1;
    }
    t := Trace(submitted, None);
  }

  /** `run`: for each module, its detection pass and then its runtimes. */
  method Run(modules: seq<Module>, cp: Classpath, registry: map<TypeName, Instance>) returns (t: Trace)
    ensures t == AppTrace(modules, cp, registry)
  {
    t := Empty;
    var i := 0;
    while i < |modules|
      invariant 0 <= i <= |modules| && t.failure.None?
      invariant AppTrace(modules, cp, registry) == Then(t, AppTrace(modules[i..], cp, registry))
    {
      assert modules[i..][1..] == modules[i + 1..];
      var detection := RunAnnotationDetectors(modules[i].groups, cp, registry);
      var step := detection;
      if detection.failure.None? {
        var submissions := RegisterRuntimes(modules[i].runtimes);
        step := Then(detection, submissions);
      }
      ThenAssoc(t, step, AppTrace(modules[i + 1..], cp, registry));
      t := Then(t, step);
      if t.failure.Some? {
        return;
      }
      i := i + 1;
    }
    ThenEmpty(t);
  }

  // ---------------------------------------------------------------------------
  // properties of resolution

  /** How many declared parameters the resolver binds. */
  function InjectedCount(ps: seq<Param>): (n: nat)
    ensures n <= |ps|
    ensures n == 0 <==> forall k :: 0 <= k < |ps| ==> !IsInjected(ps[k])
  {
    if ps == [] then 0 else (if IsInjected(ps[0]) then 1 else 0) + InjectedCount(ps[1..])
  }

  /** A successful resolution binds one value per injected parameter and removes its slot; the return type stays. */
  lemma {:induction false} ResolveFromShape(h: Handle, ps: seq<Param>, index: nat, registry: map<TypeName, Instance>)
    ensures var r := ResolveFrom(h, ps, index, registry);
      r.Ok? ==>
        && |r.value.params| + InjectedCount(ps) == |h.params|
        && |r.value.bound| == |h.bound| + InjectedCount(ps)
        && r.value.bound[..|h.bound|] == h.bound
        && r.value.returnType == h.returnType
    decreases |ps|
  {
    if ps != [] {
      if !IsInjected(ps[0]) {
        ResolveFromShape(h, ps[1..], index + 1, registry);
      } else if ps[0].typ in registry {
        var bound := InsertArgument(h, index, registry[ps[0].typ]);
        if bound.Ok? {
          ResolveFromShape(bound.value, ps[1..], index + 1, registry);
          var r := ResolveFrom(bound.value, ps[1..], index + 1, registry);
          if r.Ok? {
            assert r.value.bound[..|h.bound|] == r.value.bound[..|bound.value.bound|][..|h.bound|];
          }
        }
      }
    }
  }

  /** The error names a missing resource exactly when an injected parameter's type is not registered and nothing failed before it. */
  lemma {:induction false} UnavailableNamesInjectedParameter(h: Handle, ps: seq<Param>, index: nat, registry: map<TypeName, Instance>)
    ensures ResolveFrom(h, ps, index, registry) == Err(Unavailable(ps[0].typ)) <== |ps| > 0 && IsInjected(ps[0]) && ps[0].typ !in registry
    ensures forall t :: ResolveFrom(h, ps, index, registry) == Err(Unavailable(t)) ==>
      t !in registry && exists k :: 0 <= k < |ps| && IsInjected(ps[k]) && ps[k].typ == t
    decreases |ps|
  {
    if ps != [] {
      if !IsInjected(ps[0]) {
        UnavailableNamesInjectedParameter(h, ps[1..], index + 1, registry);
        forall t | ResolveFrom(h, ps, index, registry) == Err(Unavailable(t))
          ensures exists k :: 0 <= k < |ps| && IsInjected(ps[k]) && ps[k].typ == t
        {
          var k :| 0 <= k < |ps[1..]| && IsInjected(ps[1..][k]) && ps[1..][k].typ == t;
          assert ps[k + 1] == ps[1..][k];
        }
      } else if ps[0].typ in registry {
        var bound := InsertArgument(h, index, registry[ps[0].typ]);
        if bound.Ok? {
          UnavailableNamesInjectedParameter(bound.value, ps[1..], index + 1, registry);
          forall t | ResolveFrom(h, ps, index, registry) == Err(Unavailable(t))
            ensures exists k :: 0 <= k < |ps| && IsInjected(ps[k]) && ps[k].typ == t
          {
            var k :| 0 <= k < |ps[1..]| && IsInjected(ps[1..][k]) && ps[1..][k].typ == t;
            assert ps[k + 1] == ps[1..][k];
          }
        }
      }
    }
  }

  /** An injected parameter whose resource is not registered makes resolution throw. */
  lemma {:induction false} MissingResourceFails(h: Handle, ps: seq<Param>, index: nat, registry: map<TypeName, Instance>, k: nat)
    requires k < |ps| && IsInjected(ps[k]) && ps[k].typ !in registry
    ensures ResolveFrom(h, ps, index, registry).Err?
    decreases |ps|
  {
    if k > 0 && !(IsInjected(ps[0]) && ps[0].typ !in registry) {
      if !IsInjected(ps[0]) {
        MissingResourceFails(h, ps[1..], index + 1, registry, k - 1);
      } else {
        var bound := InsertArgument(h, index, registry[ps[0].typ]);
        if bound.Ok? {
          MissingResourceFails(bound.value, ps[1..], index + 1, registry, k - 1);
        }
      }
    }
  }

  /** Parameters the resolver does not bind leave the handle as it is, only advancing the position. */
  lemma {:induction false} SkipUninjected(h: Handle, ps: seq<Param>, index: nat, registry: map<TypeName, Instance>, j: nat)
    requires j <= |ps| && forall k :: 0 <= k < j ==> !IsInjected(ps[k])
    ensures ResolveFrom(h, ps, index, registry) == ResolveFrom(h, ps[j..], index + j, registry)
    decreases j
  {
    if j > 0 {
      assert ps[1..][j - 1..] == ps[j..];
      SkipUninjected(h, ps[1..], index + 1, registry, j - 1);
    }
  }

  /** A method without injected parameters resolves to its unreflected handle. */
  lemma NoInjectionKeepsHandle(m: MethodDecl, registry: map<TypeName, Instance>)
    requires forall k :: 0 <= k < |m.params| ==> !IsInjected(m.params[k])
    ensures Resolution(m, registry) == Ok(Unreflect(m))
  {
    SkipUninjected(Unreflect(m), m.params, ReceiverSlots(m.modifiers), registry, |m.params|);
  }

  /** A resolved handle takes the declared parameters plus the receiver, less one per injected parameter. */
  lemma ResolutionArity(m: MethodDecl, registry: map<TypeName, Instance>)
    ensures var r := Resolution(m, registry);
      r.Ok? ==>
        && |r.value.params| == |m.params| + ReceiverSlots(m.modifiers) - InjectedCount(m.params)
        && |r.value.bound| == InjectedCount(m.params)
        && r.value.returnType == m.returnType
  {
    ResolveFromShape(Unreflect(m), m.params, ReceiverSlots(m.modifiers), registry);
  }

  /**
   * A method with exactly one injected parameter, at declared position `k`,
   * whose registered resource has the parameter's type: the handle loses slot
   * `ReceiverSlots + k` and binds the resource there.
   */
  lemma SingleInjectionBinds(m: MethodDecl, registry: map<TypeName, Instance>, k: nat)
    requires k < |m.params| && IsInjected(m.params[k])
    requires forall j :: 0 <= j < |m.params| && j != k ==> !IsInjected(m.params[j])
    requires m.params[k].typ in registry && registry[m.params[k].typ].cls == m.params[k].typ
    ensures var h := Unreflect(m); var pos := ReceiverSlots(m.modifiers) + k;
      Resolution(m, registry) == Ok(Handle(h.params[..pos] + h.params[pos + 1..], m.returnType,
                                           [Binding(pos, registry[m.params[k].typ])]))
  {
    var h := Unreflect(m);
    var pos := ReceiverSlots(m.modifiers) + k;
    SkipUninjected(h, m.params, ReceiverSlots(m.modifiers), registry, k);
    UnreflectSlot(m, k);
    var ps := m.params[k..];
    assert ps[0] == m.params[k];
    var h' := InsertArgument(h, pos, registry[m.params[k].typ]).value;
    assert ResolveFrom(h, ps, pos, registry) == ResolveFrom(h', ps[1..], pos + 1, registry);
    forall j | 0 <= j < |ps[1..]|
      ensures !IsInjected(ps[1..][j])
    {
      assert ps[1..][j] == ps[1 + j];
      assert ps[1 + j] == m.params[k + 1 + j];
    }
    SkipUninjected(h', ps[1..], pos + 1, registry, |ps[1..]|);
    assert ps[1..][|ps[1..]|..] == [];
    assert ResolveFrom(h', [], pos + 1 + |ps[1..]|, registry) == Ok(h');
    assert m.params[..0] == [] && m.params[0..] == m.params;
    assert Resolution(m, registry) == Ok(h');
    assert h'.bound == [] + [Binding(pos, registry[m.params[k].typ])];
    assert h'.params == h.params[..pos] + h.params[pos + 1..];
    assert h'.returnType == m.returnType;
    assert h' == Handle(h.params[..pos] + h.params[pos + 1..], m.returnType, [Binding(pos, registry[m.params[k].typ])]);
  }

  /**
   * As written, the position counter is not lowered when a slot is removed: a
   * method whose last two declared parameters are both injected fails at the
   * second, whose position is now one past the handle's last slot.
   */
  lemma TwoInjectedParametersFail(m: MethodDecl, registry: map<TypeName, Instance>)
    requires |m.params| == 2 && IsInjected(m.params[0]) && IsInjected(m.params[1])
    requires forall k :: 0 <= k < 2 ==> m.params[k].typ in registry && registry[m.params[k].typ].cls == m.params[k].typ
    ensures var pos := ReceiverSlots(m.modifiers) + 1;
      Resolution(m, registry) == Err(BindFailed(PositionOutOfRange(pos, pos)))
  {
    var h := Unreflect(m);
    var start := ReceiverSlots(m.modifiers);
    UnreflectSlot(m, 0);
    var h' := InsertArgument(h, start, registry[m.params[0].typ]).value;
    assert Resolution(m, registry) == ResolveFrom(h', m.params[1..], start + 1, registry);
  }

  /** The handle handed to a detector together with its `MethodInfo`, for an instance method with one injected parameter. */
  lemma InstanceMethodWithOneResource(m: MethodDecl, registry: map<TypeName, Instance>)
    requires !IsStatic(m.modifiers) && |m.params| == 1 && IsInjected(m.params[0])
    requires m.params[0].typ in registry && registry[m.params[0].typ].cls == m.params[0].typ
    ensures Resolution(m, registry) == Ok(Handle([m.owner], m.returnType, [Binding(1, registry[m.params[0].typ])]))
    ensures VisibleParameters(m.params, [m.owner], m.modifiers) == []
  {
    SingleInjectionBinds(m, registry, 0);
    var h := Unreflect(m);
    assert h.params[..1] + h.params[2..] == [m.owner];
  }

  // ---------------------------------------------------------------------------
  // properties of dispatch

  /** A method event the detector may receive: its annotation, the resolved handle and the visible parameters. */
  ghost predicate MethodEventOk(e: Event, d: Detector, registry: map<TypeName, Instance>)
  {
    && e.MethodHandled? && e.detector == d.id
    && e.annotation.typ == d.tag.name && e.annotation in e.target.annotations
    && Resolution(e.target, registry) == Ok(e.handle)
    && e.visible == VisibleParameters(e.target.params, e.handle.params, e.target.modifiers)
  }

  /** Every call one detector receives over its method matches is for one of them, made as `MethodEventOk` says. */
  lemma {:induction false} MethodMatchesSound(d: Detector, xs: seq<MethodDecl>, registry: map<TypeName, Instance>)
    ensures forall i :: 0 <= i < |MethodMatches(d, xs, registry).events| ==>
      MethodEventOk(MethodMatches(d, xs, registry).events[i], d, registry) && MethodMatches(d, xs, registry).events[i].target in xs
    decreases |xs|
  {
    if xs != [] {
      MethodMatchesSound(d, xs[1..], registry);
      var t := MethodMatches(d, xs, registry);
      var step := MethodStep(d, xs[0], registry);
      if step.failure.None? {
        var rest := MethodMatches(d, xs[1..], registry).events;
        assert t.events == step.events + rest;
        forall i | 0 <= i < |step.events|
          ensures MethodEventOk(t.events[i], d, registry) && t.events[i].target in xs
        {
          assert t.events[i] == step.events[0];
        }
        forall i | |step.events| <= i < |t.events|
          ensures MethodEventOk(t.events[i], d, registry) && t.events[i].target in xs
        {
          assert t.events[i] == rest[i - |step.events|];
          assert rest[i - |step.events|].target in xs[1..];
        }
      }
    }
  }

  /** The pass over one detector's method matches throws exactly when one of its steps throws. */
  lemma {:induction false} MethodMatchesFail(d: Detector, xs: seq<MethodDecl>, registry: map<TypeName, Instance>)
    ensures MethodMatches(d, xs, registry).failure.Some? <==> exists k :: 0 <= k < |xs| && MethodStep(d, xs[k], registry).failure.Some?
    decreases |xs|
  {
    if xs != [] {
      MethodMatchesFail(d, xs[1..], registry);
      if MethodStep(d, xs[0], registry).failure.None? {
        if MethodMatches(d, xs[1..], registry).failure.Some? {
          var k :| 0 <= k < |xs[1..]| && MethodStep(d, xs[1..][k], registry).failure.Some?;
          assert xs[1..][k] == xs[k + 1];
        }
        forall k | 0 <= k < |xs| && MethodStep(d, xs[k], registry).failure.Some?
          ensures MethodMatches(d, xs[1..], registry).failure.Some?
        {
          assert xs[1..][k - 1] == xs[k];
        }
      }
    }
  }

  /** A pass over a targeted kind that does not throw calls the detector once per match, in the scanner's order. */
  lemma {:induction false} MethodMatchesComplete(d: Detector, xs: seq<MethodDecl>, registry: map<TypeName, Instance>)
    requires !DoesNotTarget(d.tag, MethodKind)
    ensures MethodMatches(d, xs, registry).failure.None? ==>
      |MethodMatches(d, xs, registry).events| == |xs| && forall i :: 0 <= i < |xs| ==> MethodMatches(d, xs, registry).events[i].MethodHandled? && MethodMatches(d, xs, registry).events[i].target == xs[i]
    decreases |xs|
  {
    if xs != [] {
      MethodMatchesComplete(d, xs[1..], registry);
      var t := MethodMatches(d, xs, registry);
      var step := MethodStep(d, xs[0], registry);
      if t.failure.None? {
        var rest := MethodMatches(d, xs[1..], registry).events;
        assert step.failure.None? && t.events == step.events + rest;
        assert |step.events| == 1 && step.events[0].MethodHandled? && step.events[0].target == xs[0];
        forall i | 0 < i < |xs|
          ensures t.events[i].MethodHandled? && t.events[i].target == xs[i]
        {
          assert t.events[i] == rest[i - 1];
          assert xs[1..][i - 1] == xs[i];
        }
      }
    }
  }

  /** A field event the detector may receive, with the annotation found on the field. */
  ghost predicate FieldEventOk(e: Event, d: Detector)
  {
    e.FieldHandled? && e.detector == d.id && e.annotation.typ == d.tag.name && e.annotation in e.field.annotations
  }

  /** Every call one detector receives over its field matches is for one of them, made as `FieldEventOk` says. */
  lemma {:induction false} FieldMatchesSound(d: Detector, xs: seq<FieldDecl>)
    ensures forall i :: 0 <= i < |FieldMatches(d, xs).events| ==>
      FieldEventOk(FieldMatches(d, xs).events[i], d) && FieldMatches(d, xs).events[i].field in xs
    decreases |xs|
  {
    if xs != [] {
      FieldMatchesSound(d, xs[1..]);
      var t := FieldMatches(d, xs);
      var step := FieldStep(d, xs[0]);
      if step.failure.None? {
        var rest := FieldMatches(d, xs[1..]).events;
        assert t.events == step.events + rest;
        forall i | 0 <= i < |t.events|
          ensures FieldEventOk(t.events[i], d) && t.events[i].field in xs
        {
          if i >= |step.events| {
            assert t.events[i] == rest[i - |step.events|];
            assert rest[i - |step.events|].field in xs[1..];
          } else {
            assert t.events[i] == step.events[0];
          }
        }
      }
    }
  }

  /** The pass over one detector's field matches throws exactly when one of its steps throws. */
  lemma {:induction false} FieldMatchesFail(d: Detector, xs: seq<FieldDecl>)
    ensures FieldMatches(d, xs).failure.Some? <==> exists k :: 0 <= k < |xs| && FieldStep(d, xs[k]).failure.Some?
    decreases |xs|
  {
    if xs != [] {
      FieldMatchesFail(d, xs[1..]);
      if FieldStep(d, xs[0]).failure.None? {
        if FieldMatches(d, xs[1..]).failure.Some? {
          var k :| 0 <= k < |xs[1..]| && FieldStep(d, xs[1..][k]).failure.Some?;
          assert xs[1..][k] == xs[k + 1];
        }
        forall k | 0 <= k < |xs| && FieldStep(d, xs[k]).failure.Some?
          ensures FieldMatches(d, xs[1..]).failure.Some?
        {
          assert xs[1..][k - 1] == xs[k];
        }
      }
    }
  }

  /** A pass over a targeted kind that does not throw calls the detector once per match, in the scanner's order. */
  lemma {:induction false} FieldMatchesComplete(d: Detector, xs: seq<FieldDecl>)
    requires !DoesNotTarget(d.tag, FieldKind)
    ensures FieldMatches(d, xs).failure.None? ==>
      |FieldMatches(d, xs).events| == |xs| && forall i :: 0 <= i < |xs| ==> FieldMatches(d, xs).events[i].FieldHandled? && FieldMatches(d, xs).events[i].field == xs[i]
    decreases |xs|
  {
    if xs != [] {
      FieldMatchesComplete(d, xs[1..]);
      var t := FieldMatches(d, xs);
      var step := FieldStep(d, xs[0]);
      if t.failure.None? {
        assert t.events == step.events + FieldMatches(d, xs[1..]).events;
        forall i | 0 < i < |xs|
          ensures t.events[i].FieldHandled? && t.events[i].field == xs[i]
        {
          assert xs[1..][i - 1] == xs[i];
        }
      }
    }
  }

  /** A type event the detector may receive, with the annotation found on the type. */
  ghost predicate TypeEventOk(e: Event, d: Detector)
  {
    e.TypeHandled? && e.detector == d.id && e.annotation.typ == d.tag.name && e.annotation in e.decl.annotations
  }

  /** Every call one detector receives over its type matches is for one of them, made as `TypeEventOk` says. */
  lemma {:induction false} TypeMatchesSound(d: Detector, xs: seq<TypeDecl>)
    ensures forall i :: 0 <= i < |TypeMatches(d, xs).events| ==>
      TypeEventOk(TypeMatches(d, xs).events[i], d) && TypeMatches(d, xs).events[i].decl in xs
    decreases |xs|
  {
    if xs != [] {
      TypeMatchesSound(d, xs[1..]);
      var t := TypeMatches(d, xs);
      var step := TypeStep(d, xs[0]);
      if step.failure.None? {
        var rest := TypeMatches(d, xs[1..]).events;
        assert t.events == step.events + rest;
        forall i | 0 <= i < |t.events|
          ensures TypeEventOk(t.events[i], d) && t.events[i].decl in xs
        {
          if i >= |step.events| {
            assert t.events[i] == rest[i - |step.events|];
            assert rest[i - |step.events|].decl in xs[1..];
          } else {
            assert t.events[i] == step.events[0];
          }
        }
      }
    }
  }

  /** The pass over one detector's type matches throws exactly when one of its steps throws. */
  lemma {:induction false} TypeMatchesFail(d: Detector, xs: seq<TypeDecl>)
    ensures TypeMatches(d, xs).failure.Some? <==> exists k :: 0 <= k < |xs| && TypeStep(d, xs[k]).failure.Some?
    decreases |xs|
  {
    if xs != [] {
      TypeMatchesFail(d, xs[1..]);
      if TypeStep(d, xs[0]).failure.None? {
        if TypeMatches(d, xs[1..]).failure.Some? {
          var k :| 0 <= k < |xs[1..]| && TypeStep(d, xs[1..][k]).failure.Some?;
          assert xs[1..][k] == xs[k + 1];
        }
        forall k | 0 <= k < |xs| && TypeStep(d, xs[k]).failure.Some?
          ensures TypeMatches(d, xs[1..]).failure.Some?
        {
          assert xs[1..][k - 1] == xs[k];
        }
      }
    }
  }

  /** A pass over a targeted kind that does not throw calls the detector once per match, in the scanner's order. */
  lemma {:induction false} TypeMatchesComplete(d: Detector, xs: seq<TypeDecl>)
    requires !DoesNotTarget(d.tag, TypeKind)
    ensures TypeMatches(d, xs).failure.None? ==>
      |TypeMatches(d, xs).events| == |xs| && forall i :: 0 <= i < |xs| ==> TypeMatches(d, xs).events[i].TypeHandled? && TypeMatches(d, xs).events[i].decl == xs[i]
    decreases |xs|
  {
    if xs != [] {
      TypeMatchesComplete(d, xs[1..]);
      var t := TypeMatches(d, xs);
      var step := TypeStep(d, xs[0]);
      if t.failure.None? {
        assert t.events == step.events + TypeMatches(d, xs[1..]).events;
        forall i | 0 < i < |xs|
          ensures t.events[i].TypeHandled? && t.events[i].decl == xs[i]
        {
          assert xs[1..][i - 1] == xs[i];
        }
      }
    }
  }

  /** A detector whose annotation type does not target methods is never called for a method, and nothing is resolved. */
  lemma {:induction false} UntargetedMethodsSkipped(d: Detector, ms: seq<MethodDecl>, registry: map<TypeName, Instance>)
    requires DoesNotTarget(d.tag, MethodKind)
    ensures MethodMatches(d, ms, registry) == Empty
    decreases |ms|
  {
    if ms != [] {
      UntargetedMethodsSkipped(d, ms[1..], registry);
      ThenEmpty(Empty);
    }
  }

  /** The stage of the run an event belongs to: methods, fields, types, runtimes. */
  function Stage(e: Event): nat
  {
    match e
    case MethodsScanned(_) => 0
    case MethodHandled(_, _, _, _, _) => 0
    case FieldsScanned(_) => 1
    case FieldHandled(_, _, _) => 1
    case TypesScanned(_) => 2
    case TypeHandled(_, _, _) => 2
    case RuntimeSubmitted(_) => 3
  }

  /** Events whose stages never go back. */
  ghost predicate InStageOrder(s: seq<Event>)
  {
    forall i, j :: 0 <= i < j < |s| ==> Stage(s[i]) <= Stage(s[j])
  }

  /** Appending a run of stage `n` after a prefix in stage order that stays at or below `n`. */
  lemma ThenKeepsStageOrder(a: Trace, b: Trace, n: nat)
    requires InStageOrder(a.events) && forall i :: 0 <= i < |a.events| ==> Stage(a.events[i]) <= n
    requires forall i :: 0 <= i < |b.events| ==> Stage(b.events[i]) == n
    ensures InStageOrder(Then(a, b).events)
    ensures forall i :: 0 <= i < |Then(a, b).events| ==> Stage(Then(a, b).events[i]) <= n
  {
  }

  /** The passes over a detector's matches produce only detector calls, each of its own stage. */
  lemma MatchStages(d: Detector, tag: TypeName, cp: Classpath, registry: map<TypeName, Instance>)
    ensures forall i :: 0 <= i < |MethodMatches(d, cp.AnnotatedMethods(tag), registry).events| ==>
      MethodMatches(d, cp.AnnotatedMethods(tag), registry).events[i].MethodHandled? &&
      Stage(MethodMatches(d, cp.AnnotatedMethods(tag), registry).events[i]) == 0
    ensures forall i :: 0 <= i < |FieldMatches(d, cp.AnnotatedFields(tag)).events| ==>
      FieldMatches(d, cp.AnnotatedFields(tag)).events[i].FieldHandled? &&
      Stage(FieldMatches(d, cp.AnnotatedFields(tag)).events[i]) == 1
    ensures forall i :: 0 <= i < |TypeMatches(d, cp.AnnotatedTypes(tag)).events| ==>
      TypeMatches(d, cp.AnnotatedTypes(tag)).events[i].TypeHandled? &&
      Stage(TypeMatches(d, cp.AnnotatedTypes(tag)).events[i]) == 2
  {
    MethodMatchesSound(d, cp.AnnotatedMethods(tag), registry);
    FieldMatchesSound(d, cp.AnnotatedFields(tag));
    TypeMatchesSound(d, cp.AnnotatedTypes(tag));
  }

  /**
   * Within one detector, every method event comes before every field event,
   * which comes before every type event; a detector submits no runtime.
   */
  lemma DetectorStageOrder(d: Detector, cached: set<TypeName>, cp: Classpath, registry: map<TypeName, Instance>)
    ensures InStageOrder(DetectorTrace(d, cached, cp, registry).events)
    ensures forall i :: 0 <= i < |DetectorTrace(d, cached, cp, registry).events| ==>
      Stage(DetectorTrace(d, cached, cp, registry).events[i]) <= 2
  {
    var tag := d.tag.name;
    var miss := tag !in cached;
    MatchStages(d, tag, cp, registry);
    var t1 := Scan(MethodsScanned(tag), miss);
    var t2 := Then(t1, MethodMatches(d, cp.AnnotatedMethods(tag), registry));
    ThenKeepsStageOrder(t1, MethodMatches(d, cp.AnnotatedMethods(tag), registry), 0);
    var t3 := Then(t2, Scan(FieldsScanned(tag), miss));
    ThenKeepsStageOrder(t2, Scan(FieldsScanned(tag), miss), 1);
    var t4 := Then(t3, FieldMatches(d, cp.AnnotatedFields(tag)));
    ThenKeepsStageOrder(t3, FieldMatches(d, cp.AnnotatedFields(tag)), 1);
    var t5 := Then(t4, Scan(TypesScanned(tag), miss));
    ThenKeepsStageOrder(t4, Scan(TypesScanned(tag), miss), 2);
    ThenKeepsStageOrder(t5, TypeMatches(d, cp.AnnotatedTypes(tag)), 2);
  }

  /** An event reporting a classpath scan. */
  predicate IsScan(e: Event)
  {
    e.MethodsScanned? || e.FieldsScanned? || e.TypesScanned?
  }

  lemma ThenCount(a: Trace, b: Trace, e: Event)
    ensures Count(Then(a, b).events, e) <= Count(a.events, e) + Count(b.events, e)
  {
    if a.failure.None? {
      CountAppend(a.events, b.events, e);
    }
  }

  /** A detector triggers a scan only for its own tag, and only when the group's caches lack it; at most once per kind. */
  lemma DetectorScans(d: Detector, cached: set<TypeName>, cp: Classpath, registry: map<TypeName, Instance>, e: Event)
    requires IsScan(e)
    ensures Count(DetectorTrace(d, cached, cp, registry).events, e) <= if e.tag == d.tag.name && e.tag !in cached then 1 else 0
  {
    var tag := d.tag.name;
    var miss := tag !in cached;
    MatchStages(d, tag, cp, registry);
    var ms := MethodMatches(d, cp.AnnotatedMethods(tag), registry);
    var fs := FieldMatches(d, cp.AnnotatedFields(tag));
    var ts := TypeMatches(d, cp.AnnotatedTypes(tag));
    CountAbsent(ms.events, e);
    CountAbsent(fs.events, e);
    CountAbsent(ts.events, e);
    var s1 := Scan(MethodsScanned(tag), miss);
    var s2 := Scan(FieldsScanned(tag), miss);
    var s3 := Scan(TypesScanned(tag), miss);
    assert Count(s1.events, e) + Count(s2.events, e) + Count(s3.events, e) <= if e.tag == tag && miss then 1 else 0;
    var t1 := Then(s1, ms);
    ThenCount(s1, ms, e);
    var t2 := Then(t1, s2);
    ThenCount(t1, s2, e);
    var t3 := Then(t2, fs);
    ThenCount(t2, fs, e);
    var t4 := Then(t3, s3);
    ThenCount(t3, s3, e);
    ThenCount(t4, ts, e);
  }

  /** Within a group, each scan for a tag happens at most once, and never for a tag already cached. */
  lemma {:induction false} GroupScans(group: seq<Detector>, cached: set<TypeName>, cp: Classpath, registry: map<TypeName, Instance>, e: Event)
    requires IsScan(e)
    ensures Count(GroupFrom(group, cached, cp, registry).events, e) <= if e.tag in cached then 0 else 1
    decreases |group|
  {
    if group != [] {
      DetectorScans(group[0], cached, cp, registry, e);
      GroupScans(group[1..], cached + {group[0].tag.name}, cp, registry, e);
      ThenCount(DetectorTrace(group[0], cached, cp, registry), GroupFrom(group[1..], cached + {group[0].tag.name}, cp, registry), e);
    }
  }

  /**
   * The group caches: however many detectors of a group share an annotation
   * type, the classpath is scanned for its methods, fields and types at most
   * once each within that group.
   */
  lemma ScannedAtMostOncePerGroup(group: seq<Detector>, cp: Classpath, registry: map<TypeName, Instance>, e: Event)
    requires IsScan(e)
    ensures Count(GroupTrace(group, cp, registry).events, e) <= 1
  {
    GroupScans(group, {}, cp, registry, e);
  }

  /** When `a` completes, the events of `Then(a, b)` count those of `a` and of `b` exactly. */
  lemma ThenCountExact(a: Trace, b: Trace, e: Event)
    requires a.failure.None?
    ensures Count(Then(a, b).events, e) == Count(a.events, e) + Count(b.events, e)
  {
    CountAppend(a.events, b.events, e);
  }

  /** `Then` keeps the first event of its first trace in front. */
  lemma ThenHead(a: Trace, b: Trace)
    requires a.events != []
    ensures Then(a, b).events != [] && Then(a, b).events[0] == a.events[0]
  {
  }

  /**
   * The scanner does run: the first thing a group does is scan the classpath
   * for the methods of its first detector's annotation type, since the group's
   * caches start empty.
   */
  lemma GroupStartsWithScan(group: seq<Detector>, cp: Classpath, registry: map<TypeName, Instance>)
    requires group != []
    ensures GroupTrace(group, cp, registry).events != []
    ensures GroupTrace(group, cp, registry).events[0] == MethodsScanned(group[0].tag.name)
  {
    var d := group[0];
    var tag := d.tag.name;
    var s1 := Scan(MethodsScanned(tag), true);
    var t1 := Then(s1, MethodMatches(d, cp.AnnotatedMethods(tag), registry));
    ThenHead(s1, MethodMatches(d, cp.AnnotatedMethods(tag), registry));
    var t2 := Then(t1, Scan(FieldsScanned(tag), true));
    ThenHead(t1, Scan(FieldsScanned(tag), true));
    var t3 := Then(t2, FieldMatches(d, cp.AnnotatedFields(tag)));
    ThenHead(t2, FieldMatches(d, cp.AnnotatedFields(tag)));
    var t4 := Then(t3, Scan(TypesScanned(tag), true));
    ThenHead(t3, Scan(TypesScanned(tag), true));
    var t5 := Then(t4, TypeMatches(d, cp.AnnotatedTypes(tag)));
    ThenHead(t4, TypeMatches(d, cp.AnnotatedTypes(tag)));
    assert t5 == DetectorTrace(d, {}, cp, registry);
    ThenHead(t5, GroupFrom(group[1..], {tag}, cp, registry));
    assert {} + {tag} == {tag};
  }

  /** A detector that completes scans its own tag exactly once per kind when the tag is not cached, and otherwise not at all. */
  lemma DetectorScansExact(d: Detector, cached: set<TypeName>, cp: Classpath, registry: map<TypeName, Instance>, e: Event)
    requires IsScan(e) && DetectorTrace(d, cached, cp, registry).failure.None?
    ensures Count(DetectorTrace(d, cached, cp, registry).events, e) == if e.tag == d.tag.name && e.tag !in cached then 1 else 0
  {
    var tag := d.tag.name;
    var miss := tag !in cached;
    MatchStages(d, tag, cp, registry);
    var ms := MethodMatches(d, cp.AnnotatedMethods(tag), registry);
    var fs := FieldMatches(d, cp.AnnotatedFields(tag));
    var ts := TypeMatches(d, cp.AnnotatedTypes(tag));
    CountAbsent(ms.events, e);
    CountAbsent(fs.events, e);
    CountAbsent(ts.events, e);
    var s1 := Scan(MethodsScanned(tag), miss);
    var s2 := Scan(FieldsScanned(tag), miss);
    var s3 := Scan(TypesScanned(tag), miss);
    assert Count(s1.events, e) + Count(s2.events, e) + Count(s3.events, e) == if e.tag == tag && miss then 1 else 0;
    var t1 := Then(s1, ms);
    var t2 := Then(t1, s2);
    var t3 := Then(t2, fs);
    var t4 := Then(t3, s3);
    assert t4.failure.None? && t3.failure.None? && t2.failure.None? && t1.failure.None?;
    ThenCountExact(s1, ms, e);
    ThenCountExact(t1, s2, e);
    ThenCountExact(t2, fs, e);
    ThenCountExact(t3, s3, e);
    ThenCountExact(t4, ts, e);
  }

  /** The annotation types of a group's detectors. */
  function GroupTags(group: seq<Detector>): set<TypeName>
  {
    set d | d in group :: d.tag.name
  }

  lemma GroupTagsFirst(group: seq<Detector>)
    requires group != []
    ensures GroupTags(group) == {group[0].tag.name} + GroupTags(group[1..])
  {
    assert group == [group[0]] + group[1..];
  }

  /** A group that completes scans each tag of its detectors exactly once per kind, unless it was cached before. */
  lemma {:induction false} GroupScansExact(group: seq<Detector>, cached: set<TypeName>, cp: Classpath, registry: map<TypeName, Instance>, e: Event)
    requires IsScan(e) && GroupFrom(group, cached, cp, registry).failure.None?
    ensures Count(GroupFrom(group, cached, cp, registry).events, e) == if e.tag !in cached && e.tag in GroupTags(group) then 1 else 0
    decreases |group|
  {
    if group != [] {
      var first := DetectorTrace(group[0], cached, cp, registry);
      var rest := GroupFrom(group[1..], cached + {group[0].tag.name}, cp, registry);
      assert first.failure.None? && rest.failure.None?;
      DetectorScansExact(group[0], cached, cp, registry, e);
      GroupScansExact(group[1..], cached + {group[0].tag.name}, cp, registry, e);
      ThenCountExact(first, rest, e);
      GroupTagsFirst(group);
    }
  }

  /** How many of the groups have a detector for `tag`. */
  function GroupsUsing(groups: seq<seq<Detector>>, tag: TypeName): (n: nat)
    ensures n <= |groups|
  {
    if groups == [] then 0
    else (if tag in GroupTags(groups[0]) then 1 else 0) + GroupsUsing(groups[1..], tag)
  }

  /**
   * The caches do not outlive a group: a detection pass that completes scans
   * a tag once per kind in every group with a detector for it.
   */
  lemma {:induction false} DetectionScans(groups: seq<seq<Detector>>, cp: Classpath, registry: map<TypeName, Instance>, e: Event)
    requires IsScan(e) && DetectionTrace(groups, cp, registry).failure.None?
    ensures Count(DetectionTrace(groups, cp, registry).events, e) == GroupsUsing(groups, e.tag)
    decreases |groups|
  {
    if groups != [] {
      var first := GroupTrace(groups[0], cp, registry);
      var rest := DetectionTrace(groups[1..], cp, registry);
      assert first.failure.None? && rest.failure.None?;
      GroupScansExact(groups[0], {}, cp, registry, e);
      DetectionScans(groups[1..], cp, registry, e);
      ThenCountExact(first, rest, e);
    }
  }

  /** The same group registered twice scans its first tag twice: the second run starts from empty caches again. */
  lemma GroupRepeatedRescans(g: seq<Detector>, cp: Classpath, registry: map<TypeName, Instance>)
    requires g != [] && GroupTrace(g, cp, registry).failure.None?
    ensures Count(DetectionTrace([g, g], cp, registry).events, MethodsScanned(g[0].tag.name)) == 2
  {
    var groups := [g, g];
    assert groups[1..] == [g] && groups[1..][1..] == [];
    assert DetectionTrace(groups[1..], cp, registry) == Then(GroupTrace(g, cp, registry), Empty);
    assert DetectionTrace(groups, cp, registry).failure.None?;
    DetectionScans(groups, cp, registry, MethodsScanned(g[0].tag.name));
    assert g[0].tag.name in GroupTags(g);
  }

  /** Appending a trace whose stages are bounded by `n` keeps them bounded. */
  lemma ThenStageBound(a: Trace, b: Trace, n: nat)
    requires forall i :: 0 <= i < |a.events| ==> Stage(a.events[i]) <= n
    requires forall i :: 0 <= i < |b.events| ==> Stage(b.events[i]) <= n
    ensures forall i :: 0 <= i < |Then(a, b).events| ==> Stage(Then(a, b).events[i]) <= n
  {
  }

  /** A group's detectors submit no runtime. */
  lemma {:induction false} GroupSubmitsNothing(group: seq<Detector>, cached: set<TypeName>, cp: Classpath, registry: map<TypeName, Instance>)
    ensures forall i :: 0 <= i < |GroupFrom(group, cached, cp, registry).events| ==> Stage(GroupFrom(group, cached, cp, registry).events[i]) <= 2
    decreases |group|
  {
    if group != [] {
      DetectorStageOrder(group[0], cached, cp, registry);
      GroupSubmitsNothing(group[1..], cached + {group[0].tag.name}, cp, registry);
      ThenStageBound(DetectorTrace(group[0], cached, cp, registry), GroupFrom(group[1..], cached + {group[0].tag.name}, cp, registry), 2);
    }
  }

  /** The detection pass of a module submits no runtime. */
  lemma {:induction false} DetectionSubmitsNothing(groups: seq<seq<Detector>>, cp: Classpath, registry: map<TypeName, Instance>)
    ensures forall i :: 0 <= i < |DetectionTrace(groups, cp, registry).events| ==> !DetectionTrace(groups, cp, registry).events[i].RuntimeSubmitted?
    ensures forall i :: 0 <= i < |DetectionTrace(groups, cp, registry).events| ==> Stage(DetectionTrace(groups, cp, registry).events[i]) <= 2
    decreases |groups|
  {
    if groups != [] {
      GroupSubmitsNothing(groups[0], {}, cp, registry);
      DetectionSubmitsNothing(groups[1..], cp, registry);
      ThenStageBound(GroupTrace(groups[0], cp, registry), DetectionTrace(groups[1..], cp, registry), 2);
    }
  }

  /** Each runtime is submitted as often as it occurs among the module's runtimes. */
  lemma {:induction false} SubmissionCount(runtimes: seq<Runtime>, r: Runtime)
    ensures Count(SubmissionTrace(runtimes).events, RuntimeSubmitted(r)) == Count(runtimes, r)
    decreases |runtimes|
  {
    if runtimes != [] {
      SubmissionCount(runtimes[1..], r);
      assert SubmissionTrace(runtimes).events == [RuntimeSubmitted(runtimes[0])] + SubmissionTrace(runtimes[1..]).events;
      CountAppend([RuntimeSubmitted(runtimes[0])], SubmissionTrace(runtimes[1..]).events, RuntimeSubmitted(r));
      assert [RuntimeSubmitted(runtimes[0])][1..] == [];
    }
  }

  /**
   * A module's runtimes are submitted only after its whole detection pass,
   * each once per occurrence, and none at all when detection throws.
   */
  lemma ModuleSubmitsAfterDetection(m: Module, cp: Classpath, registry: map<TypeName, Instance>, r: Runtime)
    ensures DetectionTrace(m.groups, cp, registry).failure.Some? ==> ModuleTrace(m, cp, registry) == DetectionTrace(m.groups, cp, registry)
    ensures DetectionTrace(m.groups, cp, registry).failure.None? ==>
      ModuleTrace(m, cp, registry).events[..|DetectionTrace(m.groups, cp, registry).events|] == DetectionTrace(m.groups, cp, registry).events
    ensures Count(ModuleTrace(m, cp, registry).events, RuntimeSubmitted(r)) ==
      if DetectionTrace(m.groups, cp, registry).failure.None? then Count(m.runtimes, r) else 0
  {
    var d := DetectionTrace(m.groups, cp, registry);
    DetectionSubmitsNothing(m.groups, cp, registry);
    CountAbsent(d.events, RuntimeSubmitted(r));
    if d.failure.None? {
      var t := ModuleTrace(m, cp, registry);
      assert t.events == d.events + SubmissionTrace(m.runtimes).events;
      assert t.events[..|d.events|] == d.events;
      CountAppend(d.events, SubmissionTrace(m.runtimes).events, RuntimeSubmitted(r));
      SubmissionCount(m.runtimes, r);
    }
  }

  /** A run that does not throw submits every runtime of every module. */
  lemma {:induction false} RunSubmitsEveryRuntime(modules: seq<Module>, cp: Classpath, registry: map<TypeName, Instance>, k: nat, r: Runtime)
    requires k < |modules| && r in modules[k].runtimes
    requires AppTrace(modules, cp, registry).failure.None?
    ensures RuntimeSubmitted(r) in AppTrace(modules, cp, registry).events
    decreases |modules|
  {
    var head := ModuleTrace(modules[0], cp, registry);
    var rest := AppTrace(modules[1..], cp, registry);
    assert AppTrace(modules, cp, registry).events == head.events + rest.events;
    if k == 0 {
      ModuleSubmitsAfterDetection(modules[0], cp, registry, r);
      CountAbsent(modules[0].runtimes, r);
      CountAbsent(head.events, RuntimeSubmitted(r));
    } else {
      RunSubmitsEveryRuntime(modules[1..], cp, registry, k - 1, r);
    }
  }
}
