/**
 * Abstract records standing in for Java reflection, method handles and the
 * classpath scanner. Everything the core learns through reflection is a field
 * here; the scanner is an oracle mapping an annotation type to its matches.
 */
module Reflect {
  import opened Wrappers

  /** A fully qualified class name; class identity is name identity. */
  type TypeName = string

  /** `java.lang.annotation.ElementType`. */
  datatype ElementKind =
    | TypeKind | FieldKind | MethodKind | ParameterKind | ConstructorKind
    | LocalVariableKind | AnnotationTypeKind | PackageKind | TypeParameterKind
    | TypeUseKind | ModuleKind | RecordComponentKind

  /**
   * An annotation type: its class name and the element kinds listed in its
   * `@Target`, or `None` when the annotation type carries no `@Target`.
   */
  datatype TagType = TagType(name: TypeName, target: Option<seq<ElementKind>>)

  /** An annotation instance found on a declaration: its type and its value. */
  datatype Annotation = Annotation(typ: TypeName, value: string)

  /** `element.getAnnotation(type)`: the annotation of that type, or null. */
  function AnnotationOf(annotations: seq<Annotation>, typ: TypeName): (r: Option<Annotation>)
    ensures r.Some? ==> r.value in annotations && r.value.typ == typ
    ensures r.None? <==> forall k :: 0 <= k < |annotations| ==> annotations[k].typ != typ
  {
    if annotations == [] then None
    else if annotations[0].typ == typ then Some(annotations[0])
    else AnnotationOf(annotations[1..], typ)
  }

  /**
   * A declared method parameter: its type, whether that type is assignable to
   * `Resource`, and whether the parameter carries `@Inject`.
   */
  datatype Param = Param(name: string, typ: TypeName, isResourceType: bool, injected: bool)

  /** `java.lang.reflect.Modifier.STATIC`. */
  const STATIC_BIT: nat := 0x0008

  /** `Modifier.isStatic`: the STATIC bit of the modifier word is set. */
  predicate IsStatic(modifiers: nat)
  {
    (modifiers / STATIC_BIT) % 2 == 1
  }

  /**
   * Handle slots taken by the receiver: 1 for an instance method, 0 for a
   * static one. Both the resolver's position counter and the parameter scan
   * of `MethodInfo` start here.
   */
  function ReceiverSlots(modifiers: nat): nat
  {
    if IsStatic(modifiers) then 0 else 1
  }

  /** A reflected method. */
  datatype MethodDecl = MethodDecl(
    name: string,
    owner: TypeName,
    modifiers: nat,
    params: seq<Param>,
    returnType: TypeName,
    thrown: seq<TypeName>,
    annotations: seq<Annotation>)

  /** A reflected field. */
  datatype FieldDecl = FieldDecl(name: string, owner: TypeName, annotations: seq<Annotation>)

  /** A reflected class. */
  datatype TypeDecl = TypeDecl(name: TypeName, annotations: seq<Annotation>)

  /** An object; `cls` is its exact runtime class. */
  datatype Instance = Instance(cls: TypeName, serial: nat)

  /** A value bound into a handle by `insertArguments`, at the position it was bound at. */
  datatype Binding = Binding(position: nat, value: Instance)

  /**
   * A method handle, reduced to its parameter types, its return type and the
   * arguments already bound into it.
   */
  datatype Handle = Handle(params: seq<TypeName>, returnType: TypeName, bound: seq<Binding>)

  /**
   * `MethodHandles.publicLookup().unreflect(m)`: an instance method's handle
   * takes the receiver first, then the declared parameters.
   */
  function Unreflect(m: MethodDecl): (h: Handle)
    ensures |h.params| == |m.params| + ReceiverSlots(m.modifiers)
    ensures !IsStatic(m.modifiers) ==> h.params[0] == m.owner
    ensures h.bound == [] && h.returnType == m.returnType
  {
    var types := seq(|m.params|, k requires 0 <= k < |m.params| => m.params[k].typ);
    Handle(if IsStatic(m.modifiers) then types else [m.owner] + types, m.returnType, [])
  }

  /** Declared parameter `k` of the method sits at slot `ReceiverSlots + k` of its handle. */
  lemma UnreflectSlot(m: MethodDecl, k: nat)
    requires k < |m.params|
    ensures Unreflect(m).params[ReceiverSlots(m.modifiers) + k] == m.params[k].typ
  {
  }

  /** Why `insertArguments` throws. */
  datatype InsertError =
    | PositionOutOfRange(position: nat, arity: nat)   // IllegalArgumentException
    | IncompatibleValue(position: nat, slot: TypeName) // ClassCastException

  /**
   * `MethodHandles.insertArguments(h, pos, v)` with one value: the handle with
   * parameter `pos` bound to `v` and removed. It throws when `pos` is not a
   * parameter position of `h`, or when `v` does not fit the parameter's type.
   */
  function InsertArgument(h: Handle, pos: nat, v: Instance): (r: Result<Handle, InsertError>)
    ensures r.Ok? <==> pos < |h.params| && h.params[pos] == v.cls
    ensures r.Ok? ==>
      && r.value.params == h.params[..pos] + h.params[pos + 1..]
      && r.value.bound == h.bound + [Binding(pos, v)]
      && r.value.returnType == h.returnType
  {
    if pos >= |h.params| then Err(PositionOutOfRange(pos, |h.params|))
    else if h.params[pos] != v.cls then Err(IncompatibleValue(pos, h.params[pos]))
    else Ok(Handle(h.params[..pos] + h.params[pos + 1..], h.returnType, h.bound + [Binding(pos, v)]))
  }

  /** An annotation detector, reduced to its identity and the annotation type it detects. */
  datatype Detector = Detector(id: nat, tag: TagType)

  /** A module runtime (a background task). */
  datatype Runtime = Runtime(id: nat)

  /**
   * A `DjinnModule`: its detector groups and runtimes, each in the order the
   * module's sets are iterated.
   */
  datatype Module = Module(groups: seq<seq<Detector>>, runtimes: seq<Runtime>)

  /**
   * The classpath scanner: for each annotation type, the methods, fields and
   * types carrying it, in iteration order. A type absent from a map has no match.
   */
  datatype Classpath = Classpath(
    methods: map<TypeName, seq<MethodDecl>>,
    fields: map<TypeName, seq<FieldDecl>>,
    types: map<TypeName, seq<TypeDecl>>)
  {
    /** `Classpath.annotatedMethods`. */
    function AnnotatedMethods(tag: TypeName): seq<MethodDecl>
    {
      if tag in methods then methods[tag] else []
    }

    /** `Classpath.annotatedFields`. */
    function AnnotatedFields(tag: TypeName): seq<FieldDecl>
    {
      if tag in fields then fields[tag] else []
    }

    /** `Classpath.annotatedTypes`. */
    function AnnotatedTypes(tag: TypeName): seq<TypeDecl>
    {
      if tag in types then types[tag] else []
    }
  }
}
