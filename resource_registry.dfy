/**
 * `AppResourceRegistry`: one instance of every discovered resource class,
 * created once through its public no-argument constructor and keyed by the
 * instance's exact runtime class. The map never changes afterwards.
 */
module ResourceRegistry {
  import opened Wrappers
  import opened Reflect

  /**
   * What `MethodHandles.publicLookup().findConstructor(c, ()V)` finds for a
   * class: nothing, a no-argument constructor that is not public, or a public
   * one (whose body may throw when invoked).
   */
  datatype NoArgConstructor = Missing | NotPublic | Public(throws: bool)

  /** Why building the registry fails. */
  datatype RegistryError =
    | NoSuchMethod(message: string)   // NoSuchMethodException, with the source's message
    | ConstructionFailed(cls: TypeName) // the constructor itself threw

  /** The constructor oracle; a class it does not list has no no-argument constructor. */
  function ConstructorOf(ctors: map<TypeName, NoArgConstructor>, c: TypeName): NoArgConstructor
  {
    if c in ctors then ctors[c] else Missing
  }

  /** Looking up and invoking the no-argument constructor of `c`, making object number `serial`. */
  function Instantiate(c: TypeName, ctors: map<TypeName, NoArgConstructor>, serial: nat): (r: Result<Instance, RegistryError>)
    ensures r.Ok? <==> ConstructorOf(ctors, c) == Public(false)
    ensures r.Ok? ==> r.value == Instance(c, serial)
  {
    match ConstructorOf(ctors, c)
    case Missing => Err(NoSuchMethod("Resource " + c + " must expose a public no-args constructor"))
    case NotPublic => Err(NoSuchMethod("The no-args constructor of " + c + " must be public"))
    case Public(throws) => if throws then Err(ConstructionFailed(c)) else Ok(Instance(c, serial))
  }

  /** The stream stage: every class instantiated in order, failing at the first class that cannot be. */
  function Instances(classes: seq<TypeName>, ctors: map<TypeName, NoArgConstructor>): Result<seq<Instance>, RegistryError>
    decreases |classes|
  {
    if classes == [] then Ok([]) else
      var n := |classes| - 1;
      match Instances(classes[..n], ctors)
      case Err(e) => Err(e)
      case Ok(done) =>
        match Instantiate(classes[n], ctors, n)
        case Err(e) => Err(e)
        case Ok(x) => Ok(done + [x])
  }

  /** The `for` loop: each instance put under its runtime class, a later instance replacing an earlier one. */
  function Entries(instances: seq<Instance>): map<TypeName, Instance>
    decreases |instances|
  {
    if instances == [] then map[] else
      var n := |instances| - 1;
      Entries(instances[..n])[instances[n].cls := instances[n]]
  }

  /** The registry's entries for a set of resource classes, or why it cannot be built. */
  function Registry(classes: seq<TypeName>, ctors: map<TypeName, NoArgConstructor>): Result<map<TypeName, Instance>, RegistryError>
  {
    match Instances(classes, ctors)
    case Err(e) => Err(e)
    case Ok(xs) => Ok(Entries(xs))
  }

  /** Instantiation succeeds exactly when every class has a public no-argument constructor that does not throw; then class `k` yields object number `k`. */
  lemma {:induction false} InstancesSpec(classes: seq<TypeName>, ctors: map<TypeName, NoArgConstructor>)
    ensures Instances(classes, ctors).Ok? <==>
      forall k :: 0 <= k < |classes| ==> ConstructorOf(ctors, classes[k]) == Public(false)
    ensures Instances(classes, ctors).Ok? ==>
      Instances(classes, ctors).value == seq(|classes|, k requires 0 <= k < |classes| => Instance(classes[k], k))
    decreases |classes|
  {
    if classes != [] {
      var n := |classes| - 1;
      InstancesSpec(classes[..n], ctors);
      if Instances(classes, ctors).Ok? {
        var xs := Instances(classes[..n], ctors).value;
        assert seq(|classes|, k requires 0 <= k < |classes| => Instance(classes[k], k))
          == xs + [Instance(classes[n], n)];
      }
    }
  }

  /**
   * A failing build reports the first class without a usable constructor: a
   * missing constructor and a non-public one give different messages.
   */
  lemma {:induction false} FirstFailureReported(classes: seq<TypeName>, ctors: map<TypeName, NoArgConstructor>, i: nat)
    requires i < |classes| && ConstructorOf(ctors, classes[i]) != Public(false)
    requires forall k :: 0 <= k < i ==> ConstructorOf(ctors, classes[k]) == Public(false)
    ensures Registry(classes, ctors) == Err(Instantiate(classes[i], ctors, i).error)
    decreases |classes|
  {
    var n := |classes| - 1;
    if i < n {
      assert classes[..n][i] == classes[i];
      FirstFailureReported(classes[..n], ctors, i);
    } else {
      InstancesSpec(classes[..n], ctors);
    }
  }

  /** Every instance is stored under its own runtime class, and the keys are exactly the instances' classes. */
  lemma {:induction false} EntriesSpec(instances: seq<Instance>)
    ensures forall t :: t in Entries(instances) ==> Entries(instances)[t].cls == t
    ensures forall t :: t in Entries(instances) <==> exists x :: x in instances && x.cls == t
    decreases |instances|
  {
    if instances != [] {
      var n := |instances| - 1;
      EntriesSpec(instances[..n]);
      assert instances == instances[..n] + [instances[n]];
    }
  }

  /**
   * A successful build has one entry per input class, holding an instance whose
   * exact class is that key; no other class has an entry.
   */
  lemma RegistrySpec(classes: seq<TypeName>, ctors: map<TypeName, NoArgConstructor>)
    requires Registry(classes, ctors).Ok?
    ensures var m := Registry(classes, ctors).value;
      && (forall t :: t in m <==> t in classes)
      && (forall t :: t in m ==> m[t].cls == t)
  {
    InstancesSpec(classes, ctors);
    var xs := Instances(classes, ctors).value;
    EntriesSpec(xs);
    forall t | t in classes ensures exists x :: x in xs && x.cls == t {
      var k :| 0 <= k < |classes| && classes[k] == t;
      assert xs[k] == Instance(t, k);
    }
  }

  /** The registry handed to detectors and runtimes. */
  class AppResourceRegistry {
    /** Fixed when the registry is made: no member ever replaces or removes an entry. */
    const resourceEntries: map<TypeName, Instance>

    constructor FromEntries(entries: map<TypeName, Instance>)
      ensures resourceEntries == entries
    {
      resourceEntries := entries;
    }

    /**
     * Instantiates every class through its public no-argument constructor and
     * stores each instance under its runtime class; fails with the source's
     * `NoSuchMethodException` messages when a class has no such constructor.
     */
    static method Create(classes: seq<TypeName>, ctors: map<TypeName, NoArgConstructor>)
      returns (r: Result<AppResourceRegistry, RegistryError>)
      ensures r.Ok? <==> Registry(classes, ctors).Ok?
      ensures r.Ok? ==> fresh(r.value) && r.value.resourceEntries == Registry(classes, ctors).value
      ensures r.Err? ==> r.error == Registry(classes, ctors).error
    {
      var resources: seq<Instance> := [];
      var i := 0;
      while i < |classes|
        invariant 0 <= i <= |classes|
        invariant Instances(classes[..i], ctors) == Ok(resources)
      {
        assert classes[..i + 1][..i] == classes[..i];
        var made := Instantiate(classes[i], ctors, i);
        if made.Err? {
          FailurePropagates(classes, ctors, i + 1);
          return Err(made.error);
        }
        resources := resources + [made.value];
        i := i + 1;
      }
      assert classes[..i] == classes;
      var entries: map<TypeName, Instance> := map[];
      var j := 0;
      while j < |resources|
        invariant 0 <= j <= |resources|
        invariant entries == Entries(resources[..j])
      {
        assert resources[..j + 1][..j] == resources[..j];
        entries := entries[resources[j].cls := resources[j]];
        j := j + 1;
      }
      assert resources[..j] == resources;
      var reg := new AppResourceRegistry.FromEntries(entries);
      return Ok(reg);
    }

    /** `getResource`: present exactly when `t` itself is a key; a superclass of a key finds nothing. */
    function GetResource(t: TypeName): (r: Option<Instance>)
      ensures r.Some? <==> t in resourceEntries
      ensures r.Some? ==> r.value == resourceEntries[t]
    {
      if t in resourceEntries then Some(resourceEntries[t]) else None
    }
  }

  /** Once a prefix fails, every longer list fails with the same error. */
  lemma {:induction false} FailurePropagates(classes: seq<TypeName>, ctors: map<TypeName, NoArgConstructor>, i: nat)
    requires 0 < i <= |classes|
    requires Instances(classes[..i], ctors).Err?
    ensures Registry(classes, ctors) == Err(Instances(classes[..i], ctors).error)
    decreases |classes| - i
  {
    if i == |classes| {
      assert classes[..i] == classes;
    } else {
      assert classes[..i + 1][..i] == classes[..i];
      FailurePropagates(classes, ctors, i + 1);
    }
  }
}
