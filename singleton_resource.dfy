/** The example project's `SingletonResource`: at most one instance stored per class. */
module SingletonResources {
  import opened Wrappers
  import opened Reflect

  /** `IllegalStateException(singletonClass + " is already registered")`. */
  datatype PutError = AlreadyRegistered(singletonClass: TypeName)

  class SingletonResource {
    var singletons: map<TypeName, Instance>

    constructor ()
      ensures singletons == map[]
    {
      singletons := map[];
    }

    /** `get`: the stored instance, or `None` (Java's null) for a class never put. */
    function Get(singletonClass: TypeName): (r: Option<Instance>)
      reads this
      ensures r.None? <==> singletonClass !in singletons
      ensures r.Some? ==> r.value == singletons[singletonClass]
    {
      if singletonClass in singletons then Some(singletons[singletonClass]) else None
    }

    /** `put`: stores the instance for a class not yet present; a second `put` for the same class throws and changes nothing. */
    method Put(singletonClass: TypeName, singleton: Instance) returns (r: Result<(), PutError>)
      modifies this
      ensures old(singletonClass in singletons) ==> r == Err(AlreadyRegistered(singletonClass)) && unchanged(this)
      ensures old(singletonClass !in singletons) ==> r.Ok? && singletons == old(singletons)[singletonClass := singleton]
      ensures forall c :: c != singletonClass ==> Get(c) == old(Get(c))
      ensures Get(singletonClass) == if old(singletonClass in singletons) then old(Get(singletonClass)) else Some(singleton)
    {
      if singletonClass in singletons {
        return Err(AlreadyRegistered(singletonClass));
      }
      singletons := singletons[singletonClass := singleton];
      return Ok(());
    }
  }

  /** A put followed by gets: the stored instance comes back, other classes stay absent, a second put is refused. */
  method SingletonScenario(c: TypeName, other: TypeName, s: Instance, t: Instance)
    requires c != other
  {
    var resource := new SingletonResource();
    assert resource.Get(c).None?;
    var first := resource.Put(c, s);
    assert first.Ok? && resource.Get(c) == Some(s) && resource.Get(other).None?;
    var second := resource.Put(c, t);
    assert second == Err(AlreadyRegistered(c)) && resource.Get(c) == Some(s);
  }
}
