/**
 * `Djinn.ModuleBuilder`: collects detector groups and runtimes, then builds a
 * module once; every later call on it throws.
 */
module Djinn {
  import opened Wrappers
  import opened Reflect

  /** `UnsupportedOperationException("the builder was already consumed")`. */
  datatype UsageError = AlreadyConsumed

  /** A call the built module makes on itself while it is constructed. */
  datatype Registration =
    | RuntimesRegistered(runtimes: set<Runtime>)
    | DetectorRegistered(detector: Detector)

  /** The detectors of the groups, group after group, each group in list order. */
  function Flatten(groups: seq<seq<Detector>>): (r: seq<Detector>)
    decreases |groups|
  {
    if groups == [] then [] else groups[0] + Flatten(groups[1..])
  }

  /** Every detector of every group occurs in the flattened sequence. */
  lemma {:induction false} FlattenContains(groups: seq<seq<Detector>>, i: nat, k: nat)
    requires i < |groups| && k < |groups[i]|
    ensures groups[i][k] in Flatten(groups)
    decreases |groups|
  {
    if i > 0 {
      FlattenContains(groups[1..], i - 1, k);
    }
  }

  /** Every flattened detector comes from one of the groups. */
  lemma {:induction false} FlattenFrom(groups: seq<seq<Detector>>, d: Detector)
    requires d in Flatten(groups)
    ensures exists i, k :: 0 <= i < |groups| && 0 <= k < |groups[i]| && groups[i][k] == d
    decreases |groups|
  {
    if d !in groups[0] {
      FlattenFrom(groups[1..], d);
      var i, k :| 0 <= i < |groups[1..]| && 0 <= k < |groups[1..][i]| && groups[1..][i][k] == d;
      assert groups[i + 1][k] == d;
    } else {
      var k :| 0 <= k < |groups[0]| && groups[0][k] == d;
    }
  }

  /** The calls of the built module's constructor, for groups enumerated in `order`. */
  function Registrations(runtimes: set<Runtime>, order: seq<seq<Detector>>): seq<Registration>
  {
    var ds := Flatten(order);
    [RuntimesRegistered(runtimes)] + seq(|ds|, k requires 0 <= k < |ds| => DetectorRegistered(ds[k]))
  }

  /**
   * The built module registers all runtimes in one first call, then each
   * detector of each group by itself: exactly the detectors of the groups.
   */
  lemma RegistrationsSpec(runtimes: set<Runtime>, order: seq<seq<Detector>>, d: Detector)
    ensures Registrations(runtimes, order)[0] == RuntimesRegistered(runtimes)
    ensures forall k :: 1 <= k < |Registrations(runtimes, order)| ==> Registrations(runtimes, order)[k].DetectorRegistered?
    ensures DetectorRegistered(d) in Registrations(runtimes, order) <==>
      exists i, k :: 0 <= i < |order| && 0 <= k < |order[i]| && order[i][k] == d
  {
    var calls := Registrations(runtimes, order);
    var ds := Flatten(order);
    if DetectorRegistered(d) in calls {
      var k :| 0 <= k < |calls| && calls[k] == DetectorRegistered(d);
      assert ds[k - 1] == d;
      FlattenFrom(order, d);
    }
    if exists i, k :: 0 <= i < |order| && 0 <= k < |order[i]| && order[i][k] == d {
      var i, k :| 0 <= i < |order| && 0 <= k < |order[i]| && order[i][k] == d;
      FlattenContains(order, i, k);
      var j :| 0 <= j < |ds| && ds[j] == d;
      assert calls[j + 1] == DetectorRegistered(d);
    }
  }

  class ModuleBuilder {
    var annotationDetectors: set<seq<Detector>>
    var runtimes: set<Runtime>
    var consumed: bool

    /** `Djinn.module()`: an empty builder that is not consumed. */
    constructor ()
      ensures annotationDetectors == {} && runtimes == {} && !consumed
    {
      annotationDetectors := {};
      runtimes := {};
      consumed := false;
    }

    /** `isConsumed`. */
    function IsConsumed(): (r: bool)
      reads this
      ensures r <==> consumed
    {
      consumed
    }

    /** `register(AnnotationDetector...)`: the argument list becomes one group of the set. */
    method RegisterDetectors(detectors: seq<Detector>) returns (r: Result<ModuleBuilder, UsageError>)
      modifies this
      ensures old(consumed) ==> r == Err(AlreadyConsumed) && unchanged(this)
      ensures !old(consumed) ==>
        && r == Ok(this) && !consumed
        && annotationDetectors == old(annotationDetectors) + {detectors} && runtimes == old(runtimes)
    {
      if consumed {
        return Err(AlreadyConsumed);
      }
      annotationDetectors := annotationDetectors + {detectors};
      return Ok(this);
    }

    /** `register(Runtime...)`: every argument joins the one runtime set. */
    method RegisterRuntimes(rs: seq<Runtime>) returns (r: Result<ModuleBuilder, UsageError>)
      modifies this
      ensures old(consumed) ==> r == Err(AlreadyConsumed) && unchanged(this)
      ensures !old(consumed) ==>
        && r == Ok(this) && !consumed
        && runtimes == old(runtimes) + (set k | 0 <= k < |rs| :: rs[k])
        && annotationDetectors == old(annotationDetectors)
    {
      if consumed {
        return Err(AlreadyConsumed);
      }
      runtimes := runtimes + set k | 0 <= k < |rs| :: rs[k];
      return Ok(this);
    }

    /**
     * `build`: consumes the builder and returns the registrations the new
     * module makes, with `order` the (unspecified) order in which the group
     * set is enumerated: every group exactly once.
     */
    method Build() returns (r: Result<seq<Registration>, UsageError>, order: seq<seq<Detector>>)
      modifies this
      ensures old(consumed) ==> r == Err(AlreadyConsumed) && unchanged(this)
      ensures !old(consumed) ==>
        && consumed && annotationDetectors == old(annotationDetectors) && runtimes == old(runtimes)
        && (forall g :: g in order <==> g in annotationDetectors)
        && (forall i, j :: 0 <= i < j < |order| ==> order[i] != order[j])
        && r == Ok(Registrations(runtimes, order))
    {
      order := [];
      if consumed {
        return Err(AlreadyConsumed), order;
      }
      consumed := true;
      var remaining := annotationDetectors;
      while remaining != {}
        invariant remaining <= annotationDetectors
        invariant forall g :: g in order <==> g in annotationDetectors && g !in remaining
        invariant forall i, j :: 0 <= i < j < |order| ==> order[i] != order[j]
        decreases |remaining|
      {
        var g :| g in remaining;
        order := order + [g];
        remaining := remaining - {g};
      }
      r := Ok(Registrations(runtimes, order));
    }
  }

  /** A fresh builder is not consumed; registering keeps it open, building consumes it, and nothing works after. */
  method BuilderLifecycle(group: seq<Detector>, rs: seq<Runtime>)
  {
    var builder := new ModuleBuilder();
    assert !builder.IsConsumed();
    var r1 := builder.RegisterDetectors(group);
    var r2 := builder.RegisterDetectors(group);
    assert r2 == Ok(builder) && builder.annotationDetectors == {group};
    var r3 := builder.RegisterRuntimes(rs);
    assert !builder.IsConsumed();
    var built, order := builder.Build();
    assert builder.IsConsumed() && built.Ok? && group in order;
    var again, _ := builder.Build();
    var late := builder.RegisterRuntimes(rs);
    assert again == Err(AlreadyConsumed) && late == Err(AlreadyConsumed);
  }
}
