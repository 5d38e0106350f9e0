/**
 * `MethodInfo`: the reflection-free snapshot of a matched method handed to a
 * detector, whose parameter list hides the parameters bound into the handle.
 */
module MethodInfos {
  import opened Reflect

  /** The scan stops at the first index that is out of bounds for either list. */
  function ScanEnd(declared: seq<Param>, handle: seq<TypeName>): nat
  {
    if |declared| <= |handle| then |declared| else |handle|
  }

  /**
   * Indices `i` in `[lo, hi)` whose declared parameter type is the handle's
   * parameter type at the same index `i`, in increasing order.
   */
  function KeptIndices(declared: seq<Param>, handle: seq<TypeName>, lo: nat, hi: nat): (r: seq<nat>)
    requires hi <= lo || (hi <= |declared| && hi <= |handle|)
    ensures forall k :: 0 <= k < |r| ==> lo <= r[k] < hi
    decreases hi
  {
    if hi <= lo then [] else
      var kept := if declared[hi - 1].typ == handle[hi - 1] then [hi - 1] else [];
      KeptIndices(declared, handle, lo, hi - 1) + kept
  }

  /** The declared parameters at the given indices, in that order. */
  function Project(declared: seq<Param>, indices: seq<nat>): (r: seq<Param>)
    requires forall k :: 0 <= k < |indices| ==> indices[k] < |declared|
    ensures |r| == |indices|
  {
    seq(|indices|, k requires 0 <= k < |indices| => declared[indices[k]])
  }

  /** The parameter list a `MethodInfo` exposes for a method and the handle its detector receives. */
  function VisibleParameters(declared: seq<Param>, handle: seq<TypeName>, modifiers: nat): seq<Param>
  {
    Project(declared, KeptIndices(declared, handle, ReceiverSlots(modifiers), ScanEnd(declared, handle)))
  }

  /**
   * The kept indices are strictly increasing, and index `i` is kept exactly when
   * it lies in the scanned range and the declared type equals the handle's type
   * at `i`.
   */
  lemma {:induction false} KeptIndicesSpec(declared: seq<Param>, handle: seq<TypeName>, lo: nat, hi: nat)
    requires hi <= lo || (hi <= |declared| && hi <= |handle|)
    ensures var r := KeptIndices(declared, handle, lo, hi);
      && (forall a, b :: 0 <= a < b < |r| ==> r[a] < r[b])
      && (forall i :: i in r <==> lo <= i < hi && declared[i].typ == handle[i])
  {
    if hi > lo {
      KeptIndicesSpec(declared, handle, lo, hi - 1);
    }
  }

  /**
   * The visible list is an order-preserving subsequence of the declared list:
   * its `k`-th entry is declared parameter `idx[k]` for strictly increasing
   * indices `idx`, each kept exactly when its type matches the handle's type at
   * that same index, and the list is no longer than either parameter list.
   */
  lemma VisibleParametersSpec(declared: seq<Param>, handle: seq<TypeName>, modifiers: nat)
    ensures var r := VisibleParameters(declared, handle, modifiers);
      var idx := KeptIndices(declared, handle, ReceiverSlots(modifiers), ScanEnd(declared, handle));
      && |r| == |idx| <= ScanEnd(declared, handle)
      && (forall k :: 0 <= k < |r| ==> r[k] == declared[idx[k]])
      && (forall a, b :: 0 <= a < b < |idx| ==> idx[a] < idx[b])
      && (forall i :: i in idx <==>
            ReceiverSlots(modifiers) <= i < ScanEnd(declared, handle) && declared[i].typ == handle[i])
  {
    var lo, hi := ReceiverSlots(modifiers), ScanEnd(declared, handle);
    var idx := KeptIndices(declared, handle, lo, hi);
    KeptIndicesSpec(declared, handle, lo, hi);
    IncreasingBounded(idx, lo, hi);
  }

  /** A strictly increasing list of indices from `[lo, hi)` has at most `hi - lo` entries. */
  lemma {:induction false} IncreasingBounded(idx: seq<nat>, lo: nat, hi: nat)
    requires forall k :: 0 <= k < |idx| ==> lo <= idx[k] < hi
    requires forall a, b :: 0 <= a < b < |idx| ==> idx[a] < idx[b]
    ensures |idx| <= hi
    ensures lo <= hi ==> |idx| <= hi - lo
  {
    if idx != [] {
      var last := idx[|idx| - 1];
      IncreasingBounded(idx[..|idx| - 1], lo, last);
    }
  }

  /** An instance method never exposes its first declared parameter: the scan starts past the receiver slot. */
  lemma InstanceMethodHidesFirstParameter(declared: seq<Param>, handle: seq<TypeName>, modifiers: nat)
    requires !IsStatic(modifiers)
    ensures 0 !in KeptIndices(declared, handle, ReceiverSlots(modifiers), ScanEnd(declared, handle))
  {
    KeptIndicesSpec(declared, handle, ReceiverSlots(modifiers), ScanEnd(declared, handle));
  }

  /** For a static method whose handle types are exactly its declared types, every declared parameter is visible. */
  lemma StaticUnboundKeepsAll(declared: seq<Param>, handle: seq<TypeName>, modifiers: nat)
    requires IsStatic(modifiers)
    requires |handle| == |declared| && forall i :: 0 <= i < |declared| ==> declared[i].typ == handle[i]
    ensures VisibleParameters(declared, handle, modifiers) == declared
  {
    AllKept(declared, handle, |declared|);
  }

  lemma {:induction false} AllKept(declared: seq<Param>, handle: seq<TypeName>, hi: nat)
    requires hi <= |declared| && hi <= |handle|
    requires forall i :: 0 <= i < hi ==> declared[i].typ == handle[i]
    ensures KeptIndices(declared, handle, 0, hi) == seq(hi, i => i)
  {
    if hi > 0 {
      AllKept(declared, handle, hi - 1);
      assert seq(hi, i => i) == seq(hi - 1, i => i) + [hi - 1];
    }
  }

  /** Information on a method, as handed to `AnnotationDetector.handleMethod`. */
  class MethodInfo {
    const name: string
    const thrown: array<TypeName>
    const parameters: array<Param>
    const returnType: TypeName
    const modifiers: nat
    const annotations: array<Annotation>
    const enclosingClass: TypeName

    /**
     * Reads the method's metadata and keeps, scanning declared parameters from
     * index 1 (instance) or 0 (static), those whose type equals the handle's
     * parameter type at the same index, stopping at the first index past the
     * handle's parameters.
     */
    constructor (m: MethodDecl, h: Handle)
      ensures name == m.name && modifiers == m.modifiers && enclosingClass == m.owner
      ensures returnType == h.returnType
      ensures thrown[..] == m.thrown && annotations[..] == m.annotations
      ensures parameters[..] == VisibleParameters(m.params, h.params, m.modifiers)
      ensures fresh(thrown) && fresh(parameters) && fresh(annotations)
    {
      var declared := m.params;
      var hp := h.params;
      var lo := ReceiverSlots(m.modifiers);
      var included: seq<Param> := [];
      var i: nat := lo;
      while i < |declared|
        invariant lo <= i
        invariant i == lo || (i <= |declared| && i <= |hp|)
        invariant included == Project(declared, KeptIndices(declared, hp, lo, i))
      {
        if i >= |hp| {
          break;
        }
        if declared[i].typ == hp[i] {
          included := included + [declared[i]];
        }
        i := i + 1;
      }
      assert i == lo || i == ScanEnd(declared, hp);
      name := m.name;
      thrown := new TypeName[|m.thrown|](k requires 0 <= k < |m.thrown| => m.thrown[k]);
      modifiers := m.modifiers;
      returnType := h.returnType;
      annotations := new Annotation[|m.annotations|](k requires 0 <= k < |m.annotations| => m.annotations[k]);
      enclosingClass := m.owner;
      parameters := new Param[|included|](k requires 0 <= k < |included| => included[k]);
    }

    /** `getParameters`: a fresh copy, so writes to it never reach the stored list. */
    method GetParameters() returns (r: array<Param>)
      ensures fresh(r) && r[..] == parameters[..]
    {
      r := new Param[parameters.Length](k requires 0 <= k < parameters.Length reads parameters => parameters[k]);
    }

    /** `getThrown`: a fresh copy of the declared exception types. */
    method GetThrown() returns (r: array<TypeName>)
      ensures fresh(r) && r[..] == thrown[..]
    {
      r := new TypeName[thrown.Length](k requires 0 <= k < thrown.Length reads thrown => thrown[k]);
    }

    /** `getAnnotations`: the stored array itself, not a copy. */
    function GetAnnotations(): (r: array<Annotation>)
      ensures r == annotations
    {
      annotations
    }

    /** `isInstanceMethod`: true exactly when the STATIC modifier bit is clear. */
    predicate IsInstanceMethod()
      ensures IsInstanceMethod() <==> (modifiers / STATIC_BIT) % 2 != 1
    {
      !IsStatic(modifiers)
    }
  }

  /** Writing into the array `getParameters` returned leaves the `MethodInfo` unchanged. */
  method CopiesAreIsolated(info: MethodInfo, p: Param)
    requires info.parameters.Length > 0
  {
    var before := info.parameters[..];
    var copy := info.GetParameters();
    copy[0] := p;
    assert info.parameters[..] == before;
  }
}
