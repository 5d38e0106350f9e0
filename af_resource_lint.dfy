/** `AFResourceLint`: warns about resources that are neither final nor abstract. */
module AFResourceLint {
  import opened Diagnostics
  import opened ClassScan

  const MESSAGE: string := "Resources should be marked as abstract or final"

  /** The classes the lint warns about. */
  predicate Flagged(c: ClassInfo)
  {
    !c.isAnonymous && !c.isFinal && !c.isAbstract
  }

  /** The warning for one flagged class. */
  function WarningFor(c: ClassInfo): (d: Diagnostic)
    ensures d.level == Warning && d.code == 1 && d.message == MESSAGE
    ensures d.location == ClassLocation(c.name)
    ensures |d.notes| == 2
    ensures d.notes[1] == "Try marking " + c.simpleName + " as abstract or final to remove this warning"
  {
    Diagnostic(Warning, 1, MESSAGE, ClassLocation(c.name), ["Only final classes extending Resource are registered", "Try marking " + c.simpleName + " as abstract or final to remove this warning"])
  }

  /** One warning per flagged class of `cs`, in order. */
  function Warnings(cs: seq<ClassInfo>): (r: seq<Diagnostic>)
    ensures |r| <= |cs|
    ensures forall k :: 0 <= k < |r| ==> r[k].level == Warning && r[k].code == 1 && r[k].message == MESSAGE && |r[k].notes| == 2
  {
    if cs == [] then []
    else (if Flagged(cs[0]) then [WarningFor(cs[0])] else []) + Warnings(cs[1..])
  }

  /** `lint`: one warning per flagged subclass of `Resource`; the build-time variables play no part. */
  function Lint(scan: ScanResult): (r: seq<Diagnostic>)
    ensures |r| <= |scan.classes|
    ensures forall k :: 0 <= k < |r| ==> r[k].level == Warning && r[k].code == 1 && r[k].message == MESSAGE && |r[k].notes| == 2
  {
    Warnings(Subclasses(scan, RESOURCE))
  }

  /** The warnings are exactly those of the flagged classes. */
  lemma {:induction false} WarningsMembers(cs: seq<ClassInfo>, d: Diagnostic)
    ensures d in Warnings(cs) <==> exists c :: c in cs && Flagged(c) && d == WarningFor(c)
  {
    if cs != [] {
      WarningsMembers(cs[1..], d);
      var head := if Flagged(cs[0]) then [WarningFor(cs[0])] else [];
      assert Warnings(cs) == head + Warnings(cs[1..]);
      if exists c :: c in cs && Flagged(c) && d == WarningFor(c) {
        var c :| c in cs && Flagged(c) && d == WarningFor(c);
        if c != cs[0] {
          assert c in cs[1..];
        }
      }
    }
  }

  /** Every diagnostic of the lint is the warning of a flagged subclass of `Resource`. */
  lemma LintSound(scan: ScanResult, d: Diagnostic)
    requires d in Lint(scan)
    ensures exists c :: c in scan.classes && RESOURCE in c.ancestors && Flagged(c) && d == WarningFor(c)
  {
    WarningsMembers(Subclasses(scan, RESOURCE), d);
    var c :| c in Subclasses(scan, RESOURCE) && Flagged(c) && d == WarningFor(c);
    SubclassesMember(scan, RESOURCE, c);
  }

  /** A scanned subclass of `Resource` is warned about exactly when it is named (not anonymous) and neither final nor abstract. */
  lemma LintIff(scan: ScanResult, c: ClassInfo)
    requires UniqueNames(scan)
    requires c in scan.classes && RESOURCE in c.ancestors
    ensures WarningFor(c) in Lint(scan) <==> !c.isAnonymous && !c.isFinal && !c.isAbstract
  {
    var subs := Subclasses(scan, RESOURCE);
    WarningsMembers(subs, WarningFor(c));
    SubclassesMember(scan, RESOURCE, c);
    if WarningFor(c) in Lint(scan) {
      var x :| x in subs && Flagged(x) && WarningFor(c) == WarningFor(x);
      SubclassesMember(scan, RESOURCE, x);
      ClassLocationInjective(c.name, x.name);
      SameNameSameClass(scan, c, x);
    }
  }
}
