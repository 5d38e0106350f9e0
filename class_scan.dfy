/**
 * The classpath scan the compiler and its lints query: for every scanned
 * class, its names, ancestry, flags and declared constructors.
 */
module ClassScan {
  import opened Seqs

  const RESOURCE: string := "bz.gsn.djinn.core.resource.Resource"
  const DJINN_MODULE: string := "bz.gsn.djinn.core.module.DjinnModule"

  /** A declared constructor: whether it is public, its parameters as text, and its modifiers as text. */
  datatype CtorInfo = CtorInfo(isPublic: bool, params: seq<string>, modifiers: string)

  /** One scanned class; `ancestors` holds every class it extends, directly or not. */
  datatype ClassInfo = ClassInfo(
    name: string,
    simpleName: string,
    superclass: string,
    ancestors: set<string>,
    isAnonymous: bool,
    isFinal: bool,
    isAbstract: bool,
    ctors: seq<CtorInfo>)

  /** The result of scanning the classpath. */
  datatype ScanResult = ScanResult(classes: seq<ClassInfo>)

  /** `getSubclasses(base)`: the scanned classes extending `base`, directly or not, in scan order. */
  function Subclasses(scan: ScanResult, base: string): (r: seq<ClassInfo>)
    ensures forall k :: 0 <= k < |r| ==> r[k] in scan.classes && base in r[k].ancestors
    ensures forall k :: 0 <= k < |scan.classes| && base in scan.classes[k].ancestors ==> scan.classes[k] in r
  {
    Filter(scan.classes, (c: ClassInfo) => base in c.ancestors)
  }

  /** The location a class diagnostic reports: `"class " + name`. */
  function ClassLocation(name: string): string
  {
    "class " + name
  }

  /** Distinct class names give distinct locations. */
  lemma ClassLocationInjective(a: string, b: string)
    ensures ClassLocation(a) == ClassLocation(b) ==> a == b
  {
    if ClassLocation(a) == ClassLocation(b) {
      assert a == ClassLocation(a)[6..];
      assert b == ClassLocation(b)[6..];
    }
  }

  /** Class names identify the scanned classes. */
  predicate UniqueNames(scan: ScanResult)
  {
    forall i, j :: 0 <= i < |scan.classes| && 0 <= j < |scan.classes| && scan.classes[i].name == scan.classes[j].name ==> i == j
  }

  /** Membership in `getSubclasses(base)`, without indices. */
  lemma SubclassesMember(scan: ScanResult, base: string, c: ClassInfo)
    ensures c in Subclasses(scan, base) <==> c in scan.classes && base in c.ancestors
  {
    var subs := Subclasses(scan, base);
    if c in subs {
      var k :| 0 <= k < |subs| && subs[k] == c;
    }
    if c in scan.classes && base in c.ancestors {
      var k :| 0 <= k < |scan.classes| && scan.classes[k] == c;
    }
  }

  /** With unique names, two scanned classes of the same name are the same class. */
  lemma SameNameSameClass(scan: ScanResult, a: ClassInfo, b: ClassInfo)
    requires UniqueNames(scan) && a in scan.classes && b in scan.classes && a.name == b.name
    ensures a == b
  {
    var i :| 0 <= i < |scan.classes| && scan.classes[i] == a;
    var j :| 0 <= j < |scan.classes| && scan.classes[j] == b;
  }
}
