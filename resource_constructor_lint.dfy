/**
 * `ResourceConstructorLint`: every resource must declare a public
 * constructor without parameters, since Djinn instantiates resources itself.
 */
module ResourceConstructorLint {
  import opened Seqs
  import opened JavaText
  import opened Diagnostics
  import opened ClassScan

  const MESSAGE: string := "Resources must have public no-args constructors"
  const UNUSABLE_SUFFIX: string := ") cannot be used for resource instantiation"
  const INSTANTIATED_NOTE: string := "Resources are instantiated by Djinn, so they must have public no-args constructors"

  /** A constructor Djinn can call: public, without parameters. */
  predicate Qualifies(ct: CtorInfo)
  {
    |ct.params| == 0 && ct.isPublic
  }

  /** The classes the lint reports: none of their declared constructors qualifies. */
  predicate Flagged(c: ClassInfo)
  {
    forall k :: 0 <= k < |c.ctors| ==> !Qualifies(c.ctors[k])
  }

  /** The note explaining why one declared constructor cannot be used. */
  function CtorNote(simpleName: string, ct: CtorInfo): string
  {
    (if IsBlank(ct.modifiers) then "" else ct.modifiers)
      + " " + simpleName + "(" + Join(", ", ct.params) + UNUSABLE_SUFFIX
  }

  /** One note per non-qualifying constructor of `ctors`, in declaration order. */
  function UnusableNotes(simpleName: string, ctors: seq<CtorInfo>): (r: seq<string>)
    ensures |r| <= |ctors|
  {
    if ctors == [] then []
    else (if !Qualifies(ctors[0]) then [CtorNote(simpleName, ctors[0])] else []) + UnusableNotes(simpleName, ctors[1..])
  }

  /** The two fixed notes, then one per unusable constructor. */
  function Notes(c: ClassInfo): (r: seq<string>)
    ensures |r| >= 2 && r[0] == INSTANTIATED_NOTE && r[1] == "Try creating public " + c.simpleName + "() { ... }"
  {
    [INSTANTIATED_NOTE, "Try creating public " + c.simpleName + "() { ... }"] + UnusableNotes(c.simpleName, c.ctors)
  }

  /** The error for one flagged class. */
  function ErrorFor(c: ClassInfo): (d: Diagnostic)
    ensures d.level == Error && d.code == 1 && d.message == MESSAGE
    ensures d.location == ClassLocation(c.name)
  {
    Diagnostic(Error, 1, MESSAGE, ClassLocation(c.name), Notes(c))
  }

  /** One error per flagged class of `cs`, in order. */
  function Errors(cs: seq<ClassInfo>): (r: seq<Diagnostic>)
    ensures |r| <= |cs|
    ensures forall k :: 0 <= k < |r| ==> r[k].level == Error && r[k].code == 1 && r[k].message == MESSAGE
  {
    if cs == [] then []
    else (if Flagged(cs[0]) then [ErrorFor(cs[0])] else []) + Errors(cs[1..])
  }

  /** What `lint` emits: one error per flagged subclass of `Resource`, direct or not. */
  function Lint(scan: ScanResult): (r: seq<Diagnostic>)
    ensures |r| <= |scan.classes|
    ensures forall k :: 0 <= k < |r| ==> r[k].level == Error && r[k].code == 1 && r[k].message == MESSAGE
  {
    Errors(Subclasses(scan, RESOURCE))
  }

  /** Builds the notes list of a flagged class the way the lint does, one constructor at a time. */
  method BuildNotes(c: ClassInfo) returns (notes: seq<string>)
    ensures notes == Notes(c)
  {
    notes := [INSTANTIATED_NOTE, "Try creating public " + c.simpleName + "() { ... }"];
    var i := 0;
    while i < |c.ctors|
      invariant 0 <= i <= |c.ctors|
      invariant Notes(c) == notes + UnusableNotes(c.simpleName, c.ctors[i..])
    {
      var ct := c.ctors[i];
      assert c.ctors[i..][1..] == c.ctors[i + 1..];
      if !Qualifies(ct) {
        notes := notes + [CtorNote(c.simpleName, ct)];
      }
      i := i + 1;
    }
  }

  /** The body of the `forEach`: a flagged class gets its error, any other class nothing. */
  method ReportClass(c: ClassInfo, emitter: DCDiagnosticEmitter)
    modifies emitter
    ensures emitter.diagnostics == old(emitter.diagnostics) + (if Flagged(c) then [ErrorFor(c)] else [])
  {
    if Flagged(c) {
      var notes := BuildNotes(c);
      emitter.EmitError(1, MESSAGE, ClassLocation(c.name), notes);
    }
  }

  /** `lint`: emits the error of every flagged subclass of `Resource` through the emitter. */
  method RunLint(scan: ScanResult, emitter: DCDiagnosticEmitter)
    modifies emitter
    ensures emitter.diagnostics == old(emitter.diagnostics) + Lint(scan)
  {
    var subs := Subclasses(scan, RESOURCE);
    var i := 0;
    assert subs[0..] == subs;
    while i < |subs|
      invariant 0 <= i <= |subs|
      invariant old(emitter.diagnostics) + Lint(scan) == emitter.diagnostics + Errors(subs[i..])
    {
      ErrorsStep(subs, i);
      ghost var before := emitter.diagnostics;
      ReportClass(subs[i], emitter);
      AppendAssoc(before, if Flagged(subs[i]) then [ErrorFor(subs[i])] else [], Errors(subs[i + 1..]));
      i := i + 1;
    }
    assert Errors(subs[i..]) == [];
  }

  /** One step of the emission loop: the class at `i` contributes its error, if flagged, ahead of the rest. */
  lemma ErrorsStep(subs: seq<ClassInfo>, i: nat)
    requires i < |subs|
    ensures Errors(subs[i..]) == (if Flagged(subs[i]) then [ErrorFor(subs[i])] else []) + Errors(subs[i + 1..])
  {
    assert subs[i..][1..] == subs[i + 1..];
  }

  /** The errors are exactly those of the flagged classes. */
  lemma {:induction false} ErrorsMembers(cs: seq<ClassInfo>, d: Diagnostic)
    ensures d in Errors(cs) <==> exists c :: c in cs && Flagged(c) && d == ErrorFor(c)
  {
    if cs != [] {
      ErrorsMembers(cs[1..], d);
      assert cs == [cs[0]] + cs[1..];
    }
  }

  /** Every diagnostic of the lint is the error of a flagged subclass of `Resource`. */
  lemma LintSound(scan: ScanResult, d: Diagnostic)
    requires d in Lint(scan)
    ensures exists c :: c in scan.classes && RESOURCE in c.ancestors && Flagged(c) && d == ErrorFor(c)
  {
    ErrorsMembers(Subclasses(scan, RESOURCE), d);
    var c :| c in Subclasses(scan, RESOURCE) && Flagged(c) && d == ErrorFor(c);
    SubclassesMember(scan, RESOURCE, c);
  }

  /** A scanned resource is reported exactly when it declares no public constructor without parameters. */
  lemma LintIff(scan: ScanResult, c: ClassInfo)
    requires UniqueNames(scan)
    requires c in scan.classes && RESOURCE in c.ancestors
    ensures ErrorFor(c) in Lint(scan) <==> !exists k :: 0 <= k < |c.ctors| && |c.ctors[k].params| == 0 && c.ctors[k].isPublic
  {
    var subs := Subclasses(scan, RESOURCE);
    ErrorsMembers(subs, ErrorFor(c));
    SubclassesMember(scan, RESOURCE, c);
    if ErrorFor(c) in Lint(scan) {
      var x :| x in subs && Flagged(x) && ErrorFor(c) == ErrorFor(x);
      SubclassesMember(scan, RESOURCE, x);
      ClassLocationInjective(c.name, x.name);
      SameNameSameClass(scan, c, x);
    }
  }

  /** When no constructor qualifies, every one of them gets its note, in declaration order. */
  lemma {:induction false} AllUnusable(simpleName: string, ctors: seq<CtorInfo>)
    requires forall k :: 0 <= k < |ctors| ==> !Qualifies(ctors[k])
    ensures |UnusableNotes(simpleName, ctors)| == |ctors|
    ensures forall k :: 0 <= k < |ctors| ==> UnusableNotes(simpleName, ctors)[k] == CtorNote(simpleName, ctors[k])
  {
    if ctors != [] {
      AllUnusable(simpleName, ctors[1..]);
    }
  }

  /** A reported class carries 2 + (number of declared constructors) notes: the fixed two, then one per constructor. */
  lemma FlaggedNotes(c: ClassInfo)
    requires Flagged(c)
    ensures |ErrorFor(c).notes| == 2 + |c.ctors|
    ensures forall k :: 0 <= k < |c.ctors| ==> ErrorFor(c).notes[2 + k] == CtorNote(c.simpleName, c.ctors[k])
  {
    AllUnusable(c.simpleName, c.ctors);
  }

  /** A class without any declared constructor is reported with only the two fixed notes. */
  lemma NoConstructorsReported(c: ClassInfo)
    requires c.ctors == []
    ensures Flagged(c) && ErrorFor(c).notes == [INSTANTIATED_NOTE, "Try creating public " + c.simpleName + "() { ... }"]
  {
  }

  /** A blank modifier string is dropped, leaving the leading space; parameters are joined with ", ". */
  lemma CtorNoteExamples()
    ensures CtorNote("Db", CtorInfo(false, [], " ")) == " Db(" + UNUSABLE_SUFFIX
    ensures CtorNote("Db", CtorInfo(true, ["int a", "int b"], "public")) == "public Db(int a, int b" + UNUSABLE_SUFFIX
  {
    assert IsBlank(" ");
    assert Join(", ", []) == "";
    assert CtorNote("Db", CtorInfo(false, [], " ")) == "" + " " + "Db" + "(" + "" + UNUSABLE_SUFFIX;
    assert "public"[0] == 'p' && !IsJavaWhitespace('p');
    assert !IsBlank("public");
    assert Join(", ", ["int a", "int b"]) == "int a, int b" by {
      assert ["int a", "int b"][1..] == ["int b"];
    }
    assert CtorNote("Db", CtorInfo(true, ["int a", "int b"], "public")) == "public" + " " + "Db" + "(" + "int a, int b" + UNUSABLE_SUFFIX;
  }
}
