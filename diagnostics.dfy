/** Diagnostics and the compiler's emitter, which records them in emission order. */
module Diagnostics {

  /** `Diagnostic.Level`. */
  datatype Level = Warning | Error

  /** One diagnostic: level, code, message, location and notes. */
  datatype Diagnostic = Diagnostic(level: Level, code: int, message: string, location: string, notes: seq<string>)

  /** `DjinnCompiler.DCDiagnosticEmitter`: appends every diagnostic to its list. */
  class DCDiagnosticEmitter {
    var diagnostics: seq<Diagnostic>

    constructor ()
      ensures diagnostics == []
    {
      diagnostics := [];
    }

    /** `warning`: one WARNING record, after all earlier ones. */
    method EmitWarning(code: int, info: string, location: string, notes: seq<string>)
      modifies this
      ensures diagnostics == old(diagnostics) + [Diagnostic(Warning, code, info, location, notes)]
    {
      diagnostics := diagnostics + [Diagnostic(Warning, code, info, location, notes)];
    }

    /** `error`: one ERROR record, after all earlier ones. */
    method EmitError(code: int, info: string, location: string, notes: seq<string>)
      modifies this
      ensures diagnostics == old(diagnostics) + [Diagnostic(Error, code, info, location, notes)]
    {
      diagnostics := diagnostics + [Diagnostic(Error, code, info, location, notes)];
    }

    /** Emits the given diagnostics one by one, each through `warning` or `error` according to its level. */
    method EmitAll(ds: seq<Diagnostic>)
      modifies this
      ensures diagnostics == old(diagnostics) + ds
    {
      var i := 0;
      while i < |ds|
        invariant 0 <= i <= |ds|
        invariant diagnostics == old(diagnostics) + ds[..i]
      {
        var d := ds[i];
        if d.level == Warning {
          EmitWarning(d.code, d.message, d.location, d.notes);
        } else {
          EmitError(d.code, d.message, d.location, d.notes);
        }
        assert ds[..i + 1] == ds[..i] + [d];
        i := i + 1;
      }
      assert ds[..i] == ds;
    }
  }
}
