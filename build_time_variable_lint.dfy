/**
 * `BuildTimeVariableLint`: every build-time variable must be `key=value`
 * with a well-formed key, and (once some entry is well formed) no entry may
 * repeat an earlier one.
 */
module BuildTimeVariableLint {
  import opened Seqs
  import opened JavaText
  import opened Diagnostics

  const FORM_MESSAGE: string := "Keys must be followed by a `=` character, then a value"
  const FORM_NOTE: string := "Add a `=` character to separate the key and the value"
  const KEY_MESSAGE: string := "Keys must match the regex [a-zA-Z0-9_-]+(\\.*[a-zA-Z0-9_-]+)*"
  const KEY_NOTES: seq<string> := ["Modify the key to match the regex", "The regex is similar to Java qualifiers", "Hyphens and leading digits are also permitted"]
  const DUPLICATE_NOTE: string := "Use a different key"

  // The key pattern [a-zA-Z0-9_-]+(\.*[a-zA-Z0-9_-]+)* as a deterministic automaton.

  /** A character of the class `[a-zA-Z0-9_-]`. */
  predicate IsWordChar(c: char)
  {
    ('a' <= c <= 'z') || ('A' <= c <= 'Z') || ('0' <= c <= '9') || c == '_' || c == '-'
  }

  /**
   * Automaton states: nothing read yet, inside a run of word characters
   * (the only accepting state), inside a run of dots, or rejected.
   */
  datatype KeyState = Start | InWord | InDots | Rejected

  function KeyStep(st: KeyState, c: char): KeyState
  {
    match st
    case Start => if IsWordChar(c) then InWord else Rejected
    case InWord => if IsWordChar(c) then InWord else if c == '.' then InDots else Rejected
    case InDots => if IsWordChar(c) then InWord else if c == '.' then InDots else Rejected
    case Rejected => Rejected
  }

  function KeyRun(st: KeyState, s: string): KeyState
    decreases |s|
  {
    if s == [] then st else KeyRun(KeyStep(st, s[0]), s[1..])
  }

  /** `key.matches("[a-zA-Z0-9_-]+(\\.*[a-zA-Z0-9_-]+)*")`: the whole key is accepted. */
  predicate KeyMatches(key: string)
  {
    KeyRun(Start, key) == InWord
  }

  /** Every character is a word character or a dot. */
  predicate KeyChars(s: string)
  {
    forall k :: 0 <= k < |s| ==> IsWordChar(s[k]) || s[k] == '.'
  }

  lemma {:induction false} RejectedStays(s: string)
    ensures KeyRun(Rejected, s) == Rejected
  {
    if s != [] {
      RejectedStays(s[1..]);
    }
  }

  /** What the automaton accepts from the two states that follow a word character. */
  lemma {:induction false} AcceptedAfterWord(s: string)
    ensures KeyRun(InWord, s) == InWord <==> KeyChars(s) && (s == [] || s[|s| - 1] != '.')
    ensures KeyRun(InDots, s) == InWord <==> KeyChars(s) && s != [] && s[|s| - 1] != '.'
  {
    if s != [] {
      AcceptedAfterWord(s[1..]);
      RejectedStays(s[1..]);
      assert KeyChars(s) <==> (IsWordChar(s[0]) || s[0] == '.') && KeyChars(s[1..]) by {
        assert forall k :: 1 <= k < |s| ==> s[k] == s[1..][k - 1];
      }
      if |s| == 1 {
        assert s[|s| - 1] == s[0];
      } else {
        assert s[|s| - 1] == s[1..][|s[1..]| - 1];
      }
    }
  }

  /**
   * The key pattern holds exactly for the non-empty keys made of
   * `[A-Za-z0-9_.-]` whose first and last characters are not dots.
   */
  lemma KeyMatchesIff(key: string)
    ensures KeyMatches(key) <==> |key| > 0 && KeyChars(key) && key[0] != '.' && key[|key| - 1] != '.'
  {
    if key != [] {
      AcceptedAfterWord(key[1..]);
      RejectedStays(key[1..]);
      assert KeyChars(key) <==> (IsWordChar(key[0]) || key[0] == '.') && KeyChars(key[1..]) by {
        assert forall k :: 1 <= k < |key| ==> key[k] == key[1..][k - 1];
      }
      if |key| > 1 {
        assert key[|key| - 1] == key[1..][|key[1..]| - 1];
      }
    }
  }

  /** Runs of dots and leading digits or hyphens are allowed. */
  lemma KeyExamplesAccepted()
    ensures KeyMatches("a..b") && KeyMatches("-0") && KeyMatches("bz.gsn_dj")
  {
    KeyMatchesIff("a..b");
    KeyMatchesIff("-0");
    KeyMatchesIff("bz.gsn_dj");
  }

  /** Empty keys, edge dots and spaces are not. */
  lemma KeyExamplesRejected()
    ensures !KeyMatches("") && !KeyMatches(".a") && !KeyMatches("a.") && !KeyMatches(" a")
  {
    KeyMatchesIff("a.");
  }

  // The diagnostics, entry by entry.

  /** The location of an entry: the trimmed entry between single quotes. */
  function EntryLocation(bt: string): string
  {
    "'" + Trim(bt) + "'"
  }

  /** An entry that passes both checks: it has a `=`, and the (untrimmed) text before it is a key. */
  predicate IsWellFormed(bt: string)
  {
    '=' in bt && KeyMatches(SplitOnFirstEquals(bt)[0])
  }

  /** The diagnostic an entry gets from the form and key checks, if any. */
  function EntryDiagnostics(bt: string): (r: seq<Diagnostic>)
    ensures |r| <= 1
    ensures r == [] <==> IsWellFormed(bt)
    ensures |r| == 1 ==> r[0].level == Error && r[0].location == EntryLocation(bt)
    ensures |r| == 1 ==> (r[0].code == 2 <==> '=' !in bt) && (r[0].code == 3 <==> '=' in bt)
  {
    var split := SplitOnFirstEquals(bt);
    if |split| != 2 then [Diagnostic(Error, 2, FORM_MESSAGE, EntryLocation(bt), [FORM_NOTE])]
    else if !KeyMatches(split[0]) then [Diagnostic(Error, 3, KEY_MESSAGE, EntryLocation(bt), KEY_NOTES)]
    else []
  }

  /** The form and key diagnostics of all entries, in entry order. */
  function FormDiagnostics(btv: seq<string>): (r: seq<Diagnostic>)
    ensures |r| <= |btv|
    ensures forall k :: 0 <= k < |r| ==> r[k].level == Error && (r[k].code == 2 || r[k].code == 3)
  {
    if btv == [] then []
    else FormDiagnostics(btv[..|btv| - 1]) + EntryDiagnostics(btv[|btv| - 1])
  }

  /** Some entry passed both checks, which clears the `errored` flag. */
  predicate AnyWellFormed(btv: seq<string>)
  {
    btv != [] && (AnyWellFormed(btv[..|btv| - 1]) || IsWellFormed(btv[|btv| - 1]))
  }

  /** `AnyWellFormed` holds exactly when some entry is well formed. */
  lemma {:induction false} AnyWellFormedIff(btv: seq<string>)
    ensures AnyWellFormed(btv) <==> exists k :: 0 <= k < |btv| && IsWellFormed(btv[k])
  {
    if btv != [] {
      var prefix := btv[..|btv| - 1];
      AnyWellFormedIff(prefix);
      assert forall k :: 0 <= k < |prefix| ==> prefix[k] == btv[k];
    }
  }

  /** The entries that equal an earlier entry (the ones `elements.add` rejects), in order. */
  function Duplicates(btv: seq<string>): (r: seq<string>)
    ensures |r| <= |btv|
  {
    if btv == [] then []
    else
      var prefix := btv[..|btv| - 1];
      Duplicates(prefix) + (if btv[|btv| - 1] in prefix then [btv[|btv| - 1]] else [])
  }

  /** The error for one duplicate: its key is the text before its first `=` (the whole entry if it has none). */
  function DuplicateError(dup: string): (d: Diagnostic)
    ensures d.level == Error && d.code == 4 && d.location == EntryLocation(dup) && d.notes == [DUPLICATE_NOTE]
    ensures '=' !in dup ==> d.message == "Duplicate key " + dup
  {
    Diagnostic(Error, 4, "Duplicate key " + SplitOnFirstEquals(dup)[0], EntryLocation(dup), [DUPLICATE_NOTE])
  }

  function DuplicateErrors(dups: seq<string>): (r: seq<Diagnostic>)
    ensures |r| == |dups|
    ensures forall k :: 0 <= k < |r| ==> r[k] == DuplicateError(dups[k])
  {
    if dups == [] then [] else [DuplicateError(dups[0])] + DuplicateErrors(dups[1..])
  }

  /** What `lint` emits: form and key errors in entry order, then the duplicate errors when some entry was well formed. */
  function Lint(btv: seq<string>): (r: seq<Diagnostic>)
    ensures forall k :: 0 <= k < |r| ==> r[k].level == Error
  {
    FormDiagnostics(btv) + (if AnyWellFormed(btv) then DuplicateErrors(Duplicates(btv)) else [])
  }

  // Properties of the lint.

  /** Each value occurring n > 0 times among the entries is reported n - 1 times as a duplicate. */
  lemma {:induction false} DuplicatesCount(btv: seq<string>, x: string)
    ensures Count(Duplicates(btv), x) == if x in btv then Count(btv, x) - 1 else 0
  {
    if btv == [] {
    } else {
      var prefix := btv[..|btv| - 1];
      var last := btv[|btv| - 1];
      assert btv == prefix + [last];
      DuplicatesCount(prefix, x);
      CountAppend(prefix, [last], x);
      CountAppend(Duplicates(prefix), if last in prefix then [last] else [], x);
      CountAbsent(prefix, x);
      CountAbsent(btv, x);
      assert x in btv <==> x in prefix || x == last;
    }
  }

  /** Every entry passed both checks. */
  predicate AllWellFormed(btv: seq<string>)
  {
    btv == [] || (AllWellFormed(btv[..|btv| - 1]) && IsWellFormed(btv[|btv| - 1]))
  }

  /** `AllWellFormed` holds exactly when every entry is well formed. */
  lemma {:induction false} AllWellFormedIff(btv: seq<string>)
    ensures AllWellFormed(btv) <==> forall k :: 0 <= k < |btv| ==> IsWellFormed(btv[k])
  {
    if btv != [] {
      var prefix := btv[..|btv| - 1];
      AllWellFormedIff(prefix);
      if AllWellFormed(btv) {
        forall k | 0 <= k < |btv|
          ensures IsWellFormed(btv[k])
        {
          if k < |prefix| {
            assert btv[k] == prefix[k];
          }
        }
      }
      if forall k :: 0 <= k < |btv| ==> IsWellFormed(btv[k]) {
        forall k | 0 <= k < |prefix|
          ensures IsWellFormed(prefix[k])
        {
          assert prefix[k] == btv[k];
        }
      }
    }
  }

  lemma {:induction false} NoFormDiagnosticsRec(btv: seq<string>)
    ensures |FormDiagnostics(btv)| == 0 <==> AllWellFormed(btv)
  {
    if btv != [] {
      NoFormDiagnosticsRec(btv[..|btv| - 1]);
    }
  }

  /** There are no form or key errors exactly when every entry is well formed. */
  lemma NoFormDiagnostics(btv: seq<string>)
    ensures |FormDiagnostics(btv)| == 0 <==> forall k :: 0 <= k < |btv| ==> IsWellFormed(btv[k])
  {
    NoFormDiagnosticsRec(btv);
    AllWellFormedIff(btv);
  }

  /** When no entry is well formed, each gets exactly one form or key error. */
  lemma {:induction false} MalformedCount(btv: seq<string>)
    requires !AnyWellFormed(btv)
    ensures |FormDiagnostics(btv)| == |btv|
  {
    if btv != [] {
      MalformedCount(btv[..|btv| - 1]);
    }
  }

  /** When no entry passes both checks, duplicate detection is skipped: one code 2 or 3 error per entry and nothing else. */
  lemma AllMalformed(btv: seq<string>)
    requires forall k :: 0 <= k < |btv| ==> !IsWellFormed(btv[k])
    ensures |Lint(btv)| == |btv|
    ensures forall k :: 0 <= k < |Lint(btv)| ==> Lint(btv)[k].code != 4
  {
    AnyWellFormedIff(btv);
    MalformedCount(btv);
  }

  /** `key=value` passes both checks exactly when the key matches; its reported key is `key`. */
  lemma WellFormedEntry(key: string, value: string)
    requires '=' !in key
    ensures IsWellFormed(key + "=" + value) <==> KeyMatches(key)
    ensures SplitOnFirstEquals(key + "=" + value)[0] == key
  {
    SplitAtFirstEquals(key, value);
    assert (key + "=" + value)[|key|] == '=';
  }

  /** A duplicate written `key=value` is reported under `key`. */
  lemma DuplicateKeyMessage(key: string, value: string)
    requires '=' !in key
    ensures DuplicateError(key + "=" + value).message == "Duplicate key " + key
  {
    WellFormedEntry(key, value);
  }

  /** `a.b=1` and `a.b=2`: two different entries, both well formed, with the one dotted key `a.b`. */
  lemma DottedEntries()
    ensures IsWellFormed("a.b=1") && IsWellFormed("a.b=2") && "a.b=1" != "a.b=2"
    ensures SplitOnFirstEquals("a.b=1")[0] == "a.b" == SplitOnFirstEquals("a.b=2")[0]
  {
    KeyMatchesIff("a.b");
    WellFormedEntry("a.b", "1");
    assert "a.b" + "=" + "1" == "a.b=1";
    WellFormedEntry("a.b", "2");
    assert "a.b" + "=" + "2" == "a.b=2";
    assert "a.b=1"[4] != "a.b=2"[4];
  }

  /** `x=1` and `a=1` are well formed, and `x=1` reports the key `x`. */
  lemma ShortEntries()
    ensures IsWellFormed("x=1") && IsWellFormed("a=1")
    ensures SplitOnFirstEquals("x=1")[0] == "x"
  {
    KeyMatchesIff("x");
    KeyMatchesIff("a");
    WellFormedEntry("x", "1");
    assert "x" + "=" + "1" == "x=1";
    WellFormedEntry("a", "1");
    assert "a" + "=" + "1" == "a=1";
  }

  /** Duplicates compare whole entries: two different well-formed entries (such as `a.b=1`, `a.b=2`) draw nothing. */
  lemma DistinctValuesAccepted(e1: string, e2: string)
    requires IsWellFormed(e1) && IsWellFormed(e2) && e1 != e2
    ensures Lint([e1, e2]) == []
  {
    var btv := [e1, e2];
    assert btv[..0] == [] && btv[..1] == [e1] && btv[..2] == btv;
    FormStep(btv, 0);
    FormStep(btv, 1);
    DuplicatesStep(btv, 0);
    DuplicatesStep(btv, 1);
  }

  /** A well-formed entry given twice is reported once. */
  lemma RepeatedEntryReported(e: string)
    requires IsWellFormed(e)
    ensures Lint([e, e]) == [DuplicateError(e)]
  {
    var btv := [e, e];
    assert btv[..0] == [] && btv[..1] == [e] && btv[..2] == btv;
    FormStep(btv, 0);
    FormStep(btv, 1);
    DuplicatesStep(btv, 0);
    DuplicatesStep(btv, 1);
    WellFormedStep(btv, 1);
  }

  /** A malformed entry given twice gets one code 2 error each and no duplicate error, since nothing is well formed. */
  lemma MalformedDuplicatesIgnored(k: string)
    requires '=' !in k
    ensures |Lint([k, k])| == 2 && Lint([k, k])[0].code == 2 && Lint([k, k])[1].code == 2
  {
    var btv := [k, k];
    assert btv[..0] == [] && btv[..1] == [k] && btv[..2] == btv;
    AllMalformed(btv);
    FormStep(btv, 0);
    FormStep(btv, 1);
  }

  /** Once another entry is well formed, a repeated malformed entry is reported as a duplicate too, under its whole text. */
  lemma MalformedDuplicateReported(k: string, e: string)
    requires '=' !in k && IsWellFormed(e)
    ensures |Lint([k, k, e])| == 3 && Lint([k, k, e])[2] == DuplicateError(k)
    ensures DuplicateError(k).message == "Duplicate key " + k
  {
    MixedForm(k, e);
    MixedDuplicates(k, e);
  }

  /** In `k, k, e` the two `k` entries get form errors and `e` is well formed. */
  lemma MixedForm(k: string, e: string)
    requires '=' !in k && IsWellFormed(e)
    ensures |FormDiagnostics([k, k, e])| == 2
    ensures AnyWellFormed([k, k, e])
  {
    MalformedDuplicatesIgnored(k);
    var btv := [k, k, e];
    assert btv[..2] == [k, k] && btv[..3] == btv;
    FormStep(btv, 2);
    WellFormedStep(btv, 2);
  }

  /** In `k, k, e` with `e` holding a `=` and `k` none, the repeated `k` is the one duplicate. */
  lemma MixedDuplicates(k: string, e: string)
    requires '=' !in k && '=' in e
    ensures Duplicates([k, k, e]) == [k]
  {
    var btv := [k, k, e];
    assert btv[..0] == [] && btv[..1] == [k] && btv[..2] == [k, k] && btv[..3] == btv;
    DuplicatesStep(btv, 0);
    DuplicatesStep(btv, 1);
    DuplicatesStep(btv, 2);
    assert e != k;
  }

  // The lint as the source runs it: two loops over the entries and one over the duplicates.

  /** Checks one entry, emitting its diagnostic if any; reports whether it was well formed. */
  method CheckEntry(bt: string, emitter: DCDiagnosticEmitter) returns (wellFormed: bool)
    modifies emitter
    ensures wellFormed == IsWellFormed(bt)
    ensures emitter.diagnostics == old(emitter.diagnostics) + EntryDiagnostics(bt)
  {
    var split := SplitOnFirstEquals(bt);
    var loc := "'" + Trim(bt) + "'";
    wellFormed := false;
    if |split| != 2 {
      emitter.EmitError(2, FORM_MESSAGE, loc, [FORM_NOTE]);
    } else if !KeyMatches(split[0]) {
      emitter.EmitError(3, KEY_MESSAGE, loc, KEY_NOTES);
    } else {
      wellFormed := true;
    }
  }

  /** `btv.stream().filter(n -> !elements.add(n)).toList()` with `elements` starting empty. */
  method FindDuplicates(btv: seq<string>) returns (dups: seq<string>)
    ensures dups == Duplicates(btv)
  {
    var elements: set<string> := {};
    dups := [];
    var i := 0;
    while i < |btv|
      invariant 0 <= i <= |btv|
      invariant elements == set k | 0 <= k < i :: btv[k]
      invariant dups == Duplicates(btv[..i])
    {
      var n := btv[i];
      assert btv[..i + 1][..i] == btv[..i];
      assert n in btv[..i] <==> n in elements by {
        if n in btv[..i] {
          var k :| 0 <= k < i && btv[..i][k] == n;
          assert btv[k] == n;
        }
      }
      if n in elements {
        dups := dups + [n];
      } else {
        elements := elements + {n};
      }
      i := i + 1;
    }
    assert btv[..i] == btv;
  }

  /** Emits one duplicate error. */
  method ReportDuplicate(dup: string, emitter: DCDiagnosticEmitter)
    modifies emitter
    ensures emitter.diagnostics == old(emitter.diagnostics) + [DuplicateError(dup)]
  {
    var split := SplitOnFirstEquals(dup);
    emitter.EmitError(4, "Duplicate key " + split[0], "'" + Trim(dup) + "'", [DUPLICATE_NOTE]);
  }

  /** The first loop: the form and key checks, entry by entry; `errored` stays set while no entry passed both. */
  method CheckEntries(btv: seq<string>, emitter: DCDiagnosticEmitter) returns (errored: bool)
    modifies emitter
    ensures errored <==> !AnyWellFormed(btv)
    ensures emitter.diagnostics == old(emitter.diagnostics) + FormDiagnostics(btv)
  {
    errored := true;
    var i := 0;
    while i < |btv|
      invariant 0 <= i <= |btv|
      invariant emitter.diagnostics == old(emitter.diagnostics) + FormDiagnostics(btv[..i])
      invariant errored <==> !AnyWellFormed(btv[..i])
    {
      var ok := CheckEntry(btv[i], emitter);
      FormStep(btv, i);
      AppendAssoc(old(emitter.diagnostics), FormDiagnostics(btv[..i]), EntryDiagnostics(btv[i]));
      if ok {
        errored := false;
      }
      WellFormedStep(btv, i);
      i := i + 1;
    }
    assert btv[..i] == btv;
  }

  lemma FormStep(btv: seq<string>, i: nat)
    requires i < |btv|
    ensures FormDiagnostics(btv[..i + 1]) == FormDiagnostics(btv[..i]) + EntryDiagnostics(btv[i])
  {
    assert btv[..i + 1][..i] == btv[..i];
    assert btv[..i + 1][i] == btv[i];
  }

  lemma DuplicatesStep(btv: seq<string>, i: nat)
    requires i < |btv|
    ensures Duplicates(btv[..i + 1]) == Duplicates(btv[..i]) + (if btv[i] in btv[..i] then [btv[i]] else [])
  {
    assert btv[..i + 1][..i] == btv[..i];
    assert btv[..i + 1][i] == btv[i];
  }

  lemma WellFormedStep(btv: seq<string>, i: nat)
    requires i < |btv|
    ensures AnyWellFormed(btv[..i + 1]) <==> AnyWellFormed(btv[..i]) || IsWellFormed(btv[i])
  {
    assert btv[..i + 1][..i] == btv[..i];
    assert btv[..i + 1][i] == btv[i];
  }

  /** The last loop: one error per duplicate, in order. */
  method ReportDuplicates(dups: seq<string>, emitter: DCDiagnosticEmitter)
    modifies emitter
    ensures emitter.diagnostics == old(emitter.diagnostics) + DuplicateErrors(dups)
  {
    var j := 0;
    assert dups[0..] == dups;
    while j < |dups|
      invariant 0 <= j <= |dups|
      invariant old(emitter.diagnostics) + DuplicateErrors(dups) == emitter.diagnostics + DuplicateErrors(dups[j..])
    {
      assert dups[j..][1..] == dups[j + 1..];
      ghost var before := emitter.diagnostics;
      ReportDuplicate(dups[j], emitter);
      AppendAssoc(before, [DuplicateError(dups[j])], DuplicateErrors(dups[j + 1..]));
      j := j + 1;
    }
    assert dups[j..] == [];
  }

  /** `lint`: the form and key checks entry by entry, then duplicate detection unless every entry failed. */
  method RunLint(btv: seq<string>, emitter: DCDiagnosticEmitter)
    modifies emitter
    ensures emitter.diagnostics == old(emitter.diagnostics) + Lint(btv)
  {
    var errored := CheckEntries(btv, emitter);
    if !errored {
      var dups := FindDuplicates(btv);
      ghost var before := emitter.diagnostics;
      ReportDuplicates(dups, emitter);
      AppendAssoc(old(emitter.diagnostics), FormDiagnostics(btv), DuplicateErrors(dups));
    }
  }
}
