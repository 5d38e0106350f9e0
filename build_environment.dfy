/**
 * `BuildEnvironmentImpl` and `BuildEnvironment`: the build-time properties,
 * parsed from `key=value` pairings and looked up by key.
 */
module BuildEnvironment {
  import opened Wrappers
  import opened JavaText

  /** Why parsing the pairings throws: the pairing at `position` has no `=`, so it has no `split[1]`. */
  datatype ParseError = MissingSeparator(position: nat)

  /** The trimmed key and value of one pairing, split on its first `=`; `None` when it has no `=`. */
  function Pairing(pair: string): (r: Option<(string, string)>)
    ensures r.None? <==> '=' !in pair
  {
    var split := SplitOnFirstEquals(pair);
    if |split| == 1 then None else Some((Trim(split[0]), Trim(split[1])))
  }

  /** Every pairing, split. */
  function Pairings(pairings: seq<string>): (r: seq<Option<(string, string)>>)
    ensures |r| == |pairings|
    ensures forall i :: 0 <= i < |r| ==> r[i] == Pairing(pairings[i])
  {
    seq(|pairings|, i requires 0 <= i < |pairings| => Pairing(pairings[i]))
  }

  /** The constructor's loop from split pairing `pairs[0]` (at `position`) on, the map holding `acc` so far. */
  function PutAll(acc: map<string, string>, pairs: seq<Option<(string, string)>>, position: nat): Result<map<string, string>, ParseError>
    decreases |pairs|
  {
    if pairs == [] then Ok(acc)
    else match pairs[0]
      case None => Err(MissingSeparator(position))
      case Some(kv) => PutAll(acc[kv.0 := kv.1], pairs[1..], position + 1)
  }

  /** The properties map the constructor builds from `pairings`. */
  function Parse(pairings: seq<string>): Result<map<string, string>, ParseError>
  {
    PutAll(map[], Pairings(pairings), 0)
  }

  /** The immutable build environment: an unmodifiable property map. */
  datatype BuildEnvironmentImpl = BuildEnvironmentImpl(propertiesMap: map<string, string>)
  {
    /** `getProperties`: the stored map itself. */
    function GetProperties(): (r: map<string, string>)
      ensures r == propertiesMap
    {
      propertiesMap
    }

    /** `getProperty(key)`: the property's value, or `None` (Java's null) when the key is absent. */
    function GetProperty(key: string): (r: Option<string>)
      ensures r.None? <==> key !in GetProperties()
      ensures r.Some? ==> r.value == GetProperties()[key]
    {
      if key in propertiesMap then Some(propertiesMap[key]) else None
    }
  }

  /** `new BuildEnvironmentImpl(pairings)`: one `put` per pairing, in order. */
  method NewBuildEnvironment(pairings: seq<string>) returns (r: Result<BuildEnvironmentImpl, ParseError>)
    ensures r.Ok? <==> Parse(pairings).Ok?
    ensures r.Ok? ==> r.value.propertiesMap == Parse(pairings).value
    ensures r.Err? ==> r.error == Parse(pairings).error
  {
    var properties: map<string, string> := map[];
    var i := 0;
    while i < |pairings|
      invariant 0 <= i <= |pairings|
      invariant Parse(pairings) == PutAll(properties, Pairings(pairings)[i..], i)
    {
      assert Pairings(pairings)[i..][1..] == Pairings(pairings)[i + 1..];
      var pairing := Pairing(pairings[i]);
      if pairing.None? {
        return Err(MissingSeparator(i));
      }
      properties := properties[pairing.value.0 := pairing.value.1];
      i := i + 1;
    }
    return Ok(BuildEnvironmentImpl(properties));
  }

  /** Why `getBuildEnvironment` throws. */
  datatype AccessError = NullReference

  /** `getBuildEnvironment`: the stored instance, or a null-reference failure (`requireNonNull`) when it was never set. */
  function GetBuildEnvironment(stored: Option<BuildEnvironmentImpl>): (r: Result<BuildEnvironmentImpl, AccessError>)
    ensures r.Ok? <==> stored.Some?
    ensures r.Ok? ==> r.value == stored.value
  {
    match stored
    case None => Err(NullReference)
    case Some(env) => Ok(env)
  }

  // ---------------------------------------------------------------------------
  // properties of parsing

  /** The loop throws exactly when some pairing lacks `=`, and then at the first such. */
  lemma {:induction false} PutAllFails(acc: map<string, string>, pairs: seq<Option<(string, string)>>, position: nat)
    ensures PutAll(acc, pairs, position).Ok? <==> forall i :: 0 <= i < |pairs| ==> pairs[i].Some?
    ensures PutAll(acc, pairs, position).Err? ==>
      exists i :: 0 <= i < |pairs| && pairs[i].None? && PutAll(acc, pairs, position).error == MissingSeparator(position + i) &&
        forall j :: 0 <= j < i ==> pairs[j].Some?
    decreases |pairs|
  {
    if pairs != [] && pairs[0].Some? {
      var kv := pairs[0].value;
      PutAllFails(acc[kv.0 := kv.1], pairs[1..], position + 1);
      assert forall j :: 0 < j < |pairs| ==> pairs[j] == pairs[1..][j - 1];
      if PutAll(acc, pairs, position).Err? {
        var i :| 0 <= i < |pairs[1..]| && pairs[1..][i].None? &&
          PutAll(acc, pairs, position).error == MissingSeparator(position + 1 + i) && forall j :: 0 <= j < i ==> pairs[1..][j].Some?;
        assert pairs[i + 1] == pairs[1..][i];
      }
    }
  }

  /** The index of the last split pairing whose key is `key`, if any. */
  function LastIndexOf(pairs: seq<Option<(string, string)>>, key: string): (r: Option<nat>)
    requires forall i :: 0 <= i < |pairs| ==> pairs[i].Some?
    ensures r.None? <==> forall i :: 0 <= i < |pairs| ==> pairs[i].value.0 != key
    ensures r.Some? ==> r.value < |pairs| && pairs[r.value].value.0 == key &&
                        forall j :: r.value < j < |pairs| ==> pairs[j].value.0 != key
    decreases |pairs|
  {
    if pairs == [] then None
    else
      var later := LastIndexOf(pairs[1..], key);
      assert forall j :: 0 < j < |pairs| ==> pairs[j] == pairs[1..][j - 1];
      if later.Some? then Some(later.value + 1)
      else if pairs[0].value.0 == key then Some(0)
      else None
  }

  /**
   * The map the loop leaves: the keys of `acc` and of the pairings; a key
   * named by a pairing takes the value of the last one, any other keeps its
   * value in `acc`.
   */
  lemma {:induction false} PutAllContents(acc: map<string, string>, pairs: seq<Option<(string, string)>>, position: nat, key: string)
    requires forall i :: 0 <= i < |pairs| ==> pairs[i].Some?
    ensures PutAll(acc, pairs, position).Ok?
    ensures key in PutAll(acc, pairs, position).value <==> key in acc || LastIndexOf(pairs, key).Some?
    ensures LastIndexOf(pairs, key).Some? ==>
      PutAll(acc, pairs, position).value[key] == pairs[LastIndexOf(pairs, key).value].value.1
    ensures LastIndexOf(pairs, key).None? && key in acc ==> PutAll(acc, pairs, position).value[key] == acc[key]
    decreases |pairs|
  {
    PutAllFails(acc, pairs, position);
    if pairs != [] {
      var kv := pairs[0].value;
      var acc' := acc[kv.0 := kv.1];
      assert forall i :: 0 <= i < |pairs[1..]| ==> pairs[1..][i].Some?;
      PutAllContents(acc', pairs[1..], position + 1, key);
      assert PutAll(acc, pairs, position) == PutAll(acc', pairs[1..], position + 1);
      var later := LastIndexOf(pairs[1..], key);
      if later.Some? {
        assert pairs[1..][later.value] == pairs[later.value + 1];
      }
    }
  }

  /** The key a pairing with `=` contributes. */
  function KeyOf(pair: string): string
    requires '=' in pair
  {
    Pairing(pair).value.0
  }

  /** The value a pairing with `=` contributes. */
  function ValueOf(pair: string): string
    requires '=' in pair
  {
    Pairing(pair).value.1
  }

  /**
   * Parsing succeeds exactly when every pairing has `=`, and otherwise fails
   * at the first pairing without one.
   */
  lemma ParseFails(pairings: seq<string>)
    ensures Parse(pairings).Ok? <==> forall i :: 0 <= i < |pairings| ==> '=' in pairings[i]
    ensures Parse(pairings).Err? ==>
      var p := Parse(pairings).error.position;
      p < |pairings| && '=' !in pairings[p] && forall j :: 0 <= j < p ==> '=' in pairings[j]
  {
    PutAllFails(map[], Pairings(pairings), 0);
  }

  /** The parsed keys are exactly the trimmed keys of the pairings. */
  lemma ParseKeys(pairings: seq<string>, key: string)
    requires forall i :: 0 <= i < |pairings| ==> '=' in pairings[i]
    ensures Parse(pairings).Ok?
    ensures key in Parse(pairings).value <==> exists i :: 0 <= i < |pairings| && KeyOf(pairings[i]) == key
  {
    var split := Pairings(pairings);
    PutAllFails(map[], split, 0);
    PutAllContents(map[], split, 0, key);
    var last := LastIndexOf(split, key);
    if key in Parse(pairings).value {
      assert split[last.value].value.0 == key;
    }
    if exists i :: 0 <= i < |pairings| && KeyOf(pairings[i]) == key {
      var i :| 0 <= i < |pairings| && KeyOf(pairings[i]) == key;
      assert split[i].value.0 == key;
    }
  }

  /** A repeated key takes the value of its last pairing. */
  lemma ParseLastWins(pairings: seq<string>, key: string, i: nat)
    requires forall i :: 0 <= i < |pairings| ==> '=' in pairings[i]
    requires i < |pairings| && KeyOf(pairings[i]) == key
    requires forall j :: i < j < |pairings| ==> KeyOf(pairings[j]) != key
    ensures Parse(pairings).Ok? && key in Parse(pairings).value
    ensures Parse(pairings).value[key] == ValueOf(pairings[i])
  {
    var split := Pairings(pairings);
    PutAllFails(map[], split, 0);
    PutAllContents(map[], split, 0, key);
    var last := LastIndexOf(split, key);
    assert split[i].value.0 == key;
    assert last.Some? && last.value == i;
  }

  /** `"k="` gives the empty value, because the split keeps the trailing empty string. */
  lemma EmptyValueKept()
    ensures Parse(["k="]) == Ok(map["k" := ""])
  {
    assert "k="[1..] == "=";
    assert IndexOf("k=", '=') == Some(1);
    assert "k="[..1] == "k" && "k="[2..] == "";
    assert SplitOnFirstEquals("k=") == ["k", ""];
    assert Trim("k") == "k";
    assert Pairings(["k="]) == [Some(("k", ""))];
  }

  /** `"a.b=1"` gives the single property `a.b` with value `1`. */
  lemma DottedKey()
    ensures Parse(["a.b=1"]) == Ok(map["a.b" := "1"])
  {
    assert "a.b=1"[1..] == ".b=1" && ".b=1"[1..] == "b=1" && "b=1"[1..] == "=1";
    assert IndexOf("=1", '=') == Some(0);
    assert IndexOf("a.b=1", '=') == Some(3);
    assert "a.b=1"[..3] == "a.b" && "a.b=1"[4..] == "1";
    assert SplitOnFirstEquals("a.b=1") == ["a.b", "1"];
    assert Trim("a.b") == "a.b";
    assert Trim("1") == "1";
    assert Pairings(["a.b=1"]) == [Some(("a.b", "1"))];
  }

  /** Only the first `=` splits: the value keeps any further `=`, and both halves are trimmed. */
  lemma PairingSplitsOnFirst(key: string, value: string)
    requires '=' !in key
    ensures Pairing(key + "=" + value) == Some((Trim(key), Trim(value)))
  {
    var s := key + "=" + value;
    assert s[|key|] == '=';
    var i := IndexOf(s, '=').value;
    assert s[..i] == key && s[i + 1..] == value;
  }
}
