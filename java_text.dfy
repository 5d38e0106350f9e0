/**
 * The few java.lang.String operations the core relies on, written out with the
 * JDK's exact semantics: `trim`, `split("=", 2)`, `String.join` and `isBlank`.
 */
module JavaText {
  import opened Wrappers

  /** `String.trim` strips every char whose code is at most U+0020. */
  predicate IsTrimmable(c: char) { c <= ' ' }

  /** The index of the first char of `s` at or after `i` that is not trimmable (or `|s|`). */
  function StartIndex(s: string, i: nat): (r: nat)
    requires i <= |s|
    ensures i <= r <= |s|
    decreases |s| - i
  {
    if i < |s| && IsTrimmable(s[i]) then StartIndex(s, i + 1) else i
  }

  /** One past the last char of `s[lo..n]` that is not trimmable (or `lo`). */
  function EndIndex(s: string, lo: nat, n: nat): (r: nat)
    requires lo <= n <= |s|
    ensures lo <= r <= n
  {
    if n > lo && IsTrimmable(s[n - 1]) then EndIndex(s, lo, n - 1) else n
  }

  /** `String.trim`: skip trimmable chars from the front, then from the back of what remains. */
  function Trim(s: string): string
  {
    var st := StartIndex(s, 0);
    s[st..EndIndex(s, st, |s|)]
  }

  lemma {:induction false} StartIndexSpec(s: string, i: nat)
    requires i <= |s|
    ensures StartIndex(s, i) == |s| || !IsTrimmable(s[StartIndex(s, i)])
    ensures forall k :: i <= k < StartIndex(s, i) ==> IsTrimmable(s[k])
    decreases |s| - i
  {
    if i < |s| && IsTrimmable(s[i]) {
      StartIndexSpec(s, i + 1);
    }
  }

  lemma {:induction false} EndIndexSpec(s: string, lo: nat, n: nat)
    requires lo <= n <= |s|
    ensures EndIndex(s, lo, n) == lo || !IsTrimmable(s[EndIndex(s, lo, n) - 1])
    ensures forall k :: EndIndex(s, lo, n) <= k < n ==> IsTrimmable(s[k])
  {
    if n > lo && IsTrimmable(s[n - 1]) {
      EndIndexSpec(s, lo, n - 1);
    }
  }

  /**
   * `trim` keeps a contiguous infix of the input whose two ends are not trimmable
   * and removes only trimmable chars around it.
   */
  lemma TrimSpec(s: string)
    ensures var r := Trim(s);
      exists i, j :: 0 <= i <= j <= |s| && r == s[i..j]
        && (forall k :: 0 <= k < i ==> IsTrimmable(s[k]))
        && (forall k :: j <= k < |s| ==> IsTrimmable(s[k]))
        && (r == [] || (!IsTrimmable(r[0]) && !IsTrimmable(r[|r| - 1])))
  {
    var i := StartIndex(s, 0);
    var j := EndIndex(s, i, |s|);
    StartIndexSpec(s, 0);
    EndIndexSpec(s, i, |s|);
    var r := s[i..j];
    if r != [] {
      assert r[0] == s[i] && r[|r| - 1] == s[j - 1];
    }
  }

  /** Index of the first occurrence of `c` in `s`, if any. */
  function IndexOf(s: string, c: char): (r: Option<nat>)
    ensures r.None? <==> c !in s
    ensures r.Some? ==> r.value < |s| && s[r.value] == c && c !in s[..r.value]
  {
    if s == [] then None
    else if s[0] == c then Some(0)
    else match IndexOf(s[1..], c)
      case None => None
      case Some(i) => assert s[..i + 1] == [s[0]] + s[1..][..i]; Some(i + 1)
  }

  /**
   * `s.split("=", 2)`: one element (the whole string) when there is no `=`,
   * otherwise the text before the first `=` and everything after it (possibly
   * empty, possibly holding further `=`).
   */
  function SplitOnFirstEquals(s: string): (r: seq<string>)
    ensures |r| == 1 || |r| == 2
    ensures |r| == 1 <==> '=' !in s
    ensures |r| == 1 ==> r[0] == s
    ensures |r| == 2 ==> r[0] + "=" + r[1] == s && '=' !in r[0]
  {
    match IndexOf(s, '=')
    case None => [s]
    case Some(i) =>
      assert s == s[..i] + "=" + s[i + 1..];
      [s[..i], s[i + 1..]]
  }

  /** A string whose first `=` follows `key` splits into `key` and everything after that `=`. */
  lemma SplitAtFirstEquals(key: string, value: string)
    requires '=' !in key
    ensures SplitOnFirstEquals(key + "=" + value) == [key, value]
  {
    var s := key + "=" + value;
    assert s[|key|] == '=';
    var i := IndexOf(s, '=').value;
    assert s[..i] == key && s[i + 1..] == value;
  }

  /** `String.join(sep, parts)`. */
  function Join(sep: string, parts: seq<string>): string
  {
    if parts == [] then ""
    else if |parts| == 1 then parts[0]
    else parts[0] + sep + Join(sep, parts[1..])
  }

  /** `Character.isWhitespace`: the Unicode separators except the no-break ones, and the ASCII controls TAB to CR and FS to US. */
  predicate IsJavaWhitespace(c: char)
  {
    || c == ' ' || ('\t' <= c <= '\r') || ('\U{1C}' <= c <= '\U{1F}')
    || c == '\U{1680}' || ('\U{2000}' <= c <= '\U{2006}') || ('\U{2008}' <= c <= '\U{200A}')
    || c == '\U{2028}' || c == '\U{2029}' || c == '\U{205F}' || c == '\U{3000}'
  }

  /** `String.isBlank`: empty or only whitespace. */
  predicate IsBlank(s: string)
  {
    forall k :: 0 <= k < |s| ==> IsJavaWhitespace(s[k])
  }
}
