/**
 * The few JavaScript string built-ins the core relies on, with their
 * out-of-range behaviour written out: `charCodeAt` past the end is NaN
 * (here `None`, which equals no character), `substring` clamps both
 * indices and swaps them when the first is larger, and `indexOf` returns
 * -1 when nothing is found.
 */
module JsString {
  import opened Wrappers

  /** `s.charCodeAt(i)`: `None` stands for NaN, which no map key equals. */
  function CharCodeAt(s: string, i: int): (c: Option<char>)
    ensures c.Some? <==> 0 <= i < |s|
    ensures c.Some? ==> c.value == s[i]
  {
    if 0 <= i < |s| then Some(s[i]) else None
  }

  function Clamp(i: int, n: nat): (r: nat)
    ensures r <= n
    ensures 0 <= i <= n ==> r == i
  {
    if i < 0 then 0 else if i > n then n else i
  }

  /** `s.substring(a, b)`: both bounds clamped to the string, swapped when a > b. */
  function Substring(s: string, a: int, b: int): (r: string)
    ensures 0 <= a <= b <= |s| ==> r == s[a..b]
    ensures |r| <= |s|
  {
    var lo := Clamp(a, |s|);
    var hi := Clamp(b, |s|);
    if lo <= hi then s[lo..hi] else s[hi..lo]
  }

  /** `s.indexOf(c, from)` for a one-character search string. */
  function IndexOf(s: string, c: char, from: int): (r: int)
    decreases |s| - Clamp(from, |s|)
    ensures r == -1 || (Clamp(from, |s|) <= r < |s| && s[r] == c)
    ensures r == -1 ==> forall k :: Clamp(from, |s|) <= k < |s| ==> s[k] != c
    ensures r != -1 ==> forall k :: Clamp(from, |s|) <= k < r ==> s[k] != c
  {
    var i := Clamp(from, |s|);
    if i == |s| then -1
    else if s[i] == c then i
    else IndexOf(s, c, i + 1)
  }

  predicate StartsWith(s: string, prefix: string)
  {
    |prefix| <= |s| && s[..|prefix|] == prefix
  }

  predicate EndsWith(s: string, suffix: string)
  {
    |suffix| <= |s| && s[|s| - |suffix|..] == suffix
  }

  /** `s.includes(sub)`: some position of `s` starts an occurrence of `sub`. */
  predicate Includes(s: string, sub: string)
    decreases |s|
  {
    StartsWith(s, sub) || (|s| > 0 && Includes(s[1..], sub))
  }

  /** `parts.join(sep)`. */
  function Join(parts: seq<string>, sep: string): string
  {
    if |parts| == 0 then ""
    else if |parts| == 1 then parts[0]
    else parts[0] + sep + Join(parts[1..], sep)
  }

  /** `s.split(c)` for a one-character separator: the pieces between occurrences of `c`. */
  function Split(s: string, c: char): (r: seq<string>)
    decreases |s|
    ensures |r| >= 1
    ensures forall k :: 0 <= k < |r| ==> c !in r[k]
  {
    var i := IndexOf(s, c, 0);
    if i == -1 then [s] else [s[..i]] + Split(s[i + 1..], c)
  }

  /** Splitting a join on its separator gives the pieces back, when no piece holds the separator. */
  lemma {:induction false} SplitJoin(parts: seq<string>, c: char)
    requires |parts| >= 1 && forall k :: 0 <= k < |parts| ==> c !in parts[k]
    ensures Split(Join(parts, [c]), c) == parts
  {
    if |parts| == 1 {
      assert Join(parts, [c]) == parts[0];
    } else {
      var rest := Join(parts[1..], [c]);
      assert Join(parts, [c]) == parts[0] + [c] + rest;
      JoinHead(parts[0], c, rest);
      assert Split(Join(parts, [c]), c) == [parts[0]] + Split(rest, c);
      SplitJoin(parts[1..], c);
      assert parts == [parts[0]] + parts[1..];
    }
  }

  /** In `p + [c] + rest` with no `c` in `p`, the first `c` ends `p`. */
  lemma JoinHead(p: string, c: char, rest: string)
    requires c !in p
    ensures var s := p + [c] + rest;
      IndexOf(s, c, 0) == |p| && s[..|p|] == p && s[|p| + 1..] == rest
  {
    var s := p + [c] + rest;
    assert s[|p|] == c;
    assert forall k :: 0 <= k < |p| ==> s[k] == p[k];
    assert s[..|p|] == p;
    assert s[|p| + 1..] == rest;
  }
}
