/**
 * How `Router.add` reads a path before touching the trie: normalisation to a
 * leading '/', removal of a trailing '*', and the split of the rest into
 * literal pieces and `:name` parameters by the regular expression
 * `:.+?(?=\/|$)` (used both with `split` and with a global `match`).
 * The result is a `Route`: a literal head, a sequence of (parameter, literal)
 * steps, and what ends the path.
 */
module RoutePath {
  import opened Wrappers

  /** `""` becomes `"/"`; a path without a leading '/' gets one. */
  function Normalize(path: string): (p: string)
    ensures |p| > 0 && p[0] == '/'
    ensures path == "" ==> p == "/"
    ensures path != "" ==> |p| >= |path| && p[|p| - |path|..] == path && (path[0] == '/' <==> p == path)
  {
    if path == "" then "/"
    else if path[0] != '/' then "/" + path
    else path
  }

  lemma NormalizeIdempotent(path: string)
    ensures Normalize(Normalize(path)) == Normalize(path)
  {
  }

  /** The characters JavaScript's `.` does not match. */
  predicate IsLineTerminator(c: char)
  {
    c == '\n' || c == '\r' || c == '\U{2028}' || c == '\U{2029}'
  }

  /**
   * The lazy `.+?` followed by the lookahead `(?=\/|$)`, from position `k`:
   * the first '/' at or after `k`, or the end of the string, provided no line
   * terminator comes before it.
   */
  function ScanEnd(s: string, k: nat): (e: Option<nat>)
    requires k <= |s|
    decreases |s| - k
    ensures e.Some? ==>
      && k <= e.value <= |s|
      && (e.value == |s| || s[e.value] == '/')
      && (forall i :: k <= i < e.value ==> s[i] != '/' && !IsLineTerminator(s[i]))
    ensures e.None? ==> exists i :: k <= i < |s| && IsLineTerminator(s[i]) && s[i] != '/'
  {
    if k == |s| || s[k] == '/' then Some(k)
    else if IsLineTerminator(s[k]) then None
    else ScanEnd(s, k + 1)
  }

  /** The end of the regular expression's match starting at `i`, if there is one. */
  function MatchAt(s: string, i: nat): (e: Option<nat>)
    requires i < |s|
    ensures e.Some? ==> s[i] == ':' && i + 2 <= e.value <= |s| && (e.value == |s| || s[e.value] == '/')
  {
    if s[i] == ':' && i + 1 < |s| && !IsLineTerminator(s[i + 1]) then ScanEnd(s, i + 2) else None
  }

  /** The leftmost match at or after `from`, as (start, end). */
  function FindMatch(s: string, from: nat): (m: Option<(nat, nat)>)
    decreases |s| - from
    ensures m.Some? ==>
      && from <= m.value.0 < |s| && MatchAt(s, m.value.0) == Some(m.value.1)
      && (forall i :: from <= i < m.value.0 ==> MatchAt(s, i).None?)
    ensures m.None? ==> forall i :: from <= i < |s| ==> MatchAt(s, i).None?
  {
    if from >= |s| then None
    else if MatchAt(s, from).Some? then Some((from, MatchAt(s, from).value))
    else FindMatch(s, from + 1)
  }

  /** `s.slice(from).split(regex)`: the literal pieces between the matches. */
  function SplitFrom(s: string, from: nat): (pieces: seq<string>)
    requires from <= |s|
    decreases |s| - from
    ensures |pieces| > 0
  {
    match FindMatch(s, from)
    case None => [s[from..]]
    case Some((i, e)) => [s[from..i]] + SplitFrom(s, e)
  }

  /** `s.slice(from).match(globalRegex) || []`: the matched `:name` texts. */
  function MatchesFrom(s: string, from: nat): (names: seq<string>)
    requires from <= |s|
    decreases |s| - from
    ensures forall k :: 0 <= k < |names| ==> |names[k]| >= 2 && names[k][0] == ':'
  {
    match FindMatch(s, from)
    case None => []
    case Some((i, e)) => [s[i..e]] + MatchesFrom(s, e)
  }

  /** Pieces and matches put back in alternation. */
  function Weave(pieces: seq<string>, names: seq<string>): string
    requires |pieces| == |names| + 1
    decreases |names|
  {
    if names == [] then pieces[0] else pieces[0] + names[0] + Weave(pieces[1..], names[1..])
  }

  /** Splitting and matching partition the string: one more piece than matches, and they weave back. */
  lemma {:induction false} SplitMatchesWeave(s: string, from: nat)
    requires from <= |s|
    decreases |s| - from
    ensures |SplitFrom(s, from)| == |MatchesFrom(s, from)| + 1
    ensures Weave(SplitFrom(s, from), MatchesFrom(s, from)) == s[from..]
  {
    match FindMatch(s, from)
    case None =>
    case Some((i, e)) =>
      SplitMatchesWeave(s, e);
      var pieces := SplitFrom(s, from);
      var names := MatchesFrom(s, from);
      assert pieces[1..] == SplitFrom(s, e);
      assert names[1..] == MatchesFrom(s, e);
      calc {
        Weave(pieces, names);
        s[from..i] + s[i..e] + Weave(SplitFrom(s, e), MatchesFrom(s, e));
        s[from..i] + s[i..e] + s[e..];
        { SlicesJoin(s, from, i, e); }
        s[from..];
      }
  }

  /** Three adjacent slices make up the suffix they cover. */
  lemma SlicesJoin(s: string, a: nat, b: nat, c: nat)
    requires a <= b <= c <= |s|
    ensures s[a..b] + s[b..c] + s[c..] == s[a..]
  {
    assert s[a..] == s[a..b] + s[b..];
    assert s[b..] == s[b..c] + s[c..];
  }

  /**
   * Where a match ends, the next piece is either the empty last piece (at the
   * end of the string) or starts with '/'; every piece but the last is non-empty.
   */
  lemma {:induction false} PiecesAfterMatch(s: string, e: nat)
    requires e <= |s| && (e == |s| || s[e] == '/')
    decreases |s| - e
    ensures var pieces := SplitFrom(s, e);
      forall k :: 0 <= k < |pieces| ==>
        (pieces[k] == "" && k == |pieces| - 1) || (pieces[k] != "" && pieces[k][0] == '/')
  {
    var pieces := SplitFrom(s, e);
    match FindMatch(s, e)
    case None =>
    case Some((i, e')) =>
      assert i != e by { assert s[i] == ':'; }
      PiecesAfterMatch(s, e');
      assert pieces[1..] == SplitFrom(s, e');
  }

  /** One literal piece after a parameter: `/:param` + `part`. */
  datatype Step = Step(param: string, part: string)

  /** What ends a path: nothing more, a `*` wildcard, or a final parameter. */
  datatype Last = StaticEnd | WildcardEnd | ParamEnd(name: string)

  /** A path as `add` walks it. */
  datatype Route = Route(head: string, steps: seq<Step>, last: Last)

  predicate IsWildcard(path: string)
  {
    |path| > 0 && path[|path| - 1] == '*'
  }

  /** `path.slice(0, -1)` when the path ends in '*'. */
  function Unstarred(path: string): string
  {
    if IsWildcard(path) then path[..|path| - 1] else path
  }

  /** `if (inertParts[inertParts.length - 1] === "") inertParts.pop()` */
  function DropEmptyLast(pieces: seq<string>): seq<string>
    requires |pieces| > 0
  {
    if pieces[|pieces| - 1] == "" then pieces[..|pieces| - 1] else pieces
  }

  /** Pairs each piece after the first with the parameter before it (`paramParts[i - 1].slice(1)`). */
  function StepsOf(names: seq<string>, inert: seq<string>): (steps: seq<Step>)
    requires |inert| > 0 && |names| >= |inert| - 1
    requires forall k :: 0 <= k < |names| ==> names[k] != ""
    decreases |inert|
    ensures |steps| == |inert| - 1
  {
    if |inert| == 1 then [] else [Step(names[0][1..], inert[1])] + StepsOf(names[1..], inert[1..])
  }

  /**
   * `add`'s reading of a normalised path: strip a trailing '*', split, drop a
   * trailing empty piece, pair each later piece with the parameter before it;
   * a parameter left over ends the path, else the wildcard, else nothing.
   */
  function Parse(path: string): (r: Route)
    requires |path| > 0 && path[0] == '/'
  {
    var p := Unstarred(path);
    SplitMatchesWeave(p, 0);
    PiecesOfPath(p);
    RouteOf(IsWildcard(path), DropEmptyLast(SplitFrom(p, 0)), MatchesFrom(p, 0))
  }

  /** The route made of the kept pieces and the parameter matches. */
  function RouteOf(wildcard: bool, inert: seq<string>, names: seq<string>): Route
    requires |inert| > 0 && |names| >= |inert| - 1
    requires forall k :: 0 <= k < |names| ==> names[k] != ""
  {
    var last :=
      if |inert| - 1 < |names| then ParamEnd(names[|inert| - 1][1..])
      else if wildcard then WildcardEnd
      else StaticEnd;
    Route(inert[0], StepsOf(names, inert), last)
  }

  /** Writes a route back as path text. */
  function Render(r: Route): string
  {
    r.head + StepsText(r.steps) + LastText(r.last)
  }

  function StepsText(steps: seq<Step>): string
  {
    if steps == [] then "" else ":" + steps[0].param + steps[0].part + StepsText(steps[1..])
  }

  function LastText(l: Last): string
  {
    match l
    case StaticEnd => ""
    case WildcardEnd => "*"
    case ParamEnd(name) => ":" + name
  }

  /** Every piece of a path that starts with '/' is non-empty and starts with '/', save an empty last one. */
  lemma PiecesOfPath(p: string)
    requires |p| > 0 && p[0] == '/'
    ensures var inert := DropEmptyLast(SplitFrom(p, 0));
      |inert| > 0 && forall k :: 0 <= k < |inert| ==> inert[k] != "" && inert[k][0] == '/'
  {
    var pieces := SplitFrom(p, 0);
    PiecesAfterMatch(p, 0);
  }

  /** Each step's literal is the piece after its parameter. */
  lemma {:induction false} StepsOfParts(names: seq<string>, inert: seq<string>)
    requires |inert| > 0 && |names| >= |inert| - 1
    requires forall k :: 0 <= k < |names| ==> names[k] != ""
    decreases |inert|
    ensures forall k :: 0 <= k < |inert| - 1 ==> StepsOf(names, inert)[k].part == inert[k + 1]
  {
    if |inert| > 1 {
      StepsOfParts(names[1..], inert[1..]);
    }
  }

  /** The literal pieces of a parsed path: the head and every step part start with '/'. */
  lemma ParseShape(path: string)
    requires |path| > 0 && path[0] == '/'
    ensures var r := Parse(path);
      && r.head != "" && r.head[0] == '/'
      && forall k :: 0 <= k < |r.steps| ==> r.steps[k].part != "" && r.steps[k].part[0] == '/'
  {
    var p := Unstarred(path);
    PiecesOfPath(p);
    SplitMatchesWeave(p, 0);
    StepsOfParts(MatchesFrom(p, 0), DropEmptyLast(SplitFrom(p, 0)));
  }

  /**
   * Parsing loses nothing: rendering the route gives the path back, except the
   * '*' of a path that ends in a parameter and a '*', which `add` ignores.
   */
  lemma ParseRender(path: string)
    requires |path| > 0 && path[0] == '/'
    ensures var r := Parse(path);
      Render(r) + (if r.last.ParamEnd? && IsWildcard(path) then "*" else "") == path
  {
    var p := Unstarred(path);
    var pieces, names := SplitFrom(p, 0), MatchesFrom(p, 0);
    SplitMatchesWeave(p, 0);
    PiecesOfPath(p);
    assert p[0..] == p;
    RenderRouteOf(IsWildcard(path), pieces, names, p);
    if IsWildcard(path) {
      Restar(path);
    }
  }

  /** `ParseRender` for any pieces and matches that weave into `p`. */
  lemma RenderRouteOf(wildcard: bool, pieces: seq<string>, names: seq<string>, p: string)
    requires |pieces| == |names| + 1
    requires forall k :: 0 <= k < |names| ==> |names[k]| >= 2 && names[k][0] == ':'
    requires |DropEmptyLast(pieces)| > 0
    requires Weave(pieces, names) == p
    ensures var r := RouteOf(wildcard, DropEmptyLast(pieces), names);
      && (r.last.ParamEnd? ==> Render(r) == p)
      && (r.last.WildcardEnd? ==> wildcard && Render(r) == p + "*")
      && (r.last.StaticEnd? ==> !wildcard && Render(r) == p)
  {
    var inert := DropEmptyLast(pieces);
    StepsWeave(pieces, names);
    var body := inert[0] + StepsText(StepsOf(names, inert));
    var r := RouteOf(wildcard, inert, names);
    assert Render(r) == body + LastText(r.last);
    if |inert| < |pieces| {
      assert names[|names| - 1] == ":" + names[|names| - 1][1..];
    }
  }

  lemma Restar(path: string)
    requires IsWildcard(path)
    ensures Unstarred(path) + "*" == path
  {
    assert path == path[..|path| - 1] + [path[|path| - 1]];
  }

  /**
   * The weave of pieces and matches is the head, the steps' text and, when the
   * last piece was the dropped empty one, the last match.
   */
  lemma {:induction false} StepsWeave(pieces: seq<string>, names: seq<string>)
    requires |pieces| == |names| + 1
    requires forall k :: 0 <= k < |names| ==> |names[k]| >= 2 && names[k][0] == ':'
    requires |DropEmptyLast(pieces)| > 0
    decreases |names|
    ensures WeaveIsRoute(pieces, names)
  {
    if names == [] {
    } else if |names| == 1 && pieces[1] == "" {
      assert DropEmptyLast(pieces) == [pieces[0]];
    } else {
      StepsWeave(pieces[1..], names[1..]);
      WeaveStep(pieces, names);
    }
  }

  /** The statement of `StepsWeave`. */
  ghost predicate WeaveIsRoute(pieces: seq<string>, names: seq<string>)
    requires |pieces| == |names| + 1
    requires forall k :: 0 <= k < |names| ==> |names[k]| >= 2 && names[k][0] == ':'
    requires |DropEmptyLast(pieces)| > 0
  {
    var inert := DropEmptyLast(pieces);
    Weave(pieces, names) ==
      inert[0] + StepsText(StepsOf(names, inert)) + (if |inert| == |pieces| then "" else names[|names| - 1])
  }

  /** One more piece and parameter in front keep `WeaveIsRoute`. */
  lemma WeaveStep(pieces: seq<string>, names: seq<string>)
    requires |pieces| == |names| + 1 && |names| >= 1
    requires forall k :: 0 <= k < |names| ==> |names[k]| >= 2 && names[k][0] == ':'
    requires |names| >= 2 || pieces[1] != ""
    requires WeaveIsRoute(pieces[1..], names[1..])
    ensures WeaveIsRoute(pieces, names)
  {
    var inert := DropEmptyLast(pieces);
    var pieces', names' := pieces[1..], names[1..];
    DropEmptyLastTail(pieces);
    var inert' := DropEmptyLast(pieces');
    var tail := if |inert| == |pieces| then "" else names[|names| - 1];
    var rest := StepsText(StepsOf(names', inert'));
    assert Weave(pieces', names') == inert[1] + rest + tail;
    StepsTextCons(names, inert);
    assert names[0] == ":" + names[0][1..];
    assert Weave(pieces, names) == pieces[0] + names[0] + Weave(pieces', names');
    Regroup(inert[0], ":" + names[0][1..], inert[1], rest, tail);
  }

  lemma Regroup(a: string, b: string, c: string, d: string, e: string)
    ensures a + b + (c + d + e) == a + (b + c + d) + e
  {
  }

  lemma DropEmptyLastTail(pieces: seq<string>)
    requires |pieces| >= 2
    ensures DropEmptyLast(pieces[1..]) == DropEmptyLast(pieces)[1..]
    ensures |DropEmptyLast(pieces[1..])| == |pieces| - 1 <==> |DropEmptyLast(pieces)| == |pieces|
  {
  }

  lemma StepsTextCons(names: seq<string>, inert: seq<string>)
    requires |inert| >= 2 && |names| >= |inert| - 1
    requires forall k :: 0 <= k < |names| ==> names[k] != ""
    ensures StepsText(StepsOf(names, inert)) ==
      ":" + names[0][1..] + inert[1] + StepsText(StepsOf(names[1..], inert[1..]))
  {
  }
}
