/**
 * What `find` returns for a registered route with parameters or a wildcard.
 * A URL spells a route when it is the route's literal head, then each
 * parameter's value followed by its step's literal, then the end: nothing
 * for a static end, the last parameter's value, or the wildcard's rest.
 * `matchRoute` finds the route's store with every value under its name,
 * provided the alternatives it tries first (the static child picked by the
 * next character and, before a wildcard, the parameter child) find nothing.
 */
module RouterFind {
  import opened Wrappers
  import opened JsString
  import opened RouterNode
  import opened Matcher
  import opened RoutePath
  import opened RouterInsert
  import opened Router

  /** A value a parameter can take: non-empty and without '/'. */
  predicate IsSegment(v: string)
  {
    v != "" && '/' !in v
  }

  /** What the end of a URL may be for a route ending in `last`. */
  predicate TailFits(last: Last, tail: string)
  {
    match last
    case StaticEnd => tail == ""
    case ParamEnd(_) => IsSegment(tail)
    case WildcardEnd => true
  }

  /** `values` fill the parameter steps (whose literals start with '/', as `Parse` makes them) and `tail` the end. */
  ghost predicate Fills(steps: seq<Step>, values: seq<string>, last: Last, tail: string)
  {
    && |values| == |steps|
    && (forall i :: 0 <= i < |steps| ==> IsSegment(values[i]) && steps[i].part != "" && steps[i].part[0] == '/')
    && TailFits(last, tail)
  }

  /** The URL text after the literal head: each value, then its step's literal, then `tail`. */
  function Spell(steps: seq<Step>, values: seq<string>, tail: string): string
    requires |values| == |steps|
  {
    if steps == [] then tail else values[0] + steps[0].part + Spell(steps[1..], values[1..], tail)
  }

  /**
   * The parameters `find` reports: what the end captures, then each step's
   * name bound to its value, an outer name overriding an inner one.
   */
  function Captures(steps: seq<Step>, values: seq<string>, last: Last, tail: string): map<string, string>
    requires |values| == |steps|
  {
    if steps == [] then
      (match last
       case StaticEnd => map[]
       case ParamEnd(name) => map[name := tail]
       case WildcardEnd => map["*" := tail])
    else Captures(steps[1..], values[1..], last, tail)[steps[0].param := values[0]]
  }

  /**
   * Along the route (read as `Slot` reads it), the branches `matchRoute` tries
   * before the route's own find nothing. `start` is where the literal `s`
   * begins in the URL.
   */
  ghost predicate Unshadowed<T>(url: string, n: Node<T>, start: nat, s: string, steps: seq<Step>, last: Last)
    decreases n, 1
  {
    if |s| < |n.part| || s[..|n.part|] != n.part then true
    else if |s| == |n.part| then UnshadowedFrom(url, n, start + |n.part|, steps, last)
    else if s[|n.part|] in n.inert then Unshadowed(url, n.inert[s[|n.part|]], start + |n.part|, s[|n.part|..], steps, last)
    else true
  }

  /**
   * At the node the literal ends at (at `e` in the URL): the static child
   * picked by the next character finds nothing; before a wildcard the
   * parameter child finds nothing too, and at the URL's end the node holds
   * no static store.
   */
  ghost predicate UnshadowedFrom<T>(url: string, n: Node<T>, e: nat, steps: seq<Step>, last: Last)
    decreases n, 0
  {
    var staticMiss := e < |url| && url[e] in n.inert ==> Match(url, n.inert[url[e]], e).None?;
    if steps == [] then
      (match last
       case StaticEnd => true
       case ParamEnd(_) => staticMiss
       case WildcardEnd => if e == |url| then n.store.None? else staticMiss && MatchParam(url, n, e).None?)
    else
      && staticMiss
      && (n.params.Some? && n.params.value.inert.Some? ==>
            var slash := IndexOf(url, '/', e);
            slash > e ==> Unshadowed(url, n.params.value.inert.value, slash, steps[0].part, steps[1..], last))
  }

  /**
   * A URL that spells a route whose slot holds `w` finds `w`, with each
   * parameter's value under its name and the wildcard's rest under "*",
   * when nothing the source tries first matches.
   */
  lemma {:induction false} RouteFound<T>(url: string, n: Node<T>, start: nat, s: string,
                                         steps: seq<Step>, values: seq<string>, last: Last, tail: string, w: T)
    requires Fills(steps, values, last, tail)
    requires start <= |url| && url[start..] == s + Spell(steps, values, tail)
    requires Slot(n, s, steps, last) == Some(w)
    requires Unshadowed(url, n, start, s, steps, last)
    decreases n, 3
    ensures Match(url, n, start) == Some(Found(w, Captures(steps, values, last, tail)))
  {
    if |s| <= |n.part| {
      FoundHere(url, n, start, s, steps, values, last, tail, w);
    } else {
      FoundBelow(url, n, start, s, steps, values, last, tail, w);
    }
  }

  /** The literal ends at this node. */
  lemma {:induction false} FoundHere<T>(url: string, n: Node<T>, start: nat, s: string,
                                        steps: seq<Step>, values: seq<string>, last: Last, tail: string, w: T)
    requires Fills(steps, values, last, tail) && |s| <= |n.part|
    requires start <= |url| && url[start..] == s + Spell(steps, values, tail)
    requires Slot(n, s, steps, last) == Some(w)
    requires Unshadowed(url, n, start, s, steps, last)
    decreases n, 2
    ensures Match(url, n, start) == Some(Found(w, Captures(steps, values, last, tail)))
  {
    var k := |n.part|;
    var rest := Spell(steps, values, tail);
    PrefixAt(url, start, s, rest, k);
    PartFits(url, n.part, start);
    assert url[start + k..] == rest;
    assert |s| == k && s[..k] == n.part;
    assert SlotFrom(n, steps, last) == Some(w);
    assert UnshadowedFrom(url, n, start + k, steps, last);
    FoundFrom(url, n, start, steps, values, last, tail, w);
  }

  /** The literal goes on below this node. */
  lemma {:induction false} FoundBelow<T>(url: string, n: Node<T>, start: nat, s: string,
                                         steps: seq<Step>, values: seq<string>, last: Last, tail: string, w: T)
    requires Fills(steps, values, last, tail) && |s| > |n.part|
    requires start <= |url| && url[start..] == s + Spell(steps, values, tail)
    requires Slot(n, s, steps, last) == Some(w)
    requires Unshadowed(url, n, start, s, steps, last)
    decreases n, 2
    ensures Match(url, n, start) == Some(Found(w, Captures(steps, values, last, tail)))
  {
    var k := |n.part|;
    var rest := Spell(steps, values, tail);
    PrefixAt(url, start, s, rest, k);
    PartFits(url, n.part, start);
    assert url[start + k..] == s[k..] + rest;
    FoundStatic(url, n, start, s, steps, values, last, tail, w);
  }

  /** The static child for the literal's next character finds the route. */
  lemma {:induction false} FoundStatic<T>(url: string, n: Node<T>, start: nat, s: string,
                                          steps: seq<Step>, values: seq<string>, last: Last, tail: string, w: T)
    requires Fills(steps, values, last, tail) && PartMatches(url, n.part, start)
    requires |n.part| < |s| && s[|n.part|] in n.inert
    requires start + |n.part| <= |url| && url[start + |n.part|..] == s[|n.part|..] + Spell(steps, values, tail)
    requires Slot(n.inert[s[|n.part|]], s[|n.part|..], steps, last) == Some(w)
    requires Unshadowed(url, n.inert[s[|n.part|]], start + |n.part|, s[|n.part|..], steps, last)
    decreases n, 1
    ensures Match(url, n, start) == Some(Found(w, Captures(steps, values, last, tail)))
  {
    var e := start + |n.part|;
    assert url[e] == s[|n.part|];
    RouteFound(url, n.inert[s[|n.part|]], e, s[|n.part|..], steps, values, last, tail, w);
    StaticStepFound(url, n, start);
  }

  /** `RouteFound` at the node the literal ends at: the end slot, or the parameter step. */
  lemma {:induction false} FoundFrom<T>(url: string, n: Node<T>, start: nat,
                                        steps: seq<Step>, values: seq<string>, last: Last, tail: string, w: T)
    requires Fills(steps, values, last, tail) && PartMatches(url, n.part, start)
    requires start + |n.part| <= |url| && url[start + |n.part|..] == Spell(steps, values, tail)
    requires SlotFrom(n, steps, last) == Some(w)
    requires UnshadowedFrom(url, n, start + |n.part|, steps, last)
    decreases n, 1
    ensures Match(url, n, start) == Some(Found(w, Captures(steps, values, last, tail)))
  {
    if steps == [] {
      EndFound(url, n, start, last, tail, w);
    } else {
      SpellStep(url, start + |n.part|, steps, values, last, tail);
      FoundParam(url, n, start, steps, values, last, tail, w);
    }
  }

  /** The parameter step: the value is captured and the walk goes on in the parameter child's continuation. */
  lemma {:induction false} FoundParam<T>(url: string, n: Node<T>, start: nat,
                                         steps: seq<Step>, values: seq<string>, last: Last, tail: string, w: T)
    requires Fills(steps, values, last, tail) && steps != [] && PartMatches(url, n.part, start)
    requires var e := start + |n.part|; var v := values[0];
      && e + |v| < |url| && url[e..e + |v|] == v && url[e] == v[0] && url[e + |v|] == '/'
      && IndexOf(url, '/', e) == e + |v|
      && url[e + |v|..] == steps[0].part + Spell(steps[1..], values[1..], tail)
      && (url[e] in n.inert ==> Match(url, n.inert[url[e]], e).None?)
    requires n.params.Some? && n.params.value.paramName == steps[0].param && n.params.value.inert.Some?
    requires Slot(n.params.value.inert.value, steps[0].part, steps[1..], last) == Some(w)
    requires Unshadowed(url, n.params.value.inert.value, start + |n.part| + |values[0]|, steps[0].part, steps[1..], last)
    decreases n, 0
    ensures Match(url, n, start) == Some(Found(w, Captures(steps, values, last, tail)))
  {
    var v := values[0];
    assert Fills(steps[1..], values[1..], last, tail);
    RouteFound(url, n.params.value.inert.value, start + |n.part| + |v|, steps[0].part, steps[1..], values[1..], last, tail, w);
    ParamStepFound(url, n, start, v, Found(w, Captures(steps[1..], values[1..], last, tail)));
  }

  /** Where the first parameter's value and the next step's literal sit in the URL. */
  lemma SpellStep(url: string, e: nat, steps: seq<Step>, values: seq<string>, last: Last, tail: string)
    requires Fills(steps, values, last, tail) && steps != []
    requires e <= |url| && url[e..] == Spell(steps, values, tail)
    ensures var v := values[0];
      && e + |v| < |url| && url[e..e + |v|] == v && url[e] == v[0] && url[e + |v|] == '/'
      && IndexOf(url, '/', e) == e + |v|
      && url[e + |v|..] == steps[0].part + Spell(steps[1..], values[1..], tail)
  {
    var v := values[0];
    var lit := steps[0].part;
    var more := Spell(steps[1..], values[1..], tail);
    assert url[e..] == v + (lit + more);
    PrefixAt(url, e, v, lit + more, |v|);
    assert url[e + |v|..] == lit + more;
    assert url[e + |v|] == lit[0];
    SlashAfter(url, e, v);
  }

  /** The first `k` characters of `s` sit in the URL at `start`. */
  lemma PrefixAt(url: string, start: nat, s: string, rest: string, k: nat)
    requires start <= |url| && url[start..] == s + rest && k <= |s|
    ensures start + k <= |url| && url[start..start + k] == s[..k]
  {
    assert url[start..start + k] == url[start..][..k];
  }

  /** A part spelled by the URL at `start` passes the node's own check. */
  lemma PartFits(url: string, part: string, start: nat)
    requires start + |part| <= |url| && url[start..start + |part|] == part
    ensures PartMatches(url, part, start)
  {
    assert forall i :: 0 <= i < |part| ==> part[i] == url[start + i];
  }

  /** The first '/' from `e` is the one right after the segment `v`. */
  lemma SlashAfter(url: string, e: nat, v: string)
    requires IsSegment(v) && e + |v| < |url| && url[e..e + |v|] == v && url[e + |v|] == '/'
    ensures IndexOf(url, '/', e) == e + |v|
  {
    forall k | e <= k < e + |v| ensures url[k] != '/' {
      assert url[k] == v[k - e];
    }
  }

  /** The static child picked by the next character finds something: `matchRoute` returns it. */
  lemma StaticStepFound<T>(url: string, n: Node<T>, start: nat)
    requires PartMatches(url, n.part, start)
    requires start + |n.part| < |url| && url[start + |n.part|] in n.inert
    requires Match(url, n.inert[url[start + |n.part|]], start + |n.part|).Some?
    ensures Match(url, n, start) == Match(url, n.inert[url[start + |n.part|]], start + |n.part|)
  {
  }

  /**
   * The static child finds nothing and the parameter child's continuation,
   * entered at the '/' after the segment `v`, finds `f`: `matchRoute`
   * returns `f` with `v` under the parameter's name.
   */
  lemma ParamStepFound<T>(url: string, n: Node<T>, start: nat, v: string, f: Found<T>)
    requires n.params.Some? && n.params.value.inert.Some? && PartMatches(url, n.part, start)
    requires var e := start + |n.part|;
      && e + |v| < |url| && url[e..e + |v|] == v && v != "" && url[e + |v|] == '/'
      && IndexOf(url, '/', e) == e + |v|
      && (url[e] in n.inert ==> Match(url, n.inert[url[e]], e).None?)
    requires Match(url, n.params.value.inert.value, start + |n.part| + |v|) == Some(f)
    ensures Match(url, n, start) == Some(Found(f.store, f.params[n.params.value.paramName := v]))
  {
    var e := start + |n.part|;
    assert url[e] == v[0];
    assert Substring(url, e, e + |v|) == v;
  }

  /** The route ends at this node: its static, parameter or wildcard slot is found. */
  lemma EndFound<T>(url: string, n: Node<T>, start: nat, last: Last, tail: string, w: T)
    requires PartMatches(url, n.part, start)
    requires start + |n.part| <= |url| && url[start + |n.part|..] == tail
    requires TailFits(last, tail) && SlotFrom(n, [], last) == Some(w)
    requires UnshadowedFrom(url, n, start + |n.part|, [], last)
    ensures Match(url, n, start) == Some(Found(w, Captures([], [], last, tail)))
  {
    var e := start + |n.part|;
    assert Substring(url, e, |url|) == tail;
    if e < |url| {
      assert url[e] == tail[0];
      if last.ParamEnd? {
        forall k | e <= k < |url| ensures url[k] != '/' {
          assert url[k] == tail[k - e];
        }
      }
    }
  }

  /** `/a/:x/b` style: one parameter between two literals. */
  lemma ParamFound<T>(n: Node<T>, head: string, x: string, lit: string, value: string, w: T)
    requires lit != "" && lit[0] == '/' && IsSegment(value)
    requires Slot(n, head, [Step(x, lit)], StaticEnd) == Some(w)
    requires Unshadowed(head + value + lit, n, 0, head, [Step(x, lit)], StaticEnd)
    ensures Match(head + value + lit, n, 0) == Some(Found(w, map[x := value]))
  {
    var url := head + value + lit;
    assert Spell([Step(x, lit)], [value], "") == value + lit + "";
    assert url[0..] == head + Spell([Step(x, lit)], [value], "");
    RouteFound(url, n, 0, head, [Step(x, lit)], [value], StaticEnd, "", w);
    assert Captures([Step(x, lit)], [value], StaticEnd, "") == map[x := value];
  }

  /** A trailing wildcard (`/rest/` then `*`): the rest of the URL, possibly empty, under "*". */
  lemma WildcardFound<T>(n: Node<T>, head: string, rest: string, w: T)
    requires Slot(n, head, [], WildcardEnd) == Some(w)
    requires Unshadowed(head + rest, n, 0, head, [], WildcardEnd)
    ensures Match(head + rest, n, 0) == Some(Found(w, map["*" := rest]))
  {
    assert (head + rest)[0..] == head + Spell([], [], rest);
    RouteFound(head + rest, n, 0, head, [], [], WildcardEnd, rest, w);
  }

  /**
   * After `add(path, v)` without a conflict, a URL spelling the path with
   * any values finds the store `add` returned, with the values under their
   * names, when nothing the source tries first matches.
   */
  lemma AddThenFind<T>(root: Option<Node<T>>, path: string, v: T, values: seq<string>, tail: string)
    requires |path| > 0 && path[0] == '/' && !RouteConflict(root, path)
    requires var r := Parse(path);
      && |values| == |r.steps| && (forall i :: 0 <= i < |values| ==> IsSegment(values[i])) && TailFits(r.last, tail)
      && Unshadowed(r.head + Spell(r.steps, values, tail), Insert(root, path, v).0, 0, r.head, r.steps, r.last)
    ensures var r := Parse(path); var ins := Insert(root, path, v);
      && ins.1.Held?
      && Match(r.head + Spell(r.steps, values, tail), ins.0, 0) == Some(Found(ins.1.store, Captures(r.steps, values, r.last, tail)))
  {
    var r := Parse(path);
    var ins := Insert(root, path, v);
    var url := r.head + Spell(r.steps, values, tail);
    AddRoute(root, path, v);
    ParseShape(path);
    assert url[0..] == url;
    RouteFound(url, ins.0, 0, r.head, r.steps, values, r.last, tail, ins.1.store);
  }

  /**
   * A static route keeps precedence over routes added after it: with
   * `/a/fixed/b` added and then `/a/:x/b` (or anything else), `/a/fixed/b`
   * still finds its own store with no parameters. (Added in the other order,
   * `AddThenFindStatic` gives the same.)
   */
  lemma StaticKeepsPrecedence<T>(root: Option<Node<T>>, path: string, v: T, other: string, u: T)
    requires |path| > 0 && path[0] == '/' && ':' !in path && !IsWildcard(path)
    requires |other| > 0 && other[0] == '/'
    ensures var first := Insert(root, path, v);
      && first.1.Held?
      && Match(path, Insert(Some(first.0), other, u).0, 0) == Some(Found(first.1.store, map[]))
  {
    var first := Insert(root, path, v);
    AddThenFindStatic(root, path, v);
    AddRoute(root, path, v);
    AddKeeps(Some(first.0), other, u, path);
    ParseStatic(path);
    var after := Insert(Some(first.0), other, u).0;
    assert Base(Some(after)) == after;
    assert path[0..] == path;
    StaticFound(path, after, 0, first.1.store);
  }
}
