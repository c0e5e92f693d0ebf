/**
 * `matchRoute`: resolves a URL against the trie by recursion, trying the
 * static child picked by the next character first, then the parameter child
 * (backtracking when its subtree finds nothing), then the wildcard store.
 * `Match` is the specification; `MatchRoute` is the source's procedure with
 * its character-comparison loop, proved equal to it.
 */
module Matcher {
  import opened Wrappers
  import opened JsString
  import opened RouterNode

  /** `FindResult`: the store found and the captured parameters. */
  datatype Found<T> = Found(store: T, params: map<string, string>)

  /** Parts shorter than this are compared character by character from index 1. */
  const ShortPart: nat := 15

  /**
   * The node's own check: a part of length 0 or 1 is not checked at all (its
   * first character was matched by the parent); a longer part must fit in the
   * URL and agree with it from index 1 (short parts) or from index 0 (long parts).
   */
  predicate PartMatches(url: string, part: string, start: nat)
  {
    |part| <= 1 ||
    (start + |part| <= |url| &&
      if |part| < ShortPart then forall i :: 1 <= i < |part| ==> part[i] == url[start + i]
      else url[start..start + |part|] == part)
  }

  /** Some slot of the subtree (static, parameter or wildcard) holds `v`. */
  ghost predicate Holds<T>(n: Node<T>, v: T)
  {
    || n.store == Some(v)
    || n.wildcardStore == Some(v)
    || (exists c :: c in n.inert && Holds(n.inert[c], v))
    || (n.params.Some? && n.params.value.store == Some(v))
    || (n.params.Some? && n.params.value.inert.Some? && Holds(n.params.value.inert.value, v))
  }

  /** A captured parameter value (any key but the wildcard's) is non-empty and has no '/'. */
  ghost predicate ParamsAreSegments(params: map<string, string>)
  {
    forall k :: k in params && k != "*" ==> params[k] != "" && '/' !in params[k]
  }

  /** `v` is the URL's segment at `end`: non-empty, without '/', and followed by a '/' or the end of the URL. */
  ghost predicate SegmentAt(url: string, end: nat, v: string)
  {
    && v != "" && '/' !in v
    && end + |v| <= |url| && url[end..end + |v|] == v
    && (end + |v| == |url| || url[end + |v|] == '/')
  }

  /** `matchRoute(url, url.length, node, start)`. */
  function Match<T>(url: string, node: Node<T>, start: nat): (r: Option<Found<T>>)
    decreases node
    ensures r.Some? ==> Holds(node, r.value.store)
    ensures r.Some? && start < |url| ==> ParamsAreSegments(r.value.params)
  {
    var end := start + |node.part|;
    if !PartMatches(url, node.part, start) then None
    else if end == |url| then
      if node.store.Some? then Some(Found(node.store.value, map[]))
      else if node.wildcardStore.Some? then Some(Found(node.wildcardStore.value, map["*" := ""]))
      else None
    else
      var next := CharCodeAt(url, end);
      var viaStatic :=
        if next.Some? && next.value in node.inert then Match(url, node.inert[next.value], end) else None;
      if viaStatic.Some? then
        viaStatic
      else
        var viaParam := MatchParam(url, node, end);
        if viaParam.Some? then viaParam
        else if node.wildcardStore.Some? then
          Some(Found(node.wildcardStore.value, map["*" := Substring(url, end, |url|)]))
        else None
  }

  /** The parameter branch of `matchRoute` at offset `end` (lines after the static attempt). */
  function MatchParam<T>(url: string, node: Node<T>, end: nat): (r: Option<Found<T>>)
    decreases node, 0
    ensures r.Some? ==> node.params.Some?
    ensures r.Some? ==> Holds(node, r.value.store)
    ensures r.Some? && end < |url| ==> ParamsAreSegments(r.value.params)
    ensures r.Some? && end < |url| ==>
      var name := node.params.value.paramName;
      name in r.value.params && SegmentAt(url, end, r.value.params[name])
  {
    if node.params.None? then None
    else
      var param := node.params.value;
      var slash := IndexOf(url, '/', end);
      if slash == end then None
      else if slash == -1 || slash >= |url| then
        if param.store.Some? then
          Some(Found(param.store.value, map[param.paramName := Substring(url, end, |url|)]))
        else None
      else if param.inert.Some? then
        match Match(url, param.inert.value, slash)
        case None => None
        case Some(f) => Some(Found(f.store, f.params[param.paramName := Substring(url, end, slash)]))
      else None
  }

  /** `matchRoute` as the source runs it: the short-part check is a character loop. */
  method MatchRoute<T>(url: string, node: Node<T>, start: nat) returns (r: Option<Found<T>>)
    decreases node
    ensures r == Match(url, node, start)
  {
    var end := start + |node.part|;
    var fits := CheckPart(url, node.part, start);
    if !fits {
      return None;
    }

    if end == |url| {
      if node.store.Some? {
        return Some(Found(node.store.value, map[]));
      }
      if node.wildcardStore.Some? {
        return Some(Found(node.wildcardStore.value, map["*" := ""]));
      }
      return None;
    }

    var next := CharCodeAt(url, end);
    if next.Some? && next.value in node.inert {
      var route := MatchRoute(url, node.inert[next.value], end);
      if route.Some? {
        return route;
      }
    }

    r := MatchParamRoute(url, node, end);
    if r.Some? {
      return r;
    }

    if node.wildcardStore.Some? {
      return Some(Found(node.wildcardStore.value, map["*" := Substring(url, end, |url|)]));
    }
    return None;
  }

  /**
   * The node's own check as the source runs it: nothing for a part of one
   * character, a character loop from index 1 for short parts, a substring
   * comparison for long ones.
   */
  method CheckPart(url: string, part: string, start: nat) returns (ok: bool)
    ensures ok == PartMatches(url, part, start)
  {
    var end := start + |part|;
    if |part| <= 1 {
      return true;
    }
    if end > |url| {
      return false;
    }
    if |part| < ShortPart {
      var i, j := 1, start + 1;
      while i < |part|
        invariant 1 <= i <= |part| && j == start + i
        invariant forall k :: 1 <= k < i ==> part[k] == url[start + k]
      {
        if CharCodeAt(url, j) != Some(part[i]) {
          return false;
        }
        i, j := i + 1, j + 1;
      }
      return true;
    }
    return Substring(url, start, end) == part;
  }

  /** The parameter branch as the source runs it. */
  method MatchParamRoute<T>(url: string, node: Node<T>, end: nat) returns (r: Option<Found<T>>)
    decreases node, 0
    ensures r == MatchParam(url, node, end)
  {
    if node.params.None? {
      return None;
    }
    var param := node.params.value;
    var slash := IndexOf(url, '/', end);
    if slash == end {
      return None;
    }
    if slash == -1 || slash >= |url| {
      if param.store.Some? {
        return Some(Found(param.store.value, map[param.paramName := Substring(url, end, |url|)]));
      }
      return None;
    }
    if param.inert.Some? {
      var route := MatchRoute(url, param.inert.value, slash);
      if route.Some? {
        return Some(Found(route.value.store, route.value.params[param.paramName := Substring(url, end, slash)]));
      }
    }
    return None;
  }
}
