/**
 * `Router<T>`: the trie root, the history of registered paths, `add` and
 * `find`. The trie itself is a value (`Node<T>`); `add` replaces the root
 * with the trie `InsertAt` builds.
 */
module Router {
  import opened Wrappers
  import opened JsString
  import opened RouterNode
  import opened Matcher
  import opened RoutePath
  import opened RouterInsert

  /** `add`'s argument: the source checks `typeof path !== "string"` at run time. */
  datatype PathArg = Text(s: string) | NotString

  /** How `add` ends: the store the slot holds, or one of its two thrown errors. */
  datatype AddResult<T> =
    | Stored(store: T)
    | NotAString                                                  // TypeError("Route path must be a string")
    | ParamConflict(path: string, param: string, existing: string) // Error("Cannot create route ...")

  /** The root `add` starts from: the existing one, or a fresh `createNode("/")`. */
  function Base<T>(root: Option<Node<T>>): (n: Node<T>)
    ensures n.part == "/" || root.Some?
  {
    if root.None? then CreateNode("/", []) else root.value
  }

  /** The trie walk of `add` on a normalised path: the new root and what `add` returns. */
  function Insert<T>(root: Option<Node<T>>, path: string, v: T): (Node<T>, Added<T>)
    requires |path| > 0 && path[0] == '/'
  {
    var route := Parse(path);
    InsertAt(Base(root), route.head, route.steps, route.last, v)
  }

  /** The store a normalised path addresses in the trie (before any `add`: in a fresh root). */
  function RouteSlot<T>(root: Option<Node<T>>, path: string): Option<T>
    requires |path| > 0 && path[0] == '/'
  {
    var route := Parse(path);
    Slot(Base(root), route.head, route.steps, route.last)
  }

  ghost predicate RouteConflict<T>(root: Option<Node<T>>, path: string)
    requires |path| > 0 && path[0] == '/'
  {
    var route := Parse(path);
    ConflictIn(Base(root), route.head, route.steps, route.last)
  }

  class Router<T> {
    var root: Option<Node<T>>
    var history: seq<(string, T)>

    /** Every child is keyed by its first character, and the root's part is "/". */
    ghost predicate Valid()
      reads this
    {
      root.Some? ==> WellFormed(root.value) && root.value.part == "/"
    }

    constructor()
      ensures Valid() && root.None? && history == []
    {
      root := None;
      history := [];
    }

    /**
     * `add(path, store)`. A non-string path throws before anything changes;
     * otherwise the normalised path is logged in `history` and inserted.
     */
    method Add(path: PathArg, store: T) returns (r: AddResult<T>)
      requires Valid()
      modifies this
      ensures Valid()
      ensures path.NotString? ==> r == NotAString && root == old(root) && history == old(history)
      ensures path.Text? ==>
        var p := Normalize(path.s);
        var ins := Insert(old(root), p, store);
        && history == old(history) + [(p, store)]
        && root == Some(ins.0)
        && r == (if ins.1.Held? then Stored(ins.1.store) else ParamConflict(Unstarred(p), ins.1.wanted, ins.1.existing))
    {
      if path.NotString? {
        return NotAString;
      }
      var p := Normalize(path.s);
      history := history + [(p, store)];
      InsertValid(root, p, store);
      var ins := Insert(root, p, store);
      root := Some(ins.0);
      if ins.1.Conflict? {
        return ParamConflict(Unstarred(p), ins.1.wanted, ins.1.existing);
      }
      return Stored(ins.1.store);
    }

    /** `find(url)`: nothing before the first `add`, otherwise `matchRoute(url, url.length, root, 0)`. */
    method Find(url: string) returns (r: Option<Found<T>>)
      ensures r == (if root.None? then None else Match(url, root.value, 0))
    {
      if root.None? {
        return None;
      }
      r := MatchRoute(url, root.value, 0);
    }
  }

  /** `add` keeps the trie well-formed and the root's part "/". */
  lemma InsertValid<T>(root: Option<Node<T>>, path: string, v: T)
    requires |path| > 0 && path[0] == '/'
    requires root.Some? ==> WellFormed(root.value) && root.value.part == "/"
    ensures WellFormed(Insert(root, path, v).0) && Insert(root, path, v).0.part == "/"
  {
    var route := Parse(path);
    var base := Base(root);
    ParseShape(path);
    InsertAtWellFormed(base, route.head, route.steps, route.last, v);
    assert Lcp(route.head, base.part) >= 1;
  }

  /**
   * `add` on its own path: it throws exactly when the walk meets a parameter
   * child of another name, leaving the trie as it was; otherwise the path's
   * slot holds the first value ever registered for it, which `add` returns.
   */
  lemma AddRoute<T>(root: Option<Node<T>>, path: string, v: T)
    requires |path| > 0 && path[0] == '/'
    ensures var ins := Insert(root, path, v);
      && (ins.1.Conflict? <==> RouteConflict(root, path))
      && (ins.1.Conflict? ==> ins.0 == Base(root))
      && (ins.1.Held? ==> RouteSlot(Some(ins.0), path) == Some(ins.1.store))
      && (ins.1.Held? && RouteSlot(root, path).Some? ==> ins.1.store == RouteSlot(root, path).value)
      && (ins.1.Held? && RouteSlot(root, path).None? ==> ins.1.store == v)
  {
    var route := Parse(path);
    InsertAtSpec(Base(root), route.head, route.steps, route.last, v);
  }

  /** `add` keeps earlier registrations: any path whose slot held a value still holds it. */
  lemma AddKeeps<T>(root: Option<Node<T>>, path: string, v: T, other: string)
    requires |path| > 0 && path[0] == '/' && |other| > 0 && other[0] == '/'
    requires RouteSlot(root, other).Some?
    ensures RouteSlot(Some(Insert(root, path, v).0), other) == RouteSlot(root, other)
  {
    var route := Parse(path);
    var route' := Parse(other);
    InsertAtKeeps(Base(root), route.head, route.steps, route.last, v, route'.head, route'.steps, route'.last);
  }

  /** A path with no parameter and no trailing '*' is a single literal. */
  lemma ParseStatic(path: string)
    requires |path| > 0 && path[0] == '/' && ':' !in path && !IsWildcard(path)
    ensures Parse(path) == Route(path, [], StaticEnd)
  {
    assert forall i :: 0 <= i < |path| ==> MatchAt(path, i).None?;
    assert SplitFrom(path, 0) == [path];
  }

  /** A URL spelling a static route whose slot holds `w` finds `w` with no parameters. */
  lemma {:induction false} StaticFound<T>(url: string, n: Node<T>, start: nat, w: T)
    requires start <= |url| && Slot(n, url[start..], [], StaticEnd) == Some(w)
    decreases n
    ensures Match(url, n, start) == Some(Found(w, map[]))
  {
    var s := url[start..];
    var k := |n.part|;
    assert s[..k] == n.part;
    assert forall i :: 0 <= i < k ==> n.part[i] == url[start + i];
    assert start + k <= |url| ==> url[start..start + k] == n.part;
    if |s| > k {
      var c := s[k];
      assert CharCodeAt(url, start + k) == Some(c);
      assert url[start + k..] == s[k..];
      StaticFound(url, n.inert[c], start + k, w);
    }
  }

  /** A static route never meets a parameter child. */
  lemma {:induction false} NoStaticConflict<T>(n: Node<T>, s: string)
    decreases n
    ensures !ConflictIn(n, s, [], StaticEnd)
  {
    var k := |n.part|;
    if k < |s| && s[..k] == n.part && s[k] in n.inert {
      NoStaticConflict(n.inert[s[k]], s[k..]);
    }
  }

  /**
   * After `add` of a static path (no parameter, no '*'), `find` on that path
   * returns the store `add` returned, with no parameters.
   */
  lemma AddThenFindStatic<T>(root: Option<Node<T>>, path: string, v: T)
    requires |path| > 0 && path[0] == '/' && ':' !in path && !IsWildcard(path)
    ensures var ins := Insert(root, path, v);
      ins.1.Held? && Match(path, ins.0, 0) == Some(Found(ins.1.store, map[]))
  {
    ParseStatic(path);
    var ins := Insert(root, path, v);
    assert ins == InsertAt(Base(root), path, [], StaticEnd, v);
    InsertAtSpec(Base(root), path, [], StaticEnd, v);
    NoStaticConflict(Base(root), path);
    assert path[0..] == path;
    StaticFound(path, ins.0, 0, ins.1.store);
  }
}
