/**
 * The routing proxies of the server and the client turn a chain of
 * property reads (`events.chat.message.emit(...)`) into a path and a method
 * name. The proxy object is modelled by the list of names read so far.
 */
module ProxyPath {
  import opened Wrappers
  import opened JsString

  /**
   * One property read on a proxy holding `paths`: `then` gives `undefined`
   * (so the proxy is never mistaken for a promise), `index` gives a proxy
   * with the same list, any other name one with the name appended.
   */
  function Get(paths: seq<string>, param: string): (r: Option<seq<string>>)
    ensures r.None? <==> param == "then"
    ensures r.Some? ==> |paths| <= |r.value| <= |paths| + 1 && r.value[..|paths|] == paths
  {
    if param == "then" then None
    else if param == "index" then Some(paths)
    else Some(paths + [param])
  }

  /** Reading `names` one after the other, starting from the root proxy (no names). */
  function Access(names: seq<string>): Option<seq<string>>
    decreases |names|
  {
    if names == [] then Some([])
    else
      var before := Access(names[..|names| - 1]);
      if before.None? then None else Get(before.value, names[|names| - 1])
  }

  /** The names other than "index", in order. */
  function WithoutIndex(names: seq<string>): (r: seq<string>)
    ensures |r| <= |names|
    ensures forall k :: 0 <= k < |r| ==> r[k] != "index"
    ensures forall x :: x in r <==> x in names && x != "index"
  {
    if names == [] then []
    else WithoutIndex(names[..|names| - 1]) + (if names[|names| - 1] == "index" then [] else [names[|names| - 1]])
  }

  /**
   * A chain of reads without `then` yields exactly its names other than
   * "index"; a chain with `then` yields `undefined`.
   */
  lemma {:induction false} AccessWithoutIndex(names: seq<string>)
    ensures Access(names) == if "then" in names then None else Some(WithoutIndex(names))
  {
    if names != [] {
      var init := names[..|names| - 1];
      AccessWithoutIndex(init);
      assert names == init + [names[|names| - 1]];
      var last := names[|names| - 1];
      assert "then" in names <==> "then" in init || last == "then";
      assert Access(names) == (if Access(init).None? then None else Get(Access(init).value, last));
      assert WithoutIndex(names) == WithoutIndex(init) + (if last == "index" then [] else [last]);
      if "then" in init {
        assert Access(names) == None;
      } else if last == "then" {
        assert Access(names) == None;
      } else {
        assert "then" !in names;
        assert Access(names) == Get(WithoutIndex(init), last);
        if last == "index" {
          assert WithoutIndex(init) + [] == WithoutIndex(init);
        }
      }
    }
  }

  /** Where a call on a proxy goes: the path and the method name (the last name read). */
  datatype Target = Target(path: string, name: Option<string>)

  /**
   * `apply`: the last name is popped as the method (`undefined` when there
   * is none) and the path is `prefix + "/" + rest.join("/")`.
   */
  function TargetOf(prefix: string, paths: seq<string>): (t: Target)
    ensures StartsWith(t.path, prefix + "/")
    ensures paths == [] ==> t == Target(prefix + "/", None)
    ensures paths != [] ==> t.name == Some(paths[|paths| - 1])
  {
    if paths == [] then Target(prefix + "/", None)
    else Target(prefix + "/" + Join(paths[..|paths| - 1], "/"), Some(paths[|paths| - 1]))
  }

  /**
   * The path can be read back: after the prefix and '/', splitting on '/'
   * gives the names before the method, when none of them holds a '/'.
   */
  lemma PathReadsBack(prefix: string, paths: seq<string>)
    requires |paths| >= 2 && forall k :: 0 <= k < |paths| ==> '/' !in paths[k]
    ensures var t := TargetOf(prefix, paths);
      Split(t.path[|prefix| + 1..], '/') == paths[..|paths| - 1]
  {
    var init := paths[..|paths| - 1];
    var t := TargetOf(prefix, paths);
    assert t.path[|prefix| + 1..] == Join(init, "/");
    SplitJoin(init, '/');
  }
}
