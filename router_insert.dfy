/**
 * The trie walk of `Router.add` (lines 36-150 of the router): the literal
 * head is walked from the root with the three branches of the inner loop
 * (move the current node down, add a static child, split the node), each
 * parameter step goes through the node's parameter child, and the path's end
 * is stored first-wins in the static, wildcard or parameter slot.
 *
 * The source mutates nodes in place; here the walk rebuilds the nodes it
 * passes through, so `InsertAt` returns the new node and what `add` returns.
 *
 * `Slot` is the abstract view the walk is proved against: the store a route
 * addresses in a trie, read by comparing whole parts.
 */
module RouterInsert {
  import opened Wrappers
  import opened RouterNode
  import opened RoutePath

  /** What `add` ends with: the store held by the slot, or the parameter-name error. */
  datatype Added<T> = Held(store: T) | Conflict(wanted: string, existing: string)

  /** The inner loop's index `j` when it stops: the length of the common prefix. */
  function Lcp(a: string, b: string): (r: nat)
    ensures r <= |a| && r <= |b| && a[..r] == b[..r]
    ensures r < |a| && r < |b| ==> a[r] != b[r]
  {
    if a == [] || b == [] || a[0] != b[0] then 0 else 1 + Lcp(a[1..], b[1..])
  }

  /** The end of `add`: a slot that is already set keeps its value. */
  function Finish<T>(n: Node<T>, last: Last, v: T): (r: (Node<T>, Added<T>))
    ensures r.0.part == n.part && r.0.inert == n.inert
  {
    match last
    case ParamEnd(name) =>
      if n.params.None? then (n.(params := Some(CreateParamNode(name).(store := Some(v)))), Held(v))
      else if n.params.value.paramName != name then (n, Conflict(name, n.params.value.paramName))
      else if n.params.value.store.None? then (n.(params := Some(n.params.value.(store := Some(v)))), Held(v))
      else (n, Held(n.params.value.store.value))
    case WildcardEnd =>
      if n.wildcardStore.None? then (n.(wildcardStore := Some(v)), Held(v)) else (n, Held(n.wildcardStore.value))
    case StaticEnd =>
      if n.store.None? then (n.(store := Some(v)), Held(v)) else (n, Held(n.store.value))
  }

  /**
   * Inserts the literal `part` at node `n` (whose own part is compared from
   * index 0), then the parameter steps and the end. The inner loop stops at
   * the first index where `part` or the node's part ends or they differ.
   */
  function InsertAt<T>(n: Node<T>, part: string, steps: seq<Step>, last: Last, v: T): (r: (Node<T>, Added<T>))
    decreases |steps|, 1, n, 1
    ensures r.1.Conflict? ==> r.0 == n
  {
    var j := Lcp(part, n.part);
    if j == |part| then
      if j < |n.part| then MoveDown(n, j, steps, last, v) else AtTarget(n, steps, last, v)
    else if j == |n.part| then IntoChild(n, part, steps, last, v)
    else Split(n, part, j, steps, last, v)
  }

  /** `part` ends inside the node: the node keeps the prefix and its tail moves to a clone below it. */
  function MoveDown<T>(n: Node<T>, j: nat, steps: seq<Step>, last: Last, v: T): (r: (Node<T>, Added<T>))
    requires j < |n.part|
    decreases |steps|, 1, n, 0
    ensures r.1.Conflict? ==> r.0 == n
  {
    var (m, a) := AtTarget(CreateNode(n.part[..j], [CloneNode(n, n.part[j..])]), steps, last, v);
    if a.Conflict? then (n, a) else (m, a)
  }

  /** The node's part is used up: continue in the static child for the next character, or add one. */
  function IntoChild<T>(n: Node<T>, part: string, steps: seq<Step>, last: Last, v: T): (r: (Node<T>, Added<T>))
    requires |n.part| < |part|
    decreases |steps|, 1, n, 0
    ensures r.1.Conflict? ==> r.0 == n
  {
    var j := |n.part|;
    var c := part[j];
    var (child, a) :=
      if c in n.inert then InsertAt(n.inert[c], part[j..], steps, last, v)
      else AtTarget(CreateNode(part[j..], []), steps, last, v);
    if a.Conflict? then (n, a) else (n.(inert := n.inert[c := child]), a)
  }

  /** `part` and the node differ at `j`: a new node holds the common prefix, with both tails below it. */
  function Split<T>(n: Node<T>, part: string, j: nat, steps: seq<Step>, last: Last, v: T): (r: (Node<T>, Added<T>))
    requires j < |part| && j < |n.part|
    decreases |steps|, 1, n, 0
    ensures r.1.Conflict? ==> r.0 == n
  {
    var (child, a) := AtTarget(CreateNode(part[j..], []), steps, last, v);
    if a.Conflict? then (n, a)
    else (CreateNode(n.part[..j], [CloneNode(n, n.part[j..]), child]), a)
  }

  /** At the node the literal led to: the next parameter step, or the end. */
  function AtTarget<T>(n: Node<T>, steps: seq<Step>, last: Last, v: T): (r: (Node<T>, Added<T>))
    decreases |steps|, 0, n, 0
    ensures r.0.part == n.part && r.0.inert == n.inert
    ensures r.1.Conflict? ==> r.0 == n
  {
    if steps == [] then Finish(n, last, v)
    else
      var step := steps[0];
      var pn := if n.params.None? then CreateParamNode(step.param) else n.params.value;
      if pn.paramName != step.param then (n, Conflict(step.param, pn.paramName))
      else
        var (child, a) :=
          if pn.inert.None? then AtTarget(CreateNode(step.part, []), steps[1..], last, v)
          else InsertAt(pn.inert.value, step.part, steps[1..], last, v);
        if a.Conflict? then (n, a) else (n.(params := Some(pn.(inert := Some(child)))), a)
  }

  /**
   * The store the route (literal `s`, then `steps`, then `last`) addresses
   * below `n`, reading whole parts.
   */
  function Slot<T>(n: Node<T>, s: string, steps: seq<Step>, last: Last): Option<T>
    decreases n, 1
  {
    if |s| < |n.part| || s[..|n.part|] != n.part then None
    else if |s| == |n.part| then SlotFrom(n, steps, last)
    else if s[|n.part|] in n.inert then Slot(n.inert[s[|n.part|]], s[|n.part|..], steps, last)
    else None
  }

  function SlotFrom<T>(n: Node<T>, steps: seq<Step>, last: Last): Option<T>
    decreases n, 0
  {
    if steps == [] then
      match last
      case StaticEnd => n.store
      case WildcardEnd => n.wildcardStore
      case ParamEnd(name) =>
        if n.params.Some? && n.params.value.paramName == name then n.params.value.store else None
    else if n.params.Some? && n.params.value.paramName == steps[0].param && n.params.value.inert.Some? then
      Slot(n.params.value.inert.value, steps[0].part, steps[1..], last)
    else None
  }

  /** Walking the route meets a parameter child under another name. */
  ghost predicate ConflictIn<T>(n: Node<T>, s: string, steps: seq<Step>, last: Last)
    decreases n, 1
  {
    if |s| < |n.part| || s[..|n.part|] != n.part then false
    else if |s| == |n.part| then ConflictFrom(n, steps, last)
    else if s[|n.part|] in n.inert then ConflictIn(n.inert[s[|n.part|]], s[|n.part|..], steps, last)
    else false
  }

  ghost predicate ConflictFrom<T>(n: Node<T>, steps: seq<Step>, last: Last)
    decreases n, 0
  {
    if steps == [] then last.ParamEnd? && n.params.Some? && n.params.value.paramName != last.name
    else
      && n.params.Some?
      && (|| n.params.value.paramName != steps[0].param
          || (n.params.value.inert.Some? && ConflictIn(n.params.value.inert.value, steps[0].part, steps[1..], last)))
  }

  /** What an insertion promises for its own route. */
  ghost predicate Inserted<T>(before: Option<T>, conflict: bool, n': Node<T>, a: Added<T>, after: Option<T>, v: T, n: Node<T>)
  {
    && (a.Conflict? <==> conflict)
    && (a.Conflict? ==> n' == n)
    && (a.Held? ==> after == Some(a.store) && a.store == (if before.Some? then before.value else v))
  }

  /** A leaf node's slots are empty and it has no parameter child. */
  lemma FreshSlot<T>(part: string, steps: seq<Step>, last: Last)
    ensures SlotFrom(CreateNode<T>(part, []), steps, last).None?
    ensures !ConflictFrom(CreateNode<T>(part, []), steps, last)
  {
  }

  /** `InsertAt`'s promise for its own route. */
  ghost predicate SpecAt<T>(n: Node<T>, part: string, steps: seq<Step>, last: Last, v: T)
  {
    var r := InsertAt(n, part, steps, last, v);
    Inserted(Slot(n, part, steps, last), ConflictIn(n, part, steps, last), r.0, r.1, Slot(r.0, part, steps, last), v, n)
  }

  /**
   * `add` on its own route: it fails exactly when the walk meets a parameter
   * child of another name, and then changes nothing; otherwise the route's
   * slot holds the first value ever stored there, which is what `add` returns.
   */
  lemma {:induction false} InsertAtSpec<T>(n: Node<T>, part: string, steps: seq<Step>, last: Last, v: T)
    decreases |steps|, 1, n, 1
    ensures SpecAt(n, part, steps, last, v)
  {
    var j := Lcp(part, n.part);
    if j == |part| {
      if j < |n.part| {
        MoveDownSpec(n, part, j, steps, last, v);
      } else {
        assert part == n.part;
        AtTargetSpec(n, steps, last, v);
      }
    } else if j == |n.part| {
      assert part[..|n.part|] == n.part;
      IntoChildSpec(n, part, steps, last, v);
    } else {
      SplitSpec(n, part, j, steps, last, v);
    }
  }

  lemma {:induction false} MoveDownSpec<T>(n: Node<T>, part: string, j: nat, steps: seq<Step>, last: Last, v: T)
    requires j == |part| < |n.part| && part == n.part[..j]
    decreases |steps|, 1, n, 0
    ensures var r := MoveDown(n, j, steps, last, v);
      Inserted(Slot(n, part, steps, last), ConflictIn(n, part, steps, last), r.0, r.1, Slot(r.0, part, steps, last), v, n)
  {
    var m := CreateNode(n.part[..j], [CloneNode(n, n.part[j..])]);
    AtTargetSpec(m, steps, last, v);
  }

  lemma {:induction false} IntoChildSpec<T>(n: Node<T>, part: string, steps: seq<Step>, last: Last, v: T)
    requires |n.part| < |part| && part[..|n.part|] == n.part
    decreases |steps|, 1, n, 0
    ensures var r := IntoChild(n, part, steps, last, v);
      Inserted(Slot(n, part, steps, last), ConflictIn(n, part, steps, last), r.0, r.1, Slot(r.0, part, steps, last), v, n)
  {
    var j := |n.part|;
    var c := part[j];
    if c in n.inert {
      InsertAtSpec(n.inert[c], part[j..], steps, last, v);
    } else {
      AtTargetSpec(CreateNode<T>(part[j..], []), steps, last, v);
    }
  }

  lemma {:induction false} SplitSpec<T>(n: Node<T>, part: string, j: nat, steps: seq<Step>, last: Last, v: T)
    requires j < |part| && j < |n.part| && part[..j] == n.part[..j] && part[j] != n.part[j]
    decreases |steps|, 1, n, 0
    ensures var r := Split(n, part, j, steps, last, v);
      Inserted(Slot(n, part, steps, last), ConflictIn(n, part, steps, last), r.0, r.1, Slot(r.0, part, steps, last), v, n)
  {
    var leaf := CreateNode<T>(part[j..], []);
    AtTargetSpec(leaf, steps, last, v);
    assert |part| < |n.part| || part[..|n.part|] != n.part by {
      if |part| >= |n.part| {
        assert part[..|n.part|][j] != n.part[j];
      }
    }
    var r := Split(n, part, j, steps, last, v);
    if r.1.Held? {
      var child := AtTarget(leaf, steps, last, v).0;
      var existing := CloneNode(n, n.part[j..]);
      assert DistinctHeads([existing, child]);
      assert r.0 == CreateNode(n.part[..j], [existing, child]);
      assert [existing, child][1].part[0] == part[j];
      assert r.0.inert[part[j]] == child;
      assert part[j..] == child.part;
    }
  }

  lemma {:induction false} AtTargetSpec<T>(n: Node<T>, steps: seq<Step>, last: Last, v: T)
    decreases |steps|, 0, n, 0
    ensures var r := AtTarget(n, steps, last, v);
      Inserted(SlotFrom(n, steps, last), ConflictFrom(n, steps, last), r.0, r.1, SlotFrom(r.0, steps, last), v, n)
  {
    if steps != [] {
      var step := steps[0];
      var pn := if n.params.None? then CreateParamNode(step.param) else n.params.value;
      if pn.paramName == step.param {
        if pn.inert.None? {
          AtTargetSpec(CreateNode<T>(step.part, []), steps[1..], last, v);
        } else {
          InsertAtSpec(pn.inert.value, step.part, steps[1..], last, v);
        }
      }
    }
  }

  /** Moving a node's tail into a clone keeps every route through it. */
  lemma CloneSlot<T>(n: Node<T>, j: nat, s: string, steps: seq<Step>, last: Last)
    requires j < |n.part| && j <= |s| && s[..j] == n.part[..j]
    ensures Slot(CloneNode(n, n.part[j..]), s[j..], steps, last) == Slot(n, s, steps, last)
  {
    var k := |n.part|;
    if |s| >= k {
      assert (s[..k] == n.part) == (s[j..][..k - j] == n.part[j..]) by {
        if s[j..][..k - j] == n.part[j..] {
          assert s[..k] == s[..j] + s[j..][..k - j];
          assert n.part == n.part[..j] + n.part[j..];
        }
      }
      assert s[j..][k - j..] == s[k..];
    }
  }

  /** A route whose slot held a value still holds it; `InsertAtKeeps` is the statement. */
  ghost predicate KeepsAt<T>(n: Node<T>, n': Node<T>, s: string, steps': seq<Step>, last': Last)
  {
    Slot(n, s, steps', last').Some? ==> Slot(n', s, steps', last') == Slot(n, s, steps', last')
  }

  /**
   * Node splits keep earlier registrations: every route whose slot held a
   * value before `add` holds the same value after it.
   */
  lemma {:induction false} InsertAtKeeps<T>(n: Node<T>, part: string, steps: seq<Step>, last: Last, v: T,
                                            s: string, steps': seq<Step>, last': Last)
    decreases |steps|, 1, n, 1
    ensures KeepsAt(n, InsertAt(n, part, steps, last, v).0, s, steps', last')
  {
    var j := Lcp(part, n.part);
    if j == |part| {
      if j < |n.part| {
        MoveDownKeeps(n, j, steps, last, v, s, steps', last');
      } else if |s| == |n.part| {
        AtTargetKeeps(n, steps, last, v, steps', last');
      }
    } else if j == |n.part| {
      IntoChildKeeps(n, part, steps, last, v, s, steps', last');
    } else {
      SplitKeeps(n, part, j, steps, last, v, s, steps', last');
    }
  }

  lemma MoveDownKeeps<T>(n: Node<T>, j: nat, steps: seq<Step>, last: Last, v: T,
                         s: string, steps': seq<Step>, last': Last)
    requires j < |n.part|
    ensures KeepsAt(n, MoveDown(n, j, steps, last, v).0, s, steps', last')
  {
    var r := MoveDown(n, j, steps, last, v);
    if Slot(n, s, steps', last').Some? && r.1.Held? {
      var existing := CloneNode(n, n.part[j..]);
      assert r.0.inert == map[n.part[j] := existing];
      assert s[..j] == n.part[..j] && s[j] == n.part[j] by {
        assert s[..|n.part|] == n.part;
      }
      CloneSlot(n, j, s, steps', last');
    }
  }

  lemma {:induction false} IntoChildKeeps<T>(n: Node<T>, part: string, steps: seq<Step>, last: Last, v: T,
                                             s: string, steps': seq<Step>, last': Last)
    requires |n.part| < |part|
    decreases |steps|, 1, n, 0
    ensures KeepsAt(n, IntoChild(n, part, steps, last, v).0, s, steps', last')
  {
    var j := |n.part|;
    var c := part[j];
    if |s| > j && s[j] == c && c in n.inert {
      InsertAtKeeps(n.inert[c], part[j..], steps, last, v, s[j..], steps', last');
    }
  }

  lemma SplitKeeps<T>(n: Node<T>, part: string, j: nat, steps: seq<Step>, last: Last, v: T,
                      s: string, steps': seq<Step>, last': Last)
    requires j < |part| && j < |n.part| && part[j] != n.part[j]
    ensures KeepsAt(n, Split(n, part, j, steps, last, v).0, s, steps', last')
  {
    var r := Split(n, part, j, steps, last, v);
    if Slot(n, s, steps', last').Some? && r.1.Held? {
      var existing := CloneNode(n, n.part[j..]);
      var child := AtTarget(CreateNode<T>(part[j..], []), steps, last, v).0;
      assert DistinctHeads([existing, child]);
      assert r.0 == CreateNode(n.part[..j], [existing, child]);
      assert [existing, child][0].part[0] == n.part[j];
      assert r.0.inert[n.part[j]] == existing;
      assert s[..j] == n.part[..j] && s[j] == n.part[j] by {
        assert s[..|n.part|] == n.part;
      }
      CloneSlot(n, j, s, steps', last');
    }
  }

  lemma {:induction false} AtTargetKeeps<T>(n: Node<T>, steps: seq<Step>, last: Last, v: T,
                                            steps': seq<Step>, last': Last)
    decreases |steps|, 0, n, 0
    ensures SlotFrom(n, steps', last').Some? ==>
      SlotFrom(AtTarget(n, steps, last, v).0, steps', last') == SlotFrom(n, steps', last')
  {
    if steps != [] && steps' != [] && n.params.Some? {
      var step := steps[0];
      var pn := n.params.value;
      if pn.paramName == step.param && pn.inert.Some? {
        InsertAtKeeps(pn.inert.value, step.part, steps[1..], last, v, steps'[0].part, steps'[1..], last');
      }
    }
  }

  /** A node made of well-formed children is well-formed. */
  lemma CreateWellFormed<T>(part: string, children: seq<Node<T>>)
    requires forall i :: 0 <= i < |children| ==> children[i].part != "" && WellFormed(children[i])
    ensures WellFormed(CreateNode(part, children))
  {
    var m := CreateNode(part, children);
    forall c | c in m.inert
      ensures WellFormed(m.inert[c])
    {
      var i :| 0 <= i < |children| && children[i] == m.inert[c];
    }
  }

  /** Replacing one child with a well-formed child under its own first character. */
  lemma UpdateWellFormed<T>(n: Node<T>, c: char, child: Node<T>)
    requires WellFormed(n) && WellFormed(child) && child.part != "" && child.part[0] == c
    ensures WellFormed(n.(inert := n.inert[c := child]))
  {
  }

  /** What `InsertAtWellFormed` states. */
  ghost predicate WellFormedAt<T>(n: Node<T>, part: string, steps: seq<Step>, last: Last, v: T)
  {
    var r := InsertAt(n, part, steps, last, v);
    WellFormed(r.0) && (r.1.Held? ==> r.0.part == n.part[..Lcp(part, n.part)])
  }

  /**
   * The inner loop keeps every child keyed by the first character of its
   * part; the node `add` leaves in place of `n` has the common prefix as its part.
   */
  lemma {:induction false} InsertAtWellFormed<T>(n: Node<T>, part: string, steps: seq<Step>, last: Last, v: T)
    requires WellFormed(n)
    decreases |steps|, 1, n, 1
    ensures WellFormedAt(n, part, steps, last, v)
  {
    var j := Lcp(part, n.part);
    if j == |part| {
      if j < |n.part| {
        MoveDownWellFormed(n, j, steps, last, v);
      } else {
        AtTargetWellFormed(n, steps, last, v);
      }
    } else if j == |n.part| {
      IntoChildWellFormed(n, part, steps, last, v);
    } else {
      SplitWellFormed(n, part, j, steps, last, v);
    }
  }

  lemma {:induction false} MoveDownWellFormed<T>(n: Node<T>, j: nat, steps: seq<Step>, last: Last, v: T)
    requires WellFormed(n) && j < |n.part|
    decreases |steps|, 1, n, 0
    ensures var r := MoveDown(n, j, steps, last, v);
      WellFormed(r.0) && (r.1.Held? ==> r.0.part == n.part[..j])
  {
    var existing := CloneNode(n, n.part[j..]);
    CreateWellFormed(n.part[..j], [existing]);
    AtTargetWellFormed(CreateNode(n.part[..j], [existing]), steps, last, v);
  }

  lemma {:induction false} IntoChildWellFormed<T>(n: Node<T>, part: string, steps: seq<Step>, last: Last, v: T)
    requires WellFormed(n) && |n.part| < |part|
    decreases |steps|, 1, n, 0
    ensures var r := IntoChild(n, part, steps, last, v);
      WellFormed(r.0) && (r.1.Held? ==> r.0.part == n.part)
  {
    var j := |n.part|;
    var c := part[j];
    var r := IntoChild(n, part, steps, last, v);
    if c in n.inert {
      var child := n.inert[c];
      InsertAtWellFormed(child, part[j..], steps, last, v);
      if r.1.Held? {
        assert Lcp(part[j..], child.part) >= 1;
        UpdateWellFormed(n, c, InsertAt(child, part[j..], steps, last, v).0);
      }
    } else {
      var leaf := CreateNode<T>(part[j..], []);
      AtTargetWellFormed(leaf, steps, last, v);
      if r.1.Held? {
        UpdateWellFormed(n, c, AtTarget(leaf, steps, last, v).0);
      }
    }
  }

  lemma {:induction false} SplitWellFormed<T>(n: Node<T>, part: string, j: nat, steps: seq<Step>, last: Last, v: T)
    requires WellFormed(n) && j < |part| && j < |n.part|
    decreases |steps|, 1, n, 0
    ensures var r := Split(n, part, j, steps, last, v);
      WellFormed(r.0) && (r.1.Held? ==> r.0.part == n.part[..j])
  {
    var leaf := CreateNode<T>(part[j..], []);
    AtTargetWellFormed(leaf, steps, last, v);
    var child := AtTarget(leaf, steps, last, v).0;
    CreateWellFormed(n.part[..j], [CloneNode(n, n.part[j..]), child]);
  }

  lemma {:induction false} AtTargetWellFormed<T>(n: Node<T>, steps: seq<Step>, last: Last, v: T)
    requires WellFormed(n)
    decreases |steps|, 0, n, 0
    ensures WellFormed(AtTarget(n, steps, last, v).0)
  {
    if steps != [] {
      var step := steps[0];
      var pn := if n.params.None? then CreateParamNode(step.param) else n.params.value;
      if pn.paramName == step.param {
        if pn.inert.None? {
          AtTargetWellFormed(CreateNode<T>(step.part, []), steps[1..], last, v);
        } else {
          InsertAtWellFormed(pn.inert.value, step.part, steps[1..], last, v);
        }
      }
    }
  }
}
