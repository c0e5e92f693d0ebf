/**
 * The shapes of the radix trie: a node holds a literal `part`, an optional
 * store, a map from a child's first character to that child (`inert`), an
 * optional parameter child and an optional wildcard store. `null` in the
 * source is `None` here; the map key is the character whose char code the
 * source uses. An absent `inert` map is the empty map: every use of `inert`
 * in the source treats `null` and an empty map alike.
 */
module RouterNode {
  import opened Wrappers

  datatype Node<T> = Node(
    part: string,
    store: Option<T>,
    inert: map<char, Node<T>>,
    params: Option<ParamNode<T>>,
    wildcardStore: Option<T>)

  datatype ParamNode<T> = ParamNode(paramName: string, store: Option<T>, inert: Option<Node<T>>)

  /** No two children start with the same character. */
  ghost predicate DistinctHeads<T>(children: seq<Node<T>>)
    requires forall i :: 0 <= i < |children| ==> children[i].part != ""
  {
    forall i, j :: 0 <= i < j < |children| ==> children[i].part[0] != children[j].part[0]
  }

  /** `new Map(children.map(c => [c.part.charCodeAt(0), c]))`: a later child wins a shared key. */
  function ChildMap<T>(children: seq<Node<T>>): (m: map<char, Node<T>>)
    requires forall i :: 0 <= i < |children| ==> children[i].part != ""
    ensures forall i :: 0 <= i < |children| ==> children[i].part[0] in m
    ensures forall c :: c in m ==> m[c].part != "" && m[c].part[0] == c
  {
    if |children| == 0 then map[]
    else
      var m := ChildMap(children[1..]);
      var head := children[0];
      if head.part[0] in m then m else m[head.part[0] := head]
  }

  /** The map holds only the children it was built from. */
  lemma {:induction false} ChildMapFrom<T>(children: seq<Node<T>>)
    requires forall i :: 0 <= i < |children| ==> children[i].part != ""
    ensures forall c :: c in ChildMap(children) ==> ChildMap(children)[c] in children
  {
    if |children| > 0 {
      var tail := children[1..];
      ChildMapFrom(tail);
      forall c | c in ChildMap(children) ensures ChildMap(children)[c] in children {
        if ChildMap(children)[c] != children[0] {
          var k :| 0 <= k < |tail| && tail[k] == ChildMap(tail)[c];
          assert children[k + 1] == tail[k];
        }
      }
    }
  }

  /** With distinct first characters, every child is found under its own first character. */
  lemma {:induction false} ChildMapDistinct<T>(children: seq<Node<T>>, i: nat)
    requires forall k :: 0 <= k < |children| ==> children[k].part != ""
    requires DistinctHeads(children) && i < |children|
    ensures ChildMap(children)[children[i].part[0]] == children[i]
  {
    var tail := children[1..];
    if i == 0 {
      ChildMapFrom(tail);
      var m := ChildMap(tail);
      forall c | c in m ensures c != children[0].part[0] {
        var k :| 0 <= k < |tail| && tail[k] == m[c];
        assert children[k + 1].part[0] == c;
      }
    } else {
      ChildMapDistinct(tail, i - 1);
    }
  }

  /**
   * `createNode(part, children?)`: no store, no parameter child, no wildcard,
   * and each given child stored under its first character. (Every caller
   * passes children whose parts are non-empty and start differently.)
   */
  function CreateNode<T>(part: string, children: seq<Node<T>>): (n: Node<T>)
    requires forall i :: 0 <= i < |children| ==> children[i].part != ""
    ensures n.part == part && n.store.None? && n.params.None? && n.wildcardStore.None?
    ensures forall i :: 0 <= i < |children| ==> children[i].part[0] in n.inert
    ensures forall c :: c in n.inert ==> n.inert[c] in children
    ensures DistinctHeads(children) ==> forall i :: 0 <= i < |children| ==> n.inert[children[i].part[0]] == children[i]
    ensures Keyed(n)
  {
    ChildMapFrom(children);
    assert DistinctHeads(children) ==> forall i :: 0 <= i < |children| ==> ChildMap(children)[children[i].part[0]] == children[i] by {
      if DistinctHeads(children) {
        forall i | 0 <= i < |children| ensures ChildMap(children)[children[i].part[0]] == children[i] {
          ChildMapDistinct(children, i);
        }
      }
    }
    Node(part, None, ChildMap(children), None, None)
  }

  /** `cloneNode(node, part)`: the same node under a new `part`. */
  function CloneNode<T>(node: Node<T>, part: string): (n: Node<T>)
    ensures n.part == part
    ensures n.store == node.store && n.inert == node.inert
    ensures n.params == node.params && n.wildcardStore == node.wildcardStore
  {
    node.(part := part)
  }

  /** `createParamNode(name)`: a parameter child with no store and no static continuation. */
  function CreateParamNode<T>(name: string): (p: ParamNode<T>)
    ensures p.paramName == name && p.store.None? && p.inert.None?
  {
    ParamNode(name, None, None)
  }

  /** Every child in `inert` is stored under the first character of its `part`. */
  ghost predicate Keyed<T>(n: Node<T>)
  {
    forall c :: c in n.inert ==> n.inert[c].part != "" && n.inert[c].part[0] == c
  }

  /** `Keyed` holds at every node of the trie, below static and parameter children alike. */
  ghost predicate WellFormed<T>(n: Node<T>)
  {
    && Keyed(n)
    && (forall c :: c in n.inert ==> WellFormed(n.inert[c]))
    && (n.params.Some? && n.params.value.inert.Some? ==> WellFormed(n.params.value.inert.value))
  }
}
