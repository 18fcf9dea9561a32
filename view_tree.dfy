/**
 * The tree of Accelera views the banner controller builds: each view with
 * its identifier, the kind of view it is, its element, and its
 * `descendents` in order.
 */
module ViewTree {
  import opened Wrappers
  import opened ElementTree

  /** The view classes the controller instantiates. */
  datatype Kind = BlockKind | LabelKind | ImageKind | ButtonKind

  datatype ViewNode = ViewNode(id: nat, kind: Kind, element: Node, descendents: seq<ViewNode>)

  /** The position of the first view with the given identifier. */
  function IndexOf(vs: seq<ViewNode>, id: nat): (r: Option<nat>)
    ensures r.Some? ==> r.value < |vs| && vs[r.value].id == id && forall j :: 0 <= j < r.value ==> vs[j].id != id
    ensures r.None? ==> forall j :: 0 <= j < |vs| ==> vs[j].id != id
  {
    if vs == [] then None
    else if vs[0].id == id then Some(0)
    else
      var rest := IndexOf(vs[1..], id);
      if rest.Some? then Some(rest.value + 1) else None
  }

  /** No view before position `i` has identifier `id`. */
  predicate FirstWith(vs: seq<ViewNode>, id: nat, i: nat) {
    forall j :: 0 <= j < i && j < |vs| ==> vs[j].id != id
  }

  /**
   * `descendents.before(view)`: the view just before `v`, found by identity
   * (views compare by identifier); nil for the first view or one not in the list.
   */
  function Before(vs: seq<ViewNode>, v: ViewNode): (r: Option<ViewNode>)
    ensures r.Some? ==> exists i :: 0 < i < |vs| && vs[i].id == v.id && r.value == vs[i - 1] && FirstWith(vs, v.id, i)
    ensures r.None? <==> (vs != [] && vs[0].id == v.id) || forall j :: 0 <= j < |vs| ==> vs[j].id != v.id
  {
    var i := IndexOf(vs, v.id);
    if i.Some? && i.value > 0 then Some(vs[i.value - 1]) else None
  }

  /** `descendents.last == view`. */
  function IsLast(vs: seq<ViewNode>, v: ViewNode): (r: bool)
    ensures r <==> vs != [] && vs[|vs| - 1].id == v.id
  {
    vs != [] && vs[|vs| - 1].id == v.id
  }

  /** Sibling identifiers strictly increase, so no two siblings are equal. */
  predicate Increasing(vs: seq<ViewNode>) {
    forall i, j :: 0 <= i < j < |vs| ==> vs[i].id < vs[j].id
  }

  /**
   * With distinct sibling identifiers, identity finds each view's own
   * position: the view before the i-th is the (i-1)-th, and only the final
   * view is last.
   */
  lemma PositionsByIdentity(vs: seq<ViewNode>, i: nat)
    requires Increasing(vs) && i < |vs|
    ensures Before(vs, vs[i]) == if i == 0 then None else Some(vs[i - 1])
    ensures IsLast(vs, vs[i]) <==> i == |vs| - 1
  {
    var k := IndexOf(vs, vs[i].id);
    assert k == Some(i);
  }

  /** Without distinct identifiers a later copy is given the wrong predecessor. */
  lemma DuplicateIdentifiersConfuseBefore(a: ViewNode, b: ViewNode)
    requires a.id != b.id
    ensures Before([a, b, a], a) == None
    ensures IsLast([a, b, a], a)
  {
    assert IndexOf([a, b, a], a.id) == Some(0);
  }
}
