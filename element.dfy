/**
 * `Element`: a node of the parsed markup tree. The parser fills in
 * `children` and `text` in place, so it is a class; its value as a tree is
 * the ghost field `Tree`, which `Valid()` ties to the fields.
 */
module ElementTree {
  import opened Wrappers

  /** The value of an element subtree. */
  datatype Node = Node(name: string, attributes: map<string, string>, text: Option<string>, children: seq<Node>)

  /** The nodes of a tree in pre-order: the node, then each child's subtree in order. */
  function PreOrder(n: Node): seq<Node>
    decreases n, 1
  {
    [n] + PreOrderAll(n.children)
  }

  function PreOrderAll(ns: seq<Node>): seq<Node>
    decreases ns, 0
  {
    if ns == [] then [] else PreOrderAll(ns[..|ns| - 1]) + PreOrder(ns[|ns| - 1])
  }

  /** The node's own line of `description`. */
  function Line(n: Node, dictionaryText: map<string, string> -> string): string {
    n.name
    + (if n.text.Some? then ", text: " + n.text.value else "")
    + (if |n.attributes| > 0 then ", attributes: " + dictionaryText(n.attributes) else "")
    + "\n"
  }

  /**
   * `description`. The text Swift prints for a dictionary depends on its
   * hashing order, so it is the parameter `dictionaryText`.
   */
  function Description(n: Node, dictionaryText: map<string, string> -> string): string
    decreases n, 1
  {
    Line(n, dictionaryText) + DescribeAll(n.children, dictionaryText)
  }

  function DescribeAll(ns: seq<Node>, dictionaryText: map<string, string> -> string): string
    decreases ns, 0
  {
    if ns == [] then "" else DescribeAll(ns[..|ns| - 1], dictionaryText) + Description(ns[|ns| - 1], dictionaryText)
  }

  /** The lines of the given nodes, one after the other. */
  function Lines(ns: seq<Node>, dictionaryText: map<string, string> -> string): string {
    if ns == [] then "" else Lines(ns[..|ns| - 1], dictionaryText) + Line(ns[|ns| - 1], dictionaryText)
  }

  lemma {:induction false} LinesAppend(a: seq<Node>, b: seq<Node>, d: map<string, string> -> string)
    ensures Lines(a + b, d) == Lines(a, d) + Lines(b, d)
    decreases |b|
  {
    if b == [] {
      assert a + b == a;
    } else {
      var front, last := b[..|b| - 1], b[|b| - 1];
      LinesAppend(a, front, d);
      assert (a + b)[..|a + b| - 1] == a + front && (a + b)[|a + b| - 1] == last;
      assert Lines(a + b, d) == Lines(a + front, d) + Line(last, d);
      AppendAssoc(Lines(a, d), Lines(front, d), Line(last, d));
    }
  }

  /** `description` is a pre-order dump: the lines of all nodes of the tree, in pre-order. */
  lemma {:induction false} DescriptionIsPreOrderDump(n: Node, d: map<string, string> -> string)
    ensures Description(n, d) == Lines(PreOrder(n), d)
    decreases n, 1
  {
    DescribeAllIsPreOrderDump(n.children, d);
    LinesAppend([n], PreOrderAll(n.children), d);
    assert Lines([n], d) == Line(n, d) by {
      assert [n][..0] == [];
    }
  }

  lemma {:induction false} DescribeAllIsPreOrderDump(ns: seq<Node>, d: map<string, string> -> string)
    ensures DescribeAll(ns, d) == Lines(PreOrderAll(ns), d)
    decreases ns, 0
  {
    if ns != [] {
      DescribeAllIsPreOrderDump(ns[..|ns| - 1], d);
      DescriptionIsPreOrderDump(ns[|ns| - 1], d);
      LinesAppend(PreOrderAll(ns[..|ns| - 1]), PreOrder(ns[|ns| - 1]), d);
    }
  }

  /** `description` starts with the element's name. */
  lemma DescriptionStartsWithName(n: Node, d: map<string, string> -> string)
    ensures |n.name| <= |Description(n, d)| && Description(n, d)[..|n.name|] == n.name
  {
    assert Description(n, d) == n.name + (Description(n, d)[|n.name|..]);
  }

  /** Right after the name, the line holds a `, text: ` segment exactly when the text is set. */
  lemma TextSegmentIffText(n: Node, d: map<string, string> -> string)
    ensures var rest := Line(n, d)[|n.name|..];
      (|rest| >= 8 && rest[..8] == ", text: ") <==> n.text.Some?
  {
    var rest := Line(n, d)[|n.name|..];
    if n.text.None? && |n.attributes| > 0 {
      assert rest[2] == 'a';
    }
  }

  /** After the name and the text segment, the line holds an attributes segment exactly when there are attributes. */
  lemma AttributesSegmentIffAttributes(n: Node, d: map<string, string> -> string)
    ensures var k := |n.name| + (if n.text.Some? then 8 + |n.text.value| else 0);
      var rest := Line(n, d)[k..];
      (|rest| >= 14 && rest[..14] == ", attributes: ") <==> |n.attributes| > 0
  {
  }

  /** A leaf with no text and no attributes describes as its name and a newline. */
  lemma BareLeafDescription(name: string, d: map<string, string> -> string)
    ensures Description(Node(name, map[], None, []), d) == name + "\n"
  {
  }

  class Element {
    const name: string
    var attributes: map<string, string>
    var children: seq<Element>
    var text: Option<string>

    ghost var Tree: Node
    ghost var Repr: set<object>

    ghost predicate Valid()
      reads this, Repr
      decreases Repr
    {
      this in Repr
      && (forall i :: 0 <= i < |children| ==>
            children[i] in Repr && children[i].Repr <= Repr && this !in children[i].Repr && children[i].Valid())
      && Tree.name == name && Tree.attributes == attributes && Tree.text == text
      && |Tree.children| == |children|
      && (forall i :: 0 <= i < |children| ==> Tree.children[i] == children[i].Tree)
    }

    /** `init(name:attributes:)`: no children and no text yet. */
    constructor (name: string, attributes: map<string, string>)
      ensures Valid() && fresh(Repr) && Repr == {this}
      ensures this.name == name && this.attributes == attributes && children == [] && text == None
      ensures Tree == Node(name, attributes, None, [])
    {
      this.name := name;
      this.attributes := attributes;
      children := [];
      text := None;
      Tree := Node(name, attributes, None, []);
      Repr := {this};
    }

    /** `children.append(child)`. */
    method AppendChild(child: Element)
      requires Valid() && child.Valid() && Repr !! child.Repr
      modifies this
      ensures Valid() && Repr == old(Repr) + child.Repr
      ensures children == old(children) + [child] && attributes == old(attributes) && text == old(text)
      ensures Tree == old(Tree).(children := old(Tree).children + [child.Tree])
    {
      assert forall i :: 0 <= i < |children| ==> children[i] in children[i].Repr;
      children := children + [child];
      Repr := Repr + child.Repr;
      Tree := Tree.(children := Tree.children + [child.Tree]);
    }

    /** Assigns `text`. */
    method SetText(t: string)
      requires Valid()
      modifies this`text, this`Tree
      ensures Valid() && text == Some(t)
      ensures Tree == old(Tree).(text := Some(t))
    {
      text := Some(t);
      Tree := Tree.(text := Some(t));
    }

    /** `description`, accumulated line by line as the source does. */
    method Describe(dictionaryText: map<string, string> -> string) returns (s: string)
      requires Valid()
      ensures s == Description(Tree, dictionaryText)
      decreases Repr
    {
      s := name;
      if text.Some? {
        s := s + ", text: " + text.value;
      }
      if |attributes| > 0 {
        s := s + ", attributes: " + dictionaryText(attributes);
      }
      s := s + "\n";
      assert s == Line(Tree, dictionaryText);
      var i := 0;
      while i < |children|
        invariant 0 <= i <= |children|
        invariant s == Line(Tree, dictionaryText) + DescribeAll(Tree.children[..i], dictionaryText)
      {
        var child := children[i];
        assert child in Repr && child.Repr <= Repr && this !in child.Repr && child.Valid();
        var part := child.Describe(dictionaryText);
        assert part == Description(Tree.children[i], dictionaryText);
        DescribeAllSnoc(Tree.children, i, dictionaryText);
        ghost var done := DescribeAll(Tree.children[..i], dictionaryText);
        ghost var line := Line(Tree, dictionaryText);
        AppendAssoc(line, done, part);
        s := s + part;
        i := i + 1;
      }
      assert Tree.children[..i] == Tree.children;
    }
  }

  lemma AppendAssoc(a: string, b: string, c: string)
    ensures (a + b) + c == a + (b + c)
  {
  }

  lemma DescribeAllSnoc(ns: seq<Node>, i: nat, d: map<string, string> -> string)
    requires i < |ns|
    ensures DescribeAll(ns[..i + 1], d) == DescribeAll(ns[..i], d) + Description(ns[i], d)
  {
    assert ns[..i + 1][..i] == ns[..i];
  }
}
