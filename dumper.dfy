/**
 * The tree dumper: a node's path, then one line per property, then the
 * dumps of its children, depth first and in the order the repository
 * reports properties and children.
 */
module Dumper {
  import opened Content
  import opened Sequences

  /** The values of a multiple property, separated by commas. */
  function Join(values: seq<string>): string {
    if |values| == 0 then ""
    else if |values| == 1 then values[0]
    else Join(values[..|values| - 1]) + "," + values[|values| - 1]
  }

  function ValueText(v: PropertyValue): string {
    match v
    case Single(value) => value
    case Multiple(values) => Join(values)
  }

  /** One property: its path, '=', its value or values, a newline. */
  function PropertyLine(p: Property): string {
    p.path + "=" + ValueText(p.value) + "\n"
  }

  function PropertyLines(ps: seq<Property>): string {
    if ps == [] then "" else PropertyLines(ps[..|ps| - 1]) + PropertyLine(ps[|ps| - 1])
  }

  /** The dump of a node: its path (no separator follows it), its property lines, its children's dumps. */
  function Render(n: Node): string
    decreases n
  {
    n.path + PropertyLines(n.properties) + RenderAll(n.children)
  }

  /** The dumps of sibling nodes, one after the other. */
  function RenderAll(ns: seq<Node>): string
    decreases ns
  {
    if ns == [] then "" else RenderAll(ns[..|ns| - 1]) + Render(ns[|ns| - 1])
  }

  lemma JoinStep(values: seq<string>, j: nat)
    requires j < |values|
    ensures Join(values[..j + 1]) == (if j == 0 then "" else Join(values[..j]) + ",") + values[j]
  {
    var w := values[..j + 1];
    assert w[..j] == values[..j] && w[j] == values[j];
  }

  lemma PropertyLinesStep(ps: seq<Property>, i: nat)
    requires i < |ps|
    ensures PropertyLines(ps[..i + 1]) == PropertyLines(ps[..i]) + PropertyLine(ps[i])
  {
    assert ps[..i + 1][..i] == ps[..i];
  }

  lemma RenderAllStep(ns: seq<Node>, k: nat)
    requires k < |ns|
    ensures RenderAll(ns[..k + 1]) == RenderAll(ns[..k]) + Render(ns[k])
  {
    assert ns[..k + 1][..k] == ns[..k];
  }

  /** The appends for one property: its path and '=', its value or its values separated by ",", a newline. */
  method AppendProperty(builder: string, property: Property) returns (appended: string)
    ensures appended == builder + PropertyLine(property)
  {
    appended := builder + property.path + "=";
    ghost var before := appended;
    if property.value.Multiple? {
      var values := property.value.values;
      var j := 0;
      while j < |values|
        invariant 0 <= j <= |values|
        invariant appended == before + Join(values[..j])
      {
        JoinStep(values, j);
        if j > 0 {
          appended := appended + ",";
        }
        appended := appended + values[j];
        j := j + 1;
      }
      assert values[..j] == values;
    } else {
      appended := appended + property.value.value;
    }
    appended := appended + "\n";
  }

  /** dumpNode: appends to one buffer the path, each property in turn, each child's dump. */
  method DumpNode(node: Node) returns (text: string)
    ensures text == Render(node)
    decreases node
  {
    var builder := node.path;
    var i := 0;
    while i < |node.properties|
      invariant 0 <= i <= |node.properties|
      invariant builder == node.path + PropertyLines(node.properties[..i])
    {
      builder := AppendProperty(builder, node.properties[i]);
      assert builder == node.path + PropertyLines(node.properties[..i + 1]) by {
        PropertyLinesStep(node.properties, i);
        AppendAssociative(node.path, PropertyLines(node.properties[..i]), PropertyLine(node.properties[i]));
      }
      i := i + 1;
    }
    ghost var head := node.path + PropertyLines(node.properties);
    assert builder == head by {
      assert node.properties[..i] == node.properties;
    }
    var k := 0;
    while k < |node.children|
      invariant 0 <= k <= |node.children|
      invariant builder == head + RenderAll(node.children[..k])
    {
      var child := DumpNode(node.children[k]);
      builder := builder + child;
      assert builder == head + RenderAll(node.children[..k + 1]) by {
        RenderAllStep(node.children, k);
        AppendAssociative(head, RenderAll(node.children[..k]), child);
      }
      k := k + 1;
    }
    assert builder == Render(node) by {
      assert node.children[..k] == node.children;
    }
    text := builder;
  }

  /** Dumping a run of siblings is dumping its two halves one after the other. */
  lemma {:induction false} RenderAllAppend(a: seq<Node>, b: seq<Node>)
    ensures RenderAll(a + b) == RenderAll(a) + RenderAll(b)
    decreases |b|
  {
    if b == [] {
      assert a + b == a;
    } else {
      var b', last := b[..|b| - 1], b[|b| - 1];
      assert (a + b)[..|a + b| - 1] == a + b';
      assert (a + b)[|a + b| - 1] == last;
      assert RenderAll(a + b) == RenderAll(a + b') + Render(last);
      RenderAllAppend(a, b');
      AppendAssociative(RenderAll(a), RenderAll(b'), Render(last));
    }
  }

  /** The dumps of siblings split around the k-th one. */
  lemma RenderAllSplit(c: seq<Node>, k: nat)
    requires k < |c|
    ensures RenderAll(c) == RenderAll(c[..k]) + Render(c[k]) + RenderAll(c[k + 1..])
  {
    var front := c[..k + 1];
    assert c == front + c[k + 1..];
    RenderAllAppend(front, c[k + 1..]);
    RenderAllStep(c, k);
  }

  /**
   * Pre-order: a node's own path and properties come first, then every child
   * in order, each child's whole dump before the next child's.
   */
  lemma RenderPreOrder(n: Node, k: nat)
    requires k < |n.children|
    ensures Render(n) == n.path + PropertyLines(n.properties) + RenderAll(n.children[..k]) +
      Render(n.children[k]) + RenderAll(n.children[k + 1..])
  {
    var head := n.path + PropertyLines(n.properties);
    var before, child, after := RenderAll(n.children[..k]), Render(n.children[k]), RenderAll(n.children[k + 1..]);
    RenderAllSplit(n.children, k);
    AppendAssociative(head, before + child, after);
    AppendAssociative(head, before, child);
  }

  /**
   * A node "/X" with the property title = "Hello" and one child "/X/Y" that has
   * no properties dumps to "/X", then "/X/title=Hello\n", then "/X/Y".
   */
  lemma DumpOfSmallTree()
    ensures Render(Node("/X", [Property("/X/title", Single("Hello"))], [Node("/X/Y", [], [])])) ==
      "/X/X/title=Hello\n/X/Y"
  {
    assert "/X" + "/X/title=Hello\n" + "/X/Y" == "/X/X/title=Hello\n/X/Y";
    var leaf := Node("/X/Y", [], []);
    assert RenderAll([leaf]) == "/X/Y" by {
      assert [leaf][..0] == [];
      assert Render(leaf) == "/X/Y";
    }
    var ps := [Property("/X/title", Single("Hello"))];
    assert PropertyLines(ps) == "/X/title=Hello\n" by {
      assert ps[..0] == [];
    }
  }

  /** A multiple property lists its values in order, separated by commas. */
  lemma MultipleValuesJoined(path: string, a: string, b: string, c: string)
    ensures PropertyLine(Property(path, Multiple([a, b, c]))) == path + "=" + a + "," + b + "," + c + "\n"
  {
    var vs := [a, b, c];
    assert vs[..2] == [a, b] && [a, b][..1] == [a];
    assert Join([a]) == a;
    assert Join([a, b]) == a + "," + b;
    assert Join(vs) == a + "," + b + "," + c;
  }

  /**
   * Nothing separates a node's path from what follows it: "/a" with a child
   * "/a/b" dumps exactly as a single node "/a/a/b" does.
   */
  lemma PathsRunTogether()
    ensures Render(Node("/a", [], [Node("/a/b", [], [])])) == Render(Node("/a/a/b", [], []))
  {
    assert [Node("/a/b", [], [])][..0] == [];
  }
}
