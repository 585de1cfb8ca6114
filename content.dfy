/** The part of a repository's content the model looks at: a tree of nodes with properties. */
module Content {

  /** A property holds one value, or several when its definition is multiple. */
  datatype PropertyValue = Single(value: string) | Multiple(values: seq<string>)

  /** A property, known by its absolute path. */
  datatype Property = Property(path: string, value: PropertyValue)

  /** A node: its absolute path, its properties and its child nodes, each in the order the repository reports them. */
  datatype Node = Node(path: string, properties: seq<Property>, children: seq<Node>)
}

/**
 * Absolute JCR paths, as far as rename needs them: the parent of a node's
 * path and the destination path that rename builds.
 */
module Paths {
  import opened Wrappers

  /** An absolute path: it starts with '/', has no empty segment and no trailing '/' (except the root "/"). */
  predicate WellFormed(p: string) {
    |p| >= 1 && p[0] == '/' &&
    (p == "/" || (p[|p| - 1] != '/' && forall i :: 0 <= i < |p| - 1 ==> !(p[i] == '/' && p[i + 1] == '/')))
  }

  /** A single path segment. */
  predicate IsName(n: string) {
    |n| > 0 && '/' !in n
  }

  /** The index of the last '/' in `p`, or -1 when there is none. */
  function LastSlash(p: string): (i: int)
    ensures -1 <= i < |p|
    ensures 0 <= i ==> p[i] == '/'
    ensures forall j :: i < j < |p| ==> p[j] != '/'
  {
    if p == [] then -1
    else if p[|p| - 1] == '/' then |p| - 1
    else LastSlash(p[..|p| - 1])
  }

  /** node.getParent().getPath(): the root has no parent, a node directly under the root has "/". */
  function Parent(p: string): Option<string> {
    if p == "/" then None
    else
      var i := LastSlash(p);
      if i <= 0 then Some("/") else Some(p[..i])
  }

  /** The last segment of a path. */
  function Name(p: string): string {
    p[LastSlash(p) + 1..]
  }

  /** The destination rename builds, as written: the parent's path, a '/', the new name. */
  function RenameDestinationAsWritten(parentPath: string, newName: string): string {
    parentPath + "/" + newName
  }

  /** The destination rename means to build: the sibling of the node called `newName`. */
  function RenameDestination(parentPath: string, newName: string): string {
    if parentPath == "/" then "/" + newName else parentPath + "/" + newName
  }

  /** For a node directly under the root, the destination as written starts with "//", which is no path. */
  lemma RenameUnderRootAsWritten(newName: string)
    requires IsName(newName)
    ensures Parent("/" + newName) == Some("/")
    ensures !WellFormed(RenameDestinationAsWritten(Parent("/" + newName).value, newName))
  {
    LastSlashOfJoin("", newName);
    assert "/" + newName == "" + "/" + newName;
    var d := RenameDestinationAsWritten("/", newName);
    assert d[0] == '/' && d[1] == '/';
  }

  /** The two destinations differ only when the parent is the root. */
  lemma RenameDestinationAgreesBelowRoot(parentPath: string, newName: string)
    requires parentPath != "/"
    ensures RenameDestination(parentPath, newName) == RenameDestinationAsWritten(parentPath, newName)
  {
  }

  /** The last '/' of `a + "/" + b` is the one added, when `b` has none. */
  lemma {:induction false} LastSlashOfJoin(a: string, b: string)
    requires '/' !in b
    ensures LastSlash(a + "/" + b) == |a|
    decreases |b|
  {
    var d := a + "/" + b;
    if b == [] {
      assert d[|d| - 1] == '/';
    } else {
      var b' := b[..|b| - 1];
      assert d[|d| - 1] == b[|b| - 1];
      assert d[..|d| - 1] == a + "/" + b';
      LastSlashOfJoin(a, b');
    }
  }

  /** The parent of a well-formed path other than the root is itself well-formed. */
  lemma ParentWellFormed(p: string)
    requires WellFormed(p) && p != "/"
    ensures Parent(p).Some? && WellFormed(Parent(p).value)
  {
    var i := LastSlash(p);
    assert p[0] == '/';
    if i > 0 {
      var q := p[..i];
      assert q[|q| - 1] == p[i - 1];
      assert p[i - 1] != '/';
      forall k | 0 <= k < |q| - 1
        ensures !(q[k] == '/' && q[k + 1] == '/')
      {
        assert q[k] == p[k] && q[k + 1] == p[k + 1];
      }
    }
  }

  /**
   * Renaming a node that is not the root to a single segment gives a
   * well-formed path, with the same parent as the node and `newName` as its
   * last segment.
   */
  lemma RenameDestinationIsSibling(p: string, newName: string)
    requires WellFormed(p) && p != "/" && IsName(newName)
    ensures var d := RenameDestination(Parent(p).value, newName);
      WellFormed(d) && Parent(d) == Parent(p) && Name(d) == newName
  {
    ParentWellFormed(p);
    var parent := Parent(p).value;
    var d := RenameDestination(parent, newName);
    if parent == "/" {
      assert d == "" + "/" + newName;
      LastSlashOfJoin("", newName);
      assert d != "/";
      forall k | 0 <= k < |d| - 1
        ensures !(d[k] == '/' && d[k + 1] == '/')
      {
        assert d[k + 1] == newName[k];
      }
      assert d[|d| - 1] == newName[|newName| - 1];
    } else {
      LastSlashOfJoin(parent, newName);
      assert d[..|parent|] == parent;
      assert d[|parent| + 1..] == newName;
      forall k | 0 <= k < |d| - 1
        ensures !(d[k] == '/' && d[k + 1] == '/')
      {
        if k < |parent| - 1 {
          assert d[k] == parent[k] && d[k + 1] == parent[k + 1];
        } else if k == |parent| - 1 {
          assert d[k] == parent[|parent| - 1];
        } else {
          assert d[k + 1] == newName[k - |parent|];
        }
      }
      assert d[|d| - 1] == newName[|newName| - 1];
    }
  }
}
