/** An optional value, used for nullable references and conditionally rendered nodes. */
module Opt {
  datatype Option<+T> = None | Some(value: T)
}

/**
 * The slice of the document tree that outside-click detection looks at:
 * every element has at most one parent, recorded in a parent map, and
 * `Contains(parent, root, t)` is the DOM's `root.contains(t)`: `t` is `root`
 * itself or `root` is one of `t`'s ancestors.
 */
module Dom {
  type Node = nat

  /** `parent[n]` is the parent element of `n`; a node without a key has no parent. */
  type ParentMap = map<Node, Node>

  /**
   * `root.contains(t)`. Each step up the tree removes the node it leaves from
   * the map, so the walk ends even on a map with a cycle (which a real
   * document never has); on a tree the removed node is never met again, so
   * the result is that of the plain ancestor walk (see ContainsIffPath).
   */
  predicate Contains(parent: ParentMap, root: Node, t: Node)
    decreases |parent.Keys|
  {
    t == root || (t in parent && Contains(parent - {t}, root, parent[t]))
  }

  /**
   * `s` is a path up the tree without repetitions: each element after the
   * first is the parent of the one before it.
   */
  ghost predicate IsUpwardPath(parent: ParentMap, s: seq<Node>)
  {
    |s| > 0 &&
    (forall i :: 0 <= i < |s| - 1 ==> s[i] in parent && parent[s[i]] == s[i + 1]) &&
    (forall i, j :: 0 <= i < j < |s| ==> s[i] != s[j])
  }

  /** A path up the tree from `t` that ends at `root` makes `root` contain `t`. */
  lemma {:induction false} PathContains(parent: ParentMap, s: seq<Node>)
    requires IsUpwardPath(parent, s)
    ensures Contains(parent, s[|s| - 1], s[0])
    decreases |s|
  {
    if |s| > 1 {
      var rest := parent - {s[0]};
      assert IsUpwardPath(rest, s[1..]) by {
        forall i | 0 <= i < |s| - 2
          ensures s[1..][i] in rest && rest[s[1..][i]] == s[1..][i + 1]
        {
          assert s[i + 1] != s[0];
        }
      }
      PathContains(rest, s[1..]);
      assert s[1..][0] == parent[s[0]];
    }
  }

  /** When `root` contains `t`, the walk that shows it: a path up the tree from `t` to `root`. */
  function PathToRoot(parent: ParentMap, root: Node, t: Node): (s: seq<Node>)
    requires Contains(parent, root, t)
    ensures IsUpwardPath(parent, s) && s[0] == t && s[|s| - 1] == root
    ensures forall i :: 0 <= i < |s| - 1 ==> s[i] in parent.Keys
    decreases |parent.Keys|
  {
    if t == root then [t]
    else
      var rest := parent - {t};
      var tail := PathToRoot(rest, root, parent[t]);
      assert forall i :: 0 <= i < |tail| ==> tail[i] != t by {
        forall i | 0 <= i < |tail| ensures tail[i] != t {
          if i < |tail| - 1 {
            assert tail[i] in rest.Keys;
          }
        }
      }
      [t] + tail
  }

  /** `root.contains(t)` holds exactly when some path up the tree leads from `t` to `root`. */
  lemma ContainsIffPath(parent: ParentMap, root: Node, t: Node)
    ensures Contains(parent, root, t) <==>
            exists s :: IsUpwardPath(parent, s) && s[0] == t && s[|s| - 1] == root
  {
    if Contains(parent, root, t) {
      var s := PathToRoot(parent, root, t);
      assert IsUpwardPath(parent, s) && s[0] == t && s[|s| - 1] == root;
    }
    if s :| IsUpwardPath(parent, s) && s[0] == t && s[|s| - 1] == root {
      PathContains(parent, s);
    }
  }

  /**
   * The targets the widget itself renders are inside its root: the root, a
   * child of it (the trigger, the label, the error text) and a grandchild
   * of it under a distinct child (an option inside the listbox).
   */
  lemma WidgetPartsInside(parent: ParentMap, root: Node, child: Node, list: Node, option: Node)
    requires child != root && child in parent && parent[child] == root
    requires list != root && list in parent && parent[list] == root
    requires option != root && option != list && option in parent && parent[option] == list
    ensures Contains(parent, root, root)
    ensures Contains(parent, root, child)
    ensures Contains(parent, root, option)
  {
    PathContains(parent, [child, root]);
    PathContains(parent, [option, list, root]);
  }

  /** An element with no parent that is not the root itself (a detached node, the top of another tree) is outside. */
  lemma ParentlessIsOutside(parent: ParentMap, root: Node, t: Node)
    requires t != root && t !in parent
    ensures !Contains(parent, root, t)
  {
  }
}
