/**
 * The SceneNode tree.
 *
 * Every SceneNode lives in one arena and is named by its index there. For
 * node n, `children[n]` is its owned child list (mChildren, in order) and
 * `parent[n]` its non-owning back link (mParent). A ghost `paths[n]` lists
 * n's ancestors from the root down; it is what makes the tree invariant
 * (`WellFormed`) say "no cycles".
 */
module SceneNodes {
  import opened Basics

  type NodeId = nat

  /** The shape of every node in the arena. */
  datatype Forest = Forest(children: seq<seq<NodeId>>, parent: seq<Option<NodeId>>)

  ghost predicate Distinct(s: seq<NodeId>)
  {
    forall i, j :: 0 <= i < j < |s| ==> s[i] != s[j]
  }

  /** The path of every ancestor of x is the part of x's path above it. */
  ghost predicate PrefixClosed(paths: seq<seq<NodeId>>)
  {
    forall x, k :: 0 <= x < |paths| && 0 <= k < |paths[x]| ==>
      paths[x][k] < |paths| && paths[paths[x][k]] == paths[x][..k]
  }

  /** Every child entry names a node of the arena whose parent link points back. */
  ghost predicate ChildrenPointBack(f: Forest)
    requires |f.parent| == |f.children|
  {
    forall n, i :: 0 <= n < |f.children| && 0 <= i < |f.children[n]| ==>
      f.children[n][i] < |f.children| && f.parent[f.children[n][i]] == Some(n)
  }

  /** No child list holds the same node twice. */
  ghost predicate ChildListsDistinct(f: Forest)
  {
    forall n :: 0 <= n < |f.children| ==> Distinct(f.children[n])
  }

  /**
   * A parent link is matched by membership in that parent's child list, and
   * a node's ancestor path is its parent's path followed by the parent
   * (empty for a root).
   */
  ghost predicate ParentsAgree(f: Forest, paths: seq<seq<NodeId>>)
    requires |f.parent| == |f.children| == |paths|
  {
    forall x :: 0 <= x < |f.parent| ==>
      match f.parent[x]
      case None => paths[x] == []
      case Some(q) => q < |f.children| && x in f.children[q] && paths[x] == paths[q] + [q]
  }

  /** The tree invariant. */
  ghost predicate WellFormed(f: Forest, paths: seq<seq<NodeId>>)
  {
    && |f.parent| == |f.children| == |paths|
    && ChildrenPointBack(f)
    && ChildListsDistinct(f)
    && ParentsAgree(f, paths)
    && PrefixClosed(paths)
  }

  // ---------------------------------------------------------------------
  // attachChild and detachChild on values

  /** attachChild: c's parent becomes p and c goes to the end of p's children. */
  function Attached(f: Forest, p: NodeId, c: NodeId): Forest
    requires p < |f.children| && c < |f.parent|
  {
    Forest(f.children[p := f.children[p] + [c]], f.parent[c := Some(p)])
  }

  /** std::find_if by identity: the first position of x in s, or |s| (end) if absent. */
  function IndexOf(s: seq<NodeId>, x: NodeId): (i: nat)
    ensures i <= |s|
    ensures i < |s| ==> s[i] == x
    ensures forall j :: 0 <= j < i ==> s[j] != x
    ensures i == |s| <==> x !in s
  {
    if s == [] then 0
    else if s[0] == x then 0
    else 1 + IndexOf(s[1..], x)
  }

  /** vector::erase at position i. */
  function RemoveAt(s: seq<NodeId>, i: nat): seq<NodeId>
    requires i < |s|
  {
    s[..i] + s[i + 1..]
  }

  /** detachChild: c leaves p's child list and its parent link is cleared. */
  function Detached(f: Forest, p: NodeId, c: NodeId): Forest
    requires p < |f.children| && c < |f.parent| && c in f.children[p]
  {
    Forest(f.children[p := RemoveAt(f.children[p], IndexOf(f.children[p], c))], f.parent[c := None])
  }

  // ---------------------------------------------------------------------
  // Ancestor paths

  /** x's ancestors followed by x itself. */
  ghost function Lineage(paths: seq<seq<NodeId>>, x: NodeId): seq<NodeId>
    requires x < |paths|
  {
    paths[x] + [x]
  }

  /** x lies in the subtree rooted at c: c sits at c's own depth in x's lineage. */
  ghost predicate Under(paths: seq<seq<NodeId>>, c: NodeId, x: NodeId)
    requires c < |paths| && x < |paths|
  {
    |paths[x]| >= |paths[c]| && Lineage(paths, x)[|paths[c]|] == c
  }

  /** The paths after the subtree rooted at c is moved so that c's ancestors become `prefix`. */
  ghost function Rebase(paths: seq<seq<NodeId>>, c: NodeId, prefix: seq<NodeId>): seq<seq<NodeId>>
    requires c < |paths|
  {
    seq(|paths|, x requires 0 <= x < |paths| =>
      if Under(paths, c, x) then prefix + paths[x][|paths[c]|..] else paths[x])
  }

  lemma LineagePrefix(paths: seq<seq<NodeId>>, x: NodeId, k: nat)
    requires PrefixClosed(paths) && x < |paths| && k <= |paths[x]|
    ensures Lineage(paths, x)[k] < |paths|
    ensures paths[Lineage(paths, x)[k]] == Lineage(paths, x)[..k]
  {
    if k < |paths[x]| {
      assert Lineage(paths, x)[..k] == paths[x][..k];
    } else {
      assert Lineage(paths, x)[..k] == paths[x];
    }
  }

  /** No node is its own ancestor: the tree has no cycles. */
  lemma NotOwnAncestor(f: Forest, paths: seq<seq<NodeId>>, x: NodeId)
    requires WellFormed(f, paths) && x < |f.children|
    ensures x !in paths[x]
  {
    forall k | 0 <= k < |paths[x]|
      ensures paths[x][k] != x
    {
      assert |paths[paths[x][k]]| == k;
    }
  }

  /** Subtree membership in the usual words: x is c or has c among its ancestors. */
  lemma UnderIff(paths: seq<seq<NodeId>>, c: NodeId, x: NodeId)
    requires PrefixClosed(paths) && c < |paths| && x < |paths|
    ensures Under(paths, c, x) <==> (x == c || c in paths[x])
  {
    if c in paths[x] {
      var k :| 0 <= k < |paths[x]| && paths[x][k] == c;
      assert |paths[c]| == k;
    }
  }

  /** Rebasing c's subtree onto a prefix of nodes outside it keeps the paths prefix-closed. */
  lemma RebaseKeepsPrefixes(paths: seq<seq<NodeId>>, c: NodeId, prefix: seq<NodeId>)
    requires PrefixClosed(paths) && c < |paths|
    requires forall k :: 0 <= k < |prefix| ==>
      prefix[k] < |paths| && !Under(paths, c, prefix[k]) && paths[prefix[k]] == prefix[..k]
    ensures PrefixClosed(Rebase(paths, c, prefix))
  {
    var r := Rebase(paths, c, prefix);
    forall x, k | 0 <= x < |r| && 0 <= k < |r[x]|
      ensures r[x][k] < |r| && r[r[x][k]] == r[x][..k]
    {
      if Under(paths, c, x) {
        RebasePrefixInside(paths, c, prefix, x, k);
      } else {
        RebasePrefixOutside(paths, c, prefix, x, k);
      }
    }
  }

  /** One ancestor of a node inside the moved subtree: its rebased path is the rebased prefix. */
  lemma RebasePrefixInside(paths: seq<seq<NodeId>>, c: NodeId, prefix: seq<NodeId>, x: NodeId, k: nat)
    requires PrefixClosed(paths) && c < |paths| && x < |paths| && Under(paths, c, x)
    requires forall k :: 0 <= k < |prefix| ==>
      prefix[k] < |paths| && !Under(paths, c, prefix[k]) && paths[prefix[k]] == prefix[..k]
    requires k < |Rebase(paths, c, prefix)[x]|
    ensures Rebase(paths, c, prefix)[x][k] < |paths|
    ensures Rebase(paths, c, prefix)[Rebase(paths, c, prefix)[x][k]] == Rebase(paths, c, prefix)[x][..k]
  {
    var d := |paths[c]|;
    var r := Rebase(paths, c, prefix);
    assert r[x] == prefix + paths[x][d..];
    if k < |prefix| {
      var y := prefix[k];
      assert r[x][k] == y && r[x][..k] == prefix[..k];
      assert !Under(paths, c, y) && paths[y] == prefix[..k];
      assert r[y] == paths[y];
    } else {
      RebasePrefixBelow(paths, c, prefix, x, d + (k - |prefix|));
    }
  }

  /** An ancestor at depth j >= |paths[c]| of a node inside the moved subtree is inside it as well. */
  lemma RebasePrefixBelow(paths: seq<seq<NodeId>>, c: NodeId, prefix: seq<NodeId>, x: NodeId, j: nat)
    requires PrefixClosed(paths) && c < |paths| && x < |paths| && Under(paths, c, x)
    requires |paths[c]| <= j < |paths[x]|
    ensures paths[x][j] < |paths|
    ensures Rebase(paths, c, prefix)[paths[x][j]] == prefix + paths[x][|paths[c]|..j]
  {
    var d := |paths[c]|;
    var y := paths[x][j];
    assert paths[y] == paths[x][..j];
    assert Lineage(paths, y) == paths[x][..j + 1];
    assert Lineage(paths, x)[d] == paths[x][d];
    assert Under(paths, c, y);
    assert paths[y][d..] == paths[x][d..j];
  }

  /** One ancestor of a node outside the moved subtree is outside it too, so nothing changes. */
  lemma RebasePrefixOutside(paths: seq<seq<NodeId>>, c: NodeId, prefix: seq<NodeId>, x: NodeId, k: nat)
    requires PrefixClosed(paths) && c < |paths| && x < |paths| && !Under(paths, c, x)
    requires k < |paths[x]|
    ensures Rebase(paths, c, prefix)[x] == paths[x]
    ensures Rebase(paths, c, prefix)[paths[x][k]] == paths[x][..k]
  {
    var d := |paths[c]|;
    var y := paths[x][k];
    assert paths[y] == paths[x][..k];
    assert Lineage(paths, y) == paths[x][..k + 1];
    assert d <= k ==> Lineage(paths, x)[d] == paths[x][d];
    assert !Under(paths, c, y);
  }

  lemma RebaseKeepsLinks(paths: seq<seq<NodeId>>, c: NodeId, prefix: seq<NodeId>, x: NodeId, q: NodeId)
    requires c < |paths| && x < |paths| && q < |paths| && x != c
    requires paths[x] == paths[q] + [q]
    ensures Rebase(paths, c, prefix)[x] == Rebase(paths, c, prefix)[q] + [q]
  {
    var d := |paths[c]|;
    assert Lineage(paths, x) == Lineage(paths, q) + [x];
    if Under(paths, c, x) {
      assert |paths[q]| >= d;
      assert Under(paths, c, q);
      assert paths[x][d..] == paths[q][d..] + [q];
    } else if |paths[q]| >= d {
      assert !Under(paths, c, q);
    }
  }

  // ---------------------------------------------------------------------
  // The tree invariant is kept by every operation

  /** A fresh node (the SceneNode constructor) is a root with no children. */
  lemma NewNodeKeepsTree(f: Forest, paths: seq<seq<NodeId>>)
    requires WellFormed(f, paths)
    ensures WellFormed(Forest(f.children + [[]], f.parent + [None]), paths + [[]])
  {
    var g := Forest(f.children + [[]], f.parent + [None]);
    var ps := paths + [[]];
    forall x | 0 <= x < |g.parent| && g.parent[x].Some?
      ensures g.parent[x].value < |g.children| && x in g.children[g.parent[x].value]
    {
      assert x < |f.parent|;
    }
    forall x, k | 0 <= x < |ps| && 0 <= k < |ps[x]|
      ensures ps[x][k] < |ps| && ps[ps[x][k]] == ps[x][..k]
    {
      assert x < |paths|;
    }
  }

  /**
   * attachChild keeps the tree invariant, provided c is a root (no other
   * node owns it) and p is not inside c's subtree.
   */
  lemma {:induction false} AttachKeepsTree(f: Forest, paths: seq<seq<NodeId>>, p: NodeId, c: NodeId)
    requires WellFormed(f, paths) && p < |f.children| && c < |f.children|
    requires f.parent[c] == None && p != c && c !in paths[p]
    ensures WellFormed(Attached(f, p, c), Rebase(paths, c, paths[p] + [p]))
  {
    AttachKeepsChildLists(f, paths, p, c);
    AttachKeepsParents(f, paths, p, c);
    var prefix := paths[p] + [p];
    forall k | 0 <= k < |prefix|
      ensures prefix[k] < |paths| && !Under(paths, c, prefix[k]) && paths[prefix[k]] == prefix[..k]
    {
      LineagePrefix(paths, p, k);
      assert prefix[k] != c;
      assert c !in prefix[..k];
      UnderIff(paths, c, prefix[k]);
    }
    RebaseKeepsPrefixes(paths, c, prefix);
  }

  /** After attachChild every child entry still points back, and no child list repeats a node. */
  lemma AttachKeepsChildLists(f: Forest, paths: seq<seq<NodeId>>, p: NodeId, c: NodeId)
    requires WellFormed(f, paths) && p < |f.children| && c < |f.children| && f.parent[c] == None
    ensures ChildrenPointBack(Attached(f, p, c)) && ChildListsDistinct(Attached(f, p, c))
  {
    var g := Attached(f, p, c);
    AtMostOneParent(f, paths, c, p);
    forall n, i | 0 <= n < |g.children| && 0 <= i < |g.children[n]|
      ensures g.children[n][i] < |g.children| && g.parent[g.children[n][i]] == Some(n)
    {
      if n != p || i < |f.children[p]| {
        assert g.children[n][i] == f.children[n][i];
        assert f.parent[f.children[n][i]] == Some(n);
      }
    }
    forall n | 0 <= n < |g.children|
      ensures Distinct(g.children[n])
    {
      if n == p {
        assert Distinct(f.children[p]);
      } else {
        assert g.children[n] == f.children[n];
      }
    }
  }

  /** After attachChild every parent link agrees with the child lists and the rebased paths. */
  lemma AttachKeepsParents(f: Forest, paths: seq<seq<NodeId>>, p: NodeId, c: NodeId)
    requires WellFormed(f, paths) && p < |f.children| && c < |f.children|
    requires f.parent[c] == None && p != c && c !in paths[p]
    ensures ParentsAgree(Attached(f, p, c), Rebase(paths, c, paths[p] + [p]))
  {
    var g := Attached(f, p, c);
    var prefix := paths[p] + [p];
    var r := Rebase(paths, c, prefix);
    assert paths[c] == [];
    UnderIff(paths, c, p);
    assert r[p] == paths[p];
    assert Under(paths, c, c) && r[c] == prefix;
    forall x | 0 <= x < |g.parent|
      ensures match g.parent[x]
        case None => r[x] == []
        case Some(q) => q < |g.children| && x in g.children[q] && r[x] == r[q] + [q]
    {
      if x != c {
        match f.parent[x]
        case None =>
          assert paths[x] == [] && Lineage(paths, x) == [x];
          assert r[x] == paths[x];
        case Some(q) =>
          assert x in f.children[q];
          assert x in g.children[q];
          RebaseKeepsLinks(paths, c, prefix, x, q);
      }
    }
  }

  /** detachChild keeps the tree invariant; the detached subtree's paths lose their old ancestors. */
  lemma DetachKeepsTree(f: Forest, paths: seq<seq<NodeId>>, p: NodeId, c: NodeId)
    requires WellFormed(f, paths) && p < |f.children| && c in f.children[p]
    ensures c < |f.children|
    ensures WellFormed(Detached(f, p, c), Rebase(paths, c, []))
  {
    var i :| 0 <= i < |f.children[p]| && f.children[p][i] == c;
    assert c < |f.children| && f.parent[c] == Some(p);
    DetachKeepsChildLists(f, paths, p, c);
    DetachKeepsParents(f, paths, p, c);
    RebaseKeepsPrefixes(paths, c, []);
  }

  /** After detachChild every child entry still points back, and no child list repeats a node. */
  lemma DetachKeepsChildLists(f: Forest, paths: seq<seq<NodeId>>, p: NodeId, c: NodeId)
    requires WellFormed(f, paths) && p < |f.children| && c < |f.children| && c in f.children[p]
    requires f.parent[c] == Some(p)
    ensures ChildrenPointBack(Detached(f, p, c)) && ChildListsDistinct(Detached(f, p, c))
  {
    var g := Detached(f, p, c);
    var s := f.children[p];
    assert Distinct(s);
    DetachedChildList(s, c);
    forall n, j | 0 <= n < |g.children| && 0 <= j < |g.children[n]|
      ensures g.children[n][j] < |g.children| && g.parent[g.children[n][j]] == Some(n)
    {
      var y := g.children[n][j];
      if n == p {
        assert y in s && y != c;
        var k :| 0 <= k < |s| && s[k] == y;
        assert f.parent[y] == Some(p);
      } else {
        assert y == f.children[n][j];
        assert f.parent[y] == Some(n);
      }
    }
    forall n | 0 <= n < |g.children|
      ensures Distinct(g.children[n])
    {
      if n != p {
        assert g.children[n] == f.children[n];
      }
    }
  }

  /** After detachChild every parent link agrees with the child lists and the rebased paths. */
  lemma DetachKeepsParents(f: Forest, paths: seq<seq<NodeId>>, p: NodeId, c: NodeId)
    requires WellFormed(f, paths) && p < |f.children| && c < |f.children| && c in f.children[p]
    requires f.parent[c] == Some(p)
    ensures ParentsAgree(Detached(f, p, c), Rebase(paths, c, []))
  {
    var g := Detached(f, p, c);
    var r := Rebase(paths, c, []);
    var s := f.children[p];
    assert Distinct(s);
    DetachedChildList(s, c);
    assert paths[c] == paths[p] + [p];
    assert Under(paths, c, c) && r[c] == [];
    forall x | 0 <= x < |g.parent|
      ensures match g.parent[x]
        case None => r[x] == []
        case Some(q) => q < |g.children| && x in g.children[q] && r[x] == r[q] + [q]
    {
      if x != c {
        match f.parent[x]
        case None =>
          assert paths[x] == [];
          assert !Under(paths, c, x);
        case Some(q) =>
          assert x in f.children[q];
          assert x in g.children[q];
          RebaseKeepsLinks(paths, c, [], x, q);
      }
    }
  }

  /** In a well-formed arena a node sits in a child list exactly when that list's owner is its parent. */
  lemma AtMostOneParent(f: Forest, paths: seq<seq<NodeId>>, x: NodeId, n: NodeId)
    requires WellFormed(f, paths) && x < |f.children| && n < |f.children|
    ensures x in f.children[n] <==> f.parent[x] == Some(n)
  {
    if x in f.children[n] {
      var i :| 0 <= i < |f.children[n]| && f.children[n][i] == x;
    }
  }

  /** The positions of RemoveAt(s, i): those before i keep their element, those after move down one. */
  lemma RemoveAtShifts(s: seq<NodeId>, i: nat)
    requires i < |s|
    ensures |RemoveAt(s, i)| == |s| - 1
    ensures forall j :: 0 <= j < i ==> RemoveAt(s, i)[j] == s[j]
    ensures forall j :: i <= j < |s| - 1 ==> RemoveAt(s, i)[j] == s[j + 1]
  {
  }

  /** erase removes exactly one occurrence of the element at position i. */
  lemma RemoveAtMultiset(s: seq<NodeId>, i: nat)
    requires i < |s|
    ensures multiset(RemoveAt(s, i)) == multiset(s) - multiset{s[i]}
  {
    assert s == s[..i] + [s[i]] + s[i + 1..];
    assert multiset(s) == multiset(s[..i]) + multiset{s[i]} + multiset(s[i + 1..]);
  }

  /**
   * The child list after detachChild: one shorter, c gone, every other
   * child kept in its order, and still free of repeats.
   */
  lemma DetachedChildList(s: seq<NodeId>, c: NodeId)
    requires Distinct(s) && c in s
    ensures var i := IndexOf(s, c); var r := RemoveAt(s, i);
      && |r| == |s| - 1
      && multiset(r) == multiset(s) - multiset{c}
      && (forall j :: 0 <= j < i ==> r[j] == s[j])
      && (forall j :: i <= j < |r| ==> r[j] == s[j + 1])
      && (forall x :: x in r <==> x in s && x != c)
      && Distinct(r)
  {
    var i := IndexOf(s, c);
    var r := RemoveAt(s, i);
    RemoveAtShifts(s, i);
    RemoveAtMultiset(s, i);
    forall x
      ensures x in r <==> x in s && x != c
    {
      if x in r {
        var j :| 0 <= j < |r| && r[j] == x;
        if j < i {
          assert s[j] == x;
        } else {
          assert s[j + 1] == x;
        }
      }
      if x in s && x != c {
        var k :| 0 <= k < |s| && s[k] == x;
        if k < i {
          assert r[k] == x;
        } else {
          assert k != i;
          assert r[k - 1] == x;
        }
      }
    }
    forall j, k | 0 <= j < k < |r|
      ensures r[j] != r[k]
    {
      var j' := if j < i then j else j + 1;
      var k' := if k < i then k else k + 1;
      assert r[j] == s[j'] && r[k] == s[k'] && j' < k';
    }
  }

  /** detachChild undoes attachChild: the child lists, parent links and paths are as before. */
  lemma {:induction false} AttachDetachRoundTrip(f: Forest, paths: seq<seq<NodeId>>, p: NodeId, c: NodeId)
    requires WellFormed(f, paths) && p < |f.children| && c < |f.children|
    requires f.parent[c] == None && p != c && c !in paths[p]
    ensures c in Attached(f, p, c).children[p]
    ensures Detached(Attached(f, p, c), p, c) == f
    ensures Rebase(Rebase(paths, c, paths[p] + [p]), c, []) == paths
  {
    var g := Attached(f, p, c);
    var s := f.children[p];
    AtMostOneParent(f, paths, c, p);
    assert g.children[p] == s + [c];
    assert IndexOf(s + [c], c) == |s|;
    assert RemoveAt(s + [c], |s|) == s;
    assert Detached(g, p, c).children == f.children;
    assert Detached(g, p, c).parent == f.parent;
    assert paths[c] == [];
    RebaseRoundTrip(paths, c, paths[p] + [p]);
  }

  /** Moving a root's subtree under a non-empty prefix and back to the top restores every path. */
  lemma RebaseRoundTrip(paths: seq<seq<NodeId>>, c: NodeId, prefix: seq<NodeId>)
    requires PrefixClosed(paths) && c < |paths| && paths[c] == [] && |prefix| >= 1
    ensures Rebase(Rebase(paths, c, prefix), c, []) == paths
  {
    var r := Rebase(paths, c, prefix);
    assert Under(paths, c, c);
    assert r[c] == prefix;
    forall x | 0 <= x < |paths|
      ensures Rebase(r, c, [])[x] == paths[x]
    {
      if Under(paths, c, x) {
        assert r[x] == prefix + paths[x];
        assert Lineage(r, x) == prefix + Lineage(paths, x);
        assert Lineage(r, x)[|prefix|] == Lineage(paths, x)[0];
        assert Under(r, c, x);
        assert r[x][|prefix|..] == paths[x];
      } else {
        assert r[x] == paths[x];
        if |paths[x]| >= |prefix| {
          LineagePrefix(paths, x, |prefix|);
        }
        assert !Under(r, c, x);
      }
    }
  }

  // ---------------------------------------------------------------------
  // update: the pre-order traversal

  /** The nodes that are not ancestors of n; it shrinks going down the tree. */
  ghost function NotAbove(f: Forest, paths: seq<seq<NodeId>>, n: NodeId): set<NodeId>
    requires n < |paths|
  {
    set x | 0 <= x < |f.children| && x !in paths[n]
  }

  lemma ChildIsDeeper(f: Forest, paths: seq<seq<NodeId>>, n: NodeId, c: NodeId)
    requires WellFormed(f, paths) && n < |f.children| && c in f.children[n]
    ensures c < |f.children| && paths[c] == paths[n] + [n]
    ensures NotAbove(f, paths, c) < NotAbove(f, paths, n)
  {
    NotOwnAncestor(f, paths, n);
    assert n in NotAbove(f, paths, n) && n !in NotAbove(f, paths, c);
  }

  /** The order in which update reaches updateCurrent on n's subtree. */
  ghost function PreOrder(f: Forest, paths: seq<seq<NodeId>>, n: NodeId): (r: seq<NodeId>)
    requires WellFormed(f, paths) && n < |f.children|
    ensures |r| >= 1 && r[0] == n
    decreases NotAbove(f, paths, n), 1
  {
    [n] + ChildrenPreOrder(f, paths, n, 0)
  }

  /** The same order, for the subtrees of n's children from position i on. */
  ghost function ChildrenPreOrder(f: Forest, paths: seq<seq<NodeId>>, n: NodeId, i: nat): seq<NodeId>
    requires WellFormed(f, paths) && n < |f.children| && i <= |f.children[n]|
    decreases NotAbove(f, paths, n), 0, |f.children[n]| - i
  {
    if i == |f.children[n]| then []
    else
      ChildIsDeeper(f, paths, n, f.children[n][i]);
      PreOrder(f, paths, f.children[n][i]) + ChildrenPreOrder(f, paths, n, i + 1)
  }

  /** A node with no children is updated alone. */
  lemma LeafPreOrder(f: Forest, paths: seq<seq<NodeId>>, n: NodeId)
    requires WellFormed(f, paths) && n < |f.children| && f.children[n] == []
    ensures PreOrder(f, paths, n) == [n]
  {
  }

  lemma {:induction false} ChildrenPreOrderContains(f: Forest, paths: seq<seq<NodeId>>, n: NodeId, i: nat, j: nat, y: NodeId)
    requires WellFormed(f, paths) && n < |f.children| && i <= j < |f.children[n]|
    requires y in PreOrder(f, paths, f.children[n][j])
    ensures y in ChildrenPreOrder(f, paths, n, i)
    decreases j - i
  {
    if i < j {
      ChildrenPreOrderContains(f, paths, n, i + 1, j, y);
    }
  }

  lemma {:induction false} PreOrderInSubtree(f: Forest, paths: seq<seq<NodeId>>, n: NodeId, x: NodeId)
    requires WellFormed(f, paths) && n < |f.children| && x in PreOrder(f, paths, n)
    ensures x < |f.children| && Under(paths, n, x)
    decreases NotAbove(f, paths, n), 1
  {
    var d := |paths[n]|;
    if x != n {
      ChildrenPreOrderInSubtree(f, paths, n, 0, x);
      var c := Lineage(paths, x)[d + 1];
      ChildIsDeeper(f, paths, n, c);
      LineagePrefix(paths, x, d + 1);
      assert Lineage(paths, x)[d] == paths[c][d] == n;
    }
  }

  lemma {:induction false} ChildrenPreOrderInSubtree(f: Forest, paths: seq<seq<NodeId>>, n: NodeId, i: nat, x: NodeId)
    requires WellFormed(f, paths) && n < |f.children| && i <= |f.children[n]|
    requires x in ChildrenPreOrder(f, paths, n, i)
    ensures x < |f.children| && |paths[x]| > |paths[n]|
    ensures Lineage(paths, x)[|paths[n]| + 1] in f.children[n][i..]
    decreases NotAbove(f, paths, n), 0, |f.children[n]| - i
  {
    var c := f.children[n][i];
    ChildIsDeeper(f, paths, n, c);
    assert ChildrenPreOrder(f, paths, n, i) == PreOrder(f, paths, c) + ChildrenPreOrder(f, paths, n, i + 1);
    if x in PreOrder(f, paths, c) {
      PreOrderInSubtree(f, paths, c, x);
      assert Lineage(paths, x)[|paths[n]| + 1] == f.children[n][i..][0];
    } else {
      ChildrenPreOrderInSubtree(f, paths, n, i + 1, x);
      var e := Lineage(paths, x)[|paths[n]| + 1];
      var k :| 0 <= k < |f.children[n][i + 1..]| && f.children[n][i + 1..][k] == e;
      assert f.children[n][i..][k + 1] == e;
    }
  }

  /** ChildrenPreOrderInSubtree, stated for any node. */
  lemma ChildrenPreOrderLineage(f: Forest, paths: seq<seq<NodeId>>, n: NodeId, i: nat, x: NodeId)
    requires WellFormed(f, paths) && n < |f.children| && i <= |f.children[n]|
    ensures x in ChildrenPreOrder(f, paths, n, i) ==>
      x < |f.children| && |paths[x]| > |paths[n]| &&
      Lineage(paths, x)[|paths[n]| + 1] in f.children[n][i..]
  {
    if x in ChildrenPreOrder(f, paths, n, i) {
      ChildrenPreOrderInSubtree(f, paths, n, i, x);
    }
  }

  lemma {:induction false} SubtreeInPreOrder(f: Forest, paths: seq<seq<NodeId>>, n: NodeId, x: NodeId)
    requires WellFormed(f, paths) && n < |f.children| && x < |f.children| && Under(paths, n, x)
    ensures x in PreOrder(f, paths, n)
    decreases NotAbove(f, paths, n)
  {
    var d := |paths[n]|;
    if x != n {
      assert |paths[x]| > d;
      var c := Lineage(paths, x)[d + 1];
      LineagePrefix(paths, x, d + 1);
      LineagePrefix(paths, x, d);
      assert paths[c] == paths[n] + [n];
      assert c < |f.children|;
      match f.parent[c]
      case Some(q) =>
        assert q == n;
        var j :| 0 <= j < |f.children[n]| && f.children[n][j] == c;
        ChildIsDeeper(f, paths, n, c);
        SubtreeInPreOrder(f, paths, c, x);
        ChildrenPreOrderContains(f, paths, n, 0, j, x);
    }
  }

  /**
   * update reaches exactly the nodes of n's subtree: n itself and every node
   * that has n among its ancestors.
   */
  lemma PreOrderIsSubtree(f: Forest, paths: seq<seq<NodeId>>, n: NodeId, x: NodeId)
    requires WellFormed(f, paths) && n < |f.children|
    ensures x in PreOrder(f, paths, n) <==> x < |f.children| && (x == n || n in paths[x])
  {
    if x in PreOrder(f, paths, n) {
      PreOrderInSubtree(f, paths, n, x);
      UnderIff(paths, n, x);
    }
    if x < |f.children| && (x == n || n in paths[x]) {
      UnderIff(paths, n, x);
      SubtreeInPreOrder(f, paths, n, x);
    }
  }

  lemma DistinctConcat(a: seq<NodeId>, b: seq<NodeId>)
    requires Distinct(a) && Distinct(b)
    requires forall x :: x in a ==> x !in b
    ensures Distinct(a + b)
  {
    forall i, j | 0 <= i < j < |a + b|
      ensures (a + b)[i] != (a + b)[j]
    {
      if i < |a| && j >= |a| {
        assert (a + b)[i] in a && (a + b)[j] in b;
      }
    }
  }

  /** update calls updateCurrent on every node of the subtree exactly once. */
  lemma {:induction false} PreOrderDistinct(f: Forest, paths: seq<seq<NodeId>>, n: NodeId)
    requires WellFormed(f, paths) && n < |f.children|
    ensures Distinct(PreOrder(f, paths, n))
    decreases NotAbove(f, paths, n), 1
  {
    var rest := ChildrenPreOrder(f, paths, n, 0);
    ChildrenPreOrderDistinct(f, paths, n, 0);
    forall x | x in rest
      ensures x !in [n]
    {
      ChildrenPreOrderInSubtree(f, paths, n, 0, x);
    }
    DistinctConcat([n], rest);
  }

  lemma {:induction false} ChildrenPreOrderDistinct(f: Forest, paths: seq<seq<NodeId>>, n: NodeId, i: nat)
    requires WellFormed(f, paths) && n < |f.children| && i <= |f.children[n]|
    ensures Distinct(ChildrenPreOrder(f, paths, n, i))
    decreases NotAbove(f, paths, n), 0, |f.children[n]| - i
  {
    if i < |f.children[n]| {
      var c := f.children[n][i];
      ChildIsDeeper(f, paths, n, c);
      var a := PreOrder(f, paths, c);
      var b := ChildrenPreOrder(f, paths, n, i + 1);
      PreOrderDistinct(f, paths, c);
      ChildrenPreOrderDistinct(f, paths, n, i + 1);
      var later := f.children[n][i + 1..];
      assert c !in later by {
        assert Distinct(f.children[n]);
        forall k | 0 <= k < |later|
          ensures later[k] != c
        {
          assert later[k] == f.children[n][i + 1 + k];
        }
      }
      forall x | x in a
        ensures x !in b
      {
        PreOrderInSubtree(f, paths, c, x);
        ChildrenPreOrderLineage(f, paths, n, i + 1, x);
      }
      DistinctConcat(a, b);
    }
  }

  // ---------------------------------------------------------------------
  // The arena of SceneNode objects

  class SceneArena {
    var children: seq<seq<NodeId>>
    var parent: seq<Option<NodeId>>
    ghost var paths: seq<seq<NodeId>>

    ghost predicate Valid()
      reads this
    {
      WellFormed(Forest(children, parent), paths)
    }

    function State(): Forest
      reads this
    {
      Forest(children, parent)
    }

    constructor ()
      ensures Valid() && children == [] && parent == []
    {
      children, parent, paths := [], [], [];
    }

    /** SceneNode::SceneNode: a new node with an empty child list and no parent. */
    method NewNode() returns (n: NodeId)
      requires Valid()
      modifies this
      ensures Valid()
      ensures n == |old(children)|
      ensures children == old(children) + [[]] && parent == old(parent) + [None]
      ensures paths == old(paths) + [[]]
      ensures forall m :: 0 <= m < |paths| ==> n !in paths[m]
    {
      NewNodeKeepsTree(State(), paths);
      forall m, k | 0 <= m < |paths| && 0 <= k < |paths[m]|
        ensures paths[m][k] < |children|
      {
      }
      n := |children|;
      children, parent, paths := children + [[]], parent + [None], paths + [[]];
    }

    /** SceneNode::attachChild: p takes ownership of the root c. */
    method AttachChild(p: NodeId, c: NodeId)
      requires Valid() && p < |children| && c < |children|
      requires parent[c] == None && p != c && c !in paths[p]
      modifies this
      ensures Valid()
      ensures State() == Attached(old(State()), p, c)
      ensures paths == Rebase(old(paths), c, old(paths[p]) + [p])
    {
      AttachKeepsTree(State(), paths, p, c);
      parent := parent[c := Some(p)];
      children := children[p := children[p] + [c]];
      paths := Rebase(paths, c, paths[p] + [p]);
    }

    /** The std::find_if search of detachChild: the first position of c among p's children, or end. */
    method FindChild(p: NodeId, c: NodeId) returns (i: nat)
      requires p < |children|
      ensures i == IndexOf(children[p], c)
    {
      i := 0;
      while i < |children[p]| && children[p][i] != c
        invariant i <= |children[p]|
        invariant forall j :: 0 <= j < i ==> children[p][j] != c
      {
        i := i + 1;
      }
    }

    /** SceneNode::detachChild: p gives up c, which comes back with no parent. */
    method DetachChild(p: NodeId, c: NodeId) returns (r: NodeId)
      requires Valid() && p < |children| && c < |children| && c in children[p]
      modifies this
      ensures Valid() && r == c
      ensures State() == Detached(old(State()), p, c)
      ensures paths == Rebase(old(paths), c, [])
    {
      var found := FindChild(p, c);
      assert found < |children[p]|;
      r := children[p][found];
      DetachKeepsTree(State(), paths, p, c);
      parent := parent[r := None];
      children := children[p := RemoveAt(children[p], found)];
      paths := Rebase(paths, c, []);
    }

    /** SceneNode::update: the node's own update, then each child's, in list order. */
    method Update(n: NodeId) returns (trace: seq<NodeId>)
      requires Valid() && n < |children|
      ensures trace == PreOrder(State(), paths, n)
      decreases NotAbove(State(), paths, n), 1
    {
      trace := UpdateCurrent(n);
      var rest := UpdateChildren(n);
      trace := trace + rest;
    }

    /** SceneNode::updateCurrent: the default hook changes nothing; the visit is recorded. */
    method UpdateCurrent(n: NodeId) returns (visit: seq<NodeId>)
      ensures visit == [n]
    {
      visit := [n];
    }

    /** SceneNode::updateChildren: update each child in list order. */
    method UpdateChildren(n: NodeId) returns (trace: seq<NodeId>)
      requires Valid() && n < |children|
      ensures trace == ChildrenPreOrder(State(), paths, n, 0)
      decreases NotAbove(State(), paths, n), 0
    {
      trace := [];
      var i := 0;
      while i < |children[n]|
        invariant i <= |children[n]|
        invariant trace + ChildrenPreOrder(State(), paths, n, i) == ChildrenPreOrder(State(), paths, n, 0)
      {
        var child := children[n][i];
        ChildIsDeeper(State(), paths, n, child);
        var t := Update(child);
        assert ChildrenPreOrder(State(), paths, n, i) == t + ChildrenPreOrder(State(), paths, n, i + 1);
        trace := trace + t;
        i := i + 1;
      }
    }

    /** SceneNode::getWorldTransform: the ancestor walk is commented out; a constant is returned. */
    function WorldTransform(n: NodeId): Vec3
    {
      Vec3(1.0, 1.0, 1.0)
    }

    /** SceneNode::getWorldPosition forwards to getWorldTransform. */
    function WorldPosition(n: NodeId): Vec3
    {
      WorldTransform(n)
    }
  }

  /** The world position is (1,1,1) for every node of every tree. */
  lemma WorldPositionIgnoresTree(a: SceneArena, b: SceneArena, n: NodeId, m: NodeId)
    ensures a.WorldPosition(n) == b.WorldTransform(m) == Vec3(1.0, 1.0, 1.0)
  {
  }
}
