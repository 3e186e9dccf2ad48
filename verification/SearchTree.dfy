/**
 The binary search tree of apps/dedup/tree.c, keyed by anchor number.  The recursive
 updates are modelled on values.
 */
module SearchTree {

  datatype Tree<V> = Nil | Node(left: Tree<V>, aid: nat, value: V, right: Tree<V>)

  ghost function Keys<V>(t: Tree<V>): set<nat>
  {
    match t
    case Nil => {}
    case Node(l, k, _, r) => Keys(l) + {k} + Keys(r)
  }

  ghost predicate Bst<V>(t: Tree<V>)
  {
    match t
    case Nil => true
    case Node(l, k, _, r) =>
      Bst(l) && Bst(r) && (forall x :: x in Keys(l) ==> x < k) && (forall x :: x in Keys(r) ==> k < x)
  }

  /** The value stored with each anchor number. */
  ghost function Lookup<V>(t: Tree<V>, k: nat): V
    requires k in Keys(t)
  {
    if k in Keys(t.left) then Lookup(t.left, k) else if k == t.aid then t.value else Lookup(t.right, k)
  }

  /** The tree and the global pmin, a cached position of the least element. */
  datatype Search<V> = Search(root: Tree<V>, pmin: Tree<V>)

  /** TreeFind: the node with the given number, or nil. */
  function Find<V>(k: nat, t: Tree<V>): (r: Tree<V>)
    requires Bst(t)
    ensures r == Nil <==> k !in Keys(t)
    ensures r != Nil ==> r.aid == k && r.value == Lookup(t, k)
  {
    if t == Nil then Nil
    else if k < t.aid then Find(k, t.left)
    else if k > t.aid then Find(k, t.right)
    else t
  }

  /** TreeFindMin below the check of pmin: the leftmost node. */
  function Leftmost<V>(t: Tree<V>): (r: Tree<V>)
    requires Bst(t)
    ensures r == Nil <==> t == Nil
    ensures r != Nil ==> r.aid in Keys(t) && r.value == Lookup(t, r.aid) && forall x :: x in Keys(t) ==> r.aid <= x
  {
    if t == Nil then Nil else if t.left == Nil then t else Leftmost(t.left)
  }

  /** TreeFindMin. */
  function FindMin<V>(s: Search<V>): (r: Tree<V>)
    requires Bst(s.root)
    ensures s.pmin == Nil ==> r == Leftmost(s.root)
  {
    if s.pmin != Nil then s.pmin else Leftmost(s.root)
  }

  function InsertNode<V>(k: nat, v: V, t: Tree<V>): (r: Tree<V>)
    requires Bst(t)
    ensures Bst(r) && Keys(r) == Keys(t) + {k}
  {
    if t == Nil then Node(Nil, k, v, Nil)
    else if k < t.aid then t.(left := InsertNode(k, v, t.left))
    else if k > t.aid then t.(right := InsertNode(k, v, t.right))
    else t
  }

  /** A number already present keeps its value. */
  lemma {:induction false} InsertLookup<V>(k: nat, v: V, t: Tree<V>, x: nat)
    requires Bst(t) && (x == k || x in Keys(t))
    ensures Lookup(InsertNode(k, v, t), x) == if x in Keys(t) then Lookup(t, x) else v
  {
    if t != Nil {
      if k < t.aid && x < t.aid {
        InsertLookup(k, v, t.left, x);
      } else if k > t.aid && x > t.aid {
        InsertLookup(k, v, t.right, x);
      }
    }
  }

  /** The least number on the right takes the place of the root. */
  lemma LeastUp<V>(t: Tree<V>, k: nat, v: V, rest: Tree<V>)
    requires Bst(t) && t.Node? && k in Keys(t.right) && forall x :: x in Keys(t.right) ==> k <= x
    requires Bst(rest) && Keys(rest) == Keys(t.right) - {k}
    ensures Bst(Node(t.left, k, v, rest)) && Keys(Node(t.left, k, v, rest)) == Keys(t) - {t.aid}
  {
  }

  function DeleteNode<V>(k: nat, t: Tree<V>): (r: Tree<V>)
    requires Bst(t) && k in Keys(t)
    ensures Bst(r) && Keys(r) == Keys(t) - {k}
    decreases t
  {
    assert Keys(t) == Keys(t.left) + {t.aid} + Keys(t.right);
    if k < t.aid then t.(left := DeleteNode(k, t.left))
    else if k > t.aid then t.(right := DeleteNode(k, t.right))
    else if t.left != Nil && t.right != Nil then
      var least := Leftmost(t.right);
      var rest := DeleteNode(least.aid, t.right);
      LeastUp(t, least.aid, least.value, rest);
      Node(t.left, least.aid, least.value, rest)
    else if t.left == Nil then t.right
    else t.left
  }

  lemma {:induction false} DeleteLookup<V>(k: nat, t: Tree<V>, x: nat)
    requires Bst(t) && k in Keys(t) && x in Keys(t) && x != k
    ensures x in Keys(DeleteNode(k, t)) && Lookup(DeleteNode(k, t), x) == Lookup(t, x)
    decreases t
  {
    if k < t.aid {
      if x < t.aid { DeleteLookup(k, t.left, x); }
    } else if k > t.aid {
      if x > t.aid { DeleteLookup(k, t.right, x); }
    } else if t.left != Nil && t.right != Nil {
      var least := Leftmost(t.right);
      if x > t.aid && x != least.aid { DeleteLookup(least.aid, t.right, x); }
    }
  }

  /** TreeInsert. */
  function Insert<V>(k: nat, v: V, s: Search<V>): (r: Search<V>)
    requires Bst(s.root)
    ensures Bst(r.root) && Keys(r.root) == Keys(s.root) + {k}
    ensures s.pmin == Nil ==> r.pmin == Nil
  {
    Search(InsertNode(k, v, s.root), if s.pmin != Nil && k < s.pmin.aid then Nil else s.pmin)
  }

  /** TreeDelete of an element that is present. */
  function Delete<V>(k: nat, s: Search<V>): (r: Search<V>)
    requires Bst(s.root) && k in Keys(s.root)
    ensures Bst(r.root) && Keys(r.root) == Keys(s.root) - {k}
    ensures s.pmin == Nil ==> r.pmin == Nil
  {
    Search(DeleteNode(k, s.root), if s.pmin != Nil && k == s.pmin.aid then Nil else s.pmin)
  }
}
