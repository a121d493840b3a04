/** The singly linked list with a head node. */
module SList {
  import opened Kernel

  class SNode {
    var next: SNode?

    /** rt_slist_init. */
    constructor ()
      ensures Chain(this, [])
    {
      next := null;
    }
  }

  /** The list with head l holds exactly the nodes s, in order, and ends. */
  ghost predicate Chain(l: SNode, s: seq<SNode>)
    reads l, s
  {
    && l !in s && Distinct(s)
    && l.next == (if s == [] then null else s[0])
    && (forall i {:trigger s[i].next} :: 0 <= i < |s| ==> s[i].next == if i + 1 < |s| then s[i + 1] else null)
  }

  /** The node at position i of the walk, the head being position 0. */
  ghost function At(l: SNode, s: seq<SNode>, i: int): SNode? {
    if i == 0 then l else if 1 <= i <= |s| then s[i - 1] else null
  }

  /** rt_slist_tail. */
  method Tail(l: SNode, ghost s: seq<SNode>) returns (t: SNode)
    requires Chain(l, s)
    ensures t == At(l, s, |s|)
  {
    t := l;
    ghost var i := 0;
    while t.next != null
      invariant i <= |s| && t == At(l, s, i)
      decreases |s| - i
    {
      t := t.next;
      i := i + 1;
    }
  }

  /** rt_slist_append. */
  method Append(l: SNode, n: SNode, ghost s: seq<SNode>)
    requires Chain(l, s) && n != l && n !in s
    modifies l, s, n
    ensures Chain(l, s + [n])
  {
    var node := Tail(l, s);
    node.next := n;
    n.next := null;
  }

  /** rt_slist_insert. */
  method Insert(l: SNode, n: SNode, ghost s: seq<SNode>)
    requires Chain(l, s) && n != l && n !in s
    modifies l, n
    ensures Chain(l, [n] + s)
  {
    n.next := l.next;
    l.next := n;
  }

  /** rt_slist_len. */
  method Len(l: SNode, ghost s: seq<SNode>) returns (len: nat)
    requires Chain(l, s)
    ensures len == |s|
  {
    len := 0;
    var list := l.next;
    while list != null
      invariant len <= |s| && list == At(l, s, len + 1)
      decreases |s| - len
    {
      list := list.next;
      len := len + 1;
    }
  }

  /** rt_slist_remove: a node of the list is unlinked, an absent node changes nothing at all.
      The removed node keeps its own next field. */
  method Remove(l: SNode, n: SNode, ghost s: seq<SNode>)
    requires Chain(l, s) && n != l
    modifies l, s
    ensures n in s ==> exists k :: 0 <= k < |s| && s[k] == n && Chain(l, s[..k] + s[k + 1..])
    ensures n !in s ==> Chain(l, s)
    ensures n !in s ==> l.next == old(l.next) && forall x <- s :: x.next == old(x.next)
    ensures n.next == old(n.next)
  {
    var node := l;
    ghost var i := 0;
    while node.next != null && node.next != n
      invariant i <= |s| && node == At(l, s, i)
      invariant n !in s[..i]
      decreases |s| - i
    {
      node := node.next;
      i := i + 1;
    }
    if node.next != null {
      assert s[i] == n;
      assert i > 0 ==> s[i - 1].next == s[i];
      node.next := node.next.next;
      assert Chain(l, s[..i] + s[i + 1..]);
    }
  }
}
