/** The list of the buttons that button_process serves: linked through the buttons, without a head node. */
module ButtonList {
  import opened Kernel

  class Node {
    var next: Node?

    constructor ()
    {
      next := null;
    }
  }

  class List {
    var head: Node?

    constructor ()
      ensures Holds([])
    {
      head := null;
    }

    /** The list is exactly s, each button once, and ends. */
    ghost predicate Holds(s: seq<Node>)
      reads this, s
    {
      && Distinct(s)
      && head == (if s == [] then null else s[0])
      && (forall i {:trigger s[i].next} :: 0 <= i < |s| ==> s[i].next == if i + 1 < |s| then s[i + 1] else null)
    }

    static ghost function At(s: seq<Node>, i: int): Node? {
      if 0 <= i < |s| then s[i] else null
    }

    /** button_start: a button already in the list is refused, any other becomes the first. */
    method Start(btn: Node, ghost s: seq<Node>) returns (r: int)
      requires Holds(s)
      modifies this, btn
      ensures r == if btn in s then -1 else 0
      ensures Holds(if btn in s then s else [btn] + s)
    {
      var target := head;
      ghost var i := 0;
      while target != null
        invariant i <= |s| && target == At(s, i) && btn !in s[..i]
        invariant Holds(s)
        decreases |s| - i
      {
        if target == btn {
          return -1;
        }
        target := target.next;
        i := i + 1;
      }
      btn.next := head;
      head := btn;
      return 0;
    }

    /** button_stop: the button is unlinked, the others keep their order; an absent button changes nothing.
        curr is the link that points at the node looked at: the head, or the next field of prev. */
    method Stop(btn: Node, ghost s: seq<Node>) returns (ghost r: seq<Node>)
      requires Holds(s)
      modifies this, s
      ensures Holds(r)
      ensures btn !in s ==> r == s
      ensures forall k :: 0 <= k < |s| && s[k] == btn ==> r == s[..k] + s[k + 1..]
    {
      var prev: Node? := null;
      var entry := head;
      ghost var i := 0;
      r := s;
      while entry != null
        invariant Holds(r) && i <= |r| && entry == At(r, i) && prev == At(r, i - 1) && btn !in r[..i]
        invariant r == s || Without(s, r, btn)
        decreases |r| - i
      {
        if entry == btn {
          assert r == s;
          Removed(s, i);
          entry := Unlink(prev, entry, s, i);
          r := s[..i] + s[i + 1..];
        } else {
          prev := entry;
          entry := entry.next;
          i := i + 1;
        }
      }
      assert r[..i] == r;
      if r != s {
        WithoutIs(s, r, btn);
      }
    }

    /** r is s less one position that holds btn, and does not hold it again. */
    static ghost predicate Without(s: seq<Node>, r: seq<Node>, btn: Node) {
      btn !in r && exists k :: 0 <= k < |s| && s[k] == btn && r == s[..k] + s[k + 1..]
    }

    static lemma WithoutIs(s: seq<Node>, r: seq<Node>, btn: Node)
      requires Distinct(s) && Without(s, r, btn)
      ensures btn in s && forall k :: 0 <= k < |s| && s[k] == btn ==> r == s[..k] + s[k + 1..]
    {
    }

    /** The list without position i. */
    static lemma Removed(s: seq<Node>, i: nat)
      requires Distinct(s) && i < |s|
      ensures var r := s[..i] + s[i + 1..];
              && r[..i] == s[..i] && At(r, i) == At(s, i + 1) && At(r, i - 1) == At(s, i - 1)
              && Without(s, r, s[i])
    {
    }

    /** The link to the node at position i is led past it; the result is the node it then leads to. */
    method Unlink(prev: Node?, entry: Node, ghost s: seq<Node>, ghost i: nat) returns (curr: Node?)
      requires Holds(s) && i < |s| && entry == s[i] && prev == At(s, i - 1)
      modifies this, s
      ensures Holds(s[..i] + s[i + 1..]) && curr == At(s, i + 1)
    {
      curr := entry.next;
      if prev == null {
        head := curr;
      } else {
        prev.next := curr;
      }
    }
  }
}
