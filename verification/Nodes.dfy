/** Intrusive list nodes: circular doubly linked lists and null-terminated chains. */
module Nodes {

  class Node {
    var next: Node?
    var prev: Node?

    constructor ()
      ensures next == null && prev == null
    {
      next, prev := null, null;
    }
  }

  ghost function Elems(s: seq<Node>): set<Node> {
    set x | x in s
  }

  ghost predicate NoDup(s: seq<Node>) {
    forall i, j :: 0 <= i < j < |s| ==> s[i] != s[j]
  }

  ghost predicate Apart(s: seq<Node>, t: seq<Node>) {
    forall x :: x in s ==> x !in t
  }

  /** Each node's next is the node after it. */
  ghost predicate Linked(s: seq<Node>)
    reads s`next
  {
    forall i :: 0 <= i < |s| - 1 ==> s[i].next == s[i + 1]
  }

  /** Each node's prev is the node before it. */
  ghost predicate BackLinked(s: seq<Node>)
    reads s`prev
  {
    forall i :: 0 < i < |s| ==> s[i].prev == s[i - 1]
  }

  /** p is a null-terminated chain of exactly the nodes s; prev is not looked at. */
  ghost predicate Chain(p: Node?, s: seq<Node>)
    reads s`next
  {
    && NoDup(s) && Linked(s)
    && (s == [] ==> p == null)
    && (s != [] ==> p == s[0] && s[|s| - 1].next == null)
  }

  /** head and the entries s, in this order, form a well-formed circular list. */
  ghost predicate Ring(head: Node, s: seq<Node>)
    reads head, s
  {
    var c := [head] + s;
    && NoDup(c) && Linked(c) && BackLinked(c)
    && c[|s|].next == head && head.prev == c[|s|]
  }

  lemma JoinNoDup(s: seq<Node>, t: seq<Node>)
    requires NoDup(s) && NoDup(t) && Apart(s, t)
    ensures NoDup(s + t)
  {
    forall i, j | 0 <= i < j < |s + t| ensures (s + t)[i] != (s + t)[j] {
      if i < |s| <= j { assert s[i] in s && t[j - |s|] in t; }
    }
  }
}
