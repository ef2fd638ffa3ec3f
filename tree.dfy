/**
 * The parse tree of Tree.py: an n-ary tree whose nodes know their parent, built and
 * rearranged in place by the parsing engines.
 */
module Trees {

  /** Where `list.insert(index, x)` puts `x`, after `add_child` has turned a negative index into `len`. */
  function InsertPosition(index: int, len: nat): (k: nat)
    ensures k <= len
    ensures 0 <= index <= len ==> k == index
    ensures index < 0 || index > len ==> k == len
  {
    if index < 0 || index > len then len else index
  }

  class Tree {
    var name: string
    var parent: Tree?
    var children: seq<Tree>

    /** `Tree(name, parent, children_list)`: every supplied child is re-parented to the new node. */
    constructor (name: string, parent: Tree?, childrenList: seq<Tree>)
      modifies set c | c in childrenList
      ensures this.name == name && this.parent == parent && children == childrenList
      ensures forall c :: c in childrenList ==> c.parent == this
      ensures forall c :: c in childrenList ==> c.name == old(c.name) && c.children == old(c.children)
    {
      this.name := name;
      this.parent := parent;
      this.children := childrenList;
      new;
      for i := 0 to |childrenList|
        invariant this.name == name && this.parent == parent && children == childrenList
        invariant forall j :: 0 <= j < i ==> childrenList[j].parent == this
        invariant forall c :: c in childrenList ==> c.name == old(c.name) && c.children == old(c.children)
      {
        childrenList[i].parent := this;
      }
    }

    /** `len(t)`, which is `t.number_of_children`, which is `len(t.children)`. */
    function Len(): (n: nat)
      reads this
      ensures n == |children|
    {
      |children|
    }

    /** `t[i]`, with Python's reading of a negative index as counting from the end. */
    function Get(i: int): (c: Tree)
      reads this
      requires -|children| <= i < |children|
      ensures i >= 0 ==> c == children[i]
      ensures i < 0 ==> c == children[|children| + i]
    {
      if i < 0 then children[|children| + i] else children[i]
    }

    /**
     * `add_child`: a new node named `name`, with this node as parent and `childrenList` as
     * children, inserted at `index` (appended when `index` is negative or past the end).
     */
    method AddChild(name: string, index: int, childrenList: seq<Tree>) returns (child: Tree)
      modifies this, set c | c in childrenList
      ensures fresh(child)
      ensures child.name == name && child.parent == this && child.children == childrenList
      ensures var k := InsertPosition(index, |old(children)|);
        children == old(children)[..k] + [child] + old(children)[k..]
      ensures |children| == |old(children)| + 1
      ensures this.name == old(this.name)
      ensures this !in childrenList ==> this.parent == old(this.parent)
      ensures forall c :: c in childrenList ==> c.parent == child
      ensures forall c :: c in childrenList && c != this ==> c.name == old(c.name) && c.children == old(c.children)
    {
      child := new Tree(name, this, childrenList);
      var k := InsertPosition(index, |children|);
      children := children[..k] + [child] + children[k..];
    }

    /** `remove_last_child`: pops and returns the last child. */
    method RemoveLastChild() returns (last: Tree)
      requires |children| > 0
      modifies this
      ensures last == old(children)[|old(children)| - 1]
      ensures children == old(children)[..|old(children)| - 1]
      ensures name == old(name) && parent == old(parent)
    {
      last := children[|children| - 1];
      children := children[..|children| - 1];
    }
  }
}
