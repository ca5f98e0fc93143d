/**
 * A dialogue: an ordered list of nodes (the first is the root) and a lookup
 * from node name to node, rebuilt from the list after every change. Each node
 * names its children by id; looking children up skips ids that name no node.
 * Deleting a node also removes its id from the child lists of the remaining
 * nodes.
 *
 * DialogueNode.cs is not part of this model: a node here has the members the
 * dialogue and the conversant use (its name, text, speaker, enter and exit
 * actions and child ids), `AddChild` appends an id and `RemoveChild` removes
 * its first occurrence, as `List.Add`/`List.Remove` do. A new node's text and
 * actions start empty and its speaker is the NPC. Node positions in the editor
 * are left out; the fresh GUID a new node is named with is a parameter.
 */
module Dialogues {
  import opened Basics

  class DialogueNode {
    const name: string
    const text: string
    const isPlayerSpeaking: bool
    const onEnterAction: string
    const onExitAction: string
    var children: seq<string>

    constructor (name: string, text: string, isPlayerSpeaking: bool, onEnterAction: string, onExitAction: string)
      ensures this.name == name && this.text == text && this.isPlayerSpeaking == isPlayerSpeaking
      ensures this.onEnterAction == onEnterAction && this.onExitAction == onExitAction
      ensures children == []
    {
      this.name := name;
      this.text := text;
      this.isPlayerSpeaking := isPlayerSpeaking;
      this.onEnterAction := onEnterAction;
      this.onExitAction := onExitAction;
      children := [];
    }

    method AddChild(childID: string)
      modifies this`children
      ensures children == old(children) + [childID]
    {
      children := children + [childID];
    }

    method RemoveChild(childID: string)
      modifies this`children
      ensures children == RemoveFirst(old(children), childID)
    {
      children := RemoveFirst(children, childID);
    }
  }

  /** The lookup `OnValidate` builds: every non-null node under its name, a later node overwriting an earlier one. */
  function BuildLookup(nodes: seq<DialogueNode?>): map<string, DialogueNode>
    decreases |nodes|
  {
    if nodes == [] then map[]
    else
      var last := nodes[|nodes| - 1];
      var init := BuildLookup(nodes[..|nodes| - 1]);
      if last == null then init else init[last.name := last]
  }

  /** A name is in the lookup exactly when some non-null node has it, and then it maps to such a node. */
  lemma {:induction false} BuildLookupSound(nodes: seq<DialogueNode?>, id: string)
    ensures id in BuildLookup(nodes) <==> exists i :: 0 <= i < |nodes| && nodes[i] != null && nodes[i].name == id
    ensures id in BuildLookup(nodes) ==> BuildLookup(nodes)[id] in nodes && BuildLookup(nodes)[id].name == id
    decreases |nodes|
  {
    if nodes != [] {
      var init := nodes[..|nodes| - 1];
      BuildLookupSound(init, id);
      if id in BuildLookup(init) {
        var i :| 0 <= i < |init| && init[i] != null && init[i].name == id;
        assert nodes[i] == init[i];
      }
      if exists i :: 0 <= i < |nodes| && nodes[i] != null && nodes[i].name == id {
        var i :| 0 <= i < |nodes| && nodes[i] != null && nodes[i].name == id;
        if i < |init| {
          assert init[i] == nodes[i];
        }
      }
      if id in BuildLookup(init) {
        assert BuildLookup(init)[id] in init;
      }
    }
  }

  /** The node added last under a name is the one the lookup finds. */
  lemma LastNodeIsFound(nodes: seq<DialogueNode?>, node: DialogueNode)
    ensures node.name in BuildLookup(nodes + [node])
    ensures BuildLookup(nodes + [node])[node.name] == node
  {
    assert (nodes + [node])[..|nodes + [node]| - 1] == nodes;
  }

  /** `GetAllChildren` on the lookup: the nodes of the known ids, in child-list order. */
  function Children(lookup: map<string, DialogueNode>, ids: seq<string>): seq<DialogueNode>
    decreases |ids|
  {
    if ids == [] then []
    else (if ids[0] in lookup then [lookup[ids[0]]] else []) + Children(lookup, ids[1..])
  }

  /** Children of a concatenation are the children of each part, in order. */
  lemma {:induction false} ChildrenAppend(lookup: map<string, DialogueNode>, a: seq<string>, b: seq<string>)
    ensures Children(lookup, a + b) == Children(lookup, a) + Children(lookup, b)
    decreases |a|
  {
    if a == [] {
      assert a + b == b;
    } else {
      assert (a + b)[1..] == a[1..] + b;
      ChildrenAppend(lookup, a[1..], b);
    }
  }

  /** A node is yielded exactly when some child id is known and maps to it; unknown ids yield nothing. */
  lemma {:induction false} ChildrenMembership(lookup: map<string, DialogueNode>, ids: seq<string>, n: DialogueNode)
    ensures n in Children(lookup, ids) <==> exists i :: 0 <= i < |ids| && ids[i] in lookup && lookup[ids[i]] == n
    ensures |Children(lookup, ids)| <= |ids|
    decreases |ids|
  {
    if ids != [] {
      ChildrenMembership(lookup, ids[1..], n);
      if exists i :: 0 <= i < |ids| && ids[i] in lookup && lookup[ids[i]] == n {
        var i :| 0 <= i < |ids| && ids[i] in lookup && lookup[ids[i]] == n;
        if i > 0 {
          assert ids[1..][i - 1] == ids[i];
        }
      }
      if n in Children(lookup, ids[1..]) {
        var i :| 0 <= i < |ids[1..]| && ids[1..][i] in lookup && lookup[ids[1..][i]] == n;
        assert ids[i + 1] == ids[1..][i];
      }
    }
  }

  /** Ids that name no node yield no children. */
  lemma {:induction false} UnknownChildrenSkipped(lookup: map<string, DialogueNode>, ids: seq<string>)
    requires forall i :: 0 <= i < |ids| ==> ids[i] !in lookup
    ensures Children(lookup, ids) == []
    decreases |ids|
  {
    if ids != [] {
      UnknownChildrenSkipped(lookup, ids[1..]);
    }
  }

  /** No node object appears twice in the list. */
  predicate DistinctNodes(nodes: seq<DialogueNode?>) {
    forall i, j :: 0 <= i < j < |nodes| && nodes[i] != null ==> nodes[i] != nodes[j]
  }

  predicate NoNullNodes(nodes: seq<DialogueNode?>) {
    forall i :: 0 <= i < |nodes| ==> nodes[i] != null
  }

  class Dialogue {
    var nodes: seq<DialogueNode?>
    var nodeLookup: map<string, DialogueNode>

    ghost predicate Valid()
      reads this
    {
      nodeLookup == BuildLookup(nodes) && DistinctNodes(nodes)
    }

    constructor ()
      ensures Valid() && nodes == []
    {
      nodes := [];
      nodeLookup := map[];
    }

    /** Rebuilds the lookup from scratch. */
    method OnValidate()
      modifies this`nodeLookup
      ensures nodeLookup == BuildLookup(nodes)
    {
      nodeLookup := map[];
      var i := 0;
      while i < |nodes|
        invariant 0 <= i <= |nodes|
        invariant nodeLookup == BuildLookup(nodes[..i])
      {
        var node := nodes[i];
        if node != null {
          nodeLookup := nodeLookup[node.name := node];
        }
        assert nodes[..i + 1][..i] == nodes[..i];
        i := i + 1;
      }
      assert nodes[..i] == nodes;
    }

    /** The nodes in insertion order. */
    function GetAllNodes(): seq<DialogueNode?>
      reads this
    {
      nodes
    }

    /** The first node of the list; the list must not be empty. */
    function GetRootNode(): (root: DialogueNode?)
      reads this
      requires |nodes| > 0
      ensures root in GetAllNodes() && root == GetAllNodes()[0]
    {
      nodes[0]
    }

    function GetAllChildren(parentNode: DialogueNode): seq<DialogueNode>
      reads this, parentNode
    {
      Children(nodeLookup, parentNode.children)
    }

    /** Appends the node and rebuilds the lookup, so the node is then found under its name. */
    method AddNode(newNode: DialogueNode)
      requires Valid() && newNode !in nodes
      modifies this
      ensures Valid() && nodes == old(nodes) + [newNode]
      ensures newNode.name in nodeLookup && nodeLookup[newNode.name] == newNode
    {
      nodes := nodes + [newNode];
      OnValidate();
      LastNodeIsFound(old(nodes), newNode);
    }

    /** A new, empty node named `freshName`; with a parent, its id is appended to the parent's children. */
    static method MakeNode(parentNode: DialogueNode?, freshName: string) returns (newNode: DialogueNode)
      modifies parentNode
      ensures fresh(newNode) && newNode.name == freshName && newNode.children == []
      ensures newNode.text == "" && !newNode.isPlayerSpeaking
      ensures newNode.onEnterAction == "" && newNode.onExitAction == ""
      ensures parentNode != null ==> parentNode.children == old(parentNode.children) + [freshName]
    {
      newNode := new DialogueNode(freshName, "", false, "", "");
      if parentNode != null {
        parentNode.AddChild(freshName);
      }
    }

    /** A new, empty node appended to the list, found under its name, and a child of the parent if one is given. */
    method CreateNode(parentNode: DialogueNode?, freshName: string)
      requires Valid()
      modifies this, parentNode
      ensures Valid() && |nodes| == |old(nodes)| + 1 && nodes[..|old(nodes)|] == old(nodes)
      ensures fresh(nodes[|old(nodes)|]) && nodes[|old(nodes)|].name == freshName
      ensures nodes[|old(nodes)|].children == [] && nodes[|old(nodes)|].text == "" && !nodes[|old(nodes)|].isPlayerSpeaking
      ensures nodes[|old(nodes)|].onEnterAction == "" && nodes[|old(nodes)|].onExitAction == ""
      ensures freshName in nodeLookup && nodeLookup[freshName] == nodes[|old(nodes)|]
      ensures parentNode != null ==> parentNode.children == old(parentNode.children) + [freshName]
    {
      var newNode := MakeNode(parentNode, freshName);
      AddNode(newNode);
    }

    /** Removes `nodeToDelete`'s id from the children of every node in the list; the list must hold no null. */
    method CleanOrphanNodes(nodeToDelete: DialogueNode)
      requires DistinctNodes(nodes) && NoNullNodes(nodes)
      modifies set n: DialogueNode | n in nodes
      ensures forall j :: 0 <= j < |nodes| ==>
        nodes[j].children == RemoveFirst(old(nodes[j].children), nodeToDelete.name)
    {
      var i := 0;
      while i < |nodes|
        invariant 0 <= i <= |nodes|
        invariant forall j :: 0 <= j < i ==> nodes[j].children == RemoveFirst(old(nodes[j].children), nodeToDelete.name)
        invariant forall j :: i <= j < |nodes| ==> nodes[j].children == old(nodes[j].children)
      {
        DistinctAt(nodes, i);
        nodes[i].RemoveChild(nodeToDelete.name);
        i := i + 1;
      }
    }

    /**
     * Removes the node from the list, rebuilds the lookup and cleans up the
     * child lists of the remaining nodes: afterwards the node is gone, and no
     * remaining node that listed its id at most once still lists it.
     */
    method DeleteNode(nodeToDelete: DialogueNode)
      requires Valid() && NoNullNodes(nodes)
      modifies this, set n: DialogueNode | n in nodes
      ensures Valid() && NoNullNodes(nodes)
      ensures nodes == RemoveFirst(old(nodes), nodeToDelete) && nodeToDelete !in nodes
      ensures nodeToDelete.children == old(nodeToDelete.children)
      ensures forall n :: n in old(nodes) && n != nodeToDelete ==>
        n in nodes && n.children == RemoveFirst(old(n.children), nodeToDelete.name)
      ensures forall n :: n in old(nodes) && n != nodeToDelete && multiset(old(n.children))[nodeToDelete.name] <= 1 ==>
        nodeToDelete.name !in n.children
    {
      RemovePreservesNodes(nodes, nodeToDelete);
      RemoveFirstSubset(nodes, nodeToDelete);
      nodes := RemoveFirst(nodes, nodeToDelete);
      OnValidate();
      CleanOrphanNodes(nodeToDelete);
      forall n | n in old(nodes) && n != nodeToDelete
        ensures n in nodes && n.children == RemoveFirst(old(n.children), nodeToDelete.name)
        ensures multiset(old(n.children))[nodeToDelete.name] <= 1 ==> nodeToDelete.name !in n.children
      {
        RemoveFirstMultiset(old(nodes), nodeToDelete);
        assert n in multiset(old(nodes));
        assert n in multiset(nodes);
        var j :| 0 <= j < |nodes| && nodes[j] == n;
        if multiset(old(n.children))[nodeToDelete.name] <= 1 {
          RemoveFirstClears(old(n.children), nodeToDelete.name);
        }
      }
    }

    /** Makes sure a serialized dialogue has a root: an empty list gets one new node. */
    method OnBeforeSerialize(freshName: string)
      requires Valid()
      modifies this
      ensures Valid() && |nodes| > 0
      ensures old(nodes) != [] ==> nodes == old(nodes) && nodeLookup == old(nodeLookup)
      ensures old(nodes) == [] ==> |nodes| == 1 && fresh(nodes[0]) && nodes[0].name == freshName
      ensures old(nodes) == [] ==> nodes[0].children == [] && nodes[0].text == "" && !nodes[0].isPlayerSpeaking
      ensures old(nodes) == [] ==> nodes[0].onEnterAction == "" && nodes[0].onExitAction == ""
      ensures old(nodes) == [] ==> freshName in nodeLookup && nodeLookup[freshName] == nodes[0]
    {
      if |nodes| == 0 {
        var newNode := MakeNode(null, freshName);
        AddNode(newNode);
      }
    }
  }

  /** In a list without repeats, a node occurs at one index only. */
  lemma DistinctAt(nodes: seq<DialogueNode?>, i: int)
    requires DistinctNodes(nodes) && 0 <= i < |nodes| && nodes[i] != null
    ensures forall j :: 0 <= j < |nodes| && j != i ==> nodes[j] != nodes[i]
  {
    forall j | 0 <= j < |nodes| && j != i
      ensures nodes[j] != nodes[i]
    {
      if j < i {
        assert nodes[j] != null ==> nodes[j] != nodes[i];
      }
    }
  }

  /** The tail of a list without repeats has none either, and does not hold the head. */
  lemma DistinctTail(nodes: seq<DialogueNode?>)
    requires DistinctNodes(nodes) && nodes != []
    ensures DistinctNodes(nodes[1..])
    ensures nodes[0] != null ==> nodes[0] !in nodes[1..]
  {
    var tail := nodes[1..];
    forall i, j | 0 <= i < j < |tail| && tail[i] != null
      ensures tail[i] != tail[j]
    {
      assert nodes[i + 1] != nodes[j + 1];
    }
    if nodes[0] != null {
      forall j | 0 <= j < |tail|
        ensures tail[j] != nodes[0]
      {
        assert nodes[0] != nodes[j + 1];
      }
    }
  }

  /** Putting a node that is not in a list without repeats in front keeps it without repeats. */
  lemma DistinctCons(n: DialogueNode?, r: seq<DialogueNode?>)
    requires DistinctNodes(r) && (n != null ==> n !in r)
    ensures DistinctNodes([n] + r)
  {
    var l := [n] + r;
    forall i, j | 0 <= i < j < |l| && l[i] != null
      ensures l[i] != l[j]
    {
      if i == 0 {
        assert l[j] == r[j - 1];
      } else {
        assert l[i] == r[i - 1] && l[j] == r[j - 1];
      }
    }
  }

  /** Removing a node from a list without repeats removes it entirely, keeps the list without repeats, and brings in no null. */
  lemma {:induction false} RemovePreservesNodes(nodes: seq<DialogueNode?>, x: DialogueNode)
    requires DistinctNodes(nodes)
    ensures DistinctNodes(RemoveFirst(nodes, x)) && x !in RemoveFirst(nodes, x)
    ensures NoNullNodes(nodes) ==> NoNullNodes(RemoveFirst(nodes, x))
    decreases |nodes|
  {
    if nodes != [] {
      var tail := nodes[1..];
      DistinctTail(nodes);
      RemoveFirstSubset(nodes, x);
      if nodes[0] != x {
        RemovePreservesNodes(tail, x);
        var r := RemoveFirst(tail, x);
        assert RemoveFirst(nodes, x) == [nodes[0]] + r;
        RemoveFirstSubset(tail, x);
        DistinctCons(nodes[0], r);
      }
      if NoNullNodes(nodes) {
        var r := RemoveFirst(nodes, x);
        forall j | 0 <= j < |r|
          ensures r[j] != null
        {
          assert r[j] in nodes;
        }
      }
    }
  }
}
