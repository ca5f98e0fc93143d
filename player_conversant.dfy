/**
 * The player's side of a conversation. The state is the conversant, the
 * dialogue, the current node and whether the player is choosing a response;
 * the conversation is active while a dialogue is set. Entering and leaving
 * nodes fires their enter and exit actions at the conversant's dialogue
 * triggers, and every change fires `onDialogueUpdated`; both go to a log.
 *
 * A node's condition (`CheckCondition` against the player's predicate
 * evaluators) is given as the set of nodes whose condition currently holds,
 * and the random choice among NPC responses as an index parameter.
 * `GetPlayerChildren`/`GetNPCChildren` are `GetAllChildren` filtered by
 * speaker.
 */
module Conversation {
  import opened Basics
  import opened Dialogues
  import opened DialogueTriggers

  /** The NPC side: its display name and the dialogue triggers on its game object. */
  datatype AIConversant = AIConversant(conversantName: string, triggers: seq<DialogueTrigger>)

  datatype ConversationEvent =
    | TriggerInvoked(triggerIndex: nat, action: string)
    | DialogueUpdated

  function Invocations(indices: seq<nat>, action: string): (r: seq<ConversationEvent>)
    ensures |r| == |indices|
    ensures forall k :: 0 <= k < |indices| ==> r[k] == TriggerInvoked(indices[k], action)
  {
    if indices == [] then [] else [TriggerInvoked(indices[0], action)] + Invocations(indices[1..], action)
  }

  /** `TriggerAction`: nothing for the empty action, otherwise every trigger of the conversant is asked. */
  function ActionEvents(c: AIConversant, action: string): seq<ConversationEvent>
  {
    if action == "" then [] else Invocations(Dispatch(c.triggers, action), action)
  }

  /**
   * The empty action reaches no trigger; any other action invokes exactly the
   * conversant's triggers with that action, each once, and nothing else.
   */
  lemma ActionEventsExact(c: AIConversant, action: string)
    ensures action == "" ==> ActionEvents(c, action) == []
    ensures forall i :: 0 <= i < |c.triggers| ==>
      (TriggerInvoked(i, action) in ActionEvents(c, action) <==> action != "" && c.triggers[i].action == action)
    ensures forall e :: e in ActionEvents(c, action) ==>
      e.TriggerInvoked? && e.action == action && e.triggerIndex < |c.triggers|
  {
    DispatchExact(c.triggers, action);
    if action != "" {
      var d := Dispatch(c.triggers, action);
      forall i | 0 <= i < |c.triggers|
        ensures TriggerInvoked(i, action) in ActionEvents(c, action) <==> c.triggers[i].action == action
      {
        if i in d {
          var k :| 0 <= k < |d| && d[k] == i;
          assert ActionEvents(c, action)[k] == TriggerInvoked(i, action);
        }
      }
    }
  }

  /** `FilterOnCondition`: the nodes whose condition holds, in input order. */
  function FilterOnCondition(inputNodes: seq<DialogueNode>, passing: set<DialogueNode>): seq<DialogueNode>
    decreases |inputNodes|
  {
    if inputNodes == [] then []
    else (if inputNodes[0] in passing then [inputNodes[0]] else []) + FilterOnCondition(inputNodes[1..], passing)
  }

  /** Filtering keeps exactly the passing nodes, never adds any, and keeps everything when all pass. */
  lemma {:induction false} FilterExact(inputNodes: seq<DialogueNode>, passing: set<DialogueNode>)
    ensures forall n :: n in FilterOnCondition(inputNodes, passing) <==> n in inputNodes && n in passing
    ensures |FilterOnCondition(inputNodes, passing)| <= |inputNodes|
    ensures (forall i :: 0 <= i < |inputNodes| ==> inputNodes[i] in passing) ==>
      FilterOnCondition(inputNodes, passing) == inputNodes
    decreases |inputNodes|
  {
    if inputNodes != [] {
      FilterExact(inputNodes[1..], passing);
      assert inputNodes == [inputNodes[0]] + inputNodes[1..];
    }
  }

  /** The filter is non-empty exactly when some input node passes. */
  lemma {:induction false} FilterNonEmpty(inputNodes: seq<DialogueNode>, passing: set<DialogueNode>)
    ensures |FilterOnCondition(inputNodes, passing)| > 0 <==>
      (exists i :: 0 <= i < |inputNodes| && inputNodes[i] in passing)
    decreases |inputNodes|
  {
    if inputNodes != [] {
      FilterNonEmpty(inputNodes[1..], passing);
      if exists i :: 0 <= i < |inputNodes[1..]| && inputNodes[1..][i] in passing {
        var i :| 0 <= i < |inputNodes[1..]| && inputNodes[1..][i] in passing;
        assert inputNodes[i + 1] in passing;
      }
      if exists i :: 0 <= i < |inputNodes| && inputNodes[i] in passing {
        var i :| 0 <= i < |inputNodes| && inputNodes[i] in passing;
        if i > 0 {
          assert inputNodes[1..][i - 1] in passing;
        }
      }
    }
  }

  /** Filtering keeps order: the filter of a concatenation is the concatenation of the filters. */
  lemma {:induction false} FilterAppend(a: seq<DialogueNode>, b: seq<DialogueNode>, passing: set<DialogueNode>)
    ensures FilterOnCondition(a + b, passing) == FilterOnCondition(a, passing) + FilterOnCondition(b, passing)
    decreases |a|
  {
    if a == [] {
      assert a + b == b;
    } else {
      assert (a + b)[0] == a[0] && (a + b)[1..] == a[1..] + b;
      FilterAppend(a[1..], b, passing);
    }
  }

  /** The children spoken by the player (`wantPlayer`) or by the NPC. */
  function BySpeaker(nodes: seq<DialogueNode>, wantPlayer: bool): seq<DialogueNode>
    decreases |nodes|
  {
    if nodes == [] then []
    else (if nodes[0].isPlayerSpeaking == wantPlayer then [nodes[0]] else []) + BySpeaker(nodes[1..], wantPlayer)
  }

  lemma {:induction false} BySpeakerSubset(nodes: seq<DialogueNode>, wantPlayer: bool)
    ensures forall n :: n in BySpeaker(nodes, wantPlayer) <==> n in nodes && n.isPlayerSpeaking == wantPlayer
    decreases |nodes|
  {
    if nodes != [] {
      BySpeakerSubset(nodes[1..], wantPlayer);
      assert nodes == [nodes[0]] + nodes[1..];
    }
  }

  /**
   * The responses of one speaker that pass their condition are never more
   * than all passing children; so without a next node (`HasNext` false) there
   * is neither a player option nor an NPC response to go to.
   */
  lemma {:induction false} SpeakerResponsesBounded(children: seq<DialogueNode>, passing: set<DialogueNode>, wantPlayer: bool)
    ensures |FilterOnCondition(BySpeaker(children, wantPlayer), passing)| <= |FilterOnCondition(children, passing)|
    ensures |FilterOnCondition(children, passing)| == 0 ==> FilterOnCondition(BySpeaker(children, wantPlayer), passing) == []
    decreases |children|
  {
    if children != [] {
      SpeakerResponsesBounded(children[1..], passing, wantPlayer);
      var head := if children[0].isPlayerSpeaking == wantPlayer then [children[0]] else [];
      assert BySpeaker(children, wantPlayer) == head + BySpeaker(children[1..], wantPlayer);
      FilterAppend(head, BySpeaker(children[1..], wantPlayer), passing);
    }
  }

  class PlayerConversant {
    const playerName: string
    var currentConversant: Option<AIConversant>
    var currentDialogue: Dialogue?
    var currentNode: DialogueNode?
    var isSelecting: bool
    var events: seq<ConversationEvent>

    /** A conversant is set whenever a dialogue or a node is. */
    ghost predicate Valid()
      reads this
    {
      (currentDialogue != null || currentNode != null) ==> currentConversant.Some?
    }

    constructor (playerName: string)
      ensures Valid() && this.playerName == playerName
      ensures currentConversant == None && currentDialogue == null && currentNode == null
      ensures !isSelecting && events == []
    {
      this.playerName := playerName;
      currentConversant := None;
      currentDialogue := null;
      currentNode := null;
      isSelecting := false;
      events := [];
    }

    /** The enter action of a node, fired at the current conversant; nothing for no node. */
    function EnterEvents(node: DialogueNode?): seq<ConversationEvent>
      reads this
      requires node != null ==> currentConversant.Some?
    {
      if node == null then [] else ActionEvents(currentConversant.value, node.onEnterAction)
    }

    function ExitEvents(node: DialogueNode?): seq<ConversationEvent>
      reads this
      requires node != null ==> currentConversant.Some?
    {
      if node == null then [] else ActionEvents(currentConversant.value, node.onExitAction)
    }

    predicate IsActive()
      reads this
    {
      currentDialogue != null
    }

    predicate IsSelectingOption()
      reads this
    {
      isSelecting
    }

    /** The current node's text, or "" with no current node. */
    function GetText(): (text: string)
      reads this
      ensures currentNode == null ==> text == ""
      ensures currentNode != null ==> text == currentNode.text
    {
      if currentNode == null then "" else currentNode.text
    }

    /** The player's responses to the current node whose condition holds. */
    function GetOptions(passing: set<DialogueNode>): seq<DialogueNode>
      reads this, currentDialogue, currentNode
      requires currentDialogue != null && currentNode != null
    {
      FilterOnCondition(BySpeaker(currentDialogue.GetAllChildren(currentNode), true), passing)
    }

    /** The NPC's responses to the current node whose condition holds. */
    function NPCResponses(passing: set<DialogueNode>): seq<DialogueNode>
      reads this, currentDialogue, currentNode
      requires currentDialogue != null && currentNode != null
    {
      FilterOnCondition(BySpeaker(currentDialogue.GetAllChildren(currentNode), false), passing)
    }

    /** Whether some child of the current node passes its condition. */
    predicate HasNext(passing: set<DialogueNode>): (has: bool)
      reads this, currentDialogue, currentNode
      requires currentDialogue != null && currentNode != null
      ensures has <==>
        (exists i :: 0 <= i < |currentDialogue.GetAllChildren(currentNode)| && currentDialogue.GetAllChildren(currentNode)[i] in passing)
    {
      var children := currentDialogue.GetAllChildren(currentNode);
      FilterNonEmpty(children, passing);
      |FilterOnCondition(children, passing)| > 0
    }

    /** While the player chooses, the speaker shown is the player; otherwise the conversant. */
    function GetCurrentConversantName(): (name: string)
      reads this
      requires isSelecting || currentConversant.Some?
      ensures isSelecting ==> name == playerName
      ensures !isSelecting ==> name == currentConversant.value.conversantName
    {
      if isSelecting then playerName else currentConversant.value.conversantName
    }

    /** Starts at the dialogue's root, fires the root's enter action; the conversation is then active. */
    method StartDialogue(newConversant: AIConversant, newDialogue: Dialogue)
      requires |newDialogue.nodes| > 0
      modifies this
      ensures Valid() && IsActive()
      ensures currentConversant == Some(newConversant) && currentDialogue == newDialogue
      ensures currentNode == newDialogue.GetRootNode() && isSelecting == old(isSelecting)
      ensures events == old(events) + EnterEvents(currentNode) + [DialogueUpdated]
    {
      currentConversant := Some(newConversant);
      currentDialogue := newDialogue;
      currentNode := currentDialogue.GetRootNode();
      TriggerEnterAction();
      events := events + [DialogueUpdated];
    }

    /** Fires the current node's exit action, then clears the whole conversation state. */
    method QuitDialogue()
      requires Valid()
      modifies this
      ensures Valid() && !IsActive()
      ensures currentNode == null && currentConversant == None && !isSelecting
      ensures events == old(events) + old(ExitEvents(currentNode)) + [DialogueUpdated]
    {
      currentDialogue := null;
      TriggerExitAction();
      currentNode := null;
      isSelecting := false;
      currentConversant := None;
      events := events + [DialogueUpdated];
    }

    method TriggerEnterAction()
      requires currentNode != null ==> currentConversant.Some?
      modifies this`events
      ensures events == old(events) + EnterEvents(currentNode)
    {
      if currentNode != null {
        TriggerAction(currentNode.onEnterAction);
      }
    }

    method TriggerExitAction()
      requires currentNode != null ==> currentConversant.Some?
      modifies this`events
      ensures events == old(events) + ExitEvents(currentNode)
    {
      if currentNode != null {
        TriggerAction(currentNode.onExitAction);
      }
    }

    /** Asks every trigger of the conversant to run the action, unless the action is empty. */
    method TriggerAction(action: string)
      requires action != "" ==> currentConversant.Some?
      modifies this`events
      ensures action == "" ==> events == old(events)
      ensures action != "" ==> events == old(events) + ActionEvents(currentConversant.value, action)
    {
      if action == "" {
        return;
      }
      var triggers := currentConversant.value.triggers;
      var i := 0;
      while i < |triggers|
        invariant 0 <= i <= |triggers|
        invariant events == old(events) + Invocations(Dispatch(triggers[..i], action), action)
      {
        InvocationsAppend(Dispatch(triggers[..i], action), [i], action);
        assert triggers[..i + 1][..i] == triggers[..i];
        if Trigger(triggers[i], action) == 1 {
          events := events + [TriggerInvoked(i, action)];
        }
        i := i + 1;
      }
      assert triggers[..i] == triggers;
    }

    /**
     * With a player response available: selection mode, the current node's
     * exit action, and the node stays. Otherwise, in this order: the enter
     * action of the node being left, the move to the chosen NPC response, and
     * the exit action of that new node. The NPC responses must not be empty
     * then (the source indexes them).
     */
    method NextDialogue(passing: set<DialogueNode>, randomIndex: int)
      requires Valid() && currentDialogue != null && currentNode != null
      requires |GetOptions(passing)| == 0 ==>
        |NPCResponses(passing)| > 0 && IntRangeDraw(0, |NPCResponses(passing)|, randomIndex)
      modifies this`isSelecting, this`currentNode, this`events
      ensures Valid() && currentNode != null
      ensures old(|GetOptions(passing)|) > 0 ==>
        isSelecting && currentNode == old(currentNode) &&
        events == old(events) + old(ExitEvents(currentNode)) + [DialogueUpdated]
      ensures old(|GetOptions(passing)|) == 0 ==>
        isSelecting == old(isSelecting) && currentNode == old(NPCResponses(passing))[randomIndex] &&
        events == old(events) + old(EnterEvents(currentNode)) + ExitEvents(currentNode) + [DialogueUpdated]
    {
      var numOfPlayerOptions := |GetOptions(passing)|;
      if numOfPlayerOptions > 0 {
        isSelecting := true;
        TriggerExitAction();
        events := events + [DialogueUpdated];
        return;
      }
      var childNodes := NPCResponses(passing);
      TriggerEnterAction();
      currentNode := childNodes[randomIndex];
      TriggerExitAction();
      events := events + [DialogueUpdated];
    }

    /**
     * Makes the chosen response current, fires its enter action, leaves
     * selection mode and moves on with `NextDialogue`. `passing` is the set
     * of nodes whose condition holds after the chosen node's enter action has
     * reached the triggers, since both condition checks of `NextDialogue`
     * run after it.
     */
    method SelectOption(chosenNode: DialogueNode, passing: set<DialogueNode>, randomIndex: int)
      requires Valid() && currentDialogue != null
      requires var children := currentDialogue.GetAllChildren(chosenNode);
        var options := FilterOnCondition(BySpeaker(children, true), passing);
        var responses := FilterOnCondition(BySpeaker(children, false), passing);
        |options| == 0 ==> |responses| > 0 && IntRangeDraw(0, |responses|, randomIndex)
      modifies this`isSelecting, this`currentNode, this`events
      ensures Valid() && currentNode != null
      ensures var children := currentDialogue.GetAllChildren(chosenNode);
        var options := FilterOnCondition(BySpeaker(children, true), passing);
        var responses := FilterOnCondition(BySpeaker(children, false), passing);
        && (|options| > 0 ==>
              isSelecting && currentNode == chosenNode &&
              events == old(events) + EnterEvents(chosenNode) + ExitEvents(chosenNode) + [DialogueUpdated])
        && (|options| == 0 ==>
              !isSelecting && currentNode == responses[randomIndex] &&
              events == old(events) + EnterEvents(chosenNode) + EnterEvents(chosenNode)
                        + ExitEvents(currentNode) + [DialogueUpdated])
    {
      currentNode := chosenNode;
      TriggerEnterAction();
      isSelecting := false;
      NextDialogue(passing, randomIndex);
    }
  }

  lemma {:induction false} InvocationsAppend(a: seq<nat>, b: seq<nat>, action: string)
    ensures Invocations(a + b, action) == Invocations(a, action) + Invocations(b, action)
    decreases |a|
  {
    if a == [] {
      assert a + b == b;
    } else {
      assert (a + b)[1..] == a[1..] + b;
      InvocationsAppend(a[1..], b, action);
    }
  }
}
