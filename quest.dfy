/**
 * A quest asset: a title, an id, objectives named by a reference string and
 * rewards. The id is the only thing that changes: it is given a fresh value
 * before serialisation when it is null or blank.
 */
module Quests {
  import opened Basics
  import opened Inventories

  datatype Objective = Objective(reference: string, description: string)

  /** A reward of `quantity` copies of an item; the editor keeps the quantity at 1 or more. */
  datatype Reward = Reward(quantity: int, item: InventoryItem)

  /** `char.IsWhiteSpace`: the Unicode space separators, line and paragraph separators and the control spaces. */
  predicate IsWhiteSpace(c: char)
  {
    c == ' ' || ('\t' <= c <= '\r') || c == '\U{0085}' || c == '\U{00A0}' || c == '\U{1680}'
    || ('\U{2000}' <= c <= '\U{200A}') || c == '\U{2028}' || c == '\U{2029}' || c == '\U{202F}'
    || c == '\U{205F}' || c == '\U{3000}'
  }

  /** `string.IsNullOrWhiteSpace`, a null string being `None`. */
  predicate IsNullOrWhiteSpace(s: Option<string>)
  {
    s.None? || forall i :: 0 <= i < |s.value| ==> IsWhiteSpace(s.value[i])
  }

  /** The id after `OnBeforeSerialize`: a fresh one replaces a null or blank id. */
  function AssignID(id: Option<string>, freshId: string): Option<string>
  {
    if IsNullOrWhiteSpace(id) then Some(freshId) else id
  }

  /**
   * With a non-blank fresh id (a GUID's text) the id is never blank
   * afterwards, a usable id is kept, and a second serialisation keeps the
   * id of the first.
   */
  lemma AssignIDSettles(id: Option<string>, freshId: string, laterId: string)
    requires !IsNullOrWhiteSpace(Some(freshId))
    ensures !IsNullOrWhiteSpace(AssignID(id, freshId))
    ensures !IsNullOrWhiteSpace(id) ==> AssignID(id, freshId) == id
    ensures AssignID(AssignID(id, freshId), laterId) == AssignID(id, freshId)
  {
  }

  /** The linear search of `HasObjective`, with its early return. */
  function ObjectiveIn(objectives: seq<Objective>, objectiveRef: string): (found: bool)
    ensures found <==> exists i :: 0 <= i < |objectives| && objectives[i].reference == objectiveRef
  {
    if objectives == [] then false
    else if objectives[0].reference == objectiveRef then true
    else
      var rest := ObjectiveIn(objectives[1..], objectiveRef);
      assert forall i :: 1 <= i < |objectives| ==> objectives[i] == objectives[1..][i - 1];
      rest
  }

  class Quest {
    const title: string
    var questID: Option<string>
    const objectives: seq<Objective>
    const rewards: seq<Reward>

    constructor (title: string, questID: Option<string>, objectives: seq<Objective>, rewards: seq<Reward>)
      ensures this.title == title && this.questID == questID
      ensures this.objectives == objectives && this.rewards == rewards
    {
      this.title := title;
      this.questID := questID;
      this.objectives := objectives;
      this.rewards := rewards;
    }

    function GetTitle(): string
    {
      title
    }

    function GetQuestID(): Option<string>
      reads this
    {
      questID
    }

    function GetObjectiveCount(): nat
    {
      |objectives|
    }

    /** Whether some objective of the quest has the reference. */
    predicate HasObjective(objectiveRef: string): (has: bool)
      ensures has <==> exists i :: 0 <= i < |objectives| && objectives[i].reference == objectiveRef
    {
      ObjectiveIn(objectives, objectiveRef)
    }

    /** Gives the quest a fresh id when it has none or only a blank one, and otherwise keeps it. */
    method OnBeforeSerialize(freshId: string)
      modifies this`questID
      ensures questID == AssignID(old(questID), freshId)
    {
      if IsNullOrWhiteSpace(questID) {
        questID := Some(freshId);
      }
    }
  }

  /**
   * `GetByID` over the quests the resources hold, in load order: the first
   * quest whose id equals the one asked for, or null when none does.
   */
  function GetByID(quests: seq<Quest>, questID: Option<string>): (r: Quest?)
    reads set q | q in quests
    ensures r == null <==> forall i :: 0 <= i < |quests| ==> quests[i].questID != questID
    ensures r != null ==> exists k :: 0 <= k < |quests| && quests[k] == r && r.questID == questID &&
                                     (forall j :: 0 <= j < k ==> quests[j].questID != questID)
  {
    if quests == [] then null
    else if quests[0].questID == questID then quests[0]
    else
      var r := GetByID(quests[1..], questID);
      assert forall i :: 1 <= i < |quests| ==> quests[i] == quests[1..][i - 1];
      r
  }

  /** No two quests share an id. */
  ghost predicate UniqueIDs(quests: seq<Quest>)
    reads set q | q in quests
  {
    forall i, j :: 0 <= i < j < |quests| ==> quests[i].questID != quests[j].questID
  }

  /** When ids are unique, a quest is found again by its own id. */
  lemma GetByIDFindsOwnQuest(quests: seq<Quest>, q: Quest)
    requires UniqueIDs(quests) && q in quests
    ensures GetByID(quests, q.questID) == q
  {
    var r := GetByID(quests, q.questID);
    var m :| 0 <= m < |quests| && quests[m] == q;
    var k :| 0 <= k < |quests| && quests[k] == r && r.questID == q.questID &&
             (forall j :: 0 <= j < k ==> quests[j].questID != q.questID);
    if k < m {
      assert quests[k].questID == quests[m].questID;
    }
  }
}
