/**
 * The progress of one quest: the quest and the references of the objectives
 * completed so far, in completion order. A status is built either for a
 * quest just taken on or from a saved record, whose quest is looked up by id.
 */
module QuestStatuses {
  import opened Basics
  import opened SaveState
  import opened Quests

  /** The completed list after `CompleteObjective(objective)`. */
  function AfterCompleting(done: seq<string>, quest: Quest, objective: string): seq<string>
  {
    if quest.HasObjective(objective) && objective !in done then done + [objective] else done
  }

  /** What a status built from a quest keeps: no objective twice, and only the quest's own objectives. */
  predicate Tracks(done: seq<string>, quest: Quest)
  {
    NoDuplicates(done) && forall i :: 0 <= i < |done| ==> quest.HasObjective(done[i])
  }

  /**
   * Completing an objective keeps the list tracking the quest; afterwards
   * the objective counts as complete exactly when the quest has it; a second
   * completion changes nothing; and at most one entry is added.
   */
  lemma CompletingKeepsTracking(done: seq<string>, quest: Quest, objective: string)
    requires Tracks(done, quest)
    ensures Tracks(AfterCompleting(done, quest, objective), quest)
    ensures objective in AfterCompleting(done, quest, objective) <==> quest.HasObjective(objective)
    ensures AfterCompleting(AfterCompleting(done, quest, objective), quest, objective) == AfterCompleting(done, quest, objective)
    ensures forall o :: o in done ==> o in AfterCompleting(done, quest, objective)
    ensures |AfterCompleting(done, quest, objective)| <= |done| + 1
  {
    var after := AfterCompleting(done, quest, objective);
    if quest.HasObjective(objective) && objective !in done {
      forall i, j | 0 <= i < j < |after|
        ensures after[i] != after[j]
      {
        if j == |done| {
          assert after[i] == done[i];
        }
      }
    }
  }

  /** `IsComplete`: the search for an objective not yet completed, with its early return. */
  function AllCompleted(objectives: seq<Objective>, done: seq<string>): (complete: bool)
    ensures complete <==> forall i :: 0 <= i < |objectives| ==> objectives[i].reference in done
  {
    if objectives == [] then true
    else if objectives[0].reference !in done then false
    else
      var rest := AllCompleted(objectives[1..], done);
      assert forall i :: 1 <= i < |objectives| ==> objectives[i] == objectives[1..][i - 1];
      rest
  }

  function References(objectives: seq<Objective>): set<string>
  {
    set i | 0 <= i < |objectives| :: objectives[i].reference
  }

  lemma {:induction false} ReferencesBounded(objectives: seq<Objective>)
    ensures |References(objectives)| <= |objectives|
    decreases |objectives|
  {
    if objectives != [] {
      var last := |objectives| - 1;
      ReferencesBounded(objectives[..last]);
      assert References(objectives) == References(objectives[..last]) + {objectives[last].reference} by {
        forall r | r in References(objectives)
          ensures r in References(objectives[..last]) + {objectives[last].reference}
        {
          var i :| 0 <= i < |objectives| && objectives[i].reference == r;
          if i < last {
            assert objectives[..last][i] == objectives[i];
          }
        }
      }
    }
  }

  lemma {:induction false} DistinctElementsCount(s: seq<string>)
    requires NoDuplicates(s)
    ensures |set x | x in s| == |s|
    decreases |s|
  {
    if s != [] {
      var last := |s| - 1;
      DistinctElementsCount(s[..last]);
      assert (set x | x in s) == (set x | x in s[..last]) + {s[last]} by {
        assert s == s[..last] + [s[last]];
      }
      assert s[last] !in s[..last];
    }
  }

  lemma SubsetCount(a: set<string>, b: set<string>)
    requires a <= b
    ensures |a| <= |b|
  {
    assert b == a + (b - a);
  }

  /** A status that tracks its quest never reports more completed objectives than the quest has. */
  lemma CompletedCountBounded(done: seq<string>, quest: Quest)
    requires Tracks(done, quest)
    ensures |done| <= quest.GetObjectiveCount()
  {
    DistinctElementsCount(done);
    ReferencesBounded(quest.objectives);
    SubsetCount((set x | x in done), References(quest.objectives));
  }

  /** Tracking every one of the quest's objective references means the quest is complete, and conversely. */
  lemma CompleteWhenAllTracked(done: seq<string>, quest: Quest)
    ensures AllCompleted(quest.objectives, done) <==> References(quest.objectives) <= (set x | x in done)
  {
    if AllCompleted(quest.objectives, done) {
      forall r | r in References(quest.objectives)
        ensures r in done
      {
        var i :| 0 <= i < |quest.objectives| && quest.objectives[i].reference == r;
      }
    } else {
      var i :| 0 <= i < |quest.objectives| && quest.objectives[i].reference !in done;
      assert quest.objectives[i].reference in References(quest.objectives);
    }
  }

  class QuestStatus {
    const quest: Quest?
    var completedObjectives: seq<string>

    /** A status for a quest just taken on: nothing completed. */
    constructor (quest: Quest)
      ensures this.quest == quest && completedObjectives == []
      ensures Tracks(completedObjectives, quest)
    {
      this.quest := quest;
      completedObjectives := [];
    }

    /**
     * The record constructor: the saved state must be a status record (the
     * source casts it); the quest is the first with the saved id, or null.
     */
    constructor FromRecord(objectState: State, allQuests: seq<Quest>)
      requires objectState.QuestRecord?
      ensures quest == GetByID(allQuests, objectState.questID)
      ensures completedObjectives == objectState.completeObjectives
    {
      quest := GetByID(allQuests, objectState.questID);
      completedObjectives := objectState.completeObjectives;
    }

    function GetQuest(): Quest?
    {
      quest
    }

    function GetCompletedCount(): nat
      reads this
    {
      |completedObjectives|
    }

    predicate IsObjectiveComplete(objective: string)
      reads this
    {
      objective in completedObjectives
    }

    /** Adds an objective of the quest that is not yet completed; otherwise nothing changes. */
    method CompleteObjective(objective: string)
      requires quest != null
      modifies this`completedObjectives
      ensures completedObjectives == AfterCompleting(old(completedObjectives), quest, objective)
    {
      if quest.HasObjective(objective) && objective !in completedObjectives {
        completedObjectives := completedObjectives + [objective];
      }
    }

    /** Complete when every objective of the quest has been completed; vacuously so without objectives. */
    predicate IsComplete(): (complete: bool)
      reads this
      requires quest != null
      ensures complete <==> forall i :: 0 <= i < |quest.objectives| ==> quest.objectives[i].reference in completedObjectives
      ensures quest.objectives == [] ==> complete
    {
      AllCompleted(quest.objectives, completedObjectives)
    }

    /** The saved record: the quest's id and the completed list. */
    function CaptureState(): (state: State)
      reads this, quest
      requires quest != null
      ensures state.QuestRecord? && state.questID == quest.GetQuestID()
      ensures state.completeObjectives == completedObjectives
    {
      QuestRecord(quest.GetQuestID(), completedObjectives)
    }
  }

  /**
   * Building a status from the record of another gives back the same quest
   * and the same completed objectives, provided the quest is among the loaded
   * quests and no two of them share an id.
   */
  method CaptureRestoreRoundTrip(status: QuestStatus, allQuests: seq<Quest>) returns (restored: QuestStatus)
    requires status.quest != null && status.quest in allQuests && UniqueIDs(allQuests)
    ensures restored.quest == status.quest
    ensures restored.completedObjectives == status.completedObjectives
  {
    var record := status.CaptureState();
    GetByIDFindsOwnQuest(allQuests, status.quest);
    restored := new QuestStatus.FromRecord(record, allQuests);
  }
}
