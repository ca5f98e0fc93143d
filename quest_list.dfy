/**
 * The player's quest log: one status per quest taken on, in the order they
 * were taken on. Completing an objective may complete the quest, which hands
 * out its rewards as additions to the inventory; those requests are kept in
 * a log, and so is the number of `onUpdate` notifications.
 */
module QuestLists {
  import opened Basics
  import opened SaveState
  import opened Inventories
  import opened Quests
  import opened QuestStatuses

  /** The inventory additions one reward turns into. */
  function AdditionsFor(reward: Reward): seq<Addition>
  {
    if !reward.item.stackable && reward.quantity > 1 then Repeat(Addition(reward.item, 1), reward.quantity)
    else [Addition(reward.item, reward.quantity)]
  }

  function Repeat(a: Addition, n: nat): (r: seq<Addition>)
    ensures |r| == n && forall k :: 0 <= k < n ==> r[k] == a
  {
    if n == 0 then [] else Repeat(a, n - 1) + [a]
  }

  /** The inventory additions `GiveReward` requests, reward by reward. */
  function RewardAdditions(rewards: seq<Reward>): seq<Addition>
    decreases |rewards|
  {
    if rewards == [] then []
    else RewardAdditions(rewards[..|rewards| - 1]) + AdditionsFor(rewards[|rewards| - 1])
  }

  lemma RewardAdditionsStep(rewards: seq<Reward>, r: nat)
    requires r < |rewards|
    ensures RewardAdditions(rewards[..r + 1]) == RewardAdditions(rewards[..r]) + AdditionsFor(rewards[r])
  {
    assert rewards[..r + 1][..r] == rewards[..r];
  }

  function TotalNumber(additions: seq<Addition>): int
    decreases |additions|
  {
    if additions == [] then 0 else TotalNumber(additions[..|additions| - 1]) + additions[|additions| - 1].number
  }

  function TotalQuantity(rewards: seq<Reward>): int
    decreases |rewards|
  {
    if rewards == [] then 0 else TotalQuantity(rewards[..|rewards| - 1]) + rewards[|rewards| - 1].quantity
  }

  lemma {:induction false} TotalNumberSplits(a: seq<Addition>, b: seq<Addition>)
    ensures TotalNumber(a + b) == TotalNumber(a) + TotalNumber(b)
    decreases |b|
  {
    if b == [] {
      assert a + b == a;
    } else {
      TotalNumberSplits(a, b[..|b| - 1]);
      assert (a + b)[..|a + b| - 1] == a + b[..|b| - 1];
    }
  }

  lemma {:induction false} RepeatTotal(a: Addition, n: nat)
    ensures TotalNumber(Repeat(a, n)) == n * a.number
  {
    if n > 0 {
      RepeatTotal(a, n - 1);
      var r := Repeat(a, n);
      assert r[..n - 1] == Repeat(a, n - 1) && r[n - 1] == a;
      assert TotalNumber(r) == (n - 1) * a.number + a.number;
    }
  }

  /**
   * Whether a reward is handed out singly or at once, the inventory is asked
   * for exactly the rewarded quantity in total.
   */
  lemma {:induction false} RewardsGiveTheirQuantity(rewards: seq<Reward>)
    ensures TotalNumber(RewardAdditions(rewards)) == TotalQuantity(rewards)
    decreases |rewards|
  {
    if rewards != [] {
      var last := rewards[|rewards| - 1];
      RewardsGiveTheirQuantity(rewards[..|rewards| - 1]);
      TotalNumberSplits(RewardAdditions(rewards[..|rewards| - 1]), AdditionsFor(last));
      if !last.item.stackable && last.quantity > 1 {
        RepeatTotal(Addition(last.item, 1), last.quantity);
      } else {
        assert AdditionsFor(last)[..0] == [];
      }
    }
  }

  /**
   * The addition names an item some reward names, one copy at a time when
   * that reward is of a non-stackable item in several copies.
   */
  predicate GivenFrom(a: Addition, rewards: seq<Reward>)
  {
    exists r :: r in rewards && a.item == r.item && (!r.item.stackable && r.quantity > 1 ==> a.number == 1)
  }

  /**
   * Every request is for an item some reward names, and a non-stackable item
   * rewarded in several copies is requested one copy at a time.
   */
  lemma {:induction false} NonStackablesGivenSingly(rewards: seq<Reward>)
    ensures forall k :: 0 <= k < |RewardAdditions(rewards)| ==> GivenFrom(RewardAdditions(rewards)[k], rewards)
    decreases |rewards|
  {
    if rewards != [] {
      var init := rewards[..|rewards| - 1];
      var last := rewards[|rewards| - 1];
      NonStackablesGivenSingly(init);
      var all := RewardAdditions(rewards);
      assert all == RewardAdditions(init) + AdditionsFor(last);
      forall k | 0 <= k < |all|
        ensures GivenFrom(all[k], rewards)
      {
        if k < |RewardAdditions(init)| {
          assert GivenFrom(RewardAdditions(init)[k], init);
          var r :| r in init && RewardAdditions(init)[k].item == r.item &&
                   (!r.item.stackable && r.quantity > 1 ==> RewardAdditions(init)[k].number == 1);
          assert all[k] == RewardAdditions(init)[k];
          assert r in rewards;
        } else {
          assert all[k] == AdditionsFor(last)[k - |RewardAdditions(init)|];
          assert last in rewards;
        }
      }
    }
  }

  /** The first status of the list for the quest, or null. */
  function FindStatus(statuses: seq<QuestStatus>, quest: Quest?): (r: QuestStatus?)
    ensures r == null <==> forall i :: 0 <= i < |statuses| ==> statuses[i].quest != quest
    ensures r != null ==> r in statuses && r.quest == quest
  {
    if statuses == [] then null
    else if statuses[0].quest == quest then statuses[0]
    else
      var r := FindStatus(statuses[1..], quest);
      assert forall i :: 1 <= i < |statuses| ==> statuses[i] == statuses[1..][i - 1];
      r
  }

  /** The records `CaptureState` collects, one per status, in order. */
  function Captures(statuses: seq<QuestStatus>): (records: seq<State>)
    reads set s | s in statuses
    reads set s | s in statuses && s.quest != null :: s.quest
    requires forall i :: 0 <= i < |statuses| ==> statuses[i].quest != null
    ensures |records| == |statuses|
    ensures forall i :: 0 <= i < |statuses| ==> records[i] == statuses[i].CaptureState()
    decreases |statuses|
  {
    if statuses == [] then []
    else Captures(statuses[..|statuses| - 1]) + [statuses[|statuses| - 1].CaptureState()]
  }

  /** The quest each record's id finds among the loaded quests. */
  function RecordQuests(allQuests: seq<Quest>, items: seq<State>): (quests: seq<Quest?>)
    reads set q | q in allQuests
    ensures |quests| == |items|
    ensures forall k :: 0 <= k < |items| && items[k].QuestRecord? ==> quests[k] == GetByID(allQuests, items[k].questID)
    decreases |items|
  {
    if items == [] then []
    else
      var last := items[|items| - 1];
      RecordQuests(allQuests, items[..|items| - 1]) + [if last.QuestRecord? then GetByID(allQuests, last.questID) else null]
  }

  class QuestList {
    var statuses: seq<QuestStatus>
    /** The `AddToPreferredSlot` requests made for rewards, in order. */
    var additions: seq<Addition>
    /** How many times `onUpdate` has fired. */
    var updates: nat

    constructor ()
      ensures statuses == [] && additions == [] && updates == 0
    {
      statuses := [];
      additions := [];
      updates := 0;
    }

    function GetQuestStatus(quest: Quest?): QuestStatus?
      reads this
    {
      FindStatus(statuses, quest)
    }

    /** Whether some status of the log is for the quest. */
    predicate HasQuest(quest: Quest?): (has: bool)
      reads this
      ensures has <==> exists i :: 0 <= i < |statuses| && statuses[i].quest == quest
    {
      GetQuestStatus(quest) != null
    }

    /** No quest has two statuses. */
    predicate OnePerQuest()
      reads this
    {
      forall i, j :: 0 <= i < j < |statuses| ==> statuses[i].quest != statuses[j].quest
    }

    /** Takes a quest on: a new status at the end, unless the quest is already in the list. */
    method AddQuest(quest: Quest)
      modifies this
      ensures old(HasQuest(quest)) ==> statuses == old(statuses) && updates == old(updates)
      ensures !old(HasQuest(quest)) ==>
        |statuses| == old(|statuses|) + 1 && statuses[..old(|statuses|)] == old(statuses) &&
        fresh(statuses[old(|statuses|)]) && statuses[old(|statuses|)].quest == quest &&
        statuses[old(|statuses|)].completedObjectives == [] && updates == old(updates) + 1
      ensures HasQuest(quest) && additions == old(additions)
      ensures old(OnePerQuest()) ==> OnePerQuest()
    {
      if HasQuest(quest) {
        return;
      }
      var newStatus := new QuestStatus(quest);
      statuses := statuses + [newStatus];
      updates := updates + 1;
      assert statuses[|statuses| - 1] == newStatus;
    }

    /**
     * Completes an objective of a quest in the list. A status that is
     * complete afterwards hands out the rewards, also when it was complete
     * already. The quest must be in the list: the source uses its status
     * without a null check.
     */
    method CompleteObjective(quest: Quest, objective: string)
      requires HasQuest(quest)
      modifies this, GetQuestStatus(quest)
      ensures statuses == old(statuses) && GetQuestStatus(quest) == old(GetQuestStatus(quest))
      ensures GetQuestStatus(quest).completedObjectives ==
        AfterCompleting(old(GetQuestStatus(quest).completedObjectives), quest, objective)
      ensures GetQuestStatus(quest).IsComplete() ==> additions == old(additions) + RewardAdditions(quest.rewards)
      ensures !GetQuestStatus(quest).IsComplete() ==> additions == old(additions)
      ensures updates == old(updates) + 1
    {
      var status := GetQuestStatus(quest);
      status.CompleteObjective(objective);
      if status.IsComplete() {
        GiveReward(quest);
      }
      updates := updates + 1;
    }

    /** Hands out the quest's rewards: a non-stackable reward of several copies one copy at a time. */
    method GiveReward(quest: Quest)
      modifies this`additions
      ensures additions == old(additions) + RewardAdditions(quest.rewards)
    {
      var rewards := quest.rewards;
      var r := 0;
      while r < |rewards|
        invariant 0 <= r <= |rewards|
        invariant additions == old(additions) + RewardAdditions(rewards[..r])
      {
        var reward := rewards[r];
        RewardAdditionsStep(rewards, r);
        ghost var before := additions;
        if !reward.item.stackable && reward.quantity > 1 {
          ProcessSingly(reward.item, reward.quantity);
        } else {
          ProcessReward(reward.item, reward.quantity);
        }
        assert additions == before + AdditionsFor(reward);
        assert (old(additions) + RewardAdditions(rewards[..r])) + AdditionsFor(reward)
          == old(additions) + (RewardAdditions(rewards[..r]) + AdditionsFor(reward));
        r := r + 1;
      }
      assert rewards[..r] == rewards;
    }

    /** Asks the inventory for the item `quantity` times, one copy each time. */
    method ProcessSingly(reward: InventoryItem, quantity: nat)
      modifies this`additions
      ensures additions == old(additions) + Repeat(Addition(reward, 1), quantity)
    {
      var i := 0;
      while i < quantity
        invariant 0 <= i <= quantity
        invariant additions == old(additions) + Repeat(Addition(reward, 1), i)
      {
        ProcessReward(reward, 1);
        i := i + 1;
      }
    }

    /** Asks the inventory for the item; whether it had room is not modelled. */
    method ProcessReward(reward: InventoryItem, quantity: int)
      modifies this`additions
      ensures additions == old(additions) + [Addition(reward, quantity)]
    {
      additions := additions + [Addition(reward, quantity)];
    }

    /** One record per status, in order. Every status must have a quest: the source reads its id. */
    method CaptureState() returns (state: State)
      requires forall i :: 0 <= i < |statuses| ==> statuses[i].quest != null
      ensures state == ListState(Captures(statuses))
    {
      var records: seq<State> := [];
      var i := 0;
      while i < |statuses|
        invariant 0 <= i <= |statuses|
        invariant records == Captures(statuses[..i])
      {
        assert statuses[..i + 1][..i] == statuses[..i];
        records := records + [statuses[i].CaptureState()];
        i := i + 1;
      }
      assert statuses[..i] == statuses;
      state := ListState(records);
    }

    /**
     * Ignores a state that is not a list. Otherwise rebuilds the statuses, one
     * per record in order; every item must be a status record (the record
     * constructor casts it).
     */
    method RestoreState(state: State, allQuests: seq<Quest>)
      requires state.ListState? ==> forall k :: 0 <= k < |state.items| ==> state.items[k].QuestRecord?
      modifies this`statuses
      ensures !state.ListState? ==> statuses == old(statuses)
      ensures state.ListState? ==>
        |statuses| == |state.items| &&
        forall k :: 0 <= k < |statuses| ==>
          fresh(statuses[k]) &&
          statuses[k].quest == old(RecordQuests(allQuests, state.items))[k] &&
          statuses[k].completedObjectives == state.items[k].completeObjectives
    {
      if !state.ListState? {
        return;
      }
      ghost var quests := RecordQuests(allQuests, state.items);
      var built: seq<QuestStatus> := [];
      var k := 0;
      while k < |state.items|
        invariant 0 <= k <= |state.items| && |built| == k
        invariant forall j :: 0 <= j < k ==>
          fresh(built[j]) && built[j].quest == quests[j] &&
          built[j].completedObjectives == state.items[j].completeObjectives
      {
        var status := new QuestStatus.FromRecord(state.items[k], allQuests);
        assert status.quest == quests[k] by {
          assert GetByID(allQuests, state.items[k].questID) == old(GetByID(allQuests, state.items[k].questID));
        }
        built := built + [status];
        k := k + 1;
      }
      statuses := built;
    }
  }

  /**
   * Restoring a quest log's capture into another log rebuilds the same
   * quests with the same completed objectives, in the same order, provided
   * every quest is among the loaded quests and no two of them share an id.
   */
  method CaptureRestoreRoundTrip(source: QuestList, target: QuestList, allQuests: seq<Quest>)
    requires forall i :: 0 <= i < |source.statuses| ==>
      source.statuses[i].quest != null && source.statuses[i].quest in allQuests
    requires UniqueIDs(allQuests) && source != target
    modifies target`statuses
    ensures |target.statuses| == |source.statuses|
    ensures forall i :: 0 <= i < |source.statuses| ==>
      target.statuses[i].quest == source.statuses[i].quest &&
      target.statuses[i].completedObjectives == source.statuses[i].completedObjectives
  {
    var saved := source.CaptureState();
    RecordsFindTheirQuests(source.statuses, allQuests);
    ghost var records := saved.items;
    ghost var quests := RecordQuests(allQuests, records);
    target.RestoreState(saved, allQuests);
    assert source.statuses == old(source.statuses);
    forall i | 0 <= i < |source.statuses|
      ensures target.statuses[i].quest == source.statuses[i].quest
      ensures target.statuses[i].completedObjectives == source.statuses[i].completedObjectives
    {
      assert target.statuses[i].quest == quests[i];
      assert source.statuses[i].completedObjectives == old(source.statuses[i].completedObjectives);
    }
  }

  /**
   * The captured records are status records holding each status's completed
   * objectives, and each one's id finds its own status's quest again when ids are unique.
   */
  lemma RecordsFindTheirQuests(statuses: seq<QuestStatus>, allQuests: seq<Quest>)
    requires forall i :: 0 <= i < |statuses| ==> statuses[i].quest != null && statuses[i].quest in allQuests
    requires UniqueIDs(allQuests)
    ensures var records := Captures(statuses);
      forall i :: 0 <= i < |statuses| ==>
        records[i].QuestRecord? && records[i].completeObjectives == statuses[i].completedObjectives &&
        RecordQuests(allQuests, records)[i] == statuses[i].quest
  {
    var records := Captures(statuses);
    forall i | 0 <= i < |statuses|
      ensures RecordQuests(allQuests, records)[i] == statuses[i].quest
    {
      GetByIDFindsOwnQuest(allQuests, statuses[i].quest);
    }
  }
}
