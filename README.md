# RPG core: a Dafny model

This project models the game logic of a Unity action RPG written in C#:

- how enemies choose between attacking, staying suspicious and patrolling a closed waypoint loop;
- how a fighter pursues a target and gates its attacks on a cooldown;
- health, damage and death; experience, levels and stat modifiers; potions;
- branching dialogues, and the player's side of a conversation with its enter and exit actions;
- the quest log with objectives and rewards;
- weighted random drop tables;
- the saving system, which merges per-entity, per-component states into save files.

Each C# file of that core has one Dafny module. Classes whose fields the game updates in place are Dafny classes. Their methods state the new state, usually through a specification function on values, and the lemmas beside those functions prove what the game relies on.

Engine services become inputs:

- frame times, distances, pathing answers and raycast hits;
- every `UnityEngine.Random` draw, constrained to the range `Random.Range` can return;
- the condition check of dialogue nodes;
- the file system, as a map from path to saved dictionary.

Calls into the animator, mover, action scheduler, inventory and events are kept as logs or counters on the object that makes them.

Floats are modelled as `real`. A timer that starts at `Mathf.Infinity` is a `Timer` value that is either infinite or a finite elapsed time.

## Model

| member | source | states |
|---|---|---|
| Basics.Timer.Advance | Assets/Scripts/Control/AIController.cs:100-105 | a timer still at infinity stays there; any other timer grows by exactly the frame time |
| Basics.RemoveFirstMultiset | Assets/Scripts/Dialogue/Dialogue.cs:65 | removing from a list takes away one occurrence of the element, if there is one, and nothing else |
| Basics.RemoveFirstSubset | Assets/Scripts/Dialogue/Dialogue.cs:88-94 | removing from a list never adds an element |
| Basics.RemoveFirstClears | Assets/Scripts/Dialogue/Dialogue.cs:88-94 | after removing an element that occurred at most once, it no longer occurs |
| AIPath.GetNextIndex | Assets/Scripts/Control/AIPath.cs:30-40 | the index after the last child is 0; otherwise the next index is one more |
| AIPath.NextIndexInRange | Assets/Scripts/Control/AIPath.cs:30-40 | from a valid waypoint index, the next index is again a valid index |
| AIPath.AdvanceAdd | Assets/Scripts/Control/AIPath.cs:30-40 | cycling a + b times equals cycling a times and then b times |
| AIPath.AdvanceBeforeEnd | Assets/Scripts/Control/AIPath.cs:30-40 | before the end of the path, k cycles move the index forward by exactly k |
| AIPath.AdvanceWrapsToStart | Assets/Scripts/Control/AIPath.cs:30-40 | from index i, after childCount - i cycles the patrol is back at waypoint 0 |
| AIPath.PathIsClosedLoop | Assets/Scripts/Control/AIPath.cs:11-21 | after childCount cycles every index is back where it started, so the path is a closed loop |
| AIPath.NoEarlyReturn | Assets/Scripts/Control/AIPath.cs:30-40 | fewer than childCount cycles (but at least one) never return to the starting waypoint |
| AIPath.SingleWaypointStays | Assets/Scripts/Control/AIPath.cs:33-36 | a path with a single waypoint always stays on it |
| AIControl.GetNextIndexInRange | Assets/Scripts/Control/AIController.cs:113-127 | the behaviour step keeps the waypoint index on the path |
| AIControl.StepKeepsIndexValid | Assets/Scripts/Control/AIController.cs:69-91 | a whole tick keeps the waypoint index on the path |
| AIControl.OneBehaviourPerTick | Assets/Scripts/Control/AIController.cs:74-88 | the tick attacks iff the agent is aggravated (player within chase distance or cooldown not over) and can attack; otherwise it is suspicious iff the player was seen under suspicionTime ago; at most one command is issued |
| AIControl.TimersAdvanceTogether | Assets/Scripts/Control/AIController.cs:100-105 | every live tick advances all three timers by the frame time; a suspicion tick changes nothing else |
| AIControl.FreshAgentPatrolsWithoutDwelling | Assets/Scripts/Control/AIController.cs:36-46 | with all timers at infinity the agent is neither aggravated nor suspicious, and out of chase range it moves to its destination at once |
| AIControl.AggravationLastsForCooldown | Assets/Scripts/Control/AIController.cs:93-98 | after `Aggrevate`, the agent is aggravated at any distance until the cooldown time has elapsed |
| AIControl.SuspicionFollowsAttack | Assets/Scripts/Control/AIController.cs:74-83 | after an attack tick shorter than suspicionTime, a tick that does not attack is a suspicion tick |
| AIControl.PatrolArrival | Assets/Scripts/Control/AIController.cs:108-136 | the dwell time is redrawn on every patrol tick; on arrival the arrival timer resets and the index advances by `GetNextIndex`, otherwise both stay; with a non-negative dwell there is no move on the arrival tick; without a path the only possible move is to the default position |
| AIControl.AIController.constructor | Assets/Scripts/Control/AIController.cs:36-47 | the three timers start at infinity and the waypoint index at 0 |
| AIControl.AIController.Aggrevate | Assets/Scripts/Control/AIController.cs:93-98 | resets only the aggravation timer |
| AIControl.AIController.UpdateTimers | Assets/Scripts/Control/AIController.cs:100-105 | the new state is `AdvanceTimers` of the old state |
| AIControl.AIController.AggrevateNearbyUnits | Assets/Scripts/Control/AIController.cs:177-190 | every AIController among the hits has its aggravation timer reset and nothing else changed; hits without one are skipped |
| AIControl.AIController.DefaultBehaviour | Assets/Scripts/Control/AIController.cs:108-162 | the patrol step: advance on arrival, draw the dwell time, move to the current waypoint only once the dwell time is exceeded |
| AIControl.AIController.Update | Assets/Scripts/Control/AIController.cs:69-91 | a dead agent changes nothing; a live one follows `Step` and `Commands`, and on an attack tick every other agent in the hits is aggravated |
| Combat.CanAttackCases | Assets/Scripts/Combat/Fighter.cs:165-189 | can attack iff the target exists, is reachable or in range, and has live health; an unreachable target in range of a ranged weapon can still be attacked |
| Combat.TickBranches | Assets/Scripts/Combat/Fighter.cs:57-126 | out of range the fighter moves at full speed and never attacks; in range it cancels movement, resets the out-of-combat timer, and attacks iff the cooldown has passed, which then restarts at 0; the not-in-combat notice fires iff the out-of-combat timer exceeds its limit |
| Combat.FirstInRangeTickAttacks | Assets/Scripts/Combat/Fighter.cs:21 | because the cooldown timer starts at infinity, the first in-range frame attacks |
| Combat.NoAttackDuringCooldown | Assets/Scripts/Combat/Fighter.cs:120-125 | no attack triggers while the time since the last attack stays at or below timeBetweenAttacks, over any run of frames |
| Combat.TotalTimeNonNegative | Assets/Scripts/Combat/Fighter.cs:59-60 | non-negative frame times add up to a non-negative total |
| Combat.Fighter.constructor | Assets/Scripts/Combat/Fighter.cs:21-23 | both timers start at infinity; there is no target |
| Combat.Fighter.Update | Assets/Scripts/Combat/Fighter.cs:57-82 | the timers always advance; with a null or dead target nothing else happens; otherwise the frame follows `Tick` |
| Combat.Fighter.AttackBehaviour | Assets/Scripts/Combat/Fighter.cs:113-126 | resets the out-of-combat timer; triggers an attack and restarts the cooldown exactly when the cooldown has passed |
| Combat.Fighter.Attack | Assets/Scripts/Combat/Fighter.cs:198-205 | starts the action and targets the given health |
| Combat.Fighter.Cancel | Assets/Scripts/Combat/Fighter.cs:207-226 | stops the attack, cancels movement and clears the target |
| Combat.Fighter.Hit | Assets/Scripts/Combat/Fighter.cs:138-158 | without a target nothing happens; otherwise the weapon's hit effect, then either a projectile launch with the damage or the target's `TakeDamage` |
| Attributes.DamageClampsAtZero | Assets/Scripts/Attributes/Health.cs:67-69 | damage never leaves health negative; health reaches exactly zero iff the damage is at least the health left; non-negative damage never raises health |
| Attributes.DamageKillsAtZero | Assets/Scripts/Attributes/Health.cs:67-77 | after damage the entity is dead iff it was dead already or the damage was at least its health |
| Attributes.HealClampsAtMax | Assets/Scripts/Attributes/Health.cs:137-141 | healing never exceeds the maximum, never lowers health that was at or below the maximum, and never changes the death flag |
| Attributes.RegenerationNeverLowers | Assets/Scripts/Attributes/Health.cs:130-135 | level-up regeneration never lowers health and tops it up to at least the regeneration share of the maximum |
| Attributes.DeathIsPermanent | Assets/Scripts/Attributes/Health.cs:108-113 | once dead, no sequence of damage, healing, regeneration or restores brings the entity back |
| Attributes.AliveAtEndMeansAliveThroughout | Assets/Scripts/Attributes/Health.cs:108-113 | an entity alive after a sequence of operations was alive after every prefix of it |
| Attributes.Health.constructor | Assets/Scripts/Attributes/Health.cs:34-42 | starts alive with the initial health |
| Attributes.Health.TakeDamage | Assets/Scripts/Attributes/Health.cs:67-86 | health and death follow the damage rule; at zero health the no-health and died events fire, `Die` runs and the attacker's Experience (if any) gains the reward, on every such hit; otherwise only the updated and take-damage events fire |
| Attributes.Health.Die | Assets/Scripts/Attributes/Health.cs:108-120 | sets the death flag; the animation and cancel calls happen only the first time |
| Attributes.Health.RewardExperience | Assets/Scripts/Attributes/Health.cs:122-128 | an attacker with an Experience component gains exactly the reward |
| Attributes.Health.RegenerateHealth | Assets/Scripts/Attributes/Health.cs:130-135 | health becomes the larger of itself and the regeneration share of the maximum |
| Attributes.Health.Heal | Assets/Scripts/Attributes/Health.cs:137-141 | health becomes the smaller of health plus the amount and the maximum |
| Attributes.Health.CaptureState | Assets/Scripts/Attributes/Health.cs:143-146 | the saved value is the current health as a float |
| Attributes.Health.RestoreState | Assets/Scripts/Attributes/Health.cs:148-156 | health becomes the saved float; a saved 0 runs the death path |
| Attributes.CaptureRestoreRoundTrip | Assets/Scripts/Attributes/Health.cs:143-156 | restoring a capture reproduces the health, and a captured 0 comes back dead |
| CoreHealth.LegacyHealth.constructor | Assets/Scripts/Core/Health.cs:9-10 | starts alive with 100 health |
| CoreHealth.LegacyHealth.TakeDamage | Assets/Scripts/Core/Health.cs:17-25 | the same damage rule as the other health component; the death calls happen only on the first death |
| CoreHealth.LegacyHealth.Die | Assets/Scripts/Core/Health.cs:27-34 | sets the death flag; the engine calls happen only the first time |
| CoreHealth.FreshComponentDiesAtHundred | Assets/Scripts/Core/Health.cs:9-25 | a fresh component hit by non-negative damages is dead iff the damages add up to at least 100 |
| CoreHealth.DamagesFromLive | Assets/Scripts/Core/Health.cs:17-25 | from health hp > 0, non-negative hits kill iff they total at least hp; otherwise exactly their total is lost |
| Experience.Experience.constructor | Assets/Scripts/Stats/Experience.cs:9 | starts with 0 points |
| Experience.Experience.GainExperience | Assets/Scripts/Stats/Experience.cs:17-21 | adds exactly the amount and fires the gained event once |
| Experience.Experience.CaptureState | Assets/Scripts/Stats/Experience.cs:23-26 | the saved value is the points as a float |
| Experience.Experience.RestoreState | Assets/Scripts/Stats/Experience.cs:28-31 | the points become the saved float |
| Experience.CaptureRestoreRoundTrip | Assets/Scripts/Stats/Experience.cs:23-31 | restoring a capture into any component gives back the captured points |
| Progression.StatTableLastWins | Assets/Scripts/Stats/Progression.cs:49-54 | a stat is in a class's dictionary with the values of its last entry |
| Progression.StatTableKeys | Assets/Scripts/Stats/Progression.cs:49-54 | a stat is in a class's dictionary iff some entry of that class names it |
| Progression.BuildTableLastWins | Assets/Scripts/Stats/Progression.cs:43-57 | a class is in the search table with the dictionary built from its last entry |
| Progression.BuildTableKeys | Assets/Scripts/Stats/Progression.cs:43-57 | a class is in the search table iff some entry names it |
| Progression.StatAt | Assets/Scripts/Stats/Progression.cs:21-26 | 0 when the array is shorter than the level, otherwise the value at index level - 1 |
| Progression.Progression.constructor | Assets/Scripts/Stats/Progression.cs:9-13 | the search table starts unbuilt |
| Progression.Progression.GenerateSearchTable | Assets/Scripts/Stats/Progression.cs:39-58 | builds the table from the serialized classes on the first call; a built table is kept |
| Progression.Progression.GetStat | Assets/Scripts/Stats/Progression.cs:15-27 | the result is `StatAt` of the class's values for the stat, from the built table |
| Progression.Progression.GetLevels | Assets/Scripts/Stats/Progression.cs:29-37 | the result is the length of the class's value array for the stat |
| BaseStats.ModifierTotalSplits | Assets/Scripts/Stats/BaseStats.cs:85-101 | the modifier total over two groups of providers is the sum of their totals |
| BaseStats.SumSplits | Assets/Scripts/Stats/BaseStats.cs:95-98 | the sum over one provider's values splits over concatenation |
| BaseStats.SilentProvidersAddNothing | Assets/Scripts/Stats/BaseStats.cs:85-101 | providers that yield nothing for a stat give a total of 0 |
| BaseStats.StatFormulaNeutral | Assets/Scripts/Stats/BaseStats.cs:57-63 | without percentage modifiers the stat is the base plus the additive bonus, and with neither it is the base |
| BaseStats.PercentageScalesAdditive | Assets/Scripts/Stats/BaseStats.cs:57-63 | additive modifiers are added before the percentage applies, so each additive point is scaled too |
| BaseStats.LevelForCharacterized | Assets/Scripts/Stats/BaseStats.cs:108-133 | the computed level is in 1..n+1, every lower level's threshold has been reached, and below n+1 its own threshold is above the experience |
| BaseStats.LevelFromCharacterized | Assets/Scripts/Stats/BaseStats.cs:121-129 | the same facts for the search started at any level whose predecessors are all reached |
| BaseStats.LevelMonotone | Assets/Scripts/Stats/BaseStats.cs:108-133 | more experience never gives a lower level |
| BaseStats.LevelFirstAbove | Assets/Scripts/Stats/BaseStats.cs:121-132 | the first level whose threshold is above the experience is the computed level |
| BaseStats.GainNeverLowersEarnedLevel | Assets/Scripts/Stats/BaseStats.cs:46-55 | gaining non-negative experience never lowers the earned level |
| BaseStats.SumModifiers | Assets/Scripts/Stats/BaseStats.cs:70-101 | the sum of every value of every provider, or 0 when modifiers are off |
| BaseStats.BaseStats.constructor | Assets/Scripts/Stats/BaseStats.cs:10-23 | the level starts uncomputed |
| BaseStats.BaseStats.CalculateLevel | Assets/Scripts/Stats/BaseStats.cs:108-133 | the starting level without Experience; otherwise `LevelFor` of the class's thresholds and the current experience |
| BaseStats.BaseStats.GetLevel | Assets/Scripts/Stats/BaseStats.cs:103-106 | the stored level, or the calculated level on first use, which is then stored |
| BaseStats.BaseStats.UpdateLevel | Assets/Scripts/Stats/BaseStats.cs:46-55 | the level becomes the earned level only when that is strictly higher, and exactly then one level-up fires |
| BaseStats.BaseStats.GetStat | Assets/Scripts/Stats/BaseStats.cs:57-68 | (base value at the current level + additive total) * (1 + percentage total / 100), the totals 0 when modifiers are off; a stored level is kept, and without one the earned level is stored and used |
| Consumables.GetAdditiveModifiers | Assets/Scripts/Consumables/PotionConfig.cs:25-31 | yields the additive buff for the modified stat and nothing for any other |
| Consumables.GetPercentageModifiers | Assets/Scripts/Consumables/PotionConfig.cs:33-39 | yields the percentage buff for the modified stat and nothing for any other |
| Consumables.PotionContribution | Assets/Scripts/Consumables/PotionConfig.cs:25-39 | among any other providers, a potion changes the modifier totals by exactly its buff for its stat and by nothing for other stats |
| Consumables.Use | Assets/Scripts/Consumables/PotionConfig.cs:17-23 | heals the user by the amount, capped at the maximum, when the amount is positive; otherwise nothing changes |
| Dialogues.DialogueNode.constructor | Assets/Scripts/Dialogue/Dialogue.cs:78-79 | a node starts with the given name and contents and no children |
| Dialogues.DialogueNode.AddChild | Assets/Scripts/Dialogue/Dialogue.cs:80-84 | appends the child id |
| Dialogues.DialogueNode.RemoveChild | Assets/Scripts/Dialogue/Dialogue.cs:88-94 | removes the first occurrence of the child id and nothing else |
| Dialogues.BuildLookupSound | Assets/Scripts/Dialogue/Dialogue.cs:19-29 | a name is in the lookup iff some non-null node has it, and then it maps to a node of the list with that name |
| Dialogues.LastNodeIsFound | Assets/Scripts/Dialogue/Dialogue.cs:70-74 | the node added last is the one found under its name |
| Dialogues.ChildrenAppend | Assets/Scripts/Dialogue/Dialogue.cs:42-51 | the children of concatenated id lists are the children of each part, in order |
| Dialogues.ChildrenMembership | Assets/Scripts/Dialogue/Dialogue.cs:42-51 | a node is yielded iff some child id is in the lookup and maps to it; there are never more children than ids |
| Dialogues.UnknownChildrenSkipped | Assets/Scripts/Dialogue/Dialogue.cs:46-49 | ids that name no node yield no children |
| Dialogues.Dialogue.constructor | Assets/Scripts/Dialogue/Dialogue.cs:12-16 | an empty node list and an empty lookup |
| Dialogues.Dialogue.OnValidate | Assets/Scripts/Dialogue/Dialogue.cs:19-29 | the lookup is rebuilt from the node list, skipping null nodes |
| Dialogues.Dialogue.GetRootNode | Assets/Scripts/Dialogue/Dialogue.cs:37-40 | the root is the first node of the list |
| Dialogues.Dialogue.AddNode | Assets/Scripts/Dialogue/Dialogue.cs:70-74 | the node is appended and then found under its name |
| Dialogues.Dialogue.MakeNode | Assets/Scripts/Dialogue/Dialogue.cs:76-87 | a new empty node with the fresh name; a parent gets the name appended to its children |
| Dialogues.Dialogue.CreateNode | Assets/Scripts/Dialogue/Dialogue.cs:54-60 | one new, empty node (no children, no text, no actions, spoken by the NPC) at the end of the list, found under its fresh name, and added as a child of the parent if there is one |
| Dialogues.Dialogue.CleanOrphanNodes | Assets/Scripts/Dialogue/Dialogue.cs:88-94 | every node in the list has the deleted node's id removed once from its children |
| Dialogues.Dialogue.DeleteNode | Assets/Scripts/Dialogue/Dialogue.cs:62-69 | the node leaves the list, which keeps every other node; each remaining node has one occurrence of its id removed, so no node that listed it once still lists it |
| Dialogues.Dialogue.OnBeforeSerialize | Assets/Scripts/Dialogue/Dialogue.cs:97-106 | afterwards the list is never empty; a non-empty list is left untouched and an empty one gets exactly one fresh, empty root node (no children, no text, no actions, spoken by the NPC), found under its name |
| Dialogues.RemovePreservesNodes | Assets/Scripts/Dialogue/Dialogue.cs:65 | removing a node from a list without repeats removes it entirely and keeps the list without repeats or nulls |
| DialogueTriggers.TriggerMatches | Assets/Scripts/Dialogue/DialogueTrigger.cs:9-15 | the event fires once iff the action matches and not at all otherwise |
| DialogueTriggers.DispatchExact | Assets/Scripts/Dialogue/DialogueTrigger.cs:9-15 | across a conversant's triggers, exactly those whose action matches fire, each once, in list order |
| Conversation.Invocations | Assets/Scripts/Dialogue/PlayerConversant.cs:135-138 | one trigger invocation per dispatched index, in order, each with the action |
| Conversation.ActionEventsExact | Assets/Scripts/Dialogue/PlayerConversant.cs:131-139 | the empty action invokes nothing; any other action invokes exactly the conversant's triggers with that action, and every event names such a trigger |
| Conversation.FilterExact | Assets/Scripts/Dialogue/PlayerConversant.cs:97-106 | the filter keeps exactly the input nodes whose condition holds, never adds any, and keeps all when all pass |
| Conversation.FilterAppend | Assets/Scripts/Dialogue/PlayerConversant.cs:97-106 | the filter keeps input order: filtering a concatenation concatenates the filtered parts |
| Conversation.FilterNonEmpty | Assets/Scripts/Dialogue/PlayerConversant.cs:91-106 | the filter is non-empty iff some input node's condition holds |
| Conversation.BySpeakerSubset | Assets/Scripts/Dialogue/PlayerConversant.cs:60 | the player (or NPC) children are exactly the children spoken by that side |
| Conversation.SpeakerResponsesBounded | Assets/Scripts/Dialogue/PlayerConversant.cs:91-95 | one side's passing responses are never more than all passing children, so when `HasNext` is false neither side has a response |
| Conversation.PlayerConversant.constructor | Assets/Scripts/Dialogue/PlayerConversant.cs:12-16 | no conversant, dialogue or node, and not selecting |
| Conversation.PlayerConversant.GetText | Assets/Scripts/Dialogue/PlayerConversant.cs:48-56 | "" with no current node, otherwise that node's text |
| Conversation.PlayerConversant.HasNext | Assets/Scripts/Dialogue/PlayerConversant.cs:91-95 | true iff some child of the current node has a condition that holds |
| Conversation.PlayerConversant.GetCurrentConversantName | Assets/Scripts/Dialogue/PlayerConversant.cs:141-151 | the player's name while selecting, otherwise the conversant's name |
| Conversation.PlayerConversant.StartDialogue | Assets/Scripts/Dialogue/PlayerConversant.cs:19-26 | the conversation is active at the dialogue's root; the root's enter action fires, then one update |
| Conversation.PlayerConversant.QuitDialogue | Assets/Scripts/Dialogue/PlayerConversant.cs:28-36 | the current node's exit action fires, then the whole state is cleared and one update fires |
| Conversation.PlayerConversant.TriggerEnterAction | Assets/Scripts/Dialogue/PlayerConversant.cs:115-121 | the current node's enter action goes to the conversant's triggers; nothing without a node |
| Conversation.PlayerConversant.TriggerExitAction | Assets/Scripts/Dialogue/PlayerConversant.cs:123-129 | the current node's exit action goes to the conversant's triggers; nothing without a node |
| Conversation.PlayerConversant.TriggerAction | Assets/Scripts/Dialogue/PlayerConversant.cs:131-139 | nothing for the empty action; otherwise every trigger is asked, in component order, and the log grows by the invocations of the matching ones |
| Conversation.PlayerConversant.NextDialogue | Assets/Scripts/Dialogue/PlayerConversant.cs:71-89 | with a player option: selection mode, the exit action, and the node stays; otherwise the enter action of the old node, the move to the drawn NPC response and that node's exit action, then one update |
| Conversation.PlayerConversant.SelectOption | Assets/Scripts/Dialogue/PlayerConversant.cs:63-69 | the chosen node becomes current, its enter action fires, selection mode ends, and the conversation moves on as `NextDialogue` says |
| Conversation.InvocationsAppend | Assets/Scripts/Dialogue/PlayerConversant.cs:135-138 | the invocations of concatenated index lists concatenate |
| Quests.AssignIDSettles | Assets/Scripts/Quests/Quest.cs:79-86 | with a non-blank fresh id the id is never blank afterwards, a usable id is kept, and a second serialisation keeps the first one's id |
| Quests.ObjectiveIn | Assets/Scripts/Quests/Quest.cs:55-65 | true iff some objective has the reference |
| Quests.Quest.constructor | Assets/Scripts/Quests/Quest.cs:12-14 | the quest holds the given title, id, objectives and rewards |
| Quests.Quest.OnBeforeSerialize | Assets/Scripts/Quests/Quest.cs:79-86 | a null or blank id is replaced by the fresh id; any other id is kept |
| Quests.Quest.HasObjective | Assets/Scripts/Quests/Quest.cs:55-65 | true iff some objective of the quest has the reference |
| Quests.GetByID | Assets/Scripts/Quests/Quest.cs:67-77 | null iff no loaded quest has the id; otherwise the first quest, in load order, that has it |
| Quests.GetByIDFindsOwnQuest | Assets/Scripts/Quests/Quest.cs:67-77 | when ids are unique, a loaded quest is found again by its own id |
| QuestStatuses.CompletingKeepsTracking | Assets/Scripts/Quests/QuestStatus.cs:46-52 | completing keeps the list free of repeats and of foreign objectives; afterwards the objective is complete iff the quest has it; a second completion changes nothing; nothing is lost and at most one entry is added |
| QuestStatuses.AllCompleted | Assets/Scripts/Quests/QuestStatus.cs:62-72 | true iff every objective's reference is in the completed list |
| QuestStatuses.ReferencesBounded | Assets/Scripts/Quests/QuestStatus.cs:62-72 | a quest has no more distinct objective references than objectives |
| QuestStatuses.DistinctElementsCount | Assets/Scripts/Quests/QuestStatus.cs:46-52 | a completed list without repeats has as many distinct entries as entries |
| QuestStatuses.CompletedCountBounded | Assets/Scripts/Quests/QuestStatus.cs:36-39 | a status built from a quest never reports more completed objectives than the quest has |
| QuestStatuses.CompleteWhenAllTracked | Assets/Scripts/Quests/QuestStatus.cs:62-72 | a status is complete iff every objective reference of its quest is in the completed list |
| QuestStatuses.QuestStatus.constructor | Assets/Scripts/Quests/QuestStatus.cs:19-22 | a status for the quest with nothing completed, which tracks its quest |
| QuestStatuses.QuestStatus.FromRecord | Assets/Scripts/Quests/QuestStatus.cs:24-29 | the quest is `GetByID` of the saved id (null if none) and the completed list is the saved one |
| QuestStatuses.QuestStatus.CompleteObjective | Assets/Scripts/Quests/QuestStatus.cs:46-52 | adds an objective of the quest that is not yet completed; otherwise nothing changes |
| QuestStatuses.QuestStatus.IsComplete | Assets/Scripts/Quests/QuestStatus.cs:62-72 | true iff every objective reference of the quest is in the completed list; a quest without objectives is complete |
| QuestStatuses.QuestStatus.CaptureState | Assets/Scripts/Quests/QuestStatus.cs:54-60 | a quest record holding the quest's id and the completed list |
| QuestStatuses.CaptureRestoreRoundTrip | Assets/Scripts/Quests/QuestStatus.cs:24-29 | a status rebuilt from another's record has the same quest and the same completed objectives, when the quest is loaded and ids are unique |
| QuestLists.Repeat | Assets/Scripts/Quests/QuestList.cs:61-64 | exactly `n` copies of the addition |
| QuestLists.RepeatTotal | Assets/Scripts/Quests/QuestList.cs:61-64 | `n` single-copy requests ask for `n` times the number in total |
| QuestLists.RewardsGiveTheirQuantity | Assets/Scripts/Quests/QuestList.cs:53-72 | whether given singly or at once, the inventory is asked for exactly the sum of the rewarded quantities |
| QuestLists.NonStackablesGivenSingly | Assets/Scripts/Quests/QuestList.cs:59-70 | every request names an item some reward names, and a non-stackable item rewarded in several copies is asked for one copy at a time |
| QuestLists.FindStatus | Assets/Scripts/Quests/QuestList.cs:84-94 | null iff no status is for the quest; otherwise a status of the list for that quest |
| QuestLists.Captures | Assets/Scripts/Quests/QuestList.cs:97-106 | one record per status, in order, each that status's own record |
| QuestLists.RecordQuests | Assets/Scripts/Quests/QuestList.cs:113-117 | for each saved status record, the quest its id finds among the loaded quests |
| QuestLists.QuestList.constructor | Assets/Scripts/Quests/QuestList.cs:11 | an empty quest log with no rewards requested and no notifications |
| QuestLists.QuestList.HasQuest | Assets/Scripts/Quests/QuestList.cs:27-30 | true iff some status of the log is for the quest |
| QuestLists.QuestList.AddQuest | Assets/Scripts/Quests/QuestList.cs:15-25 | a quest already in the log changes nothing and notifies no one; otherwise a fresh status with nothing completed is appended and one notification fires; afterwards the log has the quest and still holds at most one status per quest |
| QuestLists.QuestList.CompleteObjective | Assets/Scripts/Quests/QuestList.cs:37-49 | the quest's status gains the objective as `CompleteObjective` of the status says; if the status is then complete, all rewards are requested, else none; exactly one notification fires |
| QuestLists.QuestList.GiveReward | Assets/Scripts/Quests/QuestList.cs:53-72 | appends the inventory requests of every reward, in reward order, a non-stackable reward of several copies as that many single requests |
| QuestLists.QuestList.ProcessSingly | Assets/Scripts/Quests/QuestList.cs:61-64 | appends `quantity` single-copy requests for the item |
| QuestLists.QuestList.ProcessReward | Assets/Scripts/Quests/QuestList.cs:74-82 | appends one request for the item and quantity |
| QuestLists.QuestList.CaptureState | Assets/Scripts/Quests/QuestList.cs:97-106 | a list of the statuses' records, in order |
| QuestLists.QuestList.RestoreState | Assets/Scripts/Quests/QuestList.cs:108-118 | a state that is not a list leaves the log alone; otherwise the log becomes fresh statuses, one per record in order, each with the quest its id finds and the saved completed list |
| QuestLists.CaptureRestoreRoundTrip | Assets/Scripts/Quests/QuestList.cs:97-118 | restoring one log's capture into another gives the same quests with the same completed objectives in the same order, when every quest is loaded and ids are unique |
| QuestLists.RecordsFindTheirQuests | Assets/Scripts/Quests/QuestList.cs:97-118 | every captured record is a status record with its status's completed list, and its id finds that status's quest again when ids are unique |
| Drops.GetByLevelClamps | Assets/Scripts/Inventory/DropLibrary.cs:109-120 | an empty array or a level below 1 gives the default; any other level gives the entry at the smaller of the level and the length, which is one of the array's entries; every level past the end gives the last entry |
| Drops.GetMaxChance | Assets/Scripts/Inventory/DropLibrary.cs:99-107 | the sum of every drop's relative chance at the level |
| Drops.ChanceTotalGrows | Assets/Scripts/Inventory/DropLibrary.cs:87-95 | with no negative chance the running total of the selection loop never falls |
| Drops.SelectionIndex | Assets/Scripts/Inventory/DropLibrary.cs:87-96 | a position from the start of the search up to the number of drops |
| Drops.SelectionIsFirstAbove | Assets/Scripts/Inventory/DropLibrary.cs:87-96 | the selection is the first drop whose running total exceeds the draw: every earlier one does not, and no drop is selected only when none does |
| Drops.SelectionSucceedsBelowTotal | Assets/Scripts/Inventory/DropLibrary.cs:83-97 | with no negative chance, a draw below the total always selects a drop |
| Drops.SelectRandomItem | Assets/Scripts/Inventory/DropLibrary.cs:83-97 | the first drop whose running total exceeds the draw, or none when no drop's does |
| Drops.ConfiguredMaximumNeverDrawn | Assets/Scripts/Inventory/DropLibrary.cs:26-34 | because the exclusive upper bound is lowered by 1 again, the configured maximum, and also the maximum minus 1 when the range has more than one value, is never drawn |
| Drops.GetRandomDrop | Assets/Scripts/Inventory/DropLibrary.cs:62-69 | the selected drop's item with quantity 1 for an item that does not stack and the drawn number otherwise |
| Drops.GetRandomDrops | Assets/Scripts/Inventory/DropLibrary.cs:48-60 | nothing when the roll is not below the level's drop chance; otherwise as many drops as were drawn (none for fewer than 1), the i-th made with the i-th pick |
| Drops.NonStackableDropsSingly | Assets/Scripts/Inventory/DropLibrary.cs:26-34 | a drop of an item that does not stack is always a single copy |
| Saving.SaveableComponent.constructor | Assets/Scripts/Saving/SaveableEntity.cs:21 | a component with the given runtime type name and state |
| Saving.SaveableComponent.RestoreState | Assets/Scripts/Saving/SaveableEntity.cs:37 | the component's state becomes the saved one |
| Saving.NamesMembers | Assets/Scripts/Saving/SaveableEntity.cs:21-25 | the key set of the entries holds exactly the entries' keys |
| Saving.OverwriteKeeps | Assets/Scripts/Saving/SaveableEntity.cs:24 | setting the entries in turn keeps every key of the base, adds exactly the entries' keys, and leaves untouched the value of a key no entry names |
| Saving.OverwriteLastWins | Assets/Scripts/Saving/SaveableEntity.cs:24 | the value under a key is the one of the last entry with that key |
| Saving.CaptureMapEntries | Assets/Scripts/Saving/SaveableEntity.cs:18-27 | a capture has one key per component type name, and with distinct type names each key holds its component's state |
| Saving.Restored | Assets/Scripts/Saving/SaveableEntity.cs:29-40 | each component gets the entry under its type name if the dictionary has one, and keeps its current state otherwise |
| Saving.RestoreCaptureRoundTrip | Assets/Scripts/Saving/SaveableEntity.cs:18-40 | restoring an entity's own capture gives every component its captured state back, when no two components share a type name |
| Saving.SaveableEntity.constructor | Assets/Scripts/Saving/SaveableEntity.cs:10 | an entity with the given identifier and its distinct components |
| Saving.SaveableEntity.Entries | Assets/Scripts/Saving/SaveableEntity.cs:21-25 | one pair per component, in order, of its type name and current state |
| Saving.SaveableEntity.CaptureState | Assets/Scripts/Saving/SaveableEntity.cs:18-27 | a dictionary with the components' states set under their type names in turn |
| Saving.SaveableEntity.RestoreState | Assets/Scripts/Saving/SaveableEntity.cs:29-40 | each component whose type name the dictionary holds gets that entry; every other component keeps its state |
| Saving.Registry.constructor | Assets/Scripts/Saving/SaveableEntity.cs:11 | the global lookup starts empty |
| Saving.Registry.UniqueCheckSound | Assets/Scripts/Saving/SaveableEntity.cs:62-81 | after the check the key is free or held by the entity exactly when the answer is yes; a no leaves the lookup unchanged with the key held by another live entity that still carries that identifier; the check only ever removes entries |
| Saving.Registry.IsUnique | Assets/Scripts/Saving/SaveableEntity.cs:62-81 | yes for a free key, a key the entity holds, or a key held by a destroyed entity or one whose identifier has changed, the last two being removed from the lookup; no otherwise, with the lookup unchanged |
| Saving.Registry.EditorUpdate | Assets/Scripts/Saving/SaveableEntity.cs:44-59 | nothing happens in play mode or outside a saved scene; otherwise an empty or taken identifier is replaced by the fresh one and the entity is registered under its identifier, which is then non-empty |
| SavingSystems.SaveMerges | Assets/Scripts/Saving/SavingSystem.cs:24-29 | a save keeps every entry of the file that no entity overwrites, adds exactly the entities' identifiers and the scene key, and records the active scene |
| SavingSystems.SaveStoresCaptures | Assets/Scripts/Saving/SavingSystem.cs:72-83 | each entity's capture is in the save under its identifier, when identifiers are unique and none is the scene key |
| SavingSystems.SaveThenLoadRestores | Assets/Scripts/Saving/SavingSystem.cs:24-34 | saving and then loading gives a component its own captured state back, when identifiers are unique and not the scene key and the entity's type names are distinct |
| SavingSystems.Captures | Assets/Scripts/Saving/SavingSystem.cs:76-79 | one pair per entity, in order, of its identifier and its capture |
| SavingSystems.SavingSystem.constructor | Assets/Scripts/Saving/SavingSystem.cs:10 | a saving system over the given data directory, files and active scene |
| SavingSystems.SavingSystem.CaptureState | Assets/Scripts/Saving/SavingSystem.cs:72-83 | the dictionary with every entity's capture set under its identifier in turn and then the active scene under "lastSceneBuildIndex" |
| SavingSystems.SavingSystem.Save | Assets/Scripts/Saving/SavingSystem.cs:24-29 | the file at the save's path becomes the loaded dictionary (empty without a file) merged with the captures; no other file changes |
| SavingSystems.SavingSystem.LoadFile | Assets/Scripts/Saving/SavingSystem.cs:41-56 | the dictionary stored at the save's path, or an empty one when no file is there |
| SavingSystems.SavingSystem.RestoreState | Assets/Scripts/Saving/SavingSystem.cs:85-97 | every component of an entity whose identifier the dictionary holds gets the entry under its type name if there is one; every other component keeps its state |
| SavingSystems.SavingSystem.RestoreEntity | Assets/Scripts/Saving/SavingSystem.cs:94 | one entity is restored and the components of every other entity keep their state |
| SavingSystems.SavingSystem.Load | Assets/Scripts/Saving/SavingSystem.cs:31-34 | the entities are restored from the file's dictionary, or from an empty one when there is no file |
| SavingSystems.SavingSystem.Delete | Assets/Scripts/Saving/SavingSystem.cs:36-39 | the save's file is removed, so loading it afterwards finds an empty dictionary; no other file changes |
| SavingSystems.SavingSystem.LoadLastScene | Assets/Scripts/Saving/SavingSystem.cs:12-22 | the active scene becomes the saved build index, or stays when the file names none; then the entities are restored from the file |
| SavingSystems.SavingSystem.PathsSeparateSaves | Assets/Scripts/Saving/SavingSystem.cs:99-104 | distinct save names that are not rooted paths have distinct paths, so one save never touches another, and every path ends in ".sav" |

Several one-line queries have no row of their own, because their properties are stated by the members named here:
- `AIControl.IsAggrevated`: `AIControl.OneBehaviourPerTick` and `AIControl.AggravationLastsForCooldown`;
- `Combat.GetIsInRange` and `Combat.CanAttack`: `Combat.CanAttackCases`;
- `Dialogues.Dialogue.GetAllChildren`: `Dialogues.ChildrenMembership`, `Dialogues.ChildrenAppend` and `Dialogues.UnknownChildrenSkipped`;
- `Conversation.FilterOnCondition`: `Conversation.FilterExact`, `Conversation.FilterAppend` and `Conversation.FilterNonEmpty`;
- `Conversation.PlayerConversant.GetOptions`: `Conversation.BySpeakerSubset` and `Conversation.FilterExact`;
- `DialogueTriggers.Trigger`: `DialogueTriggers.TriggerMatches`;
- `QuestLists.QuestList.GetQuestStatus`: `QuestLists.FindStatus`;
- `Drops.GetByLevel`: `Drops.GetByLevelClamps`;
- `SavingSystems.SavingSystem.GetPathFromSaveFile`: `SavingSystems.SavingSystem.PathsSeparateSaves`;
- `Attributes.Health.IsDead`: `Attributes.DeathIsPermanent`; `CoreHealth.LegacyHealth.IsDead`: `CoreHealth.FreshComponentDiesAtHundred` and `CoreHealth.DamagesFromLive`;
- `Progression.BuildTable`: `Progression.BuildTableLastWins` and `Progression.BuildTableKeys`.

`Dialogues.Dialogue.GetAllNodes`, `Conversation.PlayerConversant.IsActive`, `Quests.Quest.GetObjectiveCount`, `QuestStatuses.QuestStatus.GetCompletedCount`, `QuestStatuses.QuestStatus.IsObjectiveComplete` and `Drops.ShouldGetRandomDrop` each return one field or one comparison, exactly as the source's one-line bodies do.

## Left out

- Engine services are replaced by inputs, and their effects are kept as logs: physics queries, NavMesh pathing, the animator, the action scheduler, the mover, the inventory and scene loading. What those services do is not modelled.
- Random draws are parameters limited to the values `Random.Range` can return. Their distribution is not modelled.
- Floats are modelled as `real`. Rounding and `Mathf.Approximately` are not modelled.
- C# events are counted or logged. A null subscriber list, such as calling `onDialogueUpdated()` or `onExperienceGained()` with no listeners, would throw in the game; the model simply records the event.
- Fighter weapon handling (`SetWeapon`, `EquipWeapon`, `UpdateWeapon`, the default weapon) and the Fighter's save state are left out. Weapon range, damage and the projectile flag are given as a `Weapon` value. `Shoot` is folded into `Hit`.
- The Health getters that only scale values for display (`GetPercentage`, `GetFraction`, `GetMaxHealth`) are left out. Maximum health and the experience reward come from the stats system and are parameters.
- `GetTimeOutOfCombat`, `IsSelectingOption`, `GetTitle`, `GetObjectives`, `GetRewards`, `Experience.Experience.GetExperience`, `Attributes.Health.GetHealth`, `Quests.Quest.GetQuestID`, `QuestStatuses.QuestStatus.GetQuest` and `Saving.SaveableEntity.GetUniqueIdentifier` are plain getters. They appear as fields or one-line functions without a row of their own.
- Awake, Start, OnEnable and OnDisable only wire components and events together. The parts that matter are modelled: the initial state is a constructor, and the level-up handler is `RegenerateHealth`.
- Stat.cs, CharacterClass.cs and DialogueNode.cs are not part of this model:
  - stats and classes are plain datatypes;
  - a dialogue node has only the members that the dialogue and the conversant use.
- `GetPlayerChildren` and `GetNPCChildren` are called by the conversant, but Dialogue.cs does not define them. They are modelled as `GetAllChildren` filtered by speaker.
- A node's `CheckCondition` against the player's predicate evaluators is given as the set of nodes whose condition holds.
- Editor-only concerns are left out: node positions, Undo, `AssetDatabase` and the `SerializedObject` plumbing. In the saveable entity's editor update, only the identifier logic is kept.
- Fresh GUIDs are parameters. `Quest.OnBeforeSerialize` accepts any fresh id. `Saving.Registry.EditorUpdate` requires a non-empty one, as a GUID's text always is.
- Saved values are one closed datatype rather than .NET objects. A cast that would throw in the game is a precondition:
  - a saved health or experience state must be a float;
  - a quest record must be a record;
  - an entity's entry must be a dictionary;
  - the scene index must be an integer.
- The debug message that `SaveFile` prints with the save's path is left out, because it is console output only.
- `BinaryFormatter` and the file format are left out. The file system is a map from path to dictionary. The path combination is modelled with the '/' separator only.
- The coroutine in `LoadLastScene` is reduced to its order: choose the scene, load it, then restore. The restored entities are those of the loaded scene, given as a parameter.
- The generic `ISaveable` interface is not modelled as an interface. A saveable component is reduced to its runtime type name and its state.
- `Conversation.PlayerConversant.StartDialogue` requires the dialogue to have a node, because the source reads the root node without a check.
- `Conversation.PlayerConversant.NextDialogue` requires at least one passing NPC response when there is no player option, because the source indexes that array without a check.
- `Conversation.PlayerConversant.GetCurrentConversantName` requires a conversant when not selecting, because the source dereferences it; after `QuitDialogue` it is null.
- `QuestLists.QuestList.CompleteObjective` requires the quest to be in the log, because the source uses its status without a null check.
- `QuestLists.QuestList.RestoreState` makes no promise about one status per quest. A saved list may repeat a quest, and a record whose id finds no quest gives a status with a null quest.
- `QuestLists.QuestList.ProcessReward` does not model whether the inventory had room. The source only logs a message when it did not.
- `Drops.GetRandomDrops` requires every pick to select a drop, because the source reads the selected item without a null check. A float draw equal to the total weight selects nothing.
- `Progression.Progression.GetStat` requires a level of at least 1 and an entry for the class and stat. The source has no guard below 1 and throws on a missing key.
- `Saving.Registry.UniqueCheckSound` restates the `IsUnique` decision over the lookup's values. Its proof needs no induction.
- `Quests.AssignIDSettles` is a direct consequence of the id rule. Its proof likewise needs no induction.
- `AIControl.AIController.constructor` and `AIControl.AIController.Valid` require a patrol path to have at least one waypoint, because the source's `GetChild` throws on an empty path.
- `Dialogues.Dialogue.CleanOrphanNodes` and `Dialogues.Dialogue.DeleteNode` require the node list to hold no null entry. The editor's validation can leave nulls in the list, and the source's loop over the nodes would then throw.
- `QuestStatuses.QuestStatus.CaptureState`, `QuestStatuses.QuestStatus.CompleteObjective`, `QuestStatuses.QuestStatus.IsComplete` and `QuestLists.QuestList.CaptureState` require a non-null quest. A restored record whose id finds no quest gives a null quest, and the source would then throw on the next save or completion.
- `QuestStatuses.QuestStatus.FromRecord` and `QuestStatuses.QuestStatus.CaptureState` copy the completed list. The source shares one list object between a status and its record. The difference cannot be seen, because a captured state is serialised at once.
- Quirks of the source, all modelled as written:
  - the comment at DropLibrary.cs line 79 says the opposite of the code, which drops when the roll is below the chance;
  - the quantity and drop-count draws subtract 1 from an already exclusive upper bound, so the configured maximum is never drawn (`Drops.ConfiguredMaximumNeverDrawn`);
  - `TakeDamage` awards experience on every hit that leaves health at zero, including hits on an already-dead character;
  - `NextDialogue` fires the enter action of the node being left and the exit action of the node being entered;
  - `SelectOption` fires the chosen node's enter action twice when no player option follows: once itself and once in `NextDialogue`;
  - `DeleteNode` removes only the first occurrence of the id from each node's children, so a child id listed twice survives one deletion once.
