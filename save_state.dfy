/**
 * The values that components hand to the saving system. In the source they
 * are `object`s written with a binary formatter; here they form one closed
 * datatype, so a failing cast in the source becomes a precondition on the
 * constructor the model expects.
 */
module SaveState {
  import opened Basics

  datatype State =
    | FloatState(f: real)
    | IntState(i: int)
    | TextState(s: string)
    | ListState(items: seq<State>)
      /** The record a `QuestStatus` saves: the quest id (null allowed) and its completed objectives. */
    | QuestRecord(questID: Option<string>, completeObjectives: seq<string>)
      /** A dictionary keyed by strings: a SaveableEntity's per-component map. */
    | DictState(entries: map<string, State>)
}
