/**
 * The saving system: a save file is one dictionary from entity identifier to
 * that entity's captured state, plus the build index of the active scene
 * under "lastSceneBuildIndex". Saving merges the current entities into the
 * dictionary already on disk; loading restores the entities whose identifier
 * the file holds. The file system is a map from path to dictionary, the
 * active scene an integer, and the entities of the scene a parameter in the
 * order `FindObjectsOfType` returns them.
 */
module SavingSystems {
  import opened SaveState
  import opened Saving

  const LastSceneKey: string := "lastSceneBuildIndex"

  /** `Path.Combine` with the '/' separator: a rooted second part replaces the first. */
  function Combine(first: string, second: string): string
  {
    if second == "" then first
    else if first == "" then second
    else if second[0] == '/' then second
    else if first[|first| - 1] == '/' then first + second
    else first + "/" + second
  }

  /** The state after `CaptureState(state)`: every entity's capture set in turn, then the scene index. */
  function SavedState(state: map<string, State>, captures: seq<(string, State)>, scene: int): map<string, State>
  {
    Overwrite(state, captures)[LastSceneKey := IntState(scene)]
  }

  /**
   * A save keeps every entry already in the file that no entity overwrites,
   * adds exactly the entities' identifiers and the scene key, and records
   * the active scene.
   */
  lemma SaveMerges(state: map<string, State>, captures: seq<(string, State)>, scene: int)
    ensures SavedState(state, captures, scene).Keys == state.Keys + Names(captures) + {LastSceneKey}
    ensures forall k :: k in state && k !in Names(captures) && k != LastSceneKey ==>
      SavedState(state, captures, scene)[k] == state[k]
    ensures SavedState(state, captures, scene)[LastSceneKey] == IntState(scene)
  {
    OverwriteKeeps(state, captures);
  }

  /**
   * A save holds each entity's own capture under its identifier, when no two
   * entities share one and none uses the scene key.
   */
  lemma SaveStoresCaptures(state: map<string, State>, captures: seq<(string, State)>, scene: int)
    requires DistinctNames(captures)
    requires forall i :: 0 <= i < |captures| ==> captures[i].0 != LastSceneKey
    ensures forall i :: 0 <= i < |captures| ==>
      captures[i].0 in SavedState(state, captures, scene) && SavedState(state, captures, scene)[captures[i].0] == captures[i].1
  {
    forall i | 0 <= i < |captures|
      ensures captures[i].0 in SavedState(state, captures, scene) && SavedState(state, captures, scene)[captures[i].0] == captures[i].1
    {
      OverwriteLastWins(state, captures, i);
    }
  }

  /** The state a component gets from a loaded dictionary: its entity's entry under its type name, if both exist. */
  function RestoredValue(state: map<string, State>, id: string, typeName: string, current: State): State
  {
    if id in state && state[id].DictState? && typeName in state[id].entries then state[id].entries[typeName] else current
  }

  /**
   * Capture, save and load give a component its own captured state back,
   * when its entity's identifier is unique and not the scene key and no two
   * components of the entity share a type.
   */
  lemma SaveThenLoadRestores(state: map<string, State>, captures: seq<(string, State)>, scene: int,
                             i: nat, entries: seq<(string, State)>, k: nat)
    requires DistinctNames(captures) && DistinctNames(entries)
    requires forall j :: 0 <= j < |captures| ==> captures[j].0 != LastSceneKey
    requires i < |captures| && captures[i].1 == DictState(CaptureMap(entries)) && k < |entries|
    ensures RestoredValue(SavedState(state, captures, scene), captures[i].0, entries[k].0, entries[k].1) == entries[k].1
  {
    SaveStoresCaptures(state, captures, scene);
    CaptureMapEntries(entries);
  }

  /** `LoadLastScene` opens the saved scene if the file names one, and otherwise reloads the current one. */
  function SceneToLoad(state: map<string, State>, current: int): int
    requires LastSceneKey in state ==> state[LastSceneKey].IntState?
  {
    if LastSceneKey in state then state[LastSceneKey].i else current
  }

  /** What each entity contributes to a save: its identifier and its capture. */
  function Captures(entities: seq<SaveableEntity>): (captures: seq<(string, State)>)
    reads set e | e in entities
    reads Components(entities)
    ensures |captures| == |entities|
    ensures forall i :: 0 <= i < |entities| ==>
      captures[i] == (entities[i].uniqueIdentifier, DictState(CaptureMap(entities[i].Entries())))
    decreases |entities|
  {
    if entities == [] then []
    else
      var e := entities[|entities| - 1];
      assert forall c :: c in e.components ==> c in Components(entities);
      Captures(entities[..|entities| - 1]) + [(e.uniqueIdentifier, DictState(CaptureMap(e.Entries())))]
  }

  /** Every component of every entity. */
  function Components(entities: seq<SaveableEntity>): set<SaveableComponent>
  {
    set e, c | e in entities && c in e.components :: c
  }

  /** No component belongs to two entities, or appears twice in one. */
  ghost predicate SeparateComponents(entities: seq<SaveableEntity>)
  {
    forall i, j, k, l ::
      0 <= i < |entities| && 0 <= j < |entities| &&
      0 <= k < |entities[i].components| && 0 <= l < |entities[j].components| &&
      (i != j || k != l)
      ==> entities[i].components[k] != entities[j].components[l]
  }

  class SavingSystem {
    const persistentDataPath: string
    /** The save files on disk, by path. */
    var files: map<string, map<string, State>>
    /** The build index of the active scene. */
    var activeScene: int

    constructor (persistentDataPath: string, files: map<string, map<string, State>>, activeScene: int)
      ensures this.persistentDataPath == persistentDataPath
      ensures this.files == files && this.activeScene == activeScene
    {
      this.persistentDataPath := persistentDataPath;
      this.files := files;
      this.activeScene := activeScene;
    }

    function GetPathFromSaveFile(saveFile: string): string
    {
      Combine(persistentDataPath, saveFile + ".sav")
    }

    /** The dictionary in the file, or an empty one when there is no file. */
    function LoadFile(saveFile: string): (state: map<string, State>)
      reads this
      ensures GetPathFromSaveFile(saveFile) !in files ==> state == map[]
      ensures GetPathFromSaveFile(saveFile) in files ==> state == files[GetPathFromSaveFile(saveFile)]
    {
      var path := GetPathFromSaveFile(saveFile);
      if path in files then files[path] else map[]
    }

    /** Sets every entity's capture under its identifier, then the active scene under the scene key. */
    method CaptureState(state: map<string, State>, entities: seq<SaveableEntity>) returns (merged: map<string, State>)
      ensures merged == SavedState(state, Captures(entities), activeScene)
    {
      ghost var captures := Captures(entities);
      merged := state;
      var i := 0;
      while i < |entities|
        invariant 0 <= i <= |entities|
        invariant merged == Overwrite(state, captures[..i])
      {
        var captured := entities[i].CaptureState();
        var id := entities[i].GetUniqueIdentifier();
        assert captures[i] == (id, captured);
        OverwriteStep(state, captures, i);
        merged := merged[id := captured];
        i := i + 1;
      }
      assert captures[..i] == captures;
      assert captures == Captures(entities);
      merged := merged[LastSceneKey := IntState(activeScene)];
    }

    /** Merges the entities' captures into the file's dictionary and writes it back. */
    method Save(saveFile: string, entities: seq<SaveableEntity>)
      modifies this`files
      ensures files == old(files)[GetPathFromSaveFile(saveFile) := old(SavedState(LoadFile(saveFile), Captures(entities), activeScene))]
    {
      var loaded := LoadFile(saveFile);
      var state := CaptureState(loaded, entities);
      assert state == SavedState(loaded, Captures(entities), activeScene);
      assert loaded == old(LoadFile(saveFile));
      assert Captures(entities) == old(Captures(entities));
      assert activeScene == old(activeScene);
      files := files[GetPathFromSaveFile(saveFile) := state];
    }

    /**
     * Restores every entity whose identifier the dictionary holds; that
     * entry must be a dictionary (the entity casts it).
     */
    method RestoreState(state: map<string, State>, entities: seq<SaveableEntity>)
      requires SeparateComponents(entities)
      requires forall i :: 0 <= i < |entities| && entities[i].uniqueIdentifier in state ==>
        state[entities[i].uniqueIdentifier].DictState?
      modifies Components(entities)
      ensures forall i, k :: 0 <= i < |entities| && 0 <= k < |entities[i].components| ==>
        entities[i].components[k].state ==
          RestoredValue(state, entities[i].uniqueIdentifier, entities[i].components[k].typeName,
                        old(entities[i].components[k].state))
    {
      var i := 0;
      while i < |entities|
        invariant 0 <= i <= |entities|
        invariant forall j, k :: 0 <= j < i && 0 <= k < |entities[j].components| ==>
          entities[j].components[k].state ==
            RestoredValue(state, entities[j].uniqueIdentifier, entities[j].components[k].typeName,
                          old(entities[j].components[k].state))
        invariant forall j, k :: i <= j < |entities| && 0 <= k < |entities[j].components| ==>
          entities[j].components[k].state == old(entities[j].components[k].state)
      {
        var entity := entities[i];
        var id := entity.GetUniqueIdentifier();
        if id in state {
          assert entity.Valid() by {
            forall k, l | 0 <= k < l < |entity.components|
              ensures entity.components[k] != entity.components[l]
            {
              assert entities[i].components[k] != entities[i].components[l];
            }
          }
          RestoreEntity(entities, i, state[id]);
        }
        i := i + 1;
      }
    }

    /** Restores one entity; the components of every other entity stay as they are. */
    method RestoreEntity(entities: seq<SaveableEntity>, i: nat, saved: State)
      requires i < |entities| && SeparateComponents(entities)
      requires saved.DictState? && entities[i].Valid()
      modifies Components(entities)
      ensures forall k :: 0 <= k < |entities[i].components| ==>
        entities[i].components[k].state ==
          (if entities[i].components[k].typeName in saved.entries
           then saved.entries[entities[i].components[k].typeName] else old(entities[i].components[k].state))
      ensures forall j, k :: 0 <= j < |entities| && j != i && 0 <= k < |entities[j].components| ==>
        entities[j].components[k].state == old(entities[j].components[k].state)
    {
      var entity := entities[i];
      assert forall c :: c in entity.components ==> c in Components(entities);
      entity.RestoreState(saved);
    }

    method Load(saveFile: string, entities: seq<SaveableEntity>)
      requires SeparateComponents(entities)
      requires forall i :: 0 <= i < |entities| && entities[i].uniqueIdentifier in LoadFile(saveFile) ==>
        LoadFile(saveFile)[entities[i].uniqueIdentifier].DictState?
      modifies Components(entities)
      ensures forall i, k :: 0 <= i < |entities| && 0 <= k < |entities[i].components| ==>
        entities[i].components[k].state ==
          RestoredValue(LoadFile(saveFile), entities[i].uniqueIdentifier, entities[i].components[k].typeName,
                        old(entities[i].components[k].state))
    {
      RestoreState(LoadFile(saveFile), entities);
    }

    /** Removes the file, so that the next load finds an empty dictionary. */
    method Delete(saveFile: string)
      modifies this`files
      ensures files == old(files) - {GetPathFromSaveFile(saveFile)}
      ensures LoadFile(saveFile) == map[]
    {
      files := files - {GetPathFromSaveFile(saveFile)};
    }

    /**
     * Opens the scene the file names (or the active one) and, once it is
     * loaded, restores that scene's entities from the file. The scene entry
     * must be an integer: the source casts it.
     */
    method LoadLastScene(saveFile: string, entities: seq<SaveableEntity>)
      requires LastSceneKey in LoadFile(saveFile) ==> LoadFile(saveFile)[LastSceneKey].IntState?
      requires SeparateComponents(entities)
      requires forall i :: 0 <= i < |entities| && entities[i].uniqueIdentifier in LoadFile(saveFile) ==>
        LoadFile(saveFile)[entities[i].uniqueIdentifier].DictState?
      modifies this`activeScene, Components(entities)
      ensures activeScene == SceneToLoad(LoadFile(saveFile), old(activeScene))
      ensures forall i, k :: 0 <= i < |entities| && 0 <= k < |entities[i].components| ==>
        entities[i].components[k].state ==
          RestoredValue(LoadFile(saveFile), entities[i].uniqueIdentifier, entities[i].components[k].typeName,
                        old(entities[i].components[k].state))
    {
      var state := LoadFile(saveFile);
      var buildIndex := activeScene;
      if LastSceneKey in state {
        buildIndex := state[LastSceneKey].i;
      }
      activeScene := buildIndex;
      RestoreState(state, entities);
    }

    /**
     * Distinct save names that are not rooted paths give distinct files, so
     * saving or deleting one never touches another; every save file ends in ".sav".
     */
    lemma PathsSeparateSaves(a: string, b: string)
      requires a == "" || a[0] != '/'
      requires b == "" || b[0] != '/'
      ensures GetPathFromSaveFile(a) == GetPathFromSaveFile(b) ==> a == b
      ensures var p := GetPathFromSaveFile(a); |p| >= 4 && p[|p| - 4..] == ".sav"
    {
      var pa := a + ".sav";
      var pb := b + ".sav";
      var dir := persistentDataPath;
      if GetPathFromSaveFile(a) == GetPathFromSaveFile(b) {
        var prefix := if dir == "" then "" else if dir[|dir| - 1] == '/' then dir else dir + "/";
        assert GetPathFromSaveFile(a) == prefix + pa;
        assert GetPathFromSaveFile(b) == prefix + pb;
        assert (prefix + pa)[|prefix|..] == pa;
        assert (prefix + pb)[|prefix|..] == pb;
        assert pa[..|a|] == a && pb[..|b|] == b;
      }
      var p := GetPathFromSaveFile(a);
      assert p[|p| - 4..] == pa[|pa| - 4..];
    }
  }
}
