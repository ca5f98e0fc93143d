/**
 * A saveable entity: a game object with a unique identifier whose saveable
 * components are captured into one dictionary keyed by each component's
 * runtime type name. In the editor every entity registers itself under its
 * identifier in one global lookup, taking a fresh identifier when its own is
 * empty or held by another live entity.
 */
module Saving {
  import opened SaveState

  /**
   * One `ISaveable` component, reduced to its runtime type name and the
   * state it would capture; what each concrete component captures is
   * modelled with that component.
   */
  class SaveableComponent {
    const typeName: string
    var state: State

    constructor (typeName: string, state: State)
      ensures this.typeName == typeName && this.state == state
    {
      this.typeName := typeName;
      this.state := state;
    }

    function CaptureState(): State
      reads this
    {
      state
    }

    method RestoreState(saved: State)
      modifies this
      ensures state == saved
    {
      state := saved;
    }
  }

  /**
   * Setting each entry in turn over a base dictionary, as `state[key] = value`
   * does in a loop: a later entry for a key overwrites an earlier one.
   */
  function Overwrite(base: map<string, State>, entries: seq<(string, State)>): map<string, State>
    decreases |entries|
  {
    if entries == [] then base
    else Overwrite(base, entries[..|entries| - 1])[entries[|entries| - 1].0 := entries[|entries| - 1].1]
  }

  /** One more entry of a prefix is one more overwrite. */
  lemma OverwriteStep(base: map<string, State>, entries: seq<(string, State)>, i: nat)
    requires i < |entries|
    ensures Overwrite(base, entries[..i + 1]) == Overwrite(base, entries[..i])[entries[i].0 := entries[i].1]
  {
    assert entries[..i + 1][..i] == entries[..i];
  }

  /** The dictionary an entity's capture builds, from an empty one. */
  function CaptureMap(entries: seq<(string, State)>): map<string, State>
  {
    Overwrite(map[], entries)
  }

  /** No two entries share a key. */
  predicate DistinctNames(entries: seq<(string, State)>)
  {
    forall i, j :: 0 <= i < j < |entries| ==> entries[i].0 != entries[j].0
  }

  /** The keys of the entries. */
  function Names(entries: seq<(string, State)>): set<string>
    decreases |entries|
  {
    if entries == [] then {} else Names(entries[..|entries| - 1]) + {entries[|entries| - 1].0}
  }

  lemma {:induction false} NamesMembers(entries: seq<(string, State)>)
    ensures forall i :: 0 <= i < |entries| ==> entries[i].0 in Names(entries)
    ensures forall n :: n in Names(entries) ==> exists i :: 0 <= i < |entries| && entries[i].0 == n
    decreases |entries|
  {
    if entries != [] {
      var init := entries[..|entries| - 1];
      NamesMembers(init);
      assert forall i :: 0 <= i < |init| ==> init[i] == entries[i];
    }
  }

  /**
   * Overwriting keeps every key of the base and adds exactly the entries'
   * keys; a key no entry names keeps the base's value.
   */
  lemma {:induction false} OverwriteKeeps(base: map<string, State>, entries: seq<(string, State)>)
    ensures Overwrite(base, entries).Keys == base.Keys + Names(entries)
    ensures forall k :: k in base && k !in Names(entries) ==> Overwrite(base, entries)[k] == base[k]
    decreases |entries|
  {
    if entries != [] {
      OverwriteKeeps(base, entries[..|entries| - 1]);
    }
  }

  /** The value under a key is the one of the last entry with that key. */
  lemma {:induction false} OverwriteLastWins(base: map<string, State>, entries: seq<(string, State)>, i: nat)
    requires i < |entries|
    requires forall j :: i < j < |entries| ==> entries[j].0 != entries[i].0
    ensures entries[i].0 in Overwrite(base, entries) && Overwrite(base, entries)[entries[i].0] == entries[i].1
    decreases |entries|
  {
    if i < |entries| - 1 {
      var init := entries[..|entries| - 1];
      assert init[i] == entries[i];
      forall j | i < j < |init|
        ensures init[j].0 != init[i].0
      {
        assert init[j] == entries[j];
      }
      OverwriteLastWins(base, init, i);
    }
  }

  /**
   * A capture has exactly one entry per type name of the components, and,
   * when no two components share a type, each entry holds its component's
   * own state.
   */
  lemma CaptureMapEntries(entries: seq<(string, State)>)
    ensures CaptureMap(entries).Keys == Names(entries)
    ensures DistinctNames(entries) ==> forall i :: 0 <= i < |entries| ==>
      entries[i].0 in CaptureMap(entries) && CaptureMap(entries)[entries[i].0] == entries[i].1
  {
    OverwriteKeeps(map[], entries);
    if DistinctNames(entries) {
      forall i | 0 <= i < |entries|
        ensures entries[i].0 in CaptureMap(entries) && CaptureMap(entries)[entries[i].0] == entries[i].1
      {
        OverwriteLastWins(map[], entries, i);
      }
    }
  }

  /** The component states after restoring from a dictionary: the entry under a component's type name, or its old state. */
  function Restored(entries: seq<(string, State)>, saved: map<string, State>): (r: seq<State>)
    ensures |r| == |entries|
    ensures forall i :: 0 <= i < |entries| ==> r[i] == if entries[i].0 in saved then saved[entries[i].0] else entries[i].1
    decreases |entries|
  {
    if entries == [] then []
    else
      var e := entries[|entries| - 1];
      Restored(entries[..|entries| - 1], saved) + [if e.0 in saved then saved[e.0] else e.1]
  }

  /** Restoring a capture gives every component its own captured state back, when no two share a type name. */
  lemma RestoreCaptureRoundTrip(entries: seq<(string, State)>)
    requires DistinctNames(entries)
    ensures Restored(entries, CaptureMap(entries)) == seq(|entries|, i requires 0 <= i < |entries| => entries[i].1)
  {
    CaptureMapEntries(entries);
  }

  class SaveableEntity {
    var uniqueIdentifier: string
    const components: seq<SaveableComponent>

    /** The components are distinct objects, as `GetComponents` returns them. */
    ghost predicate Valid()
    {
      forall i, j :: 0 <= i < j < |components| ==> components[i] != components[j]
    }

    constructor (uniqueIdentifier: string, components: seq<SaveableComponent>)
      requires forall i, j :: 0 <= i < j < |components| ==> components[i] != components[j]
      ensures Valid() && this.uniqueIdentifier == uniqueIdentifier && this.components == components
    {
      this.uniqueIdentifier := uniqueIdentifier;
      this.components := components;
    }

    function GetUniqueIdentifier(): string
      reads this
    {
      uniqueIdentifier
    }

    /** Each component's type name and current state. */
    function Entries(): (entries: seq<(string, State)>)
      reads components
      ensures |entries| == |components|
      ensures forall i :: 0 <= i < |components| ==> entries[i] == (components[i].typeName, components[i].state)
    {
      seq(|components|, i requires 0 <= i < |components| reads components => (components[i].typeName, components[i].state))
    }

    /** The entity's save entry: its components' states keyed by type name. */
    method CaptureState() returns (saved: State)
      ensures saved == DictState(CaptureMap(Entries()))
    {
      var state: map<string, State> := map[];
      var i := 0;
      while i < |components|
        invariant 0 <= i <= |components|
        invariant state == CaptureMap(Entries()[..i])
      {
        assert Entries()[..i + 1][..i] == Entries()[..i];
        state := state[components[i].typeName := components[i].CaptureState()];
        i := i + 1;
      }
      assert Entries()[..i] == Entries();
      saved := DictState(state);
    }

    /**
     * Gives each component the entry under its type name; components without
     * an entry keep their state. The saved state must be a dictionary: the
     * source casts it.
     */
    method RestoreState(saved: State)
      requires saved.DictState? && Valid()
      modifies components
      ensures forall i :: 0 <= i < |components| ==>
        components[i].state == if components[i].typeName in saved.entries
                               then saved.entries[components[i].typeName] else old(components[i].state)
    {
      var stateDict := saved.entries;
      var i := 0;
      while i < |components|
        invariant 0 <= i <= |components|
        invariant forall j :: 0 <= j < i ==>
          components[j].state == if components[j].typeName in stateDict
                                 then stateDict[components[j].typeName] else old(components[j].state)
        invariant forall j :: i <= j < |components| ==> components[j].state == old(components[j].state)
      {
        var typeString := components[i].typeName;
        if typeString in stateDict {
          components[i].RestoreState(stateDict[typeString]);
        }
        i := i + 1;
      }
    }
  }

  /** The editor's global lookup from identifier to the entity registered under it; null stands for a destroyed entity. */
  class Registry {
    var globalLookup: map<string, SaveableEntity?>

    constructor ()
      ensures globalLookup == map[]
    {
      globalLookup := map[];
    }

    /** The entity registered under a key, as a frame for functions that read its identifier. */
    function Holder(key: string): set<SaveableEntity>
      reads this
    {
      if key in globalLookup && globalLookup[key] != null then {globalLookup[key]} else {}
    }

    /** The entry under `key` is stale: held by a destroyed entity, or by one whose identifier has since changed. */
    predicate Stale(key: string, self: SaveableEntity)
      reads this, Holder(key)
    {
      key in globalLookup && globalLookup[key] != self &&
      (globalLookup[key] == null || globalLookup[key].uniqueIdentifier != key)
    }

    /** What `IsUnique` answers: the key is free, held by this entity, or held by a stale entry. */
    predicate Unique(key: string, self: SaveableEntity)
      reads this, Holder(key)
    {
      key !in globalLookup || globalLookup[key] == self || Stale(key, self)
    }

    /** The lookup after `IsUnique`: a stale entry under the key is removed. */
    function AfterCheck(key: string, self: SaveableEntity): map<string, SaveableEntity?>
      reads this, Holder(key)
    {
      if Stale(key, self) then globalLookup - {key} else globalLookup
    }

    /**
     * After the check the key is free or held by this entity exactly when the
     * answer is yes; a no leaves the lookup as it was, with the key held by a
     * different live entity that still carries that identifier.
     */
    lemma UniqueCheckSound(key: string, self: SaveableEntity)
      ensures Unique(key, self) <==>
        (key !in AfterCheck(key, self) || AfterCheck(key, self)[key] == self)
      ensures !Unique(key, self) ==>
        AfterCheck(key, self) == globalLookup && globalLookup[key] != null &&
        globalLookup[key] != self && globalLookup[key].uniqueIdentifier == key
      ensures forall k :: k in AfterCheck(key, self) ==> k in globalLookup && AfterCheck(key, self)[k] == globalLookup[k]
    {
    }

    method IsUnique(key: string, self: SaveableEntity) returns (unique: bool)
      modifies this
      ensures unique == old(Unique(key, self))
      ensures globalLookup == old(AfterCheck(key, self))
    {
      if key !in globalLookup {
        return true;
      }
      if globalLookup[key] == self {
        return true;
      }
      if globalLookup[key] == null {
        globalLookup := globalLookup - {key};
        return true;
      }
      if globalLookup[key].GetUniqueIdentifier() != key {
        globalLookup := globalLookup - {key};
        return true;
      }
      return false;
    }

    /**
     * The editor `Update` of an entity: nothing in play mode or for an entity
     * outside a saved scene (a prefab). Otherwise an empty identifier, or one
     * another live entity holds, is replaced by a fresh one (a GUID's text),
     * and the entity is registered under its identifier.
     */
    method EditorUpdate(entity: SaveableEntity, isPlaying: bool, scenePath: string, freshId: string)
      requires freshId != ""
      modifies this, entity`uniqueIdentifier
      ensures isPlaying || scenePath == "" ==>
        globalLookup == old(globalLookup) && entity.uniqueIdentifier == old(entity.uniqueIdentifier)
      ensures !isPlaying && scenePath != "" ==>
        && entity.uniqueIdentifier ==
             (if old(entity.uniqueIdentifier) == "" || !old(Unique(entity.uniqueIdentifier, entity))
              then freshId else old(entity.uniqueIdentifier))
        && globalLookup ==
             (if old(entity.uniqueIdentifier) == "" then old(globalLookup)
              else old(AfterCheck(entity.uniqueIdentifier, entity)))[entity.uniqueIdentifier := entity]
        && entity.uniqueIdentifier != "" && globalLookup[entity.uniqueIdentifier] == entity
    {
      if isPlaying {
        return;
      }
      if scenePath == "" {
        return;
      }
      var id := entity.uniqueIdentifier;
      var assign := true;
      if id != "" {
        var unique := IsUnique(id, entity);
        assign := !unique;
      }
      if assign {
        entity.uniqueIdentifier := freshId;
      }
      globalLookup := globalLookup[entity.uniqueIdentifier := entity];
    }
  }
}
