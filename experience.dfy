/**
 * Experience points of one character. They start at 0, grow by exactly the
 * amount gained, and are saved and restored as one float.
 */
module Experience {
  import opened SaveState

  class Experience {
    var experiencePoints: real
    /** How many times `onExperienceGained` has fired. */
    var gainedEvents: nat

    constructor ()
      ensures experiencePoints == 0.0 && gainedEvents == 0
    {
      experiencePoints := 0.0;
      gainedEvents := 0;
    }

    function GetExperience(): real
      reads this
    {
      experiencePoints
    }

    /** Adds exactly `experience` points, then fires `onExperienceGained` once. */
    method GainExperience(experience: real)
      modifies this
      ensures experiencePoints == old(experiencePoints) + experience
      ensures gainedEvents == old(gainedEvents) + 1
    {
      experiencePoints := experiencePoints + experience;
      gainedEvents := gainedEvents + 1;
    }

    function CaptureState(): (s: State)
      reads this
      ensures s.FloatState? && s.f == experiencePoints
    {
      FloatState(experiencePoints)
    }

    /** The saved value must be a float: the source casts it with `(float)state`. */
    method RestoreState(state: State)
      requires state.FloatState?
      modifies this`experiencePoints
      ensures experiencePoints == state.f
    {
      experiencePoints := state.f;
    }
  }

  /** Restoring a capture gives back the points that were captured, into any component. */
  method CaptureRestoreRoundTrip(source: Experience, target: Experience)
    modifies target`experiencePoints
    ensures target.experiencePoints == source.experiencePoints
    ensures source != target ==> source.experiencePoints == old(source.experiencePoints)
  {
    var saved := source.CaptureState();
    target.RestoreState(saved);
  }
}
