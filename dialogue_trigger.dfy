/**
 * A dialogue trigger: a named action and an event it invokes when asked to
 * trigger exactly that action. The trigger holds no state that changes; the
 * number of times `onTrigger` fires is the result.
 */
module DialogueTriggers {

  datatype DialogueTrigger = DialogueTrigger(action: string)

  /** How many times `onTrigger` is invoked: once on a matching action, never otherwise. */
  function Trigger(t: DialogueTrigger, actionToTrigger: string): (invocations: nat)
  {
    if actionToTrigger == t.action then 1 else 0
  }

  /**
   * The triggers of a conversant invoked by one action, as their positions in
   * the component list, in list order.
   */
  function Dispatch(triggers: seq<DialogueTrigger>, action: string): seq<nat>
    decreases |triggers|
  {
    if triggers == [] then []
    else
      var init := Dispatch(triggers[..|triggers| - 1], action);
      if Trigger(triggers[|triggers| - 1], action) == 1 then init + [|triggers| - 1] else init
  }

  /** `Trigger` invokes exactly once on a match and never on a mismatch. */
  lemma TriggerMatches(t: DialogueTrigger, a: string)
    ensures Trigger(t, a) == 1 <==> a == t.action
    ensures Trigger(t, a) == 0 <==> a != t.action
  {
  }

  /**
   * A trigger is invoked by `Dispatch` exactly when its action matches, once,
   * and the invoked positions come in increasing order.
   */
  lemma {:induction false} DispatchExact(triggers: seq<DialogueTrigger>, action: string)
    ensures forall i :: 0 <= i < |triggers| ==> (i in Dispatch(triggers, action) <==> triggers[i].action == action)
    ensures forall k :: 0 <= k < |Dispatch(triggers, action)| ==> Dispatch(triggers, action)[k] < |triggers|
    ensures forall k, l :: 0 <= k < l < |Dispatch(triggers, action)| ==>
      Dispatch(triggers, action)[k] < Dispatch(triggers, action)[l]
    decreases |triggers|
  {
    if triggers != [] {
      var init := triggers[..|triggers| - 1];
      DispatchExact(init, action);
      forall i | 0 <= i < |init|
        ensures triggers[i] == init[i]
      {
      }
    }
  }
}
