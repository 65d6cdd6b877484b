/** SwimController (Assets/Scripts/SwimController.cs): whether the player is
    swimming, and in which water, as changed by trigger enter and exit
    events, and the choice Update makes between swimming and walking. */
module Swim {

  /** A trigger collider the player touches. Colliders are compared by
      reference; the tag is fixed when the collider is made. */
  class Collider {
    const tag: string

    constructor (tag: string)
      ensures this.tag == tag
    {
      this.tag := tag;
    }
  }

  const WaterTag: string := "Water"

  /** Collider.CompareTag("Water"). */
  predicate IsWater(c: Collider)
  {
    c.tag == WaterTag
  }

  datatype Event = Enter(other: Collider) | Exit(other: Collider)

  /** The branch Update takes. */
  datatype Movement = SwimMovement | WalkMovement

  /** The controller's two fields. */
  datatype SwimState = SwimState(isSwimming: bool, currentWater: Collider?)

  /** The field initialisers: not swimming, no current water. */
  const Initial: SwimState := SwimState(false, null)

  /** OnTriggerEnter: a water collider becomes the current water; any other
      collider changes nothing. */
  function OnEnter(s: SwimState, other: Collider): SwimState
  {
    if IsWater(other) then SwimState(true, other) else s
  }

  /** OnTriggerExit: leaving the current water (tagged Water) ends swimming;
      leaving anything else changes nothing. */
  function OnExit(s: SwimState, other: Collider): SwimState
  {
    if IsWater(other) && other == s.currentWater then SwimState(false, null) else s
  }

  function Step(s: SwimState, e: Event): SwimState
  {
    match e
    case Enter(c) => OnEnter(s, c)
    case Exit(c) => OnExit(s, c)
  }

  /** The state after the events, in order. */
  function Run(s: SwimState, events: seq<Event>): SwimState
    decreases |events|
  {
    if events == [] then s else Run(Step(s, events[0]), events[1..])
  }

  /** Update's test: swim when swimming in some water, otherwise walk. */
  function Choose(s: SwimState): Movement
  {
    if s.isSwimming && s.currentWater != null then SwimMovement else WalkMovement
  }

  /** Swimming exactly when there is a current water, and that water is
      tagged Water. */
  predicate Consistent(s: SwimState)
  {
    (s.isSwimming <==> s.currentWater != null) &&
    (s.currentWater != null ==> IsWater(s.currentWater))
  }

  lemma StepPreservesConsistency(s: SwimState, e: Event)
    requires Consistent(s)
    ensures Consistent(Step(s, e))
  {
  }

  lemma {:induction false} RunPreservesConsistency(s: SwimState, events: seq<Event>)
    requires Consistent(s)
    ensures Consistent(Run(s, events))
    decreases |events|
  {
    if events != [] {
      StepPreservesConsistency(s, events[0]);
      RunPreservesConsistency(Step(s, events[0]), events[1..]);
    }
  }

  /** After any sequence of enter and exit events from the initial state,
      isSwimming holds exactly when currentWater is set, and then Update
      swims exactly when isSwimming holds. */
  lemma ReachableStatesConsistent(events: seq<Event>)
    ensures var s := Run(Initial, events);
            (s.isSwimming <==> s.currentWater != null) &&
            (s.currentWater != null ==> IsWater(s.currentWater)) &&
            (Choose(s) == SwimMovement <==> s.isSwimming)
  {
    RunPreservesConsistency(Initial, events);
  }

  /** Events with colliders not tagged Water change nothing. */
  lemma {:induction false} NonWaterEventsChangeNothing(s: SwimState, events: seq<Event>)
    requires forall k :: 0 <= k < |events| ==> !IsWater(events[k].other)
    ensures Run(s, events) == s
    decreases |events|
  {
    if events != [] {
      NonWaterEventsChangeNothing(s, events[1..]);
    }
  }

  /** Entering a second water replaces the current one; a later exit from
      the first water then leaves swimming on, in the second. */
  lemma SecondWaterReplacesFirst(first: Collider, second: Collider)
    requires IsWater(first) && IsWater(second) && first != second
    ensures Run(Initial, [Enter(first), Enter(second)]) == SwimState(true, second)
    ensures Run(Initial, [Enter(first), Enter(second), Exit(first)]) == SwimState(true, second)
  {
    var inFirst := SwimState(true, first);
    var inSecond := SwimState(true, second);
    assert Run(inSecond, [Exit(first)]) == inSecond by {
      assert [Exit(first)][1..] == [];
    }
    assert Run(inFirst, [Enter(second)]) == inSecond by {
      assert [Enter(second)][1..] == [];
    }
    assert Run(inFirst, [Enter(second), Exit(first)]) == inSecond by {
      assert [Enter(second), Exit(first)][1..] == [Exit(first)];
    }
    assert [Enter(first), Enter(second)][1..] == [Enter(second)];
    assert [Enter(first), Enter(second), Exit(first)][1..] == [Enter(second), Exit(first)];
  }

  /** Only one water is remembered: leaving the second water ends swimming
      even though the first was entered and never left. */
  lemma ExitFromSecondWaterEndsSwimming(first: Collider, second: Collider)
    requires IsWater(first) && IsWater(second)
    ensures Run(Initial, [Enter(first), Enter(second), Exit(second)]) == Initial
    ensures Choose(Run(Initial, [Enter(first), Enter(second), Exit(second)])) == WalkMovement
  {
    var inSecond := SwimState(true, second);
    assert Run(inSecond, [Exit(second)]) == Initial by {
      assert [Exit(second)][1..] == [];
    }
    assert Run(SwimState(true, first), [Enter(second), Exit(second)]) == Initial by {
      assert [Enter(second), Exit(second)][1..] == [Exit(second)];
    }
    assert [Enter(first), Enter(second), Exit(second)][1..] == [Enter(second), Exit(second)];
  }

  /** The controller: its two fields, updated in place by the trigger
      callbacks and read by Update. */
  class SwimController {
    var isSwimming: bool
    var currentWater: Collider?

    function State(): SwimState
      reads this
    {
      SwimState(isSwimming, currentWater)
    }

    constructor ()
      ensures State() == Initial
    {
      isSwimming := false;
      currentWater := null;
    }

    method OnTriggerEnter(other: Collider)
      modifies this
      ensures State() == OnEnter(old(State()), other)
      ensures Consistent(old(State())) ==> Consistent(State())
      ensures IsWater(other) ==> isSwimming && currentWater == other
      ensures !IsWater(other) ==> isSwimming == old(isSwimming) && currentWater == old(currentWater)
    {
      if other.tag == WaterTag {
        isSwimming := true;
        currentWater := other;
      }
    }

    method OnTriggerExit(other: Collider)
      modifies this
      ensures State() == OnExit(old(State()), other)
      ensures Consistent(old(State())) ==> Consistent(State())
      ensures IsWater(other) && other == old(currentWater) ==> !isSwimming && currentWater == null
      ensures !(IsWater(other) && other == old(currentWater)) ==>
                isSwimming == old(isSwimming) && currentWater == old(currentWater)
    {
      if other.tag == WaterTag && other == currentWater {
        isSwimming := false;
        currentWater := null;
      }
    }

    /** The branch Update takes; the movement itself is not modelled. */
    method Update() returns (movement: Movement)
      ensures movement == SwimMovement <==> isSwimming && currentWater != null
      ensures Consistent(State()) ==> (movement == SwimMovement <==> isSwimming)
    {
      if isSwimming && currentWater != null {
        movement := SwimMovement;
      } else {
        movement := WalkMovement;
      }
    }
  }
}
