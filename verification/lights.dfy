/** The junction's single light (simulator.py, TrafficLight): red with no lane, or green for one lane. */
module Lights {
  import opened Wrappers

  const RED := 1
  const GREEN := 2

  class TrafficLight {
    var state: int
    var currentLane: Option<string>

    /** Red exactly when no lane is named; green exactly when one is. */
    ghost predicate Valid()
      reads this
    {
      (state == RED && currentLane == None) || (state == GREEN && currentLane.Some?)
    }

    constructor ()
      ensures Valid() && state == RED && currentLane == None
    {
      state := RED;
      currentLane := None;
    }

    /** set_green: open the light for `lane`. */
    method SetGreen(lane: string)
      modifies this
      ensures Valid() && state == GREEN && currentLane == Some(lane)
    {
      state := GREEN;
      currentLane := Some(lane);
    }

    /** set_red: close the light; no lane is open afterwards. */
    method SetRed()
      modifies this
      ensures Valid() && state == RED && currentLane == None
    {
      state := RED;
      currentLane := None;
    }
  }
}
