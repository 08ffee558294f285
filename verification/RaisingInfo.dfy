/** RaisingLoweringInfo: how much of the mirror weight the force actuators carry, and who is waited for. */
module RaisingInfo {
  import opened Hardpoints

  /** The operation deadline; `Unset` is the NaN of a paused operation. */
  datatype Deadline = Unset | At(time: real)

  function Raised(weight: real, step: real): real {
    if weight + step >= 100.0 then 100.0 else weight + step
  }

  function Lowered(weight: real, step: real): real {
    if weight - step <= 0.0 then 0.0 else weight - step
  }

  class RaisingLoweringInfo {
    var weight: real
    var deadline: Deadline
    var waitAirPressure: bool
    const waitHardpoint: array<bool>

    constructor ()
      ensures weight == 0.0 && !waitAirPressure && deadline == Unset
      ensures fresh(waitHardpoint) && waitHardpoint.Length == HpCount
    {
      weight, deadline, waitAirPressure := 0.0, Unset, false;
      waitHardpoint := new bool[HpCount](_ => false);
    }

    predicate Filled() reads this { weight >= 100.0 }

    predicate Zeroed() reads this { weight <= 0.0 }

    method IncSupportPercentage(step: real)
      modifies `weight
      ensures weight == Raised(old(weight), step)
    {
      weight := weight + step;
      if Filled() {
        weight := 100.0;
      }
    }

    method DecSupportPercentage(step: real)
      modifies `weight
      ensures weight == Lowered(old(weight), step)
    {
      weight := weight - step;
      if Zeroed() {
        weight := 0.0;
      }
    }
  }
}
