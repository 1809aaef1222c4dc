/** The one business rule of the join flow: how the joining group's size
    compares with the places the host broadcast still has open. */
module Capacity {

  datatype Classification =
    | Reject
    | PerfectMatch
    | PartialMatch(remaining: int)

  /** Classify a join by the places left after it, `lfPax - joiningPax`:
      negative rejects, zero fills the host exactly, positive leaves it open. */
  function Classify(lfPax: int, joiningPax: int): (c: Classification)
    ensures c.Reject? <==> joiningPax > lfPax
    ensures c.PerfectMatch? <==> joiningPax == lfPax
    ensures c.PartialMatch? <==> joiningPax < lfPax
    ensures c.PartialMatch? ==> c.remaining > 0 && c.remaining + joiningPax == lfPax
  {
    var newLfPax := lfPax - joiningPax;
    if newLfPax < 0 then Reject
    else if newLfPax == 0 then PerfectMatch
    else PartialMatch(newLfPax)
  }
}
