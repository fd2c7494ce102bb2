/** The score a rider can still bring to the fleet, recomputed every tick. */
module ElevatorMath {
  import opened Common

  const INITIAL_SCORE: int := 22

  /** calculateBestScore: a waiting rider loses half a point per tick waited
      and per floor between the caller and the cabin; a riding rider loses half
      a point per tick waited and one per estimated tick of travel, and gets
      back the length of the trip. The score never drops below zero. */
  function CalculateBestScore(u: UserData, currentFloor: int): (r: int)
    ensures r >= 0
    ensures StatusOf(u) == Waiting ==>
      r == Max(0, INITIAL_SCORE - 1 - Half(u.waitTime + Abs(u.comingFrom - currentFloor)))
    ensures StatusOf(u) == InElevator ==>
      r == Max(0, INITIAL_SCORE - Half(u.waitTime)
                  - (u.travelTime + Abs(currentFloor - u.floorToGo.value) + 1)
                  + Abs(u.comingFrom - u.floorToGo.value))
    ensures StatusOf(u) == Waiting && u.waitTime >= 0 ==> r <= INITIAL_SCORE - 1
  {
    var waitTime :=
      if StatusOf(u) == InElevator then u.waitTime
      else u.waitTime + Abs(u.comingFrom - currentFloor);
    if StatusOf(u) == Waiting then
      Max(0, INITIAL_SCORE - 1 - Half(waitTime))
    else
      var travelTimeAverage := u.travelTime + Abs(currentFloor - u.floorToGo.value) + 1;
      Max(0, INITIAL_SCORE - Half(waitTime) - travelTimeAverage + Abs(u.comingFrom - u.floorToGo.value))
  }

  /** Waiting longer never raises a waiting rider's score. */
  lemma WaitingScoreNonIncreasing(u: UserData, currentFloor: int, later: int)
    requires StatusOf(u) == Waiting && u.waitTime <= later
    ensures CalculateBestScore(u.(waitTime := later), currentFloor) <= CalculateBestScore(u, currentFloor)
  {
    var x := u.waitTime + Abs(u.comingFrom - currentFloor);
    var y := later + Abs(u.comingFrom - currentFloor);
    HalfMonotone(x, y);
  }

  lemma HalfMonotone(x: int, y: int)
    requires x <= y
    ensures Half(x) <= Half(y)
  {
  }

  /** A caller who has waited 42 ticks or more has nothing left to score, at any floor. */
  lemma LongWaitScoresZero(u: UserData, currentFloor: int)
    requires StatusOf(u) == Waiting && u.waitTime >= 2 * (INITIAL_SCORE - 1)
    ensures CalculateBestScore(u, currentFloor) == 0
  {
  }

  /** One more tick of travel exactly pays for one floor less to go. */
  lemma TravelTradeOff(u: UserData, floor: int, closer: int)
    requires StatusOf(u) == InElevator
    requires Abs(closer - u.floorToGo.value) + 1 == Abs(floor - u.floorToGo.value)
    ensures CalculateBestScore(u.(travelTime := u.travelTime + 1), closer) == CalculateBestScore(u, floor)
  {
  }

  /** The values fixed by the unit tests of the score formula. */
  lemma ScoreExamples()
    // waited 60 ticks at its own floor: nothing left to score
    ensures CalculateBestScore(UserData(60, 10, 0, Up, None, 0), 0) == 0
    // rider from 3 to 10 who waited 6 ticks
    ensures CalculateBestScore(UserData(6, 0, 3, Up, Some(10), 0), 4) == 19
    ensures CalculateBestScore(UserData(6, 0, 3, Up, Some(10), 0), 3) == 18
    ensures CalculateBestScore(UserData(6, 1, 3, Up, Some(10), 0), 4) == 18
    ensures CalculateBestScore(UserData(6, 2, 3, Up, Some(10), 0), 5) == 18
    // caller at 3 who waited 6 ticks, cabin at 1
    ensures CalculateBestScore(UserData(6, 0, 3, Up, None, 0), 1) == 17
  {
  }
}
