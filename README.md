# Elevator dispatch engine, modelled in Dafny

This project models the dispatch core of the Java elevator server
`fr.elevator`. The engine (`ElevatorModel`) keeps three things:

- a pool of callers that have no cabin yet;
- a fleet of cabins (`CabinModel`), each with its riders aboard and the callers assigned to it;
- a score, plus counters of users and of abnormal entries and exits.

Four operations change that state:

- **`callAtFloor`** creates a caller and assigns it to a cabin.
- **`findNextCommand`** is the tick. It:
  1. ages the pool;
  2. retries the assignment of every pool caller;
  3. removes the assigned callers from the pool;
  4. asks every cabin, in fleet order, for its next command.
- **`floorToGo`** reports that a rider has boarded a cabin and chosen a destination.
- **`userHasExited`** reports that a rider has left.

Each cabin chooses its next command after ageing its members (`updateScore`). The choice is an ordered cascade:

1. close an open door;
2. unload when the cabin is crowded or nobody can score;
3. serve a scoring rider or caller at this floor;
4. idle;
5. turn at the end floors;
6. otherwise continue or reverse, depending on the demand ahead.

The score a rider can still bring is `calculateBestScore`, an integer formula clamped at zero.

The model follows the source's own form:

- The score formula is a pure function.
- `User`, `CabinModel` and `ElevatorModel` are classes whose methods update their fields in place. Users are shared by reference between the pool and the cabins' lists.
- Each cabin's decision is proved equal to a pure specification:
  - `Cabin.Decide` is a function over a cabin's configuration, its state and the values of its members.
  - Its contract states the properties of the cascade.
- Assignment (`Dispatch.ChooseCabin`) and boarding (`Boarding.ChooseBoarder`, `Boarding.Boarded`) are specified the same way, on values. The methods of `ElevatorModel` are proved to follow them.

The code is modelled as written, including behaviour a reader may not expect:

- A rider found in the pool at boarding is removed from the boarding cabin's callers, not from the pool. The removal finds nothing, the rider stays in the pool, and `abnormalUserEntring` goes up (`Boarding.BoardedEffect`).
- The third boarding search compares each cabin's callers with that cabin's own floor (`Boarding.OtherFloorCallerBoards`).
- The nearest-cabin search can return null, which the assignment then dereferences. This happens when several cabins accept a caller and none is strictly closer than the height of the building (`Dispatch.NoNearestIffAllTooFar`, `Dispatch.NoNearestAtFullHeight`). The model returns `Fail(NullPointer)` at that point, after the caller has been marked for removal. The tick stops there, so the marked callers stay pending.
- Boarding never checks capacity, and `isFull` tests `==`. A cabin boarded past its size counts as not full (`Cabin.CabinModel.IsFull`).
- A caller assigned during a tick is aged twice: once in the pool and once by the cabin.
- A new cabin stands at floor 0, whatever its lowest floor is.
- `reset` keeps the callers already marked for removal.

## Model

| member | source | states |
|---|---|---|
| Common.Half | src/main/java/fr/elevator/util/ElevatorMathUtil.java:18 | Java's `x / 2` on int truncates toward zero: `2h <= x < 2h + 2` for non-negative x, and the mirror image for negative x |
| Common.User.constructor | src/main/java/fr/elevator/common/User.java:25-31 | a new user has waited and travelled 0 ticks, scores 0, has no destination and is WAITING |
| Common.User.GetUserStatus | src/main/java/fr/elevator/common/User.java:73-75 | WAITING exactly when there is no destination, IN_ELEVATOR exactly when there is one |
| Common.User.SetWaitTime | src/main/java/fr/elevator/common/User.java:37-39 | only the wait time changes |
| Common.User.SetTravelTime | src/main/java/fr/elevator/common/User.java:45-47 | only the travel time changes |
| Common.User.SetComingFrom | src/main/java/fr/elevator/common/User.java:53-55 | only the calling floor changes |
| Common.User.SetDirection | src/main/java/fr/elevator/common/User.java:61-63 | only the direction changes |
| Common.User.SetFloorToGo | src/main/java/fr/elevator/common/User.java:69-75 | only the destination changes; setting one makes the user IN_ELEVATOR, clearing it makes the user WAITING |
| Common.User.SetStillCanScore | src/main/java/fr/elevator/common/User.java:81-83 | only the score changes |
| Common.FindFirst | src/main/java/fr/elevator/model/CabinModel.java:398-408 | the position found matches the query and no earlier one does; none is found exactly when nothing matches |
| Common.RemoveFirst | src/main/java/fr/elevator/model/CabinModel.java:248-250 | `List.remove(Object)` drops the first occurrence of the element and keeps everything else in order; an absent element changes nothing |
| Common.RemoveFirstMultiset | src/main/java/fr/elevator/model/CabinModel.java:248-250 | `List.remove` takes away exactly one occurrence of the element, or none when it is absent |
| Common.RemoveAll | src/main/java/fr/elevator/model/ElevatorModel.java:119 | `removeAll` keeps exactly the elements not listed for removal, each as often as before |
| Common.RemoveAllNoDuplicates | src/main/java/fr/elevator/model/ElevatorModel.java:119 | `removeAll` on a pool without duplicates leaves a pool without duplicates |
| Common.FirstMatchIsFirstOccurrence | src/main/java/fr/elevator/model/ElevatorModel.java:265-272 | the first rider matching a search is also the first occurrence of that rider, so `remove(user)` removes exactly the rider found |
| ElevatorMath.CalculateBestScore | src/main/java/fr/elevator/util/ElevatorMathUtil.java:13-26 | never negative. A waiting user scores `max(0, 21 - (wait + distance to the cabin) / 2)` and never more than 21. A riding user scores `max(0, 22 - wait / 2 - (travel + floors left + 1) + trip length)` |
| ElevatorMath.WaitingScoreNonIncreasing | src/main/java/fr/elevator/util/ElevatorMathUtil.java:14-18 | waiting longer never raises a waiting user's score |
| ElevatorMath.LongWaitScoresZero | src/main/java/fr/elevator/util/ElevatorMathUtil.java:17-19 | a caller who has waited 42 ticks or more scores 0 at any floor |
| ElevatorMath.TravelTradeOff | src/main/java/fr/elevator/util/ElevatorMathUtil.java:21-24 | one more tick of travel together with one floor less to go leaves a rider's score unchanged |
| ElevatorMath.ScoreExamples | src/test/java/fr/elevator/util/ElevatorMathUtilTest.java:14-59 | the values the unit tests fix: 0 after 60 ticks of waiting; 19, 18, 18, 18 for the rider from 3 to 10; 17 for the caller at 3 |
| Cabin.CabinThreshold | src/main/java/fr/elevator/model/CabinModel.java:311-313 | the integer part of 0.8 times the cabin size, truncated toward zero |
| Cabin.Eligible | src/main/java/fr/elevator/model/CabinModel.java:329-344 | eligible exactly when the directions agree and the cabin has not passed the caller: at or below the caller going up, at or above it going down |
| Cabin.UserDirection | src/main/java/fr/elevator/model/CabinModel.java:389-396 | UP exactly when the target is strictly above the cabin |
| Cabin.Decide | src/main/java/fr/elevator/model/CabinModel.java:106-181 | every command has exactly its effect; CLOSE exactly when the door was open; an opening exactly for the forced unload or the priority service, never right after CLOSE, OPEN_UP at the bottom and OPEN_DOWN at the top; NOTHING exactly when the door is closed and nobody is aboard or assigned; moves of one floor that follow the demand and turn at the end floors; a cabin inside its range stays inside it (all listed below) |
| Cabin.PriorityOpensTowardDemand | src/main/java/fr/elevator/model/CabinModel.java:133-147 | inside the range, the priority service opens toward the side the cabin would move to: OPEN_UP exactly when going up with demand ahead or going down with none; the end floors fix the side |
| Cabin.AgedSeq | src/main/java/fr/elevator/model/CabinModel.java:358-367 | each member is aged by one waiting tick per place in the callers' list and one travelling tick per place in the riders' list, then re-scored at the cabin's floor |
| Cabin.AgedAgain | src/main/java/fr/elevator/model/CabinModel.java:358-367 | the two loops of `updateScore` compose: ageing twice adds up the ticks, and the last re-scoring wins |
| Cabin.WaitOneTick | src/main/java/fr/elevator/model/CabinModel.java:359-362 | wait time goes up by exactly 1, the score becomes `calculateBestScore` at the floor, nothing else changes |
| Cabin.TravelOneTick | src/main/java/fr/elevator/model/CabinModel.java:363-366 | travel time goes up by exactly 1, the score becomes `calculateBestScore` at the floor, nothing else changes |
| Cabin.CabinModel.constructor | src/main/java/fr/elevator/model/CabinModel.java:51-60 | floor 0 whatever the range, going up, door closed, no command yet, both lists empty, the given id |
| Cabin.CabinModel.IsEmpty | src/main/java/fr/elevator/model/CabinModel.java:410-412 | empty exactly when nobody is aboard and nobody is assigned |
| Cabin.CabinModel.IsFull | src/main/java/fr/elevator/model/CabinModel.java:414-416 | a cabin holding more riders than its size is not full |
| Cabin.CabinModel.IsThereUsersWithScore | src/main/java/fr/elevator/model/CabinModel.java:315-327 | true exactly when some rider or assigned caller has a positive score |
| Cabin.CabinModel.CabinAlmostFull | src/main/java/fr/elevator/model/CabinModel.java:307-313 | for a non-negative size: almost full exactly when riders are more than 80 percent of the places |
| Cabin.CabinModel.ThereIsUserThatCanLeaveTheElevator | src/main/java/fr/elevator/model/CabinModel.java:235-242 | true exactly when some rider's destination is the current floor |
| Cabin.CabinModel.IsThereUserWithScoreThatCanLeaveElevator | src/main/java/fr/elevator/model/CabinModel.java:209-217 | true exactly when some rider whose destination is this floor still scores |
| Cabin.CabinModel.IsThereUserWithPositiveThatCanTakeTheElevator | src/main/java/fr/elevator/model/CabinModel.java:219-233 | true exactly when some assigned caller at this floor still scores, whatever its direction |
| Cabin.CabinModel.IsThereUserInElevatorDirection | src/main/java/fr/elevator/model/CabinModel.java:252-305 | relaxed mode (nobody scores, or the cabin is almost full): any rider or caller ahead counts. Strict mode: only riders scoring more than 2 and callers scoring more than 4 count |
| Cabin.CabinModel.IsUserEligibleForCabin | src/main/java/fr/elevator/model/CabinModel.java:329-344 | same direction, and at or below the caller going up, at or above it going down |
| Cabin.CabinModel.CalculateUserDirection | src/main/java/fr/elevator/model/CabinModel.java:389-396 | UP exactly when the floor is above the cabin |
| Cabin.CabinModel.CallerFoundIsFirst | src/main/java/fr/elevator/model/CabinModel.java:346-356 | the caller found is the first assigned caller at this floor going that way; none is found exactly when there is no such caller |
| Cabin.CabinModel.LeaverFoundIsFirst | src/main/java/fr/elevator/model/CabinModel.java:398-408 | the rider found is the first one bound for this floor; none is found exactly when nobody can leave here |
| Cabin.CabinModel.AddUserInCabin | src/main/java/fr/elevator/model/CabinModel.java:244-246 | the user is appended to the riders |
| Cabin.CabinModel.RemoveUserFromWaitingList | src/main/java/fr/elevator/model/CabinModel.java:248-250 | the result is true exactly when the user was assigned; its first occurrence goes and the length drops by one only then |
| Cabin.CabinModel.OpenElevatorDoor | src/main/java/fr/elevator/model/CabinModel.java:187-190 | door open and last command OPEN; floor and direction unchanged |
| Cabin.CabinModel.CloseElevatorDoor | src/main/java/fr/elevator/model/CabinModel.java:192-195 | door closed and last command CLOSE; floor and direction unchanged |
| Cabin.CabinModel.Down | src/main/java/fr/elevator/model/CabinModel.java:197-201 | one floor down, direction DOWN, last command DOWN |
| Cabin.CabinModel.Up | src/main/java/fr/elevator/model/CabinModel.java:203-207 | one floor up, direction UP, last command UP |
| Cabin.CabinModel.UpdateScore | src/main/java/fr/elevator/model/CabinModel.java:358-367 | every member is aged once per place in each list and re-scored at the current floor; the riders and callers it leaves are exactly `AgedSeq` of their former values |
| Cabin.CabinModel.AgeMembers | src/main/java/fr/elevator/model/CabinModel.java:358-367 | the two loops together age each member once per place in each list |
| Cabin.CabinModel.AgeWaitingUsers | src/main/java/fr/elevator/model/CabinModel.java:359-362 | the first loop: each assigned caller waits one tick per place in the list and is re-scored |
| Cabin.CabinModel.AgeUsersInCabin | src/main/java/fr/elevator/model/CabinModel.java:363-366 | the second loop: each rider travels one tick per place in the list and is re-scored |
| Cabin.CabinModel.FindNextCommand | src/main/java/fr/elevator/model/CabinModel.java:106-181 | the command returned and the new cabin state are exactly `Decide` of the state before and of the members as `updateScore` ages them |
| Cabin.CabinModel.NextCommand | src/main/java/fr/elevator/model/CabinModel.java:110-129 | the cascade on members already aged gives exactly `Decide` |
| Cabin.CabinModel.ServeOrMove | src/main/java/fr/elevator/model/CabinModel.java:131-148 | after neither close nor forced unload applied, the priority service and the rest give exactly `Decide` |
| Cabin.CabinModel.IdleOrMove | src/main/java/fr/elevator/model/CabinModel.java:150-180 | after no door command applied, idling, the boundary reversal and continue-or-reverse give exactly `Decide` |
| Cabin.DecideClosesThenIdles | src/test/java/fr/elevator/model/CabinModelTest.java:15-44 | an open door gives CLOSE and a closed door; an empty cabin gives NOTHING and keeps its floor |
| Cabin.DecideUnloadsFullCabin | src/test/java/fr/elevator/model/CabinModelTest.java:46-65 | a cabin of one place with a rider for this floor opens up |
| Cabin.DecideOpensForScoringCaller | src/test/java/fr/elevator/model/CabinModelTest.java:67-83 | a scoring caller at this floor going up gives OPEN_UP |
| Cabin.DecideSkipsStaleCaller | src/test/java/fr/elevator/model/CabinModelTest.java:85-105 | a caller who can no longer score is skipped and the cabin goes DOWN to the other caller |
| Cabin.DecideFollowsScoringCaller | src/test/java/fr/elevator/model/CabinModelTest.java:107-130 | a caller here going down with no score (listed twice) is skipped; the cabin goes UP to the scoring caller |
| Cabin.DecideOpensDown | src/test/java/fr/elevator/model/CabinModelTest.java:132-149 | a scoring caller here going down, with no demand above, gives OPEN_DOWN |
| Cabin.EligibilityExamples | src/test/java/fr/elevator/model/CabinModelTest.java:151-238 | the eligibility and caller-search cases the unit tests fix |
| Dispatch.EligibleCabinsSpec | src/main/java/fr/elevator/model/ElevatorModel.java:164-180 | the eligible cabins are exactly the accepting cabins, in fleet order, each once. Accepting means: not holding exactly its size; and either idle or eligible for the caller |
| Dispatch.NearestFromIsNearest | src/main/java/fr/elevator/model/ElevatorModel.java:183-198 | the running minimum keeps the first nearest position seen so far |
| Dispatch.Nearest | src/main/java/fr/elevator/model/ElevatorModel.java:183-198 | the nearest floor, strictly closer than the bound, first on a tie; none exactly when every floor is at the bound or further |
| Dispatch.ChooseCabin | src/main/java/fr/elevator/model/ElevatorModel.java:137-162 | a chosen cabin exists and accepts the caller |
| Dispatch.OnlyAcceptingCabinChosen | src/main/java/fr/elevator/model/ElevatorModel.java:150-154 | when exactly one cabin accepts the caller, the caller goes to that cabin whatever its distance |
| Dispatch.QueueIffNoneAccepts | src/main/java/fr/elevator/model/ElevatorModel.java:141-148 | the caller queues in the pool exactly when no cabin accepts it |
| Dispatch.ChosenCabinIsNearest | src/main/java/fr/elevator/model/ElevatorModel.java:156-197 | among several, the chosen cabin is strictly closer than the building's height and no further than any accepting cabin |
| Dispatch.ChosenCabinIsFirstNearest | src/main/java/fr/elevator/model/ElevatorModel.java:187-195 | the strict `<` of the running minimum: every accepting cabin before the chosen one in fleet order is strictly further from the caller, so the first of equally near cabins wins |
| Dispatch.AcceptingBefore | src/main/java/fr/elevator/model/ElevatorModel.java:164-180 | an accepting cabin with a smaller index than the one listed at position p is listed at an earlier position |
| Dispatch.NoNearestIffAllTooFar | src/main/java/fr/elevator/model/ElevatorModel.java:157-160 | the null dereference happens exactly when several cabins accept and all are at least the building's height away |
| Dispatch.NoNearestAtFullHeight | src/main/java/fr/elevator/model/ElevatorModel.java:187-197 | two idle cabins at floor 0 of floors 0 to 5 and a caller at floor 5 reach the null cabin |
| Dispatch.Placed | src/main/java/fr/elevator/model/ElevatorModel.java:150-161 | the fleet after `getUsersWaitingCabin().add(user)`: exactly the chosen cabin gains the caller at the end of its callers; every other cabin, and the whole fleet for Queue or the null cabin, stays as it was |
| Dispatch.AssignPassShape | src/main/java/fr/elevator/model/ElevatorModel.java:115-117 | the loop on values makes at most one choice per caller, the first on the fleet as given; it stops early only after a null nearest cabin, which is then its last choice and its only null one |
| Dispatch.AssignPassStep | src/main/java/fr/elevator/model/ElevatorModel.java:115-117 | the choice for the caller at position i is `ChooseCabin` on the fleet the first i choices left, and the loop goes on from there unless that choice is the null cabin |
| Dispatch.MadeInTurnStep | src/main/java/fr/elevator/model/ElevatorModel.java:115-117 | one more choice made by `ChooseCabin` on the fleet the earlier ones left keeps the choices made in turn, and that fleet gains the caller as `Placed` says |
| Dispatch.MadeInTurnIsPrefix | src/main/java/fr/elevator/model/ElevatorModel.java:115-117 | choices made in turn with no null cabin among them are the start of the loop's choices, and the rest is the loop on the fleet they left |
| Dispatch.MadeInTurnIsPass | src/main/java/fr/elevator/model/ElevatorModel.java:115-117 | choices made in turn, when the pool is exhausted without a null cabin or when only the last is the null cabin, are exactly the loop's choices |
| Dispatch.StoppedInTurnIsPass | src/main/java/fr/elevator/model/ElevatorModel.java:115-117 | choices made in turn without a null cabin, then the null cabin for the next caller, are all the loop's choices |
| Dispatch.ExhaustedInTurnIsPass | src/main/java/fr/elevator/model/ElevatorModel.java:115-117 | choices made in turn for every caller, none of them the null cabin, are all the loop's choices |
| Dispatch.HandedJoinedStep | src/main/java/fr/elevator/model/ElevatorModel.java:150-161 | one more choice adds its caller to the marked callers unless it queues, and to the end of the callers of exactly the cabin it names |
| Dispatch.HandedAreCallers | src/main/java/fr/elevator/model/ElevatorModel.java:115-119 | only callers of the pool are marked by the loop |
| Dispatch.JoinedAreHanded | src/main/java/fr/elevator/model/ElevatorModel.java:115-119 | whoever is on a cabin's callers after the loop was there before or was marked by the loop |
| Dispatch.HandedAreJoined | src/main/java/fr/elevator/model/ElevatorModel.java:115-119 | when no choice is the null cabin, every caller marked by the loop is on the callers of some cabin |
| Dispatch.InTurnStep | src/main/java/fr/elevator/model/ElevatorModel.java:115-117 | a turn of the running loop keeps its state one choice further: the choices stay made in turn, the caller is marked unless it queues, and the loop has stopped exactly when the new choice is the null cabin |
| Dispatch.DispatchExamples | src/test/java/fr/elevator/model/ElevatorModelTest.java:15-103 | a full cabin is not eligible; an empty one is; cabins going up with scoring riders refuse a caller going down; of cabins at 5 and 3 the first is nearest to 7 |
| Boarding.FirstCallerFromIsFirst | src/main/java/fr/elevator/model/ElevatorModel.java:238-248 | the loop stops at the first cabin that has a caller at its own floor going that way |
| Boarding.BoarderFound | src/main/java/fr/elevator/model/ElevatorModel.java:201-256 | each stage's rider matches that stage's search and every earlier stage found nobody; stage 3 never picks the boarding cabin; nobody boards only when all three searches fail |
| Boarding.OtherFloorCallerBoards | src/main/java/fr/elevator/model/ElevatorModel.java:238-248 | a caller at another cabin's floor, two floors from the boarding cabin, is taken aboard the boarding cabin |
| Boarding.BoardedEffect | src/main/java/fr/elevator/model/ElevatorModel.java:209-253 | the rider joins the boarding cabin and one occurrence leaves one callers' list; all other lists are unchanged. An abnormal entry is logged only when nobody is found, or when a pool rider was not among the cabin's callers |
| Elevator.ElevatorModel.constructor | src/main/java/fr/elevator/model/ElevatorModel.java:25-44 | floors 0 to 5, two cabins of five places, reset once: everything at zero, pristine cabins numbered 0 and 1 |
| Elevator.ElevatorModel.Reset | src/main/java/fr/elevator/model/ElevatorModel.java:276-289 | score, pool and the four counters are 0, and `resetNumber` goes up by one. There are `cabinCount` new cabins with ids 0..n-1 at floor 0, going up, with empty lists. The marks for removal are kept |
| Elevator.ElevatorModel.NewCabins | src/main/java/fr/elevator/model/ElevatorModel.java:286-288 | count new, distinct, pristine cabins numbered in order |
| Elevator.ElevatorModel.UpdateCabinCount | src/main/java/fr/elevator/model/ElevatorModel.java:107-110 | the count is stored and the fleet is emptied |
| Elevator.ElevatorModel.UpdateScore | src/main/java/fr/elevator/model/ElevatorModel.java:291-295 | every pool caller's wait time goes up by exactly 1 and nothing else about it changes |
| Elevator.ElevatorModel.CabinAcceptsUser | src/main/java/fr/elevator/model/ElevatorModel.java:166-178 | the filter on a cabin object is `Accepts` on its values |
| Elevator.ElevatorModel.FindEligibleCabinsFilters | src/main/java/fr/elevator/model/ElevatorModel.java:164-180 | a cabin is listed exactly when its filter accepts the caller, in increasing order |
| Elevator.ElevatorModel.FindNearestCabinForUser | src/main/java/fr/elevator/model/ElevatorModel.java:182-198 | the loop returns `Nearest` of the listed cabins' floors |
| Elevator.ElevatorModel.AssignCabinToUser | src/main/java/fr/elevator/model/ElevatorModel.java:136-162 | the choice is `ChooseCabin` of the fleet before. Queue: the caller joins the pool unless already there, and no mark is added. Otherwise: the caller is marked; it is appended to exactly the chosen cabin's callers; every other cabin is unchanged. The result is `Fail(NullPointer)` exactly for the null cabin. The fleet becomes `Placed` (`CallerHandled`) |
| Elevator.ElevatorModel.Apply | src/main/java/fr/elevator/model/ElevatorModel.java:143-161 | once the choice is made, each branch has exactly the effect `CallerHandled` states on the pool, the marks and every cabin's callers, and the fleet becomes `Placed` |
| Elevator.ElevatorModel.Enqueue | src/main/java/fr/elevator/model/ElevatorModel.java:146 | the caller is appended to the pool; the fleet is unchanged |
| Elevator.ElevatorModel.Mark | src/main/java/fr/elevator/model/ElevatorModel.java:152 | the caller is appended to the marks; the fleet is unchanged |
| Elevator.ElevatorModel.SelectCabin | src/main/java/fr/elevator/model/ElevatorModel.java:139-158 | the choice is `ChooseCabin` of the fleet, and a chosen cabin exists; the fleet is unchanged |
| Elevator.ElevatorModel.AddCaller | src/main/java/fr/elevator/model/ElevatorModel.java:153 | the caller is appended to that cabin's callers and to no other |
| Elevator.ElevatorModel.JoinCabin | src/main/java/fr/elevator/model/ElevatorModel.java:153 | in the fleet as values, the caller joins the chosen cabin as `Placed` says |
| Elevator.ElevatorModel.AppendCaller | src/main/java/fr/elevator/model/ElevatorModel.java:153 | the chosen cabin shows one more caller at the end of its callers; every other cabin shows what it showed |
| Elevator.ElevatorModel.CallAtFloor | src/main/java/fr/elevator/model/ElevatorModel.java:131-134 | one more user counted. The fresh caller, in no list before, goes where `ChooseCabin` on the fleet before sends it, and only there (`CallerHandled`). If no cabin accepts, it joins the pool. Otherwise it is marked and appended to exactly the chosen cabin's callers. For the null cabin it is marked and the result is `Fail(NullPointer)` |
| Elevator.ElevatorModel.NewCaller | src/main/java/fr/elevator/model/ElevatorModel.java:132-133 | one more user counted; a fresh caller with a new user's values, in no list; the fleet unchanged |
| Elevator.ElevatorModel.FloorToGo | src/main/java/fr/elevator/model/ElevatorModel.java:201-256 | the rider is `ChooseBoarder`; the lists become `Boarded`; the abnormal count grows by `AbnormalEntries`. The rider's data become its old data with the destination set, and nobody else's data change. A bad index is the exception, with lists, count and every user's data unchanged |
| Elevator.ElevatorModel.ApplyBoarder | src/main/java/fr/elevator/model/ElevatorModel.java:209-253 | once the rider is chosen, the lists become `Boarded` and the count grows by `AbnormalEntries`. The rider's data become its old data with the destination set; every other user's data are unchanged |
| Elevator.ElevatorModel.BoardCaller | src/main/java/fr/elevator/model/ElevatorModel.java:209-235 | stages 1 and 2 give `Boarded` and `AbnormalEntries`; the rider's data become its old data with the destination set |
| Elevator.ElevatorModel.BoardOtherCaller | src/main/java/fr/elevator/model/ElevatorModel.java:238-248 | stage 3 gives `Boarded`; the rider's data become its old data with the destination set |
| Elevator.ElevatorModel.SelectBoarder | src/main/java/fr/elevator/model/ElevatorModel.java:207-248 | the three searches on the objects give `ChooseBoarder` on their values |
| Elevator.ElevatorModel.FindCallerInFleet | src/main/java/fr/elevator/model/ElevatorModel.java:238-248 | the loop returns `FirstCallerFrom` |
| Elevator.ElevatorModel.Board | src/main/java/fr/elevator/model/ElevatorModel.java:211-216 | destination set, rider appended, first occurrence removed from the cabin's callers; abnormal exactly when the cabin was not waiting for that rider |
| Elevator.ElevatorModel.BoardFromOther | src/main/java/fr/elevator/model/ElevatorModel.java:240-246 | the caller leaves the other cabin's callers, gets its destination and joins the boarding cabin |
| Elevator.ElevatorModel.UserHasExited | src/main/java/fr/elevator/model/ElevatorModel.java:258-274 | one more happy user. The first rider bound for this floor leaves and adds its score; if there is none, one more abnormal exit. A bad index is the exception, with nothing changed |
| Elevator.ElevatorModel.CountExit | src/main/java/fr/elevator/model/ElevatorModel.java:263-273 | the same, past the index check |
| Elevator.ElevatorModel.ExitRider | src/main/java/fr/elevator/model/ElevatorModel.java:265-272 | the rider removed is exactly the first one bound for the floor, and the gain is that rider's score |
| Elevator.ElevatorModel.AssignWaitingUsers | src/main/java/fr/elevator/model/ElevatorModel.java:115-117 | the loop's choices are `AssignPass` of the fleet and the pool's values before it. Each caller, in pool order, gets `ChooseCabin` on the fleet the earlier choices left, and the loop stops exactly after the first null cabin. The callers marked are exactly the ones not queued (`Handed`). Each cabin's callers are its old ones followed by the callers chosen for it, in pool order (`Joined`). The pool is unchanged |
| Elevator.ElevatorModel.AssignPoolCaller | src/main/java/fr/elevator/model/ElevatorModel.java:115-117 | one turn of the loop: the caller gets `ChooseCabin` on the fleet the earlier choices left; it is marked unless it queues and is appended to the chosen cabin only; the loop's state (`InPoolLoop`) is kept one choice further |
| Elevator.ElevatorModel.AssignCallerInTurn | src/main/java/fr/elevator/model/ElevatorModel.java:137-162 | for a caller already in the pool, the pool is unchanged. The choice extends the choices made in turn, and the fleet becomes the one they leave. The caller is marked unless it queues and is appended to exactly the chosen cabin. The result fails exactly for the null cabin |
| Elevator.ElevatorModel.AssignAndClean | src/main/java/fr/elevator/model/ElevatorModel.java:113-120 | every caller of the pool before the tick has waited exactly one tick more and nothing else about it changed; the cabins' states and riders are unchanged; then `Assigned` of the pool, marks and cabins' callers before the tick (see `AssignAndRemove`) |
| Elevator.ElevatorModel.AssignAndRemove | src/main/java/fr/elevator/model/ElevatorModel.java:115-120 | `Assigned`: the choices and cabins' callers are as `AssignWaitingUsers` states. Without the null cabin, the pool loses exactly the marked callers, old and new, and the marks are cleared. With it, the pool is as it was and the new marks are pending |
| Elevator.ElevatorModel.RemoveMarked | src/main/java/fr/elevator/model/ElevatorModel.java:119-120 | the pool keeps exactly the callers not marked (`RemoveAll`) and stays free of duplicates; the marks are cleared |
| Elevator.ElevatorModel.AssignedLists | src/main/java/fr/elevator/model/ElevatorModel.java:115-120 | after the loop and the clean-up, the marked callers come from the pool. Anyone on a cabin's callers was there before or was marked. Without the null cabin, every marked caller is on some cabin's callers |
| Elevator.ElevatorModel.FindNextCommand | src/main/java/fr/elevator/model/ElevatorModel.java:112-129 | the assignment part is `Assigned` of the pool, marks and cabins' callers before the tick, and the riders lists are unchanged. The null cabin is the exception, with no cabin state changed. Otherwise there is one command per cabin, in fleet order. Each is one that `Decide` gives from the cabin's configuration and state before the tick, for values of its members left unnamed (see "Left out") |
| Elevator.ElevatorModel.CollectCommands | src/main/java/fr/elevator/model/ElevatorModel.java:122-126 | one command per cabin, in order; each is one that `Decide` gives from the cabin's configuration and state before the call, for values of its members left unnamed (see "Left out"); no list changes |
| Elevator.ElevatorModel.StepCabin | src/main/java/fr/elevator/model/ElevatorModel.java:123-125 | the cabin's command and new state are what `Decide` gives from its configuration and state before, for values of its members left unnamed (see "Left out") |

In full, `Cabin.Decide` states that:

- every command is one the cabin may issue, with exactly its effect on the state;
- CLOSE is returned exactly when the door was open;
- an open command is returned exactly for the forced unload or the priority service, and never right after a CLOSE;
- at the lowest floor any opening is OPEN_UP, and at the highest floor OPEN_DOWN;
- in between, the priority service opens toward the side the cabin would move to (`Cabin.PriorityOpensTowardDemand`);
- NOTHING is returned exactly when the door is closed and nobody is aboard or assigned;
- a move changes the floor by one, only with the door closed, and sets the direction and the last command to match;
- a move goes up at the lowest floor and down at the highest floor, and otherwise follows the demand ahead;
- a cabin inside a proper range of floors stays inside it.

## Left out

- The REST layer and the web application are not part of this model. They are transport around the engine.
- Logging calls are left out.
- The singleton accessor is left out. The engine is an explicitly constructed object.
- `synchronized` is left out. The model is sequential.
- The static `CABIN_ID` counter is not modelled. A cabin's id is the index that `reset` gives it, which is the value the counter produces after `reset` sets it to 0.
- `score` and `stillCanScore` are `Double` in the source, but they only ever hold integers. They are `int` here.
- `cabinThreeshold` multiplies by 0.8 in floating point and truncates. The model truncates `4 * size / 5` exactly. This can differ from the floating-point product only where that product rounds below an integer.
- The Guava `Iterables`, `Predicate` and `Optional` calls are sequence functions here. Searches return positions rather than objects.
- Integers are unbounded. Java's 32-bit overflow of counters, floors and times is not modelled.
- Getters, plain setters of the engine and the cabin, `toString` and the unused `hasElevator` flag are left out. The test scenarios that set a cabin's floor or direction directly are stated on values instead.
- A null calling floor (`Integer`) is not modelled.
- Comparisons of a rider's destination against a floor treat a missing destination as no match. The source would unbox null there and throw. A rider always has a destination once aboard.
- A negative cabin count makes `Lists.newArrayListWithExpectedSize` throw. The model builds an empty fleet instead.
- Elevator.ElevatorModel.FindNextCommand: the members each cabin decided on are not named. Each cabin's `FindNextCommand` states them: its members as `updateScore` ages them (`Cabin.CabinModel.FindNextCommand`). Carrying that through the loop over the fleet is out of reach of the verifier's resource limit. A user listed by two cabins is aged by both, as in the source.
- Elevator.ElevatorModel.StepCabin: for the same reason, it does not restate which members the cabin decided on.
- Elevator.ElevatorModel.CollectCommands: for the same reason, the members each cabin decided on are not named. Its contract gives each cabin's command as one `Decide` gives from the cabin's configuration and state before the call, for some values of its members.
- Elevator.ElevatorModel.FindNextCommand: the ageing of the pool is stated on `Elevator.ElevatorModel.AssignAndClean`, not on the whole tick. The cabins' `updateScore` ages again any user a cabin lists, and the tick's contract does not say what any user's data become.
