/** One cabin: its floor, direction, door, last command, the riders aboard and
    the callers assigned to it, and the once-per-tick choice of its next command. */
module Cabin {
  import opened Common
  import opened ElevatorMath

  /** The part of a cabin that the next-command decision changes. */
  datatype CabinState = CabinState(
    floor: int,
    direction: Direction,
    doorOpened: bool,
    lastCommand: Option<CabinCommand>)   // null in the source until the first command

  /** The part fixed when the cabin is built. */
  datatype CabinConfig = CabinConfig(lowerFloor: int, higherFloor: int, cabinSize: int)

  /** A decision: the command returned and the cabin state it leaves behind. */
  datatype Step = Step(command: CabinCommand, next: CabinState)

  // ---------------------------------------------------------------------------
  // Queries over the two user lists (riders aboard, callers assigned)
  // ---------------------------------------------------------------------------

  /** cabinThreeshold: the integer part of 0.8 * cabinSize (cast truncates toward zero). */
  function CabinThreshold(size: int): (t: int)
    ensures 0 <= size ==> 0 <= t && 5 * t <= 4 * size < 5 * t + 5
    ensures size < 0 ==> t <= 0 && 5 * t - 5 < 4 * size <= 5 * t
  {
    if size >= 0 then (4 * size) / 5 else -((-4 * size) / 5)
  }

  /** cabinAlmostFull: more riders than the threshold. */
  predicate AlmostFull(riders: seq<UserData>, size: int)
  {
    |riders| > CabinThreshold(size)
  }

  /** isThereUsersWithScore: some rider or assigned caller can still score. */
  predicate HasScoringMember(riders: seq<UserData>, waiters: seq<UserData>)
  {
    (exists i :: 0 <= i < |riders| && riders[i].stillCanScore > 0) ||
    (exists i :: 0 <= i < |waiters| && waiters[i].stillCanScore > 0)
  }

  /** thereIsUserThatCanLeaveTheElevator: a rider's destination is this floor. */
  predicate CanLeaveAt(riders: seq<UserData>, floor: int)
  {
    exists i :: 0 <= i < |riders| && riders[i].floorToGo == Some(floor)
  }

  /** isThereUserWithScoreThatCanLeaveElevator */
  predicate ScoringLeaverAt(riders: seq<UserData>, floor: int)
  {
    exists i :: 0 <= i < |riders| && riders[i].floorToGo == Some(floor) && riders[i].stillCanScore > 0
  }

  /** isThereUserWithPositiveThatCanTakeTheElevator: the caller's direction is not looked at. */
  predicate ScoringBoarderAt(waiters: seq<UserData>, floor: int)
  {
    exists i :: 0 <= i < |waiters| && waiters[i].comingFrom == floor && waiters[i].stillCanScore > 0
  }

  /** A rider whose destination lies strictly beyond floor in direction dir. */
  predicate RiderAhead(u: UserData, floor: int, dir: Direction)
  {
    match u.floorToGo
    case None => false
    case Some(dest) => if dir == Up then floor < dest else floor > dest
  }

  /** A caller beyond floor in direction dir, or at floor and going dir. */
  predicate WaiterAhead(u: UserData, floor: int, dir: Direction)
  {
    if dir == Up then floor < u.comingFrom || (floor == u.comingFrom && u.direction == Up)
    else floor > u.comingFrom || (floor == u.comingFrom && u.direction == Down)
  }

  /** The relaxed mode of the demand test (and the forced-unload trigger):
      nobody can score any more, or the cabin is almost full. */
  predicate Relaxed(cfg: CabinConfig, riders: seq<UserData>, waiters: seq<UserData>)
  {
    !HasScoringMember(riders, waiters) || AlmostFull(riders, cfg.cabinSize)
  }

  /** isThereUserInElevatorDirection: in strict mode a rider must still score
      more than 2 and a caller more than 4 to count as demand. */
  predicate DemandAhead(cfg: CabinConfig, riders: seq<UserData>, waiters: seq<UserData>, floor: int, dir: Direction)
  {
    var relaxed := Relaxed(cfg, riders, waiters);
    (exists i :: 0 <= i < |riders| && RiderAhead(riders[i], floor, dir) && (relaxed || riders[i].stillCanScore > 2)) ||
    (exists i :: 0 <= i < |waiters| && WaiterAhead(waiters[i], floor, dir) && (relaxed || waiters[i].stillCanScore > 4))
  }

  /** isUserEligibleForCabin: same direction, and the cabin has not yet passed the caller. */
  function Eligible(s: CabinState, u: UserData): (b: bool)
    ensures b <==> u.direction == s.direction &&
                   (s.direction == Up ==> s.floor <= u.comingFrom) &&
                   (s.direction == Down ==> s.floor >= u.comingFrom)
  {
    if u.direction != s.direction then false
    else if s.direction == Up then s.floor <= u.comingFrom
    else assert s.direction.Down?; s.floor >= u.comingFrom
  }

  /** calculateUserDirection: Up only for a destination strictly above the cabin. */
  function UserDirection(floor: int, target: int): (d: Direction)
    ensures d == Up <==> target > floor
  {
    if target > floor then Up else Down
  }

  // ---------------------------------------------------------------------------
  // The next-command decision
  // ---------------------------------------------------------------------------

  /** What each command does to the cabin, and when it may be issued at all. */
  predicate CommandEffect(before: CabinState, cmd: CabinCommand, after: CabinState)
  {
    match cmd
    case Close =>
      before.doorOpened && after == before.(doorOpened := false, lastCommand := Some(Close))
    case OpenUp =>
      !before.doorOpened && before.lastCommand != Some(Close) &&
      after == before.(doorOpened := true, lastCommand := Some(Open))
    case OpenDown =>
      !before.doorOpened && before.lastCommand != Some(Close) &&
      after == before.(doorOpened := true, lastCommand := Some(Open))
    case Nothing =>
      !before.doorOpened && after == before.(lastCommand := Some(Nothing))
    case MoveUp =>
      !before.doorOpened &&
      after == before.(floor := before.floor + 1, direction := Up, lastCommand := Some(MoveUp))
    case MoveDown =>
      !before.doorOpened &&
      after == before.(floor := before.floor - 1, direction := Down, lastCommand := Some(MoveDown))
    case Open => false
  }

  predicate IsOpen(cmd: CabinCommand) { cmd == OpenUp || cmd == OpenDown }

  /** The open command: the bottom floor opens up, the top floor opens down,
      elsewhere upward decides. */
  function OpenCommand(cfg: CabinConfig, floor: int, upward: bool): CabinCommand
  {
    if floor == cfg.lowerFloor then OpenUp
    else if floor == cfg.higherFloor then OpenDown
    else if upward then OpenUp
    else OpenDown
  }

  /** The forced unload of step 2: relaxed mode and somebody can leave here. */
  predicate ForcedUnload(cfg: CabinConfig, s: CabinState, riders: seq<UserData>, waiters: seq<UserData>)
  {
    Relaxed(cfg, riders, waiters) && CanLeaveAt(riders, s.floor) && s.lastCommand != Some(Close)
  }

  /** The priority service of step 3: a scoring rider leaves here, or a
      scoring caller boards here while there is room. */
  predicate PriorityService(cfg: CabinConfig, s: CabinState, riders: seq<UserData>, waiters: seq<UserData>)
  {
    s.lastCommand != Some(Close) &&
    (ScoringLeaverAt(riders, s.floor) ||
     (ScoringBoarderAt(waiters, s.floor) && |riders| < cfg.cabinSize))
  }

  /** findNextCommand, after the members have been aged: the ordered cascade
      door open, forced unload, priority service, idle, boundary reversal,
      continue or reverse. */
  function Decide(cfg: CabinConfig, s: CabinState, riders: seq<UserData>, waiters: seq<UserData>): (r: Step)
    // every command is one the cabin may issue, with exactly its effect
    ensures CommandEffect(s, r.command, r.next)
    ensures r.command == Close <==> s.doorOpened
    // opening: only for one of the two reasons, never right after a close
    ensures IsOpen(r.command) <==>
      !s.doorOpened && (ForcedUnload(cfg, s, riders, waiters) || PriorityService(cfg, s, riders, waiters))
    ensures IsOpen(r.command) && s.floor == cfg.lowerFloor ==> r.command == OpenUp
    ensures IsOpen(r.command) && s.floor == cfg.higherFloor && s.floor != cfg.lowerFloor ==> r.command == OpenDown
    ensures IsOpen(r.command) && ForcedUnload(cfg, s, riders, waiters) ==>
      r.command == OpenCommand(cfg, s.floor, s.direction == Up)
    // idle exactly when nobody is aboard or assigned and nothing else applies
    ensures r.command == Nothing <==> !s.doorOpened && riders == [] && waiters == []
    // moving: at the bottom go up, at the top go down, elsewhere follow the demand
    ensures r.command == MoveUp || r.command == MoveDown ==>
      !s.doorOpened && (riders != [] || waiters != []) && !IsOpen(r.command) &&
      !ForcedUnload(cfg, s, riders, waiters) && !PriorityService(cfg, s, riders, waiters)
    ensures (r.command == MoveUp || r.command == MoveDown) && s.floor == cfg.lowerFloor ==> r.command == MoveUp
    ensures (r.command == MoveUp || r.command == MoveDown) && s.floor == cfg.higherFloor && s.floor != cfg.lowerFloor ==>
      r.command == MoveDown
    ensures (r.command == MoveUp || r.command == MoveDown) && s.floor != cfg.lowerFloor && s.floor != cfg.higherFloor ==>
      (r.command == MoveUp <==> ((s.direction == Up) == DemandAhead(cfg, riders, waiters, s.floor, s.direction)))
    // a cabin inside a proper range stays inside it
    ensures cfg.lowerFloor < cfg.higherFloor && cfg.lowerFloor <= s.floor <= cfg.higherFloor ==>
      cfg.lowerFloor <= r.next.floor <= cfg.higherFloor
  {
    if s.doorOpened then
      Step(Close, s.(doorOpened := false, lastCommand := Some(Close)))
    else if ForcedUnload(cfg, s, riders, waiters) then
      Step(OpenCommand(cfg, s.floor, s.direction == Up), s.(doorOpened := true, lastCommand := Some(Open)))
    else
      var ahead := DemandAhead(cfg, riders, waiters, s.floor, s.direction);
      if PriorityService(cfg, s, riders, waiters) then
        var upward := (s.direction == Up && ahead) || (s.direction == Down && !ahead);
        Step(OpenCommand(cfg, s.floor, upward), s.(doorOpened := true, lastCommand := Some(Open)))
      else if riders == [] && waiters == [] then
        Step(Nothing, s.(lastCommand := Some(Nothing)))
      else if s.floor == cfg.lowerFloor then
        Step(MoveUp, s.(floor := s.floor + 1, direction := Up, lastCommand := Some(MoveUp)))
      else if s.floor == cfg.higherFloor then
        Step(MoveDown, s.(floor := s.floor - 1, direction := Down, lastCommand := Some(MoveDown)))
      else if (s.direction == Up) == ahead then
        Step(MoveUp, s.(floor := s.floor + 1, direction := Up, lastCommand := Some(MoveUp)))
      else
        Step(MoveDown, s.(floor := s.floor - 1, direction := Down, lastCommand := Some(MoveDown)))
  }

  /** The priority service opens toward the side the cabin would move to:
      on with its direction when there is demand ahead, against it otherwise
      (the boundary floors fix the side, as for every opening). */
  lemma PriorityOpensTowardDemand(cfg: CabinConfig, s: CabinState, riders: seq<UserData>, waiters: seq<UserData>)
    ensures var r := Decide(cfg, s, riders, waiters);
      IsOpen(r.command) && !ForcedUnload(cfg, s, riders, waiters) ==>
        r.command == OpenCommand(cfg, s.floor, (s.direction == Up) == DemandAhead(cfg, riders, waiters, s.floor, s.direction))
  {
  }

  /** updateScore on one member: aged by `waits` waiting ticks and `travels`
      travelling ticks, then re-scored at the cabin's floor. */
  function Aged(d: UserData, waits: nat, travels: nat, floor: int): UserData
  {
    var a := d.(waitTime := d.waitTime + waits, travelTime := d.travelTime + travels);
    a.(stillCanScore := CalculateBestScore(a, floor))
  }

  /** The values vals of the users us once updateScore has aged them: each
      by one waiting tick per place in waiting and one travelling tick per
      place in riding, re-scored at floor. */
  function AgedSeq(vals: seq<UserData>, us: seq<User>, waiting: seq<User>, riding: seq<User>, floor: int): (r: seq<UserData>)
    requires |vals| == |us|
    ensures |r| == |us|
    ensures forall k :: 0 <= k < |us| ==>
      r[k] == Aged(vals[k], multiset(waiting)[us[k]], multiset(riding)[us[k]], floor)
  {
    if us == [] then []
    else [Aged(vals[0], multiset(waiting)[us[0]], multiset(riding)[us[0]], floor)] +
         AgedSeq(vals[1..], us[1..], waiting, riding, floor)
  }

  /** A list whose users now hold their former values vals, aged, shows
      AgedSeq of them. */
  lemma AgedValues(us: seq<User>, waiting: seq<User>, riding: seq<User>, floor: int, vals: seq<UserData>)
    requires |vals| == |us|
    requires forall k :: 0 <= k < |us| ==>
      us[k].Data() == Aged(vals[k], multiset(waiting)[us[k]], multiset(riding)[us[k]], floor)
    ensures Snapshot(us) == AgedSeq(vals, us, waiting, riding, floor)
  {
  }

  /** Ageing an aged member (or a member not aged yet) adds up the ticks. */
  lemma AgedAgain(d: UserData, now: UserData, waits: nat, travels: nat, moreWaits: nat, moreTravels: nat, floor: int)
    requires now == (if waits + travels == 0 then d else Aged(d, waits, travels, floor))
    ensures Aged(now, moreWaits, moreTravels, floor) == Aged(d, waits + moreWaits, travels + moreTravels, floor)
  {
  }

  /** One step of the waiting loop of updateScore, through the rider's setters. */
  method WaitOneTick(user: User, floor: int)
    modifies user
    ensures user.waitTime == old(user.waitTime) + 1
    ensures user.travelTime == old(user.travelTime) && user.comingFrom == old(user.comingFrom)
    ensures user.direction == old(user.direction) && user.floorToGo == old(user.floorToGo)
    ensures user.stillCanScore == CalculateBestScore(user.Data(), floor)
  {
    user.SetWaitTime(user.waitTime + 1);
    user.SetStillCanScore(CalculateBestScore(user.Data(), floor));
  }

  /** One step of the riding loop of updateScore, through the rider's setters. */
  method TravelOneTick(user: User, floor: int)
    modifies user
    ensures user.travelTime == old(user.travelTime) + 1
    ensures user.waitTime == old(user.waitTime) && user.comingFrom == old(user.comingFrom)
    ensures user.direction == old(user.direction) && user.floorToGo == old(user.floorToGo)
    ensures user.stillCanScore == CalculateBestScore(user.Data(), floor)
  {
    user.SetTravelTime(user.travelTime + 1);
    user.SetStillCanScore(CalculateBestScore(user.Data(), floor));
  }

  /** A record whose ticks went up by waits and travels, whose other fields
      are untouched and whose score was recomputed, is the aged record. */
  lemma AgedFromFields(d: UserData, now: UserData, waits: nat, travels: nat, floor: int)
    requires now.waitTime == d.waitTime + waits && now.travelTime == d.travelTime + travels
    requires now.comingFrom == d.comingFrom && now.direction == d.direction && now.floorToGo == d.floorToGo
    requires now.stillCanScore == CalculateBestScore(now, floor)
    ensures now == Aged(d, waits, travels, floor)
  {
  }

  // ---------------------------------------------------------------------------
  // The cabin object
  // ---------------------------------------------------------------------------

  class CabinModel {
    const id: int
    const lowerFloor: int
    const higherFloor: int
    const cabinSize: int

    var usersInCabin: seq<User>        // riders aboard
    var usersWaitingCabin: seq<User>   // callers assigned to this cabin
    var currentFloor: int
    var doorOpened: bool
    var lastCommand: Option<CabinCommand>
    var elevatorDirection: Direction

    /** A new cabin stands at floor 0 (whatever the range), going up, door
        closed, no command yet, nobody aboard or assigned. */
    constructor (lowerFloor: int, higherFloor: int, cabinSize: int, id: int)
      ensures Configuration() == CabinConfig(lowerFloor, higherFloor, cabinSize) && this.id == id
      ensures State() == CabinState(0, Direction.Up, false, None)
      ensures usersInCabin == [] && usersWaitingCabin == []
    {
      this.lowerFloor := lowerFloor;
      this.higherFloor := higherFloor;
      this.cabinSize := cabinSize;
      this.id := id;
      elevatorDirection := Direction.Up;
      currentFloor := 0;
      doorOpened := false;
      lastCommand := None;
      usersInCabin := [];
      usersWaitingCabin := [];
    }

    function Configuration(): CabinConfig
    {
      CabinConfig(lowerFloor, higherFloor, cabinSize)
    }

    function State(): CabinState
      reads this
    {
      CabinState(currentFloor, elevatorDirection, doorOpened, lastCommand)
    }

    function Riders(): seq<UserData>
      reads this`usersInCabin, usersInCabin
    {
      Snapshot(usersInCabin)
    }

    function Waiters(): seq<UserData>
      reads this`usersWaitingCabin, usersWaitingCabin
    {
      Snapshot(usersWaitingCabin)
    }

    /** The riders and the assigned callers as updateScore leaves them. */
    function AgedRiders(): seq<UserData>
      reads this, usersInCabin
    {
      AgedSeq(Riders(), usersInCabin, usersWaitingCabin, usersInCabin, currentFloor)
    }

    function AgedWaiters(): seq<UserData>
      reads this, usersWaitingCabin
    {
      AgedSeq(Waiters(), usersWaitingCabin, usersWaitingCabin, usersInCabin, currentFloor)
    }

    function IsEmpty(): (b: bool)
      reads this
      ensures b <==> usersInCabin == [] && usersWaitingCabin == []
    {
      |usersInCabin| == 0 && |usersWaitingCabin| == 0
    }

    /** isFull compares with ==, so a cabin boarded past its size is not full. */
    function IsFull(): (b: bool)
      reads this
      ensures |usersInCabin| > cabinSize ==> !b
    {
      |usersInCabin| == cabinSize
    }

    function IsThereUsersWithScore(): (b: bool)
      reads this, usersInCabin, usersWaitingCabin
      ensures b <==> (exists u :: u in usersInCabin && u.stillCanScore > 0) ||
                     (exists u :: u in usersWaitingCabin && u.stillCanScore > 0)
    {
      HasScoringMember(Riders(), Waiters())
    }

    /** More riders than 80 percent of the places. */
    function CabinAlmostFull(): (b: bool)
      reads this, usersInCabin
      ensures cabinSize >= 0 ==> (b <==> 5 * |usersInCabin| > 4 * cabinSize)
    {
      AlmostFull(Riders(), cabinSize)
    }

    function ThereIsUserThatCanLeaveTheElevator(): (b: bool)
      reads this, usersInCabin
      ensures b <==> exists u :: u in usersInCabin && u.floorToGo == Some(currentFloor)
    {
      CanLeaveAt(Riders(), currentFloor)
    }

    function IsThereUserWithScoreThatCanLeaveElevator(): (b: bool)
      reads this, usersInCabin
      ensures b <==> exists u :: u in usersInCabin && u.floorToGo == Some(currentFloor) && u.stillCanScore > 0
    {
      ScoringLeaverAt(Riders(), currentFloor)
    }

    function IsThereUserWithPositiveThatCanTakeTheElevator(): (b: bool)
      reads this, usersWaitingCabin
      ensures b <==> exists u :: u in usersWaitingCabin && u.comingFrom == currentFloor && u.stillCanScore > 0
    {
      ScoringBoarderAt(Waiters(), currentFloor)
    }

    /** Demand in direction d: with nobody scoring or the cabin almost full any
        rider or caller ahead counts, otherwise only riders still scoring more
        than 2 and callers more than 4. */
    function IsThereUserInElevatorDirection(d: Direction): (b: bool)
      reads this, usersInCabin, usersWaitingCabin
      ensures var relaxed := !IsThereUsersWithScore() || CabinAlmostFull();
        b <==>
          (exists u :: u in usersInCabin && RiderAhead(u.Data(), currentFloor, d) && (relaxed || u.stillCanScore > 2)) ||
          (exists u :: u in usersWaitingCabin && WaiterAhead(u.Data(), currentFloor, d) && (relaxed || u.stillCanScore > 4))
    {
      DemandAhead(Configuration(), Riders(), Waiters(), currentFloor, d)
    }

    function IsUserEligibleForCabin(u: User): (b: bool)
      reads this, u
      ensures b <==> u.direction == elevatorDirection &&
                     (elevatorDirection == Direction.Up ==> currentFloor <= u.comingFrom) &&
                     (elevatorDirection == Direction.Down ==> currentFloor >= u.comingFrom)
    {
      Eligible(State(), u.Data())
    }

    function CalculateUserDirection(floor: int): (d: Direction)
      reads this
      ensures d == Direction.Up <==> floor > currentFloor
    {
      UserDirection(currentFloor, floor)
    }

    /** findUserCallingFromWithDirection: position of the first assigned caller
        at this cabin's own floor going d. */
    function FindUserCallingFromWithDirection(d: Direction): Option<nat>
      reads this, usersWaitingCabin
    {
      FindFirst(Waiters(), CallingFrom(currentFloor, d))
    }

    /** The caller found is the first one at this floor going d, and none is
        found exactly when no caller is at this floor going d. */
    lemma CallerFoundIsFirst(d: Direction)
      ensures var r := FindUserCallingFromWithDirection(d);
        (r.Some? ==>
          r.value < |usersWaitingCabin| && usersWaitingCabin[r.value].comingFrom == currentFloor &&
          usersWaitingCabin[r.value].direction == d &&
          forall j :: 0 <= j < r.value ==>
            !(usersWaitingCabin[j].comingFrom == currentFloor && usersWaitingCabin[j].direction == d)) &&
        (r.None? <==> forall u :: u in usersWaitingCabin ==> !(u.comingFrom == currentFloor && u.direction == d))
    {
    }

    /** findUserThatCanLeave: position of the first rider whose destination is this floor. */
    function FindUserThatCanLeave(): Option<nat>
      reads this, usersInCabin
    {
      FindFirst(Riders(), LeavingAt(currentFloor))
    }

    /** The rider found is the first one bound for this floor, and none is
        found exactly when no rider can leave here. */
    lemma LeaverFoundIsFirst()
      ensures var r := FindUserThatCanLeave();
        (r.Some? ==>
          r.value < |usersInCabin| && usersInCabin[r.value].floorToGo == Some(currentFloor) &&
          forall j :: 0 <= j < r.value ==> usersInCabin[j].floorToGo != Some(currentFloor)) &&
        (r.None? <==> !ThereIsUserThatCanLeaveTheElevator())
    {
    }

    /** addUserInCabin */
    method AddUserInCabin(u: User)
      modifies this`usersInCabin
      ensures usersInCabin == old(usersInCabin) + [u]
    {
      usersInCabin := usersInCabin + [u];
    }

    /** removeUserFromWaitingList: List.remove, which reports whether u was listed. */
    method RemoveUserFromWaitingList(u: User) returns (removed: bool)
      modifies this`usersWaitingCabin
      ensures removed <==> u in old(usersWaitingCabin)
      ensures usersWaitingCabin == RemoveFirst(old(usersWaitingCabin), u)
      ensures |usersWaitingCabin| == if removed then |old(usersWaitingCabin)| - 1 else |old(usersWaitingCabin)|
    {
      removed := u in usersWaitingCabin;
      usersWaitingCabin := RemoveFirst(usersWaitingCabin, u);
    }

    method OpenElevatorDoor()
      modifies this`lastCommand, this`doorOpened
      ensures State() == old(State()).(doorOpened := true, lastCommand := Some(Open))
    {
      lastCommand := Some(Open);
      doorOpened := true;
    }

    method CloseElevatorDoor()
      modifies this`lastCommand, this`doorOpened
      ensures State() == old(State()).(doorOpened := false, lastCommand := Some(Close))
    {
      lastCommand := Some(Close);
      doorOpened := false;
    }

    method Down()
      modifies this`lastCommand, this`currentFloor, this`elevatorDirection
      ensures State() == old(State()).(floor := old(currentFloor) - 1, direction := Direction.Down, lastCommand := Some(MoveDown))
    {
      lastCommand := Some(MoveDown);
      currentFloor := currentFloor - 1;
      elevatorDirection := Direction.Down;
    }

    method Up()
      modifies this`lastCommand, this`currentFloor, this`elevatorDirection
      ensures State() == old(State()).(floor := old(currentFloor) + 1, direction := Direction.Up, lastCommand := Some(MoveUp))
    {
      lastCommand := Some(MoveUp);
      currentFloor := currentFloor + 1;
      elevatorDirection := Direction.Up;
    }

    /** updateScore: every assigned caller waits one more tick and every rider
        travels one more tick (once per occurrence in the lists, since a user
        can be listed twice), and each is re-scored at the current floor. */
    method UpdateScore()
      modifies usersWaitingCabin, usersInCabin
      ensures forall u :: u in usersWaitingCabin || u in usersInCabin ==>
        u.Data() == Aged(old(u.Data()), multiset(usersWaitingCabin)[u], multiset(usersInCabin)[u], currentFloor)
      ensures Riders() == old(AgedRiders()) && Waiters() == old(AgedWaiters())
    {
      ghost var riders, waiters := Riders(), Waiters();
      AgeMembers();
      forall k | 0 <= k < |usersInCabin|
        ensures usersInCabin[k].Data() ==
          Aged(riders[k], multiset(usersWaitingCabin)[usersInCabin[k]], multiset(usersInCabin)[usersInCabin[k]], currentFloor)
      {
        assert usersInCabin[k] in usersInCabin;
      }
      forall k | 0 <= k < |usersWaitingCabin|
        ensures usersWaitingCabin[k].Data() ==
          Aged(waiters[k], multiset(usersWaitingCabin)[usersWaitingCabin[k]], multiset(usersInCabin)[usersWaitingCabin[k]], currentFloor)
      {
        assert usersWaitingCabin[k] in usersWaitingCabin;
      }
      AgedValues(usersInCabin, usersWaitingCabin, usersInCabin, currentFloor, riders);
      AgedValues(usersWaitingCabin, usersWaitingCabin, usersInCabin, currentFloor, waiters);
    }

    /** The two loops of updateScore, one after the other. */
    method AgeMembers()
      modifies usersWaitingCabin, usersInCabin
      ensures forall u :: u in usersWaitingCabin || u in usersInCabin ==>
        u.Data() == Aged(old(u.Data()), multiset(usersWaitingCabin)[u], multiset(usersInCabin)[u], currentFloor)
    {
      AgeWaitingUsers();
      label waited:
      AgeUsersInCabin();
      forall u | u in usersWaitingCabin || u in usersInCabin
        ensures u.Data() == Aged(old(u.Data()), multiset(usersWaitingCabin)[u], multiset(usersInCabin)[u], currentFloor)
      {
        AgedAgain(old(u.Data()), old@waited(u.Data()), multiset(usersWaitingCabin)[u], 0, 0, multiset(usersInCabin)[u], currentFloor);
      }
    }

    /** The first loop of updateScore: the assigned callers. */
    method AgeWaitingUsers()
      modifies usersWaitingCabin
      ensures forall u :: u in usersWaitingCabin ==>
        u.Data() == Aged(old(u.Data()), multiset(usersWaitingCabin)[u], 0, currentFloor)
    {
      var i := 0;
      while i < |usersWaitingCabin|
        invariant 0 <= i <= |usersWaitingCabin|
        invariant forall u :: u in usersWaitingCabin ==>
          u.waitTime == old(u.waitTime) + multiset(usersWaitingCabin[..i])[u]
        invariant forall u :: u in usersWaitingCabin ==>
          u.travelTime == old(u.travelTime) && u.comingFrom == old(u.comingFrom)
        invariant forall u :: u in usersWaitingCabin ==>
          u.direction == old(u.direction) && u.floorToGo == old(u.floorToGo)
        invariant forall u :: u in usersWaitingCabin[..i] ==>
          u.stillCanScore == CalculateBestScore(u.Data(), currentFloor)
      {
        var user := usersWaitingCabin[i];
        assert usersWaitingCabin[..i + 1] == usersWaitingCabin[..i] + [user];
        WaitOneTick(user, currentFloor);
        i := i + 1;
      }
      assert usersWaitingCabin[..i] == usersWaitingCabin;
      forall u | u in usersWaitingCabin
        ensures u.Data() == Aged(old(u.Data()), multiset(usersWaitingCabin)[u], 0, currentFloor)
      {
        AgedFromFields(old(u.Data()), u.Data(), multiset(usersWaitingCabin)[u], 0, currentFloor);
      }
    }

    /** The second loop of updateScore: the riders. */
    method AgeUsersInCabin()
      modifies usersInCabin
      ensures forall u :: u in usersInCabin ==>
        u.Data() == Aged(old(u.Data()), 0, multiset(usersInCabin)[u], currentFloor)
    {
      var i := 0;
      while i < |usersInCabin|
        invariant 0 <= i <= |usersInCabin|
        invariant forall u :: u in usersInCabin ==>
          u.travelTime == old(u.travelTime) + multiset(usersInCabin[..i])[u]
        invariant forall u :: u in usersInCabin ==>
          u.waitTime == old(u.waitTime) && u.comingFrom == old(u.comingFrom)
        invariant forall u :: u in usersInCabin ==>
          u.direction == old(u.direction) && u.floorToGo == old(u.floorToGo)
        invariant forall u :: u in usersInCabin[..i] ==>
          u.stillCanScore == CalculateBestScore(u.Data(), currentFloor)
      {
        var user := usersInCabin[i];
        assert usersInCabin[..i + 1] == usersInCabin[..i] + [user];
        TravelOneTick(user, currentFloor);
        i := i + 1;
      }
      assert usersInCabin[..i] == usersInCabin;
      forall u | u in usersInCabin
        ensures u.Data() == Aged(old(u.Data()), 0, multiset(usersInCabin)[u], currentFloor)
      {
        AgedFromFields(old(u.Data()), u.Data(), 0, multiset(usersInCabin)[u], currentFloor);
      }
    }

    /** findNextCommand: age the members, then run the decision cascade. */
    method FindNextCommand() returns (cmd: CabinCommand)
      modifies this`currentFloor, this`doorOpened, this`lastCommand, this`elevatorDirection
      modifies usersWaitingCabin, usersInCabin
      ensures Step(cmd, State()) == Decide(Configuration(), old(State()), old(AgedRiders()), old(AgedWaiters()))
      ensures Riders() == old(AgedRiders()) && Waiters() == old(AgedWaiters())
    {
      UpdateScore();
      cmd := NextCommand();
    }

    /** The decision cascade of findNextCommand, on members already aged:
        close an open door, then the forced unload. */
    method NextCommand() returns (cmd: CabinCommand)
      modifies this`currentFloor, this`doorOpened, this`lastCommand, this`elevatorDirection
      ensures Step(cmd, State()) == Decide(Configuration(), old(State()), old(Riders()), old(Waiters()))
      ensures Riders() == old(Riders()) && Waiters() == old(Waiters())
    {
      if doorOpened {
        CloseElevatorDoor();
        return Close;
      }

      // cabin crowded or nobody scoring: let out whoever can leave here
      if (CabinAlmostFull() || !IsThereUsersWithScore())
         && ThereIsUserThatCanLeaveTheElevator() && lastCommand != Some(Close) {
        OpenElevatorDoor();
        if currentFloor == lowerFloor {
          return OpenUp;
        }
        if currentFloor == higherFloor {
          return OpenDown;
        }
        return if elevatorDirection == Direction.Up then OpenUp else OpenDown;
      }

      cmd := ServeOrMove();
    }

    /** The rest of the cascade: the priority service, then idling or moving. */
    method ServeOrMove() returns (cmd: CabinCommand)
      requires !doorOpened && !ForcedUnload(Configuration(), State(), Riders(), Waiters())
      modifies this`currentFloor, this`doorOpened, this`lastCommand, this`elevatorDirection
      ensures Step(cmd, State()) == Decide(Configuration(), old(State()), Riders(), Waiters())
    {
      var thereUserInElevatorDirection := IsThereUserInElevatorDirection(elevatorDirection);

      if lastCommand != Some(Close) &&
         (IsThereUserWithScoreThatCanLeaveElevator() ||
          (IsThereUserWithPositiveThatCanTakeTheElevator() && |usersInCabin| < cabinSize)) {
        OpenElevatorDoor();
        if currentFloor == lowerFloor {
          return OpenUp;
        }
        if currentFloor == higherFloor {
          return OpenDown;
        }
        if (elevatorDirection == Direction.Up && thereUserInElevatorDirection) ||
           (elevatorDirection == Direction.Down && !thereUserInElevatorDirection) {
          return OpenUp;
        }
        return OpenDown;
      }

      cmd := IdleOrMove(thereUserInElevatorDirection, Configuration(), State(), Riders(), Waiters());
    }

    /** The end of the cascade: idle when empty, turn at the end floors,
        otherwise keep going while there is demand ahead. */
    method IdleOrMove(thereUserInElevatorDirection: bool, ghost cfg: CabinConfig, ghost s: CabinState,
                      ghost riders: seq<UserData>, ghost waiters: seq<UserData>) returns (cmd: CabinCommand)
      requires cfg == Configuration() && s == State() && riders == Riders() && waiters == Waiters()
      requires !s.doorOpened && !ForcedUnload(cfg, s, riders, waiters) && !PriorityService(cfg, s, riders, waiters)
      requires thereUserInElevatorDirection == DemandAhead(cfg, riders, waiters, s.floor, s.direction)
      modifies this`currentFloor, this`lastCommand, this`elevatorDirection
      ensures Step(cmd, State()) == Decide(cfg, s, riders, waiters)
    {
      if IsEmpty() {
        lastCommand := Some(Nothing);
        return Nothing;
      }

      if currentFloor == lowerFloor {
        Up();
        return MoveUp;
      }

      if currentFloor == higherFloor {
        Down();
        return MoveDown;
      }

      var command;
      if thereUserInElevatorDirection {
        command := if elevatorDirection == Direction.Up then MoveUp else MoveDown;
      } else {
        command := if elevatorDirection == Direction.Up then MoveDown else MoveUp;
      }
      if command == MoveUp {
        Up();
      }
      if command == MoveDown {
        Down();
      }
      return command;
    }
  }

  // The decisions fixed by the unit tests of the cabin: a cabin of floors 0
  // to 5 standing at floor 1, going up, with its members aged by the one tick
  // of updateScore (a caller listed twice is aged twice).

  /** An open door is closed first; with nobody aboard or assigned the cabin stays put. */
  lemma DecideClosesThenIdles()
    ensures Decide(CabinConfig(0, 5, 5), CabinState(1, Up, true, None), [], []) ==
      Step(Close, CabinState(1, Up, false, Some(Close)))
    ensures Decide(CabinConfig(0, 5, 5), CabinState(1, Up, false, None), [], []) ==
      Step(Nothing, CabinState(1, Up, false, Some(Nothing)))
  {
  }

  /** One place, taken by a rider for this floor: the cabin unloads whatever the score. */
  lemma DecideUnloadsFullCabin()
    ensures Decide(CabinConfig(0, 5, 1), CabinState(1, Up, false, None),
                   [Aged(UserData(0, 0, 0, Up, Some(1), 0), 0, 1, 1)], []) ==
      Step(OpenUp, CabinState(1, Up, true, Some(Open)))
  {
    var rider := Aged(UserData(0, 0, 0, Up, Some(1), 0), 0, 1, 1);
    assert rider.stillCanScore == 21;
    assert ForcedUnload(CabinConfig(0, 5, 1), CabinState(1, Up, false, None), [rider], []) by {
      assert [rider][0].floorToGo == Some(1);
    }
  }

  /** A scoring caller here going up: open up. */
  lemma DecideOpensForScoringCaller()
    ensures Decide(CabinConfig(0, 5, 5), CabinState(1, Up, false, None),
                   [], [Aged(UserData(0, 0, 1, Up, None, 10), 1, 0, 1)]).command == OpenUp
  {
    var caller := Aged(UserData(0, 0, 1, Up, None, 10), 1, 0, 1);
    assert caller.stillCanScore == 21;
    assert [caller][0] == caller;
  }

  /** The caller here has waited too long to score and the other one is
      below: no door, and the cabin turns down. */
  lemma DecideSkipsStaleCaller()
    ensures Decide(CabinConfig(0, 5, 5), CabinState(1, Up, false, None), [],
                   [Aged(UserData(50, 0, 1, Up, None, 0), 1, 0, 1), Aged(UserData(0, 0, 0, Up, None, 0), 1, 0, 1)]).command
            == MoveDown
  {
    var stale := Aged(UserData(50, 0, 1, Up, None, 0), 1, 0, 1);
    var below := Aged(UserData(0, 0, 0, Up, None, 0), 1, 0, 1);
    var waiters := [stale, below];
    assert stale.stillCanScore == 0 && below.stillCanScore == 20;
    assert waiters[1] == below;
    assert !Relaxed(CabinConfig(0, 5, 5), [], waiters);
    forall i | 0 <= i < |waiters|
      ensures !(WaiterAhead(waiters[i], 1, Up) && waiters[i].stillCanScore > 4)
    {
    }
  }

  /** The caller here goes down and scores nothing, the scoring one is above:
      the cabin goes on up. */
  lemma DecideFollowsScoringCaller()
    ensures var late := Aged(UserData(50, 0, 1, Down, None, 0), 2, 0, 1);
      Decide(CabinConfig(0, 5, 5), CabinState(1, Up, false, None), [],
             [late, late, Aged(UserData(0, 0, 2, Up, None, 0), 1, 0, 1)]).command == MoveUp
  {
    var late := Aged(UserData(50, 0, 1, Down, None, 0), 2, 0, 1);
    var above := Aged(UserData(0, 0, 2, Up, None, 0), 1, 0, 1);
    var waiters := [late, late, above];
    assert late.stillCanScore == 0 && above.stillCanScore == 20;
    assert waiters[2] == above;
    assert !PriorityService(CabinConfig(0, 5, 5), CabinState(1, Up, false, None), [], waiters);
  }

  /** A scoring caller here going down and no demand above: open down. */
  lemma DecideOpensDown()
    ensures Decide(CabinConfig(0, 5, 5), CabinState(1, Up, false, None),
                   [], [Aged(UserData(2, 0, 1, Down, None, 0), 1, 0, 1)]).command == OpenDown
  {
    var caller := Aged(UserData(2, 0, 1, Down, None, 0), 1, 0, 1);
    assert caller.stillCanScore == 20;
    assert [caller][0] == caller;
  }

  /** Eligibility and the search for a caller at the cabin's floor, as the
      unit tests fix them. */
  lemma EligibilityExamples()
    // cabin at 1 going up: a caller at 3 going up is eligible, one going down is not
    ensures Eligible(CabinState(1, Up, false, None), UserData(2, 0, 3, Up, None, 0))
    ensures !Eligible(CabinState(1, Up, false, None), UserData(2, 0, 3, Down, None, 0))
    // cabin at 2 going down has already passed a caller at 5
    ensures !Eligible(CabinState(2, Down, false, None), UserData(2, 0, 5, Down, None, 0))
    // at floor 2 only a caller going down is found for the down direction
    ensures FindFirst([UserData(2, 0, 2, Up, None, 0)], CallingFrom(2, Down)) == None
    ensures FindFirst([UserData(2, 0, 2, Down, None, 0)], CallingFrom(2, Down)) == Some(0)
  {
  }
}
