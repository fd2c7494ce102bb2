/** The dispatch engine: the pool of unassigned callers, the fleet of cabins,
    the score, the tick that assigns callers and collects one command per
    cabin, and the boarding and exit notifications of the riders. */
module Elevator {
  import opened Common
  import opened Cabin
  import opened Dispatch
  import opened Boarding

  const DEFAULT_LOWER_FLOOR: int := 0
  const DEFAULT_HIGHER_FLOOR: int := 5
  const DEFAULT_CABIN_SIZE: int := 5
  const DEFAULT_CABIN_COUNT: int := 2

  // ---------------------------------------------------------------------------
  // The engine object
  // ---------------------------------------------------------------------------

  /** A cabin as a reset leaves it: number id, at floor 0, going up with the
      door closed, nobody aboard and nobody assigned. */
  ghost predicate Pristine(c: CabinModel, id: nat, lowerFloor: int, higherFloor: int, cabinSize: int)
    reads c
  {
    c.id == id && c.Configuration() == CabinConfig(lowerFloor, higherFloor, cabinSize) &&
    c.State() == CabinState(0, Up, false, None) &&
    c.usersInCabin == [] && c.usersWaitingCabin == []
  }

  class ElevatorModel {
    var usersWaitingElevator: seq<User>   // the pool of callers with no cabin yet
    var cabinsList: seq<CabinModel>
    var score: int
    var lowerFloor: int
    var higherFloor: int
    var cabinSize: int
    var cabinCount: int
    var resetNumber: int
    var userToRemove: seq<User>           // callers assigned during the current pass
    var abnormalUserEntring: int
    var abnormalUserExiting: int
    var allUsers: int
    var happyUsers: int

    /** The cabins are distinct objects, and the pool lists a caller at most
        once (assignCabinToUser checks before adding). */
    ghost predicate Valid()
      reads this
    {
      NoDuplicates(cabinsList) && NoDuplicates(usersWaitingElevator)
    }

    /** Every user the engine can reach: the pool and the cabins' lists. */
    ghost function People(): set<User>
      reads this, cabinsList`usersInCabin, cabinsList`usersWaitingCabin
    {
      Members(cabinsList) + (set k | 0 <= k < |usersWaitingElevator| :: usersWaitingElevator[k])
    }

    /** The engine starts from the default building (floors 0 to 5, two
        cabins of five places) and resets it once. */
    constructor ()
      ensures Valid()
      ensures lowerFloor == DEFAULT_LOWER_FLOOR && higherFloor == DEFAULT_HIGHER_FLOOR
      ensures cabinSize == DEFAULT_CABIN_SIZE && cabinCount == DEFAULT_CABIN_COUNT
      ensures resetNumber == 1 && score == 0 && usersWaitingElevator == [] && userToRemove == []
      ensures abnormalUserEntring == 0 && abnormalUserExiting == 0 && allUsers == 0 && happyUsers == 0
      ensures |cabinsList| == DEFAULT_CABIN_COUNT
      ensures forall i :: 0 <= i < |cabinsList| ==>
        cabinsList[i].id == i &&
        cabinsList[i].Configuration() == CabinConfig(DEFAULT_LOWER_FLOOR, DEFAULT_HIGHER_FLOOR, DEFAULT_CABIN_SIZE) &&
        cabinsList[i].State() == CabinState(0, Up, false, None) &&
        cabinsList[i].usersInCabin == [] && cabinsList[i].usersWaitingCabin == []
    {
      lowerFloor := DEFAULT_LOWER_FLOOR;
      higherFloor := DEFAULT_HIGHER_FLOOR;
      cabinSize := DEFAULT_CABIN_SIZE;
      cabinCount := DEFAULT_CABIN_COUNT;
      resetNumber := 0;
      userToRemove := [];
      new;
      Reset();
    }

    /** reset: score, pool, counters back to zero and a fresh fleet of
        cabinCount cabins numbered from 0; the reset count goes up by one and
        the pending removals are kept. */
    method Reset()
      modifies this
      ensures Valid()
      ensures score == 0 && usersWaitingElevator == []
      ensures resetNumber == old(resetNumber) + 1
      ensures abnormalUserEntring == 0 && abnormalUserExiting == 0 && allUsers == 0 && happyUsers == 0
      ensures lowerFloor == old(lowerFloor) && higherFloor == old(higherFloor)
      ensures cabinSize == old(cabinSize) && cabinCount == old(cabinCount)
      ensures userToRemove == old(userToRemove)
      ensures |cabinsList| == Max(0, cabinCount)
      ensures forall i :: 0 <= i < |cabinsList| ==>
        fresh(cabinsList[i]) && Pristine(cabinsList[i], i, lowerFloor, higherFloor, cabinSize)
    {
      score := 0;
      usersWaitingElevator := [];
      cabinsList := [];
      resetNumber := resetNumber + 1;
      abnormalUserEntring := 0;
      abnormalUserExiting := 0;
      allUsers := 0;
      happyUsers := 0;
      cabinsList := NewCabins(cabinCount, lowerFloor, higherFloor, cabinSize);
    }

    /** The cabins a reset builds: count of them, numbered in order, all new. */
    static method NewCabins(count: int, lowerFloor: int, higherFloor: int, cabinSize: int)
      returns (cabins: seq<CabinModel>)
      ensures |cabins| == Max(0, count) && NoDuplicates(cabins)
      ensures forall i :: 0 <= i < |cabins| ==>
        fresh(cabins[i]) && Pristine(cabins[i], i, lowerFloor, higherFloor, cabinSize)
    {
      cabins := [];
      var i := 0;
      while i < count
        invariant 0 <= i == |cabins| <= Max(0, count)
        invariant NoDuplicates(cabins)
        invariant forall j :: 0 <= j < |cabins| ==>
          fresh(cabins[j]) && Pristine(cabins[j], j, lowerFloor, higherFloor, cabinSize)
      {
        var cabin := new CabinModel(lowerFloor, higherFloor, cabinSize, i);
        cabins := cabins + [cabin];
        i := i + 1;
      }
    }

    /** updateCabinCount: the new count takes effect at the next reset; the
        fleet is emptied meanwhile. */
    method UpdateCabinCount(n: int)
      modifies this`cabinCount, this`cabinsList
      ensures cabinCount == n && cabinsList == []
    {
      cabinCount := n;
      cabinsList := [];
    }

    /** updateScore: every caller in the pool waits one tick more (the pool
        score is not recomputed). */
    method UpdateScore()
      requires Valid()
      modifies usersWaitingElevator
      ensures forall u :: u in usersWaitingElevator ==>
        u.Data() == old(u.Data()).(waitTime := old(u.waitTime) + 1)
    {
      var i := 0;
      while i < |usersWaitingElevator|
        invariant 0 <= i <= |usersWaitingElevator|
        invariant forall k :: 0 <= k < i ==>
          usersWaitingElevator[k].Data() == old(usersWaitingElevator[k].Data()).(waitTime := old(usersWaitingElevator[k].waitTime) + 1)
        invariant forall k :: i <= k < |usersWaitingElevator| ==>
          usersWaitingElevator[k].Data() == old(usersWaitingElevator[k].Data())
      {
        var user := usersWaitingElevator[i];
        user.SetWaitTime(user.waitTime + 1);
        i := i + 1;
      }
    }

    // -------------------------------------------------------------------------
    // Assigning a caller to a cabin
    // -------------------------------------------------------------------------

    /** The fleet as values, in list order. */
    function Fleet(): (r: seq<CabinView>)
      reads this`cabinsList, cabinsList, Members(cabinsList)
    {
      FleetOf(cabinsList)
    }

    /** The filter of findEligibleCabins, on one cabin: the same decision as
        Accepts on the cabin's values. */
    function CabinAcceptsUser(c: CabinModel, u: User): (b: bool)
      reads c, c.usersInCabin, c.usersWaitingCabin, u
      ensures b == Accepts(ViewOf(c), u.Data())
    {
      if c.IsFull() then false
      else if c.IsEmpty() || !c.IsThereUsersWithScore() then true
      else c.IsUserEligibleForCabin(u)
    }

    /** findEligibleCabins: the cabins whose filter accepts u, in fleet order. */
    function FindEligibleCabins(u: User): seq<nat>
      reads this, cabinsList, Members(cabinsList), u
    {
      EligibleCabins(Fleet(), u.Data())
    }

    /** findEligibleCabins lists the positions of exactly the cabins whose
        filter accepts u, in increasing order. */
    lemma FindEligibleCabinsFilters(u: User)
      ensures forall k :: 0 <= k < |cabinsList| ==>
        (k in FindEligibleCabins(u) <==> CabinAcceptsUser(cabinsList[k], u))
      ensures forall p :: 0 <= p < |FindEligibleCabins(u)| ==> FindEligibleCabins(u)[p] < |cabinsList|
      ensures forall p, q :: 0 <= p < q < |FindEligibleCabins(u)| ==>
        FindEligibleCabins(u)[p] < FindEligibleCabins(u)[q]
    {
      FleetOfViews(cabinsList);
      EligibleCabinsSpec(Fleet(), u.Data());
    }

    /** findNearestCabinForUser: the listed cabin nearest to the caller's
        floor, strictly closer than the height of the building, the first one
        on a tie; none (null in the source) when every one is that far.
        The floors of the listed cabins are given as values. */
    method FindNearestCabinForUser(u: User, cabins: seq<nat>, ghost floors: seq<int>, ghost from: int, ghost bound: int)
      returns (nearest: Option<nat>)
      requires |floors| == |cabins|
      requires forall p :: 0 <= p < |cabins| ==> cabins[p] < |cabinsList| && floors[p] == cabinsList[cabins[p]].currentFloor
      requires from == u.comingFrom && bound == higherFloor - lowerFloor
      ensures nearest == NearestCabin(cabins, floors, from, bound)
    {
      var userComingFrom := u.comingFrom;
      var minDistance := higherFloor - lowerFloor;
      nearest := None;
      ghost var best: Option<nat> := None;
      var i := 0;
      while i < |cabins|
        invariant 0 <= i <= |cabins|
        invariant best.Some? ==> best.value < i
        invariant NearestFrom(floors, userComingFrom, i, minDistance, best) ==
                  Nearest(floors, userComingFrom, higherFloor - lowerFloor)
        invariant nearest.None? <==> best.None?
        invariant nearest.Some? ==> nearest.value == cabins[best.value]
      {
        var distance := Abs(cabinsList[cabins[i]].currentFloor - userComingFrom);
        assert distance == Abs(floors[i] - userComingFrom);
        if distance < minDistance {
          assert NearestFrom(floors, userComingFrom, i, minDistance, best) ==
                 NearestFrom(floors, userComingFrom, i + 1, distance, Some(i));
          minDistance := distance;
          nearest := Some(cabins[i]);
          best := Some(i);
        } else {
          assert NearestFrom(floors, userComingFrom, i, minDistance, best) ==
                 NearestFrom(floors, userComingFrom, i + 1, minDistance, best);
        }
        i := i + 1;
      }
    }

    /** assignCabinToUser. A caller no cabin accepts joins the pool (unless
        already there); otherwise it is marked for removal from the pool and
        appended to the chosen cabin's callers. When several cabins accept
        but none is near enough, the source dereferences null after marking:
        the model reports the NullPointerException at that point. */
    method AssignCabinToUser(u: User, ghost fleet: seq<CabinView>, ghost d: UserData, ghost bound: int,
                             ghost pool0: seq<User>, ghost removed0: seq<User>, ghost waiting0: seq<seq<User>>)
      returns (r: Outcome, ghost choice: Assignment)
      requires Valid() && fleet == Fleet() && d == u.Data() && bound == higherFloor - lowerFloor
      requires pool0 == usersWaitingElevator && removed0 == userToRemove && waiting0 == WaitingListsOf(cabinsList)
      modifies this`usersWaitingElevator, this`userToRemove, cabinsList`usersWaitingCabin
      ensures choice == ChooseCabin(fleet, d, bound)
      ensures choice.ToCabin? ==> choice.index < |cabinsList|
      ensures Valid() && cabinsList == old(cabinsList)
      ensures CallerHandled(u, pool0, removed0, waiting0, choice, r)
      ensures Fleet() == Placed(fleet, d, choice) && u.Data() == d
    {
      var target := SelectCabin(u, fleet, d, bound);
      choice := target;
      r := Apply(u, target, fleet, d, pool0, removed0, waiting0);
    }

    /** What assignCabinToUser leaves, from the pool pool0, the marked
        callers removed0 and the cabins' callers waiting0, once the choice for
        caller u is made: a caller that queues joins the pool unless already
        there; any other is marked, and joins the callers of the cabin chosen
        for it; only the null cabin is a NullPointerException. */
    ghost predicate CallerHandled(u: User, pool0: seq<User>, removed0: seq<User>, waiting0: seq<seq<User>>,
                                  choice: Assignment, r: Outcome)
      reads this`usersWaitingElevator, this`userToRemove, this`cabinsList, cabinsList`usersWaitingCabin
    {
      (choice.Queue? ==>
        userToRemove == removed0 && usersWaitingElevator == (if u in pool0 then pool0 else pool0 + [u])) &&
      (!choice.Queue? ==> usersWaitingElevator == pool0 && userToRemove == removed0 + [u]) &&
      (r == if choice.NoNearestCabin? then Fail(NullPointer) else Pass) &&
      |waiting0| == |cabinsList| &&
      forall k :: 0 <= k < |cabinsList| ==>
        cabinsList[k].usersWaitingCabin == if choice == ToCabin(k) then waiting0[k] + [u] else waiting0[k]
    }

    /** The effect of assignCabinToUser once the choice is made. */
    method Apply(u: User, choice: Assignment, ghost fleet: seq<CabinView>, ghost d: UserData,
                 ghost pool0: seq<User>, ghost removed0: seq<User>, ghost waiting0: seq<seq<User>>)
      returns (r: Outcome)
      requires choice.ToCabin? ==> choice.index < |cabinsList|
      requires Valid() && fleet == Fleet() && d == u.Data()
      requires pool0 == usersWaitingElevator && removed0 == userToRemove && waiting0 == WaitingListsOf(cabinsList)
      modifies this`usersWaitingElevator, this`userToRemove, cabinsList`usersWaitingCabin
      ensures Valid() && cabinsList == old(cabinsList)
      ensures CallerHandled(u, pool0, removed0, waiting0, choice, r)
      ensures Fleet() == Placed(fleet, d, choice) && u.Data() == d
    {
      match choice {
        case Queue =>
          if u !in usersWaitingElevator {
            Enqueue(u);
          }
          r := Pass;
        case ToCabin(k) =>
          Mark(u);
          AddCaller(k, u);
          r := Pass;
        case NoNearestCabin =>
          Mark(u);
          r := Fail(NullPointer);
      }
    }

    /** usersWaitingElevator.add(u): the fleet is not touched. */
    method Enqueue(u: User)
      modifies this`usersWaitingElevator
      ensures usersWaitingElevator == old(usersWaitingElevator) + [u]
      ensures Fleet() == old(Fleet())
    {
      ghost var members := Members(cabinsList);
      usersWaitingElevator := usersWaitingElevator + [u];
      assert Members(cabinsList) == members;
    }

    /** userToRemove.add(u): the fleet is not touched. */
    method Mark(u: User)
      modifies this`userToRemove
      ensures userToRemove == old(userToRemove) + [u]
      ensures Fleet() == old(Fleet())
    {
      ghost var members := Members(cabinsList);
      userToRemove := userToRemove + [u];
      assert Members(cabinsList) == members;
    }

    /** The branching of assignCabinToUser: how many cabins accept u, and
        when several do, the nearest of them (or null). */
    method SelectCabin(u: User, ghost fleet: seq<CabinView>, ghost d: UserData, ghost bound: int) returns (choice: Assignment)
      requires fleet == Fleet() && d == u.Data() && bound == higherFloor - lowerFloor
      ensures choice == ChooseCabin(fleet, d, bound) && Fleet() == fleet
      ensures choice.ToCabin? ==> choice.index < |cabinsList|
    {
      ghost var members := Members(cabinsList);
      var cabinInSameUserDirection := FindEligibleCabins(u);
      assert Members(cabinsList) == members;
      FleetOfLength(cabinsList);
      var cabin := |cabinInSameUserDirection|;
      if cabin <= 1 {
        choice := if cabin == 0 then Queue else ToCabin(cabinInSameUserDirection[0]);
      } else {
        FleetOfFloors(cabinsList);
        EligibleInRange(fleet, d);
        ghost var floors := FloorsIn(fleet, cabinInSameUserDirection);
        var nearest := FindNearestCabinForUser(u, cabinInSameUserDirection, floors, d.comingFrom, bound);
        choice := if nearest.None? then NoNearestCabin else ToCabin(nearest.value);
      }
    }

    /** getUsersWaitingCabin().add(u) on cabin k. */
    method AddCaller(k: nat, u: User)
      requires Valid() && k < |cabinsList|
      modifies cabinsList`usersWaitingCabin
      ensures forall j :: 0 <= j < |cabinsList| ==>
        cabinsList[j].usersWaitingCabin ==
          if j == k then old(cabinsList[j].usersWaitingCabin) + [u] else old(cabinsList[j].usersWaitingCabin)
      ensures Fleet() == Placed(old(Fleet()), u.Data(), ToCabin(k))
    {
      JoinCabin(cabinsList, k, cabinsList[k], u);
    }

    /** The cabins' view of AddCaller: u's values join cabin k's callers. */
    static method JoinCabin(cs: seq<CabinModel>, k: nat, c: CabinModel, u: User)
      requires k < |cs| && cs[k] == c
      requires forall j :: 0 <= j < |cs| && j != k ==> cs[j] != c
      modifies c`usersWaitingCabin
      ensures c.usersWaitingCabin == old(c.usersWaitingCabin) + [u]
      ensures FleetOf(cs) == Placed(old(FleetOf(cs)), u.Data(), ToCabin(k))
    {
      FleetOfViews(cs);
      AppendCaller(cs, k, c, u);
      FleetOfViews(cs);
    }

    /** The append itself, view by view: cabin k shows one more caller, the
        other cabins show what they showed. */
    static method AppendCaller(cs: seq<CabinModel>, k: nat, c: CabinModel, u: User)
      requires k < |cs| && cs[k] == c
      requires forall j :: 0 <= j < |cs| && j != k ==> cs[j] != c
      modifies c`usersWaitingCabin
      ensures c.usersWaitingCabin == old(c.usersWaitingCabin) + [u]
      ensures ViewOf(c) == old(ViewOf(c)).(waiters := old(ViewOf(c)).waiters + [u.Data()])
      ensures forall j :: 0 <= j < |cs| && j != k ==> ViewOf(cs[j]) == old(ViewOf(cs[j]))
    {
      ghost var waiters := c.Waiters();
      c.usersWaitingCabin := c.usersWaitingCabin + [u];
      assert c.Waiters() == waiters + [u.Data()];
    }

    /** callAtFloor: one more user counted, and a fresh caller assigned. */
    method CallAtFloor(floor: int, direction: Direction)
      returns (r: Outcome, ghost caller: User, ghost choice: Assignment, ghost fleet: seq<CabinView>, ghost bound: int)
      requires Valid()
      modifies this`allUsers, this`usersWaitingElevator, this`userToRemove, cabinsList`usersWaitingCabin
      ensures Valid() && cabinsList == old(cabinsList)
      ensures allUsers == old(allUsers) + 1
      ensures fresh(caller) && caller.Data() == UserData(0, 0, floor, direction, None, 0)
      ensures fleet == old(Fleet())
      ensures bound == old(higherFloor - lowerFloor)
      ensures choice == ChooseCabin(fleet, UserData(0, 0, floor, direction, None, 0), bound)
      ensures caller !in old(usersWaitingElevator)
      ensures CallerHandled(caller, old(usersWaitingElevator), old(userToRemove), old(WaitingListsOf(cabinsList)), choice, r)
    {
      ghost var pool, removed, waiting := usersWaitingElevator, userToRemove, WaitingListsOf(cabinsList);
      bound := higherFloor - lowerFloor;
      var user := NewCaller(floor, direction);
      assert usersWaitingElevator == pool && userToRemove == removed && WaitingListsOf(cabinsList) == waiting;
      caller := user;
      fleet := Fleet();
      r, choice := AssignCabinToUser(user, fleet, UserData(0, 0, floor, direction, None, 0), bound, pool, removed, waiting);
    }

    /** The first half of callAtFloor: one more user counted and a caller
        nobody knows yet, the fleet left as it was. */
    method NewCaller(floor: int, direction: Direction) returns (user: User)
      modifies this`allUsers
      ensures allUsers == old(allUsers) + 1
      ensures fresh(user) && user.Data() == UserData(0, 0, floor, direction, None, 0)
      ensures Fleet() == old(Fleet()) && user !in usersWaitingElevator
    {
      ghost var members := Members(cabinsList);
      allUsers := allUsers + 1;
      user := new User(floor, direction);
      assert user !in members;
      assert Members(cabinsList) == members;
    }

    // -------------------------------------------------------------------------
    // floorToGo: a rider has boarded cabin `cabin` and asked for `floor`
    // -------------------------------------------------------------------------

    /** floorToGo: the rider who has just boarded cabin `cabin` and asked for
        `floor` is looked for among that cabin's callers, then in the pool,
        then among every cabin's callers; the one found gets its destination
        and joins the cabin's riders. Nobody found is an abnormal entry. A
        cabin index outside the fleet is cabinsList.get's exception, before
        anything changes. */
    method FloorToGo(floor: int, cabin: int)
      returns (r: Outcome, ghost choice: Boarder, ghost fleet: seq<CabinView>, ghost pool: seq<UserData>,
               ghost lists: seq<CabinLists>, ghost people: set<User>)
      requires Valid()
      modifies this`abnormalUserEntring, cabinsList`usersInCabin, cabinsList`usersWaitingCabin, People()
      ensures Valid() && cabinsList == old(cabinsList) && usersWaitingElevator == old(usersWaitingElevator)
      ensures fleet == old(Fleet()) && pool == old(Snapshot(usersWaitingElevator)) && lists == old(ListsOf(cabinsList))
      ensures people == old(People()) && forall u :: u in people ==> old(allocated(u))
      ensures !(0 <= cabin < |cabinsList|) ==>
        r == Fail(IndexOutOfBounds) && choice == NoBoarder &&
        ListsOf(cabinsList) == lists && abnormalUserEntring == old(abnormalUserEntring) &&
        forall u :: u in people ==> u.Data() == old(u.Data())
      ensures 0 <= cabin < |cabinsList| ==>
        r == Pass && cabin < |fleet| && choice == ChooseBoarder(fleet, pool, cabin, floor) &&
        InRange(lists, usersWaitingElevator, cabin, choice) &&
        ListsOf(cabinsList) == Boarded(lists, usersWaitingElevator, cabin, choice) &&
        abnormalUserEntring == old(abnormalUserEntring) + AbnormalEntries(lists, usersWaitingElevator, cabin, choice) &&
        Designated(lists, usersWaitingElevator, cabin, choice) <= people &&
        (forall u :: u in Designated(lists, usersWaitingElevator, cabin, choice) ==>
           u.Data() == old(u.Data()).(floorToGo := Some(floor))) &&
        forall u :: u in people && u !in Designated(lists, usersWaitingElevator, cabin, choice) ==>
          u.Data() == old(u.Data())
    {
      fleet := Fleet();
      pool := Snapshot(usersWaitingElevator);
      lists := ListsOf(cabinsList);
      people := People();
      if !(0 <= cabin < |cabinsList|) {
        r := Fail(IndexOutOfBounds);
        choice := NoBoarder;
        return;
      }
      r := Pass;
      var boarder := SelectBoarder(cabin, floor, fleet, pool);
      choice := boarder;
      ListsOfSpec(cabinsList);
      DesignatedArePeople(cabin, boarder, lists);
      ApplyBoarder(cabin, boarder, floor, lists, people);
    }

    /** The rider a choice designates is someone the engine can reach. */
    lemma DesignatedArePeople(cabin: nat, boarder: Boarder, lists: seq<CabinLists>)
      requires lists == ListsOf(cabinsList) && InRange(lists, usersWaitingElevator, cabin, boarder)
      ensures Designated(lists, usersWaitingElevator, cabin, boarder) <= People()
    {
      ListsOfSpec(cabinsList);
      match boarder
      case OwnCaller(k) =>
        assert cabinsList[cabin].usersWaitingCabin[k] in Members(cabinsList);
      case PoolCaller(p) =>
      case OtherCaller(j, k) =>
        assert cabinsList[j].usersWaitingCabin[k] in Members(cabinsList);
      case NoBoarder =>
    }

    /** The boarding itself, once the rider is chosen. */
    method ApplyBoarder(cabin: nat, boarder: Boarder, floor: int, ghost lists: seq<CabinLists>, ghost people: set<User>)
      requires Valid() && lists == ListsOf(cabinsList) && InRange(lists, usersWaitingElevator, cabin, boarder)
      modifies this`abnormalUserEntring, cabinsList`usersInCabin, cabinsList`usersWaitingCabin
      modifies Designated(lists, usersWaitingElevator, cabin, boarder)
      ensures forall u :: u in people && u !in Designated(lists, usersWaitingElevator, cabin, boarder) ==>
        u.Data() == old(u.Data())
      ensures ListsOf(cabinsList) == Boarded(lists, usersWaitingElevator, cabin, boarder)
      ensures abnormalUserEntring == old(abnormalUserEntring) + AbnormalEntries(lists, usersWaitingElevator, cabin, boarder)
      ensures forall u :: u in Designated(lists, usersWaitingElevator, cabin, boarder) ==> u.Data() == old(u.Data()).(floorToGo := Some(floor))
    {
      if boarder.OwnCaller? || boarder.PoolCaller? {
        BoardCaller(cabin, boarder, floor, lists);
      } else if boarder.OtherCaller? {
        BoardOtherCaller(cabin, boarder, floor, lists);
      } else {
        abnormalUserEntring := abnormalUserEntring + 1;
      }
    }

    /** Stages 1 and 2, which share their code. */
    method BoardCaller(cabin: nat, boarder: Boarder, floor: int, ghost lists: seq<CabinLists>)
      requires boarder.OwnCaller? || boarder.PoolCaller?
      requires Valid() && lists == ListsOf(cabinsList) && InRange(lists, usersWaitingElevator, cabin, boarder)
      modifies this`abnormalUserEntring, cabinsList`usersInCabin, cabinsList`usersWaitingCabin
      modifies Designated(lists, usersWaitingElevator, cabin, boarder)
      ensures ListsOf(cabinsList) == Boarded(lists, usersWaitingElevator, cabin, boarder)
      ensures abnormalUserEntring == old(abnormalUserEntring) + AbnormalEntries(lists, usersWaitingElevator, cabin, boarder)
      ensures forall u :: u in Designated(lists, usersWaitingElevator, cabin, boarder) ==> u.Data() == old(u.Data()).(floorToGo := Some(floor))
    {
      ListsOfSpec(cabinsList);
      var cabinModel := cabinsList[cabin];
      var user := if boarder.OwnCaller? then cabinModel.usersWaitingCabin[boarder.k] else usersWaitingElevator[boarder.p];
      assert Designated(lists, usersWaitingElevator, cabin, boarder) == {user};
      Board(cabinModel, user, floor);
      ListsOfSpec(cabinsList);
      BoardedByParts(lists, usersWaitingElevator, cabin, boarder, ListsOf(cabinsList));
    }

    /** Stage 3. */
    method BoardOtherCaller(cabin: nat, boarder: Boarder, floor: int, ghost lists: seq<CabinLists>)
      requires boarder.OtherCaller?
      requires Valid() && lists == ListsOf(cabinsList) && InRange(lists, usersWaitingElevator, cabin, boarder)
      modifies this`abnormalUserEntring, cabinsList`usersInCabin, cabinsList`usersWaitingCabin
      modifies Designated(lists, usersWaitingElevator, cabin, boarder)
      ensures ListsOf(cabinsList) == Boarded(lists, usersWaitingElevator, cabin, boarder)
      ensures abnormalUserEntring == old(abnormalUserEntring) + AbnormalEntries(lists, usersWaitingElevator, cabin, boarder)
      ensures forall u :: u in Designated(lists, usersWaitingElevator, cabin, boarder) ==> u.Data() == old(u.Data()).(floorToGo := Some(floor))
    {
      ListsOfSpec(cabinsList);
      ghost var user := BoardFromOther(cabinsList[boarder.j], boarder.k, cabinsList[cabin], floor);
      ListsOfSpec(cabinsList);
      BoardedByParts(lists, usersWaitingElevator, cabin, boarder, ListsOf(cabinsList));
    }

    /** Each view of the fleet shows its cabin's floor and its callers. */
    lemma CallersInFleet(d: Direction)
      ensures |Fleet()| == |cabinsList|
      ensures forall j :: 0 <= j < |cabinsList| ==> Fleet()[j].state.floor == cabinsList[j].currentFloor
      ensures forall j :: 0 <= j < |cabinsList| ==>
        CallerAt(Fleet()[j], d) == cabinsList[j].FindUserCallingFromWithDirection(d)
    {
      FleetOfViews(cabinsList);
    }

    /** The three searches of floorToGo, on the engine's current state. */
    method SelectBoarder(cabin: nat, floor: int, ghost fleet: seq<CabinView>, ghost pool: seq<UserData>)
      returns (choice: Boarder)
      requires cabin < |cabinsList| && fleet == Fleet() && pool == Snapshot(usersWaitingElevator)
      ensures cabin < |fleet| && choice == ChooseBoarder(fleet, pool, cabin, floor)
      ensures choice.OwnCaller? ==> choice.k < |cabinsList[cabin].usersWaitingCabin|
      ensures choice.PoolCaller? ==> choice.p < |usersWaitingElevator|
      ensures choice.OtherCaller? ==> choice.j < |cabinsList| && choice.k < |cabinsList[choice.j].usersWaitingCabin|
    {
      var cabinModel := cabinsList[cabin];
      var direction := cabinModel.CalculateUserDirection(floor);
      CallersInFleet(direction);
      var user := cabinModel.FindUserCallingFromWithDirection(direction);
      if user.Some? {
        choice := OwnCaller(user.value);
      } else {
        var usr := FindFirst(Snapshot(usersWaitingElevator), ComingFrom(cabinModel.currentFloor));
        if usr.Some? {
          choice := PoolCaller(usr.value);
        } else {
          var found := FindCallerInFleet(direction, fleet);
          choice := if found.None? then NoBoarder else OtherCaller(found.value.0, found.value.1);
        }
      }
    }

    /** The loop of stage 3: the first cabin with a caller at its own floor
        going d, and that caller's position. */
    method FindCallerInFleet(d: Direction, ghost fleet: seq<CabinView>) returns (found: Option<(nat, nat)>)
      requires |fleet| == |cabinsList|
      requires forall j :: 0 <= j < |cabinsList| ==>
        CallerAt(fleet[j], d) == cabinsList[j].FindUserCallingFromWithDirection(d)
      ensures found == FirstCallerFrom(fleet, d, 0)
      ensures found.Some? ==> found.value.0 < |cabinsList| && found.value.1 < |cabinsList[found.value.0].usersWaitingCabin|
    {
      var j := 0;
      while j < |cabinsList|
        invariant 0 <= j <= |cabinsList|
        invariant FirstCallerFrom(fleet, d, j) == FirstCallerFrom(fleet, d, 0)
      {
        var userToGoFromCabin := cabinsList[j].FindUserCallingFromWithDirection(d);
        if userToGoFromCabin.Some? {
          return Some((j, userToGoFromCabin.value));
        }
        j := j + 1;
      }
      return None;
    }

    /** Stages 1 and 2: the rider gets its destination, boards cabin c and is
        struck off c's callers; a rider c was not waiting for counts as an
        abnormal entry (and, from the pool, stays in the pool). */
    method Board(c: CabinModel, user: User, floor: int)
      modifies this`abnormalUserEntring, c`usersInCabin, c`usersWaitingCabin, user
      ensures user.Data() == old(user.Data()).(floorToGo := Some(floor))
      ensures c.usersInCabin == old(c.usersInCabin) + [user]
      ensures c.usersWaitingCabin == RemoveFirst(old(c.usersWaitingCabin), user)
      ensures abnormalUserEntring == old(abnormalUserEntring) + (if user in old(c.usersWaitingCabin) then 0 else 1)
    {
      user.SetFloorToGo(Some(floor));
      c.AddUserInCabin(user);
      var removed := c.RemoveUserFromWaitingList(user);
      if !removed {
        abnormalUserEntring := abnormalUserEntring + 1;
      }
    }

    /** Stage 3: caller k of cabin model leaves that cabin's callers, gets its
        destination and boards cabin c. */
    method BoardFromOther(model: CabinModel, k: nat, c: CabinModel, floor: int) returns (ghost user: User)
      requires k < |model.usersWaitingCabin|
      modifies model`usersWaitingCabin, c`usersInCabin, model.usersWaitingCabin[k]
      ensures user == old(model.usersWaitingCabin[k])
      ensures user.Data() == old(user.Data()).(floorToGo := Some(floor))
      ensures model.usersWaitingCabin == RemoveFirst(old(model.usersWaitingCabin), user)
      ensures c.usersInCabin == old(c.usersInCabin) + [user]
    {
      var userToGoFromCabin := model.usersWaitingCabin[k];
      user := userToGoFromCabin;
      model.usersWaitingCabin := RemoveFirst(model.usersWaitingCabin, userToGoFromCabin);
      userToGoFromCabin.SetFloorToGo(Some(floor));
      c.usersInCabin := c.usersInCabin + [userToGoFromCabin];
    }

    // -------------------------------------------------------------------------
    // userHasExited
    // -------------------------------------------------------------------------

    /** userHasExited: one more happy user; the first rider of the cabin whose
        destination is the cabin's floor leaves it and adds what it can still
        score to the engine's score. No such rider is an abnormal exit. A
        cabin index outside the fleet is cabinsList.get's exception, before
        anything changes. */
    method UserHasExited(cabin: int) returns (r: Outcome, ghost leaver: Option<nat>)
      requires Valid()
      modifies this`happyUsers, this`abnormalUserExiting, this`score, cabinsList`usersInCabin
      ensures Valid() && cabinsList == old(cabinsList)
      ensures !(0 <= cabin < |cabinsList|) ==>
        r == Fail(IndexOutOfBounds) && leaver == None &&
        happyUsers == old(happyUsers) && abnormalUserExiting == old(abnormalUserExiting) && score == old(score)
      ensures 0 <= cabin < |cabinsList| ==>
        r == Pass && happyUsers == old(happyUsers) + 1 &&
        leaver == old(cabinsList[cabin].FindUserThatCanLeave())
      ensures leaver.None? ==>
        abnormalUserExiting == old(abnormalUserExiting) + (if r.Pass? then 1 else 0) && score == old(score)
      ensures leaver.Some? ==>
        0 <= cabin < |cabinsList| && leaver.value < |old(cabinsList[cabin].usersInCabin)| &&
        abnormalUserExiting == old(abnormalUserExiting) &&
        score == old(score) + old(cabinsList[cabin].usersInCabin[leaver.value].stillCanScore) &&
        cabinsList[cabin].usersInCabin ==
          old(cabinsList[cabin].usersInCabin[..leaver.value] + cabinsList[cabin].usersInCabin[leaver.value + 1..])
      ensures forall j :: 0 <= j < |cabinsList| && (j != cabin || leaver.None?) ==>
        cabinsList[j].usersInCabin == old(cabinsList[j].usersInCabin)
    {
      if !(0 <= cabin < |cabinsList|) {
        return Fail(IndexOutOfBounds), None;
      }
      r := Pass;
      leaver := CountExit(cabin);
    }

    /** userHasExited past the cabinsList.get of a cabin that exists. */
    method CountExit(cabin: nat) returns (ghost leaver: Option<nat>)
      requires Valid() && cabin < |cabinsList|
      modifies this`happyUsers, this`abnormalUserExiting, this`score, cabinsList`usersInCabin
      ensures Valid() && cabinsList == old(cabinsList)
      ensures happyUsers == old(happyUsers) + 1 && leaver == old(cabinsList[cabin].FindUserThatCanLeave())
      ensures leaver.None? ==> abnormalUserExiting == old(abnormalUserExiting) + 1 && score == old(score)
      ensures leaver.Some? ==>
        leaver.value < |old(cabinsList[cabin].usersInCabin)| &&
        abnormalUserExiting == old(abnormalUserExiting) &&
        score == old(score) + old(cabinsList[cabin].usersInCabin[leaver.value].stillCanScore) &&
        cabinsList[cabin].usersInCabin ==
          old(cabinsList[cabin].usersInCabin[..leaver.value] + cabinsList[cabin].usersInCabin[leaver.value + 1..])
      ensures forall j :: 0 <= j < |cabinsList| && (j != cabin || leaver.None?) ==>
        cabinsList[j].usersInCabin == old(cabinsList[j].usersInCabin)
    {
      var cabinModel := cabinsList[cabin];
      happyUsers := happyUsers + 1;
      var user, gained := ExitRider(cabinModel);
      leaver := user;
      if user.None? {
        abnormalUserExiting := abnormalUserExiting + 1;
      } else {
        score := score + gained;
      }
    }

    /** The rider of model that leaves at its floor, if any, taken off its
        riders, with what it can still score. */
    static method ExitRider(model: CabinModel) returns (leaver: Option<nat>, gained: int)
      modifies model`usersInCabin
      ensures leaver == old(model.FindUserThatCanLeave())
      ensures leaver.None? ==> model.usersInCabin == old(model.usersInCabin)
      ensures leaver.Some? ==>
        leaver.value < |old(model.usersInCabin)| &&
        gained == old(model.usersInCabin[leaver.value].stillCanScore) &&
        model.usersInCabin == old(model.usersInCabin[..leaver.value] + model.usersInCabin[leaver.value + 1..])
    {
      leaver := model.FindUserThatCanLeave();
      gained := 0;
      if leaver.Some? {
        var rider := model.usersInCabin[leaver.value];
        FirstMatchIsFirstOccurrence(model.usersInCabin, LeavingAt(model.currentFloor), leaver.value);
        gained := rider.stillCanScore;
        model.usersInCabin := RemoveFirst(model.usersInCabin, rider);
      }
    }

    // -------------------------------------------------------------------------
    // findNextCommand: one tick of the whole engine
    // -------------------------------------------------------------------------

    /** The state of the loop of findNextCommand over the pool, after the
        choices made so far: the pool stays as it was, the fleet is the one
        the choices left, the choices were made in turn and only the last one
        can be the null cabin, the callers marked are the ones handed over,
        and each cabin's callers are the ones it had before the loop followed
        by the callers the choices gave it. start, vals, bound, removed and
        waiting are the fleet, the callers' data, the building height, the
        marked callers and the cabins' callers before the loop. */
    ghost predicate InPoolLoop(pool: seq<User>, start: seq<CabinView>, vals: seq<UserData>, bound: int,
                               removed: seq<User>, waiting: seq<seq<User>>,
                               choices: seq<Assignment>, marked: seq<User>, stopped: bool)
      reads this, cabinsList, Members(cabinsList), pool
    {
      Valid() && usersWaitingElevator == pool && Snapshot(pool) == vals &&
      bound == higherFloor - lowerFloor && |start| == |cabinsList| == |waiting| &&
      InTurn(start, vals, bound, pool, choices, marked, stopped) &&
      Fleet() == FleetAfter(start, vals, choices) &&
      userToRemove == removed + marked &&
      forall k :: 0 <= k < |cabinsList| ==> cabinsList[k].usersWaitingCabin == Joined(waiting[k], pool, choices, k)
    }

    /** The loop of findNextCommand over the pool: every caller gets an
        assignment attempt, on the fleet the earlier attempts left; the first
        NullPointerException ends the loop. The callers handed to a cabin (or
        to the null cabin) are the ones marked for removal. start, vals,
        bound, removed and waiting name the state before the loop. */
    method AssignWaitingUsers(ghost start: seq<CabinView>, ghost vals: seq<UserData>, ghost bound: int,
                              ghost removed: seq<User>, ghost waiting: seq<seq<User>>)
      returns (r: Outcome, ghost marked: seq<User>, ghost choices: seq<Assignment>)
      requires Valid() && start == Fleet() && vals == Snapshot(usersWaitingElevator)
      requires bound == higherFloor - lowerFloor && removed == userToRemove
      requires |waiting| == |cabinsList| && forall k :: 0 <= k < |cabinsList| ==> cabinsList[k].usersWaitingCabin == waiting[k]
      modifies this`usersWaitingElevator, this`userToRemove, cabinsList`usersWaitingCabin
      ensures Valid() && cabinsList == old(cabinsList) && usersWaitingElevator == old(usersWaitingElevator)
      ensures InTurn(start, vals, bound, usersWaitingElevator, choices, marked, r.Fail?)
      ensures choices == AssignPass(start, vals, bound)
      ensures r.Pass? ==> |choices| == |usersWaitingElevator|
      ensures r.Fail? ==> r.error == NullPointer
      ensures userToRemove == removed + marked
      ensures Distributed(usersWaitingElevator, waiting, r.Fail?, marked, choices)
    {
      var pool := usersWaitingElevator;
      FleetOfLength(cabinsList);
      marked := [];
      choices := [];
      r := Pass;
      var i := 0;
      while i < |pool| && r.Pass?
        invariant 0 <= i <= |pool| && |choices| == i && cabinsList == old(cabinsList)
        invariant InPoolLoop(pool, start, vals, bound, removed, waiting, choices, marked, r.Fail?)
        invariant r.Fail? ==> r.error == NullPointer
      {
        ghost var choice;
        r, choice := AssignPoolCaller(pool[i], pool, start, vals, bound, removed, waiting, choices, marked);
        marked := marked + (if choice.Queue? then [] else [pool[i]]);
        choices := choices + [choice];
        i := i + 1;
      }
      assert choices == AssignPass(start, vals, bound) by {
        MadeInTurnIsPass(start, vals, bound, choices);
      }
    }

    /** assignCabinToUser on the next caller of the pool, seen from the loop
        over the pool: the loop goes on one choice further, the one made in
        turn on the fleet the earlier choices left; the caller is marked
        unless it queues, and joins the callers of the cabin chosen for it. */
    method AssignPoolCaller(u: User, ghost pool: seq<User>, ghost start: seq<CabinView>, ghost vals: seq<UserData>,
                            ghost bound: int, ghost removed: seq<User>, ghost waiting: seq<seq<User>>,
                            ghost choices: seq<Assignment>, ghost marked: seq<User>)
      returns (r: Outcome, ghost choice: Assignment)
      requires |choices| < |pool| && u == pool[|choices|]
      requires InPoolLoop(pool, start, vals, bound, removed, waiting, choices, marked, false)
      modifies this`usersWaitingElevator, this`userToRemove, cabinsList`usersWaitingCabin
      ensures cabinsList == old(cabinsList)
      ensures InPoolLoop(pool, start, vals, bound, removed, waiting, choices + [choice],
                         marked + (if choice.Queue? then [] else [u]), r.Fail?)
      ensures r.Fail? ==> r.error == NullPointer
    {
      r, choice := AssignCallerInTurn(u, start, vals, bound, choices);
      AppendTwice(removed, marked, if choice.Queue? then [] else [u]);
      InTurnStep(start, vals, bound, pool, choices, marked, choice);
      HandedJoinedStep(pool, choices, choice);
    }

    /** assignCabinToUser on a caller of the pool, after the choices made for
        the callers before it: the pool stays as it is; the choice is the one
        made in turn, on the fleet the earlier choices left. */
    method AssignCallerInTurn(u: User, ghost start: seq<CabinView>, ghost vals: seq<UserData>, ghost bound: int, ghost choices: seq<Assignment>)
      returns (r: Outcome, ghost choice: Assignment)
      requires Valid() && u in usersWaitingElevator && bound == higherFloor - lowerFloor
      requires |choices| < |vals| && u.Data() == vals[|choices|]
      requires Fleet() == FleetAfter(start, vals, choices) && MadeInTurn(start, vals, bound, choices)
      modifies this`usersWaitingElevator, this`userToRemove, cabinsList`usersWaitingCabin
      ensures Valid() && cabinsList == old(cabinsList) && usersWaitingElevator == old(usersWaitingElevator)
      ensures Snapshot(usersWaitingElevator) == old(Snapshot(usersWaitingElevator))
      ensures MadeInTurn(start, vals, bound, choices + [choice])
      ensures Fleet() == FleetAfter(start, vals, choices + [choice])
      ensures choice.ToCabin? ==> choice.index < |cabinsList|
      ensures userToRemove == old(userToRemove) + (if choice.Queue? then [] else [u])
      ensures r.Fail? <==> choice.NoNearestCabin?
      ensures r.Fail? ==> r.error == NullPointer
      ensures forall k :: 0 <= k < |cabinsList| ==>
        cabinsList[k].usersWaitingCabin ==
          if choice == ToCabin(k) then old(cabinsList[k].usersWaitingCabin) + [u]
          else old(cabinsList[k].usersWaitingCabin)
    {
      ghost var pool, removed, waiting := usersWaitingElevator, userToRemove, WaitingListsOf(cabinsList);
      ghost var snap := Snapshot(pool);
      r, choice := AssignCabinToUser(u, FleetAfter(start, vals, choices), vals[|choices|], bound, pool, removed, waiting);
      assert usersWaitingElevator == pool;
      assert Snapshot(pool) == snap;
      MadeInTurnStep(start, vals, bound, choices, choice);
    }

    /** findNextCommand, one tick: the pool callers wait one tick more, each
        of them gets an assignment attempt, the ones handed to a cabin (and
        the ones marked in earlier ticks) leave the pool, and every cabin in
        fleet order decides its next command. A NullPointerException raised
        by an assignment ends the tick before the pool is cleaned, so the
        marked callers stay pending and no cabin moves. */
    method FindNextCommand() returns (r: Result<seq<CabinCommand>>, ghost marked: seq<User>,
                                      ghost choices: seq<Assignment>, ghost seen: seq<CabinView>,
                                      ghost pool0: seq<User>, ghost removed0: seq<User>, ghost waiting0: seq<seq<User>>)
      requires Valid()
      modifies this`usersWaitingElevator, this`userToRemove, cabinsList`usersWaitingCabin
      modifies cabinsList`currentFloor, cabinsList`doorOpened, cabinsList`lastCommand, cabinsList`elevatorDirection
      modifies People()
      ensures Valid() && cabinsList == old(cabinsList)
      ensures forall j :: 0 <= j < |cabinsList| ==> cabinsList[j].usersInCabin == old(cabinsList[j].usersInCabin)
      ensures pool0 == old(usersWaitingElevator) && removed0 == old(userToRemove) && waiting0 == old(WaitingListsOf(cabinsList))
      ensures Assigned(pool0, removed0, waiting0, r.Failure?, marked, choices)
      ensures r.Failure? ==>
        r.error == NullPointer && seen == [] &&
        forall j :: 0 <= j < |cabinsList| ==> cabinsList[j].State() == old(cabinsList[j].State())
      ensures r.Success? ==>
        |r.value| == |cabinsList| && |seen| == |cabinsList| &&
        forall j :: 0 <= j < |cabinsList| ==>
          seen[j].config == cabinsList[j].Configuration() && seen[j].state == old(cabinsList[j].State()) &&
          Step(r.value[j], cabinsList[j].State()) == Decide(seen[j].config, seen[j].state, seen[j].riders, seen[j].waiters)
    {
      ghost var people := People();
      pool0, removed0, waiting0 := usersWaitingElevator, userToRemove, WaitingListsOf(cabinsList);
      ListedArePeople();
      var outcome;
      outcome, marked, choices := AssignAndClean(pool0, removed0, waiting0);
      AssignedLists(pool0, removed0, waiting0, outcome.Fail?, marked, choices);
      if outcome.Fail? {
        r := Failure(outcome.error);
        seen := [];
      } else {
        var cmds;
        cmds, seen := CollectCommands(people);
        r := Success(cmds);
      }
    }

    /** What the assignment loop of findNextCommand and the clean-up after
        it leave, from the pool pool0, the marked callers removed0 and the
        cabins' callers waiting0 they started from, when failed tells whether
        a NullPointerException ended the loop: one choice per caller in pool
        order, all of them unless the last is the null nearest cabin; the
        callers handed over are the marked ones; each cabin's callers are the
        ones it had followed by the callers the choices gave it. Without an
        exception the marked callers, old and new, leave the pool and the
        marks are cleared; with one, the pool is as it was and the new marks
        are pending. */
    ghost predicate Assigned(pool0: seq<User>, removed0: seq<User>, waiting0: seq<seq<User>>,
                             failed: bool, marked: seq<User>, choices: seq<Assignment>)
      reads this`usersWaitingElevator, this`userToRemove, this`cabinsList, cabinsList`usersWaitingCabin
    {
      Distributed(pool0, waiting0, failed, marked, choices) &&
      (failed ==> usersWaitingElevator == pool0 && userToRemove == removed0 + marked) &&
      (!failed ==> usersWaitingElevator == RemoveAll(pool0, removed0 + marked) && userToRemove == [])
    }

    /** The part of Assigned about the choices and the cabins' callers. */
    ghost predicate Distributed(pool0: seq<User>, waiting0: seq<seq<User>>,
                                failed: bool, marked: seq<User>, choices: seq<Assignment>)
      reads this`cabinsList, cabinsList`usersWaitingCabin
    {
      |choices| <= |pool0| && marked == Handed(pool0, choices) &&
      (!failed <==> |choices| == |pool0| && NoNearestCabin !in choices) &&
      (failed ==> choices != [] && choices[|choices| - 1] == NoNearestCabin && marked != []) &&
      (forall c :: c in choices && c.ToCabin? ==> c.index < |cabinsList|) &&
      |waiting0| == |cabinsList| &&
      forall j :: 0 <= j < |cabinsList| ==>
        cabinsList[j].usersWaitingCabin == Joined(waiting0[j], pool0, choices, j)
    }

    /** After the loop and the clean-up, the callers marked come from the
        pool; whoever is on a cabin's list was on it before or was marked;
        without an exception each caller marked is on a cabin's list. */
    lemma AssignedLists(pool0: seq<User>, removed0: seq<User>, waiting0: seq<seq<User>>,
                        failed: bool, marked: seq<User>, choices: seq<Assignment>)
      requires Assigned(pool0, removed0, waiting0, failed, marked, choices)
      ensures forall u :: u in marked ==> u in pool0
      ensures forall j, u :: 0 <= j < |cabinsList| && u in cabinsList[j].usersWaitingCabin ==>
        u in waiting0[j] || u in marked
      ensures !failed ==>
        forall u :: u in marked ==> exists j :: 0 <= j < |cabinsList| && u in cabinsList[j].usersWaitingCabin
    {
      HandedAreCallers(pool0, choices);
      forall j | 0 <= j < |cabinsList| {
        JoinedAreHanded(waiting0[j], pool0, choices, j);
      }
      if !failed {
        HandedAreJoined(waiting0, pool0, choices);
      }
    }

    /** The first half of findNextCommand: updateScore, the assignment loop,
        then removeAll of the marked callers and clear of the marks. Every
        caller of the pool has waited one tick more; the cabins' states and
        riders stay as they are; the rest is as Assigned says. */
    method AssignAndClean(ghost pool: seq<User>, ghost removed: seq<User>, ghost waiting: seq<seq<User>>)
      returns (r: Outcome, ghost marked: seq<User>, ghost choices: seq<Assignment>)
      requires Valid()
      requires pool == usersWaitingElevator && removed == userToRemove && waiting == WaitingListsOf(cabinsList)
      modifies this`usersWaitingElevator, this`userToRemove, cabinsList`usersWaitingCabin, usersWaitingElevator
      ensures Valid() && cabinsList == old(cabinsList)
      ensures forall u :: u in old(usersWaitingElevator) ==> u.Data() == old(u.Data()).(waitTime := old(u.waitTime) + 1)
      ensures forall j :: 0 <= j < |cabinsList| ==>
        cabinsList[j].State() == old(cabinsList[j].State()) && cabinsList[j].usersInCabin == old(cabinsList[j].usersInCabin)
      ensures Assigned(pool, removed, waiting, r.Fail?, marked, choices)
      ensures r.Fail? ==> r.error == NullPointer
    {
      UpdateScore();
      r, marked, choices := AssignAndRemove(pool, removed, waiting);
    }

    /** The assignment loop of findNextCommand, then removeAll of the marked
        callers and clear of the marks, as Assigned says. */
    method AssignAndRemove(ghost pool: seq<User>, ghost removed: seq<User>, ghost waiting: seq<seq<User>>)
      returns (r: Outcome, ghost marked: seq<User>, ghost choices: seq<Assignment>)
      requires Valid()
      requires pool == usersWaitingElevator && removed == userToRemove && waiting == WaitingListsOf(cabinsList)
      modifies this`usersWaitingElevator, this`userToRemove, cabinsList`usersWaitingCabin
      ensures Valid() && cabinsList == old(cabinsList)
      ensures Assigned(pool, removed, waiting, r.Fail?, marked, choices)
      ensures r.Fail? ==> r.error == NullPointer
    {
      ghost var start := Fleet();
      ghost var vals := Snapshot(usersWaitingElevator);
      ghost var bound := higherFloor - lowerFloor;
      FleetOfLength(cabinsList);
      r, marked, choices := AssignWaitingUsers(start, vals, bound, removed, waiting);
      assert usersWaitingElevator == pool && userToRemove == removed + marked;
      assert Distributed(pool, waiting, r.Fail?, marked, choices);
      if r.Pass? {
        RemoveMarked();
      }
    }

    /** usersWaitingElevator.removeAll(userToRemove), then userToRemove.clear(). */
    method RemoveMarked()
      requires Valid()
      modifies this`usersWaitingElevator, this`userToRemove
      ensures Valid() && usersWaitingElevator == RemoveAll(old(usersWaitingElevator), old(userToRemove)) && userToRemove == []
    {
      RemoveAllNoDuplicates(usersWaitingElevator, userToRemove);
      usersWaitingElevator := RemoveAll(usersWaitingElevator, userToRemove);
      userToRemove := [];
    }

    /** Everyone on a list of the engine is someone it can reach. */
    lemma ListedArePeople()
      ensures forall j, u :: 0 <= j < |cabinsList| && u in cabinsList[j].usersInCabin ==> u in People()
      ensures forall j, u :: 0 <= j < |cabinsList| && u in cabinsList[j].usersWaitingCabin ==> u in People()
      ensures forall u :: u in usersWaitingElevator ==> u in People()
    {
      forall j, u | 0 <= j < |cabinsList| && u in cabinsList[j].usersInCabin
        ensures u in People()
      {
        var k :| 0 <= k < |cabinsList[j].usersInCabin| && cabinsList[j].usersInCabin[k] == u;
      }
      forall j, u | 0 <= j < |cabinsList| && u in cabinsList[j].usersWaitingCabin
        ensures u in People()
      {
        var k :| 0 <= k < |cabinsList[j].usersWaitingCabin| && cabinsList[j].usersWaitingCabin[k] == u;
      }
    }

    /** The last loop of findNextCommand: each cabin in fleet order takes its
        own next command. seen holds what each cabin decided on: its
        configuration, its state before the tick and some values of its
        members; which values is left unnamed here (see StepCabin). */
    method CollectCommands(ghost people: set<User>) returns (cmds: seq<CabinCommand>, ghost seen: seq<CabinView>)
      requires Valid()
      requires forall j, u :: 0 <= j < |cabinsList| && u in cabinsList[j].usersInCabin ==> u in people
      requires forall j, u :: 0 <= j < |cabinsList| && u in cabinsList[j].usersWaitingCabin ==> u in people
      modifies cabinsList`currentFloor, cabinsList`doorOpened, cabinsList`lastCommand, cabinsList`elevatorDirection
      modifies people
      ensures |cmds| == |cabinsList| && |seen| == |cabinsList|
      ensures forall j :: 0 <= j < |cabinsList| ==>
        cabinsList[j].usersInCabin == old(cabinsList[j].usersInCabin) &&
        cabinsList[j].usersWaitingCabin == old(cabinsList[j].usersWaitingCabin)
      ensures forall j :: 0 <= j < |cabinsList| ==>
        seen[j].config == cabinsList[j].Configuration() && seen[j].state == old(cabinsList[j].State()) &&
        Step(cmds[j], cabinsList[j].State()) == Decide(seen[j].config, seen[j].state, seen[j].riders, seen[j].waiters)
    {
      cmds := [];
      seen := [];
      ghost var steps: seq<Step> := [];
      var i := 0;
      while i < |cabinsList|
        invariant 0 <= i <= |cabinsList| && |cmds| == i && |seen| == i
        invariant forall j :: i <= j < |cabinsList| ==> cabinsList[j].State() == old(cabinsList[j].State())
        invariant |steps| == i
        invariant forall j :: 0 <= j < i ==>
          seen[j].config == cabinsList[j].Configuration() && seen[j].state == old(cabinsList[j].State()) &&
          Step(cmds[j], cabinsList[j].State()) == steps[j]
        invariant forall j :: 0 <= j < i ==>
          steps[j] == Decide(seen[j].config, seen[j].state, seen[j].riders, seen[j].waiters)
      {
        ghost var view;
        var nextCommand;
        nextCommand, view := StepCabin(cabinsList[i]);
        cmds := cmds + [nextCommand];
        seen := seen + [view];
        steps := steps + [Step(nextCommand, cabinsList[i].State())];
        i := i + 1;
      }
    }

    /** One cabin takes its next command; view is what it decided on: its
        configuration, its state before and some values of its members. The
        body takes them as updateScore ages them, which the cabin's own
        FindNextCommand states; this contract does not carry that out. Only
        the cabin's state and its members change, never any list. */
    static method StepCabin(c: CabinModel) returns (cmd: CabinCommand, ghost view: CabinView)
      modifies c`currentFloor, c`doorOpened, c`lastCommand, c`elevatorDirection
      modifies c.usersInCabin, c.usersWaitingCabin
      ensures view.config == c.Configuration() && view.state == old(c.State())
      ensures Step(cmd, c.State()) == Decide(view.config, view.state, view.riders, view.waiters)
    {
      var cabinModel := c;
      view := CabinView(cabinModel.Configuration(), cabinModel.State(), cabinModel.AgedRiders(), cabinModel.AgedWaiters());
      cmd := cabinModel.FindNextCommand();
    }
  }
}
