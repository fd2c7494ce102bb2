/** Who boards when a cabin reports a destination, on values: the three
    searches of floorToGo, tried in order. */
module Boarding {
  import opened Common
  import opened Cabin
  import opened Dispatch

  /** Where the boarding rider is taken from. */
  datatype Boarder =
    | OwnCaller(k: nat)            // stage 1: position k among the cabin's callers
    | PoolCaller(p: nat)           // stage 2: position p in the pool
    | OtherCaller(j: nat, k: nat)  // stage 3: position k among cabin j's callers
    | NoBoarder                    // nobody found

  /** findUserCallingFromWithDirection on a cabin view: the first assigned
      caller waiting at the cabin's own floor and going d. */
  function CallerAt(v: CabinView, d: Direction): Option<nat>
  {
    FindFirst(v.waiters, CallingFrom(v.state.floor, d))
  }

  /** The loop of stage 3: the first cabin from position j on that has a
      caller at its own floor going d, with that caller's position. */
  function FirstCallerFrom(fleet: seq<CabinView>, d: Direction, j: nat): Option<(nat, nat)>
    decreases |fleet| - j
  {
    if j >= |fleet| then None
    else match CallerAt(fleet[j], d)
      case Some(k) => Some((j, k))
      case None => FirstCallerFrom(fleet, d, j + 1)
  }

  /** The first cabin with such a caller, and nothing about the cabins before it. */
  lemma {:induction false} FirstCallerFromIsFirst(fleet: seq<CabinView>, d: Direction, j: nat)
    decreases |fleet| - j
    ensures match FirstCallerFrom(fleet, d, j)
      case Some((c, k)) =>
        j <= c < |fleet| && CallerAt(fleet[c], d) == Some(k) &&
        forall i :: j <= i < c ==> CallerAt(fleet[i], d).None?
      case None => forall i :: j <= i < |fleet| ==> CallerAt(fleet[i], d).None?
  {
    if j < |fleet| && CallerAt(fleet[j], d).None? {
      FirstCallerFromIsFirst(fleet, d, j + 1);
    }
  }

  /** floorToGo on values. The direction is the one from the boarding cabin's
      floor to the destination. Stage 1 looks among the boarding cabin's
      callers at its floor; stage 2 takes the first pool caller from that
      floor, whatever its direction; stage 3 asks every cabin in turn for a
      caller at that OTHER cabin's own floor. */
  function ChooseBoarder(fleet: seq<CabinView>, pool: seq<UserData>, cabin: nat, floor: int): Boarder
    requires cabin < |fleet|
  {
    var v := fleet[cabin];
    var d := UserDirection(v.state.floor, floor);
    match CallerAt(v, d)
    case Some(k) => OwnCaller(k)
    case None =>
      match FindFirst(pool, ComingFrom(v.state.floor))
      case Some(p) => PoolCaller(p)
      case None =>
        match FirstCallerFrom(fleet, d, 0)
        case Some((j, k)) => OtherCaller(j, k)
        case None => NoBoarder
  }

  /** The rider chosen by each stage matches that stage's search and every
      earlier stage found nobody; stage 3 never picks the boarding cabin
      itself, and nobody boards only when all three searches come back
      empty. */
  lemma BoarderFound(fleet: seq<CabinView>, pool: seq<UserData>, cabin: nat, floor: int)
    requires cabin < |fleet|
    ensures var v := fleet[cabin];
      var d := UserDirection(v.state.floor, floor);
      match ChooseBoarder(fleet, pool, cabin, floor)
      case OwnCaller(k) =>
        k < |v.waiters| && v.waiters[k].comingFrom == v.state.floor && v.waiters[k].direction == d
      case PoolCaller(p) =>
        CallerAt(v, d).None? && p < |pool| && pool[p].comingFrom == v.state.floor &&
        forall i :: 0 <= i < p ==> pool[i].comingFrom != v.state.floor
      case OtherCaller(j, k) =>
        CallerAt(v, d).None? && (forall i :: 0 <= i < |pool| ==> pool[i].comingFrom != v.state.floor) &&
        j < |fleet| && j != cabin && k < |fleet[j].waiters| &&
        fleet[j].waiters[k].comingFrom == fleet[j].state.floor && fleet[j].waiters[k].direction == d &&
        forall i :: 0 <= i < j ==> CallerAt(fleet[i], d).None?
      case NoBoarder =>
        (forall i :: 0 <= i < |pool| ==> pool[i].comingFrom != v.state.floor) &&
        forall i :: 0 <= i < |fleet| ==> CallerAt(fleet[i], d).None?
  {
    var d := UserDirection(fleet[cabin].state.floor, floor);
    FirstCallerFromIsFirst(fleet, d, 0);
  }

  /** Stage 3 compares each cabin's callers with that cabin's own floor: a
      caller two floors away from the boarding cabin is taken aboard it. */
  lemma OtherFloorCallerBoards()
    ensures var idle := CabinView(CabinConfig(0, 5, 5), CabinState(0, Up, true, None), [], []);
      var caller := UserData(1, 0, 2, Up, None, 18);
      var away := CabinView(CabinConfig(0, 5, 5), CabinState(2, Up, false, None), [], [caller]);
      ChooseBoarder([idle, away], [], 0, 4) == OtherCaller(1, 0)
  {
    var idle := CabinView(CabinConfig(0, 5, 5), CabinState(0, Up, true, None), [], []);
    var caller := UserData(1, 0, 2, Up, None, 18);
    var away := CabinView(CabinConfig(0, 5, 5), CabinState(2, Up, false, None), [], [caller]);
    assert CallerAt(away, Up) == Some(0);
    assert FirstCallerFrom([idle, away], Up, 1) == Some((1, 0));
  }

  // ---------------------------------------------------------------------------
  // The boarding on the cabins' lists of user objects
  // ---------------------------------------------------------------------------

  /** The riders and the assigned callers of one cabin. */
  datatype CabinLists = CabinLists(riders: seq<User>, callers: seq<User>)

  /** The lists of each cabin of cs, in fleet order. */
  ghost function ListsOf(cs: seq<CabinModel>): seq<CabinLists>
    reads cs
  {
    if cs == [] then [] else [CabinLists(cs[0].usersInCabin, cs[0].usersWaitingCabin)] + ListsOf(cs[1..])
  }

  lemma {:induction false} ListsOfSpec(cs: seq<CabinModel>)
    ensures |ListsOf(cs)| == |cs|
    ensures forall j :: 0 <= j < |cs| ==> ListsOf(cs)[j] == CabinLists(cs[j].usersInCabin, cs[j].usersWaitingCabin)
  {
    if cs != [] {
      ListsOfSpec(cs[1..]);
    }
  }

  /** The choice designates a position that exists. */
  predicate InRange(lists: seq<CabinLists>, pool: seq<User>, cabin: nat, b: Boarder)
  {
    cabin < |lists| &&
    match b
    case OwnCaller(k) => k < |lists[cabin].callers|
    case PoolCaller(p) => p < |pool|
    case OtherCaller(j, k) => j < |lists| && k < |lists[j].callers|
    case NoBoarder => true
  }

  /** The user object the choice designates. */
  function BoarderOf(lists: seq<CabinLists>, pool: seq<User>, cabin: nat, b: Boarder): Option<User>
    requires InRange(lists, pool, cabin, b)
  {
    match b
    case OwnCaller(k) => Some(lists[cabin].callers[k])
    case PoolCaller(p) => Some(pool[p])
    case OtherCaller(j, k) => Some(lists[j].callers[k])
    case NoBoarder => None
  }

  /** The user objects the boarding changes: the rider, if any. */
  function Designated(lists: seq<CabinLists>, pool: seq<User>, cabin: nat, b: Boarder): set<User>
    requires InRange(lists, pool, cabin, b)
  {
    match BoarderOf(lists, pool, cabin, b)
    case None => {}
    case Some(u) => {u}
  }

  /** The lists after the boarding: the rider joins the cabin's riders and is
      struck off the callers of the cabin it was found in (stage 3) or of the
      boarding cabin (stages 1 and 2, where List.remove may find nothing). */
  function Boarded(lists: seq<CabinLists>, pool: seq<User>, cabin: nat, b: Boarder): seq<CabinLists>
    requires InRange(lists, pool, cabin, b)
  {
    match BoarderOf(lists, pool, cabin, b)
    case None => lists
    case Some(u) =>
      var from := if b.OtherCaller? then b.j else cabin;
      var struck := lists[from := lists[from].(callers := RemoveFirst(lists[from].callers, u))];
      struck[cabin := struck[cabin].(riders := struck[cabin].riders + [u])]
  }

  /** Lists that differ from lists exactly where the boarding says are the
      boarded lists. */
  lemma BoardedByParts(lists: seq<CabinLists>, pool: seq<User>, cabin: nat, b: Boarder, r: seq<CabinLists>)
    requires InRange(lists, pool, cabin, b) && BoarderOf(lists, pool, cabin, b).Some?
    requires |r| == |lists|
    requires var u := BoarderOf(lists, pool, cabin, b).value;
      var from := if b.OtherCaller? then b.j else cabin;
      forall i :: 0 <= i < |r| ==>
        r[i].riders == (if i == cabin then lists[i].riders + [u] else lists[i].riders) &&
        r[i].callers == (if i == from then RemoveFirst(lists[i].callers, u) else lists[i].callers)
    ensures r == Boarded(lists, pool, cabin, b)
  {
    var t := Boarded(lists, pool, cabin, b);
    assert |t| == |r|;
    forall i | 0 <= i < |r|
      ensures r[i] == t[i]
    {
      assert r[i].riders == t[i].riders && r[i].callers == t[i].callers;
    }
  }

  /** How many abnormal entries the boarding logs: one when nobody is found,
      one when the pool's rider was not among the cabin's callers. */
  function AbnormalEntries(lists: seq<CabinLists>, pool: seq<User>, cabin: nat, b: Boarder): nat
    requires InRange(lists, pool, cabin, b)
  {
    match b
    case NoBoarder => 1
    case PoolCaller(p) => if pool[p] in lists[cabin].callers then 0 else 1
    case _ => 0
  }

  /** The boarding adds exactly the rider to the boarding cabin, takes one
      occurrence of it off one list of callers, and leaves every other list
      as it was. A caller found among the cabin's own callers or another
      cabin's is never abnormal. */
  lemma BoardedEffect(lists: seq<CabinLists>, pool: seq<User>, cabin: nat, b: Boarder)
    requires InRange(lists, pool, cabin, b)
    ensures var r := Boarded(lists, pool, cabin, b);
      |r| == |lists| &&
      match BoarderOf(lists, pool, cabin, b)
      case None => r == lists && AbnormalEntries(lists, pool, cabin, b) == 1
      case Some(u) =>
        var from := if b.OtherCaller? then b.j else cabin;
        r[cabin].riders == lists[cabin].riders + [u] &&
        multiset(r[from].callers) == multiset(lists[from].callers) - multiset{u} &&
        AbnormalEntries(lists, pool, cabin, b) == (if b.PoolCaller? && u !in lists[cabin].callers then 1 else 0) &&
        forall i :: 0 <= i < |lists| ==>
          (i != cabin ==> r[i].riders == lists[i].riders) &&
          (i != from ==> r[i].callers == lists[i].callers)
  {
    match BoarderOf(lists, pool, cabin, b)
    case None =>
    case Some(u) =>
      var from := if b.OtherCaller? then b.j else cabin;
      RemoveFirstMultiset(lists[from].callers, u);
  }
}
