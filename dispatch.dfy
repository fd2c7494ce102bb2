/** The assignment rule of the engine on values: which cabins accept a caller,
    which of them is nearest, and where the caller ends up. */
module Dispatch {
  import opened Common
  import opened Cabin

  /** A cabin at one instant: its configuration, its state and the values of
      its riders and assigned callers. */
  datatype CabinView = CabinView(
    config: CabinConfig,
    state: CabinState,
    riders: seq<UserData>,
    waiters: seq<UserData>)

  /** Every rider aboard and every caller assigned, in any cabin of cs. */
  ghost function Members(cs: seq<CabinModel>): set<User>
    reads cs`usersInCabin, cs`usersWaitingCabin
  {
    (set j, k | 0 <= j < |cs| && 0 <= k < |cs[j].usersInCabin| :: cs[j].usersInCabin[k]) +
    (set j, k | 0 <= j < |cs| && 0 <= k < |cs[j].usersWaitingCabin| :: cs[j].usersWaitingCabin[k])
  }

  /** The callers assigned to each cabin of cs, cabin by cabin. */
  ghost function WaitingListsOf(cs: seq<CabinModel>): (r: seq<seq<User>>)
    reads cs`usersWaitingCabin
    ensures |r| == |cs| && forall j :: 0 <= j < |cs| ==> r[j] == cs[j].usersWaitingCabin
  {
    if cs == [] then [] else [cs[0].usersWaitingCabin] + WaitingListsOf(cs[1..])
  }

  function ViewOf(c: CabinModel): CabinView
    reads c, c.usersInCabin, c.usersWaitingCabin
  {
    CabinView(c.Configuration(), c.State(), c.Riders(), c.Waiters())
  }

  /** The views of a list of cabins, in list order. */
  function FleetOf(cs: seq<CabinModel>): seq<CabinView>
    reads cs, Members(cs)
  {
    if cs == [] then []
    else
      assert forall k :: 0 <= k < |cs[0].usersInCabin| ==> cs[0].usersInCabin[k] in Members(cs);
      assert forall k :: 0 <= k < |cs[0].usersWaitingCabin| ==> cs[0].usersWaitingCabin[k] in Members(cs);
      [ViewOf(cs[0])] + FleetOf(cs[1..])
  }

  /** The fleet holds one view per cabin. */
  lemma {:induction false} FleetOfLength(cs: seq<CabinModel>)
    ensures |FleetOf(cs)| == |cs|
  {
    if cs != [] {
      FleetOfLength(cs[1..]);
    }
  }

  /** Each view in the fleet shows its cabin's floor. */
  lemma FleetOfFloors(cs: seq<CabinModel>)
    ensures |FleetOf(cs)| == |cs|
    ensures forall k :: 0 <= k < |cs| ==> FleetOf(cs)[k].state.floor == cs[k].currentFloor
  {
    FleetOfViews(cs);
  }

  /** The fleet holds one view per cabin, position by position. */
  lemma {:induction false} FleetOfViews(cs: seq<CabinModel>)
    ensures |FleetOf(cs)| == |cs|
    ensures forall k :: 0 <= k < |cs| ==> FleetOf(cs)[k] == ViewOf(cs[k])
  {
    if cs != [] {
      FleetOfViews(cs[1..]);
    }
  }

  // ---------------------------------------------------------------------------
  // Eligible cabins
  // ---------------------------------------------------------------------------

  /** The filter of findEligibleCabins: a cabin holding exactly its size
      refuses; an idle cabin (nobody aboard or assigned, or nobody left who
      can score) accepts anybody; otherwise the cabin must be going the
      caller's way and not have passed the caller's floor. */
  predicate Accepts(v: CabinView, u: UserData)
  {
    if |v.riders| == v.config.cabinSize then false
    else if (v.riders == [] && v.waiters == []) || !HasScoringMember(v.riders, v.waiters) then true
    else Eligible(v.state, u)
  }

  /** The cabins from position i on that accept u, in fleet order. */
  function EligibleFrom(fleet: seq<CabinView>, u: UserData, i: nat): seq<nat>
    decreases |fleet| - i
  {
    if i >= |fleet| then []
    else if Accepts(fleet[i], u) then [i] + EligibleFrom(fleet, u, i + 1)
    else EligibleFrom(fleet, u, i + 1)
  }

  /** The scan from position i lists only accepting cabins at or after i. */
  lemma {:induction false} EligibleFromBounds(fleet: seq<CabinView>, u: UserData, i: nat)
    decreases |fleet| - i
    ensures forall p :: 0 <= p < |EligibleFrom(fleet, u, i)| ==>
      i <= EligibleFrom(fleet, u, i)[p] < |fleet| && Accepts(fleet[EligibleFrom(fleet, u, i)[p]], u)
  {
    if i < |fleet| {
      EligibleFromBounds(fleet, u, i + 1);
      var rest := EligibleFrom(fleet, u, i + 1);
      var r := EligibleFrom(fleet, u, i);
      forall p | 0 <= p < |r|
        ensures i <= r[p] < |fleet| && Accepts(fleet[r[p]], u)
      {
        if Accepts(fleet[i], u) {
          assert r == [i] + rest;
          if p > 0 {
            assert r[p] == rest[p - 1];
          }
        } else {
          assert r == rest;
          assert r[p] == rest[p];
        }
      }
    }
  }

  /** The scan from position i misses no accepting cabin at or after i. */
  lemma {:induction false} EligibleFromComplete(fleet: seq<CabinView>, u: UserData, i: nat)
    decreases |fleet| - i
    ensures forall k :: i <= k < |fleet| && Accepts(fleet[k], u) ==> k in EligibleFrom(fleet, u, i)
  {
    if i < |fleet| {
      EligibleFromComplete(fleet, u, i + 1);
    }
  }

  /** The scan from position i lists the cabins in increasing order. */
  lemma {:induction false} EligibleFromIncreasing(fleet: seq<CabinView>, u: UserData, i: nat)
    decreases |fleet| - i
    ensures forall p, q :: 0 <= p < q < |EligibleFrom(fleet, u, i)| ==>
      EligibleFrom(fleet, u, i)[p] < EligibleFrom(fleet, u, i)[q]
  {
    if i < |fleet| {
      EligibleFromIncreasing(fleet, u, i + 1);
      EligibleFromBounds(fleet, u, i + 1);
      var rest := EligibleFrom(fleet, u, i + 1);
      var r := EligibleFrom(fleet, u, i);
      forall p, q | 0 <= p < q < |r|
        ensures r[p] < r[q]
      {
        if Accepts(fleet[i], u) {
          assert r == [i] + rest;
          assert r[q] == rest[q - 1];
          if p > 0 {
            assert r[p] == rest[p - 1];
          }
        } else {
          assert r == rest;
          assert r[p] == rest[p] && r[q] == rest[q];
        }
      }
    }
  }

  /** findEligibleCabins: the scan of the whole fleet. */
  function EligibleCabins(fleet: seq<CabinView>, u: UserData): seq<nat>
  {
    EligibleFrom(fleet, u, 0)
  }

  /** findEligibleCabins lists exactly the cabins that accept u, in fleet
      order, each once. */
  lemma EligibleCabinsSpec(fleet: seq<CabinView>, u: UserData)
    ensures var r := EligibleCabins(fleet, u);
      forall p :: 0 <= p < |r| ==> r[p] < |fleet| && Accepts(fleet[r[p]], u)
    ensures var r := EligibleCabins(fleet, u);
      forall k :: 0 <= k < |fleet| ==> (k in r <==> Accepts(fleet[k], u))
    ensures var r := EligibleCabins(fleet, u);
      forall p, q :: 0 <= p < q < |r| ==> r[p] < r[q]
  {
    EligibleFromBounds(fleet, u, 0);
    EligibleFromComplete(fleet, u, 0);
    EligibleFromIncreasing(fleet, u, 0);
    var r := EligibleCabins(fleet, u);
    assert r == EligibleFrom(fleet, u, 0);
    forall k | 0 <= k < |fleet| && k in r
      ensures Accepts(fleet[k], u)
    {
      var p :| 0 <= p < |r| && r[p] == k;
      assert Accepts(fleet[r[p]], u);
    }
  }

  /** Every position findEligibleCabins lists is a cabin of the fleet. */
  lemma EligibleInRange(fleet: seq<CabinView>, u: UserData)
    ensures forall p :: 0 <= p < |EligibleCabins(fleet, u)| ==> EligibleCabins(fleet, u)[p] < |fleet|
  {
    EligibleCabinsSpec(fleet, u);
  }

  // ---------------------------------------------------------------------------
  // The nearest cabin: a running minimum that only a strictly smaller
  // distance replaces, starting from the height of the building
  // ---------------------------------------------------------------------------

  /** The scan of findNearestCabinForUser from position i on, with the best
      distance so far and the position that achieved it. */
  function NearestFrom(floors: seq<int>, from: int, i: nat, minDistance: int, best: Option<nat>): Option<nat>
    decreases |floors| - i
  {
    if i >= |floors| then best
    else if Abs(floors[i] - from) < minDistance then
      NearestFrom(floors, from, i + 1, Abs(floors[i] - from), Some(i))
    else
      NearestFrom(floors, from, i + 1, minDistance, best)
  }

  /** What the scan keeps: started from a best position that is the nearest
      of the first i floors (the first such, and no further than minDistance),
      it ends on the nearest of all floors, or on none when none is strictly
      closer than minDistance and nothing was found before. */
  lemma {:induction false} NearestFromIsNearest(floors: seq<int>, from: int, i: nat, minDistance: int, best: Option<nat>)
    requires i <= |floors|
    requires best.Some? ==> best.value < i && minDistance == Abs(floors[best.value] - from)
    requires forall p :: 0 <= p < i ==> Abs(floors[p] - from) >= minDistance
    requires best.Some? ==> forall p :: 0 <= p < best.value ==> Abs(floors[p] - from) > minDistance
    decreases |floors| - i
    ensures var r := NearestFrom(floors, from, i, minDistance, best);
      (r.None? ==> best.None? && forall p :: 0 <= p < |floors| ==> Abs(floors[p] - from) >= minDistance) &&
      (r.Some? ==> r.value < |floors| && Abs(floors[r.value] - from) <= minDistance) &&
      (r.Some? && best.None? ==> Abs(floors[r.value] - from) < minDistance) &&
      (r.Some? ==> forall p :: 0 <= p < |floors| ==> Abs(floors[r.value] - from) <= Abs(floors[p] - from)) &&
      (r.Some? ==> forall p :: 0 <= p < r.value ==> Abs(floors[p] - from) > Abs(floors[r.value] - from))
  {
    if i < |floors| {
      if Abs(floors[i] - from) < minDistance {
        NearestFromIsNearest(floors, from, i + 1, Abs(floors[i] - from), Some(i));
      } else {
        NearestFromIsNearest(floors, from, i + 1, minDistance, best);
      }
    }
  }

  /** Position of the nearest floor to `from`, strictly closer than bound;
      the first one wins a tie; none when every floor is bound or further. */
  function Nearest(floors: seq<int>, from: int, bound: int): (r: Option<nat>)
    ensures r.None? <==> forall p :: 0 <= p < |floors| ==> Abs(floors[p] - from) >= bound
    ensures r.Some? ==> r.value < |floors| && Abs(floors[r.value] - from) < bound
    ensures r.Some? ==> forall p :: 0 <= p < |floors| ==> Abs(floors[r.value] - from) <= Abs(floors[p] - from)
    ensures r.Some? ==> forall p :: 0 <= p < r.value ==> Abs(floors[p] - from) > Abs(floors[r.value] - from)
  {
    NearestFromIsNearest(floors, from, 0, bound, None);
    NearestFrom(floors, from, 0, bound, None)
  }

  /** The cabin at the position Nearest picks among the listed cabins. */
  function NearestCabin(cabins: seq<nat>, floors: seq<int>, from: int, bound: int): Option<nat>
    requires |floors| == |cabins|
  {
    match Nearest(floors, from, bound)
    case None => None
    case Some(p) => Some(cabins[p])
  }

  /** The floors of the listed cabins, in the same order. */
  function FloorsIn(fleet: seq<CabinView>, cabins: seq<nat>): (r: seq<int>)
    requires forall p :: 0 <= p < |cabins| ==> cabins[p] < |fleet|
    ensures |r| == |cabins| && forall p :: 0 <= p < |cabins| ==> r[p] == fleet[cabins[p]].state.floor
  {
    if cabins == [] then [] else [fleet[cabins[0]].state.floor] + FloorsIn(fleet, cabins[1..])
  }

  // ---------------------------------------------------------------------------
  // Assignment
  // ---------------------------------------------------------------------------

  /** Where assignCabinToUser puts a caller. */
  datatype Assignment =
    | Queue               // no cabin accepts: the caller waits in the pool
    | ToCabin(index: nat) // the caller is assigned to that cabin
    | NoNearestCabin      // several accept but none is close enough: null is dereferenced

  /** The pool when no cabin accepts, the only accepting cabin when there is
      one, else the nearest of them (bound is the height of the building). */
  function ChooseCabin(fleet: seq<CabinView>, u: UserData, bound: int): (r: Assignment)
    ensures r.ToCabin? ==> r.index < |fleet| && Accepts(fleet[r.index], u)
  {
    var e := EligibleCabins(fleet, u);
    EligibleFromBounds(fleet, u, 0);
    if |e| == 0 then Queue
    else if |e| == 1 then ToCabin(e[0])
    else
      match NearestCabin(e, FloorsIn(fleet, e), u.comingFrom, bound)
      case None => NoNearestCabin
      case Some(c) => ToCabin(c)
  }

  /** A single accepting cabin takes the caller whatever its distance. */
  lemma OnlyAcceptingCabinChosen(fleet: seq<CabinView>, u: UserData, bound: int, k: nat)
    requires k < |fleet| && Accepts(fleet[k], u)
    requires forall j :: 0 <= j < |fleet| && j != k ==> !Accepts(fleet[j], u)
    ensures ChooseCabin(fleet, u, bound) == ToCabin(k)
  {
    EligibleFromSingle(fleet, u, 0, k);
  }

  /** The scan from position i when k is the only accepting cabin. */
  lemma {:induction false} EligibleFromSingle(fleet: seq<CabinView>, u: UserData, i: nat, k: nat)
    requires k < |fleet| && Accepts(fleet[k], u)
    requires forall j :: i <= j < |fleet| && j != k ==> !Accepts(fleet[j], u)
    decreases |fleet| - i
    ensures EligibleFrom(fleet, u, i) == if i <= k then [k] else []
  {
    if i < |fleet| {
      EligibleFromSingle(fleet, u, i + 1, k);
    }
  }

  /** A caller queues in the pool exactly when no cabin accepts it. */
  lemma QueueIffNoneAccepts(fleet: seq<CabinView>, u: UserData, bound: int)
    ensures ChooseCabin(fleet, u, bound).Queue? <==>
      forall k :: 0 <= k < |fleet| ==> !Accepts(fleet[k], u)
  {
    var e := EligibleCabins(fleet, u);
    EligibleCabinsSpec(fleet, u);
    if |e| == 0 {
      forall k | 0 <= k < |fleet| ensures !Accepts(fleet[k], u) {
        assert k !in e;
      }
    } else {
      assert Accepts(fleet[e[0]], u);
    }
  }

  /** Every accepting cabin appears among the floors compared. */
  lemma AcceptingFloorCompared(fleet: seq<CabinView>, u: UserData, k: nat)
    requires k < |fleet| && Accepts(fleet[k], u)
    ensures forall p :: 0 <= p < |EligibleCabins(fleet, u)| ==> EligibleCabins(fleet, u)[p] < |fleet|
    ensures var e := EligibleCabins(fleet, u);
      exists p :: 0 <= p < |e| && e[p] == k && FloorsIn(fleet, e)[p] == fleet[k].state.floor
  {
    var e := EligibleCabins(fleet, u);
    EligibleCabinsSpec(fleet, u);
    assert k in e;
    var p :| 0 <= p < |e| && e[p] == k;
    assert FloorsIn(fleet, e)[p] == fleet[k].state.floor;
  }

  /** When several cabins accept, the one chosen is strictly closer than
      bound and no further from the caller than any other accepting cabin. */
  lemma ChosenCabinIsNearest(fleet: seq<CabinView>, u: UserData, bound: int)
    requires |EligibleCabins(fleet, u)| > 1 && ChooseCabin(fleet, u, bound).ToCabin?
    ensures var c := ChooseCabin(fleet, u, bound).index;
      c < |fleet| && Abs(fleet[c].state.floor - u.comingFrom) < bound &&
      forall k :: 0 <= k < |fleet| && Accepts(fleet[k], u) ==>
        Abs(fleet[c].state.floor - u.comingFrom) <= Abs(fleet[k].state.floor - u.comingFrom)
  {
    var e := EligibleCabins(fleet, u);
    EligibleCabinsSpec(fleet, u);
    var floors := FloorsIn(fleet, e);
    var p := Nearest(floors, u.comingFrom, bound).value;
    forall k | 0 <= k < |fleet| && Accepts(fleet[k], u)
      ensures Abs(floors[p] - u.comingFrom) <= Abs(fleet[k].state.floor - u.comingFrom)
    {
      AcceptingFloorCompared(fleet, u, k);
    }
  }

  /** In a strictly increasing list a smaller entry sits at an earlier position. */
  lemma IncreasingPositions(e: seq<nat>, q: nat, p: nat)
    requires q < |e| && p < |e| && e[q] < e[p]
    requires forall a, b :: 0 <= a < b < |e| ==> e[a] < e[b]
    ensures q < p
  {
  }

  /** Of accepting cabins at the same distance the first in fleet order
      wins: every accepting cabin before the chosen one is strictly further. */
  lemma ChosenCabinIsFirstNearest(fleet: seq<CabinView>, u: UserData, bound: int)
    requires |EligibleCabins(fleet, u)| > 1 && ChooseCabin(fleet, u, bound).ToCabin?
    ensures var c := ChooseCabin(fleet, u, bound).index;
      forall k :: 0 <= k < c && Accepts(fleet[k], u) ==>
        Abs(fleet[k].state.floor - u.comingFrom) > Abs(fleet[c].state.floor - u.comingFrom)
  {
    var e := EligibleCabins(fleet, u);
    EligibleFromBounds(fleet, u, 0);
    var floors := FloorsIn(fleet, e);
    var p := Nearest(floors, u.comingFrom, bound).value;
    assert ChooseCabin(fleet, u, bound) == ToCabin(e[p]);
    forall k | 0 <= k < e[p] && Accepts(fleet[k], u)
      ensures Abs(fleet[k].state.floor - u.comingFrom) > Abs(floors[p] - u.comingFrom)
    {
      var q := AcceptingBefore(fleet, u, p, k);
      assert floors[q] == fleet[k].state.floor;
    }
  }

  /** An accepting cabin before the one listed at position p is listed at an
      earlier position. */
  lemma AcceptingBefore(fleet: seq<CabinView>, u: UserData, p: nat, k: nat) returns (q: nat)
    requires k < |fleet| && Accepts(fleet[k], u)
    requires p < |EligibleCabins(fleet, u)| && k < EligibleCabins(fleet, u)[p]
    ensures q < p && EligibleCabins(fleet, u)[q] == k
  {
    var e := EligibleCabins(fleet, u);
    EligibleCabinsSpec(fleet, u);
    assert k in e;
    q :| 0 <= q < |e| && e[q] == k;
    IncreasingPositions(e, q, p);
  }

  /** The null dereference happens exactly when several cabins accept and
      every one of them is bound or further away from the caller. */
  lemma NoNearestIffAllTooFar(fleet: seq<CabinView>, u: UserData, bound: int)
    ensures ChooseCabin(fleet, u, bound).NoNearestCabin? <==>
      |EligibleCabins(fleet, u)| > 1 &&
      forall k :: 0 <= k < |fleet| && Accepts(fleet[k], u) ==> Abs(fleet[k].state.floor - u.comingFrom) >= bound
  {
    var e := EligibleCabins(fleet, u);
    EligibleCabinsSpec(fleet, u);
    if |e| > 1 {
      var floors := FloorsIn(fleet, e);
      if Nearest(floors, u.comingFrom, bound).None? {
        forall k | 0 <= k < |fleet| && Accepts(fleet[k], u)
          ensures Abs(fleet[k].state.floor - u.comingFrom) >= bound
        {
          AcceptingFloorCompared(fleet, u, k);
        }
      } else {
        var p := Nearest(floors, u.comingFrom, bound).value;
        assert Accepts(fleet[e[p]], u);
      }
    }
  }

  // ---------------------------------------------------------------------------
  // The assignment loop of a tick
  // ---------------------------------------------------------------------------

  /** The fleet once caller u has joined the callers of the cabin the choice
      names; the pool and the null cabin leave it as it was. */
  function Placed(fleet: seq<CabinView>, u: UserData, choice: Assignment): (r: seq<CabinView>)
    ensures |r| == |fleet|
    ensures forall j :: 0 <= j < |fleet| ==>
      r[j] == if choice == ToCabin(j) then fleet[j].(waiters := fleet[j].waiters + [u]) else fleet[j]
  {
    if choice.ToCabin? && choice.index < |fleet| then
      fleet[choice.index := fleet[choice.index].(waiters := fleet[choice.index].waiters + [u])]
    else fleet
  }

  /** The loop over the pool on values: each caller in turn gets the choice
      ChooseCabin makes on the fleet the earlier choices left; a null nearest
      cabin ends the loop after that caller. */
  function AssignPass(fleet: seq<CabinView>, pool: seq<UserData>, bound: int): seq<Assignment>
    decreases |pool|
  {
    if pool == [] then []
    else
      var c := ChooseCabin(fleet, pool[0], bound);
      if c.NoNearestCabin? then [c]
      else [c] + AssignPass(Placed(fleet, pool[0], c), pool[1..], bound)
  }

  /** The loop makes one choice per caller, the first on the fleet as given;
      it stops early only on a null nearest cabin, and that choice is the
      last one made. */
  lemma {:induction false} AssignPassShape(fleet: seq<CabinView>, pool: seq<UserData>, bound: int)
    decreases |pool|
    ensures var r := AssignPass(fleet, pool, bound);
      |r| <= |pool| &&
      (|pool| > 0 ==> r != [] && r[0] == ChooseCabin(fleet, pool[0], bound)) &&
      (forall i :: 0 <= i < |r| - 1 ==> !r[i].NoNearestCabin?) &&
      (|r| < |pool| ==> r != [] && r[|r| - 1].NoNearestCabin?)
  {
    if pool != [] {
      var c := ChooseCabin(fleet, pool[0], bound);
      if !c.NoNearestCabin? {
        var rest := AssignPass(Placed(fleet, pool[0], c), pool[1..], bound);
        AssignPassShape(Placed(fleet, pool[0], c), pool[1..], bound);
        assert AssignPass(fleet, pool, bound) == [c] + rest;
        forall i | 0 <= i < |rest| ensures AssignPass(fleet, pool, bound)[i + 1] == rest[i] { }
      }
    }
  }

  /** One more step of the loop: the choice for the caller at position i,
      made on the fleet the first i choices left. */
  lemma AssignPassStep(fleet: seq<CabinView>, pool: seq<UserData>, bound: int, i: nat)
    requires i < |pool|
    ensures var c := ChooseCabin(fleet, pool[i], bound);
      AssignPass(fleet, pool[i..], bound) ==
        if c.NoNearestCabin? then [c] else [c] + AssignPass(Placed(fleet, pool[i], c), pool[i + 1..], bound)
  {
    assert pool[i..][1..] == pool[i + 1..];
  }

  /** The fleet the first choices leave, the callers of the pool taken in
      order. */
  function FleetAfter(fleet: seq<CabinView>, pool: seq<UserData>, choices: seq<Assignment>): seq<CabinView>
    requires |choices| <= |pool|
  {
    if choices == [] then fleet
    else
      var n := |choices| - 1;
      Placed(FleetAfter(fleet, pool, choices[..n]), pool[n], choices[n])
  }

  /** Each choice is the one ChooseCabin makes for its caller on the fleet
      the earlier choices left. */
  predicate MadeInTurn(fleet: seq<CabinView>, pool: seq<UserData>, bound: int, choices: seq<Assignment>)
    requires |choices| <= |pool|
  {
    choices == [] ||
    var n := |choices| - 1;
    MadeInTurn(fleet, pool, bound, choices[..n]) &&
    choices[n] == ChooseCabin(FleetAfter(fleet, pool, choices[..n]), pool[n], bound)
  }

  /** One more choice made in turn. */
  lemma MadeInTurnStep(fleet: seq<CabinView>, pool: seq<UserData>, bound: int, choices: seq<Assignment>, c: Assignment)
    requires |choices| < |pool| && MadeInTurn(fleet, pool, bound, choices)
    requires c == ChooseCabin(FleetAfter(fleet, pool, choices), pool[|choices|], bound)
    ensures MadeInTurn(fleet, pool, bound, choices + [c])
    ensures FleetAfter(fleet, pool, choices + [c]) == Placed(FleetAfter(fleet, pool, choices), pool[|choices|], c)
  {
    assert (choices + [c])[..|choices|] == choices;
  }

  /** Choices made in turn, none of them the null cabin, are the start of
      the loop's choices; the rest is the loop on the fleet they left. */
  lemma {:induction false} MadeInTurnIsPrefix(fleet: seq<CabinView>, pool: seq<UserData>, bound: int, choices: seq<Assignment>)
    requires |choices| <= |pool| && MadeInTurn(fleet, pool, bound, choices) && NoNearestCabin !in choices
    ensures AssignPass(fleet, pool, bound) ==
      choices + AssignPass(FleetAfter(fleet, pool, choices), pool[|choices|..], bound)
  {
    if choices == [] {
      assert pool[0..] == pool;
    } else {
      var n := |choices| - 1;
      var prefix, c := choices[..n], choices[n];
      var before := FleetAfter(fleet, pool, prefix);
      assert choices == prefix + [c];
      assert c == ChooseCabin(before, pool[n], bound) && !c.NoNearestCabin?;
      assert FleetAfter(fleet, pool, choices) == Placed(before, pool[n], c);
      var rest := AssignPass(Placed(before, pool[n], c), pool[n + 1..], bound);
      MadeInTurnIsPrefix(fleet, pool, bound, prefix);
      AssignPassStep(before, pool, bound, n);
      assert AssignPass(before, pool[n..], bound) == [c] + rest;
      AppendTwice(prefix, [c], rest);
    }
  }

  /** The loop's choices are exactly the ones made in turn, when the pool is
      exhausted without a null cabin or when the last one is the null cabin. */
  lemma MadeInTurnIsPass(fleet: seq<CabinView>, pool: seq<UserData>, bound: int, choices: seq<Assignment>)
    requires |choices| <= |pool| && MadeInTurn(fleet, pool, bound, choices)
    requires forall k :: 0 <= k < |choices| - 1 ==> choices[k] != NoNearestCabin
    requires |choices| == |pool| || (choices != [] && choices[|choices| - 1] == NoNearestCabin)
    ensures AssignPass(fleet, pool, bound) == choices
  {
    if choices != [] && choices[|choices| - 1] == NoNearestCabin {
      var n := |choices| - 1;
      assert choices == choices[..n] + [NoNearestCabin];
      StoppedInTurnIsPass(fleet, pool, bound, choices[..n]);
    } else {
      assert NoNearestCabin !in choices;
      ExhaustedInTurnIsPass(fleet, pool, bound, choices);
    }
  }

  /** Choices made in turn for the whole pool, none of them the null cabin,
      are all the loop's choices. */
  lemma ExhaustedInTurnIsPass(fleet: seq<CabinView>, pool: seq<UserData>, bound: int, choices: seq<Assignment>)
    requires |choices| == |pool| && MadeInTurn(fleet, pool, bound, choices) && NoNearestCabin !in choices
    ensures AssignPass(fleet, pool, bound) == choices
  {
    MadeInTurnIsPrefix(fleet, pool, bound, choices);
    assert pool[|choices|..] == [];
  }

  /** Choices made in turn, none of them the null cabin, followed by the
      null cabin for the next caller, are all the loop's choices. */
  lemma StoppedInTurnIsPass(fleet: seq<CabinView>, pool: seq<UserData>, bound: int, prefix: seq<Assignment>)
    requires |prefix| < |pool| && MadeInTurn(fleet, pool, bound, prefix) && NoNearestCabin !in prefix
    requires ChooseCabin(FleetAfter(fleet, pool, prefix), pool[|prefix|], bound) == NoNearestCabin
    ensures AssignPass(fleet, pool, bound) == prefix + [NoNearestCabin]
  {
    MadeInTurnIsPrefix(fleet, pool, bound, prefix);
    AssignPassStep(FleetAfter(fleet, pool, prefix), pool, bound, |prefix|);
  }

  /** The callers the choices hand over, to a cabin or to the null cabin, in
      pool order: the ones marked for removal. */
  function Handed<T>(xs: seq<T>, choices: seq<Assignment>): seq<T>
    requires |choices| <= |xs|
  {
    if choices == [] then []
    else
      var n := |choices| - 1;
      Handed(xs, choices[..n]) + (if choices[n].Queue? then [] else [xs[n]])
  }

  /** Cabin k's list of callers, w before the loop, once the choices are
      made: the callers the choices assign to cabin k join it in pool order. */
  function Joined<T>(w: seq<T>, xs: seq<T>, choices: seq<Assignment>, k: nat): seq<T>
    requires |choices| <= |xs|
  {
    if choices == [] then w
    else
      var n := |choices| - 1;
      if choices[n] == ToCabin(k) then Joined(w, xs, choices[..n], k) + [xs[n]]
      else Joined(w, xs, choices[..n], k)
  }

  /** One more choice extends the marked callers and the callers of the
      cabin it names by the caller it concerns, if any. */
  lemma HandedJoinedStep<T>(xs: seq<T>, choices: seq<Assignment>, c: Assignment)
    requires |choices| < |xs|
    ensures Handed(xs, choices + [c]) == Handed(xs, choices) + (if c.Queue? then [] else [xs[|choices|]])
    ensures forall w: seq<T>, k: nat ::
      Joined(w, xs, choices + [c], k) ==
        if c == ToCabin(k) then Joined(w, xs, choices, k) + [xs[|choices|]] else Joined(w, xs, choices, k)
  {
    assert (choices + [c])[..|choices|] == choices;
  }

  /** Only callers of the pool are handed over. */
  lemma {:induction false} HandedAreCallers<T>(xs: seq<T>, choices: seq<Assignment>)
    requires |choices| <= |xs|
    ensures forall x :: x in Handed(xs, choices) ==> x in xs
  {
    if choices != [] {
      HandedAreCallers(xs, choices[..|choices| - 1]);
    }
  }

  /** Whoever is on a cabin's list once the choices are made was on it
      before or was handed over by the choices. */
  lemma {:induction false} JoinedAreHanded<T>(w: seq<T>, xs: seq<T>, choices: seq<Assignment>, k: nat)
    requires |choices| <= |xs|
    ensures forall x :: x in Joined(w, xs, choices, k) ==> x in w || x in Handed(xs, choices)
  {
    if choices != [] {
      var m := |choices| - 1;
      var prefix := choices[..m];
      assert choices == prefix + [choices[m]];
      HandedJoinedStep(xs, prefix, choices[m]);
      JoinedAreHanded(w, xs, prefix, k);
    }
  }

  /** The state of the assignment loop over a pool of callers xs, whose
      data are pool, after |choices| turns on the n cabins of fleet: each
      choice was made in turn; only the last one can be the null cabin, and
      it is exactly when the loop stopped; every cabin chosen exists; the
      callers marked are the ones handed over, in pool order. */
  ghost predicate InTurn<T>(fleet: seq<CabinView>, pool: seq<UserData>, bound: int, xs: seq<T>,
                            choices: seq<Assignment>, marked: seq<T>, stopped: bool)
  {
    |choices| <= |pool| == |xs| &&
    MadeInTurn(fleet, pool, bound, choices) &&
    (forall k :: 0 <= k < |choices| - 1 ==> choices[k] != NoNearestCabin) &&
    (stopped <==> choices != [] && choices[|choices| - 1] == NoNearestCabin) &&
    (!stopped ==> NoNearestCabin !in choices) &&
    (stopped ==> marked != []) &&
    (forall c :: c in choices && c.ToCabin? ==> c.index < |fleet|) &&
    marked == Handed(xs, choices)
  }

  /** A turn taken while the loop runs keeps it in turn, one choice further. */
  lemma InTurnStep<T>(fleet: seq<CabinView>, pool: seq<UserData>, bound: int, xs: seq<T>,
                      choices: seq<Assignment>, marked: seq<T>, c: Assignment)
    requires InTurn(fleet, pool, bound, xs, choices, marked, false) && |choices| < |pool|
    requires MadeInTurn(fleet, pool, bound, choices + [c]) && (c.ToCabin? ==> c.index < |fleet|)
    ensures InTurn(fleet, pool, bound, xs, choices + [c],
                   marked + (if c.Queue? then [] else [xs[|choices|]]), c.NoNearestCabin?)
  {
    HandedJoinedStep(xs, choices, c);
  }

  /** When no choice is the null cabin and every cabin named exists, every
      caller handed over is on the list of one of the cabins, whose lists
      were ws before the loop. */
  lemma {:induction false} HandedAreJoined<T>(ws: seq<seq<T>>, xs: seq<T>, choices: seq<Assignment>)
    requires |choices| <= |xs|
    requires forall c :: c in choices ==> !c.NoNearestCabin? && (c.ToCabin? ==> c.index < |ws|)
    ensures forall x :: x in Handed(xs, choices) ==> exists j :: 0 <= j < |ws| && x in Joined(ws[j], xs, choices, j)
  {
    if choices != [] {
      var m := |choices| - 1;
      var prefix := choices[..m];
      assert choices == prefix + [choices[m]];
      HandedJoinedStep(xs, prefix, choices[m]);
      HandedAreJoined(ws, xs, prefix);
      forall x | x in Handed(xs, choices) ensures exists j :: 0 <= j < |ws| && x in Joined(ws[j], xs, choices, j) {
        if x in Handed(xs, prefix) {
          var j :| 0 <= j < |ws| && x in Joined(ws[j], xs, prefix, j);
          assert x in Joined(ws[j], xs, choices, j);
        } else {
          assert x == xs[m] && choices[m].ToCabin?;
          var j := choices[m].index;
          assert x in Joined(ws[j], xs, choices, j);
        }
      }
      assert forall x :: x in Handed(xs, choices) ==> exists j :: 0 <= j < |ws| && x in Joined(ws[j], xs, choices, j);
    } else {
      assert Handed(xs, choices) == [];
    }
  }

  /** Two idle cabins at floor 0 of a building of floors 0 to 5 both accept a
      caller at floor 5, but neither is strictly closer than 5 floors: the
      nearest cabin is null. */
  lemma NoNearestAtFullHeight()
    ensures var idle := CabinView(CabinConfig(0, 5, 5), CabinState(0, Up, false, None), [], []);
      ChooseCabin([idle, idle], UserData(0, 0, 5, Down, None, 0), 5) == NoNearestCabin
  {
    var idle := CabinView(CabinConfig(0, 5, 5), CabinState(0, Up, false, None), [], []);
    var u := UserData(0, 0, 5, Down, None, 0);
    assert Accepts(idle, u);
    assert EligibleFrom([idle, idle], u, 2) == [];
    assert EligibleFrom([idle, idle], u, 1) == [1];
    assert EligibleCabins([idle, idle], u) == [0, 1];
    assert FloorsIn([idle, idle], [0, 1]) == [0, 0];
  }

  /** The situations fixed by the unit tests of the dispatcher: a full cabin
      is never eligible, an empty one always is, a cabin going up with
      scoring riders does not take a caller going down, and of cabins at
      floors 5 and 3 the first is the nearest to a caller at 7. */
  lemma DispatchExamples()
    ensures var rider := UserData(0, 0, 1, Up, None, 0);
      var full := CabinView(CabinConfig(0, 10, 2), CabinState(0, Up, false, None), [rider, rider], []);
      EligibleCabins([full], UserData(0, 0, 3, Down, None, 0)) == []
    ensures var empty := CabinView(CabinConfig(0, 10, 2), CabinState(0, Up, false, None), [], []);
      EligibleCabins([empty], UserData(0, 0, 3, Down, None, 0)) == [0]
    ensures var rider := UserData(0, 0, 0, Up, Some(10), 10);
      var first := CabinView(CabinConfig(0, 10, 10), CabinState(5, Up, false, None), [rider], []);
      var second := CabinView(CabinConfig(0, 10, 10), CabinState(3, Up, false, None), [rider], []);
      EligibleCabins([first, second], UserData(0, 0, 7, Down, None, 0)) == []
    ensures NearestCabin([0, 1], [5, 3], 7, 10) == Some(0)
  {
    var rider := UserData(0, 0, 0, Up, Some(10), 10);
    assert [rider][0].stillCanScore > 0;
    assert HasScoringMember([rider], []);
    assert NearestFrom([5, 3], 7, 1, 2, Some(0)) == Some(0);
  }
}
