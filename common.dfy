/** Shared vocabulary of the dispatch engine: directions, cabin commands, the
    rider record and the small sequence operations that stand in for the
    Java collection calls (List.remove, List.removeAll, Iterables.tryFind). */
module Common {

  datatype Option<T> = None | Some(value: T)

  /** The exceptions the Java code can raise on its public paths. */
  datatype Exception =
    | NullPointer         // a null cabin is dereferenced
    | IndexOutOfBounds    // cabinsList.get with an index outside the fleet

  datatype Outcome = Pass | Fail(error: Exception)

  datatype Result<T> = Success(value: T) | Failure(error: Exception)

  datatype Direction = Up | Down

  /** Cabin commands; MoveUp and MoveDown are the source's UP and DOWN.
      Open is only ever stored as a cabin's last command, never returned. */
  datatype CabinCommand = MoveUp | MoveDown | Open | OpenUp | OpenDown | Close | Nothing

  datatype UserStatus = Waiting | InElevator

  function Abs(x: int): int { if x < 0 then -x else x }

  function Max(a: int, b: int): int { if a < b then b else a }

  /** Java's `x / 2` on int, which truncates toward zero. */
  function Half(x: int): (h: int)
    ensures 0 <= x ==> 2 * h <= x < 2 * h + 2
    ensures x < 0 ==> 2 * h - 2 < x <= 2 * h
  {
    if x >= 0 then x / 2 else -((-x) / 2)
  }

  /** The value of a rider record at one instant. */
  datatype UserData = UserData(
    waitTime: int,
    travelTime: int,
    comingFrom: int,
    direction: Direction,
    floorToGo: Option<int>,   // null in the source until the rider boards
    stillCanScore: int)

  /** A rider is WAITING until a destination is set, IN_ELEVATOR afterwards. */
  function StatusOf(d: UserData): UserStatus
  {
    if d.floorToGo.None? then Waiting else InElevator
  }

  /** The rider record, shared by reference between the pool and the cabins' lists. */
  class User {
    var waitTime: int
    var travelTime: int
    var comingFrom: int
    var direction: Direction
    var floorToGo: Option<int>
    var stillCanScore: int

    /** A fresh call: nothing waited, nothing travelled, no destination, score 0. */
    constructor (comingFrom: int, direction: Direction)
      ensures Data() == UserData(0, 0, comingFrom, direction, None, 0)
      ensures GetUserStatus() == Waiting
    {
      this.comingFrom := comingFrom;
      this.direction := direction;
      waitTime := 0;
      travelTime := 0;
      stillCanScore := 0;
      floorToGo := None;
    }

    function Data(): UserData
      reads this
    {
      UserData(waitTime, travelTime, comingFrom, direction, floorToGo, stillCanScore)
    }

    function GetUserStatus(): (s: UserStatus)
      reads this
      ensures s == Waiting <==> floorToGo.None?
      ensures s == InElevator <==> floorToGo.Some?
    {
      StatusOf(Data())
    }

    method SetWaitTime(w: int)
      modifies this
      ensures Data() == old(Data()).(waitTime := w)
    {
      waitTime := w;
    }

    method SetTravelTime(t: int)
      modifies this
      ensures Data() == old(Data()).(travelTime := t)
    {
      travelTime := t;
    }

    method SetComingFrom(f: int)
      modifies this
      ensures Data() == old(Data()).(comingFrom := f)
    {
      comingFrom := f;
    }

    method SetDirection(d: Direction)
      modifies this
      ensures Data() == old(Data()).(direction := d)
    {
      direction := d;
    }

    /** Boarding: a destination turns a waiting rider into one in the elevator. */
    method SetFloorToGo(f: Option<int>)
      modifies this
      ensures Data() == old(Data()).(floorToGo := f)
      ensures f.Some? ==> GetUserStatus() == InElevator
      ensures f.None? ==> GetUserStatus() == Waiting
    {
      floorToGo := f;
    }

    method SetStillCanScore(s: int)
      modifies this
      ensures Data() == old(Data()).(stillCanScore := s)
    {
      stillCanScore := s;
    }
  }

  /** The values of a list of riders, in list order. */
  function Snapshot(us: seq<User>): (r: seq<UserData>)
    reads us
    ensures |r| == |us|
    ensures forall i :: 0 <= i < |us| ==> r[i] == us[i].Data()
  {
    if us == [] then [] else [us[0].Data()] + Snapshot(us[1..])
  }

  /** The search criteria the source passes to Iterables.tryFind and friends. */
  datatype Query =
    | CallingFrom(floor: int, dir: Direction)   // waiting at floor, going dir
    | LeavingAt(floor: int)                     // destination is floor
    | ComingFrom(floor: int)                    // called from floor

  predicate Matches(q: Query, u: UserData)
  {
    match q
    case CallingFrom(f, d) => u.comingFrom == f && u.direction == d
    case LeavingAt(f) => u.floorToGo == Some(f)
    case ComingFrom(f) => u.comingFrom == f
  }

  /** Position of the first rider matching q, if any. */
  function FindFirst(s: seq<UserData>, q: Query): (r: Option<nat>)
    ensures r.Some? ==> r.value < |s| && Matches(q, s[r.value])
    ensures r.Some? ==> forall j :: 0 <= j < r.value ==> !Matches(q, s[j])
    ensures r.None? <==> forall j :: 0 <= j < |s| ==> !Matches(q, s[j])
  {
    if s == [] then None
    else if Matches(q, s[0]) then Some(0)
    else match FindFirst(s[1..], q)
      case None => None
      case Some(k) => Some(k + 1)
  }

  /** Position of the first occurrence of x (x must occur). */
  function IndexOf<T(==)>(s: seq<T>, x: T): (k: nat)
    requires x in s
    ensures k < |s| && s[k] == x
    ensures forall j :: 0 <= j < k ==> s[j] != x
  {
    if s[0] == x then 0 else 1 + IndexOf(s[1..], x)
  }

  /** List.remove(Object): drop the first occurrence of x, if there is one. */
  function RemoveFirst<T(==)>(s: seq<T>, x: T): (r: seq<T>)
    ensures x !in s ==> r == s
    ensures x in s ==> r == s[..IndexOf(s, x)] + s[IndexOf(s, x) + 1..]
  {
    if s == [] then []
    else if s[0] == x then s[1..]
    else if x in s[1..] then
      var k := IndexOf(s[1..], x);
      var t := s[1..];
      assert IndexOf(s, x) == k + 1;
      assert s[..k + 1] + s[k + 2..] == [s[0]] + (t[..k] + t[k + 1..]);
      [s[0]] + RemoveFirst(t, x)
    else
      assert s == [s[0]] + s[1..];
      [s[0]] + RemoveFirst(s[1..], x)
  }

  /** List.remove takes exactly one occurrence of x away, or none when x is absent. */
  lemma {:induction false} RemoveFirstMultiset<T>(s: seq<T>, x: T)
    ensures multiset(RemoveFirst(s, x)) == multiset(s) - multiset{x}
  {
    if s != [] {
      assert s == [s[0]] + s[1..];
      if s[0] != x {
        RemoveFirstMultiset(s[1..], x);
      }
    }
  }

  /** List.removeAll(t): keep, in order, the elements of s that are not in t. */
  function RemoveAll<T(==)>(s: seq<T>, t: seq<T>): (r: seq<T>)
    ensures forall x :: x in r ==> x in s && x !in t
    ensures forall x :: x in s && x !in t ==> x in r
    ensures multiset(r) <= multiset(s)
    ensures forall x :: x in s && x !in t ==> multiset(r)[x] == multiset(s)[x]
  {
    if s == [] then []
    else
      assert s == [s[0]] + s[1..];
      if s[0] in t then RemoveAll(s[1..], t) else [s[0]] + RemoveAll(s[1..], t)
  }

  predicate NoDuplicates<T(==)>(s: seq<T>)
  {
    forall i, j :: 0 <= i < j < |s| ==> s[i] != s[j]
  }

  lemma {:induction false} NoDuplicatesCount<T>(s: seq<T>, x: T)
    requires NoDuplicates(s) && x in s
    ensures multiset(s)[x] == 1
  {
    if s[0] == x {
      assert x !in s[1..];
      assert s == [s[0]] + s[1..];
    } else {
      assert NoDuplicates(s[1..]);
      NoDuplicatesCount(s[1..], x);
      assert s == [s[0]] + s[1..];
    }
  }

  lemma {:induction false} RemoveAllNoDuplicates<T>(s: seq<T>, t: seq<T>)
    requires NoDuplicates(s)
    ensures NoDuplicates(RemoveAll(s, t))
  {
    if s != [] {
      assert NoDuplicates(s[1..]);
      RemoveAllNoDuplicates(s[1..], t);
      assert s[0] !in s[1..];
    }
  }

  /** The first rider matching a query is also the first occurrence of that
      rider in the list, so List.remove(rider) removes exactly that position. */
  lemma FirstMatchIsFirstOccurrence(us: seq<User>, q: Query, k: nat)
    requires FindFirst(Snapshot(us), q) == Some(k)
    ensures k < |us| && IndexOf(us, us[k]) == k
    ensures RemoveFirst(us, us[k]) == us[..k] + us[k + 1..]
  {
    FirstMatchIndex(us, q, k);
    RemoveFirstAt(us, k);
  }

  lemma FirstMatchIndex(us: seq<User>, q: Query, k: nat)
    requires FindFirst(Snapshot(us), q) == Some(k)
    ensures k < |us| && IndexOf(us, us[k]) == k
  {
    var i := IndexOf(us, us[k]);
    if i < k {
      assert false;
    }
  }

  lemma RemoveFirstAt<T>(s: seq<T>, k: nat)
    requires k < |s| && IndexOf(s, s[k]) == k
    ensures RemoveFirst(s, s[k]) == s[..k] + s[k + 1..]
  {
    assert s[k] in s;
  }

  /** Appending b and then c is appending b + c. */
  lemma AppendTwice<T>(a: seq<T>, b: seq<T>, c: seq<T>)
    ensures (a + b) + c == a + (b + c)
  {
  }
}
