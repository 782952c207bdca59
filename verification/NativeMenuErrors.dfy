/** When the error of a menu that does not compile is the same for every order of the input. */
module NativeMenuErrors {
  import opened Wrappers
  import opened Ordering
  import opened NativeMenu

  /** What contributions are sorted by. Contributions of one place keep the order of the input. */
  datatype Place = Place(order: int, moduleId: string, commandId: string)

  function PlaceOf(c: Contribution): Place {
    Place(c.order, c.moduleId, c.commandId)
  }

  predicate Earlier(p: Place, q: Place) {
    || p.order < q.order
    || (p.order == q.order && p.moduleId != q.moduleId && StringLe(p.moduleId, q.moduleId))
    || (p.order == q.order && p.moduleId == q.moduleId
       && p.commandId != q.commandId && StringLe(p.commandId, q.commandId))
  }

  /** The contributions at a place, and those at earlier places, in the order of the input. */
  function Group(s: seq<Contribution>, p: Place): seq<Contribution> {
    if s == [] then []
    else if PlaceOf(s[0]) == p then [s[0]] + Group(s[1..], p)
    else Group(s[1..], p)
  }

  function Before(s: seq<Contribution>, p: Place): seq<Contribution> {
    if s == [] then []
    else if Earlier(PlaceOf(s[0]), p) then [s[0]] + Before(s[1..], p)
    else Before(s[1..], p)
  }

  // ----- filters -----

  lemma {:induction false} GroupAppend(a: seq<Contribution>, b: seq<Contribution>, p: Place)
    ensures Group(a + b, p) == Group(a, p) + Group(b, p)
  {
    if a == [] {
      assert a + b == b;
    } else {
      assert (a + b)[1..] == a[1..] + b;
      GroupAppend(a[1..], b, p);
    }
  }

  lemma {:induction false} BeforeAppend(a: seq<Contribution>, b: seq<Contribution>, p: Place)
    ensures Before(a + b, p) == Before(a, p) + Before(b, p)
  {
    if a == [] {
      assert a + b == b;
    } else {
      assert (a + b)[1..] == a[1..] + b;
      BeforeAppend(a[1..], b, p);
    }
  }

  lemma GroupParts(front: seq<Contribution>, middle: seq<Contribution>, back: seq<Contribution>, p: Place)
    ensures multiset(Group(front + (middle + back), p)) == multiset(Group(middle, p)) + multiset(Group(front + back, p))
  {
    GroupAppend(front, middle + back, p);
    GroupAppend(middle, back, p);
    GroupAppend(front, back, p);
    PartsCommute(Group(front, p), Group(middle, p), Group(back, p));
  }

  lemma BeforeParts(front: seq<Contribution>, middle: seq<Contribution>, back: seq<Contribution>, p: Place)
    ensures multiset(Before(front + (middle + back), p))
         == multiset(Before(middle, p)) + multiset(Before(front + back, p))
  {
    BeforeAppend(front, middle + back, p);
    BeforeAppend(middle, back, p);
    BeforeAppend(front, back, p);
    PartsCommute(Before(front, p), Before(middle, p), Before(back, p));
  }

  lemma {:induction false} FiltersPermute(a: seq<Contribution>, b: seq<Contribution>, p: Place)
    requires multiset(a) == multiset(b)
    ensures multiset(Group(a, p)) == multiset(Group(b, p))
    ensures multiset(Before(a, p)) == multiset(Before(b, p))
  {
    if a == [] {
      assert |b| == |multiset(b)| == 0;
    } else {
      var front, back := TakeOut(a, b);
      FiltersPermute(a[1..], front + back, p);
      GroupParts(front, [a[0]], back, p);
      BeforeParts(front, [a[0]], back, p);
      GroupParts([], [a[0]], a[1..], p);
      BeforeParts([], [a[0]], a[1..], p);
      assert a == [] + ([a[0]] + a[1..]) && [] + a[1..] == a[1..];
    }
  }

  lemma {:induction false} GroupMembers(s: seq<Contribution>, p: Place)
    ensures forall c :: c in Group(s, p) <==> c in s && PlaceOf(c) == p
    ensures forall c :: c in Before(s, p) <==> c in s && Earlier(PlaceOf(c), p)
  {
    if s != [] {
      assert s == [s[0]] + s[1..];
      GroupMembers(s[1..], p);
    }
  }

  // ----- sorting is stable -----

  lemma PlacesAreOrdered(x: Contribution, y: Contribution)
    ensures ByPlace(x, y) <==> PlaceOf(x) == PlaceOf(y) || Earlier(PlaceOf(x), PlaceOf(y))
    ensures ByPlace(x, y) && ByPlace(y, x) ==> PlaceOf(x) == PlaceOf(y)
    ensures !(Earlier(PlaceOf(x), PlaceOf(y)) && Earlier(PlaceOf(y), PlaceOf(x)))
  {
    StringLeIsATotalOrder();
  }

  lemma FiltersCons(c: Contribution, rest: seq<Contribution>, p: Place)
    ensures Group([c] + rest, p) == if PlaceOf(c) == p then [c] + Group(rest, p) else Group(rest, p)
    ensures Before([c] + rest, p) == if Earlier(PlaceOf(c), p) then [c] + Before(rest, p) else Before(rest, p)
  {
    assert ([c] + rest)[1..] == rest;
  }

  lemma {:induction false} InsertIsStable(x: Contribution, s: seq<Contribution>, p: Place)
    requires Preorder(ByPlace) && SortedBy(s, ByPlace)
    ensures Group(Insert(x, s, ByPlace), p) == if PlaceOf(x) == p then [x] + Group(s, p) else Group(s, p)
  {
    if s == [] {
      assert [x][1..] == [];
    } else if ByPlace(x, s[0]) {
      FiltersCons(x, s, p);
    } else {
      SortedTail(s, ByPlace);
      InsertIsStable(x, s[1..], p);
      FiltersCons(s[0], Insert(x, s[1..], ByPlace), p);
      PlacesAreOrdered(x, s[0]);
    }
  }

  lemma {:induction false} SortIsStable(s: seq<Contribution>, p: Place)
    ensures Group(Sorted(s), p) == Group(s, p)
  {
    ByPlaceIsAPreorder();
    if s != [] {
      SortIsStable(s[1..], p);
      InsertIsStable(s[0], Sort(s[1..], ByPlace), p);
    }
  }

  lemma NothingBefore(first: Contribution, rest: seq<Contribution>, p: Place)
    requires forall y | y in multiset(rest) :: ByPlace(first, y)
    requires !Earlier(PlaceOf(first), p)
    ensures Before(rest, p) == []
  {
    GroupMembers(rest, p);
    if Before(rest, p) != [] {
      var y := Before(rest, p)[0];
      assert y in rest && y in multiset(rest);
      PlacesAreOrdered(first, y);
      StringLeIsATotalOrder();
    }
  }

  lemma NothingAt(first: Contribution, rest: seq<Contribution>, p: Place)
    requires forall y | y in multiset(rest) :: ByPlace(first, y)
    requires !Earlier(PlaceOf(first), p) && PlaceOf(first) != p
    ensures Group(rest, p) == []
  {
    forall y | y in rest
      ensures PlaceOf(y) != p
    {
      assert y in multiset(rest);
      PlacesAreOrdered(first, y);
    }
    NoneAt(rest, p);
  }

  lemma {:induction false} NoneAt(s: seq<Contribution>, p: Place)
    requires forall c | c in s :: PlaceOf(c) != p
    ensures Group(s, p) == []
  {
    if s != [] {
      assert s == [s[0]] + s[1..];
      NoneAt(s[1..], p);
    }
  }

  lemma Regroup<T>(x: T, part: seq<T>, rest: seq<T>)
    ensures [x] + (part + rest) == ([x] + part) + rest
  {
  }

  lemma PartsCons(first: Contribution, rest: seq<Contribution>, late: seq<Contribution>, p: Place)
    returns (more: seq<Contribution>)
    requires rest == Before(rest, p) + (Group(rest, p) + late)
    requires forall y | y in multiset(rest) :: ByPlace(first, y)
    ensures [first] + rest == Before([first] + rest, p) + (Group([first] + rest, p) + more)
  {
    FiltersCons(first, rest, p);
    more := late;
    if Earlier(PlaceOf(first), p) {
      Regroup(first, Before(rest, p), Group(rest, p) + late);
    } else {
      NothingBefore(first, rest, p);
      if PlaceOf(first) == p {
        Regroup(first, Group(rest, p), late);
      } else {
        NothingAt(first, rest, p);
        more := [first] + rest;
      }
    }
  }

  /** A sorted list is the earlier places, then the place, then the rest. */
  lemma {:induction false} SortedParts(s: seq<Contribution>, p: Place) returns (late: seq<Contribution>)
    requires SortedBy(s, ByPlace)
    ensures s == Before(s, p) + (Group(s, p) + late)
  {
    if s == [] {
      late := [];
    } else {
      SortedTail(s, ByPlace);
      late := SortedParts(s[1..], p);
      late := PartsCons(s[0], s[1..], late, p);
      assert s == [s[0]] + s[1..];
    }
  }

  // ----- the reported error -----

  ghost function Reported(core: seq<string>, a: seq<Contribution>): Option<Error> {
    Report(IdSet(core), Sorted(a))
  }

  /** Every order of the input reports the same, which may be nothing. */
  ghost predicate OrderFree(core: seq<string>, a: seq<Contribution>) {
    forall b | multiset(b) == multiset(a) :: Reported(core, b) == Reported(core, a)
  }

  /** The first place at fault: the earlier places compile, and with this one they do not. */
  ghost predicate FirstAtFault(core: seq<string>, a: seq<Contribution>, p: Place) {
    Compiles(core, Before(a, p)) && !Compiles(core, Before(a, p) + Group(a, p))
  }

  ghost predicate TwoValid(group: seq<Contribution>) {
    exists x, y :: multiset{x, y} <= multiset(group) && Valid(x) && Valid(y)
  }

  /** The condition on the contributions of the first place at fault. If their id is taken, all
      have the same fault or none. If it is new and two of them are valid, all are. Otherwise the
      invalid ones share one fault. */
  ghost predicate Uniform(taken: set<string>, id: string, group: seq<Contribution>) {
    if id in taken then forall x, y | x in group && y in group :: Fault(x) == Fault(y)
    else if TwoValid(group) then forall x | x in group :: Valid(x)
    else forall x, y | x in group && y in group && !Valid(x) && !Valid(y) :: Fault(x) == Fault(y)
  }

  ghost function TakenBefore(core: seq<string>, a: seq<Contribution>, p: Place): set<string> {
    IdSet(core) + IdSet(Ids(Before(a, p)))
  }

  lemma CompilesInAnyOrder(core: seq<string>, a: seq<Contribution>, b: seq<Contribution>)
    requires multiset(a) == multiset(b)
    ensures Compiles(core, a) <==> Compiles(core, b)
    ensures IdSet(Ids(a)) == IdSet(Ids(b))
  {
    OrderOfContributionsIsForgotten(core, a, b);
    Permutation(a, b);
    IdsCover(a, b);
    IdsCover(b, a);
  }

  lemma IdsCover(a: seq<Contribution>, b: seq<Contribution>)
    requires forall c | c in a :: c in b
    ensures forall id | id in Ids(a) :: id in Ids(b)
  {
    forall id | id in Ids(a)
      ensures id in Ids(b)
    {
      var i :| 0 <= i < |a| && Ids(a)[i] == id;
      assert a[i] in b;
      var j :| 0 <= j < |b| && b[j] == a[i];
      assert Ids(b)[j] == id;
    }
  }

  /** The first place at fault does not depend on the order of the input. */
  lemma SamePlaceAtFault(core: seq<string>, a: seq<Contribution>, b: seq<Contribution>, p: Place)
    requires multiset(a) == multiset(b)
    ensures FirstAtFault(core, a, p) <==> FirstAtFault(core, b, p)
    ensures TakenBefore(core, a, p) == TakenBefore(core, b, p)
  {
    FiltersPermute(a, b, p);
    CompilesInAnyOrder(core, Before(a, p), Before(b, p));
    CompilesInAnyOrder(core, Before(a, p) + Group(a, p), Before(b, p) + Group(b, p));
  }

  lemma SortedReports(core: seq<string>, s: seq<Contribution>, p: Place)
    requires SortedBy(s, ByPlace) && FirstAtFault(core, s, p)
    ensures Report(TakenBefore(core, s, p), Group(s, p)).Some?
    ensures Report(IdSet(core), s) == Report(TakenBefore(core, s, p), Group(s, p))
  {
    var early, group := Before(s, p), Group(s, p);
    var late := SortedParts(s, p);
    NoReport(core, early);
    NoReport(core, early + group);
    ReportAppend(IdSet(core), early, group);
    ReportAppend(IdSet(core), early, group + late);
    ReportAppend(IdSet(core) + IdSet(Ids(early)), group, late);
  }

  /** Whatever the order of the input, the first place at fault decides the error, from its own
      contributions in the order of the input. */
  lemma GroupDecides(core: seq<string>, a: seq<Contribution>, b: seq<Contribution>, p: Place)
    requires multiset(a) == multiset(b) && FirstAtFault(core, a, p)
    ensures Report(TakenBefore(core, a, p), Group(b, p)).Some?
    ensures Reported(core, b) == Report(TakenBefore(core, a, p), Group(b, p))
  {
    SamePlaceAtFault(core, a, Sorted(b), p);
    SortedReports(core, Sorted(b), p);
    SortIsStable(b, p);
  }

  // ----- what a group reports -----

  lemma FirstReports(taken: set<string>, x: Contribution, rest: seq<Contribution>)
    ensures !Valid(x) ==> Report(taken, [x] + rest) == Fault(x)
    ensures Valid(x) && x.commandId in taken ==> Report(taken, [x] + rest) == Some(DuplicateCommandId)
    ensures Fault(x) != Some(DuplicateCommandId)
  {
  }

  lemma SecondReports(taken: set<string>, x: Contribution, y: Contribution, rest: seq<Contribution>)
    requires Valid(x) && x.commandId !in taken && y.commandId == x.commandId
    ensures Report(taken, [x, y] + rest) == if Valid(y) then Some(DuplicateCommandId) else Fault(y)
  {
    assert ([x, y] + rest)[1..] == [y] + rest;
    FirstReports(taken + {x.commandId}, y, rest);
  }

  /** A group at fault reports the fault of an invalid member unless its id is taken or two of its
      members are valid. */
  lemma GroupReports(taken: set<string>, id: string, group: seq<Contribution>) returns (x: Contribution)
    requires forall c | c in group :: c.commandId == id
    requires Report(taken, group).Some?
    ensures x in group
    ensures id in taken ==> Report(taken, group) == if Valid(x) then Some(DuplicateCommandId) else Fault(x)
    ensures id !in taken && !Valid(x) ==> Report(taken, group) == Fault(x)
    ensures id !in taken && Valid(x) ==> TwoValid(group) && Report(taken, group) == Some(DuplicateCommandId)
  {
    x := group[0];
    assert group == [x] + group[1..];
    FirstReports(taken, x, group[1..]);
    if id !in taken && Valid(x) {
      var y := group[1];
      assert group == [x, y] + group[2..];
      SecondReports(taken, x, y, group[2..]);
      if Valid(y) {
        assert multiset{x, y} <= multiset([x, y] + group[2..]);
      } else {
        x := y;
      }
    }
  }

  lemma UniformSuffices(taken: set<string>, id: string, group: seq<Contribution>, other: seq<Contribution>)
    requires multiset(group) == multiset(other) && forall c | c in group :: c.commandId == id
    requires Uniform(taken, id, group)
    requires Report(taken, group).Some? && Report(taken, other).Some?
    ensures Report(taken, group) == Report(taken, other)
  {
    Permutation(group, other);
    var x := GroupReports(taken, id, group);
    var y := GroupReports(taken, id, other);
    assert Valid(x) <==> Fault(x).None?;
    assert TwoValid(group) <==> TwoValid(other);
  }

  // ----- orders that tell contributions apart -----

  /** The input with one contribution first. */
  lemma Lead(a: seq<Contribution>, x: Contribution) returns (rest: seq<Contribution>)
    requires x in a
    ensures multiset([x] + rest) == multiset(a)
  {
    var i :| 0 <= i < |a| && a[i] == x;
    rest := a[..i] + a[i + 1..];
    assert a == a[..i] + ([x] + a[i + 1..]);
    PartsCommute(a[..i], [x], a[i + 1..]);
  }

  lemma LeadGroup(core: seq<string>, a: seq<Contribution>, p: Place, x: Contribution) returns (b: seq<Contribution>)
    requires FirstAtFault(core, a, p) && x in Group(a, p)
    ensures multiset(b) == multiset(a)
    ensures !Valid(x) ==> Reported(core, b) == Fault(x)
    ensures Valid(x) && p.commandId in TakenBefore(core, a, p) ==> Reported(core, b) == Some(DuplicateCommandId)
  {
    GroupMembers(a, p);
    var rest := Lead(a, x);
    b := [x] + rest;
    GroupDecides(core, a, b, p);
    assert Group(b, p) == [x] + Group(rest, p);
    FirstReports(TakenBefore(core, a, p), x, Group(rest, p));
  }

  lemma LeadTwo(core: seq<string>, a: seq<Contribution>, p: Place) returns (b: seq<Contribution>)
    requires FirstAtFault(core, a, p) && TwoValid(Group(a, p)) && p.commandId !in TakenBefore(core, a, p)
    ensures multiset(b) == multiset(a) && Reported(core, b) == Some(DuplicateCommandId)
  {
    var x, y :| multiset{x, y} <= multiset(Group(a, p)) && Valid(x) && Valid(y);
    var rest := LeadPair(a, p, x, y);
    b := [x, y] + rest;
    GroupDecides(core, a, b, p);
    GroupOfTwo(x, y, rest, p);
    SecondReports(TakenBefore(core, a, p), x, y, Group(rest, p));
  }

  lemma LeadPair(a: seq<Contribution>, p: Place, x: Contribution, y: Contribution) returns (rest: seq<Contribution>)
    requires multiset{x, y} <= multiset(Group(a, p))
    ensures PlaceOf(x) == PlaceOf(y) == p && multiset([x, y] + rest) == multiset(a)
  {
    assert x in multiset(Group(a, p)) && y in multiset(Group(a, p));
    GroupMembers(a, p);
    var without := Lead(a, x);
    PairInRest(a, p, x, y, without);
    rest := Lead(without, y);
    TwoInFront(a, x, y, without, rest);
  }

  lemma GroupOfTwo(x: Contribution, y: Contribution, rest: seq<Contribution>, p: Place)
    requires PlaceOf(x) == PlaceOf(y) == p
    ensures Group([x, y] + rest, p) == [x, y] + Group(rest, p)
  {
    assert [x, y] + rest == [x] + ([y] + rest);
    FiltersCons(x, [y] + rest, p);
    FiltersCons(y, rest, p);
  }

  lemma TwoInFront(a: seq<Contribution>, x: Contribution, y: Contribution,
                   without: seq<Contribution>, rest: seq<Contribution>)
    requires multiset([x] + without) == multiset(a) && multiset([y] + rest) == multiset(without)
    ensures multiset([x, y] + rest) == multiset(a)
  {
    assert [x, y] + rest == [x] + ([y] + rest);
  }

  lemma PairInRest(a: seq<Contribution>, p: Place, x: Contribution, y: Contribution, without: seq<Contribution>)
    requires multiset{x, y} <= multiset(Group(a, p)) && PlaceOf(x) == p
    requires multiset([x] + without) == multiset(a)
    ensures y in without
  {
    FiltersPermute(a, [x] + without, p);
    assert ([x] + without)[1..] == without;
    assert Group([x] + without, p) == [x] + Group(without, p);
    assert multiset(Group(a, p)) == multiset{x} + multiset(Group(without, p));
    assert multiset{x, y}[y] <= multiset(Group(a, p))[y];
    assert y in Group(without, p);
    GroupMembers(without, p);
  }

  lemma UniformIsNecessary(core: seq<string>, a: seq<Contribution>, p: Place)
    requires FirstAtFault(core, a, p) && OrderFree(core, a)
    ensures Uniform(TakenBefore(core, a, p), p.commandId, Group(a, p))
  {
    var taken, group := TakenBefore(core, a, p), Group(a, p);
    forall x, y | x in group && y in group && (p.commandId in taken || (!Valid(x) && !Valid(y)))
      ensures Fault(x) == Fault(y)
    {
      var b := LeadGroup(core, a, p, x);
      var c := LeadGroup(core, a, p, y);
      FirstReports(taken, x, []);
      FirstReports(taken, y, []);
      assert Reported(core, b) == Reported(core, a) == Reported(core, c);
    }
    if p.commandId !in taken && TwoValid(group) {
      var b := LeadTwo(core, a, p);
      forall x | x in group
        ensures Valid(x)
      {
        var c := LeadGroup(core, a, p, x);
        FirstReports(taken, x, []);
        assert Reported(core, b) == Reported(core, a) == Reported(core, c);
      }
    }
  }

  lemma UniformIsEnough(core: seq<string>, a: seq<Contribution>, p: Place)
    requires FirstAtFault(core, a, p) && Uniform(TakenBefore(core, a, p), p.commandId, Group(a, p))
    ensures OrderFree(core, a)
  {
    GroupMembers(a, p);
    GroupDecides(core, a, a, p);
    forall b | multiset(b) == multiset(a)
      ensures Reported(core, b) == Reported(core, a)
    {
      GroupDecides(core, a, b, p);
      FiltersPermute(a, b, p);
      UniformSuffices(TakenBefore(core, a, p), p.commandId, Group(a, p), Group(b, p));
    }
  }

  /** A list that does not compile has a first place at fault. */
  lemma SomePlaceIsAtFault(core: seq<string>, a: seq<Contribution>) returns (p: Place)
    requires !Compiles(core, a)
    ensures FirstAtFault(core, a, p)
  {
    var s := Sorted(a);
    CompilesInAnyOrder(core, a, s);
    assert s[..|s|] == s;
    var i := FirstBreak(core, s, |s|);
    p := PlaceOf(s[i]);
    BreakIsAtFault(core, s, i);
    SamePlaceAtFault(core, a, s, p);
  }

  lemma BreakIsAtFault(core: seq<string>, s: seq<Contribution>, i: nat)
    requires SortedBy(s, ByPlace) && i < |s| && Compiles(core, s[..i]) && !Compiles(core, s[..i + 1])
    ensures FirstAtFault(core, s, PlaceOf(s[i]))
  {
    var p := PlaceOf(s[i]);
    PartsArePrefix(s, p);
    LastOfPlace(s, p, i);
    NotBefore(s, p, i);
    BreakIsHere(core, s, Before(s, p), Group(s, p), i);
  }

  lemma PartsArePrefix(s: seq<Contribution>, p: Place)
    requires SortedBy(s, ByPlace)
    ensures Before(s, p) + Group(s, p) <= s
  {
    var late := SortedParts(s, p);
    assert s == (Before(s, p) + Group(s, p)) + late;
  }

  lemma BreakIsHere(core: seq<string>, s: seq<Contribution>, early: seq<Contribution>, group: seq<Contribution>, i: nat)
    requires early + group <= s && |early| <= i < |early + group|
    requires Compiles(core, s[..i]) && !Compiles(core, s[..i + 1])
    ensures Compiles(core, early) && !Compiles(core, early + group)
  {
    assert early == s[..i][..|early|];
    PrefixCompiles(core, s[..i], |early|);
    assert s[..i + 1] == (early + group)[..i + 1];
    PrefixCompiles(core, early + group, i + 1);
  }

  lemma NotBefore(s: seq<Contribution>, p: Place, i: nat)
    requires Before(s, p) + Group(s, p) <= s && i < |s| && PlaceOf(s[i]) == p
    ensures |Before(s, p)| <= i
  {
    GroupMembers(s, p);
    assert forall j | 0 <= j < |Before(s, p)| :: s[j] == Before(s, p)[j] && Earlier(PlaceOf(Before(s, p)[j]), p);
  }

  lemma {:induction false} FirstBreak(core: seq<string>, s: seq<Contribution>, n: nat) returns (i: nat)
    requires n <= |s| && !Compiles(core, s[..n])
    ensures i < n && Compiles(core, s[..i]) && !Compiles(core, s[..i + 1])
  {
    assert n > 0;
    if Compiles(core, s[..n - 1]) {
      i := n - 1;
    } else {
      i := FirstBreak(core, s, n - 1);
    }
  }

  /** In a sorted list a contribution of a place is within its part. */
  lemma LastOfPlace(s: seq<Contribution>, p: Place, i: nat)
    requires SortedBy(s, ByPlace) && i < |s| && PlaceOf(s[i]) == p
    ensures i < |Before(s, p) + Group(s, p)|
  {
    AllWithin(s[..i + 1], p);
    assert s == s[..i + 1] + s[i + 1..];
    BeforeAppend(s[..i + 1], s[i + 1..], p);
    GroupAppend(s[..i + 1], s[i + 1..], p);
  }

  lemma {:induction false} AllWithin(s: seq<Contribution>, p: Place)
    requires forall c | c in s :: PlaceOf(c) == p || Earlier(PlaceOf(c), p)
    ensures |Before(s, p)| + |Group(s, p)| >= |s|
  {
    if s != [] {
      assert s == [s[0]] + s[1..];
      AllWithin(s[1..], p);
    }
  }

  // ----- the theorem -----

  /** The reported error is the same for every order of the input exactly when the contributions
      of the first place at fault are uniform; an input without a fault reports nothing in every
      order. */
  lemma ErrorIsOrderFreeExactly(core: seq<string>, a: seq<Contribution>)
    ensures OrderFree(core, a) <==>
            forall p | FirstAtFault(core, a, p) :: Uniform(TakenBefore(core, a, p), p.commandId, Group(a, p))
    ensures Compiles(core, a) <==> Reported(core, a).None?
    ensures Compiles(core, a) || exists p :: FirstAtFault(core, a, p)
  {
    CompilesInAnyOrder(core, a, Sorted(a));
    NoReport(core, Sorted(a));
    if Compiles(core, a) {
      forall b | multiset(b) == multiset(a)
        ensures Reported(core, b) == Reported(core, a)
      {
        CompilesInAnyOrder(core, b, Sorted(b));
        CompilesInAnyOrder(core, a, b);
        NoReport(core, Sorted(b));
      }
      forall p | FirstAtFault(core, a, p)
        ensures Uniform(TakenBefore(core, a, p), p.commandId, Group(a, p))
      {
        UniformIsNecessary(core, a, p);
      }
    } else {
      var p := SomePlaceIsAtFault(core, a);
      if Uniform(TakenBefore(core, a, p), p.commandId, Group(a, p)) {
        UniformIsEnough(core, a, p);
      }
      forall q | FirstAtFault(core, a, q) && OrderFree(core, a)
        ensures Uniform(TakenBefore(core, a, q), q.commandId, Group(a, q))
      {
        UniformIsNecessary(core, a, q);
      }
    }
  }

  /** When no two contributions share a place, the reported error does not depend on the order. */
  lemma DistinctPlacesAreOrderFree(core: seq<string>, a: seq<Contribution>)
    requires forall i, j | 0 <= i < j < |a| :: PlaceOf(a[i]) != PlaceOf(a[j])
    ensures OrderFree(core, a)
  {
    forall p | FirstAtFault(core, a, p)
      ensures Uniform(TakenBefore(core, a, p), p.commandId, Group(a, p))
    {
      LoneGroup(a, p);
      LoneIsUniform(TakenBefore(core, a, p), p.commandId, Group(a, p));
    }
    ErrorIsOrderFreeExactly(core, a);
  }

  lemma ValidMember(group: seq<Contribution>)
    ensures TwoValid(group) ==> exists x | x in group :: Valid(x)
  {
    forall x, y | multiset{x, y} <= multiset(group)
      ensures x in group
    {
      assert x in multiset(group);
    }
  }

  lemma LoneIsUniform(taken: set<string>, id: string, group: seq<Contribution>)
    requires |group| <= 1
    ensures Uniform(taken, id, group)
  {
    ValidMember(group);
  }

  lemma {:induction false} LoneGroup(a: seq<Contribution>, p: Place)
    requires forall i, j | 0 <= i < j < |a| :: PlaceOf(a[i]) != PlaceOf(a[j])
    ensures |Group(a, p)| <= 1
  {
    if a != [] {
      var rest := a[1..];
      LoneGroup(rest, p);
      assert forall j | 0 <= j < |rest| :: rest[j] == a[j + 1];
      NoneAt(rest, PlaceOf(a[0]));
    }
  }
}
