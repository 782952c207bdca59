/** Activation-owned UI contributions, and the sources that offer them. */
module Contributions {
  import opened Wrappers
  import opened Ordering

  datatype Family =
    | Command | Panel | GlobalSurface | GlobalNavigation | Sidebar
    | ProjectNavigation | ProjectLayout | ProjectAction | Settings

  datatype Singleton = PerProject | Global | NotSingleton

  /** The fields any family needs. `targetId` is a surface or panel id, `text` a label; the
      last three belong to panels. A family without a field ignores it. */
  datatype Contribution = Contribution(
    id: string, moduleId: string, order: Option<int>, targetId: string, text: string,
    globalScope: bool, singleton: Singleton, capabilities: seq<string>)

  datatype Activation = Activation(moduleId: string, activationId: string, disposed: bool)

  datatype Source = Source(moduleId: string, activation: Activation, offers: map<Family, seq<Contribution>>)

  datatype Owner = Owner(moduleId: string, activationId: string)

  datatype Entry = Entry(contribution: Contribution, owner: Owner) {
    function Id(): string {
      contribution.id
    }
  }

  function Offered(offers: map<Family, seq<Contribution>>, family: Family): seq<Contribution> {
    if family in offers then offers[family] else []
  }

  function OwnedBy(owner: Owner, contributions: seq<Contribution>): seq<Entry> {
    seq(|contributions|, i requires 0 <= i < |contributions| => Entry(contributions[i], owner))
  }

  function OwnerOf(source: Source): Owner {
    Owner(source.moduleId, source.activation.activationId)
  }

  /** Every contribution of a family with its owner, in source order. */
  function Flat(sources: seq<Source>, family: Family): seq<Entry> {
    if sources == [] then []
    else OwnedBy(OwnerOf(sources[0]), Offered(sources[0].offers, family)) + Flat(sources[1..], family)
  }

  function Ids(entries: seq<Entry>): seq<string> {
    seq(|entries|, i requires 0 <= i < |entries| => entries[i].Id())
  }

  function ModuleIds(sources: seq<Source>): seq<string> {
    seq(|sources|, i requires 0 <= i < |sources| => sources[i].moduleId)
  }

  // ----- order -----

  function OrderOf(e: Entry): int {
    e.contribution.order.GetOr(0)
  }

  /** `compareById`: by order, then by id. */
  function ByOrder(a: Entry, b: Entry): bool {
    OrderOf(a) < OrderOf(b) || (OrderOf(a) == OrderOf(b) && StringLe(a.Id(), b.Id()))
  }

  /** `localeCompare` of the ids alone. */
  function ById(a: Entry, b: Entry): bool {
    StringLe(a.Id(), b.Id())
  }

  lemma OrdersArePreorders()
    ensures Preorder(ByOrder) && Preorder(ById)
  {
    StringLeIsATotalOrder();
  }

  function Ordered(entries: seq<Entry>): (r: seq<Entry>)
    ensures SortedBy(r, ByOrder) && multiset(r) == multiset(entries)
  {
    OrdersArePreorders();
    Sort(entries, ByOrder)
  }

  function OrderedById(entries: seq<Entry>): (r: seq<Entry>)
    ensures SortedBy(r, ById) && multiset(r) == multiset(entries)
  {
    OrdersArePreorders();
    Sort(entries, ById)
  }

  /** Of two collected entries the one with the smaller order comes first, an absent order
      counting as 0; entries of one order are sorted by id. */
  lemma OrderedByFields(entries: seq<Entry>, i: nat, j: nat)
    requires i < j < |entries|
    ensures |Ordered(entries)| == |entries|
    ensures var x, y := Ordered(entries)[i].contribution, Ordered(entries)[j].contribution;
            var m := if x.order.None? then 0 else x.order.value; var n := if y.order.None? then 0 else y.order.value;
            m < n || (m == n && StringLe(x.id, y.id))
  {
    Permutation(Ordered(entries), entries);
    assert ByOrder(Ordered(entries)[i], Ordered(entries)[j]);
  }

  // ----- entries with distinct ids -----

  ghost predicate UniqueIds(entries: seq<Entry>) {
    NoRepeats(Ids(entries))
  }

  lemma UniqueIdsMeaning(entries: seq<Entry>)
    ensures UniqueIds(entries) <==>
            NoRepeats(entries) && forall x, y | x in entries && y in entries && x.Id() == y.Id() :: x == y
  {
    if UniqueIds(entries) {
      forall i, j | 0 <= i < j < |entries|
        ensures entries[i] != entries[j]
      {
        assert Ids(entries)[i] != Ids(entries)[j];
      }
      forall x, y | x in entries && y in entries && x.Id() == y.Id()
        ensures x == y
      {
        var i :| 0 <= i < |entries| && entries[i] == x;
        var j :| 0 <= j < |entries| && entries[j] == y;
        assert Ids(entries)[i] == Ids(entries)[j];
      }
    } else {
      var i, j :| 0 <= i < j < |entries| && Ids(entries)[i] == Ids(entries)[j];
      assert entries[i] in entries && entries[j] in entries;
    }
  }

  /** Permuting entries keeps their elements and the uniqueness of their ids, and entries with
      unique ids sort to one sequence. */
  lemma PermutedEntries(a: seq<Entry>, b: seq<Entry>)
    requires multiset(a) == multiset(b)
    ensures SameElements(a, b)
    ensures UniqueIds(a) <==> UniqueIds(b)
    ensures UniqueIds(a) ==> Ordered(a) == Ordered(b) && OrderedById(a) == OrderedById(b)
  {
    Permutation(a, b);
    UniqueIdsMeaning(a);
    UniqueIdsMeaning(b);
    if UniqueIds(a) {
      Permutation(Ordered(a), a);
      Permutation(Ordered(b), a);
      Permutation(OrderedById(a), a);
      Permutation(OrderedById(b), a);
      StringLeIsATotalOrder();
      SortedUniquely(Ordered(a), Ordered(b), ByOrder);
      SortedUniquely(OrderedById(a), OrderedById(b), ById);
    }
  }

  // ----- lookup by id -----

  /** `new Map(entries.map(entry => [entry.id, entry]))`. */
  function Index(entries: seq<Entry>): map<string, Entry> {
    if entries == [] then map[]
    else
      var last := entries[|entries| - 1];
      Index(entries[..|entries| - 1])[last.Id() := last]
  }

  lemma {:induction false} IndexHolds(entries: seq<Entry>)
    ensures forall id | id in Index(entries) :: Index(entries)[id] in entries && Index(entries)[id].Id() == id
    ensures forall e | e in entries :: e.Id() in Index(entries)
  {
    if entries != [] {
      var front := entries[..|entries| - 1];
      assert entries == front + [entries[|entries| - 1]];
      IndexHolds(front);
    }
  }

  /** With unique ids, the index finds exactly the entry that has the id. */
  lemma IndexFinds(entries: seq<Entry>)
    requires UniqueIds(entries)
    ensures forall e | e in entries :: e.Id() in Index(entries) && Index(entries)[e.Id()] == e
    ensures forall id | id in Index(entries) :: Index(entries)[id] in entries && Index(entries)[id].Id() == id
  {
    IndexHolds(entries);
    UniqueIdsMeaning(entries);
  }

  lemma SameElementsSameIndex(a: seq<Entry>, b: seq<Entry>)
    requires UniqueIds(a) && UniqueIds(b) && SameElements(a, b)
    ensures Index(a) == Index(b)
  {
    IndexFinds(a);
    IndexFinds(b);
    forall id
      ensures id in Index(a) <==> id in Index(b)
      ensures id in Index(a) ==> Index(a)[id] == Index(b)[id]
    {
      if id in Index(a) {
        assert Index(a)[id] in b;
      }
      if id in Index(b) {
        assert Index(b)[id] in a;
      }
    }
  }

  /** An identifier with a dot, neither leading nor ending right after its first dot. */
  predicate Namespaced(id: string) {
    exists k | 0 < k < |id| - 1 :: id[k] == '.' && '.' !in id[..k]
  }

  /** A namespace without a dot, a dot, and a name. */
  predicate Qualified(id: string, namespace: string, name: string) {
    id == namespace + "." + name && namespace != "" && name != "" && '.' !in namespace
  }

  lemma NamespacedMeans(id: string)
    ensures Namespaced(id) <==> exists namespace, name :: Qualified(id, namespace, name)
  {
    if Namespaced(id) {
      var k :| 0 < k < |id| - 1 && id[k] == '.' && '.' !in id[..k];
      assert id == id[..k] + "." + id[k + 1..];
      assert Qualified(id, id[..k], id[k + 1..]);
    }
    if namespace, name :| Qualified(id, namespace, name) {
      var k := |namespace|;
      assert id[..k] == namespace && 0 < k < |id| - 1 && id[k] == '.' && '.' !in id[..k];
    }
  }

  predicate AllNamespaced(entries: seq<Entry>) {
    forall i | 0 <= i < |entries| :: Namespaced(entries[i].Id())
  }

  /** The owner of an entry names the module of its contribution. */
  ghost predicate SelfOwned(entries: seq<Entry>) {
    forall e | e in entries :: e.owner.moduleId == e.contribution.moduleId
  }

  /** All the orders in which the code fills an index give the same index. */
  lemma OneIndex(entries: seq<Entry>)
    requires UniqueIds(entries)
    ensures Index(Ordered(entries)) == Index(entries) == Index(OrderedById(entries))
  {
    PermutedEntries(entries, Ordered(entries));
    PermutedEntries(entries, OrderedById(entries));
    SameElementsSameIndex(entries, Ordered(entries));
    SameElementsSameIndex(entries, OrderedById(entries));
  }
}
