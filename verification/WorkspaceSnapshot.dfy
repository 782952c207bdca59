/** Admission of a workspace catalog snapshot: `parseWorkspaceCatalogSnapshot` on definitions
    whose fields already have the right types. */
module WorkspaceSnapshot {
  import opened Wrappers
  import opened Ordering
  import opened WorkspaceCatalog
  import Text

  datatype Snapshot = Snapshot(revision: int, definitions: seq<Definition>)

  predicate NamesOk(names: seq<string>) {
    NoRepeats(names) && forall i | 0 <= i < |names| :: Text.WorkspaceName(names[i])
  }

  predicate DefinitionOk(d: Definition) {
    && Text.WorkspaceName(d.viewTypeId)
    && Text.Identity(d.owner.moduleId) && Text.Identity(d.owner.activationId)
    && Text.Identity(d.text) && Text.Identity(d.loaderId)
    && NamesOk(d.capabilities) && NamesOk(d.aliases)
  }

  /** A definition as admitted: its lists of names are sorted. */
  function Admitted(d: Definition): Definition {
    d.(capabilities := SortStrings(d.capabilities), aliases := SortStrings(d.aliases))
  }

  function AdmittedAll(definitions: seq<Definition>): seq<Definition> {
    seq(|definitions|, i requires 0 <= i < |definitions| => Admitted(definitions[i]))
  }

  function ByView(a: Definition, b: Definition): bool {
    StringLe(a.viewTypeId, b.viewTypeId)
  }

  lemma ByViewIsAPreorder()
    ensures Preorder(ByView)
  {
    StringLeIsATotalOrder();
  }

  function SortViews(definitions: seq<Definition>): (r: seq<Definition>)
    ensures SortedBy(r, ByView) && multiset(r) == multiset(definitions)
  {
    ByViewIsAPreorder();
    Sort(definitions, ByView)
  }

  /** Every view id and alias, in order. */
  function Identities(definitions: seq<Definition>): seq<string> {
    if definitions == [] then []
    else [definitions[0].viewTypeId] + definitions[0].aliases + Identities(definitions[1..])
  }

  predicate AllOk(definitions: seq<Definition>) {
    forall i | 0 <= i < |definitions| :: DefinitionOk(definitions[i])
  }

  function Parse(revision: int, definitions: seq<Definition>): Option<Snapshot> {
    var sorted := SortViews(AdmittedAll(definitions));
    if RevisionOk(revision) && AllOk(definitions) && NoRepeats(Identities(sorted))
    then Some(Snapshot(revision, sorted)) else None
  }

  // ----- an admitted snapshot is a fixed point -----

  ghost predicate UniqueViews(definitions: seq<Definition>) {
    NoRepeats(ViewIds(definitions))
  }

  lemma AdmittedIsFixed(d: Definition)
    requires DefinitionOk(d)
    ensures DefinitionOk(Admitted(d)) && Admitted(Admitted(d)) == Admitted(d)
  {
    AdmittedNames(d.capabilities);
    AdmittedNames(d.aliases);
  }

  lemma AdmittedNames(names: seq<string>)
    requires NamesOk(names)
    ensures NamesOk(SortStrings(names)) && SortStrings(SortStrings(names)) == SortStrings(names)
  {
    var sorted := SortStrings(names);
    Permutation(sorted, names);
    StringsSortOneWay(sorted, sorted);
    forall i | 0 <= i < |sorted|
      ensures Text.WorkspaceName(sorted[i])
    {
      assert sorted[i] in names;
    }
  }

  /** A definition's own lists are the admitted ones exactly when they are sorted. */
  lemma AdmittedWhenSorted(d: Definition)
    requires DefinitionOk(d)
    ensures Admitted(d) == d <==> SortedBy(d.capabilities, StringLe) && SortedBy(d.aliases, StringLe)
  {
    if SortedBy(d.capabilities, StringLe) && SortedBy(d.aliases, StringLe) {
      StringsSortOneWay(d.capabilities, d.capabilities);
      StringsSortOneWay(d.aliases, d.aliases);
    }
  }

  lemma PartsDoNotRepeat(head: seq<string>, rest: seq<string>)
    requires NoRepeats(head + rest)
    ensures NoRepeats(rest) && forall x | x in head :: x !in rest
  {
    var all := head + rest;
    assert forall i | 0 <= i < |rest| :: all[|head| + i] == rest[i];
    assert forall i | 0 <= i < |head| :: all[i] == head[i];
    forall x | x in head
      ensures x !in rest
    {
      var i :| 0 <= i < |head| && head[i] == x;
      forall j | 0 <= j < |rest|
        ensures rest[j] != x
      {
        assert all[i] != all[|head| + j];
      }
    }
  }

  lemma UniqueViewsCons(d: Definition, rest: seq<Definition>)
    requires UniqueViews(rest) && d.viewTypeId !in ViewIds(rest)
    ensures UniqueViews([d] + rest)
  {
    assert ViewIds([d] + rest) == [d.viewTypeId] + ViewIds(rest);
  }

  lemma {:induction false} ViewsAreIdentities(definitions: seq<Definition>)
    requires NoRepeats(Identities(definitions))
    ensures UniqueViews(definitions)
    ensures forall v | v in ViewIds(definitions) :: v in Identities(definitions)
  {
    if definitions != [] {
      var d, rest := definitions[0], definitions[1..];
      PartsDoNotRepeat([d.viewTypeId] + d.aliases, Identities(rest));
      ViewsAreIdentities(rest);
      assert d.viewTypeId in [d.viewTypeId] + d.aliases;
      UniqueViewsCons(d, rest);
      assert definitions == [d] + rest;
      assert ViewIds(definitions) == [d.viewTypeId] + ViewIds(rest);
    }
  }

  lemma OneDefinitionPerView(definitions: seq<Definition>, x: Definition, y: Definition)
    requires UniqueViews(definitions) && x in definitions && y in definitions && x.viewTypeId == y.viewTypeId
    ensures x == y
  {
    var i :| 0 <= i < |definitions| && definitions[i] == x;
    var j :| 0 <= j < |definitions| && definitions[j] == y;
    assert ViewIds(definitions)[i] == ViewIds(definitions)[j];
  }

  lemma DistinctViews(a: seq<Definition>)
    requires UniqueViews(a)
    ensures NoRepeats(a)
  {
    forall i, j | 0 <= i < j < |a|
      ensures a[i] != a[j]
    {
      assert ViewIds(a)[i] != ViewIds(a)[j];
    }
  }

  /** Sorted definitions with distinct views are determined by what they are. */
  lemma SameViews(a: seq<Definition>, b: seq<Definition>)
    requires multiset(a) == multiset(b) && UniqueViews(a)
    requires SortedBy(a, ByView) && SortedBy(b, ByView)
    ensures a == b
  {
    Permutation(a, b);
    DistinctViews(a);
    StringLeIsATotalOrder();
    forall x, y | x in a && y in a && ByView(x, y) && ByView(y, x)
      ensures x == y
    {
      OneDefinitionPerView(a, x, y);
    }
    SortedUniquely(a, b, ByView);
  }

  /** Views that are sorted and distinct stay where they are. */
  lemma SortedViewsStay(definitions: seq<Definition>)
    requires UniqueViews(definitions) && SortedBy(definitions, ByView)
    ensures SortViews(definitions) == definitions
  {
    SameViews(definitions, SortViews(definitions));
  }

  ghost predicate IsSnapshot(s: Snapshot) {
    && RevisionOk(s.revision)
    && AllOk(s.definitions)
    && NoRepeats(Identities(s.definitions))
    && SortedBy(s.definitions, ByView)
    && forall i | 0 <= i < |s.definitions| :: Admitted(s.definitions[i]) == s.definitions[i]
  }

  /** Parsing keeps every definition, as admitted, and invents none. */
  lemma SortedAdmitted(definitions: seq<Definition>, d: Definition)
    requires d in SortViews(AdmittedAll(definitions))
    ensures exists j | 0 <= j < |definitions| :: Admitted(definitions[j]) == d
  {
    var admitted := AdmittedAll(definitions);
    Permutation(SortViews(admitted), admitted);
    var j :| 0 <= j < |admitted| && admitted[j] == d;
    assert Admitted(definitions[j]) == d;
  }

  lemma AdmittedIsSorted(definitions: seq<Definition>, d: Definition)
    requires d in definitions
    ensures Admitted(d) in SortViews(AdmittedAll(definitions))
  {
    var admitted := AdmittedAll(definitions);
    Permutation(SortViews(admitted), admitted);
    var j :| 0 <= j < |definitions| && definitions[j] == d;
    assert admitted[j] == Admitted(d) && admitted[j] in admitted;
  }

  lemma ParseGivesASnapshot(revision: int, definitions: seq<Definition>)
    requires Parse(revision, definitions).Some?
    ensures IsSnapshot(Parse(revision, definitions).value)
  {
    var sorted := SortViews(AdmittedAll(definitions));
    forall i | 0 <= i < |sorted|
      ensures DefinitionOk(sorted[i]) && Admitted(sorted[i]) == sorted[i]
    {
      SortedAdmitted(definitions, sorted[i]);
      var j :| 0 <= j < |definitions| && Admitted(definitions[j]) == sorted[i];
      AdmittedIsFixed(definitions[j]);
    }
  }

  /** A snapshot is admitted exactly if its revision is a safe integer, every definition has
      well-formed names, and no view id or alias is claimed twice. It then has the definitions
      with their names sorted, in the order of their view ids. */
  lemma ParsesExactly(revision: int, definitions: seq<Definition>)
    ensures Parse(revision, definitions).Some? <==>
            && 0 <= revision <= 9_007_199_254_740_991
            && (forall d | d in definitions :: WellNamed(d))
            && NoRepeats(Identities(SortViews(AdmittedAll(definitions))))
    ensures Parse(revision, definitions).Some? ==>
              var s := Parse(revision, definitions).value;
              && s.revision == revision && SortedBy(s.definitions, ByView)
              && multiset(s.definitions) == multiset(AdmittedAll(definitions))
  {
    AllWellNamed(definitions);
  }

  lemma AllWellNamed(definitions: seq<Definition>)
    ensures AllOk(definitions) <==> forall d | d in definitions :: WellNamed(d)
  {
    forall d | d in definitions
      ensures WellNamed(d) <==> DefinitionOk(d)
    {
      NamesAreWell(d);
    }
    if AllOk(definitions) {
      forall d | d in definitions
        ensures DefinitionOk(d)
      {
        var i :| 0 <= i < |definitions| && definitions[i] == d;
      }
    }
  }

  /** A view's own names: its id, its capabilities and its aliases are workspace names, and its
      owner, its label and its loader are neither blank nor contain control characters. */
  predicate WellNamed(d: Definition) {
    && Text.WorkspaceName(d.viewTypeId)
    && (forall name | name in d.capabilities :: Text.WorkspaceName(name))
    && (forall name | name in d.aliases :: Text.WorkspaceName(name))
    && NoRepeats(d.capabilities) && NoRepeats(d.aliases)
    && Text.Identity(d.owner.moduleId) && Text.Identity(d.owner.activationId)
    && Text.Identity(d.text) && Text.Identity(d.loaderId)
  }

  lemma NamesAreWell(d: Definition)
    ensures WellNamed(d) <==> DefinitionOk(d)
  {
    EachIsNamed(d.capabilities);
    EachIsNamed(d.aliases);
  }

  lemma EachIsNamed(names: seq<string>)
    ensures NamesOk(names) <==> NoRepeats(names) && forall name | name in names :: Text.WorkspaceName(name)
  {
    if NamesOk(names) {
      forall name | name in names
        ensures Text.WorkspaceName(name)
      {
        var i :| 0 <= i < |names| && names[i] == name;
      }
    }
  }

  /** Admitting an admitted snapshot under another revision changes only the revision. */
  lemma SnapshotsReparse(s: Snapshot, revision: int)
    requires IsSnapshot(s) && RevisionOk(revision)
    ensures Parse(revision, s.definitions) == Some(Snapshot(revision, s.definitions))
  {
    assert AdmittedAll(s.definitions) == s.definitions;
    ViewsAreIdentities(s.definitions);
    SortedViewsStay(s.definitions);
  }
}
