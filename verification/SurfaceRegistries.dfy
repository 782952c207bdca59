/** The two registries that the canvas catalog fills before it resolves any target. */
module SurfaceRegistries {
  import opened Wrappers
  import opened Contributions

  datatype CanvasError =
    | DuplicateModule | MissingActivation | DisposedActivation | ActivationOwnerMismatch | ModuleOwnerMismatch
    | InvalidPanelId | DuplicatePanelId | InvalidSurfaceId | DuplicateSurfaceId
    | InvalidNavigationId | DuplicateNavigationId | NavigationWithoutSurface | NavigationOfAnotherModule
    | TargetOwnerMismatch | MissingSurface | MissingPanel

  /** What is wrong with registering `e` after `done`. */
  function IdFault(done: seq<Entry>, e: Entry, invalid: CanvasError, duplicate: CanvasError): Option<CanvasError> {
    if !Namespaced(e.Id()) then Some(invalid)
    else if e.Id() in Ids(done) then Some(duplicate)
    else None
  }

  function PanelFault(done: seq<Entry>, e: Entry): Option<CanvasError> {
    IdFault(done, e, InvalidPanelId, DuplicatePanelId)
  }

  function SurfaceFault(done: seq<Entry>, e: Entry): Option<CanvasError> {
    IdFault(done, e, InvalidSurfaceId, DuplicateSurfaceId)
  }

  function NavigationFault(surfaces: seq<Entry>, done: seq<Entry>, e: Entry): Option<CanvasError> {
    var fault := IdFault(done, e, InvalidNavigationId, DuplicateNavigationId);
    if fault.Some? then fault
    else if e.contribution.targetId !in Index(surfaces) then Some(NavigationWithoutSurface)
    else if Index(surfaces)[e.contribution.targetId].contribution.moduleId != e.contribution.moduleId
    then Some(NavigationOfAnotherModule)
    else None
  }

  /** An id is refused as invalid when it has no namespace, and else as a duplicate when an entry
      registered before has it. Navigation further needs a registered surface of its module. */
  lemma FaultsMean(surfaces: seq<Entry>, done: seq<Entry>, e: Entry)
    ensures var taken := exists d :: d in done && d.contribution.id == e.contribution.id;
            var named := Namespaced(e.contribution.id);
            && PanelFault(done, e) ==
               (if !named then Some(InvalidPanelId) else if taken then Some(DuplicatePanelId) else None)
            && SurfaceFault(done, e) ==
               (if !named then Some(InvalidSurfaceId) else if taken then Some(DuplicateSurfaceId) else None)
            && (NavigationFault(surfaces, done, e) == Some(InvalidNavigationId) <==> !named)
            && (NavigationFault(surfaces, done, e) == Some(DuplicateNavigationId) <==> named && taken)
            && (NavigationFault(surfaces, done, e) == Some(NavigationWithoutSurface) <==>
                  named && !taken && forall t | t in surfaces :: t.contribution.id != e.contribution.targetId)
            && (NavigationFault(surfaces, done, e).None? ==>
                  exists t :: t in surfaces && t.contribution.id == e.contribution.targetId
                    && t.contribution.moduleId == e.contribution.moduleId)
  {
    IndexHolds(surfaces);
    if e.Id() in Ids(done) {
      var i :| 0 <= i < |done| && Ids(done)[i] == e.Id();
      assert done[i] in done;
    }
    if d :| d in done && d.contribution.id == e.contribution.id {
      var i :| 0 <= i < |done| && done[i] == d;
      assert Ids(done)[i] == e.Id();
    }
  }

  /** The first fault when all of `entries` are registered in order. */
  function FirstFault(entries: seq<Entry>, fault: (seq<Entry>, Entry) -> Option<CanvasError>): Option<CanvasError> {
    if entries == [] then None
    else
      var front, last := entries[..|entries| - 1], entries[|entries| - 1];
      var before := FirstFault(front, fault);
      if before.Some? then before else fault(front, last)
  }

  /** Registration succeeds exactly when no entry has a fault after those before it. */
  lemma {:induction false} NoFault(entries: seq<Entry>, fault: (seq<Entry>, Entry) -> Option<CanvasError>)
    ensures FirstFault(entries, fault).None? <==> forall i | 0 <= i < |entries| :: fault(entries[..i], entries[i]).None?
  {
    if entries != [] {
      var front := entries[..|entries| - 1];
      NoFault(front, fault);
      assert forall i | 0 <= i < |front| :: front[..i] == entries[..i] && front[i] == entries[i];
    }
  }

  lemma {:induction false} FaultIsKept(entries: seq<Entry>, i: nat, fault: (seq<Entry>, Entry) -> Option<CanvasError>)
    requires i <= |entries| && FirstFault(entries[..i], fault).Some?
    ensures FirstFault(entries, fault) == FirstFault(entries[..i], fault)
    decreases |entries|
  {
    if i == |entries| {
      assert entries[..i] == entries;
    } else {
      var front := entries[..|entries| - 1];
      assert front[..i] == entries[..i];
      FaultIsKept(front, i, fault);
    }
  }

  class PanelRegistry {
    var panels: seq<Entry>   // a Map's entries, in insertion order

    constructor ()
      ensures panels == []
    {
      panels := [];
    }

    method Register(e: Entry) returns (fault: Option<CanvasError>)
      modifies this
      ensures fault == PanelFault(old(panels), e)
      ensures panels == if fault.None? then old(panels) + [e] else old(panels)
    {
      if !Namespaced(e.Id()) {
        return Some(InvalidPanelId);
      }
      if e.Id() in Ids(panels) {
        return Some(DuplicatePanelId);
      }
      panels := panels + [e];
      fault := None;
    }

    function List(): seq<Entry>
      reads this
    {
      Ordered(panels)
    }
  }

  method CreatePanelRegistry(contributions: seq<Entry>) returns (registry: PanelRegistry, fault: Option<CanvasError>)
    ensures fresh(registry)
    ensures fault == FirstFault(contributions, PanelFault)
    ensures fault.None? ==> registry.panels == contributions
  {
    registry := new PanelRegistry();
    for i := 0 to |contributions|
      invariant registry.panels == contributions[..i]
      invariant FirstFault(contributions[..i], PanelFault).None?
    {
      assert contributions[..i + 1][..i] == contributions[..i];
      fault := registry.Register(contributions[i]);
      if fault.Some? {
        FaultIsKept(contributions, i + 1, PanelFault);
        return;
      }
    }
    assert contributions[..|contributions|] == contributions;
    fault := None;
  }

  class GlobalSurfaceRegistry {
    var surfaces: seq<Entry>
    var navigation: seq<Entry>

    constructor ()
      ensures surfaces == [] && navigation == []
    {
      surfaces, navigation := [], [];
    }

    method RegisterSurface(e: Entry) returns (fault: Option<CanvasError>)
      modifies this`surfaces
      ensures fault == SurfaceFault(old(surfaces), e)
      ensures surfaces == if fault.None? then old(surfaces) + [e] else old(surfaces)
    {
      if !Namespaced(e.Id()) {
        return Some(InvalidSurfaceId);
      }
      if e.Id() in Ids(surfaces) {
        return Some(DuplicateSurfaceId);
      }
      surfaces := surfaces + [e];
      fault := None;
    }

    method RegisterNavigation(e: Entry) returns (fault: Option<CanvasError>)
      modifies this`navigation
      ensures fault == NavigationFault(surfaces, old(navigation), e)
      ensures navigation == if fault.None? then old(navigation) + [e] else old(navigation)
    {
      if !Namespaced(e.Id()) {
        return Some(InvalidNavigationId);
      }
      if e.Id() in Ids(navigation) {
        return Some(DuplicateNavigationId);
      }
      var surface := Index(surfaces);
      if e.contribution.targetId !in surface {
        return Some(NavigationWithoutSurface);
      }
      if surface[e.contribution.targetId].contribution.moduleId != e.contribution.moduleId {
        return Some(NavigationOfAnotherModule);
      }
      navigation := navigation + [e];
      fault := None;
    }

    function Surfaces(): seq<Entry>
      reads this
    {
      OrderedById(surfaces)
    }
  }

  method CreateGlobalSurfaceRegistry(surfaces: seq<Entry>, navigation: seq<Entry>)
    returns (registry: GlobalSurfaceRegistry, fault: Option<CanvasError>)
    ensures fresh(registry)
    ensures fault == var first := FirstFault(surfaces, SurfaceFault);
                     if first.Some? then first
                     else FirstFault(navigation, (done, e) => NavigationFault(surfaces, done, e))
    ensures fault.None? ==> registry.surfaces == surfaces && registry.navigation == navigation
  {
    registry := new GlobalSurfaceRegistry();
    for i := 0 to |surfaces|
      invariant registry.surfaces == surfaces[..i] && registry.navigation == []
      invariant FirstFault(surfaces[..i], SurfaceFault).None?
    {
      assert surfaces[..i + 1][..i] == surfaces[..i];
      fault := registry.RegisterSurface(surfaces[i]);
      if fault.Some? {
        FaultIsKept(surfaces, i + 1, SurfaceFault);
        return;
      }
    }
    assert surfaces[..|surfaces|] == surfaces;
    ghost var check := (done, e) => NavigationFault(surfaces, done, e);
    for i := 0 to |navigation|
      invariant registry.surfaces == surfaces && registry.navigation == navigation[..i]
      invariant FirstFault(navigation[..i], check).None?
    {
      assert navigation[..i + 1][..i] == navigation[..i];
      fault := registry.RegisterNavigation(navigation[i]);
      if fault.Some? {
        FaultIsKept(navigation, i + 1, check);
        return;
      }
    }
    assert navigation[..|navigation|] == navigation;
    fault := None;
  }
}
