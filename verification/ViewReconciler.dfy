/**
 Making one dataset's managed views exactly match the manifest: shadow preflight, promotion,
 removal of stale managed views, and the temporary access entry around all of it.
 */
module ViewReconciler {
  import opened Wrappers
  import opened ViewManifest
  import opened ViewCatalog
  import opened ViewPromotion

  // ---------------------------------------------------------------------------------------------
  // Preflight

  datatype Preflight =
    | Validated
    | PreflightFailed(view: string)
    | CleanupFailed
    | PreflightUnrendered(error: ManifestError)

  const SHADOW_STORAGE := "expires in one hour"

  /** A view that expires and is labelled as a shadow, so that it never counts as managed. */
  predicate IsShadow(o: Object) {
    o.kind == Some(VIEW) && HasLabel(o.fields.labels, "managed_by", "analytics-view-preflight")
    && o.storage == SHADOW_STORAGE
  }

  lemma ShadowsAreUnmanaged(o: Object)
    requires IsShadow(o)
    ensures !IsManaged(o)
  {
  }

  /** The catalog with shadows added and nothing else changed. */
  ghost predicate Extends(base: Catalog, now: Catalog) {
    && base.Keys <= now.Keys && (forall n :: n in base ==> now[n] == base[n])
    && (forall n :: n in now && n !in base ==> IsShadow(now[n]))
  }

  /** What the preflight leaves behind never changes the managed set. */
  lemma ShadowsKeepManaged(base: Catalog, now: Catalog)
    requires Extends(base, now)
    ensures ManagedNames(now) == ManagedNames(base)
  {
    hide IsShadow, IsManaged;
    forall n | n in now && n !in base ensures !IsManaged(now[n]) {
      ShadowsAreUnmanaged(now[n]);
    }
  }

  function Sources(specs: seq<ViewSpec>): set<string> {
    set i, s | 0 <= i < |specs| && s in specs[i].sources :: s
  }

  /** The manifest is a topological order and every view refers to exactly what it declares. */
  ghost predicate Renderable(specs: seq<ViewSpec>, prefix: string) {
    TopologicalOrder(specs) && forall i :: 0 <= i < |specs| ==> Declared(specs[i], prefix)
  }

  /** The calls created these names and then, unless they were all, failed once. */
  ghost predicate CreationCalls(created: seq<string>, calls: seq<Attempt>, complete: bool) {
    && |calls| == |created| + (if complete then 0 else 1)
    && (forall k :: 0 <= k < |created| ==> calls[k] == Attempt(Creation, created[k], Worked))
    && (!complete ==> calls[|created|].operation == Creation && calls[|created|].answer == Broke)
  }

  /** The calls attempt to delete each of these names once, the last created first. */
  ghost predicate DeletionCalls(created: seq<string>, from: nat, calls: seq<Attempt>) {
    && from + |calls| == |created|
    && forall j :: 0 <= j < |calls| ==>
         calls[j].operation == Deletion && calls[j].name == created[|created| - 1 - j] && calls[j].answer != Missing
  }

  ghost predicate AllWorked(calls: seq<Attempt>) {
    forall a :: a in calls ==> a.answer == Worked
  }

  /** Creates a shadow of every view and attempts to delete every shadow created. Unless a deletion
      failed the catalog is untouched, whether or not the graph was valid; and a cleanup failure is
      reported exactly if a deletion failed. */
  method RunPreflight(d: Dataset, specs: seq<ViewSpec>, prefix: string)
    returns (r: Preflight, ghost created: seq<string>, ghost tried: seq<Attempt>, ghost cleared: seq<Attempt>)
    modifies d`objects, d`alwaysClosed, d`calls
    ensures d.calls == old(d.calls) + tried + cleared
    ensures r.PreflightUnrendered? <==> !Renderable(specs, prefix)
    ensures r.PreflightUnrendered? ==> tried == [] == cleared
    ensures !r.PreflightUnrendered? ==>
              CreationCalls(created, tried, |created| == |specs|) && DeletionCalls(created, 0, cleared)
    ensures r.CleanupFailed? <==> !AllWorked(cleared)
    ensures r.Validated? ==> |created| == |specs|
    ensures r.PreflightFailed? ==> |created| < |specs|
    ensures !r.CleanupFailed? ==> d.objects == old(d.objects)
    ensures AddedWithin(old(d.objects), d.objects, ViewNames(Renamed(Rendered(specs, prefix), prefix)))
    ensures Extends(old(d.objects), d.objects) && ManagedNames(d.objects) == ManagedNames(old(d.objects))
    ensures !r.CleanupFailed? && old(d.alwaysClosed && Closed(d.objects) && Sources(specs) <= d.objects.Keys) ==>
              d.alwaysClosed
  {
    hide Closed, CreationOrder, Staged, AddedWithin, AddedExactly, TopologicalOrder, Declared, CreationCalls,
         DeletionCalls, Failures;
    ghost var base := d.objects;
    ghost var shadows := Renamed(Rendered(specs, prefix), prefix);
    assert |shadows| == |specs|;
    hide Rendered, Renamed;
    NothingAdded(base, ViewNames(shadows));
    created, tried, cleared := [], [], [];
    var rendered := AnalyticsViews(specs, prefix);
    if rendered.Err? {
      return PreflightUnrendered(rendered.error), created, tried, cleared;
    }
    ShadowsOrdered(base, specs, prefix);
    var names, failure;
    names, failure, tried := CreateShadows(d, rendered.value, prefix, shadows);
    created := names;
    var clean;
    clean, cleared := Cleanup(d, names, base, shadows);
    AddedExtends(base, d.objects, ViewNames(shadows));
    if !clean {
      r := CleanupFailed;
    } else {
      r := if failure.Some? then PreflightFailed(failure.value) else Validated;
    }
  }

  /** So many shadows have been created, and with a closed dataset the graph is staged that far. */
  ghost predicate Creating(base: Catalog, now: Catalog, shadows: seq<AnalyticsView>, created: seq<string>,
                           tried: seq<Attempt>, closure: bool)
  {
    && CreationCalls(created, tried, true) && NamesOf(created, shadows) && AddedExactly(base, now, created)
    && (closure ==> Closed(base) && CreationOrder(base, shadows) && Staged(base, now, shadows, |created|))
  }

  ghost predicate NamesOf(created: seq<string>, shadows: seq<AnalyticsView>) {
    |created| <= |shadows| && forall k :: 0 <= k < |created| ==> created[k] == shadows[k].name
  }

  lemma CreatingNone(base: Catalog, shadows: seq<AnalyticsView>, closure: bool)
    requires closure ==> Closed(base) && CreationOrder(base, shadows)
    ensures Creating(base, base, shadows, [], [], closure)
  {
    hide Closed, CreationOrder;
    NothingPromoted(base, shadows);
    NothingAdded(base, {});
  }

  lemma CreatingIsClosed(base: Catalog, now: Catalog, shadows: seq<AnalyticsView>, created: seq<string>,
                         tried: seq<Attempt>, closure: bool)
    requires Creating(base, now, shadows, created, tried, closure) && closure
    ensures Closed(now)
  {
    hide Closed, CreationOrder, Staged, AddedExactly, CreationCalls;
    StagedIsClosed(base, now, shadows, |created|);
  }

  lemma CreatingOneMore(base: Catalog, before: Catalog, now: Catalog, shadows: seq<AnalyticsView>, created: seq<string>,
                        tried: seq<Attempt>, closure: bool, definition: AnalyticsView, name: string)
    requires Creating(base, before, shadows, created, tried, closure) && |created| < |shadows|
    requires shadows[|created|] == definition.(name := name) && name !in before
    requires now == before[name := Object(Some(VIEW), Shadow(definition), SHADOW_STORAGE)]
    ensures Creating(base, now, shadows, created + [name], tried + [Attempt(Creation, name, Worked)], closure)
  {
    hide Closed, CreationOrder, Staged, AddedExactly, CreationCalls;
    CreatedOneMore(created, tried, name, true);
    AddedOneMore(base, before, now, created, name);
    if closure {
      StagedForward(base, shadows, |created|, before, now);
    }
  }

  /** Creates shadows in order up to the first failure. */
  method CreateShadows(d: Dataset, definitions: seq<AnalyticsView>, prefix: string, ghost shadows: seq<AnalyticsView>)
    returns (created: seq<string>, failure: Option<string>, ghost tried: seq<Attempt>)
    requires shadows == Renamed(definitions, prefix)
    modifies d`objects, d`alwaysClosed, d`calls
    ensures Made(old(d.calls), tried, d.calls) && CreationCalls(created, tried, |created| == |shadows|)
    ensures NamesOf(created, shadows) && (failure.None? <==> |created| == |shadows|)
    ensures AddedExactly(old(d.objects), d.objects, created)
    ensures old(d.alwaysClosed && Closed(d.objects) && CreationOrder(d.objects, shadows)) ==>
              d.alwaysClosed && Staged(old(d.objects), d.objects, shadows, |created|)
  {
    ghost var base, earlier := d.objects, d.calls;
    ghost var closure := d.alwaysClosed && Closed(base) && CreationOrder(base, shadows);
    CreatingNone(base, shadows, closure);
    hide Closed, CreationOrder, Staged, AddedExactly, Failures, CreationCalls, Made, Creating, NamesOf;
    MadeSince(earlier, [], [], earlier, earlier);
    created, tried := [], [];
    for i := 0 to |definitions|
      invariant |created| == i && Made(earlier, tried, d.calls)
      invariant Creating(base, d.objects, shadows, created, tried, closure) && (closure ==> d.alwaysClosed)
    {
      ghost var before, calls := d.objects, d.calls;
      if closure {
        CreatingIsClosed(base, before, shadows, created, tried, closure);
      }
      var name := prefix + definitions[i].name;
      var ok := d.CreateTable(name, Shadow(definitions[i]), SHADOW_STORAGE);
      MadeSince(earlier, tried, [Attempt(Creation, name, if ok then Worked else Broke)], calls, d.calls);
      if !ok {
        CreatingStops(base, before, shadows, created, tried, closure, name);
        return created, Some(definitions[i].name), tried + [Attempt(Creation, name, Broke)];
      }
      CreatingOneMore(base, before, d.objects, shadows, created, tried, closure, definitions[i], name);
      created, tried := created + [name], tried + [Attempt(Creation, name, Worked)];
      if closure {
        CreatingIsClosed(base, d.objects, shadows, created, tried, closure);
      }
    }
    CreatingDone(base, d.objects, shadows, created, tried, closure);
    return created, None, tried;
  }

  lemma CreatingStops(base: Catalog, now: Catalog, shadows: seq<AnalyticsView>, created: seq<string>,
                      tried: seq<Attempt>, closure: bool, name: string)
    requires Creating(base, now, shadows, created, tried, closure)
    ensures CreationCalls(created, tried + [Attempt(Creation, name, Broke)], false)
    ensures NamesOf(created, shadows) && AddedExactly(base, now, created)
    ensures closure ==> Staged(base, now, shadows, |created|)
  {
    hide AddedExactly, Staged;
    CreatedOneMore(created, tried, name, false);
  }

  lemma CreatingDone(base: Catalog, now: Catalog, shadows: seq<AnalyticsView>, created: seq<string>,
                     tried: seq<Attempt>, closure: bool)
    requires Creating(base, now, shadows, created, tried, closure)
    ensures CreationCalls(created, tried, true) && NamesOf(created, shadows) && AddedExactly(base, now, created)
    ensures closure ==> Staged(base, now, shadows, |created|)
  {
    hide AddedExactly, Staged;
  }

  /** Attempts to delete every created shadow, newest first, carrying on past failures. */
  method Cleanup(d: Dataset, created: seq<string>, ghost base: Catalog, ghost shadows: seq<AnalyticsView>)
    returns (clean: bool, ghost cleared: seq<Attempt>)
    requires AddedExactly(base, d.objects, created)
    requires NamesOf(created, shadows)
    modifies d`objects, d`alwaysClosed, d`calls
    ensures d.calls == old(d.calls) + cleared && DeletionCalls(created, 0, cleared)
    ensures clean <==> AllWorked(cleared)
    ensures clean ==> d.objects == base
    ensures AddedWithin(base, d.objects, ViewNames(shadows))
    ensures (clean && old(d.alwaysClosed) && Closed(base) && CreationOrder(base, shadows)
             && Staged(base, old(d.objects), shadows, |created|)) ==> d.alwaysClosed
  {
    hide Closed, CreationOrder, Staged, AddedWithin, AddedExactly, Failures;
    clean, cleared := true, [];
    ghost var closure := d.alwaysClosed && Closed(base) && CreationOrder(base, shadows)
                         && Staged(base, d.objects, shadows, |created|);
    CreatedAreShadows(base, d.objects, created, shadows);
    assert created[..|created|] == created;
    for i := |created| downto 0
      invariant d.calls == old(d.calls) + cleared && DeletionCalls(created, i, cleared)
      invariant (clean <==> AllWorked(cleared))
      invariant AddedWithin(base, d.objects, ViewNames(shadows))
      invariant clean ==> AddedExactly(base, d.objects, created[..i])
      invariant clean && closure ==> Staged(base, d.objects, shadows, i) && d.alwaysClosed
    {
      ghost var before := d.objects;
      var ok := d.DeleteTable(created[i]);
      AllWorkedOneMore(cleared, Attempt(Deletion, created[i], if ok then Worked else Broke));
      cleared := cleared + [Attempt(Deletion, created[i], if ok then Worked else Broke)];
      OneRemoved(base, before, d.objects, created[i], ViewNames(shadows));
      if clean && ok {
        RemovedNewest(base, before, d.objects, created, i);
        if closure {
          StagedBack(base, shadows, i, before, d.objects);
          StagedIsClosed(base, d.objects, shadows, i);
        }
      }
      clean := clean && ok;
    }
    if clean {
      NothingLeft(base, d.objects);
    }
  }

  lemma CreatedOneMore(created: seq<string>, calls: seq<Attempt>, name: string, ok: bool)
    requires CreationCalls(created, calls, true)
    ensures CreationCalls(if ok then created + [name] else created,
                          calls + [Attempt(Creation, name, if ok then Worked else Broke)], ok)
  {
  }

  lemma AllWorkedOneMore(calls: seq<Attempt>, a: Attempt)
    ensures AllWorked(calls + [a]) <==> AllWorked(calls) && a.answer == Worked
  {
    assert a in calls + [a] && forall x :: x in calls ==> x in calls + [a];
  }

  /** Only names from the given set have been added and nothing else has changed. */
  ghost predicate AddedWithin(base: Catalog, now: Catalog, names: set<string>) {
    Extends(base, now) && now.Keys - base.Keys <= names
  }

  /** The listed names, all of them new, are what was added. */
  ghost predicate AddedExactly(base: Catalog, now: Catalog, added: seq<string>) {
    && Extends(base, now)
    && (forall n :: n in now <==> n in base || n in added)
    && (forall k :: 0 <= k < |added| ==> added[k] !in base)
    && (forall j, k :: 0 <= j < k < |added| ==> added[j] != added[k])
  }

  lemma NothingAdded(base: Catalog, names: set<string>)
    ensures AddedExactly(base, base, []) && AddedWithin(base, base, names)
  {
  }

  lemma AddedExtends(base: Catalog, now: Catalog, names: set<string>)
    requires AddedWithin(base, now, names)
    ensures Extends(base, now) && ManagedNames(now) == ManagedNames(base)
  {
    ShadowsKeepManaged(base, now);
  }

  lemma NothingLeft(base: Catalog, now: Catalog)
    requires AddedExactly(base, now, [])
    ensures now == base
  {
  }

  lemma CreatedAreShadows(base: Catalog, now: Catalog, created: seq<string>, shadows: seq<AnalyticsView>)
    requires |created| <= |shadows| && AddedExactly(base, now, created)
    requires forall k :: 0 <= k < |created| ==> created[k] == shadows[k].name
    ensures AddedWithin(base, now, ViewNames(shadows))
    ensures forall k :: 0 <= k < |created| ==> created[k] !in base
  {
  }

  lemma OneRemoved(base: Catalog, before: Catalog, now: Catalog, name: string, names: set<string>)
    requires AddedWithin(base, before, names) && name !in base && (now == before || now == before - {name})
    ensures AddedWithin(base, now, names)
  {
  }

  lemma AddedOneMore(base: Catalog, before: Catalog, now: Catalog, added: seq<string>, name: string)
    requires AddedExactly(base, before, added) && name !in before && name in now && now == before[name := now[name]]
    requires IsShadow(now[name])
    ensures AddedExactly(base, now, added + [name])
  {
  }

  lemma RemovedNewest(base: Catalog, before: Catalog, now: Catalog, created: seq<string>, i: nat)
    requires i < |created| && AddedExactly(base, before, created[..i + 1]) && now == before - {created[i]}
    ensures AddedExactly(base, now, created[..i])
    ensures Lookup(now, created[i]) == Lookup(base, created[i])
  {
    var longer, shorter := created[..i + 1], created[..i];
    assert longer[i] == created[i];
    assert forall k :: 0 <= k < i ==> shorter[k] == longer[k];
    assert forall n :: n in longer <==> n in shorter || n == created[i];
  }

  lemma ShadowsOrdered(base: Catalog, specs: seq<ViewSpec>, prefix: string)
    requires TopologicalOrder(specs)
    ensures Sources(specs) <= base.Keys ==> CreationOrder(base, Renamed(Rendered(specs, prefix), prefix))
  {
    if Sources(specs) <= base.Keys {
      assert forall i, s :: 0 <= i < |specs| && s in specs[i].sources ==> s in Sources(specs);
      ShadowsInCreationOrder(base, specs, prefix);
    }
  }

  // ---------------------------------------------------------------------------------------------
  // Stale views and the managed set

  function ManagedNames(c: Catalog): set<string> {
    set n | n in c && IsManaged(c[n])
  }

  function StaleNames(c: Catalog, desired: set<string>): set<string> {
    ManagedNames(c) - desired
  }

  /** The catalog a successful reconciliation leaves. */
  function Reconciled(c: Catalog, views: seq<AnalyticsView>): Catalog {
    PutViews(c, views) - StaleNames(c, ViewNames(views))
  }

  /** No desired name stands for an object whose type the service does not report. */
  ghost predicate Typed(c: Catalog, views: seq<AnalyticsView>) {
    forall v :: v in views && v.name in c ==> c[v.name].kind == Some(VIEW)
  }

  lemma LastDefinition(views: seq<AnalyticsView>, n: string) returns (k: nat)
    requires n in ViewNames(views)
    ensures k < |views| && views[k].name == n && forall j :: k < j < |views| ==> views[j].name != n
  {
    k := |views| - 1;
    while views[k].name != n
      invariant k < |views| && forall j :: k < j < |views| ==> views[j].name != n
      invariant exists i :: 0 <= i <= k && views[i].name == n
      decreases k
    {
      k := k - 1;
    }
  }

  /** After promotion a desired view is managed unless it replaced an object of unreported type. */
  lemma PromotedIsManaged(c: Catalog, views: seq<AnalyticsView>, n: string)
    requires n in ViewNames(views)
    ensures n in PutViews(c, views)
    ensures IsManaged(PutViews(c, views)[n]) <==> (n in c ==> c[n].kind == Some(VIEW))
  {
    PutViewsFrame(c, views);
    var k := LastDefinition(views, n);
    PutViewsFields(c, views, k);
    assert PutViews(c, views)[n].fields == Desired(views[k]);
    assert PutViews(c, views)[n].fields.labels == ViewLabels(views[k]);
  }

  /** The managed views after reconciliation are the desired ones, exactly when every desired name
      was free or stood for an object reported as a view. Nothing else differs from before. */
  lemma ReconciledMeaning(c: Catalog, views: seq<AnalyticsView>)
    ensures ManagedNames(Reconciled(c, views)) == ViewNames(views) <==> Typed(c, views)
    ensures forall n :: n !in ViewNames(views) && n !in StaleNames(c, ViewNames(views)) ==>
              Lookup(Reconciled(c, views), n) == Lookup(c, n)
    ensures StaleNames(PutViews(c, views), ViewNames(views)) == StaleNames(c, ViewNames(views))
  {
    PutViewsFrame(c, views);
    var after, desired := Reconciled(c, views), ViewNames(views);
    assert ManagedNames(after) <= desired by {
      forall n | n in after && n !in desired ensures !IsManaged(after[n]) {
        assert PutViews(c, views)[n] == c[n];
      }
    }
    forall n | n in desired ensures n in ManagedNames(after) <==> (n in c ==> c[n].kind == Some(VIEW)) {
      PromotedIsManaged(c, views, n);
    }
    if Typed(c, views) {
      forall n | n in desired ensures n in ManagedNames(after) {
        var k :| 0 <= k < |views| && views[k].name == n;
        assert views[k] in views;
      }
    } else {
      var v :| v in views && v.name in c && c[v.name].kind != Some(VIEW);
      var k :| 0 <= k < |views| && views[k] == v;
      assert v.name in desired;
    }
  }

  // ---------------------------------------------------------------------------------------------
  // Dependency closure under removal

  function RefsOf(o: Object): set<string> {
    if o.fields.query.Some? then o.fields.query.value.refs else {}
  }

  /** No view refers to any of these names, except perhaps to its own. */
  ghost predicate Unreferenced(c: Catalog, names: set<string>) {
    forall n :: n in c ==> RefsOf(c[n]) * names <= {n}
  }

  lemma NoHit(refs: set<string>, gone: set<string>, keys: set<string>)
    requires refs <= keys && refs * gone == {}
    ensures refs <= keys - gone
  {
    assert forall name :: name in refs && name in gone <==> name in refs * gone;
  }

  /** Removing some objects of a closed catalog leaves it closed exactly if no survivor refers to them. */
  lemma RemovedIsClosedExactly(c: Catalog, gone: set<string>)
    requires Closed(c)
    ensures Closed(c - gone) <==> Unreferenced(c - gone, gone)
  {
    var after := c - gone;
    assert forall n :: n in after ==> n in c && after[n] == c[n] && n !in gone;
    if Closed(after) {
      forall n | n in after ensures RefsOf(after[n]) * gone <= {n} {
        assert RefsOf(after[n]) <= after.Keys;
      }
    }
    if Unreferenced(after, gone) {
      forall n | n in after && after[n].fields.query.Some? ensures after[n].fields.query.value.refs <= after.Keys {
        var hit := RefsOf(after[n]) * gone;
        assert RefsOf(after[n]) <= c.Keys && hit <= {n} && n !in hit;
        NoHit(RefsOf(after[n]), gone, c.Keys);
      }
    }
  }

  /** Removing objects one by one keeps a closed catalog closed in every order exactly if none of them
      is referred to by another view: each set of names is what some order has removed at some moment. */
  lemma EveryOrderIsClosedExactly(c: Catalog, names: set<string>)
    requires Closed(c)
    ensures (forall gone :: gone <= names ==> Closed(c - gone)) <==> Unreferenced(c, names)
  {
    if Unreferenced(c, names) {
      forall gone | gone <= names ensures Closed(c - gone) {
        RemovedIsClosedExactly(c, gone);
        forall n | n in c - gone ensures RefsOf((c - gone)[n]) * gone <= {n} {
          assert RefsOf(c[n]) * names <= {n};
        }
      }
    }
    if !Unreferenced(c, names) {
      var n :| n in c && !(RefsOf(c[n]) * names <= {n});
      var name :| name in RefsOf(c[n]) * names && name != n;
      RemovedIsClosedExactly(c, {name});
      assert n in c - {name} && name in RefsOf((c - {name})[n]) * {name};
      assert {name} <= names;
    }
  }

  lemma ClosedWithout(c: Catalog, names: set<string>, gone: set<string>, name: string)
    requires Closed(c) && Unreferenced(c, names) && gone <= names && name in names
    ensures Closed(c - gone) && Closed(c - gone - {name}) && Closed(c - (gone + {name}))
  {
    hide Closed, Unreferenced;
    EveryOrderIsClosedExactly(c, names);
    assert c - gone - {name} == c - (gone + {name});
  }

  /** Nothing that stands after promotion refers to a stale managed view other than itself. */
  ghost predicate Removable(c: Catalog, views: seq<AnalyticsView>) {
    Unreferenced(PutViews(c, views), StaleNames(c, ViewNames(views)))
  }

  /** Whether the stale views can be removed can be told beforehand: no source is stale, and no object
      outside the manifest refers to a stale view other than itself. */
  lemma RemovableExactly(c: Catalog, specs: seq<ViewSpec>)
    requires TopologicalOrder(specs)
    ensures var views := Rendered(specs, "");
            var stale := StaleNames(c, ViewNames(views));
            Removable(c, views) <==>
              && (forall i :: 0 <= i < |specs| ==> specs[i].sources * stale == {})
              && (forall n :: n in c && n !in ViewNames(views) ==> RefsOf(c[n]) * stale <= {n})
  {
    var views := Rendered(specs, "");
    var stale := StaleNames(c, ViewNames(views));
    PutViewsFrame(c, views);
    RenderedNames(specs);
    hide IsManaged, PutViews, TopologicalOrder;
    forall i | 0 <= i < |specs| ensures views[i].name in PutViews(c, views)
      ensures RefsOf(PutViews(c, views)[views[i].name]) * stale == specs[i].sources * stale
      ensures views[i].name !in stale
    {
      PromotedRefs(c, specs, i);
      assert views[i].name in ViewNames(views);
    }
    forall n | n in ViewNames(views) ensures exists i :: 0 <= i < |specs| && views[i].name == n {
    }
  }

  lemma RenderedNames(specs: seq<ViewSpec>)
    ensures |Rendered(specs, "")| == |specs| && ViewNames(Rendered(specs, "")) == Names(specs)
  {
    var views := Rendered(specs, "");
    assert forall i :: 0 <= i < |specs| ==> views[i].name == specs[i].name;
  }

  lemma PromotedRefs(c: Catalog, specs: seq<ViewSpec>, i: nat)
    requires TopologicalOrder(specs) && i < |specs|
    ensures var views := Rendered(specs, "");
            var stale := StaleNames(c, ViewNames(views));
            && views[i].name in PutViews(c, views)
            && RefsOf(PutViews(c, views)[views[i].name]) * stale == specs[i].sources * stale
  {
    var views := Rendered(specs, "");
    RenderedNames(specs);
    assert forall j :: i < j < |specs| ==> specs[j].name != specs[i].name;
    PutViewsFields(c, views, i);
    assert specs[i].dependsOn <= Names(specs[..i]) <= Names(specs);
    hide PutViews, TopologicalOrder, IsManaged;
    forall d | d in specs[i].dependsOn ensures "" + d in ViewNames(views) {
      assert "" + d == d;
    }
  }

  datatype Removal = Removed(count: nat) | Interrupted

  lemma RemoveOneMore(start: Catalog, gone: set<string>, n: string)
    requires n in start && n !in gone
    ensures (start - gone) - {n} == start - (gone + {n})
    ensures |gone + {n}| == |gone| + 1
  {
  }

  datatype Choice = Kept | Deleted | Stopped

  /** Deletes the named object if it is a managed view that is not desired. */
  method RemoveIfStale(d: Dataset, name: string, desired: set<string>, ghost start: Catalog, ghost earlier: set<string>,
                       ghost closure: bool)
    returns (r: Choice, ghost gone: set<string>)
    requires d.objects == start - earlier && earlier <= StaleNames(start, desired) && name in start && name !in earlier
    requires closure ==> d.alwaysClosed && Closed(start) && Unreferenced(start, StaleNames(start, desired))
    modifies d`objects, d`alwaysClosed, d`calls
    ensures d.objects == start - gone && gone <= StaleNames(start, desired)
    ensures r.Kept? ==> gone == earlier && name !in StaleNames(start, desired)
    ensures r.Deleted? ==> gone == earlier + {name} && |gone| == |earlier| + 1 && name in StaleNames(start, desired)
    ensures closure ==> d.alwaysClosed
    ensures old(d.calls) <= d.calls && Failures(d.calls) == Failures(old(d.calls)) + if r.Stopped? then 1 else 0
  {
    hide Failures, Closed, Unreferenced, IsManaged;
    gone := earlier;
    if name in desired {
      return Kept, gone;
    }
    var current := d.GetTable(name);
    if !current.Found? {
      return Stopped, gone;
    }
    if !IsManaged(current.item) {
      return Kept, gone;
    }
    RemoveOneMore(start, earlier, name);
    if closure {
      ClosedWithout(start, StaleNames(start, desired), earlier, name);
    }
    var ok := d.DeleteTable(name);
    gone := if name in d.objects then earlier else earlier + {name};
    return if ok then Deleted else Stopped, gone;
  }

  /** Of the stale names, exactly those among the first i listed have been removed. */
  ghost predicate Removing(stale: set<string>, names: seq<string>, i: nat, gone: set<string>) {
    i <= |names| && gone == stale * set k | 0 <= k < i :: names[k]
  }

  lemma RemovalBegins(start: Catalog, desired: set<string>, names: seq<string>)
    ensures StaleNames(start, desired) <= start.Keys && start == start - {}
    ensures Removing(StaleNames(start, desired), names, 0, {})
  {
  }

  lemma RemovingOneMore(stale: set<string>, names: seq<string>, i: nat, gone: set<string>)
    requires Removing(stale, names, i, gone) && i < |names|
    requires forall j, k :: 0 <= j < k < |names| ==> names[j] != names[k]
    ensures names[i] !in gone && gone <= stale
    ensures Removing(stale, names, i + 1, if names[i] in stale then gone + {names[i]} else gone)
  {
    var earlier, now := set k | 0 <= k < i :: names[k], set k | 0 <= k < i + 1 :: names[k];
    forall n ensures n in now <==> n in earlier || n == names[i] {
      assert n in earlier ==> exists k :: 0 <= k < i && names[k] == n;
    }
  }

  lemma AllRemoved(start: Catalog, stale: set<string>, names: seq<string>, gone: set<string>)
    requires Removing(stale, names, |names|, gone) && stale <= start.Keys && forall n :: n in names <==> n in start
    ensures gone == stale
  {
    forall n | n in stale ensures n in set k | 0 <= k < |names| :: names[k] {
      assert n in names;
    }
  }

  /** Deletes the managed views whose names are not desired, and counts them. An interruption leaves
      some of them deleted and everything else as it was. */
  method RemoveStale(d: Dataset, desired: set<string>) returns (r: Removal, ghost gone: set<string>)
    modifies d`objects, d`alwaysClosed, d`calls
    ensures gone <= StaleNames(old(d.objects), desired) && d.objects == old(d.objects) - gone
    ensures r.Removed? ==> gone == StaleNames(old(d.objects), desired) && r.count == |gone|
    ensures old(d.calls) <= d.calls && (r.Interrupted? ==> Failures(d.calls) > Failures(old(d.calls)))
    ensures old(d.alwaysClosed && Closed(d.objects) && Unreferenced(d.objects, StaleNames(d.objects, desired))) ==>
              d.alwaysClosed
  {
    hide Failures, Closed, Unreferenced, IsManaged, Removing, StaleNames, ManagedNames;
    ghost var start, stale := d.objects, StaleNames(d.objects, desired);
    ghost var closure := d.alwaysClosed && Closed(start) && Unreferenced(start, stale);
    gone := {};
    var listed := d.ListTables();
    if listed.None? {
      return Interrupted, gone;
    }
    var names := listed.value;
    var removed := 0;
    RemovalBegins(start, desired, names);
    for i := 0 to |names|
      invariant Removing(stale, names, i, gone) && gone <= stale && removed == |gone|
      invariant d.objects == start - gone && (closure ==> d.alwaysClosed)
      invariant old(d.calls) <= d.calls && Failures(d.calls) >= Failures(old(d.calls))
    {
      RemovingOneMore(stale, names, i, gone);
      var choice;
      choice, gone := RemoveIfStale(d, names[i], desired, start, gone, closure);
      if choice.Stopped? {
        return Interrupted, gone;
      }
      removed := removed + if choice.Deleted? then 1 else 0;
    }
    AllRemoved(start, stale, names, gone);
    return Removed(removed), gone;
  }

  /** Reads back the managed set. */
  method ReadManaged(d: Dataset) returns (r: Option<set<string>>)
    modifies d`calls
    ensures r.Some? ==> r.value == ManagedNames(d.objects)
    ensures old(d.calls) <= d.calls && (r.None? ==> Failures(d.calls) > Failures(old(d.calls)))
  {
    hide Failures, IsManaged;
    var listed := d.ListTables();
    if listed.None? {
      return None;
    }
    var managed: set<string> := {};
    for i := 0 to |listed.value|
      invariant old(d.calls) <= d.calls && Failures(d.calls) >= Failures(old(d.calls))
      invariant managed == set k | 0 <= k < i && listed.value[k] in ManagedNames(d.objects) :: listed.value[k]
    {
      var current := d.GetTable(listed.value[i]);
      if !current.Found? {
        return None;
      }
      if IsManaged(current.item) {
        managed := managed + {listed.value[i]};
      }
    }
    assert forall n :: n in ManagedNames(d.objects) ==> n in listed.value;
    return Some(managed);
  }

  // ---------------------------------------------------------------------------------------------
  // Reconciliation

  datatype Outcome =
    | Done(views: nat, removed: nat)
    | Unrendered(error: ManifestError)
    | PreflightBroken(preflight: Preflight)
    | PromotionBroken(promotion: Promotion)
    | RemovalInterrupted
    | PostconditionBroken

  /** What each outcome says about the catalog before and after. The postcondition error arises only
      when a desired name stood for an object of unreported type, and then everything is in place but
      the labels of that object; success rules it out. */
  ghost predicate Explains(r: Outcome, before: Catalog, after: Catalog, specs: seq<ViewSpec>, removeStale: bool) {
    var views := Rendered(specs, "");
    match r
    case Done(n, removed) =>
      && TopologicalOrder(specs) && n == |specs|
      && (removeStale ==> after == Reconciled(before, views) && ManagedNames(after) == ViewNames(views)
                          && Typed(before, views) && removed == |StaleNames(before, ViewNames(views))|)
      && (!removeStale ==> after == PutViews(before, views) && removed == 0)
    case Unrendered(_) => after == before
    case PreflightBroken(p) => if p.CleanupFailed? then Extends(before, after) else after == before
    case PromotionBroken(p) =>
      if p.RollbackFailed? then
        exists log, failed, replay :: p.firstError in failed && InOrder(log, views) && Replayed(log, 0, replay, failed)
          && Unwound(before, after, log, 0, failed)
      else
        after == before
    case RemovalInterrupted =>
      removeStale && exists gone ::
        gone <= StaleNames(before, ViewNames(views)) && after == PutViews(before, views) - gone
    case PostconditionBroken => removeStale && !Typed(before, views) && after == Reconciled(before, views)
  }

  /** The reconciliation got past promotion. */
  predicate RemovalReached(r: Outcome) {
    r.Done? || r.RemovalInterrupted? || r.PostconditionBroken?
  }

  /** The part of a reconciliation that runs with temporary read access. Unless the graph cannot be
      rendered or a desired name stands for something else, only a failing call keeps it from being done. */
  method ReconcileViews(d: Dataset, specs: seq<ViewSpec>, prefix: string, removeStale: bool) returns (r: Outcome)
    modifies d`objects, d`alwaysClosed, d`calls
    ensures Explains(r, old(d.objects), d.objects, specs, removeStale)
    ensures (r != PreflightBroken(CleanupFailed) && !(r.PromotionBroken? && r.promotion.RollbackFailed?)
             && old(d.alwaysClosed && Closed(d.objects) && Sources(specs) <= d.objects.Keys)
             && (removeStale && RemovalReached(r) ==> Removable(old(d.objects), Rendered(specs, ""))))
            ==> d.alwaysClosed
    ensures old(d.calls) <= d.calls
    ensures (Renderable(specs, "") && Renderable(specs, prefix) && Typed(old(d.objects), Rendered(specs, ""))
             && Failures(d.calls) == Failures(old(d.calls))) ==> r.Done?
  {
    hide PutViews, Rendered, Closed, CreationOrder, Unwound, TopologicalOrder, Declared, CreationCalls, DeletionCalls,
         Failures,
         Replayed, InOrder, Typed, Finishes, AllWorked, AddedWithin, Removable, Extends;
    ghost var earlier := d.calls;
    var rendered := AnalyticsViews(specs, "");
    if rendered.Err? {
      return Unrendered(rendered.error);
    }
    var preflight, created, tried, cleared := RunPreflight(d, specs, prefix);
    if !preflight.Validated? {
      if !preflight.PreflightUnrendered? {
        PreflightFailedForCause(earlier, created, tried, cleared, preflight, |specs|);
      }
      return PreflightBroken(preflight);
    }
    FailuresGrow(earlier, d.calls);
    ghost var validated := d.calls;
    var definitions := rendered.value;
    RenderedOrdered(old(d.objects), specs);
    var promotion, log, failed, promoting, replay := Promote(d, definitions);
    if !promotion.Promoted? {
      PromotionFailedForCause(old(d.objects), definitions, validated, promoting, replay);
      return PromotionBroken(promotion);
    }
    FailuresGrow(validated, d.calls);
    r := FinishReconciliation(d, definitions, removeStale, old(d.objects));
    FailuresGrow(earlier, d.calls);
    ExplainsFinish(r, old(d.objects), d.objects, specs, removeStale);
  }

  /** What the removal and the final check come to, after every view was promoted. */
  ghost predicate Finishes(r: Outcome, before: Catalog, after: Catalog, views: seq<AnalyticsView>, removeStale: bool) {
    match r
    case Done(n, removed) =>
      && n == |views|
      && (removeStale ==> after == Reconciled(before, views) && ManagedNames(after) == ViewNames(views)
                          && Typed(before, views) && removed == |StaleNames(before, ViewNames(views))|)
      && (!removeStale ==> after == PutViews(before, views) && removed == 0)
    case RemovalInterrupted =>
      removeStale && exists gone ::
        gone <= StaleNames(before, ViewNames(views)) && after == PutViews(before, views) - gone
    case PostconditionBroken => removeStale && !Typed(before, views) && after == Reconciled(before, views)
    case _ => false
  }

  /** Removes stale managed views, if asked to, and checks that the managed set is the desired one. */
  method FinishReconciliation(d: Dataset, views: seq<AnalyticsView>, removeStale: bool, ghost before: Catalog)
    returns (r: Outcome)
    requires d.objects == PutViews(before, views)
    modifies d`objects, d`alwaysClosed, d`calls
    ensures Finishes(r, before, d.objects, views, removeStale) && RemovalReached(r)
    ensures old(d.calls) <= d.calls && (r.RemovalInterrupted? ==> Failures(d.calls) > Failures(old(d.calls)))
    ensures !removeStale ==> d.alwaysClosed == old(d.alwaysClosed)
    ensures old(d.alwaysClosed && Closed(d.objects)) && Removable(before, views) ==> d.alwaysClosed
  {
    hide PutViews, Failures, Typed, IsManaged, Closed, Unreferenced;
    if !removeStale {
      return Done(|views|, 0);
    }
    ReconciledMeaning(before, views);
    var removal, gone := RemoveStale(d, ViewNames(views));
    if removal.Interrupted? {
      return RemovalInterrupted;
    }
    FailuresGrow(old(d.calls), d.calls);
    var managed := ReadManaged(d);
    if managed.None? {
      return RemovalInterrupted;
    }
    if managed.value != ViewNames(views) {
      return PostconditionBroken;
    }
    return Done(|views|, removal.count);
  }

  lemma ExplainsFinish(r: Outcome, before: Catalog, after: Catalog, specs: seq<ViewSpec>, removeStale: bool)
    requires TopologicalOrder(specs) && Finishes(r, before, after, Rendered(specs, ""), removeStale)
    ensures Explains(r, before, after, specs, removeStale)
    ensures r.Done? || r.RemovalInterrupted? || !Typed(before, Rendered(specs, ""))
  {
    hide PutViews, TopologicalOrder, Typed;
    RenderedLength(specs, "");
  }

  lemma FailuresGrow(before: seq<Attempt>, after: seq<Attempt>)
    requires before <= after
    ensures Failures(before) <= Failures(after)
  {
    assert after == before + after[|before|..];
    FailuresAdd(before, after[|before|..]);
  }

  lemma PreflightFailedForCause(before: seq<Attempt>, created: seq<string>, tried: seq<Attempt>, cleared: seq<Attempt>,
                                r: Preflight, n: nat)
    requires (r.CleanupFailed? && !AllWorked(cleared)) || (r.PreflightFailed? && |created| < n)
    requires CreationCalls(created, tried, |created| == n) && DeletionCalls(created, 0, cleared)
    ensures Failures(before + tried + cleared) > Failures(before)
  {
    FailuresAdd(before + tried, cleared);
    FailuresAdd(before, tried);
    FailuresMeaning(tried);
    FailuresMeaning(cleared);
    if r.PreflightFailed? {
      assert tried[|created|] in tried;
    }
  }

  lemma PromotionFailedForCause(base: Catalog, views: seq<AnalyticsView>, before: seq<Attempt>, tried: seq<Attempt>,
                                replay: seq<Attempt>)
    requires Failures(tried) > 0 || exists v :: v in views && v.name in base && !Promotable(base[v.name])
    ensures Typed(base, views) ==> Failures(before + tried + replay) > Failures(before)
  {
    FailuresAdd(before + tried, replay);
    FailuresAdd(before, tried);
    hide Failures;
  }

  lemma RenderedOrdered(base: Catalog, specs: seq<ViewSpec>)
    requires TopologicalOrder(specs)
    ensures Sources(specs) <= base.Keys ==> CreationOrder(base, Rendered(specs, ""))
  {
    if Sources(specs) <= base.Keys {
      assert forall i, s :: 0 <= i < |specs| && s in specs[i].sources ==> s in Sources(specs);
      RenderedInCreationOrder(base, specs);
    }
  }

  lemma RenderedLength(specs: seq<ViewSpec>, prefix: string)
    ensures |Rendered(specs, prefix)| == |specs|
  {
  }

  /** The existing entries with one reader added if it is not there yet. */
  function TemporaryReaderAccess(existing: seq<AccessEntry>, account: string): (r: seq<AccessEntry>)
    ensures existing <= r && AccessEntry("READER", "userByEmail", account) in r
    ensures AccessEntry("READER", "userByEmail", account) in existing ==> r == existing
    ensures forall e :: e in r && e !in existing ==> e == AccessEntry("READER", "userByEmail", account)
  {
    var reader := AccessEntry("READER", "userByEmail", account);
    if reader in existing then existing else existing + [reader]
  }

  datatype Reconciliation =
    | AccessUnavailable
    | AccessNotWidened
    | AccessNotRestored(outcome: Outcome)
    | Finished(outcome: Outcome)

  /** The last calls read the dataset and wrote the access list back, or failed to. */
  ghost predicate Restoring(calls: seq<Attempt>, restored: bool) {
    || (!restored && |calls| >= 1 && calls[|calls| - 1] == Attempt(DatasetRead, "", Broke))
    || (|calls| >= 2 && calls[|calls| - 2] == Attempt(DatasetRead, "", Worked)
        && calls[|calls| - 1] == Attempt(AccessWrite, "", if restored then Worked else Broke))
  }

  /** Once the access list has been widened, every exit ends with the restoring calls, and the list is
      as it was unless one of them failed. It is never anything but the permanent list or that list
      with the temporary reader. */
  method Reconcile(d: Dataset, specs: seq<ViewSpec>, prefix: string, account: string, removeStale: bool)
    returns (r: Reconciliation)
    modifies d
    ensures r.AccessUnavailable? <==> d.calls == old(d.calls) + [Attempt(DatasetRead, "", Broke)]
    ensures r.AccessNotWidened?
            <==> d.calls == old(d.calls) + [Attempt(DatasetRead, "", Worked), Attempt(AccessWrite, "", Broke)]
    ensures r.Finished? || r.AccessNotRestored? ==>
              |d.calls| >= |old(d.calls)| + 3 && Restoring(d.calls[|old(d.calls)| + 2..], r.Finished?)
    ensures r.Finished? || r.AccessNotRestored? ==>
              d.calls[..|old(d.calls)| + 2]
              == old(d.calls) + [Attempt(DatasetRead, "", Worked), Attempt(AccessWrite, "", Worked)]
    ensures r.Finished? || r.AccessUnavailable? ==> d.access == old(d.access)
    ensures d.access == old(d.access) || d.access == TemporaryReaderAccess(old(d.access), account)
    ensures r.AccessUnavailable? || r.AccessNotWidened? ==> d.objects == old(d.objects)
    ensures r.Finished? || r.AccessNotRestored? ==> Explains(r.outcome, old(d.objects), d.objects, specs, removeStale)
  {
    hide Explains, Failures, Closed, Renderable, Typed, Rendered, Restoring;
    var permanent := d.GetDataset();
    if permanent.None? {
      return AccessUnavailable;
    }
    var ok := d.UpdateAccess(TemporaryReaderAccess(permanent.value, account));
    assert d.calls == old(d.calls) + [Attempt(DatasetRead, "", Worked),
                                      Attempt(AccessWrite, "", if ok then Worked else Broke)];
    if !ok {
      return AccessNotWidened;
    }
    var outcome := ReconcileViews(d, specs, prefix, removeStale);
    ghost var earlier := d.calls;
    var restored := d.GetDataset();
    if restored.None? {
      EndsRestoring(old(d.calls), earlier, d.calls, false);
      return AccessNotRestored(outcome);
    }
    ok := d.UpdateAccess(permanent.value);
    EndsRestoring(old(d.calls), earlier, d.calls, ok);
    return if ok then Finished(outcome) else AccessNotRestored(outcome);
  }

  lemma EndsRestoring(start: seq<Attempt>, earlier: seq<Attempt>, calls: seq<Attempt>, restored: bool)
    requires |start| + 2 <= |earlier|
    requires || calls == earlier + [Attempt(DatasetRead, "", Worked)]
                         + [Attempt(AccessWrite, "", if restored then Worked else Broke)]
             || (!restored && calls == earlier + [Attempt(DatasetRead, "", Broke)])
    ensures |calls| >= |start| + 3 && Restoring(calls[|start| + 2..], restored)
  {
  }

  // ---------------------------------------------------------------------------------------------
  // The postcondition error

  function Sample(): AnalyticsView {
    AnalyticsView("sample", "", Query("", {}))
  }

  /** A desired name stands for an object whose type the service does not report. */
  function UntypedCatalog(): Catalog {
    map["sample" := Object(None, ViewFields(None, map[], None, false), "")]
  }

  /** Promotion accepts the object, and the managed test refuses it afterwards. */
  lemma UntypedNameBreaksPostcondition()
    ensures var views, before := [Sample()], UntypedCatalog();
            && !Typed(before, views) && Promotable(before["sample"])
            && ManagedNames(Reconciled(before, views)) != ViewNames(views)
  {
    var views := [Sample()];
    assert Sample() in views && views[0].name in ViewNames(views);
    ReconciledMeaning(UntypedCatalog(), views);
  }

  // ---------------------------------------------------------------------------------------------
  // A stale view that something still refers to

  /** A managed view outside the manifest, and a view of someone else's that reads it. */
  function ReadStaleCatalog(): Catalog {
    var labels := map["application" := "tesla-personal-platform", "data_class" := "restricted-user-telemetry",
                      "layer" := "analytics", "managed_by" := "add-user"];
    map["old" := Object(Some(VIEW), ViewFields(None, labels, Some(Query("", {})), false), ""),
        "report" := Object(Some(VIEW), ViewFields(None, map[], Some(Query("", {"old"})), false), "")]
  }

  /** The catalog is closed, and reconciling it with an empty manifest leaves a view dangling. */
  lemma RemovalMayBreakClosure()
    ensures Closed(ReadStaleCatalog()) && !Removable(ReadStaleCatalog(), [])
    ensures !Closed(Reconciled(ReadStaleCatalog(), []))
  {
    var c := ReadStaleCatalog();
    assert |"old"| != |"report"|;
    assert StaleNames(c, {}) == {"old"} by {
      assert "managed_by" !in c["report"].fields.labels;
    }
    assert ViewNames([]) == {} && PutViews(c, []) == c;
    assert "old" in RefsOf(c["report"]) * {"old"};
    RemovedIsClosedExactly(c, {"old"});
    assert "report" in c - {"old"};
  }
}
