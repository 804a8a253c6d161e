/**
 Promotion of a validated view graph: the shadow preflight, the promotion with its undo log,
 and the reverse replay of that log.
 */
module ViewPromotion {
  import opened Wrappers
  import opened ViewManifest
  import opened ViewCatalog

  /** Stands for the truncated SHA-256 of the description and the SQL. */
  function DefinitionHash(v: AnalyticsView): string {
    v.description + "\0" + v.sql.text
  }

  function ViewLabels(v: AnalyticsView): map<string, string> {
    map["application" := "tesla-personal-platform",
        "data_class" := "restricted-user-telemetry",
        "managed_by" := "analytics-view-reconciler",
        "layer" := "analytics",
        "definition_hash" := DefinitionHash(v)]
  }

  function Desired(v: AnalyticsView): ViewFields {
    ViewFields(Some(v.description), ViewLabels(v), Some(v.sql), false)
  }

  function Shadow(v: AnalyticsView): ViewFields {
    ViewFields(Some("Short-lived validation shadow for " + v.name + "."),
               ViewLabels(v)["managed_by" := "analytics-view-preflight"], Some(v.sql), false)
  }

  predicate HasLabel(labels: map<string, string>, key: string, value: string) {
    key in labels && labels[key] == value
  }

  predicate IsManaged(o: Object) {
    && o.kind == Some(VIEW)
    && HasLabel(o.fields.labels, "application", "tesla-personal-platform")
    && HasLabel(o.fields.labels, "data_class", "restricted-user-telemetry")
    && HasLabel(o.fields.labels, "layer", "analytics")
    && "managed_by" in o.fields.labels
    && o.fields.labels["managed_by"] in {"add-user", "analytics-view-reconciler"}
  }

  /** Which objects count as managed. */
  lemma ManagedExactly(o: Object)
    ensures IsManaged(o) <==>
              && o.kind == Some("VIEW")
              && {"application", "data_class", "layer", "managed_by"} <= o.fields.labels.Keys
              && o.fields.labels["application"] == "tesla-personal-platform"
              && o.fields.labels["data_class"] == "restricted-user-telemetry"
              && o.fields.labels["layer"] == "analytics"
              && (o.fields.labels["managed_by"] == "analytics-view-reconciler"
                  || o.fields.labels["managed_by"] == "add-user")
  {
    assert {"application", "data_class", "layer", "managed_by"} <= o.fields.labels.Keys <==>
             "application" in o.fields.labels && "data_class" in o.fields.labels
             && "layer" in o.fields.labels && "managed_by" in o.fields.labels;
  }

  /** What a view is given when it is promoted, and that its shadow differs in description and label only. */
  lemma DesiredExactly(v: AnalyticsView)
    ensures Desired(v).description == Some(v.description) && Desired(v).query == Some(v.sql) && !Desired(v).legacySql
    ensures Desired(v).labels.Keys == {"application", "data_class", "layer", "managed_by", "definition_hash"}
    ensures Desired(v).labels["managed_by"] == "analytics-view-reconciler"
    ensures IsManaged(Object(Some("VIEW"), Desired(v), ""))
    ensures Shadow(v).query == Some(v.sql) && !Shadow(v).legacySql
    ensures Shadow(v).description == Some("Short-lived validation shadow for " + v.name + ".")
    ensures Shadow(v).labels == Desired(v).labels["managed_by" := "analytics-view-preflight"]
  {
  }

  /** The definition label identifies description and SQL, if no description holds a null character. */
  lemma DefinitionIsIdentified(v: AnalyticsView, w: AnalyticsView)
    requires '\0' !in v.description && '\0' !in w.description
    ensures Desired(v).labels["definition_hash"] == Desired(w).labels["definition_hash"]
            <==> v.description == w.description && v.sql.text == w.sql.text
  {
    if DefinitionHash(v) == DefinitionHash(w) {
      SplitOnce(v.description, v.sql.text, w.description, w.sql.text);
    }
  }

  lemma SplitOnce(a: string, b: string, c: string, d: string)
    requires '\0' !in a && '\0' !in c && a + "\0" + b == c + "\0" + d
    ensures a == c && b == d
  {
    var whole := a + "\0" + b;
    FirstNullOf(a, b);
    FirstNullOf(c, d);
    assert a == whole[..|a|] && c == whole[..|c|];
    assert b == whole[|a| + 1..] && d == whole[|c| + 1..];
  }

  function FirstNull(s: string): nat {
    if s == "" || s[0] == '\0' then 0 else 1 + FirstNull(s[1..])
  }

  lemma {:induction false} FirstNullOf(a: string, b: string)
    requires '\0' !in a
    ensures FirstNull(a + "\0" + b) == |a|
  {
    if a != "" {
      assert (a + "\0" + b)[1..] == a[1..] + "\0" + b;
      FirstNullOf(a[1..], b);
    }
  }

  /** What a view is rendered to. */
  lemma RenderedExactly(specs: seq<ViewSpec>, prefix: string, i: nat, name: string)
    requires i < |specs| && Declared(specs[i], prefix)
    ensures |Rendered(specs, prefix)| == |specs|
    ensures var v := Rendered(specs, prefix)[i];
            && v.name == specs[i].name && v.description == specs[i].description
            && v.sql.text == specs[i].template(prefix).text
            && (name in v.sql.refs <==>
                  name in specs[i].sources || exists d :: d in specs[i].dependsOn && name == prefix + d)
            && (name in v.sql.refs <==> Own(name) in specs[i].template(prefix).tables)
  {
    var sql := specs[i].template(prefix);
    assert name in OwnTables(sql.tables) <==> Own(name) in sql.tables by {
      if k :| 0 <= k < |sql.tables| && sql.tables[k] == Own(name) {
        assert sql.tables[k].name in OwnTables(sql.tables);
      }
    }
  }

  // ---------------------------------------------------------------------------------------------
  // What a promotion amounts to

  function ViewNames(views: seq<AnalyticsView>): set<string> {
    set i | 0 <= i < |views| :: views[i].name
  }

  lemma ViewNamesOfPrefix(views: seq<AnalyticsView>, i: nat)
    requires i < |views|
    ensures ViewNames(views[..i + 1]) == ViewNames(views[..i]) + {views[i].name}
  {
  }

  /** The catalog with one view created, or rewritten if its name is taken. */
  function PutView(c: Catalog, v: AnalyticsView): Catalog {
    c[v.name := if v.name in c then c[v.name].(fields := Desired(v)) else Object(Some(VIEW), Desired(v), "")]
  }

  function PutViews(c: Catalog, views: seq<AnalyticsView>): Catalog {
    if views == [] then c else PutView(PutViews(c, views[..|views| - 1]), views[|views| - 1])
  }

  /** Promotion touches the named views alone and keeps whatever type and storage they had. */
  lemma {:induction false} PutViewsFrame(c: Catalog, views: seq<AnalyticsView>)
    ensures PutViews(c, views).Keys == c.Keys + ViewNames(views)
    ensures forall n :: n in c ==> PutViews(c, views)[n] == c[n].(fields := PutViews(c, views)[n].fields)
    ensures forall n :: n in c && n !in ViewNames(views) ==> PutViews(c, views)[n] == c[n]
    ensures forall n :: n in ViewNames(views) && n !in c ==>
              PutViews(c, views)[n].kind == Some(VIEW) && PutViews(c, views)[n].storage == ""
  {
    if views != [] {
      var last := |views| - 1;
      PutViewsFrame(c, views[..last]);
      ViewNamesOfPrefix(views, last);
      assert views[..last + 1] == views;
    }
  }

  /** Each promoted view ends with the fields of its last definition. */
  lemma {:induction false} PutViewsFields(c: Catalog, views: seq<AnalyticsView>, k: nat)
    requires k < |views| && forall j :: k < j < |views| ==> views[j].name != views[k].name
    ensures Lookup(PutViews(c, views), views[k].name).Some?
    ensures Lookup(PutViews(c, views), views[k].name).value.fields == Desired(views[k])
  {
    var last := |views| - 1;
    if k < last {
      var front := views[..last];
      assert forall j :: k < j < last ==> front[j] == views[j];
      PutViewsFields(c, front, k);
      assert views[last].name != views[k].name;
    }
  }

  // ---------------------------------------------------------------------------------------------
  // Dependency closure of a partly created graph

  /** Each view refers to objects of the starting catalog or to views earlier in the list. */
  ghost predicate CreationOrder(base: Catalog, views: seq<AnalyticsView>) {
    && (forall i, j :: 0 <= i < j < |views| ==> views[i].name != views[j].name)
    && (forall i :: 0 <= i < |views| ==> views[i].sql.refs <= base.Keys + ViewNames(views[..i]))
  }

  /** The first m views have been created or rewritten, or rewriting one of them failed without effect. */
  ghost predicate Staged(base: Catalog, now: Catalog, views: seq<AnalyticsView>, m: nat)
    requires m <= |views|
  {
    && now.Keys == base.Keys + ViewNames(views[..m])
    && (forall n :: n in base && n !in ViewNames(views[..m]) ==> now[n] == base[n])
    && (forall k :: 0 <= k < m ==> StagedView(base, now, views[k]))
  }

  /** The view stands with its new query, or is what it was. */
  ghost predicate StagedView(base: Catalog, now: Catalog, v: AnalyticsView) {
    v.name in now && (now[v.name].fields.query == Some(v.sql) || Lookup(base, v.name) == Some(now[v.name]))
  }

  lemma StillStaged(base: Catalog, before: Catalog, now: Catalog, v: AnalyticsView)
    requires StagedView(base, before, v) && v.name in now && now[v.name] == before[v.name]
    ensures StagedView(base, now, v)
  {
  }

  lemma StagedIsClosed(base: Catalog, now: Catalog, views: seq<AnalyticsView>, m: nat)
    requires m <= |views| && Closed(base) && CreationOrder(base, views) && Staged(base, now, views, m)
    ensures Closed(now)
  {
  }

  /** Rendering an accepted manifest with no prefix gives views in creation order. */
  lemma RenderedInCreationOrder(base: Catalog, specs: seq<ViewSpec>)
    requires TopologicalOrder(specs)
    requires forall i :: 0 <= i < |specs| ==> specs[i].sources <= base.Keys
    ensures CreationOrder(base, Rendered(specs, ""))
  {
    ShadowsInCreationOrder(base, specs, "");
    assert Renamed(Rendered(specs, ""), "") == Rendered(specs, "") by {
      forall i | 0 <= i < |specs| ensures Renamed(Rendered(specs, ""), "")[i] == Rendered(specs, "")[i] {
        assert "" + specs[i].name == specs[i].name;
      }
    }
  }

  /** The views under the names they are created with. */
  function Renamed(views: seq<AnalyticsView>, prefix: string): seq<AnalyticsView> {
    seq(|views|, i requires 0 <= i < |views| => views[i].(name := prefix + views[i].name))
  }

  lemma PrefixIsInjective(prefix: string, a: string, b: string)
    ensures prefix + a == prefix + b ==> a == b
  {
    assert (prefix + a)[|prefix|..] == a && (prefix + b)[|prefix|..] == b;
  }

  /** Under any prefix the shadow graph is in creation order as well. */
  lemma ShadowsInCreationOrder(base: Catalog, specs: seq<ViewSpec>, prefix: string)
    requires TopologicalOrder(specs)
    requires forall i :: 0 <= i < |specs| ==> specs[i].sources <= base.Keys
    ensures CreationOrder(base, Renamed(Rendered(specs, prefix), prefix))
  {
    var views := Renamed(Rendered(specs, prefix), prefix);
    forall i, j | 0 <= i < j < |views| ensures views[i].name != views[j].name {
      PrefixIsInjective(prefix, specs[i].name, specs[j].name);
    }
    forall i | 0 <= i < |views| ensures views[i].sql.refs <= base.Keys + ViewNames(views[..i]) {
      forall d | d in specs[i].dependsOn ensures prefix + d in ViewNames(views[..i]) {
        assert d in Names(specs[..i]);
        var k :| 0 <= k < |specs[..i]| && specs[..i][k].name == d;
        assert views[..i][k].name == prefix + d;
      }
      assert views[i].sql.refs == References(specs[i], prefix);
    }
  }

  // ---------------------------------------------------------------------------------------------
  // The undo log

  /** What one logged change replaced; nothing if it created the view. */
  datatype Change = Change(name: string, before: Option<ViewFields>)

  function Touched(log: seq<Change>): set<string> {
    set k | 0 <= k < |log| :: log[k].name
  }

  /** The oldest entry for its name: the one that remembers the state before promotion. */
  ghost predicate Oldest(log: seq<Change>, k: int) {
    0 <= k < |log| && forall j :: 0 <= j < k ==> log[j].name != log[k].name
  }

  /** The log accounts for every difference between the starting catalog and the present one. */
  ghost predicate Recorded(base: Catalog, now: Catalog, log: seq<Change>) {
    && now.Keys == base.Keys + Touched(log)
    && (forall n :: n in base ==> now[n] == base[n].(fields := now[n].fields))
    && (forall n :: n in base && n !in Touched(log) ==> now[n] == base[n])
    && (forall k :: Oldest(log, k) ==>
          log[k].before == if log[k].name in base then Some(base[log[k].name].fields) else None)
  }

  lemma TouchedExtended(log: seq<Change>, c: Change)
    ensures Touched(log + [c]) == Touched(log) + {c.name}
  {
    var longer := log + [c];
    forall n | n in Touched(longer) ensures n in Touched(log) + {c.name} {
      var k :| 0 <= k < |longer| && longer[k].name == n;
      assert k < |log| ==> log[k].name == n;
    }
    forall n | n in Touched(log) + {c.name} ensures n in Touched(longer) {
      if n == c.name {
        assert longer[|log|].name == n;
      } else {
        var k :| 0 <= k < |log| && log[k].name == n;
        assert longer[k].name == n;
      }
    }
  }

  /** Logging what stood under a name keeps the account exact, whatever the fields under it become. */
  lemma RecordedExtended(base: Catalog, now: Catalog, log: seq<Change>, next: Catalog, c: Change)
    requires Recorded(base, now, log)
    requires c.before == if c.name in now then Some(now[c.name].fields) else None
    requires c.name in next && next == now[c.name := next[c.name]]
    requires c.name in now ==> next[c.name] == now[c.name].(fields := next[c.name].fields)
    ensures Recorded(base, next, log + [c])
  {
    TouchedExtended(log, c);
    var longer := log + [c];
    forall k | Oldest(longer, k)
      ensures longer[k].before == if longer[k].name in base then Some(base[longer[k].name].fields) else None
    {
      if k < |log| {
        assert forall j :: 0 <= j < k ==> longer[j] == log[j];
        assert Oldest(log, k);
      } else {
        assert forall j :: 0 <= j < |log| ==> longer[j] == log[j];
        assert c.name !in Touched(log);
      }
    }
  }

  /** The log has been replayed down to entry i: entries that remember the original state and whose
      calls succeeded have been restored, and nothing outside the log differs. */
  ghost predicate Unwound(base: Catalog, now: Catalog, log: seq<Change>, i: int, failed: set<int>) {
    && (forall n :: n !in Touched(log) ==> Lookup(now, n) == Lookup(base, n))
    && (forall n :: n in base && n in now ==> now[n] == base[n].(fields := now[n].fields))
    && (forall k :: Oldest(log, k) && i <= k && k !in failed ==> Lookup(now, log[k].name) == Lookup(base, log[k].name))
    && (forall k :: Oldest(log, k) ==>
          log[k].before == if log[k].name in base then Some(base[log[k].name].fields) else None)
  }

  ghost predicate Undone(before: Catalog, now: Catalog, entry: Change) {
    match entry.before
    case None => now == before - {entry.name}
    case Some(fields) => entry.name in before && now == before[entry.name := before[entry.name].(fields := fields)]
  }

  lemma UnwindOne(base: Catalog, before: Catalog, now: Catalog, log: seq<Change>, i: nat, failed: set<int>, ok: bool)
    requires i < |log| && Unwound(base, before, log, i + 1, failed)
    requires Undone(before, now, log[i]) || (!ok && now == before)
    ensures Unwound(base, now, log, i, if ok then failed else failed + {i})
  {
    var name := log[i].name;
    assert name in Touched(log);
    assert forall n :: n != name ==> Lookup(now, n) == Lookup(before, n);
    forall k | Oldest(log, k) && i <= k && k !in failed && (ok || k != i)
      ensures Lookup(now, log[k].name) == Lookup(base, log[k].name)
    {
      if k > i {
        assert log[k].name != name;
      }
    }
  }

  lemma RecordedIsUnwound(base: Catalog, now: Catalog, log: seq<Change>)
    requires Recorded(base, now, log)
    ensures Unwound(base, now, log, |log|, {})
  {
  }

  lemma EntryRestored(base: Catalog, now: Catalog, log: seq<Change>, views: seq<AnalyticsView>, i: nat)
    requires i < |log| && Unwound(base, now, log, i, {}) && CreationOrder(base, views) && InOrder(log, views)
    ensures Lookup(now, log[i].name) == Lookup(base, log[i].name)
  {
  }

  lemma FullyUnwound(base: Catalog, now: Catalog, log: seq<Change>)
    requires Unwound(base, now, log, 0, {})
    ensures now == base
  {
    forall n ensures Lookup(now, n) == Lookup(base, n) {
      if n in Touched(log) {
        var k := OldestEntry(log, n);
      }
    }
    assert forall n :: n in now <==> Lookup(now, n).Some?;
    assert forall n :: n in base <==> Lookup(base, n).Some?;
    assert forall n :: n in base ==> Lookup(base, n) == Some(base[n]) && Lookup(now, n) == Some(now[n]);
  }

  /** The graph is staged exactly as far as the log reaches. */
  ghost predicate StagedByLog(base: Catalog, now: Catalog, views: seq<AnalyticsView>, log: seq<Change>) {
    && Closed(base) && CreationOrder(base, views)
    && InOrder(log, views) && Staged(base, now, views, |log|)
  }

  /** The entries are for the first views, in their order. */
  ghost predicate InOrder(log: seq<Change>, views: seq<AnalyticsView>) {
    |log| <= |views| && forall k :: 0 <= k < |log| ==> log[k].name == views[k].name
  }

  /** The calls that undo one entry: a deletion, or a read and, if that worked, an update. */
  ghost predicate UndoCalls(entry: Change, calls: seq<Attempt>, ok: bool) {
    match entry.before
    case None => calls == [Attempt(Deletion, entry.name, if ok then Worked else Broke)]
    case Some(_) =>
      || (!ok && |calls| == 1 && calls[0].operation == TableRead && calls[0].name == entry.name
          && calls[0].answer != Worked)
      || calls == [Attempt(TableRead, entry.name, Worked), Attempt(Update, entry.name, if ok then Worked else Broke)]
  }

  /** The calls attempt the entries from the newest down to entry i, each of them once, and the ones
      that failed are exactly those in `failed`. */
  ghost predicate Replayed(log: seq<Change>, i: nat, calls: seq<Attempt>, failed: set<int>)
    decreases |log| - i
  {
    if i >= |log| then calls == [] && failed == {}
    else exists k :: 0 <= k <= |calls| && Replayed(log, i + 1, calls[..k], failed - {i})
                       && UndoCalls(log[i], calls[k..], i !in failed)
  }

  lemma ReplayedOneMore(log: seq<Change>, i: nat, calls: seq<Attempt>, failed: set<int>, made: seq<Attempt>, ok: bool)
    requires i < |log| && Replayed(log, i + 1, calls, failed) && i !in failed && UndoCalls(log[i], made, ok)
    ensures Replayed(log, i, calls + made, if ok then failed else failed + {i})
  {
    hide UndoCalls;
    var all, now := calls + made, if ok then failed else failed + {i};
    assert all[..|calls|] == calls && all[|calls|..] == made && now - {i} == failed;
  }

  /** No entry failed exactly if every call worked. */
  lemma {:induction false} ReplayFailures(log: seq<Change>, i: nat, calls: seq<Attempt>, failed: set<int>)
    requires Replayed(log, i, calls, failed)
    ensures failed == {} <==> forall a :: a in calls ==> a.answer == Worked
    decreases |log| - i
  {
    if i < |log| {
      var k :| 0 <= k <= |calls| && Replayed(log, i + 1, calls[..k], failed - {i})
               && UndoCalls(log[i], calls[k..], i !in failed);
      ReplayFailures(log, i + 1, calls[..k], failed - {i});
      hide Replayed;
      assert calls == calls[..k] + calls[k..];
      assert i in failed <==> exists a :: a in calls[k..] && a.answer != Worked by {
        UndoneWhenAllWorked(log[i], calls[k..], i !in failed);
      }
    }
  }

  lemma UndoneWhenAllWorked(entry: Change, calls: seq<Attempt>, ok: bool)
    requires UndoCalls(entry, calls, ok)
    ensures ok <==> forall a :: a in calls ==> a.answer == Worked
  {
    assert calls[|calls| - 1] in calls;
  }

  /** The call is the first one that undoing the entry makes. */
  predicate Attempts(entry: Change, a: Attempt) {
    a.name == entry.name && a.operation == if entry.before.None? then Deletion else TableRead
  }

  lemma UndoAttempts(entry: Change, calls: seq<Attempt>, ok: bool)
    requires UndoCalls(entry, calls, ok)
    ensures calls != [] && Attempts(entry, calls[0])
  {
  }

  /** Every entry is attempted, whichever others failed. */
  lemma {:induction false} EveryEntryIsAttempted(log: seq<Change>, i: nat, calls: seq<Attempt>, failed: set<int>,
                                                 e: nat)
    returns (at: nat)
    requires Replayed(log, i, calls, failed) && i <= e < |log|
    ensures at < |calls| && Attempts(log[e], calls[at])
    decreases |log| - i
  {
    var k :| 0 <= k <= |calls| && Replayed(log, i + 1, calls[..k], failed - {i})
             && UndoCalls(log[i], calls[k..], i !in failed);
    hide Replayed, UndoCalls, Attempts;
    if i < e {
      at := EveryEntryIsAttempted(log, i + 1, calls[..k], failed - {i}, e);
    } else {
      UndoAttempts(log[i], calls[k..], i !in failed);
      at := k;
    }
  }

  /** Attempts every entry once, newest first, carrying on past failures: every entry whose calls
      worked has been undone, whichever others failed. The reported error is the first one met. */
  method Rollback(d: Dataset, log: seq<Change>, ghost base: Catalog, ghost views: seq<AnalyticsView>)
    returns (firstError: Option<int>, ghost failed: set<int>, ghost replay: seq<Attempt>)
    requires Recorded(base, d.objects, log)
    modifies d`objects, d`alwaysClosed, d`calls
    ensures Made(old(d.calls), replay, d.calls) && Replayed(log, 0, replay, failed)
    ensures FirstOf(firstError, failed, 0, |log|)
    ensures Unwound(base, d.objects, log, 0, failed)
    ensures failed == {} <==> forall a :: a in replay ==> a.answer == Worked
    ensures failed == {} ==> d.objects == base
    ensures failed == {} && old(StagedByLog(base, d.objects, views, log) && d.alwaysClosed) ==> d.alwaysClosed
  {
    hide Rolling, Unwound, Replayed, FirstOf, Closed, Failures, UndoCalls, Recorded, Undone, StagedByLog, Made;
    firstError, failed, replay := None, {}, [];
    ghost var earlier, start := d.calls, d.objects;
    ghost var closure := StagedByLog(base, start, views, log) && d.alwaysClosed;
    RollingStart(base, start, views, log);
    MadeSince(earlier, [], [], earlier, earlier);
    for i := |log| downto 0
      invariant Made(earlier, replay, d.calls)
      invariant Rolling(base, start, views, log, i, d.objects, replay, firstError, failed)
      invariant failed == {} && closure ==> d.alwaysClosed
    {
      ghost var before, calls := d.objects, d.calls;
      var ok, made := UndoEntry(d, log[i]);
      MadeSince(earlier, replay, made, calls, d.calls);
      RollingOneMore(base, start, views, log, i, before, d.objects, replay, made, firstError, failed, ok);
      replay := replay + made;
      if !ok {
        firstError := if firstError.None? then Some(i) else firstError;
        failed := failed + {i};
      }
    }
    RolledBack(base, start, views, log, d.objects, replay, firstError, failed);
  }

  /** The replay has come down to entry i. */
  ghost predicate Rolling(base: Catalog, start: Catalog, views: seq<AnalyticsView>, log: seq<Change>, i: nat,
                          now: Catalog,
                          replay: seq<Attempt>, firstError: Option<int>, failed: set<int>)
  {
    && Replayed(log, i, replay, failed) && FirstOf(firstError, failed, i, |log|) && Unwound(base, now, log, i, failed)
    && (failed == {} && StagedByLog(base, start, views, log) ==> StagedTo(base, now, views, i))
  }

  lemma RollingStart(base: Catalog, start: Catalog, views: seq<AnalyticsView>, log: seq<Change>)
    requires Recorded(base, start, log)
    ensures Rolling(base, start, views, log, |log|, start, [], None, {})
  {
    RecordedIsUnwound(base, start, log);
  }

  lemma RollingOneMore(base: Catalog, start: Catalog, views: seq<AnalyticsView>, log: seq<Change>, i: nat,
                       before: Catalog, now: Catalog,
                       replay: seq<Attempt>, made: seq<Attempt>, firstError: Option<int>, failed: set<int>, ok: bool)
    requires i < |log| && Rolling(base, start, views, log, i + 1, before, replay, firstError, failed)
    requires UndoCalls(log[i], made, ok) && (Undone(before, now, log[i]) || (!ok && now == before))
    ensures Rolling(base, start, views, log, i, now, replay + made,
                    if ok || firstError.Some? then firstError else Some(i), if ok then failed else failed + {i})
    ensures ok && failed == {} && StagedByLog(base, start, views, log) ==> Closed(now)
  {
    hide Unwound, Staged, Closed, CreationOrder, Replayed, UndoCalls, Undone, StagedByLog, StagedTo, FirstOf;
    FirstOfOneMore(firstError, failed, i, |log|, ok);
    ReplayedOneMore(log, i, replay, failed, made, ok);
    UnwindOne(base, before, now, log, i, failed, ok);
    if ok && failed == {} && StagedByLog(base, start, views, log) {
      StagedOneBack(base, start, views, log, i, before, now);
    }
  }

  lemma RolledBack(base: Catalog, start: Catalog, views: seq<AnalyticsView>, log: seq<Change>, now: Catalog,
                   replay: seq<Attempt>, firstError: Option<int>, failed: set<int>)
    requires Rolling(base, start, views, log, 0, now, replay, firstError, failed)
    ensures Replayed(log, 0, replay, failed) && FirstOf(firstError, failed, 0, |log|)
    ensures Unwound(base, now, log, 0, failed)
    ensures failed == {} <==> forall a :: a in replay ==> a.answer == Worked
    ensures failed == {} ==> now == base
  {
    hide Unwound, Replayed, FirstOf;
    ReplayFailures(log, 0, replay, failed);
    if failed == {} {
      FullyUnwound(base, now, log);
    }
  }

  /** The given calls are what was made in between. */
  ghost predicate Made(before: seq<Attempt>, made: seq<Attempt>, after: seq<Attempt>) {
    after == before + made
  }

  lemma MadeSince(before: seq<Attempt>, made: seq<Attempt>, more: seq<Attempt>, now: seq<Attempt>, after: seq<Attempt>)
    ensures Made(before, [], before)
    ensures Made(before, made, now) && after == now + more ==> Made(before, made + more, after)
  {
    assert before + [] == before;
    assert before + (made + more) == before + made + more;
  }

  /** The failed entries lie in the replayed part of a log of n entries, and the error names the newest. */
  ghost predicate FirstOf(firstError: Option<int>, failed: set<int>, i: int, n: int) {
    && (forall k :: k in failed ==> i <= k < n)
    && (firstError.None? <==> failed == {})
    && (firstError.Some? ==> firstError.value in failed && forall k :: k in failed ==> k <= firstError.value)
  }

  lemma FirstOfOneMore(firstError: Option<int>, failed: set<int>, i: int, n: int, ok: bool)
    requires FirstOf(firstError, failed, i + 1, n) && i < n
    ensures i !in failed
    ensures if ok then FirstOf(firstError, failed, i, n)
            else FirstOf(if firstError.None? then Some(i) else firstError, failed + {i}, i, n)
  {
  }

  ghost predicate StagedTo(base: Catalog, now: Catalog, views: seq<AnalyticsView>, i: nat) {
    i <= |views| && Staged(base, now, views, i)
  }

  lemma StagedOneBack(base: Catalog, start: Catalog, views: seq<AnalyticsView>, log: seq<Change>, i: nat,
                      before: Catalog, now: Catalog)
    requires StagedByLog(base, start, views, log) && i < |log| && StagedTo(base, before, views, i + 1)
    requires Undone(before, now, log[i]) && Unwound(base, now, log, i, {})
    ensures StagedTo(base, now, views, i) && Closed(now)
  {
    hide Unwound, Staged, Closed, CreationOrder, Undone;
    EntryRestored(base, now, log, views, i);
    OneStepBack(base, views, i, before, now, log[i]);
  }

  method UndoEntry(d: Dataset, entry: Change) returns (ok: bool, ghost made: seq<Attempt>)
    modifies d`objects, d`alwaysClosed, d`calls
    ensures d.calls == old(d.calls) + made && UndoCalls(entry, made, ok)
    ensures Undone(old(d.objects), d.objects, entry) || (!ok && d.objects == old(d.objects))
    ensures ok ==> Undone(old(d.objects), d.objects, entry)
    ensures d.alwaysClosed == (old(d.alwaysClosed) && Closed(d.objects))
            || (!ok && d.alwaysClosed == old(d.alwaysClosed))
  {
    hide Failures, Closed;
    if entry.before.None? {
      ok := d.DeleteTable(entry.name);
      made := [Attempt(Deletion, entry.name, if ok then Worked else Broke)];
      return;
    }
    var current := d.GetTable(entry.name);
    made := [Attempt(TableRead, entry.name,
                     if current.Found? then Worked else if current.NotFound? then Missing else Broke)];
    if !current.Found? {
      return false, made;
    }
    ok := d.UpdateTable(entry.name, entry.before.value);
    made := [Attempt(TableRead, entry.name, Worked), Attempt(Update, entry.name, if ok then Worked else Broke)];
  }

  lemma OldestEntry(log: seq<Change>, n: string) returns (k: nat)
    requires n in Touched(log)
    ensures Oldest(log, k) && log[k].name == n
  {
    k := 0;
    while log[k].name != n
      invariant k < |log| && forall j :: 0 <= j < k ==> log[j].name != n
      decreases |log| - k
    {
      k := k + 1;
    }
  }

  /** Undoing the newest staged view leaves the graph staged one view less far, and so closed. */
  lemma OneStepBack(base: Catalog, views: seq<AnalyticsView>, i: nat, before: Catalog, now: Catalog, entry: Change)
    requires Closed(base) && CreationOrder(base, views) && i < |views| && Staged(base, before, views, i + 1)
    requires entry.name == views[i].name && Undone(before, now, entry)
    requires Lookup(now, entry.name) == Lookup(base, entry.name)
    ensures Staged(base, now, views, i) && Closed(now)
  {
    StagedBack(base, views, i, before, now);
    StagedIsClosed(base, now, views, i);
  }

  lemma StagedBack(base: Catalog, views: seq<AnalyticsView>, i: nat, before: Catalog, now: Catalog)
    requires CreationOrder(base, views) && i < |views| && Staged(base, before, views, i + 1)
    requires Lookup(now, views[i].name) == Lookup(base, views[i].name)
    requires now.Keys - {views[i].name} == before.Keys - {views[i].name}
    requires forall n :: n in now && n in before && n != views[i].name ==> now[n] == before[n]
    ensures Staged(base, now, views, i)
  {
    var name, earlier := views[i].name, ViewNames(views[..i]);
    ViewNamesOfPrefix(views, i);
    NotEarlier(base, views, i);
    hide ViewNames, CreationOrder, StagedView, Closed;
    BackKeys(base, before, now, name, earlier);
    BackFrame(base, before, now, name, earlier);
    BackViews(base, before, now, views, i);
  }

  lemma BackViews(base: Catalog, before: Catalog, now: Catalog, views: seq<AnalyticsView>, i: nat)
    requires i < |views| && forall k :: 0 <= k < i ==>
              StagedView(base, before, views[k]) && views[k].name != views[i].name
    requires now.Keys - {views[i].name} == before.Keys - {views[i].name}
    requires forall n :: n in now && n in before && n != views[i].name ==> now[n] == before[n]
    ensures forall k :: 0 <= k < i ==> StagedView(base, now, views[k])
  {
    forall k | 0 <= k < i ensures StagedView(base, now, views[k]) {
      assert views[k].name in before.Keys - {views[i].name};
      StillStaged(base, before, now, views[k]);
    }
  }

  lemma BackFrame(base: Catalog, before: Catalog, now: Catalog, name: string, earlier: set<string>)
    requires forall n :: n in base && n !in earlier + {name} ==> n in before && before[n] == base[n]
    requires now.Keys == base.Keys + earlier && Lookup(now, name) == Lookup(base, name)
    requires forall n :: n in now && n in before && n != name ==> now[n] == before[n]
    ensures forall n :: n in base && n !in earlier ==> now[n] == base[n]
  {
    forall n | n in base && n !in earlier ensures now[n] == base[n] {
      assert n == name || (n in before && before[n] == base[n]);
    }
  }

  lemma StandsBefore(base: Catalog, before: Catalog, views: seq<AnalyticsView>, m: nat, k: nat)
    requires k < m <= |views| && Staged(base, before, views, m)
    ensures views[k].name in before
  {
  }

  lemma BackKeys(base: Catalog, before: Catalog, now: Catalog, name: string, earlier: set<string>)
    requires before.Keys == base.Keys + (earlier + {name}) && name !in earlier
    requires Lookup(now, name) == Lookup(base, name) && now.Keys - {name} == before.Keys - {name}
    ensures now.Keys == base.Keys + earlier
  {
    forall n ensures n in now.Keys <==> n in base.Keys + earlier {
      assert n in now.Keys - {name} <==> n in before.Keys - {name};
      assert name in now <==> Lookup(base, name).Some?;
    }
  }

  lemma NotEarlier(base: Catalog, views: seq<AnalyticsView>, i: nat)
    requires CreationOrder(base, views) && i < |views|
    ensures views[i].name !in ViewNames(views[..i]) && forall k :: 0 <= k < i ==> views[k].name != views[i].name
  {
    assert forall k :: 0 <= k < i ==> views[..i][k].name != views[i].name;
  }

  /** Creating or rewriting one more view, or failing to without effect, stages the graph one view further. */
  lemma StagedForward(base: Catalog, views: seq<AnalyticsView>, i: nat, before: Catalog, now: Catalog)
    requires CreationOrder(base, views) && i < |views| && Staged(base, before, views, i)
    requires views[i].name in now && now == before[views[i].name := now[views[i].name]]
    requires now[views[i].name].fields.query == Some(views[i].sql) || (views[i].name in before && now == before)
    ensures Staged(base, now, views, i + 1)
  {
    var name := views[i].name;
    ViewNamesOfPrefix(views, i);
    NotEarlier(base, views, i);
    hide ViewNames, CreationOrder;
    assert StagedView(base, now, views[i]) by {
      assert name in before && now == before ==> name in base && base[name] == now[name];
    }
    hide StagedView;
    forall k | 0 <= k < i ensures StagedView(base, now, views[k]) {
      StandsBefore(base, before, views, i, k);
      StillStaged(base, before, now, views[k]);
    }
  }

  // ---------------------------------------------------------------------------------------------
  // Promotion

  datatype Promotion =
    | Promoted
    | PromotionFailed(view: string)
    | RollbackFailed(view: string, firstError: int)

  /** What stood under the name of v before it was rewritten. */
  function ChangeFor(c: Catalog, v: AnalyticsView): Change {
    Change(v.name, if v.name in c then Some(c[v.name].fields) else None)
  }

  predicate Promotable(o: Object) {
    o.kind == None || o.kind == Some(VIEW)
  }

  /** Creates or rewrites one view, logging the change before anything is overwritten. */
  method PromoteOne(d: Dataset, v: AnalyticsView, log: seq<Change>) returns (ok: bool, longer: seq<Change>)
    modifies d`objects, d`alwaysClosed, d`calls
    ensures ok ==> d.objects == PutView(old(d.objects), v) && longer == log + [ChangeFor(old(d.objects), v)]
    ensures ok ==> v.name in old(d.objects) ==> Promotable(old(d.objects)[v.name])
    ensures !ok ==>
              || (longer == log && d.objects == old(d.objects))
              || (longer == log + [ChangeFor(old(d.objects), v)]
                  && (d.objects == PutView(old(d.objects), v)
                      || (v.name in old(d.objects) && d.objects == old(d.objects))))
    ensures old(d.alwaysClosed && Closed(d.objects)) && Closed(d.objects) ==> d.alwaysClosed
    ensures old(d.calls) <= d.calls
    ensures ok ==> Failures(d.calls) == Failures(old(d.calls))
    ensures !ok ==>
              || Failures(d.calls) > Failures(old(d.calls))
              || (v.name in old(d.objects) && !Promotable(old(d.objects)[v.name]))
  {
    hide Closed, Failures;
    longer := log;
    var current := d.GetTable(v.name);
    match current
    case Unavailable =>
      return false, longer;
    case NotFound =>
      ok := d.CreateTable(v.name, Desired(v), "");
      if !ok {
        return;
      }
      longer := log + [Change(v.name, None)];
      current := d.GetTable(v.name);
      if !current.Found? {
        return false, longer;
      }
    case Found(item) =>
      if !Promotable(item) {
        return false, longer;
      }
      longer := log + [Change(v.name, Some(item.fields))];
    ok := d.UpdateTable(v.name, Desired(v));
  }

  /** Undoes a promotion that failed at the given view. */
  method Abandon(d: Dataset, ghost views: seq<AnalyticsView>, view: string, log: seq<Change>, ghost base: Catalog)
    returns (r: Promotion, ghost failed: set<int>, ghost replay: seq<Attempt>)
    requires Recorded(base, d.objects, log)
    modifies d`objects, d`alwaysClosed, d`calls
    ensures !r.Promoted? && d.calls == old(d.calls) + replay && Replayed(log, 0, replay, failed)
    ensures r.RollbackFailed? <==> exists a :: a in replay && a.answer != Worked
    ensures r.PromotionFailed? ==> d.objects == base
    ensures r.RollbackFailed? ==> r.firstError in failed && Unwound(base, d.objects, log, 0, failed)
    ensures r.PromotionFailed? && old(StagedByLog(base, d.objects, views, log) && d.alwaysClosed) ==> d.alwaysClosed
  {
    hide Recorded, Unwound, Replayed, Failures, StagedByLog;
    var firstError;
    firstError, failed, replay := Rollback(d, log, base, views);
    r := if firstError.None? then PromotionFailed(view) else RollbackFailed(view, firstError.value);
  }

  /** Either every view is promoted, or the catalog is exactly what it was, or some call of the
      rollback failed and every other logged change was still undone. Promotion fails only if a call
      failed or a name stands for something that is not a view. */
  method Promote(d: Dataset, views: seq<AnalyticsView>)
    returns (r: Promotion, ghost log: seq<Change>, ghost failed: set<int>, ghost tried: seq<Attempt>,
             ghost replay: seq<Attempt>)
    modifies d`objects, d`alwaysClosed, d`calls
    ensures d.calls == old(d.calls) + tried + replay
    ensures InOrder(log, views)
    ensures r.Promoted? ==> replay == [] && d.objects == PutViews(old(d.objects), views)
    ensures r.Promoted? ==> Failures(d.calls) == Failures(old(d.calls))
    ensures !r.Promoted? ==> Replayed(log, 0, replay, failed)
    ensures !r.Promoted? ==> Failures(tried) > 0 || exists v ::
              v in views && v.name in old(d.objects) && !Promotable(old(d.objects)[v.name])
    ensures r.PromotionFailed? ==> d.objects == old(d.objects)
    ensures r.RollbackFailed? <==> exists a :: a in replay && a.answer != Worked
    ensures r.RollbackFailed? ==> r.firstError in failed && Unwound(old(d.objects), d.objects, log, 0, failed)
    ensures !r.RollbackFailed? && old(d.alwaysClosed && Closed(d.objects) && CreationOrder(d.objects, views)) ==>
              d.alwaysClosed && Closed(d.objects)
  {
    hide Recorded, Staged, Closed, CreationOrder, Unwound, Replayed, Failures, Promotable, PutView, ChangeFor, InOrder;
    failed, replay := {}, [];
    ghost var base, earlier := d.objects, d.calls;
    ghost var closure := d.alwaysClosed && Closed(base) && CreationOrder(base, views);
    var changes: seq<Change> := [];
    NothingPromoted(base, views);
    for i := 0 to |views|
      invariant d.objects == PutViews(base, views[..i]) && earlier <= d.calls
      invariant Failures(d.calls) == Failures(earlier)
      invariant Recorded(base, d.objects, changes)
      invariant |changes| == i && InOrder(changes, views)
      invariant closure ==> Staged(base, d.objects, views, i) && d.alwaysClosed
    {
      ghost var before, calls := d.objects, d.calls;
      if closure {
        StagedIsClosed(base, before, views, i);
      }
      var ok, longer := PromoteOne(d, views[i], changes);
      AfterOne(base, views, i, before, d.objects, changes, longer, closure);
      changes := longer;
      if !ok {
        log, tried := changes, d.calls[|earlier|..];
        FailedForCause(base, views, i, earlier, calls, d.calls);
        r, failed, replay := Abandon(d, views, views[i].name, changes, base);
        return;
      }
      PutOneMore(base, views, i);
    }
    assert views[..|views|] == views;
    log, tried := changes, d.calls[|earlier|..];
    if closure {
      StagedIsClosed(base, d.objects, views, |views|);
    }
    return Promoted, log, failed, tried, replay;
  }

  lemma PutOneMore(base: Catalog, views: seq<AnalyticsView>, i: nat)
    requires i < |views|
    ensures PutViews(base, views[..i + 1]) == PutView(PutViews(base, views[..i]), views[i])
  {
    assert views[..i + 1][..i] == views[..i];
  }

  /** A refused view refused its name from the start: promotion changes no kinds. */
  lemma FailedForCause(base: Catalog, views: seq<AnalyticsView>, i: nat, earlier: seq<Attempt>, before: seq<Attempt>,
                       now: seq<Attempt>)
    requires i < |views| && earlier <= before <= now
    requires var c := PutViews(base, views[..i]);
             Failures(now) > Failures(before) || (views[i].name in c && !Promotable(c[views[i].name]))
    ensures Failures(now[|earlier|..]) > 0 || exists v :: v in views && v.name in base && !Promotable(base[v.name])
  {
    if Failures(now) > Failures(before) {
      assert now == earlier + now[|earlier|..] && before == earlier + before[|earlier|..];
      FailuresAdd(earlier, now[|earlier|..]);
      FailuresAdd(earlier, before[|earlier|..]);
    } else {
      PutViewsFrame(base, views[..i]);
      assert views[i] in views;
    }
  }

  lemma NothingPromoted(base: Catalog, views: seq<AnalyticsView>)
    ensures Recorded(base, base, []) && Staged(base, base, views, 0) && InOrder([], views)
  {
  }

  lemma AfterOne(base: Catalog, views: seq<AnalyticsView>, i: nat, before: Catalog, now: Catalog,
                 log: seq<Change>, longer: seq<Change>, closure: bool)
    requires i < |views| && |log| == i && InOrder(log, views)
    requires Recorded(base, before, log)
    requires || (longer == log && now == before)
             || (longer == log + [ChangeFor(before, views[i])]
                 && (now == PutView(before, views[i]) || (views[i].name in before && now == before)))
    requires closure ==> Closed(base) && CreationOrder(base, views) && Staged(base, before, views, i)
    ensures Recorded(base, now, longer) && InOrder(longer, views)
    ensures closure ==> Closed(now) && StagedByLog(base, now, views, longer)
  {
    hide Recorded, Staged, Closed, CreationOrder;
    var more := |longer| == i + 1;
    if more {
      RecordedExtended(base, before, log, now, ChangeFor(before, views[i]));
    }
    if closure {
      if more {
        StagedForward(base, views, i, before, now);
      }
      StagedIsClosed(base, now, views, |longer|);
    }
  }
}
