/**
 The declarative manifest of analytics views: its validation, and rendering with its check that a
 view's SQL refers to exactly the objects the manifest declares.

 A template is an arbitrary function of the prefix. Parsed SQL is a text, the names of its common
 table expressions, and the tables it mentions.
 */
module ViewManifest {
  import opened Wrappers

  /** A table of this dataset, one without qualifiers, or one qualified in any other way. */
  datatype TableRef = Own(name: string) | Bare(name: string) | Foreign(name: string)

  datatype Rendering = Failed | NotAQuery | Parsed(text: string, ctes: set<string>, tables: seq<TableRef>)

  datatype ViewSpec = ViewSpec(name: string, description: string, dependsOn: set<string>, sources: set<string>,
                               template: string -> Rendering)

  /** One rendered query: its text and the objects of the dataset it refers to. */
  datatype Query = Query(text: string, refs: set<string>)

  datatype AnalyticsView = AnalyticsView(name: string, description: string, sql: Query)

  datatype ManifestError =
    | DuplicateNames
    | UnknownDependencies(spec: string, names: set<string>)
    | LateDependencies(spec: string, names: set<string>)
    | RenderingFailed(spec: string)

  function Names(specs: seq<ViewSpec>): set<string> {
    set i | 0 <= i < |specs| :: specs[i].name
  }

  ghost predicate Distinct(specs: seq<ViewSpec>) {
    forall i, j :: 0 <= i < j < |specs| ==> specs[i].name != specs[j].name
  }

  /** Every dependency is declared strictly earlier. */
  ghost predicate DependenciesFirst(specs: seq<ViewSpec>) {
    forall i :: 0 <= i < |specs| ==> specs[i].dependsOn <= Names(specs[..i])
  }

  /** A duplicate-free topological order of the dependency graph. */
  ghost predicate TopologicalOrder(specs: seq<ViewSpec>) {
    Distinct(specs) && DependenciesFirst(specs)
  }

  lemma NamesOfPrefix(specs: seq<ViewSpec>, i: nat)
    requires i < |specs|
    ensures Names(specs[..i + 1]) == Names(specs[..i]) + {specs[i].name}
  {
  }

  lemma DistinctOneMore(specs: seq<ViewSpec>, i: nat)
    requires i < |specs|
    ensures Distinct(specs[..i + 1]) <==> Distinct(specs[..i]) && specs[i].name !in Names(specs[..i])
  {
    var longer, shorter := specs[..i + 1], specs[..i];
    assert longer[i] == specs[i];
    assert forall k :: 0 <= k < i ==> shorter[k] == longer[k] && shorter[k].name in Names(shorter);
  }

  /** The cardinality test the validator uses is a duplicate test. */
  lemma {:induction false} CardinalityMeansDistinct(specs: seq<ViewSpec>)
    ensures |Names(specs)| <= |specs|
    ensures |Names(specs)| == |specs| <==> Distinct(specs)
  {
    if |specs| == 0 {
      assert Names(specs) == {};
    } else {
      hide Names, Distinct;
      var last := |specs| - 1;
      CardinalityMeansDistinct(specs[..last]);
      NamesOfPrefix(specs, last);
      DistinctOneMore(specs, last);
      assert specs[..last + 1] == specs;
    }
  }

  /** Accepts exactly the duplicate-free topological orders, and blames the first offending entry. */
  method ValidateManifest(specs: seq<ViewSpec>) returns (r: Result<(), ManifestError>)
    ensures r.Ok? <==> TopologicalOrder(specs)
    ensures r.Err? && r.error.DuplicateNames? <==> !Distinct(specs)
    ensures r.Err? ==> !r.error.RenderingFailed?
    ensures r.Err? && !r.error.DuplicateNames? ==>
              exists i :: 0 <= i < |specs| && DependenciesFirst(specs[..i]) && r.error ==
                (var unknown := specs[i].dependsOn - Names(specs);
                 if unknown != {} then UnknownDependencies(specs[i].name, unknown)
                 else LateDependencies(specs[i].name, specs[i].dependsOn - Names(specs[..i])))
  {
    var names := Names(specs);
    CardinalityMeansDistinct(specs);
    if |names| != |specs| {
      return Err(DuplicateNames);
    }
    var seen: set<string> := {};
    for i := 0 to |specs|
      invariant seen == Names(specs[..i])
      invariant forall k :: 0 <= k < i ==> specs[k].dependsOn <= Names(specs[..k])
    {
      assert DependenciesFirst(specs[..i]) by {
        assert forall k :: 0 <= k < i ==> specs[..i][k] == specs[k] && specs[..i][..k] == specs[..k];
      }
      var unknown := specs[i].dependsOn - names;
      if unknown != {} {
        assert Names(specs[..i]) <= names;
        return Err(UnknownDependencies(specs[i].name, unknown));
      }
      var late := specs[i].dependsOn - seen;
      if late != {} {
        return Err(LateDependencies(specs[i].name, late));
      }
      assert specs[i].dependsOn <= seen by {
        assert forall d :: d in specs[i].dependsOn && d !in seen ==> d in late;
      }
      NamesOfPrefix(specs, i);
      seen := seen + {specs[i].name};
    }
    return Ok(());
  }

  /** The objects one rendered view refers to: `ref` prefixes its argument, `source` does not. */
  function References(spec: ViewSpec, prefix: string): set<string> {
    (set d | d in spec.dependsOn :: prefix + d) + spec.sources
  }

  function OwnTables(tables: seq<TableRef>): set<string> {
    set i | 0 <= i < |tables| && tables[i].Own? :: tables[i].name
  }

  /** The rendered SQL is one query that refers to the declared objects of this dataset, to all of
      them, and apart from them only to its own common table expressions. */
  ghost predicate Declared(spec: ViewSpec, prefix: string) {
    var sql := spec.template(prefix);
    && sql.Parsed?
    && (forall i :: 0 <= i < |sql.tables| ==>
             sql.tables[i].Own? || (sql.tables[i].Bare? && sql.tables[i].name in sql.ctes))
    && OwnTables(sql.tables) == References(spec, prefix)
  }

  method ValidateRenderedSql(spec: ViewSpec, prefix: string) returns (r: Option<Query>)
    ensures r.Some? <==> Declared(spec, prefix)
    ensures r.Some? ==> r.value == Query(spec.template(prefix).text, References(spec, prefix))
  {
    var sql := spec.template(prefix);
    if !sql.Parsed? {
      return None;
    }
    var actual: set<string> := {};
    for i := 0 to |sql.tables|
      invariant actual == OwnTables(sql.tables[..i])
      invariant forall k :: 0 <= k < i ==> sql.tables[k].Own? || (sql.tables[k].Bare? && sql.tables[k].name in sql.ctes)
    {
      OneMoreTable(sql.tables, i);
      if sql.tables[i].Bare? && sql.tables[i].name in sql.ctes {
        continue;
      }
      if !sql.tables[i].Own? {
        return None;
      }
      actual := actual + {sql.tables[i].name};
    }
    assert sql.tables[..|sql.tables|] == sql.tables;
    r := if actual == References(spec, prefix) then Some(Query(sql.text, actual)) else None;
  }

  lemma OneMoreTable(tables: seq<TableRef>, i: nat)
    requires i < |tables|
    ensures OwnTables(tables[..i + 1]) == OwnTables(tables[..i]) + if tables[i].Own? then {tables[i].name} else {}
  {
    var longer, shorter := tables[..i + 1], tables[..i];
    assert forall k :: 0 <= k < i ==> longer[k] == shorter[k];
    assert longer[i] == tables[i];
  }

  function RenderOne(spec: ViewSpec, prefix: string): AnalyticsView {
    var sql := spec.template(prefix);
    AnalyticsView(spec.name, spec.description, Query(if sql.Parsed? then sql.text else "", References(spec, prefix)))
  }

  function Rendered(specs: seq<ViewSpec>, prefix: string): seq<AnalyticsView> {
    seq(|specs|, i requires 0 <= i < |specs| => RenderOne(specs[i], prefix))
  }

  /** Renders exactly the topological orders all of whose views refer to what they declare. */
  method AnalyticsViews(specs: seq<ViewSpec>, prefix: string) returns (r: Result<seq<AnalyticsView>, ManifestError>)
    ensures r.Ok? <==> TopologicalOrder(specs) && forall i :: 0 <= i < |specs| ==> Declared(specs[i], prefix)
    ensures r.Ok? ==> r.value == Rendered(specs, prefix)
    ensures r.Err? && !r.error.RenderingFailed? <==> !TopologicalOrder(specs)
  {
    hide Declared, TopologicalOrder;
    var valid := ValidateManifest(specs);
    if valid.Err? {
      return Err(valid.error);
    }
    var rendered: seq<AnalyticsView> := [];
    for i := 0 to |specs|
      invariant rendered == Rendered(specs, prefix)[..i]
      invariant forall k :: 0 <= k < i ==> Declared(specs[k], prefix)
    {
      var query := ValidateRenderedSql(specs[i], prefix);
      if query.None? {
        return Err(RenderingFailed(specs[i].name));
      }
      DeclaredParses(specs[i], prefix);
      rendered := rendered + [AnalyticsView(specs[i].name, specs[i].description, query.value)];
    }
    return Ok(rendered);
  }

  lemma DeclaredParses(spec: ViewSpec, prefix: string)
    requires Declared(spec, prefix)
    ensures spec.template(prefix).Parsed?
  {
  }
}
