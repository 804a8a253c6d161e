/**
 The check that refuses tenant, dataset and ownership selection anywhere in a caller's JSON: an
 iterative worklist, proved against what it is meant to decide node by node.

 Full case folding is a parameter; nothing depends on what it does.
 */
module CallerPayload {
  import opened Wrappers

  datatype Key = Text(text: string) | NonText

  datatype Entry = Entry(key: Key, value: Json)

  /** Strings and byte strings are scalars, although they are sequences in the source language. */
  datatype Json = Object(entries: seq<Entry>) | Array(items: seq<Json>) | Scalar

  const FORBIDDEN :=
    {"dataset_id", "owner_email", "owner_user_id", "owned_by", "ownership", "ownership_claim", "user_id"}
  const MAX_DEPTH: nat := 64

  predicate Forbidden(key: Key, fold: string -> string) {
    key.Text? && fold(key.text) in FORBIDDEN
  }

  predicate NamesTenant(j: Json, fold: string -> string) {
    j.Object? && exists i :: 0 <= i < |j.entries| && Forbidden(j.entries[i].key, fold)
  }

  function Children(j: Json): (c: seq<Json>)
    ensures forall i :: 0 <= i < |c| ==> c[i] < j
  {
    match j
    case Object(entries) => seq(|entries|, i requires 0 <= i < |entries| => entries[i].value)
    case Array(items) => items
    case Scalar => []
  }

  // ---------------------------------------------------------------------------------------------
  // What the check decides

  /** The node reached from j by taking these children in turn. */
  function At(j: Json, path: seq<nat>): Option<Json>
    decreases |path|
  {
    if path == [] then Some(j)
    else if path[0] >= |Children(j)| then None
    else At(Children(j)[path[0]], path[1..])
  }

  /** No node names a tenant, and none is nested too deeply. */
  ghost predicate Acceptable(j: Json, fold: string -> string) {
    forall path :: At(j, path).Some? ==> |path| <= MAX_DEPTH && !NamesTenant(At(j, path).value, fold)
  }

  /** The same by recursion, for a node found at this depth. */
  ghost predicate Clean(j: Json, depth: nat, fold: string -> string)
    decreases j
  {
    && depth <= MAX_DEPTH && !NamesTenant(j, fold)
    && forall i :: 0 <= i < |Children(j)| ==> Clean(Children(j)[i], depth + 1, fold)
  }

  lemma {:induction false} CleanAt(j: Json, depth: nat, fold: string -> string, path: seq<nat>)
    requires Clean(j, depth, fold) && At(j, path).Some?
    ensures Clean(At(j, path).value, depth + |path|, fold)
    decreases |path|
  {
    if path != [] {
      CleanAt(Children(j)[path[0]], depth + 1, fold, path[1..]);
    }
  }

  /** Every node below a node found at this depth is acceptable. */
  ghost predicate CleanBelow(j: Json, depth: nat, fold: string -> string) {
    forall path :: At(j, path).Some? ==> depth + |path| <= MAX_DEPTH && !NamesTenant(At(j, path).value, fold)
  }

  lemma CleanBelowChild(j: Json, depth: nat, fold: string -> string, i: nat)
    requires CleanBelow(j, depth, fold) && i < |Children(j)|
    ensures CleanBelow(Children(j)[i], depth + 1, fold)
  {
    hide NamesTenant, Children;
    forall path | At(Children(j)[i], path).Some?
      ensures depth + 1 + |path| <= MAX_DEPTH && !NamesTenant(At(Children(j)[i], path).value, fold)
    {
      var longer: seq<nat> := [i] + path;
      assert longer[1..] == path;
      assert At(j, longer) == At(Children(j)[i], path);
    }
  }

  lemma {:induction false} EverywhereClean(j: Json, depth: nat, fold: string -> string)
    requires CleanBelow(j, depth, fold)
    ensures Clean(j, depth, fold)
    decreases j
  {
    assert At(j, []) == Some(j);
    hide NamesTenant, At, CleanBelow;
    forall i | 0 <= i < |Children(j)| ensures Clean(Children(j)[i], depth + 1, fold) {
      CleanBelowChild(j, depth, fold, i);
      EverywhereClean(Children(j)[i], depth + 1, fold);
    }
  }

  /** What is refused, value by value: text keys that fold into one of seven names, at any nesting of objects
      and arrays, and anything nested more than 64 deep. */
  lemma CleanByShape(j: Json, depth: nat, fold: string -> string)
    ensures Clean(j, depth, fold) <==>
              && depth <= 64
              && match j
                 case Scalar => true
                 case Array(items) => forall i :: 0 <= i < |items| ==> Clean(items[i], depth + 1, fold)
                 case Object(entries) =>
                   forall i :: 0 <= i < |entries| ==>
                     && (entries[i].key.Text? ==>
                           fold(entries[i].key.text) !in {"user_id", "dataset_id", "owner_user_id", "owner_email",
                                                          "owned_by", "ownership", "ownership_claim"})
                     && Clean(entries[i].value, depth + 1, fold)
  {
    match j
    case Object(entries) =>
      assert forall i :: 0 <= i < |entries| ==> Children(j)[i] == entries[i].value;
      assert forall i :: 0 <= i < |entries| ==> (Forbidden(entries[i].key, fold) <==>
        entries[i].key.Text? && fold(entries[i].key.text) in FORBIDDEN);
    case Array(items) =>
      assert forall i :: 0 <= i < |items| ==> Children(j)[i] == items[i];
    case Scalar =>
  }

  lemma CleanIsAcceptable(j: Json, fold: string -> string)
    ensures Clean(j, 0, fold) <==> Acceptable(j, fold)
  {
    hide NamesTenant, Clean;
    if Clean(j, 0, fold) {
      forall path | At(j, path).Some? ensures |path| <= MAX_DEPTH && !NamesTenant(At(j, path).value, fold) {
        CleanAt(j, 0, fold, path);
      }
    }
    if Acceptable(j, fold) {
      EverywhereClean(j, 0, fold);
    }
  }

  // ---------------------------------------------------------------------------------------------
  // The worklist

  function Sum(s: seq<nat>): nat {
    if s == [] then 0 else s[0] + Sum(s[1..])
  }

  lemma {:induction false} SumConcat(s: seq<nat>, t: seq<nat>)
    ensures Sum(s + t) == Sum(s) + Sum(t)
  {
    if s == [] {
      assert s + t == t;
    } else {
      assert (s + t)[1..] == s[1..] + t;
      SumConcat(s[1..], t);
    }
  }

  /** The number of nodes. */
  function Nodes(j: Json): nat
    decreases j
  {
    1 + Sum(seq(|Children(j)|, i requires 0 <= i < |Children(j)| => Nodes(Children(j)[i])))
  }

  type Work = (Json, nat)

  function Weights(pending: seq<Work>): seq<nat> {
    seq(|pending|, i requires 0 <= i < |pending| => Nodes(pending[i].0))
  }

  function Queued(children: seq<Json>, depth: nat): (w: seq<Work>) {
    seq(|children|, i requires 0 <= i < |children| => (children[i], depth))
  }

  ghost predicate AllClean(pending: seq<Work>, fold: string -> string) {
    forall i :: 0 <= i < |pending| ==> Clean(pending[i].0, pending[i].1, fold)
  }

  /** The work left once node k has been replaced by its children. */
  function Replaced(pending: seq<Work>, k: nat): seq<Work>
    requires k < |pending|
  {
    pending[..k] + pending[k + 1..] + Queued(Children(pending[k].0), pending[k].1 + 1)
  }

  /** Replacing any node by its children removes exactly that node from the work left. */
  lemma Expanded(pending: seq<Work>, k: nat)
    requires k < |pending|
    ensures Sum(Weights(pending)) == 1 + Sum(Weights(Replaced(pending, k)))
  {
    var j, left, right := pending[k].0, pending[..k], pending[k + 1..];
    var children := Queued(Children(j), pending[k].1 + 1);
    assert Weights(pending) == Weights(left) + ([Nodes(j)] + Weights(right));
    assert Weights(Replaced(pending, k)) == Weights(left) + Weights(right) + Weights(children);
    assert Weights(children) == seq(|Children(j)|, i requires 0 <= i < |Children(j)| => Nodes(Children(j)[i]));
    SumConcat(Weights(left), [Nodes(j)] + Weights(right));
    SumConcat([Nodes(j)], Weights(right));
    SumConcat(Weights(left) + Weights(right), Weights(children));
    SumConcat(Weights(left), Weights(right));
  }

  /** Replacing any node by its children keeps the verdict, if the node itself may stand. */
  lemma ExpandedClean(pending: seq<Work>, k: nat, fold: string -> string)
    requires k < |pending|
    ensures AllClean(pending, fold) <==>
              pending[k].1 <= MAX_DEPTH && !NamesTenant(pending[k].0, fold) && AllClean(Replaced(pending, k), fold)
  {
    var left, right := pending[..k], pending[k + 1..];
    var children := Queued(Children(pending[k].0), pending[k].1 + 1);
    OneClean(pending[k].0, pending[k].1, fold);
    assert pending == left + ([pending[k]] + right);
    hide Clean, NamesTenant;
    AllCleanConcat(left, [pending[k]] + right, fold);
    AllCleanConcat([pending[k]], right, fold);
    AllCleanConcat(left + right, children, fold);
    AllCleanConcat(left, right, fold);
  }

  lemma OneClean(j: Json, depth: nat, fold: string -> string)
    ensures AllClean([(j, depth)], fold) <==>
              depth <= MAX_DEPTH && !NamesTenant(j, fold) && AllClean(Queued(Children(j), depth + 1), fold)
  {
    var children := Queued(Children(j), depth + 1);
    assert [(j, depth)][0] == (j, depth);
    assert AllClean([(j, depth)], fold) <==> Clean(j, depth, fold);
    assert forall i :: 0 <= i < |children| ==> children[i] == (Children(j)[i], depth + 1);
  }

  /** What a worklist decides that at its n-th visit takes the node that `order` picks. */
  ghost predicate Decides(pending: seq<Work>, visits: nat, order: nat -> nat, fold: string -> string)
    decreases Sum(Weights(pending))
  {
    if pending == [] then true
    else
      var k := order(visits) % |pending|;
      Expanded(pending, k);
      && pending[k].1 <= MAX_DEPTH && !NamesTenant(pending[k].0, fold)
      && Decides(Replaced(pending, k), visits + 1, order, fold)
  }

  /** Whatever the order in which nodes are visited, the decision is the same. */
  lemma {:induction false} OrderDoesNotMatter(pending: seq<Work>, visits: nat, order: nat -> nat,
                                              fold: string -> string)
    ensures Decides(pending, visits, order, fold) <==> AllClean(pending, fold)
    decreases Sum(Weights(pending))
  {
    hide AllClean, NamesTenant, Replaced, Sum, Weights;
    if pending == [] {
      NothingIsClean(fold);
    } else {
      var k := order(visits) % |pending|;
      Expanded(pending, k);
      ExpandedClean(pending, k, fold);
      OrderDoesNotMatter(Replaced(pending, k), visits + 1, order, fold);
    }
  }

  lemma NothingIsClean(fold: string -> string)
    ensures AllClean([], fold)
  {
  }

  /** In every order, a worklist accepts exactly the acceptable payloads. */
  lemma EveryOrderDecides(payload: Json, order: nat -> nat, fold: string -> string)
    ensures Decides([(payload, 0)], 0, order, fold) <==> Acceptable(payload, fold)
  {
    hide Acceptable, Clean, Decides;
    OrderDoesNotMatter([(payload, 0)], 0, order, fold);
    CleanIsAcceptable(payload, fold);
    assert [(payload, 0 as nat)][0] == (payload, 0);
    assert AllClean([(payload, 0)], fold) <==> Clean(payload, 0, fold);
  }

  lemma AllCleanConcat(s: seq<Work>, t: seq<Work>, fold: string -> string)
    ensures AllClean(s + t, fold) <==> AllClean(s, fold) && AllClean(t, fold)
  {
    if AllClean(s + t, fold) {
      forall i | 0 <= i < |s| ensures Clean(s[i].0, s[i].1, fold) { assert (s + t)[i] == s[i]; }
      forall i | 0 <= i < |t| ensures Clean(t[i].0, t[i].1, fold) { assert (s + t)[|s| + i] == t[i]; }
    }
  }

  /** Accepts exactly the acceptable payloads, after at most one visit to each node. */
  method AssertNoCallerIdentityClaims(payload: Json, fold: string -> string) returns (accepted: bool, visits: nat)
    ensures accepted <==> Acceptable(payload, fold)
    ensures if accepted then visits == Nodes(payload) else visits <= Nodes(payload)
  {
    hide Clean, Nodes, NamesTenant, At, Acceptable;
    CleanIsAcceptable(payload, fold);
    var pending: seq<Work> := [(payload, 0)];
    visits := 0;
    assert Weights(pending) == [Nodes(payload)];
    while pending != []
      invariant AllClean(pending, fold) <==> Clean(payload, 0, fold)
      invariant visits + Sum(Weights(pending)) == Nodes(payload)
      decreases Sum(Weights(pending))
    {
      var (current, depth) := pending[|pending| - 1];
      ghost var last := |pending| - 1;
      assert pending[..last] + pending[last + 1..] == pending[..last];
      Expanded(pending, last);
      ExpandedClean(pending, last, fold);
      pending := pending[..|pending| - 1];
      visits := visits + 1;
      if depth > MAX_DEPTH {
        return false, visits;
      }
      var named;
      pending, named := Expand(pending, current, depth, fold);
      if named {
        return false, visits;
      }
    }
    accepted := true;
  }

  /** Queues a node's children, unless one of its keys names a tenant. */
  method Expand(rest: seq<Work>, current: Json, depth: nat, fold: string -> string)
    returns (pending: seq<Work>, named: bool)
    ensures named <==> NamesTenant(current, fold)
    ensures !named ==> pending == rest + Queued(Children(current), depth + 1)
  {
    pending, named := rest, false;
    match current
    case Object(entries) =>
      for i := 0 to |entries|
        invariant pending == rest + Queued(Children(current)[..i], depth + 1)
        invariant forall k :: 0 <= k < i ==> !Forbidden(entries[k].key, fold)
      {
        if Forbidden(entries[i].key, fold) {
          return pending, true;
        }
        pending := pending + [(entries[i].value, depth + 1)];
      }
    case Array(items) =>
      pending := pending + seq(|items|, i requires 0 <= i < |items| => (items[i], depth + 1));
    case Scalar =>
  }
}
