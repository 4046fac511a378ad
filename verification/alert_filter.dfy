/**
 * The filter applied to each fetched page (app/index.js:132-138): an
 * order-preserving `Array.prototype.filter` with a fixed predicate.
 */
module AlertFilter {
  import opened Wrappers
  import opened Alerts

  /** The filter's predicate: CRITICAL or HIGH, RUNTIME scope, neither fixed nor dismissed. */
  predicate Keep(a: Alert): (kept: bool)
    ensures kept <==>
      a.securityAdvisory.severity in {CRITICAL, HIGH} &&
      a.dependencyScope == Some(RUNTIME) &&
      a.fixedAt in {None, Some("")} &&
      a.dismissedAt in {None, Some("")}
  {
    (a.securityAdvisory.severity == CRITICAL || a.securityAdvisory.severity == HIGH) &&
    a.dependencyScope == Some(RUNTIME) &&
    !Truthy(a.fixedAt) &&
    !Truthy(a.dismissedAt)
  }

  /** `nodes.filter(Keep)`. */
  function FilterAlerts(nodes: seq<Alert>): (kept: seq<Alert>)
    ensures |kept| <= |nodes|
    ensures forall i :: 0 <= i < |kept| ==> Keep(kept[i])
  {
    if nodes == [] then []
    else if Keep(nodes[0]) then [nodes[0]] + FilterAlerts(nodes[1..])
    else FilterAlerts(nodes[1..])
  }

  /**
   * An alert survives the filter iff its severity is CRITICAL or HIGH, its
   * scope is RUNTIME, and it carries neither a fix nor a dismissal timestamp.
   */
  lemma {:induction false} SurvivesFilterIff(nodes: seq<Alert>, a: Alert)
    ensures a in FilterAlerts(nodes) <==>
      a in nodes &&
      (a.securityAdvisory.severity == CRITICAL || a.securityAdvisory.severity == HIGH) &&
      a.dependencyScope == Some(RUNTIME) &&
      !Truthy(a.fixedAt) &&
      !Truthy(a.dismissedAt)
  {
    if nodes != [] {
      SurvivesFilterIff(nodes[1..], a);
      assert a in nodes <==> a == nodes[0] || a in nodes[1..];
    }
  }

  /** A strictly increasing sequence of positions of `s`. */
  ghost predicate Positions<T>(idx: seq<nat>, s: seq<T>)
  {
    (forall i :: 0 <= i < |idx| ==> idx[i] < |s|) &&
    (forall i, j :: 0 <= i < j < |idx| ==> idx[i] < idx[j])
  }

  /** Every position moved one place to the right. */
  ghost function Shifted(idx: seq<nat>): (r: seq<nat>)
    ensures |r| == |idx|
    ensures forall i :: 0 <= i < |idx| ==> r[i] == idx[i] + 1
  {
    seq(|idx|, i requires 0 <= i < |idx| => idx[i] + 1)
  }

  lemma ShiftedPositions<T>(idx: seq<nat>, s: seq<T>)
    requires s != [] && Positions(idx, s[1..])
    ensures Positions(Shifted(idx), s)
    ensures 0 !in Shifted(idx)
    ensures forall j :: 1 <= j < |s| ==> (j in Shifted(idx) <==> j - 1 in idx)
  {
    var r := Shifted(idx);
    forall j | 1 <= j < |s|
      ensures j in r <==> j - 1 in idx
    {
      if j - 1 in idx {
        var i :| 0 <= i < |idx| && idx[i] == j - 1;
        assert r[i] == j;
      }
    }
  }

  lemma PrependFirstPosition<T>(idx: seq<nat>, s: seq<T>)
    requires s != [] && Positions(idx, s) && 0 !in idx
    ensures Positions([0] + idx, s)
  {
    var r := [0] + idx;
    forall i, j | 0 <= i < j < |r|
      ensures r[i] < r[j]
    {
      assert r[j] == idx[j - 1];
      if i > 0 { assert r[i] == idx[i - 1]; }
    }
  }

  /** `idx` lists, in increasing order, exactly the positions of `nodes` whose alert the filter keeps. */
  ghost predicate SelectsKept(idx: seq<nat>, nodes: seq<Alert>)
  {
    |idx| == |FilterAlerts(nodes)| &&
    Positions(idx, nodes) &&
    (forall i :: 0 <= i < |idx| ==> FilterAlerts(nodes)[i] == nodes[idx[i]]) &&
    (forall j :: 0 <= j < |nodes| ==> (j in idx <==> Keep(nodes[j])))
  }

  /** A selection for the tail of a page, moved one place right: it selects the kept alerts after the first. */
  ghost predicate SelectsKeptAfterFirst(idx: seq<nat>, nodes: seq<Alert>)
    requires nodes != []
  {
    |idx| == |FilterAlerts(nodes[1..])| &&
    Positions(idx, nodes) && 0 !in idx &&
    (forall i :: 0 <= i < |idx| ==> FilterAlerts(nodes[1..])[i] == nodes[idx[i]]) &&
    (forall j :: 1 <= j < |nodes| ==> (j in idx <==> Keep(nodes[j])))
  }

  lemma ShiftSelection(nodes: seq<Alert>, tail: seq<nat>)
    requires nodes != [] && SelectsKept(tail, nodes[1..])
    ensures SelectsKeptAfterFirst(Shifted(tail), nodes)
  {
    var rest := nodes[1..];
    ShiftedPositions(tail, nodes);
    var shifted := Shifted(tail);
    assert forall i :: 0 <= i < |shifted| ==> FilterAlerts(rest)[i] == nodes[shifted[i]];
    forall j | 1 <= j < |nodes|
      ensures j in shifted <==> Keep(nodes[j])
    {
      assert nodes[j] == rest[j - 1];
    }
  }

  lemma SelectFirstToo(nodes: seq<Alert>, shifted: seq<nat>)
    requires nodes != [] && Keep(nodes[0]) && SelectsKeptAfterFirst(shifted, nodes)
    ensures SelectsKept([0] + shifted, nodes)
  {
    PrependFirstPosition(shifted, nodes);
    var idx, kept := [0] + shifted, FilterAlerts(nodes);
    assert kept == [nodes[0]] + FilterAlerts(nodes[1..]);
    forall i | 0 <= i < |idx|
      ensures kept[i] == nodes[idx[i]]
    {
      if i > 0 { assert idx[i] == shifted[i - 1]; }
    }
  }

  lemma SkipFirst(nodes: seq<Alert>, shifted: seq<nat>)
    requires nodes != [] && !Keep(nodes[0]) && SelectsKeptAfterFirst(shifted, nodes)
    ensures SelectsKept(shifted, nodes)
  {
    assert FilterAlerts(nodes) == FilterAlerts(nodes[1..]);
  }

  /** Extends a selection of the tail of a page to the whole page. */
  lemma SelectsKeptCons(nodes: seq<Alert>, tail: seq<nat>) returns (idx: seq<nat>)
    requires nodes != [] && SelectsKept(tail, nodes[1..])
    ensures SelectsKept(idx, nodes)
  {
    ShiftSelection(nodes, tail);
    var shifted := Shifted(tail);
    if Keep(nodes[0]) {
      idx := [0] + shifted;
      SelectFirstToo(nodes, shifted);
    } else {
      idx := shifted;
      SkipFirst(nodes, shifted);
    }
  }

  /**
   * The filtered page is exactly the kept positions of the input, in their
   * original order: a subsequence that leaves out precisely the rejected alerts.
   */
  lemma {:induction false} FilterSelectsKeptPositions(nodes: seq<Alert>) returns (idx: seq<nat>)
    ensures |idx| == |FilterAlerts(nodes)|
    ensures Positions(idx, nodes)
    ensures forall i :: 0 <= i < |idx| ==> FilterAlerts(nodes)[i] == nodes[idx[i]]
    ensures forall j :: 0 <= j < |nodes| ==> (j in idx <==> Keep(nodes[j]))
  {
    if nodes == [] {
      idx := [];
    } else {
      var tail := FilterSelectsKeptPositions(nodes[1..]);
      idx := SelectsKeptCons(nodes, tail);
    }
  }

  /** Filtering distributes over concatenation of pages. */
  lemma {:induction false} FilterAppend(a: seq<Alert>, b: seq<Alert>)
    ensures FilterAlerts(a + b) == FilterAlerts(a) + FilterAlerts(b)
  {
    if a == [] {
      assert a + b == b;
    } else {
      assert (a + b)[1..] == a[1..] + b;
      FilterAppend(a[1..], b);
    }
  }

  /** Filtering an already-filtered page changes nothing. */
  lemma {:induction false} FilterIdempotent(nodes: seq<Alert>)
    ensures FilterAlerts(FilterAlerts(nodes)) == FilterAlerts(nodes)
  {
    if nodes != [] {
      FilterIdempotent(nodes[1..]);
      if Keep(nodes[0]) {
        var k := FilterAlerts(nodes);
        assert k == [nodes[0]] + FilterAlerts(nodes[1..]);
        assert k[0] == nodes[0] && k[1..] == FilterAlerts(nodes[1..]);
      }
    }
  }

  /** A page whose every alert passes is left unchanged. */
  lemma {:induction false} FilterKeepsAllKept(nodes: seq<Alert>)
    requires forall i :: 0 <= i < |nodes| ==> Keep(nodes[i])
    ensures FilterAlerts(nodes) == nodes
  {
    if nodes != [] {
      FilterKeepsAllKept(nodes[1..]);
    }
  }
}
