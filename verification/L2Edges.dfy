/** The report's view of the L2 check universe
    (`_expected_l2_edges` in cli/report_generator.py). */
module L2Edges {
  import opened Order
  import opened Topology

  datatype Edge = Edge(a: Machine, b: Machine)

  predicate IsExpected(rule: BmcRule, a: Machine, b: Machine) {
    (a.inScope || b.inScope) && ShareSegment(a, b) && AdjacencyAllowed(rule, a, b)
  }

  function EdgesWith(rule: BmcRule, a: Machine, ms: seq<Machine>): seq<Edge> {
    if ms == [] then []
    else (if IsExpected(rule, a, ms[0]) then [Edge(a, ms[0])] else []) + EdgesWith(rule, a, ms[1..])
  }

  function Edges(rule: BmcRule, ms: seq<Machine>): seq<Edge> {
    if ms == [] then [] else EdgesWith(rule, ms[0], ms[1..]) + Edges(rule, ms[1..])
  }

  lemma EdgesStep(rule: BmcRule, ms: seq<Machine>, i: nat, done: seq<Edge>)
    requires i < |ms|
    ensures done + Edges(rule, ms[i..]) == (done + EdgesWith(rule, ms[i], ms[i + 1..])) + Edges(rule, ms[i + 1..])
  {
    assert ms[i..][1..] == ms[i + 1..];
  }

  lemma EdgesWithStep(rule: BmcRule, a: Machine, ms: seq<Machine>, j: nat, done: seq<Edge>)
    requires j < |ms|
    ensures done + EdgesWith(rule, a, ms[j..])
            == (if IsExpected(rule, a, ms[j]) then done + [Edge(a, ms[j])] else done) + EdgesWith(rule, a, ms[j + 1..])
  {
    assert ms[j..][1..] == ms[j + 1..];
  }

  method ExpectedL2Edges(t: Topology) returns (edges: seq<Edge>)
    ensures edges == Edges(t.bmcRule, t.machines)
  {
    var ms, rule := t.machines, t.bmcRule;
    edges := [];
    for i := 0 to |ms|
      invariant edges + Edges(rule, ms[i..]) == Edges(rule, ms)
    {
      var a := ms[i];
      EdgesStep(rule, ms, i, edges);
      ghost var goal := edges + EdgesWith(rule, a, ms[i + 1..]);
      for j := i + 1 to |ms|
        invariant edges + EdgesWith(rule, a, ms[j..]) == goal
      {
        var b := ms[j];
        EdgesWithStep(rule, a, ms, j, edges);
        if !(a.inScope || b.inScope) {
          continue;
        }
        if ShareSegment(a, b) && AdjacencyAllowed(rule, a, b) {
          edges := edges + [Edge(a, b)];
        }
      }
      assert ms[|ms|..] == [];
    }
    assert ms[|ms|..] == [];
  }

  // ----- which edges there are ----------------------------------------------

  lemma ShareSegmentSymmetric(a: Machine, b: Machine)
    ensures ShareSegment(a, b) == ShareSegment(b, a)
  {
    if ia, ib :| ia in a.interfaces && ib in b.interfaces && SameSegment(ia, ib) {
      assert SameSegment(ib, ia);
    }
    if ib, ia :| ib in b.interfaces && ia in a.interfaces && SameSegment(ib, ia) {
      assert SameSegment(ia, ib);
    }
  }

  lemma ExpectedSymmetric(rule: BmcRule, a: Machine, b: Machine)
    ensures IsExpected(rule, a, b) == IsExpected(rule, b, a)
  {
    ShareSegmentSymmetric(a, b);
  }

  lemma {:induction false} EdgesWithMembers(rule: BmcRule, a: Machine, ms: seq<Machine>, e: Edge)
    ensures e in EdgesWith(rule, a, ms) <==> e.a == a && e.b in ms && IsExpected(rule, a, e.b)
  {
    if ms != [] {
      EdgesWithMembers(rule, a, ms[1..], e);
      assert ms == [ms[0]] + ms[1..];
    }
  }

  /** An edge is listed exactly when its ends are two machines of the document,
      in document order, at least one of them in scope, that share a segment the
      rules allow them to share. */
  lemma {:induction false} EdgesMembers(rule: BmcRule, ms: seq<Machine>, e: Edge)
    ensures e in Edges(rule, ms) <==>
      && (exists i, j :: 0 <= i < j < |ms| && ms[i] == e.a && ms[j] == e.b)
      && (e.a.inScope || e.b.inScope) && ShareSegment(e.a, e.b) && AdjacencyAllowed(rule, e.a, e.b)
  {
    if ms != [] {
      EdgesWithMembers(rule, ms[0], ms[1..], e);
      EdgesMembers(rule, ms[1..], e);
      if i, j :| 0 <= i < j < |ms| && ms[i] == e.a && ms[j] == e.b {
        if i > 0 { assert ms[1..][i - 1] == e.a && ms[1..][j - 1] == e.b; }
        else { assert ms[1..][j - 1] == e.b; }
      }
      if e in EdgesWith(rule, ms[0], ms[1..]) {
        var j :| 0 <= j < |ms[1..]| && ms[1..][j] == e.b;
        assert ms[0] == e.a && ms[j + 1] == e.b;
      } else if e in Edges(rule, ms[1..]) {
        var i, j :| 0 <= i < j < |ms[1..]| && ms[1..][i] == e.a && ms[1..][j] == e.b;
        assert ms[i + 1] == e.a && ms[j + 1] == e.b;
      }
    }
  }

  /** Between two different machines there is an edge, in one orientation,
      exactly when the rules expect one. */
  lemma EdgeBetween(rule: BmcRule, ms: seq<Machine>, a: Machine, b: Machine)
    requires a in ms && b in ms && a != b
    ensures Edge(a, b) in Edges(rule, ms) || Edge(b, a) in Edges(rule, ms) <==> IsExpected(rule, a, b)
  {
    var i :| 0 <= i < |ms| && ms[i] == a;
    var j :| 0 <= j < |ms| && ms[j] == b;
    ExpectedSymmetric(rule, a, b);
    EdgesMembers(rule, ms, Edge(a, b));
    EdgesMembers(rule, ms, Edge(b, a));
  }

  // ----- dropping machines --------------------------------------------------

  lemma {:induction false} EdgesWithKeep(p: Machine -> bool, rule: BmcRule, a: Machine, ms: seq<Machine>)
    requires forall m :: m in ms && !p(m) ==> !IsExpected(rule, a, m)
    ensures EdgesWith(rule, a, Keep(p, ms)) == EdgesWith(rule, a, ms)
  {
    if ms != [] {
      EdgesWithKeep(p, rule, a, ms[1..]);
      if p(ms[0]) { assert ([ms[0]] + Keep(p, ms[1..]))[1..] == Keep(p, ms[1..]); }
      else { assert Keep(p, ms) == Keep(p, ms[1..]); }
    }
  }

  lemma {:induction false} EdgesWithNone(rule: BmcRule, a: Machine, ms: seq<Machine>)
    requires forall m :: m in ms ==> !IsExpected(rule, a, m)
    ensures EdgesWith(rule, a, ms) == []
  {
    if ms != [] { EdgesWithNone(rule, a, ms[1..]); }
  }

  /** Dropping machines that have no expected neighbour leaves the universe
      unchanged, order included. */
  lemma {:induction false} EdgesKeep(p: Machine -> bool, rule: BmcRule, ms: seq<Machine>)
    requires forall a, b :: a in ms && b in ms && !p(a) ==> !IsExpected(rule, a, b)
    ensures Edges(rule, Keep(p, ms)) == Edges(rule, ms)
  {
    if ms != [] {
      EdgesKeep(p, rule, ms[1..]);
      forall m | m in ms[1..] && !p(m) ensures !IsExpected(rule, ms[0], m) {
        assert !IsExpected(rule, m, ms[0]);
        ExpectedSymmetric(rule, ms[0], m);
      }
      if p(ms[0]) {
        EdgesWithKeep(p, rule, ms[0], ms[1..]);
        assert ([ms[0]] + Keep(p, ms[1..]))[1..] == Keep(p, ms[1..]);
      } else {
        EdgesWithNone(rule, ms[0], ms[1..]);
        assert Keep(p, ms) == Keep(p, ms[1..]);
      }
    }
  }
}
