/** Reachability in the workspace fork graph, and the worklist search that guards a new edge.
    An edge runs from a workspace to the workspace it forked a schema from. */
module ForkGraph {
  type Workspace = nat
  type Edge = (Workspace, Workspace)

  ghost predicate IsPath(edges: set<Edge>, p: seq<Workspace>)
  {
    |p| > 0 && forall i :: 0 <= i < |p| - 1 ==> (p[i], p[i + 1]) in edges
  }

  ghost predicate PathBetween(edges: set<Edge>, p: seq<Workspace>, a: Workspace, b: Workspace)
  {
    IsPath(edges, p) && p[0] == a && p[|p| - 1] == b
  }

  /** `b` can be reached from `a` by zero or more edges. */
  ghost predicate Reaches(edges: set<Edge>, a: Workspace, b: Workspace)
  {
    exists p :: PathBetween(edges, p, a, b)
  }

  ghost predicate Acyclic(edges: set<Edge>)
  {
    forall a, b :: (a, b) in edges ==> !Reaches(edges, b, a)
  }

  lemma {:induction false} ReachesSelf(edges: set<Edge>, a: Workspace)
    ensures Reaches(edges, a, a)
  {
    assert PathBetween(edges, [a], a, a);
  }

  lemma {:induction false} ReachesByEdge(edges: set<Edge>, a: Workspace, b: Workspace, c: Workspace)
    requires (a, b) in edges && Reaches(edges, b, c)
    ensures Reaches(edges, a, c)
  {
    var p :| PathBetween(edges, p, b, c);
    var q := [a] + p;
    forall i | 0 <= i < |q| - 1 ensures (q[i], q[i + 1]) in edges {
      if i > 0 { assert q[i] == p[i - 1] && q[i + 1] == p[i]; }
    }
    assert PathBetween(edges, q, a, c);
  }

  lemma {:induction false} PathsCompose(edges: set<Edge>, p: seq<Workspace>, a: Workspace, b: Workspace, c: Workspace)
    requires PathBetween(edges, p, a, b) && Reaches(edges, b, c)
    ensures Reaches(edges, a, c)
    decreases |p|
  {
    if |p| > 1 {
      assert PathBetween(edges, p[1..], p[1], b);
      PathsCompose(edges, p[1..], p[1], b, c);
      assert (p[0], p[1]) in edges;
      ReachesByEdge(edges, a, p[1], c);
    }
  }

  lemma {:induction false} ReachesTransitive(edges: set<Edge>, a: Workspace, b: Workspace, c: Workspace)
    requires Reaches(edges, a, b) && Reaches(edges, b, c)
    ensures Reaches(edges, a, c)
  {
    var p :| PathBetween(edges, p, a, b);
    PathsCompose(edges, p, a, b, c);
  }

  lemma {:induction false} ReachesMonotone(fewer: set<Edge>, more: set<Edge>, a: Workspace, b: Workspace)
    requires fewer <= more && Reaches(fewer, a, b)
    ensures Reaches(more, a, b)
  {
    var p :| PathBetween(fewer, p, a, b);
    assert PathBetween(more, p, a, b);
  }

  lemma {:induction false} RemovingEdgesKeepsAcyclic(fewer: set<Edge>, more: set<Edge>)
    requires fewer <= more && Acyclic(more)
    ensures Acyclic(fewer)
  {
    forall a, b | (a, b) in fewer ensures !Reaches(fewer, b, a) {
      if Reaches(fewer, b, a) { ReachesMonotone(fewer, more, b, a); }
    }
  }

  /** A path over the old edges and one new edge stays in the old edges, or uses the new edge from and to reachable ends. */
  lemma {:induction false} PathWithOneMoreEdge(edges: set<Edge>, t: Workspace, s: Workspace,
                                               p: seq<Workspace>, a: Workspace, b: Workspace)
    requires PathBetween(edges + {(t, s)}, p, a, b)
    ensures Reaches(edges, a, b) || (Reaches(edges, a, t) && Reaches(edges, s, b))
    decreases |p|
  {
    ReachesSelf(edges, a);
    if |p| > 1 {
      assert PathBetween(edges + {(t, s)}, p[1..], p[1], b);
      PathWithOneMoreEdge(edges, t, s, p[1..], p[1], b);
      assert (p[0], p[1]) in edges + {(t, s)};
      if (a, p[1]) in edges {
        if Reaches(edges, p[1], b) { ReachesByEdge(edges, a, p[1], b); }
        else { ReachesByEdge(edges, a, p[1], t); }
      }
    }
  }

  /** The graph stays acyclic under a new edge exactly when the edge's source could not reach its target. */
  lemma {:induction false} AddingEdgeKeepsAcyclic(edges: set<Edge>, t: Workspace, s: Workspace)
    requires Acyclic(edges)
    ensures Acyclic(edges + {(t, s)}) <==> !Reaches(edges, s, t)
  {
    var more := edges + {(t, s)};
    if Reaches(edges, s, t) {
      ReachesMonotone(edges, more, s, t);
      assert (t, s) in more;
    } else {
      forall a, b | (a, b) in more ensures !Reaches(more, b, a) {
        if Reaches(more, b, a) {
          var p :| PathBetween(more, p, b, a);
          PathWithOneMoreEdge(edges, t, s, p, b, a);
          if (a, b) in edges {
            assert !Reaches(edges, b, a);
            ReachesByEdge(edges, a, b, t);
            ReachesTransitive(edges, s, a, t);
          }
          assert false;
        }
      }
    }
  }

  // ---------------------------------------------------------------- the worklist

  /** Every edge out of a visited workspace leads to one that is visited or still pending. */
  ghost predicate Explored(edges: set<Edge>, visited: set<Workspace>, pending: seq<Workspace>)
  {
    forall a, b :: a in visited && (a, b) in edges ==> b in visited || b in pending
  }

  lemma {:induction false} ExploredIsClosed(edges: set<Edge>, visited: set<Workspace>,
                                            p: seq<Workspace>, a: Workspace, b: Workspace)
    requires Explored(edges, visited, []) && a in visited && PathBetween(edges, p, a, b)
    ensures b in visited
    decreases |p|
  {
    if |p| > 1 {
      assert (p[0], p[1]) in edges;
      assert PathBetween(edges, p[1..], p[1], b);
      ExploredIsClosed(edges, visited, p[1..], p[1], b);
    }
  }

  lemma {:induction false} ExhaustedSearchMeansUnreachable(edges: set<Edge>, visited: set<Workspace>, s: Workspace,
                                                           t: Workspace)
    requires Explored(edges, visited, []) && s in visited && t !in visited
    ensures !Reaches(edges, s, t)
  {
    if Reaches(edges, s, t) {
      var p :| PathBetween(edges, p, s, t);
      ExploredIsClosed(edges, visited, p, s, t);
    }
  }

  function Endpoints(edges: set<Edge>): set<Workspace>
  {
    (set e | e in edges :: e.0) + (set e | e in edges :: e.1)
  }

  /** `rows` lists the sources of every edge out of `w`, as the table query returns them: in any order, repeats allowed. */
  predicate ListsEdges(edges: set<Edge>, w: Workspace, rows: seq<Workspace>)
  {
    && (forall b :: b in rows ==> (w, b) in edges)
    && (forall e :: e in edges && e.0 == w ==> e.1 in rows)
  }
}
