/** Finite directed graphs: reachability, cycles and nodes with nothing below them. */
module Graphs {
  /** `(a, b)` is an edge from `a` to `b`: `a` depends on `b`. */
  type Edges = set<(nat, nat)>

  ghost predicate ReachesIn(edges: Edges, a: nat, b: nat, n: nat)
    decreases n
  {
    if n == 0 then a == b
    else exists c: nat :: (a, c) in edges && ReachesIn(edges, c, b, n - 1)
  }

  /** A possibly empty walk leads from `a` to `b`. */
  ghost predicate Reaches(edges: Edges, a: nat, b: nat) {
    exists n: nat :: ReachesIn(edges, a, b, n)
  }

  /** No edge has a walk back to where it starts. */
  ghost predicate Acyclic(edges: Edges) {
    forall a: nat, b: nat :: (a, b) in edges ==> !Reaches(edges, b, a)
  }

  lemma {:induction false} WalksJoin(edges: Edges, a: nat, b: nat, c: nat, n: nat, m: nat)
    requires ReachesIn(edges, a, b, n) && ReachesIn(edges, b, c, m)
    ensures ReachesIn(edges, a, c, n + m)
    decreases n
  {
    if n > 0 {
      var x: nat :| (a, x) in edges && ReachesIn(edges, x, b, n - 1);
      WalksJoin(edges, x, b, c, n - 1, m);
    }
  }

  lemma ReachesSelf(edges: Edges, a: nat)
    ensures Reaches(edges, a, a)
  {
    assert ReachesIn(edges, a, a, 0);
  }

  lemma ReachesJoin(edges: Edges, a: nat, b: nat, c: nat)
    requires Reaches(edges, a, b) && Reaches(edges, b, c)
    ensures Reaches(edges, a, c)
  {
    var n: nat :| ReachesIn(edges, a, b, n);
    var m: nat :| ReachesIn(edges, b, c, m);
    WalksJoin(edges, a, b, c, n, m);
  }

  lemma ReachesEdge(edges: Edges, a: nat, b: nat)
    requires (a, b) in edges
    ensures Reaches(edges, a, b)
  {
    assert ReachesIn(edges, b, b, 0);
    assert ReachesIn(edges, a, b, 1);
  }

  /** The first step of a walk that goes somewhere. */
  lemma FirstStep(edges: Edges, a: nat, b: nat) returns (c: nat)
    requires Reaches(edges, a, b) && a != b
    ensures (a, c) in edges && Reaches(edges, c, b)
  {
    var n: nat :| ReachesIn(edges, a, b, n);
    c :| (a, c) in edges && ReachesIn(edges, c, b, n - 1);
  }

  lemma {:induction false} WalkGrows(edges: Edges, edges': Edges, a: nat, b: nat, n: nat)
    requires edges <= edges' && ReachesIn(edges, a, b, n)
    ensures ReachesIn(edges', a, b, n)
    decreases n
  {
    if n > 0 {
      var x: nat :| (a, x) in edges && ReachesIn(edges, x, b, n - 1);
      WalkGrows(edges, edges', x, b, n - 1);
      assert (a, x) in edges';
    }
  }

  lemma ReachesGrows(edges: Edges, edges': Edges, a: nat, b: nat)
    requires edges <= edges' && Reaches(edges, a, b)
    ensures Reaches(edges', a, b)
  {
    var n: nat :| ReachesIn(edges, a, b, n);
    WalkGrows(edges, edges', a, b, n);
  }

  /** Losing edges cannot make a cycle. */
  lemma FewerEdgesStayAcyclic(edges: Edges, edges': Edges)
    requires edges' <= edges && Acyclic(edges)
    ensures Acyclic(edges')
  {
    forall a: nat, b: nat | (a, b) in edges'
      ensures !Reaches(edges', b, a)
    {
      if Reaches(edges', b, a) {
        ReachesGrows(edges', edges, b, a);
      }
    }
  }

  /** A walk over one new edge either does without it or splits at it. */
  lemma {:induction false} WalkSplits(edges: Edges, f: nat, d: nat, a: nat, b: nat, n: nat)
    requires ReachesIn(edges + {(f, d)}, a, b, n)
    ensures Reaches(edges, a, b) || (Reaches(edges, a, f) && Reaches(edges, d, b))
    decreases n
  {
    if n == 0 {
      ReachesSelf(edges, a);
    } else {
      var c: nat :| (a, c) in edges + {(f, d)} && ReachesIn(edges + {(f, d)}, c, b, n - 1);
      WalkSplits(edges, f, d, c, b, n - 1);
      if (a, c) in edges {
        ReachesEdge(edges, a, c);
        if Reaches(edges, c, b) {
          ReachesJoin(edges, a, c, b);
        } else {
          ReachesJoin(edges, a, c, f);
        }
      } else {
        ReachesSelf(edges, f);
      }
    }
  }

  /** A new edge closes a cycle exactly when its head already reaches its tail. */
  lemma AddingExactly(edges: Edges, f: nat, d: nat)
    requires Acyclic(edges)
    ensures Acyclic(edges + {(f, d)}) <==> !Reaches(edges, d, f)
  {
    var edges' := edges + {(f, d)};
    if Reaches(edges, d, f) {
      ReachesGrows(edges, edges', d, f);
      assert (f, d) in edges';
    } else {
      forall a: nat, b: nat | (a, b) in edges'
        ensures !Reaches(edges', b, a)
      {
        if Reaches(edges', b, a) {
          var n: nat :| ReachesIn(edges', b, a, n);
          WalkSplits(edges, f, d, b, a, n);
          if (a, b) in edges {
            ReachesEdge(edges, a, b);
            ReachesJoin(edges, d, a, b);
            ReachesJoin(edges, d, b, f);
          }
        }
      }
    }
  }

  /** A set closed under edges holds everything its members reach. */
  lemma {:induction false} ClosedHoldsWalk(edges: Edges, closed: set<nat>, a: nat, b: nat, n: nat)
    requires forall v: nat, d: nat :: v in closed && (v, d) in edges ==> d in closed
    requires a in closed && ReachesIn(edges, a, b, n)
    ensures b in closed
    decreases n
  {
    if n > 0 {
      var c: nat :| (a, c) in edges && ReachesIn(edges, c, b, n - 1);
      ClosedHoldsWalk(edges, closed, c, b, n - 1);
    }
  }

  /** Where a walk inside `nodes` can still lead. */
  ghost function Below(edges: Edges, nodes: set<nat>, a: nat): set<nat> {
    set u | u in nodes && Reaches(edges, a, u)
  }

  /** In an acyclic graph every nonempty set of nodes has one with no edge into the set. */
  lemma {:induction false} MinimalFrom(edges: Edges, nodes: set<nat>, a: nat) returns (m: nat)
    requires Acyclic(edges) && a in nodes
    ensures m in nodes && forall u :: u in nodes ==> (m, u) !in edges
    decreases Below(edges, nodes, a)
  {
    if u :| u in nodes && (a, u) in edges {
      ReachesEdge(edges, a, u);
      ReachesSelf(edges, a);
      forall v | v in Below(edges, nodes, u)
        ensures v in Below(edges, nodes, a)
      {
        ReachesJoin(edges, a, u, v);
      }
      assert a in Below(edges, nodes, a) && a !in Below(edges, nodes, u);
      m := MinimalFrom(edges, nodes, u);
    } else {
      m := a;
    }
  }

  /** `t` has an edge into `nodes`. */
  ghost predicate StepsInto(edges: Edges, nodes: set<nat>, t: nat) {
    exists u :: u in nodes && (t, u) in edges
  }

  /** Conversely, a cycle gives a nonempty set in which every node has an edge into the set:
      the nodes of `nodes` that reach it. */
  lemma CycleIsTrap(edges: Edges, nodes: set<nat>) returns (trap: set<nat>)
    requires !Acyclic(edges) && forall e :: e in edges ==> e.0 in nodes && e.1 in nodes
    ensures trap != {} && trap <= nodes
    ensures forall t {:trigger StepsInto(edges, trap, t)} :: t in trap ==> StepsInto(edges, trap, t)
  {
    var a: nat, b: nat :| (a, b) in edges && Reaches(edges, b, a);
    trap := set t | t in nodes && Reaches(edges, t, a);
    ReachesSelf(edges, a);
    assert a in trap && b in trap by {
      assert (a, b).0 in nodes && (a, b).1 in nodes;
    }
    forall t | t in trap
      ensures StepsInto(edges, trap, t)
    {
      if t == a {
        assert (t, b) in edges;
      } else {
        var u := FirstStep(edges, t, a);
        assert (t, u).1 in nodes;
        assert u in trap && (t, u) in edges;
      }
    }
  }

  /** A graph is acyclic exactly when every nonempty set of its nodes has one with no edge
      into the set. */
  lemma AcyclicExactly(edges: Edges, nodes: set<nat>)
    requires forall e :: e in edges ==> e.0 in nodes && e.1 in nodes
    ensures Acyclic(edges) <==>
            forall s: set<nat> :: s != {} && s <= nodes ==> exists m :: m in s && !StepsInto(edges, s, m)
  {
    if Acyclic(edges) {
      forall s: set<nat> | s != {} && s <= nodes
        ensures exists m :: m in s && !StepsInto(edges, s, m)
      {
        var a :| a in s;
        var m := MinimalFrom(edges, s, a);
        assert !StepsInto(edges, s, m);
      }
    } else {
      var trap := CycleIsTrap(edges, nodes);
    }
  }
}
