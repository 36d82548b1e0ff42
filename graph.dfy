/** The workflow graph the pipeline script builds: connections between node
    slots, the `Workflow` object that accumulates them through `connect`, and
    the structural facts about a list of connections (each input fed once,
    edges follow creation order, hence no cycle). */
module Graph {
  import opened Wrappers
  import opened Nodes

  /** The function attached to a connection's source slot, as in
      `('forward_transforms', first_element)`. `FilenameToList` is nipype's
      `filename_to_list`, which is not part of this model. */
  datatype Selector = GetAparcAseg | FilenameToList | FirstElement | SecondElement

  /** One connection: source node and output slot, optional selector,
      destination node and input slot. */
  datatype Edge = Edge(src: NodeId, out: Slot, sel: Option<Selector>, dst: NodeId, inp: Slot)

  /** Both slots of `e` are declared by their nodes. */
  predicate Declared(e: Edge) {
    HasOutput(e.src, e.out) && HasInput(e.dst, e.inp)
  }

  /** Some connection in `edges` already feeds input `inp` of `dst`. */
  predicate Fed(edges: seq<Edge>, dst: NodeId, inp: Slot) {
    exists e | e in edges :: e.dst == dst && e.inp == inp
  }

  /** No two connections feed the same input slot. */
  predicate FedOnce(edges: seq<Edge>) {
    forall i, j | 0 <= i < j < |edges| :: edges[i].dst != edges[j].dst || edges[i].inp != edges[j].inp
  }

  /** What a workflow keeps true of its connections. */
  predicate WellFormed(edges: seq<Edge>) {
    (forall e | e in edges :: Declared(e)) && FedOnce(edges)
  }

  /** `batch` can be added in one `connect` call to a workflow holding
      `edges`: every slot is declared, no input it feeds is already fed, and
      it feeds none twice. */
  predicate Admissible(edges: seq<Edge>, batch: seq<Edge>) {
    && (forall e | e in batch :: Declared(e) && !Fed(edges, e.dst, e.inp))
    && FedOnce(batch)
  }

  /** The connections feeding input `inp` of `dst`, in order. */
  function FeedsOf(edges: seq<Edge>, dst: NodeId, inp: Slot): (r: seq<Edge>)
    ensures forall e :: e in r <==> e in edges && e.dst == dst && e.inp == inp
    ensures r == [] <==> !Fed(edges, dst, inp)
  {
    if edges == [] then []
    else if edges[0].dst == dst && edges[0].inp == inp then [edges[0]] + FeedsOf(edges[1..], dst, inp)
    else FeedsOf(edges[1..], dst, inp)
  }

  /** In a well-formed list, the input fed by a connection is fed by that
      connection alone. */
  lemma {:induction false} FedExactlyOnce(edges: seq<Edge>, e: Edge)
    requires FedOnce(edges) && e in edges
    ensures FeedsOf(edges, e.dst, e.inp) == [e]
  {
    if edges[0] == e {
      var rest := FeedsOf(edges[1..], e.dst, e.inp);
      forall x | x in edges[1..] ensures x.dst != e.dst || x.inp != e.inp {
        var j :| 0 <= j < |edges[1..]| && edges[1..][j] == x;
        assert edges[j + 1] == x;
      }
      assert !Fed(edges[1..], e.dst, e.inp);
    } else {
      assert e in edges[1..];
      assert FedOnce(edges[1..]) by {
        forall i, j | 0 <= i < j < |edges[1..]|
          ensures edges[1..][i].dst != edges[1..][j].dst || edges[1..][i].inp != edges[1..][j].inp
        {
          assert edges[1..][i] == edges[i + 1] && edges[1..][j] == edges[j + 1];
        }
      }
      FedExactlyOnce(edges[1..], e);
      var k :| 0 < k < |edges| && edges[k] == e;
      assert edges[0].dst != e.dst || edges[0].inp != e.inp;
    }
  }

  /** Appending an admissible batch keeps a list well formed. */
  lemma AppendAdmissible(edges: seq<Edge>, batch: seq<Edge>)
    requires WellFormed(edges) && Admissible(edges, batch)
    ensures WellFormed(edges + batch)
  {
    var all := edges + batch;
    forall i, j | 0 <= i < j < |all| ensures all[i].dst != all[j].dst || all[i].inp != all[j].inp {
      if j >= |edges| && i < |edges| {
        assert all[j] == batch[j - |edges|] && all[i] in edges;
      } else if i >= |edges| {
        assert all[i] == batch[i - |edges|] && all[j] == batch[j - |edges|];
      }
    }
  }

  /** Two `connect` calls in a row, first `a` then `b`, are both accepted
      exactly when the single call `connect(a + b)` is, and then leave the
      same list; so a run of calls that all succeed can be issued as one. */
  lemma ConnectInSteps(edges: seq<Edge>, a: seq<Edge>, b: seq<Edge>)
    ensures Admissible(edges, a + b) <==> Admissible(edges, a) && Admissible(edges + a, b)
  {
    var ab := a + b;
    if Admissible(edges, ab) {
      forall i, j | 0 <= i < j < |a| ensures a[i].dst != a[j].dst || a[i].inp != a[j].inp {
        assert ab[i] == a[i] && ab[j] == a[j];
      }
      forall i, j | 0 <= i < j < |b| ensures b[i].dst != b[j].dst || b[i].inp != b[j].inp {
        assert ab[|a| + i] == b[i] && ab[|a| + j] == b[j];
      }
      forall e | e in b ensures Declared(e) && !Fed(edges + a, e.dst, e.inp) {
        assert e in ab;
        var j :| 0 <= j < |b| && b[j] == e;
        forall d | d in edges + a ensures d.dst != e.dst || d.inp != e.inp {
          if d !in edges {
            var i :| 0 <= i < |a| && a[i] == d;
            assert ab[i] == d && ab[|a| + j] == e;
          }
        }
      }
    }
    if Admissible(edges, a) && Admissible(edges + a, b) {
      forall e | e in ab ensures Declared(e) && !Fed(edges, e.dst, e.inp) {
        if e !in a {
          assert e in b;
          assert forall d | d in edges :: d in edges + a;
        }
      }
      forall i, j | 0 <= i < j < |ab| ensures ab[i].dst != ab[j].dst || ab[i].inp != ab[j].inp {
        if i < |a| && |a| <= j {
          assert ab[i] == a[i] && ab[j] == b[j - |a|];
          assert ab[i] in edges + a;
        } else if |a| <= i {
          assert ab[i] == b[i - |a|] && ab[j] == b[j - |a|];
        }
      }
    }
  }

  /** The workflow object: its name and the connections added to it so far. */
  class Workflow {
    const name: string
    var edges: seq<Edge>

    ghost predicate Valid()
      reads this
    {
      WellFormed(edges)
    }

    /** `Workflow(name=...)`: a workflow with no connections. */
    constructor (name: string)
      ensures Valid()
      ensures this.name == name && edges == []
    {
      this.name := name;
      edges := [];
    }

    /** `connect(connection_list)`: adds every connection of `batch`, or, if
        some slot is undeclared or some input would be fed twice, rejects
        the call and leaves the workflow unchanged (nipype raises). */
    method ConnectList(batch: seq<Edge>) returns (ok: bool)
      requires Valid()
      modifies this
      ensures Valid()
      ensures ok <==> Admissible(old(edges), batch)
      ensures edges == if ok then old(edges) + batch else old(edges)
    {
      ok := Admissible(edges, batch);
      if ok {
        AppendAdmissible(edges, batch);
        edges := edges + batch;
      }
    }

    /** `connect(src, out, dst, inp)`, with `(out, sel)` as the source when a
        selector is given. It is the one-element list call
        `ConnectList([Edge(src, out, sel, dst, inp)])`, so what holds of
        `ConnectList` and `ConnectInSteps` holds of it. */
    method Connect(src: NodeId, out: Slot, sel: Option<Selector>, dst: NodeId, inp: Slot) returns (ok: bool)
      requires Valid()
      modifies this
      ensures Valid()
      ensures ok <==> Declared(Edge(src, out, sel, dst, inp)) && !Fed(old(edges), dst, inp)
      ensures edges == if ok then old(edges) + [Edge(src, out, sel, dst, inp)] else old(edges)
    {
      var e := Edge(src, out, sel, dst, inp);
      ok := ConnectList([e]);
    }
  }

  /** Every connection runs from a node created earlier to a node created
      later. */
  predicate FollowsCreationOrder(edges: seq<Edge>) {
    forall e | e in edges :: Rank(e.src) < Rank(e.dst)
  }

  /** Some connection runs from `a` to `b`. */
  ghost predicate Linked(edges: seq<Edge>, a: NodeId, b: NodeId) {
    exists e :: e in edges && e.src == a && e.dst == b
  }

  /** `p` is a walk along connections. */
  ghost predicate IsPath(edges: seq<Edge>, p: seq<NodeId>) {
    |p| >= 1 && forall i :: 0 <= i < |p| - 1 ==> Linked(edges, p[i], p[i + 1])
  }

  /** Along any walk of at least one step, creation rank strictly grows. */
  lemma {:induction false} PathRaisesRank(edges: seq<Edge>, p: seq<NodeId>)
    requires FollowsCreationOrder(edges) && IsPath(edges, p) && |p| >= 2
    ensures Rank(p[0]) < Rank(p[|p| - 1])
    decreases |p|
  {
    assert Linked(edges, p[0], p[1]);
    var e :| e in edges && e.src == p[0] && e.dst == p[1];
    if |p| > 2 {
      assert IsPath(edges, p[1..]) by {
        forall i | 0 <= i < |p[1..]| - 1 ensures Linked(edges, p[1..][i], p[1..][i + 1]) {
          assert Linked(edges, p[i + 1], p[i + 2]);
        }
      }
      PathRaisesRank(edges, p[1..]);
    }
  }

  /** Connections that follow creation order form no cycle: no walk of one
      step or more returns to where it started. */
  lemma NoCycle(edges: seq<Edge>, p: seq<NodeId>)
    requires FollowsCreationOrder(edges) && IsPath(edges, p) && |p| >= 2
    ensures p[0] != p[|p| - 1]
  {
    PathRaisesRank(edges, p);
  }

  /** `order` lists every node once, and every connection's source comes
      before its destination. */
  ghost predicate IsTopologicalOrder(order: seq<NodeId>, edges: seq<Edge>) {
    && (forall i, j | 0 <= i < j < |order| :: order[i] != order[j])
    && (forall n: NodeId :: n in order)
    && (forall e | e in edges :: exists i, j :: 0 <= i < j < |order| && order[i] == e.src && order[j] == e.dst)
  }

  /** Creation order is a topological order of any list of connections that
      follows it: running nodes in the order the script creates them never
      runs a node before one it depends on. */
  lemma CreationOrderIsTopological(edges: seq<Edge>)
    requires FollowsCreationOrder(edges)
    ensures IsTopologicalOrder(CreationOrder, edges)
  {
    forall i, j | 0 <= i < j < |CreationOrder| ensures CreationOrder[i] != CreationOrder[j] {
      RankOfPosition(i);
      RankOfPosition(j);
    }
    forall n: NodeId ensures n in CreationOrder {
      RankIndexesCreationOrder(n);
    }
    forall e | e in edges
      ensures exists i, j :: 0 <= i < j < |CreationOrder| && CreationOrder[i] == e.src && CreationOrder[j] == e.dst
    {
      RankIndexesCreationOrder(e.src);
      RankIndexesCreationOrder(e.dst);
    }
  }
}
