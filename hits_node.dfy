/**
  HITSNode: a node of the word co-occurrence graph, holding the indices of
  its incoming and outgoing neighbours. Each list only ever grows, by an
  append that is skipped when the index is already present.
 */
module HITSNodes {
  import opened Collections

  /** The list an add leaves behind: `v` appended unless it is already there. */
  function AddEdge(list: seq<int>, v: int): seq<int>
  {
    if v in list then list else list + [v]
  }

  /** An add keeps a duplicate-free list duplicate-free and leaves `v` in it. */
  lemma AddEdgeKeepsNoDup(list: seq<int>, v: int)
    requires NoDup(list)
    ensures NoDup(AddEdge(list, v))
    ensures v in AddEdge(list, v)
    ensures Elems(AddEdge(list, v)) == Elems(list) + {v}
  {
    if v !in list {
      var r := list + [v];
      forall i, j | 0 <= i < j < |r| ensures r[i] != r[j] {
        if j == |list| {
          assert r[i] == list[i];
        } else {
          assert r[i] == list[i] && r[j] == list[j];
        }
      }
    }
  }

  /** Repeating an add changes nothing. */
  lemma AddEdgeIdempotent(list: seq<int>, v: int)
    ensures AddEdge(AddEdge(list, v), v) == AddEdge(list, v)
  {
  }

  class HITSNode {
    var incoming: seq<int>
    var outgoing: seq<int>

    /** Neither edge list holds an index twice. */
    ghost predicate Valid()
      reads this
    {
      NoDup(incoming) && NoDup(outgoing)
    }

    /** A new node has no edges. */
    constructor ()
      ensures Valid()
      ensures incoming == [] && outgoing == []
    {
      incoming := [];
      outgoing := [];
    }

    /** Adds an edge from node `value`, unless there already is one. */
    method AddIncoming(value: int)
      requires Valid()
      modifies this
      ensures Valid()
      ensures incoming == AddEdge(old(incoming), value)
      ensures value in incoming && Elems(incoming) == Elems(old(incoming)) + {value}
      ensures outgoing == old(outgoing)
    {
      AddEdgeKeepsNoDup(incoming, value);
      if value !in incoming {
        incoming := incoming + [value];
      }
    }

    /** Adds an edge to node `value`, unless there already is one. */
    method AddOutgoing(value: int)
      requires Valid()
      modifies this
      ensures Valid()
      ensures outgoing == AddEdge(old(outgoing), value)
      ensures value in outgoing && Elems(outgoing) == Elems(old(outgoing)) + {value}
      ensures incoming == old(incoming)
    {
      AddEdgeKeepsNoDup(outgoing, value);
      if value !in outgoing {
        outgoing := outgoing + [value];
      }
    }

    /** The incoming edge list. */
    function GetIncoming(): (r: seq<int>)
      reads this
      ensures r == incoming
    {
      incoming
    }

    /**
      Meant to give the outgoing edge list, but returns the INCOMING one:
      every caller of this accessor reads incoming edges.
     */
    function GetOutgoing(): (r: seq<int>)
      reads this
      ensures r == incoming
    {
      incoming
    }

    /**
      The defect made visible: a node with an outgoing edge and no incoming
      edge reports no outgoing edge at all.
     */
    lemma GetOutgoingMissesEdges()
      requires incoming == [] && |outgoing| > 0
      ensures GetOutgoing() == [] && GetOutgoing() != outgoing
    {
    }
  }
}
