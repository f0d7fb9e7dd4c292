/** States of the NFA built from a right-linear grammar. */
module Nfa {
  import opened Strings
  import opened Symbols

  /** The label of an ε-edge. */
  const EPSILON_LABEL: string := "ε"

  /** The symbol the end state carries. */
  const END_STATE_ID: Symbol := NewSymbolWithEnd("END STATE", true)

  /** The transition map after one more edge: the successor joins the set
      under the label, created empty if the label was new. */
  function WithEdge(edges: map<string, set<NFAState>>, path: string, next: NFAState): (r: map<string, set<NFAState>>)
    ensures r.Keys == edges.Keys + {path}
    ensures r[path] == (if path in edges then edges[path] else {}) + {next}
    ensures forall l :: l in edges && l != path ==> r[l] == edges[l]
  {
    edges[path := (if path in edges then edges[path] else {}) + {next}]
  }

  /** Successor sets: adding an edge twice is adding it once. */
  lemma WithEdgeIdempotent(edges: map<string, set<NFAState>>, path: string, next: NFAState)
    ensures WithEdge(WithEdge(edges, path, next), path, next) == WithEdge(edges, path, next)
  {
    var once := WithEdge(edges, path, next);
    var twice := WithEdge(once, path, next);
    assert twice.Keys == once.Keys;
    assert forall l :: l in once ==> twice[l] == once[l];
  }

  /** Edges added in either order give the same transition map. */
  lemma WithEdgeCommutes(edges: map<string, set<NFAState>>, l1: string, n1: NFAState, l2: string, n2: NFAState)
    ensures WithEdge(WithEdge(edges, l1, n1), l2, n2) == WithEdge(WithEdge(edges, l2, n2), l1, n1)
  {
    var a := WithEdge(WithEdge(edges, l1, n1), l2, n2);
    var b := WithEdge(WithEdge(edges, l2, n2), l1, n1);
    assert a.Keys == b.Keys;
    assert forall l :: l in a ==> a[l] == b[l];
  }

  /** An NFA state. The id and the end flag are fixed at construction (the
      model has no setId or setEnd); the start flag and the transition map,
      from edge label to successor states, are updated in place. */
  class NFAState {
    const id: Symbol
    const isEnd: bool
    var isStart: bool
    var edges: map<string, set<NFAState>>

    /** NFAState(symbol): a state for a grammar symbol, with no edges, not
        start and not end. */
    constructor (symbol: Symbol)
      ensures id == symbol && !isEnd && !isStart && edges == map[]
    {
      id := symbol;
      isEnd := false;
      isStart := false;
      edges := map[];
    }

    /** NFAState(isEnd): the end state, whatever the flag passed in. */
    constructor End(endFlag: bool)
      ensures id == END_STATE_ID && isEnd && !isStart && edges == map[]
    {
      id := END_STATE_ID;
      isEnd := true;
      isStart := false;
      edges := map[];
    }

    /** addEdges: next joins the successors under the symbol's content; the
        other labels keep their successors. */
    method AddEdges(symbol: Symbol, next: NFAState)
      modifies this
      ensures edges == WithEdge(old(edges), symbol.content, next)
      ensures isStart == old(isStart)
    {
      var stateSet: set<NFAState>;
      if symbol.content in edges {
        stateSet := edges[symbol.content];
      } else {
        stateSet := {};
        edges := edges[symbol.content := stateSet];
      }
      edges := edges[symbol.content := stateSet + {next}];
    }

    method SetStart(start: bool)
      modifies this
      ensures isStart == start && edges == old(edges)
    {
      isStart := start;
    }
  }

  /** Edges are labelled by content only: symbols that differ in the end
      flag alone share a label. */
  lemma LabelIgnoresEndFlag(edges: map<string, set<NFAState>>, a: Symbol, b: Symbol, next: NFAState)
    requires a.content == b.content
    ensures WithEdge(edges, a.content, next) == WithEdge(edges, b.content, next)
  {
  }

  /** The successors of a state under a label; none when the label is absent. */
  function Successors(s: NFAState, path: string): set<NFAState>
    reads s
  {
    if path in s.edges then s.edges[path] else {}
  }

  /** compareTo: the order of the ids' contents. */
  function CompareStates(a: NFAState, b: NFAState): (r: int)
    ensures -1 <= r <= 1
    ensures r == 0 <==> a.id.content == b.id.content
    ensures r == -Compare(b.id.content, a.id.content)
  {
    CompareZero(a.id.content, b.id.content);
    CompareFlip(a.id.content, b.id.content);
    Compare(a.id.content, b.id.content)
  }
}
