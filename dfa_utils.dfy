/** The subset construction: ε-closure, move, and the exploration of DFA
    states from the closure of the NFA's start state. */
module Dfa {
  import opened Symbols
  import opened Collections
  import opened Nfa
  import opened DfaStates

  /** The NFA as a value: the transition map of each of its states. The
      construction never changes an NFA state, so its results are stated
      against this value. */
  type NfaEdges = map<NFAState, map<string, set<NFAState>>>

  /** The value holds the current transition map of each of its states. */
  ghost predicate Mirrors(nfa: NfaEdges)
    reads nfa.Keys
  {
    forall s :: s in nfa ==> s.edges == nfa[s]
  }

  /** No edge leaves the NFA: the finite set of states the construction
      works in. */
  ghost predicate NfaClosed(nfa: NfaEdges) {
    forall s, path :: s in nfa && path in nfa[s] ==> nfa[s][path] <= nfa.Keys
  }

  /** The successors of an NFA state under a label, none when the label is
      absent. */
  function Succ(nfa: NfaEdges, s: NFAState, path: string): set<NFAState> {
    if s in nfa && path in nfa[s] then nfa[s][path] else {}
  }

  /** No ε-edge leaves the set. */
  ghost predicate EpsClosed(nfa: NfaEdges, states: set<NFAState>) {
    forall s :: s in states ==> Succ(nfa, s, EPSILON_LABEL) <= states
  }

  /** The states that the states of the set reach by one edge labelled path. */
  ghost function MoveSet(nfa: NfaEdges, states: set<NFAState>, path: string): set<NFAState> {
    set s, n | s in states && n in Succ(nfa, s, path) :: n
  }

  /** Proof helper: in a closed NFA, a move stays inside the NFA's states. */
  lemma MoveSetInside(nfa: NfaEdges, states: set<NFAState>, path: string)
    requires states <= nfa.Keys && NfaClosed(nfa)
    ensures MoveSet(nfa, states, path) <= nfa.Keys
  {
  }

  /** The ε-closure as a reference definition: add the ε-successors until
      nothing new comes. */
  ghost function EpsClosureOf(nfa: NfaEdges, states: set<NFAState>): (r: set<NFAState>)
    requires states <= nfa.Keys && NfaClosed(nfa)
    ensures states <= r <= nfa.Keys
    decreases |nfa.Keys - states|
  {
    var next := states + MoveSet(nfa, states, EPSILON_LABEL);
    MoveSetInside(nfa, states, EPSILON_LABEL);
    if next == states then states
    else
      var k :| k in next && k !in states;
      Shrinks(nfa.Keys, states, next, k);
      EpsClosureOf(nfa, next)
  }

  /** The ε-closure is closed under ε-edges. */
  lemma {:induction false} EpsClosureClosed(nfa: NfaEdges, states: set<NFAState>)
    requires states <= nfa.Keys && NfaClosed(nfa)
    ensures EpsClosed(nfa, EpsClosureOf(nfa, states))
    decreases |nfa.Keys - states|
  {
    var next := states + MoveSet(nfa, states, EPSILON_LABEL);
    MoveSetInside(nfa, states, EPSILON_LABEL);
    if next != states {
      var k :| k in next && k !in states;
      Shrinks(nfa.Keys, states, next, k);
      EpsClosureClosed(nfa, next);
    }
  }

  /** The ε-closure lies inside every ε-closed superset of the states: it
      holds only states ε-reachable from them. */
  lemma {:induction false} EpsClosureLeast(nfa: NfaEdges, states: set<NFAState>, t: set<NFAState>)
    requires states <= nfa.Keys && NfaClosed(nfa)
    requires states <= t && EpsClosed(nfa, t)
    ensures EpsClosureOf(nfa, states) <= t
    decreases |nfa.Keys - states|
  {
    var next := states + MoveSet(nfa, states, EPSILON_LABEL);
    MoveSetInside(nfa, states, EPSILON_LABEL);
    if next != states {
      var k :| k in next && k !in states;
      Shrinks(nfa.Keys, states, next, k);
      EpsClosureLeast(nfa, next, t);
    }
  }

  /** The worklist invariant of closure: stacked states are in the result,
      and a state of the result off the stack has its ε-successors in it. */
  ghost predicate Pending(nfa: NfaEdges, resultSet: set<NFAState>, stack: seq<NFAState>) {
    (forall s :: s in stack ==> s in resultSet) &&
    (forall s :: s in resultSet ==> s in stack || Succ(nfa, s, EPSILON_LABEL) <= resultSet)
  }

  /** The body of the closure loop for one popped state: each ε-successor
      not yet in the result is added to it and pushed. */
  method PushSuccessors(current: NFAState, resultSet0: set<NFAState>, stack0: seq<NFAState>,
                        ghost nfa: NfaEdges, ghost c: set<NFAState>)
    returns (resultSet: set<NFAState>, stack: seq<NFAState>)
    requires Mirrors(nfa) && c <= nfa.Keys
    requires Pending(nfa, resultSet0, stack0 + [current])
    requires resultSet0 <= c && EpsClosed(nfa, c)
    ensures Pending(nfa, resultSet, stack)
    ensures resultSet0 <= resultSet <= c
    ensures resultSet == resultSet0 ==> stack == stack0
  {
    assert current in stack0 + [current];
    assert current.edges == nfa[current];
    resultSet, stack := resultSet0, stack0;
    if EPSILON_LABEL in current.edges {
      var successors := Enumerate(current.edges[EPSILON_LABEL]);
      EnumerationMembers(successors, current.edges[EPSILON_LABEL]);
      for j := 0 to |successors|
        invariant resultSet0 <= resultSet <= c
        invariant forall s :: s in stack0 ==> s in stack
        invariant forall s :: s in stack ==> s in stack0 || s in resultSet - resultSet0
        invariant forall s :: s in resultSet - resultSet0 ==> s in stack
        invariant forall k :: 0 <= k < j ==> successors[k] in resultSet
        invariant resultSet == resultSet0 ==> stack == stack0
      {
        var epsilonState := successors[j];
        if epsilonState !in resultSet {
          resultSet := resultSet + {epsilonState};
          stack := stack + [epsilonState];
        }
      }
    }
    forall s | s in resultSet
      ensures s in stack || Succ(nfa, s, EPSILON_LABEL) <= resultSet
    {
      if s in resultSet0 && s != current && s !in stack0 {
        assert s !in stack0 + [current];
      }
    }
  }

  /** DFAUtils.closure: a worklist of states whose ε-successors are still
      to be added; every state enters the result and the stack once. */
  method Closure(nfaStates: set<NFAState>, ghost nfa: NfaEdges) returns (resultSet: set<NFAState>)
    requires Mirrors(nfa) && NfaClosed(nfa) && nfaStates <= nfa.Keys
    ensures resultSet == EpsClosureOf(nfa, nfaStates)
  {
    ghost var c := EpsClosureOf(nfa, nfaStates);
    EpsClosureClosed(nfa, nfaStates);
    resultSet := nfaStates;
    var stack := Enumerate(nfaStates);
    EnumerationMembers(stack, nfaStates);
    while stack != []
      invariant nfaStates <= resultSet <= c
      invariant Pending(nfa, resultSet, stack)
      decreases |nfa.Keys - resultSet|, |stack|
    {
      var current := stack[|stack| - 1];
      ghost var before := resultSet;
      var rest := stack[..|stack| - 1];
      assert stack == rest + [current];
      resultSet, stack := PushSuccessors(current, resultSet, rest, nfa, c);
      if resultSet != before {
        GrowsWithin(nfa.Keys, before, resultSet);
      }
    }
    EpsClosureLeast(nfa, nfaStates, resultSet);
  }

  lemma MoveSetAdd(nfa: NfaEdges, seen: set<NFAState>, s: NFAState, path: string)
    ensures MoveSet(nfa, seen + {s}, path) == MoveSet(nfa, seen, path) + Succ(nfa, s, path)
  {
  }

  /** DFAUtils.move: the union of the successors under path of the DFA
      state's NFA states; a state without the label adds nothing. */
  method Move(currentDFAState: DFAState, path: Symbol, ghost nfa: NfaEdges) returns (resultSet: set<NFAState>)
    requires Mirrors(nfa) && currentDFAState.nfaStates <= nfa.Keys
    ensures resultSet == MoveSet(nfa, currentDFAState.nfaStates, path.content)
  {
    var listed := Enumerate(currentDFAState.nfaStates);
    EnumerationMembers(listed, currentDFAState.nfaStates);
    resultSet := {};
    ghost var seen: set<NFAState> := {};
    for i := 0 to |listed|
      invariant seen <= currentDFAState.nfaStates
      invariant forall k :: 0 <= k < i ==> listed[k] in seen
      invariant resultSet == MoveSet(nfa, seen, path.content)
    {
      var currentNFAState := listed[i];
      MoveSetAdd(nfa, seen, currentNFAState, path.content);
      assert currentNFAState.edges == nfa[currentNFAState];
      if path.content in currentNFAState.edges {
        resultSet := resultSet + currentNFAState.edges[path.content];
      }
      seen := seen + {currentNFAState};
    }
    assert seen == currentDFAState.nfaStates;
  }

  /** The edge labels the construction follows: the contents of the
      symbols other than ε. */
  function Labels(vtSet: set<Symbol>): set<string> {
    set s | s in vtSet && s.content != EPSILON :: s.content
  }

  /** The same for the symbols of a listing. */
  function LabelsOf(symbols: seq<Symbol>): set<string> {
    set s | s in symbols && s.content != EPSILON :: s.content
  }

  lemma LabelsOfStep(symbols: seq<Symbol>, i: int)
    requires 0 <= i < |symbols|
    ensures LabelsOf(symbols[..i + 1]) ==
      LabelsOf(symbols[..i]) + (if symbols[i].content != EPSILON then {symbols[i].content} else {})
  {
    assert symbols[..i + 1] == symbols[..i] + [symbols[i]];
  }

  lemma LabelsOfEnumeration(symbols: seq<Symbol>, vtSet: set<Symbol>)
    requires multiset(symbols) == multiset(vtSet)
    ensures LabelsOf(symbols) == Labels(vtSet)
  {
    EnumerationMembers(symbols, vtSet);
  }

  /** The key of the DFA state reached from the NFA states src under path:
      the key of the ε-closure of the move. */
  ghost function Target(nfa: NfaEdges, src: set<NFAState>, path: string): string
    requires src <= nfa.Keys && NfaClosed(nfa)
  {
    MoveSetInside(nfa, src, path);
    KeyOfStates(EpsClosureOf(nfa, MoveSet(nfa, src, path)))
  }

  /** The key of the start state of the DFA. */
  ghost function StartKey(nfa: NfaEdges, startNFA: NFAState): string
    requires startNFA in nfa && NfaClosed(nfa)
  {
    KeyOfStates(EpsClosureOf(nfa, {startNFA}))
  }

  /** u holds every key a DFA state over the NFA can have. */
  ghost predicate Covers(u: set<string>, nfa: NfaEdges) {
    forall ss {:trigger KeyOfStates(ss)} :: ss <= nfa.Keys ==> KeyOfStates(ss) in u
  }

  /** The keys of the sets of NFA states are finitely many: the bound on
      the number of DFA states. A ghost helper with no counterpart in the
      source; it only gives the loop of NFAToDFA its termination measure. */
  ghost method KeyUniverse(nfa: NfaEdges) returns (u: set<string>)
    ensures Covers(u, nfa)
  {
    u := set ss: set<NFAState> | ss <= nfa.Keys :: KeyOfStates(ss);
  }

  /** The DFA state under key k has an edge for every label, to a state of
      the state set: the one interned for the ε-closure of the move. */
  ghost predicate EdgesOk(stateSet: map<string, DFAState>, graph: map<string, map<string, DFAState>>,
                          k: string, labels: set<string>, nfa: NfaEdges)
  {
    k in stateSet && stateSet[k].nfaStates <= nfa.Keys && NfaClosed(nfa) &&
    forall a :: a in labels ==>
      k in graph && a in graph[k] && graph[k][a].key in stateSet &&
      graph[k][a].key == Target(nfa, stateSet[k].nfaStates, a)
  }

  /** m2 keeps every entry of m1. */
  ghost predicate Extends(m1: map<string, DFAState>, m2: map<string, DFAState>) {
    forall k :: k in m1 ==> k in m2 && m2[k] == m1[k]
  }

  /** The edges out of the state under key k; none when k has no entry. */
  function Inner(graph: map<string, map<string, DFAState>>, k: string): map<string, DFAState> {
    if k in graph then graph[k] else map[]
  }

  /** The edges of a state stay right while the state set grows and its
      own edges are left alone. */
  lemma EdgesOkKept(ss1: map<string, DFAState>, g1: map<string, map<string, DFAState>>,
                    ss2: map<string, DFAState>, g2: map<string, map<string, DFAState>>,
                    k: string, labels: set<string>, nfa: NfaEdges)
    requires EdgesOk(ss1, g1, k, labels, nfa) && Extends(ss1, ss2)
    requires k in g1 ==> k in g2 && g2[k] == g1[k]
    ensures EdgesOk(ss2, g2, k, labels, nfa)
  {
  }

  /** One more edge, to the state interned for the move under a. */
  lemma EdgesOkStep(ss1: map<string, DFAState>, g1: map<string, map<string, DFAState>>,
                    ss2: map<string, DFAState>, k: string, labels: set<string>, a: string,
                    d: DFAState, nfa: NfaEdges)
    requires EdgesOk(ss1, g1, k, labels, nfa) && Extends(ss1, ss2)
    requires d.key in ss2 && d.key == Target(nfa, ss1[k].nfaStates, a)
    ensures EdgesOk(ss2, g1[k := Inner(g1, k)[a := d]], k, labels + {a}, nfa)
  {
    var g2: map<string, map<string, DFAState>> := g1[k := Inner(g1, k)[a := d]];
    assert ss2[k] == ss1[k];
    forall b: string | b in labels + {a}
      ensures k in g2 && b in g2[k] && g2[k][b].key in ss2 && g2[k][b].key == Target(nfa, ss2[k].nfaStates, b)
    {
      if b != a {
        assert g2[k][b] == g1[k][b];
      }
    }
  }

  /** The keys of the states on a stack. */
  function StackKeys(stack: seq<DFAState>): set<string> {
    set d | d in stack :: d.key
  }

  /** Each state of the state set is the registered one for its key. */
  ghost predicate Registered(registry: map<string, DFAState>, stateSet: map<string, DFAState>) {
    forall k :: k in stateSet ==> k in registry && registry[k] == stateSet[k]
  }

  ghost predicate RegistryWithin(registry: map<string, DFAState>, nfa: NfaEdges) {
    forall k :: k in registry ==> registry[k].nfaStates <= nfa.Keys
  }

  /** Interning one more set of NFA states keeps the state set registered
      and the registry inside the NFA; adding the state to the state set
      changes it only when the key is new. */
  lemma InternStep(reg1: map<string, DFAState>, reg2: map<string, DFAState>, stateSet: map<string, DFAState>,
                   d: DFAState, c: set<NFAState>, nfa: NfaEdges)
    requires Registered(reg1, stateSet) && RegistryWithin(reg1, nfa) && c <= nfa.Keys
    requires d.key in reg2 && reg2[d.key] == d
    requires d.key in reg1 ==> d == reg1[d.key] && reg2 == reg1
    requires d.key !in reg1 ==> d.nfaStates == c && reg2 == reg1[d.key := d]
    ensures Registered(reg2, stateSet[d.key := d]) && RegistryWithin(reg2, nfa)
    ensures d.key in stateSet ==> stateSet[d.key := d] == stateSet
  {
  }

  /** Move and ε-closure from a DFA state under one symbol. */
  method Successor(currentDFA: DFAState, symbol: Symbol, ghost nfa: NfaEdges)
    returns (closureNFASet: set<NFAState>)
    requires Mirrors(nfa) && NfaClosed(nfa) && currentDFA.nfaStates <= nfa.Keys
    ensures closureNFASet <= nfa.Keys
    ensures KeyOfStates(closureNFASet) == Target(nfa, currentDFA.nfaStates, symbol.content)
  {
    var movedNFASet := Move(currentDFA, symbol, nfa);
    MoveSetInside(nfa, currentDFA.nfaStates, symbol.content);
    closureNFASet := Closure(movedNFASet, nfa);
  }

  /** The state set ss has grown from ss0 by exactly the pushed states,
      each under its key, and the new keys lie in u. */
  ghost predicate Grown(ss0: map<string, DFAState>, ss: map<string, DFAState>, pushed: seq<DFAState>,
                        u: set<string>)
  {
    Extends(ss0, ss) &&
    (forall j :: j in ss && j !in ss0 ==> j in u && j in StackKeys(pushed)) &&
    (forall d :: d in pushed ==> d.key in ss && ss[d.key] == d && d.key !in ss0) &&
    (ss.Keys == ss0.Keys ==> pushed == [])
  }

  /** Interning one more state keeps the growth accounted for: a new key is
      pushed, a known one changes nothing. */
  lemma GrownStep(ss0: map<string, DFAState>, ss: map<string, DFAState>, pushed: seq<DFAState>,
                  u: set<string>, d: DFAState, added: bool)
    requires Grown(ss0, ss, pushed, u)
    requires added <==> d.key !in ss
    requires d.key in u && (d.key in ss ==> ss[d.key] == d)
    ensures Grown(ss0, ss[d.key := d], if added then pushed + [d] else pushed, u)
  {
    var ss' := ss[d.key := d];
    var pushed' := if added then pushed + [d] else pushed;
    forall j | j in ss' && j !in ss0
      ensures j in u && j in StackKeys(pushed')
    {
      if j == d.key && added {
        assert d in pushed';
      } else {
        var e :| e in pushed && e.key == j;
        assert e in pushed';
      }
    }
  }

  /** The DFA's transition function on the state set ss: the state under
      key j is the one reached from the state under key i under label a. */
  ghost predicate Transition(ss: map<string, DFAState>, i: string, a: string, j: string, nfa: NfaEdges) {
    i in ss && ss[i].nfaStates <= nfa.Keys && NfaClosed(nfa) && j == Target(nfa, ss[i].nfaStates, a)
  }

  /** Every key ss gained over ss0 is the target of the NFA states src
      under one of labels. */
  ghost predicate FromState(ss0: map<string, DFAState>, ss: map<string, DFAState>, src: set<NFAState>,
                            labels: set<string>, nfa: NfaEdges) {
    src <= nfa.Keys && NfaClosed(nfa) &&
    forall j :: j in ss && j !in ss0 ==> exists a :: a in labels && j == Target(nfa, src, a)
  }

  /** Only the edges out of the state under key k differ between g0 and g. */
  ghost predicate GraphFrame(g0: map<string, map<string, DFAState>>, g: map<string, map<string, DFAState>>, k: string) {
    forall j :: j != k ==> (j in g <==> j in g0) && (j in g ==> g[j] == g0[j])
  }

  /** Where the exploration of the state under key k stands, against the
      state set ss0 and graph g0 it started from: the state set has grown
      by the pushed states, whose keys are keys over the NFA, the edges
      under the labels so far are right, and no other state's edges moved. */
  ghost predicate Explored(ss0: map<string, DFAState>, g0: map<string, map<string, DFAState>>,
                           ss: map<string, DFAState>, g: map<string, map<string, DFAState>>,
                           pushed: seq<DFAState>, k: string, labels: set<string>, nfa: NfaEdges, u: set<string>)
  {
    Grown(ss0, ss, pushed, u) && EdgesOk(ss, g, k, labels, nfa) && GraphFrame(g0, g, k)
  }

  /** One more symbol explored from the state under key k: the state
      interned for its target joins the state set (and the pushed states
      when new), and k's edge under the symbol leads to it. */
  lemma ExploredStep(ss0: map<string, DFAState>, g0: map<string, map<string, DFAState>>,
                     ss1: map<string, DFAState>, g1: map<string, map<string, DFAState>>,
                     pushed: seq<DFAState>, k: string, labels: set<string>, nfa: NfaEdges, u: set<string>,
                     a: string, d: DFAState, added: bool)
    requires Explored(ss0, g0, ss1, g1, pushed, k, labels, nfa, u)
    requires added <==> d.key !in ss1
    requires d.key in u && (d.key in ss1 ==> ss1[d.key] == d)
    requires d.key == Target(nfa, ss1[k].nfaStates, a)
    ensures Explored(ss0, g0, ss1[d.key := d], g1[k := Inner(g1, k)[a := d]],
                     if added then pushed + [d] else pushed, k, labels + {a}, nfa, u)
  {
    GrownStep(ss0, ss1, pushed, u, d, added);
    EdgesOkStep(ss1, g1, ss1[d.key := d], k, labels, a, d, nfa);
  }

  /** The state interned for the target under a is reached from the state
      under key k. */
  lemma FromStateStep(ss0: map<string, DFAState>, ss1: map<string, DFAState>, ss2: map<string, DFAState>,
                      src: set<NFAState>, labels: set<string>, nfa: NfaEdges, a: string)
    requires FromState(ss0, ss1, src, labels, nfa)
    requires ss2.Keys <= ss1.Keys + {Target(nfa, src, a)}
    ensures FromState(ss0, ss2, src, labels + {a}, nfa)
  {
  }

  /** The keys the state set ss gained over ss0 lie in u. */
  ghost predicate NewKeysIn(ss0: map<string, DFAState>, ss: map<string, DFAState>, u: set<string>) {
    forall j :: j in ss && j !in ss0 ==> j in u
  }

  /** Where the construction stands, against the state set ss0 and graph
      g0 it started from, with start key sk: the state set has grown; the
      stacked states are in it and are new or the start state; every new
      or start state off the stack has all its edges; no other state's
      edges moved. */
  ghost predicate Construction(ss0: map<string, DFAState>, g0: map<string, map<string, DFAState>>,
                               ss: map<string, DFAState>, g: map<string, map<string, DFAState>>,
                               stack: seq<DFAState>, sk: string, labels: set<string>, nfa: NfaEdges)
  {
    Extends(ss0, ss) && sk in ss &&
    (forall d :: d in stack ==> d.key in ss && ss[d.key] == d && (d.key !in ss0 || d.key == sk)) &&
    (forall j {:trigger EdgesOk(ss, g, j, labels, nfa)} ::
       j in ss && (j !in ss0 || j == sk) && j !in StackKeys(stack) ==> EdgesOk(ss, g, j, labels, nfa)) &&
    (forall j :: j in ss0 && j != sk ==> (j in g <==> j in g0) && (j in g ==> g[j] == g0[j]))
  }

  /** Step n of the discovery order: the key is in the state set and is
      the start key or is reached by a transition from a key found
      earlier. */
  ghost predicate FoundAt(ss: map<string, DFAState>, order: seq<string>, n: nat, sk: string,
                          labels: set<string>, nfa: NfaEdges)
    requires n < |order|
  {
    order[n] in ss &&
    (order[n] == sk || exists m, a :: 0 <= m < n && a in labels && Transition(ss, order[m], a, order[n], nfa))
  }

  /** order lists every key the state set gained over ss0, each reached
      from the start key sk by a chain of transitions: every state the
      construction adds is reachable from the start state. */
  ghost predicate Discovered(ss0: map<string, DFAState>, ss: map<string, DFAState>, order: seq<string>,
                             sk: string, labels: set<string>, nfa: NfaEdges)
  {
    (forall j :: j in ss && j !in ss0 ==> j in order) &&
    forall n: nat :: n < |order| ==> FoundAt(ss, order, n, sk, labels, nfa)
  }

  /** The keys of a sequence of states, in order. */
  function KeysOf(ds: seq<DFAState>): (r: seq<string>)
    ensures |r| == |ds| && forall i :: 0 <= i < |ds| ==> r[i] == ds[i].key
  {
    seq(|ds|, i requires 0 <= i < |ds| => ds[i].key)
  }

  /** A step found earlier stays found when the state set grows and more
      keys follow. */
  lemma FoundAtKept(ss: map<string, DFAState>, ss': map<string, DFAState>, order: seq<string>, more: seq<string>,
                    n: nat, sk: string, labels: set<string>, nfa: NfaEdges)
    requires n < |order| && FoundAt(ss, order, n, sk, labels, nfa) && Extends(ss, ss')
    ensures FoundAt(ss', order + more, n, sk, labels, nfa)
  {
    var order' := order + more;
    assert order'[n] == order[n];
    if order[n] != sk {
      var m, a :| 0 <= m < n && a in labels && Transition(ss, order[m], a, order[n], nfa);
      assert order'[m] == order[m];
      assert Transition(ss', order'[m], a, order'[n], nfa);
    }
  }

  /** Exploring the state under key order[m] extends the discovery order
      by the keys of the states it pushed. */
  lemma DiscoveredStep(ss0: map<string, DFAState>, ss: map<string, DFAState>, g: map<string, map<string, DFAState>>,
                       ss': map<string, DFAState>, g': map<string, map<string, DFAState>>,
                       order: seq<string>, m: nat, pushed: seq<DFAState>,
                       sk: string, labels: set<string>, nfa: NfaEdges, u: set<string>)
    requires Discovered(ss0, ss, order, sk, labels, nfa) && m < |order|
    requires Explored(ss, g, ss', g', pushed, order[m], labels, nfa, u)
    requires FromState(ss, ss', ss'[order[m]].nfaStates, labels, nfa)
    ensures Discovered(ss0, ss', order + KeysOf(pushed), sk, labels, nfa)
    ensures forall e :: e in pushed ==> e.key in order + KeysOf(pushed)
  {
    var added := KeysOf(pushed);
    var order' := order + added;
    forall e | e in pushed ensures e.key in order' {
      var i :| 0 <= i < |pushed| && pushed[i] == e;
      assert order'[|order| + i] == e.key;
    }
    forall j | j in ss' && j !in ss0 ensures j in order' {
      if j !in ss {
        var e :| e in pushed && e.key == j;
      }
    }
    forall n: nat | n < |order'| ensures FoundAt(ss', order', n, sk, labels, nfa) {
      if n < |order| {
        FoundAtKept(ss, ss', order, added, n, sk, labels, nfa);
      } else {
        var e := pushed[n - |order|];
        assert order'[n] == e.key && order'[m] == order[m];
        var a :| a in labels && e.key == Target(nfa, ss'[order[m]].nfaStates, a);
        assert Transition(ss', order'[m], a, order'[n], nfa);
      }
    }
  }

  /** Exploring the popped state keeps the construction on track, and
      either grows the state set inside the key universe or pushes
      nothing. */
  lemma ConstructionStep(ss0: map<string, DFAState>, g0: map<string, map<string, DFAState>>,
                         ss: map<string, DFAState>, g: map<string, map<string, DFAState>>,
                         ss': map<string, DFAState>, g': map<string, map<string, DFAState>>,
                         rest: seq<DFAState>, d: DFAState, pushed: seq<DFAState>,
                         sk: string, labels: set<string>, nfa: NfaEdges, u: set<string>)
    requires Construction(ss0, g0, ss, g, rest + [d], sk, labels, nfa) && NewKeysIn(ss0, ss, u)
    requires Explored(ss, g, ss', g', pushed, d.key, labels, nfa, u)
    ensures Construction(ss0, g0, ss', g', rest + pushed, sk, labels, nfa) && NewKeysIn(ss0, ss', u)
    ensures u - ss'.Keys < u - ss.Keys || (u - ss'.Keys == u - ss.Keys && pushed == [])
  {
    assert d in rest + [d];
    forall e | e in rest + pushed
      ensures e.key in ss' && ss'[e.key] == e && (e.key !in ss0 || e.key == sk)
    {
      if e in rest {
        assert e in rest + [d];
      }
    }
    forall j | j in StackKeys(pushed) ensures j in StackKeys(rest + pushed) {
      var e :| e in pushed && e.key == j;
      assert e in rest + pushed;
    }
    forall j | j in ss' && (j !in ss0 || j == sk) && j !in StackKeys(rest + pushed)
      ensures EdgesOk(ss', g', j, labels, nfa)
    {
      if j != d.key && j in ss {
        forall e | e in rest + [d] ensures e.key != j {
          if e in rest {
            assert e in rest + pushed;
          }
        }
        EdgesOkKept(ss, g, ss', g', j, labels, nfa);
      }
    }
    if ss'.Keys != ss.Keys {
      var k :| k in ss' && k !in ss;
      assert k in u - ss.Keys && k !in u - ss'.Keys;
    }
  }

  /** The construction starts with the start state in the state set and
      alone on the stack. */
  lemma ConstructionStart(ss0: map<string, DFAState>, g0: map<string, map<string, DFAState>>,
                          ss: map<string, DFAState>, d: DFAState, labels: set<string>, nfa: NfaEdges, u: set<string>)
    requires d.key in u
    requires d.key in ss0 ==> ss0[d.key] == d
    requires ss == (if d.key in ss0 then ss0 else ss0[d.key := d])
    ensures Construction(ss0, g0, ss, g0, [d], d.key, labels, nfa) && NewKeysIn(ss0, ss, u)
  {
    assert StackKeys([d]) == {d.key};
  }

  /** A construction run to the end from an empty state set has built a
      complete DFA: every state has, under every label, an edge to a state
      of the set, the one interned for the ε-closure of the move. */
  lemma ConstructionComplete(g0: map<string, map<string, DFAState>>, ss: map<string, DFAState>,
                             g: map<string, map<string, DFAState>>, sk: string, labels: set<string>, nfa: NfaEdges)
    requires Construction(map[], g0, ss, g, [], sk, labels, nfa)
    ensures forall j :: j in ss ==> EdgesOk(ss, g, j, labels, nfa)
  {
    forall j | j in ss ensures EdgesOk(ss, g, j, labels, nfa) {
      assert j !in StackKeys([]);
    }
  }

  /** The static DFAStateSet and DFAGraph of DFAUtils, with the registry of
      DFA states they draw on. Both are keyed by the DFA state's key, as
      equality of DFA states is equality of keys. */
  class DFAUtils {
    var dfaStateSet: map<string, DFAState>
    var dfaGraph: map<string, map<string, DFAState>>
    const registry: DFAMap

    /** The state set holds registered states under their keys. */
    ghost predicate Valid()
      reads this, registry
    {
      registry.Valid() && Registered(registry.states, dfaStateSet)
    }

    /** Every registered DFA state is made of states of the NFA. */
    ghost predicate Within(nfa: NfaEdges)
      reads this, registry
    {
      RegistryWithin(registry.states, nfa)
    }

    constructor (registry: DFAMap)
      requires registry.Valid()
      ensures Valid() && this.registry == registry && dfaStateSet == map[] && dfaGraph == map[]
    {
      this.registry := registry;
      dfaStateSet := map[];
      dfaGraph := map[];
    }

    /** addEdge: the edge from currentDFA under the path's content now leads
        to nextDFA, replacing any earlier target; all other edges stay. */
    method AddEdge(currentDFA: DFAState, path: Symbol, nextDFA: DFAState)
      modifies this
      ensures dfaGraph == old(dfaGraph)[currentDFA.key :=
        Inner(old(dfaGraph), currentDFA.key)[path.content := nextDFA]]
      ensures dfaStateSet == old(dfaStateSet)
    {
      var stringDFAStateMap: map<string, DFAState>;
      if currentDFA.key !in dfaGraph || |dfaGraph[currentDFA.key]| == 0 {
        stringDFAStateMap := map[];
        dfaGraph := dfaGraph[currentDFA.key := stringDFAStateMap];
      } else {
        stringDFAStateMap := dfaGraph[currentDFA.key];
      }
      dfaGraph := dfaGraph[currentDFA.key := stringDFAStateMap[path.content := nextDFA]];
    }

    /** DFAState.create on a set of NFA states, and the new DFA state's
        entry in the state set when its key is new. */
    method Intern(closureNFASet: set<NFAState>, ghost nfa: NfaEdges)
      returns (dfaState: DFAState, added: bool)
      requires Valid() && Within(nfa) && closureNFASet <= nfa.Keys
      modifies this, registry
      ensures Valid() && Within(nfa) && dfaGraph == old(dfaGraph)
      ensures dfaState.key == KeyOfStates(closureNFASet)
      ensures added <==> dfaState.key !in old(dfaStateSet)
      ensures !added ==> old(dfaStateSet)[dfaState.key] == dfaState
      ensures dfaStateSet == old(dfaStateSet)[dfaState.key := dfaState]
    {
      ghost var reg1 := registry.states;
      dfaState := registry.Create(closureNFASet);
      InternStep(reg1, registry.states, dfaStateSet, dfaState, closureNFASet, nfa);
      added := dfaState.key !in dfaStateSet;
      if added {
        dfaStateSet := dfaStateSet[dfaState.key := dfaState];
      }
    }

    /** One symbol of the construction loop: move and ε-closure from the
        current DFA state, the DFA state interned for the result, pushed
        when new, and the edge to it. The exploration so far, against the
        state set ss0 and graph g0 it started from, takes in the symbol. */
    method Follow(currentDFA: DFAState, symbol: Symbol, pushed0: seq<DFAState>, ghost nfa: NfaEdges,
                  ghost ss0: map<string, DFAState>, ghost g0: map<string, map<string, DFAState>>,
                  ghost labels: set<string>, ghost u: set<string>)
      returns (pushed: seq<DFAState>)
      requires Valid() && Within(nfa) && Mirrors(nfa) && NfaClosed(nfa) && Covers(u, nfa)
      requires currentDFA.key in dfaStateSet && dfaStateSet[currentDFA.key] == currentDFA
      requires Explored(ss0, g0, dfaStateSet, dfaGraph, pushed0, currentDFA.key, labels, nfa, u)
      modifies this, registry
      ensures Valid() && Within(nfa)
      ensures currentDFA.key in dfaStateSet && dfaStateSet[currentDFA.key] == currentDFA
      ensures Explored(ss0, g0, dfaStateSet, dfaGraph, pushed, currentDFA.key, labels + {symbol.content}, nfa, u)
      ensures dfaStateSet.Keys <= old(dfaStateSet).Keys + {Target(nfa, currentDFA.nfaStates, symbol.content)}
    {
      ghost var ss1, g1 := dfaStateSet, dfaGraph;
      var closureNFASet := Successor(currentDFA, symbol, nfa);
      var dfaState, added := Intern(closureNFASet, nfa);
      pushed := pushed0;
      if added {
        pushed := pushed + [dfaState];
      }
      AddEdge(currentDFA, symbol, dfaState);
      ExploredStep(ss0, g0, ss1, g1, pushed0, currentDFA.key, labels, nfa, u, symbol.content, dfaState, added);
    }

    /** The body of the construction loop for one popped DFA state: an edge
        for every symbol other than ε, and the new states pushed. */
    method Explore(currentDFA: DFAState, symbols: seq<Symbol>, ghost nfa: NfaEdges, ghost u: set<string>)
      returns (pushed: seq<DFAState>)
      requires Valid() && Within(nfa) && Mirrors(nfa) && NfaClosed(nfa) && Covers(u, nfa)
      requires currentDFA.key in dfaStateSet && dfaStateSet[currentDFA.key] == currentDFA
      modifies this, registry
      ensures Valid() && Within(nfa)
      ensures Explored(old(dfaStateSet), old(dfaGraph), dfaStateSet, dfaGraph, pushed,
                       currentDFA.key, LabelsOf(symbols), nfa, u)
      ensures FromState(old(dfaStateSet), dfaStateSet, currentDFA.nfaStates, LabelsOf(symbols), nfa)
    {
      pushed := [];
      assert symbols[..0] == [];
      for i := 0 to |symbols|
        invariant Valid() && Within(nfa) && Mirrors(nfa)
        invariant currentDFA.key in dfaStateSet && dfaStateSet[currentDFA.key] == currentDFA
        invariant Explored(old(dfaStateSet), old(dfaGraph), dfaStateSet, dfaGraph, pushed,
                           currentDFA.key, LabelsOf(symbols[..i]), nfa, u)
        invariant FromState(old(dfaStateSet), dfaStateSet, currentDFA.nfaStates, LabelsOf(symbols[..i]), nfa)
      {
        LabelsOfStep(symbols, i);
        if symbols[i].content != EPSILON {
          ghost var ss1 := dfaStateSet;
          pushed := Follow(currentDFA, symbols[i], pushed, nfa, old(dfaStateSet), old(dfaGraph),
                           LabelsOf(symbols[..i]), u);
          FromStateStep(old(dfaStateSet), ss1, dfaStateSet, currentDFA.nfaStates, LabelsOf(symbols[..i]), nfa,
                        symbols[i].content);
        }
      }
      assert symbols[..|symbols|] == symbols;
    }

    /** The start of NFAToDFA: the DFA state for the ε-closure of the NFA's
        start state, added to the state set unless its key is there. */
    method Start(startNFA: NFAState, ghost nfa: NfaEdges) returns (startDFA: DFAState)
      requires Valid() && Within(nfa) && Mirrors(nfa) && NfaClosed(nfa) && startNFA in nfa
      modifies this, registry
      ensures Valid() && Within(nfa) && dfaGraph == old(dfaGraph)
      ensures startDFA.key == StartKey(nfa, startNFA)
      ensures startDFA.key in old(dfaStateSet) ==> old(dfaStateSet)[startDFA.key] == startDFA
      ensures dfaStateSet == if startDFA.key in old(dfaStateSet) then old(dfaStateSet)
                             else old(dfaStateSet)[startDFA.key := startDFA]
    {
      var startNFASet := Closure({startNFA}, nfa);
      ghost var reg1 := registry.states;
      startDFA := registry.Create(startNFASet);
      InternStep(reg1, registry.states, dfaStateSet, startDFA, startNFASet, nfa);
      if startDFA.key !in dfaStateSet {
        dfaStateSet := dfaStateSet[startDFA.key := startDFA];
      }
    }

    /** One round of the construction loop: pop a DFA state and explore
        it under every symbol of the terminal set. */
    method Round(dfaStateStack: seq<DFAState>, vtSet: set<Symbol>, ghost nfa: NfaEdges, ghost u: set<string>,
                 ghost ss0: map<string, DFAState>, ghost g0: map<string, map<string, DFAState>>, ghost sk: string,
                 ghost order: seq<string>)
      returns (stack: seq<DFAState>, ghost order': seq<string>)
      requires Valid() && Within(nfa) && Mirrors(nfa) && NfaClosed(nfa) && Covers(u, nfa) && dfaStateStack != []
      requires Construction(ss0, g0, dfaStateSet, dfaGraph, dfaStateStack, sk, Labels(vtSet), nfa)
      requires NewKeysIn(ss0, dfaStateSet, u)
      requires Discovered(ss0, dfaStateSet, order, sk, Labels(vtSet), nfa)
      requires forall d :: d in dfaStateStack ==> d.key in order
      modifies this, registry
      ensures Valid() && Within(nfa)
      ensures Construction(ss0, g0, dfaStateSet, dfaGraph, stack, sk, Labels(vtSet), nfa)
      ensures NewKeysIn(ss0, dfaStateSet, u)
      ensures Discovered(ss0, dfaStateSet, order', sk, Labels(vtSet), nfa)
      ensures forall d :: d in stack ==> d.key in order'
      ensures u - dfaStateSet.Keys < u - old(dfaStateSet).Keys ||
              (u - dfaStateSet.Keys == u - old(dfaStateSet).Keys && |stack| < |dfaStateStack|)
    {
      var currentDFA := dfaStateStack[|dfaStateStack| - 1];
      var rest := dfaStateStack[..|dfaStateStack| - 1];
      assert dfaStateStack == rest + [currentDFA];
      assert currentDFA in dfaStateStack;
      var symbols := Enumerate(vtSet);
      LabelsOfEnumeration(symbols, vtSet);
      var pushed := Explore(currentDFA, symbols, nfa, u);
      ConstructionStep(ss0, g0, old(dfaStateSet), old(dfaGraph), dfaStateSet, dfaGraph,
                       rest, currentDFA, pushed, sk, Labels(vtSet), nfa, u);
      ghost var m :| 0 <= m < |order| && order[m] == currentDFA.key;
      DiscoveredStep(ss0, old(dfaStateSet), old(dfaGraph), dfaStateSet, dfaGraph, order, m, pushed,
                     sk, Labels(vtSet), nfa, u);
      stack, order' := rest + pushed, order + KeysOf(pushed);
      forall d | d in stack ensures d.key in order' {
        if d in rest {
          assert d in dfaStateStack;
        }
      }
    }

    /** NFAToDFA: the subset construction from the NFA's start state over
        the labels of the terminal set, in place on the state set and the
        graph. Every state it adds, and the start state, ends with an edge
        for every label to the state interned for the ε-closure of the
        move; the edges of the other states it found are left alone; and
        order lists the states it adds, each reachable from the start
        state. */
    method NFAToDFA(startNFA: NFAState, vtSet: set<Symbol>, ghost nfa: NfaEdges) returns (ghost order: seq<string>)
      requires Valid() && Within(nfa) && Mirrors(nfa) && NfaClosed(nfa) && startNFA in nfa
      modifies this, registry
      ensures Valid() && Within(nfa)
      ensures Construction(old(dfaStateSet), old(dfaGraph), dfaStateSet, dfaGraph, [],
                           StartKey(nfa, startNFA), Labels(vtSet), nfa)
      ensures Discovered(old(dfaStateSet), dfaStateSet, order, StartKey(nfa, startNFA), Labels(vtSet), nfa)
    {
      ghost var u := KeyUniverse(nfa);
      var startDFA := Start(startNFA, nfa);
      ConstructionStart(old(dfaStateSet), old(dfaGraph), dfaStateSet, startDFA, Labels(vtSet), nfa, u);
      var dfaStateStack := [startDFA];
      order := [startDFA.key];
      while dfaStateStack != []
        invariant Valid() && Within(nfa) && Mirrors(nfa)
        invariant Construction(old(dfaStateSet), old(dfaGraph), dfaStateSet, dfaGraph, dfaStateStack,
                               startDFA.key, Labels(vtSet), nfa)
        invariant NewKeysIn(old(dfaStateSet), dfaStateSet, u)
        invariant Discovered(old(dfaStateSet), dfaStateSet, order, startDFA.key, Labels(vtSet), nfa)
        invariant forall d :: d in dfaStateStack ==> d.key in order
        decreases u - dfaStateSet.Keys, |dfaStateStack|
      {
        dfaStateStack, order := Round(dfaStateStack, vtSet, nfa, u, old(dfaStateSet), old(dfaGraph), startDFA.key, order);
      }
    }
  }
}
