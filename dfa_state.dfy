/** States of the DFA built by the subset construction: each holds a set of
    NFA states and is interned under a key made of their ids. */
module DfaStates {
  import opened Strings
  import opened Collections
  import opened Nfa

  const COMMA: char := ','

  /** The ids' contents of a listing of NFA states, in the same order. */
  function Ids(xs: seq<NFAState>): seq<string> {
    seq(|xs|, i requires 0 <= i < |xs| => xs[i].id.content)
  }

  /** Listing ids distributes over concatenation. */
  lemma IdsAppend(xs: seq<NFAState>, ys: seq<NFAState>)
    ensures Ids(xs + ys) == Ids(xs) + Ids(ys)
  {
  }

  /** Taking the k-th state out of a listing takes its id out of the ids. */
  lemma IdsRemove(ys: seq<NFAState>, k: int)
    requires 0 <= k < |ys|
    ensures multiset(Ids(ys)) == multiset(Ids(ys[..k] + ys[k + 1..])) + multiset{ys[k].id.content}
  {
    assert ys == ys[..k] + [ys[k]] + ys[k + 1..];
    IdsAppend(ys[..k] + [ys[k]], ys[k + 1..]);
    IdsAppend(ys[..k], [ys[k]]);
    IdsAppend(ys[..k], ys[k + 1..]);
  }

  /** Taking the k-th state out of a listing takes it out of the multiset. */
  lemma RemoveAt(ys: seq<NFAState>, k: int)
    requires 0 <= k < |ys|
    ensures multiset(ys[..k] + ys[k + 1..]) == multiset(ys) - multiset{ys[k]}
  {
    assert ys == ys[..k] + [ys[k]] + ys[k + 1..];
  }

  /** Matching the first state of xs with the k-th of ys: the ids agree as
      multisets when those of the remainders do. */
  lemma IdsMatchFirst(xs: seq<NFAState>, ys: seq<NFAState>, k: int)
    requires xs != [] && 0 <= k < |ys| && ys[k] == xs[0]
    requires multiset(Ids(xs[1..])) == multiset(Ids(ys[..k] + ys[k + 1..]))
    ensures multiset(Ids(xs)) == multiset(Ids(ys))
  {
    IdsRemove(ys, k);
    IdsRemove(xs, 0);
    assert xs[..0] + xs[1..] == xs[1..];
  }

  /** Listings of the same states list the same ids, counted with
      multiplicity. */
  lemma {:induction false} IdsPermutation(xs: seq<NFAState>, ys: seq<NFAState>)
    requires multiset(xs) == multiset(ys)
    ensures multiset(Ids(xs)) == multiset(Ids(ys))
    decreases |xs|
  {
    if xs == [] {
      assert |ys| == |multiset(ys)| == 0;
    } else {
      assert xs[0] in multiset(ys);
      var k :| 0 <= k < |ys| && ys[k] == xs[0];
      RemoveAt(ys, k);
      RemoveAt(xs, 0);
      assert xs[..0] + xs[1..] == xs[1..];
      IdsPermutation(xs[1..], ys[..k] + ys[k + 1..]);
      IdsMatchFirst(xs, ys, k);
    }
  }

  /** The strings separated by sep; no strings give "". */
  function Join(xs: seq<string>, sep: char): string {
    if xs == [] then [] else if |xs| == 1 then xs[0] else xs[0] + [sep] + Join(xs[1..], sep)
  }

  /** Appending each string and a separator, then deleting the last
      character when there is one, joins the strings. */
  lemma {:induction false} JoinTerminated(xs: seq<string>, sep: char)
    ensures xs == [] ==> Terminated(xs, sep) == []
    ensures xs != [] ==> Terminated(xs, sep) == Join(xs, sep) + [sep]
  {
    if |xs| > 1 {
      JoinTerminated(xs[1..], sep);
    }
  }

  /** The key of a set of NFA states: their ids' contents in ascending
      order, joined by ','. */
  ghost function KeyOfStates(states: set<NFAState>): string {
    Join(Sort(Ids(Enumeration(states))), COMMA)
  }

  /** Any listing of the states gives the key: it does not depend on the
      order in which the hash set is visited. */
  lemma KeyOfAnyOrder(states: set<NFAState>, xs: seq<NFAState>)
    requires multiset(xs) == multiset(states)
    ensures Join(Sort(Ids(xs)), COMMA) == KeyOfStates(states)
  {
    IdsPermutation(xs, Enumeration(states));
    SortOrderIndependent(Ids(xs), Ids(Enumeration(states)));
  }

  /** The key looks at the ids only: distinct state objects with the same
      ids (counted with multiplicity) share a key, and so one DFA state. */
  lemma KeyDependsOnIdsOnly(a: set<NFAState>, b: set<NFAState>, xs: seq<NFAState>, ys: seq<NFAState>)
    requires multiset(xs) == multiset(a) && multiset(ys) == multiset(b)
    requires multiset(Ids(xs)) == multiset(Ids(ys))
    ensures KeyOfStates(a) == KeyOfStates(b)
  {
    KeyOfAnyOrder(a, xs);
    KeyOfAnyOrder(b, ys);
    SortOrderIndependent(Ids(xs), Ids(ys));
  }

  /** The empty set has the empty key; one state has its id as the key. */
  lemma KeySmallSets(s: NFAState)
    ensures KeyOfStates({}) == ""
    ensures KeyOfStates({s}) == s.id.content
  {
    KeyOfAnyOrder({}, []);
    KeyOfAnyOrder({s}, [s]);
    assert Ids([s]) == [s.id.content];
  }

  /** The key builder: lists the states, sorts their ids, appends each with
      a ',' and deletes the trailing ','. */
  method ComputeKey(states: set<NFAState>) returns (key: string)
    ensures key == KeyOfStates(states)
  {
    var listed := Enumerate(states);
    var sorted := Sort(Ids(listed));
    KeyOfAnyOrder(states, listed);
    var buffer := "";
    for i := 0 to |sorted|
      invariant buffer == Terminated(sorted[..i], COMMA)
    {
      TerminatedPrefix(sorted, i, COMMA);
      buffer := buffer + sorted[i] + [COMMA];
    }
    assert sorted[..|sorted|] == sorted;
    JoinTerminated(sorted, COMMA);
    if |buffer| > 0 {
      buffer := buffer[..|buffer| - 1];
    }
    key := buffer;
  }

  /** Some state of the set is a start state. */
  ghost predicate AnyStart(states: set<NFAState>)
    reads states
  {
    exists s :: s in states && s.isStart
  }

  /** Some state of the set is an end state. */
  predicate AnyEnd(states: set<NFAState>) {
    exists s :: s in states && s.isEnd
  }

  /** The loop over the NFA states that sets the start and end flags. */
  method Flags(nfaStates: set<NFAState>) returns (isStart: bool, isEnd: bool)
    ensures isStart <==> AnyStart(nfaStates)
    ensures isEnd <==> AnyEnd(nfaStates)
  {
    var listed := Enumerate(nfaStates);
    EnumerationMembers(listed, nfaStates);
    isStart, isEnd := false, false;
    for i := 0 to |listed|
      invariant isStart <==> exists j :: 0 <= j < i && listed[j].isStart
      invariant isEnd <==> exists j :: 0 <= j < i && listed[j].isEnd
    {
      if listed[i].isStart {
        isStart := true;
      }
      if listed[i].isEnd {
        isEnd := true;
      }
    }
  }

  /** A DFA state; its fields never change. */
  class DFAState {
    const nfaStates: set<NFAState>
    const isStart: bool
    const isEnd: bool
    const key: string

    /** The constructor registers the new state under its key. */
    constructor (nfaStates: set<NFAState>, isStart: bool, isEnd: bool, key: string, registry: DFAMap)
      modifies registry
      ensures this.nfaStates == nfaStates && this.isStart == isStart
      ensures this.isEnd == isEnd && this.key == key
      ensures registry.states == old(registry.states)[key := this]
    {
      this.nfaStates := nfaStates;
      this.isStart := isStart;
      this.isEnd := isEnd;
      this.key := key;
      new;
      registry.states := registry.states[key := this];
    }
  }

  /** equals and hashCode: by key. */
  predicate SameState(a: DFAState, b: DFAState) {
    a.key == b.key
  }

  /** The registry of DFA states (the static DFAMap), by key. */
  class DFAMap {
    var states: map<string, DFAState>

    /** Every state is registered under its own key. */
    ghost predicate Valid()
      reads this
    {
      forall k :: k in states ==> states[k].key == k
    }

    constructor ()
      ensures Valid() && states == map[]
    {
      states := map[];
    }

    /** DFAState.create: the state already registered under the key of
        nfaStates, or a new one whose flags say whether some NFA state is a
        start or an end state. */
    method Create(nfaStates: set<NFAState>) returns (d: DFAState)
      requires Valid()
      modifies this
      ensures Valid()
      ensures d.key == KeyOfStates(nfaStates) && d.key in states && states[d.key] == d
      ensures d.key in old(states) ==> d == old(states)[d.key] && states == old(states)
      ensures d.key !in old(states) ==>
        fresh(d) && d.nfaStates == nfaStates && states == old(states)[d.key := d] &&
        (d.isStart <==> AnyStart(nfaStates)) && (d.isEnd <==> AnyEnd(nfaStates))
    {
      var key := ComputeKey(nfaStates);
      if key in states {
        return states[key];
      }
      var isStart, isEnd := Flags(nfaStates);
      d := new DFAState(nfaStates, isStart, isEnd, key, this);
    }

    /** Among registered states, equality by key is identity. */
    lemma RegisteredIdentity(a: DFAState, b: DFAState)
      requires Valid() && a in states.Values && b in states.Values
      ensures SameState(a, b) <==> a == b
    {
      var ka :| ka in states && states[ka] == a;
      var kb :| kb in states && states[kb] == b;
    }
  }
}
