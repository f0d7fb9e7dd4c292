/** ParserUtils: the reader of right-linear grammars, one production per
    line, and the NFA built from them. */
module Parser {
  import opened Outcomes
  import opened Symbols
  import opened Productions
  import opened Nfa

  /** The index of the first '-' of the line; none when there is none. */
  function DashIndex(line: string): (r: Option<nat>)
    ensures r.None? <==> '-' !in line
    ensures r.Some? ==> r.value < |line| && line[r.value] == '-' && '-' !in line[..r.value]
  {
    if line == [] then None
    else if line[0] == '-' then Some(0)
    else match DashIndex(line[1..])
      case None => None
      case Some(i) =>
        assert line[..i + 1] == [line[0]] + line[1..][..i];
        Some(i + 1)
  }

  /** The production one line describes: the left side is the text before
      the first '-', the terminal the single character two places after it
      (the '>' of "->" is skipped unread), and the nonterminal the rest of
      the line, left out of the right side when empty. A line with no '-',
      or ending before the terminal, fails on an index out of bounds. */
  function LineProduction(line: string): Result<Production> {
    match DashIndex(line)
    case None => Err(IndexOutOfBounds)
    case Some(d) =>
      if d + 2 >= |line| then Err(IndexOutOfBounds)
      else
        var vt := NewSymbol([line[d + 2]]);
        var vn := line[d + 3..];
        Ok(Production(NewSymbol(line[..d]), if vn == [] then [vt] else [vt, NewSymbol(vn)]))
  }

  /** The text of a production of a right-linear grammar: left side, '-',
      one character standing for '>', the terminal, and the nonterminal. */
  function LineText(left: string, arrow: char, vt: char, vn: string): string {
    left + ['-', arrow, vt] + vn
  }

  /** Reading a written production gives it back: a left side without '-',
      a one-character terminal and a possibly empty nonterminal. */
  lemma ParsesWritten(left: string, arrow: char, vt: char, vn: string)
    requires '-' !in left
    ensures LineProduction(LineText(left, arrow, vt, vn)) ==
      Ok(Production(NewSymbol(left), if vn == [] then [NewSymbol([vt])] else [NewSymbol([vt]), NewSymbol(vn)]))
  {
    var line := LineText(left, arrow, vt, vn);
    assert line == left + (['-', arrow, vt] + vn);
    DashAfter(left, ['-', arrow, vt] + vn);
    assert DashIndex(line) == Some(|left|);
    assert line[|left| + 2] == vt;
    assert line[..|left|] == left;
    assert line[|left| + 3..] == vn;
  }

  lemma {:induction false} DashAfter(left: string, rest: string)
    requires '-' !in left && rest != [] && rest[0] == '-'
    ensures DashIndex(left + rest) == Some(|left|)
  {
    if left != [] {
      assert (left + rest)[1..] == left[1..] + rest;
      DashAfter(left[1..], rest);
    }
  }

  /** Every line read is a written production: the line reassembles from
      the production's symbols, the terminal is one character and the
      right side has one or two symbols. A line fails exactly when it has
      no '-' or ends less than three characters after the first one. */
  lemma LineShape(line: string)
    ensures LineProduction(line).Err? <==>
      '-' !in line || DashIndex(line).value + 2 >= |line|
    ensures LineProduction(line).Ok? ==>
      var p := LineProduction(line).value;
      ShapedProduction(p) && |p.right[0].content| == 1 && '-' !in p.left.content &&
      (|p.right| == 2 ==> p.right[1].content != []) &&
      line == LineText(p.left.content, line[|p.left.content| + 1], p.right[0].content[0],
                       if |p.right| == 2 then p.right[1].content else [])
  {
    if LineProduction(line).Ok? {
      var d := DashIndex(line).value;
      assert line == line[..d] + ['-', line[d + 1], line[d + 2]] + line[d + 3..];
    }
  }

  /** The first loop over a line: the characters up to the first '-'.
      Without a '-', charAt runs past the end. */
  method ReadLeft(line: string) returns (left: string, found: bool)
    ensures found <==> '-' in line
    ensures found ==> DashIndex(line) == Some(|left|) && left == line[..|left|]
  {
    left := "";
    var index := 0;
    var length := |line|;
    while true
      invariant 0 <= index <= length && left == line[..index] && '-' !in left
      decreases length - index
    {
      if index >= length {
        assert left == line;
        return left, false;
      }
      if line[index] == '-' {
        break;
      }
      left := left + [line[index]];
      index := index + 1;
    }
    assert line == left + line[index..];
    DashAfter(left, line[index..]);
    found := true;
  }

  /** The last loop over a line: the characters from position from on. */
  method ReadTail(line: string, from: int) returns (tail: string)
    requires 0 <= from <= |line|
    ensures tail == line[from..]
  {
    tail := "";
    var index := from;
    while index < |line|
      invariant from <= index <= |line| && tail == line[from..index]
    {
      tail := tail + [line[index]];
      index := index + 1;
    }
  }

  /** The loop of readParseTXT over one line: the left side up to the
      first '-', the character two places on as the terminal, the rest as
      the nonterminal. charAt past the end fails. */
  method ParseLine(line: string) returns (r: Result<Production>)
    ensures r == LineProduction(line)
  {
    var startString, found := ReadLeft(line);
    if !found {
      return Err(IndexOutOfBounds);
    }
    var index := |startString| + 2;
    if index >= |line| {
      return Err(IndexOutOfBounds);
    }
    var vtString := [line[index]];
    var vnString := ReadTail(line, index + 1);
    var startSymbol := NewSymbol(startString);
    var vtSymbol := NewSymbol(vtString);
    var vnSymbol := NewSymbol(vnString);
    var symbolList := [vtSymbol];
    if |vnString| != 0 {
      symbolList := symbolList + [vnSymbol];
    }
    r := Ok(Production(startSymbol, symbolList));
    ghost var dash := |startString|;
    assert symbolList == if line[dash + 3..] == [] then [NewSymbol([line[dash + 2]])]
      else [NewSymbol([line[dash + 2]]), NewSymbol(line[dash + 3..])];
  }

  /** The productions of the lines, up to the first line that fails. */
  function Parsed(lines: seq<string>): seq<Production> {
    if lines == [] || LineProduction(lines[0]).Err? then []
    else [LineProduction(lines[0]).value] + Parsed(lines[1..])
  }

  /** Every line parses. */
  predicate AllParse(lines: seq<string>) {
    forall i :: 0 <= i < |lines| ==> LineProduction(lines[i]).Ok?
  }

  /** The productions read are those of the first lines, in order; when a
      line fails, it is the one right after them. */
  lemma {:induction false} ParsedLines(lines: seq<string>)
    ensures |Parsed(lines)| <= |lines|
    ensures forall i :: 0 <= i < |Parsed(lines)| ==> LineProduction(lines[i]) == Ok(Parsed(lines)[i])
    ensures AllParse(lines) <==> |Parsed(lines)| == |lines|
    ensures |Parsed(lines)| < |lines| ==> LineProduction(lines[|Parsed(lines)|]).Err?
  {
    if lines != [] && LineProduction(lines[0]).Ok? {
      ParsedLines(lines[1..]);
      assert forall i :: 1 <= i < |lines| ==> lines[1..][i - 1] == lines[i];
    }
  }

  /** The terminals a list of productions of the reader adds to vtSet,
      one production after the other: the first symbol of each right side. */
  function Terminals(ps: seq<Production>): set<Symbol> {
    if ps == [] then {}
    else
      var p := ps[|ps| - 1];
      Terminals(ps[..|ps| - 1]) + (if p.right != [] then {p.right[0]} else {})
  }

  /** The nonterminals it adds to vnSet: every left side, and every second
      symbol of a right side. */
  function Nonterminals(ps: seq<Production>): set<Symbol> {
    if ps == [] then {}
    else
      var p := ps[|ps| - 1];
      Nonterminals(ps[..|ps| - 1]) + {p.left} + (if |p.right| >= 2 then {p.right[1]} else {})
  }

  /** The two sets as the symbols they collect: the order of the
      productions does not matter. */
  lemma {:induction false} SymbolSets(ps: seq<Production>)
    ensures forall t :: t in Terminals(ps) <==> exists p :: p in ps && p.right != [] && p.right[0] == t
    ensures forall n :: n in Nonterminals(ps) <==>
      exists p :: p in ps && (p.left == n || (|p.right| >= 2 && p.right[1] == n))
    decreases |ps|
  {
    if ps != [] {
      var init, p := ps[..|ps| - 1], ps[|ps| - 1];
      assert ps == init + [p];
      assert forall q :: q in ps <==> q in init || q == p;
      SymbolSets(init);
    }
  }

  /** The right sides the reader builds: a terminal, then possibly a
      nonterminal. */
  predicate Shaped(ps: seq<Production>) {
    forall p :: p in ps ==> ShapedProduction(p)
  }

  /** A production of the reader: a terminal, then possibly a
      nonterminal; its left side and nonterminal are not end markers. */
  predicate ShapedProduction(p: Production) {
    1 <= |p.right| <= 2 && !p.left.isEnd && (|p.right| == 2 ==> !p.right[1].isEnd)
  }

  /** Reading line i after the productions of the lines before it: when
      the line parses, its production is the next one of Parsed. */
  lemma {:induction false} ParsedNext(lines: seq<string>, i: int)
    requires 0 <= i < |lines| && i <= |Parsed(lines)| && LineProduction(lines[i]).Ok?
    ensures i < |Parsed(lines)|
    ensures Parsed(lines)[..i + 1] == Parsed(lines)[..i] + [LineProduction(lines[i]).value]
    decreases i
  {
    var parsed := Parsed(lines);
    if i > 0 {
      var rest := Parsed(lines[1..]);
      assert parsed == [parsed[0]] + rest;
      assert lines[1..][i - 1] == lines[i];
      ParsedNext(lines[1..], i - 1);
      assert parsed[..i + 1] == [parsed[0]] + rest[..i];
      assert parsed[..i] == [parsed[0]] + rest[..i - 1];
    }
  }

  /** A failing line i after the productions of the lines before it ends
      the reading: Parsed holds no more productions. */
  lemma ParsedStop(lines: seq<string>, i: int)
    requires 0 <= i < |lines| && i <= |Parsed(lines)| && LineProduction(lines[i]).Err?
    ensures Parsed(lines)[..i] == Parsed(lines) && !AllParse(lines)
  {
    ParsedLines(lines);
  }

  /** Once every line is read, all of them parsed. */
  lemma ParsedAll(lines: seq<string>)
    requires |lines| <= |Parsed(lines)|
    ensures Parsed(lines)[..|lines|] == Parsed(lines) && AllParse(lines)
  {
    ParsedLines(lines);
  }

  /** Everything the reader produces is a line's production: one or two
      symbols on the right, and one-character terminals. */
  lemma ParsedShaped(lines: seq<string>)
    ensures Shaped(Parsed(lines))
    ensures forall t :: t in Terminals(Parsed(lines)) ==> |t.content| == 1
  {
    ParsedLines(lines);
    forall p | p in Parsed(lines)
      ensures ShapedProduction(p) && |p.right[0].content| == 1
    {
      var i :| 0 <= i < |Parsed(lines)| && Parsed(lines)[i] == p;
      LineShape(lines[i]);
    }
    SymbolSets(Parsed(lines));
  }

  lemma LineProductionShaped(line: string)
    ensures LineProduction(line).Ok? ==> ShapedProduction(LineProduction(line).value)
  {
  }

  lemma TerminalsAppend(ps: seq<Production>, p: Production)
    ensures Terminals(ps + [p]) == Terminals(ps) + (if p.right != [] then {p.right[0]} else {})
    ensures Nonterminals(ps + [p]) == Nonterminals(ps) + {p.left} + (if |p.right| >= 2 then {p.right[1]} else {})
  {
    assert (ps + [p])[..|ps|] == ps;
  }

  /** The edge label of a production: its terminal's content. */
  function Label(p: Production): string
    requires p.right != []
  {
    p.right[0].content
  }

  /** The symbol of the state a production leads to: the end state for
      A->b, B's state for A->bB. */
  function TargetOf(p: Production): Symbol
    requires p.right != []
  {
    if |p.right| == 1 then END_STATE_ID else p.right[1]
  }

  /** Every production's target has a state in the map. */
  ghost predicate TargetsIn(ps: seq<Production>, states: map<Symbol, NFAState>) {
    forall p :: p in ps ==> p.right != [] && TargetOf(p) in states
  }

  /** The transition map of the state of X after the productions, from
      the transition map e0: each production of X adds one edge, labelled
      by its terminal, to the state of its target. */
  ghost function Out(e0: map<string, set<NFAState>>, ps: seq<Production>, x: Symbol,
                     states: map<Symbol, NFAState>): map<string, set<NFAState>>
    requires TargetsIn(ps, states)
    decreases |ps|
  {
    if ps == [] then e0
    else
      var p := ps[|ps| - 1];
      assert forall q :: q in ps[..|ps| - 1] ==> q in ps;
      var e := Out(e0, ps[..|ps| - 1], x, states);
      if p.left == x then WithEdge(e, Label(p), states[TargetOf(p)]) else e
  }

  /** The successors under a label in a transition map; none when the
      label is absent. */
  function Lookup(edges: map<string, set<NFAState>>, l: string): set<NFAState> {
    if l in edges then edges[l] else {}
  }

  /** The successors of X's state under l, in closed form. */
  ghost function Succs(e0: map<string, set<NFAState>>, ps: seq<Production>, x: Symbol,
                       states: map<Symbol, NFAState>, l: string): set<NFAState>
    requires TargetsIn(ps, states)
  {
    Lookup(e0, l) + set p | p in ps && p.left == x && Label(p) == l :: states[TargetOf(p)]
  }

  /** The labels of X's state after the productions: the old ones and the
      terminals of X's productions. */
  lemma {:induction false} OutLabels(e0: map<string, set<NFAState>>, ps: seq<Production>, x: Symbol,
                                     states: map<Symbol, NFAState>)
    requires TargetsIn(ps, states)
    ensures Out(e0, ps, x, states).Keys == e0.Keys + set p | p in ps && p.left == x :: Label(p)
    decreases |ps|
  {
    if ps != [] {
      var p, init := ps[|ps| - 1], ps[..|ps| - 1];
      assert ps == init + [p];
      assert forall q :: q in ps <==> q in init || q == p;
      OutLabels(e0, init, x, states);
      assert (set q | q in ps && q.left == x :: Label(q)) ==
        (set q | q in init && q.left == x :: Label(q)) + (if p.left == x then {Label(p)} else {});
    }
  }

  /** The successors of X's state under one label l after the productions:
      the old ones and the targets' states of X's productions labelled l;
      none when neither has any. */
  lemma {:induction false} OutSuccessors(e0: map<string, set<NFAState>>, ps: seq<Production>, x: Symbol,
                                         states: map<Symbol, NFAState>, l: string)
    requires TargetsIn(ps, states)
    ensures Lookup(Out(e0, ps, x, states), l) == Succs(e0, ps, x, states, l)
    decreases |ps|
  {
    if ps != [] {
      var p, init := ps[|ps| - 1], ps[..|ps| - 1];
      assert ps == init + [p];
      assert forall q :: q in ps <==> q in init || q == p;
      OutStep(e0, init, p, x, states);
      OutSuccessors(e0, init, x, states, l);
      var before := Out(e0, init, x, states);
      if p.left == x && Label(p) == l {
        assert Lookup(Out(e0, ps, x, states), l) == Lookup(before, l) + {states[TargetOf(p)]};
      } else {
        assert Lookup(Out(e0, ps, x, states), l) == Lookup(before, l);
      }
      assert (set q | q in ps && q.left == x && Label(q) == l :: states[TargetOf(q)]) ==
        (set q | q in init && q.left == x && Label(q) == l :: states[TargetOf(q)]) +
        (if p.left == x && Label(p) == l then {states[TargetOf(p)]} else {});
    }
  }

  /** The built transition map in closed form: its labels are the old
      ones and the terminals of X's productions, and under each label lie
      the old successors and the states of the targets of X's productions
      with that terminal; a label of neither kind has no successors. The
      order of the productions does not matter. */
  lemma OutClosedForm(e0: map<string, set<NFAState>>, ps: seq<Production>, x: Symbol,
                      states: map<Symbol, NFAState>)
    requires TargetsIn(ps, states)
    ensures Out(e0, ps, x, states).Keys == e0.Keys + set p | p in ps && p.left == x :: Label(p)
    ensures forall l :: Lookup(Out(e0, ps, x, states), l) == Succs(e0, ps, x, states, l)
  {
    OutLabels(e0, ps, x, states);
    forall l
      ensures Lookup(Out(e0, ps, x, states), l) == Succs(e0, ps, x, states, l)
    {
      OutSuccessors(e0, ps, x, states, l);
    }
  }

  /** Out looks at the states of targets only: extending the map changes
      nothing. */
  lemma {:induction false} OutExtends(e0: map<string, set<NFAState>>, ps: seq<Production>, x: Symbol,
                                      states: map<Symbol, NFAState>, states': map<Symbol, NFAState>)
    requires TargetsIn(ps, states)
    requires forall y :: y in states ==> y in states' && states'[y] == states[y]
    ensures TargetsIn(ps, states')
    ensures Out(e0, ps, x, states') == Out(e0, ps, x, states)
    decreases |ps|
  {
    if ps != [] {
      assert forall q :: q in ps[..|ps| - 1] ==> q in ps;
      OutExtends(e0, ps[..|ps| - 1], x, states, states');
    }
  }

  /** One more production: only its left side's transition map changes. */
  lemma OutStep(e0: map<string, set<NFAState>>, ps: seq<Production>, p: Production, x: Symbol,
                states: map<Symbol, NFAState>)
    requires TargetsIn(ps + [p], states)
    ensures TargetsIn(ps, states)
    ensures Out(e0, ps + [p], x, states) ==
      if p.left == x then WithEdge(Out(e0, ps, x, states), Label(p), states[TargetOf(p)])
      else Out(e0, ps, x, states)
  {
    assert (ps + [p])[..|ps|] == ps;
  }

  /** A symbol with no production keeps its transition map. */
  lemma {:induction false} OutNoProduction(e0: map<string, set<NFAState>>, ps: seq<Production>, x: Symbol,
                                           states: map<Symbol, NFAState>)
    requires TargetsIn(ps, states)
    requires forall p :: p in ps ==> p.left != x
    ensures Out(e0, ps, x, states) == e0
    decreases |ps|
  {
    if ps != [] {
      assert forall q :: q in ps[..|ps| - 1] ==> q in ps;
      OutNoProduction(e0, ps[..|ps| - 1], x, states);
    }
  }

  /** Each state is kept under its own symbol; so one symbol, one state. */
  ghost predicate OwnIds(states: map<Symbol, NFAState>) {
    forall y :: y in states ==> states[y].id == y
  }

  /** The ghost value e holds the transition map of every state. */
  ghost predicate Mirrors(states: map<Symbol, NFAState>, e: map<Symbol, map<string, set<NFAState>>>)
    reads states.Values
  {
    forall y {:trigger states[y].edges} :: y in states ==> y in e && states[y].edges == e[y]
  }

  /** The transition map a state starts the wiring with: the one it had,
      or none for a state made by this run. */
  function Base(e: map<Symbol, map<string, set<NFAState>>>, y: Symbol): map<string, set<NFAState>> {
    if y in e then e[y] else map[]
  }

  /** The wiring invariant: the states are the reused ones, the start and
      end states and those of the symbols of the productions wired so far,
      and each one's transition map is its base one after those
      productions. */
  ghost predicate Wiring(states: map<Symbol, NFAState>, e: map<Symbol, map<string, set<NFAState>>>,
                         e0: map<Symbol, map<string, set<NFAState>>>, sk: Symbol, ps: seq<Production>)
  {
    Shaped(ps) && e.Keys == states.Keys &&
    states.Keys == e0.Keys + Nonterminals(ps) + {END_STATE_ID, sk} &&
    TargetsIn(ps, states) &&
    forall y {:trigger Out(Base(e0, y), ps, y, states)} :: y in e ==> e[y] == Out(Base(e0, y), ps, y, states)
  }

  /** The start of the wiring, no production wired yet: the reused states
      keep their transition maps and the two new ones have none. */
  lemma WiringStart(states: map<Symbol, NFAState>, e0: map<Symbol, map<string, set<NFAState>>>, sk: Symbol)
    returns (e: map<Symbol, map<string, set<NFAState>>>)
    requires states.Keys == e0.Keys + {END_STATE_ID, sk}
    requires forall y :: y in e0 ==> states[y].edges == e0[y]
    requires states[END_STATE_ID].edges == map[] && states[sk].edges == map[]
    ensures Mirrors(states, e) && Wiring(states, e, e0, sk, [])
  {
    e := map y | y in states :: Base(e0, y);
    forall y | y in states ensures y in e && states[y].edges == e[y] {
      if y != sk && y != END_STATE_ID {
        assert y in e0;
      }
    }
  }

  /** One more production, for the transition map of one symbol y: ey is
      y's map before it (its base map when y has no state yet). */
  lemma OutAfter(e0y: map<string, set<NFAState>>, ps: seq<Production>, p: Production, y: Symbol,
                 states: map<Symbol, NFAState>, states': map<Symbol, NFAState>, ey: map<string, set<NFAState>>)
    requires TargetsIn(ps, states) && TargetsIn(ps + [p], states')
    requires forall x :: x in states ==> x in states' && states'[x] == states[x]
    requires y in states ==> ey == Out(e0y, ps, y, states)
    requires y !in states ==> ey == e0y && forall q :: q in ps ==> q.left != y
    ensures Out(e0y, ps + [p], y, states') ==
      if y == p.left then WithEdge(ey, Label(p), states'[TargetOf(p)]) else ey
  {
    OutStep(e0y, ps, p, y, states');
    OutExtends(e0y, ps, y, states, states');
    if y !in states {
      OutNoProduction(e0y, ps, y, states);
    }
  }

  /** The symbols with a state after one more production. */
  lemma KeysStep(keys: set<Symbol>, keys': set<Symbol>, reused: set<Symbol>, sk: Symbol,
                 ps: seq<Production>, p: Production)
    requires keys == reused + Nonterminals(ps) + {END_STATE_ID, sk}
    requires ShapedProduction(p) && keys' == keys + {p.left, TargetOf(p)}
    ensures keys' == reused + Nonterminals(ps + [p]) + {END_STATE_ID, sk}
  {
    TerminalsAppend(ps, p);
  }

  /** Wiring one more production keeps the invariant. */
  lemma WiringStep(states: map<Symbol, NFAState>, e: map<Symbol, map<string, set<NFAState>>>,
                   e0: map<Symbol, map<string, set<NFAState>>>, sk: Symbol, ps: seq<Production>, p: Production,
                   states': map<Symbol, NFAState>, e': map<Symbol, map<string, set<NFAState>>>)
    requires Wiring(states, e, e0, sk, ps) && ShapedProduction(p)
    requires forall y :: y in states ==> y in states' && states'[y] == states[y]
    requires states'.Keys == states.Keys + {p.left, TargetOf(p)}
    requires e'.Keys == states'.Keys
    requires forall y :: y in e' ==>
      e'[y] == if y == p.left then WithEdge(Base(e, y), Label(p), states'[TargetOf(p)]) else Base(e, y)
    ensures Wiring(states', e', e0, sk, ps + [p])
  {
    KeysStep(states.Keys, states'.Keys, e0.Keys, sk, ps, p);
    assert Shaped(ps + [p]) && TargetsIn(ps + [p], states') by {
      forall q | q in ps + [p] ensures ShapedProduction(q) && TargetOf(q) in states' {
        if q != p {
          assert q in ps;
        }
      }
    }
    SymbolSets(ps);
    forall q | q in ps ensures q.left in states {
      assert q.left in Nonterminals(ps);
    }
    forall y | y in e'
      ensures e'[y] == Out(Base(e0, y), ps + [p], y, states')
    {
      OutAfter(Base(e0, y), ps, p, y, states, states', Base(e, y));
    }
  }

  /** The symbols with a state at the end: the start symbol, which had
      been set aside with the end marker, is a left side. */
  lemma FinalKeys(before: set<Symbol>, reused: set<Symbol>, lefts: set<Symbol>, sk: Symbol)
    requires reused == before - {sk, END_STATE_ID} && sk in lefts
    ensures reused + lefts + {END_STATE_ID, sk} == before + lefts + {END_STATE_ID}
  {
  }

  /** ParserUtils' static state: the productions read, the terminal and
      nonterminal sets, the NFA states by symbol, and the start state. */
  class ParserUtils {
    var productionList: seq<Production>
    var vtSet: set<Symbol>
    var vnSet: set<Symbol>
    var nfaStateMap: map<Symbol, NFAState>
    var startNFA: NFAState?

    /** The productions are those of grammar lines, and each NFA state is
        kept under its own symbol. */
    ghost predicate Valid()
      reads this
    {
      Shaped(productionList) && OwnIds(nfaStateMap)
    }

    constructor ()
      ensures Valid() && productionList == [] && vtSet == {} && vnSet == {}
      ensures nfaStateMap == map[] && startNFA == null
    {
      productionList := [];
      vtSet := {};
      vnSet := {};
      nfaStateMap := map[];
      startNFA := null;
    }

    /** One line of readParseTXT: its production is appended, its terminal
        joins vtSet, and its left side and nonterminal, when there is one,
        join vnSet. A failing line changes nothing. */
    method ReadLine(line: string) returns (r: Result<Production>)
      requires Valid()
      modifies this
      ensures Valid() && r == LineProduction(line)
      ensures nfaStateMap == old(nfaStateMap) && startNFA == old(startNFA)
      ensures r.Err? ==> r.error == IndexOutOfBounds
      ensures r.Err? ==> productionList == old(productionList) && vtSet == old(vtSet) && vnSet == old(vnSet)
      ensures r.Ok? ==>
        productionList == old(productionList) + [r.value] && vtSet == old(vtSet) + {r.value.right[0]} &&
        vnSet == old(vnSet) + {r.value.left} + (if |r.value.right| == 2 then {r.value.right[1]} else {})
    {
      r := ParseLine(line);
      LineProductionShaped(line);
      if r.Ok? {
        var production := r.value;
        vtSet := vtSet + {production.right[0]};
        vnSet := vnSet + {production.left};
        if |production.right| == 2 {
          vnSet := vnSet + {production.right[1]};
        }
        productionList := productionList + [production];
      }
    }

    /** readParseTXT over the lines of the file: each line's production is
        appended in order. The first failing line ends the reading with the
        earlier lines' productions kept. */
    method ReadParse(lines: seq<string>) returns (failure: Option<Error>)
      requires Valid()
      modifies this
      ensures Valid()
      ensures nfaStateMap == old(nfaStateMap) && startNFA == old(startNFA)
      ensures productionList == old(productionList) + Parsed(lines)
      ensures vtSet == old(vtSet) + Terminals(Parsed(lines))
      ensures vnSet == old(vnSet) + Nonterminals(Parsed(lines))
      ensures failure.None? <==> AllParse(lines)
      ensures failure.Some? ==> failure.value == IndexOutOfBounds
    {
      ghost var parsed := Parsed(lines);
      for i := 0 to |lines|
        invariant Valid() && nfaStateMap == old(nfaStateMap) && startNFA == old(startNFA)
        invariant i <= |parsed|
        invariant productionList == old(productionList) + parsed[..i]
        invariant vtSet == old(vtSet) + Terminals(parsed[..i])
        invariant vnSet == old(vnSet) + Nonterminals(parsed[..i])
      {
        var r := ReadLine(lines[i]);
        if r.Err? {
          ParsedStop(lines, i);
          return Some(r.error);
        }
        ParsedNext(lines, i);
        assert old(productionList) + (parsed[..i] + [r.value]) == old(productionList) + parsed[..i] + [r.value];
        TerminalsAppend(parsed[..i], r.value);
      }
      ParsedAll(lines);
      failure := None;
    }

    /** The state of a symbol: the one the map holds, or a new one with
        no edges put under the symbol. */
    method StateFor(symbol: Symbol) returns (state: NFAState)
      requires OwnIds(nfaStateMap)
      modifies this
      ensures OwnIds(nfaStateMap) && symbol in nfaStateMap && nfaStateMap[symbol] == state
      ensures symbol in old(nfaStateMap) ==> nfaStateMap == old(nfaStateMap)
      ensures symbol !in old(nfaStateMap) ==>
        fresh(state) && state.edges == map[] && !state.isStart && nfaStateMap == old(nfaStateMap)[symbol := state]
      ensures productionList == old(productionList) && vtSet == old(vtSet) && vnSet == old(vnSet)
      ensures startNFA == old(startNFA)
    {
      if symbol in nfaStateMap {
        return nfaStateMap[symbol];
      }
      state := new NFAState(symbol);
      nfaStateMap := nfaStateMap[symbol := state];
    }

    /** The two states a production links, looked up before its edge is
        added: that of its left side, and the end state (A->b) or that of
        its nonterminal (A->bB); a symbol without a state gets a new one. */
    method Ends(p: Production, endState: NFAState) returns (current: NFAState, target: NFAState)
      requires OwnIds(nfaStateMap) && 1 <= |p.right| <= 2
      requires END_STATE_ID in nfaStateMap && nfaStateMap[END_STATE_ID] == endState
      modifies this
      ensures OwnIds(nfaStateMap) && END_STATE_ID in nfaStateMap && nfaStateMap[END_STATE_ID] == endState
      ensures productionList == old(productionList) && vtSet == old(vtSet) && vnSet == old(vnSet)
      ensures startNFA == old(startNFA)
      ensures forall y :: y in old(nfaStateMap) ==> y in nfaStateMap && nfaStateMap[y] == old(nfaStateMap)[y]
      ensures nfaStateMap.Keys == old(nfaStateMap).Keys + {p.left, TargetOf(p)}
      ensures forall y :: y in nfaStateMap && y !in old(nfaStateMap) ==> fresh(nfaStateMap[y]) && nfaStateMap[y].edges == map[]
      ensures p.left in nfaStateMap && current == nfaStateMap[p.left]
      ensures TargetOf(p) in nfaStateMap && target == nfaStateMap[TargetOf(p)]
    {
      current := StateFor(p.left);
      if |p.right| == 1 {
        target := endState;
      } else {
        target := StateFor(p.right[1]);
      }
    }

    /** One production p wired after the productions ps: the state of its
        left side gets an edge labelled by the terminal, to the end state
        for A->b and to B's state, made if need be, for A->bB. The wiring
        invariant then covers ps + [p]. */
    method Link(p: Production, endState: NFAState, start: NFAState,
                ghost e0: map<Symbol, map<string, set<NFAState>>>, ghost sk: Symbol, ghost ps: seq<Production>,
                ghost e: map<Symbol, map<string, set<NFAState>>>)
      returns (ghost e': map<Symbol, map<string, set<NFAState>>>)
      requires OwnIds(nfaStateMap) && ShapedProduction(p)
      requires END_STATE_ID in nfaStateMap && nfaStateMap[END_STATE_ID] == endState
      requires Mirrors(nfaStateMap, e) && Wiring(nfaStateMap, e, e0, sk, ps)
      modifies this, nfaStateMap.Values
      ensures OwnIds(nfaStateMap) && END_STATE_ID in nfaStateMap && nfaStateMap[END_STATE_ID] == endState
      ensures productionList == old(productionList) && vtSet == old(vtSet) && vnSet == old(vnSet)
      ensures startNFA == old(startNFA) && start.isStart == old(start.isStart)
      ensures forall y :: y in old(nfaStateMap) ==> y in nfaStateMap && nfaStateMap[y] == old(nfaStateMap)[y]
      ensures forall y :: y in nfaStateMap && y !in old(nfaStateMap) ==> fresh(nfaStateMap[y])
      ensures Mirrors(nfaStateMap, e') && Wiring(nfaStateMap, e', e0, sk, ps + [p])
    {
      ghost var states := nfaStateMap;
      var currentNFAState, target := Ends(p, endState);
      ghost var e1 := map y | y in nfaStateMap :: Base(e, y);
      assert Mirrors(nfaStateMap, e1);
      currentNFAState.AddEdges(p.right[0], target);
      e' := e1[p.left := WithEdge(Base(e, p.left), Label(p), target)];
      forall y | y in nfaStateMap ensures nfaStateMap[y].edges == e'[y] {
        if y != p.left {
          assert nfaStateMap[y].id != currentNFAState.id;
        }
      }
      WiringStep(states, e, e0, sk, ps, p, nfaStateMap, e');
    }

    /** The loop body of regularGrammarToNFA for production i. */
    method Wire(i: int, endState: NFAState, start: NFAState,
                ghost e0: map<Symbol, map<string, set<NFAState>>>, ghost sk: Symbol,
                ghost e: map<Symbol, map<string, set<NFAState>>>)
      returns (ghost e': map<Symbol, map<string, set<NFAState>>>)
      requires Shaped(productionList) && 0 <= i < |productionList| && OwnIds(nfaStateMap)
      requires END_STATE_ID in nfaStateMap && nfaStateMap[END_STATE_ID] == endState
      requires Mirrors(nfaStateMap, e) && Wiring(nfaStateMap, e, e0, sk, productionList[..i])
      modifies this, nfaStateMap.Values
      ensures OwnIds(nfaStateMap) && END_STATE_ID in nfaStateMap && nfaStateMap[END_STATE_ID] == endState
      ensures productionList == old(productionList) && vtSet == old(vtSet) && vnSet == old(vnSet)
      ensures startNFA == old(startNFA) && start.isStart == old(start.isStart)
      ensures forall y :: y in old(nfaStateMap) ==> y in nfaStateMap && nfaStateMap[y] == old(nfaStateMap)[y]
      ensures forall y :: y in nfaStateMap && y !in old(nfaStateMap) ==> fresh(nfaStateMap[y])
      ensures Mirrors(nfaStateMap, e') && Wiring(nfaStateMap, e', e0, sk, productionList[..i + 1])
    {
      var production := productionList[i];
      assert production in productionList;
      assert productionList[..i + 1] == productionList[..i] + [production];
      e' := Link(production, endState, start, e0, sk, productionList[..i], e);
    }

    /** The start of regularGrammarToNFA: a new start state under the
        first left side, marked start and kept as startNFA, and a new end
        state under "END STATE"; every other state keeps its edges. */
    method Begin(startSymbol: Symbol, ghost e0: map<Symbol, map<string, set<NFAState>>>)
      returns (startNFAState: NFAState, endState: NFAState, ghost e: map<Symbol, map<string, set<NFAState>>>)
      requires OwnIds(nfaStateMap) && !startSymbol.isEnd
      requires e0.Keys == nfaStateMap.Keys - {startSymbol, END_STATE_ID}
      requires forall y :: y in e0 ==> nfaStateMap[y].edges == e0[y]
      modifies this
      ensures OwnIds(nfaStateMap) && fresh(startNFAState) && fresh(endState)
      ensures startNFAState.isStart && endState.isEnd
      ensures startSymbol in nfaStateMap && nfaStateMap[startSymbol] == startNFAState
      ensures END_STATE_ID in nfaStateMap && nfaStateMap[END_STATE_ID] == endState
      ensures nfaStateMap == old(nfaStateMap)[startSymbol := startNFAState][END_STATE_ID := endState]
      ensures startNFA == startNFAState
      ensures productionList == old(productionList) && vtSet == old(vtSet) && vnSet == old(vnSet)
      ensures Mirrors(nfaStateMap, e) && Wiring(nfaStateMap, e, e0, startSymbol, [])
    {
      startNFAState := new NFAState(startSymbol);
      startNFAState.SetStart(true);
      nfaStateMap := nfaStateMap[startSymbol := startNFAState];
      startNFA := startNFAState;
      endState := new NFAState.End(true);
      nfaStateMap := nfaStateMap[END_STATE_ID := endState];
      assert nfaStateMap.Keys == e0.Keys + {END_STATE_ID, startSymbol};
      e := WiringStart(nfaStateMap, e0, startSymbol);
    }

    /** The loop of regularGrammarToNFA: every production wired in order. */
    method WireAll(endState: NFAState, start: NFAState, ghost e0: map<Symbol, map<string, set<NFAState>>>,
                   ghost sk: Symbol, ghost e: map<Symbol, map<string, set<NFAState>>>)
      returns (ghost e': map<Symbol, map<string, set<NFAState>>>)
      requires Shaped(productionList) && OwnIds(nfaStateMap)
      requires END_STATE_ID in nfaStateMap && nfaStateMap[END_STATE_ID] == endState
      requires Mirrors(nfaStateMap, e) && Wiring(nfaStateMap, e, e0, sk, [])
      modifies this, nfaStateMap.Values
      ensures OwnIds(nfaStateMap)
      ensures productionList == old(productionList) && vtSet == old(vtSet) && vnSet == old(vnSet)
      ensures startNFA == old(startNFA) && start.isStart == old(start.isStart)
      ensures forall y :: y in old(nfaStateMap) ==> y in nfaStateMap && nfaStateMap[y] == old(nfaStateMap)[y]
      ensures Mirrors(nfaStateMap, e') && Wiring(nfaStateMap, e', e0, sk, productionList)
    {
      e' := e;
      assert productionList[..0] == [];
      for i := 0 to |productionList|
        invariant OwnIds(nfaStateMap) && END_STATE_ID in nfaStateMap && nfaStateMap[END_STATE_ID] == endState
        invariant productionList == old(productionList) && vtSet == old(vtSet) && vnSet == old(vnSet)
        invariant startNFA == old(startNFA) && start.isStart == old(start.isStart)
        invariant forall y :: y in old(nfaStateMap) ==> y in nfaStateMap && nfaStateMap[y] == old(nfaStateMap)[y]
        invariant forall y :: y in nfaStateMap ==> nfaStateMap[y] in old(nfaStateMap.Values) || fresh(nfaStateMap[y])
        invariant Mirrors(nfaStateMap, e') && Wiring(nfaStateMap, e', e0, sk, productionList[..i])
      {
        e' := Wire(i, endState, start, e0, sk, e');
      }
      assert productionList[..|productionList|] == productionList;
    }

    /** regularGrammarToNFA: nothing without productions. Otherwise a new
        start state for the first left side and a new end state, then one
        edge per production, labelled by its terminal, from the state of its
        left side to the end state (A->b) or to B's state (A->bB). States of
        other symbols already in the map are reused and keep their edges. */
    method RegularGrammarToNFA()
      requires Valid()
      modifies this, nfaStateMap.Values
      ensures Valid()
      ensures productionList == old(productionList) && vtSet == old(vtSet) && vnSet == old(vnSet)
      ensures productionList == [] ==> nfaStateMap == old(nfaStateMap) && startNFA == old(startNFA)
      ensures productionList != [] ==>
        var start := productionList[0].left;
        startNFA != null && fresh(startNFA) && startNFA.isStart &&
        start in nfaStateMap && nfaStateMap[start] == startNFA &&
        END_STATE_ID in nfaStateMap && fresh(nfaStateMap[END_STATE_ID]) && nfaStateMap[END_STATE_ID].isEnd &&
        nfaStateMap.Keys == old(nfaStateMap).Keys + Nonterminals(productionList) + {END_STATE_ID} &&
        TargetsIn(productionList, nfaStateMap) &&
        forall y :: y in nfaStateMap ==>
          nfaStateMap[y].edges ==
            Out(if y in old(nfaStateMap) && y != start && y != END_STATE_ID then old(nfaStateMap[y].edges) else map[],
                productionList, y, nfaStateMap)
    {
      if |productionList| == 0 {
        return;
      }
      var startSymbol := productionList[0].left;
      SymbolSets(productionList);
      assert productionList[0] in productionList && startSymbol in Nonterminals(productionList);
      ghost var e0 := map y | y in nfaStateMap && y != startSymbol && y != END_STATE_ID :: nfaStateMap[y].edges;
      var startNFAState, endState, e := Begin(startSymbol, e0);
      e := WireAll(endState, startNFAState, e0, startSymbol, e);
      forall y | y in nfaStateMap
        ensures nfaStateMap[y].edges == Out(Base(e0, y), productionList, y, nfaStateMap)
      {
      }
      FinalKeys(old(nfaStateMap).Keys, e0.Keys, Nonterminals(productionList), startSymbol);
    }
  }
}
