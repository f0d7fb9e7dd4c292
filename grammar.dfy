/** A context-free grammar: its productions grouped by left side, the
    terminal and nonterminal sets derived from them, and the memoised
    FIRST-set computation. */
module Grammars {
  import opened Outcomes
  import opened Symbols
  import opened Productions
  import opened FirstSets
  import opened FirstSpec

  /** The distinct left sides of ps, in order of first occurrence (the key
      order of the LinkedHashMap that creat fills). */
  function FirstOccurrence(ps: seq<Production>): seq<Symbol> {
    if ps == [] then []
    else
      var init := FirstOccurrence(ps[..|ps| - 1]);
      if ps[|ps| - 1].left in init then init else init + [ps[|ps| - 1].left]
  }

  /** The productions of ps whose left side is k, in input order. */
  function ProductionsOf(ps: seq<Production>, k: Symbol): seq<Production> {
    if ps == [] then []
    else if ps[|ps| - 1].left == k then ProductionsOf(ps[..|ps| - 1], k) + [ps[|ps| - 1]]
    else ProductionsOf(ps[..|ps| - 1], k)
  }

  predicate Distinct(xs: seq<Symbol>) {
    forall i, j :: 0 <= i < j < |xs| ==> xs[i] != xs[j]
  }

  /** The key order lists each left side once, and only left sides. */
  lemma {:induction false} FirstOccurrenceSpec(ps: seq<Production>)
    ensures Distinct(FirstOccurrence(ps))
    ensures forall k :: k in FirstOccurrence(ps) <==> exists i :: 0 <= i < |ps| && ps[i].left == k
  {
    if ps != [] {
      var init := ps[..|ps| - 1];
      FirstOccurrenceSpec(init);
      assert forall i :: 0 <= i < |init| ==> init[i] == ps[i];
    }
  }

  /** Each group holds exactly the productions with that left side, in the
      order they were given. */
  lemma {:induction false} ProductionsOfSpec(ps: seq<Production>, k: Symbol)
    ensures forall q :: q in ProductionsOf(ps, k) ==> q.left == k && q in ps
    ensures forall i :: 0 <= i < |ps| && ps[i].left == k ==> ps[i] in ProductionsOf(ps, k)
    ensures ProductionsOf(ps, k) == [] <==> forall i :: 0 <= i < |ps| ==> ps[i].left != k
  {
    if ps != [] {
      var init := ps[..|ps| - 1];
      ProductionsOfSpec(init, k);
      assert forall i :: 0 <= i < |init| ==> init[i] == ps[i];
    }
  }

  /** The terminals among syms. */
  function SymTerminals(syms: seq<Symbol>): set<Symbol> {
    if syms == [] then {}
    else SymTerminals(syms[..|syms| - 1]) + (if syms[|syms| - 1].isVt then {syms[|syms| - 1]} else {})
  }

  /** The terminals on the right sides of ps. */
  function ProdTerminals(ps: seq<Production>): set<Symbol> {
    if ps == [] then {} else ProdTerminals(ps[..|ps| - 1]) + SymTerminals(ps[|ps| - 1].right)
  }

  /** The terminals on the right sides of the productions of the keys. */
  function KeyTerminals(keys: seq<Symbol>, pm: map<Symbol, seq<Production>>): set<Symbol> {
    if keys == [] then {}
    else
      KeyTerminals(keys[..|keys| - 1], pm) +
      (if keys[|keys| - 1] in pm then ProdTerminals(pm[keys[|keys| - 1]]) else {})
  }

  lemma {:induction false} SymTerminalsSpec(syms: seq<Symbol>)
    ensures forall s :: s in SymTerminals(syms) <==> s.isVt && s in syms
  {
    if syms != [] {
      SymTerminalsSpec(syms[..|syms| - 1]);
      assert syms == syms[..|syms| - 1] + [syms[|syms| - 1]];
    }
  }

  lemma {:induction false} ProdTerminalsSpec(ps: seq<Production>)
    ensures forall s :: s in ProdTerminals(ps) <==>
      s.isVt && exists i :: 0 <= i < |ps| && s in ps[i].right
  {
    if ps != [] {
      var init := ps[..|ps| - 1];
      ProdTerminalsSpec(init);
      SymTerminalsSpec(ps[|ps| - 1].right);
      assert forall i :: 0 <= i < |init| ==> init[i] == ps[i];
    }
  }

  /** VtSet is exactly the set of terminals occurring on a right side. */
  lemma {:induction false} KeyTerminalsSpec(keys: seq<Symbol>, pm: map<Symbol, seq<Production>>)
    ensures forall s :: s in KeyTerminals(keys, pm) <==>
      s.isVt && exists k, i :: k in keys && k in pm && 0 <= i < |pm[k]| && s in pm[k][i].right
  {
    if keys != [] {
      var init := keys[..|keys| - 1];
      var last := keys[|keys| - 1];
      KeyTerminalsSpec(init, pm);
      if last in pm { ProdTerminalsSpec(pm[last]); }
      assert keys == init + [last];
    }
  }

  /** The computation of FIRST(v), begun while the nonterminals of busy are
      under way further up the call chain, meets neither a nonterminal
      without productions nor one already under way: v has productions, is
      not under way, and the same holds, with v added to busy, for every
      other nonterminal on a right side of v. Every such nonterminal counts,
      not only those the scan reaches, so this is a sufficient condition. */
  ghost predicate Safe(pm: map<Symbol, seq<Production>>, v: Symbol, busy: set<Symbol>)
    decreases |pm.Keys - busy|
  {
    v in pm && v !in busy &&
    (assert pm.Keys - busy == (pm.Keys - (busy + {v})) + {v};
     forall i, s :: 0 <= i < |pm[v]| && s in pm[v][i].right && !s.isVt && s != v ==> Safe(pm, s, busy + {v}))
  }

  /** FIRST of every nonterminal can be computed from scratch. */
  ghost predicate FirstSafe(pm: map<Symbol, seq<Production>>) {
    forall k :: k in pm ==> Safe(pm, k, {})
  }

  /** Nonterminals ranked so that a production mentions, besides its own
      left side, only nonterminals of lower rank that have productions. */
  ghost predicate Ranked(pm: map<Symbol, seq<Production>>, rank: map<Symbol, nat>) {
    (forall k :: k in pm ==> k in rank) &&
    forall k, i, s :: k in pm && 0 <= i < |pm[k]| && s in pm[k][i].right && !s.isVt && s != k ==>
      s in pm && rank[s] < rank[k]
  }

  /** A grammar without recursion other than a nonterminal mentioning
      itself (direct left recursion included) gets every FIRST set. */
  lemma RankedSafe(pm: map<Symbol, seq<Production>>, rank: map<Symbol, nat>)
    requires Ranked(pm, rank)
    ensures FirstSafe(pm)
  {
    forall k | k in pm ensures Safe(pm, k, {}) {
      RankedSafeFrom(pm, rank, k, {});
    }
  }

  lemma {:induction false} RankedSafeFrom(pm: map<Symbol, seq<Production>>, rank: map<Symbol, nat>,
                                          v: Symbol, busy: set<Symbol>)
    requires Ranked(pm, rank) && v in pm
    requires forall b :: b in busy ==> b in rank && rank[b] > rank[v]
    ensures Safe(pm, v, busy)
    decreases |pm.Keys - busy|
  {
    assert pm.Keys - busy == (pm.Keys - (busy + {v})) + {v};
    forall i, s | 0 <= i < |pm[v]| && s in pm[v][i].right && !s.isVt && s != v
      ensures Safe(pm, s, busy + {v})
    {
      RankedSafeFrom(pm, rank, s, busy + {v});
    }
  }

  /** The nonterminals other than v on the right sides of ps can all be
      computed with busy under way. */
  ghost predicate CalleesSafe(pm: map<Symbol, seq<Production>>, v: Symbol, ps: seq<Production>, busy: set<Symbol>) {
    forall i, s :: 0 <= i < |ps| && s in ps[i].right && !s.isVt && s != v ==> Safe(pm, s, busy)
  }

  class Grammar {
    const start: Symbol
    /** The keys of the production map in insertion order. */
    const order: seq<Symbol>
    const productionMap: map<Symbol, seq<Production>>
    const vnSet: set<Symbol>
    const vtSet: set<Symbol>
    /** The FIRST-set memo; None until getFirstSetMap first runs. */
    var firstSetMap: Option<Memo>

    /** The derived sets agree with the production map (all constant). */
    ghost predicate Wf() {
      (forall k :: k in productionMap <==> k in order) && Distinct(order) &&
      vnSet == productionMap.Keys &&
      vtSet == KeyTerminals(order, productionMap) &&
      (forall k, i :: k in productionMap && 0 <= i < |productionMap[k]| ==>
        TerminalsIn(productionMap[k][i].right, vtSet)) &&
      (forall t :: t in vtSet ==> t.isVt)
    }

    /** Every memo entry is the FIRST set of its nonterminal, made of
        terminals of the grammar. */
    ghost predicate MemoOk(memo: Memo) {
      MemoSound(memo, productionMap) && MemoTermsIn(memo, vtSet)
    }

    /** Storing the FIRST set of a nonterminal whose equations hold keeps
        the memo sound and only adds to it. */
    lemma MemoStore(memo: Memo, v: Symbol, val: FirstVal)
      requires Wf() && MemoOk(memo) && v in productionMap && v !in memo
      requires Equations(v, productionMap[v], memo)
      requires val == FirstOfNonterminal(v, productionMap[v], memo)
      ensures MemoOk(memo[v := val]) && Submap(memo, memo[v := val])
    {
      MemoSoundExtend(memo, productionMap, v);
      FirstOfNonterminalTerms(v, productionMap[v], memo, vtSet);
    }

    /** Every nonterminal of rhs can be computed with busy under way. */
    ghost predicate RightSafe(rhs: seq<Symbol>, busy: set<Symbol>) {
      forall s :: s in rhs && !s.isVt ==> Safe(productionMap, s, busy)
    }

    /** Every nonterminal of rhs other than v can be computed with busy
        under way. */
    ghost predicate OthersSafe(v: Symbol, rhs: seq<Symbol>, busy: set<Symbol>) {
      forall s :: s in rhs && !s.isVt && s != v ==> Safe(productionMap, s, busy)
    }

    ghost predicate Valid()
      reads this
    {
      Wf() && (firstSetMap.Some? ==> MemoOk(firstSetMap.value))
    }

    /** The grammar over a production map whose key order is given: VnSet is
        the key set and VtSet collects the terminals of every right side. */
    constructor (start: Symbol, order: seq<Symbol>, productionMap: map<Symbol, seq<Production>>)
      requires Distinct(order) && forall k :: k in productionMap <==> k in order
      ensures Valid()
      ensures this.start == start && this.order == order && this.productionMap == productionMap
      ensures firstSetMap.None?
      ensures vnSet == productionMap.Keys
      ensures forall s :: s in vtSet <==>
        s.isVt && exists k, i :: k in productionMap && 0 <= i < |productionMap[k]| && s in productionMap[k][i].right
    {
      var vt: set<Symbol> := {};
      for a := 0 to |order|
        invariant vt == KeyTerminals(order[..a], productionMap)
      {
        var ps := productionMap[order[a]];
        for b := 0 to |ps|
          invariant vt == KeyTerminals(order[..a], productionMap) + ProdTerminals(ps[..b])
        {
          var rhs := ps[b].right;
          for c := 0 to |rhs|
            invariant vt == KeyTerminals(order[..a], productionMap) + ProdTerminals(ps[..b]) + SymTerminals(rhs[..c])
          {
            if rhs[c].isVt {
              vt := vt + {rhs[c]};
            }
            assert rhs[..c + 1][..c] == rhs[..c];
          }
          assert rhs[..|rhs|] == rhs;
          assert ps[..b + 1][..b] == ps[..b];
        }
        assert ps[..|ps|] == ps;
        assert order[..a + 1][..a] == order[..a];
      }
      assert order[..|order|] == order;
      this.start := start;
      this.order := order;
      this.productionMap := productionMap;
      this.vnSet := productionMap.Keys;
      this.vtSet := vt;
      this.firstSetMap := None;
      new;
      KeyTerminalsSpec(order, productionMap);
      forall k, i | k in productionMap && 0 <= i < |productionMap[k]|
        ensures TerminalsIn(productionMap[k][i].right, vtSet)
      {
      }
    }

    /** Grammar.creat: groups the productions by left side, keeping the
        order in which left sides first occur. Both overloads of the source
        (variable arguments and a list) are this method. */
    static method Creat(start: Symbol, productions: seq<Production>) returns (r: Result<Grammar>)
      ensures productions == [] <==> r == Err(NoProductions)
      ensures productions != [] && !SameSymbol(start, productions[0].left) <==> r == Err(StartMismatch)
      ensures r.Ok? <==> productions != [] && SameSymbol(start, productions[0].left)
      ensures r.Ok? ==> fresh(r.value) && r.value.Valid() && r.value.firstSetMap.None?
      ensures r.Ok? ==> r.value.start == start && r.value.order == FirstOccurrence(productions)
      ensures r.Ok? ==> forall k :: k in r.value.productionMap ==>
        r.value.productionMap[k] == ProductionsOf(productions, k)
    {
      if |productions| == 0 {
        return Err(NoProductions);
      }
      if !SameSymbol(start, productions[0].left) {
        return Err(StartMismatch);
      }
      var order: seq<Symbol> := [];
      var groups: map<Symbol, seq<Production>> := map[];
      for i := 0 to |productions|
        invariant order == FirstOccurrence(productions[..i])
        invariant forall k :: k in groups <==> k in order
        invariant forall k :: k in groups ==> groups[k] == ProductionsOf(productions[..i], k)
      {
        var p := productions[i];
        assert productions[..i + 1][..i] == productions[..i];
        if p.left in groups {
          groups := groups[p.left := groups[p.left] + [p]];
        } else {
          order := order + [p.left];
          groups := groups[p.left := [p]];
          ProductionsOfSpec(productions[..i], p.left);
          FirstOccurrenceSpec(productions[..i]);
        }
      }
      assert productions[..|productions|] == productions;
      FirstOccurrenceSpec(productions);
      var g := new Grammar(start, order, groups);
      r := Ok(g);
    }

    /** getFirstSet: FIRST of the nonterminal v, computed once and stored in
        the memo. The ghost set inProgress holds the nonterminals whose
        computation is under way further up the call chain; reaching one of
        them again is the endless recursion of indirect left recursion. */
    method GetFirstSet(v: Symbol, inProgress: set<Symbol>) returns (r: Result<FirstVal>)
      requires Valid()
      requires inProgress <= productionMap.Keys
      requires firstSetMap.Some? ==> firstSetMap.value.Keys !! inProgress
      modifies this
      decreases |productionMap.Keys - inProgress|, 0
      ensures Valid()
      ensures old(firstSetMap).None? ==> r == Err(NullPointer) && firstSetMap.None?
      ensures old(firstSetMap).Some? ==>
        firstSetMap.Some? && Submap(old(firstSetMap).value, firstSetMap.value) &&
        firstSetMap.value.Keys !! inProgress
      ensures old(firstSetMap).Some? && v in old(firstSetMap).value ==>
        r == Ok(old(firstSetMap).value[v]) && firstSetMap == old(firstSetMap)
      ensures old(firstSetMap).Some? && v !in old(firstSetMap).value && v in inProgress ==>
        r == Err(StackOverflow)
      ensures old(firstSetMap).Some? && v !in productionMap ==> r == Err(NullPointer)
      ensures r.Ok? ==> firstSetMap.Some? && v in firstSetMap.value && firstSetMap.value[v] == r.value
      ensures old(firstSetMap).Some? && Safe(productionMap, v, inProgress) ==> r.Ok?
    {
      if firstSetMap.None? {
        return Err(NullPointer);
      }
      if v in firstSetMap.value {
        assert EntrySound(firstSetMap.value, productionMap, v);
        return Ok(firstSetMap.value[v]);
      }
      if v in inProgress {
        return Err(StackOverflow);
      }
      if v !in productionMap {
        return Err(NullPointer);
      }
      var fs := new FirstSet([v]);
      var ps := productionMap[v];
      var busy := inProgress + {v};
      assert productionMap.Keys - inProgress == (productionMap.Keys - busy) + {v};
      assert Safe(productionMap, v, inProgress) ==> CalleesSafe(productionMap, v, ps, busy);
      var bad := ProductionPass(v, ps, busy, fs);
      if bad.Err? {
        return Err(bad.error);
      }
      var done := LeftRecursivePass(v, ps, bad.value, busy, fs);
      if done.Err? {
        return Err(done.error);
      }
      var val := fs.Value();
      MemoStore(firstSetMap.value, v, val);
      firstSetMap := Some(firstSetMap.value[v := val]);
      r := Ok(val);
    }

    /** The first loop of getFirstSet over the productions ps of v: an
        ε-production sets ε, a production mentioning v is set aside, any
        other is scanned by ScanRight. The result is the list set aside. */
    method ProductionPass(v: Symbol, ps: seq<Production>, busy: set<Symbol>, fs: FirstSet)
      returns (r: Result<seq<Production>>)
      requires Wf() && firstSetMap.Some? && MemoOk(firstSetMap.value)
      requires busy <= productionMap.Keys && firstSetMap.value.Keys !! busy
      requires fs.Value() == FirstVal({}, false)
      modifies this, fs
      decreases |productionMap.Keys - busy|, 3
      ensures Wf() && firstSetMap.Some? && MemoOk(firstSetMap.value)
      ensures Submap(old(firstSetMap).value, firstSetMap.value) && firstSetMap.value.Keys !! busy
      ensures r.Ok? ==>
        r.value == BadProds(v, ps) && PassCovered(v, ps, firstSetMap.value) &&
        fs.Value() == FirstPass(v, ps, firstSetMap.value)
      ensures CalleesSafe(productionMap, v, ps, busy) ==> r.Ok?
    {
      var bad: seq<Production> := [];
      for i := 0 to |ps|
        invariant Wf() && firstSetMap.Some? && MemoOk(firstSetMap.value)
        invariant Submap(old(firstSetMap).value, firstSetMap.value)
        invariant firstSetMap.value.Keys !! busy
        invariant bad == BadProds(v, ps[..i])
        invariant PassCovered(v, ps[..i], firstSetMap.value)
        invariant fs.Value() == FirstPass(v, ps[..i], firstSetMap.value)
      {
        var p := ps[i];
        ghost var before := firstSetMap.value;
        assert ps[..i + 1][..i] == ps[..i];
        if !IsEpsilon(p) {
          if v in p.right {
            bad := bad + [p];
          } else {
            assert CalleesSafe(productionMap, v, ps, busy) ==> RightSafe(p.right, busy);
            var allEpsilon := ScanRight(p.right, busy, fs);
            if allEpsilon.Err? {
              return Err(allEpsilon.error);
            }
            SubmapTrans(old(firstSetMap).value, before, firstSetMap.value);
            if allEpsilon.value {
              fs.SetHasEpsilon(true);
            }
          }
        } else {
          fs.SetHasEpsilon(true);
        }
        FirstPassStep(v, ps, i, before, firstSetMap.value);
      }
      assert ps[..|ps|] == ps;
      r := Ok(bad);
    }

    /** The second loop of getFirstSet: each production set aside is scanned
        by ScanLeftRecursive, with ε as the first loop left it. */
    method LeftRecursivePass(v: Symbol, ps: seq<Production>, bad: seq<Production>, busy: set<Symbol>, fs: FirstSet)
      returns (r: Result<()>)
      requires Wf() && firstSetMap.Some? && MemoOk(firstSetMap.value)
      requires busy <= productionMap.Keys && firstSetMap.value.Keys !! busy && v in busy
      requires bad == BadProds(v, ps) && PassCovered(v, ps, firstSetMap.value)
      requires fs.Value() == FirstPass(v, ps, firstSetMap.value)
      modifies this, fs
      decreases |productionMap.Keys - busy|, 3
      ensures Wf() && firstSetMap.Some? && MemoOk(firstSetMap.value)
      ensures Submap(old(firstSetMap).value, firstSetMap.value) && firstSetMap.value.Keys !! busy
      ensures r.Ok? ==>
        Equations(v, ps, firstSetMap.value) &&
        fs.Value() == FirstOfNonterminal(v, ps, firstSetMap.value)
      ensures CalleesSafe(productionMap, v, ps, busy) ==> r.Ok?
    {
      ghost var firstPass := fs.Value();
      ghost var eps := firstPass.hasEpsilon;
      for j := 0 to |bad|
        invariant Wf() && firstSetMap.Some? && MemoOk(firstSetMap.value)
        invariant Submap(old(firstSetMap).value, firstSetMap.value)
        invariant firstSetMap.value.Keys !! busy
        invariant PassCovered(v, ps, firstSetMap.value)
        invariant FirstPass(v, ps, firstSetMap.value) == firstPass
        invariant fs.hasEpsilon == eps
        invariant BadCovered(v, bad[..j], eps, firstSetMap.value)
        invariant fs.terms == firstPass.terms + BadTerms(v, bad[..j], eps, firstSetMap.value)
      {
        ghost var before := firstSetMap.value;
        assert CalleesSafe(productionMap, v, ps, busy) ==> OthersSafe(v, bad[j].right, busy) by {
          if CalleesSafe(productionMap, v, ps, busy) {
            var n :| 0 <= n < |ps| && ps[n] == bad[j];
          }
        }
        var done := ScanLeftRecursive(v, bad[j].right, busy, fs);
        if done.Err? {
          return Err(done.error);
        }
        FirstPassStable(v, ps, before, firstSetMap.value);
        BadTermsStep(v, bad, j, eps, before, firstSetMap.value);
        SubmapTrans(old(firstSetMap).value, before, firstSetMap.value);
      }
      assert bad[..|bad|] == bad;
      r := Ok(());
    }

    /** One nonterminal s met by a scan: its FIRST set is computed (or read
        from the memo) and added to fs; the result says whether it derives
        ε, that is, whether the scan goes on. */
    method AddNonterminal(s: Symbol, busy: set<Symbol>, fs: FirstSet) returns (r: Result<bool>)
      requires Wf() && firstSetMap.Some? && MemoOk(firstSetMap.value)
      requires busy <= productionMap.Keys && firstSetMap.value.Keys !! busy
      modifies this, fs
      decreases |productionMap.Keys - busy|, 1
      ensures Wf() && firstSetMap.Some? && MemoOk(firstSetMap.value)
      ensures Submap(old(firstSetMap).value, firstSetMap.value) && firstSetMap.value.Keys !! busy
      ensures fs.hasEpsilon == old(fs.hasEpsilon)
      ensures r.Ok? ==>
        s in firstSetMap.value && r.value == firstSetMap.value[s].hasEpsilon &&
        fs.terms == old(fs.terms) + firstSetMap.value[s].terms
      ensures Safe(productionMap, s, busy) ==> r.Ok?
    {
      var next := GetFirstSet(s, busy);
      if next.Err? {
        return Err(next.error);
      }
      fs.AddAll(next.value.terms);
      r := Ok(next.value.hasEpsilon);
    }

    /** The scan of one right side that does not mention the nonterminal
        being computed: a terminal is added and ends the scan; a
        nonterminal's FIRST set is computed and added, and the scan goes on
        only if it derives ε. The result says whether every symbol derived ε. */
    method ScanRight(rhs: seq<Symbol>, busy: set<Symbol>, fs: FirstSet) returns (r: Result<bool>)
      requires Wf() && firstSetMap.Some? && MemoOk(firstSetMap.value)
      requires busy <= productionMap.Keys && firstSetMap.value.Keys !! busy
      modifies this, fs
      decreases |productionMap.Keys - busy|, 2
      ensures Wf() && firstSetMap.Some? && MemoOk(firstSetMap.value)
      ensures Submap(old(firstSetMap).value, firstSetMap.value) && firstSetMap.value.Keys !! busy
      ensures fs.hasEpsilon == old(fs.hasEpsilon)
      ensures r.Ok? ==>
        Covered(rhs, firstSetMap.value) &&
        fs.terms == old(fs.terms) + SeqFirst(rhs, firstSetMap.value).terms &&
        r.value == SeqFirst(rhs, firstSetMap.value).hasEpsilon
      ensures RightSafe(rhs, busy) ==> r.Ok?
    {
      ghost var memo0 := firstSetMap.value;
      var j := 0;
      while j < |rhs|
        invariant 0 <= j <= |rhs|
        invariant Wf() && firstSetMap.Some? && MemoOk(firstSetMap.value)
        invariant Submap(memo0, firstSetMap.value) && firstSetMap.value.Keys !! busy
        invariant fs.hasEpsilon == old(fs.hasEpsilon)
        invariant Covered(rhs[..j], firstSetMap.value) && SeqFirst(rhs[..j], firstSetMap.value).hasEpsilon
        invariant fs.terms == old(fs.terms) + SeqFirst(rhs[..j], firstSetMap.value).terms
      {
        var s := rhs[j];
        if s.isVt {
          fs.Add(s);
          ScanStopsAtTerminal(rhs, j, firstSetMap.value);
          return Ok(false);
        }
        ghost var before := firstSetMap.value;
        var passed := AddNonterminal(s, busy, fs);
        if passed.Err? {
          return Err(passed.error);
        }
        ScanPassesNonterminal(rhs, j, before, firstSetMap.value);
        SubmapTrans(memo0, before, firstSetMap.value);
        if !passed.value {
          return Ok(false);
        }
        j := j + 1;
      }
      assert rhs[..j] == rhs;
      return Ok(true);
    }

    /** The scan of a right side that mentions v, the nonterminal being
        computed: v itself is passed over only if ε is already known to be
        in FIRST(v) and contributes nothing; other symbols are treated as in
        ScanRight. */
    method ScanLeftRecursive(v: Symbol, rhs: seq<Symbol>, busy: set<Symbol>, fs: FirstSet)
      returns (r: Result<()>)
      requires Wf() && firstSetMap.Some? && MemoOk(firstSetMap.value)
      requires busy <= productionMap.Keys && firstSetMap.value.Keys !! busy && v in busy
      modifies this, fs
      decreases |productionMap.Keys - busy|, 2
      ensures Wf() && firstSetMap.Some? && MemoOk(firstSetMap.value)
      ensures Submap(old(firstSetMap).value, firstSetMap.value) && firstSetMap.value.Keys !! busy
      ensures fs.hasEpsilon == old(fs.hasEpsilon)
      ensures r.Ok? ==>
        Covered(rhs, Provisional(firstSetMap.value, v, fs.hasEpsilon)) &&
        fs.terms == old(fs.terms) + SeqFirst(rhs, Provisional(firstSetMap.value, v, fs.hasEpsilon)).terms
      ensures OthersSafe(v, rhs, busy) ==> r.Ok?
    {
      ghost var memo0 := firstSetMap.value;
      ghost var eps := fs.hasEpsilon;
      var j := 0;
      while j < |rhs|
        invariant 0 <= j <= |rhs|
        invariant Wf() && firstSetMap.Some? && MemoOk(firstSetMap.value)
        invariant Submap(memo0, firstSetMap.value) && firstSetMap.value.Keys !! busy
        invariant fs.hasEpsilon == eps
        invariant Covered(rhs[..j], Provisional(firstSetMap.value, v, eps))
        invariant SeqFirst(rhs[..j], Provisional(firstSetMap.value, v, eps)).hasEpsilon
        invariant fs.terms == old(fs.terms) + SeqFirst(rhs[..j], Provisional(firstSetMap.value, v, eps)).terms
      {
        var s := rhs[j];
        ghost var before := Provisional(firstSetMap.value, v, eps);
        if s.isVt {
          fs.Add(s);
          ScanStopsAtTerminal(rhs, j, before);
          return Ok(());
        }
        if s == v {
          ScanPassesNonterminal(rhs, j, before, before);
          if !fs.hasEpsilon {
            return Ok(());
          }
        } else {
          ghost var beforeMemo := firstSetMap.value;
          var passed := AddNonterminal(s, busy, fs);
          if passed.Err? {
            return Err(passed.error);
          }
          ghost var after := Provisional(firstSetMap.value, v, eps);
          ProvisionalSubmap(beforeMemo, firstSetMap.value, v, eps);
          ScanPassesNonterminal(rhs, j, before, after);
          SubmapTrans(memo0, beforeMemo, firstSetMap.value);
          if !passed.value {
            return Ok(());
          }
        }
        j := j + 1;
      }
      assert rhs[..j] == rhs;
      return Ok(());
    }

    /** getFirstSetMap: the first call fills the memo with the FIRST set of
        every key, in key order; later calls return the memo as it stands. */
    method GetFirstSetMap() returns (r: Result<Memo>)
      requires Valid()
      modifies this
      ensures Valid() && firstSetMap.Some?
      ensures old(firstSetMap).Some? ==> r == Ok(old(firstSetMap).value) && firstSetMap == old(firstSetMap)
      ensures r.Ok? ==> firstSetMap == Some(r.value)
      ensures old(firstSetMap).None? && r.Ok? ==> r.value.Keys == productionMap.Keys
      ensures FirstSafe(productionMap) ==> r.Ok?
    {
      if firstSetMap.Some? {
        return Ok(firstSetMap.value);
      }
      firstSetMap := Some(map[]);
      for i := 0 to |order|
        invariant Valid() && firstSetMap.Some?
        invariant forall j :: 0 <= j < i ==> order[j] in firstSetMap.value
      {
        var next := GetFirstSet(order[i], {});
        if next.Err? {
          return Err(next.error);
        }
      }
      forall k | k in firstSetMap.value ensures k in productionMap {
        assert EntrySound(firstSetMap.value, productionMap, k);
      }
      return Ok(firstSetMap.value);
    }

    /** getFirstSetBySymbols: FIRST of a symbol string, read off the memo
        (which the first call fills). */
    method GetFirstSetBySymbols(syms: seq<Symbol>) returns (r: Result<FirstVal>)
      requires Valid()
      modifies this
      ensures Valid() && firstSetMap.Some?
      ensures old(firstSetMap).Some? ==> firstSetMap == old(firstSetMap) && r.Ok?
      ensures FirstSafe(productionMap) ==> r.Ok?
      ensures r.Ok? ==> r.value == SeqFirst(syms, firstSetMap.value)
      ensures r.Ok? ==> forall t :: t in r.value.terms ==> t.isVt
    {
      var memo := GetFirstSetMap();
      if memo.Err? {
        return Err(memo.error);
      }
      SeqFirstOnlyTerminals(syms, memo.value);
      r := Ok(SeqFirst(syms, memo.value));
    }
  }
}
