/** LR(1) closure and GOTO over interned item sets (LR1Utils). */
module LR1 {
  import opened Outcomes
  import opened Symbols
  import opened Productions
  import opened FirstSpec
  import opened Grammars
  import opened Items
  import opened ItemSets
  import opened Collections

  type ProductionMap = map<Symbol, seq<Production>>

  /** The symbol after the dot: END when the dot is at the end, a list
      index error when the dot lies outside the right side. */
  function DotSymbol(it: Item): (r: Result<Symbol>)
    ensures r.Err? <==> !(0 <= it.pos <= |it.production.right|)
    ensures r.Err? ==> r.error == IndexOutOfBounds
    ensures r.Ok? && it.pos < |it.production.right| ==> r.value == it.production.right[it.pos]
    ensures r.Ok? && it.pos == |it.production.right| ==> r.value == END
  {
    if it.pos == |it.production.right| then Ok(END)
    else if 0 <= it.pos < |it.production.right| then Ok(it.production.right[it.pos])
    else Err(IndexOutOfBounds)
  }

  /** An item A->α•Bβ,a with a nonterminal B after the dot. */
  predicate Expands(it: Item) {
    0 <= it.pos < |it.production.right| && !it.production.right[it.pos].isVt
  }

  /** closure adds items only for a nonterminal after the dot: a dot at the
      end reads as END, a terminal, and adds nothing. */
  lemma ExpandsIffNonterminalAfterDot(it: Item)
    ensures DotSymbol(it).Ok? && !DotSymbol(it).value.isVt <==> Expands(it)
  {
    EndIsTerminal();
  }

  /** FIRST(βa) for an item A->α•Bβ,a. */
  function Lookaheads(it: Item, memo: Memo): set<Symbol>
    requires Expands(it)
  {
    SeqFirst(FirstSymbols(it).value, memo).terms
  }

  /** x is an item [B->•δ, b] that src = A->α•Bβ,a adds: B->δ is a
      production of B and b is in FIRST(βa). */
  predicate Generates(src: Item, x: Item, pm: ProductionMap, memo: Option<Memo>) {
    memo.Some? && Expands(src) && src.production.right[src.pos] in pm &&
    x.production in pm[src.production.right[src.pos]] &&
    x.lookahead in Lookaheads(src, memo.value) && IsStartItem(x)
  }

  /** An item as CreateStart builds it: dot at 0, content rendered. */
  predicate IsStartItem(x: Item) {
    x.pos == 0 && Rendered(x)
  }

  /** A start item of a production of ps with a lookahead of las. */
  predicate FromLists(x: Item, ps: seq<Production>, las: seq<Symbol>) {
    IsStartItem(x) && x.production in ps && x.lookahead in las
  }

  /** it has been processed against result: its dot is in range and, when
      a nonterminal B follows it, every [B->•δ, b] with b in FIRST(βa) is in
      result (by content). */
  predicate Done(it: Item, result: ItemBag, pm: ProductionMap, memo: Option<Memo>) {
    DotSymbol(it).Ok? &&
    (Expands(it) ==>
      memo.Some? && it.production.right[it.pos] in pm &&
      forall p, b :: p in pm[it.production.right[it.pos]] && b in Lookaheads(it, memo.value) ==>
        CreateStart(p, b).content in result)
  }

  /** r2 keeps every entry of r1. */
  predicate Grows(r1: ItemBag, r2: ItemBag) {
    forall k :: k in r1 ==> k in r2 && r2[k] == r1[k]
  }

  /** Closed under expansion: every seed and every result item is done. */
  ghost predicate Closed(seeds: ItemBag, result: ItemBag, pm: ProductionMap, memo: Option<Memo>) {
    forall it :: it in seeds.Values || it in result.Values ==> Done(it, result, pm, memo)
  }

  /** Every item added beyond result0 is added by a seed or by an item of
      the result. */
  ghost predicate Sound(seeds: ItemBag, result0: ItemBag, result: ItemBag, pm: ProductionMap, memo: Option<Memo>) {
    forall k :: k in result && k !in result0 ==>
      exists src :: (src in seeds.Values || src in result.Values) && Generates(src, result[k], pm, memo)
  }

  /** Every nonterminal on the right side of p has productions. */
  predicate RightDefined(p: Production, pm: ProductionMap) {
    forall s :: s in p.right && !s.isVt ==> s in pm
  }

  /** Every nonterminal on a right side of the grammar has productions. */
  ghost predicate Defined(pm: ProductionMap) {
    forall k, p :: k in pm && p in pm[k] ==> RightDefined(p, pm)
  }

  /** closure can expand it without an error: its dot lies within the
      right side, and every nonterminal there has productions. */
  predicate Expandable(it: Item, pm: ProductionMap) {
    0 <= it.pos <= |it.production.right| && RightDefined(it.production, pm)
  }

  /** What makes closure of seeds succeed: FIRST can be had (firstReady),
      every right side of the grammar is defined and every seed is
      expandable. */
  ghost predicate ClosureReady(seeds: ItemBag, pm: ProductionMap, firstReady: bool) {
    firstReady && Defined(pm) && forall it :: it in seeds.Values ==> Expandable(it, pm)
  }

  /** One expansion of cur: res is result with the items cur generates
      added by content, cur is done in it, and pushed lists the items
      added. */
  ghost predicate Expanded(cur: Item, result: ItemBag, res: ItemBag, pushed: seq<Item>,
                           pm: ProductionMap, memo: Option<Memo>) {
    Keyed(res) && Grows(result, res) && Done(cur, res, pm, memo) &&
    (forall k :: k in res && k !in result ==> Generates(cur, res[k], pm, memo) && res[k] in pushed) &&
    (forall x :: x in pushed ==> x.content in res && res[x.content] == x && x.content !in result) &&
    (res.Keys == result.Keys ==> pushed == [])
  }

  /** The items closure pushes are expandable when every right side is
      defined, so an expandable stack stays expandable. */
  lemma ExpandableStep(stack: seq<Item>, res: ItemBag, result: ItemBag, pushed: seq<Item>,
                       pm: ProductionMap, memo: Option<Memo>)
    requires stack != [] && Defined(pm) && forall x :: x in stack ==> Expandable(x, pm)
    requires Expanded(stack[|stack| - 1], result, res, pushed, pm, memo)
    ensures forall x :: x in stack[..|stack| - 1] + pushed ==> Expandable(x, pm)
  {
    forall x | x in stack[..|stack| - 1] + pushed ensures Expandable(x, pm) {
      if x in pushed {
        assert Generates(stack[|stack| - 1], res[x.content], pm, memo);
      } else {
        assert x in stack;
      }
    }
  }

  /** Proof helper: an item already expanded stays expanded as the
      bag grows and the memo stays fixed. */
  lemma DoneGrows(it: Item, r1: ItemBag, r2: ItemBag, pm: ProductionMap, m1: Option<Memo>, m2: Option<Memo>)
    requires Done(it, r1, pm, m1) && r1.Keys <= r2.Keys && (m1.Some? ==> m2 == m1)
    ensures Done(it, r2, pm, m2)
  {
  }

  /** The symbols a seed item mentions. */
  function SeedSymbols(seeds: ItemBag): set<Symbol> {
    set it, s | it in seeds.Values && s in it.production.right + [it.lookahead] :: s
  }

  /** The lookaheads and right-side terminals of it lie in la. */
  predicate Scoped(it: Item, la: set<Symbol>) {
    it.lookahead in la && TerminalsIn(it.production.right, la)
  }

  function AllProductions(pm: ProductionMap): set<Production> {
    set k, p | k in pm && p in pm[k] :: p
  }

  /** Every item the closure can add: a start item of some production with
      a lookahead from la. */
  function Universe(pm: ProductionMap, la: set<Symbol>): set<string> {
    set p, b | p in AllProductions(pm) && b in la :: CreateStart(p, b).content
  }

  /** FIRST(βa) of a scoped item stays within la when the memo does. */
  lemma LookaheadsScoped(it: Item, memo: Memo, la: set<Symbol>)
    requires Expands(it) && Scoped(it, la) && MemoTermsIn(memo, la)
    ensures Lookaheads(it, memo) <= la
  {
    var syms := FirstSymbols(it).value;
    forall i | 0 <= i < |syms| && syms[i].isVt ensures syms[i] in la {
      if i < |syms| - 1 {
        assert syms[i] == it.production.right[it.pos + 1 + i];
      }
    }
    SeqFirstTerms(syms, memo, la);
  }

  lemma MemoTermsGrow(memo: Memo, u: set<Symbol>, la: set<Symbol>)
    requires MemoTermsIn(memo, u) && u <= la
    ensures MemoTermsIn(memo, la)
  {
  }

  /** A grown bag with other keys has a new key. */
  lemma NewKey(result: ItemBag, res: ItemBag) returns (k: string)
    requires Grows(result, res) && res.Keys != result.Keys
    ensures k in res && k !in result
  {
    if forall k' :: k' in res ==> k' in result {
      assert false;
    }
    k :| k in res && k !in result;
  }

  /** res is result with start items of ps and las added by content, and
      pushed lists exactly the items added. */
  predicate Added(res: ItemBag, result: ItemBag, pushed: seq<Item>, ps: seq<Production>, las: seq<Symbol>) {
    Keyed(res) && Grows(result, res) &&
    (forall k :: k in res && k !in result ==> FromLists(res[k], ps, las) && res[k] in pushed) &&
    (forall x :: x in pushed ==> x.content in res && res[x.content] == x && x.content !in result) &&
    (res.Keys == result.Keys ==> pushed == [])
  }

  /** Every start item of a production of ps with a lookahead of las is in
      res, by content. */
  predicate Covers(ps: seq<Production>, las: seq<Symbol>, res: ItemBag) {
    forall i, b :: 0 <= i < |ps| && b in las ==> CreateStart(ps[i], b).content in res
  }

  /** Adding one more start item with a new content keeps Added. */
  lemma AddedOne(res: ItemBag, result: ItemBag, pushed: seq<Item>, ps: seq<Production>, las: seq<Symbol>, item: Item)
    requires Added(res, result, pushed, ps, las) && FromLists(item, ps, las) && item.content !in res
    ensures Added(res[item.content := item], result, pushed + [item], ps, las)
  {
    var res' := res[item.content := item];
    assert item.content in res'.Keys - result.Keys;
    forall k | k in res' && k !in result ensures res'[k] in pushed + [item] {
      if k != item.content {
        assert res'[k] == res[k] && res[k] in pushed;
      }
    }
  }

  /** The inner loop of closure for one production p: every start item of
      p with a lookahead from las whose content is new is added, and pushed
      (the items pushed are returned). */
  method AddItems(p: Production, las: seq<Symbol>, result: ItemBag)
    returns (res: ItemBag, pushed: seq<Item>)
    requires Keyed(result)
    ensures Added(res, result, pushed, [p], las) && Covers([p], las, res)
  {
    res, pushed := result, [];
    for j := 0 to |las|
      invariant Added(res, result, pushed, [p], las)
      invariant forall j' :: 0 <= j' < j ==> CreateStart(p, las[j']).content in res
    {
      var item := CreateStart(p, las[j]);
      if item.content !in res {
        AddedOne(res, result, pushed, [p], las, item);
        res := res[item.content := item];
        pushed := pushed + [item];
      }
    }
    forall i, b | 0 <= i < 1 && b in las ensures CreateStart([p][i], b).content in res {
      var j :| 0 <= j < |las| && las[j] == b;
    }
  }

  /** One more production handled: its start items join the covered ones. */
  lemma CoversStep(ps: seq<Production>, i: int, las: seq<Symbol>, res0: ItemBag, res: ItemBag)
    requires 0 <= i < |ps|
    requires Covers(ps[..i], las, res0) && res0.Keys <= res.Keys && Covers([ps[i]], las, res)
    ensures Covers(ps[..i + 1], las, res)
  {
    var pre := ps[..i + 1];
    forall i', b | 0 <= i' < |pre| && b in las ensures CreateStart(pre[i'], b).content in res {
      if i' < i {
        assert pre[i'] == ps[..i][i'];
      } else {
        assert pre[i'] == [ps[i]][0];
      }
    }
  }

  /** One more production handled: the items added so far and the items
      it adds make up what the loop has added. */
  lemma AddedStep(ps: seq<Production>, i: int, las: seq<Symbol>, result: ItemBag, res0: ItemBag,
                  pushed: seq<Item>, res: ItemBag, more: seq<Item>)
    requires 0 <= i < |ps|
    requires Added(res0, result, pushed, ps, las)
    requires Added(res, res0, more, [ps[i]], las)
    ensures Added(res, result, pushed + more, ps, las)
  {
    forall k | k in res && k !in result
      ensures FromLists(res[k], ps, las) && res[k] in pushed + more
    {
      if k !in res0 {
        assert FromLists(res[k], [ps[i]], las) && res[k] in more;
      } else {
        assert res[k] == res0[k] && res0[k] in pushed;
      }
    }
    if res.Keys == result.Keys {
      assert res0.Keys == result.Keys;
    }
  }

  /** The loops of closure over the productions ps of B and the
      lookaheads las, for one popped item. */
  method AddAllItems(ps: seq<Production>, las: seq<Symbol>, result: ItemBag)
    returns (res: ItemBag, pushed: seq<Item>)
    requires Keyed(result)
    ensures Added(res, result, pushed, ps, las) && Covers(ps, las, res)
  {
    res, pushed := result, [];
    for i := 0 to |ps|
      invariant Added(res, result, pushed, ps, las) && Covers(ps[..i], las, res)
    {
      ghost var res0 := res;
      var more;
      res, more := AddItems(ps[i], las, res);
      AddedStep(ps, i, las, result, res0, pushed, res, more);
      CoversStep(ps, i, las, res0, res);
      pushed := pushed + more;
    }
    assert ps[..|ps|] == ps;
  }

  /** Expanding cur with the productions of B and the lookaheads
      FIRST(βa) leaves cur done, and every item added is one cur generates. */
  lemma AddedGenerates(cur: Item, res: ItemBag, result: ItemBag, pushed: seq<Item>,
                       pm: ProductionMap, memo: Memo, las: seq<Symbol>)
    requires Expands(cur) && cur.production.right[cur.pos] in pm
    requires forall x :: x in las <==> x in Lookaheads(cur, memo)
    requires Added(res, result, pushed, pm[cur.production.right[cur.pos]], las)
    requires Covers(pm[cur.production.right[cur.pos]], las, res)
    ensures Done(cur, res, pm, Some(memo))
    ensures forall k :: k in res && k !in result ==> Generates(cur, res[k], pm, Some(memo))
  {
    var ps := pm[cur.production.right[cur.pos]];
    forall p, b | p in ps && b in Lookaheads(cur, memo) ensures CreateStart(p, b).content in res {
      var i :| 0 <= i < |ps| && ps[i] == p;
      assert b in las;
    }
  }

  /** The body of closure's loop for one popped item cur: when a
      nonterminal B follows the dot, FIRST(βa) is computed and every
      production of B is expanded with it. */
  method ExpandItem(g: Grammar, cur: Item, result: ItemBag)
    returns (r: Result<()>, res: ItemBag, pushed: seq<Item>)
    requires g.Valid() && Keyed(result)
    modifies g
    ensures g.Valid() && (old(g.firstSetMap).Some? ==> g.firstSetMap == old(g.firstSetMap))
    ensures r.Ok? ==> Expanded(cur, result, res, pushed, g.productionMap, g.firstSetMap)
    ensures Expandable(cur, g.productionMap) && (old(g.firstSetMap).Some? || FirstSafe(g.productionMap)) ==> r.Ok?
  {
    res, pushed := result, [];
    var after := DotSymbol(cur);
    if after.Err? {
      return Err(after.error), res, pushed;
    }
    ExpandsIffNonterminalAfterDot(cur);
    if after.value.isVt {
      return Ok(()), res, pushed;
    }
    var pm := g.productionMap;
    var productionList: Option<seq<Production>> := if after.value in pm then Some(pm[after.value]) else None;
    var syms := FirstSymbols(cur).value;
    var first := g.GetFirstSetBySymbols(syms);
    if first.Err? {
      return Err(first.error), res, pushed;
    }
    if productionList.None? {
      return Err(NullPointer), res, pushed;
    }
    var las := Enumerate(first.value.terms);
    EnumerationMembers(las, first.value.terms);
    res, pushed := AddAllItems(productionList.value, las, res);
    AddedGenerates(cur, res, result, pushed, pm, g.firstSetMap.value, las);
    r := Ok(());
  }

  /** Seed items mention only symbols of SeedSymbols. */
  lemma SeedsScoped(seeds: ItemBag, la: set<Symbol>)
    requires SeedSymbols(seeds) <= la
    ensures forall it :: it in seeds.Values ==> Scoped(it, la)
  {
    forall it | it in seeds.Values ensures Scoped(it, la) {
      var syms := it.production.right + [it.lookahead];
      assert it.lookahead == syms[|syms| - 1] && it.lookahead in syms;
      assert it.lookahead in SeedSymbols(seeds);
      forall i | 0 <= i < |it.production.right| ensures it.production.right[i] in la {
        assert it.production.right[i] == syms[i] && syms[i] in syms;
        assert it.production.right[i] in SeedSymbols(seeds);
      }
    }
  }

  /** An item generated from a scoped item is scoped, and its content is in
      the universe of start items. */
  lemma GeneratedScoped(g: Grammar, src: Item, x: Item, la: set<Symbol>)
    requires g.Valid() && g.vtSet <= la && Scoped(src, la)
    requires Generates(src, x, g.productionMap, g.firstSetMap)
    ensures Scoped(x, la) && x.content in Universe(g.productionMap, la)
  {
    var memo := g.firstSetMap.value;
    MemoTermsGrow(memo, g.vtSet, la);
    LookaheadsScoped(src, memo, la);
    var ps := g.productionMap[src.production.right[src.pos]];
    var i :| 0 <= i < |ps| && ps[i] == x.production;
    assert TerminalsIn(ps[i].right, g.vtSet);
    assert x.production in AllProductions(g.productionMap);
    assert x.content == CreateStart(x.production, x.lookahead).content;
  }

  /** Every item added beyond result0 is a scoped start item of the universe. */
  ghost predicate AddedInUniverse(result0: ItemBag, result: ItemBag, pm: ProductionMap, la: set<Symbol>) {
    forall k :: k in result && k !in result0 ==> k in Universe(pm, la) && Scoped(result[k], la)
  }

  /** The stack holds scoped seed or result items. */
  ghost predicate StackFrom(seeds: ItemBag, result: ItemBag, stack: seq<Item>, la: set<Symbol>) {
    forall x :: x in stack ==> (x in seeds.Values || x in result.Values) && Scoped(x, la)
  }

  /** Every seed or result item off the stack is done. */
  ghost predicate DoneOffStack(seeds: ItemBag, result: ItemBag, stack: seq<Item>, pm: ProductionMap, memo: Option<Memo>) {
    forall it :: (it in seeds.Values || it in result.Values) && it !in stack ==> Done(it, result, pm, memo)
  }

  /** The worklist invariant of closure: the result grows from result0 by
      scoped start items of the universe, every item still to do is on the
      stack, every other item is done, and every added item is generated. */
  ghost predicate Progress(seeds: ItemBag, result0: ItemBag, result: ItemBag, stack: seq<Item>,
                           pm: ProductionMap, memo: Option<Memo>, la: set<Symbol>) {
    Keyed(result) && Grows(result0, result) && AddedInUniverse(result0, result, pm, la) &&
    StackFrom(seeds, result, stack, la) && DoneOffStack(seeds, result, stack, pm, memo) &&
    Sound(seeds, result0, result, pm, memo)
  }

  /** A value of a grown bag is an old value or one under a new key. */
  lemma GrownValue(result: ItemBag, res: ItemBag, it: Item) returns (k: string)
    requires Grows(result, res) && it in res.Values && it !in result.Values
    ensures k in res && k !in result && res[k] == it
  {
    k :| k in res && res[k] == it;
  }

  /** Sound survives one expansion step. */
  lemma SoundStep(seeds: ItemBag, result0: ItemBag, result: ItemBag, res: ItemBag, cur: Item,
                  pm: ProductionMap, before: Option<Memo>, after: Option<Memo>)
    requires Sound(seeds, result0, result, pm, before) && Grows(result, res)
    requires cur in seeds.Values || cur in result.Values
    requires before.Some? ==> after == before
    requires forall k :: k in res && k !in result ==> Generates(cur, res[k], pm, after)
    ensures Sound(seeds, result0, res, pm, after)
  {
    forall k | k in res && k !in result0
      ensures exists src :: (src in seeds.Values || src in res.Values) && Generates(src, res[k], pm, after)
    {
      if k in result {
        var src :| (src in seeds.Values || src in result.Values) && Generates(src, result[k], pm, before);
        if src in result.Values {
          var k' :| k' in result && result[k'] == src;
          assert res[k'] == src;
        }
        assert res[k] == result[k];
      } else {
        if cur in result.Values {
          var k' :| k' in result && result[k'] == cur;
          assert res[k'] == cur;
        }
      }
    }
  }

  lemma AddedInUniverseStep(g: Grammar, result0: ItemBag, result: ItemBag, res: ItemBag, cur: Item, la: set<Symbol>)
    requires g.Valid() && g.vtSet <= la && Scoped(cur, la)
    requires AddedInUniverse(result0, result, g.productionMap, la) && Grows(result, res) && Keyed(res)
    requires forall k :: k in res && k !in result ==> Generates(cur, res[k], g.productionMap, g.firstSetMap)
    ensures AddedInUniverse(result0, res, g.productionMap, la)
  {
    forall k | k in res && k !in result0 ensures k in Universe(g.productionMap, la) && Scoped(res[k], la) {
      if k !in result {
        GeneratedScoped(g, cur, res[k], la);
      } else {
        assert res[k] == result[k];
      }
    }
  }

  lemma StackFromStep(seeds: ItemBag, result0: ItemBag, result: ItemBag, res: ItemBag, rest: seq<Item>,
                      cur: Item, pushed: seq<Item>, pm: ProductionMap, la: set<Symbol>)
    requires StackFrom(seeds, result, rest + [cur], la) && Grows(result, res)
    requires AddedInUniverse(result0, res, pm, la) && Grows(result0, result)
    requires forall x :: x in pushed ==> x.content in res && res[x.content] == x && x.content !in result
    ensures StackFrom(seeds, res, rest + pushed, la)
  {
    forall x | x in rest + pushed ensures (x in seeds.Values || x in res.Values) && Scoped(x, la) {
      if x in rest {
        assert x in rest + [cur];
        if x in result.Values {
          var k :| k in result && result[k] == x;
          assert res[k] == x;
        }
      } else {
        assert res[x.content] == x;
      }
    }
  }

  lemma DoneOffStackStep(seeds: ItemBag, result: ItemBag, res: ItemBag, rest: seq<Item>, cur: Item,
                         pushed: seq<Item>, pm: ProductionMap, before: Option<Memo>, after: Option<Memo>)
    requires DoneOffStack(seeds, result, rest + [cur], pm, before) && Grows(result, res)
    requires before.Some? ==> after == before
    requires Done(cur, res, pm, after)
    requires forall k :: k in res && k !in result ==> res[k] in pushed
    ensures DoneOffStack(seeds, res, rest + pushed, pm, after)
  {
    forall it | (it in seeds.Values || it in res.Values) && it !in rest + pushed
      ensures Done(it, res, pm, after)
    {
      if it != cur {
        if it in res.Values && it !in result.Values {
          var k := GrownValue(result, res, it);
          assert false;
        }
        assert it !in rest + [cur];
        DoneGrows(it, result, res, pm, before, after);
      }
    }
  }

  /** The worklist invariant survives popping the top of the stack and
      expanding it. */
  lemma ProgressStep(g: Grammar, seeds: ItemBag, result0: ItemBag, result: ItemBag, stack: seq<Item>,
                     res: ItemBag, pushed: seq<Item>, before: Option<Memo>, la: set<Symbol>)
    requires g.Valid() && g.vtSet <= la && stack != []
    requires Progress(seeds, result0, result, stack, g.productionMap, before, la)
    requires before.Some? ==> g.firstSetMap == before
    requires Expanded(stack[|stack| - 1], result, res, pushed, g.productionMap, g.firstSetMap)
    ensures Progress(seeds, result0, res, stack[..|stack| - 1] + pushed, g.productionMap, g.firstSetMap, la)
  {
    var pm, after := g.productionMap, g.firstSetMap;
    var cur, rest := stack[|stack| - 1], stack[..|stack| - 1];
    assert stack == rest + [cur];
    assert cur in stack;
    AddedInUniverseStep(g, result0, result, res, cur, la);
    StackFromStep(seeds, result0, result, res, rest, cur, pushed, pm, la);
    DoneOffStackStep(seeds, result, res, rest, cur, pushed, pm, before, after);
    SoundStep(seeds, result0, result, res, cur, pm, before, after);
  }

  /** The invariant holds at the start: the stack holds every seed and
      result0 is part of the seeds. */
  lemma ProgressInit(seeds: ItemBag, result0: ItemBag, stack: seq<Item>, pm: ProductionMap,
                     memo: Option<Memo>, la: set<Symbol>)
    requires Keyed(seeds) && Grows(result0, seeds) && SeedSymbols(seeds) <= la
    requires forall x :: x in stack <==> x in seeds.Values
    ensures Progress(seeds, result0, result0, stack, pm, memo, la)
  {
    SeedsScoped(seeds, la);
    forall it | it in result0.Values ensures it in seeds.Values {
      var k :| k in result0 && result0[k] == it;
      assert seeds[k] == it;
    }
  }

  /** With nothing left on the stack, the result is closed. */
  lemma ProgressClosed(seeds: ItemBag, result0: ItemBag, result: ItemBag, pm: ProductionMap,
                       memo: Option<Memo>, la: set<Symbol>)
    requires Progress(seeds, result0, result, [], pm, memo, la)
    ensures Closed(seeds, result, pm, memo)
  {
  }

  /** The contents of xs, in order. */
  function ItemContents(xs: seq<Item>): (r: seq<string>)
    ensures |r| == |xs| && forall i :: 0 <= i < |xs| ==> r[i] == xs[i].content
  {
    seq(|xs|, i requires 0 <= i < |xs| => xs[i].content)
  }

  /** The items of result stored under the keys listed in keys. */
  ghost function Earlier(result: ItemBag, keys: seq<string>): set<Item> {
    set k | k in keys && k in result :: result[k]
  }

  /** Step n of order: its key is in result, generated by a seed or by an
      item added before it. */
  ghost predicate DerivedAt(seeds: ItemBag, result: ItemBag, order: seq<string>, n: nat,
                            pm: ProductionMap, memo: Option<Memo>)
    requires n < |order|
  {
    order[n] in result &&
    exists src :: (src in seeds.Values || src in Earlier(result, order[..n])) &&
                  Generates(src, result[order[n]], pm, memo)
  }

  /** order lists every key added beyond result0, in the order closure
      added them, and each is generated by a seed or by an item added
      before it: no item of the result is there only because it generates
      itself. */
  ghost predicate Derivation(seeds: ItemBag, result0: ItemBag, result: ItemBag, order: seq<string>,
                             pm: ProductionMap, memo: Option<Memo>) {
    (forall k :: k in result && k !in result0 ==> k in order) &&
    forall n: nat :: n < |order| ==> DerivedAt(seeds, result, order, n, pm, memo)
  }

  /** result is reached from result0 by a derivation from seeds. */
  ghost predicate Derived(seeds: ItemBag, result0: ItemBag, result: ItemBag, pm: ProductionMap, memo: Option<Memo>) {
    exists order :: Derivation(seeds, result0, result, order, pm, memo)
  }

  lemma EarlierGrows(result: ItemBag, res: ItemBag, keys: seq<string>, keys': seq<string>)
    requires Grows(result, res) && forall k :: k in keys ==> k in keys'
    ensures Earlier(result, keys) <= Earlier(res, keys')
  {
    forall x | x in Earlier(result, keys) ensures x in Earlier(res, keys') {
      var k :| k in keys && k in result && result[k] == x;
      assert res[k] == x;
    }
  }

  /** An earlier step stays a step when the result grows and more keys
      follow. */
  lemma DerivedAtKept(seeds: ItemBag, result: ItemBag, order: seq<string>, res: ItemBag, more: seq<string>, n: nat,
                      pm: ProductionMap, before: Option<Memo>, after: Option<Memo>)
    requires n < |order| && DerivedAt(seeds, result, order, n, pm, before) && Grows(result, res)
    requires before.Some? ==> after == before
    ensures DerivedAt(seeds, res, order + more, n, pm, after)
  {
    var order' := order + more;
    assert order'[n] == order[n] && order'[..n] == order[..n];
    var src :| (src in seeds.Values || src in Earlier(result, order[..n])) &&
               Generates(src, result[order[n]], pm, before);
    EarlierGrows(result, res, order[..n], order'[..n]);
    assert Generates(src, res[order'[n]], pm, after);
  }

  /** A key added by expanding cur, a seed or an item listed in order, is a
      step after order. */
  lemma DerivedAtNew(seeds: ItemBag, result: ItemBag, order: seq<string>, res: ItemBag, more: seq<string>, n: nat,
                     cur: Item, pm: ProductionMap, memo: Option<Memo>)
    requires |order| <= n < |order| + |more| && Grows(result, res)
    requires cur in seeds.Values || cur in Earlier(result, order)
    requires more[n - |order|] in res && Generates(cur, res[more[n - |order|]], pm, memo)
    ensures DerivedAt(seeds, res, order + more, n, pm, memo)
  {
    var order' := order + more;
    assert order'[n] == more[n - |order|];
    forall k | k in order ensures k in order'[..n] {
      var m :| 0 <= m < |order| && order[m] == k;
      assert order'[..n][m] == k;
    }
    EarlierGrows(result, res, order, order'[..n]);
  }

  /** A derivation extends by the items one expansion step adds, listed
      after the earlier ones. */
  lemma DerivationStep(seeds: ItemBag, result0: ItemBag, result: ItemBag, order: seq<string>,
                       res: ItemBag, cur: Item, pushed: seq<Item>,
                       pm: ProductionMap, before: Option<Memo>, after: Option<Memo>)
    requires Derivation(seeds, result0, result, order, pm, before)
    requires Grows(result0, seeds) && Grows(result0, result)
    requires cur in seeds.Values || cur in result.Values
    requires before.Some? ==> after == before
    requires Expanded(cur, result, res, pushed, pm, after)
    ensures Derivation(seeds, result0, res, order + ItemContents(pushed), pm, after)
  {
    var added := ItemContents(pushed);
    var order' := order + added;
    if cur in result.Values {
      var k :| k in result && result[k] == cur;
      if k in result0 {
        assert seeds[k] == cur;
      } else {
        assert cur in Earlier(result, order);
      }
    }
    forall k | k in res && k !in result0 ensures k in order' {
      if k !in result {
        var i :| 0 <= i < |pushed| && pushed[i] == res[k];
        assert order'[|order| + i] == k;
      }
    }
    forall n: nat | n < |order'| ensures DerivedAt(seeds, res, order', n, pm, after) {
      if n < |order| {
        DerivedAtKept(seeds, result, order, res, added, n, pm, before, after);
      } else {
        var x := pushed[n - |order|];
        assert added[n - |order|] == x.content;
        DerivedAtNew(seeds, result, order, res, added, n, cur, pm, after);
      }
    }
  }

  /** What src generates is in every bag in which src is done. */
  lemma GeneratedIn(src: Item, x: Item, t: ItemBag, pm: ProductionMap, memo: Option<Memo>)
    requires Generates(src, x, pm, memo) && Done(src, t, pm, memo)
    ensures x.content in t
  {
    assert x.content == CreateStart(x.production, x.lookahead).content;
  }

  /** Step n of a derivation lands in every closed bag t that agrees with
      result on the contents they share. */
  lemma {:induction false} DerivedKeyIn(seeds: ItemBag, result0: ItemBag, result: ItemBag, order: seq<string>,
                                        t: ItemBag, pm: ProductionMap, memo: Option<Memo>, n: nat)
    requires Keyed(result) && Derivation(seeds, result0, result, order, pm, memo)
    requires Closed(seeds, t, pm, memo) && forall k :: k in result && k in t ==> t[k] == result[k]
    requires n < |order|
    ensures order[n] in t
    decreases n
  {
    assert DerivedAt(seeds, result, order, n, pm, memo);
    var x := result[order[n]];
    var src :| (src in seeds.Values || src in Earlier(result, order[..n])) && Generates(src, x, pm, memo);
    if src !in seeds.Values {
      var k :| k in order[..n] && k in result && result[k] == src;
      var m :| 0 <= m < n && order[..n][m] == k;
      DerivedKeyIn(seeds, result0, result, order, t, pm, memo, m);
      assert t[k] == src;
    }
    GeneratedIn(src, x, t, pm, memo);
  }

  /** A derived result is the least closed one: every key of it is a key
      of any bag t that keeps result0, is closed over the seeds and agrees
      with it on the contents they share. */
  lemma DerivedLeast(seeds: ItemBag, result0: ItemBag, result: ItemBag, t: ItemBag, pm: ProductionMap, memo: Option<Memo>)
    requires Keyed(result) && Derived(seeds, result0, result, pm, memo)
    requires Grows(result0, t) && Closed(seeds, t, pm, memo)
    requires forall k :: k in result && k in t ==> t[k] == result[k]
    ensures result.Keys <= t.Keys
  {
    var order :| Derivation(seeds, result0, result, order, pm, memo);
    forall k | k in result ensures k in t {
      if k !in result0 {
        var n :| 0 <= n < |order| && order[n] == k;
        DerivedKeyIn(seeds, result0, result, order, t, pm, memo, n);
      }
    }
  }

  /** The worklist invariant of closure with the derivation order and,
      when closure is ready to succeed, expandable items on the stack. */
  ghost predicate Worklist(seeds: ItemBag, result0: ItemBag, result: ItemBag, stack: seq<Item>, order: seq<string>,
                           pm: ProductionMap, memo: Option<Memo>, la: set<Symbol>, ready: bool) {
    Progress(seeds, result0, result, stack, pm, memo, la) &&
    Derivation(seeds, result0, result, order, pm, memo) &&
    (ready ==> (memo.Some? || FirstSafe(pm)) && Defined(pm) && forall x :: x in stack ==> Expandable(x, pm))
  }

  /** One round of closure's loop: the top of the stack is popped and
      expanded, and what it adds is pushed. The invariant is kept, and
      either the result grows within the universe or the stack shrinks. */
  method ClosureStep(g: Grammar, seeds: ItemBag, result0: ItemBag, result: ItemBag, stack: seq<Item>,
                     ghost order: seq<string>, ghost la: set<Symbol>, ghost ready: bool)
    returns (r: Result<()>, res: ItemBag, stack': seq<Item>, ghost order': seq<string>)
    requires g.Valid() && g.vtSet <= la && stack != [] && Grows(result0, seeds)
    requires Worklist(seeds, result0, result, stack, order, g.productionMap, g.firstSetMap, la, ready)
    modifies g
    ensures g.Valid() && (old(g.firstSetMap).Some? ==> g.firstSetMap == old(g.firstSetMap))
    ensures ready ==> r.Ok?
    ensures r.Ok? ==> Worklist(seeds, result0, res, stack', order', g.productionMap, g.firstSetMap, la, ready)
    ensures r.Ok? ==>
      |Universe(g.productionMap, la) - res.Keys| < |Universe(g.productionMap, la) - result.Keys| ||
      (res.Keys == result.Keys && |stack'| < |stack|)
  {
    var cur := stack[|stack| - 1];
    var rest := stack[..|stack| - 1];
    ghost var before := g.firstSetMap;
    ghost var pm := g.productionMap;
    assert cur in stack;
    var pushed;
    r, res, pushed := ExpandItem(g, cur, result);
    stack', order' := rest + pushed, order + ItemContents(pushed);
    if r.Ok? {
      ProgressStep(g, seeds, result0, result, stack, res, pushed, before, la);
      DerivationStep(seeds, result0, result, order, res, cur, pushed, pm, before, g.firstSetMap);
      if ready {
        ExpandableStep(stack, res, result, pushed, pm, g.firstSetMap);
      }
      if res.Keys != result.Keys {
        var k := NewKey(result, res);
        Shrinks(Universe(pm, la), result.Keys, res.Keys, k);
      }
    }
  }

  /** The worklist loop of closure, started with result0 as the result:
      items are popped from the end of the stack and expanded until the
      stack is empty. On success every seed and result item is done, and
      order lists the items added beyond result0, each generated by a seed
      or by an item added before it. It succeeds whenever FIRST can be had,
      the grammar's right sides are defined and the seeds are expandable. */
  method Expand(g: Grammar, seeds: ItemBag, result0: ItemBag) returns (r: Result<ItemBag>, ghost order: seq<string>)
    requires g.Valid() && Keyed(seeds) && Grows(result0, seeds)
    modifies g
    ensures g.Valid() && (old(g.firstSetMap).Some? ==> g.firstSetMap == old(g.firstSetMap))
    ensures ClosureReady(seeds, g.productionMap, old(g.firstSetMap).Some? || FirstSafe(g.productionMap)) ==> r.Ok?
    ensures r.Ok? ==> Keyed(r.value) && Grows(result0, r.value)
    ensures r.Ok? ==> Closed(seeds, r.value, g.productionMap, g.firstSetMap)
    ensures r.Ok? ==> Sound(seeds, result0, r.value, g.productionMap, g.firstSetMap)
    ensures r.Ok? ==> Derivation(seeds, result0, r.value, order, g.productionMap, g.firstSetMap)
  {
    var stack := Enumerate(seeds.Values);
    EnumerationMembers(stack, seeds.Values);
    var result := result0;
    order := [];
    ghost var pm := g.productionMap;
    ghost var la := g.vtSet + SeedSymbols(seeds);
    ghost var u := Universe(pm, la);
    ghost var ready := ClosureReady(seeds, pm, g.firstSetMap.Some? || FirstSafe(pm));
    ProgressInit(seeds, result0, stack, pm, g.firstSetMap, la);
    while stack != []
      invariant g.Valid() && (old(g.firstSetMap).Some? ==> g.firstSetMap == old(g.firstSetMap))
      invariant Worklist(seeds, result0, result, stack, order, pm, g.firstSetMap, la, ready)
      decreases |u - result.Keys|, |stack|
    {
      var step;
      step, result, stack, order := ClosureStep(g, seeds, result0, result, stack, order, la, ready);
      if step.Err? {
        return Err(step.error), order;
      }
    }
    ProgressClosed(seeds, result0, result, pm, g.firstSetMap, la);
    r := Ok(result);
  }

  /** LR1Utils.closure as written: the result set starts empty, so it holds
      only the items that expansion adds, not the items of the given set. */
  method Closure(seeds: ItemBag, g: Grammar) returns (r: Result<ItemBag>)
    requires g.Valid() && Keyed(seeds)
    modifies g
    ensures g.Valid() && (old(g.firstSetMap).Some? ==> g.firstSetMap == old(g.firstSetMap))
    ensures ClosureReady(seeds, g.productionMap, old(g.firstSetMap).Some? || FirstSafe(g.productionMap)) ==> r.Ok?
    ensures r.Ok? ==> Keyed(r.value)
    ensures r.Ok? ==> Closed(seeds, r.value, g.productionMap, g.firstSetMap)
    ensures r.Ok? ==> Sound(seeds, map[], r.value, g.productionMap, g.firstSetMap)
    ensures r.Ok? ==> Derived(seeds, map[], r.value, g.productionMap, g.firstSetMap)
  {
    ghost var order;
    r, order := Expand(g, seeds, map[]);
  }

  /** CLOSURE(I) as the construction defines it: every item of I belongs to
      it, then expansion adds the generated items. */
  method SeededClosure(seeds: ItemBag, g: Grammar) returns (r: Result<ItemBag>)
    requires g.Valid() && Keyed(seeds)
    modifies g
    ensures g.Valid() && (old(g.firstSetMap).Some? ==> g.firstSetMap == old(g.firstSetMap))
    ensures ClosureReady(seeds, g.productionMap, old(g.firstSetMap).Some? || FirstSafe(g.productionMap)) ==> r.Ok?
    ensures r.Ok? ==> IsClosure(seeds, r.value, g.productionMap, g.firstSetMap)
  {
    ghost var order;
    r, order := Expand(g, seeds, seeds);
  }

  /** c is CLOSURE(seeds): it holds the seeds, is closed, and is derived
      from them, each other item generated by a seed or an item added
      before it. */
  ghost predicate IsClosure(seeds: ItemBag, c: ItemBag, pm: ProductionMap, memo: Option<Memo>) {
    Keyed(c) && Grows(seeds, c) && Closed(seeds, c, pm, memo) && Derived(seeds, seeds, c, pm, memo)
  }

  /** CLOSURE(I) is the least closed set of items holding I: it lies, by
      content, inside every such set t that agrees with it on the contents
      they share. */
  lemma ClosureLeast(seeds: ItemBag, c: ItemBag, t: ItemBag, pm: ProductionMap, memo: Option<Memo>)
    requires IsClosure(seeds, c, pm, memo)
    requires Grows(seeds, t) && Closed(seeds, t, pm, memo)
    requires forall k :: k in c && k in t ==> t[k] == c[k]
    ensures c.Keys <= t.Keys
  {
    DerivedLeast(seeds, seeds, c, t, pm, memo);
  }

  /** Two closures of the same items that agree on the contents they share
      hold the same contents. */
  lemma ClosureUnique(seeds: ItemBag, c1: ItemBag, c2: ItemBag, pm: ProductionMap, memo: Option<Memo>)
    requires IsClosure(seeds, c1, pm, memo) && IsClosure(seeds, c2, pm, memo)
    requires forall k :: k in c1 && k in c2 ==> c1[k] == c2[k]
    ensures c1.Keys == c2.Keys
  {
    ClosureLeast(seeds, c1, c2, pm, memo);
    ClosureLeast(seeds, c2, c1, pm, memo);
  }

  /** The production S'->a. */
  const AcceptA: Production := Production(NewSymbol("S'"), [NewSymbol("a")])

  /** Under S'->a, an item is generated only as a start item of S'->a. */
  lemma AcceptGenerated(src: Item, x: Item, memo: Option<Memo>)
    requires Generates(src, x, map[NewSymbol("S'") := [AcceptA]], memo)
    ensures x.production == AcceptA && x.pos == 0
  {
  }

  /** Under S'->a, neither a start item nor a kernel item [S'->a•, b]
      generates anything: "a" is a terminal and the kernel's dot is at the
      end. */
  lemma AcceptGeneratesNothing(src: Item, x: Item, memo: Option<Memo>)
    requires src.production == AcceptA && (src.pos == 0 || src.pos == 1)
    ensures !Generates(src, x, map[NewSymbol("S'") := [AcceptA]], memo)
  {
    NonterminalName("a");
  }

  /** For the grammar S'->a, GOTO({[S'->•a,#]}, a) closes the kernel
      {[S'->a•,#]}. For seeds of the form [S'->a•, b], the only result
      closure as written can return is empty: the kernel items are not in
      it, so the accepting item set is lost. */
  lemma ClosureDropsKernel(seeds: ItemBag, r: ItemBag, memo: Option<Memo>)
    requires forall it :: it in seeds.Values ==> it.production == AcceptA && it.pos == 1
    ensures Sound(seeds, map[], r, map[NewSymbol("S'") := [AcceptA]], memo) ==> r == map[]
  {
    var pm := map[NewSymbol("S'") := [AcceptA]];
    if r != map[] {
      var k :| k in r;
      if exists k' :: k' in r && !(r[k'].production == AcceptA && r[k'].pos == 0) {
        // an item of another shape has no generator
        k :| k in r && !(r[k].production == AcceptA && r[k].pos == 0);
        forall src | src in seeds.Values || src in r.Values ensures !Generates(src, r[k], pm, memo) {
          if Generates(src, r[k], pm, memo) {
            AcceptGenerated(src, r[k], memo);
          }
        }
      } else {
        // every item is a start item of S'->a, and so is nothing's output
        forall src | src in seeds.Values || src in r.Values ensures !Generates(src, r[k], pm, memo) {
          if src in r.Values {
            var k' :| k' in r && r[k'] == src;
          }
          AcceptGeneratesNothing(src, r[k], memo);
        }
      }
      assert !Sound(seeds, map[], r, pm, memo);
    }
  }

  /** GOTO moves the dot of it over x: the dot is before a symbol equal to
      x (Java's Symbol.equals). */
  predicate Shifts(it: Item, x: Symbol) {
    0 <= it.pos < |it.production.right| && SameSymbol(it.production.right[it.pos], x)
  }

  /** An item whose dot position is negative: reading the symbol after its
      dot is a list index error. */
  predicate BadDot(it: Item) {
    it.pos < 0
  }

  /** Some item of bag has a negative dot. */
  predicate HasBadDot(bag: ItemBag) {
    exists it :: it in bag.Values && BadDot(it)
  }

  /** The kernel J of GOTO(I, x) built from the items xs of I in iteration
      order: each item with x after the dot, advanced; an item whose
      advanced content is already present is not added again. */
  function Kernel(xs: seq<Item>, x: Symbol): (r: Result<ItemBag>)
    ensures r.Err? <==> exists i :: 0 <= i < |xs| && BadDot(xs[i])
    ensures r.Err? ==> r.error == IndexOutOfBounds
    ensures r.Ok? ==> Keyed(r.value)
  {
    if xs == [] then Ok(map[])
    else
      var init := Kernel(xs[..|xs| - 1], x);
      var last := xs[|xs| - 1];
      assert forall i :: 0 <= i < |xs| - 1 ==> xs[..|xs| - 1][i] == xs[i];
      if init.Err? then init
      else if BadDot(last) then Err(IndexOutOfBounds)
      else if Shifts(last, x) then
        var adv := Advance(last).value;
        if adv.content in init.value then init else Ok(init.value[adv.content := adv])
      else init
  }

  /** The kernel holds, by content, exactly the advanced items of xs with x
      after the dot. */
  lemma {:induction false} KernelContents(xs: seq<Item>, x: Symbol)
    requires Kernel(xs, x).Ok?
    ensures forall i :: 0 <= i < |xs| && Shifts(xs[i], x) ==> Advance(xs[i]).value.content in Kernel(xs, x).value
    ensures forall k :: k in Kernel(xs, x).value ==>
      exists i :: 0 <= i < |xs| && Shifts(xs[i], x) && Kernel(xs, x).value[k] == Advance(xs[i]).value
  {
    if xs != [] {
      var init := xs[..|xs| - 1];
      var n := |xs| - 1;
      KernelContents(init, x);
      var kin, kout := Kernel(init, x).value, Kernel(xs, x).value;
      forall i | 0 <= i < |xs| && Shifts(xs[i], x) ensures Advance(xs[i]).value.content in kout {
        if i < n {
          assert init[i] == xs[i];
        }
      }
      forall k | k in kout
        ensures exists i :: 0 <= i < |xs| && Shifts(xs[i], x) && kout[k] == Advance(xs[i]).value
      {
        if k in kin && kout[k] == kin[k] {
          var i :| 0 <= i < |init| && Shifts(init[i], x) && kin[k] == Advance(init[i]).value;
          assert init[i] == xs[i];
        } else {
          assert Shifts(xs[n], x) && kout[k] == Advance(xs[n]).value;
        }
      }
    }
  }

  /** The contents of the advanced items of bag with x after the dot. */
  ghost function ShiftedKeys(bag: ItemBag, x: Symbol): set<string> {
    set it | it in bag.Values && Shifts(it, x) :: Advance(it).value.content
  }

  /** kernel is the GOTO kernel of bag for x: its contents are the shifted
      contents, each stored under an advanced item of bag. */
  ghost predicate KernelOf(bag: ItemBag, x: Symbol, kernel: ItemBag) {
    Keyed(kernel) && kernel.Keys == ShiftedKeys(bag, x) &&
    forall k :: k in kernel ==> exists it :: it in bag.Values && Shifts(it, x) && kernel[k] == Advance(it).value
  }

  /** Whatever order the items of a set are visited in, the kernel fails
      exactly when one of them has a negative dot, and is otherwise the
      kernel of the set. */
  lemma KernelOfEnumeration(xs: seq<Item>, bag: ItemBag, x: Symbol)
    requires forall y :: y in xs <==> y in bag.Values
    ensures Kernel(xs, x).Err? <==> HasBadDot(bag)
    ensures Kernel(xs, x).Ok? ==> KernelOf(bag, x, Kernel(xs, x).value)
  {
    if Kernel(xs, x).Err? {
      var i :| 0 <= i < |xs| && BadDot(xs[i]);
      assert xs[i] in xs;
    } else {
      forall it | it in bag.Values ensures !BadDot(it) {
        var i :| 0 <= i < |xs| && xs[i] == it;
      }
      KernelContents(xs, x);
      var kernel := Kernel(xs, x).value;
      forall k ensures k in kernel <==> k in ShiftedKeys(bag, x) {
        if k in kernel {
          var i :| 0 <= i < |xs| && Shifts(xs[i], x) && kernel[k] == Advance(xs[i]).value;
          assert xs[i] in xs;
        }
        if k in ShiftedKeys(bag, x) {
          var it :| it in bag.Values && Shifts(it, x) && Advance(it).value.content == k;
          var i :| 0 <= i < |xs| && xs[i] == it;
        }
      }
      forall k | k in kernel ensures exists it :: it in bag.Values && Shifts(it, x) && kernel[k] == Advance(it).value {
        var i :| 0 <= i < |xs| && Shifts(xs[i], x) && kernel[k] == Advance(xs[i]).value;
        assert xs[i] in xs;
      }
    }
  }

  /** What GOTO of bag needs to succeed: no item has a negative dot, FIRST
      can be had, and every nonterminal on a right side of the grammar or
      of an item of bag has productions. */
  ghost predicate GotoReady(bag: ItemBag, pm: ProductionMap, firstReady: bool) {
    !HasBadDot(bag) && firstReady && Defined(pm) &&
    forall it :: it in bag.Values ==> RightDefined(it.production, pm)
  }

  /** The kernel of a bag ready for GOTO is ready for closure: each kernel
      item is an item of the bag with its dot moved within the right side. */
  lemma KernelReady(bag: ItemBag, x: Symbol, kernel: ItemBag, pm: ProductionMap, firstReady: bool)
    requires GotoReady(bag, pm, firstReady) && KernelOf(bag, x, kernel)
    ensures ClosureReady(kernel, pm, firstReady)
  {
    forall it | it in kernel.Values ensures Expandable(it, pm) {
      var k :| k in kernel && kernel[k] == it;
      var src :| src in bag.Values && Shifts(src, x) && kernel[k] == Advance(src).value;
    }
  }

  /** LR1Utils.addToDoubleMap: puts v under outer[k1][k2], creating the
      inner map when k1 is new, and returns the value k2 had before. */
  function AddToDoubleMap<K1, K2, V>(outer: map<K1, map<K2, V>>, k1: K1, k2: K2, v: V): (r: (map<K1, map<K2, V>>, Option<V>))
    ensures r.0.Keys == outer.Keys + {k1}
    ensures forall a :: a in outer && a != k1 ==> r.0[a] == outer[a]
    ensures r.0[k1].Keys == (if k1 in outer then outer[k1].Keys else {}) + {k2} && r.0[k1][k2] == v
    ensures forall b :: b in r.0[k1] && b != k2 ==> r.0[k1][b] == outer[k1][b]
    ensures r.1.Some? <==> k1 in outer && k2 in outer[k1]
    ensures r.1.Some? ==> r.1.value == outer[k1][k2]
  {
    var inner := if k1 in outer then outer[k1] else map[];
    (outer[k1 := inner[k2 := v]], if k2 in inner then Some(inner[k2]) else None)
  }

  /** What a HashMap keyed by symbols compares: Symbol's equals and
      hashCode use the name and the end flag. */
  function SymbolKey(s: Symbol): (string, bool) {
    (s.content, s.isEnd)
  }

  /** The loop of Goto that collects the kernel J: the items of bag are
      visited in some order and a negative dot stops it with an index
      error. */
  method ComputeKernel(bag: ItemBag, x: Symbol) returns (r: Result<ItemBag>)
    ensures r.Err? <==> HasBadDot(bag)
    ensures r.Err? ==> r.error == IndexOutOfBounds
    ensures r.Ok? ==> KernelOf(bag, x, r.value)
  {
    var xs := Enumerate(bag.Values);
    EnumerationMembers(xs, bag.Values);
    KernelOfEnumeration(xs, bag, x);
    var j: ItemBag := map[];
    for n := 0 to |xs|
      invariant Kernel(xs[..n], x) == Ok(j)
    {
      var it := xs[n];
      assert xs[..n + 1][..n] == xs[..n] && xs[..n + 1][n] == it;
      if it.pos < |it.production.right| {
        if it.pos < 0 {
          KernelBad(xs, n + 1, x);
          return Err(IndexOutOfBounds);
        }
        if SameSymbol(it.production.right[it.pos], x) {
          var adv := Advance(it).value;
          if adv.content !in j {
            j := j[adv.content := adv];
          }
        }
      }
    }
    assert xs[..|xs|] == xs;
    r := Ok(j);
  }

  /** The GOTO memo: item set, then symbol, to the successor item set. The
      outer map is keyed by the item set object, as the lr1 item set class
      overrides equals but not hashCode. */
  type GotoMap = map<ItemSet, map<(string, bool), ItemSet>>

  predicate Cached(m: GotoMap, i: ItemSet, x: Symbol) {
    i in m && SymbolKey(x) in m[i]
  }

  /** The GOTO function of LR1Utils with its memo (GOTO_MAP) and the
      registry of item sets it interns into. */
  class GotoTable {
    var gotoMap: GotoMap
    const registry: ItemSetRegistry

    constructor (registry: ItemSetRegistry)
      ensures this.registry == registry && gotoMap == map[]
    {
      this.registry := registry;
      gotoMap := map[];
    }

    /** GOTO(I, x) = CLOSURE(J) with J the items of I with x after the dot,
        advanced. A memoised answer is returned as it is; otherwise it is
        computed and memoised by Compute. */
    method Goto(i: ItemSet, x: Symbol, g: Grammar)
      returns (r: Result<Option<ItemSet>>, ghost kernel: ItemBag, ghost closure: ItemBag)
      requires registry.Valid() && g.Valid()
      modifies this, registry, g
      ensures registry.Valid() && g.Valid()
      ensures old(g.firstSetMap).Some? ==> g.firstSetMap == old(g.firstSetMap)
      ensures Cached(old(gotoMap), i, x) ==>
        r == Ok(Some(old(gotoMap)[i][SymbolKey(x)])) && gotoMap == old(gotoMap) &&
        registry.itemSets == old(registry.itemSets)
      ensures !Cached(old(gotoMap), i, x) ==> Computed(i, x, g, r, kernel, closure, old(gotoMap))
      ensures GotoReady(i.items, g.productionMap, old(g.firstSetMap).Some? || FirstSafe(g.productionMap)) ==> r.Ok?
    {
      if Cached(gotoMap, i, x) {
        return Ok(Some(gotoMap[i][SymbolKey(x)])), map[], map[];
      }
      r, kernel, closure := Compute(i, x, g);
    }

    /** What computing GOTO(i, x) afresh promises: an index error on a
        negative dot; otherwise J is the kernel, no item set (null) when J
        is empty, and else the interned closure of J, memoised. */
    ghost predicate Computed(i: ItemSet, x: Symbol, g: Grammar, r: Result<Option<ItemSet>>,
                             kernel: ItemBag, closure: ItemBag, before: GotoMap)
      reads this, registry, g
    {
      (HasBadDot(i.items) ==> r == Err(IndexOutOfBounds)) &&
      (!HasBadDot(i.items) ==> KernelOf(i.items, x, kernel)) &&
      (r.Ok? ==> (r.value.None? <==> ShiftedKeys(i.items, x) == {})) &&
      (r.Err? || r.value.None? ==> gotoMap == before) &&
      (r.Ok? && r.value.Some? ==>
        IsClosure(kernel, closure, g.productionMap, g.firstSetMap) &&
        r.value.value.content == KeyOf(closure) && KeyOf(closure) in registry.itemSets &&
        registry.itemSets[KeyOf(closure)] == r.value.value &&
        gotoMap == AddToDoubleMap(before, i, SymbolKey(x), r.value.value).0)
    }

    /** Goto without the memo lookup: an empty J gives no item set (null);
        otherwise the closure of J is interned and memoised. The closure
        used is the seeded one, which keeps J. */
    method Compute(i: ItemSet, x: Symbol, g: Grammar)
      returns (r: Result<Option<ItemSet>>, ghost kernel: ItemBag, ghost closure: ItemBag)
      requires registry.Valid() && g.Valid()
      modifies this, registry, g
      ensures registry.Valid() && g.Valid()
      ensures old(g.firstSetMap).Some? ==> g.firstSetMap == old(g.firstSetMap)
      ensures Computed(i, x, g, r, kernel, closure, old(gotoMap))
      ensures GotoReady(i.items, g.productionMap, old(g.firstSetMap).Some? || FirstSafe(g.productionMap)) ==> r.Ok?
    {
      kernel, closure := map[], map[];
      var k := ComputeKernel(i.items, x);
      if k.Err? {
        return Err(k.error), kernel, closure;
      }
      var j := k.value;
      kernel := j;
      if |j| == 0 {
        return Ok(None), kernel, closure;
      }
      ghost var firstReady := g.firstSetMap.Some? || FirstSafe(g.productionMap);
      if GotoReady(i.items, g.productionMap, firstReady) {
        KernelReady(i.items, x, j, g.productionMap, firstReady);
      }
      r, closure := Successor(i, x, j, g);
    }

    /** The successor for a non-empty kernel j: its closure, interned and
        memoised as GOTO(i, x). */
    method Successor(i: ItemSet, x: Symbol, j: ItemBag, g: Grammar)
      returns (r: Result<Option<ItemSet>>, ghost closure: ItemBag)
      requires registry.Valid() && g.Valid() && Keyed(j)
      modifies this, registry, g
      ensures registry.Valid() && g.Valid()
      ensures old(g.firstSetMap).Some? ==> g.firstSetMap == old(g.firstSetMap)
      ensures r.Err? ==> gotoMap == old(gotoMap)
      ensures ClosureReady(j, g.productionMap, old(g.firstSetMap).Some? || FirstSafe(g.productionMap)) ==> r.Ok?
      ensures r.Ok? ==>
        r.value.Some? && IsClosure(j, closure, g.productionMap, g.firstSetMap) &&
        r.value.value.content == KeyOf(closure) && KeyOf(closure) in registry.itemSets &&
        registry.itemSets[KeyOf(closure)] == r.value.value &&
        gotoMap == AddToDoubleMap(old(gotoMap), i, SymbolKey(x), r.value.value).0
    {
      closure := map[];
      var c := SeededClosure(j, g);
      if c.Err? {
        return Err(c.error), closure;
      }
      closure := c.value;
      var s := Record(i, x, c.value);
      r := Ok(Some(s));
    }

    /** Interns the closure c as an item set and memoises it as GOTO(i, x). */
    method Record(i: ItemSet, x: Symbol, c: ItemBag) returns (s: ItemSet)
      requires registry.Valid()
      modifies this, registry
      ensures registry.Valid()
      ensures s.content == KeyOf(c) && KeyOf(c) in registry.itemSets && registry.itemSets[KeyOf(c)] == s
      ensures gotoMap == AddToDoubleMap(old(gotoMap), i, SymbolKey(x), s).0
    {
      s := registry.Create(c);
      gotoMap := AddToDoubleMap(gotoMap, i, SymbolKey(x), s).0;
    }
  }

  /** A negative dot among the first n items makes the whole kernel fail. */
  lemma KernelBad(xs: seq<Item>, n: int, x: Symbol)
    requires 0 < n <= |xs| && BadDot(xs[n - 1])
    ensures Kernel(xs, x).Err?
  {
  }
}
