/** The equations that the memoised FIRST-set computation solves, stated on
    values: a memo maps each nonterminal already computed to its FIRST set. */
module FirstSpec {
  import opened Symbols
  import opened Productions
  import opened FirstSets

  type Memo = map<Symbol, FirstVal>

  /** m2 extends m1 and keeps every entry of m1 as it was. */
  predicate Submap(m1: Memo, m2: Memo) {
    forall k :: k in m1 ==> k in m2 && m2[k] == m1[k]
  }

  /** A symbol the left-to-right scan passes over: a nonterminal that is
      either absent from the memo or derives ε. */
  predicate Nullable(s: Symbol, memo: Memo) {
    !s.isVt && (s in memo ==> memo[s].hasEpsilon)
  }

  /** FIRST of a symbol string read off a memo (getFirstSetBySymbols'
      scan): a terminal ends the scan and is added; a nonterminal adds its
      FIRST set and ends the scan unless it derives ε; a nonterminal absent
      from the memo is skipped. ε belongs to the result when the scan passes
      every symbol. */
  function SeqFirst(syms: seq<Symbol>, memo: Memo): (r: FirstVal)
    ensures syms != [] && syms[|syms| - 1].isVt ==> !r.hasEpsilon
  {
    if syms == [] then FirstVal({}, true)
    else if syms[0].isVt then FirstVal({syms[0]}, false)
    else if syms[0] !in memo then SeqFirst(syms[1..], memo)
    else if !memo[syms[0]].hasEpsilon then FirstVal(memo[syms[0]].terms, false)
    else
      var rest := SeqFirst(syms[1..], memo);
      FirstVal(memo[syms[0]].terms + rest.terms, rest.hasEpsilon)
  }

  /** Every nonterminal the scan of syms reaches is in the memo (so the scan
      never meets a missing entry). */
  predicate Covered(syms: seq<Symbol>, memo: Memo) {
    syms == [] || syms[0].isVt ||
    (syms[0] in memo && (memo[syms[0]].hasEpsilon ==> Covered(syms[1..], memo)))
  }

  /** ε is in FIRST(syms) exactly when every symbol is passed over. */
  lemma {:induction false} SeqFirstEpsilonIff(syms: seq<Symbol>, memo: Memo)
    ensures SeqFirst(syms, memo).hasEpsilon <==>
      forall i :: 0 <= i < |syms| ==> Nullable(syms[i], memo)
  {
    if syms != [] {
      SeqFirstEpsilonIff(syms[1..], memo);
      assert forall i :: 1 <= i < |syms| ==> syms[i] == syms[1..][i - 1];
    }
  }

  /** What FIRST(syms) contains: t comes from the first symbol after a run
      of passed-over ones, either as that terminal itself or from that
      nonterminal's memo entry. */
  predicate Contributes(s: Symbol, t: Symbol, memo: Memo) {
    (s.isVt && t == s) || (!s.isVt && s in memo && t in memo[s].terms)
  }

  predicate ReachedAt(syms: seq<Symbol>, i: int, memo: Memo) {
    0 <= i < |syms| && forall j :: 0 <= j < i ==> Nullable(syms[j], memo)
  }

  lemma {:induction false} SeqFirstMembers(syms: seq<Symbol>, memo: Memo, t: Symbol)
    ensures t in SeqFirst(syms, memo).terms <==>
      exists i :: ReachedAt(syms, i, memo) && Contributes(syms[i], t, memo)
  {
    if syms != [] {
      SeqFirstMembers(syms[1..], memo, t);
      if t in SeqFirst(syms, memo).terms {
        if Contributes(syms[0], t, memo) {
          assert ReachedAt(syms, 0, memo);
        } else {
          var i :| ReachedAt(syms[1..], i, memo) && Contributes(syms[1..][i], t, memo);
          assert ReachedAt(syms, i + 1, memo);
        }
      }
      if exists i :: ReachedAt(syms, i, memo) && Contributes(syms[i], t, memo) {
        var i :| ReachedAt(syms, i, memo) && Contributes(syms[i], t, memo);
        if i > 0 {
          assert ReachedAt(syms[1..], i - 1, memo) && syms[1..][i - 1] == syms[i];
        }
      }
    }
  }

  /** Splitting a symbol string: once the first part is passed over, the
      scan goes on into the second; otherwise the second part is never read. */
  lemma {:induction false} SeqFirstAppend(a: seq<Symbol>, b: seq<Symbol>, memo: Memo)
    ensures SeqFirst(a, memo).hasEpsilon ==>
      SeqFirst(a + b, memo) ==
        FirstVal(SeqFirst(a, memo).terms + SeqFirst(b, memo).terms, SeqFirst(b, memo).hasEpsilon)
    ensures !SeqFirst(a, memo).hasEpsilon ==> SeqFirst(a + b, memo) == SeqFirst(a, memo)
    ensures Covered(a, memo) && SeqFirst(a, memo).hasEpsilon ==>
      (Covered(a + b, memo) <==> Covered(b, memo))
    ensures Covered(a, memo) && !SeqFirst(a, memo).hasEpsilon ==> Covered(a + b, memo)
  {
    if a != [] {
      SeqFirstAppend(a[1..], b, memo);
      assert (a + b)[1..] == a[1..] + b;
    } else {
      assert a + b == b;
    }
  }

  /** Growing the memo does not change the FIRST set of a string whose scan
      only reads entries that were already there. */
  lemma {:induction false} SeqFirstStable(syms: seq<Symbol>, m1: Memo, m2: Memo)
    requires Submap(m1, m2) && Covered(syms, m1)
    ensures Covered(syms, m2) && SeqFirst(syms, m2) == SeqFirst(syms, m1)
  {
    if syms != [] && !syms[0].isVt && m1[syms[0]].hasEpsilon {
      SeqFirstStable(syms[1..], m1, m2);
    }
  }

  /** One step of the scan over rhs, after its first j symbols were passed
      over with memo m1 and the memo grew to m2: a terminal at j ends the
      scan with that terminal. */
  lemma ScanStopsAtTerminal(rhs: seq<Symbol>, j: int, m: Memo)
    requires 0 <= j < |rhs| && rhs[j].isVt
    requires Covered(rhs[..j], m) && SeqFirst(rhs[..j], m).hasEpsilon
    ensures Covered(rhs, m)
    ensures SeqFirst(rhs, m) == FirstVal(SeqFirst(rhs[..j], m).terms + {rhs[j]}, false)
  {
    SeqFirstAppend(rhs[..j], rhs[j..], m);
    assert rhs[..j] + rhs[j..] == rhs;
  }

  /** A nonterminal at j whose entry is now in the memo adds its FIRST set;
      the scan goes on past it exactly when that set has ε. */
  lemma ScanPassesNonterminal(rhs: seq<Symbol>, j: int, m1: Memo, m2: Memo)
    requires 0 <= j < |rhs| && !rhs[j].isVt && rhs[j] in m2 && Submap(m1, m2)
    requires Covered(rhs[..j], m1) && SeqFirst(rhs[..j], m1).hasEpsilon
    ensures m2[rhs[j]].hasEpsilon ==>
      Covered(rhs[..j + 1], m2) &&
      SeqFirst(rhs[..j + 1], m2) == FirstVal(SeqFirst(rhs[..j], m1).terms + m2[rhs[j]].terms, true)
    ensures !m2[rhs[j]].hasEpsilon ==>
      Covered(rhs, m2) &&
      SeqFirst(rhs, m2) == FirstVal(SeqFirst(rhs[..j], m1).terms + m2[rhs[j]].terms, false)
  {
    SeqFirstStable(rhs[..j], m1, m2);
    SeqFirstAppend(rhs[..j], rhs[j..], m2);
    assert rhs[..j] + rhs[j..] == rhs;
    SeqFirstAppend(rhs[..j], [rhs[j]], m2);
    assert rhs[..j + 1] == rhs[..j] + [rhs[j]];
  }

  /** All FIRST sets of the memo lie within u. */
  predicate MemoTermsIn(memo: Memo, u: set<Symbol>) {
    forall k :: k in memo ==> memo[k].terms <= u
  }

  /** The terminals of a symbol string lie within u. */
  predicate TerminalsIn(syms: seq<Symbol>, u: set<Symbol>) {
    forall i :: 0 <= i < |syms| && syms[i].isVt ==> syms[i] in u
  }

  /** FIRST(syms) holds only terminals of syms and members of the memo's
      FIRST sets. */
  lemma {:induction false} SeqFirstTerms(syms: seq<Symbol>, memo: Memo, u: set<Symbol>)
    requires TerminalsIn(syms, u) && MemoTermsIn(memo, u)
    ensures SeqFirst(syms, memo).terms <= u
  {
    if syms != [] && !syms[0].isVt && (syms[0] !in memo || memo[syms[0]].hasEpsilon) {
      SeqFirstTerms(syms[1..], memo, u);
    }
  }

  /** Every symbol in a FIRST set read off a memo of terminals is a terminal. */
  lemma {:induction false} SeqFirstOnlyTerminals(syms: seq<Symbol>, memo: Memo)
    requires forall k, t :: k in memo && t in memo[k].terms ==> t.isVt
    ensures forall t :: t in SeqFirst(syms, memo).terms ==> t.isVt
  {
    if syms != [] && !syms[0].isVt && (syms[0] !in memo || memo[syms[0]].hasEpsilon) {
      SeqFirstOnlyTerminals(syms[1..], memo);
    }
  }

  /** A production that getFirstSet sets aside for the second pass: not an
      ε-production and mentioning its own left side v on the right. */
  predicate IsBad(v: Symbol, p: Production) {
    !IsEpsilon(p) && v in p.right
  }

  /** The first pass of getFirstSet over the productions ps of v: an
      ε-production sets ε; a production that is not set aside adds FIRST of
      its right side, and ε when that right side derives ε. */
  function FirstPass(v: Symbol, ps: seq<Production>, memo: Memo): FirstVal
  {
    if ps == [] then FirstVal({}, false)
    else
      var acc := FirstPass(v, ps[..|ps| - 1], memo);
      var p := ps[|ps| - 1];
      if IsEpsilon(p) then FirstVal(acc.terms, true)
      else if v in p.right then acc
      else
        var s := SeqFirst(p.right, memo);
        FirstVal(acc.terms + s.terms, acc.hasEpsilon || s.hasEpsilon)
  }

  /** The productions set aside, in order. */
  function BadProds(v: Symbol, ps: seq<Production>): (r: seq<Production>)
    ensures forall i :: 0 <= i < |r| ==> IsBad(v, r[i]) && r[i] in ps
  {
    if ps == [] then []
    else if IsBad(v, ps[|ps| - 1]) then BadProds(v, ps[..|ps| - 1]) + [ps[|ps| - 1]]
    else BadProds(v, ps[..|ps| - 1])
  }

  /** In the second pass, v itself stands for a FIRST set with no terminals
      that derives ε exactly when the first pass found ε. */
  function Provisional(memo: Memo, v: Symbol, eps: bool): Memo {
    memo[v := FirstVal({}, eps)]
  }

  /** What the second pass adds: FIRST of each set-aside right side, read
      with v provisional. */
  function BadTerms(v: Symbol, bads: seq<Production>, eps: bool, memo: Memo): set<Symbol> {
    if bads == [] then {}
    else
      BadTerms(v, bads[..|bads| - 1], eps, memo) +
      SeqFirst(bads[|bads| - 1].right, Provisional(memo, v, eps)).terms
  }

  /** FIRST(v) as getFirstSet computes it from the productions ps of v. */
  function FirstOfNonterminal(v: Symbol, ps: seq<Production>, memo: Memo): FirstVal {
    var f := FirstPass(v, ps, memo);
    FirstVal(f.terms + BadTerms(v, BadProds(v, ps), f.hasEpsilon, memo), f.hasEpsilon)
  }

  predicate PassCovered(v: Symbol, ps: seq<Production>, memo: Memo) {
    forall i :: 0 <= i < |ps| && !IsEpsilon(ps[i]) && v !in ps[i].right ==>
      Covered(ps[i].right, memo)
  }

  predicate BadCovered(v: Symbol, bads: seq<Production>, eps: bool, memo: Memo) {
    forall i :: 0 <= i < |bads| ==> Covered(bads[i].right, Provisional(memo, v, eps))
  }

  /** Every memo entry the computation of FIRST(v) reads is present. */
  predicate Equations(v: Symbol, ps: seq<Production>, memo: Memo) {
    PassCovered(v, ps, memo) &&
    BadCovered(v, BadProds(v, ps), FirstPass(v, ps, memo).hasEpsilon, memo)
  }

  /** A memo in which every entry is the FIRST set its nonterminal's
      productions give when read off the memo itself. */
  predicate MemoSound(memo: Memo, pm: map<Symbol, seq<Production>>) {
    forall k {:trigger EntrySound(memo, pm, k)} :: k in memo ==> EntrySound(memo, pm, k)
  }

  /** The entry of k is the FIRST set its productions give. */
  predicate EntrySound(memo: Memo, pm: map<Symbol, seq<Production>>, k: Symbol)
    requires k in memo
  {
    k in pm && Equations(k, pm[k], memo) && memo[k] == FirstOfNonterminal(k, pm[k], memo)
  }

  lemma SubmapTrans(m1: Memo, m2: Memo, m3: Memo)
    requires Submap(m1, m2) && Submap(m2, m3)
    ensures Submap(m1, m3)
  {
  }

  lemma ProvisionalSubmap(m1: Memo, m2: Memo, v: Symbol, eps: bool)
    requires Submap(m1, m2)
    ensures Submap(Provisional(m1, v, eps), Provisional(m2, v, eps))
  {
  }

  lemma {:induction false} FirstPassStable(v: Symbol, ps: seq<Production>, m1: Memo, m2: Memo)
    requires Submap(m1, m2) && PassCovered(v, ps, m1)
    ensures PassCovered(v, ps, m2) && FirstPass(v, ps, m2) == FirstPass(v, ps, m1)
  {
    forall i | 0 <= i < |ps| && !IsEpsilon(ps[i]) && v !in ps[i].right
      ensures Covered(ps[i].right, m2)
    {
      SeqFirstStable(ps[i].right, m1, m2);
    }
    if ps != [] {
      var init := ps[..|ps| - 1];
      assert PassCovered(v, init, m1) by {
        forall i | 0 <= i < |init| ensures init[i] == ps[i] { }
      }
      FirstPassStable(v, init, m1, m2);
      var p := ps[|ps| - 1];
      if !IsEpsilon(p) && v !in p.right {
        SeqFirstStable(p.right, m1, m2);
      }
    }
  }

  lemma {:induction false} BadTermsStable(v: Symbol, bads: seq<Production>, eps: bool, m1: Memo, m2: Memo)
    requires Submap(m1, m2) && BadCovered(v, bads, eps, m1)
    ensures BadCovered(v, bads, eps, m2) && BadTerms(v, bads, eps, m2) == BadTerms(v, bads, eps, m1)
  {
    ProvisionalSubmap(m1, m2, v, eps);
    forall i | 0 <= i < |bads| ensures Covered(bads[i].right, Provisional(m2, v, eps)) {
      SeqFirstStable(bads[i].right, Provisional(m1, v, eps), Provisional(m2, v, eps));
    }
    if bads != [] {
      var init := bads[..|bads| - 1];
      assert BadCovered(v, init, eps, m1) by {
        forall i | 0 <= i < |init| ensures init[i] == bads[i] { }
      }
      BadTermsStable(v, init, eps, m1, m2);
      SeqFirstStable(bads[|bads| - 1].right, Provisional(m1, v, eps), Provisional(m2, v, eps));
    }
  }

  /** The first pass extended by production ps[i], read after the memo grew
      from m1 to m2. */
  lemma FirstPassStep(v: Symbol, ps: seq<Production>, i: int, m1: Memo, m2: Memo)
    requires 0 <= i < |ps| && Submap(m1, m2) && PassCovered(v, ps[..i], m1)
    requires !IsEpsilon(ps[i]) && v !in ps[i].right ==> Covered(ps[i].right, m2)
    ensures PassCovered(v, ps[..i + 1], m2)
    ensures var acc := FirstPass(v, ps[..i], m1);
      FirstPass(v, ps[..i + 1], m2) ==
        if IsEpsilon(ps[i]) then FirstVal(acc.terms, true)
        else if v in ps[i].right then acc
        else FirstVal(acc.terms + SeqFirst(ps[i].right, m2).terms,
                      acc.hasEpsilon || SeqFirst(ps[i].right, m2).hasEpsilon)
  {
    FirstPassStable(v, ps[..i], m1, m2);
    assert ps[..i + 1][..i] == ps[..i];
  }

  /** The second pass extended by bads[j], read after the memo grew from m1
      to m2. */
  lemma BadTermsStep(v: Symbol, bads: seq<Production>, j: int, eps: bool, m1: Memo, m2: Memo)
    requires 0 <= j < |bads| && Submap(m1, m2) && BadCovered(v, bads[..j], eps, m1)
    requires Covered(bads[j].right, Provisional(m2, v, eps))
    ensures BadCovered(v, bads[..j + 1], eps, m2)
    ensures BadTerms(v, bads[..j + 1], eps, m2) ==
      BadTerms(v, bads[..j], eps, m1) + SeqFirst(bads[j].right, Provisional(m2, v, eps)).terms
  {
    BadTermsStable(v, bads[..j], eps, m1, m2);
    assert bads[..j + 1][..j] == bads[..j];
  }

  /** Once the equations of v are met, growing the memo keeps them met and
      keeps FIRST(v) as it was. */
  lemma EquationsStable(v: Symbol, ps: seq<Production>, m1: Memo, m2: Memo)
    requires Submap(m1, m2) && Equations(v, ps, m1)
    ensures Equations(v, ps, m2)
    ensures FirstOfNonterminal(v, ps, m2) == FirstOfNonterminal(v, ps, m1)
  {
    FirstPassStable(v, ps, m1, m2);
    BadTermsStable(v, BadProds(v, ps), FirstPass(v, ps, m1).hasEpsilon, m1, m2);
  }

  /** Storing FIRST(v) computed from a sound memo keeps the memo sound. */
  lemma MemoSoundExtend(memo: Memo, pm: map<Symbol, seq<Production>>, v: Symbol)
    requires MemoSound(memo, pm) && v !in memo && v in pm
    requires Equations(v, pm[v], memo)
    ensures MemoSound(memo[v := FirstOfNonterminal(v, pm[v], memo)], pm)
    ensures Submap(memo, memo[v := FirstOfNonterminal(v, pm[v], memo)])
  {
    var m2 := memo[v := FirstOfNonterminal(v, pm[v], memo)];
    assert Submap(memo, m2);
    forall k | k in m2
      ensures EntrySound(m2, pm, k)
    {
      if k != v {
        assert EntrySound(memo, pm, k);
      }
      EquationsStable(k, pm[k], memo, m2);
    }
  }

  /** The first pass sets ε exactly when some production is an
      ε-production or a right side without v derives ε. */
  lemma {:induction false} FirstPassEpsilonIff(v: Symbol, ps: seq<Production>, memo: Memo)
    ensures FirstPass(v, ps, memo).hasEpsilon <==>
      exists i :: 0 <= i < |ps| &&
        (IsEpsilon(ps[i]) || (v !in ps[i].right && SeqFirst(ps[i].right, memo).hasEpsilon))
  {
    if ps != [] {
      var init := ps[..|ps| - 1];
      FirstPassEpsilonIff(v, init, memo);
      assert forall i :: 0 <= i < |init| ==> init[i] == ps[i];
    }
  }

  /** A production whose right side starts with a terminal puts that
      terminal into FIRST(v), whether or not it mentions v. */
  lemma {:induction false} LeadingTerminalInFirst(v: Symbol, ps: seq<Production>, memo: Memo, i: int)
    requires 0 <= i < |ps| && !IsEpsilon(ps[i]) && ps[i].right != [] && ps[i].right[0].isVt
    ensures ps[i].right[0] in FirstOfNonterminal(v, ps, memo).terms
  {
    var eps := FirstPass(v, ps, memo).hasEpsilon;
    if v in ps[i].right {
      LeadingTerminalInBad(v, ps, eps, memo, i);
    } else {
      LeadingTerminalInPass(v, ps, memo, i);
    }
  }

  lemma {:induction false} LeadingTerminalInPass(v: Symbol, ps: seq<Production>, memo: Memo, i: int)
    requires 0 <= i < |ps| && !IsEpsilon(ps[i]) && v !in ps[i].right
    requires ps[i].right != [] && ps[i].right[0].isVt
    ensures ps[i].right[0] in FirstPass(v, ps, memo).terms
  {
    if i < |ps| - 1 {
      LeadingTerminalInPass(v, ps[..|ps| - 1], memo, i);
    }
  }

  lemma {:induction false} LeadingTerminalInBad(v: Symbol, ps: seq<Production>, eps: bool, memo: Memo, i: int)
    requires 0 <= i < |ps| && IsBad(v, ps[i])
    requires ps[i].right != [] && ps[i].right[0].isVt
    ensures ps[i].right[0] in BadTerms(v, BadProds(v, ps), eps, memo)
  {
    var init := ps[..|ps| - 1];
    if i < |ps| - 1 {
      LeadingTerminalInBad(v, init, eps, memo, i);
      BadTermsGrow(v, BadProds(v, init), ps[|ps| - 1], eps, memo);
    }
  }

  lemma BadTermsGrow(v: Symbol, bads: seq<Production>, p: Production, eps: bool, memo: Memo)
    ensures BadTerms(v, bads, eps, memo) <= BadTerms(v, bads + [p], eps, memo)
  {
    assert (bads + [p])[..|bads|] == bads;
  }

  /** FIRST(v) holds only terminals of v's right sides and members of the
      memo's FIRST sets. */
  lemma FirstOfNonterminalTerms(v: Symbol, ps: seq<Production>, memo: Memo, u: set<Symbol>)
    requires forall i :: 0 <= i < |ps| ==> TerminalsIn(ps[i].right, u)
    requires MemoTermsIn(memo, u)
    ensures FirstOfNonterminal(v, ps, memo).terms <= u
  {
    FirstPassTerms(v, ps, memo, u);
    var eps := FirstPass(v, ps, memo).hasEpsilon;
    assert MemoTermsIn(Provisional(memo, v, eps), u);
    BadTermsIn(v, BadProds(v, ps), eps, memo, u);
  }

  lemma {:induction false} FirstPassTerms(v: Symbol, ps: seq<Production>, memo: Memo, u: set<Symbol>)
    requires forall i :: 0 <= i < |ps| ==> TerminalsIn(ps[i].right, u)
    requires MemoTermsIn(memo, u)
    ensures FirstPass(v, ps, memo).terms <= u
  {
    if ps != [] {
      FirstPassTerms(v, ps[..|ps| - 1], memo, u);
      SeqFirstTerms(ps[|ps| - 1].right, memo, u);
    }
  }

  lemma {:induction false} BadTermsIn(v: Symbol, bads: seq<Production>, eps: bool, memo: Memo, u: set<Symbol>)
    requires forall i :: 0 <= i < |bads| ==> TerminalsIn(bads[i].right, u)
    requires MemoTermsIn(Provisional(memo, v, eps), u)
    ensures BadTerms(v, bads, eps, memo) <= u
  {
    if bads != [] {
      BadTermsIn(v, bads[..|bads| - 1], eps, memo, u);
      SeqFirstTerms(bads[|bads| - 1].right, Provisional(memo, v, eps), u);
    }
  }
}
