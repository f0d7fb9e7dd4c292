/** Productions left -> right of a context-free grammar. */
module Productions {
  import opened Outcomes
  import opened Symbols

  /** A production. The public constructor does not validate, so a value
      with an empty right side exists. */
  datatype Production = Production(left: Symbol, right: seq<Symbol>)

  /** Production.create: rejects a null left side and an empty right side. */
  function Create(left: Option<Symbol>, right: seq<Symbol>): (r: Result<Production>)
    ensures r.Err? <==> left.None? || right == []
    ensures r.Err? ==> r.error == EmptyProductionSide
    ensures r.Ok? ==> r.value.left == left.value && r.value.right == right
  {
    if left.None? || |right| == 0 then Err(EmptyProductionSide)
    else Ok(Production(left.value, right))
  }

  /** An ε-production: its right side is the single symbol "ε". */
  predicate IsEpsilon(p: Production) {
    |p.right| == 1 && p.right[0].content == EPSILON
  }
}
