/** The FIRST-set record that the generator fills in place. */
module FirstSets {
  import opened Symbols

  /** The contents of a FirstSet at one moment: its terminals and whether
      ε belongs to it. */
  datatype FirstVal = FirstVal(terms: set<Symbol>, hasEpsilon: bool)

  class FirstSet {
    /** The symbol string whose FIRST set this is. */
    const start: seq<Symbol>
    var terms: set<Symbol>
    var hasEpsilon: bool

    /** A fresh FIRST set is empty and does not contain ε. */
    constructor (start: seq<Symbol>)
      ensures this.start == start
      ensures terms == {} && !hasEpsilon
    {
      this.start := start;
      terms := {};
      hasEpsilon := false;
    }

    function Value(): FirstVal
      reads this
    {
      FirstVal(terms, hasEpsilon)
    }

    /** add(Symbol) */
    method Add(next: Symbol)
      modifies this
      ensures terms == old(terms) + {next}
      ensures hasEpsilon == old(hasEpsilon)
    {
      terms := terms + {next};
    }

    /** add(Set) */
    method AddAll(more: set<Symbol>)
      modifies this
      ensures terms == old(terms) + more
      ensures hasEpsilon == old(hasEpsilon)
    {
      terms := terms + more;
    }

    method SetHasEpsilon(b: bool)
      modifies this
      ensures hasEpsilon == b
      ensures terms == old(terms)
    {
      hasEpsilon := b;
    }
  }
}
