/** Grammar symbols: a name, an end marker flag and the terminal flag that
    the name decides. */
module Symbols {
  import opened Strings

  /** A grammar symbol. Java's equals and hashCode look at content and isEnd
      only; isVt is carried along. */
  datatype Symbol = Symbol(content: string, isEnd: bool, isVt: bool)

  /** The name of the empty string in grammar texts. */
  const EPSILON: string := "ε"

  /** The classification rule: a name is a nonterminal when it lies between
      "A" and "Z" in compareTo order, and a terminal otherwise. */
  predicate IsVtName(content: string) {
    !(Compare(content, "A") >= 0 && Compare(content, "Z") <= 0)
  }

  /** The rule in plain terms: the nonterminals are the names starting with
      an upper-case letter from A to Y, and the one-letter name "Z". */
  lemma NonterminalName(content: string)
    ensures !IsVtName(content) <==>
      content != [] && ('A' <= content[0] < 'Z' || content == "Z")
  {
    var a: string := "A";
    var z: string := "Z";
    assert a[0] == 'A' && a[1..] == [] && z[0] == 'Z' && z[1..] == [];
    if content != [] {
      assert Compare(content[1..], []) >= 0;
      assert Compare(content[1..], []) == 0 <==> |content| == 1;
    }
  }

  /** new Symbol(content): not an end marker, terminal flag from the name. */
  function NewSymbol(content: string): (s: Symbol)
    ensures s.content == content && !s.isEnd && WellFormed(s)
  {
    Symbol(content, false, IsVtName(content))
  }

  /** new Symbol(content, isEnd): terminal flag from the name. */
  function NewSymbolWithEnd(content: string, isEnd: bool): (s: Symbol)
    ensures s.content == content && s.isEnd == isEnd && WellFormed(s)
  {
    Symbol(content, isEnd, IsVtName(content))
  }

  /** new Symbol(content, isVt, isEnd): the terminal flag is taken verbatim. */
  function NewSymbolExplicit(content: string, isVt: bool, isEnd: bool): (s: Symbol)
    ensures s.content == content && s.isVt == isVt && s.isEnd == isEnd
  {
    Symbol(content, isEnd, isVt)
  }

  /** The end-of-input marker. */
  const END: Symbol := NewSymbolWithEnd("#", true)

  lemma EndIsTerminal()
    ensures END.content == "#" && END.isEnd && END.isVt
  {
  }

  /** Java's Symbol.equals. */
  predicate SameSymbol(a: Symbol, b: Symbol) {
    a.isEnd == b.isEnd && a.content == b.content
  }

  /** A symbol whose terminal flag agrees with its name, as the one- and
      two-argument constructors build them. */
  predicate WellFormed(s: Symbol) {
    s.isVt == IsVtName(s.content)
  }

  /** On symbols built by the name-deriving constructors, equals is value
      equality, so the model compares them with ==. */
  lemma SameSymbolIsEquality(a: Symbol, b: Symbol)
    requires WellFormed(a) && WellFormed(b)
    ensures SameSymbol(a, b) <==> a == b
  {
  }

  /** Symbols that differ only in the terminal flag are equal to Java. */
  lemma SameSymbolIgnoresIsVt(content: string, isEnd: bool)
    ensures SameSymbol(NewSymbolExplicit(content, true, isEnd), NewSymbolExplicit(content, false, isEnd))
    ensures NewSymbolExplicit(content, true, isEnd) != NewSymbolExplicit(content, false, isEnd)
  {
  }

  /** new Symbol("#") is not the end marker: it has isEnd == false. */
  lemma HashIsNotEnd()
    ensures !SameSymbol(NewSymbol("#"), END)
    ensures NewSymbol("#").isVt
  {
  }

  /** createSymbolsByString: one symbol per character, none an end marker. */
  function SymbolsOfString(str: string): (r: seq<Symbol>)
    ensures |r| == |str|
    ensures forall i :: 0 <= i < |str| ==>
      r[i].content == [str[i]] && !r[i].isEnd && WellFormed(r[i])
  {
    if str == [] then []
    else [NewSymbol([str[0]])] + SymbolsOfString(str[1..])
  }

  /** The symbols of a string are terminals exactly where the character is
      not an upper-case letter. */
  lemma SymbolsOfStringTerminals(str: string, i: int)
    requires 0 <= i < |str|
    ensures SymbolsOfString(str)[i].isVt <==> !('A' <= str[i] <= 'Z')
  {
    NonterminalName([str[i]]);
  }
}
