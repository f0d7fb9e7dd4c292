/** LR(1) items: a production, a dot position and a lookahead, identified by
    their rendering ("A->a•b,c"). */
module Items {
  import opened Outcomes
  import opened Strings
  import opened Symbols
  import opened Productions

  /** The dot written into an item's rendering. */
  const DELIMITER: string := "•"

  /** An item. The dot position is an unchecked int, as in the source;
      content is the rendering that equality, hashing and ordering use. */
  datatype Item = Item(production: Production, pos: int, lookahead: Symbol, content: string)

  /** A hash set of items: equal contents are one element, so the set is
      kept as a map from content to the item stored under it. */
  type ItemBag = map<string, Item>

  predicate Keyed(bag: ItemBag) {
    forall k :: k in bag ==> bag[k].content == k
  }

  /** The contents of a symbol string, concatenated. */
  function Contents(syms: seq<Symbol>): string {
    if syms == [] then [] else syms[0].content + Contents(syms[1..])
  }

  lemma {:induction false} ContentsAppend(a: seq<Symbol>, b: seq<Symbol>)
    ensures Contents(a + b) == Contents(a) + Contents(b)
  {
    if a != [] {
      ContentsAppend(a[1..], b);
      assert (a + b)[1..] == a[1..] + b;
    } else {
      assert a + b == b;
    }
  }

  /** The right side with the dot written before position pos (or after the
      last symbol when pos is the length), symbol by symbol. */
  function RenderRight(right: seq<Symbol>, pos: int): string {
    (if pos == 0 then DELIMITER else []) +
    (if right == [] then [] else right[0].content + RenderRight(right[1..], pos - 1))
  }

  /** The dot lands between right[..pos] and right[pos..] when pos is a
      position of the right side; any other pos leaves no dot at all. */
  lemma {:induction false} RenderRightSplit(right: seq<Symbol>, pos: int)
    ensures 0 <= pos <= |right| ==>
      RenderRight(right, pos) == Contents(right[..pos]) + DELIMITER + Contents(right[pos..])
    ensures !(0 <= pos <= |right|) ==> RenderRight(right, pos) == Contents(right)
  {
    if right != [] {
      RenderRightSplit(right[1..], pos - 1);
      if 0 < pos <= |right| {
        assert right[..pos] == [right[0]] + right[1..][..pos - 1];
        assert right[pos..] == right[1..][pos - 1..];
        ContentsAppend([right[0]], right[1..][..pos - 1]);
      } else if pos == 0 {
        assert right[..0] == [] && right[0..] == right;
      }
    }
  }

  function Render(p: Production, pos: int, lookahead: Symbol): string {
    p.left.content + "->" + RenderRight(p.right, pos) + "," + lookahead.content
  }

  /** ProductionItem.create(production, lookahead, delimiterPos). */
  function Create(p: Production, lookahead: Symbol, pos: int): (it: Item)
    ensures it.production == p && it.pos == pos && it.lookahead == lookahead
    ensures it.content == Render(p, pos, lookahead)
  {
    Item(p, pos, lookahead, Render(p, pos, lookahead))
  }

  /** The content of a created item spelled out: the dot sits before
      position pos when pos is a position of the right side, and is left
      out for any other pos. */
  lemma CreateContent(p: Production, lookahead: Symbol, pos: int)
    ensures 0 <= pos <= |p.right| ==>
      Create(p, lookahead, pos).content == p.left.content + "->" + Contents(p.right[..pos]) + DELIMITER +
                                           Contents(p.right[pos..]) + "," + lookahead.content
    ensures !(0 <= pos <= |p.right|) ==>
      Create(p, lookahead, pos).content == p.left.content + "->" + Contents(p.right) + "," + lookahead.content
  {
    RenderRightSplit(p.right, pos);
  }

  /** Items built by Create: the content is the rendering of the fields. */
  predicate Rendered(it: Item) {
    it.content == Render(it.production, it.pos, it.lookahead)
  }

  /** ProductionItem.create(production, lookahead): the dot before the first
      symbol. */
  function CreateStart(p: Production, lookahead: Symbol): (it: Item)
    ensures it.production == p && it.pos == 0 && it.lookahead == lookahead && Rendered(it)
  {
    Create(p, lookahead, 0)
  }

  lemma CreateStartContent(p: Production, lookahead: Symbol)
    ensures CreateStart(p, lookahead).content ==
      p.left.content + "->" + DELIMITER + Contents(p.right) + "," + lookahead.content
  {
    CreateContent(p, lookahead, 0);
    assert p.right[..0] == [] && p.right[0..] == p.right;
  }

  /** ProductionItem.create(item): the item with the dot moved one symbol
      right; an item whose dot is already at (or past) the end is refused. */
  function Advance(it: Item): (r: Result<Item>)
    ensures r.Err? <==> it.pos >= |it.production.right|
    ensures r.Err? ==> r.error == DotAtEnd
    ensures r.Ok? ==>
      r.value.production == it.production && r.value.lookahead == it.lookahead &&
      r.value.pos == it.pos + 1 && Rendered(r.value)
  {
    if it.pos >= |it.production.right| then Err(DotAtEnd)
    else Ok(Create(it.production, it.lookahead, it.pos + 1))
  }

  /** getFirstSymbol: the symbols after the one behind the dot, then the
      lookahead (βa for an item A->α•Bβ,a). A dot position below -1 makes
      the source read a negative list index. */
  function FirstSymbols(it: Item): (r: Result<seq<Symbol>>)
    ensures r.Err? <==> it.pos < -1
    ensures r.Err? ==> r.error == IndexOutOfBounds
    ensures r.Ok? ==> |r.value| == (if it.pos + 1 < |it.production.right|
                                     then |it.production.right| - it.pos - 1 else 0) + 1
    ensures r.Ok? ==> r.value[|r.value| - 1] == it.lookahead
    ensures r.Ok? ==> forall i :: 0 <= i < |r.value| - 1 ==> r.value[i] == it.production.right[it.pos + 1 + i]
  {
    var right := it.production.right;
    if it.pos < -1 then Err(IndexOutOfBounds)
    else if it.pos + 1 < |right| then Ok(right[it.pos + 1..] + [it.lookahead])
    else Ok([it.lookahead])
  }

  /** equals and hashCode look only at the content. */
  predicate SameItem(a: Item, b: Item) {
    a.content == b.content
  }

  /** compareTo: the order of the contents. */
  function CompareItems(a: Item, b: Item): (r: int)
    ensures -1 <= r <= 1
  {
    Compare(a.content, b.content)
  }

  /** The order is consistent with equals, and antisymmetric. */
  lemma CompareItemsConsistent(a: Item, b: Item)
    ensures CompareItems(a, b) == 0 <==> SameItem(a, b)
    ensures CompareItems(a, b) == -CompareItems(b, a)
  {
    CompareZero(a.content, b.content);
    CompareFlip(a.content, b.content);
  }
}
