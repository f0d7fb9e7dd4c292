/** Interning of LR(1) item sets: every set is registered under a key made
    of its items' contents, and gets a creation-order index. The model and
    lr1 packages hold two textual copies of this class; both are modelled by
    this one registry. */
module ItemSets {
  import opened Strings
  import opened Collections
  import opened Items

  const SEPARATOR: char := ';'

  /** The contents of the items, in ascending order. */
  ghost function SortedContents(bag: ItemBag): seq<string> {
    Sort(Enumeration(bag.Keys))
  }

  /** The interning key: the sorted contents, each followed by ';'. */
  ghost function KeyOf(bag: ItemBag): string {
    Terminated(SortedContents(bag), SEPARATOR)
  }

  /** Sorting any listing of the contents gives the same sequence, so the
      key does not depend on the order in which the hash set is visited. */
  lemma SortedContentsOfAnyOrder(bag: ItemBag, xs: seq<string>)
    requires multiset(xs) == multiset(bag.Keys)
    ensures Sort(xs) == SortedContents(bag)
  {
    SortOrderIndependent(xs, Enumeration(bag.Keys));
  }

  /** When no content holds the separator, the key determines the contents:
      two bags with the same key hold the same contents. */
  lemma KeyDeterminesContents(a: ItemBag, b: ItemBag)
    requires forall k :: k in a ==> SEPARATOR !in k
    requires forall k :: k in b ==> SEPARATOR !in k
    requires KeyOf(a) == KeyOf(b)
    ensures a.Keys == b.Keys
  {
    var xs, ys := SortedContents(a), SortedContents(b);
    EnumerationMembers(Enumeration(a.Keys), a.Keys);
    EnumerationMembers(Enumeration(b.Keys), b.Keys);
    forall i | 0 <= i < |xs| ensures SEPARATOR !in xs[i] {
      assert xs[i] in multiset(xs);
    }
    forall i | 0 <= i < |ys| ensures SEPARATOR !in ys[i] {
      assert ys[i] in multiset(ys);
    }
    TerminatedInjective(xs, ys, SEPARATOR);
    forall k ensures k in a.Keys <==> k in b.Keys {
      assert k in a.Keys <==> k in multiset(xs);
      assert k in b.Keys <==> k in multiset(ys);
    }
  }

  /** The key builder: visits the contents of the set, sorts them and
      appends each followed by ';'. */
  method ContentKey(bag: ItemBag) returns (key: string)
    ensures key == KeyOf(bag)
  {
    var listed := Enumerate(bag.Keys);
    var sorted := Sort(listed);
    SortedContentsOfAnyOrder(bag, listed);
    key := "";
    for i := 0 to |sorted|
      invariant key == Terminated(sorted[..i], SEPARATOR)
    {
      TerminatedPrefix(sorted, i, SEPARATOR);
      key := key + sorted[i] + [SEPARATOR];
    }
    assert sorted[..|sorted|] == sorted;
  }

  /** An interned item set. The fields never change after construction. */
  class ItemSet {
    const items: ItemBag
    const content: string
    const index: nat

    /** The constructor also counts the set, as the source's constructor
        increments the shared total. */
    constructor (items: ItemBag, content: string, index: nat, registry: ItemSetRegistry)
      modifies registry
      ensures this.items == items && this.content == content && this.index == index
      ensures registry.total == old(registry.total) + 1
      ensures registry.itemSets == old(registry.itemSets)
    {
      this.items := items;
      this.content := content;
      this.index := index;
      registry.total := registry.total + 1;
    }
  }

  /** equals: two item sets are equal when their keys are. */
  predicate SameSet(a: ItemSet, b: ItemSet) {
    a.content == b.content
  }

  /** compareTo (lr1 copy): by index, that is, by creation order. */
  function CompareIndex(a: ItemSet, b: ItemSet): (r: int)
    ensures r < 0 <==> a.index < b.index
    ensures r == 0 <==> a.index == b.index
  {
    if a.index < b.index then -1 else if a.index == b.index then 0 else 1
  }

  /** The shared registry of item sets (the static itemSets map and total). */
  class ItemSetRegistry {
    var itemSets: map<string, ItemSet>
    var total: nat

    /** Each set is registered under its own key, was counted, and no two
        registered sets share an index. */
    ghost predicate Valid()
      reads this
    {
      (forall k :: k in itemSets ==> itemSets[k].content == k && itemSets[k].index < total) &&
      (forall k1, k2 :: k1 in itemSets && k2 in itemSets && k1 != k2 ==>
        itemSets[k1].index != itemSets[k2].index)
    }

    constructor ()
      ensures Valid() && itemSets == map[] && total == 0
    {
      itemSets := map[];
      total := 0;
    }

    /** ProductionItemSet.create: returns the set already registered under
        the key of bag, or registers a new one whose index is the count of
        sets created so far. */
    method Create(bag: ItemBag) returns (s: ItemSet)
      requires Valid()
      modifies this
      ensures Valid()
      ensures s.content == KeyOf(bag) && KeyOf(bag) in itemSets && itemSets[KeyOf(bag)] == s
      ensures KeyOf(bag) in old(itemSets) ==>
        s == old(itemSets)[KeyOf(bag)] && itemSets == old(itemSets) && total == old(total)
      ensures KeyOf(bag) !in old(itemSets) ==>
        fresh(s) && s.items == bag && s.index == old(total) &&
        itemSets == old(itemSets)[KeyOf(bag) := s] && total == old(total) + 1
    {
      var key := ContentKey(bag);
      if key in itemSets {
        return itemSets[key];
      }
      s := new ItemSet(bag, key, total, this);
      itemSets := itemSets[key := s];
    }

    /** Among registered sets, equals, identity and an equal index agree. */
    lemma RegisteredIdentity(a: ItemSet, b: ItemSet)
      requires Valid() && a in itemSets.Values && b in itemSets.Values
      ensures SameSet(a, b) <==> a == b
      ensures CompareIndex(a, b) == 0 <==> a == b
    {
      var ka :| ka in itemSets && itemSets[ka] == a;
      var kb :| kb in itemSets && itemSets[kb] == b;
    }
  }
}
