/** Entries of the LR(1) ACTION table: shift to an item set, reduce by a
    production, or accept. */
module Actions {
  import opened Outcomes
  import opened Productions
  import opened ItemSets

  const ACTION_S: string := "S"
  const ACTION_R: string := "R"
  const ACTION_ACC: string := "ACC"

  /** An action. The constructor is private and only the three factories
      below call it, so these are the only shapes an action can take. */
  datatype ActionItem =
    | Shift(itemSet: ItemSet)
    | Reduce(production: Production)
    | Accept

  /** getActionType. */
  function ActionType(a: ActionItem): string {
    match a
    case Shift(_) => ACTION_S
    case Reduce(_) => ACTION_R
    case Accept => ACTION_ACC
  }

  /** getProductionItemSet: null unless the action shifts. */
  function ItemSetOf(a: ActionItem): Option<ItemSet> {
    if a.Shift? then Some(a.itemSet) else None
  }

  /** getProduction: null unless the action reduces. */
  function ProductionOf(a: ActionItem): Option<Production> {
    if a.Reduce? then Some(a.production) else None
  }

  /** createActionS: type "S", the given item set, no production. */
  function CreateActionS(s: ItemSet): (a: ActionItem)
    ensures ActionType(a) == ACTION_S && ItemSetOf(a) == Some(s) && ProductionOf(a) == None
  {
    Shift(s)
  }

  /** createActionR: type "R", the given production, no item set. */
  function CreateActionR(p: Production): (a: ActionItem)
    ensures ActionType(a) == ACTION_R && ItemSetOf(a) == None && ProductionOf(a) == Some(p)
  {
    Reduce(p)
  }

  /** createActionACC: type "ACC" and neither field set. */
  function CreateActionAcc(): (a: ActionItem)
    ensures ActionType(a) == ACTION_ACC && ItemSetOf(a) == None && ProductionOf(a) == None
  {
    Accept
  }

  /** Every action is one of the three factory results, and its type
      string alone tells which fields are set. */
  lemma OnlyFactoryShapes(a: ActionItem)
    ensures ActionType(a) == ACTION_S ==>
      ItemSetOf(a).Some? && ProductionOf(a).None? && a == CreateActionS(ItemSetOf(a).value)
    ensures ActionType(a) == ACTION_R ==>
      ItemSetOf(a).None? && ProductionOf(a).Some? && a == CreateActionR(ProductionOf(a).value)
    ensures ActionType(a) == ACTION_ACC ==>
      ItemSetOf(a).None? && ProductionOf(a).None? && a == CreateActionAcc()
    ensures ActionType(a) in {ACTION_S, ACTION_R, ACTION_ACC}
  {
  }

  /** The three type strings are distinct, so the getters recover the
      action: two actions with the same type and fields are the same. */
  lemma GettersDetermineAction(a: ActionItem, b: ActionItem)
    requires ActionType(a) == ActionType(b)
    requires ItemSetOf(a) == ItemSetOf(b) && ProductionOf(a) == ProductionOf(b)
    ensures a == b
  {
    assert ACTION_S != ACTION_R && ACTION_S != ACTION_ACC && ACTION_R != ACTION_ACC by {
      assert |ACTION_S| == 1 && |ACTION_ACC| == 3 && ACTION_S[0] != ACTION_R[0];
    }
  }
}
