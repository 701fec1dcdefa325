/** A shop button: its own item-ID mapping, the level it displays, and its
    click handler, which either delegates to a shop manager or buys directly. */
module StoreButton {
  import opened Common
  import opened GameManager
  import ShopManager

  /** `GetUpgradeType`: IDs 1 to 4 as in the shop manager, every other ID Bonus. */
  function GetUpgradeType(id: int): (t: UpgradeType)
    ensures 1 <= id <= 4 ==> ShopManager.ItemUpgrade(id) == Some(t)
    ensures !(1 <= id <= 4) ==> t == Bonus
  {
    match id
    case 1 => Bonus
    case 2 => Rate
    case 3 => Sp
    case 4 => SpecialBonus
    case _ => Bonus
  }

  /** The level label: the stored level of the button's upgrade, counted from 1. */
  function DisplayedLevel(id: int, levelOf: UpgradeType -> int): (shown: int)
    ensures 1 <= id <= 4 ==> ShopManager.ItemUpgrade(id).Some? && shown == levelOf(ShopManager.ItemUpgrade(id).value) + 1
    ensures !(1 <= id <= 4) ==> shown == levelOf(Bonus) + 1
    ensures shown - 1 == levelOf(GetUpgradeType(id))
  {
    levelOf(GetUpgradeType(id)) + 1
  }

  /** How the button's inspector slot for the shop manager is filled. */
  datatype ShopBinding = Unbound | BoundWithoutScript | BoundWithScript

  /** The outcome of a click: a purchase record, or the null dereference that
      the direct path hits when no game manager exists. */
  datatype ClickOutcome = Completed(purchase: ShopManager.Purchase) | NullReference

  /** `Buy()`: ID 0 is rejected; a bound shop manager gets the ID unchanged; a
      bound object without the script does nothing; with no binding the button
      calls `BuyUpgrade` itself, ignoring its answer. */
  function Click(itemID: int, binding: ShopBinding, managerPresent: bool,
                 buyUpgrade: UpgradeType -> bool): (r: ClickOutcome)
    ensures itemID == 0 ==> r == Completed(ShopManager.NoPurchase)
    ensures itemID != 0 && binding == BoundWithScript ==>
              r == Completed(ShopManager.Buy(itemID, managerPresent, buyUpgrade))
    ensures itemID != 0 && binding == BoundWithoutScript ==> r == Completed(ShopManager.NoPurchase)
    ensures itemID != 0 && binding == Unbound && managerPresent ==>
              r == Completed(ShopManager.Purchase([GetUpgradeType(itemID)], false))
    ensures itemID != 0 && binding == Unbound && !managerPresent ==> r == NullReference
  {
    if itemID == 0 then Completed(ShopManager.NoPurchase)
    else match binding
      case BoundWithScript => Completed(ShopManager.Buy(itemID, managerPresent, buyUpgrade))
      case BoundWithoutScript => Completed(ShopManager.NoPurchase)
      case Unbound =>
        if !managerPresent then NullReference
        else
          var kind := GetUpgradeType(itemID);
          Completed(ShopManager.Purchase([kind], false))
  }

  /** For IDs 1 to 4 the two mappings agree; every other ID is unknown to the
      shop manager but Bonus to the button. */
  lemma MappingsAgreeOnShopIds(id: int)
    ensures 1 <= id <= 4 <==> ShopManager.ItemUpgrade(id) == Some(GetUpgradeType(id))
  {
  }

  /** The button's label shows the level of the very upgrade a click would buy. */
  lemma LabelMatchesPurchase(id: int, levelOf: UpgradeType -> int, buyUpgrade: UpgradeType -> bool)
    requires 1 <= id <= 4
    ensures var p := ShopManager.Buy(id, true, buyUpgrade);
            DisplayedLevel(id, levelOf) == levelOf(p.calls[0]) + 1
  {
  }

  /** The two click paths disagree on unknown IDs: with no shop manager bound,
      an ID outside 0 to 4 still buys Bonus, while the delegated path makes no call. */
  lemma UnknownIdPathsDisagree(id: int, buyUpgrade: UpgradeType -> bool)
    requires id != 0 && !(1 <= id <= 4)
    ensures Click(id, Unbound, true, buyUpgrade) == Completed(ShopManager.Purchase([Bonus], false))
    ensures Click(id, BoundWithScript, true, buyUpgrade) == Completed(ShopManager.NoPurchase)
  {
  }
}
