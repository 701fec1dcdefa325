/** The shop manager's purchase entry points. The game manager's
    `BuyUpgrade` is outside this model: it is the parameter `buyUpgrade`, whose
    boolean answer says whether the purchase went through. */
module ShopManager {
  import opened Common
  import opened GameManager

  /** What a purchase request did: the `BuyUpgrade` calls it made, in order,
      and whether it refreshed the coin display afterwards. */
  datatype Purchase = Purchase(calls: seq<UpgradeType>, coinsRefreshed: bool)

  const NoPurchase: Purchase := Purchase([], false)

  /** The item-ID switch of `Buy(int)`: IDs 1 to 4 name an upgrade, any other ID none. */
  function ItemUpgrade(itemID: int): (r: Option<UpgradeType>)
    ensures r.Some? <==> 1 <= itemID <= 4
    ensures r == Some(Bonus) <==> itemID == 1
    ensures r == Some(Rate) <==> itemID == 2
    ensures r == Some(Sp) <==> itemID == 3
    ensures r == Some(SpecialBonus) <==> itemID == 4
  {
    match itemID
    case 1 => Some(Bonus)
    case 2 => Some(Rate)
    case 3 => Some(Sp)
    case 4 => Some(SpecialBonus)
    case _ => None
  }

  /** `Buy(int)`: an unknown ID or a missing game manager ends the request
      before any purchase attempt; otherwise exactly one `BuyUpgrade` call is
      made, and only a successful one refreshes the coin display. */
  function Buy(itemID: int, managerPresent: bool, buyUpgrade: UpgradeType -> bool): (p: Purchase)
    ensures !(1 <= itemID <= 4) ==> p == NoPurchase
    ensures !managerPresent ==> p == NoPurchase
    ensures 1 <= itemID <= 4 && managerPresent ==>
              && |p.calls| == 1
              && ItemUpgrade(itemID) == Some(p.calls[0])
              && (p.coinsRefreshed <==> buyUpgrade(p.calls[0]))
  {
    match ItemUpgrade(itemID)
    case None => NoPurchase
    case Some(kind) =>
      if !managerPresent then NoPurchase
      else Purchase([kind], buyUpgrade(kind))
  }

  /** The object the event system reports as the clicked button. */
  datatype Selection = NothingSelected | WithoutButtonInfo | WithButtonInfo(itemID: int)

  /** The parameterless `Buy()`: it forwards the clicked button's item ID, and
      does nothing when no object is selected or the object carries no button info. */
  function BuySelected(sel: Selection, managerPresent: bool, buyUpgrade: UpgradeType -> bool): (p: Purchase)
    ensures !sel.WithButtonInfo? ==> p == NoPurchase
    ensures sel.WithButtonInfo? ==> p == Buy(sel.itemID, managerPresent, buyUpgrade)
  {
    match sel
    case WithButtonInfo(id) => Buy(id, managerPresent, buyUpgrade)
    case _ => NoPurchase
  }

  /** A purchase attempt changes nothing but what `BuyUpgrade` itself does:
      at most one call, and a refresh only after success. */
  lemma BuyAttemptsAtMostOnce(itemID: int, managerPresent: bool, buyUpgrade: UpgradeType -> bool)
    ensures |Buy(itemID, managerPresent, buyUpgrade).calls| <= 1
    ensures Buy(itemID, managerPresent, buyUpgrade).coinsRefreshed ==>
              |Buy(itemID, managerPresent, buyUpgrade).calls| == 1
              && buyUpgrade(Buy(itemID, managerPresent, buyUpgrade).calls[0])
  {
  }
}
