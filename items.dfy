/**
 * The item dice a player can hold in their inventory (`player.inventory`, an array of
 * item names in server.js). One constructor per name the server knows; the Korean
 * display name is given beside each.
 */
module Items {

  datatype ItemName =
    | Fate              // 운명의 주사위 (the plain die; no handler, kept by confiscation)
    | Plus              // 플러스의 주사위
    | Minus             // 마이너스의 주사위
    | Protection        // 보호의 주사위
    | Curse             // 저주의 주사위
    | Chance            // 확률의 주사위
    | Lucky             // 무작위의 주사위
    | Penalty           // 벌칙의 주사위
    | Saving            // 저장의 주사위
    | Recall            // 고정의 주사위
    | Upgrade           // 강화의 주사위
    | SavingClaim       // 저장 주사위 스택 받기
    | BoostedFate       // 강화 운명의 주사위
    | BoostedPlus       // 강화 플러스의 주사위
    | BoostedMinus      // 강화 마이너스의 주사위
    | BoostedCurse      // 강화 저주의 주사위
    | BoostedProtection // 강화 보호의 주사위
    | BoostedLucky      // 강화 무작위의 주사위
    | BoostedPenalty    // 강화 벌칙의 주사위 (no handler: always handed back)
    | BoostedChance     // 강화 확률의 주사위
    | BoostedRecall     // 강화 고정의 주사위
    | BoostedSaving     // 강화 저장의 주사위
    | BoostedSavingClaim // 강화 저장 주사위 스택 받기

  /** The item dice a board cell can grant, in catalogue order (the `get_dice` entries). */
  const GRANTABLE: seq<ItemName> :=
    [Plus, Minus, Protection, Curse, Chance, Lucky, Penalty, Saving, Recall, Upgrade]

  /** What the Upgrade die can turn into, in catalogue order. */
  const BOOSTED: seq<ItemName> :=
    [BoostedFate, BoostedPlus, BoostedMinus, BoostedCurse, BoostedProtection,
     BoostedLucky, BoostedPenalty, BoostedChance, BoostedRecall, BoostedSaving]

  /** The claim item that the start-saving die of either mode puts in the inventory. */
  function ClaimItem(boosted: bool): (c: ItemName)
    ensures c !in GRANTABLE && c !in BOOSTED
  {
    if boosted then BoostedSavingClaim else SavingClaim
  }

  /** The first occurrence of `x` taken out (`splice(indexOf(x), 1)`); unchanged when absent. */
  function RemoveFirst(s: seq<ItemName>, x: ItemName): (r: seq<ItemName>)
    ensures x in s ==> |r| == |s| - 1
    ensures x !in s ==> r == s
    ensures x in s ==> multiset(r) == multiset(s) - multiset{x}
    ensures forall y :: y in r ==> y in s
  {
    if |s| == 0 then s
    else
      assert s == [s[0]] + s[1..];
      if s[0] == x then s[1..]
      else [s[0]] + RemoveFirst(s[1..], x)
  }

  /**
   * A rejected use takes the item out and pushes it back at the end: the inventory
   * is the same multiset as before, only the held item's place moves to the end.
   */
  lemma TakeThenReturn(s: seq<ItemName>, x: ItemName)
    requires x in s
    ensures multiset(RemoveFirst(s, x) + [x]) == multiset(s)
    ensures |RemoveFirst(s, x) + [x]| == |s|
  {
    assert multiset(RemoveFirst(s, x) + [x]) == multiset(RemoveFirst(s, x)) + multiset{x};
  }
}
