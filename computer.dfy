/** The Computer component (Computer.cs): its `Start` gives the inherited
    properties their initial values and installs a fixed two-tier ladder. */
module Computer {
  import opened Base
  import opened Upgrades
  import opened Components

  const OLD_COMPUTER: string := "Old Computer"
  const MODERN_LAPTOP: string := "Modern Laptop"
  const GAMING_LAPTOP: string := "Gaming Laptop"

  /** The ladder; tier i uses sprite i + 1 of the computer's sprite array. */
  function Ladder(computerSprites: seq<Sprite>): (ladder: seq<ComponentUpgrade>)
    requires |computerSprites| >= 3
    ensures |ladder| == 2
    ensures ladder[0].name == MODERN_LAPTOP && ladder[1].name == GAMING_LAPTOP
    ensures ladder[0].price < ladder[1].price
    ensures ladder[0].repairPrice < ladder[1].repairPrice
    ensures ladder[0].durability < ladder[1].durability
    ensures forall u :: u in ladder ==> u.encryption == 0.0
  {
    [ ForComputer(MODERN_LAPTOP, 100, computerSprites[1], 100, 100, 500.0),
      ForComputer(GAMING_LAPTOP, 500, computerSprites[2], 200, 200, 1000.0) ]
  }

  /** The state `Start` leaves a component in. The level is not assigned by
      `Start`; reading `NextUpgrade.Price` needs it to index the new ladder. */
  function Started(before: ComponentState, computerSprites: seq<Sprite>): (s: ComponentState)
    requires |computerSprites| >= 3
    requires 1 <= before.componentLevel <= 2
    ensures s.upgrades == Ladder(computerSprites) && s.componentLevel == before.componentLevel
    ensures s.name == OLD_COMPUTER && s.status && !s.sellable
    ensures s.repairPrice == 50 && s.sellValue == 50 && s.durability == 250.0
    ensures s.sprite == Some(computerSprites[0])
    ensures NextUpgradeOf(s.componentLevel, s.upgrades) == Some(s.upgrades[s.componentLevel - 1])
    ensures s.price == s.upgrades[s.componentLevel - 1].price
  {
    var ladder := Ladder(computerSprites);
    ComponentState(OLD_COMPUTER, before.componentLevel, ladder, true, false,
                   ladder[before.componentLevel - 1].price, 50, 50, 250.0, Some(computerSprites[0]))
  }

  /** What `Start` has assigned when reading `NextUpgrade.Price` throws:
      the ladder, the name, the status and the sellable flag. */
  function StartedUntilPrice(before: ComponentState, computerSprites: seq<Sprite>): (s: ComponentState)
    requires |computerSprites| >= 3
    ensures s.upgrades == Ladder(computerSprites) && s.name == OLD_COMPUTER && s.status && !s.sellable
    ensures s.componentLevel == before.componentLevel && s.price == before.price
    ensures s.repairPrice == before.repairPrice && s.sellValue == before.sellValue
    ensures s.durability == before.durability && s.sprite == before.sprite
  {
    before.(upgrades := Ladder(computerSprites), name := OLD_COMPUTER, status := true, sellable := false)
  }

  /** `Start`, assigning the inherited properties one by one in the order
      the source does. With fewer than three sprites, building the ladder
      throws before anything is assigned; with a level that does not index
      the new ladder, reading `NextUpgrade.Price` throws midway. */
  method Start(c: Component, computerSprites: seq<Sprite>) returns (threw: bool)
    modifies c
    ensures threw <==> |computerSprites| < 3 || !(1 <= old(c.componentLevel) <= 2)
    ensures |computerSprites| < 3 ==> c.State() == old(c.State())
    ensures |computerSprites| >= 3 && !(1 <= old(c.componentLevel) <= 2) ==>
      c.State() == StartedUntilPrice(old(c.State()), computerSprites)
    ensures !threw ==> c.State() == Started(old(c.State()), computerSprites)
  {
    if |computerSprites| < 3 {
      return true;
    }
    c.upgrades := Ladder(computerSprites);
    c.name := OLD_COMPUTER;
    c.status := true;
    c.sellable := false;
    var next := c.NextUpgrade();
    if next.None? {
      return true;
    }
    c.price := next.value.price;
    c.repairPrice := 50;
    c.sellValue := 50;
    c.durability := 250.0;
    c.sprite := Some(computerSprites[0]);
    threw := false;
  }

  /** A Computer as the scene creates it: a fresh component, then `Start`,
      which succeeds exactly when the editor supplied three sprites. */
  method NewComputer(computerSprites: seq<Sprite>) returns (c: Component, threw: bool)
    ensures fresh(c)
    ensures threw <==> |computerSprites| < 3
    ensures threw ==> c.State() == Blank()
    ensures !threw ==> c.State() == Started(Blank(), computerSprites)
  {
    c := new Component();
    threw := Start(c, computerSprites);
  }

  /** A new Computer is active, cannot be sold, costs what the first tier
      costs (100), and both tiers are more durable than it is (250). */
  lemma NewComputerState(computerSprites: seq<Sprite>)
    requires |computerSprites| >= 3
    ensures var s := Started(Blank(), computerSprites);
      && s.status && !s.sellable
      && s.repairPrice == 50 && s.sellValue == 50
      && s.price == s.upgrades[0].price == 100
      && NextUpgradeOf(s.componentLevel, s.upgrades) == Some(s.upgrades[0])
      && forall u :: u in s.upgrades ==> u.durability > s.durability
  {
  }
}
