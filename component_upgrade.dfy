/** One tier of a component's upgrade ladder (ComponentUpgrade.cs).
    Every property has a private setter and is assigned only by one of the
    three constructors, so a tier is an immutable value: a datatype. The
    properties a constructor does not assign keep the C# default, 0. */
module Upgrades {
  import opened Base

  /** A handle on a sprite asset; the image itself is engine data. */
  datatype Sprite = Sprite(asset: nat)

  datatype ComponentUpgrade = ComponentUpgrade(
    name: string,
    price: int32,
    durability: real,
    encryption: real,
    repairPrice: int32,
    sellValue: int32,
    sprite: Sprite)

  /** The general constructor, for regular component upgrades. */
  function General(name: string, price: int32, sprite: Sprite, repairPrice: int32, sellVal: int32): (u: ComponentUpgrade)
    ensures u.name == name && u.price == price && u.sprite == sprite
    ensures u.repairPrice == repairPrice && u.sellValue == sellVal
    ensures u.durability == 0.0 && u.encryption == 0.0
  {
    ComponentUpgrade(name, price, 0.0, 0.0, repairPrice, sellVal, sprite)
  }

  /** The constructor for Computer upgrades, which also carries a durability. */
  function ForComputer(name: string, price: int32, sprite: Sprite, repairPrice: int32, sellVal: int32, durability: real): (u: ComponentUpgrade)
    ensures u.name == name && u.price == price && u.sprite == sprite
    ensures u.repairPrice == repairPrice && u.sellValue == sellVal
    ensures u.durability == durability && u.encryption == 0.0
  {
    ComponentUpgrade(name, price, durability, 0.0, repairPrice, sellVal, sprite)
  }

  /** The constructor for encryption upgrades: no repair price, sell value
      or durability. */
  function ForEncryption(name: string, price: int32, sprite: Sprite, encryption: real): (u: ComponentUpgrade)
    ensures u.name == name && u.price == price && u.sprite == sprite
    ensures u.encryption == encryption
    ensures u.repairPrice == 0 && u.sellValue == 0 && u.durability == 0.0
  {
    ComponentUpgrade(name, price, 0.0, encryption, 0, 0, sprite)
  }
}
