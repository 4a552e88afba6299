/** The game's `Component` base class and the scene objects that carry one.
    The base class's own source is not part of this model; what the core
    reads of it is its properties: the upgrade ladder and the current level,
    the active/disabled status, the sellable flag, the prices, the
    durability and the sprite. A component is an object the game updates in
    place, so it is a class; `State` is its value as a datatype. */
module Components {
  import opened Base
  import opened Upgrades

  datatype ComponentState = ComponentState(
    name: string,
    componentLevel: int32,
    upgrades: seq<ComponentUpgrade>,
    status: bool,
    sellable: bool,
    price: int32,
    repairPrice: int32,
    sellValue: int32,
    durability: real,
    sprite: Option<Sprite>)

  /** `NextUpgrade`: the tier the next upgrade buys, found by indexing the
      ladder with the 1-based level; null (None) once every tier is bought. */
  function NextUpgradeOf(level: int32, upgrades: seq<ComponentUpgrade>): (next: Option<ComponentUpgrade>)
    ensures next.Some? <==> 1 <= level as int <= |upgrades|
    ensures next.Some? ==> next.value == upgrades[level - 1] && next.value in upgrades
  {
    if 1 <= level as int <= |upgrades| then Some(upgrades[level - 1]) else None
  }

  /** The state of a component the engine has just created. Status, flags,
      prices and durability are the C# defaults (false, 0); the empty name,
      the empty ladder and level 1 are assumptions about the base class,
      whose initialisers are not part of this model. */
  function Blank(): (s: ComponentState)
    ensures s.componentLevel == 1 && s.upgrades == []
    ensures NextUpgradeOf(s.componentLevel, s.upgrades).None?
  {
    ComponentState("", 1, [], false, false, 0, 0, 0, 0.0, None)
  }

  class Component {
    var name: string
    var componentLevel: int32
    var upgrades: seq<ComponentUpgrade>
    var status: bool
    var sellable: bool
    var price: int32
    var repairPrice: int32
    var sellValue: int32
    var durability: real
    var sprite: Option<Sprite>

    function State(): ComponentState
      reads this
    {
      ComponentState(name, componentLevel, upgrades, status, sellable, price, repairPrice, sellValue, durability, sprite)
    }

    function NextUpgrade(): (next: Option<ComponentUpgrade>)
      reads this
      ensures next.Some? <==> 1 <= componentLevel as int <= |upgrades|
      ensures next.Some? ==> next.value == upgrades[componentLevel - 1]
    {
      NextUpgradeOf(componentLevel, upgrades)
    }

    constructor ()
      ensures State() == Blank()
    {
      name, componentLevel, upgrades := "", 1, [];
      status, sellable := false, false;
      price, repairPrice, sellValue := 0, 0, 0;
      durability, sprite := 0.0, None;
    }

    /** A copy of another component's properties, as a backup takes it. */
    constructor Copy(s: ComponentState)
      ensures State() == s
    {
      name, componentLevel, upgrades := s.name, s.componentLevel, s.upgrades;
      status, sellable := s.status, s.sellable;
      price, repairPrice, sellValue := s.price, s.repairPrice, s.sellValue;
      durability, sprite := s.durability, s.sprite;
    }

    /** `Upgrade()`: its body belongs to the base class, which is not part
        of this model, so the state it leaves is given as `upgraded`. */
    method Upgrade(upgraded: ComponentState)
      modifies this
      ensures State() == upgraded
    {
      Load(upgraded);
    }

    /** `Repair()`: as for Upgrade, the state it leaves is `repaired`. */
    method Repair(repaired: ComponentState)
      modifies this
      ensures State() == repaired
    {
      Load(repaired);
    }

    method Load(s: ComponentState)
      modifies this
      ensures State() == s
    {
      name, componentLevel, upgrades := s.name, s.componentLevel, s.upgrades;
      status, sellable := s.status, s.sellable;
      price, repairPrice, sellValue := s.price, s.repairPrice, s.sellValue;
      durability, sprite := s.durability, s.sprite;
    }
  }

  /** A scene object. `GetComponent(typeof(Component))` is the component
      attached to it, or null; the attachment never changes. */
  class GameObject {
    const component: Component?

    constructor (component: Component?)
      ensures this.component == component
    {
      this.component := component;
    }
  }
}
