/** The GameManager (GameManager.cs): the player's currency, the current
    selection (a scene object and the component on it), the rules that
    enable the module panel's upgrade, repair and sell buttons, and the
    handlers of those buttons. */
module Game {
  import opened Base
  import opened Upgrades
  import opened Components
  import opened Events

  // ---------------------------------------------------------------------
  // Currency arithmetic

  /** `SubtractFromCurrency`'s decision: the new balance, or None when the
      (wrapped) difference would be negative. */
  function Debit(currency: int32, value: int32): (r: Option<int32>)
    ensures r.Some? ==> r.value >= 0
    ensures r.Some? ==> (r.value as int - (currency as int - value as int)) % TWO_TO_THE_32 == 0
    ensures 0 <= currency && 0 <= value ==> (r.Some? <==> value <= currency)
    ensures 0 <= currency && 0 <= value && r.Some? ==> r.value as int == currency as int - value as int
  {
    var diff := Wrap32(currency as int - value as int);
    if diff >= 0 then Some(diff) else None
  }

  /** The balance after a sale: C# `int` addition, wrapping on overflow. */
  function Credit(currency: int32, sellValue: int32): (r: int32)
    ensures (r as int - (currency as int + sellValue as int)) % TWO_TO_THE_32 == 0
    ensures INT32_MIN <= currency as int + sellValue as int <= INT32_MAX ==> r as int == currency as int + sellValue as int
    ensures 0 <= currency && 0 <= sellValue && currency as int + sellValue as int <= INT32_MAX ==> currency <= r
  {
    Wrap32(currency as int + sellValue as int)
  }

  // ---------------------------------------------------------------------
  // The module panel's buttons

  /** What a button's text says. */
  datatype Label =
    | UpgradeCost(price: int32)   // "Upgrade (Cost: p)"
    | MaxUpgraded                 // "Max Upgraded"
    | RepairCost(price: int32)    // "Repair (Cost: p)"
    | ComponentActive             // "Component is Active!"
    | CantBeSold                  // "Can't be sold"
    | SellFor(value: int32)       // "Sell (v)"

  datatype Button = Button(interactable: bool, text: Label)

  datatype PanelButtons = PanelButtons(upgrade: Button, repair: Button, sell: Button)

  /** The upgrade button: enabled when there is a next tier the player can
      afford; its text names the next tier's price, or says the ladder is
      exhausted. */
  function UpgradeButton(next: Option<ComponentUpgrade>, currency: int32): (b: Button)
    ensures b.interactable <==> next.Some? && next.value.price <= currency
    ensures next.Some? ==> b.text == UpgradeCost(next.value.price)
    ensures next.None? ==> b.text == MaxUpgraded
  {
    if next.Some? && next.value.price <= currency then Button(true, UpgradeCost(next.value.price))
    else if next.Some? && next.value.price > currency then Button(false, UpgradeCost(next.value.price))
    else Button(false, MaxUpgraded)
  }

  /** The repair button: enabled when the component is disabled and the
      player can pay the repair price (equality included). Its text is the
      repair price, except that it reads "Component is Active!" both for an
      active component the player could pay for and for a disabled one the
      player cannot pay for. */
  function RepairButton(repairPrice: int32, status: bool, currency: int32): (b: Button)
    ensures b.interactable <==> repairPrice <= currency && !status
    ensures b.text == ComponentActive <==> (status && repairPrice <= currency) || (!status && repairPrice > currency)
    ensures b.text != ComponentActive ==> b.text == RepairCost(repairPrice)
  {
    if repairPrice <= currency && status == false then Button(true, RepairCost(repairPrice))
    else if repairPrice > currency && status == true then Button(false, RepairCost(repairPrice))
    else Button(false, ComponentActive)
  }

  /** The sell button: enabled exactly for sellable components. */
  function SellButton(sellable: bool, sellValue: int32): (b: Button)
    ensures b.interactable <==> sellable
    ensures b.text == if sellable then SellFor(sellValue) else CantBeSold
  {
    if sellable == false then Button(false, CantBeSold) else Button(true, SellFor(sellValue))
  }

  /** The three buttons `UpdateComputerPanel` shows for a component that is
      not the Document. */
  function Panel(s: ComponentState, currency: int32): (p: PanelButtons)
    ensures p.upgrade.interactable <==> NextUpgradeOf(s.componentLevel, s.upgrades).Some? && NextUpgradeOf(s.componentLevel, s.upgrades).value.price <= currency
    ensures p.repair.interactable <==> s.repairPrice <= currency && !s.status
    ensures p.sell.interactable <==> s.sellable
  {
    PanelButtons(
      UpgradeButton(NextUpgradeOf(s.componentLevel, s.upgrades), currency),
      RepairButton(s.repairPrice, s.status, currency),
      SellButton(s.sellable, s.sellValue))
  }

  // ---------------------------------------------------------------------
  // The button handlers' guards

  datatype UpgradeDecision = Upgrade | Skip | NullReference

  /** `UpgradeComponent`'s test on a selected component: the level must not
      exceed the ladder's length and the balance must cover the next tier's
      price. The price is read only when the first test passes; if there is
      then no next tier, reading it throws. */
  function UpgradeGuard(s: ComponentState, currency: int32): (d: UpgradeDecision)
    ensures d == NullReference <==> s.componentLevel as int <= |s.upgrades| && NextUpgradeOf(s.componentLevel, s.upgrades).None?
    ensures d == Upgrade ==> s.componentLevel as int <= |s.upgrades|
    ensures d == Upgrade ==> NextUpgradeOf(s.componentLevel, s.upgrades).Some? && NextUpgradeOf(s.componentLevel, s.upgrades).value.price <= currency
    ensures s.componentLevel as int > |s.upgrades| ==> d == Skip
  {
    if s.componentLevel as int <= |s.upgrades| then
      match NextUpgradeOf(s.componentLevel, s.upgrades)
      case None => NullReference
      case Some(next) => if currency >= next.price then Upgrade else Skip
    else Skip
  }

  /** Reading the price throws only for a level below 1. */
  lemma UpgradeGuardThrowsOnlyBelowLevelOne(s: ComponentState, currency: int32)
    ensures UpgradeGuard(s, currency) == NullReference <==> s.componentLevel < 1
  {
  }

  /** For a level of 1 or more, the handler upgrades exactly when the panel
      enables the upgrade button. */
  lemma UpgradeGuardAgreesWithButton(s: ComponentState, currency: int32)
    requires 1 <= s.componentLevel
    ensures UpgradeGuard(s, currency) == Upgrade <==> Panel(s, currency).upgrade.interactable
  {
  }

  /** `RepairComponent`'s test on a selected component: a strictly smaller
      repair price than the balance, and the component disabled. The handler
      never repairs when the button is disabled; the button is enabled but
      the handler does nothing exactly when the repair price equals the
      balance of a disabled component. */
  function RepairGuard(s: ComponentState, currency: int32): (ok: bool)
    ensures ok ==> RepairButton(s.repairPrice, s.status, currency).interactable
    ensures RepairButton(s.repairPrice, s.status, currency).interactable && !ok <==> s.repairPrice == currency && !s.status
  {
    s.repairPrice < currency && !s.status
  }

  /** `SellComponent`'s test on a selected component: the handler sells
      exactly when the panel enables the sell button. */
  function SellGuard(s: ComponentState): (ok: bool)
    ensures ok <==> SellButton(s.sellable, s.sellValue).interactable
  {
    s.sellable == true
  }

  // ---------------------------------------------------------------------
  // The selection

  /** The selected object, the selected component, and whether the module
      panel is shown. */
  datatype Selection = Selection(obj: GameObject?, comp: Component?, modulePanelActive: bool)

  /** `SelectGameObject`: the object and the component on it become the
      selection; the module panel opens only if nothing was selected. */
  function Selected(sel: Selection, g: GameObject): (r: Selection)
    ensures r.obj == g && r.comp == g.component
    ensures r.modulePanelActive == (sel.obj == null || sel.modulePanelActive)
  {
    if sel.obj != null then Selection(g, g.component, sel.modulePanelActive)
    else Selection(g, g.component, true)
  }

  /** `DeselectGameObject`: clears both parts of the selection and closes
      the module panel; with nothing selected it changes nothing. */
  function Deselected(sel: Selection): (r: Selection)
    ensures r.obj == null
    ensures sel.obj != null ==> r.comp == null && !r.modulePanelActive
    ensures sel.obj == null ==> r == sel
  {
    if sel.obj != null then Selection(null, null, false) else sel
  }

  /** Deselecting twice is deselecting once. */
  lemma DeselectIdempotent(sel: Selection)
    ensures Deselected(Deselected(sel)) == Deselected(sel)
  {
  }

  /** Selecting then deselecting leaves nothing selected and the module
      panel closed, whatever was selected before. */
  lemma SelectThenDeselect(sel: Selection, g: GameObject)
    ensures Deselected(Selected(sel, g)) == Selection(null, null, false)
  {
  }

  // ---------------------------------------------------------------------
  // The manager

  /** What a component's own `Upgrade()` or `Repair()` leaves behind. Their
      bodies are not part of this model: the component's new state, the
      balance afterwards (they may spend through `SubtractFromCurrency`),
      and how many `Changed` events they raised. */
  datatype CallEffect = CallEffect(component: ComponentState, currency: int32, changedRaised: nat)

  class GameManager {
    var currency: int32
    /** How many times the `Changed` event has been raised, whether or not a
        subscriber is attached. */
    var changedEvents: nat
    var selectedGameObject: GameObject?
    var selectedComponent: Component?
    var modulePanelActive: bool
    var informationPanelActive: bool
    /** The buttons as `UpdateComputerPanel` last set them. */
    var buttons: PanelButtons

    function CurrentSelection(): Selection
      reads this
    {
      Selection(selectedGameObject, selectedComponent, modulePanelActive)
    }

    /** The selected component is always the one on the selected object. */
    ghost predicate Valid()
      reads this
    {
      selectedComponent == (if selectedGameObject == null then null else selectedGameObject.component)
    }

    constructor (initialButtons: PanelButtons)
      ensures Valid()
      ensures currency == 0 && changedEvents == 0
      ensures selectedGameObject == null && selectedComponent == null
      ensures !modulePanelActive && !informationPanelActive && buttons == initialButtons
    {
      currency := 0;
      changedEvents := 0;
      selectedGameObject, selectedComponent := null, null;
      modulePanelActive, informationPanelActive := false, false;
      buttons := initialButtons;
    }

    /** The balance as the last `SetCurrency` left it. */
    function GetCurrency(): (c: int32)
      reads this
      ensures c == currency
    {
      currency
    }

    /** Sets the balance and raises `Changed` once. */
    method SetCurrency(value: int32)
      modifies this
      ensures GetCurrency() == value
      ensures changedEvents == old(changedEvents) + 1
      ensures CurrentSelection() == old(CurrentSelection()) && buttons == old(buttons)
      ensures informationPanelActive == old(informationPanelActive)
    {
      currency := value;
      changedEvents := changedEvents + 1;
    }

    /** Subtracts `value` when the balance stays non-negative and reports
      whether it did; otherwise nothing changes. */
    method SubtractFromCurrency(value: int32) returns (ok: bool)
      modifies this
      ensures ok <==> Debit(old(currency), value).Some?
      ensures ok ==> currency == Debit(old(currency), value).value && changedEvents == old(changedEvents) + 1
      ensures !ok ==> currency == old(currency) && changedEvents == old(changedEvents)
      ensures CurrentSelection() == old(CurrentSelection()) && buttons == old(buttons)
      ensures informationPanelActive == old(informationPanelActive)
    {
      var diff := Wrap32(GetCurrency() as int - value as int);
      if diff >= 0 {
        SetCurrency(diff);
        ok := true;
      } else {
        ok := false;
      }
    }

    /** Recomputes the buttons from the selected component and the balance.
      With nothing selected, reading the component's properties throws
      before any button is set. */
    method UpdateComputerPanel() returns (threw: bool)
      modifies this
      ensures threw <==> selectedComponent == null
      ensures CurrentSelection() == old(CurrentSelection()) && informationPanelActive == old(informationPanelActive)
      ensures currency == old(currency) && changedEvents == old(changedEvents)
      ensures threw ==> buttons == old(buttons)
      ensures selectedComponent != null ==> buttons == Panel(selectedComponent.State(), currency)
    {
      if selectedComponent == null {
        return true;
      }
      var s := selectedComponent.State();
      buttons := PanelButtons(
        UpgradeButton(selectedComponent.NextUpgrade(), GetCurrency()),
        RepairButton(s.repairPrice, s.status, GetCurrency()),
        SellButton(s.sellable, s.sellValue));
      threw := false;
    }

    /** Selects a clicked object. On a first selection the panel is filled
      in and opened; switching selection leaves the panel as it was. A first
      selection of an object without a component throws while filling in
      the panel: the object is selected, but the panel stays as it was. */
    method SelectGameObject(g: GameObject) returns (threw: bool)
      requires Valid()
      modifies this
      ensures Valid()
      ensures threw <==> old(selectedGameObject) == null && g.component == null
      ensures selectedGameObject == g && selectedComponent == g.component
      ensures !threw ==> CurrentSelection() == Selected(old(CurrentSelection()), g)
      ensures threw ==> modulePanelActive == old(modulePanelActive) && buttons == old(buttons)
      ensures old(selectedGameObject) == null && g.component != null ==> buttons == Panel(g.component.State(), currency)
      ensures old(selectedGameObject) != null ==> buttons == old(buttons)
      ensures currency == old(currency) && changedEvents == old(changedEvents)
      ensures informationPanelActive == old(informationPanelActive)
    {
      threw := false;
      if selectedGameObject != null {
        selectedGameObject := g;
        selectedComponent := g.component;
      } else {
        selectedGameObject := g;
        selectedComponent := g.component;
        threw := UpdateComputerPanel();
        if threw {
          return;
        }
        modulePanelActive := true;
      }
    }

    method DeselectGameObject()
      requires Valid()
      modifies this
      ensures Valid()
      ensures CurrentSelection() == Deselected(old(CurrentSelection()))
      ensures currency == old(currency) && changedEvents == old(changedEvents)
      ensures buttons == old(buttons) && informationPanelActive == old(informationPanelActive)
    {
      if selectedGameObject != null {
        selectedGameObject := null;
        selectedComponent := null;
        modulePanelActive := false;
      }
    }

    /** What the opaque call leaves in this manager: its balance and the
      `Changed` events it raised. */
    method ApplyCallEffect(effect: CallEffect)
      modifies this
      ensures currency == effect.currency && changedEvents == old(changedEvents) + effect.changedRaised
      ensures CurrentSelection() == old(CurrentSelection()) && informationPanelActive == old(informationPanelActive)
      ensures buttons == old(buttons)
    {
      currency := effect.currency;
      changedEvents := changedEvents + effect.changedRaised;
    }

    /** The upgrade button's handler. The selected component's own
      `Upgrade()` has the effect `effect`. Without a selection, or when the
      guard fails or throws, nothing changes. Otherwise the buttons are
      recomputed for the upgraded component and the balance it left. */
    method UpgradeComponent(effect: CallEffect) returns (d: UpgradeDecision)
      requires Valid()
      modifies this, selectedComponent
      ensures Valid()
      ensures selectedComponent == null ==> d == Skip
      ensures old(selectedComponent) != null ==> d == UpgradeGuard(old(selectedComponent.State()), old(currency))
      ensures d != Upgrade ==> unchanged(this) && (selectedComponent != null ==> unchanged(selectedComponent))
      ensures d == Upgrade ==> selectedComponent != null && selectedComponent.State() == effect.component
      ensures d == Upgrade ==> currency == effect.currency && changedEvents == old(changedEvents) + effect.changedRaised
      ensures d == Upgrade ==> buttons == Panel(effect.component, effect.currency)
      ensures CurrentSelection() == old(CurrentSelection()) && informationPanelActive == old(informationPanelActive)
    {
      d := Skip;
      if selectedComponent != null {
        d := UpgradeGuard(selectedComponent.State(), GetCurrency());
        if d == Upgrade {
          selectedComponent.Upgrade(effect.component);
          ApplyCallEffect(effect);
          var threw := UpdateComputerPanel();
        }
      }
    }

    /** The repair button's handler. The selected component's own
      `Repair()` has the effect `effect`. */
    method RepairComponent(effect: CallEffect) returns (acted: bool)
      requires Valid()
      modifies this, selectedComponent
      ensures Valid()
      ensures acted <==> old(selectedComponent) != null && RepairGuard(old(selectedComponent.State()), old(currency))
      ensures !acted ==> unchanged(this) && (selectedComponent != null ==> unchanged(selectedComponent))
      ensures acted ==> selectedComponent != null && selectedComponent.State() == effect.component
      ensures acted ==> currency == effect.currency && changedEvents == old(changedEvents) + effect.changedRaised
      ensures acted ==> buttons == Panel(effect.component, effect.currency)
      ensures CurrentSelection() == old(CurrentSelection()) && informationPanelActive == old(informationPanelActive)
    {
      acted := false;
      if selectedComponent != null {
        if selectedComponent.repairPrice < GetCurrency() && selectedComponent.status == false {
          selectedComponent.Repair(effect.component);
          ApplyCallEffect(effect);
          var threw := UpdateComputerPanel();
          acted := true;
        }
      }
    }

    /** One frame of the EventManager with this manager's `UpdateComputerPanel`
      subscribed to `onRefreshPanel`. With nothing selected the subscriber
      throws, so a pending refresh is never consumed. */
    method RefreshFrame(events: EventManager) returns (threw: bool)
      modifies this, events
      ensures threw <==> old(events.refreshPanelEventIsTriggered) && selectedComponent == null
      ensures events.State() == if selectedComponent == null then AfterThrowingUpdate(old(events.State())) else AfterUpdate(old(events.State()))
      ensures old(events.refreshPanelEventIsTriggered) && selectedComponent != null ==> buttons == Panel(selectedComponent.State(), currency)
      ensures !old(events.refreshPanelEventIsTriggered) ==> buttons == old(buttons)
      ensures threw ==> buttons == old(buttons)
      ensures CurrentSelection() == old(CurrentSelection()) && informationPanelActive == old(informationPanelActive)
      ensures currency == old(currency) && changedEvents == old(changedEvents)
    {
      threw := false;
      if events.refreshPanelEventIsTriggered {
        threw := UpdateComputerPanel();
      }
      events.Update(threw);
    }

    /** The sell button's handler: credits the sell value and closes both
      panels. The selection itself is left as it was. */
    method SellComponent() returns (sold: bool)
      requires Valid()
      modifies this
      ensures Valid()
      ensures sold <==> selectedComponent != null && SellGuard(selectedComponent.State())
      ensures sold ==> currency == Credit(old(currency), selectedComponent.sellValue)
      ensures sold ==> changedEvents == old(changedEvents) + 1 && !informationPanelActive && !modulePanelActive
      ensures !sold ==> unchanged(this)
      ensures selectedGameObject == old(selectedGameObject) && selectedComponent == old(selectedComponent)
      ensures buttons == old(buttons)
    {
      sold := false;
      if selectedComponent != null && selectedComponent.sellable == true {
        SetCurrency(Wrap32(GetCurrency() as int + selectedComponent.sellValue as int));
        informationPanelActive := false;
        modulePanelActive := false;
        sold := true;
      }
    }
  }
}
