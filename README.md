# Hack Attack TD: gameplay bookkeeping in Dafny

This project models the engine-independent bookkeeping of the tower-defense
game *Hack Attack TD* and proves properties of it. It covers five scripts:

- **GameManager**: the player's currency, held as a C# `int`. A guarded
  subtraction never takes it below zero. A sale credits it. The selection
  state is a scene object plus the component on it. The panel decides when
  the upgrade, repair and sell buttons are enabled, and the handlers of
  those buttons are guarded.
- **BackupManager**: a pool of at most six component backups. When a new
  backup arrives the oldest is evicted first. The selection bar shows one
  slot per backup. Two workflow flags, `BackupReady` and
  `BackupComponentSelected`, drive the backup steps.
- **EventManager**: the refresh-panel latch. Any script may set it. The
  per-frame `Update` consumes it, so several requests in one frame produce
  one refresh.
- **ComponentUpgrade**: one immutable tier of an upgrade ladder, with its
  three constructors.
- **Computer**: the initial state of the Computer component and its fixed
  two-tier ladder.

Modules: `Base` (an Option type, C# `int` as `int32`, wrap-around),
`Upgrades`, `Components` (the `Component` base class and scene objects),
`Computer`, `Events`, `Backups` and `Game`. Objects the game changes in
place are classes: a component, the three managers. Their methods are
specified against pure functions (`State`, `Panel`, `WithBackup`,
`AfterUpdate` and so on). The lemmas are stated about those functions.

Modelling choices:

- C# `int` is the newtype `int32`. Sums and differences wrap modulo 2^32
  (`Wrap32`), as in C#'s default unchecked context. C# `float` (durability,
  encryption) is an exact `real`.
- The `Component` base class is not part of this model. Its properties are
  modelled as the fields of `Components.Component`. `NextUpgrade` is read as
  `Upgrades[ComponentLevel - 1]` for a level from 1 to the ladder's length,
  and null otherwise. The level of a new component is 1. This is the reading
  under which two things in the code line up: `Computer.Start` prices a new
  Computer at its first tier, and the upgrade handler tests
  `ComponentLevel <= Upgrades.Length`.
- The bodies of `Upgrade()` and `Repair()` belong to that base class. Each
  is a method whose resulting component state is a parameter. The button
  handlers take a `CallEffect`: that state, the balance the call leaves
  (it may spend through `SubtractFromCurrency`) and the `Changed` events it
  raises.
- Raising the C# events `Changed` and `onRefreshPanel` is counted
  (`changedEvents`, `refreshInvocations`). Whether an `onRefreshPanel`
  subscriber throws is a parameter of `EventManager.Update`; the
  GameManager's own subscriber, `UpdateComputerPanel`, is wired to it in
  `GameManager.RefreshFrame`.
- An exception is a `threw` result. The state it reports is what the
  statements before the throw left: a null component (selection, panel,
  backups), a sprite array shorter than three or a level outside the ladder
  (`Computer.Start`).
- The code is modelled as written where it disagrees with itself:
  - The repair handler acts only when `RepairPrice < currency`. The repair
    button is enabled already at `RepairPrice <= currency`
    (`RepairGuard`).
  - The repair button reads "Component is Active!" for a disabled component
    the player cannot afford (`RepairButton`).
  - `SellComponent` closes the panels but keeps the sold component
    selected.

## Model

| member | source | states |
|---|---|---|
| Base.Wrap32 | Assets/Scripts/Managers/GameManager.cs:165-166 | C# `int` arithmetic: the result is congruent to the exact one modulo 2^32 and equals it when that is in range |
| Upgrades.General | Assets/Scripts/Components/ComponentUpgrade.cs:47-53 | the general constructor stores name, price, sprite, repair price and sell value unchanged; durability and encryption stay 0 |
| Upgrades.ForComputer | Assets/Scripts/Components/ComponentUpgrade.cs:61-68 | the computer constructor also stores the durability exactly; encryption stays 0 |
| Upgrades.ForEncryption | Assets/Scripts/Components/ComponentUpgrade.cs:76-81 | the encryption constructor stores the encryption; repair price, sell value and durability stay 0 |
| Components.NextUpgradeOf | Assets/Scripts/Components/Computer.cs:18-25 | a next tier exists exactly for a level from 1 to the ladder length, and it is a tier of the ladder |
| Components.Component.NextUpgrade | Assets/Scripts/Managers/GameManager.cs:265-275 | the property the panel reads: a tier exists exactly for a level from 1 to the ladder length, and it is the tier at that level |
| Components.Blank | Assets/Scripts/Components/Computer.cs:17-25 | a component before its `Start` has level 1, an empty ladder and no next tier |
| Components.Component.Upgrade | Assets/Scripts/Managers/GameManager.cs:380 | the opaque `Upgrade()` leaves the component in the given state |
| Components.Component.Repair | Assets/Scripts/Managers/GameManager.cs:392 | the opaque `Repair()` leaves the component in the given state |
| Components.Component.Copy | Assets/Scripts/Managers/BackupManager.cs:119-129 | a backup's component has exactly the properties of the original |
| Computer.Ladder | Assets/Scripts/Components/Computer.cs:18-21 | exactly two tiers, "Modern Laptop" then "Gaming Laptop", with strictly increasing price, repair price and durability, and no encryption |
| Computer.Started | Assets/Scripts/Components/Computer.cs:17-30 | after `Start`: the ladder, active, not sellable, repair price 50, sell value 50, durability 250, first sprite, level untouched, price that of the next tier |
| Computer.StartedUntilPrice | Assets/Scripts/Components/Computer.cs:17-25 | the ladder, name, status and sellable flag are assigned; every other property is still the one from before |
| Computer.Start | Assets/Scripts/Components/Computer.cs:17-30 | with three or more sprites and a level the new ladder indexes, it leaves the state `Started` describes. With fewer sprites it throws before assigning anything. With a level outside the ladder it throws at the price, leaving what `StartedUntilPrice` describes |
| Computer.NewComputer | Assets/Scripts/Components/Computer.cs:17-30 | a fresh component after `Start` is in the state `Started` gives for a blank component; it throws exactly when fewer than three sprites are supplied, and then stays blank |
| Computer.NewComputerState | Assets/Scripts/Components/Computer.cs:19-28 | a new Computer is active and unsellable, costs 100 (the first tier's price), its next tier is the first, and both tiers exceed its durability of 250 |
| Events.AfterTrigger | Assets/Scripts/EventManager.cs:63-65 | a trigger sets the latch and invokes nothing |
| Events.AfterUpdate | Assets/Scripts/EventManager.cs:51-57 | an update clears the latch; it invokes the refresh once if the latch was set and changes nothing if it was clear |
| Events.AfterThrowingUpdate | Assets/Scripts/EventManager.cs:51-57 | an update whose subscriber throws invokes the refresh if the latch was set, but leaves the latch as it was |
| Events.TriggersCoalesce | Assets/Scripts/EventManager.cs:51-65 | any n >= 1 triggers followed by one update give exactly one refresh and a clear latch |
| Events.IdleFramesDoNothing | Assets/Scripts/EventManager.cs:53 | with the latch clear, any number of updates change nothing |
| Events.RefreshesBounded | Assets/Scripts/EventManager.cs:51-65 | over any call sequence: at most one refresh per update, none without a trigger, and a set latch means one trigger is still unanswered |
| Events.ThrowingRefreshRepeats | Assets/Scripts/EventManager.cs:51-57 | with a subscriber that keeps throwing, a set latch stays set and every one of n frames invokes the refresh again |
| Events.EventManager.constructor | Assets/Scripts/EventManager.cs:34 | the latch starts clear with no refreshes |
| Events.EventManager.TriggerRefreshPanelEvent | Assets/Scripts/EventManager.cs:63-65 | the manager's state moves as `AfterTrigger` says |
| Events.EventManager.Update | Assets/Scripts/EventManager.cs:51-57 | the manager's state moves as `AfterUpdate` says, or as `AfterThrowingUpdate` says when a subscriber throws |
| Backups.WithBackup | Assets/Scripts/Managers/BackupManager.cs:153-159 | the new backup is last. Below six entries the list grows by one and keeps every entry. At six or more the oldest is dropped and the rest keep their order. At most six stays at most six |
| Backups.WithBackupKeepsNewest | Assets/Scripts/Managers/BackupManager.cs:153-159 | from at most six entries, one addition keeps exactly the six newest of the old list plus the new backup |
| Backups.WithBackupsKeepsNewest | Assets/Scripts/Managers/BackupManager.cs:153-159 | after any series of additions the pool is exactly the six most recent entries seen, in arrival order |
| Backups.BackupManager.constructor | Assets/Scripts/Managers/BackupManager.cs:44-48 | `Start`: empty pool, `BackupReady` and `BackupComponentSelected` false |
| Backups.BackupManager.InitBackup | Assets/Scripts/Managers/BackupManager.cs:50-52 | records the component to back up; nothing else changes |
| Backups.BackupManager.ReplaceComponent | Assets/Scripts/Managers/BackupManager.cs:69-92 | with no backup chosen nothing changes. Otherwise it ends with `BackupComponentSelected` false and `BackuppedComponent` null. It throws, flags untouched, exactly when a backup is chosen and the object to replace has no component |
| Backups.BackupManager.AddComponentToBackup | Assets/Scripts/Managers/BackupManager.cs:99-103 | sets `BackupReady`; nothing else changes |
| Backups.BackupManager.AddToBackupPool | Assets/Scripts/Managers/BackupManager.cs:111-131 | clears `BackupReady` and appends a fresh copy of the picked component to the pool, as `WithBackup` does. It throws, with `BackupReady` already cleared and the pool unchanged, exactly when the picked object has no component |
| Backups.BackupManager.AddBackupToListOfBackups | Assets/Scripts/Managers/BackupManager.cs:153-168 | the pool becomes `WithBackup` of the old pool and stays within six; the selection bar is rebuilt to one slot per backup, in order |
| Game.Debit | Assets/Scripts/Managers/GameManager.cs:164-173 | a successful debit never leaves a negative balance. From a non-negative balance and amount it succeeds exactly when the amount is covered, and the new balance is exactly the difference |
| Game.Credit | Assets/Scripts/Managers/GameManager.cs:405 | a sale adds exactly the sell value when the sum fits in an `int`, so a non-negative sale never lowers the balance |
| Game.UpgradeButton | Assets/Scripts/Managers/GameManager.cs:265-282 | enabled iff there is a next tier whose price is at most the balance; the text shows that price, or "Max Upgraded" with no next tier |
| Game.RepairButton | Assets/Scripts/Managers/GameManager.cs:285-301 | enabled iff repair price <= balance and the component is disabled. The text is "Component is Active!" exactly for (active and affordable) or (disabled and unaffordable); otherwise it is the repair price |
| Game.SellButton | Assets/Scripts/Managers/GameManager.cs:304-314 | enabled iff the component is sellable; the text shows the sell value or "Can't be sold" |
| Game.Panel | Assets/Scripts/Managers/GameManager.cs:260-314 | the three buttons of a non-Document component, with the three enabling rules above |
| Game.UpgradeGuard | Assets/Scripts/Managers/GameManager.cs:377-384 | it upgrades only with level <= ladder length and a next tier the balance covers. A level above the length means no upgrade. It throws exactly when the level test passes with no next tier |
| Game.UpgradeGuardThrowsOnlyBelowLevelOne | Assets/Scripts/Managers/GameManager.cs:379 | under the ladder lookup, the guard throws exactly for a level below 1 |
| Game.UpgradeGuardAgreesWithButton | Assets/Scripts/Managers/GameManager.cs:265-384 | for a level of 1 or more, the handler upgrades exactly when the button is enabled |
| Game.RepairGuard | Assets/Scripts/Managers/GameManager.cs:285-396 | the handler never repairs while the button is disabled. The button is enabled while the handler refuses exactly when repair price == balance on a disabled component |
| Game.SellGuard | Assets/Scripts/Managers/GameManager.cs:304-410 | the handler sells exactly when the sell button is enabled |
| Game.Selected | Assets/Scripts/Managers/GameManager.cs:231-241 | the clicked object and its component become the selection; the module panel opens only if nothing was selected |
| Game.Deselected | Assets/Scripts/Managers/GameManager.cs:247-253 | nothing is selected afterwards; a selection is cleared with its component and the panel is closed; with nothing selected nothing changes |
| Game.DeselectIdempotent | Assets/Scripts/Managers/GameManager.cs:247-253 | deselecting twice equals deselecting once |
| Game.SelectThenDeselect | Assets/Scripts/Managers/GameManager.cs:231-253 | select then deselect leaves an empty selection and a closed panel |
| Game.GameManager.constructor | Assets/Scripts/Managers/GameManager.cs:95-134 | balance 0, nothing selected, no events raised, panels closed |
| Game.GameManager.GetCurrency | Assets/Scripts/Managers/GameManager.cs:144-146 | returns the stored balance |
| Game.GameManager.SetCurrency | Assets/Scripts/Managers/GameManager.cs:151-155 | `GetCurrency()` returns the value set and `Changed` is raised exactly once; selection and buttons are untouched |
| Game.GameManager.SubtractFromCurrency | Assets/Scripts/Managers/GameManager.cs:164-173 | returns true and sets the balance to the `Debit` result exactly when the wrapped difference is non-negative (raising `Changed`); otherwise returns false and changes nothing |
| Game.GameManager.UpdateComputerPanel | Assets/Scripts/Managers/GameManager.cs:260-314 | the buttons become `Panel` of the selected component and balance. With nothing selected it throws and changes nothing. Nothing else changes |
| Game.GameManager.SelectGameObject | Assets/Scripts/Managers/GameManager.cs:231-241 | the clicked object and its component are selected. A first selection fills in the buttons and opens the panel, as `Selected` says. A switch leaves the buttons. A first selection of an object with no component throws after selecting it, leaving the panel and buttons as they were |
| Game.GameManager.DeselectGameObject | Assets/Scripts/Managers/GameManager.cs:247-253 | the selection moves as `Deselected` says; nothing else changes |
| Game.GameManager.ApplyCallEffect | Assets/Scripts/Managers/GameManager.cs:380-392 | the balance becomes the one `Upgrade()` or `Repair()` left, and the `Changed` events they raised are counted |
| Game.GameManager.UpgradeComponent | Assets/Scripts/Managers/GameManager.cs:377-384 | with no selection, or a guard that fails or throws, nothing changes. Otherwise the component takes its upgraded state, the balance and events are what `Upgrade()` left, and the buttons become `Panel` of that state and balance |
| Game.GameManager.RepairComponent | Assets/Scripts/Managers/GameManager.cs:389-396 | it acts iff a component is selected, repair price < balance and the component is disabled. Otherwise nothing changes. When it acts, the component takes its repaired state, the balance and events are what `Repair()` left, and the buttons become `Panel` of that state and balance |
| Game.GameManager.SellComponent | Assets/Scripts/Managers/GameManager.cs:401-410 | it sells iff a sellable component is selected. A sale credits the sell value, raises `Changed` once and closes both panels. The selection is kept. Otherwise nothing changes |
| Game.GameManager.RefreshFrame | Assets/Scripts/Managers/GameManager.cs:206 | one EventManager frame with `UpdateComputerPanel` subscribed: with a refresh pending the buttons are recomputed and the latch cleared; with nothing selected the subscriber throws, so the latch stays set and the refresh repeats on the next frame |

## Left out

- The `Document` branch of `UpdateComputerPanel` (GameManager.cs:326-359) is not modelled. It depends on a `Document` type and on the `documentHacked` flag of another singleton, and it rewrites `Status` while rendering. `Game.Panel` covers the other components only.
- Components.Component.Upgrade: the base class `Component` is not part of this model. The state `Upgrade()` leaves, and what it spends, are parameters rather than computed.
- Components.Component.Repair: as for `Upgrade`, the resulting state and any spending are parameters.
- Components.NextUpgradeOf: `NextUpgrade` is defined in the base class, which is not part of this model. The 1-based ladder lookup is the reading described above, not code that could be checked.
- Game.GameManager.SellComponent: the call to `CompController.DeleteStructure` is not modelled. That class is not part of this model.
- UI rendering is not modelled. This covers colours, sprites, the panel title and status text, the durability text (`UpdateDynamicText` and the Computer-only durability line), the currency text, and the red-then-yellow `ChangeCurrencyTextColorSwap` coroutine started on a failed debit.
- Engine lifecycle and panel toggles are not modelled: `GameManager.Start`'s subscriptions of `ClosePanels` to `onCancel` and `onCanvasClick` (its `onRefreshPanel` subscription is modelled in `Game.GameManager.RefreshFrame`), `ClosePanels`, `CloseInformationPanel`, `ShowInformationPanel`, `ShowStats` and `ShowModulePanel`. The model keeps only whether each panel is open. The unused `gameOver` flag is dropped.
- The `onCancel` and `onCanvasClick` subscribers (`ClosePanels`) are not modelled. `EventManager.OnGUI` input polling is left out because it reads the engine's input devices.
- Backups.BackupManager.AddToBackupPool: the reflection copy of properties 0..17 is modelled as a copy of the whole component state. The scene-graph cap at BackupManager.cs:116-118, which destroys the first child of "ListOfBackuppedGameObjects" once it has 7 or more, is not modelled.
- Backups.BackupManager.ReplaceComponent: only the flag changes are modelled. Left out are the reflection copy of public fields, `Instantiate`, the position copy, `Destroy` and `SetParent`.
- `BackupManager.Awake` (a scene lookup that throws when the canvas name is wrong) is not modelled. Also left out: `CancelBackup`, `OpenPanel`, `ShowBackupPanel`, `ShowBackupSelectionPanel`, `HighlightReplacableComponents`, and the sprite of each selection-bar slot.
- Earth.cs is not part of this model. It is an engine coroutine with random timing.
- UserBehaviourProfile.cs is not part of this model. It holds float tuning values.
- LevelManager.cs is not part of this model. It sets the starting balance of 800 and some UI text.
