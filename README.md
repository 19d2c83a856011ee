# JustEnoughGuide: HUD overlay wrapper and category menu, modelled in Dafny

This project models two parts of JustEnoughGuide, a Slimefun guide plugin for Minecraft servers.

**JEGPlayerWAILA** takes over SlimeHUD's per-player "what am I looking at" overlay (PlayerWAILA).
It shows the text for the block the player faces (the facing) in one of three places:
- the overlay's own legacy Bukkit boss bar;
- a modern Adventure boss bar, which is created lazily and only on Paper 1.20.1 or later;
- the action bar.

It also hands control back to SlimeHUD.

**CategoriesCommand** (`/jeg categories`) lists every item group in a 54-slot chest menu:
- 45 groups per page;
- a filler row;
- previous/next page buttons;
- each group's lore rewritten to show the group's id.

Modules:

- `Wrappers`: `Option`, `Result`, and the Java exceptions that the model turns into values.
- `JavaStrings`: Java's `trim`, `toLowerCase`/`toUpperCase` and `equalsIgnoreCase` on `seq<char>`.
- `BossBarColors`: the Bukkit `BarColor` and Adventure `BossBar.Color` enums, their `valueOf`, `toBarColor` and `toBossBarColor`.
- `Host`: the server's Adventure boss bars. It is a `Server` class holding bars by id, each with a name, a colour and a viewer set. It also holds the legacy bar record.
- `HudOverlay`:
  - `PlayerWaila`: SlimeHUD's overlay, as far as it is needed here.
  - `JegWaila`: the wrapper.
  - `Wrap` and `Unwrap`.
- `CategoriesMenu`:
  - `ChestMenu`: a class over two 54-element arrays (icons and click handlers), filled in place by `Populate`.
  - The pure paging helpers, `CanCommand` and `TabComplete`.

How the wrapper is proved:
- Every state-changing method of `JegWaila` is proved to move its abstract state `Abs()` (a `Snapshot`: the visible flag, pause flag, legacy bar, modern bar, facing fields and action-bar messages sent) by a function of the old state: `SetVisibleSpec`, `RunSpec`, `UnwrapSpec`, and so on.
- Every such method also leaves every other bar on the server untouched (`BarsKept`).
- The lemmas after the class state the wrapper's promises about those functions.

How the menu is proved:
- `ChestMenu.Populate` is proved to leave the arrays equal to `LaidOutItems` and `LaidOutHandlers`.
- The lemmas state the layout in terms of list indices and page numbers.

What the code does that is easy to miss:
- **Round trip.** `toOrigin` returns a fresh `PlayerWAILA` that receives only the pause flag. Title, colour and visibility are written onto the wrapper's own legacy bar instead (`ToOriginMirrorsModernBar`, `Unwrap`), so the overlay `unwrap` returns does not carry them.
- **Constructor.** The constructor reads visibility, colour and title from the new object's own legacy bar, not from the wrapped overlay (`WrapTakesOnlyPauseFlag`).
- **Viewers.** `unwrap` removes every audience viewer of the modern bar, not only the wrapper's own player (`UnwrapReleasesBar`).
- **Cancel.** `cancel` only hides the overlay; later calls on the wrapper behave as before.
- **Legacy bar players.** The constructor takes the player off the legacy bar and no method puts them back. Where the modern bar cannot be created, the legacy bar's visible flag is switched on and off, but the player is not among that bar's players (`PlayerStaysOffLegacyBar`).
- **Exclusive backends.** Once the modern bar exists or can be created, `setVisible`, `setTitle`, both `setColor` overloads, `bossbar` and `run` keep the legacy bar's visible flag clear. `toOrigin` breaks this, as it sets the legacy flag of a visible overlay beside the modern bar. A wrapper built with no overlay over a visible inherited legacy bar starts without it, and its first `setTitle` creates the modern bar with the legacy flag still set; its first `setVisible` restores it (`ExclusiveBreaks`, `ConstructedExclusive`).

## Model

| member | source | states |
|---|---|---|
| JavaStrings.Trim | src/main/java/com/balugaq/jeg/core/integrations/slimehud/JEGPlayerWAILA.java:118 | Java's trim cuts characters <= ' ' off both ends: the result is a slice of the input with only such characters outside it, and has none at either end |
| JavaStrings.TrimOfTrimmed | src/main/java/com/balugaq/jeg/core/integrations/slimehud/JEGPlayerWAILA.java:118 | trimming an already trimmed string changes nothing |
| JavaStrings.CaseMappingKeepsTrimmed | src/main/java/com/balugaq/jeg/core/integrations/slimehud/JEGPlayerWAILA.java:77 | lower- or upper-casing keeps a string trimmed and keeps it untrimmed |
| JavaStrings.EqualsIgnoreCaseIsLowerEquality | src/main/java/com/balugaq/jeg/core/commands/CategoriesCommand.java:92 | equalsIgnoreCase holds exactly when both strings lower-case to the same string |
| BossBarColors.BarColorValueOf | src/main/java/com/balugaq/jeg/core/integrations/slimehud/JEGPlayerWAILA.java:114 | BarColor.valueOf yields a colour exactly when the name is that colour's name, otherwise the IllegalArgumentException case |
| BossBarColors.BossColorValueOf | src/main/java/com/balugaq/jeg/core/integrations/slimehud/JEGPlayerWAILA.java:120 | BossBar.Color.valueOf yields a colour exactly when the name is that colour's name |
| BossBarColors.ToBarColor | src/main/java/com/balugaq/jeg/core/integrations/slimehud/JEGPlayerWAILA.java:113-115 | toBarColor gives the BarColor with the same name as the boss-bar colour |
| BossBarColors.SameNamedBossColor | src/main/java/com/balugaq/jeg/core/integrations/slimehud/JEGPlayerWAILA.java:260 | BossBar.Color.valueOf(barColor.name()) is the boss-bar colour with the same name, and never throws |
| BossBarColors.ColorConversionsRoundTrip | src/main/java/com/balugaq/jeg/core/integrations/slimehud/JEGPlayerWAILA.java:113-115 | converting by name one way and back gives the original colour, in both directions |
| BossBarColors.ToBossBarColor | src/main/java/com/balugaq/jeg/core/integrations/slimehud/JEGPlayerWAILA.java:117-127 | an unknown key gives WHITE; a known key gives the colour named by the upper-cased input, or IllegalArgumentException when valueOf rejects it |
| BossBarColors.KeyNamesAColor | src/main/java/com/balugaq/jeg/core/integrations/slimehud/JEGPlayerWAILA.java:119-120 | each of the seven colour keys upper-cases to a valid colour name that lower-cases back to the key |
| BossBarColors.ToBossBarColorOnTrimmed | src/main/java/com/balugaq/jeg/core/integrations/slimehud/JEGPlayerWAILA.java:117-127 | on trimmed input toBossBarColor never throws, returns the colour whose lower-cased name is the key, and WHITE for every other string |
| BossBarColors.ToBossBarColorOnPadded | src/main/java/com/balugaq/jeg/core/integrations/slimehud/JEGPlayerWAILA.java:118-120 | a known colour with surrounding blanks is recognised by the switch but valueOf on the untrimmed string throws IllegalArgumentException |
| BossBarColors.AliasesAreWhite | src/main/java/com/balugaq/jeg/core/integrations/slimehud/JEGPlayerWAILA.java:121 | "default" and "inherit" give WHITE without the invalid-colour warning |
| Host.Server.CreateBar | src/main/java/com/balugaq/jeg/core/integrations/slimehud/JEGPlayerWAILA.java:78 | a new bar with a fresh id, the given name and colour and no viewers; other bars unchanged |
| Host.Server.AddViewer | src/main/java/com/balugaq/jeg/core/integrations/slimehud/JEGPlayerWAILA.java:231 | the viewer set of that one bar gains the viewer |
| Host.Server.RemoveViewer | src/main/java/com/balugaq/jeg/core/integrations/slimehud/JEGPlayerWAILA.java:233 | the viewer set of that one bar loses the viewer |
| Host.Server.SetName | src/main/java/com/balugaq/jeg/core/integrations/slimehud/JEGPlayerWAILA.java:246 | that one bar's name is replaced |
| Host.Server.SetColor | src/main/java/com/balugaq/jeg/core/integrations/slimehud/JEGPlayerWAILA.java:253 | that one bar's colour is replaced |
| HudOverlay.InitialBossColor | src/main/java/com/balugaq/jeg/core/integrations/slimehud/JEGPlayerWAILA.java:77-78 | the supplier's colour: the colour whose lower-cased name is the trimmed lower-cased setting, else WHITE; it never throws |
| HudOverlay.NormalizedKeyIsKey | src/main/java/com/balugaq/jeg/core/integrations/slimehud/JEGPlayerWAILA.java:77 | the supplier's trim().toLowerCase() does not change the key toBossBarColor computes |
| HudOverlay.PlayerWaila.SetVisible | src/main/java/com/balugaq/jeg/core/integrations/slimehud/JEGPlayerWAILA.java:107 | SlimeHUD's setVisible shows or hides the overlay's own bar and keeps its pause flag |
| HudOverlay.JegWaila.constructor | src/main/java/com/balugaq/jeg/core/integrations/slimehud/JEGPlayerWAILA.java:71-94 | the state after the constructor is ConstructSpec: the player is off the legacy bar; with an overlay given, visibility, colour and title are pushed from the own bar and only paused is taken from the overlay |
| HudOverlay.JegWaila.KyoriBossBar | src/main/java/com/balugaq/jeg/core/integrations/slimehud/JEGPlayerWAILA.java:74-86 | the supplier creates the modern bar once, only where supported, and afterwards returns the same bar |
| HudOverlay.JegWaila.SetVisible | src/main/java/com/balugaq/jeg/core/integrations/slimehud/JEGPlayerWAILA.java:219-239 | the new state is SetVisibleSpec of the old; the active-bar loop adds the player only when not already a viewer |
| HudOverlay.JegWaila.SetTitle | src/main/java/com/balugaq/jeg/core/integrations/slimehud/JEGPlayerWAILA.java:241-248 | the new state is SetTitleSpec of the old |
| HudOverlay.JegWaila.SetBossColor | src/main/java/com/balugaq/jeg/core/integrations/slimehud/JEGPlayerWAILA.java:250-255 | the new state is SetBossColorSpec of the old |
| HudOverlay.JegWaila.SetBarColor | src/main/java/com/balugaq/jeg/core/integrations/slimehud/JEGPlayerWAILA.java:257-262 | the new state is SetBarColorSpec of the old |
| HudOverlay.JegWaila.Bossbar | src/main/java/com/balugaq/jeg/core/integrations/slimehud/JEGPlayerWAILA.java:199-209 | the new state is BossbarSpec of the old |
| HudOverlay.JegWaila.ActionBar | src/main/java/com/balugaq/jeg/core/integrations/slimehud/JEGPlayerWAILA.java:211-217 | the facing is appended to the messages sent and nothing else changes |
| HudOverlay.JegWaila.Run | src/main/java/com/balugaq/jeg/core/integrations/slimehud/JEGPlayerWAILA.java:167-197 | the new state is RunSpec of the old; no other bar on the server changes |
| HudOverlay.JegWaila.ToOrigin | src/main/java/com/balugaq/jeg/core/integrations/slimehud/JEGPlayerWAILA.java:264-275 | returns a fresh PlayerWAILA with the base defaults and this overlay's pause flag; this overlay moves to ToOriginSpec |
| HudOverlay.JegWaila.RemoveAudiences | src/main/java/com/balugaq/jeg/core/integrations/slimehud/JEGPlayerWAILA.java:283-288 | the modern bar, created first if need be, loses exactly its audience viewers and keeps every other viewer; nothing else changes |
| HudOverlay.JegWaila.Cancel | src/main/java/com/balugaq/jeg/core/integrations/slimehud/JEGPlayerWAILA.java:297-300 | cancel is setVisible(false) |
| HudOverlay.Wrap | src/main/java/com/balugaq/jeg/core/integrations/slimehud/JEGPlayerWAILA.java:97-111 | an existing wrapper is returned itself with nothing changed; null gives a fresh wrapper and leaves the server unchanged; a foreign overlay gives a fresh wrapper and is left hidden and paused; no other bar on the server changes |
| HudOverlay.Unwrap | src/main/java/com/balugaq/jeg/core/integrations/slimehud/JEGPlayerWAILA.java:277-295 | null and foreign overlays come back as they are; a wrapper yields a fresh PlayerWAILA with the base defaults and its pause flag, and itself moves to UnwrapSpec |
| HudOverlay.SetVisibleUsesOneBackend | src/main/java/com/balugaq/jeg/core/integrations/slimehud/JEGPlayerWAILA.java:219-239 | after setVisible(v) the visible field is v; with a modern bar the legacy bar is hidden and the player views the modern bar iff v; without one the legacy bar's visibility is v |
| HudOverlay.SetVisibleTouchesOnlyThePlayer | src/main/java/com/balugaq/jeg/core/integrations/slimehud/JEGPlayerWAILA.java:231-233 | setVisible changes no viewer other than its own player, nor the bar's name or colour |
| HudOverlay.SetVisibleIdempotent | src/main/java/com/balugaq/jeg/core/integrations/slimehud/JEGPlayerWAILA.java:224-231 | repeating setVisible(v) changes nothing, so the player is never added twice |
| HudOverlay.SetTitleLegacyOnlyForText | src/main/java/com/balugaq/jeg/core/integrations/slimehud/JEGPlayerWAILA.java:241-248 | the legacy title changes only for a text component; the modern bar always gets the title |
| HudOverlay.SetColorsAgreeByName | src/main/java/com/balugaq/jeg/core/integrations/slimehud/JEGPlayerWAILA.java:250-262 | after either setColor both bars hold colours with the same name |
| HudOverlay.BossbarHidesOnNoFacing | src/main/java/com/balugaq/jeg/core/integrations/slimehud/JEGPlayerWAILA.java:200-201 | bossbar("") hides the overlay on both backends and keeps title and colour |
| HudOverlay.BossbarShowsFacing | src/main/java/com/balugaq/jeg/core/integrations/slimehud/JEGPlayerWAILA.java:202-208 | bossbar(facing) shows the overlay with the title chosen by keepTextColors and recolours it only when useAutoBossBarColor holds |
| HudOverlay.BossbarKeepsTracking | src/main/java/com/balugaq/jeg/core/integrations/slimehud/JEGPlayerWAILA.java:199-209 | bossbar touches neither the facing fields, the pause flag nor the messages sent |
| HudOverlay.BarOpsKeepTracking | src/main/java/com/balugaq/jeg/core/integrations/slimehud/JEGPlayerWAILA.java:219-262 | the supplier, setVisible, setTitle and setColor touch neither the facing fields, the pause flag nor the messages sent |
| HudOverlay.PausedRunOnlyTracksFacing | src/main/java/com/balugaq/jeg/core/integrations/slimehud/JEGPlayerWAILA.java:167-172 | while paused, run only refreshes the facing |
| HudOverlay.RunRoutesFacing | src/main/java/com/balugaq/jeg/core/integrations/slimehud/JEGPlayerWAILA.java:174-195 | an unpaused run records previousFacing and sends the facing to the action bar exactly for ACTION_BAR, or for DEFAULT with "hotbar" or "actionbar" |
| HudOverlay.RunDefaultBossbar | src/main/java/com/balugaq/jeg/core/integrations/slimehud/JEGPlayerWAILA.java:179-183 | DEFAULT with "bossbar" is bossbar(facing) |
| HudOverlay.RunDefaultActionBarHidesBar | src/main/java/com/balugaq/jeg/core/integrations/slimehud/JEGPlayerWAILA.java:184-187 | DEFAULT with "hotbar" or "actionbar" leaves the overlay hidden on both backends |
| HudOverlay.RunActionBarKeepsBars | src/main/java/com/balugaq/jeg/core/integrations/slimehud/JEGPlayerWAILA.java:192-194 | an explicit ACTION_BAR choice leaves visibility and both bars unchanged |
| HudOverlay.RunUnknownLocationIdles | src/main/java/com/balugaq/jeg/core/integrations/slimehud/JEGPlayerWAILA.java:179-188 | DEFAULT with any other configured string changes nothing but the facing fields |
| HudOverlay.ToOriginMirrorsModernBar | src/main/java/com/balugaq/jeg/core/integrations/slimehud/JEGPlayerWAILA.java:267-273 | toOrigin copies the modern bar's title and a same-named colour onto this overlay's legacy bar and shows it iff visible, even while the modern bar shows |
| HudOverlay.UnwrapReleasesBar | src/main/java/com/balugaq/jeg/core/integrations/slimehud/JEGPlayerWAILA.java:282-291 | after unwrap the modern bar has no audience viewer, keeps every other viewer, and the overlay is hidden on both backends with matching title and colour |
| HudOverlay.WrapTakesOnlyPauseFlag | src/main/java/com/balugaq/jeg/core/integrations/slimehud/JEGPlayerWAILA.java:88-93 | a wrapper built over an overlay takes only its pause flag; visibility, title and colour come from its own bar, and so does the modern bar where supported |
| HudOverlay.BarOpsKeepLegacyPlayers | src/main/java/com/balugaq/jeg/core/integrations/slimehud/JEGPlayerWAILA.java:219-273 | setVisible, setTitle, both setColor overloads and toOrigin leave the legacy bar's player list unchanged |
| HudOverlay.BossbarKeepsLegacyPlayers | src/main/java/com/balugaq/jeg/core/integrations/slimehud/JEGPlayerWAILA.java:199-209 | bossbar leaves the legacy bar's player list unchanged |
| HudOverlay.RunKeepsLegacyPlayers | src/main/java/com/balugaq/jeg/core/integrations/slimehud/JEGPlayerWAILA.java:167-197 | run leaves the legacy bar's player list unchanged |
| HudOverlay.PlayerStaysOffLegacyBar | src/main/java/com/balugaq/jeg/core/integrations/slimehud/JEGPlayerWAILA.java:71-94 | the constructor takes the player off the legacy bar; without the modern bar, bossbar(facing) sets that bar's visible flag while the player is still not among its players |
| HudOverlay.BarOpsKeepExclusive | src/main/java/com/balugaq/jeg/core/integrations/slimehud/JEGPlayerWAILA.java:219-262 | where the modern bar exists or can be created, setVisible, setTitle and both setColor overloads keep the legacy bar's visible flag clear |
| HudOverlay.BossbarKeepsExclusive | src/main/java/com/balugaq/jeg/core/integrations/slimehud/JEGPlayerWAILA.java:199-209 | bossbar keeps the two backends exclusive |
| HudOverlay.RunKeepsExclusive | src/main/java/com/balugaq/jeg/core/integrations/slimehud/JEGPlayerWAILA.java:167-197 | run keeps the two backends exclusive |
| HudOverlay.ExclusiveBreaks | src/main/java/com/balugaq/jeg/core/integrations/slimehud/JEGPlayerWAILA.java:219-275 | setVisible makes the backends exclusive from any state; the first setTitle on a state whose legacy flag is set creates the modern bar beside it; toOrigin on a visible overlay sets the legacy flag beside the modern bar |
| HudOverlay.ConstructedExclusive | src/main/java/com/balugaq/jeg/core/integrations/slimehud/JEGPlayerWAILA.java:71-94 | a wrapper built over an overlay starts with exclusive backends; one built with no overlay over a visible legacy bar does not, where the modern bar is supported |
| CategoriesMenu.RewriteLore | src/main/java/com/balugaq/jeg/core/commands/CategoriesCommand.java:139-148 | the lore grows by one: all but the last line kept, then the id line, then the copy hint; a null or empty lore is the IndexOutOfBoundsException case |
| CategoriesMenu.FirstFailureFrom | src/main/java/com/balugaq/jeg/core/commands/CategoriesCommand.java:133-155 | the first content slot whose lore rewrite throws: no earlier slot fails and that one does; PageSize when none does |
| CategoriesMenu.SlotStep | src/main/java/com/balugaq/jeg/core/commands/CategoriesCommand.java:134-154 | one step of the content loop: a missing group is skipped, a failing lore is where the loop stops, otherwise the slot gets the group's icon |
| CategoriesMenu.ChestMenu.constructor | src/main/java/com/balugaq/jeg/core/commands/CategoriesCommand.java:103-104 | a 54-slot menu with every slot empty and without a handler |
| CategoriesMenu.ChestMenu.Populate | src/main/java/com/balugaq/jeg/core/commands/CategoriesCommand.java:124-173 | returns whether the layout completed, and leaves the items and handlers equal to LaidOutItems and LaidOutHandlers |
| CategoriesMenu.ChestMenu.ClearHandlers | src/main/java/com/balugaq/jeg/core/commands/CategoriesCommand.java:125-127 | every slot gets the empty click handler |
| CategoriesMenu.ChestMenu.FillFooter | src/main/java/com/balugaq/jeg/core/commands/CategoriesCommand.java:129-131 | slots 45 to 53 get the background filler; content slots are untouched |
| CategoriesMenu.ChestMenu.FillContent | src/main/java/com/balugaq/jeg/core/commands/CategoriesCommand.java:133-155 | content slots before the first failing one get their group's icon and copy handler; later slots and the footer are untouched |
| CategoriesMenu.ChestMenu.FillSlot | src/main/java/com/balugaq/jeg/core/commands/CategoriesCommand.java:134-154 | one content slot is filled, or the failure is reported and nothing changes |
| CategoriesMenu.ChestMenu.PlaceButtons | src/main/java/com/balugaq/jeg/core/commands/CategoriesCommand.java:157-171 | the footer holds the buttons exactly where their conditions hold; content slots are untouched |
| CategoriesMenu.CanCommand | src/main/java/com/balugaq/jeg/core/commands/CategoriesCommand.java:84-96 | true only for an operator with exactly one argument |
| CategoriesMenu.CanCommandIff | src/main/java/com/balugaq/jeg/core/commands/CategoriesCommand.java:90-95 | canCommand holds exactly for an operator with one argument that lower-cases to "categories" |
| CategoriesMenu.TabComplete | src/main/java/com/balugaq/jeg/core/commands/CategoriesCommand.java:71-82 | one argument gives exactly ["categories"]; any other count gives no completion; and every completion offered is an argument that canCommand accepts from an operator |
| CategoriesMenu.GroupIndexRange | src/main/java/com/balugaq/jeg/core/commands/CategoriesCommand.java:134 | page p shows list indices 45(p-1)+1 to 45p, so index 0 is never shown |
| CategoriesMenu.GroupIndexInjective | src/main/java/com/balugaq/jeg/core/commands/CategoriesCommand.java:134 | no list index is shown in two slots or on two pages |
| CategoriesMenu.EveryIndexHasASlot | src/main/java/com/balugaq/jeg/core/commands/CategoriesCommand.java:134 | every list index from 1 on is shown on some page in some content slot |
| CategoriesMenu.ContentSlotShowsGroup | src/main/java/com/balugaq/jeg/core/commands/CategoriesCommand.java:133-155 | a content slot shows its group with rewritten lore and the copy handler iff getItemGroupOrNull (lines 175-177) finds the index below the list size, and otherwise keeps its old item with the empty handler |
| CategoriesMenu.FooterLayout | src/main/java/com/balugaq/jeg/core/commands/CategoriesCommand.java:129-177 | a completed footer shows the previous button iff page is not 1, redrawing page-1, and the next button iff getItemGroupOrNull finds index 45*page below the list size, redrawing page+1; otherwise filler with the empty handler |
| CategoriesMenu.NextButtonFollowsLastSlot | src/main/java/com/balugaq/jeg/core/commands/CategoriesCommand.java:165-171 | the next button is shown exactly when the page's last content slot shows a group |
| CategoriesMenu.NextPageMayBeEmpty | src/main/java/com/balugaq/jeg/core/commands/CategoriesCommand.java:165-171 | with 45*page+1 groups the next button is shown, yet no content slot of page+1 finds a group: each keeps the icon it already held, with only the empty handler |
| CategoriesMenu.StaleIconsAfterNextPage | src/main/java/com/balugaq/jeg/core/commands/CategoriesCommand.java:133-171 | after the next button redraws the menu, a content slot whose index lies past the list still shows the previous page's group icon, with only the empty handler |
| CategoriesMenu.CorrectedLayoutForgetsPreviousPage | src/main/java/com/balugaq/jeg/core/commands/CategoriesCommand.java:133-155 | in the corrected layout a completed page does not depend on what the menu held: slots past the list are empty, all others agree with the layout as written |
| CategoriesMenu.CorrectedNextPageClearsStaleIcons | src/main/java/com/balugaq/jeg/core/commands/CategoriesCommand.java:165-171 | in the corrected layout, the next page leaves a slot past the list empty instead of showing the previous page's icon |
| CategoriesMenu.NoFailurePastTheList | src/main/java/com/balugaq/jeg/core/commands/CategoriesCommand.java:133-136 | slots past the end of the list never stop the layout |
| CategoriesMenu.FailureStopsLayout | src/main/java/com/balugaq/jeg/core/commands/CategoriesCommand.java:142-145 | when a group's lore is null or empty, that slot and later ones keep their items with the empty handler and no page button is placed |
| CategoriesMenu.ButtonsTargetValidPages | src/main/java/com/balugaq/jeg/core/commands/CategoriesCommand.java:157-170 | every page button redraws a page number of at least 1 |

## Left out

- **Reflection.** The fields SlimeHUD keeps privately (the configured location, keepTextColors, useAutoBossBarColor, facing, previousFacing, paused) are read and written through reflection. Here they are ordinary fields, or the `BaseInit` record.
- **PlayerWAILA internals.** SlimeHUD's `PlayerWAILA` is not part of this model. Its constructor's result is the `BaseInit` parameter. Its `setVisible` is taken to set its own bar's visibility.
- **Facing resolution.** `updateFacing0` (ray trace, block storage, HUD controller, translation) and the reading of the player's HUD location option are inputs: the `Tick` record.
- **Text handling.** Colour-code handling (`ChatColor.stripColor`, `translateAlternateColorCodes`, the legacy serializer) and `Util.pickBarColorFromName` are inputs too. `ChatColors.color` on the lore lines is not applied; the lines keep their `&` codes.
- **Sending messages.** Sending the action-bar message (Paper or Spigot API) is recorded in the `actionBars` log, not performed.
- **Platform and configuration.** Platform and version detection and the `waila.bossbar-color` setting are the `Platform` parameter. The setting is taken to be present; if it were missing, the code would fail on a null dereference.
- **Logging and cosmetic values.** The invalid-colour warning is the predicate `WarnsInvalidColor`, not a log entry. The bar progress `1.0f` and overlay style are not modelled.
- **HUD location option.** The `HUDLocation` enum is taken to have three values: DEFAULT, BOSSBAR and ACTION_BAR. A null configured location string (a null dereference in the switch) is not modelled.
- **Identity tests.** The `instanceof JEGPlayerWAILA` and `getSimpleName` tests are modelled by the tag of `WailaRef`, so a foreign class that happens to be named JEGPlayerWAILA is not modelled.
- **Viewer iteration.** `unwrap`'s loop iterates over a snapshot of the viewer set; concurrent modification is out of scope.
- **Category command I/O.** The following are not part of this model:
  - `onCommand`: the player check, opening the menu and the only-players message.
  - The Slimefun registry.
  - Item cloning and `ItemMeta`.
  - `ClipboardUtil`.
  - The click-handler closures. A handler is the id it copies or the page it redraws.
- JavaStrings.ToLowerCase: ASCII case mapping only. Java's full Unicode mapping and the special cases of `equalsIgnoreCase` (dotless i, long s, Kelvin sign and the like) are not modelled, so CanCommand and ToBossBarColor are exact for ASCII input only.
- JavaStrings.ToUpperCase: Java's no-argument `toUpperCase` and `toLowerCase` follow the JVM's default locale. The model assumes a locale whose case mapping keeps ASCII letters ASCII. Under a Turkish or Azeri default locale, "white" and "pink" upper-case with a dotted capital I (U+0130), so `BossBar.Color.valueOf` throws. `ToBossBarColor`, `ToBossBarColorOnTrimmed` and `InitialBossColor` hold only under this assumption. `equalsIgnoreCase` does not depend on the locale, so `CanCommand` is not affected.
- CategoriesMenu.GroupIndex: Java's 32-bit wrap-around of `i + 1 + (page - 1) * 45` and `45 * page` is not modelled. Pages reachable from the menu stay far below the overflow range.
- CategoriesMenu.GetItemGroupOrNull: requires a non-negative index. Every caller passes one, so the IndexOutOfBoundsException that `groups.get` would throw on a negative index is not modelled.
- CategoriesMenu.ChestMenu.Populate: an exception from the lore rewrite is the `false` result. The menu keeps what was written before it, as in Java, where the exception propagates to the caller.
- HudOverlay.JegWaila.ToOrigin: requires the modern bar's name to be a text component. The wrapper's own calls only set text components: the constructor's `Component.text` and the legacy serializer's output in `bossbar`. `setTitle` is public, though, and a caller outside this file could set another kind of component; the ClassCastException the cast then throws is not modelled.
- HudOverlay.Unwrap: requires the modern bar to be supported, and its name to be a text component. The null dereference and the ClassCastException that the code hits otherwise are not modelled.
- HudOverlay.JegWaila.SetVisible: the supplier is called once and its result reused; Java calls it repeatedly, and each call returns the same bar.

## Findings

| source | as written | input that shows it | evidently intended | confidence | as-written member | corrected member |
|---|---|---|---|---|---|---|
| src/main/java/com/balugaq/jeg/core/commands/CategoriesCommand.java:133-155 | the content loop writes a slot only when it finds a group, and the menu is redrawn in place by the page buttons, so a slot without a group keeps the icon of the page shown before | 46 groups, each with a one-line lore: page 1 shows indices 1 to 45 and the next button; on page 2 every content slot still shows a page-1 icon, with only the empty handler | a slot without a group is cleared | medium; not executed | CategoriesMenu.StaleIconsAfterNextPage | CategoriesMenu.CorrectedNextPageClearsStaleIcons |
