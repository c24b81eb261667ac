# Dungeon crawl: combat, advance and equipment rules

This project is a Dafny model of the rules a text-driven dungeon-crawl chat bot applies to a
player's saved record. The bot lets a player advance along a distance counter, meet monsters,
items and story beats, fight turn-based battles and equip weapons and armour. The model covers
what the command handlers do to the record. It leaves out the chat platform, the game-logic
module and storage.

- `combat.dfy` (module `Combat`) covers the `attack`, `item` and `run` commands and the two
  defeat helpers of `cogs/cog_misc.py`. It fixes the turn order: the player strikes first and
  the monster strikes back only if it survived. Every hp update is clamped at 0. A defeated
  monster closes the combat session. A defeated player triggers the game-over reset. If
  `in_combat` is set but no monster is stored, `attack` and `run` only clear the flag. `item`
  does not check for a monster: it uses the chosen item, skips the counterattack and leaves the
  flag set. The `item` command builds a menu of usable items and stops at 25.
- `games.dfy` (module `Games`) covers the `m` (advance) and `start_2` commands of
  `cogs/games.py`. Advancing is refused when there is no record, during combat, or from a
  channel other than the player's thread. Otherwise `distance` grows by one and the generated
  event is applied. `start_2` leaves alone a player whose thread still exists. It takes the
  new-thread path when there is no record, when the thread id is unset, or when the thread does
  not resolve. On that path it creates a thread and stores a fresh character bound to it. If
  the thread cannot be created, it saves nothing. A thread lookup that raises also leaves the
  record alone.
- `equipment.dfy` (module `Equipment`) covers the `equip` and `inventory` commands of
  `cogs/cog_misc_2.py`. `equip` finds the first inventory item whose name matches the query
  case-insensitively. It checks that the item is a weapon or armour with a slot and is not
  already in that slot. It then swaps the item with the slot's current occupant. `inventory`
  splits the items into consumables and equipment.
- `game_data.dfy` (module `GameData`) holds the records (`Item`, `Entry`, `Monster`,
  `PlayerData`) and the record store. `seqs.dfy` (module `Seqs`) holds the order-preserving
  filter and Python's `list.remove`.

How the model is built:

- **Records and saving.** The stored records are a `PlayerStore` class with a map from user id
  to `PlayerData`. Each command is a method with `modifies store`. Like the source, it loads the
  record, changes it field by field and saves it back at the same points the source does.
- **Specification functions.** Each command has a pure function that gives the outcome and the
  saved record: `AttackTurn`, `RunTurn`, `ItemTurn`, `AdvanceStep`, `StartResult`,
  `EquipTurn`. The method's postcondition ties the new store to that function. The properties
  are stated on these functions and in lemmas about them.
- **Game-logic results are parameters.** The handlers call a game-logic module that is not part
  of this model. Its results arrive as parameters:
  - damage dealt and damage taken, assumed non-negative (`nat`);
  - the escape roll;
  - the generated event;
  - the usability test;
  - the item effect and the consumption step;
  - the monster-defeat reward;
  - the fresh starting character.
- **Inventory entries.** The advance handler appends only a found item's *name* to the
  inventory, while the other handlers read item records. The model keeps both kinds
  (`Entry = Held(Item) | Named(name)`). A bare name has no item fields, so when the item filter,
  the equip lookup or the inventory listing reads one, the handler raises and saves nothing.
  That case is the `Fault` / `Unreadable` / `Unlistable` outcome.
- **Two equipment keys.** The game-over reset clears the record key `equipment`
  (`cogs/cog_misc.py:123`), but `equip` reads and writes `equipped_items`
  (`cogs/cog_misc_2.py:62`, 139-153). The model keeps them as two fields, `equipment` and
  `equippedItems`. `GameOverReset` leaves `equippedItems` untouched, exactly as the code does.

## Model

| member | source | states |
|---|---|---|
| `Combat.Struck` | cogs/cog_misc.py:162-164 | The monster's hp after the blow is never negative. It never exceeds the previous hp when that was non-negative. It reaches 0 exactly when the damage covers the remaining hp. Nothing else about the monster changes. |
| `Combat.Countered` | cogs/cog_misc.py:174-176 | The counterattack leaves player hp ≥ 0. It never raises a non-negative hp. It hits 0 exactly when the damage covers the hp. Nothing else in the record changes. |
| `Combat.MonsterDefeat` | cogs/cog_misc.py:90-95 | After a monster's defeat, combat is closed and consistent (`in_combat` false, no monster). Every other field is what the reward made it. |
| `Combat.HandleMonsterDefeat` | cogs/cog_misc.py:85-98 | Saves the rewarded record with combat closed. |
| `Combat.GameOverReset` | cogs/cog_misc.py:114-127 | The reset closes combat and sets hp to max_hp, with max_hp kept. Distance, inventory, the `equipment` key, exp, level, atk and def get their starting values. `equipped_items` and the thread references are kept. |
| `Combat.HandlePlayerDefeat` | cogs/cog_misc.py:106-130 | Saves the reset record. |
| `Combat.ResetIdempotent` | cogs/cog_misc.py:115-127 | Applying the reset twice gives the same record as applying it once. |
| `Combat.ResetForgetsProgress` | cogs/cog_misc.py:115-127 | Two records that agree on max_hp, equipped items and thread ids reset to the same record. All other progress is erased. |
| `Combat.AttackTurn` | cogs/cog_misc.py:150-187 | Outside combat (and only then) nothing changes. A missing monster only clears the flag. The monster falls exactly when damage ≥ its hp, and then there is no counterattack: the record is the reward's with combat closed. The player falls exactly when the monster survives and its damage ≥ player hp, and the result is the reset record. Otherwise only player hp (minus the damage, still > 0) and the stored monster's hp change. |
| `Combat.Attack` | cogs/cog_misc.py:134-187 | With no record, nothing is saved. Otherwise the saved record and the outcome are those of `AttackTurn`. |
| `Combat.RunTurn` | cogs/cog_misc.py:308-344 | Same guards as attack, each outcome exactly under its condition. A successful escape closes combat and leaves hp unchanged. A failed escape leaves the monster untouched and costs the clamped counterattack. At 0 hp the result is the reset record. |
| `Combat.Run` | cogs/cog_misc.py:293-344 | With no record, nothing is saved. Otherwise the saved record and the outcome are those of `RunTurn`. |
| `Combat.UsableItems` | cogs/cog_misc.py:212-216 | The usable items are, in inventory order, exactly the held items with quantity > 0 that pass the usability test. Each is offered as many times as the inventory holds it. There is no result (the handler raises) exactly when some entry is a bare name. |
| `Combat.SelectOptions` | cogs/cog_misc.py:222-232 | The menu lists the names of the first min(n, 25) usable items, in order. |
| `Combat.ItemResolution` | cogs/cog_misc.py:245-276 | The record after the effect and consumption is kept when no monster is stored or hp ≤ 0. Otherwise the monster counterattacks: either the player survives and the monster captured before the item is stored again, or the result is the reset record. |
| `Combat.ResolveItem` | cogs/cog_misc.py:245-276 | Saves the record that `ItemResolution` gives. |
| `Combat.ItemTurn` | cogs/cog_misc.py:208-290 | Outside combat, with a bare-name entry, with no usable item, or with no choice, nothing changes, each outcome under its exact condition. In combat, with usable items and a choice, the turn is exactly `ItemResolution` of the chosen item. |
| `Combat.UseItem` | cogs/cog_misc.py:193-290 | With no record, nothing is saved. Otherwise the saved record follows `ItemTurn`. In combat with a readable inventory the menu is always the 25-capped list of usable items, and any menu shown is that list. |
| `Combat.AttackKeepsInvariants` | cogs/cog_misc.py:162-187 | If the reward keeps hp in [0, max_hp], an attack turn keeps `0 ≤ hp ≤ max_hp`, `distance ≥ 0`, and "in combat iff a live monster is stored". |
| `Combat.ItemKeepsInvariants` | cogs/cog_misc.py:245-276 | If the effect and consumption keep hp in [0, max_hp] and leave the combat fields alone, an item turn keeps `0 ≤ hp ≤ max_hp`, `distance ≥ 0`, and "in combat iff a live monster is stored". |
| `Combat.RunKeepsInvariants` | cogs/cog_misc.py:319-344 | A run turn keeps the same invariants. |
| `Games.ApplyEvent` | cogs/games.py:159-190 | A monster event sets `in_combat` and stores that monster. An item event appends its name at the end and keeps the earlier entries. Story and empty/unknown events change nothing. Each event touches nothing but its own fields. |
| `Games.AdvanceStep` | cogs/games.py:126-203 | In combat, or from a channel that is not the bound thread, nothing changes. Otherwise distance grows by exactly 1 and the event is applied. The posted message id is recorded only when the thread was found. Distance never decreases. |
| `Games.Advance` | cogs/games.py:107-211 | With no record, nothing is saved. Otherwise the saved record and the outcome are those of `AdvanceStep`. |
| `Games.AdvanceKeepsInvariants` | cogs/games.py:150-175 | If an encountered monster has hp > 0, an advance keeps the ranges and the combat-flag agreement. |
| `Games.JourneyNeverRetreats` | cogs/games.py:151 | Over any series of advance requests, distance never decreases and grows by at most one per request. |
| `Games.StartResult` | cogs/games.py:27-86 | A player whose thread id is set and still resolves is left unchanged and told so (and only then). Otherwise, if a thread was created, the freshly initialised character bound to that thread replaces any record. If creation failed, that failure is reported and nothing changes. |
| `Games.Start` | cogs/games.py:19-86 | The saved record is the one `StartResult` gives. |
| `Equipment.LookupFrom` | cogs/cog_misc_2.py:117-121 | Scanning from index i returns one of three results. Found: the first entry whose lower-cased name equals the lower-cased query, with all earlier entries item records that do not match. Absent: no entry matches. Unreadable: a bare-name entry comes before any match. |
| `Equipment.Lookup` | cogs/cog_misc_2.py:116-121 | The same three results for the whole inventory. |
| `Equipment.FindTarget` | cogs/cog_misc_2.py:116-121 | The lookup loop returns exactly `Lookup`'s result. |
| `Equipment.EquipTurn` | cogs/cog_misc_2.py:116-154 | Each outcome holds exactly under its own condition. Not found: no entry matches. Not equippable: the match is not a weapon or armour with a slot. Already equipped: the slot holds an item of the same name, compared case-insensitively. Fault: a bare-name entry is reached first, or the slot is missing from the slot map. Equipped: every other found case. All outcomes except Equipped leave the record unchanged. Only the inventory and the slot map ever change. |
| `Equipment.EquipSwaps` | cogs/cog_misc_2.py:146-154 | On success the target's slot holds the target and the other slots are unchanged. The target's entry is removed and the previous occupant goes to the end. Inventory length is kept on a swap and drops by one into an empty slot. |
| `Equipment.EquipConservesItems` | cogs/cog_misc_2.py:146-154 | On success, the bag of inventory entries plus the slot's content is the same before and after. |
| `Equipment.RemoveTargetEntry` | cogs/cog_misc_2.py:147-154 | `list.remove` of the looked-up item, after the old item is appended, removes exactly the looked-up index. |
| `Equipment.Equip` | cogs/cog_misc_2.py:101-157 | With no record, nothing is saved. Otherwise the saved record and the outcome are those of `EquipTurn`. |
| `Equipment.InventoryView` | cogs/cog_misc_2.py:70-74 | With no bare-name entry, the consumables are exactly the consumable items and the equipment list is exactly the weapons and armour. Each item appears as many times as the inventory holds it. Each list is an order-preserving subsequence of the inventory. A bare-name entry makes the listing raise. |
| `Equipment.InventoryViewPartition` | cogs/cog_misc_2.py:72-74 | The two lists together are exactly as long as the inventory minus its items of any other type. |
| `Seqs.Filter` | cogs/cog_misc.py:213-216 | A list comprehension with a condition keeps only elements that pass, and every passing element is present. The result is an order-preserving subsequence of the input and no longer than it. |
| `Seqs.FilterCounts` | cogs/cog_misc_2.py:73-74 | A list comprehension with a condition keeps every duplicate. A kept value appears exactly as often as in the input, and any other value not at all. |
| `Seqs.RemoveFirst` | cogs/cog_misc_2.py:154 | Python's `list.remove` shortens the list by exactly one. |
| `Seqs.RemoveFirstAt` | cogs/cog_misc_2.py:154 | When `x` first occurs at index k, `list.remove(x)` removes exactly that entry: the result is the list with index k cut out. Every other entry keeps its order. |

## Left out

- Chat-platform plumbing is not modelled: interactions, deferred replies, embeds, message text, the status display and the item menu's view with its timeout. The menu's answer is the `choice` parameter (None on timeout).
- The callback's check that only the menu's owner may answer is not modelled. The chosen name is not constrained to the offered names, because the platform guarantees that.
- The game-logic module is not part of this model. Its results are parameters, listed above. The game-over narration (`handle_game_over`) is only a message and is left out.
- Storage (DataManager) is I/O. It is modelled as the in-memory `PlayerStore` map. Failed saves are not modelled.
- The handlers reach storage in three ways, and the model merges them into one map keyed by an integer user id:
  - cogs/cog_misc.py loads and saves a dict under the id as a string;
  - cogs/cog_misc_2.py loads a Player object under the integer id and saves it with a one-argument call;
  - cogs/games.py reads and writes dicts through `Player.from_dict`/`to_dict`.
- All three paths are assumed to reach the same record. The conversions in the third path are assumed to keep every field unchanged, including the `equipment` key and bare-name inventory entries. The frame clauses of `ApplyEvent` and `AdvanceStep` depend on that.
- Negative damage from the game-logic module is excluded: the damage parameters are `nat`. In the source a negative value would raise hp.
- Concurrency and per-player serialisation are not modelled. The model keeps every save the handlers make. The save after consumption in `item` is the final one when no counterattack follows. The save before posting in `m` is the final one when the thread is not found. When a later save follows, the earlier one is visible only to a concurrent reader.
- Thread lookups and thread creation are booleans and optional ids. A `fetch_channel` that raises leaves the record unchanged, as the "thread resolves" answer does.
- Combat.ItemResolution: assumes the item effect and the consumption step do not change the stored monster in place. The source keeps a reference to the monster dict, so such a change would persist; the model puts back the monster captured before the item was used.
- `Combat.AttackKeepsInvariants` holds only for a reward that keeps hp in range.
- `Combat.ItemKeepsInvariants` holds only for an effect and consumption step that keep hp in range and leave the combat fields alone.
- Python truthiness of an empty monster dict (`not monster_data`) is not modelled: a stored monster is never an empty record.
- `str.lower()` is modelled for ASCII letters only.
- The equality that `list.remove` uses is value equality on item records.
- keep_alive.py is a network keep-alive server and is not part of this model. From config.py only the starting attack and defence are used.
- The temporary `start` command in cogs/cog_misc_2.py (lines 14-37) is not part of this model. It creates a record through `DataManager.create_new_player`, and that function is not part of this model either.
- The `status` command in cogs/cog_misc_2.py (lines 166-206) only reads and displays, and is not modelled.
