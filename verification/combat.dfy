/**
 * The combat commands of cogs/cog_misc.py: `attack`, `item`, `run` and the two defeat
 * helpers. Each command loads the caller's record, applies one combat turn and saves it.
 * The numbers the game logic would compute (damage, the escape roll, the item effect, the
 * defeat reward) arrive as parameters.
 */
module Combat {
  import opened GameData
  import opened Seqs

  /** What a combat command reports. */
  datatype Outcome =
    | NotStarted       // no record for the user
    | NotInCombat
    | MissingMonster   // the combat flag is set but no monster is stored: the flag is cleared
    | MonsterDefeated
    | PlayerDefeated   // game over: the record is reset
    | Ongoing          // both sides still stand after the turn
    | Escaped
    | NoUsableItems
    | Cancelled        // the item menu closed without a choice
    | ItemUsed         // an item was used and no counterattack followed
    | Fault            // an inventory entry is a bare name: the handler raises, nothing is saved

  /** The outcome of one turn and the record as it is saved afterwards. */
  datatype Turn = Turn(outcome: Outcome, after: PlayerData)

  /** The game logic's monster-defeat handling (experience, loot, level-ups) applied to a record. */
  type Reward = (PlayerData, Monster) -> PlayerData

  /** The game logic's item effect, or its consumption step, for the chosen item name. */
  type ItemUse = (string, PlayerData) -> PlayerData

  /** The item menu shows at most this many options. */
  const MaxSelectOptions: nat := 25

  /** The player's blow: the monster's hp drops by `damage` and is clamped at 0. */
  function Struck(m: Monster, damage: nat): (r: Monster)
    ensures r.hp >= 0
    ensures m.hp >= 0 ==> r.hp <= m.hp
    ensures r.hp == 0 <==> m.hp <= damage
    ensures r.hp > 0 ==> r.hp == m.hp - damage
    ensures r.(hp := m.hp) == m
  {
    m.(hp := Max0(m.hp - damage))
  }

  /** The monster's counterattack: the player's hp drops by `damage` and is clamped at 0. */
  function Countered(d: PlayerData, damage: nat): (r: PlayerData)
    ensures r.hp >= 0
    ensures d.hp >= 0 ==> r.hp <= d.hp
    ensures r.hp == 0 <==> d.hp <= damage
    ensures r.hp > 0 ==> r.hp == d.hp - damage
    ensures r.(hp := d.hp) == d
  {
    d.(hp := Max0(d.hp - damage))
  }

  /** A monster's defeat: the reward is applied, then the combat session is closed. */
  function MonsterDefeat(d: PlayerData, m: Monster, reward: Reward): (r: PlayerData)
    ensures !r.inCombat && r.currentMonster.None? && CombatConsistent(r)
    ensures r.(inCombat := reward(d, m).inCombat, currentMonster := reward(d, m).currentMonster) == reward(d, m)
  {
    reward(d, m).(inCombat := false, currentMonster := None)
  }

  /**
   * The game-over reset: combat is closed and hp, distance, inventory, the `equipment` key,
   * experience, level, attack and defence take their starting values. `max_hp`, the
   * `equipped_items` slot map and the thread references are kept.
   */
  function GameOverReset(d: PlayerData): (r: PlayerData)
    ensures !r.inCombat && r.currentMonster.None?
    ensures r.hp == r.maxHp == d.maxHp
    ensures r.distance == 0 && r.inventory == [] && r.equipment == map[]
    ensures r.exp == 0 && r.level == 1 && r.atk == StartingAttack && r.def == StartingDefense
    ensures r.equippedItems == d.equippedItems
    ensures r.threadId == d.threadId && r.lastEventMessageId == d.lastEventMessageId
  {
    d.(inCombat := false, currentMonster := None,
       hp := d.maxHp, distance := 0, inventory := [], equipment := map[],
       exp := 0, level := 1, atk := StartingAttack, def := StartingDefense)
  }

  /** Resetting twice is resetting once. */
  lemma ResetIdempotent(d: PlayerData)
    ensures GameOverReset(GameOverReset(d)) == GameOverReset(d)
  {
  }

  /** The reset forgets all progress: records that agree on what it keeps reset to the same record. */
  lemma ResetForgetsProgress(a: PlayerData, b: PlayerData)
    requires a.maxHp == b.maxHp && a.equippedItems == b.equippedItems
    requires a.threadId == b.threadId && a.lastEventMessageId == b.lastEventMessageId
    ensures GameOverReset(a) == GameOverReset(b)
  {
  }

  /** One `attack` turn on a loaded record. */
  function AttackTurn(d: PlayerData, damage: nat, monsterDamage: nat, reward: Reward): (r: Turn)
    // outside combat nothing changes; a missing monster only clears the flag
    ensures !d.inCombat ==> r == Turn(NotInCombat, d)
    ensures d.inCombat && d.currentMonster.None? ==> r == Turn(MissingMonster, d.(inCombat := false))
    ensures r.outcome == NotInCombat <==> !d.inCombat
    ensures r.outcome == MissingMonster <==> d.inCombat && d.currentMonster.None?
    // the monster falls exactly when the blow covers its remaining hp ...
    ensures r.outcome == MonsterDefeated <==>
      d.inCombat && d.currentMonster.Some? && d.currentMonster.value.hp <= damage
    // ... and then there is no counterattack: the record is the reward's, with combat closed
    ensures r.outcome == MonsterDefeated ==>
      var m := Struck(d.currentMonster.value, damage);
      r.after == MonsterDefeat(d.(currentMonster := Some(m)), m, reward)
    // a surviving monster strikes back; the player falls when the blow covers their hp
    ensures r.outcome == PlayerDefeated <==>
      d.inCombat && d.currentMonster.Some? && d.currentMonster.value.hp > damage && d.hp <= monsterDamage
    ensures r.outcome == PlayerDefeated ==> r.after == GameOverReset(d)
    // otherwise only the player's hp and the stored monster's hp change
    ensures r.outcome == Ongoing ==>
      d.hp - monsterDamage > 0 &&
      r.after == d.(hp := d.hp - monsterDamage, currentMonster := Some(Struck(d.currentMonster.value, damage)))
    ensures r.outcome in {NotInCombat, MissingMonster, MonsterDefeated, PlayerDefeated, Ongoing}
  {
    if !d.inCombat then Turn(NotInCombat, d)
    else if d.currentMonster.None? then Turn(MissingMonster, d.(inCombat := false))
    else
      var m := Struck(d.currentMonster.value, damage);
      var d1 := d.(currentMonster := Some(m));
      if m.hp <= 0 then Turn(MonsterDefeated, MonsterDefeat(d1, m, reward))
      else
        var d2 := Countered(d1, monsterDamage);
        if d2.hp <= 0 then Turn(PlayerDefeated, GameOverReset(d2))
        else Turn(Ongoing, d2.(currentMonster := Some(m)))
  }

  /** One `run` turn on a loaded record. */
  function RunTurn(d: PlayerData, escaped: bool, monsterDamage: nat): (r: Turn)
    ensures !d.inCombat ==> r == Turn(NotInCombat, d)
    ensures d.inCombat && d.currentMonster.None? ==> r == Turn(MissingMonster, d.(inCombat := false))
    ensures r.outcome == NotInCombat <==> !d.inCombat
    ensures r.outcome == MissingMonster <==> d.inCombat && d.currentMonster.None?
    // a successful escape closes combat and leaves hp alone
    ensures r.outcome == Escaped <==> d.inCombat && d.currentMonster.Some? && escaped
    ensures r.outcome == Escaped ==> r.after == d.(inCombat := false, currentMonster := None)
    // a failed escape costs the clamped counterattack; the monster is untouched
    ensures r.outcome == PlayerDefeated <==>
      d.inCombat && d.currentMonster.Some? && !escaped && d.hp <= monsterDamage
    ensures r.outcome == PlayerDefeated ==> r.after == GameOverReset(d)
    ensures r.outcome == Ongoing ==> d.hp - monsterDamage > 0 && r.after == d.(hp := d.hp - monsterDamage)
    ensures r.outcome in {NotInCombat, MissingMonster, Escaped, PlayerDefeated, Ongoing}
  {
    if !d.inCombat then Turn(NotInCombat, d)
    else if d.currentMonster.None? then Turn(MissingMonster, d.(inCombat := false))
    else if escaped then Turn(Escaped, d.(inCombat := false, currentMonster := None))
    else
      var d1 := Countered(d, monsterDamage);
      if d1.hp <= 0 then Turn(PlayerDefeated, GameOverReset(d1))
      else Turn(Ongoing, d1.(currentMonster := d.currentMonster))
  }

  /**
   * The items the `item` command may offer: in inventory order, those with a positive
   * quantity whose name the game logic deems usable. A bare-name entry has no `get`,
   * so the filter raises (None).
   */
  function UsableItems(inv: seq<Entry>, usable: string -> bool): (r: Option<seq<Item>>)
    ensures r.None? <==> !AllHeld(inv)
    ensures r.Some? ==> IsSubsequence(r.value, HeldItems(inv))
    ensures r.Some? ==> forall i :: 0 <= i < |r.value| ==>
      Held(r.value[i]) in inv && r.value[i].quantity > 0 && usable(r.value[i].name)
    ensures r.Some? ==> forall i :: 0 <= i < |inv| && inv[i].item.quantity > 0 && usable(inv[i].item.name) ==>
      inv[i].item in r.value
    // duplicates are kept: each usable item is offered as many times as the inventory holds it
    ensures r.Some? ==> forall i :: 0 <= i < |inv| ==>
      multiset(r.value)[inv[i].item] ==
        if inv[i].item.quantity > 0 && usable(inv[i].item.name) then multiset(HeldItems(inv))[inv[i].item] else 0
  {
    if AllHeld(inv) then
      var keep := (it: Item) => it.quantity > 0 && usable(it.name);
      FilterCounts(HeldItems(inv), keep);
      Some(Filter(HeldItems(inv), keep))
    else None
  }

  /** `options` lists, in order, the names of the first (at most 25) usable items. */
  predicate IsMenuOf(options: seq<string>, items: seq<Item>) {
    |options| == (if |items| < MaxSelectOptions then |items| else MaxSelectOptions) &&
    forall i :: 0 <= i < |options| ==> options[i] == items[i].name
  }

  /** Builds the item menu: one option per usable item, stopping once 25 are listed. */
  method SelectOptions(items: seq<Item>) returns (options: seq<string>)
    ensures IsMenuOf(options, items)
  {
    options := [];
    var i := 0;
    while i < |items|
      invariant 0 <= i <= |items| && i < MaxSelectOptions
      invariant |options| == i
      invariant forall j :: 0 <= j < i ==> options[j] == items[j].name
    {
      options := options + [items[i].name];
      i := i + 1;
      if |options| >= MaxSelectOptions {
        break;
      }
    }
  }

  /** The record after the game logic applies and then consumes the chosen item. */
  function AfterUse(d: PlayerData, name: string, applyEffect: ItemUse, consume: ItemUse): (r: PlayerData) {
    consume(name, applyEffect(name, d))
  }

  /**
   * The second half of an `item` turn, once an item is chosen: apply and consume it, then a
   * monster stored before the item was used strikes back, but only if the player still stands.
   */
  function ItemResolution(d: PlayerData, name: string, applyEffect: ItemUse, consume: ItemUse,
                          monsterDamage: nat): (r: Turn)
    ensures r.outcome == ItemUsed <==>
      d.currentMonster.None? || AfterUse(d, name, applyEffect, consume).hp <= 0
    ensures r.outcome == ItemUsed ==> r.after == AfterUse(d, name, applyEffect, consume)
    ensures r.outcome == Ongoing ==>
      var u := AfterUse(d, name, applyEffect, consume);
      d.currentMonster.Some? && u.hp > monsterDamage &&
      r.after == u.(hp := u.hp - monsterDamage, currentMonster := d.currentMonster)
    ensures r.outcome == PlayerDefeated ==>
      var u := AfterUse(d, name, applyEffect, consume);
      d.currentMonster.Some? && 0 < u.hp <= monsterDamage && r.after == GameOverReset(u)
    ensures r.outcome in {ItemUsed, Ongoing, PlayerDefeated}
  {
    var monster := d.currentMonster;
    var u := AfterUse(d, name, applyEffect, consume);
    if monster.Some? && u.hp > 0 then
      var u1 := Countered(u, monsterDamage);
      if u1.hp <= 0 then Turn(PlayerDefeated, GameOverReset(u1))
      else Turn(Ongoing, u1.(currentMonster := monster))
    else Turn(ItemUsed, u)
  }

  /** One `item` turn on a loaded record; `choice` is the menu selection, None on timeout. */
  function ItemTurn(d: PlayerData, usable: string -> bool, choice: Option<string>,
                    applyEffect: ItemUse, consume: ItemUse, monsterDamage: nat): (r: Turn)
    ensures !d.inCombat ==> r == Turn(NotInCombat, d)
    ensures r.outcome == NotInCombat <==> !d.inCombat
    ensures r.outcome == Fault <==> d.inCombat && !AllHeld(d.inventory)
    ensures r.outcome == NoUsableItems <==> d.inCombat && UsableItems(d.inventory, usable) == Some([])
    ensures r.outcome == Cancelled <==>
      d.inCombat && AllHeld(d.inventory) && UsableItems(d.inventory, usable) != Some([]) && choice.None?
    ensures r.outcome in {NotInCombat, Fault, NoUsableItems, Cancelled} ==> r.after == d
    // with nothing chosen nothing changes
    ensures choice.None? ==> r.after == d
    ensures r.outcome in {ItemUsed, Ongoing, PlayerDefeated} ==>
      choice.Some? && r == ItemResolution(d, choice.value, applyEffect, consume, monsterDamage)
    // a chosen usable item is always applied, consumed and answered
    ensures (d.inCombat && UsableItems(d.inventory, usable).Some? && UsableItems(d.inventory, usable).value != [] &&
             choice.Some?) ==>
      r == ItemResolution(d, choice.value, applyEffect, consume, monsterDamage)
  {
    if !d.inCombat then Turn(NotInCombat, d)
    else match UsableItems(d.inventory, usable)
      case None => Turn(Fault, d)
      case Some(items) =>
        if items == [] then Turn(NoUsableItems, d)
        else if choice.None? then Turn(Cancelled, d)
        else ItemResolution(d, choice.value, applyEffect, consume, monsterDamage)
  }

  /** The reward keeps hp within [0, max_hp] and distance non-negative. */
  ghost predicate RewardKeepsSane(reward: Reward) {
    forall x, m :: Sane(x) ==> Sane(reward(x, m))
  }

  /** Attack keeps the record's ranges and the combat flag/monster agreement. */
  lemma AttackKeepsInvariants(d: PlayerData, damage: nat, monsterDamage: nat, reward: Reward)
    requires Sane(d) && CombatConsistent(d) && RewardKeepsSane(reward)
    ensures Sane(AttackTurn(d, damage, monsterDamage, reward).after)
    ensures CombatConsistent(AttackTurn(d, damage, monsterDamage, reward).after)
  {
  }

  /** Run keeps the record's ranges and the combat flag/monster agreement. */
  lemma RunKeepsInvariants(d: PlayerData, escaped: bool, monsterDamage: nat)
    requires Sane(d) && CombatConsistent(d)
    ensures Sane(RunTurn(d, escaped, monsterDamage).after)
    ensures CombatConsistent(RunTurn(d, escaped, monsterDamage).after)
  {
  }

  /** Applying and consuming an item keeps hp within [0, max_hp] and distance non-negative. */
  ghost predicate UseKeepsSane(applyEffect: ItemUse, consume: ItemUse) {
    forall n, x :: Sane(x) ==> Sane(AfterUse(x, n, applyEffect, consume))
  }

  /** Applying and consuming an item leaves the combat flag and the stored monster alone. */
  ghost predicate UseKeepsCombat(applyEffect: ItemUse, consume: ItemUse) {
    forall n, x :: AfterUse(x, n, applyEffect, consume).inCombat == x.inCombat &&
                   AfterUse(x, n, applyEffect, consume).currentMonster == x.currentMonster
  }

  /** An item turn keeps the record's ranges and the combat flag/monster agreement. */
  lemma ItemKeepsInvariants(d: PlayerData, usable: string -> bool, choice: Option<string>,
                            applyEffect: ItemUse, consume: ItemUse, monsterDamage: nat)
    requires Sane(d) && CombatConsistent(d)
    requires UseKeepsSane(applyEffect, consume) && UseKeepsCombat(applyEffect, consume)
    ensures Sane(ItemTurn(d, usable, choice, applyEffect, consume, monsterDamage).after)
    ensures CombatConsistent(ItemTurn(d, usable, choice, applyEffect, consume, monsterDamage).after)
  {
  }

  /** `_handle_monster_defeat`: apply the reward, close combat, save. */
  method HandleMonsterDefeat(store: PlayerStore, id: UserId, d: PlayerData, m: Monster, reward: Reward)
    modifies store
    ensures store.players == old(store.players)[id := MonsterDefeat(d, m, reward)]
  {
    var p := reward(d, m);
    p := p.(inCombat := false);
    p := p.(currentMonster := None);
    store.players := store.players[id := p];
  }

  /** `_handle_player_defeat`: close combat, reset the record, save. */
  method HandlePlayerDefeat(store: PlayerStore, id: UserId, d: PlayerData)
    modifies store
    ensures store.players == old(store.players)[id := GameOverReset(d)]
  {
    var p := d;
    p := p.(inCombat := false);
    p := p.(currentMonster := None);
    p := p.(hp := p.maxHp);
    p := p.(distance := 0);
    p := p.(inventory := []);
    p := p.(equipment := map[]);
    p := p.(exp := 0);
    p := p.(level := 1);
    p := p.(atk := StartingAttack);
    p := p.(def := StartingDefense);
    store.players := store.players[id := p];
  }

  /** The `attack` command. */
  method Attack(store: PlayerStore, id: UserId, damage: nat, monsterDamage: nat, reward: Reward)
    returns (outcome: Outcome)
    modifies store
    ensures id !in old(store.players) ==> outcome == NotStarted && store.players == old(store.players)
    ensures id in old(store.players) ==>
      var t := AttackTurn(old(store.players)[id], damage, monsterDamage, reward);
      outcome == t.outcome && store.players == old(store.players)[id := t.after]
  {
    if id !in store.players {
      return NotStarted;
    }
    var d := store.players[id];
    if !d.inCombat {
      return NotInCombat;
    }
    if d.currentMonster.None? {
      d := d.(inCombat := false);
      store.players := store.players[id := d];
      return MissingMonster;
    }
    // the monster is stored by reference, so hitting it updates the record's copy too
    var monster := d.currentMonster.value;
    monster := monster.(hp := Max0(monster.hp - damage));
    d := d.(currentMonster := Some(monster));
    if monster.hp <= 0 {
      HandleMonsterDefeat(store, id, d, monster, reward);
      return MonsterDefeated;
    }
    d := d.(hp := Max0(d.hp - monsterDamage));
    if d.hp <= 0 {
      HandlePlayerDefeat(store, id, d);
      return PlayerDefeated;
    }
    d := d.(currentMonster := Some(monster));
    store.players := store.players[id := d];
    return Ongoing;
  }

  /** The `run` command; `escaped` is the game logic's escape roll. */
  method Run(store: PlayerStore, id: UserId, escaped: bool, monsterDamage: nat) returns (outcome: Outcome)
    modifies store
    ensures id !in old(store.players) ==> outcome == NotStarted && store.players == old(store.players)
    ensures id in old(store.players) ==>
      var t := RunTurn(old(store.players)[id], escaped, monsterDamage);
      outcome == t.outcome && store.players == old(store.players)[id := t.after]
  {
    if id !in store.players {
      return NotStarted;
    }
    var d := store.players[id];
    if !d.inCombat {
      return NotInCombat;
    }
    if d.currentMonster.None? {
      d := d.(inCombat := false);
      store.players := store.players[id := d];
      return MissingMonster;
    }
    var monster := d.currentMonster;
    if escaped {
      d := d.(inCombat := false);
      d := d.(currentMonster := None);
      store.players := store.players[id := d];
      return Escaped;
    }
    d := d.(hp := Max0(d.hp - monsterDamage));
    if d.hp <= 0 {
      HandlePlayerDefeat(store, id, d);
      return PlayerDefeated;
    }
    d := d.(currentMonster := monster);
    store.players := store.players[id := d];
    return Ongoing;
  }

  /** The chosen item's effect and the counterattack, saved as the `item` command does. */
  method ResolveItem(store: PlayerStore, id: UserId, d: PlayerData, name: string,
                     applyEffect: ItemUse, consume: ItemUse, monsterDamage: nat)
    returns (outcome: Outcome)
    modifies store
    ensures var t := ItemResolution(d, name, applyEffect, consume, monsterDamage);
      outcome == t.outcome && store.players == old(store.players)[id := t.after]
  {
    var p := d;
    var monster := p.currentMonster;
    p := applyEffect(name, p);
    p := consume(name, p);
    store.players := store.players[id := p];
    if monster.Some? && p.hp > 0 {
      p := p.(hp := Max0(p.hp - monsterDamage));
      if p.hp <= 0 {
        HandlePlayerDefeat(store, id, p);
        return PlayerDefeated;
      }
      p := p.(currentMonster := monster);
      store.players := store.players[id := p];
      return Ongoing;
    }
    return ItemUsed;
  }

  /**
   * The `item` command: filter the usable items, offer a menu of at most 25 and, once one is
   * chosen, resolve it.
   */
  method UseItem(store: PlayerStore, id: UserId, usable: string -> bool, choice: Option<string>,
                 applyEffect: ItemUse, consume: ItemUse, monsterDamage: nat)
    returns (outcome: Outcome, offered: seq<string>)
    modifies store
    ensures id !in old(store.players) ==> outcome == NotStarted && store.players == old(store.players)
    ensures id in old(store.players) ==>
      var t := ItemTurn(old(store.players)[id], usable, choice, applyEffect, consume, monsterDamage);
      outcome == t.outcome && store.players == old(store.players)[id := t.after]
    ensures offered != [] ==>
      id in old(store.players) && UsableItems(old(store.players)[id].inventory, usable).Some? &&
      IsMenuOf(offered, UsableItems(old(store.players)[id].inventory, usable).value)
    // in combat with a readable inventory, the menu is always built
    ensures (id in old(store.players) && old(store.players)[id].inCombat &&
             UsableItems(old(store.players)[id].inventory, usable).Some?) ==>
      IsMenuOf(offered, UsableItems(old(store.players)[id].inventory, usable).value)
  {
    offered := [];
    if id !in store.players {
      return NotStarted, offered;
    }
    var d := store.players[id];
    if !d.inCombat {
      return NotInCombat, offered;
    }
    var items := UsableItems(d.inventory, usable);
    if items.None? {
      return Fault, offered;
    }
    if items.value == [] {
      return NoUsableItems, offered;
    }
    offered := SelectOptions(items.value);
    if choice.None? {
      return Cancelled, offered;
    }
    outcome := ResolveItem(store, id, d, choice.value, applyEffect, consume, monsterDamage);
  }
}
