/**
 * The records the command handlers work on: items, inventory entries, monsters and the
 * player record, plus the per-user record store that each handler loads from and saves to.
 */
module GameData {

  datatype Option<+T> = None | Some(value: T)

  /**
   * An item's `item_type`: free text in the records; the handlers test for these three.
   * `OtherType` stands for every other text, so its tag is never "consumable", "weapon" or "armor".
   */
  datatype ItemType = Consumable | Weapon | Armor | OtherType(tag: string)

  datatype Item = Item(
    name: string,
    kind: ItemType,
    value: int,            // ATK bonus of a weapon, DEF bonus of armour
    slot: Option<string>,  // the equip slot; absent for items that cannot be worn
    description: string,
    quantity: int)         // a record without `quantity` reads as 0

  /**
   * One inventory entry. The equip, inventory and item handlers read item records; the
   * advance handler appends only the found item's name, which has none of their fields.
   */
  datatype Entry = Held(item: Item) | Named(name: string)

  datatype Monster = Monster(name: string, hp: int, maxHp: int, attack: int, defense: int)

  /**
   * A player's persisted record. `equippedItems` is the slot map the equip handler reads and
   * writes; `equipment` is the separate key that the game-over reset writes.
   */
  datatype PlayerData = PlayerData(
    hp: int,
    maxHp: int,
    atk: int,
    def: int,
    level: int,
    exp: int,
    distance: int,
    inventory: seq<Entry>,
    equippedItems: map<string, Option<Item>>,
    equipment: map<string, Option<Item>>,
    inCombat: bool,
    currentMonster: Option<Monster>,
    threadId: Option<int>,
    lastEventMessageId: Option<int>)

  type UserId = int

  /** Starting attack and defence (config.py), which the game-over reset writes back. */
  const StartingAttack: int := 10
  const StartingDefense: int := 5

  /** The persisted records, one per user id. */
  class PlayerStore {
    var players: map<UserId, PlayerData>
  }

  /** `max(0, x)`, the clamp applied to every hp update. */
  function Max0(x: int): (r: int)
    ensures r >= 0 && r >= x
    ensures r == 0 || r == x
  {
    if x < 0 then 0 else x
  }

  /** Python's `str.lower()`, restricted to the ASCII letters. */
  function LowerChar(c: char): (r: char)
    ensures 'A' <= c <= 'Z' ==> 'a' <= r <= 'z'
    ensures !('A' <= c <= 'Z') ==> r == c
  {
    if 'A' <= c <= 'Z' then (c as int - 'A' as int + 'a' as int) as char else c
  }

  function Lower(s: string): (r: string)
    ensures |r| == |s|
  {
    seq(|s|, i requires 0 <= i < |s| => LowerChar(s[i]))
  }

  /** Two names that compare equal after lower-casing. */
  predicate SameName(a: string, b: string) {
    Lower(a) == Lower(b)
  }

  /** Truthiness of an optional id: absent and 0 are both false. */
  predicate Truthy(id: Option<int>) {
    id.Some? && id.value != 0
  }

  /** Truthiness of an optional slot name: absent and "" are both false. */
  predicate NonEmpty(s: Option<string>) {
    s.Some? && s.value != ""
  }

  /** Vitals and progress stay in range: `0 <= hp <= max_hp`, `distance >= 0`. */
  predicate Sane(d: PlayerData) {
    0 <= d.hp <= d.maxHp && d.distance >= 0
  }

  /** The combat flag is set exactly when a live monster is stored. */
  predicate CombatConsistent(d: PlayerData) {
    d.inCombat <==> (d.currentMonster.Some? && d.currentMonster.value.hp > 0)
  }

  /** Every inventory entry is an item record. */
  predicate AllHeld(inv: seq<Entry>) {
    forall i :: 0 <= i < |inv| ==> inv[i].Held?
  }

  /** The item records of an inventory made only of records. */
  function HeldItems(inv: seq<Entry>): (r: seq<Item>)
    requires AllHeld(inv)
    ensures |r| == |inv|
    ensures forall i :: 0 <= i < |inv| ==> inv[i] == Held(r[i])
    ensures forall it :: it in r <==> Held(it) in inv
  {
    var r := seq(|inv|, i requires 0 <= i < |inv| => inv[i].item);
    assert forall it :: Held(it) in inv ==> it in r by {
      forall it | Held(it) in inv ensures it in r {
        var i :| 0 <= i < |inv| && inv[i] == Held(it);
        assert r[i] == it;
      }
    }
    r
  }
}
