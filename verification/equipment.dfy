/**
 * The `equip` and `inventory` commands of cogs/cog_misc_2.py: equipping an item found by a
 * case-insensitive name, swapping out whatever the slot held, and the inventory listing that
 * splits items into consumables and equipment.
 */
module Equipment {
  import opened GameData
  import opened Seqs

  /** An entry whose item name equals the query after lower-casing. */
  predicate Matches(e: Entry, query: string) {
    e.Held? && SameName(e.item.name, query)
  }

  /** Entries `from..upto` are all item records and none matches the query. */
  predicate PassedOver(inv: seq<Entry>, query: string, from: nat, upto: nat) {
    forall j :: from <= j < upto && j < |inv| ==> inv[j].Held? && !Matches(inv[j], query)
  }

  /**
   * The lookup loop's result: the index of the first matching entry, no match, or a bare-name
   * entry reached first (reading its `name` raises).
   */
  datatype Search = Found(index: nat) | Absent | Unreadable

  /** The lookup loop from index `i` on. */
  function LookupFrom(inv: seq<Entry>, query: string, i: nat): (r: Search)
    requires i <= |inv|
    ensures r.Found? ==> i <= r.index < |inv| && Matches(inv[r.index], query) && PassedOver(inv, query, i, r.index)
    ensures r.Absent? ==> PassedOver(inv, query, i, |inv|)
    ensures r.Unreadable? ==> exists k :: i <= k < |inv| && inv[k].Named? && PassedOver(inv, query, i, k)
    decreases |inv| - i
  {
    if i == |inv| then Absent
    else if inv[i].Named? then Unreadable
    else if SameName(inv[i].item.name, query) then Found(i)
    else LookupFrom(inv, query, i + 1)
  }

  function Lookup(inv: seq<Entry>, query: string): (r: Search)
    ensures r.Found? ==> r.index < |inv| && Matches(inv[r.index], query) && PassedOver(inv, query, 0, r.index)
    ensures r.Absent? ==> PassedOver(inv, query, 0, |inv|)
    ensures r.Unreadable? ==> exists k :: 0 <= k < |inv| && inv[k].Named? && PassedOver(inv, query, 0, k)
  {
    LookupFrom(inv, query, 0)
  }

  /** The lookup loop: scan the inventory for the first item whose name matches the query. */
  method FindTarget(inv: seq<Entry>, query: string) returns (r: Search)
    ensures r == Lookup(inv, query)
  {
    var i := 0;
    while i < |inv|
      invariant 0 <= i <= |inv|
      invariant LookupFrom(inv, query, i) == LookupFrom(inv, query, 0)
    {
      if inv[i].Named? {
        return Unreadable;
      }
      if SameName(inv[i].item.name, query) {
        return Found(i);
      }
      i := i + 1;
    }
    return Absent;
  }

  datatype EquipOutcome =
    | NotStarted
    | ItemNotFound
    | NotEquippable
    | AlreadyEquipped
    | Equipped
    | Fault  // a bare-name entry reached by the lookup, or a slot missing from the slot map

  datatype EquipStep = EquipStep(outcome: EquipOutcome, after: PlayerData)

  /** A weapon or armour with a non-empty slot. */
  predicate Equippable(it: Item) {
    (it.kind == Weapon || it.kind == Armor) && NonEmpty(it.slot)
  }

  /** What a slot's previous occupant contributes back to the inventory. */
  function Returned(o: Option<Item>): (r: seq<Entry>)
    ensures |r| == if o.Some? then 1 else 0
  {
    if o.Some? then [Held(o.value)] else []
  }

  /** One `equip` request on a loaded record. */
  function EquipTurn(d: PlayerData, query: string): (r: EquipStep)
    ensures r.outcome != Equipped ==> r.after == d
    ensures r.outcome == ItemNotFound <==> Lookup(d.inventory, query).Absent?
    ensures r.outcome == NotEquippable <==>
      Lookup(d.inventory, query).Found? && !Equippable(d.inventory[Lookup(d.inventory, query).index].item)
    ensures r.outcome == AlreadyEquipped <==>
      (Lookup(d.inventory, query).Found? &&
       var t := d.inventory[Lookup(d.inventory, query).index].item;
       Equippable(t) && t.slot.value in d.equippedItems &&
       d.equippedItems[t.slot.value].Some? && SameName(d.equippedItems[t.slot.value].value.name, t.name))
    ensures r.outcome == Equipped <==>
      (Lookup(d.inventory, query).Found? &&
       var t := d.inventory[Lookup(d.inventory, query).index].item;
       Equippable(t) && t.slot.value in d.equippedItems &&
       !(d.equippedItems[t.slot.value].Some? && SameName(d.equippedItems[t.slot.value].value.name, t.name)))
    // a bare-name entry reached by the lookup, or a slot the slot map lacks, makes the handler raise
    ensures r.outcome == Fault <==>
      Lookup(d.inventory, query).Unreadable? ||
      (Lookup(d.inventory, query).Found? &&
       var t := d.inventory[Lookup(d.inventory, query).index].item;
       Equippable(t) && t.slot.value !in d.equippedItems)
    ensures r.outcome != NotStarted
    // only the inventory and the slot map change
    ensures r.after.(inventory := d.inventory, equippedItems := d.equippedItems) == d
  {
    match Lookup(d.inventory, query)
    case Absent => EquipStep(ItemNotFound, d)
    case Unreadable => EquipStep(Fault, d)
    case Found(k) =>
      var target := d.inventory[k].item;
      if !Equippable(target) then EquipStep(NotEquippable, d)
      else
        var slot := target.slot.value;
        if slot !in d.equippedItems then EquipStep(Fault, d)
        else
          var current := d.equippedItems[slot];
          if current.Some? && SameName(current.value.name, target.name) then EquipStep(AlreadyEquipped, d)
          else
            EquipStep(Equipped, d.(
              inventory := d.inventory[..k] + d.inventory[k + 1..] + Returned(current),
              equippedItems := d.equippedItems[slot := Some(target)]))
  }

  /**
   * A successful equip puts the target in its slot and leaves every other slot alone; the
   * target's entry leaves the inventory and the previous occupant is appended at the end, so
   * the inventory keeps its length on a swap and loses one entry into an empty slot.
   */
  lemma EquipSwaps(d: PlayerData, query: string, k: nat, slot: string)
    requires EquipTurn(d, query).outcome == Equipped
    requires Lookup(d.inventory, query) == Found(k)
    requires d.inventory[k].item.slot == Some(slot)
    ensures var a := EquipTurn(d, query).after;
      a.equippedItems == d.equippedItems[slot := Some(d.inventory[k].item)] &&
      a.inventory == d.inventory[..k] + d.inventory[k + 1..] + Returned(d.equippedItems[slot]) &&
      |a.inventory| == |d.inventory| - (if d.equippedItems[slot].None? then 1 else 0)
  {
  }

  /** What a slot holds, as a bag of entries. */
  function SlotBag(o: Option<Item>): (r: multiset<Entry>) {
    multiset(Returned(o))
  }

  /** A successful equip neither creates nor loses items: inventory plus the slot is the same bag. */
  lemma EquipConservesItems(d: PlayerData, query: string, k: nat, slot: string)
    requires EquipTurn(d, query).outcome == Equipped
    requires Lookup(d.inventory, query) == Found(k)
    requires d.inventory[k].item.slot == Some(slot)
    ensures var a := EquipTurn(d, query).after;
      slot in a.equippedItems && slot in d.equippedItems &&
      multiset(a.inventory) + SlotBag(a.equippedItems[slot]) ==
      multiset(d.inventory) + SlotBag(d.equippedItems[slot])
  {
    EquipSwaps(d, query, k, slot);
    var inv := d.inventory;
    CutKeepsRest(inv, k);
    assert SlotBag(Some(inv[k].item)) == multiset{inv[k]};
  }

  /** The `equip` command. */
  method Equip(store: PlayerStore, id: UserId, query: string) returns (outcome: EquipOutcome)
    modifies store
    ensures id !in old(store.players) ==> outcome == NotStarted && store.players == old(store.players)
    ensures id in old(store.players) ==>
      var s := EquipTurn(old(store.players)[id], query);
      outcome == s.outcome && store.players == old(store.players)[id := s.after]
  {
    if id !in store.players {
      return NotStarted;
    }
    var player := store.players[id];
    ghost var loaded := player;
    var found := FindTarget(player.inventory, query);
    if found.Absent? {
      return ItemNotFound;
    }
    if found.Unreadable? {
      return Fault;
    }
    var target := player.inventory[found.index].item;
    if !Equippable(target) {
      return NotEquippable;
    }
    var slot := target.slot.value;
    if slot !in player.equippedItems {
      return Fault;
    }
    if player.equippedItems[slot].Some? && SameName(player.equippedItems[slot].value.name, target.name) {
      return AlreadyEquipped;
    }
    ghost var before := player.inventory;
    var previous := player.equippedItems[slot];
    if previous.Some? {
      player := player.(inventory := player.inventory + [Held(previous.value)]);
      player := player.(equippedItems := player.equippedItems[slot := None]);
    }
    assert player.inventory == before + Returned(previous);
    player := player.(equippedItems := player.equippedItems[slot := Some(target)]);
    assert player.equippedItems == loaded.equippedItems[slot := Some(target)];
    RemoveTargetEntry(before, Returned(previous), found.index, query);
    player := player.(inventory := RemoveFirst(player.inventory, Held(target)));
    assert EquipTurn(loaded, query) == EquipStep(Equipped, player);
    store.players := store.players[id := player];
    return Equipped;
  }

  /** `list.remove` of the looked-up entry, after entries were appended, cuts exactly that entry. */
  lemma RemoveTargetEntry(inv: seq<Entry>, extra: seq<Entry>, k: nat, query: string)
    requires Lookup(inv, query) == Found(k)
    ensures Held(inv[k].item) in inv + extra
    ensures RemoveFirst(inv + extra, Held(inv[k].item)) == inv[..k] + inv[k + 1..] + extra
  {
    var s := inv + extra;
    forall j | 0 <= j < k ensures s[j] != inv[k] {
      assert !Matches(inv[j], query);
    }
    RemoveFirstAt(s, k, inv[k]);
    assert s[..k] == inv[..k];
    assert s[k + 1..] == inv[k + 1..] + extra;
  }

  predicate IsConsumable(it: Item) { it.kind == Consumable }
  predicate IsGear(it: Item) { it.kind == Weapon || it.kind == Armor }
  predicate IsOtherKind(it: Item) { it.kind.OtherType? }

  /** The inventory listing: consumables and equipment, or a fault on a bare-name entry. */
  datatype View = Listing(consumables: seq<Item>, gear: seq<Item>) | Unlistable

  /** The `inventory` command's split of the items into consumables and weapons/armour. */
  function InventoryView(inv: seq<Entry>): (v: View)
    ensures v.Unlistable? <==> !AllHeld(inv)
    ensures v.Listing? ==>
      IsSubsequence(v.consumables, HeldItems(inv)) &&
      (forall i :: 0 <= i < |v.consumables| ==> Held(v.consumables[i]) in inv && IsConsumable(v.consumables[i])) &&
      (forall i :: 0 <= i < |inv| && IsConsumable(inv[i].item) ==> inv[i].item in v.consumables)
    ensures v.Listing? ==>
      IsSubsequence(v.gear, HeldItems(inv)) &&
      (forall i :: 0 <= i < |v.gear| ==> Held(v.gear[i]) in inv && IsGear(v.gear[i])) &&
      (forall i :: 0 <= i < |inv| && IsGear(inv[i].item) ==> inv[i].item in v.gear)
    // duplicates are kept: each item is listed as many times as the inventory holds it
    ensures v.Listing? ==> forall i :: 0 <= i < |inv| ==>
      multiset(v.consumables)[inv[i].item] ==
        (if IsConsumable(inv[i].item) then multiset(HeldItems(inv))[inv[i].item] else 0) &&
      multiset(v.gear)[inv[i].item] ==
        (if IsGear(inv[i].item) then multiset(HeldItems(inv))[inv[i].item] else 0)
  {
    if AllHeld(inv) then
      FilterCounts(HeldItems(inv), IsConsumable);
      FilterCounts(HeldItems(inv), IsGear);
      Listing(Filter(HeldItems(inv), IsConsumable), Filter(HeldItems(inv), IsGear))
    else Unlistable
  }

  /**
   * Every item lands in exactly one list or, when its type is none of the three, in neither:
   * the two lists together are as long as the inventory less its other-typed items.
   */
  lemma InventoryViewPartition(inv: seq<Entry>)
    requires AllHeld(inv)
    ensures InventoryView(inv).Listing?
    ensures |InventoryView(inv).consumables| + |InventoryView(inv).gear| ==
            |inv| - |Filter(HeldItems(inv), IsOtherKind)|
  {
    FilterPartition(HeldItems(inv), IsConsumable, IsGear, IsOtherKind);
  }
}
