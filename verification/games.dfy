/**
 * The `start_2` and `m` commands of cogs/games.py: binding a player to an adventure thread,
 * and advancing one step and applying the event the game logic generated for that step.
 * Thread lookups and creation, the generated event and the id of the posted event message
 * arrive as parameters.
 */
module Games {
  import opened GameData

  /** The game logic's event for one step; `Quiet` stands for the empty and any unknown type. */
  datatype Event =
    | Encounter(monster: Monster)
    | Discovery(item: Item)
    | Story(message: string)
    | Quiet(message: string)

  datatype AdvanceOutcome =
    | NotStarted
    | InCombat
    | WrongThread    // the command came from a channel other than the bound thread
    | Advanced
    | ThreadMissing  // the step was saved but the thread could not be found to post the event

  datatype Step = Step(outcome: AdvanceOutcome, after: PlayerData)

  /** What an event does to the record. */
  function ApplyEvent(d: PlayerData, e: Event): (r: PlayerData)
    // a monster opens combat with that monster
    ensures e.Encounter? ==> r.inCombat && r.currentMonster == Some(e.monster)
    ensures e.Encounter? ==> r.(inCombat := d.inCombat, currentMonster := d.currentMonster) == d
    // a found item's name goes at the end of the inventory; earlier entries stay as they were
    ensures e.Discovery? ==> |r.inventory| == |d.inventory| + 1 && r.inventory[..|d.inventory|] == d.inventory
    ensures e.Discovery? ==> r.inventory[|d.inventory|] == Named(e.item.name)
    ensures e.Discovery? ==> r.(inventory := d.inventory) == d
    // story and empty events change nothing
    ensures e.Story? || e.Quiet? ==> r == d
  {
    match e
    case Encounter(m) => d.(inCombat := true, currentMonster := Some(m))
    case Discovery(it) => d.(inventory := d.inventory + [Named(it.name)])
    case Story(_) => d
    case Quiet(_) => d
  }

  /**
   * One `m` step on a loaded record, from channel `channelId`; `posted` is the id of the event
   * message sent to the bound thread, None when the thread is not found.
   */
  function AdvanceStep(d: PlayerData, channelId: int, event: Event, posted: Option<int>): (r: Step)
    // the guards: in combat, or away from the bound thread, nothing changes
    ensures d.inCombat ==> r == Step(InCombat, d)
    ensures !d.inCombat && d.threadId != Some(channelId) ==> r == Step(WrongThread, d)
    // otherwise distance grows by exactly one and the event is applied
    ensures r.outcome == Advanced || r.outcome == ThreadMissing <==>
      !d.inCombat && d.threadId == Some(channelId)
    ensures r.outcome == Advanced || r.outcome == ThreadMissing ==>
      r.after.distance == d.distance + 1 &&
      r.after.(distance := d.distance, lastEventMessageId := d.lastEventMessageId) == ApplyEvent(d, event)
    ensures r.outcome == Advanced <==> !d.inCombat && d.threadId == Some(channelId) && posted.Some?
    ensures r.outcome == Advanced ==> r.after.lastEventMessageId == posted
    ensures r.outcome == ThreadMissing ==> r.after.lastEventMessageId == d.lastEventMessageId
    ensures d.distance <= r.after.distance <= d.distance + 1
  {
    if d.inCombat then Step(InCombat, d)
    else if d.threadId != Some(channelId) then Step(WrongThread, d)
    else
      var d1 := ApplyEvent(d.(distance := d.distance + 1), event);
      if posted.Some? then Step(Advanced, d1.(lastEventMessageId := posted))
      else Step(ThreadMissing, d1)
  }

  /** An advance keeps the ranges and, for a live encountered monster, the flag/monster agreement. */
  lemma AdvanceKeepsInvariants(d: PlayerData, channelId: int, event: Event, posted: Option<int>)
    requires Sane(d) && CombatConsistent(d)
    requires event.Encounter? ==> event.monster.hp > 0
    ensures Sane(AdvanceStep(d, channelId, event, posted).after)
    ensures CombatConsistent(AdvanceStep(d, channelId, event, posted).after)
  {
  }

  /** One `m` request: where it came from, what the game logic generated, what was posted. */
  datatype Request = Request(channelId: int, event: Event, posted: Option<int>)

  /** The record after a series of `m` requests. */
  function Journey(d: PlayerData, requests: seq<Request>): (r: PlayerData)
    decreases |requests|
  {
    if requests == [] then d
    else
      var q := requests[0];
      Journey(AdvanceStep(d, q.channelId, q.event, q.posted).after, requests[1..])
  }

  /** Advancing never moves a player back, and each request moves them at most one step. */
  lemma {:induction false} JourneyNeverRetreats(d: PlayerData, requests: seq<Request>)
    ensures d.distance <= Journey(d, requests).distance <= d.distance + |requests|
    decreases |requests|
  {
    if requests != [] {
      var q := requests[0];
      JourneyNeverRetreats(AdvanceStep(d, q.channelId, q.event, q.posted).after, requests[1..]);
    }
  }

  /** The `m` command. */
  method Advance(store: PlayerStore, id: UserId, channelId: int, event: Event, posted: Option<int>)
    returns (outcome: AdvanceOutcome)
    modifies store
    ensures id !in old(store.players) ==> outcome == NotStarted && store.players == old(store.players)
    ensures id in old(store.players) ==>
      var s := AdvanceStep(old(store.players)[id], channelId, event, posted);
      outcome == s.outcome && store.players == old(store.players)[id := s.after]
  {
    if id !in store.players {
      return NotStarted;
    }
    var player := store.players[id];
    if player.inCombat {
      return InCombat;
    }
    if Some(channelId) != player.threadId {
      return WrongThread;
    }
    player := player.(distance := player.distance + 1);
    match event {
      case Encounter(monster) =>
        player := player.(inCombat := true);
        player := player.(currentMonster := Some(monster));
      case Discovery(item) =>
        player := player.(inventory := player.inventory + [Named(item.name)]);
      case Story(_) =>
      case Quiet(_) =>
    }
    store.players := store.players[id := player];
    if posted.None? {
      return ThreadMissing;
    }
    player := player.(lastEventMessageId := posted);
    store.players := store.players[id := player];
    return Advanced;
  }

  datatype StartOutcome =
    | AlreadyStarted  // the record's thread still resolves: nothing changes
    | ThreadFailed    // no thread could be created: nothing is saved
    | Started

  /** The outcome of `start_2` and the record it leaves for the user (None: still none). */
  datatype Launch = Launch(outcome: StartOutcome, record: Option<PlayerData>)

  /**
   * `start_2` for a user whose current record is `existing`. `threadResolves` says whether the
   * record's bound thread can still be found, `initial` is the game logic's fresh character
   * and `newThread` the id of the created thread (None when creation fails).
   */
  function StartResult(existing: Option<PlayerData>, threadResolves: bool, initial: PlayerData,
                       newThread: Option<int>): (r: Launch)
    // a player bound to a thread that still exists is left alone
    ensures existing.Some? && Truthy(existing.value.threadId) && threadResolves ==>
      r == Launch(AlreadyStarted, existing)
    // otherwise a fresh character bound to the new thread replaces any record
    ensures r.outcome == Started <==>
      newThread.Some? && !(existing.Some? && Truthy(existing.value.threadId) && threadResolves)
    ensures r.outcome == Started ==> r.record == Some(initial.(threadId := newThread))
    ensures r.outcome != Started ==> r.record == existing
    // a failed thread creation is reported as such, never as an adventure already under way
    ensures r.outcome == ThreadFailed <==>
      newThread.None? && !(existing.Some? && Truthy(existing.value.threadId) && threadResolves)
    ensures r.outcome == AlreadyStarted <==> existing.Some? && Truthy(existing.value.threadId) && threadResolves
  {
    if existing.Some? && Truthy(existing.value.threadId) && threadResolves then
      Launch(AlreadyStarted, existing)
    else if newThread.None? then Launch(ThreadFailed, existing)
    else Launch(Started, Some(initial.(threadId := newThread)))
  }

  /** The `start_2` command. */
  method Start(store: PlayerStore, id: UserId, threadResolves: bool, initial: PlayerData,
               newThread: Option<int>) returns (outcome: StartOutcome)
    modifies store
    ensures var existing := if id in old(store.players) then Some(old(store.players)[id]) else None;
      var l := StartResult(existing, threadResolves, initial, newThread);
      outcome == l.outcome &&
      store.players == if l.record.Some? then old(store.players)[id := l.record.value] else old(store.players)
  {
    var player: PlayerData;
    if id in store.players {
      var existing := store.players[id];
      if Truthy(existing.threadId) && threadResolves {
        return AlreadyStarted;
      }
      player := initial;
    } else {
      player := initial;
    }
    if newThread.None? {
      return ThreadFailed;
    }
    player := player.(threadId := newThread);
    store.players := store.players[id := player];
    return Started;
  }
}
