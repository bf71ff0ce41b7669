/** The presence store as an object. */
module PresenceService {
  import opened Options
  import opened Text
  import opened PresenceStore
  import opened PresenceSafety

  lemma DropOldestOne(q: seq<Presence>, n: nat)
    requires n <= |q|
    ensures DropOldest(q, n) == if n == 0 then q else DropOldest(q[..Oldest(q)] + q[Oldest(q) + 1..], n - 1)
  {
  }

  class WorkReportClientPresenceStore {
    var presence: seq<Presence>
    var eventsByKey: map<Key, seq<ClientEvent>>
    var commandsByKey: map<Key, seq<Command>>
    var blockedIpReasonByKey: map<string, Option<string>>

    ghost function Value(): State
      reads this
    {
      State(presence, eventsByKey, commandsByKey, blockedIpReasonByKey)
    }

    ghost predicate Valid()
      reads this
    {
      Inv(Value())
    }

    constructor ()
      ensures Valid() && Value() == EMPTY
    {
      presence, eventsByKey, commandsByKey, blockedIpReasonByKey := [], map[], map[], map[];
    }

    method PruneStaleClients(now: int)
      requires Distinct(presence)
      modifies this
      ensures Value() == Prune(old(Value()), now)
    {
      hide Seen, StaleKeys, Distinct;
      var kept: seq<Presence> := [];
      var i := 0;
      ghost var all, events, commands := presence, eventsByKey, commandsByKey;
      assert all[..0] == [];
      NothingSeen(now);
      while i < |presence|
        invariant i <= |presence| && presence == all && kept == Seen(all[..i], now)
        invariant eventsByKey == events - StaleKeys(all[..i], now)
        invariant commandsByKey == commands - StaleKeys(all[..i], now)
        invariant blockedIpReasonByKey == old(blockedIpReasonByKey)
      {
        var p := presence[i];
        PruneStep(all, i, now);
        if TooOld(p, now) {
          eventsByKey := eventsByKey - {KeyOf(p)};
          commandsByKey := commandsByKey - {KeyOf(p)};
        } else {
          kept := kept + [p];
        }
        i := i + 1;
      }
      assert all[..i] == all;
      StaleKeysAreGone(all, now);
      presence := kept;
      PruneOrphanEventBuckets();
      assert eventsByKey == Restrict(events, Keys(kept));
    }

    method PruneOrphanEventBuckets()
      modifies this`eventsByKey
      ensures eventsByKey == Restrict(old(eventsByKey), Keys(presence))
    {
      eventsByKey := map key | key in eventsByKey && key in Keys(presence) :: eventsByKey[key];
    }

    method EnforceClientLimit()
      modifies this
      ensures Value() == EnforceLimit(old(Value()))
    {
      hide KeyOf, DropOldest;
      if |presence| <= MAX_CLIENTS {
        return;
      }
      var victims := |presence| - MAX_CLIENTS;
      var all := presence;
      while victims > 0
        invariant 0 <= victims <= |presence|
        invariant DropOldest(presence, victims) == DropOldest(all, Overflow(all))
        invariant eventsByKey == old(eventsByKey) && commandsByKey == old(commandsByKey)
        invariant blockedIpReasonByKey == old(blockedIpReasonByKey)
      {
        var oldest := Oldest(presence);
        DropOldestOne(presence, victims);
        presence := presence[..oldest] + presence[oldest + 1..];
        victims := victims - 1;
      }
      DropOldestOne(presence, 0);
      var gone := Keys(all) - Keys(presence);
      eventsByKey, commandsByKey := eventsByKey - gone, commandsByKey - gone;
    }

    method SetPresence(p: Presence)
      modifies this`presence
      ensures presence == Put(old(presence), p)
    {
      var i := 0;
      assert presence[0..] == presence;
      while i < |presence| && KeyOf(presence[i]) != KeyOf(p)
        invariant presence == old(presence) && i <= |presence|
        invariant Put(presence, p) == presence[..i] + Put(presence[i..], p)
      {
        PutSkips(presence, i, p);
        i := i + 1;
      }
      if i < |presence| {
        PutHits(presence, i, p);
        presence := presence[..i] + [p] + presence[i + 1..];
      } else {
        assert presence[..i] == presence;
        presence := presence + [p];
      }
    }

    method Connect(clientId: string, tabId: string, effectiveIp: Option<string>, now: int) returns (next: Presence)
      requires Valid()
      modifies this
      ensures Valid() && Value() == MarkConnected(old(Value()), clientId, tabId, effectiveIp, now)
      ensures next.connected && next.effectiveIp == effectiveIp
      ensures BlockOf(Value(), effectiveIp).Some? ==> next.blocked && next.blockedReason == BlockOf(Value(), effectiveIp).value
    {
      hide Prune, Put, EnforceLimit, Distinct, Bounded, Owned;
      MarkConnectedKeepsInv(Value(), clientId, tabId, effectiveIp, now);
      PruneKeepsInv(Value(), now);
      PruneStaleClients(now);
      var existing := Get(presence, BuildPresenceKey(clientId, tabId));
      var block := BlockedByIp(effectiveIp);
      if existing.Some? {
        var p := existing.value;
        next := p.(connected := true, lastSeenAt := Now(now), effectiveIp := effectiveIp,
                   blocked := block.Some? || p.blocked,
                   blockedReason := if block.Some? then block.value else p.blockedReason,
                   status := Online, updatedAt := now);
      } else {
        next := Presence(clientId, tabId, effectiveIp, true, Now(now), None, block.Some?, OrElse(block, None), Online, now);
      }
      SetPresence(next);
      EnforceClientLimit();
    }

    method BlockedByIp(ip: Option<string>) returns (block: Option<Option<string>>)
      ensures block == BlockOf(Value(), ip)
    {
      var key := NormalizeIp(ip);
      if key.Some? && key.value in blockedIpReasonByKey {
        return Some(blockedIpReasonByKey[key.value]);
      }
      block := None;
    }

    method Post(input: Upsert, now: int) returns (next: Presence)
      requires Valid()
      modifies this
      ensures Valid() && Value() == UpsertPresence(old(Value()), input, now)
      ensures BlockOf(Value(), input.effectiveIp).Some? ==> next.blocked
    {
      hide Prune, Put, EnforceLimit, Distinct, Bounded, Owned;
      UpsertKeepsInv(Value(), input, now);
      PruneKeepsInv(Value(), now);
      PruneStaleClients(now);
      var existing := Get(presence, BuildPresenceKey(input.clientId, input.tabId));
      var block := BlockedByIp(input.effectiveIp);
      var connected := OrElse(input.connected, if existing.Some? then existing.value.connected else true);
      next := Presence(
        input.clientId, input.tabId, input.effectiveIp, connected, input.lastSeenAt,
        Or(input.maintenanceMessage, if existing.Some? then existing.value.maintenanceMessage else None),
        block.Some? || OrElse(input.blocked, existing.Some? && existing.value.blocked),
        OrElse(block, Or(input.blockedReason, if existing.Some? then existing.value.blockedReason else None)),
        StatusAt(input.lastSeenAt, connected, now), now);
      SetPresence(next);
      EnforceClientLimit();
    }

    method Disconnect(clientId: string, tabId: string, effectiveIp: Option<string>, now: int)
      requires Valid()
      modifies this
      ensures Valid() && Value() == MarkDisconnected(old(Value()), clientId, tabId, effectiveIp, now)
    {
      MarkDisconnectedKeepsInv(Value(), clientId, tabId, effectiveIp, now);
      var existing := Get(presence, BuildPresenceKey(clientId, tabId));
      if existing.None? {
        return;
      }
      var p := existing.value;
      var block := BlockedByIp(Or(effectiveIp, p.effectiveIp));
      SetPresence(p.(effectiveIp := Or(effectiveIp, p.effectiveIp), connected := false, lastSeenAt := Now(now),
                     blocked := block.Some? || p.blocked,
                     blockedReason := if block.Some? then block.value else p.blockedReason,
                     status := Offline, updatedAt := now));
    }

    method Record(event: ClientEvent, now: int)
      requires Valid()
      modifies this
      ensures Valid() && Value() == RecordEvent(old(Value()), event, now)
    {
      hide Prune, Put, TakeLast, Distinct, Bounded, Owned;
      RecordEventKeepsInv(Value(), event, now);
      PruneStaleClients(now);
      var key := BuildPresenceKey(event.clientId, event.tabId);
      var existing := Get(presence, key);
      if existing.None? {
        return;
      }
      var current := if key in eventsByKey then eventsByKey[key] else [];
      eventsByKey := eventsByKey[key := TakeLast(current, MAX_EVENTS_PER_CLIENT - 1) + [event]];
      var p := existing.value;
      SetPresence(p.(lastSeenAt := Now(now), status := StatusAt(Now(now), p.connected, now), updatedAt := now));
    }

    /** The fan-out of a command over its targets. */
    method DeliverToAll(targets: seq<Presence>, c: Command, now: int)
      modifies this
      ensures Value() == Deliver(old(Value()), targets, c, now)
    {
      hide Put, TakeLast, KeyOf;
      var i := 0;
      while i < |targets|
        invariant i <= |targets|
        invariant Deliver(Value(), targets[i..], c, now) == Deliver(old(Value()), targets, c, now)
      {
        var p := targets[i];
        assert targets[i..][1..] == targets[i + 1..];
        ghost var before := Value();
        var current := if KeyOf(p) in commandsByKey then commandsByKey[KeyOf(p)] else [];
        commandsByKey := commandsByKey[KeyOf(p) := TakeLast(current + [c], MAX_COMMANDS_PER_CLIENT)];
        if c.kind == SetMaintenanceMessage {
          SetPresence(p.(maintenanceMessage := c.message, updatedAt := now));
        } else if c.kind == ClearMaintenanceMessage {
          SetPresence(p.(maintenanceMessage := None, updatedAt := now));
        } else if c.kind == SetBlocked {
          var block := BlockedByIp(p.effectiveIp);
          SetPresence(p.(blocked := true, blockedReason := Or(c.reason, OrElse(block, None)), updatedAt := now));
        } else if c.kind == ClearBlocked {
          SetPresence(p.(blocked := false, blockedReason := None, updatedAt := now));
        }
        assert Value() == DeliverTo(before, p, c, now);
        i := i + 1;
      }
    }

    method Enqueue(c: Command, now: int, later: int)
      requires Valid()
      modifies this
      ensures Valid() && Value() == EnqueueCommand(old(Value()), c, now, later)
    {
      EnqueueKeepsInv(Value(), c, now, later);
      PruneKeepsInv(Value(), now);
      PruneStaleClients(now);
      var matchingClients := Matching(Listed(presence, now), c);
      var targetIps := TargetIps(matchingClients);
      if c.kind == SetBlocked {
        blockedIpReasonByKey := blockedIpReasonByKey + (map ip | ip in targetIps :: c.reason);
      } else if c.kind == ClearBlocked {
        blockedIpReasonByKey := blockedIpReasonByKey - targetIps;
      }
      if GoesToAddress(c) && targetIps != {} {
        PruneStaleClients(later);
        DeliverToAll(WithIps(Listed(presence, later), targetIps), c, later);
      } else {
        DeliverToAll(matchingClients, c, now);
      }
    }

    method Ack(clientId: string, tabId: string, commandIds: seq<string>) returns (acked: int)
      requires Valid()
      modifies this`commandsByKey
      ensures Valid() && Value() == AckCommands(old(Value()), clientId, tabId, commandIds)
      ensures var key := BuildPresenceKey(clientId, tabId);
              acked == |CommandsOf(old(Value()), key)| - |CommandsOf(Value(), key)|
    {
      AckKeepsInv(Value(), clientId, tabId, commandIds);
      var key := BuildPresenceKey(clientId, tabId);
      var ids := TrimmedIds(commandIds);
      if ids == {} {
        return 0;
      }
      var commands := if key in commandsByKey then commandsByKey[key] else [];
      var remaining := Unacked(commands, ids);
      if |remaining| == 0 {
        commandsByKey := commandsByKey - {key};
      } else {
        commandsByKey := commandsByKey[key := remaining];
      }
      acked := |commands| - |remaining|;
    }

    method BlockedStatus(clientId: string, tabId: string, effectiveIp: Option<string>) returns (status: Option<Option<string>>)
      requires Valid()
      ensures status == GetBlockedStatus(Value(), clientId, tabId, effectiveIp)
    {
      if Trim(clientId) != "" {
        var client := FindClient(presence, Trim(clientId), Trim(tabId));
        if client.Some? && client.value.blocked {
          return Some(client.value.blockedReason);
        }
      }
      status := BlockedByIp(effectiveIp);
    }
  }

  lemma PutSkips(q: seq<Presence>, i: nat, p: Presence)
    requires i < |q| && KeyOf(q[i]) != KeyOf(p)
    ensures q[..i] + Put(q[i..], p) == q[..i + 1] + Put(q[i + 1..], p)
  {
    assert q[i..][1..] == q[i + 1..];
    assert q[..i + 1] == q[..i] + [q[i]];
  }

  lemma PutHits(q: seq<Presence>, i: nat, p: Presence)
    requires i < |q| && KeyOf(q[i]) == KeyOf(p)
    ensures Put(q[i..], p) == [p] + q[i + 1..]
  {
    assert q[i..][1..] == q[i + 1..];
  }

  function StaleKeys(q: seq<Presence>, now: int): set<Key> {
    set p | p in q && TooOld(p, now) :: KeyOf(p)
  }

  lemma NothingSeen(now: int)
    ensures Seen([], now) == [] && StaleKeys([], now) == {}
  {}

  lemma {:induction false} SeenMore(q: seq<Presence>, p: Presence, now: int)
    ensures Seen(q + [p], now) == Seen(q, now) + if TooOld(p, now) then [] else [p]
  {
    if |q| == 0 {
      assert q + [p] == [p];
    } else {
      SeenMore(q[1..], p, now);
      assert (q + [p])[1..] == q[1..] + [p];
    }
  }

  lemma PruneStep(q: seq<Presence>, i: nat, now: int)
    requires i < |q|
    ensures Seen(q[..i + 1], now) == Seen(q[..i], now) + if TooOld(q[i], now) then [] else [q[i]]
    ensures StaleKeys(q[..i + 1], now) == StaleKeys(q[..i], now) + if TooOld(q[i], now) then {KeyOf(q[i])} else {}
  {
    assert q[..i + 1] == q[..i] + [q[i]];
    SeenMore(q[..i], q[i], now);
  }

  lemma {:induction false} StaleKeysAreGone(q: seq<Presence>, now: int)
    requires Distinct(q)
    ensures StaleKeys(q, now) == Keys(q) - Keys(Seen(q, now))
  {
    if |q| > 0 {
      HeadAndTail(q);
      StaleKeysAreGone(q[1..], now);
      SeenFacts(q[1..], now);
      if TooOld(q[0], now) {
        assert Seen(q, now) == Seen(q[1..], now);
        assert StaleKeys(q, now) == StaleKeys(q[1..], now) + {KeyOf(q[0])};
      } else {
        HeadAndTail(Seen(q, now));
        assert Seen(q, now)[1..] == Seen(q[1..], now);
        assert StaleKeys(q, now) == StaleKeys(q[1..], now);
      }
    }
  }
}
