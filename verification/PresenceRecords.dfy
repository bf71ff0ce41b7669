/** What the presence records say after a command and after each report of a client. */
module PresenceRecords {
  import opened Options
  import opened Text
  import opened PresenceStore
  import opened PresenceSafety

  // ---- commands ----

  /** A client that has been told `c`: blocking and unblocking set the mark and its reason,
      a maintenance message is set or taken away, and nothing else changes. */
  predicate HasObeyed(c: Command, before: Presence, after: Presence) {
    && after.clientId == before.clientId && after.tabId == before.tabId && after.effectiveIp == before.effectiveIp
    && after.connected == before.connected && after.lastSeenAt == before.lastSeenAt
    && after.blocked == (c.kind == SetBlocked || (c.kind != ClearBlocked && before.blocked))
    && after.blockedReason == (if c.kind == SetBlocked then c.reason else if c.kind == ClearBlocked then None else before.blockedReason)
    && after.maintenanceMessage == (if c.kind == SetMaintenanceMessage then c.message
                                    else if c.kind == ClearMaintenanceMessage then None else before.maintenanceMessage)
  }

  /** The clients a command reaches: those it names, or, where addresses decide, those at an
      address of one it names. */
  predicate IsReached(c: Command, ips: set<string>, p: Presence) {
    if c.kind in {SetBlocked, ClearBlocked, ForceSessionExpired} && ips != {} then HasIp(p, ips)
    else p.clientId == c.clientId && (c.tabId == None || c.tabId == Some("") || c.tabId == Some(p.tabId))
  }

  lemma {:induction false} GetOne(q: seq<Presence>, p: Presence)
    requires Distinct(q) && p in q
    ensures Get(q, KeyOf(p)) == Some(p)
  {
    HeadAndTail(q);
    if q[0] != p {
      GetOne(q[1..], p);
    }
  }

  lemma {:induction false} ListedOne(q: seq<Presence>, now: int, i: nat)
    requires i < |q|
    ensures |Listed(q, now)| == |q|
    ensures Listed(q, now)[i] == q[i].(status := StatusAt(q[i].lastSeenAt, q[i].connected, now))
  {
    ListedLength(q, now);
    if i > 0 {
      ListedOne(q[1..], now, i - 1);
    }
  }

  /** The listed form of a client. */
  function AsListed(p: Presence, now: int): Presence {
    p.(status := StatusAt(p.lastSeenAt, p.connected, now))
  }

  lemma ListedMembers(q: seq<Presence>, now: int)
    ensures forall p :: p in q ==> AsListed(p, now) in Listed(q, now)
    ensures forall r :: r in Listed(q, now) ==> exists p :: p in q && r == AsListed(p, now)
  {
    ListedLength(q, now);
    forall p | p in q ensures AsListed(p, now) in Listed(q, now) {
      var i :| 0 <= i < |q| && q[i] == p;
      ListedOne(q, now, i);
    }
    forall r | r in Listed(q, now) ensures exists p :: p in q && r == AsListed(p, now) {
      var i :| 0 <= i < |q| && Listed(q, now)[i] == r;
      ListedOne(q, now, i);
      assert q[i] in q;
    }
  }

  /** Delivering leaves the records of others alone, and what it makes of a target does not
      depend on how often it is delivered. */
  lemma {:induction false} DeliverObeys(s: State, targets: seq<Presence>, c: Command, now: int, key: Key, t: Presence)
    requires forall x :: x in targets && KeyOf(x) == key ==> x == t
    requires KeyOf(t) == key
    ensures Deliver(s, targets, c, now).blockedIps == s.blockedIps
    ensures Get(Deliver(s, targets, c, now).presence, key)
            == if key in Keys(targets) && ChangesPresence(c) then Some(Obeyed(s, t, c, now)) else Get(s.presence, key)
    decreases |targets|
  {
    hide Put, TakeLast, KeyOf;
    if |targets| > 0 {
      HeadAndTail(targets);
      var next := DeliverTo(s, targets[0], c, now);
      DeliverToOne(s, targets[0], c, now, key);
      DeliverObeys(next, targets[1..], c, now, key, t);
      SameBlocks(s, next, t, c, now);
    }
  }

  lemma SameBlocks(s: State, next: State, t: Presence, c: Command, now: int)
    requires next.blockedIps == s.blockedIps
    ensures Obeyed(next, t, c, now) == Obeyed(s, t, c, now)
  {
  }

  lemma ObeyedKey(s: State, p: Presence, c: Command, now: int)
    ensures KeyOf(Obeyed(s, p, c, now)) == KeyOf(p)
  {
  }

  lemma DeliverToOne(s: State, p: Presence, c: Command, now: int, key: Key)
    ensures DeliverTo(s, p, c, now).blockedIps == s.blockedIps
    ensures Get(DeliverTo(s, p, c, now).presence, key)
            == if key == KeyOf(p) && ChangesPresence(c) then Some(Obeyed(s, p, c, now)) else Get(s.presence, key)
  {
    hide Get, Put, KeyOf, Obeyed, TakeLast, CommandsOf;
    var t := s.(commands := s.commands[KeyOf(p) := TakeLast(CommandsOf(s, KeyOf(p)) + [c], MAX_COMMANDS_PER_CLIENT)]);
    SameBlocks(s, t, p, c, now);
    ObeyedKey(s, p, c, now);
    GetPut(s.presence, Obeyed(s, p, c, now), key);
  }

  lemma {:induction false} SubKeysUnique(q: seq<Presence>, r: Presence, p: Presence)
    requires Distinct(q) && r in q && p in q && KeyOf(r) == KeyOf(p)
    ensures r == p
  {
    GetOne(q, r);
    GetOne(q, p);
  }

  /** Targets drawn from the listing of distinct clients: each key once. */
  lemma TargetOfKey(q: seq<Presence>, targets: seq<Presence>, now: int, p: Presence)
    requires Distinct(q) && p in q && forall x :: x in targets ==> x in Listed(q, now)
    ensures forall x :: x in targets && KeyOf(x) == KeyOf(p) ==> x == AsListed(p, now)
    ensures KeyOf(p) in Keys(targets) <==> AsListed(p, now) in targets
    ensures KeyOf(AsListed(p, now)) == KeyOf(p)
  {
    ListedMembers(q, now);
    forall x | x in targets && KeyOf(x) == KeyOf(p) ensures x == AsListed(p, now) {
      var r :| r in q && x == AsListed(r, now);
      SubKeysUnique(q, r, p);
    }
  }

  /** The clients present when the command is delivered. */
  function AtDelivery(s: State, c: Command, now: int, later: int): seq<Presence> {
    if c.kind in {SetBlocked, ClearBlocked, ForceSessionExpired} && IpsOf(s, c, now) != {} then Seen(Seen(s.presence, now), later) else Seen(s.presence, now)
  }

  lemma ObeysAsTold(v: State, p: Presence, c: Command, now: int)
    requires c.kind == SetBlocked && c.reason == None ==> OrElse(BlockOf(v, p.effectiveIp), None) == None
    ensures HasObeyed(c, p, if ChangesPresence(c) then Obeyed(v, AsListed(p, now), c, now) else p)
  {
  }

  lemma {:induction false} ListedIsDistinct(q: seq<Presence>, now: int)
    requires Distinct(q)
    ensures Distinct(Listed(q, now)) && Keys(Listed(q, now)) == Keys(q)
  {
    if |q| > 0 {
      var head := AsListed(q[0], now);
      HeadAndTail(q);
      ListedIsDistinct(q[1..], now);
      ConsFacts(head, Listed(q[1..], now));
      assert Listed(q, now) == [head] + Listed(q[1..], now);
    } else {
      assert Listed(q, now) == q;
    }
  }

  lemma {:induction false} ChosenAreDistinct(q: seq<Presence>, c: Command, ips: set<string>)
    requires Distinct(q)
    ensures Distinct(Matching(q, c)) && Keys(Matching(q, c)) <= Keys(q)
    ensures Distinct(WithIps(q, ips)) && Keys(WithIps(q, ips)) <= Keys(q)
  {
    if |q| > 0 {
      var a, b := Matching(q[1..], c), WithIps(q[1..], ips);
      HeadAndTail(q);
      ChosenAreDistinct(q[1..], c, ips);
      ConsFacts(q[0], a);
      ConsFacts(q[0], b);
      assert Matching(q, c) == if Matches(q[0], c) then [q[0]] + a else a;
      assert WithIps(q, ips) == if HasIp(q[0], ips) then [q[0]] + b else b;
    }
  }

  lemma PrunedPresence(s: State, now: int)
    requires Inv(s)
    ensures Prune(s, now).presence == Seen(s.presence, now) && Prune(s, now).blockedIps == s.blockedIps
    ensures Distinct(s.presence) && Distinct(Seen(s.presence, now))
    ensures forall p :: p in Seen(s.presence, now) ==> KeyOf(p) in Keys(Seen(s.presence, now))
  {
    SeenFacts(s.presence, now);
  }

  lemma SeenAgain(q: seq<Presence>, now: int)
    requires Distinct(q)
    ensures Distinct(Seen(q, now)) && forall p :: p in Seen(q, now) ==> p in q && KeyOf(p) in Keys(Seen(q, now))
  {
    SeenFacts(q, now);
  }

  /** The clients at the addresses of a listing: each once. */
  lemma AddressTargets(q: seq<Presence>, ips: set<string>, now: int, p: Presence)
    requires Distinct(q) && p in q
    ensures var targets := WithIps(Listed(q, now), ips);
            && Distinct(targets) && KeyOf(AsListed(p, now)) == KeyOf(p)
            && (forall x :: x in targets && KeyOf(x) == KeyOf(p) ==> x == AsListed(p, now))
            && (KeyOf(p) in Keys(targets) <==> HasIp(p, ips))
  {
    hide KeyOf, StatusAt;
    var listed := Listed(q, now);
    ListedIsDistinct(q, now);
    ChosenAreDistinct(listed, Command("", "", None, ForceRefresh, None, None), ips);
    WithIpsFacts(listed, ips);
    ListedMembers(q, now);
    TargetOfKey(q, WithIps(listed, ips), now, p);
    assert AsListed(p, now) in WithIps(listed, ips) <==> HasIp(p, ips);
  }

  /** The clients that a command names in a listing: each once. */
  lemma NamedTargets(q: seq<Presence>, c: Command, now: int, p: Presence)
    requires Distinct(q) && p in q
    ensures var targets := Matching(Listed(q, now), c);
            && Distinct(targets) && KeyOf(AsListed(p, now)) == KeyOf(p)
            && (forall x :: x in targets && KeyOf(x) == KeyOf(p) ==> x == AsListed(p, now))
            && (KeyOf(p) in Keys(targets) <==> Matches(p, c))
  {
    hide KeyOf, StatusAt;
    var listed := Listed(q, now);
    ListedIsDistinct(q, now);
    ChosenAreDistinct(listed, c, {});
    MatchingFacts(listed, c);
    ListedMembers(q, now);
    TargetOfKey(q, Matching(listed, c), now, p);
    assert AsListed(p, now) in Matching(listed, c) <==> Matches(p, c);
  }

  lemma AddressedObey(s: State, c: Command, now: int, later: int, p: Presence)
    requires Inv(s) && GoesToAddress(c) && IpsOf(s, c, now) != {} && p in AtDelivery(s, c, now, later)
    ensures var u := Get(EnqueueCommand(s, c, now, later).presence, KeyOf(p));
            u.Some? && (if IsReached(c, IpsOf(s, c, now), p) then HasObeyed(c, p, u.value) else u.value == p)
  {
    hide Deliver, KeyOf, HasObeyed, Obeyed, Inv, Distinct, Keys, Get, Seen, Listed, WithIps;
    var ips := IpsOf(s, c, now);
    var t := Prune(s, now);
    var u := t.(blockedIps := Reblock(t.blockedIps, c, ips));
    var v := Prune(u, later);
    PrunedPresence(s, now);
    SeenAgain(t.presence, later);
    assert v.presence == AtDelivery(s, c, now, later);
    AddressTargets(v.presence, ips, later, p);
    DeliverObeys(v, WithIps(Listed(v.presence, later), ips), c, later, KeyOf(p), AsListed(p, later));
    GetOne(v.presence, p);
    if IsReached(c, ips, p) {
      ObeysAsTold(v, p, c, later);
    }
  }

  lemma NamedObey(s: State, c: Command, now: int, later: int, p: Presence)
    requires Inv(s) && (GoesToAddress(c) ==> IpsOf(s, c, now) == {}) && p in AtDelivery(s, c, now, later)
    ensures var u := Get(EnqueueCommand(s, c, now, later).presence, KeyOf(p));
            u.Some? && (if IsReached(c, IpsOf(s, c, now), p) then HasObeyed(c, p, u.value) else u.value == p)
  {
    hide Deliver, KeyOf, HasObeyed, Obeyed, Inv, Distinct, Keys, Get, Seen, Listed, Matching;
    var ips := IpsOf(s, c, now);
    var t := Prune(s, now);
    var u := t.(blockedIps := Reblock(t.blockedIps, c, ips));
    PrunedPresence(s, now);
    NamedTargets(u.presence, c, now, p);
    DeliverObeys(u, Matching(Listed(t.presence, now), c), c, now, KeyOf(p), AsListed(p, now));
    GetOne(u.presence, p);
    if IsReached(c, ips, p) {
      NamedAddress(s, c, now, p);
      ObeysAsTold(u, p, c, now);
    }
  }

  lemma NamedAddress(s: State, c: Command, now: int, p: Presence)
    requires Inv(s) && p in Seen(s.presence, now) && Matches(p, c)
    ensures NormalizeIp(p.effectiveIp).Some? ==> NormalizeIp(p.effectiveIp).value in IpsOf(s, c, now)
  {
    hide KeyOf, StatusAt, TooOld;
    var listed := Listed(Prune(s, now).presence, now);
    MatchingFacts(listed, c);
    ListedMembers(Prune(s, now).presence, now);
    assert AsListed(p, now) in Named(s, c, now);
  }

  /** Each client present when a command is delivered has obeyed it if the command reaches
      it, and is otherwise as it was. */
  lemma CommandIsObeyed(s: State, c: Command, now: int, later: int, p: Presence)
    requires Inv(s) && p in AtDelivery(s, c, now, later)
    ensures var u := Get(EnqueueCommand(s, c, now, later).presence, KeyOf(p));
            u.Some? && (if IsReached(c, IpsOf(s, c, now), p) then HasObeyed(c, p, u.value) else u.value == p)
  {
    if GoesToAddress(c) && IpsOf(s, c, now) != {} {
      AddressedObey(s, c, now, later, p);
    } else {
      NamedObey(s, c, now, later, p);
    }
  }

  // ---- the queues of commands ----

  /** The last twenty, or all of them. */
  function LastTwenty(q: seq<Command>): seq<Command> {
    if |q| <= 20 then q else q[|q| - 20..]
  }

  lemma {:induction false} DeliverQueues(s: State, targets: seq<Presence>, c: Command, now: int, key: Key)
    requires Distinct(targets)
    ensures CommandsOf(Deliver(s, targets, c, now), key)
            == if key in Keys(targets) then LastTwenty(CommandsOf(s, key) + [c]) else CommandsOf(s, key)
    decreases |targets|
  {
    hide Put, KeyOf, Obeyed;
    if |targets| > 0 {
      HeadAndTail(targets);
      DeliverQueues(DeliverTo(s, targets[0], c, now), targets[1..], c, now, key);
    }
  }

  lemma KeptCommands(s: State, now: int, key: Key)
    requires key in Keys(Seen(s.presence, now))
    ensures CommandsOf(Prune(s, now), key) == CommandsOf(s, key)
  {
  }

  lemma AddressedAreQueued(s: State, c: Command, now: int, later: int, p: Presence)
    requires Inv(s) && GoesToAddress(c) && IpsOf(s, c, now) != {} && p in AtDelivery(s, c, now, later)
    ensures CommandsOf(EnqueueCommand(s, c, now, later), KeyOf(p))
            == if IsReached(c, IpsOf(s, c, now), p) then LastTwenty(CommandsOf(s, KeyOf(p)) + [c]) else CommandsOf(s, KeyOf(p))
  {
    hide Deliver, KeyOf, LastTwenty, Inv, Distinct, Keys, Seen, Listed, WithIps, CommandsOf;
    var ips := IpsOf(s, c, now);
    var t := Prune(s, now);
    var u := t.(blockedIps := Reblock(t.blockedIps, c, ips));
    var v := Prune(u, later);
    PrunedPresence(s, now);
    SeenAgain(t.presence, later);
    assert v.presence == AtDelivery(s, c, now, later);
    KeptCommands(s, now, KeyOf(p));
    KeptCommands(u, later, KeyOf(p));
    SameCommands(t, u, KeyOf(p));
    AddressTargets(v.presence, ips, later, p);
    DeliverQueues(v, WithIps(Listed(v.presence, later), ips), c, later, KeyOf(p));
  }

  lemma SameCommands(s: State, t: State, key: Key)
    requires s.commands == t.commands
    ensures CommandsOf(s, key) == CommandsOf(t, key)
  {
  }

  lemma NamedAreQueued(s: State, c: Command, now: int, later: int, p: Presence)
    requires Inv(s) && (GoesToAddress(c) ==> IpsOf(s, c, now) == {}) && p in AtDelivery(s, c, now, later)
    ensures CommandsOf(EnqueueCommand(s, c, now, later), KeyOf(p))
            == if IsReached(c, IpsOf(s, c, now), p) then LastTwenty(CommandsOf(s, KeyOf(p)) + [c]) else CommandsOf(s, KeyOf(p))
  {
    hide Deliver, KeyOf, LastTwenty, Inv, Distinct, Keys, Seen, Listed, Matching, CommandsOf;
    var ips := IpsOf(s, c, now);
    var t := Prune(s, now);
    var u := t.(blockedIps := Reblock(t.blockedIps, c, ips));
    PrunedPresence(s, now);
    KeptCommands(s, now, KeyOf(p));
    SameCommands(t, u, KeyOf(p));
    NamedTargets(u.presence, c, now, p);
    DeliverQueues(u, Matching(Listed(t.presence, now), c), c, now, KeyOf(p));
  }

  /** Each client present when a command is delivered, and reached by it, has it once, at the
      end of its last twenty; the queues of the others are as they were. */
  lemma CommandIsQueued(s: State, c: Command, now: int, later: int, p: Presence)
    requires Inv(s) && p in AtDelivery(s, c, now, later)
    ensures CommandsOf(EnqueueCommand(s, c, now, later), KeyOf(p))
            == if IsReached(c, IpsOf(s, c, now), p) then LastTwenty(CommandsOf(s, KeyOf(p)) + [c]) else CommandsOf(s, KeyOf(p))
  {
    hide IsReached, LastTwenty;
    if GoesToAddress(c) && IpsOf(s, c, now) != {} {
      AddressedAreQueued(s, c, now, later, p);
    } else {
      NamedAreQueued(s, c, now, later, p);
    }
  }

  // ---- the answers ----

  lemma {:induction false} FindByKey(q: seq<Presence>, u: Presence)
    requires Distinct(q) && u in q && u.tabId != ""
    ensures FindClient(q, u.clientId, u.tabId) == Some(u)
  {
    HeadAndTail(q);
    if q[0] != u {
      assert KeyOf(u) in Keys(q[1..]) && KeyOf(q[0]) != KeyOf(u);
      FindByKey(q[1..], u);
    }
  }

  /** After a clear, a client at one of the cleared addresses is unmarked, and asked for its
      status is told it is not blocked. */
  lemma ClearUnblocks(s: State, c: Command, now: int, later: int, p: Presence)
    requires Inv(s) && c.kind == ClearBlocked && p in AtDelivery(s, c, now, later)
    requires HasIp(p, IpsOf(s, c, now))
    requires Trim(p.clientId) == p.clientId != "" && Trim(p.tabId) == p.tabId != ""
    ensures var t := EnqueueCommand(s, c, now, later);
            && GetBlockedStatus(t, p.clientId, p.tabId, p.effectiveIp) == None
            && forall u :: u in t.presence && KeyOf(u) == KeyOf(p) ==> !u.blocked && u.blockedReason == None
  {
    hide IpsOf, EnqueueCommand, Inv, AtDelivery, Trim;
    var t := EnqueueCommand(s, c, now, later);
    CommandIsObeyed(s, c, now, later, p);
    EnqueueKeepsInv(s, c, now, later);
    var u := Get(t.presence, KeyOf(p)).value;
    KeptDistinct(t);
    FindByKey(t.presence, u);
    forall x | x in t.presence && KeyOf(x) == KeyOf(p) ensures x == u {
      SubKeysUnique(t.presence, x, u);
    }
  }

  /** A client that a block reaches is told it is blocked, and why, whatever address it asks
      from. */
  lemma BlockTells(s: State, c: Command, now: int, later: int, p: Presence, ip: Option<string>)
    requires Inv(s) && c.kind == SetBlocked && p in AtDelivery(s, c, now, later) && IsReached(c, IpsOf(s, c, now), p)
    requires Trim(p.clientId) == p.clientId != "" && Trim(p.tabId) == p.tabId != ""
    ensures GetBlockedStatus(EnqueueCommand(s, c, now, later), p.clientId, p.tabId, ip) == Some(c.reason)
  {
    hide IpsOf, EnqueueCommand, Inv, AtDelivery, Trim, IsReached;
    var t := EnqueueCommand(s, c, now, later);
    CommandIsObeyed(s, c, now, later, p);
    EnqueueKeepsInv(s, c, now, later);
    KeptDistinct(t);
    FindByKey(t.presence, Get(t.presence, KeyOf(p)).value);
  }

  lemma KeptDistinct(s: State)
    requires Inv(s)
    ensures Distinct(s.presence)
  {
  }
}
