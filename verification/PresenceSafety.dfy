/** A blocked address stays blocked, whatever the store forgets, until a command clears
    it; and the store's bounds hold after every operation. */
module PresenceSafety {
  import opened Options
  import opened PresenceStore

  predicate Distinct(q: seq<Presence>) {
    |q| > 0 ==> KeyOf(q[0]) !in Keys(q[1..]) && Distinct(q[1..])
  }

  /** Every client at a blocked address is itself marked blocked. */
  predicate Marked(s: State) {
    forall p :: p in s.presence && BlockOf(s, p.effectiveIp).Some? ==> p.blocked
  }

  predicate Bounded(s: State) {
    && |s.presence| <= MAX_CLIENTS
    && (forall k :: k in s.events ==> |s.events[k]| <= MAX_EVENTS_PER_CLIENT)
    && (forall k :: k in s.commands ==> |s.commands[k]| <= MAX_COMMANDS_PER_CLIENT)
  }

  predicate Owned(s: State) {
    s.events.Keys <= Keys(s.presence) && s.commands.Keys <= Keys(s.presence)
  }

  predicate Inv(s: State) {
    Distinct(s.presence) && Marked(s) && Bounded(s) && Owned(s)
  }

  // ---- the presence list ----

  lemma HeadAndTail(q: seq<Presence>)
    requires |q| > 0
    ensures forall p :: p in q <==> p == q[0] || p in q[1..]
    ensures Keys(q) == {KeyOf(q[0])} + Keys(q[1..])
  {
    assert q == [q[0]] + q[1..];
  }

  lemma ConsFacts(p: Presence, q: seq<Presence>)
    ensures forall x :: x in [p] + q <==> x == p || x in q
    ensures Keys([p] + q) == {KeyOf(p)} + Keys(q)
    ensures Distinct(q) && KeyOf(p) !in Keys(q) ==> Distinct([p] + q)
  {
    assert ([p] + q)[1..] == q;
    HeadAndTail([p] + q);
  }

  lemma KeyIsIn(q: seq<Presence>, k: nat)
    requires k < |q|
    ensures KeyOf(q[k]) in Keys(q)
  {
    assert q[k] in q;
  }

  lemma {:induction false} PutFacts(q: seq<Presence>, p: Presence)
    requires Distinct(q)
    ensures Keys(Put(q, p)) == Keys(q) + {KeyOf(p)} && Distinct(Put(q, p))
    ensures forall x :: x in Put(q, p) ==> x == p || (x in q && KeyOf(x) != KeyOf(p))
    ensures p in Put(q, p)
    ensures |Put(q, p)| == if KeyOf(p) in Keys(q) then |q| else |q| + 1
  {
    if |q| > 0 {
      HeadAndTail(q);
      HeadAndTail(Put(q, p));
      if KeyOf(q[0]) == KeyOf(p) {
        assert Put(q, p)[1..] == q[1..];
        assert forall x :: x in q[1..] ==> KeyOf(x) in Keys(q[1..]);
      } else {
        PutFacts(q[1..], p);
        assert Put(q, p)[1..] == Put(q[1..], p);
      }
    }
  }

  lemma {:induction false} SeenFacts(q: seq<Presence>, now: int)
    ensures forall x :: x in Seen(q, now) <==> x in q && !TooOld(x, now)
    ensures Keys(Seen(q, now)) <= Keys(q) && |Seen(q, now)| <= |q|
    ensures Distinct(q) ==> Distinct(Seen(q, now))
  {
    if |q| > 0 {
      HeadAndTail(q);
      SeenFacts(q[1..], now);
      if !TooOld(q[0], now) {
        assert Seen(q, now)[1..] == Seen(q[1..], now);
        HeadAndTail(Seen(q, now));
      } else {
        assert Seen(q, now) == Seen(q[1..], now);
      }
    }
  }

  function RemoveAt(q: seq<Presence>, k: nat): seq<Presence>
    requires k < |q|
  {
    q[..k] + q[k + 1..]
  }

  lemma {:induction false} RemoveAtFacts(q: seq<Presence>, k: nat)
    requires k < |q| && Distinct(q)
    ensures Distinct(RemoveAt(q, k))
    ensures forall x :: x in RemoveAt(q, k) ==> x in q
    ensures Keys(RemoveAt(q, k)) == Keys(q) - {KeyOf(q[k])}
  {
    hide Keys, KeyOf;
    HeadAndTail(q);
    if k == 0 {
      assert RemoveAt(q, 0) == q[1..];
    } else {
      var r := RemoveAt(q[1..], k - 1);
      RemoveAtFacts(q[1..], k - 1);
      assert RemoveAt(q, k) == [q[0]] + r;
      ConsFacts(q[0], r);
      KeyIsIn(q[1..], k - 1);
      assert q[k] == q[1..][k - 1];
    }
  }

  lemma {:induction false} DropOldestFacts(q: seq<Presence>, n: nat)
    requires n <= |q| && Distinct(q)
    ensures Distinct(DropOldest(q, n)) && |DropOldest(q, n)| == |q| - n
    ensures forall x :: x in DropOldest(q, n) ==> x in q
    ensures Keys(DropOldest(q, n)) <= Keys(q)
    decreases n
  {
    if n > 0 {
      RemoveAtFacts(q, Oldest(q));
      DropOldestFacts(RemoveAt(q, Oldest(q)), n - 1);
    }
  }

  // ---- each operation keeps the invariant ----

  lemma PruneKeepsInv(s: State, now: int)
    requires Inv(s)
    ensures Inv(Prune(s, now)) && Prune(s, now).blockedIps == s.blockedIps
  {
    SeenFacts(s.presence, now);
  }

  /** All but the bound on clients, which the next step restores. */
  predicate Nearly(s: State) {
    && Distinct(s.presence) && Marked(s) && Owned(s)
    && (forall k :: k in s.events ==> |s.events[k]| <= MAX_EVENTS_PER_CLIENT)
    && (forall k :: k in s.commands ==> |s.commands[k]| <= MAX_COMMANDS_PER_CLIENT)
  }

  lemma EnforceLimitRestores(s: State)
    requires Nearly(s)
    ensures Inv(EnforceLimit(s)) && EnforceLimit(s).blockedIps == s.blockedIps
  {
    DropOldestFacts(s.presence, Overflow(s.presence));
  }

  /** Entering a client that is marked as its address demands. */
  lemma PutKeeps(s: State, p: Presence)
    requires Nearly(s) && (BlockOf(s, p.effectiveIp).Some? ==> p.blocked)
    ensures Nearly(s.(presence := Put(s.presence, p)))
    ensures KeyOf(p) in Keys(s.presence) && Bounded(s) ==> Inv(s.(presence := Put(s.presence, p)))
  {
    PutFacts(s.presence, p);
  }

  lemma MarkConnectedKeepsInv(s: State, clientId: string, tabId: string, ip: Option<string>, now: int)
    requires Inv(s)
    ensures var t := MarkConnected(s, clientId, tabId, ip, now);
            Inv(t) && t.blockedIps == s.blockedIps
  {
    PruneKeepsInv(s, now);
    var t := Prune(s, now);
    var existing := Get(t.presence, BuildPresenceKey(clientId, tabId));
    var next := ConnectedRecord(existing, clientId, tabId, ip, BlockOf(t, ip), now);
    PutKeeps(t, next);
    EnforceLimitRestores(t.(presence := Put(t.presence, next)));
  }

  lemma UpsertKeepsInv(s: State, i: Upsert, now: int)
    requires Inv(s)
    ensures var t := UpsertPresence(s, i, now);
            Inv(t) && t.blockedIps == s.blockedIps
  {
    PruneKeepsInv(s, now);
    var t := Prune(s, now);
    var existing := Get(t.presence, BuildPresenceKey(i.clientId, i.tabId));
    var next := PostedRecord(existing, i, BlockOf(t, i.effectiveIp), now);
    PutKeeps(t, next);
    EnforceLimitRestores(t.(presence := Put(t.presence, next)));
  }

  lemma MarkDisconnectedKeepsInv(s: State, clientId: string, tabId: string, ip: Option<string>, now: int)
    requires Inv(s)
    ensures var t := MarkDisconnected(s, clientId, tabId, ip, now);
            Inv(t) && t.blockedIps == s.blockedIps
  {
    match Get(s.presence, BuildPresenceKey(clientId, tabId))
    case None =>
    case Some(p) =>
      PutKeeps(s, DisconnectedRecord(p, ip, BlockOf(s, Or(ip, p.effectiveIp)), now));
  }

  lemma RecordEventKeepsInv(s: State, e: ClientEvent, now: int)
    requires Inv(s)
    ensures var t := RecordEvent(s, e, now);
            Inv(t) && t.blockedIps == s.blockedIps
  {
    PruneKeepsInv(s, now);
    var t := Prune(s, now);
    var key := BuildPresenceKey(e.clientId, e.tabId);
    match Get(t.presence, key)
    case None =>
    case Some(p) =>
      var u := t.(events := t.events[key := TakeLast(EventsOf(t, key), MAX_EVENTS_PER_CLIENT - 1) + [e]]);
      assert u.events.Keys == t.events.Keys + {key};
      assert Inv(u);
      PutKeeps(u, ActiveRecord(p, now));
  }

  lemma NoteDeliveredKeepsInv(s: State, clientId: string, tabId: string, now: int)
    requires Inv(s)
    ensures var t := NoteSseEventDelivered(s, clientId, tabId, now);
            Inv(t) && t.blockedIps == s.blockedIps
  {
    match Get(s.presence, BuildPresenceKey(clientId, tabId))
    case None =>
    case Some(p) => PutKeeps(s, DeliveredRecord(p, now));
  }

  lemma {:induction false} UnackedIsShorter(q: seq<Command>, ids: set<string>)
    ensures |Unacked(q, ids)| <= |q|
  {
    if |q| > 0 {
      UnackedIsShorter(q[1..], ids);
    }
  }

  lemma AckKeepsInv(s: State, clientId: string, tabId: string, ids: seq<string>)
    requires Inv(s)
    ensures var t := AckCommands(s, clientId, tabId, ids);
            Inv(t) && t.blockedIps == s.blockedIps
  {
    hide Distinct, TrimmedIds;
    var key := BuildPresenceKey(clientId, tabId);
    UnackedIsShorter(CommandsOf(s, key), TrimmedIds(ids));
    var t := AckCommands(s, clientId, tabId, ids);
    assert t.commands.Keys <= s.commands.Keys;
  }

  // ---- commands ----

  predicate Shape(s: State) {
    Distinct(s.presence) && Bounded(s) && Owned(s)
  }

  /** Every client at a blocked address is marked, but for those still to be told. */
  predicate MarkedBut(s: State, todo: set<Key>) {
    forall p :: p in s.presence && BlockOf(s, p.effectiveIp).Some? && KeyOf(p) !in todo ==> p.blocked
  }

  lemma PruneKeepsShape(s: State, now: int)
    requires Shape(s)
    ensures Shape(Prune(s, now)) && Prune(s, now).blockedIps == s.blockedIps
    ensures forall p :: p in Prune(s, now).presence ==> p in s.presence
  {
    SeenFacts(s.presence, now);
  }

  /** A target as the fan-out needs it: it is present, and told what its address allows. */
  predicate Told(s: State, p: Presence, c: Command) {
    && KeyOf(p) in Keys(s.presence)
    && (c.kind != SetBlocked && BlockOf(s, p.effectiveIp).Some? ==> p.blocked && c.kind != ClearBlocked)
  }

  function Todo(targets: seq<Presence>, c: Command): set<Key> {
    if c.kind == SetBlocked then Keys(targets) else {}
  }

  lemma AddCommandKeeps(s: State, p: Presence, c: Command)
    requires Shape(s) && KeyOf(p) in Keys(s.presence)
    ensures var t := s.(commands := s.commands[KeyOf(p) := TakeLast(CommandsOf(s, KeyOf(p)) + [c], MAX_COMMANDS_PER_CLIENT)]);
            Shape(t)
  {
    var t := s.(commands := s.commands[KeyOf(p) := TakeLast(CommandsOf(s, KeyOf(p)) + [c], MAX_COMMANDS_PER_CLIENT)]);
    assert t.commands.Keys == s.commands.Keys + {KeyOf(p)};
  }

  lemma PutKeepsShape(t: State, p: Presence, todo: set<Key>)
    requires Shape(t) && KeyOf(p) in Keys(t.presence)
    requires MarkedBut(t, todo) && (BlockOf(t, p.effectiveIp).Some? ==> p.blocked)
    ensures var u := t.(presence := Put(t.presence, p));
            Shape(u) && Keys(u.presence) == Keys(t.presence) && MarkedBut(u, todo - {KeyOf(p)})
  {
    hide Put;
    PutFacts(t.presence, p);
  }

  lemma DeliverToKeeps(s: State, p: Presence, c: Command, now: int, todo: set<Key>)
    requires Shape(s) && Told(s, p, c) && MarkedBut(s, todo) && (c.kind != SetBlocked ==> todo == {})
    ensures var t := DeliverTo(s, p, c, now);
            && Shape(t) && t.blockedIps == s.blockedIps && Keys(t.presence) == Keys(s.presence)
            && MarkedBut(t, todo - {KeyOf(p)})
  {
    AddCommandKeeps(s, p, c);
    var t := s.(commands := s.commands[KeyOf(p) := TakeLast(CommandsOf(s, KeyOf(p)) + [c], MAX_COMMANDS_PER_CLIENT)]);
    assert MarkedBut(t, todo);
    if ChangesPresence(c) {
      PutKeepsShape(t, Obeyed(t, p, c, now), todo);
    }
  }

  lemma TellStays(s: State, t: State, p: Presence, c: Command)
    requires Told(s, p, c) && t.blockedIps == s.blockedIps && Keys(t.presence) == Keys(s.presence)
    ensures Told(t, p, c)
  {
  }

  lemma MarkedButFewer(s: State, todo: set<Key>, more: set<Key>)
    requires MarkedBut(s, todo) && todo <= more
    ensures MarkedBut(s, more)
  {
  }

  lemma AllTold(s: State)
    requires Shape(s) && MarkedBut(s, {})
    ensures Inv(s)
  {
  }

  lemma {:induction false} DeliverKeeps(s: State, targets: seq<Presence>, c: Command, now: int)
    requires Shape(s) && MarkedBut(s, Todo(targets, c))
    requires forall p :: p in targets ==> Told(s, p, c)
    ensures var t := Deliver(s, targets, c, now);
            Inv(t) && t.blockedIps == s.blockedIps && Keys(t.presence) == Keys(s.presence)
    decreases |targets|
  {
    hide Shape, MarkedBut, Told, DeliverTo, Inv, KeyOf;
    if |targets| > 0 {
      HeadAndTail(targets);
      DeliverToKeeps(s, targets[0], c, now, Todo(targets, c));
      var t := DeliverTo(s, targets[0], c, now);
      forall p | p in targets[1..] ensures Told(t, p, c) {
        TellStays(s, t, p, c);
      }
      MarkedButFewer(t, Todo(targets, c) - {KeyOf(targets[0])}, Todo(targets[1..], c));
      DeliverKeeps(t, targets[1..], c, now);
    } else {
      assert Todo(targets, c) == {};
      AllTold(s);
    }
  }

  /** A listed client is a present one, but for its status. */
  predicate Same(a: Presence, b: Presence) {
    KeyOf(a) == KeyOf(b) && a.effectiveIp == b.effectiveIp && a.blocked == b.blocked
  }

  lemma {:induction false} ListedAt(q: seq<Presence>, now: int, i: nat)
    requires i < |q|
    ensures |Listed(q, now)| == |q| && Same(Listed(q, now)[i], q[i])
  {
    if i > 0 {
      ListedAt(q[1..], now, i - 1);
    } else if |q| > 1 {
      ListedAt(q[1..], now, 0);
    }
  }

  lemma {:induction false} ListedLength(q: seq<Presence>, now: int)
    ensures |Listed(q, now)| == |q|
  {
    if |q| > 0 {
      ListedLength(q[1..], now);
    }
  }

  lemma ListedIsPresent(q: seq<Presence>, now: int, p: Presence)
    requires p in Listed(q, now)
    ensures exists r :: r in q && Same(p, r)
  {
    var i :| 0 <= i < |Listed(q, now)| && Listed(q, now)[i] == p;
    ListedLength(q, now);
    ListedAt(q, now, i);
    assert q[i] in q;
  }

  lemma PresentIsListed(q: seq<Presence>, now: int, r: Presence)
    requires r in q
    ensures exists p :: p in Listed(q, now) && Same(p, r)
  {
    var i :| 0 <= i < |q| && q[i] == r;
    ListedAt(q, now, i);
    assert Listed(q, now)[i] in Listed(q, now);
  }

  lemma {:induction false} MatchingFacts(q: seq<Presence>, c: Command)
    ensures forall p :: p in Matching(q, c) <==> p in q && Matches(p, c)
  {
    if |q| > 0 {
      HeadAndTail(q);
      MatchingFacts(q[1..], c);
    }
  }

  lemma {:induction false} WithIpsFacts(q: seq<Presence>, ips: set<string>)
    ensures forall p :: p in WithIps(q, ips) <==> p in q && HasIp(p, ips)
  {
    if |q| > 0 {
      HeadAndTail(q);
      WithIpsFacts(q[1..], ips);
    }
  }

  /** The addresses a command decides about, and the clients it names. */
  function Named(s: State, c: Command, now: int): seq<Presence> {
    Matching(Listed(Prune(s, now).presence, now), c)
  }

  function IpsOf(s: State, c: Command, now: int): set<string> {
    TargetIps(Named(s, c, now))
  }

  lemma NamedIsPresent(s: State, c: Command, now: int, p: Presence)
    requires p in Named(s, c, now)
    ensures exists r :: r in Prune(s, now).presence && Same(p, r)
  {
    MatchingFacts(Listed(Prune(s, now).presence, now), c);
    ListedIsPresent(Prune(s, now).presence, now, p);
  }

  lemma NamedAreTold(s: State, c: Command, now: int, p: Presence)
    requires Inv(s) && !(GoesToAddress(c) && IpsOf(s, c, now) != {}) && p in Named(s, c, now)
    ensures var t := Prune(s, now);
            Told(t.(blockedIps := Reblock(t.blockedIps, c, IpsOf(s, c, now))), p, c)
  {
    PruneKeepsInv(s, now);
    NamedIsPresent(s, c, now, p);
    var ip := NormalizeIp(p.effectiveIp);
    assert ip.Some? ==> ip.value in IpsOf(s, c, now);
  }

  lemma AddressTargetIsTold(v: State, ips: set<string>, c: Command, later: int, before: map<string, Option<string>>, p: Presence)
    requires GoesToAddress(c) && v.blockedIps == Reblock(before, c, ips)
    requires Marked(v.(blockedIps := before))
    requires p in Listed(v.presence, later) && HasIp(p, ips)
    ensures Told(v, p, c)
  {
    ListedIsPresent(v.presence, later, p);
    var r :| r in v.presence && Same(p, r);
    assert BlockOf(v.(blockedIps := before), r.effectiveIp).Some? ==> r.blocked;
    assert KeyOf(r) in Keys(v.presence);
  }

  lemma OthersAreMarked(v: State, ips: set<string>, c: Command, later: int, before: map<string, Option<string>>, r: Presence)
    requires GoesToAddress(c) && v.blockedIps == Reblock(before, c, ips)
    requires Marked(v.(blockedIps := before))
    requires r in v.presence && BlockOf(v, r.effectiveIp).Some?
    ensures r.blocked || KeyOf(r) in Todo(WithIps(Listed(v.presence, later), ips), c)
  {
    var listed := Listed(v.presence, later);
    assert BlockOf(v.(blockedIps := before), r.effectiveIp).Some? ==> r.blocked;
    if BlockOf(v.(blockedIps := before), r.effectiveIp).None? {
      PresentIsListed(v.presence, later, r);
      var p :| p in listed && Same(p, r);
      WithIpsFacts(listed, ips);
      assert p in WithIps(listed, ips);
    }
  }

  lemma AddressCommandKeeps(t: State, ips: set<string>, c: Command, later: int)
    requires Inv(t) && GoesToAddress(c)
    ensures var u := t.(blockedIps := Reblock(t.blockedIps, c, ips));
            var v := Prune(u, later);
            var after := Deliver(v, WithIps(Listed(v.presence, later), ips), c, later);
            Inv(after) && after.blockedIps == u.blockedIps
  {
    hide Distinct, Bounded, Owned, TooOld, StatusAt, KeyOf, Deliver;
    var u := t.(blockedIps := Reblock(t.blockedIps, c, ips));
    SameShape(t, u);
    PruneKeepsShape(u, later);
    var v := Prune(u, later);
    StillMarked(t, u, later);
    var targets := WithIps(Listed(v.presence, later), ips);
    WithIpsFacts(Listed(v.presence, later), ips);
    forall p | p in targets ensures Told(v, p, c) {
      AddressTargetIsTold(v, ips, c, later, t.blockedIps, p);
    }
    forall p | p in v.presence && BlockOf(v, p.effectiveIp).Some? && KeyOf(p) !in Todo(targets, c) ensures p.blocked {
      OthersAreMarked(v, ips, c, later, t.blockedIps, p);
    }
    DeliverKeeps(v, targets, c, later);
  }

  lemma SameShape(t: State, u: State)
    requires Shape(t) && u.presence == t.presence && u.events == t.events && u.commands == t.commands
    ensures Shape(u)
  {
  }

  lemma StillMarked(t: State, u: State, later: int)
    requires Marked(t) && u.presence == t.presence
    ensures Marked(Prune(u, later).(blockedIps := t.blockedIps))
  {
    SeenFacts(u.presence, later);
    var v := Prune(u, later).(blockedIps := t.blockedIps);
    forall p | p in v.presence && BlockOf(v, p.effectiveIp).Some? ensures p.blocked {
      assert p in t.presence && BlockOf(t, p.effectiveIp).Some?;
    }
  }

  lemma NamedCommandKeeps(s: State, c: Command, now: int)
    requires Inv(s) && (GoesToAddress(c) ==> IpsOf(s, c, now) == {})
    ensures var t := Prune(s, now);
            var u := t.(blockedIps := Reblock(t.blockedIps, c, IpsOf(s, c, now)));
            var after := Deliver(u, Named(s, c, now), c, now);
            Inv(after) && after.blockedIps == u.blockedIps
  {
    hide Distinct, Bounded, Owned, Prune, Named, IpsOf, Deliver, KeyOf;
    PruneKeepsInv(s, now);
    var t, ips := Prune(s, now), IpsOf(s, c, now);
    var u := t.(blockedIps := Reblock(t.blockedIps, c, ips));
    SameShape(t, u);
    assert u.blockedIps == t.blockedIps;
    forall p | p in Named(s, c, now) ensures Told(u, p, c) {
      NamedAreTold(s, c, now, p);
    }
    DeliverKeeps(u, Named(s, c, now), c, now);
  }

  lemma EnqueueKeepsInv(s: State, c: Command, now: int, later: int)
    requires Inv(s)
    ensures var t := EnqueueCommand(s, c, now, later);
            Inv(t) && t.blockedIps == Reblock(s.blockedIps, c, IpsOf(s, c, now))
  {
    hide Inv, Deliver, Reblock;
    PruneKeepsInv(s, now);
    if GoesToAddress(c) && IpsOf(s, c, now) != {} {
      AddressCommandKeeps(Prune(s, now), IpsOf(s, c, now), c, later);
    } else {
      NamedCommandKeeps(s, c, now);
    }
  }

  // ---- runs ----

  lemma StepKeepsInv(s: State, e: Event)
    requires Inv(s)
    ensures Inv(Apply(s, e))
    ensures Apply(s, e).blockedIps
            == if e.Commanded? then Reblock(s.blockedIps, e.command, IpsOf(s, e.command, e.now)) else s.blockedIps
  {
    hide Inv, IpsOf;
    match e
    case Connected(clientId, tabId, ip, now) => MarkConnectedKeepsInv(s, clientId, tabId, ip, now);
    case Posted(input, now) => UpsertKeepsInv(s, input, now);
    case Recorded(event, now) => RecordEventKeepsInv(s, event, now);
    case Delivered(clientId, tabId, now) => NoteDeliveredKeepsInv(s, clientId, tabId, now);
    case Disconnected(clientId, tabId, ip, now) => MarkDisconnectedKeepsInv(s, clientId, tabId, ip, now);
    case Commanded(command, now, later) => EnqueueKeepsInv(s, command, now, later);
    case Acked(clientId, tabId, ids) => AckKeepsInv(s, clientId, tabId, ids);
    case Looked(now) => PruneKeepsInv(s, now);
  }

  /** After every run: clients at blocked addresses are marked blocked, events and commands
      belong to present clients, and the three bounds hold. */
  lemma {:induction false} RunKeepsInv(s: State, events: seq<Event>)
    requires Inv(s)
    ensures Inv(Run(s, events))
    decreases |events|
  {
    if |events| > 0 {
      StepKeepsInv(s, events[0]);
      RunKeepsInv(Apply(s, events[0]), events[1..]);
    }
  }

  /** An event that takes the block off an address: clearing it by way of a client that is
      present there. */
  predicate Clears(s: State, e: Event, ip: string) {
    e.Commanded? && e.command.kind == ClearBlocked && ip in IpsOf(s, e.command, e.now)
  }

  ghost predicate NeverCleared(s: State, events: seq<Event>, ip: string)
    decreases |events|
  {
    |events| > 0 ==> !Clears(s, events[0], ip) && NeverCleared(Apply(s, events[0]), events[1..], ip)
  }

  /** A block outlives pruning, eviction, disconnects and reconnects until a command clears
      it, and all that time each client at the address is marked and each request from it
      has the status blocked. */
  lemma {:induction false} BlockSurvives(s: State, events: seq<Event>, ip: string)
    requires Inv(s) && ip in s.blockedIps && NeverCleared(s, events, ip)
    ensures var t := Run(s, events);
            && ip in t.blockedIps
            && (forall p :: p in t.presence && NormalizeIp(p.effectiveIp) == Some(ip) ==> p.blocked)
            && (forall clientId, tabId, raw :: NormalizeIp(Some(raw)) == Some(ip) ==>
                  GetBlockedStatus(t, clientId, tabId, Some(raw)).Some?)
    decreases |events|
  {
    if |events| > 0 {
      StepKeepsInv(s, events[0]);
      BlockSurvives(Apply(s, events[0]), events[1..], ip);
    } else {
      forall p | p in s.presence && NormalizeIp(p.effectiveIp) == Some(ip) ensures p.blocked {
        assert BlockOf(s, p.effectiveIp).Some?;
      }
    }
  }

  /** An address is blocked after a step exactly if a command has just blocked it, or it was
      blocked and no command has just cleared it. */
  lemma BlockedAfterStepIff(s: State, e: Event, ip: string)
    requires Inv(s)
    ensures ip in Apply(s, e).blockedIps <==>
              || (e.Commanded? && e.command.kind == SetBlocked && ip in IpsOf(s, e.command, e.now))
              || (ip in s.blockedIps && !Clears(s, e, ip))
  {
    StepKeepsInv(s, e);
  }

  /** Nothing is unblocked by naming a client of which no tab is present. */
  lemma ClearNeedsAPresentClient(s: State, c: Command, now: int, later: int)
    requires Inv(s) && c.kind == ClearBlocked
    requires forall p :: p in s.presence ==> TooOld(p, now) || p.clientId != c.clientId
    ensures EnqueueCommand(s, c, now, later).blockedIps == s.blockedIps
  {
    EnqueueKeepsInv(s, c, now, later);
    SeenFacts(s.presence, now);
    var listed := Listed(Prune(s, now).presence, now);
    MatchingFacts(listed, c);
    forall p | p in listed ensures p.clientId != c.clientId {
      var i :| 0 <= i < |listed| && listed[i] == p;
      ListedClient(Prune(s, now).presence, now, i);
    }
    assert IpsOf(s, c, now) == {};
  }

  lemma {:induction false} ListedClient(q: seq<Presence>, now: int, i: nat)
    requires i < |Listed(q, now)|
    ensures i < |q| && Listed(q, now)[i].clientId == q[i].clientId
  {
    if i > 0 {
      ListedClient(q[1..], now, i - 1);
    }
    ListedLength(q, now);
  }

  // ---- the newest command and event ----

  predicate IsNewest(s: State, key: Key, c: Command) {
    var q := CommandsOf(s, key);
    |q| > 0 && q[|q| - 1] == c
  }

  /** Each target of a command finds it as the newest of its commands. */
  lemma {:induction false} DeliverReaches(s: State, targets: seq<Presence>, c: Command, now: int, key: Key)
    requires key in Keys(targets) || IsNewest(s, key, c)
    ensures IsNewest(Deliver(s, targets, c, now), key, c)
    decreases |targets|
  {
    if |targets| > 0 {
      HeadAndTail(targets);
      DeliverReaches(DeliverTo(s, targets[0], c, now), targets[1..], c, now, key);
    }
  }

  /** A command reaches every client it names or, if addresses decide, every client that is
      present at one of their addresses. */
  lemma CommandReachesItsTargets(s: State, c: Command, now: int, later: int, p: Presence)
    requires Inv(s)
    requires if GoesToAddress(c) && IpsOf(s, c, now) != {}
             then p in Prune(s, now).presence && !TooOld(p, later) && HasIp(p, IpsOf(s, c, now))
             else p in Named(s, c, now)
    ensures IsNewest(EnqueueCommand(s, c, now, later), KeyOf(p), c)
  {
    var t, ips := Prune(s, now), IpsOf(s, c, now);
    var u := t.(blockedIps := Reblock(t.blockedIps, c, ips));
    if GoesToAddress(c) && ips != {} {
      var v := Prune(u, later);
      SeenFacts(u.presence, later);
      PresentIsListed(v.presence, later, p);
      var r :| r in Listed(v.presence, later) && Same(r, p);
      WithIpsFacts(Listed(v.presence, later), ips);
      var targets := WithIps(Listed(v.presence, later), ips);
      assert r in targets && KeyOf(r) in Keys(targets);
      DeliverReaches(v, targets, c, later, KeyOf(p));
    } else {
      DeliverReaches(u, Named(s, c, now), c, now, KeyOf(p));
    }
  }

  /** A present client's events are its last fifty, in order. */
  lemma EventsAreTheLastFifty(s: State, e: ClientEvent, now: int)
    requires Inv(s)
    ensures var key, t := BuildPresenceKey(e.clientId, e.tabId), RecordEvent(s, e, now);
            EventsOf(t, key)
            == if key in Keys(Seen(s.presence, now)) then TakeLast(EventsOf(s, key) + [e], 50) else []
  {
    hide Distinct, Put, TooOld, Seen, TakeLast, KeyOf;
    var key := BuildPresenceKey(e.clientId, e.tabId);
    SeenFacts(s.presence, now);
    var p := Get(Prune(s, now).presence, key);
    TakeLastNext(EventsOf(s, key), e, MAX_EVENTS_PER_CLIENT);
    if p.Some? {
      assert EventsOf(Prune(s, now), key) == EventsOf(s, key);
    }
  }

  lemma TakeLastNext<T>(q: seq<T>, x: T, n: nat)
    requires n > 0
    ensures TakeLast(q, n - 1) + [x] == TakeLast(q + [x], n)
  {
  }

  /** Acknowledging takes exactly the named commands out and keeps the others in order. */
  lemma {:induction false} UnackedIsTheRest(q: seq<Command>, ids: set<string>, c: Command)
    ensures multiset(Unacked(q, ids))[c] == if c.id in ids then 0 else multiset(q)[c]
  {
    if |q| > 0 {
      UnackedIsTheRest(q[1..], ids, c);
      assert q == [q[0]] + q[1..];
    }
  }

  // ---- eviction and connection ----

  lemma {:induction false} OldestIsOldest(q: seq<Presence>, i: nat)
    requires i < |q|
    ensures !Older(q[i], q[Oldest(q)])
  {
    if |q| > 1 {
      if i > 0 {
        OldestIsOldest(q[1..], i - 1);
      } else {
        OldestIsOldest(q[1..], 0);
      }
    }
  }

  /** No client that is given up was seen after one that is kept. */
  lemma {:induction false} EvictedAreOldest(q: seq<Presence>, n: nat, gone: Presence, kept: Presence)
    requires n <= |q| && gone in q && gone !in DropOldest(q, n) && kept in DropOldest(q, n)
    ensures gone.lastSeenAt.rank < kept.lastSeenAt.rank
            || (gone.lastSeenAt.rank == kept.lastSeenAt.rank && gone.updatedAt <= kept.updatedAt)
    decreases n
  {
    hide RemoveAt;
    if n > 0 {
      var k := Oldest(q);
      var rest := RemoveAt(q, k);
      DropOneFirst(q, n);
      var i :| 0 <= i < |q| && q[i] == gone;
      if i != k {
        OthersStay(q, k, i);
        EvictedAreOldest(rest, n - 1, gone, kept);
      } else {
        DropOldestIsFromList(rest, n - 1, kept);
        RestIsFromList(q, k, kept);
        var j :| 0 <= j < |q| && q[j] == kept;
        OldestIsOldest(q, j);
      }
    }
  }

  lemma DropOneFirst(q: seq<Presence>, n: nat)
    requires 0 < n <= |q|
    ensures |RemoveAt(q, Oldest(q))| == |q| - 1 && DropOldest(q, n) == DropOldest(RemoveAt(q, Oldest(q)), n - 1)
  {
  }

  lemma RestIsFromList(q: seq<Presence>, k: nat, x: Presence)
    requires k < |q| && x in RemoveAt(q, k)
    ensures x in q
  {
  }

  lemma OthersStay(q: seq<Presence>, k: nat, i: nat)
    requires k < |q| && i < |q| && i != k
    ensures q[i] in RemoveAt(q, k)
  {
    assert RemoveAt(q, k)[if i < k then i else i - 1] == q[i];
  }

  lemma {:induction false} DropOldestIsFromList(q: seq<Presence>, n: nat, x: Presence)
    requires n <= |q| && x in DropOldest(q, n)
    ensures x in q
    decreases n
  {
    if n > 0 {
      DropOldestIsFromList(RemoveAt(q, Oldest(q)), n - 1, x);
    }
  }

  lemma {:induction false} GetPut(q: seq<Presence>, p: Presence, key: Key)
    ensures Get(Put(q, p), key) == if key == KeyOf(p) then Some(p) else Get(q, key)
  {
    if |q| > 0 {
      GetPut(q[1..], p, key);
      if KeyOf(q[0]) != KeyOf(p) {
        assert Put(q, p)[1..] == Put(q[1..], p);
      } else {
        assert Put(q, p)[1..] == q[1..];
      }
    }
  }

  /** While there is room, a connected client is present, online, at its address and seen
      now, and every other client that is not stale is as it was. */
  lemma ConnectRegisters(s: State, clientId: string, tabId: string, ip: Option<string>, now: int, other: Key)
    requires Inv(s) && |s.presence| < MAX_CLIENTS
    ensures var key, t := BuildPresenceKey(clientId, tabId), MarkConnected(s, clientId, tabId, ip, now);
            && Get(t.presence, key).Some?
            && Get(t.presence, key).value.connected && Get(t.presence, key).value.status == Online
            && Get(t.presence, key).value.effectiveIp == ip && Get(t.presence, key).value.lastSeenAt == Now(now)
            && (other != key ==> Get(t.presence, other) == Get(Seen(s.presence, now), other))
  {
    SeenFacts(s.presence, now);
    var t := Prune(s, now);
    var existing := Get(t.presence, BuildPresenceKey(clientId, tabId));
    var next := ConnectedRecord(existing, clientId, tabId, ip, BlockOf(t, ip), now);
    PutFacts(t.presence, next);
    GetPut(t.presence, next, BuildPresenceKey(clientId, tabId));
    GetPut(t.presence, next, other);
  }
}
