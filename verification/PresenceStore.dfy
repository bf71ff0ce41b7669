/** Which browser tabs are present, what they did, what they are told, and which IP
    addresses are blocked.  Time is in milliseconds; the presence list is kept in the
    order in which its keys were first put in. */
module PresenceStore {
  import opened Options
  import opened Text

  type Key = string

  /** A time as a client sent it: its rank among the texts, and its value if it parses. */
  datatype Stamp = Stamp(rank: int, time: Option<int>)

  datatype Status = Online | Offline | Stale

  datatype Presence = Presence(
    clientId: string,
    tabId: string,
    effectiveIp: Option<string>,
    connected: bool,
    lastSeenAt: Stamp,
    maintenanceMessage: Option<string>,
    blocked: bool,
    blockedReason: Option<string>,
    status: Status,
    updatedAt: int)

  datatype ClientEvent = ClientEvent(clientId: string, tabId: string, action: string)

  datatype CommandType =
    | ForceRefresh | ForceSessionExpired | SetMaintenanceMessage | ClearMaintenanceMessage | SetBlocked | ClearBlocked

  datatype Command = Command(
    id: string, clientId: string, tabId: Option<string>, kind: CommandType, message: Option<string>, reason: Option<string>)

  datatype State = State(
    presence: seq<Presence>,
    events: map<Key, seq<ClientEvent>>,
    commands: map<Key, seq<Command>>,
    blockedIps: map<string, Option<string>>)

  const EMPTY: State := State([], map[], map[], map[])

  const MAX_CLIENTS: nat := 2000
  const MAX_EVENTS_PER_CLIENT: nat := 50
  const MAX_COMMANDS_PER_CLIENT: nat := 20
  const STALE_MS: int := 600000

  // ---- keys and addresses ----

  function BuildPresenceKey(clientId: string, tabId: string): Key { clientId + ":" + tabId }

  function KeyOf(p: Presence): Key { BuildPresenceKey(p.clientId, p.tabId) }

  function NormalizeIp(value: Option<string>): Option<string> {
    match value
    case None => None
    case Some(s) => if Trim(s) == "" then None else Some(Trim(s))
  }

  /** The reason under which an address is blocked, if it is. */
  function BlockOf(s: State, ip: Option<string>): Option<Option<string>> {
    var key := NormalizeIp(ip);
    if key.Some? && key.value in s.blockedIps then Some(s.blockedIps[key.value]) else None
  }

  // ---- the presence list ----

  function Keys(q: seq<Presence>): set<Key> {
    set p | p in q :: KeyOf(p)
  }

  function Get(q: seq<Presence>, key: Key): (r: Option<Presence>)
    ensures r.Some? <==> key in Keys(q)
    ensures r.Some? ==> r.value in q && KeyOf(r.value) == key
  {
    if |q| == 0 then None else if KeyOf(q[0]) == key then Some(q[0]) else Get(q[1..], key)
  }

  /** An entry replaces the one with its key in place, or goes to the end. */
  function Put(q: seq<Presence>, p: Presence): seq<Presence> {
    if |q| == 0 then [p] else if KeyOf(q[0]) == KeyOf(p) then [p] + q[1..] else [q[0]] + Put(q[1..], p)
  }

  predicate TooOld(p: Presence, now: int) {
    p.lastSeenAt.time.Some? && p.lastSeenAt.time.value < now - STALE_MS
  }

  function Seen(q: seq<Presence>, now: int): seq<Presence> {
    if |q| == 0 then [] else (if TooOld(q[0], now) then [] else [q[0]]) + Seen(q[1..], now)
  }

  /** The order in which clients are given up when there are too many. */
  predicate Older(a: Presence, b: Presence) {
    a.lastSeenAt.rank < b.lastSeenAt.rank || (a.lastSeenAt.rank == b.lastSeenAt.rank && a.updatedAt < b.updatedAt)
  }

  /** The first of the oldest entries. */
  function Oldest(q: seq<Presence>): (k: nat)
    requires |q| > 0
    ensures k < |q|
  {
    if |q| == 1 then 0
    else
      var k := Oldest(q[1..]);
      if Older(q[1..][k], q[0]) then k + 1 else 0
  }

  /** Sorting by age and dropping the front, one entry at a time. */
  function DropOldest(q: seq<Presence>, n: nat): seq<Presence>
    requires n <= |q|
  {
    if n == 0 then q else DropOldest(q[..Oldest(q)] + q[Oldest(q) + 1..], n - 1)
  }

  function Overflow(q: seq<Presence>): nat {
    if |q| > MAX_CLIENTS then |q| - MAX_CLIENTS else 0
  }

  function Restrict<V>(m: map<Key, V>, keys: set<Key>): map<Key, V> {
    map k | k in m && k in keys :: m[k]
  }

  function EnforceLimit(s: State): State {
    var rest := DropOldest(s.presence, Overflow(s.presence));
    if |s.presence| <= MAX_CLIENTS then s
    else
      var gone := Keys(s.presence) - Keys(rest);
      s.(presence := rest, events := s.events - gone, commands := s.commands - gone)
  }

  /** Clients not seen for ten minutes go, with what is kept for them, and so do event
      lists without a client. */
  function Prune(s: State, now: int): State {
    var rest := Seen(s.presence, now);
    var gone := Keys(s.presence) - Keys(rest);
    s.(presence := rest, events := Restrict(s.events, Keys(rest)), commands := s.commands - gone)
  }

  function StatusAt(seen: Stamp, connected: bool, now: int): Status {
    if connected then Online
    else if seen.time.None? then Stale
    else if now - seen.time.value <= STALE_MS then Offline
    else Stale
  }

  function Now(now: int): Stamp { Stamp(now, Some(now)) }

  function Or<T>(a: Option<T>, b: Option<T>): Option<T> { if a.Some? then a else b }

  function OrElse<T>(a: Option<T>, b: T): T { if a.Some? then a.value else b }

  // ---- connections ----

  function ConnectedRecord(existing: Option<Presence>, clientId: string, tabId: string, ip: Option<string>,
                           block: Option<Option<string>>, now: int): Presence
  {
    match existing
    case Some(p) =>
      p.(connected := true, lastSeenAt := Now(now), effectiveIp := ip,
         blocked := block.Some? || p.blocked,
         blockedReason := if block.Some? then block.value else p.blockedReason,
         status := Online, updatedAt := now)
    case None =>
      Presence(clientId, tabId, ip, true, Now(now), None, block.Some?, OrElse(block, None), Online, now)
  }

  function MarkConnected(s: State, clientId: string, tabId: string, ip: Option<string>, now: int): State {
    var t := Prune(s, now);
    var existing := Get(t.presence, BuildPresenceKey(clientId, tabId));
    EnforceLimit(t.(presence := Put(t.presence, ConnectedRecord(existing, clientId, tabId, ip, BlockOf(t, ip), now))))
  }

  datatype Upsert = Upsert(
    clientId: string, tabId: string, effectiveIp: Option<string>, lastSeenAt: Stamp, connected: Option<bool>,
    maintenanceMessage: Option<string>, blocked: Option<bool>, blockedReason: Option<string>)

  function PostedRecord(existing: Option<Presence>, i: Upsert, block: Option<Option<string>>, now: int): Presence {
    var connected := OrElse(i.connected, if existing.Some? then existing.value.connected else true);
    var blocked := OrElse(i.blocked, existing.Some? && existing.value.blocked);
    var reason := Or(i.blockedReason, if existing.Some? then existing.value.blockedReason else None);
    Presence(
      i.clientId, i.tabId, i.effectiveIp, connected, i.lastSeenAt,
      Or(i.maintenanceMessage, if existing.Some? then existing.value.maintenanceMessage else None),
      block.Some? || blocked, OrElse(block, reason),
      StatusAt(i.lastSeenAt, connected, now), now)
  }

  function UpsertPresence(s: State, i: Upsert, now: int): State {
    var t := Prune(s, now);
    var existing := Get(t.presence, BuildPresenceKey(i.clientId, i.tabId));
    EnforceLimit(t.(presence := Put(t.presence, PostedRecord(existing, i, BlockOf(t, i.effectiveIp), now))))
  }

  function DisconnectedRecord(p: Presence, ip: Option<string>, block: Option<Option<string>>, now: int): Presence {
    p.(effectiveIp := Or(ip, p.effectiveIp), connected := false, lastSeenAt := Now(now),
       blocked := block.Some? || p.blocked,
       blockedReason := if block.Some? then block.value else p.blockedReason,
       status := Offline, updatedAt := now)
  }

  function MarkDisconnected(s: State, clientId: string, tabId: string, ip: Option<string>, now: int): State {
    match Get(s.presence, BuildPresenceKey(clientId, tabId))
    case None => s
    case Some(p) =>
      s.(presence := Put(s.presence, DisconnectedRecord(p, ip, BlockOf(s, Or(ip, p.effectiveIp)), now)))
  }

  // ---- events ----

  /** The last `n` elements, or all of them. */
  function TakeLast<T>(q: seq<T>, n: nat): seq<T> {
    if |q| <= n then q else q[|q| - n..]
  }

  function EventsOf(s: State, key: Key): seq<ClientEvent> { if key in s.events then s.events[key] else [] }

  function ActiveRecord(p: Presence, now: int): Presence {
    p.(lastSeenAt := Now(now), status := StatusAt(Now(now), p.connected, now), updatedAt := now)
  }

  function DeliveredRecord(p: Presence, now: int): Presence {
    p.(lastSeenAt := Now(now), updatedAt := now)
  }

  function RecordEvent(s: State, e: ClientEvent, now: int): State {
    var t := Prune(s, now);
    var key := BuildPresenceKey(e.clientId, e.tabId);
    match Get(t.presence, key)
    case None => t
    case Some(p) =>
      t.(events := t.events[key := TakeLast(EventsOf(t, key), MAX_EVENTS_PER_CLIENT - 1) + [e]],
         presence := Put(t.presence, ActiveRecord(p, now)))
  }

  function NoteSseEventDelivered(s: State, clientId: string, tabId: string, now: int): State {
    match Get(s.presence, BuildPresenceKey(clientId, tabId))
    case None => s
    case Some(p) => s.(presence := Put(s.presence, DeliveredRecord(p, now)))
  }

  // ---- commands ----

  /** The clients as listed: with the status they have now. */
  function Listed(q: seq<Presence>, now: int): seq<Presence> {
    if |q| == 0 then [] else [q[0].(status := StatusAt(q[0].lastSeenAt, q[0].connected, now))] + Listed(q[1..], now)
  }

  predicate Matches(p: Presence, c: Command) {
    && p.clientId == c.clientId
    && (c.tabId.None? || c.tabId.value == "" || p.tabId == c.tabId.value)
  }

  function Matching(q: seq<Presence>, c: Command): seq<Presence> {
    if |q| == 0 then [] else (if Matches(q[0], c) then [q[0]] else []) + Matching(q[1..], c)
  }

  function TargetIps(q: seq<Presence>): set<string> {
    set p | p in q && NormalizeIp(p.effectiveIp).Some? :: NormalizeIp(p.effectiveIp).value
  }

  predicate HasIp(p: Presence, ips: set<string>) {
    NormalizeIp(p.effectiveIp).Some? && NormalizeIp(p.effectiveIp).value in ips
  }

  function WithIps(q: seq<Presence>, ips: set<string>): seq<Presence> {
    if |q| == 0 then [] else (if HasIp(q[0], ips) then [q[0]] else []) + WithIps(q[1..], ips)
  }

  function Reblock(blockedIps: map<string, Option<string>>, c: Command, ips: set<string>): map<string, Option<string>> {
    if c.kind == SetBlocked then blockedIps + (map ip | ip in ips :: c.reason)
    else if c.kind == ClearBlocked then blockedIps - ips
    else blockedIps
  }

  predicate GoesToAddress(c: Command) {
    c.kind == SetBlocked || c.kind == ClearBlocked || c.kind == ForceSessionExpired
  }

  function CommandsOf(s: State, key: Key): seq<Command> { if key in s.commands then s.commands[key] else [] }

  function Obeyed(s: State, p: Presence, c: Command, now: int): Presence {
    match c.kind
    case SetMaintenanceMessage => p.(maintenanceMessage := c.message, updatedAt := now)
    case ClearMaintenanceMessage => p.(maintenanceMessage := None, updatedAt := now)
    case SetBlocked =>
      p.(blocked := true, blockedReason := Or(c.reason, OrElse(BlockOf(s, p.effectiveIp), None)), updatedAt := now)
    case ClearBlocked => p.(blocked := false, blockedReason := None, updatedAt := now)
    case _ => p
  }

  predicate ChangesPresence(c: Command) {
    c.kind != ForceRefresh && c.kind != ForceSessionExpired
  }

  function DeliverTo(s: State, p: Presence, c: Command, now: int): State {
    var t := s.(commands := s.commands[KeyOf(p) := TakeLast(CommandsOf(s, KeyOf(p)) + [c], MAX_COMMANDS_PER_CLIENT)]);
    if ChangesPresence(c) then t.(presence := Put(t.presence, Obeyed(t, p, c, now))) else t
  }

  function Deliver(s: State, targets: seq<Presence>, c: Command, now: int): State
    decreases |targets|
  {
    if |targets| == 0 then s else Deliver(DeliverTo(s, targets[0], c, now), targets[1..], c, now)
  }

  /** A command goes to the clients it names; blocking, unblocking and expiring go to all
      clients that share an address with one of them.  The clients are listed at `now`,
      and once more at `later` when addresses decide. */
  function EnqueueCommand(s: State, c: Command, now: int, later: int): State {
    var t := Prune(s, now);
    var named := Matching(Listed(t.presence, now), c);
    var ips := TargetIps(named);
    var u := t.(blockedIps := Reblock(t.blockedIps, c, ips));
    if GoesToAddress(c) && ips != {} then
      var v := Prune(u, later);
      Deliver(v, WithIps(Listed(v.presence, later), ips), c, later)
    else Deliver(u, named, c, now)
  }

  function Unacked(q: seq<Command>, ids: set<string>): seq<Command> {
    if |q| == 0 then [] else (if q[0].id in ids then [] else [q[0]]) + Unacked(q[1..], ids)
  }

  function TrimmedIds(ids: seq<string>): set<string> {
    set id | id in ids && Trim(id) != "" :: Trim(id)
  }

  function AckCommands(s: State, clientId: string, tabId: string, ids: seq<string>): State {
    var key, acked := BuildPresenceKey(clientId, tabId), TrimmedIds(ids);
    if acked == {} then s
    else
      var remaining := Unacked(CommandsOf(s, key), acked);
      s.(commands := if |remaining| == 0 then s.commands - {key} else s.commands[key := remaining])
  }

  // ---- questions ----

  function FindClient(q: seq<Presence>, clientId: string, tabId: string): Option<Presence> {
    if |q| == 0 then None
    else if q[0].clientId == clientId && (tabId == "" || q[0].tabId == tabId) then Some(q[0])
    else FindClient(q[1..], clientId, tabId)
  }

  /** Whether a request is blocked, by its client or by its address. */
  function GetBlockedStatus(s: State, clientId: string, tabId: string, ip: Option<string>): (r: Option<Option<string>>)
    ensures BlockOf(s, ip).Some? ==> r.Some?
  {
    var client := if Trim(clientId) == "" then None else FindClient(s.presence, Trim(clientId), Trim(tabId));
    if client.Some? && client.value.blocked then Some(client.value.blockedReason) else BlockOf(s, ip)
  }

  // ---- runs ----

  datatype Event =
    | Connected(clientId: string, tabId: string, ip: Option<string>, now: int)
    | Posted(input: Upsert, now: int)
    | Recorded(event: ClientEvent, now: int)
    | Delivered(clientId: string, tabId: string, now: int)
    | Disconnected(clientId: string, tabId: string, ip: Option<string>, now: int)
    | Commanded(command: Command, now: int, later: int)
    | Acked(clientId: string, tabId: string, ids: seq<string>)
    | Looked(now: int)

  function Apply(s: State, e: Event): State {
    match e
    case Connected(clientId, tabId, ip, now) => MarkConnected(s, clientId, tabId, ip, now)
    case Posted(input, now) => UpsertPresence(s, input, now)
    case Recorded(event, now) => RecordEvent(s, event, now)
    case Delivered(clientId, tabId, now) => NoteSseEventDelivered(s, clientId, tabId, now)
    case Disconnected(clientId, tabId, ip, now) => MarkDisconnected(s, clientId, tabId, ip, now)
    case Commanded(command, now, later) => EnqueueCommand(s, command, now, later)
    case Acked(clientId, tabId, ids) => AckCommands(s, clientId, tabId, ids)
    case Looked(now) => Prune(s, now)
  }

  function Run(s: State, events: seq<Event>): State
    decreases |events|
  {
    if |events| == 0 then s else Run(Apply(s, events[0]), events[1..])
  }
}
