/** What the presence records say after each report of a client, who is forgotten when, and
    what an acknowledgement and a question of a client do with the texts they are given. */
module PresenceReports {
  import opened Options
  import opened Text
  import opened PresenceStore
  import opened PresenceSafety

  // ---- reports ----

  predicate IsReport(e: Event) {
    e.Connected? || e.Posted? || e.Recorded? || e.Delivered? || e.Disconnected?
  }

  function KeyOfReport(e: Event): Key
    requires IsReport(e)
  {
    match e
    case Connected(clientId, tabId, _, _) => BuildPresenceKey(clientId, tabId)
    case Posted(input, _) => BuildPresenceKey(input.clientId, input.tabId)
    case Recorded(event, _) => BuildPresenceKey(event.clientId, event.tabId)
    case Delivered(clientId, tabId, _) => BuildPresenceKey(clientId, tabId)
    case Disconnected(clientId, tabId, _, _) => BuildPresenceKey(clientId, tabId)
    case _ => ""
  }

  /** Not seen for more than ten minutes. */
  predicate IsForgotten(p: Presence, now: int) {
    p.lastSeenAt.time.Some? && p.lastSeenAt.time.value + 10 * 60 * 1000 < now
  }

  /** The reports that forget the clients of long ago before they are entered. */
  predicate IsThere(s: State, e: Event, p: Presence) {
    p in s.presence && (e.Connected? || e.Posted? || e.Recorded? || e.Looked? ==> !IsForgotten(p, e.now))
  }

  /** The record says that the client is blocked, and why, as its address demands, or else as
      it was told before. */
  predicate IsMarked(s: State, ip: Option<string>, blocked: bool, reason: Option<string>, p: Presence) {
    match BlockOf(s, ip)
    case Some(given) => p.blocked && p.blockedReason == given
    case None => p.blocked == blocked && p.blockedReason == reason
  }

  predicate HasStatus(p: Presence, now: int) {
    && (p.status == Online <==> p.connected)
    && (p.status == Offline <==>
          !p.connected && p.lastSeenAt.time.Some? && now <= p.lastSeenAt.time.value + 10 * 60 * 1000)
  }

  function MessageOf(p: Option<Presence>): Option<string> { if p.Some? then p.value.maintenanceMessage else None }

  function ReasonOf(p: Option<Presence>): Option<string> { if p.Some? then p.value.blockedReason else None }

  /** The record `p` after a report, with what was known of the client before. */
  predicate HasReported(s: State, before: Option<Presence>, e: Event, p: Presence) {
    match e
    case Connected(_, _, ip, now) =>
      && p.connected && p.status == Online && p.effectiveIp == ip && p.maintenanceMessage == MessageOf(before)
      && p.lastSeenAt == Stamp(now, Some(now)) && p.updatedAt == now
      && IsMarked(s, ip, before.Some? && before.value.blocked, ReasonOf(before), p)
    case Posted(i, now) =>
      && p.effectiveIp == i.effectiveIp && p.lastSeenAt == i.lastSeenAt && p.updatedAt == now && HasStatus(p, now)
      && p.connected == (match i.connected case Some(x) => x case None => before.Some? ==> before.value.connected)
      && p.maintenanceMessage == (if i.maintenanceMessage != None then i.maintenanceMessage else MessageOf(before))
      && IsMarked(s, i.effectiveIp,
                  match i.blocked case Some(x) => x case None => before.Some? && before.value.blocked,
                  if i.blockedReason != None then i.blockedReason else ReasonOf(before), p)
    case Recorded(_, now) =>
      && before.Some? && HasStatus(p, now)
      && p == before.value.(lastSeenAt := Stamp(now, Some(now)), updatedAt := now, status := p.status)
    case Delivered(_, _, now) =>
      before.Some? && p == before.value.(lastSeenAt := Stamp(now, Some(now)), updatedAt := now)
    case Disconnected(_, _, given, now) =>
      && before.Some?
      && var ip := if given != None then given else before.value.effectiveIp;
      && !p.connected && p.status == Offline && p.effectiveIp == ip
      && p.maintenanceMessage == before.value.maintenanceMessage
      && p.lastSeenAt == Stamp(now, Some(now)) && p.updatedAt == now
      && IsMarked(s, ip, before.value.blocked, before.value.blockedReason, p)
    case _ => false
  }

  /** The list after a record has been entered in `q`: the record, and all others as they
      were, but for those given up when there are more than 2000. */
  ghost predicate IsEntered(q: seq<Presence>, next: Presence, after: seq<Presence>) {
    && (forall p :: p in after ==> p == next || (p in q && KeyOf(p) != KeyOf(next)))
    && (|after| < 2000 ==> next in after && forall p :: p in q && KeyOf(p) != KeyOf(next) ==> p in after)
  }

  lemma PutEnters(s: State, next: Presence)
    requires Distinct(s.presence) && |s.presence| <= 2000
    ensures var t := s.(presence := Put(s.presence, next));
            && IsEntered(s.presence, next, EnforceLimit(t).presence)
            && (KeyOf(next) in Keys(s.presence) ==> IsEntered(s.presence, next, t.presence))
  {
    var t := s.(presence := Put(s.presence, next));
    PutFacts(s.presence, next);
    PutKeepsOthers(s.presence, next);
    DropOldestFacts(t.presence, Overflow(t.presence));
  }

  lemma {:induction false} PutKeepsOthers(q: seq<Presence>, next: Presence)
    ensures forall p :: p in q && KeyOf(p) != KeyOf(next) ==> p in Put(q, next)
  {
    if |q| > 0 {
      HeadAndTail(q);
      HeadAndTail(Put(q, next));
      if KeyOf(q[0]) == KeyOf(next) {
        assert Put(q, next)[1..] == q[1..];
      } else {
        PutKeepsOthers(q[1..], next);
        assert Put(q, next)[1..] == Put(q[1..], next);
      }
    }
  }

  /** The clients that a report finds. */
  function Found(s: State, e: Event): seq<Presence> {
    if e.Connected? || e.Posted? || e.Recorded? || e.Looked? then Seen(s.presence, e.now) else s.presence
  }

  lemma FoundAreThere(s: State, e: Event)
    requires Inv(s)
    ensures forall p :: p in Found(s, e) <==> IsThere(s, e, p)
    ensures Distinct(Found(s, e)) && |Found(s, e)| <= 2000
  {
    if e.Connected? || e.Posted? || e.Recorded? || e.Looked? {
      SeenFacts(s.presence, e.now);
    }
  }

  // The record that each report enters.

  lemma ConnectedAsReported(s: State, before: Option<Presence>, e: Event)
    requires e.Connected? && (before.Some? ==> KeyOf(before.value) == KeyOfReport(e))
    ensures var p := ConnectedRecord(before, e.clientId, e.tabId, e.ip, BlockOf(s, e.ip), e.now);
            KeyOf(p) == KeyOfReport(e) && HasReported(s, before, e, p)
  {
  }

  lemma PostedAsReported(s: State, before: Option<Presence>, e: Event)
    requires e.Posted? && (before.Some? ==> KeyOf(before.value) == KeyOfReport(e))
    ensures var p := PostedRecord(before, e.input, BlockOf(s, e.input.effectiveIp), e.now);
            KeyOf(p) == KeyOfReport(e) && HasReported(s, before, e, p)
  {
  }

  lemma ActiveAsReported(s: State, before: Presence, e: Event)
    requires e.Recorded? && KeyOf(before) == KeyOfReport(e)
    ensures var p := ActiveRecord(before, e.now); KeyOf(p) == KeyOfReport(e) && HasReported(s, Some(before), e, p)
  {
  }

  lemma DeliveredAsReported(s: State, before: Presence, e: Event)
    requires e.Delivered? && KeyOf(before) == KeyOfReport(e)
    ensures var p := DeliveredRecord(before, e.now); KeyOf(p) == KeyOfReport(e) && HasReported(s, Some(before), e, p)
  {
  }

  lemma DisconnectedAsReported(s: State, before: Presence, e: Event)
    requires e.Disconnected? && KeyOf(before) == KeyOfReport(e)
    ensures var p := DisconnectedRecord(before, e.ip, BlockOf(s, Or(e.ip, before.effectiveIp)), e.now);
            KeyOf(p) == KeyOfReport(e) && HasReported(s, Some(before), e, p)
  {
  }

  /** Every report but of a client that is not there enters a record that says what was
      reported, and leaves the others as they are. */
  lemma ReportIsRecorded(s: State, e: Event)
    requires Inv(s) && IsReport(e)
    ensures var q, after := Found(s, e), Apply(s, e).presence;
            var before := Get(q, KeyOfReport(e));
            if before.None? && !e.Connected? && !e.Posted? then after == q
            else
              exists next :: KeyOf(next) == KeyOfReport(e) && HasReported(s, before, e, next) && IsEntered(q, next, after)
  {
    hide IsEntered, Put, EnforceLimit, HasReported, KeyOf, Inv;
    FoundAreThere(s, e);
    var q := Found(s, e);
    var key := KeyOfReport(e);
    var before := Get(q, key);
    match e
    case Connected(clientId, tabId, ip, now) =>
      ConnectedAsReported(s, before, e);
      PutEnters(Prune(s, now), ConnectedRecord(before, clientId, tabId, ip, BlockOf(s, ip), now));
    case Posted(i, now) =>
      PostedAsReported(s, before, e);
      PutEnters(Prune(s, now), PostedRecord(before, i, BlockOf(s, i.effectiveIp), now));
    case Recorded(event, now) =>
      if before.Some? {
        ActiveAsReported(s, before.value, e);
        PutEnters(Prune(s, now), ActiveRecord(before.value, now));
      }
    case Delivered(_, _, now) =>
      if before.Some? {
        DeliveredAsReported(s, before.value, e);
        PutEnters(s, DeliveredRecord(before.value, now));
      }
    case Disconnected(_, _, ip, now) =>
      if before.Some? {
        DisconnectedAsReported(s, before.value, e);
        PutEnters(s, DisconnectedRecord(before.value, ip, BlockOf(s, Or(ip, before.value.effectiveIp)), now));
      }
  }

  // ---- forgetting ----

  /** A look forgets exactly the clients that were not seen for ten minutes, with what is kept
      for them, and keeps what is kept for the others. */
  lemma LookForgets(s: State, now: int, key: Key)
    requires Inv(s)
    ensures var t := Apply(s, Looked(now));
            && (forall p :: p in t.presence <==> p in s.presence && !IsForgotten(p, now))
            && EventsOf(t, key) == (if key in Keys(t.presence) then EventsOf(s, key) else [])
            && CommandsOf(t, key) == (if key in Keys(t.presence) then CommandsOf(s, key) else [])
            && t.blockedIps == s.blockedIps
  {
    hide Distinct, Marked, Bounded, KeyOf, Keys, Seen, IsForgotten, TooOld;
    SeenFacts(s.presence, now);
    forall p ensures TooOld(p, now) <==> IsForgotten(p, now) {
      TooOldIsForgotten(p, now);
    }
  }

  lemma TooOldIsForgotten(p: Presence, now: int)
    ensures TooOld(p, now) <==> IsForgotten(p, now)
  {
  }

  /** The listing shows every client as it is kept, but with the status of the moment. */
  lemma {:induction false} ListingShowsStatus(q: seq<Presence>, now: int, i: nat)
    requires i < |q|
    ensures |Listed(q, now)| == |q|
    ensures var r := Listed(q, now)[i]; r == q[i].(status := r.status) && HasStatus(r, now)
  {
    ListedLength(q, now);
    if i > 0 {
      ListingShowsStatus(q[1..], now, i - 1);
    }
  }

  // ---- acknowledging ----

  /** Where the commands that stay are in the queue. */
  function Places(q: seq<Command>, ids: set<string>): (at: seq<nat>)
    ensures forall k :: 0 <= k < |at| ==> at[k] < |q|
  {
    if |q| == 0 then []
    else
      var n := |q| - 1;
      Places(q[..n], ids) + (if q[n].id in ids then [] else [n])
  }

  function Kept(c: Command, ids: set<string>): seq<Command> { if c.id in ids then [] else [c] }

  lemma UnackedHead(q: seq<Command>, ids: set<string>)
    requires |q| > 0
    ensures Unacked(q, ids) == Kept(q[0], ids) + Unacked(q[1..], ids)
  {
  }

  lemma {:induction false} UnackedMore(q: seq<Command>, c: Command, ids: set<string>)
    ensures Unacked(q + [c], ids) == Unacked(q, ids) + Kept(c, ids)
  {
    hide Unacked, Kept;
    if |q| == 0 {
      assert q + [c] == [c] && [c][1..] == q;
      UnackedHead([c], ids);
      NothingUnacked(ids);
    } else {
      assert (q + [c])[1..] == q[1..] + [c];
      UnackedHead(q + [c], ids);
      UnackedHead(q, ids);
      UnackedMore(q[1..], c, ids);
    }
  }

  lemma NothingUnacked(ids: set<string>)
    ensures Unacked([], ids) == []
  {
  }

  /** `at` are the places in `q` of the commands in `r`, which are those not in `ids`. */
  ghost predicate ArePlaces(at: seq<nat>, r: seq<Command>, q: seq<Command>, ids: set<string>) {
    && |r| == |at|
    && (forall k :: 0 <= k < |at| ==> at[k] < |q| && r[k] == q[at[k]] && r[k].id !in ids)
    && (forall j, k :: 0 <= j < k < |at| ==> at[j] < at[k])
    && (forall i :: 0 <= i < |q| && q[i].id !in ids ==> i in at)
  }

  lemma PlacesMore(at: seq<nat>, r: seq<Command>, q: seq<Command>, ids: set<string>, c: Command)
    requires ArePlaces(at, r, q, ids)
    ensures c.id in ids ==> ArePlaces(at, r, q + [c], ids)
    ensures c.id !in ids ==> ArePlaces(at + [|q|], r + [c], q + [c], ids)
  {
    assert forall i :: i in at ==> i in at + [|q|];
    assert |q| in at + [|q|];
  }

  lemma {:induction false} PlacesOfUnacked(q: seq<Command>, ids: set<string>)
    ensures ArePlaces(Places(q, ids), Unacked(q, ids), q, ids)
  {
    hide Unacked, ArePlaces;
    if |q| == 0 {
      NothingUnacked(ids);
      assert q == [];
      NoPlaces(ids);
    } else {
      var n := |q| - 1;
      var front, last := q[..n], q[n];
      PlacesOfUnacked(front, ids);
      assert q == front + [last];
      UnackedMore(front, last, ids);
      PlacesMore(Places(front, ids), Unacked(front, ids), front, ids, last);
      assert last.id in ids ==> Unacked(front, ids) + [] == Unacked(front, ids) && Places(front, ids) + [] == Places(front, ids);
    }
  }

  lemma NoPlaces(ids: set<string>)
    ensures ArePlaces([], [], [], ids)
  {
  }

  predicate IsNamed(id: string, ids: seq<string>) {
    id != "" && exists k :: 0 <= k < |ids| && Trim(ids[k]) == id
  }

  /** `r` is what the texts `ids` leave of the queue `q`: the commands that none of them names,
      spaces aside, in their order. */
  ghost predicate IsLeft(r: seq<Command>, q: seq<Command>, ids: seq<string>) {
    exists at: seq<nat> ::
      && |at| == |r|
      && (forall j, k :: 0 <= j < k < |at| ==> at[j] < at[k])
      && (forall k :: 0 <= k < |at| ==> at[k] < |q| && r[k] == q[at[k]])
      && (forall i :: 0 <= i < |q| ==> (i in at <==> !IsNamed(q[i].id, ids)))
  }

  lemma NamedByTexts(id: string, ids: seq<string>)
    ensures id in TrimmedIds(ids) <==> IsNamed(id, ids)
  {
    if id in TrimmedIds(ids) {
      var raw :| raw in ids && Trim(raw) != "" && Trim(raw) == id;
      var k :| 0 <= k < |ids| && ids[k] == raw;
      assert Trim(ids[k]) == id;
    }
    if IsNamed(id, ids) {
      var k :| 0 <= k < |ids| && Trim(ids[k]) == id;
      assert ids[k] in ids;
    }
  }

  lemma UnackedIsLeft(q: seq<Command>, ids: seq<string>)
    ensures IsLeft(Unacked(q, TrimmedIds(ids)), q, ids)
  {
    hide TrimmedIds, IsNamed, Unacked, Places;
    var at, r := Places(q, TrimmedIds(ids)), Unacked(q, TrimmedIds(ids));
    PlacesOfUnacked(q, TrimmedIds(ids));
    forall i | 0 <= i < |q| ensures i in at <==> !IsNamed(q[i].id, ids) {
      NamedByTexts(q[i].id, ids);
      if i in at {
        var k :| 0 <= k < |at| && at[k] == i;
        assert r[k] == q[i];
      }
    }
  }

  lemma NobodyIsNamed(q: seq<Command>, ids: seq<string>)
    requires TrimmedIds(ids) == {}
    ensures IsLeft(q, q, ids)
  {
    hide TrimmedIds, IsNamed;
    var at := seq(|q|, (i: nat) => i);
    forall i | 0 <= i < |q| ensures i in at && !IsNamed(q[i].id, ids) {
      NamedByTexts(q[i].id, ids);
      assert at[i] == i;
    }
  }

  /** An acknowledgement takes exactly the named commands out of exactly its client's queue. */
  lemma AckTakesTheNamed(s: State, clientId: string, tabId: string, ids: seq<string>, key: Key)
    ensures var t := Apply(s, Acked(clientId, tabId, ids));
            && (if key == BuildPresenceKey(clientId, tabId) then IsLeft(CommandsOf(t, key), CommandsOf(s, key), ids)
                else CommandsOf(t, key) == CommandsOf(s, key))
            && t == s.(commands := t.commands)
  {
    hide TrimmedIds, IsLeft, Unacked, BuildPresenceKey;
    UnackedIsLeft(CommandsOf(s, key), ids);
    if TrimmedIds(ids) == {} {
      NobodyIsNamed(CommandsOf(s, key), ids);
    }
  }

  // ---- texts ----

  /** Spaces around an address or around the names of a client make no difference to whether
      it is blocked and to what a block says. */
  lemma SpacesDoNotMatter(s: State, clientId: string, tabId: string, ip: string, before: string, after: string)
    requires forall c :: c in before + after ==> IsSpace(c)
    ensures GetBlockedStatus(s, before + clientId + after, before + tabId + after, Some(before + ip + after))
            == GetBlockedStatus(s, clientId, tabId, Some(ip))
  {
    hide Trim, FindClient;
    TrimIgnoresSpaces(before, clientId, after);
    TrimIgnoresSpaces(before, tabId, after);
    TrimIgnoresSpaces(before, ip, after);
  }
}
