/** The middleware in front of the API that turns requests from blocked addresses away.  It
    asks for the reason of a block, not for the block, and so lets an address through that
    was blocked without one. */
module BlockGate {
  import opened Options
  import opened PresenceStore
  import opened PresenceSafety

  datatype Answer = Passed | Refused(message: string)

  predicate HasPrefix(path: string, prefix: string) { prefix <= path }

  predicate IsExempt(path: string) {
    || HasPrefix(path, "/api/debug/clients")
    || HasPrefix(path, "/api/system-notice")
    || HasPrefix(path, "/api/health")
  }

  predicate IsGuarded(path: string) {
    HasPrefix(path, "/api/forms") || HasPrefix(path, "/api/downtime") || HasPrefix(path, "/api/events")
  }

  function GetBlockedReasonByIp(s: State, ip: Option<string>): Option<string> {
    OrElse(BlockOf(s, ip), None)
  }

  function Gate(s: State, path: string, ip: Option<string>): Answer {
    if IsExempt(path) then Passed
    else
      match GetBlockedReasonByIp(s, ip)
      case None => Passed
      case Some(reason) => if reason == "" then Passed else if IsGuarded(path) then Refused(reason) else Passed
  }

  lemma GuardedIsNotExempt(path: string)
    requires IsGuarded(path)
    ensures !IsExempt(path)
  {
    var f, d, e := "/api/forms", "/api/downtime", "/api/events";
    assert path[5] == f[5] || path[5] == d[5] || path[5] == e[5];
    assert path[6] == f[6] || path[6] == d[6] || path[6] == e[6];
  }

  // ---- the last word on an address ----

  /** How an address is blocked: not at all, or with the reason it was given. */
  function BlockAt(s: State, key: string): Option<Option<string>> {
    if key in s.blockedIps then Some(s.blockedIps[key]) else None
  }

  /** A command that blocks or unblocks the address by way of a client present there. */
  predicate Names(s: State, e: Event, key: string) {
    && e.Commanded?
    && (e.command.kind == SetBlocked || e.command.kind == ClearBlocked)
    && key in IpsOf(s, e.command, e.now)
  }

  function WordOf(c: Command): Option<Option<string>> {
    if c.kind == SetBlocked then Some(c.reason) else None
  }

  /** What the last command of a run that names the address says of it. */
  function LastWord(s: State, events: seq<Event>, key: string, word: Option<Option<string>>): Option<Option<string>>
    decreases |events|
  {
    if |events| == 0 then word
    else
      LastWord(Apply(s, events[0]), events[1..], key,
               if Names(s, events[0], key) then WordOf(events[0].command) else word)
  }

  lemma WordAfterStep(s: State, e: Event, key: string)
    requires Inv(s)
    ensures BlockAt(Apply(s, e), key) == if Names(s, e, key) then WordOf(e.command) else BlockAt(s, key)
  {
    hide Apply, IpsOf, Inv;
    StepKeepsInv(s, e);
  }

  /** Nothing but a command that names an address changes whether and why it is blocked. */
  lemma {:induction false} BlockIsTheLastWord(s: State, events: seq<Event>, key: string)
    requires Inv(s)
    ensures BlockAt(Run(s, events), key) == LastWord(s, events, key, BlockAt(s, key))
    decreases |events|
  {
    hide Inv, Apply, Names;
    if |events| > 0 {
      StepKeepsInv(s, events[0]);
      WordAfterStep(s, events[0], key);
      BlockIsTheLastWord(Apply(s, events[0]), events[1..], key);
    }
  }

  /** After any run a request is refused exactly if it asks for a guarded path and the last
      command that named its address blocked it and gave a reason that is not empty; and
      that reason is what the refusal says. */
  lemma RefusedIff(s: State, events: seq<Event>, path: string, ip: Option<string>)
    requires Inv(s)
    ensures Gate(Run(s, events), path, ip).Refused? <==>
              && ("/api/forms" <= path || "/api/downtime" <= path || "/api/events" <= path)
              && NormalizeIp(ip).Some?
              && var word := LastWord(s, events, NormalizeIp(ip).value, BlockAt(s, NormalizeIp(ip).value));
                 word.Some? && word.value.Some? && word.value.value != ""
    ensures var answer := Gate(Run(s, events), path, ip);
            answer.Refused? ==>
              LastWord(s, events, NormalizeIp(ip).value, BlockAt(s, NormalizeIp(ip).value)) == Some(Some(answer.message))
  {
    hide Inv, Run, IsExempt, LastWord;
    if IsGuarded(path) {
      GuardedIsNotExempt(path);
    }
    if NormalizeIp(ip).Some? {
      BlockIsTheLastWord(s, events, NormalizeIp(ip).value);
    }
  }

  /** So a block without a reason lets every request through, although it marks the clients
      of the address and answers the status question with blocked. */
  lemma BlockWithoutReasonLetsThrough(s: State, c: Command, now: int, later: int, path: string, ip: Option<string>)
    requires Inv(s) && c.kind == SetBlocked && (c.reason == None || c.reason == Some(""))
    requires NormalizeIp(ip).Some? && NormalizeIp(ip).value in IpsOf(s, c, now)
    ensures var t := EnqueueCommand(s, c, now, later);
            && Gate(t, path, ip) == Passed
            && forall clientId, tabId :: GetBlockedStatus(t, clientId, tabId, ip).Some?
  {
    hide IpsOf, Inv, IsExempt, IsGuarded;
    EnqueueKeepsInv(s, c, now, later);
  }
}
