/** The demo site's fixed-window rate limit: per scope and address, so many requests a
    minute, with expired windows swept out now and then. */
module DemoRateLimit {
  import opened Options

  datatype Scope = EditingPresence | Mutation

  datatype Key = Key(scope: Scope, ip: string)

  datatype Bucket = Bucket(count: nat, resetAt: int)

  type Buckets = map<Key, Bucket>

  /** A refusal says in how many seconds to try again. */
  datatype Response = Allowed(remaining: nat, resetAt: int) | Refused(retryAfterSec: int, resetAt: int)

  datatype Request = Request(key: Key, now: int)

  const WINDOW_MS: int := 60000
  const CLEANUP_THRESHOLD: nat := 1000

  function MaxPerWindow(scope: Scope): nat {
    match scope case EditingPresence => 300 case Mutation => 30
  }

  function LazyCleanup(m: Buckets, now: int): Buckets {
    if |m| < CLEANUP_THRESHOLD then m else map k | k in m && !(m[k].resetAt <= now) :: m[k]
  }

  /** The bucket of a window that is still open. */
  function Live(m: Buckets, key: Key, now: int): Option<Bucket> {
    if key in m && m[key].resetAt > now then Some(m[key]) else None
  }

  /** The bucket after one more request. */
  function Counted(m: Buckets, r: Request): Bucket {
    match Live(m, r.key, r.now)
    case Some(b) => b.(count := b.count + 1)
    case None => Bucket(1, r.now + WINDOW_MS)
  }

  function CeilDiv(a: int, b: int): int
    requires b > 0
  {
    -((-a) / b)
  }

  function Respond(b: Bucket, max: nat, now: int): Response {
    if b.count > max then
      var seconds := CeilDiv(b.resetAt - now, 1000);
      Refused(if seconds > 1 then seconds else 1, b.resetAt)
    else Allowed(max - b.count, b.resetAt)
  }

  datatype Step = Step(buckets: Buckets, response: Response)

  /** One request, without the sweep. */
  function Serve(m: Buckets, r: Request): Step {
    Step(m[r.key := Counted(m, r)], Respond(Counted(m, r), MaxPerWindow(r.key.scope), r.now))
  }

  function Limit(m: Buckets, r: Request): Step {
    Serve(LazyCleanup(m, r.now), r)
  }

  // ---- the limiter object ----

  class DemoRateLimiter {
    var buckets: Buckets

    constructor ()
      ensures buckets == map[]
    {
      buckets := map[];
    }

    method Sweep(now: int)
      modifies this
      ensures buckets == LazyCleanup(old(buckets), now)
    {
      if |buckets| < CLEANUP_THRESHOLD {
        return;
      }
      var todo := buckets.Keys;
      ghost var all := buckets;
      while todo != {}
        invariant todo <= all.Keys
        invariant buckets == map k | k in all && (k in todo || !(all[k].resetAt <= now)) :: all[k]
        decreases |todo|
      {
        var key :| key in todo;
        if buckets[key].resetAt <= now {
          buckets := buckets - {key};
        }
        todo := todo - {key};
      }
    }

    method Handle(r: Request) returns (response: Response)
      modifies this
      ensures Step(buckets, response) == Limit(old(buckets), r)
    {
      Sweep(r.now);
      var bucket := if r.key in buckets then buckets[r.key] else Bucket(0, r.now);
      if r.key !in buckets || bucket.resetAt <= r.now {
        bucket := Bucket(0, r.now + WINDOW_MS);
      }
      bucket := bucket.(count := bucket.count + 1);
      buckets := buckets[r.key := bucket];
      var max := MaxPerWindow(r.key.scope);
      if bucket.count > max {
        var seconds := CeilDiv(bucket.resetAt - r.now, 1000);
        return Refused(if seconds > 1 then seconds else 1, bucket.resetAt);
      }
      response := Allowed(max - bucket.count, bucket.resetAt);
    }
  }

  // ---- runs ----

  ghost predicate Monotone(rs: seq<Request>, from: int) {
    |rs| > 0 ==> from <= rs[0].now && Monotone(rs[1..], rs[0].now)
  }

  function Responses(m: Buckets, rs: seq<Request>): seq<Response>
    decreases |rs|
  {
    if |rs| == 0 then [] else [Limit(m, rs[0]).response] + Responses(Limit(m, rs[0]).buckets, rs[1..])
  }

  function ResponsesUnswept(m: Buckets, rs: seq<Request>): seq<Response>
    decreases |rs|
  {
    if |rs| == 0 then [] else [Serve(m, rs[0]).response] + ResponsesUnswept(Serve(m, rs[0]).buckets, rs[1..])
  }

  /** The same windows are open from now on. */
  ghost predicate SameLive(m: Buckets, n: Buckets, now: int) {
    forall k :: Live(m, k, now) == Live(n, k, now)
  }

  lemma SweepKeepsLive(m: Buckets, now: int)
    ensures SameLive(LazyCleanup(m, now), m, now)
  {}

  lemma LaterStaysSame(m: Buckets, n: Buckets, now: int, later: int)
    requires SameLive(m, n, now) && now <= later
    ensures SameLive(m, n, later)
  {
    forall k ensures Live(m, k, later) == Live(n, k, later) {
      assert Live(m, k, now) == Live(n, k, now);
    }
  }

  /** Sweeping never changes an answer, in any run whose clock does not go back. */
  lemma {:induction false} SweepIsInvisible(m: Buckets, n: Buckets, rs: seq<Request>, from: int)
    requires SameLive(m, n, from) && Monotone(rs, from)
    ensures Responses(m, rs) == ResponsesUnswept(n, rs)
    decreases |rs|
  {
    if |rs| > 0 {
      var r := rs[0];
      LaterStaysSame(m, n, from, r.now);
      SweepKeepsLive(m, r.now);
      var swept := LazyCleanup(m, r.now);
      assert Live(m, r.key, r.now) == Live(n, r.key, r.now) == Live(swept, r.key, r.now);
      forall k ensures Live(Serve(swept, r).buckets, k, r.now) == Live(Serve(n, r).buckets, k, r.now) {
        assert Live(swept, k, r.now) == Live(m, k, r.now) == Live(n, k, r.now);
      }
      SweepIsInvisible(Limit(m, r).buckets, Serve(n, r).buckets, rs[1..], r.now);
    }
  }

  // ---- how much is let through ----

  /** Requests of a key that are let through up to `until`. */
  function Admitted(m: Buckets, rs: seq<Request>, key: Key, until: int): nat
    decreases |rs|
  {
    if |rs| == 0 then 0
    else
      (if rs[0].key == key && rs[0].now <= until && Limit(m, rs[0]).response.Allowed? then 1 else 0)
      + Admitted(Limit(m, rs[0]).buckets, rs[1..], key, until)
  }

  /** How many windows can still begin from `from` to `until`. */
  function Windows(from: int, until: int): nat {
    if from > until then 0 else (until - from) / WINDOW_MS + 1
  }

  function Left(max: nat, count: nat): nat { if count < max then max - count else 0 }

  function Room(open: Option<Bucket>, max: nat, now: int, until: int): nat {
    match open
    case Some(b) => Left(max, b.count) + max * Windows(b.resetAt, until)
    case None => max * Windows(now, until)
  }

  lemma FewerWindows(max: nat, from: int, later: int, until: int)
    requires from <= later
    ensures max * Windows(later, until) <= max * Windows(from, until)
  {
    assert Windows(later, until) <= Windows(from, until);
    MulGrows(max, Windows(later, until), Windows(from, until));
  }

  lemma MulGrows(max: nat, a: nat, b: nat)
    requires a <= b
    ensures max * a <= max * b
  {
    assert max * b == max * a + max * (b - a);
  }

  lemma NextWindow(max: nat, now: int, until: int)
    requires now <= until
    ensures max * Windows(now, until) == max + max * Windows(now + WINDOW_MS, until)
  {
    assert Windows(now, until) == 1 + Windows(now + WINDOW_MS, until);
  }

  lemma RoomShrinks(m: Buckets, key: Key, max: nat, now: int, later: int, until: int)
    requires now <= later
    ensures Room(Live(m, key, later), max, later, until) <= Room(Live(m, key, now), max, now, until)
  {
    FewerWindows(max, now, later, until);
    if key in m {
      if m[key].resetAt <= later {
        FewerWindows(max, m[key].resetAt, later, until);
      }
    }
  }

  lemma ServeUsesRoom(m: Buckets, r: Request, until: int)
    requires r.now <= until
    ensures var max, s := MaxPerWindow(r.key.scope), Limit(m, r);
            Room(Live(s.buckets, r.key, r.now), max, r.now, until) + (if s.response.Allowed? then 1 else 0)
            <= Room(Live(m, r.key, r.now), max, r.now, until)
  {
    SweepKeepsLive(m, r.now);
    var max := MaxPerWindow(r.key.scope);
    assert Live(LazyCleanup(m, r.now), r.key, r.now) == Live(m, r.key, r.now);
    NextWindow(max, r.now, until);
  }

  lemma {:induction false} AdmittedFitsRoom(m: Buckets, rs: seq<Request>, key: Key, from: int, until: int)
    requires Monotone(rs, from)
    ensures Admitted(m, rs, key, until) <= Room(Live(m, key, from), MaxPerWindow(key.scope), from, until)
    decreases |rs|
  {
    if |rs| > 0 {
      var r, max := rs[0], MaxPerWindow(key.scope);
      var next := Limit(m, r).buckets;
      RoomShrinks(m, key, max, from, r.now, until);
      AdmittedFitsRoom(next, rs[1..], key, r.now, until);
      if r.key == key && r.now <= until {
        ServeUsesRoom(m, r, until);
      } else if r.key == key {
        LateIsNothing(next, rs[1..], key, r.now, until);
      } else {
        SweepKeepsLive(m, r.now);
        assert Live(next, key, r.now) == Live(LazyCleanup(m, r.now), key, r.now) == Live(m, key, r.now);
      }
    }
  }

  lemma {:induction false} LateIsNothing(m: Buckets, rs: seq<Request>, key: Key, from: int, until: int)
    requires Monotone(rs, from) && until < from
    ensures Admitted(m, rs, key, until) == 0
    decreases |rs|
  {
    if |rs| > 0 {
      LateIsNothing(Limit(m, rs[0]).buckets, rs[1..], key, rs[0].now, until);
    }
  }

  /** Over any stretch of time, whatever went before, a key gets through at most its limit
      for each window's length begun, and once more. */
  lemma AdmittedInInterval(m: Buckets, rs: seq<Request>, key: Key, from: int, until: int)
    requires Monotone(rs, from) && from <= until
    ensures Admitted(m, rs, key, until) <= MaxPerWindow(key.scope) * (CeilDiv(until - from, WINDOW_MS) + 1)
  {
    var max := MaxPerWindow(key.scope);
    AdmittedFitsRoom(m, rs, key, from, until);
    var most := CeilDiv(until - from, WINDOW_MS);
    match Live(m, key, from)
    case Some(b) =>
      assert Windows(b.resetAt, until) <= most;
      MulGrows(max, Windows(b.resetAt, until), most);
    case None =>
      assert Windows(from, until) <= most + 1;
      MulGrows(max, Windows(from, until), most + 1);
  }

  /** Twice the limit in any stretch of one window's length. */
  lemma TwiceTheLimit(m: Buckets, rs: seq<Request>, key: Key, from: int)
    requires Monotone(rs, from)
    ensures Admitted(m, rs, key, from + WINDOW_MS) <= 2 * MaxPerWindow(key.scope)
  {
    AdmittedInInterval(m, rs, key, from, from + WINDOW_MS);
  }

  /** The wait that a refusal names is enough: that many seconds later, without another
      request of the key in between, it is let through. */
  lemma RetryAfterIsEnough(m: Buckets, n: Buckets, r: Request, again: Request)
    requires Limit(m, r).response.Refused? && again.key == r.key
    requires again.now >= r.now + 1000 * Limit(m, r).response.retryAfterSec
    requires r.key in n && n[r.key] == Limit(m, r).buckets[r.key]
    ensures Limit(n, again).response == Allowed(MaxPerWindow(r.key.scope) - 1, again.now + WINDOW_MS)
  {
    SweepKeepsLive(n, again.now);
    assert Live(LazyCleanup(n, again.now), r.key, again.now) == Live(n, r.key, again.now);
  }

  // ---- what is answered within one window ----

  function KeyCount(rs: seq<Request>, key: Key): nat {
    if |rs| == 0 then 0 else (if rs[0].key == key then 1 else 0) + KeyCount(rs[1..], key)
  }

  /** The answer to the `n`-th request of a window that ends at `resetAt`: what is left of
      300 presence edits or 30 mutations, and after that how long to wait. */
  ghost predicate AnswersNth(response: Response, scope: Scope, n: nat, now: int, resetAt: int) {
    var max := if scope == EditingPresence then 300 else 30;
    if n <= max then response == Allowed(max - n, resetAt)
    else
      && response.Refused? && response.resetAt == resetAt && response.retryAfterSec >= 1
      && resetAt - now <= 1000 * response.retryAfterSec
      && (response.retryAfterSec == 1 || 1000 * (response.retryAfterSec - 1) < resetAt - now)
  }

  lemma RespondAnswers(b: Bucket, scope: Scope, now: int)
    requires now < b.resetAt
    ensures AnswersNth(Respond(b, MaxPerWindow(scope), now), scope, b.count, now, b.resetAt)
  {
  }

  lemma {:induction false} CountsOn(m: Buckets, rs: seq<Request>, key: Key, from: int, b: Bucket, i: nat)
    requires Monotone(rs, from) && Live(m, key, from) == Some(b)
    requires i < |rs| && rs[i].key == key && rs[i].now < b.resetAt
    ensures |ResponsesUnswept(m, rs)| == |rs|
    ensures AnswersNth(ResponsesUnswept(m, rs)[i], key.scope, b.count + KeyCount(rs[..i], key) + 1, rs[i].now, b.resetAt)
    decreases |rs|
  {
    var r := rs[0];
    SameLength(m, rs);
    MonotoneTo(rs, from, i);
    if i == 0 {
      RespondAnswers(Counted(m, r), key.scope, r.now);
    } else {
      var next := Serve(m, r).buckets;
      var after := if r.key == key then b.(count := b.count + 1) else b;
      assert rs[..i][0] == r && rs[..i][1..] == rs[1..][..i - 1];
      assert Live(next, key, r.now) == Some(after);
      CountsOn(next, rs[1..], key, r.now, after, i - 1);
    }
  }

  lemma {:induction false} SameLength(m: Buckets, rs: seq<Request>)
    ensures |ResponsesUnswept(m, rs)| == |rs|
    decreases |rs|
  {
    if |rs| > 0 {
      SameLength(Serve(m, rs[0]).buckets, rs[1..]);
    }
  }

  lemma {:induction false} MonotoneTo(rs: seq<Request>, from: int, i: nat)
    requires Monotone(rs, from) && i < |rs|
    ensures from <= rs[0].now <= rs[i].now
    decreases |rs|
  {
    if i > 0 {
      MonotoneTo(rs[1..], rs[0].now, i - 1);
    }
  }

  /** A window of one minute opens with the first request of its key; from then on, whatever
      other keys ask and whatever is swept in between, each request of the key is answered by
      its number in the window. */
  lemma CountsDown(m: Buckets, rs: seq<Request>, i: nat)
    requires i < |rs| && Monotone(rs, rs[0].now) && Live(m, rs[0].key, rs[0].now).None?
    requires rs[i].key == rs[0].key && rs[i].now < rs[0].now + 60000
    ensures |Responses(m, rs)| == |rs|
    ensures AnswersNth(Responses(m, rs)[i], rs[0].key.scope, KeyCount(rs[..i], rs[0].key) + 1, rs[i].now, rs[0].now + 60000)
  {
    var r := rs[0];
    assert forall k :: Live(m, k, r.now) == Live(m, k, r.now);
    SweepIsInvisible(m, m, rs, r.now);
    SameLength(m, rs);
    if i == 0 {
      RespondAnswers(Counted(m, r), r.key.scope, r.now);
    } else {
      var next := Serve(m, r).buckets;
      assert rs[..i][0] == r && rs[..i][1..] == rs[1..][..i - 1];
      assert Live(next, r.key, r.now) == Some(Bucket(1, r.now + 60000));
      CountsOn(next, rs[1..], r.key, r.now, Bucket(1, r.now + 60000), i - 1);
    }
  }

  // ---- the bound is reached ----

  /** `n` requests at one instant, and then the rest. */
  function BurstThen(key: Key, now: int, n: nat, rest: seq<Request>): seq<Request> {
    if n == 0 then rest else [Request(key, now)] + BurstThen(key, now, n - 1, rest)
  }

  lemma {:induction false} BurstIsAdmitted(m: Buckets, key: Key, now: int, n: nat, rest: seq<Request>, until: int, b: Bucket) returns (after: Buckets)
    requires now <= until && Live(m, key, now) == Some(b) && b.count + n <= MaxPerWindow(key.scope)
    ensures Admitted(m, BurstThen(key, now, n, rest), key, until) == n + Admitted(after, rest, key, until)
    ensures Live(after, key, now) == Some(b.(count := b.count + n))
    decreases n
  {
    after := m;
    if n > 0 {
      var r := Request(key, now);
      SweepKeepsLive(m, now);
      assert Live(LazyCleanup(m, now), key, now) == Live(m, key, now);
      var next := Limit(m, r).buckets;
      var all := BurstThen(key, now, n, rest);
      assert all[1..] == BurstThen(key, now, n - 1, rest);
      after := BurstIsAdmitted(next, key, now, n - 1, rest, until, b.(count := b.count + 1));
    }
  }

  /** A key without an open window gets its whole limit through at once. */
  lemma FreshBurstIsAdmitted(m: Buckets, key: Key, now: int, rest: seq<Request>, until: int) returns (after: Buckets)
    requires now <= until && Live(m, key, now).None?
    ensures Admitted(m, BurstThen(key, now, MaxPerWindow(key.scope), rest), key, until)
            == MaxPerWindow(key.scope) + Admitted(after, rest, key, until)
    ensures Live(after, key, now + WINDOW_MS).None?
  {
    var r, max := Request(key, now), MaxPerWindow(key.scope);
    SweepKeepsLive(m, now);
    assert Live(LazyCleanup(m, now), key, now) == Live(m, key, now);
    var all := BurstThen(key, now, max, rest);
    assert all[1..] == BurstThen(key, now, max - 1, rest);
    after := BurstIsAdmitted(Limit(m, r).buckets, key, now, max - 1, rest, until, Bucket(1, now + WINDOW_MS));
  }

  lemma {:induction false} BurstIsMonotone(key: Key, now: int, n: nat, rest: seq<Request>, from: int)
    requires from <= now && Monotone(rest, now)
    ensures Monotone(BurstThen(key, now, n, rest), from)
    decreases n
  {
    if n > 0 {
      var all := BurstThen(key, now, n, rest);
      BurstIsMonotone(key, now, n - 1, rest, now);
      assert all[1..] == BurstThen(key, now, n - 1, rest);
    }
  }

  /** Some run lets twice the limit through in one window's length. */
  lemma TwiceTheLimitIsReached(key: Key)
    ensures exists rs :: Monotone(rs, 0) && Admitted(map[], rs, key, WINDOW_MS) == 2 * MaxPerWindow(key.scope)
  {
    var second := BurstThen(key, WINDOW_MS, MaxPerWindow(key.scope), []);
    var after := FreshBurstIsAdmitted(map[], key, 0, second, WINDOW_MS);
    var end := FreshBurstIsAdmitted(after, key, WINDOW_MS, [], WINDOW_MS);
    assert Admitted(end, [], key, WINDOW_MS) == 0;
    var rs := BurstThen(key, 0, MaxPerWindow(key.scope), second);
    BurstIsMonotone(key, WINDOW_MS, MaxPerWindow(key.scope), [], 0);
    BurstIsMonotone(key, 0, MaxPerWindow(key.scope), second, 0);
    assert Monotone(rs, 0) && Admitted(map[], rs, key, WINDOW_MS) == 2 * MaxPerWindow(key.scope);
  }
}
