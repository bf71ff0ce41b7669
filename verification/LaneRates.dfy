/** Lanes and limiters together.  A request asks its limiters while it runs in its lane, so
    the lanes' limits bound how many can wait for a global token with a class token in hand,
    and with that by how much a class can exceed its own bound. */
module LaneRates {
  import opened Options
  import opened TokenBucket
  import opened RateBounds
  import opened RateComposition
  import CB = CircuitBreaker
  import L = ConcurrencyLane
  import LaneSafety

  /** One lane's limit and what has happened in it so far. */
  datatype History = History(settings: CB.Settings, max: nat, events: seq<L.Event>)

  datatype Lanes = Lanes(user: History, mutation: History, sync: History, background: History, write: History)

  function HistoryOf(lanes: Lanes, lane: Lane): History {
    match lane
    case UserLane => lanes.user
    case MutationLane => lanes.mutation
    case SyncLane => lanes.sync
    case BackgroundLane => lanes.background
    case WriteLane => lanes.write
  }

  function Running(h: History): set<nat> {
    L.Run(h.settings, h.max, L.IDLE, h.events).breaker.running
  }

  /** The lane's limit, and once more for each request that overtook a woken waiter. */
  function Slots(h: History): nat {
    h.max + LaneSafety.Overtakings(h.settings, h.max, L.IDLE, h.events)
  }

  function ClassSlots(lanes: Lanes, k: RateClass): nat {
    match k
    case Foreground => Slots(lanes.user) + Slots(lanes.write)
    case Mutation => Slots(lanes.mutation)
    case Background => Slots(lanes.sync) + Slots(lanes.background)
  }

  ghost predicate FeasibleLanes(lanes: Lanes) {
    forall lane {:trigger HistoryOf(lanes, lane)} ::
      var h := HistoryOf(lanes, lane); L.Feasible(h.settings, h.max, L.IDLE, h.events)
  }

  /** Whoever waits for a global token runs in its lane, and waits once. */
  ghost predicate WaitsInItsLane(lanes: Lanes, q: seq<Owner>) {
    && (forall i {:trigger q[i]} :: 0 <= i < |q| ==> q[i].id in Running(HistoryOf(lanes, q[i].lane)))
    && (forall i, j :: 0 <= i < j < |q| ==> q[i] != q[j])
  }

  function LaneCount(q: seq<Owner>, lane: Lane): nat {
    if |q| == 0 then 0 else (if q[0].lane == lane then 1 else 0) + LaneCount(q[1..], lane)
  }

  lemma {:induction false} CountByLane(q: seq<Owner>, k: RateClass)
    ensures Count(q, k)
            == match k
               case Foreground => LaneCount(q, UserLane) + LaneCount(q, WriteLane)
               case Mutation => LaneCount(q, MutationLane)
               case Background => LaneCount(q, SyncLane) + LaneCount(q, BackgroundLane)
  {
    if |q| > 0 {
      CountByLane(q[1..], k);
    }
  }

  /** Different owners of one lane have different numbers, so there are no more of them than
      numbers to choose from. */
  lemma {:induction false} LaneCountIsLimited(q: seq<Owner>, lane: Lane, ids: set<nat>)
    requires forall i :: 0 <= i < |q| && q[i].lane == lane ==> q[i].id in ids
    requires forall i, j :: 0 <= i < j < |q| ==> q[i] != q[j]
    ensures LaneCount(q, lane) <= |ids|
  {
    if |q| > 0 {
      var rest := q[1..];
      if q[0].lane == lane {
        forall i | 0 <= i < |rest| && rest[i].lane == lane ensures rest[i].id in ids - {q[0].id} {
          assert rest[i] == q[i + 1] && q[i + 1] != q[0];
        }
        LaneCountIsLimited(rest, lane, ids - {q[0].id});
      } else {
        assert forall i :: 0 <= i < |rest| ==> rest[i] == q[i + 1];
        LaneCountIsLimited(rest, lane, ids);
      }
    }
  }

  lemma LaneWaitersAreLimited(lanes: Lanes, q: seq<Owner>, lane: Lane)
    requires FeasibleLanes(lanes) && WaitsInItsLane(lanes, q)
    ensures LaneCount(q, lane) <= Slots(HistoryOf(lanes, lane))
  {
    var h := HistoryOf(lanes, lane);
    LaneCountIsLimited(q, lane, Running(h));
    LaneSafety.RunningIsLimited(h.settings, h.max, h.events);
  }

  /** In a window the class starts at most what its bucket allows and what its lanes have
      slots for, and once more for each request that overtook a woken waiter. */
  lemma ClassStartsWithinLanes(l: Limits, sys: System, events: seq<SystemEvent>, k: RateClass, s: real, t: real, lanes: Lanes)
    requires ValidLimits(l) && SystemOk(l, sys) && ClassesOk(sys) && s <= t && Readings(events, s, t)
    requires FeasibleLanes(lanes) && WaitsInItsLane(lanes, Owners(sys.global.waiters))
    ensures Waiting(sys, k) <= ClassSlots(lanes, k)
    ensures Count(RunAll(l, sys, events).started, k) as real
            <= ClassConfig(l, k).capacity + Gain(ClassConfig(l, k), t - s) + ClassSlots(lanes, k) as real
  {
    hide RunAll, Gain, Slots, LaneCount, Count, WaitsInItsLane, FeasibleLanes, SystemOk, ClassesOk, Readings;
    var q := Owners(sys.global.waiters);
    ClassStartBound(l, sys, events, k, s, t);
    CountByLane(q, k);
    LaneWaitersAreLimited(lanes, q, UserLane);
    LaneWaitersAreLimited(lanes, q, MutationLane);
    LaneWaitersAreLimited(lanes, q, SyncLane);
    LaneWaitersAreLimited(lanes, q, BackgroundLane);
    LaneWaitersAreLimited(lanes, q, WriteLane);
  }
}
