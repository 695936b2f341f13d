/**
 * The simulated impatient customer: a registry from conversation id to the
 * repeating timer that injects a sample `user` message on every tick, and the
 * cross-tab listener that cancels timers once an attendant has spoken.
 */
module Simulation {
  import opened Wrappers
  import opened Conversations
  import opened Store

  /** A `setInterval` handle; browsers hand out positive integers. */
  type TimerHandle = n: nat | n > 0 witness 1

  /** An armed repeating timer: its handle and its period in milliseconds. */
  datatype Interval = Interval(handle: TimerHandle, period: nat)

  /** Shortest tick period, in milliseconds. */
  const MinPeriod: nat := 5000
  /** Width of the range the period is drawn from, in milliseconds. */
  const PeriodSpread: nat := 8000

  const SampleClientMessages: seq<string> := [
    "Estou com um problema na minha conta.",
    "quero saber mais informaçao?",
    "tenho duvidas do meu projeto.",
    "Posso falar com um atendente?",
    "que horarios tem."
  ]

  /** The handles of all timers in a registry. */
  function Handles(timers: map<ConvId, Interval>): set<TimerHandle>
  {
    set id | id in timers :: timers[id].handle
  }

  /** No two registry entries share a handle. */
  predicate DistinctHandles(timers: map<ConvId, Interval>)
  {
    forall a, b :: a in timers && b in timers && a != b ==> timers[a].handle != timers[b].handle
  }

  /** Dropping one entry of a registry with distinct handles drops exactly that entry's handle. */
  lemma HandlesWithout(timers: map<ConvId, Interval>, id: ConvId)
    requires DistinctHandles(timers) && id in timers
    ensures Handles(timers - {id}) == Handles(timers) - {timers[id].handle}
  {
    var h := timers[id].handle;
    forall x | x in Handles(timers) - {h}
      ensures x in Handles(timers - {id})
    {
      var other :| other in timers && timers[other].handle == x;
      assert other != id;
      assert (timers - {id})[other] == timers[other];
    }
  }

  class SimulationScheduler {
    /** `simulationTimers`: at most one armed timer per conversation id. */
    var timers: map<ConvId, Interval>
    /** The repeating timers the browser is still firing. */
    var running: set<TimerHandle>

    /** Every running timer is in the registry, once: none is left firing unreachable. */
    ghost predicate Valid()
      reads this
    {
      running == Handles(timers) && DistinctHandles(timers)
    }

    constructor ()
      ensures Valid() && timers == map[] && running == {}
    {
      timers := map[];
      running := {};
    }

    /**
     * `stopSimulation`: cancels and forgets the timer of `id`; does nothing
     * when `id` has none.
     */
    method Stop(id: ConvId)
      requires Valid()
      modifies this
      ensures Valid()
      ensures timers == old(timers) - {id}
      ensures running == if id in old(timers) then old(running) - {old(timers)[id].handle} else old(running)
    {
      if id in timers {
        HandlesWithout(timers, id);
        running := running - {timers[id].handle};
        timers := timers - {id};
      }
    }

    /**
     * `startSimulation`: cancels any timer of `id`, then arms a new one with
     * the handle the browser gives and a period of `MinPeriod + jitter`.
     */
    method Start(id: ConvId, handle: TimerHandle, jitter: nat)
      requires Valid()
      requires handle !in running
      requires jitter < PeriodSpread
      modifies this
      ensures Valid()
      ensures timers == old(timers)[id := Interval(handle, MinPeriod + jitter)]
      ensures MinPeriod <= timers[id].period < MinPeriod + PeriodSpread
      ensures running == (if id in old(timers) then old(running) - {old(timers)[id].handle} else old(running)) + {handle}
    {
      Stop(id);
      var kept := timers;
      assert handle !in Handles(kept);
      timers := kept[id := Interval(handle, MinPeriod + jitter)];
      running := running + {handle};
      assert Handles(timers) == running by {
        forall x | x in running ensures x in Handles(timers) {
          if x == handle {
            assert timers[id].handle == x;
          } else {
            assert x in Handles(kept);
            var other :| other in kept && kept[other].handle == x;
            assert other != id;
            assert timers[other].handle == x;
          }
        }
      }
    }

    /**
     * The cross-tab `storage` listener: for the collection another tab just
     * wrote, stops the timer of every conversation whose last message is an
     * attendant's. Another key or content that does not parse (`None`)
     * changes nothing.
     */
    method OnStorageEvent(key: string, newValue: Option<seq<Conversation>>)
      requires Valid()
      modifies this
      ensures Valid()
      ensures key != StorageKey || newValue.None? ==> timers == old(timers) && running == old(running)
      ensures key == StorageKey && newValue.Some? ==>
        timers == old(timers) - AttendantLastIds(newValue.value)
    {
      if key != StorageKey || newValue.None? {
        return;
      }
      var cs := newValue.value;
      var i := 0;
      while i < |cs|
        invariant 0 <= i <= |cs|
        invariant Valid()
        invariant timers == old(timers) - AttendantLastIds(cs[..i])
      {
        AttendantLastIdsSnoc(cs, i);
        if AttendantSpokeLast(cs[i]) {
          Stop(cs[i].id);
        }
        i := i + 1;
      }
      assert cs[..|cs|] == cs;
    }
  }

  /** Growing the scanned prefix by one record adds at most that record's id. */
  lemma AttendantLastIdsSnoc(cs: seq<Conversation>, i: nat)
    requires i < |cs|
    ensures AttendantLastIds(cs[..i + 1]) ==
      AttendantLastIds(cs[..i]) + (if AttendantSpokeLast(cs[i]) then {cs[i].id} else {})
  {
    var pre, next := cs[..i], cs[..i + 1];
    assert forall j :: 0 <= j < i ==> next[j] == pre[j];
    assert next[i] == cs[i];
  }

  /**
   * One tick of the armed timer of `id`: appends a sample message, chosen
   * by `pick`, to the first record with `id` as if the customer wrote it,
   * and announces `id` on the in-page new-message channel. A tick exists
   * only while the id's interval is armed, since stopping clears it.
   */
  method SimulationTick(scheduler: SimulationScheduler, store: ConversationStore, id: ConvId, pick: nat, now: Timestamp)
    returns (notice: ConvId)
    requires scheduler.Valid() && id in scheduler.timers
    requires pick < |SampleClientMessages|
    modifies store
    ensures store.convos == AppendMessage(old(store.convos), id, Message(User, SampleClientMessages[pick], now))
    ensures notice == id
  {
    var _ := store.AddMessage(id, User, SampleClientMessages[pick], now);
    notice := id;
  }
}
