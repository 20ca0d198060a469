/** Mutual exclusion by timeout, with the assumption stated on the clock readings of a run. */
module OutboxClock {
  import opened OutboxRuns
  import opened OutboxBounds

  predicate IsClaim(ev: Event) { ev.ClaimDue? || ev.ClaimId? }

  /** The send claimed in step `j` is still under way before step `i`. */
  ghost predicate UnderWay(states: seq<State>, events: seq<Event>, j: nat, i: nat)
    requires j < |events| && IsClaim(events[j]) && i < |states|
  {
    forall m :: j < m <= i ==> events[j].lease in states[m].workers
  }

  /**
   * No recovery is forced, each waits at least `timeout`, and each send settles before `timeout` has
   * passed: a recovery under which a send is still under way reads the clock less than `timeout`
   * after its claim did. A worker does not die between an accepted send and its settle.
   */
  ghost predicate Prompt(states: seq<State>, events: seq<Event>, timeout: real)
    requires |states| == |events| + 1
  {
    && (forall i :: 0 <= i < |events| && events[i].Recover? ==> !events[i].force && events[i].cfg.timeout >= timeout)
    && (forall i, j ::
          0 <= j < i < |events| && events[i].Recover? && IsClaim(events[j]) && UnderWay(states, events, j, i) ==>
            events[i].now < events[j].now + timeout)
    && (forall i :: 0 <= i < |events| && events[i].Crash? && events[i].lease in states[i].workers ==>
          !Accepted(states[i].workers[events[i].lease]))
  }

  /** A worker after a step was there before or was just leased, not before its clock reading. */
  lemma WorkerBefore(s: State, ev: Event, s': State, lease: string)
    requires Next(s, ev, s') && lease in s'.workers
    ensures
      || (lease in s.workers && s'.workers[lease].claimed == s.workers[lease].claimed)
      || (IsClaim(ev) && ev.lease == lease
          && s'.workers[lease].claimed.sendingAt.Some? && s'.workers[lease].claimed.sendingAt.value >= ev.now)
  {
    if ev.ClaimDue? {
      var id := ClaimDueShape(s.store, ev.cfg, ev.routes, ev.now, ev.lease);
    }
  }

  /** The step in which a worker under way claimed its delivery. */
  lemma {:induction false} ClaimedAt(states: seq<State>, events: seq<Event>, n: nat, lease: string) returns (j: nat)
    requires IsRun(states, events) && n < |states| && states[0].workers == map[] && lease in states[n].workers
    ensures j < n && IsClaim(events[j]) && events[j].lease == lease && UnderWay(states, events, j, n)
    ensures states[n].workers[lease].claimed.sendingAt.Some?
    ensures states[n].workers[lease].claimed.sendingAt.value >= events[j].now
  {
    assert n > 0;
    WorkerBefore(states[n - 1], events[n - 1], states[n], lease);
    if lease in states[n - 1].workers && states[n].workers[lease].claimed == states[n - 1].workers[lease].claimed {
      j := ClaimedAt(states, events, n - 1, lease);
    } else {
      j := n - 1;
    }
  }

  lemma PromptIsTimely(states: seq<State>, events: seq<Event>, i: nat, timeout: real)
    requires IsRun(states, events) && i < |events| && states[0] == EMPTY && Prompt(states, events, timeout)
    ensures Timely(states[i], events[i], timeout)
  {
    if events[i].Recover? {
      forall l | l in states[i].workers
        ensures states[i].workers[l].claimed.sendingAt.Some?
          && states[i].workers[l].claimed.sendingAt.value > events[i].now - timeout
      {
        var j := ClaimedAt(states, events, i, l);
      }
    }
  }

  /**
   * If every send settles within the timeout and no recovery is forced, then no two workers ever
   * hold the same delivery, and no delivery has more than one accepted send until it is purged.
   */
  lemma OneWorkerByTheClock(states: seq<State>, events: seq<Event>, n: nat, timeout: real)
    requires IsRun(states, events) && n < |states| && states[0] == EMPTY && Prompt(states, events, timeout)
    ensures var s := states[n];
      && (forall a, b :: a in s.workers && b in s.workers && s.workers[a].claimed.id == s.workers[b].claimed.id ==>
        a == b)
      && (forall id :: id in s.store ==> id in s.accepted && s.accepted[id] <= 1)
  {
    forall i | 0 <= i < |events|
      ensures Timely(states[i], events[i], timeout)
    {
      PromptIsTimely(states, events, i, timeout);
    }
    OneWorkerOneAcceptedSend(states, events, n, timeout);
  }
}
