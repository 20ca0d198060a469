/** How often the outbox can try, and what bounded sends exclude. */
module OutboxBounds {
  import opened Prelude
  import opened Delivery
  import opened Outbox
  import opened Dispatching
  import opened OutboxRuns

  // ----- Attempt potential --------------------------------------------------------------------------

  /** The attempts a record has left under a limit. */
  function Left(limit: nat): Record -> nat {
    (r: Record) => if r.state == Acked || r.state == DeadLetter || r.attempts >= limit then 0 else limit - r.attempts
  }

  ghost function Potential(store: Store, limit: nat): nat { Total(store, Left(limit)) }

  /** Nothing new comes in and no process allows more than `limit` attempts. */
  predicate Closed(ev: Event, limit: nat) {
    match ev
    case Enqueue(_, _, _) => false
    case Requeue(_, _) => false
    case ClaimDue(cfg, _, _, _) => cfg.maxAttempts <= limit
    case ClaimId(cfg, _, _, _) => cfg.maxAttempts <= limit
    case _ => true
  }

  lemma EndedSpends(store: Store, store': Store, limit: nat)
    requires AllEnded(store, store')
    ensures Potential(store', limit) <= Potential(store, limit)
  {
    forall id | id in store'
      ensures Left(limit)(store'[id]) <= Left(limit)(store[id])
    {
      assert Ended(store[id], store'[id]);
    }
    TotalShrinks(store, store', Left(limit));
  }

  lemma LeaseSpends(store: Store, id: string, now: real, lease: string, limit: nat)
    requires id in store && Retryable(store[id]) && store[id].attempts < limit
    ensures Potential(store[id := Claimed(store[id], now, lease)], limit) + 1 == Potential(store, limit)
  {
    TotalUpdate(store, Left(limit), id, Claimed(store[id], now, lease));
  }

  lemma ClaimDueSpends(s: State, cfg: Config, routes: Option<set<string>>, now: real, lease: string, limit: nat)
    requires cfg.maxAttempts <= limit && lease !in s.used
    ensures var s' := Step(s, ClaimDue(cfg, routes, now, lease));
      Potential(s'.store, limit) + |s'.used| <= Potential(s.store, limit) + |s.used|
  {
    var id := ClaimDueShape(s.store, cfg, routes, now, lease);
    SweepEnds(s.store, cfg, routes, now);
    EndedSpends(s.store, Swept(s.store, cfg, routes, now), limit);
    if DueIds(s.store, cfg, routes, now) != {} {
      LeaseSpends(Swept(s.store, cfg, routes, now), id, now, lease, limit);
    }
  }

  lemma ClaimIdSpends(s: State, cfg: Config, id: string, now: real, lease: string, limit: nat)
    requires cfg.maxAttempts <= limit && lease !in s.used
    ensures var s' := Step(s, ClaimId(cfg, id, now, lease));
      Potential(s'.store, limit) + |s'.used| <= Potential(s.store, limit) + |s.used|
  {
    if id in s.store && Retryable(s.store[id]) {
      if Exhausted(s.store[id], cfg) {
        TotalUpdate(s.store, Left(limit), id, Buried(s.store[id], cfg, now));
      } else {
        LeaseSpends(s.store, id, now, lease, limit);
      }
    }
  }

  /** Every claim uses up one unit of potential and no other step creates any. */
  lemma StepSpends(s: State, ev: Event, s': State, limit: nat)
    requires Linked(s) && Next(s, ev, s') && Closed(ev, limit)
    ensures Potential(s'.store, limit) + |s'.used| <= Potential(s.store, limit) + |s.used|
  {
    match ev
    case ClaimDue(cfg, routes, now, lease) => ClaimDueSpends(s, cfg, routes, now, lease, limit);
    case ClaimId(cfg, id, now, lease) => ClaimIdSpends(s, cfg, id, now, lease, limit);
    case Settle(cfg, lease, now) =>
      if lease in s.workers && s.workers[lease].answer.Some? {
        SettleShape(s, lease, cfg, now);
        TotalShrinks(s.store, s'.store, Left(limit));
      }
    case Recover(cfg, force, now) => RecoveryEnds(s.store, cfg, force, now); EndedSpends(s.store, s'.store, limit);
    case Enforce(cfg, now) => SweepEnds(s.store, cfg, None, now); EndedSpends(s.store, s'.store, limit);
    case Purge(before) => TotalShrinks(s.store, s'.store, Left(limit));
    case _ =>
  }

  /**
   * While nothing is queued or requeued, the claims of any run, each of which uses one fresh
   * lease, number at most the attempts the records had left when the run began.
   */
  lemma {:induction false} ClaimsAreBounded(states: seq<State>, events: seq<Event>, n: nat, limit: nat)
    requires IsRun(states, events) && n < |states| && Linked(states[0])
    requires forall i :: 0 <= i < |events| ==> Closed(events[i], limit)
    ensures Linked(states[n])
    ensures |states[n].used| - |states[0].used| <= Potential(states[0].store, limit) - Potential(states[n].store, limit)
  {
    if n > 0 {
      ClaimsAreBounded(states, events, n - 1, limit);
      StepKeepsLinks(states[n - 1], events[n - 1], states[n]);
      StepSpends(states[n - 1], events[n - 1], states[n], limit);
    }
  }

  // ----- A lower limit after a restart -------------------------------------------------------------

  /** Every process runs under the new limit and nobody requeues or queues `id` afresh. */
  predicate Lowered(ev: Event, id: string, limit: nat) {
    match ev
    case Enqueue(_, other, _) => other != id
    case Requeue(other, _) => other != id
    case _ => Closed(ev, limit)
  }

  /** The record, if still there, has had `limit` attempts and no claim since. */
  ghost predicate Spent(s0: State, s: State, id: string, limit: nat) {
    id in s.store ==>
      && s.store[id].attempts >= limit
      && (id in s.lastLease ==> id in s0.lastLease && s.lastLease[id] == s0.lastLease[id])
  }

  lemma OwnId(s: State, id: string)
    requires Linked(s) && id in s.store
    ensures s.store[id].id == id
  {
    assert RecordInv(s, id);
  }

  lemma EndedKeepsSpent(s0: State, s: State, store': Store, id: string, limit: nat)
    requires AllEnded(s.store, store') && Spent(s0, s, id, limit)
    ensures Spent(s0, s.(store := store'), id, limit)
  {
    if id in s.store { assert Ended(s.store[id], store'[id]); }
  }

  lemma LeaseKeepsSpent(s0: State, s: State, k: string, now: real, lease: string, id: string, limit: nat)
    requires Spent(s0, s, id, limit) && k in s.store && s.store[k].id == k && s.store[k].attempts < limit
    ensures var claimed := Claimed(s.store[k], now, lease);
      Spent(s0, Leased(s, s.store[k := claimed], Some(claimed), lease), id, limit)
  {
  }

  lemma ClaimDueKeepsSpent(s0: State, s: State, cfg: Config, routes: Option<set<string>>, now: real, lease: string,
      id: string, limit: nat)
    requires Linked(s) && Spent(s0, s, id, limit) && cfg.maxAttempts <= limit
    ensures var result := ClaimDueIn(s.store, cfg, routes, now, lease);
      Spent(s0, Leased(s, result.0, result.1, lease), id, limit)
  {
    var k := ClaimDueShape(s.store, cfg, routes, now, lease);
    var swept := Swept(s.store, cfg, routes, now);
    SweepEnds(s.store, cfg, routes, now);
    EndedKeepsSpent(s0, s, swept, id, limit);
    if DueIds(s.store, cfg, routes, now) != {} {
      OwnId(s, k);
      LeaseKeepsSpent(s0, s.(store := swept), k, now, lease, id, limit);
    }
  }

  lemma ClaimIdKeepsSpent(s0: State, s: State, cfg: Config, k: string, now: real, lease: string, id: string, limit: nat)
    requires Linked(s) && Spent(s0, s, id, limit) && cfg.maxAttempts <= limit
    ensures var result := ClaimIdIn(s.store, cfg, k, now, lease);
      Spent(s0, Leased(s, result.0, result.1, lease), id, limit)
  {
    if k in s.store { OwnId(s, k); }
  }

  lemma SettleKeepsSpent(s0: State, s: State, cfg: Config, lease: string, now: real, id: string, limit: nat)
    requires Linked(s) && Spent(s0, s, id, limit) && lease in s.workers && s.workers[lease].answer.Some?
    requires s.workers[lease].claimed.lease.Some?
    ensures Spent(s0, Finished(s, lease, cfg, now), id, limit)
  {
    SettleShape(s, lease, cfg, now);
  }

  lemma SpentStep(s0: State, s: State, ev: Event, s': State, id: string, limit: nat)
    requires Linked(s) && Next(s, ev, s') && Lowered(ev, id, limit) && Spent(s0, s, id, limit)
    ensures Spent(s0, s', id, limit)
  {
    match ev
    case ClaimDue(cfg, routes, now, lease) => ClaimDueKeepsSpent(s0, s, cfg, routes, now, lease, id, limit);
    case ClaimId(cfg, k, now, lease) => ClaimIdKeepsSpent(s0, s, cfg, k, now, lease, id, limit);
    case Settle(cfg, lease, now) => if s' != s { SettleKeepsSpent(s0, s, cfg, lease, now, id, limit); }
    case Recover(cfg, force, now) =>
      RecoveryEnds(s.store, cfg, force, now);
      EndedKeepsSpent(s0, s, s'.store, id, limit);
    case Enforce(cfg, now) => SweepEnds(s.store, cfg, None, now); EndedKeepsSpent(s0, s, s'.store, id, limit);
    case _ =>
  }

  /** After a restart with a lower limit, a record that has used it up is never claimed again. */
  lemma {:induction false} LoweredLimitHolds(states: seq<State>, events: seq<Event>, n: nat, id: string, limit: nat)
    requires IsRun(states, events) && n < |states| && Linked(states[0])
    requires forall i :: 0 <= i < |events| ==> Lowered(events[i], id, limit)
    requires id in states[0].store && states[0].store[id].attempts >= limit
    ensures Linked(states[n]) && Spent(states[0], states[n], id, limit)
  {
    if n > 0 {
      LoweredLimitHolds(states, events, n - 1, id, limit);
      StepKeepsLinks(states[n - 1], events[n - 1], states[n]);
      SpentStep(states[0], states[n - 1], events[n - 1], states[n], id, limit);
    }
  }

  // ----- Mutual exclusion by timeout ------------------------------------------------------------

  predicate Accepted(w: Worker) { w.answer.Some? && Accepts(w.answer.value, w.claimed.envelope) }

  /**
   * At every recovery less than `timeout` has passed since any send still under way began, no
   * recovery is forced, and no worker dies between an accepted send and its settle.
   */
  predicate Timely(s: State, ev: Event, timeout: real) {
    match ev
    case Recover(cfg, force, now) =>
      && !force && cfg.timeout >= timeout
      && forall l :: l in s.workers && s.workers[l].claimed.sendingAt.Some? ==>
        s.workers[l].claimed.sendingAt.value > now - timeout
    case Crash(lease) => lease in s.workers ==> !Accepted(s.workers[lease])
    case _ => true
  }

  /** The worker's lease is current. */
  ghost predicate Holds(s: State, lease: string)
    requires lease in s.workers
  {
    var r := s.workers[lease].claimed;
    r.id in s.store && s.store[r.id] == r && HeldBy(r, lease) && r.sendingAt.Some?
  }

  /** An accepted send is the record's only one, and it is acknowledged or about to be. */
  ghost predicate AcceptedOnce(s: State, id: string)
    requires id in s.store
  {
    id in s.accepted && s.accepted[id] <= 1
    && (s.accepted[id] == 1 ==>
          var r := s.store[id];
          r.state == Acked
          || (r.lease.Some? && r.lease.value in s.workers && s.workers[r.lease.value].claimed == r
            && Accepted(s.workers[r.lease.value])))
  }

  ghost predicate Exclusive(s: State) {
    && (forall l :: l in s.workers ==> Holds(s, l))
    && (forall id :: id in s.store ==> s.store[id].id == id && AcceptedOnce(s, id))
  }

  /** Records without a live worker may be turned away from sending; the held ones are left alone. */
  lemma EndedKeepsExclusive(s: State, store': Store)
    requires Exclusive(s) && AllEnded(s.store, store')
    requires forall l :: l in s.workers && s.workers[l].claimed.id in s.store ==>
      store'[s.workers[l].claimed.id] == s.store[s.workers[l].claimed.id]
    ensures Exclusive(s.(store := store'))
  {
    var s' := s.(store := store');
    forall l | l in s'.workers ensures Holds(s', l) { assert Holds(s, l); }
    forall id | id in store' ensures store'[id].id == id && AcceptedOnce(s', id) {
      assert Ended(s.store[id], store'[id]) && AcceptedOnce(s, id);
      if s.accepted[id] == 1 && s.store[id].state == Sending {
        assert Holds(s, s.store[id].lease.value);
      }
    }
  }

  lemma LeaseKeepsExclusive(s: State, id: string, now: real, lease: string)
    requires Exclusive(s) && id in s.store && Retryable(s.store[id]) && lease !in s.workers
    ensures var claimed := Claimed(s.store[id], now, lease);
      Exclusive(Leased(s, s.store[id := claimed], Some(claimed), lease))
  {
    var claimed := Claimed(s.store[id], now, lease);
    var s' := Leased(s, s.store[id := claimed], Some(claimed), lease);
    forall l | l in s'.workers ensures Holds(s', l) { if l in s.workers { assert Holds(s, l); } }
    forall j | j in s'.store ensures s'.store[j].id == j && AcceptedOnce(s', j) { assert AcceptedOnce(s, j); }
  }

  lemma SweepKeepsExclusive(s: State, cfg: Config, routes: Option<set<string>>, now: real)
    requires Exclusive(s)
    ensures Exclusive(s.(store := Swept(s.store, cfg, routes, now)))
  {
    SweepEnds(s.store, cfg, routes, now);
    assert forall l :: l in s.workers ==> Holds(s, l);
    EndedKeepsExclusive(s, Swept(s.store, cfg, routes, now));
  }

  lemma ClaimDueKeepsExclusive(s: State, cfg: Config, routes: Option<set<string>>, now: real, lease: string)
    requires Exclusive(s) && lease !in s.workers
    ensures var result := ClaimDueIn(s.store, cfg, routes, now, lease); Exclusive(Leased(s, result.0, result.1, lease))
  {
    var id := ClaimDueShape(s.store, cfg, routes, now, lease);
    var swept := Swept(s.store, cfg, routes, now);
    SweepKeepsExclusive(s, cfg, routes, now);
    if DueIds(s.store, cfg, routes, now) != {} {
      LeaseKeepsExclusive(s.(store := swept), id, now, lease);
    }
  }

  lemma ClaimIdKeepsExclusive(s: State, cfg: Config, id: string, now: real, lease: string)
    requires Exclusive(s) && lease !in s.workers
    ensures var result := ClaimIdIn(s.store, cfg, id, now, lease); Exclusive(Leased(s, result.0, result.1, lease))
  {
    if id in s.store && Retryable(s.store[id]) {
      if Exhausted(s.store[id], cfg) {
        assert forall l :: l in s.workers ==> Holds(s, l);
        EndedKeepsExclusive(s, s.store[id := Buried(s.store[id], cfg, now)]);
      } else if DueAt(s.store[id], now) {
        LeaseKeepsExclusive(s, id, now, lease);
      }
    }
  }

  lemma SendKeepsExclusive(s: State, lease: string, a: Answer)
    requires Exclusive(s) && lease in s.workers && s.workers[lease].answer.None?
    ensures Exclusive(Answered(s, lease, a))
  {
    var s' := Answered(s, lease, a);
    assert Holds(s, lease);
    forall l | l in s'.workers ensures Holds(s', l) { assert Holds(s, l); }
    forall id | id in s'.store ensures AcceptedOnce(s', id) { assert AcceptedOnce(s, id); }
  }

  lemma SettleKeepsExclusive(s: State, lease: string, cfg: Config, now: real)
    requires Exclusive(s) && Linked(s) && lease in s.workers && s.workers[lease].answer.Some?
    ensures s.workers[lease].claimed.lease == Some(lease) && Exclusive(Finished(s, lease, cfg, now))
  {
    SettleShape(s, lease, cfg, now);
    assert Holds(s, lease);
    var s' := Finished(s, lease, cfg, now);
    forall l | l in s'.workers ensures Holds(s', l) { assert Holds(s, l); }
    forall id | id in s'.store ensures s'.store[id].id == id && AcceptedOnce(s', id) { assert AcceptedOnce(s, id); }
  }

  lemma RecoverKeepsExclusive(s: State, cfg: Config, now: real, timeout: real)
    requires Exclusive(s) && Timely(s, Recover(cfg, false, now), timeout)
    ensures Exclusive(s.(store := Recovered(s.store, cfg, false, now)))
  {
    RecoveryEnds(s.store, cfg, false, now);
    forall l | l in s.workers
      ensures s.workers[l].claimed.id in s.store && !Stale(s.store[s.workers[l].claimed.id], cfg, false, now)
    {
      assert Holds(s, l);
    }
    EndedKeepsExclusive(s, Recovered(s.store, cfg, false, now));
  }

  lemma QueueKeepsExclusive(s: State, r: Record)
    requires Exclusive(s) && r.id !in s.store && r.state == Pending
    ensures Exclusive(Added(s, r))
  {
    var s' := Added(s, r);
    forall l | l in s'.workers ensures Holds(s', l) { assert Holds(s, l); }
    forall id | id in s'.store ensures s'.store[id].id == id && AcceptedOnce(s', id) {
      if id in s.store { assert AcceptedOnce(s, id); }
    }
  }

  lemma CrashKeepsExclusive(s: State, lease: string)
    requires Exclusive(s) && (lease in s.workers ==> !Accepted(s.workers[lease]))
    ensures Exclusive(s.(workers := s.workers - {lease}))
  {
    var s' := s.(workers := s.workers - {lease});
    forall l | l in s'.workers ensures Holds(s', l) { assert Holds(s, l); }
    forall id | id in s'.store ensures AcceptedOnce(s', id) { assert AcceptedOnce(s, id); }
  }

  lemma RequeueKeepsExclusive(s: State, id: string, now: real)
    requires Exclusive(s)
    ensures Exclusive(Restarted(s, id, now))
  {
    var s' := Restarted(s, id, now);
    forall l | l in s'.workers ensures Holds(s', l) { assert Holds(s, l); }
    forall j | j in s'.store ensures s'.store[j].id == j && AcceptedOnce(s', j) { assert AcceptedOnce(s, j); }
  }

  lemma PurgeKeepsExclusive(s: State, before: Option<real>)
    requires Exclusive(s)
    ensures Exclusive(Cleared(s, before))
  {
    var s' := Cleared(s, before);
    forall l | l in s'.workers ensures Holds(s', l) { assert Holds(s, l); }
    forall j | j in s'.store ensures AcceptedOnce(s', j) { assert AcceptedOnce(s, j); }
  }

  lemma StepIsExclusive(s: State, ev: Event, s': State, timeout: real)
    requires Exclusive(s) && Linked(s) && Next(s, ev, s') && Timely(s, ev, timeout)
    ensures Exclusive(s')
  {
    match ev
    case ClaimDue(cfg, routes, now, lease) =>
      UnusedUnheld(s, lease);
      ClaimDueKeepsExclusive(s, cfg, routes, now, lease);
    case ClaimId(cfg, id, now, lease) => UnusedUnheld(s, lease); ClaimIdKeepsExclusive(s, cfg, id, now, lease);
    case Send(lease, a) => if lease in s.workers && s.workers[lease].answer.None? { SendKeepsExclusive(s, lease, a); }
    case Settle(cfg, lease, now) =>
      if lease in s.workers && s.workers[lease].answer.Some? { SettleKeepsExclusive(s, lease, cfg, now); }
    case Recover(cfg, force, now) => RecoverKeepsExclusive(s, cfg, now, timeout);
    case Enforce(cfg, now) => SweepKeepsExclusive(s, cfg, None, now);
    case Enqueue(e, id, now) => if id !in s.store { QueueKeepsExclusive(s, Outbox.Fresh(e, id, now)); }
    case Crash(lease) => CrashKeepsExclusive(s, lease);
    case Requeue(id, now) => RequeueKeepsExclusive(s, id, now);
    case Purge(before) => PurgeKeepsExclusive(s, before);
  }

  lemma {:induction false} RunIsExclusive(states: seq<State>, events: seq<Event>, n: nat, timeout: real)
    requires IsRun(states, events) && n < |states| && states[0] == EMPTY
    requires forall i :: 0 <= i < |events| ==> Timely(states[i], events[i], timeout)
    ensures Linked(states[n]) && Exclusive(states[n])
  {
    if n > 0 {
      RunIsExclusive(states, events, n - 1, timeout);
      StepKeepsLinks(states[n - 1], events[n - 1], states[n]);
      StepIsExclusive(states[n - 1], events[n - 1], states[n], timeout);
    }
  }

  /**
   * Mutual exclusion by timeout: if every send settles before the sending timeout has passed and
   * no recovery is forced, no two workers ever hold the same delivery, and no delivery has more
   * than one accepted send until it is purged.
   */
  lemma OneWorkerOneAcceptedSend(states: seq<State>, events: seq<Event>, n: nat, timeout: real)
    requires IsRun(states, events) && n < |states| && states[0] == EMPTY
    requires forall i :: 0 <= i < |events| ==> Timely(states[i], events[i], timeout)
    ensures var s := states[n];
      && (forall a, b :: a in s.workers && b in s.workers && s.workers[a].claimed.id == s.workers[b].claimed.id ==>
        a == b)
      && (forall id :: id in s.store ==> id in s.accepted && s.accepted[id] <= 1)
  {
    RunIsExclusive(states, events, n, timeout);
    var s := states[n];
    forall a, b | a in s.workers && b in s.workers && s.workers[a].claimed.id == s.workers[b].claimed.id
      ensures a == b
    {
      assert Holds(s, a) && Holds(s, b);
    }
    forall id | id in s.store ensures id in s.accepted && s.accepted[id] <= 1 { assert AcceptedOnce(s, id); }
  }

  lemma ClaimOnly(s: State, cfg: Config, r: Record, now: real, lease: string)
    requires s.store == map[r.id := r] && Retryable(r) && r.attempts < cfg.maxAttempts && DueAt(r, now)
    ensures var s' := Step(s, ClaimId(cfg, r.id, now, lease));
      s' == Leased(s, map[r.id := Claimed(r, now, lease)], Some(Claimed(r, now, lease)), lease)
  {
    assert s.store[r.id := Claimed(r, now, lease)] == map[r.id := Claimed(r, now, lease)];
  }

  lemma SendOnly(s: State, lease: string)
    requires lease in s.workers && s.workers[lease].answer.None? && EnvelopeOk(s.workers[lease].claimed.envelope)
    requires s.workers[lease].claimed.id in s.accepted
    ensures var s' := Step(s, Send(lease, Plain(true))); var id := s.workers[lease].claimed.id;
      s'.store == s.store && s'.used == s.used && s'.workers.Keys == s.workers.Keys
      && id in s'.accepted && s'.accepted[id] == s.accepted[id] + 1
  {
    AcceptsExactly(Plain(true), s.workers[lease].claimed.envelope);
  }

  lemma RecoverOnly(store: Store, cfg: Config, r: Record, now: real)
    requires store == map[r.id := r] && Stale(r, cfg, false, now)
    ensures Recovered(store, cfg, false, now) == map[r.id := Abandoned(r, cfg, now)]
  {
  }

  /** One claim and one accepted send of the only delivery. */
  lemma AttemptOnly(s: State, cfg: Config, r: Record, now: real, lease: string) returns (s1: State, s2: State)
    requires s.store == map[r.id := r] && Retryable(r) && r.attempts < cfg.maxAttempts && DueAt(r, now)
      && EnvelopeOk(r.envelope)
    requires ConfigOk(cfg) && IsIdentifier(lease) && now >= 0.0 && lease !in s.used && r.id in s.accepted
    ensures Next(s, ClaimId(cfg, r.id, now, lease), s1) && Next(s1, Send(lease, Plain(true)), s2)
    ensures s2.store == map[r.id := Claimed(r, now, lease)] && s2.used == s.used + {lease}
    ensures r.id in s2.accepted && s2.accepted[r.id] == s.accepted[r.id] + 1
  {
    s1 := Step(s, ClaimId(cfg, r.id, now, lease));
    ClaimOnly(s, cfg, r, now, lease);
    s2 := Step(s1, Send(lease, Plain(true)));
    SendOnly(s1, lease);
  }

  lemma Extend(states: seq<State>, events: seq<Event>, ev: Event, s: State) returns (more: seq<State>, evs: seq<Event>)
    requires IsRun(states, events) && Next(states[|events|], ev, s)
    ensures IsRun(more, evs) && more[0] == states[0] && more[|evs|] == s
  {
    more, evs := states + [s], events + [ev];
    forall i | 0 <= i < |evs| ensures Next(more[i], evs[i], more[i + 1]) {
      if i < |events| { assert more[i] == states[i] && more[i + 1] == states[i + 1]; }
    }
  }

  lemma QueuedOnly(e: Envelope, id: string)
    requires EnvelopeOk(e) && IsIdentifier(id)
    ensures var s := Step(EMPTY, Enqueue(e, id, 0.0)); var r := Outbox.Fresh(e, id, 0.0);
      Next(EMPTY, Enqueue(e, id, 0.0), s) && s.store == map[r.id := r] && s.used == {} && s.accepted == map[id := 0]
  {
  }

  /**
   * The assumption is needed: a worker that dies after the remote end accepted its message makes
   * the outbox send it again, so delivery is at least once, not exactly once.
   */
  lemma CrashSendsTwice(e: Envelope, id: string, cfg: Config, l1: string, l2: string)
      returns (states: seq<State>, events: seq<Event>)
    requires EnvelopeOk(e) && IsIdentifier(id) && ConfigOk(cfg) && cfg.maxAttempts >= 2
    requires IsIdentifier(l1) && IsIdentifier(l2) && l1 != l2
    ensures IsRun(states, events) && states[0] == EMPTY
    ensures id in states[|events|].accepted && states[|events|].accepted[id] == 2
  {
    var t := cfg.timeout;
    var r0 := Outbox.Fresh(e, id, 0.0);
    var r1 := Claimed(r0, 0.0, l1);
    var r2 := Abandoned(r1, cfg, t);
    var s1 := Step(EMPTY, Enqueue(e, id, 0.0));
    QueuedOnly(e, id);
    var s2, s3 := AttemptOnly(s1, cfg, r0, 0.0, l1);
    var s4 := s3.(workers := s3.workers - {l1});
    RecoverOnly(s4.store, cfg, r1, t);
    var s5 := s4.(store := map[id := r2]);
    var s6, s7 := AttemptOnly(s5, cfg, r2, t, l2);
    states, events := Extend([EMPTY], [], Enqueue(e, id, 0.0), s1);
    states, events := Extend(states, events, ClaimId(cfg, id, 0.0, l1), s2);
    states, events := Extend(states, events, Send(l1, Plain(true)), s3);
    states, events := Extend(states, events, Crash(l1), s4);
    states, events := Extend(states, events, Recover(cfg, false, t), s5);
    states, events := Extend(states, events, ClaimId(cfg, id, t, l2), s6);
    states, events := Extend(states, events, Send(l2, Plain(true)), s7);
  }
}
