/** The group outbox over runs of several processes: what holds always, and what needs the lease. */
module GroupRuns {
  import opened Prelude
  import opened Peers
  import opened GroupActions
  import Outbox

  /** A delivery between its begin and its end; the row it works on carries no lease id. */
  datatype Worker = Worker(id: string, began: real)

  datatype State = State(t: Table, workers: map<nat, Worker>)

  datatype Event =
    | Enqueue(k: Natural, payload: string, maxAttempts: nat, now: real)
    | Begin(w: nat, id: string, now: real)
    | Fail(w: nat, base: real)
    | Ack(w: nat, ids: seq<int>, now: real)
    | Die(w: nat)
    | Open(now: real, prune: Option<seq<Row>>)

  // ----- Steps ------------------------------------------------------------------------------------

  predicate Conflicts(t: Table, r: Row) {
    Live(r) && exists id :: id in t && Clashes(t[id], r)
  }

  predicate Clashes(other: Row, r: Row) { other.id != r.id && Live(other) && NaturalOf(other) == NaturalOf(r) }

  /** An update the unique index rejects changes nothing. */
  function Write(t: Table, r: Row): Table { if Conflicts(t, r) then t else t[r.id := r] }

  function Begun(r: Row, now: real): Row { r.(status := Sending, attempts := r.attempts + 1, updatedAt := now) }

  /** Nothing here looks at the attempts, and a superseded row is not turned away. */
  predicate CanBegin(t: Table, id: string, now: real) {
    id in t && t[id].status != Acked && t[id].status != Dead && t[id].status != Sending
    && t[id].nextAt <= now && !Conflicts(t, Begun(t[id], now))
  }

  function Failed(r: Row, began: real, base: real): Row {
    var delay := base * Outbox.Doubled(if r.attempts >= 1 then r.attempts - 1 else 0);
    if r.attempts >= r.maxAttempts then r.(status := Dead, nextAt := began, updatedAt := began)
    else r.(status := Retry, nextAt := began + (if delay <= 300.0 then delay else 300.0), updatedAt := began)
  }

  function Acknowledged(r: Row, ids: seq<int>, now: real): Row {
    r.(status := Acked, messageIds := ids, updatedAt := now)
  }

  /** The end of a delivery writes its row whatever state that row is in by now. */
  function Ended(s: State, w: nat, t: Table): State { s.(t := t, workers := s.workers - {w}) }

  ghost function Step(s: State, h: Hashes, p: Policy, ev: Event): State {
    match ev
    case Enqueue(k, payload, maxAttempts, now) => s.(t := EnqueueIn(s.t, h, k, payload, maxAttempts, now).0)
    case Begin(w, id, now) =>
      if CanBegin(s.t, id, now) then State(s.t[id := Begun(s.t[id], now)], s.workers[w := Worker(id, now)]) else s
    case Fail(w, base) =>
      if w !in s.workers then s
      else if s.workers[w].id !in s.t then Ended(s, w, s.t)
      else Ended(s, w, Write(s.t, Failed(s.t[s.workers[w].id], s.workers[w].began, base)))
    case Ack(w, ids, now) =>
      if w !in s.workers then s
      else if s.workers[w].id !in s.t then Ended(s, w, s.t)
      else Ended(s, w, Write(s.t, Acknowledged(s.t[s.workers[w].id], ids, now)))
    case Die(w) => Ended(s, w, s.t)
    case Open(now, prune) =>
      var o := Opened(s.t, p, false, true, now);
      s.(t := if prune.Some? then Pruned(o, prune.value, now) else o)
  }

  ghost predicate Next(s: State, h: Hashes, p: Policy, ev: Event, s': State) {
    && s' == Step(s, h, p, ev)
    && (ev.Begin? ==> ev.w !in s.workers)
    && (ev.Enqueue? ==> ev.maxAttempts >= 1)
    && (ev.Enqueue? ==>
          var r := NewRow(h, ev.k, ev.payload, ev.maxAttempts, ev.now); p.norm(r) == r)
    && (ev.Open? && ev.prune.Some? ==> NewestFirst(ev.prune.value, Opened(s.t, p, false, true, ev.now)))
  }

  /** The rows `enqueue` inserts are spelled and keyed the way opening would. */
  lemma NewRowsAreNormal(h: Hashes, chat: string, msgId: int, action: Action, payload: string, request: string,
      maxAttempts: nat, now: real)
    requires HashesOk(h)
    ensures var r := NewRow(h, KeyFor(h, chat, msgId, action, payload, request), payload, maxAttempts, now);
      PolicyOf(h).norm(r) == r
  {
    CanonicalIdempotent(chat);
  }

  // ----- One live intent per natural key ---------------------------------------------------------

  ghost predicate Clean(t: Table, p: Policy) { Keyed(t) && Unique(t) && NormalTable(t, p) }

  lemma WriteKeepsClean(t: Table, p: Policy, r: Row)
    requires Clean(t, p) && PolicyOk(p) && r.id in t && SameIntent(t[r.id], r)
    ensures Clean(Write(t, r), p) && Write(t, r).Keys == t.Keys
  {
    if !Conflicts(t, r) {
      var t' := t[r.id := r];
      assert p.norm(t[r.id]) == t[r.id];
      assert forall id :: id in t ==> !(Live(r) && Clashes(t[id], r));
      forall a, b | a in t' && b in t' && Live(t'[a]) && Live(t'[b]) && NaturalOf(t'[a]) == NaturalOf(t'[b])
        ensures a == b
      {
        assert a in t && b in t;
      }
    }
  }

  lemma EnqueueKeepsClean(t: Table, h: Hashes, p: Policy, k: Natural, payload: string, maxAttempts: nat, now: real)
    requires Clean(t, p) && p.norm(NewRow(h, k, payload, maxAttempts, now)) == NewRow(h, k, payload, maxAttempts, now)
    ensures Clean(EnqueueIn(t, h, k, payload, maxAttempts, now).0, p)
  {
    var t' := EnqueueIn(t, h, k, payload, maxAttempts, now).0;
    if t' != t {
      var r := NewRow(h, k, payload, maxAttempts, now);
      assert t' == t[r.id := r] && NaturalOf(r) == k;
      forall a, b | a in t' && b in t' && Live(t'[a]) && Live(t'[b]) && NaturalOf(t'[a]) == NaturalOf(t'[b])
        ensures a == b
      {
        assert a == r.id || a in t;
        assert b == r.id || b in t;
      }
    }
  }

  /** Every step of every process keeps at most one live row per natural key. */
  lemma StepKeepsClean(s: State, h: Hashes, p: Policy, ev: Event, s': State)
    requires Clean(s.t, p) && PolicyOk(p) && Next(s, h, p, ev, s')
    ensures Clean(s'.t, p)
  {
    match ev
    case Enqueue(k, payload, maxAttempts, now) => EnqueueKeepsClean(s.t, h, p, k, payload, maxAttempts, now);
    case Begin(w, id, now) => if CanBegin(s.t, id, now) { WriteKeepsClean(s.t, p, Begun(s.t[id], now)); }
    case Fail(w, base) =>
      if w in s.workers && s.workers[w].id in s.t {
        WriteKeepsClean(s.t, p, Failed(s.t[s.workers[w].id], s.workers[w].began, base));
      }
    case Ack(w, ids, now) =>
      if w in s.workers && s.workers[w].id in s.t {
        WriteKeepsClean(s.t, p, Acknowledged(s.t[s.workers[w].id], ids, now));
      }
    case Die(_) =>
    case Open(now, prune) =>
      OpeningMigrates(s.t, p, false, true, now);
      if prune.Some? { PruningKeepsClean(Opened(s.t, p, false, true, now), p, prune.value, now); }
  }

  lemma PruningKeepsClean(t: Table, p: Policy, order: seq<Row>, now: real)
    requires Clean(t, p)
    ensures Clean(Pruned(t, order, now), p)
  {
    PruningKeepsUnique(t, order, now);
  }

  ghost predicate IsRun(states: seq<State>, events: seq<Event>, h: Hashes, p: Policy) {
    && |states| == |events| + 1
    && forall i :: 0 <= i < |events| ==> Next(states[i], h, p, events[i], states[i + 1])
  }

  /**
   * One live intent per natural key, over any run that starts with the opening of any legacy
   * table, however processes crash, retry and race.
   */
  lemma {:induction false} OneLiveIntentPerKey(
    legacy: Table, h: Hashes, addedIntent: bool, indexed: bool, now: real, states: seq<State>, events: seq<Event>,
        n: nat)
    requires Keyed(legacy) && HashesOk(h) && (indexed && !addedIntent ==> Unique(legacy))
    requires IsRun(states, events, h, PolicyOf(h)) && n < |states|
    requires states[0] == State(Opened(legacy, PolicyOf(h), addedIntent, indexed, now), map[])
    ensures Clean(states[n].t, PolicyOf(h))
  {
    PolicyIsOk(h);
    if n == 0 {
      OpeningMigrates(legacy, PolicyOf(h), addedIntent, indexed, now);
    } else {
      OneLiveIntentPerKey(legacy, h, addedIntent, indexed, now, states, events, n - 1);
      StepKeepsClean(states[n - 1], h, PolicyOf(h), events[n - 1], states[n]);
    }
  }

  // ----- The first payload wins -------------------------------------------------------------------

  lemma WriteKeepsIntents(t: Table, r: Row, id: string)
    requires r.id in t && SameIntent(t[r.id], r) && id in t
    ensures id in Write(t, r) && SameIntent(t[id], Write(t, r)[id])
  {
  }

  lemma EnqueueKeepsRows(t: Table, h: Hashes, k: Natural, payload: string, maxAttempts: nat, now: real)
    ensures var t' := EnqueueIn(t, h, k, payload, maxAttempts, now).0;
      forall id :: id in t ==> id in t' && t'[id] == t[id]
  {
  }

  lemma EndingKeepsIntents(s: State, h: Hashes, p: Policy, ev: Event, id: string)
    requires Keyed(s.t) && (ev.Fail? || ev.Ack? || ev.Die?) && id in s.t
    ensures id in Step(s, h, p, ev).t && SameIntent(s.t[id], Step(s, h, p, ev).t[id])
  {
    match ev
    case Fail(w, base) =>
      if w in s.workers && s.workers[w].id in s.t {
        WriteKeepsIntents(s.t, Failed(s.t[s.workers[w].id], s.workers[w].began, base), id);
      }
    case Ack(w, ids, now) =>
      if w in s.workers && s.workers[w].id in s.t {
        WriteKeepsIntents(s.t, Acknowledged(s.t[s.workers[w].id], ids, now), id);
      }
    case Die(w) =>
  }

  /** What opening a clean table does to one row. */
  lemma OpenRow(t: Table, p: Policy, now: real, prune: Option<seq<Row>>, t': Table, id: string)
    requires Clean(t, p) && PolicyOk(p) && id in t
    requires var o := Opened(t, p, false, true, now); t' == if prune.Some? then Pruned(o, prune.value, now) else o
    ensures t'.Keys <= t.Keys && (id in t' ==> t'[id] == RecoverRow(t[id], now))
    ensures RecoverRow(t[id], now) != t[id] ==>
      (id in t' && t'[id].status == Retry && t'[id].attempts == t[id].attempts
        && t'[id].maxAttempts == t[id].maxAttempts)
  {
    OpeningAgainOnlyRecovers(t, p, true, now);
  }

  lemma OpeningKeepsIntents(s: State, h: Hashes, p: Policy, ev: Event, id: string)
    requires Clean(s.t, p) && PolicyOk(p) && ev.Open? && id in s.t && id in Step(s, h, p, ev).t
    ensures SameIntent(s.t[id], Step(s, h, p, ev).t[id])
  {
    var t' := Step(s, h, p, ev).t;
    OpenRow(s.t, p, ev.now, ev.prune, t', id);
    assert t'[id] == RecoverRow(s.t[id], ev.now);
  }

  /** While a row is there, no step changes what it sends, where, or under which random id. */
  lemma PayloadNeverChanges(s: State, h: Hashes, p: Policy, ev: Event, s': State, id: string)
    requires Clean(s.t, p) && PolicyOk(p) && Next(s, h, p, ev, s') && id in s.t && id in s'.t
    ensures SameIntent(s.t[id], s'.t[id])
  {
    match ev
    case Enqueue(k, payload, maxAttempts, now) => EnqueueKeepsRows(s.t, h, k, payload, maxAttempts, now);
    case Begin(w, k, now) =>
    case Open(now, prune) => OpeningKeepsIntents(s, h, p, ev, id);
    case _ => EndingKeepsIntents(s, h, p, ev, id);
  }

  /** A rephrased retry gets the row of the first wording, unchanged. */
  lemma RephrasedRetryGetsFirstPayload(t: Table, h: Hashes, k: Natural, payload: string, maxAttempts: nat, now: real,
      id: string)
    requires Unique(t) && Keyed(t) && id in t && Live(t[id]) && NaturalOf(t[id]) == k
    ensures EnqueueIn(t, h, k, payload, maxAttempts, now) == (t, t[id])
  {
  }

  /** An enqueue of an acknowledged row's key finds that row, in any wording, and it cannot be sent. */
  lemma AckedAnswersRetry(t: Table, h: Hashes, k: Natural, payload: string, maxAttempts: nat, now: real, later: real,
      id: string)
    requires Unique(t) && Keyed(t) && id in t && t[id].status == Acked && NaturalOf(t[id]) == k
    ensures EnqueueIn(t, h, k, payload, maxAttempts, now) == (t, t[id]) && !CanBegin(t, id, later)
  {
    RephrasedRetryGetsFirstPayload(t, h, k, payload, maxAttempts, now, id);
  }

  /** What enqueue hands out answers to the key, unless another row is filed under the key's id. */
  lemma EnqueueAnswersItsKey(t: Table, h: Hashes, k: Natural, payload: string, maxAttempts: nat, now: real)
    requires Keyed(t) && (h.idOf(k) in t ==> NaturalOf(t[h.idOf(k)]) == k)
    ensures var (t', r) := EnqueueIn(t, h, k, payload, maxAttempts, now);
      && NaturalOf(r) == k && r.id in t' && t'[r.id] == r
      && (forall id :: id in t ==> id in t' && t'[id] == t[id])
      && (t' != t ==> r.payload == payload && r.status == Pending && forall id :: id in t && Live(t[id]) ==>
        NaturalOf(t[id]) != k)
  {
  }

  // ----- When an acknowledgement is final ---------------------------------------------------------

  /** Some delivery of the row is still under way. */
  ghost predicate Held(s: State, id: string) { exists w :: w in s.workers && s.workers[w].id == id }

  /** With no delivery under way an acknowledged row changes only by being pruned, at any clock reading. */
  lemma UnheldAckedStays(s: State, h: Hashes, p: Policy, ev: Event, s': State, id: string)
    requires Clean(s.t, p) && PolicyOk(p) && Next(s, h, p, ev, s')
    requires id in s.t && s.t[id].status == Acked && !Held(s, id)
    ensures if id in s'.t then s'.t[id] == s.t[id] else ev.Open? && ev.prune.Some?
    ensures !Held(s', id)
  {
    match ev
    case Enqueue(k, payload, maxAttempts, now) => EnqueueKeepsRows(s.t, h, k, payload, maxAttempts, now);
    case Open(now, prune) => OpeningAgainOnlyRecovers(s.t, p, true, now);
    case _ =>
  }

  /** With one under way, its failure is a step that takes the acknowledgement back. */
  lemma HeldAckedFalls(s: State, h: Hashes, p: Policy, w: nat, base: real) returns (s': State)
    requires Clean(s.t, p) && w in s.workers && s.workers[w].id in s.t && s.t[s.workers[w].id].status == Acked
    ensures Next(s, h, p, Fail(w, base), s')
    ensures s.workers[w].id in s'.t && s'.t[s.workers[w].id].status != Acked
  {
    var id := s.workers[w].id;
    var failed := Failed(s.t[id], s.workers[w].began, base);
    assert NaturalOf(failed) == NaturalOf(s.t[id]) && !Conflicts(s.t, failed);
    s' := Step(s, h, p, Fail(w, base));
  }

  /** The row has left its acknowledged state in this step although it is still there. */
  ghost predicate Falls(s: State, h: Hashes, p: Policy, ev: Event, s': State, id: string) {
    Next(s, h, p, ev, s') && id in s'.t && s'.t[id].status != Acked
  }

  /** An acknowledged row can leave that state exactly when some delivery of it is still under way. */
  lemma AckedFallsExactlyWhenHeld(s: State, h: Hashes, p: Policy, id: string)
    requires Clean(s.t, p) && PolicyOk(p) && id in s.t && s.t[id].status == Acked
    ensures (exists ev, s' :: Falls(s, h, p, ev, s', id)) <==> Held(s, id)
  {
    if Held(s, id) {
      var w :| w in s.workers && s.workers[w].id == id;
      var s' := HeldAckedFalls(s, h, p, w, 1.0);
      assert Falls(s, h, p, Fail(w, 1.0), s', id);
    } else {
      forall ev, s' | Falls(s, h, p, ev, s', id)
        ensures false
      {
        UnheldAckedStays(s, h, p, ev, s', id);
      }
    }
  }

  /**
   * Over any run, with whatever clocks: once a row is acknowledged and no delivery of it is under
   * way, it stays as it is while it is there, and no later step calls a sender for it.
   */
  lemma UnheldAckedForGood(
    states: seq<State>, events: seq<Event>, h: Hashes, p: Policy, m: nat, n: nat, id: string)
    requires IsRun(states, events, h, p) && PolicyOk(p) && m <= n < |states| && Clean(states[m].t, p)
    requires forall i :: m <= i <= n ==> id in states[i].t
    requires states[m].t[id].status == Acked && !Held(states[m], id)
    ensures Clean(states[n].t, p) && states[n].t[id] == states[m].t[id] && !Held(states[n], id)
  {
    var r := states[m].t[id];
    forall i | m <= i < n && Final(states[i], p, id, r)
      ensures Final(states[i + 1], p, id, r)
    {
      UnheldNext(states, events, h, p, i, id, r);
    }
    Preserved(states, m, n, (s: State) => Final(s, p, id, r));
  }

  /** Row `r` is acknowledged under `id` and no delivery of it is under way. */
  ghost predicate Final(s: State, p: Policy, id: string, r: Row) {
    Clean(s.t, p) && id in s.t && s.t[id] == r && r.status == Acked && !Held(s, id)
  }

  lemma {:induction false} Preserved<S(!new)>(states: seq<S>, m: nat, n: nat, inv: S -> bool)
    requires m <= n < |states| && inv(states[m])
    requires forall i :: m <= i < n && inv(states[i]) ==> inv(states[i + 1])
    ensures inv(states[n])
  {
    if n > m { Preserved(states, m, n - 1, inv); }
  }

  lemma RunStep(states: seq<State>, events: seq<Event>, h: Hashes, p: Policy, i: nat)
    requires IsRun(states, events, h, p) && i < |events|
    ensures Next(states[i], h, p, events[i], states[i + 1])
  {
  }

  lemma UnheldNext(states: seq<State>, events: seq<Event>, h: Hashes, p: Policy, i: nat, id: string, r: Row)
    requires IsRun(states, events, h, p) && i < |events| && PolicyOk(p)
    requires Final(states[i], p, id, r) && id in states[i + 1].t
    ensures Final(states[i + 1], p, id, r)
  {
    RunStep(states, events, h, p, i);
    UnheldStep(states[i], h, p, events[i], states[i + 1], id);
  }

  lemma UnheldStep(s: State, h: Hashes, p: Policy, ev: Event, s': State, id: string)
    requires Clean(s.t, p) && PolicyOk(p) && Next(s, h, p, ev, s')
    requires id in s.t && id in s'.t && s.t[id].status == Acked && !Held(s, id)
    ensures Clean(s'.t, p) && s'.t[id] == s.t[id] && !Held(s', id)
  {
    StepKeepsClean(s, h, p, ev, s');
    UnheldAckedStays(s, h, p, ev, s', id);
  }

  /**
   * When an answer was delivered but the engage pass could not record that, a later pass asks
   * again, in any wording: whatever happened in between, it is given the acknowledged row, the
   * table does not change, and no sender is called.
   */
  lemma RetryOfAckedSendsNothing(
    states: seq<State>, events: seq<Event>, h: Hashes, p: Policy, m: nat, n: nat, id: string,
    payload: string, maxAttempts: nat, now: real, later: real)
    requires IsRun(states, events, h, p) && PolicyOk(p) && m <= n < |states| && Clean(states[m].t, p)
    requires forall i :: m <= i <= n ==> id in states[i].t
    requires states[m].t[id].status == Acked && !Held(states[m], id)
    ensures EnqueueIn(states[n].t, h, NaturalOf(states[m].t[id]), payload, maxAttempts, now) ==
      (states[n].t, states[m].t[id])
    ensures !CanBegin(states[n].t, id, later)
  {
    UnheldAckedForGood(states, events, h, p, m, n, id);
    AckedAnswersRetry(states[n].t, h, NaturalOf(states[m].t[id]), payload, maxAttempts, now, later, id);
  }

  // ----- The lease assumption ---------------------------------------------------------------------

  /** Every delivery under way began less than the lease ago whenever a process opens the table. */
  ghost predicate Timely(s: State, ev: Event) {
    ev.Open? ==> forall w :: w in s.workers ==> s.workers[w].began > ev.now - LEASE_SECONDS
  }

  /** Each delivery under way owns its row. */
  ghost predicate Owned(s: State) {
    && (forall w :: w in s.workers ==> OwnedBy(s, w))
    && (forall v, w :: v in s.workers && w in s.workers && s.workers[v].id == s.workers[w].id ==> v == w)
  }

  ghost predicate OwnedBy(s: State, w: nat)
    requires w in s.workers
  {
    var k := s.workers[w];
    k.id in s.t && s.t[k.id].status == Sending && s.t[k.id].updatedAt == k.began
  }

  lemma EndingKeepsOwned(s: State, w: nat, t': Table)
    requires Owned(s) && w in s.workers && t'.Keys == s.t.Keys
    requires forall id :: id in s.t && id != s.workers[w].id ==> t'[id] == s.t[id]
    ensures Owned(Ended(s, w, t'))
  {
    var s' := Ended(s, w, t');
    forall v | v in s'.workers ensures OwnedBy(s', v) { assert OwnedBy(s, v) && OwnedBy(s, w); }
  }

  lemma OpeningKeepsOwned(s: State, p: Policy, now: real, prune: Option<seq<Row>>, s': State)
    requires Owned(s) && Clean(s.t, p) && PolicyOk(p) && Timely(s, Open(now, prune))
    requires var o := Opened(s.t, p, false, true, now);
      s' == s.(t := if prune.Some? then Pruned(o, prune.value, now) else o)
    ensures Owned(s')
  {
    OpeningAgainOnlyRecovers(s.t, p, true, now);
    forall w | w in s'.workers ensures OwnedBy(s', w) { assert OwnedBy(s, w); }
  }

  lemma StepKeepsOwned(s: State, h: Hashes, p: Policy, ev: Event, s': State)
    requires Clean(s.t, p) && PolicyOk(p) && Owned(s) && Next(s, h, p, ev, s') && Timely(s, ev)
    ensures Owned(s')
  {
    match ev
    case Enqueue(k, payload, maxAttempts, now) =>
      EnqueueKeepsRows(s.t, h, k, payload, maxAttempts, now);
      forall w | w in s'.workers ensures OwnedBy(s', w) { assert OwnedBy(s, w); }
    case Begin(w, id, now) =>
      forall v | v in s'.workers ensures OwnedBy(s', v) { if v in s.workers { assert OwnedBy(s, v); } }
    case Fail(w, base) =>
      if w in s.workers {
        assert OwnedBy(s, w);
        EndingKeepsOwned(s, w, Write(s.t, Failed(s.t[s.workers[w].id], s.workers[w].began, base)));
      }
    case Ack(w, ids, now) =>
      if w in s.workers {
        assert OwnedBy(s, w);
        EndingKeepsOwned(s, w, Write(s.t, Acknowledged(s.t[s.workers[w].id], ids, now)));
      }
    case Die(w) => if w in s.workers { EndingKeepsOwned(s, w, s.t); }
    case Open(now, prune) => OpeningKeepsOwned(s, p, now, prune, s');
  }

  /** A delivery that owns its row leaves no other acknowledged row held. */
  lemma OwnedAckedIsUnheld(s: State, id: string)
    requires Owned(s) && id in s.t && s.t[id].status == Acked
    ensures !Held(s, id)
  {
    forall w | w in s.workers ensures s.workers[w].id != id { assert OwnedBy(s, w); }
  }

  /**
   * Over a run in which every sender call ends within the lease, every acknowledgement is final:
   * the row stays as it is while it is there, and no later step calls a sender for it.
   */
  lemma AckedForGood(states: seq<State>, events: seq<Event>, h: Hashes, p: Policy, m: nat, n: nat, id: string)
    requires IsRun(states, events, h, p) && PolicyOk(p) && m <= n < |states|
    requires Clean(states[0].t, p) && Owned(states[0])
    requires forall i :: 0 <= i < |events| ==> Timely(states[i], events[i])
    requires forall i :: m <= i <= n ==> id in states[i].t
    requires states[m].t[id].status == Acked
    ensures Clean(states[n].t, p) && Owned(states[n])
    ensures states[n].t[id] == states[m].t[id] && !Held(states[n], id)
  {
    RunIsOwned(states, events, h, p, m);
    RunIsOwned(states, events, h, p, n);
    OwnedAckedIsUnheld(states[m], id);
    UnheldAckedForGood(states, events, h, p, m, n, id);
  }

  lemma {:induction false} RunIsOwned(states: seq<State>, events: seq<Event>, h: Hashes, p: Policy, n: nat)
    requires IsRun(states, events, h, p) && PolicyOk(p) && n < |states|
    requires Clean(states[0].t, p) && Owned(states[0])
    requires forall i :: 0 <= i < |events| ==> Timely(states[i], events[i])
    ensures Clean(states[n].t, p) && Owned(states[n])
  {
    if n > 0 {
      RunIsOwned(states, events, h, p, n - 1);
      StepKeepsClean(states[n - 1], h, p, events[n - 1], states[n]);
      StepKeepsOwned(states[n - 1], h, p, events[n - 1], states[n]);
    }
  }

  lemma WriteOnly(r: Row, r': Row)
    requires r'.id == r.id
    ensures Write(map[r.id := r], r') == map[r.id := r'] && !Conflicts(map[r.id := r], r')
  {
  }

  lemma Extend(states: seq<State>, events: seq<Event>, h: Hashes, p: Policy, ev: Event, s: State)
      returns (more: seq<State>, evs: seq<Event>)
    requires IsRun(states, events, h, p) && Next(states[|events|], h, p, ev, s)
    ensures IsRun(more, evs, h, p) && more[0] == states[0] && more == states + [s]
  {
    more, evs := states + [s], events + [ev];
    forall i | 0 <= i < |evs| ensures Next(more[i], h, p, evs[i], more[i + 1]) {
      if i < |events| { assert more[i] == states[i] && more[i + 1] == states[i + 1]; }
    }
  }

  lemma BeginOnly(r: Row, workers: map<nat, Worker>, h: Hashes, p: Policy, w: nat, now: real) returns (s': State)
    requires (r.status == Pending || r.status == Retry) && r.nextAt <= now && w !in workers
    ensures Next(State(map[r.id := r], workers), h, p, Begin(w, r.id, now), s')
    ensures s' == State(map[r.id := Begun(r, now)], workers[w := Worker(r.id, now)])
  {
    s' := State(map[r.id := Begun(r, now)], workers[w := Worker(r.id, now)]);
    WriteOnly(r, Begun(r, now));
    assert map[r.id := r][r.id := Begun(r, now)] == map[r.id := Begun(r, now)];
  }

  lemma AckOnly(r: Row, workers: map<nat, Worker>, h: Hashes, p: Policy, w: nat, ids: seq<int>, now: real)
      returns (s': State)
    requires w in workers && workers[w].id == r.id
    ensures Next(State(map[r.id := r], workers), h, p, Ack(w, ids, now), s')
    ensures s' == State(map[r.id := Acknowledged(r, ids, now)], workers - {w})
  {
    WriteOnly(r, Acknowledged(r, ids, now));
    s' := State(map[r.id := Acknowledged(r, ids, now)], workers - {w});
  }

  lemma FailOnly(r: Row, workers: map<nat, Worker>, h: Hashes, p: Policy, w: nat, base: real) returns (s': State)
    requires w in workers && workers[w].id == r.id
    ensures Next(State(map[r.id := r], workers), h, p, Fail(w, base), s')
    ensures s' == State(map[r.id := Failed(r, workers[w].began, base)], workers - {w})
  {
    WriteOnly(r, Failed(r, workers[w].began, base));
    s' := State(map[r.id := Failed(r, workers[w].began, base)], workers - {w});
  }

  lemma OpenOnly(r: Row, workers: map<nat, Worker>, h: Hashes, p: Policy, now: real) returns (s': State)
    requires PolicyOk(p) && p.norm(r) == r
    ensures Next(State(map[r.id := r], workers), h, p, Open(now, None), s')
    ensures s' == State(map[r.id := RecoverRow(r, now)], workers)
  {
    OpeningOnly(r, p, now);
    s' := State(map[r.id := RecoverRow(r, now)], workers);
  }

  /**
   * Without the assumption the guarantee fails: a delivery that outlives its lease and then fails
   * takes a row that was acknowledged in the meantime back to `retry`.
   */
  lemma LateFailureUndoesAck(r: Row, h: Hashes, p: Policy, ids: seq<int>, base: real)
      returns (states: seq<State>, events: seq<Event>)
    requires PolicyOk(p) && p.norm(r) == r && r.status == Pending && r.nextAt <= 0.0 && r.attempts + 2 < r.maxAttempts
    ensures IsRun(states, events, h, p) && |states| == 6 && states[0] == State(map[r.id := r], map[])
    ensures r.id in states[4].t && states[4].t[r.id].status == Acked
    ensures r.id in states[5].t && states[5].t[r.id].status == Retry
  {
    var t, s0 := LEASE_SECONDS, State(map[r.id := r], map[]);
    var r1 := Begun(r, 0.0);
    assert SameIntent(r, r1);
    var r2 := RecoverRow(r1, t);
    var r3 := Begun(r2, t);
    var s1 := BeginOnly(r, map[], h, p, 1, 0.0);
    var s2 := OpenOnly(r1, s1.workers, h, p, t);
    var s3 := BeginOnly(r2, s2.workers, h, p, 2, t);
    var s4 := AckOnly(r3, s3.workers, h, p, 2, ids, t);
    var s5 := FailOnly(Acknowledged(r3, ids, t), s4.workers, h, p, 1, base);
    states, events := Extend([s0], [], h, p, Begin(1, r.id, 0.0), s1);
    states, events := Extend(states, events, h, p, Open(t, None), s2);
    states, events := Extend(states, events, h, p, Begin(2, r.id, t), s3);
    states, events := Extend(states, events, h, p, Ack(2, ids, t), s4);
    states, events := Extend(states, events, h, p, Fail(1, base), s5);
  }

  lemma OpeningOnly(r: Row, p: Policy, now: real)
    requires PolicyOk(p) && p.norm(r) == r
    ensures Opened(map[r.id := r], p, false, true, now) == map[r.id := RecoverRow(r, now)]
  {
    OpeningAgainOnlyRecovers(map[r.id := r], p, true, now);
  }

  // ----- Attempts ----------------------------------------------------------------------------------

  /** A row still to be sent has attempts left, and a row being sent is within its limit. */
  predicate WithinLimit(r: Row) {
    && (r.status == Pending || r.status == Retry ==> r.attempts < r.maxAttempts)
    && (r.status == Sending ==> r.attempts <= r.maxAttempts)
  }

  ghost predicate AllWithin(t: Table) { forall id :: id in t ==> WithinLimit(t[id]) }

  /**
   * A delivery abandoned on its last attempt is about to be taken back, or a superseded row that used
   * its attempts up is sent.
   */
  ghost predicate Overdraws(s: State, ev: Event) {
    || (ev.Open? && exists id ::
          id in s.t && s.t[id].attempts >= s.t[id].maxAttempts && RecoverRow(s.t[id], ev.now) != s.t[id])
    || (ev.Begin? && CanBegin(s.t, ev.id, ev.now) && s.t[ev.id].attempts >= s.t[ev.id].maxAttempts)
  }

  lemma OpenWithin(s: State, p: Policy, now: real, prune: Option<seq<Row>>, t': Table)
    requires Clean(s.t, p) && PolicyOk(p) && AllWithin(s.t)
    requires var o := Opened(s.t, p, false, true, now); t' == if prune.Some? then Pruned(o, prune.value, now) else o
    ensures AllWithin(t') <==> !Overdraws(s, Open(now, prune))
  {
    if id :| id in s.t && s.t[id].attempts >= s.t[id].maxAttempts && RecoverRow(s.t[id], now) != s.t[id] {
      OpenRow(s.t, p, now, prune, t', id);
      assert !WithinLimit(t'[id]);
    } else {
      forall id | id in t' ensures WithinLimit(t'[id]) {
        assert id in s.t by { OpeningMigrates(s.t, p, false, true, now); }
        OpenRow(s.t, p, now, prune, t', id);
        assert WithinLimit(s.t[id]);
      }
    }
  }

  /**
   * Attempts stay within their limit in a step exactly when it neither recovers a delivery
   * abandoned on its last attempt nor sends a superseded row that has none left.
   */
  lemma AttemptsStayWithinExactlyWhen(s: State, h: Hashes, p: Policy, ev: Event, s': State)
    requires Clean(s.t, p) && PolicyOk(p) && Next(s, h, p, ev, s') && AllWithin(s.t)
    ensures AllWithin(s'.t) <==> !Overdraws(s, ev)
  {
    match ev
    case Open(now, prune) => OpenWithin(s, p, now, prune, s'.t);
    case Begin(w, id, now) =>
      if CanBegin(s.t, id, now) { assert WithinLimit(s'.t[id]) <==> s.t[id].attempts < s.t[id].maxAttempts; }
    case _ => forall id | id in s'.t ensures WithinLimit(s'.t[id]) { if id in s.t { assert WithinLimit(s.t[id]); } }
  }

  /** Recovery of a last attempt does exceed the limit: the next delivery is attempt number max + 1. */
  lemma RecoveryExceedsLimit(r: Row, h: Hashes, p: Policy, now: real)
    requires PolicyOk(p) && p.norm(r) == r && r.status == Sending && r.updatedAt <= now - LEASE_SECONDS
      && r.attempts == r.maxAttempts
    ensures var s0 := State(map[r.id := r], map[]);
      var s2 := Step(Step(s0, h, p, Open(now, None)), h, p, Begin(0, r.id, now));
      r.id in s2.t && s2.t[r.id].status == Sending && s2.t[r.id].attempts == s2.t[r.id].maxAttempts + 1
  {
    OpeningOnly(r, p, now);
  }
}
