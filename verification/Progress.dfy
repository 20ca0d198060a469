/** That cursors do move: how far a pass and a turn take them, in numbers. */
module Progress {
  import opened Prelude
  import opened Candidates
  import opened Scheduling
  import opened Plans
  import opened Ceilings
  import opened TopicLanes
  import opened CarryOut
  import opened Deliveries
  import opened ChatPass
  import opened Ledger

  // ----- The cursor loop -------------------------------------------------------------------------

  /** Batch `i` belongs to the longest beginning of topic `t`'s batches that are all settled. */
  ghost predicate InPrefix(work: seq<Batch>, good: seq<bool>, t: Topic, i: nat)
    requires i < |work| == |good|
  {
    work[i].topic == t && forall j :: 0 <= j <= i && work[j].topic == t ==> good[j]
  }

  /** The cursor is at or past all of these messages. */
  ghost predicate Covers(cursor: Option<nat>, cands: seq<Candidate>) {
    forall x :: x in cands ==> cursor.Some? && x.spoolSeq <= cursor.value
  }

  /** The cursor is the larger of the old one and the last number of the prefix among the first `n` batches. */
  ghost predicate AtPrefixEnd(e: Entry, e': Entry, work: seq<Batch>, good: seq<bool>, n: nat, t: Topic)
    requires n <= |work| == |good|
  {
    && (e.cursor.Some? ==> e'.cursor.Some? && e'.cursor.value >= e.cursor.value)
    && (forall i :: 0 <= i < n && InPrefix(work, good, t, i) ==> Covers(e'.cursor, work[i].cands))
    && (e'.cursor == e.cursor || OnPrefix(e'.cursor, work, good, n, t))
  }

  ghost predicate OnPrefix(cursor: Option<nat>, work: seq<Batch>, good: seq<bool>, n: nat, t: Topic)
    requires n <= |work| == |good|
  {
    exists i, y ::
      0 <= i < n && InPrefix(work, good, t, i) && y in work[i].cands && cursor == Some(y.spoolSeq)
  }

  lemma AdvanceReaches(e: Entry, cands: seq<Candidate>, clear: bool)
    requires cands != []
    ensures var e' := Advance(e, cands, clear);
      && Covers(e'.cursor, cands)
      && (e.cursor.Some? ==> e'.cursor.Some? && e'.cursor.value >= e.cursor.value)
      && (e'.cursor == e.cursor || exists y :: y in cands && e'.cursor == Some(y.spoolSeq))
  {
    AdvanceSource(e, cands, clear);
  }

  lemma PrefixStep(e: Entry, e1: Entry, e2: Entry, work: seq<Batch>, good: seq<bool>, n: nat, t: Topic, clear: bool)
    requires n < |work| == |good| && work[n].cands != [] && AtPrefixEnd(e, e1, work, good, n, t)
    requires e2 == if InPrefix(work, good, t, n) then Advance(e1, work[n].cands, clear) else e1
    ensures AtPrefixEnd(e, e2, work, good, n + 1, t)
  {
    if OnPrefix(e1.cursor, work, good, n, t) {
      var i, y :| 0 <= i < n && InPrefix(work, good, t, i) && y in work[i].cands && e1.cursor == Some(y.spoolSeq);
      assert OnPrefix(e1.cursor, work, good, n + 1, t);
    }
    if InPrefix(work, good, t, n) {
      AdvanceReaches(e1, work[n].cands, clear);
      if y :| y in work[n].cands && e2.cursor == Some(y.spoolSeq) { assert OnPrefix(e2.cursor, work, good, n + 1, t); }
    }
    forall i | 0 <= i < n + 1 && InPrefix(work, good, t, i) ensures Covers(e2.cursor, work[i].cands) {
      if i < n { assert Covers(e1.cursor, work[i].cands); }
    }
    assert e2.cursor == e.cursor || OnPrefix(e2.cursor, work, good, n + 1, t);
  }

  lemma OneBatch(d: Drain, b: Batch, good: bool, failing: set<Topic>, t: Topic)
    requires b.cands != [] && b.topic in d.topics && t in d.topics
    ensures var d' := DrainOne(d, b, good, failing);
      && t in d'.topics && (t in d'.closed <==> t in d.closed || (b.topic == t && !good))
      && d'.topics[t] == if b.topic == t && t !in d.closed && good then Advance(d.topics[t], b.cands, t !in failing)
                         else d.topics[t]
  {
  }

  ghost predicate SomeUnsettled(work: seq<Batch>, good: seq<bool>, n: nat, t: Topic)
    requires n <= |work| == |good|
  {
    exists i :: 0 <= i < n && work[i].topic == t && !good[i]
  }

  lemma PrefixEnds(work: seq<Batch>, good: seq<bool>, n: nat, t: Topic)
    requires n < |work| == |good|
    ensures SomeUnsettled(work, good, n + 1, t) <==> SomeUnsettled(work, good, n, t) || (work[n].topic == t && !good[n])
    ensures InPrefix(work, good, t, n) <==> work[n].topic == t && !SomeUnsettled(work, good, n, t) && good[n]
  {
  }

  lemma DrainedOneMore(e: Entry, d: Drain, d': Drain, work: seq<Batch>, good: seq<bool>, n: nat, failing: set<Topic>,
      t: Topic)
    requires n < |work| == |good| && work[n].cands != [] && work[n].topic in d.topics && t in d.topics
    requires d' == DrainOne(d, work[n], good[n], failing)
    requires (t in d.closed <==> SomeUnsettled(work, good, n, t)) && AtPrefixEnd(e, d.topics[t], work, good, n, t)
    ensures t in d'.topics && (t in d'.closed <==> SomeUnsettled(work, good, n + 1, t))
    ensures AtPrefixEnd(e, d'.topics[t], work, good, n + 1, t)
  {
    OneBatch(d, work[n], good[n], failing, t);
    PrefixEnds(work, good, n, t);
    PrefixStep(e, d.topics[t], d'.topics[t], work, good, n, t, t !in failing);
  }

  /** A topic is closed exactly after its first unsettled batch, and its cursor stands at the end of the prefix. */
  lemma {:induction false} DrainProgress(
    topics: map<Topic, Entry>, work: seq<Batch>, good: seq<bool>, n: nat, failing: set<Topic>, t: Topic)
    requires n <= |work| == |good| && t in topics
    requires forall i :: 0 <= i < |work| ==> work[i].cands != [] && work[i].topic in topics
    ensures var d := DrainAll(topics, work, good, n, failing);
      && (t in d.closed <==> SomeUnsettled(work, good, n, t))
      && AtPrefixEnd(topics[t], d.topics[t], work, good, n, t)
  {
    if n > 0 {
      DrainProgress(topics, work, good, n - 1, failing, t);
      DrainedOneMore(topics[t], DrainAll(topics, work, good, n - 1, failing), DrainAll(topics, work, good, n, failing),
                     work, good, n - 1, failing, t);
    }
  }

  // ----- A pass ----------------------------------------------------------------------------------

  /** Batch `k` was answered or given up, and nothing of it was put off or failed. */
  ghost predicate Through(work: seq<Batch>, statuses: seq<Status>, deferred: set<int>, k: nat)
    requires k < |work| == |statuses|
  {
    && (statuses[k] == Valid || statuses[k] == Quarantined)
    && forall c :: c in work[k].cands ==> c.mid !in deferred
  }

  ghost predicate AllThrough(work: seq<Batch>, statuses: seq<Status>, deferred: set<int>, n: nat, t: Topic)
    requires n <= |work| == |statuses|
  {
    forall k :: 0 <= k < n && work[k].topic == t ==> Through(work, statuses, deferred, k)
  }

  lemma FlagsSayThrough(work: seq<Batch>, statuses: seq<Status>, deferred: set<int>, t: Topic)
    requires |work| == |statuses|
    ensures var good := SettledFlags(work, statuses, deferred);
      && (SomeUnsettled(work, good, |work|, t) <==> !AllThrough(work, statuses, deferred, |work|, t))
      && (forall k :: 0 <= k < |work| ==>
            (InPrefix(work, good, t, k) <==> work[k].topic == t && AllThrough(work, statuses, deferred, k + 1, t)))
  {
    var good := SettledFlags(work, statuses, deferred);
    forall k | 0 <= k < |work| ensures good[k] <==> Through(work, statuses, deferred, k) { }
  }

  /**
   * The cursor went from `was` to the larger of it and the last number of the batches of topic `t`
   * up to the first one that is not through.
   */
  ghost predicate MovedTo(was: Option<nat>, cursor: Option<nat>, work: seq<Batch>, statuses: seq<Status>,
      deferred: set<int>, t: Topic)
    requires |work| == |statuses|
  {
    && (was.Some? ==> cursor.Some? && cursor.value >= was.value)
    && (forall k :: 0 <= k < |work| && work[k].topic == t && AllThrough(work, statuses, deferred, k + 1, t) ==>
          Covers(cursor, work[k].cands))
    && (cursor == was || exists k, y ::
          0 <= k < |work| && work[k].topic == t && AllThrough(work, statuses, deferred, k + 1, t)
          && y in work[k].cands && cursor == Some(y.spoolSeq))
  }

  lemma PrefixIsThrough(e: Entry, e': Entry, work: seq<Batch>, statuses: seq<Status>, deferred: set<int>, t: Topic)
    requires |work| == |statuses|
    requires AtPrefixEnd(e, e', work, SettledFlags(work, statuses, deferred), |work|, t)
    ensures MovedTo(e.cursor, e'.cursor, work, statuses, deferred, t)
  {
    var good := SettledFlags(work, statuses, deferred);
    FlagsSayThrough(work, statuses, deferred, t);
    forall k | 0 <= k < |work| && work[k].topic == t && AllThrough(work, statuses, deferred, k + 1, t)
      ensures Covers(e'.cursor, work[k].cands)
    {
      assert InPrefix(work, good, t, k);
    }
    if OnPrefix(e'.cursor, work, good, |work|, t) {
      var k, y :| 0 <= k < |work| && InPrefix(work, good, t, k) && y in work[k].cands && e'.cursor == Some(y.spoolSeq);
      assert AllThrough(work, statuses, deferred, k + 1, t);
    }
  }

  lemma FinishMoves(groups: seq<seq<Candidate>>, merged: seq<Candidate>, work: seq<Batch>, ev: Eval, acts: Acts,
      now: int, t: Topic)
    requires |ev.statuses| == |work| && t in ev.topics
    requires forall i :: 0 <= i < |work| ==> work[i].cands != [] && work[i].topic in ev.topics
    ensures var p := Finish(groups, merged, work, ev, acts, now);
      && t in p.topics
      && (t in p.pending <==> !AllThrough(work, ev.statuses, acts.deferred, |work|, t))
      && MovedTo(ev.topics[t].cursor, p.topics[t].cursor, work, ev.statuses, acts.deferred, t)
  {
    var noted, good := Noted(ev, merged, acts, now), SettledFlags(work, ev.statuses, acts.deferred);
    var failing := InvalidTopics(work, ev.statuses) + FailedTopics(merged, acts.failed);
    DrainProgress(noted, work, good, |work|, failing, t);
    FlagsSayThrough(work, ev.statuses, acts.deferred, t);
    PrefixIsThrough(noted[t], DrainAll(noted, work, good, |work|, failing).topics[t], work, ev.statuses,
                    acts.deferred, t);
  }

  /** What a pass left of topic `t`, said about its outcome. */
  ghost predicate LeftAs(p: Pass, was: Option<nat>, statuses: seq<Status>, deferred: set<int>, t: Topic) {
    && |p.work| == |statuses| && t in p.topics
    && (t in p.pending <==> !AllThrough(p.work, statuses, deferred, |p.work|, t))
    && MovedTo(was, p.topics[t].cursor, p.work, statuses, deferred, t)
  }

  lemma FinishLeaves(groups: seq<seq<Candidate>>, merged: seq<Candidate>, work: seq<Batch>, ev: Eval, acts: Acts,
      now: int, t: Topic, was: Option<nat>)
    requires |ev.statuses| == |work| && t in ev.topics && ev.topics[t].cursor == was
    requires forall i :: 0 <= i < |work| ==> work[i].cands != [] && work[i].topic in ev.topics
    ensures LeftAs(Finish(groups, merged, work, ev, acts, now), was, ev.statuses, acts.deferred, t)
  {
    FinishMoves(groups, merged, work, ev, acts, now, t);
  }

  lemma EvaluationStandsAt(topics: map<Topic, Entry>, chatCursor: Option<nat>, w: World, ev: Eval, t: Topic)
    requires Fits(ev, topics, chatCursor, w) && t in ev.topics
    ensures ev.topics[t].cursor == EntryOf(topics, chatCursor, t).cursor
  {
    OpenTopicsKeeps(topics, chatCursor, FromRows(w.rows));
  }

  lemma WithLeaves(topics: map<Topic, Entry>, chatCursor: Option<nat>, w: World, ev: Eval, acts: Acts, now: int,
      t: Topic)
    requires Fits(ev, topics, chatCursor, w) && t in ev.topics
    ensures LeftAs(PassWith(topics, chatCursor, w, ev, acts, now), EntryOf(topics, chatCursor, t).cursor, ev.statuses,
                   acts.deferred, t)
  {
    var merged := MergedOf(topics, chatCursor, w);
    var work := WorkBatches(LanesOf(merged));
    WorkFits(ev, topics, chatCursor, w, work);
    EvaluationStandsAt(topics, chatCursor, w, ev, t);
    FinishLeaves(GroupsOf(topics, chatCursor, w), merged, work, ev, acts, now, t,
                 EntryOf(topics, chatCursor, t).cursor);
  }

  /**
   * What a pass leaves of a topic: it is pending exactly if some batch of it is not through, and its
   * cursor has followed the batches before that one to the end.
   */
  lemma PassMoves(topics: map<Topic, Entry>, chatCursor: Option<nat>, budget: Budget, calls: nat, now: int, w: World,
      t: Topic)
    requires t in Evaluation(topics, chatCursor, calls, now, w).topics
    ensures var ev, merged := Evaluation(topics, chatCursor, calls, now, w), MergedOf(topics, chatCursor, w);
      LeftAs(RunPass(topics, chatCursor, budget, calls, now, w), EntryOf(topics, chatCursor, t).cursor, ev.statuses,
             Act(ev, merged, budget, w).deferred, t)
  {
    var ev, merged := Evaluation(topics, chatCursor, calls, now, w), MergedOf(topics, chatCursor, w);
    WithLeaves(topics, chatCursor, w, ev, Act(ev, merged, budget, w), now, t);
  }

  /** A pass leaves something pending exactly if some batch is not through. */
  lemma PendingExactlyWhen(topics: map<Topic, Entry>, chatCursor: Option<nat>, budget: Budget, calls: nat, now: int,
      w: World)
    ensures var ev, merged := Evaluation(topics, chatCursor, calls, now, w), MergedOf(topics, chatCursor, w);
      var p, deferred := RunPass(topics, chatCursor, budget, calls, now, w), Act(ev, merged, budget, w).deferred;
      |p.work| == |ev.statuses|
      && (p.pending == {} <==> forall k :: 0 <= k < |p.work| ==> Through(p.work, ev.statuses, deferred, k))
  {
    var ev, merged := Evaluation(topics, chatCursor, calls, now, w), MergedOf(topics, chatCursor, w);
    WithPending(topics, chatCursor, w, ev, Act(ev, merged, budget, w), now);
  }

  lemma WithPending(topics: map<Topic, Entry>, chatCursor: Option<nat>, w: World, ev: Eval, acts: Acts, now: int)
    requires Fits(ev, topics, chatCursor, w)
    ensures var p := PassWith(topics, chatCursor, w, ev, acts, now);
      |p.work| == |ev.statuses|
      && (p.pending == {} <==> forall k :: 0 <= k < |p.work| ==> Through(p.work, ev.statuses, acts.deferred, k))
  {
    var p := PassWith(topics, chatCursor, w, ev, acts, now);
    var work := WorkBatches(LanesOf(MergedOf(topics, chatCursor, w)));
    WorkFits(ev, topics, chatCursor, w, work);
    PendingHasBatch(GroupsOf(topics, chatCursor, w), MergedOf(topics, chatCursor, w), work, ev, acts, now);
    forall k | 0 <= k < |work| && work[k].topic !in p.pending ensures Through(work, ev.statuses, acts.deferred, k) {
      WithLeaves(topics, chatCursor, w, ev, acts, now, work[k].topic);
    }
    forall t | t in p.pending ensures exists k :: 0 <= k < |work| && !Through(work, ev.statuses, acts.deferred, k) {
      WithLeaves(topics, chatCursor, w, ev, acts, now, t);
    }
  }

  lemma PendingHasBatch(groups: seq<seq<Candidate>>, merged: seq<Candidate>, work: seq<Batch>, ev: Eval, acts: Acts,
      now: int)
    requires |ev.statuses| == |work|
    requires forall i :: 0 <= i < |work| ==> work[i].cands != [] && work[i].topic in ev.topics
    ensures Finish(groups, merged, work, ev, acts, now).pending <= ev.topics.Keys
  {
    ClosedAreOpen(Noted(ev, merged, acts, now), work, SettledFlags(work, ev.statuses, acts.deferred), |work|,
                  InvalidTopics(work, ev.statuses) + FailedTopics(merged, acts.failed));
  }

  lemma {:induction false} ClosedAreOpen(
    topics: map<Topic, Entry>, work: seq<Batch>, good: seq<bool>, n: nat, failing: set<Topic>)
    requires n <= |work| == |good|
    requires forall i :: 0 <= i < |work| ==> work[i].cands != [] && work[i].topic in topics
    ensures DrainAll(topics, work, good, n, failing).closed <= topics.Keys
  {
    if n > 0 { ClosedAreOpen(topics, work, good, n - 1, failing); }
  }

  // ----- Why something is pending ----------------------------------------------------------------

  /** The plans the ceilings let through, for messages that were fetched and are not the agent's own. */
  function LetThrough(ev: Eval, merged: seq<Candidate>): seq<Plan> {
    var allowed := set c | c in merged && !c.fromMe :: c.mid;
    Filter(AdmitAll(ev.plans, ev.demanded, (_: string) => false).out, (p: Plan) => p.mid in allowed)
  }

  /** The plans that are carried out. */
  function Final(ev: Eval, merged: seq<Candidate>, w: World): seq<Plan> {
    var cands := ById(merged);
    InScene(ResolveAll(LetThrough(ev, merged), Resolver(cands.Keys, w.completed, w.compose)).out, w.scene, cands)
  }

  function DeskOf(ev: Eval, w: World): Desk {
    Desk(CapsOf(w.overrides), ev.demanded, w.hasOwner, w.hasHandle, w.outcome)
  }

  lemma ActIs(ev: Eval, merged: seq<Candidate>, budget: Budget, w: World)
    ensures var acts, plans := Act(ev, merged, budget, w), Final(ev, merged, w);
      var done := ApplyAll(Applied(budget, w.completed, {}, {}, {}, 0), plans, |plans|, DeskOf(ev, w));
      var res := ResolveAll(LetThrough(ev, merged), Resolver(ById(merged).Keys, w.completed, w.compose));
      && acts.budget == done.budget && acts.failed == done.failed
      && acts.deferred == AdmitAll(ev.plans, ev.demanded, (_: string) => false).deferred + ev.held + res.deferred
                          + OutOfScene(res.out, w.scene, ById(merged)) + done.deferred + done.failed
  {
  }

  /**
   * A message is put off for a reason only: it was told to wait, a ceiling of the pass is used up, there
   * is neither a composed answer nor a draft, the scene changed or cannot be seen, or a daily counter, a
   * missing owner or the sender's answer held up one of its plans.
   */
  lemma PutOffOnlyFor(ev: Eval, merged: seq<Candidate>, budget: Budget, w: World, m: int)
    requires m in Act(ev, merged, budget, w).deferred
    ensures var cands, plans := ById(merged), Final(ev, merged, w);
      || m in ev.held
      || PutOffByCeiling(ev.plans, AdmitAll(ev.plans, ev.demanded, (_: string) => false).out, m, ev.demanded)
      || PutOffByComposer(LetThrough(ev, merged), m, cands.Keys, w.completed, w.compose)
      || w.scene.Unavailable?
      || (w.scene.Fresh? && m in cands && cands[m].topic in w.scene.changed)
      || SomeHeldUp(plans, |plans|, m, Act(ev, merged, budget, w).budget, DeskOf(ev, w))
  {
    var plans, start := Final(ev, merged, w), Applied(budget, w.completed, {}, {}, {}, 0);
    ActIs(ev, merged, budget, w);
    var res := ResolveAll(LetThrough(ev, merged), Resolver(ById(merged).Keys, w.completed, w.compose));
    if m in AdmitAll(ev.plans, ev.demanded, (_: string) => false).deferred {
      CeilingsAreUsed(ev.plans, ev.demanded, (_: string) => false, m);
    } else if m in res.deferred {
      ComposerIsNeeded(LetThrough(ev, merged), ById(merged).Keys, w.completed, w.compose, m);
    } else if m !in ev.held && m !in OutOfScene(res.out, w.scene, ById(merged)) {
      AppliedUnlessHeldUp(start, plans, |plans|, DeskOf(ev, w), m);
    }
  }

  // ----- A turn ----------------------------------------------------------------------------------

  /**
   * What a turn that runs to its end leaves of its chat. The chat cursor becomes the larger of itself
   * and the packet's last number when every batch is through, and stays where it was otherwise; the
   * lanes are those of the pass, and there is nothing to wait for.
   */
  lemma TurnMoves(l: Led, chat: string, calls: nat, now: int, w: World)
    requires var e := EntryFor(l, chat); e.retryAt.None? || e.retryAt.value <= now
    ensures var e, (l', left) := EntryFor(l, chat), TakeTurn(l, chat, calls, now, Ran(w));
      var p, ev := PassOf(l, chat, calls, now, w), Evaluation(e.topics, e.cursor, calls, now, w);
      var deferred := Act(ev, MergedOf(e.topics, e.cursor, w), BudgetOf(l, e), w).deferred;
      && chat in l'.chats && |p.work| == |ev.statuses|
      && (var e' := l'.chats[chat];
          && e'.topics == p.topics && e'.retries == 0 && e'.retryAt == None
          && (if w.maxSeq > 0 && forall k :: 0 <= k < |p.work| ==> Through(p.work, ev.statuses, deferred, k) then
                && e'.cursor.Some? && e'.cursor.value >= w.maxSeq
                && (e.cursor.Some? ==> e'.cursor.value >= e.cursor.value)
                && (e'.cursor.value == w.maxSeq || e'.cursor == e.cursor)
              else e'.cursor == e.cursor))
  {
    var e := EntryFor(l, chat);
    PendingExactlyWhen(e.topics, e.cursor, BudgetOf(l, e), calls, now, w);
    AfterPassChat(l, chat, calls, w.maxSeq, PassOf(l, chat, calls, now, w));
  }

  lemma AfterPassChat(l: Led, chat: string, calls: nat, maxSeq: nat, p: Pass)
    ensures var e, l' := EntryFor(l, chat), AfterPass(l, chat, calls, maxSeq, p).0;
      && chat in l'.chats && l'.chats[chat].topics == p.topics
      && l'.chats[chat].retries == 0 && l'.chats[chat].retryAt == None
      && (if p.pending == {} && maxSeq > 0 then
            l'.chats[chat].cursor == Some(if e.cursor.Some? && e.cursor.value > maxSeq then e.cursor.value else maxSeq)
          else l'.chats[chat].cursor == e.cursor)
  {
  }

  /** A chat whose pass broke off waits 15, 30, 60, 120, 240 and then 300 seconds; its cursor stays. */
  lemma BreakWaits(l: Led, chat: string, calls: nat, now: int, topics: map<Topic, Entry>, spent: Budget, left: nat)
    requires var e := EntryFor(l, chat); e.retryAt.None? || e.retryAt.value <= now
    ensures var e, (l', left') := EntryFor(l, chat), TakeTurn(l, chat, calls, now, Broken(topics, spent, left));
      && chat in l'.chats && left' == left && l'.chats[chat].cursor == e.cursor && l'.chats[chat].topics == topics
      && l'.chats[chat].retries == (if e.retries >= 10 then 10 else e.retries + 1)
      && l'.chats[chat].retryAt == Some(now + match e.retries
           case 0 => 15 case 1 => 30 case 2 => 60 case 3 => 120 case 4 => 240 case _ => 300)
  {
    var e := EntryFor(l, chat);
    var n: nat := Min(10, e.retries + 1) - 1;
    assert Doubling(0) == 1 && Doubling(1) == 2 && Doubling(2) == 4 && Doubling(3) == 8 && Doubling(4) == 16;
    assert Doubling(5) == 32;
    if n >= 5 { DoublingGrows(5, n); }
  }

  lemma {:induction false} DoublingGrows(m: nat, n: nat)
    requires m <= n
    ensures Doubling(m) <= Doubling(n)
    decreases n - m
  {
    if m < n { DoublingGrows(m + 1, n); }
  }

  /** A chat met for the first time has sent nothing, read nothing and waits for nothing. */
  lemma NewChat(l: Led, chat: string)
    requires chat !in l.chats
    ensures var e := EntryFor(l, chat);
      && e.day == l.day && e.replies == 0 && e.addressed == 0 && e.retries == 0
      && e.cursor == None && e.retryAt == None && e.topics == map[]
  {
  }

  /** A chat that is waiting is left as it is, and an idle one has nothing to wait for any more. */
  lemma OtherTurns(l: Led, chat: string, calls: nat, now: int, turn: Turn)
    ensures var e, (l', left) := EntryFor(l, chat), TakeTurn(l, chat, calls, now, turn);
      && (e.retryAt.Some? && now < e.retryAt.value ==> l' == l.(chats := l.chats[chat := e]) && left == calls)
      && ((e.retryAt.None? || e.retryAt.value <= now) && turn.Idle? ==>
            l' == l.(chats := l.chats[chat := e.(retries := 0, retryAt := None)]) && left == calls)
  {
  }
}
