/** How often a topic can be told to wait for the same message. */
module LaneWaits {
  import opened Prelude
  import opened Candidates
  import opened Coalescing
  import opened Scheduling
  import opened Plans
  import opened TopicLanes
  import opened ChatPass
  import opened Quarantine
  import opened LaneRuns

  // ----- One pass ------------------------------------------------------------------------------

  function JudgeIn(c: Chat, v: Visit): (Eval, nat) -> Verdict {
    Judging(WorkIn(c, v), v.world.decide, ContextOf(FetchedIn(c, v), c.cursor, v.now, v.world))
  }

  function StartIn(c: Chat, v: Visit): Eval { Start(OpenTopics(c.lanes, c.cursor, FromRows(v.world.rows)), v.calls) }

  /** The verdict on batch `h` of the pass. */
  function VerdictIn(c: Chat, v: Visit, h: nat): Verdict
    requires h < |WorkIn(c, v)|
  {
    JudgeIn(c, v)(EvalAll(StartIn(c, v), WorkIn(c, v), h, JudgeIn(c, v)), h)
  }

  /** Batch `h` got a valid answer that asks to wait with some of its messages. */
  predicate Holds(c: Chat, v: Visit, h: nat)
    requires h < |WorkIn(c, v)|
  {
    VerdictIn(c, v, h).held != {}
  }

  /** The head batch of topic `t`, whose last message is number `m`, was held in this pass. */
  ghost predicate HeadHeld(c: Chat, v: Visit, t: Topic, m: nat) {
    exists h: nat ::
      IsHead(WorkIn(c, v), h) && WorkIn(c, v)[h].topic == t && WorkIn(c, v)[h].cands != []
      && MaxSeq(WorkIn(c, v)[h].cands) == m && Holds(c, v, h)
  }

  predicate SameWait(a: Entry, b: Entry) { a.waitAnchor == b.waitAnchor && a.waitCount == b.waitCount }

  /** The wait record after holding a batch that ends with message `m`. */
  predicate Counts(e: Entry, e': Entry, m: nat) {
    && e'.waitAnchor == Some(m) && e'.waitCount < WAIT_MAX_ATTEMPTS
    && e'.waitCount == (if e.waitAnchor == Some(m) then e.waitCount else 0) + 1
  }

  lemma HeldVerdict(e: Eval, b: Batch, answer: Answer, ctx: Context)
    requires b.cands != [] && Judge(e, b, answer, ctx).held != {}
    ensures var v := Judge(e, b, answer, ctx);
      v.status == Valid && v.stop && Counts(EntryOf(e.topics, ctx.chatCursor, b.topic), v.entry, MaxSeq(b.cands))
  {
    var entry := EntryOf(e.topics, ctx.chatCursor, b.topic).(failures := 0, retryAt := None);
    var plans := PlansOf(answer.items);
    HoldCounts(AutonomyBoundary(plans, Demanded(b, plans), ctx.proactiveOk), entry, b.cands);
  }

  predicate AsksToWait(answer: Answer) { answer.Items? && exists i :: i in answer.items && i.plan.action == Wait }

  /** A batch that asks to wait is held unless the lane already held a batch with this last message twice. */
  lemma HeldExactlyWhen(e: Eval, b: Batch, answer: Answer, ctx: Context)
    requires b.cands != [] && Judge(e, b, answer, ctx).status == Valid
    ensures var entry := EntryOf(e.topics, ctx.chatCursor, b.topic);
      Judge(e, b, answer, ctx).held != {} <==>
        AsksToWait(answer) && !(entry.waitAnchor == Some(MaxSeq(b.cands)) && entry.waitCount >= 2)
  {
    AcceptedIs(e, b, answer, ctx);
    AcceptHolds(b, EntryOf(e.topics, ctx.chatCursor, b.topic), answer.items, ctx);
  }

  lemma AcceptedIs(e: Eval, b: Batch, answer: Answer, ctx: Context)
    requires b.cands != [] && Judge(e, b, answer, ctx).status == Valid
    ensures answer.Items?
      && Judge(e, b, answer, ctx) == Accept(b, EntryOf(e.topics, ctx.chatCursor, b.topic), answer.items, ctx)
  {
  }

  lemma AcceptHolds(b: Batch, entry: Entry, items: seq<Item>, ctx: Context)
    requires b.cands != []
    ensures Accept(b, entry, items, ctx).held != {} <==>
      AsksToWait(Items(items)) && !(entry.waitAnchor == Some(MaxSeq(b.cands)) && entry.waitCount >= 2)
  {
    var demanded := Demanded(b, PlansOf(items));
    var bounded := AutonomyBoundary(PlansOf(items), demanded, ctx.proactiveOk);
    WaitsAreKept(items, demanded, ctx.proactiveOk);
    PolicyHolds(bounded, entry.(failures := 0, retryAt := None), b.cands);
  }

  ghost predicate SomeWait(plans: seq<Plan>) { exists p :: p in plans && p.action == Wait }

  lemma WaitsAreKept(items: seq<Item>, demanded: set<int>, proactiveOk: bool)
    ensures SomeWait(AutonomyBoundary(PlansOf(items), demanded, proactiveOk)) <==> AsksToWait(Items(items))
  {
    FilterKeepsWaits(PlansOf(items),
                     (p: Plan) => proactiveOk || !(Speaks(p.action) || IsMemory(p.action)) || p.mid in demanded);
    PlansKeepWaits(items, PlansOf(items));
  }

  lemma PlansKeepWaits(items: seq<Item>, plans: seq<Plan>)
    requires |plans| == |items| && forall i :: 0 <= i < |items| ==> plans[i].action == items[i].plan.action
    ensures SomeWait(plans) <==> AsksToWait(Items(items))
  {
    if p :| p in plans && p.action == Wait {
      var i :| 0 <= i < |plans| && plans[i] == p;
      assert items[i] in items;
    }
    if x :| x in items && x.plan.action == Wait {
      var i :| 0 <= i < |items| && items[i] == x;
      assert plans[i] in plans;
    }
  }

  lemma FilterKeepsWaits(plans: seq<Plan>, keep: Plan -> bool)
    requires forall p: Plan :: p.action == Wait ==> keep(p)
    ensures SomeWait(Filter(plans, keep)) <==> SomeWait(plans)
  {
    if p :| p in Filter(plans, keep) && p.action == Wait { FilterMember(plans, keep, p); }
    if p :| p in plans && p.action == Wait { FilterMember(plans, keep, p); }
  }

  lemma PolicyHolds(plans: seq<Plan>, e: Entry, batch: seq<Candidate>)
    requires batch != []
    ensures WaitPolicy(plans, e, batch).held != {} <==>
      SomeWait(plans) && !(e.waitAnchor == Some(MaxSeq(batch)) && e.waitCount >= 2)
  {
    var waits := Filter(plans, (p: Plan) => p.action == Wait);
    if waits != [] {
      assert waits[0] in waits;
      FilterMember(plans, (p: Plan) => p.action == Wait, waits[0]);
      if !(e.waitAnchor == Some(MaxSeq(batch)) && e.waitCount >= 2) {
        assert waits[0].mid in WaitPolicy(plans, e, batch).held;
      }
    }
    if p :| p in plans && p.action == Wait { FilterMember(plans, (p: Plan) => p.action == Wait, p); }
  }

  lemma {:induction false} DrainKeepsWait(
    topics: map<Topic, Entry>, work: seq<Batch>, good: seq<bool>, n: nat, failing: set<Topic>, t: Topic)
    requires n <= |work| == |good| && t in topics
    requires forall i :: 0 <= i < |work| ==> work[i].cands != [] && work[i].topic in topics
    ensures SameWait(DrainAll(topics, work, good, n, failing).topics[t], topics[t])
  {
    if n > 0 {
      DrainKeepsWait(topics, work, good, n - 1, failing, t);
    }
  }

  /** Deliveries and cursors leave the wait records alone. */
  lemma FinishKeepsWait(
    groups: seq<seq<Candidate>>, merged: seq<Candidate>, work: seq<Batch>, ev: Eval, acts: Acts, now: int, t: Topic)
    requires |ev.statuses| == |work| && t in ev.topics
    requires forall i :: 0 <= i < |work| ==> work[i].cands != [] && work[i].topic in ev.topics
    ensures t in Finish(groups, merged, work, ev, acts, now).topics
    ensures SameWait(Finish(groups, merged, work, ev, acts, now).topics[t], ev.topics[t])
  {
    DrainKeepsWait(Noted(ev, merged, acts, now), work, SettledFlags(work, ev.statuses, acts.deferred), |work|,
                   InvalidTopics(work, ev.statuses) + FailedTopics(merged, acts.failed), t);
  }

  lemma HeldHeadEntry(c: Chat, v: Visit, h: nat)
    requires IsHead(WorkIn(c, v), h) && Holds(c, v, h)
    ensures WorkIn(c, v)[h].cands != []
    ensures var t := WorkIn(c, v)[h].topic;
      t in HeardIn(c, v).topics
      && Counts(LaneOfTopic(c, t), HeardIn(c, v).topics[t], MaxSeq(WorkIn(c, v)[h].cands))
  {
    var work, start, judge := WorkIn(c, v), StartIn(c, v), JudgeIn(c, v);
    var ctx := ContextOf(FetchedIn(c, v), c.cursor, v.now, v.world);
    WorkHasCandidates(FetchedIn(c, v));
    JudgingFits(work, v.world.decide, ctx);
    HeadTopicOpened(c.lanes, c.cursor, v.world, h);
    OpenTopicsKeeps(c.lanes, c.cursor, FromRows(v.world.rows));
    HeldVerdict(EvalAll(start, work, h, judge), work[h], v.world.decide(h), ctx);
    BadHeadEntry(start, work, judge, c.cursor, h, VerdictIn(c, v, h));
  }

  /** A pass that holds the head batch of a topic counts that hold in the topic's lane. */
  lemma HoldIsCounted(c: Chat, v: Visit, t: Topic, m: nat)
    requires HeadHeld(c, v, t, m)
    ensures Counts(LaneOfTopic(c, t), LaneOfTopic(Visited(c, v), t), m)
  {
    var h: nat :| IsHead(WorkIn(c, v), h) && WorkIn(c, v)[h].topic == t && WorkIn(c, v)[h].cands != []
      && MaxSeq(WorkIn(c, v)[h].cands) == m && Holds(c, v, h);
    HeldHeadEntry(c, v, h);
    WorkFits(HeardIn(c, v), c.lanes, c.cursor, v.world, WorkIn(c, v));
    FinishKeepsWait(GroupsOf(c.lanes, c.cursor, v.world), FetchedIn(c, v), WorkIn(c, v), HeardIn(c, v), DoneIn(c, v),
                    v.now, t);
  }

  /** A pass without a valid answer for a topic keeps the wait record of its lane. */
  lemma UnansweredKeepsWait(c: Chat, v: Visit, t: Topic)
    requires DistinctIds(c, v) && !Ended(c, v, t, Valid)
    ensures SameWait(LaneOfTopic(Visited(c, v), t), LaneOfTopic(c, t))
  {
    if BadlyAnswered(c, v, t) {
      var head := StrikeMovesLane(c, v, t);
    } else {
      UnheardKeepsLane(c, v, t);
    }
  }

  // ----- Sequences of passes -------------------------------------------------------------------

  /** Such a pass of a run keeps the wait record as it was in `e`. */
  lemma WaitStandsStep(chats: seq<Chat>, visits: seq<Visit>, p: nat, e: Entry, t: Topic)
    requires IsRun(chats, visits) && p < |visits| && !Ended(chats[p], visits[p], t, Valid)
    requires SameWait(LaneOfTopic(chats[p], t), e)
    ensures SameWait(LaneOfTopic(chats[p + 1], t), e)
  {
    UnansweredKeepsWait(chats[p], visits[p], t);
  }

  lemma {:induction false} Carried<S>(states: seq<S>, i: nat, j: nat, kept: S -> bool)
    requires i <= j < |states| && kept(states[i])
    requires forall p :: i <= p < j && kept(states[p]) ==> kept(states[p + 1])
    ensures kept(states[j])
    decreases j - i
  {
    if i < j { Carried(states, i, j - 1, kept); }
  }

  lemma WaitStands(chats: seq<Chat>, visits: seq<Visit>, i: nat, j: nat, t: Topic)
    requires IsRun(chats, visits) && i <= j <= |visits|
    requires forall p :: i <= p < j ==> !Ended(chats[p], visits[p], t, Valid)
    ensures SameWait(LaneOfTopic(chats[j], t), LaneOfTopic(chats[i], t))
  {
    var e := LaneOfTopic(chats[i], t);
    var kept := (c: Chat) => SameWait(LaneOfTopic(c, t), e);
    forall p | i <= p < j && kept(chats[p]) ensures kept(chats[p + 1]) { WaitStandsStep(chats, visits, p, e, t); }
    Carried(chats, i, j, kept);
  }

  /**
   * Reconsideration is bounded: over any sequence of passes, whatever happens to other topics and
   * however many bad answers lie between them, no three valid answers in a row for a topic hold a
   * head batch that ends with the same message.
   */
  lemma WaitIsBounded(chats: seq<Chat>, visits: seq<Visit>, i: nat, j: nat, k: nat, t: Topic, m: nat)
    requires IsRun(chats, visits) && i < j < k < |visits|
    requires forall p :: i < p < k && p != j ==> !Ended(chats[p], visits[p], t, Valid)
    requires HeadHeld(chats[i], visits[i], t, m) && HeadHeld(chats[j], visits[j], t, m)
    ensures !HeadHeld(chats[k], visits[k], t, m)
  {
    HoldIsCounted(chats[i], visits[i], t, m);
    WaitStands(chats, visits, i + 1, j, t);
    HoldIsCounted(chats[j], visits[j], t, m);
    WaitStands(chats, visits, j + 1, k, t);
    if HeadHeld(chats[k], visits[k], t, m) { HoldIsCounted(chats[k], visits[k], t, m); }
  }

  // ----- Where the bound ends ------------------------------------------------------------------

  lemma AnchoredHolds(plans: seq<Plan>, e: Entry, batch: seq<Candidate>)
    requires batch != [] && WaitPolicy(plans, e, batch).entry.waitAnchor != None
    ensures WaitPolicy(plans, e, batch).held != {}
  {
    var waits := Filter(plans, (p: Plan) => p.action == Wait);
    assert waits[0] in waits && waits[0].mid in WaitPolicy(plans, e, batch).held;
  }

  /** An unheld valid answer clears the wait record. */
  lemma UnheldClears(e: Eval, b: Batch, answer: Answer, ctx: Context)
    requires b.cands != [] && Judge(e, b, answer, ctx).status == Valid && !Judge(e, b, answer, ctx).stop
    ensures Judge(e, b, answer, ctx).entry.waitAnchor == None
  {
    var plans := PlansOf(answer.items);
    var bounded := AutonomyBoundary(plans, Demanded(b, plans), ctx.proactiveOk);
    var entry := EntryOf(e.topics, ctx.chatCursor, b.topic).(failures := 0, retryAt := None);
    if WaitPolicy(bounded, entry, b.cands).entry.waitAnchor != None { AnchoredHolds(bounded, entry, b.cands); }
  }

  /** Batch `b` after batch `a` of the same topic finds no wait record. */
  lemma FoundClear(e: Eval, a: Batch, toA: Answer, e': Eval, b: Batch, toB: Answer, ctx: Context)
    requires a.cands != [] && b.cands != [] && Judge(e, a, toA, ctx).status == Valid && !Judge(e, a, toA, ctx).stop
    requires EntryOf(e'.topics, ctx.chatCursor, b.topic) == Judge(e, a, toA, ctx).entry
    requires Judge(e', b, toB, ctx).status == Valid
    ensures Judge(e', b, toB, ctx).held != {} <==> AsksToWait(toB)
  {
    UnheldClears(e, a, toA, ctx);
    HeldExactlyWhen(e', b, toB, ctx);
  }

  lemma EntryRecorded(start: Eval, work: seq<Batch>, judge: (Eval, nat) -> Verdict, g: nat, v: Verdict)
    requires g < |work| && v == judge(EvalAll(start, work, g, judge), g)
    ensures var after := EvalAll(start, work, g + 1, judge);
      work[g].topic in after.topics && after.topics[work[g].topic] == v.entry
  {
  }

  /** A batch whose answer left its topic open hands its entry on to the next batch of the topic. */
  lemma NextFindsEntry(start: Eval, work: seq<Batch>, judge: (Eval, nat) -> Verdict, chatCursor: Option<nat>, g: nat,
      h: nat)
    requires g < h < |work| && work[g].topic == work[h].topic && FitJudge(work, judge, chatCursor)
    requires forall i :: g < i < h ==> work[i].topic != work[h].topic
    ensures var v := judge(EvalAll(start, work, g, judge), g);
      EntryOf(EvalAll(start, work, h, judge).topics, chatCursor, work[h].topic) == v.entry
  {
    EntryRecorded(start, work, judge, g, judge(EvalAll(start, work, g, judge), g));
    EntryUntouched(start, work, g + 1, h, judge, chatCursor, work[h].topic);
  }

  /** If batch `h` was answered well, so was the batch of its topic before it, and that one was not held. */
  lemma EarlierIsOpen(topics: map<Topic, Entry>, budget: nat, work: seq<Batch>, judge: (Eval, nat) -> Verdict,
      chatCursor: Option<nat>, g: nat, h: nat)
    requires g < h < |work| && work[g].topic == work[h].topic && FitJudge(work, judge, chatCursor)
    requires judge(EvalAll(Start(topics, budget), work, h, judge), h).status == Valid
    ensures var v := judge(EvalAll(Start(topics, budget), work, g, judge), g); v.status == Valid && !v.stop
  {
    var start := Start(topics, budget);
    var e' := EvalAll(start, work, h, judge);
    EvalAllInv(topics, budget, work, h, judge, chatCursor);
    WellAnsweredIsOpen(e', work, g, h, judge(e', h), chatCursor);
    StatusOf(start, work, h, judge, g);
    if judge(EvalAll(start, work, g, judge), g).stop { StopsBlock(start, work, judge, chatCursor, g, h); }
  }

  lemma WellAnsweredIsOpen(e: Eval, work: seq<Batch>, g: nat, h: nat, v: Verdict, chatCursor: Option<nat>)
    requires g < h < |work| && work[g].topic == work[h].topic && EvalInv(e, work, h)
    requires VerdictFits(e, work[h].topic, chatCursor, v) && v.status == Valid
    ensures e.statuses[g] == Valid && work[h].topic !in e.blocked
  {
  }

  lemma StopsBlock(start: Eval, work: seq<Batch>, judge: (Eval, nat) -> Verdict, chatCursor: Option<nat>, g: nat,
      h: nat)
    requires g < h < |work| && work[g].topic == work[h].topic && FitJudge(work, judge, chatCursor)
    requires judge(EvalAll(start, work, g, judge), g).stop
    ensures work[h].topic in EvalAll(start, work, h, judge).blocked
  {
    HeadRecorded(start, work, judge, g, judge(EvalAll(start, work, g, judge), g));
    EntryUntouched(start, work, g + 1, h, judge, chatCursor, work[h].topic);
  }

  /**
   * The bound needs the head. Batch `g` comes before batch `h` of the same topic, and its answer
   * clears the record; so a batch behind another one is held as often as its answers ask for it.
   */
  lemma WaitBehindNeverExpires(c: Chat, v: Visit, g: nat, h: nat)
    requires g < h < |WorkIn(c, v)| && WorkIn(c, v)[g].topic == WorkIn(c, v)[h].topic
    requires forall i :: g < i < h ==> WorkIn(c, v)[i].topic != WorkIn(c, v)[h].topic
    requires VerdictIn(c, v, h).status == Valid
    ensures Holds(c, v, h) <==> AsksToWait(v.world.decide(h))
  {
    WorkHasCandidates(FetchedIn(c, v));
    BehindNeverExpires(OpenTopics(c.lanes, c.cursor, FromRows(v.world.rows)), v.calls, WorkIn(c, v), v.world.decide,
                       ContextOf(FetchedIn(c, v), c.cursor, v.now, v.world), g, h);
  }

  lemma BehindNeverExpires(topics: map<Topic, Entry>, budget: nat, work: seq<Batch>, decide: nat -> Answer,
      ctx: Context, g: nat, h: nat)
    requires g < h < |work| && work[g].topic == work[h].topic
    requires forall i :: 0 <= i < |work| ==> work[i].cands != []
    requires forall i :: g < i < h ==> work[i].topic != work[h].topic
    requires VerdictAt(topics, budget, work, decide, ctx, h).status == Valid
    ensures VerdictAt(topics, budget, work, decide, ctx, h).held != {} <==> AsksToWait(decide(h))
  {
    var start, judge := Start(topics, budget), Judging(work, decide, ctx);
    JudgingFits(work, decide, ctx);
    EarlierIsOpen(topics, budget, work, judge, ctx.chatCursor, g, h);
    NextFindsEntry(start, work, judge, ctx.chatCursor, g, h);
    FoundClear(EvalAll(start, work, g, judge), work[g], decide(g), EvalAll(start, work, h, judge), work[h], decide(h),
               ctx);
  }

  function VerdictAt(topics: map<Topic, Entry>, budget: nat, work: seq<Batch>, decide: nat -> Answer, ctx: Context,
      h: nat): Verdict
    requires h < |work|
  {
    Judging(work, decide, ctx)(EvalAll(Start(topics, budget), work, h, Judging(work, decide, ctx)), h)
  }
}
