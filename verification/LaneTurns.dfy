/** Which batches of a pass the decider is asked about, and why each of the others is left out. */
module LaneTurns {
  import opened Prelude
  import opened Candidates
  import opened Scheduling
  import opened Plans
  import opened Ceilings
  import opened TopicLanes
  import opened Intents
  import opened CarryOut
  import opened ChatPass
  import opened Quarantine
  import opened Assessed
  import opened Ledger
  import opened Progress
  import opened LaneRuns
  import opened LaneWaits

  // ----- One verdict -----------------------------------------------------------------------------

  /** What one batch's turn comes to, by what it finds. */
  lemma VerdictExactly(e: Eval, b: Batch, answer: Answer, ctx: Context)
    requires b.cands != []
    ensures var v, entry := Judge(e, b, answer, ctx), EntryOf(e.topics, ctx.chatCursor, b.topic);
      var waiting, spent := entry.retryAt.Some? && entry.retryAt.value > ctx.now, e.calls >= 4 || e.budget == 0;
      && (v.status == Blocked <==> b.topic in e.blocked)
      && (v.status == Backedoff <==> b.topic !in e.blocked && waiting)
      && (v.status == NoBudget <==> b.topic !in e.blocked && !waiting && spent)
      && (v.stop <==> v.status == Invalid || v.status == Quarantined || v.status == Backedoff
                      || (v.status == Valid && v.held != {}))
      && (!v.stop && v.status != Blocked ==> v.entry.retryAt.None? || v.entry.retryAt.value <= ctx.now)
  {
  }

  // ----- The state a batch finds -----------------------------------------------------------------

  /** The verdict on one of the first `n` batches stops topic `t`. */
  ghost predicate SomeStops(start: Eval, work: seq<Batch>, n: nat, judge: (Eval, nat) -> Verdict, t: Topic)
    requires n <= |work|
  {
    exists j: nat :: j < n && work[j].topic == t && judge(EvalAll(start, work, j, judge), j).stop
  }

  lemma OneMoreStop(start: Eval, work: seq<Batch>, n: nat, judge: (Eval, nat) -> Verdict, t: Topic)
    requires n < |work|
    ensures SomeStops(start, work, n + 1, judge, t) <==>
      SomeStops(start, work, n, judge, t) || (work[n].topic == t && judge(EvalAll(start, work, n, judge), n).stop)
  {
  }

  /** A topic is blocked exactly if one of its earlier batches stopped it. */
  lemma {:induction false} BlockedExactly(
    start: Eval, work: seq<Batch>, n: nat, judge: (Eval, nat) -> Verdict, t: Topic)
    requires n <= |work| && start.blocked == {}
    ensures t in EvalAll(start, work, n, judge).blocked <==> SomeStops(start, work, n, judge, t)
  {
    if n > 0 {
      BlockedExactly(start, work, n - 1, judge, t);
      OneMoreStop(start, work, n - 1, judge, t);
      var e := EvalAll(start, work, n - 1, judge);
      assert EvalAll(start, work, n, judge) == Record(e, work[n - 1].topic, judge(e, n - 1));
    }
  }

  /** Later batches leave the statuses of the earlier ones as they are. */
  lemma {:induction false} StatusPrefix(start: Eval, work: seq<Batch>, k: nat, n: nat, judge: (Eval, nat) -> Verdict)
    requires k <= n <= |work| && start.statuses == []
    ensures |EvalAll(start, work, n, judge).statuses| == n && |EvalAll(start, work, k, judge).statuses| == k
    ensures EvalAll(start, work, n, judge).statuses[..k] == EvalAll(start, work, k, judge).statuses
    decreases n
  {
    if n > 0 {
      StatusPrefix(start, work, if k == n then k - 1 else k, n - 1, judge);
    }
  }

  /** What the verdicts on the first `n` batches put on the list. */
  function PlansOfTurns(start: Eval, work: seq<Batch>, n: nat, judge: (Eval, nat) -> Verdict): seq<seq<Plan>>
    requires n <= |work|
  {
    seq(n, i requires 0 <= i < n => judge(EvalAll(start, work, i, judge), i).plans)
  }

  /** The list of a pass is what its batches put on it, one batch after the other. */
  lemma {:induction false} PlansInOrder(start: Eval, work: seq<Batch>, n: nat, judge: (Eval, nat) -> Verdict)
    requires n <= |work| && start.plans == []
    ensures EvalAll(start, work, n, judge).plans == Flatten(PlansOfTurns(start, work, n, judge))
  {
    if n > 0 {
      PlansInOrder(start, work, n - 1, judge);
      var before := PlansOfTurns(start, work, n - 1, judge);
      var last := judge(EvalAll(start, work, n - 1, judge), n - 1).plans;
      assert PlansOfTurns(start, work, n, judge) == before + [last];
      FlattenAppend(before, [last]);
      FlattenSingle(last);
    }
  }

  /** The verdict on one of the first `n` batches holds message `m`, or finds it demanded. */
  ghost predicate SomeHolds(start: Eval, work: seq<Batch>, n: nat, judge: (Eval, nat) -> Verdict, m: int)
    requires n <= |work|
  {
    exists i: nat :: i < n && m in judge(EvalAll(start, work, i, judge), i).held
  }

  ghost predicate SomeDemands(start: Eval, work: seq<Batch>, n: nat, judge: (Eval, nat) -> Verdict, m: int)
    requires n <= |work|
  {
    exists i: nat :: i < n && m in judge(EvalAll(start, work, i, judge), i).demanded
  }

  lemma OneMoreTurn(start: Eval, work: seq<Batch>, n: nat, judge: (Eval, nat) -> Verdict, m: int)
    requires n < |work|
    ensures var v := judge(EvalAll(start, work, n, judge), n);
      && (SomeHolds(start, work, n + 1, judge, m) <==> SomeHolds(start, work, n, judge, m) || m in v.held)
      && (SomeDemands(start, work, n + 1, judge, m) <==> SomeDemands(start, work, n, judge, m) || m in v.demanded)
  {
  }

  /** A message is held, or demanded, by a pass exactly if it is by the verdict on one of its batches. */
  lemma {:induction false} GatheredExactly(
    start: Eval, work: seq<Batch>, n: nat, judge: (Eval, nat) -> Verdict, m: int)
    requires n <= |work| && start.held == start.demanded == {}
    ensures m in EvalAll(start, work, n, judge).held <==> SomeHolds(start, work, n, judge, m)
    ensures m in EvalAll(start, work, n, judge).demanded <==> SomeDemands(start, work, n, judge, m)
  {
    if n > 0 {
      GatheredExactly(start, work, n - 1, judge, m);
      OneMoreTurn(start, work, n - 1, judge, m);
      var e := EvalAll(start, work, n - 1, judge);
      assert EvalAll(start, work, n, judge) == Record(e, work[n - 1].topic, judge(e, n - 1));
    }
  }

  predicate Asked(s: Status) { s == Valid || s == Invalid || s == Quarantined }

  lemma {:induction false} CountIsSize(statuses: seq<Status>)
    ensures CountEvaluated(statuses) == |set j | 0 <= j < |statuses| && Asked(statuses[j])|
  {
    if statuses != [] {
      var init := statuses[..|statuses| - 1];
      CountIsSize(init);
      var a, b := (set j | 0 <= j < |init| && Asked(init[j])), set j | 0 <= j < |statuses| && Asked(statuses[j]);
      assert b == if Asked(statuses[|init|]) then a + {|init|} else a;
    }
  }

  /** The last batch of the topic before batch `k`, if there is one. */
  lemma LastBefore(work: seq<Batch>, k: nat) returns (g: nat)
    requires k < |work| && !IsHead(work, k)
    ensures g < k && work[g].topic == work[k].topic
    ensures forall i :: g < i < k ==> work[i].topic != work[k].topic
  {
    g := k - 1;
    while work[g].topic != work[k].topic
      invariant g < k && forall i :: g < i < k ==> work[i].topic != work[k].topic
      invariant exists j: nat :: j <= g && work[j].topic == work[k].topic
      decreases g
    {
      g := g - 1;
    }
  }

  /** A batch behind another one of its topic does not find its lane waiting, unless the topic is blocked. */
  lemma BehindIsReady(start: Eval, work: seq<Batch>, decide: nat -> Answer, ctx: Context, g: nat, k: nat)
    requires forall i :: 0 <= i < |work| ==> work[i].cands != []
    requires g < k < |work| && work[g].topic == work[k].topic
    requires forall i :: g < i < k ==> work[i].topic != work[k].topic
    ensures var e := EvalAll(start, work, k, Judging(work, decide, ctx));
      work[k].topic in e.blocked || !RetryActive(EntryOf(e.topics, ctx.chatCursor, work[k].topic), ctx.now)
  {
    var judge := Judging(work, decide, ctx);
    var e := EvalAll(start, work, g, judge);
    JudgingFits(work, decide, ctx);
    NextFindsEntry(start, work, judge, ctx.chatCursor, g, k);
    VerdictExactly(e, work[g], decide(g), ctx);
    var v := judge(e, g);
    if v.stop {
      StopsBlock(start, work, judge, ctx.chatCursor, g, k);
    } else if v.status == Blocked {
      BlockedStays(start, work, judge, ctx.chatCursor, g, k);
    }
  }

  /** Only the head of a topic can find its lane waiting. */
  lemma WaitingExactly(start: Eval, work: seq<Batch>, decide: nat -> Answer, ctx: Context, k: nat)
    requires forall i :: 0 <= i < |work| ==> work[i].cands != []
    requires k < |work| && work[k].topic in start.topics
    ensures var e, lane := EvalAll(start, work, k, Judging(work, decide, ctx)), start.topics[work[k].topic];
      work[k].topic !in e.blocked ==>
        (RetryActive(EntryOf(e.topics, ctx.chatCursor, work[k].topic), ctx.now) <==>
          IsHead(work, k) && lane.retryAt.Some? && lane.retryAt.value > ctx.now)
  {
    if IsHead(work, k) {
      JudgingFits(work, decide, ctx);
      HeadFindsEntry(start, work, Judging(work, decide, ctx), ctx.chatCursor, k);
    } else {
      var g := LastBefore(work, k);
      BehindIsReady(start, work, decide, ctx, g, k);
    }
  }

  lemma BlockedStays(start: Eval, work: seq<Batch>, judge: (Eval, nat) -> Verdict, chatCursor: Option<nat>, g: nat,
      k: nat)
    requires g < k < |work| && work[g].topic == work[k].topic && FitJudge(work, judge, chatCursor)
    requires judge(EvalAll(start, work, g, judge), g).status == Blocked
    ensures work[k].topic in EvalAll(start, work, k, judge).blocked
  {
    var e := EvalAll(start, work, g, judge);
    assert VerdictFits(e, work[g].topic, chatCursor, judge(e, g));
    EntryRecorded(start, work, judge, g, judge(e, g));
    EntryUntouched(start, work, g + 1, k, judge, chatCursor, work[k].topic);
  }

  // ----- A pass ----------------------------------------------------------------------------------

  /** The lane's topic was closed by an earlier batch: a bad answer, a lane that waits, or a hold. */
  ghost predicate ClosedBefore(c: Chat, v: Visit, k: nat)
    requires k < |WorkIn(c, v)| == |HeardIn(c, v).statuses|
  {
    exists j: nat :: j < k && WorkIn(c, v)[j].topic == WorkIn(c, v)[k].topic && Closes(c, v, j)
  }

  ghost predicate Closes(c: Chat, v: Visit, j: nat)
    requires j < |WorkIn(c, v)| == |HeardIn(c, v).statuses|
  {
    var s := HeardIn(c, v).statuses[j];
    s == Invalid || s == Quarantined || s == Backedoff || (s == Valid && Holds(c, v, j))
  }

  lemma StatusHere(c: Chat, v: Visit, j: nat)
    requires j < |WorkIn(c, v)| == |HeardIn(c, v).statuses|
    ensures HeardIn(c, v).statuses[j] == VerdictIn(c, v, j).status
    ensures WorkIn(c, v)[j].cands != [] && (VerdictIn(c, v, j).stop <==> Closes(c, v, j))
  {
    WorkHasCandidates(FetchedIn(c, v));
    StatusOf(StartIn(c, v), WorkIn(c, v), |WorkIn(c, v)|, JudgeIn(c, v), j);
    VerdictExactly(EvalAll(StartIn(c, v), WorkIn(c, v), j, JudgeIn(c, v)), WorkIn(c, v)[j], v.world.decide(j),
                   ContextOf(FetchedIn(c, v), c.cursor, v.now, v.world));
  }

  lemma BlockedHere(c: Chat, v: Visit, k: nat)
    requires k < |WorkIn(c, v)| == |HeardIn(c, v).statuses|
    ensures WorkIn(c, v)[k].topic in EvalAll(StartIn(c, v), WorkIn(c, v), k, JudgeIn(c, v)).blocked <==>
      ClosedBefore(c, v, k)
  {
    BlockedExactly(StartIn(c, v), WorkIn(c, v), k, JudgeIn(c, v), WorkIn(c, v)[k].topic);
    forall j: nat | j < k ensures VerdictIn(c, v, j).stop <==> Closes(c, v, j) { StatusHere(c, v, j); }
  }

  /** Whether calls are left when batch `k` comes up: at most four a chat, each paid from the purse. */
  lemma SpentHere(c: Chat, v: Visit, k: nat)
    requires k < |WorkIn(c, v)| == |HeardIn(c, v).statuses|
    ensures var e, s := EvalAll(StartIn(c, v), WorkIn(c, v), k, JudgeIn(c, v)), HeardIn(c, v).statuses;
      e.calls >= 4 || e.budget == 0 <==> |set j | 0 <= j < k && Asked(s[j])| >= Min(4, v.calls)
  {
    WorkHasCandidates(FetchedIn(c, v));
    CallsSpent(OpenTopics(c.lanes, c.cursor, FromRows(v.world.rows)), v.calls, WorkIn(c, v), k, v.world.decide,
               ContextOf(FetchedIn(c, v), c.cursor, v.now, v.world));
    StatusPrefix(StartIn(c, v), WorkIn(c, v), k, |WorkIn(c, v)|, JudgeIn(c, v));
    SamePrefixSize(HeardIn(c, v).statuses, EvalAll(StartIn(c, v), WorkIn(c, v), k, JudgeIn(c, v)).statuses);
  }

  lemma SamePrefixSize(s: seq<Status>, before: seq<Status>)
    requires before <= s
    ensures (set j | 0 <= j < |before| && Asked(s[j])) == set j | 0 <= j < |before| && Asked(before[j])
  {
  }

  lemma CallsSpent(topics: map<Topic, Entry>, budget: nat, work: seq<Batch>, k: nat, decide: nat -> Answer,
      ctx: Context)
    requires k <= |work| && forall i :: 0 <= i < |work| ==> work[i].cands != []
    ensures var e := EvalAll(Start(topics, budget), work, k, Judging(work, decide, ctx));
      e.calls >= 4 || e.budget == 0 <==>
        |set j | 0 <= j < |e.statuses| && Asked(e.statuses[j])| >= Min(4, budget)
  {
    JudgingFits(work, decide, ctx);
    CallsBounded(topics, budget, work, k, Judging(work, decide, ctx), ctx.chatCursor);
    CountIsSize(EvalAll(Start(topics, budget), work, k, Judging(work, decide, ctx)).statuses);
  }

  lemma WaitingHere(c: Chat, v: Visit, k: nat)
    requires k < |WorkIn(c, v)| == |HeardIn(c, v).statuses|
    ensures var e := EvalAll(StartIn(c, v), WorkIn(c, v), k, JudgeIn(c, v));
      var lane := LaneOfTopic(c, WorkIn(c, v)[k].topic);
      WorkIn(c, v)[k].topic !in e.blocked ==>
        (RetryActive(EntryOf(e.topics, c.cursor, WorkIn(c, v)[k].topic), v.now) <==>
          IsHead(WorkIn(c, v), k) && lane.retryAt.Some? && lane.retryAt.value > v.now)
  {
    WorkHasCandidates(FetchedIn(c, v));
    HeadTopicOpened(c.lanes, c.cursor, v.world, k);
    OpenTopicsKeeps(c.lanes, c.cursor, FromRows(v.world.rows));
    WaitingExactly(StartIn(c, v), WorkIn(c, v), v.world.decide,
                   ContextOf(FetchedIn(c, v), c.cursor, v.now, v.world), k);
  }

  /**
   * Whether the decider is asked about a batch. It is not if an earlier batch closed the topic, if
   * the batch is the topic's first and the lane is waiting, or if four calls were made for the chat
   * or the purse is empty; in every other case it is.
   */
  lemma AskedExactlyWhen(c: Chat, v: Visit, k: nat)
    requires k < |WorkIn(c, v)|
    ensures |HeardIn(c, v).statuses| == |WorkIn(c, v)|
    ensures var s, lane := HeardIn(c, v).statuses, LaneOfTopic(c, WorkIn(c, v)[k].topic);
      var waiting := IsHead(WorkIn(c, v), k) && lane.retryAt.Some? && lane.retryAt.value > v.now;
      var spent := |set j | 0 <= j < k && Asked(s[j])| >= Min(4, v.calls);
      && (s[k] == Blocked <==> ClosedBefore(c, v, k))
      && (s[k] == Backedoff <==> !ClosedBefore(c, v, k) && waiting)
      && (s[k] == NoBudget <==> !ClosedBefore(c, v, k) && !waiting && spent)
      && (Asked(s[k]) <==> !ClosedBefore(c, v, k) && !waiting && !spent)
  {
    EvaluationKeeps(c.lanes, c.cursor, v.calls, v.now, v.world);
    StatusHere(c, v, k);
    BlockedHere(c, v, k);
    SpentHere(c, v, k);
    WaitingHere(c, v, k);
    VerdictExactly(EvalAll(StartIn(c, v), WorkIn(c, v), k, JudgeIn(c, v)), WorkIn(c, v)[k], v.world.decide(k),
                   ContextOf(FetchedIn(c, v), c.cursor, v.now, v.world));
  }

  // ----- A pass with nothing to do ---------------------------------------------------------------

  /** The answer looks at every message and wants nothing. */
  predicate Silent(answer: Answer) {
    answer.Items? && forall i :: i in answer.items ==> i.plan.action == Ignore && i.plan.memory == NoMemory
  }

  /** Calls suffice, no lane waits, and every batch gets a flawless silent answer. */
  ghost predicate QuietIn(c: Chat, v: Visit) {
    && |WorkIn(c, v)| <= Min(4, v.calls)
    && (forall k: nat :: k < |WorkIn(c, v)| ==>
          (!Flawed(v.world.decide(k), WorkIn(c, v)[k].cands) && Silent(v.world.decide(k))
          && !RetryActive(LaneOfTopic(c, WorkIn(c, v)[k].topic), v.now)))
  }

  lemma FewerThan(s: seq<Status>, k: nat)
    requires k <= |s|
    ensures |set j | 0 <= j < k && Asked(s[j])| <= k
  {
    if k > 0 {
      FewerThan(s, k - 1);
      assert (set j | 0 <= j < k && Asked(s[j]))
          == (set j | 0 <= j < k - 1 && Asked(s[j])) + if Asked(s[k - 1]) then {k - 1} else {};
    }
  }

  lemma SilentIsNotHeld(c: Chat, v: Visit, k: nat)
    requires k < |WorkIn(c, v)| && WorkIn(c, v)[k].cands != [] && VerdictIn(c, v, k).status == Valid
    requires Silent(v.world.decide(k))
    ensures !Holds(c, v, k)
    ensures forall q :: q in VerdictIn(c, v, k).plans ==> q.action == Ignore
  {
    var e, b := EvalAll(StartIn(c, v), WorkIn(c, v), k, JudgeIn(c, v)), WorkIn(c, v)[k];
    SilentVerdict(e, b, v.world.decide(k), ContextOf(FetchedIn(c, v), c.cursor, v.now, v.world));
  }

  lemma SilentVerdict(e: Eval, b: Batch, answer: Answer, ctx: Context)
    requires b.cands != [] && Judge(e, b, answer, ctx).status == Valid && Silent(answer)
    ensures Judge(e, b, answer, ctx).held == {}
    ensures forall q :: q in Judge(e, b, answer, ctx).plans ==> q.action == Ignore
  {
    HeldExactlyWhen(e, b, answer, ctx);
    AcceptedIs(e, b, answer, ctx);
    SilentPlans(e, b, answer, ctx);
  }

  lemma SilentPlans(e: Eval, b: Batch, answer: Answer, ctx: Context)
    requires b.cands != [] && Judge(e, b, answer, ctx).status == Valid && Silent(answer)
    ensures forall q :: q in Accept(b, EntryOf(e.topics, ctx.chatCursor, b.topic), answer.items, ctx).plans ==>
      q.action == Ignore
  {
    var entry := EntryOf(e.topics, ctx.chatCursor, b.topic);
    forall q | q in Accept(b, entry, answer.items, ctx).plans ensures q.action == Ignore {
      AcceptedSource(b, entry, answer.items, ctx, q);
    }
  }

  /** Batch `k` was answered and not held. */
  ghost predicate Answered(c: Chat, v: Visit, k: nat)
    requires k < |WorkIn(c, v)| == |HeardIn(c, v).statuses|
  {
    HeardIn(c, v).statuses[k] == Valid && !Closes(c, v, k)
  }

  lemma NothingClosed(c: Chat, v: Visit, k: nat)
    requires k < |WorkIn(c, v)| == |HeardIn(c, v).statuses| && forall j: nat :: j < k ==> Answered(c, v, j)
    ensures !ClosedBefore(c, v, k)
  {
    forall j: nat | j < k ensures !Closes(c, v, j) { assert Answered(c, v, j); }
  }

  lemma OpenIsAsked(c: Chat, v: Visit, k: nat)
    requires k < |WorkIn(c, v)| == |HeardIn(c, v).statuses| && !ClosedBefore(c, v, k) && k < Min(4, v.calls)
    requires !RetryActive(LaneOfTopic(c, WorkIn(c, v)[k].topic), v.now)
    ensures Asked(HeardIn(c, v).statuses[k])
  {
    AskedExactlyWhen(c, v, k);
    FewerThan(HeardIn(c, v).statuses, k);
  }

  lemma AskedIsAnswered(c: Chat, v: Visit, k: nat)
    requires k < |WorkIn(c, v)| == |HeardIn(c, v).statuses| && Asked(HeardIn(c, v).statuses[k])
    requires !Flawed(v.world.decide(k), WorkIn(c, v)[k].cands) && Silent(v.world.decide(k))
    ensures Answered(c, v, k)
  {
    ValidExactlyWhen(c.lanes, c.cursor, v.calls, v.now, v.world, k);
    StatusHere(c, v, k);
    SilentIsNotHeld(c, v, k);
  }

  /** Every batch of a quiet pass is answered, and none is held. */
  lemma {:induction false} QuietIsAnswered(c: Chat, v: Visit, k: nat)
    requires QuietIn(c, v) && k < |WorkIn(c, v)| == |HeardIn(c, v).statuses|
    ensures Answered(c, v, k)
    decreases k
  {
    forall j: nat | j < k ensures Answered(c, v, j) { QuietIsAnswered(c, v, j); }
    NothingClosed(c, v, k);
    OpenIsAsked(c, v, k);
    AskedIsAnswered(c, v, k);
  }

  /** The verdict on batch `k` holds nothing and wants nothing. */
  ghost predicate QuietAt(start: Eval, work: seq<Batch>, k: nat, judge: (Eval, nat) -> Verdict)
    requires k <= |work|
  {
    var v := judge(EvalAll(start, work, k, judge), k);
    v.held == {} && forall q :: q in v.plans ==> q.action == Ignore
  }

  /** Plans and holds of a pass come from the verdicts on its batches. */
  lemma {:induction false} CollectedFrom(start: Eval, work: seq<Batch>, n: nat, judge: (Eval, nat) -> Verdict)
    requires n <= |work| && start.plans == [] && start.held == {}
    requires forall k: nat :: k < n ==> QuietAt(start, work, k, judge)
    ensures EvalAll(start, work, n, judge).held == {}
    ensures forall q :: q in EvalAll(start, work, n, judge).plans ==> q.action == Ignore
  {
    if n > 0 {
      CollectedFrom(start, work, n - 1, judge);
      assert QuietAt(start, work, n - 1, judge);
      var e, v := EvalAll(start, work, n - 1, judge), judge(EvalAll(start, work, n - 1, judge), n - 1);
      assert EvalAll(start, work, n, judge) == Record(e, work[n - 1].topic, v);
    }
  }

  lemma {:induction false} NothingAdmitted(plans: seq<Plan>, addressed: set<int>, paused: string -> bool)
    requires forall q :: q in plans ==> q.action == Ignore
    ensures AdmitAll(plans, addressed, paused) == Admission([], {})
  {
    if plans != [] {
      assert plans[|plans| - 1] in plans;
      NothingAdmitted(plans[..|plans| - 1], addressed, paused);
    }
  }

  lemma NothingPutOff(ev: Eval, merged: seq<Candidate>, budget: Budget, w: World)
    requires ev.held == {} && forall q :: q in ev.plans ==> q.action == Ignore
    ensures Act(ev, merged, budget, w).deferred == {}
  {
    NothingAdmitted(ev.plans, ev.demanded, (_: string) => false);
    ActIs(ev, merged, budget, w);
    assert LetThrough(ev, merged) == [];
    assert OutOfScene([], w.scene, ById(merged)) == {};
  }

  lemma QuietHere(c: Chat, v: Visit, k: nat)
    requires QuietIn(c, v) && k < |WorkIn(c, v)| == |HeardIn(c, v).statuses|
    ensures QuietAt(StartIn(c, v), WorkIn(c, v), k, JudgeIn(c, v))
  {
    QuietIsAnswered(c, v, k);
    StatusHere(c, v, k);
    SilentIsNotHeld(c, v, k);
    assert VerdictIn(c, v, k).held == {};
    assert VerdictIn(c, v, k) == JudgeIn(c, v)(EvalAll(StartIn(c, v), WorkIn(c, v), k, JudgeIn(c, v)), k);
  }

  lemma QuietCollects(c: Chat, v: Visit)
    requires QuietIn(c, v) && |WorkIn(c, v)| == |HeardIn(c, v).statuses|
    ensures HeardIn(c, v).held == {} && forall q :: q in HeardIn(c, v).plans ==> q.action == Ignore
  {
    forall k: nat | k < |WorkIn(c, v)| ensures QuietAt(StartIn(c, v), WorkIn(c, v), k, JudgeIn(c, v)) {
      QuietHere(c, v, k);
    }
    CollectedFrom(StartIn(c, v), WorkIn(c, v), |WorkIn(c, v)|, JudgeIn(c, v));
  }

  lemma QuietIsThrough(c: Chat, v: Visit, k: nat)
    requires QuietIn(c, v) && k < |WorkIn(c, v)| == |HeardIn(c, v).statuses|
    ensures Through(WorkIn(c, v), HeardIn(c, v).statuses, {}, k)
  {
    QuietIsAnswered(c, v, k);
  }

  /**
   * A quiet pass finishes: if calls suffice, no lane waits and each batch gets a flawless answer that
   * wants nothing, then every batch is through and nothing stays pending.
   */
  lemma QuietPassFinishes(c: Chat, v: Visit)
    requires QuietIn(c, v)
    ensures PassAt(c, v).pending == {}
  {
    EvaluationKeeps(c.lanes, c.cursor, v.calls, v.now, v.world);
    QuietCollects(c, v);
    NothingPutOff(HeardIn(c, v), FetchedIn(c, v), v.budget, v.world);
    PendingExactlyWhen(c.lanes, c.cursor, v.budget, v.calls, v.now, v.world);
    forall k | 0 <= k < |WorkIn(c, v)| ensures Through(WorkIn(c, v), HeardIn(c, v).statuses, {}, k) {
      QuietIsThrough(c, v, k);
    }
  }

  /** So the chat cursor follows the packet. */
  lemma QuietPassFollows(c: Chat, v: Visit)
    requires QuietIn(c, v) && v.world.maxSeq > 0
    ensures Visited(c, v).cursor.Some? && Visited(c, v).cursor.value >= v.world.maxSeq
  {
    QuietPassFinishes(c, v);
    Follows(PassAt(c, v).pending, v.world.maxSeq, c.cursor);
  }

  lemma Follows(pending: set<Topic>, maxSeq: nat, cursor: Option<nat>)
    requires pending == {} && maxSeq > 0
    ensures CursorAfter(pending, maxSeq, cursor).Some? && CursorAfter(pending, maxSeq, cursor).value >= maxSeq
  {
  }
}
