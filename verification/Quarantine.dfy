/** A topic whose decider answers stay invalid is given up after three tries, and only that topic. */
module Quarantine {
  import opened Prelude
  import opened Sorting
  import opened Candidates
  import opened Coalescing
  import opened Scheduling
  import opened Plans
  import opened Ceilings
  import opened TopicLanes
  import opened CarryOut
  import opened ChatPass

  predicate Bad(s: Status) { s == Invalid || s == Quarantined }

  /** Position `h` holds the first batch of its topic. */
  ghost predicate IsHead(work: seq<Batch>, h: nat) {
    h < |work| && forall j :: 0 <= j < h ==> work[j].topic != work[h].topic
  }

  /** Stretches of the work list without an evaluation of `t` leave its entry alone. */
  lemma {:induction false} EntryUntouched(
    start: Eval, work: seq<Batch>, m: nat, n: nat, judge: (Eval, nat) -> Verdict, chatCursor: Option<nat>, t: Topic)
    requires m <= n <= |work| && FitJudge(work, judge, chatCursor)
    requires t in EvalAll(start, work, m, judge).topics
    requires forall i :: m <= i < n ==> work[i].topic != t || t in EvalAll(start, work, m, judge).blocked
    ensures var a, b := EvalAll(start, work, m, judge), EvalAll(start, work, n, judge);
      t in b.topics && b.topics[t] == a.topics[t] && a.blocked <= b.blocked
  {
    if m < n {
      EntryUntouched(start, work, m, n - 1, judge, chatCursor, t);
      var e := EvalAll(start, work, n - 1, judge);
      assert VerdictFits(e, work[n - 1].topic, chatCursor, judge(e, n - 1));
    }
  }

  lemma HeadRecorded(start: Eval, work: seq<Batch>, judge: (Eval, nat) -> Verdict, h: nat, v: Verdict)
    requires h < |work| && v == judge(EvalAll(start, work, h, judge), h) && v.stop
    ensures var after := EvalAll(start, work, h + 1, judge);
      work[h].topic in after.topics && after.topics[work[h].topic] == v.entry && work[h].topic in after.blocked
  {
  }

  /** The head batch of a topic finds the entry its topic started with. */
  lemma HeadFindsEntry(start: Eval, work: seq<Batch>, judge: (Eval, nat) -> Verdict, chatCursor: Option<nat>, h: nat)
    requires IsHead(work, h) && FitJudge(work, judge, chatCursor)
    requires work[h].topic in start.topics
    ensures EntryOf(EvalAll(start, work, h, judge).topics, chatCursor, work[h].topic) == start.topics[work[h].topic]
  {
    EntryUntouched(start, work, 0, h, judge, chatCursor, work[h].topic);
  }

  /** What the evaluation of a pass leaves for a topic whose head batch was answered badly. */
  lemma BadHeadEntry(start: Eval, work: seq<Batch>, judge: (Eval, nat) -> Verdict, chatCursor: Option<nat>, h: nat,
      v: Verdict)
    requires IsHead(work, h) && FitJudge(work, judge, chatCursor) && start.statuses == []
    requires work[h].topic in start.topics
    requires v == judge(EvalAll(start, work, h, judge), h) && v.stop && v.status != Blocked
    ensures EntryOf(EvalAll(start, work, h, judge).topics, chatCursor, work[h].topic) == start.topics[work[h].topic]
    ensures work[h].topic in EvalAll(start, work, |work|, judge).topics
    ensures EvalAll(start, work, |work|, judge).topics[work[h].topic] == v.entry
  {
    HeadFindsEntry(start, work, judge, chatCursor, h);
    HeadRecorded(start, work, judge, h, v);
    EntryUntouched(start, work, h + 1, |work|, judge, chatCursor, work[h].topic);
  }

  /** The cursor loop leaves a topic alone where none of its batches is settled. */
  lemma {:induction false} DrainUntouched(
    topics: map<Topic, Entry>, work: seq<Batch>, good: seq<bool>, m: nat, n: nat, failing: set<Topic>, t: Topic)
    requires m <= n <= |work| == |good| && t in topics
    requires forall i :: 0 <= i < |work| ==> work[i].cands != [] && work[i].topic in topics
    requires forall i :: m <= i < n && work[i].topic == t ==> !good[i]
    ensures DrainAll(topics, work, good, n, failing).topics[t] == DrainAll(topics, work, good, m, failing).topics[t]
    ensures (forall i :: m <= i < n ==> work[i].topic != t) ==>
      (t in DrainAll(topics, work, good, n, failing).closed <==> t in DrainAll(topics, work, good, m, failing).closed)
  {
    if m < n {
      DrainUntouched(topics, work, good, m, n - 1, failing, t);
    }
  }

  lemma {:induction false} DrainOfHead(topics: map<Topic, Entry>, work: seq<Batch>, good: seq<bool>,
      failing: set<Topic>, h: nat)
    requires |work| == |good| && IsHead(work, h) && work[h].topic in topics
    requires forall i :: 0 <= i < |work| ==> work[i].cands != [] && work[i].topic in topics
    requires forall i :: h < i < |work| && work[i].topic == work[h].topic ==> !good[i]
    ensures DrainAll(topics, work, good, |work|, failing).topics[work[h].topic] ==
            if good[h] then Advance(topics[work[h].topic], work[h].cands, work[h].topic !in failing)
            else topics[work[h].topic]
  {
    var t := work[h].topic;
    DrainUntouched(topics, work, good, 0, h, failing, t);
    DrainUntouched(topics, work, good, h + 1, |work|, failing, t);
    assert t !in DrainAll(topics, work, good, h, failing).closed;
  }

  /** One bad answer for the head batch: one more failure, or the batch is given up. */
  function AfterBadHead(e: Entry, head: seq<Candidate>, now: int): Entry
    requires head != []
  {
    var (noted, quarantined) := NoteFailure(e, now);
    if quarantined then Advance(noted, head, true) else noted
  }

  /** Nothing of topic `t` was delivered or put off in this pass. */
  ghost predicate TopicQuiet(merged: seq<Candidate>, acts: Acts, t: Topic) {
    forall c :: c in merged && c.topic == t ==> c.mid !in acts.deferred && c.mid !in acts.failed
  }

  /** The cursor half of a pass after a bad head batch. */
  lemma FinishBadHead(groups: seq<seq<Candidate>>, merged: seq<Candidate>, work: seq<Batch>, ev: Eval, acts: Acts,
      now: int, h: nat)
    requires |ev.statuses| == |work| && EvalInv(ev, work, |work|)
    requires forall i :: 0 <= i < |work| ==> work[i].cands != [] && work[i].topic in ev.topics
    requires IsHead(work, h) && Bad(ev.statuses[h]) && TopicQuiet(merged, acts, work[h].topic)
    requires forall c :: c in work[h].cands ==> c in merged && c.topic == work[h].topic
    ensures Finish(groups, merged, work, ev, acts, now).topics[work[h].topic] ==
            if ev.statuses[h] == Quarantined then Advance(ev.topics[work[h].topic], work[h].cands, true)
            else ev.topics[work[h].topic]
  {
    var t := work[h].topic;
    var failed := FailedTopics(merged, acts.failed);
    var noted := Noted(ev, merged, acts, now);
    var good := SettledFlags(work, ev.statuses, acts.deferred);
    var invalid := InvalidTopics(work, ev.statuses);
    assert t !in failed;
    assert forall i :: h < i < |work| && work[i].topic == t ==> !Evaluated(ev.statuses[i]);
    assert good[h] <==> ev.statuses[h] == Quarantined;
    assert ev.statuses[h] == Quarantined ==> t !in invalid;
    DrainOfHead(noted, work, good, invalid + failed, h);
  }

  /** The verdict behind a bad head batch, and the entry it leaves for the rest of the pass. */
  lemma HeadVerdict(start: Eval, work: seq<Batch>, decide: nat -> Answer, ctx: Context, h: nat)
    requires forall i :: 0 <= i < |work| ==> work[i].cands != []
    requires IsHead(work, h) && start.statuses == [] && work[h].topic in start.topics
    requires |EvalAll(start, work, |work|, Judging(work, decide, ctx)).statuses| == |work|
    requires Bad(EvalAll(start, work, |work|, Judging(work, decide, ctx)).statuses[h])
    ensures var ev := EvalAll(start, work, |work|, Judging(work, decide, ctx));
      var v := Reject(start.topics[work[h].topic], ctx.now);
      ev.statuses[h] == v.status && work[h].topic in ev.topics && ev.topics[work[h].topic] == v.entry
  {
    var judge := Judging(work, decide, ctx);
    JudgingFits(work, decide, ctx);
    StatusOf(start, work, |work|, judge, h);
    var e := EvalAll(start, work, h, judge);
    var v := judge(e, h);
    JudgeFits(e, work[h], decide(h), ctx);
    RejectedIs(e, work[h], decide(h), ctx);
    BadHeadEntry(start, work, judge, ctx.chatCursor, h, v);
  }

  /**
   * A pass whose decider answers a topic's head batch badly changes that topic's lane
   * exactly by one strike; the rest of the topic waits.
   */
  lemma BadHeadCostsOneStrike(
    topics: map<Topic, Entry>, chatCursor: Option<nat>, calls: nat, now: int, w: World, acts: Acts, h: nat)
    requires var work := WorkBatches(LanesOf(MergedOf(topics, chatCursor, w))); IsHead(work, h)
    requires Bad(Evaluation(topics, chatCursor, calls, now, w).statuses[h])
    requires var merged := MergedOf(topics, chatCursor, w);
      TopicQuiet(merged, acts, WorkBatches(LanesOf(merged))[h].topic)
    ensures var p := PassWith(topics, chatCursor, w, Evaluation(topics, chatCursor, calls, now, w), acts, now);
      var t := p.work[h].topic;
      && p.work[h].cands != [] && t in p.topics
      && p.topics[t] == AfterBadHead(EntryOf(topics, chatCursor, t), p.work[h].cands, now)
  {
    var merged := MergedOf(topics, chatCursor, w);
    var work := WorkBatches(LanesOf(merged));
    var start := Start(OpenTopics(topics, chatCursor, FromRows(w.rows)), calls);
    var ev := Evaluation(topics, chatCursor, calls, now, w);
    EvaluationKeeps(topics, chatCursor, calls, now, w);
    WorkFits(ev, topics, chatCursor, w, work);
    HeadTopicOpened(topics, chatCursor, w, h);
    OpenTopicsKeeps(topics, chatCursor, FromRows(w.rows));
    HeadVerdict(start, work, w.decide, ContextOf(merged, chatCursor, now, w), h);
    forall c | c in work[h].cands
      ensures c in merged && c.topic == work[h].topic
    {
      WorkCovers(merged, c);
    }
    FinishBadHead(GroupsOf(topics, chatCursor, w), merged, work, ev, acts, now, h);
  }

  lemma RejectedIs(e: Eval, b: Batch, answer: Answer, ctx: Context)
    requires b.cands != [] && Bad(Judge(e, b, answer, ctx).status)
    ensures Judge(e, b, answer, ctx) == Reject(EntryOf(e.topics, ctx.chatCursor, b.topic), ctx.now)
  {
  }

  lemma {:induction false} StatusOf(start: Eval, work: seq<Batch>, n: nat, judge: (Eval, nat) -> Verdict, k: nat)
    requires k < n <= |work| && start.statuses == []
    ensures |EvalAll(start, work, n - 1, judge).statuses| == n - 1
    ensures |EvalAll(start, work, n, judge).statuses| == n
    ensures EvalAll(start, work, n, judge).statuses[k] == judge(EvalAll(start, work, k, judge), k).status
  {
    if k < n - 1 {
      StatusOf(start, work, n - 1, judge, k);
    } else if n > 1 {
      StatusOf(start, work, n - 1, judge, 0);
    }
  }

  lemma HeadTopicOpened(topics: map<Topic, Entry>, chatCursor: Option<nat>, w: World, h: nat)
    requires h < |WorkBatches(LanesOf(MergedOf(topics, chatCursor, w)))|
    ensures WorkBatches(LanesOf(MergedOf(topics, chatCursor, w)))[h].topic in OpenTopics(topics, chatCursor,
        FromRows(w.rows))
  {
    var merged := MergedOf(topics, chatCursor, w);
    var work := WorkBatches(LanesOf(merged));
    WorkHasCandidates(merged);
    var m := work[h].cands[0];
    WorkCovers(merged, m);
    var i :| 0 <= i < |merged| && merged[i] == m;
    var unread := Unread(FromRows(w.rows), topics, chatCursor);
    GroupsAreBursts(unread);
    var c := GroupsOf(topics, chatCursor, w)[i][0];
    GroupMemberIsCandidate(unread, i, c);
    UnreadMember(FromRows(w.rows), topics, chatCursor, c);
    OpenTopicsKeeps(topics, chatCursor, FromRows(w.rows));
  }

  /** Everything in a topic's head batch lies ahead of the topic's cursor. */
  lemma HeadIsAhead(topics: map<Topic, Entry>, chatCursor: Option<nat>, w: World, h: nat, c: Candidate)
    requires h < |WorkBatches(LanesOf(MergedOf(topics, chatCursor, w)))|
    requires c in WorkBatches(LanesOf(MergedOf(topics, chatCursor, w)))[h].cands
    ensures After(c, EntryOf(topics, chatCursor, c.topic))
  {
    var merged := MergedOf(topics, chatCursor, w);
    WorkCovers(merged, c);
    var i :| 0 <= i < |merged| && merged[i] == c;
    var unread := Unread(FromRows(w.rows), topics, chatCursor);
    GroupsAreBursts(unread);
    var x := GroupsOf(topics, chatCursor, w)[i][0];
    MergeSeq(GroupsOf(topics, chatCursor, w)[i]);
    GroupMemberIsCandidate(unread, i, x);
    UnreadMember(FromRows(w.rows), topics, chatCursor, x);
  }

  /** How many bad answers a lane with `failures` on record still stands. */
  function StrikesLeft(failures: nat): nat { Max(1, INVALID_MAX_ATTEMPTS - failures) }

  /**
   * One strike, from any record: the last one left moves the topic cursor past the head batch and
   * clears the record, an earlier one only counts and lets the lane wait 15, then 30 seconds.
   */
  lemma StrikeOut(e: Entry, head: seq<Candidate>, now: int)
    requires head != [] && forall c :: c in head ==> After(c, e)
    ensures var e' := AfterBadHead(e, head, now);
      if StrikesLeft(e.failures) == 1 then
        && e'.cursor == Some(MaxSeq(head)) && e'.failures == 0 && e'.retryAt == None
        && forall c :: c in head ==> !After(c, e')
      else
        && e'.cursor == e.cursor && e'.failures == e.failures + 1
          && StrikesLeft(e'.failures) == StrikesLeft(e.failures) - 1
        && e'.retryAt == Some(now + if e.failures == 0 then 15 else 30)
  {
    var m := MaxSeq(head);
    var c :| c in head && c.spoolSeq == m;
    assert Doubling(0) == 1 && Doubling(1) == 2;
  }

  // ----- A topic without a valid answer is untouched by deliveries ------------------------

  function Mids(plans: seq<Plan>): set<int> { set p | p in plans :: p.mid }

  lemma {:induction false} AdmitMids(plans: seq<Plan>, demanded: set<int>, paused: string -> bool)
    ensures var st := AdmitAll(plans, demanded, paused); Mids(st.out) <= Mids(plans) && st.deferred <= Mids(plans)
  {
    if plans != [] {
      var rest, last := plans[..|plans| - 1], plans[|plans| - 1];
      AdmitMids(rest, demanded, paused);
      assert plans == rest + [last];
      assert last.mid in Mids(plans);
      assert Mids(rest) <= Mids(plans);
      var before := AdmitAll(rest, demanded, paused);
      EffectMid(before.out, last, NeedOf(last, paused), demanded);
      NeedMid(last, paused);
    }
  }

  lemma NeedMid(p: Plan, paused: string -> bool)
    ensures NeedOf(p, paused).Free? ==> NeedOf(p, paused).entry.mid == p.mid
  {
  }

  lemma EffectMid(out: seq<Plan>, p: Plan, need: Need, demanded: set<int>)
    requires need.Free? ==> need.entry.mid == p.mid
    ensures EffectOf(out, p, need, demanded).Enter? ==> EffectOf(out, p, need, demanded).entry.mid == p.mid
  {
  }

  lemma FilterMids(plans: seq<Plan>, keep: Plan -> bool)
    ensures Mids(Filter(plans, keep)) <= Mids(plans)
  {
    forall p | p in Filter(plans, keep)
      ensures p.mid in Mids(plans)
    {
      FilterMember(plans, keep, p);
    }
  }

  lemma ResolveMids(plans: seq<Plan>, known: set<int>, completed: set<(int, Action)>, compose: Plan -> Option<string>)
    ensures var st := ResolveAll(plans, Resolver(known, completed, compose)); Mids(st.out) + st.deferred <= Mids(plans)
  {
    ResolutionLeavesNoDelegate(plans, known, completed, compose);
  }

  lemma ApplyMids(st: Applied, plans: seq<Plan>, desk: Desk)
    requires st.deferred == {} && st.failed == {}
    ensures var done := ApplyAll(st, plans, |plans|, desk); done.deferred + done.failed <= Mids(plans)
  {
    ApplyConservesWork(st, plans, |plans|, desk);
    var done := ApplyAll(st, plans, |plans|, desk);
    forall m | m in done.deferred + done.failed
      ensures m in Mids(plans)
    {
      var p :| p in plans && p.mid == m;
    }
  }

  lemma SceneMids(plans: seq<Plan>, scene: Scene, cands: map<int, Candidate>)
    ensures Mids(InScene(plans, scene, cands)) + OutOfScene(plans, scene, cands) <= Mids(plans)
  {
    FilterMids(plans, (p: Plan) => !Stale(p, scene, cands));
  }

  /** The action half touches only messages it was given a plan for, or that are held. */
  lemma ActMids(ev: Eval, merged: seq<Candidate>, budget: Budget, w: World)
    ensures var acts := Act(ev, merged, budget, w); acts.deferred + acts.failed <= Mids(ev.plans) + ev.held
  {
    var cands := ById(merged);
    var allowed := set c | c in merged && !c.fromMe :: c.mid;
    var adm := AdmitAll(ev.plans, ev.demanded, (_: string) => false);
    AdmitMids(ev.plans, ev.demanded, (_: string) => false);
    var let := Filter(adm.out, (x: Plan) => x.mid in allowed);
    FilterMids(adm.out, (x: Plan) => x.mid in allowed);
    var res := ResolveAll(let, Resolver(cands.Keys, w.completed, w.compose));
    ResolveMids(let, cands.Keys, w.completed, w.compose);
    SceneMids(res.out, w.scene, cands);
    var desk := Desk(CapsOf(w.overrides), ev.demanded, w.hasOwner, w.hasHandle, w.outcome);
    ApplyMids(Applied(budget, w.completed, {}, {}, {}, 0), InScene(res.out, w.scene, cands), desk);
  }

  lemma {:induction false} ExpandMids(plans: seq<Plan>)
    ensures Mids(ExpandMemory(plans)) <= Mids(plans)
  {
    if plans != [] {
      var tail := plans[1..];
      ExpandMids(tail);
      assert plans == [plans[0]] + tail;
      assert plans[0].mid in Mids(plans) && Mids(tail) <= Mids(plans);
      forall q | q in ExpandMemory(plans)
        ensures q.mid in Mids(plans)
      {
        if q !in ExpandMemory(tail) { assert q.mid == plans[0].mid; } else { assert q.mid in Mids(ExpandMemory(tail)); }
      }
    }
  }

  lemma RefinedMids(kept: seq<Plan>, ctx: Context, demanded: set<int>)
    ensures Mids(Refined(kept, ctx, demanded)) <= Mids(kept)
  {
    var expanded := ExpandMemory(kept);
    ExpandMids(kept);
    var willing := Filter(expanded, (p: Plan) => !(Speaks(p.action) && p.want == WantNo));
    FilterMids(expanded, (p: Plan) => !(Speaks(p.action) && p.want == WantNo));
    var deep := DepthPolicy(expanded, ctx.cands, demanded);
    forall q | q in deep
      ensures q.mid in Mids(willing)
    {
      var i :| 0 <= i < |deep| && deep[i] == q;
      assert willing[i] in willing && q.mid == willing[i].mid;
    }
    FilterMids(deep, (p: Plan) => !AlreadyDone(p, ctx.completed));
  }

  lemma PlansMids(items: seq<Item>, mids: set<int>)
    requires MidsOf(items) <= mids
    ensures Mids(PlansOf(items)) <= mids
  {
    var plans := PlansOf(items);
    forall p | p in plans ensures p.mid in mids {
      var i :| 0 <= i < |plans| && plans[i] == p;
      assert items[i] in items && p.mid in MidsOf(items);
    }
  }

  lemma WaitMids(plans: seq<Plan>, e: Entry, batch: seq<Candidate>)
    requires batch != []
    ensures var w := WaitPolicy(plans, e, batch); Mids(w.kept) <= Mids(plans) && w.held <= Mids(plans)
  {
    FilterMids(plans, (p: Plan) => p.action == Wait);
    FilterMids(plans, (p: Plan) => p.action != Wait);
  }

  /** An accepted answer contributes plans and holds only for the messages of its own batch. */
  lemma AcceptMids(b: Batch, entry: Entry, items: seq<Item>, ctx: Context)
    requires b.cands != [] && AnswerValid(Items(items), Required(b))
    ensures var v := Accept(b, entry, items, ctx); Mids(v.plans) + v.held <= Required(b)
  {
    var plans := PlansOf(items);
    PlansMids(items, Required(b));
    var demanded := Demanded(b, plans);
    FilterMids(plans, (p: Plan) => ctx.proactiveOk || !(Speaks(p.action) || IsMemory(p.action)) || p.mid in demanded);
    var cleared := entry.(failures := 0, retryAt := None);
    var bounded := AutonomyBoundary(plans, demanded, ctx.proactiveOk);
    WaitMids(bounded, cleared, b.cands);
    RefinedMids(WaitPolicy(bounded, cleared, b.cands).kept, ctx, demanded);
  }

  ghost predicate VerdictMids(v: Verdict, b: Batch) {
    Mids(v.plans) + v.held <= if v.status == Valid then Required(b) else {}
  }

  lemma JudgeMids(e: Eval, b: Batch, answer: Answer, ctx: Context)
    requires b.cands != []
    ensures VerdictMids(Judge(e, b, answer, ctx), b)
  {
    var v := Judge(e, b, answer, ctx);
    if v.status == Valid {
      AcceptMids(b, EntryOf(e.topics, ctx.chatCursor, b.topic), answer.items, ctx);
    } else {
      assert v.plans == [] && v.held == {};
    }
  }

  ghost function AnsweredMids(work: seq<Batch>, statuses: seq<Status>): set<int>
    requires |statuses| <= |work|
  {
    set i, m | 0 <= i < |statuses| && statuses[i] == Valid && m in Required(work[i]) :: m
  }

  lemma MoreAnswered(work: seq<Batch>, statuses: seq<Status>, s: Status)
    requires |statuses| < |work|
    ensures AnsweredMids(work, statuses) + (if s == Valid then Required(work[|statuses|]) else {})
      <= AnsweredMids(work, statuses + [s])
  {
    var more := statuses + [s];
    forall m | m in AnsweredMids(work, statuses) ensures m in AnsweredMids(work, more) {
      var i :| 0 <= i < |statuses| && statuses[i] == Valid && m in Required(work[i]);
      assert more[i] == Valid;
    }
    assert more[|statuses|] == s;
  }

  lemma {:induction false} EvalMids(start: Eval, work: seq<Batch>, n: nat, judge: (Eval, nat) -> Verdict)
    requires n <= |work| && start.statuses == [] && start.plans == [] && start.held == {}
    requires forall e: Eval, i: nat :: i < |work| ==> VerdictMids(judge(e, i), work[i])
    ensures var e := EvalAll(start, work, n, judge);
      |e.statuses| == n && Mids(e.plans) + e.held <= AnsweredMids(work, e.statuses)
  {
    if n > 0 {
      EvalMids(start, work, n - 1, judge);
      var e := EvalAll(start, work, n - 1, judge);
      var v := judge(e, n - 1);
      var e' := EvalAll(start, work, n, judge);
      assert VerdictMids(v, work[n - 1]);
      assert e' == Record(e, work[n - 1].topic, v);
      MoreAnswered(work, e.statuses, v.status);
      assert Mids(e'.plans) <= Mids(e.plans) + Mids(v.plans);
    }
  }

  function MidOf(): Candidate -> int { (c: Candidate) => c.mid }

  lemma SameMidSameCandidate(merged: seq<Candidate>, a: Candidate, b: Candidate)
    requires DistinctBy(merged, MidOf()) && a in merged && b in merged && a.mid == b.mid
    ensures a == b
  {
    var i :| 0 <= i < |merged| && merged[i] == a;
    var j :| 0 <= j < |merged| && merged[j] == b;
    assert MidOf()(merged[i]) == MidOf()(merged[j]);
  }

  /** No batch of topic `t` got a valid answer. */
  ghost predicate NoneValid(work: seq<Batch>, statuses: seq<Status>, t: Topic)
    requires |statuses| == |work|
  {
    forall i :: 0 <= i < |work| && work[i].topic == t ==> statuses[i] != Valid
  }

  /**
   * With distinct message ids, a pass really leaves a topic without a valid answer alone: nothing
   * of it is deferred or fails, so no other topic's deliveries can touch its lane.
   */
  lemma SilentTopicStaysQuiet(
    topics: map<Topic, Entry>, chatCursor: Option<nat>, budget: Budget, calls: nat, now: int, w: World, t: Topic)
    requires DistinctBy(MergedOf(topics, chatCursor, w), MidOf())
    requires NoneValid(WorkBatches(LanesOf(MergedOf(topics, chatCursor, w))),
        Evaluation(topics, chatCursor, calls, now, w).statuses, t)
    ensures var merged, ev := MergedOf(topics, chatCursor, w), Evaluation(topics, chatCursor, calls, now, w);
      TopicQuiet(merged, Act(ev, merged, budget, w), t)
  {
    var merged, ev := MergedOf(topics, chatCursor, w), Evaluation(topics, chatCursor, calls, now, w);
    EvaluationMids(topics, chatCursor, calls, now, w);
    ActMids(ev, merged, budget, w);
    QuietByIds(merged, WorkBatches(LanesOf(merged)), ev, t, Act(ev, merged, budget, w));
  }

  /** A topic whose head batch was answered badly got no valid answer in that pass. */
  lemma NothingAfterBadHead(ev: Eval, work: seq<Batch>, h: nat)
    requires |ev.statuses| == |work| && EvalInv(ev, work, |work|) && IsHead(work, h) && Bad(ev.statuses[h])
    ensures NoneValid(work, ev.statuses, work[h].topic)
  {
    forall i | 0 <= i < |work| && work[i].topic == work[h].topic
      ensures ev.statuses[i] != Valid { HeadFirst(work, h, i); }
  }

  /** In particular a badly answered topic takes exactly its strike. */
  lemma BadTopicStaysQuiet(
    topics: map<Topic, Entry>, chatCursor: Option<nat>, budget: Budget, calls: nat, now: int, w: World, h: nat)
    requires DistinctBy(MergedOf(topics, chatCursor, w), MidOf())
    requires IsHead(WorkBatches(LanesOf(MergedOf(topics, chatCursor, w))), h)
    requires Bad(Evaluation(topics, chatCursor, calls, now, w).statuses[h])
    ensures var merged, ev := MergedOf(topics, chatCursor, w), Evaluation(topics, chatCursor, calls, now, w);
      TopicQuiet(merged, Act(ev, merged, budget, w), WorkBatches(LanesOf(merged))[h].topic)
  {
    var work := WorkBatches(LanesOf(MergedOf(topics, chatCursor, w)));
    EvaluationKeeps(topics, chatCursor, calls, now, w);
    NothingAfterBadHead(Evaluation(topics, chatCursor, calls, now, w), work, h);
    SilentTopicStaysQuiet(topics, chatCursor, budget, calls, now, w, work[h].topic);
  }

  lemma EvaluationMids(topics: map<Topic, Entry>, chatCursor: Option<nat>, calls: nat, now: int, w: World)
    ensures var ev, work := Evaluation(topics, chatCursor, calls, now,
        w), WorkBatches(LanesOf(MergedOf(topics, chatCursor, w)));
      Mids(ev.plans) + ev.held <= AnsweredMids(work, ev.statuses)
  {
    var merged := MergedOf(topics, chatCursor, w);
    var work := WorkBatches(LanesOf(merged));
    var ctx := ContextOf(merged, chatCursor, now, w);
    var judge := Judging(work, w.decide, ctx);
    WorkHasCandidates(merged);
    forall e: Eval, i: nat | i < |work|
      ensures VerdictMids(judge(e, i), work[i])
    {
      JudgeMids(e, work[i], w.decide(i), ctx);
    }
    EvalMids(Start(OpenTopics(topics, chatCursor, FromRows(w.rows)), calls), work, |work|, judge);
  }

  lemma QuietByIds(merged: seq<Candidate>, work: seq<Batch>, ev: Eval, t: Topic, acts: Acts)
    requires DistinctBy(merged, MidOf()) && work == WorkBatches(LanesOf(merged))
    requires |ev.statuses| == |work| && NoneValid(work, ev.statuses, t)
    requires acts.deferred + acts.failed <= AnsweredMids(work, ev.statuses)
    ensures TopicQuiet(merged, acts, t)
  {
    forall c | c in merged && c.topic == t
      ensures c.mid !in acts.deferred && c.mid !in acts.failed
    {
      forall i | 0 <= i < |work| && ev.statuses[i] == Valid
        ensures c.mid !in Required(work[i])
      {
        NotRequired(merged, i, c);
      }
    }
  }

  /** A message is asked about only in the batches of its own topic. */
  lemma NotRequired(merged: seq<Candidate>, i: nat, c: Candidate)
    requires DistinctBy(merged, MidOf()) && c in merged
    requires i < |WorkBatches(LanesOf(merged))| && WorkBatches(LanesOf(merged))[i].topic != c.topic
    ensures c.mid !in Required(WorkBatches(LanesOf(merged))[i])
  {
    var work := WorkBatches(LanesOf(merged));
    forall x | x in work[i].cands && x.mid == c.mid
      ensures false
    {
      WorkCovers(merged, x);
      SameMidSameCandidate(merged, c, x);
    }
  }

  lemma HeadFirst(work: seq<Batch>, h: nat, i: nat)
    requires IsHead(work, h) && i < |work| && work[i].topic == work[h].topic
    ensures h <= i
  {
  }
}
