/** From the decider's answer to a finished action: what a settled batch means for its messages. */
module Answers {
  import opened Prelude
  import opened Candidates
  import opened Scheduling
  import opened Plans
  import opened Ceilings
  import opened TopicLanes
  import opened CarryOut
  import opened ChatPass

  // ----- Policies of one batch -------------------------------------------------------------

  /** `q` is what the policies made of `p`: the same demand on the same message. */
  ghost predicate SameDemand(p: Plan, q: Plan) {
    q.mid == p.mid && q.chatId == p.chatId && q.text == p.text && q.emoji == p.emoji
    && Speaks(q.action) && Terminal(q.action) == Terminal(p.action) && (p.action == Delegate ==> q.action == Delegate)
  }

  lemma {:induction false} ExpandMemoryKeeps(plans: seq<Plan>, p: Plan)
    requires p in plans
    ensures p in ExpandMemory(plans)
  {
    assert plans == [plans[0]] + plans[1..];
    if p != plans[0] { ExpandMemoryKeeps(plans[1..], p); }
  }

  lemma DepthPolicyKeeps(plans: seq<Plan>, cands: map<int, Candidate>, demanded: set<int>, p: Plan)
    requires p in plans && Speaks(p.action) && p.want == WantYes
    ensures Deepen(p, cands, demanded) in DepthPolicy(plans, cands, demanded)
    ensures SameDemand(p, Deepen(p, cands, demanded))
  {
    var kept := Filter(plans, (x: Plan) => !(Speaks(x.action) && x.want == WantNo));
    FilterMember(plans, (x: Plan) => !(Speaks(x.action) && x.want == WantNo), p);
    var i :| 0 <= i < |kept| && kept[i] == p;
    assert DepthPolicy(plans, cands, demanded)[i] == Deepen(p, cands, demanded);
  }

  /** Past the pause of proactive presence, a demand survives the batch policies unless it is already met. */
  lemma RefinedKeeps(kept: seq<Plan>, ctx: Context, demanded: set<int>, p: Plan)
    requires p in kept && Speaks(p.action) && p.want == WantYes
    ensures (p.mid, Terminal(p.action)) in ctx.completed || exists q ::
      q in Refined(kept, ctx, demanded) && SameDemand(p, q)
  {
    var q := Deepen(p, ctx.cands, demanded);
    ExpandMemoryKeeps(kept, p);
    DepthPolicyKeeps(ExpandMemory(kept), ctx.cands, demanded, p);
    FilterMember(DepthPolicy(ExpandMemory(kept), ctx.cands, demanded), (x: Plan) => !AlreadyDone(x, ctx.completed), q);
  }

  lemma WaitKeepsOthers(plans: seq<Plan>, e: Entry, batch: seq<Candidate>, p: Plan)
    requires batch != [] && p in plans && p.action != Wait
    ensures p in WaitPolicy(plans, e, batch).kept
  {
    FilterMember(plans, (x: Plan) => x.action != Wait, p);
  }

  /** A speaking assessment of a valid answer reaches the pass, unless met before or held back by the pause. */
  lemma AcceptKeeps(b: Batch, entry: Entry, items: seq<Item>, ctx: Context, item: Item)
    requires b.cands != [] && AnswerValid(Items(items), Required(b)) && item in items && Speaks(item.plan.action)
    ensures var p := item.plan.(chatId := "");
      || (!ctx.proactiveOk && p.mid !in Demanded(b, PlansOf(items)))
      || (p.mid, Terminal(p.action)) in ctx.completed
      || exists q :: q in Accept(b, entry, items, ctx).plans && SameDemand(p, q)
  {
    var p, plans := item.plan.(chatId := ""), PlansOf(items);
    var demanded := Demanded(b, plans);
    var i :| 0 <= i < |items| && items[i] == item;
    assert ItemValid(item) && plans[i] == p;
    if ctx.proactiveOk || p.mid in demanded {
      var bounded := AutonomyBoundary(plans, demanded, ctx.proactiveOk);
      FilterMember(
        plans, (x: Plan) => ctx.proactiveOk || !(Speaks(x.action) || IsMemory(x.action)) || x.mid in demanded, p);
      var clean := entry.(failures := 0, retryAt := None);
      WaitKeepsOthers(bounded, clean, b.cands, p);
      RefinedKeeps(WaitPolicy(bounded, clean, b.cands).kept, ctx, demanded, p);
    }
  }

  // ----- Plans collected over a pass ---------------------------------------------------------

  lemma {:induction false} PlansCollected(start: Eval, work: seq<Batch>, n: nat, judge: (Eval, nat) -> Verdict, k: nat)
    requires k < n <= |work| && start.statuses == []
    ensures var e, v := EvalAll(start, work, n, judge), judge(EvalAll(start, work, k, judge), k);
      && |EvalAll(start, work, n - 1, judge).statuses| == n - 1
      && |e.statuses| == n && e.statuses[k] == v.status
      && (forall q :: q in v.plans ==> q in e.plans)
  {
    StatusesCounted(start, work, n - 1, judge);
    if k < n - 1 {
      PlansCollected(start, work, n - 1, judge, k);
    }
  }

  lemma {:induction false} StatusesCounted(start: Eval, work: seq<Batch>, n: nat, judge: (Eval, nat) -> Verdict)
    requires n <= |work| && start.statuses == []
    ensures |EvalAll(start, work, n, judge).statuses| == n
  {
    if n > 0 { StatusesCounted(start, work, n - 1, judge); }
  }

  const NEVER := (_: string) => false

  /** The delegate plans admitted before plan `i` of the pass. */
  function DelegatesBefore(ev: Eval, i: nat): nat
    requires i <= |ev.plans|
  {
    CountDelegate(AdmitAll(ev.plans[..i], ev.demanded, NEVER).out)
  }

  /** The pass had no use for what the policies made of `p`: see `UnsendableMeans`. */
  ghost predicate Unsendable(ev: Eval, p: Plan) {
    exists i :: 0 <= i < |ev.plans| && SameDemand(p, ev.plans[i]) && Unusable(DelegatesBefore(ev, i), ev.plans[i])
  }

  lemma MoreDelegates(a: seq<Plan>, b: seq<Plan>)
    requires a <= b
    ensures CountDelegate(a) <= CountDelegate(b)
    decreases |b|
  {
    if |a| < |b| {
      MoreDelegates(a, b[..|b| - 1]);
    }
  }

  /**
   * What can keep a demand from being finished: a reply whose content no message can carry, a
   * reaction not on offer, which no valid answer holds, or a draft too long to stand in for an
   * answer that found both delegate slots taken.
   * A delegated answer within budget never fails for its draft, and one without a draft never does.
   */
  lemma UnsendableMeans(ev: Eval, p: Plan)
    requires Unsendable(ev, p)
    ensures
      || (p.action == Reply && !DraftOf(p.text).FitDraft?)
      || (p.action == React && !AllowedEmoji(p.emoji))
      || (p.action == Delegate && DraftOf(p.text).LongDraft?
          && CountDelegate(AdmitAll(ev.plans, ev.demanded, NEVER).out) == DELEGATE_PER_CYCLE)
  {
    var i :| 0 <= i < |ev.plans| && SameDemand(p, ev.plans[i]) && Unusable(DelegatesBefore(ev, i), ev.plans[i]);
    AdmissionGrows(ev.plans, i, ev.demanded, NEVER);
    MoreDelegates(AdmitAll(ev.plans[..i], ev.demanded, NEVER).out, AdmitAll(ev.plans, ev.demanded, NEVER).out);
    CeilingsHold(ev.plans, ev.demanded, NEVER);
  }

  /**
   * The action half of a pass finishes each demand, or puts the message off, or has no use for
   * its content - whatever composer, scene check, caps and transports do.
   */
  lemma ActFinishesDemands(ev: Eval, merged: seq<Candidate>, budget: Budget, w: World, p: Plan)
    requires p in ev.plans && Speaks(p.action) && p.chatId == ""
    requires p.mid in set c | c in merged && !c.fromMe :: c.mid
    ensures var acts := Act(ev, merged, budget, w);
      || p.mid in acts.deferred
      || (p.mid, Terminal(p.action)) in acts.completed + acts.buried
      || Unsendable(ev, p)
  {
    var cands := ById(merged);
    var allowed := set c | c in merged && !c.fromMe :: c.mid;
    var adm := AdmitAll(ev.plans, ev.demanded, NEVER);
    var i :| 0 <= i < |ev.plans| && ev.plans[i] == p;
    CeilingsConserveWork(ev.plans, i, ev.demanded, NEVER);
    var let := Filter(adm.out, (x: Plan) => x.mid in allowed);
    var res := ResolveAll(let, Resolver(cands.Keys, w.completed, w.compose));
    var plans := InScene(res.out, w.scene, cands);
    var desk := Desk(CapsOf(w.overrides), ev.demanded, w.hasOwner, w.hasHandle, w.outcome);
    var done := ApplyAll(Applied(budget, w.completed, {}, {}, {}, 0), plans, |plans|, desk);
    ApplyConservesWork(Applied(budget, w.completed, {}, {}, {}, 0), plans, |plans|, desk);
    if q :| q in adm.out && q.mid == p.mid && Speaks(q.action) && Terminal(q.action) == Terminal(p.action) {
      FilterMember(adm.out, (x: Plan) => x.mid in allowed, q);
      ResolutionConservesWork(let, q, cands.Keys, w.completed, w.compose);
      if r :| r in res.out && r.mid == q.mid && Speaks(r.action) && r.action == Terminal(q.action) {
        SceneConservesWork(res.out, w.scene, cands, r);
        if r in plans {
          var j :| 0 <= j < |plans| && plans[j] == r;
          assert Closed(done, plans[j]);
        }
      }
    } else if Unusable(DelegatesBefore(ev, i), p) {
      assert SameDemand(p, ev.plans[i]);
    }
  }

  /** How a speaking assessment can end once its batch counts as settled. */
  ghost predicate Finished(item: Item, b: Batch, items: seq<Item>, ev: Eval, acts: Acts, w: World) {
    var p := item.plan;
    || (p.mid, Terminal(p.action)) in acts.completed
    || (p.mid, Terminal(p.action)) in acts.buried
    || (!w.proactiveOk && p.mid !in Demanded(b, PlansOf(items)))
    || (p.action != React && Unsendable(ev, p.(chatId := "")))
  }

  lemma ActKeepsCompleted(ev: Eval, merged: seq<Candidate>, budget: Budget, w: World)
    ensures w.completed <= Act(ev, merged, budget, w).completed
  {
    var cands := ById(merged);
    var allowed := set c | c in merged && !c.fromMe :: c.mid;
    var adm := AdmitAll(ev.plans, ev.demanded, (_: string) => false);
    var res := ResolveAll(Filter(adm.out, (x: Plan) => x.mid in allowed), Resolver(cands.Keys, w.completed, w.compose));
    var plans := InScene(res.out, w.scene, cands);
    var desk := Desk(CapsOf(w.overrides), ev.demanded, w.hasOwner, w.hasHandle, w.outcome);
    ApplyConservesWork(Applied(budget, w.completed, {}, {}, {}, 0), plans, |plans|, desk);
  }

  /** One accepted batch whose plans reached the pass and which nothing deferred. */
  lemma AcceptedIsFinished(
    b: Batch, entry: Entry, items: seq<Item>, ctx: Context, ev: Eval, merged: seq<Candidate>, budget: Budget,
        w: World, item: Item)
    requires b.cands != [] && AnswerValid(Items(items), Required(b)) && item in items && Speaks(item.plan.action)
    requires ctx.proactiveOk == w.proactiveOk && ctx.completed == w.completed
    requires forall q :: q in Accept(b, entry, items, ctx).plans ==> q in ev.plans
    requires forall c :: c in b.cands ==> c in merged
    requires !BatchDeferred(b, Act(ev, merged, budget, w).deferred)
    ensures Finished(item, b, items, ev, Act(ev, merged, budget, w), w)
  {
    var acts := Act(ev, merged, budget, w);
    var p := item.plan.(chatId := "");
    ActKeepsCompleted(ev, merged, budget, w);
    AcceptKeeps(b, entry, items, ctx, item);
    assert item.plan.mid in MidsOf(items);
    var c :| c in b.cands && !c.fromMe && c.mid == p.mid;
    if q :| q in Accept(b, entry, items, ctx).plans && SameDemand(p, q) {
      assert q.mid in set x | x in merged && !x.fromMe :: x.mid by { assert c in merged; }
      ActFinishesDemands(ev, merged, budget, w, q);
      if Unsendable(ev, q) {
        UnsendableStays(ev, p, q);
        UnsendableMeans(ev, p);
        assert ItemValid(item);
      }
    }
  }

  lemma UnsendableStays(ev: Eval, p: Plan, q: Plan)
    requires SameDemand(p, q) && Unsendable(ev, q)
    ensures Unsendable(ev, p)
  {
    var i :| 0 <= i < |ev.plans| && SameDemand(q, ev.plans[i]) && Unusable(DelegatesBefore(ev, i), ev.plans[i]);
    assert SameDemand(p, ev.plans[i]);
  }

  /**
   * When a batch with a valid answer counts as settled - so that the cursor may pass it -
   * every reply, delegated answer, reaction and owner notice the decider asked for has been
   * carried out now or before, was given up by the durable outbox, was held back by the
   * operator's pause, or had content the pass had no use for (`UnsendableMeans`).
   */
  lemma SettledAnswersAreFinished(
    topics: map<Topic, Entry>, chatCursor: Option<nat>, budget: Budget, calls: nat, now: int, w: World, k: nat,
        item: Item)
    requires var p := RunPass(topics, chatCursor, budget, calls, now, w);
      k < |p.work| && |p.good| == |p.work| && p.good[k]
    requires Evaluation(topics, chatCursor, calls, now, w).statuses[k] == Valid
    requires w.decide(k).Items? && item in w.decide(k).items && Speaks(item.plan.action)
    ensures var ev, merged := Evaluation(topics, chatCursor, calls, now, w), MergedOf(topics, chatCursor, w);
      Finished(item, RunPass(topics, chatCursor, budget, calls, now, w).work[k], w.decide(k).items, ev,
          Act(ev, merged, budget, w), w)
  {
    var merged := MergedOf(topics, chatCursor, w);
    var work := WorkBatches(LanesOf(merged));
    var ctx := ContextOf(merged, chatCursor, now, w);
    var judge := Judging(work, w.decide, ctx);
    var start := Start(OpenTopics(topics, chatCursor, FromRows(w.rows)), calls);
    var ev := Evaluation(topics, chatCursor, calls, now, w);
    WorkHasCandidates(merged);
    PlansCollected(start, work, |work|, judge, k);
    var e := EvalAll(start, work, k, judge);
    var b := work[k];
    ValidVerdict(e, b, w.decide(k), ctx);
    forall c | c in b.cands
      ensures c in merged
    {
      WorkCovers(merged, c);
    }
    AcceptedIsFinished(b, EntryOf(e.topics, ctx.chatCursor, b.topic), w.decide(k).items, ctx, ev, merged, budget, w,
        item);
  }

  lemma ValidVerdict(e: Eval, b: Batch, answer: Answer, ctx: Context)
    requires b.cands != [] && Judge(e, b, answer, ctx).status == Valid
    ensures AnswerValid(answer, Required(b))
    ensures Judge(e, b, answer, ctx) == Accept(b, EntryOf(e.topics, ctx.chatCursor, b.topic), answer.items, ctx)
  {
  }
}
