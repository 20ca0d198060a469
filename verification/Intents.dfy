/** What the plans of a valid answer turn into before any ceiling applies, plan by plan. */
module Intents {
  import opened Prelude
  import opened Text
  import opened Candidates
  import opened Scheduling
  import opened Plans
  import opened TopicLanes

  /** A mention of the agent or a reply to it that the decider also reads as aimed at the agent. */
  ghost predicate AddressesAgent(cands: seq<Candidate>, items: seq<Item>, mid: int) {
    && (exists c :: c in cands && c.mid == mid && (c.kind == Mention || c.kind == ReplyToAgent))
    && exists i :: i in items && i.plan.mid == mid && i.plan.selfIsAddressee
  }

  /** The question deserves the composer: the decider says so, or it is demanded, and cut off or long. */
  predicate GoesDeep(p: Plan, cands: map<int, Candidate>, demanded: bool) {
    || p.depth == Deep
    || (demanded && p.mid in cands
        && (cands[p.mid].truncated || |Strip(cands[p.mid].snippet)| >= 180
            || ('?' in Strip(cands[p.mid].snippet) && |Strip(cands[p.mid].snippet)| >= 60)))
  }

  /** `q` is what plan `p` itself becomes: a deep reply is handed to the composer, all else stays as it is. */
  predicate Becomes(p: Plan, q: Plan, cands: map<int, Candidate>, demanded: bool) {
    if p.action == Reply && GoesDeep(p, cands, demanded) then q == p.(action := Delegate) else q == p
  }

  /** `q` is the note about the sender or an entity that plan `p` asks for on the side. */
  predicate SideNote(p: Plan, q: Plan) {
    || (p.memory == SenderMemory && p.note != "" && p.action != Remember
        && q == p.(action := Remember, text := "", emoji := "", memory := NoMemory))
    || (p.memory == EntityMemory && p.note != "" && p.entity != "" && p.action != RememberEntity
        && q == p.(action := RememberEntity, text := "", emoji := "", memory := NoMemory))
  }

  /** With proactive presence paused, only confirmed demand may speak or take notes. */
  predicate MayAct(p: Plan, proactiveOk: bool, demanded: bool) {
    || proactiveOk || demanded
    || p.action == Ignore || p.action == Wait
  }

  predicate Undone(q: Plan, completed: set<(int, Action)>) {
    q.action == Ignore || (q.mid, if q.action == Delegate then Reply else q.action) !in completed
  }

  /** Plan `p` of the answer puts `q` on the pass's list. */
  predicate Yields(p: Plan, q: Plan, ctx: Context, demanded: bool) {
    && p.action != Wait && MayAct(p, ctx.proactiveOk, demanded) && Undone(q, ctx.completed)
    && (Becomes(p, q, ctx.cands, demanded) || SideNote(p, q))
  }

  // ----- Policy by policy ------------------------------------------------------------------------

  lemma CompanionIsNote(p: Plan, q: Plan)
    ensures q in Companion(p) <==> SideNote(p, q)
  {
  }

  /** A plan of the expanded list is a plan of the answer or a note on the side of one. */
  lemma {:induction false} ExpandedSource(plans: seq<Plan>, q: Plan) returns (p: Plan)
    requires q in ExpandMemory(plans)
    ensures p in plans && (q == p || SideNote(p, q))
  {
    CompanionIsNote(plans[0], q);
    assert plans[0] in plans;
    if q == plans[0] || q in Companion(plans[0]) {
      p := plans[0];
    } else {
      p := ExpandedSource(plans[1..], q);
      assert p in plans[1..];
    }
  }

  lemma {:induction false} ExpandedHas(plans: seq<Plan>, p: Plan, q: Plan)
    requires p in plans && (q == p || SideNote(p, q))
    ensures q in ExpandMemory(plans)
  {
    CompanionIsNote(p, q);
    if p != plans[0] {
      assert plans == [plans[0]] + plans[1..];
      ExpandedHas(plans[1..], p, q);
    }
  }

  lemma DeepenIsBecoming(p: Plan, q: Plan, cands: map<int, Candidate>, demanded: set<int>)
    ensures Becomes(p, q, cands, p.mid in demanded) <==> q == Deepen(p, cands, demanded)
  {
  }

  lemma DepthSource(plans: seq<Plan>, cands: map<int, Candidate>, demanded: set<int>, q: Plan) returns (p: Plan)
    requires q in DepthPolicy(plans, cands, demanded)
    ensures p in plans && Becomes(p, q, cands, p.mid in demanded)
  {
    var keep := (p: Plan) => !(Speaks(p.action) && p.want == WantNo);
    var kept, deep := Filter(plans, keep), DepthPolicy(plans, cands, demanded);
    var i :| 0 <= i < |deep| && deep[i] == q;
    p := kept[i];
    assert p in kept;
    FilterMember(plans, keep, p);
    DeepenIsBecoming(p, q, cands, demanded);
  }

  lemma DepthHas(plans: seq<Plan>, cands: map<int, Candidate>, demanded: set<int>, p: Plan, q: Plan)
    requires p in plans && (Speaks(p.action) ==> p.want != WantNo) && Becomes(p, q, cands, p.mid in demanded)
    ensures q in DepthPolicy(plans, cands, demanded)
  {
    var keep := (p: Plan) => !(Speaks(p.action) && p.want == WantNo);
    var kept := Filter(plans, keep);
    FilterMember(plans, keep, p);
    DeepenIsBecoming(p, q, cands, demanded);
    var i :| 0 <= i < |kept| && kept[i] == p;
    assert DepthPolicy(plans, cands, demanded)[i] == q;
  }

  lemma LeftUndone(plans: seq<Plan>, completed: set<(int, Action)>, q: Plan)
    requires q.action != Wait
    ensures q in DropDone(plans, completed) <==> q in plans && Undone(q, completed)
  {
    FilterMember(plans, (p: Plan) => !AlreadyDone(p, completed), q);
  }

  lemma NotesStayShallow(p: Plan, q: Plan, cands: map<int, Candidate>, demanded: bool)
    requires SideNote(p, q)
    ensures forall r :: Becomes(q, r, cands, demanded) <==> r == q
    ensures q.action != Wait && q.mid == p.mid && !Speaks(q.action)
  {
  }

  /** A refined plan comes from one of the plans kept. */
  lemma RefinedSource(kept: seq<Plan>, ctx: Context, demanded: set<int>, q: Plan) returns (p: Plan)
    requires forall p :: p in kept ==> p.action != Wait
    requires q in Refined(kept, ctx, demanded)
    ensures p in kept && q.action != Wait && Undone(q, ctx.completed)
    ensures Becomes(p, q, ctx.cands, p.mid in demanded) || SideNote(p, q)
  {
    var expanded := ExpandMemory(kept);
    FilterMember(DepthPolicy(expanded, ctx.cands, demanded), (p: Plan) => !AlreadyDone(p, ctx.completed), q);
    var r := DepthSource(expanded, ctx.cands, demanded, q);
    p := ExpandedSource(kept, r);
    if SideNote(p, r) { NotesStayShallow(p, r, ctx.cands, r.mid in demanded); }
    LeftUndone(DepthPolicy(expanded, ctx.cands, demanded), ctx.completed, q);
  }

  lemma RefinedHas(kept: seq<Plan>, ctx: Context, demanded: set<int>, p: Plan, q: Plan)
    requires p in kept && p.action != Wait && (Speaks(p.action) ==> p.want != WantNo) && Undone(q, ctx.completed)
    requires Becomes(p, q, ctx.cands, p.mid in demanded) || SideNote(p, q)
    ensures q in Refined(kept, ctx, demanded)
  {
    var expanded := ExpandMemory(kept);
    if SideNote(p, q) {
      NotesStayShallow(p, q, ctx.cands, q.mid in demanded);
      ExpandedHas(kept, p, q);
      DepthHas(expanded, ctx.cands, demanded, q, q);
    } else {
      ExpandedHas(kept, p, p);
      DepthHas(expanded, ctx.cands, demanded, p, q);
    }
    LeftUndone(DepthPolicy(expanded, ctx.cands, demanded), ctx.completed, q);
  }

  // ----- All policies together -------------------------------------------------------------------

  /** The plans left once the pause and the wait policy are through, but for the waits. */
  lemma KeptExactly(plans: seq<Plan>, demanded: set<int>, proactiveOk: bool, e: Entry, batch: seq<Candidate>, p: Plan)
    requires batch != []
    ensures p in WaitPolicy(AutonomyBoundary(plans, demanded, proactiveOk), e, batch).kept && p.action != Wait <==>
      p in plans && p.action != Wait && MayAct(p, proactiveOk, p.mid in demanded)
    ensures p in WaitPolicy(AutonomyBoundary(plans, demanded, proactiveOk), e, batch).kept ==> p.action != Wait
  {
    var bounded := AutonomyBoundary(plans, demanded, proactiveOk);
    FilterMember(plans, (p: Plan) => proactiveOk || !(Speaks(p.action) || IsMemory(p.action)) || p.mid in demanded, p);
    FilterMember(bounded, (p: Plan) => p.action != Wait, p);
    FilterMember(bounded, (p: Plan) => p.action == Wait, p);
  }

  lemma DemandedExactly(b: Batch, items: seq<Item>, mid: int)
    ensures mid in Demanded(b, PlansOf(items)) <==> AddressesAgent(b.cands, items, mid)
  {
    var plans := PlansOf(items);
    if i :| i in items && i.plan.mid == mid && i.plan.selfIsAddressee {
      var k :| 0 <= k < |items| && items[k] == i;
      assert plans[k] in plans && plans[k].mid == mid && plans[k].selfIsAddressee;
    }
    if p :| p in plans && p.mid == mid && p.selfIsAddressee {
      var k :| 0 <= k < |plans| && plans[k] == p;
      assert items[k] in items && items[k].plan.mid == mid;
    }
  }

  /** The plan an item of the answer stands for. */
  function PlanOf(i: Item): Plan { i.plan.(chatId := "") }

  lemma PlansExactly(items: seq<Item>, p: Plan)
    ensures p in PlansOf(items) <==> exists i :: i in items && PlanOf(i) == p
  {
    var plans := PlansOf(items);
    if p in plans {
      var k :| 0 <= k < |plans| && plans[k] == p;
      assert items[k] in items;
    }
    if i :| i in items && PlanOf(i) == p {
      var k :| 0 <= k < |items| && items[k] == i;
      assert plans[k] == p;
    }
  }

  ghost predicate YieldedBy(items: seq<Item>, b: Batch, ctx: Context, q: Plan) {
    exists i :: i in items && Yields(PlanOf(i), q, ctx, AddressesAgent(b.cands, items, i.plan.mid))
  }

  /**
   * The plans a valid answer contributes, none missing and none added: each item that may act puts
   * its own plan on the list, a deep reply as a delegate plan, and the note it asks for on the side,
   * unless that was done before.
   */
  lemma AnswerYieldsExactly(b: Batch, entry: Entry, items: seq<Item>, ctx: Context, q: Plan)
    requires b.cands != [] && AnswerValid(Items(items), Required(b))
    ensures q in Accept(b, entry, items, ctx).plans <==> YieldedBy(items, b, ctx, q)
  {
    if q in Accept(b, entry, items, ctx).plans { AcceptedSource(b, entry, items, ctx, q); }
    if i :| i in items && Yields(PlanOf(i), q, ctx, AddressesAgent(b.cands, items, i.plan.mid)) {
      AcceptedHas(b, entry, items, ctx, i, q);
    }
  }

  lemma AcceptedSource(b: Batch, entry: Entry, items: seq<Item>, ctx: Context, q: Plan)
    requires b.cands != [] && q in Accept(b, entry, items, ctx).plans
    ensures YieldedBy(items, b, ctx, q)
  {
    var plans, clean := PlansOf(items), entry.(failures := 0, retryAt := None);
    var demanded := Demanded(b, plans);
    var kept := WaitPolicy(AutonomyBoundary(plans, demanded, ctx.proactiveOk), clean, b.cands).kept;
    forall p | p in kept ensures p.action != Wait {
      KeptExactly(plans, demanded, ctx.proactiveOk, clean, b.cands, p);
    }
    var p := RefinedSource(kept, ctx, demanded, q);
    KeptExactly(plans, demanded, ctx.proactiveOk, clean, b.cands, p);
    PlansExactly(items, p);
    var i :| i in items && PlanOf(i) == p;
    DemandedExactly(b, items, p.mid);
  }

  lemma AcceptedHas(b: Batch, entry: Entry, items: seq<Item>, ctx: Context, i: Item, q: Plan)
    requires b.cands != [] && AnswerValid(Items(items), Required(b)) && i in items
    requires Yields(PlanOf(i), q, ctx, AddressesAgent(b.cands, items, i.plan.mid))
    ensures q in Accept(b, entry, items, ctx).plans
  {
    var plans, clean, p := PlansOf(items), entry.(failures := 0, retryAt := None), PlanOf(i);
    var demanded := Demanded(b, plans);
    DemandedExactly(b, items, p.mid);
    PlansExactly(items, p);
    KeptExactly(plans, demanded, ctx.proactiveOk, clean, b.cands, p);
    assert ItemValid(i);
    var bounded := AutonomyBoundary(plans, demanded, ctx.proactiveOk);
    RefinedHas(WaitPolicy(bounded, clean, b.cands).kept, ctx, demanded, p, q);
  }

  // ----- In which order --------------------------------------------------------------------------

  /** What becomes of the plan itself. */
  function Own(p: Plan, cands: map<int, Candidate>, demanded: bool): Plan {
    if p.action == Reply && GoesDeep(p, cands, demanded) then p.(action := Delegate) else p
  }

  function IfUndone(q: Plan, completed: set<(int, Action)>): seq<Plan> { if Undone(q, completed) then [q] else [] }

  /** The share of one plan in the pass's list: itself, then the note on the side. */
  function Share(p: Plan, ctx: Context, demanded: bool): seq<Plan> {
    if p.action == Wait || !MayAct(p, ctx.proactiveOk, demanded) then []
    else
      IfUndone(Own(p, ctx.cands, demanded), ctx.completed)
      + (if p.memory == SenderMemory && p.note != "" && p.action != Remember then
           IfUndone(p.(action := Remember, text := "", emoji := "", memory := NoMemory), ctx.completed)
         else if p.memory == EntityMemory && p.note != "" && p.entity != "" && p.action != RememberEntity then
           IfUndone(p.(action := RememberEntity, text := "", emoji := "", memory := NoMemory), ctx.completed)
         else [])
  }

  function Shares(plans: seq<Plan>, ctx: Context, demanded: set<int>): seq<Plan> {
    Flatten(Map((p: Plan) => Share(p, ctx, p.mid in demanded), plans))
  }

  /** What is left of the plans once the pause and the waits are taken out. */
  function Acting(plans: seq<Plan>, proactiveOk: bool, demanded: set<int>): seq<Plan> {
    Filter(plans, (p: Plan) => p.action != Wait && MayAct(p, proactiveOk, p.mid in demanded))
  }

  lemma {:induction false} FilterTwice<T>(s: seq<T>, p: T -> bool, q: T -> bool, both: T -> bool)
    requires forall x :: x in s ==> (both(x) <==> p(x) && q(x))
    ensures Filter(Filter(s, p), q) == Filter(s, both)
  {
    if s != [] {
      assert forall x :: x in s[1..] ==> x in s;
      FilterTwice(s[1..], p, q, both);
      assert s[0] in s;
    }
  }

  lemma {:induction false} FilterNothing<T>(s: seq<T>, p: T -> bool)
    requires forall x :: x in s ==> p(x)
    ensures Filter(s, p) == s
  {
    if s != [] { FilterNothing(s[1..], p); }
  }

  lemma KeptIsActing(plans: seq<Plan>, demanded: set<int>, proactiveOk: bool, e: Entry, batch: seq<Candidate>)
    requires batch != []
    ensures WaitPolicy(AutonomyBoundary(plans, demanded, proactiveOk), e, batch).kept
         == Acting(plans, proactiveOk, demanded)
  {
    var bounded := AutonomyBoundary(plans, demanded, proactiveOk);
    var waits, goes := (p: Plan) => p.action == Wait, (p: Plan) => p.action != Wait;
    if Filter(bounded, waits) == [] {
      forall p | p in bounded ensures goes(p) { FilterMember(bounded, waits, p); }
      FilterNothing(bounded, goes);
    }
    FilterTwice(plans, (p: Plan) => proactiveOk || !(Speaks(p.action) || IsMemory(p.action)) || p.mid in demanded, goes,
                (p: Plan) => p.action != Wait && MayAct(p, proactiveOk, p.mid in demanded));
  }

  lemma {:induction false} ExpandedIsFlat(plans: seq<Plan>)
    ensures ExpandMemory(plans) == Flatten(Map((p: Plan) => [p] + Companion(p), plans))
  {
    if plans != [] {
      ExpandedIsFlat(plans[1..]);
      assert Map((p: Plan) => [p] + Companion(p), plans)[1..] == Map((p: Plan) => [p] + Companion(p), plans[1..]);
    }
  }

  lemma ExpandedJoin(a: seq<Plan>, b: seq<Plan>)
    ensures ExpandMemory(a + b) == ExpandMemory(a) + ExpandMemory(b)
  {
    var f := (p: Plan) => [p] + Companion(p);
    ExpandedIsFlat(a);
    ExpandedIsFlat(b);
    ExpandedIsFlat(a + b);
    MapJoin(f, a, b);
    FlattenAppend(Map(f, a), Map(f, b));
  }

  /** What the depth policy and the look at what was done leave of a list. */
  function Policed(plans: seq<Plan>, ctx: Context, demanded: set<int>): seq<Plan> {
    DropDone(DepthPolicy(plans, ctx.cands, demanded), ctx.completed)
  }

  /** These policies look at each plan by itself. */
  lemma PolicedJoin(a: seq<Plan>, b: seq<Plan>, ctx: Context, demanded: set<int>)
    ensures Policed(a + b, ctx, demanded) == Policed(a, ctx, demanded) + Policed(b, ctx, demanded)
  {
    var wanted, deepen := (p: Plan) => !(Speaks(p.action) && p.want == WantNo),
        (p: Plan) => Deepen(p, ctx.cands, demanded);
    FilterAppend(a, b, wanted);
    MapJoin(deepen, Filter(a, wanted), Filter(b, wanted));
    FilterAppend(DepthPolicy(a, ctx.cands, demanded), DepthPolicy(b, ctx.cands, demanded),
                 (p: Plan) => !AlreadyDone(p, ctx.completed));
  }

  lemma PolicedOne(p: Plan, ctx: Context, demanded: set<int>)
    requires p.action != Wait && (Speaks(p.action) ==> p.want != WantNo)
    ensures Policed([p], ctx, demanded) == IfUndone(Own(p, ctx.cands, p.mid in demanded), ctx.completed)
  {
    DeepenIsBecoming(p, Own(p, ctx.cands, p.mid in demanded), ctx.cands, demanded);
    var wanted, deepen := (p: Plan) => !(Speaks(p.action) && p.want == WantNo),
        (p: Plan) => Deepen(p, ctx.cands, demanded);
    assert Filter([p], wanted) == [p] + Filter([], wanted);
    assert DepthPolicy([p], ctx.cands, demanded) == Map(deepen, [p]) == [deepen(p)];
    var own, left := Own(p, ctx.cands, p.mid in demanded), (p: Plan) => !AlreadyDone(p, ctx.completed);
    assert Filter([own], left) == if left(own) then [own] + Filter([], left) else Filter([], left);
  }

  lemma RefinedOne(p: Plan, ctx: Context, demanded: set<int>)
    requires p.action != Wait && MayAct(p, ctx.proactiveOk, p.mid in demanded)
    requires Speaks(p.action) ==> p.want != WantNo
    ensures Refined([p], ctx, demanded) == Share(p, ctx, p.mid in demanded)
  {
    assert ExpandMemory([p]) == [p] + Companion(p);
    PolicedJoin([p], Companion(p), ctx, demanded);
    PolicedOne(p, ctx, demanded);
    if Companion(p) != [] {
      PolicedOne(Companion(p)[0], ctx, demanded);
      assert Companion(p) == [Companion(p)[0]];
    } else {
      assert Policed([], ctx, demanded) == [];
    }
  }

  lemma RefinedJoin(a: seq<Plan>, b: seq<Plan>, ctx: Context, demanded: set<int>)
    ensures Refined(a + b, ctx, demanded) == Refined(a, ctx, demanded) + Refined(b, ctx, demanded)
  {
    ExpandedJoin(a, b);
    PolicedJoin(ExpandMemory(a), ExpandMemory(b), ctx, demanded);
  }

  lemma {:induction false} RefinedIsShares(plans: seq<Plan>, ctx: Context, demanded: set<int>)
    requires forall p :: p in plans && Speaks(p.action) ==> p.want != WantNo
    ensures Refined(Acting(plans, ctx.proactiveOk, demanded), ctx, demanded) == Shares(plans, ctx, demanded)
  {
    if plans != [] {
      var p, rest := plans[0], plans[1..];
      assert p in plans && forall q :: q in rest ==> q in plans;
      RefinedIsShares(rest, ctx, demanded);
      if p.action != Wait && MayAct(p, ctx.proactiveOk, p.mid in demanded) {
        RefinedJoin([p], Acting(rest, ctx.proactiveOk, demanded), ctx, demanded);
        RefinedOne(p, ctx, demanded);
      }
    }
  }

  /**
   * The policies in a row, each over the whole list, come to one walk over the answer: item by item, in
   * the order of the answer, each puts its share on the list.
   */
  lemma AnswerYieldsInOrder(b: Batch, entry: Entry, items: seq<Item>, ctx: Context)
    requires b.cands != [] && AnswerValid(Items(items), Required(b))
    ensures Accept(b, entry, items, ctx).plans == Shares(PlansOf(items), ctx, Demanded(b, PlansOf(items)))
  {
    var plans, clean := PlansOf(items), entry.(failures := 0, retryAt := None);
    KeptIsActing(plans, Demanded(b, plans), ctx.proactiveOk, clean, b.cands);
    forall p | p in plans && Speaks(p.action) ensures p.want != WantNo {
      PlansExactly(items, p);
      var i :| i in items && PlanOf(i) == p;
      assert ItemValid(i);
    }
    RefinedIsShares(plans, ctx, Demanded(b, plans));
  }
}
